/**
 The read-only delivery gate: pull requests and base are each read twice, and only two equal
 snapshots are accepted as one fact.
 */
module FinalDelivery {
  import opened Options

  type Sha = nat
  type Name = string

  datatype Pull = Pull(repository: Name, number: nat, url: Name, head: Name, base: Name, marker: Name, headSha: Sha,
                       open: bool, draft: bool)

  datatype Base = Base(repository: Name, ref: Name, sha: Sha, protection: nat, requiredChecks: seq<Name>)

  datatype Request = Request(repository: Name, number: nat, url: Name, head: Name, base: Name, marker: Name,
                             candidate: Sha, expectedBase: Sha, expectedProtection: nat, contexts: seq<Name>,
                             draft: bool)

  /** One read; a failed or unknown one gives nothing. */
  datatype Read<T> = Failed | Value(value: T)

  /** What the remote shows at one instant. */
  datatype Joint = Joint(pulls: seq<Pull>, base: Base)

  /** `toLowerCase` on the ASCII texts that repository names are. */
  function Lower(name: Name): Name {
    seq(|name|, i requires 0 <= i < |name| =>
      if 'A' <= name[i] <= 'Z' then (name[i] as int + 32) as char else name[i])
  }

  predicate ExactPull(p: Pull, r: Request) {
    && Lower(p.repository) == Lower(r.repository) && p.number == r.number && p.url == r.url
    && p.head == r.head && p.base == r.base && p.marker == r.marker
    && p.headSha == r.candidate && p.open && p.draft == r.draft
  }

  /** The base is the reviewed one and asks for no check the run has not passed. */
  predicate AcceptableBase(b: Base, r: Request) {
    && Lower(b.repository) == Lower(r.repository) && b.ref == r.base && b.sha == r.expectedBase
    && b.protection == r.expectedProtection
    && (forall i, j :: 0 <= i < j < |b.requiredChecks| ==> b.requiredChecks[i] != b.requiredChecks[j])
    && (forall i :: 0 <= i < |b.requiredChecks| ==> b.requiredChecks[i] in r.contexts)
  }

  /** One instant at which the run's pull request is delivered: it stands alone on an acceptable base. */
  ghost predicate Delivered(joint: Joint, r: Request) {
    |joint.pulls| == 1 && ExactPull(joint.pulls[0], r) && AcceptableBase(joint.base, r)
  }

  /** `observeFinalDelivery` on its four reads, in order. */
  method ObserveFinalDelivery(r: Request, pullsBefore: Read<seq<Pull>>, baseBefore: Read<Base>,
                              pullsAfter: Read<seq<Pull>>, baseAfter: Read<Base>)
    returns (accepted: Option<Joint>)
    ensures accepted.Some? <==>
      && pullsBefore.Value? && baseBefore.Value? && pullsAfter.Value? && baseAfter.Value?
      && pullsBefore == pullsAfter && baseBefore == baseAfter
      && Delivered(Joint(pullsAfter.value, baseAfter.value), r)
    ensures accepted.Some? ==> accepted.value == Joint(pullsAfter.value, baseAfter.value)
  {
    if pullsBefore.Failed? || baseBefore.Failed? || pullsAfter.Failed? || baseAfter.Failed? { return None; }
    if pullsBefore.value != pullsAfter.value || baseBefore.value != baseAfter.value { return None; }
    var pulls, base := pullsAfter.value, baseAfter.value;
    if |pulls| == 0 { return None; }
    if || Lower(base.repository) != Lower(r.repository) || base.ref != r.base || base.sha != r.expectedBase
       || base.protection != r.expectedProtection { return None; }
    for i := 0 to |base.requiredChecks|
      invariant forall j, k :: 0 <= j < k < i ==> base.requiredChecks[j] != base.requiredChecks[k]
      invariant forall j :: 0 <= j < i ==> base.requiredChecks[j] in r.contexts
    {
      if base.requiredChecks[i] in base.requiredChecks[..i] || base.requiredChecks[i] !in r.contexts { return None; }
    }
    var exact := 0;
    for i := 0 to |pulls|
      invariant 0 <= exact <= i
      invariant |pulls| == 1 && i == 1 ==> (exact == 1 <==> ExactPull(pulls[0], r))
    {
      if pulls[i].head != r.head && pulls[i].marker != r.marker { return None; }
      if ExactPull(pulls[i], r) { exact := exact + 1; }
    }
    if |pulls| != 1 || exact != 1 { return None; }
    return Some(Joint(pulls, base));
  }

  /** The remote's history by instants. */
  type History = nat -> Joint

  /** The pull requests never return to a set they have left. */
  ghost predicate PullsNeverRecur(h: History) {
    forall i, j, k :: i <= j <= k && h(i).pulls == h(k).pulls ==> h(j).pulls == h(i).pulls
  }

  ghost predicate BaseNeverRecurs(h: History) {
    forall i, j, k :: i <= j <= k && h(i).base == h(k).base ==> h(j).base == h(i).base
  }

  /** The four reads of one call, each at its own instant. */
  ghost predicate Collects(h: History, t1: nat, t2: nat, t3: nat, t4: nat, seen: Joint) {
    && t1 <= t2 <= t3 <= t4
    && h(t1).pulls == h(t3).pulls == seen.pulls
    && h(t2).base == h(t4).base == seen.base
  }

  /**
   Two equal collects are a snapshot: where either half never recurs, what was accepted is the joint
   state at one single instant between the first read and the last.
   */
  lemma DoubleCollectIsASnapshot(h: History, t1: nat, t2: nat, t3: nat, t4: nat, seen: Joint) returns (t: nat)
    requires PullsNeverRecur(h) || BaseNeverRecurs(h)
    requires Collects(h, t1, t2, t3, t4, seen)
    ensures t1 <= t <= t4 && h(t) == seen
  {
    if PullsNeverRecur(h) {
      t := t2;
      assert t1 <= t2 <= t3 && h(t1).pulls == h(t3).pulls;
    } else {
      t := t3;
      assert t2 <= t3 <= t4 && h(t2).base == h(t4).base;
    }
  }

  /** Where both recur, the collects can agree on a state that never was. */
  lemma RecurrenceDefeatsTheCollect(a: Joint, b: Joint) returns (h: History)
    requires a.pulls != b.pulls && a.base != b.base
    ensures !PullsNeverRecur(h) && !BaseNeverRecurs(h)
    ensures Collects(h, 0, 1, 2, 3, Joint(a.pulls, b.base))
    ensures forall t :: h(t) != Joint(a.pulls, b.base)
  {
    hide PullsNeverRecur, BaseNeverRecurs;
    h := (t: nat) => if t == 0 || t == 2 then a else b;
    PullsRecur(h);
    BaseRecurs(h);
  }

  lemma PullsRecur(h: History)
    requires h(0).pulls == h(2).pulls != h(1).pulls
    ensures !PullsNeverRecur(h)
  {
  }

  lemma BaseRecurs(h: History)
    requires h(1).base == h(3).base != h(2).base
    ensures !BaseNeverRecurs(h)
  {
  }

  // ---------------------------------------------------------------- the identity every candidate shares

  datatype Binding = Binding(runId: Name, workOrderId: Name, attemptId: Name, generation: nat, candidate: Sha)

  datatype StableIdentity =
    StableIdentity(runId: Name, workOrderId: Name, attemptId: Name, repository: Name, base: Name)

  datatype Proposal = Proposal(head: Name, base: Name, marker: Name, candidate: Sha)

  /** `propose`: the digest covers the run, not the candidate or the owner generation. */
  function Propose(digest: StableIdentity -> Name, b: Binding, repository: Name, base: Name): Proposal {
    var suffix := digest(StableIdentity(b.runId, b.workOrderId, b.attemptId, repository, base));
    Proposal("refs/heads/runmill/asf/" + suffix, base, "runmill-asf-" + suffix, b.candidate)
  }

  ghost predicate Injective(digest: StableIdentity -> Name) {
    forall x, y :: digest(x) == digest(y) ==> x == y
  }

  lemma PrefixCancels(prefix: Name, a: Name, b: Name)
    ensures prefix + a == prefix + b <==> a == b
  {
    if prefix + a == prefix + b {
      assert a == (prefix + a)[|prefix|..] && b == (prefix + b)[|prefix|..];
    }
  }

  /** Two proposals share head and marker exactly when they are of one run, work order, attempt and target. */
  lemma SameProposalSameRun(digest: StableIdentity -> Name, b1: Binding, b2: Binding, repo1: Name, repo2: Name,
                            base1: Name, base2: Name)
    requires Injective(digest)
    ensures var p1, p2 := Propose(digest, b1, repo1, base1), Propose(digest, b2, repo2, base2);
            && (p1.head == p2.head <==> p1.marker == p2.marker)
            && (p1.head == p2.head <==>
                  b1.runId == b2.runId && b1.workOrderId == b2.workOrderId && b1.attemptId == b2.attemptId
                  && repo1 == repo2 && base1 == base2)
  {
    var s1 := digest(StableIdentity(b1.runId, b1.workOrderId, b1.attemptId, repo1, base1));
    var s2 := digest(StableIdentity(b2.runId, b2.workOrderId, b2.attemptId, repo2, base2));
    PrefixCancels("refs/heads/runmill/asf/", s1, s2);
    PrefixCancels("runmill-asf-", s1, s2);
  }
}
