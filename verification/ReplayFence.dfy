/**
 Control requests carry a short-lived, once-only authentication. The verifier remembers the nonces it
 accepted in a bounded map that it prunes by time; it must behave as if it remembered them all.
 */
module ReplayFence {
  import opened Options

  type Secret = seq<nat>
  type Mac = (Secret, Unsigned) -> nat

  const NUL: char := '\0'

  datatype Unsigned = Unsigned(
    controllerId: string,
    keyId: string,
    issuedAt: Option<int>,
    expiresAt: Option<int>,
    nonce: string, requestDigest: nat)

  datatype Authentication = Authentication(unsigned: Unsigned, signature: nat)

  datatype TrustedKey = TrustedKey(controllerId: string, keyId: string, secret: Secret)

  datatype Bounds = Bounds(lifetime: int, skew: int, capacity: int)

  datatype Policy = Policy(keys: map<string, Secret>, bounds: Bounds)

  datatype Refusal =
    Malformed | UntrustedController | InvalidTime | BindingMismatch | InvalidSignature | Replay | ReplayCapacity

  datatype Verdict = Accepted | Refused(reason: Refusal)

  /**
   One call of `verify`: what the clock says, the request's own digest, and the value received, `None` if it
   has another shape.
   */
  datatype Call = Call(now: int, requestDigest: nat, raw: Option<Authentication>)

  // ---------------------------------------------------------------- identifiers and coordinates

  predicate Alphanumeric(c: char) {
    'A' <= c <= 'Z' || 'a' <= c <= 'z' || '0' <= c <= '9'
  }

  predicate Identifier(s: string) {
    && 1 <= |s| <= 256 && Alphanumeric(s[0])
    && forall c :: c in s ==> Alphanumeric(c) || c == '.' || c == '_' || c == ':' || c == '-'
  }

  const NONCE_PREFIX: string := "base64url:"

  predicate Nonce(s: string) {
    && |NONCE_PREFIX| + 22 <= |s| <= |NONCE_PREFIX| + 128 && s[..|NONCE_PREFIX|] == NONCE_PREFIX
    && forall c :: c in s[|NONCE_PREFIX|..] ==> Alphanumeric(c) || c == '_' || c == '-'
  }

  predicate WellFormed(a: Unsigned) {
    Identifier(a.controllerId) && Identifier(a.keyId) && Nonce(a.nonce)
  }

  function KeyCoordinate(controllerId: string, keyId: string): string {
    controllerId + [NUL] + keyId
  }

  function ReplayCoordinate(a: Unsigned): string {
    KeyCoordinate(a.controllerId, a.keyId) + [NUL] + a.nonce
  }

  lemma NulMarksTheSplit(a: string, x: string)
    requires NUL !in a
    ensures (a + [NUL] + x)[|a|] == NUL
    ensures forall i :: 0 <= i < |a| ==> (a + [NUL] + x)[i] != NUL
  {
  }

  /** Where the left parts are free of the separator, both parts can be read back. */
  lemma SplitAtFirstNul(a: string, x: string, b: string, y: string)
    requires NUL !in a && NUL !in b && a + [NUL] + x == b + [NUL] + y
    ensures a == b && x == y
  {
    NulMarksTheSplit(a, x);
    NulMarksTheSplit(b, y);
    assert |a| == |b|;
    assert a == (a + [NUL] + x)[..|a|] && b == (b + [NUL] + y)[..|b|];
    assert x == (a + [NUL] + x)[|a| + 1..] && y == (b + [NUL] + y)[|b| + 1..];
  }

  lemma NoNulInside(s: string)
    ensures Identifier(s) ==> NUL !in s
    ensures Nonce(s) ==> NUL !in s
  {
  }

  /** Different controllers, keys or nonces never share a coordinate. */
  lemma CoordinatesAreDistinct(a: Unsigned, b: Unsigned)
    requires WellFormed(a) && WellFormed(b)
    ensures KeyCoordinate(a.controllerId, a.keyId) == KeyCoordinate(b.controllerId, b.keyId)
            <==> a.controllerId == b.controllerId && a.keyId == b.keyId
    ensures ReplayCoordinate(a) == ReplayCoordinate(b)
            <==> a.controllerId == b.controllerId && a.keyId == b.keyId && a.nonce == b.nonce
  {
    hide Identifier, Nonce;
    NoNulInside(a.controllerId);
    NoNulInside(b.controllerId);
    NoNulInside(a.keyId);
    NoNulInside(b.keyId);
    if KeyCoordinate(a.controllerId, a.keyId) == KeyCoordinate(b.controllerId, b.keyId) {
      SplitAtFirstNul(a.controllerId, a.keyId, b.controllerId, b.keyId);
    }
    if ReplayCoordinate(a) == ReplayCoordinate(b) {
      var restA, restB := a.keyId + [NUL] + a.nonce, b.keyId + [NUL] + b.nonce;
      assert ReplayCoordinate(a) == a.controllerId + [NUL] + restA;
      assert ReplayCoordinate(b) == b.controllerId + [NUL] + restB;
      SplitAtFirstNul(a.controllerId, restA, b.controllerId, restB);
      SplitAtFirstNul(a.keyId, a.nonce, b.keyId, b.nonce);
    }
  }

  // ---------------------------------------------------------------- one call

  /** The checks before the nonces are looked at, in the order they are made. */
  function Precheck(p: Policy, mac: Mac, call: Call): (refusal: Option<Refusal>)
    ensures refusal.None? ==>
              && call.raw.Some? && call.raw.value.unsigned.expiresAt.Some?
              && WellFormed(call.raw.value.unsigned)
  {
    if call.raw.None? || !WellFormed(call.raw.value.unsigned) then Some(Malformed)
    else
      var a := call.raw.value.unsigned;
      var coordinate := KeyCoordinate(a.controllerId, a.keyId);
      if coordinate !in p.keys then Some(UntrustedController)
      else if a.issuedAt.None? || a.expiresAt.None? || a.issuedAt.value > call.now + p.bounds.skew
              || a.expiresAt.value < call.now - p.bounds.skew || a.expiresAt.value <= a.issuedAt.value
              || a.expiresAt.value - a.issuedAt.value > p.bounds.lifetime
      then Some(InvalidTime)
      else if a.requestDigest != call.requestDigest then Some(BindingMismatch)
      else if call.raw.value.signature != mac(p.keys[coordinate], a) then Some(InvalidSignature)
      else None
  }

  function Coordinate(call: Call): string
    requires call.raw.Some?
  {
    ReplayCoordinate(call.raw.value.unsigned)
  }

  function Expiry(call: Call): int
    requires call.raw.Some? && call.raw.value.unsigned.expiresAt.Some?
  {
    call.raw.value.unsigned.expiresAt.value
  }

  function Prune(nonces: map<string, int>, oldest: int): map<string, int> {
    map k | k in nonces && nonces[k] >= oldest :: nonces[k]
  }

  /** Past every other check: replayed, out of room, or accepted and remembered. */
  function Admit(live: map<string, int>, coordinate: string, expiry: int, capacity: int): (Verdict, map<string, int>) {
    if coordinate in live then (Refused(Replay), live)
    else if |live| >= capacity then (Refused(ReplayCapacity), live)
    else (Accepted, live[coordinate := expiry])
  }

  /** The verdict and the nonces kept. */
  function Verify(p: Policy, mac: Mac, nonces: map<string, int>, call: Call): (Verdict, map<string, int>) {
    var refusal := Precheck(p, mac, call);
    if refusal.Some? then (Refused(refusal.value), nonces)
    else Admit(Prune(nonces, call.now - p.bounds.skew), Coordinate(call), Expiry(call), p.bounds.capacity)
  }

  // ---------------------------------------------------------------- the same, remembering everything

  datatype Entry = Entry(coordinate: string, expires: int, at: int)

  /** The coordinates accepted so far whose authentication has not yet expired beyond the skew. */
  ghost function Live(history: seq<Entry>, now: int, skew: int): set<string> {
    set e | e in history && e.expires >= now - skew :: e.coordinate
  }

  ghost function IdealAdmit(history: seq<Entry>, live: set<string>, e: Entry, capacity: int): (Verdict, seq<Entry>) {
    if e.coordinate in live then (Refused(Replay), history)
    else if |live| >= capacity then (Refused(ReplayCapacity), history)
    else (Accepted, history + [e])
  }

  /** A verifier that never forgets. */
  ghost function Ideal(p: Policy, mac: Mac, history: seq<Entry>, call: Call): (Verdict, seq<Entry>) {
    var refusal := Precheck(p, mac, call);
    if refusal.Some? then (Refused(refusal.value), history)
    else
      IdealAdmit(history, Live(history, call.now, p.bounds.skew), Entry(Coordinate(call), Expiry(call), call.now),
                 p.bounds.capacity)
  }

  ghost function History(p: Policy, mac: Mac, calls: seq<Call>): seq<Entry> {
    if |calls| == 0 then [] else Ideal(p, mac, History(p, mac, calls[..|calls| - 1]), calls[|calls| - 1]).1
  }

  ghost function Nonces(p: Policy, mac: Mac, calls: seq<Call>): map<string, int> {
    if |calls| == 0 then map[] else Verify(p, mac, Nonces(p, mac, calls[..|calls| - 1]), calls[|calls| - 1]).1
  }

  /** The verdict on the call at `i`. */
  ghost function VerdictAt(p: Policy, mac: Mac, calls: seq<Call>, i: nat): Verdict
    requires i < |calls|
  {
    Verify(p, mac, Nonces(p, mac, calls[..i]), calls[i]).0
  }

  ghost predicate Monotone(calls: seq<Call>) {
    forall i, j :: 0 <= i < j < |calls| ==> calls[i].now <= calls[j].now
  }

  ghost predicate Admissible(bounds: Bounds) {
    1 <= bounds.lifetime <= 30_000 && 1 <= bounds.skew <= 30_000 && 1 <= bounds.capacity
  }

  /** The map holds every live entry of the history as of `at`, and nothing that was not accepted. */
  ghost predicate Agrees(nonces: map<string, int>, history: seq<Entry>, at: int, skew: int) {
    && (forall k :: k in nonces ==> exists e :: e in history && e.coordinate == k && e.expires == nonces[k])
    && (forall e :: e in history && e.expires >= at - skew ==>
          e.coordinate in nonces && nonces[e.coordinate] == e.expires)
  }

  lemma AgreesLater(nonces: map<string, int>, history: seq<Entry>, at: int, now: int, skew: int)
    requires Agrees(nonces, history, at, skew) && at <= now
    ensures Agrees(Prune(nonces, now - skew), history, now, skew)
    ensures Prune(nonces, now - skew).Keys == Live(history, now, skew)
  {
  }

  lemma AdmitAgrees(live: map<string, int>, history: seq<Entry>, e: Entry, skew: int, capacity: int)
    requires Agrees(live, history, e.at, skew) && live.Keys == Live(history, e.at, skew)
    ensures var map', full := Admit(live, e.coordinate, e.expires, capacity),
                              IdealAdmit(history, Live(history, e.at, skew), e, capacity);
            && map'.0 == full.0 && Agrees(map'.1, full.1, e.at, skew)
            && (|live| <= capacity ==> |map'.1| <= capacity)
  {
  }

  /** One call on both, from states that agree. */
  lemma CallAgrees(p: Policy, mac: Mac, nonces: map<string, int>, history: seq<Entry>, at: int, call: Call)
    requires Agrees(nonces, history, at, p.bounds.skew) && at <= call.now
    ensures Verify(p, mac, nonces, call).0 == Ideal(p, mac, history, call).0
    ensures Agrees(Verify(p, mac, nonces, call).1, Ideal(p, mac, history, call).1, call.now, p.bounds.skew)
    ensures |nonces| <= p.bounds.capacity ==> |Verify(p, mac, nonces, call).1| <= p.bounds.capacity
  {
    hide Precheck, Admit, IdealAdmit, Prune, Live;
    if Precheck(p, mac, call).None? {
      hide Agrees;
      AgreesLater(nonces, history, at, call.now, p.bounds.skew);
      PruneIsSmaller(nonces, call.now - p.bounds.skew);
      AdmitAgrees(Prune(nonces, call.now - p.bounds.skew), history,
                  Entry(Coordinate(call), Expiry(call), call.now), p.bounds.skew, p.bounds.capacity);
    }
  }

  lemma PruneIsSmaller(nonces: map<string, int>, oldest: int)
    ensures |Prune(nonces, oldest)| <= |nonces|
  {
    var live := Prune(nonces, oldest);
    SubsetIsSmaller(live.Keys, nonces.Keys);
    assert |live| == |live.Keys| && |nonces| == |nonces.Keys|;
  }

  lemma SubsetIsSmaller<T>(a: set<T>, b: set<T>)
    requires a <= b
    ensures |a| <= |b|
  {
    assert b == a + (b - a);
  }

  /** Started from nothing, any moment is late enough. */
  function LastTime(calls: seq<Call>, otherwise: int): int {
    if |calls| == 0 then otherwise else calls[|calls| - 1].now
  }

  lemma {:induction false} RunAgrees(p: Policy, mac: Mac, calls: seq<Call>, otherwise: int)
    requires Admissible(p.bounds) && Monotone(calls)
    ensures Agrees(Nonces(p, mac, calls), History(p, mac, calls), LastTime(calls, otherwise), p.bounds.skew)
    ensures |Nonces(p, mac, calls)| <= p.bounds.capacity
  {
    if |calls| > 0 {
      hide Verify, Ideal, Agrees;
      var before, last := calls[..|calls| - 1], calls[|calls| - 1];
      RunAgrees(p, mac, before, last.now);
      CallAgrees(p, mac, Nonces(p, mac, before), History(p, mac, before), LastTime(before, last.now), last);
    }
  }

  // ---------------------------------------------------------------- replays under any clock

  /** Call `k` got as far as the nonces, and pruned everything that expired before this. */
  ghost predicate Prunes(p: Policy, mac: Mac, calls: seq<Call>, k: nat, expiry: int)
    requires k < |calls|
  {
    Precheck(p, mac, calls[k]).None? && calls[k].now - p.bounds.skew > expiry
  }

  /** The acceptance at `i` still stands at the first `j` calls: no call since has pruned it. */
  ghost predicate Stands(p: Policy, mac: Mac, calls: seq<Call>, i: nat, j: nat)
    requires i < j <= |calls|
  {
    && VerdictAt(p, mac, calls, i) == Accepted
    && Precheck(p, mac, calls[i]).None?
    && forall k :: i < k < j ==> !Prunes(p, mac, calls, k, Expiry(calls[i]))
  }

  ghost predicate StandsFor(p: Policy, mac: Mac, calls: seq<Call>, i: nat, j: nat, coordinate: string, expiry: int)
    requires i < j <= |calls|
  {
    Stands(p, mac, calls, i, j) && Coordinate(calls[i]) == coordinate && Expiry(calls[i]) == expiry
  }

  lemma AcceptedPassed(p: Policy, mac: Mac, calls: seq<Call>, i: nat)
    requires i < |calls|
    ensures VerdictAt(p, mac, calls, i) == Accepted ==> Precheck(p, mac, calls[i]).None?
  {
    hide Precheck, Admit, Prune;
  }

  /** One call on one coordinate: it stays unless pruned, and it comes only by being accepted. */
  lemma CallOnCoordinate(p: Policy, mac: Mac, nonces: map<string, int>, call: Call, k: string, e: int)
    ensures var (verdict, after) := Verify(p, mac, nonces, call);
            (k in after && after[k] == e) <==>
              || (verdict == Accepted && Precheck(p, mac, call).None? && Coordinate(call) == k && Expiry(call) == e)
              || (k in nonces && nonces[k] == e
                  && !(Precheck(p, mac, call).None? && call.now - p.bounds.skew > e))
  {
    hide Precheck;
  }

  /** With any clock whatever, the map holds exactly the acceptances that still stand. */
  lemma {:induction false} HeldExactly(p: Policy, mac: Mac, calls: seq<Call>, j: nat, k: string, e: int)
    requires j <= |calls|
    ensures (k in Nonces(p, mac, calls[..j]) && Nonces(p, mac, calls[..j])[k] == e)
            <==> exists i :: 0 <= i < j && StandsFor(p, mac, calls, i, j, k, e)
    decreases j
  {
    hide Precheck, Verify;
    if j == 0 {
      assert calls[..0] == [];
    } else {
      var n := j - 1;
      assert calls[..j][..n] == calls[..n];
      HeldExactly(p, mac, calls, n, k, e);
      CallOnCoordinate(p, mac, Nonces(p, mac, calls[..n]), calls[n], k, e);
      AcceptedPassed(p, mac, calls, n);
      if i :| 0 <= i < n && StandsFor(p, mac, calls, i, n, k, e) {
        assert StandsFor(p, mac, calls, i, j, k, e) <==> !Prunes(p, mac, calls, n, e);
      }
      if i :| 0 <= i < j && StandsFor(p, mac, calls, i, j, k, e) {
        assert i < n ==> StandsFor(p, mac, calls, i, n, k, e) && !Prunes(p, mac, calls, n, e);
      }
      assert StandsFor(p, mac, calls, n, j, k, e) <==>
        VerdictAt(p, mac, calls, n) == Accepted && Precheck(p, mac, calls[n]).None?
        && Coordinate(calls[n]) == k && Expiry(calls[n]) == e;
    }
  }

  /**
   For arbitrary clocks: a call that passes every other check is refused as a replay if and only if its coordinate
   was accepted before and neither a call since then nor this one itself prunes that acceptance.
   */
  lemma ReplayExactly(p: Policy, mac: Mac, calls: seq<Call>, j: nat)
    requires j < |calls| && Precheck(p, mac, calls[j]).None?
    ensures VerdictAt(p, mac, calls, j) == Refused(Replay) <==>
            exists i :: 0 <= i < j && VerdictAt(p, mac, calls, i) == Accepted && Precheck(p, mac, calls[i]).None?
                        && Coordinate(calls[i]) == Coordinate(calls[j])
                        && forall k :: i < k <= j ==> !Prunes(p, mac, calls, k, Expiry(calls[i]))
  {
    hide Precheck;
    var nonces, c := Nonces(p, mac, calls[..j]), Coordinate(calls[j]);
    if c in nonces {
      HeldExactly(p, mac, calls, j, c, nonces[c]);
      var i :| 0 <= i < j && StandsFor(p, mac, calls, i, j, c, nonces[c]);
    }
    if i :| 0 <= i < j && VerdictAt(p, mac, calls, i) == Accepted && Precheck(p, mac, calls[i]).None?
            && Coordinate(calls[i]) == c && forall k :: i < k <= j ==> !Prunes(p, mac, calls, k, Expiry(calls[i]))
    {
      HeldExactly(p, mac, calls, j, c, Expiry(calls[i]));
      assert StandsFor(p, mac, calls, i, j, c, Expiry(calls[i]));
      assert !Prunes(p, mac, calls, j, Expiry(calls[i]));
    }
  }

  /**
   An envelope accepted at `i` that comes again at `j`, with no other use of its coordinate accepted between: it is
   let past the replay check exactly where some call between them pruned at a time beyond its expiry and the skew.
   */
  lemma SameEnvelopeAgain(p: Policy, mac: Mac, calls: seq<Call>, i: nat, j: nat)
    requires i < j < |calls| && VerdictAt(p, mac, calls, i) == Accepted
    requires calls[j].raw == calls[i].raw && Precheck(p, mac, calls[j]).None?
    requires forall m :: i < m < j && calls[m].raw.Some? && Coordinate(calls[m]) == Coordinate(calls[j]) ==>
               VerdictAt(p, mac, calls, m) != Accepted
    ensures VerdictAt(p, mac, calls, j) != Refused(Replay) <==>
            exists k :: i < k < j && Prunes(p, mac, calls, k, Expiry(calls[i]))
  {
    AcceptedPassed(p, mac, calls, i);
    ReplayExactly(p, mac, calls, j);
    NotYetExpired(p, mac, calls, j);
    hide Precheck, VerdictAt;
    if VerdictAt(p, mac, calls, j) == Refused(Replay) {
      var h :| 0 <= h < j && VerdictAt(p, mac, calls, h) == Accepted && Precheck(p, mac, calls[h]).None?
               && Coordinate(calls[h]) == Coordinate(calls[j])
               && forall k :: h < k <= j ==> !Prunes(p, mac, calls, k, Expiry(calls[h]));
      if h < i {
        EarlierWouldRefuse(p, mac, calls, h, i);
      }
    }
  }

  lemma NotYetExpired(p: Policy, mac: Mac, calls: seq<Call>, j: nat)
    requires j < |calls| && Precheck(p, mac, calls[j]).None?
    ensures !Prunes(p, mac, calls, j, Expiry(calls[j]))
  {
  }

  /** An acceptance that was never pruned would have refused the one after it. */
  lemma EarlierWouldRefuse(p: Policy, mac: Mac, calls: seq<Call>, h: nat, i: nat)
    requires h < i < |calls| && VerdictAt(p, mac, calls, h) == Accepted && VerdictAt(p, mac, calls, i) == Accepted
    requires Precheck(p, mac, calls[h]).None? && Precheck(p, mac, calls[i]).None?
    requires Coordinate(calls[h]) == Coordinate(calls[i])
    ensures exists k :: h < k <= i && Prunes(p, mac, calls, k, Expiry(calls[h]))
  {
    hide Precheck;
    ReplayExactly(p, mac, calls, i);
  }

  // ---------------------------------------------------------------- the theorems

  /** With a clock that never goes back the pruned, bounded map decides every call as the full history would. */
  lemma FenceIsExact(p: Policy, mac: Mac, calls: seq<Call>, i: nat)
    requires Admissible(p.bounds) && Monotone(calls) && i < |calls|
    ensures VerdictAt(p, mac, calls, i) == Ideal(p, mac, History(p, mac, calls[..i]), calls[i]).0
    ensures |Nonces(p, mac, calls[..i + 1])| <= p.bounds.capacity
  {
    hide Verify, Ideal, Agrees;
    RunAgrees(p, mac, calls[..i], calls[i].now);
    RunAgrees(p, mac, calls[..i + 1], calls[i].now);
    CallAgrees(p, mac, Nonces(p, mac, calls[..i]), History(p, mac, calls[..i]), LastTime(calls[..i], calls[i].now),
               calls[i]);
  }

  /** No authentication is accepted twice: its coordinate is accepted again only once it has expired beyond the skew. */
  lemma NeverTwice(p: Policy, mac: Mac, calls: seq<Call>, i: nat, j: nat)
    requires Admissible(p.bounds) && Monotone(calls) && i < j < |calls|
    requires VerdictAt(p, mac, calls, i) == Accepted && VerdictAt(p, mac, calls, j) == Accepted
    ensures calls[i].raw.Some? && calls[j].raw.Some?
    ensures var a, b := calls[i].raw.value.unsigned, calls[j].raw.value.unsigned;
            a.controllerId == b.controllerId && a.keyId == b.keyId && a.nonce == b.nonce ==>
              Expiry(calls[i]) + p.bounds.skew < calls[j].now && Expiry(calls[i]) < Expiry(calls[j])
  {
    AcceptedPassed(p, mac, calls, i);
    AcceptedPassed(p, mac, calls, j);
    if Coordinate(calls[i]) == Coordinate(calls[j]) {
      EarlierWouldRefuse(p, mac, calls, i, j);
      var k :| i < k <= j && Prunes(p, mac, calls, k, Expiry(calls[i]));
      assert k < j ==> calls[k].now <= calls[j].now;
    }
  }

  /**
   Nothing accepted long ago is left after the next call that gets as far as the nonces: only a later use can
   hold its place.
   */
  lemma OldEntriesAreGone(p: Policy, mac: Mac, calls: seq<Call>, i: nat, n: nat)
    requires Admissible(p.bounds) && Monotone(calls) && i < n < |calls|
    requires VerdictAt(p, mac, calls, i) == Accepted && Precheck(p, mac, calls[n]).None?
    requires calls[n].now > calls[i].now + p.bounds.lifetime + 2 * p.bounds.skew
    ensures Precheck(p, mac, calls[i]).None?
    ensures var nonces := Nonces(p, mac, calls[..n + 1]);
            Coordinate(calls[i]) in nonces ==> nonces[Coordinate(calls[i])] > Expiry(calls[i])
  {
  }

  /** What the signer makes of a request. */
  function Sign(mac: Mac, key: TrustedKey, lifetime: int, now: int, nonce: string, requestDigest: nat): Authentication {
    var unsigned := Unsigned(key.controllerId, key.keyId, Some(now), Some(now + lifetime), nonce, requestDigest);
    Authentication(unsigned, mac(key.secret, unsigned))
  }

  /** A signed request with a fresh nonce is accepted inside its window exactly while there is room. */
  lemma FreshIsAccepted(p: Policy, mac: Mac, calls: seq<Call>, key: TrustedKey, lifetime: int, issued: int,
                        nonce: string, requestDigest: nat, now: int)
    requires Admissible(p.bounds) && 1 <= lifetime <= p.bounds.lifetime && Nonce(nonce)
    requires Identifier(key.controllerId) && Identifier(key.keyId)
    requires KeyCoordinate(key.controllerId, key.keyId) in p.keys
             && p.keys[KeyCoordinate(key.controllerId, key.keyId)] == key.secret
    requires var call := Call(now, requestDigest, Some(Sign(mac, key, lifetime, issued, nonce, requestDigest)));
             && Monotone(calls + [call])
             && forall e :: e in History(p, mac, calls) ==> e.coordinate != Coordinate(call)
    ensures var call := Call(now, requestDigest, Some(Sign(mac, key, lifetime, issued, nonce, requestDigest)));
            VerdictAt(p, mac, calls + [call], |calls|) == Accepted
            <==> && issued - p.bounds.skew <= now <= issued + lifetime + p.bounds.skew
                 && |Live(History(p, mac, calls), now, p.bounds.skew)| < p.bounds.capacity
  {
    hide Agrees;
    var call := Call(now, requestDigest, Some(Sign(mac, key, lifetime, issued, nonce, requestDigest)));
    var all := calls + [call];
    assert all[..|calls|] == calls;
    FenceIsExact(p, mac, all, |calls|);
  }

  /** One such case: a prune at a later time, then the clock back at the first one. */
  lemma ClockGoingBackReplays(mac: Mac, key: TrustedKey, first: string, second: string)
    requires Identifier(key.controllerId) && Identifier(key.keyId) && Nonce(first) && Nonce(second) && first != second
    ensures var p := Policy(map[KeyCoordinate(key.controllerId, key.keyId) := key.secret],
                            Bounds(5_000, 1_000, 10_000));
            var once, other := Sign(mac, key, 5_000, 0, first, 7), Sign(mac, key, 5_000, 9_000, second, 7);
            var calls := [Call(0, 7, Some(once)), Call(9_000, 7, Some(other)), Call(0, 7, Some(once))];
            VerdictAt(p, mac, calls, 0) == Accepted && VerdictAt(p, mac, calls, 2) == Accepted
  {
    hide Identifier, Nonce;
    var p := Policy(map[KeyCoordinate(key.controllerId, key.keyId) := key.secret], Bounds(5_000, 1_000, 10_000));
    var once, other := Sign(mac, key, 5_000, 0, first, 7), Sign(mac, key, 5_000, 9_000, second, 7);
    var calls := [Call(0, 7, Some(once)), Call(9_000, 7, Some(other)), Call(0, 7, Some(once))];
    CoordinatesAreDistinct(once.unsigned, other.unsigned);
    assert calls[..0] == [] && calls[..1] == [calls[0]] && calls[..2] == [calls[0], calls[1]];
    assert calls[..2][..1] == calls[..1] && calls[..1][..0] == calls[..0];
    assert Prune(map[], -1_000) == map[];
    assert Nonces(p, mac, calls[..1]) == map[Coordinate(calls[0]) := 5_000];
    assert Prune(Nonces(p, mac, calls[..1]), 8_000) == map[];
    assert Nonces(p, mac, calls[..2]) == map[Coordinate(calls[1]) := 14_000];
    assert Prune(Nonces(p, mac, calls[..2]), -1_000) == Nonces(p, mac, calls[..2]);
  }

  // ---------------------------------------------------------------- the verifier as it runs

  class Authenticator {
    const policy: Policy
    const mac: Mac
    var nonces: map<string, int>

    constructor (policy: Policy, mac: Mac)
      ensures this.policy == policy && this.mac == mac && nonces == map[]
    {
      this.policy, this.mac, nonces := policy, mac, map[];
    }

    /** Entries are deleted one by one while the map is walked. */
    method PruneNonces(oldest: int)
      modifies this
      ensures nonces == Prune(old(nonces), oldest)
    {
      var walk := nonces.Keys;
      while walk != {}
        invariant walk <= nonces.Keys <= old(nonces).Keys
        invariant forall k :: k in nonces ==> nonces[k] == old(nonces)[k]
        invariant forall k :: k in old(nonces) && k !in walk ==> (k in nonces <==> old(nonces)[k] >= oldest)
        decreases |walk|
      {
        var k :| k in walk;
        walk := walk - {k};
        if nonces[k] < oldest {
          nonces := nonces - {k};
        }
      }
    }

    method VerifyCall(call: Call) returns (verdict: Verdict)
      modifies this
      ensures (verdict, nonces) == Verify(policy, mac, old(nonces), call)
    {
      var refusal := Precheck(policy, mac, call);
      if refusal.Some? {
        return Refused(refusal.value);
      }
      PruneNonces(call.now - policy.bounds.skew);
      if Coordinate(call) in nonces {
        return Refused(Replay);
      }
      if |nonces| >= policy.bounds.capacity {
        return Refused(ReplayCapacity);
      }
      nonces := nonces[Coordinate(call) := Expiry(call)];
      return Accepted;
    }
  }

  /** `new AsfControlRequestAuthenticator`: the options it throws on, and the keys it collects. */
  ghost predicate Acceptable(keys: seq<TrustedKey>, bounds: Bounds) {
    && |keys| > 0
    && (forall k :: k in keys ==> GoodKey(k))
    && (forall i, j :: 0 <= i < j < |keys| ==>
          (keys[i].controllerId, keys[i].keyId) != (keys[j].controllerId, keys[j].keyId))
    && Admissible(bounds)
  }

  predicate GoodKey(k: TrustedKey) {
    Identifier(k.controllerId) && Identifier(k.keyId) && |k.secret| >= 32
  }

  function CoordinateOf(k: TrustedKey): string {
    KeyCoordinate(k.controllerId, k.keyId)
  }

  /** The map of the keys so far, each under its own coordinate. */
  ghost predicate Collects(keys: seq<TrustedKey>, collected: map<string, Secret>) {
    && (forall k :: k in keys ==> GoodKey(k) && CoordinateOf(k) in collected && collected[CoordinateOf(k)] == k.secret)
    && (forall i, j :: 0 <= i < j < |keys| ==> CoordinateOf(keys[i]) != CoordinateOf(keys[j]))
    && (forall c :: c in collected ==> exists k :: k in keys && c == CoordinateOf(k))
  }

  method CollectKeys(keys: seq<TrustedKey>, bounds: Bounds) returns (policy: Option<Policy>)
    ensures policy.Some? <==> Acceptable(keys, bounds)
    ensures policy.Some? ==> policy.value.bounds == bounds && Collects(keys, policy.value.keys)
  {
    if |keys| == 0 { return None; }
    var collected: map<string, Secret> := map[];
    for i := 0 to |keys|
      invariant Collects(keys[..i], collected)
    {
      hide KeyCoordinate, Identifier, CoordinateOf;
      var key := keys[i];
      if !GoodKey(key) {
        assert key in keys;
        return None;
      }
      if CoordinateOf(key) in collected {
        var k :| k in keys[..i] && CoordinateOf(key) == CoordinateOf(k);
        SharedCoordinate(keys, i, k);
        return None;
      }
      OneMoreKey(keys, i, collected);
      collected := collected[CoordinateOf(key) := key.secret];
    }
    assert keys[..|keys|] == keys;
    CollectedAreDistinct(keys, collected);
    if || bounds.lifetime < 1 || bounds.skew < 1 || bounds.capacity < 1 || bounds.lifetime > 30_000
       || bounds.skew > 30_000 {
      return None;
    }
    return Some(Policy(collected, bounds));
  }

  lemma OneMoreKey(keys: seq<TrustedKey>, i: nat, collected: map<string, Secret>)
    requires i < |keys| && Collects(keys[..i], collected) && GoodKey(keys[i]) && CoordinateOf(keys[i]) !in collected
    ensures Collects(keys[..i + 1], collected[CoordinateOf(keys[i]) := keys[i].secret])
  {
  }

  lemma SharedCoordinate(keys: seq<TrustedKey>, i: nat, k: TrustedKey)
    requires i < |keys| && k in keys[..i] && GoodKey(k) && GoodKey(keys[i]) && CoordinateOf(k) == CoordinateOf(keys[i])
    ensures exists a :: 0 <= a < i && (keys[a].controllerId, keys[a].keyId) == (keys[i].controllerId, keys[i].keyId)
  {
    hide Identifier;
    var a :| 0 <= a < i && keys[a] == k;
    KeysAreDistinct(k, keys[i]);
  }

  lemma CollectedAreDistinct(keys: seq<TrustedKey>, collected: map<string, Secret>)
    requires Collects(keys, collected)
    ensures forall k :: k in keys ==> GoodKey(k)
    ensures forall i, j :: 0 <= i < j < |keys| ==>
              (keys[i].controllerId, keys[i].keyId) != (keys[j].controllerId, keys[j].keyId)
  {
  }

  lemma KeysAreDistinct(a: TrustedKey, b: TrustedKey)
    requires Identifier(a.controllerId) && Identifier(b.controllerId)
    ensures KeyCoordinate(a.controllerId, a.keyId) == KeyCoordinate(b.controllerId, b.keyId)
            <==> (a.controllerId, a.keyId) == (b.controllerId, b.keyId)
  {
    hide Identifier;
    NoNulInside(a.controllerId);
    NoNulInside(b.controllerId);
    if KeyCoordinate(a.controllerId, a.keyId) == KeyCoordinate(b.controllerId, b.keyId) {
      SplitAtFirstNul(a.controllerId, a.keyId, b.controllerId, b.keyId);
    }
  }
}
