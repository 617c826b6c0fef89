/**
 The verdict on a head commit's CI: every page of check runs and commit statuses is read, the rows are put
 in one order, and each required context gets an outcome from its own rows.
 */
module CiVerdict {
  import ExactSets
  import opened Naturals
  import opened Options
  import Sorting

  const PAGE_SIZE: nat := 100
  const MAX_ROWS: nat := 10_000
  const LAST_PAGE: nat := 101

  datatype Source = CheckRun | CommitStatus

  datatype RowOutcome = RowPassed | RowFailed | RowPending

  datatype CiOutcome = Passed | Failed | Pending | NotScheduled

  /** A normalised row; ids are positive safe integers and `at` is an instant in milliseconds. */
  datatype Observation = Observation(source: Source, id: nat, context: string, state: nat, conclusion: Option<nat>,
                                     at: Option<int>, provider: Option<nat>, outcome: RowOutcome, coherent: bool)

  /** One response: `None` in a row for one the normaliser refuses. */
  datatype CheckRunPage = CheckRunPage(total: nat, rows: seq<Option<Observation>>)

  // ---------------------------------------------------------------- reading every page

  ghost predicate SameKey(a: Observation, b: Observation) {
    a.source == b.source && a.id == b.id
  }

  ghost predicate DistinctKeys(s: seq<Observation>) {
    forall i, j :: 0 <= i < j < |s| ==> !SameKey(s[i], s[j])
  }

  function Keys(s: seq<Observation>): (keys: set<(Source, nat)>)
    ensures forall i :: 0 <= i < |s| ==> (s[i].source, s[i].id) in keys
  {
    set o | o in s :: (o.source, o.id)
  }

  /** The rows of a page appended one by one: a refused row or a key seen before refuses the whole read. */
  function AddRows(seen: seq<Observation>, rows: seq<Option<Observation>>): Option<seq<Observation>> {
    if |rows| == 0 then Some(seen)
    else
      var before := AddRows(seen, rows[..|rows| - 1]);
      var row := rows[|rows| - 1];
      if before.None? || row.None? || (row.value.source, row.value.id) in Keys(before.value) then None
      else Some(before.value + [row.value])
  }

  method AppendRows(seen: seq<Observation>, rows: seq<Option<Observation>>) returns (all: Option<seq<Observation>>)
    ensures all == AddRows(seen, rows)
  {
    var observations := seen;
    var keys := Keys(seen);
    for i := 0 to |rows|
      invariant AddRows(seen, rows[..i]) == Some(observations) && keys == Keys(observations)
    {
      assert rows[..i + 1][..i] == rows[..i];
      if rows[i].None? || (rows[i].value.source, rows[i].value.id) in keys {
        RefusedStays(seen, rows, i + 1);
        return None;
      }
      keys := keys + {(rows[i].value.source, rows[i].value.id)};
      observations := observations + [rows[i].value];
    }
    assert rows[..|rows|] == rows;
    return Some(observations);
  }

  lemma {:induction false} RefusedStays(seen: seq<Observation>, rows: seq<Option<Observation>>, i: nat)
    requires i <= |rows| && AddRows(seen, rows[..i]).None?
    ensures AddRows(seen, rows).None?
    decreases |rows| - i
  {
    if i == |rows| {
      assert rows[..i] == rows;
    } else {
      assert rows[..i + 1][..i] == rows[..i];
      RefusedStays(seen, rows, i + 1);
    }
  }

  /** `#listCheckRuns` from page `page` on. */
  function CheckRunsFrom(serve: nat -> Option<CheckRunPage>, page: nat, seen: seq<Observation>, expected: Option<nat>)
    : Option<seq<Observation>>
    requires 1 <= page <= LAST_PAGE
    decreases LAST_PAGE - page
  {
    var response := serve(page);
    if response.None? || |response.value.rows| > PAGE_SIZE || response.value.total > MAX_ROWS then None
    else if expected.Some? && expected.value != response.value.total then None
    else if |response.value.rows| == 0 && |seen| < response.value.total then None
    else
      var all := AddRows(seen, response.value.rows);
      if all.None? || |all.value| > response.value.total then None
      else if |all.value| == response.value.total then all
      else if page == LAST_PAGE then None
      else CheckRunsFrom(serve, page + 1, all.value, Some(response.value.total))
  }

  method ListCheckRuns(serve: nat -> Option<CheckRunPage>) returns (all: Option<seq<Observation>>)
    ensures all == CheckRunsFrom(serve, 1, [], None)
  {
    hide AddRows;
    var observations: seq<Observation>, expectedTotal: Option<nat>, page := [], None, 1;
    while true
      invariant 1 <= page <= LAST_PAGE
      invariant CheckRunsFrom(serve, page, observations, expectedTotal) == CheckRunsFrom(serve, 1, [], None)
      decreases LAST_PAGE - page
    {
      var response := serve(page);
      if response.None? || |response.value.rows| > PAGE_SIZE { return None; }
      if response.value.total > MAX_ROWS { return None; }
      if expectedTotal.None? {
        expectedTotal := Some(response.value.total);
      }
      if expectedTotal.value != response.value.total { return None; }
      if |response.value.rows| == 0 && |observations| < expectedTotal.value { return None; }
      var more := AppendRows(observations, response.value.rows);
      if more.None? { return None; }
      if |more.value| > expectedTotal.value { return None; }
      if |more.value| == expectedTotal.value { return more; }
      if page + 1 > LAST_PAGE { return None; }
      observations, page := more.value, page + 1;
    }
  }

  /** `#listCommitStatuses` from page `page` on: there is no total, a short page is the last one. */
  function StatusesFrom(serve: nat -> Option<seq<Option<Observation>>>, page: nat, seen: seq<Observation>)
    : Option<seq<Observation>>
    requires 1 <= page <= LAST_PAGE
    decreases LAST_PAGE - page
  {
    var rows := serve(page);
    if rows.None? || |rows.value| > PAGE_SIZE || |seen| + |rows.value| > MAX_ROWS then None
    else
      var all := AddRows(seen, rows.value);
      if all.None? then None
      else if |rows.value| < PAGE_SIZE then all
      else if page == LAST_PAGE then None
      else StatusesFrom(serve, page + 1, all.value)
  }

  method ListCommitStatuses(serve: nat -> Option<seq<Option<Observation>>>) returns (all: Option<seq<Observation>>)
    ensures all == StatusesFrom(serve, 1, [])
  {
    hide AddRows;
    var observations: seq<Observation>, page := [], 1;
    while true
      invariant 1 <= page <= LAST_PAGE
      invariant StatusesFrom(serve, page, observations) == StatusesFrom(serve, 1, [])
      decreases LAST_PAGE - page
    {
      var rows := serve(page);
      if rows.None? || |rows.value| > PAGE_SIZE { return None; }
      if |observations| + |rows.value| > MAX_ROWS { return None; }
      var more := AppendRows(observations, rows.value);
      if more.None? { return None; }
      if |rows.value| < PAGE_SIZE { return more; }
      if page + 1 > LAST_PAGE { return None; }
      observations, page := more.value, page + 1;
    }
  }

  // ---------------------------------------------------------------- a server whose rows do not change

  function PageOf(rows: seq<Observation>, page: nat): seq<Observation>
    requires page > 0
  {
    rows[Least((page - 1) * PAGE_SIZE, |rows|)..Least(page * PAGE_SIZE, |rows|)]
  }

  function Whole(rows: seq<Observation>): (whole: seq<Option<Observation>>)
    ensures |whole| == |rows| && forall i :: 0 <= i < |rows| ==> whole[i] == Some(rows[i])
  {
    seq(|rows|, i requires 0 <= i < |rows| => Some(rows[i]))
  }

  ghost predicate ServesRuns(serve: nat -> Option<CheckRunPage>, rows: seq<Observation>) {
    forall page :: page > 0 ==> serve(page) == Some(CheckRunPage(|rows|, Whole(PageOf(rows, page))))
  }

  ghost predicate ServesStatuses(serve: nat -> Option<seq<Option<Observation>>>, rows: seq<Observation>) {
    forall page :: page > 0 ==> serve(page) == Some(Whole(PageOf(rows, page)))
  }

  lemma {:induction false} NewRowsAreAdded(seen: seq<Observation>, rows: seq<Observation>)
    requires DistinctKeys(seen + rows)
    ensures AddRows(seen, Whole(rows)) == Some(seen + rows)
  {
    if |rows| == 0 {
      assert seen + rows == seen;
    } else {
      var n := |rows| - 1;
      var before, last := seen + rows[..n], rows[n];
      assert Whole(rows)[..n] == Whole(rows[..n]);
      assert seen + rows == before + [last];
      assert DistinctKeys(before) by {
        forall i, j | 0 <= i < j < |before| ensures !SameKey(before[i], before[j]) {
          assert (seen + rows)[i] == before[i] && (seen + rows)[j] == before[j];
        }
      }
      NewRowsAreAdded(seen, rows[..n]);
      forall o | o in before ensures (o.source, o.id) != (last.source, last.id) {
        var i :| 0 <= i < |before| && before[i] == o;
        assert (before + [last])[i] == o && (before + [last])[|before|] == last;
        assert !SameKey((before + [last])[i], (before + [last])[|before|]);
      }
    }
  }

  /** Page after page of a stable server gathers a longer front of its rows. */
  lemma PageGathers(rows: seq<Observation>, page: nat)
    requires page > 0 && DistinctKeys(rows)
    ensures AddRows(rows[..Least((page - 1) * PAGE_SIZE, |rows|)], Whole(PageOf(rows, page)))
            == Some(rows[..Least(page * PAGE_SIZE, |rows|)])
  {
    var from, end := Least((page - 1) * PAGE_SIZE, |rows|), Least(page * PAGE_SIZE, |rows|);
    assert rows[..from] + rows[from..end] == rows[..end];
    NewRowsAreAdded(rows[..from], rows[from..end]);
  }

  lemma {:induction false} StableRunsFrom(serve: nat -> Option<CheckRunPage>, rows: seq<Observation>, page: nat,
                                          expected: Option<nat>)
    requires ServesRuns(serve, rows) && DistinctKeys(rows) && |rows| <= MAX_ROWS
    requires 1 <= page <= LAST_PAGE && (page - 1) * PAGE_SIZE <= |rows|
             && (page > 1 ==> (page - 1) * PAGE_SIZE < |rows|)
    requires expected.Some? ==> expected.value == |rows|
    ensures CheckRunsFrom(serve, page, rows[..(page - 1) * PAGE_SIZE], expected) == Some(rows)
    decreases LAST_PAGE - page
  {
    hide AddRows;
    var end := Least(page * PAGE_SIZE, |rows|);
    PageGathers(rows, page);
    assert serve(page) == Some(CheckRunPage(|rows|, Whole(PageOf(rows, page))));
    assert rows[..|rows|] == rows;
    if end < |rows| {
      StableRunsFrom(serve, rows, page + 1, Some(|rows|));
    }
  }

  /** A stable set of check runs is returned whole, each row once and in its order, exactly up to the bound. */
  lemma StableCheckRunsAreRead(serve: nat -> Option<CheckRunPage>, rows: seq<Observation>)
    requires ServesRuns(serve, rows) && DistinctKeys(rows)
    ensures CheckRunsFrom(serve, 1, [], None) == if |rows| <= MAX_ROWS then Some(rows) else None
  {
    assert serve(1) == Some(CheckRunPage(|rows|, Whole(PageOf(rows, 1))));
    if |rows| <= MAX_ROWS {
      StableRunsFrom(serve, rows, 1, None);
    }
  }

  lemma {:induction false} StableStatusesFrom(serve: nat -> Option<seq<Option<Observation>>>, rows: seq<Observation>,
                                              page: nat)
    requires ServesStatuses(serve, rows) && DistinctKeys(rows)
    requires 1 <= page <= LAST_PAGE && (page - 1) * PAGE_SIZE <= |rows|
    ensures StatusesFrom(serve, page, rows[..(page - 1) * PAGE_SIZE]) == if |rows| <= MAX_ROWS then Some(rows) else None
    decreases LAST_PAGE - page
  {
    hide AddRows;
    var end := Least(page * PAGE_SIZE, |rows|);
    PageGathers(rows, page);
    assert serve(page) == Some(Whole(PageOf(rows, page)));
    assert rows[..|rows|] == rows;
    if page * PAGE_SIZE <= |rows| && page < LAST_PAGE && page * PAGE_SIZE <= MAX_ROWS {
      StableStatusesFrom(serve, rows, page + 1);
    }
  }

  lemma StableStatusesAreRead(serve: nat -> Option<seq<Option<Observation>>>, rows: seq<Observation>)
    requires ServesStatuses(serve, rows) && DistinctKeys(rows)
    ensures StatusesFrom(serve, 1, []) == if |rows| <= MAX_ROWS then Some(rows) else None
  {
    StableStatusesFrom(serve, rows, 1);
  }

  lemma {:induction false} AddedAreDistinct(seen: seq<Observation>, rows: seq<Option<Observation>>)
    requires DistinctKeys(seen)
    ensures AddRows(seen, rows).Some? ==>
              DistinctKeys(AddRows(seen, rows).value) && |AddRows(seen, rows).value| == |seen| + |rows|
  {
    if |rows| > 0 {
      AddedAreDistinct(seen, rows[..|rows| - 1]);
    }
  }

  /** Whatever the server does, stable or not: an accepted list never holds a row twice nor passes the bound. */
  lemma {:induction false} AcceptedRunsAreDistinct(serve: nat -> Option<CheckRunPage>, page: nat,
                                                   seen: seq<Observation>, expected: Option<nat>)
    requires 1 <= page <= LAST_PAGE && DistinctKeys(seen)
    ensures var all := CheckRunsFrom(serve, page, seen, expected);
            all.Some? ==> DistinctKeys(all.value) && |all.value| <= MAX_ROWS
                          && (expected.Some? ==> |all.value| == expected.value)
    decreases LAST_PAGE - page
  {
    hide AddRows, DistinctKeys;
    var response := serve(page);
    if response.Some? {
      AddedAreDistinct(seen, response.value.rows);
      var all := AddRows(seen, response.value.rows);
      if all.Some? && page < LAST_PAGE {
        AcceptedRunsAreDistinct(serve, page + 1, all.value, Some(response.value.total));
      }
    }
  }

  // ---------------------------------------------------------------- one order for the rows

  predicate TimeBefore(a: Option<int>, b: Option<int>) {
    b.Some? && (a.None? || a.value < b.value)
  }

  /** `observationSort` does not put `b` before `a`. `rank` stands for the locale's order of contexts, ties included. */
  predicate AtMost(rank: string -> real, a: Observation, b: Observation) {
    if rank(a.context) != rank(b.context) then rank(a.context) < rank(b.context)
    else if a.at != b.at then TimeBefore(a.at, b.at)
    else if a.source != b.source then a.source == CheckRun
    else a.id <= b.id
  }

  /** `compareObservation` knows no contexts. */
  function NoRank(context: string): real {
    0.0
  }

  function Order(rank: string -> real): Sorting.Relation<Observation> {
    (a, b) => AtMost(rank, a, b)
  }

  function Sort(rank: string -> real, s: seq<Observation>): (sorted: seq<Observation>)
    ensures multiset(sorted) == multiset(s)
  {
    Sorting.Sort(Order(rank), s)
  }

  ghost predicate Sorted(rank: string -> real, s: seq<Observation>) {
    forall i, j :: 0 <= i < j < |s| ==> AtMost(rank, s[i], s[j])
  }

  lemma SortSorts(rank: string -> real, s: seq<Observation>)
    ensures Sorted(rank, Sort(rank, s))
  {
    Sorting.SortSorts(Order(rank), s);
  }

  /** Rows with different keys have one sorting only, whatever algorithm finds it. */
  lemma OnlyOneSorting(rank: string -> real, a: seq<Observation>, b: seq<Observation>)
    requires Sorted(rank, a) && Sorted(rank, b) && multiset(a) == multiset(b) && DistinctKeys(a)
    ensures a == b
  {
    DistinctKeysMove(a, b);
    Sorting.SameElements(a, b);
    Sorting.OneSorting(Order(rank), a, b);
  }

  function KeyList(s: seq<Observation>): (keys: seq<(Source, nat)>)
    ensures |keys| == |s| && forall i :: 0 <= i < |s| ==> keys[i] == (s[i].source, s[i].id)
  {
    seq(|s|, i requires 0 <= i < |s| => (s[i].source, s[i].id))
  }

  lemma KeysByCount(s: seq<Observation>)
    ensures |ExactSets.Values(KeyList(s))| == |s| <==> DistinctKeys(s)
  {
    ExactSets.DistinctSize(KeyList(s));
    if ExactSets.Distinct(KeyList(s)) {
      forall i, j | 0 <= i < j < |s| ensures !SameKey(s[i], s[j]) {
        assert KeyList(s)[i] != KeyList(s)[j];
      }
    }
    if DistinctKeys(s) {
      forall i, j | 0 <= i < j < |s| ensures KeyList(s)[i] != KeyList(s)[j] {
        assert !SameKey(s[i], s[j]);
      }
    }
  }

  lemma KeysOfMembers(a: seq<Observation>, b: seq<Observation>)
    requires forall o :: o in a ==> o in b
    ensures ExactSets.Values(KeyList(a)) <= ExactSets.Values(KeyList(b))
  {
    forall key | key in KeyList(a) ensures key in KeyList(b) {
      var i :| 0 <= i < |a| && KeyList(a)[i] == key;
      assert a[i] in b;
      var j :| 0 <= j < |b| && b[j] == a[i];
      assert KeyList(b)[j] == key;
    }
  }

  lemma DistinctKeysMove(a: seq<Observation>, b: seq<Observation>)
    requires multiset(a) == multiset(b) && DistinctKeys(a)
    ensures DistinctKeys(b)
  {
    hide DistinctKeys;
    Sorting.SameElements(a, b);
    KeysByCount(a);
    KeysByCount(b);
    KeysOfMembers(a, b);
    KeysOfMembers(b, a);
    assert ExactSets.Values(KeyList(a)) == ExactSets.Values(KeyList(b));
  }

  // ---------------------------------------------------------------- the outcome of a context

  function WithTime(s: seq<Observation>, at: Option<int>): (latest: seq<Observation>)
    ensures forall o :: o in latest <==> o in s && o.at == at
  {
    if |s| == 0 then []
    else
      var rest := WithTime(s[1..], at);
      assert s == [s[0]] + s[1..];
      if s[0].at == at then [s[0]] + rest else rest
  }

  function OfRow(outcome: RowOutcome): CiOutcome {
    match outcome
    case RowPassed => Passed
    case RowFailed => Failed
    case RowPending => Pending
  }

  /** `normalizedOutcome`. */
  function Outcome(s: seq<Observation>): CiOutcome {
    if |s| == 0 then NotScheduled
    else if exists o :: o in s && !o.coherent then Failed
    else if |set o | o in s :: (o.source, o.provider)| != 1 then Failed
    else
      SortSorts(NoRank, s);
      Sorting.SameElements(Sort(NoRank, s), s);
      var sorted := Sort(NoRank, s);
      var latestTime := sorted[|sorted| - 1].at;
      if latestTime.None? then Failed
      else
        var latest := WithTime(s, latestTime);
        if |set o | o in latest :: o.outcome| != 1 then Failed
        else if |latest| == 0 then Failed
        else OfRow(latest[0].outcome)
  }

  /** What it should mean, with no order and no sorting in it. */
  ghost predicate Agreed(s: seq<Observation>, outcome: RowOutcome) {
    && |s| > 0
    && (forall o :: o in s ==> o.coherent)
    && OneProducer(s)
    && LatestAre(s, outcome)
  }

  ghost predicate OneProducer(s: seq<Observation>) {
    forall a, b :: a in s && b in s ==> a.source == b.source && a.provider == b.provider
  }

  ghost predicate LatestAre(s: seq<Observation>, outcome: RowOutcome) {
    forall o :: o in s && Greatest(o, s) ==> o.at.Some? && o.outcome == outcome
  }

  ghost predicate Greatest(o: Observation, s: seq<Observation>) {
    forall other :: other in s ==> !TimeBefore(o.at, other.at)
  }

  lemma OneElement<T>(s: set<T>, x: T)
    requires x in s
    ensures |s| == 1 <==> forall y :: y in s ==> y == x
  {
    var others := s - {x};
    assert |others| == |s| - 1;
    assert |others| == 0 <==> others == {};
    forall y | y in s ensures y == x || y in others {
    }
  }

  lemma LastIsGreatest(s: seq<Observation>)
    requires |s| > 0
    ensures |Sort(NoRank, s)| == |s|
    ensures var last := Sort(NoRank, s)[|s| - 1];
            last in s && forall o :: o in s ==> (Greatest(o, s) <==> o.at == last.at)
  {
    hide Sort;
    var sorted := Sort(NoRank, s);
    SortSorts(NoRank, s);
    Sorting.SameElements(sorted, s);
    var last := sorted[|s| - 1];
    forall o | o in s ensures !TimeBefore(last.at, o.at) {
      var i :| 0 <= i < |sorted| && sorted[i] == o;
      if i < |s| - 1 { assert AtMost(NoRank, sorted[i], last); }
    }
    forall o | o in s ensures Greatest(o, s) <==> o.at == last.at {
      if Greatest(o, s) { assert !TimeBefore(o.at, last.at); }
    }
  }

  lemma Producers(s: seq<Observation>)
    requires |s| > 0
    ensures |set o | o in s :: (o.source, o.provider)| == 1 <==> OneProducer(s)
  {
    var producers := set o | o in s :: (o.source, o.provider);
    var x := s[0];
    assert x in s && (x.source, x.provider) in producers;
    OneElement(producers, (x.source, x.provider));
    if forall y :: y in producers ==> y == (x.source, x.provider) {
      forall a, b | a in s && b in s ensures a.source == b.source && a.provider == b.provider {
        assert (a.source, a.provider) in producers && (b.source, b.provider) in producers;
      }
    }
  }

  /** The rows picked out by the last time of the sorting are the ones at the greatest timestamp. */
  lemma LatestOutcomes(s: seq<Observation>, outcome: RowOutcome)
    requires |s| > 0
    ensures |Sort(NoRank, s)| == |s|
    ensures var at := Sort(NoRank, s)[|s| - 1].at;
            var latest := WithTime(s, at);
            && |latest| > 0
            && (LatestAre(s, outcome) <==>
                  at.Some? && |set o | o in latest :: o.outcome| == 1 && latest[0].outcome == outcome)
  {
    hide Sort, Greatest, WithTime;
    LastIsGreatest(s);
    var last := Sort(NoRank, s)[|s| - 1];
    var latest := WithTime(s, last.at);
    var outcomes := set o | o in latest :: o.outcome;
    assert last in latest;
    assert latest[0] in latest && latest[0].outcome in outcomes;
    OneElement(outcomes, latest[0].outcome);
    if forall y :: y in outcomes ==> y == latest[0].outcome {
      forall o | o in latest ensures o.outcome == latest[0].outcome {
        assert o.outcome in outcomes;
      }
    }
  }

  /**
   A context passes if and only if it has rows, all coherent, from a single producer, and every row at the
   greatest timestamp passed; it is pending likewise; it is not scheduled exactly without rows.
   */
  lemma OutcomeMeans(s: seq<Observation>)
    ensures Outcome(s) == Passed <==> Agreed(s, RowPassed)
    ensures Outcome(s) == Pending <==> Agreed(s, RowPending)
    ensures Outcome(s) == NotScheduled <==> s == []
  {
    if |s| > 0 {
      hide Sort, WithTime, LatestAre, OneProducer;
      Producers(s);
      LatestOutcomes(s, RowPassed);
      LatestOutcomes(s, RowPending);
    }
  }

  // ---------------------------------------------------------------- evidence for a context

  function InContext(s: seq<Observation>, context: string): seq<Observation> {
    if |s| == 0 then []
    else
      var rest := InContext(s[1..], context);
      if s[0].context == context then [s[0]] + rest else rest
  }

  /** The rows of both lists in one order, and those of one context among them. */
  function Evidence(rank: string -> real, runs: seq<Observation>, statuses: seq<Observation>, context: string)
    : seq<Observation>
  {
    InContext(Sort(rank, runs + statuses), context)
  }

  /** Whatever order the rows came in, a context's evidence list and its outcome are the same. */
  lemma VerdictForgetsOrder(rank: string -> real, runs: seq<Observation>, statuses: seq<Observation>,
                            otherRuns: seq<Observation>, otherStatuses: seq<Observation>, context: string)
    requires DistinctKeys(runs + statuses)
    requires multiset(runs) == multiset(otherRuns) && multiset(statuses) == multiset(otherStatuses)
    ensures Evidence(rank, runs, statuses, context) == Evidence(rank, otherRuns, otherStatuses, context)
    ensures Outcome(Evidence(rank, runs, statuses, context))
            == Outcome(Evidence(rank, otherRuns, otherStatuses, context))
  {
    var a, b := runs + statuses, otherRuns + otherStatuses;
    SortSorts(rank, a);
    SortSorts(rank, b);
    assert multiset(a) == multiset(b);
    DistinctKeysMove(a, Sort(rank, a));
    OnlyOneSorting(rank, Sort(rank, a), Sort(rank, b));
  }

  lemma {:induction false} InContextMeans(s: seq<Observation>, context: string)
    ensures forall o :: o in InContext(s, context) <==> o in s && o.context == context
  {
    if |s| > 0 {
      InContextMeans(s[1..], context);
      assert s == [s[0]] + s[1..];
    }
  }

  /**
   From the servers to the verdict: with stable result sets within the bound, whatever order each serves its
   rows in, a context passes if and only if its rows, all of them, agree on having passed.
   */
  lemma StableHeadVerdict(rank: string -> real, serveRuns: nat -> Option<CheckRunPage>,
                          serveStatuses: nat -> Option<seq<Option<Observation>>>, runs: seq<Observation>,
                          statuses: seq<Observation>, context: string)
    requires ServesRuns(serveRuns, runs) && ServesStatuses(serveStatuses, statuses)
    requires DistinctKeys(runs + statuses) && |runs| <= MAX_ROWS && |statuses| <= MAX_ROWS
    ensures CheckRunsFrom(serveRuns, 1, [], None) == Some(runs) && StatusesFrom(serveStatuses, 1, []) == Some(statuses)
    ensures var evidence := Evidence(rank, runs, statuses, context);
            && (forall o :: o in evidence <==> (o in runs || o in statuses) && o.context == context)
            && (Outcome(evidence) == Passed <==> Agreed(evidence, RowPassed))
  {
    hide Sort, Agreed, Outcome;
    var all := runs + statuses;
    assert DistinctKeys(runs) by {
      forall i, j | 0 <= i < j < |runs| ensures !SameKey(runs[i], runs[j]) {
        assert !SameKey(all[i], all[j]);
      }
    }
    assert DistinctKeys(statuses) by {
      forall i, j | 0 <= i < j < |statuses| ensures !SameKey(statuses[i], statuses[j]) {
        assert !SameKey(all[|runs| + i], all[|runs| + j]);
      }
    }
    StableCheckRunsAreRead(serveRuns, runs);
    StableStatusesAreRead(serveStatuses, statuses);
    SortSorts(rank, all);
    Sorting.SameElements(Sort(rank, all), all);
    InContextMeans(Sort(rank, all), context);
    OutcomeMeans(Evidence(rank, runs, statuses, context));
  }
}
