/** How the runner reads its whole log back: page by page, up to a bound, never across a compacted gap. */
module EventScan {
  import opened Naturals
  import opened Options

  const PAGE_LIMIT: nat := 1_000

  datatype Page<E> = Page(events: seq<E>, nextCursor: nat, hasMore: bool, gap: bool)

  // ---------------------------------------------------------------- the store's side

  /** The rows of a run in order: each with a sequence number above the one before, the last one the latest. */
  datatype Row<E> = Row(sequence: nat, event: E)

  ghost predicate Ascending<E(!new)>(rows: seq<Row<E>>) {
    && (forall i :: 0 <= i < |rows| ==> rows[i].sequence > 0)
    && (forall i, j :: 0 <= i < j < |rows| ==> rows[i].sequence < rows[j].sequence)
  }

  /** How many rows are at or below the cursor. */
  function Before<E>(rows: seq<Row<E>>, after: nat): (n: nat)
    ensures n <= |rows|
    ensures forall i :: 0 <= i < n ==> rows[i].sequence <= after
    ensures n < |rows| ==> rows[n].sequence > after
  {
    if |rows| == 0 || rows[0].sequence > after then 0 else 1 + Before(rows[1..], after)
  }

  function Events<E>(rows: seq<Row<E>>): (events: seq<E>)
    ensures |events| == |rows| && forall i :: 0 <= i < |rows| ==> events[i] == rows[i].event
  {
    seq(|rows|, i requires 0 <= i < |rows| => rows[i].event)
  }

  /** `listAsfRunEvents`: up to `limit` rows above the cursor, and whether one more was found. */
  function ListEvents<E>(rows: seq<Row<E>>, compactedThrough: nat, after: nat, limit: nat): Page<E>
    requires 1 <= limit <= PAGE_LIMIT
  {
    var from := Before(rows, after);
    var to := Least(from + limit, |rows|);
    Page(Events(rows[from..to]),
         if to > from then rows[to - 1].sequence else if after < compactedThrough then compactedThrough else after,
         |rows| > from + limit, after < compactedThrough)
  }

  // ---------------------------------------------------------------- the runner's side

  /** The cursor behind the first `n` rows. */
  function Cursor<E>(rows: seq<Row<E>>, n: nat): nat
    requires n <= |rows|
  {
    if n == 0 then 0 else rows[n - 1].sequence
  }

  lemma {:induction false} BeforeCursor<E(!new)>(rows: seq<Row<E>>, n: nat)
    requires Ascending(rows) && n <= |rows|
    ensures Before(rows, Cursor(rows, n)) == n
  {
    assert forall i :: n <= i < |rows| ==> rows[i].sequence > Cursor(rows, n);
    assert forall i :: 0 <= i < n ==> rows[i].sequence <= Cursor(rows, n);
    var found := Before(rows, Cursor(rows, n));
    assert found < |rows| ==> rows[found].sequence > Cursor(rows, n);
    assert n < |rows| ==> rows[n].sequence > Cursor(rows, n);
  }

  lemma NothingRead<E>(rows: seq<Row<E>>)
    ensures Cursor(rows, 0) == 0 && Events(rows[..0]) == []
  {
  }

  /** A page from there holds the next rows, and its cursor is the one behind them. */
  lemma PageContinues<E(!new)>(rows: seq<Row<E>>, compactedThrough: nat, n: nat, limit: nat)
    requires Ascending(rows) && n <= |rows| && 1 <= limit <= PAGE_LIMIT
    ensures var page, m := ListEvents(rows, compactedThrough, Cursor(rows, n), limit), Least(n + limit, |rows|);
            && Events(rows[..n]) + page.events == Events(rows[..m])
            && page.hasMore == (|rows| > n + limit) && page.gap == (Cursor(rows, n) < compactedThrough)
            && (page.hasMore ==> page.nextCursor == Cursor(rows, m) && Cursor(rows, n) < Cursor(rows, m))
  {
    hide Before;
    BeforeCursor(rows, n);
  }

  /**
   `#events`: the loop ends, and it returns the whole log, each event once and in order, exactly where nothing
   was compacted away and the log is within the bound; otherwise it refuses.
   */
  method ReadEvents<E(!new)>(rows: seq<Row<E>>, compactedThrough: nat, maxEventScan: nat) returns (log: Option<seq<E>>)
    requires Ascending(rows) && maxEventScan >= 1
    ensures log == if compactedThrough == 0 && |rows| <= maxEventScan then Some(Events(rows)) else None
  {
    hide Ascending, ListEvents, Events, Cursor;
    NothingRead(rows);
    var events: seq<E>, after := [], 0;
    while |events| < maxEventScan
      invariant |events| <= |rows| && |events| <= maxEventScan
      invariant events == Events(rows[..|events|]) && after == Cursor(rows, |events|)
      invariant |events| > 0 ==> compactedThrough == 0 && |events| < |rows|
      decreases maxEventScan - |events|
    {
      var limit := Least(PAGE_LIMIT, maxEventScan - |events|);
      PageContinues(rows, compactedThrough, |events|, limit);
      var page := ListEvents(rows, compactedThrough, after, limit);
      if page.gap { return None; }
      events := events + page.events;
      if !page.hasMore {
        assert rows[..|rows|] == rows;
        return Some(events);
      }
      if page.nextCursor <= after { return None; }
      after := page.nextCursor;
    }
    return None;
  }
}
