/** Sorting under a given relation, and when there is one sorting only. */
module Sorting {
  type Relation<!T> = (T, T) -> bool

  function Insert<T>(before: Relation<T>, x: T, s: seq<T>): (more: seq<T>)
    ensures multiset(more) == multiset(s) + multiset{x}
  {
    if |s| == 0 || before(x, s[0]) then
      [x] + s
    else
      assert s == [s[0]] + s[1..];
      [s[0]] + Insert(before, x, s[1..])
  }

  function Sort<T>(before: Relation<T>, s: seq<T>): (sorted: seq<T>)
    ensures multiset(sorted) == multiset(s)
  {
    if |s| == 0 then []
    else
      assert s == [s[0]] + s[1..];
      Insert(before, s[0], Sort(before, s[1..]))
  }

  ghost predicate Sorted<T>(before: Relation<T>, s: seq<T>) {
    forall i, j :: 0 <= i < j < |s| ==> before(s[i], s[j])
  }

  ghost predicate Transitive<T(!new)>(before: Relation<T>) {
    forall x, y, z :: before(x, y) && before(y, z) ==> before(x, z)
  }

  /** Any two of the values can be put in order. */
  ghost predicate Connected<T>(before: Relation<T>, s: seq<T>) {
    forall i, j :: 0 <= i < j < |s| ==> before(s[i], s[j]) || before(s[j], s[i])
  }

  /** And only in one. */
  ghost predicate Untied<T>(before: Relation<T>, s: seq<T>) {
    forall i, j :: 0 <= i < j < |s| ==> !(before(s[i], s[j]) && before(s[j], s[i]))
  }

  lemma SameElements<T(!new)>(a: seq<T>, b: seq<T>)
    requires multiset(a) == multiset(b)
    ensures |a| == |b| && forall x :: x in a <==> x in b
  {
    assert |multiset(a)| == |a| && |multiset(b)| == |b|;
    forall x ensures x in a <==> x in b {
      assert x in a <==> x in multiset(a);
      assert x in b <==> x in multiset(b);
    }
  }

  lemma {:induction false} InsertSorts<T(!new)>(before: Relation<T>, x: T, s: seq<T>)
    requires Transitive(before) && Sorted(before, s)
    requires forall i :: 0 <= i < |s| ==> before(x, s[i]) || before(s[i], x)
    ensures Sorted(before, Insert(before, x, s))
  {
    if |s| > 0 && !before(x, s[0]) {
      InsertSorts(before, x, s[1..]);
      var rest := Insert(before, x, s[1..]);
      forall j | 0 <= j < |rest| ensures before(s[0], rest[j]) {
        assert rest[j] in multiset(rest);
        if rest[j] != x {
          assert rest[j] in multiset(s[1..]);
        }
      }
    }
  }

  lemma {:induction false} SortSorts<T(!new)>(before: Relation<T>, s: seq<T>)
    requires Transitive(before) && Connected(before, s)
    ensures Sorted(before, Sort(before, s))
  {
    if |s| > 0 {
      var rest := Sort(before, s[1..]);
      SortSorts(before, s[1..]);
      SameElements(rest, s[1..]);
      forall i | 0 <= i < |rest| ensures before(s[0], rest[i]) || before(rest[i], s[0]) {
        assert rest[i] in rest;
      }
      InsertSorts(before, s[0], rest);
    }
  }

  lemma NothingIn<T(!new)>(s: seq<T>)
    requires forall x :: x !in s
    ensures s == []
  {
    if |s| > 0 {
      HeadIsIn(s);
    }
  }

  lemma HeadIsIn<T(!new)>(s: seq<T>)
    requires |s| > 0
    ensures s[0] in s
  {
  }

  lemma SameHead<T(!new)>(before: Relation<T>, a: seq<T>, b: seq<T>)
    requires |a| > 0 && |b| > 0 && Sorted(before, a) && Sorted(before, b) && Untied(before, a)
    requires a[0] in b && b[0] in a
    ensures a[0] == b[0]
  {
  }

  lemma TailIs<T(!new)>(before: Relation<T>, s: seq<T>, x: T)
    requires |s| > 0 && Sorted(before, s) && Untied(before, s)
    ensures x in s[1..] <==> x in s && x != s[0]
  {
    assert s == [s[0]] + s[1..];
  }

  /** Untied values have one sorting, whatever algorithm finds it. */
  lemma {:induction false} OneSorting<T(!new)>(before: Relation<T>, a: seq<T>, b: seq<T>)
    requires Sorted(before, a) && Sorted(before, b) && Untied(before, a) && Untied(before, b)
    requires forall x :: x in a <==> x in b
    ensures a == b
    decreases |a|
  {
    if |a| == 0 {
      NothingIn(b);
    } else {
      assert a[0] in b;
      assert b[0] in a;
      SameHead(before, a, b);
      forall x ensures x in a[1..] <==> x in b[1..] {
        TailIs(before, a, x);
        TailIs(before, b, x);
      }
      OneSorting(before, a[1..], b[1..]);
      assert a == [a[0]] + a[1..] && b == [b[0]] + b[1..];
    }
  }
}
