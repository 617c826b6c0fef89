/**
 The `exactSet` test that the delivery runner and the recovery policy both use: equal
 lengths, no duplicate on the left, and every left value found on the right.
 */
module ExactSets {

  ghost predicate Distinct<T>(values: seq<T>) {
    forall i, j :: 0 <= i < j < |values| ==> values[i] != values[j]
  }

  function Values<T(!new,==)>(values: seq<T>): (s: set<T>)
    ensures forall x :: x in s <==> x in values
  {
    set x | x in values
  }

  /** As the source computes it: `new Set(actual).size === actual.length` is the duplicate test. */
  predicate ExactSet<T(!new,==)>(actual: seq<T>, expected: seq<T>) {
    && |actual| == |expected|
    && |Values(actual)| == |actual|
    && forall i :: 0 <= i < |actual| ==> actual[i] in expected
  }

  lemma {:induction false} DistinctSize<T(!new)>(values: seq<T>)
    ensures |Values(values)| <= |values|
    ensures |Values(values)| == |values| <==> Distinct(values)
  {
    if |values| == 0 {
      assert Values(values) == {};
    } else {
      var head, rest := values[0], values[1..];
      DistinctSize(rest);
      assert Values(values) == Values(rest) + {head};
      if head in rest {
        assert Values(values) == Values(rest);
        var k :| 0 <= k < |rest| && rest[k] == head;
        assert values[k + 1] == head;
      } else {
        assert |Values(values)| == |Values(rest)| + 1;
        assert forall i :: 0 <= i < |rest| ==> rest[i] == values[i + 1];
        if Distinct(rest) {
          assert Distinct(values);
        }
        if Distinct(values) {
          assert Distinct(rest);
        }
      }
    }
  }

  lemma SubsetOfEqualSize<T>(a: set<T>, b: set<T>)
    requires a <= b && |a| >= |b|
    ensures a == b
  {
    assert |b| == |b - a| + |a|;
    assert b == (b - a) + a;
  }

  /** The one-sided test is two-sided: by counting, nothing on the right is left over. */
  lemma ExactSetIsEquality<T(!new)>(actual: seq<T>, expected: seq<T>)
    requires ExactSet(actual, expected)
    ensures Values(actual) == Values(expected)
    ensures Distinct(actual) && Distinct(expected)
  {
    DistinctSize(actual);
    DistinctSize(expected);
    SubsetOfEqualSize(Values(actual), Values(expected));
  }

  /** The test is exactly "the same values, each once, on both sides". */
  lemma ExactSetMeans<T(!new)>(actual: seq<T>, expected: seq<T>)
    ensures ExactSet(actual, expected) <==>
            Distinct(actual) && Distinct(expected) && Values(actual) == Values(expected)
  {
    DistinctSize(actual);
    DistinctSize(expected);
    if ExactSet(actual, expected) {
      ExactSetIsEquality(actual, expected);
    }
  }
}
