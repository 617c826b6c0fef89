/**
 Canonical JSON over values: the surrogate check, code-unit key order, and the theorem every digest in
 the system leans on, that two accepted values have the same text exactly when they are the same value.
 */
module CanonicalJson {
  import opened Options
  import opened JsonText
  import Sorting

  // ---------------------------------------------------------------- strings

  predicate High(u: Unit) { 0xd800 <= u <= 0xdbff }
  predicate Low(u: Unit) { 0xdc00 <= u <= 0xdfff }

  /** Every surrogate is half of a pair, high before low. */
  predicate NoLoneSurrogates(s: Text) {
    forall i :: 0 <= i < |s| ==> Paired(s, i)
  }

  predicate Paired(s: Text, i: int)
    requires 0 <= i < |s|
  {
    && (High(s[i]) ==> i + 1 < |s| && Low(s[i + 1]))
    && (Low(s[i]) ==> i > 0 && High(s[i - 1]))
  }

  /** `rejectLoneSurrogates`: one pass that steps over whole pairs. */
  method RejectLoneSurrogates(s: Text) returns (ok: bool)
    ensures ok == NoLoneSurrogates(s)
  {
    var index := 0;
    while index < |s|
      invariant 0 <= index <= |s|
      invariant index > 0 ==> !High(s[index - 1])
      invariant forall i :: 0 <= i < index ==> Paired(s, i)
    {
      if High(s[index]) {
        if !(index + 1 < |s| && Low(s[index + 1])) {
          assert !Paired(s, index);
          return false;
        }
        assert Paired(s, index) && Paired(s, index + 1);
        index := index + 1;
      } else if Low(s[index]) {
        assert !Paired(s, index);
        return false;
      }
      index := index + 1;
    }
    return true;
  }

  // ---------------------------------------------------------------- key order

  /** JavaScript's string order: by code units. */
  predicate Less(a: Text, b: Text) {
    if |b| == 0 then false
    else if |a| == 0 then true
    else a[0] < b[0] || (a[0] == b[0] && Less(a[1..], b[1..]))
  }

  lemma {:induction false} LessTotal(a: Text, b: Text)
    ensures Less(a, b) || a == b || Less(b, a)
    ensures !(Less(a, b) && Less(b, a)) && (a == b ==> !Less(a, b))
  {
    if |a| > 0 && |b| > 0 {
      LessTotal(a[1..], b[1..]);
      if a[0] == b[0] && a[1..] == b[1..] {
        assert a == [a[0]] + a[1..] && b == [b[0]] + b[1..];
      }
    }
  }

  lemma {:induction false} LessTransitive(a: Text, b: Text, c: Text)
    requires Less(a, b) && Less(b, c)
    ensures Less(a, c)
  {
    if |a| > 0 && a[0] == b[0] && b[0] == c[0] {
      LessTransitive(a[1..], b[1..], c[1..]);
    }
  }

  ghost predicate Increasing(members: seq<Member>) {
    forall i, j :: 0 <= i < j < |members| ==> Less(members[i].key, members[j].key)
  }

  ghost predicate DistinctKeys(members: seq<Member>) {
    forall i, j :: 0 <= i < j < |members| ==> members[i].key != members[j].key
  }

  predicate Before(m: Member, n: Member) {
    Less(m.key, n.key)
  }

  function Sort(members: seq<Member>): (sorted: seq<Member>)
    ensures multiset(sorted) == multiset(members)
  {
    Sorting.Sort(Before, members)
  }

  lemma BeforeIsTransitive()
    ensures Sorting.Transitive(Before)
  {
    forall x, y, z | Before(x, y) && Before(y, z) ensures Before(x, z) {
      LessTransitive(x.key, y.key, z.key);
    }
  }

  lemma SortIncreases(members: seq<Member>)
    requires DistinctKeys(members)
    ensures Increasing(Sort(members))
  {
    hide Less;
    BeforeIsTransitive();
    forall i, j | 0 <= i < j < |members| ensures Before(members[i], members[j]) || Before(members[j], members[i]) {
      LessTotal(members[i].key, members[j].key);
    }
    Sorting.SortSorts(Before, members);
  }

  /** An increasing sequence is determined by what is in it. */
  lemma IncreasingIsUnique(a: seq<Member>, b: seq<Member>)
    requires Increasing(a) && Increasing(b)
    requires forall m :: m in a <==> m in b
    ensures a == b
  {
    hide Less;
    IncreasingIsUntied(a);
    IncreasingIsUntied(b);
    Sorting.OneSorting(Before, a, b);
  }

  lemma IncreasingIsUntied(s: seq<Member>)
    requires Increasing(s)
    ensures Sorting.Sorted(Before, s) && Sorting.Untied(Before, s)
  {
    hide Less;
    forall i, j | 0 <= i < j < |s| ensures !(Before(s[i], s[j]) && Before(s[j], s[i])) {
      LessTotal(s[i].key, s[j].key);
    }
  }

  // ---------------------------------------------------------------- values

  /** A double by its bit pattern. The two zeros are one number. */
  type Double = nat
  const NEGATIVE_ZERO: Double := 0x8000_0000_0000_0000

  predicate SameNumber(a: Double, b: Double) {
    a == b || ((a == 0 || a == NEGATIVE_ZERO) && (b == 0 || b == NEGATIVE_ZERO))
  }

  /** What the serializer is assumed to do with finite numbers: nothing but tell them apart. */
  ghost predicate RendersNumbers(render: Double -> Text) {
    && (forall n :: NumberText(render(n)))
    && (forall m, n :: render(m) == render(n) <==> SameNumber(m, n))
  }

  datatype Property = Property(key: Text, value: Value)

  /** JavaScript values; an object's properties are in the order its own keys are listed. */
  datatype Value =
    | Null
    | Bool(bool)
    | Number(Double)
    | NonFinite
    | String(Text)
    | Array(elements: seq<Value>)
    | Object(properties: seq<Property>)
    | NotJson

  /** Own keys are distinct, throughout. */
  ghost predicate Proper(v: Value)
    decreases v
  {
    match v
    case Array(elements) => forall i :: 0 <= i < |elements| ==> Proper(elements[i])
    case Object(properties) =>
      && (forall i, j :: 0 <= i < j < |properties| ==> properties[i].key != properties[j].key)
      && (forall i :: 0 <= i < |properties| ==> Proper(properties[i].value))
    case _ => true
  }

  /** The syntax a value is serialized to; None where the source throws. */
  function Canon(v: Value, render: Double -> Text): (tree: Option<Tree>)
    decreases v, 0
  {
    match v
    case Null => Some(TNull)
    case Bool(b) => Some(TBool(b))
    case Number(n) => Some(TNumber(render(n)))
    case NonFinite => None
    case String(s) => if NoLoneSurrogates(s) then Some(TString(s)) else None
    case Array(elements) =>
      var trees := CanonElements(elements, render);
      if trees.None? then None else Some(TArray(trees.value))
    case Object(properties) =>
      var members := CanonMembers(properties, render);
      if members.None? then None else Some(TObject(Sort(members.value)))
    case NotJson => None
  }

  function CanonElements(elements: seq<Value>, render: Double -> Text): (trees: Option<seq<Tree>>)
    ensures trees.Some? ==> |trees.value| == |elements|
    decreases elements, 1
  {
    if |elements| == 0 then Some([])
    else
      var first, rest := Canon(elements[0], render), CanonElements(elements[1..], render);
      if first.None? || rest.None? then None else Some([first.value] + rest.value)
  }

  function CanonMembers(properties: seq<Property>, render: Double -> Text): (members: Option<seq<Member>>)
    ensures members.Some? ==> |members.value| == |properties|
    decreases properties, 1
  {
    if |properties| == 0 then Some([])
    else
      var value, rest := Canon(properties[0].value, render), CanonMembers(properties[1..], render);
      if !NoLoneSurrogates(properties[0].key) || value.None? || rest.None? then None
      else Some([Member(properties[0].key, value.value)] + rest.value)
  }

  /** `canonicalJson`. */
  function Serialize(v: Value, render: Double -> Text): (text: Option<Text>) {
    var tree := Canon(v, render);
    if tree.None? then None else Some(Print(tree.value))
  }

  /** The same JSON value: arrays in order, objects by key whatever the order, zeros alike. */
  ghost predicate Same(v: Value, w: Value)
    decreases v
  {
    match v
    case Number(m) => w.Number? && var Number(n) := w; SameNumber(m, n)
    case Array(elements) =>
      && w.Array? && |elements| == |w.elements|
      && forall i :: 0 <= i < |elements| ==> Same(elements[i], w.elements[i])
    case Object(properties) =>
      && w.Object? && |properties| == |w.properties|
      && forall i :: 0 <= i < |properties| ==> SameIn(properties[i], w.properties)
    case _ => v == w
  }

  /** One of these properties has the same key and the same value. */
  ghost predicate SameIn(p: Property, properties: seq<Property>)
    decreases p
  {
    exists j :: 0 <= j < |properties| && p.key == properties[j].key && Same(p.value, properties[j].value)
  }

  lemma {:induction false} ElementsAre(elements: seq<Value>, render: Double -> Text)
    requires CanonElements(elements, render).Some?
    ensures forall i :: 0 <= i < |elements| ==>
              Canon(elements[i], render) == Some(CanonElements(elements, render).value[i])
  {
    if |elements| > 0 {
      ElementsAre(elements[1..], render);
      forall i | 0 <= i < |elements|
        ensures Canon(elements[i], render) == Some(CanonElements(elements, render).value[i])
      {
        if i > 0 {
          assert elements[i] == elements[1..][i - 1];
        }
      }
    }
  }

  lemma {:induction false} MembersAre(properties: seq<Property>, render: Double -> Text)
    requires CanonMembers(properties, render).Some?
    ensures forall i :: 0 <= i < |properties| ==>
              && CanonMembers(properties, render).value[i].key == properties[i].key
              && Canon(properties[i].value, render) == Some(CanonMembers(properties, render).value[i].value)
  {
    if |properties| > 0 {
      MembersAre(properties[1..], render);
      var members := CanonMembers(properties, render).value;
      forall i | 0 <= i < |properties|
        ensures members[i].key == properties[i].key && Canon(properties[i].value, render) == Some(members[i].value)
      {
        if i > 0 {
          assert properties[i] == properties[1..][i - 1];
        }
      }
    }
  }

  lemma {:induction false} CanonNumbers(v: Value, render: Double -> Text)
    requires RendersNumbers(render) && Canon(v, render).Some?
    ensures NumbersOk(Canon(v, render).value)
    decreases v
  {
    match v
    case Array(elements) =>
      ElementsAre(elements, render);
      forall i | 0 <= i < |elements| ensures NumbersOk(CanonElements(elements, render).value[i]) {
        CanonNumbers(elements[i], render);
      }
    case Object(properties) =>
      MembersAre(properties, render);
      var members := CanonMembers(properties, render).value;
      forall i | 0 <= i < |members| ensures NumbersOk(members[i].value) {
        CanonNumbers(properties[i].value, render);
      }
      Sorting.SameElements(Sort(members), members);
      forall i | 0 <= i < |Sort(members)| ensures NumbersOk(Sort(members)[i].value) {
        assert Sort(members)[i] in members;
      }
    case _ =>
  }

  // ---------------------------------------------------------------- equal texts, same values

  lemma MembersDistinct(properties: seq<Property>, render: Double -> Text)
    requires CanonMembers(properties, render).Some?
    requires forall i, j :: 0 <= i < j < |properties| ==> properties[i].key != properties[j].key
    ensures DistinctKeys(CanonMembers(properties, render).value)
  {
  }

  /** Sorting forgets the order of distinct keys and nothing else. */
  lemma SortForgetsOrder(a: seq<Member>, b: seq<Member>)
    requires DistinctKeys(a) && DistinctKeys(b)
    ensures Sort(a) == Sort(b) <==> forall m :: m in a <==> m in b
  {
    Sorting.SameElements(Sort(a), a);
    Sorting.SameElements(Sort(b), b);
    SortIncreases(a);
    SortIncreases(b);
    if forall m :: m in a <==> m in b {
      IncreasingIsUnique(Sort(a), Sort(b));
    }
  }

  function Without(b: seq<Member>, k: nat): (rest: seq<Member>)
    requires k < |b|
    ensures |rest| == |b| - 1
    ensures forall i :: 0 <= i < |rest| ==> rest[i] == if i < k then b[i] else b[i + 1]
  {
    b[..k] + b[k + 1..]
  }

  lemma WithoutIs(b: seq<Member>, k: nat)
    requires DistinctKeys(b) && k < |b|
    ensures DistinctKeys(Without(b, k))
    ensures forall m :: m in Without(b, k) <==> m in b && m != b[k]
  {
  }

  /** Among equally many distinct keys, containment one way is containment both ways. */
  lemma {:induction false} ContainedIsSame(a: seq<Member>, b: seq<Member>)
    requires DistinctKeys(a) && DistinctKeys(b) && |a| == |b|
    requires forall m :: m in a ==> m in b
    ensures forall m :: m in b ==> m in a
    decreases |a|
  {
    hide DistinctKeys;
    if |a| > 0 {
      assert a[0] in b;
      var k :| 0 <= k < |b| && b[k] == a[0];
      WithoutIs(a, 0);
      WithoutIs(b, k);
      ContainedIsSame(Without(a, 0), Without(b, k));
    }
  }

  lemma {:induction false} SameTree(v: Value, w: Value, render: Double -> Text)
    requires RendersNumbers(render) && Proper(v) && Proper(w)
    requires Canon(v, render).Some? && Canon(w, render).Some?
    ensures Canon(v, render) == Canon(w, render) <==> Same(v, w)
    decreases v
  {
    match v
    case Array(elements) => if w.Array? { SameArrays(elements, w.elements, render); }
    case Object(properties) => if w.Object? { SameObjects(properties, w.properties, render); }
    case Number(m) => if w.Number? { var Number(n) := w; assert render(m) == render(n) <==> SameNumber(m, n); }
    case _ =>
  }

  lemma SameArrays(a: seq<Value>, b: seq<Value>, render: Double -> Text)
    requires RendersNumbers(render)
    requires forall i :: 0 <= i < |a| ==> Proper(a[i])
    requires forall i :: 0 <= i < |b| ==> Proper(b[i])
    requires CanonElements(a, render).Some? && CanonElements(b, render).Some?
    ensures CanonElements(a, render) == CanonElements(b, render)
            <==> |a| == |b| && forall i :: 0 <= i < |a| ==> Same(a[i], b[i])
    decreases a, 0
  {
    hide Canon, Same, Proper, RendersNumbers, CanonElements;
    ElementsAre(a, render);
    ElementsAre(b, render);
    if |a| == |b| {
      forall i | 0 <= i < |a| ensures Canon(a[i], render) == Canon(b[i], render) <==> Same(a[i], b[i]) {
        SameTree(a[i], b[i], render);
      }
      var x, y := CanonElements(a, render).value, CanonElements(b, render).value;
      if forall i :: 0 <= i < |a| ==> Same(a[i], b[i]) {
        assert forall i :: 0 <= i < |x| ==> x[i] == y[i];
        assert x == y;
      }
    }
  }

  lemma SameObjects(a: seq<Property>, b: seq<Property>, render: Double -> Text)
    requires RendersNumbers(render) && Proper(Object(a)) && Proper(Object(b))
    requires CanonMembers(a, render).Some? && CanonMembers(b, render).Some?
    ensures Sort(CanonMembers(a, render).value) == Sort(CanonMembers(b, render).value)
            <==> Same(Object(a), Object(b))
    decreases a, 0
  {
    hide Canon, CanonMembers, Sort, RendersNumbers;
    var x, y := CanonMembers(a, render).value, CanonMembers(b, render).value;
    MembersAre(a, render);
    MembersAre(b, render);
    MembersDistinct(a, render);
    MembersDistinct(b, render);
    SortForgetsOrder(x, y);
    forall i, j | 0 <= i < |a| && 0 <= j < |b|
      ensures x[i] == y[j] <==> a[i].key == b[j].key && Same(a[i].value, b[j].value)
    {
      SameTree(a[i].value, b[j].value, render);
    }
    if Sort(x) == Sort(y) {
      SortsHaveEqualLengths(x, y);
      forall i | 0 <= i < |a| ensures SameIn(a[i], b) {
        assert x[i] in y;
        var j :| 0 <= j < |y| && y[j] == x[i];
        assert a[i].key == b[j].key && Same(a[i].value, b[j].value);
      }
    }
    if Same(Object(a), Object(b)) {
      forall m | m in x ensures m in y {
        var i :| 0 <= i < |x| && x[i] == m;
        assert SameIn(a[i], b);
        var j :| 0 <= j < |b| && a[i].key == b[j].key && Same(a[i].value, b[j].value);
        assert y[j] == m;
      }
      ContainedIsSame(x, y);
    }
  }

  lemma SortsHaveEqualLengths(x: seq<Member>, y: seq<Member>)
    requires Sort(x) == Sort(y)
    ensures |x| == |y|
  {
  }

  /** Parsing what was serialized gives the value's own syntax, members sorted by key. */
  lemma ParseOfSerialize(v: Value, render: Double -> Text)
    requires RendersNumbers(render) && Serialize(v, render).Some?
    ensures Parse(Serialize(v, render).value) == Canon(v, render)
  {
    CanonNumbers(v, render);
    ParseOfPrint(Canon(v, render).value);
  }

  /**
   The text is the value: for all accepted values, equal texts mean the same value, and the same value
   gives equal texts whatever order its members were inserted in.
   */
  lemma EqualTextsSameValues(v: Value, w: Value, render: Double -> Text)
    requires RendersNumbers(render) && Proper(v) && Proper(w)
    requires Serialize(v, render).Some? && Serialize(w, render).Some?
    ensures Serialize(v, render) == Serialize(w, render) <==> Same(v, w)
  {
    hide Canon, Same, Proper, Print, Parse, RendersNumbers;
    ParseOfSerialize(v, render);
    ParseOfSerialize(w, render);
    SameTree(v, w, render);
  }

  // ---------------------------------------------------------------- acceptance does not depend on order either

  lemma {:induction false} ElementsAccepted(elements: seq<Value>, render: Double -> Text)
    ensures CanonElements(elements, render).Some?
            <==> forall i :: 0 <= i < |elements| ==> Canon(elements[i], render).Some?
  {
    if |elements| > 0 {
      ElementsAccepted(elements[1..], render);
      assert forall i :: 0 < i < |elements| ==> elements[i] == elements[1..][i - 1];
      assert forall i :: 0 <= i < |elements[1..]| ==> elements[1..][i] == elements[i + 1];
    }
  }

  lemma {:induction false} MembersAccepted(properties: seq<Property>, render: Double -> Text)
    ensures CanonMembers(properties, render).Some?
            <==> forall i :: 0 <= i < |properties| ==>
                   NoLoneSurrogates(properties[i].key) && Canon(properties[i].value, render).Some?
  {
    hide NoLoneSurrogates;
    if |properties| > 0 {
      MembersAccepted(properties[1..], render);
      assert forall i :: 0 < i < |properties| ==> properties[i] == properties[1..][i - 1];
      assert forall i :: 0 <= i < |properties[1..]| ==> properties[1..][i] == properties[i + 1];
    }
  }

  /** The keys alone, as members. */
  function KeysOf(properties: seq<Property>): (keys: seq<Member>)
    ensures |keys| == |properties|
    ensures forall i :: 0 <= i < |keys| ==> keys[i] == Member(properties[i].key, TNull)
  {
    seq(|properties|, i requires 0 <= i < |properties| => Member(properties[i].key, TNull))
  }

  ghost predicate HasKey(properties: seq<Property>, key: Text) {
    Member(key, TNull) in KeysOf(properties)
  }

  lemma KeyIndex(properties: seq<Property>, key: Text) returns (i: nat)
    requires HasKey(properties, key)
    ensures i < |properties| && properties[i].key == key
  {
    var keys := KeysOf(properties);
    i :| i < |keys| && keys[i] == Member(key, TNull);
  }

  /** Of equally many distinct keys each found on the right, none on the right is left over. */
  lemma PropertiesPairUp(a: seq<Property>, b: seq<Property>)
    requires Proper(Object(a)) && Proper(Object(b)) && |a| == |b|
    requires forall i :: 0 <= i < |a| ==> HasKey(b, a[i].key)
    ensures forall j :: 0 <= j < |b| ==> HasKey(a, b[j].key)
  {
    var x, y := KeysOf(a), KeysOf(b);
    forall m | m in x ensures m in y {
      var i :| 0 <= i < |x| && x[i] == m;
      assert HasKey(b, a[i].key);
    }
    ContainedIsSame(x, y);
    forall j | 0 <= j < |b| ensures HasKey(a, b[j].key) {
      assert y[j] in x;
    }
  }

  lemma {:induction false} SameAccepted(v: Value, w: Value, render: Double -> Text)
    requires Proper(v) && Proper(w) && Same(v, w) && Canon(v, render).Some?
    ensures Canon(w, render).Some?
    decreases v
  {
    match v
    case Array(elements) =>
      ElementsAccepted(elements, render);
      ElementsAccepted(w.elements, render);
      forall i | 0 <= i < |w.elements| ensures Canon(w.elements[i], render).Some? {
        SameAccepted(elements[i], w.elements[i], render);
      }
    case Object(properties) =>
      SameObjectAccepted(properties, w.properties, render);
    case _ =>
  }

  lemma SameObjectAccepted(a: seq<Property>, b: seq<Property>, render: Double -> Text)
    requires Proper(Object(a)) && Proper(Object(b)) && Same(Object(a), Object(b))
    requires CanonMembers(a, render).Some?
    ensures CanonMembers(b, render).Some?
    decreases a, 0
  {
    hide NoLoneSurrogates, CanonMembers, Canon, SameIn, HasKey;
    MembersAccepted(a, render);
    MembersAccepted(b, render);
    forall i | 0 <= i < |a| ensures HasKey(b, a[i].key) {
      SameInHasKey(a[i], b);
    }
    PropertiesPairUp(a, b);
    forall j | 0 <= j < |b| ensures NoLoneSurrogates(b[j].key) && Canon(b[j].value, render).Some? {
      var i := KeyIndex(a, b[j].key);
      SameInIs(a[i], b, j);
      SameAccepted(a[i].value, b[j].value, render);
    }
  }

  lemma SameInHasKey(p: Property, properties: seq<Property>)
    requires SameIn(p, properties)
    ensures HasKey(properties, p.key)
  {
  }

  lemma SameInIs(p: Property, properties: seq<Property>, j: nat)
    requires Proper(Object(properties)) && SameIn(p, properties)
    requires j < |properties| && properties[j].key == p.key
    ensures Same(p.value, properties[j].value)
  {
  }

  /** One value in two insertion orders is accepted or refused alike, and serialized alike. */
  lemma OrderNeverMatters(v: Value, w: Value, render: Double -> Text)
    requires RendersNumbers(render) && Proper(v) && Proper(w)
    requires Same(v, w) && Serialize(v, render).Some?
    ensures Serialize(w, render) == Serialize(v, render)
  {
    hide Canon, Same, Proper, Print, RendersNumbers;
    SameAccepted(v, w, render);
    EqualTextsSameValues(v, w, render);
  }
}
