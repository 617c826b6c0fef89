/**
 `canonicalize` on a heap of arrays and objects: a depth-first walk that keeps the set of its
 ancestors, refuses what closes a cycle, and serializes everything else, shared nodes included.
 */
module JsonGraph {
  import opened Options
  import opened JsonText
  import opened CanonicalJson
  import Sorting

  type Ref = nat

  /** A leaf value, or a reference to a node. */
  datatype Item = Leaf(value: Value) | Reference(ref: Ref)

  datatype Slot = Slot(key: Text, item: Item)

  /** `OtherNode` is any object the source has no rendering for. */
  datatype Node = ArrayNode(items: seq<Item>) | ObjectNode(slots: seq<Slot>) | OtherNode

  type Heap = map<Ref, Node>

  predicate LeafItem(item: Item) {
    item.Leaf? ==> !item.value.Array? && !item.value.Object?
  }

  predicate GoodItem(heap: Heap, item: Item) {
    LeafItem(item) && (item.Reference? ==> item.ref in heap)
  }

  /** No dangling references, and own keys are distinct. */
  ghost predicate Closed(heap: Heap) {
    forall r :: r in heap ==>
      match heap[r]
      case ArrayNode(items) => forall i :: 0 <= i < |items| ==> GoodItem(heap, items[i])
      case ObjectNode(slots) =>
        && (forall i :: 0 <= i < |slots| ==> GoodItem(heap, slots[i].item))
        && (forall i, j :: 0 <= i < j < |slots| ==> slots[i].key != slots[j].key)
      case OtherNode => true
  }

  // ---------------------------------------------------------------- the tree a graph unfolds to

  ghost predicate Unfolds(heap: Heap, item: Item, v: Value)
    decreases v
  {
    match item
    case Leaf(value) => v == value
    case Reference(r) =>
      r in heap &&
      match heap[r]
      case ArrayNode(items) =>
        && v.Array? && |v.elements| == |items|
        && forall i :: 0 <= i < |items| ==> Unfolds(heap, items[i], v.elements[i])
      case ObjectNode(slots) =>
        && v.Object? && |v.properties| == |slots|
        && forall i :: 0 <= i < |slots| ==>
             v.properties[i].key == slots[i].key && Unfolds(heap, slots[i].item, v.properties[i].value)
      case OtherNode => v == NotJson
  }

  function Max(a: nat, b: nat): nat { if a < b then b else a }

  function Height(v: Value): nat
    decreases v, 0
  {
    match v
    case Array(elements) => 1 + HeightElements(elements)
    case Object(properties) => 1 + HeightProperties(properties)
    case _ => 0
  }

  function HeightElements(elements: seq<Value>): nat
    decreases elements, 1
  {
    if |elements| == 0 then 0 else Max(Height(elements[0]), HeightElements(elements[1..]))
  }

  function HeightProperties(properties: seq<Property>): nat
    decreases properties, 1
  {
    if |properties| == 0 then 0 else Max(Height(properties[0].value), HeightProperties(properties[1..]))
  }

  lemma {:induction false} ElementLower(elements: seq<Value>, i: nat)
    requires i < |elements|
    ensures Height(elements[i]) <= HeightElements(elements)
  {
    if i > 0 {
      ElementLower(elements[1..], i - 1);
    }
  }

  lemma {:induction false} PropertyLower(properties: seq<Property>, i: nat)
    requires i < |properties|
    ensures Height(properties[i].value) <= HeightProperties(properties)
  {
    if i > 0 {
      PropertyLower(properties[1..], i - 1);
    }
  }

  // ---------------------------------------------------------------- paths

  predicate Points(item: Item, to: Ref) {
    item == Reference(to)
  }

  ghost predicate Edge(heap: Heap, from: Ref, to: Ref) {
    from in heap && to in heap &&
    match heap[from]
    case ArrayNode(items) => exists i :: 0 <= i < |items| && Points(items[i], to)
    case ObjectNode(slots) => exists i :: 0 <= i < |slots| && Points(slots[i].item, to)
    case OtherNode => false
  }

  ghost predicate Path(heap: Heap, p: seq<Ref>) {
    && (forall i :: 0 <= i < |p| ==> p[i] in heap)
    && forall i :: 0 < i < |p| ==> Edge(heap, p[i - 1], p[i])
  }

  ghost predicate Repeats(p: seq<Ref>) {
    exists i, j :: 0 <= i < j < |p| && p[i] == p[j]
  }

  /** A path from `item` that comes back to a node it has been at. */
  ghost predicate CycleBelow(heap: Heap, item: Item, p: seq<Ref>) {
    item.Reference? && |p| > 0 && p[0] == item.ref && Path(heap, p) && Repeats(p)
  }

  ghost predicate BadLeaf(item: Item) {
    item.Leaf? && (item.value.NonFinite? || item.value.NotJson?
                   || (item.value.String? && var String(s) := item.value; !NoLoneSurrogates(s)))
  }

  /** A node that no rendering could accept, wherever its references lead. */
  ghost predicate BadNode(node: Node) {
    match node
    case ArrayNode(items) => exists i :: 0 <= i < |items| && BadLeaf(items[i])
    case ObjectNode(slots) =>
      exists i :: 0 <= i < |slots| && (BadLeaf(slots[i].item) || !NoLoneSurrogates(slots[i].key))
    case OtherNode => true
  }

  /** `item` is itself no JSON value, or a path from it leads to a bad node. */
  ghost predicate BadBelow(heap: Heap, item: Item, p: seq<Ref>) {
    if |p| == 0 then BadLeaf(item)
    else item.Reference? && p[0] == item.ref && Path(heap, p) && BadNode(heap[p[|p| - 1]])
  }

  // ---------------------------------------------------------------- an unfolding rules out cycles and bad nodes

  lemma {:induction false} UnfoldingIsUnique(heap: Heap, item: Item, v: Value, w: Value)
    requires Unfolds(heap, item, v) && Unfolds(heap, item, w)
    ensures v == w
    decreases v
  {
    match item
    case Leaf(_) =>
    case Reference(r) =>
      match heap[r]
      case ArrayNode(items) =>
        forall i | 0 <= i < |items| ensures v.elements[i] == w.elements[i] {
          UnfoldingIsUnique(heap, items[i], v.elements[i], w.elements[i]);
        }
        assert v.elements == w.elements;
      case ObjectNode(slots) =>
        forall i | 0 <= i < |slots| ensures v.properties[i] == w.properties[i] {
          UnfoldingIsUnique(heap, slots[i].item, v.properties[i].value, w.properties[i].value);
        }
        assert v.properties == w.properties;
      case OtherNode =>
  }

  lemma ChildUnfolds(heap: Heap, from: Ref, to: Ref, v: Value) returns (child: Value)
    requires Edge(heap, from, to) && Unfolds(heap, Reference(from), v)
    ensures Unfolds(heap, Reference(to), child) && Height(child) < Height(v)
  {
    match heap[from]
    case ArrayNode(items) =>
      var i: nat :| i < |items| && Points(items[i], to);
      child := v.elements[i];
      ElementLower(v.elements, i);
    case ObjectNode(slots) =>
      var i: nat :| i < |slots| && Points(slots[i].item, to);
      child := v.properties[i].value;
      PropertyLower(v.properties, i);
  }

  /** Along a path the unfoldings get lower and lower. */
  lemma {:induction false} PathDescends(heap: Heap, p: seq<Ref>, k: nat, v: Value) returns (end: Value)
    requires Path(heap, p) && k < |p| && Unfolds(heap, Reference(p[0]), v)
    ensures Unfolds(heap, Reference(p[k]), end) && Height(end) + k <= Height(v)
    decreases k
  {
    hide Unfolds, Edge, Height;
    if k == 0 {
      end := v;
    } else {
      var before := PathDescends(heap, p, k - 1, v);
      end := ChildUnfolds(heap, p[k - 1], p[k], before);
    }
  }

  lemma UnfoldingHasNoCycle(heap: Heap, item: Item, v: Value, p: seq<Ref>)
    requires Unfolds(heap, item, v)
    ensures !CycleBelow(heap, item, p)
  {
    hide Unfolds, Height, Path;
    if CycleBelow(heap, item, p) {
      var i: nat, j: nat :| i < j < |p| && p[i] == p[j];
      var x := PathDescends(heap, p, i, v);
      SubPath(heap, p, i);
      var y := PathDescends(heap, p[i..], j - i, x);
      UnfoldingIsUnique(heap, Reference(p[i]), x, y);
    }
  }

  lemma SubPath(heap: Heap, p: seq<Ref>, i: nat)
    requires Path(heap, p) && i < |p|
    ensures Path(heap, p[i..])
  {
  }

  lemma AcceptedLeaf(v: Value, render: Double -> Text)
    requires Canon(v, render).Some?
    ensures !BadLeaf(Leaf(v))
  {
  }

  lemma AcceptedNodeIsGood(heap: Heap, r: Ref, v: Value, render: Double -> Text)
    requires Unfolds(heap, Reference(r), v) && Canon(v, render).Some?
    ensures !BadNode(heap[r])
  {
    match heap[r]
    case ArrayNode(items) =>
      ElementsAccepted(v.elements, render);
      forall i | 0 <= i < |items| ensures !BadLeaf(items[i]) {
        if items[i].Leaf? {
          AcceptedLeaf(v.elements[i], render);
        }
      }
    case ObjectNode(slots) =>
      MembersAccepted(v.properties, render);
      forall i | 0 <= i < |slots| ensures !BadLeaf(slots[i].item) && NoLoneSurrogates(slots[i].key) {
        if slots[i].item.Leaf? {
          AcceptedLeaf(v.properties[i].value, render);
        }
      }
    case OtherNode =>
  }

  lemma AcceptedChild(heap: Heap, from: Ref, to: Ref, v: Value, render: Double -> Text) returns (child: Value)
    requires Edge(heap, from, to) && Unfolds(heap, Reference(from), v) && Canon(v, render).Some?
    ensures Unfolds(heap, Reference(to), child) && Canon(child, render).Some?
  {
    match heap[from]
    case ArrayNode(items) =>
      ElementsAccepted(v.elements, render);
      var i: nat :| i < |items| && Points(items[i], to);
      child := v.elements[i];
    case ObjectNode(slots) =>
      MembersAccepted(v.properties, render);
      var i: nat :| i < |slots| && Points(slots[i].item, to);
      child := v.properties[i].value;
  }

  lemma {:induction false} PathAccepted(heap: Heap, p: seq<Ref>, k: nat, v: Value, render: Double -> Text)
    returns (end: Value)
    requires Path(heap, p) && k < |p| && Unfolds(heap, Reference(p[0]), v) && Canon(v, render).Some?
    ensures Unfolds(heap, Reference(p[k]), end) && Canon(end, render).Some?
    decreases k
  {
    hide Unfolds, Edge, Canon;
    if k == 0 {
      end := v;
    } else {
      var before := PathAccepted(heap, p, k - 1, v, render);
      end := AcceptedChild(heap, p[k - 1], p[k], before, render);
    }
  }

  lemma AcceptedHasNothingBad(heap: Heap, item: Item, v: Value, p: seq<Ref>, render: Double -> Text)
    requires Unfolds(heap, item, v) && Canon(v, render).Some?
    ensures !BadBelow(heap, item, p)
  {
    hide Canon, BadNode, BadLeaf, Path;
    if |p| == 0 {
      if item.Leaf? { AcceptedLeaf(v, render); } else { ReferenceIsNoLeaf(item); }
    } else if item.Reference? && p[0] == item.ref && Path(heap, p) {
      var end := PathAccepted(heap, p, |p| - 1, v, render);
      AcceptedNodeIsGood(heap, p[|p| - 1], end, render);
    }
  }

  lemma ReferenceIsNoLeaf(item: Item)
    requires item.Reference?
    ensures !BadLeaf(item)
  {
  }

  // ---------------------------------------------------------------- joining rendered parts

  /** `parts.join(",")`. */
  function Join(parts: seq<Text>): Text {
    if |parts| == 0 then []
    else if |parts| == 1 then parts[0]
    else parts[0] + [COMMA] + Join(parts[1..])
  }

  lemma {:induction false} JoinElements(parts: seq<Text>, trees: seq<Tree>)
    requires |parts| == |trees| && forall k :: 0 <= k < |parts| ==> parts[k] == Print(trees[k])
    ensures Join(parts) == PrintElements(trees)
  {
    hide Print;
    if |parts| > 1 {
      JoinElements(parts[1..], trees[1..]);
    }
  }

  lemma {:induction false} JoinMembers(parts: seq<Text>, members: seq<Member>)
    requires |parts| == |members| && forall k :: 0 <= k < |parts| ==> parts[k] == PrintMember(members[k])
    ensures Join(parts) == PrintMembers(members)
  {
    hide PrintMember;
    if |parts| > 1 {
      JoinMembers(parts[1..], members[1..]);
    }
  }

  lemma {:induction false} ElementsFrom(values: seq<Value>, trees: seq<Tree>, render: Double -> Text)
    requires |values| == |trees| && forall k :: 0 <= k < |values| ==> Canon(values[k], render) == Some(trees[k])
    ensures CanonElements(values, render) == Some(trees)
  {
    hide Canon;
    if |values| > 0 {
      ElementsFrom(values[1..], trees[1..], render);
      assert trees == [trees[0]] + trees[1..];
    }
  }

  lemma {:induction false} MembersFrom(properties: seq<Property>, members: seq<Member>, render: Double -> Text)
    requires |properties| == |members|
    requires forall k :: 0 <= k < |properties| ==>
               && NoLoneSurrogates(properties[k].key) && members[k].key == properties[k].key
               && Canon(properties[k].value, render) == Some(members[k].value)
    ensures CanonMembers(properties, render) == Some(members)
  {
    hide Canon, NoLoneSurrogates;
    if |properties| > 0 {
      MembersFrom(properties[1..], members[1..], render);
      assert members == [members[0]] + members[1..];
    }
  }

  /** The keys of an object's slots, as members with nothing in them. */
  function SlotKeys(slots: seq<Slot>): (keys: seq<Member>)
    ensures |keys| == |slots|
    ensures forall i :: 0 <= i < |keys| ==> keys[i] == Member(slots[i].key, TNull)
  {
    seq(|slots|, i requires 0 <= i < |slots| => Member(slots[i].key, TNull))
  }

  /** `[...descriptors.keys()].sort()`. */
  function SortedKeys(slots: seq<Slot>): (order: seq<Member>)
    ensures |order| == |slots|
    ensures forall j :: 0 <= j < |order| ==> exists i :: 0 <= i < |slots| && slots[i].key == order[j].key
  {
    var order := Sort(SlotKeys(slots));
    assert |order| == |slots|
           && forall j :: 0 <= j < |order| ==> exists i :: 0 <= i < |slots| && slots[i].key == order[j].key by {
      Sorting.SameElements(order, SlotKeys(slots));
      forall j | 0 <= j < |order| ensures exists i :: 0 <= i < |slots| && slots[i].key == order[j].key {
        assert order[j] in SlotKeys(slots);
        var i :| 0 <= i < |SlotKeys(slots)| && SlotKeys(slots)[i] == order[j];
        assert slots[i].key == order[j].key;
      }
    }
    order
  }

  lemma SortedKeysCover(slots: seq<Slot>, i: nat) returns (j: nat)
    requires i < |slots|
    ensures j < |SortedKeys(slots)| && SortedKeys(slots)[j].key == slots[i].key
  {
    hide Sort;
    Sorting.SameElements(Sort(SlotKeys(slots)), SlotKeys(slots));
    assert SlotKeys(slots)[i] in SlotKeys(slots);
    j :| j < |Sort(SlotKeys(slots))| && Sort(SlotKeys(slots))[j] == SlotKeys(slots)[i];
  }

  lemma SortedKeysIncrease(slots: seq<Slot>)
    requires forall i, j :: 0 <= i < j < |slots| ==> slots[i].key != slots[j].key
    ensures Increasing(SortedKeys(slots))
  {
    SortIncreases(SlotKeys(slots));
  }

  /** Rendered in sorted key order, an object's members are the sorted members of its unfolding. */
  lemma {:induction false} SortedMembersAre(slots: seq<Slot>, properties: seq<Property>, members: seq<Member>,
                                            render: Double -> Text)
    requires forall i, j :: 0 <= i < j < |slots| ==> slots[i].key != slots[j].key
    requires |properties| == |slots| && forall i :: 0 <= i < |slots| ==> properties[i].key == slots[i].key
    requires |members| == |slots|
    requires forall j :: 0 <= j < |members| ==> members[j].key == SortedKeys(slots)[j].key
    requires forall j :: 0 <= j < |members| ==> NoLoneSurrogates(members[j].key)
    requires forall i, j :: 0 <= i < |slots| && 0 <= j < |members| && members[j].key == slots[i].key ==>
               Canon(properties[i].value, render) == Some(members[j].value)
    ensures CanonMembers(properties, render).Some? && Sort(CanonMembers(properties, render).value) == members
  {
    hide Canon, NoLoneSurrogates, Sort, Less, CanonMembers, SortedKeys;
    SortedKeysIncrease(slots);
    var index := seq(|slots|, i requires 0 <= i < |slots| => CoverIndex(slots, i));
    var unsorted := seq(|slots|, i requires 0 <= i < |slots| => members[index[i]]);
    forall k | 0 <= k < |slots|
      ensures unsorted[k].key == slots[k].key && NoLoneSurrogates(slots[k].key)
      ensures Canon(properties[k].value, render) == Some(unsorted[k].value)
    {
      var j := index[k];
      assert members[j].key == slots[k].key;
    }
    MembersFrom(properties, unsorted, render);
    assert DistinctKeys(unsorted);
    Sorting.SameElements(Sort(unsorted), unsorted);
    SortIncreases(unsorted);
    forall m ensures m in unsorted <==> m in members {
      if m in members {
        MemberIsPlaced(slots, index, members, m);
      }
    }
    IncreasingIsUnique(Sort(unsorted), members);
  }

  lemma MemberIsPlaced(slots: seq<Slot>, index: seq<nat>, members: seq<Member>, m: Member)
    requires Increasing(members) && |index| == |slots| == |members| == |SortedKeys(slots)| && m in members
    requires forall j :: 0 <= j < |members| ==> members[j].key == SortedKeys(slots)[j].key
    requires forall i :: 0 <= i < |slots| ==> index[i] < |members| && members[index[i]].key == slots[i].key
    ensures exists i :: 0 <= i < |slots| && members[index[i]] == m
  {
    hide SortedKeys, Increasing, Less;
    var j :| 0 <= j < |members| && members[j] == m;
    var i :| 0 <= i < |slots| && slots[i].key == SortedKeys(slots)[j].key;
    IncreasingKeys(members, index[i], j);
  }

  function CoverIndex(slots: seq<Slot>, i: nat): (j: nat)
    requires i < |slots|
    ensures j < |SortedKeys(slots)| && SortedKeys(slots)[j].key == slots[i].key
  {
    FindKey(SortedKeys(slots), slots[i].key, i, slots)
  }

  function FindKey(order: seq<Member>, key: Text, i: nat, slots: seq<Slot>): (j: nat)
    requires i < |slots| && order == SortedKeys(slots) && key == slots[i].key
    ensures j < |order| && order[j].key == key
  {
    var found := IndexOfKey(order, key);
    assert found < |order| by {
      var j := SortedKeysCover(slots, i);
      KeyIsFound(order, key, j);
    }
    found
  }

  function IndexOfKey(order: seq<Member>, key: Text): (j: nat)
    ensures j <= |order| && (j < |order| ==> order[j].key == key)
  {
    if |order| == 0 || order[0].key == key then 0 else 1 + IndexOfKey(order[1..], key)
  }

  lemma {:induction false} KeyIsFound(order: seq<Member>, key: Text, j: nat)
    requires j < |order| && order[j].key == key
    ensures IndexOfKey(order, key) < |order|
  {
    if order[0].key != key {
      KeyIsFound(order[1..], key, j - 1);
    }
  }

  lemma IncreasingKeys(members: seq<Member>, i: nat, j: nat)
    requires i < |members| && j < |members| && members[i].key == members[j].key
    requires Increasing(members)
    ensures i == j
  {
    LessTotal(members[i].key, members[j].key);
  }

  // ---------------------------------------------------------------- the walk

  datatype Rendered = Rendered(text: Text) | Cyclic | Invalid

  class Canonicalizer {
    const heap: Heap
    const render: Double -> Text
    var ancestors: set<Ref>

    /** The ancestors are the nodes of a path that leads to `item`. */
    ghost predicate Below(trail: seq<Ref>, item: Item)
      reads this
    {
      && Closed(heap) && GoodItem(heap, item)
      && Path(heap, trail)
      && (forall r :: r in ancestors <==> r in trail)
      && (|trail| > 0 && item.Reference? ==> Edge(heap, trail[|trail| - 1], item.ref))
    }

    /** What a walk of `item` comes back with: a rendering of its unfolding, a cycle, or a bad node. */
    ghost predicate Explains(trail: seq<Ref>, item: Item, r: Rendered, v: Value, p: seq<Ref>) {
      match r
      case Rendered(text) => Unfolds(heap, item, v) && Serialize(v, render) == Some(text)
      case Cyclic => item.Reference? && |p| > 0 && p[0] == item.ref && Path(heap, trail + p) && Repeats(trail + p)
      case Invalid => BadBelow(heap, item, p)
    }

    method Leaf(value: Value) returns (r: Rendered)
      requires LeafItem(Item.Leaf(value))
      ensures !r.Cyclic?
      ensures r.Rendered? ==> Serialize(value, render) == Some(r.text)
      ensures r.Invalid? ==> BadLeaf(Item.Leaf(value))
    {
      match value
      case Null => return Rendered(NULL_TEXT);
      case Bool(b) => return Rendered(if b then TRUE_TEXT else FALSE_TEXT);
      case Number(n) => return Rendered(render(n));
      case String(s) =>
        var ok := RejectLoneSurrogates(s);
        return if ok then Rendered(Quoted(s)) else Invalid;
      case _ => return Invalid;
    }

    lemma TrailGrows(trail: seq<Ref>, ref: Ref)
      requires Path(heap, trail) && ref in heap
      requires |trail| > 0 ==> Edge(heap, trail[|trail| - 1], ref)
      ensures Path(heap, trail + [ref])
    {
    }

    /**
     `canonicalize`: whatever happens below, `ancestors` is as it was on every exit, and the walk ends
     because every node it enters leaves one fewer that is not an ancestor.
     */
    method Canonicalize(item: Item, ghost trail: seq<Ref>) returns (r: Rendered, ghost v: Value, ghost p: seq<Ref>)
      requires Below(trail, item)
      modifies this
      ensures ancestors == old(ancestors)
      ensures Explains(trail, item, r, v, p)
      decreases |heap.Keys - ancestors|, 1
    {
      hide Explains, Closed, Edge, Path, LeafItem;
      v, p := Null, [];
      if item.Leaf? {
        r := Leaf(item.value);
        v := item.value;
        LeafExplained(trail, item, r);
        return;
      }
      var ref := item.ref;
      TrailGrows(trail, ref);
      if ref in ancestors {
        p := [ref];
        CycleCloses(trail, ref);
        return Cyclic, v, p;
      }
      r, v, p := Enter(ref, trail);
    }

    /** The body of the `try`, and its `finally`. */
    method Enter(ref: Ref, ghost trail: seq<Ref>) returns (r: Rendered, ghost v: Value, ghost p: seq<Ref>)
      requires Closed(heap) && ref in heap && ref !in ancestors && Path(heap, trail + [ref])
      requires forall r :: r in ancestors <==> r in trail
      modifies this
      ensures ancestors == old(ancestors)
      ensures Explains(trail, Reference(ref), r, v, p)
      decreases |heap.Keys - ancestors|, 0
    {
      hide Explains, Closed, Edge, Path, LeafItem, Repeats;
      Smaller(heap.Keys - (ancestors + {ref}), heap.Keys - ancestors, ref);
      ancestors := ancestors + {ref};
      NodeIsClosed(ref);
      match heap[ref] {
        case ArrayNode(items) => r, v, p := CanonicalizeArray(ref, items, trail + [ref]);
        case ObjectNode(slots) => r, v, p := CanonicalizeObject(ref, slots, trail + [ref]);
        case OtherNode =>
          r, v, p := Invalid, Null, [ref];
          OtherIsBad(trail, ref);
      }
      ancestors := ancestors - {ref};
      assert ancestors == old(ancestors);
      p := NodeExplained(trail, ref, r, v, p);
    }

    lemma NodeExplained(trail: seq<Ref>, ref: Ref, r: Rendered, v: Value, p: seq<Ref>) returns (q: seq<Ref>)
      requires r.Cyclic? ==> |p| > 0 && Path(heap, trail + [ref] + p) && Repeats(trail + [ref] + p)
      requires !r.Cyclic? ==> Explains(trail + [ref], Reference(ref), r, v, p)
      ensures Explains(trail, Reference(ref), r, v, q)
    {
      hide Path, Repeats, BadBelow, Unfolds, Serialize;
      q := p;
      if r.Cyclic? {
        assert trail + [ref] + p == trail + ([ref] + p);
        q := [ref] + p;
      }
    }

    lemma LeafExplained(trail: seq<Ref>, item: Item, r: Rendered)
      requires item.Leaf? && !r.Cyclic?
      requires r.Rendered? ==> Serialize(item.value, render) == Some(r.text)
      requires r.Invalid? ==> BadLeaf(item)
      ensures Explains(trail, item, r, item.value, [])
    {
    }

    lemma CycleCloses(trail: seq<Ref>, ref: Ref)
      requires ref in trail && Path(heap, trail + [ref])
      ensures Explains(trail, Reference(ref), Cyclic, Null, [ref])
    {
      hide Path;
      var i: nat :| i < |trail| && trail[i] == ref;
      assert (trail + [ref])[i] == (trail + [ref])[|trail|];
    }

    lemma Smaller(a: set<Ref>, b: set<Ref>, ref: Ref)
      requires a <= b && ref in b && ref !in a
      ensures |a| < |b|
    {
      assert b == a + (b - a) && ref in b - a;
    }

    lemma OtherIsBad(trail: seq<Ref>, ref: Ref)
      requires ref in heap && heap[ref].OtherNode?
      ensures Explains(trail + [ref], Reference(ref), Invalid, Null, [ref])
    {
    }

    lemma NodeIsClosed(ref: Ref)
      requires Closed(heap) && ref in heap
      ensures match heap[ref]
              case ArrayNode(items) => forall i :: 0 <= i < |items| ==> GoodItem(heap, items[i])
              case ObjectNode(slots) =>
                && (forall i :: 0 <= i < |slots| ==> GoodItem(heap, slots[i].item))
                && (forall i, j :: 0 <= i < j < |slots| ==> slots[i].key != slots[j].key)
              case OtherNode => true
    {
    }

    /** What is wrong below a child is wrong below its parent. */
    lemma ChildIsBad(ref: Ref, child: Item, p: seq<Ref>) returns (q: seq<Ref>)
      requires ref in heap && BadBelow(heap, child, p)
      requires child.Reference? ==> Edge(heap, ref, child.ref)
      requires BadLeaf(child) ==> BadNode(heap[ref])
      ensures BadBelow(heap, Reference(ref), q)
    {
      hide Edge, BadNode, BadLeaf;
      if |p| == 0 {
        q := [ref];
      } else {
        q := [ref] + p;
        assert q[|q| - 1] == p[|p| - 1];
      }
    }

    lemma ElementEdge(ref: Ref, items: seq<Item>, i: nat)
      requires ref in heap && heap[ref] == ArrayNode(items) && i < |items| && GoodItem(heap, items[i])
      ensures items[i].Reference? ==> Edge(heap, ref, items[i].ref)
      ensures BadLeaf(items[i]) ==> BadNode(heap[ref])
    {
    }

    lemma SlotEdge(ref: Ref, slots: seq<Slot>, i: nat)
      requires ref in heap && heap[ref] == ObjectNode(slots) && i < |slots| && GoodItem(heap, slots[i].item)
      ensures slots[i].item.Reference? ==> Edge(heap, ref, slots[i].item.ref)
      ensures BadLeaf(slots[i].item) ==> BadNode(heap[ref])
      ensures !NoLoneSurrogates(slots[i].key) ==> BadNode(heap[ref]) && Path(heap, [ref])
    {
    }

    method CanonicalizeArray(ref: Ref, items: seq<Item>, ghost trail: seq<Ref>)
      returns (r: Rendered, ghost v: Value, ghost p: seq<Ref>)
      requires Closed(heap) && ref in heap && heap[ref] == ArrayNode(items)
      requires forall i :: 0 <= i < |items| ==> GoodItem(heap, items[i])
      requires Path(heap, trail) && |trail| > 0 && trail[|trail| - 1] == ref
      requires forall r :: r in ancestors <==> r in trail
      modifies this
      ensures ancestors == old(ancestors)
      ensures r.Cyclic? ==> |p| > 0 && Path(heap, trail + p) && Repeats(trail + p)
      ensures !r.Cyclic? ==> Explains(trail, Reference(ref), r, v, p)
      decreases |heap.Keys - ancestors|, 2
    {
      hide Closed, Unfolds, Edge, BadNode, BadLeaf, Canon, Print, Path, Repeats, BadBelow;
      var elements: seq<Text> := [];
      ghost var values: seq<Value> := [];
      ghost var trees: seq<Tree> := [];
      p := [];
      for index := 0 to |items|
        invariant ancestors == old(ancestors)
        invariant |elements| == |values| == |trees| == index
        invariant forall k :: 0 <= k < index ==>
                    && Unfolds(heap, items[k], values[k])
                    && Canon(values[k], render) == Some(trees[k]) && elements[k] == Print(trees[k])
      {
        ElementEdge(ref, items, index);
        var part, value, path := Canonicalize(items[index], trail);
        if !part.Rendered? {
          p := path;
          if part.Invalid? {
            p := ChildIsBad(ref, items[index], path);
          }
          return part, Null, p;
        }
        elements := elements + [part.text];
        values := values + [value];
        trees := trees + [Canon(value, render).value];
      }
      v := Array(values);
      ArrayUnfolds(ref, items, values);
      ArrayText(values, trees, elements);
      r := Rendered([OPEN_BRACKET] + Join(elements) + [CLOSE_BRACKET]);
    }

    lemma ArrayUnfolds(ref: Ref, items: seq<Item>, values: seq<Value>)
      requires ref in heap && heap[ref] == ArrayNode(items) && |values| == |items|
      requires forall k :: 0 <= k < |items| ==> Unfolds(heap, items[k], values[k])
      ensures Unfolds(heap, Reference(ref), Array(values))
    {
    }

    lemma ArrayText(values: seq<Value>, trees: seq<Tree>, elements: seq<Text>)
      requires |values| == |trees| == |elements|
      requires forall k :: 0 <= k < |values| ==>
                 Canon(values[k], render) == Some(trees[k]) && elements[k] == Print(trees[k])
      ensures Serialize(Array(values), render) == Some([OPEN_BRACKET] + Join(elements) + [CLOSE_BRACKET])
    {
      ElementsFrom(values, trees, render);
      JoinElements(elements, trees);
    }

    method CanonicalizeObject(ref: Ref, slots: seq<Slot>, ghost trail: seq<Ref>)
      returns (r: Rendered, ghost v: Value, ghost p: seq<Ref>)
      requires Closed(heap) && ref in heap && heap[ref] == ObjectNode(slots)
      requires forall i :: 0 <= i < |slots| ==> GoodItem(heap, slots[i].item)
      requires forall i, j :: 0 <= i < j < |slots| ==> slots[i].key != slots[j].key
      requires Path(heap, trail) && |trail| > 0 && trail[|trail| - 1] == ref
      requires forall r :: r in ancestors <==> r in trail
      modifies this
      ensures ancestors == old(ancestors)
      ensures r.Cyclic? ==> |p| > 0 && Path(heap, trail + p) && Repeats(trail + p)
      ensures !r.Cyclic? ==> Explains(trail, Reference(ref), r, v, p)
      decreases |heap.Keys - ancestors|, 2
    {
      hide Closed, Unfolds, Edge, BadNode, BadLeaf, Canon, Print, Path, Repeats, BadBelow, SortedKeys, NoLoneSurrogates,
           Quoted;
      var order := SortedKeys(slots);
      var parts: seq<Text> := [];
      ghost var at: seq<nat> := [];
      ghost var values: seq<Value> := [];
      ghost var members: seq<Member> := [];
      p := [];
      for j := 0 to |order|
        invariant ancestors == old(ancestors)
        invariant |parts| == |at| == |values| == |members| == j
        invariant forall k :: 0 <= k < j ==>
                    && at[k] < |slots| && slots[at[k]].key == order[k].key == members[k].key
                    && NoLoneSurrogates(members[k].key)
                    && Unfolds(heap, slots[at[k]].item, values[k])
                    && Canon(values[k], render) == Some(members[k].value) && parts[k] == PrintMember(members[k])
      {
        var key := order[j].key;
        var i: nat :| i < |slots| && slots[i].key == key;
        SlotEdge(ref, slots, i);
        var ok := RejectLoneSurrogates(key);
        if !ok {
          p := [ref];
          KeyIsBad(ref);
          return Invalid, Null, p;
        }
        var part, value, path := Canonicalize(slots[i].item, trail);
        if !part.Rendered? {
          p := path;
          if part.Invalid? {
            p := ChildIsBad(ref, slots[i].item, path);
          }
          return part, Null, p;
        }
        parts := parts + [Quoted(key) + [COLON] + part.text];
        at, values := at + [i], values + [value];
        members := members + [Member(key, Canon(value, render).value)];
      }
      v := Object(UnfoldedProperties(slots, order, at, values));
      ObjectUnfolds(ref, slots, order, at, values, members);
      ObjectText(slots, order, at, values, members, parts);
      r := Rendered([OPEN_BRACE] + Join(parts) + [CLOSE_BRACE]);
    }

    lemma KeyIsBad(ref: Ref)
      requires ref in heap && BadNode(heap[ref]) && Path(heap, [ref])
      ensures BadBelow(heap, Reference(ref), [ref])
    {
    }

    /** The properties in the object's own order, each with the value found for its key in sorted order. */
    ghost function UnfoldedProperties(slots: seq<Slot>, order: seq<Member>, at: seq<nat>, values: seq<Value>)
      : (properties: seq<Property>)
      requires order == SortedKeys(slots) && |at| == |values| == |order|
      ensures |properties| == |slots|
      ensures forall i :: 0 <= i < |slots| ==>
                properties[i] == Property(slots[i].key, values[CoverIndex(slots, i)])
    {
      seq(|slots|, i requires 0 <= i < |slots| => Property(slots[i].key, values[CoverIndex(slots, i)]))
    }

    lemma ObjectUnfolds(ref: Ref, slots: seq<Slot>, order: seq<Member>, at: seq<nat>, values: seq<Value>,
                        members: seq<Member>)
      requires ref in heap && heap[ref] == ObjectNode(slots)
      requires forall i, j :: 0 <= i < j < |slots| ==> slots[i].key != slots[j].key
      requires order == SortedKeys(slots) && |at| == |values| == |order|
      requires forall k :: 0 <= k < |order| ==>
                 at[k] < |slots| && slots[at[k]].key == order[k].key && Unfolds(heap, slots[at[k]].item, values[k])
      ensures Unfolds(heap, Reference(ref), Object(UnfoldedProperties(slots, order, at, values)))
    {
    }

    lemma ObjectText(slots: seq<Slot>, order: seq<Member>, at: seq<nat>, values: seq<Value>, members: seq<Member>,
                     parts: seq<Text>)
      requires forall i, j :: 0 <= i < j < |slots| ==> slots[i].key != slots[j].key
      requires order == SortedKeys(slots) && |at| == |values| == |order| == |members| == |parts|
      requires forall k :: 0 <= k < |order| ==>
                 && at[k] < |slots| && slots[at[k]].key == order[k].key == members[k].key
                 && NoLoneSurrogates(members[k].key)
                 && Canon(values[k], render) == Some(members[k].value) && parts[k] == PrintMember(members[k])
      ensures Serialize(Object(UnfoldedProperties(slots, order, at, values)), render)
              == Some([OPEN_BRACE] + Join(parts) + [CLOSE_BRACE])
    {
      hide SortedKeys, CoverIndex, NoLoneSurrogates, PrintMember, CanonMembers, Sort, Increasing, Join, PrintMembers,
           UnfoldedProperties, Canon;
      var properties := UnfoldedProperties(slots, order, at, values);
      forall i, j | 0 <= i < |slots| && 0 <= j < |members| && members[j].key == slots[i].key
        ensures Canon(properties[i].value, render) == Some(members[j].value)
      {
        KeyFoundOnce(slots, i, j);
      }
      SortedMembersAre(slots, properties, members, render);
      JoinMembers(parts, members);
      ObjectSerializes(properties, members, parts);
    }

    lemma ObjectSerializes(properties: seq<Property>, members: seq<Member>, parts: seq<Text>)
      requires CanonMembers(properties, render).Some? && Sort(CanonMembers(properties, render).value) == members
      requires Join(parts) == PrintMembers(members)
      ensures Serialize(Object(properties), render) == Some([OPEN_BRACE] + Join(parts) + [CLOSE_BRACE])
    {
      hide CanonMembers, Sort, Join, PrintMembers;
    }

    lemma KeyFoundOnce(slots: seq<Slot>, i: nat, j: nat)
      requires forall i, j :: 0 <= i < j < |slots| ==> slots[i].key != slots[j].key
      requires i < |slots| && j < |SortedKeys(slots)| && SortedKeys(slots)[j].key == slots[i].key
      ensures CoverIndex(slots, i) == j
    {
      SortedKeysIncrease(slots);
      IncreasingKeys(SortedKeys(slots), CoverIndex(slots, i), j);
    }

    /**
     `canonicalJson` on a heap: it refuses exactly the graphs from which a cycle or a bad node can be
     reached, and otherwise serializes the tree the graph unfolds to.
     */
    method CanonicalJson(item: Item) returns (r: Rendered)
      requires Closed(heap) && GoodItem(heap, item)
      modifies this
      ensures r.Rendered? <==> forall p :: !CycleBelow(heap, item, p) && !BadBelow(heap, item, p)
      ensures r.Rendered? ==> exists v :: Unfolds(heap, item, v) && Serialize(v, render) == Some(r.text)
      ensures ancestors == {}
    {
      hide Closed, GoodItem, Unfolds, Serialize, BadBelow, Path, Repeats, CycleBelow;
      ancestors := {};
      EmptyTrail();
      ghost var v, p;
      r, v, p := Canonicalize(item, []);
      assert [] + p == p;
      if r.Rendered? {
        RenderedIsSound(item, v, r.text);
      } else if r.Cyclic? {
        CyclicIsCycle(item, p);
      }
    }

    lemma EmptyTrail()
      ensures Path(heap, [])
    {
    }

    lemma CyclicIsCycle(item: Item, p: seq<Ref>)
      requires item.Reference? && |p| > 0 && p[0] == item.ref && Path(heap, p) && Repeats(p)
      ensures CycleBelow(heap, item, p)
    {
    }

    lemma RenderedIsSound(item: Item, v: Value, text: Text)
      requires Unfolds(heap, item, v) && Serialize(v, render) == Some(text)
      ensures forall p :: !CycleBelow(heap, item, p) && !BadBelow(heap, item, p)
    {
      hide Unfolds, Print, Canon;
      forall p ensures !CycleBelow(heap, item, p) && !BadBelow(heap, item, p) {
        UnfoldingHasNoCycle(heap, item, v, p);
        AcceptedHasNothingBad(heap, item, v, p, render);
      }
    }
  }
}
