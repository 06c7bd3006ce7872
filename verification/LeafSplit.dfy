// A leaf split as a whole.
module LeafSplit {
  // The data node is cut into new data nodes, and the parent's slots are given to them.

  import opened Bitmap
  import opened GappedArray
  import opened DataNode
  import opened FanoutTree
  import opened Directory

  // The least integer that is not less than x.
  function Ceiling(x: real): int { -((-x).Floor) }

  lemma CeilingIs(x: real, key: int)
    ensures key as real >= x <==> key >= Ceiling(x)
  {
  }

  // The first slot of the keys from the x-th of 2^f equal parts of a leaf's range; the first part has
  // the keys below the range too, and the last those above.
  function CutSlot(v: seq<Slot>, lo: real, hi: real, x: nat, f: nat): (r: nat)
    ensures r <= |v|
  {
    if x == 0 then 0 else if x >= Pow2(f) then |v| else FirstNotLess(v, Ceiling(CutBetween(lo, hi, x as real, Pow2(f) as real)))
  }

  // The used node's boundaries are where its parts of the range begin and end.
  ghost predicate CutsAt(v: seq<Slot>, lo: real, hi: real, n: FTNode, f: nat, left: int, right: int) {
    n.level <= f && left == CutSlot(v, lo, hi, Start(n, f), f) && right == CutSlot(v, lo, hi, Start(n, f) + Repeats(n, f), f)
  }

  // ----- A slice of the slots holds a share of the keys -----

  lemma OrderedMiddle(x: seq<Entry>, y: seq<Entry>, z: seq<Entry>)
    requires Ordered(x + y + z)
    ensures Ordered(y)
  {
    var e := x + y + z;
    forall i, j | 0 <= i < j < |y| ensures y[i].0 < y[j].0 {
      assert e[|x| + i] == y[i] && e[|x| + j] == y[j];
    }
  }

  lemma MiddleOfMap(x: seq<Entry>, y: seq<Entry>, z: seq<Entry>, key: int)
    requires Ordered(x + y + z)
    ensures Ordered(y)
    ensures key in ToMap(y) ==> key in ToMap(x + y + z) && ToMap(x + y + z)[key] == ToMap(y)[key]
    ensures key in ToMap(x + y + z) && (forall i :: 0 <= i < |x| ==> x[i].0 != key) && (forall i :: 0 <= i < |z| ==> z[i].0 != key) ==>
              key in ToMap(y)
  {
    hide ToMap, Ordered;
    var e := x + y + z;
    OrderedMiddle(x, y, z);
    MapHolds(e);
    MapHolds(y);
    if key in ToMap(y) {
      var i :| 0 <= i < |y| && y[i].0 == key;
      assert e[|x| + i] == y[i];
    }
    if key in ToMap(e) {
      var i :| 0 <= i < |e| && e[i].0 == key;
      assert i < |x| ==> e[i] == x[i];
      assert i >= |x| + |y| ==> e[i] == z[i - |x| - |y|];
      assert |x| <= i < |x| + |y| ==> e[i] == y[i - |x|];
    }
  }

  // A slice bounded by two keys holds exactly the entries between them.
  lemma SliceMap(v: seq<Slot>, x: int, y: int, key: int)
    requires Gapped(v) && x <= y
    ensures FirstNotLess(v, x) <= FirstNotLess(v, y)
    ensures var m := ToMap(Entries(v[FirstNotLess(v, x)..FirstNotLess(v, y)]));
            && (key in m <==> key in ToMap(Entries(v)) && x <= key < y)
            && (key in m ==> m[key] == ToMap(Entries(v))[key])
  {
    hide ToMap, Entries, FirstNotLess, GappedTo;
    SliceBetween(v, x, y);
    EntriesOrdered(v, END_SENTINEL);
    var l, r := FirstNotLess(v, x), FirstNotLess(v, y);
    var e := Entries(v[l..r]);
    MiddleOfMap(Entries(v[..l]), e, Entries(v[r..]), key);
    MapHolds(e);
    if key in ToMap(e) {
      var i :| 0 <= i < |e| && e[i].0 == key;
    }
  }

  lemma FromStart(v: seq<Slot>, y: int) returns (x: int)
    requires Gapped(v)
    ensures x <= y && FirstNotLess(v, x) == 0 && forall i :: 0 <= i < |v| ==> x <= v[i].key
  {
    x := if v == [] || y <= v[0].key then y else v[0].key;
    forall i | 0 <= i < |v| ensures x <= v[i].key {
      KeysGrow(v, END_SENTINEL, 0, i);
    }
  }

  lemma ToEnd(v: seq<Slot>, x: int) returns (y: int)
    requires Gapped(v)
    ensures x <= y && FirstNotLess(v, y) == |v| && y > END_SENTINEL
  {
    y := if x > END_SENTINEL then x else END_SENTINEL + 1;
    forall i | 0 <= i < |v| ensures v[i].key < y {
      KeysGrow(v, END_SENTINEL, i, |v|);
    }
  }

  lemma KeyRange(v: seq<Slot>, key: int, x: int)
    requires Gapped(v) && key in ToMap(Entries(v)) && forall i :: 0 <= i < |v| ==> x <= v[i].key
    ensures x <= key
  {
    hide ToMap, GappedTo;
    EntriesOrdered(v, END_SENTINEL);
    MapHolds(Entries(v));
    var e := Entries(v);
    var i :| 0 <= i < |e| && e[i].0 == key;
    KeysOf(v, 0, |v|);
    assert v[0..|v|] == v;
  }

  // The k-th new leaf's slice of the old leaf holds exactly its share of the keys.
  lemma PieceIsShare(v: seq<Slot>, kids: seq<Child>, k: nat, left: int, right: int, key: int)
    requires Gapped(v) && k < |kids| && kids[k].lo < kids[k].hi
    requires left == if k == 0 then 0 else FirstNotLess(v, Ceiling(kids[k].lo))
    requires right == if k == |kids| - 1 then |v| else FirstNotLess(v, Ceiling(kids[k].hi))
    ensures 0 <= left <= right <= |v|
    ensures var m := ToMap(Entries(v[left..right]));
            && (key in m <==> key in Contents(ToMap(Entries(v)), kids, k))
            && (key in m ==> m[key] == Contents(ToMap(Entries(v)), kids, k)[key])
  {
    hide ToMap, Entries, FirstNotLess, GappedTo;
    var lo, hi := Ceiling(kids[k].lo), Ceiling(kids[k].hi);
    CeilingIs(kids[k].hi, hi);
    CeilingIs(kids[k].lo, hi);
    CeilingIs(kids[k].lo, key);
    CeilingIs(kids[k].hi, key);
    if k == 0 {
      lo := FromStart(v, hi);
    }
    if k == |kids| - 1 {
      hi := ToEnd(v, lo);
    }
    SliceMap(v, lo, hi, key);
    if key in ToMap(Entries(v)) && k == 0 {
      KeyRange(v, key, lo);
    }
    if key in ToMap(Entries(v)) && k == |kids| - 1 {
      SentinelAbove(v, key);
    }
  }

  lemma SentinelAbove(v: seq<Slot>, key: int)
    requires Gapped(v) && key in ToMap(Entries(v))
    ensures key < END_SENTINEL
  {
    hide ToMap, GappedTo, Entries;
    EntriesOrdered(v, END_SENTINEL);
    MapHolds(Entries(v));
  }

  lemma PieceContents(v: seq<Slot>, kids: seq<Child>, k: nat, left: int, right: int)
    requires Gapped(v) && k < |kids| && kids[k].lo < kids[k].hi
    requires left == if k == 0 then 0 else FirstNotLess(v, Ceiling(kids[k].lo))
    requires right == if k == |kids| - 1 then |v| else FirstNotLess(v, Ceiling(kids[k].hi))
    ensures 0 <= left <= right <= |v|
    ensures ToMap(Entries(v[left..right])) == Contents(ToMap(Entries(v)), kids, k)
  {
    hide ToMap, Entries, FirstNotLess, GappedTo, Contents;
    PieceIsShare(v, kids, k, left, right, 0);
    forall key: int ensures key in ToMap(Entries(v[left..right])) <==> key in Contents(ToMap(Entries(v)), kids, k) {
      PieceIsShare(v, kids, k, left, right, key);
    }
    forall key | key in ToMap(Entries(v[left..right]))
      ensures ToMap(Entries(v[left..right]))[key] == Contents(ToMap(Entries(v)), kids, k)[key]
    {
      PieceIsShare(v, kids, k, left, right, key);
    }
  }

  // The limits the parent gives the k-th new leaf are where the old leaf was cut.
  lemma CutIsLimit(c: seq<Child>, g: nat, i: nat, used: seq<FTNode>, f: nat, kids: seq<Child>, a: real, b: real, v: seq<Slot>, k: nat,
                   left: int, right: int)
    requires Blocks(c, g) && a > 0.0 && i < |c| && c[i].depth <= g && SpanOk(c, g, a, b, i) && f <= g - c[i].depth
    requires TilesFrom(used, f, 0) && KidSpans(BlockStart(c, g, i), g - c[i].depth, used, kids, a, b) && k < |kids|
    requires CutsAt(v, c[i].lo, c[i].hi, used[k], f, left, right)
    ensures kids[k].lo < kids[k].hi
    ensures left == if k == 0 then 0 else FirstNotLess(v, Ceiling(kids[k].lo))
    ensures right == if k == |kids| - 1 then |v| else FirstNotLess(v, Ceiling(kids[k].hi))
  {
    hide Blocks, BlockStart, TilesFrom, CutBetween, Line, Start, Repeats, Ceiling, FirstNotLess, SpanOk;
    var m, s := g - c[i].depth, BlockStart(c, g, i);
    SharePlace(used, f, k);
    CutsAgree(c, g, i, used, f, kids, a, b, k);
    assert KidSpan(s, m, used[k], kids[k], a, b);
    RepeatsIs(used[k], m);
    Order(a, b, kids[k].lo, kids[k].hi);
  }

  // ----- Creating the new data nodes -----

  ghost predicate Slice(leaf: AlexDataNode, n: FTNode) reads leaf {
    0 <= n.leftBoundary <= n.rightBoundary <= leaf.keySlots.Length
  }

  // The number of keys in the node's slice has been computed.
  ghost predicate Counted(leaf: AlexDataNode, n: FTNode)
    requires leaf.Valid() && Slice(leaf, n)
    reads leaf, leaf.keySlots, leaf.payloadSlots, leaf.bitmap
  {
    n.numKeys == |Entries(leaf.View()[n.leftBoundary..n.rightBoundary])|
  }

  ghost predicate CountedAll(leaf: AlexDataNode, used: seq<FTNode>)
    reads leaf, leaf.keySlots, leaf.payloadSlots, leaf.bitmap
  {
    leaf.Valid() && forall k :: 0 <= k < |used| ==> Slice(leaf, used[k]) && Counted(leaf, used[k])
  }

  ghost predicate IsSlice(node: AlexDataNode, leaf: AlexDataNode, n: FTNode)
    reads node, node.keySlots, node.payloadSlots, node.bitmap, leaf, leaf.keySlots, leaf.payloadSlots, leaf.bitmap
  {
    && node.Valid() && leaf.Valid() && node.locked && Slice(leaf, n)
    && Entries(node.View()) == Entries(leaf.View()[n.leftBoundary..n.rightBoundary])
    && AsModelled(node.View(), Entries(node.View()), node.model)
  }

  method NewLeaf(leaf: AlexDataNode, left: int, right: int, model: int -> int, precomputed: Count) returns (node: AlexDataNode)
    requires leaf.Valid() && 0 <= left <= right <= leaf.keySlots.Length
    requires match precomputed
             case Known(n) => n == |Entries(leaf.View()[left..right])|
             case Unknown => left < 64 * leaf.bitmap.Length
    ensures fresh(node) && node.Valid() && node.locked && Entries(node.View()) == Entries(leaf.View()[left..right])
    ensures node.model == model && AsModelled(node.View(), Entries(node.View()), model)
  {
    hide GappedTo, Entries, ToMap, ViewOf, Fits, AsModelled;
    node := new AlexDataNode.BulkLoadFromExisting(leaf, left, right, model, precomputed);
    node.locked := true;
  }

  // One locked data node for each used node, with the keys of its slice.
  method NewDataNodes(leaf: AlexDataNode, used: seq<FTNode>, models: int -> (int -> int)) returns (nodes: seq<AlexDataNode>)
    requires CountedAll(leaf, used)
    ensures leaf.Valid() && leaf.View() == old(leaf.View())
    ensures |nodes| == |used| && forall k :: 0 <= k < |used| ==> fresh(nodes[k]) && IsSlice(nodes[k], leaf, used[k]) && nodes[k].model == models(k)
  {
    hide GappedTo, Entries, ToMap, ViewOf, Fits, AsModelled;
    nodes := [];
    var k := 0;
    while k < |used|
      invariant 0 <= k == |nodes| <= |used| && leaf.Valid() && leaf.View() == old(leaf.View()) && CountedAll(leaf, used)
      invariant forall j :: 0 <= j < k ==> fresh(nodes[j]) && IsSlice(nodes[j], leaf, used[j]) && nodes[j].model == models(j)
    {
      var node := NewLeaf(leaf, used[k].leftBoundary, used[k].rightBoundary, models(k), Known(used[k].numKeys));
      nodes := nodes + [node];
      k := k + 1;
    }
  }

  // ----- The split -----

  // What is stored under each id, with the new leaves added.
  ghost function Stored(store: map<nat, map<int, int>>, ids: seq<nat>, contents: seq<map<int, int>>): map<nat, map<int, int>>
    requires |contents| == |ids|
  {
    if ids == [] then store
    else Stored(store, ids[..|ids| - 1], contents[..|ids| - 1])[ids[|ids| - 1] := contents[|ids| - 1]]
  }

  ghost predicate Distinct(ids: seq<nat>) { forall j, k :: 0 <= j < k < |ids| ==> ids[j] != ids[k] }

  lemma {:induction false} StoredIs(store: map<nat, map<int, int>>, ids: seq<nat>, contents: seq<map<int, int>>)
    requires |contents| == |ids| && Distinct(ids)
    ensures var r := Stored(store, ids, contents);
            && (forall k :: 0 <= k < |ids| ==> ids[k] in r && r[ids[k]] == contents[k])
            && forall id | id in store && id !in ids :: id in r && r[id] == store[id]
  {
    if ids != [] {
      StoredIs(store, ids[..|ids| - 1], contents[..|ids| - 1]);
    }
  }

  // A parent's slots and its model.
  datatype Table = Table(c: seq<Child>, a: real, b: real) {
    // The child a key is sent to.
    function To(key: real): Child
      requires |c| > 0
    {
      c[Bucket(a, b, |c|, key)]
    }
  }

  // A lookup by the new table finds what it found by the old one.
  ghost predicate SameLookup(x: Table, y: Table, store: map<nat, map<int, int>>, store': map<nat, map<int, int>>, key: int) {
    |x.c| > 0 && |y.c| > 0 &&
    var p, q := x.To(key as real), y.To(key as real);
    p.id in store && q.id in store' && Get(store'[q.id], key) == Get(store[p.id], key)
  }

  // Of the new leaves exactly the one to which the table sends the key holds it, with its payload.
  ghost predicate HeldOnce(y: Table, kids: seq<Child>, contents: seq<map<int, int>>, key: int, payload: int) {
    |y.c| > 0 && |kids| == |contents| &&
    exists k :: 0 <= k < |kids| && HeldAt(y, kids, contents, key, payload, k)
  }

  ghost predicate HeldAt(y: Table, kids: seq<Child>, contents: seq<map<int, int>>, key: int, payload: int, k: nat)
    requires |y.c| > 0 && |kids| == |contents| && k < |kids|
  {
    && y.To(key as real) == kids[k] && key in contents[k] && contents[k][key] == payload
    && forall x :: 0 <= x < |contents| && x != k ==> key !in contents[x]
  }

  // A split replaces a leaf by leaves with the given contents, loses and duplicates nothing, and sends
  // no key that was not the leaf's anywhere else.
  ghost predicate SplitsInto(x: Table, y: Table, leafOf: Child, kids: seq<Child>, content: map<int, int>, contents: seq<map<int, int>>) {
    && |x.c| > 0 && |y.c| > 0 && |kids| == |contents|
    && (forall k, key | 0 <= k < |contents| && key in contents[k] :: key in content)
    && (forall key | key in content && x.To(key as real) == leafOf :: HeldOnce(y, kids, contents, key, content[key]))
    && forall key: real :: x.To(key) != leafOf ==> y.To(key) == x.To(key)
  }

  lemma SplitResult(c: seq<Child>, c': seq<Child>, g: nat, i: nat, used: seq<FTNode>, kids: seq<Child>, a: real, b: real,
                    content: map<int, int>, contents: seq<map<int, int>>, store: map<nat, map<int, int>>, ids: seq<nat>)
    requires Blocks(c, g) && Spans(c, g, a, b) && a > 0.0 && i < |c| && c[i].depth <= g && TilesFrom(used, g - c[i].depth, 0)
    requires KidSpans(BlockStart(c, g, i), g - c[i].depth, used, kids, a, b)
    requires FilledBy(c, c', BlockStart(c, g, i), g - c[i].depth, used, kids)
    requires |contents| == |kids| == |ids| && forall k: nat :: k < |kids| ==> contents[k] == Contents(content, kids, k) && kids[k].id == ids[k]
    requires Distinct(ids) && forall j: nat :: j < |c| ==> c[j].id in store && c[j].id !in ids
    requires store[c[i].id] == content
    ensures SplitsInto(Table(c, a, b), Table(c', a, b), c[i], kids, content, contents)
    ensures forall key: int :: SameLookup(Table(c, a, b), Table(c', a, b), store, Stored(store, ids, contents), key)
  {
    hide Bucket, Blocks, Spans, BlockStart, Contents, KidSpans, TilesFrom, FilledBy, HeldOnce, Get, Stored;
    var store' := Stored(store, ids, contents);
    StoredIs(store, ids, contents);
    FilledSize(c, c', g, i, used, kids);
    var x, y := Table(c, a, b), Table(c', a, b);
    forall key: int ensures SameLookup(x, y, store, store', key) {
      SplitKeepsLookups(c, c', g, i, used, kids, a, b, store, store', key);
    }
    forall key | key in content && x.To(key as real) == c[i] ensures HeldOnce(y, kids, contents, key, content[key]) {
      SplitHolds(c, c', g, i, used, kids, a, b, content, contents, key);
    }
    forall k, key | 0 <= k < |contents| && key in contents[k] ensures key in content {
      assert key in Contents(content, kids, k);
      ContentsPart(content, kids, k, key);
    }
    forall key: real | x.To(key) != c[i] ensures y.To(key) == x.To(key) {
      OutsideKept(c, c', g, i, used, kids, Bucket(a, b, |c|, key));
    }
  }

  lemma FilledSize(c: seq<Child>, c': seq<Child>, g: nat, i: nat, used: seq<FTNode>, kids: seq<Child>)
    requires i < |c| && c[i].depth <= g && FilledBy(c, c', BlockStart(c, g, i), g - c[i].depth, used, kids)
    ensures |c'| == |c|
  {
  }

  lemma ContentsPart(content: map<int, int>, kids: seq<Child>, x: nat, key: int)
    requires x < |kids| && key in Contents(content, kids, x)
    ensures key in content
  {
  }

  lemma OutsideKept(c: seq<Child>, c': seq<Child>, g: nat, i: nat, used: seq<FTNode>, kids: seq<Child>, slot: nat)
    requires Blocks(c, g) && i < |c| && c[i].depth <= g && FilledBy(c, c', BlockStart(c, g, i), g - c[i].depth, used, kids)
    requires slot < |c| && c[slot] != c[i]
    ensures |c'| == |c| && c'[slot] == c[slot]
  {
    hide Blocks, BlockStart;
    BlockIs(c, g, i);
  }

  lemma SplitHolds(c: seq<Child>, c': seq<Child>, g: nat, i: nat, used: seq<FTNode>, kids: seq<Child>, a: real, b: real,
                   content: map<int, int>, contents: seq<map<int, int>>, key: int)
    requires Blocks(c, g) && Spans(c, g, a, b) && a > 0.0 && i < |c| && c[i].depth <= g && TilesFrom(used, g - c[i].depth, 0)
    requires KidSpans(BlockStart(c, g, i), g - c[i].depth, used, kids, a, b)
    requires FilledBy(c, c', BlockStart(c, g, i), g - c[i].depth, used, kids)
    requires |contents| == |kids| && forall k: nat :: k < |kids| ==> contents[k] == Contents(content, kids, k)
    requires key in content && c[Bucket(a, b, |c|, key as real)] == c[i]
    ensures HeldOnce(Table(c', a, b), kids, contents, key, content[key])
  {
    hide Bucket, Blocks, Spans, BlockStart, KidSpans, TilesFrom, FilledBy;
    FilledSize(c, c', g, i, used, kids);
    InBlock(c, g, a, b, i, Bucket(a, b, |c|, key as real));
    var k := SplitRoutes(c, c', g, i, used, kids, a, b, key as real);
    assert HeldAt(Table(c', a, b), kids, contents, key, content[key], k);
  }

  lemma InBlock(c: seq<Child>, g: nat, a: real, b: real, i: nat, slot: nat)
    requires Blocks(c, g) && Spans(c, g, a, b) && i < |c| && slot < |c| && c[i].depth <= g && c[slot] == c[i]
    ensures BlockStart(c, g, i) <= slot < BlockStart(c, g, i) + Pow2(g - c[i].depth)
  {
    hide Blocks, Spans, BlockStart;
    if !(BlockStart(c, g, i) <= slot < BlockStart(c, g, i) + Pow2(g - c[i].depth)) {
      OutsideBlock(c, g, a, b, i, slot);
    }
  }

  ghost function TableOf(node: AlexModelNode): Table reads node, node.children { Table(node.children[..], node.a, node.b) }

  // The new nodes are cut where the used nodes begin and end.
  ghost predicate CutsAll(leaf: AlexDataNode, cut: seq<FTNode>, used: seq<FTNode>, f: nat, lo: real, hi: real)
    reads leaf, leaf.keySlots, leaf.payloadSlots, leaf.bitmap
  {
    && leaf.Valid() && |cut| == |used|
    && forall k :: 0 <= k < |used| ==>
         Slice(leaf, cut[k]) && CutsAt(leaf.View(), lo, hi, used[k], f, cut[k].leftBoundary, cut[k].rightBoundary)
  }

  ghost predicate NewNode(node: AlexDataNode, content: map<int, int>)
    reads node, node.keySlots, node.payloadSlots, node.bitmap
  {
    node.Valid() && node.locked && node.Contents() == content && AsModelled(node.View(), Entries(node.View()), node.model)
  }

  // The contents of the new nodes are the shares of the new leaves.
  lemma NodesHoldShares(leaf: AlexDataNode, nodes: seq<AlexDataNode>, cut: seq<FTNode>, c: seq<Child>, g: nat, i: nat, used: seq<FTNode>,
                        f: nat, kids: seq<Child>, a: real, b: real, k: nat)
    requires leaf.Valid() && Blocks(c, g) && a > 0.0 && i < |c| && c[i].depth <= g && SpanOk(c, g, a, b, i) && f <= g - c[i].depth
    requires TilesFrom(used, f, 0) && KidSpans(BlockStart(c, g, i), g - c[i].depth, used, kids, a, b)
    requires |nodes| == |cut| == |used| && k < |kids| && IsSlice(nodes[k], leaf, cut[k]) && CutsAll(leaf, cut, used, f, c[i].lo, c[i].hi)
    ensures NewNode(nodes[k], Contents(leaf.Contents(), kids, k))
  {
    hide AsModelled, Bucket, Blocks, BlockStart, TilesFrom, GappedTo, Entries, ToMap, ViewOf, Fits, Contents, CutSlot, Ceiling, FirstNotLess, SpanOk;
    assert CutsAt(leaf.View(), c[i].lo, c[i].hi, used[k], f, cut[k].leftBoundary, cut[k].rightBoundary);
    CutIsLimit(c, g, i, used, f, kids, a, b, leaf.View(), k, cut[k].leftBoundary, cut[k].rightBoundary);
    PieceContents(leaf.View(), kids, k, cut[k].leftBoundary, cut[k].rightBoundary);
  }

  // The shares of all new leaves.
  function SharesOf(content: map<int, int>, kids: seq<Child>): (contents: seq<map<int, int>>)
    ensures |contents| == |kids| && forall k :: 0 <= k < |kids| ==> contents[k] == Contents(content, kids, k)
  {
    seq(|kids|, k requires 0 <= k < |kids| => Contents(content, kids, k))
  }

  // A leaf split by the nodes of a fanout tree, into the slots it has: `store` are the contents of the
  // leaves.
  method SplitInPlace(leaf: AlexDataNode, parent: AlexModelNode, bucket: int, used: seq<FTNode>, f: nat, ids: seq<nat>,
                   models: int -> (int -> int), ghost g: nat, ghost store: map<nat, map<int, int>>)
    returns (nodes: seq<AlexDataNode>, kids: seq<Child>, ghost contents: seq<map<int, int>>)
    requires leaf.Valid() && parent.Valid(g) && 0 <= bucket < parent.children.Length && TilesFrom(used, f, 0) && |ids| == |used|
    requires var leafOf := parent.children[bucket];
             && leafOf.depth <= g && f <= g - leafOf.depth && CutsAll(leaf, used, used, f, leafOf.lo, leafOf.hi) && CountedAll(leaf, used)
    requires Distinct(ids) && forall j :: 0 <= j < parent.children.Length ==> parent.children[j].id in store && parent.children[j].id !in ids
    requires store[parent.children[bucket].id] == leaf.Contents()
    modifies parent.children
    ensures parent.Valid(g) && |nodes| == |contents| == |used| && forall k :: 0 <= k < |nodes| ==> fresh(nodes[k]) && NewNode(nodes[k], contents[k]) && nodes[k].model == models(k)
    ensures Changes(old(parent.AsDir(g)), Division(bucket, used, kids), parent.AsDir(g)) && contents == SharesOf(old(leaf.Contents()), kids)
    ensures |kids| == |ids| && forall k :: 0 <= k < |kids| ==> kids[k].id == ids[k]
    ensures SplitsInto(old(TableOf(parent)), TableOf(parent), old(parent.children[bucket]), kids, old(leaf.Contents()), contents)
    ensures forall key: int :: SameLookup(old(TableOf(parent)), TableOf(parent), store, Stored(store, ids, contents), key)
  {
    hide Bucket, Blocks, BlockStart, TilesFrom, GappedTo, Entries, ToMap, ViewOf, Fits, Contents, CutsAt, KidSpans, FilledBy, SplitsInto,
      SameLookup, Stored, KidsOk, CutsAll, CountedAll, IsSlice, NewNode;
    ghost var c, content := parent.children[..], leaf.Contents();
    nodes := NewDataNodes(leaf, used, models);
    kids := parent.SplitSideways(bucket, used, f, ids, g);
    Rescale(used, f, g - c[bucket].depth, 0);
    contents := SharesOf(content, kids);
    forall k: nat | k < |kids| ensures NewNode(nodes[k], contents[k]) {
      NodesHoldShares(leaf, nodes, used, c, g, bucket, used, f, kids, parent.a, parent.b, k);
    }
    SplitResult(c, parent.children[..], g, bucket, used, kids, parent.a, parent.b, content, contents, store, ids);
  }

  function Middle(lo: real, hi: real): real { lo + (hi - lo) / 2.0 }

  lemma HalfSlots(v: seq<Slot>, lo: real, hi: real)
    ensures CutSlot(v, lo, hi, 0, 1) == 0 && CutSlot(v, lo, hi, 2, 1) == |v|
    ensures CutSlot(v, lo, hi, 1, 1) == FirstNotLess(v, Ceiling(Middle(lo, hi)))
  {
    hide FirstNotLess, Ceiling;
    PowOne();
    assert Pow2(1) == 2 * Pow2(0);
    HalfWay(hi - lo);
    assert CutBetween(lo, hi, 1.0, 2.0) == Middle(lo, hi);
  }

  // The two halves are cut at the middle of the range.
  lemma HalfCuts(leaf: AlexDataNode, lo: real, hi: real, mid: int)
    requires leaf.Valid() && mid == FirstNotLess(leaf.View(), Ceiling(Middle(lo, hi)))
    ensures CutsAll(leaf, HalfNodes(mid, leaf.keySlots.Length), TwoHalves(), 1, lo, hi)
  {
    hide GappedTo, Entries, ViewOf, Fits, FirstNotLess, Ceiling, CutSlot, Middle, TilesFrom, Start, Repeats, Pow2;
    HalfSlots(leaf.View(), lo, hi);
    Halves(1);
    PowOne();
    TwoOf();
    var used, cut := TwoHalves(), HalfNodes(mid, leaf.keySlots.Length);
    assert Start(used[0], 1) == 0 && Start(used[1], 1) == 1 && Repeats(used[0], 1) == Repeats(used[1], 1) == 1;
    assert CutsAt(leaf.View(), lo, hi, used[0], 1, 0, mid) && CutsAt(leaf.View(), lo, hi, used[1], 1, mid, leaf.keySlots.Length);
    forall k | 0 <= k < |used|
      ensures Slice(leaf, cut[k]) && CutsAt(leaf.View(), lo, hi, used[k], 1, cut[k].leftBoundary, cut[k].rightBoundary)
    {
      assert k == 0 || k == 1;
    }
  }

  lemma HalfWay(x: real)
    ensures x * (1.0 / 2.0) == x / 2.0
  {
  }

  function HalfNodes(mid: int, capacity: int): (cut: seq<FTNode>)
    ensures |cut| == 2
  {
    [FTNode(1, 0, 0.0, 0, mid, true, 0), FTNode(1, 1, 0.0, mid, capacity, true, 0)]
  }

  // The slots end with a full bitmap word, and all keys are below the middle of the range: the right half
  // is empty, and begins behind the bitmap.
  predicate PastBitmap(leaf: AlexDataNode, lo: real, hi: real) reads leaf, leaf.keySlots {
    && leaf.keySlots.Length == 64 * leaf.bitmap.Length && leaf.keySlots.Length > 0
    && leaf.keySlots[leaf.keySlots.Length - 1] as real < Middle(lo, hi)
  }

  // Exactly then the iterator that counts the keys of the right half would read behind the bitmap.
  lemma ReadsPastBitmap(leaf: AlexDataNode, lo: real, hi: real)
    requires leaf.Valid()
    ensures PastBitmap(leaf, lo, hi) <==> FirstNotLess(leaf.View(), Ceiling(Middle(lo, hi))) >= 64 * leaf.bitmap.Length
    ensures PastBitmap(leaf, lo, hi) && Middle(lo, hi) <= END_SENTINEL as real ==> leaf.View()[leaf.keySlots.Length - 1].used
  {
    hide GappedTo, Entries, Middle, Ceiling, FirstNotLess;
    var v, n := leaf.View(), leaf.keySlots.Length;
    var m := FirstNotLess(v, Ceiling(Middle(lo, hi)));
    CeilingIs(Middle(lo, hi), v[n - 1].key);
    ViewSorted(leaf.keySlots[..], leaf.payloadSlots[..], leaf.bitmap[..]);
    if m < n {
      assert v[m].key <= v[n - 1].key;
    }
    if !v[n - 1].used {
      GapsEqual(v, n - 1);
    }
  }

  // A bulk load can leave a node like that: 45 keys in 64 slots, all sent to the last by the model.
  method CutAtEnd() returns (leaf: AlexDataNode)
    ensures fresh(leaf) && leaf.Valid() && leaf.numKeys == 45 && PastBitmap(leaf, 0.0, 90.0)
  {
    var values := seq(45, i => (i, 0));
    assert CapacityFor(45, INIT_DENSITY) == 64;
    var model := (key: int) => 63;
    leaf := new AlexDataNode.BulkLoad(values, model, 1024);
    ghost var slots :| |slots| == 45 && LaidOut(leaf.View(), values, model, slots);
    assert LaidAt(leaf.View(), values, model, slots, 43) && LaidAt(leaf.View(), values, model, slots, 44);
    assert Distance(slots[44], 63) <= Distance(63, 63);
  }

  // The model node that has the two halves as children; or the read behind the bitmap.
  datatype Halved = Into(node: AlexModelNode) | OutOfBounds

  // The two new data nodes, unless the keys of the right one cannot be counted.
  method NewHalves(leaf: AlexDataNode, lo: real, hi: real, models: int -> (int -> int))
    returns (ok: bool, mid: int, nodes: seq<AlexDataNode>)
    requires leaf.Valid()
    ensures leaf.Valid() && leaf.View() == old(leaf.View())
    ensures mid == FirstNotLess(leaf.View(), Ceiling(Middle(lo, hi))) && (ok <==> !PastBitmap(leaf, lo, hi))
    ensures ok ==> |nodes| == 2 && forall k :: 0 <= k < 2 ==> fresh(nodes[k]) && IsSlice(nodes[k], leaf, HalfNodes(mid, leaf.keySlots.Length)[k]) && nodes[k].model == models(k)
  {
    hide GappedTo, Entries, ToMap, ViewOf, Fits, FirstNotLess, Ceiling, Middle, PastBitmap, CapacityFor, AsModelled;
    nodes := [];
    var key := Ceiling(Middle(lo, hi));
    var predicted := leaf.PredictPosition(key);
    mid := leaf.LowerBoundFrom(predicted, key);
    ReadsPastBitmap(leaf, lo, hi);
    ok := mid < 64 * leaf.bitmap.Length;
    if ok {
      var left := NewLeaf(leaf, 0, mid, models(0), Unknown);
      var right := NewLeaf(leaf, mid, leaf.keySlots.Length, models(1), Unknown);
      nodes := [left, right];
    }
  }

  // The two new leaves in the slots of a leaf that has at least two.
  method HalvesInPlace(leaf: AlexDataNode, parent: AlexModelNode, bucket: int, leftId: nat, rightId: nat, nodes: seq<AlexDataNode>,
                       ghost mid: int, ghost g: nat, ghost store: map<nat, map<int, int>>)
    returns (kids: seq<Child>, ghost contents: seq<map<int, int>>)
    requires leaf.Valid() && parent.Valid(g) && 0 <= bucket < parent.children.Length && parent.children[bucket].depth < g
    requires var leafOf := parent.children[bucket]; mid == FirstNotLess(leaf.View(), Ceiling(Middle(leafOf.lo, leafOf.hi)))
    requires |nodes| == 2 && forall k :: 0 <= k < 2 ==> IsSlice(nodes[k], leaf, HalfNodes(mid, leaf.keySlots.Length)[k])
    requires leftId != rightId
    requires forall j :: 0 <= j < parent.children.Length ==> parent.children[j].id in store && parent.children[j].id !in [leftId, rightId]
    requires store[parent.children[bucket].id] == leaf.Contents()
    modifies parent.children
    ensures parent.Valid(g) && |contents| == 2 && forall k :: 0 <= k < 2 ==> NewNode(nodes[k], contents[k])
    ensures Changes(old(parent.AsDir(g)), Division(bucket, TwoHalves(), kids), parent.AsDir(g)) && contents == SharesOf(old(leaf.Contents()), kids)
    ensures |kids| == 2 && kids[0].id == leftId && kids[1].id == rightId
    ensures SplitsInto(old(TableOf(parent)), TableOf(parent), old(parent.children[bucket]), kids, old(leaf.Contents()), contents)
    ensures forall key: int :: SameLookup(old(TableOf(parent)), TableOf(parent), store, Stored(store, [leftId, rightId], contents), key)
  {
    hide Bucket, Blocks, BlockStart, TilesFrom, GappedTo, Entries, ToMap, ViewOf, Fits, Contents, CutsAt, KidSpans, FilledBy, SplitsInto,
      SameLookup, Stored, KidsOk, CutsAll, CountedAll, IsSlice, NewNode, TwoHalves, HalfNodes, FirstNotLess, Ceiling, Middle;
    ghost var c, content, used, cut := parent.children[..], leaf.Contents(), TwoHalves(), HalfNodes(mid, leaf.keySlots.Length);
    var range := parent.children[bucket];
    HalfCuts(leaf, range.lo, range.hi, mid);
    var left, right := parent.SplitInTwo(bucket, leftId, rightId, g);
    kids := [left, right];
    Halves(1);
    Halves(g - range.depth);
    contents := SharesOf(content, kids);
    TwoOf();
    forall k: nat | k < 2 ensures NewNode(nodes[k], contents[k]) {
      NodesHoldShares(leaf, nodes, cut, c, g, bucket, used, 1, kids, parent.a, parent.b, k);
    }
    SplitResult(c, parent.children[..], g, bucket, used, kids, parent.a, parent.b, content, contents, store, [leftId, rightId]);
  }

  lemma TwoOf()
    ensures |TwoHalves()| == 2
  {
  }

  // What is left to do for a split downwards once the new data nodes are there: a new model node with
  // them as its children takes the leaf's place.
  method HangBelow(leaf: AlexDataNode, parent: AlexModelNode, bucket: int, used: seq<FTNode>, f: nat, ids: seq<nat>, nodeId: nat,
                   nodes: seq<AlexDataNode>, ghost cut: seq<FTNode>, ghost g: nat)
    returns (node: AlexModelNode, ghost kids: seq<Child>, ghost contents: seq<map<int, int>>)
    requires leaf.Valid() && parent.Valid(g) && 0 <= bucket < parent.children.Length && TilesFrom(used, f, 0) && |ids| == |used|
    requires var leafOf := parent.children[bucket]; leafOf.id !in ids && CutsAll(leaf, cut, used, f, leafOf.lo, leafOf.hi)
    requires |nodes| == |cut| == |used| && Distinct(ids) && forall k :: 0 <= k < |nodes| ==> IsSlice(nodes[k], leaf, cut[k])
    modifies parent.children
    ensures parent.Valid(g) && Replaced(old(parent.children[..]), parent.children[..], bucket, nodeId)
    ensures fresh(node) && fresh(node.children) && node.Valid(f) && |kids| == |ids| && forall k :: 0 <= k < |ids| ==> kids[k].id == ids[k]
    ensures BuiltFor(node.AsDir(f), used, kids) && Changes(old(parent.AsDir(g)), Replacement(bucket, nodeId), parent.AsDir(g))
    ensures |contents| == |used| && forall k :: 0 <= k < |nodes| ==> NewNode(nodes[k], contents[k])
    ensures Divides(TableOf(node), kids, old(leaf.Contents()), contents)
  {
    hide Bucket, Blocks, Spans, BlockStart, TilesFrom, GappedTo, Entries, ToMap, ViewOf, Fits, Contents, CutsAt, KidSpans, FilledBy,
      SameLookup, Stored, KidsOk, CutsAll, IsSlice, NewNode, HeldOnce;
    ghost var content := leaf.Contents();
    var leafOf := parent.children[bucket];
    ChildRange(parent.children[..], g, bucket, parent.a, parent.b);
    node := new AlexModelNode.SplitDownwards(leafOf, used, f, ids);
    ghost var c := seq(Pow2(f), _ => leafOf.(depth := 0));
    kids :| FillsWhole(c, node.children[..], f, used, ids, kids, node.a, node.b);
    contents := SharesOf(content, kids);
    FilledAnyway(c, node.children[..], f, used, kids);
    WholeFacts(c, f, leafOf, used, kids, node.a, node.b);
    forall k: nat | k < |kids| ensures NewNode(nodes[k], contents[k]) {
      NodesHoldShares(leaf, nodes, cut, c, f, 0, used, f, kids, node.a, node.b, k);
    }
    SplitResult(c, node.children[..], f, 0, used, kids, node.a, node.b, content, contents, map[leafOf.id := content], ids);
    parent.ReplaceChild(bucket, nodeId, g);
  }

  // The pairs of the leaf, each in the one new leaf that the new model node sends its key to.
  ghost predicate Divides(y: Table, kids: seq<Child>, content: map<int, int>, contents: seq<map<int, int>>) {
    && |y.c| > 0 && |contents| == |kids| && (forall x, key | 0 <= x < |contents| && key in contents[x] :: key in content)
    && forall key | key in content :: HeldOnce(y, kids, contents, key, content[key])
  }

  // A leaf split downwards: a new model node for the leaf's range has the new leaves as its children,
  // and takes the leaf's place in the parent.
  method SplitLeafDownwards(leaf: AlexDataNode, parent: AlexModelNode, bucket: int, used: seq<FTNode>, f: nat, ids: seq<nat>, nodeId: nat,
                            models: int -> (int -> int), ghost g: nat)
    returns (node: AlexModelNode, nodes: seq<AlexDataNode>, ghost kids: seq<Child>, ghost contents: seq<map<int, int>>)
    requires leaf.Valid() && parent.Valid(g) && 0 <= bucket < parent.children.Length && TilesFrom(used, f, 0) && |ids| == |used|
    requires var leafOf := parent.children[bucket];
             leafOf.id !in ids && CutsAll(leaf, used, used, f, leafOf.lo, leafOf.hi) && CountedAll(leaf, used)
    requires Distinct(ids)
    modifies parent.children
    ensures parent.Valid(g) && Replaced(old(parent.children[..]), parent.children[..], bucket, nodeId)
    ensures fresh(node) && node.Valid(f) && |kids| == |ids| && forall k :: 0 <= k < |ids| ==> kids[k].id == ids[k]
    ensures |nodes| == |contents| == |used| && forall k :: 0 <= k < |nodes| ==> fresh(nodes[k]) && NewNode(nodes[k], contents[k]) && nodes[k].model == models(k)
    ensures BuiltFor(node.AsDir(f), used, kids)
    ensures Divides(TableOf(node), kids, old(leaf.Contents()), contents)
  {
    hide Bucket, Blocks, Spans, TilesFrom, GappedTo, Entries, ToMap, ViewOf, Fits, CutsAt, CutsAll, CountedAll, IsSlice, NewNode, Divides, Replaced, BuiltFor;
    nodes := NewDataNodes(leaf, used, models);
    node, kids, contents := HangBelow(leaf, parent, bucket, used, f, ids, nodeId, nodes, used, g);
  }

  // The same in two at the middle of the range.
  method SplitInTwoDownwards(leaf: AlexDataNode, parent: AlexModelNode, bucket: int, leftId: nat, rightId: nat, nodeId: nat,
                             models: int -> (int -> int), ghost g: nat)
    returns (r: Halved, nodes: seq<AlexDataNode>, ghost kids: seq<Child>, ghost contents: seq<map<int, int>>)
    requires leaf.Valid() && parent.Valid(g) && 0 <= bucket < parent.children.Length
    requires leftId != rightId && parent.children[bucket].id !in [leftId, rightId]
    modifies parent.children
    ensures var leafOf := old(parent.children[bucket]); r.OutOfBounds? <==> old(PastBitmap(leaf, leafOf.lo, leafOf.hi))
    ensures parent.Valid(g) && if r.OutOfBounds? then parent.children[..] == old(parent.children[..])
                               else Replaced(old(parent.children[..]), parent.children[..], bucket, nodeId)
    ensures r.Into? ==>
              && fresh(r.node) && r.node.Valid(1) && |kids| == 2 && kids[0].id == leftId && kids[1].id == rightId
              && |nodes| == |contents| == 2 && (forall k :: 0 <= k < 2 ==> fresh(nodes[k]) && NewNode(nodes[k], contents[k]) && nodes[k].model == models(k))
              && Divides(TableOf(r.node), kids, old(leaf.Contents()), contents)
  {
    hide Bucket, Blocks, Spans, TilesFrom, GappedTo, Entries, ToMap, ViewOf, Fits, CutsAt, CutsAll, CountedAll, IsSlice, NewNode, Divides, Replaced,
      FirstNotLess, Ceiling, Middle, HalfNodes, TwoHalves, PastBitmap;
    var leafOf := parent.children[bucket];
    var ok, mid;
    r, kids, contents := OutOfBounds, [], [];
    ok, mid, nodes := NewHalves(leaf, leafOf.lo, leafOf.hi, models);
    if ok {
      HalfCuts(leaf, leafOf.lo, leafOf.hi, mid);
      Halves(1);
      TwoOf();
      var node;
      node, kids, contents :=
        HangBelow(leaf, parent, bucket, TwoHalves(), 1, [leftId, rightId], nodeId, nodes, HalfNodes(mid, leaf.keySlots.Length), g);
      r := Into(node);
    }
  }

  // ----- Expansion of the parent -----

  // An expanded table sends every key where it was sent before, so a split of it is a split of the table
  // before the expansion.
  lemma ThroughExpansion(x: Table, y: Table, z: Table, leafOf: Child, kids: seq<Child>, content: map<int, int>, contents: seq<map<int, int>>)
    requires |x.c| > 0 && |y.c| > 0 && (forall key: real :: y.To(key) == x.To(key)) && SplitsInto(y, z, leafOf, kids, content, contents)
    ensures SplitsInto(x, z, leafOf, kids, content, contents)
  {
    hide HeldOnce, Table.To;
  }

  lemma LookupThrough(x: Table, y: Table, z: Table, store: map<nat, map<int, int>>, store': map<nat, map<int, int>>, key: int)
    requires |x.c| > 0 && |y.c| > 0 && (forall key: real :: y.To(key) == x.To(key)) && SameLookup(y, z, store, store', key)
    ensures SameLookup(x, z, store, store', key)
  {
    hide Table.To, Get;
    assert y.To(key as real) == x.To(key as real);
  }

  // What is known of an expanded parent.
  ghost predicate ExpandsTo(x: Table, y: Table, e: nat, bucket: nat, slot: nat) {
    && |x.c| > 0 && |y.c| > 0 && bucket < |x.c| && slot < |y.c| && slot == bucket * Pow2(e) && y.c[slot] == x.c[bucket]
    && (forall key: real :: y.To(key) == x.To(key)) && forall j :: 0 <= j < |y.c| ==> y.c[j] in x.c
  }

  lemma ExpandedSlot(c: seq<Child>, g: nat, e: nat, bucket: nat)
    requires |c| == Pow2(g) && bucket < |c|
    ensures bucket * Pow2(e) < Pow2(g + e) && Expanded(c, g, e)[bucket * Pow2(e)] == c[bucket]
  {
    hide Pow2, Ancestor;
    Pow2Sum(g, e);
    Rows(bucket, Pow2(g), Pow2(e));
    ShiftedIs(bucket, e);
    CellsBelow(bucket * Pow2(e), bucket, e);
  }

  lemma ExpandedFrom(c: seq<Child>, g: nat, e: nat, j: nat)
    requires |c| == Pow2(g) && j < Pow2(g + e)
    ensures Expanded(c, g, e)[j] in c
  {
    hide Pow2, Ancestor;
    AncestorBound(j, e, g + e);
  }

  // The parent is replaced by one with 2^e times as many slots: in the grandparent every slot of the old
  // one gets the new one.
  method ExpandParent(parent: AlexModelNode, bucket: int, e: nat, grand: AlexModelNode, place: int, newId: nat, ghost g: nat, ghost gg: nat)
    returns (current: AlexModelNode, slot: int)
    requires parent.Valid(g) && 0 <= bucket < parent.children.Length && grand.Valid(gg) && 0 <= place < grand.children.Length
    requires grand.children != parent.children
    modifies grand.children
    ensures fresh(current) && fresh(current.children) && current.Valid(g + e) && grand.Valid(gg)
    ensures 0 <= slot && ExpandsTo(TableOf(parent), TableOf(current), e, bucket, slot)
    ensures Changes(parent.AsDir(g), Expansion(e), current.AsDir(g + e)) && Changes(old(grand.AsDir(gg)), Replacement(place, newId), grand.AsDir(gg))
    ensures Replaced(old(grand.children[..]), grand.children[..], place, newId)
  {
    hide Bucket, Blocks, Spans, Expanded;
    ghost var c := parent.children[..];
    SizeIs(c, g);
    current := new AlexModelNode.Expand(parent, e, g);
    slot := bucket * Pow2(e);
    ExpandedSlot(c, g, e, bucket);
    forall j | 0 <= j < current.children.Length ensures current.children[..][j] in c {
      ExpandedFrom(c, g, e, j);
    }
    grand.ReplaceChild(place, newId, gg);
  }

  lemma SizeIs(c: seq<Child>, g: nat)
    requires Blocks(c, g)
    ensures |c| == Pow2(g)
  {
  }

  ghost predicate Replaced(c: seq<Child>, c': seq<Child>, place: int, newId: nat) {
    && |c'| == |c| && 0 <= place < |c|
    && forall j :: 0 <= j < |c| ==> c'[j] == if c[j] == c[place] then c[place].(id := newId) else c[j]
  }

  // The children of a leaf's parent after a split, with or without an expansion before.
  ghost predicate Restructured(d: Dir, used: seq<FTNode>, kids: seq<Child>, d': Dir) {
    || (exists i: nat :: Changes(d, Division(i, used, kids), d'))
    || exists e: nat, y: Dir, i: nat :: Changes(d, Expansion(e), y) && Changes(y, Division(i, used, kids), d')
  }

  lemma Divided(d: Dir, i: nat, used: seq<FTNode>, kids: seq<Child>, d': Dir)
    requires Changes(d, Division(i, used, kids), d')
    ensures Restructured(d, used, kids, d')
  {
  }

  lemma DividedWider(d: Dir, e: nat, y: Dir, i: nat, used: seq<FTNode>, kids: seq<Child>, d': Dir)
    requires Changes(d, Expansion(e), y) && Changes(y, Division(i, used, kids), d')
    ensures Restructured(d, used, kids, d')
  {
  }

  // A leaf split by the nodes of a fanout tree. If the leaf has fewer slots than the fanout, the parent
  // is expanded first.
  method SplitLeaf(leaf: AlexDataNode, parent: AlexModelNode, bucket: int, used: seq<FTNode>, f: nat, ids: seq<nat>,
                   models: int -> (int -> int), grand: AlexModelNode, place: int, newId: nat,
                   ghost g: nat, ghost gg: nat, ghost store: map<nat, map<int, int>>)
    returns (current: AlexModelNode, nodes: seq<AlexDataNode>, kids: seq<Child>, ghost contents: seq<map<int, int>>)
    requires leaf.Valid() && parent.Valid(g) && 0 <= bucket < parent.children.Length && TilesFrom(used, f, 0) && |ids| == |used|
    requires var leafOf := parent.children[bucket]; CutsAll(leaf, used, used, f, leafOf.lo, leafOf.hi) && CountedAll(leaf, used)
    requires Distinct(ids) && forall j :: 0 <= j < parent.children.Length ==> parent.children[j].id in store && parent.children[j].id !in ids
    requires store[parent.children[bucket].id] == leaf.Contents()
    requires grand.Valid(gg) && 0 <= place < grand.children.Length && grand.children != parent.children
    modifies parent.children, grand.children
    ensures var d := old(parent.children[bucket].depth);
            && (current == parent <==> d + f <= g) && current.Valid(if d + f <= g then g else d + f)
            && (current != parent ==> fresh(current) && parent.children[..] == old(parent.children[..]))
    ensures grand.Valid(gg)
    ensures if current == parent then grand.children[..] == old(grand.children[..])
            else Replaced(old(grand.children[..]), grand.children[..], place, newId)
    ensures |nodes| == |contents| == |used| && forall k :: 0 <= k < |nodes| ==> fresh(nodes[k]) && NewNode(nodes[k], contents[k]) && nodes[k].model == models(k)
    ensures contents == SharesOf(old(leaf.Contents()), kids)
    ensures Restructured(old(parent.AsDir(g)), used, kids, current.AsDir(if current == parent then g else old(parent.children[bucket].depth) + f))
    ensures |kids| == |ids| && forall k :: 0 <= k < |kids| ==> kids[k].id == ids[k]
    ensures SplitsInto(old(TableOf(parent)), TableOf(current), old(parent.children[bucket]), kids, old(leaf.Contents()), contents)
    ensures forall key: int :: SameLookup(old(TableOf(parent)), TableOf(current), store, Stored(store, ids, contents), key)
  {
    hide Bucket, Blocks, BlockStart, Spans, TilesFrom, GappedTo, Entries, ToMap, ViewOf, Fits, Contents, CutsAt, SplitsInto, SameLookup, Stored,
      CutsAll, CountedAll, NewNode, Table.To, Replaced, Changes, Restructured, SharesOf;
    ghost var x, content, leafOf := TableOf(parent), leaf.Contents(), parent.children[bucket];
    SizeIs(parent.children[..], g);
    BlockIs(parent.children[..], g, bucket);
    var log := Log2RoundDown(parent.children.Length);
    LogOfPow2(g, log);
    var room := log - parent.children[bucket].depth;
    if f <= room {
      current := parent;
      nodes, kids, contents := SplitInPlace(leaf, parent, bucket, used, f, ids, models, g, store);
      Divided(old(parent.AsDir(g)), bucket, used, kids, parent.AsDir(g));
    } else {
      var slot;
      current, slot := ExpandParent(parent, bucket, f - room, grand, place, newId, g, gg);
      ghost var y, wide := TableOf(current), current.AsDir(g + (f - room));
      nodes, kids, contents := SplitInPlace(leaf, current, slot, used, f, ids, models, g + (f - room), store);
      DividedWider(old(parent.AsDir(g)), f - room, wide, slot, used, kids, current.AsDir(g + (f - room)));
      ThroughExpansion(x, y, TableOf(current), leafOf, kids, content, contents);
      forall key: int ensures SameLookup(x, TableOf(current), store, Stored(store, ids, contents), key) {
        LookupThrough(x, y, TableOf(current), store, Stored(store, ids, contents), key);
      }
    }
  }

  // A leaf split in two at the middle of its range; if it has one slot only, the parent is expanded first.
  // Out of bounds: the keys of the right half cannot be counted.
  method SplitLeafInTwo(leaf: AlexDataNode, parent: AlexModelNode, bucket: int, leftId: nat, rightId: nat, models: int -> (int -> int),
                        grand: AlexModelNode, place: int, newId: nat, ghost g: nat, ghost gg: nat, ghost store: map<nat, map<int, int>>)
    returns (r: Halved, nodes: seq<AlexDataNode>, kids: seq<Child>, ghost contents: seq<map<int, int>>)
    requires leaf.Valid() && parent.Valid(g) && 0 <= bucket < parent.children.Length
    requires leftId != rightId
    requires forall j :: 0 <= j < parent.children.Length ==> parent.children[j].id in store && parent.children[j].id !in [leftId, rightId]
    requires store[parent.children[bucket].id] == leaf.Contents()
    requires grand.Valid(gg) && 0 <= place < grand.children.Length && grand.children != parent.children
    modifies parent.children, grand.children
    ensures var leafOf := old(parent.children[bucket]); r.OutOfBounds? <==> old(PastBitmap(leaf, leafOf.lo, leafOf.hi))
    ensures r.OutOfBounds? ==> parent.Valid(g) && parent.children[..] == old(parent.children[..])
    ensures var d := old(parent.children[bucket].depth);
            r.Into? ==>
              && (r.node == parent <==> d < g) && r.node.Valid(if d < g then g else g + 1)
              && (r.node != parent ==> fresh(r.node) && parent.children[..] == old(parent.children[..]))
    ensures grand.Valid(gg)
    ensures if r.OutOfBounds? || r.node == parent then grand.children[..] == old(grand.children[..])
            else Replaced(old(grand.children[..]), grand.children[..], place, newId)
    ensures r.Into? ==>
              && |nodes| == |contents| == 2 && (forall k :: 0 <= k < 2 ==> fresh(nodes[k]) && NewNode(nodes[k], contents[k]) && nodes[k].model == models(k))
              && |kids| == 2 && kids[0].id == leftId && kids[1].id == rightId
              && contents == SharesOf(old(leaf.Contents()), kids)
              && Restructured(old(parent.AsDir(g)), TwoHalves(), kids, r.node.AsDir(if r.node == parent then g else g + 1))
              && SplitsInto(old(TableOf(parent)), TableOf(r.node), old(parent.children[bucket]), kids, old(leaf.Contents()), contents)
              && forall key: int :: SameLookup(old(TableOf(parent)), TableOf(r.node), store, Stored(store, [leftId, rightId], contents), key)
  {
    hide Bucket, Blocks, BlockStart, Spans, TilesFrom, GappedTo, Entries, ToMap, ViewOf, Fits, Contents, SplitsInto, SameLookup, Stored,
      NewNode, Table.To, Replaced, FirstNotLess, Ceiling, Middle, IsSlice, PastBitmap, Changes, Restructured, SharesOf;
    ghost var x, content, leafOf, ids := TableOf(parent), leaf.Contents(), parent.children[bucket], [leftId, rightId];
    r, kids, contents := OutOfBounds, [], [];
    var ok, mid;
    ok, mid, nodes := NewHalves(leaf, parent.children[bucket].lo, parent.children[bucket].hi, models);
    if !ok {
      return;
    }
    SizeIs(parent.children[..], g);
    BlockIs(parent.children[..], g, bucket);
    var log := Log2RoundDown(parent.children.Length);
    LogOfPow2(g, log);
    if parent.children[bucket].depth < log {
      kids, contents := HalvesInPlace(leaf, parent, bucket, leftId, rightId, nodes, mid, g, store);
      Divided(old(parent.AsDir(g)), bucket, TwoHalves(), kids, parent.AsDir(g));
      r := Into(parent);
    } else {
      var current, slot := ExpandParent(parent, bucket, 1, grand, place, newId, g, gg);
      ghost var y, wide := TableOf(current), current.AsDir(g + 1);
      kids, contents := HalvesInPlace(leaf, current, slot, leftId, rightId, nodes, mid, g + 1, store);
      DividedWider(old(parent.AsDir(g)), 1, wide, slot, TwoHalves(), kids, current.AsDir(g + 1));
      ThroughExpansion(x, y, TableOf(current), leafOf, kids, content, contents);
      forall key: int ensures SameLookup(x, TableOf(current), store, Stored(store, ids, contents), key) {
        LookupThrough(x, y, TableOf(current), store, Stored(store, ids, contents), key);
      }
      r := Into(current);
    }
  }

  lemma ChildRange(c: seq<Child>, g: nat, i: nat, a: real, b: real)
    requires Spans(c, g, a, b) && a > 0.0 && i < |c|
    ensures c[i].lo < c[i].hi
  {
    hide Line, BlockStart;
    assert c[i].depth <= g && SpanOk(c, g, a, b, i);
    Order(a, b, c[i].lo, c[i].hi);
  }

  lemma WholeFacts(c: seq<Child>, f: nat, leafOf: Child, used: seq<FTNode>, kids: seq<Child>, a: real, b: real)
    requires c == seq(Pow2(f), _ => leafOf.(depth := 0)) && Blocks(c, f) && Spans(c, f, a, b) && a > 0.0
    requires KidSpans(0, f, used, kids, a, b) && |kids| == |used|
    ensures |c| > 0 && c[0].depth == 0 && BlockStart(c, f, 0) == 0 && SpanOk(c, f, a, b, 0) && c[0].lo == leafOf.lo && c[0].hi == leafOf.hi
  {
    FirstStart(c, f);
  }
}
