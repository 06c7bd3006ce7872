// A leaf split as its fanout tree says.
module LeafFanout {
  // The fanout tree of a data node that is there already cuts its slots at equal parts of its range; the
  // nodes it chooses are what the leaf is split into.

  import opened Bitmap
  import opened GappedArray
  import opened DataNode
  import opened FanoutTree
  import opened FanoutChoice
  import opened Directory
  import opened LeafSplit

  // The marked slots are the real ones.
  lemma {:induction false} MarkedIsUsed(v: seq<Slot>, marks: seq<bool>, l: nat, r: nat)
    requires |marks| == |v| && l <= r <= |v| && forall i :: 0 <= i < |v| ==> marks[i] == v[i].used
    ensures Marked(marks, l, r) == |Entries(v[l..r])|
    decreases r - l
  {
    if l < r {
      MarkedIsUsed(v, marks, l + 1, r);
      assert v[l..r] == [v[l]] + v[l + 1..r];
      EntriesConcat([v[l]], v[l + 1..r]);
      EntriesOne(v[l]);
    } else {
      assert v[l..r] == [];
    }
  }

  // The same first slot, whether the bound is a real or the next integer.
  lemma LowerBoundIs(v: seq<Slot>, values: seq<int>, x: real)
    requires |values| == |v| && forall i :: 0 <= i < |v| ==> values[i] == v[i].key
    ensures LowerBound(values, x) == FirstNotLess(v, Ceiling(x))
  {
    hide LowerBound, FirstNotLess, Ceiling;
    var r, q := LowerBound(values, x), FirstNotLess(v, Ceiling(x));
    if r < |v| { CeilingIs(x, values[r]); }
    if q < |v| { CeilingIs(x, values[q]); }
  }

  // The model that sends the range from lo to hi to [0, 1).
  ghost predicate Spreads(a: real, b: real, lo: real, hi: real) { a > 0.0 && a * (hi - lo) == 1.0 && b == -1.0 * a * lo }

  lemma CutIs(a: real, b: real, lo: real, hi: real, f: nat, x: nat)
    requires Spreads(a, b, lo, hi)
    ensures Cut(a, b, f, x) == CutBetween(lo, hi, x as real, Pow2(f) as real)
  {
    hide Pow2;
    var p, y := Pow2(f) as real, x as real;
    var t := y / p;
    assert t * p == y;
    var q := lo + (hi - lo) * t;
    assert q * (a * p) == lo * (a * p) + (a * (hi - lo)) * (t * p);
    assert lo * (a * p) == a * lo * p;
    Quotient(q, a * p, y - b * p);
  }

  lemma Quotient(q: real, d: real, n: real)
    requires d > 0.0 && q * d == n
    ensures n / d == q
  {
  }

  lemma BoundaryIsCut(v: seq<Slot>, values: seq<int>, a: real, b: real, lo: real, hi: real, f: nat, x: nat)
    requires Spreads(a, b, lo, hi) && |values| == |v| && forall i :: 0 <= i < |v| ==> values[i] == v[i].key
    ensures Boundary(values, a, b, f, x) == CutSlot(v, lo, hi, x, f)
  {
    hide LowerBound, FirstNotLess, Ceiling, Cut, CutBetween, Pow2;
    CutIs(a, b, lo, hi, f, x);
    LowerBoundIs(v, values, CutBetween(lo, hi, x as real, Pow2(f) as real));
  }

  // The boundaries of a node are where its cells of the finest level begin and end.
  lemma BoundsAreCuts(v: seq<Slot>, values: seq<int>, marks: seq<bool>, a: real, b: real, lo: real, hi: real, f: nat, n: FTNode)
    requires Spreads(a, b, lo, hi) && |values| == |marks| == |v| && (forall i :: 0 <= i < |v| ==> values[i] == v[i].key) && n.level <= f
    requires NodeBounds(n, values, marks, a, b)
    ensures CutsAt(v, lo, hi, n, f, n.leftBoundary, n.rightBoundary)
  {
    hide Boundary, CutSlot, Pow2, Shifted;
    var k := f - n.level;
    BoundaryFinest(values, a, b, n.level, n.nodeId, k);
    BoundaryFinest(values, a, b, n.level, n.nodeId + 1, k);
    ShiftedIs(n.nodeId, k);
    ShiftedIs(n.nodeId + 1, k);
    NextStart(n.nodeId, Pow2(k));
    RepeatsIs(n, f);
    assert n.level + k == f;
    BoundaryIsCut(v, values, a, b, lo, hi, f, Start(n, f));
    BoundaryIsCut(v, values, a, b, lo, hi, f, Start(n, f) + Repeats(n, f));
  }

  // ----- The choice -----

  // The input of the choice for a data node with the range from lo to hi.
  function InputOf(values: seq<int>, marks: seq<bool>, lo: real, hi: real, totalKeys: nat, costOf: (int, int) -> real,
                   lookups: real, modelSize: real, pointerSize: real): (p: Input)
    requires lo < hi
    ensures Spreads(p.a, p.b, lo, hi)
  {
    var a := 1.0 / (hi - lo);
    assert a * (hi - lo) == 1.0;
    Input(values, marks, Computed, a, -1.0 * a * lo, totalKeys, costOf, lookups, modelSize, pointerSize)
  }

  lemma InputFits(leaf: AlexDataNode, p: Input)
    requires leaf.Valid() && leaf.numKeys > 0 && p.a > 0.0
    requires p.values == leaf.keySlots[..] && p.marks == Bits(leaf.bitmap[..], leaf.keySlots.Length)
    ensures p.Fits() && p.Keys() == leaf.numKeys && SlotsAre(leaf.View(), p)
  {
    hide GappedTo, Entries, Bit;
    var v := leaf.View();
    MarkedIsUsed(v, p.marks, 0, |v|);
    assert v[0..|v|] == v;
  }

  ghost predicate SlotsAre(v: seq<Slot>, p: Input) {
    && |p.values| == |p.marks| == |v|
    && forall i :: 0 <= i < |v| ==> p.values[i] == v[i].key && p.marks[i] == v[i].used
  }

  // What the chosen nodes are for the leaf.
  ghost predicate Chosen(v: seq<Slot>, lo: real, hi: real, n: FTNode, f: nat) {
    && CutsAt(v, lo, hi, n, f, n.leftBoundary, n.rightBoundary) && 0 <= n.leftBoundary <= n.rightBoundary <= |v|
    && n.numKeys == |Entries(v[n.leftBoundary..n.rightBoundary])|
  }

  lemma SurvivorIsChosen(v: seq<Slot>, p: Input, lo: real, hi: real, n: FTNode, f: nat)
    requires p.Fits() && SlotsAre(v, p) && Spreads(p.a, p.b, lo, hi) && SurvivesIn(p, f, n)
    ensures Chosen(v, lo, hi, n, f)
  {
    hide Boundary, CutSlot, Pow2, Survives, Entries;
    SurvivorBounds(p, f, n);
    BoundsAreCuts(v, p.values, p.marks, p.a, p.b, lo, hi, f, n);
    MarkedIsUsed(v, p.marks, n.leftBoundary, n.rightBoundary);
  }

  // The used nodes are the best for the leaf: those that survive in the fanout tree with the first of the
  // cheapest levels up to `last` as its finest.
  ghost predicate BestFor(leaf: AlexDataNode, lo: real, hi: real, totalKeys: nat, maxFanout: nat, costOf: (int, int) -> real,
                          lookups: real, modelSize: real, pointerSize: real, f: nat, used: seq<FTNode>, last: nat)
    reads leaf, leaf.keySlots, leaf.payloadSlots, leaf.bitmap
  {
    leaf.Valid() && lo < hi &&
    var p := InputOf(leaf.keySlots[..], Bits(leaf.bitmap[..], leaf.keySlots.Length), lo, hi, totalKeys, costOf, lookups, modelSize, pointerSize);
    && p.Fits() && p.Keys() == leaf.numKeys && p.LooksUpTo(last, maxFanout) && p.Cheapest(f, last) && Irreducible(p, used)
    && TilesFrom(used, f, 0) && forall n :: n in used <==> SurvivesIn(p, f, n)
  }

  // The fanout tree of a data node that is there already: the chosen nodes lie side by side, and each is
  // cut out of the slots where its part of the range begins and ends.
  method FindBestFanoutExistingNode(leaf: AlexDataNode, lo: real, hi: real, totalKeys: nat, maxFanout: nat, costOf: (int, int) -> real,
                                    lookups: real, modelSize: real, pointerSize: real)
    returns (bestLevel: nat, used: seq<FTNode>, ghost last: nat)
    requires leaf.Valid() && leaf.numKeys > 0 && lo < hi && lookups >= 0.0 && modelSize >= 0.0 && pointerSize >= 0.0
    ensures TilesFrom(used, bestLevel, 0) && KeysTile(used, 0, leaf.keySlots.Length)
    ensures forall n :: n in used ==> Chosen(leaf.View(), lo, hi, n, bestLevel)
    ensures BestFor(leaf, lo, hi, totalKeys, maxFanout, costOf, lookups, modelSize, pointerSize, bestLevel, used, last)
  {
    hide GappedTo, Entries, ToMap, ViewOf, Fits, TilesFrom, KeysTile, SurvivesIn, Input.LooksUpTo, Input.Cheapest, Input.Keys, InputOf, Bits,
      Chosen, SlotsAre, Irreducible;
    var p := InputOf(leaf.keySlots[..], Bits(leaf.bitmap[..], leaf.keySlots.Length), lo, hi, totalKeys, costOf, lookups, modelSize, pointerSize);
    InputIs(leaf.keySlots[..], Bits(leaf.bitmap[..], leaf.keySlots.Length), lo, hi, totalKeys, costOf, lookups, modelSize, pointerSize);
    InputFits(leaf, p);
    var bestCost;
    bestLevel, bestCost, used, last := ChooseFanout(p, maxFanout);
    forall n | n in used ensures Chosen(leaf.View(), lo, hi, n, bestLevel) {
      SurvivorIsChosen(leaf.View(), p, lo, hi, n, bestLevel);
    }
  }

  lemma InputIs(values: seq<int>, marks: seq<bool>, lo: real, hi: real, totalKeys: nat, costOf: (int, int) -> real,
                lookups: real, modelSize: real, pointerSize: real)
    requires lo < hi
    ensures var p := InputOf(values, marks, lo, hi, totalKeys, costOf, lookups, modelSize, pointerSize);
            && p.values == values && p.marks == marks && p.root.Computed? && p.lookups == lookups && p.modelSize == modelSize
            && p.pointerSize == pointerSize && p.totalKeys == totalKeys && p.costOf == costOf
  {
  }

  // ----- The split -----

  // One data node is best, and the leaf is resized instead; or the leaf is split.
  datatype Outcome = Kept | Split(current: AlexModelNode, nodes: seq<AlexDataNode>)

  lemma ChosenCuts(leaf: AlexDataNode, used: seq<FTNode>, f: nat, lo: real, hi: real)
    requires leaf.Valid() && forall n :: n in used ==> Chosen(leaf.View(), lo, hi, n, f)
    ensures CutsAll(leaf, used, used, f, lo, hi) && CountedAll(leaf, used)
  {
    hide GappedTo, Entries, ViewOf, Fits, CutsAt;
    forall k | 0 <= k < |used|
      ensures Slice(leaf, used[k]) && CutsAt(leaf.View(), lo, hi, used[k], f, used[k].leftBoundary, used[k].rightBoundary)
      ensures Counted(leaf, used[k])
    {
      assert used[k] in used && Chosen(leaf.View(), lo, hi, used[k], f);
    }
  }

  // New ids that no child has.
  function Ids(next: nat, n: nat): (ids: seq<nat>)
    ensures |ids| == n && LeafSplit.Distinct(ids) && forall k :: 0 <= k < n ==> ids[k] == next + k
  {
    seq(n, k requires 0 <= k => next + k)
  }

  // A full leaf is split as its fanout tree says, with the parent expanded if need be.
  method SplitByFanout(leaf: AlexDataNode, parent: AlexModelNode, bucket: int, totalKeys: nat, maxFanout: nat, costOf: (int, int) -> real,
                       lookups: real, modelSize: real, pointerSize: real, models: int -> (int -> int), next: nat,
                       grand: AlexModelNode, place: int, ghost g: nat, ghost gg: nat, ghost store: map<nat, map<int, int>>)
    returns (r: Outcome, kids: seq<Child>, ghost contents: seq<map<int, int>>, ghost f: nat, ghost used: seq<FTNode>, ghost last: nat)
    requires leaf.Valid() && leaf.numKeys > 0 && parent.Valid(g) && 0 <= bucket < parent.children.Length
    requires lookups >= 0.0 && modelSize >= 0.0 && pointerSize >= 0.0
    requires forall j :: 0 <= j < parent.children.Length ==> parent.children[j].id in store && parent.children[j].id < next
    requires store[parent.children[bucket].id] == leaf.Contents()
    requires grand.Valid(gg) && 0 <= place < grand.children.Length && grand.children != parent.children
    modifies parent.children, grand.children
    ensures parent.children.Length == old(parent.children.Length) && grand.Valid(gg)
    ensures !r.Split? ==> parent.children[..] == old(parent.children[..]) && grand.children[..] == old(grand.children[..])
    ensures var leafOf := old(parent.children[bucket]);
            BestFor(leaf, leafOf.lo, leafOf.hi, totalKeys, maxFanout, costOf, lookups, modelSize, pointerSize, f, used, last)
    ensures r.Kept? <==> f == 0
    ensures r.Split? ==>
              && (forall k :: 0 <= k < |r.nodes| ==> fresh(r.nodes[k])) && (r.current == parent || fresh(r.current))
              && |r.nodes| == |kids| == |contents| && (forall k :: 0 <= k < |r.nodes| ==> NewNode(r.nodes[k], contents[k]) && r.nodes[k].model == models(k))
              && (exists g' :: r.current.Valid(g') && Restructured(old(parent.AsDir(g)), used, kids, r.current.AsDir(g')))
              && SplitsInto(old(TableOf(parent)), TableOf(r.current), old(parent.children[bucket]), kids, old(leaf.Contents()), contents)
              && forall key: int ::
                   SameLookup(old(TableOf(parent)), TableOf(r.current), store, Stored(store, Ids(next, |kids|), contents), key)
  {
    hide Blocks, Bucket, Spans, BlockStart, GappedTo, Entries, ToMap, ViewOf, Fits, TilesFrom, KeysTile, SurvivesIn, Input.LooksUpTo, Input.Cheapest, Input.Keys,
      InputOf, Bits, Chosen, CutsAll, CountedAll, BestFor, SplitsInto, SameLookup, Stored, NewNode, Replaced, Restructured;
    kids, contents := [], [];
    var leafOf := parent.children[bucket];
    ChildRange(parent.children[..], g, bucket, parent.a, parent.b);
    var level, nodesUsed;
    level, nodesUsed, last := FindBestFanoutExistingNode(leaf, leafOf.lo, leafOf.hi, totalKeys, maxFanout, costOf, lookups, modelSize, pointerSize);
    f, used := level, nodesUsed;
    if level == 0 {
      r := Kept;
      return;
    }
    ChosenCuts(leaf, nodesUsed, level, leafOf.lo, leafOf.hi);
    var current, nodes;
    current, nodes, kids, contents :=
      SplitLeaf(leaf, parent, bucket, nodesUsed, level, Ids(next, |nodesUsed|), models, grand, place, next + |nodesUsed|, g, gg, store);
    SplitSizes(old(TableOf(parent)), TableOf(current), old(parent.children[bucket]), kids, old(leaf.Contents()), contents);
    r := Split(current, nodes);
  }

  // The same, downwards: a new model node with the chosen nodes as its children takes the leaf's place.
  method SplitDownByFanout(leaf: AlexDataNode, parent: AlexModelNode, bucket: int, totalKeys: nat, maxFanout: nat, costOf: (int, int) -> real,
                           lookups: real, modelSize: real, pointerSize: real, models: int -> (int -> int), next: nat, ghost g: nat)
    returns (r: Outcome, ghost kids: seq<Child>, ghost contents: seq<map<int, int>>, ghost f: nat, ghost used: seq<FTNode>, ghost last: nat)
    requires leaf.Valid() && leaf.numKeys > 0 && parent.Valid(g) && 0 <= bucket < parent.children.Length && parent.children[bucket].id < next
    requires lookups >= 0.0 && modelSize >= 0.0 && pointerSize >= 0.0
    modifies parent.children
    ensures parent.Valid(g)
    ensures if r.Split? then LeafSplit.Replaced(old(parent.children[..]), parent.children[..], bucket, next + |r.nodes|)
            else parent.children[..] == old(parent.children[..])
    ensures var leafOf := old(parent.children[bucket]);
            BestFor(leaf, leafOf.lo, leafOf.hi, totalKeys, maxFanout, costOf, lookups, modelSize, pointerSize, f, used, last)
    ensures r.Kept? <==> f == 0
    ensures r.Split? ==>
              && fresh(r.current) && r.current.Valid(f) && BuiltFor(r.current.AsDir(f), used, kids) && |r.nodes| == |contents|
              && (forall k :: 0 <= k < |r.nodes| ==> fresh(r.nodes[k]) && NewNode(r.nodes[k], contents[k]) && r.nodes[k].model == models(k))
              && Divides(TableOf(r.current), kids, old(leaf.Contents()), contents)
  {
    hide Blocks, Bucket, Spans, BlockStart, GappedTo, Entries, ToMap, ViewOf, Fits, TilesFrom, KeysTile, SurvivesIn, Input.LooksUpTo, Input.Cheapest, Input.Keys,
      InputOf, Bits, Chosen, CutsAll, CountedAll, BestFor, NewNode, Divides, LeafSplit.Replaced, BuiltFor;
    kids, contents := [], [];
    var leafOf := parent.children[bucket];
    ChildRange(parent.children[..], g, bucket, parent.a, parent.b);
    var level, nodesUsed;
    level, nodesUsed, last := FindBestFanoutExistingNode(leaf, leafOf.lo, leafOf.hi, totalKeys, maxFanout, costOf, lookups, modelSize, pointerSize);
    f, used := level, nodesUsed;
    if level == 0 {
      r := Kept;
      return;
    }
    ChosenCuts(leaf, nodesUsed, level, leafOf.lo, leafOf.hi);
    assert leaf.Contents() == old(leaf.Contents());
    var node, nodes;
    node, nodes, kids, contents :=
      SplitLeafDownwards(leaf, parent, bucket, nodesUsed, level, Ids(next, |nodesUsed|), next + |nodesUsed|, models, g);
    r := Split(node, nodes);
  }

  lemma SplitSizes(x: Table, y: Table, leafOf: Child, kids: seq<Child>, content: map<int, int>, contents: seq<map<int, int>>)
    requires SplitsInto(x, y, leafOf, kids, content, contents)
    ensures |kids| == |contents|
  {
  }
}
