// The choice of a fanout: which level, merged how.
module FanoutChoice {
  import opened FanoutTree

  // ----- Building the levels -----

  // The first position whose key is not less than x.
  function LowerBound(values: seq<int>, x: real): (r: nat)
    ensures r <= |values| && (r < |values| ==> values[r] as real >= x) && forall i :: 0 <= i < r ==> (values[i] as real) < x
  {
    if values == [] || values[0] as real >= x then 0 else 1 + LowerBound(values[1..], x)
  }

  // The key at which node i of a level starts, by the node's model a * key + b in [0, 1).
  function Cut(a: real, b: real, level: nat, i: int): real
    requires a > 0.0
  {
    (i as real - b * Pow2(level) as real) / (a * Pow2(level) as real)
  }

  // The first position of the keys of node i of a level.
  function Boundary(values: seq<int>, a: real, b: real, level: nat, i: nat): (r: nat)
    requires a > 0.0
    ensures r <= |values|
  {
    if i == 0 then 0 else if i >= Pow2(level) then |values| else LowerBound(values, Cut(a, b, level, i))
  }

  // The same cut on the next level.
  lemma CutHalf(a: real, b: real, level: nat, i: nat)
    requires a > 0.0
    ensures Cut(a, b, level + 1, 2 * i) == Cut(a, b, level, i)
  {
    var p, x := Pow2(level) as real, i as real - b * Pow2(level) as real;
    assert Pow2(level + 1) as real == 2.0 * p && (2 * i) as real == 2.0 * (i as real);
    assert b * (2.0 * p) == 2.0 * (b * p) && a * (2.0 * p) == 2.0 * (a * p);
    assert (2 * i) as real - b * Pow2(level + 1) as real == 2.0 * x;
    assert a * p > 0.0;
    assert (2.0 * x) / (2.0 * (a * p)) == x / (a * p);
  }

  lemma BoundaryHalf(values: seq<int>, a: real, b: real, level: nat, i: nat)
    requires a > 0.0
    ensures Boundary(values, a, b, level + 1, 2 * i) == Boundary(values, a, b, level, i)
  {
    CutHalf(a, b, level, i);
  }

  // So each boundary is one of the finest level.
  lemma {:induction false} BoundaryFinest(values: seq<int>, a: real, b: real, level: nat, i: nat, k: nat)
    requires a > 0.0
    ensures Boundary(values, a, b, level, i) == Boundary(values, a, b, level + k, Shifted(i, k))
    decreases k
  {
    if k > 0 {
      BoundaryHalf(values, a, b, level, i);
      BoundaryFinest(values, a, b, level + 1, 2 * i, k - 1);
    }
  }

  lemma CutGrows(a: real, b: real, level: nat, i: int)
    requires a > 0.0
    ensures Cut(a, b, level, i) <= Cut(a, b, level, i + 1)
  {
    var d := a * Pow2(level) as real;
    assert d > 0.0;
    var x := i as real - b * Pow2(level) as real;
    assert (i + 1) as real - b * Pow2(level) as real == x + 1.0;
    assert (x + 1.0) / d - x / d == 1.0 / d;
  }

  lemma LowerBoundGrows(values: seq<int>, x: real, y: real)
    requires x <= y
    ensures LowerBound(values, x) <= LowerBound(values, y)
  {
    var r, q := LowerBound(values, x), LowerBound(values, y);
    assert forall i :: 0 <= i < r ==> (values[i] as real) < y;
  }

  lemma BoundaryGrows(values: seq<int>, a: real, b: real, level: nat, i: nat)
    requires a > 0.0
    ensures Boundary(values, a, b, level, i) <= Boundary(values, a, b, level, i + 1)
  {
    CutGrows(a, b, level, i);
    LowerBoundGrows(values, Cut(a, b, level, i), Cut(a, b, level, i + 1));
  }

  // The nodes of a level divide the positions at its boundaries.
  ghost predicate Bounded(level: seq<FTNode>, l: nat, values: seq<int>, marks: seq<bool>, a: real, b: real)
    requires a > 0.0 && |marks| == |values|
  {
    LevelShape(level, l) &&
    forall i :: 0 <= i < |level| ==> NodeBounds(level[i], values, marks, a, b)
  }

  ghost predicate NodeBounds(n: FTNode, values: seq<int>, marks: seq<bool>, a: real, b: real)
    requires a > 0.0 && |marks| == |values|
  {
    && n.leftBoundary == Boundary(values, a, b, n.level, n.nodeId)
    && n.rightBoundary == Boundary(values, a, b, n.level, n.nodeId + 1)
    && n.leftBoundary <= n.rightBoundary <= |marks| && n.numKeys == Marked(marks, n.leftBoundary, n.rightBoundary)
  }

  // How many positions from l to r are marked.
  function Marked(marks: seq<bool>, l: nat, r: nat): nat
    requires l <= r <= |marks|
    decreases r - l
  {
    if l == r then 0 else (if marks[l] then 1 else 0) + Marked(marks, l + 1, r)
  }

  lemma {:induction false} MarkedSum(marks: seq<bool>, l: nat, m: nat, r: nat)
    requires l <= m <= r <= |marks|
    ensures Marked(marks, l, r) == Marked(marks, l, m) + Marked(marks, m, r)
    decreases m - l
  {
    if l < m {
      MarkedSum(marks, l + 1, m, r);
    }
  }

  lemma {:induction false} AllMarked(marks: seq<bool>, l: nat, r: nat)
    requires l <= r <= |marks| && forall i :: 0 <= i < |marks| ==> marks[i]
    ensures Marked(marks, l, r) == r - l
    decreases r - l
  {
    if l < r {
      AllMarked(marks, l + 1, r);
    }
  }

  function MarkUsed(level: seq<FTNode>): (r: seq<FTNode>)
    ensures |r| == |level|
  {
    seq(|level|, i requires 0 <= i < |level| => level[i].(use := true))
  }

  function Truncated(x: real): int { if x >= 0.0 then x.Floor else -((-x).Floor) }

  // Node i of a level: its keys are those between two boundaries.
  function NodeAt(values: seq<int>, marks: seq<bool>, a: real, b: real, costOf: (int, int) -> real, level: nat, i: nat): (n: FTNode)
    requires a > 0.0 && |marks| == |values|
    ensures n.level == level && n.nodeId == i && !n.use && NodeBounds(n, values, marks, a, b)
  {
    var left, right := Boundary(values, a, b, level, i), Boundary(values, a, b, level, i + 1);
    BoundaryGrows(values, a, b, level, i);
    FTNode(level, i, if left == right then 0.0 else costOf(left, right), left, right, false, Marked(marks, left, right))
  }

  function LevelAt(values: seq<int>, marks: seq<bool>, a: real, b: real, costOf: (int, int) -> real, level: nat): (nodes: seq<FTNode>)
    requires a > 0.0 && |marks| == |values|
    ensures |nodes| == Pow2(level) && forall i :: 0 <= i < |nodes| ==> nodes[i] == NodeAt(values, marks, a, b, costOf, level, i)
  {
    seq(Pow2(level), i requires 0 <= i => NodeAt(values, marks, a, b, costOf, level, i))
  }

  // The one data node that level 0 stands for: its cost is known before, or it is computed like that of
  // any other node.
  datatype Root = Known(nodeCost: real) | Computed

  // What the choice of a fanout is given: the keys at their positions, with marks at those that count (of
  // the slots of a data node, the ones that are no gaps), the model that cuts their range, the expected
  // cost of a data node with the keys between two positions, and the weights of a traversal step, of a
  // data node and of a pointer.
  datatype Input = Input(values: seq<int>, marks: seq<bool>, root: Root, a: real, b: real, totalKeys: nat, costOf: (int, int) -> real,
                         lookups: real, modelSize: real, pointerSize: real)
  {
    ghost predicate Ok() { Fits() && lookups >= 0.0 && modelSize >= 0.0 && pointerSize >= 0.0 }

    ghost predicate Fits() { a > 0.0 && |marks| == |values| && Keys() > 0 }

    function Keys(): nat { Marked(marks, 0, |marks|) }

    function Model(): real { Weight(modelSize, totalKeys) }

    // The share of a data node's size, per key.
    function PerNode(): real
      requires Fits()
    {
      Model() / Keys() as real
    }

    // The part of the cost that no merging changes: the traversal, and the pointers.
    function Fixed(l: nat): real
      requires Fits()
    {
      lookups + Pow2(l) as real * (pointerSize * totalKeys as real / Keys() as real)
    }

    // Level 0 is the one data node.
    function Level(l: nat): (nodes: seq<FTNode>)
      requires Fits()
      ensures |nodes| == Pow2(l)
    {
      if l == 0 && root.Known? then [FTNode(0, 0, root.nodeCost + lookups, 0, |values|, false, Keys())]
      else LevelAt(values, marks, a, b, costOf, l)
    }

    function Tree(n: nat): (t: Levels)
      requires Fits()
      ensures |t| == n && forall l :: 0 <= l < n ==> t[l] == Level(l)
    {
      seq(n, l requires 0 <= l => Level(l))
    }

    // The cost of using all of a level.
    function Total(l: nat): real
      requires Fits()
    {
      if l == 0 && root.Known? then root.nodeCost + lookups else LevelCost(MarkUsed(Level(l)), Keys() as real, PerNode()) + Fixed(l)
    }

    // The cost has risen twice in a row.
    predicate RisenTwice(l: nat)
      requires Fits()
    {
      l >= 2 && Total(l) > Total(l - 1) > Total(l - 2)
    }

    // The levels looked at are those up to `last`: the next is too wide, or the second in a row to cost more.
    ghost predicate LooksUpTo(last: nat, maxFanout: int)
      requires Fits()
    {
      && (last > 0 ==> Pow2(last) <= maxFanout) && (forall l: nat :: l <= last ==> !RisenTwice(l))
      && (Pow2(last + 1) > maxFanout || RisenTwice(last + 1))
    }

    // The first of the cheapest of the levels up to `last`.
    ghost predicate Cheapest(best: nat, last: nat)
      requires Fits()
    {
      best <= last && forall l: nat :: l <= last ==> Total(best) <= Total(l) && (l < best ==> Total(best) < Total(l))
    }
  }

  // The traversal to a child, and what the nodes and the pointers to them cost in size.
  function TraversalCost(p: Input, fanout: nat): real
    requires p.Fits()
  {
    p.lookups + fanout as real * (p.modelSize + p.pointerSize) * p.totalKeys as real / p.Keys() as real
  }

  // One complete level of the fanout tree, and the cost of using all of it.
  method ComputeLevel(p: Input, level: nat) returns (nodes: seq<FTNode>, cost: real)
    requires p.Ok()
    ensures nodes == LevelAt(p.values, p.marks, p.a, p.b, p.costOf, level)
    ensures cost == LevelCost(MarkUsed(nodes), p.Keys() as real, p.PerNode()) + p.Fixed(level)
  {
    hide LevelCost, Pow2, LowerBound, Cut, Boundary, MarkUsed, Share, NodeBounds, NodeAt, Input.PerNode, Input.Fixed, Marked, TraversalCost;
    var values, marks, a, b := p.values, p.marks, p.a, p.b;
    var numKeys := p.Keys() as real;
    var fanout := Pow2(level);
    nodes, cost := [], 0.0;
    var left, right := 0, 0;
    var i := 0;
    ghost var perNode := p.PerNode();
    ghost var spread := 0.0;
    NoCost(numKeys, perNode);
    FirstBoundary(values, a, b, level);
    while i < fanout
      invariant 0 <= i <= fanout && |nodes| == i && right == Boundary(values, a, b, level, i)
      invariant forall j :: 0 <= j < i ==> nodes[j] == NodeAt(values, marks, a, b, p.costOf, level, j)
      invariant cost + spread == LevelCost(MarkUsed(nodes), numKeys, perNode) && spread == i as real * perNode
    {
      left := right;
      BoundaryGrows(values, a, b, level, i);
      right := NextBoundary(values, a, b, level, i);
      var nodeCost := if left == right then 0.0 else p.costOf(left, right);
      var keys := Marked(marks, left, right);
      var n := FTNode(level, i, nodeCost, left, right, false, keys);
      if left != right {
        cost := cost + Share(nodeCost, keys, numKeys);
      }
      NodeIs(values, marks, a, b, p.costOf, level, i, n);
      AddNode(nodes, n, numKeys, perNode);
      OneMore(i, perNode);
      nodes := nodes + [n];
      spread := spread + perNode;
      i := i + 1;
    }
    assert i == fanout;
    cost := cost + TraversalCost(p, fanout);
    TraversalIs(p, level);
  }

  lemma NodeIs(values: seq<int>, marks: seq<bool>, a: real, b: real, costOf: (int, int) -> real, level: nat, i: nat, n: FTNode)
    requires a > 0.0 && |marks| == |values| && n.level == level && n.nodeId == i && !n.use
    requires 0 <= n.leftBoundary <= n.rightBoundary <= |marks| && n.numKeys == Marked(marks, n.leftBoundary, n.rightBoundary)
    requires n.leftBoundary == Boundary(values, a, b, level, i) && n.rightBoundary == Boundary(values, a, b, level, i + 1)
    requires n.cost == if n.leftBoundary == n.rightBoundary then 0.0 else costOf(n.leftBoundary, n.rightBoundary)
    ensures n == NodeAt(values, marks, a, b, costOf, level, i)
  {
  }

  lemma OneMore(i: nat, x: real)
    ensures (i + 1) as real * x == i as real * x + x
  {
  }

  lemma Traversal(f: real, m: real, p: real, t: real, n: real)
    requires n > 0.0
    ensures f * (m + p) * t / n == f * (m * t / n) + f * (p * t / n)
  {
    assert f * (m + p) * t == f * (m * t) + f * (p * t);
    assert f * (m * t) / n == f * (m * t / n) && f * (p * t) / n == f * (p * t / n);
  }

  lemma TraversalIs(p: Input, l: nat)
    requires p.Ok()
    ensures TraversalCost(p, Pow2(l)) == Pow2(l) as real * p.PerNode() + p.Fixed(l)
  {
    hide Pow2;
    Traversal(Pow2(l) as real, p.modelSize, p.pointerSize, p.totalKeys as real, p.Keys() as real);
  }

  lemma NoCost(numKeys: real, perNode: real)
    requires numKeys > 0.0
    ensures LevelCost(MarkUsed([]), numKeys, perNode) == 0.0
  {
  }

  lemma AddNode(nodes: seq<FTNode>, n: FTNode, numKeys: real, perNode: real)
    requires numKeys > 0.0
    ensures LevelCost(MarkUsed(nodes + [n]), numKeys, perNode) ==
            LevelCost(MarkUsed(nodes), numKeys, perNode) + Share(n.cost, n.numKeys, numKeys) + perNode
    ensures n.cost == 0.0 ==> Share(n.cost, n.numKeys, numKeys) == 0.0
  {
    assert MarkUsed(nodes + [n]) == MarkUsed(nodes) + [n.(use := true)];
    LevelCostSnoc(MarkUsed(nodes), n.(use := true), numKeys, perNode);
  }

  lemma BoundaryIs(values: seq<int>, a: real, b: real, level: nat, i: nat)
    requires a > 0.0 && i < Pow2(level)
    ensures Boundary(values, a, b, level, i + 1) ==
            if i == Pow2(level) - 1 then |values| else LowerBound(values, Cut(a, b, level, i + 1))
  {
    hide LowerBound, Cut, Pow2;
  }

  lemma Above(d: real, e: real, v: real, k: int)
    requires d > 0.0 && v >= (k as real - e) / d
    ensures d * v + e >= k as real
  {
    var q := (k as real - e) / d;
    assert q * d == k as real - e;
    assert (v - q) * d >= 0.0;
  }

  lemma TruncatedAbove(x: real, k: nat)
    requires x >= k as real
    ensures Truncated(x) >= k
  {
  }

  // Where a scaled model puts a key.
  function Placed(d: real, e: real, key: real): int { Truncated(d * key + e) }

  // In exact arithmetic the lower bound of the next cut needs no correction: the keys from there on
  // belong to later nodes.
  lemma NotBelow(values: seq<int>, a: real, b: real, level: nat, i: nat, d: real, e: real)
    requires a > 0.0 && i < Pow2(level) && Boundary(values, a, b, level, i + 1) < |values|
    requires d == a * Pow2(level) as real && e == b * Pow2(level) as real
    ensures Placed(d, e, values[Boundary(values, a, b, level, i + 1)] as real) > i
  {
    hide Placed, Pow2, LowerBound;
    BoundaryIs(values, a, b, level, i);
    assert d > 0.0;
    PlacedAbove(d, e, values[Boundary(values, a, b, level, i + 1)] as real, i + 1);
  }

  lemma PlacedAbove(d: real, e: real, v: real, k: nat)
    requires d > 0.0 && v >= (k as real - e) / d
    ensures Placed(d, e, v) >= k
  {
    hide Truncated;
    Above(d, e, v, k);
    TruncatedAbove(d * v + e, k);
  }

  // The end of node i of a level: the lower bound of the next cut.
  method NextBoundary(values: seq<int>, a: real, b: real, level: nat, i: nat) returns (right: nat)
    requires a > 0.0 && i < Pow2(level)
    ensures right == Boundary(values, a, b, level, i + 1)
  {
    hide LowerBound, Boundary, Pow2;
    var a', b' := a * Pow2(level) as real, b * Pow2(level) as real;
    BoundaryIs(values, a, b, level, i);
    right := if i == Pow2(level) - 1 then |values| else LowerBound(values, ((i + 1) as real - b') / a');
  }

  lemma FirstBoundary(values: seq<int>, a: real, b: real, level: nat)
    requires a > 0.0
    ensures Boundary(values, a, b, level, 0) == 0
  {
  }

  // ----- Main results -----

  function SumRepeats(used: seq<FTNode>, max: nat): nat
    requires forall n :: n in used ==> n.level <= max
  {
    if used == [] then 0 else Repeats(used[0], max) + SumRepeats(used[1..], max)
  }

  // The repeats of the used nodes add up to the fanout, and each starts at a multiple of its repeats.
  lemma {:induction false} RepeatsFill(used: seq<FTNode>, max: nat, c: nat)
    requires TilesFrom(used, max, c)
    ensures forall n :: n in used ==> n.level <= max
    ensures c + SumRepeats(used, max) == Pow2(max)
    ensures forall n :: n in used ==> Start(n, max) == n.nodeId * Repeats(n, max)
    decreases |used|
  {
    if used != [] {
      RepeatsFill(used[1..], max, c + Repeats(used[0], max));
      ShiftedIs(used[0].nodeId, max - used[0].level);
    }
  }

  // Side by side in the input array from lo to hi.
  ghost predicate KeysTile(used: seq<FTNode>, lo: int, hi: int)
    decreases |used|
  {
    if used == [] then lo == hi
    else used[0].leftBoundary == lo <= used[0].rightBoundary && KeysTile(used[1..], used[0].rightBoundary, hi)
  }

  lemma {:induction false} TilesKeys(used: seq<FTNode>, max: nat, c: nat, values: seq<int>, marks: seq<bool>, a: real, b: real)
    requires a > 0.0 && |marks| == |values| && TilesFrom(used, max, c) && forall n :: n in used ==> NodeBounds(n, values, marks, a, b)
    ensures KeysTile(used, Boundary(values, a, b, max, c), |values|)
    decreases |used|
  {
    hide Boundary;
    if used == [] {
      LastBoundary(values, a, b, max);
    } else {
      var n := used[0];
      var k := max - n.level;
      assert NodeBounds(n, values, marks, a, b);
      BoundaryFinest(values, a, b, n.level, n.nodeId, k);
      BoundaryFinest(values, a, b, n.level, n.nodeId + 1, k);
      ShiftedIs(n.nodeId, k);
      ShiftedIs(n.nodeId + 1, k);
      NextStart(n.nodeId, Pow2(k));
      BoundaryGrows(values, a, b, n.level, n.nodeId);
      TilesKeys(used[1..], max, c + Repeats(n, max), values, marks, a, b);
    }
  }

  lemma NextStart(id: nat, p: nat)
    ensures (id + 1) * p == id * p + p
  {
  }

  lemma LastBoundary(values: seq<int>, a: real, b: real, level: nat)
    requires a > 0.0
    ensures Boundary(values, a, b, level, Pow2(level)) == |values|
  {
  }

  ghost predicate AllBounded(t: Levels, values: seq<int>, marks: seq<bool>, a: real, b: real)
    requires a > 0.0 && |marks| == |values|
  {
    forall l :: 0 <= l < |t| ==> Bounded(t[l], l, values, marks, a, b)
  }

  ghost predicate NoneUsed(level: seq<FTNode>) { forall i :: 0 <= i < |level| ==> !level[i].use }

  lemma BoundedAdditive(t: Levels, values: seq<int>, marks: seq<bool>, a: real, b: real)
    requires a > 0.0 && |marks| == |values| && AllBounded(t, values, marks, a, b)
    ensures Shape(t) && Additive(t)
  {
    hide Boundary, Bounded, Pow2;
    forall l | 0 <= l < |t| ensures LevelShape(t[l], l) {
      BoundedShape(t[l], l, values, marks, a, b);
    }
    forall l, i | 0 <= l < |t| - 1 && 0 <= i < |t[l]| ensures SumsUp(t, l, i) {
      BoundedSum(t[l], t[l + 1], l, i, values, marks, a, b);
    }
  }

  lemma BoundedShape(level: seq<FTNode>, l: nat, values: seq<int>, marks: seq<bool>, a: real, b: real)
    requires a > 0.0 && |marks| == |values| && Bounded(level, l, values, marks, a, b)
    ensures LevelShape(level, l)
  {
  }

  lemma BoundedSum(x: seq<FTNode>, y: seq<FTNode>, l: nat, i: nat, values: seq<int>, marks: seq<bool>, a: real, b: real)
    requires a > 0.0 && |marks| == |values| && Bounded(x, l, values, marks, a, b) && Bounded(y, l + 1, values, marks, a, b) && i < |x|
    ensures 2 * i + 1 < |y| && x[i].numKeys == y[2 * i].numKeys + y[2 * i + 1].numKeys
  {
    hide Boundary;
    assert NodeBounds(x[i], values, marks, a, b) && NodeBounds(y[2 * i], values, marks, a, b) && NodeBounds(y[2 * i + 1], values, marks, a, b);
    BoundaryHalf(values, a, b, l, i);
    BoundaryHalf(values, a, b, l, i + 1);
    MarkedSum(marks, x[i].leftBoundary, y[2 * i].rightBoundary, x[i].rightBoundary);
  }

  lemma LevelMarked(t: Levels, max: nat)
    requires max < |t| && Shape(t) && (forall l :: 0 <= l < |t| ==> NoneUsed(t[l]))
    ensures var u := t[max := MarkUsed(t[max])]; Shape(u) && OneLevel(u, max) && SameNodes(t, u)
  {
    var u := t[max := MarkUsed(t[max])];
    forall l | 0 <= l < |u| ensures LevelShape(u[l], l) && SameLevel(t[l], u[l]) {
      assert LevelShape(t[l], l);
    }
    forall l, i | 0 <= l < |u| && 0 <= i < |u[l]| ensures u[l][i].use == (l == max) {
      assert NoneUsed(t[l]);
    }
  }

  lemma {:induction false} NoneUsedCost(level: seq<FTNode>, numKeys: real, perNode: real)
    requires numKeys > 0.0 && NoneUsed(level)
    ensures LevelCost(level, numKeys, perNode) == 0.0
  {
    if level != [] {
      assert NoneUsed(level[1..]);
      NoneUsedCost(level[1..], numKeys, perNode);
    }
  }

  lemma {:induction false} RestUnused(t: Levels, numKeys: real, perNode: real)
    requires numKeys > 0.0 && forall l :: 0 <= l < |t| ==> NoneUsed(t[l])
    ensures UsedCost(t, numKeys, perNode) == 0.0
  {
    if t != [] {
      NoneUsedCost(t[0], numKeys, perNode);
      RestUnused(t[1..], numKeys, perNode);
    }
  }

  lemma {:induction false} UsedCostConcat(t: Levels, u: Levels, numKeys: real, perNode: real)
    requires numKeys > 0.0
    ensures UsedCost(t + u, numKeys, perNode) == UsedCost(t, numKeys, perNode) + UsedCost(u, numKeys, perNode)
  {
    if t == [] {
      assert t + u == u;
    } else {
      assert (t + u)[1..] == t[1..] + u;
      UsedCostConcat(t[1..], u, numKeys, perNode);
    }
  }

  // Levels below the finest one do not count.
  lemma UpToMax(t: Levels, max: nat, numKeys: real, perNode: real)
    requires numKeys > 0.0 && max < |t| && Partition(t, max)
    ensures UsedCost(t[..max + 1], numKeys, perNode) == UsedCost(t, numKeys, perNode)
  {
    var rest := t[max + 1..];
    forall l | 0 <= l < |rest| ensures NoneUsed(rest[l]) {
      assert rest[l] == t[max + 1 + l];
    }
    RestUnused(rest, numKeys, perNode);
    UsedCostConcat(t[..max + 1], rest, numKeys, perNode);
    assert t == t[..max + 1] + rest;
  }

  lemma OneLevelCost(t: Levels, max: nat, numKeys: real, perNode: real)
    requires numKeys > 0.0 && max < |t| && (forall l :: 0 <= l < |t| ==> NoneUsed(t[l]))
    ensures UsedCost(t[max := MarkUsed(t[max])], numKeys, perNode) == LevelCost(MarkUsed(t[max]), numKeys, perNode)
  {
    RestUnused(t, numKeys, perNode);
    NoneUsedCost(t[max], numKeys, perNode);
    TreeUpdate(t, max, MarkUsed(t[max]), numKeys, perNode);
  }

  lemma UsedBounds(t: Levels, u: Levels, max: nat, values: seq<int>, marks: seq<bool>, a: real, b: real, n: FTNode)
    requires a > 0.0 && |marks| == |values| && AllBounded(t, values, marks, a, b) && SameNodes(t, u) && max < |u| && IsUsed(u, max, n)
    ensures NodeBounds(n, values, marks, a, b)
  {
    hide Boundary;
    assert Bounded(t[n.level], n.level, values, marks, a, b) && SameLevel(t[n.level], u[n.level]);
    assert NodeBounds(t[n.level][n.nodeId], values, marks, a, b);
  }

  lemma TreeShape(p: Input, n: nat)
    requires p.Fits()
    ensures AllBounded(p.Tree(n), p.values, p.marks, p.a, p.b) && Shape(p.Tree(n)) && Additive(p.Tree(n))
    ensures forall l :: 0 <= l < n ==> NoneUsed(p.Tree(n)[l])
  {
    hide Boundary, Pow2, NodeBounds;
    var t := p.Tree(n);
    forall l | 0 <= l < n ensures Bounded(t[l], l, p.values, p.marks, p.a, p.b) && NoneUsed(t[l]) {
      if l == 0 && p.root.Known? {
        RootBounded(t[0][0], p.values, p.marks, p.a, p.b);
      }
    }
    BoundedAdditive(t, p.values, p.marks, p.a, p.b);
  }

  lemma PowNext(l: nat)
    ensures Pow2(l + 1) == 2 * Pow2(l)
  {
  }

  lemma TreeMore(p: Input, n: nat)
    requires p.Fits()
    ensures p.Tree(n + 1) == p.Tree(n) + [p.Level(n)]
  {
  }

  // Grows the tree level by level until the cost has risen twice in a row.
  method GrowLevels(p: Input, maxFanout: nat) returns (bestLevel: nat, bestCost: real, tree: Levels)
    requires p.Ok()
    ensures |tree| > 0 && tree == p.Tree(|tree|) && p.LooksUpTo(|tree| - 1, maxFanout)
    ensures p.Cheapest(bestLevel, |tree| - 1) && bestCost == p.Total(bestLevel) && bestLevel < |tree|
  {
    hide LevelCost, Boundary, Pow2, MarkUsed, NodeAt, LevelAt, NodeBounds, Input.Total, Input.Cheapest, Input.LooksUpTo,
      Input.Tree, Input.Level;
    bestLevel := 0;
    var fanout, level := 2, 1;
    if p.root.Known? {
      bestCost := p.root.nodeCost + p.lookups;
      tree := [[FTNode(0, 0, bestCost, 0, |p.values|, false, p.Keys())]];
    } else {
      var nodes;
      nodes, bestCost := ComputeLevel(p, 0);
      LevelIs(p, 0, nodes, bestCost);
      tree := [nodes];
    }
    var fanoutCosts := [bestCost];
    FirstLevel(p);
    while fanout <= maxFanout
      invariant bestLevel < level && fanout == Pow2(level) && tree == p.Tree(level) && |tree| == |fanoutCosts| == level
      invariant forall l: nat :: l < level ==> fanoutCosts[l] == p.Total(l) && !p.RisenTwice(l)
      invariant (level > 1 ==> Pow2(level - 1) <= maxFanout) && p.Cheapest(bestLevel, level - 1) && bestCost == p.Total(bestLevel)
      decreases maxFanout - fanout
    {
      var newLevel, cost := ComputeLevel(p, level);
      LevelIs(p, level, newLevel, cost);
      fanoutCosts := fanoutCosts + [cost];
      var k := |fanoutCosts|;
      assert fanoutCosts[k - 1] == p.Total(level) && fanoutCosts[k - 2] == p.Total(level - 1);
      assert k >= 3 ==> fanoutCosts[k - 3] == p.Total(level - 2);
      PowNext(level);
      if k >= 3 && fanoutCosts[k - 1] > fanoutCosts[k - 2] && fanoutCosts[k - 2] > fanoutCosts[k - 3] {
        break;
      }
      CheaperLevel(p, bestLevel, level);
      if cost < bestCost {
        bestCost, bestLevel := cost, level;
      }
      TreeMore(p, level);
      tree := tree + [newLevel];
      fanout, level := fanout * 2, level + 1;
    }
    LooksUpToHere(p, level, maxFanout);
  }

  lemma LevelIs(p: Input, l: nat, nodes: seq<FTNode>, cost: real)
    requires p.Ok() && (l > 0 || p.root.Computed?) && nodes == LevelAt(p.values, p.marks, p.a, p.b, p.costOf, l)
    requires cost == LevelCost(MarkUsed(nodes), p.Keys() as real, p.PerNode()) + p.Fixed(l)
    ensures nodes == p.Level(l) && cost == p.Total(l)
  {
  }

  lemma CheaperLevel(p: Input, best: nat, l: nat)
    requires p.Ok() && l > 0 && p.Cheapest(best, l - 1)
    ensures p.Cheapest(if p.Total(l) < p.Total(best) then l else best, l)
  {
    hide Input.Total;
  }

  lemma LooksUpToHere(p: Input, level: nat, maxFanout: int)
    requires p.Ok() && level > 0 && (forall l: nat :: l < level ==> !p.RisenTwice(l)) && (level > 1 ==> Pow2(level - 1) <= maxFanout)
    requires Pow2(level) > maxFanout || p.RisenTwice(level)
    ensures p.LooksUpTo(level - 1, maxFanout)
  {
  }

  // Two siblings cost less than their parent would, with what one more data node costs.
  ghost predicate CheaperApart(p: Input, m: FTNode, n: FTNode)
    requires p.Fits()
  {
    m.level > 0 && m.nodeId / 2 < Pow2(m.level - 1) &&
    var parent, keys := p.Level(m.level - 1)[m.nodeId / 2], p.Keys() as real;
    Share(m.cost, m.numKeys, keys) + Share(n.cost, n.numKeys, keys) + p.PerNode() < Share(parent.cost, parent.numKeys, keys)
  }

  // No two of the nodes are siblings that their parent could replace without raising the cost.
  ghost predicate Irreducible(p: Input, used: seq<FTNode>)
    requires p.Fits()
  {
    forall m, n | m in used && n in used && AreSiblings(m, n) :: CheaperApart(p, m, n)
  }

  ghost predicate AreSiblings(m: FTNode, n: FTNode) { m.level == n.level > 0 && m.nodeId % 2 == 0 && n.nodeId == m.nodeId + 1 }

  lemma SurvivorsApart(p: Input, best: nat, m: FTNode, n: FTNode)
    requires p.Ok() && SurvivesIn(p, best, m) && SurvivesIn(p, best, n) && AreSiblings(m, n)
    ensures CheaperApart(p, m, n)
  {
    hide Survives, Pow2, Share, NodeAt, LevelAt, Saving, Shape, Additive, Input.Level;
    TreeShape(p, best + 1);
    var t, l, i := p.Tree(best + 1), m.level, m.nodeId / 2;
    NotAbsorbed(t, p.Model(), best, l, i);
    SiblingsExist(t, l, i);
    var parent := t[l - 1][i];
    SameSaving(t[l][2 * i], t[l][2 * i + 1], parent, m, n, parent, p.Model());
    SavingIs(m, n, parent, p.Model(), p.Keys() as real);
    UsedNodeCost(m, p.Keys() as real, p.PerNode());
    UsedNodeCost(n, p.Keys() as real, p.PerNode());
    UsedNodeCost(parent.(use := true), p.Keys() as real, p.PerNode());
  }

  lemma UsedNodeCost(n: FTNode, numKeys: real, perNode: real)
    requires numKeys > 0.0 && n.use
    ensures NodeCost(n, numKeys, perNode) == Share(n.cost, n.numKeys, numKeys) + perNode
  {
  }

  lemma AllApart(p: Input, best: nat, used: seq<FTNode>)
    requires p.Ok() && forall n :: n in used ==> SurvivesIn(p, best, n)
    ensures Irreducible(p, used)
  {
    hide SurvivesIn, CheaperApart;
    forall m, n | m in used && n in used && AreSiblings(m, n) ensures CheaperApart(p, m, n) {
      SurvivorsApart(p, best, m, n);
    }
  }

  // Uses all of a level, and merges upwards.
  method UseBest(p: Input, tree: Levels, bestLevel: nat, bestCost: real) returns (best: real, used: seq<FTNode>)
    requires p.Ok() && tree == p.Tree(|tree|) && bestLevel < |tree|
    ensures TilesFrom(used, bestLevel, 0) && KeysTile(used, 0, |p.values|) && best <= bestCost && (bestLevel == 0 ==> best == bestCost)
    ensures forall n :: n in used <==> SurvivesIn(p, bestLevel, n)
    ensures best == bestCost - LevelCost(MarkUsed(tree[bestLevel]), p.Keys() as real, p.PerNode()) + LevelCost(used, p.Keys() as real, p.PerNode())
  {
    hide LevelCost, UsedCost, Boundary, Bounded, Pow2, MarkUsed, Shape, Additive, Partition, TilesFrom, KeysTile, SameNodes,
      NodeAt, LevelAt, NodeBounds, UseFinal, SurvivesIn, OneLevel, Weight;
    var n := p.Keys();
    TreeShape(p, |tree|);
    LevelMarked(tree, bestLevel);
    OneLevelCost(tree, bestLevel, n as real, p.PerNode());
    var marked := tree[bestLevel := MarkUsed(tree[bestLevel])];
    SameSums(tree, marked);
    var fanoutTree := new FTree(marked);
    ghost var steps;
    best, steps := fanoutTree.MergeNodesUpwards(bestLevel, bestCost, n, p.totalKeys, p.modelSize);
    used := CollectUsedNodes(fanoutTree.levels, bestLevel);
    SameTrans(tree, marked, fanoutTree.levels);
    forall m | m in used ensures NodeBounds(m, p.values, p.marks, p.a, p.b) {
      UsedBounds(tree, fanoutTree.levels, bestLevel, p.values, p.marks, p.a, p.b, m);
    }
    TilesKeys(used, bestLevel, 0, p.values, p.marks, p.a, p.b);
    FirstBoundary(p.values, p.a, p.b, bestLevel);
    UpToMax(fanoutTree.levels, bestLevel, n as real, p.PerNode());
    forall m ensures m in used <==> SurvivesIn(p, bestLevel, m) {
      UsedSurvive(p, |tree|, marked, fanoutTree.levels, bestLevel, m);
    }
  }

  // The cheapest level of the tree, merged upwards. The result is an ordered partition of the keys:
  // the nodes that survive the merging. The cost computed over them is the one returned, and no more
  // than that of any level.
  method ChooseFanout(p: Input, maxFanout: nat) returns (bestLevel: nat, bestCost: real, used: seq<FTNode>, ghost last: nat)
    requires p.Ok()
    ensures TilesFrom(used, bestLevel, 0) && KeysTile(used, 0, |p.values|)
    ensures p.LooksUpTo(last, maxFanout) && p.Cheapest(bestLevel, last) && bestCost <= p.Total(bestLevel) && Irreducible(p, used)
    ensures forall n :: n in used <==> SurvivesIn(p, bestLevel, n)
    ensures bestCost == if bestLevel == 0 then p.Total(0) else LevelCost(used, p.Keys() as real, p.PerNode()) + p.Fixed(bestLevel)
  {
    hide LevelCost, Pow2, MarkUsed, TilesFrom, KeysTile, LevelAt, SurvivesIn, Input.Cheapest, Input.LooksUpTo, Input.Total, Input.Tree,
      Input.PerNode, Input.Fixed, Input.Level, Irreducible;
    var tree;
    bestLevel, bestCost, tree := GrowLevels(p, maxFanout);
    TotalParts(p, bestLevel, |tree|);
    bestCost, used := UseBest(p, tree, bestLevel, bestCost);
    AllApart(p, bestLevel, used);
    last := |tree| - 1;
  }

  // For keys in an array, and a data node whose cost is known.
  method FindBestFanoutBottomUp(values: seq<int>, nodeCost: real, a: real, b: real, totalKeys: nat, maxFanout: nat,
                                costOf: (int, int) -> real, lookups: real, modelSize: real, pointerSize: real)
    returns (bestLevel: nat, bestCost: real, used: seq<FTNode>, ghost last: nat)
    requires a > 0.0 && |values| > 0 && lookups >= 0.0 && modelSize >= 0.0 && pointerSize >= 0.0
    ensures TilesFrom(used, bestLevel, 0) && KeysTile(used, 0, |values|)
    ensures forall n :: n in used ==> n.numKeys == n.rightBoundary - n.leftBoundary
    ensures var p := Input(values, seq(|values|, _ => true), Known(nodeCost), a, b, totalKeys, costOf, lookups, modelSize, pointerSize);
            && p.Ok() && p.LooksUpTo(last, maxFanout) && p.Cheapest(bestLevel, last) && bestCost <= p.Total(bestLevel) && Irreducible(p, used)
            && (forall n :: n in used <==> SurvivesIn(p, bestLevel, n))
            && bestCost == if bestLevel == 0 then nodeCost + lookups else LevelCost(used, |values| as real, p.PerNode()) + p.Fixed(bestLevel)
  {
    hide LevelCost, Pow2, TilesFrom, KeysTile, LevelAt, SurvivesIn, Input.Cheapest, Input.LooksUpTo, Input.PerNode, Input.Fixed, Input.Level,
      NodeBounds, Irreducible;
    var marks := seq(|values|, _ => true);
    AllMarked(marks, 0, |values|);
    var p := Input(values, marks, Known(nodeCost), a, b, totalKeys, costOf, lookups, modelSize, pointerSize);
    bestLevel, bestCost, used, last := ChooseFanout(p, maxFanout);
    forall n | n in used ensures n.numKeys == n.rightBoundary - n.leftBoundary {
      SurvivorBounds(p, bestLevel, n);
      NodeKeys(n, values, marks, a, b);
    }
  }

  lemma NodeKeys(n: FTNode, values: seq<int>, marks: seq<bool>, a: real, b: real)
    requires a > 0.0 && |marks| == |values| && NodeBounds(n, values, marks, a, b) && forall i :: 0 <= i < |marks| ==> marks[i]
    ensures n.numKeys == n.rightBoundary - n.leftBoundary
  {
    AllMarked(marks, n.leftBoundary, n.rightBoundary);
  }

  // A survivor's keys are those of its cells.
  lemma SurvivorBounds(p: Input, best: nat, n: FTNode)
    requires p.Fits() && SurvivesIn(p, best, n)
    ensures NodeBounds(n, p.values, p.marks, p.a, p.b)
  {
    hide Boundary, Pow2, Survives;
    TreeShape(p, best + 1);
    assert Bounded(p.Tree(best + 1)[n.level], n.level, p.values, p.marks, p.a, p.b);
    SameBounds(p.Level(n.level)[n.nodeId], n, p.values, p.marks, p.a, p.b);
  }

  lemma SameBounds(m: FTNode, n: FTNode, values: seq<int>, marks: seq<bool>, a: real, b: real)
    requires a > 0.0 && |marks| == |values| && NodeBounds(m, values, marks, a, b) && n == m.(use := n.use)
    ensures NodeBounds(n, values, marks, a, b)
  {
  }

  lemma TotalParts(p: Input, l: nat, n: nat)
    requires p.Ok() && l < n
    ensures |p.Tree(n)| == n && p.Tree(n)[l] == p.Level(l)
    ensures l > 0 || p.root.Computed? ==> p.Total(l) == LevelCost(MarkUsed(p.Level(l)), p.Keys() as real, p.PerNode()) + p.Fixed(l)
  {
    hide LevelCost, Pow2, MarkUsed, Input.Level;
  }

  lemma FirstLevel(p: Input)
    requires p.Ok()
    ensures p.Tree(1) == [p.Level(0)] && Pow2(1) == 2 && p.Cheapest(0, 0) && !p.RisenTwice(0)
    ensures p.root.Known? ==>
              p.Level(0) == [FTNode(0, 0, p.root.nodeCost + p.lookups, 0, |p.values|, false, p.Keys())] && p.Total(0) == p.root.nodeCost + p.lookups
  {
  }

  // A node of the tree with levels up to `best` that merging upwards from there leaves in use.
  ghost predicate SurvivesIn(p: Input, best: nat, n: FTNode)
    requires p.Fits()
  {
    TreeShape(p, best + 1);
    && n.level <= best && n.nodeId < Pow2(n.level) && n == p.Level(n.level)[n.nodeId].(use := true)
    && Survives(p.Tree(best + 1), p.Model(), best, n.level, n.nodeId)
  }

  // Merging looks at the costs and the numbers of keys of the levels up to `start` only.
  lemma {:induction false} ReachedSame(t: Levels, u: Levels, model: real, start: nat, l: nat, i: nat)
    requires Shape(t) && Shape(u) && start < |t| && start < |u| && forall m :: 0 <= m <= start ==> SameLevel(t[m], u[m])
    ensures Reached(t, model, start, l, i) == Reached(u, model, start, l, i)
    decreases if l < start then start - l else 0
  {
    if l < start && i < Pow2(l) {
      ReachedSame(t, u, model, start, l + 1, 2 * i);
      ReachedSame(t, u, model, start, l + 1, 2 * i + 1);
      ShapeAt(t, l, i);
      assert SameLevel(t[l], u[l]) && SameLevel(t[l + 1], u[l + 1]);
      if t[l][i].numKeys > 0 {
        SameSaving(t[l + 1][2 * i], t[l + 1][2 * i + 1], t[l][i], u[l + 1][2 * i], u[l + 1][2 * i + 1], u[l][i], model);
      }
    }
  }

  lemma UsedSurvive(p: Input, n: nat, marked: Levels, u: Levels, best: nat, m: FTNode)
    requires p.Fits() && best < n == |marked| == |u| && SameNodes(p.Tree(n), marked) && Shape(marked) && SameNodes(marked, u) && Shape(u)
    requires UseFinal(marked, u, p.Model(), best)
    ensures IsUsed(u, best, m) <==> SurvivesIn(p, best, m)
  {
    hide Reached, Boundary, NodeAt, NodeBounds;
    TreeShape(p, best + 1);
    if m.level <= best && m.nodeId < Pow2(m.level) {
      SizeOf(u, m.level);
      assert SameLevel(p.Tree(n)[m.level], marked[m.level]) && SameLevel(marked[m.level], u[m.level]);
      assert FinalAt(marked, u, p.Model(), best, m.level, m.nodeId);
      ReachedSame(p.Tree(best + 1), marked, p.Model(), best, m.level, m.nodeId);
      if m.level > 0 {
        ReachedSame(p.Tree(best + 1), marked, p.Model(), best, m.level - 1, m.nodeId / 2);
      }
    } else if m.level <= best {
      SizeOf(u, m.level);
    }
  }

  lemma RootBounded(root: FTNode, values: seq<int>, marks: seq<bool>, a: real, b: real)
    requires a > 0.0 && |marks| == |values| && root.level == root.nodeId == 0 && root.leftBoundary == 0 && root.rightBoundary == |values|
    requires root.numKeys == Marked(marks, 0, |marks|)
    ensures Bounded([root], 0, values, marks, a, b)
  {
  }
}
