// The fanout tree that chooses how to partition the keys of a node: a complete binary tree of
// candidate partitions, of which some are used.
module FanoutTree {

  datatype FTNode = FTNode(level: nat, nodeId: nat, cost: real, leftBoundary: int, rightBoundary: int, use: bool, numKeys: nat)

  type Levels = seq<seq<FTNode>>

  function Pow2(k: nat): (p: nat)
    ensures p >= 1
  {
    if k == 0 then 1 else 2 * Pow2(k - 1)
  }

  // id << k
  function Shifted(id: nat, k: nat): nat
    decreases k
  {
    if k == 0 then id else Shifted(2 * id, k - 1)
  }

  // The ancestor k levels up.
  function Ancestor(c: nat, k: nat): nat { if k == 0 then c else Ancestor(c / 2, k - 1) }

  lemma {:induction false} ShiftedIs(id: nat, k: nat)
    ensures Shifted(id, k) == id * Pow2(k)
    decreases k
  {
    if k > 0 {
      ShiftedIs(2 * id, k - 1);
    }
  }

  // The finest cells below a node are those from its shifted id up to the next one's.
  lemma {:induction false} CellsBelow(c: nat, id: nat, k: nat)
    ensures Ancestor(c, k) == id <==> Shifted(id, k) <= c < Shifted(id, k) + Pow2(k)
    decreases k
  {
    if k > 0 {
      AncestorUp(c, k);
      CellsBelow(c, 2 * id, k - 1);
      CellsBelow(c, 2 * id + 1, k - 1);
      ShiftedIs(2 * id, k - 1);
      ShiftedIs(2 * id + 1, k - 1);
      assert (2 * id + 1) * Pow2(k - 1) == 2 * id * Pow2(k - 1) + Pow2(k - 1);
    }
  }

  lemma {:induction false} AncestorUp(c: nat, k: nat)
    requires k > 0
    ensures Ancestor(c, k) == Ancestor(c, k - 1) / 2
    decreases k
  {
    if k > 1 {
      AncestorUp(c / 2, k - 1);
    }
  }

  lemma {:induction false} AncestorBound(c: nat, k: nat, n: nat)
    requires k <= n && c < Pow2(n)
    ensures Ancestor(c, k) < Pow2(n - k)
    decreases k
  {
    if k > 0 {
      AncestorBound(c / 2, k - 1, n - 1);
    }
  }

  // ----- Partitions -----

  ghost predicate Shape(t: Levels) {
    forall l :: 0 <= l < |t| ==> LevelShape(t[l], l)
  }

  ghost predicate LevelShape(level: seq<FTNode>, l: nat) {
    |level| == Pow2(l) && forall i :: 0 <= i < |level| ==> level[i].level == l && level[i].nodeId == i
  }

  // The node on level l above the finest cell c, used or not.
  ghost predicate UsedAbove(t: Levels, max: nat, l: nat, c: nat)
    requires l <= max < |t|
  {
    Ancestor(c, max - l) < |t[l]| && t[l][Ancestor(c, max - l)].use
  }

  // Exactly one node above each finest cell is used, and none below the finest level.
  ghost predicate Partition(t: Levels, max: nat)
    requires max < |t|
  {
    && (forall c: nat :: c < Pow2(max) ==> OneAbove(t, max, c))
    && forall l, i :: max < l < |t| && 0 <= i < |t[l]| ==> !t[l][i].use
  }

  ghost predicate OneAbove(t: Levels, max: nat, c: nat)
    requires max < |t|
  {
    exists l: nat :: l <= max && OnlyAbove(t, max, l, c)
  }

  ghost predicate OnlyAbove(t: Levels, max: nat, l: nat, c: nat)
    requires l <= max < |t|
  {
    UsedAbove(t, max, l, c) && forall m: nat :: m <= max && m != l ==> !UsedAbove(t, max, m, c)
  }

  function SetUse(t: Levels, l: nat, i: nat, b: bool): (u: Levels)
    requires l < |t| && i < |t[l]|
    ensures |u| == |t| && forall m :: 0 <= m < |t| ==> |u[m]| == |t[m]|
  {
    t[l := t[l][i := t[l][i].(use := b)]]
  }

  // Two used siblings replaced by their parent.
  function Merged(t: Levels, l: nat, i: nat): (u: Levels)
    requires 1 <= l < |t| && 2 * i + 1 < |t[l]| && i < |t[l - 1]|
    ensures |u| == |t|
  {
    SetUse(SetUse(SetUse(t, l, 2 * i, false), l, 2 * i + 1, false), l - 1, i, true)
  }

  lemma MergedUse(t: Levels, l: nat, i: nat, m: nat, j: nat)
    requires 1 <= l < |t| && 2 * i + 1 < |t[l]| && i < |t[l - 1]| && m < |t| && j < |t[m]|
    ensures var u := Merged(t, l, i);
            && |u| == |t| && |u[m]| == |t[m]|
            && u[m][j] == t[m][j].(use := if m == l && j / 2 == i then false else if m == l - 1 && j == i then true else t[m][j].use)
  {
  }

  // Which nodes above a cell are used after a merge.
  lemma UsedAfter(t: Levels, max: nat, l: nat, i: nat, m: nat, c: nat)
    requires max < |t| && Shape(t) && 1 <= l <= max && 2 * i + 1 < |t[l]| && i < |t[l - 1]| && m <= max && c < Pow2(max)
    ensures UsedAbove(Merged(t, l, i), max, m, c) ==
            (if m == l && Ancestor(c, max - l) / 2 == i then false
             else if m == l - 1 && Ancestor(c, max - l) / 2 == i then true else UsedAbove(t, max, m, c))
  {
    hide Merged;
    AncestorUp(c, max - l + 1);
    AncestorBound(c, max - m, max);
    assert LevelShape(t[m], m);
    MergedUse(t, l, i, m, Ancestor(c, max - m));
  }

  // Merging two used siblings keeps exactly one used node above each cell.
  lemma MergeKeepsCell(t: Levels, max: nat, l: nat, i: nat, c: nat)
    requires max < |t| && Shape(t) && 1 <= l <= max && 2 * i + 1 < |t[l]| && i < |t[l - 1]|
    requires t[l][2 * i].use && t[l][2 * i + 1].use && OneAbove(t, max, c)
    requires c < Pow2(max)
    ensures OneAbove(Merged(t, l, i), max, c)
  {
    hide Merged, Shape;
    var k: nat :| k <= max && OnlyAbove(t, max, k, c);
    var under := Ancestor(c, max - l) / 2 == i;
    if under {
      assert UsedAbove(t, max, l, c);
    }
    forall m: nat | m <= max ensures UsedAbove(Merged(t, l, i), max, m, c) ==
        (if m == l && under then false else if m == l - 1 && under then true else UsedAbove(t, max, m, c))
    {
      UsedAfter(t, max, l, i, m, c);
    }
    if under {
      assert k == l;
      assert OnlyAbove(Merged(t, l, i), max, l - 1, c);
    } else {
      assert OnlyAbove(Merged(t, l, i), max, k, c);
    }
  }

  lemma MergeKeepsPartition(t: Levels, max: nat, l: nat, i: nat)
    requires max < |t| && Shape(t) && Partition(t, max) && 1 <= l <= max && 2 * i + 1 < |t[l]| && i < |t[l - 1]|
    requires t[l][2 * i].use && t[l][2 * i + 1].use
    ensures Shape(Merged(t, l, i)) && Partition(Merged(t, l, i), max) && |Merged(t, l, i)| == |t|
  {
    hide OneAbove;
    var u := Merged(t, l, i);
    forall m | 0 <= m < |u| ensures LevelShape(u[m], m) {
      assert LevelShape(t[m], m);
    }
    forall c: nat | c < Pow2(max) ensures OneAbove(u, max, c) {
      MergeKeepsCell(t, max, l, i, c);
    }
  }

  // ----- Costs -----

  function NodeCost(n: FTNode, numKeys: real, perNode: real): real
    requires numKeys > 0.0
  {
    if n.use then Share(n.cost, n.numKeys, numKeys) + perNode else 0.0
  }

  // A node's part of the cost per key.
  function Share(cost: real, keys: nat, numKeys: real): real
    requires numKeys > 0.0
  {
    cost * keys as real / numKeys
  }

  function LevelCost(level: seq<FTNode>, numKeys: real, perNode: real): real
    requires numKeys > 0.0
  {
    if level == [] then 0.0 else NodeCost(level[0], numKeys, perNode) + LevelCost(level[1..], numKeys, perNode)
  }

  // The cost of the nodes in use: the expected cost per key, and a share of the model size per node.
  function UsedCost(t: Levels, numKeys: real, perNode: real): real
    requires numKeys > 0.0
  {
    if t == [] then 0.0 else LevelCost(t[0], numKeys, perNode) + UsedCost(t[1..], numKeys, perNode)
  }

  lemma {:induction false} LevelUpdate(level: seq<FTNode>, i: nat, n: FTNode, numKeys: real, perNode: real)
    requires numKeys > 0.0 && i < |level|
    ensures LevelCost(level[i := n], numKeys, perNode) ==
            LevelCost(level, numKeys, perNode) - NodeCost(level[i], numKeys, perNode) + NodeCost(n, numKeys, perNode)
  {
    if i == 0 {
      assert level[i := n][1..] == level[1..];
    } else {
      assert level[i := n][1..] == level[1..][i - 1 := n];
      LevelUpdate(level[1..], i - 1, n, numKeys, perNode);
    }
  }

  lemma {:induction false} TreeUpdate(t: Levels, l: nat, level: seq<FTNode>, numKeys: real, perNode: real)
    requires numKeys > 0.0 && l < |t|
    ensures UsedCost(t[l := level], numKeys, perNode) ==
            UsedCost(t, numKeys, perNode) - LevelCost(t[l], numKeys, perNode) + LevelCost(level, numKeys, perNode)
  {
    if l == 0 {
      assert t[l := level][1..] == t[1..];
    } else {
      assert t[l := level][1..] == t[1..][l - 1 := level];
      TreeUpdate(t[1..], l - 1, level, numKeys, perNode);
    }
  }

  lemma SetUseCost(t: Levels, l: nat, i: nat, b: bool, numKeys: real, perNode: real)
    requires numKeys > 0.0 && l < |t| && i < |t[l]|
    ensures UsedCost(SetUse(t, l, i, b), numKeys, perNode) ==
            UsedCost(t, numKeys, perNode) - NodeCost(t[l][i], numKeys, perNode) + NodeCost(t[l][i].(use := b), numKeys, perNode)
  {
    TreeUpdate(t, l, t[l][i := t[l][i].(use := b)], numKeys, perNode);
    LevelUpdate(t[l], i, t[l][i].(use := b), numKeys, perNode);
  }

  // What a merge saves.
  lemma MergeCost(t: Levels, l: nat, i: nat, numKeys: real, perNode: real)
    requires numKeys > 0.0 && 1 <= l < |t| && 2 * i + 1 < |t[l]| && i < |t[l - 1]|
    requires t[l][2 * i].use && t[l][2 * i + 1].use && !t[l - 1][i].use
    ensures UsedCost(Merged(t, l, i), numKeys, perNode) ==
            UsedCost(t, numKeys, perNode) - NodeCost(t[l][2 * i], numKeys, perNode) - NodeCost(t[l][2 * i + 1], numKeys, perNode)
            + NodeCost(t[l - 1][i].(use := true), numKeys, perNode)
  {
    hide UsedCost, NodeCost;
    var t1 := SetUse(t, l, 2 * i, false);
    var t2 := SetUse(t1, l, 2 * i + 1, false);
    SetUseCost(t, l, 2 * i, false, numKeys, perNode);
    SetUseCost(t1, l, 2 * i + 1, false, numKeys, perNode);
    SetUseCost(t2, l - 1, i, true, numKeys, perNode);
    Unused(t[l][2 * i].(use := false), numKeys, perNode);
    Unused(t[l][2 * i + 1].(use := false), numKeys, perNode);
    Unused(t[l - 1][i], numKeys, perNode);
    assert t1[l][2 * i + 1] == t[l][2 * i + 1] && t2[l - 1][i] == t[l - 1][i];
  }

  lemma Unused(n: FTNode, numKeys: real, perNode: real)
    requires numKeys > 0.0 && !n.use
    ensures NodeCost(n, numKeys, perNode) == 0.0
  {
  }

  // ----- Merging -----

  // Every node has the keys of its children.
  ghost predicate Additive(t: Levels) {
    forall l, i :: 0 <= l < |t| - 1 && 0 <= i < |t[l]| ==> SumsUp(t, l, i)
  }

  ghost predicate SumsUp(t: Levels, l: nat, i: nat)
    requires l + 1 < |t| && i < |t[l]|
  {
    2 * i + 1 < |t[l + 1]| && t[l][i].numKeys == t[l + 1][2 * i].numKeys + t[l + 1][2 * i + 1].numKeys
  }

  // The same nodes, up to which are used.
  ghost predicate SameNodes(t: Levels, u: Levels) {
    |t| == |u| && forall l :: 0 <= l < |t| ==> SameLevel(t[l], u[l])
  }

  ghost predicate SameLevel(x: seq<FTNode>, y: seq<FTNode>) {
    |x| == |y| && forall i :: 0 <= i < |x| ==> y[i] == x[i].(use := y[i].use)
  }

  lemma MergedSame(t: Levels, u: Levels, l: nat, i: nat)
    requires SameNodes(t, u) && 1 <= l < |u| && 2 * i + 1 < |u[l]| && i < |u[l - 1]|
    ensures SameNodes(t, Merged(u, l, i))
  {
    var w := Merged(u, l, i);
    forall m | 0 <= m < |t| ensures SameLevel(t[m], w[m]) {
      assert SameLevel(t[m], u[m]);
    }
  }

  lemma SameSums(t: Levels, u: Levels)
    requires Additive(t) && Shape(t) && SameNodes(t, u)
    ensures Additive(u) && Shape(u)
  {
    forall l, i | 0 <= l < |u| - 1 && 0 <= i < |u[l]| ensures SumsUp(u, l, i) {
      assert SumsUp(t, l, i) && SameLevel(t[l], u[l]) && SameLevel(t[l + 1], u[l + 1]);
    }
    forall l | 0 <= l < |u| ensures LevelShape(u[l], l) {
      assert SameLevel(t[l], u[l]) && LevelShape(t[l], l);
    }
  }

  lemma ParentUnused(t: Levels, max: nat, l: nat, i: nat)
    requires max < |t| && Shape(t) && Partition(t, max) && 1 <= l <= max && 2 * i + 1 < |t[l]| && i < |t[l - 1]| && t[l][2 * i].use
    ensures !t[l - 1][i].use
  {
    var c := Shifted(2 * i, max - l);
    assert LevelShape(t[l], l);
    CellBound(2 * i, max - l, l);
    CellsBelow(c, 2 * i, max - l);
    AncestorUp(c, max - l + 1);
    assert OneAbove(t, max, c);
    var k: nat :| k <= max && OnlyAbove(t, max, k, c);
    assert UsedAbove(t, max, l, c);
    assert k == l;
    assert !UsedAbove(t, max, l - 1, c);
  }

  lemma {:induction false} CellBound(id: nat, k: nat, l: nat)
    requires id < Pow2(l)
    ensures Shifted(id, k) + Pow2(k) <= Pow2(l + k)
    decreases k
  {
    if k > 0 {
      CellBound(2 * id + 1, k - 1, l + 1);
      ShiftedIs(2 * id + 1, k - 1);
      ShiftedIs(2 * id, k - 1);
      assert (2 * id + 1) * Pow2(k - 1) == 2 * id * Pow2(k - 1) + Pow2(k - 1);
    }
  }

  // The saving per key of the parent, spread over all keys, is the difference of the costs.
  lemma SavingIs(l: FTNode, r: FTNode, p: FTNode, model: real, numKeys: real)
    requires l.use && r.use && p.numKeys == l.numKeys + r.numKeys && p.numKeys > 0 && numKeys > 0.0
    ensures Saving(l, r, p, model) * p.numKeys as real / numKeys ==
            NodeCost(l, numKeys, model / numKeys) + NodeCost(r, numKeys, model / numKeys)
            - NodeCost(p.(use := true), numKeys, model / numKeys)
    ensures Saving(l, r, p, model) >= 0.0 <==> Saving(l, r, p, model) * p.numKeys as real / numKeys >= 0.0
  {
    var cl, nl, cr, nr, cp, np := l.cost, l.numKeys as real, r.cost, r.numKeys as real, p.cost, p.numKeys as real;
    var x, y, z := cl * nl / np, cr * nr / np, model / np;
    assert x * np == cl * nl && y * np == cr * nr && z * np == model;
    assert (x + y - cp + z) * np == cl * nl + cr * nr - cp * np + model;
    Quotient4(cl * nl, cr * nr, cp * np, model, numKeys);
    SavingSign(Saving(l, r, p, model), np, numKeys);
  }

  lemma Quotient4(a: real, b: real, c: real, d: real, n: real)
    requires n > 0.0
    ensures (a + b - c + d) / n == a / n + b / n - c / n + d / n
  {
  }

  lemma SavingSign(a: real, b: real, n: real)
    requires b > 0.0 && n > 0.0
    ensures a * b / n >= 0.0 <==> a >= 0.0
  {
    assert a >= 0.0 <==> a * b >= 0.0;
  }

  function Saving(l: FTNode, r: FTNode, p: FTNode, model: real): real
    requires p.numKeys > 0
  {
    var np := p.numKeys as real;
    l.cost * l.numKeys as real / np + r.cost * r.numKeys as real / np - p.cost + model / np
  }

  lemma EmptySaving(l: FTNode, r: FTNode, p: FTNode, model: real, numKeys: real)
    requires l.use && r.use && p.numKeys == l.numKeys + r.numKeys == 0 && numKeys > 0.0 && model >= 0.0
    ensures model / numKeys == NodeCost(l, numKeys, model / numKeys) + NodeCost(r, numKeys, model / numKeys)
                               - NodeCost(p.(use := true), numKeys, model / numKeys)
    ensures model / numKeys >= 0.0
  {
    assert l.numKeys as real == 0.0 && r.numKeys as real == 0.0 && p.numKeys as real == 0.0;
    assert l.cost * 0.0 == 0.0 && r.cost * 0.0 == 0.0 && p.cost * 0.0 == 0.0 && 0.0 / numKeys == 0.0;
  }

  lemma SameTrans(t: Levels, u: Levels, w: Levels)
    requires SameNodes(t, u) && SameNodes(u, w)
    ensures SameNodes(t, w)
  {
    forall l | 0 <= l < |t| ensures SameLevel(t[l], w[l]) {
      assert SameLevel(t[l], u[l]) && SameLevel(u[l], w[l]);
    }
  }

  lemma SiblingsExist(t: Levels, level: nat, i: nat)
    requires 1 <= level < |t| && Shape(t) && Additive(t) && i < Pow2(level) / 2
    ensures 2 * i + 1 < |t[level]| && i < |t[level - 1]|
    ensures t[level - 1][i].numKeys == t[level][2 * i].numKeys + t[level][2 * i + 1].numKeys
  {
    assert LevelShape(t[level], level) && LevelShape(t[level - 1], level - 1);
    assert SumsUp(t, level - 1, i);
  }

  // ----- Which nodes survive -----

  // What a data node's size costs over all keys.
  function Weight(size: real, totalKeys: int): real { size * totalKeys as real }

  // Whether node i of level l takes the place of its two children when both have survived.
  predicate Absorbs(t: Levels, model: real, l: nat, i: nat)
    requires l + 1 < |t| && i < |t[l]| && 2 * i + 1 < |t[l + 1]|
  {
    t[l][i].numKeys == 0 || Saving(t[l + 1][2 * i], t[l + 1][2 * i + 1], t[l][i], model) >= 0.0
  }

  // Merging upwards from level `start` reaches node i of level l: it is on that level, or both its
  // children are reached and it absorbs them.
  predicate Reached(t: Levels, model: real, start: nat, l: nat, i: nat)
    requires Shape(t) && start < |t|
    decreases if l < start then start - l else 0
  {
    if l > start || i >= Pow2(l) then false
    else if l == start then true
    else
      ShapeAt(t, l, i);
      Reached(t, model, start, l + 1, 2 * i) && Reached(t, model, start, l + 1, 2 * i + 1) && Absorbs(t, model, l, i)
  }

  lemma ShapeAt(t: Levels, l: nat, i: nat)
    requires Shape(t) && l + 1 < |t| && i < Pow2(l)
    ensures |t[l]| == Pow2(l) && |t[l + 1]| == Pow2(l + 1) && 2 * i + 1 < |t[l + 1]|
  {
    assert LevelShape(t[l], l) && LevelShape(t[l + 1], l + 1);
  }

  // The nodes in use at the end: reached, and not absorbed.
  predicate Survives(t: Levels, model: real, start: nat, l: nat, i: nat)
    requires Shape(t) && start < |t|
  {
    Reached(t, model, start, l, i) && !(l > 0 && Reached(t, model, start, l - 1, i / 2))
  }

  // Which nodes are used when the pairs of `level` before pair i have been dealt with.
  predicate UsedThen(t: Levels, model: real, start: nat, level: nat, i: nat, l: nat, j: nat)
    requires Shape(t) && start < |t|
  {
    if l > level then Survives(t, model, start, l, j)
    else if l == level then Reached(t, model, start, l, j) && !(l > 0 && j / 2 < i && Reached(t, model, start, l - 1, j / 2))
    else l + 1 == level && j < i && Reached(t, model, start, l, j)
  }

  ghost predicate UseOk(t: Levels, u: Levels, model: real, start: nat, level: nat, i: nat)
    requires Shape(t) && start < |t| && SameNodes(t, u)
  {
    forall l: nat, j: nat :: l < |t| && j < |t[l]| ==> UseAt(t, u, model, start, level, i, l, j)
  }

  ghost predicate UseAt(t: Levels, u: Levels, model: real, start: nat, level: nat, i: nat, l: nat, j: nat)
    requires Shape(t) && start < |t| && SameNodes(t, u) && l < |t| && j < |t[l]|
  {
    assert SameLevel(t[l], u[l]);
    u[l][j].use == UsedThen(t, model, start, level, i, l, j)
  }

  // All of one level in use, and nothing else.
  ghost predicate OneLevel(t: Levels, start: nat) {
    forall l, i :: 0 <= l < |t| && 0 <= i < |t[l]| ==> t[l][i].use == (l == start)
  }

  lemma UseStart(t: Levels, model: real, start: nat)
    requires Shape(t) && start < |t| && OneLevel(t, start)
    ensures SameNodes(t, t) && UseOk(t, t, model, start, start, 0)
  {
    SameRefl(t);
    forall l: nat, j: nat | l < |t| && j < |t[l]| ensures UseAt(t, t, model, start, start, 0, l, j) {
      assert LevelShape(t[l], l);
    }
  }

  // One pair dealt with.
  lemma UseStep(t: Levels, u: Levels, w: Levels, model: real, start: nat, level: nat, i: nat)
    requires Shape(t) && start < |t| && SameNodes(t, u) && SameNodes(t, w) && 1 <= level <= start
    requires UseOk(t, u, model, start, level, i) && 2 * i + 1 < |u[level]| && i < |u[level - 1]|
    requires w == if Merges(u, model, level, i) then Merged(u, level, i) else u
    ensures Merges(u, model, level, i) <==> Reached(t, model, start, level - 1, i)
    ensures UseOk(t, w, model, start, level, i + 1)
  {
    hide Reached, Merged, Saving, Absorbs, Shape;
    Related(t, u, model, start, level, i);
    var next := i + 1;
    forall l: nat, j: nat | l < |t| && j < |t[l]| ensures UseAt(t, w, model, start, level, next, l, j) {
      assert UseAt(t, u, model, start, level, i, l, j) && SameLevel(t[l], u[l]);
      MergedUse(u, level, i, l, j);
    }
  }

  // The pair is merged exactly if the merging reaches its parent.
  lemma Related(t: Levels, u: Levels, model: real, start: nat, level: nat, i: nat)
    requires Shape(t) && start < |t| && SameNodes(t, u) && 1 <= level <= start
    requires UseOk(t, u, model, start, level, i) && 2 * i + 1 < |u[level]| && i < |u[level - 1]|
    ensures Merges(u, model, level, i) <==> Reached(t, model, start, level - 1, i)
  {
    assert SameLevel(t[level], u[level]) && SameLevel(t[level - 1], u[level - 1]);
    assert LevelShape(t[level - 1], level - 1);
    assert UseAt(t, u, model, start, level, i, level, 2 * i) && UseAt(t, u, model, start, level, i, level, 2 * i + 1);
    if t[level - 1][i].numKeys > 0 {
      SameSaving(t[level][2 * i], t[level][2 * i + 1], t[level - 1][i], u[level][2 * i], u[level][2 * i + 1], u[level - 1][i], model);
    }
  }

  lemma SameSaving(l: FTNode, r: FTNode, p: FTNode, l': FTNode, r': FTNode, p': FTNode, model: real)
    requires p.numKeys > 0 && l' == l.(use := l'.use) && r' == r.(use := r'.use) && p' == p.(use := p'.use)
    ensures Saving(l', r', p', model) == Saving(l, r, p, model)
  {
  }

  // Both children are in use, and their parent absorbs them.
  predicate Merges(u: Levels, model: real, level: nat, i: nat)
    requires 1 <= level < |u| && 2 * i + 1 < |u[level]| && i < |u[level - 1]|
  {
    u[level][2 * i].use && u[level][2 * i + 1].use && Absorbs(u, model, level - 1, i)
  }

  // All pairs of a level dealt with.
  lemma UseNext(t: Levels, u: Levels, model: real, start: nat, level: nat, i: nat)
    requires Shape(t) && start < |t| && SameNodes(t, u) && 1 <= level <= start && i == Pow2(level) / 2
    requires UseOk(t, u, model, start, level, i)
    ensures UseOk(t, u, model, start, level - 1, 0)
  {
    hide Reached, Merged, Shape;
    var above := level - 1;
    forall l: nat, j: nat | l < |t| && j < |t[l]| ensures UseAt(t, u, model, start, above, 0, l, j) {
      assert UseAt(t, u, model, start, level, i, l, j);
      SizeOf(t, l);
    }
  }

  lemma SizeOf(t: Levels, l: nat)
    requires Shape(t) && l < |t|
    ensures |t[l]| == Pow2(l)
  {
    assert LevelShape(t[l], l);
  }

  ghost predicate NoneReached(t: Levels, model: real, start: nat, l: nat)
    requires Shape(t) && start < |t|
  {
    forall i: nat :: i < Pow2(l) ==> !Reached(t, model, start, l, i)
  }

  // When nothing is reached on a level, nothing is reached above it.
  lemma {:induction false} NothingAbove(t: Levels, model: real, start: nat, k: nat, l: nat, i: nat)
    requires Shape(t) && start < |t| && l <= k < start && NoneReached(t, model, start, k)
    ensures !Reached(t, model, start, l, i)
    decreases k - l
  {
    if l < k && i < Pow2(l) {
      NothingAbove(t, model, start, k, l + 1, 2 * i);
    }
  }

  predicate ReachedAbove(t: Levels, model: real, start: nat, level: nat, j: nat)
    requires Shape(t) && start < |t| && level > 0
  {
    Reached(t, model, start, level - 1, j)
  }

  lemma NoneAbove(t: Levels, model: real, start: nat, level: nat)
    requires Shape(t) && start < |t| && 1 <= level <= start
    requires forall j: nat :: j < Pow2(level) / 2 ==> !ReachedAbove(t, model, start, level, j)
    ensures NoneReached(t, model, start, level - 1)
  {
    hide Reached;
    var above := level - 1;
    forall j: nat | j < Pow2(above) ensures !Reached(t, model, start, above, j) {
      assert !ReachedAbove(t, model, start, level, j);
    }
  }

  lemma OneLevelPartition(t: Levels, start: nat)
    requires start < |t| && Shape(t) && OneLevel(t, start)
    ensures Partition(t, start)
  {
    forall c: nat | c < Pow2(start) ensures OneAbove(t, start, c) {
      assert LevelShape(t[start], start);
      assert OnlyAbove(t, start, start, c);
    }
  }

  ghost predicate UseFinal(t: Levels, u: Levels, model: real, start: nat)
    requires Shape(t) && start < |t| && SameNodes(t, u)
  {
    forall l: nat, i: nat :: l < |t| && i < |t[l]| ==> FinalAt(t, u, model, start, l, i)
  }

  ghost predicate FinalAt(t: Levels, u: Levels, model: real, start: nat, l: nat, i: nat)
    requires Shape(t) && start < |t| && SameNodes(t, u) && l < |t| && i < |t[l]|
  {
    assert SameLevel(t[l], u[l]);
    u[l][i].use == Survives(t, model, start, l, i)
  }

  lemma UseDone(t: Levels, u: Levels, model: real, start: nat, level: nat)
    requires Shape(t) && start < |t| && SameNodes(t, u) && level <= start && UseOk(t, u, model, start, level, 0)
    requires level > 0 ==> level < start && NoneReached(t, model, start, level)
    ensures UseFinal(t, u, model, start)
  {
    hide Reached, Shape;
    forall l: nat, i: nat | l < |t| && i < |t[l]| ensures FinalAt(t, u, model, start, l, i) {
      assert UseAt(t, u, model, start, level, 0, l, i);
      SizeOf(t, l);
      if 0 < level && l <= level {
        NothingAbove(t, model, start, level, l, i);
      }
    }
  }

  // ----- What the merging achieves, in terms of the cost recomputed over the used nodes -----

  ghost predicate SiblingsUsed(t: Levels, l: nat, i: nat) {
    1 <= l < |t| && 2 * i + 1 < |t[l]| && i < |t[l - 1]| && t[l][2 * i].use && t[l][2 * i + 1].use
  }

  // No two used siblings are left whose replacement by their parent would not raise the cost.
  ghost predicate NoneToMerge(t: Levels, start: nat, numKeys: real, perNode: real)
    requires numKeys > 0.0
  {
    forall l: nat, i: nat :: l <= start && SiblingsUsed(t, l, i) ==> UsedCost(Merged(t, l, i), numKeys, perNode) > UsedCost(t, numKeys, perNode)
  }

  // Two used siblings replaced by their parent, which does not raise the cost.
  ghost predicate CheapMerge(x: Levels, y: Levels, numKeys: real, perNode: real)
    requires numKeys > 0.0
  {
    exists l: nat, i: nat :: SiblingsUsed(x, l, i) && y == Merged(x, l, i) && UsedCost(y, numKeys, perNode) <= UsedCost(x, numKeys, perNode)
  }

  // From t to u by such merges.
  ghost predicate CheapMerges(t: Levels, steps: seq<Levels>, u: Levels, numKeys: real, perNode: real)
    requires numKeys > 0.0
  {
    && |steps| >= 1 && steps[0] == t && steps[|steps| - 1] == u
    && forall k :: 0 <= k < |steps| - 1 ==> CheapMerge(steps[k], steps[k + 1], numKeys, perNode)
  }

  lemma NoMerge(t: Levels, numKeys: real, perNode: real)
    requires numKeys > 0.0
    ensures CheapMerges(t, [t], t, numKeys, perNode)
  {
  }

  lemma OneMoreMerge(t: Levels, steps: seq<Levels>, u: Levels, l: nat, i: nat, numKeys: real, perNode: real)
    requires numKeys > 0.0 && CheapMerges(t, steps, u, numKeys, perNode) && SiblingsUsed(u, l, i)
    requires UsedCost(Merged(u, l, i), numKeys, perNode) <= UsedCost(u, numKeys, perNode)
    ensures CheapMerges(t, steps + [Merged(u, l, i)], Merged(u, l, i), numKeys, perNode)
  {
    hide UsedCost, Merged;
    var more := steps + [Merged(u, l, i)];
    forall k | 0 <= k < |more| - 1 ensures CheapMerge(more[k], more[k + 1], numKeys, perNode) {
      if k < |steps| - 1 {
        assert more[k] == steps[k] && more[k + 1] == steps[k + 1];
      }
    }
  }

  // Two nodes that both survive are not absorbed.
  lemma NotAbsorbed(t: Levels, model: real, start: nat, l: nat, i: nat)
    requires Shape(t) && start < |t| && 1 <= l <= start && 2 * i + 1 < Pow2(l)
    requires Survives(t, model, start, l, 2 * i) && Survives(t, model, start, l, 2 * i + 1)
    ensures |t[l]| == Pow2(l) && |t[l - 1]| == Pow2(l - 1) && i < Pow2(l - 1)
    ensures t[l - 1][i].numKeys > 0 && Saving(t[l][2 * i], t[l][2 * i + 1], t[l - 1][i], model) < 0.0
  {
    ShapeAt(t, l - 1, i);
  }

  lemma PairKept(t: Levels, u: Levels, model: real, start: nat, l: nat, i: nat, numKeys: real)
    requires Shape(t) && start < |t| && SameNodes(t, u) && Shape(u) && Additive(u) && Partition(u, start) && UseFinal(t, u, model, start)
    requires numKeys > 0.0 && l <= start && SiblingsUsed(u, l, i)
    ensures UsedCost(Merged(u, l, i), numKeys, model / numKeys) > UsedCost(u, numKeys, model / numKeys)
  {
    hide UsedCost, NodeCost, Merged, Saving, Survives, Partition, Shape, Additive;
    SizeOf(t, l);
    SizeOf(t, l - 1);
    assert SameLevel(t[l], u[l]) && SameLevel(t[l - 1], u[l - 1]);
    assert FinalAt(t, u, model, start, l, 2 * i) && FinalAt(t, u, model, start, l, 2 * i + 1);
    NotAbsorbed(t, model, start, l, i);
    SameSaving(t[l][2 * i], t[l][2 * i + 1], t[l - 1][i], u[l][2 * i], u[l][2 * i + 1], u[l - 1][i], model);
    ParentUnused(u, start, l, i);
    SiblingsExist(u, l, i);
    MergeCost(u, l, i, numKeys, model / numKeys);
    SavingIs(u[l][2 * i], u[l][2 * i + 1], u[l - 1][i], model, numKeys);
  }

  lemma AllKept(t: Levels, u: Levels, model: real, start: nat, numKeys: real)
    requires Shape(t) && start < |t| && SameNodes(t, u) && Shape(u) && Additive(u) && Partition(u, start) && UseFinal(t, u, model, start)
    requires numKeys > 0.0
    ensures NoneToMerge(u, start, numKeys, model / numKeys)
  {
    hide UsedCost, Merged, Partition, Shape, Additive, SameNodes, UseFinal;
    forall l: nat, i: nat | l <= start && SiblingsUsed(u, l, i)
      ensures UsedCost(Merged(u, l, i), numKeys, model / numKeys) > UsedCost(u, numKeys, model / numKeys)
    {
      PairKept(t, u, model, start, l, i, numKeys);
    }
  }

  class FTree {
    var levels: Levels

    constructor (levels: Levels)
      ensures this.levels == levels
    {
      this.levels := levels;
    }

    // Merges pairs of used siblings, level by level upwards, where that does not raise the cost.
    // `modelSize` is the weight of one data node in bytes.
    method MergeNodesUpwards(startLevel: nat, bestCost: real, numKeys: int, totalKeys: int, modelSize: real)
      returns (best: real, ghost steps: seq<Levels>)
      requires startLevel < |levels| && Shape(levels) && OneLevel(levels, startLevel) && Additive(levels)
      requires numKeys > 0 && totalKeys >= 0 && modelSize >= 0.0
      modifies this
      ensures SameNodes(old(levels), levels) && Partition(levels, startLevel) && Shape(levels) && |levels| == |old(levels)|
      ensures var perNode := Weight(modelSize, totalKeys) / numKeys as real;
              best == bestCost - UsedCost(old(levels), numKeys as real, perNode) + UsedCost(levels, numKeys as real, perNode)
      ensures best <= bestCost && (startLevel == 0 ==> best == bestCost)
      ensures UseFinal(old(levels), levels, Weight(modelSize, totalKeys), startLevel)
      ensures var perNode := Weight(modelSize, totalKeys) / numKeys as real;
              && NoneToMerge(levels, startLevel, numKeys as real, perNode)
              && CheapMerges(old(levels), steps, levels, numKeys as real, perNode)
    {
      hide Partition, Shape, Additive, UsedCost, SameNodes, Merged, CheapMerges, NoneToMerge, UseFinal;
      best, steps := bestCost, [levels];
      NoMerge(levels, numKeys as real, Weight(modelSize, totalKeys) / numKeys as real);
      var level: int := startLevel;
      var model := Weight(modelSize, totalKeys);
      ghost var t := levels;
      OneLevelPartition(levels, startLevel);
      UseStart(levels, model, startLevel);
      while level >= 1
        invariant 0 <= level <= startLevel < |levels| == |t| && t == old(levels) && SameNodes(t, levels)
        invariant Shape(levels) && Partition(levels, startLevel) && Additive(levels) && best <= bestCost
        invariant best == bestCost - UsedCost(t, numKeys as real, model / numKeys as real) + UsedCost(levels, numKeys as real, model / numKeys as real)
        invariant UseOk(t, levels, model, startLevel, level, 0) && (startLevel == 0 ==> best == bestCost)
        invariant CheapMerges(t, steps, levels, numKeys as real, model / numKeys as real)
      {
        var atLeastOneMerge := false;
        var i := 0;
        while i < Pow2(level) / 2
          invariant 0 <= i <= Pow2(level) / 2 && startLevel < |levels| == |t| && SameNodes(t, levels)
          invariant Shape(levels) && Partition(levels, startLevel) && Additive(levels) && best <= bestCost
          invariant best == bestCost - UsedCost(t, numKeys as real, model / numKeys as real) + UsedCost(levels, numKeys as real, model / numKeys as real)
          invariant UseOk(t, levels, model, startLevel, level, i)
          invariant CheapMerges(t, steps, levels, numKeys as real, model / numKeys as real)
          invariant !atLeastOneMerge ==> forall j: nat :: j < i ==> !ReachedAbove(t, model, startLevel, level, j)
        {
          ghost var before := levels;
          var merged, after := TryMerge(level, startLevel, i, best, numKeys, model);
          SameTrans(t, before, levels);
          UseStep(t, before, levels, model, startLevel, level, i);
          if merged {
            atLeastOneMerge := true;
            OneMoreMerge(t, steps, before, level, i, numKeys as real, model / numKeys as real);
            steps := steps + [levels];
          }
          best := after;
          i := i + 1;
        }
        UseNext(t, levels, model, startLevel, level, i);
        if !atLeastOneMerge {
          NoneAbove(t, model, startLevel, level);
          UseDone(t, levels, model, startLevel, level - 1);
          AllKept(t, levels, model, startLevel, numKeys as real);
          return;
        }
        level := level - 1;
      }
      UseDone(t, levels, model, startLevel, 0);
      AllKept(t, levels, model, startLevel, numKeys as real);
    }

    method TryMerge(level: nat, max: nat, i: nat, best: real, numKeys: int, model: real)
      returns (merged: bool, after: real)
      requires 1 <= level <= max < |levels| && Shape(levels) && Partition(levels, max) && Additive(levels)
      requires numKeys > 0 && model >= 0.0 && i < Pow2(level) / 2
      modifies this
      ensures |levels| == |old(levels)| && SameNodes(old(levels), levels)
      ensures Shape(levels) && Partition(levels, max) && Additive(levels) && after <= best
      ensures 2 * i + 1 < |old(levels)[level]| && i < |old(levels)[level - 1]| && merged == Merges(old(levels), model, level, i)
      ensures levels == if merged then Merged(old(levels), level, i) else old(levels)
      ensures var perNode := model / numKeys as real;
              after == best - UsedCost(old(levels), numKeys as real, perNode) + UsedCost(levels, numKeys as real, perNode)
    {
      hide Partition, UsedCost, NodeCost, Merged, SameNodes, SameLevel, Saving, Shape, Additive, LevelShape;
      merged, after := false, best;
      SameRefl(levels);
      SiblingsExist(levels, level, i);
      var left, right, parent := levels[level][2 * i], levels[level][2 * i + 1], levels[level - 1][i];
      if left.use && right.use {
        ghost var perNode := model / numKeys as real;
        ParentUnused(levels, max, level, i);
        MergeKeepsPartition(levels, max, level, i);
        MergedSame(levels, levels, level, i);
        SameSums(levels, Merged(levels, level, i));
        MergeCost(levels, level, i, numKeys as real, perNode);
        if parent.numKeys == 0 {
          EmptySaving(left, right, parent, model, numKeys as real);
          levels := Merged(levels, level, i);
          merged := true;
          after := best - model / numKeys as real;
        } else {
          SavingIs(left, right, parent, model, numKeys as real);
          var saving := Saving(left, right, parent, model);
          if saving >= 0.0 {
            levels := Merged(levels, level, i);
            merged := true;
            after := best - saving * parent.numKeys as real / numKeys as real;
          }
        }
      }
    }
  }

  lemma SameRefl(t: Levels)
    ensures SameNodes(t, t)
  {
  }

  // ----- The used nodes in order -----

  // The first finest cell of a node, and how many there are below it.
  function Start(n: FTNode, max: nat): nat
    requires n.level <= max
  {
    Shifted(n.nodeId, max - n.level)
  }

  function Repeats(n: FTNode, max: nat): nat
    requires n.level <= max
  {
    Pow2(max - n.level)
  }

  // Side by side from cell c to the last.
  ghost predicate TilesFrom(used: seq<FTNode>, max: nat, c: nat)
    decreases |used|
  {
    if used == [] then c == Pow2(max)
    else used[0].level <= max && Start(used[0], max) == c && TilesFrom(used[1..], max, c + Repeats(used[0], max))
  }

  ghost predicate IsUsed(t: Levels, max: nat, n: FTNode)
    requires max < |t|
  {
    n.level <= max && n.nodeId < |t[n.level]| && t[n.level][n.nodeId] == n && n.use
  }

  ghost predicate Sorted(used: seq<FTNode>, max: nat) {
    (forall i :: 0 <= i < |used| ==> used[i].level <= max) &&
    forall i, j :: 0 <= i < j < |used| ==> Start(used[i], max) <= Start(used[j], max)
  }

  ghost predicate Distinct(used: seq<FTNode>) { forall i, j :: 0 <= i < j < |used| ==> used[i] != used[j] }

  ghost predicate Covers(n: FTNode, max: nat, c: nat) {
    n.level <= max && Start(n, max) <= c < Start(n, max) + Repeats(n, max)
  }

  // Two used nodes that cover the same cell are one.
  lemma OneCover(t: Levels, max: nat, m: FTNode, n: FTNode, c: nat)
    requires max < |t| && Shape(t) && Partition(t, max) && IsUsed(t, max, m) && IsUsed(t, max, n)
    requires Covers(m, max, c) && Covers(n, max, c)
    ensures m == n
  {
    assert LevelShape(t[m.level], m.level) && LevelShape(t[n.level], n.level);
    CellsBelow(c, m.nodeId, max - m.level);
    CellsBelow(c, n.nodeId, max - n.level);
    CellBound(m.nodeId, max - m.level, m.level);
    assert UsedAbove(t, max, m.level, c) && UsedAbove(t, max, n.level, c);
    assert OneAbove(t, max, c);
  }

  lemma CoverOf(t: Levels, max: nat, c: nat) returns (n: FTNode)
    requires max < |t| && Shape(t) && Partition(t, max) && c < Pow2(max)
    ensures IsUsed(t, max, n) && Covers(n, max, c)
  {
    assert OneAbove(t, max, c);
    var l: nat :| l <= max && OnlyAbove(t, max, l, c);
    n := t[l][Ancestor(c, max - l)];
    assert LevelShape(t[l], l);
    CellsBelow(c, n.nodeId, max - l);
  }

  // Sorted by start, the used nodes of a partition lie side by side.
  lemma {:induction false} SortedTiles(t: Levels, max: nat, used: seq<FTNode>, j: nat, c: nat)
    requires max < |t| && Shape(t) && Partition(t, max) && Sorted(used, max) && Distinct(used) && j <= |used|
    requires forall n :: n in used <==> IsUsed(t, max, n)
    requires if j == 0 then c == 0 else c == Start(used[j - 1], max) + Repeats(used[j - 1], max)
    requires c <= Pow2(max) && forall i :: 0 <= i < j ==> Start(used[i], max) + Repeats(used[i], max) <= c
    ensures TilesFrom(used[j..], max, c)
    decreases |used| - j
  {
    hide Shape, Partition, Distinct;
    if j < |used| {
      var n := used[j];
      assert n in used && n.level <= max;
      UsedBound(t, max, n);
      StartsBehind(t, max, used, j, c);
      NextCovers(t, max, used, j, c);
      assert used[j..][1..] == used[j + 1..];
      SortedTiles(t, max, used, j + 1, c + Repeats(n, max));
    } else if c < Pow2(max) {
      NextCovers(t, max, used, j, c);
    }
  }

  lemma UsedBound(t: Levels, max: nat, n: FTNode)
    requires max < |t| && Shape(t) && IsUsed(t, max, n)
    ensures Start(n, max) + Repeats(n, max) <= Pow2(max)
  {
    assert LevelShape(t[n.level], n.level);
    CellBound(n.nodeId, max - n.level, n.level);
  }

  // The next node starts where the one before ends, or later.
  lemma StartsBehind(t: Levels, max: nat, used: seq<FTNode>, j: nat, c: nat)
    requires max < |t| && Shape(t) && Partition(t, max) && Sorted(used, max) && Distinct(used) && j < |used|
    requires forall n :: n in used <==> IsUsed(t, max, n)
    requires if j == 0 then c == 0 else c == Start(used[j - 1], max) + Repeats(used[j - 1], max)
    ensures used[j].level <= max && Start(used[j], max) >= c
  {
    hide Shape, Partition, IsUsed;
    assert used[j] in used;
    if j > 0 {
      assert used[j - 1] in used;
      if Start(used[j], max) < c {
        OneCover(t, max, used[j - 1], used[j], Start(used[j], max));
      }
    }
  }

  // The node that covers the first cell not yet covered is the next, and starts there.
  lemma NextCovers(t: Levels, max: nat, used: seq<FTNode>, j: nat, c: nat)
    requires max < |t| && Shape(t) && Partition(t, max) && Sorted(used, max) && Distinct(used) && j <= |used| && c < Pow2(max)
    requires forall n :: n in used <==> IsUsed(t, max, n)
    requires if j == 0 then c == 0 else c == Start(used[j - 1], max) + Repeats(used[j - 1], max)
    requires forall i :: 0 <= i < j ==> Start(used[i], max) + Repeats(used[i], max) <= c
    ensures j < |used| && Start(used[j], max) == c
  {
    hide Shape, Partition, IsUsed;
    var m := CoverOf(t, max, c);
    var k :| 0 <= k < |used| && used[k] == m;
    assert k >= j;
    StartsBehind(t, max, used, j, c);
  }

  // ----- Collecting the used nodes -----

  lemma {:induction false} LevelCostSnoc(level: seq<FTNode>, n: FTNode, numKeys: real, perNode: real)
    requires numKeys > 0.0
    ensures LevelCost(level + [n], numKeys, perNode) == LevelCost(level, numKeys, perNode) + NodeCost(n, numKeys, perNode)
  {
    if level != [] {
      assert (level + [n])[1..] == level[1..] + [n];
      LevelCostSnoc(level[1..], n, numKeys, perNode);
    }
  }

  lemma {:induction false} UsedCostSnoc(t: Levels, level: seq<FTNode>, numKeys: real, perNode: real)
    requires numKeys > 0.0
    ensures UsedCost(t + [level], numKeys, perNode) == UsedCost(t, numKeys, perNode) + LevelCost(level, numKeys, perNode)
  {
    if t != [] {
      assert (t + [level])[1..] == t[1..] + [level];
      UsedCostSnoc(t[1..], level, numKeys, perNode);
    }
  }

  lemma {:induction false} LevelCostInsert(a: seq<FTNode>, n: FTNode, b: seq<FTNode>, numKeys: real, perNode: real)
    requires numKeys > 0.0
    ensures LevelCost(a + [n] + b, numKeys, perNode) == LevelCost(a + b, numKeys, perNode) + NodeCost(n, numKeys, perNode)
  {
    if a == [] {
      assert (a + [n] + b)[1..] == b && a + b == b;
    } else {
      assert (a + [n] + b)[1..] == a[1..] + [n] + b && (a + b)[1..] == a[1..] + b;
      LevelCostInsert(a[1..], n, b, numKeys, perNode);
    }
  }

  // Visited up to node j of level i.
  ghost predicate Visited(n: FTNode, i: nat, j: nat) { n.level < i || (n.level == i && n.nodeId < j) }

  method CollectUsedNodes(t: Levels, maxLevel: nat) returns (used: seq<FTNode>)
    requires t != [] && Shape(t)
    requires var max := if maxLevel < |t| - 1 then maxLevel else |t| - 1; Partition(t, max)
    ensures var max := if maxLevel < |t| - 1 then maxLevel else |t| - 1;
            && TilesFrom(used, max, 0) && (forall n :: n in used <==> IsUsed(t, max, n))
            && forall numKeys: real, perNode: real | numKeys > 0.0 ::
                 LevelCost(used, numKeys, perNode) == UsedCost(t[..max + 1], numKeys, perNode)
  {
    hide Partition, UsedCost, LevelCost, NodeCost;
    var max := if maxLevel < |t| - 1 then maxLevel else |t| - 1;
    var list := [];
    var i := 0;
    EmptyCosts(t);
    while i <= max
      invariant 0 <= i <= max + 1 && Distinct(list)
      invariant forall n :: n in list <==> IsUsed(t, max, n) && Visited(n, i, 0)
      invariant forall numKeys: real, perNode: real | numKeys > 0.0 ::
                  LevelCost(list, numKeys, perNode) == UsedCost(t[..i], numKeys, perNode)
    {
      list := CollectLevel(t, max, i, list);
      i := i + 1;
    }
    assert forall n | n in list :: n.level <= max;
    used := SortByStart(list, max);
    SortedTiles(t, max, used, 0, 0);
    assert used[0..] == used;
  }

  lemma EmptyCosts(t: Levels)
    ensures forall numKeys: real, perNode: real | numKeys > 0.0 :: LevelCost([], numKeys, perNode) == UsedCost(t[..0], numKeys, perNode)
    ensures forall numKeys: real, perNode: real | numKeys > 0.0 :: LevelCost([], numKeys, perNode) == 0.0
  {
  }

  method CollectLevel(t: Levels, max: nat, i: nat, list0: seq<FTNode>) returns (list: seq<FTNode>)
    requires i <= max < |t| && Shape(t) && Distinct(list0)
    requires forall n :: n in list0 <==> IsUsed(t, max, n) && Visited(n, i, 0)
    requires forall numKeys: real, perNode: real | numKeys > 0.0 ::
               LevelCost(list0, numKeys, perNode) == UsedCost(t[..i], numKeys, perNode)
    ensures Distinct(list) && forall n :: n in list <==> IsUsed(t, max, n) && Visited(n, i + 1, 0)
    ensures forall numKeys: real, perNode: real | numKeys > 0.0 ::
              LevelCost(list, numKeys, perNode) == UsedCost(t[..i + 1], numKeys, perNode)
  {
    hide UsedCost, LevelCost, NodeCost, Shape;
    list := list0;
    var level := t[i];
    assert LevelShape(level, i) by { Levelled(t, i); }
    EmptyCosts(t);
    assert level[..0] == [];
    var j := 0;
    while j < |level|
      invariant 0 <= j <= |level| && Distinct(list)
      invariant forall n :: n in list <==> IsUsed(t, max, n) && Visited(n, i, j)
      invariant forall numKeys: real, perNode: real | numKeys > 0.0 ::
                  LevelCost(list, numKeys, perNode) == UsedCost(t[..i], numKeys, perNode) + LevelCost(level[..j], numKeys, perNode)
    {
      assert level[..j + 1] == level[..j] + [level[j]];
      SnocAll(level[..j], level[j]);
      assert !Visited(level[j], i, j);
      if level[j].use {
        assert level[j] !in list;
        SnocAll(list, level[j]);
        list := list + [level[j]];
      } else {
        UnusedAll(level[j]);
      }
      j := j + 1;
    }
    assert level[..j] == level && t[..i + 1] == t[..i] + [level];
    UsedAll(t[..i], level);
    forall n ensures n in list <==> IsUsed(t, max, n) && Visited(n, i + 1, 0) {
    }
  }

  lemma Levelled(t: Levels, i: nat)
    requires Shape(t) && i < |t|
    ensures LevelShape(t[i], i)
  {
  }

  lemma SnocAll(level: seq<FTNode>, n: FTNode)
    ensures forall numKeys: real, perNode: real | numKeys > 0.0 ::
              LevelCost(level + [n], numKeys, perNode) == LevelCost(level, numKeys, perNode) + NodeCost(n, numKeys, perNode)
  {
    forall numKeys: real, perNode: real | numKeys > 0.0
      ensures LevelCost(level + [n], numKeys, perNode) == LevelCost(level, numKeys, perNode) + NodeCost(n, numKeys, perNode)
    {
      LevelCostSnoc(level, n, numKeys, perNode);
    }
  }

  lemma UnusedAll(n: FTNode)
    requires !n.use
    ensures forall numKeys: real, perNode: real | numKeys > 0.0 :: NodeCost(n, numKeys, perNode) == 0.0
  {
  }

  lemma UsedAll(t: Levels, level: seq<FTNode>)
    ensures forall numKeys: real, perNode: real | numKeys > 0.0 ::
              UsedCost(t + [level], numKeys, perNode) == UsedCost(t, numKeys, perNode) + LevelCost(level, numKeys, perNode)
  {
    forall numKeys: real, perNode: real | numKeys > 0.0
      ensures UsedCost(t + [level], numKeys, perNode) == UsedCost(t, numKeys, perNode) + LevelCost(level, numKeys, perNode)
    {
      UsedCostSnoc(t, level, numKeys, perNode);
    }
  }

  ghost predicate SameCost(x: seq<FTNode>, y: seq<FTNode>) {
    forall numKeys: real, perNode: real | numKeys > 0.0 :: LevelCost(x, numKeys, perNode) == LevelCost(y, numKeys, perNode)
  }

  // Puts the node behind those that start no later.
  method InsertByStart(used0: seq<FTNode>, max: nat, n: FTNode, ghost list: seq<FTNode>) returns (used: seq<FTNode>)
    requires Distinct(used0) && Sorted(used0, max) && n.level <= max && n !in used0 && SameCost(used0, list)
    ensures Distinct(used) && Sorted(used, max) && (forall m :: m in used <==> m in used0 || m == n) && SameCost(used, list + [n])
  {
    hide LevelCost, NodeCost, Start, Sorted, Distinct, SameCost;
    SortedLevels(used0, max);
    var k := |used0|;
    while k > 0 && Start(used0[k - 1], max) > Start(n, max)
      invariant 0 <= k <= |used0|
      invariant k < |used0| ==> Start(used0[k], max) > Start(n, max)
    {
      k := k - 1;
    }
    SortedAbove(used0, max, k, n);
    InsertSorted(used0, max, k, n);
    InsertCost(used0, list, k, n);
    used := used0[..k] + [n] + used0[k..];
  }

  lemma SortedLevels(used: seq<FTNode>, max: nat)
    requires Sorted(used, max)
    ensures forall i :: 0 <= i < |used| ==> used[i].level <= max
  {
  }

  lemma SortedAbove(used: seq<FTNode>, max: nat, k: nat, n: FTNode)
    requires Sorted(used, max) && k <= |used| && n.level <= max
    requires k < |used| ==> Start(used[k], max) > Start(n, max)
    ensures forall m :: k <= m < |used| ==> Start(used[m], max) > Start(n, max)
  {
    hide Start;
    forall m | k <= m < |used| ensures Start(used[m], max) > Start(n, max) {
      assert k < m ==> Start(used[k], max) <= Start(used[m], max);
    }
  }

  lemma InsertCost(used: seq<FTNode>, list: seq<FTNode>, k: nat, n: FTNode)
    requires k <= |used| && SameCost(used, list)
    ensures SameCost(used[..k] + [n] + used[k..], list + [n])
  {
    hide LevelCost, NodeCost;
    assert used == used[..k] + used[k..];
    SnocAll(list, n);
    InsertAll(used[..k], n, used[k..]);
  }

  // Sorts the nodes by their first cell.
  method SortByStart(list: seq<FTNode>, max: nat) returns (used: seq<FTNode>)
    requires Distinct(list) && forall n :: n in list ==> n.level <= max
    ensures Distinct(used) && Sorted(used, max) && (forall n :: n in used <==> n in list) && SameCost(used, list)
  {
    hide LevelCost, SameCost, Sorted, Distinct;
    used := [];
    var i := 0;
    assert list[..0] == [];
    NothingSorted(max);
    while i < |list|
      invariant 0 <= i <= |list| && Distinct(used) && Sorted(used, max)
      invariant forall n :: n in used <==> n in list[..i]
      invariant SameCost(used, list[..i])
    {
      NewOne(list, i);
      used := InsertByStart(used, max, list[i], list[..i]);
      i := i + 1;
    }
    assert list[..i] == list;
  }

  lemma NothingSorted(max: nat)
    ensures Sorted([], max) && Distinct([]) && SameCost([], [])
  {
  }

  lemma NewOne(list: seq<FTNode>, i: nat)
    requires Distinct(list) && i < |list|
    ensures list[i] !in list[..i] && list[..i + 1] == list[..i] + [list[i]] && list[i] in list
  {
  }

  lemma InsertAll(a: seq<FTNode>, n: FTNode, b: seq<FTNode>)
    ensures forall numKeys: real, perNode: real | numKeys > 0.0 ::
              LevelCost(a + [n] + b, numKeys, perNode) == LevelCost(a + b, numKeys, perNode) + NodeCost(n, numKeys, perNode)
  {
    forall numKeys: real, perNode: real | numKeys > 0.0
      ensures LevelCost(a + [n] + b, numKeys, perNode) == LevelCost(a + b, numKeys, perNode) + NodeCost(n, numKeys, perNode)
    {
      LevelCostInsert(a, n, b, numKeys, perNode);
    }
  }

  lemma InsertSorted(used: seq<FTNode>, max: nat, k: nat, n: FTNode)
    requires Sorted(used, max) && Distinct(used) && k <= |used| && n.level <= max && n !in used
    requires k > 0 ==> Start(used[k - 1], max) <= Start(n, max)
    requires forall m :: k <= m < |used| ==> Start(used[m], max) > Start(n, max)
    ensures var w := used[..k] + [n] + used[k..];
            Sorted(w, max) && Distinct(w) && forall m :: m in w <==> m in used || m == n
  {
    InsertedOrder(used, max, k, n);
    InsertedDistinct(used, k, n);
    InsertedMembers(used, k, n);
  }

  lemma InsertedMembers(used: seq<FTNode>, k: nat, n: FTNode)
    requires k <= |used|
    ensures forall m :: m in used[..k] + [n] + used[k..] <==> m in used || m == n
  {
    assert used == used[..k] + used[k..];
  }

  lemma InsertedDistinct(used: seq<FTNode>, k: nat, n: FTNode)
    requires Distinct(used) && k <= |used| && n !in used
    ensures Distinct(used[..k] + [n] + used[k..])
  {
    var w := used[..k] + [n] + used[k..];
    forall i, j | 0 <= i < j < |w| ensures w[i] != w[j] {
      assert i != k ==> w[i] == used[if i < k then i else i - 1];
      assert j != k ==> w[j] == used[if j < k then j else j - 1];
    }
  }

  lemma InsertedOrder(used: seq<FTNode>, max: nat, k: nat, n: FTNode)
    requires Sorted(used, max) && k <= |used| && n.level <= max
    requires k > 0 ==> Start(used[k - 1], max) <= Start(n, max)
    requires forall m :: k <= m < |used| ==> Start(used[m], max) > Start(n, max)
    ensures Sorted(used[..k] + [n] + used[k..], max)
  {
    hide Start;
    var w := used[..k] + [n] + used[k..];
    forall i | 0 <= i < |w| ensures w[i].level <= max {
      assert i != k ==> w[i] == used[if i < k then i else i - 1];
    }
    forall i, j | 0 <= i < j < |w| ensures Start(w[i], max) <= Start(w[j], max) {
      assert i != k ==> w[i] == used[if i < k then i else i - 1];
      assert j != k ==> w[j] == used[if j < k then j else j - 1];
      if j == k && i < k - 1 {
        assert Start(used[i], max) <= Start(used[k - 1], max);
      }
    }
  }
}
