// A model node's array of children.
module Directory {
  // It is laid out like an extendible-hashing directory: a child of local depth d fills an aligned block of
  // 2^(g - d) slots of an array of 2^g.

  import opened FanoutTree
  import opened FanoutChoice

  // A pointer to a child with the child's local depth, and the key range of its block.
  datatype Child = Child(id: nat, depth: nat, lo: real, hi: real)

  // ----- Aligned blocks -----

  // All slots of the block that slot i would lie in hold the same child.
  ghost predicate BlockOk(c: seq<Child>, g: nat, i: nat)
    requires i < |c|
  {
    c[i].depth <= g &&
    forall j: nat :: j < |c| && Ancestor(j, g - c[i].depth) == Ancestor(i, g - c[i].depth) ==> c[j] == c[i]
  }

  ghost predicate Blocks(c: seq<Child>, g: nat) { |c| == Pow2(g) && forall i: nat :: i < |c| ==> BlockOk(c, g, i) }

  function BlockStart(c: seq<Child>, g: nat, i: nat): nat
    requires i < |c| && c[i].depth <= g
  {
    Shifted(Ancestor(i, g - c[i].depth), g - c[i].depth)
  }

  // The slots of a block, and that its repeats divide its start.
  lemma BlockIs(c: seq<Child>, g: nat, i: nat)
    requires Blocks(c, g) && i < |c|
    ensures c[i].depth <= g
    ensures var s, r := BlockStart(c, g, i), Pow2(g - c[i].depth);
            && s <= i < s + r <= |c| && s == i - i % r && s % r == 0
            && forall j: nat :: s <= j < s + r ==> c[j] == c[i]
  {
    assert BlockOk(c, g, i);
    var k := g - c[i].depth;
    var q, r := Ancestor(i, k), Pow2(k);
    CellsBelow(i, q, k);
    AncestorBound(i, k, g);
    CellBound(q, k, c[i].depth);
    ShiftedIs(q, k);
    Multiple(q, r, i);
    forall j: nat | q * r <= j < q * r + r ensures c[j] == c[i] {
      CellsBelow(j, q, k);
    }
  }

  lemma Multiple(q: nat, r: nat, i: nat)
    requires r > 0 && q * r <= i < q * r + r
    ensures i % r == i - q * r && (q * r) % r == 0 && i / r == q
  {
    DivIs(q, r, i - q * r);
    DivIs(q, r, 0);
  }

  lemma DivIs(q: nat, r: nat, e: nat)
    requires e < r
    ensures (q * r + e) / r == q && (q * r + e) % r == e
  {
    var x := q * r + e;
    var d := x / r - q;
    assert x == r * (x / r) + x % r;
    assert r * d == r * (x / r) - r * q;
    assert d >= 1 ==> r * d >= r;
    assert d <= -1 ==> r * d + r <= 0;
  }

  // Threads that hold the parent's read lock together and replace different children write to
  // different slots: a slot of both blocks would hold both children.
  lemma DisjointBlocks(c: seq<Child>, g: nat, i: nat, j: nat, slot: nat)
    requires Blocks(c, g) && i < |c| && j < |c| && c[i].depth <= g && c[j].depth <= g
    requires BlockStart(c, g, i) <= slot < BlockStart(c, g, i) + Pow2(g - c[i].depth)
    requires BlockStart(c, g, j) <= slot < BlockStart(c, g, j) + Pow2(g - c[j].depth)
    ensures c[i] == c[j] && BlockStart(c, g, i) == BlockStart(c, g, j)
  {
    hide BlockStart;
    BlockIs(c, g, i);
    BlockIs(c, g, j);
    assert c[slot] == c[i] && c[slot] == c[j];
    BlockIs(c, g, slot);
    SameBlock(c, g, i, slot);
    SameBlock(c, g, j, slot);
  }

  lemma SameBlock(c: seq<Child>, g: nat, i: nat, slot: nat)
    requires Blocks(c, g) && i < |c| && slot < |c| && c[i].depth <= g && c[slot] == c[i]
    requires BlockStart(c, g, i) <= slot < BlockStart(c, g, i) + Pow2(g - c[i].depth)
    ensures BlockStart(c, g, slot) == BlockStart(c, g, i)
  {
    CellsBelow(slot, Ancestor(i, g - c[i].depth), g - c[i].depth);
  }

  // ----- Routing -----

  function Line(a: real, b: real, key: real): real { a * key + b }

  // The slot a model sends a key to.
  function Bucket(a: real, b: real, n: nat, key: real): (i: nat)
    requires n > 0
    ensures i < n
  {
    var p := Truncated(Line(a, b, key));
    if p < 0 then 0 else if p >= n then n - 1 else p
  }

  // Each child's key range is that of its block.
  ghost predicate SpanOk(c: seq<Child>, g: nat, a: real, b: real, i: nat)
    requires i < |c| && c[i].depth <= g
  {
    && Line(a, b, c[i].lo) == BlockStart(c, g, i) as real
    && Line(a, b, c[i].hi) == (BlockStart(c, g, i) + Pow2(g - c[i].depth)) as real
  }

  ghost predicate Spans(c: seq<Child>, g: nat, a: real, b: real) {
    forall i: nat :: i < |c| ==> c[i].depth <= g && SpanOk(c, g, a, b, i)
  }

  lemma Order(a: real, b: real, x: real, y: real)
    requires a > 0.0
    ensures x < y <==> Line(a, b, x) < Line(a, b, y)
  {
    assert x < y ==> a * (y - x) > 0.0;
    assert x >= y ==> a * (x - y) >= 0.0;
  }

  // Which slots lie in [s, e), in terms of the key.
  lemma BucketBetween(a: real, b: real, n: nat, key: real, s: nat, e: nat)
    requires s < e <= n
    ensures s <= Bucket(a, b, n, key) < e <==> (s == 0 || Line(a, b, key) >= s as real) && (e == n || Line(a, b, key) < e as real)
  {
    hide Line;
  }

  // A key is sent to the child in whose range it lies; the first and the last child also get the
  // keys outside of the domain.
  lemma RoutesByRange(c: seq<Child>, g: nat, a: real, b: real, i: nat, key: real)
    requires Blocks(c, g) && Spans(c, g, a, b) && a > 0.0 && i < |c|
    ensures c[i].depth <= g
    ensures var s, r := BlockStart(c, g, i), Pow2(g - c[i].depth);
            s <= Bucket(a, b, |c|, key) < s + r <==> (s == 0 || key >= c[i].lo) && (s + r == |c| || key < c[i].hi)
    ensures c[i].lo <= key < c[i].hi ==> c[Bucket(a, b, |c|, key)] == c[i]
  {
    hide Line, Bucket, BlockStart, Blocks;
    BlockIs(c, g, i);
    var s, r := BlockStart(c, g, i), Pow2(g - c[i].depth);
    assert SpanOk(c, g, a, b, i);
    BucketBetween(a, b, |c|, key, s, s + r);
    Order(a, b, key, c[i].lo);
    Order(a, b, key, c[i].hi);
  }

  // ----- Expansion -----

  lemma {:induction false} AncestorSum(c: nat, k: nat, m: nat)
    ensures Ancestor(Ancestor(c, k), m) == Ancestor(c, k + m)
    decreases k
  {
    if k > 0 {
      AncestorSum(c / 2, k - 1, m);
    }
  }

  // Every pointer repeated 2^e times.
  function Expanded(c: seq<Child>, g: nat, e: nat): (r: seq<Child>)
    requires |c| == Pow2(g)
    ensures |r| == Pow2(g + e)
  {
    seq(Pow2(g + e), j requires 0 <= j < Pow2(g + e) => AncestorBound(j, e, g + e); c[Ancestor(j, e)])
  }

  lemma ExpandKeepsBlocks(c: seq<Child>, g: nat, e: nat)
    requires Blocks(c, g)
    ensures Blocks(Expanded(c, g, e), g + e)
  {
    var r, h := Expanded(c, g, e), g + e;
    forall i: nat | i < |r| ensures BlockOk(r, h, i) {
      AncestorBound(i, e, g + e);
      assert BlockOk(c, g, Ancestor(i, e));
      var k := g - r[i].depth;
      assert g + e - r[i].depth == e + k;
      AncestorSum(i, e, k);
      forall j: nat | j < |r| && Ancestor(j, e + k) == Ancestor(i, e + k) ensures r[j] == r[i] {
        AncestorBound(j, e, g + e);
        AncestorSum(j, e, k);
      }
    }
  }

  lemma {:induction false} ShiftedSum(id: nat, k: nat, e: nat)
    ensures Shifted(id, k + e) == Shifted(Shifted(id, k), e)
    decreases k
  {
    if k > 0 {
      ShiftedSum(2 * id, k - 1, e);
    }
  }

  lemma {:induction false} Pow2Sum(k: nat, e: nat)
    ensures Pow2(k + e) == Pow2(k) * Pow2(e)
  {
    if k > 0 {
      Pow2Sum(k - 1, e);
    }
  }

  // A model parameter times the expansion factor.
  function Times(x: real, e: nat): real { x * Pow2(e) as real }

  // The scaled model gives each child the range it had.
  lemma ExpandKeepsSpans(c: seq<Child>, g: nat, e: nat, a: real, b: real)
    requires Blocks(c, g) && Spans(c, g, a, b)
    ensures Spans(Expanded(c, g, e), g + e, Times(a, e), Times(b, e))
  {
    hide Line, Times, BlockOk;
    var r, h, a', b' := Expanded(c, g, e), g + e, Times(a, e), Times(b, e);
    forall i: nat | i < |r| ensures r[i].depth <= h && SpanOk(r, h, a', b', i) {
      AncestorBound(i, e, h);
      ExpandedSpan(c, g, e, a, b, i);
    }
  }

  lemma ExpandedSpan(c: seq<Child>, g: nat, e: nat, a: real, b: real, i: nat)
    requires |c| == Pow2(g) && i < Pow2(g + e)
    requires Ancestor(i, e) < |c| && c[Ancestor(i, e)].depth <= g && SpanOk(c, g, a, b, Ancestor(i, e))
    ensures SpanOk(Expanded(c, g, e), g + e, Times(a, e), Times(b, e), i)
  {
    hide Line, Times;
    var p := Ancestor(i, e);
    var k := g - c[p].depth;
    AncestorSum(i, e, k);
    assert g + e - c[p].depth == k + e;
    var q := Ancestor(p, k);
    ShiftedSum(q, k, e);
    ShiftedIs(Shifted(q, k), e);
    Pow2Sum(k, e);
    ScaledSpan(a, b, c[p].lo, e, Shifted(q, k));
    ScaledSpan(a, b, c[p].hi, e, Shifted(q, k) + Pow2(k));
    Distribute(Shifted(q, k), Pow2(k), Pow2(e));
  }

  lemma Distribute(x: nat, y: nat, z: nat)
    ensures (x + y) * z == x * z + y * z
  {
  }

  lemma ScaledSpan(a: real, b: real, x: real, e: nat, s: nat)
    requires Line(a, b, x) == s as real
    ensures Line(Times(a, e), Times(b, e), x) == (s * Pow2(e)) as real
  {
    var f := Pow2(e) as real;
    assert a * f * x + b * f == (a * x + b) * f;
    assert (s * Pow2(e)) as real == s as real * f;
  }

  lemma TimesDouble(x: real, e: nat)
    ensures Times(x, e + 1) == 2.0 * Times(x, e)
  {
    assert Pow2(e + 1) as real == 2.0 * Pow2(e) as real;
  }

  lemma DoubleBucket(a: real, b: real, n: nat, key: real)
    requires n > 0
    ensures Bucket(2.0 * a, 2.0 * b, 2 * n, key) / 2 == Bucket(a, b, n, key)
  {
    assert Line(2.0 * a, 2.0 * b, key) == 2.0 * Line(a, b, key);
  }

  lemma {:induction false} ExpandedBucket(a: real, b: real, g: nat, key: real, e: nat)
    ensures Ancestor(Bucket(Times(a, e), Times(b, e), Pow2(g + e), key), e) == Bucket(a, b, Pow2(g), key)
  {
    hide Bucket, Times, Line;
    if e == 0 {
      TimesOne(a);
      TimesOne(b);
    } else {
      ExpandedBucket(a, b, g, key, e - 1);
      TimesDouble(a, e - 1);
      TimesDouble(b, e - 1);
      DoubleBucket(Times(a, e - 1), Times(b, e - 1), Pow2(g + e - 1), key);
      assert Pow2(g + e) == 2 * Pow2(g + e - 1);
    }
  }

  lemma TimesOne(x: real)
    ensures Times(x, 0) == x
  {
  }

  // Expansion leaves the child chosen for every key as it was.
  lemma ExpandKeepsRouting(c: seq<Child>, g: nat, e: nat, a: real, b: real, key: real)
    requires |c| == Pow2(g)
    ensures Expanded(c, g, e)[Bucket(Times(a, e), Times(b, e), Pow2(g + e), key)] == c[Bucket(a, b, |c|, key)]
  {
    hide Bucket, Times, Line;
    ExpandedBucket(a, b, g, key, e);
  }

  // ----- Splitting -----

  // A partition keeps its shape at a finer scale.
  lemma {:induction false} Rescale(used: seq<FTNode>, f: nat, m: nat, c: nat)
    requires TilesFrom(used, f, c) && f <= m
    ensures TilesFrom(used, m, c * Pow2(m - f))
    decreases |used|
  {
    if used == [] {
      Pow2Sum(f, m - f);
    } else {
      var n := used[0];
      ShiftedIs(n.nodeId, f - n.level);
      ShiftedIs(n.nodeId, m - n.level);
      Pow2Sum(f - n.level, m - f);
      Rescale(used[1..], f, m, c + Repeats(n, f));
      Product3(n.nodeId, Pow2(f - n.level), Pow2(m - f));
      Distribute(c, Repeats(n, f), Pow2(m - f));
    }
  }

  lemma Product3(x: nat, y: nat, z: nat)
    ensures x * (y * z) == x * y * z
  {
  }

  // c' is c with the block of 2^m slots from `start` filled by the new children: the k-th takes the
  // repeats of the k-th used node.
  ghost predicate FilledBy(c: seq<Child>, c': seq<Child>, start: nat, m: nat, used: seq<FTNode>, kids: seq<Child>) {
    && |c'| == |c| && |kids| == |used| && start + Pow2(m) <= |c|
    && (forall j: nat :: j < |c| && !(start <= j < start + Pow2(m)) ==> c'[j] == c[j])
    && forall k: nat :: k < |used| ==> FilledPart(c', start, m, used[k], kids[k])
  }

  ghost predicate FilledPart(c': seq<Child>, start: nat, m: nat, n: FTNode, kid: Child) {
    n.level <= m && start + Start(n, m) + Repeats(n, m) <= |c'| &&
    forall j: nat :: start + Start(n, m) <= j < start + Start(n, m) + Repeats(n, m) ==> c'[j] == kid
  }

  // The used node whose part slot j of the block belongs to.
  lemma {:induction false} PartOf(used: seq<FTNode>, m: nat, c: nat, j: nat) returns (k: nat)
    requires TilesFrom(used, m, c) && c <= j < Pow2(m)
    ensures k < |used| && used[k].level <= m && Start(used[k], m) <= j < Start(used[k], m) + Repeats(used[k], m)
    decreases |used|
  {
    if j < c + Repeats(used[0], m) {
      k := 0;
    } else {
      k := PartOf(used[1..], m, c + Repeats(used[0], m), j);
      k := k + 1;
    }
  }

  // New children of depth d + level in an aligned block of a child of depth d again fill aligned blocks.
  lemma PartAligned(q: nat, d: nat, m: nat, n: FTNode, j: nat)
    requires n.level <= m && Shifted(q, m) + Start(n, m) <= j < Shifted(q, m) + Start(n, m) + Repeats(n, m)
    ensures Ancestor(j, m - n.level) == q * Pow2(n.level) + n.nodeId
    ensures Shifted(q * Pow2(n.level) + n.nodeId, m - n.level) == Shifted(q, m) + Start(n, m)
  {
    hide Pow2, Shifted, Ancestor;
    var r := Pow2(m - n.level);
    ShiftedIs(q, m);
    ShiftedIs(n.nodeId, m - n.level);
    ShiftedIs(q * Pow2(n.level) + n.nodeId, m - n.level);
    Pow2Sum(n.level, m - n.level);
    Distribute(q * Pow2(n.level), n.nodeId, r);
    Product3(q, Pow2(n.level), r);
    CellsBelow(j, q * Pow2(n.level) + n.nodeId, m - n.level);
  }

  lemma PartConverse(q: nat, m: nat, n: FTNode, j: nat)
    requires n.level <= m && Ancestor(j, m - n.level) == q * Pow2(n.level) + n.nodeId
    ensures Shifted(q, m) + Start(n, m) <= j < Shifted(q, m) + Start(n, m) + Repeats(n, m)
  {
    hide Pow2, Shifted, Ancestor;
    ShiftedIs(q, m);
    ShiftedIs(n.nodeId, m - n.level);
    ShiftedIs(q * Pow2(n.level) + n.nodeId, m - n.level);
    Pow2Sum(n.level, m - n.level);
    Distribute(q * Pow2(n.level), n.nodeId, Pow2(m - n.level));
    Product3(q, Pow2(n.level), Pow2(m - n.level));
    CellsBelow(j, q * Pow2(n.level) + n.nodeId, m - n.level);
  }

  // What the new children of a block at slot i look like.
  ghost predicate KidsOk(d: nat, used: seq<FTNode>, kids: seq<Child>) {
    |kids| == |used| && forall k: nat :: k < |kids| ==> kids[k].depth == d + used[k].level
  }

  lemma SplitKeepsBlock(c: seq<Child>, c': seq<Child>, g: nat, i: nat, used: seq<FTNode>, kids: seq<Child>, j: nat)
    requires Blocks(c, g) && i < |c| && c[i].depth <= g && TilesFrom(used, g - c[i].depth, 0) && KidsOk(c[i].depth, used, kids)
    requires FilledBy(c, c', BlockStart(c, g, i), g - c[i].depth, used, kids) && j < |c|
    ensures BlockOk(c', g, j)
  {
    var d := c[i].depth;
    var m, s := g - d, BlockStart(c, g, i);
    var q := Ancestor(i, m);
    BlockIs(c, g, i);
    if s <= j < s + Pow2(m) {
      var k := PartOf(used, m, 0, j - s);
      assert FilledPart(c', s, m, used[k], kids[k]);
      PartAligned(q, d, m, used[k], j);
      assert g - c'[j].depth == m - used[k].level;
      forall x: nat | x < |c'| && Ancestor(x, m - used[k].level) == Ancestor(j, m - used[k].level) ensures c'[x] == c'[j] {
        PartConverse(q, m, used[k], x);
      }
    } else {
      BlockIs(c, g, j);
      assert BlockOk(c, g, j);
      forall x: nat | x < |c'| && Ancestor(x, g - c[j].depth) == Ancestor(j, g - c[j].depth) ensures c'[x] == c'[j] {
        CellsBelow(x, Ancestor(j, g - c[j].depth), g - c[j].depth);
        if s <= x < s + Pow2(m) {
          DisjointBlocks(c, g, i, j, x);
        }
      }
    }
  }

  lemma SplitKeepsBlocks(c: seq<Child>, c': seq<Child>, g: nat, i: nat, used: seq<FTNode>, kids: seq<Child>)
    requires Blocks(c, g) && i < |c| && c[i].depth <= g && TilesFrom(used, g - c[i].depth, 0) && KidsOk(c[i].depth, used, kids)
    requires FilledBy(c, c', BlockStart(c, g, i), g - c[i].depth, used, kids)
    ensures Blocks(c', g)
  {
    hide BlockOk;
    forall j: nat | j < |c'| ensures BlockOk(c', g, j) {
      SplitKeepsBlock(c, c', g, i, used, kids, j);
    }
  }

  // The key ranges the split gives the new children: those of their slots.
  ghost predicate KidSpans(start: nat, m: nat, used: seq<FTNode>, kids: seq<Child>, a: real, b: real) {
    |kids| == |used| && forall k: nat :: k < |kids| ==> used[k].level <= m && KidSpan(start, m, used[k], kids[k], a, b)
  }

  ghost predicate KidSpan(start: nat, m: nat, n: FTNode, kid: Child, a: real, b: real)
    requires n.level <= m
  {
    && Line(a, b, kid.lo) == (start + Start(n, m)) as real
    && Line(a, b, kid.hi) == (start + Start(n, m) + Repeats(n, m)) as real
  }

  lemma SplitKeepsSpan(c: seq<Child>, c': seq<Child>, g: nat, i: nat, used: seq<FTNode>, kids: seq<Child>, a: real, b: real, j: nat)
    requires Blocks(c, g) && Spans(c, g, a, b) && i < |c| && c[i].depth <= g && TilesFrom(used, g - c[i].depth, 0)
    requires KidsOk(c[i].depth, used, kids) && KidSpans(BlockStart(c, g, i), g - c[i].depth, used, kids, a, b)
    requires FilledBy(c, c', BlockStart(c, g, i), g - c[i].depth, used, kids) && j < |c|
    ensures c'[j].depth <= g && SpanOk(c', g, a, b, j)
  {
    hide Line, BlockOk, Start, Repeats;
    var d := c[i].depth;
    var m, s := g - d, BlockStart(c, g, i);
    BlockIs(c, g, i);
    if s <= j < s + Pow2(m) {
      var k := PartOf(used, m, 0, j - s);
      assert FilledPart(c', s, m, used[k], kids[k]) && KidSpan(s, m, used[k], kids[k], a, b);
      PartAligned(Ancestor(i, m), d, m, used[k], j);
      assert g - c'[j].depth == m - used[k].level;
      RepeatsIs(used[k], m);
    } else {
      assert SpanOk(c, g, a, b, j);
    }
  }

  lemma RepeatsIs(n: FTNode, m: nat)
    requires n.level <= m
    ensures Repeats(n, m) == Pow2(m - n.level)
  {
  }

  lemma SplitKeepsSpans(c: seq<Child>, c': seq<Child>, g: nat, i: nat, used: seq<FTNode>, kids: seq<Child>, a: real, b: real)
    requires Blocks(c, g) && Spans(c, g, a, b) && i < |c| && c[i].depth <= g && TilesFrom(used, g - c[i].depth, 0)
    requires KidsOk(c[i].depth, used, kids) && KidSpans(BlockStart(c, g, i), g - c[i].depth, used, kids, a, b)
    requires FilledBy(c, c', BlockStart(c, g, i), g - c[i].depth, used, kids)
    ensures Spans(c', g, a, b)
  {
    hide SpanOk, Blocks, KidSpans, KidsOk, TilesFrom;
    forall j: nat | j < |c'| ensures c'[j].depth <= g && SpanOk(c', g, a, b, j) {
      SplitKeepsSpan(c, c', g, i, used, kids, a, b, j);
    }
  }

  // ----- What the new leaves hold -----

  // The keys of the old leaf that go to the k-th new leaf: those between its limits, the first also
  // those below and the last those above.
  predicate Share(kids: seq<Child>, k: nat, key: real)
    requires k < |kids|
  {
    (k == 0 || key >= kids[k].lo) && (k == |kids| - 1 || key < kids[k].hi)
  }

  function Contents(content: map<int, int>, kids: seq<Child>, k: nat): map<int, int>
    requires k < |kids|
  {
    map key | key in content && Share(kids, k, key as real) :: content[key]
  }

  // Every key that was sent to the old leaf is sent to the new leaf whose share it is in.
  lemma SplitRoutes(c: seq<Child>, c': seq<Child>, g: nat, i: nat, used: seq<FTNode>, kids: seq<Child>, a: real, b: real, key: real)
    returns (k: nat)
    requires Blocks(c, g) && a > 0.0 && i < |c| && c[i].depth <= g && TilesFrom(used, g - c[i].depth, 0)
    requires KidSpans(BlockStart(c, g, i), g - c[i].depth, used, kids, a, b)
    requires FilledBy(c, c', BlockStart(c, g, i), g - c[i].depth, used, kids)
    requires var s := BlockStart(c, g, i); s <= Bucket(a, b, |c|, key) < s + Pow2(g - c[i].depth)
    ensures k < |kids| && c'[Bucket(a, b, |c|, key)] == kids[k]
    ensures Share(kids, k, key) && forall x: nat :: x < |kids| && x != k ==> !Share(kids, x, key)
  {
    hide Line, Bucket, BlockStart, Blocks, Start, Repeats, KidSpan, FilledPart;
    var m, s := g - c[i].depth, BlockStart(c, g, i);
    BlockIs(c, g, i);
    var slot := Bucket(a, b, |c|, key);
    k := PartOf(used, m, 0, slot - s);
    assert FilledPart(c', s, m, used[k], kids[k]);
    FilledAt(c', s, m, used[k], kids[k], slot);
    forall x: nat | x < |kids| ensures Share(kids, x, key) <==> x == k {
      SharePlace(used, m, x);
      SharePlace(used, m, k);
      PartsApart(used, m, 0, x, k);
      assert KidSpan(s, m, used[x], kids[x], a, b);
      ShareIs(|c|, s, m, used, kids, a, b, x, key);
    }
  }

  lemma FilledAt(c': seq<Child>, s: nat, m: nat, n: FTNode, kid: Child, slot: nat)
    requires FilledPart(c', s, m, n, kid) && s + Start(n, m) <= slot < s + Start(n, m) + Repeats(n, m)
    ensures slot < |c'| && c'[slot] == kid
  {
  }

  // Where a part lies within the block.
  lemma {:induction false} PartPlace(used: seq<FTNode>, m: nat, c: nat, x: nat)
    requires TilesFrom(used, m, c) && x < |used|
    ensures used[x].level <= m && c <= Start(used[x], m) && Start(used[x], m) + Repeats(used[x], m) <= Pow2(m)
    ensures x == 0 ==> Start(used[x], m) == c
    ensures x == |used| - 1 ==> Start(used[x], m) + Repeats(used[x], m) == Pow2(m)
    ensures (x > 0 ==> c < Start(used[x], m)) && (x < |used| - 1 ==> Start(used[x], m) + Repeats(used[x], m) < Pow2(m))
    decreases |used|
  {
    if x > 0 {
      PartPlace(used[1..], m, c + Repeats(used[0], m), x - 1);
    } else {
      TilesBelow(used[1..], m, c + Repeats(used[0], m));
    }
  }

  lemma {:induction false} TilesBelow(used: seq<FTNode>, m: nat, c: nat)
    requires TilesFrom(used, m, c)
    ensures if used == [] then c == Pow2(m) else c < Pow2(m)
    decreases |used|
  {
    if used != [] {
      TilesBelow(used[1..], m, c + Repeats(used[0], m));
    }
  }

  lemma SharePlace(used: seq<FTNode>, m: nat, x: nat)
    requires TilesFrom(used, m, 0) && x < |used|
    ensures used[x].level <= m && Start(used[x], m) + Repeats(used[x], m) <= Pow2(m) && Repeats(used[x], m) > 0
    ensures x == 0 ==> Start(used[x], m) == 0
    ensures x == |used| - 1 ==> Start(used[x], m) + Repeats(used[x], m) == Pow2(m)
    ensures (x > 0 ==> 0 < Start(used[x], m)) && (x < |used| - 1 ==> Start(used[x], m) + Repeats(used[x], m) < Pow2(m))
  {
    PartPlace(used, m, 0, x);
  }

  lemma {:induction false} PartsApart(used: seq<FTNode>, m: nat, c: nat, x: nat, y: nat)
    requires TilesFrom(used, m, c) && x < |used| && y < |used|
    ensures used[x].level <= m && used[y].level <= m
    ensures x < y ==> Start(used[x], m) + Repeats(used[x], m) <= Start(used[y], m)
    ensures y < x ==> Start(used[y], m) + Repeats(used[y], m) <= Start(used[x], m)
    decreases |used|
  {
    PartPlace(used, m, c, x);
    PartPlace(used, m, c, y);
    if x > 0 && y > 0 {
      PartsApart(used[1..], m, c + Repeats(used[0], m), x - 1, y - 1);
    } else if x == 0 && y > 0 {
      PartPlace(used[1..], m, c + Repeats(used[0], m), y - 1);
    } else if y == 0 && x > 0 {
      PartPlace(used[1..], m, c + Repeats(used[0], m), x - 1);
    }
  }

  // Of the keys sent to the block, a new leaf's share are those sent to its slots.
  lemma ShareIs(n: nat, s: nat, m: nat, used: seq<FTNode>, kids: seq<Child>, a: real, b: real, x: nat, key: real)
    requires a > 0.0 && TilesFrom(used, m, 0) && |kids| == |used| && x < |kids| && used[x].level <= m && s + Pow2(m) <= n
    requires KidSpan(s, m, used[x], kids[x], a, b) && s <= Bucket(a, b, n, key) < s + Pow2(m)
    ensures Share(kids, x, key) <==> s + Start(used[x], m) <= Bucket(a, b, n, key) < s + Start(used[x], m) + Repeats(used[x], m)
  {
    hide Line, Bucket, Start, Repeats;
    SharePlace(used, m, x);
    var p, r := s + Start(used[x], m), Repeats(used[x], m);
    BucketBetween(a, b, n, key, p, p + r);
    BucketBetween(a, b, n, key, s, s + Pow2(m));
    Order(a, b, key, kids[x].lo);
    Order(a, b, key, kids[x].hi);
  }

  function Get(content: map<int, int>, key: int): Option { if key in content then Some(content[key]) else None }

  datatype Option = None | Some(payload: int)

  // No pair is lost or duplicated, and every lookup by the parent finds what it found before: a key
  // is in the share of exactly one new leaf, the one the parent now sends it to.
  lemma SplitKeepsLookups(c: seq<Child>, c': seq<Child>, g: nat, i: nat, used: seq<FTNode>, kids: seq<Child>, a: real, b: real,
                          store: map<nat, map<int, int>>, store': map<nat, map<int, int>>, key: int)
    requires Blocks(c, g) && Spans(c, g, a, b) && a > 0.0 && i < |c| && c[i].depth <= g && TilesFrom(used, g - c[i].depth, 0)
    requires KidSpans(BlockStart(c, g, i), g - c[i].depth, used, kids, a, b)
    requires FilledBy(c, c', BlockStart(c, g, i), g - c[i].depth, used, kids)
    requires forall j: nat :: j < |c| ==> c[j].id in store && c[j].id in store'
    requires forall j: nat :: j < |c| && c[j] != c[i] ==> store'[c[j].id] == store[c[j].id]
    requires forall k: nat :: k < |kids| ==> kids[k].id in store' && store'[kids[k].id] == Contents(store[c[i].id], kids, k)
    ensures var slot := Bucket(a, b, |c|, key as real);
            c'[slot].id in store' && Get(store'[c'[slot].id], key) == Get(store[c[slot].id], key)
  {
    hide Line, Bucket, BlockStart, Blocks, KidSpan, FilledPart, TilesFrom;
    var slot := Bucket(a, b, |c|, key as real);
    var s := BlockStart(c, g, i);
    BlockIs(c, g, i);
    if s <= slot < s + Pow2(g - c[i].depth) {
      var k := SplitRoutes(c, c', g, i, used, kids, a, b, key as real);
    } else {
      OutsideBlock(c, g, a, b, i, slot);
    }
  }

  // A child fills one block only.
  lemma OutsideBlock(c: seq<Child>, g: nat, a: real, b: real, i: nat, slot: nat)
    requires Blocks(c, g) && Spans(c, g, a, b) && i < |c| && slot < |c| && c[i].depth <= g
    requires !(BlockStart(c, g, i) <= slot < BlockStart(c, g, i) + Pow2(g - c[i].depth))
    ensures c[slot] != c[i]
  {
    hide Line, BlockStart, Blocks;
    BlockIs(c, g, slot);
    assert SpanOk(c, g, a, b, i) && SpanOk(c, g, a, b, slot);
  }

  // The key is stored in the k-th new leaf and no other, with its payload, and that is where the
  // parent sends it.
  ghost predicate HeldBy(c': seq<Child>, kids: seq<Child>, a: real, b: real, content: map<int, int>, key: int, k: nat)
    requires key in content && |c'| > 0
  {
    && k < |kids| && c'[Bucket(a, b, |c'|, key as real)] == kids[k]
    && key in Contents(content, kids, k) && Contents(content, kids, k)[key] == content[key]
    && forall x: nat :: x < |kids| && x != k ==> key !in Contents(content, kids, x)
  }

  // The keys stored in the old leaf are those sent to its block; none is lost or duplicated.
  lemma SplitKeepsPlacement(c: seq<Child>, c': seq<Child>, g: nat, i: nat, used: seq<FTNode>, kids: seq<Child>, a: real, b: real,
                            content: map<int, int>, key: int) returns (k: nat)
    requires Blocks(c, g) && a > 0.0 && i < |c| && c[i].depth <= g && TilesFrom(used, g - c[i].depth, 0)
    requires KidSpans(BlockStart(c, g, i), g - c[i].depth, used, kids, a, b)
    requires FilledBy(c, c', BlockStart(c, g, i), g - c[i].depth, used, kids) && key in content
    requires var s := BlockStart(c, g, i); s <= Bucket(a, b, |c|, key as real) < s + Pow2(g - c[i].depth)
    ensures |c'| > 0 && HeldBy(c', kids, a, b, content, key, k)
    ensures forall x: nat :: x < |kids| ==> forall y | y in Contents(content, kids, x) :: y in content
  {
    hide Line, Bucket, BlockStart, Blocks, KidSpans, TilesFrom, FilledPart;
    k := SplitRoutes(c, c', g, i, used, kids, a, b, key as real);
  }

  // ----- What happens to an array of children -----

  // An array of 2^g children, and the model a * key + b that chooses among them.
  datatype Dir = Dir(c: seq<Child>, g: nat, a: real, b: real)

  // Filled by new children side by side.
  ghost predicate Built(d: Dir) {
    d.a > 0.0 && |d.c| == Pow2(d.g) && exists used, kids :: BuiltFor(d, used, kids)
  }

  ghost predicate BuiltFor(d: Dir, used: seq<FTNode>, kids: seq<Child>) {
    && TilesFrom(used, d.g, 0) && KidsOk(0, used, kids) && KidSpans(0, d.g, used, kids, d.a, d.b)
    && FilledBy(d.c, d.c, 0, d.g, used, kids)
  }

  // Every pointer repeated 2^e times; another node in all slots of a child; new children in them.
  datatype Change =
    | Expansion(e: nat)
    | Replacement(i: nat, id: nat)
    | Division(i: nat, used: seq<FTNode>, kids: seq<Child>)

  ghost predicate Changes(d: Dir, x: Change, d': Dir) {
    match x
    case Expansion(e) => |d.c| == Pow2(d.g) && d' == Dir(Expanded(d.c, d.g, e), d.g + e, Times(d.a, e), Times(d.b, e))
    case Replacement(i, id) =>
      && i < |d.c| == |d'.c| && d' == d.(c := d'.c)
      && forall j :: 0 <= j < |d.c| ==> d'.c[j] == if d.c[j] == d.c[i] then d.c[i].(id := id) else d.c[j]
    case Division(i, used, kids) =>
      && i < |d.c| && d' == d.(c := d'.c) && d.c[i].depth <= d.g && TilesFrom(used, d.g - d.c[i].depth, 0)
      && KidsOk(d.c[i].depth, used, kids) && KidSpans(BlockStart(d.c, d.g, i), d.g - d.c[i].depth, used, kids, d.a, d.b)
      && FilledBy(d.c, d'.c, BlockStart(d.c, d.g, i), d.g - d.c[i].depth, used, kids)
  }

  lemma FilledIsBuilt(whole: seq<Child>, d: Dir, used: seq<FTNode>, ids: seq<nat>, kids: seq<Child>)
    requires d.a > 0.0 && |d.c| == Pow2(d.g) && TilesFrom(used, d.g, 0) && FillsWhole(whole, d.c, d.g, used, ids, kids, d.a, d.b)
    ensures Built(d)
  {
    hide TilesFrom, KidsOk, KidSpans, FilledBy;
    FilledAnyway(whole, d.c, d.g, used, kids);
    assert BuiltFor(d, used, kids);
  }

  // ----- The model node -----

  method Log2RoundDown(x: int) returns (res: nat)
    requires x > 0
    ensures Pow2(res) <= x < Pow2(res + 1)
  {
    hide Pow2, Shifted;
    PowOne();
    res := 0;
    var y := x / 2;
    while y > 0
      invariant y >= 0 && y == Ancestor(x, res + 1) && Pow2(res) <= x
      decreases y
    {
      CellsBelow(x, y, res + 1);
      ShiftedIs(y, res + 1);
      AtLeast(y, Pow2(res + 1));
      AncestorUp(x, res + 2);
      res := res + 1;
      y := y / 2;
    }
    CellsBelow(x, 0, res + 1);
    ShiftedIs(0, res + 1);
  }

  lemma PowOne()
    ensures Pow2(0) == 1
  {
  }

  lemma AtLeast(y: nat, p: nat)
    requires y > 0
    ensures y * p >= p
  {
  }

  lemma {:induction false} Pow2Grows(x: nat, y: nat)
    requires x < y
    ensures 2 * Pow2(x) <= Pow2(y)
    decreases y
  {
    if x + 1 < y {
      Pow2Grows(x, y - 1);
    }
  }

  lemma LogOfPow2(g: nat, res: nat)
    requires Pow2(res) <= Pow2(g) < Pow2(res + 1)
    ensures res == g
  {
    if res < g {
      Pow2Grows(res, g);
    } else if g < res {
      Pow2Grows(g, res);
    }
  }

  class AlexModelNode {
    var children: array<Child>
    var a: real
    var b: real

    // g is the base-2 logarithm of the number of children.
    ghost predicate Valid(g: nat)
      reads this, children
    {
      a > 0.0 && Blocks(children[..], g) && Spans(children[..], g, a, b)
    }

    ghost function AsDir(g: nat): Dir reads this, children { Dir(children[..], g, a, b) }

    method GetChildNode(key: real) returns (child: Child)
      requires children.Length > 0
      ensures child == children[Bucket(a, b, children.Length, key)]
    {
      var p := Truncated(a * key + b);
      child := children[if p < 0 then 0 else if p >= children.Length then children.Length - 1 else p];
    }

    // The slots from the first with the same child to the first with a different one.
    method BlockOf(bucket: int, ghost g: nat) returns (start: int, end: int)
      requires Valid(g) && 0 <= bucket < children.Length
      ensures children[bucket].depth <= g && start == BlockStart(children[..], g, bucket) && end == start + Pow2(g - children[bucket].depth)
      ensures 0 <= start <= bucket < end <= children.Length
    {
      BlockIs(children[..], g, bucket);
      var log := Log2RoundDown(children.Length);
      LogOfPow2(g, log);
      var repeats := Pow2(log - children[bucket].depth);
      start := bucket - bucket % repeats;
      end := start + repeats;
    }

    method Fill(start: int, end: int, child: Child)
      requires 0 <= start <= end <= children.Length
      modifies children
      ensures forall j :: 0 <= j < children.Length ==> children[j] == if start <= j < end then child else old(children[j])
    {
      var i := start;
      while i < end
        invariant start <= i <= end
        invariant forall j :: 0 <= j < children.Length ==> children[j] == if start <= j < i then child else old(children[j])
      {
        children[i] := child;
        i := i + 1;
      }
    }

    // An array 2^e times as long in which every pointer is repeated.
    constructor Expand(node: AlexModelNode, e: nat, ghost g: nat)
      requires node.Valid(g)
      ensures fresh(children)
      ensures Valid(g + e) && Changes(node.AsDir(g), Expansion(e), AsDir(g + e))
      ensures forall key: real :: children[Bucket(a, b, children.Length, key)] == node.children[Bucket(node.a, node.b, node.children.Length, key)]
    {
      hide Bucket, Times, Blocks, Spans, Expanded;
      LengthIs(node.children[..], g);
      var array_ := Copies(node.children, e, g);
      children := array_;
      a := Times(node.a, e);
      b := Times(node.b, e);
      new;
      ExpandKeepsAll(node.children[..], g, e, node.a, node.b);
    }

    // Puts the new leaves of a split in the place of the old one, side by side: first their depths and
    // limits, then the pointers.
    method SplitSideways(bucket: int, used: seq<FTNode>, f: nat, ids: seq<nat>, ghost g: nat) returns (kids: seq<Child>)
      requires Valid(g) && 0 <= bucket < children.Length && TilesFrom(used, f, 0) && |ids| == |used|
      requires children[bucket].depth <= g && f <= g - children[bucket].depth
      modifies children
      ensures Valid(g) && |kids| == |used| && forall k :: 0 <= k < |kids| ==> kids[k].id == ids[k]
      ensures Changes(old(AsDir(g)), Division(bucket, used, kids), AsDir(g))
    {
      hide Bucket, Blocks, Spans, TilesFrom, KidsOk, KidSpans, FilledBy, BlockStart, Line;
      ghost var c := children[..];
      var depth := children[bucket].depth;
      var start, end := BlockOf(bucket, g);
      var log := Log2RoundDown(children.Length);
      BlockIs(c, g, bucket);
      LengthIs(c, g);
      LogOfPow2(g, log);
      Rescale(used, f, g - depth, 0);
      kids := NewChildren(start, log, depth, used, ids, a, b);
      PlaceChildren(start, log - depth, used, kids);
      SplitKeepsBlocks(c, children[..], g, bucket, used, kids);
      SplitKeepsSpans(c, children[..], g, bucket, used, kids, a, b);
    }

    // A leaf split in two: the halves of its block.
    method SplitInTwo(bucket: int, leftId: nat, rightId: nat, ghost g: nat) returns (left: Child, right: Child)
      requires Valid(g) && 0 <= bucket < children.Length && children[bucket].depth < g
      modifies children
      ensures Valid(g) && left.id == leftId && right.id == rightId
      ensures Changes(old(AsDir(g)), Division(bucket, TwoHalves(), [left, right]), AsDir(g))
    {
      hide Bucket, Blocks, Spans, BlockStart, Line, FilledBy, KidsOk, KidSpans, TwoHalves, TilesFrom;
      ghost var c := children[..];
      var depth := children[bucket].depth;
      var start, end := BlockOf(bucket, g);
      Halves(g - depth);
      var repeats := end - start;
      var mid := start + repeats / 2;
      LineOf(a, b, start as real);
      LineOf(a, b, mid as real);
      LineOf(a, b, end as real);
      left := Child(leftId, depth + 1, (start as real - b) / a, (mid as real - b) / a);
      right := Child(rightId, depth + 1, left.hi, (end as real - b) / a);
      Fill(start, mid, left);
      Fill(mid, end, right);
      HalvesAre(c, children[..], start, g - depth, depth, left, right, a, b);
      SplitKeepsBlocks(c, children[..], g, bucket, TwoHalves(), [left, right]);
      SplitKeepsSpans(c, children[..], g, bucket, TwoHalves(), [left, right], a, b);
    }

    // Another node in the place of a child, in all its slots.
    method ReplaceChild(bucket: int, id: nat, ghost g: nat)
      requires Valid(g) && 0 <= bucket < children.Length
      modifies children
      ensures Valid(g)
      ensures Changes(old(AsDir(g)), Replacement(bucket, id), AsDir(g))
    {
      hide Bucket, Blocks, Spans, BlockStart, Line, FilledBy, KidsOk, KidSpans, TilesFrom;
      ghost var c := children[..];
      var child := children[bucket].(id := id);
      var start, end := BlockOf(bucket, g);
      Fill(start, end, child);
      WholeBlock(c, children[..], g, bucket, child, a, b);
      SplitKeepsBlocks(c, children[..], g, bucket, OneNode(), [child]);
      SplitKeepsSpans(c, children[..], g, bucket, OneNode(), [child], a, b);
    }

    // A new node for the key range of a leaf, whose children are the leaf's parts; it takes the leaf's
    // place, and its depth, in the parent.
    constructor SplitDownwards(leaf: Child, used: seq<FTNode>, f: nat, ids: seq<nat>)
      requires leaf.lo < leaf.hi && TilesFrom(used, f, 0) && |ids| == |used|
      ensures Valid(f) && fresh(children) && Built(AsDir(f))
      ensures var whole := seq(Pow2(f), _ => leaf.(depth := 0));
              && Blocks(whole, f) && Spans(whole, f, a, b)
              && exists kids: seq<Child> :: FillsWhole(whole, children[..], f, used, ids, kids, a, b)
    {
      hide Bucket, Blocks, Spans, Line, TilesFrom, KidsOk, KidSpans, FilledBy;
      a := 1.0 / (leaf.hi - leaf.lo) * Pow2(f) as real;
      b := -(1.0 / (leaf.hi - leaf.lo) * Pow2(f) as real) * leaf.lo;
      children := new Child[Pow2(f)](_ => leaf.(depth := 0));
      new;
      ghost var whole := seq(Pow2(f), _ => leaf.(depth := 0));
      assert children[..] == whole;
      OneBlock(whole, f, leaf.(depth := 0), a, b);
      BlockIs(whole, f, 0);
      FirstStart(whole, f);
      var kids := NewChildren(0, f, 0, used, ids, a, b);
      PlaceChildren(0, f, used, kids);
      SplitKeepsBlocks(whole, children[..], f, 0, used, kids);
      SplitKeepsSpans(whole, children[..], f, 0, used, kids, a, b);
      assert FillsWhole(whole, children[..], f, used, ids, kids, a, b);
      FilledIsBuilt(whole, AsDir(f), used, ids, kids);
    }

    // A model node for a partition of its keys: its model has values from 0 to 1, and each child takes the
    // slots that its node of the fanout tree stands for.
    constructor BulkLoad(a0: real, b0: real, used: seq<FTNode>, f: nat, ids: seq<nat>)
      requires a0 > 0.0 && TilesFrom(used, f, 0) && |ids| == |used|
      ensures Valid(f) && fresh(children) && a == Times(a0, f) && b == Times(b0, f) && Built(AsDir(f))
      ensures exists kids: seq<Child> :: FillsWhole(children[..], children[..], f, used, ids, kids, a, b)
    {
      hide Bucket, Blocks, Spans, Line, TilesFrom, KidsOk, KidSpans, FilledBy, Times;
      TimesPositive(a0, f);
      a := Times(a0, f);
      b := Times(b0, f);
      children := new Child[Pow2(f)](_ => Child(0, 0, 0.0, 0.0));
      new;
      ghost var blank := children[..];
      var kids := NewChildren(0, f, 0, used, ids, a, b);
      PlaceChildren(0, f, used, kids);
      FilledAnyway(blank, children[..], f, used, kids);
      BuiltBlocks(children[..], f, used, kids, a, b);
      assert FillsWhole(children[..], children[..], f, used, ids, kids, a, b);
      FilledIsBuilt(children[..], AsDir(f), used, ids, kids);
    }

    // Fills the block from `start` with the new children, each repeated as its depth says.
    method PlaceChildren(start: int, m: nat, used: seq<FTNode>, kids: seq<Child>)
      requires 0 <= start && start + Pow2(m) <= children.Length && TilesFrom(used, m, 0) && |kids| == |used|
      modifies children
      ensures FilledBy(old(children[..]), children[..], start, m, used, kids)
    {
      hide Start, Repeats;
      ghost var c := children[..];
      var cur, k := start, 0;
      assert used[0..] == used;
      while k < |used|
        invariant 0 <= k <= |used| && start <= cur && TilesFrom(used[k..], m, cur - start)
        invariant forall j :: 0 <= j < children.Length && !(start <= j < cur) ==> children[j] == c[j]
        invariant forall x: nat :: x < k ==> FilledUpTo(children[..], start, m, cur, used[x], kids[x])
      {
        TilesBelow(used[k..], m, cur - start);
        assert used[k..][0] == used[k] && used[k..][1..] == used[k + 1..];
        TilesBelow(used[k + 1..], m, cur - start + Repeats(used[k], m));
        ghost var before := children[..];
        var repeats := Repeats(used[k], m);
        Fill(cur, cur + repeats, kids[k]);
        forall x: nat | x < k + 1 ensures FilledUpTo(children[..], start, m, cur + repeats, used[x], kids[x]) {
          if x < k {
            FilledMore(before, children[..], start, m, cur, cur + repeats, used[x], kids[x]);
          }
        }
        cur := cur + repeats;
        k := k + 1;
      }
      assert used[k..] == [];
      forall x: nat | x < |used| ensures FilledPart(children[..], start, m, used[x], kids[x]) {
        FilledAll(children[..], start, m, cur, used[x], kids[x]);
      }
    }
  }

  function OneNode(): seq<FTNode> { [FTNode(0, 0, 0.0, 0, 0, true, 0)] }

  // A child with the depth and the range of the one whose block it takes.
  lemma WholeBlock(c: seq<Child>, c': seq<Child>, g: nat, i: nat, child: Child, a: real, b: real)
    requires Blocks(c, g) && Spans(c, g, a, b) && i < |c| == |c'| && c[i].depth <= g && child == c[i].(id := child.id)
    requires forall j :: 0 <= j < |c| ==> c'[j] == if BlockStart(c, g, i) <= j < BlockStart(c, g, i) + Pow2(g - c[i].depth) then child else c[j]
    ensures TilesFrom(OneNode(), g - c[i].depth, 0) && KidsOk(c[i].depth, OneNode(), [child])
    ensures KidSpans(BlockStart(c, g, i), g - c[i].depth, OneNode(), [child], a, b)
    ensures FilledBy(c, c', BlockStart(c, g, i), g - c[i].depth, OneNode(), [child])
    ensures forall j :: 0 <= j < |c| ==> c'[j] == if c[j] == c[i] then child else c[j]
  {
    hide Blocks, Line, BlockStart;
    var m, s, used := g - c[i].depth, BlockStart(c, g, i), OneNode();
    BlockIs(c, g, i);
    ShiftedIs(0, m);
    ShiftedIs(1, m);
    RepeatsIs(used[0], m);
    assert used[1..] == [] && TilesFrom(used[1..], m, Pow2(m));
    assert SpanOk(c, g, a, b, i);
    forall j: nat | j < |c| && !(s <= j < s + Pow2(m)) ensures c[j] != c[i] {
      OutsideBlock(c, g, a, b, i, j);
    }
  }

  // All of an array filled by the new children with the given ids.
  ghost predicate FillsWhole(whole: seq<Child>, c': seq<Child>, f: nat, used: seq<FTNode>, ids: seq<nat>, kids: seq<Child>, a: real, b: real) {
    && KidsOk(0, used, kids) && KidSpans(0, f, used, kids, a, b) && FilledBy(whole, c', 0, f, used, kids)
    && |ids| == |kids| && forall k :: 0 <= k < |kids| ==> kids[k].id == ids[k]
  }

  lemma FilledAnyway(c: seq<Child>, c': seq<Child>, f: nat, used: seq<FTNode>, kids: seq<Child>)
    requires FilledBy(c, c', 0, f, used, kids)
    ensures FilledBy(c', c', 0, f, used, kids)
  {
  }

  // An array filled by children that lie side by side is a concatenation of aligned blocks, each child
  // with the range of its own.
  lemma BuiltBlocks(c: seq<Child>, f: nat, used: seq<FTNode>, kids: seq<Child>, a: real, b: real)
    requires a > 0.0 && |c| == Pow2(f) && TilesFrom(used, f, 0) && KidsOk(0, used, kids) && KidSpans(0, f, used, kids, a, b)
    requires FilledBy(c, c, 0, f, used, kids)
    ensures Blocks(c, f) && Spans(c, f, a, b)
  {
    hide Line, TilesFrom, KidsOk, KidSpans, FilledBy, BlockOk, SpanOk;
    var one := Child(0, 0, -b / a, (Pow2(f) as real - b) / a);
    var whole := seq(Pow2(f), _ => one);
    LineOf(a, b, 0.0);
    LineOf(a, b, Pow2(f) as real);
    assert (0.0 - b) / a == -b / a;
    LineBlock(whole, f, one, a, b);
    FirstStart(whole, f);
    FilledOver(whole, c, f, used, kids);
    SplitKeepsBlocks(whole, c, f, 0, used, kids);
    SplitKeepsSpans(whole, c, f, 0, used, kids, a, b);
  }

  lemma FilledOver(whole: seq<Child>, c: seq<Child>, f: nat, used: seq<FTNode>, kids: seq<Child>)
    requires FilledBy(c, c, 0, f, used, kids) && |whole| == |c| == Pow2(f)
    ensures FilledBy(whole, c, 0, f, used, kids)
  {
  }

  lemma LineBlock(whole: seq<Child>, f: nat, one: Child, a: real, b: real)
    requires whole == seq(Pow2(f), _ => one) && one.depth == 0 && Line(a, b, one.lo) == 0.0 && Line(a, b, one.hi) == Pow2(f) as real
    ensures Blocks(whole, f) && Spans(whole, f, a, b)
  {
    hide Line;
    forall i: nat | i < |whole| ensures BlockOk(whole, f, i) && SpanOk(whole, f, a, b, i) {
      AncestorBound(i, f, f);
      ShiftedIs(0, f);
    }
  }

  function TwoHalves(): seq<FTNode> { [FTNode(1, 0, 0.0, 0, 0, true, 0), FTNode(1, 1, 0.0, 0, 0, true, 0)] }

  lemma Halves(m: nat)
    requires m > 0
    ensures TilesFrom(TwoHalves(), m, 0) && Pow2(m) / 2 == Pow2(m - 1)
    ensures Start(TwoHalves()[0], m) == 0 && Start(TwoHalves()[1], m) == Pow2(m - 1)
    ensures Repeats(TwoHalves()[0], m) == Repeats(TwoHalves()[1], m) == Pow2(m - 1)
  {
    var t := TwoHalves();
    ShiftedIs(0, m - 1);
    ShiftedIs(1, m - 1);
    assert t[1..] == [t[1]] && t[1..][1..] == [];
    assert TilesFrom(t[1..][1..], m, Pow2(m));
    assert TilesFrom(t[1..], m, Pow2(m - 1));
  }

  lemma HalvesAre(c: seq<Child>, c': seq<Child>, start: nat, m: nat, d: nat, left: Child, right: Child, a: real, b: real)
    requires m > 0 && |c'| == |c| && start + Pow2(m) <= |c| && left.depth == right.depth == d + 1
    requires var mid := start + Pow2(m - 1);
             && (forall j :: 0 <= j < |c| ==>
                   c'[j] == if start <= j < mid then left else if mid <= j < start + Pow2(m) then right else c[j])
             && Line(a, b, left.lo) == start as real && Line(a, b, left.hi) == mid as real
             && Line(a, b, right.lo) == mid as real && Line(a, b, right.hi) == (start + Pow2(m)) as real
    ensures FilledBy(c, c', start, m, TwoHalves(), [left, right]) && KidsOk(d, TwoHalves(), [left, right])
    ensures KidSpans(start, m, TwoHalves(), [left, right], a, b)
  {
    hide Line, Pow2, Start, Repeats;
    Halves(m);
    PowDouble(m);
    var t, kids := TwoHalves(), [left, right];
    assert t[0].level == 1 && t[1].level == 1;
    forall k: nat | k < |t| ensures FilledPart(c', start, m, t[k], kids[k]) && KidSpan(start, m, t[k], kids[k], a, b) {
      assert k == 0 || k == 1;
    }
  }

  lemma PowDouble(m: nat)
    requires m > 0
    ensures Pow2(m) == Pow2(m - 1) + Pow2(m - 1)
  {
  }

  // An array that points to one child only.
  lemma OneBlock(whole: seq<Child>, f: nat, leaf: Child, a: real, b: real)
    requires whole == seq(Pow2(f), _ => leaf) && leaf.depth == 0 && leaf.lo < leaf.hi
    requires a == 1.0 / (leaf.hi - leaf.lo) * Pow2(f) as real && b == -a * leaf.lo
    ensures a > 0.0 && Blocks(whole, f) && Spans(whole, f, a, b)
  {
    forall i: nat | i < |whole| ensures BlockOk(whole, f, i) && SpanOk(whole, f, a, b, i) {
      AncestorBound(i, f, f);
      ShiftedIs(0, f);
      WholeSpan(leaf.lo, leaf.hi, a, b, f);
    }
    WholeSpan(leaf.lo, leaf.hi, a, b, f);
  }

  lemma WholeSpan(lo: real, hi: real, a: real, b: real, f: nat)
    requires lo < hi && a == 1.0 / (hi - lo) * Pow2(f) as real && b == -a * lo
    ensures a > 0.0 && Line(a, b, lo) == 0.0 && Line(a, b, hi) == Pow2(f) as real
  {
    var w, p := hi - lo, Pow2(f) as real;
    assert 1.0 / w > 0.0 && (1.0 / w) * w == 1.0;
    assert a * hi - a * lo == a * w;
    assert 1.0 / w * p * w == 1.0 / w * w * p;
  }

  lemma FirstStart(whole: seq<Child>, f: nat)
    requires |whole| == Pow2(f) && whole[0].depth == 0
    ensures BlockStart(whole, f, 0) == 0
  {
    AncestorBound(0, f, f);
    ShiftedIs(0, f);
  }

  // ----- Where the data is cut -----

  // The key that is x / p of the way from lo to hi.
  function CutBetween(lo: real, hi: real, x: real, p: real): real
    requires p > 0.0
  {
    lo + (hi - lo) * (x / p)
  }

  // The limits the parent gives the new leaves are where the fanout tree cuts the old leaf's keys: at
  // multiples of its range divided by the fanout.
  lemma CutsAgree(c: seq<Child>, g: nat, i: nat, used: seq<FTNode>, f: nat, kids: seq<Child>, a: real, b: real, k: nat)
    requires Blocks(c, g) && a > 0.0 && i < |c| && c[i].depth <= g && SpanOk(c, g, a, b, i) && f <= g - c[i].depth
    requires KidSpans(BlockStart(c, g, i), g - c[i].depth, used, kids, a, b) && k < |kids| && used[k].level <= f
    ensures kids[k].lo == CutBetween(c[i].lo, c[i].hi, Start(used[k], f) as real, Pow2(f) as real)
    ensures kids[k].hi == CutBetween(c[i].lo, c[i].hi, (Start(used[k], f) + Repeats(used[k], f)) as real, Pow2(f) as real)
  {
    hide Line, Pow2, BlockStart, Start, Repeats, Blocks, CutBetween;
    var m, n, s := g - c[i].depth, used[k], BlockStart(c, g, i);
    assert KidSpan(s, m, n, kids[k], a, b);
    StartScales(n, f, m);
    var p, q, x, y := Pow2(f) as real, Pow2(m - f) as real, Start(n, f) as real, (Start(n, f) + Repeats(n, f)) as real;
    assert Line(a, b, c[i].hi) == s as real + p * q;
    assert Line(a, b, kids[k].lo) == s as real + x * q;
    CutAt(a, b, c[i].lo, c[i].hi, s as real, p, q, x);
    Same(a, b, kids[k].lo, CutBetween(c[i].lo, c[i].hi, x, p));
    assert Line(a, b, kids[k].hi) == s as real + y * q;
    CutAt(a, b, c[i].lo, c[i].hi, s as real, p, q, y);
    Same(a, b, kids[k].hi, CutBetween(c[i].lo, c[i].hi, y, p));
  }

  lemma StartScales(n: FTNode, f: nat, m: nat)
    requires n.level <= f <= m
    ensures Start(n, m) as real == Start(n, f) as real * Pow2(m - f) as real && Pow2(m) as real == Pow2(f) as real * Pow2(m - f) as real
    ensures (Start(n, m) + Repeats(n, m)) as real == (Start(n, f) + Repeats(n, f)) as real * Pow2(m - f) as real
  {
    hide Pow2, Shifted;
    ShiftedIs(n.nodeId, f - n.level);
    ShiftedIs(n.nodeId, m - n.level);
    Pow2Sum(f - n.level, m - f);
    Pow2Sum(f, m - f);
    Product3(n.nodeId, Pow2(f - n.level), Pow2(m - f));
    RealProduct(Start(n, f), Pow2(m - f));
    RepeatsIs(n, m);
    RepeatsIs(n, f);
    Distribute(Start(n, f), Repeats(n, f), Pow2(m - f));
    RealProduct(Start(n, f) + Repeats(n, f), Pow2(m - f));
    RealProduct(Pow2(f), Pow2(m - f));
  }

  lemma RealProduct(x: int, y: int)
    ensures (x * y) as real == x as real * y as real
  {
  }

  lemma CutAt(a: real, b: real, lo: real, hi: real, s: real, p: real, q: real, x: real)
    requires Line(a, b, lo) == s && Line(a, b, hi) == s + p * q && p > 0.0
    ensures Line(a, b, CutBetween(lo, hi, x, p)) == s + x * q
  {
    var t := x / p;
    assert t * p == x;
    assert a * (hi - lo) == p * q;
    assert a * ((hi - lo) * t) == a * (hi - lo) * t;
    assert p * q * t == t * p * q;
  }

  lemma Same(a: real, b: real, x: real, y: real)
    requires a > 0.0 && Line(a, b, x) == Line(a, b, y)
    ensures x == y
  {
    Order(a, b, x, y);
    Order(a, b, y, x);
  }

  ghost predicate FilledUpTo(c: seq<Child>, start: nat, m: nat, cur: nat, n: FTNode, kid: Child) {
    FilledPart(c, start, m, n, kid) && start + Start(n, m) + Repeats(n, m) <= cur
  }

  lemma FilledMore(c: seq<Child>, c': seq<Child>, start: nat, m: nat, cur: nat, next: nat, n: FTNode, kid: Child)
    requires FilledUpTo(c, start, m, cur, n, kid) && cur <= next && |c'| == |c| && forall j :: 0 <= j < cur && j < |c| ==> c'[j] == c[j]
    ensures FilledUpTo(c', start, m, next, n, kid)
  {
  }

  lemma FilledAll(c: seq<Child>, start: nat, m: nat, cur: nat, n: FTNode, kid: Child)
    requires FilledUpTo(c, start, m, cur, n, kid)
    ensures FilledPart(c, start, m, n, kid)
  {
  }

  lemma ExpandKeepsAll(c: seq<Child>, g: nat, e: nat, a: real, b: real)
    requires Blocks(c, g) && Spans(c, g, a, b) && a > 0.0
    ensures var r, a', b' := Expanded(c, g, e), Times(a, e), Times(b, e);
            && a' > 0.0 && Blocks(r, g + e) && Spans(r, g + e, a', b')
            && forall key: real :: r[Bucket(a', b', |r|, key)] == c[Bucket(a, b, |c|, key)]
  {
    hide Bucket, Spans, BlockOk, Expanded;
    ExpandKeepsBlocks(c, g, e);
    ExpandKeepsSpans(c, g, e, a, b);
    TimesPositive(a, e);
    forall key: real ensures Expanded(c, g, e)[Bucket(Times(a, e), Times(b, e), Pow2(g + e), key)] == c[Bucket(a, b, |c|, key)] {
      ExpandKeepsRouting(c, g, e, a, b, key);
    }
  }

  lemma TimesPositive(x: real, e: nat)
    requires x > 0.0
    ensures Times(x, e) > 0.0
  {
  }

  lemma LengthIs(c: seq<Child>, g: nat)
    requires Blocks(c, g)
    ensures |c| == Pow2(g)
  {
  }

  method Copies(children: array<Child>, e: nat, ghost g: nat) returns (copies: array<Child>)
    requires children.Length == Pow2(g)
    ensures fresh(copies) && copies[..] == Expanded(children[..], g, e)
  {
    hide Pow2, Shifted, Ancestor, CopiedAt;
    var factor := Pow2(e);
    Pow2Sum(g, e);
    copies := new Child[children.Length * factor](_ => Child(0, 0, 0.0, 0.0));
    var i := 0;
    ghost var base := 0;
    while i < children.Length
      invariant 0 <= i <= children.Length && base == i * factor
      invariant forall x: nat :: x < base && x < copies.Length ==> CopiedAt(copies[..], children[..], e, x)
    {
      Rows(i, children.Length, factor);
      ghost var before := copies[..];
      CopyRow(copies, i, factor, children[i]);
      forall x: nat | x < base + factor && x < copies.Length ensures CopiedAt(copies[..], children[..], e, x) {
        if x < base {
          StillCopied(before, copies[..], children[..], e, x);
        } else {
          ShiftedIs(i, e);
          CellsBelow(x, i, e);
          NowCopied(copies[..], children[..], e, x, i);
        }
      }
      base := base + factor;
      i := i + 1;
    }
    forall x: nat | x < copies.Length ensures copies[x] == Expanded(children[..], g, e)[x] {
      assert CopiedAt(copies[..], children[..], e, x);
      RowIs(copies[..], children[..], e, x);
    }
  }

  lemma Rows(i: nat, n: nat, factor: nat)
    requires i < n
    ensures i * factor + factor <= n * factor && (i + 1) * factor == i * factor + factor
  {
    assert (i + 1) * factor <= n * factor;
  }

  method CopyRow(copies: array<Child>, i: nat, factor: nat, child: Child)
    requires i * factor + factor <= copies.Length
    modifies copies
    ensures forall x :: 0 <= x < copies.Length ==> copies[x] == if i * factor <= x < i * factor + factor then child else old(copies[x])
  {
    var j := 0;
    while j < factor
      invariant 0 <= j <= factor
      invariant forall x :: 0 <= x < copies.Length ==> copies[x] == if i * factor <= x < i * factor + j then child else old(copies[x])
    {
      copies[i * factor + j] := child;
      j := j + 1;
    }
  }

  lemma StillCopied(before: seq<Child>, copies: seq<Child>, children: seq<Child>, e: nat, x: nat)
    requires x < |before| == |copies| && CopiedAt(before, children, e, x) && copies[x] == before[x]
    ensures CopiedAt(copies, children, e, x)
  {
  }

  lemma NowCopied(copies: seq<Child>, children: seq<Child>, e: nat, x: nat, i: nat)
    requires x < |copies| && i < |children| && Ancestor(x, e) == i && copies[x] == children[i]
    ensures CopiedAt(copies, children, e, x)
  {
  }

  lemma RowIs(copies: seq<Child>, children: seq<Child>, e: nat, x: nat)
    requires x < |copies| && CopiedAt(copies, children, e, x)
    ensures Ancestor(x, e) < |children| && copies[x] == children[Ancestor(x, e)]
  {
  }

  ghost predicate CopiedAt(copies: seq<Child>, children: seq<Child>, e: nat, x: nat)
    requires x < |copies|
  {
    Ancestor(x, e) < |children| && copies[x] == children[Ancestor(x, e)]
  }

  // The new leaves: depth, and the limits of their slots.
  method NewChildren(start: nat, log: nat, depth: nat, used: seq<FTNode>, ids: seq<nat>, a: real, b: real) returns (kids: seq<Child>)
    requires depth <= log && TilesFrom(used, log - depth, 0) && |ids| == |used| && a > 0.0
    ensures |kids| == |used| && KidsOk(depth, used, kids) && KidSpans(start, log - depth, used, kids, a, b)
    ensures forall k :: 0 <= k < |kids| ==> kids[k].id == ids[k]
  {
    hide Line, Start, Repeats, KidSpan;
    kids := [];
    var cur, k := start, 0;
    ghost var m := log - depth;
    assert used[0..] == used;
    while k < |used|
      invariant 0 <= k <= |used| == |ids| && |kids| == k && start <= cur && TilesFrom(used[k..], m, cur - start)
      invariant forall x: nat :: x < k ==> kids[x].id == ids[x] && kids[x].depth == depth + used[x].level
      invariant forall x: nat :: x < k ==> used[x].level <= m && KidSpan(start, m, used[x], kids[x], a, b)
    {
      assert used[k..][0] == used[k] && used[k..][1..] == used[k + 1..];
      var kid, repeats := NewChild(start, log, depth, used[k], ids[k], cur, a, b);
      kids := kids + [kid];
      cur := cur + repeats;
      k := k + 1;
    }
  }

  method NewChild(start: nat, log: nat, depth: nat, n: FTNode, id: nat, cur: nat, a: real, b: real) returns (kid: Child, repeats: nat)
    requires depth + n.level <= log && a > 0.0 && cur == start + Start(n, log - depth)
    ensures kid.id == id && kid.depth == depth + n.level && KidSpan(start, log - depth, n, kid, a, b)
    ensures repeats == Repeats(n, log - depth)
  {
    hide Line, Start;
    repeats := Pow2(log - (depth + n.level));
    LineOf(a, b, cur as real);
    LineOf(a, b, (cur + repeats) as real);
    kid := Child(id, depth + n.level, (cur as real - b) / a, ((cur + repeats) as real - b) / a);
  }

  // The key at which a model reaches a slot.
  lemma LineOf(a: real, b: real, x: real)
    requires a > 0.0
    ensures Line(a, b, (x - b) / a) == x
  {
    assert a * ((x - b) / a) == x - b;
  }
}
