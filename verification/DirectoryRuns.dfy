// Arrays of children over whole runs.
module DirectoryRuns {
  // From the bulk load or a downward split that builds an array of children, through any number of
  // expansions, replacements and splits.

  import opened FanoutTree
  import opened FanoutChoice
  import opened Directory

  ghost predicate Sound(d: Dir) { d.a > 0.0 && Blocks(d.c, d.g) && Spans(d.c, d.g, d.a, d.b) }

  ghost predicate DirRun(init: Dir, xs: seq<Change>, d: Dir)
    decreases |xs|, 0
  {
    if xs == [] then d == init else DirRunThen(init, xs[..|xs| - 1], xs[|xs| - 1], d)
  }

  ghost predicate DirRunThen(init: Dir, xs: seq<Change>, x: Change, d: Dir)
    decreases |xs|, 1
  {
    exists r :: DirRun(init, xs, r) && Changes(r, x, d)
  }

  lemma BuiltIsSound(d: Dir)
    requires Built(d)
    ensures Sound(d)
  {
    hide TilesFrom, KidsOk, KidSpans, FilledBy, Blocks, Spans;
    var used, kids :| BuiltFor(d, used, kids);
    BuiltBlocks(d.c, d.g, used, kids, d.a, d.b);
  }

  lemma ChangeKeeps(d: Dir, x: Change, d': Dir)
    requires Sound(d) && Changes(d, x, d')
    ensures Sound(d')
  {
    hide TilesFrom, KidsOk, KidSpans, FilledBy, Blocks, Spans, BlockStart, Expanded, Times, Bucket;
    match x {
      case Expansion(e) => ExpandKeepsAll(d.c, d.g, e, d.a, d.b);
      case Replacement(i, id) => ReplacementKeeps(d, i, id, d');
      case Division(i, used, kids) =>
        SplitKeepsBlocks(d.c, d'.c, d.g, i, used, kids);
        SplitKeepsSpans(d.c, d'.c, d.g, i, used, kids, d.a, d.b);
    }
  }

  // Another child in all slots of one, which are those of its block.
  lemma ReplacementKeeps(d: Dir, i: nat, id: nat, d': Dir)
    requires Sound(d) && Changes(d, Replacement(i, id), d')
    ensures Sound(d')
  {
    hide TilesFrom, KidsOk, KidSpans, FilledBy, Blocks, Spans, BlockStart, Line;
    var child := d.c[i].(id := id);
    BlockIs(d.c, d.g, i);
    var s, r := BlockStart(d.c, d.g, i), Pow2(d.g - d.c[i].depth);
    forall j: nat | j < |d.c| ensures s <= j < s + r <==> d.c[j] == d.c[i] {
      if !(s <= j < s + r) {
        OutsideBlock(d.c, d.g, d.a, d.b, i, j);
      }
    }
    WholeBlock(d.c, d'.c, d.g, i, child, d.a, d.b);
    SplitKeepsBlocks(d.c, d'.c, d.g, i, OneNode(), [child]);
    SplitKeepsSpans(d.c, d'.c, d.g, i, OneNode(), [child], d.a, d.b);
  }

  // Every array of children that can be reached is a concatenation of aligned blocks, each child with the
  // range of its own, so every key is sent to the child in whose range it lies.
  lemma {:induction false} ReachableIsSound(init: Dir, xs: seq<Change>, d: Dir)
    requires Built(init) && DirRun(init, xs, d)
    ensures Sound(d)
    decreases |xs|
  {
    hide Sound, Built, Changes;
    if xs == [] {
      BuiltIsSound(init);
    } else {
      assert DirRunThen(init, xs[..|xs| - 1], xs[|xs| - 1], d);
      var r :| DirRun(init, xs[..|xs| - 1], r) && Changes(r, xs[|xs| - 1], d);
      ReachableIsSound(init, xs[..|xs| - 1], r);
      ChangeKeeps(r, xs[|xs| - 1], d);
    }
  }

  // ----- The bulk load puts the keys where they are looked for -----

  lemma CutIsLimit(a0: real, b0: real, f: nat, x: nat, key: real)
    requires a0 > 0.0 && Line(Times(a0, f), Times(b0, f), key) == x as real
    ensures Cut(a0, b0, f, x) == key
  {
    hide Pow2;
    var p := Pow2(f) as real;
    assert a0 * p > 0.0 && key * (a0 * p) == x as real - b0 * p;
    Ratio(key, a0 * p, x as real - b0 * p);
  }

  lemma Ratio(q: real, d: real, n: real)
    requires d > 0.0 && q * d == n
    ensures n / d == q
  {
  }

  // The keys between a used node's boundaries are sent to its child.
  lemma BulkLoadRoutes(c: seq<Child>, f: nat, used: seq<FTNode>, kids: seq<Child>, a0: real, b0: real, values: seq<int>, marks: seq<bool>,
                       k: nat, i: nat)
    requires a0 > 0.0 && |c| == Pow2(f) && TilesFrom(used, f, 0) && KidsOk(0, used, kids) && FilledBy(c, c, 0, f, used, kids)
    requires KidSpans(0, f, used, kids, Times(a0, f), Times(b0, f)) && k < |used| && |marks| == |values|
    requires NodeBounds(used[k], values, marks, a0, b0) && used[k].leftBoundary <= i < used[k].rightBoundary
    requires forall x, y :: 0 <= x <= y < |values| ==> values[x] <= values[y]
    ensures i < |values| && c[Bucket(Times(a0, f), Times(b0, f), |c|, values[i] as real)] == kids[k]
  {
    hide Bucket, TilesFrom, Line, Times, Boundary, Start, Repeats, KidsOk;
    var n, a, b, key := used[k], Times(a0, f), Times(b0, f), values[i] as real;
    TimesPositive(a0, f);
    SharePlace(used, f, k);
    var s, e := Start(n, f), Start(n, f) + Repeats(n, f);
    assert KidSpan(0, f, n, kids[k], a, b) && FilledPart(c, 0, f, n, kids[k]);
    SliceInRange(n, f, a0, b0, values, marks, i, kids[k].lo, kids[k].hi);
    BucketBetween(a, b, |c|, key, s, e);
    Order(a, b, key, kids[k].lo);
    Order(a, b, key, kids[k].hi);
  }

  // A key between the boundaries lies between the cuts.
  lemma SliceInRange(n: FTNode, f: nat, a0: real, b0: real, values: seq<int>, marks: seq<bool>, i: nat, lo: real, hi: real)
    requires a0 > 0.0 && n.level <= f && |marks| == |values| && NodeBounds(n, values, marks, a0, b0)
    requires n.leftBoundary <= i < n.rightBoundary && forall x, y :: 0 <= x <= y < |values| ==> values[x] <= values[y]
    requires Line(Times(a0, f), Times(b0, f), lo) == Start(n, f) as real
    requires Line(Times(a0, f), Times(b0, f), hi) == (Start(n, f) + Repeats(n, f)) as real
    ensures i < |values|
    ensures Start(n, f) > 0 ==> values[i] as real >= lo
    ensures Start(n, f) + Repeats(n, f) < Pow2(f) ==> (values[i] as real) < hi
  {
    hide Pow2, Shifted, Cut, Line, Times, LowerBound;
    var k := f - n.level;
    BoundaryFinest(values, a0, b0, n.level, n.nodeId, k);
    BoundaryFinest(values, a0, b0, n.level, n.nodeId + 1, k);
    ShiftedIs(n.nodeId, k);
    ShiftedIs(n.nodeId + 1, k);
    NextStart(n.nodeId, Pow2(k));
    RepeatsIs(n, f);
    assert n.level + k == f;
    CutIsLimit(a0, b0, f, Start(n, f), lo);
    CutIsLimit(a0, b0, f, Start(n, f) + Repeats(n, f), hi);
    assert values[n.leftBoundary] <= values[i];
  }
}
