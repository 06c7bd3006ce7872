// The leaf list in any run of replacements.
module LeafOrder {
  import opened LinkLocks

  ghost predicate Linked(s: State, u: Node, x: Node) { s.NextOf(u) == Some(x) && s.PrevOf(x) == Some(u) }

  // The list is built, no operation runs and no lock is held; the leaves divide the keys from lo to hi.
  ghost predicate Initial(s: State, lo: int, hi: int) {
    && s.leaves != [] && Distinct(s.leaves) && s.link == map[] && s.lock == map[] && (forall t | t in s.ops :: s.ops[t].Idle?)
    && s.next.Keys == (set u | u in s.leaves) && s.prev.Keys == s.next.Keys && s.range.Keys == s.next.Keys
    && (forall i :: 0 <= i < |s.leaves| - 1 ==> Linked(s, s.leaves[i], s.leaves[i + 1]))
    && s.PrevOf(s.leaves[0]) == None && s.NextOf(s.leaves[|s.leaves| - 1]) == None && Tile(s.range, s.leaves, lo, hi)
  }

  ghost predicate Run(init: State, acts: seq<Action>, s: State)
    decreases |acts|, 0
  {
    if acts == [] then s == init else RunThen(init, acts[..|acts| - 1], acts[|acts| - 1], s)
  }

  ghost predicate RunThen(init: State, acts: seq<Action>, a: Action, s: State)
    decreases |acts|, 1
  {
    exists r :: Run(init, acts, r) && Takes(r, a, s)
  }

  ghost predicate Takes(r: State, a: Action, s: State) { Enabled(r, a) && s == Do(r, a) }

  // The leaves, and the new leaves of every operation, divide their keys.
  ghost predicate TilesOk(s: State, lo: int, hi: int) {
    && Tile(s.range, s.leaves, lo, hi) && s.range.Keys <= s.next.Keys
    && forall t | t in s.ops :: ChainTiles(s, t)
  }

  ghost predicate ChainTiles(s: State, t: Tid)
    requires t in s.ops
  {
    s.ops[t].Replace? ==>
      && s.ops[t].old_ in s.range && (forall u | u in s.ops[t].chain :: u in s.range)
      && Tile(s.range, s.ops[t].chain, s.range[s.ops[t].old_].lo, s.range[s.ops[t].old_].hi)
  }

  lemma {:induction false} TileSame(range: map<Node, Range>, range': map<Node, Range>, v: seq<Node>, lo: int, hi: int)
    requires Tile(range, v, lo, hi) && forall u | u in v && u in range :: u in range' && range'[u] == range[u]
    ensures Tile(range', v, lo, hi)
    decreases |v|
  {
    if v != [] {
      assert v[0] in v;
      TileSame(range, range', v[1..], range[v[0]].hi, hi);
    }
  }

  lemma {:induction false} TileConcat(range: map<Node, Range>, a: seq<Node>, b: seq<Node>, lo: int, mid: int, hi: int)
    requires Tile(range, a, lo, mid) && Tile(range, b, mid, hi)
    ensures Tile(range, a + b, lo, hi)
    decreases |a|
  {
    if a == [] {
      assert a + b == b;
    } else {
      assert (a + b)[1..] == a[1..] + b;
      TileConcat(range, a[1..], b, range[a[0]].hi, mid, hi);
    }
  }

  lemma {:induction false} TileSplit(range: map<Node, Range>, v: seq<Node>, k: nat, lo: int, hi: int)
    requires Tile(range, v, lo, hi) && k < |v|
    ensures v[k] in range && range[v[k]].lo < range[v[k]].hi
    ensures Tile(range, v[..k], lo, range[v[k]].lo) && Tile(range, v[k + 1..], range[v[k]].hi, hi)
    decreases k
  {
    if k > 0 {
      TileSplit(range, v[1..], k - 1, range[v[0]].hi, hi);
      assert v[..k][1..] == v[1..][..k - 1] && v[1..][k..] == v[k + 1..];
    }
  }

  // Further right means greater keys.
  lemma {:induction false} TileGrows(range: map<Node, Range>, v: seq<Node>, i: nat, lo: int, hi: int)
    requires Tile(range, v, lo, hi) && i < |v|
    ensures v[i] in range && lo <= range[v[i]].lo < range[v[i]].hi <= hi && (i > 0 ==> lo < range[v[i]].lo)
    decreases i
  {
    if i > 0 {
      TileGrows(range, v[1..], i - 1, range[v[0]].hi, hi);
    } else {
      TileAbove(range, v[1..], range[v[0]].hi, hi);
    }
  }

  lemma {:induction false} TileAbove(range: map<Node, Range>, v: seq<Node>, lo: int, hi: int)
    requires Tile(range, v, lo, hi)
    ensures lo <= hi
    decreases |v|
  {
    if v != [] {
      TileAbove(range, v[1..], range[v[0]].hi, hi);
    }
  }

  lemma SwapTiles(s: State, t: Tid, lo: int, hi: int)
    requires Inv(s) && TilesOk(s, lo, hi) && t in s.ops && Swaps(s, t)
    ensures Tile(s.range, Step(s, t).leaves, lo, hi)
  {
    hide ListOk, LinkOk, LockOk, HolderOk, PrevOk, Private, Step, Tile, Distinct;
    var op, r := s.ops[t], s.range;
    assert OpOk(s, t) && ChainTiles(s, t);
    var k := Standing(s, op.old_);
    SwapShape(s, t, k);
    TileSplit(r, s.leaves, k, lo, hi);
    TileConcat(r, s.leaves[..k], op.chain, lo, r[op.old_].lo, r[op.old_].hi);
    TileConcat(r, s.leaves[..k] + op.chain, s.leaves[k + 1..], lo, r[op.old_].hi, hi);
  }

  lemma StepTiles(s: State, a: Action, lo: int, hi: int)
    requires Inv(s) && TilesOk(s, lo, hi) && Enabled(s, a)
    ensures TilesOk(Do(s, a), lo, hi)
  {
    hide LinkOk, LockOk, HolderOk, PrevOk, Private, Tile, Distinct, StageOk, PointersOk, Inv, Step, Swaps;
    var s' := Do(s, a);
    if a.Begin? {
      BeginTiles(s, a, lo, hi);
    } else {
      StepRange(s, a.t);
      if Swaps(s, a.t) {
        SwapTiles(s, a.t, lo, hi);
      } else {
        StepLeaves(s, a.t);
      }
      StepOp(s, a.t);
      forall t | t in s'.ops ensures ChainTiles(s', t) {
        StepOps(s, a.t, t);
        assert ChainTiles(s, t);
      }
    }
  }

  lemma StepRange(s: State, t: Tid)
    requires t in s.ops
    ensures Step(s, t).range == s.range && s.next.Keys <= Step(s, t).next.Keys
  {
    hide StepOf;
  }

  lemma StepLeaves(s: State, t: Tid)
    requires t in s.ops && !Swaps(s, t)
    ensures Step(s, t).leaves == s.leaves
  {
    hide StepOf;
    var op := s.ops[t];
    if op.Replace? && op.chain != [] {
      EffectLeaves(s, t, op);
    }
  }

  lemma EffectLeaves(s: State, t: Tid, op: Op)
    requires op.Replace? && op.chain != [] && !op.stage.SetNext? && !(op.stage.ReadPrev? && s.PrevOf(op.old_) == None)
    ensures StepOf(s, t, op).leaves == s.leaves
  {
    hide Swap;
  }

  lemma StepOps(s: State, t: Tid, t1: Tid)
    requires t in s.ops
    ensures var s' := Step(s, t);
            (t1 in s'.ops <==> t1 in s.ops) && (t1 in s.ops && t1 != t ==> s'.ops[t1] == s.ops[t1])
  {
  }

  lemma StepOp(s: State, t: Tid)
    requires t in s.ops
    ensures var s' := Step(s, t);
            t in s'.ops && (s'.ops[t].Replace? ==> s.ops[t].Replace? && s'.ops[t].old_ == s.ops[t].old_ && s'.ops[t].chain == s.ops[t].chain)
  {
  }

  lemma BeginTiles(s: State, a: Action, lo: int, hi: int)
    requires Inv(s) && TilesOk(s, lo, hi) && a.Begin? && Enabled(s, a)
    ensures TilesOk(Do(s, a), lo, hi)
  {
    hide LinkOk, LockOk, HolderOk, PrevOk, Private, Tile, Distinct, StageOk, PointersOk;
    var s' := Do(s, a);
    assert forall u | u in s.range :: u in s'.range && s'.range[u] == s.range[u];
    TileSame(s.range, s'.range, s.leaves, lo, hi);
    forall t | t in s'.ops ensures ChainTiles(s', t) {
      if t == a.t {
        TileSame(a.ranges, s'.range, a.chain, s.range[a.old_].lo, s.range[a.old_].hi);
      } else {
        assert ChainTiles(s, t);
        if s.ops[t].Replace? {
          TileSame(s.range, s'.range, s.ops[t].chain, s.range[s.ops[t].old_].lo, s.range[s.ops[t].old_].hi);
        }
      }
    }
  }

  lemma {:induction false} RunKeepsInv(init: State, acts: seq<Action>, s: State, lo: int, hi: int)
    requires Initial(init, lo, hi) && Run(init, acts, s)
    ensures Inv(s) && TilesOk(s, lo, hi)
    decreases |acts|
  {
    hide Inv, TilesOk, Initial, Do, Enabled;
    if acts == [] {
      StartInv(s, lo, hi);
    } else {
      assert RunThen(init, acts[..|acts| - 1], acts[|acts| - 1], s);
      var r :| Run(init, acts[..|acts| - 1], r) && Takes(r, acts[|acts| - 1], s);
      RunKeepsInv(init, acts[..|acts| - 1], r, lo, hi);
      StepKeepsInv(r, acts[|acts| - 1]);
      StepTiles(r, acts[|acts| - 1], lo, hi);
    }
  }

  lemma StartInv(s: State, lo: int, hi: int)
    requires Initial(s, lo, hi)
    ensures Inv(s) && TilesOk(s, lo, hi)
  {
    hide Tile, PrevOk, LinkOk;
    var v := s.leaves;
    forall i | 0 <= i < |v| - 1 ensures LinkOk(s, v[i], v[i + 1]) {
      assert Linked(s, v[i], v[i + 1]);
      StartLink(s, v[i], v[i + 1]);
    }
    forall x | x in s.prev ensures PrevOk(s, x) {
      StartPrev(s, lo, hi, x);
    }
  }

  lemma StartLink(s: State, u: Node, x: Node)
    requires s.lock == map[] && Linked(s, u, x)
    ensures LinkOk(s, u, x)
  {
  }

  lemma StartPrev(s: State, lo: int, hi: int, x: Node)
    requires Initial(s, lo, hi) && x in s.prev
    ensures PrevOk(s, x)
  {
    hide Tile;
    var v := s.leaves;
    var k :| 0 <= k < |v| && v[k] == x;
    assert k > 0 ==> Linked(s, v[k - 1], v[k - 1 + 1]);
  }

  // ----- Main results -----

  // In every reachable state neighbouring leaves are linked in both directions, except at the right
  // end of a replacement between its store to the previous leaf and its store to the next one. The
  // leaves are in key order and divide the keys.
  lemma LeavesAreLinked(init: State, acts: seq<Action>, s: State, lo: int, hi: int, i: nat)
    requires Initial(init, lo, hi) && Run(init, acts, s)
    ensures Tile(s.range, s.leaves, lo, hi)
    ensures i + 1 < |s.leaves| && !Dangling(s, s.leaves[i]) && !Unset(s, s.leaves[i + 1]) ==> Linked(s, s.leaves[i], s.leaves[i + 1])
  {
    hide OpOk, LockOk, HolderOk, PrevOk, Run, Initial, Tile;
    RunKeepsInv(init, acts, s, lo, hi);
    if i + 1 < |s.leaves| {
      assert LinkOk(s, s.leaves[i], s.leaves[i + 1]);
    }
  }

  // Once no replacement is between its first and its last store, in particular when all link locks
  // are released, the next chain is the list of leaves in key order, and prev its inverse.
  lemma ReleasedList(init: State, acts: seq<Action>, s: State, lo: int, hi: int)
    requires Initial(init, lo, hi) && Run(init, acts, s)
    requires forall t | t in s.ops && s.ops[t].Replace? :: !s.ops[t].stage.Pending()
    ensures s.leaves != [] && s.PrevOf(s.leaves[0]) == None && s.NextOf(s.leaves[|s.leaves| - 1]) == None
    ensures forall i :: 0 <= i < |s.leaves| - 1 ==> Linked(s, s.leaves[i], s.leaves[i + 1])
    ensures Tile(s.range, s.leaves, lo, hi)
  {
    hide OpOk, LockOk, HolderOk, PrevOk, Run, Initial, Tile;
    RunKeepsInv(init, acts, s, lo, hi);
    forall i | 0 <= i < |s.leaves| - 1 ensures Linked(s, s.leaves[i], s.leaves[i + 1]) {
      assert LinkOk(s, s.leaves[i], s.leaves[i + 1]);
    }
  }

  // A resize releases its new leaf while it still holds the link locks: it gets to them by no other way, and
  // once it is there, the new leaf is anybody's.
  lemma ResizeReleasesFirst(init: State, acts: seq<Action>, s: State, lo: int, hi: int, t: Tid)
    requires Initial(init, lo, hi) && Run(init, acts, s) && t in s.ops
    ensures s.ops[t].Replace? && |s.ops[t].chain| == 1 ==> !s.ops[t].stage.FreePrev? && !s.ops[t].stage.FreeRight?
    ensures s.ops[t].Replace? && s.ops[t].stage.Unlock? ==>
              var b, op := Step(s, t), s.ops[t];
              |op.chain| == 1 && b.ops[t] == Freeing(op.Right(), op.p, false) && op.Right() !in b.lock && b.link == s.link && Has(b.link, t, op.Right())
  {
    hide ListOk, LockOk, HolderOk, PrevOk, Private, PointersOk, Distinct, TilesOk, Run, Initial;
    RunKeepsInv(init, acts, s, lo, hi);
    assert OpOk(s, t);
  }

  // ----- Waiting -----

  // The thread's next attempt succeeds, after reading the previous leaf afresh if it is still looking
  // for it.
  ghost predicate CanMove(s: State, t: Tid)
    requires t in s.ops
  {
    var op := s.ops[t];
    || op.Freeing?
    || (op.Replace? && op.chain != []
    && match op.stage
       case ReadPrev => s.PrevOf(op.old_).Some? ==> s.PrevOf(op.old_).value !in s.link
       case TryPrev => s.PrevOf(op.old_).Some? ==> s.PrevOf(op.old_).value !in s.link
       case LockRight => op.Right() !in s.link
       case LockOld => op.old_ !in s.link
       case _ => true)
  }

  // A thread that waits with locks held waits for its old leaf's link lock. Its holder is replacing the
  // next leaf, so that waiting points rightwards, or it is a resize that has released its new leaf and has
  // only link locks left to release: the one that has brought in the waiting thread's old leaf, or the
  // leaf behind it.
  lemma WaitsRightwards(s: State, t: Tid) returns (t2: Tid)
    requires Inv(s) && t in s.ops && s.ops[t].Replace? && s.ops[t].stage.LockOld? && s.ops[t].old_ in s.link
    ensures t2 == s.link[s.ops[t].old_] && t2 in s.ops && t2 != t && !s.ops[t2].Idle?
    ensures s.ops[t].chain != [] && (s.ops[t2].Replace? ==> s.ops[t2].stage.HoldsPrev() && s.ops[t2].chain != [])
    ensures s.ops[t2].Replace? && s.ops[t2].stage.Pending() ==>
              exists k :: 0 <= k < |s.leaves| - 1 && s.leaves[k] == s.ops[t].Right() && s.leaves[k + 1] == s.ops[t2].Left()
    ensures s.ops[t2].Freeing? ==>
              s.ops[t2].node == s.ops[t].old_ || (!s.ops[t2].prevFreed && s.ops[t2].prev == Some(s.ops[t].old_))
  {
    hide PrevOk, LockOk, Private, Distinct;
    t2 := s.link[s.ops[t].old_];
    assert OpOk(s, t) && HolderOk(s, s.ops[t].old_) && OpOk(s, t2);
    assert s.ops[t].Right() in s.ops[t].chain;
    if s.ops[t2].Replace? {
      assert s.ops[t2].Left() in s.ops[t2].chain && s.ops[t2].Right() in s.ops[t2].chain;
      if s.ops[t2].stage.Pending() {
        var j := Standing(s, s.ops[t2].Left());
        var k := Standing(s, s.ops[t].Right());
        assert k + 1 < |s.leaves| && s.leaves[k + 1] == s.ops[t2].Left();
      }
    }
  }

  // The lowest key of the leaves an operation brings in.
  ghost function At(s: State, t: Tid): int
    requires t in s.ops && s.ops[t].Replace? && s.ops[t].chain != [] && s.ops[t].Right() in s.range
  {
    s.range[s.ops[t].Right()].lo
  }

  lemma RightOf(s: State, lo: int, hi: int, t: Tid, t2: Tid, k: nat)
    requires Inv(s) && TilesOk(s, lo, hi) && t in s.ops && t2 in s.ops && s.ops[t].Replace? && s.ops[t2].Replace?
    requires s.ops[t].chain != [] && s.ops[t2].chain != [] && s.ops[t2].stage.Pending()
    requires k + 1 < |s.leaves| && s.leaves[k] == s.ops[t].Right() && s.leaves[k + 1] == s.ops[t2].Left()
    ensures s.ops[t].Right() in s.range && s.ops[t2].Right() in s.range && At(s, t) < At(s, t2) < hi
  {
    hide ListOk, LinkOk, LockOk, HolderOk, PrevOk, Private, Tile, Distinct, StageOk, PointersOk;
    var r, v, c := s.range, s.leaves, s.ops[t2].chain;
    assert ChainTiles(s, t2) && OpOk(s, t2);
    TileSplit(r, v, k, lo, hi);
    TileGrows(r, v[k + 1..], 0, r[v[k]].hi, hi);
    TileGrows(r, c, |c| - 1, r[s.ops[t2].old_].lo, r[s.ops[t2].old_].hi);
    TileGrows(r, c, 0, r[s.ops[t2].old_].lo, r[s.ops[t2].old_].hi);
    assert c[|c| - 1] in c && c[|c| - 1] in v;
    var j :| 0 <= j < |v| && v[j] == c[|c| - 1];
    TileGrows(r, v, j, lo, hi);
    FirstLow(r, c, r[s.ops[t2].old_].lo, r[s.ops[t2].old_].hi);
  }

  lemma FirstLow(range: map<Node, Range>, c: seq<Node>, lo: int, hi: int)
    requires Tile(range, c, lo, hi) && c != []
    ensures c[0] in range && range[c[0]].lo == lo
  {
  }

  // Following the waiting ends at a thread that can move: each one waited for is further right.
  lemma {:induction false} HolderMoves(s: State, lo: int, hi: int, t: Tid) returns (mover: Tid)
    requires Inv(s) && TilesOk(s, lo, hi) && t in s.ops && s.ops[t].Replace? && s.ops[t].stage.HoldsPrev() && s.ops[t].chain != []
    requires s.ops[t].Right() in s.range && At(s, t) < hi
    ensures mover in s.ops && CanMove(s, mover)
    decreases hi - At(s, t)
  {
    hide Inv, TilesOk, ListOk;
    mover := t;
    Pieces(s, t);
    if !CanMove(s, t) {
      var t2 := WaitsRightwards(s, t);
      mover := t2;
      if !CanMove(s, t2) {
        var k :| 0 <= k < |s.leaves| - 1 && s.leaves[k] == s.ops[t].Right() && s.leaves[k + 1] == s.ops[t2].Left();
        RightOf(s, lo, hi, t, t2, k);
        mover := HolderMoves(s, lo, hi, t2);
      }
    }
  }

  // A thread that holds a link lock, or waits with its new leaves in place, leads to one that can move.
  lemma InFlight(s: State, lo: int, hi: int, t: Tid) returns (mover: Tid)
    requires Inv(s) && TilesOk(s, lo, hi) && t in s.ops && s.ops[t].Replace? && !s.ops[t].stage.ReadPrev? && !s.ops[t].stage.TryPrev?
    ensures mover in s.ops && CanMove(s, mover)
  {
    hide ListOk, LinkOk, LockOk, HolderOk, PrevOk, Private, Tile, Distinct, PointersOk;
    assert OpOk(s, t) && ChainTiles(s, t);
    mover := t;
    if !CanMove(s, t) {
      var c := s.ops[t].chain;
      assert c[|c| - 1] in c && c[|c| - 1] in s.leaves;
      var j :| 0 <= j < |s.leaves| && s.leaves[j] == c[|c| - 1];
      TileGrows(s.range, s.leaves, j, lo, hi);
      mover := HolderMoves(s, lo, hi, t);
    }
  }

  // The node that owns the link to a leaf has not been replaced for good.
  lemma PrevAlive(s: State, t: Tid)
    requires Inv(s) && t in s.ops && s.ops[t].Replace? && s.ops[t].stage.Before() && s.PrevOf(s.ops[t].old_).Some?
    ensures !Replaced(s, s.PrevOf(s.ops[t].old_).value)
  {
    hide HolderOk, PrevOk, Private, Distinct, PointersOk, StageOk;
    assert OpOk(s, t);
    var k := Standing(s, s.ops[t].old_);
    assert k > 0;
    var u := s.leaves[k - 1];
    assert u in s.leaves;
    assert OpOn(s, u) ==> OpOk(s, s.lock[u]);
  }

  // While any replacement is in flight, some thread can make progress.
  lemma NoDeadlock(init: State, acts: seq<Action>, s: State, lo: int, hi: int, t: Tid) returns (mover: Tid)
    requires Initial(init, lo, hi) && Run(init, acts, s) && t in s.ops && !s.ops[t].Idle?
    ensures mover in s.ops && CanMove(s, mover)
  {
    hide Inv, TilesOk, Run, Initial;
    RunKeepsInv(init, acts, s, lo, hi);
    Pieces(s, t);
    mover := t;
    if !CanMove(s, t) {
      if s.ops[t].stage.ReadPrev? || s.ops[t].stage.TryPrev? {
        PrevAlive(s, t);
        mover := s.link[s.PrevOf(s.ops[t].old_).value];
        if !CanMove(s, mover) {
          mover := InFlight(s, lo, hi, mover);
        }
      } else {
        mover := InFlight(s, lo, hi, t);
      }
    }
  }
}
