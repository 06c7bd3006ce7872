// What readers of the leaf list see in any run.
module LeafReaders {
  import opened LeafLink

  ghost predicate Linked(s: State, u: Node, x: Node) {
    s.NextOf(u) == To(x, false) && x in s.prev && s.prev[x] == u
  }

  // A fully built list with all threads idle.
  ghost predicate Initial(s: State) {
    && |s.leaves| >= 1 && s.leaves[0] == HEAD && Distinct(s.leaves)
    && s.retired == {} && s.lock == map[] && (forall t | t in s.ops :: s.ops[t].Idle?)
    && s.next.Keys == (set u | u in s.leaves) && s.prev.Keys == s.next.Keys - {HEAD}
    && (forall i :: 0 <= i < |s.leaves| - 1 ==> Linked(s, s.leaves[i], s.leaves[i + 1]))
    && s.NextOf(s.leaves[|s.leaves| - 1]) == Null
  }

  // s is reached from init by the actions.
  ghost predicate Run(init: State, acts: seq<Action>, s: State)
    decreases |acts|, 0
  {
    if acts == [] then s == init else RunThen(init, acts[..|acts| - 1], acts[|acts| - 1], s)
  }

  ghost predicate RunThen(init: State, acts: seq<Action>, a: Action, s: State)
    decreases |acts|, 1
  {
    exists r :: Run(init, acts, r) && Takes(r, a, s)
  }

  ghost predicate Takes(r: State, a: Action, s: State) { Enabled(r, a) && s == Do(r, a) }

  lemma {:induction false} RunKeepsInv(init: State, acts: seq<Action>, s: State) returns (v: seq<Node>)
    requires Initial(init) && Run(init, acts, s)
    ensures Inv(s, v)
    decreases |acts|
  {
    if acts == [] {
      v := s.leaves;
      InitialInv(s);
    } else {
      assert RunThen(init, acts[..|acts| - 1], acts[|acts| - 1], s);
      var r :| Run(init, acts[..|acts| - 1], r) && Takes(r, acts[|acts| - 1], s);
      v := RunKeepsInv(init, acts[..|acts| - 1], r);
      v := StepKeepsInv(r, v, acts[|acts| - 1]);
    }
  }

  lemma InitialInv(s: State)
    requires Initial(s)
    ensures Inv(s, s.leaves)
  {
    var v := s.leaves;
    NoneAnnounced(s, v);
    InitialNodes(s);
    InitialList(s);
  }

  lemma InitialList(s: State)
    requires Initial(s)
    ensures ListOk(s, s.leaves) && MarksOk(s, s.leaves)
  {
    hide Distinct;
    var v := s.leaves;
    forall i | 0 <= i < |v| ensures v[i] in s.next && (s.NextOf(v[i]) == Null || !s.NextOf(v[i]).marked) {
      if i < |v| - 1 {
        assert Linked(s, v[i], v[i + 1]);
      }
    }
    forall i | 0 <= i < |v| - 1 ensures LinkOk(s, v[i], v[i + 1]) {
      assert Linked(s, v[i], v[i + 1]);
    }
  }

  lemma InitialNodes(s: State)
    requires Initial(s)
    ensures NodesOk(s, s.leaves)
  {
    hide Distinct;
    var v := s.leaves;
    forall u | u in s.prev ensures Visible(s, v, s.prev[u]) {
      assert u in v && u != HEAD;
      var i :| 0 <= i < |v| && v[i] == u;
      assert Linked(s, v[i - 1], v[i - 1 + 1]);
    }
  }

  lemma {:induction false} NoneAnnounced(s: State, v: seq<Node>)
    requires s.lock == map[]
    ensures Unannounced(s, v) == v
  {
    if v != [] {
      NoneAnnounced(s, v[1..]);
    }
  }

  // ----- What a reader sees -----

  // Following `next` from u, marks ignored, visits c and ends.
  ghost predicate WalkFrom(s: State, u: Option<Node>, c: seq<Node>)
    decreases |c|
  {
    if c == [] then u == None
    else u == Some(c[0]) && c[0] in s.next && WalkFrom(s, s.next[c[0]].Strip(), c[1..])
  }

  // There is only one walk.
  lemma {:induction false} WalkUnique(s: State, u: Option<Node>, c: seq<Node>, d: seq<Node>)
    requires WalkFrom(s, u, c) && WalkFrom(s, u, d)
    ensures c == d
    decreases |c|
  {
    if c != [] && d != [] {
      WalkUnique(s, s.next[c[0]].Strip(), c[1..], d[1..]);
    }
  }

  lemma {:induction false} WalkThroughRetired(s: State, x: Option<Node>, z: seq<Node>, y: Option<Node>, c: seq<Node>)
    requires RetiredPath(s, x, z, y) && WalkFrom(s, y, c)
    ensures WalkFrom(s, x, z + c)
    decreases |z|
  {
    if z == [] {
      assert z + c == c;
    } else {
      assert (z + c)[1..] == z[1..] + c;
      WalkThroughRetired(s, s.next[z[0]].Strip(), z[1..], y, c);
    }
  }

  // The live nodes of a walk.
  ghost function Leaves(s: State, c: seq<Node>): seq<Node> { Without(c, s.retired) }

  lemma {:induction false} WithoutRetired(s: State, z: seq<Node>, c: seq<Node>)
    requires forall u | u in z :: u in s.retired
    ensures Leaves(s, z + c) == Leaves(s, c)
  {
    if z == [] {
      assert z + c == c;
    } else {
      assert (z + c)[1..] == z[1..] + c;
      WithoutRetired(s, z[1..], c);
    }
  }

  lemma {:induction false} PathIsRetired(s: State, x: Option<Node>, z: seq<Node>, y: Option<Node>)
    requires RetiredPath(s, x, z, y)
    ensures forall u | u in z :: u in s.retired
    decreases |z|
  {
    if z != [] {
      PathIsRetired(s, s.next[z[0]].Strip(), z[1..], y);
    }
  }

  // An announced node stands right behind the node that is about to publish it.
  lemma AnnouncedAfter(s: State, v: seq<Node>, i: nat)
    requires Inv(s, v) && i < |v| && Announced(s, v[i])
    ensures i >= 1 && Publishing(s, v[i - 1]) && OpAt(s, v[i - 1]).nr == v[i] && s.lock[v[i - 1]] == s.lock[v[i]]
    ensures v[i - 1] != v[i]
  {
    hide Leftover, LinkOk, NodesOk, MarksOk, Unannounced;
    var t := s.lock[v[i]];
    assert OpOk(s, v, t);
    var j := After(s, v, t);
    OncePerNode(s, v, j + 1, i);
  }

  // No retired node hangs between the split at u and its new node.
  ghost predicate Tight(s: State, u: Node)
    requires Publishing(s, u)
  {
    OpAt(s, u).next == s.NextOf(OpAt(s, u).nr).Strip()
  }

  ghost predicate AllLive(s: State, c: seq<Node>) { forall u | u in c :: u !in s.retired }

  // The walk from v[i], constructed from the end of v backwards. An announced node is skipped;
  // behind the node that announced it come the retired nodes it has already cut off.
  lemma {:induction false} WalkOf(s: State, v: seq<Node>, i: nat) returns (c: seq<Node>)
    requires Inv(s, v) && i <= |v| && (i < |v| ==> !Announced(s, v[i]))
    ensures WalkFrom(s, if i < |v| then Some(v[i]) else None, c)
    ensures Leaves(s, c) == Unannounced(s, v[i..])
    ensures AllLive(s, c) <==> forall j :: i <= j < |v| && Publishing(s, v[j]) ==> Tight(s, v[j])
    decreases |v| - i
  {
    if i == |v| {
      c := [];
    } else if Publishing(s, v[i]) {
      var z := PublishingPiece(s, v, i);
      var d := WalkOf(s, v, i + 2);
      c := WalkPast(s, v, i, z, d);
    } else {
      PlainPiece(s, v, i);
      var d := WalkOf(s, v, i + 1);
      c := [v[i]] + d;
      assert c[1..] == d && v[i..][1..] == v[i + 1..];
    }
  }

  lemma PlainPiece(s: State, v: seq<Node>, i: nat)
    requires Inv(s, v) && i < |v| && !Announced(s, v[i]) && !Publishing(s, v[i])
    ensures v[i] in s.next && v[i] !in s.retired
    ensures s.next[v[i]].Strip() == if i + 1 < |v| then Some(v[i + 1]) else None
    ensures i + 1 < |v| ==> !Announced(s, v[i + 1])
  {
    hide Leftover, LocksOk, OpsOk, NodesOk, MarksOk, Unannounced, Distinct;
    if i + 1 < |v| {
      assert LinkOk(s, v[i], v[i + 1]);
      if Announced(s, v[i + 1]) {
        AnnouncedAfter(s, v, i + 1);
      }
    }
  }

  lemma PublishingPiece(s: State, v: seq<Node>, i: nat) returns (z: seq<Node>)
    requires Inv(s, v) && i < |v| && Publishing(s, v[i]) && !Announced(s, v[i])
    ensures i + 1 < |v| && Announced(s, v[i + 1]) && !Publishing(s, v[i + 1])
    ensures v[i] in s.next && v[i] !in s.retired
    ensures i + 2 < |v| ==> !Announced(s, v[i + 2])
    ensures RetiredPath(s, s.next[v[i]].Strip(), z, if i + 2 < |v| then Some(v[i + 2]) else None)
    ensures z == [] <==> Tight(s, v[i])
  {
    hide LocksOk, NodesOk, MarksOk, Unannounced, Distinct, RetiredPath;
    var t := s.lock[v[i]];
    assert OpOk(s, v, t);
    assert LinkOk(s, v[i], v[i + 1]);
    if i + 2 < |v| {
      assert LinkOk(s, v[i + 1], v[i + 2]);
      if Announced(s, v[i + 2]) {
        AnnouncedAfter(s, v, i + 2);
      }
    }
    z :| RetiredPath(s, s.ops[t].next, z, s.NextOf(s.ops[t].nr).Strip());
    TightPath(s, s.ops[t].next, z, s.NextOf(s.ops[t].nr).Strip());
  }

  lemma TightPath(s: State, x: Option<Node>, z: seq<Node>, y: Option<Node>)
    requires RetiredPath(s, x, z, y) && (y.Some? ==> y.value !in s.retired)
    ensures z == [] <==> x == y
  {
  }

  lemma WalkPast(s: State, v: seq<Node>, i: nat, z: seq<Node>, d: seq<Node>) returns (c: seq<Node>)
    requires i + 1 < |v| && v[i] in s.next && v[i] !in s.retired
    requires !Announced(s, v[i]) && Announced(s, v[i + 1]) && Publishing(s, v[i]) && !Publishing(s, v[i + 1])
    requires RetiredPath(s, s.next[v[i]].Strip(), z, if i + 2 < |v| then Some(v[i + 2]) else None)
    requires z == [] <==> Tight(s, v[i])
    requires WalkFrom(s, if i + 2 < |v| then Some(v[i + 2]) else None, d)
    requires Leaves(s, d) == Unannounced(s, v[i + 2..])
    requires AllLive(s, d) <==> forall j :: i + 2 <= j < |v| && Publishing(s, v[j]) ==> Tight(s, v[j])
    ensures WalkFrom(s, Some(v[i]), c)
    ensures Leaves(s, c) == Unannounced(s, v[i..])
    ensures AllLive(s, c) <==> forall j :: i <= j < |v| && Publishing(s, v[j]) ==> Tight(s, v[j])
  {
    c := [v[i]] + (z + d);
    assert c[1..] == z + d;
    PathIsRetired(s, s.next[v[i]].Strip(), z, if i + 2 < |v| then Some(v[i + 2]) else None);
    WalkThroughRetired(s, s.next[v[i]].Strip(), z, if i + 2 < |v| then Some(v[i + 2]) else None, d);
    WithoutRetired(s, z, d);
    assert v[i..][1..] == v[i + 1..] && v[i + 1..][1..] == v[i + 2..];
    if z != [] {
      assert z[0] in c;
    } else {
      assert c == [v[i]] + d;
    }
  }

  lemma {:induction false} WithoutAll(c: seq<Node>, gone: set<Node>)
    ensures |Without(c, gone)| <= |c|
    ensures Without(c, gone) == c <==> forall u | u in c :: u !in gone
  {
    if c != [] {
      WithoutAll(c[1..], gone);
    }
  }

  // ----- Main results -----

  // In every reachable state a reader starting at HEAD gets to the end, and what it visits is the
  // abstract leaf list plus retired nodes. It is exactly the leaf list if and only if no split
  // between its last two stores has cut off a node in the meantime.
  lemma ReaderSeesLeaves(init: State, acts: seq<Action>, s: State) returns (c: seq<Node>)
    requires Initial(init) && Run(init, acts, s)
    ensures WalkFrom(s, Some(HEAD), c) && Leaves(s, c) == s.leaves
    ensures c == s.leaves <==>
            forall t | t in s.ops && s.ops[t].SplitPublish? :: s.ops[t].next == s.NextOf(s.ops[t].nr).Strip()
  {
    hide ListOk, OpsOk, LocksOk, NodesOk, MarksOk, Unannounced;
    var v := RunKeepsInv(init, acts, s);
    HeadVisible(s, v);
    c := WalkOf(s, v, 0);
    assert v[0..] == v;
    WithoutAll(c, s.retired);
    TightEverywhere(s, v);
  }

  lemma HeadVisible(s: State, v: seq<Node>)
    requires Inv(s, v)
    ensures |v| >= 1 && v[0] == HEAD && !Announced(s, v[0])
  {
    if Announced(s, v[0]) {
      AnnouncedAfter(s, v, 0);
    }
  }

  lemma TightEverywhere(s: State, v: seq<Node>)
    requires Inv(s, v)
    ensures (forall j :: 0 <= j < |v| && Publishing(s, v[j]) ==> Tight(s, v[j])) <==>
            (forall t | t in s.ops && s.ops[t].SplitPublish? :: s.ops[t].next == s.NextOf(s.ops[t].nr).Strip())
  {
    hide ListOk, NodesOk, MarksOk, Unannounced, Leftover;
    if forall j :: 0 <= j < |v| && Publishing(s, v[j]) ==> Tight(s, v[j]) {
      forall t | t in s.ops && s.ops[t].SplitPublish? ensures s.ops[t].next == s.NextOf(s.ops[t].nr).Strip() {
        assert OpOk(s, v, t);
        var j :| 0 <= j < |v| && v[j] == s.ops[t].n;
        assert Publishing(s, v[j]);
      }
    }
  }

  // With no operation in flight the walk is the leaf list, no link is marked, and prev is the
  // inverse of next.
  lemma QuiescentList(init: State, acts: seq<Action>, s: State)
    requires Initial(init) && Run(init, acts, s) && forall t | t in s.ops :: s.ops[t].Idle?
    ensures WalkFrom(s, Some(HEAD), s.leaves)
    ensures forall i :: 0 <= i < |s.leaves| - 1 ==> Linked(s, s.leaves[i], s.leaves[i + 1])
    ensures |s.leaves| >= 1 && s.leaves[0] == HEAD && s.NextOf(s.leaves[|s.leaves| - 1]) == Null
  {
    var c := ReaderSeesLeaves(init, acts, s);
    var v := RunKeepsInv(init, acts, s);
    QuiescentInv(s, v);
  }

  lemma QuiescentInv(s: State, v: seq<Node>)
    requires Inv(s, v) && forall t | t in s.ops :: s.ops[t].Idle?
    ensures s.leaves == v
    ensures forall i :: 0 <= i < |v| - 1 ==> Linked(s, v[i], v[i + 1])
    ensures |v| >= 1 && v[0] == HEAD && s.NextOf(v[|v| - 1]) == Null
  {
    hide Unannounced, OpsOk, NodesOk;
    assert forall u :: u in s.lock ==> LockOk(s, u) && false;
    assert s.lock == map[];
    NoneAnnounced(s, v);
    forall i | 0 <= i < |v| - 1 ensures Linked(s, v[i], v[i + 1]) {
      assert LinkOk(s, v[i], v[i + 1]);
    }
  }

  // ----- When a delete takes effect -----

  lemma {:induction false} WalkSuffix(s: State, u: Option<Node>, c: seq<Node>, i: nat)
    requires WalkFrom(s, u, c) && i < |c|
    ensures WalkFrom(s, Some(c[i]), c[i..])
    decreases i
  {
    if i > 0 {
      WalkSuffix(s, s.next[c[0]].Strip(), c[1..], i - 1);
      assert c[1..][i - 1..] == c[i..];
    }
  }

  // A walk that ends meets no node twice.
  lemma WalkOnce(s: State, u: Option<Node>, c: seq<Node>, i: nat, j: nat)
    requires WalkFrom(s, u, c) && i < j < |c|
    ensures c[i] != c[j]
  {
    WalkSuffix(s, u, c, i);
    WalkSuffix(s, u, c, j);
    if c[i] == c[j] {
      WalkUnique(s, Some(c[i]), c[i..], c[j..]);
    }
  }

  lemma {:induction false} WalkStays(s: State, s': State, u: Option<Node>, c: seq<Node>)
    requires WalkFrom(s, u, c)
    requires forall x | x in c && x in s.next :: x in s'.next && s'.next[x].Strip() == s.next[x].Strip()
    ensures WalkFrom(s', u, c)
    decreases |c|
  {
    if c != [] {
      WalkStays(s, s', s.next[c[0]].Strip(), c[1..]);
    }
  }

  // Storing n's successor in the node before n takes n, and nothing else, out of the walk.
  lemma {:induction false} WalkBypass(s: State, s': State, u: Option<Node>, c: seq<Node>, n: Node, p: Node)
    requires WalkFrom(s, u, c) && p in c && p in s.next && n in s.next && s.next[p].Strip() == Some(n)
    requires s'.next == s.next[p := Unmarked(s.next[n].Strip())]
    ensures n in c && WalkFrom(s', u, Without(c, {n}))
    decreases |c|
  {
    var rest := c[1..];
    if c[0] == p {
      assert rest[0] == n && c[1] == n;
      forall i | 2 <= i < |c| ensures c[i] != p && c[i] != n {
        WalkOnce(s, u, c, 0, i);
        WalkOnce(s, u, c, 1, i);
      }
      WalkOnce(s, u, c, 0, 1);
      WithoutNone(rest[1..], n);
      WalkStays(s, s', s.next[n].Strip(), rest[1..]);
      assert Without(c, {n}) == [p] + rest[1..];
      assert ([p] + rest[1..])[1..] == rest[1..];
    } else {
      WalkBypass(s, s', s.next[c[0]].Strip(), rest, n, p);
      var j :| 0 <= j < |rest| && rest[j] == n;
      WalkOnce(s, u, c, 0, j + 1);
      assert ([c[0]] + Without(rest, {n}))[1..] == Without(rest, {n});
    }
  }

  lemma {:induction false} InLeaves(s: State, c: seq<Node>, u: Node)
    ensures u in Leaves(s, c) <==> u in c && u !in s.retired
  {
    if c != [] {
      InLeaves(s, c[1..], u);
    }
  }

  // The final store of an unlink takes the node out of what readers visit if and only if the
  // predecessor it found is not the new node of a split that has still to be published. Otherwise
  // the store changes nothing for a reader: the node goes when that split is published.
  lemma UnlinkTakesEffect(init: State, acts: seq<Action>, s: State, t: Tid, c: seq<Node>)
    requires Initial(init) && Run(init, acts, s) && t in s.ops && s.ops[t].UnlinkStore?
    requires WalkFrom(s, Some(HEAD), c)
    ensures s.ops[t].n in c
    ensures WalkFrom(AdvanceThread(s, t), Some(HEAD), if Announced(s, s.ops[t].prev) then c else Without(c, {s.ops[t].n}))
  {
    hide Announced, RetiredPath, Unannounced;
    var op, s' := s.ops[t], AdvanceThread(s, t);
    var v := RunKeepsInv(init, acts, s);
    var d := ReaderSeesLeaves(init, acts, s);
    WalkUnique(s, Some(HEAD), c, d);
    StoreFacts(s, v, t);
    InLeaves(s, c, op.prev);
    InLeaves(s, c, op.n);
    UnannouncedMembers(s, v, op.prev);
    UnannouncedMembers(s, v, op.n);
    if Announced(s, op.prev) {
      WalkStays(s, s', Some(HEAD), c);
    } else {
      WalkBypass(s, s', Some(HEAD), c, op.n, op.prev);
    }
  }

  lemma StoreFacts(s: State, v: seq<Node>, t: Tid)
    requires Inv(s, v) && t in s.ops && s.ops[t].UnlinkStore?
    ensures var op := s.ops[t];
            && op.n in v && op.prev in v && op.n in s.next && op.prev in s.next
            && op.n !in s.retired && op.prev !in s.retired && !Announced(s, op.n)
            && s.next[op.prev].Strip() == Some(op.n) && s.next[op.n].Strip() == op.next
  {
    hide Leftover, LinkOk, NodesOk, MarksOk, Unannounced, Distinct;
    assert OpOk(s, v, t);
  }

  lemma {:induction false} UnannouncedMembers(s: State, v: seq<Node>, u: Node)
    ensures u in Unannounced(s, v) <==> u in v && !Announced(s, u)
  {
    if v != [] {
      UnannouncedMembers(s, v[1..], u);
    }
  }

  lemma RunOn(init: State, acts: seq<Action>, r: State, a: Action, s: State)
    requires Run(init, acts, r) && Takes(r, a, s)
    ensures Run(init, acts + [a], s)
  {
    hide Takes;
    assert (acts + [a])[..|acts|] == acts;
    assert RunThen(init, acts, a, s);
  }

  // A finished delete that readers still see. Thread 0 splits leaf 0 and has made its new node 3 the
  // predecessor of leaf 1, but has not published it; thread 1 unlinks leaf 1 through node 3.
  lemma DeletedLeafStillSeen() returns (init: State, acts: seq<Action>, s: State)
    ensures Initial(init) && Run(init, acts, s)
    ensures 1 in s.ops && s.ops[1].Idle? && s.leaves == [0, 2] && WalkFrom(s, Some(HEAD), [0, 1, 2])
  {
    hide Run, Initial;
    init, acts, s := Scene(0), SCRIPT, Scene(11);
    ScriptStarts();
    ScriptRuns(11);
    assert SCRIPT[..11] == SCRIPT;
    SeesThree(s);
  }

  const SCRIPT: seq<Action> := [
    BeginSplit(0, 0, 3), Advance(0), Advance(0), Advance(0), Advance(0),
    BeginUnlink(1, 1), Advance(1), Advance(1), Advance(1), Advance(1), Advance(1)]

  // The state before each action of the script, and after the last.
  ghost function Scene(i: nat): State
    requires i <= 11
  {
    State(
      var next := map[0 := To(1, i >= 3), 1 := To(2, i >= 7), 2 := Null];
      if i == 0 then next
      else next[3 := if i < 4 then Null else if i < 9 then To(1, false) else if i < 11 then To(1, true) else To(2, false)],
      var prev := map[1 := if i < 5 then 0 else 3, 2 := if i < 10 then 1 else 3];
      if i < 2 then prev else prev[3 := 0],
      if i == 0 then map[] else if i < 6 || i == 11 then map[0 := 0, 3 := 0] else map[0 := 0, 3 := 0, 1 := 1],
      map[0 := FirstOp(i), 1 := SecondOp(i)],
      if i < 11 then [0, 1, 2] else [0, 2],
      if i < 11 then {} else {1})
  }

  ghost function FirstOp(i: nat): Op {
    if i == 0 then Idle
    else if i == 1 then SplitStart(0, 3)
    else if i == 2 then SplitLock(0, 3)
    else if i == 3 then SplitSetNext(0, 3, Some(1))
    else if i == 4 then SplitSetPrev(0, 3, Some(1))
    else SplitPublish(0, 3, Some(1))
  }

  ghost function SecondOp(i: nat): Op {
    if i < 6 || i == 11 then Idle
    else if i == 6 then UnlinkLock(1)
    else if i == 7 then UnlinkReadPrev(1, Some(2))
    else if i == 8 then UnlinkCas(1, Some(2), 3)
    else if i == 9 then UnlinkSetPrev(1, Some(2), 3)
    else UnlinkStore(1, Some(2), 3)
  }

  lemma ScriptStarts()
    ensures Initial(Scene(0))
  {
    assert Linked(Scene(0), 0, 1) && Linked(Scene(0), 1, 2);
  }

  lemma {:induction false} ScriptRuns(i: nat)
    requires i <= 11
    ensures Run(Scene(0), SCRIPT[..i], Scene(i))
  {
    if i > 0 {
      hide Scene, Takes, Do, Enabled, RunThen;
      ScriptRuns(i - 1);
      ScriptStep(i - 1);
      RunOn(Scene(0), SCRIPT[..i - 1], Scene(i - 1), SCRIPT[i - 1], Scene(i));
      assert SCRIPT[..i - 1] + [SCRIPT[i - 1]] == SCRIPT[..i];
    }
  }

  lemma ScriptStep(i: nat)
    requires i < 11
    ensures Takes(Scene(i), SCRIPT[i], Scene(i + 1))
  {
    if i < 3 {
      SplitScript(i);
    } else if i < 5 {
      NewNodeScript(i);
    } else if i < 7 {
      UnlinkScript(i);
    } else if i < 9 {
      PrevScript(i);
    } else {
      StoreScript(i);
    }
  }

  lemma SplitScript(i: nat)
    requires i < 3
    ensures Takes(Scene(i), SCRIPT[i], Scene(i + 1))
  {
    assert Do(Scene(i), SCRIPT[i]) == Scene(i + 1);
  }

  lemma NewNodeScript(i: nat)
    requires 3 <= i < 5
    ensures Takes(Scene(i), SCRIPT[i], Scene(i + 1))
  {
    assert Do(Scene(i), SCRIPT[i]) == Scene(i + 1);
  }

  lemma UnlinkScript(i: nat)
    requires 5 <= i < 7
    ensures Takes(Scene(i), SCRIPT[i], Scene(i + 1))
  {
    assert Do(Scene(i), SCRIPT[i]) == Scene(i + 1);
  }

  lemma PrevScript(i: nat)
    requires 7 <= i < 9
    ensures Takes(Scene(i), SCRIPT[i], Scene(i + 1))
  {
    assert Do(Scene(i), SCRIPT[i]) == Scene(i + 1);
  }

  lemma StoreScript(i: nat)
    requires 9 <= i < 11
    ensures Takes(Scene(i), SCRIPT[i], Scene(i + 1))
  {
    assert Without([0, 1, 2], {1}) == [0, 2] by {
      assert [0, 1, 2][1..] == [1, 2] && [1, 2][1..] == [2] && [2][1..] == [];
    }
    assert Do(Scene(i), SCRIPT[i]) == Scene(i + 1);
  }

  lemma SeesThree(s: State)
    requires s.next == map[0 := To(1, true), 1 := To(2, true), 2 := Null, 3 := To(2, false)]
    ensures WalkFrom(s, Some(HEAD), [0, 1, 2])
  {
    assert WalkFrom(s, None, []);
    assert [2][1..] == [] && WalkFrom(s, Some(2), [2]);
    assert [1, 2][1..] == [2] && WalkFrom(s, Some(1), [1, 2]);
    assert [0, 1, 2][1..] == [1, 2];
  }

  // ----- No set of operations blocks itself -----

  // The thread's next attempt succeeds: the link to lock is unmarked, or a fresh read of prev
  // followed by the compare-and-swap gets through.
  ghost predicate CanMove(s: State, t: Tid)
    requires t in s.ops
  {
    match s.ops[t]
    case Idle => false
    case SplitLock(n, _) => s.NextOf(n) == Null || !s.NextOf(n).marked
    case UnlinkLock(n) => s.NextOf(n) == Null || !s.NextOf(n).marked
    case UnlinkReadPrev(n, _) => s.NextOf(s.PrevOf(n)) == To(n, false)
    case UnlinkCas(n, _, _) => s.NextOf(s.PrevOf(n)) == To(n, false)
    case _ => true
  }

  // A blocked operation waits for its own link's holder, which can move, or for one further left.
  lemma {:induction false} LeftmostMoves(s: State, v: seq<Node>, i: nat) returns (t: Tid)
    requires Inv(s, v) && i < |v| && OpOn(s, v[i])
    ensures t in s.ops && CanMove(s, t)
    decreases i
  {
    t := s.lock[v[i]];
    if !CanMove(s, t) {
      if s.ops[t].SplitLock? || s.ops[t].UnlinkLock? {
        t := LockHolder(s, v, i);
      } else {
        var left, t1 := PrevHolder(s, v, i);
        t := t1;
        if left {
          t := LeftmostMoves(s, v, i - 1);
        }
      }
    }
  }

  lemma LockHolder(s: State, v: seq<Node>, i: nat) returns (t: Tid)
    requires Inv(s, v) && i < |v| && OpOn(s, v[i]) && (OpAt(s, v[i]).SplitLock? || OpAt(s, v[i]).UnlinkLock?)
    requires !CanMove(s, s.lock[v[i]])
    ensures t in s.ops && CanMove(s, t)
  {
    hide ListOk, OpsOk, LocksOk, NodesOk, Unannounced;
    assert Held(s, v[i]);
    t := s.lock[s.NextOf(v[i]).node];
  }

  lemma PrevHolder(s: State, v: seq<Node>, i: nat) returns (left: bool, t: Tid)
    requires Inv(s, v) && i < |v| && OpOn(s, v[i]) && (OpAt(s, v[i]).UnlinkReadPrev? || OpAt(s, v[i]).UnlinkCas?)
    requires !CanMove(s, s.lock[v[i]])
    ensures left ==> i >= 1 && OpOn(s, v[i - 1])
    ensures !left ==> t in s.ops && CanMove(s, t)
  {
    hide NodesOk, Unannounced, Distinct, Leftover;
    t := s.lock[v[i]];
    assert OpOk(s, v, t);
    assert i >= 1;
    assert LinkOk(s, v[i - 1], v[i - 1 + 1]);
    left := true;
  }

  // While any operation is in flight, some thread can make progress.
  lemma NoDeadlock(init: State, acts: seq<Action>, s: State, t0: Tid) returns (t: Tid)
    requires Initial(init) && Run(init, acts, s) && t0 in s.ops && !s.ops[t0].Idle?
    ensures t in s.ops && CanMove(s, t)
  {
    hide ListOk, LocksOk, NodesOk, MarksOk, Unannounced;
    var v := RunKeepsInv(init, acts, s);
    assert OpOk(s, v, t0);
    var i :| 0 <= i < |v| && v[i] == s.ops[t0].n;
    t := LeftmostMoves(s, v, i);
  }
}
