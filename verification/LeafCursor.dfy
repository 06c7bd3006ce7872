// Readers among changes.
module LeafCursor {
  // A reader stands on a node and loads its `next` field, marks ignored, between any two steps of the
  // threads that split and unlink.

  import opened LeafLink
  import opened LeafReaders

  // The retired nodes in the order in which they were unlinked: each leads to a leaf, to one that was
  // unlinked later, or to the end.
  ghost predicate InOrder(s: State, order: seq<Node>) {
    && (forall u :: u in order <==> u in s.retired)
    && forall i: nat :: i < |order| ==> order[i] in s.next && LeadsOn(s, order, i)
  }

  ghost predicate LeadsOn(s: State, order: seq<Node>, i: nat)
    requires i < |order|
  {
    var y := s.NextOf(order[i]).Strip();
    y.Some? ==> y.value in s.leaves || Later(order, i, y.value)
  }

  ghost predicate Later(order: seq<Node>, i: nat, u: Node) { exists j :: i < j < |order| && order[j] == u }

  // What a step does to the nodes that matter to a reader.
  ghost predicate Keeps(s: State, s': State, n: seq<Node>) {
    && (forall u :: u in s'.retired <==> u in s.retired || u in n)
    && (forall u :: u in s.leaves ==> u in s'.leaves || u in n)
    && (forall u | u in s.retired :: u in s'.next && s'.NextOf(u).Strip() == s.NextOf(u).Strip())
  }

  lemma {:induction false} InsertKeeps(s: seq<Node>, n: Node, x: Node)
    ensures forall u :: u in s ==> u in InsertAfter(s, n, x)
  {
    if s != [] && s[0] != n {
      InsertKeeps(s[1..], n, x);
      forall u | u in s ensures u in InsertAfter(s, n, x) {
        assert u == s[0] || u in s[1..];
      }
    }
  }

  lemma {:induction false} WithoutKeeps(s: seq<Node>, n: Node)
    ensures forall u :: u in s && u != n ==> u in Without(s, {n})
  {
    if s != [] {
      WithoutKeeps(s[1..], n);
      forall u | u in s && u != n ensures u in Without(s, {n}) {
        assert u == s[0] || u in s[1..];
      }
    }
  }

  // The nodes a step retires.
  ghost function Retires(s: State, a: Action): seq<Node>
    requires Enabled(s, a)
  {
    if a.Advance? && s.ops[a.t].UnlinkStore? then [s.ops[a.t].n] else []
  }

  lemma StepKeeps(s: State, v: seq<Node>, a: Action)
    requires Inv(s, v) && Enabled(s, a)
    ensures Keeps(s, Do(s, a), Retires(s, a))
  {
    hide ListOk, LocksOk, NodesOk, MarksOk, Unannounced;
    RetiredThere(s, v);
    if a.Advance? {
      assert OpOk(s, v, a.t);
      if !s.ops[a.t].Idle? { LiveNodes(s, v, a.t); }
      var op := s.ops[a.t];
      if op.SplitPublish? { InsertKeeps(s.leaves, op.n, op.nr); }
      if op.UnlinkStore? { WithoutKeeps(s.leaves, op.n); }
      AdvanceKeeps(s, v, a.t);
    }
  }

  lemma RetiredThere(s: State, v: seq<Node>)
    requires Inv(s, v)
    ensures forall u | u in s.retired :: u in s.next
  {
    hide ListOk, LocksOk, OpsOk, MarksOk, Unannounced;
  }

  // A thread's own nodes are not retired.
  lemma LiveNodes(s: State, v: seq<Node>, t: Tid)
    requires Inv(s, v) && t in s.ops && !s.ops[t].Idle?
    ensures OpOk(s, v, t) && s.ops[t].n !in s.retired && (s.ops[t].IsSplit() ==> s.ops[t].nr !in s.retired)
    ensures s.ops[t].HoldsPrev() ==> s.ops[t].prev !in s.retired
  {
    hide LocksOk, NodesOk, MarksOk, Unannounced, LinkOk, Leftover;
    assert OpOk(s, v, t);
  }

  lemma AdvanceKeeps(s: State, v: seq<Node>, t: Tid)
    requires t in s.ops && OpOk(s, v, t) && (forall u | u in s.retired :: u in s.next)
    requires !s.ops[t].Idle? ==> s.ops[t].n !in s.retired && (s.ops[t].IsSplit() ==> s.ops[t].nr !in s.retired)
    requires !s.ops[t].Idle? && s.ops[t].HoldsPrev() ==> s.ops[t].prev !in s.retired
    requires s.ops[t].SplitPublish? ==> forall u :: u in s.leaves ==> u in InsertAfter(s.leaves, s.ops[t].n, s.ops[t].nr)
    requires s.ops[t].UnlinkStore? ==> forall u :: u in s.leaves && u != s.ops[t].n ==> u in Without(s.leaves, {s.ops[t].n})
    ensures Keeps(s, AdvanceThread(s, t), Retires(s, Advance(t)))
  {
    hide InsertAfter, Without, Leftover;
  }

  lemma StepInOrder(s: State, v: seq<Node>, order: seq<Node>, a: Action) returns (order': seq<Node>)
    requires Inv(s, v) && Enabled(s, a) && InOrder(s, order)
    ensures InOrder(Do(s, a), order')
  {
    hide Inv, AdvanceThread;
    var s', n := Do(s, a), Retires(s, a);
    StepKeeps(s, v, a);
    order' := order + n;
    if n != [] {
      RetiredLeads(s, v, a.t);
    }
    forall i: nat | i < |order'| ensures order'[i] in s'.next && LeadsOn(s', order', i) {
      if i < |order| {
        assert order[i] in s.retired && LeadsOn(s, order, i);
        OrderStays(s, s', order, n, i);
      }
    }
  }

  lemma OrderStays(s: State, s': State, order: seq<Node>, n: seq<Node>, i: nat)
    requires Keeps(s, s', n) && i < |order| && order[i] in s.retired && LeadsOn(s, order, i)
    ensures LeadsOn(s', order + n, i) && order[i] in s'.next
  {
    var y := s.NextOf(order[i]).Strip();
    if y.Some? && y.value !in s'.leaves {
      if y.value in s.leaves {
        var k :| 0 <= k < |n| && n[k] == y.value;
        assert (order + n)[|order| + k] == y.value;
      } else {
        var j :| i < j < |order| && order[j] == y.value;
        assert (order + n)[j] == y.value;
      }
    }
  }

  // The node that is unlinked leads to a leaf or to the end.
  lemma RetiredLeads(s: State, v: seq<Node>, t: Tid)
    requires Inv(s, v) && t in s.ops && s.ops[t].UnlinkStore?
    ensures var n, s' := s.ops[t].n, AdvanceThread(s, t); var y := s'.NextOf(n).Strip();
            n in s'.next && (y.Some? ==> y.value in s'.leaves)
  {
    hide ListOk, LocksOk, OpsOk, NodesOk, MarksOk, Unannounced;
    var n := s.ops[t].n;
    StoreFacts(s, v, t);
    var i :| 0 <= i < |v| && v[i] == n;
    NotPublishing(s, v, t);
    PlainPiece(s, v, i);
    AfterStore(s, v, t);
    if i + 1 < |v| {
      UnannouncedMembers(s, v, v[i + 1]);
      NextDiffers(s, v, i);
      WithoutKeeps(s.leaves, n);
    }
  }

  lemma NotPublishing(s: State, v: seq<Node>, t: Tid)
    requires Inv(s, v) && t in s.ops && s.ops[t].UnlinkStore?
    ensures !Publishing(s, s.ops[t].n)
  {
    hide ListOk, LocksOk, NodesOk, MarksOk, Unannounced, Leftover;
    assert OpOk(s, v, t);
  }

  lemma AfterStore(s: State, v: seq<Node>, t: Tid)
    requires Inv(s, v) && t in s.ops && s.ops[t].UnlinkStore?
    ensures var s', op := AdvanceThread(s, t), s.ops[t];
            s'.leaves == Without(s.leaves, {op.n}) && (op.n in s.next ==> op.n in s'.next) && s'.NextOf(op.n) == s.NextOf(op.n)
  {
    hide ListOk, LocksOk, NodesOk, MarksOk, Unannounced, Leftover, Without;
    assert OpOk(s, v, t);
    var k := Before(s, v, t);
    StoreFacts(s, v, t);
    assert s.next[s.ops[t].prev].Strip() == Some(s.ops[t].n);
    PrevDiffers(s, v, k);
  }

  lemma PrevDiffers(s: State, v: seq<Node>, k: nat)
    requires ListOk(s, v) && k + 1 < |v|
    ensures v[k] != v[k + 1]
  {
  }

  lemma NextDiffers(s: State, v: seq<Node>, i: nat)
    requires Inv(s, v) && i + 1 < |v|
    ensures v[i] != v[i + 1]
  {
  }

  // ----- From any node the way leads back to the leaves -----

  // A leaf, or a node that was one.
  ghost predicate Listed(s: State, u: Node) { u in s.leaves || u in s.retired }

  lemma LeafWalk(s: State, v: seq<Node>, u: Node) returns (c: seq<Node>)
    requires Inv(s, v) && u in s.leaves
    ensures WalkFrom(s, Some(u), c)
  {
    hide ListOk, LocksOk, OpsOk, NodesOk, MarksOk, Unannounced;
    UnannouncedMembers(s, v, u);
    var i :| 0 <= i < |v| && v[i] == u;
    c := WalkOf(s, v, i);
  }

  lemma {:induction false} RetiredWalk(s: State, v: seq<Node>, order: seq<Node>, i: nat) returns (c: seq<Node>)
    requires Inv(s, v) && InOrder(s, order) && i < |order|
    ensures WalkFrom(s, Some(order[i]), c)
    decreases |order| - i
  {
    hide Inv;
    assert order[i] in s.next && LeadsOn(s, order, i);
    var y, d := s.NextOf(order[i]).Strip(), [];
    if y.Some? {
      if y.value in s.leaves {
        d := LeafWalk(s, v, y.value);
      } else {
        var j :| i < j < |order| && order[j] == y.value;
        d := RetiredWalk(s, v, order, j);
      }
    }
    c := [order[i]] + d;
    assert c[1..] == d;
  }

  // ----- A reader between the steps -----

  // `at` is the node the reader stands on, if it has not come to the end.
  datatype Reading = Reading(s: State, at: Option<Node>)

  datatype Move = Writer(a: Action) | Load

  ghost predicate Moves(p: Reading, m: Move, p': Reading) {
    match m
    case Writer(a) => Takes(p.s, a, p'.s) && p'.at == p.at
    case Load => p'.s == p.s && p.at.Some? && p'.at == p.s.NextOf(p.at.value).Strip()
  }

  ghost predicate ReadRun(init: State, ms: seq<Move>, p: Reading)
    decreases |ms|, 0
  {
    if ms == [] then p == Reading(init, Some(HEAD)) else ReadRunThen(init, ms[..|ms| - 1], ms[|ms| - 1], p)
  }

  ghost predicate ReadRunThen(init: State, ms: seq<Move>, m: Move, p: Reading)
    decreases |ms|, 1
  {
    exists r :: ReadRun(init, ms, r) && Moves(r, m, p)
  }

  ghost predicate ReaderOk(p: Reading) { p.at.Some? ==> p.at.value in p.s.next && Listed(p.s, p.at.value) }

  // From a leaf or a retired node a load leads to a leaf, to a retired node, or to the end.
  lemma LoadListed(s: State, v: seq<Node>, order: seq<Node>, u: Node)
    requires Inv(s, v) && InOrder(s, order) && Listed(s, u)
    ensures ReaderOk(Reading(s, s.NextOf(u).Strip()))
  {
    hide Inv;
    if u in s.retired {
      var i :| 0 <= i < |order| && order[i] == u;
      assert LeadsOn(s, order, i);
      var y := s.NextOf(u).Strip();
      if y.Some? {
        if y.value in s.leaves { LeafAllocated(s, v, y.value); }
      }
    } else {
      LeafLoad(s, v, u);
    }
  }

  lemma LeafAllocated(s: State, v: seq<Node>, u: Node)
    requires Inv(s, v) && u in s.leaves
    ensures u in s.next && u in v && !Announced(s, u)
  {
    hide LocksOk, OpsOk, NodesOk, MarksOk, LinkOk, Unannounced, Distinct;
    UnannouncedMembers(s, v, u);
  }

  lemma LeafLoad(s: State, v: seq<Node>, u: Node)
    requires Inv(s, v) && u in s.leaves
    ensures ReaderOk(Reading(s, s.NextOf(u).Strip()))
  {
    hide ListOk, LocksOk, OpsOk, NodesOk, MarksOk, Unannounced;
    LeafAllocated(s, v, u);
    var i :| 0 <= i < |v| && v[i] == u;
    if Publishing(s, u) {
      var z := PublishingPiece(s, v, i);
      if z == [] {
        if i + 2 < |v| {
          UnannouncedMembers(s, v, v[i + 2]);
          LeafAllocated(s, v, v[i + 2]);
        }
      }
    } else {
      PlainPiece(s, v, i);
      if i + 1 < |v| {
        UnannouncedMembers(s, v, v[i + 1]);
        LeafAllocated(s, v, v[i + 1]);
      }
    }
  }

  lemma {:induction false} ReadRunKeeps(init: State, ms: seq<Move>, p: Reading) returns (v: seq<Node>, order: seq<Node>)
    requires Initial(init) && ReadRun(init, ms, p)
    ensures Inv(p.s, v) && InOrder(p.s, order) && ReaderOk(p)
    decreases |ms|
  {
    hide Inv, Do, Enabled, InOrder, ReaderOk;
    if ms == [] {
      v, order := init.leaves, [];
      InitialInv(init);
      NoneRetired(init);
    } else {
      assert ReadRunThen(init, ms[..|ms| - 1], ms[|ms| - 1], p);
      var r :| ReadRun(init, ms[..|ms| - 1], r) && Moves(r, ms[|ms| - 1], p);
      v, order := ReadRunKeeps(init, ms[..|ms| - 1], r);
      match ms[|ms| - 1] {
        case Writer(a) =>
          StepKeeps(r.s, v, a);
          AllocatedStays(r.s, a);
          StillListed(r, p, Retires(r.s, a));
          order := StepInOrder(r.s, v, order, a);
          v := StepKeepsInv(r.s, v, a);
        case Load =>
          StandsOnListed(r);
          LoadListed(r.s, v, order, r.at.value);
      }
    }
  }

  lemma NoneRetired(s: State)
    requires Initial(s)
    ensures InOrder(s, []) && ReaderOk(Reading(s, Some(HEAD)))
  {
  }

  lemma StandsOnListed(p: Reading)
    requires ReaderOk(p) && p.at.Some?
    ensures Listed(p.s, p.at.value)
  {
  }

  lemma StillListed(r: Reading, p: Reading, n: seq<Node>)
    requires ReaderOk(r) && Keeps(r.s, p.s, n) && p.at == r.at && forall u | u in r.s.next :: u in p.s.next
    ensures ReaderOk(p)
  {
  }

  lemma AllocatedStays(s: State, a: Action)
    requires Enabled(s, a)
    ensures forall u | u in s.next :: u in Do(s, a).next
  {
  }

  // However its loads interleave with splits and unlinks, a reader only ever stands on a leaf or on a node
  // that was one; if the changes pause it comes to the end, through retired nodes back to the leaves.
  lemma ReaderStaysOnList(init: State, ms: seq<Move>, p: Reading) returns (c: seq<Node>)
    requires Initial(init) && ReadRun(init, ms, p)
    ensures p.at.Some? ==> p.at.value in p.s.next && (p.at.value in p.s.leaves || p.at.value in p.s.retired)
    ensures WalkFrom(p.s, p.at, c) && forall u | u in c :: Listed(p.s, u)
  {
    hide Inv, InOrder, ReadRun, Initial;
    var v, order := ReadRunKeeps(init, ms, p);
    c := [];
    if p.at.Some? {
      if p.at.value in p.s.leaves {
        c := LeafWalk(p.s, v, p.at.value);
      } else {
        OrderHas(p.s, order, p.at.value);
        var i :| 0 <= i < |order| && order[i] == p.at.value;
        c := RetiredWalk(p.s, v, order, i);
      }
      WalkListed(p.s, v, order, p.at, c);
    }
  }

  lemma OrderHas(s: State, order: seq<Node>, u: Node)
    requires InOrder(s, order) && u in s.retired
    ensures u in order
  {
  }

  lemma {:induction false} WalkListed(s: State, v: seq<Node>, order: seq<Node>, u: Option<Node>, c: seq<Node>)
    requires Inv(s, v) && InOrder(s, order) && WalkFrom(s, u, c) && (u.Some? ==> Listed(s, u.value))
    ensures forall x | x in c :: Listed(s, x)
    decreases |c|
  {
    hide Inv, InOrder;
    if c != [] {
      LoadListed(s, v, order, c[0]);
      WalkListed(s, v, order, s.next[c[0]].Strip(), c[1..]);
    }
  }

  // If the changes pause, the reader's loads bring it to the end, over the nodes of its walk.
  lemma ReaderEnds(init: State, ms: seq<Move>, p: Reading) returns (loads: seq<Move>, c: seq<Node>)
    requires Initial(init) && ReadRun(init, ms, p)
    ensures WalkFrom(p.s, p.at, c) && |loads| == |c| && (forall m :: m in loads ==> m == Load)
    ensures ReadRun(init, ms + loads, Reading(p.s, None))
    ensures forall i :: 0 <= i < |c| ==> ReadRun(init, ms + loads[..i], Reading(p.s, Some(c[i])))
  {
    hide ReadRun, Initial, WalkFrom;
    c := ReaderStaysOnList(init, ms, p);
    loads := seq(|c|, _ => Load);
    LoadsOn(init, ms, p, c);
  }

  lemma {:induction false} LoadsOn(init: State, ms: seq<Move>, p: Reading, c: seq<Node>)
    requires ReadRun(init, ms, p) && WalkFrom(p.s, p.at, c)
    ensures var loads := seq(|c|, _ => Load);
            && ReadRun(init, ms + loads, Reading(p.s, None))
            && forall i :: 0 <= i < |c| ==> ReadRun(init, ms + loads[..i], Reading(p.s, Some(c[i])))
    decreases |c|
  {
    hide ReadRun;
    var loads := seq(|c|, _ => Load);
    if c == [] {
      assert ms + loads == ms && p == Reading(p.s, None);
    } else {
      var next := Reading(p.s, p.s.next[c[0]].Strip());
      LoadOn(init, ms, p, next);
      LoadsOn(init, ms + [Load], next, c[1..]);
      var rest := seq(|c| - 1, _ => Load);
      assert ms + [Load] + rest == ms + loads;
      forall i | 0 <= i < |c| ensures ReadRun(init, ms + loads[..i], Reading(p.s, Some(c[i]))) {
        if i == 0 {
          assert ms + loads[..0] == ms && p == Reading(p.s, Some(c[0]));
        } else {
          assert ms + [Load] + rest[..i - 1] == ms + loads[..i];
          assert c[1..][i - 1] == c[i];
        }
      }
    }
  }

  lemma LoadOn(init: State, ms: seq<Move>, p: Reading, q: Reading)
    requires ReadRun(init, ms, p) && Moves(p, Load, q)
    ensures ReadRun(init, ms + [Load], q)
  {
    assert (ms + [Load])[..|ms|] == ms;
    assert ReadRunThen(init, ms, Load, q);
  }
}
