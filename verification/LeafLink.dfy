// The lock-free doubly linked list of B+tree leaves, as a state machine over the loads, stores and
// compare-and-swaps of any number of threads.
module LeafLink {

  type Node = nat
  type Tid = nat

  // The leftmost leaf. It is never unlinked.
  const HEAD: Node := 0

  datatype Option<+T> = None | Some(value: T)

  // A `next` field. The mark bit locks the link.
  datatype Ptr = Null | To(node: Node, marked: bool) {
    function Strip(): Option<Node> {
      match this
      case Null => None
      case To(x, _) => Some(x)
    }
  }

  function Unmarked(x: Option<Node>): Ptr {
    match x
    case None => Null
    case Some(y) => To(y, false)
  }

  // What a thread is about to do. `next` and `prev` are its local variables.
  datatype Op =
    | Idle
    | SplitStart(n: Node, nr: Node)                                  // nr->prev_ = n
    | SplitLock(n: Node, nr: Node)                                   // next = lock_next(n)
    | SplitSetNext(n: Node, nr: Node, next: Option<Node>)            // nr->next_ = next
    | SplitSetPrev(n: Node, nr: Node, next: Option<Node>)            // if (next) next->prev_ = nr
    | SplitPublish(n: Node, nr: Node, next: Option<Node>)            // n->next_ = nr
    | UnlinkLock(n: Node)                                            // next = lock_next(n)
    | UnlinkReadPrev(n: Node, next: Option<Node>)                    // prev = n->prev_
    | UnlinkCas(n: Node, next: Option<Node>, prev: Node)             // cas(prev->next_, n, mark(n))
    | UnlinkSetPrev(n: Node, next: Option<Node>, prev: Node)         // if (next) next->prev_ = prev
    | UnlinkStore(n: Node, next: Option<Node>, prev: Node)           // prev->next_ = next
  {
    predicate IsSplit() {
      SplitStart? || SplitLock? || SplitSetNext? || SplitSetPrev? || SplitPublish?
    }

    // lock_next(n) has returned.
    predicate HasLocked() {
      SplitSetNext? || SplitSetPrev? || SplitPublish? || UnlinkReadPrev? || UnlinkCas? || UnlinkSetPrev? || UnlinkStore?
    }

    // The link prev -> n has been marked.
    predicate HoldsPrev() {
      UnlinkSetPrev? || UnlinkStore?
    }
  }

  // `leaves` is the abstract leaf list: a split adds its node, and an unlink removes its node, at
  // the operation's final store. `retired` are the nodes unlinked so far. `lock` says which thread
  // holds the lock of a node: an operation's own node and, until it is linked in, the new node.
  datatype State = State(
    next: map<Node, Ptr>, prev: map<Node, Node>, lock: map<Node, Tid>, ops: map<Tid, Op>,
    leaves: seq<Node>, retired: set<Node>)
  {
    function NextOf(u: Node): Ptr { if u in next then next[u] else Null }
    function PrevOf(u: Node): Node { if u in prev then prev[u] else HEAD }
  }

  function InsertAfter(s: seq<Node>, n: Node, x: Node): seq<Node> {
    if s == [] then [] else if s[0] == n then [n, x] + s[1..] else [s[0]] + InsertAfter(s[1..], n, x)
  }

  function Without(s: seq<Node>, gone: set<Node>): seq<Node> {
    if s == [] then [] else if s[0] in gone then Without(s[1..], gone) else [s[0]] + Without(s[1..], gone)
  }

  // ----- Steps -----

  // A thread that is idle locks a leaf and, for a split, a node never used before.
  datatype Action =
    | BeginSplit(t: Tid, n: Node, nr: Node)
    | BeginUnlink(t: Tid, n: Node)
    | Advance(t: Tid)

  predicate Enabled(s: State, a: Action) {
    match a
    case BeginSplit(t, n, nr) => t in s.ops && s.ops[t].Idle? && n in s.leaves && n !in s.lock && nr !in s.next && nr != n
    case BeginUnlink(t, n) => t in s.ops && s.ops[t].Idle? && n in s.leaves && n !in s.lock && n != HEAD
    case Advance(t) => t in s.ops
  }

  function Do(s: State, a: Action): State
    requires Enabled(s, a)
  {
    match a
    case BeginSplit(t, n, nr) =>
      s.(ops := s.ops[t := SplitStart(n, nr)], lock := s.lock[n := t][nr := t], next := s.next[nr := Null])
    case BeginUnlink(t, n) =>
      s.(ops := s.ops[t := UnlinkLock(n)], lock := s.lock[n := t])
    case Advance(t) => AdvanceThread(s, t)
  }

  // One step of a thread. A failed attempt to lock a link changes nothing; a failed
  // compare-and-swap on prev goes back to reading prev.
  function AdvanceThread(s: State, t: Tid): State
    requires t in s.ops
  {
    match s.ops[t]
    case Idle => s
    case SplitStart(n, nr) =>
      s.(prev := s.prev[nr := n], ops := s.ops[t := SplitLock(n, nr)])
    case SplitLock(n, nr) =>
      (match s.NextOf(n)
       case Null => s.(ops := s.ops[t := SplitSetNext(n, nr, None)])
       case To(x, m) =>
         if m then s else s.(next := s.next[n := To(x, true)], ops := s.ops[t := SplitSetNext(n, nr, Some(x))]))
    case SplitSetNext(n, nr, next) =>
      s.(next := s.next[nr := Unmarked(next)], ops := s.ops[t := SplitSetPrev(n, nr, next)])
    case SplitSetPrev(n, nr, next) =>
      s.(prev := if next.Some? then s.prev[next.value := nr] else s.prev,
         ops := s.ops[t := SplitPublish(n, nr, next)])
    case SplitPublish(n, nr, next) =>
      s.(next := s.next[n := To(nr, false)], ops := s.ops[t := Idle], lock := s.lock - {n, nr},
         leaves := InsertAfter(s.leaves, n, nr))
    case UnlinkLock(n) =>
      (match s.NextOf(n)
       case Null => s.(ops := s.ops[t := UnlinkReadPrev(n, None)])
       case To(x, m) =>
         if m then s else s.(next := s.next[n := To(x, true)], ops := s.ops[t := UnlinkReadPrev(n, Some(x))]))
    case UnlinkReadPrev(n, next) =>
      s.(ops := s.ops[t := UnlinkCas(n, next, s.PrevOf(n))])
    case UnlinkCas(n, next, prev) =>
      if s.NextOf(prev) == To(n, false) then
        s.(next := s.next[prev := To(n, true)], ops := s.ops[t := UnlinkSetPrev(n, next, prev)])
      else
        s.(ops := s.ops[t := UnlinkReadPrev(n, next)])
    case UnlinkSetPrev(n, next, prev) =>
      s.(prev := if next.Some? then s.prev[next.value := prev] else s.prev,
         ops := s.ops[t := UnlinkStore(n, next, prev)])
    case UnlinkStore(n, next, prev) =>
      s.(next := s.next[prev := Unmarked(next)], ops := s.ops[t := Idle], lock := s.lock - {n},
         leaves := Without(s.leaves, {n}), retired := s.retired + {n})
  }

  // ----- The invariant -----

  // `v` is the list as the prev fields see it: the leaves, and the new nodes of splits that have
  // done their prev-store but not their final store.

  ghost predicate Distinct(v: seq<Node>) {
    forall i, j :: 0 <= i < j < |v| ==> v[i] != v[j]
  }

  predicate OpOn(s: State, u: Node) { u in s.lock && s.lock[u] in s.ops && !s.ops[s.lock[u]].Idle? && s.ops[s.lock[u]].n == u }

  function OpAt(s: State, u: Node): Op
    requires u in s.lock && s.lock[u] in s.ops
  {
    s.ops[s.lock[u]]
  }

  // u's split has done everything but its final store.
  predicate Publishing(s: State, u: Node) { OpOn(s, u) && OpAt(s, u).SplitPublish? }

  predicate Announced(s: State, u: Node) {
    u in s.lock && s.lock[u] in s.ops && OpAt(s, u).SplitPublish? && OpAt(s, u).nr == u
  }

  // Between neighbours u and x of v.
  ghost predicate LinkOk(s: State, u: Node, x: Node) {
    && (if Publishing(s, u) then OpAt(s, u).nr == x else s.NextOf(u).Strip() == Some(x))
    && x in s.prev
    && (s.prev[x] == u || (OpOn(s, u) && OpAt(s, u).UnlinkStore? && s.prev[x] == OpAt(s, u).prev))
  }

  ghost predicate ListOk(s: State, v: seq<Node>) {
    && |v| >= 1 && v[0] == HEAD && Distinct(v)
    && (forall i :: 0 <= i < |v| ==> v[i] in s.next && v[i] !in s.retired)
    && (forall i :: 0 <= i < |v| - 1 ==> LinkOk(s, v[i], v[i + 1]))
    && !Publishing(s, v[|v| - 1]) && s.NextOf(v[|v| - 1]) == Null
  }

  // A path of retired nodes from x to y along `next`.
  ghost predicate RetiredPath(s: State, x: Option<Node>, z: seq<Node>, y: Option<Node>)
    decreases |z|
  {
    if z == [] then x == y
    else x == Some(z[0]) && z[0] in s.retired && z[0] in s.next && RetiredPath(s, s.next[z[0]].Strip(), z[1..], y)
  }

  ghost predicate Leftover(s: State, x: Option<Node>, y: Option<Node>) {
    exists z :: RetiredPath(s, x, z, y)
  }

  ghost predicate OwnLink(s: State, op: Op)
    requires op.HasLocked()
  {
    s.NextOf(op.n) == if op.next.Some? then To(op.next.value, true) else Null
  }

  ghost predicate PrevLink(s: State, v: seq<Node>, op: Op)
    requires op.HoldsPrev()
  {
    && s.NextOf(op.prev) == To(op.n, true) && op.prev in v
    && !(OpOn(s, op.prev) && OpAt(s, op.prev).HasLocked())
    && (op.UnlinkStore? && op.next.Some? ==> op.next.value in s.prev && s.prev[op.next.value] == op.prev)
  }

  ghost predicate SplitOk(s: State, v: seq<Node>, t: Tid, op: Op)
    requires op.IsSplit()
  {
    && op.nr in s.lock && s.lock[op.nr] == t && op.nr != op.n && op.nr in s.next && op.nr !in s.retired
    && (op.nr in v <==> op.SplitPublish?)
    && (op.SplitStart? || op.SplitLock? || op.SplitSetNext? ==> s.NextOf(op.nr) == Null)
    && (op.SplitSetPrev? ==> s.NextOf(op.nr) == Unmarked(op.next))
    && (!op.SplitStart? ==> op.nr in s.prev && s.prev[op.nr] == op.n)
    && (op.SplitPublish? ==> Leftover(s, op.next, s.NextOf(op.nr).Strip()))
  }

  ghost predicate OpOk(s: State, v: seq<Node>, t: Tid)
    requires t in s.ops
  {
    var op := s.ops[t];
    !op.Idle? ==>
      && op.n in s.lock && s.lock[op.n] == t && op.n in v
      && (if op.IsSplit() then SplitOk(s, v, t, op) else op.n != HEAD)
      && (op.HasLocked() ==> OwnLink(s, op))
      && (op.HoldsPrev() ==> PrevLink(s, v, op))
      && (op.UnlinkCas? ==> Visible(s, v, op.prev))
  }

  // A node another thread may find in a prev field.
  ghost predicate Visible(s: State, v: seq<Node>, u: Node) { u in v || u in s.retired }

  ghost predicate LockOk(s: State, u: Node)
    requires u in s.lock
  {
    && s.lock[u] in s.ops && !OpAt(s, u).Idle?
    && (OpAt(s, u).n == u || (OpAt(s, u).IsSplit() && OpAt(s, u).nr == u))
  }

  // Every node ever used is in v, retired, or still private to a split.
  ghost predicate Accounted(s: State, v: seq<Node>, u: Node) {
    u in v || u in s.retired || (u in s.lock && s.lock[u] in s.ops && OpAt(s, u).IsSplit() && OpAt(s, u).nr == u)
  }

  // A marked link is held by the node's own operation or by the unlinking of the next node.
  ghost predicate Held(s: State, u: Node)
    requires s.NextOf(u) != Null
  {
    var x := s.NextOf(u).node;
    || (OpOn(s, u) && OpAt(s, u).HasLocked())
    || (OpOn(s, x) && OpAt(s, x).HoldsPrev() && OpAt(s, x).prev == u)
  }

  ghost predicate OpsOk(s: State, v: seq<Node>) { forall t | t in s.ops :: OpOk(s, v, t) }

  ghost predicate LocksOk(s: State) { forall u | u in s.lock :: LockOk(s, u) }

  ghost predicate NodesOk(s: State, v: seq<Node>) {
    && (forall u | u in s.next :: Accounted(s, v, u))
    && (forall u | u in s.retired :: u in s.next && (s.next[u] == Null || s.next[u].marked))
    && (forall u | u in s.prev :: Visible(s, v, s.prev[u]))
  }

  ghost predicate MarksOk(s: State, v: seq<Node>) {
    forall i :: 0 <= i < |v| && s.NextOf(v[i]) != Null && s.NextOf(v[i]).marked ==> Held(s, v[i])
  }

  ghost predicate Inv(s: State, v: seq<Node>) {
    && ListOk(s, v) && OpsOk(s, v) && LocksOk(s) && NodesOk(s, v) && MarksOk(s, v)
    && s.leaves == Unannounced(s, v)
  }

  ghost function Unannounced(s: State, v: seq<Node>): seq<Node> {
    if v == [] then []
    else if Announced(s, v[0]) then Unannounced(s, v[1..])
    else [v[0]] + Unannounced(s, v[1..])
  }

  lemma {:induction false} SameAnnounced(s: State, s': State, v: seq<Node>)
    requires forall u | u in v :: Announced(s, u) <==> Announced(s', u)
    ensures Unannounced(s', v) == Unannounced(s, v)
  {
    if v != [] {
      SameAnnounced(s, s', v[1..]);
    }
  }

  // Retired nodes keep their pointers, so leftover paths stay.
  ghost predicate RetiredKept(s: State, s': State) {
    && s.retired <= s'.retired
    && forall u | u in s.retired && u in s.next :: u in s'.next && s'.next[u].Strip() == s.next[u].Strip()
  }

  lemma {:induction false} PathStays(s: State, s': State, x: Option<Node>, z: seq<Node>, y: Option<Node>)
    requires RetiredKept(s, s') && RetiredPath(s, x, z, y)
    ensures RetiredPath(s', x, z, y)
    decreases |z|
  {
    if z != [] {
      PathStays(s, s', s.next[z[0]].Strip(), z[1..], y);
    }
  }

  lemma LeftoverStays(s: State, s': State, x: Option<Node>, y: Option<Node>)
    requires RetiredKept(s, s') && Leftover(s, x, y)
    ensures Leftover(s', x, y)
  {
    var z :| RetiredPath(s, x, z, y);
    PathStays(s, s', x, z, y);
  }

  // What ListOk says of v is the same in both states.
  ghost predicate SameView(s: State, s': State, u: Node) {
    && u in s'.next && u !in s'.retired && s'.NextOf(u).Strip() == s.NextOf(u).Strip()
    && (u in s.prev ==> u in s'.prev && s'.prev[u] == s.prev[u])
    && (Publishing(s, u) <==> Publishing(s', u))
    && (Publishing(s, u) ==> OpAt(s', u).nr == OpAt(s, u).nr)
    && (OpOn(s, u) && OpAt(s, u).UnlinkStore? ==> OpOn(s', u) && OpAt(s', u) == OpAt(s, u))
  }

  lemma ListStays(s: State, s': State, v: seq<Node>)
    requires ListOk(s, v) && forall i :: 0 <= i < |v| ==> SameView(s, s', v[i])
    ensures ListOk(s', v)
  {
    hide SameView, LinkOk;
    forall i | 0 <= i < |v| - 1 ensures LinkOk(s', v[i], v[i + 1]) {
      assert LinkOk(s, v[i], v[i + 1]) && SameView(s, s', v[i]) && SameView(s, s', v[i + 1]);
      LinkStays(s, s', v[i], v[i + 1]);
    }
    SameEnds(s, s', v);
  }

  lemma LinkStays(s: State, s': State, u: Node, x: Node)
    requires LinkOk(s, u, x) && SameView(s, s', u) && SameView(s, s', x)
    ensures LinkOk(s', u, x)
  {
  }

  lemma SameEnds(s: State, s': State, v: seq<Node>)
    requires ListOk(s, v) && forall i :: 0 <= i < |v| ==> SameView(s, s', v[i])
    ensures forall i :: 0 <= i < |v| ==> v[i] in s'.next && v[i] !in s'.retired
    ensures !Publishing(s', v[|v| - 1]) && s'.NextOf(v[|v| - 1]) == Null
  {
    hide LinkOk;
    assert SameView(s, s', v[|v| - 1]);
  }

  // Where an operation's node stands in v and what follows it.
  lemma After(s: State, v: seq<Node>, t: Tid) returns (i: nat)
    requires ListOk(s, v) && t in s.ops && OpOk(s, v, t) && s.ops[t].HasLocked()
    ensures i < |v| && v[i] == s.ops[t].n
    ensures s.ops[t].SplitPublish? ==> i + 1 < |v| && v[i + 1] == s.ops[t].nr
    ensures !s.ops[t].SplitPublish? ==>
              if s.ops[t].next.Some? then i + 1 < |v| && v[i + 1] == s.ops[t].next.value else i + 1 == |v|
    ensures i + 1 < |v| ==> LinkOk(s, v[i], v[i + 1])
  {
    i :| 0 <= i < |v| && v[i] == s.ops[t].n;
    if i + 1 < |v| {
      assert LinkOk(s, v[i], v[i + 1]);
    }
  }

  // ----- The steps that leave v as it is -----

  // All but the last two steps of a split and the last step of an unlink.
  predicate Quiet(op: Op) { !op.Idle? && !op.SplitSetPrev? && !op.SplitPublish? && !op.UnlinkStore? }

  lemma QuietList(s: State, v: seq<Node>, t: Tid)
    requires ListOk(s, v) && t in s.ops && OpOk(s, v, t) && LocksOk(s) && Quiet(s.ops[t]) && !s.ops[t].UnlinkSetPrev?
    ensures ListOk(AdvanceThread(s, t), v)
  {
    hide OpOk, LocksOk, Distinct, LinkOk, SameView;
    forall i | 0 <= i < |v| ensures SameView(s, AdvanceThread(s, t), v[i]) {
      QuietView(s, v, t, v[i]);
    }
    ListStays(s, AdvanceThread(s, t), v);
  }

  lemma QuietView(s: State, v: seq<Node>, t: Tid, u: Node)
    requires t in s.ops && OpOk(s, v, t) && LocksOk(s) && Quiet(s.ops[t]) && !s.ops[t].UnlinkSetPrev?
    requires u in v && u in s.next && u !in s.retired
    ensures SameView(s, AdvanceThread(s, t), u)
  {
    hide Leftover, OwnLink, PrevLink;
  }

  lemma QuietLocks(s: State, v: seq<Node>, t: Tid)
    requires LocksOk(s) && t in s.ops && OpOk(s, v, t) && Quiet(s.ops[t])
    ensures LocksOk(AdvanceThread(s, t))
    ensures Unannounced(AdvanceThread(s, t), v) == Unannounced(s, v)
  {
    hide Unannounced, SplitOk, OwnLink, PrevLink;
    SameAnnounced(s, AdvanceThread(s, t), v);
  }

  lemma QuietNodes(s: State, v: seq<Node>, t: Tid)
    requires t in s.ops && OpOk(s, v, t) && NodesOk(s, v) && ListOk(s, v) && Quiet(s.ops[t])
    ensures NodesOk(AdvanceThread(s, t), v)
  {
    hide Leftover, Distinct, LinkOk, OwnLink;
  }

  lemma QuietMarks(s: State, v: seq<Node>, t: Tid)
    requires LocksOk(s) && MarksOk(s, v) && t in s.ops && OpOk(s, v, t) && Quiet(s.ops[t])
    ensures MarksOk(AdvanceThread(s, t), v)
  {
    hide Leftover;
    var s' := AdvanceThread(s, t);
    forall i | 0 <= i < |v| && s'.NextOf(v[i]) != Null && s'.NextOf(v[i]).marked ensures Held(s', v[i]) {
      QuietHeld(s, v, t, v[i]);
    }
  }

  lemma QuietHeld(s: State, v: seq<Node>, t: Tid, u: Node)
    requires LocksOk(s) && t in s.ops && OpOk(s, v, t) && Quiet(s.ops[t]) && u in v
    requires s.NextOf(u) != Null && s.NextOf(u).marked ==> Held(s, u)
    requires var s' := AdvanceThread(s, t); s'.NextOf(u) != Null && s'.NextOf(u).marked
    ensures Held(AdvanceThread(s, t), u)
  {
    hide Leftover, PrevLink, OwnLink;
  }

  lemma SplitOwn(s: State, v: seq<Node>, t: Tid)
    requires ListOk(s, v) && OpsOk(s, v) && LocksOk(s) && NodesOk(s, v) && t in s.ops
    requires Quiet(s.ops[t]) && s.ops[t].IsSplit()
    ensures OpOk(AdvanceThread(s, t), v, t)
  {
    hide Leftover, Unannounced, Distinct, LinkOk, PrevLink;
    assert OpOk(s, v, t);
  }

  lemma UnlinkOwn(s: State, v: seq<Node>, t: Tid)
    requires ListOk(s, v) && OpsOk(s, v) && LocksOk(s) && NodesOk(s, v) && t in s.ops
    requires s.ops[t].UnlinkLock? || s.ops[t].UnlinkReadPrev? || s.ops[t].UnlinkSetPrev?
    ensures OpOk(AdvanceThread(s, t), v, t)
  {
    hide Leftover, Unannounced, Distinct, LinkOk, SplitOk;
    assert OpOk(s, v, t);
  }

  lemma QuietOther(s: State, v: seq<Node>, t: Tid, t1: Tid)
    requires t in s.ops && t1 in s.ops && t1 != t
    requires Quiet(s.ops[t]) && !s.ops[t].SplitStart? && !s.ops[t].UnlinkSetPrev?
    requires OpOk(s, v, t) && OpOk(s, v, t1) && s.ops[t].n !in s.retired
    requires s.ops[t].UnlinkCas? && s.NextOf(s.ops[t].prev) == To(s.ops[t].n, false) ==>
               s.ops[t].prev in v && s.ops[t].prev !in s.retired
    ensures OpOk(AdvanceThread(s, t), v, t1)
  {
    hide Leftover;
    if s.ops[t1].SplitPublish? {
      LeftoverStays(s, AdvanceThread(s, t), s.ops[t1].next, s.NextOf(s.ops[t1].nr).Strip());
    }
  }

  lemma SplitStartOther(s: State, v: seq<Node>, t: Tid, t1: Tid)
    requires t in s.ops && t1 in s.ops && t1 != t && s.ops[t].SplitStart?
    requires OpOk(s, v, t) && OpOk(s, v, t1) && ListOk(s, v)
    ensures OpOk(AdvanceThread(s, t), v, t1)
  {
    hide Leftover, LinkOk, ListOk, OpOk;
    if s.ops[t1].UnlinkStore? && s.ops[t1].next.Some? {
      OtherTargets(s, v, t1, t);
    }
    SplitStartDisjoint(s, v, t, t1);
  }

  lemma SplitStartDisjoint(s: State, v: seq<Node>, t: Tid, t1: Tid)
    requires t in s.ops && t1 in s.ops && t1 != t && s.ops[t].SplitStart?
    requires OpOk(s, v, t) && OpOk(s, v, t1)
    requires s.ops[t1].UnlinkStore? && s.ops[t1].next.Some? ==> s.ops[t].nr != s.ops[t1].next.value
    ensures OpOk(AdvanceThread(s, t), v, t1)
  {
    hide Leftover;
    if s.ops[t1].SplitPublish? {
      LeftoverStays(s, AdvanceThread(s, t), s.ops[t1].next, s.NextOf(s.ops[t1].nr).Strip());
    }
  }

  lemma UnlinkCasOwn(s: State, v: seq<Node>, t: Tid)
    requires t in s.ops && s.ops[t].UnlinkCas? && OpOk(s, v, t) && LocksOk(s)
    requires s.NextOf(s.ops[t].prev) == To(s.ops[t].n, false) ==> s.ops[t].prev in v && s.ops[t].prev !in s.retired
    requires OpsOk(s, v)
    ensures OpOk(AdvanceThread(s, t), v, t)
  {
    hide Leftover, SplitOk, PrevLink;
    if OpOn(s, s.ops[t].prev) {
      assert OpOk(s, v, s.lock[s.ops[t].prev]);
    }
    if s.NextOf(s.ops[t].prev) == To(s.ops[t].n, false) {
      CasLink(s, v, t);
    }
  }

  lemma CasLink(s: State, v: seq<Node>, t: Tid)
    requires t in s.ops && s.ops[t].UnlinkCas? && OpOk(s, v, t)
    requires s.NextOf(s.ops[t].prev) == To(s.ops[t].n, false) && s.ops[t].prev in v
    requires OpOn(s, s.ops[t].prev) ==> OpOk(s, v, s.lock[s.ops[t].prev])
    ensures PrevLink(AdvanceThread(s, t), v, AdvanceThread(s, t).ops[t])
  {
    hide Leftover;
  }

  // A predecessor found by the compare-and-swap is in v.
  lemma CasPrev(s: State, v: seq<Node>, t: Tid)
    requires t in s.ops && s.ops[t].UnlinkCas? && OpOk(s, v, t) && NodesOk(s, v) && ListOk(s, v)
    ensures s.NextOf(s.ops[t].prev) == To(s.ops[t].n, false) ==> s.ops[t].prev in v && s.ops[t].prev !in s.retired
  {
    hide Leftover, LinkOk, Distinct;
  }

  lemma UnlinkSetPrevOther(s: State, v: seq<Node>, t: Tid, t1: Tid)
    requires t in s.ops && t1 in s.ops && t1 != t && s.ops[t].UnlinkSetPrev?
    requires OpOk(s, v, t) && OpOk(s, v, t1) && ListOk(s, v)
    ensures OpOk(AdvanceThread(s, t), v, t1)
  {
    hide Leftover, LinkOk, ListOk, OpOk;
    if s.ops[t].next.Some? && !s.ops[t1].Idle? {
      OtherTargets(s, v, t, t1);
    }
    UnlinkSetPrevDisjoint(s, v, t, t1);
  }

  // The nodes whose prev fields two operations look after are different.
  lemma OtherTargets(s: State, v: seq<Node>, t: Tid, t1: Tid)
    requires t in s.ops && t1 in s.ops && t1 != t && OpOk(s, v, t) && OpOk(s, v, t1) && ListOk(s, v)
    requires s.ops[t].HasLocked() && !s.ops[t].SplitPublish? && s.ops[t].next.Some? && !s.ops[t1].Idle?
    ensures s.ops[t].next.value in v
    ensures s.ops[t1].IsSplit() ==> s.ops[t1].nr != s.ops[t].next.value
    ensures s.ops[t1].HasLocked() && !s.ops[t1].SplitPublish? ==> s.ops[t1].next != s.ops[t].next
  {
    hide Leftover, LinkOk;
    var k := After(s, v, t);
    if s.ops[t1].HasLocked() {
      var i := After(s, v, t1);
      assert i != k;
      NotTwice(s, v, i + 1, k + 1);
    }
  }

  lemma UnlinkSetPrevDisjoint(s: State, v: seq<Node>, t: Tid, t1: Tid)
    requires t in s.ops && t1 in s.ops && t1 != t && s.ops[t].UnlinkSetPrev?
    requires OpOk(s, v, t) && OpOk(s, v, t1)
    requires s.ops[t].next.Some? && !s.ops[t1].Idle? ==>
               && (s.ops[t1].IsSplit() ==> s.ops[t1].nr != s.ops[t].next.value)
               && (s.ops[t1].HasLocked() && !s.ops[t1].SplitPublish? ==> s.ops[t1].next != s.ops[t].next)
    ensures OpOk(AdvanceThread(s, t), v, t1)
  {
    hide Leftover;
    if s.ops[t1].SplitPublish? {
      LeftoverStays(s, AdvanceThread(s, t), s.ops[t1].next, s.NextOf(s.ops[t1].nr).Strip());
    }
  }

  lemma LiveOwner(s: State, v: seq<Node>, t: Tid)
    requires ListOk(s, v) && t in s.ops && OpOk(s, v, t) && !s.ops[t].Idle?
    ensures s.ops[t].n in s.next && s.ops[t].n !in s.retired
  {
  }

  lemma Apart(v: seq<Node>, i: nat, j: nat)
    requires Distinct(v) && i != j
    ensures i < |v| && j < |v| ==> v[i] != v[j]
  {
  }

  lemma UnlinkSetPrevList(s: State, v: seq<Node>, t: Tid)
    requires ListOk(s, v) && t in s.ops && OpOk(s, v, t) && LocksOk(s) && s.ops[t].UnlinkSetPrev?
    ensures ListOk(AdvanceThread(s, t), v)
  {
    hide Leftover, Distinct, LinkOk, OpOk, LocksOk;
    var s' := AdvanceThread(s, t);
    var k := After(s, v, t);
    LiveOwner(s, v, t);
    forall i | 0 <= i < |v| - 1 ensures LinkOk(s', v[i], v[i + 1]) {
      assert LinkOk(s, v[i], v[i + 1]);
      if i != k {
        Apart(v, i, k);
        Apart(v, i + 1, k + 1);
      }
      UnlinkSetPrevLink(s, v, t, v[i], v[i + 1]);
    }
    UnlinkSetPrevLast(s, v, t, v[|v| - 1]);
  }

  lemma UnlinkSetPrevLink(s: State, v: seq<Node>, t: Tid, u: Node, x: Node)
    requires t in s.ops && OpOk(s, v, t) && LocksOk(s) && s.ops[t].UnlinkSetPrev? && LinkOk(s, u, x)
    requires u == s.ops[t].n <==> s.ops[t].next == Some(x)
    ensures LinkOk(AdvanceThread(s, t), u, x)
  {
    hide Leftover;
  }

  lemma UnlinkSetPrevLast(s: State, v: seq<Node>, t: Tid, u: Node)
    requires t in s.ops && OpOk(s, v, t) && LocksOk(s) && s.ops[t].UnlinkSetPrev? && !Publishing(s, u)
    ensures !Publishing(AdvanceThread(s, t), u)
  {
    hide Leftover;
  }

  // ----- The last-but-one store of a split puts the new node into v -----

  function Insert(v: seq<Node>, i: nat, x: Node): seq<Node>
    requires i < |v|
  {
    v[..i + 1] + [x] + v[i + 1..]
  }

  lemma InsertDistinct(v: seq<Node>, i: nat, x: Node)
    requires Distinct(v) && i < |v| && x !in v
    ensures Distinct(Insert(v, i, x))
  {
  }

  lemma SplitSetPrevList(s: State, v: seq<Node>, t: Tid, k: nat)
    requires ListOk(s, v) && OpsOk(s, v) && LocksOk(s) && t in s.ops && s.ops[t].SplitSetPrev?
    requires k < |v| && v[k] == s.ops[t].n
    ensures ListOk(AdvanceThread(s, t), Insert(v, k, s.ops[t].nr))
  {
    hide Leftover, Unannounced, Distinct, LinkOk;
    var s' := AdvanceThread(s, t);
    var nr := s.ops[t].nr;
    var w := Insert(v, k, nr);
    assert OpOk(s, v, t);
    InsertDistinct(v, k, nr);
    forall i | 0 <= i < |w| - 1 ensures LinkOk(s', w[i], w[i + 1]) {
      if i == k || i == k + 1 {
        SplitSetPrevNew(s, v, t, k);
      } else {
        SplitSetPrevLink(s, v, t, k, if i < k then i else i - 1);
      }
    }
    if k + 1 == |v| {
      SplitSetPrevNew(s, v, t, k);
      assert w[|w| - 1] == nr;
    } else {
      SplitSetPrevLast(s, v, t, k);
      assert w[|w| - 1] == v[|v| - 1];
    }
  }

  lemma SplitSetPrevLast(s: State, v: seq<Node>, t: Tid, k: nat)
    requires ListOk(s, v) && t in s.ops && s.ops[t].SplitSetPrev? && k + 1 < |v| && v[k] == s.ops[t].n
    requires OpOk(s, v, t)
    ensures !Publishing(AdvanceThread(s, t), v[|v| - 1]) && AdvanceThread(s, t).NextOf(v[|v| - 1]) == Null
  {
    hide Leftover, LinkOk, SplitOk, OwnLink, PrevLink;
    NotTwice(s, v, |v| - 1, k);
  }

  lemma SplitSetPrevNew(s: State, v: seq<Node>, t: Tid, k: nat)
    requires t in s.ops && s.ops[t].SplitSetPrev? && k < |v| && v[k] == s.ops[t].n
    requires ListOk(s, v) && OpOk(s, v, t) && LocksOk(s)
    ensures var s', nr := AdvanceThread(s, t), s.ops[t].nr;
            && LinkOk(s', v[k], nr)
            && (if k + 1 < |v| then LinkOk(s', nr, v[k + 1]) else s'.NextOf(nr) == Null)
            && !Publishing(s', nr)
  {
    hide Leftover, Unannounced, Distinct;
    var k1 := After(s, v, t);
    Same(v, k, k1);
    var s', nr := AdvanceThread(s, t), s.ops[t].nr;
    assert s.ops[t].next != Some(nr);
    assert OpOn(s', v[k]) && !OpOn(s', nr);
    assert s'.NextOf(nr) == s.NextOf(nr);
    assert LinkOk(s', v[k], nr);
  }

  lemma SplitSetPrevLink(s: State, v: seq<Node>, t: Tid, k: nat, j: nat)
    requires t in s.ops && s.ops[t].SplitSetPrev? && k < |v| && v[k] == s.ops[t].n && j != k && j + 1 < |v|
    requires ListOk(s, v) && OpOk(s, v, t) && LocksOk(s)
    ensures LinkOk(AdvanceThread(s, t), v[j], v[j + 1])
  {
    hide Leftover, Unannounced, Distinct;
    var k1 := After(s, v, t);
    Same(v, k, k1);
    Apart(v, j, k);
    Apart(v, j + 1, k + 1);
    assert LinkOk(s, v[j], v[j + 1]);
  }

  lemma Same(v: seq<Node>, i: nat, j: nat)
    requires Distinct(v) && i < |v| && j < |v| && v[i] == v[j]
    ensures i == j
  {
  }

  lemma SplitSetPrevOwn(s: State, v: seq<Node>, t: Tid, w: seq<Node>)
    requires t in s.ops && s.ops[t].SplitSetPrev? && OpOk(s, v, t) && s.ops[t].n in w && s.ops[t].nr in w
    requires s.ops[t].next != Some(s.ops[t].nr)
    ensures OpOk(AdvanceThread(s, t), w, t)
  {
    LeftoverNone(AdvanceThread(s, t), s.ops[t].next);
  }

  lemma SplitSetPrevOps(s: State, v: seq<Node>, t: Tid, k: nat, t1: Tid)
    requires t in s.ops && t1 in s.ops && s.ops[t].SplitSetPrev? && k < |v| && v[k] == s.ops[t].n
    requires ListOk(s, v) && OpOk(s, v, t) && OpOk(s, v, t1) && LocksOk(s) && NodesOk(s, v)
    ensures OpOk(AdvanceThread(s, t), Insert(v, k, s.ops[t].nr), t1)
  {
    hide Leftover, Unannounced, Distinct, LinkOk, NodesOk;
    var k0 := After(s, v, t);
    if t1 == t {
      SplitSetPrevOwn(s, v, t, Insert(v, k, s.ops[t].nr));
    } else {
      Same(v, k, k0);
      SplitSetPrevOther(s, v, t, k, t1);
    }
  }

  lemma SplitSetPrevOther(s: State, v: seq<Node>, t: Tid, k: nat, t1: Tid)
    requires t in s.ops && t1 in s.ops && t1 != t && s.ops[t].SplitSetPrev? && k < |v| && v[k] == s.ops[t].n
    requires ListOk(s, v) && OpOk(s, v, t) && OpOk(s, v, t1)
    ensures OpOk(AdvanceThread(s, t), Insert(v, k, s.ops[t].nr), t1)
  {
    hide Leftover, LinkOk, ListOk, OpOk;
    if s.ops[t].next.Some? && !s.ops[t1].Idle? {
      OtherTargets(s, v, t, t1);
    }
    var w := Insert(v, k, s.ops[t].nr);
    assert forall u :: u in w <==> u in v || u == s.ops[t].nr;
    SplitSetPrevDisjoint(s, v, t, w, t1);
  }

  lemma SplitSetPrevDisjoint(s: State, v: seq<Node>, t: Tid, w: seq<Node>, t1: Tid)
    requires t in s.ops && t1 in s.ops && t1 != t && s.ops[t].SplitSetPrev?
    requires OpOk(s, v, t) && OpOk(s, v, t1)
    requires forall u :: u in w <==> u in v || u == s.ops[t].nr
    requires s.ops[t].next.Some? && !s.ops[t1].Idle? ==>
               && (s.ops[t1].IsSplit() ==> s.ops[t1].nr != s.ops[t].next.value)
               && (s.ops[t1].HasLocked() && !s.ops[t1].SplitPublish? ==> s.ops[t1].next != s.ops[t].next)
    ensures OpOk(AdvanceThread(s, t), w, t1)
  {
    hide Leftover;
    if s.ops[t1].SplitPublish? {
      LeftoverStays(s, AdvanceThread(s, t), s.ops[t1].next, s.NextOf(s.ops[t1].nr).Strip());
    }
  }

  lemma NotTwice(s: State, v: seq<Node>, i: nat, j: nat)
    requires ListOk(s, v) && i != j
    ensures i < |v| && j < |v| ==> v[i] != v[j]
  {
  }

  lemma LeftoverNone(s: State, x: Option<Node>)
    ensures Leftover(s, x, x)
  {
    assert RetiredPath(s, x, [], x);
  }

  lemma SplitSetPrevRest(s: State, v: seq<Node>, t: Tid, k: nat)
    requires t in s.ops && s.ops[t].SplitSetPrev? && k < |v| && v[k] == s.ops[t].n
    requires ListOk(s, v) && OpOk(s, v, t) && LocksOk(s) && NodesOk(s, v)
    ensures var s' := AdvanceThread(s, t);
            LocksOk(s') && NodesOk(s', Insert(v, k, s.ops[t].nr))
  {
    hide Leftover, Distinct, LinkOk, Unannounced;
    var w := Insert(v, k, s.ops[t].nr);
    assert forall u :: u in w <==> u in v || u == s.ops[t].nr;
  }

  lemma SplitSetPrevLeaves(s: State, v: seq<Node>, t: Tid, k: nat)
    requires t in s.ops && OpOk(s, v, t) && LocksOk(s) && s.ops[t].SplitSetPrev? && k < |v| && v[k] == s.ops[t].n
    ensures Unannounced(AdvanceThread(s, t), Insert(v, k, s.ops[t].nr)) == Unannounced(s, v)
  {
    hide Leftover;
    var s', nr := AdvanceThread(s, t), s.ops[t].nr;
    SameAnnounced(s, s', v);
    assert v == v[..k + 1] + v[k + 1..];
    assert Unannounced(s', [nr]) == [];
    UnannouncedConcat(s', v[..k + 1], v[k + 1..]);
    UnannouncedConcat(s', v[..k + 1] + [nr], v[k + 1..]);
    UnannouncedConcat(s', v[..k + 1], [nr]);
  }

  lemma {:induction false} UnannouncedConcat(s: State, a: seq<Node>, b: seq<Node>)
    ensures Unannounced(s, a + b) == Unannounced(s, a) + Unannounced(s, b)
  {
    if a == [] {
      assert a + b == b;
    } else {
      assert (a + b)[1..] == a[1..] + b;
      UnannouncedConcat(s, a[1..], b);
    }
  }

  lemma SplitSetPrevMarks(s: State, v: seq<Node>, t: Tid, k: nat)
    requires ListOk(s, v) && OpsOk(s, v) && LocksOk(s) && MarksOk(s, v)
    requires t in s.ops && s.ops[t].SplitSetPrev? && k < |v| && v[k] == s.ops[t].n
    ensures MarksOk(AdvanceThread(s, t), Insert(v, k, s.ops[t].nr))
  {
    hide Leftover, Unannounced, Distinct, LinkOk;
    var s', w := AdvanceThread(s, t), Insert(v, k, s.ops[t].nr);
    assert OpOk(s, v, t);
    forall i | 0 <= i < |w| && s'.NextOf(w[i]) != Null && s'.NextOf(w[i]).marked ensures Held(s', w[i]) {
      var j := if i <= k then i else i - 1;
      if i != k + 1 {
        assert w[i] == v[j] && Held(s, v[j]);
      }
    }
  }

  // ----- The final store of a split -----

  lemma SplitPublishList(s: State, v: seq<Node>, t: Tid)
    requires ListOk(s, v) && t in s.ops && OpOk(s, v, t) && LocksOk(s) && s.ops[t].SplitPublish?
    ensures ListOk(AdvanceThread(s, t), v)
  {
    hide OpOk, LocksOk, Distinct, LinkOk;
    var s' := AdvanceThread(s, t);
    var k := After(s, v, t);
    LiveOwner(s, v, t);
    forall i | 0 <= i < |v| - 1 ensures LinkOk(s', v[i], v[i + 1]) {
      assert LinkOk(s, v[i], v[i + 1]);
      if i != k {
        Apart(v, i, k);
        SplitPublishLink(s, v, t, v[i], v[i + 1]);
      } else {
        SplitPublishNew(s, v, t);
      }
    }
    NotTwice(s, v, |v| - 1, k);
    SplitPublishLast(s, v, t, v[|v| - 1]);
  }

  lemma SplitPublishLink(s: State, v: seq<Node>, t: Tid, u: Node, x: Node)
    requires t in s.ops && OpOk(s, v, t) && LocksOk(s) && s.ops[t].SplitPublish? && LinkOk(s, u, x) && u != s.ops[t].n
    ensures LinkOk(AdvanceThread(s, t), u, x)
  {
    hide Leftover;
  }

  lemma SplitPublishNew(s: State, v: seq<Node>, t: Tid)
    requires t in s.ops && OpOk(s, v, t) && LocksOk(s) && s.ops[t].SplitPublish?
    ensures LinkOk(AdvanceThread(s, t), s.ops[t].n, s.ops[t].nr)
  {
    hide Leftover;
  }

  lemma SplitPublishLast(s: State, v: seq<Node>, t: Tid, u: Node)
    requires t in s.ops && OpOk(s, v, t) && LocksOk(s) && s.ops[t].SplitPublish? && u != s.ops[t].n
    requires !Publishing(s, u) && s.NextOf(u) == Null
    ensures var s' := AdvanceThread(s, t); !Publishing(s', u) && s'.NextOf(u) == Null
  {
    hide Leftover;
  }

  lemma SplitPublishOps(s: State, v: seq<Node>, t: Tid, t1: Tid)
    requires t in s.ops && t1 in s.ops && s.ops[t].SplitPublish?
    requires OpOk(s, v, t) && OpOk(s, v, t1) && s.ops[t].n !in s.retired
    ensures OpOk(AdvanceThread(s, t), v, t1)
  {
    hide Leftover;
    var s' := AdvanceThread(s, t);
    if t1 != t && s.ops[t1].SplitPublish? {
      LeftoverStays(s, s', s.ops[t1].next, s.NextOf(s.ops[t1].nr).Strip());
    }
  }

  lemma SplitPublishRest(s: State, v: seq<Node>, t: Tid)
    requires t in s.ops && ListOk(s, v) && OpOk(s, v, t) && LocksOk(s) && NodesOk(s, v) && s.ops[t].SplitPublish?
    ensures var s' := AdvanceThread(s, t); LocksOk(s') && NodesOk(s', v)
  {
    hide Leftover, Distinct, LinkOk, Unannounced;
  }

  lemma SplitPublishLeaves(s: State, v: seq<Node>, t: Tid)
    requires t in s.ops && ListOk(s, v) && OpOk(s, v, t) && LocksOk(s) && s.ops[t].SplitPublish?
    ensures Unannounced(AdvanceThread(s, t), v) == InsertAfter(Unannounced(s, v), s.ops[t].n, s.ops[t].nr)
  {
    hide LinkOk, OpOk, LocksOk, ListOk, Unannounced, InsertAfter, Announced;
    var s', n, nr := AdvanceThread(s, t), s.ops[t].n, s.ops[t].nr;
    var a, b := Around(s, v, t);
    SplitPublishAnnounced(s, v, t, a);
    SplitPublishAnnounced(s, v, t, b);
    SplitPublishPair(s, v, t);
    UnannouncedAround(s, a, [n, nr], b);
    UnannouncedAround(s', a, [n, nr], b);
    UnannouncedSubset(s, a, n);
    InsertAfterConcat(Unannounced(s, a), n, nr, Unannounced(s, b));
  }

  lemma Around(s: State, v: seq<Node>, t: Tid) returns (a: seq<Node>, b: seq<Node>)
    requires t in s.ops && ListOk(s, v) && OpOk(s, v, t) && s.ops[t].SplitPublish?
    ensures v == a + [s.ops[t].n, s.ops[t].nr] + b
    ensures s.ops[t].n !in a + b && s.ops[t].nr !in a + b
  {
    hide LinkOk, Leftover;
    var k := After(s, v, t);
    a, b := v[..k], v[k + 2..];
  }

  lemma SplitPublishAnnounced(s: State, v: seq<Node>, t: Tid, a: seq<Node>)
    requires t in s.ops && OpOk(s, v, t) && LocksOk(s) && s.ops[t].SplitPublish?
    requires s.ops[t].n !in a && s.ops[t].nr !in a
    ensures Unannounced(AdvanceThread(s, t), a) == Unannounced(s, a)
  {
    SameAnnounced(s, AdvanceThread(s, t), a);
  }

  lemma SplitPublishPair(s: State, v: seq<Node>, t: Tid)
    requires t in s.ops && OpOk(s, v, t) && LocksOk(s) && s.ops[t].SplitPublish?
    ensures var s', n, nr := AdvanceThread(s, t), s.ops[t].n, s.ops[t].nr;
            Unannounced(s, [n, nr]) == [n] && Unannounced(s', [n, nr]) == [n, nr]
  {
    var s', n, nr := AdvanceThread(s, t), s.ops[t].n, s.ops[t].nr;
    assert [n, nr][1..] == [nr] && [nr][1..] == [];
    assert Unannounced(s, []) == [] && Unannounced(s', []) == [];
    assert !Announced(s, n) && Announced(s, nr) && !Announced(s', n) && !Announced(s', nr);
  }

  lemma UnannouncedAround(s: State, a: seq<Node>, m: seq<Node>, b: seq<Node>)
    ensures Unannounced(s, a + m + b) == Unannounced(s, a) + Unannounced(s, m) + Unannounced(s, b)
  {
    UnannouncedConcat(s, a + m, b);
    UnannouncedConcat(s, a, m);
  }

  lemma {:induction false} UnannouncedSubset(s: State, a: seq<Node>, n: Node)
    requires n !in a
    ensures n !in Unannounced(s, a)
  {
    if a != [] {
      UnannouncedSubset(s, a[1..], n);
    }
  }

  lemma {:induction false} InsertAfterConcat(a: seq<Node>, n: Node, x: Node, b: seq<Node>)
    requires n !in a
    ensures InsertAfter(a + [n] + b, n, x) == a + [n, x] + b
  {
    if a == [] {
      assert [] + [n] + b == [n] + b;
    } else {
      assert (a + [n] + b)[1..] == a[1..] + [n] + b;
      InsertAfterConcat(a[1..], n, x, b);
    }
  }

  lemma SplitPublishMarks(s: State, v: seq<Node>, t: Tid)
    requires ListOk(s, v) && OpsOk(s, v) && LocksOk(s) && MarksOk(s, v) && t in s.ops && s.ops[t].SplitPublish?
    ensures MarksOk(AdvanceThread(s, t), v)
  {
    hide Leftover, Unannounced, Distinct, LinkOk;
    assert OpOk(s, v, t);
  }

  // ----- The final store of an unlink -----

  function Remove(v: seq<Node>, i: nat): seq<Node>
    requires i < |v|
  {
    v[..i] + v[i + 1..]
  }

  // The predecessor whose link the unlinking thread has marked stands just before its node.
  lemma Before(s: State, v: seq<Node>, t: Tid) returns (k: nat)
    requires t in s.ops && ListOk(s, v) && OpOk(s, v, t) && s.ops[t].HoldsPrev()
    ensures k + 1 < |v| && v[k] == s.ops[t].prev && v[k + 1] == s.ops[t].n
    ensures !Publishing(s, v[k]) && LinkOk(s, v[k], v[k + 1])
    ensures if s.ops[t].next.Some? then k + 2 < |v| && v[k + 2] == s.ops[t].next.value && LinkOk(s, v[k + 1], v[k + 2]) else k + 2 == |v|
  {
    hide Leftover;
    var op := s.ops[t];
    k :| 0 <= k < |v| && v[k] == op.prev;
    assert k < |v| - 1;
    assert LinkOk(s, v[k], v[k + 1]);
    var i := After(s, v, t);
    OncePerNode(s, v, i, k + 1);
  }

  lemma UnlinkStoreList(s: State, v: seq<Node>, t: Tid, k: nat)
    requires t in s.ops && s.ops[t].UnlinkStore? && ListOk(s, v) && OpOk(s, v, t) && LocksOk(s)
    requires k + 1 < |v| && v[k] == s.ops[t].prev && v[k + 1] == s.ops[t].n
    ensures ListOk(AdvanceThread(s, t), Remove(v, k + 1))
  {
    hide Leftover, Unannounced, LinkOk;
    var s', w := AdvanceThread(s, t), Remove(v, k + 1);
    var k1 := Before(s, v, t);
    OncePerNode(s, v, k1, k);
    forall i | 0 <= i < |w| - 1 ensures LinkOk(s', w[i], w[i + 1]) {
      if i == k {
        UnlinkStoreJoin(s, v, t, k);
      } else {
        UnlinkStoreLink(s, v, t, k, if i < k then i else i + 1);
      }
    }
    UnlinkStoreLast(s, v, t, k);
  }

  lemma UnlinkStoreJoin(s: State, v: seq<Node>, t: Tid, k: nat)
    requires t in s.ops && s.ops[t].UnlinkStore? && ListOk(s, v) && OpOk(s, v, t) && LocksOk(s)
    requires k + 2 < |v| && v[k] == s.ops[t].prev && v[k + 1] == s.ops[t].n
    ensures LinkOk(AdvanceThread(s, t), v[k], v[k + 2])
  {
    hide Leftover, Unannounced;
    var k1 := Before(s, v, t);
    OncePerNode(s, v, k1, k);
  }

  lemma UnlinkStoreLink(s: State, v: seq<Node>, t: Tid, k: nat, j: nat)
    requires t in s.ops && s.ops[t].UnlinkStore? && ListOk(s, v) && OpOk(s, v, t) && LocksOk(s)
    requires k + 1 < |v| && v[k] == s.ops[t].prev && v[k + 1] == s.ops[t].n
    requires j + 1 < |v| && j != k && j != k + 1
    ensures LinkOk(AdvanceThread(s, t), v[j], v[j + 1])
  {
    hide Leftover, Unannounced;
    assert LinkOk(s, v[j], v[j + 1]);
    NotTwice(s, v, j, k);
    NotTwice(s, v, j, k + 1);
    NotTwice(s, v, j + 1, k + 1);
  }

  lemma UnlinkStoreLast(s: State, v: seq<Node>, t: Tid, k: nat)
    requires t in s.ops && s.ops[t].UnlinkStore? && ListOk(s, v) && OpOk(s, v, t) && LocksOk(s)
    requires k + 1 < |v| && v[k] == s.ops[t].prev && v[k + 1] == s.ops[t].n
    ensures var s', w := AdvanceThread(s, t), Remove(v, k + 1);
            && |w| >= 1 && w[0] == HEAD && Distinct(w)
            && (forall i :: 0 <= i < |w| ==> w[i] in s'.next && w[i] !in s'.retired)
            && !Publishing(s', w[|w| - 1]) && s'.NextOf(w[|w| - 1]) == Null
  {
    hide Leftover, Unannounced, LinkOk;
    var s', w := AdvanceThread(s, t), Remove(v, k + 1);
    var k1 := Before(s, v, t);
    OncePerNode(s, v, k1, k);
    if k + 2 < |v| {
      NotTwice(s, v, |v| - 1, k);
      NotTwice(s, v, |v| - 1, k + 1);
      assert w[|w| - 1] == v[|v| - 1];
    } else {
      assert w[|w| - 1] == v[k];
    }
  }

  lemma {:induction false} PathGrows(s: State, s': State, x: Option<Node>, z: seq<Node>, n: Node)
    requires RetiredKept(s, s') && RetiredPath(s, x, z, Some(n)) && n in s'.retired && n in s'.next
    ensures RetiredPath(s', x, z + [n], s'.next[n].Strip())
    decreases |z|
  {
    if z == [] {
      assert [n][1..] == [];
    } else {
      assert (z + [n])[1..] == z[1..] + [n];
      PathGrows(s, s', s.next[z[0]].Strip(), z[1..], n);
    }
  }

  lemma UnlinkStoreOps(s: State, v: seq<Node>, t: Tid, k: nat, t1: Tid)
    requires t in s.ops && t1 in s.ops && s.ops[t].UnlinkStore?
    requires ListOk(s, v) && OpOk(s, v, t) && OpOk(s, v, t1)
    requires k + 1 < |v| && v[k] == s.ops[t].prev && v[k + 1] == s.ops[t].n
    ensures OpOk(AdvanceThread(s, t), Remove(v, k + 1), t1)
  {
    hide Leftover, LinkOk, ListOk, OpOk;
    RemoveKeeps(s, v, k + 1);
    NotRetired(s, v, k);
    NotRetired(s, v, k + 1);
    if t1 != t && s.ops[t1].SplitPublish? {
      StoreLeftover(s, v, t, t1);
    }
    UnlinkStoreOther(s, v, t, Remove(v, k + 1), t1);
  }

  // The retired node joins the leftover of the split through whose new node it was unlinked.
  lemma StoreLeftover(s: State, v: seq<Node>, t: Tid, t1: Tid)
    requires t in s.ops && t1 in s.ops && t1 != t && s.ops[t].UnlinkStore? && s.ops[t1].SplitPublish?
    requires OpOk(s, v, t) && OpOk(s, v, t1)
    requires s.ops[t].prev !in s.retired && s.ops[t].n in s.next
    ensures var s' := AdvanceThread(s, t); Leftover(s', s.ops[t1].next, s'.NextOf(s.ops[t1].nr).Strip())
  {
    hide Leftover;
    var s', op := AdvanceThread(s, t), s.ops[t1];
    if op.nr == s.ops[t].prev {
      UnfoldLeftover(s, op.next, Some(s.ops[t].n));
      var z :| RetiredPath(s, op.next, z, Some(s.ops[t].n));
      PathGrows(s, s', op.next, z, s.ops[t].n);
      FoldLeftover(s', op.next, z + [s.ops[t].n], s'.next[s.ops[t].n].Strip());
    } else {
      LeftoverStays(s, s', op.next, s.NextOf(op.nr).Strip());
    }
  }

  lemma UnlinkStoreOther(s: State, v: seq<Node>, t: Tid, w: seq<Node>, t1: Tid)
    requires t in s.ops && t1 in s.ops && s.ops[t].UnlinkStore?
    requires OpOk(s, v, t) && OpOk(s, v, t1)
    requires forall u :: u in w <==> u in v && u != s.ops[t].n
    requires t1 != t && s.ops[t1].SplitPublish? ==>
               var s' := AdvanceThread(s, t); Leftover(s', s.ops[t1].next, s'.NextOf(s.ops[t1].nr).Strip())
    ensures OpOk(AdvanceThread(s, t), w, t1)
  {
    hide Leftover;
  }

  lemma NotRetired(s: State, v: seq<Node>, i: nat)
    requires ListOk(s, v) && i < |v|
    ensures v[i] in s.next && v[i] !in s.retired
  {
  }

  lemma UnfoldLeftover(s: State, x: Option<Node>, y: Option<Node>)
    requires Leftover(s, x, y)
    ensures exists z :: RetiredPath(s, x, z, y)
  {
  }

  lemma FoldLeftover(s: State, x: Option<Node>, z: seq<Node>, y: Option<Node>)
    requires RetiredPath(s, x, z, y)
    ensures Leftover(s, x, y)
  {
  }

  lemma RemoveKeeps(s: State, v: seq<Node>, i: nat)
    requires ListOk(s, v) && i < |v|
    ensures forall u :: u in Remove(v, i) <==> u in v && u != v[i]
  {
    hide LinkOk;
    var w := Remove(v, i);
    forall u | u in v && u != v[i] ensures u in w {
      var j :| 0 <= j < |v| && v[j] == u;
      assert w[if j < i then j else j - 1] == u;
    }
  }

  lemma UnlinkStoreRest(s: State, v: seq<Node>, t: Tid, k: nat)
    requires t in s.ops && s.ops[t].UnlinkStore?
    requires ListOk(s, v) && OpOk(s, v, t) && LocksOk(s) && NodesOk(s, v)
    requires k + 1 < |v| && v[k] == s.ops[t].prev && v[k + 1] == s.ops[t].n
    ensures var s' := AdvanceThread(s, t); LocksOk(s') && NodesOk(s', Remove(v, k + 1))
  {
    hide Leftover, ListOk, LinkOk, OpOk, LocksOk, NodesOk;
    RemoveKeeps(s, v, k + 1);
    NotRetired(s, v, k);
    NotRetired(s, v, k + 1);
    UnlinkStoreNodes(s, v, t, Remove(v, k + 1));
  }

  lemma UnlinkStoreNodes(s: State, v: seq<Node>, t: Tid, w: seq<Node>)
    requires t in s.ops && s.ops[t].UnlinkStore? && OpOk(s, v, t) && LocksOk(s) && NodesOk(s, v)
    requires forall u :: u in w <==> u in v && u != s.ops[t].n
    requires s.ops[t].prev in s.next && s.ops[t].prev !in s.retired && s.ops[t].n in s.next
    ensures var s' := AdvanceThread(s, t); LocksOk(s') && NodesOk(s', w)
  {
    hide Leftover;
  }

  lemma UnlinkStoreMarks(s: State, v: seq<Node>, t: Tid, k: nat)
    requires t in s.ops && s.ops[t].UnlinkStore?
    requires ListOk(s, v) && OpOk(s, v, t) && LocksOk(s) && MarksOk(s, v)
    requires k + 1 < |v| && v[k] == s.ops[t].prev && v[k + 1] == s.ops[t].n
    ensures MarksOk(AdvanceThread(s, t), Remove(v, k + 1))
  {
    hide Leftover, Unannounced, Distinct, LinkOk;
    var s', w := AdvanceThread(s, t), Remove(v, k + 1);
    RemoveKeeps(s, v, k + 1);
    forall i | 0 <= i < |w| && s'.NextOf(w[i]) != Null && s'.NextOf(w[i]).marked ensures Held(s', w[i]) {
      var j := if i <= k then i else i + 1;
      assert w[i] == v[j] && w[i] in v;
      if w[i] != s.ops[t].prev {
        assert Held(s, v[j]);
      }
    }
  }

  lemma UnlinkStoreLeaves(s: State, v: seq<Node>, t: Tid, k: nat)
    requires t in s.ops && s.ops[t].UnlinkStore? && ListOk(s, v) && OpOk(s, v, t) && LocksOk(s)
    requires k + 1 < |v| && v[k] == s.ops[t].prev && v[k + 1] == s.ops[t].n
    ensures Unannounced(AdvanceThread(s, t), Remove(v, k + 1)) == Without(Unannounced(s, v), {s.ops[t].n})
  {
    hide Leftover, LinkOk;
    var s', n := AdvanceThread(s, t), s.ops[t].n;
    var a, b := v[..k + 1], v[k + 2..];
    assert v == a + [n] + b && Remove(v, k + 1) == a + b;
    assert n !in a && n !in b;
    UnlinkStoreAnnounced(s, v, t, a, b);
    UnannouncedSubset(s, a, n);
    UnannouncedSubset(s, b, n);
    WithoutConcat(Unannounced(s, a), n, Unannounced(s, b));
  }

  lemma UnlinkStoreAnnounced(s: State, v: seq<Node>, t: Tid, a: seq<Node>, b: seq<Node>)
    requires t in s.ops && s.ops[t].UnlinkStore? && OpOk(s, v, t) && LocksOk(s)
    requires s.ops[t].n !in a && s.ops[t].n !in b
    ensures var s', n := AdvanceThread(s, t), s.ops[t].n;
            && Unannounced(s, a + [n] + b) == Unannounced(s, a) + [n] + Unannounced(s, b)
            && Unannounced(s', a + b) == Unannounced(s, a) + Unannounced(s, b)
  {
    var s', n := AdvanceThread(s, t), s.ops[t].n;
    UnannouncedAround(s, a, [n], b);
    UnannouncedConcat(s', a, b);
    SameAnnounced(s, s', a);
    SameAnnounced(s, s', b);
    assert !Announced(s, n) && [n][1..] == [];
    assert Unannounced(s, [n]) == [n];
  }

  lemma {:induction false} WithoutConcat(a: seq<Node>, n: Node, b: seq<Node>)
    requires n !in a && n !in b
    ensures Without(a + [n] + b, {n}) == a + b
  {
    if a == [] {
      assert [] + [n] + b == [n] + b;
      WithoutNone(b, n);
    } else {
      assert (a + [n] + b)[1..] == a[1..] + [n] + b;
      WithoutConcat(a[1..], n, b);
    }
  }

  lemma {:induction false} WithoutNone(b: seq<Node>, n: Node)
    requires n !in b
    ensures Without(b, {n}) == b
  {
    if b != [] {
      WithoutNone(b[1..], n);
    }
  }

  // ----- Beginning an operation -----

  lemma {:induction false} UnannouncedIn(s: State, v: seq<Node>, u: Node)
    requires u in Unannounced(s, v)
    ensures u in v
  {
    if u !in v[1..] && Announced(s, v[0]) {
      UnannouncedIn(s, v[1..], u);
    } else if u != v[0] {
      UnannouncedIn(s, v[1..], u);
    }
  }

  lemma BeginFresh(s: State, v: seq<Node>, a: Action)
    requires ListOk(s, v) && s.leaves == Unannounced(s, v) && Enabled(s, a) && !a.Advance? && NodesOk(s, v)
    ensures a.n in v && (a.BeginSplit? ==> a.nr !in v && a.nr !in s.retired)
  {
    hide Distinct, LinkOk, Unannounced, Accounted;
    UnannouncedIn(s, v, a.n);
  }

  lemma BeginList(s: State, v: seq<Node>, a: Action)
    requires ListOk(s, v) && LocksOk(s) && Enabled(s, a) && !a.Advance? && OpsOk(s, v)
    requires a.n in v && (a.BeginSplit? ==> a.nr !in v && a.nr !in s.retired)
    ensures ListOk(Do(s, a), v)
  {
    hide Leftover, Unannounced, Distinct, LinkOk;
    var s' := Do(s, a);
    forall i | 0 <= i < |v| ensures SameView(s, s', v[i]) {
      BeginView(s, v, a, v[i]);
    }
    ListStays(s, s', v);
  }

  lemma BeginView(s: State, v: seq<Node>, a: Action, u: Node)
    requires LocksOk(s) && Enabled(s, a) && !a.Advance? && OpsOk(s, v) && u in v && u in s.next && u !in s.retired
    requires a.BeginSplit? ==> a.nr !in v
    ensures SameView(s, Do(s, a), u)
  {
    hide OpOk, Leftover;
  }

  lemma BeginOps(s: State, v: seq<Node>, a: Action, t1: Tid)
    requires Enabled(s, a) && !a.Advance? && t1 in s.ops && OpOk(s, v, t1)
    requires a.n in v && (a.BeginSplit? ==> a.nr !in v && a.nr !in s.retired)
    ensures OpOk(Do(s, a), v, t1)
  {
    hide Leftover;
    if s.ops[t1].SplitPublish? {
      LeftoverStays(s, Do(s, a), s.ops[t1].next, s.NextOf(s.ops[t1].nr).Strip());
    }
  }

  lemma BeginRest(s: State, v: seq<Node>, a: Action)
    requires LocksOk(s) && NodesOk(s, v) && Enabled(s, a) && !a.Advance?
    requires a.n in v && (a.BeginSplit? ==> a.nr !in v && a.nr !in s.retired)
    ensures LocksOk(Do(s, a)) && NodesOk(Do(s, a), v)
  {
  }

  lemma BeginLeaves(s: State, v: seq<Node>, a: Action)
    requires LocksOk(s) && Enabled(s, a) && !a.Advance? && (a.BeginSplit? ==> a.nr !in v)
    ensures Unannounced(Do(s, a), v) == Unannounced(s, v)
  {
    hide Unannounced;
    SameAnnounced(s, Do(s, a), v);
  }

  lemma BeginMarks(s: State, v: seq<Node>, a: Action)
    requires LocksOk(s) && OpsOk(s, v) && Enabled(s, a) && !a.Advance? && MarksOk(s, v)
    requires a.BeginSplit? ==> a.nr !in v
    ensures MarksOk(Do(s, a), v)
  {
    hide Leftover, PrevLink, OwnLink;
  }

  lemma BeginKeepsInv(s: State, v: seq<Node>, a: Action)
    requires Inv(s, v) && Enabled(s, a) && !a.Advance?
    ensures Inv(Do(s, a), v)
  {
    hide ListOk, LocksOk, NodesOk, MarksOk, OpOk, Unannounced;
    var s' := Do(s, a);
    BeginFresh(s, v, a);
    BeginList(s, v, a);
    BeginRest(s, v, a);
    BeginLeaves(s, v, a);
    BeginMarks(s, v, a);
    forall t1 | t1 in s'.ops ensures OpOk(s', v, t1) {
      assert OpOk(s, v, t1);
      BeginOps(s, v, a, t1);
    }
  }

  // ----- The invariant over all runs -----

  lemma QuietKeepsInv(s: State, v: seq<Node>, t: Tid)
    requires Inv(s, v) && t in s.ops && Quiet(s.ops[t])
    ensures Inv(AdvanceThread(s, t), v)
  {
    hide ListOk, LocksOk, NodesOk, MarksOk, OpOk, Unannounced;
    var s' := AdvanceThread(s, t);
    assert OpOk(s, v, t);
    if s.ops[t].UnlinkSetPrev? {
      UnlinkSetPrevList(s, v, t);
    } else {
      QuietList(s, v, t);
    }
    QuietLocks(s, v, t);
    QuietNodes(s, v, t);
    QuietMarks(s, v, t);
    forall t1 | t1 in s'.ops ensures OpOk(s', v, t1) {
      assert OpOk(s, v, t1);
      QuietOps(s, v, t, t1);
    }
  }

  lemma QuietOps(s: State, v: seq<Node>, t: Tid, t1: Tid)
    requires Inv(s, v) && t in s.ops && t1 in s.ops && Quiet(s.ops[t])
    requires OpOk(s, v, t) && OpOk(s, v, t1)
    ensures OpOk(AdvanceThread(s, t), v, t1)
  {
    hide ListOk, LocksOk, NodesOk, MarksOk, OpOk, Unannounced;
    if s.ops[t].UnlinkCas? {
      CasPrev(s, v, t);
    }
    if t1 == t {
      if s.ops[t].UnlinkCas? {
        UnlinkCasOwn(s, v, t);
      } else if s.ops[t].IsSplit() {
        SplitOwn(s, v, t);
      } else {
        UnlinkOwn(s, v, t);
      }
    } else if s.ops[t].SplitStart? {
      SplitStartOther(s, v, t, t1);
    } else if s.ops[t].UnlinkSetPrev? {
      UnlinkSetPrevOther(s, v, t, t1);
    } else {
      LiveOwner(s, v, t);
      QuietOther(s, v, t, t1);
    }
  }

  lemma SplitSetPrevKeepsInv(s: State, v: seq<Node>, t: Tid, k: nat)
    requires Inv(s, v) && t in s.ops && s.ops[t].SplitSetPrev? && k < |v| && v[k] == s.ops[t].n
    ensures Inv(AdvanceThread(s, t), Insert(v, k, s.ops[t].nr))
  {
    hide ListOk, LocksOk, NodesOk, MarksOk, OpOk, Unannounced, Insert;
    var s', w := AdvanceThread(s, t), Insert(v, k, s.ops[t].nr);
    assert OpOk(s, v, t);
    SplitSetPrevList(s, v, t, k);
    SplitSetPrevRest(s, v, t, k);
    SplitSetPrevMarks(s, v, t, k);
    SplitSetPrevLeaves(s, v, t, k);
    forall t1 | t1 in s'.ops ensures OpOk(s', w, t1) {
      assert OpOk(s, v, t1);
      SplitSetPrevOps(s, v, t, k, t1);
    }
  }

  lemma SplitPublishKeepsInv(s: State, v: seq<Node>, t: Tid)
    requires Inv(s, v) && t in s.ops && s.ops[t].SplitPublish?
    ensures Inv(AdvanceThread(s, t), v)
  {
    hide ListOk, LocksOk, NodesOk, MarksOk, OpOk, Unannounced;
    var s' := AdvanceThread(s, t);
    assert OpOk(s, v, t);
    SplitPublishList(s, v, t);
    SplitPublishRest(s, v, t);
    SplitPublishMarks(s, v, t);
    SplitPublishLeaves(s, v, t);
    forall t1 | t1 in s'.ops ensures OpOk(s', v, t1) {
      assert OpOk(s, v, t1);
      LiveOwner(s, v, t);
      SplitPublishOps(s, v, t, t1);
    }
  }

  lemma UnlinkStoreKeepsInv(s: State, v: seq<Node>, t: Tid, k: nat)
    requires Inv(s, v) && t in s.ops && s.ops[t].UnlinkStore?
    requires k + 1 < |v| && v[k] == s.ops[t].prev && v[k + 1] == s.ops[t].n
    ensures Inv(AdvanceThread(s, t), Remove(v, k + 1))
  {
    hide ListOk, LocksOk, NodesOk, MarksOk, OpOk, Unannounced, Remove;
    var s', w := AdvanceThread(s, t), Remove(v, k + 1);
    assert OpOk(s, v, t);
    UnlinkStoreList(s, v, t, k);
    UnlinkStoreRest(s, v, t, k);
    UnlinkStoreMarks(s, v, t, k);
    UnlinkStoreLeaves(s, v, t, k);
    forall t1 | t1 in s'.ops ensures OpOk(s', w, t1) {
      assert OpOk(s, v, t1);
      UnlinkStoreOps(s, v, t, k, t1);
    }
  }

  // Every step of every thread keeps the invariant; w is the list afterwards.
  lemma StepKeepsInv(s: State, v: seq<Node>, a: Action) returns (w: seq<Node>)
    requires Inv(s, v) && Enabled(s, a)
    ensures Inv(Do(s, a), w)
  {
    hide ListOk, LocksOk, NodesOk, MarksOk, OpOk, Unannounced, LinkOk;
    w := v;
    match a
    case BeginSplit(_, _, _) => BeginKeepsInv(s, v, a);
    case BeginUnlink(_, _) => BeginKeepsInv(s, v, a);
    case Advance(t) =>
      assert OpOk(s, v, t);
      match s.ops[t]
      case Idle =>
      case SplitSetPrev(_, nr, _) =>
        var k := After(s, v, t);
        SplitSetPrevKeepsInv(s, v, t, k);
        w := Insert(v, k, nr);
      case SplitPublish(_, _, _) => SplitPublishKeepsInv(s, v, t);
      case UnlinkStore(_, _, _) =>
        var k := Before(s, v, t);
        UnlinkStoreKeepsInv(s, v, t, k);
        w := Remove(v, k + 1);
      case _ => QuietKeepsInv(s, v, t);
  }

  lemma OncePerNode(s: State, v: seq<Node>, i: nat, j: nat)
    requires ListOk(s, v) && i < |v| && j < |v| && v[i] == v[j]
    ensures i == j
  {
  }
}
