// Replacing a leaf of the sibling list by one or more new leaves, under the leaves' link locks, as a
// state machine over the loads, stores and lock attempts of any number of threads.
module LinkLocks {

  type Node = nat
  type Tid = nat

  datatype Option<+T> = None | Some(value: T)

  // What a thread is about to do.
  datatype Stage =
    | ReadPrev      // prev_leaf = old_leaf->prev_leaf_
    | TryPrev       // prev_leaf->try_get_link_lock()
    | CheckPrev     // prev_leaf == old_leaf->prev_leaf_
    | DropPrev      // prev_leaf->release_link_lock(), and again
    | SetNext       // prev_leaf->next_leaf_ = left_leaf
    | SetPrev       // left_leaf->prev_leaf_ = prev_leaf
    | LockRight     // right_leaf->get_link_lock()
    | LockOld       // old_leaf->get_link_lock()
    | ReadNext      // next_leaf = old_leaf->next_leaf_
    | SetRightNext  // right_leaf->next_leaf_ = next_leaf
    | SetNextPrev   // next_leaf->prev_leaf_ = right_leaf
    | FreePrev      // left_leaf->prev_leaf_->release_link_lock()
    | FreeRight     // right_leaf->release_link_lock()
    | Unlock        // one new leaf: new_leaf->release_lock()
  {
    // The new leaves have taken the place of the old one, but the link to the next leaf is still
    // the old leaf's.
    predicate Pending() {
      SetPrev? || LockRight? || LockOld? || ReadNext? || SetRightNext? || SetNextPrev?
    }

    predicate Before() { ReadPrev? || TryPrev? || CheckPrev? || DropPrev? || SetNext? }

    predicate HoldsPrev() { CheckPrev? || DropPrev? || SetNext? || Pending() || FreePrev? || Unlock? }

    predicate HoldsRight() { LockOld? || ReadNext? || SetRightNext? || SetNextPrev? || FreePrev? || FreeRight? || Unlock? }

    predicate HoldsOld() { ReadNext? || SetRightNext? || SetNextPrev? || FreePrev? || FreeRight? || Unlock? }
  }

  // `chain` are the new leaves, already linked to each other; one for a resize. `p` and `next` are
  // the thread's local variables. A split keeps its new leaves locked until it has released the link
  // locks. A resize releases its new leaf first, and the link locks afterwards: it is Freeing then, with
  // `prev` the previous leaf, and another thread can already replace the new leaf.
  datatype Op =
    | Idle
    | Replace(stage: Stage, old_: Node, chain: seq<Node>, p: Option<Node>, next: Option<Node>)
    | Freeing(node: Node, prev: Option<Node>, prevFreed: bool)
  {
    function Left(): Node
      requires Replace? && chain != []
    {
      chain[0]
    }

    function Right(): Node
      requires Replace? && chain != []
    {
      chain[|chain| - 1]
    }
  }

  // The keys of a leaf are those from `lo` up to `hi`.
  datatype Range = Range(lo: int, hi: int)

  // `link` are the link locks, `lock` the data-node locks: an operation holds those of its old leaf and
  // of its new leaves. `leaves` is the abstract list of leaves, which changes when a replacement
  // stores the previous leaf's next pointer.
  datatype State = State(
    next: map<Node, Option<Node>>, prev: map<Node, Option<Node>>, link: map<Node, Tid>, lock: map<Node, Tid>,
    ops: map<Tid, Op>, range: map<Node, Range>, leaves: seq<Node>)
  {
    function NextOf(u: Node): Option<Node> { if u in next then next[u] else None }
    function PrevOf(u: Node): Option<Node> { if u in prev then prev[u] else None }

    // Where the ends of the new leaves lead at first: those of a split nowhere; the new leaf of a resize is
    // a copy of the old one, pointers included.
    function NextAtFirst(o: Node, chain: seq<Node>): Option<Node> { if |chain| == 1 then NextOf(o) else None }
    function PrevAtFirst(o: Node, chain: seq<Node>): Option<Node> { if |chain| == 1 then PrevOf(o) else None }
  }

  ghost predicate Distinct(v: seq<Node>) {
    forall i, j :: 0 <= i < j < |v| ==> v[i] != v[j]
  }

  // Side by side from lo to hi, none of them empty.
  ghost predicate Tile(range: map<Node, Range>, v: seq<Node>, lo: int, hi: int)
    decreases |v|
  {
    if v == [] then lo == hi
    else v[0] in range && range[v[0]].lo == lo < range[v[0]].hi && Tile(range, v[1..], range[v[0]].hi, hi)
  }

  function IndexOf(v: seq<Node>, u: Node): (i: nat)
    requires u in v
    ensures i < |v| && v[i] == u
  {
    if v[0] == u then 0 else 1 + IndexOf(v[1..], u)
  }

  // v with the chain in the place of u.
  function Swap(v: seq<Node>, u: Node, chain: seq<Node>): seq<Node> {
    if u in v then v[..IndexOf(v, u)] + chain + v[IndexOf(v, u) + 1..] else v
  }

  // ----- Steps -----

  datatype Action = Begin(t: Tid, old_: Node, chain: seq<Node>, ranges: map<Node, Range>) | Advance(t: Tid)

  // A thread that has locked a leaf starts to replace it by new leaves that divide its keys.
  ghost predicate Enabled(s: State, a: Action) {
    match a
    case Begin(t, o, chain, ranges) =>
      && t in s.ops && s.ops[t].Idle? && o in s.leaves && o !in s.lock && o in s.range
      && chain != [] && Distinct(chain) && (forall u | u in chain :: u !in s.next) && o !in chain
      && ranges.Keys == (set u | u in chain) && Tile(ranges, chain, s.range[o].lo, s.range[o].hi)
    case Advance(t) => t in s.ops
  }

  ghost function Do(s: State, a: Action): State
    requires Enabled(s, a)
  {
    match a
    case Begin(t, o, chain, ranges) =>
      s.(next := WithNexts(s.next, chain, s.NextAtFirst(o, chain)), prev := WithPrevs(s.prev, chain, s.PrevAtFirst(o, chain)),
         lock := WithLocks(s.lock, chain, t)[o := t], range := s.range + ranges,
         ops := s.ops[t := Replace(ReadPrev, o, chain, None, None)])
    case Advance(t) => Step(s, t)
  }

  // The new leaves linked to each other, and locked.
  function WithNexts(m: map<Node, Option<Node>>, chain: seq<Node>, last: Option<Node>): (r: map<Node, Option<Node>>)
    ensures forall u :: u in r <==> u in m || u in chain
    ensures forall u :: u in r ==> r[u] == if u in chain then ChainNext(chain, u, last) else m[u]
  {
    m + (map u | u in chain :: ChainNext(chain, u, last))
  }

  function WithPrevs(m: map<Node, Option<Node>>, chain: seq<Node>, first: Option<Node>): (r: map<Node, Option<Node>>)
    ensures forall u :: u in r <==> u in m || u in chain
    ensures forall u :: u in r ==> r[u] == if u in chain then ChainPrev(chain, u, first) else m[u]
  {
    m + (map u | u in chain :: ChainPrev(chain, u, first))
  }

  function WithLocks(m: map<Node, Tid>, chain: seq<Node>, t: Tid): (r: map<Node, Tid>)
    ensures forall u :: u in r <==> u in m || u in chain
    ensures forall u :: u in r ==> r[u] == if u in chain then t else m[u]
  {
    m + (map u | u in chain :: t)
  }

  function ChainNext(chain: seq<Node>, u: Node, last: Option<Node>): Option<Node>
    requires u in chain
  {
    var i := IndexOf(chain, u);
    if i + 1 < |chain| then Some(chain[i + 1]) else last
  }

  function ChainPrev(chain: seq<Node>, u: Node, first: Option<Node>): Option<Node>
    requires u in chain
  {
    var i := IndexOf(chain, u);
    if i > 0 then Some(chain[i - 1]) else first
  }

  // What one step changes: the shared memory and the thread's own operation.
  datatype Effect = Effect(
    next: map<Node, Option<Node>>, prev: map<Node, Option<Node>>, link: map<Node, Tid>, lock: map<Node, Tid>,
    leaves: seq<Node>, op: Op)

  function Step(s: State, t: Tid): State
    requires t in s.ops
  {
    var op := s.ops[t];
    if op.Freeing? then FreeStep(s, t, op) else
    if op.Idle? || op.chain == [] then s else
    var e := StepOf(s, t, op);
    s.(next := e.next, prev := e.prev, link := e.link, lock := e.lock, leaves := e.leaves, ops := s.ops[t := e.op])
  }

  // new_leaf->prev_leaf_->release_link_lock(), and then new_leaf->release_link_lock()
  function FreeStep(s: State, t: Tid, op: Op): State
    requires t in s.ops && op.Freeing?
  {
    if !op.prevFreed then
      var p := s.PrevOf(op.node);
      s.(link := if p.Some? then s.link - {p.value} else s.link, ops := s.ops[t := op.(prevFreed := true)])
    else s.(link := s.link - {op.node}, ops := s.ops[t := Idle])
  }

  // One step of a thread. An attempt to take a held link lock changes nothing, or for the previous
  // leaf goes back to reading which that is.
  function StepOf(s: State, t: Tid, op: Op): (e: Effect)
    requires op.Replace? && op.chain != []
    ensures e.op.Replace? ==> e.op.old_ == op.old_ && e.op.chain == op.chain
    ensures s.next.Keys <= e.next.Keys
  {
    var e := Effect(s.next, s.prev, s.link, s.lock, s.leaves, op);
    match op.stage
    case ReadPrev =>
      var p := s.PrevOf(op.old_);
      if p == None then e.(op := op.(stage := LockRight, p := None), leaves := Swap(s.leaves, op.old_, op.chain))
      else e.(op := op.(stage := TryPrev, p := p))
    case TryPrev =>
      if op.p.None? || op.p.value in s.link then e.(op := op.(stage := ReadPrev))
      else e.(link := s.link[op.p.value := t], op := op.(stage := CheckPrev))
    case CheckPrev =>
      e.(op := op.(stage := if op.p == s.PrevOf(op.old_) then SetNext else DropPrev))
    case DropPrev =>
      e.(link := if op.p.Some? then s.link - {op.p.value} else s.link, op := op.(stage := ReadPrev))
    case SetNext =>
      e.(next := if op.p.Some? then s.next[op.p.value := Some(op.Left())] else s.next,
         leaves := Swap(s.leaves, op.old_, op.chain), op := op.(stage := SetPrev))
    case SetPrev =>
      e.(prev := s.prev[op.Left() := op.p], op := op.(stage := LockRight))
    case LockRight =>
      if op.Right() in s.link then e
      else e.(link := s.link[op.Right() := t], op := op.(stage := LockOld))
    case LockOld =>
      if op.old_ in s.link then e
      else e.(link := s.link[op.old_ := t], op := op.(stage := ReadNext))
    case ReadNext =>
      e.(op := op.(stage := SetRightNext, next := s.NextOf(op.old_)))
    case SetRightNext =>
      e.(next := if op.next.Some? then s.next[op.Right() := op.next] else s.next, op := op.(stage := SetNextPrev))
    case SetNextPrev =>
      e.(prev := if op.next.Some? then s.prev[op.next.value := Some(op.Right())] else s.prev, op := op.(stage := if |op.chain| == 1 then Unlock else FreePrev))
    case Unlock =>
      e.(lock := s.lock - {op.old_, op.Right()}, op := Freeing(op.Right(), op.p, false))
    case FreePrev =>
      var p := s.PrevOf(op.Left());
      e.(link := if p.Some? then s.link - {p.value} else s.link, op := op.(stage := FreeRight))
    case FreeRight =>
      e.(link := s.link - {op.Right()}, op := Idle, lock := s.lock - ((set u | u in op.chain) + {op.old_}))
  }

  // ----- The invariant -----

  predicate OpOn(s: State, u: Node) { u in s.lock && s.lock[u] in s.ops && s.ops[s.lock[u]].Replace? && s.ops[s.lock[u]].chain != [] }

  function OpAt(s: State, u: Node): Op
    requires OpOn(s, u)
  {
    s.ops[s.lock[u]]
  }

  // u is the rightmost new leaf of a replacement whose link to the next leaf is still the old leaf's.
  predicate Dangling(s: State, u: Node) { OpOn(s, u) && OpAt(s, u).stage.Pending() && OpAt(s, u).Right() == u }

  // The node that holds u's link to the next leaf.
  function Owner(s: State, u: Node): Node { if Dangling(s, u) then OpAt(s, u).old_ else u }

  // x is the leftmost new leaf of a replacement that is about to store its prev pointer.
  predicate Unset(s: State, x: Node) { OpOn(s, x) && OpAt(s, x).stage.SetPrev? && OpAt(s, x).Left() == x }

  ghost predicate LinkOk(s: State, u: Node, x: Node) {
    && s.NextOf(Owner(s, u)) == Some(x)
    && (if Unset(s, x) then OpAt(s, x).p == Some(Owner(s, u)) else s.PrevOf(x) == Some(Owner(s, u)))
  }

  ghost predicate ListOk(s: State) {
    && s.leaves != [] && Distinct(s.leaves)
    && (forall i :: 0 <= i < |s.leaves| ==> s.leaves[i] in s.next && s.leaves[i] in s.prev)
    && (forall i :: 0 <= i < |s.leaves| - 1 ==> LinkOk(s, s.leaves[i], s.leaves[i + 1]))
    && s.PrevOf(s.leaves[0]) == None && !Unset(s, s.leaves[0])
    && s.NextOf(Owner(s, s.leaves[|s.leaves| - 1])) == None
  }

  // The new leaves before they are linked in.
  ghost predicate Private(s: State, op: Op)
    requires op.Replace? && op.chain != []
  {
    && (forall u | u in op.chain :: u !in s.leaves)
    && (forall i :: 0 <= i < |op.chain| - 1 ==>
          s.NextOf(op.chain[i]) == Some(op.chain[i + 1]) && s.PrevOf(op.chain[i + 1]) == Some(op.chain[i]))
    && (s.PrevOf(op.old_) == None ==> s.PrevOf(op.Left()) == None) && NoNext(s, op)
  }

  // Where the old leaf is the last, the right new leaf leads nowhere.
  ghost predicate NoNext(s: State, op: Op)
    requires op.Replace? && op.chain != []
  {
    s.NextOf(op.old_) == None ==> s.NextOf(op.Right()) == None
  }

  predicate Has(m: map<Node, Tid>, t: Tid, u: Node) { u in m && m[u] == t }

  ghost predicate OpOk(s: State, t: Tid)
    requires t in s.ops
  {
    && (s.ops[t].Replace? ==> NodesOfOp(s, t, s.ops[t]) && StageOk(s, t, s.ops[t]) && PointersOk(s, s.ops[t]))
    && (s.ops[t].Freeing? ==> FreeingOk(s, t, s.ops[t]))
  }

  // A resize that has released its new leaf still holds the link locks, and nobody has made the new
  // leaf's prev pointer lead elsewhere.
  ghost predicate FreeingOk(s: State, t: Tid, op: Op)
    requires op.Freeing?
  {
    && Has(s.link, t, op.node) && op.node in s.next && op.node in s.prev && BroughtIn(s, op.node)
    && (!op.prevFreed ==>
          && s.PrevOf(op.node) == op.prev
          && (op.prev.Some? ==> Has(s.link, t, op.prev.value) && op.prev.value in s.next && op.prev.value != op.node))
  }

  // The node is not a new leaf of an operation in flight.
  predicate BroughtIn(s: State, u: Node) { OpOn(s, u) ==> u !in OpAt(s, u).chain }

  ghost predicate NodesOfOp(s: State, t: Tid, op: Op)
    requires op.Replace?
  {
    && op.chain != [] && Distinct(op.chain) && op.old_ !in op.chain
    && Has(s.lock, t, op.old_) && op.old_ in s.next && op.old_ in s.prev
    && (forall u | u in op.chain :: Has(s.lock, t, u) && u in s.next && u in s.prev)
    && (if op.stage.Before() then op.old_ in s.leaves && Private(s, op)
        else op.old_ !in s.leaves && forall u | u in op.chain :: u in s.leaves)
  }

  predicate Outside(op: Op, u: Node)
    requires op.Replace?
  {
    u != op.old_ && u !in op.chain
  }

  // The link locks an operation holds at its stage.
  ghost predicate StageOk(s: State, t: Tid, op: Op)
    requires op.Replace? && op.chain != []
  {
    && (op.stage.HoldsPrev() && op.p.Some? ==> Has(s.link, t, op.p.value))
    && (op.stage.HoldsRight() ==> Has(s.link, t, op.Right()))
    && (op.stage.HoldsOld() ==> Has(s.link, t, op.old_))
    && (!op.stage.HoldsRight() ==> op.Right() !in s.link)
    && (op.stage.TryPrev? || op.stage.CheckPrev? || op.stage.DropPrev? || op.stage.SetNext? || op.stage.SetPrev? ==> op.p.Some?)
    && (op.p.Some? ==> op.p.value in s.next)
    && ((op.stage.SetNext? || op.stage.Pending() || op.stage.FreePrev? || op.stage.Unlock?) && op.p.Some? ==> Outside(op, op.p.value))
    && (op.stage.TryPrev? ==> Public(s, op.p.value))
    && (op.stage.Unlock? ==> |op.chain| == 1) && (op.stage.FreePrev? || op.stage.FreeRight? ==> |op.chain| > 1)
  }

  // What an operation knows of the pointers.
  ghost predicate PointersOk(s: State, op: Op)
    requires op.Replace? && op.chain != []
  {
    && (op.stage.SetNext? ==> s.PrevOf(op.old_) == op.p)
    && ((op.stage.Pending() && !op.stage.SetPrev?) || op.stage.FreePrev? || op.stage.Unlock? ==> s.PrevOf(op.Left()) == op.p)
    && (op.stage.SetRightNext? || op.stage.SetNextPrev? ==> op.next == s.NextOf(op.old_))
    && (op.stage.SetNextPrev? ==> s.NextOf(op.Right()) == op.next)
    && (op.stage.Pending() && !op.stage.SetNextPrev? ==> NoNext(s, op))
  }

  // No prev pointer may lead to the rightmost new leaf before the next leaf's does.
  predicate Public(s: State, y: Node) {
    !(OpOn(s, y) && OpAt(s, y).Right() == y && (OpAt(s, y).stage.Before() || OpAt(s, y).stage.Pending()))
  }

  ghost predicate LockOk(s: State, u: Node)
    requires u in s.lock
  {
    OpOn(s, u) && (u == OpAt(s, u).old_ || u in OpAt(s, u).chain)
  }

  predicate HeldBy(op: Op, u: Node) {
    || (op.Freeing? && (op.node == u || (!op.prevFreed && op.prev == Some(u))))
    || (op.Replace? && op.chain != [] && ((op.stage.HoldsPrev() && op.p == Some(u)) || (op.stage.HoldsRight() && op.Right() == u) || (op.stage.HoldsOld() && op.old_ == u)))
  }

  // A leaf that has been replaced for good keeps its link lock for ever.
  predicate Replaced(s: State, u: Node) { u in s.next && u !in s.leaves && u !in s.lock }

  ghost predicate HolderOk(s: State, u: Node)
    requires u in s.link
  {
    s.link[u] in s.ops && (HeldBy(s.ops[s.link[u]], u) || Replaced(s, u))
  }

  ghost predicate PrevOk(s: State, x: Node)
    requires x in s.prev
  {
    s.prev[x].Some? ==> s.prev[x].value in s.next && Public(s, s.prev[x].value)
  }

  ghost predicate Inv(s: State) {
    && ListOk(s)
    && (forall t | t in s.ops :: OpOk(s, t))
    && (forall u | u in s.lock :: LockOk(s, u))
    && (forall u | u in s.link :: HolderOk(s, u))
    && (forall x | x in s.prev :: PrevOk(s, x))
  }

  // ----- The list -----

  // What ListOk says of u is the same in both states.
  ghost predicate SameView(s: State, s': State, u: Node) {
    && u in s'.next && u in s'.prev && Owner(s', u) == Owner(s, u) && s'.NextOf(Owner(s, u)) == s.NextOf(Owner(s, u))
    && s'.PrevOf(u) == s.PrevOf(u) && (Unset(s, u) <==> Unset(s', u)) && (Unset(s, u) ==> OpAt(s', u).p == OpAt(s, u).p)
  }

  lemma ListStays(s: State, s': State)
    requires ListOk(s) && s'.leaves == s.leaves && forall i :: 0 <= i < |s.leaves| ==> SameView(s, s', s.leaves[i])
    ensures ListOk(s')
  {
    hide SameView, LinkOk;
    forall i | 0 <= i < |s.leaves| - 1 ensures LinkOk(s', s'.leaves[i], s'.leaves[i + 1]) {
      assert SameView(s, s', s.leaves[i]) && SameView(s, s', s.leaves[i + 1]) && LinkOk(s, s.leaves[i], s.leaves[i + 1]);
      LinkStays(s, s', s.leaves[i], s.leaves[i + 1]);
    }
    forall i | 0 <= i < |s.leaves| ensures s'.leaves[i] in s'.next && s'.leaves[i] in s'.prev {
      assert SameView(s, s', s.leaves[i]);
      ViewIn(s, s', s.leaves[i]);
    }
    assert SameView(s, s', s.leaves[0]) && SameView(s, s', s.leaves[|s.leaves| - 1]);
    EndsStay(s, s', s.leaves[0], s.leaves[|s.leaves| - 1]);
  }

  lemma LinkStays(s: State, s': State, u: Node, x: Node)
    requires LinkOk(s, u, x) && SameView(s, s', u) && SameView(s, s', x)
    ensures LinkOk(s', u, x)
  {
  }

  lemma ViewIn(s: State, s': State, u: Node)
    requires SameView(s, s', u)
    ensures u in s'.next && u in s'.prev
  {
  }

  lemma EndsStay(s: State, s': State, u: Node, x: Node)
    requires SameView(s, s', u) && SameView(s, s', x)
    ensures s.PrevOf(u) == None && !Unset(s, u) ==> s'.PrevOf(u) == None && !Unset(s', u)
    ensures s.NextOf(Owner(s, x)) == None ==> s'.NextOf(Owner(s', x)) == None
  {
  }

  // ----- The steps that change only an operation's progress and its link locks -----

  // op' is the operation after such a step.
  ghost predicate Progress(s: State, s': State, t: Tid, op': Op)
    requires t in s.ops && s.ops[t].Replace?
  {
    && op'.Replace? && s'.ops == s.ops[t := op']
    && s'.next == s.next && s'.prev == s.prev && s'.lock == s.lock && s'.range == s.range && s'.leaves == s.leaves
    && op'.old_ == s.ops[t].old_ && op'.chain == s.ops[t].chain && !s.ops[t].stage.SetPrev? && !op'.stage.SetPrev?
    && (op'.stage.Pending() <==> s.ops[t].stage.Pending()) && (op'.stage.Before() <==> s.ops[t].stage.Before())
  }

  lemma ProgressList(s: State, s': State, t: Tid, op': Op)
    requires Inv(s) && t in s.ops && s.ops[t].Replace? && Progress(s, s', t, op')
    ensures ListOk(s')
  {
    hide SameView, LinkOk, OpOk, HolderOk, PrevOk, LockOk, Dangling, Unset;
    forall i | 0 <= i < |s.leaves| ensures SameView(s, s', s.leaves[i]) {
      ProgressView(s, s', t, op', s.leaves[i]);
    }
    ListStays(s, s');
  }

  lemma ProgressView(s: State, s': State, t: Tid, op': Op, u: Node)
    requires t in s.ops && s.ops[t].Replace? && Progress(s, s', t, op') && u in s.next && u in s.prev
    ensures SameView(s, s', u)
  {
  }

  // What such a step does to the link locks: those of other threads stay, and t's are the ones its
  // operation now accounts for.
  ghost predicate LinksFollow(s: State, s': State, t: Tid, op': Op)
    requires op'.Replace? && op'.chain != []
  {
    && (forall u | u in s.link && s.link[u] != t :: u in s'.link && s'.link[u] == s.link[u])
    && (forall u | u in s'.link && s'.link[u] != t :: u in s.link && s.link[u] == s'.link[u])
    && (forall u | u in s'.link && u !in s.link :: u == op'.old_ || u in op'.chain || Public(s, u))
    && (forall u | u in s'.link && s'.link[u] == t :: HeldBy(op', u) || Replaced(s, u))
  }

  ghost predicate Good(s: State, s': State, t: Tid, op': Op)
    requires t in s.ops && s.ops[t].Replace?
  {
    && Progress(s, s', t, op') && op'.chain != [] && StageOk(s', t, op') && PointersOk(s', op') && LinksFollow(s, s', t, op')
  }

  lemma GoodKeepsInv(s: State, s': State, t: Tid, op': Op)
    requires Inv(s) && t in s.ops && s.ops[t].Replace? && Good(s, s', t, op')
    ensures Inv(s')
  {
    hide ListOk, OpOk, LockOk, HolderOk, PrevOk, StageOk, PointersOk, LinksFollow;
    ProgressList(s, s', t, op');
    forall t1 | t1 in s'.ops ensures OpOk(s', t1) {
      assert OpOk(s, t) && OpOk(s, t1);
      if t1 == t {
        GoodOwn(s, s', t, op');
      } else {
        GoodOther(s, s', t, op', t1);
      }
    }
    forall u | u in s'.lock ensures LockOk(s', u) {
      assert LockOk(s, u);
      GoodLock(s, s', t, op', u);
    }
    forall u | u in s'.link ensures HolderOk(s', u) {
      assert u in s.link ==> HolderOk(s, u);
      GoodHolder(s, s', t, op', u);
    }
    forall x | x in s'.prev ensures PrevOk(s', x) {
      assert PrevOk(s, x);
      GoodPrev(s, s', t, op', x);
    }
  }

  lemma GoodOwn(s: State, s': State, t: Tid, op': Op)
    requires t in s.ops && s.ops[t].Replace? && Good(s, s', t, op') && OpOk(s, t)
    ensures t in s'.ops && OpOk(s', t)
  {
    hide StageOk, PointersOk, LinksFollow, Distinct;
  }

  lemma SamePrivate(s: State, s': State, op: Op)
    requires op.Replace? && op.chain != [] && s'.leaves == s.leaves && s'.next == s.next && s'.prev == s.prev
    ensures Private(s', op) == Private(s, op)
  {
  }

  lemma GoodOther(s: State, s': State, t: Tid, op': Op, t1: Tid)
    requires t in s.ops && s.ops[t].Replace? && Good(s, s', t, op') && OpOk(s, t) && t1 != t && t1 in s.ops && OpOk(s, t1)
    ensures t1 in s'.ops && OpOk(s', t1)
  {
    hide Private, Distinct, StageOk, LinksFollow;
    if s.ops[t1].Replace? {
      SamePrivate(s, s', s.ops[t1]);
      GoodUntouched(s, s', t, op', t1);
      OtherKeeps(s, s', t1);
    } else if s.ops[t1].Freeing? {
      GoodFreeing(s, s', t, op', t1);
    }
  }

  lemma GoodFreeing(s: State, s': State, t: Tid, op': Op, t1: Tid)
    requires t in s.ops && s.ops[t].Replace? && Good(s, s', t, op') && t1 != t && t1 in s.ops && OpOk(s, t1) && s.ops[t1].Freeing?
    ensures t1 in s'.ops && OpOk(s', t1)
  {
    hide Private, Distinct, StageOk, PointersOk;
    FreeingKeeps(s, s', t1);
  }

  lemma GoodUntouched(s: State, s': State, t: Tid, op': Op, t1: Tid)
    requires t in s.ops && s.ops[t].Replace? && Good(s, s', t, op') && OpOk(s, t) && t1 != t && t1 in s.ops && OpOk(s, t1)
    requires s.ops[t1].Replace?
    ensures s.ops[t1].chain != [] && Untouched(s, s', t1, s.ops[t1])
  {
    hide Private, Distinct, PointersOk;
    assert s.ops[t1].Right() in s.ops[t1].chain && op'.Right() in op'.chain;
  }

  lemma GoodLock(s: State, s': State, t: Tid, op': Op, u: Node)
    requires t in s.ops && s.ops[t].Replace? && Progress(s, s', t, op') && op'.chain != [] && u in s.lock && LockOk(s, u)
    ensures LockOk(s', u)
  {
  }

  lemma GoodHolder(s: State, s': State, t: Tid, op': Op, u: Node)
    requires t in s.ops && s.ops[t].Replace? && Good(s, s', t, op') && u in s'.link && (u in s.link ==> HolderOk(s, u))
    ensures HolderOk(s', u)
  {
    hide StageOk, PointersOk;
  }

  lemma GoodPrev(s: State, s': State, t: Tid, op': Op, x: Node)
    requires t in s.ops && s.ops[t].Replace? && Progress(s, s', t, op') && op'.chain != [] && x in s.prev && PrevOk(s, x)
    ensures x in s'.prev && PrevOk(s', x)
  {
  }

  lemma ReadPrevKeeps(s: State, t: Tid)
    requires Inv(s) && t in s.ops && s.ops[t].Replace? && s.ops[t].stage.ReadPrev? && s.PrevOf(s.ops[t].old_).Some?
    ensures Inv(Step(s, t))
  {
    hide ListOk, LockOk, HolderOk, PrevOk, Private, Distinct, Inv;
    var op := s.ops[t];
    Mine(s, t);
    PublicPrev(s, t);
    GoodKeepsInv(s, Step(s, t), t, op.(stage := TryPrev, p := s.PrevOf(op.old_)));
  }

  lemma TryPrevKeeps(s: State, t: Tid)
    requires Inv(s) && t in s.ops && s.ops[t].Replace? && s.ops[t].stage.TryPrev?
    ensures Inv(Step(s, t))
  {
    hide ListOk, OpOk, LockOk, HolderOk, PrevOk, Inv, Step, HeldBy;
    Mine(s, t);
    TryPrevGood(s, t);
    GoodKeepsInv(s, Step(s, t), t, TryPrevNext(s, t));
  }

  function TryPrevNext(s: State, t: Tid): Op
    requires t in s.ops && s.ops[t].Replace?
  {
    var op := s.ops[t];
    op.(stage := if op.p.None? || op.p.value in s.link then ReadPrev else CheckPrev)
  }

  lemma TryPrevGood(s: State, t: Tid)
    requires t in s.ops && s.ops[t].Replace? && s.ops[t].stage.TryPrev? && OpOk(s, t)
    requires forall u | u in s.link && s.link[u] == t :: HeldBy(s.ops[t], u) || Replaced(s, u)
    ensures Good(s, Step(s, t), t, TryPrevNext(s, t))
  {
    hide Private, Distinct;
  }

  lemma CheckPrevKeeps(s: State, t: Tid)
    requires Inv(s) && t in s.ops && s.ops[t].Replace? && s.ops[t].stage.CheckPrev?
    ensures Inv(Step(s, t))
  {
    hide ListOk, LockOk, HolderOk, PrevOk, Private, Distinct, Inv;
    var op := s.ops[t];
    Mine(s, t);
    PrevIsOutside(s, t);
    GoodKeepsInv(s, Step(s, t), t, op.(stage := if op.p == s.PrevOf(op.old_) then SetNext else DropPrev));
  }

  lemma DropPrevKeeps(s: State, t: Tid)
    requires Inv(s) && t in s.ops && s.ops[t].Replace? && s.ops[t].stage.DropPrev?
    ensures Inv(Step(s, t))
  {
    hide ListOk, LockOk, HolderOk, PrevOk, Private, Distinct, Inv;
    var op := s.ops[t];
    Mine(s, t);
    GoodKeepsInv(s, Step(s, t), t, op.(stage := ReadPrev));
  }

  lemma LockRightKeeps(s: State, t: Tid)
    requires Inv(s) && t in s.ops && s.ops[t].Replace? && s.ops[t].stage.LockRight?
    ensures Inv(Step(s, t))
  {
    hide ListOk, LockOk, HolderOk, PrevOk, Private, Distinct, Inv;
    var op := s.ops[t];
    Mine(s, t);
    GoodKeepsInv(s, Step(s, t), t, op.(stage := LockOld));
  }

  lemma LockOldKeeps(s: State, t: Tid)
    requires Inv(s) && t in s.ops && s.ops[t].Replace? && s.ops[t].stage.LockOld?
    ensures Inv(Step(s, t))
  {
    hide ListOk, LockOk, HolderOk, PrevOk, Private, Distinct, Inv;
    var op := s.ops[t];
    Mine(s, t);
    GoodKeepsInv(s, Step(s, t), t, if op.old_ in s.link then op else op.(stage := ReadNext));
  }

  lemma ReadNextKeeps(s: State, t: Tid)
    requires Inv(s) && t in s.ops && s.ops[t].Replace? && s.ops[t].stage.ReadNext?
    ensures Inv(Step(s, t))
  {
    hide ListOk, LockOk, HolderOk, PrevOk, Private, Distinct, Inv;
    var op := s.ops[t];
    Mine(s, t);
    GoodKeepsInv(s, Step(s, t), t, op.(stage := SetRightNext, next := s.NextOf(op.old_)));
  }

  lemma FreePrevKeeps(s: State, t: Tid)
    requires Inv(s) && t in s.ops && s.ops[t].Replace? && s.ops[t].stage.FreePrev?
    ensures Inv(Step(s, t))
  {
    hide ListOk, OpOk, LockOk, HolderOk, PrevOk, Inv, Step, HeldBy;
    Mine(s, t);
    FreePrevGood(s, t);
    GoodKeepsInv(s, Step(s, t), t, FreePrevNext(s, t));
  }

  function FreePrevNext(s: State, t: Tid): Op
    requires t in s.ops && s.ops[t].Replace?
  {
    var op := s.ops[t];
    op.(stage := FreeRight)
  }

  lemma FreePrevGood(s: State, t: Tid)
    requires t in s.ops && s.ops[t].Replace? && s.ops[t].stage.FreePrev? && OpOk(s, t)
    requires forall u | u in s.link && s.link[u] == t :: HeldBy(s.ops[t], u) || Replaced(s, u)
    ensures Good(s, Step(s, t), t, FreePrevNext(s, t))
  {
    hide Private, Distinct;
  }

  lemma Mine(s: State, t: Tid)
    requires Inv(s) && t in s.ops
    ensures OpOk(s, t) && forall u | u in s.link && s.link[u] == t :: HeldBy(s.ops[t], u) || Replaced(s, u)
  {
    hide ListOk, LockOk, PrevOk, OpOk;
    forall u | u in s.link && s.link[u] == t ensures HeldBy(s.ops[t], u) || Replaced(s, u) {
      assert HolderOk(s, u);
    }
  }

  lemma PublicPrev(s: State, t: Tid)
    requires Inv(s) && t in s.ops && s.ops[t].Replace? && s.ops[t].old_ in s.prev && s.prev[s.ops[t].old_].Some?
    ensures s.prev[s.ops[t].old_].value in s.next && Public(s, s.prev[s.ops[t].old_].value)
  {
    hide ListOk, LockOk, HolderOk, OpOk;
    assert PrevOk(s, s.ops[t].old_);
  }

  // A node that still stands in the list has a position there, with its neighbours.
  lemma Standing(s: State, u: Node) returns (k: nat)
    requires ListOk(s) && u in s.leaves
    ensures k < |s.leaves| && s.leaves[k] == u
    ensures k == 0 ==> s.PrevOf(u) == None && !Unset(s, u)
    ensures k > 0 ==> LinkOk(s, s.leaves[k - 1], u)
    ensures k + 1 < |s.leaves| ==> LinkOk(s, u, s.leaves[k + 1])
    ensures k + 1 == |s.leaves| ==> s.NextOf(Owner(s, u)) == None
  {
    k :| 0 <= k < |s.leaves| && s.leaves[k] == u;
    assert k > 0 ==> LinkOk(s, s.leaves[k - 1], s.leaves[k - 1 + 1]);
  }

  lemma PrevIsOutside(s: State, t: Tid)
    requires Inv(s) && t in s.ops && s.ops[t].Replace? && s.ops[t].stage.Before()
    ensures s.PrevOf(s.ops[t].old_).Some? ==> Outside(s.ops[t], s.PrevOf(s.ops[t].old_).value)
    ensures s.PrevOf(s.ops[t].old_) == None <==> s.leaves[0] == s.ops[t].old_
  {
    hide StageOk, PointersOk, HolderOk, PrevOk;
    assert OpOk(s, t);
    var o := s.ops[t].old_;
    var k := Standing(s, o);
    if k > 0 {
      var u := s.leaves[k - 1];
      assert u != o && u in s.leaves;
      assert OpOn(s, u) ==> OpOk(s, s.lock[u]);
    }
  }

  lemma Pieces(s: State, t: Tid)
    requires Inv(s) && t in s.ops
    ensures OpOk(s, t) && (forall u | u in s.link :: HolderOk(s, u)) && (forall x | x in s.prev :: PrevOk(s, x))
  {
  }

  // ----- The resize's releases of its link locks -----

  lemma FreeView(s: State, t: Tid, u: Node)
    requires t in s.ops && s.ops[t].Freeing? && u in s.next && u in s.prev && (u in s.lock ==> LockOk(s, u))
    ensures SameView(s, Step(s, t), u)
  {
  }

  lemma FreeList(s: State, t: Tid)
    requires Inv(s) && t in s.ops && s.ops[t].Freeing?
    ensures ListOk(Step(s, t))
  {
    hide SameView, LinkOk, OpOk, HolderOk, PrevOk, LockOk, Dangling, Unset;
    forall i | 0 <= i < |s.leaves| ensures SameView(s, Step(s, t), s.leaves[i]) {
      FreeView(s, t, s.leaves[i]);
    }
    ListStays(s, Step(s, t));
  }

  lemma FreeOther(s: State, t: Tid, t1: Tid)
    requires t in s.ops && s.ops[t].Freeing? && OpOk(s, t) && t1 in s.ops && OpOk(s, t1)
    ensures t1 in Step(s, t).ops && OpOk(Step(s, t), t1)
  {
    hide Distinct, Private, StageOk;
    if t1 != t && s.ops[t1].Replace? {
      SamePrivate(s, Step(s, t), s.ops[t1]);
      FreeUntouched(s, t, t1);
      OtherKeeps(s, Step(s, t), t1);
    }
  }

  lemma FreeUntouched(s: State, t: Tid, t1: Tid)
    requires t in s.ops && s.ops[t].Freeing? && OpOk(s, t) && t1 in s.ops && t1 != t && OpOk(s, t1) && s.ops[t1].Replace?
    ensures s.ops[t1].chain != [] && Untouched(s, Step(s, t), t1, s.ops[t1])
  {
    hide Private, Distinct, PointersOk;
    assert s.ops[t1].Right() in s.ops[t1].chain;
  }

  lemma FreeRest(s: State, t: Tid, u: Node)
    requires t in s.ops && s.ops[t].Freeing? && OpOk(s, t)
    requires (u in s.lock ==> LockOk(s, u)) && (u in s.link ==> HolderOk(s, u)) && (u in s.prev ==> PrevOk(s, u))
    requires u in s.prev && s.prev[u].Some? && s.prev[u].value in s.lock ==> LockOk(s, s.prev[u].value)
    ensures var s' := Step(s, t);
            && s'.prev == s.prev && s'.lock == s.lock && s'.link.Keys <= s.link.Keys
            && (u in s'.lock ==> LockOk(s', u)) && (u in s'.link ==> HolderOk(s', u)) && (u in s.prev ==> PrevOk(s', u))
  {
  }

  lemma FreeKeeps(s: State, t: Tid)
    requires Inv(s) && t in s.ops && s.ops[t].Freeing?
    ensures Inv(Step(s, t))
  {
    hide ListOk, OpOk, LockOk, HolderOk, PrevOk;
    var s' := Step(s, t);
    FreeList(s, t);
    forall t1 | t1 in s'.ops ensures OpOk(s', t1) { FreeOther(s, t, t1); }
    forall u | u in s'.lock ensures LockOk(s', u) { FreeRest(s, t, u); }
    forall u | u in s'.link ensures HolderOk(s', u) { FreeRest(s, t, u); }
    forall u | u in s'.prev ensures PrevOk(s', u) { FreeRest(s, t, u); }
  }

  // ----- The steps that store a pointer, seen from the other operations -----

  // What an operation knows is not touched by another thread's step.
  ghost predicate Untouched(s: State, s': State, t1: Tid, op: Op)
    requires op.Replace? && op.chain != []
  {
    && t1 in s'.ops && s'.ops[t1] == op
    && (forall u | u in op.chain || u == op.old_ ::
          Has(s'.lock, t1, u) && u in s'.next && u in s'.prev && (u in s'.leaves <==> u in s.leaves))
    && (forall u | Has(s.link, t1, u) :: Has(s'.link, t1, u)) && (op.Right() !in s.link ==> op.Right() !in s'.link)
    && (op.p.Some? ==> op.p.value in s'.next) && (op.stage.TryPrev? && op.p.Some? ==> Public(s', op.p.value))
  }

  lemma OtherKeeps(s: State, s': State, t1: Tid)
    requires t1 in s.ops && OpOk(s, t1) && s.ops[t1].Replace? && s.ops[t1].chain != [] && Untouched(s, s', t1, s.ops[t1])
    requires PointersOk(s', s.ops[t1]) && (s.ops[t1].stage.Before() ==> Private(s', s.ops[t1]))
    ensures t1 in s'.ops && OpOk(s', t1)
  {
    hide Private, PointersOk, Distinct;
    assert s.ops[t1].Right() in s.ops[t1].chain;
  }

  // The same for a resize that has released its new leaf.
  lemma FreeingKeeps(s: State, s': State, t1: Tid)
    requires t1 in s.ops && OpOk(s, t1) && s.ops[t1].Freeing? && t1 in s'.ops && s'.ops[t1] == s.ops[t1]
    requires forall u | Has(s.link, t1, u) :: Has(s'.link, t1, u)
    requires s.next.Keys <= s'.next.Keys && s.prev.Keys <= s'.prev.Keys && BroughtIn(s', s.ops[t1].node)
    requires !s.ops[t1].prevFreed ==> s'.PrevOf(s.ops[t1].node) == s.PrevOf(s.ops[t1].node)
    ensures OpOk(s', t1)
  {
  }

  // ----- The steps that leave the list as it is -----

  // right_leaf->next_leaf_ = next_leaf, and the releases of a new leaf's locks that end a replacement.
  predicate Quiet(op: Op) { op.Replace? && (op.stage.SetRightNext? || op.stage.FreeRight? || op.stage.Unlock?) }

  // What such a step leaves as it was: it changes the thread's own operation, the right new leaf's next
  // pointer, and the locks of the thread's own leaves.
  ghost predicate Frame(s: State, s': State, t: Tid)
    requires t in s.ops && s.ops[t].Replace? && s.ops[t].chain != []
  {
    var op := s.ops[t];
    && s'.prev == s.prev && s'.leaves == s.leaves && s'.ops.Keys == s.ops.Keys && s'.next.Keys == s.next.Keys
    && (forall u | u in s.ops && u != t :: s'.ops[u] == s.ops[u])
    && (if op.stage.SetRightNext? then s'.ops[t] == op.(stage := SetNextPrev) else !s'.ops[t].Replace?)
    && (forall u | u in s.next :: s'.next[u] == s.next[u] || (u == op.Right() && op.stage.SetRightNext? && op.next.Some? && s'.next[u] == op.next))
    && (forall u | u in s'.link :: Has(s.link, s'.link[u], u)) && (forall u | u in s.link && u !in s'.link :: u == op.Right())
    && (forall u | u in s'.lock :: Has(s.lock, s'.lock[u], u))
    && (forall u | u in s.lock && u !in s'.lock :: !op.stage.SetRightNext? && (u == op.old_ || u in op.chain))
    && (!op.stage.SetRightNext? ==> op.old_ !in s'.lock && forall u | u in op.chain :: u !in s'.lock)
  }

  lemma QuietFrame(s: State, t: Tid)
    requires t in s.ops && Quiet(s.ops[t]) && s.ops[t].chain != [] && Has(s.link, t, s.ops[t].Right()) && (s.ops[t].stage.Unlock? ==> |s.ops[t].chain| == 1)
    requires s.ops[t].Right() in s.next
    ensures Frame(s, Step(s, t), t)
  {
  }

  lemma QuietFramed(s: State, t: Tid)
    requires t in s.ops && Quiet(s.ops[t]) && OpOk(s, t)
    ensures s.ops[t].chain != [] && Frame(s, Step(s, t), t)
  {
    hide Private, PointersOk, Distinct, Step, Frame;
    assert s.ops[t].Right() in s.ops[t].chain;
    QuietFrame(s, t);
  }

  lemma QuietView(s: State, t: Tid, u: Node)
    requires t in s.ops && Quiet(s.ops[t]) && OpOk(s, t) && u in s.next && u in s.prev && u in s.leaves
    requires (u in s.lock ==> LockOk(s, u)) && (OpOn(s, u) ==> OpOk(s, s.lock[u]))
    ensures SameView(s, Step(s, t), u)
  {
    hide Private, StageOk, PointersOk, Distinct, FreeingOk;
  }

  lemma QuietList(s: State, t: Tid)
    requires Inv(s) && t in s.ops && Quiet(s.ops[t])
    ensures ListOk(Step(s, t))
  {
    hide SameView, LinkOk, OpOk, HolderOk, PrevOk, LockOk, Dangling, Unset;
    forall i | 0 <= i < |s.leaves| ensures SameView(s, Step(s, t), s.leaves[i]) {
      QuietView(s, t, s.leaves[i]);
    }
    ListStays(s, Step(s, t));
  }

  lemma QuietOwn(s: State, t: Tid)
    requires t in s.ops && Quiet(s.ops[t]) && OpOk(s, t)
    ensures t in Step(s, t).ops && OpOk(Step(s, t), t)
  {
    hide Private, Distinct;
    assert s.ops[t].Left() in s.ops[t].chain;
  }

  lemma QuietPrivate(s: State, t: Tid, t1: Tid)
    requires t in s.ops && Quiet(s.ops[t]) && OpOk(s, t) && t1 != t && t1 in s.ops && OpOk(s, t1)
    requires s.ops[t1].Replace? && s.ops[t1].stage.Before()
    ensures s.ops[t1].chain != [] && Private(Step(s, t), s.ops[t1])
  {
    hide StageOk, PointersOk, Distinct, FreeingOk, Step;
    QuietFramed(s, t);
    assert s.ops[t].Right() in s.ops[t].chain && s.ops[t1].Right() in s.ops[t1].chain;
  }

  lemma QuietPointers(s: State, t: Tid, t1: Tid)
    requires t in s.ops && Quiet(s.ops[t]) && OpOk(s, t) && t1 != t && t1 in s.ops && OpOk(s, t1)
    requires s.ops[t1].Replace?
    ensures s.ops[t1].chain != [] && PointersOk(Step(s, t), s.ops[t1])
  {
    hide Private, Distinct, StageOk, FreeingOk;
    assert s.ops[t].Right() in s.ops[t].chain && s.ops[t1].Right() in s.ops[t1].chain;
  }

  lemma QuietUntouched(s: State, t: Tid, t1: Tid)
    requires t in s.ops && Quiet(s.ops[t]) && OpOk(s, t) && t1 != t && t1 in s.ops && OpOk(s, t1)
    requires s.ops[t1].Replace?
    ensures s.ops[t1].chain != [] && Untouched(s, Step(s, t), t1, s.ops[t1])
  {
    hide Private, Distinct, PointersOk, FreeingOk, Step;
    QuietFramed(s, t);
    assert s.ops[t].Right() in s.ops[t].chain && s.ops[t1].Right() in s.ops[t1].chain;
  }

  lemma QuietFreeing(s: State, t: Tid, t1: Tid)
    requires t in s.ops && Quiet(s.ops[t]) && OpOk(s, t) && t1 in s.ops && t1 != t && OpOk(s, t1) && s.ops[t1].Freeing?
    ensures t1 in Step(s, t).ops && OpOk(Step(s, t), t1)
  {
    hide Private, Distinct, PointersOk, Step;
    QuietFramed(s, t);
    FreeingKeeps(s, Step(s, t), t1);
  }

  lemma QuietOther(s: State, t: Tid, t1: Tid)
    requires t in s.ops && Quiet(s.ops[t]) && OpOk(s, t) && t1 != t && t1 in s.ops && OpOk(s, t1)
    ensures t1 in Step(s, t).ops && OpOk(Step(s, t), t1)
  {
    hide Distinct, Private, Untouched, StageOk, FreeingOk;
    if s.ops[t1].Replace? {
      if s.ops[t1].stage.Before() {
        QuietPrivate(s, t, t1);
      }
      QuietUntouched(s, t, t1);
      QuietPointers(s, t, t1);
      OtherKeeps(s, Step(s, t), t1);
    } else if s.ops[t1].Freeing? {
      QuietFreeing(s, t, t1);
    }
  }

  lemma QuietLock(s: State, t: Tid, u: Node)
    requires t in s.ops && Quiet(s.ops[t]) && OpOk(s, t) && u in Step(s, t).lock && (u in s.lock ==> LockOk(s, u))
    ensures LockOk(Step(s, t), u)
  {
    hide Private, Distinct, PointersOk, FreeingOk, StageOk, Step;
    QuietFramed(s, t);
  }

  lemma QuietHolder(s: State, t: Tid, u: Node)
    requires t in s.ops && Quiet(s.ops[t]) && OpOk(s, t) && u in Step(s, t).link && (u in s.link ==> HolderOk(s, u))
    ensures HolderOk(Step(s, t), u)
  {
    hide Private, Distinct, PointersOk, FreeingOk;
  }

  lemma QuietPrev(s: State, t: Tid, x: Node)
    requires t in s.ops && Quiet(s.ops[t]) && OpOk(s, t) && x in Step(s, t).prev && (x in s.prev ==> PrevOk(s, x))
    ensures PrevOk(Step(s, t), x)
  {
    hide Private, Distinct, PointersOk, FreeingOk, StageOk, Step;
    QuietFramed(s, t);
  }

  lemma QuietKeeps(s: State, t: Tid)
    requires Inv(s) && t in s.ops && Quiet(s.ops[t])
    ensures Inv(Step(s, t))
  {
    hide ListOk, OpOk, LockOk, HolderOk, PrevOk;
    var s' := Step(s, t);
    QuietList(s, t);
    forall t1 | t1 in s'.ops ensures OpOk(s', t1) {
      if t1 == t { QuietOwn(s, t); } else { QuietOther(s, t, t1); }
    }
    assert OpOk(s, t);
    forall u | u in s'.lock ensures LockOk(s', u) { QuietLock(s, t, u); }
    forall u | u in s'.link ensures HolderOk(s', u) { QuietHolder(s, t, u); }
    forall u | u in s'.prev ensures PrevOk(s', u) { QuietPrev(s, t, u); }
  }

  // ----- left_leaf->prev_leaf_ = prev_leaf -----

  lemma SetPrevLink(s: State, t: Tid, u: Node, x: Node)
    requires t in s.ops && s.ops[t].Replace? && s.ops[t].stage.SetPrev? && OpOk(s, t) && LinkOk(s, u, x)
    ensures LinkOk(Step(s, t), u, x)
  {
    hide Private, Distinct, PointersOk;
    assert s.ops[t].Left() in s.ops[t].chain;
  }

  lemma SetPrevEnds(s: State, t: Tid, u: Node, x: Node)
    requires t in s.ops && s.ops[t].Replace? && s.ops[t].stage.SetPrev? && OpOk(s, t)
    ensures u in s.next ==> u in Step(s, t).next
    ensures u in s.prev ==> u in Step(s, t).prev
    ensures s.PrevOf(u) == None && !Unset(s, u) ==> Step(s, t).PrevOf(u) == None && !Unset(Step(s, t), u)
    ensures s.NextOf(Owner(s, x)) == None ==> Step(s, t).NextOf(Owner(Step(s, t), x)) == None
  {
    hide Private, Distinct, PointersOk;
    assert s.ops[t].Left() in s.ops[t].chain;
  }

  lemma SetPrevList(s: State, t: Tid)
    requires Inv(s) && t in s.ops && s.ops[t].Replace? && s.ops[t].stage.SetPrev?
    ensures ListOk(Step(s, t))
  {
    hide LinkOk, OpOk, HolderOk, PrevOk, LockOk, Dangling, Unset;
    var s', v := Step(s, t), s.leaves;
    forall i | 0 <= i < |v| - 1 ensures LinkOk(s', v[i], v[i + 1]) {
      assert LinkOk(s, v[i], v[i + 1]);
      SetPrevLink(s, t, v[i], v[i + 1]);
    }
    forall i | 0 <= i < |v| ensures v[i] in s'.next && v[i] in s'.prev {
      SetPrevEnds(s, t, v[i], v[i]);
    }
    SetPrevEnds(s, t, v[0], v[|v| - 1]);
  }

  lemma SetPrevOwn(s: State, t: Tid)
    requires t in s.ops && s.ops[t].Replace? && s.ops[t].stage.SetPrev? && OpOk(s, t)
    ensures t in Step(s, t).ops && OpOk(Step(s, t), t)
  {
    hide Private, Distinct;
    assert s.ops[t].Left() in s.ops[t].chain;
  }

  lemma SetPrevOther(s: State, t: Tid, t1: Tid)
    requires t in s.ops && s.ops[t].Replace? && s.ops[t].stage.SetPrev? && OpOk(s, t) && t1 != t && t1 in s.ops && OpOk(s, t1)
    ensures t1 in Step(s, t).ops && OpOk(Step(s, t), t1)
  {
    hide Distinct, StageOk, Untouched;
    if s.ops[t1].Replace? {
      assert s.ops[t].Left() in s.ops[t].chain && s.ops[t1].Left() in s.ops[t1].chain;
      SetPrevUntouched(s, t, t1);
      OtherKeeps(s, Step(s, t), t1);
    } else if s.ops[t1].Freeing? {
      SetPrevFreeing(s, t, t1);
    }
  }

  lemma SetPrevFreeing(s: State, t: Tid, t1: Tid)
    requires t in s.ops && s.ops[t].Replace? && s.ops[t].stage.SetPrev? && OpOk(s, t) && t1 in s.ops && t1 != t && OpOk(s, t1)
    requires s.ops[t1].Freeing?
    ensures t1 in Step(s, t).ops && OpOk(Step(s, t), t1)
  {
    hide Private, Distinct, StageOk, PointersOk;
    assert s.ops[t].Left() in s.ops[t].chain;
    FreeingKeeps(s, Step(s, t), t1);
  }

  lemma SetPrevUntouched(s: State, t: Tid, t1: Tid)
    requires t in s.ops && s.ops[t].Replace? && s.ops[t].stage.SetPrev? && OpOk(s, t) && t1 != t && t1 in s.ops && OpOk(s, t1)
    requires s.ops[t1].Replace?
    ensures s.ops[t1].chain != [] && Untouched(s, Step(s, t), t1, s.ops[t1])
  {
    hide Private, Distinct, PointersOk;
    assert s.ops[t1].Right() in s.ops[t1].chain;
  }

  lemma SetPrevRest(s: State, t: Tid, u: Node)
    requires t in s.ops && s.ops[t].Replace? && s.ops[t].stage.SetPrev? && OpOk(s, t)
    requires (u in s.lock ==> LockOk(s, u)) && (u in s.link ==> HolderOk(s, u)) && (u in s.prev ==> PrevOk(s, u))
    requires s.ops[t].p.Some? && s.ops[t].p.value in s.lock ==> LockOk(s, s.ops[t].p.value)
    requires s.ops[t].p.Some? && OpOn(s, s.ops[t].p.value) ==> OpOk(s, s.lock[s.ops[t].p.value])
    ensures var s' := Step(s, t);
            && s'.lock == s.lock && s'.link == s.link && s'.prev.Keys == s.prev.Keys
            && (u in s.lock ==> LockOk(s', u)) && (u in s.link ==> HolderOk(s', u)) && (u in s.prev ==> PrevOk(s', u))
  {
    hide Private, Distinct, PointersOk;
    assert s.ops[t].Left() in s.ops[t].chain;
  }

  lemma SetPrevKeeps(s: State, t: Tid)
    requires Inv(s) && t in s.ops && s.ops[t].Replace? && s.ops[t].stage.SetPrev?
    ensures Inv(Step(s, t))
  {
    hide ListOk, OpOk, LockOk, HolderOk, PrevOk;
    var s' := Step(s, t);
    SetPrevList(s, t);
    forall t1 | t1 in s'.ops ensures OpOk(s', t1) {
      if t1 == t { SetPrevOwn(s, t); } else { SetPrevOther(s, t, t1); }
    }
    forall u | u in s'.lock ensures LockOk(s', u) { SetPrevRest(s, t, u); }
    forall u | u in s'.link ensures HolderOk(s', u) { SetPrevRest(s, t, u); }
    forall u | u in s'.prev ensures PrevOk(s', u) { SetPrevRest(s, t, u); }
  }

  // ----- next_leaf->prev_leaf_ = right_leaf -----

  lemma SetNextPrevLink(s: State, t: Tid, u: Node, x: Node)
    requires t in s.ops && s.ops[t].Replace? && s.ops[t].stage.SetNextPrev? && OpOk(s, t) && LinkOk(s, u, x)
    requires OpOn(s, x) ==> OpOk(s, s.lock[x])
    requires u == s.ops[t].Right() <==> s.ops[t].next == Some(x)
    ensures LinkOk(Step(s, t), u, x)
  {
    hide Private, Distinct;
    assert s.ops[t].Right() in s.ops[t].chain;
  }

  lemma SetNextPrevEnds(s: State, t: Tid, u: Node, x: Node)
    requires t in s.ops && s.ops[t].Replace? && s.ops[t].stage.SetNextPrev? && OpOk(s, t)
    ensures u in s.next ==> u in Step(s, t).next
    ensures u in s.prev ==> u in Step(s, t).prev
    ensures s.PrevOf(u) == None && !Unset(s, u) && s.ops[t].next != Some(u) ==> Step(s, t).PrevOf(u) == None && !Unset(Step(s, t), u)
    ensures s.NextOf(Owner(s, x)) == None ==> Step(s, t).NextOf(Owner(Step(s, t), x)) == None
  {
    hide Private, Distinct;
    assert s.ops[t].Right() in s.ops[t].chain;
  }

  // The link the operation completes, and where it is.
  lemma RightLink(s: State, t: Tid) returns (k: nat)
    requires Inv(s) && t in s.ops && s.ops[t].Replace? && s.ops[t].stage.SetNextPrev?
    ensures s.ops[t].chain != [] && k < |s.leaves| && s.leaves[k] == s.ops[t].Right()
    ensures s.ops[t].next == if k + 1 < |s.leaves| then Some(s.leaves[k + 1]) else None
    ensures forall i :: 0 <= i < |s.leaves| ==>
              (s.leaves[i] == s.ops[t].Right() <==> i == k) && (s.ops[t].next == Some(s.leaves[i]) <==> i == k + 1)
  {
    hide HolderOk, PrevOk, LockOk, Private;
    assert OpOk(s, t);
    assert s.ops[t].Right() in s.ops[t].chain;
    k := Standing(s, s.ops[t].Right());
  }

  lemma SetNextPrevList(s: State, t: Tid)
    requires Inv(s) && t in s.ops && s.ops[t].Replace? && s.ops[t].stage.SetNextPrev?
    ensures ListOk(Step(s, t))
  {
    hide LinkOk, OpOk, HolderOk, PrevOk, LockOk, Dangling, Unset;
    var s', v := Step(s, t), s.leaves;
    var k := RightLink(s, t);
    forall i | 0 <= i < |v| - 1 ensures LinkOk(s', v[i], v[i + 1]) {
      assert LinkOk(s, v[i], v[i + 1]);
      SetNextPrevLink(s, t, v[i], v[i + 1]);
    }
    forall i | 0 <= i < |v| ensures v[i] in s'.next && v[i] in s'.prev {
      SetNextPrevEnds(s, t, v[i], v[i]);
    }
    SetNextPrevEnds(s, t, v[0], v[|v| - 1]);
  }

  lemma SetNextPrevOwn(s: State, t: Tid)
    requires t in s.ops && s.ops[t].Replace? && s.ops[t].stage.SetNextPrev? && OpOk(s, t)
    requires s.ops[t].next != Some(s.ops[t].Left())
    ensures t in Step(s, t).ops && OpOk(Step(s, t), t)
  {
    hide Private, Distinct;
  }

  // x, which follows the right leaf, is the left leaf of no other operation that relies on its prev
  // pointer, nor the old leaf of one that has just read it.
  lemma SetNextPrevOther(s: State, t: Tid, t1: Tid)
    requires t in s.ops && s.ops[t].Replace? && s.ops[t].stage.SetNextPrev? && OpOk(s, t) && t1 != t && t1 in s.ops && OpOk(s, t1)
    requires s.ops[t].next.Some? ==> LinkOk(s, s.ops[t].Right(), s.ops[t].next.value) && s.ops[t].next.value in s.leaves
    ensures t1 in Step(s, t).ops && OpOk(Step(s, t), t1)
  {
    hide Distinct, Untouched, FreeingOk;
    if s.ops[t1].Replace? {
      SetNextPrevUntouched(s, t, t1);
      SetNextPrevPointers(s, t, t1);
      OtherKeeps(s, Step(s, t), t1);
    } else if s.ops[t1].Freeing? {
      SetNextPrevFreeing(s, t, t1);
    }
  }

  lemma SetNextPrevPointers(s: State, t: Tid, t1: Tid)
    requires t in s.ops && s.ops[t].Replace? && s.ops[t].stage.SetNextPrev? && OpOk(s, t) && t1 != t && t1 in s.ops && OpOk(s, t1)
    requires s.ops[t].next.Some? ==> LinkOk(s, s.ops[t].Right(), s.ops[t].next.value) && s.ops[t].next.value in s.leaves
    requires s.ops[t1].Replace?
    ensures s.ops[t1].chain != [] && PointersOk(Step(s, t), s.ops[t1]) && (s.ops[t1].stage.Before() ==> Private(Step(s, t), s.ops[t1]))
  {
    hide Distinct, FreeingOk;
    assert s.ops[t].Right() in s.ops[t].chain && s.ops[t1].Left() in s.ops[t1].chain;
  }

  // The leaf behind a resized one, whose prev pointer the resize relies on, is not stored to: the resize
  // holds the link lock that the other thread would need.
  lemma SetNextPrevFreeing(s: State, t: Tid, t1: Tid)
    requires t in s.ops && s.ops[t].Replace? && s.ops[t].stage.SetNextPrev? && OpOk(s, t) && t1 in s.ops && t1 != t && OpOk(s, t1)
    requires s.ops[t].next.Some? ==> LinkOk(s, s.ops[t].Right(), s.ops[t].next.value) && s.ops[t].next.value in s.leaves
    requires s.ops[t1].Freeing?
    ensures t1 in Step(s, t).ops && OpOk(Step(s, t), t1)
  {
    hide Private, Distinct;
    assert s.ops[t].Right() in s.ops[t].chain;
    LeftInChain(s, s.ops[t1].node);
    FreeingKeeps(s, Step(s, t), t1);
  }

  lemma LeftInChain(s: State, u: Node)
    requires BroughtIn(s, u)
    ensures !Unset(s, u)
  {
  }

  lemma SetNextPrevUntouched(s: State, t: Tid, t1: Tid)
    requires t in s.ops && s.ops[t].Replace? && s.ops[t].stage.SetNextPrev? && OpOk(s, t) && t1 != t && t1 in s.ops && OpOk(s, t1)
    requires s.ops[t1].Replace?
    ensures s.ops[t1].chain != [] && Untouched(s, Step(s, t), t1, s.ops[t1])
  {
    hide Private, Distinct, PointersOk;
    assert s.ops[t1].Right() in s.ops[t1].chain;
  }

  lemma SetNextPrevRest(s: State, t: Tid, u: Node)
    requires t in s.ops && s.ops[t].Replace? && s.ops[t].stage.SetNextPrev? && OpOk(s, t)
    requires s.ops[t].next.Some? ==> s.ops[t].next.value in s.prev
    requires (u in s.lock ==> LockOk(s, u)) && (u in s.link ==> HolderOk(s, u)) && (u in s.prev ==> PrevOk(s, u))
    ensures var s' := Step(s, t);
            && s'.lock == s.lock && s'.link == s.link && s'.prev.Keys == s.prev.Keys
            && (u in s.lock ==> LockOk(s', u)) && (u in s.link ==> HolderOk(s', u)) && (u in s.prev ==> PrevOk(s', u))
  {
    hide Private, Distinct, PointersOk;
    assert s.ops[t].Right() in s.ops[t].chain;
  }

  lemma SetNextPrevKeeps(s: State, t: Tid)
    requires Inv(s) && t in s.ops && s.ops[t].Replace? && s.ops[t].stage.SetNextPrev?
    ensures Inv(Step(s, t))
  {
    hide OpOk, LockOk, HolderOk, PrevOk, LinkOk, Distinct;
    var s' := Step(s, t);
    var k := RightLink(s, t);
    SetNextPrevList(s, t);
    if k + 1 < |s.leaves| {
      NextNotLeft(s, t, k);
    }
    forall t1 | t1 in s'.ops ensures OpOk(s', t1) {
      if t1 == t { SetNextPrevOwn(s, t); } else { SetNextPrevOther(s, t, t1); }
    }
    forall u | u in s'.lock ensures LockOk(s', u) { SetNextPrevRest(s, t, u); }
    forall u | u in s'.link ensures HolderOk(s', u) { SetNextPrevRest(s, t, u); }
    forall u | u in s'.prev ensures PrevOk(s', u) { SetNextPrevRest(s, t, u); }
  }

  lemma NextNotLeft(s: State, t: Tid, k: nat)
    requires Inv(s) && t in s.ops && s.ops[t].Replace? && s.ops[t].stage.SetNextPrev? && s.ops[t].chain != []
    requires k + 1 < |s.leaves| && s.leaves[k] == s.ops[t].Right() && s.ops[t].next == Some(s.leaves[k + 1])
    ensures s.ops[t].next != Some(s.ops[t].Left())
  {
    hide LockOk, HolderOk, PrevOk, Private;
    assert OpOk(s, t);
    assert LinkOk(s, s.leaves[k], s.leaves[k + 1]);
  }

  // ----- The new leaves take the place of the old one -----

  // Right after prev_leaf->next_leaf_ = left_leaf, or when there is no previous leaf.
  predicate Swaps(s: State, t: Tid)
    requires t in s.ops
  {
    var op := s.ops[t];
    op.Replace? && op.chain != [] && (op.stage.SetNext? || (op.stage.ReadPrev? && s.PrevOf(op.old_) == None))
  }

  lemma SwapAt(v: seq<Node>, u: Node, chain: seq<Node>, k: nat)
    requires Distinct(v) && k < |v| && v[k] == u
    ensures Swap(v, u, chain) == v[..k] + chain + v[k + 1..]
  {
  }

  lemma SwapMembers(v: seq<Node>, chain: seq<Node>, k: nat)
    requires Distinct(v) && Distinct(chain) && k < |v| && forall u | u in chain :: u !in v
    ensures var w := v[..k] + chain + v[k + 1..];
            Distinct(w) && forall u :: u in w <==> u in chain || (u in v && u != v[k])
  {
    var w := v[..k] + chain + v[k + 1..];
    forall u ensures u in w <==> u in chain || (u in v && u != v[k]) {
      if u in v && u != v[k] {
        var i :| 0 <= i < |v| && v[i] == u;
        assert w[if i < k then i else i - 1 + |chain|] == u;
      }
    }
    forall i, j | 0 <= i < j < |w| ensures w[i] != w[j] {
      assert k <= i < k + |chain| ==> w[i] in chain;
      assert k <= j < k + |chain| ==> w[j] in chain;
      assert w[i] !in chain ==> w[i] == v[if i < k then i else i + 1 - |chain|];
      assert w[j] !in chain ==> w[j] == v[if j < k then j else j + 1 - |chain|];
    }
  }

  // The link between two leaves that stay.
  lemma SwapLink(s: State, t: Tid, u: Node, x: Node)
    requires t in s.ops && Swaps(s, t) && OpOk(s, t) && LinkOk(s, u, x) && u in s.leaves && x in s.leaves
    requires u != s.ops[t].old_ && x != s.ops[t].old_ && (s.ops[t].stage.SetNext? ==> s.ops[t].p != Some(Owner(s, u)))
    ensures LinkOk(Step(s, t), u, x)
  {
    hide Distinct;
    assert s.ops[t].Left() in s.ops[t].chain && s.ops[t].Right() in s.ops[t].chain;
  }

  // The link to the leftmost new leaf.
  lemma SwapLeft(s: State, t: Tid, u: Node)
    requires t in s.ops && Swaps(s, t) && s.ops[t].stage.SetNext? && OpOk(s, t) && LinkOk(s, u, s.ops[t].old_) && u in s.leaves
    requires u != s.ops[t].old_
    ensures LinkOk(Step(s, t), u, s.ops[t].Left()) && s.ops[t].p == Some(Owner(s, u))
  {
    hide Distinct;
    assert s.ops[t].Left() in s.ops[t].chain && s.ops[t].Right() in s.ops[t].chain;
  }

  lemma SwapInner(s: State, t: Tid, i: nat)
    requires t in s.ops && Swaps(s, t) && OpOk(s, t) && i + 1 < |s.ops[t].chain|
    ensures LinkOk(Step(s, t), s.ops[t].chain[i], s.ops[t].chain[i + 1])
  {
    var op := s.ops[t];
    assert op.chain[i] != op.Right() && op.chain[i + 1] != op.Left();
    assert op.chain[i] in op.chain && op.chain[i + 1] in op.chain;
    SwapFacts(s, t);
    assert s.NextOf(op.chain[i]) == Some(op.chain[i + 1]);
  }

  lemma SwapFacts(s: State, t: Tid)
    requires t in s.ops && Swaps(s, t) && OpOk(s, t)
    ensures var s', op := Step(s, t), s.ops[t];
            && s'.prev == s.prev && s'.lock == s.lock && s'.link == s.link
            && s'.next == (if op.stage.SetNext? && op.p.Some? then s.next[op.p.value := Some(op.Left())] else s.next)
            && s'.leaves == Swap(s.leaves, op.old_, op.chain)
            && s'.ops == s.ops[t := op.(stage := if op.stage.SetNext? then SetPrev else LockRight, p := if op.stage.SetNext? then op.p else None)]
  {
  }

  // The link from the rightmost new leaf is the old leaf's.
  lemma SwapRight(s: State, t: Tid, x: Node)
    requires t in s.ops && Swaps(s, t) && OpOk(s, t) && LinkOk(s, s.ops[t].old_, x) && x in s.leaves && x != s.ops[t].old_
    ensures LinkOk(Step(s, t), s.ops[t].Right(), x)
  {
    hide Distinct;
    assert s.ops[t].Left() in s.ops[t].chain && s.ops[t].Right() in s.ops[t].chain;
  }

  lemma SwapShape(s: State, t: Tid, k: nat)
    requires Inv(s) && t in s.ops && Swaps(s, t) && k < |s.leaves| && s.leaves[k] == s.ops[t].old_
    ensures var s', op := Step(s, t), s.ops[t];
            && OpOk(s, t) && s'.leaves == s.leaves[..k] + op.chain + s.leaves[k + 1..] && Distinct(s'.leaves)
            && (forall u :: u in s'.leaves <==> u in op.chain || (u in s.leaves && u != op.old_))
            && (forall u | u in s'.leaves :: u in s'.next && u in s'.prev)
  {
    hide LinkOk, HolderOk, PrevOk, LockOk, Step;
    assert OpOk(s, t);
    SwapFacts(s, t);
    SwapAt(s.leaves, s.ops[t].old_, s.ops[t].chain, k);
    SwapMembers(s.leaves, s.ops[t].chain, k);
  }

  // The stored-to node is the one that owns the link to the old leaf.
  lemma SwapOwner(s: State, t: Tid, k: nat)
    requires Inv(s) && t in s.ops && Swaps(s, t) && OpOk(s, t) && k < |s.leaves| && s.leaves[k] == s.ops[t].old_
    ensures k == 0 <==> !s.ops[t].stage.SetNext?
    ensures k > 0 ==> s.ops[t].p == Some(Owner(s, s.leaves[k - 1])) && s.NextOf(s.ops[t].p.value) == Some(s.ops[t].old_)
    ensures k > 0 ==> LinkOk(s, s.leaves[k - 1], s.ops[t].old_)
  {
    hide HolderOk, PrevOk, LockOk, Private, Step;
    if k > 0 {
      assert LinkOk(s, s.leaves[k - 1], s.leaves[k - 1 + 1]);
    }
  }

  lemma SwapOld(s: State, t: Tid, k: nat, i: nat)
    requires Inv(s) && t in s.ops && Swaps(s, t) && k < |s.leaves| && s.leaves[k] == s.ops[t].old_ && i + 1 < |s.leaves|
    ensures LinkOk(Step(s, t), if i == k then s.ops[t].Right() else s.leaves[i],
                   if i + 1 == k then s.ops[t].Left() else s.leaves[i + 1])
  {
    hide HolderOk, PrevOk, LockOk, Private, Step, Dangling, StageOk, PointersOk, NodesOfOp;
    var v := s.leaves;
    assert OpOk(s, t);
    assert LinkOk(s, v[i], v[i + 1]);
    SwapOwner(s, t, k);
    if i + 1 == k {
      SwapLeft(s, t, v[i]);
    } else if i == k {
      SwapRight(s, t, v[i + 1]);
    } else {
      assert v[i + 1] != v[k];
      SwapLink(s, t, v[i], v[i + 1]);
    }
  }

  lemma SwapEnds(s: State, t: Tid, k: nat)
    requires Inv(s) && t in s.ops && Swaps(s, t) && k < |s.leaves| && s.leaves[k] == s.ops[t].old_
    ensures var s', op := Step(s, t), s.ops[t];
            var first, last := if k == 0 then op.Left() else s.leaves[0], if k == |s.leaves| - 1 then op.Right() else s.leaves[|s.leaves| - 1];
            s'.PrevOf(first) == None && !Unset(s', first) && s'.NextOf(Owner(s', last)) == None
  {
    hide HolderOk, PrevOk, LockOk, Step, LinkOk;
    var v, op := s.leaves, s.ops[t];
    assert OpOk(s, t);
    SwapOwner(s, t, k);
    SwapFacts(s, t);
    assert op.Left() in op.chain && op.Right() in op.chain;
    assert v[0] in v && v[|v| - 1] in v;
  }

  lemma SwapList(s: State, t: Tid, k: nat)
    requires Inv(s) && t in s.ops && Swaps(s, t) && k < |s.leaves| && s.leaves[k] == s.ops[t].old_
    ensures ListOk(Step(s, t))
  {
    hide LinkOk, OpOk, HolderOk, PrevOk, LockOk, Dangling, Unset, Step;
    var s', v, op := Step(s, t), s.leaves, s.ops[t];
    var n := |op.chain|;
    SwapShape(s, t, k);
    var w := s'.leaves;
    forall i | 0 <= i < |w| - 1 ensures LinkOk(s', w[i], w[i + 1]) {
      if i + 1 < k {
        SwapOld(s, t, k, i);
      } else if i + 1 == k {
        SwapOld(s, t, k, i);
      } else if i < k + n - 1 {
        SwapInner(s, t, i - k);
      } else if i == k + n - 1 {
        SwapOld(s, t, k, k);
      } else {
        SwapOld(s, t, k, i - n + 1);
      }
    }
    SwapEnds(s, t, k);
  }

  // All that the step does.
  ghost predicate SwapForm(s: State, s': State, t: Tid)
    requires t in s.ops && Swaps(s, t)
  {
    var op := s.ops[t];
    && s'.prev == s.prev && s'.lock == s.lock && s'.link == s.link
    && s'.next == (if op.stage.SetNext? && op.p.Some? then s.next[op.p.value := Some(op.Left())] else s.next)
    && (forall u :: u in s'.leaves <==> u in op.chain || (u in s.leaves && u != op.old_))
    && s'.ops == s.ops[t := op.(stage := if op.stage.SetNext? then SetPrev else LockRight, p := if op.stage.SetNext? then op.p else None)]
  }

  lemma SwapIsForm(s: State, t: Tid, k: nat)
    requires Inv(s) && t in s.ops && Swaps(s, t) && k < |s.leaves| && s.leaves[k] == s.ops[t].old_
    ensures SwapForm(s, Step(s, t), t) && OpOk(s, t)
  {
    hide OpOk, HolderOk, PrevOk, LockOk, LinkOk, Step, ListOk, Distinct;
    SwapShape(s, t, k);
    SwapFacts(s, t);
  }

  lemma SwapOwn(s: State, s': State, t: Tid)
    requires t in s.ops && Swaps(s, t) && OpOk(s, t) && SwapForm(s, s', t)
    ensures t in s'.ops && OpOk(s', t)
  {
    hide Distinct;
    var op := s.ops[t];
    assert op.Left() in op.chain && op.Right() in op.chain;
  }

  // The stored-to node belongs to no other operation that is not in the list yet.
  lemma SwapTarget(s: State, t: Tid, k: nat, t1: Tid)
    requires Inv(s) && t in s.ops && Swaps(s, t) && OpOk(s, t) && k < |s.leaves| && s.leaves[k] == s.ops[t].old_
    requires t1 in s.ops && t1 != t && OpOk(s, t1) && s.ops[t1].Replace? && s.ops[t1].stage.Before() && s.ops[t].stage.SetNext?
    ensures s.ops[t].p.Some? && s.ops[t].p.value !in s.ops[t1].chain
  {
    hide HolderOk, PrevOk, LockOk, LinkOk, Distinct, PointersOk;
    SwapOwner(s, t, k);
    var u := s.leaves[k - 1];
    assert u in s.leaves;
    assert OpOn(s, u) ==> OpOk(s, s.lock[u]);
  }

  lemma SwapOther(s: State, t: Tid, k: nat, t1: Tid)
    requires Inv(s) && t in s.ops && Swaps(s, t) && k < |s.leaves| && s.leaves[k] == s.ops[t].old_ && t1 in s.ops && t1 != t
    ensures t1 in Step(s, t).ops && OpOk(Step(s, t), t1)
  {
    hide HolderOk, PrevOk, LockOk, LinkOk, Distinct, ListOk, Step, Private, PointersOk, StageOk, NodesOfOp, Untouched, SwapForm;
    var s' := Step(s, t);
    assert OpOk(s, t1);
    SwapIsForm(s, t, k);
    SwapFacts(s, t);
    if s.ops[t1].Replace? {
      SwapUntouched(s, s', t, t1);
      SwapPointers(s, s', t, t1);
      if s.ops[t1].stage.Before() {
        if s.ops[t].stage.SetNext? {
          SwapTarget(s, t, k, t1);
        }
        SwapPrivate(s, s', t, t1);
      }
      OtherKeeps(s, s', t1);
    } else if s.ops[t1].Freeing? {
      SwapFreeing(s, s', t, t1);
    }
  }

  lemma SwapFreeing(s: State, s': State, t: Tid, t1: Tid)
    requires t in s.ops && Swaps(s, t) && OpOk(s, t) && SwapForm(s, s', t) && t1 in s.ops && t1 != t && OpOk(s, t1) && s.ops[t1].Freeing?
    ensures OpOk(s', t1)
  {
    hide Private, Distinct, PointersOk, StageOk;
    FreeingKeeps(s, s', t1);
  }

  lemma SwapUntouched(s: State, s': State, t: Tid, t1: Tid)
    requires t in s.ops && Swaps(s, t) && OpOk(s, t) && SwapForm(s, s', t)
    requires t1 in s.ops && t1 != t && OpOk(s, t1) && s.ops[t1].Replace?
    ensures s.ops[t1].chain != [] && Untouched(s, s', t1, s.ops[t1])
  {
    hide Distinct, Private, PointersOk;
    assert s.ops[t1].Right() in s.ops[t1].chain;
  }

  lemma SwapPointers(s: State, s': State, t: Tid, t1: Tid)
    requires t in s.ops && Swaps(s, t) && OpOk(s, t) && SwapForm(s, s', t)
    requires t1 in s.ops && t1 != t && OpOk(s, t1) && s.ops[t1].Replace?
    ensures s.ops[t1].chain != [] && PointersOk(s', s.ops[t1])
  {
    hide Distinct, Private;
  }

  lemma SwapPrivate(s: State, s': State, t: Tid, t1: Tid)
    requires t in s.ops && Swaps(s, t) && OpOk(s, t) && SwapForm(s, s', t)
    requires t1 in s.ops && t1 != t && OpOk(s, t1) && s.ops[t1].Replace? && s.ops[t1].stage.Before()
    requires s.ops[t].stage.SetNext? ==> s.ops[t].p.Some? && s.ops[t].p.value !in s.ops[t1].chain
    ensures s.ops[t1].chain != [] && Private(s', s.ops[t1])
  {
    hide Distinct, StageOk, PointersOk;
    var c := s.ops[t1].chain;
    assert forall i :: 0 <= i < |c| ==> c[i] in c;
  }

  lemma SwapLock(s: State, s': State, t: Tid, u: Node)
    requires t in s.ops && Swaps(s, t) && SwapForm(s, s', t) && u in s.lock && LockOk(s, u)
    ensures u in s'.lock && LockOk(s', u)
  {
  }

  lemma SwapHolder(s: State, s': State, t: Tid, u: Node)
    requires t in s.ops && Swaps(s, t) && OpOk(s, t) && SwapForm(s, s', t) && u in s.link && HolderOk(s, u)
    ensures u in s'.link && HolderOk(s', u)
  {
    hide Distinct, Private, PointersOk;
  }

  lemma SwapPrevOk(s: State, s': State, t: Tid, x: Node)
    requires t in s.ops && Swaps(s, t) && SwapForm(s, s', t) && x in s.prev && PrevOk(s, x)
    ensures x in s'.prev && PrevOk(s', x)
  {
  }

  lemma SwapKeeps(s: State, t: Tid)
    requires Inv(s) && t in s.ops && Swaps(s, t)
    ensures Inv(Step(s, t))
  {
    hide ListOk, LockOk, HolderOk, PrevOk, LinkOk, Distinct, Step, Private, PointersOk, StageOk, SwapForm;
    var s' := Step(s, t);
    assert OpOk(s, t);
    var k := Standing(s, s.ops[t].old_);
    SwapList(s, t, k);
    SwapIsForm(s, t, k);
    SwapFacts(s, t);
    forall t1 | t1 in s'.ops ensures OpOk(s', t1) {
      if t1 == t { SwapOwn(s, s', t); } else { SwapOther(s, t, k, t1); }
    }
    forall u | u in s'.lock ensures LockOk(s', u) { SwapLock(s, s', t, u); }
    forall u | u in s'.link ensures HolderOk(s', u) { SwapHolder(s, s', t, u); }
    forall u | u in s'.prev ensures PrevOk(s', u) { SwapPrevOk(s, s', t, u); }
  }

  // ----- A replacement begins -----

  lemma IndexIs(v: seq<Node>, i: nat)
    requires Distinct(v) && i < |v|
    ensures IndexOf(v, v[i]) == i
  {
  }

  lemma BeginView(s: State, a: Action, u: Node)
    requires a.Begin? && Enabled(s, a) && u in s.leaves && u in s.next && u in s.prev && (OpOn(s, u) ==> OpOk(s, s.lock[u]))
    ensures SameView(s, Do(s, a), u)
  {
    hide Distinct, Tile, Private, StageOk, PointersOk;
  }

  // What a begin leaves as it was, and how it links the new leaves.
  ghost predicate OldSame(s: State, s': State, a: Action, u: Node)
    requires a.Begin?
  {
    && s'.NextOf(u) == s.NextOf(u) && s'.PrevOf(u) == s.PrevOf(u) && (u in s'.next <==> u in s.next) && (u in s'.prev <==> u in s.prev)
    && (u != a.old_ ==> (u in s'.lock <==> u in s.lock) && (u in s.lock ==> s'.lock[u] == s.lock[u]))
  }

  ghost predicate NewLinked(s: State, s': State, a: Action, i: nat)
    requires a.Begin? && i < |a.chain|
  {
    var c := a.chain;
    && c[i] in s'.next && c[i] in s'.prev && Has(s'.lock, a.t, c[i])
    && s'.next[c[i]] == (if i + 1 < |c| then Some(c[i + 1]) else s.NextAtFirst(a.old_, c))
    && s'.prev[c[i]] == (if i > 0 then Some(c[i - 1]) else s.PrevAtFirst(a.old_, c))
  }

  ghost predicate BeginForm(s: State, s': State, a: Action)
    requires a.Begin?
  {
    && s'.link == s.link && s'.leaves == s.leaves && s'.ops == s.ops[a.t := Replace(ReadPrev, a.old_, a.chain, None, None)]
    && (forall u | u !in a.chain :: OldSame(s, s', a, u))
    && (forall i: nat :: i < |a.chain| ==> NewLinked(s, s', a, i))
    && Has(s'.lock, a.t, a.old_)
  }

  lemma BeginIsForm(s: State, a: Action)
    requires a.Begin? && Enabled(s, a)
    ensures BeginForm(s, Do(s, a), a)
  {
    hide Tile, OldSame, NewLinked;
    forall u | u !in a.chain ensures OldSame(s, Do(s, a), a, u) { BeginOld(s, a, u); }
    forall i: nat | i < |a.chain| ensures NewLinked(s, Do(s, a), a, i) { BeginNew(s, a, i); }
  }

  lemma BeginOld(s: State, a: Action, u: Node)
    requires a.Begin? && Enabled(s, a) && u !in a.chain
    ensures OldSame(s, Do(s, a), a, u)
  {
    hide Tile, Distinct, WithNexts, WithPrevs, WithLocks, ChainNext, ChainPrev;
  }

  lemma ChainLinks(c: seq<Node>, i: nat, first: Option<Node>, last: Option<Node>)
    requires Distinct(c) && i < |c|
    ensures c[i] in c
    ensures ChainNext(c, c[i], last) == if i + 1 < |c| then Some(c[i + 1]) else last
    ensures ChainPrev(c, c[i], first) == if i > 0 then Some(c[i - 1]) else first
  {
    IndexIs(c, i);
  }

  lemma BeginNew(s: State, a: Action, i: nat)
    requires a.Begin? && Enabled(s, a) && i < |a.chain|
    ensures NewLinked(s, Do(s, a), a, i)
  {
    hide Tile, WithNexts, WithPrevs, WithLocks, ChainNext, ChainPrev, Distinct;
    ChainLinks(a.chain, i, s.PrevAtFirst(a.old_, a.chain), s.NextAtFirst(a.old_, a.chain));
  }

  lemma BeginOwn(s: State, s': State, a: Action)
    requires a.Begin? && Enabled(s, a) && BeginForm(s, s', a) && a.old_ in s.next && a.old_ in s.prev
    requires (forall u | u in s.leaves :: u in s.next) && (forall u | u in s.link :: u in s.next)
    ensures a.t in s'.ops && OpOk(s', a.t)
  {
    hide Tile, OldSame, NewLinked, Private;
    var c := a.chain;
    forall u | u in c ensures Has(s'.lock, a.t, u) && u in s'.next && u in s'.prev {
      var i: nat :| i < |c| && c[i] == u;
      BeginChain(s, s', a, i);
    }
    assert OldSame(s, s', a, a.old_);
    BeginOldIn(s, s', a);
    BeginPrivate(s, s', a);
    assert c[|c| - 1] in c;
  }

  lemma BeginChain(s: State, s': State, a: Action, i: nat)
    requires a.Begin? && i < |a.chain| && NewLinked(s, s', a, i)
    ensures Has(s'.lock, a.t, a.chain[i]) && a.chain[i] in s'.next && a.chain[i] in s'.prev
  {
  }

  lemma BeginOldIn(s: State, s': State, a: Action)
    requires a.Begin? && OldSame(s, s', a, a.old_) && a.old_ in s.next && a.old_ in s.prev
    ensures a.old_ in s'.next && a.old_ in s'.prev
  {
  }

  lemma BeginPrivate(s: State, s': State, a: Action)
    requires a.Begin? && Enabled(s, a) && BeginForm(s, s', a) && forall u | u in s.leaves :: u in s.next
    ensures Private(s', Replace(ReadPrev, a.old_, a.chain, None, None))
  {
    hide Tile, Distinct;
    var c := a.chain;
    assert OldSame(s, s', a, a.old_);
    assert NewLinked(s, s', a, 0) && NewLinked(s, s', a, |c| - 1);
    forall i | 0 <= i < |c| - 1 ensures s'.NextOf(c[i]) == Some(c[i + 1]) && s'.PrevOf(c[i + 1]) == Some(c[i]) {
      assert NewLinked(s, s', a, i) && NewLinked(s, s', a, i + 1);
    }
  }

  lemma BeginOther(s: State, s': State, a: Action, t1: Tid)
    requires a.Begin? && Enabled(s, a) && BeginForm(s, s', a) && t1 in s.ops && OpOk(s, t1) && t1 != a.t
    ensures t1 in s'.ops && OpOk(s', t1)
  {
    hide Tile, Distinct, Untouched;
    if s.ops[t1].Replace? {
      BeginUntouched(s, s', a, t1);
      assert forall i :: 0 <= i < |s.ops[t1].chain| ==> s.ops[t1].chain[i] in s.ops[t1].chain;
      OtherKeeps(s, s', t1);
    } else if s.ops[t1].Freeing? {
      BeginFreeing(s, s', a, t1);
    }
  }

  lemma BeginFreeing(s: State, s': State, a: Action, t1: Tid)
    requires a.Begin? && Enabled(s, a) && BeginForm(s, s', a) && t1 in s.ops && OpOk(s, t1) && t1 != a.t && s.ops[t1].Freeing?
    ensures t1 in s'.ops && OpOk(s', t1)
  {
    hide Tile, Distinct, NewLinked;
    var op := s.ops[t1];
    assert OldSame(s, s', a, op.node);
    assert op.prev.Some? && op.prev.value in s.next ==> OldSame(s, s', a, op.prev.value);
  }

  lemma BeginUntouched(s: State, s': State, a: Action, t1: Tid)
    requires a.Begin? && Enabled(s, a) && BeginForm(s, s', a) && t1 in s.ops && OpOk(s, t1) && t1 != a.t && s.ops[t1].Replace?
    ensures s.ops[t1].chain != [] && Untouched(s, s', t1, s.ops[t1])
  {
    hide Tile, Distinct, Private, PointersOk;
    BeginPublic(s, s', a);
  }

  // A node that is public stays so: the begin's own right leaf is new.
  lemma BeginPublic(s: State, s': State, a: Action)
    requires a.Begin? && Enabled(s, a) && BeginForm(s, s', a)
    ensures forall u | u in s.next && Public(s, u) :: Public(s', u)
  {
    hide Tile, Distinct;
    assert a.chain[|a.chain| - 1] in a.chain;
  }

  lemma BeginLock(s: State, s': State, a: Action, u: Node)
    requires a.Begin? && Enabled(s, a) && BeginForm(s, s', a) && u in s'.lock && (u in s.lock ==> LockOk(s, u))
    ensures LockOk(s', u)
  {
    hide Tile, Distinct;
    if u in a.chain {
      var i: nat :| i < |a.chain| && a.chain[i] == u;
      assert NewLinked(s, s', a, i);
    } else {
      assert OldSame(s, s', a, u);
    }
  }

  lemma BeginHolder(s: State, s': State, a: Action, u: Node)
    requires a.Begin? && Enabled(s, a) && BeginForm(s, s', a) && u in s.link && HolderOk(s, u) && u in s.next
    ensures u in s'.link && HolderOk(s', u)
  {
    hide Tile, Distinct;
  }

  lemma BeginPrev(s: State, s': State, a: Action, x: Node)
    requires a.Begin? && Enabled(s, a) && BeginForm(s, s', a) && x in s'.prev && (x in s.prev ==> PrevOk(s, x))
    requires a.old_ in s.prev ==> PrevOk(s, a.old_)
    ensures PrevOk(s', x)
  {
    hide Tile;
    BeginPublic(s, s', a);
    var c := a.chain;
    if x in c {
      var i :| 0 <= i < |c| && c[i] == x;
      BeginBack(s, s', a, i);
    } else {
      assert OldSame(s, s', a, x);
      if s'.prev[x].Some? {
        BeginStays(s, s', a, s'.prev[x].value);
      }
    }
  }

  // The prev pointer of a new leaf leads to a new leaf that is not the right one, or to where that of
  // the old leaf does.
  lemma BeginBack(s: State, s': State, a: Action, i: nat)
    requires a.Begin? && Enabled(s, a) && BeginForm(s, s', a) && i < |a.chain| && (a.old_ in s.prev ==> PrevOk(s, a.old_))
    ensures a.chain[i] in s'.prev && PrevOk(s', a.chain[i])
  {
    hide Tile;
    var c := a.chain;
    assert NewLinked(s, s', a, i);
    if i > 0 {
      assert NewLinked(s, s', a, i - 1);
      assert c[i - 1] in c && c[i - 1] != c[|c| - 1];
    } else if s'.prev[c[i]].Some? {
      BeginPublic(s, s', a);
      BeginStays(s, s', a, s'.prev[c[i]].value);
    }
  }

  lemma BeginStays(s: State, s': State, a: Action, u: Node)
    requires a.Begin? && Enabled(s, a) && BeginForm(s, s', a) && u in s.next
    ensures u in s'.next
  {
    hide Tile, Distinct, NewLinked;
    assert OldSame(s, s', a, u);
  }

  lemma LinksAllocated(s: State)
    requires Inv(s)
    ensures forall u | u in s.link :: u in s.next
  {
    hide ListOk, LockOk, PrevOk, Private, PointersOk, Distinct;
    forall u | u in s.link ensures u in s.next {
      assert HolderOk(s, u) && OpOk(s, s.link[u]);
      HeldAllocated(s, s.link[u], u);
    }
  }

  lemma HeldAllocated(s: State, t: Tid, u: Node)
    requires t in s.ops && OpOk(s, t) && (HeldBy(s.ops[t], u) || Replaced(s, u))
    ensures u in s.next
  {
    hide Private, PointersOk, Distinct;
    if s.ops[t].Replace? {
      assert s.ops[t].chain != [] ==> s.ops[t].Right() in s.ops[t].chain;
    }
  }

  lemma BeginKeeps(s: State, a: Action)
    requires Inv(s) && a.Begin? && Enabled(s, a)
    ensures Inv(Do(s, a))
  {
    hide OpOk, LockOk, HolderOk, PrevOk, LinkOk, Distinct, Tile, Do, BeginForm, SameView;
    var s' := Do(s, a);
    BeginIsForm(s, a);
    LinksAllocated(s);
    BeginFrame(s, s', a);
    forall i | 0 <= i < |s.leaves| ensures SameView(s, s', s.leaves[i]) {
      BeginView(s, a, s.leaves[i]);
    }
    ListStays(s, s');
    forall t1 | t1 in s'.ops ensures OpOk(s', t1) {
      if t1 == a.t { BeginOwn(s, s', a); } else { BeginOther(s, s', a, t1); }
    }
    forall u | u in s'.lock ensures LockOk(s', u) { BeginLock(s, s', a, u); }
    forall u | u in s'.link ensures HolderOk(s', u) { BeginHolder(s, s', a, u); }
    forall x | x in s'.prev ensures PrevOk(s', x) { BeginPrev(s, s', a, x); }
  }

  lemma BeginFrame(s: State, s': State, a: Action)
    requires a.Begin? && BeginForm(s, s', a)
    ensures s'.leaves == s.leaves && s'.link == s.link && s'.ops.Keys == s.ops.Keys + {a.t}
  {
  }

  // ----- Every run -----

  lemma StepKeepsInv(s: State, a: Action)
    requires Inv(s) && Enabled(s, a)
    ensures Inv(Do(s, a))
  {
    hide Inv, Step, Distinct, Tile;
    if a.Begin? {
      BeginKeeps(s, a);
    } else {
      AdvanceKeeps(s, a.t);
    }
  }

  lemma AdvanceKeeps(s: State, t: Tid)
    requires Inv(s) && t in s.ops
    ensures Inv(Step(s, t))
  {
    hide Inv;
    Pieces(s, t);
    if s.ops[t].Freeing? {
      FreeKeeps(s, t);
    } else if s.ops[t].Idle? || s.ops[t].chain == [] {
      StepIdle(s, t);
    } else {
      match s.ops[t].stage {
        case ReadPrev => if s.PrevOf(s.ops[t].old_) == None { SwapKeeps(s, t); } else { ReadPrevKeeps(s, t); }
        case TryPrev => TryPrevKeeps(s, t);
        case CheckPrev => CheckPrevKeeps(s, t);
        case DropPrev => DropPrevKeeps(s, t);
        case SetNext => SwapKeeps(s, t);
        case SetPrev => SetPrevKeeps(s, t);
        case LockRight => LockRightKeeps(s, t);
        case LockOld => LockOldKeeps(s, t);
        case ReadNext => ReadNextKeeps(s, t);
        case SetRightNext => QuietKeeps(s, t);
        case SetNextPrev => SetNextPrevKeeps(s, t);
        case FreePrev => FreePrevKeeps(s, t);
        case FreeRight => QuietKeeps(s, t);
        case Unlock => QuietKeeps(s, t);
      }
    }
  }

  lemma StepIdle(s: State, t: Tid)
    requires t in s.ops && !s.ops[t].Freeing? && (s.ops[t].Idle? || s.ops[t].chain == [])
    ensures Step(s, t) == s
  {
  }
}
