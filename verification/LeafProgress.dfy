// Splits and unlinks come to an end.
module LeafProgress {
  // What a thread has still to do becomes less with its own steps, unless it has to wait for others; and never do
  // all wait.

  import opened LeafLink
  import opened LeafReaders

  // The steps left, if no attempt fails.
  function Rank(op: Op): nat {
    match op
    case Idle => 0
    case SplitStart(_, _) => 5
    case SplitLock(_, _) => 4
    case SplitSetNext(_, _, _) => 3
    case SplitSetPrev(_, _, _) => 2
    case SplitPublish(_, _, _) => 1
    case UnlinkLock(_) => 4
    case UnlinkReadPrev(_, _) => 3
    case UnlinkCas(_, _, _) => 3
    case UnlinkSetPrev(_, _, _) => 2
    case UnlinkStore(_, _, _) => 1
  }

  // The leaves once the operation is done, if no other is.
  function Goal(s: State, t: Tid): seq<Node>
    requires t in s.ops
  {
    var op := s.ops[t];
    if op.Idle? then s.leaves else if op.IsSplit() then InsertAfter(s.leaves, op.n, op.nr) else Without(s.leaves, {op.n})
  }

  ghost predicate OnlyMoved(s: State, b: State, t: Tid) {
    b.ops.Keys == s.ops.Keys && t in s.ops && forall u | u in s.ops && u != t :: b.ops[u] == s.ops[u]
  }

  lemma OneStep(s: State, t: Tid)
    requires t in s.ops && CanMove(s, t) && !s.ops[t].UnlinkReadPrev?
    requires s.ops[t].UnlinkCas? ==> s.NextOf(s.ops[t].prev) == To(s.ops[t].n, false)
    ensures var b := AdvanceThread(s, t); OnlyMoved(s, b, t) && Rank(b.ops[t]) < Rank(s.ops[t]) && Goal(b, t) == Goal(s, t)
  {
  }

  // A fresh read of the prev field, after which the compare-and-swap succeeds.
  lemma ReadStep(s: State, t: Tid)
    requires t in s.ops && CanMove(s, t) && s.ops[t].UnlinkReadPrev?
    ensures var b := AdvanceThread(s, t);
            && OnlyMoved(s, b, t) && CanMove(b, t) && b.ops[t].UnlinkCas? && b.NextOf(b.ops[t].prev) == To(b.ops[t].n, false)
            && Rank(b.ops[t]) == Rank(s.ops[t]) && Goal(b, t) == Goal(s, t)
  {
  }

  lemma FailedCas(s: State, t: Tid)
    requires t in s.ops && CanMove(s, t) && s.ops[t].UnlinkCas? && s.NextOf(s.ops[t].prev) != To(s.ops[t].n, false)
    ensures var b := AdvanceThread(s, t);
            OnlyMoved(s, b, t) && CanMove(b, t) && b.ops[t].UnlinkReadPrev? && Rank(b.ops[t]) == Rank(s.ops[t]) && Goal(b, t) == Goal(s, t)
  {
  }

  lemma Trans(s: State, a: State, b: State, t: Tid)
    requires OnlyMoved(s, a, t) && OnlyMoved(a, b, t)
    ensures OnlyMoved(s, b, t)
  {
  }

  lemma RunStep(init: State, acts: seq<Action>, own: seq<Action>, s: State, t: Tid)
    requires Run(init, acts + own, s) && t in s.ops
    ensures Run(init, acts + (own + [Advance(t)]), AdvanceThread(s, t))
  {
    hide Run, AdvanceThread;
    RunOn(init, acts + own, s, Advance(t), AdvanceThread(s, t));
    assert acts + own + [Advance(t)] == acts + (own + [Advance(t)]);
  }

  // The thread's own steps bring it nearer to its end.
  lemma Moves(init: State, acts: seq<Action>, s: State, t: Tid) returns (own: seq<Action>, b: State)
    requires Run(init, acts, s) && t in s.ops && CanMove(s, t)
    ensures (forall x :: x in own ==> x == Advance(t)) && Run(init, acts + own, b)
    ensures OnlyMoved(s, b, t) && Rank(b.ops[t]) < Rank(s.ops[t]) && Goal(b, t) == Goal(s, t)
  {
    hide Run, AdvanceThread, CanMove, OnlyMoved, Goal, Rank;
    own, b := [], s;
    assert acts + [] == acts;
    MovedNot(s, t);
    if s.ops[t].UnlinkCas? && s.NextOf(s.ops[t].prev) != To(s.ops[t].n, false) {
      FailedCas(s, t);
      RunStep(init, acts, own, b, t);
      own, b := own + [Advance(t)], AdvanceThread(b, t);
    }
    if b.ops[t].UnlinkReadPrev? {
      ghost var a := b;
      ReadStep(b, t);
      RunStep(init, acts, own, b, t);
      own, b := own + [Advance(t)], AdvanceThread(b, t);
      Trans(s, a, b, t);
    }
    OneStep(b, t);
    RunStep(init, acts, own, b, t);
    Trans(s, b, AdvanceThread(b, t), t);
    own, b := own + [Advance(t)], AdvanceThread(b, t);
  }

  lemma MovedNot(s: State, t: Tid)
    requires t in s.ops
    ensures OnlyMoved(s, s, t)
  {
  }

  // ----- Alone -----

  // A thread that has nobody in its way finishes its operation, and the leaves are what it is for.
  lemma {:induction false} FinishesAlone(init: State, acts: seq<Action>, s: State, t: Tid) returns (own: seq<Action>, b: State)
    requires Initial(init) && Run(init, acts, s) && t in s.ops && forall u | u in s.ops && u != t :: s.ops[u].Idle?
    ensures (forall x :: x in own ==> x == Advance(t)) && Run(init, acts + own, b)
    ensures b.leaves == Goal(s, t) && b.ops.Keys == s.ops.Keys && forall u | u in b.ops :: b.ops[u].Idle?
    decreases Rank(s.ops[t])
  {
    hide Run, Initial, Rank;
    own, b := [], s;
    assert acts + [] == acts;
    if !s.ops[t].Idle? {
      var mover := NoDeadlock(init, acts, s, t);
      assert mover == t;
      own, b := Moves(init, acts, s, t);
      var more;
      more, b := FinishesAlone(init, acts + own, b, t);
      assert acts + own + more == acts + (own + more);
      own := own + more;
    }
  }

  lemma SplitAlone(init: State, acts: seq<Action>, s: State, t: Tid, n: Node, nr: Node) returns (own: seq<Action>, b: State)
    requires Initial(init) && Run(init, acts, s) && (forall u | u in s.ops :: s.ops[u].Idle?) && Enabled(s, BeginSplit(t, n, nr))
    ensures (forall x :: x in own ==> x == Advance(t)) && Run(init, acts + [BeginSplit(t, n, nr)] + own, b)
    ensures b.leaves == InsertAfter(s.leaves, n, nr) && forall u | u in b.ops :: b.ops[u].Idle?
  {
    hide Run, Initial;
    var a := BeginSplit(t, n, nr);
    RunOn(init, acts, s, a, Do(s, a));
    own, b := FinishesAlone(init, acts + [a], Do(s, a), t);
  }

  lemma UnlinkAlone(init: State, acts: seq<Action>, s: State, t: Tid, n: Node) returns (own: seq<Action>, b: State)
    requires Initial(init) && Run(init, acts, s) && (forall u | u in s.ops :: s.ops[u].Idle?) && Enabled(s, BeginUnlink(t, n))
    ensures (forall x :: x in own ==> x == Advance(t)) && Run(init, acts + [BeginUnlink(t, n)] + own, b)
    ensures b.leaves == Without(s.leaves, {n}) && forall u | u in b.ops :: b.ops[u].Idle?
  {
    hide Run, Initial;
    var a := BeginUnlink(t, n);
    RunOn(init, acts, s, a, Do(s, a));
    own, b := FinishesAlone(init, acts + [a], Do(s, a), t);
  }

  // ----- All of them -----

  function Total(ops: map<Tid, Op>, n: nat): nat {
    if n == 0 then 0 else Total(ops, n - 1) + if n - 1 in ops then Rank(ops[n - 1]) else 0
  }

  lemma {:induction false} TotalLess(s: State, b: State, t: Tid, n: nat)
    requires OnlyMoved(s, b, t) && Rank(b.ops[t]) < Rank(s.ops[t])
    ensures Total(b.ops, n) + (if t < n then 1 else 0) <= Total(s.ops, n)
  {
    hide Rank;
    if n > 0 {
      TotalLess(s, b, t, n - 1);
    }
  }

  lemma {:induction false} Bound(ts: set<Tid>) returns (n: nat)
    ensures forall t | t in ts :: t < n
    decreases ts
  {
    n := 0;
    if ts != {} {
      var t :| t in ts;
      n := Bound(ts - {t});
      assert ts == (ts - {t}) + {t};
      n := if n <= t then t + 1 else n;
    }
  }

  // From every state of every run there is a way to go on that finishes all operations in flight.
  lemma AllCanFinish(init: State, acts: seq<Action>, s: State) returns (more: seq<Action>, b: State)
    requires Initial(init) && Run(init, acts, s)
    ensures (forall x :: x in more ==> x.Advance?) && Run(init, acts + more, b) && forall t | t in b.ops :: b.ops[t].Idle?
  {
    var n := Bound(s.ops.Keys);
    more, b := FinishAll(init, acts, s, n);
  }

  lemma {:induction false} FinishAll(init: State, acts: seq<Action>, s: State, n: nat) returns (more: seq<Action>, b: State)
    requires Initial(init) && Run(init, acts, s) && forall t | t in s.ops :: t < n
    ensures (forall x :: x in more ==> x.Advance?) && Run(init, acts + more, b) && forall t | t in b.ops :: b.ops[t].Idle?
    decreases Total(s.ops, n)
  {
    hide Run, Initial, Rank, Goal, CanMove, Total;
    more, b := [], s;
    assert acts + [] == acts;
    if t :| t in s.ops && !s.ops[t].Idle? {
      var mover := NoDeadlock(init, acts, s, t);
      more, b := Moves(init, acts, s, mover);
      TotalLess(s, b, mover, n);
      var rest;
      rest, b := FinishAll(init, acts + more, b, n);
      assert acts + more + rest == acts + (more + rest);
      more := more + rest;
    }
  }
}
