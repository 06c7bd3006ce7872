// Replacements come to an end.
module LinkProgress {
  // What a thread has still to do becomes less with its own steps, unless it has to wait for others; and never do
  // all wait.

  import opened LinkLocks
  import opened LeafOrder

  // The steps left, if no attempt fails.
  function StepsFrom(stage: Stage): nat {
    match stage
    case CheckPrev => 14
    case DropPrev => 13
    case ReadPrev => 12
    case TryPrev => 12
    case SetNext => 11
    case SetPrev => 10
    case LockRight => 9
    case LockOld => 8
    case ReadNext => 7
    case SetRightNext => 6
    case SetNextPrev => 5
    case Unlock => 4
    case FreePrev => 2
    case FreeRight => 1
  }

  function Rank(op: Op): nat {
    match op
    case Idle => 0
    case Freeing(_, _, prevFreed) => if prevFreed then 1 else 2
    case Replace(stage, _, _, _, _) => StepsFrom(stage)
  }

  // The leaves once the operation is done, if no other is.
  function Goal(s: State, t: Tid): seq<Node>
    requires t in s.ops
  {
    var op := s.ops[t];
    if op.Replace? && op.stage.Before() then Swap(s.leaves, op.old_, op.chain) else s.leaves
  }

  ghost predicate OnlyMoved(s: State, b: State, t: Tid) {
    b.ops.Keys == s.ops.Keys && t in s.ops && forall u | u in s.ops && u != t :: b.ops[u] == s.ops[u]
  }

  // Whether the thread is still looking for the previous leaf, or goes back to it.
  predicate Looking(op: Op) { op.Replace? && (op.stage.ReadPrev? || op.stage.TryPrev?) }

  predicate Early(stage: Stage) { stage.CheckPrev? || stage.DropPrev? || stage.SetNext? || stage.SetPrev? || stage.LockRight? }

  lemma EarlyStep(s: State, t: Tid)
    requires t in s.ops && CanMove(s, t) && s.ops[t].Replace? && Early(s.ops[t].stage)
    ensures var b := Step(s, t); OnlyMoved(s, b, t) && Rank(b.ops[t]) < Rank(s.ops[t]) && Goal(b, t) == Goal(s, t)
  {
    hide Swap;
  }

  predicate Late(stage: Stage) { stage.LockOld? || stage.ReadNext? || stage.SetRightNext? || stage.SetNextPrev? }

  lemma LateStep(s: State, t: Tid)
    requires t in s.ops && CanMove(s, t) && s.ops[t].Replace? && Late(s.ops[t].stage)
    ensures var b := Step(s, t); OnlyMoved(s, b, t) && Rank(b.ops[t]) < Rank(s.ops[t]) && Goal(b, t) == Goal(s, t)
  {
    hide Swap;
  }

  lemma LastStep(s: State, t: Tid)
    requires t in s.ops && CanMove(s, t) && !Looking(s.ops[t]) && (s.ops[t].Replace? ==> !Early(s.ops[t].stage) && !Late(s.ops[t].stage))
    ensures var b := Step(s, t); OnlyMoved(s, b, t) && Rank(b.ops[t]) < Rank(s.ops[t]) && Goal(b, t) == Goal(s, t)
  {
    hide Swap;
  }

  lemma OneStep(s: State, t: Tid)
    requires t in s.ops && CanMove(s, t) && !Looking(s.ops[t])
    ensures var b := Step(s, t); OnlyMoved(s, b, t) && Rank(b.ops[t]) < Rank(s.ops[t]) && Goal(b, t) == Goal(s, t)
  {
    hide Step, CanMove, Rank, Goal, OnlyMoved, Early, Late;
    if s.ops[t].Replace? && Early(s.ops[t].stage) {
      EarlyStep(s, t);
    } else if s.ops[t].Replace? && Late(s.ops[t].stage) {
      LateStep(s, t);
    } else {
      LastStep(s, t);
    }
  }

  // The leftmost leaf has no previous leaf to lock.
  lemma FirstStep(s: State, t: Tid)
    requires t in s.ops && CanMove(s, t) && s.ops[t].Replace? && s.ops[t].stage.ReadPrev? && s.PrevOf(s.ops[t].old_) == None
    ensures var b := Step(s, t); OnlyMoved(s, b, t) && Rank(b.ops[t]) < Rank(s.ops[t]) && Goal(b, t) == Goal(s, t)
  {
    hide Swap;
  }

  lemma ReadStep(s: State, t: Tid)
    requires t in s.ops && CanMove(s, t) && s.ops[t].Replace? && s.ops[t].stage.ReadPrev? && s.PrevOf(s.ops[t].old_).Some?
    ensures var b := Step(s, t);
            && OnlyMoved(s, b, t) && CanMove(b, t) && Goal(b, t) == Goal(s, t) && b.ops[t].Replace? && b.ops[t].stage.TryPrev?
            && b.ops[t].p.Some? && b.ops[t].p == b.PrevOf(b.ops[t].old_) && Rank(b.ops[t]) == Rank(s.ops[t])
  {
    hide Swap;
  }

  lemma TryStep(s: State, t: Tid)
    requires t in s.ops && CanMove(s, t) && s.ops[t].Replace? && s.ops[t].stage.TryPrev? && s.ops[t].p.Some?
    requires s.ops[t].p == s.PrevOf(s.ops[t].old_)
    ensures var b := Step(s, t);
            && OnlyMoved(s, b, t) && Goal(b, t) == Goal(s, t) && b.ops[t].Replace? && b.ops[t].chain != [] && b.ops[t].stage.CheckPrev?
            && b.ops[t].p == b.PrevOf(b.ops[t].old_)
  {
    hide Swap;
  }

  lemma CheckStep(s: State, t: Tid)
    requires t in s.ops && s.ops[t].Replace? && s.ops[t].chain != [] && s.ops[t].stage.CheckPrev? && s.ops[t].p == s.PrevOf(s.ops[t].old_)
    ensures var b := Step(s, t); OnlyMoved(s, b, t) && Goal(b, t) == Goal(s, t) && b.ops[t].Replace? && b.ops[t].stage.SetNext?
  {
    hide Swap;
  }

  // An attempt that meets a leaf which is held, or no longer the previous one, or none.
  predicate Stale(s: State, t: Tid)
    requires t in s.ops
  {
    s.ops[t].Replace? && s.ops[t].stage.TryPrev? && !(s.ops[t].p.Some? && s.ops[t].p == s.PrevOf(s.ops[t].old_))
  }

  lemma StaleTry(s: State, t: Tid)
    requires t in s.ops && CanMove(s, t) && Stale(s, t)
    ensures var b, op := Step(s, t), s.ops[t];
            && OnlyMoved(s, b, t) && Goal(b, t) == Goal(s, t) && b.prev == s.prev
            && (if op.p.None? || op.p.value in s.link then b.ops[t] == op.(stage := ReadPrev) && CanMove(b, t)
                else b.ops[t] == op.(stage := CheckPrev) && b.link == s.link[op.p.value := t])
  {
    hide Swap;
  }

  // The lock of a leaf that is no longer the previous one is dropped again.
  lemma DropSteps(s: State, t: Tid)
    requires t in s.ops && s.ops[t].Replace? && s.ops[t].chain != [] && s.ops[t].stage.CheckPrev?
    requires s.ops[t].p.Some? && s.ops[t].p != s.PrevOf(s.ops[t].old_)
    ensures var a := Step(s, t); OnlyMoved(s, a, t) && Goal(a, t) == Goal(s, t)
    ensures t in Step(s, t).ops
    ensures var a := Step(s, t); var b := Step(a, t);
            && OnlyMoved(a, b, t) && t in b.ops && Goal(b, t) == Goal(s, t) && b.prev == s.prev && b.link == s.link - {s.ops[t].p.value}
            && b.ops[t] == s.ops[t].(stage := ReadPrev)
  {
    hide Swap;
  }

  lemma MovesAgain(s: State, b: State, t: Tid, v: Node)
    requires t in s.ops && t in b.ops && CanMove(s, t) && s.ops[t].Replace? && s.ops[t].stage.TryPrev? && v !in s.link
    requires b.ops[t] == s.ops[t].(stage := ReadPrev) && b.prev == s.prev && b.link == s.link[v := t] - {v}
    ensures CanMove(b, t)
  {
  }

  lemma Trans(s: State, a: State, b: State, t: Tid)
    requires OnlyMoved(s, a, t) && OnlyMoved(a, b, t)
    ensures OnlyMoved(s, b, t)
  {
  }

  lemma MovedNot(s: State, t: Tid)
    requires t in s.ops
    ensures OnlyMoved(s, s, t)
  {
  }

  lemma RunOn(init: State, acts: seq<Action>, r: State, a: Action)
    requires Run(init, acts, r) && Enabled(r, a)
    ensures Run(init, acts + [a], Do(r, a))
  {
    hide Do, Enabled;
    assert (acts + [a])[..|acts|] == acts && Takes(r, a, Do(r, a));
    assert RunThen(init, acts, a, Do(r, a));
  }

  // The thread's own steps so far.
  ghost predicate Own(init: State, acts: seq<Action>, s: State, t: Tid, own: seq<Action>, b: State) {
    && (forall x :: x in own ==> x == Advance(t)) && Run(init, acts + own, b) && OnlyMoved(s, b, t) && t in b.ops && Goal(b, t) == Goal(s, t)
  }

  lemma OwnStep(init: State, acts: seq<Action>, s: State, t: Tid, own: seq<Action>, a: State)
    requires t in s.ops && Own(init, acts, s, t, own, a) && OnlyMoved(a, Step(a, t), t) && Goal(Step(a, t), t) == Goal(a, t)
    ensures Own(init, acts, s, t, own + [Advance(t)], Step(a, t))
  {
    hide Run, Step, OnlyMoved, Goal;
    RunOn(init, acts + own, a, Advance(t));
    assert acts + own + [Advance(t)] == acts + (own + [Advance(t)]);
    Trans(s, a, Step(a, t), t);
    MovedIn(s, Step(a, t), t);
  }

  lemma MovedIn(s: State, b: State, t: Tid)
    requires OnlyMoved(s, b, t)
    ensures t in b.ops
  {
  }

  // Back to a fresh read of the previous leaf.
  lemma LooksAfresh(init: State, acts: seq<Action>, s: State, t: Tid) returns (own: seq<Action>, b: State)
    requires Run(init, acts, s) && t in s.ops && CanMove(s, t) && Stale(s, t)
    ensures Own(init, acts, s, t, own, b) && t in b.ops && CanMove(b, t) && b.ops[t].Replace? && b.ops[t].stage.ReadPrev?
  {
    hide Run, Step, CanMove, OnlyMoved, Goal, Own;
    var op := s.ops[t];
    CanMoveIs(s, t);
    OwnNone(init, acts, s, t);
    StaleTry(s, t);
    OwnStep(init, acts, s, t, [], s);
    own, b := [] + [Advance(t)], Step(s, t);
    OwnIn(init, acts, s, t, own, b);
    if op.p.Some? && op.p.value !in s.link {
      var c := b;
      DropSteps(c, t);
      OwnStep(init, acts, s, t, own, c);
      OwnIn(init, acts, s, t, own + [Advance(t)], Step(c, t));
      SameGoal(c, t);
      OwnStep(init, acts, s, t, own + [Advance(t)], Step(c, t));
      own, b := own + [Advance(t)] + [Advance(t)], Step(Step(c, t), t);
      OwnIn(init, acts, s, t, own, b);
      MovesAgain(s, b, t, op.p.value);
    }
  }

  lemma SameGoal(c: State, t: Tid)
    requires t in c.ops && t in Step(c, t).ops && t in Step(Step(c, t), t).ops
    requires Goal(Step(c, t), t) == Goal(c, t) && Goal(Step(Step(c, t), t), t) == Goal(c, t)
    ensures Goal(Step(Step(c, t), t), t) == Goal(Step(c, t), t)
  {
  }

  lemma CanMoveIs(s: State, t: Tid)
    requires t in s.ops && CanMove(s, t) && Stale(s, t)
    ensures s.ops[t].chain != []
  {
  }

  lemma OwnNone(init: State, acts: seq<Action>, s: State, t: Tid)
    requires Run(init, acts, s) && t in s.ops
    ensures Own(init, acts, s, t, [], s)
  {
    assert acts + [] == acts;
  }

  lemma OwnIn(init: State, acts: seq<Action>, s: State, t: Tid, own: seq<Action>, b: State)
    requires t in s.ops && Own(init, acts, s, t, own, b)
    ensures t in b.ops && Run(init, acts + own, b) && OnlyMoved(s, b, t) && Goal(b, t) == Goal(s, t) && forall x :: x in own ==> x == Advance(t)
  {
  }

  // The thread's own steps bring it nearer to its end.
  lemma Moves(init: State, acts: seq<Action>, s: State, t: Tid) returns (own: seq<Action>, b: State)
    requires Run(init, acts, s) && t in s.ops && CanMove(s, t)
    ensures Own(init, acts, s, t, own, b) && t in b.ops && Rank(b.ops[t]) < Rank(s.ops[t])
  {
    hide Run, Step, CanMove, OnlyMoved, Goal, Own;
    own, b := [], s;
    OwnNone(init, acts, s, t);
    if Looking(s.ops[t]) {
      if Stale(s, t) {
        own, b := LooksAfresh(init, acts, s, t);
      }
      if b.ops[t].stage.ReadPrev? && b.PrevOf(b.ops[t].old_) == None {
        FirstStep(b, t);
        own, b := StepOn(init, acts, s, t, own, b);
      } else {
        if b.ops[t].stage.ReadPrev? {
          ReadStep(b, t);
          own, b := StepOn(init, acts, s, t, own, b);
        }
        TryStep(b, t);
        own, b := StepOn(init, acts, s, t, own, b);
        CheckStep(b, t);
        own, b := StepOn(init, acts, s, t, own, b);
      }
    } else {
      OneStep(b, t);
      own, b := StepOn(init, acts, s, t, own, b);
    }
  }

  lemma StepOn(init: State, acts: seq<Action>, s: State, t: Tid, own0: seq<Action>, a: State) returns (own: seq<Action>, b: State)
    requires t in s.ops && Own(init, acts, s, t, own0, a) && OnlyMoved(a, Step(a, t), t) && Goal(Step(a, t), t) == Goal(a, t)
    ensures Own(init, acts, s, t, own, b) && b == Step(a, t) && t in b.ops
  {
    hide Run, Step, OnlyMoved, Goal, Own;
    OwnIn(init, acts, s, t, own0, a);
    OwnStep(init, acts, s, t, own0, a);
    own, b := own0 + [Advance(t)], Step(a, t);
    OwnIn(init, acts, s, t, own, b);
  }

  // ----- Alone -----

  // A thread that has nobody in its way finishes its replacement, and its new leaves are in the list.
  lemma {:induction false} FinishesAlone(init: State, acts: seq<Action>, s: State, lo: int, hi: int, t: Tid) returns (own: seq<Action>, b: State)
    requires Initial(init, lo, hi) && Run(init, acts, s) && t in s.ops && forall u | u in s.ops && u != t :: s.ops[u].Idle?
    ensures (forall x :: x in own ==> x == Advance(t)) && Run(init, acts + own, b)
    ensures b.leaves == Goal(s, t) && b.ops.Keys == s.ops.Keys && forall u | u in b.ops :: b.ops[u].Idle?
    decreases Rank(s.ops[t])
  {
    hide Run, Initial, Rank, Own;
    own, b := [], s;
    assert acts + [] == acts;
    if !s.ops[t].Idle? {
      var mover := NoDeadlock(init, acts, s, lo, hi, t);
      assert mover == t;
      own, b := Moves(init, acts, s, t);
      OwnIn(init, acts, s, t, own, b);
      var more;
      more, b := FinishesAlone(init, acts + own, b, lo, hi, t);
      assert acts + own + more == acts + (own + more);
      own := own + more;
    }
  }

  lemma ReplacesAlone(init: State, acts: seq<Action>, s: State, lo: int, hi: int, a: Action) returns (own: seq<Action>, b: State)
    requires Initial(init, lo, hi) && Run(init, acts, s) && (forall u | u in s.ops :: s.ops[u].Idle?) && a.Begin? && Enabled(s, a)
    ensures (forall x :: x in own ==> x == Advance(a.t)) && Run(init, acts + [a] + own, b)
    ensures b.leaves == Swap(s.leaves, a.old_, a.chain) && forall u | u in b.ops :: b.ops[u].Idle?
  {
    hide Run, Initial, Tile, Distinct;
    RunOn(init, acts, s, a);
    own, b := FinishesAlone(init, acts + [a], Do(s, a), lo, hi, a.t);
  }

  // ----- All of them -----

  function Total(ops: map<Tid, Op>, n: nat): nat {
    if n == 0 then 0 else Total(ops, n - 1) + if n - 1 in ops then Rank(ops[n - 1]) else 0
  }

  lemma {:induction false} TotalLess(s: State, b: State, t: Tid, n: nat)
    requires OnlyMoved(s, b, t) && Rank(b.ops[t]) < Rank(s.ops[t])
    ensures Total(b.ops, n) + (if t < n then 1 else 0) <= Total(s.ops, n)
  {
    hide Rank;
    if n > 0 {
      TotalLess(s, b, t, n - 1);
    }
  }

  lemma {:induction false} Bound(ts: set<Tid>) returns (n: nat)
    ensures forall t | t in ts :: t < n
    decreases ts
  {
    n := 0;
    if ts != {} {
      var t :| t in ts;
      n := Bound(ts - {t});
      assert ts == (ts - {t}) + {t};
      n := if n <= t then t + 1 else n;
    }
  }

  // From every state of every run there is a way to go on that finishes all replacements in flight.
  lemma AllCanFinish(init: State, acts: seq<Action>, s: State, lo: int, hi: int) returns (more: seq<Action>, b: State)
    requires Initial(init, lo, hi) && Run(init, acts, s)
    ensures (forall x :: x in more ==> x.Advance?) && Run(init, acts + more, b) && forall t | t in b.ops :: b.ops[t].Idle?
  {
    hide Run, Initial;
    var n := Bound(s.ops.Keys);
    more, b := FinishAll(init, acts, s, lo, hi, n);
  }

  lemma {:induction false} FinishAll(init: State, acts: seq<Action>, s: State, lo: int, hi: int, n: nat) returns (more: seq<Action>, b: State)
    requires Initial(init, lo, hi) && Run(init, acts, s) && forall t | t in s.ops :: t < n
    ensures (forall x :: x in more ==> x.Advance?) && Run(init, acts + more, b) && forall t | t in b.ops :: b.ops[t].Idle?
    decreases Total(s.ops, n)
  {
    hide Run, Initial, Rank, Goal, CanMove, Total, Own;
    more, b := [], s;
    assert acts + [] == acts;
    if t :| t in s.ops && !s.ops[t].Idle? {
      var mover := NoDeadlock(init, acts, s, lo, hi, t);
      more, b := Moves(init, acts, s, mover);
      OwnIn(init, acts, s, mover, more, b);
      TotalLess(s, b, mover, n);
      var rest;
      rest, b := FinishAll(init, acts + more, b, lo, hi, n);
      assert acts + more + rest == acts + (more + rest);
      more := more + rest;
    }
  }

  // One leaf split in two, from beginning to end.
  lemma SplitRun() returns (init: State, acts: seq<Action>, b: State)
    ensures Initial(init, 0, 10) && init.leaves == [0] && Run(init, acts, b) && b.leaves == [1, 2]
    ensures forall t | t in b.ops :: b.ops[t].Idle?
  {
    hide Run;
    init := State(map[0 := None], map[0 := None], map[], map[], map[0 := Idle], map[0 := Range(0, 10)], [0]);
    assert [0][1..] == [] && Tile(init.range, [], 10, 10);
    assert Initial(init, 0, 10);
    var a := Begin(0, 0, [1, 2], map[1 := Range(0, 5), 2 := Range(5, 10)]);
    assert [1, 2][1..] == [2] && [2][1..] == [] && Tile(a.ranges, [], 10, 10) && Tile(a.ranges, [2], 5, 10);
    assert Enabled(init, a);
    NoRun(init);
    var own;
    own, b := ReplacesAlone(init, [], init, 0, 10, a);
    acts := [] + [a] + own;
    assert Swap([0], 0, [1, 2]) == [1, 2];
  }

  lemma NoRun(init: State)
    ensures Run(init, [], init)
  {
  }
}
