// The lock of a model node.
module RwLock {
  // A state machine over the loads, stores, subtractions and compare-and-swaps of any number of threads
  // on the node's 32-bit reader/writer lock word.

  // The writer bit; the bits below it count the readers.
  const LOCK_SET := 0x8000_0000
  const WORD := 0x1_0000_0000

  datatype Kind = Get | Try | Promote

  // Where a thread stands. `seen` is its copy of the lock word, `want` the value its compare-and-swap
  // expects.
  datatype Pc =
    | Idle
    | CheckRead(seen: int, once: bool)    // (v & lockSet) || is_obsolete_ ?
    | CasRead(want: int, once: bool)       // CAS(&lock_, &old_value, ((v & lockMask) + 1) & lockMask)
    | Reading
    | CheckWrite(seen: int, kind: Kind)   // (v & lockSet) || is_obsolete_ ?
    | CasWrite(want: int, kind: Kind)      // CAS(&lock_, &old_value, old_value | lockSet)
    | Subtract                            // SUB(&lock_, 1)
    | Drain                               // while (v & lockMask)
    | Writing
  {
    predicate HoldsRead() {
      Reading? || Subtract? || (CheckWrite? && kind.Promote?) || (CasWrite? && kind.Promote?)
    }

    predicate HoldsBit() { Subtract? || Drain? || Writing? }
  }

  datatype State = State(word: int, obsolete: bool, pcs: seq<Pc>)

  datatype Action =
    | BeginRead(t: nat, once: bool)
    | BeginWrite(t: nat, once: bool)
    | BeginPromote(t: nat)
    | Step(t: nat)
    | ReleaseRead(t: nat)
    | ReleaseWrite(t: nat)
    | Retire(t: nat)

  predicate Enabled(s: State, a: Action) {
    && a.t < |s.pcs|
    && var pc := s.pcs[a.t];
       match a
       case BeginRead(_, _) => pc.Idle?
       case BeginWrite(_, _) => pc.Idle?
       case BeginPromote(_) => pc.Reading?
       case Step(_) => !pc.Idle? && !pc.Reading? && !pc.Writing?
       case ReleaseRead(_) => pc.Reading?
       case ReleaseWrite(_) => pc.Writing?
       case Retire(_) => pc.Writing?
  }

  // The thread's copy of the word when a compare-and-swap fails, and when it begins, is the word.
  // A writer that replaces the node marks it as obsolete and leaves it locked.
  function Do(s: State, a: Action): State
    requires Enabled(s, a)
  {
    match a
    case BeginRead(t, once) => s.(pcs := s.pcs[t := CheckRead(s.word, once)])
    case BeginWrite(t, once) => s.(pcs := s.pcs[t := CheckWrite(s.word, if once then Try else Get)])
    case BeginPromote(t) => s.(pcs := s.pcs[t := CheckWrite(s.word, Promote)])
    case ReleaseRead(t) => s.(word := (s.word - 1) % WORD, pcs := s.pcs[t := Idle])
    case ReleaseWrite(t) => s.(word := 0, pcs := s.pcs[t := Idle])
    case Retire(t) => s.(obsolete := true, pcs := s.pcs[t := Idle])
    case Step(t) => Advance(s, t)
  }

  function Advance(s: State, t: nat): State
    requires t < |s.pcs|
  {
    match s.pcs[t]
    case CheckRead(seen, once) =>
      s.(pcs := s.pcs[t := if seen >= LOCK_SET || s.obsolete then Idle else CasRead(seen, once)])
    case CasRead(want, once) =>
      if s.word == want then s.(word := (want + 1) % LOCK_SET, pcs := s.pcs[t := Reading])
      else s.(pcs := s.pcs[t := if once then Idle else CheckRead(s.word, once)])
    case CheckWrite(seen, kind) =>
      s.(pcs := s.pcs[t := if seen >= LOCK_SET || s.obsolete then Failed(kind) else CasWrite(seen % LOCK_SET, kind)])
    case CasWrite(want, kind) =>
      if s.word == want then s.(word := want + LOCK_SET, pcs := s.pcs[t := if kind.Promote? then Subtract else Drain])
      else s.(pcs := s.pcs[t := if kind.Try? then Idle else CheckWrite(s.word, kind)])
    case Subtract => s.(word := (s.word - 1) % WORD, pcs := s.pcs[t := Drain])
    case Drain => if s.word % LOCK_SET == 0 then s.(pcs := s.pcs[t := Writing]) else s
    case _ => s
  }

  // Where a thread is after its attempt has failed: a promoter still has its read lock.
  function Failed(kind: Kind): Pc { if kind.Promote? then Reading else Idle }

  ghost predicate Run(init: State, acts: seq<Action>, s: State)
    decreases |acts|, 0
  {
    if acts == [] then s == init else RunThen(init, acts[..|acts| - 1], acts[|acts| - 1], s)
  }

  ghost predicate RunThen(init: State, acts: seq<Action>, a: Action, s: State)
    decreases |acts|, 1
  {
    exists r :: Run(init, acts, r) && Takes(r, a, s)
  }

  ghost predicate Takes(r: State, a: Action, s: State) { Enabled(r, a) && s == Do(r, a) }

  // A node that has just been built: free, or for an expanded node with the lock word of the node it
  // replaces, which its builder holds as a writer. There are fewer threads than the count has room for.
  ghost predicate Initial(s: State) {
    !s.obsolete && |s.pcs| < LOCK_SET && (Free(s) || exists t :: 0 <= t < |s.pcs| && Owned(s, t))
  }

  ghost predicate Free(s: State) { s.word == 0 && forall t :: 0 <= t < |s.pcs| ==> s.pcs[t].Idle? }

  ghost predicate Owned(s: State, t: nat)
    requires t < |s.pcs|
  {
    s.word == LOCK_SET && s.pcs[t].Writing? && forall u :: 0 <= u < |s.pcs| && u != t ==> s.pcs[u].Idle?
  }

  // ----- Counting -----

  function Readers(pcs: seq<Pc>): nat { if pcs == [] then 0 else (if pcs[0].HoldsRead() then 1 else 0) + Readers(pcs[1..]) }

  function Owners(pcs: seq<Pc>): nat { if pcs == [] then 0 else (if pcs[0].HoldsBit() then 1 else 0) + Owners(pcs[1..]) }

  lemma {:induction false} CountUpdate(pcs: seq<Pc>, t: nat, pc: Pc)
    requires t < |pcs|
    ensures Readers(pcs[t := pc]) == Readers(pcs) - (if pcs[t].HoldsRead() then 1 else 0) + (if pc.HoldsRead() then 1 else 0)
    ensures Owners(pcs[t := pc]) == Owners(pcs) - (if pcs[t].HoldsBit() then 1 else 0) + (if pc.HoldsBit() then 1 else 0)
    ensures Readers(pcs) <= |pcs|
  {
    if t == 0 {
      assert pcs[t := pc][1..] == pcs[1..];
      CountBound(pcs);
    } else {
      assert pcs[t := pc][1..] == pcs[1..][t - 1 := pc];
      CountUpdate(pcs[1..], t - 1, pc);
    }
  }

  lemma {:induction false} CountBound(pcs: seq<Pc>)
    ensures Readers(pcs) <= |pcs| && Owners(pcs) <= |pcs|
  {
    if pcs != [] {
      CountBound(pcs[1..]);
    }
  }

  lemma {:induction false} OneCounts(pcs: seq<Pc>, t: nat)
    requires t < |pcs|
    ensures pcs[t].HoldsRead() ==> Readers(pcs) >= 1
    ensures pcs[t].HoldsBit() ==> Owners(pcs) >= 1
  {
    if t > 0 {
      OneCounts(pcs[1..], t - 1);
    }
  }

  lemma {:induction false} TwoCount(pcs: seq<Pc>, t: nat, u: nat)
    requires t < u < |pcs| && pcs[t].HoldsBit() && pcs[u].HoldsBit()
    ensures Owners(pcs) >= 2
  {
    if t == 0 {
      OneCounts(pcs[1..], u - 1);
    } else {
      TwoCount(pcs[1..], t - 1, u - 1);
    }
  }

  // ----- The invariant -----

  // The writer bit is set exactly if one thread holds it or the node is obsolete; the low bits count
  // the read holders; an active writer has seen the last of them leave.
  ghost predicate Inv(s: State) {
    && |s.pcs| < LOCK_SET
    && Owners(s.pcs) + (if s.obsolete then 1 else 0) <= 1
    && s.word == LOCK_SET * (Owners(s.pcs) + if s.obsolete then 1 else 0) + Readers(s.pcs)
    && (s.obsolete ==> Readers(s.pcs) == 0)
    && forall t :: 0 <= t < |s.pcs| ==> PcOk(s, s.pcs[t])
  }

  ghost predicate PcOk(s: State, pc: Pc) {
    && (pc.Writing? ==> Readers(s.pcs) == 0)
    && (pc.CasRead? || pc.CasWrite? ==> 0 <= pc.want < LOCK_SET)
    && (pc.CheckRead? || pc.CheckWrite? ==> 0 <= pc.seen)
  }

  lemma StepKeepsInv(s: State, a: Action)
    requires Inv(s) && Enabled(s, a)
    ensures Inv(Do(s, a))
  {
    hide Readers, Owners;
    var s' := Do(s, a);
    CountBound(s.pcs);
    OneCounts(s.pcs, a.t);
    CountUpdate(s.pcs, a.t, s'.pcs[a.t]);
    assert PcOk(s, s.pcs[a.t]);
    assert s'.pcs == s.pcs[a.t := s'.pcs[a.t]];
    CountBound(s'.pcs);
    forall t | 0 <= t < |s'.pcs| ensures PcOk(s', s'.pcs[t]) {
      assert PcOk(s, s.pcs[t]);
      if t != a.t && s.pcs[t].Writing? {
        OneCounts(s.pcs, t);
      }
    }
  }

  lemma {:induction false} RunKeepsInv(init: State, acts: seq<Action>, s: State)
    requires Initial(init) && Run(init, acts, s)
    ensures Inv(s)
    decreases |acts|
  {
    hide Inv, Do, Enabled, Initial;
    if acts == [] {
      StartInv(s);
    } else {
      assert RunThen(init, acts[..|acts| - 1], acts[|acts| - 1], s);
      var r :| Run(init, acts[..|acts| - 1], r) && Takes(r, acts[|acts| - 1], s);
      RunKeepsInv(init, acts[..|acts| - 1], r);
      StepKeepsInv(r, acts[|acts| - 1]);
    }
  }

  lemma StartInv(s: State)
    requires Initial(s)
    ensures Inv(s)
  {
    hide Readers, Owners;
    if Free(s) {
      NoneCount(s.pcs);
    } else {
      var t :| 0 <= t < |s.pcs| && Owned(s, t);
      NoneCount(s.pcs[t := Idle]);
      CountUpdate(s.pcs, t, Idle);
    }
  }

  lemma {:induction false} NoneCount(pcs: seq<Pc>)
    requires forall t :: 0 <= t < |pcs| ==> pcs[t].Idle?
    ensures Readers(pcs) == 0 && Owners(pcs) == 0
  {
    if pcs != [] {
      NoneCount(pcs[1..]);
    }
  }

  // ----- Main results -----

  // In every run an active writer excludes all other readers and writers, and at most one thread, of
  // those that ask for the lock and those that want to be promoted, holds the writer bit.
  lemma Exclusion(init: State, acts: seq<Action>, s: State, t: nat, u: nat)
    requires Initial(init) && Run(init, acts, s) && t < |s.pcs| && u < |s.pcs| && t != u
    ensures s.pcs[t].Writing? ==> !s.pcs[u].HoldsRead() && !s.pcs[u].HoldsBit()
    ensures !(s.pcs[t].HoldsBit() && s.pcs[u].HoldsBit())
  {
    hide Readers, Owners, Run, Initial;
    RunKeepsInv(init, acts, s);
    assert PcOk(s, s.pcs[t]) && PcOk(s, s.pcs[u]);
    OneCounts(s.pcs, u);
    if s.pcs[t].HoldsBit() && s.pcs[u].HoldsBit() {
      TwoCount(s.pcs, if t < u then t else u, if t < u then u else t);
    }
  }

  // The low bits are the number of read holders, and the writer bit is set exactly while a thread
  // holds it or the node is obsolete.
  lemma WordCounts(init: State, acts: seq<Action>, s: State)
    requires Initial(init) && Run(init, acts, s)
    ensures s.word % LOCK_SET == Readers(s.pcs)
    ensures s.word >= LOCK_SET <==> s.obsolete || exists t :: 0 <= t < |s.pcs| && s.pcs[t].HoldsBit()
  {
    hide Readers, Run, Initial;
    RunKeepsInv(init, acts, s);
    CountBound(s.pcs);
    OwnerExists(s.pcs);
  }

  lemma {:induction false} OwnerExists(pcs: seq<Pc>)
    ensures Owners(pcs) > 0 <==> exists t :: 0 <= t < |pcs| && pcs[t].HoldsBit()
  {
    if pcs != [] {
      OwnerExists(pcs[1..]);
      if exists t :: 0 <= t < |pcs| && pcs[t].HoldsBit() {
        var t :| 0 <= t < |pcs| && pcs[t].HoldsBit();
        assert t > 0 ==> pcs[1..][t - 1].HoldsBit();
      }
      if Owners(pcs[1..]) > 0 {
        var t :| 0 <= t < |pcs| - 1 && pcs[1..][t].HoldsBit();
        assert pcs[t + 1].HoldsBit();
      }
    }
  }

  // While the writer bit is set no step adds a reader, and each release takes one away: the writer
  // that waits for the readers to leave has a measure.
  lemma DrainingShrinks(init: State, acts: seq<Action>, s: State, a: Action)
    requires Initial(init) && Run(init, acts, s) && Enabled(s, a) && s.word >= LOCK_SET
    ensures Readers(Do(s, a).pcs) <= Readers(s.pcs)
    ensures a.ReleaseRead? || s.pcs[a.t].Subtract? ==> Readers(Do(s, a).pcs) < Readers(s.pcs)
    ensures Do(s, a).word >= LOCK_SET || a.ReleaseWrite?
  {
    hide Readers, Owners, Run, Initial;
    RunKeepsInv(init, acts, s);
    StepKeepsInv(s, a);
    var s' := Do(s, a);
    assert PcOk(s, s.pcs[a.t]);
    CountBound(s.pcs);
    CountUpdate(s.pcs, a.t, s'.pcs[a.t]);
    OneCounts(s.pcs, a.t);
    assert s'.pcs == s.pcs[a.t := s'.pcs[a.t]];
  }

  // A promoter that loses still has its read lock: it stays among the read holders until it gives the
  // lock back, or becomes the one that holds the writer bit.
  lemma PromotersKeepRead(s: State, a: Action, t: nat)
    requires Enabled(s, a) && t < |s.pcs| && s.pcs[t].HoldsRead()
    ensures t < |Do(s, a).pcs|
    ensures Do(s, a).pcs[t].HoldsRead() || (a == ReleaseRead(t)) || (a == Step(t) && s.pcs[t].Subtract? && Do(s, a).pcs[t].Drain?)
  {
  }

  // Once a writer has replaced the node nobody gets its lock any more.
  lemma ObsoleteStaysLocked(init: State, acts: seq<Action>, s: State, t: nat)
    requires Initial(init) && Run(init, acts, s) && s.obsolete && t < |s.pcs|
    ensures s.word == LOCK_SET && !s.pcs[t].HoldsRead() && !s.pcs[t].HoldsBit()
  {
    hide Readers, Owners, Run, Initial;
    RunKeepsInv(init, acts, s);
    OneCounts(s.pcs, t);
  }

  // ----- When requests succeed -----

  // From a to b by the thread's own steps; nobody else moves.
  ghost predicate OnItsOwn(a: State, acts: seq<Action>, b: State, t: nat)
    decreases |acts|
  {
    if acts == [] then a == b else acts[0].t == t && Enabled(a, acts[0]) && OnItsOwn(Do(a, acts[0]), acts[1..], b, t)
  }

  lemma Three(a: State, x: Action, y: Action, z: Action, t: nat)
    requires x.t == y.t == z.t == t && Enabled(a, x) && Enabled(Do(a, x), y) && Enabled(Do(Do(a, x), y), z)
    ensures OnItsOwn(a, [x, y, z], Do(Do(Do(a, x), y), z), t)
  {
    var b := Do(Do(Do(a, x), y), z);
    assert [x, y, z][1..] == [y, z] && [y, z][1..] == [z] && [z][1..] == [];
    assert OnItsOwn(b, [], b, t);
    assert OnItsOwn(Do(Do(a, x), y), [z], b, t);
    assert OnItsOwn(Do(a, x), [y, z], b, t);
  }

  // A request to read, with nobody in its way, succeeds if no thread holds the writer bit and the node is
  // not obsolete: the lock counts one reader more.
  lemma ReadAlone(init: State, acts: seq<Action>, s: State, t: nat, once: bool) returns (own: seq<Action>, b: State)
    requires Initial(init) && Run(init, acts, s) && t < |s.pcs| && s.pcs[t].Idle? && s.word < LOCK_SET && !s.obsolete
    ensures OnItsOwn(s, own, b, t) && own != [] && own[0] == BeginRead(t, once)
    ensures b == s.(word := s.word + 1, pcs := s.pcs[t := Reading])
  {
    hide Readers, Owners, Run, Initial, OnItsOwn;
    RunKeepsInv(init, acts, s);
    NotFull(s, t);
    own := [BeginRead(t, once), Step(t), Step(t)];
    b := Do(Do(Do(s, own[0]), own[1]), own[2]);
    Three(s, own[0], own[1], own[2], t);
  }

  // There is room for one more reader.
  lemma NotFull(s: State, t: nat)
    requires Inv(s) && t < |s.pcs| && s.word < LOCK_SET && !s.pcs[t].HoldsRead()
    ensures 0 <= s.word == Readers(s.pcs) < |s.pcs| < LOCK_SET
  {
    hide Owners;
    CountUpdate(s.pcs, t, Reading);
    CountBound(s.pcs[t := Reading]);
  }

  // A request to write gets the writer bit, and then waits for the readers.
  lemma WriteAlone(init: State, acts: seq<Action>, s: State, t: nat, once: bool) returns (own: seq<Action>, b: State)
    requires Initial(init) && Run(init, acts, s) && t < |s.pcs| && s.pcs[t].Idle? && s.word < LOCK_SET && !s.obsolete
    ensures OnItsOwn(s, own, b, t) && own != [] && own[0] == BeginWrite(t, once)
    ensures b == s.(word := s.word + LOCK_SET, pcs := s.pcs[t := Drain])
  {
    hide Readers, Owners, Run, Initial, OnItsOwn;
    RunKeepsInv(init, acts, s);
    NotFull(s, t);
    own := [BeginWrite(t, once), Step(t), Step(t)];
    b := Do(Do(Do(s, own[0]), own[1]), own[2]);
    Three(s, own[0], own[1], own[2], t);
  }

  // It has the lock with its next step exactly if no reader is left.
  lemma DrainEnds(init: State, acts: seq<Action>, s: State, t: nat)
    requires Initial(init) && Run(init, acts, s) && t < |s.pcs| && s.pcs[t].Drain?
    ensures Do(s, Step(t)) == if Readers(s.pcs) == 0 then s.(pcs := s.pcs[t := Writing]) else s
  {
    hide Readers, Run, Initial;
    RunKeepsInv(init, acts, s);
    CountBound(s.pcs);
    OneCounts(s.pcs, t);
  }

  // A reader that asks for promotion gets the writer bit and is no longer counted as a reader.
  lemma PromoteAlone(init: State, acts: seq<Action>, s: State, t: nat) returns (own: seq<Action>, b: State)
    requires Initial(init) && Run(init, acts, s) && t < |s.pcs| && s.pcs[t].Reading? && s.word < LOCK_SET && !s.obsolete
    ensures OnItsOwn(s, own, b, t) && own != [] && own[0] == BeginPromote(t)
    ensures b == s.(word := s.word + LOCK_SET - 1, pcs := s.pcs[t := Drain]) && Readers(b.pcs) == Readers(s.pcs) - 1
  {
    hide Readers, Owners, Run, Initial, OnItsOwn;
    RunKeepsInv(init, acts, s);
    CountBound(s.pcs);
    OneCounts(s.pcs, t);
    CountUpdate(s.pcs, t, Drain);
    var first := Do(s, BeginPromote(t));
    var rest := [Step(t), Step(t), Step(t)];
    b := Do(Do(Do(first, rest[0]), rest[1]), rest[2]);
    Three(first, rest[0], rest[1], rest[2], t);
    own := [BeginPromote(t)] + rest;
    OneBefore(s, own, b, t);
  }

  lemma OneBefore(a: State, acts: seq<Action>, b: State, t: nat)
    requires acts != [] && acts[0].t == t && Enabled(a, acts[0]) && OnItsOwn(Do(a, acts[0]), acts[1..], b, t)
    ensures OnItsOwn(a, acts, b, t)
  {
  }

  // A request that begins while a thread has the writer bit, or the node is obsolete, is refused at once.
  lemma RefusedAtOnce(init: State, acts: seq<Action>, s: State, x: Action)
    requires Initial(init) && Run(init, acts, s) && Enabled(s, x) && (x.BeginRead? || x.BeginWrite? || x.BeginPromote?)
    requires s.obsolete || s.word >= LOCK_SET
    ensures Enabled(Do(s, x), Step(x.t)) && Do(Do(s, x), Step(x.t)) == s
  {
    hide Readers, Owners, Run, Initial;
    RunKeepsInv(init, acts, s);
    assert s.pcs[x.t := s.pcs[x.t]] == s.pcs;
  }

  // One that has looked before the node became obsolete is refused as soon as it looks at the flag.
  lemma ObsoleteRefuses(s: State, t: nat)
    requires t < |s.pcs| && (s.pcs[t].CheckRead? || s.pcs[t].CheckWrite?) && s.obsolete
    ensures var b := Do(s, Step(t));
            b == s.(pcs := b.pcs) && b.pcs == s.pcs[t := if s.pcs[t].CheckWrite? && s.pcs[t].kind.Promote? then Reading else Idle]
  {
  }

  // ----- When they fail -----

  // The states of a run one after the other.
  ghost predicate Trace(states: seq<State>, acts: seq<Action>) {
    |states| == |acts| + 1 && forall i :: 0 <= i < |acts| ==> Takes(states[i], acts[i], states[i + 1])
  }

  // The thread begins with x, and then takes the steps of this request only.
  ghost predicate OneRequest(states: seq<State>, acts: seq<Action>, x: Action) {
    && Trace(states, acts) && acts != [] && acts[0] == x && (x.BeginRead? || x.BeginWrite? || x.BeginPromote?)
    && forall i :: 1 <= i < |acts| && acts[i].t == x.t ==> acts[i].Step?
  }

  predicate Once(x: Action) { (x.BeginRead? || x.BeginWrite?) && x.once }

  // The request has been granted what it has to wait for others to give.
  predicate Granted(x: Action, pc: Pc) { if x.BeginRead? then pc.Reading? else pc.HoldsBit() }

  predicate GivenUp(x: Action, pc: Pc) { pc == if x.BeginPromote? then Reading else Idle }

  // What stands in the way of a request: another thread has the writer bit, the node is obsolete, or, for one
  // that tries once, the word has changed since it began.
  predicate Opposed(first: State, s: State, x: Action)
    requires x.t < |s.pcs|
  {
    s.obsolete || (!Granted(x, s.pcs[x.t]) && (s.word >= LOCK_SET || (Once(x) && s.word != first.word)))
  }

  // Where an unopposed request stands.
  predicate Trying(first: State, x: Action, pc: Pc) {
    || Granted(x, pc)
    || (x.BeginRead? && pc.CheckRead? && pc.seen < LOCK_SET && pc.once == x.once && (x.once ==> pc.seen == first.word))
    || (x.BeginRead? && pc.CasRead? && pc.once == x.once && (x.once ==> pc.want == first.word))
    || (!x.BeginRead? && pc.CheckWrite? && 0 <= pc.seen < LOCK_SET && pc.kind == KindOf(x) && (Once(x) ==> pc.seen == first.word))
    || (!x.BeginRead? && pc.CasWrite? && pc.kind == KindOf(x) && (Once(x) ==> pc.want == first.word))
  }

  function KindOf(x: Action): Kind { if x.BeginPromote? then Promote else if x.BeginWrite? && x.once then Try else Get }

  lemma {:induction false} UnopposedTries(init: State, before: seq<Action>, states: seq<State>, acts: seq<Action>, x: Action)
    requires OneRequest(states, acts, x) && Initial(init) && Run(init, before, states[0])
    requires forall i :: 0 <= i < |states| ==> |states[i].pcs| == |states[0].pcs|
    requires forall i :: 0 <= i < |states| ==> x.t < |states[i].pcs| && !Opposed(states[0], states[i], x)
    ensures Inv(states[|states| - 1]) && Trying(states[0], x, states[|states| - 1].pcs[x.t])
    decreases |acts|
  {
    hide Run, Initial, Inv;
    var n := |acts| - 1;
    assert Takes(states[n], acts[n], states[n + 1]);
    if n == 0 {
      RunKeepsInv(init, before, states[0]);
      StepKeepsInv(states[0], acts[0]);
      FirstTry(states[0], x);
    } else {
      UnopposedTries(init, before, states[..|states| - 1], acts[..n], x);
      StepKeepsInv(states[n], acts[n]);
      NextTry(states[0], states[n], acts[n], x);
    }
  }

  lemma FirstTry(s: State, x: Action)
    requires Inv(s) && Enabled(s, x) && (x.BeginRead? || x.BeginWrite? || x.BeginPromote?) && !Opposed(s, s, x)
    ensures Trying(s, x, Do(s, x).pcs[x.t])
  {
    hide Readers, Owners;
    CountBound(s.pcs);
  }

  lemma NextTry(first: State, s: State, a: Action, x: Action)
    requires Inv(s) && Enabled(s, a) && (x.BeginRead? || x.BeginWrite? || x.BeginPromote?) && x.t < |s.pcs|
    requires a.t == x.t ==> a.Step?
    requires Trying(first, x, s.pcs[x.t]) && !Opposed(first, s, x)
    ensures Trying(first, x, Do(s, a).pcs[x.t])
  {
    hide Readers, Owners;
    CountBound(s.pcs);
    assert PcOk(s, s.pcs[x.t]);
  }

  // A request is given up only if it was opposed in some state since it began.
  lemma FailsOnlyIfOpposed(init: State, before: seq<Action>, states: seq<State>, acts: seq<Action>, x: Action)
    requires OneRequest(states, acts, x) && Initial(init) && Run(init, before, states[0])
    requires x.t < |states[|states| - 1].pcs| && GivenUp(x, states[|states| - 1].pcs[x.t])
    ensures exists i :: 0 <= i < |states| && x.t < |states[i].pcs| && Opposed(states[0], states[i], x)
  {
    hide Run, Initial, Inv;
    SameThreads(states, acts, |acts|);
    if forall i :: 0 <= i < |states| ==> x.t < |states[i].pcs| && !Opposed(states[0], states[i], x) {
      UnopposedTries(init, before, states, acts, x);
    }
  }

  lemma {:induction false} SameThreads(states: seq<State>, acts: seq<Action>, n: nat)
    requires Trace(states, acts) && n <= |acts|
    ensures forall i :: 0 <= i <= n ==> |states[i].pcs| == |states[0].pcs|
  {
    if n > 0 {
      SameThreads(states, acts, n - 1);
      assert Takes(states[n - 1], acts[n - 1], states[n - 1 + 1]);
    }
  }
}
