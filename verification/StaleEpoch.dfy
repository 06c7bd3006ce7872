// Entering in two steps.
module StaleEpoch {
  // Entering a critical section as the two accesses it is: the load of the global epoch, and later the
  // store of the loaded value as the thread's own epoch. In between the global epoch can move on.

  import opened Epoch

  // `loaded` are the epochs that threads have loaded and not yet stored.
  datatype Split = Split(s: State, loaded: map<Tid, int>)

  datatype Step = Load(t: Tid) | Store(t: Tid) | Other(a: Action)

  predicate CanStep(p: Split, a: Step) {
    match a
    case Load(t) => t < |p.s.threads| && p.s.threads[t].pc.Out? && t !in p.loaded
    case Store(t) => t in p.loaded && Enabled(p.s.(global := p.loaded[t]), Enter(t))
    case Other(b) => !b.Enter? && Enabled(p.s, b)
  }

  function Stepped(p: Split, a: Step): Split
    requires CanStep(p, a)
  {
    match a
    case Load(t) => p.(loaded := p.loaded[t := p.s.global])
    case Store(t) => Split(Do(p.s.(global := p.loaded[t]), Enter(t)).(global := p.s.global), p.loaded - {t})
    case Other(b) => p.(s := Do(p.s, b))
  }

  function StepFrees(p: Split, a: Step): seq<Node>
    requires CanStep(p, a)
  {
    if a.Store? then Frees(p.s.(global := p.loaded[a.t]), Enter(a.t)) else []
  }

  ghost predicate SplitRun(init: State, acts: seq<Step>, p: Split)
    decreases |acts|, 0
  {
    if acts == [] then p == Split(init, map[]) else SplitRunThen(init, acts[..|acts| - 1], acts[|acts| - 1], p)
  }

  ghost predicate SplitRunThen(init: State, acts: seq<Step>, a: Step, p: Split)
    decreases |acts|, 1
  {
    exists r :: SplitRun(init, acts, r) && Leads(r, a, p)
  }

  ghost predicate Leads(r: Split, a: Step, p: Split) { CanStep(r, a) && p == Stepped(r, a) }

  // ----- Stores that come in time -----

  // The global epoch is still the one that was loaded.
  predicate InTime(p: Split, a: Step)
    requires CanStep(p, a)
  {
    a.Store? ==> p.loaded[a.t] == p.s.global
  }

  ghost predicate TimelyRun(init: State, acts: seq<Step>, p: Split)
    decreases |acts|, 0
  {
    if acts == [] then p == Split(init, map[]) else TimelyRunThen(init, acts[..|acts| - 1], acts[|acts| - 1], p)
  }

  ghost predicate TimelyRunThen(init: State, acts: seq<Step>, a: Step, p: Split)
    decreases |acts|, 1
  {
    exists r :: TimelyRun(init, acts, r) && Leads(r, a, p) && InTime(r, a)
  }

  // A run whose stores all come in time is a run of the protocol with entering as one step.
  lemma {:induction false} TimelyIsOneStep(init: State, acts: seq<Step>, p: Split) returns (one: seq<Action>)
    requires TimelyRun(init, acts, p)
    ensures Run(init, one, p.s)
    decreases |acts|
  {
    if acts == [] {
      one := [];
    } else {
      var last := acts[|acts| - 1];
      assert TimelyRunThen(init, acts[..|acts| - 1], last, p);
      var r :| TimelyRun(init, acts[..|acts| - 1], r) && Leads(r, last, p) && InTime(r, last);
      one := TimelyIsOneStep(init, acts[..|acts| - 1], r);
      if !last.Load? {
        var b := if last.Store? then Enter(last.t) else last.a;
        assert r.s.(global := r.s.global) == r.s;
        assert Takes(r.s, b, p.s);
        var more := one + [b];
        assert more[..|more| - 1] == one;
        assert RunThen(init, one, b, p.s);
        one := more;
      }
    }
  }

  lemma TimelyIsSafe(init: State, acts: seq<Step>, p: Split, a: Step, x: Node)
    requires Initial(init) && TimelyRun(init, acts, p) && CanStep(p, a) && InTime(p, a) && x in StepFrees(p, a)
    ensures x in p.s.holders && p.s.holders[x] == {}
  {
    hide Run;
    var one := TimelyIsOneStep(init, acts, p);
    assert p.s.(global := p.s.global) == p.s;
    NothingFreedInUse(init, one, p.s, Enter(a.t), x);
  }

  // ----- Stores that keep up -----

  // The store still tells the others what they rely on: the loaded epoch is the global one, or the one
  // before it and no thread that is checking whether to advance the global epoch has already passed
  // this thread.
  predicate KeepsUp(p: Split, a: Step)
    requires CanStep(p, a)
  {
    a.Store? ==>
      || p.loaded[a.t] == p.s.global
      || (p.loaded[a.t] == PreviousEpoch(p.s.global) && forall u :: 0 <= u < |p.s.threads| ==> !Passed(p.s, u, a.t))
  }

  predicate Passed(s: State, u: Tid, t: Tid)
    requires u < |s.threads|
  {
    s.threads[u].pc.Check? && s.threads[u].pc.epoch == s.global && t < s.threads[u].pc.i
  }

  // The split protocol with unbounded epochs; `at` are those of the loads.
  ghost predicate RefinesSplit(p: Split, g: Epochs, at: map<Tid, int>) {
    && Refines(p.s, g) && at.Keys == p.loaded.Keys
    && forall t | t in p.loaded :: LoadOk(p, g, at, t)
  }

  ghost predicate LoadOk(p: Split, g: Epochs, at: map<Tid, int>, t: Tid)
    requires t in p.loaded
  {
    && t in at && t < |p.s.threads| == |g.entered| && p.s.threads[t].pc.Out?
    && p.loaded[t] == at[t] % 3 && 0 <= at[t] <= g.global && (p.s.threads[t].previous != OUTSIDE ==> g.entered[t] <= at[t])
  }

  function Catch(p: Split, g: Epochs, t: Tid): Epochs
    requires t in p.loaded && t < |g.entered|
  {
    g.(entered := g.entered[t := if p.loaded[t] == p.s.global then g.global else g.global - 1])
  }

  function FollowSplit(p: Split, g: Epochs, a: Step): Epochs
    requires CanStep(p, a) && |g.entered| == |p.s.threads|
  {
    match a
    case Load(_) => g
    case Store(t) => Catch(p, g, t)
    case Other(b) => Follow(p.s, g, b)
  }

  function LoadsAfter(p: Split, g: Epochs, at: map<Tid, int>, a: Step): map<Tid, int> {
    match a
    case Load(t) => at[t := g.global]
    case Store(t) => at - {t}
    case Other(_) => at
  }

  // A thread that stores the epoch before the global one loaded it before the global epoch moved on, and
  // has not been inside since.
  lemma BehindOne(p: Split, g: Epochs, at: map<Tid, int>, t: Tid)
    requires RefinesSplit(p, g, at) && t in p.loaded && p.loaded[t] == PreviousEpoch(p.s.global)
    ensures at[t] <= g.global - 1 && (g.global - 1) % 3 == p.loaded[t]
    ensures t < |p.s.threads| && (p.s.threads[t].previous != OUTSIDE ==> g.entered[t] <= at[t])
  {
    hide ThreadOk, CheckedOk, ListedOk, HolderOk;
    assert LoadOk(p, g, at, t);
  }

  // The store of an epoch one behind.
  lemma StaleThread(p: Split, g: Epochs, at: map<Tid, int>, t: Tid, u: Tid)
    requires RefinesSplit(p, g, at) && CanStep(p, Store(t)) && p.loaded[t] == PreviousEpoch(p.s.global) && u < |p.s.threads|
    ensures var s' := Stepped(p, Store(t)).s; |s'.threads| == |g.entered| == |p.s.threads| && ThreadOk(s', Catch(p, g, t), u)
  {
    hide CheckedOk, ListedOk, HolderOk;
    BehindOne(p, g, at, t);
    assert ThreadOk(p.s, g, t) && ThreadOk(p.s, g, u);
  }

  lemma StaleChecked(p: Split, g: Epochs, at: map<Tid, int>, t: Tid, u: Tid, j: Tid)
    requires RefinesSplit(p, g, at) && CanStep(p, Store(t)) && p.loaded[t] == PreviousEpoch(p.s.global) && KeepsUp(p, Store(t))
    requires u < |p.s.threads| && j < |p.s.threads|
    ensures var s' := Stepped(p, Store(t)).s; |s'.threads| == |g.entered| == |p.s.threads| && CheckedOk(s', Catch(p, g, t), u, j)
  {
    hide ListedOk, HolderOk;
    BehindOne(p, g, at, t);
    assert ThreadOk(p.s, g, u) && ThreadOk(p.s, g, j) && CheckedOk(p.s, g, u, j) && LoadOk(p, g, at, t);
    assert !Passed(p.s, u, t);
  }

  lemma StaleListed(p: Split, g: Epochs, at: map<Tid, int>, t: Tid, u: Tid, k: nat, i: nat)
    requires RefinesSplit(p, g, at) && CanStep(p, Store(t)) && p.loaded[t] == PreviousEpoch(p.s.global)
    requires var s' := Stepped(p, Store(t)).s;
             u < |s'.threads| && k < |s'.threads[u].lists| && i < |s'.threads[u].lists[k]|
    ensures var s' := Stepped(p, Store(t)).s; |s'.threads| == |g.entered| && ListedOk(s', Catch(p, g, t), u, k, i)
  {
    hide CheckedOk, HolderOk;
    BehindOne(p, g, at, t);
    assert ThreadOk(p.s, g, t) && ThreadOk(p.s, g, u);
    if k < |p.s.threads[u].lists| && i < |p.s.threads[u].lists[k]| {
      assert ListedOk(p.s, g, u, k, i);
    }
  }

  lemma StaleHolder(p: Split, g: Epochs, at: map<Tid, int>, t: Tid, x: Node, u: Tid)
    requires RefinesSplit(p, g, at) && CanStep(p, Store(t)) && p.loaded[t] == PreviousEpoch(p.s.global)
    requires x in p.s.holders && u in p.s.holders[x]
    ensures var s' := Stepped(p, Store(t)).s;
            x in s'.holders && u in s'.holders[x] && |s'.threads| == |g.entered| && HolderOk(s', Catch(p, g, t), x, u)
  {
    hide CheckedOk, ListedOk;
    assert LoadOk(p, g, at, t) && HolderOk(p.s, g, x, u);
  }

  lemma StaleStore(p: Split, g: Epochs, at: map<Tid, int>, t: Tid)
    requires RefinesSplit(p, g, at) && CanStep(p, Store(t)) && p.loaded[t] == PreviousEpoch(p.s.global) && KeepsUp(p, Store(t))
    ensures Refines(Stepped(p, Store(t)).s, Catch(p, g, t))
  {
    hide ThreadOk, CheckedOk, ListedOk, HolderOk, KeepsUp, LoadOk;
    var s', g' := Stepped(p, Store(t)).s, Catch(p, g, t);
    forall u | 0 <= u < |s'.threads| ensures ThreadOk(s', g', u) {
      StaleThread(p, g, at, t, u);
    }
    forall u, j | 0 <= u < |s'.threads| && 0 <= j < |s'.threads| ensures CheckedOk(s', g', u, j) {
      StaleChecked(p, g, at, t, u, j);
    }
    forall u, k, i | 0 <= u < |s'.threads| && 0 <= k < |s'.threads[u].lists| && 0 <= i < |s'.threads[u].lists[k]|
      ensures ListedOk(s', g', u, k, i)
    {
      StaleListed(p, g, at, t, u, k, i);
    }
    forall x, u | x in s'.holders && u in s'.holders[x] ensures HolderOk(s', g', x, u) {
      StaleHolder(p, g, at, t, x, u);
    }
  }

  lemma StoreRefines(p: Split, g: Epochs, at: map<Tid, int>, t: Tid)
    requires RefinesSplit(p, g, at) && CanStep(p, Store(t)) && KeepsUp(p, Store(t))
    ensures Refines(Stepped(p, Store(t)).s, Catch(p, g, t))
  {
    hide Refines;
    assert LoadOk(p, g, at, t);
    if p.loaded[t] == p.s.global {
      assert p.s.(global := p.s.global) == p.s;
      StepRefines(p.s, g, Enter(t));
      SameGlobal(p.s, t);
    } else {
      StaleStore(p, g, at, t);
    }
  }

  lemma SameGlobal(s: State, t: Tid)
    requires Enabled(s, Enter(t))
    ensures Do(s, Enter(t)).(global := s.global) == Do(s, Enter(t))
  {
  }

  // The other threads' loads stay what they are.
  lemma LoadsKept(p: Split, g: Epochs, at: map<Tid, int>, a: Step, t: Tid)
    requires RefinesSplit(p, g, at) && CanStep(p, a) && t in Stepped(p, a).loaded
    ensures LoadOk(Stepped(p, a), FollowSplit(p, g, a), LoadsAfter(p, g, at, a), t)
  {
    hide CheckedOk, ListedOk, HolderOk;
    assert t in p.loaded ==> LoadOk(p, g, at, t);
    if a.Load? && a.t == t {
      assert ThreadOk(p.s, g, t);
    }
    if a.Other? {
      OtherLoad(p, g, at, a.a, t);
    }
  }

  lemma OtherLoad(p: Split, g: Epochs, at: map<Tid, int>, b: Action, t: Tid)
    requires |g.entered| == |p.s.threads| && CanStep(p, Other(b)) && t in p.loaded && LoadOk(p, g, at, t)
    ensures LoadOk(Stepped(p, Other(b)), FollowSplit(p, g, Other(b)), at, t)
  {
    hide Do, Follow;
    OthersKept(p.s, g, b, t);
  }

  lemma OthersKept(s: State, g: Epochs, b: Action, t: Tid)
    requires |g.entered| == |s.threads| && Enabled(s, b) && !b.Enter? && t < |s.threads| && s.threads[t].pc.Out?
    ensures |Do(s, b).threads| == |s.threads| && Do(s, b).threads[t].pc.Out? && Do(s, b).threads[t].previous == s.threads[t].previous
    ensures Follow(s, g, b).entered == g.entered && Follow(s, g, b).global >= g.global
  {
  }

  lemma SplitStepRefines(p: Split, g: Epochs, at: map<Tid, int>, a: Step)
    requires RefinesSplit(p, g, at) && CanStep(p, a) && KeepsUp(p, a)
    ensures RefinesSplit(Stepped(p, a), FollowSplit(p, g, a), LoadsAfter(p, g, at, a))
  {
    hide Refines, LoadOk, KeepsUp, Do;
    Same(p, g);
    var p', g', at' := Stepped(p, a), FollowSplit(p, g, a), LoadsAfter(p, g, at, a);
    match a {
      case Load(t) =>
      case Store(t) => StoreRefines(p, g, at, t);
      case Other(b) => StepRefines(p.s, g, b);
    }
    forall t | t in p'.loaded ensures LoadOk(p', g', at', t) {
      LoadsKept(p, g, at, a, t);
    }
  }

  // The store leaves a state that stands for one with unbounded epochs, every thread inside being in the
  // current or the previous one, if and only if it keeps up.
  lemma StoreKeepsEpochsIff(p: Split, g: Epochs, at: map<Tid, int>, t: Tid)
    requires RefinesSplit(p, g, at) && CanStep(p, Store(t))
    ensures (exists g' :: Refines(Stepped(p, Store(t)).s, g')) <==> KeepsUp(p, Store(t))
  {
    hide Refines, KeepsUp;
    Same(p, g);
    if KeepsUp(p, Store(t)) {
      StoreRefines(p, g, at, t);
    }
    if g' :| Refines(Stepped(p, Store(t)).s, g') {
      OnlyIfKeepsUp(p, t, g');
    }
  }

  lemma OnlyIfKeepsUp(p: Split, t: Tid, g': Epochs)
    requires CanStep(p, Store(t)) && 0 <= p.s.global < 3 && Refines(Stepped(p, Store(t)).s, g')
    ensures KeepsUp(p, Store(t))
  {
    hide ListedOk, HolderOk;
    var s' := Stepped(p, Store(t)).s;
    assert ThreadOk(s', g', t);
    forall u | 0 <= u < |p.s.threads| ensures p.loaded[t] == PreviousEpoch(p.s.global) ==> !Passed(p.s, u, t) {
      assert u != t ==> s'.threads[u] == p.s.threads[u];
      assert ThreadOk(s', g', u) && CheckedOk(s', g', u, t);
    }
  }

  // A run whose stores all keep up.
  ghost predicate SteadyRun(init: State, acts: seq<Step>, p: Split)
    decreases |acts|, 0
  {
    if acts == [] then p == Split(init, map[]) else SteadyRunThen(init, acts[..|acts| - 1], acts[|acts| - 1], p)
  }

  ghost predicate SteadyRunThen(init: State, acts: seq<Step>, a: Step, p: Split)
    decreases |acts|, 1
  {
    exists r :: SteadyRun(init, acts, r) && Leads(r, a, p) && KeepsUp(r, a)
  }

  lemma {:induction false} SteadyRunRefines(init: State, acts: seq<Step>, p: Split) returns (g: Epochs, at: map<Tid, int>)
    requires Initial(init) && SteadyRun(init, acts, p)
    ensures RefinesSplit(p, g, at)
    decreases |acts|
  {
    hide Refines, KeepsUp, Initial;
    if acts == [] {
      g, at := Epochs(0, seq(|init.threads|, _ => 0), map[]), map[];
      StartRefines(init, g);
    } else {
      var last := acts[|acts| - 1];
      assert SteadyRunThen(init, acts[..|acts| - 1], last, p);
      var r :| SteadyRun(init, acts[..|acts| - 1], r) && Leads(r, last, p) && KeepsUp(r, last);
      var h, l := SteadyRunRefines(init, acts[..|acts| - 1], r);
      Same(r, h);
      g, at := FollowSplit(r, h, last), LoadsAfter(r, h, l, last);
      SplitStepRefines(r, h, l, last);
    }
  }

  lemma Same(p: Split, g: Epochs)
    requires Refines(p.s, g)
    ensures |g.entered| == |p.s.threads| && 0 <= p.s.global < 3
  {
  }

  // In such a run no node is freed while a thread is inside that was inside when it was retired.
  lemma SteadyIsSafe(init: State, acts: seq<Step>, p: Split, a: Step, x: Node)
    requires Initial(init) && SteadyRun(init, acts, p) && CanStep(p, a) && KeepsUp(p, a) && x in StepFrees(p, a)
    ensures x in p.s.holders && p.s.holders[x] == {}
  {
    hide CheckedOk, HolderOk, KeepsUp;
    var g, at := SteadyRunRefines(init, acts, p);
    var t, k := a.t, p.loaded[a.t];
    assert LoadOk(p, g, at, t) && ThreadOk(p.s, g, t);
    var i :| 0 <= i < |p.s.threads[t].lists[k]| && p.s.threads[t].lists[k][i] == x;
    assert ListedOk(p.s, g, t, k, i);
    FreedLongAgo(p, g, at, t, x);
    forall u ensures u !in p.s.holders[x] {
      Gone(p.s, g, x, u);
    }
  }

  lemma FreedLongAgo(p: Split, g: Epochs, at: map<Tid, int>, t: Tid, x: Node)
    requires RefinesSplit(p, g, at) && CanStep(p, Store(t)) && KeepsUp(p, Store(t))
    requires x in g.at && g.at[x] % 3 == p.loaded[t] && g.at[x] <= g.entered[t] && p.s.threads[t].previous !in {OUTSIDE, p.loaded[t]}
    ensures g.global >= g.at[x] + 3
  {
    hide CheckedOk, ListedOk, HolderOk;
    assert LoadOk(p, g, at, t) && ThreadOk(p.s, g, t);
  }

  // ----- A store that comes too late -----

  lemma Continue(init: State, acts: seq<Step>, r: Split, a: Step) returns (more: seq<Step>, p: Split)
    requires SplitRun(init, acts, r) && CanStep(r, a)
    ensures p == Stepped(r, a) && SplitRun(init, more, p) && more == acts + [a]
  {
    more, p := acts + [a], Stepped(r, a);
    assert more[..|more| - 1] == acts && Leads(r, a, p);
    assert SplitRunThen(init, acts, a, p);
  }

  // A load and at once the store.
  lemma EnterAtOnce(init: State, acts: seq<Step>, r: Split, t: Tid) returns (more: seq<Step>, p: Split)
    requires SplitRun(init, acts, r) && t !in r.loaded && Enabled(r.s, Enter(t))
    ensures SplitRun(init, more, p) && p == Split(Do(r.s, Enter(t)), r.loaded) && acts <= more
  {
    var mid;
    more, mid := Continue(init, acts, r, Load(t));
    assert mid.s.(global := mid.loaded[t]) == r.s;
    more, p := Continue(init, more, mid, Store(t));
    assert r.loaded[t := r.s.global] - {t} == r.loaded;
  }

  // Nothing but thread t has changed, and the holders of a node only by t.
  ghost predicate OnlyThread(r: Split, p: Split, t: Tid) {
    && p.loaded == r.loaded && |p.s.threads| == |r.s.threads|
    && (forall u :: 0 <= u < |r.s.threads| && u != t ==> p.s.threads[u] == r.s.threads[u])
    && forall x :: x in r.s.holders ==> x in p.s.holders && p.s.holders[x] - {t} == r.s.holders[x] - {t}
  }

  ghost predicate Below(p: Split, base: nat) { forall x :: x in p.s.holders ==> x < base }

  lemma {:induction false} RetireMany(init: State, acts: seq<Step>, r: Split, t: Tid, base: nat, k: nat)
    returns (more: seq<Step>, p: Split)
    requires SplitRun(init, acts, r) && t < |r.s.threads| && Below(r, base)
    requires var th := r.s.threads[t]; th.pc.In? && |th.lists| == 3 && 0 <= th.local < 3 && th.lists[th.local] == []
    ensures SplitRun(init, more, p) && OnlyThread(r, p, t) && p.s.global == r.s.global && Below(p, base + k) && acts <= more
    ensures var th, th' := r.s.threads[t], p.s.threads[t];
            && th'.pc.In? && th'.local == th.local && th'.previous == th.previous && |th'.lists| == 3
            && |th'.lists[th.local]| == k && (k > 0 ==> th'.wants == (k % 64 == 0))
  {
    if k == 0 {
      more, p := acts, r;
    } else {
      var q;
      more, q := RetireMany(init, acts, r, t, base, k - 1);
      more, p := Continue(init, more, q, Other(Retire(t, base + k - 1)));
    }
  }

  // One thread retires enough nodes to want a new epoch, leaves, and advances the epoch when it
  // enters again.
  lemma AdvanceEpoch(init: State, acts: seq<Step>, r: Split, t: Tid, base: nat) returns (more: seq<Step>, p: Split)
    requires SplitRun(init, acts, r) && t < |r.s.threads| == 3 && Below(r, base) && 0 <= r.s.global < 3 && t !in r.loaded
    requires r.s.threads[t].pc.Out? && |r.s.threads[t].lists| == 3 && r.s.threads[t].previous != r.s.global
    requires forall u :: 0 <= u < 3 && u != t ==> r.s.threads[u].local != PreviousEpoch(r.s.global)
    ensures SplitRun(init, more, p) && OnlyThread(r, p, t) && p.s.global == NextEpoch(r.s.global) && Below(p, base + 64) && acts <= more
    ensures p.s.threads[t].pc.Out? && |p.s.threads[t].lists| == 3 && p.s.threads[t].previous == r.s.global
  {
    hide SplitRun;
    var g := r.s.global;
    var q;
    more, q := StartCheck(init, acts, r, t, base);
    more, p := CheckAll(init, more, q, t, g);
    assert OnlyThread(r, p, t);
    more, q := Continue(init, more, p, Other(Cas(t)));
    assert OnlyThread(r, q, t);
    more, p := Continue(init, more, q, Other(Leave(t)));
  }

  lemma StartCheck(init: State, acts: seq<Step>, r: Split, t: Tid, base: nat) returns (more: seq<Step>, p: Split)
    requires SplitRun(init, acts, r) && t < |r.s.threads| && Below(r, base) && 0 <= r.s.global < 3 && t !in r.loaded
    requires r.s.threads[t].pc.Out? && |r.s.threads[t].lists| == 3 && r.s.threads[t].previous != r.s.global
    ensures SplitRun(init, more, p) && OnlyThread(r, p, t) && p.s.global == r.s.global && Below(p, base + 64) && acts <= more
    ensures var th := p.s.threads[t];
            th.pc == Check(r.s.global, 0) && |th.lists| == 3 && th.previous == r.s.global && th.local == r.s.global
  {
    hide SplitRun;
    more, p := EnterAtOnce(init, acts, r, t);
    assert OnlyThread(r, p, t);
    var q;
    more, q := RetireMany(init, more, p, t, base, 64);
    assert OnlyThread(r, q, t);
    more, p := Continue(init, more, q, Other(Leave(t)));
    assert OnlyThread(r, p, t);
    more, q := EnterAtOnce(init, more, p, t);
    assert OnlyThread(r, q, t);
    p := q;
  }

  lemma CheckAll(init: State, acts: seq<Step>, r: Split, t: Tid, g: int) returns (more: seq<Step>, p: Split)
    requires SplitRun(init, acts, r) && t < |r.s.threads| == 3 && r.s.threads[t].pc == Check(g, 0)
    requires forall u :: 0 <= u < 3 ==> r.s.threads[u].local != PreviousEpoch(g)
    ensures SplitRun(init, more, p) && p == r.(s := r.s.(threads := r.s.threads[t := r.s.threads[t].(pc := Check(g, 3))])) && acts <= more
  {
    hide SplitRun;
    var q;
    more, p := Continue(init, acts, r, Other(CheckOne(t)));
    more, q := Continue(init, more, p, Other(CheckOne(t)));
    more, p := Continue(init, more, q, Other(CheckOne(t)));
  }

  ghost function Fresh(): State { State(0, seq(3, _ => Thread(OUTSIDE, OUTSIDE, false, [[], [], []], Out)), map[], {}) }

  // Thread 0 is inside two epochs late, and thread 1 is still inside in the epoch between.
  ghost predicate Snare(p: Split) {
    && |p.s.threads| == 3 && p.s.global == 2 && p.loaded == map[] && Below(p, 128) && p.s.threads[0].local == 0 && p.s.threads[0].pc.In?
    && p.s.threads[1] == Thread(1, 1, false, [[], [], []], In)
    && p.s.threads[2].pc.Out? && |p.s.threads[2].lists| == 3 && p.s.threads[2].previous == 1
  }

  // Thread 0 loads epoch 0, and when it is about to store it the epoch is 2 already. Thread 1 is still
  // in epoch 1.
  lemma LateStore() returns (acts: seq<Step>, late: Split)
    ensures SplitRun(Fresh(), acts, late) && CanStep(late, Store(0)) && late.loaded[0] == NextEpoch(late.s.global)
    ensures Snare(Stepped(late, Store(0)))
  {
    hide SplitRun;
    var p := Split(Fresh(), map[]);
    assert SplitRun(Fresh(), [], p) by { Started(Fresh()); }
    acts, p := Continue(Fresh(), [], p, Load(0));
    acts, p := AdvanceEpoch(Fresh(), acts, p, 2, 0);
    acts, p := EnterAtOnce(Fresh(), acts, p, 1);
    acts, late := AdvanceEpoch(Fresh(), acts, p, 2, 64);
  }

  // The epoch that thread 0 stores is one behind only, but thread 2, which is checking whether to
  // advance the epoch, has already passed it, and advances it afterwards.
  lemma PassedStore() returns (acts: seq<Step>, late: Split, more: seq<Step>, p: Split)
    ensures SplitRun(Fresh(), acts, late) && CanStep(late, Store(0)) && late.loaded[0] == PreviousEpoch(late.s.global)
    ensures 2 < |late.s.threads| && Passed(late.s, 2, 0)
    ensures SplitRun(Fresh(), more, p) && Snare(p) && acts + [Store(0)] <= more
  {
    hide SplitRun;
    acts, late := BeforePassed();
    var q;
    more, q := Continue(Fresh(), acts, late, Store(0));
    more, p := EndCheck(Fresh(), more, q);
  }

  lemma BeforePassed() returns (acts: seq<Step>, late: Split)
    ensures SplitRun(Fresh(), acts, late) && |late.s.threads| == 3 && late.s.global == 1 && late.loaded == map[0 := 0] && Below(late, 128)
    ensures late.s.threads[0] == Fresh().threads[0] && late.s.threads[1] == Thread(1, 1, false, [[], [], []], In)
    ensures var th := late.s.threads[2]; th.pc == Check(1, 1) && |th.lists| == 3 && th.previous == 1 && th.local == 1
  {
    hide SplitRun;
    var p := Split(Fresh(), map[]);
    assert SplitRun(Fresh(), [], p) by { Started(Fresh()); }
    acts, p := Continue(Fresh(), [], p, Load(0));
    acts, p := AdvanceEpoch(Fresh(), acts, p, 2, 0);
    acts, p := EnterAtOnce(Fresh(), acts, p, 1);
    acts, p := StartCheck(Fresh(), acts, p, 2, 64);
    acts, late := Continue(Fresh(), acts, p, Other(CheckOne(2)));
  }

  lemma EndCheck(init: State, acts: seq<Step>, r: Split) returns (more: seq<Step>, p: Split)
    requires SplitRun(init, acts, r) && |r.s.threads| == 3 && r.s.global == 1 && r.s.threads[2].pc == Check(1, 1)
    requires r.s.threads[1].local != 0 && r.s.threads[2].local != 0
    ensures SplitRun(init, more, p) && OnlyThread(r, p, 2) && p.s.global == 2 && p.s.holders.Keys == r.s.holders.Keys && acts <= more
    ensures p.s.threads[2] == r.s.threads[2].(local := OUTSIDE, pc := Out)
  {
    hide SplitRun;
    var q;
    more, q := Continue(init, acts, r, Other(CheckOne(2)));
    more, p := Continue(init, more, q, Other(CheckOne(2)));
    more, q := Continue(init, more, p, Other(Cas(2)));
    more, p := Continue(init, more, q, Other(Leave(2)));
  }

  // Thread 1 retires a node and leaves. Nobody is in the way of the next two epochs, and then thread 1
  // frees the node while thread 0 is inside.
  lemma Spring(acts0: seq<Step>, p0: Split) returns (acts: seq<Step>, p: Split, a: Step, x: Node)
    requires SplitRun(Fresh(), acts0, p0) && Snare(p0)
    ensures SplitRun(Fresh(), acts, p) && CanStep(p, a) && x in StepFrees(p, a) && x in p.s.holders && p.s.holders[x] != {}
    ensures acts0 <= acts
  {
    hide SplitRun;
    var q;
    x := 128;
    acts, q := Continue(Fresh(), acts0, p0, Other(Retire(1, x)));
    assert 0 in q.s.holders[x];
    acts, p := Continue(Fresh(), acts, q, Other(Leave(1)));
    acts, q := EnterAtOnce(Fresh(), acts, p, 1);
    acts, p := Continue(Fresh(), acts, q, Other(Leave(1)));
    acts, q := AdvanceEpoch(Fresh(), acts, p, 2, x + 1);
    acts, p := AdvanceEpoch(Fresh(), acts, q, 2, x + 65);
    assert 0 in p.s.holders[x] - {2};
    acts, q := Continue(Fresh(), acts, p, Load(1));
    p, a := q, Store(1);
  }

  // After the run, the step frees a node while a thread is inside that was inside when it was retired.
  ghost predicate FreedInUse(init: State, acts: seq<Step>, p: Split, a: Step, x: Node) {
    && Initial(init) && SplitRun(init, acts, p) && CanStep(p, a) && x in StepFrees(p, a)
    && x in p.s.holders && p.s.holders[x] != {}
  }

  // The run's step k is the store of an entering thread, in the state `late`.
  ghost predicate StoresAt(init: State, acts: seq<Step>, k: nat, t: Tid, late: Split) {
    k < |acts| && SplitRun(init, acts[..k], late) && acts[k] == Store(t) && CanStep(late, Store(t))
  }

  // Each of the two ways not to keep up can end in a node that is freed in use: the run goes through the
  // store that does not keep up.
  lemma LateStoreIsUnsafe() returns (init: State, acts: seq<Step>, p: Split, a: Step, x: Node, late: Split, k: nat)
    ensures FreedInUse(init, acts, p, a, x) && StoresAt(init, acts, k, 0, late)
    ensures late.loaded[0] !in {late.s.global, PreviousEpoch(late.s.global)}
  {
    hide SplitRun;
    init := Fresh();
    var first;
    first, late := LateStore();
    var more, q := Continue(init, first, late, Store(0));
    acts, p, a, x := Spring(more, q);
    k := |first|;
    assert acts[..k] == first;
  }

  lemma PassedStoreIsUnsafe() returns (init: State, acts: seq<Step>, p: Split, a: Step, x: Node, late: Split, k: nat)
    ensures FreedInUse(init, acts, p, a, x) && StoresAt(init, acts, k, 0, late)
    ensures late.loaded[0] == PreviousEpoch(late.s.global) && 2 < |late.s.threads| && Passed(late.s, 2, 0)
  {
    hide SplitRun;
    init := Fresh();
    var first, more, q;
    first, late, more, q := PassedStore();
    acts, p, a, x := Spring(more, q);
    k := |first|;
    assert acts[..k] == first;
  }

  lemma Started(init: State)
    ensures SplitRun(init, [], Split(init, map[]))
  {
  }
}
