// Epoch-based reclamation.
module Epoch {
  // A state machine over the steps of any number of threads. The global epoch and the epochs of threads
  // inside a critical section are 0, 1 or 2; 3 is outside.

  type Node = nat
  type Tid = nat

  const OUTSIDE := 3

  function NextEpoch(e: int): int { if e == 0 then 1 else if e == 1 then 2 else 0 }

  function PreviousEpoch(e: int): int { if e == 0 then 2 else if e == 1 then 0 else 1 }

  // Where a thread stands: outside, checking thread i before it tries to advance the epoch it
  // entered with, or inside.
  datatype Pc = Out | Check(epoch: int, i: nat) | In

  datatype Thread = Thread(local: int, previous: int, wants: bool, lists: seq<seq<Node>>, pc: Pc)

  // `holders` and `freed` are history: for a retired node, the threads that were inside when it was
  // retired and have not left since; and the nodes given back to the allocator.
  datatype State = State(global: int, threads: seq<Thread>, holders: map<Node, set<Tid>>, freed: set<Node>)

  datatype Action = Enter(t: Tid) | CheckOne(t: Tid) | Cas(t: Tid) | Retire(t: Tid, x: Node) | Leave(t: Tid)

  predicate Enabled(s: State, a: Action) {
    && a.t < |s.threads|
    && var th := s.threads[a.t];
       match a
       case Enter(_) => th.pc.Out? && |th.lists| == 3 && 0 <= s.global < 3
       case CheckOne(_) => th.pc.Check? && th.pc.i < |s.threads|
       case Cas(_) => th.pc.Check? && th.pc.i >= |s.threads|
       case Retire(_, x) => th.pc.In? && x !in s.holders && |th.lists| == 3 && 0 <= th.local < 3
       case Leave(_) => th.pc.In?
  }

  // The nodes a step gives back.
  function Frees(s: State, a: Action): seq<Node>
    requires Enabled(s, a)
  {
    if a.Enter? && s.threads[a.t].previous != s.global then s.threads[a.t].lists[s.global] else []
  }

  // Entering takes the load of the global epoch and the store of the local one as one step.
  function Do(s: State, a: Action): State
    requires Enabled(s, a)
  {
    var th := s.threads[a.t];
    match a
    case Enter(t) =>
      var fresher := th.previous != s.global;
      var wants := if fresher then false else th.wants;
      var lists := if fresher then th.lists[s.global := []] else th.lists;
      s.(threads := s.threads[t := Thread(s.global, s.global, wants, lists, if wants then Check(s.global, 0) else In)],
         freed := s.freed + (set x | x in Frees(s, a)))
    case CheckOne(t) =>
      if s.threads[th.pc.i].local == PreviousEpoch(th.pc.epoch) then s.(threads := s.threads[t := th.(pc := In)])
      else s.(threads := s.threads[t := th.(pc := Check(th.pc.epoch, th.pc.i + 1))])
    case Cas(t) =>
      s.(global := if s.global == th.pc.epoch then NextEpoch(th.pc.epoch) else s.global,
         threads := s.threads[t := th.(pc := In)])
    case Retire(t, x) =>
      var list := th.lists[th.local] + [x];
      s.(threads := s.threads[t := th.(lists := th.lists[th.local := list], wants := |list| % 64 == 0)],
         holders := s.holders[x := set u | 0 <= u < |s.threads| && !s.threads[u].pc.Out?])
    case Leave(t) =>
      s.(threads := s.threads[t := th.(local := OUTSIDE, pc := Out)],
         holders := map x | x in s.holders :: s.holders[x] - {t})
  }

  ghost predicate Initial(s: State) {
    && s.global == 0 && s.holders == map[] && s.freed == {}
    && forall t :: 0 <= t < |s.threads| ==> s.threads[t] == Thread(OUTSIDE, OUTSIDE, false, [[], [], []], Out)
  }

  ghost predicate Run(init: State, acts: seq<Action>, s: State)
    decreases |acts|, 0
  {
    if acts == [] then s == init else RunThen(init, acts[..|acts| - 1], acts[|acts| - 1], s)
  }

  ghost predicate RunThen(init: State, acts: seq<Action>, a: Action, s: State)
    decreases |acts|, 1
  {
    exists r :: Run(init, acts, r) && Takes(r, a, s)
  }

  ghost predicate Takes(r: State, a: Action, s: State) { Enabled(r, a) && s == Do(r, a) }

  // ----- The unbounded epochs -----

  // The same steps with epochs that are never reused: the global epoch, the epoch each thread
  // entered with last, and the epoch in which each node was retired.
  datatype Epochs = Epochs(global: int, entered: seq<int>, at: map<Node, int>)

  function Follow(s: State, g: Epochs, a: Action): Epochs
    requires Enabled(s, a) && |g.entered| == |s.threads|
  {
    match a
    case Enter(t) => g.(entered := g.entered[t := g.global])
    case Cas(t) => if s.global == s.threads[t].pc.epoch then g.(global := g.global + 1) else g
    case Retire(t, x) => g.(at := g.at[x := g.entered[t]])
    case _ => g
  }

  ghost predicate ThreadOk(s: State, g: Epochs, t: Tid)
    requires t < |s.threads| == |g.entered|
  {
    var th, e := s.threads[t], g.entered[t];
    && |th.lists| == 3 && (th.local == OUTSIDE <==> th.pc.Out?)
    && (th.previous == OUTSIDE ==> th.pc.Out? && th.lists == [[], [], []])
    && (th.previous != OUTSIDE ==> th.previous == e % 3 && 0 <= e <= g.global)
    && (!th.pc.Out? ==> th.local == e % 3 && g.global - 1 <= e)
    && (th.pc.Check? ==> th.pc.epoch == th.local)
  }

  // A thread already checked is not in the previous epoch, and cannot get there any more.
  ghost predicate CheckedOk(s: State, g: Epochs, t: Tid, j: Tid)
    requires t < |s.threads| == |g.entered| && j < |s.threads|
  {
    s.threads[t].pc.Check? && j < s.threads[t].pc.i && !s.threads[j].pc.Out? ==> g.entered[j] >= g.entered[t]
  }

  ghost predicate ListedOk(s: State, g: Epochs, t: Tid, k: nat, i: nat)
    requires t < |s.threads| == |g.entered| && k < |s.threads[t].lists| && i < |s.threads[t].lists[k]|
  {
    var x := s.threads[t].lists[k][i];
    x in s.holders && x in g.at && g.at[x] % 3 == k && g.at[x] <= g.entered[t]
  }

  ghost predicate HolderOk(s: State, g: Epochs, x: Node, t: Tid)
    requires |s.threads| == |g.entered|
  {
    x in g.at && t < |s.threads| && !s.threads[t].pc.Out? && g.entered[t] <= g.at[x] + 1
  }

  // The three-valued state stands for the unbounded one.
  ghost predicate Refines(s: State, g: Epochs) {
    && |s.threads| == |g.entered| && g.global >= 0 && s.global == g.global % 3
    && (forall t :: 0 <= t < |s.threads| ==> ThreadOk(s, g, t))
    && (forall t, j :: 0 <= t < |s.threads| && 0 <= j < |s.threads| ==> CheckedOk(s, g, t, j))
    && (forall t, k, i :: 0 <= t < |s.threads| && 0 <= k < |s.threads[t].lists| && 0 <= i < |s.threads[t].lists[k]| ==>
          ListedOk(s, g, t, k, i))
    && (forall x, t | x in s.holders && t in s.holders[x] :: HolderOk(s, g, x, t))
  }

  // ----- Every step keeps it -----

  lemma StepRefines(s: State, g: Epochs, a: Action)
    requires Refines(s, g) && Enabled(s, a)
    ensures Refines(Do(s, a), Follow(s, g, a))
  {
    hide ThreadOk, CheckedOk, ListedOk, HolderOk;
    var s', g' := Do(s, a), Follow(s, g, a);
    GlobalStep(s, g, a);
    forall t | 0 <= t < |s'.threads| ensures ThreadOk(s', g', t) {
      ThreadStep(s, g, a, t);
    }
    forall t, j | 0 <= t < |s'.threads| && 0 <= j < |s'.threads| ensures CheckedOk(s', g', t, j) {
      CheckedStep(s, g, a, t, j);
    }
    forall t, k, i | 0 <= t < |s'.threads| && 0 <= k < |s'.threads[t].lists| && 0 <= i < |s'.threads[t].lists[k]|
      ensures ListedOk(s', g', t, k, i)
    {
      ListedStep(s, g, a, t, k, i);
    }
    forall x, t | x in s'.holders && t in s'.holders[x] ensures HolderOk(s', g', x, t) {
      HolderStep(s, g, a, x, t);
    }
  }

  // A successful compare-and-swap finds the epoch its thread entered with, not one three later.
  lemma CasEpoch(s: State, g: Epochs, t: Tid)
    requires Refines(s, g) && t < |s.threads| && s.threads[t].pc.Check? && s.global == s.threads[t].pc.epoch
    ensures g.global == g.entered[t]
  {
    hide CheckedOk, ListedOk, HolderOk;
    assert ThreadOk(s, g, t);
  }

  lemma GlobalStep(s: State, g: Epochs, a: Action)
    requires Refines(s, g) && Enabled(s, a)
    ensures var s', g' := Do(s, a), Follow(s, g, a);
            |s'.threads| == |g'.entered| == |s.threads| && g'.global >= 0 && s'.global == g'.global % 3
  {
    hide CheckedOk, ListedOk, HolderOk;
    assert ThreadOk(s, g, a.t);
  }

  lemma ThreadStep(s: State, g: Epochs, a: Action, t: Tid)
    requires Refines(s, g) && Enabled(s, a) && t < |s.threads|
    ensures var s', g' := Do(s, a), Follow(s, g, a); t < |s'.threads| == |g'.entered| && ThreadOk(s', g', t)
  {
    hide ListedOk, HolderOk;
    assert ThreadOk(s, g, t) && ThreadOk(s, g, a.t);
    if a.Cas? && s.global == s.threads[a.t].pc.epoch {
      CasEpoch(s, g, a.t);
      assert CheckedOk(s, g, a.t, t);
    }
  }

  lemma CheckedStep(s: State, g: Epochs, a: Action, t: Tid, j: Tid)
    requires Refines(s, g) && Enabled(s, a) && t < |s.threads| && j < |s.threads|
    ensures var s', g' := Do(s, a), Follow(s, g, a); |s'.threads| == |g'.entered| == |s.threads| && CheckedOk(s', g', t, j)
  {
    hide ListedOk, HolderOk;
    assert ThreadOk(s, g, t) && ThreadOk(s, g, j) && CheckedOk(s, g, t, j);
  }

  lemma ListedStep(s: State, g: Epochs, a: Action, t: Tid, k: nat, i: nat)
    requires Refines(s, g) && Enabled(s, a) && t < |s.threads| == |Do(s, a).threads|
    requires k < |Do(s, a).threads[t].lists| && i < |Do(s, a).threads[t].lists[k]|
    ensures var s', g' := Do(s, a), Follow(s, g, a); |s'.threads| == |g'.entered| && ListedOk(s', g', t, k, i)
  {
    hide CheckedOk, HolderOk;
    assert ThreadOk(s, g, t) && ThreadOk(s, g, a.t);
    if k < |s.threads[t].lists| && i < |s.threads[t].lists[k]| {
      assert ListedOk(s, g, t, k, i);
    }
  }

  lemma HolderStep(s: State, g: Epochs, a: Action, x: Node, t: Tid)
    requires Refines(s, g) && Enabled(s, a) && x in Do(s, a).holders && t in Do(s, a).holders[x]
    ensures var s', g' := Do(s, a), Follow(s, g, a); |s'.threads| == |g'.entered| && HolderOk(s', g', x, t)
  {
    hide CheckedOk, ListedOk;
    if x in s.holders {
      assert t in s.holders[x] && HolderOk(s, g, x, t);
    } else {
      assert ThreadOk(s, g, t) && ThreadOk(s, g, a.t);
    }
  }

  // ----- Main results -----

  // Every run of the three-valued protocol is a run of the unbounded one.
  lemma {:induction false} RunRefines(init: State, acts: seq<Action>, s: State) returns (g: Epochs)
    requires Initial(init) && Run(init, acts, s)
    ensures Refines(s, g)
    ensures forall t :: 0 <= t < |s.threads| && !s.threads[t].pc.Out? ==>
              s.threads[t].local == g.entered[t] % 3 && g.global - 1 <= g.entered[t] <= g.global
    decreases |acts|
  {
    hide CheckedOk, ListedOk, HolderOk;
    if acts == [] {
      g := Epochs(0, seq(|s.threads|, _ => 0), map[]);
      StartRefines(s, g);
    } else {
      assert RunThen(init, acts[..|acts| - 1], acts[|acts| - 1], s);
      var r :| Run(init, acts[..|acts| - 1], r) && Takes(r, acts[|acts| - 1], s);
      var h := RunRefines(init, acts[..|acts| - 1], r);
      g := Follow(r, h, acts[|acts| - 1]);
      StepRefines(r, h, acts[|acts| - 1]);
    }
    forall t | 0 <= t < |s.threads| && !s.threads[t].pc.Out?
      ensures s.threads[t].local == g.entered[t] % 3 && g.global - 1 <= g.entered[t] <= g.global
    {
      assert ThreadOk(s, g, t);
    }
  }

  lemma StartRefines(s: State, g: Epochs)
    requires Initial(s) && g == Epochs(0, seq(|s.threads|, _ => 0), map[])
    ensures Refines(s, g)
  {
  }

  // Whatever a thread frees when it enters, no thread is still inside that was inside when the node
  // was retired.
  lemma NothingFreedInUse(init: State, acts: seq<Action>, s: State, a: Action, x: Node)
    requires Initial(init) && Run(init, acts, s) && Enabled(s, a) && x in Frees(s, a)
    ensures x in s.holders && s.holders[x] == {}
  {
    hide CheckedOk, HolderOk, Run;
    var g := RunRefines(init, acts, s);
    var k := s.global;
    assert ThreadOk(s, g, a.t);
    var i :| 0 <= i < |s.threads[a.t].lists[k]| && s.threads[a.t].lists[k][i] == x;
    assert ListedOk(s, g, a.t, k, i);
    LongAgo(s, g, a.t, x);
    forall t ensures t !in s.holders[x] {
      Gone(s, g, x, t);
    }
  }

  // A node in the list of an epoch other than the one its thread entered with last, which is the
  // global epoch again, was retired at least three epochs ago.
  lemma LongAgo(s: State, g: Epochs, u: Tid, x: Node)
    requires Refines(s, g) && u < |s.threads| && s.threads[u].previous !in {OUTSIDE, s.global}
    requires x in g.at && g.at[x] % 3 == s.global && g.at[x] <= g.entered[u]
    ensures g.global >= g.at[x] + 3
  {
    hide CheckedOk, ListedOk, HolderOk;
    assert ThreadOk(s, g, u);
  }

  lemma Gone(s: State, g: Epochs, x: Node, t: Tid)
    requires Refines(s, g) && x in s.holders && x in g.at && g.global >= g.at[x] + 3
    ensures t !in s.holders[x]
  {
    hide CheckedOk, ListedOk;
    assert t in s.holders[x] ==> HolderOk(s, g, x, t);
    assert t < |s.threads| ==> ThreadOk(s, g, t);
  }

  // ----- Nothing is lost or freed twice -----

  function Listed(lists: seq<seq<Node>>): multiset<Node> {
    if lists == [] then multiset{} else multiset(lists[0]) + Listed(lists[1..])
  }

  function Pending(threads: seq<Thread>): multiset<Node> {
    if threads == [] then multiset{} else Listed(threads[0].lists) + Pending(threads[1..])
  }

  lemma Add(a: multiset<Node>, b: multiset<Node>, c: multiset<Node>, d: multiset<Node>, e: multiset<Node>)
    requires b + c == d + e
    ensures a + b + c == a + d + e
  {
    assert a + b + c == a + (b + c);
    assert a + d + e == a + (d + e);
  }

  lemma {:induction false} ListedUpdate(lists: seq<seq<Node>>, k: nat, list: seq<Node>)
    requires k < |lists|
    ensures Listed(lists[k := list]) + multiset(lists[k]) == Listed(lists) + multiset(list)
  {
    var lists' := lists[k := list];
    if k == 0 {
      assert lists'[1..] == lists[1..];
    } else {
      assert lists'[1..] == lists[1..][k - 1 := list];
      ListedUpdate(lists[1..], k - 1, list);
      Add(multiset(lists[0]), Listed(lists'[1..]), multiset(lists[k]), Listed(lists[1..]), multiset(list));
    }
  }

  lemma {:induction false} PendingUpdate(threads: seq<Thread>, t: nat, th: Thread)
    requires t < |threads|
    ensures Pending(threads[t := th]) + Listed(threads[t].lists) == Pending(threads) + Listed(th.lists)
  {
    var threads' := threads[t := th];
    if t == 0 {
      assert threads'[1..] == threads[1..];
    } else {
      assert threads'[1..] == threads[1..][t - 1 := th];
      PendingUpdate(threads[1..], t - 1, th);
      Add(Listed(threads[0].lists), Pending(threads'[1..]), Listed(threads[t].lists), Pending(threads[1..]), Listed(th.lists));
    }
  }

  // The nodes in the free lists are exactly those retired and not yet freed, each in one list once.
  ghost predicate Conserved(s: State) {
    s.freed <= s.holders.Keys && Pending(s.threads) == multiset(s.holders.Keys - s.freed)
  }

  lemma StepConserves(s: State, g: Epochs, a: Action)
    requires Refines(s, g) && Enabled(s, a) && Conserved(s)
    ensures Conserved(Do(s, a))
    ensures forall x :: x in Frees(s, a) ==> x in s.holders && x !in s.freed
  {
    hide CheckedOk, ListedOk, HolderOk, Pending, Listed, Conserved;
    assert ThreadOk(s, g, a.t);
    if a.Enter? {
      EnterConserves(s, a.t);
    } else if a.Retire? {
      RetireConserves(s, a.t, a.x);
    } else {
      OtherConserves(s, a);
    }
  }

  lemma EnterConserves(s: State, t: Tid)
    requires Enabled(s, Enter(t)) && Conserved(s)
    ensures Conserved(Do(s, Enter(t)))
    ensures forall x :: x in Frees(s, Enter(t)) ==> x in s.holders && x !in s.freed
  {
    hide Pending, Listed;
    var s' := Do(s, Enter(t));
    PendingUpdate(s.threads, t, s'.threads[t]);
    if s.threads[t].previous != s.global {
      ListedUpdate(s.threads[t].lists, s.global, []);
      FreeListed(s, t);
      Less(Pending(s'.threads), Listed(s.threads[t].lists), Pending(s.threads), Listed(s'.threads[t].lists),
           multiset(s.threads[t].lists[s.global]));
    } else {
      Cancel(Pending(s'.threads), Listed(s.threads[t].lists), Pending(s.threads));
    }
  }

  lemma Less(a: multiset<Node>, b: multiset<Node>, c: multiset<Node>, d: multiset<Node>, e: multiset<Node>)
    requires a + b == c + d && d + e == b
    ensures a == c - e
  {
    assert forall x :: a[x] + b[x] == (a + b)[x] && c[x] + d[x] == (c + d)[x] && d[x] + e[x] == (d + e)[x];
    assert forall x :: a[x] == (c - e)[x];
  }

  lemma RetireConserves(s: State, t: Tid, x: Node)
    requires Enabled(s, Retire(t, x)) && Conserved(s)
    ensures Conserved(Do(s, Retire(t, x)))
  {
    hide Pending, Listed;
    var s' := Do(s, Retire(t, x));
    var th := s.threads[t];
    PendingUpdate(s.threads, t, s'.threads[t]);
    ListedUpdate(th.lists, th.local, th.lists[th.local] + [x]);
    More(Pending(s'.threads), Listed(th.lists), Pending(s.threads), Listed(s'.threads[t].lists), multiset(th.lists[th.local]), x);
    assert s'.holders.Keys - s'.freed == (s.holders.Keys - s.freed) + {x};
    assert multiset(s'.holders.Keys - s'.freed) == multiset(s.holders.Keys - s.freed) + multiset{x};
  }

  lemma Cancel(a: multiset<Node>, b: multiset<Node>, c: multiset<Node>)
    requires a + b == c + b
    ensures a == c
  {
    assert forall y :: a[y] + b[y] == (a + b)[y] && c[y] + b[y] == (c + b)[y];
  }

  lemma More(a: multiset<Node>, b: multiset<Node>, c: multiset<Node>, d: multiset<Node>, e: multiset<Node>, x: Node)
    requires a + b == c + d && d + e == b + (e + multiset{x})
    ensures a == c + multiset{x}
  {
    assert forall y :: a[y] + b[y] == (a + b)[y] && c[y] + d[y] == (c + d)[y] && d[y] + e[y] == (d + e)[y];
    assert forall y :: a[y] == (c + multiset{x})[y];
  }

  lemma OtherConserves(s: State, a: Action)
    requires Enabled(s, a) && Conserved(s) && !a.Enter? && !a.Retire?
    ensures Conserved(Do(s, a)) && Frees(s, a) == []
  {
    hide Pending, Listed;
    PendingUpdate(s.threads, a.t, Do(s, a).threads[a.t]);
    Cancel(Pending(Do(s, a).threads), Listed(s.threads[a.t].lists), Pending(s.threads));
    assert Do(s, a).holders.Keys == s.holders.Keys;
  }

  lemma FreeListed(s: State, t: Tid)
    requires t < |s.threads| && |s.threads[t].lists| == 3 && 0 <= s.global < 3 && Conserved(s)
    ensures var list := s.threads[t].lists[s.global]; var gone := set x | x in list;
            && gone <= s.holders.Keys - s.freed
            && multiset(s.holders.Keys - s.freed) - multiset(list) == multiset(s.holders.Keys - (s.freed + gone))
  {
    var list := s.threads[t].lists[s.global];
    PartOfListed(s.threads[t].lists, s.global);
    PartOfPending(s.threads, t);
    assert multiset(list) <= multiset(s.holders.Keys - s.freed);
    forall x | x in list ensures x in s.holders.Keys - s.freed && multiset(list)[x] == 1 {
      assert multiset(list)[x] >= 1;
      assert multiset(list)[x] <= multiset(s.holders.Keys - s.freed)[x];
    }
  }

  lemma {:induction false} PartOfListed(lists: seq<seq<Node>>, k: nat)
    requires k < |lists|
    ensures multiset(lists[k]) <= Listed(lists)
  {
    if k > 0 {
      PartOfListed(lists[1..], k - 1);
    }
  }

  lemma {:induction false} PartOfPending(threads: seq<Thread>, t: nat)
    requires t < |threads|
    ensures Listed(threads[t].lists) <= Pending(threads)
  {
    if t > 0 {
      PartOfPending(threads[1..], t - 1);
    }
  }

  // In every run the retired nodes are either freed or waiting in exactly one list, and no step
  // frees a node a second time.
  lemma {:induction false} RunConserves(init: State, acts: seq<Action>, s: State)
    requires Initial(init) && Run(init, acts, s)
    ensures Conserved(s)
    ensures forall a, x :: Enabled(s, a) && x in Frees(s, a) ==> x in s.holders && x !in s.freed
    decreases |acts|
  {
    hide Refines;
    if acts == [] {
      NonePending(s.threads);
    } else {
      assert RunThen(init, acts[..|acts| - 1], acts[|acts| - 1], s);
      var r :| Run(init, acts[..|acts| - 1], r) && Takes(r, acts[|acts| - 1], s);
      var h := RunRefines(init, acts[..|acts| - 1], r);
      RunConserves(init, acts[..|acts| - 1], r);
      StepConserves(r, h, acts[|acts| - 1]);
    }
    var g := RunRefines(init, acts, s);
    forall a, x | Enabled(s, a) && x in Frees(s, a) ensures x in s.holders && x !in s.freed {
      StepConserves(s, g, a);
    }
  }

  lemma {:induction false} NonePending(threads: seq<Thread>)
    requires forall t :: 0 <= t < |threads| ==> threads[t].lists == [[], [], []]
    ensures Pending(threads) == multiset{}
  {
    if threads != [] {
      var none: seq<seq<Node>> := [[], [], []];
      assert none[1..] == [[], []] && none[1..][1..] == [[]] && none[1..][1..][1..] == [];
      NonePending(threads[1..]);
    }
  }
}
