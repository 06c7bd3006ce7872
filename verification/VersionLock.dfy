// The lock of a data node.
module VersionLock {
  // The versioned lock and the lookups that do without it, as a state machine over the loads, stores and
  // compare-and-swaps of any number of threads.

  import opened GappedArray
  import opened LookupSteps

  // The lock bit; the bits below it are the version.
  const LOCK_SET := 0x8000_0000
  const WORD := 0x1_0000_0000

  // Where a thread stands. `snap` is history: the slots when the lookup read the version.
  datatype Pc =
    | Idle
    | CheckLock(seen: int, once: bool)     // v & lockSet ?
    | CasLock(want: int, once: bool)       // CAS(&lock_, &old_value, old_value | lockSet)
    | Holding                              // the node's slots are written here
    | Release(seen: int)                   // lock_ = v + 1 - lockSet
    | Reading(version: int, key: int, search: Search, snap: seq<Slot>)
    | Answer(same: bool, key: int, search: Search, snap: seq<Slot>)

  // `releases` counts the releases so far, those of the nodes this one is a copy of included.
  datatype State = State(word: int, slots: seq<Slot>, pcs: seq<Pc>, releases: nat)

  // A key, a payload or a bit of the bitmap is stored at a time.
  datatype Store = KeyOf(i: nat, x: int) | PayloadOf(i: nat, x: int) | BitOf(i: nat, b: bool)

  datatype Action =
    | BeginLock(t: nat, once: bool)
    | BeginRead(t: nat, key: int, prediction: int)
    | Write(t: nat, store: Store)
    | BeginRelease(t: nat)
    | Step(t: nat)
    | Forget(t: nat)

  // A writer releases the lock only when the slots are a gapped array again.
  ghost predicate Enabled(s: State, a: Action) {
    && a.t < |s.pcs|
    && var pc := s.pcs[a.t];
       match a
       case BeginLock(_, _) => pc.Idle?
       case BeginRead(_, key, _) => pc.Idle? && key < END_SENTINEL && |s.slots| > 0
       case Write(_, store) => pc.Holding? && store.i < |s.slots|
       case BeginRelease(_) => pc.Holding? && Gapped(s.slots)
       case Step(_) => pc.CheckLock? || pc.CasLock? || pc.Release? || pc.Reading?
       case Forget(_) => pc.Answer?
  }

  function Stored(slots: seq<Slot>, store: Store): (r: seq<Slot>)
    ensures |r| == |slots|
  {
    if store.i >= |slots| then slots
    else match store
      case KeyOf(i, x) => slots[i := slots[i].(key := x)]
      case PayloadOf(i, x) => slots[i := slots[i].(payload := x)]
      case BitOf(i, b) => slots[i := slots[i].(used := b)]
  }

  function Do(s: State, a: Action): State
    requires a.t < |s.pcs|
  {
    match a
    case BeginLock(t, once) => s.(pcs := s.pcs[t := CheckLock(s.word, once)])
    case BeginRead(t, key, prediction) =>
      s.(pcs := s.pcs[t := if s.word >= LOCK_SET || |s.slots| == 0 then Idle
                           else Reading(s.word, key, Start(prediction, |s.slots|), s.slots)])
    case Write(t, store) => s.(slots := Stored(s.slots, store))
    case BeginRelease(t) => s.(pcs := s.pcs[t := Release(s.word)])
    case Forget(t) => s.(pcs := s.pcs[t := Idle])
    case Step(t) => Advance(s, t)
  }

  // A thread that finds the lock bit set gives up or loads the word again. A lookup reads the slot it
  // asks for, as it is now, and at the end the version.
  function Advance(s: State, t: nat): State
    requires t < |s.pcs|
  {
    match s.pcs[t]
    case CheckLock(seen, once) =>
      s.(pcs := s.pcs[t := if seen < LOCK_SET then CasLock(seen, once) else if once then Idle else CheckLock(s.word, once)])
    case CasLock(want, once) =>
      if s.word == want then s.(word := want + LOCK_SET, pcs := s.pcs[t := Holding])
      else s.(pcs := s.pcs[t := if once then Idle else CheckLock(s.word, once)])
    case Release(seen) =>
      s.(word := (seen + 1 - LOCK_SET) % WORD, pcs := s.pcs[t := Idle], releases := s.releases + 1)
    case Reading(version, key, search, snap) =>
      s.(pcs := s.pcs[t := if search.Done() then Answer(s.word == version, key, search, snap)
                           else Reading(version, key, Feed(search, key, |s.slots|, ReadOf(s, search)), snap)])
    case _ => s
  }

  // No lookup asks for a slot that is not there (ReadsInBounds).
  function ReadOf(s: State, q: Search): int {
    if 0 <= q.Asks() < |s.slots| then Reads(q, s.slots[q.Asks()]) else 0
  }

  ghost predicate Run(init: State, acts: seq<Action>, s: State)
    decreases |acts|, 0
  {
    if acts == [] then s == init else RunThen(init, acts[..|acts| - 1], acts[|acts| - 1], s)
  }

  ghost predicate RunThen(init: State, acts: seq<Action>, a: Action, s: State)
    decreases |acts|, 1
  {
    exists r :: Run(init, acts, r) && Takes(r, a, s)
  }

  ghost predicate Takes(r: State, a: Action, s: State) { Enabled(r, a) && s == Do(r, a) }

  // A node that has just been built: free, or created with its lock held; a copy starts with the
  // version of the node it is a copy of.
  ghost predicate Initial(s: State) {
    && s.releases < LOCK_SET
    && (Free(s) || exists t :: 0 <= t < |s.pcs| && Owned(s, t))
  }

  ghost predicate Free(s: State) {
    s.word == s.releases && Gapped(s.slots) && forall t :: 0 <= t < |s.pcs| ==> s.pcs[t].Idle?
  }

  ghost predicate Owned(s: State, t: nat)
    requires t < |s.pcs|
  {
    s.word == LOCK_SET + s.releases && s.pcs[t].Holding? && forall u :: 0 <= u < |s.pcs| && u != t ==> s.pcs[u].Idle?
  }

  // ----- The invariant -----

  predicate Holds(pc: Pc) { pc.Holding? || pc.Release? }

  ghost predicate Held(s: State) { exists t :: 0 <= t < |s.pcs| && Holds(s.pcs[t]) }

  ghost predicate PcOk(s: State, pc: Pc) {
    && (pc.CheckLock? ==> 0 <= pc.seen)
    && (pc.CasLock? ==> 0 <= pc.want < LOCK_SET)
    && (pc.Release? ==> pc.seen == s.word && Gapped(s.slots))
    && (pc.Reading? ==>
          && 0 <= pc.version < LOCK_SET && pc.version <= s.releases && Gapped(pc.snap) && pc.key < END_SENTINEL
          && InBounds(pc.search, |s.slots|) && (s.word == pc.version ==> s.slots == pc.snap && Knows(pc.search, pc.snap, pc.key)))
    && (pc.Answer? && pc.same ==> Gapped(pc.snap) && pc.search.Done() && Knows(pc.search, pc.snap, pc.key))
  }

  // The word is the number of releases, with the lock bit while the lock is held. After 2^31 releases
  // it is the lock bit alone, and nobody holds the lock.
  ghost predicate Inv(s: State) {
    && s.releases <= LOCK_SET
    && (Held(s) ==> s.releases < LOCK_SET && s.word == LOCK_SET + s.releases)
    && (!Held(s) ==> s.word == s.releases && Gapped(s.slots))
    && (forall t, u :: 0 <= t < u < |s.pcs| ==> !(Holds(s.pcs[t]) && Holds(s.pcs[u])))
    && forall t :: 0 <= t < |s.pcs| ==> PcOk(s, s.pcs[t])
  }

  lemma StepKeepsInv(s: State, a: Action)
    requires Inv(s) && Enabled(s, a)
    ensures Inv(Do(s, a))
  {
    hide Gapped, Knows, InBounds, Feed, Stored;
    var s' := Do(s, a);
    assert PcOk(s, s.pcs[a.t]);
    HeldAfter(s, a);
    forall t | 0 <= t < |s'.pcs| ensures PcOk(s', s'.pcs[t]) {
      assert PcOk(s, s.pcs[t]);
      if t == a.t {
        OwnPc(s, a);
      } else {
        OtherPc(s, a, t);
      }
    }
  }

  lemma HeldAfter(s: State, a: Action)
    requires Inv(s) && Enabled(s, a)
    ensures var s' := Do(s, a);
            && |s'.pcs| == |s.pcs| && s'.releases <= LOCK_SET
            && (Held(s') ==> s'.releases < LOCK_SET && s'.word == LOCK_SET + s'.releases)
            && (!Held(s') ==> s'.word == s'.releases && Gapped(s'.slots))
            && (forall t, u :: 0 <= t < u < |s'.pcs| ==> !(Holds(s'.pcs[t]) && Holds(s'.pcs[u])))
  {
    hide Gapped, Knows, InBounds, Feed, Stored, Start;
    var s' := Do(s, a);
    assert PcOk(s, s.pcs[a.t]);
    assert Holds(s'.pcs[a.t]) ==> Held(s');
    assert Holds(s.pcs[a.t]) ==> Held(s);
    if Held(s) && !Holds(s.pcs[a.t]) {
      var t :| 0 <= t < |s.pcs| && Holds(s.pcs[t]);
      assert Holds(s'.pcs[t]);
    }
  }

  lemma OwnPc(s: State, a: Action)
    requires Inv(s) && Enabled(s, a)
    ensures a.t < |Do(s, a).pcs| && PcOk(Do(s, a), Do(s, a).pcs[a.t])
  {
    hide Gapped, Knows, InBounds, Feed, Stored, Start;
    var pc := s.pcs[a.t];
    assert PcOk(s, pc);
    assert Holds(pc) ==> Held(s);
    if a.Step? && pc.Reading? && !pc.search.Done() {
      FeedInBounds(pc.search, pc.key, |s.slots|, ReadOf(s, pc.search));
      if s.word == pc.version {
        FeedKnows(pc.search, pc.snap, pc.key);
      }
    }
    if a.BeginRead? {
      StartKnows(a.prediction, s.slots, a.key);
    }
  }

  lemma StartKnows(prediction: int, v: seq<Slot>, key: int)
    requires |v| > 0
    ensures Knows(Start(prediction, |v|), v, key)
  {
  }

  lemma OtherPc(s: State, a: Action, t: nat)
    requires Inv(s) && Enabled(s, a) && t < |s.pcs| && t != a.t
    ensures t < |Do(s, a).pcs| && PcOk(Do(s, a), Do(s, a).pcs[t])
  {
    hide Gapped, Knows, InBounds, Feed, Stored, Start;
    assert PcOk(s, s.pcs[t]) && PcOk(s, s.pcs[a.t]);
    assert (Holds(s.pcs[a.t]) ==> Held(s)) && (Holds(s.pcs[t]) ==> Held(s));
    assert !(Holds(s.pcs[t]) && Holds(s.pcs[a.t]));
  }

  lemma {:induction false} RunKeepsInv(init: State, acts: seq<Action>, s: State)
    requires Initial(init) && Run(init, acts, s)
    ensures Inv(s)
    decreases |acts|
  {
    hide Inv, Do, Enabled, Initial;
    if acts == [] {
      StartInv(s);
    } else {
      assert RunThen(init, acts[..|acts| - 1], acts[|acts| - 1], s);
      var r :| Run(init, acts[..|acts| - 1], r) && Takes(r, acts[|acts| - 1], s);
      RunKeepsInv(init, acts[..|acts| - 1], r);
      StepKeepsInv(r, acts[|acts| - 1]);
    }
  }

  lemma StartInv(s: State)
    requires Initial(s)
    ensures Inv(s)
  {
    hide Gapped;
    if !Free(s) {
      var t :| 0 <= t < |s.pcs| && Owned(s, t);
      assert Holds(s.pcs[t]);
    }
  }

  // ----- Lookups without the lock -----

  // In every interleaving with any number of writers, a lookup that finds the version unchanged has the
  // answer of the map that the slots stood for when it read the version.
  lemma LookupIsMapped(init: State, acts: seq<Action>, s: State, t: nat)
    requires Initial(init) && Run(init, acts, s) && t < |s.pcs| && s.pcs[t].Answer? && s.pcs[t].same
    ensures var pc := s.pcs[t]; var m := ToMap(Entries(pc.snap));
            && Gapped(pc.snap) && (pc.search.Found? <==> pc.key in m) && (pc.search.Found? ==> pc.search.payload == m[pc.key])
            && (pc.search.Missing? <==> pc.key !in m)
  {
    hide Run, Initial, Gapped, ToMap, Entries;
    RunKeepsInv(init, acts, s);
    assert PcOk(s, s.pcs[t]);
  }

  // Those slots are the ones in the state of the run in which the thread read the version, with the
  // lock free.
  lemma {:induction false} SnapshotIsState(init: State, acts: seq<Action>, s: State, t: nat) returns (k: nat, r: State)
    requires Initial(init) && Run(init, acts, s) && t < |s.pcs| && (s.pcs[t].Reading? || s.pcs[t].Answer?)
    ensures k < |acts| && Run(init, acts[..k], r) && acts[k].BeginRead? && acts[k].t == t && acts[k].key == s.pcs[t].key
    ensures r.slots == s.pcs[t].snap && 0 <= r.word < LOCK_SET && !Held(r) && (s.pcs[t].Reading? ==> s.pcs[t].version == r.word)
    ensures forall j :: k < j < |acts| ==> !(acts[j].BeginRead? && acts[j].t == t)
    decreases |acts|
  {
    hide Gapped, Inv, Do, Enabled;
    assert acts == [] ==> s.pcs[t].Idle? || s.pcs[t].Holding?;
    var n := |acts| - 1;
    assert RunThen(init, acts[..n], acts[n], s);
    var q :| Run(init, acts[..n], q) && Takes(q, acts[n], s);
    SnapshotStep(q, acts[n], t);
    if acts[n].BeginRead? && acts[n].t == t {
      k, r := n, q;
      RunKeepsInv(init, acts[..n], q);
      WordSize(q);
    } else {
      k, r := SnapshotIsState(init, acts[..n], q, t);
      assert acts[..n][..k] == acts[..k];
    }
  }

  lemma SnapshotStep(q: State, a: Action, t: nat)
    requires Enabled(q, a) && t < |Do(q, a).pcs| && (Do(q, a).pcs[t].Reading? || Do(q, a).pcs[t].Answer?)
    ensures var pc := Do(q, a).pcs[t];
            if a.BeginRead? && a.t == t then q.slots == pc.snap && a.key == pc.key && q.word < LOCK_SET && pc.Reading? && pc.version == q.word
            else t < |q.pcs| && (q.pcs[t].Reading? || q.pcs[t].Answer?) && q.pcs[t].key == pc.key && q.pcs[t].snap == pc.snap
                 && (pc.Reading? ==> q.pcs[t].Reading? && q.pcs[t].version == pc.version)
  {
    hide Gapped, Stored, Feed, Start;
  }

  lemma WordSize(s: State)
    requires Inv(s)
    ensures 0 <= s.word && (s.word < LOCK_SET ==> !Held(s))
  {
  }

  // ----- When a lookup is accepted -----

  // In some state of the run after its first k steps a thread holds the lock.
  ghost predicate HeldSince(init: State, acts: seq<Action>, k: nat) { exists j :: k <= j <= |acts| && HeldAt(init, acts, j) }

  ghost predicate HeldAt(init: State, acts: seq<Action>, j: nat)
    requires j <= |acts|
  {
    exists r :: Run(init, acts[..j], r) && Held(r)
  }

  // The step that answers accepts what has been read if and only if no thread has held the lock since the
  // lookup read the version.
  lemma AcceptedIff(init: State, acts: seq<Action>, s: State, t: nat) returns (k: nat, r: State)
    requires Initial(init) && Run(init, acts, s) && t < |s.pcs| && s.pcs[t].Reading? && s.pcs[t].search.Done()
    ensures k < |acts| && Run(init, acts[..k], r) && acts[k].BeginRead? && acts[k].t == t && acts[k].key == s.pcs[t].key
    ensures r.slots == s.pcs[t].snap && forall j :: k < j < |acts| ==> !(acts[j].BeginRead? && acts[j].t == t)
    ensures Enabled(s, Step(t)) && Do(s, Step(t)).pcs[t].Answer? && (Do(s, Step(t)).pcs[t].same <==> !HeldSince(init, acts, k))
  {
    hide Run, Initial, HeldSince, Gapped;
    k, r := SnapshotIsState(init, acts, s, t);
    RunKeepsInv(init, acts, s);
    RunKeepsInv(init, acts[..k], r);
    assert acts[..|acts|] == acts;
    WordSince(init, acts, k, |acts|, r, s);
  }

  // Since a state with the lock free, somebody has held the lock exactly if somebody does or there has been a
  // release.
  lemma {:induction false} WordSince(init: State, acts: seq<Action>, k: nat, n: nat, r: State, s: State)
    requires Initial(init) && k <= n <= |acts| && Run(init, acts[..k], r) && Run(init, acts[..n], s) && !Held(r)
    ensures r.releases <= s.releases
    ensures HeldSince(init, acts[..n], k) <==> Held(s) || r.releases < s.releases
    decreases n
  {
    hide Run, Initial, Inv, Held, Do, Enabled;
    var m := n - 1;
    if n == k {
      SameState(init, acts[..n], r, s);
      OnlyNow(init, acts[..n], s);
    } else {
      var q := Before(init, acts[..n], s);
      assert acts[..n][..m] == acts[..m] && acts[..n][m] == acts[m];
      WordSince(init, acts, k, m, r, q);
      RunKeepsInv(init, acts[..m], q);
      HoldChanges(q, acts[m]);
      OneMoreState(init, acts[..n], k, s);
    }
  }

  lemma Before(init: State, acts: seq<Action>, s: State) returns (q: State)
    requires Run(init, acts, s) && acts != []
    ensures Run(init, acts[..|acts| - 1], q) && Takes(q, acts[|acts| - 1], s)
  {
    assert RunThen(init, acts[..|acts| - 1], acts[|acts| - 1], s);
    q :| Run(init, acts[..|acts| - 1], q) && Takes(q, acts[|acts| - 1], s);
  }

  // A run has one state after its steps.
  lemma {:induction false} SameState(init: State, acts: seq<Action>, r: State, s: State)
    requires Run(init, acts, r) && Run(init, acts, s)
    ensures r == s
    decreases |acts|
  {
    hide Do, Enabled;
    if acts != [] {
      var p := Before(init, acts, r);
      var q := Before(init, acts, s);
      SameState(init, acts[..|acts| - 1], p, q);
    }
  }

  lemma OnlyNow(init: State, acts: seq<Action>, s: State)
    requires Run(init, acts, s)
    ensures HeldSince(init, acts, |acts|) <==> Held(s)
  {
    hide Run, Held;
    assert acts[..|acts|] == acts;
    if HeldAt(init, acts, |acts|) {
      var r :| Run(init, acts[..|acts|], r) && Held(r);
      SameState(init, acts, r, s);
    }
  }

  lemma OneMoreState(init: State, acts: seq<Action>, k: nat, s: State)
    requires acts != [] && k < |acts| && Run(init, acts, s)
    ensures HeldSince(init, acts, k) <==> HeldSince(init, acts[..|acts| - 1], k) || Held(s)
  {
    hide Run, Held;
    var less := acts[..|acts| - 1];
    OnlyNow(init, acts, s);
    forall j: nat | j <= |less| ensures HeldAt(init, less, j) == HeldAt(init, acts, j) {
      assert less[..j] == acts[..j];
    }
  }

  // A release comes from a holder, and only a release ends a hold.
  lemma HoldChanges(q: State, a: Action)
    requires Inv(q) && Enabled(q, a)
    ensures var s := Do(q, a);
            && q.releases <= s.releases && (q.releases < s.releases ==> Held(q)) && (Held(q) && !Held(s) ==> q.releases < s.releases)
  {
    hide Gapped, Knows, InBounds, Feed, Stored, Start;
    var s := Do(q, a);
    assert Holds(q.pcs[a.t]) ==> Held(q);
    if Held(q) && !Held(s) {
      var t :| 0 <= t < |q.pcs| && Holds(q.pcs[t]);
      assert !Holds(s.pcs[t]);
    }
  }

  // From any state with the lock free, a lookup that nobody gets in the way of is accepted, with the map's
  // answer.
  lemma LookupSucceeds(init: State, acts: seq<Action>, s: State, t: nat, key: int, prediction: int) returns (own: seq<Action>, b: State)
    requires Initial(init) && Run(init, acts, s) && t < |s.pcs| && s.pcs[t].Idle? && s.word < LOCK_SET && |s.slots| > 0 && key < END_SENTINEL
    ensures own != [] && own[0] == BeginRead(t, key, prediction) && (forall i :: 1 <= i < |own| ==> own[i] == Step(t)) && Run(init, acts + own, b)
    ensures b.slots == s.slots && b.word == s.word && t < |b.pcs| && b.pcs[t].Answer? && b.pcs[t].same && b.pcs[t].key == key
    ensures var m := ToMap(Entries(s.slots));
            (b.pcs[t].search.Found? <==> key in m) && (b.pcs[t].search.Found? ==> b.pcs[t].search.payload == m[key])
  {
    hide Run, Initial, Gapped, ToMap, Entries, Do, Start;
    var first := BeginRead(t, key, prediction);
    var a := Do(s, first);
    OneMoreStep(init, acts, s, first);
    Begun(s, t, key, prediction);
    own, b := ReadOn(init, acts, [first], a, t, s.word, key, s.slots);
    RunKeepsInv(init, acts, s);
    LookupIsMapped(init, acts + own, b, t);
  }

  lemma Begun(s: State, t: nat, key: int, prediction: int)
    requires t < |s.pcs| && s.pcs[t].Idle? && s.word < LOCK_SET && |s.slots| > 0 && key < END_SENTINEL
    ensures Enabled(s, BeginRead(t, key, prediction))
    ensures var a := Do(s, BeginRead(t, key, prediction));
            && |a.pcs| == |s.pcs| && a.pcs[t] == Reading(s.word, key, Start(prediction, |s.slots|), s.slots) && a.word == s.word && a.slots == s.slots
  {
    hide Start;
  }

  lemma OneMoreStep(init: State, acts: seq<Action>, r: State, a: Action)
    requires Run(init, acts, r) && Enabled(r, a)
    ensures Run(init, acts + [a], Do(r, a))
  {
    var more := acts + [a];
    assert more[..|more| - 1] == acts && Takes(r, a, Do(r, a));
    assert RunThen(init, acts, a, Do(r, a));
  }

  // The reads of a lookup, one after the other.
  lemma {:induction false} ReadOn(init: State, acts: seq<Action>, own0: seq<Action>, a: State, t: nat, version: int, key: int, snap: seq<Slot>)
    returns (own: seq<Action>, b: State)
    requires Initial(init) && Run(init, acts + own0, a) && own0 != [] && forall i :: 1 <= i < |own0| ==> own0[i] == Step(t)
    requires t < |a.pcs| && a.pcs[t].Reading? && a.word == a.pcs[t].version == version && a.slots == snap && a.pcs[t].key == key && a.pcs[t].snap == snap
    ensures |own| >= |own0| && own[0] == own0[0] && (forall i :: 1 <= i < |own| ==> own[i] == Step(t)) && Run(init, acts + own, b)
    ensures b.slots == snap && b.word == version && t < |b.pcs| && b.pcs[t].Answer? && b.pcs[t].same && b.pcs[t].key == key && b.pcs[t].snap == snap
    decreases var x := Remaining(a.pcs[t].search, |a.slots|); if a.pcs[t].search.Done() || x < 0 then 0 else x + 1
  {
    hide Run, Initial, Gapped, Feed, InBounds, Knows;
    var next := own0 + [Step(t)];
    OneMoreStep(init, acts + own0, a, Step(t));
    assert acts + own0 + [Step(t)] == acts + next;
    b := Do(a, Step(t));
    own := next;
    if !a.pcs[t].search.Done() {
      ReadsInBounds(init, acts + own0, a, t);
      own, b := ReadOn(init, acts, next, b, t, version, key, snap);
    }
  }

  // Whatever writers do meanwhile, a lookup reads inside the arrays only, and each read brings it nearer
  // to its end.
  lemma ReadsInBounds(init: State, acts: seq<Action>, s: State, t: nat)
    requires Initial(init) && Run(init, acts, s) && t < |s.pcs| && s.pcs[t].Reading? && !s.pcs[t].search.Done()
    ensures 0 <= s.pcs[t].search.Asks() < |s.slots|
    ensures Do(s, Step(t)).pcs[t].Reading?
    ensures 0 <= Remaining(Do(s, Step(t)).pcs[t].search, |s.slots|) < Remaining(s.pcs[t].search, |s.slots|)
  {
    hide Run, Initial, Gapped, Feed, InBounds, Knows;
    RunKeepsInv(init, acts, s);
    assert PcOk(s, s.pcs[t]);
    FeedInBounds(s.pcs[t].search, s.pcs[t].key, |s.slots|, ReadOf(s, s.pcs[t].search));
  }

  // ----- The lock -----

  // A request for the lock, with nobody in its way, succeeds if the lock is free.
  lemma LockSucceeds(init: State, acts: seq<Action>, s: State, t: nat, once: bool)
    requires Initial(init) && Run(init, acts, s) && t < |s.pcs| && s.pcs[t].Idle? && s.word < LOCK_SET
    ensures var own, b := [BeginLock(t, once), Step(t), Step(t)], s.(word := s.word + LOCK_SET, pcs := s.pcs[t := Holding]);
            Run(init, acts + own, b)
  {
    hide Run, Initial, Gapped;
    var x, y := Do(s, BeginLock(t, once)), Do(Do(s, BeginLock(t, once)), Step(t));
    OneMoreStep(init, acts, s, BeginLock(t, once));
    OneMoreStep(init, acts + [BeginLock(t, once)], x, Step(t));
    OneMoreStep(init, acts + [BeginLock(t, once)] + [Step(t)], y, Step(t));
    assert acts + [BeginLock(t, once)] + [Step(t)] + [Step(t)] == acts + [BeginLock(t, once), Step(t), Step(t)];
    assert Do(y, Step(t)) == s.(word := s.word + LOCK_SET, pcs := s.pcs[t := Holding]);
  }

  // The states of a run one after the other, from a thread's request for the lock on; the thread itself
  // takes the steps of this request only.
  ghost predicate OneRequest(states: seq<State>, acts: seq<Action>, t: nat, once: bool) {
    && |states| == |acts| + 1 && acts != [] && acts[0] == BeginLock(t, once)
    && (forall i :: 0 <= i < |acts| ==> Takes(states[i], acts[i], states[i + 1]))
    && forall i :: 1 <= i < |acts| && acts[i].t == t ==> acts[i].Step?
  }

  // The thread holds the lock, or the word is as it was, without the lock bit.
  predicate Unchanged(s: State, t: nat, first: int) { t < |s.pcs| && (s.pcs[t].Holding? || s.word == first < LOCK_SET) }

  lemma {:induction false} StillAsking(states: seq<State>, acts: seq<Action>, t: nat, once: bool)
    requires OneRequest(states, acts, t, once)
    requires once ==> forall i :: 0 <= i < |states| ==> Unchanged(states[i], t, states[0].word)
    ensures var s := states[|states| - 1]; t < |s.pcs| && (Asking(s.pcs[t], once, states[0].word) || s.pcs[t].Holding?)
    decreases |acts|
  {
    var n := |acts| - 1;
    assert Takes(states[n], acts[n], states[n + 1]);
    if n > 0 {
      StillAsking(states[..|states| - 1], acts[..n], t, once);
    }
    RequestStep(states[n], acts[n], t, once, states[0].word);
  }

  // A request that waits for the lock is never given up. One that tries once is given up only if in some
  // state since it began the word has the lock bit, or has changed.
  lemma GivenUpOnlyIf(states: seq<State>, acts: seq<Action>, t: nat, once: bool)
    requires OneRequest(states, acts, t, once) && t < |states[|states| - 1].pcs| && states[|states| - 1].pcs[t].Idle?
    ensures once && exists i :: 0 <= i < |states| && !Unchanged(states[i], t, states[0].word)
  {
    hide Unchanged;
    if once ==> forall i :: 0 <= i < |states| ==> Unchanged(states[i], t, states[0].word) {
      StillAsking(states, acts, t, once);
    }
  }

  predicate Asking(pc: Pc, once: bool, first: int) {
    || (pc.CheckLock? && pc.once == once && (once ==> pc.seen == first))
    || (pc.CasLock? && pc.once == once && (once ==> pc.want == first))
  }

  lemma RequestStep(s: State, a: Action, t: nat, once: bool, first: int)
    requires Enabled(s, a) && t < |s.pcs|
    requires (a == BeginLock(t, once) && s.word == first) || ((Asking(s.pcs[t], once, first) || s.pcs[t].Holding?) && (a.t == t ==> a.Step?))
    requires once ==> Unchanged(s, t, first)
    ensures t < |Do(s, a).pcs| && (Asking(Do(s, a).pcs[t], once, first) || Do(s, a).pcs[t].Holding?)
  {
    hide Feed, Start, Stored;
  }

  // While a thread holds the lock it can make the slots what it wants.
  lemma {:induction false} WritesSlots(init: State, acts: seq<Action>, s: State, t: nat, v: seq<Slot>, n: nat) returns (own: seq<Action>)
    requires Run(init, acts, s) && t < |s.pcs| && s.pcs[t].Holding? && n <= |v| == |s.slots| && v[n..] == s.slots[n..]
    ensures (forall a :: a in own ==> a.Write? && a.t == t) && Run(init, acts + own, s.(slots := v))
    decreases n
  {
    hide Run;
    if n == 0 {
      own := [];
      assert acts + [] == acts && v[0..] == v && s.slots[0..] == s.slots && s.(slots := v) == s;
    } else {
      var i, x := n - 1, v[n - 1];
      var one, two, three := Write(t, KeyOf(i, x.key)), Write(t, PayloadOf(i, x.payload)), Write(t, BitOf(i, x.used));
      OneMoreStep(init, acts, s, one);
      OneMoreStep(init, acts + [one], Do(s, one), two);
      OneMoreStep(init, acts + [one] + [two], Do(Do(s, one), two), three);
      var b := Do(Do(Do(s, one), two), three);
      assert b == s.(slots := s.slots[i := x]);
      forall j | i <= j < |v| ensures v[j] == b.slots[j] {
        assert j > i ==> v[n..][j - n] == s.slots[n..][j - n];
      }
      own := WritesSlots(init, acts + [one] + [two] + [three], b, t, v, i);
      assert acts + [one] + [two] + [three] + own == acts + ([one, two, three] + own);
      own := [one, two, three] + own;
    }
  }

  // At most one thread holds the lock.
  lemma OneHolder(init: State, acts: seq<Action>, s: State, t: nat, u: nat)
    requires Initial(init) && Run(init, acts, s) && t < |s.pcs| && u < |s.pcs| && t != u
    ensures !(Holds(s.pcs[t]) && Holds(s.pcs[u]))
  {
    hide Run, Initial, PcOk;
    RunKeepsInv(init, acts, s);
    assert t < u ==> !(Holds(s.pcs[t]) && Holds(s.pcs[u]));
    assert u < t ==> !(Holds(s.pcs[u]) && Holds(s.pcs[t]));
  }

  // A release clears the lock bit if and only if it is not the 2^31-th of the node; the 2^31-th turns
  // the version into the lock bit.
  lemma ReleaseUnlocks(init: State, acts: seq<Action>, s: State, t: nat)
    requires Initial(init) && Run(init, acts, s) && t < |s.pcs| && s.pcs[t].Release?
    ensures s.word % LOCK_SET == s.releases < LOCK_SET
    ensures Do(s, Step(t)).word < LOCK_SET <==> s.releases + 1 < LOCK_SET
    ensures Do(s, Step(t)).word < LOCK_SET ==> Do(s, Step(t)).word == s.releases + 1
  {
    hide Run, Initial, Gapped;
    RunKeepsInv(init, acts, s);
    assert PcOk(s, s.pcs[t]);
    assert Held(s);
  }

  // From then on no thread gets the lock, and no reader gets a version.
  lemma LockedForever(init: State, acts: seq<Action>, s: State, a: Action)
    requires Initial(init) && Run(init, acts, s) && s.releases == LOCK_SET && Enabled(s, a)
    ensures s.word == LOCK_SET && Do(s, a).word == LOCK_SET && Do(s, a).releases == LOCK_SET && Do(s, a).slots == s.slots
    ensures a.BeginRead? ==> Do(s, a).pcs[a.t].Idle?
  {
    hide Run, Initial, Gapped, Knows, InBounds;
    RunKeepsInv(init, acts, s);
    assert PcOk(s, s.pcs[a.t]);
    assert Holds(s.pcs[a.t]) ==> Held(s);
  }

  // ----- A run that gets there -----

  // One thread locks and releases a node again and again.
  function Quiet(slots: seq<Slot>, n: nat): State { State(n, slots, [Idle], n) }

  lemma Next(init: State, acts: seq<Action>, r: State, a: Action) returns (more: seq<Action>)
    requires Run(init, acts, r) && Enabled(r, a)
    ensures Run(init, more, Do(r, a))
  {
    more := acts + [a];
    assert more[..|more| - 1] == acts && Takes(r, a, Do(r, a));
    assert RunThen(init, acts, a, Do(r, a));
  }

  lemma OneRelease(init: State, acts: seq<Action>, slots: seq<Slot>, n: nat) returns (more: seq<Action>, s: State)
    requires Gapped(slots) && Run(init, acts, Quiet(slots, n)) && n < LOCK_SET
    ensures Run(init, more, s) && s == Quiet(slots, n + 1)
  {
    hide Run, Gapped;
    s := Quiet(slots, n);
    more := Next(init, acts, s, BeginLock(0, true));
    s := Do(s, BeginLock(0, true));
    more := Next(init, more, s, Step(0));
    s := Do(s, Step(0));
    more := Next(init, more, s, Step(0));
    s := Do(s, Step(0));
    more := Next(init, more, s, BeginRelease(0));
    s := Do(s, BeginRelease(0));
    more := Next(init, more, s, Step(0));
    s := Do(s, Step(0));
  }

  // So for any number of releases up to 2^31 there is a run, and the last of them locks the node for
  // good.
  lemma {:induction false} ReleaseRun(slots: seq<Slot>, n: nat) returns (acts: seq<Action>, s: State)
    requires Gapped(slots) && n <= LOCK_SET
    ensures Initial(Quiet(slots, 0)) && Run(Quiet(slots, 0), acts, s) && s == Quiet(slots, n)
  {
    hide Gapped;
    assert Free(Quiet(slots, 0));
    if n == 0 {
      acts, s := [], Quiet(slots, 0);
    } else {
      acts, s := ReleaseRun(slots, n - 1);
      acts, s := OneRelease(Quiet(slots, 0), acts, slots, n - 1);
    }
  }
}
