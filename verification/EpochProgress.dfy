// Retired nodes can be freed.
module EpochProgress {
  // With no other thread inside, a thread can advance the global epoch, and by that have everything freed that
  // it has retired.

  import opened Epoch

  lemma Next(init: State, acts: seq<Action>, r: State, a: Action) returns (more: seq<Action>, p: State)
    requires Run(init, acts, r) && Enabled(r, a)
    ensures Run(init, more, p) && p == Do(r, a)
  {
    more, p := acts + [a], Do(r, a);
    assert more[..|more| - 1] == acts && Takes(r, a, p);
    assert RunThen(init, acts, a, p);
  }

  // Nobody but t is inside, and t's thread data are in order.
  ghost predicate Quiet(s: State, t: Tid) {
    && t < |s.threads| && 0 <= s.global < 3 && |s.threads[t].lists| == 3
    && forall u :: 0 <= u < |s.threads| && u != t ==> s.threads[u].pc.Out? && s.threads[u].local == OUTSIDE
  }

  // What t has retired and not freed yet stays in its list, or is freed.
  ghost predicate Kept(r: State, p: State, t: Tid) {
    && t < |r.threads| == |p.threads| && |r.threads[t].lists| == |p.threads[t].lists| == 3 && r.freed <= p.freed
    && forall k :: 0 <= k < 3 ==> KeptIn(r.threads[t].lists[k], p.threads[t].lists[k], p.freed)
  }

  ghost predicate KeptIn(x: seq<Node>, y: seq<Node>, freed: set<Node>) { forall n :: n in x ==> n in y || n in freed }

  lemma KeptTrans(r: State, q: State, p: State, t: Tid)
    requires Kept(r, q, t) && Kept(q, p, t)
    ensures Kept(r, p, t)
  {
    forall k | 0 <= k < 3 ensures KeptIn(r.threads[t].lists[k], p.threads[t].lists[k], p.freed) {
      assert KeptIn(r.threads[t].lists[k], q.threads[t].lists[k], q.freed) && KeptIn(q.threads[t].lists[k], p.threads[t].lists[k], p.freed);
    }
  }

  // A step of t.
  lemma OwnStep(s: State, a: Action, t: Tid)
    requires Quiet(s, t) && a.t == t && Enabled(s, a) && (a.Retire? ==> 0 <= s.threads[t].local < 3)
    ensures Quiet(Do(s, a), t) && Kept(s, Do(s, a), t)
    ensures a.Enter? && s.threads[t].previous != s.global ==> forall n :: n in s.threads[t].lists[s.global] ==> n in Do(s, a).freed
  {
  }

  // Nobody stands in the way of the checks.
  lemma {:induction false} Checks(init: State, acts: seq<Action>, s: State, t: Tid) returns (more: seq<Action>, p: State)
    requires Run(init, acts, s) && Quiet(s, t) && s.threads[t].pc.Check? && s.threads[t].pc.i <= |s.threads|
    requires s.threads[t].pc.epoch == s.threads[t].local == s.global
    ensures Run(init, more, p) && Quiet(p, t) && Kept(s, p, t)
    ensures p.global == NextEpoch(s.global) && p.threads[t] == s.threads[t].(pc := In)
    decreases |s.threads| - s.threads[t].pc.i
  {
    hide Run, Kept;
    var i := s.threads[t].pc.i;
    var a := if i < |s.threads| then CheckOne(t) else Cas(t);
    OwnStep(s, a, t);
    more, p := Next(init, acts, s, a);
    if i < |s.threads| {
      var q := p;
      more, p := Checks(init, more, q, t);
      KeptTrans(s, q, p, t);
    }
  }

  // Going inside: the global epoch advances if the thread has asked for it, in this epoch.
  lemma Enters(init: State, acts: seq<Action>, s: State, t: Tid) returns (more: seq<Action>, p: State)
    requires Run(init, acts, s) && Quiet(s, t) && s.threads[t].pc.Out?
    ensures Run(init, more, p) && Quiet(p, t) && Kept(s, p, t) && p.threads[t].pc.In? && p.threads[t].local == p.threads[t].previous == s.global
    ensures p.global == if s.threads[t].wants && s.threads[t].previous == s.global then NextEpoch(s.global) else s.global
    ensures s.threads[t].previous != s.global ==> forall n :: n in s.threads[t].lists[s.global] ==> n in p.freed
  {
    hide Run, Kept;
    OwnStep(s, Enter(t), t);
    more, p := Next(init, acts, s, Enter(t));
    if p.threads[t].pc.Check? {
      var q := p;
      more, p := Checks(init, more, q, t);
      KeptTrans(s, q, p, t);
    }
    assert Kept(s, p, t);
    FreedStay(s, p, t);
  }

  lemma FreedStay(r: State, p: State, t: Tid)
    requires Kept(r, p, t)
    ensures r.freed <= p.freed
  {
  }

  lemma {:induction false} FreshNode(xs: set<Node>) returns (n: Node)
    ensures forall x | x in xs :: x < n
    decreases xs
  {
    n := 0;
    if xs != {} {
      var x :| x in xs;
      n := FreshNode(xs - {x});
      assert xs == (xs - {x}) + {x};
      n := if n <= x then x + 1 else n;
    }
  }

  // Retiring nodes until the thread asks for the epoch to advance: when the list of this epoch has a multiple
  // of 64.
  lemma {:induction false} Asks(init: State, acts: seq<Action>, s: State, t: Tid) returns (more: seq<Action>, p: State)
    requires Run(init, acts, s) && Quiet(s, t) && s.threads[t].pc.In? && 0 <= s.threads[t].local < 3
    ensures Run(init, more, p) && Quiet(p, t) && Kept(s, p, t) && p.global == s.global
    ensures p.threads[t] == s.threads[t].(wants := true, lists := p.threads[t].lists)
    ensures |more| == |acts| + if s.threads[t].wants then 0 else 64 - |s.threads[t].lists[s.threads[t].local]| % 64
    decreases 64 - |s.threads[t].lists[s.threads[t].local]| % 64
  {
    hide Run, Kept;
    more, p := acts, s;
    KeptSelf(s, t);
    if !s.threads[t].wants {
      var x := FreshNode(s.holders.Keys);
      OwnStep(s, Retire(t, x), t);
      var own := acts + [Retire(t, x)];
      OneMore(init, acts, s, Retire(t, x));
      more, p := own, Do(s, Retire(t, x));
      if !p.threads[t].wants {
        var q := p;
        more, p := Asks(init, own, q, t);
        KeptTrans(s, q, p, t);
      }
    }
  }

  lemma OneMore(init: State, acts: seq<Action>, r: State, a: Action)
    requires Run(init, acts, r) && Enabled(r, a)
    ensures Run(init, acts + [a], Do(r, a))
  {
    var more := acts + [a];
    assert more[..|more| - 1] == acts && Takes(r, a, Do(r, a));
    assert RunThen(init, acts, a, Do(r, a));
  }

  lemma KeptSelf(s: State, t: Tid)
    requires t < |s.threads| && |s.threads[t].lists| == 3
    ensures Kept(s, s, t)
  {
  }

  lemma Leaves(init: State, acts: seq<Action>, s: State, t: Tid) returns (more: seq<Action>, p: State)
    requires Run(init, acts, s) && Quiet(s, t) && s.threads[t].pc.In?
    ensures Run(init, more, p) && Quiet(p, t) && Kept(s, p, t) && p.global == s.global
    ensures p.threads[t] == s.threads[t].(local := OUTSIDE, pc := Out)
  {
    hide Run, Kept;
    OwnStep(s, Leave(t), t);
    more, p := Next(init, acts, s, Leave(t));
  }

  // The global epoch advances by one.
  lemma AdvancesAlone(init: State, acts: seq<Action>, s: State, t: Tid) returns (more: seq<Action>, p: State)
    requires Run(init, acts, s) && Quiet(s, t) && s.threads[t].pc.Out?
    ensures Run(init, more, p) && Quiet(p, t) && Kept(s, p, t) && p.threads[t].pc.Out?
    ensures p.global == NextEpoch(s.global) && p.threads[t].previous == s.global
    ensures s.threads[t].previous != s.global ==> forall n :: n in s.threads[t].lists[s.global] ==> n in p.freed
  {
    hide Run, Kept;
    var q;
    more, q := Enters(init, acts, s, t);
    if q.global == s.global {
      var r;
      more, r := Asks(init, more, q, t);
      KeptTrans(s, q, r, t);
      FreedStay(q, r, t);
      more, q := Leaves(init, more, r, t);
      KeptTrans(s, r, q, t);
      FreedStay(r, q, t);
      more, r := Enters(init, more, q, t);
      KeptTrans(s, q, r, t);
      FreedStay(q, r, t);
      q := r;
    }
    more, p := Leaves(init, more, q, t);
    KeptTrans(s, q, p, t);
    FreedStay(q, p, t);
  }

  // From any state of any run in which all threads are outside, a thread can go on alone so that everything
  // it had retired is freed.
  lemma FreesAll(init: State, acts: seq<Action>, s: State, t: Tid) returns (more: seq<Action>, p: State)
    requires Initial(init) && Run(init, acts, s) && t < |s.threads| && forall u :: 0 <= u < |s.threads| ==> s.threads[u].pc.Out?
    ensures Run(init, more, p) && |s.threads[t].lists| == 3
    ensures forall k, n :: 0 <= k < 3 && n in s.threads[t].lists[k] ==> n in p.freed
  {
    hide Run, Initial, Kept;
    AllOut(init, acts, s, t);
    var q1, q2, q3;
    more, q1 := AdvancesAlone(init, acts, s, t);
    more, q2 := AdvancesAlone(init, more, q1, t);
    more, q3 := AdvancesAlone(init, more, q2, t);
    more, p := AdvancesAlone(init, more, q3, t);
    KeptTrans(q2, q3, p, t);
    KeptTrans(q1, q2, p, t);
    FreedStay(q3, p, t);
    FreedStay(q2, p, t);
    forall k, n | 0 <= k < 3 && n in s.threads[t].lists[k] ensures n in p.freed {
      KeptAt(s, q1, t, k, n);
      KeptAt(q1, q2, t, k, n);
      KeptAt(q2, q3, t, k, n);
      FreedStay(q1, p, t);
    }
  }

  lemma KeptAt(r: State, p: State, t: Tid, k: nat, n: Node)
    requires Kept(r, p, t) && k < 3
    ensures n in r.threads[t].lists[k] ==> n in p.threads[t].lists[k] || n in p.freed
    ensures r.freed <= p.freed
  {
    assert KeptIn(r.threads[t].lists[k], p.threads[t].lists[k], p.freed);
  }

  lemma AllOut(init: State, acts: seq<Action>, s: State, t: Tid)
    requires Initial(init) && Run(init, acts, s) && t < |s.threads| && forall u :: 0 <= u < |s.threads| ==> s.threads[u].pc.Out?
    ensures Quiet(s, t)
  {
    hide Run, Initial, CheckedOk, ListedOk, HolderOk;
    var g := RunRefines(init, acts, s);
    forall u | 0 <= u < |s.threads| ensures s.threads[u].local == OUTSIDE {
      assert ThreadOk(s, g, u);
    }
    assert ThreadOk(s, g, t);
  }
}
