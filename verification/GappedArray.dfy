// The gapped sorted array of a data node as a value: slots that hold real keys, and gaps that repeat
// the next real key, or the end sentinel if there is none.
module GappedArray {

  // The largest 64-bit key. No real key equals it.
  const END_SENTINEL: int := 0xFFFF_FFFF_FFFF_FFFF

  datatype Slot = Slot(key: int, payload: int, used: bool)

  type Entry = (int, int)

  // ----- The gapped-array invariant -----

  predicate SlotOk(s: Slot, next: int) {
    if s.used then s.key < next else s.key == next
  }

  function FirstKey(v: seq<Slot>, end: int): int { if v == [] then end else v[0].key }

  predicate OkAt(v: seq<Slot>, end: int, i: int)
    requires 0 <= i < |v|
  {
    SlotOk(v[i], if i + 1 < |v| then v[i + 1].key else end)
  }

  // The slots of v are right if the slot after them holds the key `end`.
  ghost predicate GappedTo(v: seq<Slot>, end: int) {
    forall i :: 0 <= i < |v| ==> OkAt(v, end, i)
  }

  ghost predicate Gapped(v: seq<Slot>) { GappedTo(v, END_SENTINEL) }

  // The real entries, in order.
  function Entries(v: seq<Slot>): seq<Entry> {
    if v == [] then [] else (if v[0].used then [(v[0].key, v[0].payload)] else []) + Entries(v[1..])
  }

  lemma GappedConcat(a: seq<Slot>, b: seq<Slot>, end: int)
    ensures GappedTo(a + b, end) <==> GappedTo(a, FirstKey(b, end)) && GappedTo(b, end)
  {
    var v := a + b;
    var mid := FirstKey(b, end);
    assert forall i :: 0 <= i < |a| ==> OkAt(a, mid, i) == OkAt(v, end, i);
    assert forall i :: 0 <= i < |b| ==> OkAt(b, end, i) == OkAt(v, end, |a| + i);
    if GappedTo(a, mid) && GappedTo(b, end) {
      forall i | 0 <= i < |v| ensures OkAt(v, end, i) {
        if i >= |a| {
          assert OkAt(b, end, i - |a|);
        } else {
          assert OkAt(a, mid, i);
        }
      }
    }
  }

  lemma {:induction false} EntriesConcat(a: seq<Slot>, b: seq<Slot>)
    ensures Entries(a + b) == Entries(a) + Entries(b)
  {
    if a == [] {
      assert a + b == b;
    } else {
      assert (a + b)[1..] == a[1..] + b;
      EntriesConcat(a[1..], b);
      Regroup(Entries([a[0]]), Entries(a[1..]), Entries(b));
      EntriesOne(a[0]);
    }
  }

  lemma Regroup(a: seq<Entry>, b: seq<Entry>, c: seq<Entry>)
    ensures a + (b + c) == a + b + c
  {
  }

  lemma EntriesOne(s: Slot)
    ensures Entries([s]) == if s.used then [(s.key, s.payload)] else []
  {
    assert [s][1..] == [];
  }

  lemma KeysGrow(v: seq<Slot>, end: int, i: int, j: int)
    requires GappedTo(v, end) && 0 <= i <= j <= |v|
    ensures FirstKey(v[i..], end) <= FirstKey(v[j..], end)
    decreases j - i
  {
    if i < j {
      KeysGrow(v, end, i + 1, j);
      assert OkAt(v, end, i);
    }
  }

  ghost predicate Ordered(e: seq<Entry>) { forall i, j :: 0 <= i < j < |e| ==> e[i].0 < e[j].0 }

  ghost predicate KeysIn(e: seq<Entry>, lo: int, hi: int) { forall i :: 0 <= i < |e| ==> lo <= e[i].0 < hi }

  // The entries of a gapped array are strictly ordered by key.
  lemma {:induction false} EntriesOrdered(v: seq<Slot>, end: int)
    requires GappedTo(v, end)
    ensures Ordered(Entries(v)) && KeysIn(Entries(v), FirstKey(v, end), end)
    ensures FirstKey(v, end) <= end
  {
    if v != [] {
      assert [v[0]] + v[1..] == v;
      GappedConcat([v[0]], v[1..], end);
      EntriesOrdered(v[1..], end);
      assert OkAt(v, end, 0);
    }
  }

  // ----- Entries as a finite map -----

  function ToMap(e: seq<Entry>): map<int, int> {
    if e == [] then map[] else ToMap(e[1..])[e[0].0 := e[0].1]
  }

  // The map has exactly the entries, and as many of them.
  lemma {:induction false} MapHolds(e: seq<Entry>)
    requires Ordered(e)
    ensures forall i :: 0 <= i < |e| ==> e[i].0 in ToMap(e) && ToMap(e)[e[i].0] == e[i].1
    ensures forall k | k in ToMap(e) :: exists i :: 0 <= i < |e| && e[i].0 == k
    ensures |ToMap(e)| == |e|
    decreases |e|, 0
  {
    if e != [] {
      assert forall i :: 0 <= i < |e| - 1 ==> e[1..][i] == e[i + 1];
      NotInTail(e);
      MapHolds(e[1..]);
      forall i | 0 <= i < |e| ensures e[i].0 in ToMap(e) && ToMap(e)[e[i].0] == e[i].1 {
        if i > 0 { assert e[i] == e[1..][i - 1] && e[0].0 < e[i].0; }
      }
      forall k | k in ToMap(e) ensures exists i :: 0 <= i < |e| && e[i].0 == k {
        if k != e[0].0 {
          var i :| 0 <= i < |e| - 1 && e[1..][i].0 == k;
          assert e[i + 1].0 == k;
        }
      }
      assert ToMap(e).Keys == ToMap(e[1..]).Keys + {e[0].0};
    }
  }

  // With and without one entry.
  lemma {:induction false} MapWith(a: seq<Entry>, k: int, x: int, b: seq<Entry>)
    requires Ordered(a + [(k, x)] + b)
    ensures ToMap(a + [(k, x)] + b) == ToMap(a + b)[k := x]
    ensures k !in ToMap(a + b) && ToMap(a + b) == ToMap(a + [(k, x)] + b) - {k}
  {
    var e := a + [(k, x)] + b;
    if a == [] {
      assert e[1..] == b && a + b == b;
      NotInTail(e);
    } else {
      assert e[1..] == a[1..] + [(k, x)] + b && (a + b)[1..] == a[1..] + b;
      assert forall i :: 0 <= i < |e| - 1 ==> e[1..][i] == e[i + 1];
      MapWith(a[1..], k, x, b);
      assert e[0].0 < e[|a|].0;
    }
  }

  lemma NotInTail(e: seq<Entry>)
    requires e != [] && Ordered(e)
    ensures e[0].0 !in ToMap(e[1..])
    decreases |e| - 1, 1
  {
    assert forall i :: 0 <= i < |e| - 1 ==> e[1..][i] == e[i + 1];
    MapHolds(e[1..]);
  }

  // ----- Lookup -----

  // What a scan from the left finds: the first slot whose key is greater than k.
  function FirstGreater(v: seq<Slot>, k: int): (r: nat)
    ensures r <= |v| && (forall i :: 0 <= i < r ==> v[i].key <= k) && (r < |v| ==> v[r].key > k)
  {
    if v == [] || v[0].key > k then 0 else 1 + FirstGreater(v[1..], k)
  }

  // The first slot whose key is not less than k.
  function FirstNotLess(v: seq<Slot>, k: int): (r: nat)
    ensures r <= |v| && (forall i :: 0 <= i < r ==> v[i].key < k) && (r < |v| ==> v[r].key >= k)
  {
    if v == [] || v[0].key >= k then 0 else 1 + FirstNotLess(v[1..], k)
  }

  // The slot before the first greater key tells whether k is present, and holds its payload.
  lemma LookupAt(v: seq<Slot>, k: int)
    requires Gapped(v) && k < END_SENTINEL
    ensures var r := FirstGreater(v, k);
            && (k in ToMap(Entries(v)) <==> r > 0 && v[r - 1].key == k)
            && (r > 0 ==> v[r - 1].used)
            && (k in ToMap(Entries(v)) ==> ToMap(Entries(v))[k] == v[r - 1].payload)
  {
    hide Entries, ToMap, GappedTo, FirstGreater;
    var r := FirstGreater(v, k);
    EntriesOrdered(v, END_SENTINEL);
    MapHolds(Entries(v));
    if r > 0 {
      SplitAt(v, r);
      var e, b := Entries(v[..r - 1]), Entries(v[r..]);
      assert Entries(v)[|e|] == (v[r - 1].key, v[r - 1].payload);
      forall i | |e| < i < |Entries(v)| ensures Entries(v)[i].0 > k {
        assert Entries(v)[i] == b[i - |e| - 1];
      }
    }
  }

  lemma SplitAt(v: seq<Slot>, r: nat)
    requires Gapped(v) && 1 <= r <= |v| && v[r - 1].key < FirstKey(v[r..], END_SENTINEL)
    ensures v[r - 1].used
    ensures Entries(v) == Entries(v[..r - 1]) + [(v[r - 1].key, v[r - 1].payload)] + Entries(v[r..])
    ensures KeysIn(Entries(v[r..]), FirstKey(v[r..], END_SENTINEL), END_SENTINEL)
  {
    hide Entries;
    var a, s, b := v[..r - 1], v[r - 1], v[r..];
    assert v[..r] == a + [s];
    assert v == a + [s] + b;
    assert OkAt(v, END_SENTINEL, r - 1);
    EntriesSplit(a, s, b);
    GappedConcat(a + [s], b, END_SENTINEL);
    EntriesOrdered(b, END_SENTINEL);
  }

  lemma EntriesSplit(a: seq<Slot>, s: Slot, b: seq<Slot>)
    ensures Entries(a + [s] + b) == Entries(a) + (if s.used then [(s.key, s.payload)] else []) + Entries(b)
  {
    hide Entries;
    EntriesConcat(a + [s], b);
    EntriesConcat(a, [s]);
    EntriesOne(s);
  }

  // ----- Insertion -----

  // Overwriting the gaps at the end of a with the key k.
  function Fill(a: seq<Slot>, k: int): (b: seq<Slot>)
    ensures |b| == |a|
  {
    if a == [] || a[|a| - 1].used then a else Fill(a[..|a| - 1], k) + [a[|a| - 1].(key := k)]
  }

  // Where the entry (k, x) lands between a and b, with the gaps before it overwritten.
  function Placed(a: seq<Slot>, k: int, x: int, b: seq<Slot>): seq<Slot> { Fill(a, k) + [Slot(k, x, true)] + b }

  ghost predicate UsedBelow(a: seq<Slot>, k: int) { forall i :: 0 <= i < |a| && a[i].used ==> a[i].key < k }

  lemma {:induction false} FillEntries(a: seq<Slot>, k: int)
    ensures Entries(Fill(a, k)) == Entries(a)
  {
    if a != [] && !a[|a| - 1].used {
      var c, s := a[..|a| - 1], a[|a| - 1];
      assert a == c + [s];
      FillEntries(c, k);
      EntriesConcat(c, [s]);
      EntriesConcat(Fill(c, k), [s.(key := k)]);
      EntriesOne(s);
      EntriesOne(s.(key := k));
    }
  }

  lemma {:induction false} FillGapped(a: seq<Slot>, k: int, end: int)
    requires GappedTo(a, end) && UsedBelow(a, k)
    ensures GappedTo(Fill(a, k), k)
  {
    if a != [] {
      var c, s := a[..|a| - 1], a[|a| - 1];
      assert a == c + [s];
      GappedConcat(c, [s], end);
      if s.used {
        GappedConcat(c, [s], k);
      } else {
        FillGapped(c, k, s.key);
        GappedConcat(Fill(c, k), [s.(key := k)], k);
      }
    }
  }

  // Fill slot by slot: it stops at the last real slot.
  lemma {:induction false} FillIs(a: seq<Slot>, k: int, j: nat, b: seq<Slot>)
    requires |b| == |a| && j <= |a| && (j > 0 ==> a[j - 1].used)
    requires forall i :: 0 <= i < |a| ==> b[i] == if i < j then a[i] else a[i].(key := k)
    requires forall i :: j <= i < |a| ==> !a[i].used
    ensures Fill(a, k) == b
    decreases |a|
  {
    if j == |a| {
      assert b == a;
    } else {
      FillIs(a[..|a| - 1], k, j, b[..|a| - 1]);
      assert b == b[..|a| - 1] + [a[|a| - 1].(key := k)];
    }
  }

  // A new entry between a and b, where all real keys of a are smaller and those of b greater.
  lemma PlacedGapped(a: seq<Slot>, k: int, x: int, b: seq<Slot>)
    requires Gapped(a + b) && UsedBelow(a, k) && k < FirstKey(b, END_SENTINEL)
    ensures Gapped(Placed(a, k, x, b))
    ensures Entries(Placed(a, k, x, b)) == Entries(a) + [(k, x)] + Entries(b)
    ensures k !in ToMap(Entries(a + b)) && ToMap(Entries(Placed(a, k, x, b))) == ToMap(Entries(a + b))[k := x]
  {
    hide Entries, ToMap, Fill, GappedTo;
    var f, n := Fill(a, k), [Slot(k, x, true)];
    GappedConcat(a, b, END_SENTINEL);
    FillGapped(a, k, FirstKey(b, END_SENTINEL));
    OneGapped(n[0], FirstKey(b, END_SENTINEL));
    GappedConcat(f, n, FirstKey(b, END_SENTINEL));
    GappedConcat(f + n, b, END_SENTINEL);
    EntriesSplit(f, n[0], b);
    FillEntries(a, k);
    EntriesConcat(a, b);
    EntriesOrdered(Placed(a, k, x, b), END_SENTINEL);
    MapWith(Entries(a), k, x, Entries(b));
  }

  lemma OneGapped(s: Slot, end: int)
    ensures GappedTo([s], end) <==> SlotOk(s, end)
  {
    assert GappedTo([s], end) ==> OkAt([s], end, 0);
  }

  // An absent key splits the slots into those with smaller and those with greater keys.
  lemma AbsentKey(v: seq<Slot>, k: int)
    requires Gapped(v) && k < END_SENTINEL && k !in ToMap(Entries(v))
    ensures var r := FirstGreater(v, k);
            (forall i :: 0 <= i < r ==> v[i].key < k) && (forall i :: r <= i < |v| ==> v[i].key > k)
  {
    hide Entries, ToMap, GappedTo;
    var r := FirstGreater(v, k);
    LookupAt(v, k);
    forall i | 0 <= i < r ensures v[i].key < k {
      KeysGrow(v, END_SENTINEL, i, r - 1);
    }
    forall i | r <= i < |v| ensures v[i].key > k {
      KeysGrow(v, END_SENTINEL, r, i);
    }
  }

  function RemoveAt(v: seq<Slot>, g: nat): (u: seq<Slot>)
    requires g < |v|
    ensures |u| == |v| - 1
  {
    v[..g] + v[g + 1..]
  }

  // Where an insertion may put an absent key: at the first greater key or in the gaps from there,
  // using the gap itself or a gap somewhere else.
  ghost predicate GoodPlace(v: seq<Slot>, k: int, at: int, g: int) {
    && 0 <= g < |v| && 0 <= at < |v| && !v[g].used
    && var r := FirstGreater(v, k);
       (at == g >= r && forall i :: r <= i < at ==> !v[i].used) || at == if g >= r then r else r - 1
  }

  lemma InsertedGapped(v: seq<Slot>, k: int, x: int, at: int, g: int)
    requires Gapped(v) && k < END_SENTINEL && k !in ToMap(Entries(v)) && GoodPlace(v, k, at, g)
    ensures var u := RemoveAt(v, g); var w := Placed(u[..at], k, x, u[at..]);
            && |w| == |v| && w[at] == Slot(k, x, true)
            && Gapped(w) && ToMap(Entries(w)) == ToMap(Entries(v))[k := x] && |Entries(w)| == |Entries(v)| + 1
  {
    hide Entries, ToMap, GappedTo, Fill, UsedBelow, FirstGreater;
    var u := RemoveAt(v, g);
    assert v == v[..g] + [v[g]] + v[g + 1..];
    WithoutGap(v[..g], v[g], v[g + 1..], END_SENTINEL);
    AbsentKey(v, k);
    assert u == u[..at] + u[at..];
    PlaceSplits(v, k, at, g);
    PlacedGapped(u[..at], k, x, u[at..]);
    EntriesConcat(u[..at], u[at..]);
  }

  lemma PlaceSplits(v: seq<Slot>, k: int, at: int, g: int)
    requires Gapped(v) && k < END_SENTINEL && GoodPlace(v, k, at, g)
    requires var r := FirstGreater(v, k);
             (forall i :: 0 <= i < r ==> v[i].key < k) && (forall i :: r <= i < |v| ==> v[i].key > k)
    ensures var u := RemoveAt(v, g); UsedBelow(u[..at], k) && k < FirstKey(u[at..], END_SENTINEL)
  {
    hide GappedTo, Entries;
    var u := RemoveAt(v, g);
    var r := FirstGreater(v, k);
    forall i | 0 <= i < at && u[i].used ensures u[i].key < k {
      assert u[i] == v[if i < g then i else i + 1];
    }
    if at < |u| {
      assert u[at] == v[if at < g then at else at + 1];
    }
  }

  // Taking out a gap.
  lemma WithoutGap(a: seq<Slot>, g: Slot, b: seq<Slot>, end: int)
    requires GappedTo(a + [g] + b, end) && !g.used
    ensures GappedTo(a + b, end) && Entries(a + b) == Entries(a + [g] + b)
    ensures g.key == FirstKey(b, end)
  {
    hide Entries;
    GappedConcat(a + [g], b, end);
    GappedConcat(a, [g], FirstKey(b, end));
    OneGapped(g, FirstKey(b, end));
    GappedConcat(a, b, end);
    EntriesSplit(a, g, b);
    EntriesConcat(a, b);
    assert Entries(a) + [] == Entries(a);
  }

  // ----- Erasing -----

  // Turning the slots with key k at the end of a into gaps with the key `next`.
  function Cleared(a: seq<Slot>, k: int, next: int): (b: seq<Slot>)
    ensures |b| == |a|
  {
    if a == [] || a[|a| - 1].key != k then a
    else Cleared(a[..|a| - 1], k, next) + [Slot(next, a[|a| - 1].payload, false)]
  }

  // Cleared slot by slot: it stops at the last other key.
  lemma {:induction false} ClearedIs(a: seq<Slot>, k: int, next: int, j: nat, b: seq<Slot>)
    requires |b| == |a| && j <= |a| && (j > 0 ==> a[j - 1].key != k)
    requires forall i :: 0 <= i < |a| ==> b[i] == if i < j then a[i] else Slot(next, a[i].payload, false)
    requires forall i :: j <= i < |a| ==> a[i].key == k
    ensures Cleared(a, k, next) == b
    decreases |a|
  {
    if j == |a| {
      assert b == a;
    } else {
      ClearedIs(a[..|a| - 1], k, next, j, b[..|a| - 1]);
      assert b == b[..|a| - 1] + [Slot(next, a[|a| - 1].payload, false)];
    }
  }

  function UsedIn(a: seq<Slot>): nat {
    if a == [] then 0 else (if a[|a| - 1].used then 1 else 0) + UsedIn(a[..|a| - 1])
  }

  lemma {:induction false} UsedInIs(a: seq<Slot>)
    ensures UsedIn(a) == |Entries(a)|
  {
    if a != [] {
      var c, s := a[..|a| - 1], a[|a| - 1];
      assert a == c + [s];
      UsedInIs(c);
      EntriesConcat(c, [s]);
      EntriesOne(s);
    }
  }

  // Clearing gaps only: no entry is lost.
  lemma {:induction false} ClearGaps(a: seq<Slot>, k: int, next: int)
    requires GappedTo(a, k) && k <= next
    ensures GappedTo(Cleared(a, k, next), next) && Entries(Cleared(a, k, next)) == Entries(a)
  {
    if a != [] {
      var c, s := a[..|a| - 1], a[|a| - 1];
      assert a == c + [s];
      GappedConcat(c, [s], k);
      OneGapped(s, k);
      if s.key == k {
        ClearGaps(c, k, next);
        var t := Slot(next, s.payload, false);
        OneGapped(t, next);
        GappedConcat(Cleared(c, k, next), [t], next);
        EntriesConcat(c, [s]);
        EntriesConcat(Cleared(c, k, next), [t]);
        EntriesOne(s);
        EntriesOne(t);
      } else {
        OneGapped(s, next);
        GappedConcat(c, [s], next);
      }
    }
  }

  // Clearing the slots of a present key, the last of them real, takes out its entry and no other.
  lemma ClearedGapped(a: seq<Slot>, k: int, b: seq<Slot>)
    requires Gapped(a + b) && a != [] && a[|a| - 1].key == k < FirstKey(b, END_SENTINEL)
    ensures var v := Cleared(a, k, FirstKey(b, END_SENTINEL)) + b;
            && Gapped(v) && k in ToMap(Entries(a + b)) && ToMap(Entries(v)) == ToMap(Entries(a + b)) - {k}
            && |Entries(v)| == |Entries(a + b)| - 1
  {
    hide Entries, ToMap, GappedTo;
    var next := FirstKey(b, END_SENTINEL);
    var c, s := a[..|a| - 1], a[|a| - 1];
    assert a == c + [s];
    GappedConcat(a, b, END_SENTINEL);
    GappedConcat(c, [s], next);
    OneGapped(s, next);
    ClearGaps(c, k, next);
    var t := Slot(next, s.payload, false);
    OneGapped(t, next);
    GappedConcat(Cleared(c, k, next), [t], next);
    GappedConcat(Cleared(c, k, next) + [t], b, END_SENTINEL);
    EntriesSplit(c, s, b);
    EntriesSplit(Cleared(c, k, next), t, b);
    EntriesOrdered(a + b, END_SENTINEL);
    MapHolds(Entries(a + b));
    assert Entries(a + b)[|Entries(c)|].0 == k;
    MapWith(Entries(c), k, s.payload, Entries(b));
    assert Entries(c) + [] == Entries(c);
  }

  // ----- Overwriting a payload -----

  lemma UpdatedGapped(a: seq<Slot>, s: Slot, b: seq<Slot>, x: int)
    requires Gapped(a + [s] + b) && s.used
    ensures var v := a + [s.(payload := x)] + b;
            && Gapped(v) && ToMap(Entries(v)) == ToMap(Entries(a + [s] + b))[s.key := x]
            && |Entries(v)| == |Entries(a + [s] + b)|
  {
    hide Entries, ToMap;
    var v, w := a + [s.(payload := x)] + b, a + [s] + b;
    forall i | 0 <= i < |v| ensures OkAt(v, END_SENTINEL, i) {
      assert OkAt(w, END_SENTINEL, i);
    }
    EntriesSplit(a, s, b);
    EntriesSplit(a, s.(payload := x), b);
    EntriesOrdered(v, END_SENTINEL);
    EntriesOrdered(w, END_SENTINEL);
    MapWith(Entries(a), s.key, s.payload, Entries(b));
    MapWith(Entries(a), s.key, x, Entries(b));
  }

  // ----- Building -----

  ghost predicate GapsOf(g: seq<Slot>, k: int) { forall i :: 0 <= i < |g| ==> g[i].key == k && !g[i].used }

  lemma {:induction false} GapsGapped(g: seq<Slot>, k: int)
    requires GapsOf(g, k)
    ensures GappedTo(g, k) && Entries(g) == []
  {
    if g != [] {
      assert GapsOf(g[1..], k);
      GapsGapped(g[1..], k);
    }
  }

  // One more real key behind gaps that repeat it.
  lemma Extend(a: seq<Slot>, g: seq<Slot>, s: Slot, next: int)
    requires GappedTo(a, s.key) && GapsOf(g, s.key) && s.used && s.key < next
    ensures GappedTo(a + g + [s], next) && Entries(a + g + [s]) == Entries(a) + [(s.key, s.payload)]
  {
    hide Entries, GappedTo;
    GapsGapped(g, s.key);
    GappedConcat(a, g, s.key);
    OneGapped(s, next);
    GappedConcat(a + g, [s], next);
    EntriesConcat(a + g, [s]);
    EntriesConcat(a, g);
    EntriesOne(s);
    assert Entries(a) + [] == Entries(a);
  }

  // A partly built array: the slots up to `last` hold the entries e, the next of which will have the
  // key `next`, and no later slot is marked as real.
  ghost predicate Holding(v: seq<Slot>, last: int, e: seq<Entry>, next: int) {
    && -1 <= last < |v| && GappedTo(v[..last + 1], next) && Entries(v[..last + 1]) == e
    && forall i :: last < i < |v| ==> !v[i].used
  }

  lemma HoldingMore(v: seq<Slot>, last: int, e: seq<Entry>, w: seq<Slot>, position: int, s: Slot, next: int)
    requires Holding(v, last, e, s.key) && last < position < |v| == |w| && s.used && s.key < next
    requires forall i :: 0 <= i <= last ==> w[i] == v[i]
    requires forall i :: last < i < position ==> w[i].key == s.key && !w[i].used
    requires w[position] == s && forall i :: position < i < |w| ==> !w[i].used
    ensures Holding(w, position, e + [(s.key, s.payload)], next)
  {
    hide GappedTo, Entries;
    var a, g := v[..last + 1], w[last + 1..position];
    assert w[..position + 1] == a + g + [s];
    Extend(a, g, s, next);
  }

  lemma HoldingAll(v: seq<Slot>, last: int, e: seq<Entry>, w: seq<Slot>)
    requires Holding(v, last, e, END_SENTINEL) && |w| == |v|
    requires forall i :: 0 <= i <= last ==> w[i] == v[i]
    requires forall i :: last < i < |w| ==> w[i].key == END_SENTINEL && !w[i].used
    ensures Gapped(w) && Entries(w) == e
  {
    hide GappedTo, Entries;
    var a, g := v[..last + 1], w[last + 1..];
    assert w == a + g;
    GapsGapped(g, END_SENTINEL);
    GappedConcat(a, g, END_SENTINEL);
    EntriesConcat(a, g);
    assert e + [] == e;
  }

  // ----- Cutting -----

  // The slots between the first ones not less than x and not less than y hold the entries with keys
  // from x up to y. (A cut at any number is one at the next integer.)
  lemma SliceBetween(v: seq<Slot>, x: int, y: int)
    requires Gapped(v) && x <= y
    ensures FirstNotLess(v, x) <= FirstNotLess(v, y)
    ensures var e := Entries(v[FirstNotLess(v, x)..FirstNotLess(v, y)]);
            forall i :: 0 <= i < |e| ==> x <= e[i].0 < y
    ensures Entries(v) == Entries(v[..FirstNotLess(v, x)]) + Entries(v[FirstNotLess(v, x)..FirstNotLess(v, y)])
                          + Entries(v[FirstNotLess(v, y)..])
    ensures forall i :: 0 <= i < |Entries(v[..FirstNotLess(v, x)])| ==> Entries(v[..FirstNotLess(v, x)])[i].0 < x
    ensures forall i :: 0 <= i < |Entries(v[FirstNotLess(v, y)..])| ==> Entries(v[FirstNotLess(v, y)..])[i].0 >= y
  {
    hide Entries, GappedTo, FirstNotLess;
    var l, r := FirstNotLess(v, x), FirstNotLess(v, y);
    assert r < |v| ==> v[r].key >= y;
    assert forall i :: 0 <= i < l ==> v[i].key < y;
    assert l <= r;
    assert v == v[..l] + v[l..r] + v[r..];
    EntriesConcat(v[..l] + v[l..r], v[r..]);
    EntriesConcat(v[..l], v[l..r]);
    KeysOf(v, 0, l);
    KeysOf(v, l, r);
    KeysOf(v, r, |v|);
    assert v[r..|v|] == v[r..] && v[0..l] == v[..l];
    forall i | l <= i < r ensures x <= v[i].key < y {
      KeysGrow(v, END_SENTINEL, l, i);
    }
    forall i | r <= i < |v| ensures v[i].key >= y {
      KeysGrow(v, END_SENTINEL, r, i);
    }
  }

  // Each entry of a slice is that of a slot in it.
  lemma {:induction false} KeysOf(v: seq<Slot>, l: nat, r: nat)
    requires l <= r <= |v|
    ensures forall i :: 0 <= i < |Entries(v[l..r])| ==> exists j :: l <= j < r && v[j].key == Entries(v[l..r])[i].0
    decreases r - l
  {
    if l < r {
      KeysOf(v, l + 1, r);
      assert v[l..r][1..] == v[l + 1..r];
      var e, t := Entries(v[l..r]), Entries(v[l + 1..r]);
      forall i | 0 <= i < |e| ensures exists j :: l <= j < r && v[j].key == e[i].0 {
        if v[l].used && i == 0 {
          assert v[l].key == e[0].0;
        } else {
          var i' := if v[l].used then i - 1 else i;
          assert e[i] == t[i'];
          var j :| l + 1 <= j < r && v[j].key == t[i'].0;
        }
      }
    } else {
      var none := v[l..r];
      assert none == [];
      assert Entries(none) == [];
    }
  }
}
