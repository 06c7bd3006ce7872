// A data node of the index.
module DataNode {
  // A gapped sorted array with a bitmap of real slots, searched from the position a learned model predicts.
  // The model is an arbitrary function.

  import opened Bitmap
  import opened GappedArray

  const MAX_DENSITY := 0.8
  const INIT_DENSITY := 0.7
  const MIN_DENSITY := 0.6

  function ViewOf(keys: seq<int>, payloads: seq<int>, words: seq<Word>): (v: seq<Slot>)
    requires |payloads| == |keys| <= 64 * |words|
    ensures |v| == |keys|
  {
    seq(|keys|, i requires 0 <= i < |keys| => Slot(keys[i], payloads[i], Bit(words, i)))
  }

  ghost predicate Sorted(keys: seq<int>) { forall i, j :: 0 <= i <= j < |keys| ==> keys[i] <= keys[j] }

  lemma ViewSorted(keys: seq<int>, payloads: seq<int>, words: seq<Word>)
    requires |payloads| == |keys| <= 64 * |words| && Gapped(ViewOf(keys, payloads, words))
    ensures Sorted(keys)
  {
    var v := ViewOf(keys, payloads, words);
    forall i, j | 0 <= i <= j < |keys| ensures keys[i] <= keys[j] {
      KeysGrow(v, END_SENTINEL, i, j);
    }
  }

  lemma ScanIs(v: seq<Slot>, k: int, r: nat)
    requires r <= |v| && (forall i :: 0 <= i < r ==> v[i].key <= k) && (forall i :: r <= i < |v| ==> v[i].key > k)
    ensures FirstGreater(v, k) == r
  {
    var f := FirstGreater(v, k);
    assert r < |v| ==> v[r].key > k;
    assert f < |v| ==> v[f].key > k;
  }

  lemma ScanNotLessIs(v: seq<Slot>, k: int, r: nat)
    requires r <= |v| && (forall i :: 0 <= i < r ==> v[i].key < k) && (forall i :: r <= i < |v| ==> v[i].key >= k)
    ensures FirstNotLess(v, k) == r
  {
    var f := FirstNotLess(v, k);
    assert r < |v| ==> v[r].key >= k;
    assert f < |v| ==> v[f].key >= k;
  }

  // ----- Searching a sorted array -----

  function Min(x: int, y: int): int { if x < y then x else y }

  function Max(x: int, y: int): int { if x < y then y else x }

  ghost predicate IsUpperBound(keys: seq<int>, k: int, r: int) {
    && 0 <= r <= |keys|
    && (forall i :: 0 <= i < r ==> keys[i] <= k) && (forall i :: r <= i < |keys| ==> keys[i] > k)
  }

  ghost predicate IsLowerBound(keys: seq<int>, k: int, r: int) {
    && 0 <= r <= |keys|
    && (forall i :: 0 <= i < r ==> keys[i] < k) && (forall i :: r <= i < |keys| ==> keys[i] >= k)
  }

  method BinarySearchUpperBound(keys: array<int>, l0: int, r0: int, k: int) returns (l: int)
    requires Sorted(keys[..]) && 0 <= l0 <= r0 <= keys.Length
    requires (forall i :: 0 <= i < l0 ==> keys[i] <= k) && (forall i :: r0 <= i < keys.Length ==> keys[i] > k)
    ensures IsUpperBound(keys[..], k, l)
  {
    l := l0;
    var r := r0;
    while l < r
      invariant l0 <= l <= r <= r0
      invariant (forall i :: 0 <= i < l ==> keys[i] <= k) && (forall i :: r <= i < keys.Length ==> keys[i] > k)
    {
      var mid := l + (r - l) / 2;
      assert forall i :: 0 <= i <= mid ==> keys[..][i] <= keys[..][mid];
      assert forall i :: mid <= i < keys.Length ==> keys[..][mid] <= keys[..][i];
      if keys[mid] <= k {
        l := mid + 1;
      } else {
        r := mid;
      }
    }
  }

  method BinarySearchLowerBound(keys: array<int>, l0: int, r0: int, k: int) returns (l: int)
    requires Sorted(keys[..]) && 0 <= l0 <= r0 <= keys.Length
    requires (forall i :: 0 <= i < l0 ==> keys[i] < k) && (forall i :: r0 <= i < keys.Length ==> keys[i] >= k)
    ensures IsLowerBound(keys[..], k, l)
  {
    l := l0;
    var r := r0;
    while l < r
      invariant l0 <= l <= r <= r0
      invariant (forall i :: 0 <= i < l ==> keys[i] < k) && (forall i :: r <= i < keys.Length ==> keys[i] >= k)
    {
      var mid := l + (r - l) / 2;
      assert forall i :: 0 <= i <= mid ==> keys[..][i] <= keys[..][mid];
      assert forall i :: mid <= i < keys.Length ==> keys[..][mid] <= keys[..][i];
      if keys[mid] >= k {
        r := mid;
      } else {
        l := mid + 1;
      }
    }
  }

  lemma AllBefore(keys: seq<int>, l: int, k: int)
    requires Sorted(keys) && 0 <= l < |keys|
    ensures keys[l] <= k ==> forall i :: 0 <= i <= l ==> keys[i] <= k
    ensures keys[l] < k ==> forall i :: 0 <= i <= l ==> keys[i] < k
  {
    assert forall i :: 0 <= i <= l ==> keys[i] <= keys[l];
  }

  lemma AllAfter(keys: seq<int>, r: int, k: int)
    requires Sorted(keys) && 0 <= r < |keys|
    ensures keys[r] > k ==> forall i :: r <= i < |keys| ==> keys[i] > k
    ensures keys[r] >= k ==> forall i :: r <= i < |keys| ==> keys[i] >= k
  {
    assert forall i :: r <= i < |keys| ==> keys[r] <= keys[i];
  }

  // Doubling steps away from m until they pass the bound, then binary search in the last step.
  method ExponentialSearchUpperBound(keys: array<int>, m: int, k: int) returns (pos: int)
    requires Sorted(keys[..]) && 0 <= m < keys.Length
    ensures IsUpperBound(keys[..], k, pos)
  {
    hide Sorted;
    var bound := 1;
    var l, r;
    if keys[m] > k {
      var size := m;
      while bound < size && keys[m - bound] > k
        invariant 1 <= bound && 0 <= m - bound / 2
        invariant keys[m - bound / 2] > k
        decreases size - bound
      {
        bound := bound * 2;
      }
      l := m - Min(bound, size);
      r := m - bound / 2;
      AllAfter(keys[..], r, k);
      if l > 0 { AllBefore(keys[..], l, k); }
    } else {
      var size := keys.Length - m;
      while bound < size && keys[m + bound] <= k
        invariant 1 <= bound && m + bound / 2 < keys.Length
        invariant keys[m + bound / 2] <= k
        decreases size - bound
      {
        bound := bound * 2;
      }
      l := m + bound / 2;
      r := m + Min(bound, size);
      AllBefore(keys[..], l, k);
      if r < keys.Length { AllAfter(keys[..], r, k); }
    }
    pos := BinarySearchUpperBound(keys, l, r, k);
  }

  method ExponentialSearchLowerBound(keys: array<int>, m: int, k: int) returns (pos: int)
    requires Sorted(keys[..]) && 0 <= m < keys.Length
    ensures IsLowerBound(keys[..], k, pos)
  {
    hide Sorted;
    var bound := 1;
    var l, r;
    if keys[m] >= k {
      var size := m;
      while bound < size && keys[m - bound] >= k
        invariant 1 <= bound && 0 <= m - bound / 2
        invariant keys[m - bound / 2] >= k
        decreases size - bound
      {
        bound := bound * 2;
      }
      l := m - Min(bound, size);
      r := m - bound / 2;
      AllAfter(keys[..], r, k);
      if l > 0 { AllBefore(keys[..], l, k); }
    } else {
      var size := keys.Length - m;
      while bound < size && keys[m + bound] < k
        invariant 1 <= bound && m + bound / 2 < keys.Length
        invariant keys[m + bound / 2] < k
        decreases size - bound
      {
        bound := bound * 2;
      }
      l := m + bound / 2;
      r := m + Min(bound, size);
      AllBefore(keys[..], l, k);
      if r < keys.Length { AllAfter(keys[..], r, k); }
    }
    pos := BinarySearchLowerBound(keys, l, r, k);
  }

  // ----- Writing slots -----

  lemma PlacedView(keys: seq<int>, payloads: seq<int>, words: seq<Word>, keys': seq<int>, payloads': seq<int>, words': seq<Word>,
                   pos: nat, stop: nat, key: int, payload: int)
    requires |payloads| == |keys| <= 64 * |words| && |keys'| == |keys| && |words'| == |words| && stop <= pos < |keys|
    requires payloads' == payloads[pos := payload]
    requires forall i :: 0 <= i < |keys| ==> keys'[i] == if stop <= i <= pos then key else keys[i]
    requires forall i: nat :: i < 64 * |words| ==> Bit(words', i) == (i == pos || Bit(words, i))
    requires (stop > 0 ==> Bit(words', stop - 1)) && forall i: nat :: stop <= i < pos ==> !Bit(words', i)
    ensures var v := ViewOf(keys, payloads, words);
            ViewOf(keys', payloads', words') == Placed(v[..pos], key, payload, v[pos + 1..])
  {
    hide Bit;
    var v, w := ViewOf(keys, payloads, words), ViewOf(keys', payloads', words');
    FillIs(v[..pos], key, stop, w[..pos]);
    assert w == w[..pos] + [Slot(key, payload, true)] + v[pos + 1..];
  }

  // Writes the entry into the slot and overwrites the gaps before it.
  method InsertElementAt(keys: array<int>, payloads: array<int>, bitmap: array<Word>, key: int, payload: int, pos0: int)
    requires keys != payloads && payloads.Length == keys.Length <= 64 * bitmap.Length && 0 <= pos0 < keys.Length
    modifies keys, payloads, bitmap
    ensures var v := old(ViewOf(keys[..], payloads[..], bitmap[..]));
            ViewOf(keys[..], payloads[..], bitmap[..]) == Placed(v[..pos0], key, payload, v[pos0 + 1..])
    ensures forall i: nat :: i < 64 * bitmap.Length ==> Bit(bitmap[..], i) == (i == pos0 || old(Bit(bitmap[..], i)))
  {
    hide Bit, ViewOf, Placed;
    keys[pos0] := key;
    payloads[pos0] := payload;
    SetBit(bitmap, pos0);
    var pos := pos0 - 1;
    while pos >= 0
      invariant -1 <= pos < pos0
      invariant forall i: nat :: i < 64 * bitmap.Length ==> Bit(bitmap[..], i) == (i == pos0 || old(Bit(bitmap[..], i)))
      invariant forall i: nat :: pos < i < pos0 ==> !Bit(bitmap[..], i)
      invariant forall i :: 0 <= i < keys.Length ==> keys[i] == if pos < i <= pos0 then key else old(keys[i])
      invariant payloads[..] == old(payloads[..])[pos0 := payload]
    {
      var exists_ := CheckExists(bitmap, pos);
      if exists_ {
        break;
      }
      keys[pos] := key;
      pos := pos - 1;
    }
    PlacedView(old(keys[..]), old(payloads[..]), old(bitmap[..]), keys[..], payloads[..], bitmap[..], pos0, pos + 1, key, payload);
  }

  // s with the elements from pos to g - 1 copied one place to the right, over the one at g.
  function MovedUp<T>(s: seq<T>, pos: nat, g: nat): (r: seq<T>)
    requires pos <= g < |s|
    ensures |r| == |s|
  {
    s[..pos + 1] + s[pos..g] + s[g + 1..]
  }

  // s with the elements from g + 1 to pos - 1 copied one place to the left, over the one at g.
  function MovedDown<T>(s: seq<T>, g: nat, pos: nat): (r: seq<T>)
    requires g < pos <= |s|
    ensures |r| == |s|
  {
    s[..g] + s[g + 1..pos] + s[pos - 1..]
  }

  lemma MovedUpNone<T>(s: seq<T>, g: nat)
    requires g < |s|
    ensures MovedUp(s, g, g) == s
  {
  }

  lemma MovedDownNone<T>(s: seq<T>, g: nat)
    requires g < |s|
    ensures MovedDown(s, g, g + 1) == s
  {
  }

  lemma MovedUpStep<T>(s: seq<T>, i: nat, g: nat)
    requires 0 < i <= g < |s|
    ensures MovedUp(s, i - 1, g) == MovedUp(s, i, g)[i := MovedUp(s, i, g)[i - 1]]
  {
  }

  lemma MovedDownStep<T>(s: seq<T>, g: nat, i: nat)
    requires g <= i < |s| - 1
    ensures MovedDown(s, g, i + 2) == MovedDown(s, g, i + 1)[i := MovedDown(s, g, i + 1)[i + 1]]
  {
  }

  // Moving the slots between the gap and the insertion position by one takes the gap out of the rest.
  lemma ShiftedRight(keys: seq<int>, payloads: seq<int>, words: seq<Word>, words': seq<Word>, pos: nat, g: nat)
    requires |payloads| == |keys| <= 64 * |words| && |words'| == |words| && pos <= g < |keys|
    requires forall i: nat :: i < 64 * |words| ==> Bit(words', i) == (i == g || Bit(words, i))
    requires forall i: nat :: pos <= i < g ==> Bit(words, i)
    ensures var w := ViewOf(MovedUp(keys, pos, g), MovedUp(payloads, pos, g), words');
            var u := RemoveAt(ViewOf(keys, payloads, words), g);
            w[..pos] == u[..pos] && w[pos + 1..] == u[pos..]
  {
    hide Bit;
  }

  lemma ShiftedLeft(keys: seq<int>, payloads: seq<int>, words: seq<Word>, words': seq<Word>, pos: nat, g: nat)
    requires |payloads| == |keys| <= 64 * |words| && |words'| == |words| && g < pos <= |keys|
    requires forall i: nat :: i < 64 * |words| ==> Bit(words', i) == (i == g || Bit(words, i))
    requires forall i: nat :: g < i < pos ==> Bit(words, i)
    ensures var w := ViewOf(MovedDown(keys, g, pos), MovedDown(payloads, g, pos), words');
            var u := RemoveAt(ViewOf(keys, payloads, words), g);
            w[..pos - 1] == u[..pos - 1] && w[pos..] == u[pos - 1..]
  {
    hide Bit;
  }

  method MoveUp(keys: array<int>, payloads: array<int>, pos: int, g: int)
    requires keys != payloads && payloads.Length == keys.Length && 0 <= pos <= g < keys.Length
    modifies keys, payloads
    ensures keys[..] == MovedUp(old(keys[..]), pos, g) && payloads[..] == MovedUp(old(payloads[..]), pos, g)
  {
    hide MovedUp;
    ghost var keys0, payloads0 := keys[..], payloads[..];
    MovedUpNone(keys0, g);
    MovedUpNone(payloads0, g);
    var i := g;
    while i > pos
      invariant pos <= i <= g
      invariant keys[..] == MovedUp(keys0, i, g) && payloads[..] == MovedUp(payloads0, i, g)
    {
      MovedUpStep(keys0, i, g);
      MovedUpStep(payloads0, i, g);
      keys[i] := keys[i - 1];
      payloads[i] := payloads[i - 1];
      i := i - 1;
    }
  }

  method MoveDown(keys: array<int>, payloads: array<int>, g: int, pos: int)
    requires keys != payloads && payloads.Length == keys.Length && 0 <= g < pos <= keys.Length
    modifies keys, payloads
    ensures keys[..] == MovedDown(old(keys[..]), g, pos) && payloads[..] == MovedDown(old(payloads[..]), g, pos)
  {
    hide MovedDown;
    ghost var keys0, payloads0 := keys[..], payloads[..];
    MovedDownNone(keys0, g);
    MovedDownNone(payloads0, g);
    var i := g;
    while i < pos - 1
      invariant g <= i <= pos - 1
      invariant keys[..] == MovedDown(keys0, g, i + 1) && payloads[..] == MovedDown(payloads0, g, i + 1)
    {
      MovedDownStep(keys0, g, i);
      MovedDownStep(payloads0, g, i);
      keys[i] := keys[i + 1];
      payloads[i] := payloads[i + 1];
      i := i + 1;
    }
  }

  // Makes room at pos by moving the slots between pos and the closest gap; returns where the entry
  // went, one to the left of pos if the gap was on the left.
  method InsertUsingShifts(keys: array<int>, payloads: array<int>, bitmap: array<Word>, key: int, payload: int, pos: int)
    returns (at: int, ghost g: int)
    requires keys != payloads && payloads.Length == keys.Length > 0 && Fits(bitmap[..], keys.Length) && 0 <= pos <= keys.Length
    requires !NoGap(bitmap[..], keys.Length, 0, keys.Length)
    modifies keys, payloads, bitmap
    ensures 0 <= g < keys.Length && !old(Bit(bitmap[..], g)) && 0 <= at < keys.Length && at == (if g >= pos then pos else pos - 1)
    ensures Closest(old(bitmap[..]), keys.Length, if pos < keys.Length then pos else keys.Length - 1, g)
    ensures var u := RemoveAt(old(ViewOf(keys[..], payloads[..], bitmap[..])), g);
            ViewOf(keys[..], payloads[..], bitmap[..]) == Placed(u[..at], key, payload, u[at..])
    ensures forall i: nat :: i < 64 * bitmap.Length ==> Bit(bitmap[..], i) == (i == g || old(Bit(bitmap[..], i)))
  {
    hide Bit, ViewOf, Placed, RemoveAt, NoGap;
    var gapPos := ClosestGap(bitmap, keys.Length, pos);
    g := gapPos;
    ghost var keys0, payloads0, words0 := keys[..], payloads[..], bitmap[..];
    ClosestRun(words0, keys.Length, pos, g);
    SetBit(bitmap, gapPos);
    if gapPos >= pos {
      MoveUp(keys, payloads, pos, gapPos);
      ShiftedRight(keys0, payloads0, words0, bitmap[..], pos, g);
      InsertElementAt(keys, payloads, bitmap, key, payload, pos);
      at := pos;
    } else {
      MoveDown(keys, payloads, gapPos, pos);
      ShiftedLeft(keys0, payloads0, words0, bitmap[..], pos, g);
      InsertElementAt(keys, payloads, bitmap, key, payload, pos - 1);
      at := pos - 1;
    }
  }

  lemma ClosestRun(words: seq<Word>, cap: nat, pos: nat, g: int)
    requires 0 < cap <= 64 * |words| && pos <= cap && Closest(words, cap, if pos < cap then pos else cap - 1, g)
    ensures 0 <= g < cap && !Bit(words, g)
    ensures forall i: nat :: pos <= i < g || g < i < pos ==> Bit(words, i)
  {
    forall i: nat | pos <= i < g || g < i < pos ensures Bit(words, i) {
      FilledBetween(words, cap, if pos < cap then pos else cap - 1, g, i);
    }
  }

  // ----- Building -----

  // The next key of e after its first i entries.
  function NextKey(e: seq<Entry>, i: nat): int { if i < |e| then e[i].0 else END_SENTINEL }

  // Puts the entry into a free slot and makes the slots before it repeat its key.
  method Place(keys: array<int>, payloads: array<int>, bitmap: array<Word>, last: int, position: int, key: int, payload: int,
               ghost e: seq<Entry>, ghost next: int)
    requires keys != payloads && payloads.Length == keys.Length <= 64 * bitmap.Length && last < position < keys.Length
    requires Fits(bitmap[..], keys.Length) && Holding(ViewOf(keys[..], payloads[..], bitmap[..]), last, e, key) && key < next
    modifies keys, payloads, bitmap
    ensures Fits(bitmap[..], keys.Length)
    ensures Holding(ViewOf(keys[..], payloads[..], bitmap[..]), position, e + [(key, payload)], next)
    ensures GainsSlot(old(ViewOf(keys[..], payloads[..], bitmap[..])), ViewOf(keys[..], payloads[..], bitmap[..]), last, position, Slot(key, payload, true))
  {
    hide Bit, Fits;
    ghost var v, words := ViewOf(keys[..], payloads[..], bitmap[..]), bitmap[..];
    var j := last + 1;
    while j < position
      invariant last + 1 <= j <= position
      invariant forall i :: 0 <= i < keys.Length ==> keys[i] == if last < i < j then key else old(keys[i])
      invariant payloads[..] == old(payloads[..]) && bitmap[..] == words
    {
      keys[j] := key;
      j := j + 1;
    }
    keys[position] := key;
    payloads[position] := payload;
    SetBit(bitmap, position);
    forall i: nat | last < i < keys.Length ensures !Bit(words, i) { assert !v[i].used; }
    HoldingMore(v, last, e, ViewOf(keys[..], payloads[..], bitmap[..]), position, Slot(key, payload, true), next);
    StillFits(words, bitmap[..], keys.Length, position);
  }

  // Another real slot, and the real slots up to the last one as they were.
  ghost predicate GainsSlot(v: seq<Slot>, w: seq<Slot>, last: int, position: int, s: Slot) {
    && |w| == |v| && last < position < |v| && 0 <= position && w[position] == s && s.used
    && (forall x :: 0 <= x < |v| && x <= last ==> w[x] == v[x])
    && forall x :: 0 <= x < |v| && x != position ==> w[x].used == v[x].used
  }

  // The slots behind the last real key hold the sentinel.
  method Finish(keys: array<int>, payloads: array<int>, bitmap: array<Word>, last: int, ghost e: seq<Entry>)
    requires keys != payloads && payloads.Length == keys.Length <= 64 * bitmap.Length
    requires Holding(ViewOf(keys[..], payloads[..], bitmap[..]), last, e, END_SENTINEL)
    modifies keys
    ensures Gapped(ViewOf(keys[..], payloads[..], bitmap[..])) && Entries(ViewOf(keys[..], payloads[..], bitmap[..])) == e
    ensures OnlyBehind(old(ViewOf(keys[..], payloads[..], bitmap[..])), ViewOf(keys[..], payloads[..], bitmap[..]), last)
  {
    hide Bit;
    ghost var v := ViewOf(keys[..], payloads[..], bitmap[..]);
    var j := last + 1;
    while j < keys.Length
      invariant last + 1 <= j <= keys.Length
      invariant forall i :: 0 <= i < keys.Length ==> keys[i] == if last < i < j then END_SENTINEL else old(keys[i])
    {
      keys[j] := END_SENTINEL;
      j := j + 1;
    }
    forall i: nat | last < i < keys.Length ensures !Bit(bitmap[..], i) { assert !v[i].used; }
    HoldingAll(v, last, e, ViewOf(keys[..], payloads[..], bitmap[..]));
  }

  // The capacity for n keys at a density: always room for one more.
  function CapacityFor(n: nat, density: real): (c: int)
    requires 0.0 < density
    ensures c >= n + 1
  {
    Max((n as real / density).Floor, n + 1)
  }

  function BitmapSize(capacity: int): int { (capacity + 63) / 64 }

  method Initialize(n: nat, density: real) returns (keys: array<int>, payloads: array<int>, bitmap: array<Word>)
    requires 0.0 < density
    ensures fresh(keys) && fresh(payloads) && fresh(bitmap) && keys != payloads
    ensures payloads.Length == keys.Length == CapacityFor(n, density) && Fits(bitmap[..], keys.Length)
    ensures forall i: nat :: i < 64 * bitmap.Length ==> !Bit(bitmap[..], i)
  {
    var capacity := CapacityFor(n, density);
    keys := new int[capacity];
    payloads := new int[capacity];
    bitmap := new Word[BitmapSize(capacity)](_ => Zero());
  }

  lemma HoldingNone(keys: seq<int>, payloads: seq<int>, words: seq<Word>, next: int)
    requires |payloads| == |keys| <= 64 * |words| && forall i: nat :: i < 64 * |words| ==> !Bit(words, i)
    ensures Holding(ViewOf(keys, payloads, words), -1, [], next)
  {
  }

  // ----- Where the entries are placed -----

  ghost predicate OnlyBehind(v: seq<Slot>, w: seq<Slot>, last: int) {
    && |w| == |v| && (forall x :: 0 <= x < |v| && x <= last ==> w[x] == v[x]) && forall x :: 0 <= x < |v| ==> w[x].used == v[x].used
  }

  // No slot from lo to hi is nearer to the target.
  ghost predicate NearestOf(s: int, target: int, lo: int, hi: int) {
    lo <= s <= hi && forall x :: lo <= x <= hi ==> Distance(s, target) <= Distance(x, target)
  }

  // Entry i is in the slot nearest to where the model wants it, of those behind the entry before that leave
  // room for the entries after it.
  ghost predicate LaidAt(v: seq<Slot>, e: seq<Entry>, model: int -> int, slots: seq<int>, i: nat)
    requires i < |slots| <= |e|
  {
    && 0 <= slots[i] < |v| && v[slots[i]] == Slot(e[i].0, e[i].1, true)
    && NearestOf(slots[i], model(e[i].0), if i == 0 then 0 else slots[i - 1] + 1, |v| - (|e| - i))
  }

  // The first entries of e are in these slots, and no other slot is real.
  ghost predicate LaidOut(v: seq<Slot>, e: seq<Entry>, model: int -> int, slots: seq<int>) {
    && |slots| <= |e| && (forall i :: 0 <= i < |slots| ==> LaidAt(v, e, model, slots, i))
    && forall x :: 0 <= x < |v| ==> (v[x].used <==> x in slots)
  }

  // All entries of e are, as far as the order and the room allow, where the model wants them.
  ghost predicate AsModelled(v: seq<Slot>, e: seq<Entry>, model: int -> int) {
    exists slots: seq<int> :: |slots| == |e| && LaidOut(v, e, model, slots)
  }

  ghost predicate LastIs(slots: seq<int>, last: int) { last == if slots == [] then -1 else slots[|slots| - 1] }

  lemma LaidNone(keys: seq<int>, payloads: seq<int>, words: seq<Word>, e: seq<Entry>, model: int -> int)
    requires |payloads| == |keys| <= 64 * |words| && forall i: nat :: i < 64 * |words| ==> !Bit(words, i)
    ensures LaidOut(ViewOf(keys, payloads, words), e, model, [])
  {
  }

  // The room that is left, and the model's wish, decide.
  lemma LaidMore(v: seq<Slot>, w: seq<Slot>, e: seq<Entry>, model: int -> int, slots: seq<int>, last: int, position: int)
    requires LaidOut(v, e, model, slots) && LastIs(slots, last) && |slots| < |e|
    requires GainsSlot(v, w, last, position, Slot(e[|slots|].0, e[|slots|].1, true))
    requires var wish, most := Max(model(e[|slots|].0), last + 1), |v| - (|e| - |slots|);
             last < most && position == if wish > most then most else wish
    ensures LaidOut(w, e, model, slots + [position]) && LastIs(slots + [position], position)
  {
    hide LaidAt;
    var more := slots + [position];
    forall i | 0 <= i < |more| ensures LaidAt(w, e, model, more, i) {
      if i < |slots| {
        assert LaidAt(v, e, model, slots, i);
        SlotsRise(v, e, model, slots, i);
        LaidStays(v, w, e, model, slots, last, position, i);
      } else {
        LaidHere(w, e, model, slots, last, position);
      }
    }
    assert forall x :: x in more <==> x in slots || x == position;
  }

  lemma LaidHere(w: seq<Slot>, e: seq<Entry>, model: int -> int, slots: seq<int>, last: int, position: int)
    requires LastIs(slots, last) && |slots| < |e| && 0 <= position < |w| && last < position
    requires w[position] == Slot(e[|slots|].0, e[|slots|].1, true)
    requires var wish, most := Max(model(e[|slots|].0), last + 1), |w| - (|e| - |slots|);
             last < most && position == if wish > most then most else wish
    ensures LaidAt(w, e, model, slots + [position], |slots|)
  {
  }

  lemma LaidStays(v: seq<Slot>, w: seq<Slot>, e: seq<Entry>, model: int -> int, slots: seq<int>, last: int, position: int, i: nat)
    requires i < |slots| < |e| && LaidAt(v, e, model, slots, i) && LastIs(slots, last) && |w| == |v|
    requires forall x :: 0 <= x < |v| && x <= last ==> w[x] == v[x]
    requires slots[i] <= last
    ensures LaidAt(w, e, model, slots + [position], i)
  {
  }

  lemma LaidDone(v: seq<Slot>, w: seq<Slot>, e: seq<Entry>, model: int -> int, slots: seq<int>, last: int)
    requires LaidOut(v, e, model, slots) && |slots| == |e| && LastIs(slots, last) && OnlyBehind(v, w, last)
    ensures AsModelled(w, e, model)
  {
    forall i | 0 <= i < |slots| ensures LaidAt(w, e, model, slots, i) {
      assert LaidAt(v, e, model, slots, i);
      SlotsRise(v, e, model, slots, i);
    }
    assert LaidOut(w, e, model, slots);
  }

  lemma {:induction false} SlotsRise(v: seq<Slot>, e: seq<Entry>, model: int -> int, slots: seq<int>, i: nat)
    requires LaidOut(v, e, model, slots) && i < |slots|
    ensures slots[i] <= slots[|slots| - 1]
    decreases |slots| - i
  {
    if i + 1 < |slots| {
      assert LaidAt(v, e, model, slots, i + 1);
      SlotsRise(v, e, model, slots, i + 1);
    }
  }

  // Puts each entry where the model says, or in the next free slot, but never so far right that the
  // rest would not fit.
  method PlaceAll(values: seq<Entry>, model: int -> int, keys: array<int>, payloads: array<int>, bitmap: array<Word>)
    requires keys != payloads && payloads.Length == keys.Length <= 64 * bitmap.Length && |values| < keys.Length
    requires Ordered(values) && (forall i :: 0 <= i < |values| ==> values[i].0 < END_SENTINEL)
    requires Fits(bitmap[..], keys.Length) && forall i: nat :: i < 64 * bitmap.Length ==> !Bit(bitmap[..], i)
    modifies keys, payloads, bitmap
    ensures Fits(bitmap[..], keys.Length) && Gapped(ViewOf(keys[..], payloads[..], bitmap[..]))
    ensures Entries(ViewOf(keys[..], payloads[..], bitmap[..])) == values
    ensures AsModelled(ViewOf(keys[..], payloads[..], bitmap[..]), values, model)
  {
    hide Bit, Fits, Holding, Entries, GappedTo, ViewOf, LaidOut, GainsSlot, OnlyBehind, AsModelled;
    HoldingNone(keys[..], payloads[..], bitmap[..], NextKey(values, 0));
    LaidNone(keys[..], payloads[..], bitmap[..], values, model);
    ghost var slots: seq<int> := [];
    var last := -1;
    var remaining := |values|;
    var i := 0;
    while i < |values|
      invariant 0 <= i <= |values| && remaining == |values| - i && -1 <= last && remaining <= keys.Length - (last + 1)
      invariant Fits(bitmap[..], keys.Length)
      invariant Holding(ViewOf(keys[..], payloads[..], bitmap[..]), last, values[..i], NextKey(values, i))
      invariant |slots| == i && LastIs(slots, last) && LaidOut(ViewOf(keys[..], payloads[..], bitmap[..]), values, model, slots)
    {
      var position := Max(model(values[i].0), last + 1);
      if keys.Length - position < remaining {
        // fill the rest contiguously
        var pos := keys.Length - remaining;
        while i < |values|
          invariant 0 <= i <= |values| && pos == keys.Length - (|values| - i) && last < pos
          invariant Fits(bitmap[..], keys.Length)
          invariant Holding(ViewOf(keys[..], payloads[..], bitmap[..]), last, values[..i], NextKey(values, i))
          invariant |slots| == i && LastIs(slots, last) && LaidOut(ViewOf(keys[..], payloads[..], bitmap[..]), values, model, slots)
          invariant i < |values| ==> pos == keys.Length - (|values| - i) && (last == pos - 1 || model(values[i].0) > pos)
        {
          ghost var v := ViewOf(keys[..], payloads[..], bitmap[..]);
          Place(keys, payloads, bitmap, last, pos, values[i].0, values[i].1, values[..i], NextKey(values, i + 1));
          assert values[..i] + [(values[i].0, values[i].1)] == values[..i + 1];
          LaidMore(v, ViewOf(keys[..], payloads[..], bitmap[..]), values, model, slots, last, pos);
          slots := slots + [pos];
          last := pos;
          pos := pos + 1;
          i := i + 1;
        }
        break;
      }
      ghost var v := ViewOf(keys[..], payloads[..], bitmap[..]);
      Place(keys, payloads, bitmap, last, position, values[i].0, values[i].1, values[..i], NextKey(values, i + 1));
      assert values[..i] + [(values[i].0, values[i].1)] == values[..i + 1];
      LaidMore(v, ViewOf(keys[..], payloads[..], bitmap[..]), values, model, slots, last, position);
      slots := slots + [position];
      last := position;
      remaining := remaining - 1;
      i := i + 1;
    }
    assert values[..i] == values;
    ghost var v := ViewOf(keys[..], payloads[..], bitmap[..]);
    Finish(keys, payloads, bitmap, last, values);
    LaidDone(v, ViewOf(keys[..], payloads[..], bitmap[..]), values, model, slots, last);
  }

  // What an iterator at cur still yields before `right`.
  function Rest(v: seq<Slot>, cur: int, right: int): seq<Entry>
    requires cur >= -1 && 0 <= right <= |v|
  {
    if cur == -1 || cur > right then [] else Entries(v[cur..right])
  }

  lemma RestFrom(v: seq<Slot>, left: nat, right: nat)
    requires left <= right <= |v|
    ensures Rest(v, left, right) == Entries(v[left..right])
  {
  }

  lemma {:induction false} SkipGaps(v: seq<Slot>, a: nat, cur: int, right: nat)
    requires right <= |v| && (cur == -1 || a <= cur)
    requires forall i :: a <= i < right && (cur == -1 || i < cur) ==> !v[i].used
    ensures Rest(v, a, right) == Rest(v, cur, right)
    decreases |v| - a
  {
    if a < right && a != cur {
      assert v[a..right][1..] == v[a + 1..right];
      SkipGaps(v, a + 1, cur, right);
    }
  }

  lemma TakeEntry(v: seq<Slot>, cur: nat, right: nat)
    requires cur < right <= |v| && v[cur].used
    ensures Rest(v, cur, right) == [(v[cur].key, v[cur].payload)] + Rest(v, cur + 1, right)
  {
    assert v[cur..right][1..] == v[cur + 1..right];
  }

  lemma RangeOrdered(v: seq<Slot>, left: nat, right: nat)
    requires Gapped(v) && left <= right <= |v|
    ensures var e := Entries(v[left..right]);
            Ordered(e) && forall i :: 0 <= i < |e| ==> e[i].0 < END_SENTINEL
  {
    hide Entries, GappedTo;
    assert v == v[..left] + v[left..right] + v[right..];
    GappedConcat(v[..left] + v[left..right], v[right..], END_SENTINEL);
    GappedConcat(v[..left], v[left..right], FirstKey(v[right..], END_SENTINEL));
    EntriesOrdered(v[left..right], FirstKey(v[right..], END_SENTINEL));
    EntriesOrdered(v[right..], END_SENTINEL);
  }

  // Moves an iterator over the slots of another node, which have the view v.
  method NextEntry(it: Iterator, ghost v: seq<Slot>, right: int)
    requires it.Valid() && 0 <= it.curIdx < right <= |v| <= 64 * it.bitmap.Length
    requires forall i: nat :: i < |v| ==> v[i].used == Bit(it.bitmap[..], i)
    modifies it
    ensures it.Valid() && it.curIdx >= -1
    ensures Rest(v, old(it.curIdx), right) == [(v[old(it.curIdx)].key, v[old(it.curIdx)].payload)] + Rest(v, it.curIdx, right)
  {
    hide Bit, Entries;
    ghost var cur := it.curIdx;
    it.Advance();
    SkipGaps(v, cur + 1, it.curIdx, right);
    TakeEntry(v, cur, right);
  }

  // While entries are left, the iterator stands on the next.
  lemma NextIs(v: seq<Slot>, cur: int, right: nat, e: seq<Entry>, i: nat)
    requires cur >= -1 && right <= |v| && i <= |e| && Rest(v, cur, right) == e[i..]
    requires (cur != -1 && cur < right) || i < |e|
    requires cur != -1 && cur < right ==> v[cur].used
    ensures i < |e| && 0 <= cur < right && e[i] == (v[cur].key, v[cur].payload)
    ensures e[..i] + [e[i]] == e[..i + 1] && Rest(v, cur + 1, right) == e[i + 1..]
  {
    if cur != -1 && cur < right {
      TakeEntry(v, cur, right);
      assert e[i] == e[i..][0] && e[i + 1..] == e[i..][1..];
    }
  }

  lemma NothingLeft(v: seq<Slot>, cur: int, right: nat, e: seq<Entry>, i: nat)
    requires cur >= -1 && right <= |v| && i <= |e| && Rest(v, cur, right) == e[i..]
    requires cur == -1 || cur >= right || i == |e|
    ensures i == |e| && e[..i] == e
  {
    assert v[right..right] == [];
  }

  // Places the entry the iterator stands on and moves the iterator.
  method PlaceNext(it: Iterator, fromKeys: array<int>, fromPayloads: array<int>, right: int, keys: array<int>, payloads: array<int>,
                   bitmap: array<Word>, last: int, position: int, ghost e: seq<Entry>, ghost i: nat,
                   ghost model: int -> int, ghost slots: seq<int>)
    requires fromPayloads.Length == fromKeys.Length <= 64 * it.bitmap.Length && 0 <= right <= fromKeys.Length
    requires keys != payloads && payloads.Length == keys.Length <= 64 * bitmap.Length
    requires keys !in {fromKeys, fromPayloads} && payloads !in {fromKeys, fromPayloads} && bitmap != it.bitmap
    requires it.Valid() && it.curIdx >= -1 && i < |e| && Ordered(e) && e[i].0 < NextKey(e, i + 1)
    requires Rest(ViewOf(fromKeys[..], fromPayloads[..], it.bitmap[..]), it.curIdx, right) == e[i..]
    requires last < position < keys.Length && Fits(bitmap[..], keys.Length)
    requires Holding(ViewOf(keys[..], payloads[..], bitmap[..]), last, e[..i], NextKey(e, i))
    requires |slots| == i && LastIs(slots, last) && LaidOut(ViewOf(keys[..], payloads[..], bitmap[..]), e, model, slots)
    requires var wish, most := Max(model(e[i].0), last + 1), keys.Length - (|e| - i);
             last < most && position == if wish > most then most else wish
    modifies keys, payloads, bitmap, it
    ensures it.Valid() && it.curIdx >= -1 && Fits(bitmap[..], keys.Length)
    ensures Rest(ViewOf(fromKeys[..], fromPayloads[..], it.bitmap[..]), it.curIdx, right) == e[i + 1..]
    ensures Holding(ViewOf(keys[..], payloads[..], bitmap[..]), position, e[..i + 1], NextKey(e, i + 1))
    ensures LastIs(slots + [position], position) && LaidOut(ViewOf(keys[..], payloads[..], bitmap[..]), e, model, slots + [position])
  {
    hide Bit, Fits, Holding, Entries, GappedTo, Rest, Ordered, GainsSlot, LaidOut;
    ghost var v := ViewOf(fromKeys[..], fromPayloads[..], it.bitmap[..]);
    NextIs(v, it.curIdx, right, e, i);
    ghost var w := ViewOf(keys[..], payloads[..], bitmap[..]);
    Place(keys, payloads, bitmap, last, position, fromKeys[it.curIdx], fromPayloads[it.curIdx], e[..i], NextKey(e, i + 1));
    LaidMore(w, ViewOf(keys[..], payloads[..], bitmap[..]), e, model, slots, last, position);
    NextEntry(it, v, right);
    DropOne(e, i, Rest(v, it.curIdx, right));
  }

  lemma DropOne(e: seq<Entry>, i: nat, r: seq<Entry>)
    requires i < |e| && e[i..] == [e[i]] + r
    ensures r == e[i + 1..]
  {
    assert e[i..][1..] == r;
  }

  // Fills the store from the right end with what the iterator still yields.
  method PlaceRest(it: Iterator, fromKeys: array<int>, fromPayloads: array<int>, right: int, keys: array<int>, payloads: array<int>,
                   bitmap: array<Word>, last0: int, remaining: int, ghost e: seq<Entry>, ghost i0: nat,
                   ghost model: int -> int, ghost slots0: seq<int>)
    returns (last: int, ghost slots: seq<int>)
    requires fromPayloads.Length == fromKeys.Length <= 64 * it.bitmap.Length && 0 <= right <= fromKeys.Length
    requires keys != payloads && payloads.Length == keys.Length <= 64 * bitmap.Length
    requires keys !in {fromKeys, fromPayloads} && payloads !in {fromKeys, fromPayloads} && bitmap != it.bitmap
    requires it.Valid() && it.curIdx >= -1 && Ordered(e) && (forall i :: 0 <= i < |e| ==> e[i].0 < END_SENTINEL)
    requires i0 < |e| && remaining == |e| - i0 && -1 <= last0 && remaining <= keys.Length - (last0 + 1) && Fits(bitmap[..], keys.Length)
    requires Rest(ViewOf(fromKeys[..], fromPayloads[..], it.bitmap[..]), it.curIdx, right) == e[i0..]
    requires Holding(ViewOf(keys[..], payloads[..], bitmap[..]), last0, e[..i0], NextKey(e, i0))
    requires |slots0| == i0 && LastIs(slots0, last0) && LaidOut(ViewOf(keys[..], payloads[..], bitmap[..]), e, model, slots0)
    requires model(e[i0].0) > keys.Length - remaining
    modifies keys, payloads, bitmap, it
    ensures it.Valid() && it.curIdx >= -1 && Fits(bitmap[..], keys.Length) && last == keys.Length - 1
    ensures Rest(ViewOf(fromKeys[..], fromPayloads[..], it.bitmap[..]), it.curIdx, right) == []
    ensures |slots| == |e| && LastIs(slots, last) && LaidOut(ViewOf(keys[..], payloads[..], bitmap[..]), e, model, slots)
    ensures Holding(ViewOf(keys[..], payloads[..], bitmap[..]), last, e[..|e|], END_SENTINEL)
  {
    hide Bit, Fits, Holding, Entries, GappedTo, Rest, LaidOut, GainsSlot;
    ghost var i := i0;
    last, slots := last0, slots0;
    var pos := keys.Length - remaining;
    while pos < keys.Length
      invariant it.Valid() && it.curIdx >= -1
      invariant 0 <= i <= |e| && pos == keys.Length - (|e| - i) && last < pos && (pos == keys.Length ==> last == pos - 1)
      invariant Rest(ViewOf(fromKeys[..], fromPayloads[..], it.bitmap[..]), it.curIdx, right) == e[i..]
      invariant |slots| == i && LastIs(slots, last) && LaidOut(ViewOf(keys[..], payloads[..], bitmap[..]), e, model, slots)
      invariant i < |e| ==> last == pos - 1 || model(e[i].0) > pos
      invariant Fits(bitmap[..], keys.Length)
      invariant Holding(ViewOf(keys[..], payloads[..], bitmap[..]), last, e[..i], NextKey(e, i))
    {
      PlaceNext(it, fromKeys, fromPayloads, right, keys, payloads, bitmap, last, pos, e, i, model, slots);
      slots := slots + [pos];
      last := pos;
      pos := pos + 1;
      i := i + 1;
    }
  }

  // PlaceAll with the entries between two slots of another node, read through an iterator.
  method PlaceFrom(fromKeys: array<int>, fromPayloads: array<int>, fromBitmap: array<Word>, left: int, right: int, n: int,
                   model: int -> int, keys: array<int>, payloads: array<int>, bitmap: array<Word>)
    requires fromPayloads.Length == fromKeys.Length <= 64 * fromBitmap.Length && 0 <= left <= right <= fromKeys.Length
    requires left < 64 * fromBitmap.Length && Gapped(ViewOf(fromKeys[..], fromPayloads[..], fromBitmap[..]))
    requires keys != payloads && payloads.Length == keys.Length <= 64 * bitmap.Length
    requires keys !in {fromKeys, fromPayloads} && payloads !in {fromKeys, fromPayloads} && bitmap != fromBitmap
    requires n == |Entries(ViewOf(fromKeys[..], fromPayloads[..], fromBitmap[..])[left..right])| < keys.Length
    requires Fits(bitmap[..], keys.Length) && forall i: nat :: i < 64 * bitmap.Length ==> !Bit(bitmap[..], i)
    modifies keys, payloads, bitmap
    ensures Fits(bitmap[..], keys.Length) && Gapped(ViewOf(keys[..], payloads[..], bitmap[..]))
    ensures Entries(ViewOf(keys[..], payloads[..], bitmap[..])) ==
            Entries(ViewOf(fromKeys[..], fromPayloads[..], fromBitmap[..])[left..right])
    ensures AsModelled(ViewOf(keys[..], payloads[..], bitmap[..]), Entries(ViewOf(fromKeys[..], fromPayloads[..], fromBitmap[..])[left..right]), model)
  {
    hide Bit, Fits, Holding, Entries, GappedTo, Rest, LaidOut, GainsSlot, OnlyBehind, AsModelled;
    ghost var v := ViewOf(fromKeys[..], fromPayloads[..], fromBitmap[..]);
    ghost var e := Entries(v[left..right]);
    ghost var i := 0;
    RangeOrdered(v, left, right);
    HoldingNone(keys[..], payloads[..], bitmap[..], NextKey(e, 0));
    LaidNone(keys[..], payloads[..], bitmap[..], e, model);
    ghost var slots: seq<int> := [];
    var last := -1;
    var remaining := n;
    var it := new Iterator(fromBitmap, left);
    SkipGaps(v, left, it.curIdx, right);
    RestFrom(v, left, right);
    assert e[0..] == e;
    while it.curIdx < right && it.curIdx != -1
      invariant it.bitmap == fromBitmap && it.Valid() && it.curIdx >= -1 && fresh(it)
      invariant 0 <= i <= n && remaining == n - i && -1 <= last && remaining <= keys.Length - (last + 1)
      invariant Rest(v, it.curIdx, right) == e[i..]
      invariant |slots| == i && LastIs(slots, last) && LaidOut(ViewOf(keys[..], payloads[..], bitmap[..]), e, model, slots)
      invariant Fits(bitmap[..], keys.Length)
      invariant Holding(ViewOf(keys[..], payloads[..], bitmap[..]), last, e[..i], NextKey(e, i))
      decreases n - i
    {
      NextIs(v, it.curIdx, right, e, i);
      var position := Max(model(fromKeys[it.curIdx]), last + 1);
      if keys.Length - position < remaining {
        last, slots := PlaceRest(it, fromKeys, fromPayloads, right, keys, payloads, bitmap, last, remaining, e, i, model, slots);
        i := n;
        break;
      }
      PlaceNext(it, fromKeys, fromPayloads, right, keys, payloads, bitmap, last, position, e, i, model, slots);
      slots := slots + [position];
      last := position;
      remaining := remaining - 1;
      i := i + 1;
    }
    NothingLeft(v, it.curIdx, right, e, i);
    ghost var w := ViewOf(keys[..], payloads[..], bitmap[..]);
    Finish(keys, payloads, bitmap, last, e);
    LaidDone(w, ViewOf(keys[..], payloads[..], bitmap[..]), e, model, slots, last);
  }

  // When to expand: at a density of 0.8, but never with room for less than one more key.
  function ExpandAt(capacity: int, n: int): (t: real)
    requires 0 <= n < capacity
    ensures n as real < t <= capacity as real
  {
    var least := if capacity as real * MAX_DENSITY < (n + 1) as real then (n + 1) as real else capacity as real * MAX_DENSITY;
    if capacity as real < least then capacity as real else least
  }

  // A node built for n keys at a density: the largest capacity at which they are not less dense than that, but
  // room for one more key; it is full at a density of 0.8, but not before one more key nor after the last
  // slot; and contracted below a density of 0.6. Without keys it is full when all slots are, and never contracted.
  ghost predicate Sized(capacity: int, n: nat, density: real, expansionThreshold: real, contractionThreshold: real)
    requires density > 0.0
  {
    var most := n as real / density;
    && n + 1 <= capacity && (capacity == n + 1 || capacity as real <= most) && most < (capacity + 1) as real
    && (if n == 0 then expansionThreshold == capacity as real && contractionThreshold == 0.0
        else
          && (n + 1) as real <= expansionThreshold <= capacity as real && contractionThreshold == capacity as real * MIN_DENSITY
          && (expansionThreshold == (n + 1) as real || expansionThreshold <= capacity as real * MAX_DENSITY)
          && (expansionThreshold == capacity as real || expansionThreshold >= capacity as real * MAX_DENSITY))
  }

  // A copy at the least density has room within the limit exactly if the limit is not passed by.
  lemma CopyFits(n: int, maxSlots: int)
    requires n > 0
    ensures n as real > maxSlots as real * MIN_DENSITY ==> CapacityFor(n, MIN_DENSITY) >= maxSlots
    ensures n as real <= maxSlots as real * MIN_DENSITY ==> CapacityFor(n, MIN_DENSITY) <= maxSlots
  {
  }

  lemma SizedIs(capacity: int, n: nat, density: real)
    requires 0.0 < density && capacity == CapacityFor(n, density)
    ensures Sized(capacity, n, density, if n == 0 then capacity as real else ExpandAt(capacity, n),
                  if n == 0 then 0.0 else capacity as real * MIN_DENSITY)
  {
  }

  ghost predicate IsBuilt(keys: array<int>, payloads: array<int>, bitmap: array<Word>, e: seq<Entry>)
    reads keys, payloads, bitmap
  {
    && keys != payloads && payloads.Length == keys.Length && |e| < keys.Length <= 64 * bitmap.Length && Fits(bitmap[..], keys.Length)
    && Gapped(ViewOf(keys[..], payloads[..], bitmap[..])) && Entries(ViewOf(keys[..], payloads[..], bitmap[..])) == e
  }

  method Built(values: seq<Entry>, model: int -> int) returns (keys: array<int>, payloads: array<int>, bitmap: array<Word>)
    requires Ordered(values) && forall i :: 0 <= i < |values| ==> values[i].0 < END_SENTINEL
    ensures IsBuilt(keys, payloads, bitmap, values) && keys.Length == CapacityFor(|values|, INIT_DENSITY) && fresh(keys) && fresh(payloads) && fresh(bitmap)
    ensures AsModelled(ViewOf(keys[..], payloads[..], bitmap[..]), values, model)
  {
    hide GappedTo, Entries, Bit, Holding, ViewOf, AsModelled, OnlyBehind;
    keys, payloads, bitmap := Initialize(|values|, INIT_DENSITY);
    if |values| == 0 {
      HoldingNone(keys[..], payloads[..], bitmap[..], END_SENTINEL);
      ghost var v := ViewOf(keys[..], payloads[..], bitmap[..]);
      LaidNone(keys[..], payloads[..], bitmap[..], [], model);
      Finish(keys, payloads, bitmap, -1, []);
      LaidDone(v, ViewOf(keys[..], payloads[..], bitmap[..]), [], model, [], -1);
    } else {
      PlaceAll(values, model, keys, payloads, bitmap);
    }
  }

  method BuiltFrom(fromKeys: array<int>, fromPayloads: array<int>, fromBitmap: array<Word>, left: int, right: int, n: int,
                   density: real, model: int -> int)
    returns (keys: array<int>, payloads: array<int>, bitmap: array<Word>)
    requires fromPayloads.Length == fromKeys.Length <= 64 * fromBitmap.Length && 0 <= left <= right <= fromKeys.Length
    requires Gapped(ViewOf(fromKeys[..], fromPayloads[..], fromBitmap[..]))
    requires n == |Entries(ViewOf(fromKeys[..], fromPayloads[..], fromBitmap[..])[left..right])| && 0.0 < density
    ensures IsBuilt(keys, payloads, bitmap, Entries(ViewOf(fromKeys[..], fromPayloads[..], fromBitmap[..])[left..right]))
    ensures AsModelled(ViewOf(keys[..], payloads[..], bitmap[..]), Entries(ViewOf(fromKeys[..], fromPayloads[..], fromBitmap[..])[left..right]), model)
    ensures keys.Length == CapacityFor(n, density) && fresh(keys) && fresh(payloads) && fresh(bitmap)
  {
    hide GappedTo, Entries, Bit, Holding, ViewOf, AsModelled, OnlyBehind;
    keys, payloads, bitmap := Initialize(n, density);
    if n == 0 {
      HoldingNone(keys[..], payloads[..], bitmap[..], END_SENTINEL);
      ghost var v := ViewOf(keys[..], payloads[..], bitmap[..]);
      LaidNone(keys[..], payloads[..], bitmap[..], [], model);
      Finish(keys, payloads, bitmap, -1, []);
      LaidDone(v, ViewOf(keys[..], payloads[..], bitmap[..]), [], model, [], -1);
    } else {
      NoSlots(ViewOf(fromKeys[..], fromPayloads[..], fromBitmap[..]), left);
      PlaceFrom(fromKeys, fromPayloads, fromBitmap, left, right, n, model, keys, payloads, bitmap);
    }
  }

  // Where there are no slots there are no entries.
  lemma NoSlots(v: seq<Slot>, i: nat)
    requires i <= |v|
    ensures Entries(v[i..i]) == []
  {
    assert v[i..i] == [];
  }

  // An entry is put in at a place: into the gap there, or else by taking out the gap closest to it, the left one of
  // two, which moves the slots in between; the gaps before the entry repeat its key.
  ghost predicate PutIn(v: seq<Slot>, w: seq<Slot>, key: int, payload: int, place: int, at: int, g: int) {
    && 0 <= g < |v| && !v[g].used && 0 <= place <= |v| && 0 <= at < |v|
    && (if place < |v| && !v[place].used then g == place == at
        else ClosestIn(v, if place < |v| then place else |v| - 1, g) && at == if g >= place then place else place - 1)
    && w == Placed(RemoveAt(v, g)[..at], key, payload, RemoveAt(v, g)[at..])
  }

  ghost predicate ClosestIn(v: seq<Slot>, p: int, g: int) {
    forall i :: 0 <= i < |v| && !v[i].used ==> Distance(g, p) < Distance(i, p) || (Distance(g, p) == Distance(i, p) && g <= i)
  }

  lemma ClosestSlots(keys: seq<int>, payloads: seq<int>, words: seq<Word>, p: int, g: int)
    requires |payloads| == |keys| <= 64 * |words| && Closest(words, |keys|, p, g)
    ensures ClosestIn(ViewOf(keys, payloads, words), p, g)
  {
    hide Bit, Distance;
    forall i | 0 <= i < |keys| && !ViewOf(keys, payloads, words)[i].used
      ensures Distance(g, p) < Distance(i, p) || (Distance(g, p) == Distance(i, p) && g <= i)
    {
      assert IsGap(words, |keys|, i);
    }
  }

  // An absent key goes to the place nearest to the prediction.
  ghost predicate Lands(v: seq<Slot>, w: seq<Slot>, key: int, payload: int, predicted: int, at: int) {
    exists place, g :: TakesNearest(v, key, predicted, place) && PutIn(v, w, key, payload, place, at, g)
  }

  lemma Landed(v: seq<Slot>, w: seq<Slot>, key: int, payload: int, predicted: int, place: int, at: int, g: int)
    requires CanTake(v, FirstGreater(v, key), place) && PutIn(v, w, key, payload, place, at, g)
    requires forall i :: CanTake(v, FirstGreater(v, key), i) ==> Distance(place, predicted) <= Distance(i, predicted)
    ensures Lands(v, w, key, payload, predicted, at)
  {
    hide CanTake, PutIn, FirstGreater;
    assert TakesNearest(v, key, predicted, place);
  }

  ghost predicate TakesNearest(v: seq<Slot>, key: int, predicted: int, place: int) {
    && CanTake(v, FirstGreater(v, key), place)
    && forall i :: CanTake(v, FirstGreater(v, key), i) ==> Distance(place, predicted) <= Distance(i, predicted)
  }

  // Where an absent key with this upper bound can go without a shift, or with a shift if it is the bound
  // itself: nothing but gaps in between.
  ghost predicate CanTake(v: seq<Slot>, bound: int, i: int) {
    0 <= bound <= i <= |v| && (i == bound || (i < |v| && forall j :: bound <= j <= i ==> !v[j].used))
  }

  lemma BoundIsNearest(v: seq<Slot>, bound: int, predicted: int)
    requires 0 <= bound <= |v| && predicted <= bound
    ensures CanTake(v, bound, bound) && forall i :: CanTake(v, bound, i) ==> Distance(bound, predicted) <= Distance(i, predicted)
  {
  }

  lemma BoundIsOnly(v: seq<Slot>, bound: int)
    requires 0 <= bound < |v| && v[bound].used
    ensures forall i :: CanTake(v, bound, i) <==> i == bound
  {
  }

  lemma LastGapIsNearest(v: seq<Slot>, bound: int, next: int, predicted: int)
    requires 0 <= bound < next <= |v| && bound < predicted < |v|
    requires (forall i :: bound <= i < next ==> !v[i].used) && (next < |v| ==> v[next].used)
    ensures var place := Min(predicted, next - 1);
            CanTake(v, bound, place) && forall i :: CanTake(v, bound, i) ==> Distance(place, predicted) <= Distance(i, predicted)
  {
    forall i | CanTake(v, bound, i) ensures i < next {
      assert bound <= i;
    }
  }

  lemma TakenGaps(v: seq<Slot>, bound: int, place: int)
    requires CanTake(v, bound, place)
    ensures forall i :: bound <= i < place ==> !v[i].used
    ensures 0 <= bound <= place <= |v| && (place != bound ==> place < |v| && !v[place].used)
  {
  }

  // ----- The node -----

  lemma PayloadWritten(keys: seq<int>, payloads: seq<int>, words: seq<Word>, pos: nat, payload: int)
    requires |payloads| == |keys| <= 64 * |words| && pos < |keys|
    ensures var v := ViewOf(keys, payloads, words);
            && v == v[..pos] + [v[pos]] + v[pos + 1..]
            && ViewOf(keys, payloads[pos := payload], words) == v[..pos] + [v[pos].(payload := payload)] + v[pos + 1..]
  {
  }

  // How many keys there are between two slots, if that has been computed before.
  datatype Count = Known(n: nat) | Unknown

  class AlexDataNode {
    var keySlots: array<int>
    var payloadSlots: array<int>
    var bitmap: array<Word>
    var numKeys: int
    var numInserts: int
    var expansionThreshold: real
    var contractionThreshold: real
    var maxSlots: int
    var model: int -> int
    // The lock bit of the version lock.
    var locked: bool

    ghost predicate Shape()
      reads this
    {
      keySlots != payloadSlots && payloadSlots.Length == keySlots.Length && 0 < keySlots.Length <= 64 * bitmap.Length
    }

    ghost function View(): (v: seq<Slot>)
      requires Shape()
      reads this, keySlots, payloadSlots, bitmap
      ensures |v| == keySlots.Length
    {
      ViewOf(keySlots[..], payloadSlots[..], bitmap[..])
    }

    // Between calls a node that nobody holds has room for one more key than it needs to.
    ghost predicate Valid()
      reads this, keySlots, payloadSlots, bitmap
    {
      && Shape() && Fits(bitmap[..], keySlots.Length) && Gapped(View()) && numKeys == |Entries(View())|
      && expansionThreshold <= keySlots.Length as real
      && (!locked ==> numKeys as real < expansionThreshold)
    }

    // What the node stores.
    ghost function Contents(): map<int, int>
      requires Shape()
      reads this, keySlots, payloadSlots, bitmap
    {
      ToMap(Entries(View()))
    }

    method PredictPosition(key: int) returns (pos: int)
      requires Shape()
      ensures 0 <= pos < keySlots.Length && pos == Predicted(key) && NearestOf(pos, model(key), 0, keySlots.Length - 1)
    {
      pos := Max(Min(model(key), keySlots.Length - 1), 0);
    }

    // The slot nearest to what the model says.
    ghost function Predicted(key: int): (pos: int)
      requires Shape()
      reads this
      ensures forall i :: 0 <= i < keySlots.Length ==> Distance(pos, model(key)) <= Distance(i, model(key))
    {
      if model(key) < 0 then 0 else if model(key) >= keySlots.Length then keySlots.Length - 1 else model(key)
    }

    // The position of the key, or -1.
    method FindKey(key: int) returns (pos: int)
      requires Valid() && key < END_SENTINEL
      ensures pos != -1 <==> key in Contents()
      ensures pos != -1 ==> 0 <= pos < keySlots.Length && View()[pos] == Slot(key, Contents()[key], true)
    {
      var predicted := PredictPosition(key);
      var bound := UpperBoundFrom(predicted, key);
      var present := EndsWith(bound, key);
      pos := if present then bound - 1 else -1;
    }

    // Whether the slot before the first greater key holds the key.
    method EndsWith(bound: int, key: int) returns (b: bool)
      requires Shape() && Gapped(View()) && key < END_SENTINEL && bound == FirstGreater(View(), key)
      ensures b <==> key in Contents()
      ensures b ==> 0 < bound && View()[bound - 1] == Slot(key, Contents()[key], true)
    {
      LookupAt(View(), key);
      b := bound > 0 && keySlots[bound - 1] == key;
    }

    method UpperBoundFrom(m: int, key: int) returns (pos: int)
      requires Valid() && 0 <= m < keySlots.Length
      ensures pos == FirstGreater(View(), key)
    {
      ViewSorted(keySlots[..], payloadSlots[..], bitmap[..]);
      pos := ExponentialSearchUpperBound(keySlots, m, key);
      ScanIs(View(), key, pos);
    }

    method LowerBoundFrom(m: int, key: int) returns (pos: int)
      requires Valid() && 0 <= m < keySlots.Length
      ensures pos == FirstNotLess(View(), key)
    {
      ViewSorted(keySlots[..], payloadSlots[..], bitmap[..]);
      pos := ExponentialSearchLowerBound(keySlots, m, key);
      ScanNotLessIs(View(), key, pos);
    }

    // The first real key not less than the key, or the capacity. When no slot holds one and the
    // capacity is a multiple of 64, the search reads past the bitmap.
    method FindLower(key: int) returns (pos: int)
      requires Valid() && (FirstNotLess(View(), key) < keySlots.Length || keySlots.Length % 64 != 0)
      ensures FirstNotLess(View(), key) <= pos <= keySlots.Length && (pos < keySlots.Length ==> View()[pos].used && View()[pos].key >= key)
      ensures forall i :: 0 <= i < pos && View()[i].used ==> View()[i].key < key
    {
      var predicted := PredictPosition(key);
      var bound := LowerBoundFrom(predicted, key);
      pos := GetNextFilledPosition(bitmap, keySlots.Length, bound, false);
      ghost var v := View();
      if pos < keySlots.Length {
        KeysGrow(v, END_SENTINEL, bound, pos);
      }
      assert forall i :: bound <= i < pos ==> !v[i].used;
    }

    method FindUpper(key: int) returns (pos: int)
      requires Valid() && (FirstGreater(View(), key) < keySlots.Length || keySlots.Length % 64 != 0)
      ensures FirstGreater(View(), key) <= pos <= keySlots.Length && (pos < keySlots.Length ==> View()[pos].used && View()[pos].key > key)
      ensures forall i :: 0 <= i < pos && View()[i].used ==> View()[i].key <= key
    {
      var predicted := PredictPosition(key);
      var bound := UpperBoundFrom(predicted, key);
      pos := GetNextFilledPosition(bitmap, keySlots.Length, bound, false);
      ghost var v := View();
      if pos < keySlots.Length {
        KeysGrow(v, END_SENTINEL, bound, pos);
      }
      assert forall i :: bound <= i < pos ==> !v[i].used;
    }

    // Without interference: false exactly when the lock is set, else the answer of the map.
    method FindPayload(key: int) returns (ok: bool, payload: int, found: bool)
      requires Valid() && key < END_SENTINEL
      ensures ok == !locked
      ensures ok ==> found == (key in Contents()) && (found ==> payload == Contents()[key])
    {
      payload, found := 0, false;
      if locked {
        return false, payload, found;
      }
      var pos := FindKey(key);
      if pos != -1 {
        payload := payloadSlots[pos];
        found := true;
      }
      ok := true;
    }

    method Update(key: int, payload: int) returns (ok: bool, updated: bool)
      requires Valid() && key < END_SENTINEL
      modifies payloadSlots
      ensures Valid() && ok == !old(locked)
      ensures !ok ==> Contents() == old(Contents()) && !updated
      ensures ok ==> updated == (key in old(Contents()))
      ensures Contents() == if ok && updated then old(Contents())[key := payload] else old(Contents())
    {
      hide GappedTo, Entries, ToMap, ViewOf, Fits;
      updated := false;
      if locked {
        return false, updated;
      }
      var pos := FindKey(key);
      if pos != -1 {
        ghost var v, payloads := View(), payloadSlots[..];
        PayloadWritten(keySlots[..], payloads, bitmap[..], pos, payload);
        payloadSlots[pos] := payload;
        updated := true;
        assert payloadSlots[..] == payloads[pos := payload];
        UpdatedGapped(v[..pos], v[pos], v[pos + 1..], payload);
      }
      ok := true;
    }

    // Where to insert an absent key, and its upper bound: of the places it can take, the one nearest to
    // the prediction.
    method FindInsertPosition(key: int) returns (place: int, bound: int)
      requires Valid()
      ensures bound == FirstGreater(View(), key) && CanTake(View(), bound, place)
      ensures forall i :: CanTake(View(), bound, i) ==> Distance(place, Predicted(key)) <= Distance(i, Predicted(key))
    {
      hide GappedTo, Entries, FirstGreater, CanTake, Distance;
      ghost var v := View();
      var predicted := PredictPosition(key);
      var pos := UpperBoundFrom(predicted, key);
      bound := pos;
      place := pos;
      if predicted <= pos {
        BoundIsNearest(v, pos, predicted);
        return;
      }
      var exists_ := CheckExists(bitmap, pos);
      if exists_ {
        BoundIsOnly(v, pos);
        return;
      }
      var next := GetNextFilledPosition(bitmap, keySlots.Length, pos, true);
      place := Min(predicted, next - 1);
      assert forall i :: pos <= i < next ==> !v[i].used;
      LastGapIsNearest(v, pos, next, predicted);
    }

    // The flag of an insertion: 4 the node is locked, -1 the key is there, 0 inserted, and with the
    // lock kept for the caller to restructure the node 2 or 1 for its cost, 3 for its size, 5 to expand.
    method Insert(key: int, payload: int, catastrophic: bool, deviates: bool) returns (flag: int, position: int, ghost at: int)
      requires Valid() && key < END_SENTINEL
      modifies this, keySlots, payloadSlots, bitmap
      ensures keySlots == old(keySlots) && payloadSlots == old(payloadSlots) && bitmap == old(bitmap) && Valid()
      ensures flag == 4 <==> old(locked)
      ensures flag == -1 <==> !old(locked) && key in old(Contents())
      ensures flag == 4 || flag == -1 ==> View() == old(View()) && locked == old(locked)
      ensures flag != 4 && flag != -1 ==> Contents() == old(Contents())[key := payload] && (flag == 0 <==> !locked)
      ensures flag == -1 ==> 0 <= position < keySlots.Length && View()[position] == Slot(key, Contents()[key], true)
      ensures flag == 0 ==> 0 <= position < keySlots.Length && View()[position] == Slot(key, payload, true)
      ensures flag != 4 && flag != -1 ==>
                Lands(old(View()), View(), key, payload, old(Predicted(key)), at) && (flag == 0 ==> position == at)
      ensures flag == 1 || flag == 2 || flag == 3 || flag == 4 || flag == 5 ==> position == -1
      ensures flag in {-1, 0, 1, 2, 3, 4, 5}
      ensures flag == 0 ==> numKeys as real < expansionThreshold
      ensures flag == 1 || flag == 3 || flag == 5 ==> numKeys as real >= expansionThreshold && (flag == 1 <==> deviates)
      ensures flag == 2 ==> catastrophic && (numInserts % 64 == 0 || (numKeys as real >= expansionThreshold && !deviates))
      ensures (flag == 0 || flag == 1) && catastrophic ==> numInserts % 64 != 0
      ensures flag == 3 || flag == 5 ==> !catastrophic
      ensures flag == 3 ==> CapacityFor(numKeys, MIN_DENSITY) >= maxSlots && numKeys as real > maxSlots as real * MIN_DENSITY
      ensures flag == 5 ==> CapacityFor(numKeys, MIN_DENSITY) <= maxSlots && numKeys as real <= maxSlots as real * MIN_DENSITY
      ensures var more := if flag == 4 || flag == -1 then 0 else 1;
              numKeys == old(numKeys) + more && numInserts == old(numInserts) + more
      ensures model == old(model) && maxSlots == old(maxSlots)
      ensures expansionThreshold == old(expansionThreshold) && contractionThreshold == old(contractionThreshold)
    {
      hide GappedTo, Entries, ToMap, FirstGreater, ViewOf, Fits, PutIn, CanTake, Distance, Lands, CapacityFor;
      at := -1;
      if locked {
        return 4, -1, at;
      }
      locked := true;
      var place, bound := FindInsertPosition(key);
      var present := EndsWith(bound, key);
      if present {
        locked := false;
        return -1, bound - 1, at;
      }
      ghost var v, predicted, gap := View(), Predicted(key), 0;
      position, gap := InsertAt(key, payload, place);
      at := position;
      Landed(v, View(), key, payload, predicted, place, at, gap);
      numKeys := numKeys + 1;
      numInserts := numInserts + 1;
      if numInserts % 64 == 0 && catastrophic {
        return 2, -1, at;
      }
      if numKeys as real >= expansionThreshold {
        if deviates {
          return 1, -1, at;
        }
        if catastrophic {
          return 2, -1, at;
        }
        CopyFits(numKeys, maxSlots);
        if numKeys as real > maxSlots as real * MIN_DENSITY {
          return 3, -1, at;
        }
        return 5, -1, at;
      }
      locked := false;
      flag := 0;
    }

    method InsertAt(key: int, payload: int, place: int) returns (at: int, ghost gap: int)
      requires Shape() && Fits(bitmap[..], keySlots.Length) && Gapped(View()) && key < END_SENTINEL && key !in Contents()
      requires |Entries(View())| < keySlots.Length
      requires CanTake(View(), FirstGreater(View(), key), place)
      modifies keySlots, payloadSlots, bitmap
      ensures Fits(bitmap[..], keySlots.Length) && Gapped(View()) && Contents() == old(Contents())[key := payload]
      ensures |Entries(View())| == old(|Entries(View())|) + 1
      ensures 0 <= at < keySlots.Length && View()[at] == Slot(key, payload, true)
      ensures PutIn(old(View()), View(), key, payload, place, at, gap)
    {
      hide GappedTo, Entries, ToMap, FirstGreater, Placed, Fill, NoGap, Fits, CanTake, Closest, ClosestIn;
      ghost var v, words := View(), bitmap[..];
      TakenGaps(v, FirstGreater(v, key), place);
      var gapHere := false;
      if place < keySlots.Length {
        var exists_ := CheckExists(bitmap, place);
        gapHere := !exists_;
      }
      ghost var g := place;
      if gapHere {
        InsertElementAt(keySlots, payloadSlots, bitmap, key, payload, place);
        at := place;
        assert RemoveAt(v, g)[..at] == v[..at] && RemoveAt(v, g)[at..] == v[at + 1..];
      } else {
        HasGap(keySlots[..], payloadSlots[..], bitmap[..]);
        ghost var keys0, payloads0 := keySlots[..], payloadSlots[..];
        at, g := InsertUsingShifts(keySlots, payloadSlots, bitmap, key, payload, place);
        ClosestSlots(keys0, payloads0, words, if place < |keys0| then place else |keys0| - 1, g);
      }
      gap := g;
      StillFits(words, bitmap[..], keySlots.Length, g);
      InsertedGapped(v, key, payload, at, g);
    }

    // Turns the key into a gap. 0: the node is locked; 1: done; 2: done, and the lock is kept for a
    // contraction.
    method Erase(key: int) returns (flag: int, count: int)
      requires Valid() && key < END_SENTINEL
      modifies this, keySlots, bitmap
      ensures keySlots == old(keySlots) && payloadSlots == old(payloadSlots) && bitmap == old(bitmap) && Valid()
      ensures flag in {0, 1, 2} && (flag == 0 <==> old(locked)) && (flag == 1 ==> !locked) && (flag == 2 ==> locked)
      ensures flag == 0 ==> View() == old(View()) && locked && count == 0
      ensures flag != 0 ==> count == (if key in old(Contents()) then 1 else 0) && Contents() == old(Contents()) - {key}
      ensures flag == 2 <==> count == 1 && numKeys as real < contractionThreshold
      ensures numKeys == old(numKeys) - count && numInserts == old(numInserts) && model == old(model) && maxSlots == old(maxSlots)
      ensures expansionThreshold == old(expansionThreshold) && contractionThreshold == old(contractionThreshold)
    {
      hide GappedTo, Entries, ToMap, FirstGreater, ViewOf, Fits;
      count := 0;
      if locked {
        return 0, count;
      }
      locked := true;
      var predicted := PredictPosition(key);
      var bound := UpperBoundFrom(predicted, key);
      var present := EndsWith(bound, key);
      if !present {
        locked := false;
        return 1, count;
      }
      count := ClearKey(key, bound);
      numKeys := numKeys - count;
      if numKeys as real < contractionThreshold {
        return 2, count;
      }
      locked := false;
      flag := 1;
    }

    // Erases the slots of the key, which end before bound; returns how many of them were real.
    method ClearKey(key: int, bound: int) returns (erased: int)
      requires Shape() && Fits(bitmap[..], keySlots.Length) && Gapped(View())
      requires 0 < bound <= keySlots.Length && View()[bound - 1].key == key < END_SENTINEL && bound == FirstGreater(View(), key)
      modifies keySlots, bitmap
      ensures Fits(bitmap[..], keySlots.Length) && Gapped(View()) && erased == 1
      ensures key in old(Contents()) && Contents() == old(Contents()) - {key}
      ensures |Entries(View())| == old(|Entries(View())|) - 1
    {
      hide GappedTo, Entries, ToMap, Fits, Bit, FirstGreater;
      ghost var v, words := View(), bitmap[..];
      ghost var lo;
      erased, lo := ClearSlots(keySlots, bitmap, key, bound);
      Erased(v, View(), key, bound, lo);
      ClearedFits(words, bitmap[..], keySlots.Length, lo, bound);
      OneErased(v, key, lo, bound);
      RunCount(v, words, lo, bound);
    }

    // ----- Building and rebuilding -----

    // The number of keys an iterator finds between two slots.
    method CountBetween(left: int, right: int) returns (n: int)
      requires Valid() && 0 <= left <= right <= keySlots.Length && left < 64 * bitmap.Length
      ensures n == |Entries(View()[left..right])|
    {
      hide Bit, Entries, GappedTo, Rest, Fits;
      ghost var v := View();
      var it := new Iterator(bitmap, left);
      SkipGaps(v, left, it.curIdx, right);
      RestFrom(v, left, right);
      n := 0;
      ghost var e := Entries(v[left..right]);
      assert e[0..] == e;
      while it.curIdx < right && it.curIdx != -1
        invariant it.bitmap == bitmap && it.Valid() && it.curIdx >= -1 && fresh(it)
        invariant 0 <= n <= |e| && Rest(v, it.curIdx, right) == e[n..]
        decreases |e| - n
      {
        NextIs(v, it.curIdx, right, e, n);
        NextEntry(it, v, right);
        DropOne(e, n, Rest(v, it.curIdx, right));
        n := n + 1;
      }
      NothingLeft(v, it.curIdx, right, e, n);
    }

    // From sorted entries; the model is any function.
    constructor BulkLoad(values: seq<Entry>, predictor: int -> int, maxSlots: int)
      requires Ordered(values) && forall i :: 0 <= i < |values| ==> values[i].0 < END_SENTINEL
      ensures Valid() && !locked && Entries(View()) == values && Contents() == ToMap(values)
      ensures Sized(keySlots.Length, |values|, INIT_DENSITY, expansionThreshold, contractionThreshold) && numInserts == 0
      ensures keySlots.Length == CapacityFor(|values|, INIT_DENSITY) && model == predictor && this.maxSlots == maxSlots
      ensures contractionThreshold == if values == [] then 0.0 else keySlots.Length as real * MIN_DENSITY
      ensures values == [] ==> expansionThreshold == keySlots.Length as real
      ensures AsModelled(View(), values, predictor)
      ensures fresh(keySlots) && fresh(payloadSlots) && fresh(bitmap)
    {
      hide GappedTo, Entries, Fits, Bit, Holding, ToMap, ViewOf, AsModelled, Sized, CapacityFor;
      var keys, payloads, words := Built(values, predictor);
      SizedIs(keys.Length, |values|, INIT_DENSITY);
      keySlots, payloadSlots, bitmap := keys, payloads, words;
      numKeys, numInserts, locked, model := |values|, 0, false, predictor;
      this.maxSlots := maxSlots;
      expansionThreshold := if |values| == 0 then keys.Length as real else ExpandAt(keys.Length, |values|);
      contractionThreshold := if |values| == 0 then 0.0 else keys.Length as real * MIN_DENSITY;
    }

    // From the keys between two slots of a node that is being split. Keys that have been counted before are
    // not counted again, and where there are none no bitmap is read.
    constructor BulkLoadFromExisting(node: AlexDataNode, left: int, right: int, predictor: int -> int, precomputed: Count)
      requires node.Valid() && 0 <= left <= right <= node.keySlots.Length
      requires match precomputed
               case Known(n) => n == |Entries(node.View()[left..right])|
               case Unknown => left < 64 * node.bitmap.Length
      ensures Valid() && !locked && Entries(View()) == Entries(node.View()[left..right]) && AsModelled(View(), Entries(View()), predictor)
      ensures numKeys >= 0 && Sized(keySlots.Length, numKeys, MIN_DENSITY, expansionThreshold, contractionThreshold) && numInserts == 0
      ensures keySlots.Length == CapacityFor(numKeys, MIN_DENSITY) && model == predictor && maxSlots == node.maxSlots
      ensures fresh(keySlots) && fresh(payloadSlots) && fresh(bitmap)
    {
      hide GappedTo, Entries, Fits, Bit, Holding, ToMap, ViewOf, AsModelled, Sized, CapacityFor;
      var n;
      if precomputed.Known? {
        n := precomputed.n;
      } else {
        n := node.CountBetween(left, right);
      }
      var keys, payloads, words := BuiltFrom(node.keySlots, node.payloadSlots, node.bitmap, left, right, n, MIN_DENSITY, predictor);
      SizedIs(keys.Length, n, MIN_DENSITY);
      keySlots, payloadSlots, bitmap := keys, payloads, words;
      numKeys, numInserts, locked, model, maxSlots := n, 0, false, predictor, node.maxSlots;
      expansionThreshold := if n == 0 then keys.Length as real else ExpandAt(keys.Length, n);
      contractionThreshold := if n == 0 then 0.0 else keys.Length as real * MIN_DENSITY;
    }

    // A copy of a node at another density, lock bit included. For a node without keys the key slots
    // are left as they are.
    constructor ResizeFromExisting(node: AlexDataNode, density: real, predictor: int -> int)
      requires node.Valid() && 0.0 < density
      ensures Shape() && Fits(bitmap[..], keySlots.Length) && numKeys == node.numKeys && locked == node.locked
      ensures numKeys as real < expansionThreshold && fresh(keySlots) && fresh(payloadSlots) && fresh(bitmap)
      ensures numKeys > 0 ==> Valid() && Entries(View()) == Entries(node.View()) && Contents() == node.Contents()
      ensures numKeys > 0 ==> keySlots.Length == CapacityFor(numKeys, density) && AsModelled(View(), Entries(View()), predictor)
      ensures numKeys >= 0 && Sized(keySlots.Length, numKeys, if numKeys == 0 then MIN_DENSITY else density, expansionThreshold, contractionThreshold)
      ensures model == predictor && maxSlots == node.maxSlots && numInserts == node.numInserts
      ensures contractionThreshold == if numKeys == 0 then 0.0 else keySlots.Length as real * MIN_DENSITY
      ensures numKeys == 0 ==> (Valid() <==> forall i :: 0 <= i < keySlots.Length ==> keySlots[i] == END_SENTINEL)
    {
      hide GappedTo, Entries, Fits, Bit, Holding, ToMap, ViewOf, AsModelled, Sized, CapacityFor;
      var n := node.numKeys;
      numKeys, numInserts, locked, model, maxSlots := n, node.numInserts, node.locked, predictor, node.maxSlots;
      if n == 0 {
        var keys, payloads, words := Initialize(n, MIN_DENSITY);
        EmptyIs(keys[..], payloads[..], words[..]);
        SizedIs(keys.Length, n, MIN_DENSITY);
        keySlots, payloadSlots, bitmap := keys, payloads, words;
        expansionThreshold, contractionThreshold := keys.Length as real, 0.0;
      } else {
        ghost var view := node.View();
        assert view[0..node.keySlots.Length] == view;
        var keys, payloads, words :=
          BuiltFrom(node.keySlots, node.payloadSlots, node.bitmap, 0, node.keySlots.Length, n, density, predictor);
        SizedIs(keys.Length, n, density);
        keySlots, payloadSlots, bitmap := keys, payloads, words;
        expansionThreshold, contractionThreshold := ExpandAt(keys.Length, n), keys.Length as real * MIN_DENSITY;
      }
    }

    // The same in place; a node without keys stays as it is.
    method Resize(density: real, predictor: int -> int)
      requires Valid() && 0.0 < density
      modifies this
      ensures Valid() && locked == old(locked) && numKeys == old(numKeys)
      ensures Entries(View()) == old(Entries(View())) && Contents() == old(Contents())
      ensures numKeys == 0 ==> View() == old(View())
      ensures numKeys > 0 ==> keySlots.Length == CapacityFor(numKeys, density) && model == predictor && AsModelled(View(), Entries(View()), predictor)
      ensures numKeys > 0 ==> Sized(keySlots.Length, numKeys, density, expansionThreshold, contractionThreshold)
      ensures maxSlots == old(maxSlots) && numInserts == old(numInserts) && (numKeys == 0 ==> unchanged(this))
      ensures numKeys > 0 ==> numKeys as real < expansionThreshold && fresh(keySlots) && fresh(payloadSlots) && fresh(bitmap)
    {
      hide GappedTo, Entries, Fits, Bit, Holding, ToMap, ViewOf, AsModelled, Sized, CapacityFor;
      if numKeys == 0 {
        return;
      }
      ghost var view := View();
      assert view[0..keySlots.Length] == view;
      var keys, payloads, words := BuiltFrom(keySlots, payloadSlots, bitmap, 0, keySlots.Length, numKeys, density, predictor);
      SizedIs(keys.Length, numKeys, density);
      model := predictor;
      keySlots, payloadSlots, bitmap := keys, payloads, words;
      expansionThreshold, contractionThreshold := ExpandAt(keys.Length, numKeys), keys.Length as real * MIN_DENSITY;
    }

    // Once the node is in place its lock is released.
    method ReleaseLock()
      requires Valid() && numKeys as real < expansionThreshold
      modifies this`locked
      ensures Valid() && !locked && View() == old(View())
    {
      locked := false;
    }
  }

  // Without real slots the array is right if and only if every slot holds the sentinel.
  lemma EmptyIs(keys: seq<int>, payloads: seq<int>, words: seq<Word>)
    requires |payloads| == |keys| <= 64 * |words| && forall i: nat :: i < 64 * |words| ==> !Bit(words, i)
    ensures Entries(ViewOf(keys, payloads, words)) == []
    ensures Gapped(ViewOf(keys, payloads, words)) <==> forall i :: 0 <= i < |keys| ==> keys[i] == END_SENTINEL
  {
    hide GappedTo, Entries, Bit;
    var v := ViewOf(keys, payloads, words);
    NoEntries(v);
    if Gapped(v) {
      forall i | 0 <= i < |keys| ensures keys[i] == END_SENTINEL {
        GapsEqual(v, i);
      }
    }
    if forall i :: 0 <= i < |keys| ==> keys[i] == END_SENTINEL {
      GapsGapped(v, END_SENTINEL);
    }
  }

  lemma {:induction false} NoEntries(v: seq<Slot>)
    requires forall i :: 0 <= i < |v| ==> !v[i].used
    ensures Entries(v) == []
  {
    if v != [] {
      NoEntries(v[1..]);
    }
  }

  lemma {:induction false} GapsEqual(v: seq<Slot>, i: nat)
    requires Gapped(v) && i < |v| && forall j :: i <= j < |v| ==> !v[j].used
    ensures v[i].key == END_SENTINEL
    decreases |v| - i
  {
    assert OkAt(v, END_SENTINEL, i);
    if i + 1 < |v| {
      GapsEqual(v, i + 1);
    }
  }

  function CountSet(words: seq<Word>, lo: nat, hi: nat): nat
    requires hi <= 64 * |words|
    decreases hi - lo
  {
    if lo >= hi then 0 else (if Bit(words, lo) then 1 else 0) + CountSet(words, lo + 1, hi)
  }

  lemma {:induction false} RunCount(v: seq<Slot>, words: seq<Word>, lo: nat, hi: nat)
    requires |v| <= 64 * |words| && lo <= hi <= |v| && forall i: nat :: i < |v| ==> v[i].used == Bit(words, i)
    ensures CountSet(words, lo, hi) == UsedIn(v[lo..hi])
    decreases hi - lo
  {
    hide Bit;
    if lo < hi {
      RunCount(v, words, lo + 1, hi);
      OneMore(v, lo, hi);
    }
  }

  method ClearSlots(keys: array<int>, bitmap: array<Word>, key: int, bound: int) returns (erased: int, ghost lo: int)
    requires 0 < bound <= keys.Length <= 64 * bitmap.Length && keys[bound - 1] == key
    modifies keys, bitmap
    ensures 0 <= lo < bound && (lo > 0 ==> old(keys[lo - 1]) != key) && (forall i :: lo <= i < bound ==> old(keys[i]) == key)
    ensures forall i :: 0 <= i < keys.Length ==>
              keys[i] == if lo <= i < bound then (if bound == keys.Length then END_SENTINEL else old(keys[bound])) else old(keys[i])
    ensures forall i: nat :: i < 64 * bitmap.Length ==> Bit(bitmap[..], i) == (!(lo <= i < bound) && old(Bit(bitmap[..], i)))
    ensures erased == CountSet(old(bitmap[..]), lo, bound)
  {
    hide Bit;
    var nextKey := if bound == keys.Length then END_SENTINEL else keys[bound];
    erased := 0;
    var pos := bound - 1;
    while pos >= 0 && keys[pos] == key
      invariant -1 <= pos < bound && (pos == bound - 1 ==> keys[pos] == key)
      invariant forall i :: 0 <= i < keys.Length ==> keys[i] == if pos < i < bound then nextKey else old(keys[i])
      invariant forall i: nat :: i < 64 * bitmap.Length ==> Bit(bitmap[..], i) == (!(pos < i < bound) && old(Bit(bitmap[..], i)))
      invariant forall i :: pos < i < bound ==> old(keys[i]) == key
      invariant erased == CountSet(old(bitmap[..]), pos + 1, bound)
    {
      keys[pos] := nextKey;
      var exists_ := CheckExists(bitmap, pos);
      erased := erased + (if exists_ then 1 else 0);
      UnsetBit(bitmap, pos);
      pos := pos - 1;
    }
    lo := pos + 1;
  }

  lemma StillFits(words: seq<Word>, words': seq<Word>, cap: nat, p: nat)
    requires Fits(words, cap) && |words'| == |words| && p < cap
    requires forall i: nat :: i < 64 * |words| && i != p ==> Bit(words', i) == Bit(words, i)
    ensures Fits(words', cap)
  {
    hide Bit;
  }

  lemma ClearedFits(words: seq<Word>, words': seq<Word>, cap: nat, lo: nat, hi: nat)
    requires Fits(words, cap) && |words'| == |words|
    requires forall i: nat :: i < 64 * |words| ==> Bit(words', i) == (!(lo <= i < hi) && Bit(words, i))
    ensures Fits(words', cap)
  {
    hide Bit;
  }

  lemma OneMore(v: seq<Slot>, pos: nat, bound: nat)
    requires pos < bound <= |v|
    ensures UsedIn(v[pos..bound]) == (if v[pos].used then 1 else 0) + UsedIn(v[pos + 1..bound])
  {
    UsedInIs(v[pos..bound]);
    UsedInIs(v[pos + 1..bound]);
    assert v[pos..bound][1..] == v[pos + 1..bound];
  }

  // The run of slots with the key, from lo to bound, holds one real entry.
  lemma OneErased(v: seq<Slot>, key: int, lo: nat, bound: nat)
    requires Gapped(v) && lo < bound <= |v| && v[bound - 1].key < FirstKey(v[bound..], END_SENTINEL)
    requires forall i :: lo <= i < bound ==> v[i].key == key
    ensures UsedIn(v[lo..bound]) == 1
  {
    forall i | lo <= i < bound ensures v[i].used == (i == bound - 1) {
      assert OkAt(v, END_SENTINEL, i);
    }
    assert v[lo..bound][..bound - 1 - lo] == v[lo..bound - 1];
    NoneUsed(v[lo..bound - 1]);
  }

  lemma {:induction false} NoneUsed(v: seq<Slot>)
    requires forall i :: 0 <= i < |v| ==> !v[i].used
    ensures UsedIn(v) == 0
  {
    if v != [] {
      NoneUsed(v[..|v| - 1]);
    }
  }

  lemma Erased(v: seq<Slot>, w: seq<Slot>, key: int, bound: nat, lo: nat)
    requires Gapped(v) && key < END_SENTINEL && 0 < bound <= |v| == |w| && lo < bound && bound == FirstGreater(v, key)
    requires lo > 0 ==> v[lo - 1].key != key
    requires forall i :: lo <= i < bound ==> v[i].key == key
    requires forall i :: 0 <= i < |v| ==>
               w[i] == if lo <= i < bound then Slot(FirstKey(v[bound..], END_SENTINEL), v[i].payload, false) else v[i]
    ensures Gapped(w) && key in ToMap(Entries(v)) && ToMap(Entries(w)) == ToMap(Entries(v)) - {key}
    ensures |Entries(w)| == |Entries(v)| - 1
  {
    hide GappedTo, Entries, ToMap;
    var a, b, next := v[..bound], v[bound..], FirstKey(v[bound..], END_SENTINEL);
    assert v == a + b;
    assert w == w[..bound] + b;
    ClearedIs(a, key, next, lo, w[..bound]);
    ClearedGapped(a, key, b);
  }

  // Fewer entries than slots leave a gap.
  lemma HasGap(keys: seq<int>, payloads: seq<int>, words: seq<Word>)
    requires |payloads| == |keys| <= 64 * |words| && |Entries(ViewOf(keys, payloads, words))| < |keys|
    ensures !NoGap(words, |keys|, 0, |keys|)
  {
    var v := ViewOf(keys, payloads, words);
    if forall i :: 0 <= i < |v| ==> v[i].used {
      AllUsed(v);
      assert false;
    }
    var i :| 0 <= i < |v| && !v[i].used;
    assert IsGap(words, |keys|, i);
  }

  lemma {:induction false} AllUsed(v: seq<Slot>)
    requires forall i :: 0 <= i < |v| ==> v[i].used
    ensures |Entries(v)| == |v|
  {
    if v != [] {
      AllUsed(v[1..]);
    }
  }

  // ----- Any run of operations -----

  datatype Op = Find(key: int) | Put(key: int, payload: int) | Set(key: int, payload: int) | Remove(key: int)

  datatype Answer = Missing | Payload(payload: int) | Done(yes: bool)

  // The finite map's answers.
  function MapAnswer(m: map<int, int>, op: Op): Answer {
    match op
    case Find(k) => if k in m then Payload(m[k]) else Missing
    case Put(k, _) => Done(k !in m)
    case Set(k, _) => Done(k in m)
    case Remove(k) => Done(k in m)
  }

  function MapAfter(m: map<int, int>, op: Op): map<int, int> {
    match op
    case Find(_) => m
    case Put(k, x) => if k in m then m else m[k := x]
    case Set(k, x) => if k in m then m[k := x] else m
    case Remove(k) => m - {k}
  }

  function MapRun(m: map<int, int>, ops: seq<Op>): map<int, int> {
    if ops == [] then m else MapAfter(MapRun(m, ops[..|ops| - 1]), ops[|ops| - 1])
  }

  function MapAnswers(m: map<int, int>, ops: seq<Op>): seq<Answer> {
    if ops == [] then []
    else MapAnswers(m, ops[..|ops| - 1]) + [MapAnswer(MapRun(m, ops[..|ops| - 1]), ops[|ops| - 1])]
  }

  // The operation erases the only key.
  predicate Empties(m: map<int, int>, op: Op) { op.Remove? && m.Keys == {op.key} }

  // A node with keys can be contracted. One that was built without has one slot, so it is copied once it
  // gets a key.
  predicate Contracts(node: AlexDataNode) reads node {
    0.0 < node.contractionThreshold || (node.numKeys == 0 && node.expansionThreshold <= 1.0)
  }

  // The operation on the node, and the copy that replaces the node when it has to be restructured.
  // Not ok: the copy of a node whose last key has been erased.
  method Apply(node: AlexDataNode, op: Op, catastrophic: bool, deviates: bool, predictor: int -> int)
    returns (next: AlexDataNode, answer: Answer, ok: bool)
    requires node.Valid() && !node.locked && op.key < END_SENTINEL && Contracts(node)
    modifies node, node.keySlots, node.payloadSlots, node.bitmap
    ensures ok ==> next.Valid() && !next.locked && next.Contents() == MapAfter(old(node.Contents()), op)
    ensures ok ==> next == node || fresh(next)
    ensures ok ==> next.keySlots == old(node.keySlots) || fresh(next.keySlots)
    ensures ok ==> next.payloadSlots == old(node.payloadSlots) || fresh(next.payloadSlots)
    ensures ok ==> next.bitmap == old(node.bitmap) || fresh(next.bitmap)
    ensures answer == MapAnswer(old(node.Contents()), op)
    ensures ok <==> !Empties(old(node.Contents()), op)
    ensures ok ==> Contracts(next)
  {
    hide GappedTo, Entries, ToMap, ViewOf, Fits, AsModelled;
    SizeOf(node);
    OnlyKey(node.Contents(), op.key);
    next, ok := node, true;
    if op.Find? {
      var done, payload, found := node.FindPayload(op.key);
      answer := if found then Payload(payload) else Missing;
    } else if op.Set? {
      var done, updated := node.Update(op.key, op.payload);
      answer := Done(updated);
    } else if op.Put? {
      var flag, position, at := node.Insert(op.key, op.payload, catastrophic, deviates);
      answer := Done(flag != -1);
      if flag != 0 && flag != -1 {
        SizeOf(node);
        next := Replacement(node, MIN_DENSITY, predictor);
      }
    } else {
      var flag, count := node.Erase(op.key);
      answer := Done(count == 1);
      if flag == 2 {
        if node.numKeys == 0 {
          ok := false;
        } else {
          next := Replacement(node, MAX_DENSITY, predictor);
        }
      }
    }
  }

  // The copy that replaces a locked node, and its release.
  method Replacement(node: AlexDataNode, density: real, predictor: int -> int) returns (next: AlexDataNode)
    requires node.Valid() && 0.0 < density && node.numKeys > 0
    ensures next.Valid() && !next.locked && next.Contents() == node.Contents() && 0.0 < next.contractionThreshold
    ensures fresh(next) && fresh(next.keySlots) && fresh(next.payloadSlots) && fresh(next.bitmap)
  {
    hide GappedTo, Entries, ToMap, ViewOf, Fits, AsModelled;
    next := new AlexDataNode.ResizeFromExisting(node, density, predictor);
    next.ReleaseLock();
  }

  lemma SizeOf(node: AlexDataNode)
    requires node.Valid()
    ensures node.numKeys == |node.Contents()|
  {
    hide GappedTo, Entries, ToMap;
    EntriesOrdered(node.View(), END_SENTINEL);
    MapHolds(Entries(node.View()));
  }

  lemma OnlyKey(m: map<int, int>, key: int)
    ensures m.Keys == {key} <==> key in m && |m| == 1
  {
    assert |m.Keys| == |m|;
    if key in m && |m| == 1 {
      assert |m.Keys - {key}| == 0;
      assert m.Keys == {key} + (m.Keys - {key});
    }
  }

  // Whatever the models predict and whenever the cost model asks for a copy, a node answers any run of
  // operations like a finite map, up to the first operation that erases its only key.
  method RunOps(values: seq<Entry>, ops: seq<Op>, maxSlots: int, catastrophic: int -> bool, deviates: int -> bool,
                models: int -> (int -> int))
    returns (node: AlexDataNode, answers: seq<Answer>)
    requires Ordered(values) && (forall i :: 0 <= i < |values| ==> values[i].0 < END_SENTINEL)
    requires forall i :: 0 <= i < |ops| ==> ops[i].key < END_SENTINEL
    ensures |answers| <= |ops| && answers == MapAnswers(ToMap(values), ops[..|answers|])
    ensures |answers| == |ops| ==> node.Valid() && node.Contents() == MapRun(ToMap(values), ops)
    ensures forall j :: 0 <= j < |answers| ==> !Empties(MapRun(ToMap(values), ops[..j]), ops[j])
    ensures |answers| < |ops| ==> Empties(MapRun(ToMap(values), ops[..|answers|]), ops[|answers|])
  {
    hide GappedTo, Entries, ToMap, ViewOf, Fits, Empties, MapRun, MapAnswers, MapAfter, MapAnswer, AsModelled;
    MapNone(ToMap(values));
    node := new AlexDataNode.BulkLoad(values, models(-1), maxSlots);
    answers := [];
    var i := 0;
    while i < |ops|
      invariant 0 <= i <= |ops| && |answers| == i && answers == MapAnswers(ToMap(values), ops[..i])
      invariant node.Valid() && !node.locked && node.Contents() == MapRun(ToMap(values), ops[..i]) && Contracts(node)
      invariant fresh(node) && fresh(node.keySlots) && fresh(node.payloadSlots) && fresh(node.bitmap)
      invariant forall j :: 0 <= j < i ==> !Empties(MapRun(ToMap(values), ops[..j]), ops[j])
    {
      var next, answer, ok := Apply(node, ops[i], catastrophic(i), deviates(i), models(i));
      MapNext(ToMap(values), ops, i);
      if !ok {
        return;
      }
      node := next;
      answers := answers + [answer];
      i := i + 1;
    }
    assert ops[..i] == ops;
  }

  lemma MapNone(m: map<int, int>)
    ensures MapRun(m, []) == m && MapAnswers(m, []) == []
  {
  }

  lemma MapNext(m: map<int, int>, ops: seq<Op>, i: nat)
    requires i < |ops|
    ensures MapRun(m, ops[..i + 1]) == MapAfter(MapRun(m, ops[..i]), ops[i])
    ensures MapAnswers(m, ops[..i + 1]) == MapAnswers(m, ops[..i]) + [MapAnswer(MapRun(m, ops[..i]), ops[i])]
  {
    assert ops[..i + 1][..i] == ops[..i];
  }

  // A run that stops: the only key of a node is erased.
  method LastKeyErased(key: int, payload: int, predictor: int -> int) returns (answers: seq<Answer>)
    requires key < END_SENTINEL
    ensures answers == []
  {
    var node;
    assert [(key, payload)][1..] == [];
    assert ToMap([(key, payload)]).Keys == {key};
    node, answers := RunOps([(key, payload)], [Remove(key)], 64, _ => false, _ => false, _ => predictor);
    assert [Remove(key)][..0] == [];
  }

  // What the copy of a node without keys can be like: one slot, no real key, and a key in the slot that
  // nobody has put there. It is not a valid node, and a lookup finds that key.
  lemma CopyOfNothing(key: int, payload: int)
    requires key < END_SENTINEL
    ensures CapacityFor(0, MIN_DENSITY) == 1
    ensures var v := ViewOf([key], [payload], [Zero()]);
            && Entries(v) == [] && !Gapped(v) && key !in ToMap(Entries(v))
            && FirstGreater(v, key) == 1 && v[0].key == key
  {
    hide GappedTo;
    forall i: nat | i < 64 ensures !Bit([Zero()], i) {
    }
    EmptyIs([key], [payload], [Zero()]);
    var v := ViewOf([key], [payload], [Zero()]);
    assert v[1..] == [];
  }

  // ----- The node's own validation -----

  function KeyAt(v: seq<Slot>, i: int): int
    requires 0 <= i < |v|
  {
    v[i].key
  }

  // What the debugging check of the node looks at.
  ghost predicate ValidatesStructure(v: seq<Slot>, numKeys: int) {
    && (forall i :: 0 <= i < |v| - 1 ==> KeyAt(v, i) <= KeyAt(v, i + 1) && (KeyAt(v, i) < KeyAt(v, i + 1) ==> v[i].used))
    && (|v| > 0 ==> (v[|v| - 1].key == END_SENTINEL <==> !v[|v| - 1].used))
    && UsedIn(v) == numKeys
  }

  // A node without repeated real keys passes the check exactly if it is a gapped array.
  lemma ValidationIsTheInvariant(v: seq<Slot>, numKeys: int)
    requires forall i :: 0 <= i < |v| ==> v[i].key <= END_SENTINEL
    requires forall i :: 0 <= i < |v| - 1 && v[i].used ==> KeyAt(v, i) != KeyAt(v, i + 1)
    ensures ValidatesStructure(v, numKeys) <==> Gapped(v) && numKeys == |Entries(v)|
  {
    hide Entries;
    UsedInIs(v);
    if Gapped(v) {
      forall i | 0 <= i < |v| - 1 ensures KeyAt(v, i) <= KeyAt(v, i + 1) && (KeyAt(v, i) < KeyAt(v, i + 1) ==> v[i].used) {
        assert OkAt(v, END_SENTINEL, i);
      }
      assert |v| > 0 ==> OkAt(v, END_SENTINEL, |v| - 1);
    }
    if ValidatesStructure(v, numKeys) {
      forall i | 0 <= i < |v| ensures OkAt(v, END_SENTINEL, i) {
        if i < |v| - 1 {
          assert KeyAt(v, i) <= KeyAt(v, i + 1);
        }
      }
    }
  }
}
