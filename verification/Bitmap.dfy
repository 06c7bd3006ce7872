// The bitmap of a data node: which slots hold a real key. A 64-bit word is modelled as its bits,
// the least significant first, so `~`, `&` and `|` work bit by bit.
module Bitmap {

  type Word = w: seq<bool> | |w| == 64 witness seq(64, _ => false)

  function Not(w: Word): Word { seq(64, i requires 0 <= i < 64 => !w[i]) }

  function And(w: Word, x: Word): Word { seq(64, i requires 0 <= i < 64 => w[i] && x[i]) }

  function Or(w: Word, x: Word): Word { seq(64, i requires 0 <= i < 64 => w[i] || x[i]) }

  // 1 << k
  function OneBit(k: nat): Word { seq(64, i => i == k) }

  // (1 << k) - 1
  function LowBits(k: nat): Word { seq(64, i => i < k) }

  // The word -1.
  function Ones(): Word { seq(64, _ => true) }

  function Zero(): Word { seq(64, _ => false) }

  function Popcnt(w: seq<bool>): nat {
    if w == [] then 0 else (if w[0] then 1 else 0) + Popcnt(w[1..])
  }

  // The number of trailing zeros, 64 for the zero word.
  function Tzcnt(w: seq<bool>): (n: nat)
    ensures n <= |w| && (forall i :: 0 <= i < n ==> !w[i]) && (n < |w| ==> w[n])
  {
    if w == [] || w[0] then 0 else 1 + Tzcnt(w[1..])
  }

  // The number of leading zeros, 64 for the zero word.
  function Lzcnt(w: seq<bool>): (n: nat)
    ensures n <= |w| && (forall i :: |w| - n <= i < |w| ==> !w[i]) && (n < |w| ==> w[|w| - 1 - n])
  {
    if w == [] || w[|w| - 1] then 0 else 1 + Lzcnt(w[..|w| - 1])
  }

  // ----- Positions -----

  predicate Bit(words: seq<Word>, i: nat)
    requires i < 64 * |words|
  {
    words[i / 64][i % 64]
  }

  function Bits(words: seq<Word>, n: nat): seq<bool>
    requires n <= 64 * |words|
  {
    seq(n, i requires 0 <= i < n => Bit(words, i))
  }

  lemma At(b: int, k: int)
    requires 0 <= b && 0 <= k < 64
    ensures (64 * b + k) / 64 == b && (64 * b + k) % 64 == k
  {
  }

  // One word for every started block of 64 slots, and no bit set past the last slot.
  ghost predicate Fits(words: seq<Word>, cap: nat) {
    && 64 * (|words| - 1) < cap <= 64 * |words|
    && forall i: nat :: cap <= i < 64 * |words| ==> !Bit(words, i)
  }

  method CheckExists(bitmap: array<Word>, pos: int) returns (b: bool)
    requires 0 <= pos < 64 * bitmap.Length
    ensures b == Bit(bitmap[..], pos)
  {
    var bitmapPos := pos / 64;
    var bitPos := pos - 64 * bitmapPos;
    var w := And(bitmap[bitmapPos], OneBit(bitPos));
    b := w != Zero();
    if w[bitPos] {
      assert w[bitPos] != Zero()[bitPos];
    } else {
      assert w == Zero();
    }
  }

  method SetBit(bitmap: array<Word>, pos: int)
    requires 0 <= pos < 64 * bitmap.Length
    modifies bitmap
    ensures forall i: nat :: i < 64 * bitmap.Length ==> Bit(bitmap[..], i) == (i == pos || old(Bit(bitmap[..], i)))
  {
    var bitmapPos := pos / 64;
    var bitPos := pos - 64 * bitmapPos;
    bitmap[bitmapPos] := Or(bitmap[bitmapPos], OneBit(bitPos));
  }

  method UnsetBit(bitmap: array<Word>, pos: int)
    requires 0 <= pos < 64 * bitmap.Length
    modifies bitmap
    ensures forall i: nat :: i < 64 * bitmap.Length ==> Bit(bitmap[..], i) == (i != pos && old(Bit(bitmap[..], i)))
  {
    var bitmapPos := pos / 64;
    var bitPos := pos - 64 * bitmapPos;
    bitmap[bitmapPos] := And(bitmap[bitmapPos], Not(OneBit(bitPos)));
  }

  // ----- The next filled position -----

  ghost predicate NoneSet(words: seq<Word>, lo: int, hi: int) {
    forall i: nat :: lo <= i < hi && i < 64 * |words| ==> !Bit(words, i)
  }

  // The first filled position from pos (after pos, if exclusive), or the capacity. The word in which
  // the search starts is read without a check, so a search from the capacity itself is out of range
  // exactly when the capacity is a multiple of 64.
  method GetNextFilledPosition(bitmap: array<Word>, dataCapacity: int, pos0: int, exclusive: bool) returns (r: int)
    requires 0 <= pos0 <= dataCapacity && Fits(bitmap[..], dataCapacity)
    requires pos0 == dataCapacity ==> !exclusive && dataCapacity % 64 != 0
    ensures (if exclusive then pos0 + 1 else pos0) <= r <= dataCapacity
    ensures NoneSet(bitmap[..], if exclusive then pos0 + 1 else pos0, r)
    ensures r < dataCapacity ==> Bit(bitmap[..], r)
  {
    hide Tzcnt, RemoveRightmostOne;
    var pos := pos0;
    if exclusive {
      pos := pos + 1;
      if pos == dataCapacity {
        return dataCapacity;
      }
    }
    var cur := pos / 64;
    var bitPos := pos - 64 * cur;
    var data := And(bitmap[cur], Not(LowBits(bitPos)));
    while data == Zero()
      invariant 0 <= cur < bitmap.Length && pos <= 64 * cur + 64
      invariant forall k :: 0 <= k < 64 ==> data[k] == (64 * cur + k >= pos && bitmap[cur][k])
      invariant NoneSet(bitmap[..], pos, 64 * cur)
      decreases bitmap.Length - cur
    {
      WordEmpty(bitmap[..], pos, cur, data);
      cur := cur + 1;
      if cur >= bitmap.Length {
        return dataCapacity;
      }
      data := bitmap[cur];
    }
    SomeSet(data);
    WordFirst(bitmap[..], pos, cur, data);
    r := 64 * cur + Tzcnt(data);
  }

  lemma SomeSet(w: Word)
    ensures Tzcnt(w) == 64 ==> w == Zero()
    ensures Lzcnt(w) == 64 ==> w == Zero()
  {
    if Tzcnt(w) == 64 || Lzcnt(w) == 64 {
      assert w == Zero();
    }
  }

  // ----- The closest gap -----

  predicate IsGap(words: seq<Word>, cap: nat, i: int)
    requires cap <= 64 * |words|
  {
    0 <= i < cap && !Bit(words, i)
  }

  ghost predicate NoGap(words: seq<Word>, cap: nat, lo: int, hi: int)
    requires cap <= 64 * |words|
  {
    forall i {:trigger IsGap(words, cap, i)} :: lo <= i < hi ==> !IsGap(words, cap, i)
  }

  function Distance(i: int, j: int): nat { if i < j then j - i else i - j }

  // g is a gap, no gap is nearer to p, and of two gaps at the same distance it is the left one.
  ghost predicate Closest(words: seq<Word>, cap: nat, p: int, g: int)
    requires cap <= 64 * |words|
  {
    && IsGap(words, cap, g)
    && forall i {:trigger IsGap(words, cap, i)} :: IsGap(words, cap, i) ==>
         Distance(g, p) < Distance(i, p) || (Distance(g, p) == Distance(i, p) && g <= i)
  }

  lemma PickLeft(words: seq<Word>, cap: nat, p: int, g: int)
    requires cap <= 64 * |words| && g <= p
    requires IsGap(words, cap, g) && NoGap(words, cap, g + 1, 2 * p - g)
    ensures Closest(words, cap, p, g)
  {
  }

  lemma PickRight(words: seq<Word>, cap: nat, p: int, g: int)
    requires cap <= 64 * |words| && g >= p
    requires IsGap(words, cap, g) && NoGap(words, cap, 2 * p - g, g)
    ensures Closest(words, cap, p, g)
  {
  }

  lemma Joined(words: seq<Word>, cap: nat, lo: int, mid: int, hi: int)
    requires cap <= 64 * |words| && NoGap(words, cap, lo, mid) && NoGap(words, cap, mid, hi)
    ensures NoGap(words, cap, lo, hi)
  {
  }

  lemma Outside(words: seq<Word>, cap: nat, lo: int, hi: int)
    requires cap <= 64 * |words| && (hi <= 0 || lo >= cap)
    ensures NoGap(words, cap, lo, hi)
  {
  }

  lemma FullBlock(words: seq<Word>, cap: nat, b: int)
    requires cap <= 64 * |words| && 0 <= b < |words| && words[b] == Ones()
    ensures NoGap(words, cap, 64 * b, 64 * b + 64)
  {
    forall i | 64 * b <= i < 64 * b + 64 ensures !IsGap(words, cap, i) {
      At(b, i - 64 * b);
    }
  }

  // The last gap of block b.
  function LeftGap(words: seq<Word>, b: nat): int
    requires b < |words|
  {
    64 * (b + 1) - Lzcnt(Not(words[b])) - 1
  }

  lemma LeftGapIs(words: seq<Word>, cap: nat, b: nat)
    requires b < |words| && cap <= 64 * |words|
    ensures NoGap(words, cap, LeftGap(words, b) + 1, 64 * b + 64)
    ensures words[b] != Ones() ==> 64 * b <= LeftGap(words, b) < 64 * b + 64 && !Bit(words, LeftGap(words, b))
    ensures words[b] == Ones() ==> LeftGap(words, b) == 64 * b - 1
  {
    var w := Not(words[b]);
    var g := LeftGap(words, b);
    if Lzcnt(w) == 64 {
      assert words[b] == Ones() by {
        forall i | 0 <= i < 64 ensures words[b][i] { assert !w[i]; }
      }
    } else {
      At(b, g - 64 * b);
      assert w[63 - Lzcnt(w)];
      assert words[b][63 - Lzcnt(w)] != Ones()[63 - Lzcnt(w)];
    }
    forall i | g < i < 64 * b + 64 ensures !IsGap(words, cap, i) {
      At(b, i - 64 * b);
      assert !w[i - 64 * b];
    }
  }

  // The first gap of block b. In the last block this may be a position past the last slot.
  function RightGap(words: seq<Word>, b: nat): int
    requires b < |words|
  {
    64 * b + Tzcnt(Not(words[b]))
  }

  lemma RightGapIs(words: seq<Word>, cap: nat, b: nat)
    requires b < |words| && cap <= 64 * |words|
    ensures NoGap(words, cap, 64 * b, RightGap(words, b))
    ensures words[b] != Ones() ==> 64 * b <= RightGap(words, b) < 64 * b + 64 && !Bit(words, RightGap(words, b))
    ensures words[b] == Ones() ==> RightGap(words, b) == 64 * b + 64
  {
    var w := Not(words[b]);
    var g := RightGap(words, b);
    if Tzcnt(w) == 64 {
      assert words[b] == Ones() by {
        forall i | 0 <= i < 64 ensures words[b][i] { assert !w[i]; }
      }
    } else {
      At(b, g - 64 * b);
      assert w[Tzcnt(w)];
      assert words[b][Tzcnt(w)] != Ones()[Tzcnt(w)];
    }
    forall i | 64 * b <= i < g ensures !IsGap(words, cap, i) {
      At(b, i - 64 * b);
      assert !w[i - 64 * b];
    }
  }

  // A last block with as many bits set as it has slots has no gap; with fewer, it has one.
  lemma {:induction false} PopcntBound(w: seq<bool>, n: nat)
    requires n <= |w| && forall i :: n <= i < |w| ==> !w[i]
    ensures Popcnt(w) <= n
    ensures Popcnt(w) == n <==> forall i :: 0 <= i < n ==> w[i]
  {
    if w != [] {
      if n == 0 {
        PopcntBound(w[1..], 0);
      } else {
        assert forall i :: 0 <= i < n - 1 ==> w[1..][i] == w[i + 1];
        PopcntBound(w[1..], n - 1);
        if w[0] && forall i :: 0 <= i < n - 1 ==> w[1..][i] {
          forall i | 0 <= i < n ensures w[i] { if i > 0 { assert w[1..][i - 1]; } }
        }
      }
    }
  }

  // What the source tests before it looks beyond pos's own block.
  predicate BlockIsFull(words: seq<Word>, cap: nat, b: nat)
    requires b < |words|
  {
    words[b] == Ones() || (b == |words| - 1 && Popcnt(words[b]) == cap - 64 * (|words| - 1))
  }

  lemma BlockIsFullIs(words: seq<Word>, cap: nat, b: nat)
    requires Fits(words, cap) && b < |words|
    ensures BlockIsFull(words, cap, b) <==> NoGap(words, cap, 64 * b, 64 * b + 64)
  {
    var w := words[b];
    if b == |words| - 1 {
      var n := cap - 64 * b;
      forall i | n <= i < 64 ensures !w[i] { At(b, i); assert !Bit(words, 64 * b + i); }
      PopcntBound(w, n);
      if Popcnt(w) == n {
        forall i | 64 * b <= i < 64 * b + 64 ensures !IsGap(words, cap, i) { At(b, i - 64 * b); }
      } else {
        var k :| 0 <= k < n && !w[k];
        At(b, k);
        assert IsGap(words, cap, 64 * b + k);
        assert w[k] != Ones()[k];
      }
    } else if w == Ones() {
      FullBlock(words, cap, b);
    } else {
      RightGapIs(words, cap, b);
      assert IsGap(words, cap, RightGap(words, b));
    }
  }

  // The gaps of pos's own block at or after pos, and before it.
  function RightGaps(w: Word, bitPos: nat): Word { Not(Or(w, LowBits(bitPos))) }

  function LeftGaps(w: Word, bitPos: nat): Word { And(Not(w), LowBits(bitPos)) }

  lemma RightGapsAre(words: seq<Word>, cap: nat, b: nat, bitPos: nat)
    requires b < |words| && cap <= 64 * |words| && bitPos < 64
    ensures var w := RightGaps(words[b], bitPos); var r := 64 * b + Tzcnt(w);
            if w == Zero() then NoGap(words, cap, 64 * b + bitPos, 64 * b + 64)
            else 64 * b + bitPos <= r < 64 * b + 64 && !Bit(words, r) && NoGap(words, cap, 64 * b + bitPos, r)
  {
    var w := RightGaps(words[b], bitPos);
    if w != Zero() {
      SomeSet(w);
      At(b, Tzcnt(w));
    }
    forall i | 64 * b + bitPos <= i < 64 * b + Tzcnt(w) ensures !IsGap(words, cap, i) {
      At(b, i - 64 * b);
      assert !w[i - 64 * b];
    }
    if w == Zero() {
      forall i | 64 * b + bitPos <= i < 64 * b + 64 ensures !IsGap(words, cap, i) {
        At(b, i - 64 * b);
        assert !Zero()[i - 64 * b];
      }
    }
  }

  lemma LeftGapsAre(words: seq<Word>, cap: nat, b: nat, bitPos: nat)
    requires b < |words| && cap <= 64 * |words| && bitPos < 64
    ensures var w := LeftGaps(words[b], bitPos); var l := 64 * b + 63 - Lzcnt(w);
            if w == Zero() then NoGap(words, cap, 64 * b, 64 * b + bitPos)
            else 64 * b <= l < 64 * b + bitPos && !Bit(words, l) && NoGap(words, cap, l + 1, 64 * b + bitPos)
  {
    var w := LeftGaps(words[b], bitPos);
    if w != Zero() {
      SomeSet(w);
      At(b, 63 - Lzcnt(w));
    }
    forall i | 64 * b + 63 - Lzcnt(w) < i < 64 * b + bitPos && 64 * b <= i ensures !IsGap(words, cap, i) {
      At(b, i - 64 * b);
      assert !w[i - 64 * b];
    }
    if w == Zero() {
      forall i | 64 * b <= i < 64 * b + bitPos ensures !IsGap(words, cap, i) {
        At(b, i - 64 * b);
        assert !Zero()[i - 64 * b];
      }
    }
  }

  lemma GapInOwnBlock(words: seq<Word>, cap: nat, b: nat) returns (i: int)
    requires Fits(words, cap) && b < |words| && !BlockIsFull(words, cap, b)
    ensures 64 * b <= i < 64 * b + 64 && IsGap(words, cap, i)
  {
    BlockIsFullIs(words, cap, b);
    i :| 64 * b <= i < 64 * b + 64 && IsGap(words, cap, i);
  }

  // From what is known of the nearest gap on each side to the choice between them.
  lemma Choose(words: seq<Word>, cap: nat, pos: int, right: nat, left: nat)
    requires cap <= 64 * |words|
    requires NoGap(words, cap, pos, pos + right) && NoGap(words, cap, pos - left + 1, pos)
    requires if right < left && pos + right < cap then IsGap(words, cap, pos + right) else IsGap(words, cap, pos - left)
    ensures Closest(words, cap, pos, if right < left && pos + right < cap then pos + right else pos - left)
  {
    if right < left && pos + right < cap {
      PickRight(words, cap, pos, pos + right);
    } else {
      PickLeft(words, cap, pos, pos - left);
    }
  }

  // How far right of pos the first gap in its own block or the next one is. 64 and 128 - bitPos
  // stand for none.
  method RightDistance(bitmap: array<Word>, dataCapacity: int, pos: int) returns (d: int)
    requires 0 <= pos < dataCapacity && Fits(bitmap[..], dataCapacity)
    ensures d >= 0 && NoGap(bitmap[..], dataCapacity, pos, pos + d)
    ensures d != 128 - pos % 64 && pos + d < dataCapacity ==> IsGap(bitmap[..], dataCapacity, pos + d)
  {
    hide RightGaps, Not, Zero, Ones;
    ghost var words := bitmap[..];
    var bitmapPos := pos / 64;
    var bitPos := pos - 64 * bitmapPos;
    d := 64;
    RightGapsAre(words, dataCapacity, bitmapPos, bitPos);
    var rightGaps := RightGaps(bitmap[bitmapPos], bitPos);
    if rightGaps != Zero() {
      d := Tzcnt(rightGaps) - bitPos;
    } else if bitmapPos + 1 < bitmap.Length {
      d := 64 + Tzcnt(Not(bitmap[bitmapPos + 1])) - bitPos;
      RightGapIs(words, dataCapacity, bitmapPos + 1);
    }
  }

  // How far left of pos the last gap in its own block or the one before is. 64 and bitPos + 65 stand
  // for none.
  method LeftDistance(bitmap: array<Word>, dataCapacity: int, pos: int) returns (d: int)
    requires 0 <= pos < dataCapacity && Fits(bitmap[..], dataCapacity)
    ensures d >= 0 && NoGap(bitmap[..], dataCapacity, pos - d + 1, pos)
    ensures d != 64 + pos % 64 + 1 && (pos >= 64 || d != 64) ==> IsGap(bitmap[..], dataCapacity, pos - d)
  {
    hide LeftGaps, Not, Zero, Ones;
    ghost var words := bitmap[..];
    var bitmapPos := pos / 64;
    var bitPos := pos - 64 * bitmapPos;
    d := 64;
    LeftGapsAre(words, dataCapacity, bitmapPos, bitPos);
    var leftGaps := LeftGaps(bitmap[bitmapPos], bitPos);
    if leftGaps != Zero() {
      d := bitPos - (63 - Lzcnt(leftGaps));
    } else if bitmapPos > 0 {
      d := bitPos + Lzcnt(Not(bitmap[bitmapPos - 1])) + 1;
      LeftGapIs(words, dataCapacity, bitmapPos - 1);
    }
  }

  // The search in and next to pos's own block, which has a gap.
  method GapNearBlock(bitmap: array<Word>, dataCapacity: int, pos: int) returns (g: int)
    requires 0 <= pos < dataCapacity && Fits(bitmap[..], dataCapacity)
    requires !BlockIsFull(bitmap[..], dataCapacity, pos / 64)
    ensures Closest(bitmap[..], dataCapacity, pos, g)
  {
    hide Closest, BlockIsFull;
    ghost var own := GapInOwnBlock(bitmap[..], dataCapacity, pos / 64);
    var closestRight := RightDistance(bitmap, dataCapacity, pos);
    var closestLeft := LeftDistance(bitmap, dataCapacity, pos);
    if closestRight < closestLeft && pos + closestRight < dataCapacity {
      g := pos + closestRight;
    } else {
      g := pos - closestLeft;
    }
    Choose(bitmap[..], dataCapacity, pos, closestRight, closestLeft);
  }

  // ----- The search beyond pos's own block, block by block in both directions -----

  // No gap in any block less than d blocks away from pos's block b.
  ghost predicate NoneWithin(words: seq<Word>, cap: nat, b: int, d: int)
    requires cap <= 64 * |words|
  {
    NoGap(words, cap, 64 * (b - d + 1), 64 * (b + d))
  }

  lemma Wider(words: seq<Word>, cap: nat, b: nat, d: nat)
    requires Fits(words, cap) && d <= b && b + d < |words| && NoneWithin(words, cap, b, d)
    requires words[b - d] == Ones() && RightGap(words, b + d) >= if words[b + d] == Ones() then 0 else cap
    ensures NoneWithin(words, cap, b, d + 1)
  {
    FullBlock(words, cap, b - d);
    RightGapIs(words, cap, b + d);
    Joined(words, cap, 64 * (b - d), 64 * (b - d + 1), 64 * (b + d));
    if words[b + d] == Ones() {
      Joined(words, cap, 64 * (b - d), 64 * (b + d), 64 * (b + d + 1));
    } else {
      Outside(words, cap, RightGap(words, b + d), 64 * (b + d + 1));
      Joined(words, cap, 64 * (b + d), RightGap(words, b + d), 64 * (b + d + 1));
      Joined(words, cap, 64 * (b - d), 64 * (b + d), 64 * (b + d + 1));
    }
  }

  // Both blocks at distance d have a gap bit.
  lemma BothSides(words: seq<Word>, cap: nat, pos: nat, l: nat, r: nat)
    requires Fits(words, cap) && pos < cap && l < pos / 64 < r < |words|
    requires NoGap(words, cap, 64 * (l + 1), 64 * r) && words[l] != Ones() && words[r] != Ones()
    ensures var lg, rg := LeftGap(words, l), RightGap(words, r);
            Closest(words, cap, pos, if pos - lg <= rg - pos || rg >= cap then lg else rg)
  {
    hide Closest;
    var lg, rg := LeftGap(words, l), RightGap(words, r);
    LeftGapIs(words, cap, l);
    RightGapIs(words, cap, r);
    Joined(words, cap, lg + 1, 64 * (l + 1), 64 * r);
    Joined(words, cap, lg + 1, 64 * r, rg);
    Choose(words, cap, pos, rg - pos, pos - lg);
  }

  // A gap in the left block only, and none to the right of it that is nearer.
  lemma LeftSide(words: seq<Word>, cap: nat, pos: nat, d: nat)
    requires Fits(words, cap) && pos < cap && 1 <= d <= pos / 64 && pos / 64 + d < |words|
    requires NoneWithin(words, cap, pos / 64, d) && words[pos / 64 - d] != Ones() && words[pos / 64 + d] == Ones()
    requires pos % 64 <= 32 || pos / 64 + d + 1 >= |words| || words[pos / 64 + d + 1] == Ones()
    ensures Closest(words, cap, pos, LeftGap(words, pos / 64 - d))
  {
    hide Closest;
    var b := pos / 64;
    var lg := LeftGap(words, b - d);
    LeftGapIs(words, cap, b - d);
    FullBlock(words, cap, b + d);
    Joined(words, cap, lg + 1, 64 * (b - d + 1), 64 * (b + d));
    Joined(words, cap, lg + 1, 64 * (b + d), 64 * (b + d + 1));
    if b + d + 1 >= |words| {
      Outside(words, cap, 64 * (b + d + 1), 2 * pos - lg);
      Joined(words, cap, lg + 1, 64 * (b + d + 1), 2 * pos - lg);
    } else if words[b + d + 1] == Ones() {
      FullBlock(words, cap, b + d + 1);
      Joined(words, cap, lg + 1, 64 * (b + d + 1), 64 * (b + d + 2));
    }
    PickLeft(words, cap, pos, lg);
  }

  // A gap in the right block only, and none to the left of it that is as near.
  lemma RightSide(words: seq<Word>, cap: nat, pos: nat, d: nat)
    requires Fits(words, cap) && pos < cap && 1 <= d <= pos / 64 && pos / 64 + d < |words|
    requires NoneWithin(words, cap, pos / 64, d) && words[pos / 64 - d] == Ones() && words[pos / 64 + d] != Ones()
    requires RightGap(words, pos / 64 + d) < cap
    requires pos % 64 >= 32 || pos / 64 - d <= 0 || words[pos / 64 - d - 1] == Ones()
    ensures Closest(words, cap, pos, RightGap(words, pos / 64 + d))
  {
    hide Closest;
    var b := pos / 64;
    var rg := RightGap(words, b + d);
    RightGapIs(words, cap, b + d);
    FullBlock(words, cap, b - d);
    Joined(words, cap, 64 * (b - d + 1), 64 * (b + d), rg);
    Joined(words, cap, 64 * (b - d), 64 * (b - d + 1), rg);
    if b - d <= 0 {
      Outside(words, cap, 2 * pos - rg, 64 * (b - d));
      Joined(words, cap, 2 * pos - rg, 64 * (b - d), rg);
    } else if words[b - d - 1] == Ones() {
      FullBlock(words, cap, b - d - 1);
      Joined(words, cap, 64 * (b - d - 1), 64 * (b - d), rg);
    }
    PickRight(words, cap, pos, rg);
  }

  ghost predicate IsAnswer(words: seq<Word>, cap: nat, p: int, g: int)
    requires cap <= 64 * |words|
  {
    Closest(words, cap, p, g) || (g == -1 && NoGap(words, cap, 0, cap))
  }

  lemma OwnBlock(words: seq<Word>, cap: nat, b: nat)
    requires Fits(words, cap) && b < |words| && BlockIsFull(words, cap, b)
    ensures NoneWithin(words, cap, b, 1)
  {
    BlockIsFullIs(words, cap, b);
  }

  // The nearer of the last gap of block l and the first of block r.
  method Nearer(bitmap: array<Word>, dataCapacity: int, pos: int, l: int, r: int) returns (g: int)
    requires 0 <= pos < dataCapacity && Fits(bitmap[..], dataCapacity) && 0 <= l < pos / 64 < r < bitmap.Length
    requires NoGap(bitmap[..], dataCapacity, 64 * (l + 1), 64 * r) && bitmap[l] != Ones() && bitmap[r] != Ones()
    ensures Closest(bitmap[..], dataCapacity, pos, g)
  {
    hide NoGap, Ones;
    var leftGap := 64 * (l + 1) - Lzcnt(Not(bitmap[l])) - 1;
    var rightGap := 64 * r + Tzcnt(Not(bitmap[r]));
    BothSides(bitmap[..], dataCapacity, pos, l, r);
    g := if pos - leftGap <= rightGap - pos || rightGap >= dataCapacity then leftGap else rightGap;
  }

  // No slot right of block `from` but in the blocks searched: the last gap of blocks 0 to `from`.
  method GapOnTheLeft(bitmap: array<Word>, dataCapacity: int, pos: int, from: int) returns (g: int)
    requires 0 <= pos < dataCapacity && Fits(bitmap[..], dataCapacity) && -1 <= from < pos / 64
    requires NoGap(bitmap[..], dataCapacity, 64 * (from + 1), dataCapacity)
    ensures IsAnswer(bitmap[..], dataCapacity, pos, g)
  {
    hide Closest, Ones;
    ghost var words := bitmap[..];
    var i := from;
    while i >= 0
      invariant -1 <= i <= from
      invariant NoGap(words, dataCapacity, 64 * (i + 1), dataCapacity)
    {
      LeftGapIs(words, dataCapacity, i);
      if bitmap[i] != Ones() {
        g := 64 * (i + 1) - Lzcnt(Not(bitmap[i])) - 1;
        PickLeft(words, dataCapacity, pos, g);
        return;
      }
      i := i - 1;
    }
    g := -1;
  }

  method GapOnTheRight(bitmap: array<Word>, dataCapacity: int, pos: int, from: int) returns (g: int)
    requires 0 <= pos < dataCapacity && Fits(bitmap[..], dataCapacity) && pos / 64 < from <= bitmap.Length
    requires NoGap(bitmap[..], dataCapacity, 0, 64 * from)
    ensures IsAnswer(bitmap[..], dataCapacity, pos, g)
  {
    hide Closest, Ones;
    ghost var words := bitmap[..];
    var i := from;
    while i <= (dataCapacity - 1) / 64
      invariant from <= i <= bitmap.Length
      invariant NoGap(words, dataCapacity, 0, 64 * i)
    {
      RightGapIs(words, dataCapacity, i);
      if bitmap[i] != Ones() {
        g := 64 * i + Tzcnt(Not(bitmap[i]));
        if g >= dataCapacity {
          return -1;
        }
        PickRight(words, dataCapacity, pos, g);
        return;
      }
      i := i + 1;
    }
    g := -1;
  }

  // What one more searched block on either side gives, and what the ends of the bitmap give.
  lemma Edges(words: seq<Word>, cap: nat, b: nat, d: nat)
    requires Fits(words, cap) && d <= b < |words| && b + d <= |words| && NoneWithin(words, cap, b, d)
    ensures NoGap(words, cap, 64 * (b - d + 1), 64 * (b + d))
    ensures b + d < |words| && words[b + d] == Ones() ==> NoGap(words, cap, 64 * (b - d + 1), 64 * (b + d + 1))
    ensures words[b - d] == Ones() ==> NoGap(words, cap, 64 * (b - d), 64 * (b + d))
    ensures b + d == |words| ==> NoGap(words, cap, 64 * (b - d + 1), cap)
  {
    if b + d < |words| && words[b + d] == Ones() {
      FullBlock(words, cap, b + d);
    }
    if words[b - d] == Ones() {
      FullBlock(words, cap, b - d);
    }
  }

  lemma LeftEdge(words: seq<Word>, cap: nat, b: nat, d: nat)
    requires Fits(words, cap) && d == b + 1 && NoneWithin(words, cap, b, d)
    ensures NoGap(words, cap, 0, 64 * (b + d))
  {
  }

  // The two blocks at one distance from pos's block: whether they settle the search, and how.
  method GapAtDistance(bitmap: array<Word>, dataCapacity: int, pos: int, distance: int) returns (found: bool, g: int)
    requires 0 <= pos < dataCapacity && Fits(bitmap[..], dataCapacity)
    requires 1 <= distance <= pos / 64 && pos / 64 + distance < bitmap.Length
    requires NoneWithin(bitmap[..], dataCapacity, pos / 64, distance)
    ensures found ==> Closest(bitmap[..], dataCapacity, pos, g)
    ensures !found ==> NoneWithin(bitmap[..], dataCapacity, pos / 64, distance + 1)
  {
    hide Closest, Ones, NoGap, NoneWithin, Fits;
    ghost var words := bitmap[..];
    var bitmapPos := pos / 64;
    var bitPos := pos - 64 * bitmapPos;
    var left, right := bitmap[bitmapPos - distance], bitmap[bitmapPos + distance];
    Edges(words, dataCapacity, bitmapPos, distance);
    found, g := true, -1;
    if left != Ones() && right != Ones() {
      g := Nearer(bitmap, dataCapacity, pos, bitmapPos - distance, bitmapPos + distance);
    } else if left != Ones() {
      // Past the middle of its word a gap one block further right can be nearer than this one.
      if bitPos > 32 && bitmapPos + distance + 1 < bitmap.Length && bitmap[bitmapPos + distance + 1] != Ones() {
        g := Nearer(bitmap, dataCapacity, pos, bitmapPos - distance, bitmapPos + distance + 1);
      } else {
        LeftSide(words, dataCapacity, pos, distance);
        g := 64 * (bitmapPos - distance + 1) - Lzcnt(Not(left)) - 1;
      }
    } else if right != Ones() && 64 * (bitmapPos + distance) + Tzcnt(Not(right)) < dataCapacity {
      // Before the middle of its word a gap one block further left can be nearer than this one.
      if bitPos < 32 && bitmapPos - distance > 0 && bitmap[bitmapPos - distance - 1] != Ones() {
        g := Nearer(bitmap, dataCapacity, pos, bitmapPos - distance - 1, bitmapPos + distance);
      } else {
        RightSide(words, dataCapacity, pos, distance);
        g := 64 * (bitmapPos + distance) + Tzcnt(Not(right));
      }
    } else {
      Wider(words, dataCapacity, bitmapPos, distance);
      found := false;
    }
  }

  method GapInOtherBlocks(bitmap: array<Word>, dataCapacity: int, pos: int) returns (g: int)
    requires 0 <= pos < dataCapacity && Fits(bitmap[..], dataCapacity)
    requires BlockIsFull(bitmap[..], dataCapacity, pos / 64)
    ensures IsAnswer(bitmap[..], dataCapacity, pos, g)
  {
    hide Closest, BlockIsFull, NoGap, NoneWithin;
    var bitmapPos := pos / 64;
    var maxLeft := bitmapPos;
    var maxRight := (dataCapacity - 1) / 64 - bitmapPos;
    var maxBoth := if maxLeft < maxRight then maxLeft else maxRight;
    var distance := 1;
    OwnBlock(bitmap[..], dataCapacity, bitmapPos);
    while distance <= maxBoth
      invariant 1 <= distance <= maxBoth + 1
      invariant NoneWithin(bitmap[..], dataCapacity, bitmapPos, distance)
    {
      var found, gap := GapAtDistance(bitmap, dataCapacity, pos, distance);
      if found {
        return gap;
      }
      distance := distance + 1;
    }
    if maxLeft > maxRight {
      Edges(bitmap[..], dataCapacity, bitmapPos, distance);
      g := GapOnTheLeft(bitmap, dataCapacity, pos, bitmapPos - distance);
    } else {
      LeftEdge(bitmap[..], dataCapacity, bitmapPos, distance);
      g := GapOnTheRight(bitmap, dataCapacity, pos, bitmapPos + distance);
    }
  }

  // The gap closest to pos, or to the last slot if pos is past it; -1 exactly when there is none.
  method ClosestGap(bitmap: array<Word>, dataCapacity: int, pos0: int) returns (g: int)
    requires 0 < dataCapacity && 0 <= pos0 && Fits(bitmap[..], dataCapacity)
    ensures g == -1 <==> NoGap(bitmap[..], dataCapacity, 0, dataCapacity)
    ensures g != -1 ==> Closest(bitmap[..], dataCapacity, if pos0 < dataCapacity then pos0 else dataCapacity - 1, g)
  {
    var pos := if pos0 < dataCapacity - 1 then pos0 else dataCapacity - 1;
    var bitmapPos := pos / 64;
    if bitmap[bitmapPos] == Ones() ||
       (bitmapPos == bitmap.Length - 1 && Popcnt(bitmap[bitmapPos]) == dataCapacity - 64 * (bitmap.Length - 1))
    {
      g := GapInOtherBlocks(bitmap, dataCapacity, pos);
    } else {
      g := GapNearBlock(bitmap, dataCapacity, pos);
    }
  }

  // Every slot strictly between pos and the closest gap is filled.
  lemma FilledBetween(words: seq<Word>, cap: nat, p: int, g: int, i: nat)
    requires cap <= 64 * |words| && 0 <= p < cap && Closest(words, cap, p, g)
    requires g < i <= p || p <= i < g
    ensures Bit(words, i)
  {
    assert !IsGap(words, cap, i);
  }

  // ----- Walking over the filled positions -----

  // value & (value - 1)
  function RemoveRightmostOne(w: Word): Word {
    if Tzcnt(w) < 64 then w[Tzcnt(w) := false] else w
  }

  // curIdx is a filled position, or -1 behind the last; curBitmapData are the bits of the current
  // word that are still to come.
  class Iterator {
    const bitmap: array<Word>
    var curIdx: int
    var curBitmapIdx: int
    var curBitmapData: Word

    // All bits after `from` that are still to come.
    ghost predicate Ahead(from: int)
      reads this, bitmap
    {
      && 0 <= curBitmapIdx < bitmap.Length && from / 64 == curBitmapIdx
      && forall k :: 0 <= k < 64 ==> curBitmapData[k] == (64 * curBitmapIdx + k > from && bitmap[curBitmapIdx][k])
    }

    ghost predicate Valid()
      reads this, bitmap
    {
      curIdx == -1 || (0 <= curIdx < 64 * bitmap.Length && Bit(bitmap[..], curIdx) && Ahead(curIdx))
    }

    constructor (bitmap: array<Word>, idx: int)
      requires 0 <= idx < 64 * bitmap.Length
      ensures this.bitmap == bitmap && Valid()
      ensures NoneSet(bitmap[..], idx, if curIdx == -1 then 64 * bitmap.Length else curIdx) && (curIdx == -1 || curIdx >= idx)
    {
      this.bitmap := bitmap;
      curIdx := idx;
      curBitmapIdx := idx / 64;
      curBitmapData := And(bitmap[idx / 64], Not(LowBits(idx - 64 * (idx / 64))));
      new;
      Seek(idx);
    }

    // The first filled position from `lo`, the current word holding the bits from there.
    method Seek(lo: int)
      requires 0 <= lo <= 64 * bitmap.Length && 0 <= curBitmapIdx < bitmap.Length
      requires 64 * curBitmapIdx <= lo <= 64 * curBitmapIdx + 64
      requires forall k :: 0 <= k < 64 ==> curBitmapData[k] == (64 * curBitmapIdx + k >= lo && bitmap[curBitmapIdx][k])
      modifies this
      ensures Valid() && NoneSet(bitmap[..], lo, if curIdx == -1 then 64 * bitmap.Length else curIdx) && (curIdx == -1 || curIdx >= lo)
    {
      hide Tzcnt, RemoveRightmostOne, Bit, NoneSet;
      NothingYet(bitmap[..], lo, 64 * curBitmapIdx);
      while curBitmapData == Zero()
        invariant 0 <= curBitmapIdx < bitmap.Length && lo <= 64 * curBitmapIdx + 64
        invariant forall k :: 0 <= k < 64 ==> curBitmapData[k] == (64 * curBitmapIdx + k >= lo && bitmap[curBitmapIdx][k])
        invariant NoneSet(bitmap[..], lo, 64 * curBitmapIdx)
        decreases bitmap.Length - curBitmapIdx
      {
        WordEmpty(bitmap[..], lo, curBitmapIdx, curBitmapData);
        curBitmapIdx := curBitmapIdx + 1;
        if curBitmapIdx >= bitmap.Length {
          curIdx := -1;
          return;
        }
        curBitmapData := bitmap[curBitmapIdx];
      }
      SomeSet(curBitmapData);
      curIdx := 64 * curBitmapIdx + Tzcnt(curBitmapData);
      WordFirst(bitmap[..], lo, curBitmapIdx, curBitmapData);
      curBitmapData := RemoveRightmostOne(curBitmapData);
    }

    method Advance()
      requires Valid() && curIdx != -1
      modifies this
      ensures Valid()
      ensures NoneSet(bitmap[..], old(curIdx) + 1, if curIdx == -1 then 64 * bitmap.Length else curIdx)
      ensures curIdx == -1 || curIdx > old(curIdx)
    {
      Seek(curIdx + 1);
    }
  }

  lemma NothingYet(words: seq<Word>, lo: int, hi: int)
    requires hi <= lo
    ensures NoneSet(words, lo, hi)
  {
  }

  lemma WordEmpty(words: seq<Word>, lo: int, b: int, data: Word)
    requires 0 <= b < |words| && data == Zero() && NoneSet(words, lo, 64 * b)
    requires forall k :: 0 <= k < 64 ==> data[k] == (64 * b + k >= lo && words[b][k])
    ensures NoneSet(words, lo, 64 * b + 64)
  {
    forall i: nat | lo <= i < 64 * b + 64 && i < 64 * |words| ensures !Bit(words, i) {
      if i >= 64 * b {
        At(b, i - 64 * b);
        assert !data[i - 64 * b];
      }
    }
  }

  lemma WordFirst(words: seq<Word>, lo: int, b: int, data: Word)
    requires 0 <= b < |words| && Tzcnt(data) < 64 && NoneSet(words, lo, 64 * b)
    requires forall k :: 0 <= k < 64 ==> data[k] == (64 * b + k >= lo && words[b][k])
    ensures var i := 64 * b + Tzcnt(data); lo <= i && Bit(words, i) && NoneSet(words, lo, i) && i / 64 == b
    ensures forall k :: 0 <= k < 64 ==> RemoveRightmostOne(data)[k] == (k > Tzcnt(data) && words[b][k])
  {
    var n := Tzcnt(data);
    At(b, n);
    assert data[n];
    forall i: nat | lo <= i < 64 * b + n ensures !Bit(words, i) {
      if i >= 64 * b {
        At(b, i - 64 * b);
        assert !data[i - 64 * b];
      }
    }
  }
}
