// The line of a finished segment.
module FittedSegment {
  // An exact slope, and an intercept rounded to an integer.

  import opened Geometry

  // Integer division that truncates toward zero, as the source language does.
  function TruncDiv(a: int, b: int): int
    requires b != 0
  {
    var q := (if a < 0 then -a else a) / (if b < 0 then -b else b);
    if (a < 0) == (b < 0) then q else -q
  }

  // A finished segment: the four rectangle points, the first two repeated when there was only
  // one sample.
  datatype CanonicalSegment = CanonicalSegment(rectangle: seq<Point>, first: int) {
    predicate OnePoint()
      requires |rectangle| == 4
    {
      rectangle[0] == rectangle[2] && rectangle[1] == rectangle[3]
    }

    // The segment stands for a stabbable run.
    ghost predicate Fits(bars: seq<Bar>) {
      && |rectangle| == 4 && |bars| >= 1
      && (OnePoint() ==> |bars| == 1 && rectangle[0] == bars[0].High() && rectangle[1] == bars[0].Low())
      && (!OnePoint() ==> rectangle[1].x < rectangle[3].x && Stabs(Through(rectangle[1], rectangle[3]), bars))
    }

    // The slope, exactly, and the intercept at `origin`, rounded to an integer. Ranks are unsigned
    // with largest value maxY, so the sum in the one-sample case wraps around.
    function FloatingPointSegment(origin: int, maxY: nat): (real, int)
      requires |rectangle| == 4 && (OnePoint() || rectangle[1].x != rectangle[3].x)
    {
      if OnePoint() then
        (0.0, (rectangle[0].y + rectangle[1].y) % (maxY + 1) / 2)
      else
        var slope := Minus(rectangle[3], rectangle[1]);
        var interceptN := slope.dy * (origin - rectangle[1].x);
        var interceptD := slope.dx;
        var roundingTerm := TruncDiv((if (interceptN < 0) != (interceptD < 0) then -1 else 1) * interceptD, 2);
        ((slope.dy as real) / (slope.dx as real), TruncDiv(interceptN + roundingTerm, interceptD) + rectangle[1].y)
    }
  }

  ghost predicate NearBar(b: Bar, height: real) {
    b.lo as real - 0.5 <= height <= b.hi as real + 0.5
  }

  // The rounded quotient is within one half of the exact one.
  lemma RoundedQuotient(n: int, d: int)
    requires d > 0
    ensures var r := TruncDiv((if (n < 0) != (d < 0) then -1 else 1) * d, 2);
            var q := TruncDiv(n + r, d);
            -d <= 2 * (q * d - n) <= d
  {
    var m := if n < 0 then -n else n;
    var h := d / 2;
    var q := (m + h) / d;
    assert q * d <= m + h < q * d + d by {
      assert (m + h) == d * q + (m + h) % d;
    }
    assert (-q) * d == -(q * d);
    if n < 0 {
      assert TruncDiv(-1 * d, 2) == -h;
      assert TruncDiv(n - h, d) == -q;
    } else {
      assert TruncDiv(1 * d, 2) == h;
      assert TruncDiv(n + h, d) == q;
    }
  }

  // A segment of two or more samples, evaluated as slope * (x - origin) + intercept, misses the
  // interval of no sample by more than one half, whatever the origin.
  lemma SegmentIsNear(s: CanonicalSegment, bars: seq<Bar>, origin: int, maxY: nat, i: nat)
    requires s.Fits(bars) && |bars| >= 2 && i < |bars|
    ensures var (slope, intercept) := s.FloatingPointSegment(origin, maxY);
            NearBar(bars[i], slope * ((bars[i].x - origin) as real) + intercept as real)
  {
    hide CanonicalSegment.FloatingPointSegment, TruncDiv, At, Stabs;
    var p, q := s.rectangle[1], s.rectangle[3];
    var l := Through(p, q);
    var d := q.x - p.x;
    var (slope, intercept) := s.FloatingPointSegment(origin, maxY);
    SegmentParts(s, origin, maxY);
    var e := (intercept - p.y) as real - slope * ((origin - p.x) as real);
    ScaledError(slope, d, q.y - p.y, origin - p.x, intercept - p.y, (q.y - p.y) * (origin - p.x), e);
    AtDifference(l, p.x, origin);
    AtDifference(l, origin, bars[i].x);
    StabsOne(l, bars, i);
    Shifted(l, p, bars[i], origin, intercept, e);
  }

  lemma StabsOne(l: Line, bars: seq<Bar>, i: nat)
    requires Stabs(l, bars) && i < |bars|
    ensures Hits(l, bars[i])
  {
  }

  lemma SegmentParts(s: CanonicalSegment, origin: int, maxY: nat)
    requires |s.rectangle| == 4 && !s.OnePoint() && s.rectangle[1].x < s.rectangle[3].x
    ensures var (slope, intercept) := s.FloatingPointSegment(origin, maxY);
            var p, q := s.rectangle[1], s.rectangle[3];
            var d, n := q.x - p.x, (q.y - p.y) * (origin - p.x);
            && slope == Through(p, q).slope && slope * (d as real) == (q.y - p.y) as real
            && -d <= 2 * ((intercept - p.y) * d - n) <= d
  {
    var p, q := s.rectangle[1], s.rectangle[3];
    RoundedQuotient((q.y - p.y) * (origin - p.x), q.x - p.x);
  }

  // An intercept off by e shifts the whole line by e.
  lemma Shifted(l: Line, p: Point, b: Bar, origin: int, intercept: int, e: real)
    requires Hits(l, b) && At(l, p.x) == p.y as real && -0.5 <= e <= 0.5
    requires At(l, origin) - At(l, p.x) == l.slope * ((origin - p.x) as real)
    requires At(l, b.x) - At(l, origin) == l.slope * ((b.x - origin) as real)
    requires e == (intercept - p.y) as real - l.slope * ((origin - p.x) as real)
    ensures NearBar(b, l.slope * ((b.x - origin) as real) + intercept as real)
  {
    hide At;
    assert (intercept - p.y) as real == intercept as real - p.y as real;
  }

  lemma ScaledError(m: real, d: int, dy: int, o: int, k: int, n: int, e: real)
    requires d > 0 && m * (d as real) == dy as real && n == dy * o
    requires -d <= 2 * (k * d - n) <= d
    requires e == k as real - m * (o as real)
    ensures -0.5 <= e <= 0.5
  {
    var r, kr, or := d as real, k as real, o as real;
    IntProduct(k, d);
    IntProduct(dy, o);
    ErrorProduct(m, r, kr, or, e);
    assert e * r == (k * d - n) as real;
    HalfBound(e, r, e * r);
  }

  lemma IntProduct(a: int, b: int)
    ensures (a * b) as real == (a as real) * (b as real)
  {
  }

  lemma ErrorProduct(m: real, r: real, k: real, o: real, e: real)
    requires e == k - m * o
    ensures e * r == k * r - (m * r) * o
  {
  }

  lemma HalfBound(e: real, r: real, p: real)
    requires r > 0.0 && p == e * r && -r <= 2.0 * p <= r
    ensures -0.5 <= e <= 0.5
  {
    assert (e - 0.5) * r == p - 0.5 * r && (-0.5 - e) * r == -0.5 * r - p;
    Quotient(e - 0.5, r);
    Quotient(-0.5 - e, r);
  }

  lemma Quotient(a: real, r: real)
    requires r > 0.0 && a * r <= 0.0
    ensures a <= 0.0
  {
  }

  // With one sample the average of the two ends is taken in the unsigned rank type. It is in
  // range exactly when the sum does not wrap around.
  lemma OnePointIsNear(s: CanonicalSegment, b: Bar, origin: int, maxY: nat)
    requires s.Fits([b]) && s.OnePoint() && 0 <= b.lo <= b.hi <= maxY
    ensures var (slope, intercept) := s.FloatingPointSegment(origin, maxY);
            NearBar(b, slope * ((b.x - origin) as real) + intercept as real) <==> b.lo + b.hi <= maxY
  {
    WrappedAverage(b.lo, b.hi, maxY);
    var a := (b.hi + b.lo) % (maxY + 1) / 2;
    assert s.FloatingPointSegment(origin, maxY) == (0.0, a);
    assert NearBar(b, a as real) <==> 2 * b.lo - 1 <= 2 * a <= 2 * b.hi + 1;
    assert 0.0 * ((b.x - origin) as real) == 0.0;
  }

  // The line's value at a key.
  function HeightAt(line: (real, int), origin: int, x: int): real { line.0 * ((x - origin) as real) + line.1 as real }

  lemma SegmentNearAt(s: CanonicalSegment, bars: seq<Bar>, origin: int, maxY: nat, i: nat)
    requires s.Fits(bars) && |bars| >= 2 && i < |bars|
    ensures NearBar(bars[i], HeightAt(s.FloatingPointSegment(origin, maxY), origin, bars[i].x))
  {
    hide CanonicalSegment.FloatingPointSegment, NearBar;
    SegmentIsNear(s, bars, origin, maxY, i);
  }

  lemma OnePointNearAt(s: CanonicalSegment, b: Bar, origin: int, maxY: nat)
    requires s.Fits([b]) && s.OnePoint() && 0 <= b.lo <= b.hi <= maxY
    ensures NearBar(b, HeightAt(s.FloatingPointSegment(origin, maxY), origin, b.x)) <==> b.lo + b.hi <= maxY
  {
    hide NearBar;
    OnePointIsNear(s, b, origin, maxY);
    assert 0.0 * ((b.x - origin) as real) == 0.0;
  }

  // With 64-bit ranks and no tolerance, one sample at rank 2^63: the average of its two ends is 0.
  lemma OnePointWraps(x: int, origin: int)
    ensures var y, maxY := 0x8000_0000_0000_0000, 0xFFFF_FFFF_FFFF_FFFF;
            var b, p := Bar(x, y, y), Point(x, y);
            var s := CanonicalSegment([p, p, p, p], x);
            && s.Fits([b]) && s.OnePoint() && 0 <= b.lo <= b.hi <= maxY
            && s.FloatingPointSegment(origin, maxY) == (0.0, 0) && !NearBar(b, 0.0)
  {
  }

  lemma Wrap(sum: int, modulus: int)
    requires 0 <= sum < 2 * modulus
    ensures sum % modulus == if sum < modulus then sum else sum - modulus
  {
    if sum >= modulus {
      assert sum == modulus * 1 + (sum - modulus);
    }
  }

  lemma WrappedAverage(lo: int, hi: int, maxY: nat)
    requires 0 <= lo <= hi <= maxY
    ensures var a := (hi + lo) % (maxY + 1) / 2;
            2 * lo - 1 <= 2 * a <= 2 * hi + 1 <==> lo + hi <= maxY
  {
    var m := if lo + hi <= maxY then lo + hi else lo + hi - (maxY + 1);
    Wrap(hi + lo, maxY + 1);
    assert (hi + lo) % (maxY + 1) == m;
    assert m - 1 <= 2 * (m / 2) <= m;
  }
}
