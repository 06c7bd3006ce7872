// The state of a segment.
module SegmentState {
  // What holds between two calls of add_point once a segment has two points, and why each of the two line
  // updates keeps it. `cl` and `cu` are the live parts of the two half-hulls; the four rectangle points are
  // their ends.

  import opened Geometry
  import opened HalfHull

  function Last<T>(s: seq<T>): T
    requires |s| >= 1
  {
    s[|s| - 1]
  }

  ghost predicate EndsApart(cl: seq<Point>, cu: seq<Point>) {
    |cl| >= 1 && |cu| >= 1 && cu[0].x < Last(cl).x && cl[0].x < Last(cu).x
  }

  // The line of least slope that stabs the segment, and the line of greatest slope.
  ghost function MinLine(cl: seq<Point>, cu: seq<Point>): Line
    requires EndsApart(cl, cu)
  {
    Through(cu[0], Last(cl))
  }

  ghost function MaxLine(cl: seq<Point>, cu: seq<Point>): Line
    requires EndsApart(cl, cu)
  {
    Through(cl[0], Last(cu))
  }

  ghost predicate UpperHull(cu: seq<Point>, bars: seq<Bar>) {
    LowerHull(MirrorChain(cu), MirrorBars(bars))
  }

  ghost predicate Segment(bars: seq<Bar>, cl: seq<Point>, cu: seq<Point>) {
    && RunOk(bars) && |bars| >= 2
    && LowerHull(cl, bars) && UpperHull(cu, bars) && EndsApart(cl, cu)
    && Stabs(MinLine(cl, cu), bars) && Stabs(MaxLine(cl, cu), bars)
  }

  // Between the two halves of one call: the greatest slope already accounts for the new
  // interval n, the least slope does not yet.
  ghost predicate HalfWay(bars: seq<Bar>, n: Bar, cl: seq<Point>, cu: seq<Point>) {
    && RunOk(bars + [n]) && |bars| >= 2
    && LowerHull(cl, bars) && UpperHull(cu, bars + [n]) && EndsApart(cl, cu)
    && Stabs(MinLine(cl, cu), bars) && Stabs(MaxLine(cl, cu), bars + [n])
    && At(MinLine(cl, cu), n.x) <= n.hi as real
  }

  // c[m] is a point of the chain through which the line to p leaves no chain point above.
  ghost predicate Tangent(c: seq<Point>, m: nat, p: Point) {
    && m < |c| && c[m].x < p.x
    && forall k :: 0 <= k < |c| ==> OnOrBelow(c[k], Through(c[m], p))
  }

  // After popping back to length e, appending p keeps the chain turning the same way.
  ghost predicate KeepsTurning(c: seq<Point>, e: nat, p: Point)
    requires e <= |c|
  {
    e >= 2 ==> Cross(c[e - 2], c[e - 1], p) < 0
  }

  ghost predicate Follows(bars: seq<Bar>, n: Bar) {
    n.lo <= n.hi && forall i :: 0 <= i < |bars| ==> bars[i].x < n.x
  }

  lemma ChainInside(c: seq<Point>, bars: seq<Bar>, k: nat) returns (i: nat)
    requires Drawn(c, bars) && k < |c|
    ensures i < |bars| && bars[i].Low() == c[k]
  {
    assert IsLow(c[k], bars);
    i :| 0 <= i < |bars| && bars[i].Low() == c[k];
  }

  lemma MirrorAppend(bars: seq<Bar>, n: Bar)
    ensures MirrorBars(bars + [n]) == MirrorBars(bars) + [MirrorBar(n)]
  {
  }

  lemma UpperInside(cu: seq<Point>, bars: seq<Bar>, k: nat) returns (i: nat)
    requires UpperHull(cu, bars) && k < |cu|
    ensures i < |bars| && bars[i].High() == cu[k]
  {
    i := ChainInside(MirrorChain(cu), MirrorBars(bars), k);
    assert MirrorBars(bars)[i] == MirrorBar(bars[i]);
    assert MirrorChain(cu)[k] == MirrorPoint(cu[k]);
  }

  // No stabbing line is flatter than the one or steeper than the other.
  lemma ExtremeSlopes(bars: seq<Bar>, cl: seq<Point>, cu: seq<Point>, l: Line)
    requires Segment(bars, cl, cu) && Stabs(l, bars)
    ensures MinLine(cl, cu).slope <= l.slope <= MaxLine(cl, cu).slope
  {
    hide LowerHull, UpperHull, At;
    var m, n := MinLine(cl, cu), MaxLine(cl, cu);
    EndsInside(bars, cl, cu, l);
    GapTrend(l, n, cl[0].x, Last(cu).x);
    GapTrend(m, l, cu[0].x, Last(cl).x);
  }

  // At the ends of the chains the extreme lines are where no stabbing line is below, or above.
  lemma EndsInside(bars: seq<Bar>, cl: seq<Point>, cu: seq<Point>, l: Line)
    requires Segment(bars, cl, cu) && Stabs(l, bars)
    ensures At(MaxLine(cl, cu), cl[0].x) <= At(l, cl[0].x) && At(l, Last(cu).x) <= At(MaxLine(cl, cu), Last(cu).x)
    ensures At(l, cu[0].x) <= At(MinLine(cl, cu), cu[0].x) && At(MinLine(cl, cu), Last(cl).x) <= At(l, Last(cl).x)
  {
    hide At;
    var a := ChainInside(cl, bars, 0);
    var b := ChainInside(cl, bars, |cl| - 1);
    var c := UpperInside(cu, bars, 0);
    var d := UpperInside(cu, bars, |cu| - 1);
    assert Hits(l, bars[a]) && Hits(l, bars[b]) && Hits(l, bars[c]) && Hits(l, bars[d]);
  }

  // ----- The verdict -----

  // No line stabs the old run and an interval wholly below MinLine or wholly above MaxLine.
  lemma OutsideIsUnstabbable(bars: seq<Bar>, n: Bar, cl: seq<Point>, cu: seq<Point>)
    requires Segment(bars, cl, cu) && Follows(bars, n)
    requires !(At(MinLine(cl, cu), n.x) <= n.hi as real && n.lo as real <= At(MaxLine(cl, cu), n.x))
    ensures !Stabbable(bars + [n])
  {
    var a := UpperInside(cu, bars, 0);
    var b := ChainInside(cl, bars, |cl| - 1);
    var c := ChainInside(cl, bars, 0);
    var d := UpperInside(cu, bars, |cu| - 1);
    forall l: Line | Stabs(l, bars + [n]) ensures false {
      var more := bars + [n];
      assert Hits(l, more[a]) && Hits(l, more[b]) && Hits(l, more[c]) && Hits(l, more[d]) && Hits(l, more[|bars|]);
      OrderRight(MinLine(cl, cu), l, bars[a].x, bars[b].x, n.x);
      OrderRight(l, MaxLine(cl, cu), bars[c].x, bars[d].x, n.x);
    }
  }

  lemma MinBelowMax(bars: seq<Bar>, cl: seq<Point>, cu: seq<Point>, x: int)
    requires Segment(bars, cl, cu)
    requires forall i :: 0 <= i < |bars| ==> bars[i].x < x
    ensures At(MinLine(cl, cu), x) <= At(MaxLine(cl, cu), x)
  {
    var c := ChainInside(cl, bars, 0);
    var d := UpperInside(cu, bars, |cu| - 1);
    var l := MinLine(cl, cu);
    assert Hits(l, bars[c]) && Hits(l, bars[d]);
    OrderRight(l, MaxLine(cl, cu), bars[c].x, bars[d].x, x);
  }

  // Every height between two stabbing lines is reached by a stabbing line.
  lemma LineBetween(bars: seq<Bar>, l: Line, m: Line, x: int, h: real) returns (t: Line)
    requires Stabs(l, bars) && Stabs(m, bars) && At(l, x) <= h <= At(m, x)
    ensures Stabs(t, bars) && At(t, x) == h
  {
    hide At;
    if At(l, x) == h {
      return l;
    }
    var w := Fraction(h - At(l, x), At(m, x) - At(l, x));
    t := Line(l.slope + w * (m.slope - l.slope), l.intercept + w * (m.intercept - l.intercept));
    MixAt(l, m, w, x);
    forall i | 0 <= i < |bars| ensures Hits(t, bars[i]) {
      assert Hits(l, bars[i]) && Hits(m, bars[i]);
      MixAt(l, m, w, bars[i].x);
      MixHits(l, m, w, t, bars[i]);
    }
  }

  lemma MixHits(l: Line, m: Line, w: real, t: Line, b: Bar)
    requires Hits(l, b) && Hits(m, b) && 0.0 <= w <= 1.0
    requires At(t, b.x) == At(l, b.x) + w * (At(m, b.x) - At(l, b.x))
    ensures Hits(t, b)
  {
    Weighted(At(l, b.x), At(m, b.x), w, At(t, b.x));
  }

  lemma Fraction(a: real, b: real) returns (w: real)
    requires 0.0 <= a <= b && 0.0 < b
    ensures 0.0 <= w <= 1.0 && w * b == a
  {
    w := a / b;
  }

  lemma MixAt(l: Line, m: Line, w: real, x: int)
    ensures At(Line(l.slope + w * (m.slope - l.slope), l.intercept + w * (m.intercept - l.intercept)), x)
         == At(l, x) + w * (At(m, x) - At(l, x))
  {
    var r := x as real;
    assert (l.slope + w * (m.slope - l.slope)) * r == l.slope * r + w * (m.slope * r - l.slope * r);
  }

  lemma Weighted(a: real, b: real, w: real, v: real)
    requires 0.0 <= w <= 1.0 && v == a + w * (b - a)
    ensures a <= b ==> a <= v <= b
    ensures b <= a ==> b <= v <= a
  {
    SignProduct(w, b - a);
    SignProduct(1.0 - w, b - a);
    assert (1.0 - w) * (b - a) == (b - a) - w * (b - a);
  }

  lemma SignProduct(w: real, d: real)
    requires 0.0 <= w
    ensures d >= 0.0 ==> w * d >= 0.0
    ensures d <= 0.0 ==> w * d <= 0.0
  {
  }

  // An interval that is not wholly below MinLine and not wholly above MaxLine can be stabbed too.
  lemma InsideIsStabbable(bars: seq<Bar>, n: Bar, cl: seq<Point>, cu: seq<Point>)
    requires Segment(bars, cl, cu) && Follows(bars, n)
    requires At(MinLine(cl, cu), n.x) <= n.hi as real && n.lo as real <= At(MaxLine(cl, cu), n.x)
    ensures Stabbable(bars + [n])
  {
    var l, m := MinLine(cl, cu), MaxLine(cl, cu);
    MinBelowMax(bars, cl, cu, n.x);
    var h := if At(l, n.x) >= n.lo as real then At(l, n.x) else n.lo as real;
    var t := LineBetween(bars, l, m, n.x, h);
    forall i | 0 <= i < |bars + [n]| ensures Hits(t, (bars + [n])[i]) {
      if i < |bars| {
        assert Hits(t, bars[i]);
      }
    }
    assert Stabs(t, bars + [n]);
  }

  // ----- First half of the update: the line of greatest slope -----

  lemma MaxUpdate(bars: seq<Bar>, n: Bar, cl: seq<Point>, cu: seq<Point>, m: nat, e: nat)
    requires Segment(bars, cl, cu) && Follows(bars, n)
    requires At(MinLine(cl, cu), n.x) <= n.hi as real && Below(n.High(), MaxLine(cl, cu))
    requires Tangent(cl, m, n.High())
    requires 1 <= e <= |cu| && Popped(MirrorChain(cu), e, MirrorPoint(n.High()))
    requires KeepsTurning(MirrorChain(cu), e, MirrorPoint(n.High()))
    ensures HalfWay(bars, n, cl[m..], cu[..e] + [n.High()])
  {
    var p := n.High();
    var cl', cu' := cl[m..], cu[..e] + [p];
    var t, steep, flat := Through(cl[m], p), MaxLine(cl, cu), MinLine(cl, cu);
    var j := ChainInside(cl, bars, m);
    assert OnOrBelow(cl[0], t);
    TangentStabs(bars, cl, t, steep, flat, p, j);
    DropFront(cl, bars, m);
    MirrorPushed(bars, n, cu, steep, e);
    assert MaxLine(cl', cu') == t;
    assert Last(cl') == Last(cl) && cu'[0] == cu[0];
    assert MinLine(cl', cu') == flat;
  }

  lemma MirrorPushed(bars: seq<Bar>, n: Bar, cu: seq<Point>, steep: Line, e: nat)
    requires UpperHull(cu, bars) && RunOk(bars) && Stabs(steep, bars) && Follows(bars, n)
    requires Last(cu).y as real == At(steep, Last(cu).x)
    requires Below(n.High(), steep)
    requires 1 <= e <= |cu| && Popped(MirrorChain(cu), e, MirrorPoint(n.High()))
    requires KeepsTurning(MirrorChain(cu), e, MirrorPoint(n.High()))
    ensures UpperHull(cu[..e] + [n.High()], bars + [n])
  {
    var mc, mb, ml, mn := MirrorChain(cu), MirrorBars(bars), MirrorLine(steep), MirrorBar(n);
    MirrorRunOk(bars);
    MirrorStabs(steep, bars);
    MirrorAt(steep, Last(cu).x);
    MirrorAt(steep, n.x);
    var z := UpperInside(cu, bars, |cu| - 1);
    assert mn.Low() == MirrorPoint(n.High());
    Push(mc, mb, ml, e, mn);
    MirrorAppend(bars, n);
    assert MirrorChain(cu[..e] + [n.High()]) == mc[..e] + [mn.Low()];
  }

  lemma MaxKept(bars: seq<Bar>, n: Bar, cl: seq<Point>, cu: seq<Point>)
    requires Segment(bars, cl, cu) && Follows(bars, n)
    requires At(MinLine(cl, cu), n.x) <= n.hi as real && n.lo as real <= At(MaxLine(cl, cu), n.x)
    requires !Below(n.High(), MaxLine(cl, cu))
    ensures HalfWay(bars, n, cl, cu)
  {
    var z := UpperInside(cu, bars, |cu| - 1);
    AddBar(MirrorChain(cu), MirrorBars(bars), MirrorBar(n));
    MirrorAppend(bars, n);
  }

  // ----- Second half: the line of least slope -----

  lemma MinUpdate(bars: seq<Bar>, n: Bar, cl: seq<Point>, cu: seq<Point>, m: nat, e: nat)
    requires HalfWay(bars, n, cl, cu)
    requires !OnOrBelow(n.Low(), MinLine(cl, cu))
    requires Tangent(MirrorChain(cu), m, MirrorPoint(n.Low()))
    requires 1 <= e <= |cl| && Popped(cl, e, n.Low())
    requires KeepsTurning(cl, e, n.Low())
    ensures Segment(bars + [n], cl[..e] + [n.Low()], cu[m..])
  {
    var p, more := n.Low(), bars + [n];
    var cl', cu' := cl[..e] + [p], cu[m..];
    RunFollows(bars, n);
    PrefixOk(bars, n);
    var z := ChainInside(cl, bars, |cl| - 1);
    Push(cl, bars, MinLine(cl, cu), e, n);
    MirrorDrop(cu, more, m);
    MinTangentStabs(bars, n, cl, cu, m);
    MinEnds(cl, cu, cl', cu', p);
  }

  // The ends of the new chains: the greatest slope stays, the least slope is the tangent's.
  lemma MinEnds(cl: seq<Point>, cu: seq<Point>, cl': seq<Point>, cu': seq<Point>, p: Point)
    requires EndsApart(cl, cu) && |cl'| >= 1 && |cu'| >= 1
    requires cl'[0] == cl[0] && Last(cl') == p && Last(cu') == Last(cu) && cu'[0].x < p.x
    ensures EndsApart(cl', cu') && MaxLine(cl', cu') == MaxLine(cl, cu) && MinLine(cl', cu') == Through(cu'[0], p)
  {
  }

  lemma RunFollows(bars: seq<Bar>, n: Bar)
    requires RunOk(bars + [n])
    ensures Follows(bars, n)
  {
    var more := bars + [n];
    assert more[|bars|] == n;
    assert forall i :: 0 <= i < |bars| ==> more[i] == bars[i];
  }

  lemma MirrorDrop(cu: seq<Point>, bars: seq<Bar>, m: nat)
    requires UpperHull(cu, bars) && m < |cu|
    ensures UpperHull(cu[m..], bars)
  {
    DropFront(MirrorChain(cu), MirrorBars(bars), m);
    assert MirrorChain(cu[m..]) == MirrorChain(cu)[m..];
  }

  lemma MinTangentStabs(bars: seq<Bar>, n: Bar, cl: seq<Point>, cu: seq<Point>, m: nat)
    requires HalfWay(bars, n, cl, cu) && Follows(bars, n)
    requires !OnOrBelow(n.Low(), MinLine(cl, cu))
    requires Tangent(MirrorChain(cu), m, MirrorPoint(n.Low()))
    ensures Stabs(Through(cu[m], n.Low()), bars + [n])
  {
    var p, more := n.Low(), bars + [n];
    var mc, mb, mp := MirrorChain(cu), MirrorBars(bars), MirrorPoint(p);
    var t, steep, flat := Through(mc[m], mp), MirrorLine(MinLine(cl, cu)), MirrorLine(MaxLine(cl, cu));
    var j := UpperInside(cu, more, m);
    assert mb[j] == MirrorBar(bars[j]);
    var h := UpperInside(cu, more, |cu| - 1);
    assert Hits(MaxLine(cl, cu), more[|bars|]);
    assert Stabs(MaxLine(cl, cu), bars) by { PrefixStabs(MaxLine(cl, cu), bars, n); }
    MirrorStabs(MinLine(cl, cu), bars);
    MirrorStabs(MaxLine(cl, cu), bars);
    MirrorAt(MinLine(cl, cu), n.x);
    MirrorAt(MaxLine(cl, cu), n.x);
    MirrorAt(MinLine(cl, cu), cu[0].x);
    MirrorAt(MaxLine(cl, cu), Last(cu).x);
    assert RunOk(bars) by { PrefixOk(bars, n); }
    MirrorRunOk(bars);
    PrefixCovers(mc, bars, n);
    assert OnOrBelow(mc[0], t);
    TangentStabs(mb, mc, t, steep, flat, mp, j);
    MirrorThrough(cu[m], p);
    MirrorStabs(Through(cu[m], p), bars);
  }

  lemma PrefixStabs(l: Line, bars: seq<Bar>, n: Bar)
    requires Stabs(l, bars + [n])
    ensures Stabs(l, bars)
  {
    forall i | 0 <= i < |bars| ensures Hits(l, bars[i]) {
      assert Hits(l, (bars + [n])[i]);
    }
  }

  lemma PrefixOk(bars: seq<Bar>, n: Bar)
    requires RunOk(bars + [n])
    ensures RunOk(bars)
  {
    var more := bars + [n];
    assert forall i :: 0 <= i < |bars| ==> more[i] == bars[i];
  }

  lemma PrefixCovers(mc: seq<Point>, bars: seq<Bar>, n: Bar)
    requires Rising(mc) && Covers(mc, MirrorBars(bars + [n]))
    ensures Covers(mc, MirrorBars(bars))
  {
    forall k, i | 0 <= k < |mc| - 1 && 0 <= i < |bars| ensures CoveredBy(MirrorBars(bars)[i], mc[k], mc[k + 1]) {
      assert CoveredBy(MirrorBars(bars + [n])[i], mc[k], mc[k + 1]);
    }
  }

  lemma MinKept(bars: seq<Bar>, n: Bar, cl: seq<Point>, cu: seq<Point>)
    requires HalfWay(bars, n, cl, cu)
    requires OnOrBelow(n.Low(), MinLine(cl, cu))
    ensures Segment(bars + [n], cl, cu)
  {
    var z := ChainInside(cl, bars, |cl| - 1);
    assert (bars + [n])[z] == bars[z] && (bars + [n])[|bars|] == n;
    AddBar(cl, bars, n);
  }
}
