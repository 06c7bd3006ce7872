// The streaming fitter.
module PiecewiseFit {
  import opened Geometry
  import opened HalfHull
  import opened SegmentState
  import opened FittedSegment

  // OutOfOrder stands for the exception thrown when x does not increase.
  datatype AddResult = Accepted | Rejected | OutOfOrder

  // The interval a sample has to be approximated in: rank plus or minus epsilon, clipped to the
  // range [0, maxY] of the unsigned rank type.
  function Clip(p: Point, epsilon: nat, maxY: nat): Bar {
    Bar(p.x,
        if p.y <= epsilon then 0 else p.y - epsilon,
        if p.y >= maxY - epsilon then maxY else p.y + epsilon)
  }

  function ClipAll(run: seq<Point>, epsilon: nat, maxY: nat): (bars: seq<Bar>)
    ensures |bars| == |run|
  {
    seq(|run|, i requires 0 <= i < |run| => Clip(run[i], epsilon, maxY))
  }

  lemma ClipAppend(run: seq<Point>, p: Point, epsilon: nat, maxY: nat)
    ensures ClipAll(run + [p], epsilon, maxY) == ClipAll(run, epsilon, maxY) + [Clip(p, epsilon, maxY)]
  {
  }

  // Ranks are values of the rank type and keys strictly increase.
  ghost predicate Samples(run: seq<Point>, maxY: nat) {
    && (forall i :: 0 <= i < |run| ==> 0 <= run[i].y <= maxY)
    && (forall i, j :: 0 <= i < j < |run| ==> run[i].x < run[j].x)
  }

  // The line's value at a sample's key is off its rank by at most epsilon, and a value of the rank type.
  ghost predicate Within(l: Line, p: Point, epsilon: nat, maxY: nat) {
    var value := At(l, p.x);
    p.y as real - epsilon as real <= value <= p.y as real + epsilon as real && 0.0 <= value <= maxY as real
  }

  ghost predicate Approximates(l: Line, run: seq<Point>, epsilon: nat, maxY: nat) {
    forall i :: 0 <= i < |run| ==> Within(l, run[i], epsilon, maxY)
  }

  // One line does for all samples.
  ghost predicate OneLine(run: seq<Point>, epsilon: nat, maxY: nat) { exists l: Line :: Approximates(l, run, epsilon, maxY) }

  // The lines that pass through the clipped interval are those.
  lemma ClipIsWithin(l: Line, p: Point, epsilon: nat, maxY: nat)
    requires epsilon <= maxY && 0 <= p.y <= maxY
    ensures Hits(l, Clip(p, epsilon, maxY)) <==> Within(l, p, epsilon, maxY)
  {
  }

  lemma StabsIsApproximates(l: Line, run: seq<Point>, epsilon: nat, maxY: nat)
    requires epsilon <= maxY && forall i :: 0 <= i < |run| ==> 0 <= run[i].y <= maxY
    ensures Stabs(l, ClipAll(run, epsilon, maxY)) <==> Approximates(l, run, epsilon, maxY)
  {
    hide Clip, Hits, Within;
    forall i | 0 <= i < |run| ensures Hits(l, ClipAll(run, epsilon, maxY)[i]) <==> Within(l, run[i], epsilon, maxY) {
      ClipIsWithin(l, run[i], epsilon, maxY);
    }
  }

  lemma StabbableIsOneLine(run: seq<Point>, epsilon: nat, maxY: nat)
    requires epsilon <= maxY && forall i :: 0 <= i < |run| ==> 0 <= run[i].y <= maxY
    ensures Stabbable(ClipAll(run, epsilon, maxY)) <==> OneLine(run, epsilon, maxY)
  {
    hide ClipAll, Stabs, Approximates;
    forall l: Line ensures Stabs(l, ClipAll(run, epsilon, maxY)) <==> Approximates(l, run, epsilon, maxY) {
      StabsIsApproximates(l, run, epsilon, maxY);
    }
  }

  lemma NoSamples(maxY: nat)
    ensures Samples([], maxY)
  {
  }

  lemma NextSample(run: seq<Point>, p: Point, epsilon: nat, maxY: nat)
    requires epsilon <= maxY && Samples(run, maxY) && 0 <= p.y <= maxY
    requires run == [] || Last(run).x < p.x
    ensures Samples(run + [p], maxY) && Samples([], maxY)
    ensures var n := Clip(p, epsilon, maxY); n.x == p.x && n.lo <= n.hi
    ensures run != [] ==> var b := ClipAll(run, epsilon, maxY)[0]; b.lo <= b.hi && b.x == run[0].x < p.x
    ensures Follows(ClipAll(run, epsilon, maxY), Clip(p, epsilon, maxY))
    ensures SameWidth(ClipAll(run, epsilon, maxY), Clip(p, epsilon, maxY))
  {
  }

  // Either every interval is a single point, or none is.
  ghost predicate SameWidth(bars: seq<Bar>, n: Bar) {
    forall i :: 0 <= i < |bars| ==> (bars[i].lo == bars[i].hi <==> n.lo == n.hi)
  }

  // The new upper end can only be strictly below MaxLine when intervals have some width.
  lemma Slack(bars: seq<Bar>, n: Bar, cl: seq<Point>, cu: seq<Point>)
    requires Segment(bars, cl, cu)
    requires SameWidth(bars, n)
    requires At(MinLine(cl, cu), n.x) <= n.hi as real && Below(n.High(), MaxLine(cl, cu))
    ensures n.lo != n.hi
  {
    if n.lo == n.hi {
      NoSlack(bars, cl, cu, n.x);
    }
  }

  // With epsilon 0 every interval is one point, and two of them already fix the line.
  lemma NoSlack(bars: seq<Bar>, cl: seq<Point>, cu: seq<Point>, x: int)
    requires Segment(bars, cl, cu) && bars[0].lo == bars[0].hi && bars[1].lo == bars[1].hi
    ensures At(MinLine(cl, cu), x) == At(MaxLine(cl, cu), x)
  {
    var l, m := MinLine(cl, cu), MaxLine(cl, cu);
    assert Hits(l, bars[0]) && Hits(m, bars[0]) && Hits(l, bars[1]) && Hits(m, bars[1]);
    GapTrend(l, m, bars[0].x, bars[1].x);
    assert m.slope == l.slope;
  }

  // The tangent point moves one along the chain while the slopes to p do not turn.
  lemma TangentMoves(c: seq<Point>, m: nat, p: Point)
    requires Rising(c) && m + 1 < |c| && c[m + 1].x < p.x
    requires !Below(c[m + 1], Through(c[m], p))
    requires forall k :: 0 <= k <= m ==> OnOrBelow(c[k], Through(c[m], p))
    ensures forall k :: 0 <= k <= m + 1 ==> OnOrBelow(c[k], Through(c[m + 1], p))
  {
    var l, t := Through(c[m], p), Through(c[m + 1], p);
    forall k | 0 <= k <= m ensures OnOrBelow(c[k], t) {
      OrderLeft(l, t, c[k].x, c[m + 1].x, p.x);
    }
  }

  lemma MirrorCompare(c: Point, q: Point, p: Point)
    ensures Minus(q, p).Less(Minus(c, p)) <==>
            Minus(MirrorPoint(q), MirrorPoint(p)).Greater(Minus(MirrorPoint(c), MirrorPoint(p)))
  {
    var a, b := Minus(q, p), Minus(c, p);
    assert (-a.dy) * b.dx == -(a.dy * b.dx) && a.dx * (-b.dy) == -(a.dx * b.dy);
  }

  lemma MirrorCross(o: Point, a: Point, b: Point)
    ensures Cross(MirrorPoint(o), MirrorPoint(a), MirrorPoint(b)) == -Cross(o, a, b)
  {
    var oa, ob := Minus(a, o), Minus(b, o);
    assert oa.dx * (-ob.dy) == -(oa.dx * ob.dy) && (-oa.dy) * ob.dx == -(oa.dy * ob.dx);
  }

  lemma OneInterval(n: Bar)
    requires n.lo <= n.hi
    ensures Stabbable([n])
  {
    assert Stabs(Line(0.0, n.lo as real), [n]);
  }

  // The four rectangle points are the ends of the live parts of the two half-hulls.
  ghost predicate Corners(rectangle: seq<Point>, lower: seq<Point>, lowerStart: nat, upper: seq<Point>, upperStart: nat) {
    && lowerStart < |lower| && upperStart < |upper|
    && rectangle == [upper[upperStart], lower[lowerStart], Last(lower), Last(upper)]
  }

  // The fitter's fields stand for the segment `bars`.
  ghost predicate FitOk(bars: seq<Bar>, rectangle: seq<Point>, lower: seq<Point>, lowerStart: nat,
                        upper: seq<Point>, upperStart: nat)
  {
    && Corners(rectangle, lower, lowerStart, upper, upperStart)
    && Segment(bars, lower[lowerStart..], upper[upperStart..])
  }

  // Two intervals: the four corners are the whole state.
  lemma TwoIntervals(b: Bar, n: Bar)
    requires b.lo <= b.hi && n.lo <= n.hi && b.x < n.x
    ensures Stabbable([b, n])
    ensures FitOk([b, n], [b.High(), b.Low(), n.Low(), n.High()], [b.Low(), n.Low()], 0, [b.High(), n.High()], 0)
  {
    var bars, cl, cu := [b, n], [b.Low(), n.Low()], [b.High(), n.High()];
    assert bars[0] == b && bars[1] == n;
    assert IsLow(cl[0], bars) && IsLow(cl[1], bars);
    var mb, mc := MirrorBars(bars), MirrorChain(cu);
    assert mb[0].Low() == mc[0] && mb[1].Low() == mc[1];
    assert IsLow(mc[0], mb) && IsLow(mc[1], mb);
    assert CoveredBy(bars[0], cl[0], cl[1]) && CoveredBy(bars[1], cl[0], cl[1]);
    assert CoveredBy(mb[0], mc[0], mc[1]) && CoveredBy(mb[1], mc[0], mc[1]);
    assert Stabs(MaxLine(cl, cu), bars);
    assert [b.Low(), n.Low()][0..] == cl && [b.High(), n.High()][0..] == cu;
  }

  // In the search over the upper hull, the upper end of p's own interval always stops the loop.
  lemma OwnEndStops(c: seq<Point>, m: nat, p: Point)
    requires Rising(c) && m + 1 < |c| && c[m].x < p.x && !Below(c[m + 1], Through(c[m], p))
    requires Last(c).x < p.x || (Last(c).x == p.x && Last(c).y < p.y)
    ensures c[m + 1].x < p.x
  {
    assert c[m + 1].x <= Last(c).x;
  }

  lemma SliceAgain<T>(s: seq<T>, i: nat, j: nat)
    requires i <= j < |s|
    ensures s[j..] == s[i..][j - i..] && s[j..][0] == s[j] && Last(s[j..]) == Last(s)
  {
  }

  // Cutting a hull back and appending a point, seen from its start index.
  lemma Rewound<T>(s: seq<T>, start: nat, end: nat, p: T)
    requires start < end <= |s|
    ensures (s[..end] + [p])[start..] == s[start..][..end - start] + [p]
    ensures (s[..end] + [p])[start] == s[start] && Last(s[..end] + [p]) == p
  {
  }

  // What the searches need to know of a segment.
  lemma SegmentFacts(bars: seq<Bar>, n: Bar, cl: seq<Point>, cu: seq<Point>)
    requires Segment(bars, cl, cu) && Follows(bars, n)
    ensures Rising(cl) && Concave(cl) && Last(cl).x < n.x
    ensures Rising(MirrorChain(cu)) && Last(cu).x < n.x
    ensures EndsApart(cl, cu) && n.lo <= n.hi
    ensures Minus(Point(n.x, n.hi), cl[0]).Less(Minus(Last(cu), cl[0])) <==> Below(n.High(), MaxLine(cl, cu))
  {
    SlopeTest(cl[0], Last(cu), cl[0], n.High());
    var a := ChainInside(cl, bars, |cl| - 1);
    var b := UpperInside(cu, bars, |cu| - 1);
  }

  // The point of the lower half-hull, from start on, from which the line to p is flattest.
  method FlattestFrom(lower: seq<Point>, start: nat, p: Point) returns (minI: nat)
    requires start < |lower| && Last(lower).x < p.x
    requires Rising(lower[start..]) && Concave(lower[start..])
    ensures start <= minI < |lower|
    ensures Tangent(lower[start..], minI - start, p)
  {
    ghost var c := lower[start..];
    assert Last(c) == Last(lower);
    var min := Minus(lower[start], p);
    minI := start;
    var i := start + 1;
    while i < |lower|
      invariant start < i <= |lower| && minI == i - 1 && min == Minus(lower[minI], p)
      invariant forall k :: 0 <= k < i - start ==> OnOrBelow(c[k], Through(c[minI - start], p))
    {
      var val := Minus(lower[i], p);
      ghost var m := minI - start;
      TangentTest(c[m], c[m + 1], p);
      if val.Greater(min) {
        forall k | m + 1 <= k < |c| ensures OnOrBelow(c[k], Through(c[m], p)) {
          StaysBelow(c, Through(c[m], p), m, k);
        }
        break;
      }
      TangentMoves(c, m, p);
      min := val;
      minI := i;
      i := i + 1;
    }
  }

  // The point of the upper half-hull from which the line to p is steepest. The last hull point
  // may be the upper end of p's own interval.
  method SteepestFrom(upper: seq<Point>, start: nat, p: Point) returns (maxI: nat)
    requires start < |upper| && upper[start].x < p.x
    requires Last(upper).x < p.x || (Last(upper).x == p.x && Last(upper).y > p.y)
    requires Rising(MirrorChain(upper[start..])) && Concave(MirrorChain(upper[start..]))
    ensures start <= maxI < |upper|
    ensures Tangent(MirrorChain(upper[start..]), maxI - start, MirrorPoint(p))
  {
    ghost var c, mp := MirrorChain(upper[start..]), MirrorPoint(p);
    assert forall k :: 0 <= k < |c| ==> c[k] == MirrorPoint(upper[start + k]);
    var max := Minus(upper[start], p);
    maxI := start;
    var i := start + 1;
    while i < |upper|
      invariant start < i <= |upper| && maxI == i - 1 && max == Minus(upper[maxI], p)
      invariant c[maxI - start].x < p.x
      invariant forall k :: 0 <= k < i - start ==> OnOrBelow(c[k], Through(c[maxI - start], mp))
    {
      var val := Minus(upper[i], p);
      ghost var m := maxI - start;
      TangentTest(c[m], c[m + 1], mp);
      MirrorCompare(upper[maxI], upper[i], p);
      if val.Less(max) {
        forall k | m + 1 <= k < |c| ensures OnOrBelow(c[k], Through(c[m], mp)) {
          StaysBelow(c, Through(c[m], mp), m, k);
        }
        break;
      }
      OwnEndStops(c, m, mp);
      TangentMoves(c, m, mp);
      max := val;
      maxI := i;
      i := i + 1;
    }
  }

  // How much of the upper half-hull stays when p is appended to it.
  method KeepUpper(upper: seq<Point>, start: nat, p: Point) returns (end: nat)
    requires start < |upper| && Last(upper).x < p.x && Rising(MirrorChain(upper[start..]))
    ensures start + 1 <= end <= |upper|
    ensures Popped(MirrorChain(upper[start..]), end - start, MirrorPoint(p))
    ensures KeepsTurning(MirrorChain(upper[start..]), end - start, MirrorPoint(p))
  {
    hide Popped, Rising, OnOrBelow, Cross;
    ghost var c := MirrorChain(upper[start..]);
    assert forall k :: 0 <= k < |c| ==> c[k] == MirrorPoint(upper[start + k]);
    NothingPopped(c, MirrorPoint(p));
    end := |upper|;
    while end >= start + 2 && Cross(upper[end - 2], upper[end - 1], p) <= 0
      invariant start + 1 <= end <= |upper|
      invariant Popped(c, end - start, MirrorPoint(p))
    {
      MirrorCross(upper[end - 2], upper[end - 1], p);
      PopOne(c, end - start, MirrorPoint(p));
      end := end - 1;
    }
    if end >= start + 2 {
      MirrorCross(upper[end - 2], upper[end - 1], p);
    }
  }

  method KeepLower(lower: seq<Point>, start: nat, p: Point) returns (end: nat)
    requires start < |lower| && Last(lower).x < p.x && Rising(lower[start..])
    ensures start + 1 <= end <= |lower|
    ensures Popped(lower[start..], end - start, p)
    ensures KeepsTurning(lower[start..], end - start, p)
  {
    hide Popped, Rising, OnOrBelow, Cross;
    ghost var c := lower[start..];
    NothingPopped(c, p);
    end := |lower|;
    while end >= start + 2 && Cross(lower[end - 2], lower[end - 1], p) >= 0
      invariant start + 1 <= end <= |lower|
      invariant Popped(c, end - start, p)
    {
      PopOne(c, end - start, p);
      end := end - 1;
    }
  }

  // First half of an accepted add_point: the line of greatest slope.
  method UpdateMax(n: Bar, rectangle: seq<Point>, lower: seq<Point>, lowerStart: nat,
                   upper: seq<Point>, upperStart: nat, ghost bars: seq<Bar>)
    returns (rectangle': seq<Point>, lowerStart': nat, upper': seq<Point>)
    requires Corners(rectangle, lower, lowerStart, upper, upperStart)
    requires Segment(bars, lower[lowerStart..], upper[upperStart..]) && Follows(bars, n)
    requires At(MinLine(lower[lowerStart..], upper[upperStart..]), n.x) <= n.hi as real
    requires n.lo as real <= At(MaxLine(lower[lowerStart..], upper[upperStart..]), n.x)
    requires SameWidth(bars, n)
    ensures Corners(rectangle', lower, lowerStart', upper', upperStart)
    ensures HalfWay(bars, n, lower[lowerStart'..], upper'[upperStart..])
    ensures rectangle'[0] == rectangle[0] && rectangle'[2] == rectangle[2]
    ensures Last(upper').x < n.x || (Last(upper') == n.High() && n.lo < n.hi)
  {
    hide Segment, HalfWay, Tangent, Popped, KeepsTurning, Below, Follows, SameWidth, At, MaxLine, MinLine;
    hide Rising, Concave, MirrorChain, MirrorPoint, Slope.Less;
    ghost var cl, cu := lower[lowerStart..], upper[upperStart..];
    var p1 := Point(n.x, n.hi);
    SegmentFacts(bars, n, cl, cu);
    rectangle', lowerStart', upper' := rectangle, lowerStart, upper;
    if Minus(p1, rectangle[1]).Less(Minus(rectangle[3], rectangle[1])) {
      var minI := FlattestFrom(lower, lowerStart, p1);
      var end := KeepUpper(upper, upperStart, p1);
      MaxUpdate(bars, n, cl, cu, minI - lowerStart, end - upperStart);
      Slack(bars, n, cl, cu);
      SliceAgain(lower, lowerStart, minI);
      Rewound(upper, upperStart, end, p1);
      rectangle' := [rectangle[0], lower[minI], rectangle[2], p1];
      lowerStart' := minI;
      upper' := upper[..end] + [p1];
    } else {
      MaxKept(bars, n, cl, cu);
    }
  }

  // Second half: the line of least slope.
  method UpdateMin(n: Bar, rectangle: seq<Point>, lower: seq<Point>, lowerStart: nat,
                   upper: seq<Point>, upperStart: nat, ghost bars: seq<Bar>)
    returns (rectangle': seq<Point>, lower': seq<Point>, upperStart': nat)
    requires Corners(rectangle, lower, lowerStart, upper, upperStart)
    requires HalfWay(bars, n, lower[lowerStart..], upper[upperStart..])
    requires Last(upper).x < n.x || (Last(upper) == n.High() && n.lo < n.hi)
    ensures Corners(rectangle', lower', lowerStart, upper, upperStart')
    ensures Segment(bars + [n], lower'[lowerStart..], upper[upperStart'..])
  {
    hide Segment, HalfWay, Tangent, Popped, KeepsTurning, OnOrBelow, At, MaxLine, MinLine;
    hide Rising, Concave, MirrorChain, MirrorPoint, Slope.Greater;
    ghost var cl, cu := lower[lowerStart..], upper[upperStart..];
    var p2 := Point(n.x, n.lo);
    HalfWayFacts(bars, n, cl, cu);
    rectangle', lower', upperStart' := rectangle, lower, upperStart;
    if Minus(p2, rectangle[0]).Greater(Minus(rectangle[2], rectangle[0])) {
      var maxI := SteepestFrom(upper, upperStart, p2);
      var end := KeepLower(lower, lowerStart, p2);
      MinUpdate(bars, n, cl, cu, maxI - upperStart, end - lowerStart);
      SliceAgain(upper, upperStart, maxI);
      Rewound(lower, lowerStart, end, p2);
      rectangle' := [upper[maxI], rectangle[1], p2, rectangle[3]];
      upperStart' := maxI;
      lower' := lower[..end] + [p2];
    } else {
      MinKept(bars, n, cl, cu);
    }
  }

  // The test of add_point and check_point: the new interval lies wholly below the line of least
  // slope or wholly above the line of greatest slope.
  predicate Outside(rectangle: seq<Point>, n: Bar)
    requires |rectangle| == 4
  {
    var slope1, slope2 := Minus(rectangle[2], rectangle[0]), Minus(rectangle[3], rectangle[1]);
    || Minus(n.High(), rectangle[2]).Less(slope1)
    || Minus(n.Low(), rectangle[3]).Greater(slope2)
  }

  // add_point on a segment that already has two samples.
  method Extend(n: Bar, rectangle: seq<Point>, lower: seq<Point>, lowerStart: nat,
                upper: seq<Point>, upperStart: nat, ghost bars: seq<Bar>)
    returns (ok: bool, rectangle': seq<Point>, lower': seq<Point>, lowerStart': nat,
             upper': seq<Point>, upperStart': nat)
    requires FitOk(bars, rectangle, lower, lowerStart, upper, upperStart) && Follows(bars, n) && SameWidth(bars, n)
    ensures ok <==> Stabbable(bars + [n])
    ensures !ok ==> rectangle' == rectangle && lower' == lower && lowerStart' == lowerStart && upper' == upper && upperStart' == upperStart
    ensures |rectangle'| == 4
    ensures ok ==> FitOk(bars + [n], rectangle', lower', lowerStart', upper', upperStart')
  {
    rectangle', lower', lowerStart', upper', upperStart' := rectangle, lower, lowerStart, upper, upperStart;
    ghost var cl, cu := lower[lowerStart..], upper[upperStart..];
    Verdict(n, rectangle, lower, lowerStart, upper, upperStart, bars);
    Inside(n, rectangle, cl, cu, bars);
    hide Segment, HalfWay, Stabbable, Follows, SameWidth, At;
    ok := !Outside(rectangle, n);
    if ok {
      rectangle', lowerStart', upper' := UpdateMax(n, rectangle, lower, lowerStart, upper, upperStart, bars);
      rectangle', lower', upperStart' := UpdateMin(n, rectangle', lower, lowerStart', upper', upperStart, bars);
    }
  }

  // The integer test in terms of the two lines.
  lemma Inside(n: Bar, rectangle: seq<Point>, cl: seq<Point>, cu: seq<Point>, bars: seq<Bar>)
    requires Segment(bars, cl, cu) && Follows(bars, n)
    requires rectangle == [cu[0], cl[0], Last(cl), Last(cu)]
    ensures !Outside(rectangle, n) <==>
            At(MinLine(cl, cu), n.x) <= n.hi as real && n.lo as real <= At(MaxLine(cl, cu), n.x)
  {
    SlopeTest(cu[0], Last(cl), Last(cl), n.High());
    SlopeTest(cl[0], Last(cu), Last(cu), n.Low());
  }

  // What check_point relies on.
  lemma Verdict(n: Bar, rectangle: seq<Point>, lower: seq<Point>, lowerStart: nat,
                upper: seq<Point>, upperStart: nat, bars: seq<Bar>)
    requires Follows(bars, n) && SameWidth(bars, n) && |rectangle| == 4
    requires |bars| == 1 ==> bars[0].lo <= bars[0].hi
    requires |bars| >= 2 ==> FitOk(bars, rectangle, lower, lowerStart, upper, upperStart)
    ensures |bars| >= 2 ==> (Outside(rectangle, n) <==> !Stabbable(bars + [n]))
    ensures |bars| < 2 ==> Stabbable(bars + [n])
  {
    if |bars| == 0 {
      OneInterval(n);
      assert bars + [n] == [n];
    } else if |bars| == 1 {
      TwoIntervals(bars[0], n);
      assert bars + [n] == [bars[0], n];
    } else {
      var cl, cu := lower[lowerStart..], upper[upperStart..];
      Inside(n, rectangle, cl, cu, bars);
      if Outside(rectangle, n) {
        OutsideIsUnstabbable(bars, n, cl, cu);
      } else {
        InsideIsStabbable(bars, n, cl, cu);
      }
    }
  }

  lemma HalfWayFacts(bars: seq<Bar>, n: Bar, cl: seq<Point>, cu: seq<Point>)
    requires HalfWay(bars, n, cl, cu)
    ensures Rising(cl) && Last(cl).x < n.x && cu[0].x < n.x
    ensures Rising(MirrorChain(cu)) && Concave(MirrorChain(cu)) && EndsApart(cl, cu)
    ensures Minus(Point(n.x, n.lo), cu[0]).Greater(Minus(Last(cl), cu[0])) <==> !OnOrBelow(n.Low(), MinLine(cl, cu))
  {
    SlopeTest(cu[0], Last(cl), cu[0], n.Low());
    RunFollows(bars, n);
    var a := ChainInside(cl, bars, |cl| - 1);
  }

  // The diagonals of the rectangle are the flattest and the steepest line for the run.
  ghost predicate SlopeRange(rectangle: seq<Point>, run: seq<Point>, epsilon: nat, maxY: nat) {
    |rectangle| == 4 && rectangle[0].x != rectangle[2].x && rectangle[1].x != rectangle[3].x &&
    var flattest, steepest := Through(rectangle[0], rectangle[2]), Through(rectangle[1], rectangle[3]);
    && Approximates(flattest, run, epsilon, maxY) && Approximates(steepest, run, epsilon, maxY)
    && forall l: Line :: Approximates(l, run, epsilon, maxY) ==> flattest.slope <= l.slope <= steepest.slope
  }

  lemma RectangleIsRange(run: seq<Point>, epsilon: nat, maxY: nat, rectangle: seq<Point>, lower: seq<Point>, lowerStart: nat,
                         upper: seq<Point>, upperStart: nat)
    requires Samples(run, maxY) && epsilon <= maxY && FitOk(ClipAll(run, epsilon, maxY), rectangle, lower, lowerStart, upper, upperStart)
    ensures SlopeRange(rectangle, run, epsilon, maxY)
  {
    hide Segment, Clip, ClipAll, Within, Samples, At, Hits, Stabs, Approximates;
    var bars, cl, cu := ClipAll(run, epsilon, maxY), lower[lowerStart..], upper[upperStart..];
    RangeOf(bars, cl, cu);
    forall l: Line ensures Stabs(l, bars) <==> Approximates(l, run, epsilon, maxY) {
      RanksIn(run, maxY);
      StabsIsApproximates(l, run, epsilon, maxY);
    }
    forall l: Line | Approximates(l, run, epsilon, maxY) ensures MinLine(cl, cu).slope <= l.slope <= MaxLine(cl, cu).slope {
      ExtremeSlopes(bars, cl, cu, l);
    }
  }

  lemma RangeOf(bars: seq<Bar>, cl: seq<Point>, cu: seq<Point>)
    requires Segment(bars, cl, cu)
    ensures EndsApart(cl, cu) && Stabs(MinLine(cl, cu), bars) && Stabs(MaxLine(cl, cu), bars)
  {
  }

  lemma RanksIn(run: seq<Point>, maxY: nat)
    requires Samples(run, maxY)
    ensures forall i :: 0 <= i < |run| ==> 0 <= run[i].y <= maxY
  {
  }

  class OptimalPiecewiseLinearModel {
    const epsilon: nat
    const maxY: nat
    var lower: seq<Point>
    var upper: seq<Point>
    var firstX: int
    var lastX: int
    var lastRank: int
    var lowerStart: nat
    var upperStart: nat
    var pointsInHull: nat
    var rectangle: seq<Point>
    // The samples of the current segment.
    ghost var run: seq<Point>

    ghost function Bars(): seq<Bar>
      reads this
    {
      ClipAll(run, epsilon, maxY)
    }

    ghost predicate Valid()
      reads this
    {
      && epsilon <= maxY && |rectangle| == 4 && Samples(run, maxY)
      && pointsInHull == |run|
      && (pointsInHull >= 1 ==> lastX == Last(run).x && firstX == run[0].x)
      && (pointsInHull == 1 ==>
            && lower == [Bars()[0].Low()] && upper == [Bars()[0].High()]
            && lowerStart == 0 && upperStart == 0
            && rectangle[0] == upper[0] && rectangle[1] == lower[0])
      && (pointsInHull >= 2 ==> FitOk(Bars(), rectangle, lower, lowerStart, upper, upperStart))
    }

    constructor (epsilon: nat, maxY: nat)
      requires epsilon <= maxY
      ensures Valid() && run == [] && this.epsilon == epsilon && this.maxY == maxY
    {
      this.epsilon, this.maxY := epsilon, maxY;
      lower, upper := [], [];
      firstX, lastX, lastRank := 0, 0, 0;
      lowerStart, upperStart, pointsInHull := 0, 0, 0;
      rectangle := [Point(0, 0), Point(0, 0), Point(0, 0), Point(0, 0)];
      run := [];
    }

    // Adds a sample. It is accepted exactly when one line still does for all samples of the segment and
    // for the new one; otherwise the segment is closed.
    method AddPoint(x: int, y: nat) returns (r: AddResult)
      requires Valid() && y <= maxY
      modifies this
      ensures Valid()
      ensures r == OutOfOrder <==> old(pointsInHull) > 0 && x <= old(lastX)
      ensures r == OutOfOrder ==> unchanged(this)
      ensures r != OutOfOrder ==>
                (r == Accepted <==> OneLine(old(run) + [Point(x, y)], epsilon, maxY))
      ensures r == Accepted ==> run == old(run) + [Point(x, y)]
      ensures r == Rejected ==> run == []
      ensures r != OutOfOrder ==> lastX == x && pointsInHull == |run|
    {
      if pointsInHull > 0 && x <= lastX {
        return OutOfOrder;
      }
      StabbableIsOneLine(run + [Point(x, y)], epsilon, maxY);
      if pointsInHull == 0 {
        assert run + [Point(x, y)] == [Point(x, y)];
        AddFirst(x, y);
        r := Accepted;
      } else if pointsInHull == 1 {
        AddSecond(x, y);
        r := Accepted;
      } else {
        r := AddNext(x, y);
      }
    }

    method AddFirst(x: int, y: nat)
      requires Valid() && y <= maxY && pointsInHull == 0
      modifies this
      ensures Valid() && run == [Point(x, y)]
      ensures Stabbable(ClipAll([Point(x, y)], epsilon, maxY))
    {
      hide FitOk, Stabbable, Samples, Follows, SameWidth, Clip, ClipAll;
      var n := Clip(Point(x, y), epsilon, maxY);
      ghost var p := Point(x, y);
      NextSample(run, p, epsilon, maxY);
      ClipAppend([], p, epsilon, maxY);
      OneInterval(n);
      lastX, lastRank, firstX := x, y, x;
      var p1, p2 := Point(x, n.hi), Point(x, n.lo);
      rectangle := [p1, p2, rectangle[2], rectangle[3]];
      upper, lower := [p1], [p2];
      upperStart, lowerStart := 0, 0;
      pointsInHull := 1;
      run := [p];
      assert ClipAll([] + [p], epsilon, maxY) == [n];
      assert [] + [p] == [p];
    }

    method AddSecond(x: int, y: nat)
      requires Valid() && y <= maxY && pointsInHull == 1 && lastX < x
      modifies this
      ensures Valid() && run == old(run) + [Point(x, y)]
      ensures Stabbable(ClipAll(run, epsilon, maxY))
    {
      hide FitOk, Stabbable, Samples, Follows, SameWidth, Clip, ClipAll;
      ghost var bars, p := Bars(), Point(x, y);
      var n := Clip(Point(x, y), epsilon, maxY);
      NextSample(run, p, epsilon, maxY);
      ClipAppend(run, p, epsilon, maxY);
      TwoIntervals(bars[0], n);
      lastX, lastRank := x, y;
      var p1, p2 := Point(x, n.hi), Point(x, n.lo);
      rectangle := [rectangle[0], rectangle[1], p2, p1];
      upper, lower := upper + [p1], lower + [p2];
      pointsInHull := 2;
      run := run + [p];
      assert lower == [bars[0].Low(), n.Low()] && upper == [bars[0].High(), n.High()];
      assert Bars() == [bars[0], n];
    }

    method AddNext(x: int, y: nat) returns (r: AddResult)
      requires Valid() && y <= maxY && pointsInHull >= 2 && lastX < x
      modifies this
      ensures Valid() && (r == Accepted || r == Rejected)
      ensures r == Accepted <==> Stabbable(ClipAll(old(run) + [Point(x, y)], epsilon, maxY))
      ensures r == Accepted ==> run == old(run) + [Point(x, y)]
      ensures r == Rejected ==> run == [] && lastX == x
    {
      hide FitOk, Stabbable, Samples, Follows, SameWidth, Clip, ClipAll;
      ghost var bars, p := Bars(), Point(x, y);
      var n := Clip(Point(x, y), epsilon, maxY);
      NextSample(run, p, epsilon, maxY);
      ClipAppend(run, p, epsilon, maxY);
      lastX, lastRank := x, y;
      var ok;
      ok, rectangle, lower, lowerStart, upper, upperStart :=
        Extend(n, rectangle, lower, lowerStart, upper, upperStart, bars);
      if !ok {
        pointsInHull := 0;
        run := [];
        return Rejected;
      }
      pointsInHull := pointsInHull + 1;
      run := run + [p];
      return Accepted;
    }

    // The verdict of add_point without adding the sample. The order of x is not checked here.
    method CheckPoint(x: int, y: nat) returns (ok: bool)
      requires Valid() && y <= maxY
      modifies this
      ensures Valid()
      ensures old(pointsInHull) == 0 || old(lastX) < x ==>
                (ok <==> OneLine(old(run) + [Point(x, y)], epsilon, maxY))
      ensures ok ==> unchanged(this)
      ensures !ok ==> run == []
    {
      hide FitOk, Stabbable, Follows, SameWidth, Clip, ClipAll, Outside, OneLine;
      var n := Clip(Point(x, y), epsilon, maxY);
      ghost var bars, p := Bars(), Point(x, y);
      if pointsInHull == 0 || lastX < x {
        NextSample(run, p, epsilon, maxY);
        ClipAppend(run, p, epsilon, maxY);
        StabbableIsOneLine(run + [p], epsilon, maxY);
        Verdict(n, rectangle, lower, lowerStart, upper, upperStart, bars);
      }
      if pointsInHull >= 2 && Outside(rectangle, n) {
        NoSamples(maxY);
        pointsInHull := 0;
        run := [];
        return false;
      }
      return true;
    }

    method Reset()
      requires Valid()
      modifies this
      ensures Valid() && run == [] && pointsInHull == 0
    {
      pointsInHull := 0;
      lower, upper := [], [];
      run := [];
    }

    method GetSegment() returns (s: CanonicalSegment)
      requires Valid() && pointsInHull >= 1
      ensures s.Fits(Bars()) && (pointsInHull == 1 <==> s.OnePoint()) && s.first == firstX
      ensures |run| >= 2 ==> SlopeRange(s.rectangle, run, epsilon, maxY)
    {
      if pointsInHull == 1 {
        s := CanonicalSegment([rectangle[0], rectangle[1], rectangle[0], rectangle[1]], firstX);
      } else {
        s := CanonicalSegment(rectangle, firstX);
        RectangleIsRange(run, epsilon, maxY, rectangle, lower, lowerStart, upper, upperStart);
      }
    }

    // The steepest line for the segment. Evaluated at the key of any of its samples, it is within epsilon + 1/2 of the
    // sample's rank. With one sample this needs its two ends not to wrap around when they are added.
    method GetFloatingPointSegment(origin: int) returns (slope: real, intercept: int)
      requires Valid() && pointsInHull >= 1
      ensures |run| == |Bars()| && |run| >= 1 && (|run| == 1 ==> slope == 0.0)
      ensures |run| >= 2 ==> exists l: Line :: l.slope == slope && Approximates(l, run, epsilon, maxY)
      ensures |run| >= 2 ==> forall l: Line :: Approximates(l, run, epsilon, maxY) ==> l.slope <= slope
      ensures forall i :: 0 <= i < |run| && (|run| >= 2 || Bars()[0].lo + Bars()[0].hi <= maxY) ==>
                NearRank(run[i], epsilon, HeightAt((slope, intercept), origin, run[i].x))
      ensures |run| == 1 ==>
                (NearBar(Bars()[0], HeightAt((slope, intercept), origin, run[0].x)) <==> Bars()[0].lo + Bars()[0].hi <= maxY)
    {
      hide FitOk, CanonicalSegment.Fits, CanonicalSegment.FloatingPointSegment, ClipAll, NearRank, NearBar, Samples, HeightAt, Approximates;
      var s := GetSegment();
      SegmentShape(s, Bars());
      var line := s.FloatingPointSegment(origin, maxY);
      slope, intercept := line.0, line.1;
      SlopeIs(s, origin, maxY);
      forall i | 0 <= i < |run| && (|run| >= 2 || Bars()[0].lo + Bars()[0].hi <= maxY)
        ensures NearRank(run[i], epsilon, HeightAt((slope, intercept), origin, run[i].x))
      {
        FitIsNear(s, run, epsilon, maxY, origin, i);
      }
      if |run| == 1 {
        OneFit(s, run, epsilon, maxY, origin);
      }
    }
  }

  lemma FitIsNear(s: CanonicalSegment, run: seq<Point>, epsilon: nat, maxY: nat, origin: int, i: nat)
    requires Samples(run, maxY) && epsilon <= maxY && s.Fits(ClipAll(run, epsilon, maxY)) && i < |run|
    requires |run| == 1 ==> s.OnePoint() && ClipAll(run, epsilon, maxY)[0].lo + ClipAll(run, epsilon, maxY)[0].hi <= maxY
    ensures var line := s.FloatingPointSegment(origin, maxY);
            NearRank(run[i], epsilon, HeightAt(line, origin, run[i].x))
  {
    hide CanonicalSegment.Fits, CanonicalSegment.FloatingPointSegment, ClipAll, NearRank, NearBar, Samples, HeightAt;
    SegmentShape(s, ClipAll(run, epsilon, maxY));
    ClippedBar(run, epsilon, maxY, i);
    var line := s.FloatingPointSegment(origin, maxY);
    if |run| == 1 {
      OneFit(s, run, epsilon, maxY, origin);
    } else {
      SegmentNearAt(s, ClipAll(run, epsilon, maxY), origin, maxY, i);
    }
    ClippedIsNear(run, epsilon, maxY, i, HeightAt(line, origin, run[i].x));
  }

  lemma OneFit(s: CanonicalSegment, run: seq<Point>, epsilon: nat, maxY: nat, origin: int)
    requires Samples(run, maxY) && epsilon <= maxY && s.Fits(ClipAll(run, epsilon, maxY)) && |run| == 1 && s.OnePoint()
    ensures var line, b := s.FloatingPointSegment(origin, maxY), ClipAll(run, epsilon, maxY)[0];
            NearBar(b, HeightAt(line, origin, run[0].x)) <==> b.lo + b.hi <= maxY
  {
    hide CanonicalSegment.Fits, CanonicalSegment.FloatingPointSegment, ClipAll, NearBar, Samples, HeightAt;
    var bars := ClipAll(run, epsilon, maxY);
    ClippedBar(run, epsilon, maxY, 0);
    assert bars == [bars[0]];
    OnePointNearAt(s, bars[0], origin, maxY);
  }

  // A fitted height is within epsilon + 1/2 of a sample's rank.
  ghost predicate NearRank(p: Point, epsilon: nat, height: real) {
    (p.y - epsilon) as real - 0.5 <= height <= (p.y + epsilon) as real + 0.5
  }

  lemma ClippedIsNear(run: seq<Point>, epsilon: nat, maxY: nat, i: nat, height: real)
    requires Samples(run, maxY) && epsilon <= maxY && i < |run| && NearBar(ClipAll(run, epsilon, maxY)[i], height)
    ensures NearRank(run[i], epsilon, height)
  {
  }

  lemma ClippedBar(run: seq<Point>, epsilon: nat, maxY: nat, i: nat)
    requires Samples(run, maxY) && epsilon <= maxY && i < |run|
    ensures var b := ClipAll(run, epsilon, maxY)[i]; b.x == run[i].x && 0 <= b.lo <= b.hi <= maxY
  {
  }

  // A segment with one sample has one corner pair.
  lemma SegmentShape(s: CanonicalSegment, bars: seq<Bar>)
    requires s.Fits(bars)
    ensures |s.rectangle| == 4 && (s.OnePoint() || s.rectangle[1].x != s.rectangle[3].x) && (|bars| >= 2 ==> !s.OnePoint())
  {
  }

  lemma SlopeIs(s: CanonicalSegment, origin: int, maxY: nat)
    requires |s.rectangle| == 4 && (s.OnePoint() || s.rectangle[1].x != s.rectangle[3].x)
    ensures s.FloatingPointSegment(origin, maxY).0 == if s.OnePoint() then 0.0 else Through(s.rectangle[1], s.rectangle[3]).slope
  {
  }
}
