// Lines, slopes and the sides on which points lie, in the plane.
module Geometry {
  // What the streaming piecewise-linear fitter relies on: exact slope comparisons on integer points, real
  // lines, and how two lines compare on either side of where they cross.

  datatype Point = Point(x: int, y: int)

  // A slope kept as a pair of differences and never divided.
  datatype Slope = Slope(dx: int, dy: int) {
    predicate Less(p: Slope) { dy * p.dx < dx * p.dy }
    predicate Greater(p: Slope) { dy * p.dx > dx * p.dy }
  }

  function Minus(p: Point, q: Point): Slope { Slope(p.x - q.x, p.y - q.y) }

  function Cross(o: Point, a: Point, b: Point): int {
    var oa, ob := Minus(a, o), Minus(b, o);
    oa.dx * ob.dy - oa.dy * ob.dx
  }

  // A vertical interval that a line has to hit.
  datatype Bar = Bar(x: int, lo: int, hi: int) {
    function Low(): Point { Point(x, lo) }
    function High(): Point { Point(x, hi) }
  }

  datatype Line = Line(slope: real, intercept: real)

  ghost function At(l: Line, x: int): real { l.slope * (x as real) + l.intercept }

  ghost predicate Hits(l: Line, b: Bar) { b.lo as real <= At(l, b.x) <= b.hi as real }

  // The line stabs every interval of the run.
  ghost predicate Stabs(l: Line, bars: seq<Bar>) {
    forall i :: 0 <= i < |bars| ==> Hits(l, bars[i])
  }

  ghost predicate Stabbable(bars: seq<Bar>) { exists l: Line :: Stabs(l, bars) }

  ghost predicate OnOrBelow(p: Point, l: Line) { p.y as real <= At(l, p.x) }

  ghost predicate Below(p: Point, l: Line) { (p.y as real) < At(l, p.x) }

  // ----- Lines through points -----

  ghost function Through(p: Point, q: Point): (l: Line)
    requires p.x != q.x
    ensures At(l, p.x) == p.y as real && At(l, q.x) == q.y as real
  {
    var m := ((q.y - p.y) as real) / ((q.x - p.x) as real);
    var l := Line(m, p.y as real - m * (p.x as real));
    ThroughEnds(p, q, m);
    l
  }

  lemma ThroughEnds(p: Point, q: Point, m: real)
    requires p.x != q.x && m == ((q.y - p.y) as real) / ((q.x - p.x) as real)
    ensures m * (q.x as real) + (p.y as real - m * (p.x as real)) == q.y as real
  {
    var dx := (q.x - p.x) as real;
    assert m * dx == (q.y - p.y) as real;
    assert m * (q.x as real) - m * (p.x as real) == m * dx;
  }

  lemma AtDifference(l: Line, x0: int, x1: int)
    ensures At(l, x1) - At(l, x0) == l.slope * ((x1 - x0) as real)
  {
    assert (x1 - x0) as real == x1 as real - x0 as real;
  }

  // ----- How two lines compare at one place, given how they compare at two others -----

  ghost function Gap(l: Line, m: Line, x: int): real { At(m, x) - At(l, x) }

  // The gap between two lines grows or shrinks with the order of their slopes.
  lemma GapTrend(l: Line, m: Line, u: int, v: int)
    requires u <= v
    ensures m.slope >= l.slope ==> Gap(l, m, u) <= Gap(l, m, v)
    ensures m.slope <= l.slope ==> Gap(l, m, u) >= Gap(l, m, v)
    ensures u < v && m.slope > l.slope ==> Gap(l, m, u) < Gap(l, m, v)
    ensures u < v && m.slope < l.slope ==> Gap(l, m, u) > Gap(l, m, v)
  {
    AtDifference(l, u, v);
    AtDifference(m, u, v);
    var a, d := m.slope - l.slope, (v - u) as real;
    assert a * d == m.slope * d - l.slope * d;
    Sign(a, v - u);
  }

  lemma Sign(a: real, d: int)
    requires d >= 0
    ensures a >= 0.0 ==> a * (d as real) >= 0.0
    ensures a <= 0.0 ==> a * (d as real) <= 0.0
    ensures d > 0 ==> (a > 0.0 <==> a * (d as real) > 0.0) && (a < 0.0 <==> a * (d as real) < 0.0)
  {
  }

  lemma OrderBetween(l: Line, m: Line, u: int, v: int, w: int)
    requires u <= w <= v
    requires At(l, u) <= At(m, u) && At(l, v) <= At(m, v)
    ensures At(l, w) <= At(m, w)
  {
    GapTrend(l, m, u, w);
    GapTrend(l, m, w, v);
  }

  lemma OrderLeft(l: Line, m: Line, w: int, u: int, v: int)
    requires w <= u < v
    requires At(l, u) <= At(m, u) && At(l, v) >= At(m, v)
    ensures At(l, w) <= At(m, w)
  {
    GapTrend(l, m, u, v);
    GapTrend(l, m, w, u);
  }

  lemma OrderRight(l: Line, m: Line, u: int, v: int, w: int)
    requires u < v <= w
    requires At(l, u) >= At(m, u) && At(l, v) <= At(m, v)
    ensures At(l, w) <= At(m, w)
  {
    GapTrend(l, m, u, v);
    GapTrend(l, m, v, w);
  }

  // ----- The integer tests mean what they should about real lines -----

  // The slope from c (a point of the line a-b) to p against the slope of a-b.
  lemma SlopeTest(a: Point, b: Point, c: Point, p: Point)
    requires a.x < b.x && (c == a || c == b)
    ensures Minus(p, c).Less(Minus(b, a)) <==> (p.y as real) < At(Through(a, b), p.x)
    ensures Minus(p, c).Greater(Minus(b, a)) <==> (p.y as real) > At(Through(a, b), p.x)
  {
    var l := Through(a, b);
    var dx, dy := b.x - a.x, b.y - a.y;
    AtDifference(l, a.x, b.x);
    AtDifference(l, c.x, p.x);
    var s, t := p.x - c.x, p.y - c.y;
    var gap := p.y as real - At(l, p.x);
    assert gap == t as real - l.slope * (s as real);
    assert l.slope * (dx as real) == dy as real;
    ScaleSlope(l.slope, dx, dy, s, t, gap);
  }

  lemma ScaleSlope(m: real, dx: int, dy: int, s: int, t: int, gap: real)
    requires dx > 0 && m * (dx as real) == dy as real && gap == t as real - m * (s as real)
    ensures t * dx < s * dy <==> gap < 0.0
    ensures t * dx > s * dy <==> gap > 0.0
  {
    var d := dx as real;
    assert gap * d == (t as real) * d - (s as real) * (m * d);
    assert gap * d == (t * dx) as real - (s * dy) as real;
    assert gap < 0.0 <==> gap * d < 0.0;
    assert gap > 0.0 <==> gap * d > 0.0;
  }

  // The same comparison when both slopes run leftwards into p, as in the tangent searches.
  lemma TangentTest(c: Point, q: Point, p: Point)
    requires c.x < p.x
    ensures Minus(q, p).Greater(Minus(c, p)) <==> Below(q, Through(c, p))
    ensures Minus(q, p).Less(Minus(c, p)) <==> (q.y as real) > At(Through(c, p), q.x)
  {
    SlopeTest(c, p, p, q);
    var s, t := q.x - p.x, q.y - p.y;
    assert Minus(q, p).Greater(Minus(c, p)) <==> t * (c.x - p.x) > s * (c.y - p.y);
    assert t * (c.x - p.x) == -(t * (p.x - c.x)) && s * (c.y - p.y) == -(s * (p.y - c.y));
  }

  lemma CrossTest(o: Point, a: Point, b: Point)
    requires o.x < a.x
    ensures Cross(o, a, b) < 0 <==> Below(b, Through(o, a))
    ensures Cross(o, a, b) > 0 <==> (b.y as real) > At(Through(o, a), b.x)
  {
    SlopeTest(o, a, o, b);
  }

  // The middle point is on or below the outer segment exactly when the third point is on or
  // above the line of the first two.
  lemma CrossMiddle(o: Point, a: Point, b: Point)
    requires o.x < a.x < b.x
    ensures Cross(o, a, b) >= 0 <==> OnOrBelow(a, Through(o, b))
  {
    CrossTest(o, a, b);
    var l, m := Through(o, a), Through(o, b);
    if At(l, b.x) <= At(m, b.x) {
      OrderBetween(l, m, o.x, b.x, a.x);
    } else if At(l, a.x) <= At(m, a.x) {
      OrderRight(l, m, o.x, a.x, b.x);
    }
  }

  // The products and the cross product of points with 64-bit keys and ranks below 2^62 fit the
  // signed 128-bit type in which they are computed.
  lemma ProductsFit(o: Point, a: Point, b: Point)
    requires forall p :: p in {o, a, b} ==> 0 <= p.x < 0x1_0000_0000_0000_0000 && 0 <= p.y < 0x4000_0000_0000_0000
    ensures var oa, ob := Minus(a, o), Minus(b, o);
            var bound := 0x4000_0000_0000_0000_0000_0000_0000_0000;
            -bound < oa.dx * ob.dy < bound && -bound < oa.dy * ob.dx < bound && -2 * bound < Cross(o, a, b) < 2 * bound
  {
    var oa, ob := Minus(a, o), Minus(b, o);
    BoundedProduct(oa.dx, ob.dy, 0x1_0000_0000_0000_0000, 0x4000_0000_0000_0000);
    BoundedProduct(ob.dx, oa.dy, 0x1_0000_0000_0000_0000, 0x4000_0000_0000_0000);
    assert oa.dy * ob.dx == ob.dx * oa.dy;
  }

  lemma BoundedProduct(x: int, y: int, m: int, n: int)
    requires -m < x < m && -n < y < n
    ensures -(m * n) < x * y < m * n
  {
    if x >= 0 {
      Scale(x, y, n);
      Scale(x, -n, y);
    } else {
      Scale(-x, y, n);
      Scale(-x, -n, y);
      assert (-x) * y == -(x * y) && (-x) * n == -(x * n) && (-x) * (-n) == x * n;
    }
    Scale(n, x, m);
    Scale(n, -m, x);
    assert x * (-n) == -(x * n) && n * (-m) == -(m * n) && n * x == x * n && n * m == m * n;
  }

  lemma Scale(k: int, a: int, b: int)
    requires k >= 0 && a < b
    ensures k * a <= k * b && (k > 0 ==> k * a < k * b)
  {
    Distributes(k, a, b);
    Positive(k, b - a);
  }

  lemma Distributes(k: int, a: int, b: int)
    ensures k * b - k * a == k * (b - a)
  {
  }

  lemma Positive(k: int, d: int)
    requires k >= 0 && d > 0
    ensures k * d >= 0 && (k > 0 ==> k * d > 0)
  {
  }
}
