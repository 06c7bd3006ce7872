// The half-hulls of a segment: concave chains that cover the ends of its intervals.
module HalfHull {
  // The half-hull a segment keeps over the lower ends of its intervals. The half-hull over the upper ends
  // is the same thing seen in a mirror (y negated).

  import opened Geometry

  // x-coordinates strictly increase.
  ghost predicate Rising(c: seq<Point>) {
    forall i, j :: 0 <= i < j < |c| ==> c[i].x < c[j].x
  }

  ghost predicate RunOk(bars: seq<Bar>) {
    && (forall i, j :: 0 <= i < j < |bars| ==> bars[i].x < bars[j].x)
    && (forall i :: 0 <= i < |bars| ==> bars[i].lo <= bars[i].hi)
  }

  ghost predicate IsLow(p: Point, bars: seq<Bar>) {
    exists i :: 0 <= i < |bars| && bars[i].Low() == p
  }

  // Every point of the chain is the lower end of some interval.
  ghost predicate Drawn(c: seq<Point>, bars: seq<Bar>) {
    forall k :: 0 <= k < |c| ==> IsLow(c[k], bars)
  }

  ghost predicate Concave(c: seq<Point>) {
    forall k :: 0 <= k < |c| - 2 ==> Cross(c[k], c[k + 1], c[k + 2]) < 0
  }

  ghost predicate CoveredBy(b: Bar, p: Point, q: Point)
    requires p.x < q.x
  {
    p.x <= b.x <= q.x ==> OnOrBelow(b.Low(), Through(p, q))
  }

  // No lower end sticks out above the chain, between its first and its last point.
  ghost predicate Covers(c: seq<Point>, bars: seq<Bar>)
    requires Rising(c)
  {
    forall k, i :: 0 <= k < |c| - 1 && 0 <= i < |bars| ==> CoveredBy(bars[i], c[k], c[k + 1])
  }

  ghost predicate LowerHull(c: seq<Point>, bars: seq<Bar>) {
    |c| >= 1 && Rising(c) && Drawn(c, bars) && Concave(c) && Covers(c, bars)
  }

  // ----- Mirror images -----

  function MirrorPoint(p: Point): Point { Point(p.x, -p.y) }

  function MirrorBar(b: Bar): Bar { Bar(b.x, -b.hi, -b.lo) }

  ghost function MirrorLine(l: Line): Line { Line(-l.slope, -l.intercept) }

  function MirrorChain(c: seq<Point>): (r: seq<Point>)
    ensures |r| == |c|
  {
    seq(|c|, i requires 0 <= i < |c| => MirrorPoint(c[i]))
  }

  function MirrorBars(bars: seq<Bar>): (r: seq<Bar>)
    ensures |r| == |bars|
  {
    seq(|bars|, i requires 0 <= i < |bars| => MirrorBar(bars[i]))
  }

  lemma MirrorAt(l: Line, x: int)
    ensures At(MirrorLine(l), x) == -At(l, x)
  {
  }

  lemma MirrorThrough(p: Point, q: Point)
    requires p.x != q.x
    ensures Through(MirrorPoint(p), MirrorPoint(q)) == MirrorLine(Through(p, q))
  {
    var dy, dx := (q.y - p.y) as real, (q.x - p.x) as real;
    assert ((-q.y) - (-p.y)) as real == -dy;
    assert (-dy) / dx == -(dy / dx) by {
      assert (-dy / dx) * dx == -dy;
    }
  }

  lemma MirrorStabs(l: Line, bars: seq<Bar>)
    ensures Stabs(MirrorLine(l), MirrorBars(bars)) <==> Stabs(l, bars)
  {
    forall i | 0 <= i < |bars|
      ensures Hits(MirrorLine(l), MirrorBars(bars)[i]) <==> Hits(l, bars[i])
    {
      MirrorAt(l, bars[i].x);
    }
    if Stabs(MirrorLine(l), MirrorBars(bars)) {
      forall i | 0 <= i < |bars| ensures Hits(l, bars[i]) {
        assert Hits(MirrorLine(l), MirrorBars(bars)[i]);
      }
    }
  }

  lemma MirrorRunOk(bars: seq<Bar>)
    requires RunOk(bars)
    ensures RunOk(MirrorBars(bars))
  {
  }

  // ----- Tangents -----

  // A chain that turns below a line from one point to the next stays below it ever after:
  // the tangent search may stop at the first decrease.
  lemma StaysBelow(c: seq<Point>, t: Line, m: nat, k: nat)
    requires Rising(c) && Concave(c)
    requires m + 1 <= k < |c|
    requires c[m].y as real == At(t, c[m].x) && Below(c[m + 1], t)
    ensures Below(c[k], t)
    ensures At(t, c[k].x) - c[k].y as real >= At(t, c[k - 1].x) - c[k - 1].y as real
    decreases k
  {
    if k > m + 1 {
      StaysBelow(c, t, m, k - 1);
      var p, q, r := c[k - 2], c[k - 1], c[k];
      assert Cross(c[k - 2], c[k - 2 + 1], c[k - 2 + 2]) < 0;
      CrossTest(p, q, r);
      var l := Through(p, q);
      GapTrend(l, t, p.x, q.x);
      GapTrend(l, t, q.x, r.x);
    }
  }

  // A line through p and through a lower end, with the whole chain on or below it, again stabs
  // the run. `steep` and `flat` are lines that already stab it and between which p lies.
  lemma TangentStabs(bars: seq<Bar>, c: seq<Point>, t: Line, steep: Line, flat: Line, p: Point, j: nat)
    requires RunOk(bars) && |c| >= 1 && Rising(c) && Covers(c, bars)
    requires Stabs(steep, bars) && Stabs(flat, bars)
    requires forall i :: 0 <= i < |bars| ==> bars[i].x < p.x
    requires c[0].x < p.x && At(t, p.x) == p.y as real
    requires At(flat, p.x) <= p.y as real <= At(steep, p.x)
    requires forall k :: 0 <= k < |c| ==> OnOrBelow(c[k], t)
    requires c[0].y as real == At(steep, c[0].x)
    requires c[|c| - 1].x >= p.x || c[|c| - 1].y as real == At(flat, c[|c| - 1].x)
    requires j < |bars| && At(t, bars[j].x) == bars[j].lo as real
    ensures Stabs(t, bars)
  {
    forall i | 0 <= i < |bars| ensures Hits(t, bars[i]) {
      var b := bars[i];
      assert Hits(steep, b) && Hits(flat, b) && Hits(steep, bars[j]) && Hits(flat, bars[j]);
      if b.x <= bars[j].x {
        OrderLeft(t, flat, b.x, bars[j].x, p.x);
      } else {
        OrderBetween(t, steep, bars[j].x, p.x, b.x);
      }
      TangentAboveLows(bars, c, t, steep, flat, p, i);
    }
  }

  lemma TangentAboveLows(bars: seq<Bar>, c: seq<Point>, t: Line, steep: Line, flat: Line, p: Point, i: nat)
    requires |c| >= 1 && Rising(c) && Covers(c, bars)
    requires i < |bars| && Hits(steep, bars[i]) && Hits(flat, bars[i]) && bars[i].x < p.x
    requires c[0].x < p.x && At(t, p.x) == p.y as real
    requires At(flat, p.x) <= p.y as real <= At(steep, p.x)
    requires forall k :: 0 <= k < |c| ==> OnOrBelow(c[k], t)
    requires c[0].y as real == At(steep, c[0].x)
    requires c[|c| - 1].x >= p.x || c[|c| - 1].y as real == At(flat, c[|c| - 1].x)
    ensures OnOrBelow(bars[i].Low(), t)
  {
    var b := bars[i];
    assert OnOrBelow(c[0], t) && OnOrBelow(c[|c| - 1], t);
    if b.x < c[0].x {
      OrderLeft(steep, t, b.x, c[0].x, p.x);
    } else if b.x >= c[|c| - 1].x {
      OrderBetween(flat, t, c[|c| - 1].x, p.x, b.x);
    } else {
      var k := Piece(c, b.x);
      assert CoveredBy(b, c[k], c[k + 1]);
      assert OnOrBelow(c[k], t) && OnOrBelow(c[k + 1], t);
      OrderBetween(Through(c[k], c[k + 1]), t, c[k].x, c[k + 1].x, b.x);
    }
  }

  // The piece of the chain over x.
  ghost function Piece(c: seq<Point>, x: int): (k: nat)
    requires |c| >= 1 && c[0].x <= x < c[|c| - 1].x
    ensures k < |c| - 1 && c[k].x <= x < c[k + 1].x
  {
    if x < c[1].x then 0 else 1 + Piece(c[1..], x)
  }

  // Dropping a prefix of the chain keeps everything the chain promises.
  lemma DropFront(c: seq<Point>, bars: seq<Bar>, m: nat)
    requires LowerHull(c, bars) && m < |c|
    ensures LowerHull(c[m..], bars)
  {
    var d := c[m..];
    forall k | 0 <= k < |d| ensures IsLow(d[k], bars) {
      assert IsLow(c[k + m], bars);
    }
    forall k | 0 <= k < |d| - 2 ensures Cross(d[k], d[k + 1], d[k + 2]) < 0 {
      var h := k + m;
      assert Cross(c[h], c[h + 1], c[h + 2]) < 0;
    }
    forall k, i | 0 <= k < |d| - 1 && 0 <= i < |bars| ensures CoveredBy(bars[i], d[k], d[k + 1]) {
      var h := k + m;
      assert CoveredBy(bars[i], c[h], c[h + 1]);
    }
  }

  lemma LowStays(p: Point, bars: seq<Bar>, n: Bar)
    requires IsLow(p, bars)
    ensures IsLow(p, bars + [n])
  {
    var i :| 0 <= i < |bars| && bars[i].Low() == p;
    assert (bars + [n])[i].Low() == p;
  }

  // An interval to the right of the chain changes nothing.
  lemma AddBar(c: seq<Point>, bars: seq<Bar>, n: Bar)
    requires LowerHull(c, bars) && c[|c| - 1].x < n.x
    ensures LowerHull(c, bars + [n])
  {
    forall k | 0 <= k < |c| ensures IsLow(c[k], bars + [n]) {
      assert IsLow(c[k], bars);
      LowStays(c[k], bars, n);
    }
  }

  // The popped points all lie on or below the segment from the last kept point to p.
  ghost predicate Popped(c: seq<Point>, e: nat, p: Point)
    requires 1 <= e <= |c|
  {
    && c[e - 1].x < p.x
    && (forall j :: e - 1 <= j < |c| ==> OnOrBelow(c[j], Through(c[e - 1], p)))
  }

  lemma NothingPopped(c: seq<Point>, p: Point)
    requires |c| >= 1 && c[|c| - 1].x < p.x
    ensures Popped(c, |c|, p)
  {
  }

  lemma PopOne(c: seq<Point>, e: nat, p: Point)
    requires Rising(c) && 2 <= e <= |c| && c[|c| - 1].x < p.x
    requires Popped(c, e, p) && Cross(c[e - 2], c[e - 1], p) >= 0
    ensures Popped(c, e - 1, p)
  {
    CrossMiddle(c[e - 2], c[e - 1], p);
    var l, m := Through(c[e - 1], p), Through(c[e - 2], p);
    forall j | e - 2 <= j < |c| ensures OnOrBelow(c[j], m) {
      if j >= e - 1 {
        OrderBetween(l, m, c[e - 1].x, p.x, c[j].x);
      }
    }
  }

  // Popping back to e and appending the new lower end p, which sticks out above `flat`.
  lemma Push(c: seq<Point>, bars: seq<Bar>, flat: Line, e: nat, n: Bar)
    requires LowerHull(c, bars) && RunOk(bars) && Stabs(flat, bars)
    requires c[|c| - 1].y as real == At(flat, c[|c| - 1].x)
    requires forall i :: 0 <= i < |bars| ==> bars[i].x < n.x
    requires c[|c| - 1].x < n.x && !OnOrBelow(n.Low(), flat)
    requires 1 <= e <= |c| && Popped(c, e, n.Low())
    requires e >= 2 ==> Cross(c[e - 2], c[e - 1], n.Low()) < 0
    ensures LowerHull(c[..e] + [n.Low()], bars + [n])
  {
    var p := n.Low();
    var d, more := c[..e] + [p], bars + [n];
    PushDrawn(c, bars, e, n);
    PushConcave(c, e, p);
    assert Rising(d);
    forall k, i | 0 <= k < |d| - 1 && 0 <= i < |more| ensures CoveredBy(more[i], d[k], d[k + 1]) {
      if k + 1 < e {
        assert d[k] == c[k] && d[k + 1] == c[k + 1];
        if i < |bars| {
          assert CoveredBy(bars[i], c[k], c[k + 1]);
        }
      } else if i < |bars| {
        PushCovers(c, bars, flat, e, p, i);
      }
    }
  }

  lemma PushDrawn(c: seq<Point>, bars: seq<Bar>, e: nat, n: Bar)
    requires Drawn(c, bars) && e <= |c|
    ensures Drawn(c[..e] + [n.Low()], bars + [n])
  {
    var d, more := c[..e] + [n.Low()], bars + [n];
    forall k | 0 <= k < |d| ensures IsLow(d[k], more) {
      if k < e {
        assert IsLow(c[k], bars);
        LowStays(c[k], bars, n);
      } else {
        assert more[|bars|].Low() == d[k];
      }
    }
  }

  lemma PushConcave(c: seq<Point>, e: nat, p: Point)
    requires Concave(c) && 1 <= e <= |c|
    requires e >= 2 ==> Cross(c[e - 2], c[e - 1], p) < 0
    ensures Concave(c[..e] + [p])
  {
    var d := c[..e] + [p];
    forall k | 0 <= k < |d| - 2 ensures Cross(d[k], d[k + 1], d[k + 2]) < 0 {
      if k + 2 < e {
        assert Cross(c[k], c[k + 1], c[k + 2]) < 0;
      }
    }
  }

  lemma PushCovers(c: seq<Point>, bars: seq<Bar>, flat: Line, e: nat, p: Point, i: nat)
    requires LowerHull(c, bars) && i < |bars| && Hits(flat, bars[i])
    requires c[|c| - 1].y as real == At(flat, c[|c| - 1].x)
    requires bars[i].x < p.x && c[|c| - 1].x < p.x && !OnOrBelow(p, flat)
    requires 1 <= e <= |c| && Popped(c, e, p)
    ensures CoveredBy(bars[i], c[e - 1], p)
  {
    var b, l, z := bars[i], Through(c[e - 1], p), |c| - 1;
    if c[e - 1].x <= b.x {
      assert OnOrBelow(c[z], l);
      if b.x >= c[z].x {
        OrderBetween(flat, l, c[z].x, p.x, b.x);
      } else {
        var d := c[e - 1..];
        var k := e - 1 + Piece(d, b.x);
        assert c[k].x <= b.x < c[k + 1].x;
        assert CoveredBy(b, c[k], c[k + 1]);
        assert OnOrBelow(c[k], l) && OnOrBelow(c[k + 1], l);
        OrderBetween(Through(c[k], c[k + 1]), l, c[k].x, c[k + 1].x, b.x);
      }
    }
  }
}
