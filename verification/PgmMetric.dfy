// The hardness of a key set.
module PgmMetric {
  // It is the number of segments the greedy fitter needs.

  import opened Geometry
  import opened HalfHull
  import opened PiecewiseFit

  // KeysRepeat stands for the exception that add_point throws on a repeated key.
  datatype MetricResult = Metric(segments: nat) | KeysRepeat

  ghost predicate Sorted(s: seq<int>) { forall i, j :: 0 <= i <= j < |s| ==> s[i] <= s[j] }

  ghost predicate StrictlySorted(s: seq<int>) { forall i, j :: 0 <= i < j < |s| ==> s[i] < s[j] }

  // Keys with their ranks.
  ghost function Ranked(keys: seq<int>): (run: seq<Point>)
    ensures |run| == |keys|
  {
    seq(|keys|, i requires 0 <= i < |keys| => Point(keys[i], i))
  }

  // The samples from a to b fit one segment: one line does for all of them.
  ghost predicate OneSegment(run: seq<Point>, a: nat, b: nat, epsilon: nat, maxY: nat)
    requires a <= b <= |run|
  {
    OneLine(run[a..b], epsilon, maxY)
  }

  // A way to cut the samples into consecutive runs, each of which fits one segment. `cuts` lists
  // the run starts and, last, the number of samples.
  ghost predicate Cutting(cuts: seq<nat>, run: seq<Point>, epsilon: nat, maxY: nat) {
    && |cuts| >= 2 && cuts[0] == 0 && cuts[|cuts| - 1] == |run|
    && (forall j, k :: 0 <= j < k < |cuts| ==> cuts[j] < cuts[k] <= |run|)
    && (forall j :: 0 <= j < |cuts| - 1 ==> OneSegment(run, cuts[j], cuts[j + 1], epsilon, maxY))
  }

  // The run starts the greedy loop has chosen after i samples: no run could have been longer.
  ghost predicate Greedy(starts: seq<nat>, i: nat, run: seq<Point>, epsilon: nat, maxY: nat) {
    && |starts| >= 1 && starts[0] == 0 && i <= |run|
    && (forall j, k :: 0 <= j < k < |starts| ==> starts[j] < starts[k])
    && (forall j :: 0 <= j < |starts| ==> starts[j] <= i)
    && (forall j :: 0 <= j < |starts| - 1 ==> Maximal(run, starts[j], starts[j + 1], epsilon, maxY))
  }

  ghost predicate Maximal(run: seq<Point>, a: nat, b: nat, epsilon: nat, maxY: nat) {
    && a <= b < |run|
    && OneSegment(run, a, b, epsilon, maxY) && !OneSegment(run, a, b + 1, epsilon, maxY)
  }

  // Any part of a run that fits one segment does too.
  lemma PartFits(run: seq<Point>, a: nat, b: nat, c: nat, d: nat, epsilon: nat, maxY: nat)
    requires a <= c <= d <= b <= |run| && OneSegment(run, a, b, epsilon, maxY)
    ensures OneSegment(run, c, d, epsilon, maxY)
  {
    hide Within;
    var whole, part := run[a..b], run[c..d];
    var l: Line :| Approximates(l, whole, epsilon, maxY);
    forall i | 0 <= i < |part| ensures Within(l, part[i], epsilon, maxY) {
      assert part[i] == whole[i + (c - a)];
    }
    assert Approximates(l, part, epsilon, maxY);
  }

  // Greedy stays ahead: the j-th run start of any cutting is no later than the greedy one.
  lemma {:induction false} StaysAhead(cuts: seq<nat>, starts: seq<nat>, i: nat, run: seq<Point>, epsilon: nat, maxY: nat, j: nat)
    requires Cutting(cuts, run, epsilon, maxY) && Greedy(starts, i, run, epsilon, maxY)
    requires j < |starts| && j < |cuts|
    ensures cuts[j] <= starts[j]
  {
    if j > 0 {
      StaysAhead(cuts, starts, i, run, epsilon, maxY, j - 1);
      if cuts[j] > starts[j] {
        assert Maximal(run, starts[j - 1], starts[j - 1 + 1], epsilon, maxY);
        assert OneSegment(run, cuts[j - 1], cuts[j - 1 + 1], epsilon, maxY);
        PartFits(run, cuts[j - 1], cuts[j], starts[j - 1], starts[j] + 1, epsilon, maxY);
        assert false;
      }
    }
  }

  lemma LastStart(starts: seq<nat>, k: nat)
    requires forall i, j :: 0 <= i < j < |starts| ==> starts[i] < starts[j]
    requires k < |starts|
    ensures starts[k] <= starts[|starts| - 1]
  {
  }

  // No cutting has fewer runs than the greedy one.
  lemma GreedyIsLeast(cuts: seq<nat>, starts: seq<nat>, run: seq<Point>, epsilon: nat, maxY: nat)
    requires Cutting(cuts, run, epsilon, maxY) && Greedy(starts, |run|, run, epsilon, maxY)
    requires starts[|starts| - 1] < |run|
    ensures |starts| <= |cuts| - 1
  {
    if |cuts| - 1 < |starts| {
      LastStart(starts, |cuts| - 1);
      StaysAhead(cuts, starts, |run|, run, epsilon, maxY, |cuts| - 1);
    }
  }

  // The least number of consecutive runs, each fitting one segment.
  ghost predicate LeastRuns(m: nat, run: seq<Point>, epsilon: nat, maxY: nat) {
    && (exists cuts :: Cutting(cuts, run, epsilon, maxY) && |cuts| - 1 == m)
    && (forall cuts :: Cutting(cuts, run, epsilon, maxY) ==> m <= |cuts| - 1)
  }

  lemma GreedyDone(starts: seq<nat>, run: seq<Point>, epsilon: nat, maxY: nat)
    requires Greedy(starts, |run|, run, epsilon, maxY) && starts[|starts| - 1] < |run|
    requires OneSegment(run, starts[|starts| - 1], |run|, epsilon, maxY)
    ensures LeastRuns(|starts|, run, epsilon, maxY)
  {
    var cuts := starts + [|run|];
    forall j | 0 <= j < |cuts| - 1 ensures OneSegment(run, cuts[j], cuts[j + 1], epsilon, maxY) {
      if j < |starts| - 1 {
        assert Maximal(run, starts[j], starts[j + 1], epsilon, maxY);
      }
    }
    assert Cutting(cuts, run, epsilon, maxY);
    forall other | Cutting(other, run, epsilon, maxY) ensures |starts| <= |other| - 1 {
      GreedyIsLeast(other, starts, run, epsilon, maxY);
    }
  }

  lemma GreedyCut(starts: seq<nat>, i: nat, run: seq<Point>, epsilon: nat, maxY: nat)
    requires Greedy(starts, i, run, epsilon, maxY) && i < |run| && starts[|starts| - 1] < i
    requires OneSegment(run, starts[|starts| - 1], i, epsilon, maxY)
    requires !OneSegment(run, starts[|starts| - 1], i + 1, epsilon, maxY)
    ensures Greedy(starts + [i], i + 1, run, epsilon, maxY)
  {
    var more := starts + [i];
    forall j | 0 <= j < |more| - 1 ensures Maximal(run, more[j], more[j + 1], epsilon, maxY) {
      if j < |starts| - 1 {
        assert Maximal(run, starts[j], starts[j + 1], epsilon, maxY);
      }
    }
  }

  lemma NoCuts(run: seq<Point>, epsilon: nat, maxY: nat)
    ensures Greedy([0], 0, run, epsilon, maxY)
  {
  }

  lemma GreedyGrows(starts: seq<nat>, i: nat, run: seq<Point>, epsilon: nat, maxY: nat)
    requires Greedy(starts, i, run, epsilon, maxY) && i < |run|
    ensures Greedy(starts, i + 1, run, epsilon, maxY)
  {
  }

  lemma FirstFits(keys: seq<int>, i: nat, epsilon: nat, maxY: nat)
    requires i < |keys| <= maxY && epsilon <= maxY
    ensures OneSegment(Ranked(keys), i, i + 1, epsilon, maxY)
  {
    var run := Ranked(keys);
    assert run[i..i + 1] == [run[i]];
    assert Approximates(Line(0.0, i as real), [run[i]], epsilon, maxY);
  }

  // The samples of the current run, and the next one.
  lemma NextRanked(keys: seq<int>, a: nat, i: nat, epsilon: nat, maxY: nat)
    requires a <= i < |keys|
    ensures Ranked(keys)[a..i] + [Point(keys[i], i)] == Ranked(keys)[a..i + 1]
    ensures OneSegment(Ranked(keys), a, i + 1, epsilon, maxY) <==>
            OneLine(Ranked(keys)[a..i] + [Point(keys[i], i)], epsilon, maxY)
  {
    assert Ranked(keys)[i] == Point(keys[i], i);
    assert Ranked(keys)[a..i] + [Point(keys[i], i)] == Ranked(keys)[a..i + 1];
  }

  method SwapDown(keys: array<int>, j: nat)
    requires 0 < j < keys.Length
    modifies keys
    ensures keys[..] == old(keys[..])[j - 1 := old(keys[j])][j := old(keys[j - 1])]
    ensures multiset(keys[..]) == old(multiset(keys[..]))
  {
    keys[j - 1], keys[j] := keys[j], keys[j - 1];
  }

  // The keys up to n are in order, except that the one at j may be too small.
  ghost predicate SortedBut(s: seq<int>, n: nat, j: nat)
    requires n < |s|
  {
    forall a, b :: 0 <= a <= b <= n && b != j ==> s[a] <= s[b]
  }

  method InsertKey(keys: array<int>, n: nat)
    requires n < keys.Length && Sorted(keys[..n])
    modifies keys
    ensures Sorted(keys[..n + 1]) && multiset(keys[..]) == old(multiset(keys[..]))
  {
    assert SortedBut(keys[..], n, n) by {
      forall a, b | 0 <= a <= b <= n && b != n ensures keys[a] <= keys[b] {
        assert keys[..n][a] <= keys[..n][b];
      }
    }
    hide Sorted;
    var j := n;
    while j > 0 && keys[j - 1] > keys[j]
      invariant 0 <= j <= n && SortedBut(keys[..], n, j)
      invariant multiset(keys[..]) == old(multiset(keys[..]))
    {
      ghost var s := keys[..];
      SwapDown(keys, j);
      SunkOne(s, n, j);
      j := j - 1;
    }
    InPlace(keys[..], n, j);
  }

  lemma SunkOne(s: seq<int>, n: nat, j: nat)
    requires 0 < j <= n < |s| && SortedBut(s, n, j) && s[j - 1] > s[j]
    ensures SortedBut(s[j - 1 := s[j]][j := s[j - 1]], n, j - 1)
  {
    assert s[j - 1 := s[j]][j := s[j - 1]] == s[..j - 1] + [s[j], s[j - 1]] + s[j + 1..];
  }

  lemma InPlace(s: seq<int>, n: nat, j: nat)
    requires j <= n < |s| && SortedBut(s, n, j) && (j == 0 || s[j - 1] <= s[j])
    ensures Sorted(s[..n + 1])
  {
    forall a, b | 0 <= a <= b <= n ensures s[a] <= s[b] {
      if b == j && a < j {
        assert s[a] <= s[j - 1];
      }
    }
  }

  // Sorts the keys in place.
  method SortKeys(keys: array<int>)
    modifies keys
    ensures Sorted(keys[..]) && multiset(keys[..]) == old(multiset(keys[..]))
  {
    var n := 0;
    while n < keys.Length
      invariant 0 <= n <= keys.Length
      invariant Sorted(keys[..n]) && multiset(keys[..]) == old(multiset(keys[..]))
    {
      InsertKey(keys, n);
      n := n + 1;
    }
    assert keys[..keys.Length] == keys[..];
  }

  // The number of segments, for keys in any order.
  method PgmMetric(keys: array<int>, errorBound: nat, maxY: nat) returns (r: MetricResult)
    requires errorBound <= maxY && keys.Length <= maxY
    modifies keys
    ensures Sorted(keys[..]) && multiset(keys[..]) == old(multiset(keys[..]))
    ensures r == KeysRepeat <==> !StrictlySorted(keys[..])
    ensures keys.Length == 0 ==> r == Metric(1)
    ensures keys.Length > 0 && r.Metric? ==> LeastRuns(r.segments, Ranked(keys[..]), errorBound, maxY)
  {
    hide Greedy, OneSegment, LeastRuns, OneLine, Ranked, OptimalPiecewiseLinearModel.Valid;
    SortKeys(keys);
    var segment := new OptimalPiecewiseLinearModel(errorBound, maxY);
    var metric := 1;
    ghost var sorted := keys[..];
    ghost var run := Ranked(sorted);
    ghost var starts: seq<nat> := [0];
    NoCuts(run, errorBound, maxY);
    var i := 0;
    while i < keys.Length
      invariant 0 <= i <= keys.Length && keys[..] == sorted && metric == |starts|
      invariant segment.Valid() && fresh(segment) && segment.epsilon == errorBound && segment.maxY == maxY
      invariant Greedy(starts, i, run, errorBound, maxY) && |starts| >= 1
      invariant segment.pointsInHull == |segment.run|
      invariant if i == 0 then starts == [0] && segment.run == []
                else starts[|starts| - 1] < i && segment.run == run[starts[|starts| - 1]..i] && segment.lastX == sorted[i - 1]
      invariant i > 0 ==> OneSegment(run, starts[|starts| - 1], i, errorBound, maxY)
      invariant forall a, b :: 0 <= a < b < i ==> sorted[a] < sorted[b]
    {
      ghost var start := starts[|starts| - 1];
      NextRanked(sorted, start, i, errorBound, maxY);
      FirstFits(sorted, i, errorBound, maxY);
      var added := segment.AddPoint(keys[i], i);
      if added == OutOfOrder {
        return KeysRepeat;
      }
      if added == Rejected {
        GreedyCut(starts, i, run, errorBound, maxY);
        metric := metric + 1;
        segment.Reset();
        NextRanked(sorted, i, i, errorBound, maxY);
        added := segment.AddPoint(keys[i], i);
        starts := starts + [i];
      } else {
        GreedyGrows(starts, i, run, errorBound, maxY);
      }
      i := i + 1;
    }
    if keys.Length > 0 {
      GreedyDone(starts, run, errorBound, maxY);
    }
    r := Metric(metric);
  }
}
