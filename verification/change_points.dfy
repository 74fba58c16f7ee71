/**
 Model of findChangePoints in src/performance/edm.ts: split a segment where the
 energy statistic is highest, and search both halves, as long as that highest
 value reaches a threshold.

 The threshold is any function of the segment length (the code uses alpha times
 its square root), and the results about positions hold whatever the energies.
 */
module ChangePoints {
  import opened Common
  import opened Sorting
  import Energy

  datatype Search = Search(
    score: (seq<real>, seq<real>) -> real,
    threshold: nat -> real,
    series: seq<real>,
    minSize: nat)
  {
    predicate IsSegment(start: int, end: int) {
      0 <= start <= end <= |series|
    }

    // Energy of splitting a segment at a position.
    function ScoreAt(start: nat, split: nat, end: nat): real
      requires start <= split <= end <= |series|
    {
      score(series[start..split], series[split..end])
    }

    /** The leftmost position of the highest energy that leaves minSize points on both sides. */
    predicate IsBest(start: nat, end: nat, best: int)
      requires IsSegment(start, end)
    {
      && start + minSize <= best <= end - minSize
      && (forall k {:trigger ScoreAt(start, k, end)} :: start + minSize <= k <= end - minSize ==>
            && ScoreAt(start, k, end) <= ScoreAt(start, best, end)
            && (k < best ==> ScoreAt(start, k, end) < ScoreAt(start, best, end)))
    }

    // The left-to-right scan of the code, up to and including a last position.
    function BestUpTo(start: nat, end: nat, last: nat): (best: nat)
      requires start + minSize <= last <= end - minSize && IsSegment(start, end)
      ensures start + minSize <= best <= last
      ensures forall k {:trigger ScoreAt(start, k, end)} :: start + minSize <= k <= last ==>
                && ScoreAt(start, k, end) <= ScoreAt(start, best, end)
                && (k < best ==> ScoreAt(start, k, end) < ScoreAt(start, best, end))
      decreases last
    {
      if last == start + minSize then last
      else
        var best := BestUpTo(start, end, last - 1);
        if ScoreAt(start, last, end) > ScoreAt(start, best, end) then last else best
    }

    function Best(start: nat, end: nat): (best: nat)
      requires IsSegment(start, end) && end - start >= 2 * minSize
      ensures IsBest(start, end, best)
    {
      BestUpTo(start, end, end - minSize)
    }

    predicate Splittable(start: nat, end: nat)
      requires IsSegment(start, end)
    {
      && end - start >= 2 * minSize
      && ScoreAt(start, Best(start, end), end) >= threshold(end - start)
    }

    // The positions in the order in which the search reports them.
    function Splits(start: nat, end: nat): seq<int>
      requires IsSegment(start, end) && minSize >= 1
      decreases end - start
    {
      if !Splittable(start, end) then []
      else
        var best := Best(start, end);
        [best] + Splits(start, best) + Splits(best, end)
    }

    // The same positions from left to right.
    function InOrder(start: nat, end: nat): seq<int>
      requires IsSegment(start, end) && minSize >= 1
      decreases end - start
    {
      if !Splittable(start, end) then []
      else
        var best := Best(start, end);
        InOrder(start, best) + [best] + InOrder(best, end)
    }

    // What findChangePoints returns.
    function Points(): seq<int>
      requires minSize >= 1
    {
      Sort(Splits(0, |series|), LeqInt)
    }

    /** No gap between consecutive boundaries can be split any further. */
    predicate Settled(boundaries: seq<int>) {
      forall i {:trigger boundaries[i]} :: 0 <= i < |boundaries| - 1 ==>
        IsSegment(boundaries[i], boundaries[i + 1]) && !Splittable(boundaries[i], boundaries[i + 1])
    }

    /** A position is the best split, reaching the threshold, of a segment between two boundaries. */
    ghost predicate Justified(p: int, boundaries: seq<int>) {
      exists a: int, b: int :: a in boundaries && b in boundaries && IsSegment(a, b) && Splittable(a, b) && p == Best(a, b)
    }
  }

  predicate LeqInt(a: int, b: int) { a <= b }

  function Boundaries(start: int, points: seq<int>, end: int): seq<int> {
    [start] + points + [end]
  }

  predicate Spaced(b: seq<int>, gap: nat) {
    forall i {:trigger b[i]} :: 0 <= i < |b| - 1 ==> b[i] + gap <= b[i + 1]
  }

  // ---------------------------------------------------------------- the loops of the code

  // The loop over the admissible positions.
  method ScanSegment(s: Search, start: nat, end: nat) returns (bestSplit: int, bestEnergy: real)
    requires s.IsSegment(start, end) && end - start >= 2 * s.minSize && s.score == Energy.Statistic
    ensures bestSplit == s.Best(start, end) && bestEnergy == s.ScoreAt(start, bestSplit, end)
  {
    hide Energy.Statistic;
    bestSplit, bestEnergy := -1, 0.0;
    for split := start + s.minSize to end - s.minSize + 1
      invariant split == start + s.minSize ==> bestSplit == -1
      invariant split > start + s.minSize ==>
                  bestSplit == s.BestUpTo(start, end, split - 1) && bestEnergy == s.ScoreAt(start, bestSplit, end)
    {
      var e := Energy.EnergyStatistic(s.series[start..split], s.series[split..end]);
      assert e == s.ScoreAt(start, split, end);
      if bestSplit == -1 || e > bestEnergy {
        bestEnergy, bestSplit := e, split;
      }
    }
  }

  method SearchSegment(s: Search, start: nat, end: nat, results: seq<int>) returns (all: seq<int>)
    requires s.IsSegment(start, end) && s.minSize >= 1 && s.score == Energy.Statistic
    ensures all == results + s.Splits(start, end)
    decreases end - start
  {
    hide Energy.Statistic;
    hide Search.Best;
    hide Search.ScoreAt;
    all := results;
    var segLen := end - start;
    if segLen < 2 * s.minSize {
      return;
    }
    var bestSplit, bestEnergy := ScanSegment(s, start, end);
    if bestEnergy < s.threshold(segLen) {
      return;
    }
    all := all + [bestSplit];
    all := SearchSegment(s, start, bestSplit, all);
    all := SearchSegment(s, bestSplit, end, all);
  }

  method FindChangePoints(series: seq<real>, minSize: nat, threshold: nat -> real) returns (points: seq<int>)
    requires minSize >= 1
    ensures points == Search(Energy.Statistic, threshold, series, minSize).Points()
  {
    hide Search.Splits;
    hide Energy.Statistic;
    hide Sort;
    var search := Search(Energy.Statistic, threshold, series, minSize);
    var results := SearchSegment(search, 0, |series|, []);
    assert results == search.Splits(0, |series|);
    return Sort(results, LeqInt);
  }

  // ---------------------------------------------------------------- spacing

  lemma JoinSpaced(a: seq<int>, b: seq<int>, gap: nat)
    requires a != [] && b != [] && a[|a| - 1] == b[0] && Spaced(a, gap) && Spaced(b, gap)
    ensures Spaced(a + b[1..], gap)
  {
    var c := a + b[1..];
    forall i | 0 <= i < |c| - 1 ensures c[i] + gap <= c[i + 1] {
      if i < |a| - 1 {
        assert c[i] == a[i] && c[i + 1] == a[i + 1];
      } else {
        assert c[i] == b[i - |a| + 1] && c[i + 1] == b[i - |a| + 2];
      }
    }
  }

  lemma BoundariesJoin(start: int, left: seq<int>, best: int, right: seq<int>, end: int)
    ensures Boundaries(start, left + [best] + right, end)
            == Boundaries(start, left, best) + Boundaries(best, right, end)[1..]
  {
  }

  lemma {:induction false} InOrderSpaced(s: Search, start: nat, end: nat)
    requires s.IsSegment(start, end) && s.minSize >= 1 && s.Splittable(start, end)
    ensures Spaced(Boundaries(start, s.InOrder(start, end), end), s.minSize)
    decreases end - start
  {
    var best := s.Best(start, end);
    if s.Splittable(start, best) { InOrderSpaced(s, start, best); }
    if s.Splittable(best, end) { InOrderSpaced(s, best, end); }
    BoundariesJoin(start, s.InOrder(start, best), best, s.InOrder(best, end), end);
    JoinSpaced(Boundaries(start, s.InOrder(start, best), best), Boundaries(best, s.InOrder(best, end), end), s.minSize);
  }

  lemma {:induction false} SpacedDistance(b: seq<int>, gap: nat, i: nat, j: nat)
    requires Spaced(b, gap) && i <= j < |b|
    ensures b[j] - b[i] >= (j - i) * gap
    decreases j
  {
    if i < j {
      SpacedDistance(b, gap, i, j - 1);
      assert b[j - 1] + gap <= b[j - 1 + 1];
      assert (j - i) * gap == (j - 1 - i) * gap + gap;
    }
  }

  // ---------------------------------------------------------------- the sorted result

  lemma {:induction false} SameElements(s: Search, start: nat, end: nat)
    requires s.IsSegment(start, end) && s.minSize >= 1
    ensures multiset(s.Splits(start, end)) == multiset(s.InOrder(start, end))
    decreases end - start
  {
    if s.Splittable(start, end) {
      var best := s.Best(start, end);
      SameElements(s, start, best);
      SameElements(s, best, end);
    }
  }

  lemma InnerOrder(start: int, points: seq<int>, end: int, gap: nat, i: nat, j: nat)
    requires Spaced(Boundaries(start, points, end), gap) && i < j < |points|
    ensures points[i] + gap <= points[j]
  {
    var b := Boundaries(start, points, end);
    SpacedDistance(b, gap, i + 1, j + 1);
    assert b[i + 1] == points[i] && b[j + 1] == points[j];
    AtLeastOne(j - i, gap);
  }

  lemma PointsAreInOrder(s: Search)
    requires s.minSize >= 1
    ensures s.Points() == s.InOrder(0, |s.series|)
  {
    var n := |s.series|;
    var found, inOrder := s.Splits(0, n), s.InOrder(0, n);
    SameElements(s, 0, n);
    hide Search.Splits;
    InOrderIncreasing(s);
    SortIncreasing(found);
    SortedFormIsUnique(Sort(found, LeqInt), inOrder);
  }

  lemma SortIncreasing(found: seq<int>)
    ensures forall i, j :: 0 <= i < j < |Sort(found, LeqInt)| ==> Sort(found, LeqInt)[i] <= Sort(found, LeqInt)[j]
  {
    SortIsSorted(found, LeqInt);
    var sorted := Sort(found, LeqInt);
    forall i, j | 0 <= i < j < |sorted| ensures sorted[i] <= sorted[j] { assert LeqInt(sorted[i], sorted[j]); }
  }

  lemma InOrderIncreasing(s: Search)
    requires s.minSize >= 1
    ensures var inOrder := s.InOrder(0, |s.series|);
            forall i, j :: 0 <= i < j < |inOrder| ==> inOrder[i] <= inOrder[j]
  {
    var n := |s.series|;
    var inOrder := s.InOrder(0, n);
    if s.Splittable(0, n) {
      InOrderSpaced(s, 0, n);
      forall i, j | 0 <= i < j < |inOrder| ensures inOrder[i] <= inOrder[j] {
        InnerOrder(0, inOrder, n, s.minSize, i, j);
      }
    }
  }

  lemma SpacedPoints(n: nat, points: seq<int>, gap: nat)
    requires gap >= 1 && Spaced(Boundaries(0, points, n), gap)
    ensures forall i, j :: 0 <= i < j < |points| ==> points[i] + gap <= points[j]
    ensures |points| <= n / gap - 1
  {
    forall i, j | 0 <= i < j < |points| ensures points[i] + gap <= points[j] {
      InnerOrder(0, points, n, gap, i, j);
    }
    SpacedDistance(Boundaries(0, points, n), gap, 0, |points| + 1);
    QuotientBound(|points| + 1, gap, n);
  }

  /**
   Whatever the energies and thresholds, the reported positions are at least
   minSize apart from each other and from both ends (so strictly increasing), and
   when there are any, there are at most n / minSize - 1 of them.
   */
  lemma PointsAreSpaced(s: Search)
    requires s.minSize >= 1 && s.Points() != []
    ensures Spaced(Boundaries(0, s.Points(), |s.series|), s.minSize)
    ensures forall i, j :: 0 <= i < j < |s.Points()| ==> s.Points()[i] + s.minSize <= s.Points()[j]
    ensures |s.Points()| <= |s.series| / s.minSize - 1
  {
    PointsAreInOrder(s);
    assert s.Splittable(0, |s.series|);
    InOrderSpaced(s, 0, |s.series|);
    hide Search.InOrder;
    hide Search.Points;
    SpacedPoints(|s.series|, s.Points(), s.minSize);
  }

  lemma AtLeastOne(k: nat, m: nat)
    requires k >= 1
    ensures k * m >= m
  {
    assert k * m == (k - 1) * m + m;
  }

  lemma QuotientBound(k: nat, m: nat, n: nat)
    requires m >= 1 && k * m <= n
    ensures k <= n / m
  {
    var q := n / m;
    assert n < (q + 1) * m;
    assert k >= q + 1 ==> k * m >= (q + 1) * m;
  }

  // ---------------------------------------------------------------- nothing missed, nothing invented

  lemma {:induction false} InOrderSettled(s: Search, start: nat, end: nat)
    requires s.IsSegment(start, end) && s.minSize >= 1
    ensures s.Settled(Boundaries(start, s.InOrder(start, end), end))
    decreases end - start
  {
    if s.Splittable(start, end) {
      var best := s.Best(start, end);
      InOrderSettled(s, start, best);
      InOrderSettled(s, best, end);
      BoundariesJoin(start, s.InOrder(start, best), best, s.InOrder(best, end), end);
      JoinSettled(s, Boundaries(start, s.InOrder(start, best), best), Boundaries(best, s.InOrder(best, end), end));
    }
  }

  lemma JoinSettled(s: Search, a: seq<int>, b: seq<int>)
    requires a != [] && b != [] && a[|a| - 1] == b[0] && s.Settled(a) && s.Settled(b)
    ensures s.Settled(a + b[1..])
  {
    var c := a + b[1..];
    forall i | 0 <= i < |c| - 1 ensures s.IsSegment(c[i], c[i + 1]) && !s.Splittable(c[i], c[i + 1]) {
      if i < |a| - 1 {
        assert c[i] == a[i] && c[i + 1] == a[i + 1];
      } else {
        assert c[i] == b[i - |a| + 1] && c[i + 1] == b[i - |a| + 2];
      }
    }
  }

  lemma MoreBoundaries(s: Search, p: int, few: seq<int>, many: seq<int>)
    requires s.Justified(p, few) && forall x :: x in few ==> x in many
    ensures s.Justified(p, many)
  {
    var a: int, b: int :| a in few && b in few && s.IsSegment(a, b) && s.Splittable(a, b) && p == s.Best(a, b);
    assert a in many && b in many;
  }

  lemma {:induction false} InOrderJustified(s: Search, start: nat, end: nat, p: int)
    requires s.IsSegment(start, end) && s.minSize >= 1 && p in s.InOrder(start, end)
    ensures s.Justified(p, Boundaries(start, s.InOrder(start, end), end))
    decreases end - start
  {
    var best := s.Best(start, end);
    var all := Boundaries(start, s.InOrder(start, end), end);
    var left, right := s.InOrder(start, best), s.InOrder(best, end);
    BoundariesJoin(start, left, best, right, end);
    if p in left {
      InOrderJustified(s, start, best, p);
      MoreBoundaries(s, p, Boundaries(start, left, best), all);
    } else if p in right {
      InOrderJustified(s, best, end, p);
      assert Boundaries(best, right, end)[0] == best;
      MoreBoundaries(s, p, Boundaries(best, right, end), all);
    } else {
      assert start in all && end in all;
    }
  }

  /**
   The result is complete and sound: between consecutive positions no admissible
   split reaches the threshold, and each position is the leftmost best split,
   reaching the threshold, of a segment between two reported positions or ends.
   */
  lemma PointsAreExact(s: Search)
    requires s.minSize >= 1
    ensures s.Settled(Boundaries(0, s.Points(), |s.series|))
    ensures forall p :: p in s.Points() ==> s.Justified(p, Boundaries(0, s.Points(), |s.series|))
  {
    PointsAreInOrder(s);
    InOrderSettled(s, 0, |s.series|);
    forall p | p in s.Points() ensures s.Justified(p, Boundaries(0, s.Points(), |s.series|)) {
      InOrderJustified(s, 0, |s.series|, p);
    }
  }

  /** In a settled segment every admissible split stays below the threshold. */
  lemma SettledMeansBelow(s: Search, start: nat, end: nat, split: nat)
    requires s.IsSegment(start, end) && !s.Splittable(start, end)
    requires start + s.minSize <= split <= end - s.minSize
    ensures s.ScoreAt(start, split, end) < s.threshold(end - start)
  {
    assert s.IsBest(start, end, s.Best(start, end));
  }

  /** A constant series has no change points, whatever its length, when the threshold is positive. */
  lemma ConstantSeriesHasNoPoints(s: Search, c: real)
    requires s.minSize >= 1 && s.score == Energy.Statistic && Energy.AllEqual(s.series, c)
    requires s.threshold(|s.series|) > 0.0
    ensures s.Points() == []
  {
    var n := |s.series|;
    PointsAreInOrder(s);
    NoSplitOfConstant(s, 0, n, c);
  }

  lemma NoSplitOfConstant(s: Search, start: nat, end: nat, c: real)
    requires s.score == Energy.Statistic && s.IsSegment(start, end) && Energy.AllEqual(s.series, c)
    requires s.threshold(end - start) > 0.0
    ensures !s.Splittable(start, end)
  {
    hide Energy.Statistic;
    if end - start >= 2 * s.minSize {
      var best := s.Best(start, end);
      hide Search.Best;
      Energy.EqualSamplesHaveNoEnergy(s.series[start..best], s.series[best..end], c);
    }
  }
}
