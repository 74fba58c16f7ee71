/**
 What the statistic of src/performance/edm.ts measures, on every branch: medians by
 counting, the effect of shifting, stretching and mirroring the samples, and its unit.
 */
module EnergyLaws {
  import opened Common
  import opened Sorting
  import opened Energy

  // ---------------------------------------------------------------- the median by counting

  // How many values lie strictly below a threshold.
  function CountBelow(s: seq<real>, t: real): nat {
    if s == [] then 0 else (if s[0] < t then 1 else 0) + CountBelow(s[1..], t)
  }

  // v is the value that k of the values come before in sorted order.
  predicate HasRank(s: seq<real>, v: real, k: nat) {
    CountBelow(s, v) <= k < CountUpTo(s, v)
  }

  lemma {:induction false} CountsByOrder(s: seq<real>, v: real, w: real)
    requires v < w
    ensures CountUpTo(s, v) <= CountBelow(s, w)
  {
    if s != [] { CountsByOrder(s[1..], v, w); }
  }

  lemma RankIsUnique(s: seq<real>, v: real, w: real, k: nat)
    requires HasRank(s, v, k) && HasRank(s, w, k)
    ensures v == w
  {
    if v < w { CountsByOrder(s, v, w); }
    if w < v { CountsByOrder(s, w, v); }
  }

  lemma {:induction false} BelowOfInsert(a: real, s: seq<real>, t: real)
    ensures CountBelow(Insert(a, s, LeqReal), t) == (if a < t then 1 else 0) + CountBelow(s, t)
  {
    if s != [] && !LeqReal(a, s[0]) {
      BelowOfInsert(a, s[1..], t);
      assert Insert(a, s, LeqReal)[1..] == Insert(a, s[1..], LeqReal);
    } else {
      assert ([a] + s)[1..] == s;
    }
  }

  lemma {:induction false} BelowOfSort(s: seq<real>, t: real)
    ensures CountBelow(Sort(s, LeqReal), t) == CountBelow(s, t)
  {
    if s != [] {
      BelowOfSort(s[1..], t);
      BelowOfInsert(s[0], Sort(s[1..], LeqReal), t);
    }
  }

  lemma {:induction false} NoneBelow(s: seq<real>, t: real)
    requires forall i :: 0 <= i < |s| ==> t <= s[i]
    ensures CountBelow(s, t) == 0
  {
    if s != [] { NoneBelow(s[1..], t); }
  }

  lemma {:induction false} BelowOfSorted(s: seq<real>, k: nat)
    requires SortedBy(s, LeqReal) && k < |s|
    ensures CountBelow(s, s[k]) <= k
  {
    if k == 0 {
      assert forall i :: 0 <= i < |s| ==> i == 0 || LeqReal(s[0], s[i]);
      NoneBelow(s, s[0]);
    } else {
      BelowOfSorted(s[1..], k - 1);
    }
  }

  lemma SortedHasRank(s: seq<real>, k: nat)
    requires k < |s|
    ensures |Sort(s, LeqReal)| == |s| && HasRank(s, Sort(s, LeqReal)[k], k)
  {
    var sorted := Sort(s, LeqReal);
    SortKeepsElements(s, LeqReal);
    SortIsSorted(s, LeqReal);
    BelowOfSorted(sorted, k);
    CountOfSorted(sorted, k, sorted[k]);
    BelowOfSort(s, sorted[k]);
    CountOfSort(s, sorted[k]);
  }

  /** The median is the mean of the values of the two middle ranks, which are one for an odd count. */
  lemma MedianByRank(s: seq<real>, low: real, high: real)
    requires s != [] && HasRank(s, low, (|s| - 1) / 2) && HasRank(s, high, |s| / 2)
    ensures Median(s) == (low + high) / 2.0
  {
    hide *;
    var sorted := Sort(s, LeqReal);
    SortedHasRank(s, (|s| - 1) / 2);
    SortedHasRank(s, |s| / 2);
    MedianOfTheMiddle(s);
    RankIsUnique(s, low, sorted[(|s| - 1) / 2], (|s| - 1) / 2);
    RankIsUnique(s, high, sorted[|s| / 2], |s| / 2);
  }

  lemma MedianOfTheMiddle(s: seq<real>)
    requires s != [] && |Sort(s, LeqReal)| == |s|
    ensures Median(s) == (Sort(s, LeqReal)[(|s| - 1) / 2] + Sort(s, LeqReal)[|s| / 2]) / 2.0
  {
    hide Sort;
    hide TotalPreorder;
    var sorted, mid := Sort(s, LeqReal), |s| / 2;
    if |s| % 2 == 0 {
      assert (|s| - 1) / 2 == mid - 1;
    } else {
      assert (|s| - 1) / 2 == mid;
      assert (sorted[mid] + sorted[mid]) / 2.0 == sorted[mid];
    }
  }

  lemma MiddleRanks(s: seq<real>) returns (low: real, high: real)
    requires s != []
    ensures HasRank(s, low, (|s| - 1) / 2) && HasRank(s, high, |s| / 2)
  {
    SortedHasRank(s, (|s| - 1) / 2);
    SortedHasRank(s, |s| / 2);
    low, high := Sort(s, LeqReal)[(|s| - 1) / 2], Sort(s, LeqReal)[|s| / 2];
  }

  // ---------------------------------------------------------------- shifted, stretched and mirrored samples

  // v stretched by k (mirrored for a negative k) and shifted by c.
  function At(v: real, k: real, c: real): real {
    Times(k, v) + c
  }

  function Image(s: seq<real>, k: real, c: real): (r: seq<real>)
    ensures |r| == |s|
    ensures forall i :: 0 <= i < |s| ==> r[i] == At(s[i], k, c)
  {
    if s == [] then [] else [At(s[0], k, c)] + Image(s[1..], k, c)
  }

  lemma AtKeepsOrder(v: real, w: real, k: real, c: real)
    ensures k > 0.0 ==> (At(v, k, c) < At(w, k, c) <==> v < w)
    ensures k < 0.0 ==> (At(v, k, c) < At(w, k, c) <==> w < v)
  {
    var d := v - w;
    assert At(v, k, c) - At(w, k, c) == Times(k, d);
    if k > 0.0 && d > 0.0 { ProductPositive(k, d); }
    if k > 0.0 && d < 0.0 { ProductPositive(k, -d); assert Times(k, -d) == -Times(k, d); }
    if k < 0.0 && d > 0.0 { ProductPositive(-k, d); assert Times(-k, d) == -Times(k, d); }
    if k < 0.0 && d < 0.0 { ProductPositive(-k, -d); assert Times(-k, -d) == Times(k, d); }
  }

  lemma {:induction false} CountsOfImage(s: seq<real>, v: real, k: real, c: real)
    requires k != 0.0
    ensures k > 0.0 ==> CountBelow(Image(s, k, c), At(v, k, c)) == CountBelow(s, v)
    ensures k > 0.0 ==> CountUpTo(Image(s, k, c), At(v, k, c)) == CountUpTo(s, v)
    ensures k < 0.0 ==> CountBelow(Image(s, k, c), At(v, k, c)) == |s| - CountUpTo(s, v)
    ensures k < 0.0 ==> CountUpTo(Image(s, k, c), At(v, k, c)) == |s| - CountBelow(s, v)
  {
    hide At;
    if s != [] {
      CountsOfImage(s[1..], v, k, c);
      AtKeepsOrder(s[0], v, k, c);
      AtKeepsOrder(v, s[0], k, c);
      assert Image(s, k, c)[1..] == Image(s[1..], k, c);
    }
  }

  lemma RankOfImage(s: seq<real>, v: real, r: nat, k: real, c: real)
    requires k != 0.0 && r < |s| && HasRank(s, v, r)
    ensures HasRank(Image(s, k, c), At(v, k, c), if k > 0.0 then r else |s| - 1 - r)
  {
    CountsOfImage(s, v, k, c);
  }

  lemma MedianOfImage(s: seq<real>, k: real, c: real)
    requires s != []
    ensures Median(Image(s, k, c)) == At(Median(s), k, c)
  {
    hide Median;
    if k == 0.0 {
      assert forall i :: 0 <= i < |s| ==> At(s[i], k, c) == c;
      MedianOfEqual(Image(s, k, c), c);
    } else {
      hide At;
      hide HasRank;
      var low, high := MiddleRanks(s);
      MedianByRank(s, low, high);
      RankOfImage(s, low, (|s| - 1) / 2, k, c);
      RankOfImage(s, high, |s| / 2, k, c);
      assert |s| - 1 - (|s| - 1) / 2 == |s| / 2 && |s| - 1 - |s| / 2 == (|s| - 1) / 2;
      if k > 0.0 {
        MedianByRank(Image(s, k, c), At(low, k, c), At(high, k, c));
      } else {
        MedianByRank(Image(s, k, c), At(high, k, c), At(low, k, c));
      }
      Midpoint(low, high, k, c);
    }
  }

  lemma Midpoint(v: real, w: real, k: real, c: real)
    ensures (At(v, k, c) + At(w, k, c)) / 2.0 == At((v + w) / 2.0, k, c)
  {
  }

  lemma DistanceOfImage(v: real, w: real, k: real, c: real)
    ensures Abs(At(v, k, c) - At(w, k, c)) == Times(Abs(k), Abs(v - w))
  {
    AtKeepsOrder(v, w, k, c);
    AtKeepsOrder(w, v, k, c);
    assert At(v, k, c) - At(w, k, c) == Times(k, v - w);
  }

  lemma ImageFront(s: seq<real>, k: real, c: real)
    requires s != []
    ensures Image(s, k, c)[..|s| - 1] == Image(s[..|s| - 1], k, c)
    ensures Image(s, k, c)[|s| - 1] == At(s[|s| - 1], k, c)
  {
    hide At;
  }

  lemma DistancesLast(a: real, y: seq<real>)
    requires y != []
    ensures Distances(a, y) == Distances(a, y[..|y| - 1]) + Abs(a - y[|y| - 1])
  {
    hide Abs;
  }

  lemma CrossLast(x: seq<real>, y: seq<real>)
    requires x != []
    ensures Cross(x, y) == Cross(x[..|x| - 1], y) + Distances(x[|x| - 1], y)
  {
    hide Distances;
  }

  lemma {:induction false} DistancesOfImage(a: real, y: seq<real>, k: real, c: real)
    ensures Distances(At(a, k, c), Image(y, k, c)) == Times(Abs(k), Distances(a, y))
  {
    if y == [] {
      TimesRight(Abs(k), 0.0, 0.0);
    } else {
      hide *;
      var n := |y| - 1;
      DistancesOfImage(a, y[..n], k, c);
      DistanceOfImage(a, y[n], k, c);
      ImageFront(y, k, c);
      DistancesLast(a, y);
      DistancesLast(At(a, k, c), Image(y, k, c));
      TimesRight(Abs(k), Distances(a, y[..n]), Abs(a - y[n]));
    }
  }

  lemma {:induction false} CrossOfImage(x: seq<real>, y: seq<real>, k: real, c: real)
    ensures Cross(Image(x, k, c), Image(y, k, c)) == Times(Abs(k), Cross(x, y))
  {
    hide Distances;
    hide At;
    hide Abs;
    if x == [] {
      TimesRight(Abs(k), 0.0, 0.0);
    } else {
      hide *;
      var n := |x| - 1;
      CrossOfImage(x[..n], y, k, c);
      DistancesOfImage(x[n], y, k, c);
      ImageFront(x, k, c);
      CrossLast(x, y);
      CrossLast(Image(x, k, c), Image(y, k, c));
      TimesRight(Abs(k), Cross(x[..n], y), Distances(x[n], y));
    }
  }

  lemma {:induction false} WithinOfImage(x: seq<real>, k: real, c: real)
    ensures Within(Image(x, k, c)) == Times(Abs(k), Within(x))
  {
    hide At;
    hide Times;
    hide Abs;
    hide Distances;
    if x == [] {
      TimesRight(Abs(k), 0.0, 0.0);
    } else {
      WithinOfImage(x[1..], k, c);
      DistancesOfImage(x[0], x[1..], k, c);
      assert Image(x, k, c)[1..] == Image(x[1..], k, c);
      TimesRight(Abs(k), Distances(x[0], x[1..]), Within(x[1..]));
    }
  }

  lemma ScaledQuotient(k: real, a: real, b: real)
    requires b != 0.0
    ensures Times(k, a) / b == Times(k, a / b)
  {
    assert Times(k, a / b) * b == Times(k, a) by {
      assert (a / b) * b == a;
      TimesAssociative(k, a / b, b);
    }
  }

  lemma AtOrigin(v: real, k: real)
    ensures At(v, k, 0.0) == Times(k, v)
  {
  }

  lemma DeviationsOfImage(s: seq<real>, centre: real, k: real, c: real)
    ensures Deviations(Image(s, k, c), At(centre, k, c)) == Image(Deviations(s, centre), Abs(k), 0.0)
  {
    var left, right := Deviations(Image(s, k, c), At(centre, k, c)), Image(Deviations(s, centre), Abs(k), 0.0);
    hide At;
    hide Abs;
    hide Times;
    hide Image;
    forall i | 0 <= i < |s| ensures left[i] == right[i] {
      DistanceOfImage(s[i], centre, k, c);
      AtOrigin(Abs(s[i] - centre), Abs(k));
    }
  }

  lemma DispersionOfImage(s: seq<real>, k: real, c: real)
    ensures WithinDispersion(Image(s, k, c)) == Times(Abs(k), WithinDispersion(s))
  {
    hide Within;
    hide Median;
    hide Deviations;
    hide Image;
    if |s| <= 1 {
      TimesRight(Abs(k), 0.0, 0.0);
    } else if |s| <= 200 {
      SmallDispersionOfImage(s, k, c);
    } else {
      hide *;
      LargeDispersionOfImage(s, k, c);
    }
  }

  lemma SmallDispersionOfImage(s: seq<real>, k: real, c: real)
    requires 1 <= |s| <= 200
    ensures WithinDispersion(Image(s, k, c)) == Times(Abs(k), WithinDispersion(s))
  {
    hide *;
    SmallDispersion(s);
    SmallDispersion(Image(s, k, c));
    WithinOfImage(s, k, c);
    SpreadOfScaled(Abs(k), Within(s), |s|);
  }

  // A sum over n times m pairs, divided by their number.
  function PairMean(sum: real, n: nat, m: nat): real
    requires n > 0 && m > 0
  {
    assert n as real * m as real != 0.0 by { NonZero(n as real, m as real); }
    sum / (n as real * m as real)
  }

  lemma SmallDispersion(s: seq<real>)
    requires 1 <= |s| <= 200
    ensures WithinDispersion(s) == PairMean(2.0 * Within(s), |s|, |s|)
  {
    SmallWithin(s);
    hide WithinDispersion;
    hide Within;
  }

  lemma LargeDispersionOfImage(s: seq<real>, k: real, c: real)
    requires |s| > 200
    ensures WithinDispersion(Image(s, k, c)) == Times(Abs(k), WithinDispersion(s))
  {
    hide *;
    LargeDispersion(s);
    LargeDispersion(Image(s, k, c));
    MedianOfImage(s, k, c);
    DeviationsOfImage(s, Median(s), k, c);
    MedianOfImage(Deviations(s, Median(s)), Abs(k), 0.0);
    AtOrigin(WithinDispersion(s), Abs(k));
  }

  lemma SpreadOfScaled(k: real, w: real, n: nat)
    requires n > 0
    ensures PairMean(2.0 * Times(k, w), n, n) == Times(k, PairMean(2.0 * w, n, n))
  {
    var b := n as real * n as real;
    assert b != 0.0 by { NonZero(n as real, n as real); }
    assert 2.0 * Times(k, w) == Times(k, 2.0 * w);
    ScaledQuotient(k, 2.0 * w, b);
  }

  lemma CrossDistanceOfImage(x: seq<real>, y: seq<real>, k: real, c: real)
    requires x != [] && y != []
    ensures CrossDistance(Image(x, k, c), Image(y, k, c)) == Times(Abs(k), CrossDistance(x, y))
  {
    hide Cross;
    hide Median;
    hide Image;
    if |x| * |y| <= 10_000 {
      CrossOfImage(x, y, k, c);
      assert |x| as real * |y| as real != 0.0 by { NonZero(|x| as real, |y| as real); }
      ScaledQuotient(Abs(k), Cross(x, y), |x| as real * |y| as real);
    } else {
      MedianOfImage(x, k, c);
      MedianOfImage(y, k, c);
      DistanceOfImage(Median(x), Median(y), k, c);
    }
  }

  /**
   Shifting both samples changes nothing, stretching or mirroring them multiplies the
   statistic by the factor's size: on every branch.
   */
  lemma StatisticOfImage(x: seq<real>, y: seq<real>, k: real, c: real)
    ensures Statistic(Image(x, k, c), Image(y, k, c)) == Times(Abs(k), Statistic(x, y))
  {
    hide CrossDistance;
    hide WithinDispersion;
    hide Image;
    if x == [] || y == [] {
      assert Times(Abs(k), 0.0) == 0.0;
    } else {
      CrossDistanceOfImage(x, y, k, c);
      DispersionOfImage(x, k, c);
      DispersionOfImage(y, k, c);
      DifferenceOfScaled(Abs(k), CrossDistance(x, y), WithinDispersion(x), WithinDispersion(y));
    }
  }

  lemma DifferenceOfScaled(k: real, a: real, b: real, c: real)
    ensures 2.0 * Times(k, a) - Times(k, b) - Times(k, c) == Times(k, 2.0 * a - b - c)
  {
  }

  // ---------------------------------------------------------------- the unit

  lemma {:induction false} DistancesToEqual(a: real, y: seq<real>, b: real)
    requires AllEqual(y, b)
    ensures Distances(a, y) == Times(Abs(a - b), |y| as real)
  {
    hide Times;
    hide Abs;
    if y == [] {
      TimesRight(Abs(a - b), 0.0, 0.0);
    } else {
      DistancesToEqual(a, y[..|y| - 1], b);
      TimesOneMore(Abs(a - b), |y| - 1);
    }
  }

  lemma {:induction false} CrossOfConstants(x: seq<real>, y: seq<real>, a: real, b: real)
    requires AllEqual(x, a) && AllEqual(y, b)
    ensures Cross(x, y) == Times(Times(Abs(a - b), |y| as real), |x| as real)
  {
    hide Times;
    hide Abs;
    hide Distances;
    if x == [] {
      TimesRight(Times(Abs(a - b), |y| as real), 0.0, 0.0);
    } else {
      CrossOfConstants(x[..|x| - 1], y, a, b);
      DistancesToEqual(a, y, b);
      TimesOneMore(Times(Abs(a - b), |y| as real), |x| - 1);
    }
  }

  /** Two samples of one value each have twice the distance of the values, on every branch. */
  lemma ConstantSamples(x: seq<real>, y: seq<real>, a: real, b: real)
    requires x != [] && y != [] && AllEqual(x, a) && AllEqual(y, b)
    ensures Statistic(x, y) == 2.0 * Abs(a - b)
  {
    hide *;
    CrossOfConstants(x, y, a, b);
    MedianOfEqual(x, a);
    MedianOfEqual(y, b);
    DispersionOfEqual(x, a);
    DispersionOfEqual(y, b);
    QuotientOfProducts(Abs(a - b), |y|, |x|);
    FromItsParts(x, y, Abs(a - b));
  }

  lemma FromItsParts(x: seq<real>, y: seq<real>, d: real)
    requires x != [] && y != [] && WithinDispersion(x) == WithinDispersion(y) == 0.0
    requires PairMean(Cross(x, y), |x|, |y|) == d == Abs(Median(x) - Median(y))
    ensures Statistic(x, y) == 2.0 * d
  {
    hide Cross;
    hide Median;
    hide WithinDispersion;
  }

  lemma QuotientOfProducts(d: real, m: nat, n: nat)
    requires m > 0 && n > 0
    ensures PairMean(Times(Times(d, m as real), n as real), n, m) == d
  {
    var b := n as real * m as real;
    assert b != 0.0 by { NonZero(n as real, m as real); }
    TimesAssociative(d, m as real, n as real);
    assert Times(Times(d, m as real), n as real) == d * b;
  }
}
