/**
 Model of the energy statistic in src/performance/edm.ts, in exact arithmetic.

 On its exact branch the statistic is a weighted sum of squares of the distance
 between the two empirical distribution functions: it is never negative, and zero
 exactly when the samples have the same distribution.
 */
module Energy {
  import opened Common
  import opened Sorting

  function Abs(r: real): real {
    if r < 0.0 then -r else r
  }

  // ---------------------------------------------------------------- what the code computes

  predicate LeqReal(a: real, b: real) { a <= b }

  function Median(s: seq<real>): real
    requires s != []
  {
    var sorted := Sort(s, LeqReal);
    SortKeepsElements(s, LeqReal);
    var mid := |sorted| / 2;
    if |sorted| % 2 == 0 then (sorted[mid - 1] + sorted[mid]) / 2.0 else sorted[mid]
  }

  // Sum of the distances from a point to a sample.
  function Distances(a: real, y: seq<real>): real {
    if y == [] then 0.0 else Distances(a, y[..|y| - 1]) + Abs(a - y[|y| - 1])
  }

  // Sum of the distances over all pairs of the two samples.
  function Cross(x: seq<real>, y: seq<real>): real {
    if x == [] then 0.0 else Cross(x[..|x| - 1], y) + Distances(x[|x| - 1], y)
  }

  // Sum of the distances over the unordered pairs of one sample.
  function Within(x: seq<real>): real {
    if x == [] then 0.0 else Distances(x[0], x[1..]) + Within(x[1..])
  }

  function Deviations(s: seq<real>, centre: real): (r: seq<real>)
    ensures |r| == |s|
  {
    seq(|s|, i requires 0 <= i < |s| => Abs(s[i] - centre))
  }

  function WithinDispersion(s: seq<real>): real {
    if |s| <= 1 then 0.0
    else if |s| <= 200 then 2.0 * Within(s) / (|s| as real * |s| as real)
    else Median(Deviations(s, Median(s)))
  }

  function CrossDistance(x: seq<real>, y: seq<real>): real
    requires x != [] && y != []
  {
    if |x| * |y| <= 10_000 then Cross(x, y) / (|x| as real * |y| as real) else Abs(Median(x) - Median(y))
  }

  function Statistic(x: seq<real>, y: seq<real>): real {
    if x == [] || y == [] then 0.0
    else 2.0 * CrossDistance(x, y) - WithinDispersion(x) - WithinDispersion(y)
  }

  // The mean distance over all pairs of one sample.
  function Spread(s: seq<real>): real
    requires s != []
  {
    2.0 * Within(s) / (|s| as real * |s| as real)
  }

  // The energy distance by all pairs: what the statistic is without its median shortcuts.
  function PairwiseEnergy(x: seq<real>, y: seq<real>): real
    requires x != [] && y != []
  {
    2.0 * (Cross(x, y) / (|x| as real * |y| as real)) - Spread(x) - Spread(y)
  }

  // Both sums are computed exactly, with no median approximation.
  predicate Exact(x: seq<real>, y: seq<real>) {
    x != [] && y != [] && |x| * |y| <= 10_000 && |x| <= 200 && |y| <= 200
  }

  lemma DistancesOneMore(a: real, s: seq<real>, i: nat, j: nat)
    requires i <= j < |s|
    ensures Distances(a, s[i..j + 1]) == Distances(a, s[i..j]) + Abs(a - s[j])
  {
    assert s[i..j + 1][..j - i] == s[i..j];
  }

  lemma WithinOneLess(s: seq<real>, i: nat)
    requires i < |s|
    ensures Within(s[i..]) == Distances(s[i], s[i + 1..|s|]) + Within(s[i + 1..])
  {
    assert s[i..][1..] == s[i + 1..] == s[i + 1..|s|];
  }

  method WithinDispersionLoop(s: seq<real>) returns (d: real)
    ensures d == WithinDispersion(s)
  {
    if |s| <= 1 {
      return 0.0;
    }
    if |s| <= 200 {
      var sum := PairwiseSum(s);
      return 2.0 * sum / (|s| as real * |s| as real);
    }
    var med := Median(s);
    return Median(Deviations(s, med));
  }

  // The nested loops over the unordered pairs.
  method PairwiseSum(s: seq<real>) returns (sum: real)
    ensures sum == Within(s)
  {
    sum := 0.0;
    assert s[0..] == s && s[|s|..] == [] && Within([]) == 0.0;
    hide Within;
    for i := 0 to |s|
      invariant sum + Within(s[i..]) == Within(s)
    {
      ghost var before := sum;
      assert s[i + 1..i + 1] == [] && Distances(s[i], []) == 0.0;
      WithinOneLess(s, i);
      for j := i + 1 to |s|
        invariant sum == before + Distances(s[i], s[i + 1..j])
      {
        DistancesOneMore(s[i], s, i + 1, j);
        sum := sum + Abs(s[i] - s[j]);
      }
    }
  }

  method CrossLoop(x: seq<real>, y: seq<real>) returns (sum: real)
    ensures sum == Cross(x, y)
  {
    sum := 0.0;
    for i := 0 to |x|
      invariant sum == Cross(x[..i], y)
    {
      ghost var before := sum;
      for j := 0 to |y|
        invariant sum == before + Distances(x[i], y[..j])
      {
        assert y[..j + 1][..j] == y[..j];
        sum := sum + Abs(x[i] - y[j]);
      }
      assert y[..|y|] == y && x[..i + 1][..i] == x[..i];
    }
    assert x[..|x|] == x;
  }

  method EnergyStatistic(x: seq<real>, y: seq<real>) returns (e: real)
    ensures e == Statistic(x, y)
  {
    if |x| == 0 || |y| == 0 {
      return 0.0;
    }
    var crossDist: real;
    if |x| * |y| <= 10_000 {
      var sum := CrossLoop(x, y);
      crossDist := sum / (|x| as real * |y| as real);
    } else {
      crossDist := Abs(Median(x) - Median(y));
    }
    var dispX := WithinDispersionLoop(x);
    var dispY := WithinDispersionLoop(y);
    return 2.0 * crossDist - dispX - dispY;
  }

  // ---------------------------------------------------------------- products

  // A product that the proofs below hide and use through these laws only.
  function Times(a: real, b: real): real {
    a * b
  }

  lemma TimesLeft(a: real, b: real, c: real)
    ensures Times(a + b, c) == Times(a, c) + Times(b, c)
  {
  }

  lemma TimesRight(a: real, b: real, c: real)
    ensures Times(a, b + c) == Times(a, b) + Times(a, c)
  {
  }

  lemma TimesAssociative(a: real, b: real, c: real)
    ensures Times(a, Times(b, c)) == Times(Times(a, b), c)
    ensures Times(a, Times(b, c)) == Times(b, Times(a, c))
  {
  }

  lemma ProductPositive(a: real, b: real)
    requires a > 0.0 && b > 0.0
    ensures Times(a, b) > 0.0
  {
  }

  lemma SquareIsPositive(a: real)
    requires a != 0.0
    ensures Times(a, a) > 0.0
  {
    if a > 0.0 {
      ProductPositive(a, a);
    } else {
      ProductPositive(-a, -a);
      assert Times(-a, -a) == Times(a, a);
    }
  }

  lemma SquareTimes(w: real, d: real)
    requires d >= 0.0
    ensures Times(Times(w, w), d) >= 0.0
    ensures Times(Times(w, w), d) == 0.0 <==> w == 0.0 || d == 0.0
  {
    if w == 0.0 {
      assert w * w == 0.0;
    } else if d > 0.0 {
      SquareIsPositive(w);
      ProductPositive(Times(w, w), d);
    }
  }

  // ---------------------------------------------------------------- weighted points

  // The points of x weigh |y| each, the points of y weigh -|x|: the total is zero.
  datatype Atom = Atom(pos: real, weight: real)

  predicate LeqAtom(a: Atom, b: Atom) { a.pos <= b.pos }

  function Atoms(s: seq<real>, weight: real): seq<Atom> {
    if s == [] then [] else [Atom(s[0], weight)] + Atoms(s[1..], weight)
  }

  function Total(l: seq<Atom>): real {
    if l == [] then 0.0 else l[0].weight + Total(l[1..])
  }

  // Weighted sum of the distances from a point.
  function Pull(p: real, l: seq<Atom>): real {
    if l == [] then 0.0 else Times(l[0].weight, Abs(p - l[0].pos)) + Pull(p, l[1..])
  }

  // Weighted sum of the distances over all unordered pairs.
  function Potential(l: seq<Atom>): real {
    if l == [] then 0.0 else Times(l[0].weight, Pull(l[0].pos, l[1..])) + Potential(l[1..])
  }

  // Weight at or below a threshold.
  function WeightUpTo(l: seq<Atom>, t: real): real {
    if l == [] then 0.0 else (if l[0].pos <= t then l[0].weight else 0.0) + WeightUpTo(l[1..], t)
  }

  function Merge(a: Atom, b: Atom): Atom {
    Atom(b.pos, a.weight + b.weight)
  }

  // For sorted points: the squared weight to the left of each gap, times the gap.
  function Gaps(l: seq<Atom>): real
    decreases |l|
  {
    if |l| <= 1 then 0.0
    else Times(Times(l[0].weight, l[0].weight), l[1].pos - l[0].pos) + Gaps([Merge(l[0], l[1])] + l[2..])
  }

  ghost predicate Ascending(l: seq<Atom>) {
    SortedBy(l, LeqAtom)
  }

  // --- the order of the points does not matter

  lemma {:induction false} PullInsert(p: real, a: Atom, l: seq<Atom>)
    ensures Pull(p, Insert(a, l, LeqAtom)) == Times(a.weight, Abs(p - a.pos)) + Pull(p, l)
  {
    hide Times;
    hide Abs;
    hide Pull;
    if l != [] && !LeqAtom(a, l[0]) {
      PullInsert(p, a, l[1..]);
      PullOfCons(p, l[0], Insert(a, l[1..], LeqAtom));
      PullOfCons(p, l[0], l[1..]);
      assert l == [l[0]] + l[1..];
    } else {
      PullOfCons(p, a, l);
      assert l == [] ==> [a] + l == [a];
    }
  }

  lemma PullOfCons(p: real, a: Atom, l: seq<Atom>)
    ensures Pull(p, [a] + l) == Times(a.weight, Abs(p - a.pos)) + Pull(p, l)
  {
    hide Times;
    assert ([a] + l)[1..] == l;
  }

  lemma {:induction false} TotalInsert(a: Atom, l: seq<Atom>)
    ensures Total(Insert(a, l, LeqAtom)) == a.weight + Total(l)
  {
    if l != [] && !LeqAtom(a, l[0]) {
      TotalInsert(a, l[1..]);
      assert Insert(a, l, LeqAtom)[1..] == Insert(a, l[1..], LeqAtom);
    } else {
      assert ([a] + l)[1..] == l;
    }
  }

  lemma {:induction false} PotentialInsert(a: Atom, l: seq<Atom>)
    ensures Potential(Insert(a, l, LeqAtom)) == Times(a.weight, Pull(a.pos, l)) + Potential(l)
  {
    hide Times;
    hide Abs;
    hide Pull;
    hide Potential;
    if l != [] && !LeqAtom(a, l[0]) {
      PotentialInsert(a, l[1..]);
      PullInsert(l[0].pos, a, l[1..]);
      var h, d := l[0], Abs(l[0].pos - a.pos);
      assert l == [h] + l[1..];
      PotentialOfCons(h, Insert(a, l[1..], LeqAtom));
      PotentialOfCons(h, l[1..]);
      PullOfCons(a.pos, h, l[1..]);
      AbsSymmetric(a.pos, h.pos);
      ExchangeProducts(a.weight, h.weight, d, Pull(h.pos, l[1..]), Pull(a.pos, l[1..]));
    } else {
      PotentialOfCons(a, l);
      assert l == [] ==> [a] + l == [a];
    }
  }

  lemma AbsSymmetric(a: real, b: real)
    ensures Abs(a - b) == Abs(b - a)
  {
  }

  lemma ExchangeProducts(a: real, h: real, d: real, ph: real, pa: real)
    ensures Times(h, Times(a, d) + ph) + Times(a, pa) == Times(a, Times(h, d) + pa) + Times(h, ph)
  {
    hide Times;
    TimesRight(h, Times(a, d), ph);
    TimesAssociative(h, a, d);
    TimesRight(a, Times(h, d), pa);
  }

  lemma {:induction false} WeightInsert(a: Atom, l: seq<Atom>, t: real)
    ensures WeightUpTo(Insert(a, l, LeqAtom), t) == (if a.pos <= t then a.weight else 0.0) + WeightUpTo(l, t)
  {
    if l != [] && !LeqAtom(a, l[0]) {
      WeightInsert(a, l[1..], t);
      assert Insert(a, l, LeqAtom)[1..] == Insert(a, l[1..], LeqAtom);
    } else {
      assert ([a] + l)[1..] == l;
    }
  }

  lemma {:induction false} SortKeepsPull(l: seq<Atom>, p: real)
    ensures Pull(p, Sort(l, LeqAtom)) == Pull(p, l)
  {
    hide Times;
    hide Abs;
    hide Pull;
    if l != [] {
      SortKeepsPull(l[1..], p);
      PullInsert(p, l[0], Sort(l[1..], LeqAtom));
      PullOfCons(p, l[0], l[1..]);
      assert l == [l[0]] + l[1..];
    }
  }

  lemma {:induction false} SortKeepsTotal(l: seq<Atom>)
    ensures Total(Sort(l, LeqAtom)) == Total(l)
  {
    if l != [] {
      SortKeepsTotal(l[1..]);
      TotalInsert(l[0], Sort(l[1..], LeqAtom));
    }
  }

  lemma {:induction false} SortKeepsPotential(l: seq<Atom>)
    ensures Potential(Sort(l, LeqAtom)) == Potential(l)
  {
    hide Times;
    hide Pull;
    hide Potential;
    if l != [] {
      SortKeepsPotential(l[1..]);
      PotentialInsert(l[0], Sort(l[1..], LeqAtom));
      SortKeepsPull(l[1..], l[0].pos);
      PotentialOfCons(l[0], l[1..]);
      assert l == [l[0]] + l[1..];
    }
  }

  lemma {:induction false} SortKeepsWeight(l: seq<Atom>, t: real)
    ensures WeightUpTo(Sort(l, LeqAtom), t) == WeightUpTo(l, t)
  {
    if l != [] {
      SortKeepsWeight(l[1..], t);
      WeightInsert(l[0], Sort(l[1..], LeqAtom), t);
    }
  }

  // --- sweeping the points from the left

  // Moving the observer left of all points by d changes the pull by d times their weight.
  lemma {:induction false} PullFromLeft(p: real, q: real, l: seq<Atom>)
    requires p <= q && forall i :: 0 <= i < |l| ==> q <= l[i].pos
    ensures Pull(p, l) - Pull(q, l) == Times(Total(l), q - p)
  {
    hide Times;
    if l != [] {
      PullFromLeft(p, q, l[1..]);
      var h := l[0];
      assert Abs(p - h.pos) == Abs(q - h.pos) + (q - p);
      TimesRight(h.weight, Abs(q - h.pos), q - p);
      TimesLeft(h.weight, Total(l[1..]), q - p);
    } else {
      TimesLeft(0.0, 0.0, q - p);
    }
  }

  lemma MergeKeepsAscending(l: seq<Atom>)
    requires |l| >= 2 && Ascending(l)
    ensures Ascending([Merge(l[0], l[1])] + l[2..]) && l[0].pos <= l[1].pos
    ensures forall i :: 0 <= i < |l[2..]| ==> l[1].pos <= l[2..][i].pos
  {
    var merged := [Merge(l[0], l[1])] + l[2..];
    forall i, j | 0 <= i < j < |merged| ensures LeqAtom(merged[i], merged[j]) { assert LeqAtom(l[i + 1], l[j + 1]); }
    forall i | 0 <= i < |l[2..]| ensures l[1].pos <= l[2..][i].pos { assert LeqAtom(l[1], l[i + 2]); }
    assert LeqAtom(l[0], l[1]);
  }

  lemma MergeStep(l: seq<Atom>)
    requires |l| >= 2 && Ascending(l) && Total(l) == 0.0
    ensures var merged := [Merge(l[0], l[1])] + l[2..];
            && Ascending(merged) && Total(merged) == 0.0
            && Potential(l) == Potential(merged) - Times(Times(l[0].weight, l[0].weight), l[1].pos - l[0].pos)
  {
    hide Times;
    var a, b, rest := l[0], l[1], l[2..];
    var merged := [Merge(a, b)] + rest;
    assert l[1..][1..] == rest && merged[1..] == rest;
    MergeKeepsAscending(l);
    PullFromLeft(a.pos, b.pos, rest);
    var d := b.pos - a.pos;
    var pa, pb, w := Pull(a.pos, rest), Pull(b.pos, rest), Total(rest);
    assert Pull(a.pos, l[1..]) == Times(b.weight, d) + pa;
    assert w == -a.weight - b.weight;
    MergeAlgebra(a.weight, b.weight, d, pa, pb, w);
  }

  lemma MergeAlgebra(a: real, b: real, d: real, pa: real, pb: real, w: real)
    requires pa - pb == Times(w, d) && w == -a - b
    ensures Times(a, Times(b, d) + pa) + Times(b, pb) == Times(a + b, pb) - Times(Times(a, a), d)
  {
    assert pa == pb + w * d;
    assert a * (b * d + pa) == a * (b * d) + a * pb + a * (w * d);
    assert a * (w * d) == -(a * a * d) - a * (b * d);
  }

  /** For weights that cancel, the potential is minus a sum of squares. */
  lemma {:induction false} PotentialIsMinusGaps(l: seq<Atom>)
    requires Ascending(l) && Total(l) == 0.0
    ensures Potential(l) == -Gaps(l)
    decreases |l|
  {
    hide Times;
    if |l| >= 2 {
      MergeStep(l);
      PotentialIsMinusGaps([Merge(l[0], l[1])] + l[2..]);
    } else if |l| == 1 {
      assert Pull(l[0].pos, l[1..]) == 0.0 && Potential(l[1..]) == 0.0;
      TimesRight(l[0].weight, 0.0, 0.0);
    }
  }

  lemma {:induction false} GapsNonNegative(l: seq<Atom>)
    requires Ascending(l)
    ensures Gaps(l) >= 0.0
    decreases |l|
  {
    hide Times;
    if |l| >= 2 {
      MergeKeepsAscending(l);
      SquareTimes(l[0].weight, l[1].pos - l[0].pos);
      GapsNonNegative([Merge(l[0], l[1])] + l[2..]);
    }
  }

  lemma {:induction false} NothingBelow(l: seq<Atom>, t: real)
    requires forall i :: 0 <= i < |l| ==> t < l[i].pos
    ensures WeightUpTo(l, t) == 0.0
  {
    if l != [] {
      NothingBelow(l[1..], t);
    }
  }

  // Below the second point only the first weighs; from there on merging changes nothing.
  lemma WeightOfMerged(l: seq<Atom>, t: real)
    requires |l| >= 2 && Ascending(l)
    ensures var merged := [Merge(l[0], l[1])] + l[2..];
            WeightUpTo(l, t) == if l[1].pos <= t then WeightUpTo(merged, t) else if l[0].pos <= t then l[0].weight else 0.0
    ensures t < l[1].pos ==> WeightUpTo([Merge(l[0], l[1])] + l[2..], t) == 0.0
  {
    var merged := [Merge(l[0], l[1])] + l[2..];
    assert merged[1..] == l[2..] && l[1..][1..] == l[2..];
    MergeKeepsAscending(l);
    if t < l[1].pos {
      NothingBelow(l[2..], t);
    }
  }

  // The weights cancel below every threshold.
  ghost predicate Weightless(l: seq<Atom>) {
    forall t :: WeightUpTo(l, t) == 0.0
  }

  /** The sum of squares vanishes exactly when the weight below every threshold does. */
  lemma {:induction false} GapsVanishIff(l: seq<Atom>)
    requires Ascending(l) && Total(l) == 0.0
    ensures Gaps(l) == 0.0 <==> Weightless(l)
    decreases |l|
  {
    hide Times;
    if |l| >= 2 {
      var merged := [Merge(l[0], l[1])] + l[2..];
      MergeStep(l);
      GapsVanishIff(merged);
      GapsNonNegative(merged);
      MergeKeepsAscending(l);
      SquareTimes(l[0].weight, l[1].pos - l[0].pos);
      forall t ensures WeightUpTo(l, t) == (if l[1].pos <= t then WeightUpTo(merged, t) else if l[0].pos <= t then l[0].weight else 0.0)
                       && (t < l[1].pos ==> WeightUpTo(merged, t) == 0.0)
      {
        WeightOfMerged(l, t);
      }
      if Weightless(l) {
        forall t ensures WeightUpTo(merged, t) == 0.0 { assert WeightUpTo(l, t) == 0.0; }
        assert WeightUpTo(l, l[0].pos) == 0.0;
        assert l[0].pos < l[1].pos ==> l[0].weight == 0.0;
        assert l[1].pos - l[0].pos == 0.0 || l[0].weight == 0.0;
      }
      if Gaps(l) == 0.0 {
        assert Gaps(merged) == 0.0;
        forall t ensures WeightUpTo(l, t) == 0.0 { assert WeightUpTo(merged, t) == 0.0; }
      }
    } else {
      assert |l| == 1 ==> l[1..] == [] && l[0].weight == 0.0;
      assert Gaps(l) == 0.0;
      forall t ensures WeightUpTo(l, t) == 0.0 { assert |l| == 1 ==> l[1..] == []; }
    }
  }

  // ---------------------------------------------------------------- from the samples to the weights

  // Number of sample points at or below a threshold.
  function CountUpTo(s: seq<real>, t: real): nat {
    if s == [] then 0 else (if s[0] <= t then 1 else 0) + CountUpTo(s[1..], t)
  }

  /** The same empirical distribution function, cross-multiplied. */
  ghost predicate SameDistribution(x: seq<real>, y: seq<real>) {
    forall t :: |y| * CountUpTo(x, t) == |x| * CountUpTo(y, t)
  }

  lemma {:induction false} DistancesFromFront(a: real, y: seq<real>)
    requires y != []
    ensures Distances(a, y) == Abs(a - y[0]) + Distances(a, y[1..])
  {
    if |y| == 1 {
      assert y[..0] == [] && y[1..] == [];
    } else {
      DistancesFromFront(a, y[..|y| - 1]);
      assert y[..|y| - 1][1..] == y[1..][..|y| - 2];
    }
  }

  lemma {:induction false} CrossFromFront(x: seq<real>, y: seq<real>)
    requires x != []
    ensures Cross(x, y) == Distances(x[0], y) + Cross(x[1..], y)
  {
    if |x| == 1 {
      assert x[..0] == [] && x[1..] == [];
    } else {
      CrossFromFront(x[..|x| - 1], y);
      assert x[..|x| - 1][1..] == x[1..][..|x| - 2];
    }
  }

  lemma {:induction false} CrossColumn(x: seq<real>, y: seq<real>)
    requires y != []
    ensures Cross(x, y) == Distances(y[0], x) + Cross(x, y[1..])
  {
    if x != [] {
      CrossFromFront(x, y);
      CrossFromFront(x, y[1..]);
      CrossColumn(x[1..], y);
      DistancesFromFront(x[0], y);
      DistancesFromFront(y[0], x);
      assert Abs(x[0] - y[0]) == Abs(y[0] - x[0]);
    }
  }

  lemma {:induction false} CrossSymmetric(x: seq<real>, y: seq<real>)
    ensures Cross(x, y) == Cross(y, x)
  {
    if x == [] {
      CrossEmpty(y);
    } else {
      CrossFromFront(x, y);
      CrossColumn(y, x);
      CrossSymmetric(x[1..], y);
    }
  }

  lemma {:induction false} CrossEmpty(y: seq<real>)
    ensures Cross(y, []) == 0.0
  {
    if y != [] {
      CrossEmpty(y[..|y| - 1]);
    }
  }

  lemma {:induction false} PullOfAtoms(p: real, s: seq<real>, w: real, l: seq<Atom>)
    ensures Pull(p, Atoms(s, w) + l) == Times(w, Distances(p, s)) + Pull(p, l)
  {
    hide Times;
    hide Abs;
    hide Pull;
    if s == [] {
      assert Atoms(s, w) + l == l;
      TimesRight(w, 0.0, 0.0);
    } else {
      hide Distances;
      PullOfAtoms(p, s[1..], w, l);
      DistancesFromFront(p, s);
      assert Atoms(s, w) + l == [Atom(s[0], w)] + (Atoms(s[1..], w) + l);
      PullOfCons(p, Atom(s[0], w), Atoms(s[1..], w) + l);
      TimesRight(w, Abs(p - s[0]), Distances(p, s[1..]));
    }
  }

  lemma {:induction false} PotentialOfAtoms(s: seq<real>, w: real)
    ensures Potential(Atoms(s, w)) == Times(Times(w, w), Within(s))
  {
    hide Times;
    if s != [] {
      PotentialOfAtoms(s[1..], w);
      PullOfAtoms(s[0], s[1..], w, []);
      assert Atoms(s[1..], w) + [] == Atoms(s[1..], w);
      assert Atoms(s, w)[1..] == Atoms(s[1..], w);
      TimesAssociative(w, w, Distances(s[0], s[1..]));
      TimesRight(Times(w, w), Distances(s[0], s[1..]), Within(s[1..]));
    } else {
      TimesRight(Times(w, w), 0.0, 0.0);
    }
  }

  lemma {:induction false} PotentialOfBoth(x: seq<real>, y: seq<real>, w: real, v: real)
    ensures Potential(Atoms(x, w) + Atoms(y, v))
            == Times(Times(w, w), Within(x)) + Times(Times(v, v), Within(y)) + Times(Times(w, v), Cross(x, y))
  {
    hide Times;
    hide Distances;
    hide Potential;
    hide Pull;
    if x == [] {
      PotentialOfAtoms(y, v);
      assert Atoms(x, w) + Atoms(y, v) == Atoms(y, v);
      TimesRight(Times(w, w), 0.0, 0.0);
      TimesRight(Times(w, v), 0.0, 0.0);
    } else {
      PotentialOfBoth(x[1..], y, w, v);
      FirstAtomOfBoth(x, y, w, v);
      CrossFromFront(x, y);
      SpreadProducts(w, v, Distances(x[0], x[1..]), Distances(x[0], y), Within(x[1..]), Cross(x[1..], y));
    }
  }

  lemma FirstAtomOfBoth(x: seq<real>, y: seq<real>, w: real, v: real)
    requires x != []
    ensures Potential(Atoms(x, w) + Atoms(y, v))
            == Times(w, Times(w, Distances(x[0], x[1..])) + Times(v, Distances(x[0], y)))
               + Potential(Atoms(x[1..], w) + Atoms(y, v))
  {
    hide Times;
    hide Distances;
    hide Pull;
    hide Potential;
    PullOfBoth(x[0], x[1..], y, w, v);
    var rest := Atoms(x[1..], w) + Atoms(y, v);
    assert Atoms(x, w) + Atoms(y, v) == [Atom(x[0], w)] + rest;
    PotentialOfCons(Atom(x[0], w), rest);
  }

  lemma PotentialOfCons(a: Atom, l: seq<Atom>)
    ensures Potential([a] + l) == Times(a.weight, Pull(a.pos, l)) + Potential(l)
  {
    hide Times;
    assert ([a] + l)[1..] == l;
  }

  lemma PullOfBoth(p: real, x: seq<real>, y: seq<real>, w: real, v: real)
    ensures Pull(p, Atoms(x, w) + Atoms(y, v)) == Times(w, Distances(p, x)) + Times(v, Distances(p, y))
  {
    hide Times;
    hide Distances;
    hide Atoms;
    PullOfAtoms(p, x, w, Atoms(y, v));
    PullOfAtoms(p, y, v, []);
    assert Atoms(y, v) + [] == Atoms(y, v);
  }

  lemma SpreadProducts(w: real, v: real, dx: real, dy: real, within: real, cross: real)
    ensures Times(w, Times(w, dx) + Times(v, dy)) + Times(Times(w, w), within) + Times(Times(w, v), cross)
            == Times(Times(w, w), dx + within) + Times(Times(w, v), dy + cross)
  {
    hide Times;
    TimesRight(w, Times(w, dx), Times(v, dy));
    TimesAssociative(w, w, dx);
    TimesAssociative(w, v, dy);
    TimesRight(Times(w, w), dx, within);
    TimesRight(Times(w, v), dy, cross);
  }

  lemma TotalOfCons(a: Atom, l: seq<Atom>)
    ensures Total([a] + l) == a.weight + Total(l)
  {
    assert ([a] + l)[1..] == l;
  }

  lemma AtomsOfCons(s: seq<real>, w: real, l: seq<Atom>)
    requires s != []
    ensures Atoms(s, w) + l == [Atom(s[0], w)] + (Atoms(s[1..], w) + l)
  {
  }

  lemma {:induction false} TotalOfAtoms(s: seq<real>, w: real, l: seq<Atom>)
    ensures Total(Atoms(s, w) + l) == Times(w, |s| as real) + Total(l)
  {
    hide Times;
    hide Total;
    if s == [] {
      assert Atoms(s, w) + l == l;
      TimesRight(w, 0.0, 0.0);
    } else {
      AtomsOfCons(s, w, l);
      hide Atoms;
      TotalOfAtoms(s[1..], w, l);
      TotalOfCons(Atom(s[0], w), Atoms(s[1..], w) + l);
      TimesOneMore(w, |s| - 1);
    }
  }

  lemma TimesOneMore(w: real, c: nat)
    ensures Times(w, (c + 1) as real) == w + Times(w, c as real)
  {
    assert (c + 1) as real == 1.0 + c as real;
  }

  lemma {:induction false} WeightOfAtoms(s: seq<real>, w: real, l: seq<Atom>, t: real)
    ensures WeightUpTo(Atoms(s, w) + l, t) == Times(w, CountUpTo(s, t) as real) + WeightUpTo(l, t)
  {
    hide Times;
    if s == [] {
      assert Atoms(s, w) + l == l;
      TimesRight(w, 0.0, 0.0);
    } else {
      WeightOfAtoms(s[1..], w, l, t);
      assert (Atoms(s, w) + l)[1..] == Atoms(s[1..], w) + l;
      TimesOneMore(w, CountUpTo(s[1..], t));
    }
  }

  function Balanced(x: seq<real>, y: seq<real>): seq<Atom> {
    Atoms(x, |y| as real) + Atoms(y, -(|x| as real))
  }

  lemma BalancedTotal(x: seq<real>, y: seq<real>)
    ensures Total(Balanced(x, y)) == 0.0
  {
    hide Times;
    var n, m := |x| as real, |y| as real;
    TotalOfAtoms(x, m, Atoms(y, -n));
    TotalOfAtoms(y, -n, []);
    assert Atoms(y, -n) + [] == Atoms(y, -n);
    OppositeProducts(m, n);
  }

  lemma OppositeProducts(m: real, n: real)
    ensures Times(m, n) + Times(-n, m) == 0.0
  {
  }

  lemma BalancedWeight(x: seq<real>, y: seq<real>, t: real)
    ensures WeightUpTo(Balanced(x, y), t) == 0.0 <==> |y| * CountUpTo(x, t) == |x| * CountUpTo(y, t)
  {
    hide Times;
    hide CountUpTo;
    hide Atoms;
    var n, m := |x| as real, |y| as real;
    WeightOfAtoms(x, m, Atoms(y, -n), t);
    WeightOfAtoms(y, -n, [], t);
    assert Atoms(y, -n) + [] == Atoms(y, -n);
    RealProducts(|y|, CountUpTo(x, t), |x|, CountUpTo(y, t));
  }

  lemma RealProducts(m: nat, cx: nat, n: nat, cy: nat)
    ensures Times(m as real, cx as real) + Times(-(n as real), cy as real) == 0.0 <==> m * cx == n * cy
  {
    assert (m * cx) as real == m as real * cx as real;
    assert (n * cy) as real == n as real * cy as real;
    assert -(n as real) * cy as real == -(n as real * cy as real);
  }

  // ---------------------------------------------------------------- clearing the denominators

  lemma ClearDenominator(a: real, p: real, k: real)
    requires p != 0.0
    ensures Times(a / p, Times(p, k)) == Times(a, k)
  {
    var q := a / p;
    assert q * p == a;
    assert q * (p * k) == (q * p) * k;
  }

  // The pairwise energy is the potential of the weighted points, scaled.
  lemma StatisticIsPotential(x: seq<real>, y: seq<real>)
    requires x != [] && y != []
    ensures var n, m := |x| as real, |y| as real;
            Times(PairwiseEnergy(x, y), Times(Times(n, m), Times(n, m))) == -2.0 * Potential(Balanced(x, y))
  {
    var n, m := |x| as real, |y| as real;
    PotentialOfBoth(x, y, m, -n);
    EnergyByDivision(x, y);
    ScaledStatistic(n, m, Cross(x, y), Within(x), Within(y));
  }

  function Divided(n: real, m: real, c: real, wx: real, wy: real): real
    requires n != 0.0 && m != 0.0
  {
    NonZero(n, m);
    NonZero(n, n);
    NonZero(m, m);
    2.0 * (c / Times(n, m)) - 2.0 * wx / Times(n, n) - 2.0 * wy / Times(m, m)
  }

  lemma NonZero(a: real, b: real)
    requires a != 0.0 && b != 0.0
    ensures Times(a, b) != 0.0
  {
  }

  lemma EnergyByDivision(x: seq<real>, y: seq<real>)
    requires x != [] && y != []
    ensures PairwiseEnergy(x, y) == Divided(|x| as real, |y| as real, Cross(x, y), Within(x), Within(y))
  {
    hide Cross;
    hide Within;
  }

  lemma SmallWithin(s: seq<real>)
    requires s != [] && |s| <= 200
    ensures WithinDispersion(s) == Spread(s)
  {
    hide Within;
    if |s| == 1 {
      WithinOfOne(s);
      ZeroQuotient(|s| as real * |s| as real);
    }
  }

  lemma WithinOfOne(s: seq<real>)
    requires |s| == 1
    ensures Within(s) == 0.0
  {
    assert s[1..] == [];
  }

  lemma ZeroQuotient(d: real)
    requires d != 0.0
    ensures 0.0 / d == 0.0
  {
  }

  lemma ScaledStatistic(n: real, m: real, c: real, wx: real, wy: real)
    requires n != 0.0 && m != 0.0
    ensures Times(Divided(n, m, c, wx, wy), Times(Times(n, m), Times(n, m)))
            == -2.0 * (Times(Times(m, m), wx) + Times(Times(-n, -n), wy) + Times(Times(m, -n), c))
  {
    hide Times;
    NonZero(n, m);
    NonZero(n, n);
    NonZero(m, m);
    var nm, nn, mm := Times(n, m), Times(n, n), Times(m, m);
    var k := Times(nm, nm);
    SquaresCommute(n, m);
    ClearDenominator(c, nm, nm);
    ClearDenominator(2.0 * wx, nn, mm);
    ClearDenominator(2.0 * wy, mm, nn);
    SplitScaled(c / nm, 2.0 * wx / nn, 2.0 * wy / mm, k);
    Rearranged(n, m, c, wx, wy);
  }

  lemma SquaresCommute(n: real, m: real)
    ensures Times(Times(n, m), Times(n, m)) == Times(Times(n, n), Times(m, m))
    ensures Times(Times(n, m), Times(n, m)) == Times(Times(m, m), Times(n, n))
  {
    assert n * m * (n * m) == n * (m * (n * m)) == n * (n * (m * m)) == n * n * (m * m);
    assert n * n * (m * m) == m * m * (n * n);
  }

  lemma SplitScaled(qc: real, qx: real, qy: real, k: real)
    ensures Times(2.0 * qc - qx - qy, k) == 2.0 * Times(qc, k) - Times(qx, k) - Times(qy, k)
  {
  }

  lemma Rearranged(n: real, m: real, c: real, wx: real, wy: real)
    ensures 2.0 * Times(c, Times(n, m)) - Times(2.0 * wx, Times(m, m)) - Times(2.0 * wy, Times(n, n))
            == -2.0 * (Times(Times(m, m), wx) + Times(Times(-n, -n), wy) + Times(Times(m, -n), c))
  {
    assert c * (n * m) == -(m * -n * c);
    assert 2.0 * wx * (m * m) == 2.0 * (m * m * wx);
    assert -n * -n == n * n;
    assert 2.0 * wy * (n * n) == 2.0 * (n * n * wy);
  }

  lemma SignThroughScale(e: real, k: real, g: real)
    requires k > 0.0 && Times(e, k) == g && g >= 0.0
    ensures e >= 0.0 && (e == 0.0 <==> g == 0.0)
  {
    assert e < 0.0 ==> e * k < 0.0;
    assert e > 0.0 ==> e * k > 0.0;
  }

  // ---------------------------------------------------------------- the theorem

  lemma SameDistributionByWeight(x: seq<real>, y: seq<real>)
    ensures SameDistribution(x, y) <==> Weightless(Sort(Balanced(x, y), LeqAtom))
  {
    var l := Balanced(x, y);
    forall t ensures WeightUpTo(Sort(l, LeqAtom), t) == 0.0 <==> |y| * CountUpTo(x, t) == |x| * CountUpTo(y, t) {
      SortKeepsWeight(l, t);
      BalancedWeight(x, y, t);
    }
    if SameDistribution(x, y) {
      forall t ensures WeightUpTo(Sort(l, LeqAtom), t) == 0.0 {
        assert |y| * CountUpTo(x, t) == |x| * CountUpTo(y, t);
      }
    }
    if Weightless(Sort(l, LeqAtom)) {
      forall t ensures |y| * CountUpTo(x, t) == |x| * CountUpTo(y, t) {
        assert WeightUpTo(Sort(l, LeqAtom), t) == 0.0;
      }
    }
  }

  /** The energy by all pairs is never negative, and zero exactly for equal empirical distributions. */
  lemma PairwiseEnergyNonNegative(x: seq<real>, y: seq<real>)
    requires x != [] && y != []
    ensures PairwiseEnergy(x, y) >= 0.0
    ensures PairwiseEnergy(x, y) == 0.0 <==> SameDistribution(x, y)
  {
    hide Times;
    hide PairwiseEnergy;
    var n, m := |x| as real, |y| as real;
    var l := Balanced(x, y);
    var sorted := Sort(l, LeqAtom);
    BalancedTotal(x, y);
    SortKeepsPotential(l);
    SortKeepsTotal(l);
    assert TotalPreorder(LeqAtom);
    SortIsSorted(l, LeqAtom);
    PotentialIsMinusGaps(sorted);
    GapsNonNegative(sorted);
    GapsVanishIff(sorted);
    StatisticIsPotential(x, y);
    NonZero(n, m);
    SquareIsPositive(Times(n, m));
    SignThroughScale(PairwiseEnergy(x, y), Times(Times(n, m), Times(n, m)), 2.0 * Gaps(sorted));
    SameDistributionByWeight(x, y);
  }

  lemma ExactIsPairwise(x: seq<real>, y: seq<real>)
    requires Exact(x, y)
    ensures Statistic(x, y) == PairwiseEnergy(x, y)
  {
    SmallWithin(x);
    SmallWithin(y);
    hide Spread;
    hide WithinDispersion;
    hide Cross;
  }

  /** The exact energy statistic is never negative, and zero exactly for equal empirical distributions. */
  lemma EnergyNonNegative(x: seq<real>, y: seq<real>)
    requires Exact(x, y)
    ensures Statistic(x, y) >= 0.0
    ensures Statistic(x, y) == 0.0 <==> SameDistribution(x, y)
  {
    ExactIsPairwise(x, y);
    PairwiseEnergyNonNegative(x, y);
  }

  /** The statistic is symmetric in its samples, on every branch. */
  lemma EnergySymmetric(x: seq<real>, y: seq<real>)
    ensures Statistic(x, y) == Statistic(y, x)
  {
    CrossSymmetric(x, y);
    assert |x| as real * |y| as real == |y| as real * |x| as real;
    assert |x| * |y| == |y| * |x|;
  }

  // ---------------------------------------------------------------- exact distance, median dispersion

  // By how much the dispersion the code uses exceeds the one by all pairs; nothing up to 200 values.
  function Excess(s: seq<real>): real
    requires s != []
  {
    WithinDispersion(s) - Spread(s)
  }

  /**
   Up to 10 000 pairs: the statistic is negative exactly when the two dispersions
   the code uses exceed those by all pairs by more than the energy by all pairs,
   which takes a sample of more than 200 values.
   */
  lemma MixedEnergySign(x: seq<real>, y: seq<real>)
    requires x != [] && y != [] && |x| * |y| <= 10_000
    ensures Statistic(x, y) < 0.0 <==> Excess(x) + Excess(y) > PairwiseEnergy(x, y)
    ensures Statistic(x, y) == 0.0 <==> Excess(x) + Excess(y) == PairwiseEnergy(x, y)
    ensures PairwiseEnergy(x, y) >= 0.0
    ensures |x| <= 200 ==> Excess(x) == 0.0
    ensures |y| <= 200 ==> Excess(y) == 0.0
  {
    PairwiseEnergyNonNegative(x, y);
    if |x| <= 200 { SmallWithin(x); }
    if |y| <= 200 { SmallWithin(y); }
    hide Spread;
    hide WithinDispersion;
    hide Cross;
  }

  // ---------------------------------------------------------------- the approximate branch

  lemma {:induction false} DistancesNonNegative(a: real, y: seq<real>)
    ensures Distances(a, y) >= 0.0
    ensures Distances(a, y) == 0.0 <==> forall i :: 0 <= i < |y| ==> y[i] == a
  {
    if y != [] {
      var front := y[..|y| - 1];
      DistancesNonNegative(a, front);
      assert y[|y| - 1] == a && (forall i :: 0 <= i < |front| ==> front[i] == a) ==> forall i :: 0 <= i < |y| ==> y[i] == a;
      assert (forall i :: 0 <= i < |y| ==> y[i] == a) ==> forall i :: 0 <= i < |front| ==> front[i] == a;
    }
  }

  predicate Constant(s: seq<real>) {
    forall i :: 0 <= i < |s| ==> s[i] == s[0]
  }

  lemma {:induction false} WithinNonNegative(s: seq<real>)
    ensures Within(s) >= 0.0
    ensures Within(s) == 0.0 <==> Constant(s)
  {
    if s != [] {
      WithinNonNegative(s[1..]);
      DistancesNonNegative(s[0], s[1..]);
      assert (forall i :: 0 <= i < |s[1..]| ==> s[1..][i] == s[0]) <==> Constant(s) by {
        if forall i :: 0 <= i < |s[1..]| ==> s[1..][i] == s[0] {
          forall i | 0 <= i < |s| ensures s[i] == s[0] { if i > 0 { assert s[i] == s[1..][i - 1]; } }
        }
      }
      if Constant(s) { assert Constant(s[1..]); }
    }
  }

  lemma DispersionSign(s: seq<real>)
    requires 1 <= |s| <= 200
    ensures WithinDispersion(s) >= 0.0
    ensures WithinDispersion(s) == 0.0 <==> Constant(s)
  {
    SmallWithin(s);
    WithinNonNegative(s);
    SquareIsPositive(|s| as real);
    QuotientSign(2.0 * Within(s), |s| as real * |s| as real);
  }

  lemma QuotientSign(a: real, b: real)
    requires a >= 0.0 && b > 0.0
    ensures a / b >= 0.0 && (a / b == 0.0 <==> a == 0.0)
  {
    SignThroughScale(a / b, b, a);
  }

  lemma MedianNonNegative(s: seq<real>)
    requires s != [] && forall i :: 0 <= i < |s| ==> s[i] >= 0.0
    ensures Median(s) >= 0.0
  {
    SortKeepsElements(s, LeqReal);
    var sorted := Sort(s, LeqReal);
    forall i | 0 <= i < |sorted| ensures sorted[i] >= 0.0 { assert sorted[i] in s; }
  }

  lemma DispersionNonNegative(s: seq<real>)
    ensures WithinDispersion(s) >= 0.0
  {
    hide Median;
    hide Within;
    if |s| > 200 {
      LargeDispersion(s);
    } else if s != [] {
      hide WithinDispersion;
      DispersionSign(s);
    }
  }

  lemma LargeDispersion(s: seq<real>)
    requires |s| > 200
    ensures WithinDispersion(s) == Median(Deviations(s, Median(s))) >= 0.0
  {
    hide Median;
    MedianNonNegative(Deviations(s, Median(s)));
  }

  /**
   Past 10 000 pairs the cross distance becomes the distance of the medians, and
   the statistic has the sign of twice that distance less the two dispersions: it
   is negative exactly when the medians lie closer together than the mean dispersion.
   With equal medians it is never positive.
   */
  lemma ApproximateEnergySign(x: seq<real>, y: seq<real>)
    requires |x| * |y| > 10_000
    ensures x != [] && y != []
    ensures Statistic(x, y) < 0.0 <==> Abs(Median(x) - Median(y)) < (WithinDispersion(x) + WithinDispersion(y)) / 2.0
    ensures Statistic(x, y) > 0.0 <==> Abs(Median(x) - Median(y)) > (WithinDispersion(x) + WithinDispersion(y)) / 2.0
    ensures Median(x) == Median(y) ==>
              Statistic(x, y) <= 0.0 && (Statistic(x, y) == 0.0 <==> WithinDispersion(x) == WithinDispersion(y) == 0.0)
  {
    assert x == [] ==> |x| * |y| == 0;
    assert y == [] ==> |x| * |y| == 0;
    DispersionNonNegative(x);
    DispersionNonNegative(y);
    hide WithinDispersion;
    hide Median;
  }

  // With equal medians and samples of at most 200 values: zero only when both samples are constant.
  lemma ApproximateEnergyNotPositive(x: seq<real>, y: seq<real>)
    requires |x| * |y| > 10_000 && 1 <= |x| <= 200 && 1 <= |y| <= 200
    requires Median(x) == Median(y)
    ensures Statistic(x, y) <= 0.0
    ensures Statistic(x, y) == 0.0 <==> Constant(x) && Constant(y)
  {
    ApproximateEnergySign(x, y);
    DispersionSign(x);
    DispersionSign(y);
  }

  // ---------------------------------------------------------------- constant samples

  predicate AllEqual(s: seq<real>, c: real) {
    forall i :: 0 <= i < |s| ==> s[i] == c
  }

  lemma {:induction false} CrossOfEqual(x: seq<real>, y: seq<real>, c: real)
    requires AllEqual(x, c) && AllEqual(y, c)
    ensures Cross(x, y) == 0.0
  {
    if x != [] {
      CrossOfEqual(x[..|x| - 1], y, c);
      DistancesNonNegative(x[|x| - 1], y);
    }
  }

  lemma MedianOfEqual(s: seq<real>, c: real)
    requires s != [] && AllEqual(s, c)
    ensures Median(s) == c
  {
    SortKeepsElements(s, LeqReal);
    var sorted := Sort(s, LeqReal);
    hide Sort;
    forall i | 0 <= i < |sorted| ensures sorted[i] == c { assert sorted[i] in s; }
    hide AllEqual;
    assert Median(s) == c;
  }

  lemma DispersionOfEqual(s: seq<real>, c: real)
    requires AllEqual(s, c)
    ensures WithinDispersion(s) == 0.0
  {
    if 1 <= |s| <= 200 {
      assert Constant(s);
      DispersionSign(s);
    } else if |s| > 200 {
      MedianOfEqual(s, c);
      MedianOfEqual(Deviations(s, c), 0.0);
    }
  }

  /** Samples of one and the same value have no energy, on every branch. */
  lemma EqualSamplesHaveNoEnergy(x: seq<real>, y: seq<real>, c: real)
    requires AllEqual(x, c) && AllEqual(y, c)
    ensures Statistic(x, y) == 0.0
  {
    if x != [] && y != [] {
      CrossOfEqual(x, y, c);
      MedianOfEqual(x, c);
      MedianOfEqual(y, c);
      DispersionOfEqual(x, c);
      DispersionOfEqual(y, c);
      NoCrossDistance(x, y);
    }
  }

  lemma NoCrossDistance(x: seq<real>, y: seq<real>)
    requires x != [] && y != [] && Cross(x, y) == 0.0 && Median(x) == Median(y)
    ensures CrossDistance(x, y) == 0.0
  {
    hide Cross;
    hide Median;
    if |x| * |y| <= 10_000 {
      assert |x| as real * |y| as real != 0.0 by { NonZero(|x| as real, |y| as real); }
      ZeroQuotient(|x| as real * |y| as real);
    }
  }

  // n zeros and then a one.
  function Spike(n: nat): (r: seq<real>)
    ensures |r| == n + 1
  {
    seq(n + 1, i => if i < n then 0.0 else 1.0)
  }

  /** 101 zeros against 100 zeros and a one: the statistic is negative. */
  lemma NegativeEnergy()
    ensures Statistic(seq(101, i => 0.0), Spike(100)) < 0.0
  {
    var x, y := seq(101, i => 0.0), Spike(100);
    MedianOfEqual(x, 0.0);
    SortOfSorted(y, LeqReal);
    assert Median(y) == y[50] == 0.0;
    assert y[100] != y[0];
    ApproximateEnergyNotPositive(x, y);
  }

  // ---------------------------------------------------------------- a negative statistic within 10 000 pairs

  function Repeat(n: nat, c: real): (r: seq<real>)
    ensures |r| == n && forall i :: 0 <= i < n ==> r[i] == c
  {
    seq(n, _ => c)
  }

  lemma DistancesOfAppend(a: real, s: seq<real>, b: real)
    ensures Distances(a, s + [b]) == Distances(a, s) + Abs(a - b)
  {
    assert (s + [b])[..|s|] == s;
  }

  lemma {:induction false} DistancesOfRepeat(a: real, s: seq<real>, n: nat, c: real)
    ensures Distances(a, s + Repeat(n, c)) == Distances(a, s) + Times(Abs(a - c), n as real)
  {
    hide Times;
    hide Abs;
    hide Distances;
    if n == 0 {
      assert s + Repeat(0, c) == s;
      TimesRight(Abs(a - c), 0.0, 0.0);
    } else {
      DistancesOfRepeat(a, s, n - 1, c);
      assert s + Repeat(n, c) == (s + Repeat(n - 1, c)) + [c];
      DistancesOfAppend(a, s + Repeat(n - 1, c), c);
      TimesOneMore(Abs(a - c), n - 1);
    }
  }

  lemma {:induction false} CountOfRepeat(n: nat, c: real, s: seq<real>, t: real)
    ensures CountUpTo(Repeat(n, c) + s, t) == (if c <= t then n else 0) + CountUpTo(s, t)
  {
    if n == 0 {
      assert Repeat(0, c) + s == s;
    } else {
      CountOfRepeat(n - 1, c, s, t);
      assert (Repeat(n, c) + s)[1..] == Repeat(n - 1, c) + s;
    }
  }

  lemma {:induction false} CountOfInsert(a: real, s: seq<real>, t: real)
    ensures CountUpTo(Insert(a, s, LeqReal), t) == (if a <= t then 1 else 0) + CountUpTo(s, t)
  {
    if s != [] && !LeqReal(a, s[0]) {
      CountOfInsert(a, s[1..], t);
      assert Insert(a, s, LeqReal)[1..] == Insert(a, s[1..], LeqReal);
    } else {
      assert ([a] + s)[1..] == s;
    }
  }

  lemma {:induction false} CountOfSort(s: seq<real>, t: real)
    ensures CountUpTo(Sort(s, LeqReal), t) == CountUpTo(s, t)
  {
    if s != [] {
      CountOfSort(s[1..], t);
      CountOfInsert(s[0], Sort(s[1..], LeqReal), t);
    }
  }

  lemma {:induction false} CountOfSorted(s: seq<real>, k: nat, t: real)
    requires SortedBy(s, LeqReal) && k < |s| && s[k] <= t
    ensures CountUpTo(s, t) > k
  {
    if k > 0 {
      assert LeqReal(s[0], s[k]);
      CountOfSorted(s[1..], k - 1, t);
    }
  }

  /** The median lies above every threshold that fewer than half of the values reach from below. */
  lemma MedianAbove(s: seq<real>, t: real)
    requires s != [] && 2 * CountUpTo(s, t) < |s|
    ensures Median(s) > t
  {
    var sorted := Sort(s, LeqReal);
    SortKeepsElements(s, LeqReal);
    assert TotalPreorder(LeqReal);
    SortIsSorted(s, LeqReal);
    CountOfSort(s, t);
    var mid := |s| / 2;
    if sorted[mid] <= t { CountOfSorted(sorted, mid, t); }
    if |s| % 2 == 0 && sorted[mid - 1] <= t { CountOfSorted(sorted, mid - 1, t); }
  }

  lemma OddMedianIsAValue(s: seq<real>)
    requires |s| % 2 == 1
    ensures Median(s) in s
  {
    SortKeepsElements(s, LeqReal);
  }

  const FEW := [-1.0, 0.0, 0.0, 0.0, 1.0]

  function Many(): (r: seq<real>)
    ensures |r| == 201
    ensures forall i :: 0 <= i < 201 ==> r[i] == if i < 51 then -1.0 else if i < 150 then 0.0 else 1.0
  {
    Repeat(51, -1.0) + Repeat(99, 0.0) + Repeat(51, 1.0)
  }

  lemma MedianOfSorted(s: seq<real>)
    requires SortedBy(s, LeqReal) && |s| % 2 == 1
    ensures Median(s) == s[|s| / 2]
  {
    SortOfSorted(s, LeqReal);
    hide Sort;
  }

  lemma MedianOfMany()
    ensures Median(Many()) == 0.0
  {
    var s := Many();
    hide Many;
    hide Median;
    MedianOfSorted(s);
  }

  lemma DeviationsOfMany()
    ensures Deviations(Many(), 0.0) == Repeat(51, 1.0) + (Repeat(99, 0.0) + (Repeat(51, 1.0) + []))
  {
    hide Many;
  }

  lemma MedianDeviationOfMany()
    ensures Median(Deviations(Many(), 0.0)) == 1.0
  {
    var d := Deviations(Many(), 0.0);
    DeviationsOfMany();
    hide Many;
    hide Median;
    hide Deviations;
    CountOfRepeat(51, 1.0, Repeat(99, 0.0) + (Repeat(51, 1.0) + []), 0.0);
    CountOfRepeat(99, 0.0, Repeat(51, 1.0) + [], 0.0);
    CountOfRepeat(51, 1.0, [], 0.0);
    assert CountUpTo(d, 0.0) == 99;
    hide CountUpTo;
    MedianAbove(d, 0.0);
    OddMedianIsAValue(d);
    assert forall v :: v in d ==> v == 0.0 || v == 1.0;
  }

  lemma DispersionOfMany()
    ensures WithinDispersion(Many()) == 1.0
  {
    MedianOfMany();
    MedianDeviationOfMany();
    hide Many;
    hide Median;
    hide Deviations;
  }

  lemma DistancesToMany(a: real)
    ensures Distances(a, Many()) == 51.0 * Abs(a + 1.0) + 99.0 * Abs(a) + 51.0 * Abs(a - 1.0)
  {
    DistancesOfRepeat(a, [], 51, -1.0);
    DistancesOfRepeat(a, Repeat(51, -1.0), 99, 0.0);
    DistancesOfRepeat(a, Repeat(51, -1.0) + Repeat(99, 0.0), 51, 1.0);
    assert [] + Repeat(51, -1.0) == Repeat(51, -1.0);
    assert Distances(a, []) == 0.0;
    hide Distances;
    hide Repeat;
  }

  lemma CrossOfFewAndMany()
    ensures Cross(FEW, Many()) == 708.0
  {
    hide Distances;
    DistancesToMany(-1.0);
    DistancesToMany(0.0);
    DistancesToMany(1.0);
    hide Many;
    assert FEW[..4] == [-1.0, 0.0, 0.0, 0.0] && FEW[..4][..3] == [-1.0, 0.0, 0.0] && FEW[..4][..3][..2] == [-1.0, 0.0];
    assert [-1.0, 0.0][..1] == [-1.0] && [-1.0][..0] == [];
    assert Cross([-1.0], Many()) == 201.0;
    assert Cross([-1.0, 0.0], Many()) == 303.0;
    assert Cross([-1.0, 0.0, 0.0], Many()) == 405.0;
    assert Cross([-1.0, 0.0, 0.0, 0.0], Many()) == 507.0;
  }

  lemma WithinFew()
    ensures Within(FEW) >= 6.0
  {
    var rest := Repeat(3, 0.0) + [1.0];
    var last := Repeat(2, 0.0) + [1.0];
    assert FEW[1..] == rest && rest[1..] == last && rest[0] == 0.0;
    DistancesTo(-1.0, 3);
    DistancesTo(0.0, 2);
    WithinNonNegative(last);
    hide Distances;
  }

  lemma DistancesTo(a: real, n: nat)
    ensures Distances(a, Repeat(n, 0.0) + [1.0]) == Times(Abs(a), n as real) + Abs(a - 1.0)
  {
    DistancesOfRepeat(a, [], n, 0.0);
    assert [] + Repeat(n, 0.0) == Repeat(n, 0.0);
    DistancesOfAppend(a, Repeat(n, 0.0), 1.0);
  }

  lemma DispersionOfFew()
    ensures WithinDispersion(FEW) >= 0.48
  {
    WithinFew();
    hide Within;
  }

  /** 5 values against 201, in 1 005 pairs: the statistic is negative. */
  lemma NegativeMixedEnergy()
    ensures |FEW| * |Many()| <= 10_000 && Statistic(FEW, Many()) < 0.0
  {
    DispersionOfMany();
    CrossOfFewAndMany();
    DispersionOfFew();
    hide Cross;
    hide WithinDispersion;
    hide Many;
    assert 708.0 / 1005.0 < 0.71;
  }
}
