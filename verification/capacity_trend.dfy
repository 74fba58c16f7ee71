/**
 Model of calculateTrend and record in src/capacity/planner.ts, in exact
 arithmetic: the fitted line is the least-squares line, and the confidence is
 the share of the variation that it explains.
 */
module CapacityTrend {
  import opened Common
  import opened Sorting

  const DAY_MS := 86_400_000.0

  datatype Sample = Sample(timestamp: real, value: real)

  datatype Trend = Trend(slopePerDay: real, confidence: real)

  // ---------------------------------------------------------------- the sums of the code

  function Sum(s: seq<real>): real {
    if s == [] then 0.0 else s[0] + Sum(s[1..])
  }

  function Mean(s: seq<real>): real
    requires s != []
  {
    Sum(s) / |s| as real
  }

  function Square(r: real): real { r * r }

  function Times(a: real, b: real): real { a * b }

  // Sum of the squared distances from m.
  function Variation(s: seq<real>, m: real): real {
    if s == [] then 0.0 else Square(s[0] - m) + Variation(s[1..], m)
  }

  function Covariation(xs: seq<real>, ys: seq<real>, mx: real, my: real): real
    requires |xs| == |ys|
  {
    if xs == [] then 0.0 else Times(xs[0] - mx, ys[0] - my) + Covariation(xs[1..], ys[1..], mx, my)
  }

  // Sum of the squared distances from the line through (mx, my) with a slope.
  function Residual(xs: seq<real>, ys: seq<real>, mx: real, my: real, slope: real): real
    requires |xs| == |ys|
  {
    if xs == [] then 0.0
    else Square(ys[0] - (my + slope * (xs[0] - mx))) + Residual(xs[1..], ys[1..], mx, my, slope)
  }

  function Days(history: seq<Sample>, first: real): (xs: seq<real>)
    ensures |xs| == |history|
  {
    if history == [] then [] else [(history[0].timestamp - first) / DAY_MS] + Days(history[1..], first)
  }

  function Values(history: seq<Sample>): (ys: seq<real>)
    ensures |ys| == |history|
  {
    if history == [] then [] else [history[0].value] + Values(history[1..])
  }

  function Clamp(r: real): real {
    if r < 0.0 then 0.0 else if r > 1.0 then 1.0 else r
  }

  function FitOf(xs: seq<real>, ys: seq<real>): Trend
    requires |xs| == |ys| && xs != []
  {
    var mx, my := Mean(xs), Mean(ys);
    var variance := Variation(xs, mx);
    if variance == 0.0 then Trend(0.0, 0.0)
    else
      var slope := Covariation(xs, ys, mx, my) / variance;
      var total := Variation(ys, my);
      Trend(slope, if total == 0.0 then 1.0 else Clamp(1.0 - Residual(xs, ys, mx, my, slope) / total))
  }

  function CalculateTrend(history: seq<Sample>): Trend {
    if |history| < 2 then Trend(0.0, 0.0) else FitOf(Days(history, history[0].timestamp), Values(history))
  }

  // ---------------------------------------------------------------- any line

  // Sum of the squared vertical distances from the line y = p + q * x.
  function SquaredError(xs: seq<real>, ys: seq<real>, p: real, q: real): real
    requires |xs| == |ys|
  {
    if xs == [] then 0.0 else Square(ys[0] - (p + q * xs[0])) + SquaredError(xs[1..], ys[1..], p, q)
  }

  function Deviation(s: seq<real>, m: real): real {
    if s == [] then 0.0 else (s[0] - m) + Deviation(s[1..], m)
  }

  lemma {:induction false} DeviationOfSum(s: seq<real>, m: real)
    ensures Deviation(s, m) == Sum(s) - |s| as real * m
  {
    if s != [] {
      DeviationOfSum(s[1..], m);
      assert |s| as real == 1.0 + |s[1..]| as real;
      assert |s| as real * m == m + |s[1..]| as real * m;
    }
  }

  lemma NoDeviationFromMean(s: seq<real>)
    requires s != []
    ensures Deviation(s, Mean(s)) == 0.0
  {
    DeviationOfSum(s, Mean(s));
    assert |s| as real * (Sum(s) / |s| as real) == Sum(s);
  }

  // The error of a line in terms of the sums around any centre.
  function Expanded(vy: real, cov: real, vx: real, dy: real, dx: real, n: real, q: real, c: real): real {
    vy - 2.0 * (q * cov) - 2.0 * (c * dy) + q * q * vx + 2.0 * (q * c * dx) + n * (c * c)
  }

  // How far the line y = p + q * x runs above the point (mx, my).
  function Offset(mx: real, my: real, p: real, q: real): real {
    p + q * mx - my
  }

  lemma ExpandOne(u: real, v: real, q: real, c: real)
    ensures Square(v - (Times(q, u) + c)) == Expanded(Square(v), Times(u, v), Square(u), v, u, 1.0, q, c)
  {
  }

  lemma ExpandedAdds(vy: real, cov: real, vx: real, dy: real, dx: real, n: real,
                     vy': real, cov': real, vx': real, dy': real, dx': real, n': real, q: real, c: real)
    ensures Expanded(vy + vy', cov + cov', vx + vx', dy + dy', dx + dx', n + n', q, c)
            == Expanded(vy, cov, vx, dy, dx, n, q, c) + Expanded(vy', cov', vx', dy', dx', n', q, c)
  {
    assert q * (cov + cov') == q * cov + q * cov';
    assert c * (dy + dy') == c * dy + c * dy';
    assert q * q * (vx + vx') == q * q * vx + q * q * vx';
    assert q * c * (dx + dx') == q * c * dx + q * c * dx';
    assert (n + n') * (c * c) == n * (c * c) + n' * (c * c);
  }

  lemma {:induction false} ErrorExpands(xs: seq<real>, ys: seq<real>, mx: real, my: real, p: real, q: real)
    requires |xs| == |ys|
    ensures SquaredError(xs, ys, p, q)
            == Expanded(Variation(ys, my), Covariation(xs, ys, mx, my), Variation(xs, mx),
                        Deviation(ys, my), Deviation(xs, mx), |xs| as real, q, Offset(mx, my, p, q))
  {
    var c := Offset(mx, my, p, q);
    if xs == [] {
      assert Expanded(0.0, 0.0, 0.0, 0.0, 0.0, 0.0, q, c) == 0.0;
    } else {
      var u, v := xs[0] - mx, ys[0] - my;
      ErrorStep(xs, ys, mx, my, p, q);
      SumsStep(xs, ys, mx, my);
      hide *;
      ErrorExpands(xs[1..], ys[1..], mx, my, p, q);
      ExpandOne(u, v, q, c);
      ExpandedAdds(Square(v), Times(u, v), Square(u), v, u, 1.0, Variation(ys[1..], my), Covariation(xs[1..], ys[1..], mx, my),
                   Variation(xs[1..], mx), Deviation(ys[1..], my), Deviation(xs[1..], mx), |xs[1..]| as real, q, c);
    }
  }

  lemma ErrorStep(xs: seq<real>, ys: seq<real>, mx: real, my: real, p: real, q: real)
    requires |xs| == |ys| && xs != []
    ensures SquaredError(xs, ys, p, q)
            == Square((ys[0] - my) - (Times(q, xs[0] - mx) + Offset(mx, my, p, q))) + SquaredError(xs[1..], ys[1..], p, q)
  {
    hide Square;
    SameDistance(xs[0], ys[0], mx, my, p, q);
  }

  lemma SumsStep(xs: seq<real>, ys: seq<real>, mx: real, my: real)
    requires |xs| == |ys| && xs != []
    ensures Variation(ys, my) == Square(ys[0] - my) + Variation(ys[1..], my)
    ensures Variation(xs, mx) == Square(xs[0] - mx) + Variation(xs[1..], mx)
    ensures Covariation(xs, ys, mx, my) == Times(xs[0] - mx, ys[0] - my) + Covariation(xs[1..], ys[1..], mx, my)
    ensures Deviation(ys, my) == ys[0] - my + Deviation(ys[1..], my)
    ensures Deviation(xs, mx) == xs[0] - mx + Deviation(xs[1..], mx)
    ensures |xs| as real == 1.0 + |xs[1..]| as real
  {
    hide Square;
  }

  lemma SameDistance(x: real, y: real, mx: real, my: real, p: real, q: real)
    ensures y - (p + q * x) == (y - my) - (Times(q, x - mx) + Offset(mx, my, p, q))
  {
    assert q * (x - mx) == q * x - q * mx;
  }

  lemma {:induction false} ResidualIsError(xs: seq<real>, ys: seq<real>, mx: real, my: real, slope: real)
    requires |xs| == |ys|
    ensures Residual(xs, ys, mx, my, slope) == SquaredError(xs, ys, my - slope * mx, slope)
  {
    if xs != [] {
      ResidualIsError(xs[1..], ys[1..], mx, my, slope);
      assert slope * (xs[0] - mx) == slope * xs[0] - slope * mx;
    }
  }

  // ---------------------------------------------------------------- around the means

  lemma ErrorAroundMeans(xs: seq<real>, ys: seq<real>, p: real, q: real)
    requires |xs| == |ys| && xs != []
    ensures var mx, my := Mean(xs), Mean(ys);
            SquaredError(xs, ys, p, q)
            == Expanded(Variation(ys, my), Covariation(xs, ys, mx, my), Variation(xs, mx), 0.0, 0.0,
                        |xs| as real, q, Offset(mx, my, p, q))
  {
    ErrorExpands(xs, ys, Mean(xs), Mean(ys), p, q);
    NoDeviationFromMean(xs);
    NoDeviationFromMean(ys);
  }

  function SlopeOf(xs: seq<real>, ys: seq<real>): real
    requires |xs| == |ys| && xs != [] && Variation(xs, Mean(xs)) != 0.0
  {
    Covariation(xs, ys, Mean(xs), Mean(ys)) / Variation(xs, Mean(xs))
  }

  function ResidualOf(xs: seq<real>, ys: seq<real>): real
    requires |xs| == |ys| && xs != [] && Variation(xs, Mean(xs)) != 0.0
  {
    Residual(xs, ys, Mean(xs), Mean(ys), SlopeOf(xs, ys))
  }

  // The part of the variation that a fit explains: covariance squared over variance.
  function Explained(cov: real, vx: real): real
    requires vx != 0.0
  {
    cov * cov / vx
  }

  lemma CompleteTheSquare(vy: real, cov: real, vx: real, n: real, q: real, c: real, slope: real)
    requires vx != 0.0 && slope == cov / vx
    ensures Expanded(vy, cov, vx, 0.0, 0.0, n, q, c)
            == vy - Explained(cov, vx) + Times(vx, Square(q - slope)) + Times(n, Square(c))
  {
    assert slope * vx == cov;
    assert Explained(cov, vx) == slope * cov by { assert slope * cov * vx == cov * cov; }
    assert vx * Square(q - slope) == vx * (q * q) - 2.0 * (q * (slope * vx)) + slope * (slope * vx);
    assert q * q * vx == vx * (q * q);
  }

  lemma FittedExpansion(vy: real, cov: real, vx: real, n: real, my: real, slope: real, mx: real)
    requires vx != 0.0 && slope == cov / vx
    ensures Expanded(vy, cov, vx, 0.0, 0.0, n, slope, Offset(mx, my, my - slope * mx, slope)) == vy - Explained(cov, vx)
  {
    hide Expanded;
    hide Explained;
    assert Offset(mx, my, my - slope * mx, slope) == 0.0;
    CompleteTheSquare(vy, cov, vx, n, slope, 0.0, slope);
    assert Square(0.0) == 0.0;
    assert Times(vx, 0.0) == 0.0 && Times(n, 0.0) == 0.0;
    assert slope - slope == 0.0;
  }

  /** The residual is the total variation less the explained one. */
  lemma ResidualFormula(xs: seq<real>, ys: seq<real>)
    requires |xs| == |ys| && xs != [] && Variation(xs, Mean(xs)) != 0.0
    ensures ResidualOf(xs, ys) == Variation(ys, Mean(ys))
                                  - Explained(Covariation(xs, ys, Mean(xs), Mean(ys)), Variation(xs, Mean(xs)))
  {
    var mx, my, slope := Mean(xs), Mean(ys), SlopeOf(xs, ys);
    hide Explained;
    hide Expanded;
    hide Offset;
    hide Mean;
    ResidualIsError(xs, ys, mx, my, slope);
    ErrorAroundMeans(xs, ys, my - slope * mx, slope);
    FittedExpansion(Variation(ys, my), Covariation(xs, ys, mx, my), Variation(xs, mx), |xs| as real, my, slope, mx);
  }

  /**
   The error of any line is the residual of the fitted one, plus what its slope
   and its height at the mean miss by.
   */
  lemma ErrorOfAnyLine(xs: seq<real>, ys: seq<real>, p: real, q: real)
    requires |xs| == |ys| && xs != [] && Variation(xs, Mean(xs)) != 0.0
    ensures SquaredError(xs, ys, p, q)
            == ResidualOf(xs, ys) + Times(Variation(xs, Mean(xs)), Square(q - SlopeOf(xs, ys)))
               + Times(|xs| as real, Square(Offset(Mean(xs), Mean(ys), p, q)))
  {
    var mx, my := Mean(xs), Mean(ys);
    ResidualFormula(xs, ys);
    hide Expanded;
    hide Offset;
    hide Mean;
    hide Square;
    hide Times;
    hide Explained;
    hide ResidualOf;
    ErrorAroundMeans(xs, ys, p, q);
    CompleteTheSquare(Variation(ys, my), Covariation(xs, ys, mx, my), Variation(xs, mx), |xs| as real, q,
                      Offset(mx, my, p, q), SlopeOf(xs, ys));
  }

  lemma PositiveProduct(a: real, b: real)
    requires a > 0.0 && b > 0.0
    ensures Times(a, b) > 0.0
  {
  }

  lemma SquareNonNegative(a: real)
    ensures Square(a) >= 0.0 && (Square(a) == 0.0 <==> a == 0.0)
  {
    assert Square(a) == Times(a, a) == Times(-a, -a);
    if a > 0.0 {
      PositiveProduct(a, a);
    } else if a < 0.0 {
      PositiveProduct(-a, -a);
    }
  }

  lemma {:induction false} VariationNonNegative(s: seq<real>, m: real)
    ensures Variation(s, m) >= 0.0
    ensures Variation(s, m) == 0.0 <==> forall i :: 0 <= i < |s| ==> s[i] == m
  {
    hide Square;
    if s != [] {
      SquareNonNegative(s[0] - m);
      VariationNonNegative(s[1..], m);
      assert (forall i :: 0 <= i < |s| ==> s[i] == m) ==> forall i :: 0 <= i < |s[1..]| ==> s[1..][i] == m;
      if s[0] == m && forall i :: 0 <= i < |s[1..]| ==> s[1..][i] == m {
        forall i | 0 <= i < |s| ensures s[i] == m { if i > 0 { assert s[i] == s[1..][i - 1]; } }
      }
    }
  }

  lemma ProductNonNegative(a: real, b: real)
    requires a >= 0.0 && b >= 0.0
    ensures Times(a, b) >= 0.0 && (Times(a, b) == 0.0 <==> a == 0.0 || b == 0.0)
  {
    if a > 0.0 && b > 0.0 { PositiveProduct(a, b); }
  }

  /** The line y = p + q * x has the fitted slope and runs through the means. */
  predicate IsFittedLine(xs: seq<real>, ys: seq<real>, p: real, q: real)
    requires |xs| == |ys| && xs != [] && Variation(xs, Mean(xs)) != 0.0
  {
    q == SlopeOf(xs, ys) && p + q * Mean(xs) == Mean(ys)
  }

  /** No line fits better than the fitted one, and no other fits as well. */
  lemma FittedLineIsBest(xs: seq<real>, ys: seq<real>, p: real, q: real)
    requires |xs| == |ys| && xs != [] && Variation(xs, Mean(xs)) != 0.0
    ensures SquaredError(xs, ys, p, q) >= ResidualOf(xs, ys)
    ensures SquaredError(xs, ys, p, q) == ResidualOf(xs, ys) <==> IsFittedLine(xs, ys, p, q)
  {
    ErrorOfAnyLine(xs, ys, p, q);
    VariationNonNegative(xs, Mean(xs));
    NoOffset(xs, ys, p, q);
    hide *;
    SquareNonNegative(q - SlopeOf(xs, ys));
    SquareNonNegative(Offset(Mean(xs), Mean(ys), p, q));
    ProductNonNegative(Variation(xs, Mean(xs)), Square(q - SlopeOf(xs, ys)));
    ProductNonNegative(|xs| as real, Square(Offset(Mean(xs), Mean(ys), p, q)));
  }

  lemma NoOffset(xs: seq<real>, ys: seq<real>, p: real, q: real)
    requires |xs| == |ys| && xs != [] && Variation(xs, Mean(xs)) != 0.0
    ensures IsFittedLine(xs, ys, p, q) <==> q == SlopeOf(xs, ys) && Offset(Mean(xs), Mean(ys), p, q) == 0.0
  {
    hide Mean;
    hide SlopeOf;
    hide Variation;
  }

  lemma {:induction false} ErrorNonNegative(xs: seq<real>, ys: seq<real>, p: real, q: real)
    requires |xs| == |ys|
    ensures SquaredError(xs, ys, p, q) >= 0.0
    ensures SquaredError(xs, ys, p, q) == 0.0 <==> OnLine(xs, ys, p, q)
  {
    hide Square;
    if xs != [] {
      SquareNonNegative(ys[0] - (p + q * xs[0]));
      ErrorNonNegative(xs[1..], ys[1..], p, q);
      OnLineStep(xs, ys, p, q);
    }
  }

  // Every point lies on the line y = p + q * x.
  predicate OnLine(xs: seq<real>, ys: seq<real>, p: real, q: real)
    requires |xs| == |ys|
  {
    forall i :: 0 <= i < |xs| ==> ys[i] == p + q * xs[i]
  }

  lemma OnLineStep(xs: seq<real>, ys: seq<real>, p: real, q: real)
    requires |xs| == |ys| && xs != []
    ensures OnLine(xs, ys, p, q) <==> ys[0] == p + q * xs[0] && OnLine(xs[1..], ys[1..], p, q)
  {
    if ys[0] == p + q * xs[0] && OnLine(xs[1..], ys[1..], p, q) {
      forall i | 0 <= i < |xs| ensures ys[i] == p + q * xs[i] {
        if i > 0 { assert ys[1..][i - 1] == p + q * xs[1..][i - 1]; }
      }
    }
    if OnLine(xs, ys, p, q) {
      forall i | 0 <= i < |xs[1..]| ensures ys[1..][i] == p + q * xs[1..][i] {
        assert ys[i + 1] == p + q * xs[i + 1];
      }
    }
  }

  /** The residual lies between zero and the total, so that the clamp of the confidence never acts. */
  lemma ClampNeverActs(xs: seq<real>, ys: seq<real>)
    requires |xs| == |ys| && xs != [] && Variation(xs, Mean(xs)) != 0.0
    ensures 0.0 <= ResidualOf(xs, ys) <= Variation(ys, Mean(ys))
    ensures Variation(ys, Mean(ys)) != 0.0 ==>
              0.0 <= 1.0 - ResidualOf(xs, ys) / Variation(ys, Mean(ys)) <= 1.0
              && FitOf(xs, ys).confidence == 1.0 - ResidualOf(xs, ys) / Variation(ys, Mean(ys))
  {
    var mx, my, slope := Mean(xs), Mean(ys), SlopeOf(xs, ys);
    ResidualIsError(xs, ys, mx, my, slope);
    ErrorNonNegative(xs, ys, my - slope * mx, slope);
    FittedLineIsBest(xs, ys, my, 0.0);
    FlatLineError(xs, ys, my);
    VariationNonNegative(ys, my);
    if Variation(ys, my) != 0.0 { QuotientInUnit(ResidualOf(xs, ys), Variation(ys, my)); }
  }

  lemma QuotientInUnit(a: real, b: real)
    requires 0.0 <= a <= b && b > 0.0
    ensures 0.0 <= a / b <= 1.0 && (a / b == 0.0 <==> a == 0.0)
  {
    assert a / b * b == a;
  }

  lemma {:induction false} FlatLineError(xs: seq<real>, ys: seq<real>, m: real)
    requires |xs| == |ys|
    ensures SquaredError(xs, ys, m, 0.0) == Variation(ys, m)
  {
    hide Square;
    if xs != [] {
      FlatLineError(xs[1..], ys[1..], m);
    }
  }

  /** The confidence is one exactly when the points lie on a line, and then the slope is that line's. */
  lemma FullConfidenceIffLinear(xs: seq<real>, ys: seq<real>)
    requires |xs| == |ys| && xs != [] && Variation(xs, Mean(xs)) != 0.0
    ensures FitOf(xs, ys).confidence == 1.0 <==> exists p, q :: OnLine(xs, ys, p, q)
    ensures forall p, q :: OnLine(xs, ys, p, q) ==> FitOf(xs, ys).slopePerDay == q
  {
    var mx, my, slope := Mean(xs), Mean(ys), SlopeOf(xs, ys);
    var total := Variation(ys, my);
    ClampNeverActs(xs, ys);
    ResidualIsError(xs, ys, mx, my, slope);
    ErrorNonNegative(xs, ys, my - slope * mx, slope);
    if total != 0.0 { QuotientInUnit(ResidualOf(xs, ys), total); }
    assert FitOf(xs, ys).confidence == 1.0 <==> ResidualOf(xs, ys) == 0.0;
    forall p, q | OnLine(xs, ys, p, q) ensures slope == q && ResidualOf(xs, ys) == 0.0 {
      ErrorNonNegative(xs, ys, p, q);
      FittedLineIsBest(xs, ys, p, q);
    }
  }

  lemma {:induction false} DaysAndValuesAt(history: seq<Sample>, first: real)
    ensures forall i :: 0 <= i < |history| ==>
              Days(history, first)[i] == (history[i].timestamp - first) / DAY_MS && Values(history)[i] == history[i].value
  {
    if history != [] {
      DaysAndValuesAt(history[1..], first);
    }
  }

  lemma ConfidenceIsExplained(xs: seq<real>, ys: seq<real>)
    requires |xs| == |ys| && xs != [] && Variation(xs, Mean(xs)) != 0.0 && Variation(ys, Mean(ys)) != 0.0
    ensures FitOf(xs, ys).confidence
            == Explained(Covariation(xs, ys, Mean(xs), Mean(ys)), Variation(xs, Mean(xs))) / Variation(ys, Mean(ys))
  {
    ClampNeverActs(xs, ys);
    ResidualFormula(xs, ys);
    hide FitOf;
    hide Mean;
    hide Variation;
    hide Covariation;
    hide Explained;
    hide ResidualOf;
    ExplainedPart(Variation(ys, Mean(ys)), Explained(Covariation(xs, ys, Mean(xs), Mean(ys)), Variation(xs, Mean(xs))));
  }

  lemma ExplainedPart(total: real, explained: real)
    requires total != 0.0
    ensures 1.0 - (total - explained) / total == explained / total
  {
    assert (total - explained) / total == total / total - explained / total;
  }

  lemma SlopeIsFitted(xs: seq<real>, ys: seq<real>)
    requires |xs| == |ys| && xs != [] && Variation(xs, Mean(xs)) != 0.0
    ensures IsFittedLine(xs, ys, Mean(ys) - FitOf(xs, ys).slopePerDay * Mean(xs), FitOf(xs, ys).slopePerDay)
  {
    assert FitOf(xs, ys).slopePerDay == SlopeOf(xs, ys);
    hide FitOf;
    hide SlopeOf;
    hide Mean;
    hide Variation;
  }

  // The trend is the slope of the line of least squares, and the part of the variation that line explains.
  predicate IsTheFit(xs: seq<real>, ys: seq<real>, trend: Trend)
    requires |xs| == |ys| && xs != []
  {
    if Variation(xs, Mean(xs)) == 0.0 then trend == Trend(0.0, 0.0)
    else
      && IsFittedLine(xs, ys, Mean(ys) - trend.slopePerDay * Mean(xs), trend.slopePerDay)
      && trend.confidence
         == if Variation(ys, Mean(ys)) == 0.0 then 1.0
            else Explained(Covariation(xs, ys, Mean(xs), Mean(ys)), Variation(xs, Mean(xs))) / Variation(ys, Mean(ys))
  }

  lemma FlatConfidence(xs: seq<real>, ys: seq<real>)
    requires |xs| == |ys| && xs != []
    ensures Variation(xs, Mean(xs)) == 0.0 ==> FitOf(xs, ys) == Trend(0.0, 0.0)
    ensures Variation(xs, Mean(xs)) != 0.0 && Variation(ys, Mean(ys)) == 0.0 ==> FitOf(xs, ys).confidence == 1.0
  {
    hide Variation;
    hide Mean;
    hide Covariation;
    hide Residual;
  }

  lemma FitIsTheFit(xs: seq<real>, ys: seq<real>)
    requires |xs| == |ys| && xs != []
    ensures IsTheFit(xs, ys, FitOf(xs, ys))
  {
    hide FitOf;
    hide Variation;
    hide Mean;
    hide Covariation;
    hide Explained;
    hide IsFittedLine;
    FlatConfidence(xs, ys);
    if Variation(xs, Mean(xs)) != 0.0 {
      SlopeIsFitted(xs, ys);
      if Variation(ys, Mean(ys)) != 0.0 { ConfidenceIsExplained(xs, ys); }
    }
  }

  /** A history of at least two samples gets the fit of its values over the days since the first. */
  lemma TrendIsTheFit(history: seq<Sample>)
    requires |history| >= 2
    ensures var xs, ys := Days(history, history[0].timestamp), Values(history);
            && (forall i :: 0 <= i < |history| ==> xs[i] == (history[i].timestamp - history[0].timestamp) / 86_400_000.0
                                                   && ys[i] == history[i].value)
            && IsTheFit(xs, ys, CalculateTrend(history))
  {
    DaysAndValuesAt(history, history[0].timestamp);
    FitIsTheFit(Days(history, history[0].timestamp), Values(history));
    hide FitOf;
    hide IsTheFit;
  }

  // The line of values p + q * days since the first sample.
  predicate OnDailyLine(history: seq<Sample>, p: real, q: real) {
    forall i {:trigger history[i]} :: 0 <= i < |history| ==>
      history[i].value == p + q * ((history[i].timestamp - history[0].timestamp) / 86_400_000.0)
  }

  /** A history on a line, with two different times, is given that line's daily slope and confidence one. */
  lemma LinearHistoryIsRecovered(history: seq<Sample>, p: real, q: real, k: nat)
    requires k < |history| && history[k].timestamp != history[0].timestamp && OnDailyLine(history, p, q)
    ensures CalculateTrend(history) == Trend(q, 1.0)
  {
    var first := history[0].timestamp;
    var xs, ys := Days(history, first), Values(history);
    DaysAndValuesAt(history, first);
    forall i | 0 <= i < |xs| ensures ys[i] == p + q * xs[i] {
      assert history[i].value == p + q * ((history[i].timestamp - first) / DAY_MS);
    }
    assert OnLine(xs, ys, p, q);
    VariationNonNegative(xs, Mean(xs));
    DifferentDays(history[k].timestamp - first, history[0].timestamp - first);
    assert Variation(xs, Mean(xs)) != 0.0;
    FullConfidenceIffLinear(xs, ys);
  }

  lemma DifferentDays(a: real, b: real)
    requires a != b
    ensures a / DAY_MS != b / DAY_MS
  {
    assert a / DAY_MS * DAY_MS == a && b / DAY_MS * DAY_MS == b;
  }

  /** The confidence of every history lies between zero and one, and one sample or one time gives no trend. */
  lemma ConfidenceInUnit(history: seq<Sample>)
    ensures 0.0 <= CalculateTrend(history).confidence <= 1.0
    ensures (forall i :: 0 <= i < |history| ==> history[i].timestamp == history[0].timestamp) ==>
              CalculateTrend(history) == Trend(0.0, 0.0)
  {
    if |history| >= 2 && forall i :: 0 <= i < |history| ==> history[i].timestamp == history[0].timestamp {
      var first := history[0].timestamp;
      var xs := Days(history, first);
      DaysAndValuesAt(history, first);
      assert forall i :: 0 <= i < |xs| ==> xs[i] == 0.0;
      VariationNonNegative(xs, 0.0);
      DeviationOfSum(xs, 0.0);
      NothingDeviates(xs);
      assert Mean(xs) == 0.0;
    }
  }

  lemma {:induction false} NothingDeviates(xs: seq<real>)
    requires forall i :: 0 <= i < |xs| ==> xs[i] == 0.0
    ensures Sum(xs) == 0.0
  {
    if xs != [] {
      NothingDeviates(xs[1..]);
    }
  }

  // ---------------------------------------------------------------- recording samples

  predicate LeqTime(a: Sample, b: Sample) { a.timestamp <= b.timestamp }

  lemma LeqTimeIsTotal()
    ensures TotalPreorder(LeqTime)
  {
  }

  // The samples of a resource that are not older than the cutoff, in their order.
  function Retained(samples: seq<Sample>, cutoff: real): seq<Sample> {
    if samples == [] then []
    else
      var last := samples[|samples| - 1];
      Retained(samples[..|samples| - 1], cutoff) + if last.timestamp >= cutoff then [last] else []
  }

  method FilterRetained(samples: seq<Sample>, cutoff: real) returns (kept: seq<Sample>)
    ensures kept == Retained(samples, cutoff)
  {
    kept := [];
    for i := 0 to |samples|
      invariant kept == Retained(samples[..i], cutoff)
    {
      assert samples[..i + 1][..i] == samples[..i];
      if samples[i].timestamp >= cutoff {
        kept := kept + [samples[i]];
      }
    }
    assert samples[..|samples|] == samples;
  }

  method RecordInto(before: seq<Sample>, sample: Sample, cutoff: real) returns (history: seq<Sample>)
    ensures history == Recorded(before, sample, cutoff)
  {
    var retained := FilterRetained(before, cutoff);
    retained := retained + [sample];
    return Sort(retained, LeqTime);
  }

  function Recorded(before: seq<Sample>, sample: Sample, cutoff: real): seq<Sample> {
    Sort(Retained(before, cutoff) + [sample], LeqTime)
  }

  function HistoryOf(samples: map<string, seq<Sample>>, key: string): seq<Sample> {
    if key in samples then samples[key] else []
  }

  class CapacityPlanner {
    var samples: map<string, seq<Sample>>
    const retentionMs: real

    constructor (days: real)
      ensures samples == map[] && retentionMs == days * DAY_MS
    {
      samples := map[];
      retentionMs := days * DAY_MS;
    }

    // record, for a sample that passed its validation.
    method Record(key: string, sample: Sample, now: real)
      modifies this`samples
      ensures samples == old(samples)[key := Recorded(HistoryOf(old(samples), key), sample, now - retentionMs)]
    {
      var cutoff := now - retentionMs;
      hide Recorded;
      var history := RecordInto(HistoryOf(samples, key), sample, cutoff);
      samples := samples[key := history];
    }
  }

  lemma {:induction false} RetainedSamples(samples: seq<Sample>, cutoff: real, s: Sample)
    ensures s in Retained(samples, cutoff) <==> s in samples && s.timestamp >= cutoff
  {
    if samples != [] {
      var front, last := samples[..|samples| - 1], samples[|samples| - 1];
      RetainedSamples(front, cutoff, s);
      assert samples == front + [last];
    }
  }

  lemma {:induction false} RetainedCounts(samples: seq<Sample>, cutoff: real, s: Sample)
    ensures multiset(Retained(samples, cutoff))[s] == if s.timestamp >= cutoff then multiset(samples)[s] else 0
  {
    if samples != [] {
      var front, last := samples[..|samples| - 1], samples[|samples| - 1];
      RetainedCounts(front, cutoff, s);
      assert samples == front + [last];
    }
  }

  /** After a record the history is sorted by time, and holds the new sample and exactly the old ones not yet expired. */
  lemma RecordKeepsHistory(before: seq<Sample>, sample: Sample, cutoff: real)
    ensures var after := Recorded(before, sample, cutoff);
            && SortedBy(after, LeqTime)
            && (forall s :: multiset(after)[s] == (if s.timestamp >= cutoff then multiset(before)[s] else 0) + (if s == sample then 1 else 0))
            && forall s :: s in after <==> s == sample || (s in before && s.timestamp >= cutoff)
  {
    var kept := Retained(before, cutoff) + [sample];
    LeqTimeIsTotal();
    SortIsSorted(kept, LeqTime);
    SortKeepsElements(kept, LeqTime);
    forall s ensures s in kept <==> s == sample || (s in before && s.timestamp >= cutoff) {
      RetainedSamples(before, cutoff, s);
    }
    forall s ensures multiset(kept)[s] == (if s.timestamp >= cutoff then multiset(before)[s] else 0) + (if s == sample then 1 else 0) {
      RetainedCounts(before, cutoff, s);
    }
  }
}
