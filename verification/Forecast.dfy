/** The linear trend of a daily series and the projection drawn from it. Floating-point numbers are
    idealised as reals. */
module Forecast {

  function Sum(v: seq<real>): real {
    if v == [] then 0.0 else Sum(v[..|v| - 1]) + v[|v| - 1]
  }

  function Mean(v: seq<real>): real
    requires v != []
  {
    Sum(v) / |v| as real
  }

  /** The middle of the positions 0, 1, ..., n - 1. */
  function Middle(n: nat): real {
    (n as real - 1.0) / 2.0
  }

  function Times(x: real, y: real): real {
    x * y
  }

  function Square(x: real): (s: real)
    ensures s >= 0.0
  {
    x * x
  }

  /** The level that a line reaches after `step` days. */
  function Trend(level: real, slope: real, step: int): real {
    level + slope * step as real
  }

  /** Sum of (i - x) * (v[i] - y). */
  function Covariation(v: seq<real>, x: real, y: real): real {
    if v == [] then 0.0
    else Covariation(v[..|v| - 1], x, y) + Times((|v| - 1) as real - x, v[|v| - 1] - y)
  }

  /** Sum of (i - x) squared, over the positions below n. */
  function Variation(n: nat, x: real): real {
    if n == 0 then 0.0 else Variation(n - 1, x) + Square((n - 1) as real - x)
  }

  function LinearSlope(v: seq<real>): real {
    if |v| < 2 then 0.0
    else
      var den := Variation(|v|, Middle(|v|));
      if den == 0.0 then 0.0 else Covariation(v, Middle(|v|), Mean(v)) / den
  }

  // ----- The denominator ----------------------------------------------------------------

  lemma {:induction false} VariationSum(n: nat, x: real)
    ensures 6.0 * Variation(n, x) == n as real * ((n as real - 1.0) * (2.0 * n as real - 1.0)
      - 6.0 * x * (n as real - 1.0) + 6.0 * x * x)
  {
    if n > 0 {
      VariationSum(n - 1, x);
      VariationStep(n as real - 1.0, x);
    }
  }

  lemma VariationStep(m: real, x: real)
    ensures m * ((m - 1.0) * (2.0 * m - 1.0) - 6.0 * x * (m - 1.0) + 6.0 * x * x) + 6.0 * Square(m - x)
      == (m + 1.0) * (m * (2.0 * m + 1.0) - 6.0 * x * m + 6.0 * x * x)
  {
  }

  /** The denominator has the closed form n(n^2 - 1)/12, so that its zero test never fires from two values on. */
  lemma DenominatorClosedForm(n: nat)
    ensures 12.0 * Variation(n, Middle(n)) == n as real * (n as real * n as real - 1.0)
    ensures n >= 2 ==> Variation(n, Middle(n)) > 0.0
  {
    hide Variation;
    VariationSum(n, Middle(n));
    var r := n as real;
    ClosedForm(r, Middle(n));
    if n >= 2 {
      SameSign(r - 1.0, r + 1.0);
      assert (r - 1.0) * (r + 1.0) == r * r - 1.0;
      SameSign(r, r * r - 1.0);
    }
  }

  lemma SameSign(x: real, y: real)
    requires (x > 0.0 && y > 0.0) || (x < 0.0 && y < 0.0)
    ensures x * y > 0.0
  {
  }

  lemma ClosedForm(r: real, x: real)
    requires 2.0 * x == r - 1.0
    ensures 2.0 * (r * ((r - 1.0) * (2.0 * r - 1.0) - 6.0 * x * (r - 1.0) + 6.0 * x * x)) == r * (r * r - 1.0)
  {
    assert x == (r - 1.0) / 2.0;
    assert 6.0 * x * (r - 1.0) == 3.0 * (r - 1.0) * (r - 1.0);
    assert 6.0 * x * x == 1.5 * (r - 1.0) * (r - 1.0);
  }

  // ----- Least squares ------------------------------------------------------------------

  /** How far a value lies above the line through (0, a) with slope b. */
  function Residual(w: real, a: real, b: real, i: nat): real {
    w - Trend(a, b, i)
  }

  /** The squared error of that line. */
  function SquaredError(v: seq<real>, a: real, b: real): real {
    if v == [] then 0.0
    else SquaredError(v[..|v| - 1], a, b) + Square(Residual(v[|v| - 1], a, b, |v| - 1))
  }

  function Residuals(v: seq<real>, a: real, b: real): real {
    if v == [] then 0.0
    else Residuals(v[..|v| - 1], a, b) + Residual(v[|v| - 1], a, b, |v| - 1)
  }

  /** Sum of the residuals weighted by their positions. */
  function Moments(v: seq<real>, a: real, b: real): real {
    if v == [] then 0.0
    else Moments(v[..|v| - 1], a, b) + Times((|v| - 1) as real, Residual(v[|v| - 1], a, b, |v| - 1))
  }

  /** Sum of (p + q * i) squared: how far two lines are apart. */
  function Apart(n: nat, p: real, q: real): (d: real)
    ensures d >= 0.0
  {
    if n == 0 then 0.0 else Apart(n - 1, p, q) + Square(Trend(p, q, n - 1))
  }

  lemma Distribute(x: real, y: real, z: real)
    ensures Times(x, y + z) == Times(x, y) + Times(x, z)
  {
  }

  lemma MovedSquare(w: real, a: real, b: real, p: real, q: real, i: nat)
    ensures var e := Residual(w, a, b, i);
      Square(Residual(w, a + p, b + q, i)) ==
      Square(e) - 2.0 * Times(p, e) - 2.0 * Times(q, Times(i as real, e)) + Square(Trend(p, q, i))
  {
    var x := i as real;
    var e, d := Residual(w, a, b, i), Trend(p, q, i);
    assert (b + q) * x == b * x + q * x;
    assert Residual(w, a + p, b + q, i) == e - d;
    assert (e - d) * (e - d) == e * e - 2.0 * (d * e) + d * d;
    assert d * e == p * e + (q * x) * e;
    assert (q * x) * e == q * (x * e);
  }

  /** What moving a line by p and q does to its squared error. */
  lemma {:induction false} MovedError(v: seq<real>, a: real, b: real, p: real, q: real)
    ensures SquaredError(v, a + p, b + q) ==
      SquaredError(v, a, b) - 2.0 * Times(p, Residuals(v, a, b)) - 2.0 * Times(q, Moments(v, a, b)) + Apart(|v|, p, q)
  {
    hide Square, Residual, Trend, Times;
    if v == [] {
      TimesNothing(p);
      TimesNothing(q);
    } else {
      var n := |v| - 1;
      var e := Residual(v[n], a, b, n);
      MovedError(v[..n], a, b, p, q);
      MovedSquare(v[n], a, b, p, q, n);
      Distribute(p, Residuals(v[..n], a, b), e);
      Distribute(q, Moments(v[..n], a, b), Times(n as real, e));
    }
  }

  lemma TimesNothing(x: real)
    ensures Times(x, 0.0) == 0.0
  {
  }

  lemma SquareOfOther(x: real)
    ensures Square(x) == 0.0 <==> x == 0.0
  {
    if x == 0.0 {
      TimesNothing(x);
      assert Square(x) == Times(x, x);
    } else if x > 0.0 {
      PositiveTimes(x, x);
      assert Square(x) == Times(x, x);
    } else {
      PositiveTimes(-x, -x);
      assert Square(x) == Times(-x, -x);
    }
  }

  lemma PositiveTimes(x: real, y: real)
    requires x > 0.0 && y > 0.0
    ensures Times(x, y) > 0.0
  {
  }

  lemma {:induction false} ApartOnlyIfDifferent(n: nat, p: real, q: real)
    requires n >= 2
    ensures Apart(n, p, q) == 0.0 <==> p == 0.0 && q == 0.0
  {
    hide Square;
    SquareOfOther(0.0);
    if n > 2 {
      ApartOnlyIfDifferent(n - 1, p, q);
      if p == 0.0 && q == 0.0 {
        assert Trend(p, q, n - 1) == 0.0;
      }
    } else {
      assert Apart(2, p, q) == Apart(1, p, q) + Square(Trend(p, q, 1));
      assert Apart(1, p, q) == Apart(0, p, q) + Square(Trend(p, q, 0));
      SquareOfOther(Trend(p, q, 0));
      SquareOfOther(Trend(p, q, 1));
    }
  }

  /** The line that the slope belongs to: through the middle of the series. */
  function Intercept(v: seq<real>): real
    requires v != []
  {
    Mean(v) - Times(LinearSlope(v), Middle(|v|))
  }

  function PositionSum(n: nat): real {
    if n == 0 then 0.0 else PositionSum(n - 1) + (n - 1) as real
  }

  lemma {:induction false} PositionSumClosed(n: nat)
    ensures PositionSum(n) == Times(n as real, Middle(n))
  {
    if n > 0 {
      PositionSumClosed(n - 1);
      assert Middle(n) == Middle(n - 1) + 0.5;
      assert n as real == (n - 1) as real + 1.0;
    }
  }

  /** A residual of a line through (x, y), measured from there. */
  lemma CentredResidual(i: nat, w: real, x: real, y: real, b: real)
    ensures var e := Residual(w, y - Times(b, x), b, i);
      && e == (w - y) - Times(b, i as real - x)
      && Times(i as real, e) - Times(x, e) == Times(i as real - x, w - y) - Times(b, Square(i as real - x))
  {
    var r := i as real;
    var e := Residual(w, y - Times(b, x), b, i);
    assert b * (r - x) == b * r - b * x;
    assert e == (w - y) - b * (r - x);
    assert (r - x) * e == (r - x) * (w - y) - (r - x) * (b * (r - x));
    assert (r - x) * (b * (r - x)) == b * ((r - x) * (r - x));
    assert r * e - x * e == (r - x) * e;
  }

  lemma {:induction false} CentredResiduals(v: seq<real>, x: real, y: real, b: real)
    ensures Residuals(v, y - Times(b, x), b) ==
      Sum(v) - Times(|v| as real, y) - Times(b, PositionSum(|v|) - Times(|v| as real, x))
  {
    hide Residual, Times;
    if v == [] {
      NothingTimes(x);
      NothingTimes(y);
      TimesNothing(b);
    } else {
      var n := |v| - 1;
      CentredResiduals(v[..n], x, y, b);
      CentredResidual(n, v[n], x, y, b);
      OneMore(n, x);
      OneMore(n, y);
      Distribute(b, PositionSum(n) - Times(n as real, x), n as real - x);
    }
  }

  lemma NothingTimes(x: real)
    ensures Times(0.0, x) == 0.0
  {
  }

  lemma OneMore(n: nat, x: real)
    ensures Times((n + 1) as real, x) == Times(n as real, x) + x
  {
  }

  lemma {:induction false} CentredMoments(v: seq<real>, x: real, y: real, b: real)
    ensures Moments(v, y - Times(b, x), b) - Times(x, Residuals(v, y - Times(b, x), b)) ==
      Covariation(v, x, y) - Times(b, Variation(|v|, x))
  {
    hide Residual, Times, Square;
    if v == [] {
      TimesNothing(x);
      TimesNothing(b);
    } else {
      var n := |v| - 1;
      var a := y - Times(b, x);
      CentredMoments(v[..n], x, y, b);
      CentredResidual(n, v[n], x, y, b);
      Distribute(x, Residuals(v[..n], a, b), Residual(v[n], a, b, n));
      Distribute(b, Variation(n, x), Square(n as real - x));
    }
  }

  /** The normal equations: neither the residuals nor their moments leave anything over. */
  lemma NormalEquations(v: seq<real>)
    requires |v| >= 2
    ensures Residuals(v, Intercept(v), LinearSlope(v)) == 0.0
    ensures Moments(v, Intercept(v), LinearSlope(v)) == 0.0
  {
    hide Residuals, Moments, Covariation, Variation, Sum, PositionSum, Times, Middle;
    var n := |v| as real;
    var b, x, y := LinearSlope(v), Middle(|v|), Mean(v);
    DenominatorClosedForm(|v|);
    QuotientTimes(Covariation(v, x, y), Variation(|v|, x));
    QuotientTimes(Sum(v), n);
    CentredResiduals(v, x, y, b);
    PositionSumClosed(|v|);
    CentredMoments(v, x, y, b);
    TimesNothing(b);
    TimesNothing(x);
  }

  lemma QuotientTimes(a: real, b: real)
    requires b != 0.0
    ensures Times(a / b, b) == a && Times(b, a / b) == a
  {
  }

  /** No line fits the series better, and no other line fits it as well. */
  lemma SlopeIsLeastSquares(v: seq<real>, a: real, b: real)
    requires |v| >= 2
    ensures SquaredError(v, Intercept(v), LinearSlope(v)) <= SquaredError(v, a, b)
    ensures SquaredError(v, Intercept(v), LinearSlope(v)) == SquaredError(v, a, b) <==>
      a == Intercept(v) && b == LinearSlope(v)
  {
    hide SquaredError, Intercept, LinearSlope, Apart, Residuals, Moments, Times;
    var p, q := a - Intercept(v), b - LinearSlope(v);
    NormalEquations(v);
    MovedError(v, Intercept(v), LinearSlope(v), p, q);
    ApartOnlyIfDifferent(|v|, p, q);
    TimesNothing(p);
    TimesNothing(q);
  }

  predicate OnLine(v: seq<real>, a: real, b: real) {
    forall i :: 0 <= i < |v| ==> v[i] == Trend(a, b, i)
  }

  lemma {:induction false} LineHasNoError(v: seq<real>, a: real, b: real)
    requires OnLine(v, a, b)
    ensures SquaredError(v, a, b) == 0.0
  {
    if v != [] {
      LineHasNoError(v[..|v| - 1], a, b);
    }
  }

  lemma ErrorsArePositive(v: seq<real>, a: real, b: real)
    ensures SquaredError(v, a, b) >= 0.0
  {
  }

  /** A series that lies on a line gives back that line. */
  lemma LineIsRecovered(v: seq<real>, a: real, b: real)
    requires |v| >= 2 && OnLine(v, a, b)
    ensures LinearSlope(v) == b && Intercept(v) == a
  {
    hide SquaredError, LinearSlope, Intercept;
    LineHasNoError(v, a, b);
    ErrorsArePositive(v, Intercept(v), LinearSlope(v));
    SlopeIsLeastSquares(v, a, b);
  }

  // ----- The projection -----------------------------------------------------------------

  datatype Projection = Projection(baseline: real, slope: real, daily: real, total: real, sourceDays: nat)

  /** Too few values, or no value to average. */
  datatype Result = Ok(projection: Projection) | NotEnoughData | NoData

  /** The values that Python's `values[-m:]` keeps. */
  function Tail(values: seq<real>, m: int): (tail: seq<real>)
    ensures 0 < m <= |values| ==> |tail| == m
    ensures |tail| <= |values| && tail == values[|values| - |tail|..]
  {
    if m > |values| then values
    else if m > 0 then values[|values| - m..]
    else if -m <= |values| then values[-m..]
    else []
  }

  function Min(a: int, b: int): int {
    if a < b then a else b
  }

  function Clamped(x: real): real {
    if x < 0.0 then 0.0 else x
  }

  /** The expected values of the next `horizon` days. */
  function Projected(baseline: real, slope: real, horizon: nat): (days: seq<real>)
    ensures |days| == horizon
    ensures forall k :: 0 <= k < horizon ==> days[k] == Clamped(Trend(baseline, slope, k + 1))
  {
    seq(horizon, k requires 0 <= k < horizon => Clamped(Trend(baseline, slope, k + 1)))
  }

  function BuildForecast(values: seq<real>, horizon: int, minDays: int, lookback: int): Result {
    var window := Tail(values, Min(|values|, lookback));
    if |values| < minDays then NotEnoughData
    else if window == [] then NoData
    else
      var days := Projected(Mean(window), LinearSlope(window), if horizon < 0 then 0 else horizon);
      Ok(Projection(Mean(window), LinearSlope(window),
        if days == [] then Mean(window) else days[|days| - 1], Sum(days), |window|))
  }

  /** There is no forecast exactly when the history is too short or empty; a horizon of nothing expects the mean. */
  lemma ForecastFailsIff(values: seq<real>, horizon: int, minDays: int, lookback: nat)
    ensures BuildForecast(values, horizon, minDays, lookback) == NotEnoughData <==> |values| < minDays
    ensures BuildForecast(values, horizon, minDays, lookback) == NoData <==> |values| >= minDays && values == []
    ensures BuildForecast(values, horizon, minDays, lookback).Ok? && horizon <= 0 ==>
      var p := BuildForecast(values, horizon, minDays, lookback).projection;
      p.daily == p.baseline && p.total == 0.0
  {
    hide LinearSlope, Mean;
  }

  /** A forecast is drawn from the last `lookback` values (from all of them when that is zero): its baseline and
      slope are those of the line that fits these values best, and its daily value is where the projection ends. */
  lemma ForecastFitsWindow(values: seq<real>, horizon: nat, minDays: int, lookback: nat, a: real, b: real)
    requires BuildForecast(values, horizon, minDays, lookback).Ok?
    ensures var p := BuildForecast(values, horizon, minDays, lookback).projection;
      && p.sourceDays == (if 0 < lookback < |values| then lookback else |values|)
      && var window := values[|values| - p.sourceDays..];
      && Times(p.sourceDays as real, p.baseline) == Sum(window)
      && (p.sourceDays >= 2 ==>
        SquaredError(window, p.baseline - Times(p.slope, Middle(p.sourceDays)), p.slope) <= SquaredError(window, a, b))
      && (horizon > 0 ==> p.daily == Clamped(Trend(p.baseline, p.slope, horizon)))
  {
    hide LinearSlope, Sum, SquaredError, Times, Middle, Trend;
    var window := Tail(values, Min(|values|, lookback));
    QuotientTimes(Sum(window), |window| as real);
    if |window| >= 2 {
      SlopeIsLeastSquares(window, a, b);
    }
  }

  /** What the projected days would add up to if none were clamped. */
  function UnclampedTotal(baseline: real, slope: real, horizon: nat): real {
    horizon as real * baseline + slope * (horizon as real * (horizon as real + 1.0) / 2.0)
  }

  predicate NeverNegative(baseline: real, slope: real, horizon: nat) {
    forall k :: 0 < k <= horizon ==> Trend(baseline, slope, k) >= 0.0
  }

  lemma {:induction false} TotalAgainstSeries(baseline: real, slope: real, horizon: nat)
    ensures Sum(Projected(baseline, slope, horizon)) >= UnclampedTotal(baseline, slope, horizon)
    ensures Sum(Projected(baseline, slope, horizon)) == UnclampedTotal(baseline, slope, horizon)
      <==> NeverNegative(baseline, slope, horizon)
  {
    if horizon == 0 {
      assert UnclampedTotal(baseline, slope, 0) == 0.0;
    } else {
      hide UnclampedTotal, Trend;
      var h := horizon - 1;
      TotalAgainstSeries(baseline, slope, h);
      var days := Projected(baseline, slope, horizon);
      assert days[..h] == Projected(baseline, slope, h);
      UnclampedNext(baseline, slope, h);
      var last := Trend(baseline, slope, horizon);
      assert days[h] == Clamped(last);
      assert NeverNegative(baseline, slope, horizon) <==> NeverNegative(baseline, slope, h) && last >= 0.0;
    }
  }

  lemma UnclampedNext(baseline: real, slope: real, h: nat)
    ensures UnclampedTotal(baseline, slope, h + 1) == UnclampedTotal(baseline, slope, h) + Trend(baseline, slope, h + 1)
  {
    SeriesStep(baseline, slope, h as real);
    assert (h + 1) as real == h as real + 1.0;
    assert h as real + 1.0 + 1.0 == h as real + 2.0;
  }

  lemma SeriesStep(baseline: real, slope: real, h: real)
    ensures (h + 1.0) * baseline + slope * ((h + 1.0) * (h + 2.0) / 2.0)
      == h * baseline + slope * (h * (h + 1.0) / 2.0) + (baseline + slope * (h + 1.0))
  {
    assert (h + 1.0) * (h + 2.0) / 2.0 == h * (h + 1.0) / 2.0 + (h + 1.0);
  }

  /** The total never falls below the closed form of the arithmetic series, and equals it exactly when no
      projected day is negative. */
  lemma ForecastTotal(values: seq<real>, horizon: nat, minDays: int, lookback: int)
    requires BuildForecast(values, horizon, minDays, lookback).Ok?
    ensures var p := BuildForecast(values, horizon, minDays, lookback).projection;
      && p.total >= UnclampedTotal(p.baseline, p.slope, horizon)
      && (p.total == UnclampedTotal(p.baseline, p.slope, horizon) <==> NeverNegative(p.baseline, p.slope, horizon))
  {
    hide UnclampedTotal, NeverNegative, Sum, Mean, LinearSlope;
    var window := Tail(values, Min(|values|, lookback));
    TotalAgainstSeries(Mean(window), LinearSlope(window), horizon);
  }

  /** The fitted line, `step` days after the last value. */
  function Extrapolated(v: seq<real>, step: nat): real
    requires v != []
  {
    Trend(Intercept(v), LinearSlope(v), |v| - 1 + step)
  }

  /** The projection starts at the mean, which is the height of the fitted line in the middle of the window:
      it stays behind the line by half a window of trend, and meets it exactly when there is no trend. */
  lemma ProjectionLagsTrend(v: seq<real>, step: nat)
    requires v != []
    ensures Extrapolated(v, step) - Trend(Mean(v), LinearSlope(v), step) == LinearSlope(v) * Middle(|v|)
    ensures Extrapolated(v, step) == Trend(Mean(v), LinearSlope(v), step) <==> LinearSlope(v) == 0.0
  {
    hide LinearSlope, Mean;
    var b := LinearSlope(v);
    assert (|v| - 1 + step) as real == 2.0 * Middle(|v|) + step as real;
    assert b * (2.0 * Middle(|v|) + step as real) == 2.0 * (b * Middle(|v|)) + b * step as real;
    if |v| == 1 {
      SingleValueHasNoSlope(v);
    } else {
      assert Middle(|v|) > 0.0;
      if b != 0.0 {
        NonZeroProduct(b, Middle(|v|));
      }
    }
  }

  lemma NonZeroProduct(x: real, y: real)
    requires x != 0.0 && y > 0.0
    ensures x * y != 0.0
  {
  }

  lemma SingleValueHasNoSlope(v: seq<real>)
    requires |v| == 1
    ensures LinearSlope(v) == 0.0
  {
  }

  /** A flat history is projected as it is. */
  lemma FlatHistory(values: seq<real>, level: real, horizon: nat, minDays: int, lookback: int)
    requires level >= 0.0 && forall i :: 0 <= i < |values| ==> values[i] == level
    requires BuildForecast(values, horizon, minDays, lookback).Ok?
    ensures var p := BuildForecast(values, horizon, minDays, lookback).projection;
      p.baseline == level && p.slope == 0.0 && p.daily == level && p.total == horizon as real * level
  {
    hide LinearSlope, Sum, UnclampedTotal;
    var window := Tail(values, Min(|values|, lookback));
    FlatMean(window, level);
    FlatSlope(window, level);
    TotalAgainstSeries(level, 0.0, horizon);
    FlatTotal(level, horizon);
  }

  lemma FlatTotal(level: real, horizon: nat)
    requires level >= 0.0
    ensures UnclampedTotal(level, 0.0, horizon) == horizon as real * level && NeverNegative(level, 0.0, horizon)
  {
  }

  lemma FlatSlope(v: seq<real>, level: real)
    requires forall i :: 0 <= i < |v| ==> v[i] == level
    ensures LinearSlope(v) == 0.0
  {
    hide Covariation, Variation, Mean;
    if |v| >= 2 {
      LineIsRecovered(v, level, 0.0);
    }
  }

  lemma {:induction false} FlatMean(v: seq<real>, level: real)
    requires v != [] && forall i :: 0 <= i < |v| ==> v[i] == level
    ensures Mean(v) == level
  {
    FlatSum(v, level);
  }

  lemma {:induction false} FlatSum(v: seq<real>, level: real)
    requires forall i :: 0 <= i < |v| ==> v[i] == level
    ensures Sum(v) == |v| as real * level
  {
    if v != [] {
      FlatSum(v[..|v| - 1], level);
      assert |v| as real == (|v| - 1) as real + 1.0;
    }
  }
}
