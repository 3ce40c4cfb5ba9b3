/** Correlations between strategies, from src/ai_optimizer/ensemble.py: Pearson on daily returns
    where there are enough trades, a table by strategy type otherwise. */
module Correlation {
  import opened PySeq
  import opened Reals
  import TimeOrder

  datatype StrategyType = Momentum | Breakout | Trend | MeanReversion | Volume | MultiTimeframe | BtcCorrelation | RegimeAdaptive

  // ---------------------------------------------------------------- Pearson

  function Dot(u: seq<real>, v: seq<real>): real
    requires |u| == |v|
  {
    if u == [] then 0.0 else Dot(u[..|u| - 1], v[..|v| - 1]) + u[|u| - 1] * v[|v| - 1]
  }

  function Deviations(x: seq<real>): (r: seq<real>)
    requires x != []
    ensures |r| == |x|
  {
    seq(|x|, i requires 0 <= i < |x| => x[i] - Sum(x) / |x| as real)
  }

  function Covariance(x: seq<real>, y: seq<real>): real
    requires |x| == |y| && x != []
  {
    Dot(Deviations(x), Deviations(y)) / |x| as real
  }

  /** `root` is the platform's square root. */
  function Pearson(x: seq<real>, y: seq<real>, root: real -> real): real
    requires |x| == |y|
  {
    if |x| < 2 then 0.0 else Normalised(Covariance(x, y), root(Covariance(x, x)), root(Covariance(y, y)))
  }

  function Normalised(cov: real, stdX: real, stdY: real): real {
    if stdX == 0.0 || stdY == 0.0 then 0.0
    else
      NonZeroProduct(stdX, stdY);
      cov / (stdX * stdY)
  }

  lemma NonZeroProduct(a: real, b: real)
    requires a != 0.0 && b != 0.0
    ensures a * b != 0.0
  {
    MulPositive(Abs(a), Abs(b));
    assert Abs(a) * Abs(b) == a * b || Abs(a) * Abs(b) == -(a * b);
  }

  ghost predicate IsSquareRoot(root: real -> real) {
    forall v :: v >= 0.0 ==> root(v) >= 0.0 && root(v) * root(v) == v
  }

  lemma SquareNonNegative(a: real)
    ensures a * a >= 0.0
  {
  }

  lemma StrictSquare(b: real, a: real)
    requires 0.0 <= b < a
    ensures b * b < a * a
  {
    MulPositive(a - b, a + b);
    assert (a - b) * (a + b) == a * a - b * b;
  }

  /** Comparing squares compares magnitudes. */
  lemma SquareOrder(a: real, b: real)
    requires b >= 0.0 && a * a <= b * b
    ensures -b <= a <= b
  {
    assert (-a) * (-a) == a * a;
    if a > b {
      StrictSquare(b, a);
    } else if -a > b {
      StrictSquare(b, -a);
    }
  }

  lemma {:induction false} DotSelf(u: seq<real>)
    ensures Dot(u, u) >= 0.0
  {
    if u == [] {
    } else {
      DotSelf(u[..|u| - 1]);
      SquareNonNegative(u[|u| - 1]);
    }
  }

  /** One more coordinate keeps c^2 <= a b. */
  lemma CauchyStep(a: real, b: real, c: real, p: real, q: real)
    requires a >= 0.0 && b >= 0.0 && c * c <= a * b
    ensures (c + p * q) * (c + p * q) <= (a + p * p) * (b + q * q)
  {
    var s, t := a * (q * q), b * (p * p);
    SquareNonNegative(p);
    SquareNonNegative(q);
    MulNonNegative(a, q * q);
    MulNonNegative(b, p * p);
    CrossTerm(a, b, c, p, q);
    SquareOrder(2.0 * (c * (p * q)), s + t);
    assert (c + p * q) * (c + p * q) == c * c + 2.0 * (c * (p * q)) + (p * q) * (p * q);
    assert (a + p * p) * (b + q * q) == a * b + s + t + (p * p) * (q * q);
    assert (p * q) * (p * q) == (p * p) * (q * q);
  }

  lemma CrossTerm(a: real, b: real, c: real, p: real, q: real)
    requires a >= 0.0 && b >= 0.0 && c * c <= a * b
    ensures var m, s, t := 2.0 * (c * (p * q)), a * (q * q), b * (p * p); m * m <= (s + t) * (s + t)
  {
    var m, s, t, r := 2.0 * (c * (p * q)), a * (q * q), b * (p * p), (p * q) * (p * q);
    SquareNonNegative(p * q);
    SquareNonNegative(s - t);
    assert m * m == 4.0 * ((c * c) * r);
    MulLe(c * c, a * b, r);
    assert s * t == (a * b) * r;
    assert (s + t) * (s + t) == (s - t) * (s - t) + 4.0 * (s * t);
  }

  lemma MulLe(a: real, b: real, n: real)
    requires a <= b && n >= 0.0
    ensures a * n <= b * n
  {
    MulNonNegative(b - a, n);
    Distribute(b, a, n);
  }

  /** Cauchy-Schwarz. */
  lemma {:induction false} CauchySchwarz(u: seq<real>, v: seq<real>)
    requires |u| == |v|
    ensures Dot(u, v) * Dot(u, v) <= Dot(u, u) * Dot(v, v)
  {
    if u == [] {
    } else {
      var n := |u| - 1;
      CauchySchwarz(u[..n], v[..n]);
      DotSelf(u[..n]);
      DotSelf(v[..n]);
      CauchyStep(Dot(u[..n], u[..n]), Dot(v[..n], v[..n]), Dot(u[..n], v[..n]), u[n], v[n]);
    }
  }

  lemma NormalisedRange(cov: real, stdX: real, stdY: real)
    requires stdX >= 0.0 && stdY >= 0.0 && cov * cov <= (stdX * stdX) * (stdY * stdY)
    ensures -1.0 <= Normalised(cov, stdX, stdY) <= 1.0
  {
    var s := stdX * stdY;
    MulNonNegative(stdX, stdY);
    assert (stdX * stdX) * (stdY * stdY) == s * s;
    SquareOrder(cov, s);
    if s > 0.0 {
      DivBounds(cov, s, -1.0, 1.0);
    }
  }

  /** Pearson's correlation lies in [-1, 1] on every pair of series of equal length. */
  lemma PearsonRange(x: seq<real>, y: seq<real>, root: real -> real)
    requires |x| == |y| && IsSquareRoot(root)
    ensures -1.0 <= Pearson(x, y, root) <= 1.0
  {
    hide Dot, Deviations, Covariance, Normalised, IsSquareRoot;
    if |x| >= 2 {
      CovarianceBounds(x, y);
      RootSquares(root, Covariance(x, x));
      RootSquares(root, Covariance(y, y));
      NormalisedRange(Covariance(x, y), root(Covariance(x, x)), root(Covariance(y, y)));
    }
  }

  lemma RootSquares(root: real -> real, v: real)
    requires IsSquareRoot(root) && v >= 0.0
    ensures root(v) >= 0.0 && root(v) * root(v) == v
  {
  }

  lemma CovarianceBounds(x: seq<real>, y: seq<real>)
    requires |x| == |y| && x != []
    ensures Covariance(x, x) >= 0.0 && Covariance(y, y) >= 0.0
    ensures Covariance(x, y) * Covariance(x, y) <= Covariance(x, x) * Covariance(y, y)
  {
    hide Dot, Deviations;
    var u, v := Deviations(x), Deviations(y);
    CauchySchwarz(u, v);
    DotSelf(u);
    DotSelf(v);
    ScaledCauchy(Dot(u, v), Dot(u, u), Dot(v, v), |x| as real);
  }

  lemma ScaledCauchy(c: real, a: real, b: real, n: real)
    requires n > 0.0 && a >= 0.0 && b >= 0.0 && c * c <= a * b
    ensures a / n >= 0.0 && b / n >= 0.0 && (c / n) * (c / n) <= (a / n) * (b / n)
  {
    DivSign(a, n);
    DivSign(b, n);
    DivMul(a, n);
    DivMul(b, n);
    DivMul(c, n);
    var k, x, y, z := n * n, a / n, b / n, c / n;
    StrictSquare(0.0, n);
    assert (z * z) * k == c * c by { assert (z * z) * (n * n) == (z * n) * (z * n); }
    assert (x * y) * k == a * b by { assert (x * y) * (n * n) == (x * n) * (y * n); }
    MulOrder(x * y, z * z, k);
  }

  // ---------------------------------------------------------------- daily returns

  /** A logged trade; no day if it has no entry time. */
  datatype LogTrade = LogTrade(day: Option<int>, pnlPct: real)

  type Logs = map<string, seq<LogTrade>>

  function DailyReturns(trades: seq<LogTrade>): map<int, real> {
    if trades == [] then map[]
    else
      var daily, t := DailyReturns(trades[..|trades| - 1]), trades[|trades| - 1];
      if t.day.None? then daily
      else daily[t.day.value := (if t.day.value in daily then daily[t.day.value] else 0.0) + t.pnlPct]
  }

  function LogOf(logs: Logs, id: string): seq<LogTrade> {
    if id in logs then logs[id] else []
  }

  function Returns(daily: map<int, real>, days: seq<int>): (r: seq<real>)
    ensures |r| == |days|
  {
    seq(|days|, i requires 0 <= i < |days| => if days[i] in daily then daily[days[i]] else 0.0)
  }

  /** None without logs, with fewer than 10 trades on a side or fewer than 5 common days. */
  function TradeCorrelation(a: string, b: string, logs: Logs, root: real -> real): Option<real> {
    if logs == map[] || |LogOf(logs, a)| < 10 || |LogOf(logs, b)| < 10 then None
    else
      var dailyA, dailyB := DailyReturns(LogOf(logs, a)), DailyReturns(LogOf(logs, b));
      var common := dailyA.Keys * dailyB.Keys;
      if |common| < 5 then None
      else
        var days := TimeOrder.SortedTimes(common);
        Some(Pearson(Returns(dailyA, days), Returns(dailyB, days), root))
  }

  function TypeCorrelation(a: StrategyType, b: StrategyType): real {
    if a == b then 0.8
    else if {a, b} == {Momentum, Breakout} then 0.6
    else if {a, b} == {Momentum, Trend} then 0.7
    else if {a, b} == {MeanReversion, Volume} then 0.5
    else if {a, b} == {Momentum, MeanReversion} then 0.1
    else if {a, b} == {Trend, MeanReversion} then 0.15
    else 0.4
  }

  datatype Candidate = Candidate(id: string, kind: StrategyType, returnPct: real, sharpe: real, maxDd: real)

  function PairCorrelation(a: Candidate, b: Candidate, logs: Logs, root: real -> real): real {
    TradeCorrelation(a.id, b.id, logs, root).GetOr(TypeCorrelation(a.kind, b.kind))
  }

  /** Every correlation the analyser works with is in [-1, 1]. */
  lemma PairCorrelationRange(a: Candidate, b: Candidate, logs: Logs, root: real -> real)
    requires IsSquareRoot(root)
    ensures -1.0 <= PairCorrelation(a, b, logs, root) <= 1.0
  {
    hide Pearson, DailyReturns;
    forall x, y | |x| == |y| ensures -1.0 <= Pearson(x, y, root) <= 1.0 {
      PearsonRange(x, y, root);
    }
  }
}
