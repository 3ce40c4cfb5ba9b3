/** What the correlation of src/ai_optimizer/ensemble.py measures: Pearson's coefficient pinned by its
    square and its sign, perfect correlation of affine copies, and which logs are used at all. */
module PearsonLaws {
  import opened PySeq
  import opened Reals
  import opened Correlation
  import Indicators
  import TimeOrder

  // ---------------------------------------------------------------- deviations

  function Shifted(x: seq<real>, m: real): (r: seq<real>)
    ensures |r| == |x| && forall i :: 0 <= i < |x| ==> r[i] == x[i] - m
  {
    seq(|x|, i requires 0 <= i < |x| => x[i] - m)
  }

  lemma {:induction false} SumShifted(x: seq<real>, m: real)
    ensures Sum(Shifted(x, m)) == Sum(x) - m * |x| as real
  {
    if x == [] {
    } else {
      var n := |x| - 1;
      SumShifted(x[..n], m);
      assert Shifted(x, m)[..n] == Shifted(x[..n], m);
      Indicators.OneMore(m, n);
    }
  }

  /** Deviations differ as the values do and balance: they are taken from the mean. */
  lemma DeviationsCentred(x: seq<real>)
    requires x != []
    ensures Sum(Deviations(x)) == 0.0
    ensures forall i, j :: 0 <= i < |x| && 0 <= j < |x| ==> Deviations(x)[i] - Deviations(x)[j] == x[i] - x[j]
  {
    var m := Sum(x) / |x| as real;
    SumShifted(x, m);
    assert Deviations(x) == Shifted(x, m);
    DivMul(Sum(x), |x| as real);
  }

  lemma {:induction false} DotSymmetric(u: seq<real>, v: seq<real>)
    requires |u| == |v|
    ensures Dot(u, v) == Dot(v, u)
  {
    if u == [] {
    } else {
      DotSymmetric(u[..|u| - 1], v[..|v| - 1]);
    }
  }

  function Scaled(a: real, v: seq<real>): (r: seq<real>)
    ensures |r| == |v| && forall i :: 0 <= i < |v| ==> r[i] == a * v[i]
  {
    seq(|v|, i requires 0 <= i < |v| => a * v[i])
  }

  lemma ScaledPrefix(a: real, v: seq<real>)
    requires v != []
    ensures Scaled(a, v)[..|v| - 1] == Scaled(a, v[..|v| - 1]) && Scaled(a, v)[|v| - 1] == a * v[|v| - 1]
  {
    var n := |v| - 1;
    var s, w := Scaled(a, v)[..n], Scaled(a, v[..n]);
    forall i | 0 <= i < n ensures s[i] == w[i] {
      assert v[..n][i] == v[i];
    }
  }

  lemma {:induction false} DotScaled(u: seq<real>, v: seq<real>, a: real)
    requires |u| == |v|
    ensures Dot(u, Scaled(a, v)) == a * Dot(u, v)
  {
    if u == [] {
    } else {
      var n := |u| - 1;
      DotScaled(u[..n], v[..n], a);
      ScaledPrefix(a, v);
      ScaledTerm(Dot(u[..n], v[..n]), u[n], v[n], a);
    }
  }

  lemma ScaledTerm(d: real, x: real, y: real, a: real)
    ensures a * d + x * (a * y) == a * (d + x * y)
  {
    Associate(x, a, y);
    Associate(a, x, y);
    Distribute(d, x * y, a);
    assert (d + x * y) * a == a * (d + x * y);
  }

  /** The square of a number other than 0 is positive; named by a bound below it. */
  lemma SquareAbove(v: real) returns (e: real)
    requires v != 0.0
    ensures 0.0 < e <= v * v
  {
    var w := if v > 0.0 then v else -v;
    e := ProductAbove(w, w);
  }

  lemma {:induction false} DotPositive(u: seq<real>, i: nat)
    requires i < |u| && u[i] != 0.0
    ensures Dot(u, u) > 0.0
  {
    var n := |u| - 1;
    SquareNonNegative(u[n]);
    if i == n {
      DotSelf(u[..n]);
      var e := SquareAbove(u[n]);
    } else {
      DotPositive(u[..n], i);
    }
  }

  // ---------------------------------------------------------------- the coefficient

  /** The number whose square is s * s / (a * b) and whose sign is that of s. */
  ghost predicate Fits(r: real, s: real, a: real, b: real) {
    (r * r) * (a * b) == s * s && (r > 0.0 <==> s > 0.0) && (r < 0.0 <==> s < 0.0)
  }

  /** The square and the sign of the coefficient, from the sums of products of deviations alone. */
  lemma PearsonExactly(x: seq<real>, y: seq<real>, root: real -> real)
    requires |x| == |y| >= 2 && IsSquareRoot(root)
    ensures var u, v := Deviations(x), Deviations(y);
            Fits(Pearson(x, y, root), Dot(u, v), Dot(u, u), Dot(v, v))
  {
    var u, v, n := Deviations(x), Deviations(y), |x| as real;
    CauchySchwarz(u, v);
    DotSelf(u);
    DotSelf(v);
    hide Dot, Deviations;
    DivSign(Dot(u, u), n);
    DivSign(Dot(v, v), n);
    NormalisedExactly(Dot(u, v), Dot(u, u), Dot(v, v), n, root(Dot(u, u) / n), root(Dot(v, v) / n));
  }

  /** Fewer than two days have none. */
  lemma PearsonShort(x: seq<real>, y: seq<real>, root: real -> real)
    requires |x| == |y| < 2
    ensures Pearson(x, y, root) == 0.0
  {
  }

  lemma NormalisedExactly(s: real, a: real, b: real, n: real, p: real, q: real)
    requires n > 0.0 && a >= 0.0 && b >= 0.0 && s * s <= a * b
    requires p >= 0.0 && p * p == a / n && q >= 0.0 && q * q == b / n
    ensures Fits(Normalised(s / n, p, q), s, a, b)
  {
    if p == 0.0 || q == 0.0 {
      DivSign(a, n);
      DivSign(b, n);
      assert a == 0.0 || b == 0.0;
      assert a * b == 0.0;
      ZeroSquare(s, a * b);
    } else {
      MulPositive(p, q);
      QuotientExactly(s, a, b, n, p, q, (s / n) / (p * q));
    }
  }

  lemma ZeroSquare(s: real, z: real)
    requires s * s <= z && z == 0.0
    ensures s == 0.0
  {
    if s != 0.0 {
      var e := SquareAbove(s);
    }
  }

  lemma QuotientExactly(s: real, a: real, b: real, n: real, p: real, q: real, r: real)
    requires n > 0.0 && p > 0.0 && q > 0.0 && p * q > 0.0
    requires p * p == a / n && q * q == b / n && r == (s / n) / (p * q)
    ensures Fits(r, s, a, b)
  {
    var w := (p * q) * n;
    MulPositive(p * q, n);
    DivMul(s, n);
    DivMul(s / n, p * q);
    Associate(r, p * q, n);
    assert r * w == s;
    DivMul(a, n);
    DivMul(b, n);
    assert a * b == w * w by { FourFactors(p, q, n, a, b); }
    SquareProduct(r, w);
    MulOrder(0.0, r, w);
    MulOrder(r, 0.0, w);
  }

  lemma FourFactors(p: real, q: real, n: real, a: real, b: real)
    requires a == (p * p) * n && b == (q * q) * n
    ensures a * b == ((p * q) * n) * ((p * q) * n)
  {
    assert ((p * p) * n) * ((q * q) * n) == ((p * q) * n) * ((p * q) * n);
  }

  lemma SquareProduct(r: real, w: real)
    ensures (r * r) * (w * w) == (r * w) * (r * w)
  {
  }

  lemma PearsonSymmetric(x: seq<real>, y: seq<real>, root: real -> real)
    requires |x| == |y|
    ensures Pearson(x, y, root) == Pearson(y, x, root)
  {
    if |x| >= 2 {
      DotSymmetric(Deviations(x), Deviations(y));
      hide Dot, Deviations;
      var p, q := root(Covariance(x, x)), root(Covariance(y, y));
      assert p * q == q * p;
    }
  }

  ghost predicate Varies(x: seq<real>) {
    exists i, j :: 0 <= i < |x| && 0 <= j < |x| && x[i] != x[j]
  }

  lemma VaryingSpread(x: seq<real>)
    requires Varies(x)
    ensures |x| >= 2 && Dot(Deviations(x), Deviations(x)) > 0.0
  {
    DeviationsCentred(x);
    var i, j :| 0 <= i < |x| && 0 <= j < |x| && x[i] != x[j];
    var u := Deviations(x);
    if u[i] != 0.0 {
      DotPositive(u, i);
    } else {
      DotPositive(u, j);
    }
  }

  lemma AffineDeviations(x: seq<real>, a: real, b: real)
    requires x != []
    ensures Deviations(Indicators.Affine(x, a, b)) == Scaled(a, Deviations(x))
  {
    hide Sum, Deviations, Indicators.Line;
    var y := Indicators.Affine(x, a, b);
    AffineMean(x, a, b);
    forall i | 0 <= i < |x| ensures Deviations(y)[i] == Scaled(a, Deviations(x))[i] {
      DeviationAt(x, i);
      DeviationAt(y, i);
      AffineShift(x[i], Sum(x) / |x| as real, a, b);
    }
  }

  lemma AffineMean(x: seq<real>, a: real, b: real)
    requires x != []
    ensures Sum(Indicators.Affine(x, a, b)) / |x| as real == a * (Sum(x) / |x| as real) + b
  {
    hide *;
    var n := |x| as real;
    Indicators.SumAffine(x, a, b);
    Indicators.MeanAffine(Sum(x), n, a, b);
  }

  lemma DeviationAt(x: seq<real>, i: nat)
    requires i < |x|
    ensures Deviations(x)[i] == x[i] - Sum(x) / |x| as real
  {
  }

  lemma AffineShift(v: real, m: real, a: real, b: real)
    ensures Indicators.Line(v, a, b) - (a * m + b) == a * (v - m)
  {
    Distribute(v, m, a);
  }

  lemma AffineProducts(x: seq<real>, a: real, b: real)
    requires x != []
    ensures var u, v := Deviations(x), Deviations(Indicators.Affine(x, a, b));
            Dot(u, v) == a * Dot(u, u) && Dot(v, v) == a * Dot(u, v)
  {
    hide *;
    var u := Deviations(x);
    AffineDeviations(x, a, b);
    DotScaled(u, u, a);
    DotSymmetric(Scaled(a, u), u);
    DotScaled(Scaled(a, u), u, a);
  }

  /** A varying series correlates fully with each of its rising affine copies, itself among them, and
      inversely with each falling one. */
  lemma PearsonAffine(x: seq<real>, a: real, b: real, root: real -> real)
    requires Varies(x) && a != 0.0 && IsSquareRoot(root)
    ensures Pearson(x, Indicators.Affine(x, a, b), root) == if a > 0.0 then 1.0 else -1.0
  {
    hide *;
    VaryingSpread(x);
    var y, u := Indicators.Affine(x, a, b), Deviations(x);
    PearsonExactly(x, y, root);
    AffineProducts(x, a, b);
    UnitSlope(Pearson(x, y, root), Dot(u, u), Dot(Deviations(y), Deviations(y)), Dot(u, Deviations(y)), a);
  }

  lemma UnitSlope(r: real, d: real, e: real, s: real, a: real)
    requires d > 0.0 && a != 0.0 && s == a * d && e == a * s
    requires Fits(r, s, d, e)
    ensures r == if a > 0.0 then 1.0 else -1.0
  {
    MulOrder(0.0, a, d);
    MulOrder(a, 0.0, d);
    assert s != 0.0;
    var below := SquareAbove(s);
    Associate(d, a, s);
    assert d * a == s;
    assert d * e == s * s;
    UnitFactor(r, d * e, s * s, below);
    UnitRoot(r);
  }

  lemma UnitFactor(r: real, k: real, w: real, below: real)
    requires (r * r) * k == w && k == w && 0.0 < below <= w
    ensures r * r == 1.0
  {
    MulOrder(r * r, 1.0, w);
  }

  lemma UnitRoot(r: real)
    requires r * r == 1.0
    ensures r == if r > 0.0 then 1.0 else -1.0
  {
    assert (r - 1.0) * (r + 1.0) == 0.0;
    if r != 1.0 && r != -1.0 {
      NonZeroProduct(r - 1.0, r + 1.0);
    }
  }

  lemma PearsonSelf(x: seq<real>, root: real -> real)
    requires Varies(x) && IsSquareRoot(root)
    ensures Pearson(x, x, root) == 1.0
  {
    assert Indicators.Affine(x, 1.0, 0.0) == x;
    PearsonAffine(x, 1.0, 0.0, root);
  }

  // ---------------------------------------------------------------- daily returns

  /** What the trades of one day returned together. */
  function DaySum(trades: seq<LogTrade>, d: int): real {
    if trades == [] then 0.0
    else DaySum(trades[..|trades| - 1], d) + if trades[|trades| - 1].day == Some(d) then trades[|trades| - 1].pnlPct else 0.0
  }

  /** A day is listed exactly when a trade entered on it, with the sum of that day's trades. */
  lemma {:induction false} DailySums(trades: seq<LogTrade>, d: int)
    ensures d in DailyReturns(trades) <==> exists i :: 0 <= i < |trades| && trades[i].day == Some(d)
    ensures DaySum(trades, d) == if d in DailyReturns(trades) then DailyReturns(trades)[d] else 0.0
  {
    if trades == [] {
    } else {
      var n := |trades| - 1;
      DailySums(trades[..n], d);
      if i :| 0 <= i < n && trades[..n][i].day == Some(d) {
        assert trades[i].day == Some(d);
      }
      if i :| 0 <= i < |trades| && trades[i].day == Some(d) {
        assert i < n ==> trades[..n][i].day == Some(d);
      }
    }
  }

  /** Logs are used exactly with ten trades on each side and five common days; otherwise the types decide. */
  lemma LogsUsed(a: Candidate, b: Candidate, logs: Logs, root: real -> real)
    ensures var x, y := LogOf(logs, a.id), LogOf(logs, b.id);
            var dx, dy := DailyReturns(x), DailyReturns(y);
            PairCorrelation(a, b, logs, root)
              == if |x| >= 10 && |y| >= 10 && |dx.Keys * dy.Keys| >= 5
                 then Pearson(Returns(dx, TimeOrder.SortedTimes(dx.Keys * dy.Keys)), Returns(dy, TimeOrder.SortedTimes(dx.Keys * dy.Keys)), root)
                 else TypeCorrelation(a.kind, b.kind)
  {
    hide Pearson, DailyReturns, TypeCorrelation;
  }

  /** One of the five pairs of types that have a correlation of their own. */
  predicate Listed(a: StrategyType, b: StrategyType) {
    match a
    case Momentum => b.Breakout? || b.Trend? || b.MeanReversion?
    case MeanReversion => b.Volume? || b.Momentum? || b.Trend?
    case Breakout => b.Momentum?
    case Trend => b.Momentum? || b.MeanReversion?
    case Volume => b.MeanReversion?
    case _ => false
  }

  /** The table of the types: 0.8 for equal ones, five listed pairs in either order, 0.4 for all others. */
  lemma TypeTable(a: StrategyType, b: StrategyType)
    ensures TypeCorrelation(a, b) == TypeCorrelation(b, a)
    ensures a == b ==> TypeCorrelation(a, b) == 0.8
    ensures a != b && !Listed(a, b) ==> TypeCorrelation(a, b) == 0.4
    ensures TypeCorrelation(Momentum, Breakout) == 0.6 && TypeCorrelation(Momentum, Trend) == 0.7
    ensures TypeCorrelation(MeanReversion, Volume) == 0.5
    ensures TypeCorrelation(Momentum, MeanReversion) == 0.1 && TypeCorrelation(Trend, MeanReversion) == 0.15
  {
    assert {a, b} == {b, a};
    SamePair(a, b, Momentum, Breakout);
    SamePair(a, b, Momentum, Trend);
    SamePair(a, b, MeanReversion, Volume);
    SamePair(a, b, Momentum, MeanReversion);
    SamePair(a, b, Trend, MeanReversion);
    assert Trend !in {Momentum, Breakout} && MeanReversion !in {Momentum, Breakout} && MeanReversion !in {Momentum, Trend};
    assert Momentum !in {MeanReversion, Volume} && Trend !in {MeanReversion, Volume} && Trend !in {Momentum, MeanReversion};
  }

  lemma SamePair(a: StrategyType, b: StrategyType, c: StrategyType, d: StrategyType)
    ensures {a, b} == {c, d} <==> (a == c && b == d) || (a == d && b == c)
  {
    if {a, b} == {c, d} {
      assert a in {c, d} && b in {c, d} && c in {a, b} && d in {a, b};
    }
  }

  /** Two strategies with the same log, long enough and not flat, correlate fully. */
  lemma TwinsCorrelate(a: Candidate, b: Candidate, logs: Logs, root: real -> real)
    requires IsSquareRoot(root) && LogOf(logs, a.id) == LogOf(logs, b.id) && |LogOf(logs, a.id)| >= 10
    requires var daily := DailyReturns(LogOf(logs, a.id));
             |daily.Keys| >= 5 && exists d, e :: d in daily && e in daily && daily[d] != daily[e]
    ensures PairCorrelation(a, b, logs, root) == 1.0
  {
    LogsUsed(a, b, logs, root);
    var daily := DailyReturns(LogOf(logs, a.id));
    hide Pearson, DailyReturns, PairCorrelation, LogOf;
    assert daily.Keys * daily.Keys == daily.Keys;
    var days := TimeOrder.SortedTimes(daily.Keys);
    TimeOrder.SortedTimesOrder(daily.Keys);
    hide TimeOrder.SortedTimes;
    var d, e :| d in daily && e in daily && daily[d] != daily[e];
    assert d in days && e in days;
    var i :| 0 <= i < |days| && days[i] == d;
    var j :| 0 <= j < |days| && days[j] == e;
    assert Returns(daily, days)[i] != Returns(daily, days)[j];
    PearsonSelf(Returns(daily, days), root);
  }
}
