/** The indicators in closed form: what each price weighs, and what each reading is in terms of the prices. */
module IndicatorLaws {
  import opened PySeq
  import opened Reals
  import opened Indicators

  // ---------------------------------------------------------------- EMA

  /** What the price j places before the last adds. */
  function Term(k: real, j: nat, x: real): real {
    k * Pow(1.0 - k, j) * x
  }

  function Weighted(s: seq<real>, k: real): (r: seq<real>)
    ensures |r| == |s|
    ensures forall i :: 0 <= i < |s| ==> r[i] == Term(k, |s| - 1 - i, s[i])
  {
    seq(|s|, i requires 0 <= i < |s| => Term(k, |s| - 1 - i, s[i]))
  }

  lemma WeightedSnoc(s: seq<real>, x: real, k: real)
    ensures Weighted(s + [x], k) == Affine(Weighted(s, k), 1.0 - k, 0.0) + [k * x]
  {
    hide Term, Line;
    var all, scaled := Weighted(s + [x], k), Affine(Weighted(s, k), 1.0 - k, 0.0);
    forall i | 0 <= i < |s| ensures all[i] == scaled[i] {
      TermStep(k, |s| - 1 - i, s[i]);
      assert (s + [x])[i] == s[i];
    }
    FirstTerm(k, x);
  }

  lemma FirstTerm(k: real, x: real)
    ensures Term(k, 0, x) == k * x
  {
  }

  lemma TermStep(k: real, j: nat, x: real)
    ensures Term(k, j + 1, x) == Line(Term(k, j, x), 1.0 - k, 0.0)
  {
    var q, w := 1.0 - k, Pow(1.0 - k, j);
    hide Pow;
    PowStep(q, j);
    MoveFactor(k, q, w, x);
  }

  lemma MoveFactor(k: real, q: real, w: real, x: real)
    ensures k * (q * w) * x == q * (k * w * x)
  {
    Associate(k, q, w);
    Associate(q, k, w);
    Associate(q, k * w, x);
  }

  lemma PowStep(x: real, n: nat)
    ensures Pow(x, n + 1) == x * Pow(x, n) && Pow(x, 0) == 1.0
  {
  }

  /** One more price scales what the earlier ones add. */
  lemma WeightedSum(s: seq<real>, x: real, k: real)
    ensures Sum(Weighted(s + [x], k)) == (1.0 - k) * Sum(Weighted(s, k)) + k * x
  {
    hide Weighted, Affine, Sum;
    WeightedSnoc(s, x, k);
    SumSnoc(Affine(Weighted(s, k), 1.0 - k, 0.0), k * x);
    SumAffine(Weighted(s, k), 1.0 - k, 0.0);
  }

  /** The EMA as weights 2 / (period + 1) * (1 - 2 / (period + 1))^j on the prices, newest first, plus the
      plain average of the first `period` prices with the rest of the weight. */
  lemma {:induction false} EmaClosedForm(closes: seq<real>, period: int, k: real)
    requires 1 <= period <= |closes| && k * (period as real + 1.0) == 2.0
    ensures Ema(closes, period) == Pow(1.0 - k, |closes| - period) * (Sum(closes[..period]) / period as real)
                                   + Sum(Weighted(closes[period..], k))
  {
    hide *;
    var n := |closes| - 1;
    if |closes| == period {
      EmaSeed(closes, period, k);
    } else {
      EmaClosedForm(closes[..n], period, k);
      var rest := closes[..n][period..];
      assert closes[..n][..period] == closes[..period];
      assert closes[..n] + [closes[n]] == closes;
      assert closes[period..] == rest + [closes[n]];
      EmaAppend(closes[..n], closes[n], period);
      StepWithFactor(Ema(closes[..n], period), closes[n], period, k);
      WeightedSum(rest, closes[n], k);
      PowStep(1.0 - k, n - period);
      StepIsBlend(Ema(closes[..n], period), closes[n], k, Pow(1.0 - k, n - period), Sum(closes[..period]) / period as real,
                  Sum(Weighted(rest, k)));
    }
  }

  lemma EmaSeed(closes: seq<real>, period: int, k: real)
    requires 1 <= period == |closes|
    ensures Ema(closes, period) == Pow(1.0 - k, 0) * (Sum(closes[..period]) / period as real) + Sum(Weighted(closes[period..], k))
  {
    assert closes[..period] == closes && closes[period..] == [];
  }

  lemma StepWithFactor(e: real, x: real, period: int, k: real)
    requires period >= 1 && k * (period as real + 1.0) == 2.0
    ensures EmaStep(e, x, period) == (x - e) * k + e
  {
    DivUnique(2.0, period as real + 1.0, k);
  }

  lemma StepIsBlend(e: real, x: real, k: real, w: real, seed: real, tail: real)
    requires e == w * seed + tail
    ensures (x - e) * k + e == ((1.0 - k) * w) * seed + ((1.0 - k) * tail + k * x)
  {
    var q := 1.0 - k;
    Associate(q, w, seed);
    Distribute(w * seed, tail, q);
    Distribute(1.0, k, e);
    Distribute(x, e, k);
  }

  function Ones(n: nat): seq<real> {
    seq(n, i => 1.0)
  }

  /** The seed average and the later prices share a total weight of 1. */
  lemma {:induction false} WeightsTotal(n: nat, k: real)
    ensures Sum(Weighted(Ones(n), k)) == 1.0 - Pow(1.0 - k, n)
  {
    hide Pow, Weighted, Sum;
    PowStep(1.0 - k, if n == 0 then 0 else n - 1);
    if n == 0 {
      assert Weighted(Ones(0), k) == [];
      EmptySum();
    } else {
      WeightsTotal(n - 1, k);
      assert Ones(n) == Ones(n - 1) + [1.0];
      WeightedSum(Ones(n - 1), 1.0, k);
      Distribute(1.0, Pow(1.0 - k, n - 1), 1.0 - k);
    }
  }

  /** Without `period` prices the EMA is the last one, or 0. */
  lemma EmaShort(closes: seq<real>, period: int)
    requires period >= 1 && |closes| < period
    ensures closes == [] ==> Ema(closes, period) == 0.0
    ensures closes != [] ==> Ema(closes, period) == closes[|closes| - 1]
  {
  }

  // ---------------------------------------------------------------- MACD

  /** Before there is a full signal window the signal follows the line, and the first full one averages it. */
  lemma MacdStart(closes: seq<real>, fast: int, slow: int, signal: int)
    requires fast >= 1 && slow >= 1 && signal >= 1
    ensures var m := Macd(closes, fast, slow, signal);
            && m.histogram == m.line - m.signal
            && (|closes| < slow ==> m == MacdResult(0.0, 0.0, 0.0))
            && (|closes| >= slow ==> m.line == Ema(closes, fast) - Ema(closes, slow))
            && (slow <= |closes| < slow + signal - 1 ==> m.signal == m.line)
            && (|closes| == slow + signal - 1 ==> m.signal * signal as real == Sum(MacdValues(closes, fast, slow)))
  {
    hide Ema;
    if |closes| == slow + signal - 1 {
      SeedIsAverage(MacdValues(closes, fast, slow), signal);
    }
  }

  lemma SeedIsAverage(s: seq<real>, period: int)
    requires period >= 1 && |s| == period
    ensures Ema(s, period) * period as real == Sum(s)
  {
    DivMul(Sum(s), period as real);
  }

  // ---------------------------------------------------------------- RSI

  /** The total of the rises between consecutive closes from place lo to place hi. */
  function Risen(closes: seq<real>, lo: nat, hi: nat): real
    requires lo <= hi < |closes|
  {
    if lo == hi then 0.0
    else Risen(closes, lo, hi - 1) + if closes[hi] > closes[hi - 1] then closes[hi] - closes[hi - 1] else 0.0
  }

  function Fallen(closes: seq<real>, lo: nat, hi: nat): real
    requires lo <= hi < |closes|
  {
    if lo == hi then 0.0
    else Fallen(closes, lo, hi - 1) + if closes[hi] < closes[hi - 1] then closes[hi - 1] - closes[hi] else 0.0
  }

  lemma {:induction false} TotalMoves(closes: seq<real>, lo: nat, hi: nat)
    requires lo <= hi < |closes|
    ensures Sum(Map(Gain, Changes(closes)[lo..hi])) == Risen(closes, lo, hi) >= 0.0
    ensures Sum(Map(Loss, Changes(closes)[lo..hi])) == Fallen(closes, lo, hi) >= 0.0
    decreases hi
  {
    hide Changes, Map, Sum;
    var c := Changes(closes);
    if lo == hi {
      assert c[lo..hi] == [];
      NothingMoved();
    } else {
      TotalMoves(closes, lo, hi - 1);
      var before, change := c[lo..hi - 1], c[hi - 1];
      assert c[lo..hi] == before + [change];
      SumOneMore(Gain, before, change);
      SumOneMore(Loss, before, change);
    }
  }

  lemma NothingMoved()
    ensures Sum(Map(Gain, [])) == 0.0 && Sum(Map(Loss, [])) == 0.0
  {
  }

  lemma SumOneMore(f: real -> real, s: seq<real>, x: real)
    ensures Sum(Map(f, s + [x])) == Sum(Map(f, s)) + f(x)
  {
    hide Sum;
    assert Map(f, s + [x]) == Map(f, s) + [f(x)];
    SumSnoc(Map(f, s), f(x));
  }

  /** r is the share of the rises in all moves, in percent, and 100 when nothing fell. */
  ghost predicate RiseShare(r: real, up: real, down: real) {
    if down == 0.0 then r == 100.0 else up + down > 0.0 && r * (up + down) == 100.0 * up
  }

  /** The RSI is the share of the rises in all moves of the last `period` bars, and 50 while there are
      not enough closes. */
  lemma RsiClosedForm(closes: seq<real>, period: int)
    requires period >= 1
    ensures |closes| <= period ==> Rsi(closes, period) == 50.0
    ensures |closes| > period ==>
              var n := |closes| - 1;
              RiseShare(Rsi(closes, period), Risen(closes, n - period, n), Fallen(closes, n - period, n))
  {
    hide RsiOf, Changes, RiseShare, Risen, Fallen, RecentRsi;
    if |closes| > period {
      RecentShare(closes, period);
    }
  }

  lemma RecentShare(closes: seq<real>, period: int)
    requires 1 <= period < |closes|
    ensures var n := |closes| - 1;
            RiseShare(Rsi(closes, period), Risen(closes, n - period, n), Fallen(closes, n - period, n))
  {
    hide *;
    var n := |closes| - 1;
    RsiShape(closes, period);
    TotalMoves(closes, n - period, n);
    RsiOfTotals(Risen(closes, n - period, n), Fallen(closes, n - period, n), period as real);
  }

  lemma RsiShape(closes: seq<real>, period: int)
    requires 1 <= period < |closes|
    ensures var n := |closes| - 1;
            var recent := Changes(closes)[n - period..n];
            Rsi(closes, period) == RsiOf(Sum(Map(Gain, recent)) / period as real, Sum(Map(Loss, recent)) / period as real)
  {
    hide Changes, Sum, Map, RsiOf;
    assert Tail(Changes(closes), period) == Changes(closes)[|closes| - 1 - period..|closes| - 1];
  }

  lemma RsiOfTotals(up: real, down: real, n: real)
    requires n > 0.0 && up >= 0.0 && down >= 0.0
    ensures RiseShare(RsiOf(up / n, down / n), up, down)
  {
    var g, l := up / n, down / n;
    DivSign(up, n);
    DivSign(down, n);
    if down != 0.0 {
      DivMul(up, n);
      DivMul(down, n);
      DivMul(g, l);
      DivSign(g, l);
      DivMul(100.0, 1.0 + g / l);
      ShareOfMoves(up, down, n, g, l, g / l, 100.0 / (1.0 + g / l));
    }
  }

  lemma ShareOfMoves(up: real, down: real, n: real, g: real, l: real, rs: real, q: real)
    requires g * n == up && l * n == down && rs * l == g && q * (1.0 + rs) == 100.0
    ensures (100.0 - q) * (up + down) == 100.0 * up
  {
    assert rs * down == up by {
      Associate(rs, l, n);
    }
    assert up + down == (1.0 + rs) * down by { Distribute(1.0, rs, down); }
    Associate(q, 1.0 + rs, down);
    Distribute(100.0, q, up + down);
  }

  // ---------------------------------------------------------------- ATR

  /** The true range spans the bar and the previous close. */
  lemma TrueRangeSpans(bar: Bar, prevClose: real)
    requires bar.low <= bar.high
    ensures TrueRange(bar, prevClose) ==
              (if bar.high > prevClose then bar.high else prevClose) - (if bar.low < prevClose then bar.low else prevClose)
  {
  }

  /** The ATR averages the last `period` true ranges, or all of them if there are fewer. */
  lemma AtrIsMean(bars: seq<Bar>, period: int)
    requires period >= 1
    ensures |bars| < 2 ==> Atr(bars, period) == 0.0
    ensures |bars| >= 2 ==>
              var tr := TrueRanges(bars);
              var m := if |tr| < period then |tr| else period;
              Atr(bars, period) * m as real == Sum(tr[|tr| - m..])
  {
    hide TrueRanges, Sum;
    if |bars| >= 2 {
      var tr := TrueRanges(bars);
      if |tr| < period {
        assert tr[0..] == tr;
        DivMul(Sum(tr), |tr| as real);
      } else {
        DivMul(Sum(Tail(tr, period)), period as real);
        assert Tail(tr, period) == tr[|tr| - period..];
      }
    }
  }

  // ---------------------------------------------------------------- Bollinger bands

  function SumOfSquares(s: seq<real>): real {
    if s == [] then 0.0 else SumOfSquares(s[..|s| - 1]) + s[|s| - 1] * s[|s| - 1]
  }

  lemma {:induction false} DeviationsExpand(s: seq<real>, m: real)
    ensures Sum(SquaredDeviations(s, m)) == SumOfSquares(s) - 2.0 * (m * Sum(s)) + |s| as real * (m * m)
  {
    hide *;
    if s == [] {
      NoDeviations(m);
    } else {
      var n := |s| - 1;
      DeviationsExpand(s[..n], m);
      OneMoreDeviation(s, m);
      ExpandSquare(s[n], m);
      Distribute(Sum(s[..n]), s[n], m);
      Distribute(n as real, 1.0, m * m);
    }
  }

  lemma NoDeviations(m: real)
    ensures Sum(SquaredDeviations([], m)) == SumOfSquares([]) == Sum([]) == 0.0
  {
  }

  lemma OneMoreDeviation(s: seq<real>, m: real)
    requires s != []
    ensures var n := |s| - 1;
            && Sum(SquaredDeviations(s, m)) == Sum(SquaredDeviations(s[..n], m)) + SquaredDeviation(s[n], m)
            && Sum(s) == Sum(s[..n]) + s[n]
            && SumOfSquares(s) == SumOfSquares(s[..n]) + s[n] * s[n]
  {
    hide SquaredDeviation;
    assert SquaredDeviations(s, m)[..|s| - 1] == SquaredDeviations(s[..|s| - 1], m);
  }

  lemma ExpandSquare(x: real, m: real)
    ensures SquaredDeviation(x, m) == x * x - 2.0 * (m * x) + m * m
  {
    Distribute(x, m, x - m);
    Distribute(x, m, x);
    Distribute(x, m, m);
  }

  /** v is the mean of the squares less the square of the mean. */
  ghost predicate IsVariance(v: real, s: seq<real>, mean: real) {
    v * |s| as real == SumOfSquares(s) - |s| as real * (mean * mean)
  }

  lemma VarianceExactly(s: seq<real>, mean: real, v: real)
    requires s != [] && mean * |s| as real == Sum(s) && v * |s| as real == Sum(SquaredDeviations(s, mean))
    ensures IsVariance(v, s, mean)
  {
    hide Sum, SumOfSquares, SquaredDeviations;
    DeviationsExpand(s, mean);
    Associate(mean, mean, |s| as real);
  }

  /** The bands lie symmetrically about the mean of the last `period` closes, `mult` times the square root
      of their variance away; without enough closes all three are the mean. */
  lemma BandsExactly(closes: seq<real>, period: int, mult: real, root: real -> real) returns (variance: real)
    requires period >= 1
    ensures var b := Bollinger(closes, period, mult, root);
            if |closes| < period then
              b.upper == b.middle == b.lower && b.middle * |closes| as real == Sum(closes)
            else
              var recent := closes[|closes| - period..];
              && b.middle * period as real == Sum(recent)
              && IsVariance(variance, recent, b.middle)
              && b.upper - b.middle == b.middle - b.lower == mult * root(variance)
  {
    hide Sum, SquaredDeviations, IsVariance;
    variance := 0.0;
    if |closes| < period {
      if closes != [] {
        DivMul(Sum(closes), |closes| as real);
      } else {
        EmptySum();
      }
    } else {
      var recent := closes[|closes| - period..];
      assert recent == Tail(closes, period);
      var middle := Sum(recent) / period as real;
      variance := Sum(SquaredDeviations(recent, middle)) / period as real;
      DivMul(Sum(recent), period as real);
      DivMul(Sum(SquaredDeviations(recent, middle)), period as real);
      VarianceExactly(recent, middle, variance);
    }
  }

  lemma EmptySum()
    ensures Sum([]) == 0.0
  {
  }
}
