/** EMA, MACD, RSI and ATR of src/indicators/technical.py, with the second
    implementations of src/features/feature_engine.py and scripts/analyze_optimal_tpsl.py,
    over exact reals. */
module Indicators {
  import opened PySeq
  import opened Reals

  // ---------------------------------------------------------------- EMA

  function EmaStep(ema: real, price: real, period: int): real
    requires period >= 1
  {
    (price - ema) * (2.0 / (period as real + 1.0)) + ema
  }

  /** Simple average of the first `period` prices, then one step per price. */
  function EmaFull(closes: seq<real>, period: int): real
    requires 1 <= period <= |closes|
  {
    var n := |closes| - 1;
    if n + 1 == period then Sum(closes) / period as real
    else EmaStep(EmaFull(closes[..n], period), closes[n], period)
  }

  function Ema(closes: seq<real>, period: int): real
    requires period >= 1
  {
    if |closes| < period then if closes != [] then closes[|closes| - 1] else 0.0
    else EmaFull(closes, period)
  }

  lemma EmaFirst(seed: seq<real>, period: int)
    requires 1 <= period == |seed|
    ensures EmaFull(seed, period) == Sum(seed) / period as real
  {
  }

  lemma EmaNext(closes: seq<real>, i: nat, period: int)
    requires 1 <= period <= i < |closes|
    ensures EmaFull(closes[..i + 1], period) == EmaStep(EmaFull(closes[..i], period), closes[i], period)
  {
    hide EmaStep, Sum;
    assert closes[..i + 1][..i] == closes[..i];
  }

  method CalculateEma(closes: seq<real>, period: int) returns (ema: real)
    requires period >= 1
    ensures ema == Ema(closes, period)
  {
    hide EmaFull, Sum;
    if |closes| < period {
      return if closes != [] then closes[|closes| - 1] else 0.0;
    }
    var multiplier := 2.0 / (period as real + 1.0);
    ema := Sum(closes[..period]) / period as real;
    EmaFirst(closes[..period], period);
    for i := period to |closes|
      invariant ema == EmaFull(closes[..i], period)
    {
      EmaNext(closes, i, period);
      ema := (closes[i] - ema) * multiplier + ema;
    }
    assert closes[..|closes|] == closes;
  }

  lemma SmoothingFactor(period: int)
    requires period >= 1
    ensures 0.0 < 2.0 / (period as real + 1.0) <= 1.0
  {
    var d := period as real + 1.0;
    assert d >= 2.0;
    assert (2.0 / d) * d == 2.0;
  }

  lemma Blend(e: real, x: real, k: real, lo: real, hi: real)
    requires 0.0 < k <= 1.0 && lo <= e <= hi && lo <= x <= hi
    ensures lo <= (x - e) * k + e <= hi
  {
    var j := 1.0 - k;
    MulNonNegative(x - lo, k);
    MulNonNegative(e - lo, j);
    MulNonNegative(hi - x, k);
    MulNonNegative(hi - e, j);
    assert (x - lo) * k + (e - lo) * j == (x - e) * k + e - lo;
    assert (hi - x) * k + (hi - e) * j == hi - ((x - e) * k + e);
  }

  lemma StepBounds(e: real, x: real, period: int, lo: real, hi: real)
    requires period >= 1 && lo <= e <= hi && lo <= x <= hi
    ensures lo <= EmaStep(e, x, period) <= hi
  {
    SmoothingFactor(period);
    Blend(e, x, 2.0 / (period as real + 1.0), lo, hi);
  }

  ghost predicate Within(s: seq<real>, lo: real, hi: real) {
    forall i :: 0 <= i < |s| ==> lo <= s[i] <= hi
  }

  lemma OneMore(a: real, n: nat)
    ensures a * (n + 1) as real == a * n as real + a
  {
    assert (n + 1) as real == n as real + 1.0;
  }

  lemma {:induction false} SumBounds(s: seq<real>, lo: real, hi: real)
    requires Within(s, lo, hi)
    ensures lo * |s| as real <= Sum(s) <= hi * |s| as real
  {
    if s == [] {
    } else {
      var n := |s| - 1;
      SumBounds(s[..n], lo, hi);
      OneMore(lo, n);
      OneMore(hi, n);
    }
  }

  /** An EMA never leaves the range of its inputs. */
  lemma {:induction false} EmaBounds(closes: seq<real>, period: int, lo: real, hi: real)
    requires period >= 1 && closes != [] && Within(closes, lo, hi)
    ensures lo <= Ema(closes, period) <= hi
  {
    hide EmaStep, Sum;
    var n := |closes| - 1;
    if |closes| == period {
      SumBounds(closes, lo, hi);
      DivBounds(Sum(closes), period as real, lo, hi);
    } else if |closes| > period {
      EmaBounds(closes[..n], period, lo, hi);
      StepBounds(EmaFull(closes[..n], period), closes[n], period, lo, hi);
    }
  }

  /** Appending one price is one step, once the seed average exists. */
  lemma EmaAppend(closes: seq<real>, x: real, period: int)
    requires 1 <= period <= |closes|
    ensures Ema(closes + [x], period) == EmaStep(Ema(closes, period), x, period)
  {
    assert (closes + [x])[..|closes|] == closes;
  }

  /** a * s + b, element by element. */
  function Affine(s: seq<real>, a: real, b: real): (r: seq<real>)
    ensures |r| == |s| && forall i :: 0 <= i < |s| ==> r[i] == Line(s[i], a, b)
  {
    seq(|s|, i requires 0 <= i < |s| => Line(s[i], a, b))
  }

  function Line(x: real, a: real, b: real): real {
    a * x + b
  }

  lemma AffinePrefix(s: seq<real>, k: nat, a: real, b: real)
    requires k <= |s|
    ensures Affine(s, a, b)[..k] == Affine(s[..k], a, b)
  {
  }

  lemma {:induction false} SumAffine(s: seq<real>, a: real, b: real)
    ensures Sum(Affine(s, a, b)) == a * Sum(s) + b * |s| as real
  {
    if s == [] {
    } else {
      var n := |s| - 1;
      SumAffine(s[..n], a, b);
      AffinePrefix(s, n, a, b);
      Distribute(n as real, 1.0, b);
      Distribute(Sum(s[..n]), s[n], a);
    }
  }

  lemma MeanAffine(sum: real, n: real, a: real, b: real)
    requires n > 0.0
    ensures (a * sum + b * n) / n == a * (sum / n) + b
  {
    var q := sum / n;
    DivMul(sum, n);
    Associate(a, q, n);
    Distribute(a * q, b, n);
    DivUnique(a * sum + b * n, n, a * q + b);
  }

  lemma StepAffine(e: real, x: real, period: int, a: real, b: real)
    requires period >= 1
    ensures EmaStep(Line(e, a, b), Line(x, a, b), period) == Line(EmaStep(e, x, period), a, b)
  {
    var k := 2.0 / (period as real + 1.0);
    Distribute(x, e, a);
    Associate(a, x - e, k);
    Distribute((x - e) * k, e, a);
  }

  lemma SeedAffine(closes: seq<real>, period: int, a: real, b: real)
    requires 1 <= period == |closes|
    ensures EmaFull(Affine(closes, a, b), period) == Line(EmaFull(closes, period), a, b)
  {
    hide Affine, EmaStep;
    SumAffine(closes, a, b);
    MeanAffine(Sum(closes), period as real, a, b);
  }

  /** EMA commutes with every change of unit and offset. */
  lemma {:induction false} EmaAffine(closes: seq<real>, period: int, a: real, b: real)
    requires period >= 1 && closes != []
    ensures Ema(Affine(closes, a, b), period) == Line(Ema(closes, period), a, b)
  {
    hide EmaStep, Affine, Sum;
    var n := |closes| - 1;
    if |closes| == period {
      SeedAffine(closes, period, a, b);
    } else if |closes| > period {
      EmaAffine(closes[..n], period, a, b);
      AffinePrefix(closes, n, a, b);
      StepAffine(EmaFull(closes[..n], period), closes[n], period, a, b);
    }
  }

  // ---------------------------------------------------------------- MACD

  datatype MacdResult = MacdResult(line: real, signal: real, histogram: real)

  function MacdLine(closes: seq<real>, fast: int, slow: int): real
    requires fast >= 1 && slow >= 1
  {
    Ema(closes, fast) - Ema(closes, slow)
  }

  /** The MACD line recomputed for every prefix of at least `slow` closes. */
  function MacdValues(closes: seq<real>, fast: int, slow: int): (r: seq<real>)
    requires fast >= 1 && 1 <= slow <= |closes|
    ensures |r| == |closes| - slow + 1
    ensures forall i :: 0 <= i < |r| ==> r[i] == MacdLine(closes[..slow + i], fast, slow)
  {
    seq(|closes| - slow + 1, i requires 0 <= i < |closes| - slow + 1 => MacdLine(closes[..slow + i], fast, slow))
  }

  function Macd(closes: seq<real>, fast: int, slow: int, signal: int): MacdResult
    requires fast >= 1 && slow >= 1 && signal >= 1
  {
    if |closes| < slow then MacdResult(0.0, 0.0, 0.0)
    else
      MacdFrom(MacdLine(closes, fast, slow), MacdValues(closes, fast, slow), signal)
  }

  function MacdFrom(line: real, values: seq<real>, signal: int): MacdResult
    requires signal >= 1
  {
    var sig := if |values| >= signal then Ema(values, signal) else line;
    MacdResult(line, sig, line - sig)
  }

  method CalculateMacd(closes: seq<real>, fast: int, slow: int, signal: int) returns (r: MacdResult)
    requires fast >= 1 && slow >= 1 && signal >= 1
    ensures r == Macd(closes, fast, slow, signal)
  {
    if |closes| < slow {
      return MacdResult(0.0, 0.0, 0.0);
    }
    var emaFast := CalculateEma(closes, fast);
    var emaSlow := CalculateEma(closes, slow);
    var line := emaFast - emaSlow;
    var values: seq<real> := [];
    for i := slow - 1 to |closes|
      invariant |values| == i - (slow - 1)
      invariant forall k :: 0 <= k < |values| ==> values[k] == MacdLine(closes[..slow + k], fast, slow)
    {
      var f := CalculateEma(closes[..i + 1], fast);
      var s := CalculateEma(closes[..i + 1], slow);
      values := values + [f - s];
    }
    assert values == MacdValues(closes, fast, slow);
    var sig := line;
    if |values| >= signal {
      sig := CalculateEma(values, signal);
    }
    r := MacdResult(line, sig, line - sig);
  }

  /** The recomputed series ends in the reported line, and one more close extends it by one
      value that follows from the two running EMAs alone: the quadratic recomputation
      produces exactly what a single pass would. */
  lemma MacdAppend(closes: seq<real>, x: real, fast: int, slow: int)
    requires 1 <= fast <= |closes| && 1 <= slow <= |closes|
    ensures MacdValues(closes + [x], fast, slow) == MacdValues(closes, fast, slow)
              + [EmaStep(Ema(closes, fast), x, fast) - EmaStep(Ema(closes, slow), x, slow)]
    ensures MacdValues(closes, fast, slow)[|closes| - slow] == MacdLine(closes, fast, slow)
  {
    assert closes[..|closes|] == closes;
    assert forall k :: 0 <= k <= |closes| ==> (closes + [x])[..k] == closes[..k];
    assert (closes + [x])[..|closes| + 1] == closes + [x];
    EmaAppend(closes, x, fast);
    EmaAppend(closes, x, slow);
  }

  /** The whole indicator is a single-pass recurrence once its signal line is seeded. */
  lemma MacdOnline(closes: seq<real>, x: real, fast: int, slow: int, signal: int)
    requires 1 <= fast <= |closes| && 1 <= slow <= |closes| && 1 <= signal <= |closes| - slow + 1
    ensures var before, after := Macd(closes, fast, slow, signal), Macd(closes + [x], fast, slow, signal);
            && after.line == EmaStep(Ema(closes, fast), x, fast) - EmaStep(Ema(closes, slow), x, slow)
            && after.signal == EmaStep(before.signal, after.line, signal)
            && after.histogram == after.line - after.signal
  {
    MacdAppend(closes, x, fast, slow);
    EmaAppend(closes, x, fast);
    EmaAppend(closes, x, slow);
    EmaAppend(MacdValues(closes, fast, slow), MacdLine(closes + [x], fast, slow), signal);
  }

  lemma MacdLineAffine(closes: seq<real>, fast: int, slow: int, a: real, b: real)
    requires fast >= 1 && slow >= 1 && closes != []
    ensures MacdLine(Affine(closes, a, b), fast, slow) == Line(MacdLine(closes, fast, slow), a, 0.0)
  {
    EmaAffine(closes, fast, a, b);
    EmaAffine(closes, slow, a, b);
    DifferenceAffine(Ema(closes, fast), Ema(closes, slow), a, b);
  }

  lemma DifferenceAffine(x: real, y: real, a: real, b: real)
    ensures Line(x, a, b) - Line(y, a, b) == Line(x - y, a, 0.0)
  {
    Distribute(x, y, a);
  }

  /** All three outputs scale with the price unit and ignore a price offset, for every series. */
  lemma MacdAffine(closes: seq<real>, fast: int, slow: int, signal: int, a: real, b: real)
    requires fast >= 1 && slow >= 1 && signal >= 1
    ensures var m, r := Macd(closes, fast, slow, signal), Macd(Affine(closes, a, b), fast, slow, signal);
            && r.line == Line(m.line, a, 0.0) && r.signal == Line(m.signal, a, 0.0)
            && r.histogram == Line(m.histogram, a, 0.0)
  {
    if |closes| >= slow {
      MacdLineAffine(closes, fast, slow, a, b);
      MacdValuesAffine(closes, fast, slow, a, b);
      MacdFromAffine(MacdLine(closes, fast, slow), MacdValues(closes, fast, slow), signal, a);
    }
  }

  lemma MacdFromAffine(line: real, values: seq<real>, signal: int, a: real)
    requires signal >= 1
    ensures var m, r := MacdFrom(line, values, signal), MacdFrom(Line(line, a, 0.0), Affine(values, a, 0.0), signal);
            && r.line == Line(m.line, a, 0.0) && r.signal == Line(m.signal, a, 0.0)
            && r.histogram == Line(m.histogram, a, 0.0)
  {
    var m := MacdFrom(line, values, signal);
    if |values| >= signal {
      EmaAffine(values, signal, a, 0.0);
    }
    DifferenceAffine(m.line, m.signal, a, 0.0);
  }

  lemma MacdValuesAffine(closes: seq<real>, fast: int, slow: int, a: real, b: real)
    requires fast >= 1 && 1 <= slow <= |closes|
    ensures MacdValues(Affine(closes, a, b), fast, slow) == Affine(MacdValues(closes, fast, slow), a, 0.0)
  {
    var u, v := MacdValues(Affine(closes, a, b), fast, slow), MacdValues(closes, fast, slow);
    forall i | 0 <= i < |v| ensures u[i] == Line(v[i], a, 0.0) {
      MacdPrefixAffine(closes, slow + i, fast, slow, a, b);
    }
  }

  lemma MacdPrefixAffine(closes: seq<real>, k: nat, fast: int, slow: int, a: real, b: real)
    requires fast >= 1 && slow >= 1 && 1 <= k <= |closes|
    ensures MacdLine(Affine(closes, a, b)[..k], fast, slow) == Line(MacdLine(closes[..k], fast, slow), a, 0.0)
  {
    MacdLineAffine(closes[..k], fast, slow, a, b);
    AffinePrefix(closes, k, a, b);
  }

  // ---------------------------------------------------------------- RSI

  function Changes(closes: seq<real>): (r: seq<real>)
    ensures |r| == if closes == [] then 0 else |closes| - 1
    ensures forall i :: 0 <= i < |r| ==> r[i] == closes[i + 1] - closes[i]
  {
    seq(if closes == [] then 0 else |closes| - 1, i requires 0 <= i < |closes| - 1 => closes[i + 1] - closes[i])
  }

  function Gain(change: real): real {
    if change > 0.0 then change else 0.0
  }

  function Loss(change: real): real {
    if change > 0.0 then 0.0 else Abs(change)
  }

  function RsiOf(avgGain: real, avgLoss: real): real {
    if avgLoss == 0.0 then 100.0
    else
      var d := 1.0 + avgGain / avgLoss;
      if d == 0.0 then 0.0 else 100.0 - 100.0 / d
  }

  /** The reference: average gain and loss of the last `period` changes. */
  function Rsi(closes: seq<real>, period: int): real
    requires period >= 1
  {
    if |closes| < period + 1 then 50.0
    else
      RecentRsi(Tail(Changes(closes), period), period)
  }

  function RecentRsi(recent: seq<real>, period: int): real
    requires period >= 1
  {
    RsiOf(Average(Map(Gain, recent), period), Average(Map(Loss, recent), period))
  }

  function Average(s: seq<real>, period: int): real
    requires period >= 1
  {
    Sum(s) / period as real
  }

  lemma TailMap(f: real -> real, s: seq<real>, n: int)
    requires n >= 1
    ensures Tail(Map(f, s), n) == Map(f, Tail(s, n))
  {
  }

  /** technical.calculate_rsi: two lists over the whole series, sliced at the end. */
  method CalculateRsi(closes: seq<real>, period: int) returns (rsi: real)
    requires period >= 1
    ensures rsi == Rsi(closes, period)
  {
    if |closes| < period + 1 {
      return 50.0;
    }
    var gains, losses := GainsAndLosses(closes);
    if |gains| < period {
      return 50.0;
    }
    TailMap(Gain, Changes(closes), period);
    TailMap(Loss, Changes(closes), period);
    AveragesNonNegative(Tail(Changes(closes), period), period);
    rsi := FromAverages(Average(Tail(gains, period), period), Average(Tail(losses, period), period));
  }

  method GainsAndLosses(closes: seq<real>) returns (gains: seq<real>, losses: seq<real>)
    ensures gains == Map(Gain, Changes(closes)) && losses == Map(Loss, Changes(closes))
  {
    gains, losses := [], [];
    var i := 1;
    while i < |closes|
      invariant 1 <= i && (i <= |closes| || closes == [])
      invariant |gains| == |losses| == if closes == [] then 0 else i - 1
      invariant forall k :: 0 <= k < |gains| ==> gains[k] == Gain(closes[k + 1] - closes[k])
      invariant forall k :: 0 <= k < |losses| ==> losses[k] == Loss(closes[k + 1] - closes[k])
    {
      var change := closes[i] - closes[i - 1];
      if change > 0.0 {
        gains, losses := gains + [change], losses + [0.0];
      } else {
        gains, losses := gains + [0.0], losses + [Abs(change)];
      }
      i := i + 1;
    }
  }

  method FromAverages(avgGain: real, avgLoss: real) returns (rsi: real)
    requires avgGain >= 0.0 && avgLoss >= 0.0
    ensures rsi == RsiOf(avgGain, avgLoss)
  {
    if avgLoss == 0.0 {
      return 100.0;
    }
    DivSign(avgGain, avgLoss);
    var rs := avgGain / avgLoss;
    rsi := 100.0 - 100.0 / (1.0 + rs);
  }

  function NegativePart(change: real): real {
    if change < 0.0 then -change else 0.0
  }

  /** feature_engine._rsi: comprehensions over the sliced changes. */
  function FeatureRsi(prices: seq<real>, period: int): real
    requires period >= 1
  {
    if |prices| < period + 1 then 50.0
    else
      var recent := Tail(Changes(prices), period);
      RsiOf(Average(Map(Gain, recent), period), Average(Map(NegativePart, recent), period))
  }

  /** analyze_optimal_tpsl.calc_rsi: a loop over the last `period` index pairs; None when too short. */
  method ScriptRsi(closes: seq<real>, period: int) returns (rsi: Option<real>)
    requires period >= 1
    ensures rsi == if |closes| < period + 1 then None else Some(Rsi(closes, period))
  {
    if |closes| < period + 1 {
      return None;
    }
    var gains, losses := RecentGainsAndLosses(closes, period);
    AveragesNonNegative(Tail(Changes(closes), period), period);
    var r := FromAverages(Average(gains, period), Average(losses, period));
    rsi := Some(r);
  }

  method RecentGainsAndLosses(closes: seq<real>, period: int) returns (gains: seq<real>, losses: seq<real>)
    requires 1 <= period < |closes|
    ensures gains == Map(Gain, Tail(Changes(closes), period))
    ensures losses == Map(Loss, Tail(Changes(closes), period))
  {
    hide Changes, Sum;
    gains, losses := [], [];
    var n := |closes|;
    ghost var recent := Tail(Changes(closes), period);
    for i := -period to 0
      invariant |gains| == |losses| == i + period
      invariant forall k :: 0 <= k < |gains| ==> gains[k] == Gain(recent[k])
      invariant forall k :: 0 <= k < |losses| ==> losses[k] == Loss(recent[k])
    {
      var diff := closes[n + i] - closes[n + i - 1];
      assert recent[i + period] == diff;
      gains, losses := gains + [Max(diff, 0.0)], losses + [Max(-diff, 0.0)];
    }
  }

  /** All three implementations agree; the feature engine's even on short series. */
  lemma RsiImplementationsAgree(closes: seq<real>, period: int)
    requires period >= 1
    ensures FeatureRsi(closes, period) == Rsi(closes, period)
  {
    if |closes| >= period + 1 {
      var recent := Tail(Changes(closes), period);
      assert Map(NegativePart, recent) == Map(Loss, recent);
    }
  }

  lemma {:induction false} SumNonNegative(s: seq<real>)
    requires forall i :: 0 <= i < |s| ==> s[i] >= 0.0
    ensures Sum(s) >= 0.0
  {
    if s == [] {
    } else {
      SumNonNegative(s[..|s| - 1]);
    }
  }

  /** Both averages are non-negative, so the denominator 1 + rs is never 0. */
  lemma AveragesNonNegative(recent: seq<real>, period: int)
    requires period >= 1
    ensures Average(Map(Gain, recent), period) >= 0.0 && Average(Map(Loss, recent), period) >= 0.0
  {
    SumNonNegative(Map(Gain, recent));
    SumNonNegative(Map(Loss, recent));
    DivSign(Sum(Map(Gain, recent)), period as real);
    DivSign(Sum(Map(Loss, recent)), period as real);
  }

  lemma RsiOfFacts(g: real, l: real)
    requires g >= 0.0 && l >= 0.0
    ensures 0.0 <= RsiOf(g, l) <= 100.0
    ensures RsiOf(g, l) < 50.0 <==> g < l
    ensures l == 0.0 ==> RsiOf(g, l) == 100.0
  {
    if l > 0.0 {
      var rs := g / l;
      DivMul(g, l);
      DivSign(g, l);
      DivMul(100.0, 1.0 + rs);
      IndexFacts(g, l, rs, 1.0 + rs, 100.0 / (1.0 + rs));
    }
  }

  lemma IndexFacts(g: real, l: real, rs: real, d: real, q: real)
    requires l > 0.0 && rs >= 0.0 && rs * l == g && d == 1.0 + rs && q * d == 100.0
    ensures 0.0 <= q <= 100.0
    ensures q > 50.0 <==> g < l
  {
    MulOrder(0.0, q, d);
    MulOrder(q, 100.0, d);
    assert q > 50.0 <==> rs < 1.0 by {
      MulOrder(50.0, q, d);
    }
    assert rs < 1.0 <==> g < l by {
      MulOrder(rs, 1.0, l);
    }
  }

  lemma {:induction false} Telescope(closes: seq<real>, from: nat, to: nat)
    requires from <= to < |closes|
    ensures Sum(Changes(closes)[from..to]) == closes[to] - closes[from]
  {
    hide Changes;
    if from < to {
      Telescope(closes, from, to - 1);
      var c := Changes(closes);
      assert c[from..to] == c[from..to - 1] + [c[to - 1]];
      SumSnoc(c[from..to - 1], c[to - 1]);
    } else {
      assert Changes(closes)[from..to] == [];
    }
  }

  lemma {:induction false} GainMinusLoss(s: seq<real>)
    ensures Sum(Map(Gain, s)) - Sum(Map(Loss, s)) == Sum(s)
  {
    if s == [] {
    } else {
      var n := |s| - 1;
      GainMinusLoss(s[..n]);
      assert Map(Gain, s)[..n] == Map(Gain, s[..n]) && Map(Loss, s)[..n] == Map(Loss, s[..n]);
    }
  }

  /** RSI stays in [0, 100] on every series. */
  lemma RsiRange(closes: seq<real>, period: int)
    requires period >= 1
    ensures 0.0 <= Rsi(closes, period) <= 100.0
  {
    if |closes| >= period + 1 {
      var recent := Tail(Changes(closes), period);
      AveragesNonNegative(recent, period);
      RsiOfFacts(Average(Map(Gain, recent), period), Average(Map(Loss, recent), period));
    }
  }

  /** Bearish reading: below 50 exactly when the last close is below the one `period` bars before. */
  lemma RsiBelowFifty(closes: seq<real>, period: int)
    requires 1 <= period < |closes|
    ensures Rsi(closes, period) < 50.0 <==> closes[|closes| - 1] < closes[|closes| - 1 - period]
  {
    hide Changes, RecentRsi;
    var n, recent := |closes| - 1, Tail(Changes(closes), period);
    assert recent == Changes(closes)[n - period..n];
    Telescope(closes, n - period, n);
    RecentBelowFifty(recent, period);
  }

  lemma RecentBelowFifty(recent: seq<real>, period: int)
    requires period >= 1
    ensures RecentRsi(recent, period) < 50.0 <==> Sum(recent) < 0.0
  {
    var g, l := Map(Gain, recent), Map(Loss, recent);
    GainMinusLoss(recent);
    AveragesNonNegative(recent, period);
    hide RsiOf, Sum, Map, Gain, Loss;
    RsiOfFacts(Average(g, period), Average(l, period));
    DivOrder(Sum(g), Sum(l), period as real);
  }

  lemma RatioScale(g: real, l: real, a: real)
    requires a > 0.0 && g >= 0.0 && l >= 0.0
    ensures RsiOf(a * g, a * l) == RsiOf(g, l)
  {
    if l > 0.0 {
      MulOrder(0.0, l, a);
      var q := g / l;
      DivMul(g, l);
      assert a * (q * l) == q * (a * l);
      DivUnique(a * g, a * l, q);
    } else {
      assert a * l == 0.0;
    }
  }

  /** RSI depends on neither the price unit nor a price offset. */
  lemma RsiAffine(closes: seq<real>, period: int, a: real, b: real)
    requires period >= 1 && a > 0.0
    ensures Rsi(Affine(closes, a, b), period) == Rsi(closes, period)
  {
    if |closes| >= period + 1 {
      RecentScale(closes, period, a, b);
      RsiOfScaled(Tail(Changes(closes), period), period, a);
    }
  }

  lemma RsiOfScaled(recent: seq<real>, period: int, a: real)
    requires period >= 1 && a > 0.0
    ensures RecentRsi(Affine(recent, a, 0.0), period) == RecentRsi(recent, period)
  {
    GainsScale(recent, a);
    AveragesNonNegative(recent, period);
    AverageScale(Map(Gain, recent), period, a);
    AverageScale(Map(Loss, recent), period, a);
    RatioScale(Average(Map(Gain, recent), period), Average(Map(Loss, recent), period), a);
  }

  lemma RecentScale(closes: seq<real>, period: int, a: real, b: real)
    requires 1 <= period < |closes|
    ensures Tail(Changes(Affine(closes, a, b)), period) == Affine(Tail(Changes(closes), period), a, 0.0)
  {
    ChangesScale(closes, a, b);
  }

  lemma AverageScale(s: seq<real>, period: int, a: real)
    requires period >= 1
    ensures Average(Affine(s, a, 0.0), period) == a * Average(s, period)
  {
    SumAffine(s, a, 0.0);
    MeanAffine(Sum(s), period as real, a, 0.0);
  }

  lemma ChangesScale(closes: seq<real>, a: real, b: real)
    ensures Changes(Affine(closes, a, b)) == Affine(Changes(closes), a, 0.0)
  {
    hide Changes, Affine, Line;
    forall i | 0 <= i < |closes| - 1
      ensures Changes(Affine(closes, a, b))[i] == Line(Changes(closes)[i], a, 0.0)
    {
      DifferenceAffine(closes[i + 1], closes[i], a, b);
    }
  }

  lemma GainsScale(s: seq<real>, a: real)
    requires a > 0.0
    ensures Map(Gain, Affine(s, a, 0.0)) == Affine(Map(Gain, s), a, 0.0)
    ensures Map(Loss, Affine(s, a, 0.0)) == Affine(Map(Loss, s), a, 0.0)
  {
    forall i | 0 <= i < |s|
      ensures Gain(Line(s[i], a, 0.0)) == Line(Gain(s[i]), a, 0.0)
      ensures Loss(Line(s[i], a, 0.0)) == Line(Loss(s[i]), a, 0.0)
    {
      MulOrder(0.0, s[i], a);
      Distribute(0.0, s[i], a);
    }
  }

  // ---------------------------------------------------------------- ATR

  datatype Bar = Bar(high: real, low: real, close: real)

  function TrueRange(bar: Bar, prevClose: real): real {
    Max(Max(bar.high - bar.low, Abs(bar.high - prevClose)), Abs(bar.low - prevClose))
  }

  function TrueRanges(bars: seq<Bar>): (r: seq<real>)
    ensures |r| == if bars == [] then 0 else |bars| - 1
    ensures forall i :: 0 <= i < |r| ==> r[i] == TrueRange(bars[i + 1], bars[i].close)
  {
    seq(if bars == [] then 0 else |bars| - 1, i requires 0 <= i < |bars| - 1 => TrueRange(bars[i + 1], bars[i].close))
  }

  /** technical.calculate_atr */
  function Atr(bars: seq<Bar>, period: int): real
    requires period >= 1
  {
    if |bars| < 2 then 0.0
    else
      var tr := TrueRanges(bars);
      if |tr| < period then Average(tr, |tr|) else Average(Tail(tr, period), period)
  }

  /** CandleManager.calc_atr, which first cuts the buffer to period + 1 candles. */
  function ManagerAtr(buffer: seq<Bar>, period: int): Option<real>
    requires period >= 1
  {
    var bars := if buffer != [] then Tail(buffer, period + 1) else [];
    if |bars| < period + 1 then None
    else
      var tr := TrueRanges(bars);
      Some(Average(Tail(tr, period), if |tr| <= period then |tr| else period))
  }

  /** feature_engine._calc_atr_series: the rolling average at every bar. */
  method AtrSeries(bars: seq<Bar>, period: int) returns (result: seq<real>)
    requires period >= 1
    ensures |result| == if |bars| < period + 1 then 0 else |bars| - period
    ensures forall i :: 0 <= i < |result| ==> result[i] == Atr(bars[..period + 1 + i], period)
  {
    result := [];
    if |bars| < period + 1 {
      return;
    }
    hide TrueRanges, Atr, Average;
    var tr := TrueRangeList(bars);
    result := RollingAverages(tr, period);
    forall k | 0 <= k < |result| ensures result[k] == Atr(bars[..period + 1 + k], period) {
      WindowAtr(bars, tr, k, period);
    }
  }

  method TrueRangeList(bars: seq<Bar>) returns (tr: seq<real>)
    requires bars != []
    ensures tr == TrueRanges(bars)
  {
    hide TrueRange;
    tr := [];
    for i := 1 to |bars|
      invariant |tr| == i - 1
      invariant forall k :: 0 <= k < i - 1 ==> tr[k] == TrueRange(bars[k + 1], bars[k].close)
    {
      tr := tr + [TrueRange(bars[i], bars[i - 1].close)];
    }
  }

  method RollingAverages(tr: seq<real>, period: int) returns (result: seq<real>)
    requires 1 <= period <= |tr|
    ensures |result| == |tr| - period + 1
    ensures forall k :: 0 <= k < |result| ==> result[k] == Average(tr[k..k + period], period)
  {
    result := [];
    for i := period - 1 to |tr|
      invariant |result| == i - (period - 1)
      invariant forall k :: 0 <= k < |result| ==> result[k] == Average(tr[k..k + period], period)
    {
      result := result + [Average(tr[i - period + 1..i + 1], period)];
    }
  }

  lemma WindowAtr(bars: seq<Bar>, tr: seq<real>, i: int, period: int)
    requires 1 <= period && 0 <= i < |bars| - period && tr == TrueRanges(bars)
    ensures Average(tr[i..i + period], period) == Atr(bars[..period + 1 + i], period)
  {
    hide Average, TrueRange;
    assert tr[i..i + period] == Tail(TrueRanges(bars[..period + 1 + i]), period);
  }

  /** The candle manager's ATR is the library's, on every buffer long enough to have one. */
  lemma AtrImplementationsAgree(bars: seq<Bar>, period: int)
    requires period >= 1
    ensures ManagerAtr(bars, period) == if |bars| >= period + 1 then Some(Atr(bars, period)) else None
  {
    hide Average, TrueRange, TrueRanges;
    if |bars| >= period + 1 {
      TailRanges(bars, period);
    }
  }

  lemma TailRanges(bars: seq<Bar>, period: nat)
    requires 1 <= period < |bars|
    ensures Tail(TrueRanges(Tail(bars, period + 1)), period) == Tail(TrueRanges(bars), period)
    ensures |TrueRanges(Tail(bars, period + 1))| == period
  {
    hide TrueRange, TrueRanges;
    var cut, d := bars[|bars| - period - 1..], |bars| - period - 1;
    var all, last := TrueRanges(bars), TrueRanges(cut);
    forall i | 0 <= i < period ensures last[i] == all[d + i] {
      assert cut[i] == bars[d + i] && cut[i + 1] == bars[d + i + 1];
    }
    assert last == all[d..];
  }

  // ---------------------------------------------------------------- Bollinger bands

  datatype Bands = Bands(upper: real, middle: real, lower: real)

  function SquaredDeviation(x: real, mean: real): real {
    (x - mean) * (x - mean)
  }

  function SquaredDeviations(s: seq<real>, mean: real): seq<real> {
    seq(|s|, i requires 0 <= i < |s| => SquaredDeviation(s[i], mean))
  }

  /** technical.calculate_bollinger_bands; `root` is the square root the caller's platform provides. */
  function Bollinger(closes: seq<real>, period: int, mult: real, root: real -> real): Bands
    requires period >= 1
  {
    if |closes| < period then
      var middle := if closes != [] then Sum(closes) / |closes| as real else 0.0;
      Bands(middle, middle, middle)
    else
      var recent := Tail(closes, period);
      var middle := Sum(recent) / period as real;
      var std := root(Sum(SquaredDeviations(recent, middle)) / period as real);
      Bands(middle + mult * std, middle, middle - mult * std)
  }
}
