/** Which candles make each of the six strategies signal, as bounds on prices and volume, both ways, and
    which symbols a run signals at a timestamp. */
module SignalRules {
  import opened PySeq
  import opened Reals
  import opened History
  import opened Signals
  import opened Indicators
  import opened IndicatorLaws

  // ---------------------------------------------------------------- bounds

  /** A relative change from `base` of at most factor - 1. */
  ghost predicate Falls(price: real, factor: real, base: real) {
    if base > 0.0 then price <= factor * base else price >= factor * base
  }

  /** A relative change from `base` of at least factor - 1. */
  ghost predicate Rises(price: real, factor: real, base: real) {
    if base > 0.0 then price >= factor * base else price <= factor * base
  }

  /** The relative volume is known, not 0, and at least minRvol. */
  ghost predicate Busy(rvol: Option<real>, minRvol: real) {
    rvol.Some? && rvol.value != 0.0 && minRvol <= rvol.value
  }

  /** The lower wick is at least this share of the candle's range. */
  ghost predicate Wick(c: Candle, share: real) {
    c.low < c.high ==>
      share * (c.high - c.low) <= c.close - c.low && share * (c.high - c.low) <= c.open - c.low
  }

  /** The body is at least this share of the candle's range. */
  ghost predicate Body(c: Candle, share: real) {
    c.low < c.high ==>
      share * (c.high - c.low) <= c.close - c.open || share * (c.high - c.low) <= c.open - c.close
  }

  lemma ChangeBound(price: real, base: real, bound: real)
    requires base != 0.0
    ensures (price - base) / base <= bound <==> Falls(price, 1.0 + bound, base)
    ensures (price - base) / base >= bound <==> Rises(price, 1.0 + bound, base)
  {
    var q := (price - base) / base;
    DivMul(price - base, base);
    Distribute(1.0, bound, base);
    if base > 0.0 {
      MulOrder(q, bound, base);
      MulOrder(bound, q, base);
    } else {
      MulOrder(q, bound, -base);
      MulOrder(bound, q, -base);
      Negate(q, base);
      Negate(bound, base);
    }
  }

  lemma Negate(a: real, b: real)
    ensures a * (-b) == -(a * b)
  {
  }

  lemma DropBound(price: real, base: real, bound: real)
    requires base > 0.0
    ensures (base - price) / base >= bound <==> price <= (1.0 - bound) * base
  {
    var q := (base - price) / base;
    DivMul(base - price, base);
    MulOrder(q, bound, base);
    Distribute(1.0, bound, base);
  }

  lemma ShareBound(part: real, range: real, share: real)
    requires range > 0.0
    ensures part / range < share <==> part < share * range
  {
    DivMul(part, range);
    MulOrder(part / range, share, range);
  }

  lemma WickExactly(c: Candle, share: real)
    ensures LowerWickBelow(c, share) <==> !Wick(c, share)
  {
    hide LowerWickBelow, Wick;
    var range := c.high - c.low;
    var part := if c.close <= c.open then c.close - c.low else c.open - c.low;
    WickBelowShape(c, share, part, range);
    WickShape(c, share, part, range);
    if range > 0.0 {
      ShareBound(part, range, share);
    }
  }

  lemma WickBelowShape(c: Candle, share: real, part: real, range: real)
    requires range == c.high - c.low && part == if c.close <= c.open then c.close - c.low else c.open - c.low
    ensures LowerWickBelow(c, share) <==> range > 0.0 && part / range < share
  {
  }

  lemma WickShape(c: Candle, share: real, part: real, range: real)
    requires range == c.high - c.low && part == if c.close <= c.open then c.close - c.low else c.open - c.low
    ensures Wick(c, share) <==> (range > 0.0 ==> share * range <= part)
  {
    var need := share * (c.high - c.low);
    assert need == share * range;
  }

  lemma BodyExactly(c: Candle, share: real)
    ensures BodyRatioBelow(c, share) <==> !Body(c, share)
  {
    if c.high - c.low > 0.0 {
      ShareBound(Abs(c.close - c.open), c.high - c.low, share);
    }
  }

  lemma BusyExactly(rvol: Option<real>, minRvol: real)
    ensures WeakVolume(rvol, minRvol) <==> !Busy(rvol, minRvol)
  {
  }

  /** The volume's part of a score: at most `cap` times `weight`. */
  function VolumePoints(rvol: Option<real>, cap: real, weight: real): real {
    if rvol.None? then 0.0 else if rvol.value < cap then rvol.value * weight else cap * weight
  }

  /** A capped rule signals exactly when its conditions hold and its score reaches the minimum; the
      signal carries that score, but never more than 100. */
  ghost predicate Capped(d: Decision, holds: bool, score: real, minScore: real) {
    && (d.Emit? <==> holds && minScore <= score)
    && (d.Emit? ==> d.score == if score <= 100.0 then score else 100.0)
  }

  /** The relative size of a move, as a number. */
  ghost predicate IsChange(move: real, size: real, base: real) {
    base != 0.0 ==> move * base == size
  }

  lemma ChangeUnique(move: real, size: real, base: real)
    requires base != 0.0 && IsChange(move, size, base)
    ensures size / base == move
  {
    DivUnique(size, base, move);
  }

  // ---------------------------------------------------------------- the rules

  /** PULLBACK: the last of at least 30 candles closes at most 2% above the lower band, RSI at most 38, rising
      with a body of 45% of its range, and the MACD histogram not below -0.1% of the price. */
  ghost predicate PullbackHolds(c: seq<Candle>, lower: real, rsi: real, hist: real) {
    && |c| >= 30
    && var last := c[|c| - 1];
       && last.close <= lower * 1.02 && rsi <= 38.0 && last.open < last.close && Body(last, 0.45)
       && -0.001 * last.close <= hist
  }

  function PullbackScore(close: real, lower: real, rsi: real, hist: real): real {
    60.0 + (if rsi < 28.0 then 20.0 else if rsi < 35.0 then 12.0 else 0.0)
    + (if close < lower then 15.0 else 0.0) + (if 0.0 < hist then 10.0 else 0.0)
  }

  lemma PullbackExactly(c: seq<Candle>, minScore: real, root: real -> real, lower: real, rsi: real, hist: real)
    requires lower == Bollinger(Closes(c), 20, 2.0, root).lower && rsi == Rsi(Closes(c), 14)
    requires hist == Macd(Closes(c), 12, 26, 9).histogram
    ensures var d := PullbackRule(c, minScore, root);
            && d != ZeroDivision
            && (d.Emit? <==> PullbackHolds(c, lower, rsi, hist)
                             && minScore <= PullbackScore(c[|c| - 1].close, lower, rsi, hist))
            && (d.Emit? ==> minScore <= d.score <= 105.0
                            && d.score == PullbackScore(c[|c| - 1].close, lower, rsi, hist))
  {
    hide Bollinger, Rsi, Macd, BodyRatioBelow, Body;
    if |c| >= 30 {
      BodyExactly(c[|c| - 1], 0.45);
    }
  }

  /** REBOUND: the last of at least 10 candles closes minDrop or more below the close three candles before,
      on a relative volume of minRvol, with RSI at most 30 and a lower wick of 25% of its range. */
  ghost predicate ReboundHolds(c: seq<Candle>, rvol: Option<real>, minDrop: real, minRvol: real, rsi: real) {
    && |c| >= 10
    && var last, past := c[|c| - 1], c[|c| - 4].close;
       && past != 0.0 && Falls(last.close, 1.0 - minDrop, past) && Busy(rvol, minRvol) && rsi <= 30.0 && Wick(last, 0.25)
  }

  lemma ReboundExactly(c: seq<Candle>, rvol: Option<real>, minDrop: real, minRvol: real, minScore: real, rsi: real, move: real)
    requires rsi == Rsi(Closes(c), 14)
    requires |c| >= 10 ==> IsChange(move, c[|c| - 1].close - c[|c| - 4].close, c[|c| - 4].close)
    ensures var d := ReboundRule(c, rvol, minDrop, minRvol, minScore);
            && (d == ZeroDivision <==> |c| >= 10 && c[|c| - 4].close == 0.0)
            && Capped(d, ReboundHolds(c, rvol, minDrop, minRvol, rsi),
                      70.0 + 500.0 * Abs(move) + VolumePoints(rvol, 5.0, 3.0), minScore)
  {
    hide Rsi, LowerWickBelow, Wick, WeakVolume, Busy, Falls, Rises, IsChange;
    if |c| >= 10 && c[|c| - 4].close != 0.0 {
      var last, past := c[|c| - 1], c[|c| - 4].close;
      ChangeUnique(move, last.close - past, past);
      ChangeBound(last.close, past, -minDrop);
      WickExactly(last, 0.25);
      BusyExactly(rvol, minRvol);
      BusyKnown(rvol, minRvol);
    }
  }

  lemma BusyKnown(rvol: Option<real>, minRvol: real)
    ensures Busy(rvol, minRvol) ==> rvol.Some?
  {
  }

  /** DIP_SCALPER: the last of at least 5 candles closes minDip or more below the close before it, on a
      relative volume of minRvol, with RSI at most 42 and a lower wick of 20% of its range. */
  ghost predicate DipHolds(c: seq<Candle>, rvol: Option<real>, minDip: real, minRvol: real, rsi: real) {
    && |c| >= 5
    && var last, past := c[|c| - 1], c[|c| - 2].close;
       && past != 0.0 && Falls(last.close, 1.0 - minDip, past) && Busy(rvol, minRvol) && rsi <= 42.0 && Wick(last, 0.20)
  }

  lemma DipExactly(c: seq<Candle>, rvol: Option<real>, minDip: real, minRvol: real, minScore: real, rsi: real, move: real)
    requires rsi == Rsi(Closes(c), 14)
    requires |c| >= 5 ==> IsChange(move, c[|c| - 1].close - c[|c| - 2].close, c[|c| - 2].close)
    ensures var d := DipRule(c, rvol, minDip, minRvol, minScore);
            && (d == ZeroDivision <==> |c| >= 5 && c[|c| - 2].close == 0.0)
            && Capped(d, DipHolds(c, rvol, minDip, minRvol, rsi),
                      55.0 + 400.0 * Abs(move) + VolumePoints(rvol, 4.0, 5.0)
                      + (if rsi < 28.0 then 15.0 else if rsi < 35.0 then 8.0 else 0.0), minScore)
  {
    hide Rsi, LowerWickBelow, Wick, WeakVolume, Busy, Falls, Rises, IsChange;
    if |c| >= 5 && c[|c| - 2].close != 0.0 {
      var last, past := c[|c| - 1], c[|c| - 2].close;
      ChangeUnique(move, last.close - past, past);
      ChangeBound(last.close, past, -minDip);
      WickExactly(last, 0.20);
      BusyExactly(rvol, minRvol);
      BusyKnown(rvol, minRvol);
    }
  }

  /** The highest high of these candles. */
  ghost predicate Peak(c: seq<Candle>, top: real) {
    && (forall i :: 0 <= i < |c| ==> c[i].high <= top)
    && exists i :: 0 <= i < |c| && c[i].high == top
  }

  /** The lowest low of these candles. */
  ghost predicate Trough(c: seq<Candle>, bottom: real) {
    && (forall i :: 0 <= i < |c| ==> bottom <= c[i].low)
    && exists i :: 0 <= i < |c| && c[i].low == bottom
  }

  lemma {:induction false} PeakExactly(c: seq<Candle>)
    requires c != []
    ensures Peak(c, MaxOf(Map(High, c)))
  {
    if |c| == 1 {
    } else {
      var n := |c| - 1;
      PeakExactly(c[..n]);
      assert Map(High, c)[..n] == Map(High, c[..n]);
      PeakSnoc(c, MaxOf(Map(High, c[..n])), MaxOf(Map(High, c)));
    }
  }

  lemma PeakSnoc(c: seq<Candle>, before: real, top: real)
    requires c != [] && Peak(c[..|c| - 1], before) && top == Max(before, c[|c| - 1].high)
    ensures Peak(c, top)
  {
    var rest := c[..|c| - 1];
    var i :| 0 <= i < |rest| && rest[i].high == before;
    assert c[i] == rest[i];
    forall j | 0 <= j < |c| ensures c[j].high <= top {
      assert j < |rest| ==> rest[j] == c[j];
    }
  }

  lemma {:induction false} TroughExactly(c: seq<Candle>)
    requires c != []
    ensures Trough(c, MinOf(Map(Low, c)))
  {
    if |c| == 1 {
    } else {
      var n := |c| - 1;
      TroughExactly(c[..n]);
      assert Map(Low, c)[..n] == Map(Low, c[..n]);
      TroughSnoc(c, MinOf(Map(Low, c[..n])), MinOf(Map(Low, c)));
    }
  }

  lemma TroughSnoc(c: seq<Candle>, before: real, bottom: real)
    requires c != [] && Trough(c[..|c| - 1], before) && bottom == Min(before, c[|c| - 1].low)
    ensures Trough(c, bottom)
  {
    var rest := c[..|c| - 1];
    var i :| 0 <= i < |rest| && rest[i].low == before;
    assert c[i] == rest[i];
    forall j | 0 <= j < |c| ensures bottom <= c[j].low {
      assert j < |rest| ==> rest[j] == c[j];
    }
  }

  lemma PeakUnique(c: seq<Candle>, top: real)
    requires c != [] && Peak(c, top)
    ensures MaxOf(Map(High, c)) == top
  {
    PeakExactly(c);
  }

  lemma TroughUnique(c: seq<Candle>, bottom: real)
    requires c != [] && Trough(c, bottom)
    ensures MinOf(Map(Low, c)) == bottom
  {
    TroughExactly(c);
  }

  /** ATTACK: the last of at least 15 candles closes minBreakout to maxBreakout above the highest high of the
      14 before it, on a relative volume of minRvol, rising with a body of half its range, RSI at most 75. */
  ghost predicate AttackHolds(c: seq<Candle>, rvol: Option<real>, minBreakout: real, maxBreakout: real,
                              minRvol: real, rsi: real, top: real)
  {
    && |c| >= 15 && top != 0.0
    && var last := c[|c| - 1];
       && Rises(last.close, 1.0 + minBreakout, top) && Falls(last.close, 1.0 + maxBreakout, top)
       && Busy(rvol, minRvol) && last.open < last.close && Body(last, 0.50) && rsi <= 75.0
  }

  lemma AttackExactly(c: seq<Candle>, rvol: Option<real>, minBreakout: real, maxBreakout: real, minRvol: real, minScore: real,
                      rsi: real, top: real, move: real)
    requires rsi == Rsi(Closes(c), 14)
    requires |c| >= 15 ==> Peak(c[|c| - 15..|c| - 1], top) && IsChange(move, c[|c| - 1].close - top, top)
    ensures var d := AttackRule(c, rvol, minBreakout, maxBreakout, minRvol, minScore);
            && (d == ZeroDivision <==> |c| >= 15 && top == 0.0)
            && Capped(d, AttackHolds(c, rvol, minBreakout, maxBreakout, minRvol, rsi, top),
                      60.0 + 400.0 * move + VolumePoints(rvol, 5.0, 4.0), minScore)
  {
    hide Rsi, BodyRatioBelow, Body, WeakVolume, Busy, Falls, Rises, IsChange, Peak, MaxOf, Map;
    if |c| >= 15 {
      var last := c[|c| - 1];
      PeakUnique(c[|c| - 15..|c| - 1], top);
      BodyExactly(last, 0.50);
      BusyExactly(rvol, minRvol);
      BusyKnown(rvol, minRvol);
      if top != 0.0 {
        ChangeUnique(move, last.close - top, top);
        ChangeBound(last.close, top, minBreakout);
        ChangeBound(last.close, top, maxBreakout);
      }
    }
  }

  /** SHORT_BREAKDOWN: the last of at least 15 candles closes minBreakdown or more below the lowest low of the 11
      before it, on a relative volume of minRvol, falling, with RSI at most 70. */
  ghost predicate BreakdownHolds(c: seq<Candle>, rvol: Option<real>, minBreakdown: real, minRvol: real, rsi: real, bottom: real) {
    && |c| >= 15
    && var last := c[|c| - 1];
       && (if bottom > 0.0 then last.close <= (1.0 - minBreakdown) * bottom else minBreakdown <= 0.0)
       && Busy(rvol, minRvol) && last.close < last.open && rsi <= 70.0
  }

  /** The relative size of a fall from a positive level; from any other level it counts as 0. */
  ghost predicate IsFall(fall: real, price: real, level: real) {
    if level > 0.0 then fall * level == level - price else fall == 0.0
  }

  /** The code also asks for a MACD line not above 0, but a window of 25 candles is too short for one. */
  lemma BreakdownExactly(c: seq<Candle>, rvol: Option<real>, minBreakdown: real, minRvol: real, minScore: real,
                         rsi: real, bottom: real, fall: real)
    requires rsi == Rsi(Closes(c), 14)
    requires |c| >= 15 ==> Trough(c[|c| - 12..|c| - 1], bottom) && IsFall(fall, c[|c| - 1].close, bottom)
    ensures var d := BreakdownRule(c, rvol, minBreakdown, minRvol, minScore);
            && d != ZeroDivision
            && Capped(d, BreakdownHolds(c, rvol, minBreakdown, minRvol, rsi, bottom)
                         && (|c| >= 26 ==> Macd(Closes(c), 12, 26, 9).line <= 0.0),
                      60.0 + 500.0 * fall + VolumePoints(rvol, 4.0, 5.0), minScore)
  {
    hide Rsi, MacdLine, MacdFrom, MacdValues, WeakVolume, Busy, Trough, MinOf, Map;
    if |c| >= 15 {
      TroughUnique(c[|c| - 12..|c| - 1], bottom);
      BusyExactly(rvol, minRvol);
      BusyKnown(rvol, minRvol);
      FallBound(c[|c| - 1].close, bottom, fall, minBreakdown);
    }
  }

  lemma FallBound(price: real, level: real, fall: real, bound: real)
    requires IsFall(fall, price, level)
    ensures fall == if level > 0.0 then (level - price) / level else 0.0
    ensures bound <= fall <==> if level > 0.0 then price <= (1.0 - bound) * level else bound <= 0.0
  {
    if level > 0.0 {
      DivUnique(level - price, level, fall);
      DropBound(price, level, bound);
    }
  }

  /** SHORT_RALLY_FADE: the highest high of the last 15 candles is minRally or more above the lowest low of the
      first ten of them, the last close minFade or more below that high, RSI at least 52, the last candle
      falling with a body of 45% of its range and one of the two before it falling too. */
  ghost predicate FadeHolds(c: seq<Candle>, minRally: real, minFade: real, rsi: real, top: real, bottom: real) {
    && |c| >= 15
    && var last := c[|c| - 1];
       && (if bottom > 0.0 then top >= (1.0 + minRally) * bottom else minRally <= 0.0)
       && (if top > 0.0 then last.close <= (1.0 - minFade) * top else minFade <= 0.0)
       && rsi >= 52.0 && last.close < last.open && Body(last, 0.45)
       && (c[|c| - 2].close < c[|c| - 2].open || c[|c| - 3].close < c[|c| - 3].open)
  }

  ghost predicate IsRally(rally: real, price: real, level: real) {
    if level > 0.0 then rally * level == price - level else rally == 0.0
  }

  /** The code also asks for a MACD histogram not above 0, but a window of 25 candles is too short for one. */
  lemma FadeExactly(c: seq<Candle>, minRally: real, minFade: real, minScore: real, rsi: real,
                    top: real, bottom: real, fade: real, rally: real)
    requires rsi == Rsi(Closes(c), 14)
    requires |c| >= 15 ==>
               && Peak(c[|c| - 15..], top) && Trough(c[|c| - 15..|c| - 5], bottom)
               && IsFall(fade, c[|c| - 1].close, top) && IsRally(rally, top, bottom)
    ensures var d := FadeRule(c, minRally, minFade, minScore);
            && d != ZeroDivision
            && Capped(d, FadeHolds(c, minRally, minFade, rsi, top, bottom)
                         && (|c| >= 26 ==> Macd(Closes(c), 12, 26, 9).histogram <= 0.0),
                      60.0 + 300.0 * fade + 150.0 * rally + (if rsi > 65.0 then 12.0 else 0.0), minScore)
  {
    hide Rsi, MacdLine, MacdFrom, MacdValues, Peak, Trough, MinOf, MaxOf, Map, BodyRatioBelow, Body;
    if |c| >= 15 {
      PeakUnique(c[|c| - 15..], top);
      TroughUnique(c[|c| - 15..|c| - 5], bottom);
      BodyExactly(c[|c| - 1], 0.45);
      FallBound(c[|c| - 1].close, top, fade, minFade);
      RallyBound(top, bottom, rally, minRally);
    }
  }

  lemma RallyBound(price: real, level: real, rally: real, bound: real)
    requires IsRally(rally, price, level)
    ensures rally == if level > 0.0 then (price - level) / level else 0.0
    ensures bound <= rally <==> if level > 0.0 then price >= (1.0 + bound) * level else bound <= 0.0
  {
    if level > 0.0 {
      DivUnique(price - level, level, rally);
      ChangeBound(price, level, bound);
    }
  }

  /** What each generator looks at: its window of 5-minute candles and the relative volume. */
  lemma AskedFor(st: Strategy, f: Feed, s: Symbol, root: real -> real)
    ensures Decider(st, f, root)(s) ==
              match st
              case Pullback(minScore, _) => PullbackRule(GetCandles(f, s, "5m", 50), minScore, root)
              case Rebound(minDrop, minRvol, minScore, _) =>
                ReboundRule(GetCandles(f, s, "5m", 20), CalcRvol(f, s, "5m", 20), minDrop, minRvol, minScore)
              case DipScalper(minDip, minRvol, minScore, _) =>
                DipRule(GetCandles(f, s, "5m", 15), CalcRvol(f, s, "5m", 10), minDip, minRvol, minScore)
              case Attack(minBreakout, maxBreakout, minRvol, minScore, _) =>
                AttackRule(GetCandles(f, s, "5m", 25), CalcRvol(f, s, "5m", 15), minBreakout, maxBreakout, minRvol, minScore)
              case ShortBreakdown(minBreakdown, minRvol, minScore, _) =>
                BreakdownRule(GetCandles(f, s, "5m", 25), CalcRvol(f, s, "5m", 20), minBreakdown, minRvol, minScore)
              case ShortRallyFade(minRally, minFade, minScore, _) =>
                FadeRule(GetCandles(f, s, "5m", 25), minRally, minFade, minScore)
  {
    hide GetCandles, CalcRvol, PullbackRule, ReboundRule, DipRule, AttackRule, BreakdownRule, FadeRule;
  }

  /** So the MACD conditions of the two short strategies, documented as a confirmation, never decide anything. */
  lemma MacdNeverAsked(f: Feed, s: Symbol)
    ensures Macd(Closes(GetCandles(f, s, "5m", 25)), 12, 26, 9) == MacdResult(0.0, 0.0, 0.0)
  {
    hide UpTo;
  }

  // ---------------------------------------------------------------- deeper moves

  lemma {:induction false} SameMoves(a: seq<real>, b: seq<real>, lo: nat, hi: nat)
    requires lo <= hi < |a| && hi < |b| && a[..hi + 1] == b[..hi + 1]
    ensures Risen(a, lo, hi) == Risen(b, lo, hi) && Fallen(a, lo, hi) == Fallen(b, lo, hi)
    ensures Risen(a, lo, hi) >= 0.0 && Fallen(a, lo, hi) >= 0.0
    decreases hi
  {
    if lo == hi {
    } else {
      assert a[..hi] == a[..hi + 1][..hi] == b[..hi];
      SameMoves(a, b, lo, hi - 1);
      assert a[hi] == a[..hi + 1][hi] == b[hi] && a[hi - 1] == a[..hi + 1][hi - 1] == b[hi - 1];
    }
  }

  /** A lower last close never raises the RSI. */
  lemma RsiLower(a: seq<real>, b: seq<real>, period: int)
    requires period >= 1 && |a| == |b| > 0 && a[..|a| - 1] == b[..|a| - 1] && b[|a| - 1] <= a[|a| - 1]
    ensures Rsi(b, period) <= Rsi(a, period)
  {
    hide Rsi, RiseShare;
    RsiClosedForm(a, period);
    RsiClosedForm(b, period);
    if |a| > period {
      var n := |a| - 1;
      assert a[..n] == a[..n - 1 + 1];
      SameMoves(a, b, n - period, n - 1);
      assert a[n - 1] == a[..n][n - 1] == b[n - 1];
      RsiRange(b, period);
      ShareLower(Rsi(a, period), Risen(a, n - period, n), Fallen(a, n - period, n),
                 Rsi(b, period), Risen(b, n - period, n), Fallen(b, n - period, n));
    }
  }

  lemma ShareLower(r: real, up: real, down: real, r': real, up': real, down': real)
    requires RiseShare(r, up, down) && RiseShare(r', up', down')
    requires 0.0 <= up' <= up && 0.0 <= down <= down' && r' <= 100.0
    ensures r' <= r
  {
    if down > 0.0 {
      CrossShares(up, down, up', down');
      MulOrder(r, r', (up + down) * (up' + down'));
      MulPositive(up + down, up' + down');
      Associate(r, up + down, up' + down');
      Associate(r', up' + down', up + down);
      Associate(100.0, up, up' + down');
      Associate(100.0, up', up + down);
    }
  }

  lemma CrossShares(up: real, down: real, up': real, down': real)
    requires 0.0 <= up' <= up && 0.0 <= down <= down'
    ensures up' * (up + down) <= up * (up' + down')
  {
    MulNonNegative(up - up', down);
    MulNonNegative(up, down' - down);
    Distribute(up, down, up');
    Distribute(up', down', up);
    Distribute(up, up', down);
    Distribute(down', down, up);
  }

  /** d is c with another last candle, which opens and peaks where the old one does. */
  ghost predicate OtherClose(c: seq<Candle>, d: seq<Candle>) {
    && |c| == |d| > 0 && c[..|c| - 1] == d[..|c| - 1]
    && d[|c| - 1].open == c[|c| - 1].open && d[|c| - 1].high == c[|c| - 1].high
  }

  lemma OtherRsi(c: seq<Candle>, d: seq<Candle>)
    requires OtherClose(c, d) && d[|c| - 1].close <= c[|c| - 1].close
    ensures Rsi(Closes(d), 14) <= Rsi(Closes(c), 14)
  {
    hide Rsi;
    var n := |c| - 1;
    assert Closes(c)[..n] == Closes(c[..n]) == Closes(d[..n]) == Closes(d)[..n];
    RsiLower(Closes(c), Closes(d), 14);
  }

  lemma Deeper(price: real, price': real, base: real, factor: real, move: real, move': real)
    requires base > 0.0 && price' <= price <= base
    requires IsChange(move, price - base, base) && IsChange(move', price' - base, base)
    ensures Falls(price, factor, base) ==> Falls(price', factor, base)
    ensures Abs(move) <= Abs(move')
  {
    MulOrder(move', move, base);
    MulOrder(0.0, move, base);
  }

  /** More traded than before, relative to the same past. */
  ghost predicate Busier(rvol: Option<real>, rvol': Option<real>) {
    rvol.Some? ==> rvol'.Some? && 0.0 < rvol.value <= rvol'.value
  }

  lemma MorePoints(rvol: Option<real>, rvol': Option<real>, minRvol: real, cap: real, weight: real)
    requires Busier(rvol, rvol') && Busy(rvol, minRvol) && weight > 0.0
    ensures Busy(rvol', minRvol) && VolumePoints(rvol, cap, weight) <= VolumePoints(rvol', cap, weight)
  {
    MulOrder(rvol.value, rvol'.value, weight);
    MulOrder(rvol.value, cap, weight);
    MulOrder(rvol'.value, cap, weight);
  }

  /** d signals whenever c does, with no smaller score. */
  ghost predicate AtLeast(c: Decision, d: Decision) {
    c.Emit? ==> d.Emit? && c.score <= d.score
  }

  lemma AtLeastFrom(c: Decision, d: Decision, holds: bool, holds': bool, score: real, score': real, minScore: real)
    requires Capped(c, holds, score, minScore) && Capped(d, holds', score', minScore)
    requires holds ==> holds' && score <= score'
    ensures AtLeast(c, d)
  {
  }

  /** DIP_SCALPER never loses a signal to a deeper dip, with the wick still long enough and no less volume. */
  lemma DipDeeper(c: seq<Candle>, d: seq<Candle>, rvol: Option<real>, rvol': Option<real>,
                  minDip: real, minRvol: real, minScore: real, move: real, move': real)
    requires OtherClose(c, d) && Busier(rvol, rvol') && |c| >= 5
    requires c[|c| - 2].close > 0.0 && d[|c| - 1].close <= c[|c| - 1].close <= c[|c| - 2].close && Wick(d[|c| - 1], 0.20)
    requires IsChange(move, c[|c| - 1].close - c[|c| - 2].close, c[|c| - 2].close)
    requires IsChange(move', d[|c| - 1].close - c[|c| - 2].close, c[|c| - 2].close)
    ensures AtLeast(DipRule(c, rvol, minDip, minRvol, minScore), DipRule(d, rvol', minDip, minRvol, minScore))
  {
    hide DipRule, Rsi, Wick, Falls, Busy, Busier, IsChange, Capped, VolumePoints, AtLeast;
    var n, rsi, rsi' := |c| - 1, Rsi(Closes(c), 14), Rsi(Closes(d), 14);
    assert d[n - 1] == d[..n][n - 1] == c[n - 1];
    OtherRsi(c, d);
    DipExactly(c, rvol, minDip, minRvol, minScore, rsi, move);
    DipExactly(d, rvol', minDip, minRvol, minScore, rsi', move');
    Deeper(c[n].close, d[n].close, c[n - 1].close, 1.0 - minDip, move, move');
    if Busy(rvol, minRvol) {
      MorePoints(rvol, rvol', minRvol, 4.0, 5.0);
    }
    AtLeastFrom(DipRule(c, rvol, minDip, minRvol, minScore), DipRule(d, rvol', minDip, minRvol, minScore),
                DipHolds(c, rvol, minDip, minRvol, rsi), DipHolds(d, rvol', minDip, minRvol, rsi'),
                55.0 + 400.0 * Abs(move) + VolumePoints(rvol, 4.0, 5.0)
                + (if rsi < 28.0 then 15.0 else if rsi < 35.0 then 8.0 else 0.0),
                55.0 + 400.0 * Abs(move') + VolumePoints(rvol', 4.0, 5.0)
                + (if rsi' < 28.0 then 15.0 else if rsi' < 35.0 then 8.0 else 0.0), minScore);
  }

  /** Nor does REBOUND to a deeper drop. */
  lemma ReboundDeeper(c: seq<Candle>, d: seq<Candle>, rvol: Option<real>, rvol': Option<real>,
                      minDrop: real, minRvol: real, minScore: real, move: real, move': real)
    requires OtherClose(c, d) && Busier(rvol, rvol') && |c| >= 10
    requires c[|c| - 4].close > 0.0 && d[|c| - 1].close <= c[|c| - 1].close <= c[|c| - 4].close && Wick(d[|c| - 1], 0.25)
    requires IsChange(move, c[|c| - 1].close - c[|c| - 4].close, c[|c| - 4].close)
    requires IsChange(move', d[|c| - 1].close - c[|c| - 4].close, c[|c| - 4].close)
    ensures AtLeast(ReboundRule(c, rvol, minDrop, minRvol, minScore), ReboundRule(d, rvol', minDrop, minRvol, minScore))
  {
    hide ReboundRule, Rsi, Wick, Falls, Busy, Busier, IsChange, Capped, VolumePoints, AtLeast;
    var n, rsi, rsi' := |c| - 1, Rsi(Closes(c), 14), Rsi(Closes(d), 14);
    assert d[n - 3] == d[..n][n - 3] == c[n - 3];
    OtherRsi(c, d);
    ReboundExactly(c, rvol, minDrop, minRvol, minScore, rsi, move);
    ReboundExactly(d, rvol', minDrop, minRvol, minScore, rsi', move');
    Deeper(c[n].close, d[n].close, c[n - 3].close, 1.0 - minDrop, move, move');
    if Busy(rvol, minRvol) {
      MorePoints(rvol, rvol', minRvol, 5.0, 3.0);
    }
    AtLeastFrom(ReboundRule(c, rvol, minDrop, minRvol, minScore), ReboundRule(d, rvol', minDrop, minRvol, minScore),
                ReboundHolds(c, rvol, minDrop, minRvol, rsi), ReboundHolds(d, rvol', minDrop, minRvol, rsi'),
                70.0 + 500.0 * Abs(move) + VolumePoints(rvol, 5.0, 3.0),
                70.0 + 500.0 * Abs(move') + VolumePoints(rvol', 5.0, 3.0), minScore);
  }

  lemma DeeperFall(price: real, price': real, level: real, factor: real, fall: real, fall': real)
    requires price' <= price && IsFall(fall, price, level) && IsFall(fall', price', level)
    ensures fall <= fall' && (level > 0.0 && price <= factor * level ==> price' <= factor * level)
  {
    if level > 0.0 {
      MulOrder(fall', fall, level);
    }
  }

  /** Nor does SHORT_BREAKDOWN to a close further below the same lowest low. */
  lemma BreakdownDeeper(c: seq<Candle>, d: seq<Candle>, rvol: Option<real>, rvol': Option<real>,
                        minBreakdown: real, minRvol: real, minScore: real, bottom: real, fall: real, fall': real)
    requires OtherClose(c, d) && Busier(rvol, rvol') && 15 <= |c| <= 25
    requires d[|c| - 1].close <= c[|c| - 1].close && Trough(c[|c| - 12..|c| - 1], bottom)
    requires IsFall(fall, c[|c| - 1].close, bottom) && IsFall(fall', d[|c| - 1].close, bottom)
    ensures AtLeast(BreakdownRule(c, rvol, minBreakdown, minRvol, minScore),
                    BreakdownRule(d, rvol', minBreakdown, minRvol, minScore))
  {
    hide BreakdownRule, Rsi, Busy, Busier, IsFall, Capped, VolumePoints, AtLeast, Trough, Macd;
    var n, rsi, rsi' := |c| - 1, Rsi(Closes(c), 14), Rsi(Closes(d), 14);
    assert d[n - 11..n] == d[..n][n - 11..n] == c[..n][n - 11..n] == c[n - 11..n];
    OtherRsi(c, d);
    BreakdownExactly(c, rvol, minBreakdown, minRvol, minScore, rsi, bottom, fall);
    BreakdownExactly(d, rvol', minBreakdown, minRvol, minScore, rsi', bottom, fall');
    DeeperFall(c[n].close, d[n].close, bottom, 1.0 - minBreakdown, fall, fall');
    if Busy(rvol, minRvol) {
      MorePoints(rvol, rvol', minRvol, 4.0, 5.0);
    }
    AtLeastFrom(BreakdownRule(c, rvol, minBreakdown, minRvol, minScore), BreakdownRule(d, rvol', minBreakdown, minRvol, minScore),
                BreakdownHolds(c, rvol, minBreakdown, minRvol, rsi, bottom), BreakdownHolds(d, rvol', minBreakdown, minRvol, rsi', bottom),
                60.0 + 500.0 * fall + VolumePoints(rvol, 4.0, 5.0), 60.0 + 500.0 * fall' + VolumePoints(rvol', 4.0, 5.0), minScore);
  }

  /** Nor does SHORT_RALLY_FADE to a deeper fade from the same high, while the RSI stays above its two thresholds
      and the body long enough. */
  lemma FadeDeeper(c: seq<Candle>, d: seq<Candle>, minRally: real, minFade: real, minScore: real,
                   top: real, bottom: real, fade: real, fade': real, rally: real)
    requires OtherClose(c, d) && 15 <= |c| <= 25 && d[|c| - 1].close <= c[|c| - 1].close
    requires var rsi, rsi' := Rsi(Closes(c), 14), Rsi(Closes(d), 14);
             (rsi >= 52.0 ==> rsi' >= 52.0) && (rsi > 65.0 ==> rsi' > 65.0)
    requires Body(d[|c| - 1], 0.45) && Peak(c[|c| - 15..], top) && Trough(c[|c| - 15..|c| - 5], bottom)
    requires IsFall(fade, c[|c| - 1].close, top) && IsFall(fade', d[|c| - 1].close, top) && IsRally(rally, top, bottom)
    ensures AtLeast(FadeRule(c, minRally, minFade, minScore), FadeRule(d, minRally, minFade, minScore))
  {
    hide *;
    var n, rsi, rsi' := |c| - 1, Rsi(Closes(c), 14), Rsi(Closes(d), 14);
    OtherLength(c, d);
    SameBefore(c, d, n - 14, n - 4);
    SamePeak(c, d, n - 14, top);
    FadeExactly(c, minRally, minFade, minScore, rsi, top, bottom, fade, rally);
    FadeExactly(d, minRally, minFade, minScore, rsi', top, bottom, fade', rally);
    DeeperFall(c[n].close, d[n].close, top, 1.0 - minFade, fade, fade');
    FadeStillHolds(c, d, minRally, minFade, rsi, rsi', top, bottom);
    AtLeastFrom(FadeRule(c, minRally, minFade, minScore), FadeRule(d, minRally, minFade, minScore),
                FadeHolds(c, minRally, minFade, rsi, top, bottom), FadeHolds(d, minRally, minFade, rsi', top, bottom),
                60.0 + 300.0 * fade + 150.0 * rally + (if rsi > 65.0 then 12.0 else 0.0),
                60.0 + 300.0 * fade' + 150.0 * rally + (if rsi' > 65.0 then 12.0 else 0.0), minScore);
  }

  lemma OtherLength(c: seq<Candle>, d: seq<Candle>)
    requires OtherClose(c, d)
    ensures |c| == |d| > 0
  {
  }

  lemma SameBefore(c: seq<Candle>, d: seq<Candle>, lo: nat, hi: nat)
    requires OtherClose(c, d) && lo <= hi < |c|
    ensures hi <= |d| && d[lo..hi] == c[lo..hi]
  {
    var n := |c| - 1;
    assert d[lo..hi] == d[..n][lo..hi] == c[..n][lo..hi] == c[lo..hi];
  }

  lemma FadeStillHolds(c: seq<Candle>, d: seq<Candle>, minRally: real, minFade: real, rsi: real, rsi': real, top: real, bottom: real)
    requires OtherClose(c, d) && d[|c| - 1].close <= c[|c| - 1].close && Body(d[|c| - 1], 0.45) && (rsi >= 52.0 ==> rsi' >= 52.0)
    ensures FadeHolds(c, minRally, minFade, rsi, top, bottom) ==> FadeHolds(d, minRally, minFade, rsi', top, bottom)
  {
    hide Body;
    var n := |c| - 1;
    if n >= 2 {
      assert d[n - 1] == d[..n][n - 1] == c[n - 1] && d[n - 2] == d[..n][n - 2] == c[n - 2];
    }
  }

  lemma SamePeak(c: seq<Candle>, d: seq<Candle>, from: nat, top: real)
    requires OtherClose(c, d) && from < |c| && Peak(c[from..], top)
    ensures Peak(d[from..], top)
  {
    forall i | 0 <= i < |c| ensures d[i].high == c[i].high {
      assert i < |c| - 1 ==> d[i] == d[..|c| - 1][i] == c[..|c| - 1][i] == c[i];
    }
    var i :| 0 <= i < |c[from..]| && c[from..][i].high == top;
    assert d[from..][i].high == top;
    forall j | 0 <= j < |d[from..]| ensures d[from..][j].high <= top {
      assert c[from..][j].high <= top;
    }
  }

  /** ATTACK never loses a signal to a stronger breakout over the same high, up to maxBreakout, with RSI and body
      still within their bounds. */
  lemma AttackStronger(c: seq<Candle>, d: seq<Candle>, rvol: Option<real>, rvol': Option<real>, minBreakout: real,
                       maxBreakout: real, minRvol: real, minScore: real, top: real, move: real, move': real)
    requires OtherClose(c, d) && Busier(rvol, rvol') && |c| >= 15 && top > 0.0 && Peak(c[|c| - 15..|c| - 1], top)
    requires c[|c| - 1].close <= d[|c| - 1].close && Falls(d[|c| - 1].close, 1.0 + maxBreakout, top)
    requires Rsi(Closes(d), 14) <= 75.0 && Body(d[|c| - 1], 0.50)
    requires IsChange(move, c[|c| - 1].close - top, top) && IsChange(move', d[|c| - 1].close - top, top)
    ensures AtLeast(AttackRule(c, rvol, minBreakout, maxBreakout, minRvol, minScore),
                    AttackRule(d, rvol', minBreakout, maxBreakout, minRvol, minScore))
  {
    hide AttackRule, Rsi, Body, Falls, Busy, Busier, IsChange, Capped, VolumePoints, AtLeast, Peak;
    var n, rsi, rsi' := |c| - 1, Rsi(Closes(c), 14), Rsi(Closes(d), 14);
    assert d[n - 14..n] == d[..n][n - 14..n] == c[..n][n - 14..n] == c[n - 14..n];
    AttackExactly(c, rvol, minBreakout, maxBreakout, minRvol, minScore, rsi, top, move);
    AttackExactly(d, rvol', minBreakout, maxBreakout, minRvol, minScore, rsi', top, move');
    LargerMove(c[n].close, d[n].close, top, move, move');
    if Busy(rvol, minRvol) {
      MorePoints(rvol, rvol', minRvol, 5.0, 4.0);
    }
    AtLeastFrom(AttackRule(c, rvol, minBreakout, maxBreakout, minRvol, minScore),
                AttackRule(d, rvol', minBreakout, maxBreakout, minRvol, minScore),
                AttackHolds(c, rvol, minBreakout, maxBreakout, minRvol, rsi, top),
                AttackHolds(d, rvol', minBreakout, maxBreakout, minRvol, rsi', top),
                60.0 + 400.0 * move + VolumePoints(rvol, 5.0, 4.0),
                60.0 + 400.0 * move' + VolumePoints(rvol', 5.0, 4.0), minScore);
  }

  lemma LargerMove(price: real, price': real, base: real, move: real, move': real)
    requires base > 0.0 && price <= price'
    requires IsChange(move, price - base, base) && IsChange(move', price' - base, base)
    ensures move <= move'
  {
    MulOrder(move', move, base);
  }
}
