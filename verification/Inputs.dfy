/** What the timestamp loop is given at every timestamp, told from the loaded candles alone: the windows
    of candles, the relative volume, the prices and the market trend. */
module Inputs {
  import opened PySeq
  import opened Reals
  import opened History
  import opened Signals
  import opened Backtest
  import Indicators

  // ---------------------------------------------------------------- windows

  function OpenBy(t: Time): Candle -> bool {
    (c: Candle) => c.openTime <= t
  }

  /** w holds the candles at these places. */
  ghost predicate Holds(w: seq<Candle>, candles: seq<Candle>, at: seq<nat>) {
    && |w| == |at|
    && forall i :: 0 <= i < |at| ==> at[i] < |candles| && w[i] == candles[at[i]]
  }

  /** The candles visible at t are all of those that open at or before t, in loading order. */
  lemma {:induction false} VisibleExactly(candles: seq<Candle>, t: Time) returns (at: seq<nat>)
    ensures AllPlaces(candles, OpenBy(t), at) && Holds(UpTo(candles, t), candles, at)
  {
    if candles == [] {
      at := [];
    } else {
      var n := |candles| - 1;
      var before := VisibleExactly(candles[..n], t);
      at := if candles[n].openTime <= t then before + [n] else before;
      AllPlacesSnoc(candles, OpenBy(t), before);
      HoldsSnoc(UpTo(candles[..n], t), candles, before);
      assert UpTo(candles[..n], t) + [] == UpTo(candles[..n], t);
    }
  }

  lemma HoldsSnoc(w: seq<Candle>, candles: seq<Candle>, before: seq<nat>)
    requires candles != [] && Holds(w, candles[..|candles| - 1], before)
    ensures Holds(w, candles, before)
    ensures Holds(w + [candles[|candles| - 1]], candles, before + [|candles| - 1])
  {
    var n := |candles| - 1;
    forall i | 0 <= i < |before| ensures before[i] < |candles| && w[i] == candles[before[i]] {
      assert w[i] == candles[..n][before[i]];
    }
  }

  /** w is the newest `count` of the candles at these places, or all of them if there are fewer. */
  ghost predicate Newest(w: seq<Candle>, candles: seq<Candle>, at: seq<nat>, count: nat) {
    && |w| == (if |at| <= count then |at| else count)
    && Holds(w, candles, at[|at| - |w|..])
  }

  /** A window asked for at time t is the newest `count` of the candles that open at or before t. */
  lemma WindowExactly(f: Feed, t: Time, symbol: Symbol, interval: string, count: nat) returns (at: seq<nat>)
    requires count >= 1
    ensures var w := GetCandles(f.(now := Some(t)), symbol, interval, count);
            if symbol in f.data && interval in f.data[symbol] then
              AllPlaces(f.data[symbol][interval], OpenBy(t), at) && Newest(w, f.data[symbol][interval], at, count)
            else w == []
  {
    at := [];
    if symbol in f.data && interval in f.data[symbol] {
      hide *;
      var candles := f.data[symbol][interval];
      at := VisibleExactly(candles, t);
      NewestHold(UpTo(candles, t), candles, at, count);
      WindowShape(f, t, symbol, interval, count);
    }
  }

  lemma NewestHold(all: seq<Candle>, candles: seq<Candle>, at: seq<nat>, count: nat)
    requires count >= 1 && Holds(all, candles, at)
    ensures Newest(if |all| >= count then Tail(all, count) else all, candles, at, count)
  {
  }

  lemma WindowShape(f: Feed, t: Time, symbol: Symbol, interval: string, count: nat)
    requires symbol in f.data && interval in f.data[symbol]
    ensures var all := UpTo(f.data[symbol][interval], t);
            GetCandles(f.(now := Some(t)), symbol, interval, count) == if |all| >= count then Tail(all, count) else all
  {
    hide UpTo, Tail;
  }

  // ---------------------------------------------------------------- relative volume

  /** What was traded in these candles. */
  function Traded(c: seq<Candle>): real {
    if c == [] then 0.0 else Traded(c[..|c| - 1]) + c[|c| - 1].quoteVolume
  }

  lemma {:induction false} TradedIsSum(c: seq<Candle>)
    ensures Sum(Map(QuoteVolume, c)) == Traded(c)
  {
    if c == [] {
    } else {
      TradedIsSum(c[..|c| - 1]);
      assert Map(QuoteVolume, c)[..|c| - 1] == Map(QuoteVolume, c[..|c| - 1]);
    }
  }

  /** The relative volume compares the newer half of 2 * periods candles with the older half; there is
      none without that many candles, or when nothing was traded in the older half. */
  lemma RvolExactly(f: Feed, symbol: Symbol, interval: string, periods: int)
    requires periods >= 1
    ensures var w, r := GetCandles(f, symbol, interval, periods * 2), CalcRvol(f, symbol, interval, periods);
            && |w| <= periods * 2
            && (r.Some? <==> |w| == periods * 2 && Traded(w[..periods]) > 0.0)
            && (r.Some? ==> r.value * Traded(w[..periods]) == Traded(w[periods..]))
  {
    hide UpTo, Sum, Traded;
    var w := GetCandles(f, symbol, interval, periods * 2);
    if |w| == periods * 2 {
      assert Tail(w, periods) == w[periods..];
      TradedIsSum(w[..periods]);
      TradedIsSum(w[periods..]);
      RatioOfMeans(Traded(w[periods..]), Traded(w[..periods]), periods as real);
    }
  }

  lemma RatioOfMeans(a: real, b: real, n: real)
    requires n > 0.0
    ensures b / n > 0.0 <==> b > 0.0
    ensures b / n > 0.0 ==> ((a / n) / (b / n)) * b == a
  {
    DivSign(b, n);
    if b / n > 0.0 {
      var x, y := a / n, b / n;
      var q := x / y;
      DivMul(a, n);
      DivMul(b, n);
      DivMul(x, y);
      Associate(q, y, n);
    }
  }

  // ---------------------------------------------------------------- prices

  /** x is the first of these candles that opens at t. */
  ghost predicate FirstAt(candles: seq<Candle>, t: Time, x: int) {
    0 <= x < |candles| && candles[x].openTime == t && forall y :: 0 <= y < x ==> candles[y].openTime != t
  }

  lemma {:induction false} CloseExactly(candles: seq<Candle>, t: Time)
    ensures var r := CloseAt(candles, t);
            if r.None? then forall x :: 0 <= x < |candles| ==> candles[x].openTime != t
            else exists x :: FirstAt(candles, t, x) && candles[x].close == r.value
  {
    if candles == [] {
    } else {
      var n := |candles| - 1;
      var before := candles[..n];
      CloseExactly(before, t);
      if CloseAt(before, t).Some? {
        var x :| FirstAt(before, t, x) && before[x].close == CloseAt(before, t).value;
        FirstStays(candles, t, x);
      } else if candles[n].openTime == t {
        NoneBefore(candles, t);
      }
    }
  }

  lemma FirstStays(candles: seq<Candle>, t: Time, x: int)
    requires candles != [] && FirstAt(candles[..|candles| - 1], t, x)
    ensures FirstAt(candles, t, x) && candles[x] == candles[..|candles| - 1][x]
  {
    var before := candles[..|candles| - 1];
    forall y | 0 <= y < x ensures candles[y].openTime != t {
      assert before[y].openTime != t;
    }
  }

  lemma NoneBefore(candles: seq<Candle>, t: Time)
    requires candles != [] && candles[|candles| - 1].openTime == t
    requires var before := candles[..|candles| - 1]; forall x :: 0 <= x < |before| ==> before[x].openTime != t
    ensures FirstAt(candles, t, |candles| - 1)
  {
    var before := candles[..|candles| - 1];
    forall y | 0 <= y < |candles| - 1 ensures candles[y].openTime != t {
      assert before[y].openTime != t;
    }
  }

  /** This series prices its symbol at t. */
  ghost predicate PricedBy(s: Series, t: Time, price: real) {
    exists x :: FirstAt(s.candles, t, x) && s.candles[x].close == price
  }

  ghost predicate PricedIn(series: seq<Series>, t: Time, s: Symbol, price: real) {
    exists i :: 0 <= i < |series| && series[i].symbol == s && PricedBy(series[i], t, price)
  }

  /** A symbol has a price at t exactly when one of its candles opens at t, and the price is the close of
      the first such candle. */
  lemma {:induction false} PricesExactly(series: seq<Series>, t: Time, s: Symbol, price: real)
    requires DistinctSeries(series)
    ensures (s in PricesAt(series, t) && PricesAt(series, t)[s] == price) <==> PricedIn(series, t, s, price)
  {
    hide FirstAt;
    if series == [] {
    } else {
      var n := |series| - 1;
      var before := series[..n];
      PricesExactly(before, t, s, price);
      CloseExactly(series[n].candles, t);
      OnePrice(series[n], t, price);
      hide PricedBy;
      PricedSnoc(before, series[n], t, s, price);
      assert series == before + [series[n]];
      if series[n].symbol == s {
        NotPricedBefore(series, t, s);
      }
    }
  }

  lemma PricedSnoc(series: seq<Series>, last: Series, t: Time, s: Symbol, price: real)
    ensures PricedIn(series + [last], t, s, price) == (PricedIn(series, t, s, price) || (last.symbol == s && PricedBy(last, t, price)))
  {
    hide PricedBy;
    var all := series + [last];
    if PricedIn(series, t, s, price) {
      var i :| 0 <= i < |series| && series[i].symbol == s && PricedBy(series[i], t, price);
      assert all[i] == series[i];
    }
    if last.symbol == s && PricedBy(last, t, price) {
      assert all[|series|] == last;
    }
    if PricedIn(all, t, s, price) {
      var i :| 0 <= i < |all| && all[i].symbol == s && PricedBy(all[i], t, price);
      assert i < |series| ==> series[i] == all[i];
    }
  }

  lemma FirstUnique(candles: seq<Candle>, t: Time, x: int, y: int)
    requires FirstAt(candles, t, x) && FirstAt(candles, t, y)
    ensures x == y
  {
  }

  lemma OnePrice(s: Series, t: Time, price: real)
    ensures PricedBy(s, t, price) <==> CloseAt(s.candles, t) == Some(price)
  {
    CloseExactly(s.candles, t);
    if CloseAt(s.candles, t).Some? {
      var x :| FirstAt(s.candles, t, x) && s.candles[x].close == CloseAt(s.candles, t).value;
      if PricedBy(s, t, price) {
        var y :| FirstAt(s.candles, t, y) && s.candles[y].close == price;
        FirstUnique(s.candles, t, x, y);
      }
    }
  }

  lemma {:induction false} NotPricedBefore(series: seq<Series>, t: Time, s: Symbol)
    requires DistinctSeries(series) && series != [] && series[|series| - 1].symbol == s
    ensures s !in PricesAt(series[..|series| - 1], t)
    ensures forall i :: 0 <= i < |series| - 1 ==> series[i].symbol != s
  {
    OnlyListed(series[..|series| - 1], t, s);
  }

  lemma {:induction false} OnlyListed(series: seq<Series>, t: Time, s: Symbol)
    requires forall i :: 0 <= i < |series| ==> series[i].symbol != s
    ensures s !in PricesAt(series, t)
  {
    if series == [] {
    } else {
      OnlyListed(series[..|series| - 1], t, s);
    }
  }

  // ---------------------------------------------------------------- trend

  /** The trend of 20 or more hourly candles is the last close against 101% and 99% of their EMA. */
  lemma TrendExactly(btc: seq<Candle>, ema: real)
    requires |btc| >= 20 ==> ema == Indicators.Ema(Closes(btc), 20)
    ensures var bounded := |btc| >= 20 && ema > 0.0;
            && (HourlyTrend(btc) == Bullish <==> bounded && btc[|btc| - 1].close > 1.01 * ema)
            && (HourlyTrend(btc) == Bearish <==> bounded && btc[|btc| - 1].close < 0.99 * ema)
  {
    hide Indicators.Ema;
    if |btc| >= 20 && ema > 0.0 {
      var last := btc[|btc| - 1].close;
      assert Closes(btc)[|btc| - 1] == last;
      RelativeTo(last, ema, 0.01);
      RelativeTo(last, ema, -0.01);
    }
  }

  /** A relative change compared with a bound is the price compared with a multiple of the base. */
  lemma RelativeTo(price: real, base: real, bound: real)
    requires base > 0.0
    ensures (price - base) / base > bound <==> price > (1.0 + bound) * base
    ensures (price - base) / base < bound <==> price < (1.0 + bound) * base
  {
    DivMul(price - base, base);
    MulOrder((price - base) / base, bound, base);
    MulOrder(bound, (price - base) / base, base);
    Distribute(1.0, bound, base);
  }

  /** The trend at a timestamp is that of the BTC candles that open at or before it; before the first
      of them the previous trend stays. */
  lemma TrendAtExactly(cfg: Config, t: Time, trend: Trend) returns (at: seq<nat>, btc: seq<Candle>)
    ensures AllPlaces(cfg.feed.btc1h, OpenBy(t), at) && Holds(btc, cfg.feed.btc1h, at)
    ensures TrendAt(cfg, t, trend) == if at == [] then trend else HourlyTrend(btc)
  {
    at := VisibleExactly(cfg.feed.btc1h, t);
    btc := UpTo(cfg.feed.btc1h, t);
    hide HourlyTrend;
  }
}
