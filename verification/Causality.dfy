/** No lookahead: a run up to time T depends only on candles that open at or before T. */
module Causality {
  import opened PySeq
  import opened History
  import opened Signals
  import opened TimeOrder
  import opened Backtest

  function SeriesSymbols(series: seq<Series>): set<Symbol> {
    set i | 0 <= i < |series| :: series[i].symbol
  }

  /** Two inputs with the same settings and symbols whose candles agree up to the horizon,
      for every symbol and for the hourly BTC series; what lies beyond is arbitrary. */
  ghost predicate AgreeUpTo(a: Config, b: Config, horizon: Time) {
    && a.strategy == b.strategy && a.params == b.params && a.capital == b.capital
    && a.trend0 == b.trend0 && a.last0 == b.last0 && a.root == b.root
    && |a.series| == |b.series|
    && (forall i :: 0 <= i < |a.series| ==>
          && a.series[i].symbol == b.series[i].symbol
          && UpTo(a.series[i].candles, horizon) == UpTo(b.series[i].candles, horizon))
    && SamePast(a.feed, b.feed, SeriesSymbols(a.series), horizon)
  }

  ghost predicate OpensAt(candles: seq<Candle>, t: Time) {
    exists j :: 0 <= j < |candles| && candles[j].openTime == t
  }

  lemma OpensAtSnoc(candles: seq<Candle>, c: Candle, t: Time)
    ensures OpensAt(candles + [c], t) <==> OpensAt(candles, t) || c.openTime == t
  {
    var more := candles + [c];
    if OpensAt(candles, t) {
      var j :| 0 <= j < |candles| && candles[j].openTime == t;
      assert more[j].openTime == t;
    }
    assert more[|candles|] == c;
    if OpensAt(more, t) {
      var j :| 0 <= j < |more| && more[j].openTime == t;
      assert j < |candles| ==> candles[j].openTime == t;
    }
  }

  lemma {:induction false} UpToMembers(candles: seq<Candle>, horizon: Time, t: Time)
    requires t <= horizon
    ensures OpensAt(candles, t) <==> OpensAt(UpTo(candles, horizon), t)
  {
    if candles == [] {
    } else {
      var n := |candles| - 1;
      UpToMembers(candles[..n], horizon, t);
      assert candles == candles[..n] + [candles[n]];
      OpensAtSnoc(candles[..n], candles[n], t);
      var u := UpTo(candles[..n], horizon);
      OpensAtSnoc(u, candles[n], t);
      assert u + [] == u;
    }
  }

  lemma TimesAgree(a: seq<Series>, b: seq<Series>, horizon: Time, t: Time)
    requires |a| == |b| && t <= horizon
    requires forall i :: 0 <= i < |a| ==> UpTo(a[i].candles, horizon) == UpTo(b[i].candles, horizon)
    ensures t in AllTimes(a) ==> t in AllTimes(b)
  {
    if t in AllTimes(a) {
      var i, j :| 0 <= i < |a| && 0 <= j < |a[i].candles| && a[i].candles[j].openTime == t;
      assert OpensAt(a[i].candles, t);
      UpToMembers(a[i].candles, horizon, t);
      UpToMembers(b[i].candles, horizon, t);
      var m :| 0 <= m < |b[i].candles| && b[i].candles[m].openTime == t;
    }
  }

  /** The price at t is the price in the past-only view. */
  lemma {:induction false} CloseAtPast(candles: seq<Candle>, horizon: Time, t: Time)
    requires t <= horizon
    ensures CloseAt(candles, t) == CloseAt(UpTo(candles, horizon), t)
  {
    if candles == [] {
    } else {
      hide CloseAt, UpTo;
      var n := |candles| - 1;
      assert candles == candles[..n] + [candles[n]];
      CloseAtPast(candles[..n], horizon, t);
      CloseAtSnoc(candles[..n], candles[n], t);
      UpToSnoc(candles[..n], candles[n], horizon);
      CloseAtSnoc(UpTo(candles[..n], horizon), candles[n], t);
    }
  }

  lemma CloseAtSnoc(candles: seq<Candle>, c: Candle, t: Time)
    ensures CloseAt(candles + [c], t)
         == if CloseAt(candles, t).Some? then CloseAt(candles, t) else if c.openTime == t then Some(c.close) else None
  {
    assert (candles + [c])[..|candles|] == candles;
  }

  lemma {:induction false} PricesAgree(a: seq<Series>, b: seq<Series>, horizon: Time, t: Time)
    requires |a| == |b| && t <= horizon
    requires forall i :: 0 <= i < |a| ==>
               a[i].symbol == b[i].symbol && UpTo(a[i].candles, horizon) == UpTo(b[i].candles, horizon)
    ensures PricesAt(a, t) == PricesAt(b, t)
  {
    if a == [] {
    } else {
      var n := |a| - 1;
      PricesAgree(a[..n], b[..n], horizon, t);
      CloseAtPast(a[n].candles, horizon, t);
      CloseAtPast(b[n].candles, horizon, t);
    }
  }

  lemma {:induction false} ActiveAgree(a: seq<Series>, b: seq<Series>, ps: seq<Position>)
    requires |a| == |b| && forall i :: 0 <= i < |a| ==> a[i].symbol == b[i].symbol
    ensures ActiveSymbols(a, ps) == ActiveSymbols(b, ps)
    ensures forall i :: 0 <= i < |ActiveSymbols(a, ps)| ==> ActiveSymbols(a, ps)[i] in SeriesSymbols(a)
  {
    if a == [] {
    } else {
      var n := |a| - 1;
      ActiveAgree(a[..n], b[..n], ps);
      assert forall s :: s in SeriesSymbols(a[..n]) ==> s in SeriesSymbols(a);
      assert a[n].symbol in SeriesSymbols(a);
    }
  }

  lemma SignalsAgree(a: Config, b: Config, horizon: Time, t: Time, trend: Trend, ps: seq<Position>, last: map<Symbol, Time>)
    requires AgreeUpTo(a, b, horizon) && t <= horizon
    ensures SignalsAt(a, t, trend, ps, last) == SignalsAt(b, t, trend, ps, last)
  {
    ActiveAgree(a.series, b.series, ps);
    GenerateSame(a.strategy, a.feed, b.feed, ActiveSymbols(a.series, ps), SeriesSymbols(a.series), horizon, trend, t, last, a.root);
  }

  lemma TrendAgree(a: Config, b: Config, horizon: Time, t: Time, trend: Trend)
    requires AgreeUpTo(a, b, horizon) && t <= horizon
    ensures TrendAt(a, t, trend) == TrendAt(b, t, trend)
  {
    SameBtc(a.feed, b.feed, SeriesSymbols(a.series), horizon, t);
  }

  lemma SamePrices(a: Config, b: Config, horizon: Time, t: Time)
    requires AgreeUpTo(a, b, horizon) && t <= horizon
    ensures PricesAt(a.series, t) == PricesAt(b.series, t)
  {
    hide PricesAt;
    PricesAgree(a.series, b.series, horizon, t);
  }

  lemma SameParams(a: Config, b: Config, horizon: Time)
    requires AgreeUpTo(a, b, horizon)
    ensures a.params == b.params
  {
  }

  lemma StepAgrees(a: Config, b: Config, horizon: Time, t: Time, s: Run)
    requires AgreeUpTo(a, b, horizon) && t <= horizon
    ensures Step(a, t, s) == Step(b, t, s)
  {
    hide AgreeUpTo, PricesAt, TrendAt, SignalsAt, Judger, SweepRaises, SweepBook, OpenAll, FirstFive;
    SameParams(a, b, horizon);
    SamePrices(a, b, horizon, t);
    TrendAgree(a, b, horizon, t, s.trend);
    forall ps ensures SignalsAt(a, t, TrendAt(a, t, s.trend), ps, s.last) == SignalsAt(b, t, TrendAt(a, t, s.trend), ps, s.last) {
      SignalsAgree(a, b, horizon, t, TrendAt(a, t, s.trend), ps, s.last);
    }
  }

  /** No lookahead: after each of the timestamps up to the horizon the two runs have processed
      the same timestamps and have identical cash, positions, trades, trend and generator memory
      (and have raised or not alike). */
  lemma {:induction false} NoLookahead(a: Config, b: Config, horizon: Time, k: nat)
    requires Ready(a) && Ready(b) && AgreeUpTo(a, b, horizon)
    requires k <= |a.times| && forall i :: 0 <= i < k ==> a.times[i] <= horizon
    ensures k <= |b.times| && a.times[..k] == b.times[..k]
    ensures RunTo(a, k) == RunTo(b, k)
  {
    hide *;
    SameTimestamps(a, b, horizon, k);
    RunUnfolds(a, k);
    RunUnfolds(b, k);
    if k == 0 {
      SameStart(a, b, horizon);
    } else {
      NoLookahead(a, b, horizon, k - 1);
      assert a.times[k - 1] == a.times[..k][k - 1] == b.times[k - 1];
      StepAgrees(a, b, horizon, a.times[k - 1], RunTo(a, k - 1));
    }
  }

  lemma SameTimestamps(a: Config, b: Config, horizon: Time, k: nat)
    requires Ready(a) && Ready(b) && AgreeUpTo(a, b, horizon)
    requires k <= |a.times| && forall i :: 0 <= i < k ==> a.times[i] <= horizon
    ensures k <= |b.times| && a.times[..k] == b.times[..k]
  {
    hide SortedTimes, AllTimes;
    forall t | t <= horizon ensures t in AllTimes(a.series) <==> t in AllTimes(b.series) {
      TimesAgree(a.series, b.series, horizon, t);
      TimesAgree(b.series, a.series, horizon, t);
    }
    SamePrefix(AllTimes(a.series), AllTimes(b.series), horizon, k);
  }

  lemma SameStart(a: Config, b: Config, horizon: Time)
    requires AgreeUpTo(a, b, horizon)
    ensures a.capital == b.capital && a.trend0 == b.trend0 && a.last0 == b.last0
  {
  }

  lemma RunUnfolds(cfg: Config, k: nat)
    requires k <= |cfg.times|
    ensures RunTo(cfg, k) == if k == 0 then Run(Book(cfg.capital, [], []), cfg.trend0, cfg.last0, false)
                             else Step(cfg, cfg.times[k - 1], RunTo(cfg, k - 1))
  {
    hide Step;
  }
}
