/** SimpleHistoryProvider of run_backtest.py: all candles are loaded up front, and every
    query is answered as of the current simulated time. */
module History {
  import opened PySeq

  type Symbol = string

  /** Microseconds since the epoch. */
  type Time = int

  datatype Candle = Candle(openTime: Time, open: real, high: real, low: real, close: real,
                           volume: real, quoteVolume: real)

  datatype Feed = Feed(data: map<Symbol, map<string, seq<Candle>>>, btc1h: seq<Candle>, now: Option<Time>)

  function Minutes(from: Time, to: Time): real {
    (to - from) as real / 60000000.0
  }

  /** `[c for c in candles if c.open_time <= t]` */
  function UpTo(candles: seq<Candle>, t: Time): seq<Candle> {
    if candles == [] then []
    else
      var c := candles[|candles| - 1];
      UpTo(candles[..|candles| - 1], t) + if c.openTime <= t then [c] else []
  }

  function Loaded(f: Feed, symbol: Symbol, interval: string): Option<seq<Candle>> {
    if symbol !in f.data || interval !in f.data[symbol] then None else Some(f.data[symbol][interval])
  }

  function GetCandles(f: Feed, symbol: Symbol, interval: string, count: int): seq<Candle> {
    match Loaded(f, symbol, interval)
    case None => []
    case Some(candles) =>
      var visible := if f.now.None? then candles else UpTo(candles, f.now.value);
      if |visible| >= count then Tail(visible, count) else visible
  }

  function GetBtc1h(f: Feed): seq<Candle> {
    if f.now.None? || f.btc1h == [] then f.btc1h else UpTo(f.btc1h, f.now.value)
  }

  function QuoteVolume(c: Candle): real {
    c.quoteVolume
  }

  function ClosingPrice(c: Candle): real {
    c.close
  }

  /** Volume of the last `periods` candles relative to the `periods` before; None without enough or with no past volume. */
  function CalcRvol(f: Feed, symbol: Symbol, interval: string, periods: int): Option<real>
    requires periods >= 1
  {
    var candles := GetCandles(f, symbol, interval, periods * 2);
    if |candles| < periods * 2 then None
    else
      var n := |candles| - periods;
      var recent := Sum(Map(QuoteVolume, Tail(candles, periods))) / periods as real;
      var past := Sum(Map(QuoteVolume, candles[..n])) / n as real;
      if past > 0.0 then Some(recent / past) else None
  }

  lemma UpToSnoc(candles: seq<Candle>, c: Candle, t: Time)
    ensures UpTo(candles + [c], t) == if c.openTime <= t then UpTo(candles, t) + [c] else UpTo(candles, t)
  {
    assert (candles + [c])[..|candles|] == candles;
  }

  lemma {:induction false} UpToOnlyPast(candles: seq<Candle>, t: Time)
    ensures forall i :: 0 <= i < |UpTo(candles, t)| ==> UpTo(candles, t)[i].openTime <= t && UpTo(candles, t)[i] in candles
  {
    if candles == [] {
    } else {
      UpToOnlyPast(candles[..|candles| - 1], t);
    }
  }

  /** Looking less far into a past-only view is looking into the full data. */
  lemma {:induction false} UpToTwice(candles: seq<Candle>, t: Time, horizon: Time)
    requires t <= horizon
    ensures UpTo(UpTo(candles, horizon), t) == UpTo(candles, t)
  {
    if candles == [] {
    } else {
      var n := |candles| - 1;
      UpToTwice(candles[..n], t, horizon);
      var p := UpTo(candles[..n], horizon);
      if candles[n].openTime <= horizon {
        assert (p + [candles[n]])[..|p|] == p;
      } else {
        assert p + [] == p;
      }
    }
  }

  /** Two feeds that show the same past up to the horizon. */
  ghost predicate SamePast(f: Feed, g: Feed, symbols: set<Symbol>, horizon: Time) {
    && (forall s, i :: s in symbols ==>
          && Loaded(f, s, i).Some? == Loaded(g, s, i).Some?
          && (Loaded(f, s, i).Some? ==> UpTo(Loaded(f, s, i).value, horizon) == UpTo(Loaded(g, s, i).value, horizon)))
    && UpTo(f.btc1h, horizon) == UpTo(g.btc1h, horizon)
  }

  /** Every query at a time up to the horizon has the same answer on both. */
  lemma SameAnswers(f: Feed, g: Feed, symbols: set<Symbol>, horizon: Time, t: Time, s: Symbol, interval: string, count: int)
    requires SamePast(f, g, symbols, horizon) && t <= horizon && s in symbols
    ensures GetCandles(f.(now := Some(t)), s, interval, count) == GetCandles(g.(now := Some(t)), s, interval, count)
  {
    assert Loaded(f, s, interval) == Loaded(f.(now := Some(t)), s, interval);
    assert Loaded(g, s, interval) == Loaded(g.(now := Some(t)), s, interval);
    if Loaded(f, s, interval).Some? {
      UpToTwice(Loaded(f, s, interval).value, t, horizon);
      UpToTwice(Loaded(g, s, interval).value, t, horizon);
    }
  }

  lemma SameBtc(f: Feed, g: Feed, symbols: set<Symbol>, horizon: Time, t: Time)
    requires SamePast(f, g, symbols, horizon) && t <= horizon
    ensures GetBtc1h(f.(now := Some(t))) == GetBtc1h(g.(now := Some(t)))
  {
    UpToTwice(f.btc1h, t, horizon);
    UpToTwice(g.btc1h, t, horizon);
  }

  class HistoryProvider {
    var feed: Feed

    constructor ()
      ensures feed == Feed(map[], [], None)
    {
      feed := Feed(map[], [], None);
    }

    method LoadData(symbol: Symbol, interval: string, candles: seq<Candle>)
      modifies this
      ensures Loaded(feed, symbol, interval) == Some(candles)
      ensures forall s, i :: s != symbol || i != interval ==> Loaded(feed, s, i) == Loaded(old(feed), s, i)
      ensures feed.btc1h == old(feed.btc1h) && feed.now == old(feed.now)
    {
      if symbol !in feed.data {
        feed := feed.(data := feed.data[symbol := map[]]);
      }
      feed := feed.(data := feed.data[symbol := feed.data[symbol][interval := candles]]);
    }

    method LoadBtc1h(candles: seq<Candle>)
      modifies this
      ensures feed == old(feed).(btc1h := candles)
    {
      feed := feed.(btc1h := candles);
    }

    method SetTime(t: Time)
      modifies this
      ensures feed == old(feed).(now := Some(t))
    {
      feed := feed.(now := Some(t));
    }
  }
}
