/** SimpleBacktester as the object run_backtest.py makes of it: fields updated in loops. Every
    method is proved to compute the functions of module Backtest. */
module Backtester {
  import opened PySeq
  import opened History
  import opened Signals
  import opened TimeOrder
  import opened Backtest
  import opened BacktestLaws

  class SimpleBacktester {
    const initialCapital: real
    var cash: real
    var positions: seq<Position>
    var trades: seq<Trade>
    var hourlyTrend: Trend
    const history: HistoryProvider

    constructor (initialCapital: real)
      ensures this.initialCapital == initialCapital && Snapshot() == Book(initialCapital, [], [])
      ensures hourlyTrend == Sideways && fresh(history)
    {
      this.initialCapital := initialCapital;
      cash := initialCapital;
      positions, trades := [], [];
      hourlyTrend := Sideways;
      history := new HistoryProvider();
    }

    function Snapshot(): Book
      reads this
    {
      Book(cash, positions, trades)
    }

    /** The hourly trend is not reset. */
    method Reset()
      modifies this
      ensures Snapshot() == Book(initialCapital, [], []) && hourlyTrend == old(hourlyTrend)
    {
      cash, positions, trades := initialCapital, [], [];
    }

    /** Pops the position in `symbol`, if there is one, and books the trade. */
    method ClosePosition(symbol: Symbol, price: real, reason: Reason, now: Time) returns (raised: bool)
      modifies this`cash, this`positions, this`trades
      ensures var i := IndexOf(old(positions), symbol);
              if i < 0 then !raised && Snapshot() == old(Snapshot())
              else
                var v := Close(old(positions)[i], price, reason, now);
                && raised == v.Raise?
                && Snapshot() == if raised then Without(old(Snapshot()), i) else Popped(old(Snapshot()), i, v)
    {
      hide Close, IndexOf;
      var i := IndexOf(positions, symbol);
      if i < 0 {
        return false;
      }
      var pos := positions[i];
      positions := positions[..i] + positions[i + 1..];
      CloseRaises(pos, price, reason, now);
      if pos.entryPrice == 0.0 {
        return true;
      }
      var pnl, pnlPct, exitValue;
      if pos.isShort {
        pnlPct := (pos.entryPrice - price) / pos.entryPrice;
        pnl := pos.value * pnlPct;
        exitValue := pos.value + pnl;
        CloseShort(pos, price, reason, now, pnl, pnlPct);
      } else {
        exitValue := (pos.value / pos.entryPrice) * price;
        pnl := exitValue - pos.value;
        if pos.value == 0.0 {
          return true;
        }
        pnlPct := pnl / pos.value;
        CloseLong(pos, price, reason, now, exitValue, pnl, pnlPct);
      }
      cash := cash + exitValue;
      trades := trades + [Trade(symbol, pos.strategy, pos.entryTime, now, pos.entryPrice, price, pnl, pnlPct, reason, pos.isShort)];
      return false;
    }

    /** The exit rules for the marked position in `positions[i]`: at most one of them closes it, since
        a time stop that comes second finds nothing left to close. */
    method ApplyRules(i: nat, pnlPct: real, price: real, params: ExitParams, now: Time) returns (raised: bool)
      requires i < |positions| && Distinct(positions)
      modifies this`cash, this`positions, this`trades
      ensures var p := old(positions)[i];
              match ExitReason(pnlPct, p.maxProfit, p.entryTime, params, now)
              case None => !raised && Snapshot() == old(Snapshot())
              case Some(reason) =>
                var v := Close(p, price, reason, now);
                && raised == v.Raise?
                && Snapshot() == if raised then Without(old(Snapshot()), i) else Popped(old(Snapshot()), i, v)
    {
      hide Close;
      var pos := positions[i];
      var symbol := pos.symbol;
      OnlyIndex(positions, i, symbol);
      PoppedIsGone(positions, i, symbol);
      raised := false;
      if pnlPct <= params.stopLoss.GetOr(-0.01) {
        raised := ClosePosition(symbol, price, StopLoss, now);
      } else if pnlPct >= params.takeProfit.GetOr(0.01) {
        raised := ClosePosition(symbol, price, TakeProfit, now);
      } else if Truthy(params.trailingTrigger) {
        if pos.maxProfit >= params.trailingTrigger.value {
          var trailingStop := pos.maxProfit - params.trailingStop.GetOr(0.005);
          if pnlPct <= trailingStop {
            raised := ClosePosition(symbol, price, TrailingStop, now);
          }
        }
      }
      if raised {
        return;
      }
      if Truthy(params.timeStop) {
        var elapsed := Minutes(pos.entryTime, now);
        if elapsed >= params.timeStop.value {
          raised := ClosePosition(symbol, price, TimeStop, now);
        }
      }
    }

    /** One position of the sweep: `pos` is the dict entry in `positions[i]`. */
    method CheckOne(i: nat, prices: map<Symbol, real>, params: ExitParams, now: Time) returns (raised: bool)
      requires i < |positions| && Distinct(positions)
      modifies this`cash, this`positions, this`trades
      ensures var v := Judge(old(positions)[i], prices, Exits(params), now);
              && raised == v.Raise?
              && Snapshot() == if !raised then Settled(old(Snapshot()), i, v)
                               else if old(positions)[i].entryPrice == 0.0 then old(Snapshot())
                               else Without(old(Snapshot()), i)
    {
      hide Close, ExitReason;
      var pos := positions[i];
      var symbol := pos.symbol;
      if symbol !in prices || prices[symbol] == 0.0 {
        assert positions[i := pos] == positions;
        return false;
      }
      var price := prices[symbol];
      if pos.entryPrice == 0.0 {
        return true;
      }
      var pnlPct := if pos.isShort then (pos.entryPrice - price) / pos.entryPrice else (price - pos.entryPrice) / pos.entryPrice;
      if pnlPct > pos.maxProfit {
        pos := pos.(maxProfit := pnlPct);
      }
      positions := positions[i := pos];
      assert positions[..i] == old(positions)[..i] && positions[i + 1..] == old(positions)[i + 1..];
      raised := ApplyRules(i, pnlPct, price, params, now);
    }

    /** Goes over a snapshot of the open positions while closing some of them. */
    method CheckExits(prices: map<Symbol, real>, params: ExitParams, now: Time) returns (raised: bool)
      requires Distinct(positions)
      modifies this`cash, this`positions, this`trades
      ensures raised == SweepRaises(old(positions), Judger(prices, Exits(params), now))
      ensures !raised ==> Snapshot() == SweepBook(old(Snapshot()), Judger(prices, Exits(params), now))
      ensures raised ==> StoppedIn(old(Snapshot()), Judger(prices, Exits(params), now), Snapshot(), false)
    {
      hide Judge, Judger, Sweep, SweepRaises, SweepBook, Progress, IndexOf, FaithfulOn, Stopped, Without;
      var snapshot := positions;
      ghost var judge := Judger(prices, Exits(params), now);
      JudgerFaithful(snapshot, prices, Exits(params), now);
      ProgressStart(old(Snapshot()), judge);
      for n := 0 to |snapshot|
        invariant Progress(old(Snapshot()), n, judge, Snapshot())
      {
        ProgressIndex(old(Snapshot()), n, judge, Snapshot());
        JudgerAt(snapshot[n], prices, Exits(params), now);
        ghost var before := Snapshot();
        var i := IndexOf(positions, snapshot[n].symbol);
        raised := CheckOne(i, prices, params, now);
        if raised {
          RaisesAt(snapshot, n, judge);
          ProgressStops(old(Snapshot()), n, judge, before, Snapshot(), snapshot[n].entryPrice != 0.0);
          return true;
        }
        ProgressStep(old(Snapshot()), n, judge, before, Snapshot());
      }
      ProgressDone(old(Snapshot()), judge, Snapshot());
      raised := false;
    }

    method OpenPosition(signal: Signal, prices: map<Symbol, real>, now: Time)
      modifies this`cash, this`positions
      ensures Snapshot() == Open(old(Snapshot()), signal, prices, now)
    {
      var symbol := signal.symbol;
      if IndexOf(positions, symbol) >= 0 || symbol !in prices {
        return;
      }
      var price := prices[symbol];
      var positionValue := cash * signal.positionPct;
      if cash < positionValue {
        return;
      }
      cash := cash - positionValue;
      positions := positions + [Position(symbol, price, now, positionValue, signal.strategy, signal.score,
                                         signal.action == "sell", 0.0)];
    }

    method OpenSignals(signals: seq<Signal>, prices: map<Symbol, real>, now: Time)
      modifies this`cash, this`positions
      ensures Snapshot() == OpenAll(old(Snapshot()), FirstFive(signals), prices, now)
    {
      hide Open;
      var first := FirstFive(signals);
      for i := 0 to |first|
        invariant Snapshot() == OpenAll(old(Snapshot()), first[..i], prices, now)
      {
        assert first[..i + 1][..i] == first[..i];
        OpenPosition(first[i], prices, now);
      }
      assert first[..|first|] == first;
    }

    /** The final loop: `list(self.positions.keys())`, closing what has a last price. */
    method CloseRemaining(prices: map<Symbol, real>, now: Time) returns (raised: bool)
      requires Distinct(positions)
      modifies this`cash, this`positions, this`trades
      ensures raised == SweepRaises(old(positions), Judger(prices, Liquidation, now))
      ensures !raised ==> Snapshot() == SweepBook(old(Snapshot()), Judger(prices, Liquidation, now))
      ensures raised ==> StoppedIn(old(Snapshot()), Judger(prices, Liquidation, now), Snapshot(), true)
    {
      hide Judger, Sweep, SweepRaises, SweepBook, Progress, IndexOf, FaithfulOn, Close, Stopped, Without;
      var snapshot := positions;
      ghost var judge := Judger(prices, Liquidation, now);
      JudgerFaithful(snapshot, prices, Liquidation, now);
      ProgressStart(old(Snapshot()), judge);
      for n := 0 to |snapshot|
        invariant Progress(old(Snapshot()), n, judge, Snapshot())
      {
        ProgressIndex(old(Snapshot()), n, judge, Snapshot());
        JudgerAt(snapshot[n], prices, Liquidation, now);
        ghost var before := Snapshot();
        var symbol := snapshot[n].symbol;
        if symbol in prices {
          raised := ClosePosition(symbol, prices[symbol], BacktestEnd, now);
          if raised {
            RaisesAt(snapshot, n, judge);
            ProgressStops(old(Snapshot()), n, judge, before, Snapshot(), true);
            return true;
          }
        } else {
          ghost var i := IndexOf(positions, symbol);
          assert positions[i := snapshot[n]] == positions;
        }
        ProgressStep(old(Snapshot()), n, judge, before, Snapshot());
      }
      ProgressDone(old(Snapshot()), judge, Snapshot());
      raised := false;
    }

    /** The body of the timestamp loop. */
    method Tick(ghost cfg: Config, series: seq<Series>, params: ExitParams, generator: SignalGenerator, now: Time)
      returns (raised: bool, prices: map<Symbol, real>)
      requires Distinct(positions)
      requires series == cfg.series && params == cfg.params && generator.strategy == cfg.strategy && generator.root == cfg.root
      requires history.feed.(now := None) == cfg.feed.(now := None)
      modifies this`cash, this`positions, this`trades, this`hourlyTrend, history, generator
      ensures history.feed.(now := None) == cfg.feed.(now := None)
      ensures prices == PricesAt(series, now)
      ensures var s := Step(cfg, now, Run(old(Snapshot()), old(hourlyTrend), old(generator.lastEntry), false));
              && raised == s.raised
              && (!raised ==> Run(Snapshot(), hourlyTrend, generator.lastEntry, false) == s)
      ensures !raised ==> Distinct(positions)
      ensures raised && !SweepRaises(old(positions), ExitJudge(cfg, now)) ==> Snapshot() == SweepBook(old(Snapshot()), ExitJudge(cfg, now))
      ensures SweepRaises(old(positions), ExitJudge(cfg, now)) ==> StoppedIn(old(Snapshot()), ExitJudge(cfg, now), Snapshot(), false)
    {
      hide SweepRaises, Judger, PricesAt, StoppedIn, Generate, OpenAll, ActiveSymbols, FirstFive, HourlyTrend;
      history.SetTime(now);
      ghost var start := Run(old(Snapshot()), old(hourlyTrend), old(generator.lastEntry), false);
      assert history.feed == cfg.feed.(now := Some(now));
      var btc := GetBtc1h(history.feed);
      if btc != [] {
        hourlyTrend := HourlyTrend(btc);
      }
      prices := CurrentPrices(series, now);
      raised := CheckExits(prices, params, now);
      if raised {
        return;
      }
      JudgerFaithful(old(positions), prices, Exits(params), now);
      SweepDistinct(old(positions), ExitJudge(cfg, now));
      var active := ActiveSymbols(series, positions);
      var signals;
      signals, raised := generator.Run(now, history.feed, active, hourlyTrend);
      if raised {
        return;
      }
      OpenAllAppends(Snapshot(), FirstFive(signals), prices, now);
      OpenSignals(signals, prices, now);
    }

    /** run_backtest from the loaded data on: False and a raised ZeroDivisionError, or the completed run. */
    method RunBacktest(series: seq<Series>, btc: seq<Candle>, generator: SignalGenerator, params: ExitParams)
      returns (raised: bool, ghost cfg: Config)
      requires DistinctSeries(series) && AllTimes(series) != {}
      modifies this, history, generator
      ensures cfg.series == series && cfg.params == params && cfg.strategy == generator.strategy && cfg.root == generator.root
      ensures cfg.capital == initialCapital && cfg.trend0 == old(hourlyTrend) && cfg.last0 == old(generator.lastEntry)
      ensures cfg.feed.btc1h == btc && Ready(cfg) && cfg.times != []
      ensures raised == FinalRun(cfg).raised
      ensures !raised ==> Run(Snapshot(), hourlyTrend, generator.lastEntry, false) == FinalRun(cfg)
    {
      hide FinalRun, RunTo, Step, SortedTimes, AllTimes, Judger, SweepRaises, SweepBook;
      Reset();
      LoadAll(series, btc);
      var timestamps := CollectTimes(series);
      var times := SortedTimes(timestamps);
      SomeTime(timestamps);
      cfg := Config(times, series, history.feed, generator.strategy, params, initialCapital, hourlyTrend,
                    generator.lastEntry, generator.root);
      var prices: map<Symbol, real> := map[];
      RunStart(cfg);
      for k := 0 to |times|
        invariant Distinct(positions)
        invariant history.feed.(now := None) == cfg.feed.(now := None)
        invariant k > 0 ==> prices == PricesAt(series, times[k - 1])
        invariant RunTo(cfg, k) == Run(Snapshot(), hourlyTrend, generator.lastEntry, false)
      {
        raised, prices := Tick(cfg, series, params, generator, times[k]);
        RunStep(cfg, k);
        if raised {
          RaisedForever(cfg, k + 1, |times|);
          RaisedRun(cfg);
          return;
        }
      }
      ghost var last := Snapshot();
      raised := CloseRemaining(prices, times[|times| - 1]);
      CompletedRun(cfg);
    }

    method LoadAll(series: seq<Series>, btc: seq<Candle>)
      requires DistinctSeries(series)
      modifies history
      ensures history.feed.btc1h == btc
      ensures forall j :: 0 <= j < |series| ==> Loaded(history.feed, series[j].symbol, "5m") == Some(series[j].candles)
    {
      for i := 0 to |series|
        invariant forall j :: 0 <= j < i ==> Loaded(history.feed, series[j].symbol, "5m") == Some(series[j].candles)
      {
        history.LoadData(series[i].symbol, "5m", series[i].candles);
      }
      ghost var before := history.feed;
      history.LoadBtc1h(btc);
      assert forall s :: Loaded(history.feed, s, "5m") == Loaded(before, s, "5m");
    }
  }

  lemma RunStep(cfg: Config, k: nat)
    requires k < |cfg.times|
    ensures RunTo(cfg, k + 1) == Step(cfg, cfg.times[k], RunTo(cfg, k))
  {
  }

  lemma RaisedRun(cfg: Config)
    requires cfg.times != [] && RunTo(cfg, |cfg.times|).raised
    ensures FinalRun(cfg).raised
  {
  }

  lemma CompletedRun(cfg: Config)
    requires cfg.times != [] && !RunTo(cfg, |cfg.times|).raised
    ensures var s, t := RunTo(cfg, |cfg.times|), cfg.times[|cfg.times| - 1];
            var judge := Judger(PricesAt(cfg.series, t), Liquidation, t);
            FinalRun(cfg) == if SweepRaises(s.book.positions, judge) then s.(raised := true)
                             else s.(book := SweepBook(s.book, judge))
  {
  }

  /** `for symbol, candles in all_candles.items()`: the close of the first candle at this time. */
  method CurrentPrices(series: seq<Series>, now: Time) returns (prices: map<Symbol, real>)
    ensures prices == PricesAt(series, now)
  {
    prices := map[];
    for i := 0 to |series|
      invariant prices == PricesAt(series[..i], now)
    {
      assert series[..i + 1][..i] == series[..i];
      var candles := series[i].candles;
      var found: Option<real> := None;
      for j := 0 to |candles|
        invariant found == None && CloseAt(candles[..j], now) == None
      {
        assert candles[..j + 1][..j] == candles[..j];
        if candles[j].openTime == now {
          found := Some(candles[j].close);
          CloseAtFirst(candles, j + 1, now);
          break;
        }
      }
      assert candles[..|candles|] == candles;
      if found.Some? {
        prices := prices[series[i].symbol := found.value];
      }
    }
    assert series[..|series|] == series;
  }

  lemma {:induction false} CloseAtFirst(candles: seq<Candle>, k: nat, now: Time)
    requires k <= |candles| && CloseAt(candles[..k], now).Some?
    ensures CloseAt(candles, now) == CloseAt(candles[..k], now)
  {
    if k == |candles| {
      assert candles[..k] == candles;
    } else {
      var n := |candles| - 1;
      assert candles[..n][..k] == candles[..k];
      CloseAtFirst(candles[..n], k, now);
    }
  }

  method CollectTimes(series: seq<Series>) returns (timestamps: set<Time>)
    ensures timestamps == AllTimes(series)
  {
    timestamps := {};
    for i := 0 to |series|
      invariant timestamps == AllTimes(series[..i])
    {
      var candles := series[i].candles;
      for j := 0 to |candles|
        invariant timestamps == AllTimes(series[..i]) + set m | 0 <= m < j :: candles[m].openTime
      {
        timestamps := timestamps + {candles[j].openTime};
      }
      TimesSnoc(series, i);
    }
    assert series[..|series|] == series;
  }

  lemma TimesSnoc(series: seq<Series>, i: nat)
    requires i < |series|
    ensures AllTimes(series[..i + 1])
         == AllTimes(series[..i]) + set m | 0 <= m < |series[i].candles| :: series[i].candles[m].openTime
  {
    var a, b := series[..i + 1], series[..i];
    forall t | t in AllTimes(b) ensures t in AllTimes(a) {
      var x, y :| 0 <= x < |b| && 0 <= y < |b[x].candles| && b[x].candles[y].openTime == t;
      assert a[x].candles[y].openTime == t;
    }
    forall m | 0 <= m < |series[i].candles| ensures series[i].candles[m].openTime in AllTimes(a) {
      assert a[i].candles[m].openTime == series[i].candles[m].openTime;
    }
    forall x, y | 0 <= x < i && 0 <= y < |a[x].candles| ensures a[x].candles[y].openTime in AllTimes(b) {
      assert b[x].candles[y].openTime == a[x].candles[y].openTime;
    }
  }

  // ---------------------------------------------------------------- the sweep loops

  /** The book after position i has been closed. */
  ghost function Popped(b: Book, i: int, v: Verdict): Book
    requires 0 <= i < |b.positions| && v.Exit?
  {
    Book(b.cash + v.proceeds, b.positions[..i] + b.positions[i + 1..], b.trades + [v.trade])
  }

  ghost function Settled(b: Book, i: int, v: Verdict): Book
    requires 0 <= i < |b.positions| && !v.Raise?
  {
    if v.Keep? then Book(b.cash, b.positions[i := v.position], b.trades) else Popped(b, i, v)
  }

  /** The book after the first n positions of the snapshot have been handled. */
  ghost predicate Progress(start: Book, n: nat, judge: Position -> Verdict, b: Book) {
    && n <= |start.positions| && Distinct(start.positions) && FaithfulOn(start.positions, judge)
    && !SweepRaises(start.positions[..n], judge)
    && var r := Sweep(start.positions[..n], judge);
       b == Book(start.cash + r.proceeds, r.kept + start.positions[n..], start.trades + r.closed)
  }

  /** Popped by a close that then raised: the position is gone, and neither cash nor a trade came of it. */
  ghost function Without(b: Book, i: int): Book
    requires 0 <= i < |b.positions|
  {
    Book(b.cash, b.positions[..i] + b.positions[i + 1..], b.trades)
  }

  /** The book of a sweep that raised at position n: the ones before it are handled, the ones after it
      untouched, and it is itself already popped or still there. */
  ghost predicate Stopped(start: Book, n: nat, judge: Position -> Verdict, b: Book, popped: bool)
    requires n < |start.positions|
  {
    && judge(start.positions[n]).Raise? && !SweepRaises(start.positions[..n], judge)
    && var r := Sweep(start.positions[..n], judge);
       b == Book(start.cash + r.proceeds, r.kept + start.positions[if popped then n + 1 else n..], start.trades + r.closed)
  }

  /** A sweep finds a zero entry price before it pops the position; the liquidation pops first. */
  ghost predicate StoppedIn(start: Book, judge: Position -> Verdict, b: Book, popsFirst: bool) {
    exists n :: 0 <= n < |start.positions|
                && Stopped(start, n, judge, b, popsFirst || start.positions[n].entryPrice != 0.0)
  }

  lemma ProgressStops(start: Book, n: nat, judge: Position -> Verdict, b: Book, c: Book, popped: bool)
    requires Progress(start, n, judge, b) && n < |start.positions| && judge(start.positions[n]).Raise?
    requires IndexOf(b.positions, start.positions[n].symbol) >= 0
    requires c == if popped then Without(b, IndexOf(b.positions, start.positions[n].symbol)) else b
    ensures Stopped(start, n, judge, c, popped)
  {
    hide Distinct, IndexOf, SweepRaises, FaithfulOn, Sweep;
    ProgressIndex(start, n, judge, b);
    SplicePositions(Sweep(start.positions[..n], judge).kept, start.positions, n);
  }

  lemma CloseShort(p: Position, price: real, reason: Reason, now: Time, pnl: real, pnlPct: real)
    requires Closable(p) && p.isShort && pnlPct == (p.entryPrice - price) / p.entryPrice && pnl == p.value * pnlPct
    ensures Close(p, price, reason, now)
         == Exit(Trade(p.symbol, p.strategy, p.entryTime, now, p.entryPrice, price, pnl, pnlPct, reason, true), p.value + pnl)
  {
  }

  lemma CloseLong(p: Position, price: real, reason: Reason, now: Time, exitValue: real, pnl: real, pnlPct: real)
    requires Closable(p) && !p.isShort && exitValue == (p.value / p.entryPrice) * price
    requires pnl == exitValue - p.value && pnlPct == pnl / p.value
    ensures Close(p, price, reason, now)
         == Exit(Trade(p.symbol, p.strategy, p.entryTime, now, p.entryPrice, price, pnl, pnlPct, reason, false), exitValue)
  {
  }

  lemma JudgerAt(p: Position, prices: map<Symbol, real>, rule: Rule, now: Time)
    ensures Judger(prices, rule, now)(p) == Judge(p, prices, rule, now)
  {
  }

  lemma RaisesAt(ps: seq<Position>, n: nat, judge: Position -> Verdict)
    requires n < |ps| && judge(ps[n]).Raise?
    ensures SweepRaises(ps, judge)
  {
  }

  lemma ProgressStart(start: Book, judge: Position -> Verdict)
    requires Distinct(start.positions) && FaithfulOn(start.positions, judge)
    ensures Progress(start, 0, judge, start)
  {
    assert start.positions[..0] == [] && start.positions[0..] == start.positions;
  }

  lemma ProgressDone(start: Book, judge: Position -> Verdict, b: Book)
    requires Progress(start, |start.positions|, judge, b)
    ensures !SweepRaises(start.positions, judge) && b == SweepBook(start, judge)
  {
    assert start.positions[..|start.positions|] == start.positions;
  }

  /** The next snapshot entry is still in the book, where the dict lookup finds it. */
  lemma ProgressIndex(start: Book, n: nat, judge: Position -> Verdict, b: Book)
    requires Progress(start, n, judge, b) && n < |start.positions|
    ensures Distinct(b.positions)
    ensures var i := IndexOf(b.positions, start.positions[n].symbol);
            i >= 0 && i == |Sweep(start.positions[..n], judge).kept| && b.positions[i] == start.positions[n]
  {
    SweepPrefixDistinct(start.positions, n, judge);
    OnlyIndex(b.positions, |Sweep(start.positions[..n], judge).kept|, start.positions[n].symbol);
  }

  lemma ProgressStep(start: Book, n: nat, judge: Position -> Verdict, b: Book, c: Book)
    requires Progress(start, n, judge, b) && n < |start.positions|
    requires IndexOf(b.positions, start.positions[n].symbol) >= 0 && !judge(start.positions[n]).Raise?
    requires c == Settled(b, IndexOf(b.positions, start.positions[n].symbol), judge(start.positions[n]))
    ensures Progress(start, n + 1, judge, c)
  {
    hide Distinct, IndexOf, SweepRaises, FaithfulOn, Sweep;
    var ps := start.positions;
    ProgressIndex(start, n, judge, b);
    NoRaiseSnoc(ps, n, judge);
    SweepSnoc(ps, n, judge);
    SplicePositions(Sweep(ps[..n], judge).kept, ps, n);
  }

  lemma SplicePositions(kept: seq<Position>, ps: seq<Position>, n: nat)
    requires n < |ps|
    ensures var all := kept + ps[n..];
            && all[..|kept|] == kept && all[|kept| + 1..] == ps[n + 1..]
            && forall q :: all[|kept| := q] == (kept + [q]) + ps[n + 1..]
  {
  }

  lemma OnlyIndex(ps: seq<Position>, i: nat, symbol: Symbol)
    requires Distinct(ps) && i < |ps| && ps[i].symbol == symbol
    ensures IndexOf(ps, symbol) == i
  {
    assert ps[IndexOf(ps, symbol)].symbol == symbol;
  }

  lemma PoppedIsGone(ps: seq<Position>, i: nat, symbol: Symbol)
    requires Distinct(ps) && i < |ps| && ps[i].symbol == symbol
    ensures IndexOf(ps[..i] + ps[i + 1..], symbol) == -1
  {
    var rest := ps[..i] + ps[i + 1..];
    assert forall j :: 0 <= j < |rest| ==> rest[j] == ps[if j < i then j else j + 1];
  }

  lemma SweepPrefixDistinct(snapshot: seq<Position>, n: nat, judge: Position -> Verdict)
    requires n < |snapshot| && Distinct(snapshot) && FaithfulOn(snapshot, judge)
    ensures Distinct(Sweep(snapshot[..n], judge).kept + snapshot[n..])
  {
    var kept := Sweep(snapshot[..n], judge).kept;
    SweepDistinct(snapshot[..n], judge);
    SweepOrigins(snapshot[..n], judge);
    forall i, j | 0 <= i < |kept| && n <= j < |snapshot| ensures kept[i].symbol != snapshot[j].symbol {
      var m :| 0 <= m < n && judge(snapshot[..n][m]) == Keep(kept[i]);
      assert Faithful(snapshot[m], judge(snapshot[m]));
    }
  }

  lemma SweepSnoc(snapshot: seq<Position>, n: nat, judge: Position -> Verdict)
    requires n < |snapshot|
    ensures var r, r' := Sweep(snapshot[..n], judge), Sweep(snapshot[..n + 1], judge);
            match judge(snapshot[n])
            case Keep(p) => r' == r.(kept := r.kept + [p])
            case Exit(trade, proceeds) => r' == r.(closed := r.closed + [trade], proceeds := r.proceeds + proceeds)
            case Raise => r' == r
  {
    assert snapshot[..n + 1][..n] == snapshot[..n];
  }

  lemma NoRaiseSnoc(snapshot: seq<Position>, n: nat, judge: Position -> Verdict)
    requires n < |snapshot| && !SweepRaises(snapshot[..n], judge) && !judge(snapshot[n]).Raise?
    ensures !SweepRaises(snapshot[..n + 1], judge)
  {
    var longer := snapshot[..n + 1];
    forall i | 0 <= i < n + 1 ensures !judge(longer[i]).Raise? {
      if i < n {
        assert snapshot[..n][i] == longer[i];
      }
    }
  }

  lemma StepRaised(cfg: Config, t: Time, s: Run)
    requires s.raised
    ensures Step(cfg, t, s) == s
  {
  }

  lemma {:induction false} RaisedForever(cfg: Config, j: nat, k: nat)
    requires j <= k <= |cfg.times| && RunTo(cfg, j).raised
    ensures RunTo(cfg, k).raised
    decreases k
  {
    hide RunTo, Step;
    if j == k {
    } else {
      RaisedForever(cfg, j, k - 1);
      RunStep(cfg, k - 1);
      StepRaised(cfg, cfg.times[k - 1], RunTo(cfg, k - 1));
    }
  }
}
