/** Which runs on positive prices divide by zero, for every initial capital, and what is left of the cash. */
module SafeRuns {
  import opened PySeq
  import opened Reals
  import opened History
  import opened Signals
  import opened Backtest
  import opened BacktestLaws
  import Cooldown
  import Stakes

  ghost predicate PositiveCandles(c: seq<Candle>) {
    forall i :: 0 <= i < |c| ==> c[i].close > 0.0 && c[i].high > 0.0
  }

  ghost predicate PositiveData(cfg: Config) {
    forall i :: 0 <= i < |cfg.series| ==> PositiveCandles(cfg.series[i].candles)
  }

  // ---------------------------------------------------------------- generators

  lemma {:induction false} MaxPositive(s: seq<real>)
    requires s != [] && forall i :: 0 <= i < |s| ==> s[i] > 0.0
    ensures MaxOf(s) > 0.0
  {
    if |s| == 1 {
    } else {
      MaxPositive(s[..|s| - 1]);
    }
  }

  lemma AttackSafe(c: seq<Candle>, rvol: Option<real>, minBreakout: real, maxBreakout: real, minRvol: real, minScore: real)
    requires PositiveCandles(c)
    ensures AttackRule(c, rvol, minBreakout, maxBreakout, minRvol, minScore) != ZeroDivision
  {
    hide Indicators.Rsi, BodyRatioBelow, WeakVolume;
    if |c| >= 15 {
      MaxPositive(Map(High, c[|c| - 15..|c| - 1]));
    }
  }

  /** No rule divides by zero on positive prices. */
  lemma RuleSafe(st: Strategy, c: seq<Candle>, rvol: Option<real>, root: real -> real)
    requires PositiveCandles(c)
    ensures Apply(st, c, rvol, root) != ZeroDivision
  {
    hide Indicators.Rsi, Indicators.Macd, Indicators.Bollinger, BodyRatioBelow, LowerWickBelow, AttackRule;
    match st
    case Attack(minBreakout, maxBreakout, minRvol, minScore, _) =>
      AttackSafe(c, rvol, minBreakout, maxBreakout, minRvol, minScore);
    case _ =>
  }

  lemma WindowPositive(cfg: Config, t: Time, s: Symbol, count: int)
    requires PositiveData(cfg) && Ready(cfg) && exists i :: 0 <= i < |cfg.series| && cfg.series[i].symbol == s
    ensures PositiveCandles(GetCandles(cfg.feed.(now := Some(t)), s, "5m", count))
  {
    var i :| 0 <= i < |cfg.series| && cfg.series[i].symbol == s;
    var candles := cfg.series[i].candles;
    assert Loaded(cfg.feed.(now := Some(t)), s, "5m") == Some(candles);
    UpToOnlyPast(candles, t);
    var u := UpTo(candles, t);
    forall j | 0 <= j < |u| ensures u[j].close > 0.0 && u[j].high > 0.0 {
      assert u[j] in candles;
    }
  }

  lemma {:induction false} ScanSafe(st: Strategy, decide: Symbol -> Decision, symbols: seq<Symbol>, now: Time, last: map<Symbol, Time>)
    requires forall i :: 0 <= i < |symbols| ==> decide(symbols[i]) != ZeroDivision
    ensures !Scan(st, decide, symbols, now, last).raised
  {
    if symbols == [] {
    } else {
      ScanSafe(st, decide, symbols[..|symbols| - 1], now, last);
    }
  }

  lemma SignalsSafe(cfg: Config, t: Time, trend: Trend, ps: seq<Position>, last: map<Symbol, Time>)
    requires PositiveData(cfg) && Ready(cfg)
    ensures !SignalsAt(cfg, t, trend, ps, last).raised
  {
    hide Apply;
    var symbols, decide := ActiveSymbols(cfg.series, ps), Decider(cfg.strategy, cfg.feed.(now := Some(t)), cfg.root);
    Cooldown.ActiveDistinct(cfg.series, ps);
    forall i | 0 <= i < |symbols| ensures decide(symbols[i]) != ZeroDivision {
      var f, s := cfg.feed.(now := Some(t)), symbols[i];
      WindowPositive(cfg, t, s, cfg.strategy.Window());
      RuleSafe(cfg.strategy, GetCandles(f, s, "5m", cfg.strategy.Window()),
               CalcRvol(f, s, "5m", cfg.strategy.RvolPeriods()), cfg.root);
    }
    ScanSafe(cfg.strategy, decide, symbols, t, last);
  }

  // ---------------------------------------------------------------- prices

  ghost predicate PositivePrices(prices: map<Symbol, real>) {
    forall s :: s in prices ==> prices[s] > 0.0
  }

  lemma {:induction false} CloseAtPositive(candles: seq<Candle>, t: Time)
    requires PositiveCandles(candles)
    ensures CloseAt(candles, t).Some? ==> CloseAt(candles, t).value > 0.0
  {
    if candles == [] {
    } else {
      CloseAtPositive(candles[..|candles| - 1], t);
    }
  }

  lemma {:induction false} PricesPositive(series: seq<Series>, t: Time)
    requires forall i :: 0 <= i < |series| ==> PositiveCandles(series[i].candles)
    ensures PositivePrices(PricesAt(series, t))
  {
    if series == [] {
    } else {
      PricesPositive(series[..|series| - 1], t);
      CloseAtPositive(series[|series| - 1].candles, t);
    }
  }

  // ---------------------------------------------------------------- positions

  /** A position of the strategy's side with a positive entry price; a long one has positive value. */
  ghost predicate SoundPosition(p: Position, short: bool) {
    p.entryPrice > 0.0 && p.isShort == short && (!short ==> p.value > 0.0)
  }

  ghost predicate SoundPositions(ps: seq<Position>, short: bool) {
    forall i :: 0 <= i < |ps| ==> SoundPosition(ps[i], short)
  }

  ghost predicate Sound(b: Book, short: bool) {
    SoundPositions(b.positions, short) && (!short ==> b.cash > 0.0)
  }

  ghost predicate SoundVerdict(v: Verdict, short: bool) {
    match v
    case Keep(q) => SoundPosition(q, short)
    case Exit(_, proceeds) => !short ==> proceeds > 0.0
    case Raise => false
  }

  lemma CloseSound(p: Position, short: bool, price: real, reason: Reason, now: Time)
    requires SoundPosition(p, short) && price > 0.0
    ensures SoundVerdict(Close(p, price, reason, now), short)
  {
    if !short {
      DivSign(p.value, p.entryPrice);
      MulOrder(0.0, p.value / p.entryPrice, price);
    }
  }

  lemma JudgeSound(p: Position, short: bool, prices: map<Symbol, real>, rule: Rule, now: Time)
    requires SoundPosition(p, short) && PositivePrices(prices)
    ensures SoundVerdict(Judger(prices, rule, now)(p), short)
  {
    hide Close;
    if p.symbol in prices {
      var price := prices[p.symbol];
      match rule
      case Exits(params) =>
        var pnlPct := PnlPct(p.entryPrice, p.isShort, price);
        var q := if pnlPct > p.maxProfit then p.(maxProfit := pnlPct) else p;
        var reason := ExitReason(pnlPct, q.maxProfit, q.entryTime, params, now);
        if reason.Some? {
          CloseSound(q, short, price, reason.value, now);
        }
      case Liquidation =>
        CloseSound(p, short, price, BacktestEnd, now);
    }
  }

  lemma {:induction false} SweepSound(ps: seq<Position>, short: bool, judge: Position -> Verdict)
    requires forall i :: 0 <= i < |ps| ==> SoundVerdict(judge(ps[i]), short)
    ensures !SweepRaises(ps, judge)
    ensures SoundPositions(Sweep(ps, judge).kept, short)
    ensures !short ==> Sweep(ps, judge).proceeds >= 0.0
  {
    if ps == [] {
    } else {
      var n := |ps| - 1;
      SweepSound(ps[..n], short, judge);
      assert SoundVerdict(judge(ps[n]), short);
    }
  }

  lemma SweepBookSound(b: Book, short: bool, prices: map<Symbol, real>, rule: Rule, now: Time)
    requires Sound(b, short) && PositivePrices(prices)
    ensures !SweepRaises(b.positions, Judger(prices, rule, now))
    ensures Sound(SweepBook(b, Judger(prices, rule, now)), short)
  {
    var judge := Judger(prices, rule, now);
    forall i | 0 <= i < |b.positions| ensures SoundVerdict(judge(b.positions[i]), short) {
      JudgeSound(b.positions[i], short, prices, rule, now);
    }
    hide Judger, Judge;
    SweepSound(b.positions, short, judge);
  }

  ghost predicate FittingSignal(sig: Signal, short: bool) {
    0.0 < sig.positionPct < 1.0 && (sig.action == "sell" <==> short)
  }

  lemma OpenSound(b: Book, short: bool, sig: Signal, prices: map<Symbol, real>, now: Time)
    requires Sound(b, short) && PositivePrices(prices) && FittingSignal(sig, short)
    ensures Sound(Open(b, sig, prices, now), short)
  {
    hide Open, IndexOf, NewPosition, SoundPosition;
    var stake := StakePart(b.cash, sig.positionPct);
    Stakes.OpenShape(b, sig, prices, now, stake);
    if sig.symbol in prices {
      SoundEntry(b, short, sig, prices[sig.symbol], now, stake);
    }
  }

  lemma StakePart(cash: real, p: real) returns (stake: real)
    requires 0.0 < p < 1.0
    ensures stake == cash * p && (cash > 0.0 ==> 0.0 < stake < cash)
  {
    stake := cash * p;
    if cash > 0.0 {
      stake := ProductAbove(cash, p);
      var rest := ProductAbove(cash, 1.0 - p);
      Distribute(1.0, p, cash);
    }
  }

  lemma SoundEntry(b: Book, short: bool, sig: Signal, price: real, now: Time, stake: real)
    requires stake == b.cash * sig.positionPct && price > 0.0 && (sig.action == "sell" <==> short) && (!short ==> stake > 0.0)
    ensures SoundPosition(NewPosition(b, sig, price, now), short)
  {
  }

  lemma {:induction false} OpenAllSound(b: Book, short: bool, sigs: seq<Signal>, prices: map<Symbol, real>, now: Time)
    requires Sound(b, short) && PositivePrices(prices)
    requires forall i :: 0 <= i < |sigs| ==> FittingSignal(sigs[i], short)
    ensures Sound(OpenAll(b, sigs, prices, now), short)
  {
    if sigs == [] {
    } else {
      var n := |sigs| - 1;
      OpenAllSound(b, short, sigs[..n], prices, now);
      OpenSound(OpenAll(b, sigs[..n], prices, now), short, sigs[n], prices, now);
    }
  }

  lemma SignalsFit(cfg: Config, k: nat)
    requires k < |cfg.times| && Ready(cfg)
    ensures var sigs := FirstFive(SignalsOf(cfg, k).signals);
            forall i :: 0 <= i < |sigs| ==> FittingSignal(sigs[i], cfg.strategy.IsShort())
  {
    hide *;
    Cooldown.SignalsRespect(cfg, k);
    RespectsFit(SignalsOf(cfg, k), cfg.strategy, ActiveSymbols(cfg.series, AfterSweep(cfg, k).positions),
                cfg.times[k], RunTo(cfg, k).last);
  }

  lemma RespectsFit(g: Generated, st: Strategy, symbols: seq<Symbol>, now: Time, last: map<Symbol, Time>)
    requires Respects(g, st, symbols, now, last)
    ensures var sigs := FirstFive(g.signals); forall i :: 0 <= i < |sigs| ==> FittingSignal(sigs[i], st.IsShort())
  {
    hide CoolingDown;
    var sigs := FirstFive(g.signals);
    forall i | 0 <= i < |sigs| ensures FittingSignal(sigs[i], st.IsShort()) {
      assert SignalOk(st, g.signals[i], symbols, now, last);
    }
  }

  // ---------------------------------------------------------------- runs with something to spend

  /** A short-only run with any capital, or a long-only one with positive capital. */
  predicate Solid(cfg: Config) {
    cfg.strategy.IsShort() || cfg.capital > 0.0
  }

  lemma {:induction false} SolidRun(cfg: Config, k: nat)
    requires Ready(cfg) && PositiveData(cfg) && Solid(cfg) && k <= |cfg.times|
    ensures !RunTo(cfg, k).raised
    ensures Sound(RunTo(cfg, k).book, cfg.strategy.IsShort())
  {
    hide RunTo;
    RunStart(cfg);
    if k == 0 {
    } else {
      SolidRun(cfg, k - 1);
      StepSafe(cfg, k - 1);
    }
  }

  lemma StepSafe(cfg: Config, k: nat)
    requires Ready(cfg) && PositiveData(cfg) && k < |cfg.times|
    requires !RunTo(cfg, k).raised && Sound(RunTo(cfg, k).book, cfg.strategy.IsShort())
    ensures !RunTo(cfg, k + 1).raised
    ensures Sound(RunTo(cfg, k + 1).book, cfg.strategy.IsShort())
  {
    hide RunTo, Sound, PositivePrices, Ready, PositiveData, SignalsAt, TrendAt, PricesAt, SweepBook, SweepRaises, OpenAll, FirstFive, Judger;
    var t, s := cfg.times[k], RunTo(cfg, k);
    DataPrices(cfg, t);
    SweepBookSound(s.book, cfg.strategy.IsShort(), PricesAt(cfg.series, t), Exits(cfg.params), t);
    SignalsSafe(cfg, t, TrendAt(cfg, t, s.trend), AfterSweep(cfg, k).positions, s.last);
    CompletedStep(cfg, k);
    SignalsFit(cfg, k);
    OpenAllSound(AfterSweep(cfg, k), cfg.strategy.IsShort(), FirstFive(SignalsOf(cfg, k).signals), PricesAt(cfg.series, t), t);
  }

  lemma CompletedStep(cfg: Config, k: nat)
    requires k < |cfg.times| && !RunTo(cfg, k).raised
    requires !SweepRaises(RunTo(cfg, k).book.positions, ExitJudge(cfg, cfg.times[k]))
    requires !SignalsOf(cfg, k).raised
    ensures !RunTo(cfg, k + 1).raised
    ensures RunTo(cfg, k + 1).book == Entered(cfg, cfg.times[k], AfterSweep(cfg, k), SignalsOf(cfg, k))
  {
    assert RunTo(cfg, k + 1) == Step(cfg, cfg.times[k], RunTo(cfg, k));
  }

  // ---------------------------------------------------------------- runs in debt

  /** A long-only run that starts in debt never affords anything. */
  lemma {:induction false} IdleRun(cfg: Config, k: nat)
    requires Ready(cfg) && PositiveData(cfg) && !cfg.strategy.IsShort() && cfg.capital < 0.0 && k <= |cfg.times|
    ensures !RunTo(cfg, k).raised
    ensures RunTo(cfg, k).book == Book(cfg.capital, [], [])
  {
    hide RunTo, SignalsOf, AfterSweep;
    RunStart(cfg);
    if k == 0 {
    } else {
      IdleRun(cfg, k - 1);
      IdleSweep(cfg, k - 1);
      CompletedStep(cfg, k - 1);
      SignalsFit(cfg, k - 1);
      IdleEntries(AfterSweep(cfg, k - 1), FirstFive(SignalsOf(cfg, k - 1).signals),
                  PricesAt(cfg.series, cfg.times[k - 1]), cfg.times[k - 1]);
    }
  }

  lemma IdleSweep(cfg: Config, k: nat)
    requires Ready(cfg) && PositiveData(cfg) && k < |cfg.times|
    requires RunTo(cfg, k).book.positions == []
    ensures !SweepRaises(RunTo(cfg, k).book.positions, ExitJudge(cfg, cfg.times[k]))
    ensures AfterSweep(cfg, k) == RunTo(cfg, k).book
    ensures !SignalsOf(cfg, k).raised
  {
    hide RunTo, SignalsAt, TrendAt;
    SignalsSafe(cfg, cfg.times[k], TrendAt(cfg, cfg.times[k], RunTo(cfg, k).trend), AfterSweep(cfg, k).positions, RunTo(cfg, k).last);
  }

  lemma {:induction false} IdleEntries(b: Book, sigs: seq<Signal>, prices: map<Symbol, real>, now: Time)
    requires b.cash < 0.0 && forall i :: 0 <= i < |sigs| ==> FittingSignal(sigs[i], false)
    ensures OpenAll(b, sigs, prices, now) == b
  {
    hide Open, FittingSignal;
    if sigs == [] {
    } else {
      var n := |sigs| - 1;
      IdleEntries(b, sigs[..n], prices, now);
      IdleOpen(b, sigs[n], prices, now);
    }
  }

  lemma IdleOpen(b: Book, sig: Signal, prices: map<Symbol, real>, now: Time)
    requires b.cash < 0.0 && FittingSignal(sig, false)
    ensures Open(b, sig, prices, now) == b
  {
    MulOrder(sig.positionPct, 1.0, -b.cash);
  }

  // ---------------------------------------------------------------- all of them

  /** On positive prices no run raises, unless it is long-only and starts with nothing; with positive
      capital a long-only one always has cash left, and with negative capital it never trades. */
  lemma RunSafe(cfg: Config, k: nat)
    requires Ready(cfg) && PositiveData(cfg) && k <= |cfg.times|
    requires cfg.strategy.IsShort() || cfg.capital != 0.0
    ensures !RunTo(cfg, k).raised
    ensures Solid(cfg) ==> Sound(RunTo(cfg, k).book, cfg.strategy.IsShort())
    ensures !Solid(cfg) ==> RunTo(cfg, k).book == Book(cfg.capital, [], [])
  {
    hide RunTo, Ready, PositiveData, Sound;
    if Solid(cfg) {
      SolidRun(cfg, k);
    } else {
      IdleRun(cfg, k);
    }
  }

  /** Nor does the liquidation: the whole run completes. */
  lemma FinalSafe(cfg: Config)
    requires Ready(cfg) && PositiveData(cfg) && cfg.times != []
    requires cfg.strategy.IsShort() || cfg.capital != 0.0
    ensures !FinalRun(cfg).raised
    ensures Solid(cfg) ==> Sound(FinalRun(cfg).book, cfg.strategy.IsShort())
    ensures !Solid(cfg) ==> FinalRun(cfg).book == Book(cfg.capital, [], [])
  {
    hide RunTo, FinalRun, Ready, PositiveData, Sound, SweepRaises, SweepBook, Judger, PricesAt, PositivePrices;
    var n := |cfg.times|;
    RunSafe(cfg, n);
    FinalShape(cfg);
    if Solid(cfg) {
      var t := cfg.times[n - 1];
      DataPrices(cfg, t);
      SweepBookSound(RunTo(cfg, n).book, cfg.strategy.IsShort(), PricesAt(cfg.series, t), Liquidation, t);
    } else {
      EmptySweep(RunTo(cfg, n).book, FinalJudge(cfg));
    }
  }

  lemma DataPrices(cfg: Config, t: Time)
    requires PositiveData(cfg)
    ensures PositivePrices(PricesAt(cfg.series, t))
  {
    PricesPositive(cfg.series, t);
  }

  lemma EmptySweep(b: Book, judge: Position -> Verdict)
    requires b.positions == []
    ensures !SweepRaises(b.positions, judge) && SweepBook(b, judge) == b
  {
  }

  // ---------------------------------------------------------------- runs that start with nothing

  /** Without cash, a long entry is a position of value 0, and closing it divides by zero. */
  lemma EmptyEntryRaises(sig: Signal, price: real, exit: real, reason: Reason, now: Time, later: Time)
    requires sig.action != "sell"
    ensures var c := Open(Book(0.0, [], []), sig, map[sig.symbol := price], now);
            |c.positions| == 1 && Close(c.positions[0], exit, reason, later).Raise?
  {
    var p := NewPosition(Book(0.0, [], []), sig, price, now);
    assert Open(Book(0.0, [], []), sig, map[sig.symbol := price], now).positions == [p];
  }

  /** No cash, no trades, and long positions of value 0 only. */
  ghost predicate Broke(b: Book) {
    && b.cash == 0.0 && b.trades == []
    && forall i :: 0 <= i < |b.positions| ==>
         b.positions[i].value == 0.0 && !b.positions[i].isShort && b.positions[i].entryPrice > 0.0
  }

  /** An exit rule fires for this position. */
  ghost predicate Due(p: Position, prices: map<Symbol, real>, params: ExitParams, now: Time) {
    p.symbol in prices && p.entryPrice != 0.0 &&
    var pnl := PnlPct(p.entryPrice, p.isShort, prices[p.symbol]);
    ExitReason(pnl, Max(p.maxProfit, pnl), p.entryTime, params, now).Some?
  }

  ghost predicate SomeDue(ps: seq<Position>, prices: map<Symbol, real>, params: ExitParams, now: Time) {
    exists i :: 0 <= i < |ps| && Due(ps[i], prices, params, now)
  }

  ghost predicate SomePriced(ps: seq<Position>, prices: map<Symbol, real>) {
    exists i :: 0 <= i < |ps| && ps[i].symbol in prices
  }

  lemma BrokeVerdict(p: Position, prices: map<Symbol, real>, rule: Rule, now: Time)
    requires p.value == 0.0 && !p.isShort && p.entryPrice > 0.0 && PositivePrices(prices)
    ensures var v := Judger(prices, rule, now)(p);
            && !v.Exit?
            && (v.Raise? <==> if rule.Exits? then Due(p, prices, rule.params, now) else p.symbol in prices)
            && (v.Keep? ==> v.position == p.(maxProfit := v.position.maxProfit))
  {
  }

  lemma {:induction false} BrokeSweep(b: Book, prices: map<Symbol, real>, rule: Rule, now: Time)
    requires Broke(b) && PositivePrices(prices)
    ensures SweepRaises(b.positions, Judger(prices, rule, now)) <==>
              if rule.Exits? then SomeDue(b.positions, prices, rule.params, now) else SomePriced(b.positions, prices)
    ensures Broke(SweepBook(b, Judger(prices, rule, now)))
  {
    hide Judger, Due, PositivePrices;
    var judge := Judger(prices, rule, now);
    forall i | 0 <= i < |b.positions|
      ensures !judge(b.positions[i]).Exit?
      ensures judge(b.positions[i]).Raise? <==>
                if rule.Exits? then Due(b.positions[i], prices, rule.params, now) else b.positions[i].symbol in prices
      ensures judge(b.positions[i]).Keep? ==>
                judge(b.positions[i]).position == b.positions[i].(maxProfit := judge(b.positions[i]).position.maxProfit)
    {
      BrokeVerdict(b.positions[i], prices, rule, now);
    }
    BrokeKept(b.positions, judge);
  }

  lemma {:induction false} BrokeKept(ps: seq<Position>, judge: Position -> Verdict)
    requires forall i :: 0 <= i < |ps| ==> ps[i].value == 0.0 && !ps[i].isShort && ps[i].entryPrice > 0.0
    requires forall i :: 0 <= i < |ps| ==> !judge(ps[i]).Exit?
    requires forall i :: 0 <= i < |ps| ==> judge(ps[i]).Keep? ==>
               judge(ps[i]).position == ps[i].(maxProfit := judge(ps[i]).position.maxProfit)
    ensures var r := Sweep(ps, judge); Broke(Book(0.0, r.kept, r.closed)) && r.proceeds == 0.0
  {
    if ps == [] {
    } else {
      BrokeKept(ps[..|ps| - 1], judge);
    }
  }

  lemma {:induction false} BrokeEntries(b: Book, sigs: seq<Signal>, prices: map<Symbol, real>, now: Time)
    requires Broke(b) && PositivePrices(prices) && forall i :: 0 <= i < |sigs| ==> FittingSignal(sigs[i], false)
    ensures Broke(OpenAll(b, sigs, prices, now))
  {
    if sigs == [] {
    } else {
      BrokeEntries(b, sigs[..|sigs| - 1], prices, now);
    }
  }

  /** The timestamp at which an exit rule closes one of the positions. */
  ghost predicate ClosesAt(cfg: Config, k: nat)
    requires k < |cfg.times|
  {
    SomeDue(RunTo(cfg, k).book.positions, PricesAt(cfg.series, cfg.times[k]), cfg.params, cfg.times[k])
  }

  lemma BrokeStep(cfg: Config, k: nat)
    requires Ready(cfg) && PositiveData(cfg) && !cfg.strategy.IsShort() && k < |cfg.times|
    requires !RunTo(cfg, k).raised && Broke(RunTo(cfg, k).book)
    ensures RunTo(cfg, k + 1).raised <==> ClosesAt(cfg, k)
    ensures !RunTo(cfg, k + 1).raised ==> Broke(RunTo(cfg, k + 1).book)
  {
    hide RunTo, Broke, Ready, PositiveData, PositivePrices, SignalsAt, TrendAt, PricesAt, SweepBook, SweepRaises, OpenAll, FirstFive, Judger, SomeDue;
    var t, s := cfg.times[k], RunTo(cfg, k);
    DataPrices(cfg, t);
    BrokeSweep(s.book, PricesAt(cfg.series, t), Exits(cfg.params), t);
    if ClosesAt(cfg, k) {
      if !RunTo(cfg, k + 1).raised {
        StepShape(cfg, k);
      }
    } else {
      SignalsSafe(cfg, t, TrendAt(cfg, t, s.trend), AfterSweep(cfg, k).positions, s.last);
      CompletedStep(cfg, k);
      SignalsFit(cfg, k);
      BrokeEntries(AfterSweep(cfg, k), FirstFive(SignalsOf(cfg, k).signals), PricesAt(cfg.series, t), t);
    }
  }

  /** A long-only run that starts with nothing raises exactly when a rule first closes one of its positions;
      until then it holds no cash and has made no trade. */
  lemma {:induction false} BrokeRun(cfg: Config, k: nat)
    requires Ready(cfg) && PositiveData(cfg) && !cfg.strategy.IsShort() && cfg.capital == 0.0 && k <= |cfg.times|
    ensures RunTo(cfg, k).raised <==> exists j :: 0 <= j < k && ClosesAt(cfg, j) && !RunTo(cfg, j).raised
    ensures !RunTo(cfg, k).raised ==> Broke(RunTo(cfg, k).book)
  {
    hide RunTo, Ready, PositiveData, ClosesAt;
    RunStart(cfg);
    if k == 0 {
    } else {
      BrokeRun(cfg, k - 1);
      if RunTo(cfg, k - 1).raised {
        StillRaised(cfg, k - 1);
      } else {
        BrokeStep(cfg, k - 1);
      }
    }
  }

  lemma StillRaised(cfg: Config, k: nat)
    requires k < |cfg.times| && RunTo(cfg, k).raised
    ensures RunTo(cfg, k + 1).raised
  {
    if !RunTo(cfg, k + 1).raised {
      RaisedStays(cfg, k);
    }
  }

  /** The whole run raises exactly when a rule or the liquidation closes one of its positions. */
  lemma BrokeFinal(cfg: Config)
    requires Ready(cfg) && PositiveData(cfg) && !cfg.strategy.IsShort() && cfg.capital == 0.0 && cfg.times != []
    ensures var n := |cfg.times|;
            FinalRun(cfg).raised <==>
              || (exists j :: 0 <= j < n && ClosesAt(cfg, j) && !RunTo(cfg, j).raised)
              || SomePriced(RunTo(cfg, n).book.positions, PricesAt(cfg.series, cfg.times[n - 1]))
    ensures !FinalRun(cfg).raised ==> Broke(FinalRun(cfg).book)
  {
    hide RunTo, FinalRun, Ready, PositiveData, ClosesAt, Broke, SweepRaises, SweepBook, Judger, PricesAt, SomePriced, PositivePrices;
    var n := |cfg.times|;
    BrokeRun(cfg, n);
    FinalShape(cfg);
    DataPrices(cfg, cfg.times[n - 1]);
    if !RunTo(cfg, n).raised {
      BrokeSweep(RunTo(cfg, n).book, PricesAt(cfg.series, cfg.times[n - 1]), Liquidation, cfg.times[n - 1]);
    }
  }

  /** A short position is different: closing it takes cash away exactly when the price has more than doubled. */
  lemma ShortLoss(p: Position, price: real, reason: Reason, now: Time)
    requires SoundPosition(p, true) && p.value > 0.0
    ensures Close(p, price, reason, now).Exit?
    ensures Close(p, price, reason, now).proceeds < 0.0 <==> price > 2.0 * p.entryPrice
  {
    var pct := PnlPct(p.entryPrice, true, price);
    DivMul(p.entryPrice - price, p.entryPrice);
    MulOrder(pct, -1.0, p.entryPrice);
    MulOrder(pct, -1.0, p.value);
  }

  // ---------------------------------------------------------------- short-only runs

  /** No trade was closed above twice its entry price. */
  ghost predicate Mild(ts: seq<Trade>) {
    forall i :: 0 <= i < |ts| ==> ts[i].exitPrice <= 2.0 * ts[i].entryPrice
  }

  ghost predicate Solvent(b: Book) {
    b.cash >= 0.0 && forall i :: 0 <= i < |b.positions| ==> b.positions[i].value >= 0.0
  }

  ghost predicate MildVerdict(v: Verdict) {
    match v
    case Keep(q) => q.value >= 0.0
    case Exit(trade, proceeds) => trade.exitPrice <= 2.0 * trade.entryPrice ==> proceeds >= 0.0
    case Raise => true
  }

  lemma CloseMild(p: Position, price: real, reason: Reason, now: Time)
    requires SoundPosition(p, true) && p.value >= 0.0
    ensures MildVerdict(Close(p, price, reason, now))
  {
    if p.value > 0.0 {
      ShortLoss(p, price, reason, now);
    } else {
      ZeroProceeds(p, price, reason, now);
    }
  }

  lemma ZeroProceeds(p: Position, price: real, reason: Reason, now: Time)
    requires SoundPosition(p, true) && p.value == 0.0
    ensures Close(p, price, reason, now).Exit? && Close(p, price, reason, now).proceeds == 0.0
  {
    hide PnlPct;
  }

  lemma JudgeMild(p: Position, prices: map<Symbol, real>, rule: Rule, now: Time)
    requires SoundPosition(p, true) && p.value >= 0.0
    ensures MildVerdict(Judger(prices, rule, now)(p))
  {
    hide Close, ExitReason;
    if p.symbol in prices {
      var price := prices[p.symbol];
      match rule
      case Exits(params) =>
        var pnlPct := PnlPct(p.entryPrice, p.isShort, price);
        var q := if pnlPct > p.maxProfit then p.(maxProfit := pnlPct) else p;
        var reason := ExitReason(pnlPct, q.maxProfit, q.entryTime, params, now);
        if reason.Some? {
          CloseMild(q, price, reason.value, now);
        }
      case Liquidation =>
        CloseMild(p, price, BacktestEnd, now);
    }
  }

  lemma {:induction false} SweepMild(ps: seq<Position>, judge: Position -> Verdict)
    requires forall i :: 0 <= i < |ps| ==> MildVerdict(judge(ps[i]))
    requires Mild(Sweep(ps, judge).closed)
    ensures Sweep(ps, judge).proceeds >= 0.0
    ensures forall i :: 0 <= i < |Sweep(ps, judge).kept| ==> Sweep(ps, judge).kept[i].value >= 0.0
  {
    if ps == [] {
    } else {
      var n := |ps| - 1;
      var r := Sweep(ps[..n], judge);
      MildPrefix(r.closed, Sweep(ps, judge).closed);
      SweepMild(ps[..n], judge);
      assert MildVerdict(judge(ps[n]));
      if judge(ps[n]).Exit? {
        assert Sweep(ps, judge).closed[|r.closed|] == judge(ps[n]).trade;
      }
    }
  }

  lemma MildPrefix(a: seq<Trade>, b: seq<Trade>)
    ensures a <= b && Mild(b) ==> Mild(a)
  {
    if a <= b && Mild(b) {
      forall i | 0 <= i < |a| ensures a[i].exitPrice <= 2.0 * a[i].entryPrice {
        assert a[i] == b[i];
      }
    }
  }

  lemma SweepBookSolvent(b: Book, prices: map<Symbol, real>, rule: Rule, now: Time)
    requires SoundPositions(b.positions, true) && Solvent(b)
    requires Mild(SweepBook(b, Judger(prices, rule, now)).trades)
    ensures Mild(b.trades) && Solvent(SweepBook(b, Judger(prices, rule, now)))
  {
    hide Sweep;
    var judge := Judger(prices, rule, now);
    var closed := Sweep(b.positions, judge).closed;
    MildParts(b.trades, closed);
    forall i | 0 <= i < |b.positions| ensures MildVerdict(judge(b.positions[i])) {
      JudgeMild(b.positions[i], prices, rule, now);
    }
    hide Judger, Judge, MildVerdict;
    SweepMild(b.positions, judge);
  }

  lemma MildParts(a: seq<Trade>, b: seq<Trade>)
    requires Mild(a + b)
    ensures Mild(a) && Mild(b)
  {
    MildPrefix(a, a + b);
    forall i | 0 <= i < |b| ensures b[i].exitPrice <= 2.0 * b[i].entryPrice {
      assert (a + b)[|a| + i] == b[i];
    }
  }

  lemma {:induction false} EntriesSolvent(b: Book, sigs: seq<Signal>, prices: map<Symbol, real>, now: Time, short: bool)
    requires Solvent(b) && forall i :: 0 <= i < |sigs| ==> FittingSignal(sigs[i], short)
    ensures Solvent(OpenAll(b, sigs, prices, now))
  {
    hide Open, Solvent, FittingSignal;
    if sigs == [] {
    } else {
      var n := |sigs| - 1;
      EntriesSolvent(b, sigs[..n], prices, now, short);
      OpenSolvent(OpenAll(b, sigs[..n], prices, now), sigs[n], prices, now, short);
    }
  }

  lemma OpenSolvent(b: Book, sig: Signal, prices: map<Symbol, real>, now: Time, short: bool)
    requires Solvent(b) && FittingSignal(sig, short)
    ensures Solvent(Open(b, sig, prices, now))
  {
    MulNonNegative(b.cash, sig.positionPct);
    MulNonNegative(b.cash, 1.0 - sig.positionPct);
    Distribute(1.0, sig.positionPct, b.cash);
  }

  /** As long as no position is closed above twice its entry price, a short-only run with
      non-negative capital never has negative cash. */
  lemma {:induction false} ShortRunSolvent(cfg: Config, k: nat)
    requires Ready(cfg) && PositiveData(cfg) && cfg.strategy.IsShort() && cfg.capital >= 0.0 && k <= |cfg.times|
    requires Mild(RunTo(cfg, k).book.trades)
    ensures Solvent(RunTo(cfg, k).book)
  {
    hide RunTo, Ready, PositiveData, Mild;
    RunStart(cfg);
    if k == 0 {
    } else {
      ShortStep(cfg, k - 1);
      ShortRunSolvent(cfg, k - 1);
    }
  }

  lemma ShortStep(cfg: Config, k: nat)
    requires Ready(cfg) && PositiveData(cfg) && cfg.strategy.IsShort() && k < |cfg.times|
    requires Mild(RunTo(cfg, k + 1).book.trades)
    ensures Mild(RunTo(cfg, k).book.trades)
    ensures Solvent(RunTo(cfg, k).book) ==> Solvent(RunTo(cfg, k + 1).book)
  {
    hide RunTo, Ready, PositiveData, Mild, Solvent, SoundPositions, SignalsAt, TrendAt, PricesAt, SweepRaises, OpenAll, FirstFive, Judger, Sweep;
    var t, b, sigs := cfg.times[k], RunTo(cfg, k).book, FirstFive(SignalsOf(cfg, k).signals);
    SolidRun(cfg, k);
    SolidRun(cfg, k + 1);
    StepShape(cfg, k);
    OpenAllConserves(AfterSweep(cfg, k), sigs, PricesAt(cfg.series, t), t);
    MildParts(b.trades, Sweep(b.positions, ExitJudge(cfg, t)).closed);
    if Solvent(b) {
      SweepBookSolvent(b, PricesAt(cfg.series, t), Exits(cfg.params), t);
      SignalsFit(cfg, k);
      EntriesSolvent(AfterSweep(cfg, k), sigs, PricesAt(cfg.series, t), t, true);
    }
  }

  /** The same of the completed run. */
  lemma ShortFinalSolvent(cfg: Config)
    requires Ready(cfg) && PositiveData(cfg) && cfg.strategy.IsShort() && cfg.capital >= 0.0 && cfg.times != []
    requires Mild(FinalRun(cfg).book.trades)
    ensures Solvent(FinalRun(cfg).book)
  {
    hide RunTo, FinalRun, Ready, PositiveData, Mild, Solvent, SoundPositions, PricesAt, SweepRaises, Judger, Sweep;
    var n := |cfg.times|;
    var t, b := cfg.times[n - 1], RunTo(cfg, n).book;
    SolidRun(cfg, n);
    FinalSafe(cfg);
    FinalShape(cfg);
    MildParts(b.trades, Sweep(b.positions, FinalJudge(cfg)).closed);
    ShortRunSolvent(cfg, n);
    SweepBookSolvent(b, PricesAt(cfg.series, t), Liquidation, t);
  }
}
