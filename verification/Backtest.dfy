/** What SimpleBacktester of run_backtest.py computes, as functions over its book of cash,
    open positions (in the insertion order of Python's dict) and trades. A Python
    ZeroDivisionError is the flag `raised`. */
module Backtest {
  import opened PySeq
  import opened History
  import opened Signals
  import opened TimeOrder

  datatype Reason = StopLoss | TakeProfit | TrailingStop | TimeStop | BacktestEnd

  datatype Position = Position(symbol: Symbol, entryPrice: real, entryTime: Time, value: real, strategy: string,
                               score: real, isShort: bool, maxProfit: real)

  datatype Trade = Trade(symbol: Symbol, strategy: string, entryTime: Time, exitTime: Time, entryPrice: real,
                         exitPrice: real, pnl: real, pnlPct: real, reason: Reason, isShort: bool)

  datatype Book = Book(cash: real, positions: seq<Position>, trades: seq<Trade>)

  /** The exit parameters; a missing one takes the default of `params.get`. */
  datatype ExitParams = ExitParams(stopLoss: Option<real>, takeProfit: Option<real>, trailingTrigger: Option<real>,
                                   trailingStop: Option<real>, timeStop: Option<real>)

  predicate Truthy(x: Option<real>) {
    x.Some? && x.value != 0.0
  }

  /** Why positions are closed: the rules of a sweep, or the end of the data. */
  datatype Rule = Exits(params: ExitParams) | Liquidation

  /** What happens to one position: it stays (with its best profit updated), it is closed with a
      trade and its exit value, or closing it divides by zero. */
  datatype Verdict = Keep(position: Position) | Exit(trade: Trade, proceeds: real) | Raise

  function PnlPct(entryPrice: real, isShort: bool, price: real): real
    requires entryPrice != 0.0
  {
    if isShort then (entryPrice - price) / entryPrice else (price - entryPrice) / entryPrice
  }

  /** The rules in the order the code tries them; the time stop is tried last and independently. */
  function ExitReason(pnlPct: real, maxProfit: real, entryTime: Time, params: ExitParams, now: Time): Option<Reason> {
    if pnlPct <= params.stopLoss.GetOr(-0.01) then Some(StopLoss)
    else if pnlPct >= params.takeProfit.GetOr(0.01) then Some(TakeProfit)
    else if Truthy(params.trailingTrigger) && maxProfit >= params.trailingTrigger.value
            && pnlPct <= maxProfit - params.trailingStop.GetOr(0.005) then Some(TrailingStop)
    else if Truthy(params.timeStop) && Minutes(entryTime, now) >= params.timeStop.value then Some(TimeStop)
    else None
  }

  /** Closing divides by the entry price and, for a long position, by its value. */
  predicate Closable(p: Position) {
    p.entryPrice != 0.0 && (p.isShort || p.value != 0.0)
  }

  function Close(p: Position, price: real, reason: Reason, now: Time): (v: Verdict)
    ensures !v.Keep?
  {
    if !Closable(p) then Raise
    else if p.isShort then
      var pnlPct := PnlPct(p.entryPrice, true, price);
      var pnl := p.value * pnlPct;
      Exit(Trade(p.symbol, p.strategy, p.entryTime, now, p.entryPrice, price, pnl, pnlPct, reason, true), p.value + pnl)
    else
      var exitValue := (p.value / p.entryPrice) * price;
      var pnl := exitValue - p.value;
      Exit(Trade(p.symbol, p.strategy, p.entryTime, now, p.entryPrice, price, pnl, pnl / p.value, reason, false), exitValue)
  }

  function Judge(p: Position, prices: map<Symbol, real>, rule: Rule, now: Time): Verdict {
    match rule
    case Exits(params) =>
      if p.symbol !in prices || prices[p.symbol] == 0.0 then Keep(p)
      else if p.entryPrice == 0.0 then Raise
      else
        var price := prices[p.symbol];
        var pnlPct := PnlPct(p.entryPrice, p.isShort, price);
        var q := if pnlPct > p.maxProfit then p.(maxProfit := pnlPct) else p;
        var reason := ExitReason(pnlPct, q.maxProfit, q.entryTime, params, now);
        if reason.None? then Keep(q) else Close(q, price, reason.value, now)
    case Liquidation =>
      if p.symbol !in prices then Keep(p) else Close(p, prices[p.symbol], BacktestEnd, now)
  }

  function Judger(prices: map<Symbol, real>, rule: Rule, now: Time): Position -> Verdict {
    p => Judge(p, prices, rule, now)
  }

  datatype Swept = Swept(kept: seq<Position>, closed: seq<Trade>, proceeds: real)

  /** One pass over the open positions: each is kept or becomes one trade. */
  function Sweep(ps: seq<Position>, judge: Position -> Verdict): Swept {
    if ps == [] then Swept([], [], 0.0)
    else
      var r := Sweep(ps[..|ps| - 1], judge);
      match judge(ps[|ps| - 1])
      case Keep(p) => r.(kept := r.kept + [p])
      case Exit(trade, proceeds) => r.(closed := r.closed + [trade], proceeds := r.proceeds + proceeds)
      case Raise => r
  }

  predicate SweepRaises(ps: seq<Position>, judge: Position -> Verdict) {
    exists i :: 0 <= i < |ps| && judge(ps[i]).Raise?
  }

  function SweepBook(b: Book, judge: Position -> Verdict): Book {
    var r := Sweep(b.positions, judge);
    Book(b.cash + r.proceeds, r.kept, b.trades + r.closed)
  }

  /** Index of the position in this symbol, or -1. */
  function IndexOf(ps: seq<Position>, symbol: Symbol): (i: int)
    ensures -1 <= i < |ps|
    ensures i >= 0 ==> ps[i].symbol == symbol
    ensures i == -1 ==> forall j :: 0 <= j < |ps| ==> ps[j].symbol != symbol
  {
    if ps == [] then -1
    else if ps[|ps| - 1].symbol == symbol then |ps| - 1
    else IndexOf(ps[..|ps| - 1], symbol)
  }

  predicate Distinct(ps: seq<Position>) {
    forall i, j :: 0 <= i < j < |ps| ==> ps[i].symbol != ps[j].symbol
  }

  function NewPosition(b: Book, sig: Signal, price: real, now: Time): Position {
    Position(sig.symbol, price, now, b.cash * sig.positionPct, sig.strategy, sig.score, sig.action == "sell", 0.0)
  }

  function Open(b: Book, sig: Signal, prices: map<Symbol, real>, now: Time): Book {
    if IndexOf(b.positions, sig.symbol) >= 0 || sig.symbol !in prices then b
    else
      var p := NewPosition(b, sig, prices[sig.symbol], now);
      if b.cash < p.value then b else Book(b.cash - p.value, b.positions + [p], b.trades)
  }

  function OpenAll(b: Book, sigs: seq<Signal>, prices: map<Symbol, real>, now: Time): Book {
    if sigs == [] then b else Open(OpenAll(b, sigs[..|sigs| - 1], prices, now), sigs[|sigs| - 1], prices, now)
  }

  // ---------------------------------------------------------------- the run

  datatype Series = Series(symbol: Symbol, candles: seq<Candle>)

  /** Everything the timestamp loop runs on. `feed` already holds the series and the BTC candles. */
  datatype Config = Config(times: seq<Time>, series: seq<Series>, feed: Feed, strategy: Strategy, params: ExitParams, capital: real,
                           trend0: Trend, last0: map<Symbol, Time>, root: real -> real)

  datatype Run = Run(book: Book, trend: Trend, last: map<Symbol, Time>, raised: bool)

  ghost predicate DistinctSeries(series: seq<Series>) {
    forall i, j :: 0 <= i < j < |series| ==> series[i].symbol != series[j].symbol
  }

  function AllTimes(series: seq<Series>): set<Time> {
    set i, j | 0 <= i < |series| && 0 <= j < |series[i].candles| :: series[i].candles[j].openTime
  }

  /** What loading establishes: one series per symbol, each known to the history provider, and
      the loop's timestamps are the sorted open times of all candles. */
  ghost predicate Ready(cfg: Config) {
    && DistinctSeries(cfg.series)
    && cfg.times == SortedTimes(AllTimes(cfg.series))
    && forall i :: 0 <= i < |cfg.series| ==>
         Loaded(cfg.feed, cfg.series[i].symbol, "5m") == Some(cfg.series[i].candles)
  }

  /** Close of the first candle that opens at t. */
  function CloseAt(candles: seq<Candle>, t: Time): Option<real> {
    if candles == [] then None
    else
      var r := CloseAt(candles[..|candles| - 1], t);
      if r.Some? then r
      else if candles[|candles| - 1].openTime == t then Some(candles[|candles| - 1].close) else None
  }

  function PricesAt(series: seq<Series>, t: Time): map<Symbol, real> {
    if series == [] then map[]
    else
      var m := PricesAt(series[..|series| - 1], t);
      var s := series[|series| - 1];
      match CloseAt(s.candles, t)
      case None => m
      case Some(price) => m[s.symbol := price]
  }

  /** Symbols without an open position, in loading order. */
  function ActiveSymbols(series: seq<Series>, ps: seq<Position>): seq<Symbol> {
    if series == [] then []
    else
      var s := series[|series| - 1].symbol;
      ActiveSymbols(series[..|series| - 1], ps) + if IndexOf(ps, s) >= 0 then [] else [s]
  }

  function FirstFive(sigs: seq<Signal>): seq<Signal> {
    if |sigs| <= 5 then sigs else sigs[..5]
  }

  function TrendAt(cfg: Config, t: Time, trend: Trend): Trend {
    var btc := GetBtc1h(cfg.feed.(now := Some(t)));
    if btc != [] then HourlyTrend(btc) else trend
  }

  function SignalsAt(cfg: Config, t: Time, trend: Trend, ps: seq<Position>, last: map<Symbol, Time>): Generated {
    Generate(cfg.strategy, cfg.feed.(now := Some(t)), ActiveSymbols(cfg.series, ps), trend, t, last, cfg.root)
  }

  function ExitJudge(cfg: Config, t: Time): Position -> Verdict {
    Judger(PricesAt(cfg.series, t), Exits(cfg.params), t)
  }

  /** The book after the timestamp's entries. */
  function Entered(cfg: Config, t: Time, b: Book, g: Generated): Book {
    OpenAll(b, FirstFive(g.signals), PricesAt(cfg.series, t), t)
  }

  /** The body of the timestamp loop. */
  function Step(cfg: Config, t: Time, s: Run): Run {
    if s.raised then s
    else
      var trend := TrendAt(cfg, t, s.trend);
      var judge := ExitJudge(cfg, t);
      if SweepRaises(s.book.positions, judge) then Run(s.book, trend, s.last, true)
      else
        var b := SweepBook(s.book, judge);
        var g := SignalsAt(cfg, t, trend, b.positions, s.last);
        if g.raised then Run(b, trend, g.last, true)
        else Run(Entered(cfg, t, b, g), trend, g.last, false)
  }

  /** The state after the first k timestamps. */
  function RunTo(cfg: Config, k: nat): Run
    requires k <= |cfg.times|
  {
    if k == 0 then Run(Book(cfg.capital, [], []), cfg.trend0, cfg.last0, false)
    else Step(cfg, cfg.times[k - 1], RunTo(cfg, k - 1))
  }

  /** The whole run: all timestamps, then every position priced at the last one is closed. */
  function FinalRun(cfg: Config): Run
    requires cfg.times != []
  {
    var times := cfg.times;
    var s := RunTo(cfg, |times|);
    var t := times[|times| - 1];
    var judge := Judger(PricesAt(cfg.series, t), Liquidation, t);
    if s.raised then s
    else if SweepRaises(s.book.positions, judge) then s.(raised := true)
    else s.(book := SweepBook(s.book, judge))
  }

  // ---------------------------------------------------------------- results

  function Value(p: Position): real {
    p.value
  }

  function Pnl(t: Trade): real {
    t.pnl
  }

  function OpenValue(ps: seq<Position>): real {
    Sum(Map(Value, ps))
  }

  function TotalPnl(ts: seq<Trade>): real {
    Sum(Map(Pnl, ts))
  }

  function Select(ts: seq<Trade>, wins: bool): seq<Trade> {
    if ts == [] then []
    else
      var t := ts[|ts| - 1];
      Select(ts[..|ts| - 1], wins) + if (t.pnl > 0.0) == wins then [t] else []
  }

  datatype Results = Results(trades: nat, wins: nat, losses: nat, totalPnl: real, totalReturn: real, profitFactor: real)

  /** None when the code divides by a zero initial capital. */
  function CalculateResults(b: Book, capital: real): Option<Results> {
    if b.trades == [] then Some(Results(0, 0, 0, 0.0, 0.0, 0.0))
    else if capital == 0.0 then None
    else
      var wins, losses := Select(b.trades, true), Select(b.trades, false);
      var equity := b.cash + OpenValue(b.positions);
      var totalLosses := Abs(TotalPnl(losses));
      Some(Results(|b.trades|, |wins|, |losses|, TotalPnl(b.trades), (equity - capital) / capital * 100.0,
                   if totalLosses > 0.0 then TotalPnl(wins) / totalLosses else 0.0))
  }
}
