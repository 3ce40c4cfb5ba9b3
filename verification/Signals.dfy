/** The six signal generators of run_backtest.py and their shared per-symbol cooldown. */
module Signals {
  import opened PySeq
  import opened History
  import Indicators

  datatype Trend = Bullish | Bearish | Sideways

  datatype Signal = Signal(symbol: Symbol, action: string, strategy: string, score: real, positionPct: real)

  datatype Strategy =
    | Pullback(minScore: real, cooldown: real)
    | Rebound(minDrop: real, minRvol: real, minScore: real, cooldown: real)
    | DipScalper(minDip: real, minRvol: real, minScore: real, cooldown: real)
    | Attack(minBreakout: real, maxBreakout: real, minRvol: real, minScore: real, cooldown: real)
    | ShortBreakdown(minBreakdown: real, minRvol: real, minScore: real, cooldown: real)
    | ShortRallyFade(minRally: real, minFade: real, minScore: real, cooldown: real)
  {
    predicate IsShort() {
      ShortBreakdown? || ShortRallyFade?
    }

    function Name(): string {
      match this
      case Pullback(_, _) => "PULLBACK"
      case Rebound(_, _, _, _) => "REBOUND"
      case DipScalper(_, _, _, _) => "DIP_SCALPER"
      case Attack(_, _, _, _, _) => "ATTACK"
      case ShortBreakdown(_, _, _, _) => "SHORT_BREAKDOWN"
      case ShortRallyFade(_, _, _, _) => "SHORT_RALLY_FADE"
    }

    function PositionPct(): real {
      match this
      case Pullback(_, _) => 0.15
      case Rebound(_, _, _, _) => 0.2
      case DipScalper(_, _, _, _) => 0.10
      case Attack(_, _, _, _, _) => 0.10
      case ShortBreakdown(_, _, _, _) => 0.15
      case ShortRallyFade(_, _, _, _) => 0.12
    }

    function Window(): int {
      match this
      case Pullback(_, _) => 50
      case Rebound(_, _, _, _) => 20
      case DipScalper(_, _, _, _) => 15
      case Attack(_, _, _, _, _) => 25
      case ShortBreakdown(_, _, _, _) => 25
      case ShortRallyFade(_, _, _, _) => 25
    }

    /** The volume window; Pullback and ShortRallyFade ignore the relative volume. */
    function RvolPeriods(): int {
      match this
      case Pullback(_, _) => 20
      case Rebound(_, _, _, _) => 20
      case DipScalper(_, _, _, _) => 10
      case Attack(_, _, _, _, _) => 15
      case ShortBreakdown(_, _, _, _) => 20
      case ShortRallyFade(_, _, _, _) => 20
    }

    /** The market regimes in which the generator returns no signal at all. */
    predicate Gated(trend: Trend) {
      (Pullback? && trend != Bullish) || (Attack? && trend == Bearish)
    }
  }

  /** What a generator does with one symbol: skip it, signal it, or divide by a zero price. */
  datatype Decision = Skip | Emit(score: real) | ZeroDivision

  function Closes(c: seq<Candle>): seq<real> {
    Map(ClosingPrice, c)
  }

  function High(c: Candle): real {
    c.high
  }

  function Low(c: Candle): real {
    c.low
  }

  function MaxOf(s: seq<real>): real
    requires s != []
  {
    if |s| == 1 then s[0] else Max(MaxOf(s[..|s| - 1]), s[|s| - 1])
  }

  function MinOf(s: seq<real>): real
    requires s != []
  {
    if |s| == 1 then s[0] else Min(MinOf(s[..|s| - 1]), s[|s| - 1])
  }

  function CapAt100(score: real, minScore: real): Decision {
    if score >= minScore then Emit(Min(score, 100.0)) else Skip
  }

  function BodyRatioBelow(c: Candle, limit: real): bool {
    c.high - c.low > 0.0 && Abs(c.close - c.open) / (c.high - c.low) < limit
  }

  function LowerWickBelow(c: Candle, limit: real): bool {
    c.high - c.low > 0.0 && (Min(c.close, c.open) - c.low) / (c.high - c.low) < limit
  }

  function WeakVolume(rvol: Option<real>, minRvol: real): bool {
    rvol.None? || rvol.value == 0.0 || rvol.value < minRvol
  }

  function PullbackRule(c: seq<Candle>, minScore: real, root: real -> real): Decision {
    if |c| < 30 then Skip
    else
      var closes, current := Closes(c), c[|c| - 1];
      var price := closes[|c| - 1];
      var lower := Indicators.Bollinger(closes, 20, 2.0, root).lower;
      var rsi := Indicators.Rsi(closes, 14);
      var hist := Indicators.Macd(closes, 12, 26, 9).histogram;
      if price > lower * 1.02 || rsi > 38.0 || current.close <= current.open
         || BodyRatioBelow(current, 0.45) || hist < -0.001 * price then Skip
      else
        var score := 60.0 + (if rsi < 28.0 then 20.0 else if rsi < 35.0 then 12.0 else 0.0)
                     + (if price < lower then 15.0 else 0.0) + (if hist > 0.0 then 10.0 else 0.0);
        if score >= minScore then Emit(score) else Skip
  }

  function ReboundRule(c: seq<Candle>, rvol: Option<real>, minDrop: real, minRvol: real, minScore: real): Decision {
    if |c| < 10 then Skip
    else
      var current, past := c[|c| - 1], c[|c| - 4].close;
      if past == 0.0 then ZeroDivision
      else
        var drop := (current.close - past) / past;
        if drop > -minDrop || WeakVolume(rvol, minRvol) || Indicators.Rsi(Closes(c), 14) > 30.0
           || LowerWickBelow(current, 0.25) then Skip
        else CapAt100(70.0 + Abs(drop) * 500.0 + Min(rvol.value, 5.0) * 3.0, minScore)
  }

  function DipRule(c: seq<Candle>, rvol: Option<real>, minDip: real, minRvol: real, minScore: real): Decision {
    if |c| < 5 then Skip
    else
      var current, past := c[|c| - 1], c[|c| - 2].close;
      if past == 0.0 then ZeroDivision
      else
        var dip := (current.close - past) / past;
        var rsi := Indicators.Rsi(Closes(c), 14);
        if dip > -minDip || WeakVolume(rvol, minRvol) || rsi > 42.0 || LowerWickBelow(current, 0.20) then Skip
        else
          CapAt100(55.0 + Abs(dip) * 400.0 + Min(rvol.value, 4.0) * 5.0
                   + (if rsi < 28.0 then 15.0 else if rsi < 35.0 then 8.0 else 0.0), minScore)
  }

  function AttackRule(c: seq<Candle>, rvol: Option<real>, minBreakout: real, maxBreakout: real,
                      minRvol: real, minScore: real): Decision
  {
    if |c| < 15 then Skip
    else
      var current := c[|c| - 1];
      var recentHigh := MaxOf(Map(High, c[|c| - 15..|c| - 1]));
      if recentHigh == 0.0 then ZeroDivision
      else
        var breakout := (current.close - recentHigh) / recentHigh;
        if breakout < minBreakout || breakout > maxBreakout || WeakVolume(rvol, minRvol)
           || current.close <= current.open || BodyRatioBelow(current, 0.50)
           || Indicators.Rsi(Closes(c), 14) > 75.0 then Skip
        else CapAt100(60.0 + breakout * 400.0 + Min(rvol.value, 5.0) * 4.0, minScore)
  }

  function BreakdownRule(c: seq<Candle>, rvol: Option<real>, minBreakdown: real, minRvol: real, minScore: real): Decision {
    if |c| < 15 then Skip
    else
      var current := c[|c| - 1];
      var lowest := MinOf(Map(Low, c[|c| - 12..|c| - 1]));
      var breakdown := if lowest > 0.0 then (lowest - current.close) / lowest else 0.0;
      if breakdown < minBreakdown || WeakVolume(rvol, minRvol) || Indicators.Rsi(Closes(c), 14) > 70.0
         || current.close >= current.open || Indicators.Macd(Closes(c), 12, 26, 9).line > 0.0 then Skip
      else CapAt100(60.0 + breakdown * 500.0 + Min(rvol.value, 4.0) * 5.0, minScore)
  }

  function IsBearish(c: Candle): bool {
    c.close < c.open
  }

  function FadeRule(c: seq<Candle>, minRally: real, minFade: real, minScore: real): Decision {
    if |c| < 15 then Skip
    else
      var n, current := |c|, c[|c| - 1];
      var highest := MaxOf(Map(High, c[n - 15..]));
      var lowest := MinOf(Map(Low, c[n - 15..n - 5]));
      var rally := if lowest > 0.0 then (highest - lowest) / lowest else 0.0;
      var fade := if highest > 0.0 then (highest - current.close) / highest else 0.0;
      var rsi := Indicators.Rsi(Closes(c), 14);
      var bearish := (if IsBearish(c[n - 3]) then 1 else 0) + (if IsBearish(c[n - 2]) then 1 else 0)
                     + (if IsBearish(c[n - 1]) then 1 else 0);
      if rally < minRally || fade < minFade || rsi < 52.0 || current.close >= current.open
         || BodyRatioBelow(current, 0.45) || bearish < 2
         || Indicators.Macd(Closes(c), 12, 26, 9).histogram > 0.0 then Skip
      else CapAt100(60.0 + fade * 300.0 + rally * 150.0 + (if rsi > 65.0 then 12.0 else 0.0), minScore)
  }

  /** A generator's rule on the window of candles and the relative volume it asks for. */
  function Apply(st: Strategy, c: seq<Candle>, rvol: Option<real>, root: real -> real): Decision {
    match st
    case Pullback(minScore, _) => PullbackRule(c, minScore, root)
    case Rebound(minDrop, minRvol, minScore, _) => ReboundRule(c, rvol, minDrop, minRvol, minScore)
    case DipScalper(minDip, minRvol, minScore, _) => DipRule(c, rvol, minDip, minRvol, minScore)
    case Attack(minBreakout, maxBreakout, minRvol, minScore, _) =>
      AttackRule(c, rvol, minBreakout, maxBreakout, minRvol, minScore)
    case ShortBreakdown(minBreakdown, minRvol, minScore, _) => BreakdownRule(c, rvol, minBreakdown, minRvol, minScore)
    case ShortRallyFade(minRally, minFade, minScore, _) => FadeRule(c, minRally, minFade, minScore)
  }

  /** The rule applied to what the history provider answers at its current time. */
  function Decide(st: Strategy, f: Feed, s: Symbol, root: real -> real): Decision {
    Apply(st, GetCandles(f, s, "5m", st.Window()), CalcRvol(f, s, "5m", st.RvolPeriods()), root)
  }

  function Decider(st: Strategy, f: Feed, root: real -> real): Symbol -> Decision {
    s => Decide(st, f, s, root)
  }

  predicate CoolingDown(s: Symbol, last: map<Symbol, Time>, now: Time, cooldown: real) {
    s in last && Minutes(last[s], now) < cooldown
  }

  datatype Generated = Generated(signals: seq<Signal>, last: map<Symbol, Time>, raised: bool)

  function MakeSignal(st: Strategy, s: Symbol, score: real): Signal {
    Signal(s, if st.IsShort() then "sell" else "buy", st.Name(), score, st.PositionPct())
  }

  /** The loop over the symbols, which remembers the entry time of every signal it emits. */
  function Scan(st: Strategy, decide: Symbol -> Decision, symbols: seq<Symbol>, now: Time, last: map<Symbol, Time>): Generated {
    if symbols == [] then Generated([], last, false)
    else
      var g := Scan(st, decide, symbols[..|symbols| - 1], now, last);
      var s := symbols[|symbols| - 1];
      if g.raised || CoolingDown(s, g.last, now, st.cooldown) then g
      else match decide(s)
           case Skip => g
           case ZeroDivision => g.(raised := true)
           case Emit(score) => Generated(g.signals + [MakeSignal(st, s, score)], g.last[s := now], false)
  }

  function Generate(st: Strategy, f: Feed, symbols: seq<Symbol>, trend: Trend, now: Time,
                    last: map<Symbol, Time>, root: real -> real): Generated
  {
    if st.Gated(trend) then Generated([], last, false) else Scan(st, Decider(st, f, root), symbols, now, last)
  }

  /** run_backtest.get_hourly_trend */
  function HourlyTrend(btc: seq<Candle>): Trend {
    if |btc| < 20 then Sideways
    else
      var closes := Closes(btc);
      var ema := Indicators.Ema(closes, 20);
      var diff := if ema > 0.0 then (closes[|closes| - 1] - ema) / ema else 0.0;
      if diff > 0.01 then Bullish else if diff < -0.01 then Bearish else Sideways
  }

  /** Every generator decides on the visible past only. */
  lemma DecideSame(st: Strategy, f: Feed, g: Feed, symbols: set<Symbol>, horizon: Time, t: Time, s: Symbol, root: real -> real)
    requires SamePast(f, g, symbols, horizon) && t <= horizon && s in symbols
    ensures Decider(st, f.(now := Some(t)), root)(s) == Decider(st, g.(now := Some(t)), root)(s)
  {
    SameAnswers(f, g, symbols, horizon, t, s, "5m", st.Window());
    SameRvol(f, g, symbols, horizon, t, s, st.RvolPeriods());
  }

  lemma SameRvol(f: Feed, g: Feed, symbols: set<Symbol>, horizon: Time, t: Time, s: Symbol, periods: int)
    requires SamePast(f, g, symbols, horizon) && t <= horizon && s in symbols && periods >= 1
    ensures CalcRvol(f.(now := Some(t)), s, "5m", periods) == CalcRvol(g.(now := Some(t)), s, "5m", periods)
  {
    SameAnswers(f, g, symbols, horizon, t, s, "5m", periods * 2);
  }

  /** The scan asks for a decision on its own symbols only. */
  lemma {:induction false} ScanExtensional(st: Strategy, d: Symbol -> Decision, e: Symbol -> Decision, symbols: seq<Symbol>,
                                           t: Time, last: map<Symbol, Time>)
    requires forall i :: 0 <= i < |symbols| ==> d(symbols[i]) == e(symbols[i])
    ensures Scan(st, d, symbols, t, last) == Scan(st, e, symbols, t, last)
  {
    if symbols == [] {
    } else {
      ScanExtensional(st, d, e, symbols[..|symbols| - 1], t, last);
    }
  }

  /** So the signals, and the cooldown memory, depend on the visible past only. */
  lemma GenerateSame(st: Strategy, f: Feed, g: Feed, symbols: seq<Symbol>, known: set<Symbol>, horizon: Time,
                     trend: Trend, t: Time, last: map<Symbol, Time>, root: real -> real)
    requires SamePast(f, g, known, horizon) && t <= horizon
    requires forall i :: 0 <= i < |symbols| ==> symbols[i] in known
    ensures Generate(st, f.(now := Some(t)), symbols, trend, t, last, root)
         == Generate(st, g.(now := Some(t)), symbols, trend, t, last, root)
  {
    var d, e := Decider(st, f.(now := Some(t)), root), Decider(st, g.(now := Some(t)), root);
    forall i | 0 <= i < |symbols| ensures d(symbols[i]) == e(symbols[i]) {
      DecideSame(st, f, g, known, horizon, t, symbols[i], root);
    }
    ScanExtensional(st, d, e, symbols, t, last);
  }

  ghost predicate Signalled(signals: seq<Signal>, s: Symbol) {
    exists i :: 0 <= i < |signals| && signals[i].symbol == s
  }

  /** Every signal respects the cooldown relative to the previous one for its symbol and is
      remembered; nothing else is. */
  lemma {:induction false} ScanCooldown(st: Strategy, decide: Symbol -> Decision, symbols: seq<Symbol>, now: Time,
                                        last: map<Symbol, Time>)
    requires NoRepeats(symbols)
    ensures Respects(Scan(st, decide, symbols, now, last), st, symbols, now, last)
  {
    if symbols == [] {
    } else {
      var n := |symbols| - 1;
      ScanCooldown(st, decide, symbols[..n], now, last);
      var g, s := Scan(st, decide, symbols[..n], now, last), symbols[n];
      assert symbols == symbols[..n] + [s];
      assert s !in symbols[..n];
      RespectsMore(g, st, symbols[..n], s, now, last);
      if !g.raised && !CoolingDown(s, g.last, now, st.cooldown) && decide(s).Emit? {
        RespectsEmit(g, st, symbols[..n], s, decide(s).score, now, last);
      }
    }
  }

  ghost predicate Respects(g: Generated, st: Strategy, symbols: seq<Symbol>, now: Time, last: map<Symbol, Time>) {
    && (forall i :: 0 <= i < |g.signals| ==> SignalOk(st, g.signals[i], symbols, now, last))
    && (forall i, j :: 0 <= i < j < |g.signals| ==> g.signals[i].symbol != g.signals[j].symbol)
    && (forall s :: if Signalled(g.signals, s) then s in g.last && g.last[s] == now
                    else (s in g.last) == (s in last) && (s in last ==> g.last[s] == last[s]))
  }

  lemma RespectsMore(g: Generated, st: Strategy, symbols: seq<Symbol>, s: Symbol, now: Time, last: map<Symbol, Time>)
    requires Respects(g, st, symbols, now, last)
    ensures Respects(g, st, symbols + [s], now, last) && Respects(g.(raised := true), st, symbols + [s], now, last)
  {
    forall i | 0 <= i < |g.signals| ensures SignalOk(st, g.signals[i], symbols + [s], now, last) {
      assert SignalOk(st, g.signals[i], symbols, now, last);
    }
  }

  lemma RespectsEmit(g: Generated, st: Strategy, symbols: seq<Symbol>, s: Symbol, score: real, now: Time, last: map<Symbol, Time>)
    requires Respects(g, st, symbols, now, last) && s !in symbols
    requires !CoolingDown(s, g.last, now, st.cooldown)
    ensures Respects(Generated(g.signals + [MakeSignal(st, s, score)], g.last[s := now], false), st, symbols + [s], now, last)
  {
    var sig := MakeSignal(st, s, score);
    RespectsMore(g, st, symbols, s, now, last);
    NotSignalled(g, st, symbols, s, now, last);
    NewSignalOk(st, symbols, s, score, now, last, g.last);
    hide CoolingDown, SignalOk, MakeSignal;
    SignalledSnoc(g.signals, sig);
    assert sig.symbol == s by { MakeSignalSymbol(st, s, score); }
  }

  lemma MakeSignalSymbol(st: Strategy, s: Symbol, score: real)
    ensures MakeSignal(st, s, score).symbol == s
  {
  }

  lemma NotSignalled(g: Generated, st: Strategy, symbols: seq<Symbol>, s: Symbol, now: Time, last: map<Symbol, Time>)
    requires Respects(g, st, symbols, now, last) && s !in symbols
    ensures !Signalled(g.signals, s)
    ensures (s in g.last) == (s in last) && (s in last ==> g.last[s] == last[s])
  {
    forall i | 0 <= i < |g.signals| ensures g.signals[i].symbol != s {
      assert SignalOk(st, g.signals[i], symbols, now, last);
    }
  }

  lemma NewSignalOk(st: Strategy, symbols: seq<Symbol>, s: Symbol, score: real, now: Time,
                    last: map<Symbol, Time>, seen: map<Symbol, Time>)
    requires !CoolingDown(s, seen, now, st.cooldown)
    requires (s in seen) == (s in last) && (s in last ==> seen[s] == last[s])
    ensures SignalOk(st, MakeSignal(st, s, score), symbols + [s], now, last)
  {
    assert "sell"[0] != "buy"[0];
  }

  lemma SignalledSnoc(signals: seq<Signal>, sig: Signal)
    ensures forall x :: Signalled(signals + [sig], x) <==> Signalled(signals, x) || x == sig.symbol
  {
    var more := signals + [sig];
    assert more[|signals|] == sig;
    forall x | Signalled(signals, x) ensures Signalled(more, x) {
      var i :| 0 <= i < |signals| && signals[i].symbol == x;
      assert more[i].symbol == x;
    }
    forall x | Signalled(more, x) ensures Signalled(signals, x) || x == sig.symbol {
      var i :| 0 <= i < |more| && more[i].symbol == x;
      assert i < |signals| ==> signals[i].symbol == x;
    }
  }

  ghost predicate SignalOk(st: Strategy, sig: Signal, symbols: seq<Symbol>, now: Time, last: map<Symbol, Time>) {
    && sig.symbol in symbols
    && !CoolingDown(sig.symbol, last, now, st.cooldown)
    && sig.positionPct == st.PositionPct()
    && (sig.action == "sell" <==> st.IsShort())
  }

  class SignalGenerator {
    const strategy: Strategy
    const root: real -> real
    var lastEntry: map<Symbol, Time>

    constructor (strategy: Strategy, root: real -> real)
      ensures this.strategy == strategy && this.root == root && lastEntry == map[]
    {
      this.strategy := strategy;
      this.root := root;
      lastEntry := map[];
    }

    /** The closure returned by create_*_generator_v2. */
    method Run(now: Time, f: Feed, symbols: seq<Symbol>, trend: Trend) returns (signals: seq<Signal>, raised: bool)
      modifies this
      ensures Generated(signals, lastEntry, raised)
              == Generate(strategy, f, symbols, trend, now, old(lastEntry), root)
    {
      if strategy.Gated(trend) {
        return [], false;
      }
      signals, raised := Loop(now, Decider(strategy, f, root), symbols);
    }

    method Loop(now: Time, decide: Symbol -> Decision, symbols: seq<Symbol>) returns (signals: seq<Signal>, raised: bool)
      modifies this
      ensures Generated(signals, lastEntry, raised) == Scan(strategy, decide, symbols, now, old(lastEntry))
    {
      signals, raised := [], false;
      for i := 0 to |symbols|
        invariant !raised
        invariant Generated(signals, lastEntry, false) == Scan(strategy, decide, symbols[..i], now, old(lastEntry))
      {
        assert symbols[..i + 1][..i] == symbols[..i];
        var s := symbols[i];
        if !CoolingDown(s, lastEntry, now, strategy.cooldown) {
          match decide(s)
          case Skip =>
          case ZeroDivision =>
            RaiseStays(strategy, decide, symbols, i + 1, now, old(lastEntry));
            return signals, true;
          case Emit(score) =>
            lastEntry := lastEntry[s := now];
            signals := signals + [MakeSignal(strategy, s, score)];
        }
      }
      assert symbols[..|symbols|] == symbols;
    }
  }

  lemma {:induction false} RaiseStays(st: Strategy, decide: Symbol -> Decision, symbols: seq<Symbol>, k: nat, now: Time,
                                      last: map<Symbol, Time>)
    requires k <= |symbols| && Scan(st, decide, symbols[..k], now, last).raised
    ensures Scan(st, decide, symbols, now, last) == Scan(st, decide, symbols[..k], now, last)
  {
    if k == |symbols| {
      assert symbols[..k] == symbols;
    } else {
      var n := |symbols| - 1;
      assert symbols[..n][..k] == symbols[..k];
      RaiseStays(st, decide, symbols[..n], k, now, last);
    }
  }
}
