/** Which symbols a run signals at a timestamp, both ways and in order, from the rules and from the
    earlier signals alone. */
module SignalRuns {
  import opened PySeq
  import opened History
  import opened Signals
  import opened Backtest
  import opened BacktestLaws
  import opened Cooldown
  import opened Stakes

  // ---------------------------------------------------------------- one scan

  /** The symbol is off cooldown: at least so many minutes, in microseconds, since its last signal. */
  ghost predicate OffCooldown(s: Symbol, last: map<Symbol, Time>, now: Time, cooldown: real) {
    s in last ==> cooldown * 60000000.0 <= (now - last[s]) as real
  }

  lemma OffCooldownExactly(s: Symbol, last: map<Symbol, Time>, now: Time, cooldown: real)
    ensures OffCooldown(s, last, now, cooldown) <==> !CoolingDown(s, last, now, cooldown)
  {
  }

  ghost predicate Emits(st: Strategy, decide: Symbol -> Decision, s: Symbol, now: Time, last: map<Symbol, Time>) {
    OffCooldown(s, last, now, st.cooldown) && decide(s).Emit?
  }

  lemma EmitsExactly(st: Strategy, decide: Symbol -> Decision, s: Symbol, now: Time, last: map<Symbol, Time>)
    ensures Emits(st, decide, s, now, last) <==> !CoolingDown(s, last, now, st.cooldown) && decide(s).Emit?
  {
    OffCooldownExactly(s, last, now, st.cooldown);
    hide OffCooldown, CoolingDown;
  }

  ghost function Emitter(st: Strategy, decide: Symbol -> Decision, now: Time, last: map<Symbol, Time>): Symbol -> bool {
    s => Emits(st, decide, s, now, last)
  }

  /** One signal per place, for that symbol and with the score its rule decided. */
  ghost predicate SignalsOfPlaces(sigs: seq<Signal>, decide: Symbol -> Decision, symbols: seq<Symbol>, at: seq<nat>) {
    && |sigs| == |at|
    && forall i :: 0 <= i < |at| ==>
         at[i] < |symbols| && decide(symbols[at[i]]) == Emit(sigs[i].score) && sigs[i].symbol == symbols[at[i]]
  }

  /** A scan that does not raise signals exactly the symbols that are off cooldown and whose rule emits, in
      the order asked. */
  lemma {:induction false} ScanExactly(st: Strategy, decide: Symbol -> Decision, symbols: seq<Symbol>, now: Time,
                                       last: map<Symbol, Time>) returns (at: seq<nat>)
    requires NoRepeats(symbols) && !Scan(st, decide, symbols, now, last).raised
    ensures AllPlaces(symbols, Emitter(st, decide, now, last), at)
    ensures SignalsOfPlaces(Scan(st, decide, symbols, now, last).signals, decide, symbols, at)
  {
    hide CoolingDown, OffCooldown, MakeSignal, Emits;
    if symbols == [] {
      at := [];
    } else {
      var n := |symbols| - 1;
      var before := ScanExactly(st, decide, symbols[..n], now, last);
      SameCooldown(st, decide, symbols, now, last);
      var g, s := Scan(st, decide, symbols[..n], now, last), symbols[n];
      at := if !CoolingDown(s, last, now, st.cooldown) && decide(s).Emit? then before + [n] else before;
      EmitsExactly(st, decide, s, now, last);
      AllPlacesSnoc(symbols, Emitter(st, decide, now, last), before);
      MoreSignals(st, g.signals, decide, symbols, before);
    }
  }

  /** The last symbol's cooldown is not affected by the symbols before it. */
  lemma SameCooldown(st: Strategy, decide: Symbol -> Decision, symbols: seq<Symbol>, now: Time, last: map<Symbol, Time>)
    requires NoRepeats(symbols) && symbols != []
    ensures var n := |symbols| - 1;
            CoolingDown(symbols[n], Scan(st, decide, symbols[..n], now, last).last, now, st.cooldown)
              == CoolingDown(symbols[n], last, now, st.cooldown)
  {
    hide Scan, Respects;
    var n := |symbols| - 1;
    ScanCooldown(st, decide, symbols[..n], now, last);
    assert symbols[n] !in symbols[..n];
    NotSignalled(Scan(st, decide, symbols[..n], now, last), st, symbols[..n], symbols[n], now, last);
  }

  lemma MoreSignals(st: Strategy, sigs: seq<Signal>, decide: Symbol -> Decision, symbols: seq<Symbol>, before: seq<nat>)
    requires symbols != [] && SignalsOfPlaces(sigs, decide, symbols[..|symbols| - 1], before)
    ensures SignalsOfPlaces(sigs, decide, symbols, before)
    ensures var s := symbols[|symbols| - 1];
            decide(s).Emit? ==>
              SignalsOfPlaces(sigs + [MakeSignal(st, s, decide(s).score)], decide, symbols, before + [|symbols| - 1])
  {
    var n := |symbols| - 1;
    forall i | 0 <= i < |before|
      ensures before[i] < |symbols| && decide(symbols[before[i]]) == Emit(sigs[i].score) && sigs[i].symbol == symbols[before[i]]
    {
      assert symbols[..n][before[i]] == symbols[before[i]];
    }
  }

  /** A scan raises exactly when some symbol off cooldown has a zero price where its rule divides. */
  lemma {:induction false} ScanRaises(st: Strategy, decide: Symbol -> Decision, symbols: seq<Symbol>, now: Time, last: map<Symbol, Time>)
    requires NoRepeats(symbols)
    ensures Scan(st, decide, symbols, now, last).raised <==>
              exists x :: 0 <= x < |symbols| && OffCooldown(symbols[x], last, now, st.cooldown) && decide(symbols[x]).ZeroDivision?
  {
    hide CoolingDown, OffCooldown, MakeSignal;
    if symbols == [] {
    } else {
      var n := |symbols| - 1;
      var before := symbols[..n];
      ScanRaises(st, decide, before, now, last);
      SameCooldown(st, decide, symbols, now, last);
      OffCooldownExactly(symbols[n], last, now, st.cooldown);
      if x :| 0 <= x < |before| && OffCooldown(before[x], last, now, st.cooldown) && decide(before[x]).ZeroDivision? {
        assert symbols[x] == before[x];
      }
      if x :| 0 <= x < |symbols| && OffCooldown(symbols[x], last, now, st.cooldown) && decide(symbols[x]).ZeroDivision? {
        assert x < n ==> before[x] == symbols[x];
      }
    }
  }

  // ---------------------------------------------------------------- the symbols asked

  ghost function Free(ps: seq<Position>): Series -> bool {
    (s: Series) => IndexOf(ps, s.symbol) == -1
  }

  ghost predicate SymbolsAt(symbols: seq<Symbol>, series: seq<Series>, at: seq<nat>) {
    |symbols| == |at| && forall i :: 0 <= i < |at| ==> at[i] < |series| && symbols[i] == series[at[i]].symbol
  }

  lemma {:induction false} ActiveExactly(series: seq<Series>, ps: seq<Position>) returns (at: seq<nat>)
    ensures AllPlaces(series, Free(ps), at) && SymbolsAt(ActiveSymbols(series, ps), series, at)
  {
    hide IndexOf;
    if series == [] {
      at := [];
    } else {
      var n := |series| - 1;
      var before := ActiveExactly(series[..n], ps);
      ActiveStep(series, ps);
      at := if IndexOf(ps, series[n].symbol) >= 0 then before else before + [n];
      AllPlacesSnoc(series, Free(ps), before);
      MoreSymbols(ActiveSymbols(series[..n], ps), series, before);
    }
  }

  lemma MoreSymbols(symbols: seq<Symbol>, series: seq<Series>, before: seq<nat>)
    requires series != [] && SymbolsAt(symbols, series[..|series| - 1], before)
    ensures SymbolsAt(symbols, series, before)
    ensures SymbolsAt(symbols + [series[|series| - 1].symbol], series, before + [|series| - 1])
  {
    var n := |series| - 1;
    forall i | 0 <= i < |before| ensures before[i] < |series| && symbols[i] == series[before[i]].symbol {
      assert series[..n][before[i]] == series[before[i]];
    }
  }

  // ---------------------------------------------------------------- the memory

  /** e is the time of the latest signal for s before timestamp k. */
  ghost predicate LatestSignal(cfg: Config, k: nat, s: Symbol, e: Time)
    requires k <= |cfg.times|
  {
    && (exists i :: 0 <= i < k && SignalAt(cfg, i, s) && cfg.times[i] == e)
    && (forall i :: 0 <= i < k && SignalAt(cfg, i, s) ==> cfg.times[i] <= e)
  }

  ghost predicate NeverSignalled(cfg: Config, k: nat, s: Symbol)
    requires k <= |cfg.times|
  {
    forall i :: 0 <= i < k ==> !SignalAt(cfg, i, s)
  }

  ghost predicate SameMemory(a: map<Symbol, Time>, b: map<Symbol, Time>, s: Symbol) {
    (s in a <==> s in b) && (s in a ==> a[s] == b[s])
  }

  /** The memory holds the time of the latest signal for each symbol signalled so far, and for any other
      what the run started with. */
  lemma {:induction false} MemoryExactly(cfg: Config, k: nat, s: Symbol)
    requires k <= |cfg.times| && !RunTo(cfg, k).raised && Ready(cfg)
    ensures var last := RunTo(cfg, k).last;
            if NeverSignalled(cfg, k, s) then SameMemory(last, cfg.last0, s)
            else s in last && LatestSignal(cfg, k, s, last[s])
  {
    hide RunTo, SignalAt, Ready;
    RunStart(cfg);
    if k == 0 {
    } else {
      RaisedStays(cfg, k - 1);
      MemoryExactly(cfg, k - 1, s);
      MemoryStep(cfg, k - 1, s);
      NothingForgotten(cfg, k - 1, s);
      forall i | 0 <= i < k ensures cfg.times[i] <= cfg.times[k - 1] {
        TimesIncrease(cfg, i, k - 1);
      }
    }
  }

  lemma NothingForgotten(cfg: Config, k: nat, s: Symbol)
    requires k < |cfg.times| && !RunTo(cfg, k + 1).raised && Ready(cfg)
    ensures !SignalAt(cfg, k, s) ==> SameMemory(RunTo(cfg, k + 1).last, RunTo(cfg, k).last, s)
  {
    hide RunTo, SignalsOf, Signalled, SignalOk, ActiveSymbols;
    StepShape(cfg, k);
    SignalsRespect(cfg, k);
  }

  /** s was signalled less than the cooldown, in microseconds, before timestamp k, in this run or, if not in
      this one, before it. */
  ghost predicate Recent(cfg: Config, k: nat, s: Symbol)
    requires k < |cfg.times|
  {
    var t, span := cfg.times[k], cfg.strategy.cooldown * 60000000.0;
    || (exists i :: 0 <= i < k && SignalAt(cfg, i, s) && (t - cfg.times[i]) as real < span)
    || (NeverSignalled(cfg, k, s) && s in cfg.last0 && (t - cfg.last0[s]) as real < span)
  }

  lemma RecentExactly(cfg: Config, k: nat, s: Symbol)
    requires k < |cfg.times| && !RunTo(cfg, k).raised && Ready(cfg)
    ensures OffCooldown(s, RunTo(cfg, k).last, cfg.times[k], cfg.strategy.cooldown) <==> !Recent(cfg, k, s)
  {
    hide RunTo, SignalAt, Ready;
    MemoryExactly(cfg, k, s);
    if !NeverSignalled(cfg, k, s) {
      var i :| 0 <= i < k && SignalAt(cfg, i, s) && cfg.times[i] == RunTo(cfg, k).last[s];
    }
  }

  // ---------------------------------------------------------------- the signals of a run

  ghost predicate Listed(series: seq<Series>, s: Symbol) {
    exists x :: 0 <= x < |series| && series[x].symbol == s
  }

  /** What a strategy trades in: PULLBACK in a rising market only, ATTACK in any but a falling one. */
  ghost predicate InSeason(st: Strategy, trend: Trend) {
    && (st.Pullback? ==> trend == Bullish)
    && (st.Attack? ==> trend == Sideways || trend == Bullish)
  }

  /** What makes a run signal s at timestamp k: it is loaded, has no position left after the exits, the market
      is right, it was not signalled within the cooldown, and its rule emits on what is visible at that time. */
  ghost predicate Due(cfg: Config, k: nat, s: Symbol)
    requires k < |cfg.times|
  {
    && Listed(cfg.series, s) && IndexOf(AfterSweep(cfg, k).positions, s) == -1
    && InSeason(cfg.strategy, TrendAt(cfg, cfg.times[k], RunTo(cfg, k).trend)) && !Recent(cfg, k, s)
    && Decider(cfg.strategy, cfg.feed.(now := Some(cfg.times[k])), cfg.root)(s).Emit?
  }

  lemma SeasonExactly(st: Strategy, trend: Trend)
    ensures InSeason(st, trend) <==> !st.Gated(trend)
  {
  }

  /** A run signals exactly the symbols that are due. */
  lemma SignalsExactly(cfg: Config, k: nat, s: Symbol)
    requires k < |cfg.times| && !RunTo(cfg, k + 1).raised && Ready(cfg)
    ensures SignalAt(cfg, k, s) <==> Due(cfg, k, s)
  {
    hide *;
    var t, r := cfg.times[k], RunTo(cfg, k);
    var decide, symbols := Decider(cfg.strategy, cfg.feed.(now := Some(t)), cfg.root), ActiveSymbols(cfg.series, AfterSweep(cfg, k).positions);
    StepShape(cfg, k);
    SignalsShape(cfg, k);
    NoRaise(cfg, k);
    SeasonExactly(cfg.strategy, TrendAt(cfg, t, r.trend));
    RecentExactly(cfg, k, s);
    AskedExactly(cfg.series, AfterSweep(cfg, k).positions, s);
    if cfg.strategy.Gated(TrendAt(cfg, t, r.trend)) {
      NoSignal(s);
    } else {
      ActiveDistinct(cfg.series, AfterSweep(cfg, k).positions) by { ReadyDistinct(cfg); }
      var at := ScanExactly(cfg.strategy, decide, symbols, t, r.last);
      ScanSignals(cfg.strategy, decide, symbols, t, r.last, at, SignalsOf(cfg, k).signals, s);
    }
    DueShape(cfg, k, s, decide, symbols);
  }

  lemma ReadyDistinct(cfg: Config)
    requires Ready(cfg)
    ensures DistinctSeries(cfg.series)
  {
  }

  lemma NoSignal(s: Symbol)
    ensures !Signalled([], s)
  {
  }

  lemma NoRaise(cfg: Config, k: nat)
    requires k < |cfg.times| && !RunTo(cfg, k + 1).raised
    ensures !SignalsOf(cfg, k).raised
  {
    hide SignalsAt, TrendAt, SweepRaises, SweepBook, ExitJudge, Entered;
    assert RunTo(cfg, k + 1) == Step(cfg, cfg.times[k], RunTo(cfg, k));
  }

  lemma DueShape(cfg: Config, k: nat, s: Symbol, decide: Symbol -> Decision, symbols: seq<Symbol>)
    requires k < |cfg.times| && decide == Decider(cfg.strategy, cfg.feed.(now := Some(cfg.times[k])), cfg.root)
    requires s in symbols <==> Listed(cfg.series, s) && IndexOf(AfterSweep(cfg, k).positions, s) == -1
    requires OffCooldown(s, RunTo(cfg, k).last, cfg.times[k], cfg.strategy.cooldown) <==> !Recent(cfg, k, s)
    ensures Due(cfg, k, s) <==> s in symbols && InSeason(cfg.strategy, TrendAt(cfg, cfg.times[k], RunTo(cfg, k).trend))
                                && Emits(cfg.strategy, decide, s, cfg.times[k], RunTo(cfg, k).last)
    ensures SignalAt(cfg, k, s) <==> Signalled(SignalsOf(cfg, k).signals, s)
  {
    hide AfterSweep, RunTo, TrendAt, InSeason, Recent, OffCooldown, Decider, IndexOf, Listed, SignalsOf, Signalled;
  }

  lemma AskedExactly(series: seq<Series>, ps: seq<Position>, s: Symbol)
    ensures s in ActiveSymbols(series, ps) <==> Listed(series, s) && IndexOf(ps, s) == -1
  {
    hide ActiveSymbols, IndexOf;
    var at := ActiveExactly(series, ps);
    var symbols := ActiveSymbols(series, ps);
    if s in symbols {
      var i :| 0 <= i < |symbols| && symbols[i] == s;
      assert series[at[i]].symbol == s;
    }
    if Listed(series, s) && IndexOf(ps, s) == -1 {
      var x :| 0 <= x < |series| && series[x].symbol == s;
      assert x in at;
      var i :| 0 <= i < |at| && at[i] == x;
      assert symbols[i] == s;
    }
  }

  lemma ScanSignals(st: Strategy, decide: Symbol -> Decision, symbols: seq<Symbol>, now: Time, last: map<Symbol, Time>, at: seq<nat>,
                    sigs: seq<Signal>, s: Symbol)
    requires AllPlaces(symbols, Emitter(st, decide, now, last), at) && SignalsOfPlaces(sigs, decide, symbols, at)
    ensures Signalled(sigs, s) <==> s in symbols && Emits(st, decide, s, now, last)
  {
    hide Emits;
    if Signalled(sigs, s) {
      var i :| 0 <= i < |sigs| && sigs[i].symbol == s;
      assert symbols[at[i]] == s;
    }
    if s in symbols && Emits(st, decide, s, now, last) {
      var x :| 0 <= x < |symbols| && symbols[x] == s;
      assert x in at;
      var i :| 0 <= i < |at| && at[i] == x;
      assert sigs[i].symbol == s;
    }
  }

  /** Place x of the loaded series is that of signal i. */
  ghost predicate SignalPlace(cfg: Config, k: nat, i: nat, x: int)
    requires k < |cfg.times|
  {
    0 <= x < |cfg.series| && i < |SignalsOf(cfg, k).signals| && cfg.series[x].symbol == SignalsOf(cfg, k).signals[i].symbol
  }

  /** A timestamp's signals come in loading order, so the first five are those of the symbols loaded first. */
  lemma SignalsInOrder(cfg: Config, k: nat, i: nat, j: nat, x: nat, y: nat)
    requires k < |cfg.times| && !RunTo(cfg, k + 1).raised && Ready(cfg)
    requires i < j && SignalPlace(cfg, k, i, x) && SignalPlace(cfg, k, j, y)
    ensures x < y
  {
    hide *;
    var t, r, ps := cfg.times[k], RunTo(cfg, k), AfterSweep(cfg, k).positions;
    var decide, symbols := Decider(cfg.strategy, cfg.feed.(now := Some(t)), cfg.root), ActiveSymbols(cfg.series, ps);
    SignalsShape(cfg, k);
    NoRaise(cfg, k);
    PlaceSignals(cfg, k, i, x);
    PlaceSignals(cfg, k, j, y);
    ReadyDistinct(cfg);
    ActiveDistinct(cfg.series, ps);
    var at := ScanExactly(cfg.strategy, decide, symbols, t, r.last);
    var free := ActiveExactly(cfg.series, ps);
    OrderedPlaces(cfg.strategy, decide, symbols, t, r.last, at, cfg.series, ps, free, SignalsOf(cfg, k).signals, i, j, x, y);
  }

  lemma PlaceSignals(cfg: Config, k: nat, i: nat, x: int)
    requires k < |cfg.times| && SignalPlace(cfg, k, i, x)
    ensures i < |SignalsOf(cfg, k).signals| && 0 <= x < |cfg.series|
    ensures cfg.series[x].symbol == SignalsOf(cfg, k).signals[i].symbol
  {
    hide SignalsOf;
  }

  lemma OrderedPlaces(st: Strategy, decide: Symbol -> Decision, symbols: seq<Symbol>, now: Time, last: map<Symbol, Time>, at: seq<nat>,
                      series: seq<Series>, ps: seq<Position>, free: seq<nat>, sigs: seq<Signal>, i: nat, j: nat, x: nat, y: nat)
    requires AllPlaces(symbols, Emitter(st, decide, now, last), at) && SignalsOfPlaces(sigs, decide, symbols, at)
    requires DistinctSeries(series) && AllPlaces(series, Free(ps), free) && SymbolsAt(symbols, series, free)
    requires i < j < |sigs| && x < |series| && y < |series|
    requires series[x].symbol == sigs[i].symbol && series[y].symbol == sigs[j].symbol
    ensures x < y
  {
    hide Emits, IndexOf;
    assert series[free[at[i]]].symbol == sigs[i].symbol && series[free[at[j]]].symbol == sigs[j].symbol;
    SamePlace(series, x, free[at[i]]);
    SamePlace(series, y, free[at[j]]);
  }

  lemma SamePlace(series: seq<Series>, x: nat, y: nat)
    requires DistinctSeries(series) && x < |series| && y < |series| && series[x].symbol == series[y].symbol
    ensures x == y
  {
  }
}
