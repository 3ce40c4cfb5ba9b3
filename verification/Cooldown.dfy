/** The per-symbol cooldown over whole runs: for signals, and for the entries of trades. */
module Cooldown {
  import opened PySeq
  import opened History
  import opened Signals
  import opened TimeOrder
  import opened Backtest
  import opened BacktestLaws

  lemma {:induction false} ActiveDistinct(series: seq<Series>, ps: seq<Position>)
    requires DistinctSeries(series)
    ensures NoRepeats(ActiveSymbols(series, ps))
    ensures forall i :: 0 <= i < |ActiveSymbols(series, ps)| ==>
              IndexOf(ps, ActiveSymbols(series, ps)[i]) == -1
              && exists j :: 0 <= j < |series| && series[j].symbol == ActiveSymbols(series, ps)[i]
  {
    hide IndexOf;
    if series == [] {
    } else {
      var n := |series| - 1;
      ActiveDistinct(series[..n], ps);
      ActiveStep(series, ps);
      hide ActiveSymbols;
      var before, a := series[..n], ActiveSymbols(series[..n], ps);
      forall i | 0 <= i < |a|
        ensures a[i] != series[n].symbol && exists j :: 0 <= j < |series| && series[j].symbol == a[i]
      {
        var j :| 0 <= j < |before| && before[j].symbol == a[i];
        assert series[j].symbol == a[i];
      }
    }
  }

  lemma ActiveStep(series: seq<Series>, ps: seq<Position>)
    requires series != []
    ensures var a, s := ActiveSymbols(series[..|series| - 1], ps), series[|series| - 1].symbol;
            ActiveSymbols(series, ps) == if IndexOf(ps, s) >= 0 then a else a + [s]
  {
  }

  /** What one timestamp's generator call does to its memory, and the cooldown its signals respect. */
  lemma SignalsRespect(cfg: Config, k: nat)
    requires k < |cfg.times| && Ready(cfg)
    ensures Respects(SignalsOf(cfg, k), cfg.strategy, ActiveSymbols(cfg.series, AfterSweep(cfg, k).positions),
                     cfg.times[k], RunTo(cfg, k).last)
  {
    var t, s := cfg.times[k], RunTo(cfg, k);
    var symbols := ActiveSymbols(cfg.series, AfterSweep(cfg, k).positions);
    ActiveDistinct(cfg.series, AfterSweep(cfg, k).positions);
    ScanCooldown(cfg.strategy, Decider(cfg.strategy, cfg.feed.(now := Some(t)), cfg.root), symbols, t, s.last);
  }

  ghost predicate SignalAt(cfg: Config, k: nat, s: Symbol)
    requires k < |cfg.times|
  {
    Signalled(SignalsOf(cfg, k).signals, s)
  }

  /** A signal is remembered: from then on the memory for its symbol is never older. */
  lemma {:induction false} Remembered(cfg: Config, i: nat, k: nat, s: Symbol)
    requires i < k <= |cfg.times| && !RunTo(cfg, k).raised && Ready(cfg) && SignalAt(cfg, i, s)
    ensures s in RunTo(cfg, k).last && RunTo(cfg, k).last[s] >= cfg.times[i]
    decreases k
  {
    hide RunTo, SignalsOf;
    MemoryStep(cfg, k - 1, s);
    TimesIncrease(cfg, i, k - 1);
    if i < k - 1 {
      Remembered(cfg, i, k - 1, s);
    }
  }

  lemma MemoryStep(cfg: Config, k: nat, s: Symbol)
    requires k < |cfg.times| && !RunTo(cfg, k + 1).raised && Ready(cfg)
    ensures !RunTo(cfg, k).raised
    ensures var before, after := RunTo(cfg, k).last, RunTo(cfg, k + 1).last;
            if SignalAt(cfg, k, s) then s in after && after[s] == cfg.times[k]
            else s in before ==> s in after && after[s] == before[s]
  {
    StepShape(cfg, k);
    SignalsRespect(cfg, k);
    RespectsSymbol(SignalsOf(cfg, k), cfg.strategy, ActiveSymbols(cfg.series, AfterSweep(cfg, k).positions),
                   cfg.times[k], RunTo(cfg, k).last, s);
  }

  lemma RespectsSymbol(g: Generated, st: Strategy, symbols: seq<Symbol>, now: Time, last: map<Symbol, Time>, s: Symbol)
    requires Respects(g, st, symbols, now, last)
    ensures Signalled(g.signals, s) ==> s in g.last && g.last[s] == now && !CoolingDown(s, last, now, st.cooldown)
    ensures !Signalled(g.signals, s) && s in last ==> s in g.last && g.last[s] == last[s]
  {
    if Signalled(g.signals, s) {
      var i :| 0 <= i < |g.signals| && g.signals[i].symbol == s;
      assert SignalOk(st, g.signals[i], symbols, now, last);
    }
  }

  lemma MinutesMonotone(a: Time, b: Time, c: Time)
    requires a <= b
    ensures Minutes(a, c) >= Minutes(b, c)
  {
  }

  /** Any two signals of a run for one symbol are at least the cooldown apart. */
  lemma SignalsSpaced(cfg: Config, i: nat, k: nat, s: Symbol)
    requires i < k < |cfg.times| && !RunTo(cfg, k).raised && Ready(cfg)
    requires SignalAt(cfg, i, s) && SignalAt(cfg, k, s)
    ensures Minutes(cfg.times[i], cfg.times[k]) >= cfg.strategy.cooldown
  {
    Remembered(cfg, i, k, s);
    SignalsRespect(cfg, k);
    RespectsSymbol(SignalsOf(cfg, k), cfg.strategy, ActiveSymbols(cfg.series, AfterSweep(cfg, k).positions),
                   cfg.times[k], RunTo(cfg, k).last, s);
    MinutesMonotone(cfg.times[i], RunTo(cfg, k).last[s], cfg.times[k]);
  }

  // ---------------------------------------------------------------- entries

  function OpenEntries(ps: seq<Position>, s: Symbol): seq<Time> {
    if ps == [] then []
    else
      var p := ps[|ps| - 1];
      OpenEntries(ps[..|ps| - 1], s) + if p.symbol == s then [p.entryTime] else []
  }

  function ClosedEntries(ts: seq<Trade>, s: Symbol): seq<Time> {
    if ts == [] then []
    else
      var t := ts[|ts| - 1];
      ClosedEntries(ts[..|ts| - 1], s) + if t.symbol == s then [t.entryTime] else []
  }

  /** All entry times of a symbol: those of its trades in the order they were closed, then its open position's. */
  function Entries(b: Book, s: Symbol): seq<Time> {
    ClosedEntries(b.trades, s) + OpenEntries(b.positions, s)
  }

  lemma {:induction false} ClosedEntriesConcat(a: seq<Trade>, b: seq<Trade>, s: Symbol)
    ensures ClosedEntries(a + b, s) == ClosedEntries(a, s) + ClosedEntries(b, s)
  {
    if b == [] {
      assert a + b == a;
    } else {
      var n := |b| - 1;
      ClosedEntriesConcat(a, b[..n], s);
      assert (a + b)[..|a + b| - 1] == a + b[..n];
    }
  }

  lemma {:induction false} OpenEntriesConcat(a: seq<Position>, b: seq<Position>, s: Symbol)
    ensures OpenEntries(a + b, s) == OpenEntries(a, s) + OpenEntries(b, s)
  {
    if b == [] {
      assert a + b == a;
    } else {
      var n := |b| - 1;
      OpenEntriesConcat(a, b[..n], s);
      assert (a + b)[..|a + b| - 1] == a + b[..n];
    }
  }

  lemma {:induction false} OpenEntriesNone(ps: seq<Position>, s: Symbol)
    requires forall i :: 0 <= i < |ps| ==> ps[i].symbol != s
    ensures OpenEntries(ps, s) == []
  {
    if ps == [] {
    } else {
      OpenEntriesNone(ps[..|ps| - 1], s);
    }
  }

  /** A sweep moves entries from open to closed without changing their order. */
  lemma {:induction false} SweepEntries(ps: seq<Position>, judge: Position -> Verdict, s: Symbol)
    requires Distinct(ps) && FaithfulOn(ps, judge) && !SweepRaises(ps, judge)
    ensures ClosedEntries(Sweep(ps, judge).closed, s) + OpenEntries(Sweep(ps, judge).kept, s) == OpenEntries(ps, s)
  {
    hide Sweep, Faithful, Extends, OpenEntries, ClosedEntries;
    if ps == [] {
      NothingSwept(judge);
      NoEntries(s);
    } else {
      var n := |ps| - 1;
      NoRaisePrefix(ps, n, judge);
      SweepEntries(ps[..n], judge, s);
      assert ps == ps[..n] + [ps[n]];
      SweepExtends(ps[..n], ps[n], judge);
      OpenEntriesConcat(ps[..n], [ps[n]], s);
      if ps[n].symbol == s {
        OpenEntriesNone(ps[..n], s);
        assert OpenEntries(Sweep(ps[..n], judge).kept, s) == [];
      }
      assert Faithful(ps[n], judge(ps[n]));
      ExtendsEntries(Sweep(ps[..n], judge), ps[n], judge(ps[n]), Sweep(ps, judge), s);
    }
  }

  lemma NoEntries(s: Symbol)
    ensures ClosedEntries([], s) == [] && OpenEntries([], s) == []
  {
  }

  lemma OneEntry(p: Position, t: Trade, s: Symbol)
    ensures OpenEntries([p], s) == if p.symbol == s then [p.entryTime] else []
    ensures ClosedEntries([t], s) == if t.symbol == s then [t.entryTime] else []
  {
  }

  /** If the position is the symbol's only one, its entry stays last whichever list it goes to. */
  lemma ExtendsEntries(r: Swept, p: Position, v: Verdict, next: Swept, s: Symbol)
    requires Extends(r, v, next) && Faithful(p, v) && !v.Raise?
    requires p.symbol == s ==> OpenEntries(r.kept, s) == []
    ensures ClosedEntries(next.closed, s) + OpenEntries(next.kept, s)
         == ClosedEntries(r.closed, s) + OpenEntries(r.kept, s) + OpenEntries([p], s)
  {
    hide OpenEntries, ClosedEntries;
    match v
    case Keep(q) =>
      OpenEntriesConcat(r.kept, [q], s);
      SameEntry(p, q, s);
    case Exit(t, _) =>
      ClosedEntriesConcat(r.closed, [t], s);
      OneEntry(p, t, s);
  }

  lemma SameEntry(p: Position, q: Position, s: Symbol)
    requires p.symbol == q.symbol && p.entryTime == q.entryTime
    ensures OpenEntries([p], s) == OpenEntries([q], s)
  {
  }

  lemma {:induction false} OpenEntriesFew(ps: seq<Position>, s: Symbol, now: Time)
    requires Distinct(ps) && forall i :: 0 <= i < |ps| ==> ps[i].entryTime == now
    ensures OpenEntries(ps, s) == [] || (OpenEntries(ps, s) == [now] && exists i :: 0 <= i < |ps| && ps[i].symbol == s)
  {
    if ps == [] {
    } else {
      var n := |ps| - 1;
      if ps[n].symbol == s {
        OpenEntriesNone(ps[..n], s);
      } else {
        OpenEntriesFew(ps[..n], s, now);
        if OpenEntries(ps[..n], s) != [] {
          var i :| 0 <= i < n && ps[..n][i].symbol == s;
          assert ps[i].symbol == s;
        }
      }
    }
  }

  lemma EntriesAppend(b: Book, sigs: seq<Signal>, prices: map<Symbol, real>, now: Time, s: Symbol)
    requires Distinct(b.positions)
    ensures var c := OpenAll(b, sigs, prices, now);
            Entries(c, s) == Entries(b, s) || (Entries(c, s) == Entries(b, s) + [now] && Signalled(sigs, s))
  {
    hide OpenAll, Entries, Equity, OpenEntries;
    OpenAllAppends(b, sigs, prices, now);
    OpenAllConserves(b, sigs, prices, now);
    var c := OpenAll(b, sigs, prices, now);
    var newer := c.positions[|b.positions|..];
    NewerFacts(b.positions, c.positions, sigs, prices, now);
    forall i | 0 <= i < |newer| ensures Signalled(sigs, newer[i].symbol) {
      assert OpenedByAny(c.positions[|b.positions| + i], sigs, prices, now);
    }
    OpenEntriesFew(newer, s, now);
    EntriesConcat(b, c, newer, s);
  }

  lemma EntriesConcat(b: Book, c: Book, newer: seq<Position>, s: Symbol)
    requires c.positions == b.positions + newer && c.trades == b.trades
    ensures Entries(c, s) == Entries(b, s) + OpenEntries(newer, s)
  {
    OpenEntriesConcat(b.positions, newer, s);
  }

  lemma SweepBookEntries(b: Book, judge: Position -> Verdict, s: Symbol)
    requires Distinct(b.positions) && FaithfulOn(b.positions, judge) && !SweepRaises(b.positions, judge)
    ensures Entries(SweepBook(b, judge), s) == Entries(b, s)
  {
    hide Sweep, FaithfulOn, SweepRaises, OpenEntries, ClosedEntries, Distinct;
    SweepEntries(b.positions, judge, s);
    ClosedEntriesConcat(b.trades, Sweep(b.positions, judge).closed, s);
  }

  lemma AfterSweepEntries(cfg: Config, k: nat, s: Symbol)
    requires k < |cfg.times| && !RunTo(cfg, k + 1).raised
    ensures Entries(AfterSweep(cfg, k), s) == Entries(RunTo(cfg, k).book, s)
  {
    StepShape(cfg, k);
    RunDistinct(cfg, k);
    var t, b := cfg.times[k], RunTo(cfg, k).book;
    JudgerFaithful(b.positions, PricesAt(cfg.series, t), Exits(cfg.params), t);
    SweepBookEntries(b, ExitJudge(cfg, t), s);
  }

  ghost predicate EntryAt(cfg: Config, k: nat, s: Symbol, e: Time)
    requires k <= |cfg.times|
  {
    exists i :: 0 <= i < k && cfg.times[i] == e && SignalAt(cfg, i, s)
  }

  /** The entries of a symbol happen at signals for it, each later than the one before. */
  lemma {:induction false} EntriesFollowSignals(cfg: Config, k: nat, s: Symbol)
    requires k <= |cfg.times| && !RunTo(cfg, k).raised && Ready(cfg)
    ensures Follows(cfg, k, s, Entries(RunTo(cfg, k).book, s))
  {
    hide RunTo, SignalsOf;
    RunStart(cfg);
    if k == 0 {
    } else {
      RaisedStays(cfg, k - 1);
      EntriesFollowSignals(cfg, k - 1, s);
      var e := Entries(RunTo(cfg, k - 1).book, s);
      EntriesGrow(cfg, k - 1, s, e);
      StepEntries(cfg, k - 1, s);
    }
  }

  ghost predicate Follows(cfg: Config, k: nat, s: Symbol, e: seq<Time>)
    requires k <= |cfg.times|
  {
    && (forall x :: 0 <= x < |e| ==> EntryAt(cfg, k, s, e[x]))
    && (forall x, y :: 0 <= x < y < |e| ==> e[x] < e[y])
  }

  /** One timestamp adds at most one entry per symbol, and only on a signal. */
  lemma StepEntries(cfg: Config, k: nat, s: Symbol)
    requires k < |cfg.times| && !RunTo(cfg, k + 1).raised
    ensures var e, e' := Entries(RunTo(cfg, k).book, s), Entries(RunTo(cfg, k + 1).book, s);
            e' == e || (e' == e + [cfg.times[k]] && SignalAt(cfg, k, s))
  {
    StepShape(cfg, k);
    AfterSweepEntries(cfg, k, s);
    RunDistinct(cfg, k);
    AfterSweepDistinct(cfg, k);
    var t, sigs := cfg.times[k], SignalsOf(cfg, k).signals;
    EntriesAppend(AfterSweep(cfg, k), FirstFive(sigs), PricesAt(cfg.series, t), t, s);
    FirstFiveSignalled(sigs, s);
  }

  lemma FirstFiveSignalled(sigs: seq<Signal>, s: Symbol)
    ensures Signalled(FirstFive(sigs), s) ==> Signalled(sigs, s)
  {
    if Signalled(FirstFive(sigs), s) {
      var i :| 0 <= i < |FirstFive(sigs)| && FirstFive(sigs)[i].symbol == s;
      assert sigs[i].symbol == s;
    }
  }

  lemma EntriesGrow(cfg: Config, k: nat, s: Symbol, e: seq<Time>)
    requires k < |cfg.times| && Ready(cfg) && Follows(cfg, k, s, e)
    ensures Follows(cfg, k + 1, s, e)
    ensures SignalAt(cfg, k, s) ==> Follows(cfg, k + 1, s, e + [cfg.times[k]])
  {
    hide Ready, SignalAt;
    forall x | 0 <= x < |e| ensures EntryAt(cfg, k + 1, s, e[x]) && e[x] < cfg.times[k] {
      assert EntryAt(cfg, k, s, e[x]);
      var i :| 0 <= i < k && cfg.times[i] == e[x] && SignalAt(cfg, i, s);
      TimesIncrease(cfg, i, k);
      assert SignalAt(cfg, i, s) && i < k + 1;
    }
    if SignalAt(cfg, k, s) {
      assert EntryAt(cfg, k + 1, s, cfg.times[k]);
    }
  }

  /** In the trade list of any run, and against the open position, any two entries into one symbol
      are at least the cooldown apart. */
  lemma EntriesSpaced(cfg: Config, k: nat, s: Symbol, x: nat, y: nat)
    requires k <= |cfg.times| && !RunTo(cfg, k).raised && Ready(cfg)
    requires x < y < |Entries(RunTo(cfg, k).book, s)|
    ensures var e := Entries(RunTo(cfg, k).book, s);
            e[x] < e[y] && Minutes(e[x], e[y]) >= cfg.strategy.cooldown
  {
    hide RunTo, SignalAt, Entries, Ready;
    EntriesFollowSignals(cfg, k, s);
    var e := Entries(RunTo(cfg, k).book, s);
    assert EntryAt(cfg, k, s, e[x]) && EntryAt(cfg, k, s, e[y]);
    var i :| 0 <= i < k && cfg.times[i] == e[x] && SignalAt(cfg, i, s);
    var j :| 0 <= j < k && cfg.times[j] == e[y] && SignalAt(cfg, j, s);
    assert i < j by {
      if j <= i { TimesIncrease(cfg, j, i); }
    }
    NeverRaisedBefore(cfg, j, k);
    SignalsSpaced(cfg, i, j, s);
  }

  /** Also in the trade list a completed run returns. */
  lemma FinalEntriesSpaced(cfg: Config, s: Symbol, x: nat, y: nat)
    requires cfg.times != [] && !FinalRun(cfg).raised && Ready(cfg)
    requires x < y < |Entries(FinalRun(cfg).book, s)|
    ensures var e := Entries(FinalRun(cfg).book, s);
            e[x] < e[y] && Minutes(e[x], e[y]) >= cfg.strategy.cooldown
  {
    hide *;
    var b := RunTo(cfg, |cfg.times|).book;
    FinalShape(cfg);
    RunDistinct(cfg, |cfg.times|);
    FinalFaithful(cfg, b.positions);
    SweepBookEntries(b, FinalJudge(cfg), s);
    EntriesSpaced(cfg, |cfg.times|, s, x, y);
  }

  lemma {:induction false} NeverRaisedBefore(cfg: Config, j: nat, k: nat)
    requires j <= k <= |cfg.times| && !RunTo(cfg, k).raised
    ensures !RunTo(cfg, j).raised
    decreases k
  {
    hide *;
    if j == k {
    } else {
      RaisedStays(cfg, k - 1);
      NeverRaisedBefore(cfg, j, k - 1);
    }
  }
}
