/** What every entry of a run stakes, in closed form: the strategy's share of what the earlier entries
    of the timestamp have left of the cash, and which signals are entered. */
module Stakes {
  import opened PySeq
  import opened Reals
  import opened History
  import opened Signals
  import opened Backtest
  import opened BacktestLaws
  import Cooldown

  /** The share of the cash each strategy stakes, by its number. */
  function Share(st: Strategy): real {
    match st
    case Pullback(_, _) => 0.15
    case Rebound(_, _, _, _) => 0.2
    case DipScalper(_, _, _, _) => 0.10
    case Attack(_, _, _, _, _) => 0.10
    case ShortBreakdown(_, _, _, _) => 0.15
    case ShortRallyFade(_, _, _, _) => 0.12
  }

  /** The label of the strategy in its signals and trades. */
  function Label(st: Strategy): string {
    match st
    case Pullback(_, _) => "PULLBACK"
    case Rebound(_, _, _, _) => "REBOUND"
    case DipScalper(_, _, _, _) => "DIP_SCALPER"
    case Attack(_, _, _, _, _) => "ATTACK"
    case ShortBreakdown(_, _, _, _) => "SHORT_BREAKDOWN"
    case ShortRallyFade(_, _, _, _) => "SHORT_RALLY_FADE"
  }

  /** A signal of the strategy: its share, its label, and selling for the two short strategies only. */
  ghost predicate OfStrategy(sig: Signal, st: Strategy) {
    && sig.positionPct == Share(st) && sig.strategy == Label(st)
    && sig.action == (if st.ShortBreakdown? || st.ShortRallyFade? then "sell" else "buy")
  }

  lemma MadeOfStrategy(st: Strategy, s: Symbol, score: real)
    ensures OfStrategy(MakeSignal(st, s, score), st)
  {
  }

  lemma {:induction false} ScanOfStrategy(st: Strategy, decide: Symbol -> Decision, symbols: seq<Symbol>, now: Time, last: map<Symbol, Time>)
    ensures var g := Scan(st, decide, symbols, now, last); forall i :: 0 <= i < |g.signals| ==> OfStrategy(g.signals[i], st)
  {
    hide OfStrategy, CoolingDown, MakeSignal;
    if symbols == [] {
    } else {
      var n := |symbols| - 1;
      ScanOfStrategy(st, decide, symbols[..n], now, last);
      ScanStep(st, decide, symbols, now, last);
      hide Scan;
      if decide(symbols[n]).Emit? {
        MadeOfStrategy(st, symbols[n], decide(symbols[n]).score);
      }
    }
  }

  lemma ScanStep(st: Strategy, decide: Symbol -> Decision, symbols: seq<Symbol>, now: Time, last: map<Symbol, Time>)
    requires symbols != []
    ensures var n := |symbols| - 1;
            var g, h := Scan(st, decide, symbols[..n], now, last), Scan(st, decide, symbols, now, last);
            || h.signals == g.signals
            || (decide(symbols[n]).Emit? && h.signals == g.signals + [MakeSignal(st, symbols[n], decide(symbols[n]).score)])
  {
    hide CoolingDown, MakeSignal;
  }

  /** A timestamp's signals are a scan of the symbols without a position, or none in a gated regime. */
  lemma SignalsShape(cfg: Config, k: nat)
    requires k < |cfg.times|
    ensures var t, s := cfg.times[k], RunTo(cfg, k);
            SignalsOf(cfg, k) ==
              if cfg.strategy.Gated(TrendAt(cfg, t, s.trend)) then Generated([], s.last, false)
              else Scan(cfg.strategy, Decider(cfg.strategy, cfg.feed.(now := Some(t)), cfg.root),
                        ActiveSymbols(cfg.series, AfterSweep(cfg, k).positions), t, s.last)
  {
    hide Scan, Decider, RunTo, AfterSweep, TrendAt, ActiveSymbols;
  }

  lemma SignalsOfStrategy(cfg: Config, k: nat)
    requires k < |cfg.times|
    ensures var sigs := SignalsOf(cfg, k).signals; forall i :: 0 <= i < |sigs| ==> OfStrategy(sigs[i], cfg.strategy)
  {
    hide *;
    var t := cfg.times[k];
    SignalsShape(cfg, k);
    ScanOfStrategy(cfg.strategy, Decider(cfg.strategy, cfg.feed.(now := Some(t)), cfg.root),
                   ActiveSymbols(cfg.series, AfterSweep(cfg, k).positions), t, RunTo(cfg, k).last);
  }

  // ---------------------------------------------------------------- one timestamp's entries

  /** At most the first five signals are looked at. */
  lemma FiveAtMost(sigs: seq<Signal>)
    ensures FirstFive(sigs) <= sigs && |FirstFive(sigs)| == if |sigs| <= 5 then |sigs| else 5
  {
  }

  /** The new positions of the book c stake p, p * (1 - p), p * (1 - p)^2, ... of the cash of b. */
  ghost predicate Staked(b: Book, c: Book, p: real) {
    var m := |c.positions| - |b.positions|;
    && m >= 0 && c.positions[..|b.positions|] == b.positions
    && c.cash == b.cash * Pow(1.0 - p, m)
    && forall x :: |b.positions| <= x < |c.positions| ==>
         c.positions[x].value == p * (b.cash * Pow(1.0 - p, x - |b.positions|))
  }

  lemma {:induction false} OpenAllStakes(b: Book, sigs: seq<Signal>, prices: map<Symbol, real>, now: Time, p: real)
    requires forall i :: 0 <= i < |sigs| ==> sigs[i].positionPct == p
    ensures Staked(b, OpenAll(b, sigs, prices, now), p)
  {
    hide Open, Staked;
    if sigs == [] {
      NothingStaked(b, p);
    } else {
      var n := |sigs| - 1;
      OpenAllStakes(b, sigs[..n], prices, now, p);
      OpenStakes(b, OpenAll(b, sigs[..n], prices, now), sigs[n], prices, now, p);
    }
  }

  lemma NothingStaked(b: Book, p: real)
    ensures Staked(b, b, p)
  {
  }

  lemma OpenStakes(b: Book, c: Book, sig: Signal, prices: map<Symbol, real>, now: Time, p: real)
    requires Staked(b, c, p) && sig.positionPct == p
    ensures Staked(b, Open(c, sig, prices, now), p)
  {
    var d := Open(c, sig, prices, now);
    if d != c {
      hide Pow;
      var m := |c.positions| - |b.positions|;
      var stake := c.cash * p;
      assert d.positions == c.positions + [NewPosition(c, sig, prices[sig.symbol], now)] && d.cash == c.cash - stake;
      NextPower(b.cash, p, m);
    }
  }

  lemma NextPower(cash: real, p: real, m: nat)
    ensures var c := cash * Pow(1.0 - p, m);
            c * p == p * c && c - c * p == cash * Pow(1.0 - p, m + 1)
  {
    var q, w := 1.0 - p, Pow(1.0 - p, m);
    Distribute(1.0, p, cash * w);
    Associate(cash, w, q);
    assert w * q == q * w == Pow(q, m + 1);
    hide Pow;
    assert (cash * w) * q == cash * w - (cash * w) * p by { Distribute(1.0, p, cash * w); }
  }

  /** Every entry of a run in closed form: with c the cash after the timestamp's exits and p the
      strategy's share, the j-th entry stakes p * c * (1 - p)^j, and m entries leave c * (1 - p)^m. */
  lemma EntryStakes(cfg: Config, k: nat)
    requires k < |cfg.times| && !RunTo(cfg, k + 1).raised
    ensures Staked(AfterSweep(cfg, k), RunTo(cfg, k + 1).book, Share(cfg.strategy))
  {
    hide RunTo, SignalsOf, AfterSweep, PricesAt, OpenAll, Staked, Share, Label;
    StepShape(cfg, k);
    SignalsOfStrategy(cfg, k);
    var sigs := FirstFive(SignalsOf(cfg, k).signals);
    forall i | 0 <= i < |sigs| ensures sigs[i].positionPct == Share(cfg.strategy) {
      assert sigs[i] == SignalsOf(cfg, k).signals[i];
    }
    OpenAllStakes(AfterSweep(cfg, k), sigs, PricesAt(cfg.series, cfg.times[k]), cfg.times[k], Share(cfg.strategy));
  }

  // ---------------------------------------------------------------- which signals are entered

  /** The signals that have a price, in order. */
  function Priced(sigs: seq<Signal>, prices: map<Symbol, real>): seq<Signal> {
    if sigs == [] then []
    else
      var sig := sigs[|sigs| - 1];
      Priced(sigs[..|sigs| - 1], prices) + if sig.symbol in prices then [sig] else []
  }

  /** The position a signal opens at a price, whatever its stake. */
  ghost predicate EntryFor(p: Position, sig: Signal, price: real, now: Time) {
    p == Position(sig.symbol, price, now, p.value, sig.strategy, sig.score, sig.action == "sell", 0.0)
  }

  /** The new positions are those of the signals, one each and in order. */
  ghost predicate EnteredFor(b: Book, c: Book, sigs: seq<Signal>, prices: map<Symbol, real>, now: Time)
    requires forall i :: 0 <= i < |sigs| ==> sigs[i].symbol in prices
  {
    && |c.positions| == |b.positions| + |sigs| && c.positions[..|b.positions|] == b.positions
    && forall i :: 0 <= i < |sigs| ==> EntryFor(c.positions[|b.positions| + i], sigs[i], prices[sigs[i].symbol], now)
  }

  lemma {:induction false} PricedFacts(sigs: seq<Signal>, prices: map<Symbol, real>)
    ensures forall i :: 0 <= i < |Priced(sigs, prices)| ==> Priced(sigs, prices)[i].symbol in prices && Priced(sigs, prices)[i] in sigs
  {
    if sigs == [] {
    } else {
      var n := |sigs| - 1;
      PricedFacts(sigs[..n], prices);
      assert sigs == sigs[..n] + [sigs[n]];
    }
  }

  ghost predicate Fresh(b: Book, sigs: seq<Signal>) {
    && (forall i, j :: 0 <= i < j < |sigs| ==> sigs[i].symbol != sigs[j].symbol)
    && (forall i :: 0 <= i < |sigs| ==> IndexOf(b.positions, sigs[i].symbol) == -1)
  }

  /** With cash that is not negative, each priced signal of a free symbol is entered. */
  lemma {:induction false} OpenAllEnters(b: Book, sigs: seq<Signal>, prices: map<Symbol, real>, now: Time)
    requires b.cash >= 0.0 && Fresh(b, sigs) && forall i :: 0 <= i < |sigs| ==> 0.0 < sigs[i].positionPct < 1.0
    ensures forall i :: 0 <= i < |Priced(sigs, prices)| ==> Priced(sigs, prices)[i].symbol in prices
    ensures OpenAll(b, sigs, prices, now).cash >= 0.0
    ensures EnteredFor(b, OpenAll(b, sigs, prices, now), Priced(sigs, prices), prices, now)
  {
    PricedFacts(sigs, prices);
    hide Open, EntryFor, EnteredFor, Fresh;
    if sigs == [] {
      NothingEntered(b, prices, now);
    } else {
      var n := |sigs| - 1;
      FreshPrefix(b, sigs);
      OpenAllEnters(b, sigs[..n], prices, now);
      PricedFacts(sigs[..n], prices);
      var c := OpenAll(b, sigs[..n], prices, now);
      StillFree(b, c, Priced(sigs[..n], prices), sigs, prices, now);
      OpenEnters(c, sigs[n], prices, now);
      EnteredMore(b, c, Open(c, sigs[n], prices, now), Priced(sigs[..n], prices), sigs[n], prices, now);
    }
  }

  lemma NothingEntered(b: Book, prices: map<Symbol, real>, now: Time)
    ensures EnteredFor(b, b, [], prices, now)
  {
  }

  lemma EnteredMore(b: Book, c: Book, d: Book, earlier: seq<Signal>, sig: Signal, prices: map<Symbol, real>, now: Time)
    requires forall i :: 0 <= i < |earlier| ==> earlier[i].symbol in prices
    requires EnteredFor(b, c, earlier, prices, now) && OneEntered(c, d, sig, prices, now)
    ensures EnteredFor(b, d, earlier + if sig.symbol in prices then [sig] else [], prices, now)
  {
    hide EntryFor;
    if sig.symbol in prices {
      forall i | 0 <= i <= |earlier|
        ensures EntryFor(d.positions[|b.positions| + i], (earlier + [sig])[i], prices[(earlier + [sig])[i].symbol], now)
      {
        if i < |earlier| {
          assert d.positions[|b.positions| + i] == d.positions[..|c.positions|][|b.positions| + i];
        }
      }
      assert d.positions[..|b.positions|] == d.positions[..|c.positions|][..|b.positions|];
    } else {
      assert earlier + [] == earlier;
    }
  }

  /** The signal added its position to the book c, or has no price and changed nothing. */
  ghost predicate OneEntered(c: Book, d: Book, sig: Signal, prices: map<Symbol, real>, now: Time) {
    if sig.symbol !in prices then d == c
    else
      && |d.positions| == |c.positions| + 1 && d.positions[..|c.positions|] == c.positions
      && EntryFor(d.positions[|c.positions|], sig, prices[sig.symbol], now)
  }

  lemma FreshPrefix(b: Book, sigs: seq<Signal>)
    requires sigs != [] && Fresh(b, sigs)
    ensures Fresh(b, sigs[..|sigs| - 1])
  {
    hide IndexOf;
  }

  /** The last signal's symbol is not among those just entered. */
  lemma StillFree(b: Book, c: Book, earlier: seq<Signal>, sigs: seq<Signal>, prices: map<Symbol, real>, now: Time)
    requires sigs != [] && Fresh(b, sigs)
    requires forall i :: 0 <= i < |earlier| ==> earlier[i].symbol in prices && earlier[i] in sigs[..|sigs| - 1]
    requires EnteredFor(b, c, earlier, prices, now)
    ensures IndexOf(c.positions, sigs[|sigs| - 1].symbol) == -1
  {
    var s := sigs[|sigs| - 1].symbol;
    forall x | 0 <= x < |c.positions| ensures c.positions[x].symbol != s {
      if x < |b.positions| {
        assert c.positions[x] == c.positions[..|b.positions|][x];
        assert IndexOf(b.positions, s) == -1;
      } else {
        var i := x - |b.positions|;
        assert EntryFor(c.positions[|b.positions| + i], earlier[i], prices[earlier[i].symbol], now);
        var before := sigs[..|sigs| - 1];
        var j :| 0 <= j < |before| && before[j] == earlier[i];
        assert sigs[j] == earlier[i];
      }
    }
    NotThere(c.positions, s);
  }

  lemma NotThere(ps: seq<Position>, s: Symbol)
    requires forall x :: 0 <= x < |ps| ==> ps[x].symbol != s
    ensures IndexOf(ps, s) == -1
  {
  }

  /** What opening does, with the stake as a number. */
  lemma OpenShape(b: Book, sig: Signal, prices: map<Symbol, real>, now: Time, stake: real)
    requires stake == b.cash * sig.positionPct
    ensures var d := Open(b, sig, prices, now);
            if IndexOf(b.positions, sig.symbol) >= 0 || sig.symbol !in prices || b.cash < stake then d == b
            else d.cash == b.cash - stake && d.trades == b.trades
                 && d.positions == b.positions + [NewPosition(b, sig, prices[sig.symbol], now)]
  {
    hide IndexOf;
  }

  lemma OpenEnters(c: Book, sig: Signal, prices: map<Symbol, real>, now: Time)
    requires c.cash >= 0.0 && IndexOf(c.positions, sig.symbol) == -1 && 0.0 < sig.positionPct < 1.0
    ensures var d := Open(c, sig, prices, now); d.cash >= 0.0 && OneEntered(c, d, sig, prices, now)
  {
    hide Open, IndexOf;
    var stake := StakeWithin(c.cash, sig.positionPct);
    OpenShape(c, sig, prices, now, stake);
    if sig.symbol in prices {
      NewEntry(c, sig, prices, now);
    }
  }

  lemma NewEntry(b: Book, sig: Signal, prices: map<Symbol, real>, now: Time)
    requires sig.symbol in prices
    ensures EntryFor(NewPosition(b, sig, prices[sig.symbol], now), sig, prices[sig.symbol], now)
  {
  }

  lemma StakeWithin(cash: real, p: real) returns (stake: real)
    requires cash >= 0.0 && 0.0 < p < 1.0
    ensures stake == cash * p && 0.0 <= stake <= cash
  {
    stake := cash * p;
    MulNonNegative(cash, p);
    MulNonNegative(cash, 1.0 - p);
    Distribute(1.0, p, cash);
  }

  lemma {:induction false} InDebtNothing(b: Book, sigs: seq<Signal>, prices: map<Symbol, real>, now: Time)
    requires b.cash < 0.0 && forall i :: 0 <= i < |sigs| ==> 0.0 < sigs[i].positionPct < 1.0
    ensures OpenAll(b, sigs, prices, now) == b
  {
    hide Open;
    if sigs == [] {
    } else {
      var n := |sigs| - 1;
      InDebtNothing(b, sigs[..n], prices, now);
      InDebtClosed(b, sigs[n], prices, now);
    }
  }

  lemma InDebtClosed(b: Book, sig: Signal, prices: map<Symbol, real>, now: Time)
    requires b.cash < 0.0 && 0.0 < sig.positionPct < 1.0
    ensures Open(b, sig, prices, now) == b
  {
    hide Open, IndexOf;
    var stake := StakeBeyond(b.cash, sig.positionPct);
    OpenShape(b, sig, prices, now, stake);
  }

  lemma StakeBeyond(cash: real, p: real) returns (stake: real)
    requires cash < 0.0 && 0.0 < p < 1.0
    ensures stake == cash * p && cash < stake
  {
    MulOrder(p, 1.0, -cash);
    stake := cash * p;
  }

  /** A timestamp enters exactly its first five signals that have a price, in order, each at that price -
      or none at all while the cash is negative. */
  lemma EntriesExactly(cfg: Config, k: nat)
    requires k < |cfg.times| && !RunTo(cfg, k + 1).raised && Ready(cfg)
    ensures var t, b, c := cfg.times[k], AfterSweep(cfg, k), RunTo(cfg, k + 1).book;
            var prices := PricesAt(cfg.series, t);
            var entered := Priced(FirstFive(SignalsOf(cfg, k).signals), prices);
            && (forall i :: 0 <= i < |entered| ==> entered[i].symbol in prices)
            && if b.cash < 0.0 then c == b else EnteredFor(b, c, entered, prices, t)
  {
    hide RunTo, SignalsOf, AfterSweep, PricesAt, OpenAll, EnteredFor, Share, Label, Priced, Fresh;
    var t, b, sigs := cfg.times[k], AfterSweep(cfg, k), FirstFive(SignalsOf(cfg, k).signals);
    StepShape(cfg, k);
    SignalsOfStrategy(cfg, k);
    ShareRange(cfg.strategy);
    forall i | 0 <= i < |sigs| ensures 0.0 < sigs[i].positionPct < 1.0 {
      assert sigs[i] == SignalsOf(cfg, k).signals[i];
    }
    PricedFacts(sigs, PricesAt(cfg.series, t));
    if b.cash < 0.0 {
      InDebtNothing(b, sigs, PricesAt(cfg.series, t), t);
    } else {
      SignalsFresh(cfg, k);
      OpenAllEnters(b, sigs, PricesAt(cfg.series, t), t);
    }
  }

  lemma ShareRange(st: Strategy)
    ensures 0.0 < Share(st) < 1.0
  {
  }

  lemma SignalsFresh(cfg: Config, k: nat)
    requires k < |cfg.times| && Ready(cfg)
    ensures Fresh(AfterSweep(cfg, k), FirstFive(SignalsOf(cfg, k).signals))
  {
    hide RunTo, SignalsOf, AfterSweep, IndexOf, ActiveSymbols, CoolingDown;
    var b, g := AfterSweep(cfg, k), SignalsOf(cfg, k);
    var active := ActiveSymbols(cfg.series, b.positions);
    Cooldown.SignalsRespect(cfg, k);
    Cooldown.ActiveDistinct(cfg.series, b.positions);
    forall i | 0 <= i < |FirstFive(g.signals)| ensures IndexOf(b.positions, FirstFive(g.signals)[i].symbol) == -1 {
      assert SignalOk(cfg.strategy, g.signals[i], active, cfg.times[k], RunTo(cfg, k).last);
      var j :| 0 <= j < |active| && active[j] == g.signals[i].symbol;
    }
  }
}
