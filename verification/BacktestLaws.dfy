/** Conservation, accounting and exit-rule laws of the backtester, for every run. */
module BacktestLaws {
  import opened PySeq
  import opened Reals
  import opened History
  import opened Signals
  import opened TimeOrder
  import opened Backtest

  // ---------------------------------------------------------------- single positions

  type Key = (Symbol, Time)

  function PositionKey(p: Position): Key {
    (p.symbol, p.entryTime)
  }

  function TradeKey(t: Trade): Key {
    (t.symbol, t.entryTime)
  }

  /** A verdict keeps the position's identity, and an exit value is the position value plus the profit. */
  ghost predicate Faithful(p: Position, v: Verdict) {
    match v
    case Keep(q) => q == p.(maxProfit := q.maxProfit)
    case Exit(trade, proceeds) => TradeKey(trade) == PositionKey(p) && proceeds == p.value + trade.pnl
    case Raise => true
  }

  lemma JudgeFaithful(p: Position, prices: map<Symbol, real>, rule: Rule, now: Time)
    ensures Faithful(p, Judger(prices, rule, now)(p))
  {
  }

  ghost predicate FaithfulOn(ps: seq<Position>, judge: Position -> Verdict) {
    forall i :: 0 <= i < |ps| ==> Faithful(ps[i], judge(ps[i]))
  }

  lemma JudgerFaithful(ps: seq<Position>, prices: map<Symbol, real>, rule: Rule, now: Time)
    ensures FaithfulOn(ps, Judger(prices, rule, now))
  {
    forall i | 0 <= i < |ps| ensures Faithful(ps[i], Judger(prices, rule, now)(ps[i])) {
      JudgeFaithful(ps[i], prices, rule, now);
    }
  }

  /** Exactly when closing raises: a zero entry price, or a long position of value zero. */
  lemma CloseRaises(p: Position, price: real, reason: Reason, now: Time)
    ensures Close(p, price, reason, now).Raise? <==> p.entryPrice == 0.0 || (!p.isShort && p.value == 0.0)
  {
  }

  // ---------------------------------------------------------------- conservation

  lemma OpenValueSnoc(ps: seq<Position>, p: Position)
    ensures OpenValue(ps + [p]) == OpenValue(ps) + p.value
  {
    assert Map(Value, ps + [p]) == Map(Value, ps) + [p.value];
    SumSnoc(Map(Value, ps), p.value);
  }

  lemma TotalPnlConcat(a: seq<Trade>, b: seq<Trade>)
    ensures TotalPnl(a + b) == TotalPnl(a) + TotalPnl(b)
  {
    assert Map(Pnl, a + b) == Map(Pnl, a) + Map(Pnl, b);
    SumConcat(Map(Pnl, a), Map(Pnl, b));
  }

  lemma TotalPnlSnoc(a: seq<Trade>, t: Trade)
    ensures TotalPnl(a + [t]) == TotalPnl(a) + t.pnl
  {
    assert Map(Pnl, a + [t]) == Map(Pnl, a) + [t.pnl];
    SumSnoc(Map(Pnl, a), t.pnl);
  }

  lemma NoRaisePrefix(ps: seq<Position>, k: nat, judge: Position -> Verdict)
    requires k <= |ps| && !SweepRaises(ps, judge)
    ensures !SweepRaises(ps[..k], judge)
    ensures k < |ps| ==> !judge(ps[k]).Raise?
  {
    forall i | 0 <= i < k ensures !judge(ps[..k][i]).Raise? {
      assert ps[..k][i] == ps[i];
    }
  }

  /** A sweep turns position value into proceeds and realised profit, and nothing else. */
  lemma {:induction false} SweepConserves(ps: seq<Position>, judge: Position -> Verdict)
    requires FaithfulOn(ps, judge) && !SweepRaises(ps, judge)
    ensures var r := Sweep(ps, judge); r.proceeds + OpenValue(r.kept) == OpenValue(ps) + TotalPnl(r.closed)
  {
    if ps == [] {
    } else {
      var n := |ps| - 1;
      var r := Sweep(ps[..n], judge);
      NoRaisePrefix(ps, n, judge);
      SweepConserves(ps[..n], judge);
      assert ps == ps[..n] + [ps[n]];
      OpenValueSnoc(ps[..n], ps[n]);
      match judge(ps[n])
      case Keep(p) => OpenValueSnoc(r.kept, p);
      case Exit(trade, _) => TotalPnlSnoc(r.closed, trade);
    }
  }

  function Equity(b: Book): real {
    b.cash + OpenValue(b.positions)
  }

  lemma SweepBookConserves(b: Book, judge: Position -> Verdict)
    requires FaithfulOn(b.positions, judge) && !SweepRaises(b.positions, judge)
    ensures Equity(SweepBook(b, judge)) - TotalPnl(SweepBook(b, judge).trades) == Equity(b) - TotalPnl(b.trades)
  {
    SweepConserves(b.positions, judge);
    TotalPnlConcat(b.trades, Sweep(b.positions, judge).closed);
  }

  lemma {:induction false} OpenAllConserves(b: Book, sigs: seq<Signal>, prices: map<Symbol, real>, now: Time)
    ensures var c := OpenAll(b, sigs, prices, now); Equity(c) == Equity(b) && c.trades == b.trades
  {
    if sigs == [] {
    } else {
      var n := |sigs| - 1;
      OpenAllConserves(b, sigs[..n], prices, now);
      OpenConserves(OpenAll(b, sigs[..n], prices, now), sigs[n], prices, now);
    }
  }

  lemma OpenConserves(b: Book, sig: Signal, prices: map<Symbol, real>, now: Time)
    ensures var c := Open(b, sig, prices, now); Equity(c) == Equity(b) && c.trades == b.trades
  {
    if sig.symbol in prices {
      OpenValueSnoc(b.positions, NewPosition(b, sig, prices[sig.symbol], now));
    }
  }

  /** The book between the sweep and the entries of timestamp k. */
  function AfterSweep(cfg: Config, k: nat): Book
    requires k < |cfg.times|
  {
    SweepBook(RunTo(cfg, k).book, ExitJudge(cfg, cfg.times[k]))
  }

  function SignalsOf(cfg: Config, k: nat): Generated
    requires k < |cfg.times|
  {
    var t, s := cfg.times[k], RunTo(cfg, k);
    SignalsAt(cfg, t, TrendAt(cfg, t, s.trend), AfterSweep(cfg, k).positions, s.last)
  }

  /** One timestamp that completes is a sweep followed by entries. */
  lemma StepShape(cfg: Config, k: nat)
    requires k < |cfg.times| && !RunTo(cfg, k + 1).raised
    ensures !RunTo(cfg, k).raised
    ensures !SweepRaises(RunTo(cfg, k).book.positions, ExitJudge(cfg, cfg.times[k]))
    ensures RunTo(cfg, k + 1).book == Entered(cfg, cfg.times[k], AfterSweep(cfg, k), SignalsOf(cfg, k))
    ensures RunTo(cfg, k + 1).last == SignalsOf(cfg, k).last
  {
    assert RunTo(cfg, k + 1) == Step(cfg, cfg.times[k], RunTo(cfg, k));
  }

  lemma TimesIncrease(cfg: Config, i: nat, k: nat)
    requires i <= k < |cfg.times| && Ready(cfg)
    ensures cfg.times[i] <= cfg.times[k] && (i < k <==> cfg.times[i] < cfg.times[k])
  {
    SortedTimesOrder(AllTimes(cfg.series));
  }

  lemma RunStart(cfg: Config)
    ensures RunTo(cfg, 0) == Run(Book(cfg.capital, [], []), cfg.trend0, cfg.last0, false)
  {
  }

  lemma EmptyEquity(capital: real)
    ensures Equity(Book(capital, [], [])) == capital + TotalPnl([])
  {
    assert Map(Value, []) == [] && Map(Pnl, []) == [];
  }

  lemma RaisedStays(cfg: Config, k: nat)
    requires k < |cfg.times| && !RunTo(cfg, k + 1).raised
    ensures !RunTo(cfg, k).raised
  {
    StepShape(cfg, k);
  }

  /** At every timestamp of every run, equity is the initial capital plus the realised profit. */
  lemma {:induction false} EquityConserved(cfg: Config, k: nat)
    requires k <= |cfg.times| && !RunTo(cfg, k).raised
    ensures Equity(RunTo(cfg, k).book) == cfg.capital + TotalPnl(RunTo(cfg, k).book.trades)
  {
    hide *;
    if k > 0 {
      StepConserves(cfg, k - 1);
      EquityConserved(cfg, k - 1);
    } else {
      RunStart(cfg);
      EmptyEquity(cfg.capital);
    }
  }

  lemma StepConserves(cfg: Config, k: nat)
    requires k < |cfg.times| && !RunTo(cfg, k + 1).raised
    ensures !RunTo(cfg, k).raised
    ensures var b, c := RunTo(cfg, k).book, RunTo(cfg, k + 1).book;
            Equity(c) - TotalPnl(c.trades) == Equity(b) - TotalPnl(b.trades)
  {
    StepShape(cfg, k);
    var t, b := cfg.times[k], RunTo(cfg, k).book;
    JudgerFaithful(b.positions, PricesAt(cfg.series, t), Exits(cfg.params), t);
    SweepBookConserves(b, ExitJudge(cfg, t));
    OpenAllConserves(AfterSweep(cfg, k), FirstFive(SignalsOf(cfg, k).signals), PricesAt(cfg.series, t), t);
  }

  /** What the end of the data does to the positions still open. */
  function FinalJudge(cfg: Config): Position -> Verdict
    requires cfg.times != []
  {
    var t := cfg.times[|cfg.times| - 1];
    Judger(PricesAt(cfg.series, t), Liquidation, t)
  }

  /** A run that completes is all its timestamps followed by one more sweep. */
  lemma FinalShape(cfg: Config)
    requires cfg.times != []
    ensures FinalRun(cfg).raised <==>
              RunTo(cfg, |cfg.times|).raised || SweepRaises(RunTo(cfg, |cfg.times|).book.positions, FinalJudge(cfg))
    ensures !FinalRun(cfg).raised ==> FinalRun(cfg).book == SweepBook(RunTo(cfg, |cfg.times|).book, FinalJudge(cfg))
  {
    hide RunTo, SweepRaises, SweepBook, Judger, PricesAt;
  }

  lemma FinalFaithful(cfg: Config, ps: seq<Position>)
    requires cfg.times != []
    ensures FaithfulOn(ps, FinalJudge(cfg))
  {
    var t := cfg.times[|cfg.times| - 1];
    JudgerFaithful(ps, PricesAt(cfg.series, t), Liquidation, t);
  }

  /** Also after the liquidation that ends the run. */
  lemma FinalEquityConserved(cfg: Config)
    requires cfg.times != [] && !FinalRun(cfg).raised
    ensures Equity(FinalRun(cfg).book) == cfg.capital + TotalPnl(FinalRun(cfg).book.trades)
  {
    hide *;
    var b := RunTo(cfg, |cfg.times|).book;
    FinalShape(cfg);
    EquityConserved(cfg, |cfg.times|);
    FinalFaithful(cfg, b.positions);
    SweepBookConserves(b, FinalJudge(cfg));
  }

  lemma {:induction false} SelectSplits(ts: seq<Trade>)
    ensures |Select(ts, true)| + |Select(ts, false)| == |ts|
    ensures TotalPnl(Select(ts, true)) + TotalPnl(Select(ts, false)) == TotalPnl(ts)
  {
    if ts == [] {
    } else {
      var n := |ts| - 1;
      SelectSplits(ts[..n]);
      assert ts == ts[..n] + [ts[n]];
      TotalPnlSnoc(ts[..n], ts[n]);
      TotalPnlSnoc(Select(ts[..n], ts[n].pnl > 0.0), ts[n]);
      assert Select(ts[..n], ts[n].pnl <= 0.0) + [] == Select(ts[..n], ts[n].pnl <= 0.0);
    }
  }

  /** The reported total return is the realised profit over the initial capital, even while
      positions without a last price stay open; wins and losses split the trades. */
  lemma ReportedReturn(cfg: Config)
    requires cfg.times != [] && !FinalRun(cfg).raised && cfg.capital != 0.0
    ensures CalculateResults(FinalRun(cfg).book, cfg.capital).Some?
    ensures var b := FinalRun(cfg).book;
            var r := CalculateResults(b, cfg.capital).value;
            && r.totalReturn == TotalPnl(b.trades) / cfg.capital * 100.0
            && r.totalPnl == TotalPnl(b.trades)
            && r.trades == |b.trades| == r.wins + r.losses
  {
    hide *;
    FinalEquityConserved(cfg);
    ReportFromEquity(FinalRun(cfg).book, cfg.capital);
  }

  lemma ReportFromEquity(b: Book, capital: real)
    requires Equity(b) == capital + TotalPnl(b.trades) && capital != 0.0
    ensures CalculateResults(b, capital).Some?
    ensures var r := CalculateResults(b, capital).value;
            && r.totalReturn == TotalPnl(b.trades) / capital * 100.0
            && r.totalPnl == TotalPnl(b.trades)
            && r.trades == |b.trades| == r.wins + r.losses
  {
    SelectSplits(b.trades);
    DivUnique(0.0, capital, 0.0);
  }

  function Winner(): Trade -> bool {
    (t: Trade) => t.pnl > 0.0
  }

  /** The profits of the winning trades, and the losses of the others as a positive number. */
  function Won(ts: seq<Trade>): real {
    if ts == [] then 0.0 else Won(ts[..|ts| - 1]) + if ts[|ts| - 1].pnl > 0.0 then ts[|ts| - 1].pnl else 0.0
  }

  function Lost(ts: seq<Trade>): real {
    if ts == [] then 0.0 else Lost(ts[..|ts| - 1]) + if ts[|ts| - 1].pnl > 0.0 then 0.0 else -ts[|ts| - 1].pnl
  }

  lemma SelectStep(ts: seq<Trade>)
    requires ts != []
    ensures var before, t := ts[..|ts| - 1], ts[|ts| - 1];
            var wins := t.pnl > 0.0;
            && Select(ts, wins) == Select(before, wins) + [t] && Select(ts, !wins) == Select(before, !wins)
            && Won(ts) == Won(before) + (if wins then t.pnl else 0.0)
            && Lost(ts) == Lost(before) - (if wins then 0.0 else t.pnl)
  {
    var before, wins := ts[..|ts| - 1], ts[|ts| - 1].pnl > 0.0;
    assert Select(before, !wins) + [] == Select(before, !wins);
  }

  lemma NothingSelected()
    ensures TotalPnl(Select([], true)) == TotalPnl(Select([], false)) == Won([]) == Lost([]) == 0.0
  {
    assert Map(Pnl, []) == [];
  }

  lemma {:induction false} SelectTotals(ts: seq<Trade>) returns (at: seq<nat>)
    ensures AllPlaces(ts, Winner(), at) && |Select(ts, true)| == |at|
    ensures TotalPnl(Select(ts, true)) == Won(ts) && TotalPnl(Select(ts, false)) == -Lost(ts) <= 0.0
  {
    hide AllPlaces, TotalPnl, Won, Lost;
    if ts == [] {
      at := [];
      NothingSelected();
      assert AllPlaces(ts, Winner(), at) by { NowhereToLook(ts); }
    } else {
      hide Select;
      var n := |ts| - 1;
      var before := SelectTotals(ts[..n]);
      AllPlacesSnoc(ts, Winner(), before);
      SelectStep(ts);
      TotalPnlSnoc(Select(ts[..n], ts[n].pnl > 0.0), ts[n]);
      at := if ts[n].pnl > 0.0 then before + [n] else before;
    }
  }

  lemma NowhereToLook(ts: seq<Trade>)
    requires ts == []
    ensures AllPlaces(ts, Winner(), [])
  {
  }

  /** The report: winners are the trades with a profit, the profit factor is what they made over what the
      others lost, and the return is the change of equity in percent of the capital. */
  lemma ResultsExactly(b: Book, capital: real) returns (at: seq<nat>)
    ensures b.trades == [] ==> CalculateResults(b, capital) == Some(Results(0, 0, 0, 0.0, 0.0, 0.0))
    ensures b.trades != [] ==> (CalculateResults(b, capital).None? <==> capital == 0.0)
    ensures b.trades != [] && capital != 0.0 ==>
              var r := CalculateResults(b, capital).value;
              && AllPlaces(b.trades, Winner(), at) && r.wins == |at| && r.trades == r.wins + r.losses == |b.trades|
              && r.totalPnl == Won(b.trades) - Lost(b.trades)
              && r.totalReturn * capital == 100.0 * (Equity(b) - capital)
              && (if Lost(b.trades) == 0.0 then r.profitFactor == 0.0 else r.profitFactor * Lost(b.trades) == Won(b.trades))
  {
    at := SelectTotals(b.trades);
    SelectSplits(b.trades);
    hide AllPlaces, Select, TotalPnl, Won, Lost, OpenValue;
    if b.trades != [] && capital != 0.0 {
      PercentOf(Equity(b) - capital, capital);
      if Lost(b.trades) != 0.0 {
        DivMul(Won(b.trades), Lost(b.trades));
      }
    }
  }

  lemma PercentOf(gain: real, capital: real)
    requires capital != 0.0
    ensures (gain / capital * 100.0) * capital == 100.0 * gain
  {
    var q := gain / capital;
    DivMul(gain, capital);
    Associate(q, 100.0, capital);
    Associate(100.0, q, capital);
  }

  // ---------------------------------------------------------------- accounting of positions

  /** Every position ever opened, open or closed, by symbol and entry time. */
  ghost function Ledger(b: Book): multiset<Key> {
    multiset(Map(PositionKey, b.positions)) + multiset(Map(TradeKey, b.trades))
  }

  lemma PositionKeysSnoc(ps: seq<Position>, p: Position)
    ensures multiset(Map(PositionKey, ps + [p])) == multiset(Map(PositionKey, ps)) + multiset{PositionKey(p)}
  {
    hide *;
    assert Map(PositionKey, ps + [p]) == Map(PositionKey, ps) + [PositionKey(p)];
  }

  lemma TradeKeysConcat(a: seq<Trade>, b: seq<Trade>)
    ensures multiset(Map(TradeKey, a + b)) == multiset(Map(TradeKey, a)) + multiset(Map(TradeKey, b))
  {
    hide *;
    assert Map(TradeKey, a + b) == Map(TradeKey, a) + Map(TradeKey, b);
  }

  /** One more verdict takes what a sweep has so far from r to s. */
  ghost predicate Extends(r: Swept, v: Verdict, s: Swept) {
    match v
    case Keep(q) => s.kept == r.kept + [q] && s.closed == r.closed
    case Exit(t, _) => s.kept == r.kept && s.closed == r.closed + [t]
    case Raise => s == r
  }

  lemma SweepExtends(ps: seq<Position>, p: Position, judge: Position -> Verdict)
    ensures Extends(Sweep(ps, judge), judge(p), Sweep(ps + [p], judge))
  {
    assert (ps + [p])[..|ps|] == ps;
  }

  lemma NothingSwept(judge: Position -> Verdict)
    ensures Sweep([], judge) == Swept([], [], 0.0)
    ensures Map(PositionKey, []) == [] && Map(TradeKey, []) == []
  {
  }

  lemma {:induction false} SweepAccounts(ps: seq<Position>, judge: Position -> Verdict)
    requires FaithfulOn(ps, judge) && !SweepRaises(ps, judge)
    ensures var r := Sweep(ps, judge);
            multiset(Map(PositionKey, r.kept)) + multiset(Map(TradeKey, r.closed)) == multiset(Map(PositionKey, ps))
  {
    hide Sweep, Faithful, Map, Extends;
    if ps == [] {
      NothingSwept(judge);
    } else {
      var n := |ps| - 1;
      NoRaisePrefix(ps, n, judge);
      SweepAccounts(ps[..n], judge);
      assert ps == ps[..n] + [ps[n]];
      SweepExtends(ps[..n], ps[n], judge);
      PositionKeysSnoc(ps[..n], ps[n]);
      assert Faithful(ps[n], judge(ps[n]));
      ExtendsAccounts(Sweep(ps[..n], judge), ps[n], judge(ps[n]), Sweep(ps, judge));
    }
  }

  lemma ExtendsAccounts(r: Swept, p: Position, v: Verdict, s: Swept)
    requires Extends(r, v, s) && Faithful(p, v) && !v.Raise?
    ensures multiset(Map(PositionKey, s.kept)) + multiset(Map(TradeKey, s.closed))
         == multiset(Map(PositionKey, r.kept)) + multiset(Map(TradeKey, r.closed)) + multiset{PositionKey(p)}
  {
    hide Map;
    match v
    case Keep(q) =>
      PositionKeysSnoc(r.kept, q);
    case Exit(t, _) =>
      TradeKeysConcat(r.closed, [t]);
      OneTradeKey(t);
  }

  lemma OneTradeKey(t: Trade)
    ensures Map(TradeKey, [t]) == [TradeKey(t)]
  {
    hide *;
  }

  /** A sweep neither loses nor duplicates a position: a position hit by two rules is one trade. */
  lemma SweepBookAccounts(b: Book, judge: Position -> Verdict)
    requires FaithfulOn(b.positions, judge) && !SweepRaises(b.positions, judge)
    ensures Ledger(SweepBook(b, judge)) == Ledger(b)
  {
    hide Sweep, FaithfulOn, SweepRaises, Map;
    SweepAccounts(b.positions, judge);
    TradeKeysConcat(b.trades, Sweep(b.positions, judge).closed);
  }

  ghost predicate KeptBy(ps: seq<Position>, judge: Position -> Verdict, q: Position) {
    exists j :: 0 <= j < |ps| && judge(ps[j]) == Keep(q)
  }

  ghost predicate ClosedBy(ps: seq<Position>, judge: Position -> Verdict, t: Trade) {
    exists j :: 0 <= j < |ps| && judge(ps[j]).Exit? && judge(ps[j]).trade == t
  }

  /** Everything a sweep leaves or closes comes from one of the positions it went over. */
  lemma {:induction false} SweepOrigins(ps: seq<Position>, judge: Position -> Verdict)
    ensures forall i :: 0 <= i < |Sweep(ps, judge).kept| ==> KeptBy(ps, judge, Sweep(ps, judge).kept[i])
    ensures forall i :: 0 <= i < |Sweep(ps, judge).closed| ==> ClosedBy(ps, judge, Sweep(ps, judge).closed[i])
  {
    if ps == [] {
    } else {
      var n := |ps| - 1;
      SweepOrigins(ps[..n], judge);
      forall q | KeptBy(ps[..n], judge, q) ensures KeptBy(ps, judge, q) {
        var j :| 0 <= j < n && judge(ps[..n][j]) == Keep(q);
        assert judge(ps[j]) == Keep(q);
      }
      forall t | ClosedBy(ps[..n], judge, t) ensures ClosedBy(ps, judge, t) {
        var j :| 0 <= j < n && judge(ps[..n][j]).Exit? && judge(ps[..n][j]).trade == t;
        assert judge(ps[j]).Exit? && judge(ps[j]).trade == t;
      }
    }
  }

  lemma {:induction false} SweepDistinct(ps: seq<Position>, judge: Position -> Verdict)
    requires Distinct(ps) && FaithfulOn(ps, judge)
    ensures Distinct(Sweep(ps, judge).kept)
  {
    if ps == [] {
    } else {
      var n := |ps| - 1;
      SweepDistinct(ps[..n], judge);
      SweepOrigins(ps[..n], judge);
      var r := Sweep(ps[..n], judge);
      forall i | 0 <= i < |r.kept| ensures r.kept[i].symbol != ps[n].symbol {
        var j :| 0 <= j < n && judge(ps[..n][j]) == Keep(r.kept[i]);
        assert Faithful(ps[j], judge(ps[j]));
      }
    }
  }

  ghost predicate OpenedBy(p: Position, sig: Signal, prices: map<Symbol, real>, now: Time) {
    && p.symbol == sig.symbol && p.symbol in prices && p.entryPrice == prices[p.symbol]
    && p.entryTime == now && p.maxProfit == 0.0 && p.isShort == (sig.action == "sell")
  }

  ghost predicate OpenedByAny(p: Position, sigs: seq<Signal>, prices: map<Symbol, real>, now: Time) {
    exists m :: 0 <= m < |sigs| && OpenedBy(p, sigs[m], prices, now)
  }

  lemma OpenAppends(b: Book, sig: Signal, prices: map<Symbol, real>, now: Time)
    requires Distinct(b.positions)
    ensures var c := Open(b, sig, prices, now);
            c == b || (|c.positions| == |b.positions| + 1 && c.positions[..|b.positions|] == b.positions
                       && Distinct(c.positions) && OpenedBy(c.positions[|b.positions|], sig, prices, now))
  {
  }

  /** Entries only append positions, all of distinct symbols, each for one of the signals. */
  lemma {:induction false} OpenAllAppends(b: Book, sigs: seq<Signal>, prices: map<Symbol, real>, now: Time)
    requires Distinct(b.positions)
    ensures var c := OpenAll(b, sigs, prices, now);
            Distinct(c.positions) && |b.positions| <= |c.positions| && c.positions[..|b.positions|] == b.positions
    ensures var c := OpenAll(b, sigs, prices, now);
            forall i :: |b.positions| <= i < |c.positions| ==> OpenedByAny(c.positions[i], sigs, prices, now)
  {
    hide Open, OpenedBy, Distinct;
    if sigs == [] {
    } else {
      var n := |sigs| - 1;
      OpenAllAppends(b, sigs[..n], prices, now);
      var c, d := OpenAll(b, sigs[..n], prices, now), OpenAll(b, sigs, prices, now);
      forall i | |b.positions| <= i < |c.positions| ensures OpenedByAny(c.positions[i], sigs, prices, now) {
        var m :| 0 <= m < n && OpenedBy(c.positions[i], sigs[..n][m], prices, now);
        assert OpenedBy(c.positions[i], sigs[m], prices, now);
      }
      OpenAppends(c, sigs[n], prices, now);
      if d != c {
        assert OpenedByAny(d.positions[|c.positions|], sigs, prices, now);
      }
    }
  }

  /** The positions of a run have distinct symbols. */
  lemma {:induction false} RunDistinct(cfg: Config, k: nat)
    requires k <= |cfg.times| && !RunTo(cfg, k).raised
    ensures Distinct(RunTo(cfg, k).book.positions)
  {
    hide RunTo, SignalsOf, AfterSweep;
    RunStart(cfg);
    if k == 0 {
    } else {
      StepShape(cfg, k - 1);
      RunDistinct(cfg, k - 1);
      AfterSweepDistinct(cfg, k - 1);
      var t := cfg.times[k - 1];
      OpenAllAppends(AfterSweep(cfg, k - 1), FirstFive(SignalsOf(cfg, k - 1).signals), PricesAt(cfg.series, t), t);
    }
  }

  lemma AfterSweepDistinct(cfg: Config, k: nat)
    requires k < |cfg.times| && Distinct(RunTo(cfg, k).book.positions)
    ensures Distinct(AfterSweep(cfg, k).positions)
  {
    var t, ps := cfg.times[k], RunTo(cfg, k).book.positions;
    JudgerFaithful(ps, PricesAt(cfg.series, t), Exits(cfg.params), t);
    SweepDistinct(ps, ExitJudge(cfg, t));
  }

  ghost predicate OpenedAt(now: Time, added: multiset<Key>) {
    forall k :: k in added ==> k.1 == now && added[k] == 1
  }

  lemma {:induction false} DistinctKeys(ps: seq<Position>, now: Time)
    requires Distinct(ps) && forall i :: 0 <= i < |ps| ==> ps[i].entryTime == now
    ensures OpenedAt(now, multiset(Map(PositionKey, ps)))
  {
    if ps == [] {
    } else {
      var n := |ps| - 1;
      DistinctKeys(ps[..n], now);
      var keys := Map(PositionKey, ps[..n]);
      assert Map(PositionKey, ps) == keys + [PositionKey(ps[n])];
      assert PositionKey(ps[n]) !in keys;
    }
  }

  /** Keys of the positions that entries append. */
  lemma EntriesAccount(b: Book, sigs: seq<Signal>, prices: map<Symbol, real>, now: Time) returns (added: multiset<Key>)
    requires Distinct(b.positions)
    ensures Ledger(OpenAll(b, sigs, prices, now)) == Ledger(b) + added && OpenedAt(now, added)
  {
    hide OpenAll, Ledger, Equity;
    OpenAllAppends(b, sigs, prices, now);
    OpenAllConserves(b, sigs, prices, now);
    var c := OpenAll(b, sigs, prices, now);
    var newer := c.positions[|b.positions|..];
    NewerFacts(b.positions, c.positions, sigs, prices, now);
    DistinctKeys(newer, now);
    added := multiset(Map(PositionKey, newer));
    LedgerAppend(b, c, newer);
  }

  lemma NewerFacts(before: seq<Position>, after: seq<Position>, sigs: seq<Signal>, prices: map<Symbol, real>, now: Time)
    requires Distinct(after) && |before| <= |after| && after[..|before|] == before
    requires forall i :: |before| <= i < |after| ==> OpenedByAny(after[i], sigs, prices, now)
    ensures var newer := after[|before|..];
            after == before + newer && Distinct(newer) && forall i :: 0 <= i < |newer| ==> newer[i].entryTime == now
  {
    forall i | |before| <= i < |after| ensures after[i].entryTime == now {
      assert OpenedByAny(after[i], sigs, prices, now);
    }
  }

  lemma LedgerAppend(b: Book, c: Book, newer: seq<Position>)
    requires c.positions == b.positions + newer && c.trades == b.trades
    ensures Ledger(c) == Ledger(b) + multiset(Map(PositionKey, newer))
  {
    assert Map(PositionKey, c.positions) == Map(PositionKey, b.positions) + Map(PositionKey, newer);
  }

  /** One timestamp adds to the ledger only positions entered at that timestamp, at most one
      per symbol: each opened position is from then on either open or exactly one trade. */
  lemma StepAccounts(cfg: Config, k: nat) returns (added: multiset<Key>)
    requires k < |cfg.times| && !RunTo(cfg, k + 1).raised
    ensures Ledger(RunTo(cfg, k + 1).book) == Ledger(RunTo(cfg, k).book) + added
    ensures OpenedAt(cfg.times[k], added)
  {
    StepShape(cfg, k);
    RunDistinct(cfg, k);
    AfterSweepDistinct(cfg, k);
    var t, b := cfg.times[k], RunTo(cfg, k).book;
    JudgerFaithful(b.positions, PricesAt(cfg.series, t), Exits(cfg.params), t);
    SweepBookAccounts(b, ExitJudge(cfg, t));
    added := EntriesAccount(AfterSweep(cfg, k), FirstFive(SignalsOf(cfg, k).signals), PricesAt(cfg.series, t), t);
  }

  /** Timestamp i opened a position with this key. */
  ghost predicate OpenedIn(cfg: Config, i: nat, key: Key)
    requires i < |cfg.times|
  {
    cfg.times[i] == key.1 && key in Map(PositionKey, RunTo(cfg, i + 1).book.positions)
  }

  ghost predicate WasOpened(cfg: Config, k: nat, key: Key)
    requires k <= |cfg.times|
  {
    exists i :: 0 <= i < k && OpenedIn(cfg, i, key)
  }

  lemma LedgerStep(cfg: Config, k: nat, key: Key)
    requires k < |cfg.times| && !RunTo(cfg, k + 1).raised
    requires key.1 == cfg.times[k] ==> Ledger(RunTo(cfg, k).book)[key] == 0
    ensures Ledger(RunTo(cfg, k + 1).book)[key] == Ledger(RunTo(cfg, k).book)[key] + if OpenedIn(cfg, k, key) then 1 else 0
  {
    hide RunTo, SignalsOf, Map, PricesAt, Judger, SweepRaises, Sweep, OpenAll;
    var added := StepAccounts(cfg, k);
    StepShape(cfg, k);
    var t, b := cfg.times[k], RunTo(cfg, k).book;
    JudgerFaithful(b.positions, PricesAt(cfg.series, t), Exits(cfg.params), t);
    SweepBookAccounts(b, ExitJudge(cfg, t));
    OpenAllConserves(AfterSweep(cfg, k), FirstFive(SignalsOf(cfg, k).signals), PricesAt(cfg.series, t), t);
  }

  /** After any number of timestamps the ledger holds each position ever opened exactly once: as an
      open position or as one trade. */
  lemma {:induction false} LedgerExact(cfg: Config, k: nat, key: Key)
    requires k <= |cfg.times| && !RunTo(cfg, k).raised && Ready(cfg)
    ensures Ledger(RunTo(cfg, k).book)[key] == if WasOpened(cfg, k, key) then 1 else 0
  {
    hide RunTo, Ready, OpenedIn, Ledger;
    RunStart(cfg);
    if k == 0 {
      EmptyLedger(cfg.capital);
    } else {
      RaisedStays(cfg, k - 1);
      LedgerExact(cfg, k - 1, key);
      OpenedOnce(cfg, k - 1, key);
      LedgerStep(cfg, k - 1, key);
    }
  }

  lemma EmptyLedger(capital: real)
    ensures Ledger(Book(capital, [], [])) == multiset{}
  {
  }

  lemma OpenedOnce(cfg: Config, k: nat, key: Key)
    requires k < |cfg.times| && Ready(cfg)
    ensures key.1 == cfg.times[k] ==> !WasOpened(cfg, k, key)
    ensures WasOpened(cfg, k + 1, key) <==> WasOpened(cfg, k, key) || OpenedIn(cfg, k, key)
    ensures OpenedIn(cfg, k, key) ==> key.1 == cfg.times[k]
  {
    hide Ready, RunTo;
    forall i | 0 <= i < k ensures cfg.times[i] < cfg.times[k] {
      TimesIncrease(cfg, i, k);
    }
  }

  /** Nor does the liquidation lose or duplicate a position. */
  lemma FinalLedger(cfg: Config, key: Key)
    requires cfg.times != [] && !FinalRun(cfg).raised && Ready(cfg)
    ensures Ledger(FinalRun(cfg).book)[key] == if WasOpened(cfg, |cfg.times|, key) then 1 else 0
  {
    hide *;
    var b := RunTo(cfg, |cfg.times|).book;
    FinalShape(cfg);
    LedgerExact(cfg, |cfg.times|, key);
    FinalFaithful(cfg, b.positions);
    SweepBookAccounts(b, FinalJudge(cfg));
  }

  // ---------------------------------------------------------------- what a sweep leaves behind

  /** Strictly inside the stop-loss/take-profit band, above the trailing stop, younger than the
      time stop, and with the best profit up to date. */
  ghost predicate InsideBand(p: Position, price: real, params: ExitParams, now: Time)
    requires p.entryPrice != 0.0
  {
    var pnl := PnlPct(p.entryPrice, p.isShort, price);
    && params.stopLoss.GetOr(-0.01) < pnl < params.takeProfit.GetOr(0.01)
    && pnl <= p.maxProfit
    && (Truthy(params.trailingTrigger) && p.maxProfit >= params.trailingTrigger.value ==>
          pnl > p.maxProfit - params.trailingStop.GetOr(0.005))
    && (Truthy(params.timeStop) ==> Minutes(p.entryTime, now) < params.timeStop.value)
  }

  /** Every priced position that survives a sweep is inside its band. */
  lemma SurvivorsInsideBand(b: Book, prices: map<Symbol, real>, params: ExitParams, now: Time, i: nat)
    requires i < |SweepBook(b, Judger(prices, Exits(params), now)).positions|
    ensures var p := SweepBook(b, Judger(prices, Exits(params), now)).positions[i];
            p.symbol in prices && prices[p.symbol] != 0.0 ==>
              p.entryPrice != 0.0 && InsideBand(p, prices[p.symbol], params, now)
  {
    var judge := Judger(prices, Exits(params), now);
    SweepOrigins(b.positions, judge);
    var p := Sweep(b.positions, judge).kept[i];
    var j :| 0 <= j < |b.positions| && judge(b.positions[j]) == Keep(p);
    KeptInsideBand(b.positions[j], p, prices, params, now);
  }

  lemma KeptInsideBand(p: Position, q: Position, prices: map<Symbol, real>, params: ExitParams, now: Time)
    requires Judge(p, prices, Exits(params), now) == Keep(q)
    ensures q.symbol in prices && prices[q.symbol] != 0.0 ==>
              q.entryPrice != 0.0 && InsideBand(q, prices[q.symbol], params, now)
  {
  }
}
