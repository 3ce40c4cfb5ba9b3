/** The life of every position of a run, told from the price data alone: it is entered with its share of
    the cash, a trade ends at the first sweep at which any exit rule fires and books the stake times the
    price move, and an open position has seen none fire. */
module PositionLife {
  import opened PySeq
  import opened Reals
  import opened History
  import opened Signals
  import opened TimeOrder
  import opened Backtest
  import opened BacktestLaws
  import opened Stakes

  /** What identifies a position for the exit rules. */
  datatype Stake = Stake(symbol: Symbol, entryPrice: real, isShort: bool)

  function StakeOf(p: Position): Stake {
    Stake(p.symbol, p.entryPrice, p.isShort)
  }

  function StakeOfTrade(t: Trade): Stake {
    Stake(t.symbol, t.entryPrice, t.isShort)
  }

  function PriceAt(cfg: Config, i: nat, symbol: Symbol): Option<real>
    requires i < |cfg.times|
  {
    var prices := PricesAt(cfg.series, cfg.times[i]);
    if symbol in prices then Some(prices[symbol]) else None
  }

  /** The profit the sweep at timestamp i sees, if it looks at the position at all. */
  function PnlAt(cfg: Config, s: Stake, i: nat): Option<real>
    requires i < |cfg.times|
  {
    var price := PriceAt(cfg, i, s.symbol);
    if !Truthy(price) || s.entryPrice == 0.0 then None else Some(PnlPct(s.entryPrice, s.isShort, price.value))
  }

  /** The larger of 0 and every profit seen by the sweeps after timestamp j, up to timestamp i. */
  function BestPnl(cfg: Config, s: Stake, j: nat, i: nat): real
    requires j <= i < |cfg.times|
  {
    if i == j then 0.0
    else
      var best := BestPnl(cfg, s, j, i - 1);
      match PnlAt(cfg, s, i)
      case None => best
      case Some(pnl) => Max(best, pnl)
  }

  /** The rule that fires at timestamp i for a stake entered at timestamp j. */
  function Fires(cfg: Config, s: Stake, j: nat, i: nat): Option<Reason>
    requires j <= i < |cfg.times|
  {
    match PnlAt(cfg, s, i)
    case None => None
    case Some(pnl) => ExitReason(pnl, BestPnl(cfg, s, j, i), cfg.times[j], cfg.params, cfg.times[i])
  }

  ghost predicate Quiet(cfg: Config, s: Stake, j: nat, i: nat)
    requires i <= |cfg.times|
  {
    forall m :: j < m < i ==> Fires(cfg, s, j, m).None?
  }

  /** The rules as bounds: on the profit, on the best profit since the entry, and on the age in microseconds.
      An earlier rule takes precedence. */
  ghost predicate Triggers(r: Reason, pnl: real, best: real, age: Time, params: ExitParams) {
    var loss := if params.stopLoss.Some? then params.stopLoss.value else -0.01;
    var gain := if params.takeProfit.Some? then params.takeProfit.value else 0.01;
    var trail := if params.trailingStop.Some? then params.trailingStop.value else 0.005;
    var trails := params.trailingTrigger.Some? && params.trailingTrigger.value != 0.0
                  && params.trailingTrigger.value <= best && pnl + trail <= best;
    match r
    case StopLoss => pnl <= loss
    case TakeProfit => loss < pnl && gain <= pnl
    case TrailingStop => loss < pnl < gain && trails
    case TimeStop =>
      loss < pnl < gain && !trails
      && params.timeStop.Some? && params.timeStop.value != 0.0 && params.timeStop.value * 60000000.0 <= age as real
    case BacktestEnd => false
  }

  lemma MinutesAtLeast(from: Time, to: Time, m: real)
    ensures Minutes(from, to) >= m <==> m * 60000000.0 <= (to - from) as real
  {
  }

  /** Which rule ends a position, if any, both ways. */
  lemma ReasonExactly(pnl: real, best: real, entryTime: Time, params: ExitParams, now: Time, r: Reason)
    ensures ExitReason(pnl, best, entryTime, params, now) == Some(r) <==> Triggers(r, pnl, best, now - entryTime, params)
  {
    if params.timeStop.Some? {
      MinutesAtLeast(entryTime, now, params.timeStop.value);
    }
    hide Minutes;
  }

  /** The best profit is 0 or one the sweeps have seen, and no sweep has seen a larger one. */
  lemma {:induction false} BestIsLargest(cfg: Config, s: Stake, j: nat, i: nat)
    requires j <= i < |cfg.times|
    ensures BestPnl(cfg, s, j, i) >= 0.0
    ensures forall m :: j < m <= i && PnlAt(cfg, s, m).Some? ==> PnlAt(cfg, s, m).value <= BestPnl(cfg, s, j, i)
    ensures BestPnl(cfg, s, j, i) == 0.0 || exists m :: j < m <= i && PnlAt(cfg, s, m) == Some(BestPnl(cfg, s, j, i))
  {
    hide PnlAt;
    if i == j {
    } else {
      BestIsLargest(cfg, s, j, i - 1);
    }
  }

  /** What an entry of this symbol at timestamp j stakes: with c the cash after the exits and p the
      strategy's share, p * c * (1 - p)^m after m earlier entries of the timestamp. */
  function StakeAt(cfg: Config, j: nat, s: Symbol): real
    requires j < |cfg.times|
  {
    var b, p := AfterSweep(cfg, j), Share(cfg.strategy);
    var i := IndexOf(RunTo(cfg, j + 1).book.positions, s);
    if i < |b.positions| then 0.0 else p * (b.cash * Pow(1.0 - p, i - |b.positions|))
  }

  /** The price difference in the position's favour. */
  function Move(t: Trade): real {
    if t.isShort then t.entryPrice - t.exitPrice else t.exitPrice - t.entryPrice
  }

  /** The profit is the staked value times the relative price move. */
  ghost predicate Booked(t: Trade, value: real) {
    && t.entryPrice != 0.0
    && t.pnlPct * t.entryPrice == Move(t)
    && t.pnl * t.entryPrice == value * Move(t)
  }

  lemma Cancel(a: real, b: real, n: real)
    requires n != 0.0 && a * n == b * n
    ensures a == b
  {
    DivUnique(a * n, n, a);
    DivUnique(b * n, n, b);
  }

  lemma LongBooked(value: real, entry: real, price: real, pct: real)
    requires entry != 0.0 && value != 0.0 && pct == ((value / entry) * price - value) / value
    ensures ((value / entry) * price - value) * entry == value * (price - entry)
    ensures pct * entry == price - entry
  {
    var q := value / entry;
    DivMul(value, entry);
    Associate(q, price, entry);
    Associate(q, entry, price);
    Distribute(price, entry, value);
    var pnl := q * price - value;
    assert pnl * entry == value * (price - entry) by { Distribute(q * price, value, entry); }
    DivMul(pnl, value);
    assert (pct * entry) * value == (price - entry) * value by {
      Associate(pct, entry, value);
      Associate(pct, value, entry);
    }
    Cancel(pct * entry, price - entry, value);
  }

  /** Closing books the position's own value; the cash gets that value plus the profit. */
  lemma CloseBooks(p: Position, price: real, reason: Reason, now: Time)
    requires Closable(p)
    ensures var v := Close(p, price, reason, now);
            && v.Exit? && Booked(v.trade, p.value) && v.proceeds == p.value + v.trade.pnl
            && v.trade.exitPrice == price && v.trade.reason == reason && v.trade.exitTime == now
            && v.trade.pnlPct == PnlPct(p.entryPrice, p.isShort, price)
  {
    hide Booked;
    if p.isShort {
      ShortBooks(p, price, reason, now);
    } else {
      LongBooks(p, price, reason, now);
    }
  }

  lemma ShortBooked(value: real, entry: real, price: real, pct: real)
    requires entry != 0.0 && pct == (entry - price) / entry
    ensures pct * entry == entry - price && (value * pct) * entry == value * (entry - price)
  {
    DivMul(entry - price, entry);
    Associate(value, pct, entry);
  }

  lemma ShortBooks(p: Position, price: real, reason: Reason, now: Time)
    requires Closable(p) && p.isShort
    ensures var v := Close(p, price, reason, now); v.Exit? && Booked(v.trade, p.value)
  {
    ShortBooked(p.value, p.entryPrice, price, (p.entryPrice - price) / p.entryPrice);
  }

  lemma LongBooks(p: Position, price: real, reason: Reason, now: Time)
    requires Closable(p) && !p.isShort
    ensures var v := Close(p, price, reason, now);
            v.Exit? && Booked(v.trade, p.value) && v.trade.pnlPct == (price - p.entryPrice) / p.entryPrice
  {
    var pct := ((p.value / p.entryPrice) * price - p.value) / p.value;
    LongBooked(p.value, p.entryPrice, price, pct);
    DivUnique(price - p.entryPrice, p.entryPrice, pct);
  }

  /** p was entered at timestamp j at that timestamp's price and has survived every sweep before k. */
  ghost predicate Lives(cfg: Config, p: Position, j: nat, k: nat)
    requires k <= |cfg.times|
  {
    && j < k
    && p.entryTime == cfg.times[j]
    && PriceAt(cfg, j, p.symbol) == Some(p.entryPrice)
    && p.value == StakeAt(cfg, j, p.symbol)
    && p.maxProfit == BestPnl(cfg, StakeOf(p), j, k - 1)
    && Quiet(cfg, StakeOf(p), j, k)
  }

  /** t was entered at timestamp j and closed at timestamp i, the first at which a rule fired, by that
      rule, and books what was staked at timestamp j times the price move. */
  ghost predicate Died(cfg: Config, t: Trade, j: nat, i: nat)
    requires i < |cfg.times|
  {
    && j < i
    && t.entryTime == cfg.times[j] && t.exitTime == cfg.times[i]
    && PriceAt(cfg, j, t.symbol) == Some(t.entryPrice)
    && PriceAt(cfg, i, t.symbol) == Some(t.exitPrice)
    && Booked(t, StakeAt(cfg, j, t.symbol))
    && Triggers(t.reason, t.pnlPct, BestPnl(cfg, StakeOfTrade(t), j, i), t.exitTime - t.entryTime, cfg.params)
    && Quiet(cfg, StakeOfTrade(t), j, i)
  }

  ghost predicate IsAlive(cfg: Config, p: Position, k: nat)
    requires k <= |cfg.times|
  {
    exists j :: Lives(cfg, p, j, k)
  }

  ghost predicate IsExplained(cfg: Config, t: Trade, k: nat)
    requires k <= |cfg.times|
  {
    exists j, i | 0 <= j < i < k :: Died(cfg, t, j, i)
  }

  lemma SweepOne(cfg: Config, p: Position, j: nat, k: nat)
    requires k < |cfg.times| && Lives(cfg, p, j, k)
    ensures var v := ExitJudge(cfg, cfg.times[k])(p);
            && (v.Keep? ==> Lives(cfg, v.position, j, k + 1))
            && (v.Exit? ==> Died(cfg, v.trade, j, k))
  {
    hide Close, ExitReason, StakeAt, Triggers, PricesAt, Quiet;
    var prices := PricesAt(cfg.series, cfg.times[k]);
    var v := Judge(p, prices, Exits(cfg.params), cfg.times[k]);
    if v.Keep? {
      KeepLives(cfg, p, v.position, j, k);
    } else if v.Exit? {
      ExitDies(cfg, p, v, j, k);
    }
  }

  lemma ExitDies(cfg: Config, p: Position, v: Verdict, j: nat, k: nat)
    requires k < |cfg.times| && Lives(cfg, p, j, k) && v.Exit?
    requires Judge(p, PricesAt(cfg.series, cfg.times[k]), Exits(cfg.params), cfg.times[k]) == v
    ensures Died(cfg, v.trade, j, k)
  {
    hide Close, ExitReason, StakeAt, Triggers, PricesAt, Quiet;
    var price := PricesAt(cfg.series, cfg.times[k])[p.symbol];
    var pnl := PnlPct(p.entryPrice, p.isShort, price);
    var q := if pnl > p.maxProfit then p.(maxProfit := pnl) else p;
    var reason := ExitReason(pnl, q.maxProfit, q.entryTime, cfg.params, cfg.times[k]);
    CloseRaises(q, price, reason.value, cfg.times[k]);
    CloseBooks(q, price, reason.value, cfg.times[k]);
    CloseKeeps(q, price, reason.value, cfg.times[k]);
    ReasonExactly(pnl, q.maxProfit, q.entryTime, cfg.params, cfg.times[k], reason.value);
    assert StakeOfTrade(v.trade) == StakeOf(p);
    assert q.maxProfit == BestPnl(cfg, StakeOf(p), j, k);
  }

  /** Closing keeps what identifies the position. */
  lemma CloseKeeps(p: Position, price: real, reason: Reason, now: Time)
    requires Closable(p)
    ensures var t := Close(p, price, reason, now).trade; StakeOfTrade(t) == StakeOf(p) && t.entryTime == p.entryTime
  {
  }

  lemma KeepLives(cfg: Config, p: Position, q: Position, j: nat, k: nat)
    requires k < |cfg.times| && Lives(cfg, p, j, k)
    requires Judge(p, PricesAt(cfg.series, cfg.times[k]), Exits(cfg.params), cfg.times[k]) == Keep(q)
    ensures Lives(cfg, q, j, k + 1)
  {
    hide Close, ExitReason, StakeAt, PricesAt;
    assert StakeOf(q) == StakeOf(p);
    assert q.maxProfit == BestPnl(cfg, StakeOf(q), j, k);
    assert Fires(cfg, StakeOf(q), j, k).None?;
  }

  lemma EntryLives(cfg: Config, p: Position, sig: Signal, k: nat)
    requires k < |cfg.times| && OpenedBy(p, sig, PricesAt(cfg.series, cfg.times[k]), cfg.times[k])
    requires p.value == StakeAt(cfg, k, p.symbol)
    ensures Lives(cfg, p, k, k + 1)
  {
    hide StakeAt, PricesAt;
  }

  /** A new position has the stake of its place among the timestamp's entries. */
  lemma EntryStaked(cfg: Config, k: nat, x: nat)
    requires k < |cfg.times| && !RunTo(cfg, k + 1).raised
    requires |AfterSweep(cfg, k).positions| <= x < |RunTo(cfg, k + 1).book.positions|
    ensures var p := RunTo(cfg, k + 1).book.positions[x]; p.value == StakeAt(cfg, k, p.symbol)
  {
    hide RunTo, AfterSweep, Pow, Share, IndexOf;
    EntryStakes(cfg, k);
    RunDistinct(cfg, k + 1);
    var ps := RunTo(cfg, k + 1).book.positions;
    assert IndexOf(ps, ps[x].symbol) == x;
  }

  ghost predicate AllAlive(cfg: Config, ps: seq<Position>, k: nat)
    requires k <= |cfg.times|
  {
    forall x :: 0 <= x < |ps| ==> IsAlive(cfg, ps[x], k)
  }

  ghost predicate AllExplained(cfg: Config, ts: seq<Trade>, k: nat)
    requires k <= |cfg.times|
  {
    forall x :: 0 <= x < |ts| ==> IsExplained(cfg, ts[x], k)
  }

  lemma SweepAlive(cfg: Config, ps: seq<Position>, k: nat)
    requires k < |cfg.times| && AllAlive(cfg, ps, k)
    ensures AllAlive(cfg, Sweep(ps, ExitJudge(cfg, cfg.times[k])).kept, k + 1)
    ensures AllExplained(cfg, Sweep(ps, ExitJudge(cfg, cfg.times[k])).closed, k + 1)
  {
    hide Sweep, Judger, PricesAt, Lives, Died;
    var judge := ExitJudge(cfg, cfg.times[k]);
    var r := Sweep(ps, judge);
    SweepOrigins(ps, judge);
    forall x | 0 <= x < |r.kept| ensures IsAlive(cfg, r.kept[x], k + 1) {
      assert KeptBy(ps, judge, r.kept[x]);
      var y :| 0 <= y < |ps| && judge(ps[y]) == Keep(r.kept[x]);
      assert IsAlive(cfg, ps[y], k);
      var j :| Lives(cfg, ps[y], j, k);
      SweepOne(cfg, ps[y], j, k);
    }
    forall x | 0 <= x < |r.closed| ensures IsExplained(cfg, r.closed[x], k + 1) {
      assert ClosedBy(ps, judge, r.closed[x]);
      var y :| 0 <= y < |ps| && judge(ps[y]).Exit? && judge(ps[y]).trade == r.closed[x];
      var j :| Lives(cfg, ps[y], j, k);
      SweepOne(cfg, ps[y], j, k);
      DiedLater(cfg, r.closed[x], j, k);
    }
  }

  lemma DiedLater(cfg: Config, t: Trade, j: nat, i: nat)
    requires i < |cfg.times| && Died(cfg, t, j, i)
    ensures j < i && IsExplained(cfg, t, i + 1)
  {
  }

  lemma EntriesAlive(cfg: Config, k: nat)
    requires k < |cfg.times| && !RunTo(cfg, k + 1).raised
    requires Distinct(AfterSweep(cfg, k).positions) && AllAlive(cfg, AfterSweep(cfg, k).positions, k + 1)
    ensures AllAlive(cfg, RunTo(cfg, k + 1).book.positions, k + 1)
  {
    hide RunTo, AfterSweep, PricesAt, Lives, SignalsOf, OpenAll, StakeAt;
    StepShape(cfg, k);
    var t, prices, b := cfg.times[k], PricesAt(cfg.series, cfg.times[k]), AfterSweep(cfg, k);
    var sigs, ps := FirstFive(SignalsOf(cfg, k).signals), RunTo(cfg, k + 1).book.positions;
    OpenAllAppends(b, sigs, prices, t);
    forall x | 0 <= x < |ps| ensures IsAlive(cfg, ps[x], k + 1) {
      if x < |b.positions| {
        assert ps[x] == ps[..|b.positions|][x];
        assert IsAlive(cfg, b.positions[x], k + 1);
      } else {
        assert OpenedByAny(ps[x], sigs, prices, t);
        var m :| 0 <= m < |sigs| && OpenedBy(ps[x], sigs[m], prices, t);
        EntryStaked(cfg, k, x);
        EntryLives(cfg, ps[x], sigs[m], k);
      }
    }
  }

  lemma TradesExplained(cfg: Config, earlier: seq<Trade>, closed: seq<Trade>, k: nat)
    requires k < |cfg.times| && AllExplained(cfg, earlier, k) && AllExplained(cfg, closed, k + 1)
    ensures AllExplained(cfg, earlier + closed, k + 1)
  {
    hide Died;
    forall x | 0 <= x < |earlier + closed| ensures IsExplained(cfg, (earlier + closed)[x], k + 1) {
      if x < |earlier| {
        assert IsExplained(cfg, earlier[x], k);
        var j, i :| 0 <= j < i < k && Died(cfg, earlier[x], j, i);
        assert Died(cfg, (earlier + closed)[x], j, i);
      } else {
        assert IsExplained(cfg, closed[x - |earlier|], k + 1);
      }
    }
  }

  /** After any number of timestamps of any run: every open position has lived through sweeps at
      which no rule fired and carries the best profit seen since its entry, and every trade was
      closed by the first rule to fire, at the first timestamp at which one fired. */
  lemma {:induction false} LivesAndDeaths(cfg: Config, k: nat)
    requires k <= |cfg.times| && !RunTo(cfg, k).raised
    ensures AllAlive(cfg, RunTo(cfg, k).book.positions, k)
    ensures AllExplained(cfg, RunTo(cfg, k).book.trades, k)
  {
    hide *;
    RunStart(cfg);
    if k > 0 {
      RaisedStays(cfg, k - 1);
      LivesAndDeaths(cfg, k - 1);
      StepLives(cfg, k - 1);
    } else {
      NothingYet(cfg);
    }
  }

  lemma NothingYet(cfg: Config)
    ensures AllAlive(cfg, [], 0) && AllExplained(cfg, [], 0)
  {
  }

  lemma StepLives(cfg: Config, k: nat)
    requires k < |cfg.times| && !RunTo(cfg, k + 1).raised
    requires AllAlive(cfg, RunTo(cfg, k).book.positions, k) && AllExplained(cfg, RunTo(cfg, k).book.trades, k)
    ensures AllAlive(cfg, RunTo(cfg, k + 1).book.positions, k + 1)
    ensures AllExplained(cfg, RunTo(cfg, k + 1).book.trades, k + 1)
  {
    StepShape(cfg, k);
    RunDistinct(cfg, k);
    AfterSweepDistinct(cfg, k);
    var t, b, sigs := cfg.times[k], RunTo(cfg, k).book, FirstFive(SignalsOf(cfg, k).signals);
    SweepAlive(cfg, b.positions, k);
    TradesExplained(cfg, b.trades, Sweep(b.positions, ExitJudge(cfg, t)).closed, k);
    EntriesAlive(cfg, k);
    OpenAllConserves(AfterSweep(cfg, k), sigs, PricesAt(cfg.series, t), t);
  }

  /** t was entered at timestamp j, no rule ever fired, and the end of the data closed it. */
  ghost predicate Liquidated(cfg: Config, t: Trade, j: nat)
    requires cfg.times != []
  {
    var n := |cfg.times|;
    && j < n
    && t.entryTime == cfg.times[j] && t.exitTime == cfg.times[n - 1] && t.reason == BacktestEnd
    && PriceAt(cfg, j, t.symbol) == Some(t.entryPrice)
    && PriceAt(cfg, n - 1, t.symbol) == Some(t.exitPrice)
    && Booked(t, StakeAt(cfg, j, t.symbol))
    && Quiet(cfg, StakeOfTrade(t), j, n)
  }

  ghost predicate IsLiquidated(cfg: Config, t: Trade)
    requires cfg.times != []
  {
    exists j :: Liquidated(cfg, t, j)
  }

  lemma LiquidateOne(cfg: Config, p: Position, j: nat)
    requires cfg.times != [] && Lives(cfg, p, j, |cfg.times|)
    ensures var n := |cfg.times|;
            var v := Judge(p, PricesAt(cfg.series, cfg.times[n - 1]), Liquidation, cfg.times[n - 1]);
            && (v.Keep? ==> v.position == p && PriceAt(cfg, n - 1, p.symbol).None?)
            && (v.Exit? ==> Liquidated(cfg, v.trade, j))
  {
    hide Close, StakeAt, PricesAt, Quiet;
    var t, prices := cfg.times[|cfg.times| - 1], PricesAt(cfg.series, cfg.times[|cfg.times| - 1]);
    if p.symbol in prices && Closable(p) {
      CloseBooks(p, prices[p.symbol], BacktestEnd, t);
      CloseKeeps(p, prices[p.symbol], BacktestEnd, t);
    } else if p.symbol in prices {
      CloseRaises(p, prices[p.symbol], BacktestEnd, t);
    }
  }

  /** Each trade was closed by the first rule to fire or, no rule having fired, by the end of the
      data; what stays open has no price at the last timestamp. */
  ghost predicate Ended(cfg: Config, b: Book)
    requires cfg.times != []
  {
    && (forall x :: 0 <= x < |b.trades| ==> IsExplained(cfg, b.trades[x], |cfg.times|) || IsLiquidated(cfg, b.trades[x]))
    && (forall x :: 0 <= x < |b.positions| ==> PriceAt(cfg, |cfg.times| - 1, b.positions[x].symbol).None?)
  }

  /** How every completed run ends. */
  lemma FinalLives(cfg: Config)
    requires cfg.times != [] && !FinalRun(cfg).raised
    ensures Ended(cfg, FinalRun(cfg).book)
  {
    hide RunTo, FinalRun, Ended, AllAlive, AllExplained, SweepRaises, SweepBook, Judger, PricesAt;
    FinalShape(cfg);
    LivesAndDeaths(cfg, |cfg.times|);
    LiquidatedBook(cfg, RunTo(cfg, |cfg.times|).book, FinalJudge(cfg));
  }

  lemma LiquidatedBook(cfg: Config, b: Book, judge: Position -> Verdict)
    requires cfg.times != [] && AllAlive(cfg, b.positions, |cfg.times|) && AllExplained(cfg, b.trades, |cfg.times|)
    requires judge == Judger(PricesAt(cfg.series, cfg.times[|cfg.times| - 1]), Liquidation, cfg.times[|cfg.times| - 1])
    ensures Ended(cfg, SweepBook(b, judge))
  {
    var closed := Sweep(b.positions, judge).closed;
    forall x | 0 <= x < |closed| ensures IsLiquidated(cfg, closed[x]) {
      ClosedLiquidated(cfg, b.positions, judge, closed[x]);
    }
    var kept := Sweep(b.positions, judge).kept;
    forall x | 0 <= x < |kept| ensures PriceAt(cfg, |cfg.times| - 1, kept[x].symbol).None? {
      KeptUnpriced(cfg, b.positions, judge, kept[x]);
    }
    SweepOrigins(b.positions, judge);
  }

  lemma ClosedLiquidated(cfg: Config, ps: seq<Position>, judge: Position -> Verdict, t: Trade)
    requires cfg.times != [] && AllAlive(cfg, ps, |cfg.times|)
    requires judge == Judger(PricesAt(cfg.series, cfg.times[|cfg.times| - 1]), Liquidation, cfg.times[|cfg.times| - 1])
    requires t in Sweep(ps, judge).closed
    ensures IsLiquidated(cfg, t)
  {
    hide Sweep, Lives, Liquidated, PricesAt;
    SweepOrigins(ps, judge);
    assert ClosedBy(ps, judge, t);
    var y :| 0 <= y < |ps| && judge(ps[y]).Exit? && judge(ps[y]).trade == t;
    assert IsAlive(cfg, ps[y], |cfg.times|);
    var j :| Lives(cfg, ps[y], j, |cfg.times|);
    LiquidateOne(cfg, ps[y], j);
    assert Liquidated(cfg, t, j);
  }

  lemma KeptUnpriced(cfg: Config, ps: seq<Position>, judge: Position -> Verdict, q: Position)
    requires cfg.times != [] && AllAlive(cfg, ps, |cfg.times|)
    requires judge == Judger(PricesAt(cfg.series, cfg.times[|cfg.times| - 1]), Liquidation, cfg.times[|cfg.times| - 1])
    requires q in Sweep(ps, judge).kept
    ensures PriceAt(cfg, |cfg.times| - 1, q.symbol).None?
  {
    hide Sweep, Lives, Liquidated, PricesAt;
    SweepOrigins(ps, judge);
    assert KeptBy(ps, judge, q);
    var y :| 0 <= y < |ps| && judge(ps[y]) == Keep(q);
    assert IsAlive(cfg, ps[y], |cfg.times|);
    var j :| Lives(cfg, ps[y], j, |cfg.times|);
    LiquidateOne(cfg, ps[y], j);
  }
}
