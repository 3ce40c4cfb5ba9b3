/**
 * The average-cost recomputation of realised profit inside `fix_trade_prices`
 * (src/api/routes_analytics.py).
 */
module AverageCost {
  import opened PySeq
  import opened Reals

  datatype Side = Buy | Sell

  datatype Fill = Fill(symbol: string, side: Side, price: real, quantity: real)

  /** A stored trade; the pass rewrites its `realized_pnl` only. */
  class TradeModel {
    const fill: Fill
    var realizedPnl: real

    constructor (f: Fill, pnl: real)
      ensures fill == f && realizedPnl == pnl
    {
      fill, realizedPnl := f, pnl;
    }
  }

  /** `buy_total_cost` and `buy_total_qty` */
  datatype Book = Book(cost: real, qty: real)

  function Average(b: Book): real
    requires b.qty != 0.0
  {
    b.cost / b.qty
  }

  /** The sells the pass recomputes: those that find something bought. */
  predicate Processed(b: Book, f: Fill) {
    f.side.Sell? && b.qty > 0.0
  }

  function Times(a: real, b: real): real {
    a * b
  }

  function Step(b: Book, f: Fill): Book {
    if f.side.Buy? then Book(b.cost + Times(f.price, f.quantity), b.qty + f.quantity)
    else if b.qty > 0.0 then Book(Times(Average(b), b.qty - f.quantity), b.qty - f.quantity)
    else b
  }

  function NewPnl(b: Book, f: Fill, stored: real): real {
    if f.side.Buy? then 0.0
    else if b.qty > 0.0 then Times(f.price - Average(b), f.quantity)
    else stored
  }

  function BookOf(fs: seq<Fill>): Book {
    if fs == [] then Book(0.0, 0.0) else Step(BookOf(fs[..|fs| - 1]), fs[|fs| - 1])
  }

  /** The sum of all the profits the pass writes. */
  function Realised(fs: seq<Fill>): real {
    if fs == [] then 0.0
    else Realised(fs[..|fs| - 1]) + NewPnl(BookOf(fs[..|fs| - 1]), fs[|fs| - 1], 0.0)
  }

  /** What the recomputed sells brought in. */
  function Proceeds(fs: seq<Fill>): real {
    if fs == [] then 0.0
    else
      var f := fs[|fs| - 1];
      Proceeds(fs[..|fs| - 1]) + if Processed(BookOf(fs[..|fs| - 1]), f) then Times(f.price, f.quantity) else 0.0
  }

  /** The value of all fills on one side, whether recomputed or not. */
  function Turnover(fs: seq<Fill>, side: Side): real {
    if fs == [] then 0.0
    else
      var f := fs[|fs| - 1];
      Turnover(fs[..|fs| - 1], side) + if f.side == side then Times(f.price, f.quantity) else 0.0
  }

  /** The value of the sells the pass leaves alone. */
  function Skipped(fs: seq<Fill>): real {
    if fs == [] then 0.0
    else
      var f := fs[|fs| - 1];
      Skipped(fs[..|fs| - 1])
        + if f.side.Sell? && !Processed(BookOf(fs[..|fs| - 1]), f) then Times(f.price, f.quantity) else 0.0
  }

  function Volume(fs: seq<Fill>, side: Side): real {
    if fs == [] then 0.0
    else
      var f := fs[|fs| - 1];
      Volume(fs[..|fs| - 1], side) + if f.side == side then f.quantity else 0.0
  }

  function ProcessedCount(fs: seq<Fill>): nat {
    if fs == [] then 0
    else ProcessedCount(fs[..|fs| - 1]) + if Processed(BookOf(fs[..|fs| - 1]), fs[|fs| - 1]) then 1 else 0
  }

  // ---------------------------------------------------------------- the pass

  function Fills(ts: seq<TradeModel>): (r: seq<Fill>)
    ensures |r| == |ts| && forall i :: 0 <= i < |ts| ==> r[i] == ts[i].fill
  {
    seq(|ts|, i requires 0 <= i < |ts| => ts[i].fill)
  }

  /** The trades of one symbol, in order. */
  function OfSymbol(ts: seq<TradeModel>, symbol: string): (r: seq<TradeModel>)
    ensures forall t :: t in r ==> t in ts && t.fill.symbol == symbol
    ensures forall t :: t in ts && t.fill.symbol == symbol ==> t in r
  {
    if ts == [] then []
    else
      var t := ts[|ts| - 1];
      assert ts == ts[..|ts| - 1] + [t];
      OfSymbol(ts[..|ts| - 1], symbol) + if t.fill.symbol == symbol then [t] else []
  }

  /** The symbols in the order they first appear. */
  function Symbols(ts: seq<TradeModel>): seq<string> {
    if ts == [] then []
    else
      var seen, symbol := Symbols(ts[..|ts| - 1]), ts[|ts| - 1].fill.symbol;
      if symbol in seen then seen else seen + [symbol]
  }

  function CountAll(ts: seq<TradeModel>, symbols: seq<string>): nat {
    if symbols == [] then 0
    else CountAll(ts, symbols[..|symbols| - 1]) + ProcessedCount(Fills(OfSymbol(ts, symbols[|symbols| - 1])))
  }

  /** The book a trade meets: that of its own symbol's earlier trades. */
  function BookBefore(ts: seq<TradeModel>, i: nat): Book
    requires i < |ts|
  {
    BookOf(Fills(OfSymbol(ts[..i], ts[i].fill.symbol)))
  }

  ghost predicate Rewritten(t: TradeModel, b: Book, stored: real)
    reads t
  {
    t.realizedPnl == NewPnl(b, t.fill, stored)
  }

  lemma Advance(fs: seq<Fill>, i: nat)
    requires i < |fs|
    ensures BookOf(fs[..i + 1]) == Step(BookOf(fs[..i]), fs[i])
    ensures ProcessedCount(fs[..i + 1]) == ProcessedCount(fs[..i]) + if Processed(BookOf(fs[..i]), fs[i]) then 1 else 0
  {
    assert fs[..i + 1][..i] == fs[..i];
  }

  /** The inner loop: one symbol's trades. */
  method RecomputeSymbol(ts: seq<TradeModel>) returns (recalculated: nat)
    requires NoRepeats(ts)
    modifies set t | t in ts
    ensures forall j :: 0 <= j < |ts| ==> Rewritten(ts[j], BookOf(Fills(ts)[..j]), old(ts[j].realizedPnl))
    ensures recalculated == ProcessedCount(Fills(ts))
  {
    hide BookOf, ProcessedCount, Times, Average;
    ghost var fs := Fills(ts);
    var cost, qty := 0.0, 0.0;
    recalculated := 0;
    EmptyBook(fs);
    for i := 0 to |ts|
      invariant Book(cost, qty) == BookOf(fs[..i])
      invariant recalculated == ProcessedCount(fs[..i])
      invariant forall j :: 0 <= j < i ==> Rewritten(ts[j], BookOf(fs[..j]), old(ts[j].realizedPnl))
      invariant forall j :: i <= j < |ts| ==> ts[j].realizedPnl == old(ts[j].realizedPnl)
    {
      Advance(fs, i);
      var t := ts[i];
      if t.fill.side.Buy? {
        cost := cost + Times(t.fill.price, t.fill.quantity);
        qty := qty + t.fill.quantity;
        t.realizedPnl := 0.0;
      } else if qty > 0.0 {
        var average := Average(Book(cost, qty));
        t.realizedPnl := Times(t.fill.price - average, t.fill.quantity);
        recalculated := recalculated + 1;
        qty := qty - t.fill.quantity;
        cost := Times(average, qty);
      }
    }
    assert fs[..|ts|] == fs;
  }

  lemma EmptyBook(fs: seq<Fill>)
    ensures BookOf(fs[..0]) == Book(0.0, 0.0) && ProcessedCount(fs[..0]) == 0
  {
  }

  lemma NoGroups(ts: seq<TradeModel>)
    ensures Symbols(ts[..0]) == [] && CountAll(ts, []) == 0 && forall s :: OfSymbol(ts[..0], s) == []
  {
  }

  lemma GroupStep(ts: seq<TradeModel>, i: nat)
    requires i < |ts|
    ensures forall s :: OfSymbol(ts[..i + 1], s) == OfSymbol(ts[..i], s) + if ts[i].fill.symbol == s then [ts[i]] else []
    ensures var seen, s := Symbols(ts[..i]), ts[i].fill.symbol;
            Symbols(ts[..i + 1]) == if s in seen then seen else seen + [s]
  {
    assert ts[..i + 1][..i] == ts[..i];
  }

  method GroupBySymbol(ts: seq<TradeModel>) returns (groups: map<string, seq<TradeModel>>, symbols: seq<string>)
    ensures symbols == Symbols(ts)
    ensures forall s :: s in groups <==> s in symbols
    ensures forall s :: s in groups ==> groups[s] == OfSymbol(ts, s)
    ensures forall s :: s !in groups ==> OfSymbol(ts, s) == []
  {
    hide OfSymbol, Symbols;
    groups, symbols := map[], [];
    NoGroups(ts);
    for i := 0 to |ts|
      invariant symbols == Symbols(ts[..i])
      invariant forall s :: s in groups <==> s in symbols
      invariant forall s :: s in groups ==> groups[s] == OfSymbol(ts[..i], s)
      invariant forall s :: s !in groups ==> OfSymbol(ts[..i], s) == []
    {
      var s := ts[i].fill.symbol;
      GroupStep(ts, i);
      if s in groups {
        groups := groups[s := groups[s] + [ts[i]]];
      } else {
        groups := groups[s := [ts[i]]];
        symbols := symbols + [s];
      }
    }
    assert ts[..|ts|] == ts;
  }

  /** The whole pass: every trade is rewritten from its own symbol's earlier trades alone. */
  method Recompute(ts: seq<TradeModel>) returns (recalculated: nat)
    requires NoRepeats(ts)
    modifies set t | t in ts
    ensures forall i :: 0 <= i < |ts| ==> Rewritten(ts[i], BookBefore(ts, i), old(ts[i].realizedPnl))
    ensures recalculated == CountAll(ts, Symbols(ts))
  {
    hide *;
    var groups, symbols := GroupBySymbol(ts);
    recalculated := 0;
    NoGroups(ts);
    SymbolsDistinct(ts);
    for k := 0 to |symbols|
      invariant recalculated == CountAll(ts, symbols[..k])
      invariant forall i :: 0 <= i < |ts| && ts[i].fill.symbol in symbols[..k] ==>
                  Rewritten(ts[i], BookBefore(ts, i), old(ts[i].realizedPnl))
      invariant forall i :: 0 <= i < |ts| && ts[i].fill.symbol !in symbols[..k] ==>
                  ts[i].realizedPnl == old(ts[i].realizedPnl)
    {
      CountStep(ts, symbols, k);
      assert symbols[..k + 1] == symbols[..k] + [symbols[k]];
      var s := symbols[k];
      assert s !in symbols[..k];
      var group := groups[s];
      assert group == OfSymbol(ts, s);
      OfSymbolDistinct(ts, s);
      assert forall t :: t in group ==> t in ts;
      var n := RecomputeSymbol(group);
      recalculated := recalculated + n;
      forall i | 0 <= i < |ts| && ts[i].fill.symbol == s ensures Rewritten(ts[i], BookBefore(ts, i), old(ts[i].realizedPnl)) {
        var j := Locate(ts, i);
        assert Rewritten(group[j], BookOf(Fills(group)[..j]), old(group[j].realizedPnl));
      }
    }
    assert symbols[..|symbols|] == symbols;
    forall i | 0 <= i < |ts| ensures ts[i].fill.symbol in symbols {
      assert ts[i] in OfSymbol(ts, ts[i].fill.symbol);
    }
  }

  lemma CountStep(ts: seq<TradeModel>, symbols: seq<string>, k: nat)
    requires k < |symbols|
    ensures CountAll(ts, symbols[..k + 1]) == CountAll(ts, symbols[..k]) + ProcessedCount(Fills(OfSymbol(ts, symbols[k])))
  {
    hide ProcessedCount, OfSymbol, Fills;
    assert symbols[..k + 1][..k] == symbols[..k];
  }

  /** A trade's place in its symbol's group. */
  lemma {:induction false} Locate(ts: seq<TradeModel>, i: nat) returns (j: nat)
    requires i < |ts|
    ensures j < |OfSymbol(ts, ts[i].fill.symbol)|
    ensures OfSymbol(ts, ts[i].fill.symbol)[j] == ts[i]
    ensures OfSymbol(ts, ts[i].fill.symbol)[..j] == OfSymbol(ts[..i], ts[i].fill.symbol)
    ensures BookOf(Fills(OfSymbol(ts, ts[i].fill.symbol))[..j]) == BookBefore(ts, i)
  {
    hide BookOf, OfSymbol;
    var n, s := |ts| - 1, ts[i].fill.symbol;
    GroupStep(ts, n);
    assert ts[..n + 1] == ts;
    var before := OfSymbol(ts[..n], s);
    if i == n {
      j := |before|;
    } else {
      assert ts[..n][..i] == ts[..i];
      j := Locate(ts[..n], i);
    }
    assert OfSymbol(ts, s)[..j] == before[..j];
    SameFills(OfSymbol(ts, s), j, OfSymbol(ts[..i], s));
  }

  lemma SameFills(ts: seq<TradeModel>, j: nat, prefix: seq<TradeModel>)
    requires j <= |ts| && ts[..j] == prefix
    ensures Fills(ts)[..j] == Fills(prefix)
  {
  }

  lemma {:induction false} OfSymbolDistinct(ts: seq<TradeModel>, s: string)
    requires NoRepeats(ts)
    ensures NoRepeats(OfSymbol(ts, s))
  {
    if ts == [] {
    } else {
      var n := |ts| - 1;
      OfSymbolDistinct(ts[..n], s);
      assert ts[n] !in ts[..n];
    }
  }

  lemma {:induction false} SymbolsDistinct(ts: seq<TradeModel>)
    ensures forall i, j :: 0 <= i < j < |Symbols(ts)| ==> Symbols(ts)[i] != Symbols(ts)[j]
  {
    if ts == [] {
    } else {
      SymbolsDistinct(ts[..|ts| - 1]);
    }
  }

  // ---------------------------------------------------------------- laws

  /** One processed sell: its profit and the cost it takes out of the book make up its price. */
  lemma SellSplits(b: Book, f: Fill)
    requires Processed(b, f)
    ensures NewPnl(b, f, 0.0) == Times(f.price, f.quantity) - b.cost + Step(b, f).cost
  {
    var average := Average(b);
    DivMul(b.cost, b.qty);
    assert average * b.qty == b.cost;
    assert (f.price - average) * f.quantity == f.price * f.quantity - average * f.quantity;
    assert average * (b.qty - f.quantity) == average * b.qty - average * f.quantity;
  }

  /** After any history: profit written = sell proceeds - buy costs + cost still on the book. */
  lemma {:induction false} Conservation(fs: seq<Fill>)
    ensures Realised(fs) == Proceeds(fs) - Turnover(fs, Buy) + BookOf(fs).cost
  {
    if fs == [] {
    } else {
      var n := |fs| - 1;
      Conservation(fs[..n]);
      var b := BookOf(fs[..n]);
      if Processed(b, fs[n]) {
        SellSplits(b, fs[n]);
      }
      hide Times, Average;
    }
  }

  /** A processed sell leaves the average cost of what remains unchanged. */
  lemma AverageKept(b: Book, f: Fill)
    requires Processed(b, f) && b.qty != f.quantity
    ensures Average(Step(b, f)) == Average(b)
  {
    DivUnique(Step(b, f).cost, Step(b, f).qty, Average(b));
  }

  /** No sell exceeds what is held when it arrives, and quantities are positive. */
  predicate NeverOversold(fs: seq<Fill>) {
    fs != [] ==>
      var before, f := fs[..|fs| - 1], fs[|fs| - 1];
      && NeverOversold(before)
      && f.quantity > 0.0
      && (f.side.Sell? ==> f.quantity <= BookOf(before).qty)
  }

  lemma TimesZero(a: real)
    ensures Times(a, 0.0) == 0.0
  {
  }

  /** Without overselling every sell is processed and the book holds what was bought and not sold. */
  lemma {:induction false} CoveredBook(fs: seq<Fill>)
    requires NeverOversold(fs)
    ensures BookOf(fs).qty == Volume(fs, Buy) - Volume(fs, Sell) >= 0.0
    ensures BookOf(fs).qty == 0.0 ==> BookOf(fs).cost == 0.0
    ensures Proceeds(fs) == Turnover(fs, Sell)
  {
    hide Average, Times;
    if fs == [] {
    } else {
      var b, f := BookOf(fs[..|fs| - 1]), fs[|fs| - 1];
      CoveredBook(fs[..|fs| - 1]);
      if f.side.Sell? {
        TimesZero(Average(b));
      }
    }
  }

  // ---------------------------------------------------------------- when the profit is proceeds less costs

  /** What a reader expects of the recomputed profit: everything sold less everything bought. */
  predicate Realises(fs: seq<Fill>) {
    Realised(fs) == Turnover(fs, Sell) - Turnover(fs, Buy)
  }

  lemma {:induction false} SellsSplit(fs: seq<Fill>)
    ensures Turnover(fs, Sell) == Proceeds(fs) + Skipped(fs)
  {
    hide Times, Average, BookOf;
    if fs == [] {
    } else {
      SellsSplit(fs[..|fs| - 1]);
    }
  }

  /** For every history: exactly when the cost left on the book is the value of the skipped sells. */
  lemma RealisesExactly(fs: seq<Fill>)
    ensures Realises(fs) <==> BookOf(fs).cost == Skipped(fs)
  {
    hide BookOf, Realised, Proceeds, Turnover, Skipped;
    Conservation(fs);
    SellsSplit(fs);
  }

  predicate Closed(fs: seq<Fill>) {
    Volume(fs, Buy) == Volume(fs, Sell)
  }

  /** Every sell meets the guard `buy_total_qty > 0`; it may still sell more than is held. */
  predicate AllProcessed(fs: seq<Fill>) {
    fs != [] ==>
      var before, f := fs[..|fs| - 1], fs[|fs| - 1];
      AllProcessed(before) && (f.side.Sell? ==> BookOf(before).qty > 0.0)
  }

  lemma {:induction false} ProcessedBook(fs: seq<Fill>)
    requires AllProcessed(fs)
    ensures BookOf(fs).qty == Volume(fs, Buy) - Volume(fs, Sell)
    ensures Skipped(fs) == 0.0
  {
    hide Times, Average;
    if fs == [] {
    } else {
      ProcessedBook(fs[..|fs| - 1]);
    }
  }

  /** The history ends in a sell, or buys an oversold position back at its own average price
      (buys of nothing at the end aside). */
  predicate ClosesEvenly(fs: seq<Fill>) {
    fs == [] ||
    var before, f := fs[..|fs| - 1], fs[|fs| - 1];
    f.side.Sell?
    || (if f.quantity == 0.0 then ClosesEvenly(before)
        else BookOf(before).qty != 0.0 && f.price == Average(BookOf(before)))
  }

  /** A closed history whose sells are all processed realises proceeds less costs exactly when it closes evenly. */
  lemma ClosedExactly(fs: seq<Fill>)
    requires AllProcessed(fs) && Closed(fs)
    ensures Realises(fs) <==> ClosesEvenly(fs)
  {
    RealisesExactly(fs);
    ProcessedBook(fs);
    EvenBook(fs);
  }

  lemma {:induction false} EvenBook(fs: seq<Fill>)
    requires AllProcessed(fs) && BookOf(fs).qty == 0.0
    ensures BookOf(fs).cost == 0.0 <==> ClosesEvenly(fs)
  {
    hide Times, Average;
    if fs == [] {
    } else {
      var before, f := fs[..|fs| - 1], fs[|fs| - 1];
      if f.side.Sell? {
        TimesZero(Average(BookOf(before)));
      } else if f.quantity == 0.0 {
        TimesZero(f.price);
        EvenBook(before);
      } else {
        BuyBack(BookOf(before), f);
      }
    }
  }

  /** Buying back exactly what was oversold leaves no cost exactly at the average price. */
  lemma BuyBack(b: Book, f: Fill)
    requires f.side.Buy? && f.quantity != 0.0 && b.qty + f.quantity == 0.0
    ensures Step(b, f).cost == 0.0 <==> f.price == Average(b)
  {
    var average := Average(b);
    DivMul(b.cost, b.qty);
    Distribute(f.price, average, f.quantity);
    assert average * b.qty == -(average * f.quantity);
    NonZeroFactor(f.price - average, f.quantity);
  }

  lemma NonZeroFactor(a: real, b: real)
    requires b != 0.0
    ensures a * b == 0.0 <==> a == 0.0
  {
    if a != 0.0 && a * b == 0.0 {
      DivUnique(0.0, b, a);
      DivUnique(0.0, b, 0.0);
    }
  }

  /** So a fully closed history without overselling always does. */
  lemma ClosedRealises(fs: seq<Fill>)
    requires NeverOversold(fs) && Closed(fs)
    ensures Realises(fs)
  {
    NeverOversoldProcessed(fs);
    CoveredBook(fs);
    if fs == [] {
    } else {
      CoveredBook(fs[..|fs| - 1]);
    }
    assert ClosesEvenly(fs);
    ClosedExactly(fs);
  }

  lemma {:induction false} NeverOversoldProcessed(fs: seq<Fill>)
    requires NeverOversold(fs)
    ensures AllProcessed(fs)
  {
    hide BookOf;
    if fs == [] {
    } else {
      NeverOversoldProcessed(fs[..|fs| - 1]);
    }
  }

  lemma Snoc(fs: seq<Fill>, f: Fill)
    ensures BookOf(fs + [f]) == Step(BookOf(fs), f)
    ensures Realised(fs + [f]) == Realised(fs) + NewPnl(BookOf(fs), f, 0.0)
    ensures forall side :: Volume(fs + [f], side) == Volume(fs, side) + if f.side == side then f.quantity else 0.0
    ensures forall side :: Turnover(fs + [f], side) == Turnover(fs, side) + if f.side == side then Times(f.price, f.quantity) else 0.0
    ensures NeverOversold(fs + [f]) <==>
              NeverOversold(fs) && f.quantity > 0.0 && (f.side.Sell? ==> f.quantity <= BookOf(fs).qty)
    ensures AllProcessed(fs + [f]) <==> AllProcessed(fs) && (f.side.Sell? ==> BookOf(fs).qty > 0.0)
  {
    hide Times, Average;
    assert (fs + [f])[..|fs|] == fs;
  }

  lemma Nothing()
    ensures BookOf([]) == Book(0.0, 0.0) && Realised([]) == 0.0 && AllProcessed([])
    ensures forall side :: Volume([], side) == Turnover([], side) == 0.0
  {
  }

  /** One bought at 10, two sold at 10, one bought back at the given price: closed and all processed. */
  function Oversold(price: real): seq<Fill> {
    [Fill("KRW-BTC", Buy, 10.0, 1.0), Fill("KRW-BTC", Sell, 10.0, 2.0)] + [Fill("KRW-BTC", Buy, price, 1.0)]
  }

  lemma OversoldBook()
    ensures var a, b := Fill("KRW-BTC", Buy, 10.0, 1.0), Fill("KRW-BTC", Sell, 10.0, 2.0);
            && BookOf([a, b]) == Book(-10.0, -1.0) && Realised([a, b]) == 0.0 && AllProcessed([a, b])
            && Volume([a, b], Buy) == 1.0 && Volume([a, b], Sell) == 2.0
            && Turnover([a, b], Buy) == 10.0 && Turnover([a, b], Sell) == 20.0
  {
    var a, b := Fill("KRW-BTC", Buy, 10.0, 1.0), Fill("KRW-BTC", Sell, 10.0, 2.0);
    hide BookOf, Volume, Turnover, Realised, AllProcessed, NeverOversold;
    Nothing();
    Snoc([], a);
    Snoc([a], b);
    assert [] + [a] == [a] && [a] + [b] == [a, b];
    assert BookOf([a]) == Book(10.0, 1.0);
    assert Average(Book(10.0, 1.0)) == 10.0;
  }

  /** With overselling the profit can be wrong: bought back at anything but 10, it is off by the difference. */
  lemma OversoldFails(price: real)
    ensures var fs := Oversold(price);
            && Closed(fs) && AllProcessed(fs)
            && Realised(fs) == 0.0
            && Turnover(fs, Sell) - Turnover(fs, Buy) == 10.0 - price
            && (Realises(fs) <==> price == 10.0)
  {
    hide BookOf, Volume, Turnover, Realised, AllProcessed, NeverOversold;
    var a, b := Fill("KRW-BTC", Buy, 10.0, 1.0), Fill("KRW-BTC", Sell, 10.0, 2.0);
    OversoldBook();
    Snoc([a, b], Fill("KRW-BTC", Buy, price, 1.0));
  }

  /** The average cost stays between the lowest and the highest buy price. */
  lemma {:induction false} AverageWithinPrices(fs: seq<Fill>, low: real, high: real)
    requires NeverOversold(fs)
    requires forall i :: 0 <= i < |fs| && fs[i].side.Buy? ==> low <= fs[i].price <= high
    ensures Times(low, BookOf(fs).qty) <= BookOf(fs).cost <= Times(high, BookOf(fs).qty)
  {
    if fs == [] {
    } else {
      var n := |fs| - 1;
      AverageWithinPrices(fs[..n], low, high);
      var b, f := BookOf(fs[..n]), fs[n];
      if f.side.Buy? {
        BuyWithin(b, f, low, high);
      } else {
        SellWithin(b, f, low, high);
      }
    }
  }

  lemma BuyWithin(b: Book, f: Fill, low: real, high: real)
    requires f.side.Buy? && f.quantity > 0.0 && low <= f.price <= high
    requires Times(low, b.qty) <= b.cost <= Times(high, b.qty)
    ensures Times(low, Step(b, f).qty) <= Step(b, f).cost <= Times(high, Step(b, f).qty)
  {
    MulOrder(low, f.price, f.quantity);
    MulOrder(f.price, high, f.quantity);
    Distribute(low, b.qty, f.quantity);
    Distribute(high, b.qty, f.quantity);
  }

  lemma SellWithin(b: Book, f: Fill, low: real, high: real)
    requires f.side.Sell? && 0.0 < f.quantity <= b.qty
    requires Times(low, b.qty) <= b.cost <= Times(high, b.qty)
    ensures Times(low, Step(b, f).qty) <= Step(b, f).cost <= Times(high, Step(b, f).qty)
  {
    DivOrder(low * b.qty, b.cost, b.qty);
    DivOrder(b.cost, high * b.qty, b.qty);
    DivUnique(low * b.qty, b.qty, low);
    DivUnique(high * b.qty, b.qty, high);
    var rest := b.qty - f.quantity;
    if rest > 0.0 {
      MulOrder(low, Average(b), rest);
      MulOrder(Average(b), high, rest);
    }
  }

  lemma ProfitAbove(b: Book, f: Fill, high: real)
    requires b.qty > 0.0 && f.quantity > 0.0 && f.price >= high && b.cost <= Times(high, b.qty)
    ensures Times(f.price - Average(b), f.quantity) >= 0.0
  {
    DivOrder(b.cost, high * b.qty, b.qty);
    DivUnique(high * b.qty, b.qty, high);
    MulNonNegative(f.price - Average(b), f.quantity);
  }

  /** Hence selling above every buy price always shows a profit. */
  lemma SellingAboveCost(fs: seq<Fill>, f: Fill, high: real, stored: real)
    requires NeverOversold(fs + [f]) && f.side.Sell? && f.price >= high
    requires forall i :: 0 <= i < |fs| && fs[i].side.Buy? ==> 0.0 <= fs[i].price <= high
    ensures NewPnl(BookOf(fs), f, stored) >= 0.0
  {
    hide BookOf, Times, Average, NeverOversold;
    Snoc(fs, f);
    AverageWithinPrices(fs, 0.0, high);
    ProfitAbove(BookOf(fs), f, high);
  }
}
