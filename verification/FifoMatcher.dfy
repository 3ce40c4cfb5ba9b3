/** The FIFO buy/sell matching of scripts/analyze_feb6_trades.py for one (symbol, strategy) group. */
module FifoMatcher {
  import opened PySeq
  import opened Reals
  import Sorting

  const DUST := 0.0001

  datatype Match = Match(buy: nat, sell: nat, quantity: real, buyPrice: real, sellPrice: real, pnl: real, pnlPct: real)

  /** A sell order as the matcher sees it; no price if neither the fill price nor the limit price is usable. */
  datatype Sell = Sell(quantity: real, price: Option<real>)

  /** What is left of every buy, the buy cursor, and the matches so far. */
  datatype Matching = Matching(left: seq<real>, cursor: nat, matches: seq<Match>)

  function MakeMatch(b: nat, s: nat, quantity: real, buyPrice: real, sellPrice: real): Match {
    var buyValue := quantity * buyPrice;
    var pnl := quantity * sellPrice - buyValue;
    Match(b, s, quantity, buyPrice, sellPrice, pnl, if buyValue > 0.0 then (pnl / buyValue) * 100.0 else 0.0)
  }

  /** Consume `quantity` of the buy at the cursor; a buy with nothing but dust left is passed. */
  function Take(m: Matching, s: nat, quantity: real, buyPrice: real, sellPrice: real): Matching
    requires m.cursor < |m.left|
  {
    var b := m.cursor;
    var rest := m.left[b] - quantity;
    Matching(m.left[b := rest], if rest <= DUST then b + 1 else b,
             m.matches + [MakeMatch(b, s, quantity, buyPrice, sellPrice)])
  }

  /** The inner loop for sell number s. */
  function MatchSell(prices: seq<Option<real>>, price: Option<real>, s: nat, m: Matching, remaining: real): (r: Matching)
    requires |m.left| == |prices|
    ensures |r.left| == |prices| && m.cursor <= r.cursor
    ensures m.cursor <= |prices| ==> r.cursor <= |prices|
    decreases |prices| - m.cursor, if remaining > 0.0 then 1 else 0
  {
    if remaining <= 0.0 || m.cursor >= |prices| then m
    else if prices[m.cursor].None? || price.None? then
      MatchSell(prices, price, s, m.(cursor := m.cursor + 1), remaining)
    else
      var quantity := Min(remaining, m.left[m.cursor]);
      MatchSell(prices, price, s, Take(m, s, quantity, prices[m.cursor].value, price.value), remaining - quantity)
  }

  /** The outer loop over the first k sells. */
  function MatchAll(prices: seq<Option<real>>, quantities: seq<real>, sells: seq<Sell>, k: nat): (r: Matching)
    requires |quantities| == |prices| && k <= |sells|
    ensures |r.left| == |prices| && r.cursor <= |prices|
  {
    if k == 0 then Matching(quantities, 0, [])
    else MatchSell(prices, sells[k - 1].price, k - 1, MatchAll(prices, quantities, sells, k - 1), sells[k - 1].quantity)
  }

  // ---------------------------------------------------------------- conservation

  function BuyTotal(ms: seq<Match>, b: nat): real {
    if ms == [] then 0.0
    else BuyTotal(ms[..|ms| - 1], b) + if ms[|ms| - 1].buy == b then ms[|ms| - 1].quantity else 0.0
  }

  function SellTotal(ms: seq<Match>, s: nat): real {
    if ms == [] then 0.0
    else SellTotal(ms[..|ms| - 1], s) + if ms[|ms| - 1].sell == s then ms[|ms| - 1].quantity else 0.0
  }

  lemma TotalsSnoc(ms: seq<Match>, m: Match, i: nat)
    ensures BuyTotal(ms + [m], i) == BuyTotal(ms, i) + if m.buy == i then m.quantity else 0.0
    ensures SellTotal(ms + [m], i) == SellTotal(ms, i) + if m.sell == i then m.quantity else 0.0
  {
    assert (ms + [m])[..|ms|] == ms;
  }

  lemma NoTotals(i: nat)
    ensures BuyTotal([], i) == 0.0 && SellTotal([], i) == 0.0
  {
  }

  lemma {:induction false} SellKeepsBuys(prices: seq<Option<real>>, price: Option<real>, s: nat, m: Matching, remaining: real, b: nat)
    requires |m.left| == |prices| && b < |prices|
    ensures var r := MatchSell(prices, price, s, m, remaining);
            BuyTotal(r.matches, b) + r.left[b] == BuyTotal(m.matches, b) + m.left[b]
    decreases |prices| - m.cursor, if remaining > 0.0 then 1 else 0
  {
    hide MatchSell, Take, MakeMatch, BuyTotal, SellTotal;
    if remaining <= 0.0 || m.cursor >= |prices| {
      MatchSellDone(prices, price, s, m, remaining);
    } else {
      MatchSellStep(prices, price, s, m, remaining);
      if prices[m.cursor].None? || price.None? {
        SellKeepsBuys(prices, price, s, m.(cursor := m.cursor + 1), remaining, b);
      } else {
        var quantity := Min(remaining, m.left[m.cursor]);
        var t := Take(m, s, quantity, prices[m.cursor].value, price.value);
        TakeFields(m, s, quantity, prices[m.cursor].value, price.value);
        TotalsSnoc(m.matches, MakeMatch(m.cursor, s, quantity, prices[m.cursor].value, price.value), b);
        SellKeepsBuys(prices, price, s, t, remaining - quantity, b);
      }
    }
  }

  /** Each buy's matched total plus what is left of it is its original quantity. */
  lemma {:induction false} BuysConserved(prices: seq<Option<real>>, quantities: seq<real>, sells: seq<Sell>, k: nat, b: nat)
    requires |quantities| == |prices| && k <= |sells| && b < |prices|
    ensures var r := MatchAll(prices, quantities, sells, k); BuyTotal(r.matches, b) + r.left[b] == quantities[b]
  {
    hide MatchSell, BuyTotal;
    if k == 0 {
      NoTotals(b);
    } else {
      BuysConserved(prices, quantities, sells, k - 1, b);
      SellKeepsBuys(prices, sells[k - 1].price, k - 1, MatchAll(prices, quantities, sells, k - 1), sells[k - 1].quantity, b);
    }
  }

  lemma {:induction false} SellConsumes(prices: seq<Option<real>>, price: Option<real>, s: nat, m: Matching, remaining: real, i: nat)
    requires |m.left| == |prices|
    ensures var d := SellTotal(MatchSell(prices, price, s, m, remaining).matches, i) - SellTotal(m.matches, i);
            if i != s || remaining <= 0.0 then d == 0.0
            else d <= remaining && (d < remaining ==> MatchSell(prices, price, s, m, remaining).cursor >= |prices|)
    decreases |prices| - m.cursor, if remaining > 0.0 then 1 else 0
  {
    hide MatchSell, Take, MakeMatch, BuyTotal, SellTotal;
    if remaining <= 0.0 || m.cursor >= |prices| {
      MatchSellDone(prices, price, s, m, remaining);
    } else {
      MatchSellStep(prices, price, s, m, remaining);
      if prices[m.cursor].None? || price.None? {
        SellConsumes(prices, price, s, m.(cursor := m.cursor + 1), remaining, i);
      } else {
        var quantity := Min(remaining, m.left[m.cursor]);
        var t := Take(m, s, quantity, prices[m.cursor].value, price.value);
        TakeFields(m, s, quantity, prices[m.cursor].value, price.value);
        TotalsSnoc(m.matches, MakeMatch(m.cursor, s, quantity, prices[m.cursor].value, price.value), i);
        SellConsumes(prices, price, s, t, remaining - quantity, i);
      }
    }
  }

  /** No sell is matched beyond its quantity, and a processed one falls short only if the buys have run out. */
  lemma {:induction false} SellsConserved(prices: seq<Option<real>>, quantities: seq<real>, sells: seq<Sell>, k: nat, s: nat)
    requires |quantities| == |prices| && k <= |sells| && s < |sells|
    ensures var r := MatchAll(prices, quantities, sells, k);
            if s >= k || sells[s].quantity <= 0.0 then SellTotal(r.matches, s) == 0.0
            else SellTotal(r.matches, s) <= sells[s].quantity
                 && (SellTotal(r.matches, s) < sells[s].quantity ==> r.cursor == |prices|)
  {
    hide MatchSell, SellTotal;
    if k == 0 {
      NoTotals(s);
    } else {
      SellsConserved(prices, quantities, sells, k - 1, s);
      SellConsumes(prices, sells[k - 1].price, k - 1, MatchAll(prices, quantities, sells, k - 1), sells[k - 1].quantity, s);
    }
  }

  // ---------------------------------------------------------------- order of the matches

  /** Along the list neither index ever goes back, and no pair repeats: matches do not cross. */
  ghost predicate InOrder(ms: seq<Match>) {
    forall i, j :: 0 <= i < j < |ms| ==>
      ms[i].buy <= ms[j].buy && ms[i].sell <= ms[j].sell && (ms[i].buy < ms[j].buy || ms[i].sell < ms[j].sell)
  }

  /** Nothing beyond the cursors has been matched, nor the pair at the cursors if it is still to come. */
  ghost predicate Behind(m: Matching, s: nat, open: bool) {
    forall i :: 0 <= i < |m.matches| ==>
      m.matches[i].buy <= m.cursor && m.matches[i].sell <= s
      && (open ==> m.matches[i].buy < m.cursor || m.matches[i].sell < s)
  }

  lemma {:induction false} SellInOrder(prices: seq<Option<real>>, price: Option<real>, s: nat, m: Matching, remaining: real)
    requires |m.left| == |prices| && InOrder(m.matches) && Behind(m, s, remaining > 0.0)
    ensures var r := MatchSell(prices, price, s, m, remaining); InOrder(r.matches) && Behind(r, s, false)
    decreases |prices| - m.cursor, if remaining > 0.0 then 1 else 0
  {
    if remaining <= 0.0 || m.cursor >= |prices| {
    } else {
      if prices[m.cursor].None? || price.None? {
        SellInOrder(prices, price, s, m.(cursor := m.cursor + 1), remaining);
      } else {
        var quantity := Min(remaining, m.left[m.cursor]);
        SellInOrder(prices, price, s, Take(m, s, quantity, prices[m.cursor].value, price.value), remaining - quantity);
      }
    }
  }

  /** First in, first out: matched (buy, sell) indices never cross. */
  lemma {:induction false} MatchesInOrder(prices: seq<Option<real>>, quantities: seq<real>, sells: seq<Sell>, k: nat)
    requires |quantities| == |prices| && k <= |sells|
    ensures var r := MatchAll(prices, quantities, sells, k);
            InOrder(r.matches) && Behind(r, k, true)
  {
    if k == 0 {
    } else {
      MatchesInOrder(prices, quantities, sells, k - 1);
      SellInOrder(prices, sells[k - 1].price, k - 1, MatchAll(prices, quantities, sells, k - 1), sells[k - 1].quantity);
    }
  }

  // ---------------------------------------------------------------- passed and untouched buys

  lemma {:induction false} SellPasses(prices: seq<Option<real>>, price: Option<real>, s: nat, m: Matching, remaining: real, b: nat)
    requires |m.left| == |prices| && b < |prices|
    ensures var r := MatchSell(prices, price, s, m, remaining);
            && (b < m.cursor ==> r.left[b] == m.left[b])
            && (b > r.cursor ==> r.left[b] == m.left[b])
            && (m.cursor <= b < r.cursor && r.left[b] > DUST ==>
                  prices[b].None? || (price.None? && remaining > 0.0 && r.left[b] == m.left[b]))
    decreases |prices| - m.cursor, if remaining > 0.0 then 1 else 0
  {
    if remaining <= 0.0 || m.cursor >= |prices| {
    } else {
      if prices[m.cursor].None? || price.None? {
        SellPasses(prices, price, s, m.(cursor := m.cursor + 1), remaining, b);
      } else {
        var quantity := Min(remaining, m.left[m.cursor]);
        SellPasses(prices, price, s, Take(m, s, quantity, prices[m.cursor].value, price.value), remaining - quantity, b);
      }
    }
  }

  /** A sell leaves the cursor at a buy with more than dust left, or at one it has not touched. */
  lemma {:induction false} SellStops(prices: seq<Option<real>>, price: Option<real>, s: nat, m: Matching, remaining: real)
    requires |m.left| == |prices|
    ensures var r := MatchSell(prices, price, s, m, remaining);
            r.cursor < |prices| ==> r.left[r.cursor] > DUST || r.left[r.cursor] == m.left[r.cursor]
    decreases |prices| - m.cursor, if remaining > 0.0 then 1 else 0
  {
    if remaining <= 0.0 || m.cursor >= |prices| {
    } else {
      if prices[m.cursor].None? || price.None? {
        SellStops(prices, price, s, m.(cursor := m.cursor + 1), remaining);
      } else {
        var quantity := Min(remaining, m.left[m.cursor]);
        SellStops(prices, price, s, Take(m, s, quantity, prices[m.cursor].value, price.value), remaining - quantity);
      }
    }
  }

  /** The cursor never waits at dust: the buy it points to has more than 0.0001 left or was never matched. */
  lemma {:induction false} CursorAtStock(prices: seq<Option<real>>, quantities: seq<real>, sells: seq<Sell>, k: nat)
    requires |quantities| == |prices| && k <= |sells|
    ensures var r := MatchAll(prices, quantities, sells, k);
            r.cursor < |prices| ==> r.left[r.cursor] > 0.0001 || r.left[r.cursor] == quantities[r.cursor]
  {
    hide MatchSell, SkippedBy;
    if k == 0 {
    } else {
      CursorAtStock(prices, quantities, sells, k - 1);
      var m, c := MatchAll(prices, quantities, sells, k - 1), MatchAll(prices, quantities, sells, k).cursor;
      SellStops(prices, sells[k - 1].price, k - 1, m, sells[k - 1].quantity);
      if c < |prices| {
        PassedBuys(prices, quantities, sells, k - 1, c);
      }
    }
  }

  ghost predicate SkippedBy(sells: seq<Sell>, k: nat)
    requires k <= |sells|
  {
    exists s :: 0 <= s < k && sells[s].price.None? && sells[s].quantity > 0.0
  }

  /** A buy the cursor has passed is used up to dust, unless it or a sell had no price;
      a buy beyond the cursor is untouched. */
  lemma {:induction false} PassedBuys(prices: seq<Option<real>>, quantities: seq<real>, sells: seq<Sell>, k: nat, b: nat)
    requires |quantities| == |prices| && k <= |sells| && b < |prices|
    ensures var r := MatchAll(prices, quantities, sells, k);
            && (b < r.cursor && r.left[b] > 0.0001 ==> prices[b].None? || SkippedBy(sells, k))
            && (b > r.cursor ==> r.left[b] == quantities[b])
  {
    if k == 0 {
    } else {
      PassedBuys(prices, quantities, sells, k - 1, b);
      SellPasses(prices, sells[k - 1].price, k - 1, MatchAll(prices, quantities, sells, k - 1), sells[k - 1].quantity, b);
      if SkippedBy(sells, k - 1) {
        var s :| 0 <= s < k - 1 && sells[s].price.None? && sells[s].quantity > 0.0;
        assert SkippedBy(sells, k);
      }
      if sells[k - 1].price.None? && sells[k - 1].quantity > 0.0 {
        assert SkippedBy(sells, k);
      }
    }
  }

  /** When every order has a price, one side is used up: as long as any sell is not matched in full,
      no buy at all has more than dust left. */
  lemma OneSideExhausted(prices: seq<Option<real>>, quantities: seq<real>, sells: seq<Sell>, s: nat, b: nat)
    requires |quantities| == |prices| && b < |prices| && s < |sells|
    requires prices[b].Some? && forall i :: 0 <= i < |sells| ==> sells[i].price.Some?
    requires sells[s].quantity > 0.0
    ensures var r := MatchAll(prices, quantities, sells, |sells|);
            SellTotal(r.matches, s) == sells[s].quantity || r.left[b] <= 0.0001
  {
    hide MatchAll, SellTotal;
    PassedBuys(prices, quantities, sells, |sells|, b);
    SellsConserved(prices, quantities, sells, |sells|, s);
  }

  lemma {:induction false} PricelessRunsOut(prices: seq<Option<real>>, s: nat, m: Matching, remaining: real)
    requires |m.left| == |prices| && m.cursor <= |prices| && remaining > 0.0
    ensures MatchSell(prices, None, s, m, remaining) == m.(cursor := |prices|)
    decreases |prices| - m.cursor
  {
    if m.cursor >= |prices| {
    } else {
      PricelessRunsOut(prices, s, m.(cursor := m.cursor + 1), remaining);
    }
  }

  lemma {:induction false} ExhaustedStays(prices: seq<Option<real>>, quantities: seq<real>, sells: seq<Sell>, j: nat, k: nat)
    requires |quantities| == |prices| && j <= k <= |sells| && MatchAll(prices, quantities, sells, j).cursor == |prices|
    ensures MatchAll(prices, quantities, sells, k) == MatchAll(prices, quantities, sells, j)
    decreases k
  {
    if j == k {
    } else {
      ExhaustedStays(prices, quantities, sells, j, k - 1);
    }
  }

  /** One sell without a price ends the matching: it skips every remaining buy, so nothing is ever matched after it. */
  lemma PricelessSellEndsMatching(prices: seq<Option<real>>, quantities: seq<real>, sells: seq<Sell>, s: nat, k: nat)
    requires |quantities| == |prices| && s < k <= |sells| && sells[s].price.None? && sells[s].quantity > 0.0
    ensures MatchAll(prices, quantities, sells, k) == MatchAll(prices, quantities, sells, s).(cursor := |prices|)
  {
    PricelessRunsOut(prices, s, MatchAll(prices, quantities, sells, s), sells[s].quantity);
    ExhaustedStays(prices, quantities, sells, s + 1, k);
  }

  // ---------------------------------------------------------------- how many matches, and their profit

  lemma {:induction false} SellCount(prices: seq<Option<real>>, price: Option<real>, s: nat, m: Matching, remaining: real)
    requires |m.left| == |prices|
    ensures var r := MatchSell(prices, price, s, m, remaining);
            |r.matches| - |m.matches| <= r.cursor - m.cursor + if remaining > 0.0 then 1 else 0
    decreases |prices| - m.cursor, if remaining > 0.0 then 1 else 0
  {
    if remaining <= 0.0 || m.cursor >= |prices| {
    } else {
      if prices[m.cursor].None? || price.None? {
        SellCount(prices, price, s, m.(cursor := m.cursor + 1), remaining);
      } else {
        var quantity := Min(remaining, m.left[m.cursor]);
        SellCount(prices, price, s, Take(m, s, quantity, prices[m.cursor].value, price.value), remaining - quantity);
      }
    }
  }

  /** At most one match per passed buy and one per processed sell. */
  lemma {:induction false} MatchCount(prices: seq<Option<real>>, quantities: seq<real>, sells: seq<Sell>, k: nat)
    requires |quantities| == |prices| && k <= |sells|
    ensures |MatchAll(prices, quantities, sells, k).matches| <= MatchAll(prices, quantities, sells, k).cursor + k
  {
    if k == 0 {
    } else {
      MatchCount(prices, quantities, sells, k - 1);
      SellCount(prices, sells[k - 1].price, k - 1, MatchAll(prices, quantities, sells, k - 1), sells[k - 1].quantity);
    }
  }

  /** A match between existing orders, at their prices. */
  ghost predicate Priced(t: Match, prices: seq<Option<real>>, sells: seq<Sell>) {
    && t.buy < |prices| && prices[t.buy] == Some(t.buyPrice)
    && t.sell < |sells| && sells[t.sell].price == Some(t.sellPrice)
    && t.pnl == t.quantity * (t.sellPrice - t.buyPrice)
    && (if t.quantity * t.buyPrice > 0.0 then t.pnlPct * t.buyPrice == 100.0 * (t.sellPrice - t.buyPrice) else t.pnlPct == 0.0)
  }

  ghost predicate AllPriced(ms: seq<Match>, prices: seq<Option<real>>, sells: seq<Sell>) {
    forall i :: 0 <= i < |ms| ==> Priced(ms[i], prices, sells)
  }

  lemma {:induction false} SellPriced(prices: seq<Option<real>>, sells: seq<Sell>, s: nat, m: Matching, remaining: real)
    requires |m.left| == |prices| && s < |sells|
    requires AllPriced(m.matches, prices, sells)
    ensures AllPriced(MatchSell(prices, sells[s].price, s, m, remaining).matches, prices, sells)
    decreases |prices| - m.cursor, if remaining > 0.0 then 1 else 0
  {
    hide MakeMatch;
    if remaining <= 0.0 || m.cursor >= |prices| {
    } else {
      if prices[m.cursor].None? || sells[s].price.None? {
        SellPriced(prices, sells, s, m.(cursor := m.cursor + 1), remaining);
      } else {
        var quantity := Min(remaining, m.left[m.cursor]);
        var t := Take(m, s, quantity, prices[m.cursor].value, sells[s].price.value);
        MatchPriced(prices, sells, m.cursor, s, quantity);
        SellPriced(prices, sells, s, t, remaining - quantity);
      }
    }
  }

  lemma MatchPriced(prices: seq<Option<real>>, sells: seq<Sell>, b: nat, s: nat, quantity: real)
    requires b < |prices| && prices[b].Some? && s < |sells| && sells[s].price.Some?
    ensures Priced(MakeMatch(b, s, quantity, prices[b].value, sells[s].price.value), prices, sells)
  {
    MatchFigures(quantity, prices[b].value, sells[s].price.value);
  }

  lemma MatchFigures(quantity: real, buyPrice: real, sellPrice: real)
    ensures var pnl := quantity * sellPrice - quantity * buyPrice;
            && pnl == quantity * (sellPrice - buyPrice)
            && (quantity * buyPrice > 0.0 ==> (pnl / (quantity * buyPrice) * 100.0) * buyPrice == 100.0 * (sellPrice - buyPrice))
  {
    Distribute(sellPrice, buyPrice, quantity);
    if quantity * buyPrice > 0.0 {
      var move := sellPrice - buyPrice;
      var share := move / buyPrice;
      DivMul(move, buyPrice);
      Associate(share, buyPrice, quantity);
      DivUnique(quantity * move, quantity * buyPrice, share);
    }
  }

  lemma {:induction false} MatchesPriced(prices: seq<Option<real>>, quantities: seq<real>, sells: seq<Sell>, k: nat)
    requires |quantities| == |prices| && k <= |sells|
    ensures AllPriced(MatchAll(prices, quantities, sells, k).matches, prices, sells)
  {
    if k == 0 {
    } else {
      MatchesPriced(prices, quantities, sells, k - 1);
      SellPriced(prices, sells, k - 1, MatchAll(prices, quantities, sells, k - 1), sells[k - 1].quantity);
    }
  }

  function MatchPnl(t: Match): real {
    t.pnl
  }

  /** Quantity times price difference, at the orders' own prices. */
  function Spread(prices: seq<Option<real>>, sells: seq<Sell>): Match -> real {
    (t: Match) => if t.buy < |prices| && t.sell < |sells|
         then t.quantity * (sells[t.sell].price.GetOr(0.0) - prices[t.buy].GetOr(0.0)) else 0.0
  }

  lemma {:induction false} PnlIsSpread(ms: seq<Match>, prices: seq<Option<real>>, sells: seq<Sell>)
    requires AllPriced(ms, prices, sells)
    ensures Sum(Map(MatchPnl, ms)) == Sum(Map(Spread(prices, sells), ms))
  {
    if ms == [] {
    } else {
      var n := |ms| - 1;
      PnlIsSpread(ms[..n], prices, sells);
      var t := ms[n];
      assert Priced(t, prices, sells);
      assert Map(MatchPnl, ms)[..n] == Map(MatchPnl, ms[..n]);
      assert Map(Spread(prices, sells), ms)[..n] == Map(Spread(prices, sells), ms[..n]);
    }
  }

  /** The total profit is the sum of quantity times (sell price - buy price) over the matches. */
  lemma TotalPnl(prices: seq<Option<real>>, quantities: seq<real>, sells: seq<Sell>)
    requires |quantities| == |prices|
    ensures var ms := MatchAll(prices, quantities, sells, |sells|).matches;
            Sum(Map(MatchPnl, ms)) == Sum(Map(Spread(prices, sells), ms))
  {
    MatchesPriced(prices, quantities, sells, |sells|);
    PnlIsSpread(MatchAll(prices, quantities, sells, |sells|).matches, prices, sells);
  }

  // ---------------------------------------------------------------- the loops over order objects

  class OrderRecord {
    const createdAt: int
    const avgFillPrice: Option<real>
    const price: Option<real>
    var filledQuantity: real

    constructor (createdAt: int, avgFillPrice: Option<real>, price: Option<real>, filledQuantity: real)
      ensures this.createdAt == createdAt && this.avgFillPrice == avgFillPrice && this.price == price
      ensures this.filledQuantity == filledQuantity
    {
      this.createdAt, this.avgFillPrice, this.price := createdAt, avgFillPrice, price;
      this.filledQuantity := filledQuantity;
    }

    /** `avg_fill_price if avg_fill_price else price`, where 0 counts as missing. */
    function ExecPrice(): Option<real> {
      var p := if avgFillPrice.Some? && avgFillPrice.value != 0.0 then avgFillPrice else price;
      if p.Some? && p.value != 0.0 then p else None
    }
  }

  /** The price of an order: its average fill price, or its limit price where that is missing or 0; a 0 is no price. */
  lemma ExecPriceExactly(o: OrderRecord, p: real)
    ensures o.ExecPrice() == Some(p) <==>
              p != 0.0 && (o.avgFillPrice == Some(p) || (o.avgFillPrice.GetOr(0.0) == 0.0 && o.price == Some(p)))
  {
  }

  function CreatedAt(o: OrderRecord): real {
    o.createdAt as real
  }

  function Prices(orders: seq<OrderRecord>): (r: seq<Option<real>>)
    ensures |r| == |orders| && forall i :: 0 <= i < |orders| ==> r[i] == orders[i].ExecPrice()
  {
    seq(|orders|, i requires 0 <= i < |orders| => orders[i].ExecPrice())
  }

  ghost function Quantities(orders: seq<OrderRecord>): (r: seq<real>)
    reads orders
    ensures |r| == |orders| && forall i :: 0 <= i < |orders| ==> r[i] == orders[i].filledQuantity
  {
    seq(|orders|, i requires 0 <= i < |orders| reads orders => orders[i].filledQuantity)
  }

  ghost function Sells(orders: seq<OrderRecord>): (r: seq<Sell>)
    reads orders
    ensures |r| == |orders|
    ensures forall i :: 0 <= i < |orders| ==> r[i] == Sell(orders[i].filledQuantity, orders[i].ExecPrice())
  {
    seq(|orders|, i requires 0 <= i < |orders| reads orders => Sell(orders[i].filledQuantity, orders[i].ExecPrice()))
  }

  ghost predicate Disjoint(a: seq<OrderRecord>, b: seq<OrderRecord>) {
    forall i, j :: 0 <= i < |a| && 0 <= j < |b| ==> a[i] != b[j]
  }

  /** One sell against the buys, consuming their filled quantities in place. */
  method MatchOne(buys: seq<OrderRecord>, sell: OrderRecord, s: nat, start: nat, matched: seq<Match>)
    returns (cursor: nat, matches: seq<Match>)
    requires NoRepeats(buys) && sell !in buys && start <= |buys|
    modifies buys
    ensures Matching(Quantities(buys), cursor, matches)
         == MatchSell(Prices(buys), sell.ExecPrice(), s, Matching(old(Quantities(buys)), start, matched), sell.filledQuantity)
  {
    hide MakeMatch, MatchSell, Take, Prices, Quantities, OrderRecord.ExecPrice;
    cursor, matches := start, matched;
    var remaining := sell.filledQuantity;
    ghost var prices, price := Prices(buys), sell.ExecPrice();
    ghost var goal := MatchSell(prices, price, s, Matching(Quantities(buys), start, matched), remaining);
    while remaining > 0.0 && cursor < |buys|
      invariant cursor <= |buys|
      invariant goal == MatchSell(prices, price, s, Matching(Quantities(buys), cursor, matches), remaining)
      decreases |buys| - cursor, if remaining > 0.0 then 1 else 0
    {
      ghost var m := Matching(Quantities(buys), cursor, matches);
      MatchSellStep(prices, price, s, m, remaining);
      var buy := buys[cursor];
      var quantity := Min(remaining, buy.filledQuantity);
      var buyPrice, sellPrice := buy.ExecPrice(), sell.ExecPrice();
      if buyPrice.None? || sellPrice.None? {
        cursor := cursor + 1;
        continue;
      }
      TakeFields(m, s, quantity, buyPrice.value, sellPrice.value);
      matches := matches + [MakeMatch(cursor, s, quantity, buyPrice.value, sellPrice.value)];
      Consume(buys, cursor, quantity);
      remaining := remaining - quantity;
      if buy.filledQuantity <= DUST {
        cursor := cursor + 1;
      }
      assert Matching(Quantities(buys), cursor, matches) == Take(m, s, quantity, buyPrice.value, sellPrice.value);
    }
    MatchSellDone(prices, price, s, Matching(Quantities(buys), cursor, matches), remaining);
  }

  method Consume(buys: seq<OrderRecord>, i: nat, quantity: real)
    requires NoRepeats(buys) && i < |buys|
    modifies buys[i]
    ensures buys[i].filledQuantity == old(buys[i].filledQuantity) - quantity
    ensures Quantities(buys) == old(Quantities(buys))[i := old(Quantities(buys)[i]) - quantity]
  {
    buys[i].filledQuantity := buys[i].filledQuantity - quantity;
  }

  lemma TakeFields(m: Matching, s: nat, quantity: real, buyPrice: real, sellPrice: real)
    requires m.cursor < |m.left|
    ensures var t, rest := Take(m, s, quantity, buyPrice, sellPrice), m.left[m.cursor] - quantity;
            && t.left == m.left[m.cursor := rest]
            && t.cursor == (if rest <= DUST then m.cursor + 1 else m.cursor)
            && t.matches == m.matches + [MakeMatch(m.cursor, s, quantity, buyPrice, sellPrice)]
    ensures var r := MakeMatch(m.cursor, s, quantity, buyPrice, sellPrice); r.buy == m.cursor && r.sell == s && r.quantity == quantity
  {
  }

  lemma MatchSellStep(prices: seq<Option<real>>, price: Option<real>, s: nat, m: Matching, remaining: real)
    requires |m.left| == |prices| && remaining > 0.0 && m.cursor < |prices|
    ensures MatchSell(prices, price, s, m, remaining)
         == if prices[m.cursor].None? || price.None? then MatchSell(prices, price, s, m.(cursor := m.cursor + 1), remaining)
            else var quantity := Min(remaining, m.left[m.cursor]);
                 MatchSell(prices, price, s, Take(m, s, quantity, prices[m.cursor].value, price.value), remaining - quantity)
  {
  }

  lemma MatchSellDone(prices: seq<Option<real>>, price: Option<real>, s: nat, m: Matching, remaining: real)
    requires |m.left| == |prices| && (remaining <= 0.0 || m.cursor >= |prices|)
    ensures MatchSell(prices, price, s, m, remaining) == m
  {
  }

  /** One group: sort both sides by creation time, then walk the sells until the buys run out. */
  method MatchGroup(groupBuys: seq<OrderRecord>, groupSells: seq<OrderRecord>) returns (matches: seq<Match>)
    requires NoRepeats(groupBuys) && Disjoint(groupBuys, groupSells)
    modifies groupBuys
    ensures var buys, sells := Sorting.StableSort(CreatedAt, groupBuys), Sorting.StableSort(CreatedAt, groupSells);
            var r := MatchAll(Prices(buys), old(Quantities(buys)), old(Sells(sells)), |sells|);
            matches == r.matches && Quantities(buys) == r.left
  {
    var buys, sells := Sorting.StableSort(CreatedAt, groupBuys), Sorting.StableSort(CreatedAt, groupSells);
    hide Sorting.StableSort, MatchAll, Prices, Quantities, Sells, NoRepeats, Disjoint;
    SortedOrders(groupBuys, buys);
    SortedDistinct(groupBuys, buys);
    SortedDisjoint(groupBuys, groupSells, buys, sells);
    matches := MatchSorted(buys, sells);
  }

  method MatchSorted(buys: seq<OrderRecord>, sells: seq<OrderRecord>) returns (matches: seq<Match>)
    requires NoRepeats(buys) && Disjoint(buys, sells)
    modifies buys
    ensures var r := MatchAll(Prices(buys), old(Quantities(buys)), old(Sells(sells)), |sells|);
            matches == r.matches && Quantities(buys) == r.left
  {
    hide MatchSell;
    ghost var prices, quantities, orders := Prices(buys), Quantities(buys), Sells(sells);
    matches := [];
    var cursor: nat := 0;
    var s: nat := 0;
    while s < |sells|
      invariant s <= |sells| && cursor <= |buys|
      invariant Matching(Quantities(buys), cursor, matches) == MatchAll(prices, quantities, orders, s)
    {
      if cursor >= |buys| {
        ExhaustedStays(prices, quantities, orders, s, |sells|);
        break;
      }
      assert Sells(sells)[s] == orders[s];
      cursor, matches := MatchOne(buys, sells[s], s, cursor, matches);
      s := s + 1;
    }
  }

  lemma SortedOrders(orders: seq<OrderRecord>, sorted: seq<OrderRecord>)
    requires sorted == Sorting.StableSort(CreatedAt, orders)
    ensures forall o :: o in sorted <==> o in orders
    ensures forall i :: 0 <= i < |sorted| ==> sorted[i] in orders
  {
    Sorting.SortSorts(CreatedAt, orders);
    forall o ensures o in sorted <==> o in orders {
      assert o in sorted <==> o in multiset(sorted);
      assert o in orders <==> o in multiset(orders);
    }
  }

  lemma SortedDisjoint(a: seq<OrderRecord>, b: seq<OrderRecord>, a': seq<OrderRecord>, b': seq<OrderRecord>)
    requires a' == Sorting.StableSort(CreatedAt, a) && b' == Sorting.StableSort(CreatedAt, b) && Disjoint(a, b)
    ensures Disjoint(a', b')
  {
    SortedOrders(a, a');
    SortedOrders(b, b');
    forall i, j | 0 <= i < |a'| && 0 <= j < |b'| ensures a'[i] != b'[j] {
      assert a'[i] in a && b'[j] in b;
    }
  }

  lemma {:induction false} CountDistinct(orders: seq<OrderRecord>)
    ensures NoRepeats(orders) <==> forall o :: multiset(orders)[o] <= 1
  {
    if orders == [] {
    } else {
      var n := |orders| - 1;
      CountDistinct(orders[..n]);
      assert orders == orders[..n] + [orders[n]];
      if NoRepeats(orders) {
        assert orders[n] !in orders[..n];
        assert orders[n] !in multiset(orders[..n]);
      } else if NoRepeats(orders[..n]) {
        assert orders[n] in orders[..n];
        assert orders[n] in multiset(orders[..n]);
        assert multiset(orders)[orders[n]] > 1;
      } else {
        var o :| multiset(orders[..n])[o] > 1;
        assert multiset(orders)[o] > 1;
      }
    }
  }

  lemma SortedDistinct(orders: seq<OrderRecord>, sorted: seq<OrderRecord>)
    requires sorted == Sorting.StableSort(CreatedAt, orders) && NoRepeats(orders)
    ensures NoRepeats(sorted)
  {
    Sorting.SortSorts(CreatedAt, orders);
    CountDistinct(orders);
    CountDistinct(sorted);
  }
}
