/** The order state machine of src/execution/order_state.py. A call that raises OrderStateError may
    already have written fields; `Do` is the state it leaves behind either way. */
module Orders {
  import opened PySeq
  import opened Reals

  datatype Status = New | Pending | Sent | Ack | Partial | Filled | Canceled | Rejected | Synced

  /** VALID_TRANSITIONS; a status without an entry allows nothing. */
  function Allowed(s: Status): set<Status> {
    match s
    case New => {Sent, Canceled}
    case Sent => {Ack, Rejected, Canceled}
    case Ack => {Partial, Filled, Canceled}
    case Partial => {Partial, Filled, Canceled}
    case _ => {}
  }

  predicate Terminal(s: Status) {
    s == Filled || s == Canceled || s == Rejected
  }

  datatype OrderState = OrderState(status: Status, quantity: real, exchangeId: Option<string>, filled: real,
                                   avgPrice: Option<real>, fee: real, history: seq<Status>)

  function NewOrder(quantity: real): OrderState {
    OrderState(New, quantity, None, 0.0, None, 0.0, [New])
  }

  datatype Call =
    | TransitionTo(status: Status)
    | MarkSent(exchangeId: string)
    | MarkAcked
    | MarkPartialFill(quantity: real, price: real, fee: real)
    | MarkFilled(filledQuantity: Option<real>, fillPrice: Option<real>, fillFee: real)
    | MarkCanceled
    | MarkRejected

  /** The status the call asks for; a partial fill of a PARTIAL order asks for none. */
  function Target(o: OrderState, c: Call): Status {
    match c
    case TransitionTo(status) => status
    case MarkSent(_) => Sent
    case MarkAcked => Ack
    case MarkPartialFill(_, _, _) => Partial
    case MarkFilled(_, _, _) => Filled
    case MarkCanceled => Canceled
    case MarkRejected => Rejected
  }

  /** When the call raises. */
  predicate Raises(o: OrderState, c: Call) {
    match c
    case MarkPartialFill(_, _, _) => o.status != Ack && o.status != Partial
    case MarkCanceled => Terminal(o.status) || Canceled !in Allowed(o.status)
    case MarkRejected => o.status != Sent
    case _ => Target(o, c) !in Allowed(o.status)
  }

  function Move(o: OrderState, s: Status): OrderState {
    if s in Allowed(o.status) then o.(status := s, history := o.history + [s]) else o
  }

  function AddFill(o: OrderState, quantity: real, price: real, fee: real): OrderState {
    o.(filled := o.filled + quantity, avgPrice := Some(AverageAfter(o.filled, o.avgPrice, quantity, price)), fee := o.fee + fee)
  }

  /** The average price once a fill is added to what was filled before. */
  function AverageAfter(filled: real, avgPrice: Option<real>, quantity: real, price: real): real {
    var total := filled * avgPrice.GetOr(0.0) + quantity * price;
    if filled + quantity > 0.0 then total / (filled + quantity) else 0.0
  }

  function Do(o: OrderState, c: Call): OrderState {
    match c
    case TransitionTo(status) => Move(o, status)
    case MarkSent(id) => Move(o.(exchangeId := Some(id)), Sent)
    case MarkAcked => Move(o, Ack)
    case MarkPartialFill(quantity, price, fee) =>
      if Raises(o, c) then o
      else
        var f := AddFill(o, quantity, price, fee);
        if o.status != Partial then Move(f, Partial) else f
    case MarkFilled(quantity, price, fee) =>
      Move(o.(filled := quantity.GetOr(o.quantity), avgPrice := if price.Some? then price else o.avgPrice, fee := o.fee + fee), Filled)
    case MarkCanceled => Move(o, Canceled)
    case MarkRejected => if o.status != Sent then o else Move(o, Rejected)
  }

  function DoAll(o: OrderState, calls: seq<Call>): OrderState {
    if calls == [] then o else Do(DoAll(o, calls[..|calls| - 1]), calls[|calls| - 1])
  }

  // ---------------------------------------------------------------- legal histories

  /** Starts at NEW, follows allowed transitions only, has no terminal status before its end, and
      ends at the given status. */
  ghost predicate LegalPath(history: seq<Status>, status: Status) {
    && history != [] && history[0] == New && history[|history| - 1] == status
    && (forall i :: 0 <= i < |history| - 1 ==> history[i + 1] in Allowed(history[i]))
    && (forall i :: 0 <= i < |history| - 1 ==> !Terminal(history[i]))
  }

  /** What one call does to status and history: nothing, or one allowed move. */
  ghost predicate MovesLegally(o: OrderState, p: OrderState) {
    || (p.status == o.status && p.history == o.history)
    || (p.status in Allowed(o.status) && p.history == o.history + [p.status])
  }

  lemma CallMovesLegally(o: OrderState, c: Call)
    ensures MovesLegally(o, Do(o, c))
    ensures Raises(o, c) ==> Do(o, c).status == o.status && Do(o, c).history == o.history
    ensures !Raises(o, c) ==> Do(o, c).status == Target(o, c)
  {
    hide AddFill;
    match c
    case MarkPartialFill(quantity, price, fee) => AddFillStatus(o, quantity, price, fee);
    case _ =>
  }

  lemma AddFillStatus(o: OrderState, quantity: real, price: real, fee: real)
    ensures AddFill(o, quantity, price, fee).status == o.status && AddFill(o, quantity, price, fee).history == o.history
  {
  }

  lemma MoveKeepsPath(o: OrderState, p: OrderState)
    requires LegalPath(o.history, o.status) && MovesLegally(o, p)
    ensures LegalPath(p.history, p.status)
  {
  }

  /** Under every sequence of calls, raising or not, the history is a legal path to the current status. */
  lemma {:induction false} HistoryLegal(quantity: real, calls: seq<Call>)
    ensures LegalPath(DoAll(NewOrder(quantity), calls).history, DoAll(NewOrder(quantity), calls).status)
  {
    hide Do, LegalPath, MovesLegally;
    if calls == [] {
      NewIsLegal(quantity);
    } else {
      var n := |calls| - 1;
      HistoryLegal(quantity, calls[..n]);
      var o := DoAll(NewOrder(quantity), calls[..n]);
      CallMovesLegally(o, calls[n]);
      MoveKeepsPath(o, Do(o, calls[n]));
    }
  }

  lemma NewIsLegal(quantity: real)
    ensures LegalPath(NewOrder(quantity).history, NewOrder(quantity).status)
  {
  }

  lemma {:induction false} PathExtends(o: OrderState, calls: seq<Call>)
    ensures o.history <= DoAll(o, calls).history
    ensures Terminal(o.status) ==> DoAll(o, calls).status == o.status && DoAll(o, calls).history == o.history
  {
    hide Do;
    if calls == [] {
    } else {
      var n := |calls| - 1;
      PathExtends(o, calls[..n]);
      CallMovesLegally(DoAll(o, calls[..n]), calls[n]);
    }
  }

  /** History only grows, and from the first terminal status on nothing changes it or the status again. */
  lemma TerminalAbsorbs(quantity: real, calls: seq<Call>, more: seq<Call>)
    ensures var o := DoAll(NewOrder(quantity), calls);
            var p := DoAll(o, more);
            && o.history <= p.history
            && (Terminal(o.status) ==> p.status == o.status && p.history == o.history)
  {
    PathExtends(DoAll(NewOrder(quantity), calls), more);
  }

  /** Calls that write nothing before the check that raises, or only what is there already. */
  predicate Harmless(o: OrderState, c: Call) {
    match c
    case MarkSent(id) => o.exchangeId == Some(id)
    case MarkFilled(quantity, price, fee) =>
      o.filled == quantity.GetOr(o.quantity) && (price.None? || o.avgPrice == price) && fee == 0.0
    case _ => true
  }

  /** A raising call leaves the order as it was exactly when it is harmless: `mark_sent` and
      `mark_filled` write their fields before they check the transition. */
  lemma RaisingCallKeeps(o: OrderState, c: Call)
    requires Raises(o, c)
    ensures Do(o, c) == o <==> Harmless(o, c)
  {
  }

  /** A second `mark_sent`, which the order paths make, raises and has already replaced the exchange id. */
  lemma SecondSendOverwrites(quantity: real, first: string, second: string)
    ensures var o := DoAll(NewOrder(quantity), [MarkSent(first)]);
            && o.status == Sent && o.exchangeId == Some(first)
            && Raises(o, MarkSent(second))
            && Do(o, MarkSent(second)) == o.(exchangeId := Some(second))
  {
    assert [MarkSent(first)][..0] == [];
    assert DoAll(NewOrder(quantity), [MarkSent(first)]) == Do(NewOrder(quantity), MarkSent(first));
  }

  /** A terminal status does not protect the fill fields: a late `mark_filled` raises, yet has
      already overwritten the filled quantity. Exactly that call can do it. */
  lemma LateFillOverwrites(o: OrderState, c: Call)
    requires Terminal(o.status)
    ensures Raises(o, c)
    ensures Do(o, c).filled != o.filled <==> c.MarkFilled? && c.filledQuantity.GetOr(o.quantity) != o.filled
  {
  }

  // ---------------------------------------------------------------- fills

  datatype Fill = Fill(quantity: real, price: real, fee: real)

  function FillValue(f: Fill): real {
    f.quantity * f.price
  }

  function FillQuantity(f: Fill): real {
    f.quantity
  }

  function FillCalls(fills: seq<Fill>): (r: seq<Call>)
    ensures |r| == |fills|
    ensures forall i :: 0 <= i < |fills| ==> r[i] == MarkPartialFill(fills[i].quantity, fills[i].price, fills[i].fee)
  {
    seq(|fills|, i requires 0 <= i < |fills| => MarkPartialFill(fills[i].quantity, fills[i].price, fills[i].fee))
  }

  /** What the filled quantity has cost, by the running average price. */
  function FilledValue(o: OrderState): real {
    o.filled * o.avgPrice.GetOr(0.0)
  }

  lemma AddFillValue(o: OrderState, f: Fill)
    requires o.filled >= 0.0 && f.quantity >= 0.0
    ensures FilledValue(AddFill(o, f.quantity, f.price, f.fee)) == FilledValue(o) + FillValue(f)
  {
    if o.filled + f.quantity > 0.0 {
      DivMul(o.filled * o.avgPrice.GetOr(0.0) + f.quantity * f.price, o.filled + f.quantity);
    }
  }

  /** Any sequence of partial fills of an acknowledged order: the filled quantity is their sum
      and the average price is their volume-weighted mean. */
  lemma {:induction false} AverageIsWeighted(o: OrderState, fills: seq<Fill>)
    requires o.status == Ack && o.filled == 0.0
    requires forall i :: 0 <= i < |fills| ==> fills[i].quantity >= 0.0
    ensures var p := DoAll(o, FillCalls(fills));
            && p.filled == Sum(Map(FillQuantity, fills))
            && FilledValue(p) == Sum(Map(FillValue, fills))
            && p.filled >= 0.0
            && p.status == if fills == [] then Ack else Partial
  {
    hide Do, DoAll, AddFill, FillValue, FilledValue, Sum, Map, FillCalls;
    if fills == [] {
      NoFills(o);
    } else {
      var n := |fills| - 1;
      AverageIsWeighted(o, fills[..n]);
      SumMapSnoc(FillQuantity, fills);
      SumMapSnoc(FillValue, fills);
      FillCallsSnoc(o, fills);
      FillStep(DoAll(o, FillCalls(fills[..n])), fills[n]);
    }
  }

  lemma NoFills(o: OrderState)
    requires o.filled == 0.0
    ensures DoAll(o, FillCalls([])) == o && Sum(Map(FillQuantity, [])) == 0.0 && Sum(Map(FillValue, [])) == 0.0
    ensures FilledValue(o) == 0.0
  {
    hide Do;
    assert Map(FillQuantity, []) == [] && Map(FillValue, []) == [];
  }

  lemma FillCallsSnoc(o: OrderState, fills: seq<Fill>)
    requires fills != []
    ensures var n, f := |fills| - 1, fills[|fills| - 1];
            DoAll(o, FillCalls(fills)) == Do(DoAll(o, FillCalls(fills[..n])), MarkPartialFill(f.quantity, f.price, f.fee))
  {
    hide Do;
    assert FillCalls(fills)[..|fills| - 1] == FillCalls(fills[..|fills| - 1]);
  }

  lemma SumMapSnoc(f: Fill -> real, s: seq<Fill>)
    requires s != []
    ensures Sum(Map(f, s)) == Sum(Map(f, s[..|s| - 1])) + f(s[|s| - 1])
  {
    assert Map(f, s)[..|s| - 1] == Map(f, s[..|s| - 1]);
  }

  lemma FillStep(o: OrderState, f: Fill)
    requires (o.status == Ack || o.status == Partial) && o.filled >= 0.0 && f.quantity >= 0.0
    ensures var p := Do(o, MarkPartialFill(f.quantity, f.price, f.fee));
            && p.status == Partial && p.filled == o.filled + FillQuantity(f)
            && FilledValue(p) == FilledValue(o) + FillValue(f)
  {
    AddFillValue(o, f);
    AddFillStatus(o, f.quantity, f.price, f.fee);
    AddFillQuantity(o, f);
    hide AddFill, FillValue;
  }

  lemma AddFillQuantity(o: OrderState, f: Fill)
    ensures AddFill(o, f.quantity, f.price, f.fee).filled == o.filled + f.quantity
  {
  }

  // ---------------------------------------------------------------- which calls succeed

  /** The statuses from which each call goes through. */
  predicate Permitted(s: Status, c: Call) {
    match c
    case MarkSent(_) => s == New
    case MarkAcked => s == Sent
    case MarkPartialFill(_, _, _) => s == Ack || s == Partial
    case MarkFilled(_, _, _) => s == Ack || s == Partial
    case MarkRejected => s == Sent
    case MarkCanceled => s == New || s == Sent || s == Ack || s == Partial
    case TransitionTo(to) =>
      || (to == Sent && s == New)
      || ((to == Ack || to == Rejected) && s == Sent)
      || ((to == Partial || to == Filled) && (s == Ack || s == Partial))
      || (to == Canceled && (s == New || s == Sent || s == Ack || s == Partial))
  }

  /** A call goes through exactly from those statuses. */
  lemma SucceedsExactly(o: OrderState, c: Call)
    ensures !Raises(o, c) <==> Permitted(o.status, c)
  {
  }

  /** Where a call that goes through leads, and what it writes. */
  lemma SuccessWrites(o: OrderState, c: Call)
    requires !Raises(o, c)
    ensures c.MarkSent? ==> Do(o, c) == o.(status := Sent, history := o.history + [Sent], exchangeId := Some(c.exchangeId))
    ensures c.MarkAcked? ==> Do(o, c) == o.(status := Ack, history := o.history + [Ack])
    ensures c.MarkRejected? ==> Do(o, c) == o.(status := Rejected, history := o.history + [Rejected])
    ensures c.MarkCanceled? ==> Do(o, c) == o.(status := Canceled, history := o.history + [Canceled])
    ensures c.MarkFilled? ==>
              Do(o, c) == o.(status := Filled, history := o.history + [Filled], filled := c.filledQuantity.GetOr(o.quantity),
                             avgPrice := if c.fillPrice.Some? then c.fillPrice else o.avgPrice, fee := o.fee + c.fillFee)
    ensures c.MarkPartialFill? ==>
              && Do(o, c).status == Partial && Do(o, c).filled == o.filled + c.quantity && Do(o, c).fee == o.fee + c.fee
              && Do(o, c).history == (if o.status == Ack then o.history + [Partial] else o.history)
              && Do(o, c).quantity == o.quantity && Do(o, c).exchangeId == o.exchangeId
  {
    hide AverageAfter;
  }

  function FillFee(f: Fill): real {
    f.fee
  }

  lemma {:induction false} PartialsOnly(o: OrderState, fills: seq<Fill>)
    requires o.status == Ack
    ensures var p := DoAll(o, FillCalls(fills));
            && p.status == (if fills == [] then Ack else Partial)
            && p.history == o.history + (if fills == [] then [] else [Partial])
            && p.fee == o.fee + Sum(Map(FillFee, fills))
            && p.quantity == o.quantity && p.exchangeId == o.exchangeId
  {
    hide Do, Raises, FillCalls, Sum, Map;
    if fills == [] {
      NoFees(o);
    } else {
      var n := |fills| - 1;
      PartialsOnly(o, fills[..n]);
      SumMapSnoc(FillFee, fills);
      FillCallsSnoc(o, fills);
      var p, c := DoAll(o, FillCalls(fills[..n])), MarkPartialFill(fills[n].quantity, fills[n].price, fills[n].fee);
      SucceedsExactly(p, c);
      SuccessWrites(p, c);
    }
  }

  lemma NoFees(o: OrderState)
    ensures DoAll(o, FillCalls([])) == o && Sum(Map(FillFee, [])) == 0.0
  {
    assert Map(FillFee, []) == [];
  }

  lemma {:induction false} DoAllConcat(o: OrderState, a: seq<Call>, b: seq<Call>)
    ensures DoAll(o, a + b) == DoAll(DoAll(o, a), b)
  {
    hide Do;
    if b == [] {
      assert a + b == a;
    } else {
      var n := |b| - 1;
      DoAllConcat(o, a, b[..n]);
      assert (a + b)[..|a + b| - 1] == a + b[..n];
    }
  }

  lemma DoAllOne(o: OrderState, c: Call)
    ensures DoAll(o, [c]) == Do(o, c)
  {
    hide Do;
    assert [c][..0] == [];
  }

  /** A new order that is sent and acknowledged has nothing filled yet. */
  lemma AcknowledgedOrder(quantity: real, id: string)
    ensures DoAll(NewOrder(quantity), [MarkSent(id)] + [MarkAcked])
              == OrderState(Ack, quantity, Some(id), 0.0, None, 0.0, [New, Sent, Ack])
  {
    hide Do, DoAll, Raises;
    var a := NewOrder(quantity);
    DoAllConcat(a, [MarkSent(id)], [MarkAcked]);
    DoAllOne(a, MarkSent(id));
    SucceedsExactly(a, MarkSent(id));
    SuccessWrites(a, MarkSent(id));
    var b := Do(a, MarkSent(id));
    DoAllOne(b, MarkAcked);
    SucceedsExactly(b, MarkAcked);
    SuccessWrites(b, MarkAcked);
    assert [New] + [Sent] + [Ack] == [New, Sent, Ack];
  }

  /** After that and any partial fills it has filled their total, at their volume-weighted mean price. */
  lemma WorkingOrder(quantity: real, id: string, fills: seq<Fill>)
    requires forall i :: 0 <= i < |fills| ==> fills[i].quantity >= 0.0
    ensures var o := DoAll(NewOrder(quantity), ([MarkSent(id)] + [MarkAcked]) + FillCalls(fills));
            && o.status == (if fills == [] then Ack else Partial)
            && o.filled == Sum(Map(FillQuantity, fills)) && FilledValue(o) == Sum(Map(FillValue, fills))
            && o.fee == Sum(Map(FillFee, fills))
  {
    hide DoAll, FillCalls, Sum, Map, FilledValue, FillValue;
    AcknowledgedOrder(quantity, id);
    DoAllConcat(NewOrder(quantity), [MarkSent(id)] + [MarkAcked], FillCalls(fills));
    var o := DoAll(NewOrder(quantity), [MarkSent(id)] + [MarkAcked]);
    AverageIsWeighted(o, fills);
    PartialsOnly(o, fills);
  }

  /** An order that is sent, acknowledged, filled in part any number of times, and filled: it ends FILLED
      with that very history, its exchange id, the final quantity and price, and all fees. */
  lemma FilledOrder(quantity: real, id: string, fills: seq<Fill>, filled: Option<real>, price: Option<real>, fee: real)
    ensures var o := DoAll(NewOrder(quantity), ([MarkSent(id)] + [MarkAcked]) + (FillCalls(fills) + [MarkFilled(filled, price, fee)]));
            && o.status == Filled
            && o.history == [New, Sent, Ack] + (if fills == [] then [] else [Partial]) + [Filled]
            && o.exchangeId == Some(id)
            && o.filled == filled.GetOr(quantity) && (price.Some? ==> o.avgPrice == price)
            && o.fee == Sum(Map(FillFee, fills)) + fee
  {
    hide Do, DoAll, Raises, FillCalls, Sum, Map;
    var last := MarkFilled(filled, price, fee);
    AcknowledgedOrder(quantity, id);
    var c := DoAll(NewOrder(quantity), [MarkSent(id)] + [MarkAcked]);
    DoAllConcat(NewOrder(quantity), [MarkSent(id)] + [MarkAcked], FillCalls(fills) + [last]);
    DoAllConcat(c, FillCalls(fills), [last]);
    PartialsOnly(c, fills);
    var d := DoAll(c, FillCalls(fills));
    DoAllOne(d, last);
    SucceedsExactly(d, last);
    SuccessWrites(d, last);
  }

  lemma PathStatus(o: OrderState)
    requires LegalPath(o.history, o.status)
    ensures o.status != Pending && o.status != Synced
  {
    var n := |o.history|;
    if n > 1 {
      assert o.history[n - 2 + 1] in Allowed(o.history[n - 2]);
    }
  }

  /** The terminal statuses are FILLED, CANCELED and REJECTED: of the reachable ones, exactly those
      from which every call raises. */
  lemma TerminalExactly(quantity: real, calls: seq<Call>)
    ensures var o := DoAll(NewOrder(quantity), calls);
            && (Terminal(o.status) <==> o.status in {Filled, Canceled, Rejected})
            && (Terminal(o.status) <==> forall c: Call :: Raises(o, c))
  {
    HistoryLegal(quantity, calls);
    var o := DoAll(NewOrder(quantity), calls);
    PathStatus(o);
    hide DoAll, LegalPath;
    SucceedsExactly(o, MarkCanceled);
    forall c: Call | Terminal(o.status) ensures Raises(o, c) {
      SucceedsExactly(o, c);
    }
  }

  // ---------------------------------------------------------------- the class

  class OrderStateMachine {
    const orderId: string
    const quantity: real
    var exchangeOrderId: Option<string>
    var status: Status
    var filledQuantity: real
    var avgFillPrice: Option<real>
    var fee: real
    var history: seq<Status>

    constructor (orderId: string, quantity: real)
      ensures this.orderId == orderId && View() == NewOrder(quantity)
    {
      this.orderId, this.quantity := orderId, quantity;
      exchangeOrderId, status, filledQuantity, avgFillPrice, fee := None, New, 0.0, None, 0.0;
      history := [New];
    }

    function View(): OrderState
      reads this
    {
      OrderState(status, quantity, exchangeOrderId, filledQuantity, avgFillPrice, fee, history)
    }

    method Transition(to: Status) returns (raised: bool)
      modifies this
      ensures raised == Raises(old(View()), TransitionTo(to)) && View() == Do(old(View()), TransitionTo(to))
    {
      if to !in Allowed(status) {
        return true;
      }
      status := to;
      history := history + [to];
      return false;
    }

    method Sent(exchangeId: string) returns (raised: bool)
      modifies this
      ensures raised == Raises(old(View()), MarkSent(exchangeId)) && View() == Do(old(View()), MarkSent(exchangeId))
    {
      exchangeOrderId := Some(exchangeId);
      raised := Transition(Status.Sent);
    }

    method Acked() returns (raised: bool)
      modifies this
      ensures raised == Raises(old(View()), MarkAcked) && View() == Do(old(View()), MarkAcked)
    {
      raised := Transition(Ack);
    }

    method PartiallyFilled(quantity: real, price: real, fee: real) returns (raised: bool)
      modifies this
      ensures raised == Raises(old(View()), MarkPartialFill(quantity, price, fee))
      ensures View() == Do(old(View()), MarkPartialFill(quantity, price, fee))
    {
      if status != Ack && status != Partial {
        return true;
      }
      hide AverageAfter;
      avgFillPrice := Some(AverageAfter(filledQuantity, avgFillPrice, quantity, price));
      filledQuantity := filledQuantity + quantity;
      this.fee := this.fee + fee;
      raised := false;
      if status != Partial {
        raised := Transition(Partial);
      }
    }

    method FullyFilled(quantity: Option<real>, price: Option<real>, fee: real) returns (raised: bool)
      modifies this
      ensures raised == Raises(old(View()), MarkFilled(quantity, price, fee))
      ensures View() == Do(old(View()), MarkFilled(quantity, price, fee))
    {
      if quantity.Some? {
        filledQuantity := quantity.value;
      } else {
        filledQuantity := this.quantity;
      }
      if price.Some? {
        avgFillPrice := price;
      }
      this.fee := this.fee + fee;
      raised := Transition(Filled);
    }

    method Cancel() returns (raised: bool)
      modifies this
      ensures raised == Raises(old(View()), MarkCanceled) && View() == Do(old(View()), MarkCanceled)
    {
      if Terminal(status) {
        return true;
      }
      raised := Transition(Canceled);
    }

    method Reject() returns (raised: bool)
      modifies this
      ensures raised == Raises(old(View()), MarkRejected) && View() == Do(old(View()), MarkRejected)
    {
      if status != Status.Sent {
        return true;
      }
      raised := Transition(Rejected);
    }
  }
}
