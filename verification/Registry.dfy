/** The order registry of src/execution/executor.py: active orders, the archive, and what any
    interleaving of creations, status changes, syncs, cancellations and cleanups does to them. */
module Registry {
  import opened PySeq
  import opened Orders

  type Id = string

  const ARCHIVE_LIMIT := 10000

  /** `orders` is the heap of order objects ever created; `active` the keys of `_active_orders` in
      insertion order; `archive` the ids in `_order_history`; `dropped` those trimmed from it. */
  datatype Book = Book(orders: map<Id, OrderState>, active: seq<Id>, archive: seq<Id>, dropped: seq<Id>)

  /** Whoever holds an order may call it at any time, also after it has left the active table:
      the second half of a cancel or sync that was waiting for the exchange is such a call. */
  datatype Event =
    | Create(id: Id, quantity: real)
    | Mark(id: Id, call: Call)
    | Sync(id: Id, reported: Option<Status>)
    | Cancel(id: Id, accepted: bool)
    | Cleanup

  function StatusOf(b: Book, id: Id): Status {
    if id in b.orders then b.orders[id].status else New
  }

  function Select(b: Book, ids: seq<Id>, terminal: bool): seq<Id> {
    if ids == [] then []
    else
      var id := ids[|ids| - 1];
      Select(b, ids[..|ids| - 1], terminal) + if Terminal(StatusOf(b, id)) == terminal then [id] else []
  }

  function CallOrder(b: Book, id: Id, c: Call): Book {
    if id in b.orders then b.(orders := b.orders[id := Do(b.orders[id], c)]) else b
  }

  /** An order without an exchange id (None or empty) is not synced. */
  predicate Syncable(b: Book, id: Id) {
    id in b.active && id in b.orders && b.orders[id].exchangeId.Some? && b.orders[id].exchangeId.value != ""
  }

  /** `mark_canceled` on an active order goes through. */
  predicate Cancellable(b: Book, id: Id) {
    id in b.active && id in b.orders && !Raises(b.orders[id], MarkCanceled)
  }

  function Apply(b: Book, e: Event): Book {
    match e
    case Create(id, quantity) =>
      if id in b.orders then b else b.(orders := b.orders[id := NewOrder(quantity)], active := b.active + [id])
    case Mark(id, call) => CallOrder(b, id, call)
    case Sync(id, reported) =>
      if Syncable(b, id) && reported.Some? && reported.value != StatusOf(b, id)
      then CallOrder(b, id, TransitionTo(reported.value)) else b
    case Cancel(id, accepted) =>
      if id in b.active && !Terminal(StatusOf(b, id)) && accepted then CallOrder(b, id, MarkCanceled) else b
    case Cleanup =>
      var archive := b.archive + Select(b, b.active, true);
      var excess := if |archive| > ARCHIVE_LIMIT then |archive| - ARCHIVE_LIMIT else 0;
      b.(active := Select(b, b.active, false), archive := archive[excess..], dropped := b.dropped + archive[..excess])
  }

  function Run(events: seq<Event>): Book {
    if events == [] then Book(map[], [], [], []) else Apply(Run(events[..|events| - 1]), events[|events| - 1])
  }

  // ---------------------------------------------------------------- the invariant

  /** Every created order is in exactly one of the three lists, once; what is archived or dropped is terminal. */
  ghost predicate Partitioned(b: Book) {
    && NoRepeats(b.dropped + b.archive + b.active)
    && (forall id :: id in b.orders <==> id in b.dropped + b.archive + b.active)
    && (forall id :: id in b.dropped + b.archive ==> Terminal(StatusOf(b, id)))
    && |b.archive| <= ARCHIVE_LIMIT
  }

  lemma CallKeeps(b: Book, id: Id, c: Call)
    requires Partitioned(b)
    ensures Partitioned(CallOrder(b, id, c))
  {
    if id in b.orders {
      CallMovesLegally(b.orders[id], c);
      hide Do;
    }
  }

  lemma {:induction false} SelectMembers(b: Book, ids: seq<Id>, terminal: bool)
    ensures forall id :: id in Select(b, ids, terminal) <==> id in ids && Terminal(StatusOf(b, id)) == terminal
  {
    if ids == [] {
    } else {
      SelectMembers(b, ids[..|ids| - 1], terminal);
    }
  }

  lemma {:induction false} SelectNoRepeats(b: Book, ids: seq<Id>, terminal: bool)
    requires NoRepeats(ids)
    ensures NoRepeats(Select(b, ids, terminal))
  {
    if ids == [] {
    } else {
      var n := |ids| - 1;
      SelectNoRepeats(b, ids[..n], terminal);
      SelectMembers(b, ids[..n], terminal);
      var s := Select(b, ids[..n], terminal);
      forall i | 0 <= i < |s| ensures s[i] != ids[n] {
        assert s[i] in ids[..n];
      }
    }
  }

  lemma NoRepeatsConcat(a: seq<Id>, b: seq<Id>)
    ensures NoRepeats(a + b) <==> NoRepeats(a) && NoRepeats(b) && forall x :: x in a ==> x !in b
  {
    var c := a + b;
    if NoRepeats(c) {
      NoRepeatsParts(a, b);
    } else if NoRepeats(a) && NoRepeats(b) && forall x :: x in a ==> x !in b {
      NoRepeatsJoin(a, b);
    }
  }

  lemma NoRepeatsJoin(a: seq<Id>, b: seq<Id>)
    requires NoRepeats(a) && NoRepeats(b) && forall x :: x in a ==> x !in b
    ensures NoRepeats(a + b)
  {
    var c := a + b;
    forall i, j | 0 <= i < j < |c| ensures c[i] != c[j] {
      if i < |a| <= j {
        assert c[i] in a && c[j] in b;
      }
    }
  }

  lemma NoRepeatsParts(a: seq<Id>, b: seq<Id>)
    requires NoRepeats(a + b)
    ensures NoRepeats(a) && NoRepeats(b) && forall x :: x in a ==> x !in b
  {
    var c := a + b;
    forall i | 0 <= i < |a| ensures c[i] == a[i] {
    }
    forall j | 0 <= j < |b| ensures c[|a| + j] == b[j] {
    }
    forall i, j | 0 <= i < j < |b| ensures b[i] != b[j] {
      assert c[|a| + i] != c[|a| + j];
    }
    forall i, j | 0 <= i < |a| && 0 <= j < |b| ensures a[i] != b[j] {
      assert c[i] != c[|a| + j];
    }
  }

  lemma CleanupKeeps(b: Book)
    requires Partitioned(b)
    ensures Partitioned(Apply(b, Cleanup))
  {
    var done, rest := Select(b, b.active, true), Select(b, b.active, false);
    CleanupShape(b);
    SelectMembers(b, b.active, true);
    SelectMembers(b, b.active, false);
    NoRepeatsConcat(b.dropped + b.archive, b.active);
    SelectNoRepeats(b, b.active, true);
    SelectNoRepeats(b, b.active, false);
    hide Select, NoRepeats, Apply, Terminal;
    NoRepeatsConcat(b.dropped + b.archive, done);
    NoRepeatsConcat(b.dropped + b.archive + done, rest);
    var c := Apply(b, Cleanup);
    assert forall id :: StatusOf(c, id) == StatusOf(b, id);
  }

  lemma CleanupShape(b: Book)
    ensures var c, done, rest := Apply(b, Cleanup), Select(b, b.active, true), Select(b, b.active, false);
            && c.orders == b.orders && c.active == rest && |c.archive| <= ARCHIVE_LIMIT
            && c.dropped + c.archive == b.dropped + b.archive + done
            && c.dropped + c.archive + c.active == b.dropped + b.archive + done + rest
  {
    hide Select;
  }

  lemma CreateKeeps(b: Book, id: Id, quantity: real)
    requires Partitioned(b)
    ensures Partitioned(Apply(b, Create(id, quantity)))
  {
    if id !in b.orders {
      var c := Apply(b, Create(id, quantity));
      assert c.dropped + c.archive + c.active == (b.dropped + b.archive + b.active) + [id];
    }
  }

  lemma StepKeeps(b: Book, e: Event)
    requires Partitioned(b)
    ensures Partitioned(Apply(b, e))
  {
    hide Partitioned, CallOrder, Select;
    match e
    case Create(id, quantity) => CreateKeeps(b, id, quantity);
    case Mark(id, call) => CallKeeps(b, id, call);
    case Sync(id, reported) =>
      if reported.Some? { CallKeeps(b, id, TransitionTo(reported.value)); }
    case Cancel(id, _) => CallKeeps(b, id, MarkCanceled);
    case Cleanup => CleanupKeeps(b);
  }

  lemma {:induction false} EveryRun(events: seq<Event>)
    ensures Partitioned(Run(events))
  {
    hide Apply;
    if events == [] {
    } else {
      EveryRun(events[..|events| - 1]);
      StepKeeps(Run(events[..|events| - 1]), events[|events| - 1]);
    }
  }

  /** `get_active_orders` lists the entries that are not terminal. */
  function ActiveOrders(b: Book): seq<Id> {
    Select(b, b.active, false)
  }

  /** Under every interleaving the listed active orders are exactly the created ones that are not
      terminal, each once; the archive holds terminal orders only; and nothing created is lost except
      what the archive limit drops. */
  lemma ActiveAreNonTerminal(events: seq<Event>)
    ensures var b := Run(events);
            && (forall id :: id in ActiveOrders(b) <==> id in b.orders && !Terminal(StatusOf(b, id)))
            && NoRepeats(ActiveOrders(b))
            && (forall id :: id in b.archive ==> id in b.orders && Terminal(StatusOf(b, id)))
            && (forall id :: id in b.orders ==> id in b.active || id in b.archive || id in b.dropped)
  {
    EveryRun(events);
    hide Run;
    var b := Run(events);
    SelectMembers(b, b.active, false);
    NoRepeatsConcat(b.dropped + b.archive, b.active);
    SelectNoRepeats(b, b.active, false);
    forall id | id in b.archive ensures Terminal(StatusOf(b, id)) {
      assert id in b.dropped + b.archive;
    }
  }

  /** An order in the registry behaves as in isolation: its state is the result of some sequence of calls. */
  lemma {:induction false} OrdersAreMachines(events: seq<Event>, id: Id) returns (quantity: real, calls: seq<Call>)
    requires id in Run(events).orders
    ensures Run(events).orders[id] == DoAll(NewOrder(quantity), calls)
  {
    hide Do, DoAll, NewOrder;
    var n := |events| - 1;
    var b := Run(events[..n]);
    if id in b.orders {
      quantity, calls := OrdersAreMachines(events[..n], id);
      var o := b.orders[id];
      var o' := Apply(b, events[n]).orders[id];
      if c: Call :| o' == Do(o, c) {
        DoAllSnoc(NewOrder(quantity), calls, c);
        calls := calls + [c];
      } else {
        OrderStep(b, events[n], id);
      }
    } else {
      assert events[n].Create? && events[n].id == id;
      quantity, calls := events[n].quantity, [];
      DoAllNil(NewOrder(quantity));
    }
  }

  lemma DoAllNil(o: OrderState)
    ensures DoAll(o, []) == o
  {
  }

  lemma DoAllSnoc(o: OrderState, calls: seq<Call>, c: Call)
    ensures DoAll(o, calls + [c]) == Do(DoAll(o, calls), c)
  {
    assert (calls + [c])[..|calls|] == calls;
  }

  lemma OrderStep(b: Book, e: Event, id: Id)
    requires id in b.orders
    ensures id in Apply(b, e).orders
    ensures Apply(b, e).orders[id] == b.orders[id] || exists c :: Apply(b, e).orders[id] == Do(b.orders[id], c)
  {
    hide Do, Select;
  }

  /** So every order of every registry run has a legal history. */
  lemma RegistryHistories(events: seq<Event>, id: Id)
    requires id in Run(events).orders
    ensures LegalPath(Run(events).orders[id].history, Run(events).orders[id].status)
  {
    var quantity, calls := OrdersAreMachines(events, id);
    HistoryLegal(quantity, calls);
  }

  /** Once archived, an order's status and history never change again. */
  lemma {:induction false} ArchivedForever(events: seq<Event>, more: seq<Event>, id: Id)
    requires id in Run(events).archive
    ensures id in Run(events).orders && id in Run(events + more).orders
    ensures Run(events + more).orders[id].status == Run(events).orders[id].status
    ensures Run(events + more).orders[id].history == Run(events).orders[id].history
  {
    hide Apply;
    ActiveAreNonTerminal(events);
    hide ActiveOrders;
    if more == [] {
      assert events + more == events;
    } else {
      var n := |more| - 1;
      ArchivedForever(events, more[..n], id);
      var all := events + more;
      assert all[..|all| - 1] == events + more[..n] && all[|all| - 1] == more[n];
      TerminalStep(Run(events + more[..n]), more[n], id);
    }
  }

  lemma TerminalStep(b: Book, e: Event, id: Id)
    requires id in b.orders && Terminal(b.orders[id].status)
    ensures id in Apply(b, e).orders
    ensures Apply(b, e).orders[id].status == b.orders[id].status && Apply(b, e).orders[id].history == b.orders[id].history
  {
    OrderStep(b, e, id);
    if c: Call :| Apply(b, e).orders[id] == Do(b.orders[id], c) {
      CallMovesLegally(b.orders[id], c);
    }
    hide Apply, Do;
  }

  /** In no run does cancelling raise for an order that is not terminal: PENDING and SYNCED, which
      allow nothing either, are never reached. */
  lemma CancelRaises(events: seq<Event>, id: Id)
    requires id in Run(events).orders
    ensures Raises(Run(events).orders[id], MarkCanceled) <==> Terminal(StatusOf(Run(events), id))
  {
    hide Run;
    RegistryHistories(events, id);
    PathStatus(Run(events).orders[id]);
  }

  /** A sync takes over what the exchange reports exactly when that is a move the status permits, and
      touches nothing else. */
  lemma SyncExactly(b: Book, id: Id, reported: Status)
    requires id in b.active && id in b.orders
    ensures var o, c := b.orders[id], Apply(b, Sync(id, Some(reported)));
            var taken := o.exchangeId.Some? && o.exchangeId.value != "" && reported != o.status && Permitted(o.status, TransitionTo(reported));
            && c == b.(orders := c.orders) && id in c.orders
            && c.orders[id] == (if taken then o.(status := reported, history := o.history + [reported]) else o)
            && (forall other :: other != id ==> (other in c.orders <==> other in b.orders) && (other in b.orders ==> c.orders[other] == b.orders[other]))
  {
    SucceedsExactly(b.orders[id], TransitionTo(reported));
  }

  /** A cleanup archives the terminal orders of the active table behind what is there, keeps the rest
      active, and drops the oldest entries beyond the newest 10000. */
  lemma CleanupExactly(b: Book)
    ensures var all, c := b.archive + Select(b, b.active, true), Apply(b, Cleanup);
            && c.orders == b.orders && c.active == Select(b, b.active, false)
            && c.archive == (if |all| <= 10000 then all else all[|all| - 10000..])
            && c.dropped + c.archive == b.dropped + all
    ensures forall id :: id in Select(b, b.active, true) <==>
              id in b.active && StatusOf(b, id) in {Filled, Canceled, Rejected}
  {
    SelectMembers(b, b.active, true);
    hide Select;
  }

  // ---------------------------------------------------------------- the class

  function OrderId(o: OrderStateMachine): Id {
    o.orderId
  }

  function Ids(os: seq<OrderStateMachine>): seq<Id> {
    Map(OrderId, os)
  }

  ghost predicate Matches(b: Book, os: seq<OrderStateMachine>)
    reads os
  {
    forall i :: 0 <= i < |os| ==> os[i].orderId in b.orders && b.orders[os[i].orderId] == os[i].View()
  }

  lemma MatchesSome(b: Book, os: seq<OrderStateMachine>, some: seq<OrderStateMachine>)
    requires Matches(b, os) && forall o :: o in some ==> o in os
    ensures Matches(b, some)
  {
    forall i | 0 <= i < |some| ensures some[i].orderId in b.orders && b.orders[some[i].orderId] == some[i].View() {
      assert some[i] in os;
    }
  }

  lemma MatchesConcat(b: Book, x: seq<OrderStateMachine>, y: seq<OrderStateMachine>)
    requires Matches(b, x) && Matches(b, y)
    ensures Matches(b, x + y)
  {
  }

  class ExecutionEngine {
    /** `_active_orders` in insertion order. */
    var active: seq<OrderStateMachine>
    var archive: seq<OrderStateMachine>

    /** The objects of this engine are the orders of the abstract book. */
    ghost predicate Represents(b: Book)
      reads this, active, archive
    {
      && Partitioned(b)
      && Ids(active) == b.active && Ids(archive) == b.archive
      && Matches(b, active) && Matches(b, archive)
    }

    constructor ()
      ensures active == [] && archive == [] && Represents(Book(map[], [], [], []))
    {
      active, archive := [], [];
      new;
      EveryRun([]);
    }

    /** `_active_orders.get(order_id)` */
    method Find(id: Id) returns (i: int)
      ensures -1 <= i < |active|
      ensures i >= 0 ==> active[i].orderId == id
      ensures i == -1 ==> id !in Ids(active)
    {
      i := 0;
      while i < |active|
        invariant 0 <= i <= |active|
        invariant forall j :: 0 <= j < i ==> Ids(active)[j] != id
      {
        if active[i].orderId == id {
          return;
        }
        i := i + 1;
      }
      i := -1;
    }

    method CreateOrder(id: Id, quantity: real, ghost b: Book) returns (order: OrderStateMachine)
      requires Represents(b) && id !in b.orders
      modifies this
      ensures fresh(order) && active == old(active) + [order] && archive == old(archive)
      ensures Represents(Apply(b, Create(id, quantity)))
    {
      hide *;
      Views(this, b);
      order := new OrderStateMachine(id, quantity);
      active := active + [order];
      Created(this, b, order, quantity);
    }

    /** `cancel_order`, with the exchange's answer; False if nothing was cancelled. */
    method CancelOrder(id: Id, accepted: bool, ghost b: Book) returns (done: bool)
      requires Represents(b)
      modifies active
      ensures Represents(Apply(b, Cancel(id, accepted)))
      ensures done == (accepted && Cancellable(b, id))
    {
      hide Represents, Matches, Partitioned, Do, Ids, Select;
      var i := Find(id);
      if i < 0 {
        NotInBook(this, b, id);
        return false;
      }
      MemberOfBook(this, b, i);
      var order := active[i];
      done := false;
      if !Terminal(order.status) && accepted {
        Views(this, b);
        var raised := order.Cancel();
        OneCalled(this, b, i, MarkCanceled);
        done := !raised;
      }
    }

    /** `sync_order_status`, with the status the exchange reports. */
    method SyncOrderStatus(id: Id, reported: Option<Status>, ghost b: Book) returns (r: Option<Status>)
      requires Represents(b)
      modifies active
      ensures Represents(Apply(b, Sync(id, reported)))
      ensures r == if Syncable(b, id) then reported else None
    {
      hide Represents, Matches, Partitioned, Do, Raises, Ids, Select;
      var i := Find(id);
      if i < 0 {
        NotInBook(this, b, id);
        return None;
      }
      MemberOfBook(this, b, i);
      var order := active[i];
      if order.exchangeOrderId.None? || order.exchangeOrderId.value == "" {
        return None;
      }
      r := reported;
      if reported.Some? && reported.value != order.status {
        Views(this, b);
        var raised := order.Transition(reported.value);
        OneCalled(this, b, i, TransitionTo(reported.value));
      }
    }

    /** The comprehension of `cleanup_completed_orders`: which entries are terminal. */
    method Split(ghost b: Book) returns (remaining: seq<OrderStateMachine>, moved: seq<OrderStateMachine>)
      requires Represents(b)
      ensures Ids(remaining) == Select(b, b.active, false) && Ids(moved) == Select(b, b.active, true)
      ensures forall o :: o in remaining || o in moved ==> o in active
    {
      hide Partitioned, Ids, Terminal;
      remaining, moved := [], [];
      IdsNil();
      IdsAt(active, |active|);
      for i := 0 to |active|
        invariant Ids(remaining) == Select(b, b.active[..i], false)
        invariant Ids(moved) == Select(b, b.active[..i], true)
        invariant forall o :: o in remaining || o in moved ==> o in active
      {
        IdsAt(active, i);
        assert b.active[..i + 1][..i] == b.active[..i];
        if Terminal(active[i].status) {
          IdsSnoc(moved, active[i]);
          moved := moved + [active[i]];
        } else {
          IdsSnoc(remaining, active[i]);
          remaining := remaining + [active[i]];
        }
      }
      assert b.active[..|active|] == b.active;
    }

    /** `cleanup_completed_orders` */
    method CleanupCompletedOrders(ghost b: Book)
      requires Represents(b)
      modifies this
      ensures Represents(Apply(b, Cleanup))
    {
      hide *;
      CleanupPartitions(this, b);
      var remaining, moved := Split(b);
      var kept := LastEntries(archive + moved);
      CleanupRepresents(this, b, remaining, moved, kept);
      active, archive := remaining, kept;
      RepresentsNow(this, Apply(b, Cleanup));
    }
  }

  lemma NotInBook(engine: ExecutionEngine, b: Book, id: Id)
    requires engine.Represents(b) && id !in Ids(engine.active)
    ensures id !in b.active
  {
  }

  lemma MemberOfBook(engine: ExecutionEngine, b: Book, i: nat)
    requires engine.Represents(b) && i < |engine.active|
    ensures var id := engine.active[i].orderId;
            id in b.active && id in b.orders && b.orders[id] == engine.active[i].View()
  {
    IdsAt(engine.active, i);
  }

  lemma Views(engine: ExecutionEngine, b: Book)
    requires engine.Represents(b)
    ensures Partitioned(b) && Ids(engine.active) == b.active && Ids(engine.archive) == b.archive
    ensures forall o :: o in engine.active || o in engine.archive ==> o.orderId in b.orders && b.orders[o.orderId] == o.View()
  {
  }

  /** A new order at the end of the active table is that creation on the book. */
  lemma Created(engine: ExecutionEngine, b: Book, order: OrderStateMachine, quantity: real)
    requires engine.active != [] && engine.active[|engine.active| - 1] == order
    requires Partitioned(b) && Ids(engine.active[..|engine.active| - 1]) == b.active && Ids(engine.archive) == b.archive
    requires order.orderId !in b.orders && order.View() == NewOrder(quantity)
    requires forall o :: o in engine.active[..|engine.active| - 1] || o in engine.archive ==>
               o.orderId in b.orders && b.orders[o.orderId] == o.View()
    ensures engine.Represents(Apply(b, Create(order.orderId, quantity)))
  {
    var rest, c := engine.active[..|engine.active| - 1], Apply(b, Create(order.orderId, quantity));
    StepKeeps(b, Create(order.orderId, quantity));
    hide Partitioned, NewOrder, Ids;
    IdsSnoc(rest, order);
    assert engine.active == rest + [order];
    ViewsMatch(c, rest);
    ViewsMatch(c, engine.archive);
  }

  lemma ViewsMatch(b: Book, os: seq<OrderStateMachine>)
    requires forall o :: o in os ==> o.orderId in b.orders && b.orders[o.orderId] == o.View()
    ensures Matches(b, os)
  {
    forall i | 0 <= i < |os| ensures os[i].orderId in b.orders && b.orders[os[i].orderId] == os[i].View() {
      assert os[i] in os;
    }
  }

  /** Calling one active order, and leaving all others alone, is that call on the book. */
  lemma OneCalled(engine: ExecutionEngine, b: Book, i: nat, c: Call)
    requires Partitioned(b) && Ids(engine.active) == b.active && Ids(engine.archive) == b.archive && i < |engine.active|
    requires engine.active[i].orderId in b.orders
    requires engine.active[i].View() == Do(b.orders[engine.active[i].orderId], c)
    requires forall o :: (o in engine.active || o in engine.archive) && o != engine.active[i] ==>
               o.orderId in b.orders && b.orders[o.orderId] == o.View()
    ensures engine.Represents(CallOrder(b, engine.active[i].orderId, c))
  {
    hide Do, Ids, Partitioned;
    var order := engine.active[i];
    CallKeeps(b, order.orderId, c);
    SameObjects(b, engine.active, engine.archive, i);
    CalledMatches(engine.active, b, order, c);
    CalledMatches(engine.archive, b, order, c);
  }

  lemma CalledMatches(os: seq<OrderStateMachine>, b: Book, order: OrderStateMachine, c: Call)
    requires order.orderId in b.orders && order.View() == Do(b.orders[order.orderId], c)
    requires forall o :: o in os && o != order ==>
               o.orderId != order.orderId && o.orderId in b.orders && b.orders[o.orderId] == o.View()
    ensures Matches(CallOrder(b, order.orderId, c), os)
  {
    hide Do;
    forall j | 0 <= j < |os|
      ensures os[j].orderId in b.orders
      ensures CallOrder(b, order.orderId, c).orders[os[j].orderId] == os[j].View()
    {
      assert os[j] in os;
    }
  }

  function LastEntries(os: seq<OrderStateMachine>): seq<OrderStateMachine> {
    if |os| > ARCHIVE_LIMIT then os[|os| - ARCHIVE_LIMIT..] else os
  }

  lemma CleanupPartitions(engine: ExecutionEngine, b: Book)
    requires engine.Represents(b)
    ensures Partitioned(Apply(b, Cleanup))
  {
    StepKeeps(b, Cleanup);
  }

  lemma RepresentsNow(engine: ExecutionEngine, b: Book)
    requires Partitioned(b) && Ids(engine.active) == b.active && Ids(engine.archive) == b.archive
    requires Matches(b, engine.active) && Matches(b, engine.archive)
    ensures engine.Represents(b)
  {
  }

  lemma CleanupRepresents(engine: ExecutionEngine, b: Book, remaining: seq<OrderStateMachine>,
                          moved: seq<OrderStateMachine>, kept: seq<OrderStateMachine>)
    requires engine.Represents(b)
    requires Ids(remaining) == Select(b, b.active, false) && Ids(moved) == Select(b, b.active, true)
    requires forall o :: o in remaining || o in moved ==> o in engine.active
    requires kept == LastEntries(engine.archive + moved)
    ensures Ids(remaining) == Apply(b, Cleanup).active && Ids(kept) == Apply(b, Cleanup).archive
    ensures Matches(Apply(b, Cleanup), remaining) && Matches(Apply(b, Cleanup), kept)
  {
    hide Partitioned, Matches, Ids, Select;
    MatchesSome(b, engine.active, remaining);
    MatchesSome(b, engine.active, moved);
    MatchesConcat(b, engine.archive, moved);
    IdsConcat(engine.archive, moved);
    var full := engine.archive + moved;
    TailIds(full, kept, |full| - |kept|);
    MatchesSome(b, full, kept);
    OrdersUntouched(b, remaining, kept);
  }

  lemma OrdersUntouched(b: Book, x: seq<OrderStateMachine>, y: seq<OrderStateMachine>)
    requires Matches(b, x) && Matches(b, y)
    ensures Matches(Apply(b, Cleanup), x) && Matches(Apply(b, Cleanup), y)
  {
    hide Select;
  }

  lemma IdsConcat(x: seq<OrderStateMachine>, y: seq<OrderStateMachine>)
    ensures Ids(x + y) == Ids(x) + Ids(y) && |Ids(x + y)| == |x + y|
  {
  }

  lemma IdsNil()
    ensures Ids([]) == []
  {
  }

  lemma IdsAt(os: seq<OrderStateMachine>, i: nat)
    requires i <= |os|
    ensures |Ids(os)| == |os| && (i < |os| ==> Ids(os)[i] == os[i].orderId)
  {
  }

  lemma IdsSnoc(os: seq<OrderStateMachine>, o: OrderStateMachine)
    ensures Ids(os + [o]) == Ids(os) + [o.orderId]
  {
  }

  lemma TailIds(full: seq<OrderStateMachine>, tail: seq<OrderStateMachine>, excess: int)
    requires 0 <= excess <= |full| && tail == full[excess..]
    ensures Ids(tail) == Ids(full)[excess..]
  {
  }

  lemma SameObjects(b: Book, active: seq<OrderStateMachine>, archive: seq<OrderStateMachine>, i: nat)
    requires Partitioned(b) && Ids(active) == b.active && Ids(archive) == b.archive && i < |active|
    ensures forall j :: 0 <= j < |active| && j != i ==> active[j].orderId != active[i].orderId
    ensures forall j :: 0 <= j < |archive| ==> archive[j].orderId != active[i].orderId
  {
    NoRepeatsConcat(b.dropped + b.archive, b.active);
    forall j | 0 <= j < |active| && j != i ensures active[j].orderId != active[i].orderId {
      assert b.active[j] == active[j].orderId && b.active[i] == active[i].orderId;
    }
    forall j | 0 <= j < |archive| ensures archive[j].orderId != active[i].orderId {
      assert b.archive[j] == archive[j].orderId && b.active[i] == active[i].orderId;
      assert b.archive[j] in b.dropped + b.archive;
    }
  }
}
