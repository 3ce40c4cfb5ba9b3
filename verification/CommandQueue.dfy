/** The command queue between the API tasks and the engine loop (src/engine/command_queue.py and
    _process_commands of src/engine/core.py) as a protocol of atomic steps: everything between two
    awaits is one step, and steps of producers, engine and waiters interleave in any order. */
module CommandQueue {
  import opened PySeq

  type Id = string

  datatype Outcome = Outcome(result: Option<string>, error: Option<string>)

  datatype Command = Command(id: Id, kind: string, outcome: Outcome, completed: bool)

  /** `submitting`: registered in `_pending` but not through `_queue.put` yet. The last three fields
      record history: ids in the order enqueued, completions, and deliveries (id asked for, command returned). */
  datatype Protocol = Protocol(
    maxSize: int,
    submitting: set<Id>,
    queue: seq<Id>,
    pending: map<Id, Command>,
    executing: Option<Id>,
    results: map<Id, Command>,
    enqueued: seq<Id>,
    completions: seq<Command>,
    deliveries: seq<(Id, Command)>)

  datatype Event =
    | Register(command: Command)
    | Enqueue(id: Id)
    | Dequeue
    | Complete(outcome: Outcome)
    | Poll(id: Id)

  function Start(maxSize: int): Protocol {
    Protocol(maxSize, {}, [], map[], None, map[], [], [], [])
  }

  function CommandId(c: Command): Id {
    c.id
  }

  function DeliveredTo(d: (Id, Command)): Id {
    d.0
  }

  /** Every id the protocol has seen. */
  ghost function Known(p: Protocol): set<Id> {
    p.pending.Keys + p.results.Keys + (set d | d in p.deliveries :: DeliveredTo(d))
  }

  /** asyncio.Queue: unbounded when maxsize is not positive. */
  predicate HasRoom(p: Protocol) {
    p.maxSize <= 0 || |p.queue| < p.maxSize
  }

  function Finish(c: Command, outcome: Outcome): Command {
    c.(outcome := outcome, completed := true)
  }

  /** One atomic step; a step that is not enabled changes nothing. Command ids are fresh UUIDs. */
  ghost function Apply(p: Protocol, e: Event): Protocol {
    match e
    case Register(c) =>
      if c.id in Known(p) then p
      else p.(submitting := p.submitting + {c.id}, pending := p.pending[c.id := c])
    case Enqueue(id) =>
      if id !in p.submitting || !HasRoom(p) then p
      else p.(submitting := p.submitting - {id}, queue := p.queue + [id], enqueued := p.enqueued + [id])
    case Dequeue =>
      if p.executing.Some? || p.queue == [] then p
      else p.(queue := p.queue[1..], executing := Some(p.queue[0]))
    case Complete(outcome) =>
      if p.executing.None? then p
      else
        var id := p.executing.value;
        if id !in p.pending then p.(executing := None)
        else
          var c := Finish(p.pending[id], outcome);
          p.(executing := None, pending := p.pending - {id}, results := p.results[id := c],
             completions := p.completions + [c])
    case Poll(id) =>
      if id !in p.results then p
      else p.(results := p.results - {id}, deliveries := p.deliveries + [(id, p.results[id])])
  }

  ghost function Run(maxSize: int, events: seq<Event>): Protocol {
    if events == [] then Start(maxSize) else Apply(Run(maxSize, events[..|events| - 1]), events[|events| - 1])
  }

  // ---------------------------------------------------------------- the invariant

  function InExecution(p: Protocol): seq<Id> {
    if p.executing.Some? then [p.executing.value] else []
  }

  /** `_pending` holds exactly the commands that are submitted, queued or executing; `_results` the
      completed ones nobody has fetched; and nothing is in two places. */
  ghost predicate Placed(p: Protocol) {
    && (forall id :: id in p.pending <==> id in p.submitting || id in p.queue || id in InExecution(p))
    && (forall id :: id in p.submitting ==> id !in p.enqueued)
    && (forall id :: id in p.pending ==> id !in p.results && id !in Map(DeliveredTo, p.deliveries) && p.pending[id].id == id)
    && (forall id :: id in p.results ==> id !in Map(DeliveredTo, p.deliveries))
  }

  /** Commands leave the queue in the order they entered it, each once. */
  ghost predicate Fifo(p: Protocol) {
    && p.enqueued == Map(CommandId, p.completions) + InExecution(p) + p.queue
    && NoRepeats(p.enqueued)
    && (p.maxSize > 0 ==> |p.queue| <= p.maxSize)
  }

  /** What is fetched is the completed command of that very id, and no id is fetched twice. */
  ghost predicate Faithful(p: Protocol) {
    && (forall id :: id in p.results ==> p.results[id].id == id && p.results[id] in p.completions)
    && (forall i :: 0 <= i < |p.deliveries| ==> p.deliveries[i].1.id == p.deliveries[i].0 && p.deliveries[i].1 in p.completions)
    && NoRepeats(Map(DeliveredTo, p.deliveries))
    && (forall i :: 0 <= i < |p.completions| ==> p.completions[i].completed)
    && (forall i :: 0 <= i < |p.completions| ==>
          p.completions[i].id in p.results || p.completions[i].id in Map(DeliveredTo, p.deliveries))
  }

  ghost predicate Invariant(p: Protocol) {
    Placed(p) && Fifo(p) && Faithful(p)
  }

  lemma RegisterKeeps(p: Protocol, c: Command)
    requires Invariant(p)
    ensures Invariant(Apply(p, Register(c)))
  {
    if c.id !in Known(p) {
      EnqueuedKnown(p);
      assert c.id !in p.enqueued;
      forall d | d in p.deliveries ensures DeliveredTo(d) != c.id {
        assert DeliveredTo(d) in Known(p);
      }
    }
  }

  /** Whatever was ever enqueued is still known. */
  lemma EnqueuedKnown(p: Protocol)
    requires Invariant(p)
    ensures forall id :: id in p.enqueued ==> id in Known(p)
  {
    forall id | id in p.enqueued ensures id in Known(p) {
      if id in Map(CommandId, p.completions) {
        var i :| 0 <= i < |p.completions| && p.completions[i].id == id;
        if id in Map(DeliveredTo, p.deliveries) {
          var j :| 0 <= j < |p.deliveries| && DeliveredTo(p.deliveries[j]) == id;
          assert p.deliveries[j] in p.deliveries;
        }
      }
    }
  }

  lemma EnqueueKeeps(p: Protocol, id: Id)
    requires Invariant(p)
    ensures Invariant(Apply(p, Enqueue(id)))
  {
    if id in p.submitting && HasRoom(p) {
      var q := Apply(p, Enqueue(id));
      assert q.enqueued == Map(CommandId, q.completions) + InExecution(q) + q.queue;
      assert forall x :: x in q.queue <==> x in p.queue || x == id;
    }
  }

  lemma DequeueKeeps(p: Protocol)
    requires Invariant(p)
    ensures Invariant(Apply(p, Dequeue))
  {
    if p.executing.None? && p.queue != [] {
      var q := Apply(p, Dequeue);
      assert p.queue == [p.queue[0]] + q.queue;
      assert q.enqueued == Map(CommandId, q.completions) + InExecution(q) + q.queue;
      assert forall x :: x in p.queue <==> x == p.queue[0] || x in q.queue;
    }
  }

  lemma CompleteKeeps(p: Protocol, outcome: Outcome)
    requires Invariant(p)
    ensures Invariant(Apply(p, Complete(outcome)))
  {
    if p.executing.Some? {
      var q, id := Apply(p, Complete(outcome)), p.executing.value;
      assert id in InExecution(p);
      var c := Finish(p.pending[id], outcome);
      CompletionLeaves(p, id);
      assert Map(CommandId, q.completions) == Map(CommandId, p.completions) + [id];
      assert q.enqueued == Map(CommandId, q.completions) + InExecution(q) + q.queue;
      assert Placed(q);
      assert forall x :: x in p.completions ==> x in q.completions;
      forall i | 0 <= i < |q.completions|
        ensures q.completions[i].completed && (q.completions[i].id in q.results || q.completions[i].id in Map(DeliveredTo, q.deliveries))
      {
        if i < |p.completions| { assert q.completions[i] == p.completions[i]; }
      }
    }
  }

  lemma CompletedCommand(p: Protocol, id: Id)
    requires Invariant(p) && p.executing == Some(id)
    ensures id in p.pending
  {
    assert id in InExecution(p);
  }

  lemma CompletionFields(p: Protocol, id: Id, outcome: Outcome)
    requires p.executing == Some(id) && id in p.pending
    ensures Apply(p, Complete(outcome)) == p.(
              executing := None,
              pending := p.pending - {id},
              results := p.results[id := Finish(p.pending[id], outcome)],
              completions := p.completions + [Finish(p.pending[id], outcome)])
  {
  }

  /** The executing command is neither queued nor submitting. */
  lemma CompletionLeaves(p: Protocol, id: Id)
    requires Invariant(p) && p.executing == Some(id)
    ensures id !in p.queue && id !in p.submitting
  {
    var n := |p.completions|;
    assert p.enqueued[n] == id;
    forall i | 0 <= i < |p.queue| ensures p.queue[i] != id {
      assert p.enqueued[n + 1 + i] == p.queue[i];
    }
  }

  lemma PollKeeps(p: Protocol, id: Id)
    requires Invariant(p)
    ensures Invariant(Apply(p, Poll(id)))
  {
    if id in p.results {
      var q := Apply(p, Poll(id));
      var d, d' := Map(DeliveredTo, p.deliveries), Map(DeliveredTo, q.deliveries);
      assert d' == d + [id];
      assert forall x :: x in d' <==> x in d || x == id;
      assert Fifo(q);
      assert Placed(q);
      forall i | 0 <= i < |q.deliveries| ensures q.deliveries[i].1.id == q.deliveries[i].0 && q.deliveries[i].1 in q.completions {
        if i < |p.deliveries| { assert q.deliveries[i] == p.deliveries[i]; }
      }
    }
  }

  lemma StepKeeps(p: Protocol, e: Event)
    requires Invariant(p)
    ensures Invariant(Apply(p, e))
  {
    hide *;
    match e
    case Register(c) => RegisterKeeps(p, c);
    case Enqueue(id) => EnqueueKeeps(p, id);
    case Dequeue => DequeueKeeps(p);
    case Complete(outcome) => CompleteKeeps(p, outcome);
    case Poll(id) => PollKeeps(p, id);
  }

  lemma StartHolds(maxSize: int)
    ensures Invariant(Start(maxSize))
  {
    assert Map(CommandId, []) == [] && Map(DeliveredTo, []) == [];
  }

  /** The invariant holds after every interleaving of the tasks' steps. */
  lemma {:induction false} EveryRun(maxSize: int, events: seq<Event>)
    ensures Invariant(Run(maxSize, events))
  {
    hide Apply, Invariant, Start;
    if events == [] {
      StartHolds(maxSize);
    } else {
      EveryRun(maxSize, events[..|events| - 1]);
      StepKeeps(Run(maxSize, events[..|events| - 1]), events[|events| - 1]);
    }
  }

  lemma {:induction false} SizeStays(maxSize: int, events: seq<Event>)
    ensures Run(maxSize, events).maxSize == maxSize
  {
    hide Known;
    if events == [] {
    } else {
      SizeStays(maxSize, events[..|events| - 1]);
    }
  }

  /** In every run a bounded queue holds at most `maxsize` commands, and the next one is refused exactly when it
      holds that many; an unbounded one refuses none. */
  lemma QueueBound(maxSize: int, events: seq<Event>, id: Id)
    ensures var p := Run(maxSize, events);
            && (maxSize > 0 ==> |p.queue| <= maxSize)
            && (id in p.submitting ==>
                  Apply(p, Enqueue(id)).queue == if maxSize > 0 && |p.queue| == maxSize then p.queue else p.queue + [id])
  {
    hide Run, Placed, Faithful, Known;
    EveryRun(maxSize, events);
    SizeStays(maxSize, events);
  }

  // ---------------------------------------------------------------- the life of one command

  datatype Stage = Unknown | Submitting | Queued | Executing | Awaiting | Delivered {
    function Rank(): nat {
      match this
      case Unknown => 0
      case Submitting => 1
      case Queued => 2
      case Executing => 3
      case Awaiting => 4
      case Delivered => 5
    }
  }

  ghost predicate At(p: Protocol, id: Id, stage: Stage) {
    match stage
    case Unknown => id !in Known(p)
    case Submitting => id in p.submitting
    case Queued => id in p.queue
    case Executing => p.executing == Some(id)
    case Awaiting => id in p.results
    case Delivered => id in Map(DeliveredTo, p.deliveries)
  }

  lemma KnownPlaces(p: Protocol, id: Id)
    requires Invariant(p)
    ensures id in Known(p) <==> id in p.submitting || id in p.queue || p.executing == Some(id) || id in p.results
                                || id in Map(DeliveredTo, p.deliveries)
  {
    assert id in InExecution(p) <==> p.executing == Some(id);
    if id in Map(DeliveredTo, p.deliveries) {
      var i :| 0 <= i < |p.deliveries| && DeliveredTo(p.deliveries[i]) == id;
      assert p.deliveries[i] in p.deliveries;
    }
    if d :| d in p.deliveries && DeliveredTo(d) == id {
      var i :| 0 <= i < |p.deliveries| && p.deliveries[i] == d;
      assert Map(DeliveredTo, p.deliveries)[i] == id;
    }
  }

  function StageOf(p: Protocol, id: Id): Stage {
    if id in p.submitting then Submitting
    else if id in p.queue then Queued
    else if p.executing == Some(id) then Executing
    else if id in p.results then Awaiting
    else if id in Map(DeliveredTo, p.deliveries) then Delivered
    else Unknown
  }

  /** At every moment of every interleaving each id is at exactly one stage of its life. */
  lemma ExactlyOneStage(maxSize: int, events: seq<Event>, id: Id)
    ensures forall stage :: At(Run(maxSize, events), id, stage) <==> stage == StageOf(Run(maxSize, events), id)
  {
    EveryRun(maxSize, events);
    hide Run;
    OneStage(Run(maxSize, events), id);
  }

  lemma OneStage(p: Protocol, id: Id)
    requires Invariant(p)
    ensures forall stage :: At(p, id, stage) <==> stage == StageOf(p, id)
  {
    KnownPlaces(p, id);
    QueuedOrSubmitting(p, id);
    if p.executing == Some(id) {
      CompletionLeaves(p, id);
      assert id in InExecution(p);
    }
  }

  lemma QueuedOrSubmitting(p: Protocol, id: Id)
    requires Invariant(p)
    ensures id in p.submitting ==> id !in p.queue && p.executing != Some(id)
  {
    assert id in p.queue ==> id in p.enqueued;
    assert p.executing == Some(id) ==> id in InExecution(p) && id in p.enqueued;
  }

  /** `_pending` is exactly the first three stages and `_results` exactly the fourth. */
  lemma TablesAreStages(maxSize: int, events: seq<Event>, id: Id)
    ensures var p := Run(maxSize, events);
            && (id in p.pending <==> 1 <= StageOf(p, id).Rank() <= 3)
            && (id in p.results <==> StageOf(p, id) == Awaiting)
  {
    EveryRun(maxSize, events);
    hide Run;
    OneStage(Run(maxSize, events), id);
    var p := Run(maxSize, events);
    assert id in InExecution(p) <==> p.executing == Some(id);
  }

  /** The event takes this command to its next stage: registering an unknown one, enqueueing a submitted one
      while there is room, taking the oldest queued one while none is executing, completing the executing
      one, fetching an awaited one. */
  ghost predicate Takes(p: Protocol, e: Event, id: Id) {
    match e
    case Register(c) => c.id == id && StageOf(p, id) == Unknown
    case Enqueue(x) => x == id && StageOf(p, id) == Submitting && (p.maxSize <= 0 || |p.queue| < p.maxSize)
    case Dequeue => p.executing.None? && p.queue != [] && p.queue[0] == id
    case Complete(_) => StageOf(p, id) == Executing
    case Poll(x) => x == id && StageOf(p, id) == Awaiting
  }

  /** A step moves a command one stage on if it takes it, and otherwise leaves it where it is. */
  ghost predicate Advances(p: Protocol, e: Event, id: Id) {
    StageOf(Apply(p, e), id).Rank() == StageOf(p, id).Rank() + if Takes(p, e, id) then 1 else 0
  }

  lemma EnqueueAdvances(p: Protocol, x: Id, id: Id)
    requires Invariant(p)
    ensures Advances(p, Enqueue(x), id)
  {
    QueuedOrSubmitting(p, id);
    hide Invariant;
  }

  lemma DequeueAdvances(p: Protocol, id: Id)
    requires Invariant(p)
    ensures Advances(p, Dequeue, id)
  {
    QueuedOrSubmitting(p, id);
    var q := Apply(p, Dequeue);
    if q != p {
      assert p.queue == [p.queue[0]] + q.queue;
      DequeueKeeps(p);
      CompletionLeaves(q, p.queue[0]);
    }
    hide Invariant;
  }

  lemma CompleteAdvances(p: Protocol, outcome: Outcome, id: Id)
    requires Invariant(p)
    ensures Advances(p, Complete(outcome), id)
  {
    if p.executing.Some? {
      CompletionLeaves(p, p.executing.value);
      CompletedCommand(p, p.executing.value);
    }
    hide Invariant;
  }

  lemma PollAdvances(p: Protocol, x: Id, id: Id)
    requires Invariant(p)
    ensures Advances(p, Poll(x), id)
  {
    var q := Apply(p, Poll(x));
    if q != p {
      OneStage(p, x);
      assert At(p, x, Awaiting);
      assert Map(DeliveredTo, q.deliveries) == Map(DeliveredTo, p.deliveries) + [x];
    }
    hide Invariant;
  }

  lemma RegisterAdvances(p: Protocol, c: Command, id: Id)
    requires Invariant(p)
    ensures Advances(p, Register(c), id)
  {
    KnownPlaces(p, id);
    hide Invariant;
  }

  lemma StageStep(p: Protocol, e: Event, id: Id)
    requires Invariant(p)
    ensures Advances(p, e, id)
  {
    hide *;
    match e
    case Register(c) => RegisterAdvances(p, c, id);
    case Enqueue(x) => EnqueueAdvances(p, x, id);
    case Dequeue => DequeueAdvances(p, id);
    case Complete(outcome) => CompleteAdvances(p, outcome, id);
    case Poll(x) => PollAdvances(p, x, id);
  }

  /** Along any run every command only moves forward: nothing completed executes again, and nothing
      delivered is delivered again. */
  lemma {:induction false} ForwardOnly(maxSize: int, events: seq<Event>, more: seq<Event>, id: Id)
    ensures StageOf(Run(maxSize, events), id).Rank() <= StageOf(Run(maxSize, events + more), id).Rank()
  {
    hide Apply, StageOf;
    if more == [] {
      assert events + more == events;
    } else {
      var n := |more| - 1;
      ForwardOnly(maxSize, events, more[..n], id);
      var all := events + more;
      assert all[..|all| - 1] == events + more[..n] && all[|all| - 1] == more[n];
      EveryRun(maxSize, events + more[..n]);
      StageStep(Run(maxSize, events + more[..n]), more[n], id);
    }
  }

  /** Commands complete in the order they were queued, each exactly once, up to the one executing. */
  lemma CompletesInQueueOrder(maxSize: int, events: seq<Event>)
    ensures var p := Run(maxSize, events);
            && Map(CommandId, p.completions) <= p.enqueued
            && NoRepeats(Map(CommandId, p.completions))
            && |p.enqueued| == |p.completions| + (if p.executing.Some? then 1 else 0) + |p.queue|
  {
    EveryRun(maxSize, events);
    hide Run;
    var p := Run(maxSize, events);
    var done := Map(CommandId, p.completions);
    assert p.enqueued == done + (InExecution(p) + p.queue);
    forall i, j | 0 <= i < j < |done| ensures done[i] != done[j] {
      assert p.enqueued[i] == done[i] && p.enqueued[j] == done[j];
    }
  }

  /** A waiter gets the completed command it asked for; no id is ever handed out twice, and every
      completed command is either handed out or still waiting. */
  lemma DeliveredOnce(maxSize: int, events: seq<Event>)
    ensures var p := Run(maxSize, events);
            && NoRepeats(Map(DeliveredTo, p.deliveries))
            && (forall i :: 0 <= i < |p.deliveries| ==>
                  var d := p.deliveries[i]; d.1.id == d.0 && d.1.completed && d.1 in p.completions)
            && (forall i :: 0 <= i < |p.completions| ==>
                  p.completions[i].id in p.results || p.completions[i].id in Map(DeliveredTo, p.deliveries))
  {
    EveryRun(maxSize, events);
    hide Run;
    var p := Run(maxSize, events);
    forall i | 0 <= i < |p.deliveries| ensures p.deliveries[i].1.completed {
      var j :| 0 <= j < |p.completions| && p.completions[j] == p.deliveries[i].1;
    }
  }

  // ---------------------------------------------------------------- the class and the drain loop

  // ---------------------------------------------------------------- outcomes

  /** Event e of the run registered this command: its id was new. */
  ghost predicate RegisteredBy(maxSize: int, events: seq<Event>, e: nat, c: Command)
    requires e < |events|
  {
    && events[e].Register? && events[e].command.id == c.id && events[e].command.kind == c.kind
    && c.id !in Known(Run(maxSize, events[..e]))
  }

  /** Event e of the run finished this command with this outcome. */
  ghost predicate FinishedBy(maxSize: int, events: seq<Event>, e: nat, c: Command)
    requires e < |events|
  {
    events[e] == Complete(c.outcome) && Run(maxSize, events[..e]).executing == Some(c.id)
  }

  ghost predicate Registered(maxSize: int, events: seq<Event>, c: Command) {
    exists e :: 0 <= e < |events| && RegisteredBy(maxSize, events, e, c)
  }

  ghost predicate Finished(maxSize: int, events: seq<Event>, c: Command) {
    exists e :: 0 <= e < |events| && FinishedBy(maxSize, events, e, c)
  }

  ghost predicate Traced(maxSize: int, events: seq<Event>) {
    var p := Run(maxSize, events);
    && (forall id :: id in p.pending ==> Registered(maxSize, events, p.pending[id]))
    && (forall i :: 0 <= i < |p.completions| ==>
          Registered(maxSize, events, p.completions[i]) && Finished(maxSize, events, p.completions[i]))
  }

  lemma TraceGrows(maxSize: int, events: seq<Event>, e: Event, c: Command)
    ensures Registered(maxSize, events, c) ==> Registered(maxSize, events + [e], c)
    ensures Finished(maxSize, events, c) ==> Finished(maxSize, events + [e], c)
  {
    hide Run;
    var all := events + [e];
    if k :| 0 <= k < |events| && RegisteredBy(maxSize, events, k, c) {
      assert all[..k] == events[..k];
      assert RegisteredBy(maxSize, all, k, c);
    }
    if k :| 0 <= k < |events| && FinishedBy(maxSize, events, k, c) {
      assert all[..k] == events[..k];
      assert FinishedBy(maxSize, all, k, c);
    }
  }

  /** The event just seen registers or finishes what it says. */
  lemma TraceLast(maxSize: int, events: seq<Event>, e: Event, c: Command)
    ensures e == Register(c) && c.id !in Known(Run(maxSize, events)) ==> Registered(maxSize, events + [e], c)
    ensures e == Complete(c.outcome) && Run(maxSize, events).executing == Some(c.id) ==> Finished(maxSize, events + [e], c)
  {
    hide Run;
    var all := events + [e];
    assert all[..|events|] == events;
    if e == Register(c) && c.id !in Known(Run(maxSize, events)) {
      assert RegisteredBy(maxSize, all, |events|, c);
    }
    if e == Complete(c.outcome) && Run(maxSize, events).executing == Some(c.id) {
      assert FinishedBy(maxSize, all, |events|, c);
    }
  }

  lemma SameTrace(maxSize: int, events: seq<Event>, c: Command, d: Command)
    requires c.id == d.id && c.kind == d.kind && Registered(maxSize, events, c)
    ensures Registered(maxSize, events, d)
  {
    hide Run;
    var e :| 0 <= e < |events| && RegisteredBy(maxSize, events, e, c);
    assert RegisteredBy(maxSize, events, e, d);
  }

  lemma RunSnoc(maxSize: int, events: seq<Event>, e: Event)
    ensures Run(maxSize, events + [e]) == Apply(Run(maxSize, events), e)
  {
    hide Apply;
    assert (events + [e])[..|events|] == events;
  }

  /** What one step adds to the completions and to the pending commands. */
  lemma StepAdds(p: Protocol, e: Event)
    requires Invariant(p)
    ensures var q := Apply(p, e);
            && (forall id :: id in q.pending ==>
                  (id in p.pending && q.pending[id] == p.pending[id])
                  || (e.Register? && e.command.id == id && id !in Known(p) && q.pending[id] == e.command))
            && (q.completions == p.completions
                || (e.Complete? && p.executing.Some? && p.executing.value in p.pending
                    && q.completions == p.completions + [p.pending[p.executing.value].(outcome := e.outcome, completed := true)]))
  {
    hide Invariant, Known;
  }

  lemma TraceStep(maxSize: int, events: seq<Event>, e: Event)
    requires Traced(maxSize, events)
    ensures Traced(maxSize, events + [e])
  {
    EveryRun(maxSize, events);
    RunSnoc(maxSize, events, e);
    var p, q := Run(maxSize, events), Run(maxSize, events + [e]);
    StepAdds(p, e);
    PendingIds(p);
    hide Run, Apply, Invariant, Registered, Finished, Known;
    forall id | id in q.pending ensures Registered(maxSize, events + [e], q.pending[id]) {
      TraceGrows(maxSize, events, e, q.pending[id]);
      TraceLast(maxSize, events, e, q.pending[id]);
    }
    forall i | 0 <= i < |q.completions|
      ensures Registered(maxSize, events + [e], q.completions[i]) && Finished(maxSize, events + [e], q.completions[i])
    {
      var c := q.completions[i];
      TraceGrows(maxSize, events, e, c);
      if i < |p.completions| {
        assert c == p.completions[i];
      } else {
        TraceLast(maxSize, events, e, c);
        SameTrace(maxSize, events, p.pending[p.executing.value], c);
      }
    }
  }

  lemma PendingIds(p: Protocol)
    requires Invariant(p)
    ensures forall id :: id in p.pending ==> p.pending[id].id == id
  {
  }

  lemma {:induction false} EveryTrace(maxSize: int, events: seq<Event>)
    ensures Traced(maxSize, events)
  {
    if events == [] {
    } else {
      var n := |events| - 1;
      EveryTrace(maxSize, events[..n]);
      assert events == events[..n] + [events[n]];
      TraceStep(maxSize, events[..n], events[n]);
    }
  }

  /** In every run each completed command, and each command handed to a waiter, has the id and kind it
      was registered with and the result or error of the completion that finished it. */
  lemma OutcomesTraced(maxSize: int, events: seq<Event>)
    ensures var p := Run(maxSize, events);
            && (forall i :: 0 <= i < |p.completions| ==>
                  Registered(maxSize, events, p.completions[i]) && Finished(maxSize, events, p.completions[i]))
            && (forall i :: 0 <= i < |p.deliveries| ==>
                  Registered(maxSize, events, p.deliveries[i].1) && Finished(maxSize, events, p.deliveries[i].1))
  {
    EveryTrace(maxSize, events);
    DeliveredOnce(maxSize, events);
    hide Run, Registered, Finished, NoRepeats;
    var p := Run(maxSize, events);
    forall i | 0 <= i < |p.deliveries|
      ensures Registered(maxSize, events, p.deliveries[i].1) && Finished(maxSize, events, p.deliveries[i].1)
    {
      var d := p.deliveries[i].1;
      assert d in p.completions;
      var k :| 0 <= k < |p.completions| && p.completions[k] == d;
    }
  }

  function Ids(cs: seq<Command>): seq<Id> {
    Map(CommandId, cs)
  }

  class Queue {
    var queue: seq<Command>
    var pending: map<Id, Command>
    var results: map<Id, Command>
    const maxSize: int
    ghost var protocol: Protocol

    ghost predicate Valid()
      reads this
    {
      && Invariant(protocol)
      && protocol.maxSize == maxSize
      && protocol.pending == pending && protocol.results == results
      && protocol.queue == Ids(queue)
      && (forall i :: 0 <= i < |queue| ==> queue[i].id in pending && pending[queue[i].id] == queue[i])
    }

    constructor (maxSize: int)
      ensures Valid() && protocol == Start(maxSize)
    {
      queue, pending, results := [], map[], map[];
      this.maxSize := maxSize;
      protocol := Start(maxSize);
      new;
      StartHolds(maxSize);
      assert Ids([]) == [];
    }

    /** First half of `put`, under the lock. */
    method PutRegister(command: Command)
      requires Valid() && command.id !in Known(protocol)
      modifies this
      ensures Valid() && protocol == Apply(old(protocol), Register(command))
    {
      hide Invariant;
      StepKeeps(protocol, Register(command));
      pending := pending[command.id := command];
      protocol := Apply(protocol, Register(command));
    }

    /** Second half of `put`; False while the queue is full and the producer stays blocked. */
    method PutEnqueue(command: Command) returns (done: bool)
      requires Valid() && command.id in protocol.submitting
      requires command.id in pending && pending[command.id] == command
      modifies this
      ensures Valid() && protocol == Apply(old(protocol), Enqueue(command.id))
      ensures done == (maxSize <= 0 || |old(queue)| < maxSize)
    {
      hide Invariant;
      if maxSize > 0 && |queue| >= maxSize {
        return false;
      }
      StepKeeps(protocol, Enqueue(command.id));
      queue := queue + [command];
      protocol := Apply(protocol, Enqueue(command.id));
      assert Ids(queue) == Ids(old(queue)) + [command.id];
      done := true;
    }

    method GetNowait() returns (command: Option<Command>)
      requires Valid() && protocol.executing.None?
      modifies this
      ensures Valid() && protocol == Apply(old(protocol), Dequeue)
      ensures command == if old(queue) == [] then None else Some(old(queue)[0])
      ensures command.Some? ==> protocol.executing == Some(command.value.id) && queue == old(queue)[1..]
      ensures command.None? ==> queue == []
    {
      hide Invariant;
      StepKeeps(protocol, Dequeue);
      if queue == [] {
        return None;
      }
      command := Some(queue[0]);
      queue := queue[1..];
      protocol := Apply(protocol, Dequeue);
      assert Ids(queue) == Ids(old(queue))[1..];
    }

    method Complete(id: Id, outcome: Outcome)
      requires Valid() && protocol.executing == Some(id)
      modifies this
      ensures Valid() && protocol == Apply(old(protocol), Event.Complete(outcome))
      ensures protocol.executing.None? && queue == old(queue)
      ensures id in old(pending) && id in results
      ensures results[id] == old(pending)[id].(outcome := outcome, completed := true) && results[id].id == id
    {
      hide Invariant, Apply;
      PendingIds(protocol);
      StepKeeps(protocol, Event.Complete(outcome));
      CompletionLeaves(protocol, id);
      CompletedCommand(protocol, id);
      CompletionFields(protocol, id, outcome);
      if id in pending {
        var command := Finish(pending[id], outcome);
        pending := pending - {id};
        results := results[id := command];
      }
      protocol := Apply(protocol, Event.Complete(outcome));
      forall i | 0 <= i < |queue| ensures queue[i].id != id {
        assert Ids(queue)[i] == queue[i].id;
      }
    }

    /** One turn of the polling loop of `get_result`. */
    method TryResult(id: Id) returns (command: Option<Command>)
      requires Valid()
      modifies this
      ensures Valid() && protocol == Apply(old(protocol), Poll(id))
      ensures command == if id in old(results) then Some(old(results)[id]) else None
      ensures command.Some? ==> command.value.id == id && command.value.completed && id !in results
    {
      StepKeeps(protocol, Poll(id));
      command := None;
      if id in results {
        assert protocol.results[id] in protocol.completions;
        command := Some(results[id]);
        results := results - {id};
        hide Invariant;
        protocol := Apply(protocol, Poll(id));
      }
    }

    /** `_process_commands` while no other task runs: every queued command is executed and completed,
        in queue order, whether `execute` returns a result or an error. */
    method ProcessCommands(execute: Command -> Outcome)
      requires Valid() && protocol.executing.None?
      modifies this
      ensures Valid() && protocol.executing.None? && queue == []
      ensures |protocol.completions| == |old(protocol).completions| + |old(queue)|
      ensures old(protocol).completions <= protocol.completions
      ensures forall i :: 0 <= i < |old(queue)| ==>
                protocol.completions[|old(protocol).completions| + i]
                  == old(queue)[i].(outcome := execute(old(queue)[i]), completed := true)
    {
      hide Invariant, Executed;
      ghost var before := protocol.completions;
      ghost var start := queue;
      ghost var n := 0;
      ExecutedStart(start, execute);
      while true
        invariant Valid() && protocol.executing.None?
        invariant n <= |start| && queue == start[n..]
        invariant protocol.completions == before + Executed(start[..n], execute)
        decreases |queue|
      {
        var command := GetNowait();
        if command.None? {
          assert start[..n] == start;
          ExecutedAt(start, execute);
          break;
        }
        var c := command.value;
        var outcome := execute(c);
        CompletedCommand(protocol, c.id);
        Complete(c.id, outcome);
        ExecutedSnoc(start, n, execute);
        n := n + 1;
      }
    }
  }

  /** The completed commands a drain produces. */
  ghost function Executed(cs: seq<Command>, execute: Command -> Outcome): seq<Command> {
    seq(|cs|, i requires 0 <= i < |cs| => Finish(cs[i], execute(cs[i])))
  }

  lemma ExecutedAt(cs: seq<Command>, execute: Command -> Outcome)
    ensures |Executed(cs, execute)| == |cs|
    ensures forall i :: 0 <= i < |cs| ==> Executed(cs, execute)[i] == cs[i].(outcome := execute(cs[i]), completed := true)
  {
  }

  lemma ExecutedStart(cs: seq<Command>, execute: Command -> Outcome)
    ensures cs[..0] == [] && cs[0..] == cs && Executed(cs[..0], execute) == []
  {
  }

  lemma ExecutedSnoc(cs: seq<Command>, n: nat, execute: Command -> Outcome)
    requires n < |cs|
    ensures Executed(cs[..n + 1], execute) == Executed(cs[..n], execute) + [Finish(cs[n], execute(cs[n]))]
    ensures cs[n..][1..] == cs[n + 1..]
  {
  }
}
