/** How often an order's created, completed, cancelled and failure events are emitted. */
module TrackerCompletion {
  import opened Options
  import opened Orders
  import opened Sequences
  import opened TrackerModel
  import opened TrackerInvariant
  import opened TrackerRuns
  import opened TrackerEvents

  datatype Kind = Creation | Completion | Cancellation | Failure

  predicate IsOf(e: Event, kind: Kind, id: Id) {
    match kind
    case Creation => e.OrderCreated? && e.id == id
    case Completion => e.OrderCompleted? && e.id == id
    case Cancellation => e.OrderCancelled? && e.id == id
    case Failure => e.OrderFailure? && e.id == id
  }

  function Count(log: seq<Event>, kind: Kind, id: Id): nat {
    if log == [] then 0
    else Count(log[..|log| - 1], kind, id) + (if IsOf(log[|log| - 1], kind, id) then 1 else 0)
  }

  lemma {:induction false} CountAppend(log: seq<Event>, more: seq<Event>, kind: Kind, id: Id)
    ensures Count(log + more, kind, id) == Count(log, kind, id) + Count(more, kind, id)
  {
    if more == [] {
      assert log + more == log;
    } else {
      assert (log + more)[..|log + more| - 1] == log + more[..|more| - 1];
      CountAppend(log, more[..|more| - 1], kind, id);
    }
  }

  /** How many created events an id may still cause: one until its order leaves the pending state. */
  function Allowance(orders: map<Id, Order>, id: Id): nat {
    if id in orders && orders[id].state != PendingCreate then 0 else 1
  }

  function Indicator(b: bool): nat {
    if b then 1 else 0
  }

  /** The step applies an update to the order that sends it back to the pending state. */
  predicate SendsBack(s: State, step: Step, id: Id)
    requires Resolves(s)
  {
    var a := AppliedBy(s, step);
    Hits(a, id) && id in s.orders && s.orders[id].state != PendingCreate && a.value.update.newState == PendingCreate
  }

  /** The order leaves the pending state without an event, or is handed over past it. */
  predicate Skips(s: State, step: Step, id: Id)
    requires Resolves(s)
  {
    if step.Start? then step.order.clientId == id && step.order.state != PendingCreate
    else
      var a := AppliedBy(s, step);
      && Hits(a, id) && id in s.orders && s.orders[id].state == PendingCreate
      && a.value.update.newState in {Canceled, Failed, PendingCancel}
  }

  /** How often the order is sent back in a run. */
  ghost function SentBack(s: State, steps: seq<Step>, id: Id): nat
    decreases |steps|
  {
    if steps == [] || !Resolves(s) then 0
    else Indicator(SendsBack(s, steps[0], id)) + SentBack(Next(s, steps[0]), steps[1..], id)
  }

  ghost function Skipped(s: State, steps: seq<Step>, id: Id): nat
    decreases |steps|
  {
    if steps == [] || !Resolves(s) then 0
    else Indicator(Skips(s, steps[0], id)) + Skipped(Next(s, steps[0]), steps[1..], id)
  }

  predicate ClosesAsFilled(o: Order) {
    !o.IsOpen() && o.state != Canceled && o.IsFilled()
  }

  /** How a closed order ended; in some closed states it got no event. */
  predicate EndsAs(o: Order, kind: Kind) {
    match kind
    case Creation => false
    case Completion => ClosesAsFilled(o)
    case Cancellation => o.state == Canceled
    case Failure => o.state == Failed && !o.IsFilled()
  }

  lemma ClosingCounts(o: Order, kind: Kind, id: Id)
    ensures var e := ClosingEvent(o);
            e.Some? && IsOf(e.value, kind, id) && !o.IsOpen() <==> o.clientId == id && EndsAs(o, kind)
  {
    hide IsClose;
  }

  lemma AnnouncedCounts(o: Order, u: OrderUpdate, kind: Kind, id: Id)
    ensures Count(Announced(o, u), kind, id)
         == (if o.clientId == id && OrderUpdateChanges(o, u)
                && (if kind == Creation then Creates(o.state, u.newState) else EndsAs(WithOrderUpdate(o, u), kind))
             then 1 else 0)
  {
    var o' := WithOrderUpdate(o, u);
    assert o'.clientId == o.clientId;
    ClosingCounts(o', kind, id);
    hide WithOrderUpdate, OrderUpdateChanges, ClosingEvent, ClosesAsFilled, Creates;
    var first := if Creates(o.state, u.newState) then [OrderCreated(o.clientId, o.side)] else [];
    var second := if o'.IsOpen() || ClosingEvent(o').None? then [] else [ClosingEvent(o').value];
    CountAppend(first, second, kind, id);
  }

  /** The counted events of a step are those of the update it applies. */
  lemma EventsCounted(s: State, step: Step, kind: Kind, id: Id)
    requires Inv(s) && Admissible(s, step)
    ensures Resolves(s)
    ensures var a := AppliedBy(s, step);
            && (a.Some? ==> a.value.id in s.orders && s.orders[a.value.id].clientId == a.value.id
                            && Addressed(a.value.update, s.orders[a.value.id]))
            && Count(EventsOf(s, step), kind, id)
               == if a.Some? then Count(Announced(s.orders[a.value.id], a.value.update), kind, id) else 0
  {
    hide Announced, Next, Addressed;
    StepEvents(s, step);
    if AppliedBy(s, step).Some? {
      KeyIsId(s, AppliedBy(s, step).value.id);
    }
    assert AppliedBy(s, step).Some? ==> !step.Trade?;
  }

  /** Every time an order may cause a created event it does, or skips it, or still may. */
  lemma CreationStep(s: State, step: Step, id: Id)
    requires Inv(s) && Admissible(s, step)
    ensures Count(s.log + EventsOf(s, step), Creation, id) + Allowance(OrdersAfter(s, step), id)
            + Indicator(Skips(s, step, id))
         == Count(s.log, Creation, id) + Allowance(s.orders, id) + Indicator(SendsBack(s, step, id))
  {
    hide Announced, WaitApplies, Next, WithOrderUpdate, OrderUpdateChanges, EventsOf, Count;
    CountAppend(s.log, EventsOf(s, step), Creation, id);
    EventsCounted(s, step, Creation, id);
    match AppliedBy(s, step)
    case Some(a) =>
      AnnouncedCounts(s.orders[a.id], a.update, Creation, id);
      AppliedState(s.orders[a.id], a.update);
    case None =>
  }

  lemma AppliedState(o: Order, u: OrderUpdate)
    requires Addressed(u, o)
    ensures WithOrderUpdate(o, u).state == u.newState
    ensures u.newState != o.state ==> OrderUpdateChanges(o, u)
  {
  }

  lemma {:induction false} CreationsOverRun(s: State, steps: seq<Step>, id: Id)
    requires Inv(s) && AdmissibleRun(s, steps)
    ensures Count(Run(s, steps).log, Creation, id) + Allowance(Run(s, steps).orders, id) + Skipped(s, steps, id)
         == Count(s.log, Creation, id) + Allowance(s.orders, id) + SentBack(s, steps, id)
    decreases |steps|
  {
    hide Next, SendsBack, Skips, Allowance, Count, Inv;
    if steps == [] {
    } else {
      StepKeeps(s, steps[0]);
      InvResolves(s);
      StepEvents(s, steps[0]);
      CreationStep(s, steps[0], id);
      CreationsOverRun(Next(s, steps[0]), steps[1..], id);
    }
  }

  /**
    In any run an order gets exactly one created event, and one more for every update that sends it
    back to the pending state, less the times it skips the event and the one it may still get.
   */
  lemma CreatedExactly(limit: int, steps: seq<Step>, id: Id)
    requires AdmissibleRun(Empty(limit), steps)
    ensures var s := Run(Empty(limit), steps);
            && Count(s.log, Creation, id)
               == 1 + SentBack(Empty(limit), steps, id) - Skipped(Empty(limit), steps, id) - Allowance(s.orders, id)
            && (SentBack(Empty(limit), steps, id) == 0 ==> Count(s.log, Creation, id) <= 1)
  {
    hide Next;
    EmptyInv(limit);
    CreationsOverRun(Empty(limit), steps, id);
  }

  function Named(id: Id, state: OrderState): OrderUpdate {
    OrderUpdate(Some(id), None, state, 0.0)
  }

  /** One applied update: what it does to an active order of its own. */
  lemma NamedUpdate(s: State, id: Id, state: OrderState, victim: nat)
    requires Inv(s) && id in s.active && state in {PendingCreate, Open} && state != s.orders[id].state
    ensures var s' := Next(s, Update(Named(id, state), victim));
            && Inv(s') && id in s'.active && id in s'.orders && s'.orders[id].state == state
            && AppliedBy(s, Update(Named(id, state), victim)) == Some(Applied(id, Named(id, state)))
  {
    var u := Named(id, state);
    KeyIsId(s, id);
    assert Fetch(s, s.active + s.cached, u.clientId, u.exchangeId) == Some(id);
    FinishEffect(s, id, u, victim);
    hide FinishUpdate, WithOrderUpdate;
  }

  /** A run in which every pending order is sent back once, and announced twice. */
  lemma CreatedTwice(limit: int, o: Order)
    requires o.clientId != "" && o.state == PendingCreate
    ensures var id := o.clientId;
            var steps := [Start(o), Update(Named(id, Open), 0), Update(Named(id, PendingCreate), 0),
                          Update(Named(id, Open), 0)];
            && AdmissibleRun(Empty(limit), steps) && SentBack(Empty(limit), steps, id) == 1
            && Count(Run(Empty(limit), steps).log, Creation, id) == 2
  {
    hide ProcessOrderUpdate, AppliedBy, Count, Inv;
    var id := o.clientId;
    var open, back := Update(Named(id, Open), 0), Update(Named(id, PendingCreate), 0);
    EmptyInv(limit);
    var s1 := StartTracking(Empty(limit), o);
    StartKeeps(Empty(limit), o);
    NamedUpdate(s1, id, Open, 0);
    var s2 := Next(s1, open);
    NamedUpdate(s2, id, PendingCreate, 0);
    InvResolves(s2);
    var s3 := Next(s2, back);
    NamedUpdate(s3, id, Open, 0);
    InvResolves(s3);
    var s4 := Next(s3, open);
    Unfolded(s4, [], id);
    StartOnly(limit, o);
    Unfolded(s3, [open], id);
    Unfolded(s2, [back, open], id);
    Unfolded(s1, [open, back, open], id);
    Unfolded(Empty(limit), [Start(o), open, back, open], id);
    CreatedExactly(limit, [Start(o), open, back, open], id);
  }

  lemma Unfolded(s: State, steps: seq<Step>, id: Id)
    requires Inv(s)
    ensures steps == [] ==> Run(s, steps) == s && SentBack(s, steps, id) == Skipped(s, steps, id) == 0
    ensures steps == [] ==> AdmissibleRun(s, steps)
    ensures steps != [] ==>
      && Resolves(s)
      && Run(s, steps) == Run(Next(s, steps[0]), steps[1..])
      && SentBack(s, steps, id)
         == Indicator(SendsBack(s, steps[0], id)) + SentBack(Next(s, steps[0]), steps[1..], id)
      && Skipped(s, steps, id) == Indicator(Skips(s, steps[0], id)) + Skipped(Next(s, steps[0]), steps[1..], id)
      && (AdmissibleRun(s, steps) <==>
            Admissible(s, steps[0]) && AdmissibleRun(Next(s, steps[0]), steps[1..]))
  {
    hide Next, SendsBack, Skips, Admissible;
    InvResolves(s);
  }

  lemma StartOnly(limit: int, o: Order)
    ensures Next(Empty(limit), Start(o)) == StartTracking(Empty(limit), o)
  {
  }

  /** In `steps` the order is changed by no update but those to `state`. */
  ghost predicate OnlyTo(s: State, steps: seq<Step>, id: Id, state: OrderState)
    decreases |steps|
  {
    steps != [] && Resolves(s) ==>
      && IsToOrElsewhere(AppliedBy(s, steps[0]), id, state)
      && OnlyTo(Next(s, steps[0]), steps[1..], id, state)
  }

  predicate IsToOrElsewhere(a: Option<Applied>, id: Id, state: OrderState) {
    a.Some? && a.value.id == id ==> a.value.update.newState == state
  }

  /** How many updates the order receives in `steps`, counted when they are applied. */
  ghost function Applications(s: State, steps: seq<Step>, id: Id): nat
    decreases |steps|
  {
    if steps == [] || !Resolves(s) then 0
    else (if Hits(AppliedBy(s, steps[0]), id) then 1 else 0) + Applications(Next(s, steps[0]), steps[1..], id)
  }

  predicate Hits(a: Option<Applied>, id: Id) {
    a.Some? && a.value.id == id
  }

  /** The two ends a trader sees, with their events. */
  predicate Ends(state: OrderState, kind: Kind) {
    (state == Filled && kind == Completion) || (state == Canceled && kind == Cancellation)
  }

  lemma UpdateTo(o: Order, u: OrderUpdate, state: OrderState, kind: Kind)
    requires state in {Filled, Canceled} && u.newState == state && Addressed(u, o) && o.exchangeId.Some?
    requires kind != Creation
    ensures WithOrderUpdate(o, u).state == state && WithOrderUpdate(o, u).exchangeId == o.exchangeId
    ensures Count(Announced(o, u), kind, o.clientId) == (if Ends(state, kind) && o.state != state then 1 else 0)
  {
    AnnouncedCounts(o, u, kind, o.clientId);
    hide Announced, IsClose;
  }

  lemma StepTo(s: State, step: Step, id: Id, state: OrderState, kind: Kind)
    requires Inv(s) && Admissible(s, step) && id in s.orders && s.orders[id].exchangeId.Some?
    requires state in {Filled, Canceled} && kind != Creation && IsToOrElsewhere(AppliedBy(s, step), id, state)
    ensures id in OrdersAfter(s, step)
    ensures var hit, o, o' := Hits(AppliedBy(s, step), id), s.orders[id], OrdersAfter(s, step)[id];
            && o'.exchangeId == o.exchangeId
            && o'.state == (if hit then state else o.state)
            && Count(s.log + EventsOf(s, step), kind, id)
               == Count(s.log, kind, id) + (if hit && Ends(state, kind) && o.state != state then 1 else 0)
  {
    hide OrdersAfter, Announced, WithOrderUpdate, OrderUpdateChanges, Addressed, Next, Admissible, Inv, Ends, EventsOf,
      AppliedBy, Count;
    CountAppend(s.log, EventsOf(s, step), kind, id);
    EventsCounted(s, step, kind, id);
    OrderAfterStep(s, step, id);
    match AppliedBy(s, step)
    case Some(a) =>
      if a.id == id {
        UpdateTo(s.orders[id], a.update, state, kind);
      } else {
        AnnouncedCounts(s.orders[a.id], a.update, kind, id);
      }
    case None =>
  }

  /** A step leaves the state and exchange id of an order alone unless it applies an update to it. */
  lemma OrderAfterStep(s: State, step: Step, id: Id)
    requires Inv(s) && Admissible(s, step) && id in s.orders
    ensures Resolves(s) && id in OrdersAfter(s, step)
    ensures var a, o, o' := AppliedBy(s, step), s.orders[id], OrdersAfter(s, step)[id];
            if Hits(a, id) then o' == WithOrderUpdate(o, a.value.update)
            else o'.exchangeId == o.exchangeId && o'.state == o.state
  {
    hide WithOrderUpdate;
  }

  lemma KeyIsId(s: State, id: Id)
    requires Inv(s) && id in s.orders
    ensures s.orders[id].clientId == id
  {
  }

  lemma NotLostByOthers(s: State, step: Step, id: Id, state: OrderState)
    requires Inv(s) && Admissible(s, step) && PlaceOf(s, id) != Lost
    requires state != Failed && IsToOrElsewhere(AppliedBy(s, step), id, state)
    ensures PlaceOf(Next(s, step), id) != Lost
    ensures id in s.active && !(step.Stop? && step.id == id) && !Hits(AppliedBy(s, step), id) ==>
              id in Next(s, step).active
  {
    StepMoves(s, step, id);
    if step.NotFound? && step.id == id && id in s.active {
      ReportOutcome(s, id, step.now, step.victim);
      hide ProcessOrderNotFound;
    } else if id in s.active && !(step.Stop? && step.id == id) && !Hits(AppliedBy(s, step), id) {
      StaysActive(s, step, id);
      hide Next;
    }
  }

  lemma StaysActive(s: State, step: Step, id: Id)
    requires Inv(s) && Admissible(s, step) && id in s.active && !Hits(AppliedBy(s, step), id)
    requires !(step.Stop? && step.id == id) && !(step.NotFound? && step.id == id)
    ensures id in Next(s, step).active
  {
    hide ProcessOrderUpdate, ResumeUpdate, ProcessOrderNotFound;
    match step
    case Update(u, victim) => StaysActiveUpdated(s, u, victim, id);
    case Resume(k, victim) => StaysActiveResumed(s, k, victim, id);
    case NotFound(x, now, victim) => StaysActiveReported(s, x, now, victim, id);
    case _ =>
  }

  lemma StaysActiveUpdated(s: State, u: OrderUpdate, victim: nat, id: Id)
    requires Inv(s) && id in s.active && !Hits(AppliedBy(s, Update(u, victim)), id)
    ensures id in ProcessOrderUpdate(s, u, victim).active
  {
    hide FinishUpdate, WithOrderUpdate;
    FetchAddresses(s, s.active + s.cached, u);
    match Fetch(s, s.active + s.cached, u.clientId, u.exchangeId)
    case Some(x) => FinishEffect(s, x, u, victim);
    case None =>
  }

  lemma StaysActiveResumed(s: State, k: nat, victim: nat, id: Id)
    requires Inv(s) && id in s.active && !Hits(AppliedBy(s, Resume(k, victim)), id)
    ensures id in ResumeUpdate(s, k, victim).active
  {
    hide FinishUpdate, WithOrderUpdate;
    if k < |s.waiting| {
      var w, s1 := s.waiting[k], s.(waiting := RemoveAt(s.waiting, k));
      assert WaitApplies(s, w);
      assert Inv(s1);
      FinishEffect(s1, w.target, w.update, victim);
    }
  }

  lemma StaysActiveReported(s: State, x: Id, now: real, victim: nat, id: Id)
    requires Inv(s) && id in s.active && x != id
    ensures id in ProcessOrderNotFound(s, x, now, victim).active
  {
    hide ProcessOrderUpdate, FileAsLost, WithOrderUpdate;
    if x in s.active && Reports(s, x) + 1 > s.limit {
      LostEffect(s, x, now, victim);
    } else if x in s.lost {
      UpdateEventless(s, x, now, victim);
    }
  }

  lemma UpdateEventless(s: State, x: Id, now: real, victim: nat)
    requires Inv(s) && x in s.lost
    ensures ProcessOrderNotFound(s, x, now, victim).active == s.active
  {
    LostReportIsSilent(s, x, now, victim);
    hide ProcessOrderNotFound;
  }

  /** Updates to one end: the order gets there, and gets that end's event once and no other closing event. */
  lemma {:induction false} EndingsOverRun(s: State, steps: seq<Step>, id: Id, state: OrderState, kind: Kind)
    requires Inv(s) && AdmissibleRun(s, steps) && id in s.orders && s.orders[id].exchangeId.Some?
    requires state in {Filled, Canceled} && kind != Creation && OnlyTo(s, steps, id, state) && PlaceOf(s, id) != Lost
    ensures var s', n := Run(s, steps), Applications(s, steps, id);
            && Inv(s') && id in s'.orders
            && s'.orders[id].state == (if n > 0 then state else s.orders[id].state)
            && PlaceOf(s', id) != Lost
            && Count(s'.log, kind, id)
               == Count(s.log, kind, id) + (if n > 0 && Ends(state, kind) && s.orders[id].state != state then 1 else 0)
    decreases |steps|
  {
    hide Next, AppliedBy, PlaceOf, Inv, Moves, OrdersAfter, EventsOf, Ends;
    if steps == [] {
    } else {
      var step := steps[0];
      StepKeeps(s, step);
      InvResolves(s);
      StepEvents(s, step);
      StepTo(s, step, id, state, kind);
      NotLostByOthers(s, step, id, state);
      EndingsOverRun(Next(s, step), steps[1..], id, state, kind);
    }
  }

  lemma InvResolves(s: State)
    requires Inv(s)
    ensures Resolves(s)
  {
  }

  lemma {:induction false} ActiveUntilApplied(s: State, steps: seq<Step>, id: Id, state: OrderState)
    requires Inv(s) && AdmissibleRun(s, steps) && id in s.active && state != Failed && OnlyTo(s, steps, id, state)
    requires forall step :: step in steps ==> !(step.Stop? && step.id == id)
    requires Applications(s, steps, id) == 0
    ensures id in Run(s, steps).active
    decreases |steps|
  {
    hide Next, AppliedBy;
    if steps == [] {
    } else {
      StepKeeps(s, steps[0]);
      NotLostByOthers(s, steps[0], id, state);
      ActiveUntilApplied(Next(s, steps[0]), steps[1..], id, state);
    }
  }

  /**
    Any number of updates of one active order to one end, FILLED or CANCELED, applied and, when they
    wait for fills, suspended and resumed in any order among any other steps: once at least one of
    them is applied there is exactly one new event of that end and no other closing event, and the
    order is in the cache or already expired from it; before that there is none, and the order is
    still active.
   */
  lemma EndedExactlyOnce(s: State, steps: seq<Step>, id: Id, state: OrderState, kind: Kind)
    requires Inv(s) && AdmissibleRun(s, steps) && id in s.active && s.orders[id].exchangeId.Some?
    requires state in {Filled, Canceled} && kind != Creation && OnlyTo(s, steps, id, state)
    requires forall step :: step in steps ==> !(step.Stop? && step.id == id)
    ensures var s', n := Run(s, steps), Applications(s, steps, id);
            && Count(s'.log, kind, id) == Count(s.log, kind, id) + (if n > 0 && Ends(state, kind) then 1 else 0)
            && (if n > 0 then PlaceOf(s', id) in {Cached, Gone} else PlaceOf(s', id) == Active)
  {
    hide Next, AppliedBy;
    var s' := Run(s, steps);
    EndingsOverRun(s, steps, id, state, kind);
    if Applications(s, steps, id) == 0 {
      ActiveUntilApplied(s, steps, id, state);
    } else {
      assert id !in s'.active;
    }
  }

  /** However many FILLED updates there are, one completed event, and neither a cancelled nor a failure event. */
  lemma CompletedExactlyOnce(s: State, steps: seq<Step>, id: Id)
    requires Inv(s) && AdmissibleRun(s, steps) && id in s.active && s.orders[id].exchangeId.Some?
    requires OnlyTo(s, steps, id, Filled)
    requires forall step :: step in steps ==> !(step.Stop? && step.id == id)
    ensures var s', n := Run(s, steps), Applications(s, steps, id);
            && Count(s'.log, Completion, id) == Count(s.log, Completion, id) + (if n > 0 then 1 else 0)
            && Count(s'.log, Cancellation, id) == Count(s.log, Cancellation, id)
            && Count(s'.log, Failure, id) == Count(s.log, Failure, id)
            && (if n > 0 then PlaceOf(s', id) in {Cached, Gone} else PlaceOf(s', id) == Active)
  {
    hide Run, AdmissibleRun, Inv, Count;
    EndedExactlyOnce(s, steps, id, Filled, Completion);
    EndedExactlyOnce(s, steps, id, Filled, Cancellation);
    EndedExactlyOnce(s, steps, id, Filled, Failure);
  }

  /** However many CANCELED updates there are, one cancelled event, and neither a completed nor a failure event. */
  lemma CancelledExactlyOnce(s: State, steps: seq<Step>, id: Id)
    requires Inv(s) && AdmissibleRun(s, steps) && id in s.active && s.orders[id].exchangeId.Some?
    requires OnlyTo(s, steps, id, Canceled)
    requires forall step :: step in steps ==> !(step.Stop? && step.id == id)
    ensures var s', n := Run(s, steps), Applications(s, steps, id);
            && Count(s'.log, Cancellation, id) == Count(s.log, Cancellation, id) + (if n > 0 then 1 else 0)
            && Count(s'.log, Completion, id) == Count(s.log, Completion, id)
            && Count(s'.log, Failure, id) == Count(s.log, Failure, id)
            && (if n > 0 then PlaceOf(s', id) in {Cached, Gone} else PlaceOf(s', id) == Active)
  {
    hide Run, AdmissibleRun, Inv, Count;
    EndedExactlyOnce(s, steps, id, Canceled, Cancellation);
    EndedExactlyOnce(s, steps, id, Canceled, Completion);
    EndedExactlyOnce(s, steps, id, Canceled, Failure);
  }

  /** Why the exchange id matters: a late update that brings it completes the order once more. */
  lemma RepeatedFilled(o: Order, u: OrderUpdate)
    requires o.state == Filled && u.newState == Filled && Addressed(u, o)
    ensures Count(Announced(o, u), Completion, o.clientId)
         == if o.exchangeId.None? && u.exchangeId.Some? then 1 else 0
  {
    AnnouncedCounts(o, u, Completion, o.clientId);
  }
}
