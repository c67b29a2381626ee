/** What one update does to the order it names, state by state, and which events a run owes an order. */
module TrackerClosing {
  import opened Options
  import opened Orders
  import opened TrackerModel
  import opened TrackerInvariant
  import opened TrackerRuns
  import opened TrackerEvents
  import opened TrackerCompletion

  /** An order of a positive amount counts as executed from a billionth of it below. */
  lemma ExecutedFrom(o: Order)
    requires o.amount >= 0.0
    ensures o.FullyExecuted() <==> o.executedBase >= o.amount - o.amount / 1000000000.0
  {
  }

  /** Completed in full, or to within that tolerance; an order of amount zero never is. */
  predicate Executed(o: Order) {
    o.amount != 0.0 && o.FullyExecuted()
  }

  /** The events an update to `state` must cause, when it is the first to bring the order there. */
  function EventsTo(o: Order, state: OrderState): seq<Event> {
    var created := if o.state == PendingCreate then [OrderCreated(o.clientId, o.side)] else [];
    var completed := [OrderCompleted(o.clientId, o.side, o.executedBase, o.executedQuote)];
    match state
    case PendingCreate => []
    case Open => created
    case PartiallyFilled => created
    case PendingCancel => []
    case Canceled => [OrderCancelled(o.clientId)]
    case Filled => created + completed
    case Failed => if Executed(o) then completed else [OrderFailure(o.clientId)]
    case _ => if Executed(o) then created + completed else created
  }

  predicate StaysActive(state: OrderState) {
    match state
    case PendingCreate => true
    case Open => true
    case PartiallyFilled => true
    case PendingCancel => true
    case _ => false
  }

  lemma AnnouncedTo(o: Order, u: OrderUpdate)
    requires u.clientId == Some(o.clientId) && u.newState != o.state
    ensures Announced(o, u) == EventsTo(o, u.newState)
  {
    hide IsClose;
  }

  /**
    An update that names an active or cached order and changes its state: it waits for fills if it
    says FILLED of an order that is neither over nor executed, and else the order gets its new state
    and exactly the events of that state, and is cached if it is over.
   */
  lemma UpdateOutcome(s: State, id: Id, u: OrderUpdate, victim: nat)
    requires Inv(s) && id in s.active + s.cached && u.clientId == Some(id) && u.newState != s.orders[id].state
    ensures var o, s' := s.orders[id], ProcessOrderUpdate(s, u, victim);
            if u.newState == Filled && o.state != Canceled && o.state != Failed && !o.FullyExecuted()
            then s' == s.(waiting := s.waiting + [Suspended(id, u)])
            else
              && s'.log == s.log + EventsTo(o, u.newState)
              && PlaceOf(s', id) == (if id in s.active && StaysActive(u.newState) then Active else Cached)
              && s'.orders == s.orders[id :=
                   o.(state := u.newState, lastUpdate := u.timestamp,
                      exchangeId := if o.exchangeId.Some? then o.exchangeId else u.exchangeId)]
              && s'.waiting == s.waiting && s'.lost == s.lost
  {
    hide FinishUpdate, IsClose;
    var o := s.orders[id];
    KeyIsId(s, id);
    assert Fetch(s, s.active + s.cached, u.clientId, u.exchangeId) == Some(id);
    FinishEffect(s, id, u, victim);
    FinishEvents(s, id, u, victim);
    AnnouncedTo(o, u);
  }

  /** Without the client id of a live order, an update goes to the first one listed with its exchange id. */
  lemma {:induction false} FirstIsFound(s: State, ids: seq<Id>, k: nat, u: OrderUpdate)
    requires (forall id :: id in ids ==> id in s.orders) && k < |ids| && u.exchangeId.Some?
    requires u.clientId.Some? ==> u.clientId.value !in ids
    requires s.orders[ids[k]].exchangeId == u.exchangeId
    requires forall j :: 0 <= j < k ==> s.orders[ids[j]].exchangeId != u.exchangeId
    ensures Fetch(s, ids, u.clientId, u.exchangeId) == Some(ids[k])
  {
    if k == 0 {
    } else {
      FirstIsFound(s, ids[1..], k - 1, u);
    }
  }

  /** The one live order with this exchange id. */
  predicate HasAlone(s: State, id: Id, exchangeId: string)
    requires Resolves(s)
  {
    forall x :: x in s.active + s.cached ==> (s.orders[x].exchangeId == Some(exchangeId) <==> x == id)
  }

  /** An update by an exchange id that one live order has alone does what an update by that order's client id does. */
  lemma NamedByExchangeId(s: State, id: Id, u: OrderUpdate, victim: nat)
    requires Inv(s) && id in s.active + s.cached && u.exchangeId.Some? && u.exchangeId.value != ""
    requires HasAlone(s, id, u.exchangeId.value)
    requires u.clientId.Some? ==> u.clientId.value !in s.active + s.cached
    ensures ProcessOrderUpdate(s, u, victim).(waiting := [])
         == ProcessOrderUpdate(s, u.(clientId := Some(id)), victim).(waiting := [])
  {
    hide FinishUpdate, IsClose;
    var live, named := s.active + s.cached, u.(clientId := Some(id));
    KeyIsId(s, id);
    assert Fetch(s, live, u.clientId, u.exchangeId) == Some(id);
    assert Fetch(s, live, named.clientId, named.exchangeId) == Some(id);
    SameFinish(s, id, u, named, victim);
  }

  lemma SameFinish(s: State, id: Id, u: OrderUpdate, named: OrderUpdate, victim: nat)
    requires Inv(s) && id in s.orders && named == u.(clientId := Some(id)) && s.orders[id].clientId == id
    requires u.exchangeId == s.orders[id].exchangeId
    ensures FinishUpdate(s, id, u, victim) == FinishUpdate(s, id, named, victim)
  {
    var o := s.orders[id];
    assert WithOrderUpdate(o, u) == WithOrderUpdate(o, named);
    assert OrderUpdateChanges(o, u) == OrderUpdateChanges(o, named);
    hide WithOrderUpdate, OrderUpdateChanges, StopTracking, AnnounceClosing, IsClose;
  }

  /** The first exchange id an update brings an order is the one later updates find it by. */
  lemma LearnedExchangeId(s: State, id: Id, u: OrderUpdate, victim: nat)
    requires Inv(s) && id in s.active && u.clientId == Some(id) && s.orders[id].exchangeId.None?
    requires u.exchangeId.Some? && StaysActive(u.newState)
    requires forall x :: x in s.active + s.cached ==> s.orders[x].exchangeId != u.exchangeId
    ensures var s' := ProcessOrderUpdate(s, u, victim); Resolves(s') && HasAlone(s', id, u.exchangeId.value)
  {
    hide FinishUpdate, IsClose;
    KeyIsId(s, id);
    assert Fetch(s, s.active + s.cached, u.clientId, u.exchangeId) == Some(id);
    FinishEffect(s, id, u, victim);
  }

  // Whole runs

  /** Applying the update changes the order: its state, or its missing exchange id. */
  predicate Brings(o: Order, u: OrderUpdate) {
    u.newState != o.state || (o.exchangeId.None? && u.exchangeId.Some?)
  }

  /** The update, applied to the order, owes it an event of this kind. */
  predicate Owes(o: Order, u: OrderUpdate, kind: Kind) {
    && Brings(o, u)
    && match kind
       case Creation => o.state == PendingCreate && u.newState !in {PendingCreate, PendingCancel, Canceled, Failed}
       case Cancellation => u.newState == Canceled
       case Failure => u.newState == Failed && !Executed(o)
       case Completion => u.newState == Filled || (!StaysActive(u.newState) && u.newState != Canceled && Executed(o))
  }

  predicate OwedBy(s: State, step: Step, id: Id, kind: Kind)
    requires Resolves(s)
  {
    var a := AppliedBy(s, step);
    Hits(a, id) && id in s.orders && Owes(s.orders[id], a.value.update, kind)
  }

  /** How many events of a kind the updates of a run owe an order. */
  ghost function Owed(s: State, steps: seq<Step>, id: Id, kind: Kind): nat
    decreases |steps|
  {
    if steps == [] || !Resolves(s) then 0
    else Indicator(OwedBy(s, steps[0], id, kind)) + Owed(Next(s, steps[0]), steps[1..], id, kind)
  }

  lemma AnnouncedAsOwed(o: Order, u: OrderUpdate, kind: Kind)
    requires Addressed(u, o)
    ensures Count(Announced(o, u), kind, o.clientId) == Indicator(Owes(o, u, kind))
  {
    AnnouncedCounts(o, u, kind, o.clientId);
    hide Announced, IsClose;
  }

  lemma StepGivesOwed(s: State, step: Step, id: Id, kind: Kind)
    requires Inv(s) && Admissible(s, step)
    ensures Count(s.log + EventsOf(s, step), kind, id)
         == Count(s.log, kind, id) + Indicator(OwedBy(s, step, id, kind))
  {
    hide Announced, WithOrderUpdate, OrderUpdateChanges, Addressed, Next, Owes, EventsOf, AppliedBy, Count, Inv;
    CountAppend(s.log, EventsOf(s, step), kind, id);
    EventsCounted(s, step, kind, id);
    match AppliedBy(s, step)
    case Some(a) =>
      if a.id == id {
        AnnouncedAsOwed(s.orders[id], a.update, kind);
      } else {
        AnnouncedCounts(s.orders[a.id], a.update, kind, id);
      }
    case None =>
  }

  /** In any run an order gets exactly the created, completed, cancelled and failure events its updates owe it. */
  lemma {:induction false} EventsAsOwed(s: State, steps: seq<Step>, id: Id, kind: Kind)
    requires Inv(s) && AdmissibleRun(s, steps)
    ensures Count(Run(s, steps).log, kind, id) == Count(s.log, kind, id) + Owed(s, steps, id, kind)
    decreases |steps|
  {
    hide Next, OwedBy, Count, Inv, EventsOf, OrdersAfter;
    if steps == [] {
    } else {
      StepKeeps(s, steps[0]);
      InvResolves(s);
      StepEvents(s, steps[0]);
      StepGivesOwed(s, steps[0], id, kind);
      EventsAsOwed(Next(s, steps[0]), steps[1..], id, kind);
    }
  }
}
