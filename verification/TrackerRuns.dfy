/** Whole runs of the tracker: where an order can go, and when it is declared lost. */
module TrackerRuns {
  import opened Options
  import opened Orders
  import opened Sequences
  import opened TrackerModel
  import opened TrackerInvariant

  ghost predicate AdmissibleRun(s: State, steps: seq<Step>)
    decreases |steps|
  {
    steps != [] ==>
      Admissible(s, steps[0]) && (Resolves(s) ==> AdmissibleRun(Next(s, steps[0]), steps[1..]))
  }

  ghost function Run(s: State, steps: seq<Step>): State
    decreases |steps|
  {
    if steps == [] || !Resolves(s) then s else Run(Next(s, steps[0]), steps[1..])
  }

  lemma RunFirst(s: State, step: Step, rest: seq<Step>)
    requires Resolves(s)
    ensures Run(s, [step] + rest) == Run(Next(s, step), rest)
    ensures AdmissibleRun(s, [step] + rest) <==> Admissible(s, step) && AdmissibleRun(Next(s, step), rest)
    ensures Run(s, []) == s && AdmissibleRun(s, [])
  {
    hide Next, Admissible;
    assert ([step] + rest)[1..] == rest;
  }

  /** The invariant holds in every state of every admissible run. */
  lemma {:induction false} RunKeeps(s: State, steps: seq<Step>)
    requires Inv(s) && AdmissibleRun(s, steps)
    ensures Inv(Run(s, steps))
    decreases |steps|
  {
    hide Next;
    if steps == [] {
    } else {
      StepKeeps(s, steps[0]);
      RunKeeps(Next(s, steps[0]), steps[1..]);
    }
  }

  datatype Place = Unseen | Active | Cached | Lost | Gone

  function PlaceOf(s: State, id: Id): Place {
    if id in s.active then Active
    else if id in s.cached then Cached
    else if id in s.lost then Lost
    else if id in s.orders then Gone
    else Unseen
  }

  /** The only moves one step can make. */
  predicate Moves(before: Place, after: Place) {
    || after == before
    || (before == Unseen && after == Active)
    || (before == Active && (after == Cached || after == Lost))
    || ((before == Cached || before == Lost) && after == Gone)
  }

  /** Their closure: active, then cached or lost but never both, then gone for good. */
  predicate LeadsTo(before: Place, after: Place) {
    || after == before
    || before == Unseen
    || (before == Active && after != Unseen)
    || ((before == Cached || before == Lost) && after == Gone)
  }

  lemma FinishMoves(s: State, id: Id, u: OrderUpdate, victim: nat, x: Id)
    requires Inv(s) && id in s.orders && Addressed(u, s.orders[id])
    requires id in s.lost ==> u.newState == Filled
    ensures var s' := FinishUpdate(s, id, u, victim);
            && Moves(PlaceOf(s, x), PlaceOf(s', x))
            && (PlaceOf(s, x) == Lost <==> PlaceOf(s', x) == Lost)
            && (x in s'.active ==> Reports(s', x) == Reports(s, x))
  {
    hide FinishUpdate, InsideEvent, WithOrderUpdate, WaitApplies;
    FinishEffect(s, id, u, victim);
    if id == x { } else { }
  }

  lemma UpdateMoves(s: State, u: OrderUpdate, victim: nat, x: Id)
    requires Inv(s)
    ensures var s' := ProcessOrderUpdate(s, u, victim);
            && Moves(PlaceOf(s, x), PlaceOf(s', x))
            && (PlaceOf(s', x) == Lost ==> PlaceOf(s, x) == Lost)
            && (x in s'.active ==> Reports(s', x) == Reports(s, x))
  {
    var live := s.active + s.cached;
    FetchAddresses(s, live, u);
    match Fetch(s, live, u.clientId, u.exchangeId)
    case Some(id) => FinishMoves(s, id, u, victim, x); hide FinishUpdate;
    case None =>
  }

  lemma ResumeMoves(s: State, k: nat, victim: nat, x: Id)
    requires Inv(s)
    ensures var s' := ResumeUpdate(s, k, victim);
            && Moves(PlaceOf(s, x), PlaceOf(s', x))
            && (PlaceOf(s', x) == Lost ==> PlaceOf(s, x) == Lost)
            && (x in s'.active ==> Reports(s', x) == Reports(s, x))
  {
    if k < |s.waiting| {
      var w := s.waiting[k];
      var s1 := s.(waiting := RemoveAt(s.waiting, k));
      assert Inv(s1);
      FinishMoves(s1, w.target, w.update, victim, x);
    }
  }

  lemma LostMoves(s: State, id: Id, now: real, victim: nat, x: Id)
    requires Inv(s) && id in s.active && Reports(s, id) + 1 > s.limit
    ensures var s' := ProcessOrderNotFound(s, id, now, victim);
            && Moves(PlaceOf(s, x), PlaceOf(s', x))
            && (PlaceOf(s, x) != Lost && PlaceOf(s', x) == Lost ==> x == id)
            && (x in s'.active ==> x != id && Reports(s', x) == Reports(s, x))
  {
    hide ProcessOrderNotFound, WithOrderUpdate, WaitApplies;
    LostEffect(s, id, now, victim);
  }

  lemma NotFoundMoves(s: State, id: Id, now: real, victim: nat, x: Id)
    requires Inv(s)
    ensures var s' := ProcessOrderNotFound(s, id, now, victim);
            && Moves(PlaceOf(s, x), PlaceOf(s', x))
            && (PlaceOf(s, x) != Lost && PlaceOf(s', x) == Lost ==> x == id)
            && (x in s.active && x in s'.active ==>
                  Reports(s', x) == Reports(s, x) + (if x == id then 1 else 0))
  {
    if id in s.active {
      if Reports(s, id) + 1 > s.limit {
        LostMoves(s, id, now, victim, x);
        hide ProcessOrderNotFound;
      } else {
        hide ProcessOrderUpdate, FileAsLost;
      }
    } else if id in s.lost {
      UpdateMoves(s, FailedUpdate(id, now), victim, x);
      hide ProcessOrderUpdate;
    }
  }

  /** One step moves an id along its life cycle; only its own not-found report makes it lost. */
  lemma StepMoves(s: State, step: Step, x: Id)
    requires Inv(s) && Admissible(s, step)
    ensures var before, after := PlaceOf(s, x), PlaceOf(Next(s, step), x);
            && Moves(before, after)
            && (before != Lost && after == Lost ==> step.NotFound? && step.id == x && before == Active)
  {
    match step
    case Update(u, victim) => UpdateMoves(s, u, victim, x); hide ProcessOrderUpdate;
    case Resume(k, victim) => ResumeMoves(s, k, victim, x); hide ResumeUpdate;
    case NotFound(id, now, victim) => NotFoundMoves(s, id, now, victim, x); hide ProcessOrderNotFound;
    case _ =>
  }

  /** Over any run an id never moves back, and never from the cache to the lost orders or back. */
  lemma {:induction false} RunMoves(s: State, steps: seq<Step>, x: Id)
    requires Inv(s) && AdmissibleRun(s, steps)
    ensures LeadsTo(PlaceOf(s, x), PlaceOf(Run(s, steps), x))
    decreases |steps|
  {
    hide Next, PlaceOf;
    if steps == [] {
    } else {
      StepMoves(s, steps[0], x);
      StepKeeps(s, steps[0]);
      RunMoves(Next(s, steps[0]), steps[1..], x);
    }
  }

  /** How often `id` is reported as not found in `steps`. */
  function ReportsIn(steps: seq<Step>, id: Id): nat {
    if steps == [] then 0
    else (if steps[0].NotFound? && steps[0].id == id then 1 else 0) + ReportsIn(steps[1..], id)
  }

  lemma CounterStep(s: State, step: Step, x: Id)
    requires Inv(s) && Admissible(s, step) && x in s.active && x in Next(s, step).active
    ensures Reports(Next(s, step), x) == Reports(s, x) + ReportsIn([step], x)
  {
    match step
    case Update(u, victim) => UpdateMoves(s, u, victim, x); hide ProcessOrderUpdate;
    case Resume(k, victim) => ResumeMoves(s, k, victim, x); hide ResumeUpdate;
    case NotFound(id, now, victim) => NotFoundMoves(s, id, now, victim, x); hide ProcessOrderNotFound;
    case _ =>
  }

  /** While an order stays active its counter grows by exactly its not-found reports. */
  lemma {:induction false} CounterOverRun(s: State, steps: seq<Step>, x: Id)
    requires Inv(s) && AdmissibleRun(s, steps)
    requires x in s.active && x in Run(s, steps).active
    ensures Reports(Run(s, steps), x) == Reports(s, x) + ReportsIn(steps, x)
    decreases |steps|
  {
    hide Next;
    if steps == [] {
    } else {
      var s1 := Next(s, steps[0]);
      StepKeeps(s, steps[0]);
      RunMoves(s1, steps[1..], x);
      StepMoves(s, steps[0], x);
      CounterStep(s, steps[0], x);
      CounterOverRun(s1, steps[1..], x);
    }
  }

  lemma FinishKeepsLimit(s: State, id: Id, u: OrderUpdate, victim: nat)
    requires Resolves(s) && id in s.orders
    ensures FinishUpdate(s, id, u, victim).limit == s.limit
  {
    InsideEffect(s, id, u);
    hide InsideEvent, WithOrderUpdate;
  }

  lemma UpdateKeepsLimit(s: State, u: OrderUpdate, victim: nat)
    requires Resolves(s)
    ensures ProcessOrderUpdate(s, u, victim).limit == s.limit
  {
    hide FinishUpdate;
    var found := Fetch(s, s.active + s.cached, u.clientId, u.exchangeId);
    if found.Some? {
      FinishKeepsLimit(s, found.value, u, victim);
    }
  }

  lemma ResumeKeepsLimit(s: State, k: nat, victim: nat)
    requires Resolves(s)
    ensures ResumeUpdate(s, k, victim).limit == s.limit
  {
    hide FinishUpdate;
    if k < |s.waiting| {
      var w := s.waiting[k];
      FinishKeepsLimit(s.(waiting := RemoveAt(s.waiting, k)), w.target, w.update, victim);
    }
  }

  lemma NotFoundKeepsLimit(s: State, id: Id, now: real, victim: nat)
    requires Resolves(s)
    ensures ProcessOrderNotFound(s, id, now, victim).limit == s.limit
  {
    hide ProcessOrderUpdate;
    UpdateKeepsLimit(s, FailedUpdate(id, now), victim);
    UpdateKeepsLimit(s.(notFound := s.notFound[id := Reports(s, id) + 1]), FailedUpdate(id, now), victim);
  }

  lemma LimitFixed(s: State, step: Step)
    requires Inv(s) && Admissible(s, step)
    ensures Next(s, step).limit == s.limit
  {
    hide ProcessOrderUpdate, ResumeUpdate, ProcessOrderNotFound;
    match step
    case Update(u, victim) => UpdateKeepsLimit(s, u, victim);
    case Resume(k, victim) => ResumeKeepsLimit(s, k, victim);
    case NotFound(id, now, victim) => NotFoundKeepsLimit(s, id, now, victim);
    case _ =>
  }

  lemma {:induction false} LimitFixedOverRun(s: State, steps: seq<Step>)
    requires Inv(s) && AdmissibleRun(s, steps)
    ensures Run(s, steps).limit == s.limit
    decreases |steps|
  {
    hide Next;
    if steps == [] {
    } else {
      StepKeeps(s, steps[0]);
      LimitFixed(s, steps[0]);
      LimitFixedOverRun(Next(s, steps[0]), steps[1..]);
    }
  }

  /** What a report does to an active order. */
  lemma ReportOutcome(s: State, id: Id, now: real, victim: nat)
    requires Inv(s) && id in s.active
    ensures var s' := ProcessOrderNotFound(s, id, now, victim);
            PlaceOf(s', id) == if Reports(s, id) + 1 > s.limit then Lost else Active
  {
    if Reports(s, id) + 1 > s.limit {
      LostEffect(s, id, now, victim);
      hide ProcessOrderNotFound;
    } else {
      hide ProcessOrderUpdate, FileAsLost;
    }
  }

  function AtLeastZero(n: int): nat {
    if n < 0 then 0 else n
  }

  /**
    An order still active after any run since it was started is declared lost by the next
    not-found report exactly when that is its (limit + 1)-th report.
   */
  lemma LostOnExactReport(s: State, o: Order, steps: seq<Step>, now: real, victim: nat)
    requires Inv(s) && Admissible(s, Start(o)) && AdmissibleRun(StartTracking(s, o), steps)
    requires o.clientId in Run(StartTracking(s, o), steps).active
    ensures var before := Run(StartTracking(s, o), steps);
            var reports := ReportsIn(steps, o.clientId) + 1;
            && Inv(before)
            && reports <= AtLeastZero(s.limit) + 1
            && PlaceOf(ProcessOrderNotFound(before, o.clientId, now, victim), o.clientId)
               == if reports == AtLeastZero(s.limit) + 1 then Lost else Active
  {
    var id, s1 := o.clientId, StartTracking(s, o);
    var before := Run(s1, steps);
    hide Next;
    StartKeeps(s, o);
    RunKeeps(s1, steps);
    LimitFixedOverRun(s1, steps);
    CounterOverRun(s1, steps, id);
    ReportOutcome(before, id, now, victim);
    hide ProcessOrderNotFound;
  }

  /** The next report of a lost order drops it for good. */
  lemma ReportOfLost(s: State, id: Id, now: real, victim: nat)
    requires Inv(s) && id in s.lost
    ensures PlaceOf(ProcessOrderNotFound(s, id, now, victim), id) == Gone
  {
    var u := FailedUpdate(id, now);
    assert Fetch(s, s.active + s.cached, u.clientId, u.exchangeId) == None;
    assert Fetch(s, s.lost, u.clientId, u.exchangeId) == Some(id);
  }

  /**
    Filing as lost on a state that may hold an empty client id, which the failing update before it
    ignores: the deletion from the cache raises exactly for the empty id.
   */
  lemma DeletionMissesOnlyEmptyId(s: State, id: Id, now: real, victim: nat)
    requires Resolves(s) && Disjoint(s.active, s.cached) && id in s.active
    requires s.orders[id].clientId == id && s.orders[id].IsOpen() && Reports(s, id) + 1 > s.limit
    ensures var s' := ProcessOrderNotFound(s, id, now, victim);
            && (id == "" ==> s' == Emit(s.(notFound := s.notFound[id := Reports(s, id) + 1]), KeyErrorRaised(id)))
            && (id != "" ==> id in s'.lost && id !in s'.active
                             && s'.log == s.log + Announced(s.orders[id], FailedUpdate(id, now)))
  {
    var u := FailedUpdate(id, now);
    if id != "" {
      NotFoundOverLimit(s, id, now, victim);
      hide ProcessOrderNotFound;
      AnnouncedLog(s, id, u);
      InsideEffect(s, id, u);
    }
  }

  /** The events of an order update, in order. */
  function Announced(o: Order, u: OrderUpdate): seq<Event> {
    if !OrderUpdateChanges(o, u) then []
    else
      var o' := WithOrderUpdate(o, u);
      (if Creates(o.state, u.newState) then [OrderCreated(o.clientId, o.side)] else [])
      + (if o'.IsOpen() || ClosingEvent(o').None? then [] else [ClosingEvent(o').value])
  }

  lemma AnnouncedLog(s: State, id: Id, u: OrderUpdate)
    requires id in s.orders && s.orders[id].clientId == id
    ensures InsideEvent(s, id, u).log == s.log + Announced(s.orders[id], u)
  {
  }
}
