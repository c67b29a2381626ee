/** What a saved snapshot of the tracker restores to. */
module TrackerRestore {
  import opened Orders
  import opened Sequences
  import opened TrackerModel
  import opened TrackerInvariant
  import opened TrackerRuns
  import opened TrackerEvents

  function OpenOf(s: State, ids: seq<Id>): seq<Id>
    requires forall id :: id in ids ==> id in s.orders
  {
    if ids == [] then []
    else (if s.orders[ids[0]].IsOpen() then [ids[0]] else []) + OpenOf(s, ids[1..])
  }

  function FailedOf(s: State, ids: seq<Id>): seq<Id>
    requires forall id :: id in ids ==> id in s.orders
  {
    if ids == [] then []
    else (if s.orders[ids[0]].state == Failed then [ids[0]] else []) + FailedOf(s, ids[1..])
  }

  /** The ids in front of the first order that cannot be read back. */
  function Readable(s: State, ids: seq<Id>): (r: seq<Id>)
    requires forall id :: id in ids ==> id in s.orders
    ensures r <= ids
  {
    if ids == [] || s.orders[ids[0]].price == NoPrice then []
    else [ids[0]] + Readable(s, ids[1..])
  }

  lemma Cons(s: State, id: Id, ids: seq<Id>)
    requires forall x :: x in [id] + ids ==> x in s.orders
    ensures OpenOf(s, [id] + ids) == (if s.orders[id].IsOpen() then [id] + OpenOf(s, ids) else OpenOf(s, ids))
    ensures FailedOf(s, [id] + ids) ==
      if s.orders[id].state == Failed then [id] + FailedOf(s, ids) else FailedOf(s, ids)
  {
    assert ([id] + ids)[1..] == ids;
  }

  lemma {:induction false} Members(s: State, ids: seq<Id>, x: Id)
    requires forall id :: id in ids ==> id in s.orders
    ensures x in OpenOf(s, ids) <==> x in ids && s.orders[x].IsOpen()
    ensures x in FailedOf(s, ids) <==> x in ids && s.orders[x].state == Failed
    ensures x in Readable(s, ids) ==> x in ids && s.orders[x].price != NoPrice
  {
    if ids == [] {
    } else {
      Members(s, ids[1..], x);
    }
  }

  lemma {:induction false} AllReadable(s: State, ids: seq<Id>)
    requires forall id :: id in ids ==> id in s.orders && s.orders[id].price != NoPrice
    ensures Readable(s, ids) == ids
  {
    if ids == [] {
    } else {
      AllReadable(s, ids[1..]);
    }
  }

  /** What a restore of `ids` into `r` may rely on. */
  predicate Restores(r: State, s: State, ids: seq<Id>) {
    && NoDup(ids)
    && forall id :: id in ids ==>
         id in s.orders && s.orders[id].clientId == id && id !in r.active && id !in r.lost
  }

  function Reread(o: Order): Order {
    o.(fills := FillsFromJson(o.fills))
  }

  lemma RestoreNext(r: State, s: State, ids: seq<Id>)
    requires Restores(r, s, ids) && ids != [] && s.orders[ids[0]].price != NoPrice
    ensures var r1 := RestoreOrder(r, Reread(s.orders[ids[0]]));
            && RestoreTrackingStates(r, SavedOrders(s, ids)) == RestoreTrackingStates(r1, SavedOrders(s, ids[1..]))
            && Restores(r1, s, ids[1..])
            && Readable(s, ids) == [ids[0]] + Readable(s, ids[1..])
  {
    var o := s.orders[ids[0]];
    var saved := SavedOrders(s, ids);
    assert saved[0] == ToJson(o) && saved[1..] == SavedOrders(s, ids[1..]);
    JsonRoundTrip(o);
    hide ToJson, FromJson, FillsFromJson;
  }

  /** Restoring puts open orders back as active and failed ones as lost, and drops the others. */
  lemma {:induction false} RestoreShape(r: State, s: State, ids: seq<Id>)
    requires Restores(r, s, ids)
    ensures var r' := RestoreTrackingStates(r, SavedOrders(s, ids));
            && r' == r.(active := r.active + OpenOf(s, Readable(s, ids)),
                        lost := r.lost + FailedOf(s, Readable(s, ids)), orders := r'.orders)
    decreases |ids|
  {
    hide RestoreTrackingStates, RestoreOrder, SavedOrders, Reread, OpenOf, FailedOf, Readable;
    if ids == [] || s.orders[ids[0]].price == NoPrice {
      RestoreStops(r, s, ids);
    } else {
      var o, rest := Reread(s.orders[ids[0]]), Readable(s, ids[1..]);
      RestoreNext(r, s, ids);
      SameIdentity(s.orders[ids[0]]);
      RestoreOrderShape(r, o);
      RestoreShape(RestoreOrder(r, o), s, ids[1..]);
      Cons(s, ids[0], rest);
      var open, failed := OpenOf(s, rest), FailedOf(s, rest);
      assert r.active + [o.clientId] + open == r.active + ([o.clientId] + open);
      assert r.lost + [o.clientId] + failed == r.lost + ([o.clientId] + failed);
    }
  }

  lemma SameIdentity(o: Order)
    ensures Reread(o).clientId == o.clientId && Reread(o).state == o.state
  {
  }

  lemma RestoreStops(r: State, s: State, ids: seq<Id>)
    requires Restores(r, s, ids) && (ids == [] || s.orders[ids[0]].price == NoPrice)
    ensures RestoreTrackingStates(r, SavedOrders(s, ids)) == r
    ensures Readable(s, ids) == [] && OpenOf(s, []) == [] && FailedOf(s, []) == []
  {
    if ids != [] {
      JsonRoundTrip(s.orders[ids[0]]);
      assert SavedOrders(s, ids)[0] == ToJson(s.orders[ids[0]]);
    }
  }

  lemma {:induction false} RestoreKeeps(r: State, s: State, ids: seq<Id>, x: Id)
    requires Restores(r, s, ids) && x in r.orders && x !in ids
    ensures x in RestoreTrackingStates(r, SavedOrders(s, ids)).orders
    ensures RestoreTrackingStates(r, SavedOrders(s, ids)).orders[x] == r.orders[x]
    decreases |ids|
  {
    if ids != [] && s.orders[ids[0]].price != NoPrice {
      RestoreNext(r, s, ids);
      RestoreKeeps(RestoreOrder(r, Reread(s.orders[ids[0]])), s, ids[1..], x);
      hide RestoreTrackingStates, SavedOrders, Restores, FillsFromJson;
    } else if ids != [] {
      JsonRoundTrip(s.orders[ids[0]]);
      assert SavedOrders(s, ids)[0] == ToJson(s.orders[ids[0]]);
    }
  }

  lemma {:induction false} RestoreContents(r: State, s: State, ids: seq<Id>, x: Id)
    requires Restores(r, s, ids) && x in Readable(s, ids)
    requires s.orders[x].IsOpen() || s.orders[x].state == Failed
    ensures var r' := RestoreTrackingStates(r, SavedOrders(s, ids));
            x in r'.orders && r'.orders[x] == Reread(s.orders[x])
    decreases |ids|
  {
    var r1 := RestoreOrder(r, Reread(s.orders[ids[0]]));
    RestoreNext(r, s, ids);
    if x == ids[0] {
      RestoreKeeps(r1, s, ids[1..], x);
    } else {
      RestoreContents(r1, s, ids[1..], x);
    }
    hide RestoreTrackingStates, SavedOrders, FillsFromJson;
  }

  lemma RestoreOrderShape(r: State, o: Order)
    requires o.clientId !in r.active && o.clientId !in r.lost
    ensures var r' := RestoreOrder(r, o);
            && r' == r.(active := r.active + (if o.IsOpen() then [o.clientId] else []),
                        lost := r.lost + (if o.state == Failed then [o.clientId] else []),
                        orders := if o.IsOpen() || o.state == Failed then r.orders[o.clientId := o] else r.orders)
  {
  }

  lemma {:induction false} Split(s: State, xs: seq<Id>, ys: seq<Id>)
    requires forall id :: id in xs + ys ==> id in s.orders
    ensures OpenOf(s, xs + ys) == OpenOf(s, xs) + OpenOf(s, ys)
    ensures FailedOf(s, xs + ys) == FailedOf(s, xs) + FailedOf(s, ys)
    decreases |xs|
  {
    if xs == [] {
      assert xs + ys == ys;
    } else {
      assert (xs + ys)[1..] == xs[1..] + ys;
      Split(s, xs[1..], ys);
    }
  }

  lemma {:induction false} FilterAll(s: State, ids: seq<Id>)
    requires forall id :: id in ids ==> id in s.orders
    ensures (forall id :: id in ids ==> s.orders[id].IsOpen()) ==> OpenOf(s, ids) == ids && FailedOf(s, ids) == []
    ensures (forall id :: id in ids ==> !s.orders[id].IsOpen()) ==> OpenOf(s, ids) == []
    ensures (forall id :: id in ids ==> s.orders[id].state == Failed) ==> FailedOf(s, ids) == ids
    decreases |ids|
  {
    if ids == [] {
    } else {
      FilterAll(s, ids[1..]);
    }
  }

  /** The restored stores and their orders are the ones of `s`. */
  predicate SameTracking(r: State, s: State) {
    && r.active == s.active && r.lost == s.lost
    && forall id :: id in s.active + s.lost ==>
         id in r.orders && id in s.orders && r.orders[id] == s.orders[id]
  }

  function Restored(s: State): State
    requires Resolves(s)
  {
    RestoreTrackingStates(Empty(s.limit), TrackingStates(s))
  }

  lemma RestoredShape(s: State)
    requires Inv(s)
    ensures var ids := Readable(s, s.active + s.lost);
            && Restored(s).active == OpenOf(s, ids) && Restored(s).lost == FailedOf(s, ids)
            && (forall x :: x in ids && (s.orders[x].IsOpen() || s.orders[x].state == Failed) ==>
                  x in Restored(s).orders
                  && Restored(s).orders[x] == Reread(s.orders[x]))
  {
    var all := s.active + s.lost;
    NoDupConcat(s.active, s.lost);
    RestoreShape(Empty(s.limit), s, all);
    forall x | x in Readable(s, all) && (s.orders[x].IsOpen() || s.orders[x].state == Failed)
      ensures x in Restored(s).orders && Restored(s).orders[x] == Reread(s.orders[x])
    {
      RestoreContents(Empty(s.limit), s, all, x);
    }
  }

  lemma NoDupConcat(xs: seq<Id>, ys: seq<Id>)
    requires NoDup(xs) && NoDup(ys) && Disjoint(xs, ys)
    ensures NoDup(xs + ys)
  {
    forall i, j | 0 <= i < j < |xs + ys| ensures (xs + ys)[i] != (xs + ys)[j] {
      if i < |xs| <= j {
        assert xs[i] in xs && ys[j - |xs|] in ys;
      }
    }
  }

  lemma OpenAndClosed(s: State)
    requires Inv(s)
    ensures Resolves(s)
    ensures forall id :: id in s.active ==> s.orders[id].IsOpen()
    ensures forall id :: id in s.lost ==> !s.orders[id].IsOpen()
  {
  }

  lemma RestoredAll(s: State)
    requires Inv(s) && forall id :: id in s.active + s.lost ==> s.orders[id].price != NoPrice
    ensures Restored(s).active == s.active && Restored(s).lost == FailedOf(s, s.lost)
  {
    hide Inv, Restored, Reread, Readable, OpenOf, FailedOf;
    OpenAndClosed(s);
    RestoredShape(s);
    AllReadable(s, s.active + s.lost);
    Split(s, s.active, s.lost);
    FilterAll(s, s.active);
    FilterAll(s, s.lost);
  }

  lemma RestoredOrders(s: State)
    requires Inv(s) && forall id :: id in s.active + s.lost ==> s.orders[id].price != NoPrice
    ensures forall x :: x in s.active || (x in s.lost && s.orders[x].state == Failed) ==>
              x in Restored(s).orders && Restored(s).orders[x] == Reread(s.orders[x])
  {
    hide Inv, Restored, Reread, Readable, OpenOf, FailedOf;
    OpenAndClosed(s);
    RestoredShape(s);
    AllReadable(s, s.active + s.lost);
  }

  /**
    Saving and restoring between steps is the identity on the active and the lost orders exactly
    when every one of them can be read back unchanged and no lost order is FILLED.
   */
  lemma SaveRestore(s: State)
    requires Inv(s)
    ensures SameTracking(Restored(s), s)
       <==> && (forall id :: id in s.active + s.lost ==> Restorable(s.orders[id]))
            && (forall id :: id in s.lost ==> s.orders[id].state != Filled)
  {
    if forall id :: id in s.active + s.lost ==> s.orders[id].price != NoPrice {
      SaveRestorePriced(s);
    } else {
      var id :| id in s.active + s.lost && s.orders[id].price == NoPrice;
      UnreadableMissing(s, id);
    }
    hide Restored, Inv;
  }

  lemma UnreadableMissing(s: State, id: Id)
    requires Inv(s) && id in s.active + s.lost && s.orders[id].price == NoPrice
    ensures id !in Restored(s).active && id !in Restored(s).lost && !Restorable(s.orders[id])
  {
    var all := s.active + s.lost;
    RestoredShape(s);
    Members(s, all, id);
    Members(s, Readable(s, all), id);
    hide Restored, OpenOf, FailedOf, Readable;
  }

  lemma SaveRestorePriced(s: State)
    requires Inv(s) && forall id :: id in s.active + s.lost ==> s.orders[id].price != NoPrice
    ensures SameTracking(Restored(s), s)
       <==> && (forall id :: id in s.active + s.lost ==> Restorable(s.orders[id]))
            && (forall id :: id in s.lost ==> s.orders[id].state != Filled)
  {
    hide Inv, Restored, Restorable, FillsFromJson, OpenOf, FailedOf, Reread;
    RestoredAll(s);
    RestoredOrders(s);
    LostFailedOrFilled(s);
    forall id | id in s.active + s.lost ensures Reread(s.orders[id]) == s.orders[id] <==> Restorable(s.orders[id]) {
      RereadIffRestorable(s.orders[id]);
    }
    if forall id :: id in s.lost ==> s.orders[id].state != Filled {
      FilterAll(s, s.lost);
    } else {
      var id :| id in s.lost && s.orders[id].state == Filled;
      Members(s, s.lost, id);
    }
  }

  lemma LostFailedOrFilled(s: State)
    requires Inv(s)
    ensures Resolves(s) && forall id :: id in s.lost ==> s.orders[id].state in {Failed, Filled}
  {
  }

  lemma RereadIffRestorable(o: Order)
    ensures Reread(o) == o <==> Restorable(o) || (o.price == NoPrice && AllTaker(o.fills))
  {
    JsonRoundTrip(o);
  }

  // Runs in which no lost order can turn FILLED

  predicate Awaited(s: State, id: Id) {
    exists k :: 0 <= k < |s.waiting| && s.waiting[k].target == id
  }

  predicate DeclaresLost(s: State, step: Step, id: Id) {
    step.NotFound? && step.id == id && id in s.active && Reports(s, id) + 1 > s.limit
  }

  /** No FILLED update is waiting for an order at the moment that order is declared lost. */
  ghost predicate NoneAwaitedWhenLost(s: State, steps: seq<Step>)
    decreases |steps|
  {
    steps != [] && Resolves(s) ==>
      && (forall id :: DeclaresLost(s, steps[0], id) ==> !Awaited(s, id))
      && NoneAwaitedWhenLost(Next(s, steps[0]), steps[1..])
  }

  predicate SettledIfLost(s: State, id: Id)
    requires Resolves(s)
  {
    id in s.lost ==> s.orders[id].state == Failed && !Awaited(s, id)
  }

  lemma UpdateWaits(s: State, u: OrderUpdate, victim: nat, id: Id)
    requires Inv(s) && Awaited(ProcessOrderUpdate(s, u, victim), id)
    ensures Awaited(s, id) || id in s.active || id in s.cached
  {
    hide FinishUpdate, WithOrderUpdate, WaitApplies;
    FetchAddresses(s, s.active + s.cached, u);
    match Fetch(s, s.active + s.cached, u.clientId, u.exchangeId)
    case Some(x) => FinishEffect(s, x, u, victim);
    case None =>
  }

  lemma ResumeWaits(s: State, k: nat, victim: nat, id: Id)
    requires Inv(s) && Awaited(ResumeUpdate(s, k, victim), id)
    ensures Awaited(s, id)
  {
    hide FinishUpdate, WithOrderUpdate;
    if k < |s.waiting| {
      var w, s1 := s.waiting[k], s.(waiting := RemoveAt(s.waiting, k));
      assert WaitApplies(s, w);
      assert Inv(s1);
      FinishEffect(s1, w.target, w.update, victim);
      var j :| 0 <= j < |s1.waiting| && s1.waiting[j].target == id;
      assert s1.waiting[j] == s.waiting[if j < k then j else j + 1];
    }
  }

  lemma NewWaits(s: State, step: Step, id: Id)
    requires Inv(s) && Admissible(s, step) && Awaited(Next(s, step), id)
    ensures Awaited(s, id) || id in s.active || id in s.cached
  {
    hide ProcessOrderUpdate, ResumeUpdate, ProcessOrderNotFound;
    match step
    case Update(u, victim) => UpdateWaits(s, u, victim, id);
    case Resume(k, victim) => ResumeWaits(s, k, victim, id);
    case NotFound(x, now, victim) => NotFoundWaits(s, x, now, victim);
    case _ =>
  }

  lemma NotFoundWaits(s: State, id: Id, now: real, victim: nat)
    requires Inv(s)
    ensures ProcessOrderNotFound(s, id, now, victim).waiting == s.waiting
  {
    hide ProcessOrderUpdate, FileAsLost;
    if id in s.active && Reports(s, id) + 1 > s.limit {
      LostEffect(s, id, now, victim);
    } else if id in s.lost {
      LostReportIsSilent(s, id, now, victim);
    }
  }

  lemma AppliedElsewhere(s: State, step: Step, id: Id)
    requires Inv(s) && Admissible(s, step) && id in s.lost && !Awaited(s, id)
    ensures id in OrdersAfter(s, step) && OrdersAfter(s, step)[id].state == s.orders[id].state
  {
    hide WithOrderUpdate, WaitApplies;
    if step.Resume? && step.index < |s.waiting| {
      assert s.waiting[step.index].target != id;
    }
  }

  lemma DeclaredLostIsFailed(s: State, step: Step, id: Id)
    requires Inv(s) && DeclaresLost(s, step, id) && !Awaited(s, id)
    ensures Resolves(Next(s, step)) && SettledIfLost(Next(s, step), id)
  {
    LostEffect(s, id, step.now, step.victim);
    FinishEffect(s, id, FailedUpdate(id, step.now), step.victim);
    hide ProcessOrderNotFound, FinishUpdate, WithOrderUpdate, Inv;
  }

  lemma SettledStep(s: State, step: Step, id: Id)
    requires Inv(s) && Admissible(s, step) && SettledIfLost(s, id)
    requires DeclaresLost(s, step, id) ==> !Awaited(s, id)
    ensures Resolves(Next(s, step)) && SettledIfLost(Next(s, step), id)
  {
    hide Next, OrdersAfter, EventsOf, AppliedBy, WaitApplies, ActiveAreOpen, LostAreClosed, CountersBounded;
    StepKeeps(s, step);
    StepMoves(s, step, id);
    StepEvents(s, step);
    if DeclaresLost(s, step, id) {
      DeclaredLostIsFailed(s, step, id);
    } else if id in s.lost {
      AppliedElsewhere(s, step, id);
      if Awaited(Next(s, step), id) {
        NewWaits(s, step, id);
      }
    } else if id in Next(s, step).lost {
      ReportOutcome(s, id, step.now, step.victim);
      NotFoundIsStep(s, step);
    }
  }

  lemma NotFoundIsStep(s: State, step: Step)
    requires Resolves(s) && step.NotFound?
    ensures Next(s, step) == ProcessOrderNotFound(s, step.id, step.now, step.victim)
  {
    hide ProcessOrderNotFound;
  }

  lemma {:induction false} SettledOverRun(s: State, steps: seq<Step>, id: Id)
    requires Inv(s) && AdmissibleRun(s, steps) && NoneAwaitedWhenLost(s, steps) && SettledIfLost(s, id)
    ensures Resolves(Run(s, steps)) && SettledIfLost(Run(s, steps), id)
    decreases |steps|
  {
    hide Next, SettledIfLost, DeclaresLost, Awaited, StoresDisjoint, KeysNameOrders, ActiveAreOpen;
    if steps == [] {
    } else {
      StepKeeps(s, steps[0]);
      SettledStep(s, steps[0], id);
      SettledOverRun(Next(s, steps[0]), steps[1..], id);
    }
  }

  /**
    After any run of a new tracker in which no FILLED update waits for an order while it is declared
    lost, saving and restoring gives back the same active and lost orders exactly when every one of
    them can be read back unchanged.
   */
  lemma SaveRestoreAfterRun(limit: int, steps: seq<Step>)
    requires AdmissibleRun(Empty(limit), steps) && NoneAwaitedWhenLost(Empty(limit), steps)
    ensures var s := Run(Empty(limit), steps);
            && Inv(s)
            && (SameTracking(Restored(s), s)
                <==> forall id :: id in s.active + s.lost ==> Restorable(s.orders[id]))
  {
    hide Next, Restored;
    var s := Run(Empty(limit), steps);
    EmptyInv(limit);
    RunKeeps(Empty(limit), steps);
    forall id | id in s.lost ensures s.orders[id].state == Failed {
      SettledOverRun(Empty(limit), steps, id);
    }
    SaveRestore(s);
  }

  // The restored tracker

  lemma RestoredOne(s: State, x: Id)
    requires Resolves(s) && Restores(Empty(s.limit), s, s.active + s.lost)
    requires x in Restored(s).active || x in Restored(s).lost
    ensures x in s.orders && x in Restored(s).orders && Restored(s).orders[x] == Reread(s.orders[x])
  {
    var all := s.active + s.lost;
    hide SavedOrders, RestoreTrackingStates, Reread, OpenOf, FailedOf, Readable;
    RestoreShape(Empty(s.limit), s, all);
    Members(s, Readable(s, all), x);
    RestoreContents(Empty(s.limit), s, all, x);
  }

  lemma RestoreOrderKeeps(r: State, o: Order)
    requires Inv(r) && r.cached == [] && o.clientId != "" && o.clientId !in r.active && o.clientId !in r.lost
    requires forall k :: 0 <= k < |r.waiting| ==> r.waiting[k].target != o.clientId
    ensures Inv(RestoreOrder(r, o)) && RestoreOrder(r, o) == r.(
      active := RestoreOrder(r, o).active, lost := RestoreOrder(r, o).lost, orders := RestoreOrder(r, o).orders)
  {
    hide FillsFromJson;
  }

  lemma {:induction false} RestoringKeeps(r: State, s: State, ids: seq<Id>)
    requires Inv(r) && r.cached == [] && r.waiting == [] && Restores(r, s, ids) && "" !in ids
    ensures Inv(RestoreTrackingStates(r, SavedOrders(s, ids)))
    decreases |ids|
  {
    hide Inv, RestoreTrackingStates, RestoreOrder, SavedOrders, Reread, Readable;
    if ids == [] || s.orders[ids[0]].price == NoPrice {
      RestoreStops(r, s, ids);
    } else {
      var o := Reread(s.orders[ids[0]]);
      RestoreNext(r, s, ids);
      SameIdentity(s.orders[ids[0]]);
      RestoreOrderKeeps(r, o);
      RestoringKeeps(RestoreOrder(r, o), s, ids[1..]);
    }
  }

  lemma RestorableStores(s: State)
    requires Inv(s)
    ensures Resolves(s) && Restores(Empty(s.limit), s, s.active + s.lost) && "" !in s.active + s.lost
  {
    NoDupConcat(s.active, s.lost);
  }

  lemma RestoredWithin(s: State)
    requires Inv(s)
    ensures var r := Restored(s);
            && r.limit == s.limit && r.cached == [] && r.waiting == [] && r.log == [] && r.notFound == map[]
            && (forall id :: id in r.active ==> id in s.active) && (forall id :: id in r.lost ==> id in s.lost)
  {
    hide Inv, RestoreTrackingStates, SavedOrders, OpenOf, FailedOf, Readable, Restores;
    var all := s.active + s.lost;
    OpenAndClosed(s);
    RestorableStores(s);
    RestoreShape(Empty(s.limit), s, all);
    forall id | id in Restored(s).active || id in Restored(s).lost
      ensures id in Restored(s).active ==> id in s.active
      ensures id in Restored(s).lost ==> id in s.lost
    {
      Members(s, Readable(s, all), id);
      FailedAreLost(s, id);
    }
  }

  lemma FailedAreLost(s: State, id: Id)
    requires Inv(s) && (id in s.active || id in s.lost)
    ensures id in s.orders
    ensures s.orders[id].IsOpen() ==> id in s.active
    ensures s.orders[id].state == Failed ==> id in s.lost
  {
  }

  /** A tracker restored from the snapshot of a sound one is sound; it has lost its cache, counters and waits. */
  lemma RestoredInv(s: State)
    requires Inv(s)
    ensures var r := Restored(s);
            && Inv(r) && r.limit == s.limit && r.cached == [] && r.waiting == [] && r.log == [] && r.notFound == map[]
            && (forall id :: id in r.active ==> id in s.active) && (forall id :: id in r.lost ==> id in s.lost)
  {
    hide Inv, RestoreTrackingStates, SavedOrders, Restores;
    OpenAndClosed(s);
    RestorableStores(s);
    EmptyInv(s.limit);
    RestoringKeeps(Empty(s.limit), s, s.active + s.lost);
    RestoredWithin(s);
  }
}
