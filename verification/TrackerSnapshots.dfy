/** Snapshots of the tracker that a listener takes inside an event. */
module TrackerSnapshots {
  import opened Options
  import opened Orders
  import opened Sequences
  import opened TrackerModel
  import opened TrackerInvariant
  import opened TrackerRuns
  import opened TrackerRestore

  /** The same stores, whatever the order of the lost dictionary. */
  ghost predicate SameStores(r: State, s: State) {
    r.active == s.active && forall id :: id in r.lost <==> id in s.lost
  }

  ghost predicate OrdersReadBack(r: State, s: State) {
    forall id :: id in r.active || id in r.lost ==>
      id in r.orders && id in s.orders && r.orders[id] == Reread(s.orders[id])
  }

  /** The ids of the saved orders that are read back: those in front of the first one without a price. */
  function ReadBack(s: State): seq<Id>
    requires Resolves(s)
  {
    Readable(s, s.active + s.lost)
  }

  lemma {:induction false} WithoutClosed(s: State, ids: seq<Id>, id: Id)
    requires forall x :: x in ids ==> x in s.orders && (s.orders[x].IsOpen() <==> x != id)
    ensures OpenOf(s, ids) == Without(ids, {id})
  {
    if ids == [] {
    } else {
      WithoutClosed(s, ids[1..], id);
    }
  }

  ghost predicate AllOpenIn(s: State, ids: seq<Id>, among: seq<Id>)
    requires forall x :: x in ids ==> x in s.orders
  {
    forall x :: x in ids && s.orders[x].IsOpen() ==> x in among
  }

  lemma {:induction false} NoneOpen(s: State, ids: seq<Id>)
    requires forall x :: x in ids ==> x in s.orders
    ensures OpenOf(s, ids) == [] <==> AllOpenIn(s, ids, [])
  {
    if ids == [] {
    } else {
      NoneOpen(s, ids[1..]);
    }
  }

  lemma OpenInTail(s: State, ids: seq<Id>)
    requires NoDup(ids) && ids != [] && forall x :: x in ids ==> x in s.orders
    ensures AllOpenIn(s, ids, [ids[0]] + Readable(s, ids[1..])) <==> AllOpenIn(s, ids[1..], Readable(s, ids[1..]))
  {
    hide Readable, Order.IsOpen;
    assert forall x :: x in ids[1..] ==> x != ids[0] && x in ids;
    assert ids == [ids[0]] + ids[1..];
  }

  /** What is read back has all the open orders exactly when each of them is read back. */
  lemma {:induction false} OpenReadBack(s: State, ids: seq<Id>)
    requires NoDup(ids) && forall x :: x in ids ==> x in s.orders
    ensures OpenOf(s, Readable(s, ids)) == OpenOf(s, ids) <==> AllOpenIn(s, ids, Readable(s, ids))
  {
    hide OpenOf, AllOpenIn;
    if ids == [] || s.orders[ids[0]].price == NoPrice {
      NoneOpen(s, ids);
      NoneOpen(s, []);
      assert AllOpenIn(s, [], []) by { NothingOpen(s); }
    } else {
      OpenReadBack(s, ids[1..]);
      OpenInTail(s, ids);
      Cons(s, ids[0], Readable(s, ids[1..]));
      assert [ids[0]] + ids[1..] == ids;
      Cons(s, ids[0], ids[1..]);
      SameHead(ids[0], OpenOf(s, Readable(s, ids[1..])), OpenOf(s, ids[1..]));
    }
  }

  lemma SameHead(id: Id, xs: seq<Id>, ys: seq<Id>)
    ensures [id] + xs == [id] + ys <==> xs == ys
  {
    assert ([id] + xs)[1..] == xs && ([id] + ys)[1..] == ys;
  }

  lemma NothingOpen(s: State)
    ensures AllOpenIn(s, [], [])
  {
  }

  lemma OpenAreActive(s: State, id: Id, among: seq<Id>)
    requires forall x :: x in s.active + s.lost ==> x in s.orders
    requires forall x :: x in s.active ==> (s.orders[x].IsOpen() <==> x != id)
    requires forall x :: x in s.lost ==> !s.orders[x].IsOpen()
    ensures AllOpenIn(s, s.active + s.lost, among) <==> forall x :: x in s.active && x != id ==> x in among
  {
    hide Order.IsOpen;
  }

  /** What a snapshot restores to when one order is already closed but not yet moved. */
  lemma RestoredInside(s: State, id: Id)
    requires Resolves(s) && Restores(Empty(s.limit), s, s.active + s.lost)
    requires forall x :: x in s.active ==> (s.orders[x].IsOpen() <==> x != id)
    requires forall x :: x in s.lost ==> !s.orders[x].IsOpen()
    ensures Restored(s).active == Without(s.active, {id})
       <==> forall x :: x in s.active && x != id ==> x in ReadBack(s)
    ensures forall x :: x in Restored(s).lost <==> x in ReadBack(s) && s.orders[x].state == Failed
  {
    hide RestoreTrackingStates, SavedOrders, OpenOf, FailedOf, Readable, AllOpenIn, Order.IsOpen, Without;
    var all := s.active + s.lost;
    RestoreShape(Empty(s.limit), s, all);
    OpenReadBack(s, all);
    OpenAreActive(s, id, ReadBack(s));
    Split(s, s.active, s.lost);
    WithoutClosed(s, s.active, id);
    FilterAll(s, s.lost);
    forall x ensures x in FailedOf(s, ReadBack(s)) <==> x in ReadBack(s) && s.orders[x].state == Failed {
      Members(s, ReadBack(s), x);
    }
  }

  /**
    The condition on which a snapshot inside the closing event of `u` agrees with the stores after
    it: every order that stays is read back, the lost ones are other orders and all FAILED, and the
    closing order is not an active one that fails, which would come back as lost.
   */
  ghost predicate Agrees(s: State, id: Id, u: OrderUpdate)
    requires Resolves(s)
  {
    && (forall x :: x in s.active && x != id ==> x in ReadBack(s))
    && (forall x :: x in s.lost ==> x in ReadBack(s) && x != id && s.orders[x].state == Failed)
    && !(id in s.active && id in ReadBack(s) && u.newState == Failed)
  }

  lemma {:induction false} ReadableByPrice(s: State, t: State, ids: seq<Id>)
    requires forall x :: x in ids ==> x in s.orders && x in t.orders && s.orders[x].price == t.orders[x].price
    ensures Readable(s, ids) == Readable(t, ids)
  {
    if ids == [] {
    } else {
      ReadableByPrice(s, t, ids[1..]);
    }
  }

  /** The stores do not move inside an event, and only the updated order is different. */
  lemma InsideStores(s: State, id: Id, u: OrderUpdate)
    requires Inv(s) && id in s.orders && Addressed(u, s.orders[id]) && !WithOrderUpdate(s.orders[id], u).IsOpen()
    ensures var mid := InsideEvent(s, id, u);
            && Resolves(mid) && mid.active == s.active && mid.lost == s.lost && mid.limit == s.limit
            && Restores(Empty(mid.limit), mid, mid.active + mid.lost)
            && id in mid.orders && mid.orders[id].state == u.newState && !mid.orders[id].IsOpen()
            && (forall x :: x in s.orders && x != id ==> x in mid.orders && mid.orders[x] == s.orders[x])
            && mid.orders == s.orders[id := WithOrderUpdate(s.orders[id], u)]
            && ReadBack(mid) == ReadBack(s)
  {
    InsideEffect(s, id, u);
    RestorableStores(s);
    var mid := InsideEvent(s, id, u);
    assert mid.orders[id].price == s.orders[id].price && mid.orders[id].clientId == s.orders[id].clientId;
    ReadableByPrice(s, mid, s.active + s.lost);
    hide InsideEvent, Readable;
  }

  /**
    A snapshot taken inside the closing event of an order update restores to the active and lost
    orders the update leaves behind exactly on that condition. A lost order receives an update only
    when a FILLED one resumes that was waiting when the order was declared lost.
   */
  lemma SnapshotInsideUpdate(s: State, id: Id, u: OrderUpdate, victim: nat)
    requires Inv(s) && id in s.orders && Addressed(u, s.orders[id])
    requires OrderUpdateChanges(s.orders[id], u) && !WithOrderUpdate(s.orders[id], u).IsOpen()
    requires id in s.lost ==> u.newState == Filled
    ensures Resolves(InsideEvent(s, id, u))
    ensures SameStores(Restored(InsideEvent(s, id, u)), FinishUpdate(s, id, u, victim)) <==> Agrees(s, id, u)
  {
    hide Inv, Restored, InsideEvent, FinishUpdate, WithOrderUpdate, OrderUpdateChanges, Addressed, Restores, ReadBack;
    OpenAndClosed(s);
    var mid, post := InsideEvent(s, id, u), FinishUpdate(s, id, u, victim);
    InsideStores(s, id, u);
    StoresResolve(s);
    FinishEffect(s, id, u, victim);
    RestoredInside(mid, id);
    StopsActive(s, id, victim);
    ReadBackWithin(s);
    assert post.active == Without(s.active, {id}) && post.lost == s.lost;
    hide Resolves, FinishUpdate;
    SameWhenAgreed(s, mid, Restored(mid), post, id, u);
  }

  lemma SameWhenAgreed(s: State, mid: State, r: State, post: State, id: Id, u: OrderUpdate)
    requires Resolves(s) && id in s.orders && Disjoint(s.active, s.lost)
    requires id in mid.orders && mid.orders == s.orders[id := mid.orders[id]] && mid.orders[id].state == u.newState
    requires id in s.lost ==> u.newState == Filled
    requires forall x :: x in s.active && x != id ==> s.orders[x].IsOpen()
    requires forall x :: x in ReadBack(s) ==> x in s.active || x in s.lost
    requires post.lost == s.lost
    requires r.active == post.active <==> forall x :: x in s.active && x != id ==> x in ReadBack(s)
    requires forall x :: x in r.lost <==> x in ReadBack(s) && mid.orders[x].state == Failed
    ensures SameStores(r, post) <==> Agrees(s, id, u)
  {
    hide ReadBack;
    if SameStores(r, post) {
      forall x | x in s.lost ensures x in ReadBack(s) && x != id && s.orders[x].state == Failed {
        assert x in r.lost;
      }
      assert id in s.active ==> id !in r.lost;
    } else if Agrees(s, id, u) {
      forall x ensures x in r.lost <==> x in s.lost {
        if x in r.lost && x != id {
          assert mid.orders[x] == s.orders[x];
        }
      }
    }
  }

  lemma StopsActive(s: State, id: Id, victim: nat)
    requires Resolves(s)
    ensures var s' := StopTracking(s, id, victim);
            s'.lost == s.lost && s'.active == if id in s.active then Without(s.active, {id}) else s.active
  {
  }

  lemma ReadBackWithin(s: State)
    requires Resolves(s)
    ensures forall x :: x in ReadBack(s) ==> x in s.active || x in s.lost
  {
  }

  lemma {:induction false} AllReadBackIff(s: State, ids: seq<Id>)
    requires forall x :: x in ids ==> x in s.orders
    ensures Readable(s, ids) == ids <==> forall x :: x in ids ==> s.orders[x].price != NoPrice
  {
    if ids == [] {
    } else {
      AllReadBackIff(s, ids[1..]);
      assert forall x :: x in ids <==> x == ids[0] || x in ids[1..];
      assert ids == [ids[0]] + ids[1..];
    }
  }

  /**
    A snapshot taken inside the event that declares an order lost restores to the active and lost
    orders after the report exactly when all of them are read back and the lost ones are FAILED.
   */
  lemma SnapshotInsideLoss(s: State, id: Id, now: real, victim: nat)
    requires Inv(s) && id in s.active && Reports(s, id) + 1 > s.limit
    ensures Resolves(InsideEvent(s, id, FailedUpdate(id, now)))
    ensures SameStores(Restored(InsideEvent(s, id, FailedUpdate(id, now))), ProcessOrderNotFound(s, id, now, victim))
       <==> && (forall x :: x in s.active || x in s.lost ==> x in ReadBack(s))
            && (forall x :: x in s.lost ==> s.orders[x].state == Failed)
  {
    hide Inv, Restored, InsideEvent, ProcessOrderNotFound, WithOrderUpdate, Restores, ReadBack, FailedUpdate;
    var u := FailedUpdate(id, now);
    OpenAndClosed(s);
    StoresResolve(s);
    FailingUpdate(s, id, now);
    LostEffect(s, id, now, victim);
    InsideStores(s, id, u);
    var mid, post := InsideEvent(s, id, u), ProcessOrderNotFound(s, id, now, victim);
    RestoredInside(mid, id);
    StopsActive(s, id, victim);
    ReadBackWithin(s);
    assert post.active == Without(s.active, {id}) && post.lost == s.lost + [id];
    hide Resolves, StopTracking;
    SameAfterLoss(s, mid, Restored(mid), post, id);
  }

  lemma FailingUpdate(s: State, id: Id, now: real)
    requires Inv(s) && id in s.active
    ensures id in s.orders && Addressed(FailedUpdate(id, now), s.orders[id])
    ensures FailedUpdate(id, now).newState == Failed
    ensures !WithOrderUpdate(s.orders[id], FailedUpdate(id, now)).IsOpen()
  {
  }

  lemma SameAfterLoss(s: State, mid: State, r: State, post: State, id: Id)
    requires Resolves(s) && id in s.active && Disjoint(s.active, s.lost)
    requires id in mid.orders && mid.orders == s.orders[id := mid.orders[id]] && mid.orders[id].state == Failed
    requires forall x :: x in s.active && x != id ==> s.orders[x].IsOpen()
    requires forall x :: x in ReadBack(s) ==> x in s.active || x in s.lost
    requires post.lost == s.lost + [id]
    requires r.active == post.active <==> forall x :: x in s.active && x != id ==> x in ReadBack(s)
    requires forall x :: x in r.lost <==> x in ReadBack(s) && mid.orders[x].state == Failed
    ensures SameStores(r, post)
       <==> && (forall x :: x in s.active || x in s.lost ==> x in ReadBack(s))
            && (forall x :: x in s.lost ==> s.orders[x].state == Failed)
  {
    hide ReadBack;
    if SameStores(r, post) {
      assert id in post.lost && id in r.lost;
      forall x | x in s.lost ensures x in ReadBack(s) && s.orders[x].state == Failed {
        assert x in post.lost && x in r.lost;
      }
    }
  }

  /** Such a snapshot brings its orders back with the data they have after the event. */
  lemma SnapshotOrders(s: State, id: Id, u: OrderUpdate, victim: nat)
    requires Inv(s) && id in s.orders && Addressed(u, s.orders[id]) && (id in s.lost ==> u.newState == Filled)
    requires !WithOrderUpdate(s.orders[id], u).IsOpen()
    ensures Resolves(InsideEvent(s, id, u))
    ensures OrdersReadBack(Restored(InsideEvent(s, id, u)), FinishUpdate(s, id, u, victim))
  {
    hide Inv, InsideEvent, FinishUpdate, WithOrderUpdate, Restored, Restores, ReadBack, Reread;
    OpenAndClosed(s);
    var mid := InsideEvent(s, id, u);
    InsideStores(s, id, u);
    FinishEffect(s, id, u, victim);
    forall x | x in Restored(mid).active || x in Restored(mid).lost
      ensures x in mid.orders && x in Restored(mid).orders && Restored(mid).orders[x] == Reread(mid.orders[x])
    {
      RestoredOne(mid, x);
    }
    assert mid.orders == FinishUpdate(s, id, u, victim).orders;
  }

  // A lost order that completes

  function FilledUpdateOf(id: Id): OrderUpdate {
    OrderUpdate(Some(id), None, Filled, 0.0)
  }

  /** The run: the order starts, a FILLED update waits for its fills, and meanwhile the order is declared lost. */
  function LosingRun(o: Order): seq<Step> {
    [Start(o), Update(FilledUpdateOf(o.clientId), 0), NotFound(o.clientId, 0.0, 0)]
  }

  /** A tracker with one order, which is active and has an update waiting or not. */
  function Alone(o: Order, waiting: seq<Suspended>): State {
    Empty(0).(orders := map[o.clientId := o], active := [o.clientId], waiting := waiting)
  }

  lemma AloneInv(o: Order, waiting: seq<Suspended>)
    requires o.clientId != "" && o.IsOpen()
    requires waiting == [] || waiting == [Suspended(o.clientId, FilledUpdateOf(o.clientId))]
    ensures Inv(Alone(o, waiting))
  {
    hide Order.FullyExecuted;
  }

  lemma SuspendsAlone(o: Order)
    requires o.clientId != "" && o.IsOpen() && !o.FullyExecuted()
    ensures Resolves(Alone(o, []))
    ensures var u := FilledUpdateOf(o.clientId);
            ProcessOrderUpdate(Alone(o, []), u, 0) == Alone(o, [Suspended(o.clientId, u)])
  {
    hide Order.FullyExecuted, FinishUpdate;
  }

  lemma LosesAlone(o: Order)
    requires o.clientId != "" && o.IsOpen()
    ensures var s := Alone(o, [Suspended(o.clientId, FilledUpdateOf(o.clientId))]);
            && Resolves(s)
            && var s' := ProcessOrderNotFound(s, o.clientId, 0.0, 0);
               && Inv(s') && s'.active == [] && s'.lost == [o.clientId] && s'.waiting == s.waiting
               && o.clientId in s'.orders && s'.orders[o.clientId].state == Failed
               && s'.orders[o.clientId].clientId == o.clientId && s'.orders[o.clientId].side == o.side
  {
    hide ProcessOrderNotFound, WithOrderUpdate, Order.FullyExecuted;
    var s := Alone(o, [Suspended(o.clientId, FilledUpdateOf(o.clientId))]);
    AloneInv(o, s.waiting);
    LostEffect(s, o.clientId, 0.0, 0);
    FinishEffect(s, o.clientId, FailedUpdate(o.clientId, 0.0), 0);
    KeepsSide(o, FailedUpdate(o.clientId, 0.0));
  }

  lemma KeepsSide(o: Order, u: OrderUpdate)
    ensures WithOrderUpdate(o, u).side == o.side && WithOrderUpdate(o, u).clientId == o.clientId
  {
  }

  lemma LosingRunIs(o: Order)
    requires o.clientId != "" && o.IsOpen() && !o.FullyExecuted()
    ensures AdmissibleRun(Empty(0), LosingRun(o))
    ensures Run(Empty(0), LosingRun(o))
         == ProcessOrderNotFound(Alone(o, [Suspended(o.clientId, FilledUpdateOf(o.clientId))]), o.clientId, 0.0, 0)
  {
    hide ProcessOrderUpdate, ProcessOrderNotFound, Order.FullyExecuted, Inv;
    var u := FilledUpdateOf(o.clientId);
    SuspendsAlone(o);
    LosesAlone(o);
    assert StartTracking(Empty(0), o) == Alone(o, []);
    assert Resolves(Empty(0));
    var waits := Alone(o, [Suspended(o.clientId, u)]);
    var start, update, report := Start(o), Update(u, 0), NotFound(o.clientId, 0.0, 0);
    assert LosingRun(o) == [start] + [update, report];
    assert [update, report] == [update] + [report] && [report] == [report] + [];
    RunFirst(Empty(0), start, [update, report]);
    RunFirst(Alone(o, []), update, [report]);
    RunFirst(waits, report, []);
    OpenAndClosed(ProcessOrderNotFound(waits, o.clientId, 0.0, 0));
    RunFirst(ProcessOrderNotFound(waits, o.clientId, 0.0, 0), report, []);
  }

  /**
    Resuming the update completes the order while it stays lost. A snapshot inside the completed
    event restores without the order, but the tracker keeps it.
   */
  lemma SnapshotMissesCompletedLost(o: Order)
    requires o.clientId != "" && o.IsOpen() && !o.FullyExecuted()
    ensures var s, id, u := Run(Empty(0), LosingRun(o)), o.clientId, FilledUpdateOf(o.clientId);
            && Resolves(s) && s.active == [] && s.lost == [id] && s.waiting == [Suspended(id, u)] && id in s.orders
            && s.orders[id].state == Failed
            && var mid := InsideEvent(s.(waiting := []), id, u);
               && mid.log == s.log + [OrderCompleted(id, o.side, s.orders[id].executedBase, s.orders[id].executedQuote)]
               && Resolves(mid) && ResumeUpdate(s, 0, 0).lost == [id]
               && !SameStores(Restored(mid), ResumeUpdate(s, 0, 0))
  {
    hide Run, AdmissibleRun, ProcessOrderNotFound, LosingRun, InsideEvent, FinishUpdate, Restored, Order.FullyExecuted;
    var s, id, u := Run(Empty(0), LosingRun(o)), o.clientId, FilledUpdateOf(o.clientId);
    LosingRunIs(o);
    LosesAlone(o);
    var resumed := s.(waiting := RemoveAt(s.waiting, 0));
    assert RemoveAt(s.waiting, 0) == [];
    OpenAndClosed(s);
    NoneWaitingKeeps(s);
    CompletesLost(resumed, id);
    SnapshotInsideUpdate(resumed, id, u, 0);
    FinishEffect(resumed, id, u, 0);
    StopsActive(resumed, id, 0);
    assert ResumeUpdate(s, 0, 0) == FinishUpdate(resumed, id, u, 0);
    hide Inv, WithOrderUpdate, Agrees, Announced;
    assert !Agrees(resumed, id, u) by { LostDisagrees(resumed, id, u); }
  }

  lemma LostDisagrees(s: State, id: Id, u: OrderUpdate)
    requires Resolves(s) && id in s.lost
    ensures !Agrees(s, id, u)
  {
  }

  lemma NoneWaitingKeeps(s: State)
    requires Inv(s)
    ensures Inv(s.(waiting := []))
  {
  }

  lemma CompletesLost(s: State, id: Id)
    requires Inv(s) && id in s.orders && s.orders[id].state == Failed
    ensures var o, u := s.orders[id], FilledUpdateOf(id);
            && InsideEvent(s, id, u).log == s.log + [OrderCompleted(id, o.side, o.executedBase, o.executedQuote)]
            && Addressed(u, o) && OrderUpdateChanges(o, u) && !WithOrderUpdate(o, u).IsOpen()
  {
    ActiveOpenLostClosed(s, id);
    AnnouncedLog(s, id, FilledUpdateOf(id));
    hide Inv, InsideEvent;
  }
}
