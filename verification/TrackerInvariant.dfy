/** What every step of the tracker keeps, over every interleaving. */
module TrackerInvariant {
  import opened Options
  import opened Orders
  import opened Sequences
  import opened TrackerModel

  /** Client ids are never reused, never empty, and orders are handed over open. */
  predicate Admissible(s: State, step: Step) {
    step.Start? ==>
      step.order.clientId != "" && step.order.clientId !in s.orders && step.order.IsOpen()
  }

  predicate Disjoint(xs: seq<Id>, ys: seq<Id>) {
    forall id :: id in xs ==> id !in ys
  }

  predicate StoresDisjoint(s: State) {
    && NoDup(s.active) && NoDup(s.cached) && NoDup(s.lost)
    && Disjoint(s.active, s.cached) && Disjoint(s.active, s.lost) && Disjoint(s.cached, s.lost)
  }

  predicate KeysNameOrders(s: State) {
    forall id :: id in s.orders ==> id != "" && s.orders[id].clientId == id
  }

  predicate ActiveAreOpen(s: State)
    requires Resolves(s)
  {
    forall id :: id in s.active ==> s.orders[id].IsOpen()
  }

  predicate LostAreClosed(s: State)
    requires Resolves(s)
  {
    forall id :: id in s.lost ==> s.orders[id].state in {Failed, Filled}
  }

  /** Not-found counters belong to active orders and never exceed the limit. */
  predicate CountersBounded(s: State) {
    forall id :: id in s.notFound ==> id in s.active && 0 < s.notFound[id] <= s.limit
  }

  predicate WaitingApply(s: State)
    requires Resolves(s)
  {
    forall k :: 0 <= k < |s.waiting| ==> WaitApplies(s, s.waiting[k])
  }

  predicate WaitApplies(s: State, w: Suspended)
    requires w.target in s.orders
  {
    w.update.newState == Filled && Addressed(w.update, s.orders[w.target])
  }

  /** The update names the order by its client id, or by an exchange id the order already has. */
  predicate Addressed(u: OrderUpdate, o: Order) {
    u.clientId == Some(o.clientId) || (u.exchangeId.Some? && u.exchangeId == o.exchangeId)
  }

  predicate Inv(s: State) {
    && Resolves(s)
    && StoresDisjoint(s)
    && KeysNameOrders(s)
    && ActiveAreOpen(s)
    && LostAreClosed(s)
    && CountersBounded(s)
    && WaitingApply(s)
  }

  lemma EmptyInv(limit: int)
    ensures Inv(Empty(limit))
  {
  }

  lemma StopKeeps(s: State, id: Id, victim: nat)
    requires Inv(s)
    ensures Inv(StopTracking(s, id, victim))
    ensures id !in StopTracking(s, id, victim).active
  {
  }

  lemma StartKeeps(s: State, o: Order)
    requires Inv(s) && Admissible(s, Start(o))
    ensures Inv(StartTracking(s, o))
  {
  }

  /** Up to its events, an update changes one order and nothing else. */
  lemma InsideEffect(s: State, id: Id, u: OrderUpdate)
    requires id in s.orders
    ensures var s' := InsideEvent(s, id, u);
            && s' == s.(orders := s.orders[id := WithOrderUpdate(s.orders[id], u)], log := s'.log)
            && s.log <= s'.log
  {
  }

  /** Replacing an order by one that is open while active, and closed while lost, is harmless. */
  lemma ReplaceKeeps(s: State, id: Id, o: Order, log: seq<Event>)
    requires Inv(s) && id in s.orders && o.clientId == id
    requires s.orders[id].exchangeId.Some? ==> o.exchangeId == s.orders[id].exchangeId
    requires id in s.active ==> o.IsOpen()
    requires id in s.lost ==> o.state in {Failed, Filled}
    ensures Inv(s.(orders := s.orders[id := o], log := log))
  {
  }

  lemma TradeKeeps(s: State, t: TradeUpdate)
    requires Inv(s)
    ensures Inv(ProcessTradeUpdate(s, t))
  {
    if t.clientId in s.active || t.clientId in s.cached || t.clientId in s.lost {
      var s' := ProcessTradeUpdate(s, t);
      TradeEffect(s.orders[t.clientId], t);
      ActiveOpenLostClosed(s, t.clientId);
      ReplaceKeeps(s, t.clientId, WithTradeUpdate(s.orders[t.clientId], t), s'.log);
      hide Inv, WithTradeUpdate;
    }
  }

  lemma TradeEffect(o: Order, t: TradeUpdate)
    ensures var o' := WithTradeUpdate(o, t);
            o'.clientId == o.clientId && o'.exchangeId == o.exchangeId && o'.state == o.state
  {
  }

  lemma ActiveOpenLostClosed(s: State, id: Id)
    requires Inv(s) && id in s.orders
    ensures s.orders[id].clientId == id
    ensures id in s.active ==> s.orders[id].IsOpen()
    ensures id in s.lost ==> s.orders[id].state in {Failed, Filled}
  {
  }

  /** What an order update does to the order it is applied to, whatever the order's store. */
  lemma FinishEffect(s: State, id: Id, u: OrderUpdate, victim: nat)
    requires Inv(s) && id in s.orders && Addressed(u, s.orders[id])
    requires id in s.lost ==> u.newState == Filled
    ensures var s' := FinishUpdate(s, id, u, victim);
            var o' := WithOrderUpdate(s.orders[id], u);
            var stopped := if o'.IsOpen() then s else StopTracking(s, id, victim);
            && Inv(s')
            && o'.state == u.newState
            && s' == stopped.(orders := s.orders[id := o'], log := s'.log)
            && s.log <= s'.log
  {
    InsideEffect(s, id, u);
    var o' := WithOrderUpdate(s.orders[id], u);
    var s1 := InsideEvent(s, id, u);
    if o'.IsOpen() {
      ReplaceKeeps(s, id, o', s1.log);
    } else {
      StopKeeps(s, id, victim);
      var s2 := StopTracking(s, id, victim);
      ReplaceKeeps(s2, id, o', s1.log);
      if !OrderUpdateChanges(s.orders[id], u) {
        assert o' == s.orders[id];
        assert id !in s.active;
      }
    }
  }

  /** The order found for an update is one the update names. */
  lemma FetchAddresses(s: State, ids: seq<Id>, u: OrderUpdate)
    requires Inv(s) && forall id :: id in ids ==> id in s.orders
    ensures var r := Fetch(s, ids, u.clientId, u.exchangeId);
            r.Some? ==> r.value in ids && Addressed(u, s.orders[r.value])
  {
  }

  lemma DropKeeps(s: State, id: Id)
    requires Inv(s)
    ensures Inv(s.(lost := Without(s.lost, {id})))
  {
  }

  lemma SuspendKeeps(s: State, id: Id, u: OrderUpdate)
    requires Inv(s) && id in s.orders && u.newState == Filled && Addressed(u, s.orders[id])
    ensures Inv(s.(waiting := s.waiting + [Suspended(id, u)]))
  {
  }

  lemma UpdateKeeps(s: State, u: OrderUpdate, victim: nat)
    requires Inv(s)
    ensures Inv(ProcessOrderUpdate(s, u, victim))
  {
    var live := s.active + s.cached;
    StoresResolve(s);
    FetchAddresses(s, live, u);
    hide Inv, FinishUpdate, WithOrderUpdate, Addressed, FirstByExchangeId;
    match Fetch(s, live, u.clientId, u.exchangeId)
    case Some(id) =>
      if u.newState == Filled { SuspendKeeps(s, id, u); }
      FinishEffect(s, id, u, victim);
    case None =>
      var found := Fetch(s, s.lost, u.clientId, u.exchangeId);
      if found.Some? { DropKeeps(s, found.value); }
  }

  lemma StoresResolve(s: State)
    requires Inv(s)
    ensures Resolves(s) && Disjoint(s.active, s.lost) && Disjoint(s.cached, s.lost)
  {
  }

  lemma ResumeKeeps(s: State, k: nat, victim: nat)
    requires Inv(s)
    ensures Inv(ResumeUpdate(s, k, victim))
  {
    hide FinishUpdate, WithOrderUpdate;
    if k < |s.waiting| {
      var w := s.waiting[k];
      var s1 := s.(waiting := RemoveAt(s.waiting, k));
      assert Inv(s1);
      FinishEffect(s1, w.target, w.update, victim);
    }
  }

  /** The counter of the updated order does not matter to an update that closes it. */
  lemma ForgetCounter(s: State, n: int, id: Id, now: real, victim: nat)
    requires Resolves(s) && id in s.active && id != ""
    requires s.orders[id].clientId == id && s.orders[id].IsOpen()
    ensures ProcessOrderUpdate(s.(notFound := s.notFound[id := n]), FailedUpdate(id, now), victim)
         == FinishUpdate(s, id, FailedUpdate(id, now), victim)
  {
    var u := FailedUpdate(id, now);
    var counted := s.(notFound := s.notFound[id := n]);
    assert Fetch(counted, counted.active + counted.cached, u.clientId, u.exchangeId) == Some(id);
    InsideEffect(s, id, u);
    InsideEffect(counted, id, u);
    assert counted.notFound - {id} == s.notFound - {id};
  }

  /** Declaring an order lost; the deletion from the cache succeeds. */
  lemma LostEffect(s: State, id: Id, now: real, victim: nat)
    requires Inv(s) && id in s.active && Reports(s, id) + 1 > s.limit
    ensures var s' := ProcessOrderNotFound(s, id, now, victim);
            var stopped := StopTracking(s, id, victim);
            && Inv(s')
            && s' == stopped.(cached := Without(stopped.cached, {id}), lost := s.lost + [id], log := s'.log,
                              orders := s.orders[id := WithOrderUpdate(s.orders[id], FailedUpdate(id, now))])
            && s.log <= s'.log
  {
    var u := FailedUpdate(id, now);
    FinishEffect(s, id, u, victim);
    var s1 := FinishUpdate(s, id, u, victim);
    FiledInv(s1, id);
    NotFoundOverLimit(s, id, now, victim);
  }

  lemma NotFoundOverLimit(s: State, id: Id, now: real, victim: nat)
    requires Resolves(s) && id in s.active && id != ""
    requires s.orders[id].clientId == id && s.orders[id].IsOpen()
    requires Reports(s, id) + 1 > s.limit
    ensures ProcessOrderNotFound(s, id, now, victim)
         == FileAsLost(FinishUpdate(s, id, FailedUpdate(id, now), victim), id)
  {
    hide ProcessOrderUpdate, FinishUpdate, FileAsLost;
    ForgetCounter(s, Reports(s, id) + 1, id, now, victim);
  }

  lemma FiledInv(s: State, id: Id)
    requires Inv(s) && id in s.cached && s.orders[id].state == Failed
    ensures Inv(FileAsLost(s, id))
  {
  }

  lemma NotFoundKeeps(s: State, id: Id, now: real, victim: nat)
    requires Inv(s)
    ensures Inv(ProcessOrderNotFound(s, id, now, victim))
  {
    if id in s.active {
      if Reports(s, id) + 1 > s.limit {
        LostEffect(s, id, now, victim);
      }
    } else if id in s.lost {
      UpdateKeeps(s, FailedUpdate(id, now), victim);
    }
  }

  lemma StepKeeps(s: State, step: Step)
    requires Inv(s) && Admissible(s, step)
    ensures Inv(Next(s, step))
  {
    match step
    case Start(o) => StartKeeps(s, o);
    case Stop(id, victim) => StopKeeps(s, id, victim);
    case Trade(t) => TradeKeeps(s, t);
    case Update(u, victim) => UpdateKeeps(s, u, victim);
    case Resume(k, victim) => ResumeKeeps(s, k, victim);
    case NotFound(id, now, victim) => NotFoundKeeps(s, id, now, victim);
    case Expire(gone) =>
  }
}
