/** The tracker object. Every method is tied to the state machine of `TrackerModel`. */
module OrderTracking {
  import opened Options
  import opened Orders
  import opened Sequences
  import TM = TrackerModel
  import TrackerInvariant

  lemma StillResolves(s: TM.State, id: Id, o: Order)
    requires TM.Resolves(s) && id in s.orders
    ensures TM.Resolves(s.(orders := s.orders[id := o]))
  {
  }

  class ClientOrderTracker {
    var limit: int
    var orders: map<Id, InFlightOrder>  // every order handed over, also after it left the stores
    var inFlight: seq<Id>
    var cached: seq<Id>
    var lost: seq<Id>
    var notFound: map<Id, int>
    var waiting: seq<TM.Suspended>
    var log: seq<TM.Event>

    ghost var model: TM.State  // the abstract state all of the above stands for

    ghost predicate Valid()
      reads this, orders.Values
    {
      && TM.Resolves(model)
      && model.limit == limit && model.notFound == notFound
      && model.active == inFlight && model.cached == cached && model.lost == lost
      && model.waiting == waiting && model.log == log
      && model.orders.Keys == orders.Keys && Mirrors(orders, model.orders)
    }

    static ghost predicate Mirrors(objects: map<Id, InFlightOrder>, orders: map<Id, Order>)
      reads objects.Values
    {
      forall id :: id in objects && id in orders ==>
        objects[id].clientId == id && objects[id].View() == orders[id]
    }

    lemma KnowsOrder(id: Id)
      requires Valid() && id in model.orders
      ensures id in orders && orders[id].clientId == id && orders[id].View() == model.orders[id]
    {
    }

    constructor (lostOrderCountLimit: int)
      ensures Valid() && model == TM.Empty(lostOrderCountLimit) && orders == map[]
    {
      limit := lostOrderCountLimit;
      orders, notFound := map[], map[];
      inFlight, cached, lost := [], [], [];
      waiting, log := [], [];
      model := TM.Empty(lostOrderCountLimit);
    }

    method StartTrackingOrder(order: InFlightOrder)
      requires Valid() && order.clientId !in orders
      modifies this
      ensures Valid() && model == TM.StartTracking(old(model), order.View())
      ensures orders == old(orders)[order.clientId := order]
    {
      orders := orders[order.clientId := order];
      if order.clientId !in inFlight {
        inFlight := inFlight + [order.clientId];
      }
      model := TM.StartTracking(model, order.View());
    }

    method StopTrackingOrder(id: Id, victim: nat)
      requires Valid()
      modifies `model, `inFlight, `cached, `notFound
      ensures Valid() && model == TM.StopTracking(old(model), id, victim)
    {
      hide Mirrors, TM.CacheInsert, TM.Without;
      if id in inFlight {
        cached := TM.CacheInsert(cached, id, victim);
        inFlight := TM.Without(inFlight, {id});
        notFound := notFound - {id};
      }
      model := TM.StopTracking(model, id, victim);
    }

    /** The search by exchange id runs through the dictionary in order and stops at the first hit. */
    method FindByExchangeId(ids: seq<Id>, exchangeId: Option<string>) returns (r: Option<Id>)
      requires Valid() && forall id :: id in ids ==> id in orders
      ensures r == TM.FirstByExchangeId(model, ids, exchangeId)
    {
      var i := 0;
      while i < |ids|
        invariant 0 <= i <= |ids|
        invariant TM.FirstByExchangeId(model, ids, exchangeId)
               == TM.FirstByExchangeId(model, ids[i..], exchangeId)
      {
        if orders[ids[i]].exchangeId == exchangeId {
          return Some(ids[i]);
        }
        i := i + 1;
      }
      r := None;
    }

    method FetchFrom(ids: seq<Id>, clientId: Option<Id>, exchangeId: Option<string>) returns (r: Option<Id>)
      requires Valid() && forall id :: id in ids ==> id in orders
      ensures r == TM.Fetch(model, ids, clientId, exchangeId)
    {
      if clientId.Some? && clientId.value in ids {
        r := clientId;
      } else if exchangeId.Some? {
        r := FindByExchangeId(ids, exchangeId);
      } else {
        r := None;
      }
    }

    ghost predicate MirrorsAt(id: Id)
      reads this, orders.Values
    {
      id in orders && id in model.orders && orders[id].clientId == id && orders[id].View() == model.orders[id]
    }

    lemma MirrorsAll()
      requires forall id :: id in orders ==> MirrorsAt(id)
      ensures Mirrors(orders, model.orders)
    {
    }

    lemma EachMirrors()
      requires Valid()
      ensures forall id :: id in orders ==> MirrorsAt(id)
    {
    }

    method ApplyTradeUpdate(id: Id, t: TradeUpdate) returns (updated: bool)
      requires Valid() && id in orders
      modifies `model, orders[id]
      ensures Valid()
      ensures model == old(model).(orders := old(model).orders[id := WithTradeUpdate(old(model).orders[id], t)])
      ensures updated == TradeUpdateChanges(old(model).orders[id], t)
    {
      hide WithTradeUpdate, TradeUpdateChanges, TM.Resolves, Mirrors;
      EachMirrors();
      assert MirrorsAt(id);
      StillResolves(model, id, WithTradeUpdate(model.orders[id], t));
      updated := orders[id].UpdateWithTradeUpdate(t);
      model := model.(orders := model.orders[id := orders[id].View()]);
      forall x | x in orders ensures MirrorsAt(x) {
        assert old(MirrorsAt(x));
      }
      MirrorsAll();
    }

    method ApplyOrderUpdate(id: Id, u: OrderUpdate) returns (updated: bool)
      requires Valid() && id in orders
      modifies `model, orders[id]
      ensures Valid()
      ensures model == old(model).(orders := old(model).orders[id := WithOrderUpdate(old(model).orders[id], u)])
      ensures updated == OrderUpdateChanges(old(model).orders[id], u)
    {
      hide WithOrderUpdate, OrderUpdateChanges, TM.Resolves, Mirrors;
      EachMirrors();
      assert MirrorsAt(id);
      StillResolves(model, id, WithOrderUpdate(model.orders[id], u));
      updated := orders[id].UpdateWithOrderUpdate(u);
      model := model.(orders := model.orders[id := orders[id].View()]);
      forall x | x in orders ensures MirrorsAt(x) {
        assert old(MirrorsAt(x));
      }
      MirrorsAll();
    }

    method ProcessTradeUpdate(t: TradeUpdate)
      requires Valid()
      modifies `model, `log, orders.Values
      ensures Valid() && model == TM.ProcessTradeUpdate(old(model), t)
    {
      hide Mirrors, WithTradeUpdate, TradeUpdateChanges;
      if t.clientId in inFlight || t.clientId in cached || t.clientId in lost {
        var order := orders[t.clientId];
        KnowsOrder(t.clientId);
        var previous := order.executedBase;
        var updated := ApplyTradeUpdate(t.clientId, t);
        KnowsOrder(t.clientId);
        if updated && previous < order.executedBase {
          log := log + [TM.OrderFilled(t.clientId, t.tradeId, t.baseAmount)];
        }
        model := model.(log := log);
      }
    }

    method TriggerOrderCreation(order: InFlightOrder, previous: OrderState, next: OrderState)
      requires Valid() && order in orders.Values
      modifies `model, `log
      ensures Valid() && model == TM.AnnounceCreation(old(model), order.clientId, previous, next)
    {
      if previous == PendingCreate && previous != next && next !in {Canceled, Failed, PendingCancel} {
        log := log + [TM.OrderCreated(order.clientId, order.side)];
      }
      model := model.(log := log);
    }

    /** The event goes out while the order is still in its store; then the order is stopped. */
    method TriggerOrderCompletion(order: InFlightOrder, victim: nat)
      requires Valid() && order in orders.Values
      modifies `model, `log, `inFlight, `cached, `notFound
      ensures Valid()
      ensures model == if order.View().IsOpen() then old(model)
                        else TM.StopTracking(TM.AnnounceClosing(old(model), order.clientId), order.clientId, victim)
    {
      hide TM.StopTracking, IsClose, Order.IsOpen, Order.IsFilled, TM.Without;
      assert order.View() == model.orders[order.clientId];
      hide Mirrors;
      var o := order.View();
      if o.IsOpen() {
        return;
      }
      if o.state == Canceled {
        log := log + [TM.OrderCancelled(o.clientId)];
      } else if o.IsFilled() {
        log := log + [TM.OrderCompleted(o.clientId, o.side, o.executedBase, o.executedQuote)];
      } else if o.state == Failed {
        log := log + [TM.OrderFailure(o.clientId)];
      }
      model := model.(log := log);
      StopTrackingOrder(o.clientId, victim);
    }

    /** From the end of the wait on; nothing in here suspends. */
    method FinishOrderUpdate(id: Id, u: OrderUpdate, victim: nat)
      requires Valid() && id in orders
      modifies `model, `log, `inFlight, `cached, `notFound, orders[id]
      ensures Valid() && model == TM.FinishUpdate(old(model), id, u, victim)
    {
      hide Mirrors, WithOrderUpdate, OrderUpdateChanges, IsClose;
      hide TM.StopTracking, TM.AnnounceClosing, TM.Creates;
      var order := orders[id];
      KnowsOrder(id);
      var previous := order.state;
      TrackerInvariant.InsideEffect(model, id, u);
      var updated := ApplyOrderUpdate(id, u);
      if updated {
        TriggerOrderCreation(order, previous, u.newState);
        KnowsOrder(id);
        TriggerOrderCompletion(order, victim);
      }
    }

    method ProcessOrderUpdate(u: OrderUpdate, victim: nat)
      requires Valid()
      modifies `model, `log, `inFlight, `cached, `notFound, `lost, `waiting, orders.Values
      ensures Valid() && model == TM.ProcessOrderUpdate(old(model), u, victim)
    {
      hide TM.FinishUpdate, TM.Fetch, IsClose, Mirrors;
      if TM.Blank(u.clientId) && TM.Blank(u.exchangeId) {
        return;
      }
      var tracked := FetchFrom(inFlight + cached, u.clientId, u.exchangeId);
      match tracked
      case Some(id) =>
        KnowsOrder(id);
        if u.newState == Filled && !orders[id].View().IsDone() {
          waiting := waiting + [TM.Suspended(id, u)];
          model := model.(waiting := waiting);
        } else {
          FinishOrderUpdate(id, u, victim);
        }
      case None =>
        var lostOrder := FetchFrom(lost, u.clientId, u.exchangeId);
        if lostOrder.Some? && IsTerminal(u.newState) {
          lost := TM.Without(lost, {lostOrder.value});
          model := model.(lost := lost);
        }
    }

    method ResumeOrderUpdate(index: nat, victim: nat)
      requires Valid() && index < |waiting|
      modifies `model, `log, `inFlight, `cached, `notFound, `waiting, orders.Values
      ensures Valid() && model == TM.ResumeUpdate(old(model), index, victim)
    {
      var w := waiting[index];
      waiting := RemoveAt(waiting, index);
      model := model.(waiting := waiting);
      FinishOrderUpdate(w.target, w.update, victim);
    }

    /** The deletion from the cache raises when the failing update did not file the order there. */
    method MoveToLost(id: Id)
      requires Valid() && id in orders
      modifies `model, `log, `cached, `lost
      ensures Valid() && model == TM.FileAsLost(old(model), id)
    {
      hide Mirrors;
      if id in cached {
        cached := TM.Without(cached, {id});
        if id !in lost {
          lost := lost + [id];
        }
      } else {
        log := log + [TM.KeyErrorRaised(id)];
      }
      model := TM.FileAsLost(model, id);
    }

    method ProcessOrderNotFound(id: Id, now: real, victim: nat)
      requires Valid()
      modifies `model, `log, `inFlight, `cached, `notFound, `lost, `waiting, orders.Values
      ensures Valid() && model == TM.ProcessOrderNotFound(old(model), id, now, victim)
    {
      hide TM.ProcessOrderUpdate, TM.FileAsLost, Mirrors;
      if id in inFlight {
        KnowsOrder(id);
        var n := (if id in notFound then notFound[id] else 0) + 1;
        notFound := notFound[id := n];
        model := model.(notFound := notFound);
        if n > limit && !IsTerminal(orders[id].state) {
          ProcessOrderUpdate(OrderUpdate(Some(id), None, Failed, now), victim);
          MoveToLost(id);
        }
      } else if id in lost {
        ProcessOrderUpdate(OrderUpdate(Some(id), None, Failed, now), victim);
      }
    }

    method ExpireCached(gone: set<Id>)
      requires Valid()
      modifies `model, `cached
      ensures Valid() && model == old(model).(cached := TM.Without(old(cached), gone))
    {
      cached := TM.Without(cached, gone);
      model := model.(cached := cached);
    }

    method TrackingStates() returns (saved: seq<SavedOrder>)
      requires Valid()
      ensures saved == TM.TrackingStates(model)
    {
      saved := [];
      var ids, i := inFlight + lost, |inFlight + lost|;
      while i > 0
        invariant 0 <= i <= |ids|
        invariant saved == TM.SavedOrders(model, ids[i..])
      {
        i := i - 1;
        saved := [ToJson(orders[ids[i]].View())] + saved;
      }
    }

    method RestoreOrder(o: Order)
      requires Valid() && o.clientId !in orders
      modifies this
      ensures Valid() && model == TM.RestoreOrder(old(model), o)
      ensures forall id :: id in orders ==> id in old(orders) || id == o.clientId
      ensures fresh(orders.Values - old(orders.Values))
    {
      if o.IsOpen() {
        var order := new InFlightOrder(o);
        StartTrackingOrder(order);
      } else if o.state == Failed {
        var order := new InFlightOrder(o);
        orders := orders[o.clientId := order];
        if o.clientId !in lost {
          lost := lost + [o.clientId];
        }
        model := TM.RestoreOrder(model, o);
      }
    }

    /** Restoring stops, as the exception does, at the first order that cannot be read. */
    method RestoreTrackingStates(saved: seq<SavedOrder>) returns (raised: bool)
      requires Valid() && (forall i :: 0 <= i < |saved| ==> saved[i].clientId !in orders)
      requires forall i, j :: 0 <= i < j < |saved| ==> saved[i].clientId != saved[j].clientId
      modifies this
      ensures Valid() && model == TM.RestoreTrackingStates(old(model), saved)
      ensures raised <==> exists i :: 0 <= i < |saved| && FromJson(saved[i]).None?
    {
      hide TM.RestoreOrder;
      ghost var start := model;
      var i := 0;
      while i < |saved|
        invariant 0 <= i <= |saved| && Valid()
        invariant forall k :: i <= k < |saved| ==> saved[k].clientId !in orders
        invariant forall k :: 0 <= k < i ==> FromJson(saved[k]).Some?
        invariant TM.RestoreTrackingStates(start, saved) == TM.RestoreTrackingStates(model, saved[i..])
      {
        var read := FromJson(saved[i]);
        if read.None? {
          return true;
        }
        RestoreOrder(read.value);
        i := i + 1;
      }
      raised := false;
    }
  }
}
