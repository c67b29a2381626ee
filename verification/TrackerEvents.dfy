/** Whole-run accounting of the events: fills, creations and completions. */
module TrackerEvents {
  import opened Options
  import opened Orders
  import opened Sequences
  import opened TrackerModel
  import opened TrackerInvariant
  import opened TrackerRuns

  /** An update together with the order it is applied to. */
  datatype Applied = Applied(id: Id, update: OrderUpdate)

  /** The order update a step applies, if any; a suspended update is applied when it resumes. */
  function AppliedBy(s: State, step: Step): Option<Applied>
    requires Resolves(s)
  {
    match step
    case Update(u, _) =>
      if Blank(u.clientId) && Blank(u.exchangeId) then None
      else
        var found := Fetch(s, s.active + s.cached, u.clientId, u.exchangeId);
        if found.None? || (u.newState == Filled && !s.orders[found.value].IsDone()) then None
        else Some(Applied(found.value, u))
    case Resume(k, _) =>
      if k < |s.waiting| then Some(Applied(s.waiting[k].target, s.waiting[k].update)) else None
    case NotFound(id, now, _) =>
      if id in s.active && Reports(s, id) + 1 > s.limit then Some(Applied(id, FailedUpdate(id, now))) else None
    case _ => None
  }

  function EventsOf(s: State, step: Step): seq<Event>
    requires Inv(s)
  {
    match step
    case Trade(t) =>
      if t.clientId in s.active + s.cached + s.lost && TradeUpdateChanges(s.orders[t.clientId], t)
         && t.baseAmount > 0.0
      then [OrderFilled(t.clientId, t.tradeId, t.baseAmount)] else []
    case _ =>
      match AppliedBy(s, step)
      case Some(a) => if a.id in s.orders then Announced(s.orders[a.id], a.update) else []
      case None => []
  }

  function OrdersAfter(s: State, step: Step): map<Id, Order>
    requires Inv(s)
  {
    match step
    case Start(o) => s.orders[o.clientId := o]
    case Trade(t) =>
      if t.clientId in s.active + s.cached + s.lost
      then s.orders[t.clientId := WithTradeUpdate(s.orders[t.clientId], t)] else s.orders
    case _ =>
      match AppliedBy(s, step)
      case Some(a) =>
        if a.id in s.orders then s.orders[a.id := WithOrderUpdate(s.orders[a.id], a.update)] else s.orders
      case None => s.orders
  }

  lemma FinishEvents(s: State, id: Id, u: OrderUpdate, victim: nat)
    requires Resolves(s) && id in s.orders && s.orders[id].clientId == id
    ensures var s' := FinishUpdate(s, id, u, victim);
            && s'.orders == s.orders[id := WithOrderUpdate(s.orders[id], u)]
            && s'.log == s.log + Announced(s.orders[id], u)
            && s'.limit == s.limit
  {
    AnnouncedLog(s, id, u);
    InsideEffect(s, id, u);
  }

  lemma UpdateEvents(s: State, u: OrderUpdate, victim: nat)
    requires Inv(s)
    ensures var s' := Next(s, Update(u, victim));
            && s'.orders == OrdersAfter(s, Update(u, victim))
            && s'.log == s.log + EventsOf(s, Update(u, victim))
    ensures var a := AppliedBy(s, Update(u, victim));
            a.Some? ==> a.value.id in s.orders && Addressed(u, s.orders[a.value.id])
  {
    hide FinishUpdate, Announced;
    FetchAddresses(s, s.active + s.cached, u);
    match Fetch(s, s.active + s.cached, u.clientId, u.exchangeId)
    case Some(id) => FinishEvents(s, id, u, victim);
    case None =>
  }

  lemma ResumeEvents(s: State, k: nat, victim: nat)
    requires Inv(s)
    ensures var s' := Next(s, Resume(k, victim));
            && s'.orders == OrdersAfter(s, Resume(k, victim))
            && s'.log == s.log + EventsOf(s, Resume(k, victim))
  {
    hide FinishUpdate, Announced;
    if k < |s.waiting| {
      var w := s.waiting[k];
      assert WaitApplies(s, w);
      FinishEvents(s.(waiting := RemoveAt(s.waiting, k)), w.target, w.update, victim);
    }
  }

  lemma NotFoundEvents(s: State, id: Id, now: real, victim: nat)
    requires Inv(s)
    ensures var s' := Next(s, NotFound(id, now, victim));
            && s'.orders == OrdersAfter(s, NotFound(id, now, victim))
            && s'.log == s.log + EventsOf(s, NotFound(id, now, victim))
  {
    hide FinishUpdate, Announced;
    if id in s.active {
      if Reports(s, id) + 1 > s.limit {
        DeletionMissesOnlyEmptyId(s, id, now, victim);
        LostEffect(s, id, now, victim);
        hide ProcessOrderNotFound;
      } else {
        hide ProcessOrderUpdate, FileAsLost;
      }
    } else if id in s.lost {
      hide ProcessOrderNotFound;
      LostReportIsSilent(s, id, now, victim);
    }
  }

  lemma LostReportIsSilent(s: State, id: Id, now: real, victim: nat)
    requires Inv(s) && id in s.lost
    ensures ProcessOrderNotFound(s, id, now, victim) == s.(lost := Without(s.lost, {id}))
  {
    var u := FailedUpdate(id, now);
    assert Fetch(s, s.active + s.cached, u.clientId, u.exchangeId) == None;
    assert Fetch(s, s.lost, u.clientId, u.exchangeId) == Some(id);
    hide FinishUpdate, FileAsLost;
  }

  /** Every step changes the orders and the event log exactly by the update it applies. */
  lemma StepEvents(s: State, step: Step)
    requires Inv(s) && Admissible(s, step)
    ensures Next(s, step).orders == OrdersAfter(s, step)
    ensures Next(s, step).log == s.log + EventsOf(s, step)
    ensures var a := AppliedBy(s, step);
            a.Some? ==> a.value.id in s.orders && Addressed(a.value.update, s.orders[a.value.id])
  {
    match step
    case Update(u, victim) => UpdateEvents(s, u, victim); hide Next, OrdersAfter, EventsOf, AppliedBy;
    case Resume(k, victim) =>
      ResumeEvents(s, k, victim);
      hide Next, OrdersAfter, EventsOf;
      if k < |s.waiting| { assert WaitApplies(s, s.waiting[k]); }
    case NotFound(id, now, victim) =>
      NotFoundEvents(s, id, now, victim); hide Next, OrdersAfter, EventsOf;
    case Trade(t) => hide Announced;
    case _ =>
  }

  /** No step raises the key error of filing an order as lost: client ids are never empty here. */
  lemma {:induction false} NoKeyError(s: State, steps: seq<Step>, id: Id)
    requires Inv(s) && AdmissibleRun(s, steps) && KeyErrorRaised(id) !in s.log
    ensures KeyErrorRaised(id) !in Run(s, steps).log
    decreases |steps|
  {
    hide Next;
    if steps == [] {
    } else {
      StepKeeps(s, steps[0]);
      StepEvents(s, steps[0]);
      NoKeyError(Next(s, steps[0]), steps[1..], id);
    }
  }

  // Fills

  /** The sum of the amounts in the filled events of an order. */
  function FilledTotal(log: seq<Event>, id: Id): real {
    if log == [] then 0.0
    else FilledTotal(log[..|log| - 1], id) + AmountFilled(log[|log| - 1], id)
  }

  predicate FillOf(e: Event, id: Id) {
    e.OrderFilled? && e.id == id
  }

  function AmountFilled(e: Event, id: Id): real {
    if FillOf(e, id) then e.amount else 0.0
  }

  function SumBase(fills: seq<TradeUpdate>): real {
    if fills == [] then 0.0 else SumBase(fills[..|fills| - 1]) + fills[|fills| - 1].baseAmount
  }

  function SumQuote(fills: seq<TradeUpdate>): real {
    if fills == [] then 0.0 else SumQuote(fills[..|fills| - 1]) + fills[|fills| - 1].quoteAmount
  }

  predicate SumsItsFills(o: Order) {
    o.executedBase == SumBase(o.fills) && o.executedQuote == SumQuote(o.fills)
  }

  /** The part of the recorded fills that is announced: an amount is announced when it is positive. */
  function SumPositive(fills: seq<TradeUpdate>): real {
    if fills == [] then 0.0
    else SumPositive(fills[..|fills| - 1])
         + (if fills[|fills| - 1].baseAmount > 0.0 then fills[|fills| - 1].baseAmount else 0.0)
  }

  predicate NoNegativeFill(fills: seq<TradeUpdate>) {
    forall i :: 0 <= i < |fills| ==> fills[i].baseAmount >= 0.0
  }

  lemma {:induction false} NegativeFillsShow(fills: seq<TradeUpdate>)
    ensures SumBase(fills) <= SumPositive(fills)
    ensures SumBase(fills) == SumPositive(fills) <==> NoNegativeFill(fills)
  {
    if fills == [] {
    } else {
      var front, last := fills[..|fills| - 1], fills[|fills| - 1];
      NegativeFillsShow(front);
      assert fills == front + [last];
      assert NoNegativeFill(fills) <==> NoNegativeFill(front) && last.baseAmount >= 0.0;
    }
  }

  lemma {:induction false} FilledTotalAppend(log: seq<Event>, more: seq<Event>, id: Id)
    requires |more| <= 2
    ensures FilledTotal(log + more, id)
         == FilledTotal(log, id)
            + (if |more| > 0 then AmountFilled(more[0], id) else 0.0)
            + (if |more| > 1 then AmountFilled(more[1], id) else 0.0)
  {
    if |more| > 0 {
      var front := more[..|more| - 1];
      assert (log + more)[..|log + more| - 1] == log + front;
      FilledTotalAppend(log, front, id);
    } else {
      assert log + more == log;
    }
  }

  /**
    The books of an order whose fills in `base` were announced before the log began: executed amounts
    against its fills, filled events against the positive new ones, every filled event backed by a
    new fill, and no trade id announced twice.
   */
  ghost predicate Accounted(s: State, id: Id, base: seq<TradeUpdate>)
    requires id in s.orders
  {
    && base <= s.orders[id].fills
    && SumsItsFills(s.orders[id])
    && FilledTotal(s.log, id) == SumPositive(s.orders[id].fills) - SumPositive(base)
    && EventsBacked(s.log, id, base, s.orders[id].fills)
    && TradeIdsOnce(s.log, id)
  }

  predicate EventsBacked(log: seq<Event>, id: Id, base: seq<TradeUpdate>, fills: seq<TradeUpdate>) {
    forall e :: e in log && FillOf(e, id) ==> HasFill(fills, e.tradeId) && !HasFill(base, e.tradeId)
  }

  predicate TradeIdsOnce(log: seq<Event>, id: Id) {
    forall i, j :: 0 <= i < j < |log| && FillOf(log[i], id) && FillOf(log[j], id) ==>
      log[i].tradeId != log[j].tradeId
  }

  predicate Untouched(log: seq<Event>, id: Id) {
    forall e :: e in log ==> !FillOf(e, id)
  }

  /** The books of an id, also before its order exists. */
  ghost predicate Books(s: State, id: Id, base: seq<TradeUpdate>) {
    if id in s.orders then Accounted(s, id, base) else base == [] && Untouched(s.log, id)
  }

  /** An order is tracked from its creation: nothing executed yet. */
  predicate Clean(step: Step) {
    step.Start? ==> step.order.executedBase == step.order.executedQuote == 0.0 && step.order.fills == []
  }

  lemma EventsAreNotFills(s: State, step: Step, id: Id)
    requires Inv(s) && (!step.Trade? || step.trade.clientId != id)
    ensures |EventsOf(s, step)| <= 2 && Untouched(EventsOf(s, step), id)
  {
    hide AppliedBy, OrderUpdateChanges, WithOrderUpdate, Creates;
  }

  lemma FillsKept(s: State, step: Step, id: Id)
    requires Inv(s) && Admissible(s, step) && id in s.orders
    requires !step.Trade? || step.trade.clientId != id
    ensures id in OrdersAfter(s, step)
    ensures OrdersAfter(s, step)[id].fills == s.orders[id].fills
    ensures OrdersAfter(s, step)[id].executedBase == s.orders[id].executedBase
    ensures OrdersAfter(s, step)[id].executedQuote == s.orders[id].executedQuote
  {
    hide AppliedBy, OrderUpdateChanges;
  }

  lemma {:induction false} UntouchedTotal(log: seq<Event>, id: Id)
    requires Untouched(log, id)
    ensures FilledTotal(log, id) == 0.0
  {
    if log == [] {
    } else {
      UntouchedTotal(log[..|log| - 1], id);
    }
  }

  lemma QuietStepAccounts(s: State, step: Step, id: Id, base: seq<TradeUpdate>)
    requires Inv(s) && Admissible(s, step) && Clean(step) && Books(s, id, base)
    requires !step.Trade? || step.trade.clientId != id
    ensures Books(s.(orders := OrdersAfter(s, step), log := s.log + EventsOf(s, step)), id, base)
  {
    hide Inv, Admissible, EventsOf, OrdersAfter, AppliedBy, OrderUpdateChanges, SumBase, SumQuote, SumPositive;
    EventsAreNotFills(s, step, id);
    if id in s.orders {
      FillsKept(s, step, id);
      QuietBooks(s, EventsOf(s, step), OrdersAfter(s, step), id, base);
    } else {
      NoFills();
      UntouchedTotal(s.log + EventsOf(s, step), id);
      StepMakesNoOrder(s, step, id);
    }
  }

  lemma QuietBooks(s: State, events: seq<Event>, orders: map<Id, Order>, id: Id, base: seq<TradeUpdate>)
    requires id in s.orders && Accounted(s, id, base) && |events| <= 2 && Untouched(events, id)
    requires id in orders && orders[id].fills == s.orders[id].fills
    requires orders[id].executedBase == s.orders[id].executedBase
    requires orders[id].executedQuote == s.orders[id].executedQuote
    ensures Accounted(s.(orders := orders, log := s.log + events), id, base)
  {
    hide SumBase, SumQuote, SumPositive, HasFill;
    FilledTotalAppend(s.log, events, id);
  }

  lemma NoFills()
    ensures SumBase([]) == SumQuote([]) == SumPositive([]) == 0.0
  {
  }

  lemma StepMakesNoOrder(s: State, step: Step, id: Id)
    requires Inv(s) && Admissible(s, step) && Clean(step) && id !in s.orders
    ensures id in OrdersAfter(s, step) ==>
              && OrdersAfter(s, step)[id].fills == []
              && OrdersAfter(s, step)[id].executedBase == OrdersAfter(s, step)[id].executedQuote == 0.0
  {
    hide AppliedBy;
  }

  lemma TradeStepAccounts(s: State, t: TradeUpdate, base: seq<TradeUpdate>)
    requires Inv(s) && Books(s, t.clientId, base)
    ensures var step := Trade(t);
            Books(s.(orders := OrdersAfter(s, step), log := s.log + EventsOf(s, step)), t.clientId, base)
  {
    var id, step := t.clientId, Trade(t);
    FilledTotalAppend(s.log, EventsOf(s, step), id);
    if id in s.orders && OrdersAfter(s, step)[id] != s.orders[id] {
      var o, o' := s.orders[id], OrdersAfter(s, step)[id];
      assert o'.fills == o.fills + [t] && o'.fills[..|o.fills|] == o.fills;
      NewFill(base, o.fills, t);
    }
  }

  /**
    A trade with a new id of a tracked order, in any store, is recorded and, if positive, announced;
    any other trade changes nothing.
   */
  lemma TradeRecorded(s: State, t: TradeUpdate)
    requires Inv(s)
    ensures var id, s' := t.clientId, ProcessTradeUpdate(s, t);
            if PlaceOf(s, id) in {Active, Cached, Lost}
               && (forall f :: f in s.orders[id].fills ==> f.tradeId != t.tradeId)
            then
              && s'.log == s.log + (if t.baseAmount > 0.0 then [OrderFilled(id, t.tradeId, t.baseAmount)] else [])
              && var o := s.orders[id];
                 s' == s.(log := s'.log, orders := s.orders[id :=
                   o.(fills := o.fills + [t], executedBase := o.executedBase + t.baseAmount,
                      executedQuote := o.executedQuote + t.quoteAmount, lastUpdate := t.timestamp)])
            else s' == s
  {
    var id := t.clientId;
    if id in s.orders {
      var fills := s.orders[id].fills;
      if HasFill(fills, t.tradeId) {
        KeepsOrders(s, t);
      } else {
        forall f | f in fills ensures f.tradeId != t.tradeId {
          var i :| 0 <= i < |fills| && fills[i] == f;
        }
      }
    }
  }

  lemma KeepsOrders(s: State, t: TradeUpdate)
    requires Inv(s) && t.clientId in s.orders && HasFill(s.orders[t.clientId].fills, t.tradeId)
    ensures ProcessTradeUpdate(s, t) == s
  {
    assert s.orders[t.clientId := s.orders[t.clientId]] == s.orders;
  }

  lemma NewFill(base: seq<TradeUpdate>, fills: seq<TradeUpdate>, t: TradeUpdate)
    requires base <= fills
    ensures HasFill(fills + [t], t.tradeId)
    ensures forall x :: HasFill(fills, x) ==> HasFill(fills + [t], x)
    ensures forall x :: HasFill(base, x) ==> HasFill(fills, x)
  {
    assert (fills + [t])[|fills|] == t;
    forall x | HasFill(fills, x) ensures HasFill(fills + [t], x) {
      var i :| 0 <= i < |fills| && fills[i].tradeId == x;
      assert (fills + [t])[i] == fills[i];
    }
    forall x | HasFill(base, x) ensures HasFill(fills, x) {
      var i :| 0 <= i < |base| && base[i].tradeId == x;
      assert fills[i] == base[i];
    }
  }

  lemma BooksUpToStores(s: State, t: State, id: Id, base: seq<TradeUpdate>)
    requires s.orders == t.orders && s.log == t.log
    ensures Books(s, id, base) == Books(t, id, base)
  {
  }

  /** The books stay in order over every run, wherever the order moves. */
  lemma {:induction false} BooksOverRun(s: State, steps: seq<Step>, id: Id, base: seq<TradeUpdate>)
    requires Inv(s) && AdmissibleRun(s, steps) && (forall step :: step in steps ==> Clean(step))
    requires Books(s, id, base)
    ensures Books(Run(s, steps), id, base)
    decreases |steps|
  {
    hide Next, Books;
    if steps == [] {
    } else {
      var step := steps[0];
      var s1 := Next(s, step);
      StepKeeps(s, step);
      StepEvents(s, step);
      if step.Trade? && step.trade.clientId == id {
        TradeStepAccounts(s, step.trade, base);
      } else {
        QuietStepAccounts(s, step, id, base);
      }
      BooksUpToStores(s1, s.(orders := s1.orders, log := s1.log), id, base);
      BooksOverRun(s1, steps[1..], id, base);
    }
  }

  /**
    Conservation over any run of a new tracker whose orders are tracked from their creation: the
    filled events of an order never repeat a trade id, and their amounts add up to its executed
    amount exactly when none of its recorded fills is negative.
   */
  lemma FillConservation(limit: int, steps: seq<Step>, id: Id)
    requires AdmissibleRun(Empty(limit), steps) && (forall step :: step in steps ==> Clean(step))
    requires id in Run(Empty(limit), steps).orders
    ensures var s := Run(Empty(limit), steps);
            && Accounted(s, id, [])
            && TradeIdsOnce(s.log, id)
            && EventsBacked(s.log, id, [], s.orders[id].fills)
            && (FilledTotal(s.log, id) == s.orders[id].executedBase <==> NoNegativeFill(s.orders[id].fills))
  {
    hide Next;
    EmptyInv(limit);
    BooksOverRun(Empty(limit), steps, id, []);
    NegativeFillsShow(Run(Empty(limit), steps).orders[id].fills);
  }
}
