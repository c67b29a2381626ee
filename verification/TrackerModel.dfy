/**
  The client order tracker as a state machine. Each function below is the part of a tracker call
  that runs without suspending; the environment chooses the interleaving, when a suspended update
  resumes, and which entries the bounded cache drops.
 */
module TrackerModel {
  import opened Options
  import opened Orders
  import opened Sequences
  import opened TradeTypes

  const MAX_CACHE_SIZE: nat := 1000

  datatype Event =
    | OrderCreated(id: Id, side: TradeType)
    | OrderFilled(id: Id, tradeId: string, amount: real)
    | OrderCancelled(id: Id)
    | OrderCompleted(id: Id, side: TradeType, base: real, quote: real)
    | OrderFailure(id: Id)
    | KeyErrorRaised(id: Id)  // the exception of a failed `del`, kept in the log to be ruled out

  /** A coroutine waiting for fills: the order it holds and the update it will apply. */
  datatype Suspended = Suspended(target: Id, update: OrderUpdate)

  /**
    The three stores list client ids in dictionary order; `orders` resolves an id to its order,
    also after it left every store, because a suspended update keeps its reference.
   */
  datatype State = State(
    limit: int, orders: map<Id, Order>, active: seq<Id>, cached: seq<Id>, lost: seq<Id>,
    notFound: map<Id, int>, waiting: seq<Suspended>, log: seq<Event>)

  datatype Step =
    | Start(order: Order)
    | Stop(id: Id, victim: nat)
    | Trade(trade: TradeUpdate)
    | Update(update: OrderUpdate, victim: nat)
    | Resume(index: nat, victim: nat)
    | NotFound(id: Id, now: real, victim: nat)
    | Expire(gone: set<Id>)

  function Empty(limit: int): State {
    State(limit, map[], [], [], [], map[], [], [])
  }

  predicate NoDup(xs: seq<Id>) {
    forall i, j :: 0 <= i < j < |xs| ==> xs[i] != xs[j]
  }

  /** `xs` without the ids in `gone`, order kept. */
  function Without(xs: seq<Id>, gone: set<Id>): (r: seq<Id>)
    ensures forall x :: x in r <==> x in xs && x !in gone
    ensures |r| <= |xs| && (r == xs <==> forall x :: x in xs ==> x !in gone)
    ensures NoDup(xs) ==> NoDup(r)
  {
    if xs == [] then []
    else if xs[0] in gone then Without(xs[1..], gone)
    else [xs[0]] + Without(xs[1..], gone)
  }

  /** Dictionary assignment: a known key keeps its place. */
  function Put(xs: seq<Id>, id: Id): (r: seq<Id>)
    ensures forall x :: x in r <==> x in xs || x == id
    ensures NoDup(xs) ==> NoDup(r)
  {
    if id in xs then xs else xs + [id]
  }

  /** Inserting into the bounded cache: at capacity some other entry goes. */
  function CacheInsert(cached: seq<Id>, id: Id, victim: nat): (r: seq<Id>)
    requires |cached| <= MAX_CACHE_SIZE
    ensures id in r && |r| <= MAX_CACHE_SIZE
    ensures forall x :: x in r ==> x in cached || x == id
    ensures |cached| < MAX_CACHE_SIZE ==> forall x :: x in cached ==> x in r
    ensures |cached| == MAX_CACHE_SIZE && id !in cached ==> |r| == MAX_CACHE_SIZE
    ensures NoDup(cached) ==> NoDup(r)
  {
    var rest := Without(cached, {id});
    if |rest| < MAX_CACHE_SIZE then rest + [id]
    else
      var dropped := victim % |rest|;
      assert NoDup(rest) ==> NoDup(RemoveAt(rest, dropped)) by {
        if NoDup(rest) { RemovalKeepsDistinct(rest, dropped); }
      }
      RemoveAt(rest, dropped) + [id]
  }

  lemma RemovalKeepsDistinct(xs: seq<Id>, k: nat)
    requires k < |xs| && NoDup(xs)
    ensures NoDup(RemoveAt(xs, k))
  {
  }

  /** The first listed order whose exchange id is `exchangeId`. */
  function FirstByExchangeId(s: State, ids: seq<Id>, exchangeId: Option<string>): (r: Option<Id>)
    requires forall id :: id in ids ==> id in s.orders
    ensures r.Some? ==> r.value in ids && s.orders[r.value].exchangeId == exchangeId
    ensures r.None? ==> forall id :: id in ids ==> s.orders[id].exchangeId != exchangeId
  {
    if ids == [] then None
    else if s.orders[ids[0]].exchangeId == exchangeId then Some(ids[0])
    else FirstByExchangeId(s, ids[1..], exchangeId)
  }

  function Fetch(s: State, ids: seq<Id>, clientId: Option<Id>, exchangeId: Option<string>): (r: Option<Id>)
    requires forall id :: id in ids ==> id in s.orders
    ensures r.Some? ==> r.value in ids
  {
    if clientId.Some? && clientId.value in ids then clientId
    else if exchangeId.Some? then FirstByExchangeId(s, ids, exchangeId)
    else None
  }

  /** Everything below runs on states whose ids resolve and whose cache is within its bound. */
  predicate Resolves(s: State) {
    && (forall id :: id in s.active ==> id in s.orders)
    && (forall id :: id in s.cached ==> id in s.orders)
    && (forall id :: id in s.lost ==> id in s.orders)
    && (forall k :: 0 <= k < |s.waiting| ==> s.waiting[k].target in s.orders)
    && |s.cached| <= MAX_CACHE_SIZE
  }

  function StartTracking(s: State, o: Order): State {
    s.(orders := s.orders[o.clientId := o], active := Put(s.active, o.clientId))
  }

  function StopTracking(s: State, id: Id, victim: nat): State
    requires Resolves(s)
  {
    if id !in s.active then s
    else s.(cached := CacheInsert(s.cached, id, victim),
            active := Without(s.active, {id}),
            notFound := s.notFound - {id})
  }

  function Emit(s: State, e: Event): State {
    s.(log := s.log + [e])
  }

  function ProcessTradeUpdate(s: State, t: TradeUpdate): State
    requires Resolves(s)
  {
    if t.clientId !in s.active && t.clientId !in s.cached && t.clientId !in s.lost then s
    else
      var o := s.orders[t.clientId];
      var o1 := WithTradeUpdate(o, t);
      var s1 := s.(orders := s.orders[t.clientId := o1]);
      if TradeUpdateChanges(o, t) && o.executedBase < o1.executedBase
      then Emit(s1, OrderFilled(t.clientId, t.tradeId, t.baseAmount))
      else s1
  }

  predicate Creates(previous: OrderState, next: OrderState) {
    previous == PendingCreate && previous != next && next !in {Canceled, Failed, PendingCancel}
  }

  function AnnounceCreation(s: State, id: Id, previous: OrderState, next: OrderState): State
    requires id in s.orders
  {
    if Creates(previous, next) then Emit(s, OrderCreated(id, s.orders[id].side)) else s
  }

  /** The event a closed order gets; a closed state may also get none. */
  function ClosingEvent(o: Order): Option<Event> {
    if o.state == Canceled then Some(OrderCancelled(o.clientId))
    else if o.IsFilled() then Some(OrderCompleted(o.clientId, o.side, o.executedBase, o.executedQuote))
    else if o.state == Failed then Some(OrderFailure(o.clientId))
    else None
  }

  function AnnounceClosing(s: State, id: Id): State
    requires id in s.orders
  {
    match ClosingEvent(s.orders[id])
    case Some(e) => Emit(s, e)
    case None => s
  }

  /** The order has its new state and its events are out, but it is still in its store. */
  function InsideEvent(s: State, id: Id, u: OrderUpdate): State
    requires id in s.orders
  {
    var o := s.orders[id];
    var s1 := s.(orders := s.orders[id := WithOrderUpdate(o, u)]);
    if !OrderUpdateChanges(o, u) then s1
    else
      var s2 := AnnounceCreation(s1, id, o.state, u.newState);
      if s2.orders[id].IsOpen() then s2 else AnnounceClosing(s2, id)
  }

  /** The part of `_process_order_update` after the wait. */
  function FinishUpdate(s: State, id: Id, u: OrderUpdate, victim: nat): State
    requires Resolves(s) && id in s.orders
  {
    var s1 := InsideEvent(s, id, u);
    if !OrderUpdateChanges(s.orders[id], u) || s1.orders[id].IsOpen() then s1
    else StopTracking(s1, s1.orders[id].clientId, victim)
  }

  predicate Blank(x: Option<string>) {
    x.None? || x.value == ""
  }

  function ProcessOrderUpdate(s: State, u: OrderUpdate, victim: nat): State
    requires Resolves(s)
  {
    if Blank(u.clientId) && Blank(u.exchangeId) then s
    else
      match Fetch(s, s.active + s.cached, u.clientId, u.exchangeId)
      case Some(id) =>
        if u.newState == Filled && !s.orders[id].IsDone()
        then s.(waiting := s.waiting + [Suspended(id, u)])
        else FinishUpdate(s, id, u, victim)
      case None =>
        match Fetch(s, s.lost, u.clientId, u.exchangeId)
        case Some(id) => if IsTerminal(u.newState) then s.(lost := Without(s.lost, {id})) else s
        case None => s
  }

  /** The wait ended, by a fill or by its timeout. */
  function ResumeUpdate(s: State, index: nat, victim: nat): State
    requires Resolves(s)
  {
    if index >= |s.waiting| then s
    else
      var w := s.waiting[index];
      FinishUpdate(s.(waiting := RemoveAt(s.waiting, index)), w.target, w.update, victim)
  }

  function FailedUpdate(id: Id, now: real): OrderUpdate {
    OrderUpdate(Some(id), None, Failed, now)
  }

  function Reports(s: State, id: Id): int {
    if id in s.notFound then s.notFound[id] else 0
  }

  function ProcessOrderNotFound(s: State, id: Id, now: real, victim: nat): State
    requires Resolves(s)
  {
    if id in s.active then
      var n := Reports(s, id) + 1;
      var s1 := s.(notFound := s.notFound[id := n]);
      if n > s.limit && !IsTerminal(s.orders[id].state) then
        FileAsLost(ProcessOrderUpdate(s1, FailedUpdate(id, now), victim), id)
      else s1
    else if id in s.lost then ProcessOrderUpdate(s, FailedUpdate(id, now), victim)
    else s
  }

  /** Filing an order as lost deletes its id from the cache, which raises when it is not there. */
  function FileAsLost(s: State, id: Id): State {
    if id in s.cached then s.(cached := Without(s.cached, {id}), lost := Put(s.lost, id))
    else Emit(s, KeyErrorRaised(id))
  }

  function Next(s: State, step: Step): State
    requires Resolves(s)
  {
    match step
    case Start(o) => StartTracking(s, o)
    case Stop(id, victim) => StopTracking(s, id, victim)
    case Trade(t) => ProcessTradeUpdate(s, t)
    case Update(u, victim) => ProcessOrderUpdate(s, u, victim)
    case Resume(k, victim) => ResumeUpdate(s, k, victim)
    case NotFound(id, now, victim) => ProcessOrderNotFound(s, id, now, victim)
    case Expire(gone) => s.(cached := Without(s.cached, gone))
  }

  /** Saved states: the active orders, then the lost ones, by client id. */
  function TrackingStates(s: State): seq<SavedOrder>
    requires Resolves(s)
  {
    SavedOrders(s, s.active + s.lost)
  }

  function SavedOrders(s: State, ids: seq<Id>): seq<SavedOrder>
    requires forall id :: id in ids ==> id in s.orders
  {
    if ids == [] then [] else [ToJson(s.orders[ids[0]])] + SavedOrders(s, ids[1..])
  }

  /** An order that cannot be read raises, and the rest is not restored. */
  function RestoreTrackingStates(s: State, saved: seq<SavedOrder>): State
    decreases |saved|
  {
    if saved == [] then s
    else
      match FromJson(saved[0])
      case None => s
      case Some(o) => RestoreTrackingStates(RestoreOrder(s, o), saved[1..])
  }

  function RestoreOrder(s: State, o: Order): State {
    if o.IsOpen() then StartTracking(s, o)
    else if o.state == Failed then
      s.(orders := s.orders[o.clientId := o], lost := Put(s.lost, o.clientId))
    else s
  }
}
