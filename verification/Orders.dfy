/**
  The in-flight order: its state, the two updates that change it, and its JSON form.
  Amounts and prices are exact rationals; identifiers are strings.
 */
module Orders {
  import opened Decimals
  import opened Options
  import opened TradeTypes

  type Id = string

  datatype OrderState =
    | PendingCreate | Open | PendingCancel | Canceled | PartiallyFilled | Filled | Failed
    | PendingApproval | Approved | Created | Completed

  /** A price may be absent, and a market order usually carries the decimal NaN. */
  datatype Price = NoPrice | NaN | Number(value: real)

  datatype OrderUpdate = OrderUpdate(
    clientId: Option<Id>, exchangeId: Option<string>, newState: OrderState, timestamp: real)

  datatype FeeKind = AddedToCost | DeductedFromReturns

  datatype TradeFee = TradeFee(
    kind: FeeKind, percent: real, percentToken: Option<string>, flatFees: seq<(string, real)>)

  datatype TradeUpdate = TradeUpdate(
    tradeId: string, clientId: Id, exchangeId: string, timestamp: real,
    price: real, baseAmount: real, quoteAmount: real, fee: TradeFee, isTaker: bool)

  /** The data of an order that no update changes. */
  datatype Terms = Terms(pair: string, orderType: string, leverage: int, position: string, created: real)

  datatype Order = Order(
    clientId: Id, exchangeId: Option<string>, terms: Terms, side: TradeType, amount: real, price: Price,
    state: OrderState, executedBase: real, executedQuote: real,
    fills: seq<TradeUpdate>, lastUpdate: real)
  {
    predicate IsOpen() {
      state in {PendingCreate, Open, PartiallyFilled, PendingCancel}
    }

    predicate FullyExecuted() {
      IsClose(executedBase, amount) || executedBase >= amount
    }

    predicate IsDone() {
      IsTerminal(state) || FullyExecuted()
    }

    predicate IsFilled() {
      state == Filled || (amount != 0.0 && FullyExecuted())
    }
  }

  predicate IsTerminal(state: OrderState) {
    state in {Canceled, Filled, Failed}
  }

  /** `math.isclose` with its default relative tolerance of 1e-9. */
  predicate IsClose(a: real, b: real) {
    Abs(a - b) <= 0.000000001 * (if Abs(a) < Abs(b) then Abs(b) else Abs(a))
  }

  /** An update concerns an order when either identifier agrees. */
  predicate Concerns(u: OrderUpdate, o: Order) {
    u.clientId == Some(o.clientId) || u.exchangeId == o.exchangeId
  }

  function WithOrderUpdate(o: Order, u: OrderUpdate): Order {
    if !Concerns(u, o) then o
    else
      var o1 := o.(exchangeId := if o.exchangeId.None? then u.exchangeId else o.exchangeId,
                   state := u.newState);
      if OrderUpdateChanges(o, u) then o1.(lastUpdate := u.timestamp) else o1
  }

  /** The flag `update_with_order_update` returns: state or exchange id is new. */
  predicate OrderUpdateChanges(o: Order, u: OrderUpdate) {
    Concerns(u, o) && (u.newState != o.state || (o.exchangeId.None? && u.exchangeId.Some?))
  }

  predicate HasFill(fills: seq<TradeUpdate>, tradeId: string) {
    exists i :: 0 <= i < |fills| && fills[i].tradeId == tradeId
  }

  predicate TradeUpdateChanges(o: Order, t: TradeUpdate) {
    !HasFill(o.fills, t.tradeId) && (o.clientId == t.clientId || o.exchangeId == Some(t.exchangeId))
  }

  function WithTradeUpdate(o: Order, t: TradeUpdate): Order {
    if !TradeUpdateChanges(o, t) then o
    else o.(fills := o.fills + [t],
            executedBase := o.executedBase + t.baseAmount,
            executedQuote := o.executedQuote + t.quoteAmount,
            lastUpdate := t.timestamp)
  }

  /** Either identifier is enough, for an update and for a trade; a trade counts once. */
  lemma TakenByEitherId(o: Order, u: OrderUpdate, t: TradeUpdate)
    ensures var named := u.clientId == Some(o.clientId) || u.exchangeId == o.exchangeId;
            if named then WithOrderUpdate(o, u).state == u.newState else WithOrderUpdate(o, u) == o
    ensures var named := t.clientId == o.clientId || Some(t.exchangeId) == o.exchangeId;
            var known := exists i :: 0 <= i < |o.fills| && o.fills[i].tradeId == t.tradeId;
            if named && !known then WithTradeUpdate(o, t).fills == o.fills + [t] else WithTradeUpdate(o, t) == o
  {
  }

  /** `str(price)` turns a missing price into a text that is no decimal. */
  datatype PriceText = NotADecimal | NaNText | Decimal(value: real)

  /** The JSON form of a fill; it has every field, but reading it back ignores `isTaker`. */
  datatype SavedOrder = SavedOrder(
    clientId: Id, exchangeId: Option<string>, terms: Terms, side: TradeType, amount: real, price: PriceText,
    state: OrderState, executedBase: real, executedQuote: real,
    fills: seq<TradeUpdate>, lastUpdate: real)

  function ToJson(o: Order): SavedOrder {
    var price := match o.price
      case NoPrice => NotADecimal
      case NaN => NaNText
      case Number(v) => Decimal(v);
    SavedOrder(o.clientId, o.exchangeId, o.terms, o.side, o.amount, price, o.state,
               o.executedBase, o.executedQuote, o.fills, o.lastUpdate)
  }

  /** `TradeUpdate.from_json` leaves `is_taker` at its default, true. */
  function FillsFromJson(fills: seq<TradeUpdate>): (r: seq<TradeUpdate>)
    ensures |r| == |fills|
    ensures forall i :: 0 <= i < |r| ==> r[i] == fills[i].(isTaker := true)
  {
    seq(|fills|, i requires 0 <= i < |fills| => fills[i].(isTaker := true))
  }

  /** `None` stands for the decimal conversion error. */
  function FromJson(j: SavedOrder): Option<Order> {
    match j.price
    case NotADecimal => None
    case NaNText => Some(Rebuilt(j, NaN))
    case Decimal(v) => Some(Rebuilt(j, Number(v)))
  }

  function Rebuilt(j: SavedOrder, price: Price): Order {
    Order(j.clientId, j.exchangeId, j.terms, j.side, j.amount, price, j.state,
          j.executedBase, j.executedQuote, FillsFromJson(j.fills), j.lastUpdate)
  }

  predicate AllTaker(fills: seq<TradeUpdate>) {
    forall i :: 0 <= i < |fills| ==> fills[i].isTaker
  }

  /** Exactly the orders that survive a save and a restore unchanged. */
  predicate Restorable(o: Order) {
    o.price != NoPrice && AllTaker(o.fills)
  }

  lemma JsonRoundTrip(o: Order)
    ensures FromJson(ToJson(o)) == Some(o) <==> Restorable(o)
    ensures FromJson(ToJson(o)) == None <==> o.price == NoPrice
    ensures FromJson(ToJson(o)).Some? ==>
              FromJson(ToJson(o)).value == o.(fills := FillsFromJson(o.fills))
  {
    if AllTaker(o.fills) {
      assert FillsFromJson(o.fills) == o.fills;
    } else {
      var i :| 0 <= i < |o.fills| && !o.fills[i].isTaker;
      assert FillsFromJson(o.fills)[i] != o.fills[i];
    }
  }

  /** The order object the connector mutates; `View` is its value. */
  class InFlightOrder {
    const clientId: Id
    const terms: Terms
    const side: TradeType
    const amount: real
    const price: Price
    var exchangeId: Option<string>
    var state: OrderState
    var executedBase: real
    var executedQuote: real
    var fills: seq<TradeUpdate>
    var lastUpdate: real

    function View(): Order
      reads this
    {
      Order(
        clientId, exchangeId, terms, side, amount, price, state, executedBase, executedQuote, fills, lastUpdate)
    }

    constructor (o: Order)
      ensures View() == o
    {
      clientId, terms, side, amount, price := o.clientId, o.terms, o.side, o.amount, o.price;
      exchangeId, state := o.exchangeId, o.state;
      executedBase, executedQuote := o.executedBase, o.executedQuote;
      fills, lastUpdate := o.fills, o.lastUpdate;
    }

    method UpdateWithOrderUpdate(u: OrderUpdate) returns (updated: bool)
      modifies this
      ensures View() == WithOrderUpdate(old(View()), u)
      ensures updated == OrderUpdateChanges(old(View()), u)
    {
      if u.clientId != Some(clientId) && u.exchangeId != exchangeId {
        return false;
      }
      var prevExchangeId, prevState := exchangeId, state;
      if exchangeId.None? && u.exchangeId.Some? {
        exchangeId := u.exchangeId;
      }
      state := u.newState;
      updated := prevExchangeId != exchangeId || prevState != state;
      if updated {
        lastUpdate := u.timestamp;
      }
    }

    method UpdateWithTradeUpdate(t: TradeUpdate) returns (updated: bool)
      modifies this
      ensures View() == WithTradeUpdate(old(View()), t)
      ensures updated == TradeUpdateChanges(old(View()), t)
    {
      if HasFill(fills, t.tradeId) || (clientId != t.clientId && exchangeId != Some(t.exchangeId)) {
        return false;
      }
      fills := fills + [t];
      executedBase := executedBase + t.baseAmount;
      executedQuote := executedQuote + t.quoteAmount;
      lastUpdate := t.timestamp;
      updated := true;
    }
  }
}
