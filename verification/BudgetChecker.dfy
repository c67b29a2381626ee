/** The candidate that is adjusted in place, and the budget checker that locks collateral between candidates. */
module BudgetCheckers {
  import opened Options
  import OC = OrderCandidates
  import BM = BudgetModel

  function TokenOf(entry: Option<OC.TokenAmount>): Option<OC.Token> {
    if entry.Some? then Some(entry.value.token) else None
  }

  class OrderCandidate {
    const order: OC.Order
    var amount: real
    var orderCollateral: Option<OC.TokenAmount>
    var percentFeeCollateral: Option<OC.TokenAmount>
    var fixedFeeCollaterals: seq<OC.TokenAmount>
    var resized: bool

    function View(): OC.Candidate
      reads this
    {
      OC.Candidate(order, amount, orderCollateral, percentFeeCollateral, fixedFeeCollaterals, resized)
    }

    constructor (order: OC.Order, amount: real)
      ensures View() == OC.Candidate(order, amount, None, None, [], false)
    {
      this.order, this.amount := order, amount;
      orderCollateral, percentFeeCollateral, fixedFeeCollaterals, resized := None, None, [], false;
    }

    constructor Copy(other: OrderCandidate)
      ensures View() == other.View()
    {
      order, amount := other.order, other.amount;
      orderCollateral, percentFeeCollateral := other.orderCollateral, other.percentFeeCollateral;
      fixedFeeCollaterals, resized := other.fixedFeeCollaterals, other.resized;
    }

    method PopulateCollateralEntries(exchange: OC.Exchange)
      modifies this
      ensures View() == OC.Populated(exchange, old(View()))
    {
      orderCollateral := Some(OC.TokenAmount(order.CollateralToken(), OC.Mul(amount, order.UnitCollateral())));
      if order.FeeOnCost(exchange) {
        percentFeeCollateral := Some(OC.TokenAmount(order.FeeToken(exchange), OC.Mul(amount, order.UnitFee(exchange))));
      }
      fixedFeeCollaterals := exchange.schema.Fixed(order.isMaker);
    }

    method ScaleOrder(scaler: real)
      modifies this
      ensures View() == OC.Scaled(old(View()), scaler)
    {
      amount := OC.Mul(amount, scaler);
      if orderCollateral.Some? {
        var entry := orderCollateral.value;
        orderCollateral := Some(OC.TokenAmount(entry.token, OC.Mul(entry.amount, scaler)));
      }
      if percentFeeCollateral.Some? {
        var entry := percentFeeCollateral.value;
        percentFeeCollateral := Some(OC.TokenAmount(entry.token, OC.Mul(entry.amount, scaler)));
      }
      if amount == 0.0 {
        orderCollateral, percentFeeCollateral, fixedFeeCollaterals := None, None, [];
      }
      resized := true;
    }

    /** `raised` stands for the division error of a negative balance. */
    method AdjustForOrderCollateral(balances: OC.Balances) returns (raised: bool)
      requires OC.Lists(balances, View())
      modifies this
      ensures raised == !OC.CollateralDivides(old(View()), balances)
      ensures View() == if raised then old(View()) else OC.AdjustCollateral(old(View()), balances)
    {
      raised := false;
      if orderCollateral.Some? {
        var token, needed := orderCollateral.value.token, orderCollateral.value.amount;
        if balances[token] < needed {
          if needed == 0.0 {
            return true;
          }
          ScaleOrder(balances[token] / needed);
        }
      }
    }

    method AdjustForPercentFeeCollateral(balances: OC.Balances) returns (raised: bool)
      requires OC.Lists(balances, View())
      modifies this
      ensures raised == !OC.PercentFeeDivides(old(View()), balances)
      ensures View() == if raised then old(View()) else OC.AdjustPercentFee(old(View()), balances)
    {
      hide OC.Scaled;
      raised := false;
      if percentFeeCollateral.Some? {
        var token, needed := percentFeeCollateral.value.token, percentFeeCollateral.value.amount;
        if orderCollateral.Some? && token == orderCollateral.value.token {
          needed := needed + orderCollateral.value.amount;
        }
        if balances[token] < needed {
          if needed == 0.0 {
            return true;
          }
          ScaleOrder(balances[token] / needed);
        }
      }
    }

    /** What the loop over the fixed fees remembers: the tokens, and what is needed in them. */
    predicate Remembered(ocToken: Option<OC.Token>, pfcToken: Option<OC.Token>, ocAmount: real, pfcAmount: real)
      reads this
    {
      && ocToken == TokenOf(orderCollateral) && pfcToken == TokenOf(percentFeeCollateral)
      && ocAmount == (if ocToken.Some? then OC.Variable(View(), ocToken.value) else 0.0)
      && pfcAmount == if pfcToken.Some? && pfcToken != ocToken then percentFeeCollateral.value.amount else 0.0
    }

    /** The collateral and the percent fee, the latter added to the former when they share a token. */
    method CollateralAmounts() returns (ocAmount: real, pfcAmount: real)
      ensures Remembered(TokenOf(orderCollateral), TokenOf(percentFeeCollateral), ocAmount, pfcAmount)
    {
      ocAmount, pfcAmount := 0.0, 0.0;
      if orderCollateral.Some? {
        ocAmount := orderCollateral.value.amount;
      }
      if percentFeeCollateral.Some? {
        pfcAmount := percentFeeCollateral.value.amount;
        if orderCollateral.Some? && percentFeeCollateral.value.token == orderCollateral.value.token {
          ocAmount, pfcAmount := ocAmount + pfcAmount, 0.0;
        }
      }
    }

    /** One round of the loop over the fixed fees; the amounts are read again only after scaling. */
    method AdjustForFixedFee(fee: OC.TokenAmount, balances: OC.Balances, ocToken: Option<OC.Token>,
                             pfcToken: Option<OC.Token>, ocAmount: real, pfcAmount: real)
      returns (newOcAmount: real, newPfcAmount: real)
      requires OC.Lists(balances, View()) && fee.token in balances && amount != 0.0
      requires Remembered(ocToken, pfcToken, ocAmount, pfcAmount)
      modifies this
      ensures View() == OC.AdjustFixedFee(old(View()), fee, balances)
      ensures amount != 0.0 ==> Remembered(ocToken, pfcToken, newOcAmount, newPfcAmount)
    {
      hide OC.Variable;
      newOcAmount, newPfcAmount := ocAmount, pfcAmount;
      var available := balances[fee.token];
      if available < fee.amount {
        ScaleOrder(0.0);
        return;
      }
      if ocToken == Some(fee.token) && available < fee.amount + newOcAmount {
        ScaleOrder((available - fee.amount) / newOcAmount);
        newOcAmount, newPfcAmount := CollateralAmounts();
      }
      if pfcToken == Some(fee.token) && available < fee.amount + newPfcAmount {
        ScaleOrder((available - fee.amount) / newPfcAmount);
        newOcAmount, newPfcAmount := CollateralAmounts();
      }
    }

    method AdjustForFixedFeeCollaterals(balances: OC.Balances)
      requires OC.Lists(balances, View()) && amount != 0.0
      modifies this
      ensures View() == OC.AdjustFixedFees(old(View()), old(fixedFeeCollaterals), balances)
    {
      hide OC.AdjustFixedFee, OC.Variable;
      var ocToken, pfcToken := TokenOf(orderCollateral), TokenOf(percentFeeCollateral);
      var ocAmount, pfcAmount := CollateralAmounts();
      var fees, i := fixedFeeCollaterals, 0;
      while i < |fees|
        invariant 0 <= i <= |fees|
        invariant OC.Lists(balances, View()) && amount != 0.0
        invariant Remembered(ocToken, pfcToken, ocAmount, pfcAmount)
        invariant OC.AdjustFixedFees(View(), fees[i..], balances) == OC.AdjustFixedFees(old(View()), fees, balances)
      {
        assert fees[i..][1..] == fees[i + 1..];
        RoundStillLists(View(), fees[i], balances);
        ocAmount, pfcAmount := AdjustForFixedFee(fees[i], balances, ocToken, pfcToken, ocAmount, pfcAmount);
        if amount == 0.0 {
          return;
        }
        i := i + 1;
      }
    }

    method AdjustFromBalances(balances: OC.Balances) returns (raised: bool)
      requires OC.Lists(balances, View())
      modifies this
      ensures raised == OC.AdjustFromBalances(old(View()), balances).None?
      ensures !raised ==> View() == OC.AdjustFromBalances(old(View()), balances).value
    {
      hide OC.AdjustFixedFees;
      raised := false;
      if amount != 0.0 {
        raised := AdjustForOrderCollateral(balances);
      }
      if !raised && amount != 0.0 {
        raised := AdjustForPercentFeeCollateral(balances);
      }
      if !raised && amount != 0.0 {
        AdjustForFixedFeeCollaterals(balances);
      }
    }
  }

  lemma RoundStillLists(c: OC.Candidate, fee: OC.TokenAmount, balances: OC.Balances)
    requires OC.Lists(balances, c) && fee.token in balances
    ensures OC.Lists(balances, OC.AdjustFixedFee(c, fee, balances))
  {
  }

  function Views(cs: seq<OrderCandidate>): (vs: seq<OC.Candidate>)
    reads cs
    ensures |vs| == |cs| && forall i :: 0 <= i < |cs| ==> vs[i] == cs[i].View()
  {
    if cs == [] then [] else [cs[0].View()] + Views(cs[1..])
  }

  lemma TokensListed(c: OC.Candidate)
    ensures OC.Lists(map token | token in OC.Tokens(c) :: 0.0, c)
  {
  }

  lemma AvailableIs(e: OC.Exchange, locks: BM.Locks, c: OC.Candidate, balances: OC.Balances)
    requires balances.Keys <= OC.Tokens(c) && OC.Lists(balances, c)
    requires forall token :: token in balances ==>
      balances[token] == e.Balance(token, c.order.fromTotal) - BM.Locked(locks, token)
    ensures balances == BM.Available(e, locks, c)
  {
  }

  class BudgetChecker {
    const exchange: OC.Exchange
    var lockedCollateral: BM.Locks

    constructor (exchange: OC.Exchange)
      ensures this.exchange == exchange && lockedCollateral == map[]
    {
      this.exchange := exchange;
      lockedCollateral := map[];
    }

    method ResetLockedCollateral()
      modifies this
      ensures lockedCollateral == map[]
    {
      lockedCollateral := map[];
    }

    method PopulateCollateralEntries(candidate: OrderCandidate) returns (populated: OrderCandidate)
      ensures fresh(populated) && populated.View() == OC.Populated(exchange, candidate.View())
    {
      populated := new OrderCandidate.Copy(candidate);
      populated.PopulateCollateralEntries(exchange);
    }

    function Left(token: OC.Token, fromTotal: bool): real
      reads this
    {
      exchange.Balance(token, fromTotal) - BM.Locked(lockedCollateral, token)
    }

    method GetAvailableBalances(candidate: OrderCandidate) returns (balances: OC.Balances)
      ensures balances == BM.Available(exchange, lockedCollateral, candidate.View())
    {
      hide BM.Locked, OC.Tokens, BM.Available;
      var fromTotal, fees := candidate.order.fromTotal, candidate.fixedFeeCollaterals;
      TokensListed(candidate.View());
      balances := map[];
      if candidate.orderCollateral.Some? {
        var token := candidate.orderCollateral.value.token;
        balances := balances[token := Left(token, fromTotal)];
      }
      if candidate.percentFeeCollateral.Some? {
        var token := candidate.percentFeeCollateral.value.token;
        balances := balances[token := Left(token, fromTotal)];
      }
      var i := 0;
      while i < |fees|
        invariant 0 <= i <= |fees|
        invariant balances.Keys <= OC.Tokens(candidate.View())
        invariant candidate.orderCollateral.Some? ==> candidate.orderCollateral.value.token in balances
        invariant candidate.percentFeeCollateral.Some? ==> candidate.percentFeeCollateral.value.token in balances
        invariant forall k :: 0 <= k < i ==> fees[k].token in balances
        invariant forall token :: token in balances ==> balances[token] == Left(token, fromTotal)
      {
        balances := balances[fees[i].token := Left(fees[i].token, fromTotal)];
        i := i + 1;
      }
      AvailableIs(exchange, lockedCollateral, candidate.View(), balances);
    }

    /** `raised` stands for a pair without a trading rule, or one whose size step is zero. */
    method QuantizeAdjustedOrder(candidate: OrderCandidate) returns (raised: bool, quantized: OrderCandidate)
      modifies candidate
      ensures quantized == candidate || fresh(quantized)
      ensures raised == BM.QuantizeAdjusted(exchange, old(candidate.View())).None?
      ensures !raised ==> quantized.View() == BM.QuantizeAdjusted(exchange, old(candidate.View())).value
    {
      raised, quantized := false, candidate;
      if !BM.HasQuantum(exchange, candidate.order) {
        return true, candidate;
      }
      var amount := BM.Quantized(BM.Quantum(exchange, candidate.order), candidate.amount);
      if candidate.amount != amount {
        candidate.amount := amount;
        quantized := PopulateCollateralEntries(candidate);
      }
    }

    method AdjustCandidate(candidate: OrderCandidate, allOrNone: bool) returns (raised: bool, adjusted: OrderCandidate)
      ensures fresh(adjusted)
      ensures var outcome := BM.AdjustCandidate(exchange, lockedCollateral, candidate.View(), allOrNone);
              raised == outcome.None? && (!raised ==> adjusted.View() == outcome.value)
    {
      hide OC.AdjustFromBalances, OC.Populated, OC.Scaled, BM.QuantizeAdjusted, BM.Available;
      adjusted := PopulateCollateralEntries(candidate);
      var balances := GetAvailableBalances(adjusted);
      BM.ListedWhenAvailable(exchange, lockedCollateral, adjusted.View());
      raised := adjusted.AdjustFromBalances(balances);
      if !raised && adjusted.resized {
        if allOrNone {
          adjusted.ScaleOrder(0.0);
        } else {
          raised, adjusted := QuantizeAdjustedOrder(adjusted);
        }
      }
    }

    method LockEntry(token: OC.Token, amount: real)
      modifies this
      ensures lockedCollateral == old(lockedCollateral)[token := BM.Locked(old(lockedCollateral), token) + amount]
    {
      lockedCollateral := lockedCollateral[token := BM.Locked(lockedCollateral, token) + amount];
    }

    method LockAvailableCollateral(candidate: OrderCandidate)
      modifies this
      ensures lockedCollateral == BM.Lock(old(lockedCollateral), candidate.View())
    {
      hide OC.Collateral;
      var left := OC.Tokens(candidate.View());
      ghost var done: set<OC.Token> := {};
      while left != {}
        invariant done + left == OC.Tokens(candidate.View()) && done !! left
        invariant lockedCollateral.Keys == old(lockedCollateral.Keys) + done
        invariant forall token :: token in lockedCollateral ==>
          lockedCollateral[token] ==
          BM.Locked(old(lockedCollateral), token)
          + if token in done then OC.Collateral(candidate.View(), token) else 0.0
        decreases left
      {
        var token :| token in left;
        LockEntry(token, OC.Collateral(candidate.View(), token));
        left, done := left - {token}, done + {token};
      }
      forall token | token in lockedCollateral && token !in done
        ensures OC.Collateral(candidate.View(), token) == 0.0
      {
        BM.NothingOutside(candidate.View(), token);
      }
    }

    method AdjustCandidateAndLockAvailableCollateral(candidate: OrderCandidate, allOrNone: bool)
      returns (raised: bool, adjusted: OrderCandidate)
      modifies this
      ensures fresh(adjusted)
      ensures var outcome := BM.AdjustCandidate(exchange, old(lockedCollateral), old(candidate.View()), allOrNone);
              && raised == outcome.None?
              && (!raised ==> adjusted.View() == outcome.value)
              && (!raised ==> lockedCollateral == BM.Lock(old(lockedCollateral), outcome.value))
              && (raised ==> lockedCollateral == old(lockedCollateral))
    {
      hide BM.AdjustCandidate, BM.Lock;
      raised, adjusted := AdjustCandidate(candidate, allOrNone);
      if !raised {
        LockAvailableCollateral(adjusted);
      }
    }

    /** An exception leaves the locks of the candidates before it in place. */
    method AdjustCandidates(candidates: seq<OrderCandidate>, allOrNone: bool)
      returns (raised: bool, adjusted: seq<OrderCandidate>)
      modifies this
      ensures fresh(adjusted)
      ensures raised == BM.RunBatch(exchange, map[], old(Views(candidates)), allOrNone).None?
      ensures !raised ==> lockedCollateral == map[]
      ensures !raised ==> Views(adjusted) == BM.RunBatch(exchange, map[], old(Views(candidates)), allOrNone).value.0
    {
      hide BM.AdjustCandidate, BM.Lock, BM.RunBatch, Views;
      ResetLockedCollateral();
      ghost var views := Views(candidates);
      adjusted, raised := [], false;
      var i := 0;
      NothingRun(exchange, allOrNone);
      while i < |candidates|
        invariant 0 <= i <= |candidates| && fresh(adjusted)
        invariant Views(candidates) == views
        invariant BM.RunBatch(exchange, map[], views[..i], allOrNone) == Some((Views(adjusted), lockedCollateral))
      {
        BM.BatchOneMore(exchange, map[], views, i, allOrNone);
        ghost var before := Views(adjusted);
        var one;
        raised, one := AdjustCandidateAndLockAvailableCollateral(candidates[i], allOrNone);
        if raised {
          return;
        }
        assert Views(adjusted + [one]) == before + [one.View()];
        adjusted := adjusted + [one];
        i := i + 1;
      }
      assert views[..i] == views;
      ResetLockedCollateral();
    }
  }

  lemma NothingRun(exchange: OC.Exchange, allOrNone: bool)
    ensures BM.RunBatch(exchange, map[], [], allOrNone) == Some((Views([]), map[]))
  {
  }
}
