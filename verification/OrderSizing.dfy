/** How much of an order the adjustment leaves: the greatest amount the balances can provide for. */
module OrderSizing {
  import opened Options
  import opened OrderCandidates

  /** Prices, rates, percentages and fixed fees are not negative. */
  predicate Costly(e: Exchange, o: Order) {
    && o.UnitCollateral() >= 0.0
    && (o.FeeOnCost(e) ==> o.UnitFee(e) >= 0.0)
    && NoneBelowZero(e.schema.Fixed(o.isMaker))
  }

  /** What one unit of the order needs in a token, besides the fixed fees. */
  function UnitVariable(e: Exchange, o: Order, token: Token): real {
    (if token == o.CollateralToken() then o.UnitCollateral() else 0.0)
    + (if o.FeeOnCost(e) && token == o.FeeToken(e) then o.UnitFee(e) else 0.0)
  }

  lemma VariableAt(e: Exchange, o: Order, a: real, resized: bool, token: Token)
    ensures Variable(At(e, o, a, resized), token) == Mul(a, UnitVariable(e, o, token))
  {
    hide Order.UnitFee, Order.UnitCollateral, Order.FeeToken, Order.FeeOnCost;
    AddUnits(a, if token == o.CollateralToken() then o.UnitCollateral() else 0.0,
             if o.FeeOnCost(e) && token == o.FeeToken(e) then o.UnitFee(e) else 0.0);
  }

  lemma AddUnits(a: real, u: real, v: real)
    ensures Mul(a, u + v) == Mul(a, u) + Mul(a, v) && Mul(a, 0.0) == 0.0
  {
  }

  /** Non-negative fixed fees cost at least each of them. */
  lemma {:induction false} FixedAtLeast(fees: seq<TokenAmount>, token: Token)
    requires NoneBelowZero(fees)
    ensures FixedIn(fees, token) >= 0.0
    ensures forall i :: 0 <= i < |fees| && fees[i].token == token ==> FixedIn(fees, token) >= fees[i].amount
  {
    if fees == [] {
    } else {
      FixedAtLeast(fees[..|fees| - 1], token);
    }
  }

  lemma AboveTheQuotient(left: real, amount: real, unit: real, a: real)
    requires 0.0 <= left < Mul(amount, unit) && amount > 0.0 && a > Mul(amount, left / Mul(amount, unit))
    ensures unit > 0.0 && Mul(a, unit) > left && a > 0.0
  {
    var need := amount * unit;
    var s := left / need;
    assert s * need == left && s >= 0.0;
    assert amount * s >= 0.0;
    assert (amount * s) * unit == s * need;
    assert (a - amount * s) * unit > 0.0;
  }

  lemma ShareAtMost(a: real, unit: real, more: real)
    requires a >= 0.0 && unit <= more
    ensures Mul(a, unit) <= Mul(a, more)
  {
    assert a * (more - unit) >= 0.0;
  }

  /** Above the amount a token's balance allows, nothing fits. */
  lemma NothingAbove(e: Exchange, o: Order, b: Balances, token: Token, unit: real, left: real, amount: real, a: real)
    requires token in b && amount > 0.0 && unit <= UnitVariable(e, o, token)
    requires 0.0 <= left < Mul(amount, unit) && b[token] <= left + FixedIn(e.schema.Fixed(o.isMaker), token)
    requires a > Mul(amount, left / Mul(amount, unit))
    ensures !Fits(At(e, o, a, false), b)
  {
    hide Mul, Variable, UnitVariable, FixedIn;
    AboveTheQuotient(left, amount, unit, a);
    ShareAtMost(a, unit, UnitVariable(e, o, token));
    VariableAt(e, o, a, false, token);
    assert Collateral(At(e, o, a, false), token) > b[token];
  }

  /** No amount of the order above `low`, up to `high`, fits. */
  ghost predicate NoneFits(e: Exchange, o: Order, b: Balances, low: real, high: real) {
    forall a :: low < a <= high ==> !Fits(At(e, o, a, false), b)
  }

  /** A filled candidate for a positive amount of an order that costs something. */
  predicate Sizable(e: Exchange, c: Candidate, b: Balances) {
    Filled(e, c) && c.amount > 0.0 && Costly(e, c.order) && Covers(b, c)
  }

  lemma CollateralStepGreatest(e: Exchange, c: Candidate, b: Balances)
    requires Sizable(e, c, b)
    ensures NoneFits(e, c.order, b, AdjustCollateral(c, b).amount, c.amount)
  {
    hide Fits, Mul, Order.UnitFee, Order.UnitCollateral, Order.FeeToken, Order.FeeOnCost, FixedIn;
    var token, unit := c.order.CollateralToken(), c.order.UnitCollateral();
    FixedAtLeast(e.schema.Fixed(c.order.isMaker), token);
    if b[token] < Mul(c.amount, unit) {
      forall a | AdjustCollateral(c, b).amount < a <= c.amount ensures !Fits(At(e, c.order, a, false), b) {
        NothingAbove(e, c.order, b, token, unit, b[token], c.amount, a);
      }
    }
  }

  lemma PercentFeeStepGreatest(e: Exchange, c: Candidate, b: Balances)
    requires Sizable(e, c, b)
    ensures NoneFits(e, c.order, b, AdjustPercentFee(c, b).amount, c.amount)
  {
    hide Fits, Mul, Order.UnitFee, Order.UnitCollateral, Order.FeeToken, Order.FeeOnCost, FixedIn, UnitVariable, Costly;
    if c.percentFee.Some? {
      var token := c.percentFee.value.token;
      var unit := UnitVariable(e, c.order, token);
      VariableAt(e, c.order, c.amount, c.resized, token);
      assert Variable(c, token) == PercentFeeNeed(c);
      assert FixedIn(e.schema.Fixed(c.order.isMaker), token) >= 0.0 by { CostlyFixed(e, c.order, token); }
      if b[token] < Mul(c.amount, unit) {
        forall a | AdjustPercentFee(c, b).amount < a <= c.amount ensures !Fits(At(e, c.order, a, false), b) {
          NothingAbove(e, c.order, b, token, unit, b[token], c.amount, a);
        }
      }
    }
  }

  lemma CostlyFixed(e: Exchange, o: Order, token: Token)
    requires Costly(e, o)
    ensures FixedIn(e.schema.Fixed(o.isMaker), token) >= 0.0
    ensures forall i :: 0 <= i < |e.schema.Fixed(o.isMaker)| && e.schema.Fixed(o.isMaker)[i].token == token ==>
      FixedIn(e.schema.Fixed(o.isMaker), token) >= e.schema.Fixed(o.isMaker)[i].amount
  {
    FixedAtLeast(e.schema.Fixed(o.isMaker), token);
  }

  lemma CostlyUnits(e: Exchange, o: Order, a: real, token: Token)
    requires Costly(e, o) && a >= 0.0
    ensures Mul(a, UnitVariable(e, o, token)) >= 0.0
  {
    hide Order.UnitFee, Order.UnitCollateral, Order.FeeToken, Order.FeeOnCost;
    assert UnitVariable(e, o, token) >= 0.0;
  }

  lemma FixedFeeStepGreatest(e: Exchange, c: Candidate, k: nat, b: Balances)
    requires Sizable(e, c, b) && k < |c.fixedFees|
    ensures NoneFits(e, c.order, b, AdjustFixedFee(c, c.fixedFees[k], b).amount, c.amount)
  {
    hide Mul, Order.UnitFee, Order.UnitCollateral, Order.FeeToken, Order.FeeOnCost, FixedIn, UnitVariable, Costly,
      AdjustFixedFee, Variable;
    var fee := c.fixedFees[k];
    var left, unit := b[fee.token] - fee.amount, UnitVariable(e, c.order, fee.token);
    FixedFeeStep(c, fee, b);
    VariableAt(e, c.order, c.amount, c.resized, fee.token);
    CostlyFixed(e, c.order, fee.token);
    assert Mul(c.amount, 0.0) == 0.0 by { AddUnits(c.amount, 0.0, 0.0); }
    if left < 0.0 {
      forall a | 0.0 < a <= c.amount ensures !Fits(At(e, c.order, a, false), b) {
        VariableAt(e, c.order, a, false, fee.token);
        CostlyUnits(e, c.order, a, fee.token);
        assert Collateral(At(e, c.order, a, false), fee.token) > b[fee.token];
      }
    } else if left < Mul(c.amount, unit) {
      forall a | AdjustFixedFee(c, fee, b).amount < a <= c.amount ensures !Fits(At(e, c.order, a, false), b) {
        NothingAbove(e, c.order, b, fee.token, unit, left, c.amount, a);
      }
    }
  }

  lemma {:induction false} FixedFeesGreatest(e: Exchange, c: Candidate, k: nat, b: Balances)
    requires Sizable(e, c, b) && k <= |c.fixedFees|
    ensures NoneFits(e, c.order, b, AdjustFixedFees(c, c.fixedFees[k..], b).amount, c.amount)
    decreases |c.fixedFees| - k
  {
    hide Mul, Toward, Fits, AdjustFixedFee, Costly;
    if k < |c.fixedFees| {
      var c1 := AdjustFixedFee(c, c.fixedFees[k], b);
      FixedFeeStepGreatest(e, c, k, b);
      FixedFeeStepShrinks(e, c, c.fixedFees[k], b);
      StillCovered(e, c1, c, b);
      assert c.fixedFees[k..][1..] == c.fixedFees[k + 1..];
      if !c1.IsZero() {
        assert c1.amount > 0.0 by { TowardPositive(c1.amount, c.amount); }
        FixedFeesGreatest(e, c1, k + 1, b);
      }
    }
  }

  lemma TowardPositive(a: real, b: real)
    requires Toward(a, b) && b > 0.0
    ensures 0.0 <= a <= b
  {
  }

  /** Adjusting leaves the greatest amount that fits: no larger part of the order does. */
  lemma GreatestFit(e: Exchange, c: Candidate, b: Balances)
    requires Sizable(e, c, b) && NoSharedToken(c.fixedFees)
    ensures AdjustFromBalances(c, b).Some?
    ensures var c' := AdjustFromBalances(c, b).value;
            && 0.0 <= c'.amount <= c.amount && c' == ShrunkTo(e, c, c'.amount)
            && Fits(c', b) && NoneFits(e, c.order, b, c'.amount, c.amount)
  {
    AdjustedPasses(e, c, b);
    GreatestLeft(e, c, b);
    var c' := AdjustFromBalances(c, b).value;
    TowardPositive(c'.amount, c.amount);
    if c'.IsZero() {
      BareFits(c', b);
    } else {
      StillCovered(e, c', c, b);
      FitsWhenFeesFit(c', b);
    }
  }

  lemma BareFits(c: Candidate, b: Balances)
    requires c == Bare(c.order) && NoneNegative(b)
    ensures Fits(c, b)
  {
  }

  lemma GreatestLeft(e: Exchange, c: Candidate, b: Balances)
    requires Sizable(e, c, b)
    ensures AdjustFromBalances(c, b).Some?
    ensures NoneFits(e, c.order, b, AdjustFromBalances(c, b).value.amount, c.amount)
  {
    hide AdjustCollateral, AdjustPercentFee, AdjustFixedFees, Mul, Toward, Costly, Fits;
    var c1 := AdjustCollateral(c, b);
    CollateralStepGreatest(e, c, b);
    CollateralStepShrinks(e, c, b);
    StillCovered(e, c1, c, b);
    TowardPositive(c1.amount, c.amount);
    if !c1.IsZero() {
      var c2 := AdjustPercentFee(c1, b);
      PercentFeeStepGreatest(e, c1, b);
      PercentFeeStepShrinks(e, c1, b);
      StillCovered(e, c2, c1, b);
      TowardPositive(c2.amount, c1.amount);
      if !c2.IsZero() {
        FixedFeesGreatest(e, c2, 0, b);
        assert c2.fixedFees[0..] == c2.fixedFees;
      }
    }
  }

  /** An order is left alone exactly when all of its collateral fits. */
  lemma LeftAloneIffFits(e: Exchange, c: Candidate, b: Balances)
    requires Sizable(e, c, b) && NoSharedToken(c.fixedFees)
    ensures AdjustFromBalances(c, b) == Some(c) <==> Fits(c, b)
  {
    hide AdjustFromBalances, Mul, Costly;
    GreatestFit(e, c, b);
    if Fits(c, b) {
      assert forall token :: Collateral(c, token) == Collateral(At(e, c.order, c.amount, false), token);
      assert Fits(At(e, c.order, c.amount, false), b);
    }
  }

  // When fixed fees share a token

  function MaxIn(fees: seq<TokenAmount>, token: Token): real {
    if fees == [] then 0.0
    else
      var last, rest := fees[|fees| - 1], MaxIn(fees[..|fees| - 1], token);
      if last.token == token && last.amount > rest then last.amount else rest
  }

  predicate NoneBelowZero(fees: seq<TokenAmount>) {
    forall i :: 0 <= i < |fees| ==> fees[i].amount >= 0.0
  }

  lemma {:induction false} FixedAgainstMax(fees: seq<TokenAmount>, token: Token)
    requires NoneBelowZero(fees)
    ensures 0.0 <= MaxIn(fees, token) <= FixedIn(fees, token)
    ensures forall i :: 0 <= i < |fees| && fees[i].token == token ==> fees[i].amount <= MaxIn(fees, token)
    ensures forall i: nat, j: nat :: Shared(fees, i, j) && fees[i].token == token ==>
              MaxIn(fees, token) < FixedIn(fees, token)
  {
    if fees == [] {
    } else {
      FixedAgainstMax(fees[..|fees| - 1], token);
      forall i: nat, j: nat | Shared(fees, i, j) && fees[i].token == token
        ensures MaxIn(fees, token) < FixedIn(fees, token)
      {
        if j < |fees| - 1 {
          assert Shared(fees[..|fees| - 1], i, j);
        }
      }
    }
  }

  lemma {:induction false} FittingFeesLeaveAlone(c: Candidate, fees: seq<TokenAmount>, b: Balances)
    requires Covers(b, c) && c.collateral.Some? && c.amount != 0.0 && FeesFit(c, b, fees)
    ensures AdjustFixedFees(c, fees, b) == c
    decreases |fees|
  {
    hide Variable, AdjustFixedFee, Scaled, Covers;
    if fees == [] {
    } else {
      assert FeeFits(c, b, fees[0]);
      FixedFeeStep(c, fees[0], b);
      forall i | 0 <= i < |fees[1..]| ensures FeeFits(c, b, fees[1..][i]) {
        assert FeeFits(c, b, fees[i + 1]);
      }
      FittingFeesLeaveAlone(c, fees[1..], b);
    }
  }

  /** Balances with room for the order and for each fixed fee alone. */
  function EachFeeAlone(e: Exchange, o: Order, amount: real): Balances {
    map token | token in Tokens(At(e, o, amount, false)) ::
      Mul(amount, UnitVariable(e, o, token)) + MaxIn(e.schema.Fixed(o.isMaker), token)
  }

  lemma EachFeeAloneLeavesAlone(e: Exchange, o: Order, amount: real)
    requires Costly(e, o) && amount > 0.0
    ensures var c, b := At(e, o, amount, false), EachFeeAlone(e, o, amount);
            Covers(b, c) && AdjustFromBalances(c, b) == Some(c)
  {
    hide Mul, Order.UnitFee, Order.UnitCollateral, Order.FeeToken, Order.FeeOnCost, MaxIn, UnitVariable,
      AdjustFixedFees, Costly, Variable, Scaled;
    var c, b := At(e, o, amount, false), EachFeeAlone(e, o, amount);
    CostlyFees(e, o);
    forall token | token in b ensures b[token] >= Variable(c, token) >= 0.0 {
      VariableAt(e, o, amount, false, token);
      CostlyUnits(e, o, amount, token);
      FixedAgainstMax(c.fixedFees, token);
    }
    CollateralWithinVariable(e, o, amount);
    forall i | 0 <= i < |c.fixedFees| ensures FeeFits(c, b, c.fixedFees[i]) {
      var token := c.fixedFees[i].token;
      VariableAt(e, o, amount, false, token);
      CostlyUnits(e, o, amount, token);
      FixedAgainstMax(c.fixedFees, token);
    }
    FittingFeesLeaveAlone(c, c.fixedFees, b);
  }

  lemma CostlyFees(e: Exchange, o: Order)
    requires Costly(e, o)
    ensures NoneBelowZero(e.schema.Fixed(o.isMaker))
  {
  }

  lemma CollateralWithinVariable(e: Exchange, o: Order, amount: real)
    requires Costly(e, o) && amount > 0.0
    ensures var c := At(e, o, amount, false);
            && c.collateral.value.amount <= Variable(c, c.collateral.value.token)
            && (c.percentFee.Some? ==> PercentFeeNeed(c) == Variable(c, c.percentFee.value.token))
  {
    hide Order.UnitFee, Order.UnitCollateral, Order.FeeToken, Order.FeeOnCost;
  }

  ghost predicate AlwaysFits(c: Candidate) {
    forall b :: Covers(b, c) ==> AdjustFromBalances(c, b).Some? && Fits(AdjustFromBalances(c, b).value, b)
  }

  /** The adjusted order fits whatever the balances exactly when no two positive fixed fees share a token. */
  lemma AlwaysFitsIffUnshared(e: Exchange, o: Order, amount: real)
    requires Costly(e, o) && amount > 0.0
    ensures AlwaysFits(At(e, o, amount, false)) <==> NoSharedToken(e.schema.Fixed(o.isMaker))
  {
    hide AdjustFromBalances, Mul, Costly, Fits, Variable, UnitVariable, MaxIn, FixedIn;
    var c := At(e, o, amount, false);
    if NoSharedToken(c.fixedFees) {
      forall b | Covers(b, c) ensures AdjustFromBalances(c, b).Some? && Fits(AdjustFromBalances(c, b).value, b) {
        GreatestFit(e, c, b);
      }
    } else {
      var b := EachFeeAlone(e, o, amount);
      EachFeeAloneLeavesAlone(e, o, amount);
      var i: nat, j: nat :| Shared(c.fixedFees, i, j);
      SharedTokenOverruns(e, o, amount, i, j);
    }
  }

  lemma SharedTokenOverruns(e: Exchange, o: Order, amount: real, i: nat, j: nat)
    requires Costly(e, o) && Shared(e.schema.Fixed(o.isMaker), i, j)
    ensures !Fits(At(e, o, amount, false), EachFeeAlone(e, o, amount))
  {
    hide Mul, Order.UnitFee, Order.UnitCollateral, Order.FeeToken, Order.FeeOnCost, MaxIn, UnitVariable, FixedIn,
      Variable;
    var fees := e.schema.Fixed(o.isMaker);
    FixedAgainstMax(fees, fees[i].token);
    VariableAt(e, o, amount, false, fees[i].token);
    assert At(e, o, amount, false).fixedFees == fees;
    assert Collateral(At(e, o, amount, false), fees[i].token) > EachFeeAlone(e, o, amount)[fees[i].token];
  }

  /** An order of amount zero is not checked: it fits exactly when its fixed fees do. */
  lemma ZeroOrderUnchecked(e: Exchange, o: Order, b: Balances)
    requires Lists(b, At(e, o, 0.0, false))
    ensures AdjustFromBalances(At(e, o, 0.0, false), b) == Some(At(e, o, 0.0, false))
    ensures Fits(At(e, o, 0.0, false), b)
       <==> forall token :: token in b ==> FixedIn(e.schema.Fixed(o.isMaker), token) <= b[token]
  {
    hide Order.UnitFee, Order.UnitCollateral, Order.FeeToken, Order.FeeOnCost;
    var c := At(e, o, 0.0, false);
    assert forall token :: Collateral(c, token) == FixedIn(c.fixedFees, token);
  }
}
