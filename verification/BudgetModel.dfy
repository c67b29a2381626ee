/** Adjusting a batch of candidates against balances from which earlier candidates are locked away. */
module BudgetModel {
  import opened Options
  import opened OrderCandidates
  import opened TradeTypes
  import Sizing = OrderSizing

  type Locks = map<Token, real>

  function Locked(locks: Locks, token: Token): real {
    if token in locks then locks[token] else 0.0
  }

  function Available(e: Exchange, locks: Locks, c: Candidate): Balances {
    map token | token in Tokens(c) :: e.Balance(token, c.order.fromTotal) - Locked(locks, token)
  }

  /** Decimal floor division drops the fraction, whatever the sign. */
  function Truncated(x: real): int {
    if x >= 0.0 then x.Floor else -(-x).Floor
  }

  function Quantized(quantum: real, amount: real): real
    requires quantum != 0.0
  {
    Mul(Truncated(amount / quantum) as real, quantum)
  }

  /** The pair has a trading rule, and with a size step that can divide. */
  predicate HasQuantum(e: Exchange, o: Order) {
    (o.base, o.quote) in e.quanta && e.quanta[(o.base, o.quote)] != 0.0
  }

  function Quantum(e: Exchange, o: Order): real
    requires HasQuantum(e, o)
  {
    e.quanta[(o.base, o.quote)]
  }

  function QuantizeAdjusted(e: Exchange, c: Candidate): Option<Candidate> {
    if !HasQuantum(e, c.order) then None
    else
      var amount := Quantized(Quantum(e, c.order), c.amount);
      Some(if amount != c.amount then Populated(e, c.(amount := amount)) else c)
  }

  /** `None` stands for an exception: a division that raises, or a pair without a trading rule. */
  function AdjustCandidate(e: Exchange, locks: Locks, c: Candidate, allOrNone: bool): Option<Candidate> {
    var p := Populated(e, c);
    match AdjustFromBalances(p, Available(e, locks, p))
    case None => None
    case Some(a) =>
      if !a.resized then Some(a)
      else if allOrNone then Some(Scaled(a, 0.0))
      else QuantizeAdjusted(e, a)
  }

  function Lock(locks: Locks, c: Candidate): Locks {
    map token | token in locks.Keys + Tokens(c) :: Locked(locks, token) + Collateral(c, token)
  }

  /** The adjusted candidates and the locks they leave; `None` when one of them raises. */
  function RunBatch(e: Exchange, locks: Locks, cs: seq<Candidate>, allOrNone: bool): Option<(seq<Candidate>, Locks)>
    decreases |cs|
  {
    if cs == [] then Some(([], locks))
    else
      match AdjustCandidate(e, locks, cs[0], allOrNone)
      case None => None
      case Some(a) =>
        match RunBatch(e, Lock(locks, a), cs[1..], allOrNone)
        case None => None
        case Some(rest) => Some(([a] + rest.0, rest.1))
  }

  // One candidate

  /**
    A candidate the budget checker really checks: not filled by another schema, not a zero order that
    owes fees, charged no two positive fees in one token, and traded in steps.
   */
  predicate Checked(e: Exchange, c: Candidate) {
    && (c.percentFee.Some? ==> c.order.FeeOnCost(e))
    && (c.amount != 0.0 || e.schema.Fixed(c.order.isMaker) == [])
    && NoSharedToken(e.schema.Fixed(c.order.isMaker))
    && HasQuantum(e, c.order) && Quantum(e, c.order) > 0.0
  }

  lemma FilledWhenChecked(e: Exchange, c: Candidate)
    requires Checked(e, c)
    ensures Filled(e, Populated(e, c))
  {
  }

  /** Quantizing moves an amount toward zero, to a multiple of the quantum less than one quantum away. */
  lemma QuantizedToward(q: real, a: real)
    requires q > 0.0
    ensures Toward(Quantized(q, a), a)
    ensures -q < a - Quantized(q, a) < q
  {
    hide Mul;
    Ratio(a, q);
    var x, n := a / q, Truncated(a / q) as real;
    if a >= 0.0 {
      Between(n, x, n + 1.0, q);
    } else {
      BetweenBelow(n - 1.0, x, n, q);
    }
  }

  lemma Ratio(a: real, q: real)
    requires q > 0.0
    ensures Mul(a / q, q) == a && (a >= 0.0 <==> a / q >= 0.0)
  {
  }

  lemma BetweenBelow(n': real, x: real, n: real, q: real)
    requires q > 0.0 && n - 1.0 == n' < x <= n <= 0.0
    ensures Mul(n, q) - q < Mul(x, q) <= Mul(n, q) <= 0.0
  {
    assert (n - x) * q >= 0.0 && n * q <= 0.0;
    var d := x - n';
    assert d * q > 0.0;
    assert x * q - n * q + q == d * q;
  }

  lemma Between(n: real, x: real, n': real, q: real)
    requires q > 0.0 && 0.0 <= n <= x < n' == n + 1.0
    ensures 0.0 <= Mul(n, q) <= Mul(x, q) < Mul(n, q) + q
  {
    assert (x - n) * q >= 0.0 && (n' - x) * q > 0.0 && n * q >= 0.0;
  }

  /** Part of an order that passes every check passes them too. */
  lemma PartPasses(e: Exchange, o: Order, a: real, q: real, b: Balances)
    requires a != 0.0 && Toward(q, a) && NoneNegative(b)
    requires var c := At(e, o, a, true); VariableFits(c, b) && FeesFit(c, b, c.fixedFees)
    ensures var c := At(e, o, q, true); VariableFits(c, b) && FeesFit(c, b, c.fixedFees)
  {
    hide Mul, Order.UnitFee, Order.UnitCollateral, Order.FeeToken, Order.FeeOnCost, Variable;
    var s := q / a;
    PartOfWhole(q, a);
    forall token ensures Variable(At(e, o, q, true), token) == s * Variable(At(e, o, a, true), token) {
      Sizing.VariableAt(e, o, q, true, token);
      Sizing.VariableAt(e, o, a, true, token);
      PartOfProduct(q, a, Sizing.UnitVariable(e, o, token));
    }
    forall token | token in b ensures Variable(At(e, o, q, true), token) <= b[token] {
      ShrinkFits(s, Variable(At(e, o, a, true), token), 0.0, b[token]);
    }
    var fees := e.schema.Fixed(o.isMaker);
    forall i | 0 <= i < |fees| ensures FeeFits(At(e, o, q, true), b, fees[i]) {
      assert FeeFits(At(e, o, a, true), b, fees[i]);
      ShrinkFits(s, Variable(At(e, o, a, true), fees[i].token), fees[i].amount, b[fees[i].token]);
    }
  }

  lemma PartOfWhole(q: real, a: real)
    requires a != 0.0 && Toward(q, a)
    ensures 0.0 <= q / a <= 1.0
  {
    if a > 0.0 {
      assert q / a <= a / a;
    } else {
      assert q / a <= a / a;
    }
  }

  lemma PartOfProduct(q: real, a: real, u: real)
    requires a != 0.0
    ensures Mul(q, u) == (q / a) * Mul(a, u)
  {
    assert (q / a) * a == q;
    assert (q / a) * (a * u) == ((q / a) * a) * u;
  }

  /** What a checked candidate becomes: nothing, the whole order, or a smaller amount of it; it fits in every case. */
  ghost predicate Outcome(e: Exchange, r: Candidate, c: Candidate, b: Balances) {
    && Toward(r.amount, c.amount)
    && (r == Bare(c.order) || r == At(e, c.order, r.amount, r.resized))
    && Fits(r, b)
  }

  /** The same order with an amount cut toward zero; all or none cuts nothing or everything. */
  predicate Cut(r: Candidate, c: Candidate, allOrNone: bool) {
    r.order == c.order && Toward(r.amount, c.amount) && (allOrNone ==> r.amount in {0.0, c.amount})
  }

  lemma CandidateOutcome(e: Exchange, locks: Locks, c: Candidate, allOrNone: bool)
    requires Checked(e, c)
    requires NoneNegative(Available(e, locks, Populated(e, c)))
    ensures AdjustCandidate(e, locks, c, allOrNone).Some?
    ensures var r := AdjustCandidate(e, locks, c, allOrNone).value;
            && Outcome(e, r, c, Available(e, locks, Populated(e, c)))
            && (allOrNone ==> r == Bare(c.order) || r == Populated(e, c))
            && Cut(r, c, allOrNone)
  {
    hide AdjustFromBalances, Populated, Fits, Toward, Quantized, Scaled, FeesFit, VariableFits;
    var p := Populated(e, c);
    var b := Available(e, locks, p);
    FilledWhenChecked(e, c);
    ListedWhenAvailable(e, locks, p);
    PopulatedKeeps(e, c);
    if c.amount == 0.0 {
      ZeroOutcome(e, locks, c, allOrNone);
    } else {
      AdjustedPasses(e, p, b);
      ShrunkOutcome(e, locks, c, allOrNone);
    }
    OutcomeIsCut(e, AdjustCandidate(e, locks, c, allOrNone).value, c, b, allOrNone);
  }

  lemma OutcomeIsCut(e: Exchange, r: Candidate, c: Candidate, b: Balances, allOrNone: bool)
    requires Outcome(e, r, c, b) && (allOrNone ==> r == Bare(c.order) || r == Populated(e, c))
    ensures Cut(r, c, allOrNone)
  {
    hide Order.UnitFee, Order.UnitCollateral, Order.FeeToken, Order.FeeOnCost, Mul;
  }

  lemma PopulatedKeeps(e: Exchange, c: Candidate)
    ensures var p := Populated(e, c); p.amount == c.amount && p.order == c.order && p.resized == c.resized
  {
  }

  lemma ListedWhenAvailable(e: Exchange, locks: Locks, c: Candidate)
    ensures Lists(Available(e, locks, c), c)
  {
  }

  lemma ZeroOutcome(e: Exchange, locks: Locks, c: Candidate, allOrNone: bool)
    requires Checked(e, c) && c.amount == 0.0
    requires NoneNegative(Available(e, locks, Populated(e, c)))
    ensures AdjustCandidate(e, locks, c, allOrNone).Some?
    ensures var r := AdjustCandidate(e, locks, c, allOrNone).value;
            && Outcome(e, r, c, Available(e, locks, Populated(e, c)))
            && (r == Bare(c.order) || r == Populated(e, c))
  {
    hide Order.UnitFee, Order.UnitCollateral, Order.FeeToken, Order.FeeOnCost;
    QuantizedToward(Quantum(e, c.order), 0.0);
    var p := Populated(e, c);
    Sizing.ZeroOrderUnchecked(e, c.order, Available(e, locks, p));
    assert Scaled(p, 0.0) == Bare(c.order);
    FilledWhenChecked(e, c);
  }

  lemma ShrunkOutcome(e: Exchange, locks: Locks, c: Candidate, allOrNone: bool)
    requires Checked(e, c) && Filled(e, Populated(e, c)) && c.amount != 0.0
    requires var p := Populated(e, c); var b := Available(e, locks, p);
             && Covers(b, p) && AdjustFromBalances(p, b).Some?
             && var a := AdjustFromBalances(p, b).value;
                Shrunk(e, a, p) && (a.IsZero() || (VariableFits(a, b) && FeesFit(a, b, a.fixedFees)))
    ensures AdjustCandidate(e, locks, c, allOrNone).Some?
    ensures var r := AdjustCandidate(e, locks, c, allOrNone).value;
            && Outcome(e, r, c, Available(e, locks, Populated(e, c)))
            && (allOrNone ==> r == Bare(c.order) || r == Populated(e, c))
  {
    hide AdjustFromBalances, Fits, Toward, Quantized, FeesFit, VariableFits, Mul, Order.UnitFee, Order.UnitCollateral,
      Order.FeeToken, Order.FeeOnCost;
    var p := Populated(e, c);
    var b := Available(e, locks, p);
    var a := AdjustFromBalances(p, b).value;
    Sizing.BareFits(Bare(c.order), b);
    var quantized := Quantized(Quantum(e, c.order), a.amount);
    QuantizedToward(Quantum(e, c.order), a.amount);
    StillCovered(e, a, p, b);
    TowardZero(c.amount);
    ZeroScales(a);
    ScaledAt(e, p, 0.0);
    if a.IsZero() {
      QuantizedZero(Quantum(e, c.order));
    } else {
      FitsWhenFeesFit(a, b);
      if a.resized {
        PartPasses(e, c.order, a.amount, quantized, b);
        FitsWhenFeesFit(At(e, c.order, quantized, true), b);
        TowardTwice(quantized, a.amount, c.amount);
      }
    }
  }

  lemma QuantizedZero(q: real)
    requires q > 0.0
    ensures Quantized(q, 0.0) == 0.0
  {
  }

  lemma TowardZero(a: real)
    ensures Toward(0.0, a) && Toward(a, a)
  {
  }

  lemma TowardTwice(a: real, b: real, c: real)
    requires Toward(a, b) && Toward(b, c)
    ensures Toward(a, c)
  {
  }

  // The greatest amount

  function Steps(q: real, m: int): real {
    Mul(m as real, q)
  }

  /** A multiple of the size step above a quantized amount is above the amount itself. */
  lemma NextMultiple(q: real, a: real, m: int)
    requires q > 0.0 && a >= 0.0 && Steps(q, m) > Quantized(q, a)
    ensures Steps(q, m) > a
  {
    hide Mul;
    Ratio(a, q);
    var n := Truncated(a / q);
    Between(n as real, a / q, n as real + 1.0, q);
    Above(m, n, q);
  }

  lemma Above(m: int, n: int, q: real)
    requires q > 0.0 && Steps(q, m) > Steps(q, n)
    ensures Steps(q, m) >= Steps(q, n) + q
  {
    var d := (m - n) as real;
    assert d * q == m as real * q - n as real * q;
    if d < 1.0 {
      assert d <= 0.0;
    }
    assert (d - 1.0) * q >= 0.0;
  }

  /** No multiple of the size step above `low`, up to `high`, fits. */
  ghost predicate NoMultipleFits(e: Exchange, o: Order, b: Balances, q: real, low: real, high: real) {
    forall m: int :: low < Steps(q, m) <= high ==> !Fits(At(e, o, Steps(q, m), false), b)
  }

  /**
    Without all-or-none, the order returned is the whole one when that fits, and else, or when it is
    already marked as resized, the greatest multiple of the size step that what is left can provide for.
   */
  lemma GreatestMultiple(e: Exchange, locks: Locks, c: Candidate)
    requires Checked(e, c) && c.amount > 0.0 && Sizing.Costly(e, c.order)
    requires NoneNegative(Available(e, locks, Populated(e, c)))
    ensures AdjustCandidate(e, locks, c, false).Some?
    ensures var p, q := Populated(e, c), Quantum(e, c.order);
            var b := Available(e, locks, p);
            var r := AdjustCandidate(e, locks, c, false).value;
            && Fits(r, b)
            && if Fits(p, b) && !c.resized then r == p
               else
                 && (exists m: int :: r.amount == Steps(q, m)) && (r.resized || r.IsZero())
                 && 0.0 <= r.amount <= c.amount && (r.amount == c.amount ==> Fits(p, b))
                 && NoMultipleFits(e, c.order, b, q, r.amount, c.amount)
  {
    hide AdjustFromBalances, Sizing.Costly, Fits, Mul, Toward, Order.UnitFee, Order.UnitCollateral, Order.FeeToken,
      Order.FeeOnCost, NoSharedToken, Quantized;
    var p, q := Populated(e, c), Quantum(e, c.order);
    var b := Available(e, locks, p);
    FilledWhenChecked(e, c);
    ListedWhenAvailable(e, locks, p);
    CandidateOutcome(e, locks, c, false);
    Sizing.GreatestFit(e, p, b);
    Sizing.LeftAloneIffFits(e, p, b);
    var a := AdjustFromBalances(p, b).value;
    var r := AdjustCandidate(e, locks, c, false).value;
    if !Fits(p, b) || c.resized {
      assert a.resized;
      QuantizedToward(q, a.amount);
      TowardPart(Quantized(q, a.amount), a.amount);
      assert r.amount == Quantized(q, a.amount);
      QuantizedIsMultiple(q, a.amount);
      forall m: int | r.amount < Steps(q, m) <= c.amount ensures !Fits(At(e, c.order, Steps(q, m), false), b) {
        NextMultiple(q, a.amount, m);
      }
    }
  }

  lemma TowardPart(a: real, b: real)
    requires Toward(a, b) && b >= 0.0
    ensures 0.0 <= a <= b
  {
  }

  lemma QuantizedIsMultiple(q: real, a: real)
    requires q > 0.0
    ensures exists m: int :: Quantized(q, a) == Steps(q, m)
  {
    hide Mul;
    assert Quantized(q, a) == Steps(q, Truncated(a / q));
  }

  // Batches

  function SumOf(cs: seq<Candidate>, token: Token): real {
    if cs == [] then 0.0 else Collateral(cs[0], token) + SumOf(cs[1..], token)
  }

  lemma LockAdds(locks: Locks, c: Candidate, token: Token)
    ensures Locked(Lock(locks, c), token) == Locked(locks, token) + Collateral(c, token)
  {
    if token !in Tokens(c) {
      NothingOutside(c, token);
    }
  }

  lemma NothingOutside(c: Candidate, token: Token)
    requires token !in Tokens(c)
    ensures Collateral(c, token) == 0.0
  {
    forall i | 0 <= i < |c.fixedFees| ensures c.fixedFees[i].token != token {
      assert c.fixedFees[i].token in Tokens(c);
    }
    NoFeeInToken(c.fixedFees, token);
  }

  lemma {:induction false} NoFeeInToken(fees: seq<TokenAmount>, token: Token)
    requires forall i :: 0 <= i < |fees| ==> fees[i].token != token
    ensures FixedIn(fees, token) == 0.0
  {
    if fees == [] {
    } else {
      NoFeeInToken(fees[..|fees| - 1], token);
    }
  }

  // What orders cost

  /** Where a percent fee of `fee` quote tokens is charged; sales and fees taken from returns cost nothing up front. */
  function FeeCharge(e: Exchange, o: Order, fee: real, token: Token): real {
    if o.side != Buy then 0.0
    else
      match e.schema.percentToken
      case None => if e.schema.deducted || token != o.quote then 0.0 else fee
      case Some(feeToken) =>
        if feeToken == "" || feeToken == o.quote then (if token == o.quote then fee else 0.0)
        else if token == feeToken && (o.quote, feeToken) in e.prices then fee * e.prices[(o.quote, feeToken)]
        else 0.0
  }

  /** The maker's or taker's percentage of the order's worth, in quote tokens. */
  function PercentFee(e: Exchange, o: Order, amount: real): real {
    amount * o.price * if o.isMaker then e.schema.makerPercent else e.schema.takerPercent
  }

  /** What an order takes of a token: a purchase pays amount times price in quote, a sale gives the amount in base. */
  function Charge(e: Exchange, r: Candidate, token: Token): real {
    var o := r.order;
    var size := if o.side == Buy then (if token == o.quote then r.amount * o.price else 0.0)
                else if token == o.base then r.amount else 0.0;
    size + FeeCharge(e, o, PercentFee(e, o, r.amount), token) + FixedIn(r.fixedFees, token)
  }

  function Spent(e: Exchange, rs: seq<Candidate>, token: Token): real {
    if rs == [] then 0.0 else Charge(e, rs[0], token) + Spent(e, rs[1..], token)
  }

  /** An emptied candidate, or a filled one. */
  predicate Plain(e: Exchange, r: Candidate) {
    r == Bare(r.order) || Filled(e, r)
  }

  /** The collateral entries of a candidate are what its order costs. */
  lemma CollateralIsCharge(e: Exchange, r: Candidate, token: Token)
    requires Plain(e, r)
    ensures Collateral(r, token) == Charge(e, r, token)
    ensures r.amount != 0.0 ==>
      r.fixedFees == if r.order.isMaker then e.schema.makerFixed else e.schema.takerFixed
  {
    if Filled(e, r) {
      PercentFeeIsCharge(e, r, token);
      hide FeeCharge, PercentFee, Order.UnitFee, Order.FeeToken, Order.FeeOnCost;
    }
  }

  lemma PercentFeeIsCharge(e: Exchange, r: Candidate, token: Token)
    requires Filled(e, r)
    ensures In(r.percentFee, token) == FeeCharge(e, r.order, PercentFee(e, r.order, r.amount), token)
  {
    hide Mul, Order.UnitFee, Order.FeeToken, Order.FeeOnCost, FeeCharge, PercentFee;
    UnitFeeCharge(e, r.order, r.amount);
    FeeCharged(e, r.order, PercentFee(e, r.order, r.amount), token);
  }

  lemma FeeCharged(e: Exchange, o: Order, fee: real, token: Token)
    requires e.schema.Percent(o.isMaker) == 0.0 ==> fee == fee * e.Rate(o.quote, o.FeeToken(e)) == 0.0
    requires e.Rate(o.quote, o.FeeToken(e)) == 0.0 ==> fee * e.Rate(o.quote, o.FeeToken(e)) == 0.0
    ensures o.FeeOnCost(e) ==> o.side == Buy
    ensures FeeCharge(e, o, fee, token) ==
      if !o.FeeOnCost(e) || token != o.FeeToken(e) then 0.0
      else if o.FeeToken(e) == o.quote then fee else fee * e.Rate(o.quote, o.FeeToken(e))
  {
  }

  lemma UnitFeeCharge(e: Exchange, o: Order, amount: real)
    ensures var fee, rate := PercentFee(e, o, amount), e.Rate(o.quote, o.FeeToken(e));
            && (o.side == Buy ==>
                  Mul(amount, o.UnitFee(e)) == if o.FeeToken(e) == o.quote then fee else fee * rate)
            && (e.schema.Percent(o.isMaker) == 0.0 ==> fee == fee * rate == 0.0) && (rate == 0.0 ==> fee * rate == 0.0)
  {
    hide Order.FeeToken, Exchange.Rate;
    var percent := if o.isMaker then e.schema.makerPercent else e.schema.takerPercent;
    ChargeWithRate(amount, o.price, percent, e.Rate(o.quote, o.FeeToken(e)));
  }

  lemma ChargeWithRate(amount: real, price: real, percent: real, rate: real)
    ensures Mul(amount, price * percent) == amount * price * percent
    ensures Mul(amount, price * rate * percent) == amount * price * percent * rate
    ensures percent == 0.0 ==> amount * price * percent == amount * price * percent * rate == 0.0
    ensures rate == 0.0 ==> amount * price * percent * rate == 0.0
  {
    var cost := amount * price;
    assert cost * rate * percent == cost * percent * rate;
    assert amount * (price * rate) == cost * rate;
    assert amount * ((price * rate) * percent) == (amount * (price * rate)) * percent;
  }

  lemma {:induction false} SumIsSpent(e: Exchange, rs: seq<Candidate>, token: Token)
    requires forall i :: 0 <= i < |rs| ==> Plain(e, rs[i])
    ensures SumOf(rs, token) == Spent(e, rs, token)
  {
    if rs == [] {
    } else {
      CollateralIsCharge(e, rs[0], token);
      SumIsSpent(e, rs[1..], token);
    }
  }

  /** An order fits exactly when the balances cover what it costs. */
  lemma FitsIffPaid(e: Exchange, r: Candidate, b: Balances)
    requires Plain(e, r)
    ensures Fits(r, b) <==> forall token :: token in b ==> Charge(e, r, token) <= b[token]
  {
    hide Charge, Collateral, Plain;
    forall token | token in b ensures Collateral(r, token) == Charge(e, r, token) {
      CollateralIsCharge(e, r, token);
    }
  }

  // Batches within their balances

  /** No token has more locked than its balance. */
  ghost predicate WithinBalances(e: Exchange, fromTotal: bool, locks: Locks) {
    forall token :: Locked(locks, token) <= e.Balance(token, fromTotal)
  }

  ghost predicate Uniform(e: Exchange, cs: seq<Candidate>, fromTotal: bool) {
    forall i :: 0 <= i < |cs| ==> Checked(e, cs[i]) && cs[i].order.fromTotal == fromTotal
  }

  lemma LockKeepsWithin(e: Exchange, locks: Locks, c: Candidate, allOrNone: bool)
    requires Checked(e, c) && WithinBalances(e, c.order.fromTotal, locks)
    ensures NoneNegative(Available(e, locks, Populated(e, c)))
    ensures AdjustCandidate(e, locks, c, allOrNone).Some?
    ensures var r := AdjustCandidate(e, locks, c, allOrNone).value;
            && Outcome(e, r, c, Available(e, locks, Populated(e, c)))
            && WithinBalances(e, c.order.fromTotal, Lock(locks, r)) && Cut(r, c, allOrNone) && Plain(e, r)
  {
    hide AdjustCandidate, Populated, Lock, Locked;
    PopulatedKeeps(e, c);
    var b := Available(e, locks, Populated(e, c));
    CandidateOutcome(e, locks, c, allOrNone);
    var r := AdjustCandidate(e, locks, c, allOrNone).value;
    forall token ensures Locked(Lock(locks, r), token) <= e.Balance(token, c.order.fromTotal) {
      LockAdds(locks, r, token);
      if token !in b {
        OutcomeTokens(e, r, c, b);
        NothingOutside(r, token);
      }
    }
  }

  lemma OutcomeTokens(e: Exchange, r: Candidate, c: Candidate, b: Balances)
    requires Outcome(e, r, c, b)
    ensures Tokens(r) <= Tokens(Populated(e, c))
  {
    hide Order.UnitFee, Order.UnitCollateral, Order.FeeToken, Order.FeeOnCost, Mul, Toward;
  }

  predicate AllCut(e: Exchange, rs: seq<Candidate>, cs: seq<Candidate>, allOrNone: bool) {
    |rs| == |cs| && forall i :: 0 <= i < |cs| ==> Cut(rs[i], cs[i], allOrNone) && Plain(e, rs[i])
  }

  /**
    After any batch the locks are within the balances and hold exactly the collateral handed out; no
    order grew.
   */
  lemma {:induction false} BatchWithin(e: Exchange, locks: Locks, cs: seq<Candidate>, allOrNone: bool, fromTotal: bool)
    requires Uniform(e, cs, fromTotal) && WithinBalances(e, fromTotal, locks)
    ensures var run := RunBatch(e, locks, cs, allOrNone);
            && run.Some? && AllCut(e, run.value.0, cs, allOrNone) && WithinBalances(e, fromTotal, run.value.1)
            && (forall token :: Locked(run.value.1, token) == Locked(locks, token) + SumOf(run.value.0, token))
    decreases |cs|
  {
    hide AdjustCandidate, Lock, Locked, Outcome, Cut, Plain;
    if cs == [] {
    } else {
      LockKeepsWithin(e, locks, cs[0], allOrNone);
      var r := AdjustCandidate(e, locks, cs[0], allOrNone).value;
      BatchWithin(e, Lock(locks, r), cs[1..], allOrNone, fromTotal);
      var rest := RunBatch(e, Lock(locks, r), cs[1..], allOrNone).value;
      assert ([r] + rest.0)[1..] == rest.0;
      forall token ensures Locked(rest.1, token) == Locked(locks, token) + SumOf([r] + rest.0, token) {
        LockAdds(locks, r, token);
      }
    }
  }

  /** The exchange holds that much of a token: in total, or available. */
  predicate Affords(e: Exchange, token: Token, fromTotal: bool, amount: real) {
    if fromTotal then (if token in e.balances then amount <= e.balances[token] else amount <= 0.0)
    else if token in e.availableBalances then amount <= e.availableBalances[token] else amount <= 0.0
  }

  /**
    The budget checker never hands out orders that cost more of a token than the exchange holds, and
    never more of an order than was asked for.
   */
  lemma NeverOvercommits(e: Exchange, cs: seq<Candidate>, allOrNone: bool, fromTotal: bool)
    requires Uniform(e, cs, fromTotal)
    requires forall token :: e.Balance(token, fromTotal) >= 0.0
    ensures var run := RunBatch(e, map[], cs, allOrNone);
            && run.Some? && AllCut(e, run.value.0, cs, allOrNone)
            && (forall token :: SumOf(run.value.0, token) <= e.Balance(token, fromTotal))
            && (forall token :: Affords(e, token, fromTotal, Spent(e, run.value.0, token)))
  {
    hide RunBatch, AllCut, Plain, SumOf, Spent;
    BatchWithin(e, map[], cs, allOrNone, fromTotal);
    var run := RunBatch(e, map[], cs, allOrNone).value;
    forall token
      ensures SumOf(run.0, token) <= e.Balance(token, fromTotal) && Affords(e, token, fromTotal, Spent(e, run.0, token))
    {
      assert Locked(run.1, token) <= e.Balance(token, fromTotal);
      AllPlain(e, run.0, cs, allOrNone);
      SumIsSpent(e, run.0, token);
    }
  }

  lemma AllPlain(e: Exchange, rs: seq<Candidate>, cs: seq<Candidate>, allOrNone: bool)
    requires AllCut(e, rs, cs, allOrNone)
    ensures forall i :: 0 <= i < |rs| ==> Plain(e, rs[i])
  {
  }

  /** A batch runs like its first part, then its second part on the locks the first one leaves. */
  lemma {:induction false} BatchInParts(e: Exchange, locks: Locks, cs: seq<Candidate>, ds: seq<Candidate>,
                                        allOrNone: bool)
    requires RunBatch(e, locks, cs, allOrNone).Some?
    ensures var (first, between) := RunBatch(e, locks, cs, allOrNone).value;
            RunBatch(e, locks, cs + ds, allOrNone) ==
            match RunBatch(e, between, ds, allOrNone)
            case None => None
            case Some(second) => Some((first + second.0, second.1))
    decreases |cs|
  {
    hide AdjustCandidate, Lock;
    if cs == [] {
      assert cs + ds == ds;
      if RunBatch(e, locks, ds, allOrNone).Some? {
        var second := RunBatch(e, locks, ds, allOrNone).value;
        assert [] + second.0 == second.0;
      }
    } else {
      assert (cs + ds)[1..] == cs[1..] + ds;
      var r := AdjustCandidate(e, locks, cs[0], allOrNone).value;
      BatchInParts(e, Lock(locks, r), cs[1..], ds, allOrNone);
      var (rest, between) := RunBatch(e, Lock(locks, r), cs[1..], allOrNone).value;
      if RunBatch(e, between, ds, allOrNone).Some? {
        var second := RunBatch(e, between, ds, allOrNone).value;
        assert [r] + (rest + second.0) == ([r] + rest) + second.0;
      }
    }
  }

  /** The batch with one more candidate; a candidate that raises makes the whole batch raise. */
  lemma BatchOneMore(e: Exchange, locks: Locks, cs: seq<Candidate>, k: nat, allOrNone: bool)
    requires k < |cs| && RunBatch(e, locks, cs[..k], allOrNone).Some?
    ensures var (first, between) := RunBatch(e, locks, cs[..k], allOrNone).value;
            var next := AdjustCandidate(e, between, cs[k], allOrNone);
            && (next.None? ==> RunBatch(e, locks, cs, allOrNone).None?)
            && (next.Some? ==>
                  RunBatch(e, locks, cs[..k + 1], allOrNone) == Some((first + [next.value], Lock(between, next.value))))
  {
    hide AdjustCandidate, Lock;
    BatchInParts(e, locks, cs[..k], [cs[k]], allOrNone);
    BatchInParts(e, locks, cs[..k], cs[k..], allOrNone);
    assert cs[..k] + [cs[k]] == cs[..k + 1] && cs[..k] + cs[k..] == cs && [cs[k]][1..] == [];
    var (first, between) := RunBatch(e, locks, cs[..k], allOrNone).value;
    var next := AdjustCandidate(e, between, cs[k], allOrNone);
    if next.Some? {
      assert RunBatch(e, between, [cs[k]], allOrNone) == Some(([next.value] + [], Lock(between, next.value)));
      assert [next.value] + [] == [next.value];
    }
  }

  /**
    All or none: a candidate keeps its whole order exactly when what the earlier ones leave covers it
    and it is not already marked as resized.
   */
  lemma WholeIffCovered(e: Exchange, cs: seq<Candidate>, c: Candidate, fromTotal: bool)
    requires Uniform(e, cs, fromTotal) && c.order.fromTotal == fromTotal
    requires forall token :: e.Balance(token, fromTotal) >= 0.0
    requires Checked(e, c) && c.amount > 0.0 && Sizing.Costly(e, c.order)
    ensures var earlier, later := RunBatch(e, map[], cs, true), RunBatch(e, map[], cs + [c], true);
            && earlier.Some? && later.Some?
            && var p := Populated(e, c);
               later.value.0 == earlier.value.0 +
                 [if !c.resized && Fits(p, Available(e, earlier.value.1, p)) then p else Bare(c.order)]
  {
    hide AdjustCandidate, Sizing.Costly, Fits, Lock, Populated;
    BatchWithin(e, map[], cs, true, fromTotal);
    BatchInParts(e, map[], cs, [c], true);
    var locks := RunBatch(e, map[], cs, true).value.1;
    LockKeepsWithin(e, locks, c, true);
    WholeOrNothing(e, locks, c);
    assert [c][1..] == [];
  }

  lemma WholeOrNothing(e: Exchange, locks: Locks, c: Candidate)
    requires Checked(e, c) && c.amount > 0.0 && Sizing.Costly(e, c.order)
    requires NoneNegative(Available(e, locks, Populated(e, c)))
    ensures var p := Populated(e, c);
            AdjustCandidate(e, locks, c, true) ==
            Some(if !c.resized && Fits(p, Available(e, locks, p)) then p else Bare(c.order))
  {
    hide AdjustFromBalances, Sizing.Costly, Fits, Scaled, Order.UnitFee, Order.UnitCollateral, Order.FeeToken,
      Order.FeeOnCost, Mul, Toward;
    var p := Populated(e, c);
    var b := Available(e, locks, p);
    FilledWhenChecked(e, c);
    ListedWhenAvailable(e, locks, p);
    AdjustedPasses(e, p, b);
    Sizing.LeftAloneIffFits(e, p, b);
    var a := AdjustFromBalances(p, b).value;
    CandidateOutcome(e, locks, c, true);
    if a != p || c.resized {
      assert a.resized;
      assert Scaled(a, 0.0) == Bare(c.order) by { ScaledToNothing(a); }
    }
  }

  lemma ScaledToNothing(c: Candidate)
    ensures Scaled(c, 0.0) == Bare(c.order)
  {
  }

  // Why fixed fees must not share a token

  /** The exchange with just enough for the order and each of its fixed fees alone. */
  function ThinExchange(e: Exchange, o: Order, amount: real): Exchange {
    var each := Sizing.EachFeeAlone(e, o, amount);
    e.(balances := each, availableBalances := each)
  }

  lemma ThinAvailable(e: Exchange, o: Order, amount: real)
    ensures var thin, p := ThinExchange(e, o, amount), Populated(e, Candidate(o, amount, None, None, [], false));
            && Populated(thin, Candidate(o, amount, None, None, [], false)) == p == At(e, o, amount, false)
            && Available(thin, map[], p) == Sizing.EachFeeAlone(e, o, amount)
  {
    hide Mul, Sizing.UnitVariable, Sizing.MaxIn;
    var thin := ThinExchange(e, o, amount);
    assert o.FeeOnCost(thin) == o.FeeOnCost(e) && o.FeeToken(thin) == o.FeeToken(e) && o.UnitFee(thin) == o.UnitFee(e);
  }

  /** With two positive fixed fees in one token even a batch of one order can take more than the balance. */
  lemma SharedTokenOvercommits(e: Exchange, o: Order, amount: real, allOrNone: bool) returns (token: Token)
    requires Sizing.Costly(e, o) && amount > 0.0 && !NoSharedToken(e.schema.Fixed(o.isMaker))
    ensures var thin := ThinExchange(e, o, amount);
            var run := RunBatch(thin, map[], [Candidate(o, amount, None, None, [], false)], allOrNone);
            && NoneNegative(thin.balances) && NoneNegative(thin.availableBalances)
            && run.Some? && SumOf(run.value.0, token) > thin.Balance(token, o.fromTotal)
  {
    hide Sizing.EachFeeAlone, AdjustFromBalances, Populated, Collateral, Available, Sizing.Costly, Fits;
    var fees := e.schema.Fixed(o.isMaker);
    var thin, c, p := ThinExchange(e, o, amount), Candidate(o, amount, None, None, [], false), At(e, o, amount, false);
    ThinAvailable(e, o, amount);
    Sizing.EachFeeAloneLeavesAlone(e, o, amount);
    assert AdjustCandidate(thin, map[], c, allOrNone) == Some(p) by { assert !p.resized by { PopulatedKeeps(e, c); } }
    assert [c][1..] == [] && [p][1..] == [];
    var i: nat, j: nat :| i < j < |fees| && Shared(fees, i, j);
    Sizing.SharedTokenOverruns(e, o, amount, i, j);
    token := OverrunToken(p, thin.balances);
  }

  lemma OverrunToken(c: Candidate, b: Balances) returns (token: Token)
    requires !Fits(c, b)
    ensures token in b && Collateral(c, token) > b[token]
  {
    token :| token in b && Collateral(c, token) > b[token];
  }

  // Why the balance source must be uniform

  /** Without fees the adjustment scales an order to what the balance buys, also when that is negative. */
  lemma FeelessAdjusted(e: Exchange, c: Candidate, b: Balances)
    requires Filled(e, c) && c.amount > 0.0 && c.order.UnitCollateral() > 0.0 && Lists(b, c)
    requires !c.order.FeeOnCost(e) && c.fixedFees == []
    ensures AdjustFromBalances(c, b).Some?
    ensures var have, unit := b[c.order.CollateralToken()], c.order.UnitCollateral();
            var a := AdjustFromBalances(c, b).value;
            && a.order == c.order
            && if have < Mul(c.amount, unit) then a.amount == have / unit && a.resized else a == c
  {
    hide Order.UnitCollateral, Order.FeeOnCost;
    var have, unit := b[c.order.CollateralToken()], c.order.UnitCollateral();
    assert Mul(c.amount, unit) > 0.0;
    if have < Mul(c.amount, unit) {
      ShareOfBalance(c.amount, have, unit);
    }
  }

  /** It raises exactly when the order needs nothing of a token that is overdrawn. */
  lemma FeelessRaises(e: Exchange, c: Candidate, b: Balances)
    requires Filled(e, c) && Lists(b, c) && !c.order.FeeOnCost(e) && c.fixedFees == []
    ensures AdjustFromBalances(c, b).None? <==>
            c.amount != 0.0 && c.order.UnitCollateral() == 0.0 && b[c.order.CollateralToken()] < 0.0
  {
    hide Order.UnitCollateral, Order.FeeOnCost;
    assert c.amount * c.order.UnitCollateral() == 0.0 <==> c.amount == 0.0 || c.order.UnitCollateral() == 0.0;
  }

  lemma ShareOfBalance(amount: real, have: real, unit: real)
    requires amount > 0.0 && unit > 0.0
    ensures Mul(amount, have / Mul(amount, unit)) == have / unit
  {
    var need := amount * unit;
    var s, bought := have / need, have / unit;
    assert s * need == have && bought * unit == have;
    assert (amount * s) * unit == s * need;
    assert (amount * s - bought) * unit == 0.0;
  }

  /** What a balance buys is quantized below zero exactly when the balance lacks at least one step of the order. */
  lemma LacksAStep(q: real, have: real, unit: real)
    requires q > 0.0 && unit > 0.0
    ensures Quantized(q, have / unit) < 0.0 <==> have + Mul(q, unit) <= 0.0
  {
    var bought := have / unit;
    assert bought * unit == have;
    BelowOneStep(q, bought);
    if bought <= -q {
      assert (bought + q) * unit <= 0.0;
    } else {
      assert (bought + q) * unit > 0.0;
    }
  }

  lemma BelowOneStep(q: real, a: real)
    requires q > 0.0
    ensures Quantized(q, a) < 0.0 <==> a <= -q
  {
    hide Mul;
    QuantizedToward(q, a);
    if -q < a < 0.0 {
      Ratio(a, q);
      FractionOfStep(q, a);
      assert Mul(0.0, q) == 0.0 by { NothingTimes(q); }
    }
  }

  lemma FractionOfStep(q: real, a: real)
    requires q > 0.0 && -q < a < 0.0
    ensures Truncated(a / q) == 0
  {
    var x, y := a / q, a / q + 1.0;
    assert x * q == a;
    assert y * q == a + q;
    SignOfFactor(x, q);
    SignOfFactor(y, q);
  }

  lemma SignOfFactor(x: real, q: real)
    requires q > 0.0
    ensures x > 0.0 <==> x * q > 0.0
    ensures x < 0.0 <==> x * q < 0.0
  {
  }

  lemma NothingTimes(q: real)
    ensures Mul(0.0, q) == 0.0
  {
  }

  /** Neither percent fees nor fixed fees are charged. */
  predicate Feeless(e: Exchange, c: Candidate) {
    !c.order.FeeOnCost(e) && e.schema.Fixed(c.order.isMaker) == [] && c.percentFee.None?
  }

  /**
    Whatever is locked, an order without fees comes back negative exactly when its balance lacks at
    least one step's worth of it. All or none keeps it or empties it instead.
   */
  lemma FeelessFlips(e: Exchange, locks: Locks, d: Candidate)
    requires Feeless(e, d) && HasQuantum(e, d.order) && Quantum(e, d.order) > 0.0
    requires d.amount > 0.0 && d.order.UnitCollateral() > 0.0
    ensures var token, step := d.order.CollateralToken(), Mul(Quantum(e, d.order), d.order.UnitCollateral());
            var r, whole := AdjustCandidate(e, locks, d, false), AdjustCandidate(e, locks, d, true);
            && r.Some? && (r.value.amount < 0.0 <==>
                           e.Balance(token, d.order.fromTotal) + step <= Locked(locks, token))
            && whole.Some? && whole.value.amount in {0.0, d.amount}
  {
    hide Order.UnitCollateral, Order.FeeOnCost, Quantized, Mul, AdjustFromBalances, Scaled;
    var q := Populated(e, d);
    var token, unit, quantum := d.order.CollateralToken(), d.order.UnitCollateral(), Quantum(e, d.order);
    var b := Available(e, locks, q);
    ListedWhenAvailable(e, locks, q);
    FeelessAdjusted(e, q, b);
    var a := AdjustFromBalances(q, b).value;
    LacksAStep(quantum, b[token], unit);
    ZeroScales(a);
    QuantizedToward(quantum, a.amount);
    PositiveNeed(d.amount, unit, quantum);
    if b[token] >= Mul(d.amount, unit) {
      TowardPart(Quantized(quantum, a.amount), a.amount);
    }
  }

  /**
    One order checked against the total balance, then one with the same collateral token against the
    available balance: the second is returned negative exactly when the first locked at least one of
    its steps' worth more than was available. All or none empties it instead.
   */
  lemma MixedSourcesFlip(e: Exchange, c: Candidate, d: Candidate)
    requires Feeless(e, c) && Feeless(e, d) && d.order.CollateralToken() == c.order.CollateralToken()
    requires c.order.fromTotal && !c.resized && !d.order.fromTotal
    requires HasQuantum(e, d.order) && Quantum(e, d.order) > 0.0
    requires d.amount > 0.0 && d.order.UnitCollateral() > 0.0
    requires Collateral(Populated(e, c), c.order.CollateralToken()) <= e.Balance(c.order.CollateralToken(), true)
    ensures var token, p := c.order.CollateralToken(), Populated(e, c);
            var step := Mul(Quantum(e, d.order), d.order.UnitCollateral());
            var r := RunBatch(e, map[], [c, d], false);
            var whole := RunBatch(e, map[], [c, d], true);
            && r.Some? && |r.value.0| == 2 && r.value.0[0] == p
            && (r.value.0[1].amount < 0.0 <==> e.Balance(token, false) + step <= Collateral(p, token))
            && whole.Some? && |whole.value.0| == 2 && whole.value.0[0] == p
            && whole.value.0[1].amount in {0.0, d.amount}
  {
    hide Order.UnitCollateral, Order.FeeOnCost, Mul, AdjustFromBalances, Scaled, RunBatch, Lock;
    var p := Populated(e, c);
    LockAdds(map[], p, c.order.CollateralToken());
    FeelessLeftAlone(p, Available(e, map[], p));
    FeelessFlips(e, Lock(map[], p), d);
    BatchOfTwo(e, c, d, p, false);
    BatchOfTwo(e, c, d, p, true);
  }

  lemma BatchOfTwo(e: Exchange, c: Candidate, d: Candidate, p: Candidate, allOrNone: bool)
    requires AdjustCandidate(e, map[], c, allOrNone) == Some(p)
    requires AdjustCandidate(e, Lock(map[], p), d, allOrNone).Some?
    ensures var r := RunBatch(e, map[], [c, d], allOrNone);
            r.Some? && r.value.0 == [p, AdjustCandidate(e, Lock(map[], p), d, allOrNone).value]
  {
    hide AdjustCandidate, Lock;
    assert [c, d][1..] == [d];
    BatchOfOne(e, Lock(map[], p), d, allOrNone);
  }

  lemma BatchOfOne(e: Exchange, locks: Locks, d: Candidate, allOrNone: bool)
    requires AdjustCandidate(e, locks, d, allOrNone).Some?
    ensures var r := RunBatch(e, locks, [d], allOrNone);
            r.Some? && r.value.0 == [AdjustCandidate(e, locks, d, allOrNone).value]
  {
    hide AdjustCandidate, Lock;
    var r := AdjustCandidate(e, locks, d, allOrNone).value;
    assert [d][1..] == [];
    assert RunBatch(e, Lock(locks, r), [], allOrNone) == Some(([], Lock(locks, r)));
    assert [r] + [] == [r];
  }

  lemma PositiveNeed(amount: real, unit: real, quantum: real)
    requires amount > 0.0 && unit > 0.0 && quantum > 0.0
    ensures Mul(amount, unit) > 0.0 && Mul(quantum, unit) > 0.0
  {
  }

  lemma FeelessLeftAlone(c: Candidate, b: Balances)
    requires Lists(b, c) && c.collateral.Some? && c.percentFee.None? && c.fixedFees == []
    requires c.collateral.value.amount <= b[c.collateral.value.token]
    ensures AdjustFromBalances(c, b) == Some(c)
  {
  }
}
