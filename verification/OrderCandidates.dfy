/** A spot order candidate: the collateral it needs and how it shrinks to fit the balances. */
module OrderCandidates {
  import opened Options
  import opened TradeTypes

  type Token = string

  /** A named product, so that proofs can compare products without multiplying them out. */
  function Mul(x: real, y: real): real {
    x * y
  }

  datatype TokenAmount = TokenAmount(token: Token, amount: real)

  /** The fees an exchange charges; `deducted` takes the percent fee of buys from the returns. */
  datatype FeeSchema = FeeSchema(
    percentToken: Option<Token>, makerPercent: real, takerPercent: real, deducted: bool,
    makerFixed: seq<TokenAmount>, takerFixed: seq<TokenAmount>)
  {
    function Percent(isMaker: bool): real {
      if isMaker then makerPercent else takerPercent
    }

    function Fixed(isMaker: bool): seq<TokenAmount> {
      if isMaker then makerFixed else takerFixed
    }
  }

  /** What the budget checker asks an exchange for. */
  datatype Exchange = Exchange(
    schema: FeeSchema, balances: map<Token, real>, availableBalances: map<Token, real>,
    prices: map<(Token, Token), real>, quanta: map<(Token, Token), real>)
  {
    function Balance(token: Token, fromTotal: bool): real {
      var source := if fromTotal then balances else availableBalances;
      if token in source then source[token] else 0.0
    }

    /** The price of `quote` tokens in the fee token, for fees charged in a third token. */
    function Rate(quote: Token, feeToken: Token): real {
      if (quote, feeToken) in prices then prices[(quote, feeToken)] else 0.0
    }
  }

  /** The part of a candidate that adjusting never touches. */
  datatype Order = Order(base: Token, quote: Token, isMaker: bool, side: TradeType, price: real, fromTotal: bool) {
    function CollateralToken(): Token {
      if side == Buy then quote else base
    }

    /** Collateral per unit of the order amount. */
    function UnitCollateral(): real {
      if side == Buy then price else 1.0
    }

    /** The percent fee is added to the cost of buys only, and not when it is deducted from returns. */
    predicate FeeOnCost(e: Exchange) {
      && e.schema.Percent(isMaker) != 0.0
      && side == Buy && (!e.schema.deducted || e.schema.percentToken.Some?)
    }

    function FeeToken(e: Exchange): Token {
      if e.schema.percentToken.Some? && e.schema.percentToken.value != "" then e.schema.percentToken.value
      else CollateralToken()
    }

    /** Percent fee per unit of the order amount. */
    function UnitFee(e: Exchange): real {
      var percent := e.schema.Percent(isMaker);
      if FeeToken(e) == CollateralToken() then UnitCollateral() * percent
      else UnitCollateral() * e.Rate(CollateralToken(), FeeToken(e)) * percent
    }
  }

  datatype Candidate = Candidate(
    order: Order, amount: real, collateral: Option<TokenAmount>, percentFee: Option<TokenAmount>,
    fixedFees: seq<TokenAmount>, resized: bool)
  {
    predicate IsZero() {
      amount == 0.0
    }
  }

  function Populated(e: Exchange, c: Candidate): Candidate {
    c.(collateral := Some(TokenAmount(c.order.CollateralToken(), Mul(c.amount, c.order.UnitCollateral()))),
       percentFee := if c.order.FeeOnCost(e)
                     then Some(TokenAmount(c.order.FeeToken(e), Mul(c.amount, c.order.UnitFee(e))))
                     else c.percentFee,
       fixedFees := e.schema.Fixed(c.order.isMaker))
  }

  function Times(t: Option<TokenAmount>, s: real): Option<TokenAmount> {
    match t
    case Some(a) => Some(TokenAmount(a.token, Mul(a.amount, s)))
    case None => None
  }

  function Scaled(c: Candidate, s: real): Candidate {
    if Mul(c.amount, s) == 0.0
    then c.(amount := 0.0, collateral := None, percentFee := None, fixedFees := [], resized := true)
    else c.(amount := Mul(c.amount, s), collateral := Times(c.collateral, s),
            percentFee := Times(c.percentFee, s), resized := true)
  }

  function In(t: Option<TokenAmount>, token: Token): real {
    if t.Some? && t.value.token == token then t.value.amount else 0.0
  }

  /** The collateral that grows with the order, in one token. */
  function Variable(c: Candidate, token: Token): real {
    In(c.collateral, token) + In(c.percentFee, token)
  }

  function FixedIn(fees: seq<TokenAmount>, token: Token): real {
    if fees == [] then 0.0
    else FixedIn(fees[..|fees| - 1], token) + In(Some(fees[|fees| - 1]), token)
  }

  /** An entry of `collateral_dict`. */
  function Collateral(c: Candidate, token: Token): real {
    Variable(c, token) + FixedIn(c.fixedFees, token)
  }

  type Balances = map<Token, real>

  function Tokens(c: Candidate): set<Token> {
    (if c.collateral.Some? then {c.collateral.value.token} else {})
    + (if c.percentFee.Some? then {c.percentFee.value.token} else {})
    + set i | 0 <= i < |c.fixedFees| :: c.fixedFees[i].token
  }

  predicate NoneNegative(b: Balances) {
    forall token :: token in b ==> b[token] >= 0.0
  }

  /** The balances list every token the candidate needs. */
  predicate Lists(b: Balances, c: Candidate) {
    && (c.collateral.Some? ==> c.collateral.value.token in b)
    && (c.percentFee.Some? ==> c.percentFee.value.token in b)
    && (forall i :: 0 <= i < |c.fixedFees| ==> c.fixedFees[i].token in b)
  }

  predicate Covers(b: Balances, c: Candidate) {
    Lists(b, c) && NoneNegative(b)
  }

  ghost predicate Fits(c: Candidate, b: Balances) {
    forall token :: token in b ==> Collateral(c, token) <= b[token]
  }

  /** A negative balance divided by a zero collateral raises. */
  predicate CollateralDivides(c: Candidate, b: Balances)
    requires Lists(b, c)
  {
    c.collateral.Some? && b[c.collateral.value.token] < c.collateral.value.amount ==> c.collateral.value.amount != 0.0
  }

  function AdjustCollateral(c: Candidate, b: Balances): Candidate
    requires Lists(b, c) && CollateralDivides(c, b)
  {
    if c.collateral.Some? && b[c.collateral.value.token] < c.collateral.value.amount
    then Scaled(c, b[c.collateral.value.token] / c.collateral.value.amount)
    else c
  }

  /** A percent fee in the collateral token shares its balance with the collateral. */
  function PercentFeeNeed(c: Candidate): real
    requires c.percentFee.Some?
  {
    c.percentFee.value.amount + In(c.collateral, c.percentFee.value.token)
  }

  predicate PercentFeeDivides(c: Candidate, b: Balances)
    requires Lists(b, c)
  {
    c.percentFee.Some? && b[c.percentFee.value.token] < PercentFeeNeed(c) ==> PercentFeeNeed(c) != 0.0
  }

  function AdjustPercentFee(c: Candidate, b: Balances): Candidate
    requires Lists(b, c) && PercentFeeDivides(c, b)
  {
    if c.percentFee.Some? && b[c.percentFee.value.token] < PercentFeeNeed(c)
    then Scaled(c, b[c.percentFee.value.token] / PercentFeeNeed(c))
    else c
  }

  /** One round of the loop over the fixed fees. */
  function AdjustFixedFee(c: Candidate, fee: TokenAmount, b: Balances): Candidate
    requires Lists(b, c) && fee.token in b
  {
    var left := b[fee.token] - fee.amount;
    if left < 0.0 then Scaled(c, 0.0)
    else
      var c1 := if c.collateral.Some? && fee.token == c.collateral.value.token && left < Variable(c, fee.token)
                then Scaled(c, left / Variable(c, fee.token)) else c;
      if c1.percentFee.Some? && fee.token == c1.percentFee.value.token
         && !(c1.collateral.Some? && c1.collateral.value.token == fee.token) && left < c1.percentFee.value.amount
      then Scaled(c1, left / c1.percentFee.value.amount) else c1
  }

  function AdjustFixedFees(c: Candidate, fees: seq<TokenAmount>, b: Balances): Candidate
    requires Lists(b, c) && forall i :: 0 <= i < |fees| ==> fees[i].token in b
    decreases |fees|
  {
    if fees == [] then c
    else
      var c1 := AdjustFixedFee(c, fees[0], b);
      if c1.IsZero() then c1 else AdjustFixedFees(c1, fees[1..], b)
  }

  /** `None` stands for the division error a negative balance can raise. */
  function AdjustFromBalances(c: Candidate, b: Balances): Option<Candidate>
    requires Lists(b, c)
  {
    if c.IsZero() then Some(c)
    else if !CollateralDivides(c, b) then None
    else
      var c1 := AdjustCollateral(c, b);
      if c1.IsZero() then Some(c1)
      else if !PercentFeeDivides(c1, b) then None
      else
        var c2 := AdjustPercentFee(c1, b);
        Some(if c2.IsZero() then c2 else AdjustFixedFees(c2, c2.fixedFees, b))
  }

  // Fitting

  /** Two positive fees in one token. */
  predicate Shared(fees: seq<TokenAmount>, i: nat, j: nat) {
    && i < j < |fees| && fees[i].token == fees[j].token
    && fees[i].amount > 0.0 && fees[j].amount > 0.0
  }

  predicate NoSharedToken(fees: seq<TokenAmount>) {
    forall i: nat, j: nat :: i < j < |fees| ==> !Shared(fees, i, j)
  }

  /** Shrinking what grows with the order keeps a fit, as long as the fixed part fits alone. */
  lemma ShrinkFits(s: real, v: real, f: real, b: real)
    requires 0.0 <= s <= 1.0 && v + f <= b && f <= b
    ensures s * v + f <= b
  {
    if v >= 0.0 {
      assert s * v <= v;
    } else {
      assert s * v <= 0.0;
    }
  }

  lemma QuotientShrinks(left: real, need: real)
    requires 0.0 <= left < need
    ensures 0.0 <= left / need < 1.0 && (left / need) * need == left
  {
  }

  /** Scaling a non-zero candidate scales what it needs; at zero it needs nothing. */
  lemma ScaledVariable(c: Candidate, s: real, token: Token)
    requires c.amount != 0.0
    ensures Variable(Scaled(c, s), token) == s * Variable(c, token)
  {
    if s == 0.0 {
      assert Mul(c.amount, s) == 0.0;
    } else {
      assert Mul(c.amount, s) != 0.0;
      assert In(Times(c.collateral, s), token) == s * In(c.collateral, token);
      assert In(Times(c.percentFee, s), token) == s * In(c.percentFee, token);
    }
  }

  ghost predicate VariableFits(c: Candidate, b: Balances) {
    forall token :: token in b ==> Variable(c, token) <= b[token]
  }

  /** Each of `fees` fits alone, and together with what grows with the order. */
  ghost predicate FeesFit(c: Candidate, b: Balances, fees: seq<TokenAmount>) {
    forall i :: 0 <= i < |fees| ==> FeeFits(c, b, fees[i])
  }

  predicate FeeFits(c: Candidate, b: Balances, fee: TokenAmount) {
    fee.token in b && fee.amount <= b[fee.token] && Variable(c, fee.token) + fee.amount <= b[fee.token]
  }

  /** An emptied candidate needs nothing. */
  predicate ZeroIsBare(c: Candidate) {
    c.IsZero() ==> c.collateral.None? && c.percentFee.None? && c.fixedFees == []
  }

  lemma ScalingKeeps(c: Candidate, s: real, b: Balances, fees: seq<TokenAmount>)
    requires c.amount != 0.0 && 0.0 <= s <= 1.0 && NoneNegative(b) && VariableFits(c, b) && FeesFit(c, b, fees)
    ensures VariableFits(Scaled(c, s), b) && FeesFit(Scaled(c, s), b, fees)
  {
    hide Scaled, Variable;
    forall token | token in b ensures Variable(Scaled(c, s), token) <= b[token] {
      ScaledVariable(c, s, token);
      ShrinkFits(s, Variable(c, token), 0.0, b[token]);
    }
    forall i | 0 <= i < |fees| ensures FeeFits(Scaled(c, s), b, fees[i]) {
      assert FeeFits(c, b, fees[i]);
      ScaledVariable(c, s, fees[i].token);
      ShrinkFits(s, Variable(c, fees[i].token), fees[i].amount, b[fees[i].token]);
    }
  }

  /** Scaled to `left / need`, what needed `need` needs `left`. */
  lemma ScaledToLeft(c: Candidate, left: real, token: Token)
    requires c.amount != 0.0 && 0.0 <= left < Variable(c, token)
    ensures 0.0 <= left / Variable(c, token) < 1.0
    ensures Variable(Scaled(c, left / Variable(c, token)), token) == left
  {
    hide Scaled, Variable;
    QuotientShrinks(left, Variable(c, token));
    ScaledVariable(c, left / Variable(c, token), token);
  }

  /** The collateral fits on its own. */
  predicate CollateralFits(c: Candidate, b: Balances) {
    c.collateral.Some? ==> c.collateral.value.token in b && c.collateral.value.amount <= b[c.collateral.value.token]
  }

  lemma CollateralStepFits(c: Candidate, b: Balances)
    requires Covers(b, c)
    ensures CollateralFits(AdjustCollateral(c, b), b)
  {
    if c.collateral.Some? && b[c.collateral.value.token] < c.collateral.value.amount {
      QuotientShrinks(b[c.collateral.value.token], c.collateral.value.amount);
    }
  }

  /** Every token but the percent fee's needs the collateral at most. */
  lemma OtherVariable(c: Candidate, b: Balances, token: Token)
    requires token in b && NoneNegative(b) && CollateralFits(c, b)
    requires c.percentFee.None? || c.percentFee.value.token != token
    ensures Variable(c, token) <= b[token]
  {
  }

  lemma PercentFeeStepFits(c: Candidate, b: Balances)
    requires Covers(b, c) && c.amount != 0.0 && CollateralFits(c, b)
    ensures VariableFits(AdjustPercentFee(c, b), b)
  {
    hide Scaled, Variable, CollateralFits;
    forall t | t in b ensures Variable(AdjustPercentFee(c, b), t) <= b[t] {
      NoneNegativeWhenCovered(b, c);
      PercentFeeStepFitsIn(c, b, t);
    }
  }

  lemma PercentFeeStepFitsIn(c: Candidate, b: Balances, t: Token)
    requires Covers(b, c) && c.amount != 0.0 && CollateralFits(c, b) && t in b
    ensures Variable(AdjustPercentFee(c, b), t) <= b[t]
  {
    hide Scaled, CollateralFits;
    if c.percentFee.None? {
      OtherVariable(c, b, t);
    } else {
      var token := c.percentFee.value.token;
      assert PercentFeeNeed(c) == Variable(c, token);
      if b[token] < Variable(c, token) {
        ScaledToLeft(c, b[token], token);
        ScaledVariable(c, b[token] / Variable(c, token), t);
      }
      if t != token {
        OtherVariable(c, b, t);
        var s := if b[token] < Variable(c, token) then b[token] / Variable(c, token) else 1.0;
        ShrinkFits(s, Variable(c, t), 0.0, b[t]);
      }
    }
  }

  lemma NoneNegativeWhenCovered(b: Balances, c: Candidate)
    requires Covers(b, c)
    ensures NoneNegative(b)
  {
  }

  /** A round that shrinks the order does it once, to what the fee leaves of the balance. */
  lemma FixedFeeStep(c: Candidate, fee: TokenAmount, b: Balances)
    requires Covers(b, c) && fee.token in b && c.collateral.Some? && c.amount != 0.0
    ensures var left := b[fee.token] - fee.amount;
            AdjustFixedFee(c, fee, b) ==
            if left < 0.0 then Scaled(c, 0.0)
            else if left < Variable(c, fee.token) then Scaled(c, left / Variable(c, fee.token)) else c
  {
  }

  lemma FixedFeeStepFits(c: Candidate, fee: TokenAmount, b: Balances, done: seq<TokenAmount>)
    requires Covers(b, c) && fee.token in b && c.collateral.Some? && c.amount != 0.0
    requires VariableFits(c, b) && FeesFit(c, b, done)
    ensures var c' := AdjustFixedFee(c, fee, b);
            && VariableFits(c', b) && FeesFit(c', b, done)
            && (c'.IsZero() || FeeFits(c', b, fee))
  {
    hide Covers, Scaled, Variable, AdjustFixedFee, VariableFits, FeesFit;
    var left := b[fee.token] - fee.amount;
    FixedFeeStep(c, fee, b);
    NoneNegativeWhenCovered(b, c);
    if left < 0.0 {
      ScalingKeeps(c, 0.0, b, done);
      ZeroScales(c);
    } else if left < Variable(c, fee.token) {
      ScaledToLeft(c, left, fee.token);
      ScalingKeeps(c, left / Variable(c, fee.token), b, done);
    }
  }

  lemma ZeroScales(c: Candidate)
    ensures Scaled(c, 0.0).IsZero() && ZeroIsBare(Scaled(c, 0.0))
  {
  }

  // Shape

  /** The populated candidate for `amount` of an order. */
  function At(e: Exchange, o: Order, amount: real, resized: bool): Candidate {
    Populated(e, Candidate(o, amount, None, None, [], resized))
  }

  /** The collateral entries are those of the order's amount. */
  predicate Filled(e: Exchange, c: Candidate) {
    c == At(e, c.order, c.amount, c.resized)
  }

  function Bare(o: Order): Candidate {
    Candidate(o, 0.0, None, None, [], true)
  }

  /** The candidate shrunk to `amount`. */
  function ShrunkTo(e: Exchange, c: Candidate, amount: real): Candidate {
    if amount == c.amount then c else if amount == 0.0 then Bare(c.order) else At(e, c.order, amount, true)
  }

  /** `a` lies between 0 and `b`. */
  predicate Toward(a: real, b: real) {
    (0.0 <= a <= b) || (b <= a <= 0.0)
  }

  /** What adjusting may turn a candidate into: its amount decides everything else. */
  predicate Shrunk(e: Exchange, c': Candidate, c: Candidate) {
    Toward(c'.amount, c.amount) && c' == ShrunkTo(e, c, c'.amount)
  }

  lemma Swap(a: real, u: real, s: real)
    ensures Mul(Mul(a, u), s) == Mul(Mul(a, s), u)
  {
    assert (a * u) * s == (a * s) * u;
  }

  lemma ScaledAt(e: Exchange, c: Candidate, s: real)
    requires Filled(e, c)
    ensures Scaled(c, s) == if Mul(c.amount, s) == 0.0 then Bare(c.order) else At(e, c.order, Mul(c.amount, s), true)
  {
    hide Mul, Order.UnitFee, Order.UnitCollateral, Order.FeeToken;
    Swap(c.amount, c.order.UnitCollateral(), s);
    Swap(c.amount, c.order.UnitFee(e), s);
  }

  lemma ShrinksStrictly(a: real, s: real)
    requires a != 0.0 && 0.0 <= s < 1.0
    ensures Toward(Mul(a, s), a) && Mul(a, s) != a
  {
    assert a * (1.0 - s) != 0.0;
    if a > 0.0 {
      assert 0.0 <= a * s <= a;
    } else {
      assert a <= a * s <= 0.0;
    }
  }

  lemma ScaledShrinks(e: Exchange, c: Candidate, s: real)
    requires Filled(e, c) && c.amount != 0.0 && 0.0 <= s < 1.0
    ensures Shrunk(e, Scaled(c, s), c) && Scaled(c, s).amount != c.amount
  {
    hide Mul, Toward, Scaled;
    ScaledAt(e, c, s);
    ShrinksStrictly(c.amount, s);
  }

  lemma ShrunkTwice(e: Exchange, c2: Candidate, c1: Candidate, c: Candidate)
    requires Shrunk(e, c2, c1) && Shrunk(e, c1, c) && c1.amount != 0.0
    ensures Shrunk(e, c2, c)
  {
  }

  lemma StillCovered(e: Exchange, c': Candidate, c: Candidate, b: Balances)
    requires Filled(e, c) && Covers(b, c) && Shrunk(e, c', c)
    ensures Covers(b, c') && (c'.IsZero() || c' == At(e, c.order, c'.amount, c'.resized)) && c'.order == c.order
  {
    hide Toward, Mul;
  }

  lemma CollateralStepShrinks(e: Exchange, c: Candidate, b: Balances)
    requires Filled(e, c) && Covers(b, c) && c.amount != 0.0
    ensures Shrunk(e, AdjustCollateral(c, b), c)
  {
    hide Scaled, Filled, Mul;
    if c.collateral.Some? && b[c.collateral.value.token] < c.collateral.value.amount {
      QuotientShrinks(b[c.collateral.value.token], c.collateral.value.amount);
      ScaledShrinks(e, c, b[c.collateral.value.token] / c.collateral.value.amount);
    }
  }

  lemma PercentFeeStepShrinks(e: Exchange, c: Candidate, b: Balances)
    requires Filled(e, c) && Covers(b, c) && c.amount != 0.0
    ensures Shrunk(e, AdjustPercentFee(c, b), c)
  {
    hide Scaled, Filled, Mul;
    if c.percentFee.Some? {
      var token := c.percentFee.value.token;
      if b[token] < PercentFeeNeed(c) {
        QuotientShrinks(b[token], PercentFeeNeed(c));
        ScaledShrinks(e, c, b[token] / PercentFeeNeed(c));
      }
    }
  }

  lemma FixedFeeStepShrinks(e: Exchange, c: Candidate, fee: TokenAmount, b: Balances)
    requires Filled(e, c) && Covers(b, c) && c.amount != 0.0 && fee.token in b
    ensures Shrunk(e, AdjustFixedFee(c, fee, b), c)
  {
    hide Scaled, AdjustFixedFee, Variable, Mul;
    FixedFeeStep(c, fee, b);
    var left := b[fee.token] - fee.amount;
    if left < 0.0 {
      ScaledShrinks(e, c, 0.0);
    } else if left < Variable(c, fee.token) {
      QuotientShrinks(left, Variable(c, fee.token));
      ScaledShrinks(e, c, left / Variable(c, fee.token));
    }
  }

  /** The fixed fees a round has passed fit; the order only shrank. */
  lemma {:induction false} FixedFeesFit(e: Exchange, c: Candidate, fees: seq<TokenAmount>, b: Balances,
                                        done: seq<TokenAmount>)
    requires Filled(e, c) && Covers(b, c) && c.amount != 0.0
    requires forall i :: 0 <= i < |fees| ==> fees[i].token in b
    requires VariableFits(c, b) && FeesFit(c, b, done)
    ensures var c' := AdjustFixedFees(c, fees, b);
            && Shrunk(e, c', c)
            && (c'.IsZero() || (VariableFits(c', b) && FeesFit(c', b, done + fees)))
    decreases |fees|
  {
    hide AdjustFixedFee, Mul, Toward, VariableFits, Variable;
    if fees == [] {
      assert done + fees == done;
      assert Toward(c.amount, c.amount) by { TowardItself(c.amount); }
    } else {
      var c1 := AdjustFixedFee(c, fees[0], b);
      FixedFeeStepShrinks(e, c, fees[0], b);
      StillCovered(e, c1, c, b);
      FixedFeeStepFits(c, fees[0], b, done);
      if !c1.IsZero() {
        assert done + [fees[0]] + fees[1..] == done + fees;
        FixedFeesFit(e, c1, fees[1..], b, done + [fees[0]]);
        ShrunkTwice(e, AdjustFixedFees(c1, fees[1..], b), c1, c);
      }
    }
  }

  lemma TowardItself(a: real)
    ensures Toward(a, a)
  {
  }

  /** Adjusting a non-zero order only shrinks it, and what is left of it passes every check. */
  lemma AdjustedPasses(e: Exchange, c: Candidate, b: Balances)
    requires Filled(e, c) && Covers(b, c) && c.amount != 0.0
    ensures AdjustFromBalances(c, b).Some?
    ensures var c' := AdjustFromBalances(c, b).value;
            && Shrunk(e, c', c)
            && (c'.IsZero() || (VariableFits(c', b) && FeesFit(c', b, c'.fixedFees)))
  {
    hide AdjustCollateral, AdjustPercentFee, AdjustFixedFees, VariableFits, FeesFit, FeeFits, CollateralFits, Mul,
      Toward;
    var c1 := AdjustCollateral(c, b);
    CollateralStepShrinks(e, c, b);
    CollateralStepFits(c, b);
    StillCovered(e, c1, c, b);
    if !c1.IsZero() {
      var c2 := AdjustPercentFee(c1, b);
      PercentFeeStepShrinks(e, c1, b);
      PercentFeeStepFits(c1, b);
      StillCovered(e, c2, c1, b);
      ShrunkTwice(e, c2, c1, c);
      if !c2.IsZero() {
        assert FeesFit(c2, b, []) by { NoFeesFit(c2, b); }
        FixedFeesFit(e, c2, c2.fixedFees, b, []);
        assert [] + c2.fixedFees == c2.fixedFees;
        var c3 := AdjustFixedFees(c2, c2.fixedFees, b);
        ShrunkTwice(e, c3, c2, c);
        StillCovered(e, c3, c2, b);
      }
    }
  }

  lemma NoFeesFit(c: Candidate, b: Balances)
    ensures FeesFit(c, b, [])
  {
  }

  /** Then the fees in a token cost at most its one positive fee. */
  lemma {:induction false} AtMostOneFee(fees: seq<TokenAmount>, token: Token)
    requires NoSharedToken(fees)
    ensures (forall i :: 0 <= i < |fees| && fees[i].token == token ==> fees[i].amount <= 0.0) ==>
              FixedIn(fees, token) <= 0.0
    ensures forall i :: 0 <= i < |fees| && fees[i].token == token && fees[i].amount > 0.0 ==>
              FixedIn(fees, token) <= fees[i].amount
  {
    if fees == [] {
    } else {
      var init, n := fees[..|fees| - 1], |fees| - 1;
      forall i: nat, j: nat | i < j < n ensures !Shared(init, i, j) {
        assert !Shared(fees, i, j);
      }
      AtMostOneFee(init, token);
      forall i | 0 <= i < |fees| && fees[i].token == token && fees[i].amount > 0.0
        ensures FixedIn(fees, token) <= fees[i].amount
      {
        assert forall k: nat :: k < n ==> init[k] == fees[k] && !Shared(fees, k, n);
        if i < n {
          assert init[i] == fees[i];
        }
      }
    }
  }

  lemma FitsWhenFeesFit(c: Candidate, b: Balances)
    requires VariableFits(c, b) && FeesFit(c, b, c.fixedFees) && NoSharedToken(c.fixedFees)
    ensures Fits(c, b)
  {
    forall token | token in b ensures Collateral(c, token) <= b[token] {
      AtMostOneFee(c.fixedFees, token);
      if i :| 0 <= i < |c.fixedFees| && c.fixedFees[i].token == token && c.fixedFees[i].amount > 0.0 {
        assert FeeFits(c, b, c.fixedFees[i]);
      }
    }
  }
}
