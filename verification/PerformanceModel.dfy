/** What the performance report computes from a list of trades, on values. */
module PerformanceModel {
  import opened Decimals
  import opened Options
  import opened Sequences
  import opened TradeTypes

  /** `percent` is the fee charged; `deducted` says it was taken from the returns. */
  datatype Trade = Trade(
    orderId: string, tradeType: TradeType, position: string, price: real, amount: real,
    percent: Option<real>, deducted: bool)

  // Volumes and profit of spot trades

  function DeductedFee(t: Trade): real {
    if t.percent.Some? && t.deducted then t.amount * t.price * t.percent.value else 0.0
  }

  function BuyBase(ts: seq<Trade>): real {
    if ts == [] then 0.0
    else var t := ts[|ts| - 1]; BuyBase(ts[..|ts| - 1]) + if t.tradeType.Buy? then t.amount else 0.0
  }

  function BuyQuote(ts: seq<Trade>): real {
    if ts == [] then 0.0
    else var t := ts[|ts| - 1]; BuyQuote(ts[..|ts| - 1]) + if t.tradeType.Buy? then -(t.amount * t.price) else 0.0
  }

  function SellBase(ts: seq<Trade>): real {
    if ts == [] then 0.0
    else var t := ts[|ts| - 1]; SellBase(ts[..|ts| - 1]) + if t.tradeType.Sell? then -t.amount else 0.0
  }

  /** The deducted fees of buys are booked here as well. */
  function SellQuote(ts: seq<Trade>): real {
    if ts == [] then 0.0
    else
      var t := ts[|ts| - 1];
      SellQuote(ts[..|ts| - 1]) + (if t.tradeType.Sell? then t.amount * t.price else 0.0) - DeductedFee(t)
  }

  function NetBase(ts: seq<Trade>): real {
    BuyBase(ts) + SellBase(ts)
  }

  function NetQuote(ts: seq<Trade>): real {
    BuyQuote(ts) + SellQuote(ts)
  }

  /** What holding the starting balances would be worth now, from the current ones. */
  function HoldValue(base: real, quote: real, ts: seq<Trade>, price: real): real {
    (base - NetBase(ts)) * price + (quote - NetQuote(ts))
  }

  function CurrentValue(base: real, quote: real, price: real): real {
    base * price + quote
  }

  function CurrentPrice(rate: Option<real>, ts: seq<Trade>): real
    requires ts != []
  {
    match rate
    case Some(r) => r
    case None => ts[|ts| - 1].price
  }

  function BuyGains(ts: seq<Trade>, price: real): real {
    if ts == [] then 0.0
    else
      var t := ts[|ts| - 1];
      BuyGains(ts[..|ts| - 1], price) + if t.tradeType.Buy? then t.amount * (price - t.price) else 0.0
  }

  function SellGains(ts: seq<Trade>, price: real): real {
    if ts == [] then 0.0
    else
      var t := ts[|ts| - 1];
      SellGains(ts[..|ts| - 1], price) + if t.tradeType.Sell? then t.amount * (t.price - price) else 0.0
  }

  function DeductedFees(ts: seq<Trade>): real {
    if ts == [] then 0.0 else DeductedFees(ts[..|ts| - 1]) + DeductedFee(ts[|ts| - 1])
  }

  lemma VolumesOfOneMore(ts: seq<Trade>, i: nat)
    requires i < |ts|
    ensures BuyBase(ts[..i + 1]) == BuyBase(ts[..i]) + if ts[i].tradeType.Buy? then ts[i].amount else 0.0
    ensures SellBase(ts[..i + 1]) == SellBase(ts[..i]) + if ts[i].tradeType.Sell? then -ts[i].amount else 0.0
    ensures BuyQuote(ts[..i + 1]) ==
      BuyQuote(ts[..i]) + if ts[i].tradeType.Buy? then -(ts[i].amount * ts[i].price) else 0.0
    ensures SellQuote(ts[..i + 1]) ==
      SellQuote(ts[..i]) + (if ts[i].tradeType.Sell? then ts[i].amount * ts[i].price else 0.0) - DeductedFee(ts[i])
  {
    hide DeductedFee;
    assert ts[..i + 1][..i] == ts[..i];
  }

  lemma NoVolumes()
    ensures BuyBase([]) == SellBase([]) == BuyQuote([]) == SellQuote([]) == 0.0
  {
  }

  lemma NetIsSum(ts: seq<Trade>)
    ensures NetBase(ts) == BuyBase(ts) + SellBase(ts) && NetQuote(ts) == BuyQuote(ts) + SellQuote(ts)
  {
  }

  /** The last trade adds its volumes and its gain. */
  lemma LastTrade(ts: seq<Trade>, price: real)
    requires ts != []
    ensures var t, rest := ts[|ts| - 1], ts[..|ts| - 1];
            var base := if t.tradeType.Buy? then t.amount else if t.tradeType.Sell? then -t.amount else 0.0;
            var quote := if t.tradeType.Buy? then -(t.amount * t.price)
                         else if t.tradeType.Sell? then t.amount * t.price else 0.0;
            var gain := if t.tradeType.Buy? then t.amount * (price - t.price)
                        else if t.tradeType.Sell? then t.amount * (t.price - price) else 0.0;
            && NetBase(ts) == NetBase(rest) + base
            && NetQuote(ts) == NetQuote(rest) + quote - DeductedFee(t)
            && BuyGains(ts, price) + SellGains(ts, price) == BuyGains(rest, price) + SellGains(rest, price) + gain
            && DeductedFees(ts) == DeductedFees(rest) + DeductedFee(t)
            && base * price + quote == gain
  {
    hide DeductedFee;
    GainOfOne(ts[|ts| - 1], price);
  }

  lemma {:induction false} NetValueIsGain(ts: seq<Trade>, price: real)
    ensures NetBase(ts) * price + NetQuote(ts) == BuyGains(ts, price) + SellGains(ts, price) - DeductedFees(ts)
  {
    if ts == [] {
    } else {
      var t, rest := ts[|ts| - 1], ts[..|ts| - 1];
      var base := if t.tradeType.Buy? then t.amount else if t.tradeType.Sell? then -t.amount else 0.0;
      NetValueIsGain(rest, price);
      LastTrade(ts, price);
      Distribute(NetBase(rest), base, price);
    }
  }

  lemma Distribute(a: real, b: real, p: real)
    ensures (a + b) * p == a * p + b * p
  {
  }

  lemma GainOfOne(t: Trade, price: real)
    ensures t.amount * price - t.amount * t.price == t.amount * (price - t.price)
    ensures (-t.amount) * price + t.amount * t.price == t.amount * (t.price - price)
  {
  }

  function Profit(ts: seq<Trade>, price: real): real {
    NetBase(ts) * price + NetQuote(ts)
  }

  /** The reported profit is what the trades gained at the current price, whatever the balances are. */
  lemma {:induction false} ProfitIsGain(base: real, quote: real, ts: seq<Trade>, price: real)
    ensures CurrentValue(base, quote, price) - HoldValue(base, quote, ts, price)
         == Profit(ts, price) == BuyGains(ts, price) + SellGains(ts, price) - DeductedFees(ts)
  {
    NetValueIsGain(ts, price);
    Distribute(base, -NetBase(ts), price);
    Distribute(NetBase(ts), -NetBase(ts), price);
  }

  /** A deducted fee takes its percentage off what a sale brings, and comes on top of what a purchase costs. */
  lemma CashOfTrade(t: Trade)
    ensures var percent := if t.deducted && t.percent.Some? then t.percent.value else 0.0;
            match t.tradeType
            case Buy => NetBase([t]) == t.amount && NetQuote([t]) == -(1.0 + percent) * (t.amount * t.price)
            case Sell => NetBase([t]) == -t.amount && NetQuote([t]) == (1.0 - percent) * (t.amount * t.price)
            case Range => NetBase([t]) == 0.0 && NetQuote([t]) == -percent * (t.amount * t.price)
  {
    var one := [t];
    assert one[..|one| - 1] == [] && one[|one| - 1] == t;
    var percent := if t.deducted && t.percent.Some? then t.percent.value else 0.0;
    assert DeductedFee(t) == percent * (t.amount * t.price);
    hide DeductedFee;
    assert BuyBase([]) == SellBase([]) == BuyQuote([]) == SellQuote([]) == 0.0;
    assert NetBase(one) == (if t.tradeType.Buy? then t.amount else if t.tradeType.Sell? then -t.amount else 0.0);
    Distribute(1.0, percent, t.amount * t.price);
    Distribute(1.0, -percent, t.amount * t.price);
  }

  /** A trade adds its own volumes. */
  lemma NetOfOneMore(ts: seq<Trade>, t: Trade)
    ensures NetBase(ts + [t]) == NetBase(ts) + NetBase([t]) && NetQuote(ts + [t]) == NetQuote(ts) + NetQuote([t])
  {
    hide DeductedFee;
    var more, one := ts + [t], [t];
    assert more[..|more| - 1] == ts && more[|more| - 1] == t;
    assert one[..|one| - 1] == [] && one[|one| - 1] == t;
    assert BuyBase([]) == SellBase([]) == BuyQuote([]) == SellQuote([]) == 0.0;
    assert BuyBase(more) == BuyBase(ts) + BuyBase(one);
    assert SellBase(more) == SellBase(ts) + SellBase(one);
    assert BuyQuote(more) == BuyQuote(ts) + BuyQuote(one);
    assert SellQuote(more) == SellQuote(ts) + SellQuote(one);
  }

  lemma {:induction false} WithoutOne(ts: seq<Trade>, k: nat)
    requires k < |ts|
    ensures var rest := RemoveAt(ts, k);
            NetBase(ts) == NetBase(rest) + NetBase([ts[k]]) && NetQuote(ts) == NetQuote(rest) + NetQuote([ts[k]])
    decreases |ts|
  {
    hide NetBase, NetQuote;
    var init, last := ts[..|ts| - 1], ts[|ts| - 1];
    assert ts == init + [last];
    NetOfOneMore(init, last);
    if k == |ts| - 1 {
      assert RemoveAt(ts, k) == init;
    } else {
      WithoutOne(init, k);
      assert RemoveAt(ts, k) == RemoveAt(init, k) + [last];
      NetOfOneMore(RemoveAt(init, k), last);
    }
  }

  /** The volumes do not depend on the order of the trades. */
  lemma {:induction false} NetIgnoresOrder(ts: seq<Trade>, us: seq<Trade>)
    requires multiset(ts) == multiset(us)
    ensures NetBase(ts) == NetBase(us) && NetQuote(ts) == NetQuote(us)
    decreases |ts|
  {
    if ts == [] {
      assert |us| == |multiset(us)| == 0;
    } else {
      var n := |ts| - 1;
      var last := ts[n];
      assert last in multiset(us);
      var k :| 0 <= k < |us| && us[k] == last;
      WithoutOne(ts, n);
      WithoutOne(us, k);
      assert multiset(RemoveAt(ts, n)) == multiset(ts) - multiset{last} by { RemovedFrom(ts, n); }
      assert multiset(RemoveAt(us, k)) == multiset(us) - multiset{last} by { RemovedFrom(us, k); }
      NetIgnoresOrder(RemoveAt(ts, n), RemoveAt(us, k));
    }
  }

  lemma RemovedFrom(ts: seq<Trade>, k: nat)
    requires k < |ts|
    ensures multiset(RemoveAt(ts, k)) == multiset(ts) - multiset{ts[k]}
  {
    assert ts == ts[..k] + [ts[k]] + ts[k + 1..];
  }

  /**
   * Reordering trades leaves the profit alone if there is a rate; without one the last trade's price
   * stands in, and then exactly when the volumes cancel or the last prices agree.
   */
  lemma ProfitIgnoresOrder(ts: seq<Trade>, us: seq<Trade>, rate: Option<real>)
    requires ts != [] && multiset(ts) == multiset(us)
    ensures us != []
    ensures Profit(ts, CurrentPrice(rate, ts)) == Profit(us, CurrentPrice(rate, us)) <==>
            rate.Some? || NetBase(ts) == 0.0 || ts[|ts| - 1].price == us[|us| - 1].price
  {
    NetIgnoresOrder(ts, us);
    assert |us| == |multiset(us)| == |multiset(ts)| == |ts|;
    SameProduct(NetBase(ts), CurrentPrice(rate, ts), CurrentPrice(rate, us));
  }

  lemma SameProduct(base: real, p: real, q: real)
    ensures base * p == base * q <==> base == 0.0 || p == q
  {
    if base * p == base * q {
      assert base * (p - q) == 0.0;
    }
  }

  function OfType(ts: seq<Trade>, tradeType: TradeType): seq<Trade> {
    if ts == [] then []
    else
      var before, t := OfType(ts[..|ts| - 1], tradeType), ts[|ts| - 1];
      if t.tradeType == tradeType then before + [t] else before
  }

  /** Every trade is listed under its type as often as it was given, and under no other. */
  lemma {:induction false} ListedByType(ts: seq<Trade>, tradeType: TradeType, t: Trade)
    ensures multiset(OfType(ts, tradeType))[t] == if t.tradeType == tradeType then multiset(ts)[t] else 0
  {
    if ts == [] {
    } else {
      ListedByType(ts[..|ts| - 1], tradeType, t);
      assert ts == ts[..|ts| - 1] + [ts[|ts| - 1]];
    }
  }

  // Averages

  function Divide(value: real, divisor: real): real {
    if divisor == 0.0 then 0.0 else value / divisor
  }

  function AveragePrice(quote: real, base: real): real {
    Abs(Divide(quote, base))
  }

  /** The part of a holding's value that is in the base token. */
  function BaseShare(base: real, quote: real, price: real): real {
    Divide(base * price, base * price + quote)
  }

  /** The share of a holding that is worth something is the base token's part of its worth. */
  lemma BaseShareOfWorth(base: real, quote: real, price: real)
    ensures var worth := CurrentValue(base, quote, price);
            if worth == 0.0 then BaseShare(base, quote, price) == 0.0
            else BaseShare(base, quote, price) * worth == worth - quote
  {
  }

  predicate BuysWithin(ts: seq<Trade>, low: real, high: real) {
    forall i :: 0 <= i < |ts| && ts[i].tradeType.Buy? ==> ts[i].amount > 0.0 && low <= ts[i].price <= high
  }

  lemma {:induction false} BoughtFor(ts: seq<Trade>, low: real, high: real)
    requires BuysWithin(ts, low, high)
    ensures BuyBase(ts) >= 0.0 && (BuyBase(ts) == 0.0 <==> BuyQuote(ts) == BuyBase(ts) == 0.0)
    ensures low * BuyBase(ts) <= -BuyQuote(ts) <= high * BuyBase(ts)
    ensures (exists i :: 0 <= i < |ts| && ts[i].tradeType.Buy?) ==> BuyBase(ts) > 0.0
  {
    if ts == [] {
    } else {
      var t, rest := ts[|ts| - 1], ts[..|ts| - 1];
      BoughtFor(rest, low, high);
      if t.tradeType.Buy? {
        BoughtOneMore(BuyBase(rest), -BuyQuote(rest), t.amount, t.price, low, high);
      }
    }
  }

  lemma BoughtOneMore(base: real, cost: real, amount: real, price: real, low: real, high: real)
    requires low * base <= cost <= high * base && amount > 0.0 && low <= price <= high
    ensures low * (base + amount) <= cost + amount * price <= high * (base + amount)
  {
    assert amount * (price - low) >= 0.0 && amount * (high - price) >= 0.0;
    Distribute(base, amount, low);
    Distribute(base, amount, high);
  }

  /** The average buy price lies between the lowest and the highest price paid. */
  lemma AverageBuyWithin(ts: seq<Trade>, low: real, high: real)
    requires 0.0 <= low && BuysWithin(ts, low, high) && exists i :: 0 <= i < |ts| && ts[i].tradeType.Buy?
    ensures low <= AveragePrice(BuyQuote(ts), BuyBase(ts)) <= high
  {
    hide BuyBase, BuyQuote;
    BoughtFor(ts, low, high);
    AverageOfCost(-BuyQuote(ts), BuyBase(ts), low, high);
    assert -(-BuyQuote(ts)) == BuyQuote(ts);
  }

  lemma AverageOfCost(cost: real, base: real, low: real, high: real)
    requires base > 0.0 && 0.0 <= low && low * base <= cost <= high * base
    ensures low <= AveragePrice(-cost, base) <= high
  {
    MeanWithin(cost, base, low, high);
    assert -cost / base == -(cost / base);
  }

  // Fills of one order

  function SumAmount(ts: seq<Trade>): real {
    if ts == [] then 0.0 else SumAmount(ts[..|ts| - 1]) + ts[|ts| - 1].amount
  }

  function SumPrice(ts: seq<Trade>): real {
    if ts == [] then 0.0 else SumPrice(ts[..|ts| - 1]) + ts[|ts| - 1].price
  }

  /** The distinct order ids, in order of first appearance. */
  function Ids(ts: seq<Trade>): (ids: seq<string>)
    ensures forall i, j :: 0 <= i < j < |ids| ==> ids[i] != ids[j]
    ensures forall i :: 0 <= i < |ts| ==> ts[i].orderId in ids
    ensures forall id :: id in ids ==> exists i :: 0 <= i < |ts| && ts[i].orderId == id
  {
    if ts == [] then []
    else
      var before := Ids(ts[..|ts| - 1]);
      if ts[|ts| - 1].orderId in before then before else before + [ts[|ts| - 1].orderId]
  }

  function Group(ts: seq<Trade>, id: string): seq<Trade> {
    if ts == [] then []
    else
      var before := Group(ts[..|ts| - 1], id);
      if ts[|ts| - 1].orderId == id then before + [ts[|ts| - 1]] else before
  }

  /** One order for a group of fills: the first fill with the group's total amount and unweighted mean price. */
  function Merged(group: seq<Trade>): Trade
    requires group != []
  {
    group[0].(price := SumPrice(group) / |group| as real, amount := SumAmount(group))
  }

  lemma {:induction false} GroupIsEmptyIff(ts: seq<Trade>, id: string)
    ensures Group(ts, id) != [] <==> id in Ids(ts)
    ensures forall t :: t in Group(ts, id) ==> t in ts && t.orderId == id
  {
    if ts == [] {
    } else {
      GroupIsEmptyIff(ts[..|ts| - 1], id);
    }
  }

  /** Every order's fills merged, in order of first appearance, for the first `n` order ids. */
  function MergedUpTo(ts: seq<Trade>, n: nat): (ms: seq<Trade>)
    requires n <= |Ids(ts)|
    ensures |ms| == n
  {
    if n == 0 then []
    else
      var id := Ids(ts)[n - 1];
      assert Group(ts, id) != [] by { GroupIsEmptyIff(ts, id); }
      MergedUpTo(ts, n - 1) + [Merged(Group(ts, id))]
  }

  function Aggregated(ts: seq<Trade>): seq<Trade> {
    MergedUpTo(ts, |Ids(ts)|)
  }

  function GroupAmounts(ts: seq<Trade>, ids: seq<string>): real {
    if ids == [] then 0.0 else GroupAmounts(ts, ids[..|ids| - 1]) + SumAmount(Group(ts, ids[|ids| - 1]))
  }

  lemma {:induction false} GroupAmountsAppend(ts: seq<Trade>, t: Trade, ids: seq<string>)
    requires forall i, j :: 0 <= i < j < |ids| ==> ids[i] != ids[j]
    ensures GroupAmounts(ts + [t], ids) == GroupAmounts(ts, ids) + if t.orderId in ids then t.amount else 0.0
  {
    if ids == [] {
    } else {
      GroupAmountsAppend(ts, t, ids[..|ids| - 1]);
      assert (ts + [t])[..|ts|] == ts;
      var group := Group(ts, t.orderId);
      assert (group + [t])[..|group|] == group;
    }
  }

  lemma GroupOfOneMore(ts: seq<Trade>, t: Trade)
    requires t.orderId !in Ids(ts)
    ensures SumAmount(Group(ts + [t], t.orderId)) == t.amount
  {
    GroupIsEmptyIff(ts, t.orderId);
    assert (ts + [t])[..|ts|] == ts && [] + [t] == [t] && [t][..0] == [];
  }

  lemma {:induction false} GroupAmountsTotal(ts: seq<Trade>)
    ensures GroupAmounts(ts, Ids(ts)) == SumAmount(ts)
  {
    hide Group;
    if ts == [] {
    } else {
      var init, t := ts[..|ts| - 1], ts[|ts| - 1];
      assert init + [t] == ts;
      GroupAmountsTotal(init);
      GroupAmountsAppend(init, t, Ids(init));
      if t.orderId !in Ids(init) {
        GroupOfOneMore(init, t);
        var ids := Ids(init) + [t.orderId];
        assert ids[..|ids| - 1] == Ids(init);
      }
    }
  }

  lemma {:induction false} MergedAmounts(ts: seq<Trade>, n: nat)
    requires n <= |Ids(ts)|
    ensures SumAmount(MergedUpTo(ts, n)) == GroupAmounts(ts, Ids(ts)[..n])
    decreases n
  {
    hide Group, Ids;
    if n == 0 {
    } else {
      MergedAmounts(ts, n - 1);
      var ms, ids := MergedUpTo(ts, n), Ids(ts)[..n];
      assert ms[..n - 1] == MergedUpTo(ts, n - 1) && ids[..n - 1] == Ids(ts)[..n - 1];
    }
  }

  /** Aggregating fills keeps their total amount. */
  lemma AggregationConserves(ts: seq<Trade>)
    ensures SumAmount(Aggregated(ts)) == SumAmount(ts)
  {
    MergedAmounts(ts, |Ids(ts)|);
    assert Ids(ts)[..|Ids(ts)|] == Ids(ts);
    GroupAmountsTotal(ts);
  }

  lemma {:induction false} SumPriceWithin(group: seq<Trade>, low: real, high: real)
    requires forall t :: t in group ==> low <= t.price <= high
    ensures low * |group| as real <= SumPrice(group) <= high * |group| as real
  {
    if group == [] {
    } else {
      var n := |group| as real;
      SumPriceWithin(group[..|group| - 1], low, high);
      assert low * (n - 1.0) + low == low * n && high * (n - 1.0) + high == high * n;
    }
  }

  lemma {:induction false} MergedAt(ts: seq<Trade>, n: nat, k: nat)
    requires k < n <= |Ids(ts)|
    ensures Group(ts, Ids(ts)[k]) != [] && MergedUpTo(ts, n)[k] == Merged(Group(ts, Ids(ts)[k]))
    decreases n
  {
    GroupIsEmptyIff(ts, Ids(ts)[k]);
    if k < n - 1 {
      MergedAt(ts, n - 1, k);
    }
  }

  /** There is one order for each order id; its price lies between the prices of its fills. */
  lemma AggregatedAt(ts: seq<Trade>, k: nat, low: real, high: real)
    requires k < |Ids(ts)|
    requires forall t :: t in Group(ts, Ids(ts)[k]) ==> low <= t.price <= high
    ensures |Aggregated(ts)| == |Ids(ts)| && Group(ts, Ids(ts)[k]) != []
    ensures var a := Aggregated(ts)[k];
            && a.orderId == Ids(ts)[k] && low <= a.price <= high && a.amount == SumAmount(Group(ts, Ids(ts)[k]))
            && var first := Group(ts, Ids(ts)[k])[0]; a.(price := first.price, amount := first.amount) == first
  {
    hide Group, MergedUpTo, SumPrice, SumAmount;
    var group := Group(ts, Ids(ts)[k]);
    MergedAt(ts, |Ids(ts)|, k);
    GroupIsEmptyIff(ts, Ids(ts)[k]);
    assert group[0] in group;
    SumPriceWithin(group, low, high);
    MeanWithin(SumPrice(group), |group| as real, low, high);
  }

  /** The merged price is the mean of the fills' prices, each counting the same whatever its amount. */
  lemma MergedPrice(group: seq<Trade>, k: nat, t: Trade)
    requires k < |group|
    ensures var n := |group| as real;
            Merged(group[k := t]).price * n == Merged(group).price * n + t.price - group[k].price
    ensures (forall u :: u in group ==> u.price == t.price) ==> Merged(group).price == t.price
  {
    hide SumPrice, Merged;
    MergedMean(group);
    MergedMean(group[k := t]);
    PriceMoves(group, k, t);
    if forall u :: u in group ==> u.price == t.price {
      SumPriceWithin(group, t.price, t.price);
      MeanOf(SumPrice(group), |group| as real, Merged(group).price, t.price);
    }
  }

  lemma MergedMean(group: seq<Trade>)
    requires group != []
    ensures Merged(group).price * |group| as real == SumPrice(group)
  {
  }

  lemma MeanOf(sum: real, n: real, x: real, y: real)
    requires n > 0.0 && x * n == sum && y * n <= sum <= y * n
    ensures x == y
  {
    assert (x - y) * n == 0.0;
  }

  lemma {:induction false} PriceMoves(group: seq<Trade>, k: nat, t: Trade)
    requires k < |group|
    ensures SumPrice(group[k := t]) == SumPrice(group) + t.price - group[k].price
  {
    var n := |group|;
    if k == n - 1 {
      assert group[k := t][..n - 1] == group[..n - 1];
    } else {
      PriceMoves(group[..n - 1], k, t);
      assert group[k := t][..n - 1] == group[..n - 1][k := t];
    }
  }

  lemma MeanWithin(sum: real, n: real, low: real, high: real)
    requires n > 0.0 && low * n <= sum <= high * n
    ensures low <= sum / n <= high
  {
    assert low == (low * n) / n && high == (high * n) / n;
  }

  /** The fills after merging: the first fill of each order is overwritten, the others stay as they were. */
  function Merging(ts: seq<Trade>): (ms: seq<Trade>)
    ensures |ms| == |ts|
  {
    seq(|ts|, i requires 0 <= i < |ts| =>
      var group := Group(ts, ts[i].orderId);
      if ts[i].orderId in Ids(ts[..i]) || group == [] then ts[i] else Merged(group))
  }

  /** The amounts of all fills but the first of each order. */
  function RepeatedAmount(ts: seq<Trade>): real {
    if ts == [] then 0.0
    else
      var init, t := ts[..|ts| - 1], ts[|ts| - 1];
      RepeatedAmount(init) + if t.orderId in Ids(init) then t.amount else 0.0
  }

  lemma IdsOneMore(ts: seq<Trade>, n: nat)
    requires n < |ts|
    ensures Ids(ts[..n + 1]) == if ts[n].orderId in Ids(ts[..n]) then Ids(ts[..n]) else Ids(ts[..n]) + [ts[n].orderId]
    ensures RepeatedAmount(ts[..n + 1]) ==
      RepeatedAmount(ts[..n]) + if ts[n].orderId in Ids(ts[..n]) then ts[n].amount else 0.0
  {
    assert ts[..n + 1][..n] == ts[..n];
  }

  lemma MergingAt(ts: seq<Trade>, n: nat)
    requires n < |ts|
    ensures Merging(ts)[n].amount ==
      if ts[n].orderId in Ids(ts[..n]) then ts[n].amount else SumAmount(Group(ts, ts[n].orderId))
  {
    hide Group, Ids, SumPrice, SumAmount;
    assert Group(ts, ts[n].orderId) != [] by { GroupIsEmptyIff(ts, ts[n].orderId); }
  }

  lemma MergingOneMore(ts: seq<Trade>, n: nat)
    requires n < |ts|
    ensures SumAmount(Merging(ts)[..n + 1]) == SumAmount(Merging(ts)[..n]) +
      if ts[n].orderId in Ids(ts[..n]) then ts[n].amount else SumAmount(Group(ts, ts[n].orderId))
  {
    hide Group, Ids, Merging;
    MergingAt(ts, n);
    assert Merging(ts)[..n + 1][..n] == Merging(ts)[..n];
  }

  lemma {:induction false} MergingUpTo(ts: seq<Trade>, n: nat)
    requires n <= |ts|
    ensures SumAmount(Merging(ts)[..n]) == GroupAmounts(ts, Ids(ts[..n])) + RepeatedAmount(ts[..n])
  {
    hide Group, SumAmount, Ids, Merging, RepeatedAmount;
    if n == 0 {
      NothingMerged();
      assert ts[..0] == [] && Merging(ts)[..0] == [];
    } else {
      MergingUpTo(ts, n - 1);
      IdsOneMore(ts, n - 1);
      MergingOneMore(ts, n - 1);
      var before, id := Ids(ts[..n - 1]), ts[n - 1].orderId;
      assert (before + [id])[..|before|] == before;
    }
  }

  lemma NothingMerged()
    ensures SumAmount([]) == RepeatedAmount([]) == 0.0 && Ids([]) == []
  {
  }

  /** Read over the same fills afterwards, every amount but the first of its order counts twice. */
  lemma MergingCountsTwice(ts: seq<Trade>)
    ensures SumAmount(Merging(ts)) == SumAmount(ts) + RepeatedAmount(ts)
  {
    MergingUpTo(ts, |ts|);
    assert ts[..|ts|] == ts && Merging(ts)[..|ts|] == Merging(ts);
    GroupAmountsTotal(ts);
  }

  // Pairing of derivative positions

  function Holding(ts: seq<Trade>, position: string): seq<Trade> {
    if ts == [] then [] else (if ts[0].position == position then [ts[0]] else []) + Holding(ts[1..], position)
  }

  function Zip<T, U>(xs: seq<T>, ys: seq<U>): seq<(T, U)> {
    if xs == [] || ys == [] then [] else [(xs[0], ys[0])] + Zip(xs[1..], ys[1..])
  }

  function LongPnl(pairs: seq<(Trade, Trade)>): real {
    if pairs == [] then 0.0
    else
      var (open, close) := pairs[|pairs| - 1];
      LongPnl(pairs[..|pairs| - 1]) + (close.price - open.price) * close.amount
  }

  function ShortPnl(pairs: seq<(Trade, Trade)>): real {
    if pairs == [] then 0.0
    else
      var (open, close) := pairs[|pairs| - 1];
      ShortPnl(pairs[..|pairs| - 1]) + (open.price - close.price) * close.amount
  }

  function LongGain(pair: (Trade, Trade)): real {
    (pair.1.price - pair.0.price) * pair.1.amount
  }

  function ShortGain(pair: (Trade, Trade)): real {
    (pair.0.price - pair.1.price) * pair.1.amount
  }

  /** The profit of each pair, the long pairs first. */
  function Gains(longs: seq<(Trade, Trade)>, shorts: seq<(Trade, Trade)>): (gains: seq<real>)
    ensures |gains| == |longs| + |shorts|
    ensures forall i :: 0 <= i < |longs| ==> gains[i] == LongGain(longs[i])
    ensures forall i :: 0 <= i < |shorts| ==> gains[|longs| + i] == ShortGain(shorts[i])
  {
    if shorts != [] then Gains(longs, shorts[..|shorts| - 1]) + [ShortGain(shorts[|shorts| - 1])]
    else if longs != [] then Gains(longs[..|longs| - 1], []) + [LongGain(longs[|longs| - 1])]
    else []
  }

  lemma OneMoreLong(longs: seq<(Trade, Trade)>, i: nat)
    requires i < |longs|
    ensures Gains(longs[..i + 1], []) == Gains(longs[..i], []) + [LongGain(longs[i])]
  {
    assert longs[..i + 1][..i] == longs[..i];
  }

  lemma OneMoreShort(longs: seq<(Trade, Trade)>, shorts: seq<(Trade, Trade)>, i: nat)
    requires i < |shorts|
    ensures Gains(longs, shorts[..i + 1]) == Gains(longs, shorts[..i]) + [ShortGain(shorts[i])]
  {
    assert shorts[..i + 1][..i] == shorts[..i];
  }

  function Sum(xs: seq<real>): real {
    if xs == [] then 0.0 else Sum(xs[..|xs| - 1]) + xs[|xs| - 1]
  }

  lemma {:induction false} GainsAddUp(longs: seq<(Trade, Trade)>, shorts: seq<(Trade, Trade)>)
    ensures Sum(Gains(longs, shorts)) == LongPnl(longs) + ShortPnl(shorts)
    decreases |longs| + |shorts|
  {
    var gains := Gains(longs, shorts);
    if shorts != [] {
      GainsAddUp(longs, shorts[..|shorts| - 1]);
      assert gains[..|gains| - 1] == Gains(longs, shorts[..|shorts| - 1]);
    } else if longs != [] {
      GainsAddUp(longs[..|longs| - 1], []);
      assert gains[..|gains| - 1] == Gains(longs[..|longs| - 1], []);
    }
  }

  /** Opened positions are closed first in, first out, on each side. */
  function PairedPnl(buys: seq<Trade>, sells: seq<Trade>): real {
    LongPnl(Zip(Holding(buys, "OPEN"), Holding(sells, "CLOSE")))
    + ShortPnl(Zip(Holding(sells, "OPEN"), Holding(buys, "CLOSE")))
  }

  lemma {:induction false} ZipAt<T, U>(xs: seq<T>, ys: seq<U>, k: nat)
    ensures |Zip(xs, ys)| == if |xs| < |ys| then |xs| else |ys|
    ensures k < |Zip(xs, ys)| ==> Zip(xs, ys)[k] == (xs[k], ys[k])
  {
    if xs == [] || ys == [] {
    } else {
      ZipAt(xs[1..], ys[1..], if k == 0 then 0 else k - 1);
    }
  }

  lemma ZipStep<T, U>(xs: seq<T>, ys: seq<U>)
    ensures Zip(xs, ys) == if xs == [] || ys == [] then [] else [(xs[0], ys[0])] + Zip(xs[1..], ys[1..])
  {
  }

  lemma {:induction false} ShortIsLossOfLong(pairs: seq<(Trade, Trade)>)
    ensures ShortPnl(pairs) == -LongPnl(pairs)
  {
    if pairs == [] {
    } else {
      var p := pairs[|pairs| - 1];
      ShortIsLossOfLong(pairs[..|pairs| - 1]);
      assert (p.0.price - p.1.price) * p.1.amount == -((p.1.price - p.0.price) * p.1.amount);
    }
  }

  /** The other side of every position gains what this side loses. */
  lemma SwappedSidesLose(buys: seq<Trade>, sells: seq<Trade>)
    ensures PairedPnl(sells, buys) == -PairedPnl(buys, sells)
  {
    ShortIsLossOfLong(Zip(Holding(buys, "OPEN"), Holding(sells, "CLOSE")));
    ShortIsLossOfLong(Zip(Holding(sells, "OPEN"), Holding(buys, "CLOSE")));
  }

  /** What the orders of one kind in the pairs trade for. */
  function Turnover(ts: seq<Trade>): real {
    if ts == [] then 0.0 else ts[0].amount * ts[0].price + Turnover(ts[1..])
  }

  /** What closing the pairs brings, and what the closed amounts cost to open. */
  function Proceeds(pairs: seq<(Trade, Trade)>): real {
    if pairs == [] then 0.0
    else Proceeds(pairs[..|pairs| - 1]) + pairs[|pairs| - 1].1.amount * pairs[|pairs| - 1].1.price
  }

  function Cost(pairs: seq<(Trade, Trade)>): real {
    if pairs == [] then 0.0
    else Cost(pairs[..|pairs| - 1]) + pairs[|pairs| - 1].1.amount * pairs[|pairs| - 1].0.price
  }

  /** A long position gains its proceeds less its cost, a short one its cost less its proceeds. */
  lemma {:induction false} ProceedsLessCost(pairs: seq<(Trade, Trade)>)
    ensures LongPnl(pairs) == Proceeds(pairs) - Cost(pairs)
    ensures ShortPnl(pairs) == Cost(pairs) - Proceeds(pairs)
  {
    if pairs == [] {
    } else {
      ProceedsLessCost(pairs[..|pairs| - 1]);
      var (open, close) := pairs[|pairs| - 1];
      Distribute(close.price, -open.price, close.amount);
      Distribute(open.price, -close.price, close.amount);
    }
  }

  /** Every opening order is paired with a closing one of its amount. */
  predicate Matched(opens: seq<Trade>, closes: seq<Trade>) {
    |opens| == |closes| && forall i :: 0 <= i < |opens| ==> opens[i].amount == closes[i].amount
  }

  lemma {:induction false} MatchedTurnover(opens: seq<Trade>, closes: seq<Trade>)
    requires Matched(opens, closes)
    ensures Proceeds(Zip(opens, closes)) == Turnover(closes) && Cost(Zip(opens, closes)) == Turnover(opens)
  {
    if opens == [] {
    } else {
      assert Matched(opens[1..], closes[1..]);
      MatchedTurnover(opens[1..], closes[1..]);
      OneMorePair((opens[0], closes[0]), Zip(opens[1..], closes[1..]));
    }
  }

  lemma {:induction false} OneMorePair(pair: (Trade, Trade), pairs: seq<(Trade, Trade)>)
    ensures Proceeds([pair] + pairs) == pair.1.amount * pair.1.price + Proceeds(pairs)
    ensures Cost([pair] + pairs) == pair.1.amount * pair.0.price + Cost(pairs)
  {
    var all := [pair] + pairs;
    if pairs == [] {
      assert all == [pair] && all[..0] == [];
    } else {
      OneMorePair(pair, pairs[..|pairs| - 1]);
      assert all[..|all| - 1] == [pair] + pairs[..|pairs| - 1] && all[|all| - 1] == pairs[|pairs| - 1];
    }
  }

  /** Every trade opens or closes a position. */
  predicate OpensOrCloses(ts: seq<Trade>) {
    forall i :: 0 <= i < |ts| ==> ts[i].position == "OPEN" || ts[i].position == "CLOSE"
  }

  lemma {:induction false} TurnoverByPosition(ts: seq<Trade>)
    requires OpensOrCloses(ts)
    ensures Turnover(ts) == Turnover(Holding(ts, "OPEN")) + Turnover(Holding(ts, "CLOSE"))
  {
    if ts == [] {
    } else {
      hide Holding;
      TurnoverByPosition(ts[1..]);
      HoldingTurnover(ts, "OPEN");
      HoldingTurnover(ts, "CLOSE");
    }
  }

  lemma HoldingTurnover(ts: seq<Trade>, position: string)
    requires ts != []
    ensures Turnover(Holding(ts, position)) == Turnover(Holding(ts[1..], position)) +
      if ts[0].position == position then ts[0].amount * ts[0].price else 0.0
  {
    var rest := Holding(ts[1..], position);
    assert ([ts[0]] + rest)[1..] == rest && [] + rest == rest;
  }

  /** Once every position is closed in full, the paired profit is what selling brought less what buying cost. */
  lemma ClosedPositionsEarnCash(buys: seq<Trade>, sells: seq<Trade>)
    requires OpensOrCloses(buys) && OpensOrCloses(sells)
    requires Matched(Holding(buys, "OPEN"), Holding(sells, "CLOSE"))
    requires Matched(Holding(sells, "OPEN"), Holding(buys, "CLOSE"))
    ensures PairedPnl(buys, sells) == Turnover(sells) - Turnover(buys)
  {
    hide Turnover, Proceeds, Cost, LongPnl, ShortPnl, Holding, Zip;
    ProceedsLessCost(Zip(Holding(buys, "OPEN"), Holding(sells, "CLOSE")));
    ProceedsLessCost(Zip(Holding(sells, "OPEN"), Holding(buys, "CLOSE")));
    MatchedTurnover(Holding(buys, "OPEN"), Holding(sells, "CLOSE"));
    MatchedTurnover(Holding(sells, "OPEN"), Holding(buys, "CLOSE"));
    TurnoverByPosition(buys);
    TurnoverByPosition(sells);
  }
}
