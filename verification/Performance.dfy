/** The performance report: it merges fills in place and pairs positions by emptying two lists. */
module Performances {
  import opened Decimals
  import opened Options
  import opened Sequences
  import opened TradeTypes
  import M = PerformanceModel

  class TradeFill {
    const orderId: string
    const tradeType: TradeType
    const position: string
    const percent: Option<real>
    const deducted: bool
    var price: real
    var amount: real

    constructor (t: M.Trade)
      ensures View() == t
    {
      orderId, tradeType, position, percent, deducted := t.orderId, t.tradeType, t.position, t.percent, t.deducted;
      price, amount := t.price, t.amount;
    }

    function View(): M.Trade
      reads this
    {
      M.Trade(orderId, tradeType, position, price, amount, percent, deducted)
    }
  }

  function Values(fills: seq<TradeFill>): (vs: seq<M.Trade>)
    reads fills
    ensures |vs| == |fills| && forall i :: 0 <= i < |fills| ==> vs[i] == fills[i].View()
  {
    if fills == [] then [] else Values(fills[..|fills| - 1]) + [fills[|fills| - 1].View()]
  }

  // Merging the fills of one order

  function OrderIds(fills: seq<TradeFill>): seq<string> {
    if fills == [] then []
    else
      var before, id := OrderIds(fills[..|fills| - 1]), fills[|fills| - 1].orderId;
      if id in before then before else before + [id]
  }

  function Members(fills: seq<TradeFill>, id: string): seq<TradeFill> {
    if fills == [] then []
    else
      var before, o := Members(fills[..|fills| - 1], id), fills[|fills| - 1];
      if o.orderId == id then before + [o] else before
  }

  lemma {:induction false} OrderIdsOnValues(fills: seq<TradeFill>)
    ensures OrderIds(fills) == M.Ids(Values(fills))
  {
    if fills == [] {
    } else {
      OrderIdsOnValues(fills[..|fills| - 1]);
      assert Values(fills)[..|fills| - 1] == Values(fills[..|fills| - 1]);
    }
  }

  lemma {:induction false} MembersOnValues(fills: seq<TradeFill>, id: string)
    ensures Values(Members(fills, id)) == M.Group(Values(fills), id)
  {
    if fills == [] {
    } else {
      var before, o := Members(fills[..|fills| - 1], id), fills[|fills| - 1];
      MembersOnValues(fills[..|fills| - 1], id);
      assert Values(fills)[..|fills| - 1] == Values(fills[..|fills| - 1]);
      assert (before + [o])[..|before|] == before;
    }
  }

  lemma {:induction false} MembersIn(fills: seq<TradeFill>, id: string)
    ensures forall o :: o in Members(fills, id) ==> o in fills && o.orderId == id
    ensures Members(fills, id) == [] <==> id !in OrderIds(fills)
  {
    if fills == [] {
    } else {
      MembersIn(fills[..|fills| - 1], id);
    }
  }

  /** The first member of a group is the first fill of its order. */
  lemma {:induction false} FirstMember(fills: seq<TradeFill>, k: nat)
    requires k < |fills| && fills[k].orderId !in OrderIds(fills[..k])
    ensures Members(fills, fills[k].orderId) != [] && Members(fills, fills[k].orderId)[0] == fills[k]
  {
    var init := fills[..|fills| - 1];
    if k == |fills| - 1 {
      MembersIn(init, fills[k].orderId);
    } else {
      assert init[..k] == fills[..k];
      FirstMember(init, k);
    }
  }

  method GroupOrders(orders: seq<TradeFill>) returns (groups: map<string, seq<TradeFill>>, ids: seq<string>)
    ensures ids == OrderIds(orders)
    ensures forall id :: id in groups <==> id in ids
    ensures forall id :: id in groups ==> groups[id] == Members(orders, id)
  {
    groups, ids := map[], [];
    var i := 0;
    while i < |orders|
      invariant 0 <= i <= |orders|
      invariant ids == OrderIds(orders[..i])
      invariant forall id :: id in groups <==> id in ids
      invariant forall id :: id in groups ==> groups[id] == Members(orders[..i], id)
    {
      var id := orders[i].orderId;
      assert orders[..i + 1][..i] == orders[..i];
      MembersIn(orders[..i], id);
      var group := if id in groups then groups[id] else [];
      if id !in groups {
        ids := ids + [id];
      }
      groups := groups[id := group + [orders[i]]];
      i := i + 1;
    }
    assert orders[..i] == orders;
  }

  method SumOf(group: seq<TradeFill>) returns (prices: real, amounts: real)
    ensures prices == M.SumPrice(Values(group)) && amounts == M.SumAmount(Values(group))
  {
    prices, amounts := 0.0, 0.0;
    var i := 0;
    while i < |group|
      invariant 0 <= i <= |group|
      invariant prices == M.SumPrice(Values(group)[..i]) && amounts == M.SumAmount(Values(group)[..i])
    {
      assert Values(group)[..i + 1][..i] == Values(group)[..i];
      prices, amounts := prices + group[i].price, amounts + group[i].amount;
      i := i + 1;
    }
    assert Values(group)[..i] == Values(group);
  }

  /** The first fill of a group becomes the whole order. */
  method MergeInto(group: seq<TradeFill>) returns (first: TradeFill)
    requires group != []
    modifies group[0]
    ensures first == group[0] && first.View() == M.Merged(old(Values(group)))
  {
    var prices, amounts := SumOf(group);
    first := group[0];
    first.price := prices / |group| as real;
    first.amount := amounts;
  }

  /** No fill belongs to two of the groups, and none is empty. */
  ghost predicate Apart(groups: seq<seq<TradeFill>>) {
    && (forall j :: 0 <= j < |groups| ==> groups[j] != [])
    && (forall j, k, i, l :: 0 <= j < k < |groups| && 0 <= i < |groups[j]| && 0 <= l < |groups[k]| ==>
          groups[j][i] != groups[k][l])
  }

  function Firsts(groups: seq<seq<TradeFill>>): set<TradeFill> {
    set j | 0 <= j < |groups| && groups[j] != [] :: groups[j][0]
  }

  method MergeGroups(groups: seq<seq<TradeFill>>) returns (aggregated: seq<TradeFill>)
    requires Apart(groups)
    modifies Firsts(groups)
    ensures |aggregated| == |groups|
    ensures forall j :: 0 <= j < |groups| ==> aggregated[j] == groups[j][0]
    ensures forall j :: 0 <= j < |groups| ==> aggregated[j].View() == M.Merged(old(Values(groups[j])))
  {
    hide M.Merged, Values;
    aggregated := [];
    var k := 0;
    while k < |groups|
      invariant 0 <= k <= |groups| && |aggregated| == k
      invariant forall j :: 0 <= j < k ==> aggregated[j] == groups[j][0]
      invariant forall j :: 0 <= j < k ==> aggregated[j].View() == M.Merged(old(Values(groups[j])))
      invariant forall j, i :: k <= j < |groups| && 0 <= i < |groups[j]| ==>
        groups[j][i].View() == old(groups[j][i].View())
    {
      assert groups[k][0] in Firsts(groups);
      assert Values(groups[k]) == old(Values(groups[k]));
      var first := MergeInto(groups[k]);
      aggregated := aggregated + [first];
      k := k + 1;
    }
  }

  ghost predicate InGroups(fills: seq<TradeFill>, groups: seq<seq<TradeFill>>) {
    && |groups| == |OrderIds(fills)|
    && forall j :: 0 <= j < |groups| ==> groups[j] == Members(fills, OrderIds(fills)[j])
  }

  lemma GroupsApart(fills: seq<TradeFill>, groups: seq<seq<TradeFill>>)
    requires InGroups(fills, groups)
    ensures Apart(groups) && Firsts(groups) <= set o | o in fills
  {
    hide OrderIds, Members;
    IdsDistinct(fills);
    forall j | 0 <= j < |groups|
      ensures groups[j] != [] && forall o :: o in groups[j] ==> o in fills && o.orderId == OrderIds(fills)[j]
    {
      MembersIn(fills, OrderIds(fills)[j]);
    }
    forall j, k, i, l | 0 <= j < k < |groups| && 0 <= i < |groups[j]| && 0 <= l < |groups[k]|
      ensures groups[j][i] != groups[k][l]
    {
      assert groups[j][i] in groups[j] && groups[k][l] in groups[k];
    }
  }

  lemma IdsDistinct(fills: seq<TradeFill>)
    ensures forall j, k :: 0 <= j < k < |OrderIds(fills)| ==> OrderIds(fills)[j] != OrderIds(fills)[k]
  {
    OrderIdsOnValues(fills);
  }

  lemma GroupValues(fills: seq<TradeFill>, groups: seq<seq<TradeFill>>)
    requires InGroups(fills, groups)
    ensures |groups| == |M.Ids(Values(fills))|
    ensures forall j :: 0 <= j < |groups| ==> Values(groups[j]) == M.Group(Values(fills), M.Ids(Values(fills))[j])
  {
    hide OrderIds, Members, Values, M.Ids, M.Group;
    OrderIdsOnValues(fills);
    forall j | 0 <= j < |groups| ensures Values(groups[j]) == M.Group(Values(fills), M.Ids(Values(fills))[j]) {
      MembersOnValues(fills, OrderIds(fills)[j]);
    }
  }

  lemma FirstInGroups(fills: seq<TradeFill>, groups: seq<seq<TradeFill>>, i: nat) returns (j: nat)
    requires InGroups(fills, groups) && i < |fills| && fills[i].orderId !in OrderIds(fills[..i])
    ensures j < |groups| && groups[j] != [] && groups[j][0] == fills[i]
  {
    FirstMember(fills, i);
    MembersIn(fills, fills[i].orderId);
    j :| 0 <= j < |OrderIds(fills)| && OrderIds(fills)[j] == fills[i].orderId;
  }

  ghost predicate Distinct(fills: seq<TradeFill>) {
    forall i, j :: 0 <= i < j < |fills| ==> fills[i] != fills[j]
  }

  lemma {:induction false} FirstOccurrence(fills: seq<TradeFill>, id: string) returns (k: nat)
    requires id in OrderIds(fills)
    ensures k < |fills| && fills[k].orderId == id && id !in OrderIds(fills[..k])
  {
    var init := fills[..|fills| - 1];
    if id in OrderIds(init) {
      k := FirstOccurrence(init, id);
      assert init[..k] == fills[..k];
    } else {
      k := |fills| - 1;
    }
  }

  lemma OnlyFirstInGroups(fills: seq<TradeFill>, groups: seq<seq<TradeFill>>, i: nat, j: nat)
    requires InGroups(fills, groups) && Distinct(fills) && i < |fills| && fills[i].orderId in OrderIds(fills[..i])
    requires j < |groups| && groups[j] != []
    ensures groups[j][0] != fills[i]
  {
    hide OrderIds, Members;
    MembersIn(fills, OrderIds(fills)[j]);
    assert groups[j][0] in groups[j];
    if groups[j][0] == fills[i] {
      var k := FirstOccurrence(fills[..i], fills[i].orderId);
      assert fills[..i][..k] == fills[..k];
      FirstMember(fills, k);
    }
  }

  /** After merging, the list of fills reads like `Merging` of what it was. */
  lemma MergedInPlace(orders: seq<TradeFill>, aggregated: seq<TradeFill>, was: seq<M.Trade>)
    requires |was| == |orders| && forall i :: 0 <= i < |orders| ==> orders[i].orderId == was[i].orderId
    requires Values(aggregated) == M.Aggregated(was)
    requires forall i :: 0 <= i < |orders| ==> (orders[i] in aggregated <==> was[i].orderId !in M.Ids(was[..i]))
    requires forall i :: 0 <= i < |orders| && orders[i] !in aggregated ==> orders[i].View() == was[i]
    ensures Values(orders) == M.Merging(was)
  {
    hide M.Ids, M.Group, M.MergedUpTo, M.Merged, Values;
    forall i | 0 <= i < |orders| ensures orders[i].View() == M.Merging(was)[i] {
      M.GroupIsEmptyIff(was, was[i].orderId);
      if orders[i] in aggregated {
        var j :| 0 <= j < |aggregated| && aggregated[j] == orders[i];
        M.MergedAt(was, |M.Ids(was)|, j);
        MergedKeepsId(was, j);
      }
    }
  }

  lemma MergedKeepsId(was: seq<M.Trade>, j: nat)
    requires j < |M.Ids(was)| && M.Group(was, M.Ids(was)[j]) != []
    ensures M.Merged(M.Group(was, M.Ids(was)[j])).orderId == M.Ids(was)[j]
  {
    hide M.Ids, M.Group;
    var group := M.Group(was, M.Ids(was)[j]);
    M.GroupIsEmptyIff(was, M.Ids(was)[j]);
    assert group[0] in group;
  }

  lemma {:induction false} PrefixIds(orders: seq<TradeFill>, was: seq<M.Trade>, i: nat)
    requires |was| == |orders| && i <= |orders|
    requires forall k :: 0 <= k < |orders| ==> orders[k].orderId == was[k].orderId
    ensures OrderIds(orders[..i]) == M.Ids(was[..i])
  {
    if i == 0 {
    } else {
      PrefixIds(orders, was, i - 1);
      assert orders[..i][..i - 1] == orders[..i - 1] && was[..i][..i - 1] == was[..i - 1];
    }
  }

  lemma MergedAll(was: seq<M.Trade>, ms: seq<M.Trade>)
    requires |ms| == |M.Ids(was)|
    requires forall j :: 0 <= j < |ms| ==>
      M.Group(was, M.Ids(was)[j]) != [] && ms[j] == M.Merged(M.Group(was, M.Ids(was)[j]))
    ensures ms == M.Aggregated(was)
  {
    hide M.Ids, M.Group, M.MergedUpTo, M.Merged;
    forall j | 0 <= j < |ms| ensures ms[j] == M.Aggregated(was)[j] {
      M.MergedAt(was, |M.Ids(was)|, j);
    }
  }

  /** Exactly the first fill of each order is overwritten, with the merged order. */
  method AggregateOrders(orders: seq<TradeFill>) returns (aggregated: seq<TradeFill>)
    modifies orders
    ensures Values(aggregated) == M.Aggregated(old(Values(orders)))
    ensures forall o :: o in aggregated ==> o in orders
    ensures forall i :: 0 <= i < |orders| && orders[i].orderId !in OrderIds(orders[..i]) ==> orders[i] in aggregated
    ensures forall o :: o in orders && o !in aggregated ==> o.View() == old(o.View())
    ensures Distinct(orders) ==> Values(orders) == M.Merging(old(Values(orders)))
  {
    hide OrderIds, Members, Values, M.Ids, M.Group, M.Merged, M.Aggregated, M.Merging, Apart, Distinct;
    ghost var was := Values(orders);
    var groups, ids := GroupOrders(orders);
    var inOrder := seq(|ids|, j requires 0 <= j < |ids| => groups[ids[j]]);
    GroupsApart(orders, inOrder);
    GroupValues(orders, inOrder);
    GroupsNonEmpty(inOrder);
    aggregated := MergeGroups(inOrder);
    assert forall j :: 0 <= j < |aggregated| ==> aggregated[j] in Firsts(inOrder);
    forall i | 0 <= i < |orders| && orders[i].orderId !in OrderIds(orders[..i]) ensures orders[i] in aggregated {
      var j := FirstInGroups(orders, inOrder, i);
      assert aggregated[j] == orders[i];
    }
    MergedAll(was, Values(aggregated));
    if Distinct(orders) {
      forall i | 0 <= i < |orders| ensures orders[i] in aggregated <==> was[i].orderId !in M.Ids(was[..i]) {
        PrefixIds(orders, was, i);
        if orders[i] in aggregated && orders[i].orderId in OrderIds(orders[..i]) {
          var j :| 0 <= j < |aggregated| && aggregated[j] == orders[i];
          OnlyFirstInGroups(orders, inOrder, i, j);
        }
      }
      MergedInPlace(orders, aggregated, was);
    }
  }

  lemma GroupsNonEmpty(groups: seq<seq<TradeFill>>)
    requires Apart(groups)
    ensures forall j :: 0 <= j < |groups| ==> groups[j] != [] && Values(groups[j]) != []
  {
  }

  // Pairing positions

  /** A list the pairing removes orders from. */
  class FillList {
    var items: seq<TradeFill>

    constructor (items: seq<TradeFill>)
      ensures this.items == items
    {
      this.items := items;
    }
  }

  function With(fills: seq<TradeFill>, position: string): seq<TradeFill> {
    if fills == [] then []
    else (if fills[0].position == position then [fills[0]] else []) + With(fills[1..], position)
  }

  lemma {:induction false} WithOnValues(fills: seq<TradeFill>, position: string)
    ensures Values(With(fills, position)) == M.Holding(Values(fills), position)
  {
    hide Values;
    if fills == [] {
      assert Values([]) == [];
    } else {
      WithOnValues(fills[1..], position);
      assert Values(fills)[1..] == Values(fills[1..]);
      assert Values([fills[0]]) == [fills[0].View()];
      var head := if fills[0].position == position then [fills[0]] else [];
      assert Values(head + With(fills[1..], position)) == Values(head) + Values(With(fills[1..], position));
    }
  }

  /** The index of the first order in a position, or the length of the list. */
  method FirstWith(fills: seq<TradeFill>, position: string) returns (k: nat)
    ensures k <= |fills| && (k < |fills| ==> fills[k].position == position)
    ensures forall i :: 0 <= i < k ==> fills[i].position != position
  {
    k := 0;
    while k < |fills| && fills[k].position != position
      invariant k <= |fills| && forall i :: 0 <= i < k ==> fills[i].position != position
    {
      k := k + 1;
    }
  }

  lemma {:induction false} FirstIsHead(fills: seq<TradeFill>, k: nat, position: string)
    requires k <= |fills| && forall i :: 0 <= i < k ==> fills[i].position != position
    requires k < |fills| ==> fills[k].position == position
    ensures With(fills, position) == [] <==> k == |fills|
    ensures k < |fills| ==>
      With(fills, position)[0] == fills[k] && With(RemoveAt(fills, k), position) == With(fills, position)[1..]
  {
    if k > 0 {
      FirstIsHead(fills[1..], k - 1, position);
      if k < |fills| {
        assert RemoveAt(fills, k)[1..] == RemoveAt(fills[1..], k - 1);
      }
    } else if fills != [] {
      assert RemoveAt(fills, 0) == fills[1..];
    }
  }

  lemma {:induction false} OthersStay(fills: seq<TradeFill>, k: nat, position: string)
    requires k < |fills| && fills[k].position != position
    ensures With(RemoveAt(fills, k), position) == With(fills, position)
  {
    if k > 0 {
      OthersStay(fills[1..], k - 1, position);
      assert RemoveAt(fills, k)[1..] == RemoveAt(fills[1..], k - 1);
    } else {
      assert RemoveAt(fills, 0) == fills[1..];
    }
  }

  /** Takes the first order of `open` that opens a position and the first of `close` that closes one, or none. */
  method PositionOrder(open: FillList, close: FillList) returns (pair: Option<(TradeFill, TradeFill)>)
    requires open != close
    modifies open, close
    ensures With(open.items, "CLOSE") == old(With(open.items, "CLOSE"))
    ensures With(close.items, "OPEN") == old(With(close.items, "OPEN"))
    ensures var opens, closes := old(With(open.items, "OPEN")), old(With(close.items, "CLOSE"));
            if opens == [] || closes == [] then
              pair == None && open.items == old(open.items) && close.items == old(close.items)
            else
              && pair == Some((opens[0], closes[0]))
              && With(open.items, "OPEN") == opens[1..] && With(close.items, "CLOSE") == closes[1..]
              && |open.items| == |old(open.items)| - 1 && |close.items| == |old(close.items)| - 1
  {
    hide With;
    var k := FirstWith(open.items, "OPEN");
    var l := FirstWith(close.items, "CLOSE");
    FirstIsHead(open.items, k, "OPEN");
    FirstIsHead(close.items, l, "CLOSE");
    if k == |open.items| || l == |close.items| {
      return None;
    }
    OthersStay(open.items, k, "CLOSE");
    OthersStay(close.items, l, "OPEN");
    pair := Some((open.items[k], close.items[l]));
    open.items := RemoveAt(open.items, k);
    close.items := RemoveAt(close.items, l);
  }

  /** What is still to be paired. */
  function ToPair(open: seq<TradeFill>, close: seq<TradeFill>): seq<(TradeFill, TradeFill)> {
    M.Zip(With(open, "OPEN"), With(close, "CLOSE"))
  }

  method AppendPair(pairs: seq<(TradeFill, TradeFill)>, open: FillList, close: FillList)
    returns (more: seq<(TradeFill, TradeFill)>, found: bool)
    requires open != close
    modifies open, close
    ensures more + ToPair(open.items, close.items) == pairs + old(ToPair(open.items, close.items))
    ensures ToPair(close.items, open.items) == old(ToPair(close.items, open.items))
    ensures found <==> old(ToPair(open.items, close.items)) != []
    ensures !found ==> ToPair(open.items, close.items) == []
    ensures |open.items| <= |old(open.items)| && |close.items| <= |old(close.items)|
    ensures found ==> |open.items| < |old(open.items)|
  {
    hide With, M.Zip;
    M.ZipStep(With(open.items, "OPEN"), With(close.items, "CLOSE"));
    var pair := PositionOrder(open, close);
    found := pair.Some?;
    more := if found then pairs + [pair.value] else pairs;
  }

  /** The two interleaved queues are two plain zips, whatever the order of the lists. */
  method PairPositions(buys: FillList, sells: FillList)
    returns (long: seq<(TradeFill, TradeFill)>, short: seq<(TradeFill, TradeFill)>)
    requires buys != sells
    modifies buys, sells
    ensures long == M.Zip(old(With(buys.items, "OPEN")), old(With(sells.items, "CLOSE")))
    ensures short == M.Zip(old(With(sells.items, "OPEN")), old(With(buys.items, "CLOSE")))
  {
    hide With, M.Zip;
    long, short := [], [];
    ghost var longs, shorts := ToPair(buys.items, sells.items), ToPair(sells.items, buys.items);
    while true
      invariant long + ToPair(buys.items, sells.items) == longs
      invariant short + ToPair(sells.items, buys.items) == shorts
      decreases |buys.items| + |sells.items|
    {
      hide ToPair;
      var lng, sht;
      long, lng := AppendPair(long, buys, sells);
      short, sht := AppendPair(short, sells, buys);
      if !lng && !sht {
        break;
      }
    }
  }

  function ValuePairs(pairs: seq<(TradeFill, TradeFill)>): (vs: seq<(M.Trade, M.Trade)>)
    reads set p | p in pairs :: p.0, set p | p in pairs :: p.1
    ensures |vs| == |pairs|
    ensures forall i :: 0 <= i < |pairs| ==> vs[i] == (pairs[i].0.View(), pairs[i].1.View())
  {
    if pairs == [] then [] else [(pairs[0].0.View(), pairs[0].1.View())] + ValuePairs(pairs[1..])
  }

  lemma ZipOnValues(xs: seq<TradeFill>, ys: seq<TradeFill>)
    ensures ValuePairs(M.Zip(xs, ys)) == M.Zip(Values(xs), Values(ys))
  {
    hide M.Zip, ValuePairs, Values;
    M.ZipAt(xs, ys, 0);
    M.ZipAt(Values(xs), Values(ys), 0);
    forall k | 0 <= k < |M.Zip(xs, ys)| ensures ValuePairs(M.Zip(xs, ys))[k] == M.Zip(Values(xs), Values(ys))[k] {
      M.ZipAt(xs, ys, k);
      M.ZipAt(Values(xs), Values(ys), k);
    }
  }

  /** One profit for each pair, the long pairs first. */
  method DerivativePnl(long: seq<(TradeFill, TradeFill)>, short: seq<(TradeFill, TradeFill)>) returns (pnls: seq<real>)
    ensures pnls == M.Gains(ValuePairs(long), ValuePairs(short))
  {
    hide ValuePairs, M.Gains;
    pnls := [];
    var i := 0;
    ghost var longs, shorts := ValuePairs(long), ValuePairs(short);
    assert longs[..0] == [] && M.Gains([], []) == [];
    while i < |long|
      invariant 0 <= i <= |long| && pnls == M.Gains(longs[..i], [])
    {
      M.OneMoreLong(longs, i);
      var pnl := (long[i].1.price - long[i].0.price) * long[i].1.amount;
      assert pnl == M.LongGain(longs[i]);
      pnls := pnls + [pnl];
      i := i + 1;
    }
    assert longs[..i] == longs && shorts[..0] == [];
    i := 0;
    while i < |short|
      invariant 0 <= i <= |short| && pnls == M.Gains(longs, shorts[..i])
    {
      M.OneMoreShort(longs, shorts, i);
      var pnl := (short[i].0.price - short[i].1.price) * short[i].1.amount;
      assert pnl == M.ShortGain(shorts[i]);
      pnls := pnls + [pnl];
      i := i + 1;
    }
    assert shorts[..i] == shorts;
  }

  method SumPnls(pnls: seq<real>) returns (total: real)
    ensures total == M.Sum(pnls)
  {
    total := 0.0;
    var i := 0;
    while i < |pnls|
      invariant 0 <= i <= |pnls| && total == M.Sum(pnls[..i])
    {
      assert pnls[..i + 1][..i] == pnls[..i];
      total := total + pnls[i];
      i := i + 1;
    }
    assert pnls[..i] == pnls;
  }

  method PairAndSum(buys: seq<TradeFill>, sells: seq<TradeFill>) returns (pnl: real)
    ensures pnl == M.PairedPnl(Values(buys), Values(sells))
  {
    hide *;
    var buyList := new FillList(buys);
    var sellList := new FillList(sells);
    var long, short := PairPositions(buyList, sellList);
    var pnls := DerivativePnl(long, short);
    pnl := SumPnls(pnls);
    M.GainsAddUp(ValuePairs(long), ValuePairs(short));
    PairsOnValues(buys, sells);
    PairsOnValues(sells, buys);
    PairedPnlIs(Values(buys), Values(sells));
  }

  lemma PairsOnValues(open: seq<TradeFill>, close: seq<TradeFill>)
    ensures ValuePairs(M.Zip(With(open, "OPEN"), With(close, "CLOSE")))
         == M.Zip(M.Holding(Values(open), "OPEN"), M.Holding(Values(close), "CLOSE"))
  {
    hide *;
    WithOnValues(open, "OPEN");
    WithOnValues(close, "CLOSE");
    ZipOnValues(With(open, "OPEN"), With(close, "CLOSE"));
  }

  lemma PairedPnlIs(buys: seq<M.Trade>, sells: seq<M.Trade>)
    ensures M.PairedPnl(buys, sells) ==
      M.LongPnl(M.Zip(M.Holding(buys, "OPEN"), M.Holding(sells, "CLOSE")))
      + M.ShortPnl(M.Zip(M.Holding(sells, "OPEN"), M.Holding(buys, "CLOSE")))
  {
  }

  /** The profit of the closed positions. */
  method PositionsPnl(buys: seq<TradeFill>, sells: seq<TradeFill>) returns (pnl: real)
    requires forall b, s :: b in buys && s in sells ==> b != s
    modifies buys, sells
    ensures pnl == M.PairedPnl(M.Aggregated(old(Values(buys))), M.Aggregated(old(Values(sells))))
  {
    hide Values, M.Aggregated, M.PairedPnl, M.Merging, OrderIds, Distinct;
    var mergedBuys := AggregateOrders(buys);
    forall i | 0 <= i < |sells| ensures sells[i].View() == old(sells[i].View()) {
      assert sells[i] in sells;
    }
    assert Values(sells) == old(Values(sells));
    label between:
    var mergedSells := AggregateOrders(sells);
    forall i | 0 <= i < |mergedBuys| ensures mergedBuys[i].View() == old@between(mergedBuys[i].View()) {
      assert mergedBuys[i] in mergedBuys && mergedBuys[i] in buys;
    }
    assert Values(mergedBuys) == old@between(Values(mergedBuys));
    pnl := PairAndSum(mergedBuys, mergedSells);
  }

  // The report

  function OfType(trades: seq<TradeFill>, tradeType: TradeType): seq<TradeFill> {
    if trades == [] then []
    else
      var before, t := OfType(trades[..|trades| - 1], tradeType), trades[|trades| - 1];
      if t.tradeType == tradeType then before + [t] else before
  }

  lemma {:induction false} OfTypeIn(trades: seq<TradeFill>, tradeType: TradeType)
    ensures forall t :: t in OfType(trades, tradeType) ==> t in trades && t.tradeType == tradeType
    ensures forall t :: t in trades && t.tradeType == tradeType ==> t in OfType(trades, tradeType)
  {
    if trades == [] {
    } else {
      OfTypeIn(trades[..|trades| - 1], tradeType);
    }
  }

  lemma {:induction false} OfTypeOnValues(trades: seq<TradeFill>, tradeType: TradeType)
    ensures Values(OfType(trades, tradeType)) == M.OfType(Values(trades), tradeType)
  {
    if trades == [] {
    } else {
      var init, t := trades[..|trades| - 1], trades[|trades| - 1];
      OfTypeOnValues(init, tradeType);
      assert Values(trades)[..|trades| - 1] == Values(init);
      var before := OfType(init, tradeType);
      assert (before + [t])[..|before|] == before;
    }
  }

  ghost predicate OneMoreOfType(trades: seq<TradeFill>, i: nat, tradeType: TradeType)
    requires i < |trades|
  {
    var before := OfType(trades[..i], tradeType);
    OfType(trades[..i + 1], tradeType) == if trades[i].tradeType == tradeType then before + [trades[i]] else before
  }

  lemma OneMoreTrade(trades: seq<TradeFill>, i: nat)
    requires i < |trades|
    ensures forall tradeType :: OneMoreOfType(trades, i, tradeType)
  {
    assert trades[..i + 1][..i] == trades[..i];
  }

  lemma NoTrades()
    ensures forall tradeType :: OfType([], tradeType) == []
  {
  }

  /** Fills of which none has the position NIL. */
  predicate AreDerivatives(areFills: bool, trades: seq<TradeFill>) {
    trades != [] && areFills && forall t :: t in trades ==> t.position != "NIL"
  }

  predicate Derivatives(areFills: bool, trades: seq<TradeFill>) {
    AreDerivatives(areFills, OfType(trades, Buy)) || AreDerivatives(areFills, OfType(trades, Sell))
  }

  /** There are trades on this side, and none of them has the position NIL. */
  predicate HoldsPositions(trades: seq<TradeFill>, side: TradeType) {
    && (exists t :: t in trades && t.tradeType == side)
    && (forall t :: t in trades && t.tradeType == side ==> t.position != "NIL")
  }

  /** The report takes trades for derivatives when they are fills and one side of them holds positions only. */
  lemma DerivativesIff(areFills: bool, trades: seq<TradeFill>)
    ensures Derivatives(areFills, trades) <==> areFills && (HoldsPositions(trades, Buy) || HoldsPositions(trades, Sell))
  {
    hide OfType, AreDerivatives, HoldsPositions;
    SideDerivatives(areFills, trades, Buy);
    SideDerivatives(areFills, trades, Sell);
  }

  lemma SideDerivatives(areFills: bool, trades: seq<TradeFill>, side: TradeType)
    ensures AreDerivatives(areFills, OfType(trades, side)) <==> areFills && HoldsPositions(trades, side)
  {
    hide OfType;
    var ofSide := OfType(trades, side);
    OfTypeIn(trades, side);
    if ofSide == [] {
    } else {
      assert ofSide[0] in ofSide;
    }
  }

  class PerformanceMetrics {
    var bVolBase: real
    var sVolBase: real
    var totVolBase: real
    var bVolQuote: real
    var sVolQuote: real
    var totVolQuote: real
    var avgBPrice: real
    var avgSPrice: real
    var avgTotPrice: real
    var numBuys: nat
    var numSells: nat
    var numTrades: nat
    var startBaseBal: real
    var startQuoteBal: real
    var curBaseBal: real
    var curQuoteBal: real
    var startPrice: real
    var curPrice: real
    var holdValue: real
    var curValue: real
    var startBaseRatioPct: real
    var curBaseRatioPct: real
    var tradePnl: real

    predicate NoVolumes()
      reads this
    {
      bVolBase == sVolBase == bVolQuote == sVolQuote == 0.0
    }

    constructor ()
      ensures NoVolumes()
    {
      bVolBase, sVolBase, totVolBase, bVolQuote, sVolQuote, totVolQuote := 0.0, 0.0, 0.0, 0.0, 0.0, 0.0;
      startBaseBal, startQuoteBal, curBaseBal, curQuoteBal, startPrice, curPrice := 0.0, 0.0, 0.0, 0.0, 0.0, 0.0;
      avgBPrice, avgSPrice, avgTotPrice, numBuys, numSells, numTrades := 0.0, 0.0, 0.0, 0, 0, 0;
      holdValue, curValue, startBaseRatioPct, curBaseRatioPct, tradePnl := 0.0, 0.0, 0.0, 0.0, 0.0;
    }

    method AveragePrices()
      modifies `avgBPrice, `avgSPrice, `avgTotPrice
      ensures avgBPrice == M.AveragePrice(bVolQuote, bVolBase) && avgSPrice == M.AveragePrice(sVolQuote, sVolBase)
      ensures avgTotPrice == M.Divide(Abs(bVolQuote) + Abs(sVolQuote), Abs(bVolBase) + Abs(sVolBase))
    {
      avgBPrice := M.Divide(bVolQuote, bVolBase);
      avgSPrice := M.Divide(sVolQuote, sVolBase);
      avgTotPrice := M.Divide(Abs(bVolQuote) + Abs(sVolQuote), Abs(bVolBase) + Abs(sVolBase));
      avgBPrice, avgSPrice := Abs(avgBPrice), Abs(avgSPrice);
    }

    method PreprocessTradesAndGroupByType(trades: seq<TradeFill>) returns (buys: seq<TradeFill>, sells: seq<TradeFill>)
      requires NoVolumes()
      modifies this
      ensures buys == OfType(trades, Buy) && sells == OfType(trades, Sell)
      ensures bVolBase == M.BuyBase(Values(trades)) && bVolQuote == M.BuyQuote(Values(trades))
      ensures sVolBase == M.SellBase(Values(trades)) && sVolQuote == M.SellQuote(Values(trades))
      ensures totVolBase == M.NetBase(Values(trades)) && totVolQuote == M.NetQuote(Values(trades))
      ensures avgBPrice == M.AveragePrice(M.BuyQuote(Values(trades)), M.BuyBase(Values(trades)))
      ensures avgSPrice == M.AveragePrice(M.SellQuote(Values(trades)), M.SellBase(Values(trades)))
      ensures avgTotPrice == M.Divide(Abs(bVolQuote) + Abs(sVolQuote), Abs(bVolBase) + Abs(sVolBase))
    {
      hide Values, OfType, M.DeductedFee, M.BuyBase, M.BuyQuote, M.SellBase, M.SellQuote, M.NetBase, M.NetQuote,
        M.AveragePrice, M.Divide;
      buys, sells := [], [];
      ghost var vs := Values(trades);
      var i := 0;
      NoTrades();
      M.NoVolumes();
      assert trades[..0] == [] && vs[..0] == [];
      while i < |trades|
        invariant 0 <= i <= |trades| && vs == Values(trades)
        invariant buys == OfType(trades[..i], Buy) && sells == OfType(trades[..i], Sell)
        invariant bVolBase == M.BuyBase(vs[..i]) && bVolQuote == M.BuyQuote(vs[..i])
        invariant sVolBase == M.SellBase(vs[..i]) && sVolQuote == M.SellQuote(vs[..i])
      {
        var t := trades[i];
        OneMoreTrade(trades, i);
        assert OneMoreOfType(trades, i, Buy) && OneMoreOfType(trades, i, Sell);
        M.VolumesOfOneMore(vs, i);
        if t.tradeType.Buy? {
          buys := buys + [t];
          bVolBase := bVolBase + t.amount;
          bVolQuote := bVolQuote - t.amount * t.price;
        } else if t.tradeType.Sell? {
          sells := sells + [t];
          sVolBase := sVolBase - t.amount;
          sVolQuote := sVolQuote + t.amount * t.price;
        }
        sVolQuote := sVolQuote - M.DeductedFee(t.View());
        i := i + 1;
      }
      assert trades[..i] == trades && vs[..i] == vs;
      totVolBase := bVolBase + sVolBase;
      totVolQuote := bVolQuote + sVolQuote;
      M.NetIsSum(vs);
      AveragePrices();
    }

    method CalculateTradePnl(areFills: bool, buys: seq<TradeFill>, sells: seq<TradeFill>)
      requires forall b, s :: b in buys && s in sells ==> b != s
      modifies this`tradePnl, (set b | b in buys), (set s | s in sells)
      ensures tradePnl ==
        if AreDerivatives(areFills, buys) || AreDerivatives(areFills, sells)
        then M.PairedPnl(M.Aggregated(old(Values(buys))), M.Aggregated(old(Values(sells))))
        else curValue - holdValue
    {
      hide *;
      tradePnl := curValue - holdValue;
      if AreDerivatives(areFills, buys) || AreDerivatives(areFills, sells) {
        tradePnl := PositionsPnl(buys, sells);
      }
    }

    method ValueHoldings(trades: seq<TradeFill>, baseBalance: real, quoteBalance: real, rate: Option<real>)
      requires trades != [] && totVolBase == M.NetBase(Values(trades)) && totVolQuote == M.NetQuote(Values(trades))
      modifies `startBaseBal, `startQuoteBal, `curBaseBal, `curQuoteBal, `startPrice, `curPrice, `holdValue, `curValue
      modifies `startBaseRatioPct, `curBaseRatioPct
      ensures curPrice == M.CurrentPrice(rate, Values(trades)) && startPrice == trades[0].price
      ensures startBaseBal == baseBalance - M.NetBase(Values(trades))
      ensures startQuoteBal == quoteBalance - M.NetQuote(Values(trades))
      ensures startBaseRatioPct == M.BaseShare(startBaseBal, startQuoteBal, startPrice)
      ensures curBaseRatioPct == M.BaseShare(baseBalance, quoteBalance, curPrice)
      ensures curValue - holdValue ==
        M.BuyGains(Values(trades), curPrice) + M.SellGains(Values(trades), curPrice) - M.DeductedFees(Values(trades))
    {
      hide *;
      curBaseBal, curQuoteBal := baseBalance, quoteBalance;
      startBaseBal, startQuoteBal := curBaseBal - totVolBase, curQuoteBal - totVolQuote;
      startPrice := trades[0].price;
      curPrice := if rate.Some? then rate.value else trades[|trades| - 1].price;
      PriceNow(rate, trades);
      startBaseRatioPct := M.BaseShare(startBaseBal, startQuoteBal, startPrice);
      curBaseRatioPct := M.BaseShare(curBaseBal, curQuoteBal, curPrice);
      holdValue := startBaseBal * curPrice + startQuoteBal;
      curValue := curBaseBal * curPrice + curQuoteBal;
      ValuesNow(baseBalance, quoteBalance, Values(trades), curPrice);
      M.ProfitIsGain(baseBalance, quoteBalance, Values(trades), curPrice);
    }

    /** The profit from the trades of both types; merging overwrites fills among them. */
    method SplitTradePnl(areFills: bool, trades: seq<TradeFill>, buys: seq<TradeFill>, sells: seq<TradeFill>)
      requires buys == OfType(trades, Buy) && sells == OfType(trades, Sell)
      modifies this`tradePnl, trades
      ensures tradePnl ==
        if Derivatives(areFills, trades)
        then M.PairedPnl(M.Aggregated(M.OfType(old(Values(trades)), Buy)),
                         M.Aggregated(M.OfType(old(Values(trades)), Sell)))
        else curValue - holdValue
    {
      hide Values, OfType, M.OfType, M.PairedPnl, M.Aggregated, AreDerivatives;
      OfTypeIn(trades, Buy);
      OfTypeIn(trades, Sell);
      OfTypeOnValues(trades, Buy);
      OfTypeOnValues(trades, Sell);
      assert (set b | b in buys) + (set s | s in sells) <= set t | t in trades;
      CalculateTradePnl(areFills, buys, sells);
    }

    /** `raised`: without trades there is no first price. */
    method InitializeMetrics(areFills: bool, trades: seq<TradeFill>, baseBalance: real, quoteBalance: real,
                             rate: Option<real>)
      returns (raised: bool)
      requires NoVolumes()
      modifies this, trades
      ensures raised <==> trades == []
      ensures numBuys == |OfType(trades, Buy)| && numSells == |OfType(trades, Sell)|
      ensures numTrades == numBuys + numSells
      ensures !raised ==> curPrice == M.CurrentPrice(rate, old(Values(trades)))
      ensures !raised ==> startPrice == old(trades[0].price)
      ensures !raised ==> startBaseBal == baseBalance - M.NetBase(old(Values(trades)))
      ensures !raised ==> startQuoteBal == quoteBalance - M.NetQuote(old(Values(trades)))
      ensures !raised ==> startBaseRatioPct == M.BaseShare(startBaseBal, startQuoteBal, startPrice)
      ensures !raised ==> curBaseRatioPct == M.BaseShare(baseBalance, quoteBalance, curPrice)
      ensures !raised ==> var was := old(Values(trades));
        tradePnl ==
          if Derivatives(areFills, trades)
          then M.PairedPnl(M.Aggregated(M.OfType(was, Buy)), M.Aggregated(M.OfType(was, Sell)))
          else M.BuyGains(was, curPrice) + M.SellGains(was, curPrice) - M.DeductedFees(was)
    {
      hide Values, OfType, NoVolumes, M.OfType, M.BuyGains, M.SellGains, M.DeductedFees, M.PairedPnl, M.Aggregated,
        M.NetBase, M.NetQuote, M.CurrentPrice, M.HoldValue, M.CurrentValue, M.BuyBase, M.SellBase, M.BuyQuote,
        M.SellQuote, M.AveragePrice, M.Divide, M.BaseShare, Derivatives;
      ghost var was := Values(trades);
      var buys, sells := PreprocessTradesAndGroupByType(trades);
      numBuys, numSells := |buys|, |sells|;
      numTrades := numBuys + numSells;
      if trades == [] {
        return true;
      }
      raised := false;
      ValueHoldings(trades, baseBalance, quoteBalance, rate);
      assert Values(trades) == was;
      SplitTradePnl(areFills, trades, buys, sells);
    }
  }

  lemma PriceNow(rate: Option<real>, trades: seq<TradeFill>)
    requires trades != []
    ensures M.CurrentPrice(rate, Values(trades)) == if rate.Some? then rate.value else trades[|trades| - 1].price
  {
  }

  lemma ValuesNow(base: real, quote: real, ts: seq<M.Trade>, price: real)
    ensures M.HoldValue(base, quote, ts, price) == (base - M.NetBase(ts)) * price + (quote - M.NetQuote(ts))
    ensures M.CurrentValue(base, quote, price) == base * price + quote
  {
    hide M.NetBase, M.NetQuote;
  }
}
