/** Optional values, for Python's `None`. */
module Options {
  datatype Option<+T> = None | Some(value: T)
}

/** Lists as the program edits them. */
module Sequences {
  function RemoveAt<T>(xs: seq<T>, k: nat): (r: seq<T>)
    requires k < |xs|
    ensures |r| == |xs| - 1
    ensures forall x :: x in r ==> x in xs
  {
    xs[..k] + xs[k + 1..]
  }

  /** The last `n` elements, or all of them when there are fewer. */
  function Suffix<T>(xs: seq<T>, n: nat): (r: seq<T>)
    ensures |r| == if |xs| <= n then |xs| else n
  {
    if |xs| <= n then xs else xs[|xs| - n..]
  }
}

/** Exact decimals. */
module Decimals {
  function Abs(x: real): real {
    if x < 0.0 then -x else x
  }
}

/** The side of an order or trade; `Range` is that of liquidity positions. */
module TradeTypes {
  datatype TradeType = Buy | Sell | Range
}
