/** The conversion of an unbounded Python integer to a signed 64-bit one, with its bit operations. */
module IntConversion {
  import opened Options

  function Pow2(n: nat): (r: int)
    ensures r > 0
  {
    if n == 0 then 1 else 2 * Pow2(n - 1)
  }

  lemma {:induction false} Pow2Add(a: nat, b: nat)
    ensures Pow2(a + b) == Pow2(a) * Pow2(b)
  {
    if a == 0 {
    } else {
      Pow2Add(a - 1, b);
      Associate(2, Pow2(a - 1), Pow2(b));
      assert Pow2(a + b) == 2 * Pow2(a - 1 + b);
    }
  }

  lemma {:induction false} Pow2Monotone(a: nat, b: nat)
    requires a <= b
    ensures Pow2(a) <= Pow2(b)
    decreases b
  {
    if a < b {
      Pow2Monotone(a, b - 1);
    }
  }

  function BitOr(a: nat, b: nat): nat {
    if a == 0 && b == 0 then 0
    else (if a % 2 == 1 || b % 2 == 1 then 1 else 0) + 2 * BitOr(a / 2, b / 2)
  }

  function BitAnd(a: nat, b: nat): nat {
    if a == 0 || b == 0 then 0
    else (if a % 2 == 1 && b % 2 == 1 then 1 else 0) + 2 * BitAnd(a / 2, b / 2)
  }

  /** Masking with 2^k - 1 is the remainder. */
  lemma {:induction false} MaskIsRemainder(a: nat, k: nat)
    ensures BitAnd(a, Pow2(k) - 1) == a % Pow2(k)
    decreases k
  {
    if k == 0 {
    } else {
      MaskIsRemainder(a / 2, k - 1);
      var p := Pow2(k - 1);
      assert (2 * p - 1) / 2 == p - 1 && (2 * p - 1) % 2 == 1;
      HalvedRemainder(a, p);
      if a == 0 { assert 0 % (2 * p) == 0; }
    }
  }

  lemma HalvedRemainder(a: nat, p: nat)
    requires p > 0
    ensures a % (2 * p) == a % 2 + 2 * ((a / 2) % p)
  {
    var q, r := (a / 2) / p, (a / 2) % p;
    assert a / 2 == q * p + r;
    assert a == (2 * p) * q + (a % 2 + 2 * r) by { assert a == 2 * (a / 2) + a % 2; }
    RemainderUnique(a, 2 * p, q, a % 2 + 2 * r);
  }

  lemma MulAtLeast(d: int, k: int)
    requires d > 0
    ensures k >= 1 ==> d * k >= d
    ensures k <= -1 ==> d * k <= -d
  {
  }

  lemma MulMonotone(d: int, x: int, y: int)
    requires d >= 0 && x <= y
    ensures d * x <= d * y
  {
  }

  lemma Distribute(d: int, x: int, y: int)
    ensures d * (x + y) == d * x + d * y && d * (x - y) == d * x - d * y
  {
  }

  lemma Associate(a: int, b: int, c: int)
    ensures a * (b * c) == (a * b) * c
  {
  }

  lemma DivMod(a: int, d: int)
    requires d > 0
    ensures a == d * (a / d) + a % d && 0 <= a % d < d
  {
  }

  lemma RemainderUnique(a: int, d: int, q: int, r: int)
    requires 0 <= r < d && a == d * q + r
    ensures a % d == r && a / d == q
  {
    DivMod(a, d);
    Distribute(d, q, a / d);
    MulAtLeast(d, q - a / d);
  }

  /** Or-ing in bits above all set ones is an addition. */
  lemma {:induction false} OrAboveIsSum(a: nat, d: nat, k: nat)
    requires a < Pow2(k)
    ensures d * Pow2(k) >= 0 && BitOr(a, d * Pow2(k)) == a + d * Pow2(k)
    decreases k
  {
    if k == 0 {
      OrZero(d);
    } else {
      var p := Pow2(k - 1);
      assert d * Pow2(k) == 2 * (d * p);
      OrAboveIsSum(a / 2, d, k - 1);
    }
  }

  lemma {:induction false} OrZero(d: nat)
    ensures BitOr(0, d) == d
  {
    if d == 0 {
    } else {
      OrZero(d / 2);
    }
  }

  /** `PyLong_AsLong`: the error case is a value outside the platform's `long`. */
  function AsLong(v: int, longBits: nat): Option<int>
    requires longBits > 0
  {
    if -Pow2(longBits - 1) <= v < Pow2(longBits - 1) then Some(v) else None
  }

  lemma SplitDivisor(s: nat, b: int, c: int)
    requires b > 0 && c > 0
    ensures b * c > 0 && (s / b) / c == s / (b * c)
    ensures s % (b * c) == s % b + ((s / b) % c) * b
  {
    var q, r := s / b, s % b;
    var q2, r2 := q / c, q % c;
    DivMod(s, b);
    DivMod(q, c);
    Distribute(b, c * q2, r2);
    Associate(b, c, q2);
    MulMonotone(b, r2, c - 1);
    MulMonotone(b, 0, r2);
    Distribute(b, c, 1);
    RemainderUnique(s, b * c, q2, b * r2 + r);
  }

  /** `s >> k`, and the bits it drops. */
  function Shr(s: nat, k: nat): nat {
    DivMod(s, Pow2(k));
    MulAtLeast(Pow2(k), s / Pow2(k));
    s / Pow2(k)
  }

  function Low(s: nat, k: nat): nat {
    DivMod(s, Pow2(k));
    s % Pow2(k)
  }

  function Shl(s: nat, k: nat): nat {
    MulMonotone(Pow2(k), 0, s);
    s * Pow2(k)
  }

  lemma ShiftTwice(s: nat, bits: nat, chunk: nat)
    ensures Shr(Shr(s, bits), chunk) == Shr(s, bits + chunk)
    ensures Low(s, bits + chunk) == Low(s, bits) + Shl(Low(Shr(s, bits), chunk), bits)
  {
    Pow2Add(bits, chunk);
    SplitDivisor(s, Pow2(bits), Pow2(chunk));
  }

  lemma QuotientBelow(s: nat, b: int, c: int)
    requires b > 0
    ensures s / b < c <==> s < b * c
  {
    DivMod(s, b);
    if s / b < c {
      MulMonotone(b, s / b, c - 1);
      Distribute(b, c, 1);
    } else {
      MulMonotone(b, c, s / b);
    }
  }

  /** The last chunk fits its remaining bits exactly when the whole value fits 63 bits. */
  lemma LastChunkFits(s: nat, bits: nat)
    requires bits <= 63
    ensures Shr(s, bits) < Pow2(63 - bits) <==> s < Pow2(63)
  {
    Pow2Add(bits, 63 - bits);
    QuotientBelow(s, Pow2(bits), Pow2(63 - bits));
  }

  /** One round of the loop: the next chunk goes on top of the bits already set. */
  lemma ChunkStep(start: nat, bits: nat, chunk: nat)
    ensures BitOr(Low(start, bits), Shl(BitAnd(Shr(start, bits), Pow2(chunk) - 1), bits)) == Low(start, bits + chunk)
  {
    hide BitOr, BitAnd;
    MaskIsRemainder(Shr(start, bits), chunk);
    ShiftTwice(start, bits, chunk);
    DivMod(start, Pow2(bits));
    OrAboveIsSum(Low(start, bits), Low(Shr(start, bits), chunk), bits);
  }

  /** After the loop the rest goes on top as a whole. */
  lemma LastStep(start: nat, bits: nat)
    ensures BitOr(Low(start, bits), Shl(Shr(start, bits), bits)) == start
  {
    hide BitOr;
    DivMod(start, Pow2(bits));
    OrAboveIsSum(Low(start, bits), Shr(start, bits), bits);
  }

  lemma NothingShifted(start: nat)
    ensures Shr(start, 0) == start && Low(start, 0) == 0
  {
    assert Pow2(0) == 1;
  }

  /** The chunked conversion; chunks have 62 bits, or 30 where `long` is short. */
  method AsInt64(v: int, longBits: nat) returns (r: Option<int>)
    requires longBits == 32 || longBits == 64
    ensures r == if -Pow2(63) <= v < Pow2(63) then Some(v) else None
  {
    hide BitOr, BitAnd, Pow2, Shr, Low, Shl;
    var chunk := if longBits < 64 then 30 else 62;
    var isNegative := v < 0;
    var start: nat := if isNegative then -v - 1 else v;
    var stepval: nat, val: nat, bits := start, 0, 0;
    NothingShifted(start);
    while bits < 64 - chunk
      invariant if chunk == 30 then bits in {0, 30, 60} else bits in {0, 62}
      invariant stepval == Shr(start, bits) && val == Low(start, bits)
      decreases 64 - bits
    {
      var digit := BitAnd(stepval, Pow2(chunk) - 1);
      ChunkStep(start, bits, chunk);
      ShiftTwice(start, bits, chunk);
      val := BitOr(val, Shl(digit, bits));
      stepval := Shr(stepval, chunk);
      bits := bits + chunk;
    }
    LastChunkFits(start, bits);
    Pow2Monotone(63 - bits, longBits - 1);
    var idigit := AsLong(stepval, longBits);
    if idigit.None? {
      return None;
    }
    if idigit.value >= Pow2(64 - bits - 1) {
      return None;
    }
    LastStep(start, bits);
    val := BitOr(val, Shl(idigit.value, bits));
    if val >= Pow2(63) {
      return None;
    }
    var result: int := val;
    r := Some(if isNegative then -result - 1 else result);
  }

  // The fast path over the digits of the interpreter's own representation

  /** The digits of a Python integer, lowest first, in base 2^shift. */
  function Value(digits: seq<nat>, shift: nat): (r: nat) {
    if digits == [] then 0 else digits[0] + Pow2(shift) * Value(digits[1..], shift)
  }

  /** Shift and or from the top digit down, in an unsigned word of `width` bits. */
  function Combine(digits: seq<nat>, shift: nat, width: nat): nat {
    if digits == [] then 0
    else BitOr((Combine(digits[1..], shift, width) * Pow2(shift)) % Pow2(width), digits[0])
  }

  predicate AreDigits(digits: seq<nat>, shift: nat) {
    forall i :: 0 <= i < |digits| ==> digits[i] < Pow2(shift)
  }

  lemma DigitCount(n: nat, shift: nat)
    requires n > 0
    ensures n * shift == shift + (n - 1) * shift && (n - 1) * shift >= 0
  {
  }

  lemma {:induction false} ValueBound(digits: seq<nat>, shift: nat)
    requires AreDigits(digits, shift)
    ensures |digits| * shift >= 0 && Value(digits, shift) < Pow2(|digits| * shift)
  {
    if digits == [] {
    } else {
      var rest, p := digits[1..], Pow2(shift);
      ValueBound(rest, shift);
      DigitCount(|digits|, shift);
      Pow2Add(shift, |rest| * shift);
      var top := Pow2(|rest| * shift);
      MulMonotone(p, Value(rest, shift), top - 1);
      Distribute(p, top, 1);
    }
  }

  lemma {:induction false} OrCommutes(a: nat, b: nat)
    ensures BitOr(a, b) == BitOr(b, a)
    decreases a + b
  {
    if a != 0 || b != 0 {
      OrCommutes(a / 2, b / 2);
    }
  }

  lemma {:induction false} CombineExact(digits: seq<nat>, shift: nat, width: nat)
    requires AreDigits(digits, shift) && |digits| * shift <= width
    ensures Combine(digits, shift, width) == Value(digits, shift)
  {
    if digits == [] {
    } else {
      var rest, p := digits[1..], Pow2(shift);
      DigitCount(|digits|, shift);
      CombineExact(rest, shift, width);
      ValueBound(digits, shift);
      Pow2Monotone(|digits| * shift, width);
      var high := Value(rest, shift) * p;
      RemainderUnique(high, Pow2(width), 0, high);
      OrAboveIsSum(digits[0], Value(rest, shift), shift);
      OrCommutes(digits[0], high);
    }
  }

  function ToSigned(x: nat, width: nat): int
    requires width > 0
  {
    if x < Pow2(width - 1) then x else x - Pow2(width)
  }

  /** Two to four digits; `None` means that the fast path gives up and the slow one decides. */
  function FastPath(digits: seq<nat>, negative: bool, shift: nat, longBits: nat): Option<int>
    requires longBits == 32 || longBits == 64
  {
    var n := |digits|;
    if 2 <= n <= 4 && (if negative then 63 else 64) > (n - 1) * shift then
      if longBits > n * shift then
        var word := Combine(digits, shift, longBits);
        Some(if negative then -ToSigned(word, longBits) else word)
      else if 63 > n * shift then
        var word := Combine(digits, shift, 64);
        Some(if negative then -ToSigned(word, 64) else ToSigned(word, 64))
      else None
    else None
  }

  function Signed(magnitude: nat, negative: bool): int {
    var m: int := magnitude;
    if negative then -m else m
  }

  /** Wherever the fast path returns, it returns the value, as the chunked conversion does. */
  lemma FastPathExact(digits: seq<nat>, negative: bool, shift: nat, longBits: nat)
    requires longBits == 32 || longBits == 64
    requires AreDigits(digits, shift) && FastPath(digits, negative, shift, longBits).Some?
    ensures var v := Signed(Value(digits, shift), negative);
            FastPath(digits, negative, shift, longBits) == Some(v) && -Pow2(63) <= v < Pow2(63)
  {
    hide Pow2, Combine, Value;
    var n := |digits|;
    DigitCount(n, shift);
    var width := if longBits > n * shift then longBits else 64;
    CombineExact(digits, shift, width);
    ValueBound(digits, shift);
    Pow2Monotone(n * shift, width - 1);
    Pow2Monotone(n * shift, 63);
  }

  /** The fast path takes two to four digits when their bits leave room for a sign, and no others. */
  lemma FastPathTakes(digits: seq<nat>, negative: bool, shift: nat, longBits: nat)
    requires longBits == 32 || longBits == 64
    ensures FastPath(digits, negative, shift, longBits).Some? <==>
            2 <= |digits| <= 4 && |digits| * shift < (if longBits == 64 then 64 else 63)
  {
    hide Combine, ToSigned;
    if |digits| > 0 {
      DigitCount(|digits|, shift);
    }
  }
}
