/** What the operators compute, without the functions that compute it: the meaning of a program and the
    machine share those functions. */
module Arithmetic {
  import opened Int32

  function Abs(x: int): nat { if x < 0 then -x else x }

  /** A quotient is what leaves a remainder smaller than the divisor, with the sign of the dividend or
      none; there is no other value, and where no 32-bit integer is one, none is computed. */
  lemma DivExact(l: int32, r: int32, v: int32)
    ensures Arith(Div, l, r) == Computed(v)
      <==> r != 0 && Abs(l - v * r) < Abs(r) && (l - v * r == 0 || (l - v * r < 0 <==> l < 0))
  {
    if r != 0 {
      var q := TruncDiv(l, r);
      TruncDivRemainder(l, r);
      if Abs(l - v * r) < Abs(r) && (l - v * r == 0 || (l - v * r < 0 <==> l < 0)) { OneQuotient(l, r, q, v); }
      QuotientFits(l, r);
    }
  }

  lemma TruncDivRemainder(l: int, r: int)
    requires r != 0
    ensures var m := l - TruncDiv(l, r) * r; Abs(m) < Abs(r) && (m == 0 || (m < 0 <==> l < 0))
  {
    TruncDivAbs(l, r);
    Remainder(Abs(l), Abs(r));
    hide TruncDiv;
    Signed(l, r, Abs(l) / Abs(r), TruncDiv(l, r));
  }

  lemma Signed(l: int, r: int, k: int, q: int)
    requires r != 0 && 0 <= Abs(l) - k * Abs(r) < Abs(r) && q == if (l >= 0) == (r > 0) then k else -k
    ensures var m := l - q * r; Abs(m) < Abs(r) && (m == 0 || (m < 0 <==> l < 0))
  {
    Signs(k, Abs(r));
    assert q * r == if l >= 0 then k * Abs(r) else -(k * Abs(r));
  }

  lemma TruncDivAbs(l: int, r: int)
    requires r != 0
    ensures TruncDiv(l, r) == if (l >= 0) == (r > 0) then Abs(l) / Abs(r) else -(Abs(l) / Abs(r))
  {}

  lemma Remainder(a: nat, b: nat)
    requires b > 0
    ensures 0 <= a - (a / b) * b < b
  {}

  lemma Signs(k: int, b: int)
    ensures -k * b == -(k * b) && k * -b == -(k * b) && -k * -b == k * b
  {}

  lemma OneQuotient(l: int, r: int, q: int, v: int)
    requires r != 0
    requires Abs(l - q * r) < Abs(r) && (l - q * r == 0 || (l - q * r < 0 <==> l < 0))
    requires Abs(l - v * r) < Abs(r) && (l - v * r == 0 || (l - v * r < 0 <==> l < 0))
    ensures q == v
  {
    assert (l - q * r) - (l - v * r) == (v - q) * r;
    if q != v { Grows(v - q, r); }
  }

  lemma Grows(k: int, r: int)
    requires k != 0
    ensures Abs(k * r) == Abs(k) * Abs(r) >= Abs(r)
  {
    Signs(Abs(k), Abs(r));
    assert Abs(k) * Abs(r) == Abs(r) + (Abs(k) - 1) * Abs(r);
    NotNegative(Abs(k) - 1, Abs(r));
  }

  lemma NotNegative(a: nat, b: nat)
    ensures a * b >= 0
  {}

  /** One quotient of 32-bit integers does not fit. */
  lemma QuotientFits(l: int32, r: int32)
    requires r != 0
    ensures INT_MIN <= TruncDiv(l, r) <= INT_MAX <==> !(l == INT_MIN && r == -1)
  {
    hide TruncDiv;
    var k := Quotient(l, r);
    Fits(l, r, k, TruncDiv(l, r));
  }

  lemma Quotient(l: int, r: int) returns (k: int)
    requires r != 0
    ensures TruncDiv(l, r) == (if (l >= 0) == (r > 0) then k else -k) && k >= 0
    ensures if Abs(r) == 1 then k == Abs(l) else 2 * k <= Abs(l)
  {
    TruncDivAbs(l, r);
    hide TruncDiv;
    k := Abs(l) / Abs(r);
    QuotientBound(Abs(l), Abs(r));
  }

  lemma Fits(l: int32, r: int32, k: int, q: int)
    requires r != 0 && q == (if (l >= 0) == (r > 0) then k else -k) && k >= 0
    requires if Abs(r) == 1 then k == Abs(l) else 2 * k <= Abs(l)
    ensures INT_MIN <= q <= INT_MAX <==> !(l == INT_MIN && r == -1)
  {}

  lemma QuotientBound(a: nat, b: nat)
    requires b >= 1
    ensures a / b >= 0 && if b == 1 then a / b == a else 2 * (a / b) <= a
  {
    Remainder(a, b);
    if b == 1 { DividedByOne(a); } else { Halved(a / b, b, a); }
  }

  lemma DividedByOne(a: nat)
    ensures a / 1 == a
  {}

  lemma Halved(k: int, b: int, a: int)
    requires b >= 2 && k >= 0 && k * b <= a
    ensures 2 * k <= a
  {
    NotNegative(k, b - 2);
    assert k * b == 2 * k + k * (b - 2);
  }

  /** The other operations are those of the integers, modulo 2^32. */
  lemma ArithExact(l: int32, r: int32, v: int32)
    ensures Arith(Add, l, r) == Computed(v) <==> (v - l - r) % 0x1_0000_0000 == 0
    ensures Arith(Sub, l, r) == Computed(v) <==> (v + r - l) % 0x1_0000_0000 == 0
    ensures Arith(Mul, l, r) == Computed(v) <==> (v - l * r) % 0x1_0000_0000 == 0
  {
    WrapCongruent(l + r, v);
    WrapCongruent(l - r, v);
    WrapCongruent(l * r, v);
    Negated(l + r - v, v - l - r);
    Negated(l - r - v, v + r - l);
    Negated(l * r - v, v - l * r);
  }

  lemma Negated(x: int, y: int)
    requires y == -x
    ensures x % 0x1_0000_0000 == 0 <==> y % 0x1_0000_0000 == 0
  {}

  /** Comparisons go by the sign of the difference, which may lie outside the 32 bits. */
  lemma CompareExact(l: int32, r: int32)
    ensures Compare(Eq, l, r) <==> l - r == 0
    ensures Compare(Ne, l, r) <==> l - r != 0
    ensures Compare(Lt, l, r) <==> r - l >= 1
    ensures Compare(Le, l, r) <==> r - l >= 0
    ensures Compare(Gt, l, r) <==> l - r >= 1
    ensures Compare(Ge, l, r) <==> l - r >= 0
  {}
}
