/** Tiger integers: signed, 32 bits wide, as LLVM's `i32` computes on them. */
module Int32 {
  const INT_MIN: int := -0x8000_0000
  const INT_MAX: int := 0x7fff_ffff

  type int32 = x: int | -0x8000_0000 <= x <= 0x7fff_ffff

  /** The residue of `x` modulo 2^32 that lies in the signed range. */
  function Wrap(x: int): (r: int32)
    ensures INT_MIN <= x <= INT_MAX ==> r == x
  {
    (x + 0x8000_0000) % 0x1_0000_0000 - 0x8000_0000
  }

  /** Of the 32-bit integers, `Wrap(x)` is the one congruent to `x` modulo 2^32. */
  lemma WrapCongruent(x: int, r: int32)
    ensures r == Wrap(x) <==> (x - r) % 0x1_0000_0000 == 0
  {
    var k := (x + 0x8000_0000) / 0x1_0000_0000;
    assert x - Wrap(x) == k * 0x1_0000_0000;
    if (x - r) % 0x1_0000_0000 == 0 {
      var l := (x - r) / 0x1_0000_0000;
      assert Wrap(x) - r == (l - k) * 0x1_0000_0000;
    }
  }

  /** Division truncating toward zero, as `sdiv` does. */
  function TruncDiv(l: int, r: int): int
    requires r != 0
  {
    if l >= 0 then (if r > 0 then l / r else -(l / -r))
    else (if r > 0 then -(-l / r) else -l / -r)
  }

  datatype ArithOp = Add | Sub | Mul | Div

  datatype CmpOp = Eq | Ne | Lt | Le | Gt | Ge

  datatype Oper = Arithmetic(arith: ArithOp) | Comparison(cmp: CmpOp)

  datatype ArithResult = Computed(value: int32) | Undefined

  /** Undefined exactly where `sdiv` is: a zero divisor and the one quotient that overflows. */
  function Arith(op: ArithOp, l: int32, r: int32): ArithResult {
    match op
    case Add => Computed(Wrap(l + r))
    case Sub => Computed(Wrap(l - r))
    case Mul => Computed(Wrap(l * r))
    case Div => if r == 0 || (l == INT_MIN && r == -1) then Undefined else Computed(Wrap(TruncDiv(l, r)))
  }

  predicate Compare(op: CmpOp, l: int32, r: int32) {
    match op
    case Eq => l == r
    case Ne => l != r
    case Lt => l < r
    case Le => l <= r
    case Gt => l > r
    case Ge => l >= r
  }
}
