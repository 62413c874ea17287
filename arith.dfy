/** The binary operators over integers, with booleans counted as 0 and 1 as in
    Python. True division yields a float, which is outside the model. */
module Arith {
  import opened Ast

  function Pow2(n: nat): (r: nat)
    ensures r >= 1
  {
    if n == 0 then 1 else 2 * Pow2(n - 1)
  }

  /** Python's `%`: the remainder takes the sign of the divisor. */
  function FloorMod(a: int, b: int): (r: int)
    requires b != 0
    ensures b > 0 ==> 0 <= r < b
    ensures b < 0 ==> b < r <= 0
  {
    if b > 0 then a % b
    else
      var e := a % (-b);
      if e == 0 then 0 else e + b
  }

  /** Number of bits needed besides the sign, so that halving makes progress. */
  function Magnitude(x: int): nat {
    if x >= 0 then x else -x - 1
  }

  lemma HalfShrinks(x: int)
    ensures Magnitude(x / 2) <= Magnitude(x)
    ensures x != 0 && x != -1 ==> Magnitude(x / 2) < Magnitude(x)
  {
  }

  /** A bitwise operation on two's-complement integers of unbounded width. */
  function Bitwise(f: (bool, bool) -> bool, a: int, b: int): int
    decreases Magnitude(a) + Magnitude(b)
  {
    if (a == 0 || a == -1) && (b == 0 || b == -1) then
      if f(a == -1, b == -1) then -1 else 0
    else
      HalfShrinks(a);
      HalfShrinks(b);
      2 * Bitwise(f, a / 2, b / 2) + (if f(a % 2 == 1, b % 2 == 1) then 1 else 0)
  }

  /** Applies a binary operator to two evaluated operands. */
  function Apply(op: Operator, a: Value, b: Value): (r: Outcome<Value>)
    ensures r.Ok? ==> IsNumber(r.value)
    ensures !IsNumber(a) || !IsNumber(b) ==> r.Raise?
  {
    if a.StrValue? || b.StrValue? then Raise(Unmodelled)
    else if !IsNumber(a) || !IsNumber(b) then Raise(UnsupportedOperand)
    else if a.BoolValue? && b.BoolValue? && op in {BitAndOp, BitOrOp, BitXorOp} then
      Ok(BoolValue(BoolOp(op, a.b, b.b)))
    else IntOp(op, AsInt(a), AsInt(b))
  }

  /** `&`, `|` and `^` on two booleans give a boolean. */
  function BoolOp(op: Operator, x: bool, y: bool): bool
    requires op in {BitAndOp, BitOrOp, BitXorOp}
  {
    match op
    case BitAndOp => x && y
    case BitOrOp => x || y
    case BitXorOp => x != y
  }

  function IntOp(op: Operator, x: int, y: int): (r: Outcome<Value>)
    ensures r.Ok? ==> r.value.IntValue?
  {
    match op
    case AddOp => Ok(IntValue(x + y))
    case SubOp => Ok(IntValue(x - y))
    case MultOp => Ok(IntValue(x * y))
    case DivOp => if y == 0 then Raise(ZeroDivision) else Raise(Unmodelled)
    case ModOp => if y == 0 then Raise(ZeroDivision) else Ok(IntValue(FloorMod(x, y)))
    case BitAndOp => Ok(IntValue(Bitwise((p, q) => p && q, x, y)))
    case BitOrOp => Ok(IntValue(Bitwise((p, q) => p || q, x, y)))
    case BitXorOp => Ok(IntValue(Bitwise((p, q) => p != q, x, y)))
    case LshiftOp => if y < 0 then Raise(NegativeShift) else Ok(IntValue(x * Pow2(y)))
    case RshiftOp => if y < 0 then Raise(NegativeShift) else Ok(IntValue(x / Pow2(y)))
  }
}
