/** Arithmetic operators of the expression language on unbounded integers (asm/evaluator.go, evalArith). */
module Arithmetic {
  import opened Base
  import opened Lzint
  import opened Ast

  datatype ArithError = DivisionByZero | ModuloByZero | NegativeShift | ShiftOverflow

  const MAX_UINT: int := 0xffff_ffff_ffff_ffff

  predicate BoolOp(op: ArithOp, a: bool, b: bool) {
    match op
    case And => a && b
    case Or => a || b
    case _ => a != b
  }

  /** The distance to the constants 0 and -1, which all halvings end in. */
  function Magnitude(a: int): nat {
    if a < 0 then -a - 1 else a
  }

  lemma HalfMagnitude(a: int)
    ensures Magnitude(a / 2) <= Magnitude(a)
    ensures Magnitude(a) > 0 ==> Magnitude(a / 2) < Magnitude(a)
  {
  }

  /** Bitwise operation on two's complement numbers of unbounded width. */
  function Bitwise(op: ArithOp, a: int, b: int): int
    decreases Magnitude(a) + Magnitude(b)
  {
    if Magnitude(a) == 0 && Magnitude(b) == 0 then
      if BoolOp(op, a == -1, b == -1) then -1 else 0
    else
      HalfMagnitude(a);
      HalfMagnitude(b);
      2 * Bitwise(op, a / 2, b / 2) + (if BoolOp(op, a % 2 == 1, b % 2 == 1) then 1 else 0)
  }

  /** Bit k of a number; negative numbers have all high bits set. */
  predicate Bit(a: int, k: nat)
    decreases k
  {
    if k == 0 then a % 2 == 1 else Bit(a / 2, k - 1)
  }

  lemma {:induction false} BitOfConstant(k: nat)
    ensures Bit(-1, k) && !Bit(0, k)
    decreases k
  {
    if k > 0 {
      assert -1 / 2 == -1;
      BitOfConstant(k - 1);
    }
  }

  lemma DoublePlus(n: int, bit: int)
    requires bit == 0 || bit == 1
    ensures (2 * n + bit) / 2 == n && (2 * n + bit) % 2 == bit
  {
  }

  lemma BitZero(a: int, k: nat)
    requires k > 0
    ensures Bit(a, k) == Bit(a / 2, k - 1)
  {
  }

  /** Every bit of the result is the operation applied to the bits of the operands. */
  lemma {:induction false} BitwiseBits(op: ArithOp, a: int, b: int, k: nat)
    ensures Bit(Bitwise(op, a, b), k) == BoolOp(op, Bit(a, k), Bit(b, k))
    decreases k
  {
    if Magnitude(a) == 0 && Magnitude(b) == 0 {
      BitOfConstant(k);
    } else {
      DoublePlus(Bitwise(op, a / 2, b / 2), if BoolOp(op, a % 2 == 1, b % 2 == 1) then 1 else 0);
      var r := Bitwise(op, a, b);
      assert r / 2 == Bitwise(op, a / 2, b / 2);
      hide Bitwise, Magnitude;
      if k > 0 {
        BitwiseBits(op, a / 2, b / 2, k - 1);
        BitZero(a, k);
        BitZero(b, k);
        BitZero(r, k);
        hide Bit;
      }
    }
  }

  function Shift(left: int, amount: int, up: bool): Result<int, ArithError> {
    if amount < 0 then Err(NegativeShift)
    else if amount > MAX_UINT then Err(ShiftOverflow)
    else Ok(if up then left * Pow2(amount) else left / Pow2(amount))
  }

  /** Division and modulus are Euclidean, as in math/big; a right shift rounds down. */
  function Apply(op: ArithOp, left: int, right: int): Result<int, ArithError> {
    match op
    case Plus => Ok(left + right)
    case Minus => Ok(left - right)
    case Mul => Ok(left * right)
    case Div => if right == 0 then Err(DivisionByZero) else Ok(left / right)
    case Mod => if right == 0 then Err(ModuloByZero) else Ok(left % right)
    case Lshift => Shift(left, right, true)
    case Rshift => Shift(left, right, false)
    case _ => Ok(Bitwise(op, left, right))
  }
}
