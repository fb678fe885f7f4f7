/** What arithmetic expressions and builtins mean (evalBinary, evalUnary and the builtins of asm/evaluator.go). */
module ExprMeaning {
  import opened Base
  import opened Lzint
  import opened Ast
  import opened Arithmetic
  import opened Evaluator

  // ----- operators -----

  /** A result for which every bit is the operation applied to the bits of the operands. */
  ghost predicate BitsRelate(op: ArithOp, a: int, b: int, r: int) {
    forall k: nat :: Bit(r, k) == match op
                                  case And => Bit(a, k) && Bit(b, k)
                                  case Or => Bit(a, k) || Bit(b, k)
                                  case _ => Bit(a, k) != Bit(b, k)
  }

  /** The quotient is that of a division with a remainder between zero and the divisor's magnitude. */
  ghost predicate Divides(a: int, b: int, q: int, m: int) {
    0 <= m < Abs(b) && a == b * q + m
  }

  /** The results that an operator has for its operands. */
  ghost predicate Relates(op: ArithOp, a: int, b: int, r: int) {
    match op
    case Plus => r - a == b
    case Minus => r + b == a
    case Mul => r == a * b
    case Div => exists m :: Divides(a, b, r, m)
    case Mod => exists q :: Divides(a, b, q, r)
    case Lshift => 0 <= b <= MAX_UINT && r == a * Pow2(b)
    case Rshift => 0 <= b <= MAX_UINT && Divides(a, Pow2(b), r, a - Pow2(b) * r)
    case _ => BitsRelate(op, a, b, r)
  }

  lemma {:induction false} SameBits(a: int, b: int)
    requires forall k: nat :: Bit(a, k) == Bit(b, k)
    ensures a == b
    decreases Magnitude(a) + Magnitude(b)
  {
    assert Bit(a, 0) == Bit(b, 0);
    if Magnitude(a) != 0 || Magnitude(b) != 0 {
      HalfMagnitude(a);
      HalfMagnitude(b);
      forall k: nat
        ensures Bit(a / 2, k) == Bit(b / 2, k)
      {
        var n := k + 1;
        assert Bit(a, n) == Bit(b, n);
        BitZero(a, n);
        BitZero(b, n);
      }
      SameBits(a / 2, b / 2);
    }
  }

  /** A division has one quotient and one remainder. */
  lemma OneQuotient(a: int, b: int, q: int, m: int)
    requires b != 0
    ensures Divides(a, b, q, m) <==> q == a / b && m == a % b
  {
    assert a == b * (a / b) + a % b;
    if Divides(a, b, q, m) {
      var d, e := q - a / b, a % b - m;
      assert b * d == e by {
        assert b * d == b * q - b * (a / b);
      }
      SmallMultiple(b, d, e);
    }
  }

  lemma SmallMultiple(b: int, d: int, e: int)
    requires b != 0 && b * d == e && e < Abs(b) && -e < Abs(b)
    ensures d == 0 && e == 0
  {
    if d != 0 {
      LargeMultiple(b, d);
    }
  }

  lemma LargeMultiple(b: int, d: int)
    requires d != 0
    ensures b * d >= Abs(b) || -(b * d) >= Abs(b)
  {
    if d > 0 {
      MulAtLeast(d, Abs(b));
    } else {
      MulAtLeast(-d, Abs(b));
    }
  }

  lemma BitsMean(op: ArithOp, a: int, b: int, r: int)
    requires op == And || op == Or || op == Xor
    ensures BitsRelate(op, a, b, r) <==> r == Bitwise(op, a, b)
  {
    forall k: nat
      ensures Bit(Bitwise(op, a, b), k) == BoolOp(op, Bit(a, k), Bit(b, k))
    {
      BitwiseBits(op, a, b, k);
    }
    hide Bitwise, Bit;
    if BitsRelate(op, a, b, r) {
      forall k: nat
        ensures Bit(r, k) == Bit(Bitwise(op, a, b), k)
      {
      }
      SameBits(r, Bitwise(op, a, b));
    }
  }

  /**
   * An operator gives the one number that is related to its operands, and an error exactly if there is
   * none: for a zero divisor, and for a shift by a negative amount or by more than 64 bits can hold.
   */
  lemma OperatorMeans(op: ArithOp, a: int, b: int, r: int)
    ensures Relates(op, a, b, r) <==> Apply(op, a, b) == Ok(r)
    ensures Apply(op, a, b).Err? <==> ((op == Div || op == Mod) && b == 0) || ((op == Lshift || op == Rshift) && !(0 <= b <= MAX_UINT))
  {
    hide Bitwise, BitsRelate;
    match op
    case Plus =>
    case Minus =>
    case Mul =>
    case Div =>
      if b != 0 {
        hide Divides;
        forall m
          ensures Divides(a, b, r, m) <==> r == a / b && m == a % b
        {
          OneQuotient(a, b, r, m);
        }
        assert Divides(a, b, r, a % b) <==> r == a / b;
      }
    case Mod =>
      if b != 0 {
        hide Divides;
        forall q
          ensures Divides(a, b, q, r) <==> q == a / b && r == a % b
        {
          OneQuotient(a, b, q, r);
        }
        assert Divides(a, b, a / b, r) <==> r == a % b;
      }
    case Lshift =>
    case Rshift =>
      if 0 <= b <= MAX_UINT {
        hide Divides, Pow2;
        OneQuotient(a, Pow2(b), r, a - Pow2(b) * r);
        OneQuotient(a, Pow2(b), a / Pow2(b), a % Pow2(b));
      }
    case And => BitsMean(op, a, b, r);
    case Or => BitsMean(op, a, b, r);
    case Xor => BitsMean(op, a, b, r);
  }

  // ----- expressions -----

  /** An expression of literals and operators only. */
  predicate Closed(e: Expr) {
    match e
    case LiteralExpr(_, _, _) => true
    case GroupExpr(inner) => Closed(inner)
    case UnaryExpr(_, arg) => Closed(arg)
    case BinaryExpr(_, left, right) => Closed(left) && Closed(right)
    case _ => false
  }

  /** The number that an expression of literals and operators stands for. */
  ghost predicate Means(e: Expr, n: int) {
    match e
    case LiteralExpr(_, _, v) => n == v.num
    case GroupExpr(inner) => Means(inner, n)
    case UnaryExpr(_, arg) => Means(arg, -n)
    case BinaryExpr(op, left, right) => exists a, b :: Means(left, a) && Means(right, b) && Relates(op, a, b, n)
    case _ => false
  }

  lemma {:induction false} BinaryMeans(op: ArithOp, left: Expr, right: Expr, l: EvalResult, r: EvalResult, n: int)
    requires forall a :: Means(left, a) <==> l.Known? && l.value.num == a
    requires forall b :: Means(right, b) <==> r.Known? && r.value.num == b
    ensures Means(BinaryExpr(op, left, right), n) <==> l.Known? && r.Known? && Apply(op, l.value.num, r.value.num) == Ok(n)
  {
    hide Relates, Apply;
    if l.Known? && r.Known? {
      OperatorMeans(op, l.value.num, r.value.num, n);
      assert Means(left, l.value.num) && Means(right, r.value.num);
    }
  }

  /** Evaluation gives the number that the expression stands for, and an error exactly if there is none. */
  lemma {:induction false} EvalMeans(w: World, labels: Labels, stack: set<nat>, env: Env, e: Expr)
    requires Closed(e)
    ensures forall n :: Means(e, n) <==> Eval(w, labels, stack, env, e).Known? && Eval(w, labels, stack, env, e).value.num == n
    decreases e
  {
    hide Apply, Relates, FromInt;
    match e
    case LiteralExpr(_, _, _) =>
    case GroupExpr(inner) => EvalMeans(w, labels, stack, env, inner);
    case UnaryExpr(_, arg) =>
      EvalMeans(w, labels, stack, env, arg);
      var r := Eval(w, labels, stack, env, arg);
      FromIntNum();
      forall n
        ensures Means(e, n) <==> r.Known? && -r.value.num == n
      {
        assert Means(arg, -n) <==> r.Known? && r.value.num == -n;
      }
    case BinaryExpr(op, left, right) =>
      EvalMeans(w, labels, stack, env, left);
      EvalMeans(w, labels, stack, env, right);
      var l, r := Eval(w, labels, stack, env, left), Eval(w, labels, stack, env, right);
      FromIntNum();
      forall n
        ensures Means(e, n) <==> l.Known? && r.Known? && Apply(op, l.value.num, r.value.num) == Ok(n)
      {
        BinaryMeans(op, left, right, l, r, n);
      }
      hide Means;
  }

  lemma FromIntNum()
    ensures forall n :: FromInt(n).num == n
  {
  }

  // ----- builtins -----

  lemma {:induction false} BitLenMeans(n: nat)
    ensures n < Pow2(BitLen(n)) && (n > 0 <==> BitLen(n) > 0) && (n > 0 ==> Pow2(BitLen(n) - 1) <= n)
  {
    if n > 0 {
      BitLenMeans(n / 2);
    }
  }

  /** The least k for which n is below base to the power of k. */
  ghost predicate IsLength(bits: nat, n: nat, k: nat) {
    n < Pow2(bits * k) && (k > 0 ==> Pow2(bits * (k - 1)) <= n)
  }

  lemma {:induction false} Pow2Monotone(j: nat, k: nat)
    requires j <= k
    ensures Pow2(j) <= Pow2(k)
    decreases k
  {
    if j < k {
      Pow2Monotone(j, k - 1);
    }
  }

  lemma BitLengthIs(n: nat)
    ensures IsLength(1, n, BitLen(n))
  {
    BitLenMeans(n);
    var k := BitLen(n);
    hide BitLen, Pow2;
    assert 1 * k == k;
    if k > 0 {
      assert 1 * (k - 1) == k - 1 && n > 0;
    }
  }

  lemma ByteLenMeans(n: nat)
    ensures IsLength(8, n, (BitLen(n) + 7) / 8)
  {
    BitLenMeans(n);
    var b, k := BitLen(n), (BitLen(n) + 7) / 8;
    hide BitLen;
    Pow2Monotone(b, 8 * k);
    if k > 0 {
      Pow2Monotone(8 * (k - 1), b - 1);
    }
  }

  /**
   * What the builtins that calculate give: the magnitude, the number of bits or bytes that the magnitude
   * needs, and the number of bytes that the value stands for, with leading zeros.
   */
  lemma BuiltinMeans(w: World, labels: Labels, stack: set<nat>, env: Env, name: string, arg: Expr)
    requires Eval(w, labels, stack, env, arg).Known?
    requires name == "abs" || name == "intbits" || name == "bitlen" || name == "bytelen" || name == "len"
    ensures var (v, r) := (Eval(w, labels, stack, env, arg).value, Eval(w, labels, stack, env, MacroCallExpr(name, true, [arg])));
            && r.Known?
            && (name == "abs" ==> 0 <= r.value.num && (r.value.num == v.num || r.value.num == -v.num))
            && (name == "intbits" || name == "bitlen" ==> 0 <= r.value.num && IsLength(1, Abs(v.num), r.value.num))
            && (name == "bytelen" ==> 0 <= r.value.num && IsLength(8, Abs(v.num), r.value.num))
            && (name == "len" && Bytes(v).Ok? ==> r.value.num == |Bytes(v).value|)
  {
    var v := Eval(w, labels, stack, env, arg).value;
    CallsBuiltin(w, labels, stack, env, name, arg);
    BuiltinResult(w, name, env.scope.doc, v);
    hide Eval, ApplyBuiltin, BitLen, ByteLen, IsLength;
    BitLengthIs(Abs(v.num));
    ByteLenMeans(Abs(v.num));
  }

  lemma CallsBuiltin(w: World, labels: Labels, stack: set<nat>, env: Env, name: string, arg: Expr)
    requires Eval(w, labels, stack, env, arg).Known? && IsBuiltin(name) && !IsForeignText(name)
    ensures Eval(w, labels, stack, env, MacroCallExpr(name, true, [arg]))
            == ApplyBuiltin(w, name, env.scope.doc, Eval(w, labels, stack, env, arg).value)
  {
    hide ApplyBuiltin, IsBuiltin, IsForeignText;
  }

  lemma BuiltinResult(w: World, name: string, doc: nat, v: Value)
    requires name == "abs" || name == "intbits" || name == "bitlen" || name == "bytelen" || name == "len"
    ensures IsBuiltin(name) && !IsForeignText(name)
    ensures var r := ApplyBuiltin(w, name, doc, v);
            && r.Known?
            && (name == "abs" ==> r.value.num == Abs(v.num))
            && (name == "intbits" || name == "bitlen" ==> r.value.num == BitLen(Abs(v.num)))
            && (name == "bytelen" ==> r.value.num == (BitLen(Abs(v.num)) + 7) / 8)
            && (name == "len" ==> r.value.num == ByteLen(v))
  {
    hide BitLen, ByteLen;
  }
}
