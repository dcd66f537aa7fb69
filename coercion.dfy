/**
 * The per-operator coercion rules of `expression` (`+`, `-`) and `term`
 * (`*`, `/`) in Parser.java.  Each operator is one function over the closed
 * `Value` type; the Java code's final `else` branch, which casts both operands
 * to `Double` without checking, becomes an explicit `OperandType` failure.
 */
module Coercion {
  import opened Values
  import opened Errors

  /** `val1 + val2`: a String on the left concatenates, numbers promote. */
  function Add(h: Host, a: Value, b: Value): (r: Result<Value>)
    ensures r.Success? <==> a.Text? || (IsNumber(a) && IsNumber(b))
    ensures r.Failure? ==> r.error == OperandType
  {
    match (a, b)
    case (Text(s), _) => Success(Text(s + Show(h, b)))
    case (Int(x), Int(y)) => Success(Int(x + y))
    case (Int(x), Real(y)) => Success(Real(h.add(h.fromInt(x), y)))
    case (Real(x), Int(y)) => Success(Real(h.add(x, h.fromInt(y))))
    case (Real(x), Real(y)) => Success(Real(h.add(x, y)))
    case _ => Failure(OperandType)
  }

  /** `val1 - val2`: a String on the left is refused, numbers promote. */
  function Subtract(h: Host, a: Value, b: Value): (r: Result<Value>)
    ensures r.Success? <==> IsNumber(a) && IsNumber(b)
    ensures a.Text? <==> r == Failure(UnsupportedStringOperation(Show(h, a)))
    ensures r.Failure? && !a.Text? ==> r.error == OperandType
  {
    match (a, b)
    case (Text(s), _) => Failure(UnsupportedStringOperation(s))
    case (Int(x), Int(y)) => Success(Int(x - y))
    case (Int(x), Real(y)) => Success(Real(h.sub(h.fromInt(x), y)))
    case (Real(x), Int(y)) => Success(Real(h.sub(x, h.fromInt(y))))
    case (Real(x), Real(y)) => Success(Real(h.sub(x, y)))
    case _ => Failure(OperandType)
  }

  /** `val1 * val2`: numbers only; anything else reaches the unguarded cast. */
  function Multiply(h: Host, a: Value, b: Value): (r: Result<Value>)
    ensures r.Success? <==> IsNumber(a) && IsNumber(b)
    ensures r.Failure? ==> r.error == OperandType
  {
    match (a, b)
    case (Int(x), Int(y)) => Success(Int(x * y))
    case (Int(x), Real(y)) => Success(Real(h.mul(h.fromInt(x), y)))
    case (Real(x), Int(y)) => Success(Real(h.mul(x, h.fromInt(y))))
    case (Real(x), Real(y)) => Success(Real(h.mul(x, y)))
    case _ => Failure(OperandType)
  }

  /** Whether a divisor compares equal to zero (`== 0` or `== 0d`). */
  predicate IsZero(h: Host, v: Value) {
    match v
    case Int(y) => y == 0
    case Real(y) => h.isZero(y)
    case _ => false
  }

  /**
   * `val1 / val2`.  Integers divide exactly when they can and promote to a
   * Double quotient otherwise.  Java's `%` and `/` truncate toward zero, but
   * they are only used when the divisor is non-zero and the remainder is
   * compared with 0, where truncating and Euclidean division agree.  In the
   * Double/Double branch the quotient is computed before the zero check; the
   * check still throws, so no value escapes.
   */
  function Divide(h: Host, a: Value, b: Value): (r: Result<Value>)
    ensures IsZero(h, b) ==> r.Failure?
    ensures IsNumber(a) && IsNumber(b) ==> (r == Failure(DivideByZero) <==> IsZero(h, b))
    ensures r.Success? <==> IsNumber(a) && IsNumber(b) && !IsZero(h, b)
    ensures r.Failure? && !(IsNumber(a) && IsNumber(b)) ==> r.error == OperandType
    ensures r.Success? && r.value.Int? ==> a.Int? && b.Int? && r.value.i * b.i == a.i
  {
    match (a, b)
    case (Int(x), Int(y)) =>
      if y == 0 then Failure(DivideByZero)
      else if x % y == 0 then Success(Int(x / y))
      else Success(Real(h.div(h.fromInt(x), h.fromInt(y))))
    case (Int(x), Real(y)) =>
      if h.isZero(y) then Failure(DivideByZero) else Success(Real(h.div(h.fromInt(x), y)))
    case (Real(x), Int(y)) =>
      if y == 0 then Failure(DivideByZero) else Success(Real(h.div(x, h.fromInt(y))))
    case (Real(x), Real(y)) =>
      var q := h.div(x, y);
      if h.isZero(y) then Failure(DivideByZero) else Success(Real(q))
    case _ => Failure(OperandType)
  }

  /** The four binary operators as the parser dispatches on them. */
  datatype Op = AddOp | SubOp | MulOp | DivOp

  function Apply(h: Host, op: Op, a: Value, b: Value): Result<Value> {
    match op
    case AddOp => Add(h, a, b)
    case SubOp => Subtract(h, a, b)
    case MulOp => Multiply(h, a, b)
    case DivOp => Divide(h, a, b)
  }

  // ---------------------------------------------------------------------
  // The coercion table, operator by operator

  /** Addition: left String concatenates `toString` of the right, whatever its type. */
  lemma ConcatenateAnyRight(h: Host, s: string, b: Value)
    ensures Add(h, Text(s), b) == Success(Text(s + Show(h, b)))
    ensures b.Int? ==> Add(h, Text(s), b) == Success(Text(s + IntToString(b.i)))
  {
  }

  /**
   * For two numbers, `+`, `-` and `*` succeed; the result is an Integer exactly
   * when both operands are, and then it is the exact integer result; otherwise
   * it is a Double built from the promoted operands.
   */
  lemma {:induction false} NumericPromotion(h: Host, op: Op, a: Value, b: Value)
    requires op != DivOp && IsNumber(a) && IsNumber(b)
    ensures Apply(h, op, a, b).Success?
    ensures Apply(h, op, a, b).value.Int? <==> a.Int? && b.Int?
    ensures Apply(h, op, a, b).value.Real? <==> a.Real? || b.Real?
    ensures a.Int? && b.Int? && op == AddOp ==> Apply(h, op, a, b).value.i == a.i + b.i
    ensures a.Int? && b.Int? && op == SubOp ==> Apply(h, op, a, b).value.i == a.i - b.i
    ensures a.Int? && b.Int? && op == MulOp ==> Apply(h, op, a, b).value.i == a.i * b.i
  {
  }

  /** Which operand shapes each operator refuses, and with which error. */
  lemma TypeErrors(h: Host, a: Value, b: Value)
    ensures a.Text? ==> Subtract(h, a, b) == Failure(UnsupportedStringOperation(a.s))
    ensures a.Text? || b.Text? ==> Multiply(h, a, b) == Failure(OperandType)
    ensures a.Int? && b.Text? ==> Add(h, a, b) == Failure(OperandType)
    ensures a.Opaque? || b.Opaque? ==> Multiply(h, a, b) == Failure(OperandType) && Divide(h, a, b) == Failure(OperandType)
  {
  }

  /**
   * Integer division: an Integer quotient exactly when the divisor divides the
   * dividend, otherwise the Double quotient of the widened operands.
   */
  lemma IntegerDivision(h: Host, x: int, y: int)
    requires y != 0
    ensures x % y == 0 ==> exists q :: Divide(h, Int(x), Int(y)) == Success(Int(q)) && q * y == x
    ensures x % y != 0 ==> Divide(h, Int(x), Int(y)) == Success(Real(h.div(h.fromInt(x), h.fromInt(y))))
  {
    if x % y == 0 {
      var q := x / y;
      assert Divide(h, Int(x), Int(y)) == Success(Int(q));
    }
  }

  /** A zero divisor fails whatever the dividend, before any value is produced. */
  lemma ZeroDivisorNeverYieldsValue(h: Host, a: Value, z: Real)
    requires h.isZero(z)
    ensures Divide(h, a, Int(0)).Failure? && Divide(h, a, Real(z)).Failure?
    ensures IsNumber(a) ==> Divide(h, a, Int(0)) == Failure(DivideByZero) && Divide(h, a, Real(z)) == Failure(DivideByZero)
  {
  }
}
