/**
 * Runtime values of the chart scripting language.
 *
 * The evaluator works on Java `Object`s that are in practice an `Integer`, a
 * `Double`, a `String`, or whatever the function dispatcher returns.  Here they
 * form one closed datatype.  Floating point is not modelled: `Real` is an
 * abstract type whose arithmetic is supplied, uninterpreted, by a `Host`.
 */
module Values {

  /** Conventional optional value; `None` also stands for Java's `null`. */
  datatype Option<+T> = None | Some(value: T)

  /** A Java `Double`; nothing is assumed about its arithmetic. */
  type Real

  /** An evaluator value: `Integer`, `Double`, `String`, or an object returned by the dispatcher. */
  datatype Value =
    | Int(i: int)
    | Real(r: Real)
    | Text(s: string)
    | Opaque(handle: nat)

  predicate IsNumber(v: Value) {
    v.Int? || v.Real?
  }

  /**
   * The Java runtime services the evaluator relies on but that are not
   * modelled: widening an `int` to `double`, the four `double` operators,
   * comparison with `0d`, `Double.toString`, and `toString` of dispatcher results.
   */
  datatype Host = Host(
    fromInt: int -> Real,
    add: (Real, Real) -> Real,
    sub: (Real, Real) -> Real,
    mul: (Real, Real) -> Real,
    div: (Real, Real) -> Real,
    isZero: Real -> bool,
    showReal: Real -> string,
    showOpaque: nat -> string)

  /**
   * `Object.toString` of a value, as used by string concatenation; an
   * Integer's text reads back as the same number.
   */
  function Show(h: Host, v: Value): (r: string)
    ensures v.Int? ==> DecimalValue(r) == v.i
  {
    match v
    case Int(n) => IntToStringRoundTrip(n); IntToString(n)
    case Real(x) => h.showReal(x)
    case Text(s) => s
    case Opaque(o) => h.showOpaque(o)
  }

  // ---------------------------------------------------------------------
  // Integer.toString: optional minus sign followed by decimal digits

  predicate IsDigit(c: char) {
    '0' <= c <= '9'
  }

  function DigitChar(d: nat): (c: char)
    requires d < 10
    ensures IsDigit(c) && (c as int) - ('0' as int) == d
  {
    "0123456789"[d]
  }

  function NatToString(n: nat): (s: string)
    ensures |s| > 0 && forall k :: 0 <= k < |s| ==> IsDigit(s[k])
    decreases n
  {
    if n < 10 then [DigitChar(n)] else NatToString(n / 10) + [DigitChar(n % 10)]
  }

  function IntToString(n: int): (s: string)
    ensures |s| > 0
    ensures (s[0] == '-') <==> n < 0
  {
    if n < 0 then "-" + NatToString(-n) else NatToString(n)
  }

  /** The value a string of decimal digits denotes; the partner of `NatToString`. */
  function DigitsValue(s: string): nat {
    if s == [] then 0
    else
      var d := (s[|s| - 1] as int) - ('0' as int);
      DigitsValue(s[..|s| - 1]) * 10 + (if 0 <= d then d else 0)
  }

  /** `Integer.parseInt` restricted to what `IntToString` produces. */
  function DecimalValue(s: string): int {
    if |s| > 0 && s[0] == '-' then -(DigitsValue(s[1..]) as int) else DigitsValue(s)
  }

  lemma {:induction false} NatToStringRoundTrip(n: nat)
    ensures DigitsValue(NatToString(n)) == n
    decreases n
  {
    if n >= 10 {
      NatToStringRoundTrip(n / 10);
      var s := NatToString(n / 10) + [DigitChar(n % 10)];
      assert s[..|s| - 1] == NatToString(n / 10);
    }
  }

  /** Decimal rendering of an `Integer` loses nothing. */
  lemma IntToStringRoundTrip(n: int)
    ensures DecimalValue(IntToString(n)) == n
  {
    if n < 0 {
      NatToStringRoundTrip(-n);
      assert IntToString(n)[1..] == NatToString(-n);
    } else {
      NatToStringRoundTrip(n);
    }
  }
}

/** `Token` and the `TokenIterator` over a list of tokens. */
module Tokens {
  import opened Values

  datatype Kind =
    | IntegerLit | RealLit | StringLit | Symbol | Func
    | Plus | Minus | Mult | Div | Assign
    | LParen | RParen | Comma | Semi

  /** A lexed token: its kind and the `Object` the lexer attached to it. */
  datatype Token = Token(kind: Kind, value: Value)

  /** The token kinds `primary` accepts as its first token. */
  predicate StartsPrimary(k: Kind) {
    k == IntegerLit || k == RealLit || k == StringLit || k == Symbol || k == Func
  }

  predicate IsLiteral(t: Token) {
    t.kind == IntegerLit || t.kind == RealLit || t.kind == StringLit
  }

  /** A cursor over a fixed list of tokens. */
  class TokenIterator {
    const tokens: seq<Token>
    var index: nat

    ghost predicate Valid()
      reads this
    {
      index <= |tokens|
    }

    constructor (tokens: seq<Token>)
      ensures Valid() && this.tokens == tokens && index == 0
    {
      this.tokens := tokens;
      index := 0;
    }

    predicate HasNext()
      reads this
    {
      index < |tokens|
    }

    method Peek() returns (t: Token)
      requires Valid() && HasNext()
      ensures t == tokens[index]
    {
      t := tokens[index];
    }

    method Next() returns (t: Token)
      requires Valid() && HasNext()
      modifies this
      ensures Valid()
      ensures t == tokens[old(index)] && index == old(index) + 1
    {
      t := tokens[index];
      index := index + 1;
    }
  }
}

/** What evaluation can fail with: one case per exception the parser can raise. */
module Errors {
  import opened Values
  import opened Tokens

  datatype SyntaxReason =
    | TrailingTokens            // "unexpected symbol at end of statement"
    | EndOfInput(func: string)  // "unexpected end of input" inside a call
    | ExpectingLParen(func: string)
    | UnexpectedComma(func: string)

  datatype Error =
    | EndOfFile                                // the stream ended inside a statement
    | SyntaxError(reason: SyntaxReason)
    | UnsupportedStringOperation(left: string) // subtraction from a String
    | DivideByZero
    | OperandType                              // an unguarded cast throws ClassCastException
    | UninitializedSymbol(name: Value)
    | UnsupportedPrimary(token: Token)
    | NoNextToken                              // TokenIterator.next() past the last token
    | CallFailed(message: string)              // an exception raised by the dispatcher

  datatype Result<+T> = Success(value: T) | Failure(error: Error)
}
