/**
 * Properties of function calls in the `Grammar` functions, that is, of the
 * `Func` branch of Parser.java's `primary` and its argument loop.
 */
module CallFacts {
  import opened Values
  import opened Tokens
  import opened Errors
  import opened Grammar
  import opened GrammarFacts

  /** A function name must be followed by '(' and the input must not end after it. */
  lemma CallNeedsParenthesis(c: Config, ts: seq<Token>, name: string, i: nat, tab: Table)
    requires i <= |ts|
    ensures i == |ts| ==> Primary(c, ts, Token(Func, Text(name)), i, tab) == Err(SyntaxError(EndOfInput(name)))
    ensures i < |ts| && ts[i].kind != LParen ==>
      Primary(c, ts, Token(Func, Text(name)), i, tab) == Err(SyntaxError(ExpectingLParen(name)))
  {
  }

  /** The literals of an argument list, and the values `primary` gives them. */
  predicate AllLiteral(args: seq<Token>) {
    forall k :: 0 <= k < |args| ==> IsLiteral(args[k])
  }

  function ValuesOf(args: seq<Token>): (vs: seq<Value>)
    ensures |vs| == |args|
  {
    if args == [] then [] else [args[0].value] + ValuesOf(args[1..])
  }

  /**
   * An argument list as the lexer delivers it: each argument followed, unless
   * it is the last, by the `comma` token when `commas` says so at its index.
   */
  function RenderArgs(args: seq<Token>, commas: seq<bool>, comma: Token): seq<Token> {
    if args == [] then []
    else
      var sep := if |args| > 1 && |commas| > 0 && commas[0] then [comma] else [];
      [args[0]] + sep + RenderArgs(args[1..], if commas == [] then [] else commas[1..], comma)
  }

  lemma RenderArgsStartsWithArgument(args: seq<Token>, commas: seq<bool>, comma: Token)
    requires args != []
    ensures |RenderArgs(args, commas, comma)| > 0 && RenderArgs(args, commas, comma)[0] == args[0]
  {
  }

  /**
   * The argument loop on literal arguments, whether or not commas separate
   * them, ends at ')' and passes the arguments to the dispatcher in order.
   */
  lemma {:induction false} LiteralArguments(c: Config, ts: seq<Token>, name: string, p: nat, args: seq<Token>,
                                            commas: seq<bool>, comma: Token, params: seq<Value>, tab: Table)
    requires AllLiteral(args) && comma.kind == Comma
    requires p + |RenderArgs(args, commas, comma)| < |ts|
    requires ts[p..p + |RenderArgs(args, commas, comma)|] == RenderArgs(args, commas, comma)
    requires ts[p + |RenderArgs(args, commas, comma)|].kind == RParen
    ensures Arguments(c, ts, name, ts[p], p + 1, params, tab)
         == Lift(Invoke(c, name, params + ValuesOf(args)), p + |RenderArgs(args, commas, comma)| + 1, tab)
    decreases |args|
  {
    if args == [] {
      assert params + ValuesOf(args) == params;
    } else {
      var rest := if commas == [] then [] else commas[1..];
      var q := ArgumentsLayout(ts, p, args, commas, comma);
      ArgumentAfterLiteral(c, ts, name, args[0], p + 1, q, params, tab);
      assert params + ValuesOf(args) == (params + [args[0].value]) + ValuesOf(args[1..]);
      LiteralArguments(c, ts, name, q, args[1..], rest, comma, params + [args[0].value], tab);
    }
  }

  /**
   * Where the rendering of a non-empty literal argument list puts its first
   * argument, its optional comma and the rendering of the remaining arguments,
   * which starts at `q`.
   */
  lemma ArgumentsLayout(ts: seq<Token>, p: nat, args: seq<Token>, commas: seq<bool>, comma: Token) returns (q: nat)
    requires args != [] && AllLiteral(args) && comma.kind == Comma
    requires p + |RenderArgs(args, commas, comma)| < |ts|
    requires ts[p..p + |RenderArgs(args, commas, comma)|] == RenderArgs(args, commas, comma)
    requires ts[p + |RenderArgs(args, commas, comma)|].kind == RParen
    ensures ts[p] == args[0] && p + 1 < |ts| && EndsExpression(ts, p + 1)
    ensures var rest := if commas == [] then [] else commas[1..];
      && q + |RenderArgs(args[1..], rest, comma)| < |ts|
      && ts[q..q + |RenderArgs(args[1..], rest, comma)|] == RenderArgs(args[1..], rest, comma)
      && q + |RenderArgs(args[1..], rest, comma)| == p + |RenderArgs(args, commas, comma)|
    ensures ts[p + 1].kind == Comma ==> q == p + 2 && ts[q].kind != RParen
    ensures ts[p + 1].kind != Comma ==> q == p + 1
  {
    var r := RenderArgs(args, commas, comma);
    var a := args[0];
    var more := args[1..];
    var rest := if commas == [] then [] else commas[1..];
    var sep := if |args| > 1 && |commas| > 0 && commas[0] then [comma] else [];
    var r' := RenderArgs(more, rest, comma);
    q := p + 1 + |sep|;
    assert r == [a] + sep + r';
    SliceParts(ts, p, [a] + sep, r');
    SliceParts(ts, p, [a], sep);
    assert ts[p] == ts[p..p + 1][0] == a;
    if more == [] {
      assert sep == [] && r' == [];
      assert ts[p + 1].kind == RParen;
    } else {
      assert IsLiteral(more[0]);
      RenderArgsStartsWithArgument(more, rest, comma);
      assert ts[q] == ts[q..q + |r'|][0] == more[0];
      if sep != [] {
        assert ts[p + 1] == ts[p + 1..p + 2][0] == comma;
      }
    }
  }

  /**
   * A call on literal arguments returns, unchanged, what the dispatcher
   * returns for the arguments in left-to-right order (or its exception).
   */
  lemma CallOfLiterals(c: Config, f: Token, lp: Token, args: seq<Token>, commas: seq<bool>, comma: Token, rp: Token,
                       tail: seq<Token>, tab: Table)
    requires f.kind == Func && f.value.Text? && lp.kind == LParen && rp.kind == RParen && comma.kind == Comma
    requires AllLiteral(args)
    ensures var ts := [f, lp] + RenderArgs(args, commas, comma) + [rp] + tail;
      Primary(c, ts, f, 1, tab)
        == Lift(Invoke(c, f.value.s, ValuesOf(args)), |RenderArgs(args, commas, comma)| + 3, tab)
  {
    var r := RenderArgs(args, commas, comma);
    var ts := [f, lp] + r + [rp] + tail;
    assert ts[2..2 + |r|] == r;
    assert ts[2 + |r|] == rp;
    if args == [] {
      assert ts[2] == rp;
    }
    LiteralArguments(c, ts, f.value.s, 2, args, commas, comma, [], tab);
    assert [] + ValuesOf(args) == ValuesOf(args);
  }

  /** `f(1, 2, 3)` calls the dispatcher with `[1, 2, 3]`. */
  lemma CallWithThreeArguments(c: Config, f: Token, lp: Token, comma: Token, rp: Token, tab: Table)
    requires f == Token(Func, Text("f")) && lp.kind == LParen && comma.kind == Comma && rp.kind == RParen
    ensures var one, two, three := Token(IntegerLit, Int(1)), Token(IntegerLit, Int(2)), Token(IntegerLit, Int(3));
      EvalStatement(c, [f, lp, one, comma, two, comma, three, rp], tab)
        == (match c.invoke("f", [Int(1), Int(2), Int(3)])
            case Returned(_) => Success(tab)
            case Raised(m) => Failure(CallFailed(m)))
  {
    var one, two, three := Token(IntegerLit, Int(1)), Token(IntegerLit, Int(2)), Token(IntegerLit, Int(3));
    var args := [one, two, three];
    var ts := [f, lp, one, comma, two, comma, three, rp];
    assert RenderArgs([three], [], comma) == [three];
    assert [two, three][1..] == [three] && [true][1..] == [];
    assert RenderArgs([two, three], [true], comma) == [two, comma, three];
    assert args[1..] == [two, three] && [true, true][1..] == [true];
    assert RenderArgs(args, [true, true], comma) == [one, comma, two, comma, three];
    CallOfLiterals(c, f, lp, args, [true, true], comma, rp, [], tab);
    assert [f, lp] + RenderArgs(args, [true, true], comma) + [rp] + [] == ts;
    assert ValuesOf([three]) == [Int(3)];
    assert ValuesOf([two, three]) == [Int(2), Int(3)];
    assert ValuesOf(args) == [Int(1), Int(2), Int(3)];
    var call := Lift(Invoke(c, "f", [Int(1), Int(2), Int(3)]), 8, tab);
    assert Primary(c, ts, f, 1, tab) == call;
    assert Term(c, ts, f, 1, tab) == call;
    assert Expression(c, ts, f, 1, tab) == call;
  }

  /** Commas are optional: `f(1 2)` calls the dispatcher with `[1, 2]`. */
  lemma CommasAreOptional(c: Config, f: Token, lp: Token, rp: Token, tab: Table)
    requires f == Token(Func, Text("f")) && lp.kind == LParen && rp.kind == RParen
    ensures var one, two := Token(IntegerLit, Int(1)), Token(IntegerLit, Int(2));
      Primary(c, [f, lp, one, two, rp], f, 1, tab) == Lift(Invoke(c, "f", [Int(1), Int(2)]), 5, tab)
  {
    var one, two := Token(IntegerLit, Int(1)), Token(IntegerLit, Int(2));
    var comma := Token(Comma, Text(","));
    assert RenderArgs([two], [], comma) == [two];
    assert [one, two][1..] == [two];
    assert RenderArgs([one, two], [], comma) == [one, two];
    CallOfLiterals(c, f, lp, [one, two], [], comma, rp, [], tab);
    assert [f, lp] + RenderArgs([one, two], [], comma) + [rp] + [] == [f, lp, one, two, rp];
    assert ValuesOf([two]) == [Int(2)];
    assert ValuesOf([one, two]) == [Int(1), Int(2)];
  }

  /**
   * One round of the argument loop on any argument expression `tk ...`: an
   * error in the argument ends the call with that error; otherwise the value
   * is recorded and the loop goes on past an optional comma.  The remaining
   * cases are the rejections below.
   */
  lemma ArgumentStep(c: Config, ts: seq<Token>, name: string, tk: Token, i: nat, params: seq<Value>, tab: Table)
    requires tk.kind != RParen && i <= |ts|
    ensures var r := Expression(c, ts, tk, i, tab);
      r.Err? ==> Arguments(c, ts, name, tk, i, params, tab) == Err(r.error)
    ensures var r := Expression(c, ts, tk, i, tab);
      r.Ok? && r.next + 1 < |ts| && ts[r.next].kind == Comma && ts[r.next + 1].kind != RParen ==>
        Arguments(c, ts, name, tk, i, params, tab) == Arguments(c, ts, name, ts[r.next + 1], r.next + 2, params + [r.value], tab)
    ensures var r := Expression(c, ts, tk, i, tab);
      r.Ok? && r.next < |ts| && ts[r.next].kind != Comma ==>
        Arguments(c, ts, name, tk, i, params, tab) == Arguments(c, ts, name, ts[r.next], r.next + 1, params + [r.value], tab)
  {
  }

  /** `f(x,)`: a comma directly before ')' is a syntax error, whatever the argument before it. */
  lemma TrailingCommaRejected(c: Config, ts: seq<Token>, name: string, tk: Token, i: nat, params: seq<Value>, tab: Table)
    requires tk.kind != RParen && i <= |ts|
    ensures var r := Expression(c, ts, tk, i, tab);
      r.Ok? && r.next + 1 < |ts| && ts[r.next].kind == Comma && ts[r.next + 1].kind == RParen ==>
        Arguments(c, ts, name, tk, i, params, tab) == Err(SyntaxError(UnexpectedComma(name)))
  {
  }

  /**
   * `f(x,,y)`: after a comma the next token starts an argument, so a second
   * comma is rejected as a primary (not reported as a syntax error).
   */
  lemma DoubleCommaRejected(c: Config, ts: seq<Token>, name: string, tk: Token, i: nat, params: seq<Value>, tab: Table)
    requires tk.kind != RParen && i <= |ts|
    ensures var r := Expression(c, ts, tk, i, tab);
      r.Ok? && r.next + 1 < |ts| && ts[r.next].kind == Comma && ts[r.next + 1].kind == Comma ==>
        Arguments(c, ts, name, tk, i, params, tab) == Err(UnsupportedPrimary(ts[r.next + 1]))
  {
    var r := Expression(c, ts, tk, i, tab);
    if r.Ok? && r.next + 1 < |ts| && ts[r.next].kind == Comma && ts[r.next + 1].kind == Comma {
      assert Expression(c, ts, ts[r.next + 1], r.next + 2, tab) == Err(UnsupportedPrimary(ts[r.next + 1]));
    }
  }

  /** Input that ends inside an argument list, alone or after a comma, is a syntax error. */
  lemma UnclosedCallRejected(c: Config, ts: seq<Token>, name: string, tk: Token, i: nat, params: seq<Value>, tab: Table)
    requires tk.kind != RParen && i <= |ts|
    ensures var r := Expression(c, ts, tk, i, tab);
      r.Ok? && (r.next == |ts| || (r.next + 1 == |ts| && ts[r.next].kind == Comma)) ==>
        Arguments(c, ts, name, tk, i, params, tab) == Err(SyntaxError(EndOfInput(name)))
  {
  }

  /**
   * From `tk` at `i - 1` on, `ts` holds argument expressions whose values are
   * `vs`, in order, each followed by an optional comma that ')' does not
   * follow, and then the ')' that ends the call just before `end`.
   */
  predicate ArgumentsEvaluate(c: Config, ts: seq<Token>, tk: Token, i: nat, vs: seq<Value>, end: nat, tab: Table)
    requires i <= |ts|
    decreases |vs|
  {
    if vs == [] then tk.kind == RParen && end == i
    else
      && tk.kind != RParen
      && var r := Expression(c, ts, tk, i, tab);
      && r.Ok? && r.value == vs[0] && r.next < |ts|
      && if ts[r.next].kind == Comma then
           r.next + 1 < |ts| && ts[r.next + 1].kind != RParen
           && ArgumentsEvaluate(c, ts, ts[r.next + 1], r.next + 2, vs[1..], end, tab)
         else
           ArgumentsEvaluate(c, ts, ts[r.next], r.next + 1, vs[1..], end, tab)
  }

  /**
   * The argument loop on argument expressions that evaluate to `vs` hands the
   * dispatcher exactly `vs`, in order, after what it already collected, and
   * returns its result (or its exception) with the cursor after ')'.
   */
  lemma {:induction false} ArgumentsPassInOrder(c: Config, ts: seq<Token>, name: string, tk: Token, i: nat, vs: seq<Value>,
                                                end: nat, params: seq<Value>, tab: Table)
    requires i <= |ts| && ArgumentsEvaluate(c, ts, tk, i, vs, end, tab)
    ensures Arguments(c, ts, name, tk, i, params, tab) == Lift(Invoke(c, name, params + vs), end, tab)
    decreases |vs|
  {
    if vs == [] {
      assert params + vs == params;
    } else {
      var r := Expression(c, ts, tk, i, tab);
      ArgumentStep(c, ts, name, tk, i, params, tab);
      assert params + vs == (params + [vs[0]]) + vs[1..];
      if ts[r.next].kind == Comma {
        ArgumentsPassInOrder(c, ts, name, ts[r.next + 1], r.next + 2, vs[1..], end, params + [vs[0]], tab);
      } else {
        ArgumentsPassInOrder(c, ts, name, ts[r.next], r.next + 1, vs[1..], end, params + [vs[0]], tab);
      }
    }
  }

  /**
   * A call `name(...)` whose argument expressions evaluate to `vs` returns
   * what the dispatcher returns for `vs` (or fails with its exception), and
   * `primary` stops right after ')'.
   */
  lemma CallPassesArguments(c: Config, ts: seq<Token>, name: string, i: nat, vs: seq<Value>, end: nat, tab: Table)
    requires i + 1 < |ts| && ts[i].kind == LParen && ArgumentsEvaluate(c, ts, ts[i + 1], i + 2, vs, end, tab)
    ensures Primary(c, ts, Token(Func, Text(name)), i, tab) == Lift(Invoke(c, name, vs), end, tab)
  {
    ArgumentsPassInOrder(c, ts, name, ts[i + 1], i + 2, vs, end, [], tab);
    assert [] + vs == vs;
  }
}
