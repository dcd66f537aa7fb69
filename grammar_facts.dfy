/**
 * Properties of the `Grammar` functions, that is, of Parser.java's
 * `parse`, `parseStatement` and `primary`, under either reading of the
 * operator loops.
 */
module GrammarFacts {
  import opened Values
  import opened Tokens
  import opened Errors
  import opened Coercion
  import opened Grammar

  predicate IsOperator(k: Kind) {
    k == Plus || k == Minus || k == Mult || k == Div
  }

  /** The token at `i` (if any) does not continue an expression. */
  predicate EndsExpression(ts: seq<Token>, i: nat) {
    i >= |ts| || !IsOperator(ts[i].kind)
  }

  // ---------------------------------------------------------------------
  // primary

  /**
   * Literals are returned verbatim, a symbol is looked up in the table and an
   * unbound one is an uninitialized symbol, and every other token kind is an
   * unsupported primary; none of these consumes a further token.
   */
  lemma PrimaryForms(c: Config, ts: seq<Token>, tk: Token, i: nat, tab: Table)
    requires i <= |ts|
    ensures IsLiteral(tk) ==> Primary(c, ts, tk, i, tab) == Ok(tk.value, i, tab)
    ensures tk.kind == Symbol && !(i < |ts| && ts[i].kind == Assign) && tk.value.Text? && tk.value.s in tab
      ==> Primary(c, ts, tk, i, tab) == Ok(tab[tk.value.s], i, tab)
    ensures tk.kind == Symbol && !(i < |ts| && ts[i].kind == Assign) && !(tk.value.Text? && tk.value.s in tab)
      ==> Primary(c, ts, tk, i, tab) == Err(UninitializedSymbol(tk.value))
    ensures !StartsPrimary(tk.kind) ==> Primary(c, ts, tk, i, tab) == Err(UnsupportedPrimary(tk))
  {
  }

  /**
   * `symbol = expression` never succeeds: the '=' token is handed to
   * `expression` as its first token and rejected as a primary, so the
   * `symbolTable.put` after it is never reached.
   */
  lemma {:induction false} AssignmentAlwaysFails(c: Config, ts: seq<Token>, tk: Token, i: nat, tab: Table)
    requires tk.kind == Symbol && i < |ts| && ts[i].kind == Assign
    ensures Primary(c, ts, tk, i, tab) == Err(UnsupportedPrimary(ts[i]))
  {
    assert Expression(c, ts, ts[i], i + 1, tab) == Err(UnsupportedPrimary(ts[i]));
  }

  /** `a = 3;` is rejected, and it leaves no binding behind. */
  lemma AssignmentStatementFails(c: Config, a: Token, eq: Token, three: Token, tab: Table)
    requires a.kind == Symbol && eq.kind == Assign && three == Token(IntegerLit, Int(3))
    ensures EvalStatement(c, [a, eq, three], tab) == Failure(UnsupportedPrimary(eq))
  {
    var ts := [a, eq, three];
    AssignmentAlwaysFails(c, ts, a, 1, tab);
    assert Term(c, ts, a, 1, tab) == Err(UnsupportedPrimary(eq));
    assert Expression(c, ts, a, 1, tab) == Err(UnsupportedPrimary(eq));
  }

  /** A literal followed by anything but an operator is a complete expression. */
  lemma LiteralExpression(c: Config, ts: seq<Token>, tk: Token, i: nat, tab: Table)
    requires i <= |ts| && IsLiteral(tk) && EndsExpression(ts, i)
    ensures Expression(c, ts, tk, i, tab) == Ok(tk.value, i, tab)
  {
    assert Primary(c, ts, tk, i, tab) == Ok(tk.value, i, tab);
    assert TermLoop(c, ts, tk.value, i, tab) == Ok(tk.value, i, tab);
    assert Term(c, ts, tk, i, tab) == Ok(tk.value, i, tab);
    assert ExpressionLoop(c, ts, tk.value, i, tab) == Ok(tk.value, i, tab);
  }

  /**
   * After a literal argument, the loop moves on past an optional comma to the
   * next argument at `q`, and records the literal's value; ')' directly after
   * a comma is left to `TrailingCommaRejected`.
   */
  lemma ArgumentAfterLiteral(c: Config, ts: seq<Token>, name: string, tk: Token, i: nat, q: nat, params: seq<Value>, tab: Table)
    requires IsLiteral(tk) && i < |ts| && EndsExpression(ts, i)
    requires ts[i].kind == Comma ==> q == i + 1 && q < |ts| && ts[q].kind != RParen
    requires ts[i].kind != Comma ==> q == i
    ensures Arguments(c, ts, name, tk, i, params, tab) == Arguments(c, ts, name, ts[q], q + 1, params + [tk.value], tab)
  {
    LiteralExpression(c, ts, tk, i, tab);
  }

  // ---------------------------------------------------------------------
  // statements

  /**
   * A statement succeeds exactly when it is empty or its first token starts
   * one expression that uses up all of its tokens; left-over tokens are a
   * syntax error.
   */
  lemma StatementOutcome(c: Config, stmt: seq<Token>, tab: Table)
    ensures EvalStatement(c, stmt, tab).Success?
        <==> stmt == [] || (Expression(c, stmt, stmt[0], 1, tab).Ok? && Expression(c, stmt, stmt[0], 1, tab).next == |stmt|)
    ensures stmt != [] && Expression(c, stmt, stmt[0], 1, tab).Ok? && Expression(c, stmt, stmt[0], 1, tab).next < |stmt|
        ==> EvalStatement(c, stmt, tab) == Failure(SyntaxError(TrailingTokens))
  {
  }

  /** A lone `SEMI` is an empty statement: nothing is evaluated, nothing changes. */
  lemma EmptyStatement(c: Config, ts: seq<Token>, i: nat, tab: Table)
    requires i < |ts| && ts[i].kind == Semi
    ensures ParseStatement(c, ts, i, tab) == Success((i + 1, tab))
  {
    assert ts[i..i] == [];
  }

  /** `;;` parses without error. */
  lemma TwoEmptyStatements(c: Config, s1: Token, s2: Token, tab: Table)
    requires s1.kind == Semi && s2.kind == Semi
    ensures Parse(c, [s1, s2], 0, tab) == Success(tab)
  {
    EmptyStatement(c, [s1, s2], 0, tab);
    EmptyStatement(c, [s1, s2], 1, tab);
    assert Parse(c, [s1, s2], 2, tab) == Success(tab);
    assert Parse(c, [s1, s2], 1, tab) == Success(tab);
  }

  /** Shifting the whole stream behind a prefix shifts where the next `SEMI` is found. */
  lemma {:induction false} SemiIndexShift(pre: seq<Token>, ts: seq<Token>, i: nat)
    requires i <= |ts|
    ensures match SemiIndex(ts, i)
      case None => SemiIndex(pre + ts, |pre| + i).None?
      case Some(k) => SemiIndex(pre + ts, |pre| + i) == Some(|pre| + k)
    decreases |ts| - i
  {
    if i < |ts| {
      assert (pre + ts)[|pre| + i] == ts[i];
      if ts[i].kind != Semi {
        SemiIndexShift(pre, ts, i + 1);
      }
    }
  }

  /** Appending tokens cannot move the first `SEMI` of the stream. */
  lemma {:induction false} SemiIndexExtend(ts: seq<Token>, more: seq<Token>, i: nat)
    requires i <= |ts| && SemiIndex(ts, i).Some?
    ensures SemiIndex(ts + more, i) == SemiIndex(ts, i)
    decreases |ts| - i
  {
    assert (ts + more)[i] == ts[i];
    if ts[i].kind != Semi {
      SemiIndexExtend(ts, more, i + 1);
    }
  }

  /** A statement behind a prefix is read exactly as on its own. */
  lemma ParseStatementShift(c: Config, pre: seq<Token>, ts: seq<Token>, i: nat, tab: Table)
    requires i <= |ts|
    ensures ParseStatement(c, pre + ts, |pre| + i, tab)
         == match ParseStatement(c, ts, i, tab)
            case Success((k, t)) => Success((|pre| + k, t))
            case Failure(e) => Failure(e)
  {
    SemiIndexShift(pre, ts, i);
    if SemiIndex(ts, i).Some? {
      var k := SemiIndex(ts, i).value;
      assert (pre + ts)[|pre| + i..|pre| + k] == ts[i..k];
    }
  }

  /** A statement that is complete is not affected by what follows it. */
  lemma ParseStatementExtend(c: Config, ts: seq<Token>, more: seq<Token>, i: nat, tab: Table)
    requires i <= |ts| && SemiIndex(ts, i).Some?
    ensures ParseStatement(c, ts + more, i, tab) == ParseStatement(c, ts, i, tab)
  {
    SemiIndexExtend(ts, more, i);
    var k := SemiIndex(ts, i).value;
    assert (ts + more)[i..k] == ts[i..k];
  }

  /**
   * `parse` of a stream behind a prefix, started after the prefix, ignores the
   * prefix.  This relies on the dispatcher being a fixed function of the call;
   * Parser.java's `FunctionCaller` is a static singleton (Parser.java:13) whose
   * own state is not part of this model.
   */
  lemma {:induction false} ParseShift(c: Config, pre: seq<Token>, ts: seq<Token>, i: nat, tab: Table)
    requires i <= |ts|
    ensures Parse(c, pre + ts, |pre| + i, tab) == Parse(c, ts, i, tab)
    decreases |ts| - i
  {
    if i < |ts| {
      ParseStatementShift(c, pre, ts, i, tab);
      match ParseStatement(c, ts, i, tab)
      case Failure(_) =>
      case Success((k, t)) =>
        ParseShift(c, pre, ts, k, t);
    }
  }

  /**
   * Statements are evaluated one after another with nothing carried over
   * except the table: once a stream parses, whatever follows it parses as if
   * on its own.  And an error other than a missing final `SEMI` is final:
   * tokens appended after it change nothing.  As for `ParseShift`, this holds
   * for the model's dispatcher, a fixed function of the call; a dispatcher
   * that keeps state between calls is not modelled.
   */
  lemma {:induction false} ParseAppend(c: Config, ts: seq<Token>, more: seq<Token>, i: nat, tab: Table)
    requires i <= |ts|
    ensures Parse(c, ts, i, tab).Success? ==> Parse(c, ts + more, i, tab) == Parse(c, more, 0, tab)
    ensures Parse(c, ts, i, tab).Failure? && Parse(c, ts, i, tab).error != EndOfFile
      ==> Parse(c, ts + more, i, tab) == Parse(c, ts, i, tab)
    decreases |ts| - i
  {
    if i == |ts| {
      ParseShift(c, ts, more, 0, tab);
    } else if SemiIndex(ts, i).Some? {
      ParseStatementExtend(c, ts, more, i, tab);
      match ParseStatement(c, ts, i, tab)
      case Failure(_) =>
      case Success((k, t)) =>
        ParseAppend(c, ts, more, k, t);
    }
  }

  /** A stream that parses is empty or ends with a `SEMI`. */
  lemma {:induction false} ParsedStreamEndsWithSemi(c: Config, ts: seq<Token>, i: nat, tab: Table)
    requires i < |ts| && Parse(c, ts, i, tab).Success?
    ensures ts[|ts| - 1].kind == Semi
    decreases |ts| - i
  {
    var k := SemiIndex(ts, i).value;
    var t := EvalStatement(c, ts[i..k], tab).value;
    if k + 1 < |ts| {
      ParsedStreamEndsWithSemi(c, ts, k + 1, t);
    }
  }

  // ---------------------------------------------------------------------
  // slices

  /** A slice that is a concatenation splits into the slices of its parts. */
  lemma SliceParts(ts: seq<Token>, p: nat, x: seq<Token>, y: seq<Token>)
    requires p + |x| + |y| <= |ts| && ts[p..p + |x| + |y|] == x + y
    ensures ts[p..p + |x|] == x && ts[p + |x|..p + |x| + |y|] == y
  {
    assert ts[p..p + |x|] == ts[p..p + |x| + |y|][..|x|];
    assert ts[p + |x|..p + |x| + |y|] == ts[p..p + |x| + |y|][|x|..];
  }
}
