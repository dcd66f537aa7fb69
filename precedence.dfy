/**
 * Operator precedence and associativity of `expression`/`term`.
 *
 * As written, Parser.java hands the operator token itself to the operand
 * (`tk = itr.next(); val2 = term(tk, itr)`), so no binary operator can ever
 * succeed.  With the operand read from the token after the operator, the
 * loops evaluate exactly the grammar
 *   sum     := product (('+'|'-') product)*
 *   product := literal (('*'|'/') literal)*
 * with `*` and `/` binding tighter and both levels folding from the left.
 * The reference semantics below states that independently of the cursor.
 */
module Precedence {
  import opened Values
  import opened Tokens
  import opened Errors
  import opened Coercion
  import opened Grammar
  import opened GrammarFacts

  // ---------------------------------------------------------------------
  // The code as written

  /** As written, an operator always fails, naming itself as an unsupported primary. */
  lemma AsWrittenOperatorFails(c: Config, ts: seq<Token>, v: Value, i: nat, tab: Table)
    requires c.reading == AsWritten && i < |ts|
    ensures ts[i].kind == Plus || ts[i].kind == Minus ==> ExpressionLoop(c, ts, v, i, tab) == Err(UnsupportedPrimary(ts[i]))
    ensures ts[i].kind == Mult || ts[i].kind == Div ==> TermLoop(c, ts, v, i, tab) == Err(UnsupportedPrimary(ts[i]))
  {
  }

  /**
   * As written, an expression that succeeds is a single primary: no operator
   * ever combines two operands, and none follows the primary.
   */
  lemma AsWrittenExpressionIsOnePrimary(c: Config, ts: seq<Token>, tk: Token, i: nat, tab: Table)
    requires c.reading == AsWritten && i <= |ts|
    ensures Expression(c, ts, tk, i, tab).Ok? ==>
      Expression(c, ts, tk, i, tab) == Primary(c, ts, tk, i, tab) && EndsExpression(ts, Expression(c, ts, tk, i, tab).next)
  {
    match Primary(c, ts, tk, i, tab)
    case Err(_) =>
    case Ok(v, j, t) =>
      if j < |ts| {
        AsWrittenOperatorFails(c, ts, v, j, t);
      }
      if EndsProduct(ts, j) {
        assert Term(c, ts, tk, i, tab) == Ok(v, j, t);
        if EndsExpression(ts, j) {
          assert ExpressionLoop(c, ts, v, j, t) == Ok(v, j, t);
        }
      }
  }

  /** `1 + 2;` fails as written and gives 3 when the operand is read after the operator. */
  lemma OnePlusTwo(c: Config, plus: Token, tab: Table)
    requires plus.kind == Plus
    ensures var ts := [Token(IntegerLit, Int(1)), plus, Token(IntegerLit, Int(2))];
      && (c.reading == AsWritten ==> EvalStatement(c, ts, tab) == Failure(UnsupportedPrimary(plus)))
      && (c.reading == Corrected ==> Expression(c, ts, ts[0], 1, tab) == Ok(Int(3), 3, tab))
  {
    var ts := [Token(IntegerLit, Int(1)), plus, Token(IntegerLit, Int(2))];
    assert Term(c, ts, ts[0], 1, tab) == Ok(Int(1), 1, tab);
    if c.reading == AsWritten {
      AsWrittenOperatorFails(c, ts, Int(1), 1, tab);
    } else {
      assert Term(c, ts, ts[2], 3, tab) == Ok(Int(2), 3, tab);
      assert ExpressionLoop(c, ts, Int(3), 3, tab) == Ok(Int(3), 3, tab);
    }
  }

  // ---------------------------------------------------------------------
  // Reference syntax and semantics

  /**
   * A one-token operand: a literal, or a symbol that is read, not assigned.
   * A function call is not a leaf here (see `SumFollowsGrammar`).
   */
  predicate IsLeaf(t: Token) {
    IsLiteral(t) || t.kind == Symbol
  }

  /** A leaf's value: a literal's own value, a symbol's table entry, or "uninitialized symbol". */
  function LeafValue(tab: Table, t: Token): Result<Value> {
    if IsLiteral(t) then Success(t.value)
    else if t.value.Text? && t.value.s in tab then Success(tab[t.value.s])
    else Failure(UninitializedSymbol(t.value))
  }

  /** `leaf (('*'|'/') leaf)*`: the first leaf and each operator with its leaf. */
  datatype Product = Product(first: Token, rest: seq<(Token, Token)>)

  /** `product (('+'|'-') product)*` */
  datatype Sum = Sum(first: Product, rest: seq<(Token, Product)>)

  predicate ProductWellFormed(p: Product) {
    && IsLeaf(p.first)
    && forall k :: 0 <= k < |p.rest| ==>
         (p.rest[k].0.kind == Mult || p.rest[k].0.kind == Div) && IsLeaf(p.rest[k].1)
  }

  predicate SumWellFormed(s: Sum) {
    && ProductWellFormed(s.first)
    && forall k :: 0 <= k < |s.rest| ==>
         (s.rest[k].0.kind == Plus || s.rest[k].0.kind == Minus) && ProductWellFormed(s.rest[k].1)
  }

  function RenderFactors(rest: seq<(Token, Token)>): seq<Token> {
    if rest == [] then [] else [rest[0].0, rest[0].1] + RenderFactors(rest[1..])
  }

  function RenderProduct(p: Product): seq<Token> {
    [p.first] + RenderFactors(p.rest)
  }

  function RenderTerms(rest: seq<(Token, Product)>): seq<Token> {
    if rest == [] then [] else [rest[0].0] + RenderProduct(rest[0].1) + RenderTerms(rest[1..])
  }

  /** The token stream of a sum, as the lexer delivers it. */
  function RenderSum(s: Sum): seq<Token> {
    RenderProduct(s.first) + RenderTerms(s.rest)
  }

  function FactorOp(k: Kind): Op {
    if k == Mult then MulOp else DivOp
  }

  function TermOp(k: Kind): Op {
    if k == Plus then AddOp else SubOp
  }

  /** Left fold of the factors onto `acc`, each leaf read when it is reached, stopping at the first error. */
  function FoldFactors(h: Host, tab: Table, acc: Value, rest: seq<(Token, Token)>): Result<Value>
    decreases |rest|
  {
    if rest == [] then Success(acc)
    else
      match LeafValue(tab, rest[0].1)
      case Failure(e) => Failure(e)
      case Success(v2) =>
        match Apply(h, FactorOp(rest[0].0.kind), acc, v2)
        case Failure(e) => Failure(e)
        case Success(v) => FoldFactors(h, tab, v, rest[1..])
  }

  function EvalProduct(h: Host, tab: Table, p: Product): Result<Value> {
    match LeafValue(tab, p.first)
    case Failure(e) => Failure(e)
    case Success(v) => FoldFactors(h, tab, v, p.rest)
  }

  /** Left fold of whole products onto `acc`: each product is evaluated before it is combined. */
  function FoldTerms(h: Host, tab: Table, acc: Value, rest: seq<(Token, Product)>): Result<Value>
    decreases |rest|
  {
    if rest == [] then Success(acc)
    else
      match EvalProduct(h, tab, rest[0].1)
      case Failure(e) => Failure(e)
      case Success(v2) =>
        match Apply(h, TermOp(rest[0].0.kind), acc, v2)
        case Failure(e) => Failure(e)
        case Success(v) => FoldTerms(h, tab, v, rest[1..])
  }

  function EvalSum(h: Host, tab: Table, s: Sum): Result<Value> {
    match EvalProduct(h, tab, s.first)
    case Failure(e) => Failure(e)
    case Success(v) => FoldTerms(h, tab, v, s.rest)
  }

  // ---------------------------------------------------------------------
  // The corrected reading evaluates the reference semantics

  /** The token at `i` (if any) does not continue a product. */
  predicate EndsProduct(ts: seq<Token>, i: nat) {
    i >= |ts| || !(ts[i].kind == Mult || ts[i].kind == Div)
  }

  /** The token at `i` (if any) does not continue a product, and is not an '=' that would make the leaf before it an assignment. */
  predicate EndsFactors(ts: seq<Token>, i: nat) {
    i >= |ts| || !(ts[i].kind == Mult || ts[i].kind == Div || ts[i].kind == Assign)
  }

  /** The token at `i` (if any) does not continue a sum, and is not an '='. */
  predicate EndsSum(ts: seq<Token>, i: nat) {
    i >= |ts| || !(IsOperator(ts[i].kind) || ts[i].kind == Assign)
  }

  /**
   * From `q` on, `ts` holds the well-formed factors `rest` token by token,
   * and the product ends right after them.
   */
  predicate FactorsAt(ts: seq<Token>, q: nat, rest: seq<(Token, Token)>)
    decreases |rest|
  {
    if rest == [] then q <= |ts| && EndsFactors(ts, q)
    else
      && q + 1 < |ts| && ts[q] == rest[0].0 && ts[q + 1] == rest[0].1
      && (rest[0].0.kind == Mult || rest[0].0.kind == Div) && IsLeaf(rest[0].1)
      && FactorsAt(ts, q + 2, rest[1..])
  }

  /** From `p` on, `ts` holds the well-formed product `prod`, and it ends there. */
  predicate ProductAt(ts: seq<Token>, p: nat, prod: Product) {
    p < |ts| && ts[p] == prod.first && IsLeaf(prod.first) && FactorsAt(ts, p + 1, prod.rest)
  }

  /**
   * From `q` on, `ts` holds the well-formed terms `rest` (operator, then
   * product), and the expression ends right after them.
   */
  predicate TermsAt(ts: seq<Token>, q: nat, rest: seq<(Token, Product)>)
    decreases |rest|
  {
    if rest == [] then q <= |ts| && EndsExpression(ts, q)
    else
      && q < |ts| && ts[q] == rest[0].0 && (rest[0].0.kind == Plus || rest[0].0.kind == Minus)
      && ProductAt(ts, q + 1, rest[0].1) && q + 1 + |RenderProduct(rest[0].1)| <= |ts|
      && TermsAt(ts, q + 1 + |RenderProduct(rest[0].1)|, rest[1..])
  }

  /** From `p` on, `ts` holds the well-formed sum `s`, and the expression ends there. */
  predicate SumAt(ts: seq<Token>, p: nat, s: Sum) {
    ProductAt(ts, p, s.first) && TermsAt(ts, p + |RenderProduct(s.first)|, s.rest)
  }

  /** The token rendering of the well-formed `s` occupies `ts` from `p` on, and no further operator or '=' follows. */
  predicate SumRenderedAt(ts: seq<Token>, p: nat, s: Sum) {
    && SumWellFormed(s)
    && p + |RenderSum(s)| <= |ts| && ts[p..p + |RenderSum(s)|] == RenderSum(s)
    && EndsSum(ts, p + |RenderSum(s)|)
  }

  lemma RenderProductStartsWithLeaf(p: Product)
    requires ProductWellFormed(p)
    ensures |RenderProduct(p)| > 0 && RenderProduct(p)[0] == p.first
  {
  }

  /** A rendered tail of a product, followed by no further factor, lies in `ts` token by token. */
  lemma {:induction false} RenderedFactorsAt(ts: seq<Token>, q: nat, rest: seq<(Token, Token)>)
    requires forall k :: 0 <= k < |rest| ==> (rest[k].0.kind == Mult || rest[k].0.kind == Div) && IsLeaf(rest[k].1)
    requires q + |RenderFactors(rest)| <= |ts| && ts[q..q + |RenderFactors(rest)|] == RenderFactors(rest)
    requires EndsFactors(ts, q + |RenderFactors(rest)|)
    ensures FactorsAt(ts, q, rest)
    decreases |rest|
  {
    if rest != [] {
      var tail := RenderFactors(rest[1..]);
      assert RenderFactors(rest) == [rest[0].0, rest[0].1] + tail;
      SliceParts(ts, q, [rest[0].0, rest[0].1], tail);
      assert ts[q] == ts[q..q + 2][0];
      assert ts[q + 1] == ts[q..q + 2][1];
      RenderedFactorsAt(ts, q + 2, rest[1..]);
    }
  }

  lemma RenderedProductAt(ts: seq<Token>, p: nat, prod: Product)
    requires ProductWellFormed(prod)
    requires p + |RenderProduct(prod)| <= |ts| && ts[p..p + |RenderProduct(prod)|] == RenderProduct(prod)
    requires EndsFactors(ts, p + |RenderProduct(prod)|)
    ensures ProductAt(ts, p, prod)
  {
    SliceParts(ts, p, [prod.first], RenderFactors(prod.rest));
    assert ts[p] == ts[p..p + 1][0];
    RenderedFactorsAt(ts, p + 1, prod.rest);
  }

  /** The slice holding one operator, the product after it and the remaining tail splits token by token. */
  lemma TermSlice(ts: seq<Token>, q: nat, op: Token, rp: seq<Token>, tail: seq<Token>)
    requires q + 1 + |rp| + |tail| <= |ts| && ts[q..q + 1 + |rp| + |tail|] == [op] + rp + tail
    ensures ts[q] == op
    ensures ts[q + 1..q + 1 + |rp|] == rp
    ensures ts[q + 1 + |rp|..q + 1 + |rp| + |tail|] == tail
    ensures tail != [] ==> ts[q + 1 + |rp|] == tail[0]
  {
    SliceParts(ts, q, [op] + rp, tail);
    SliceParts(ts, q, [op], rp);
    assert ts[q] == ts[q..q + 1][0];
    if tail != [] {
      assert ts[q + 1 + |rp|] == ts[q + 1 + |rp|..q + 1 + |rp| + |tail|][0];
    }
  }

  /** A rendered tail of a sum, followed by no further operator or '=', lies in `ts` token by token. */
  lemma {:induction false} RenderedTermsAt(ts: seq<Token>, q: nat, rest: seq<(Token, Product)>)
    requires forall k :: 0 <= k < |rest| ==> (rest[k].0.kind == Plus || rest[k].0.kind == Minus) && ProductWellFormed(rest[k].1)
    requires q + |RenderTerms(rest)| <= |ts| && ts[q..q + |RenderTerms(rest)|] == RenderTerms(rest)
    requires EndsSum(ts, q + |RenderTerms(rest)|)
    ensures TermsAt(ts, q, rest)
    decreases |rest|
  {
    if rest != [] {
      var op, prod := rest[0].0, rest[0].1;
      var rp := RenderProduct(prod);
      var tail := RenderTerms(rest[1..]);
      assert RenderTerms(rest) == [op] + rp + tail;
      TermSlice(ts, q, op, rp, tail);
      if rest[1..] != [] {
        assert tail[0] == rest[1..][0].0;
      }
      assert EndsFactors(ts, q + 1 + |rp|);
      RenderedProductAt(ts, q + 1, prod);
      RenderedTermsAt(ts, q + 1 + |rp|, rest[1..]);
      TermsAtCons(ts, q, rest);
    }
  }

  /** `TermsAt` for a non-empty tail, from its first operator, its first product and the rest. */
  lemma TermsAtCons(ts: seq<Token>, q: nat, rest: seq<(Token, Product)>)
    requires rest != [] && q < |ts| && ts[q] == rest[0].0 && (rest[0].0.kind == Plus || rest[0].0.kind == Minus)
    requires ProductAt(ts, q + 1, rest[0].1) && q + 1 + |RenderProduct(rest[0].1)| <= |ts|
    requires TermsAt(ts, q + 1 + |RenderProduct(rest[0].1)|, rest[1..])
    ensures TermsAt(ts, q, rest)
  {
  }

  /** A rendered sum, followed by no further operator or '=', lies in `ts` product by product. */
  lemma RenderedSumAt(ts: seq<Token>, p: nat, s: Sum)
    requires SumRenderedAt(ts, p, s)
    ensures SumAt(ts, p, s) && |RenderSum(s)| == |RenderProduct(s.first)| + |RenderTerms(s.rest)|
  {
    var rp := RenderProduct(s.first);
    var rt := RenderTerms(s.rest);
    SliceParts(ts, p, rp, rt);
    RenderedProductAt(ts, p, s.first);
    if s.rest != [] {
      assert rt[0] == s.rest[0].0;
      assert ts[p + |rp|] == ts[p + |rp|..p + |rp| + |rt|][0];
    }
    RenderedTermsAt(ts, p + |rp|, s.rest);
  }

  /** No factor tail starts with '='. */
  lemma FactorsAtNoAssign(ts: seq<Token>, q: nat, rest: seq<(Token, Token)>)
    requires FactorsAt(ts, q, rest)
    ensures !(q < |ts| && ts[q].kind == Assign)
  {
  }

  /** `primary` on a leaf not followed by '=' reads the leaf and consumes nothing more. */
  lemma LeafPrimary(c: Config, ts: seq<Token>, t: Token, i: nat, tab: Table)
    requires IsLeaf(t) && i <= |ts| && !(i < |ts| && ts[i].kind == Assign)
    ensures Primary(c, ts, t, i, tab) == Lift(LeafValue(tab, t), i, tab)
  {
    PrimaryForms(c, ts, t, i, tab);
  }

  lemma {:induction false} TermLoopFactors(c: Config, ts: seq<Token>, acc: Value, q: nat, rest: seq<(Token, Token)>, tab: Table)
    requires c.reading == Corrected && q <= |ts| && FactorsAt(ts, q, rest)
    ensures TermLoop(c, ts, acc, q, tab) == Lift(FoldFactors(c.host, tab, acc, rest), q + |RenderFactors(rest)|, tab)
    decreases |rest|
  {
    if rest != [] {
      var op, leaf := rest[0].0, rest[0].1;
      FactorsAtNoAssign(ts, q + 2, rest[1..]);
      assert OperandStart(c, ts, q) == Some((leaf, q + 2));
      LeafPrimary(c, ts, leaf, q + 2, tab);
      match LeafValue(tab, leaf)
      case Failure(_) =>
      case Success(v2) =>
        var combined := if op.kind == Mult then Multiply(c.host, acc, v2) else Divide(c.host, acc, v2);
        assert combined == Apply(c.host, FactorOp(op.kind), acc, v2);
        match combined
        case Failure(_) =>
        case Success(v) =>
          TermLoopFactors(c, ts, v, q + 2, rest[1..], tab);
    }
  }

  /** In the corrected reading, `term` on a product evaluates it. */
  lemma TermOfProduct(c: Config, ts: seq<Token>, p: nat, prod: Product, tab: Table)
    requires c.reading == Corrected && ProductAt(ts, p, prod)
    ensures Term(c, ts, ts[p], p + 1, tab) == Lift(EvalProduct(c.host, tab, prod), p + |RenderProduct(prod)|, tab)
  {
    FactorsAtNoAssign(ts, p + 1, prod.rest);
    LeafPrimary(c, ts, prod.first, p + 1, tab);
    match LeafValue(tab, prod.first)
    case Failure(_) =>
    case Success(v) =>
      TermLoopFactors(c, ts, v, p + 1, prod.rest, tab);
  }

  /** The product after the first operator of a tail of a sum, as `term` sees it. */
  lemma TermOfFirstProduct(c: Config, ts: seq<Token>, q: nat, rest: seq<(Token, Product)>, tab: Table)
    requires c.reading == Corrected && rest != [] && TermsAt(ts, q, rest)
    ensures q + 1 < |ts|
    ensures Term(c, ts, ts[q + 1], q + 2, tab) == Lift(EvalProduct(c.host, tab, rest[0].1), q + 1 + |RenderProduct(rest[0].1)|, tab)
  {
    TermOfProduct(c, ts, q + 1, rest[0].1, tab);
  }

  /**
   * One round of `expression`'s loop in the corrected reading, once the
   * `term` after the operator is known to give `r2` and stop at `after`.
   */
  lemma ExpressionLoopStep(c: Config, ts: seq<Token>, acc: Value, q: nat, r2: Result<Value>, after: nat, tab: Table)
    requires c.reading == Corrected && q + 1 < |ts| && (ts[q].kind == Plus || ts[q].kind == Minus)
    requires Term(c, ts, ts[q + 1], q + 2, tab) == Lift(r2, after, tab)
    ensures r2.Failure? ==> ExpressionLoop(c, ts, acc, q, tab) == Err(r2.error)
    ensures r2.Success? ==>
      var combined := Apply(c.host, TermOp(ts[q].kind), acc, r2.value);
      ExpressionLoop(c, ts, acc, q, tab)
        == if combined.Failure? then Err(combined.error) else ExpressionLoop(c, ts, combined.value, after, tab)
  {
    assert OperandStart(c, ts, q) == Some((ts[q + 1], q + 2));
  }

  /** One step of the reference fold over the terms of a sum. */
  lemma FoldTermsStep(h: Host, tab: Table, acc: Value, rest: seq<(Token, Product)>)
    requires rest != []
    ensures var r2 := EvalProduct(h, tab, rest[0].1);
      r2.Failure? ==> FoldTerms(h, tab, acc, rest) == Failure(r2.error)
    ensures var r2 := EvalProduct(h, tab, rest[0].1);
      r2.Success? ==>
        var combined := Apply(h, TermOp(rest[0].0.kind), acc, r2.value);
        FoldTerms(h, tab, acc, rest) == if combined.Failure? then Failure(combined.error) else FoldTerms(h, tab, combined.value, rest[1..])
  {
  }

  /**
   * One product of a tail of a sum: `expression`'s loop and the reference fold
   * take the same step.  Either both stop with the same error (`next == None`),
   * or both go on from the value `next` with the remaining terms.
   */
  lemma ExpressionLoopTermsStep(c: Config, ts: seq<Token>, acc: Value, q: nat, rest: seq<(Token, Product)>, tab: Table)
    returns (next: Option<Value>)
    requires c.reading == Corrected && rest != [] && TermsAt(ts, q, rest)
    ensures next.None? ==>
      && FoldTerms(c.host, tab, acc, rest).Failure?
      && ExpressionLoop(c, ts, acc, q, tab) == Err(FoldTerms(c.host, tab, acc, rest).error)
    ensures next.Some? ==>
      && ExpressionLoop(c, ts, acc, q, tab) == ExpressionLoop(c, ts, next.value, q + 1 + |RenderProduct(rest[0].1)|, tab)
      && FoldTerms(c.host, tab, acc, rest) == FoldTerms(c.host, tab, next.value, rest[1..])
  {
    var prod := rest[0].1;
    var after := q + 1 + |RenderProduct(prod)|;
    TermOfFirstProduct(c, ts, q, rest, tab);
    var r2 := EvalProduct(c.host, tab, prod);
    ExpressionLoopStep(c, ts, acc, q, r2, after, tab);
    FoldTermsStep(c.host, tab, acc, rest);
    next := None;
    if r2.Success? {
      var combined := Apply(c.host, TermOp(rest[0].0.kind), acc, r2.value);
      if combined.Success? {
        next := Some(combined.value);
      }
    }
  }

  lemma {:induction false} ExpressionLoopTerms(c: Config, ts: seq<Token>, acc: Value, q: nat, rest: seq<(Token, Product)>, tab: Table)
    requires c.reading == Corrected && q <= |ts| && TermsAt(ts, q, rest)
    ensures ExpressionLoop(c, ts, acc, q, tab) == Lift(FoldTerms(c.host, tab, acc, rest), q + |RenderTerms(rest)|, tab)
    decreases |rest|
  {
    if rest == [] {
      assert ExpressionLoop(c, ts, acc, q, tab) == Ok(acc, q, tab);
    } else {
      var after := q + 1 + |RenderProduct(rest[0].1)|;
      assert after <= |ts| && TermsAt(ts, after, rest[1..]);
      var next := ExpressionLoopTermsStep(c, ts, acc, q, rest, tab);
      if next.Some? {
        ExpressionLoopTerms(c, ts, next.value, after, rest[1..], tab);
      }
    }
  }

  /** `expression` continues with its loop from wherever `term` stopped, or fails as `term` did. */
  lemma ExpressionAfterTerm(c: Config, ts: seq<Token>, tk: Token, i: nat, tab: Table, r: Result<Value>, j: nat)
    requires i <= j <= |ts| && Term(c, ts, tk, i, tab) == Lift(r, j, tab)
    ensures r.Failure? ==> Expression(c, ts, tk, i, tab) == Err(r.error)
    ensures r.Success? ==> Expression(c, ts, tk, i, tab) == ExpressionLoop(c, ts, r.value, j, tab)
  {
  }

  /**
   * With the operand read after its operator, `expression` on a sum laid out
   * at `p` evaluates the reference semantics: every leaf (literal or symbol)
   * read from the table, products first, then the sums, each level from the
   * left; it stops right after the sum, and reports the first error the
   * reference semantics meets.
   */
  lemma SumFollowsGrammar(c: Config, ts: seq<Token>, p: nat, s: Sum, tab: Table)
    requires c.reading == Corrected && SumAt(ts, p, s)
    ensures Expression(c, ts, ts[p], p + 1, tab) == Lift(EvalSum(c.host, tab, s), p + |RenderProduct(s.first)| + |RenderTerms(s.rest)|, tab)
  {
    TermOfProduct(c, ts, p, s.first, tab);
    ExpressionAfterTerm(c, ts, ts[p], p + 1, tab, EvalProduct(c.host, tab, s.first), p + |RenderProduct(s.first)|);
    match EvalProduct(c.host, tab, s.first)
    case Failure(_) =>
    case Success(v) =>
      ExpressionLoopTerms(c, ts, v, p + |RenderProduct(s.first)|, s.rest, tab);
  }

  /** The same for the token rendering of a sum anywhere in a stream, followed by no further operator or '='. */
  lemma CorrectedFollowsGrammar(c: Config, ts: seq<Token>, p: nat, s: Sum, tab: Table)
    requires c.reading == Corrected && SumRenderedAt(ts, p, s)
    ensures Expression(c, ts, ts[p], p + 1, tab) == Lift(EvalSum(c.host, tab, s), p + |RenderSum(s)|, tab)
  {
    RenderedSumAt(ts, p, s);
    SumFollowsGrammar(c, ts, p, s, tab);
  }

  /** A whole statement that is a rendered sum succeeds exactly when its reference value exists. */
  lemma CorrectedStatement(c: Config, s: Sum, tab: Table)
    requires c.reading == Corrected && SumWellFormed(s)
    ensures EvalStatement(c, RenderSum(s), tab)
         == match EvalSum(c.host, tab, s)
            case Success(_) => Success(tab)
            case Failure(e) => Failure(e)
  {
    var ts := RenderSum(s);
    RenderProductStartsWithLeaf(s.first);
    assert ts[0..|ts|] == ts;
    CorrectedFollowsGrammar(c, ts, 0, s, tab);
  }

  /** `2 + 3 * 4` is 14: multiplication binds tighter than addition. */
  lemma MultiplicationBindsTighter(c: Config, plus: Token, times: Token, tab: Table)
    requires c.reading == Corrected && plus.kind == Plus && times.kind == Mult
    ensures var ts := [Token(IntegerLit, Int(2)), plus, Token(IntegerLit, Int(3)), times, Token(IntegerLit, Int(4))];
      Expression(c, ts, ts[0], 1, tab) == Ok(Int(14), 5, tab)
  {
    var two, three, four := Token(IntegerLit, Int(2)), Token(IntegerLit, Int(3)), Token(IntegerLit, Int(4));
    var ts := [two, plus, three, times, four];
    var s := Sum(Product(two, []), [(plus, Product(three, [(times, four)]))]);
    assert RenderSum(s) == ts by {
      assert RenderFactors([(times, four)]) == [times, four];
      assert RenderProduct(Product(three, [(times, four)])) == [three, times, four];
      assert RenderTerms(s.rest) == [plus, three, times, four];
    }
    assert ts[0..5] == ts;
    assert EvalSum(c.host, tab, s) == Success(Int(14)) by {
      assert [(times, four)][1..] == [];
      assert Apply(c.host, FactorOp(times.kind), Int(3), Int(4)) == Success(Int(12));
      assert FoldFactors(c.host, tab, Int(12), []) == Success(Int(12));
      assert FoldFactors(c.host, tab, Int(3), [(times, four)]) == Success(Int(12));
      assert EvalProduct(c.host, tab, Product(three, [(times, four)])) == Success(Int(12));
      assert EvalProduct(c.host, tab, Product(two, [])) == Success(Int(2));
      assert s.rest[1..] == [];
      assert Apply(c.host, TermOp(plus.kind), Int(2), Int(12)) == Success(Int(14));
      assert FoldTerms(c.host, tab, Int(14), []) == Success(Int(14));
      assert FoldTerms(c.host, tab, Int(2), s.rest) == Success(Int(14));
    }
    CorrectedFollowsGrammar(c, ts, 0, s, tab);
  }

  /** The reference semantics of `a - b - c` over integer leaves, and its rendering. */
  lemma SubtractionChain(h: Host, ta: Token, tb: Token, tc: Token, x: int, y: int, z: int, minus: Token, tab: Table)
    requires minus.kind == Minus
    requires LeafValue(tab, ta) == Success(Int(x)) && LeafValue(tab, tb) == Success(Int(y)) && LeafValue(tab, tc) == Success(Int(z))
    ensures var s := Sum(Product(ta, []), [(minus, Product(tb, [])), (minus, Product(tc, []))]);
      RenderSum(s) == [ta, minus, tb, minus, tc] && EvalSum(h, tab, s) == Success(Int((x - y) - z))
  {
    var s := Sum(Product(ta, []), [(minus, Product(tb, [])), (minus, Product(tc, []))]);
    assert RenderTerms(s.rest[1..]) == [minus, tc];
    assert RenderTerms(s.rest) == [minus, tb, minus, tc];
    assert s.rest[1..][1..] == [];
    assert EvalProduct(h, tab, Product(tc, [])) == Success(Int(z));
    assert EvalProduct(h, tab, Product(tb, [])) == Success(Int(y));
    assert EvalProduct(h, tab, Product(ta, [])) == Success(Int(x));
    assert FoldTerms(h, tab, Int((x - y) - z), []) == Success(Int((x - y) - z));
    assert FoldTerms(h, tab, Int(x - y), s.rest[1..]) == Success(Int((x - y) - z));
    assert FoldTerms(h, tab, Int(x), s.rest) == Success(Int((x - y) - z));
  }

  /**
   * `a - b - c` is `(a - b) - c`: operators of one level associate to the
   * left, whether the operands are integer literals or symbols bound to
   * integers.
   */
  lemma SubtractionAssociatesLeft(c: Config, ta: Token, tb: Token, tc: Token, x: int, y: int, z: int, minus: Token, tab: Table)
    requires c.reading == Corrected && minus.kind == Minus && IsLeaf(ta) && IsLeaf(tb) && IsLeaf(tc)
    requires LeafValue(tab, ta) == Success(Int(x)) && LeafValue(tab, tb) == Success(Int(y)) && LeafValue(tab, tc) == Success(Int(z))
    ensures var ts := [ta, minus, tb, minus, tc];
      Expression(c, ts, ts[0], 1, tab) == Ok(Int((x - y) - z), 5, tab)
  {
    var ts := [ta, minus, tb, minus, tc];
    var s := Sum(Product(ta, []), [(minus, Product(tb, [])), (minus, Product(tc, []))]);
    SubtractionChain(c.host, ta, tb, tc, x, y, z, minus, tab);
    assert ts[0..5] == ts;
    assert SumWellFormed(s);
    CorrectedFollowsGrammar(c, ts, 0, s, tab);
  }
}
