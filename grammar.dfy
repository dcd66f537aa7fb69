/**
 * The statement splitter and recursive-descent evaluator of Parser.java,
 * written as functions that thread the cursor position and the symbol table.
 * They are the specification the imperative `Interpreter.Parser` methods are
 * proved against.
 *
 * A call `expression(tk, itr)` of the source becomes `Expression(c, ts, tk, i, tab)`:
 * `tk` is the token already taken from the iterator, `ts` the iterator's tokens,
 * `i` its cursor (the index of the token `itr.next()` would return) and `tab`
 * the parser's symbol table.  A success reports the value, the cursor after the
 * call and the table after the call.
 */
module Grammar {
  import opened Values
  import opened Tokens
  import opened Errors
  import opened Coercion

  /** What `FunctionCaller.invokeFunction` does: return an object or throw. */
  datatype CallResult = Returned(v: Value) | Raised(message: string)

  /**
   * How the operand after a binary operator is read.  `AsWritten` is the
   * source: `tk = itr.next(); term(tk, itr)` hands the operator token itself to
   * the operand.  `Corrected` skips the operator and starts the operand at the
   * token that follows it, as the grammar intends.
   */
  datatype Reading = AsWritten | Corrected

  datatype Config = Config(
    host: Host,
    invoke: (string, seq<Value>) -> CallResult,
    reading: Reading)

  /** `Map<String, Object> symbolTable`. */
  type Table = map<string, Value>

  datatype Outcome = Ok(value: Value, next: nat, table: Table) | Err(error: Error)

  function Lift(r: Result<Value>, i: nat, tab: Table): Outcome {
    match r
    case Success(v) => Ok(v, i, tab)
    case Failure(e) => Err(e)
  }

  /** `symbolTable.get(tk.getValue())`, with `null` reported as an uninitialized symbol. */
  function Fetch(tab: Table, tk: Token): (r: Result<Value>)
    ensures r.Success? <==> tk.value.Text? && tk.value.s in tab
    ensures r.Success? ==> r.value == tab[tk.value.s]
    ensures r.Failure? ==> r.error == UninitializedSymbol(tk.value)
  {
    match tk.value
    case Text(name) => if name in tab then Success(tab[name]) else Failure(UninitializedSymbol(tk.value))
    case _ => Failure(UninitializedSymbol(tk.value))
  }

  function Invoke(c: Config, name: string, params: seq<Value>): Result<Value> {
    match c.invoke(name, params)
    case Returned(v) => Success(v)
    case Raised(m) => Failure(CallFailed(m))
  }

  /**
   * Where the right operand of the operator at `ts[i]` starts: its first token
   * and the cursor after that token.  `None` when the corrected reading finds
   * no token after the operator (`TokenIterator.next()` past the end).
   */
  function OperandStart(c: Config, ts: seq<Token>, i: nat): (r: Option<(Token, nat)>)
    requires i < |ts|
    ensures r.Some? ==> i < r.value.1 <= |ts| && r.value.0 == ts[r.value.1 - 1]
    ensures c.reading == AsWritten ==> r == Some((ts[i], i + 1))
  {
    if c.reading == AsWritten then Some((ts[i], i + 1))
    else if i + 1 < |ts| then Some((ts[i + 1], i + 2))
    else None
  }

  /** `expression := term (('+'|'-') term)*` */
  function Expression(c: Config, ts: seq<Token>, tk: Token, i: nat, tab: Table): (r: Outcome)
    requires i <= |ts|
    ensures r.Ok? ==> i <= r.next <= |ts| && r.table == tab
    ensures r.Err? ==> r.error != EndOfFile
    ensures !StartsPrimary(tk.kind) ==> r == Err(UnsupportedPrimary(tk))
    decreases |ts| - i, 4
  {
    match Term(c, ts, tk, i, tab)
    case Err(e) => Err(e)
    case Ok(v, j, t) => ExpressionLoop(c, ts, v, j, t)
  }

  /** The `while (true)` loop of `expression`, with `val1` accumulated so far. */
  function ExpressionLoop(c: Config, ts: seq<Token>, val1: Value, i: nat, tab: Table): (r: Outcome)
    requires i <= |ts|
    ensures r.Ok? ==> i <= r.next <= |ts| && r.table == tab
    ensures r.Err? ==> r.error != EndOfFile
    decreases |ts| - i, 1
  {
    if i < |ts| && (ts[i].kind == Plus || ts[i].kind == Minus) then
      match OperandStart(c, ts, i)
      case None => Err(NoNextToken)
      case Some((first, k)) =>
        match Term(c, ts, first, k, tab)
        case Err(e) => Err(e)
        case Ok(v2, j, t) =>
          match (if ts[i].kind == Plus then Add(c.host, val1, v2) else Subtract(c.host, val1, v2))
          case Failure(e) => Err(e)
          case Success(v) => ExpressionLoop(c, ts, v, j, t)
    else
      Ok(val1, i, tab)
  }

  /** `term := primary (('*'|'/') primary)*` */
  function Term(c: Config, ts: seq<Token>, tk: Token, i: nat, tab: Table): (r: Outcome)
    requires i <= |ts|
    ensures r.Ok? ==> i <= r.next <= |ts| && r.table == tab
    ensures r.Err? ==> r.error != EndOfFile
    ensures !StartsPrimary(tk.kind) ==> r == Err(UnsupportedPrimary(tk))
    decreases |ts| - i, 3
  {
    match Primary(c, ts, tk, i, tab)
    case Err(e) => Err(e)
    case Ok(v, j, t) => TermLoop(c, ts, v, j, t)
  }

  /** The `while (true)` loop of `term`. */
  function TermLoop(c: Config, ts: seq<Token>, val1: Value, i: nat, tab: Table): (r: Outcome)
    requires i <= |ts|
    ensures r.Ok? ==> i <= r.next <= |ts| && r.table == tab
    ensures r.Err? ==> r.error != EndOfFile
    decreases |ts| - i, 1
  {
    if i < |ts| && (ts[i].kind == Mult || ts[i].kind == Div) then
      match OperandStart(c, ts, i)
      case None => Err(NoNextToken)
      case Some((first, k)) =>
        match Primary(c, ts, first, k, tab)
        case Err(e) => Err(e)
        case Ok(v2, j, t) =>
          match (if ts[i].kind == Mult then Multiply(c.host, val1, v2) else Divide(c.host, val1, v2))
          case Failure(e) => Err(e)
          case Success(v) => TermLoop(c, ts, v, j, t)
    else
      Ok(val1, i, tab)
  }

  /**
   * `primary := literal | symbol ['=' expression] | FUNC '(' args ')'`.
   * In the assignment branch the source rebinds `tk` to the '=' token and
   * hands that to `expression`; the model does the same.
   */
  function Primary(c: Config, ts: seq<Token>, tk: Token, i: nat, tab: Table): (r: Outcome)
    requires i <= |ts|
    ensures r.Ok? ==> i <= r.next <= |ts| && r.table == tab
    ensures r.Err? ==> r.error != EndOfFile
    ensures !StartsPrimary(tk.kind) ==> r == Err(UnsupportedPrimary(tk))
    decreases |ts| - i, 2
  {
    if IsLiteral(tk) then
      Ok(tk.value, i, tab)
    else if tk.kind == Symbol then
      if i < |ts| && ts[i].kind == Assign then
        var eq := ts[i];
        match Expression(c, ts, eq, i + 1, tab)
        case Err(e) => Err(e)
        case Ok(v, j, t) =>
          match eq.value
          case Text(key) => Lift(Fetch(t[key := v], eq), j, t[key := v])
          case _ => Err(OperandType)
      else
        Lift(Fetch(tab, tk), i, tab)
    else if tk.kind == Func then
      match tk.value
      case Text(name) =>
        if i == |ts| then Err(SyntaxError(EndOfInput(name)))
        else if ts[i].kind != LParen then Err(SyntaxError(ExpectingLParen(name)))
        else if i + 1 == |ts| then Err(NoNextToken)
        else Arguments(c, ts, name, ts[i + 1], i + 2, [], tab)
      case _ => Err(OperandType)
    else
      Err(UnsupportedPrimary(tk))
  }

  /**
   * The argument loop of a call: `tk` is the token after '(' or after the
   * previous argument (and its comma, if any); `params` the arguments so far.
   */
  function Arguments(c: Config, ts: seq<Token>, name: string, tk: Token, i: nat, params: seq<Value>, tab: Table): (r: Outcome)
    requires i <= |ts|
    ensures r.Ok? ==> i <= r.next <= |ts| && r.table == tab
    ensures r.Err? ==> r.error != EndOfFile
    decreases |ts| - i, 5
  {
    if tk.kind == RParen then
      Lift(Invoke(c, name, params), i, tab)
    else
      match Expression(c, ts, tk, i, tab)
      case Err(e) => Err(e)
      case Ok(v, j, t) =>
        if j == |ts| then Err(SyntaxError(EndOfInput(name)))
        else if ts[j].kind == Comma then
          if j + 1 == |ts| then Err(SyntaxError(EndOfInput(name)))
          else if ts[j + 1].kind == RParen then Err(SyntaxError(UnexpectedComma(name)))
          else Arguments(c, ts, name, ts[j + 1], j + 2, params + [v], t)
        else
          Arguments(c, ts, name, ts[j], j + 1, params + [v], t)
  }

  // ---------------------------------------------------------------------
  // Statements

  /** The index of the first `SEMI` at or after `i`, if there is one. */
  function SemiIndex(ts: seq<Token>, i: nat): (r: Option<nat>)
    requires i <= |ts|
    ensures r.Some? ==> i <= r.value < |ts| && ts[r.value].kind == Semi
    ensures r.Some? ==> forall j :: i <= j < r.value ==> ts[j].kind != Semi
    ensures r.None? <==> forall j :: i <= j < |ts| ==> ts[j].kind != Semi
    decreases |ts| - i
  {
    if i == |ts| then None
    else if ts[i].kind == Semi then Some(i)
    else SemiIndex(ts, i + 1)
  }

  /**
   * One statement's tokens (without its `SEMI`): nothing to do when empty,
   * otherwise one expression that must use up every token.
   */
  function EvalStatement(c: Config, stmt: seq<Token>, tab: Table): (r: Result<Table>)
    ensures r.Success? ==> r.value == tab
    ensures r.Failure? ==> r.error != EndOfFile
  {
    if stmt == [] then Success(tab)
    else
      match Expression(c, stmt, stmt[0], 1, tab)
      case Err(e) => Failure(e)
      case Ok(_, j, t) => if j < |stmt| then Failure(SyntaxError(TrailingTokens)) else Success(t)
  }

  /** `parseStatement`: the cursor after the `SEMI` and the table afterwards. */
  function ParseStatement(c: Config, ts: seq<Token>, i: nat, tab: Table): (r: Result<(nat, Table)>)
    requires i <= |ts|
    ensures r.Success? ==> i < r.value.0 <= |ts|
    ensures r.Success? ==> SemiIndex(ts, i) == Some(r.value.0 - 1)
    ensures r == Failure(EndOfFile) <==> SemiIndex(ts, i).None?
  {
    match SemiIndex(ts, i)
    case None => Failure(EndOfFile)
    case Some(k) =>
      match EvalStatement(c, ts[i..k], tab)
      case Failure(e) => Failure(e)
      case Success(t) => Success((k + 1, t))
  }

  /** `parse`: statements until the stream is exhausted, stopping at the first error. */
  function Parse(c: Config, ts: seq<Token>, i: nat, tab: Table): (r: Result<Table>)
    requires i <= |ts|
    ensures r.Success? ==> r.value == tab
    decreases |ts| - i
  {
    if i == |ts| then Success(tab)
    else
      match ParseStatement(c, ts, i, tab)
      case Failure(e) => Failure(e)
      case Success((k, t)) => Parse(c, ts, k, t)
  }
}
