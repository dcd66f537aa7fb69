/**
 * The `Parser` class of Parser.java in its own imperative form: one shared
 * `TokenIterator` advanced by mutually recursive methods, `while` loops that
 * update `val1`, and a symbol table field.  Every method is proved to compute
 * exactly what the corresponding `Grammar` function specifies, and to leave
 * the symbol table as it found it.
 */
module Interpreter {
  import opened Values
  import opened Tokens
  import opened Errors
  import opened Coercion
  import opened Grammar

  /** A method's result and final state agree with a `Grammar` outcome. */
  predicate Agrees(spec: Outcome, r: Result<Value>, index: nat, table: Table) {
    match spec
    case Ok(v, j, t) => r == Success(v) && index == j && table == t
    case Err(e) => r == Failure(e)
  }

  class Parser {
    var symbolTable: Table
    const config: Config

    constructor (symbolTable: Table, config: Config)
      ensures this.symbolTable == symbolTable && this.config == config
    {
      this.symbolTable := symbolTable;
      this.config := config;
    }

    /** `parse`: statement after statement while tokens remain; the first exception ends it. */
    method Parse(itr: TokenIterator) returns (thrown: Option<Error>)
      requires itr.Valid()
      modifies this, itr
      ensures itr.Valid()
      ensures var spec := Grammar.Parse(config, itr.tokens, old(itr.index), old(symbolTable));
        && (thrown == None <==> spec.Success?)
        && (spec.Failure? ==> thrown == Some(spec.error))
        && (spec.Success? ==> !itr.HasNext())
      ensures symbolTable == old(symbolTable)
    {
      while itr.HasNext()
        invariant itr.Valid()
        invariant symbolTable == old(symbolTable)
        invariant Grammar.Parse(config, itr.tokens, itr.index, symbolTable)
               == Grammar.Parse(config, itr.tokens, old(itr.index), old(symbolTable))
        decreases |itr.tokens| - itr.index
      {
        ghost var before := itr.index;
        thrown := ParseStatement(itr);
        if thrown.Some? {
          return;
        }
        assert itr.index > before;
      }
      thrown := None;
    }

    /**
     * `parseStatement`: gather tokens up to the next `SEMI` (which is consumed
     * and dropped), then evaluate them as one expression on a fresh iterator.
     */
    method ParseStatement(itr: TokenIterator) returns (thrown: Option<Error>)
      requires itr.Valid()
      modifies this, itr
      ensures itr.Valid()
      ensures match Grammar.ParseStatement(config, itr.tokens, old(itr.index), old(symbolTable))
        case Success((k, t)) => thrown == None && itr.index == k && symbolTable == t
        case Failure(e) => thrown == Some(e)
      ensures symbolTable == old(symbolTable)
    {
      var statement: seq<Token> := [];
      while true
        invariant itr.Valid() && old(itr.index) <= itr.index
        invariant symbolTable == old(symbolTable)
        invariant statement == itr.tokens[old(itr.index)..itr.index]
        invariant forall j :: old(itr.index) <= j < itr.index ==> itr.tokens[j].kind != Semi
        decreases |itr.tokens| - itr.index
      {
        if !itr.HasNext() {
          return Some(EndOfFile);
        }
        var tk := itr.Next();
        if tk.kind == Semi {
          break;
        }
        statement := statement + [tk];
      }
      assert SemiIndex(itr.tokens, old(itr.index)) == Some(itr.index - 1);
      var itr2 := new TokenIterator(statement);
      if !itr2.HasNext() {
        return None;
      }
      var tk := itr2.Next();
      var val := Expression(tk, itr2);
      if val.Failure? {
        return Some(val.error);
      }
      if itr2.HasNext() {
        return Some(SyntaxError(TrailingTokens));
      }
      return None;
    }

    method Expression(tk: Token, itr: TokenIterator) returns (r: Result<Value>)
      requires itr.Valid()
      modifies this, itr
      ensures itr.Valid()
      ensures Agrees(Grammar.Expression(config, itr.tokens, tk, old(itr.index), old(symbolTable)), r, itr.index, symbolTable)
      ensures symbolTable == old(symbolTable)
      decreases |itr.tokens| - itr.index, 4
    {
      r := Term(tk, itr);
      if r.Failure? {
        return;
      }
      var val1 := r.value;
      while true
        invariant itr.Valid() && old(itr.index) <= itr.index
        invariant symbolTable == old(symbolTable)
        invariant Grammar.Expression(config, itr.tokens, tk, old(itr.index), old(symbolTable))
               == ExpressionLoop(config, itr.tokens, val1, itr.index, symbolTable)
        decreases |itr.tokens| - itr.index
      {
        if !itr.HasNext() {
          break;
        }
        var p := itr.Peek();
        if p.kind == Plus || p.kind == Minus {
          ghost var at := itr.index;
          var op := itr.Next();
          var first := op;
          if config.reading == Corrected {
            if !itr.HasNext() {
              return Failure(NoNextToken);
            }
            first := itr.Next();
          }
          assert OperandStart(config, itr.tokens, at) == Some((first, itr.index));
          var val2 := Term(first, itr);
          if val2.Failure? {
            return val2;
          }
          var combined := if op.kind == Plus then Add(config.host, val1, val2.value)
                          else Subtract(config.host, val1, val2.value);
          if combined.Failure? {
            return combined;
          }
          val1 := combined.value;
        } else {
          break;
        }
      }
      return Success(val1);
    }

    method Term(tk: Token, itr: TokenIterator) returns (r: Result<Value>)
      requires itr.Valid()
      modifies this, itr
      ensures itr.Valid()
      ensures Agrees(Grammar.Term(config, itr.tokens, tk, old(itr.index), old(symbolTable)), r, itr.index, symbolTable)
      ensures symbolTable == old(symbolTable)
      decreases |itr.tokens| - itr.index, 3
    {
      r := Primary(tk, itr);
      if r.Failure? {
        return;
      }
      var val1 := r.value;
      while true
        invariant itr.Valid() && old(itr.index) <= itr.index
        invariant symbolTable == old(symbolTable)
        invariant Grammar.Term(config, itr.tokens, tk, old(itr.index), old(symbolTable))
               == TermLoop(config, itr.tokens, val1, itr.index, symbolTable)
        decreases |itr.tokens| - itr.index
      {
        if !itr.HasNext() {
          break;
        }
        var p := itr.Peek();
        if p.kind == Mult || p.kind == Div {
          ghost var at := itr.index;
          var op := itr.Next();
          var first := op;
          if config.reading == Corrected {
            if !itr.HasNext() {
              return Failure(NoNextToken);
            }
            first := itr.Next();
          }
          assert OperandStart(config, itr.tokens, at) == Some((first, itr.index));
          var val2 := Primary(first, itr);
          if val2.Failure? {
            return val2;
          }
          var combined := if op.kind == Mult then Multiply(config.host, val1, val2.value)
                          else Divide(config.host, val1, val2.value);
          if combined.Failure? {
            return combined;
          }
          val1 := combined.value;
        } else {
          break;
        }
      }
      return Success(val1);
    }

    method Primary(tk: Token, itr: TokenIterator) returns (r: Result<Value>)
      requires itr.Valid()
      modifies this, itr
      ensures itr.Valid()
      ensures Agrees(Grammar.Primary(config, itr.tokens, tk, old(itr.index), old(symbolTable)), r, itr.index, symbolTable)
      ensures symbolTable == old(symbolTable)
      decreases |itr.tokens| - itr.index, 2
    {
      if IsLiteral(tk) {
        return Success(tk.value);
      }
      if tk.kind == Symbol {
        var sym := tk;
        if itr.HasNext() {
          var p := itr.Peek();
          if p.kind == Assign {
            sym := itr.Next();
            var val := Expression(sym, itr);
            match val {
              case Failure(_) =>
                return val;
              case Success(_) =>
                // `expression` started at the '=' token always throws, so the
                // source's `symbolTable.put` (Grammar.Primary models it) is dead.
                assert false;
            }
          }
        }
        return Fetch(symbolTable, sym);
      }
      if tk.kind == Func {
        var funcName: string;
        match tk.value {
          case Text(name) =>
            funcName := name;
          case _ =>
            return Failure(OperandType);
        }
        if !itr.HasNext() {
          return Failure(SyntaxError(EndOfInput(funcName)));
        }
        var t := itr.Next();
        if t.kind != LParen {
          return Failure(SyntaxError(ExpectingLParen(funcName)));
        }
        if !itr.HasNext() {
          return Failure(NoNextToken);
        }
        t := itr.Next();
        r := Arguments(funcName, t, itr);
        return;
      }
      return Failure(UnsupportedPrimary(tk));
    }

    /**
     * The argument loop of a call to `funcName`, from the token `t` after '(':
     * arguments separated by optional commas up to ')', then the dispatcher.
     */
    method Arguments(funcName: string, t: Token, itr: TokenIterator) returns (r: Result<Value>)
      requires itr.Valid()
      modifies this, itr
      ensures itr.Valid()
      ensures Agrees(Grammar.Arguments(config, itr.tokens, funcName, t, old(itr.index), [], old(symbolTable)), r, itr.index, symbolTable)
      ensures symbolTable == old(symbolTable)
      decreases |itr.tokens| - itr.index, 5
    {
      var tk := t;
      var params: seq<Value> := [];
      while tk.kind != RParen
        invariant itr.Valid() && old(itr.index) <= itr.index
        invariant symbolTable == old(symbolTable)
        invariant Grammar.Arguments(config, itr.tokens, funcName, t, old(itr.index), [], old(symbolTable))
               == Grammar.Arguments(config, itr.tokens, funcName, tk, itr.index, params, symbolTable)
        decreases |itr.tokens| - itr.index
      {
        var val := Expression(tk, itr);
        if val.Failure? {
          return val;
        }
        params := params + [val.value];
        if !itr.HasNext() {
          return Failure(SyntaxError(EndOfInput(funcName)));
        }
        tk := itr.Next();
        if tk.kind == Comma {
          if !itr.HasNext() {
            return Failure(SyntaxError(EndOfInput(funcName)));
          }
          tk := itr.Next();
          if tk.kind == RParen {
            return Failure(SyntaxError(UnexpectedComma(funcName)));
          }
        }
      }
      return Invoke(config, funcName, params);
    }
  }
}
