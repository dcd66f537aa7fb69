# daytrader script evaluator and scope chain, in Dafny

This project models two parts of the daytrader chart-scripting language. Both are proved against specifications.

- **The statement splitter and recursive-descent evaluator** (`Parser`).
  - It cuts a lexed token stream into `;`-terminated statements.
  - It evaluates each statement with `expression := term (('+'|'-') term)*`, `term := primary (('*'|'/') primary)*` and
    `primary := literal | symbol ['=' expression] | FUNC '(' args ')'`.
  - It applies a per-operator coercion table over Integer, Double and String values.
  - It hands calls to an external function dispatcher.
- **The parent-linked environment** (`Scope`).
  - Symbol and property lookups walk from the current scope towards the root.
  - A put is handed to the parent whenever the parent chain already binds the name.

Layout, one module per concern:

- `values.dfy`
  - `Values`: values, the `Host` record of Java runtime services, and `Integer.toString`.
  - `Tokens`: tokens and the `TokenIterator` cursor.
  - `Errors`: one error case per exception the parser raises.
- `coercion.dfy` / `Coercion`: the operator table of `expression` and `term`.
- `grammar.dfy` / `Grammar`: the evaluator as functions that thread the cursor and the symbol table. This is the specification.
- `interpreter.dfy` / `Interpreter`: the class `Parser` in the source's own imperative form.
  - One shared `TokenIterator` is advanced by mutually recursive methods.
  - `while` loops update `val1` and collect `params`.
  - Each method is proved to agree with its `Grammar` function and to leave the symbol table unchanged.
- `grammar_facts.dfy` / `GrammarFacts`: how statements are split, the primary forms, and how `parse` composes.
- `calls.dfy` / `CallFacts`: function calls, for any argument expressions: the values the dispatcher receives and every rejected argument list.
- `precedence.dfy` / `Precedence`: what binary operators do.
  - As written, they can never succeed.
  - With the operand read after its operator, they evaluate a reference syntax tree (products first, both levels folding from the left) whose leaves are literals and symbols read from the table.
- `scope_chain.dfy` / `ScopeChain`: the lookup and put rules on a sequence of maps. Index 0 is the current scope and the last index is the root.
- `scopes.dfy` / `Scopes`: the class `Scope`.
  - Its maps and lists are fields that the put methods update in place, in whichever scope owns the name.
  - A ghost `ancestors` set makes the parent chain finite and acyclic.
  - Every method is tied to the `ScopeChain` rules over the chain's maps.

How the environment is modelled:

- The dispatcher `FunctionCaller.invokeFunction` is a parameter `invoke: (string, seq<Value>) -> CallResult`. It either returns an object or raises an exception with a message.
- Java `Double` is an abstract type `Real`. Its widening from `int`, its four operators, its comparison with `0d` and its `toString` are uninterpreted functions in `Host`.
- The `toString` of an object returned by the dispatcher is also uninterpreted.
- `Integer.toString` is modelled, with a decimal round-trip proof.
- `Config.reading` selects between the code as written (`AsWritten`) and the corrected operand reading (`Corrected`); see "## Findings". Every other rule is the same in both readings.

A Java `null` stored in a scope's map is modelled explicitly:

- It is an entry `None`.
- A key that is missing and a key mapped to `null` are both unbound (`ScopeChain.Bound`). This matches `map.get(name) == null` in the source.

## Model

| member | source | states |
|---|---|---|
| Values.Show | src/dtrader/Parser.java:61 | the `toString` of the right operand of a concatenation; an Integer's text reads back as the same number |
| Values.IntToString | src/dtrader/Parser.java:61 | `Integer.toString` of the right operand of a String concatenation: non-empty, with a leading '-' exactly for negative numbers |
| Values.NatToStringRoundTrip | src/dtrader/Parser.java:61 | reading the decimal digits of a natural number's text gives the number back |
| Values.IntToStringRoundTrip | src/dtrader/Parser.java:61 | `Integer.toString` is injective: parsing its text, sign included, gives the integer back |
| Tokens.TokenIterator.constructor | src/dtrader/Parser.java:38 | a fresh iterator over a statement's tokens starts at the first token |
| Tokens.TokenIterator.HasNext | src/dtrader/Parser.java:54 | `hasNext`: a token remains under the cursor (a predicate that the other members' contracts use) |
| Tokens.TokenIterator.Peek | src/dtrader/Parser.java:57 | `peek` returns the token `next` would return, without moving |
| Tokens.TokenIterator.Next | src/dtrader/Parser.java:58 | `next` returns the token under the cursor and moves one token on |
| Coercion.Add | src/dtrader/Parser.java:57-70 | `+` succeeds exactly when the left is a String or both are numbers; any other pairing (e.g. Integer + String, the unguarded Double cast) is an operand-type error |
| Coercion.Subtract | src/dtrader/Parser.java:71-84 | `-` succeeds exactly on two numbers; a String left operand fails with "unsupported string operation" naming it, every other failure is an operand-type error |
| Coercion.Multiply | src/dtrader/Parser.java:98-110 | `*` succeeds exactly on two numbers; a String or object operand is an operand-type error |
| Coercion.IsZero | src/dtrader/Parser.java:115-135 | the divisor tests `== 0` and `== 0d` (a predicate that `Coercion.Divide` and `Coercion.ZeroDivisorNeverYieldsValue` use) |
| Coercion.Divide | src/dtrader/Parser.java:111-138 | `/` succeeds exactly on two numbers with a non-zero divisor; a zero divisor of either type always fails with divide-by-zero, never with a value; an Integer result q satisfies q * b == a |
| Coercion.ConcatenateAnyRight | src/dtrader/Parser.java:60-61 | a String on the left concatenates the `toString` of the right operand, whatever its type |
| Coercion.NumericPromotion | src/dtrader/Parser.java:62-109 | on two numbers `+`, `-` and `*` always succeed; the result is an Integer exactly when both operands are, a Double exactly when either is, and Integer results are the exact sum, difference and product |
| Coercion.TypeErrors | src/dtrader/Parser.java:57-134 | String - x fails as an unsupported string operation; a String operand of `*`, Integer + String, and an object operand of `*` or `/` are operand-type errors |
| Coercion.IntegerDivision | src/dtrader/Parser.java:114-122 | Integer / non-zero Integer is an Integer q with q * y == x when y divides x, and otherwise the Double quotient of the widened operands |
| Coercion.ZeroDivisorNeverYieldsValue | src/dtrader/Parser.java:111-138 | an Integer 0 or a Double zero divisor fails whatever the dividend; for a numeric dividend the failure is divide-by-zero |
| Grammar.Fetch | src/dtrader/Parser.java:156-160 | a symbol's value is its table entry; a missing name fails as an uninitialized symbol naming the token's value |
| Grammar.Invoke | src/dtrader/Parser.java:195 | the dispatcher call: its returned object, or its exception's message as a call failure (no contract of its own; `CallFacts.CallPassesArguments` states what reaches it) |
| Grammar.OperandStart | src/dtrader/Parser.java:58 | where the operand after an operator starts: as written, at the operator token itself; otherwise at a token after it |
| Grammar.Expression | src/dtrader/Parser.java:51-90 | `expression` stays within the stream, leaves the symbol table unchanged, never reports end of file, and rejects a first token that cannot start a primary |
| Grammar.ExpressionLoop | src/dtrader/Parser.java:53-88 | the `+`/`-` loop stays within the stream and leaves the table unchanged |
| Grammar.Term | src/dtrader/Parser.java:92-144 | `term` stays within the stream, leaves the table unchanged, and rejects a first token that cannot start a primary |
| Grammar.TermLoop | src/dtrader/Parser.java:94-142 | the `*`/`/` loop stays within the stream and leaves the table unchanged |
| Grammar.Primary | src/dtrader/Parser.java:146-198 | `primary` stays within the stream, leaves the table unchanged, and any token kind other than a literal, symbol or function name is an unsupported primary |
| Grammar.Arguments | src/dtrader/Parser.java:173-195 | the argument loop stays within the stream and leaves the table unchanged |
| Grammar.SemiIndex | src/dtrader/Parser.java:28-37 | the index of the first `;` from the cursor on, with no `;` before it; `None` exactly when no `;` remains |
| Grammar.EvalStatement | src/dtrader/Parser.java:38-48 | a statement that succeeds leaves the table as it was; a statement never reports end of file |
| Grammar.ParseStatement | src/dtrader/Parser.java:26-49 | `parseStatement` consumes exactly the tokens up to and including the first `;`, and fails with "unexpected end of file" exactly when no `;` remains |
| Grammar.Parse | src/dtrader/Parser.java:20-24 | a `parse` that succeeds leaves the table as it was |
| GrammarFacts.PrimaryForms | src/dtrader/Parser.java:147-160 | literals return their value verbatim without consuming a token; a bound symbol returns its value, an unbound one fails as uninitialized; any other token kind is an unsupported primary |
| GrammarFacts.AssignmentAlwaysFails | src/dtrader/Parser.java:151-155 | `symbol = ...` always fails: the '=' token itself is handed to `expression` and is reported as an unsupported primary |
| GrammarFacts.AssignmentStatementFails | src/dtrader/Parser.java:150-161 | the statement `a = 3` fails with the '=' token as the unsupported primary |
| GrammarFacts.LiteralExpression | src/dtrader/Parser.java:51-90 | a literal not followed by an operator is a whole expression, and its value is the literal's |
| GrammarFacts.ArgumentAfterLiteral | src/dtrader/Parser.java:175-193 | after a literal argument the loop appends its value and goes on at the next token, skipping one comma if there is one |
| CallFacts.CallNeedsParenthesis | src/dtrader/Parser.java:162-172 | a function name at the end of input, or not followed by '(', is a syntax error naming the function |
| CallFacts.LiteralArguments | src/dtrader/Parser.java:174-195 | literal arguments, each followed by an optional comma, then ')': the dispatcher receives the leading values followed by the arguments in order, and its result is returned unchanged |
| CallFacts.CallOfLiterals | src/dtrader/Parser.java:162-195 | `f(a1 [,] a2 ... )` returns what the dispatcher returns for the literal values in left-to-right order, or fails with its exception |
| CallFacts.CallWithThreeArguments | src/dtrader/Parser.java:162-195 | the statement `f(1, 2, 3)` succeeds exactly when the dispatcher returns for [1, 2, 3], and otherwise fails with its message |
| CallFacts.CommasAreOptional | src/dtrader/Parser.java:182-193 | `f(1 2)` passes [1, 2] to the dispatcher: a comma between arguments may be left out |
| CallFacts.ArgumentStep | src/dtrader/Parser.java:175-193 | after any argument expression the loop fails with the argument's error, or appends its value and goes on at the next token, skipping one comma when ')' does not follow it |
| CallFacts.TrailingCommaRejected | src/dtrader/Parser.java:188-192 | after any argument, a comma immediately followed by ')' is a syntax error naming the function |
| CallFacts.DoubleCommaRejected | src/dtrader/Parser.java:183-193 | after any argument, two commas in a row fail with the second comma as an unsupported primary |
| CallFacts.UnclosedCallRejected | src/dtrader/Parser.java:178-187 | end of input after any argument, or after the comma that follows it, is a syntax error naming the function |
| CallFacts.ArgumentsPassInOrder | src/dtrader/Parser.java:174-195 | argument expressions of any form that evaluate to `vs`, each followed by an optional comma, then ')': the dispatcher receives the values collected so far followed by `vs` in order, and its result or exception is returned with the cursor after ')' |
| CallFacts.CallPassesArguments | src/dtrader/Parser.java:162-195 | `f(e1 [,] e2 ... )` returns what the dispatcher returns for the argument values in left-to-right order, or fails with its exception |
| GrammarFacts.StatementOutcome | src/dtrader/Parser.java:38-48 | a statement succeeds exactly when it is empty or one expression consumes all of it; tokens left over are a syntax error |
| GrammarFacts.EmptyStatement | src/dtrader/Parser.java:38-42 | a lone `;` is consumed and evaluates nothing, leaving the table unchanged |
| GrammarFacts.TwoEmptyStatements | src/dtrader/Parser.java:20-42 | `; ;` parses completely and leaves the table unchanged |
| GrammarFacts.SemiIndexShift | src/dtrader/Parser.java:28-37 | the search for the terminating `;` does not depend on the tokens before the cursor |
| GrammarFacts.SemiIndexExtend | src/dtrader/Parser.java:28-37 | the search for the terminating `;` does not depend on the tokens after it |
| GrammarFacts.ParseStatementShift | src/dtrader/Parser.java:26-49 | a statement's outcome and the tokens it consumes do not depend on the tokens before it |
| GrammarFacts.ParseStatementExtend | src/dtrader/Parser.java:26-49 | a statement's outcome does not depend on the tokens after its `;` |
| GrammarFacts.ParseShift | src/dtrader/Parser.java:20-24 | `parse` from a cursor does not depend on the tokens before the cursor |
| GrammarFacts.ParseAppend | src/dtrader/Parser.java:20-24 | parsing `ts ++ more` is parsing `ts` and then `more` when `ts` parses; the first error of `ts` that is not end of file is the error of the whole |
| GrammarFacts.ParsedStreamEndsWithSemi | src/dtrader/Parser.java:20-37 | a non-empty stream that parses completely ends with `;` |
| Precedence.AsWrittenOperatorFails | src/dtrader/Parser.java:57-59 | as written, a `+`, `-`, `*` or `/` after an operand fails with the operator token itself as the unsupported primary |
| Precedence.AsWrittenExpressionIsOnePrimary | src/dtrader/Parser.java:51-144 | as written, an expression that succeeds is a single primary not followed by an operator |
| Precedence.OnePlusTwo | src/dtrader/Parser.java:57-59 | `1 + 2` fails as written and gives 3 when the operand is read after the operator |
| Precedence.LeafPrimary | src/dtrader/Parser.java:147-160 | `primary` on a literal, or on a symbol not followed by '=', reads the leaf (its literal value or table entry, or fails as uninitialized) and consumes nothing more |
| Precedence.ExpressionAfterTerm | src/dtrader/Parser.java:51-53 | `expression` fails as its first `term` does, or runs its loop from where that `term` stopped |
| Precedence.TermLoopFactors | src/dtrader/Parser.java:94-142 | with the operand read after its operator, the `*`/`/` loop folds the factors from the left and stops right after them, reporting the first error |
| Precedence.TermOfProduct | src/dtrader/Parser.java:92-144 | with the operand read after its operator, `term` on a product evaluates it by the reference semantics |
| Precedence.ExpressionLoopStep | src/dtrader/Parser.java:57-84 | one round of the `+`/`-` loop: the term after the operator is combined with the running value, and its error or the combination's error ends the loop |
| Precedence.ExpressionLoopTermsStep | src/dtrader/Parser.java:57-84 | the `+`/`-` loop and the reference fold take the same step on one product: the same error, or the same next value |
| Precedence.ExpressionLoopTerms | src/dtrader/Parser.java:53-88 | with the operand read after its operator, the `+`/`-` loop folds whole products from the left and stops right after them |
| Precedence.SumFollowsGrammar | src/dtrader/Parser.java:51-160 | with the operand read after its operator, `expression` on a sum of literals and symbols laid out in the stream gives the reference value (each symbol read from the table, products first, both levels from the left, first error wins) and stops right after the sum |
| Precedence.CorrectedFollowsGrammar | src/dtrader/Parser.java:51-160 | the same for the token rendering of any well-formed sum of literals and symbols, wherever it sits in the stream, when no operator or '=' follows it |
| Precedence.CorrectedStatement | src/dtrader/Parser.java:38-160 | a statement that is a rendered sum of literals and symbols succeeds exactly when its reference value exists in the given table, and otherwise fails with the reference error (an unbound symbol included) |
| Precedence.MultiplicationBindsTighter | src/dtrader/Parser.java:51-144 | `2 + 3 * 4` is 14 |
| Precedence.SubtractionAssociatesLeft | src/dtrader/Parser.java:71-84 | `a - b - c` is `(a - b) - c` for integer literals and for symbols bound to integers |
| ScopeChain.Owner | src/dtrader/Scope.java:24-29 | the nearest scope that binds a name, none nearer binding it; none exactly when no scope binds it |
| ScopeChain.Lookup | src/dtrader/Scope.java:24-29 | `getSymbol`/`getProperty` on the chain (no contract of its own; `ScopeChain.LookupIsNearest` states it) |
| ScopeChain.LookupIsNearest | src/dtrader/Scope.java:24-29 | a lookup returns the nearest binding, and finds something exactly when some scope binds the name |
| ScopeChain.Outermost | src/dtrader/Scope.java:31-37 | the binding scope nearest the root; none exactly when no scope binds the name |
| ScopeChain.PutTarget | src/dtrader/Scope.java:31-37 | a put lands in the ancestor nearest the root that binds the name, and in the current scope exactly when no ancestor binds it; the current scope's own entry is not consulted |
| ScopeChain.PutTargetUnique | src/dtrader/Scope.java:31-37 | that description of the put target determines it |
| ScopeChain.Put | src/dtrader/Scope.java:31-37 | `putSymbol`/`putProperty` on the chain keeps the chain's length; `ScopeChain.PutWritesTarget` states which map changes |
| ScopeChain.PutWritesTarget | src/dtrader/Scope.java:31-37 | a put changes exactly one map of the chain (the target's), and only at the name |
| ScopeChain.PutTargetStep | src/dtrader/Scope.java:32-33 | when the parent chain binds the name, the put target is the parent's put target |
| ScopeChain.GetAfterPut | src/dtrader/Scope.java:24-37 | a lookup right after a put returns the new value unless a scope nearer than the target binds the name, in which case that binding still wins |
| ScopeChain.OwnerIs | src/dtrader/Scope.java:24-29 | the nearest binding scope is determined by its description |
| ScopeChain.PutLeavesOtherNames | src/dtrader/Scope.java:31-37 | a put leaves every other name's lookup unchanged |
| ScopeChain.SameBindingsSameLookup | src/dtrader/Scope.java:25 | lookup depends only on the entries for the name being looked up |
| ScopeChain.PutIdempotent | src/dtrader/Scope.java:31-37 | putting the same value twice is putting it once |
| ScopeChain.SiblingSeesUpdate | src/dtrader/Scope.java:31-37 | a put from one child to a name its parent binds updates the parent, and a sibling scope then sees the new value |
| ScopeChain.GetAsWritten | src/dtrader/Scope.java:24-29 | `getSymbol` as written, with the call on the root's `null` parent (no contract of its own; `ScopeChain.GetAsWrittenAgrees` states it) |
| ScopeChain.PutAsWritten | src/dtrader/Scope.java:31-37 | `putSymbol` as written (no contract of its own; `ScopeChain.PutAsWrittenAlwaysThrows` states it) |
| ScopeChain.GetAsWrittenAgrees | src/dtrader/Scope.java:24-29 | as written, a lookup agrees with the model on every hit and throws a NullPointerException on every miss |
| ScopeChain.PutAsWrittenAlwaysThrows | src/dtrader/Scope.java:31-37 | as written, every put throws a NullPointerException: no chain can ever be written |
| Scopes.Scope.constructor | src/dtrader/Scope.java:16-22 | a new scope has the given parent and empty maps and lists, and is stacked on the parent's chain |
| Scopes.Scope.GetSymbol | src/dtrader/Scope.java:24-29 | `getSymbol` is the chain lookup over the symbol maps from this scope to the root |
| Scopes.Scope.GetProperty | src/dtrader/Scope.java:39-44 | `getProperty` is the chain lookup over the property maps |
| Scopes.Scope.PutSymbol | src/dtrader/Scope.java:31-37 | `putSymbol` updates the chain's symbol maps by the put rule and changes nothing else in any scope |
| Scopes.Scope.PutProperty | src/dtrader/Scope.java:46-52 | `putProperty` updates the chain's property maps by the same rule and changes nothing else in any scope |
| Scopes.Scope.GetStatements | src/dtrader/Scope.java:54-56 | `getStatements` is this scope's own list, reading nothing above it |
| Scopes.Scope.GetCharts | src/dtrader/Scope.java:58-60 | `getCharts` is this scope's own list, reading nothing above it |
| Interpreter.Parser.constructor | src/dtrader/Parser.java:16-18 | the parser keeps the symbol table it is given |
| Interpreter.Parser.Parse | src/dtrader/Parser.java:20-24 | the loop runs statement after statement until the stream is exhausted (its result is `Grammar.Parse`) or the first exception, which it reports; the table is unchanged |
| Interpreter.Parser.ParseStatement | src/dtrader/Parser.java:26-49 | collecting tokens up to the `;` and evaluating them on a fresh iterator computes `Grammar.ParseStatement`, leaving the cursor just after the `;` |
| Interpreter.Parser.Expression | src/dtrader/Parser.java:51-90 | the `+`/`-` loop over the shared iterator computes `Grammar.Expression`: the same value, error and final cursor |
| Interpreter.Parser.Term | src/dtrader/Parser.java:92-144 | the `*`/`/` loop computes `Grammar.Term` |
| Interpreter.Parser.Primary | src/dtrader/Parser.java:146-198 | each primary form computes `Grammar.Primary`; the assignment branch cannot reach its table write |
| Interpreter.Parser.Arguments | src/dtrader/Parser.java:173-195 | the argument loop, with its optional commas and the dispatcher call, computes `Grammar.Arguments` |

## Left out

- src/dtrader/DTrader.java: command-line dispatch, property loading and the Swing window are I/O and UI. The only place it creates a `Parser` and calls `parse` (DTrader.java:108-119) is inside a commented-out block, so it has no live link to the core.
- Logging (`log.error`): it has no effect on any result.
- `Scope.toString`: debug text whose order depends on HashMap iteration.
- Java `Integer` is 32-bit, but the model uses unbounded `int`, so wrap-around in `+`, `-`, `*` and `/` is not modelled.
- `Double` arithmetic is uninterpreted (`Host`): no floating-point property is stated. Only the type of each result (Integer or Double) and the zero-divisor checks are stated.
- `FunctionCaller.invokeFunction` is a pure function of the name and arguments. Its internal state and side effects are not modelled; `GrammarFacts.ParseShift` and `GrammarFacts.ParseAppend` rely on this.
- Coercion.Add, Coercion.ConcatenateAnyRight: a Java `null` returned by the dispatcher is an ordinary opaque value here. So `"x" + f()` with `f()` returning `null` concatenates its `toString` text in the model, where Java throws a NullPointerException at `val2.toString()` (Parser.java:61). Modelling it would need a separate null value threaded through every operator.
- The parser's symbol table holds no `null`. A key mapped to `null` and a missing key both read as an uninitialized symbol (Parser.java:156-160), and the parser never writes the table, so the model keeps only the entries that hold an object.
- TokenIterator.java is not part of this model. The iterator is represented as a sequence and a cursor with `hasNext`, `peek` and `next`. The unguarded `itr.next()` after '(' (Parser.java:173) is modelled as an explicit `NoNextToken` failure.
- `getStatements` and `getCharts` return the mutable Java lists, which callers can then modify. The model returns their values, so aliasing through the returned list is not captured.
- `putSymbol` with a `null` symbol, and `putProperty` with a `null` value, are not modelled: the put methods take a present value.
- A `'='` token whose value is not a String would fail the `(String)` cast at Parser.java:154. This is unreachable, because `expression` started at `'='` always throws first (`GrammarFacts.AssignmentAlwaysFails`).
- The evaluator's symbol table is the `Map<String, Object>` the parser is constructed with, as in the source, and not a `Scope`. Nothing in the core connects `Parser` to `Scope`.
- Precedence.SumFollowsGrammar, Precedence.CorrectedFollowsGrammar, Precedence.CorrectedStatement: the leaves of the reference syntax are literals and symbols. A function call `f(...)` used as an operand is not a leaf, because its value and its extent come from the dispatcher and the argument loop. Calls on their own are stated by `CallFacts.CallPassesArguments` and the rejection lemmas beside it.
- Scopes.Scope.GetSymbol, Scopes.Scope.GetProperty, Scopes.Scope.PutSymbol, Scopes.Scope.PutProperty: at the root, a missing parent is treated as "not found" instead of the source's NullPointerException. This is the one deliberate deviation. The code as written is `ScopeChain.GetAsWritten` and `ScopeChain.PutAsWritten`; see "## Findings".

Where the code and the language's description differ, the model follows the code:

- `f(1,,2)` fails with the second comma as an unsupported primary, not with a syntax error (`CallFacts.DoubleCommaRejected`).
- Commas between arguments are optional (`CallFacts.CommasAreOptional`).
- Assignment never stores a value (`GrammarFacts.AssignmentAlwaysFails`).
- A put on a name bound by several ancestors writes the one nearest the root, not the nearest one, and a name bound only locally is written locally (`ScopeChain.PutTarget`). A lookup therefore still sees a nearer shadowing binding after the put (`ScopeChain.GetAfterPut`).
- The end of the stream before `;` fails with "unexpected end of file" (`Grammar.ParseStatement`).

## Findings

| source | as written | input that shows it | evidently intended | confidence | as-written member | corrected member |
|---|---|---|---|---|---|---|
| src/dtrader/Parser.java:58-59 | `tk = itr.next(); term(tk, itr)` hands the operator token itself to the right operand (likewise at lines 72-73, 99-100 and 112-113), so every binary operator fails as an unsupported primary | the statement `1 + 2;` | the operand starts at the token after the operator, giving `expression := term (('+'\|'-') term)*` with `*` and `/` binding tighter and left associativity | not executed | Precedence.AsWrittenOperatorFails | Precedence.CorrectedFollowsGrammar |
| src/dtrader/Scope.java:26 | `parent.getSymbol(name)` (likewise lines 32, 41 and 47) is called at the root, where `parent` is `null` | any `putSymbol` on a scope chain, or a `getSymbol` of an unbound name | the root's missing parent means "not bound", so a lookup miss returns `null` and a put of a new name stores it locally | not executed | ScopeChain.PutAsWrittenAlwaysThrows | Scopes.Scope.PutSymbol |
