# Lox expression subset: parser and tree-walking evaluator

This project models the front end and evaluator of a small Lox subset in Dafny.
The subset has literals, grouping, unary `-` and `!`, the binary operators of four
precedence levels, a ternary `?:`, a comma operator, and two statement forms:
`expr;` and `print expr;`. Two components are modelled.

- **Parser** (`src/main/java/lox/Parser.java`). It is a recursive-descent parser over a
  token list with a mutable cursor `current`.
  - `parser.dfy` models it as class `Parser.Parser`. The class has an immutable
    `tokens` sequence, which ends with EOF, and a mutable `current` field.
  - The class has one method per parsing routine and per cursor helper. Errors come
    back as `Err(ParseError(token, message))` instead of a thrown `ParseError`.
  - Each parsing method is proved to compute a pure grammar function of module `Grammar`
    (`grammar.dfy`), taken at the cursor on entry. The function returns the parsed
    tree and the next position, or the first error.
  - `grammar_properties.dfy` proves the parser's properties on those functions:
    left associativity, right associativity of the comma, the error productions,
    the ternary and primary errors, and one tree per statement or the first error.
- **Evaluator** (`src/main/java/lox/Interpreter.java`).
  - `interpreter.dfy` models `evaluate` as the pure function `Evaluate`, which
    returns `Result<Value, RuntimeError>`.
  - `interpret` is the method `Interpret`. It loops over the statements, collects
    the lines that `print` writes, and stops at the first runtime error.
  - The method is proved to compute the function `Run`.
  - `interpreter_properties.dfy` proves the operator semantics: type checks,
    division by zero, the `+` table, equality, truthiness, the ternary
    short-circuit, rendering, and stop-at-first-failure.
- **Parse then evaluate** (`end_to_end.dfy`): the tokens of `print 1 + 2 * 3 ;` parse to
  one statement printing `1 + (2 * 3)`, and running it writes the line "7".

`syntax.dfy` defines the types that the source uses but does not show: `Value`
(nil, boolean, number, string), `TokenType`, `Token`, `Expr` and `Stmt`.
`wrappers.dfy` holds `Option` and `Result`.

Modelling choices:
- Numbers are exact `real`s.
- `Double.toString` is a function parameter `showNumber: real -> string`, and the
  `.0`-stripping of `stringify` is stated on its output.
- The Java sources at `src/main/java/lox/Parser.java:48-53` do not compile: `right` is
  declared twice and `left` is undefined. The model builds
  `Ternary(operator = '?', condition, left = then-branch, right = else-branch)`,
  which uses the field names that `Interpreter.java:166-171` reads. A comment in
  `Parser.Parser.TernarySuffix` marks this reconstruction.
- Two behaviours of the code are modelled as written:
  - A `,` Binary node falls through the evaluator's operator switch and yields
    `nil`. It does not yield the value of its right operand.
  - A `?` followed at once by `:` is reported at the `:` with the message
    "Expect expression before ','.". That is the message the code writes.
- A parse is deterministic: `Parser.Parser.Parse` returns exactly
  `Grammar.ProgramSpec(tokens, 0)` on a fresh parser. Parsing the same tokens
  twice therefore gives the same statements. A successful `Parse` leaves the cursor on
  EOF, so a second `Parse` on the same parser returns no statements (`ProgramSpec` is
  empty at EOF).

## Model

| member | source | states |
|---|---|---|
| `Parser.Parser.constructor` | src/main/java/lox/Parser.java:12-17 | a new parser holds the token list (ending in EOF) with the cursor at 0 |
| `Parser.Parser.IsAtEnd` | src/main/java/lox/Parser.java:227-229 | when the current token is not EOF, a next token exists to advance to |
| `Parser.Parser.Peek` | src/main/java/lox/Parser.java:231-233 | `peek()` is the token at the cursor, always in range, and the final EOF at the last position |
| `Parser.Parser.Previous` | src/main/java/lox/Parser.java:235-237 | `previous()` is the token just before the cursor, in range whenever the cursor has moved |
| `Parser.Parser.Check` | src/main/java/lox/Parser.java:222-225 | true only when not at EOF and the current token has the given type, so advancing after it stays in bounds |
| `Parser.Parser.Advance` | src/main/java/lox/Parser.java:217-220 | moves one token forward unless at EOF and returns the token before the cursor; the cursor stays inside the list |
| `Parser.Parser.Match` | src/main/java/lox/Parser.java:211-215 | advances by exactly one exactly when the current token is not EOF and its type is in `types`; otherwise the cursor is unchanged |
| `Parser.Parser.Consume` | src/main/java/lox/Parser.java:176-180 | either returns the current token and advances by one, or fails with the message at `peek()` without moving |
| `Parser.Parser.Synchronize` | src/main/java/lox/Parser.java:187-209 | advances at least once unless at EOF, skips no `;` and no EOF, and stops at the first EOF, just after a `;`, or before a statement keyword |
| `Parser.Parser.Parse` | src/main/java/lox/Parser.java:19-26 | the loop terminates and returns exactly the grammar's list of statements up to EOF, or its first error; after a successful parse the cursor rests on EOF |
| `Parser.Parser.Statement` | src/main/java/lox/Parser.java:61-65 | result and final cursor agree with `StatementSpec` |
| `Parser.Parser.PrintStatement` | src/main/java/lox/Parser.java:67-71 | result and final cursor agree with `PrintStatementSpec` |
| `Parser.Parser.ExpressionStatement` | src/main/java/lox/Parser.java:73-77 | result and final cursor agree with `ExpressionStatementSpec` |
| `Parser.Parser.Expression` | src/main/java/lox/Parser.java:28-41 | result and final cursor agree with `ExpressionSpec` |
| `Parser.Parser.TernarySuffix` | src/main/java/lox/Parser.java:42-58 | result and final cursor agree with `TernarySpec` (lines 48-53 reconstructed) |
| `Parser.Parser.Equality` | src/main/java/lox/Parser.java:79-94 | the left-folding loop computes `LevelSpec(EqualityLevel)` |
| `Parser.Parser.Comparison` | src/main/java/lox/Parser.java:96-111 | the left-folding loop computes `LevelSpec(ComparisonLevel)` |
| `Parser.Parser.Term` | src/main/java/lox/Parser.java:113-128 | the left-folding loop computes `LevelSpec(TermLevel)`, where only a leading `+` is an error |
| `Parser.Parser.Factor` | src/main/java/lox/Parser.java:130-145 | the left-folding loop computes `LevelSpec(FactorLevel)` |
| `Parser.Parser.Unary` | src/main/java/lox/Parser.java:147-155 | result and final cursor agree with `UnarySpec` |
| `Parser.Parser.Primary` | src/main/java/lox/Parser.java:157-171 | result and final cursor agree with `PrimarySpec` |
| `Grammar.IsEofAt` | src/main/java/lox/Parser.java:227-229 | the last position of a scanned list is always the end, and a position that is not the end has a next token |
| `Grammar.MatchesAt` | src/main/java/lox/Parser.java:211-215 | a match implies the matched token is not the final EOF and has one of the types |
| `Grammar.ConsumeSpec` | src/main/java/lox/Parser.java:176-180 | succeeds iff the current token has the type and is not EOF; then it yields that token and the next position, else the error at the current token |
| `Grammar.ExpressionSpec` | src/main/java/lox/Parser.java:28-59 | a successful parse consumes at least one token and ends inside the list |
| `Grammar.TernarySpec` | src/main/java/lox/Parser.java:42-56 | a successful parse never moves backwards and ends inside the list |
| `Grammar.LevelSpec` | src/main/java/lox/Parser.java:79-145 | a successful parse at any binary level consumes at least one token and ends inside the list |
| `Grammar.LevelTailSpec` | src/main/java/lox/Parser.java:87-91 | the operator loop never moves backwards and ends inside the list |
| `Grammar.OperandSpec` | src/main/java/lox/Parser.java:85 | the operand of each level consumes at least one token |
| `Grammar.UnarySpec` | src/main/java/lox/Parser.java:147-155 | a successful unary consumes at least one token |
| `Grammar.PrimarySpec` | src/main/java/lox/Parser.java:157-171 | a successful primary consumes at least one token |
| `Grammar.PrintStatementSpec` | src/main/java/lox/Parser.java:67-71 | a successful print statement consumes at least one token and ends with its `;` |
| `Grammar.ExpressionStatementSpec` | src/main/java/lox/Parser.java:73-77 | a successful expression statement consumes at least one token and ends with its `;` |
| `Grammar.StatementSpec` | src/main/java/lox/Parser.java:61-65 | every successful statement consumes at least one token, its terminating `;` |
| `Grammar.ProgramSpec` | src/main/java/lox/Parser.java:19-26 | at EOF the program is empty; a parsed program has fewer statements than tokens left, since each statement consumes a token |
| `GrammarProperties.LevelTailFoldsLeft` | src/main/java/lox/Parser.java:87-91 | a chain `a op b op c ...` at one level parses to the left-nested tree `FoldLeft` |
| `GrammarProperties.LevelTailIsChain` | src/main/java/lox/Parser.java:104-108 | conversely, every successful loop run is such a chain, left-folded, ending where no operator of the level follows |
| `GrammarProperties.LeftAssociativeTriple` | src/main/java/lox/Parser.java:121-125 | `a - b - c` (any level) yields `Binary(Binary(a, -, b), -, c)` |
| `GrammarProperties.CommaFoldsRight` | src/main/java/lox/Parser.java:36-40 | `a, b, c` yields `Binary(a, ',', Binary(b, ',', c))`: the comma is right-associative |
| `GrammarProperties.ExpressionLeadingOperator` | src/main/java/lox/Parser.java:29-33 | an expression starting with a binary operator other than `-` fails with "Expect expression before '<lexeme>'." at that operator once the discarded operand parses, or with that operand's error |
| `GrammarProperties.LevelLeadingOperator` | src/main/java/lox/Parser.java:80-84 | each binary level reports its own leading operator, and passes up the error of a tighter level |
| `GrammarProperties.FailurePassesUp` | src/main/java/lox/Parser.java:97-102 | a level that does not start with its operator fails exactly as its first operand does |
| `GrammarProperties.TermLeadingMinusIsNegation` | src/main/java/lox/Parser.java:114-118 | a leading `-` at the term level is a negation, not a missing left operand |
| `GrammarProperties.PrimaryFailurePropagates` | src/main/java/lox/Parser.java:154-171 | starting at an operand token, `expression()` fails exactly as `primary()` does |
| `GrammarProperties.ExpectExpression` | src/main/java/lox/Parser.java:170 | a token that cannot start an expression, EOF included, fails with "Expect expression." at that token |
| `GrammarProperties.UnclosedParenthesis` | src/main/java/lox/Parser.java:164-168 | `(` with no matching `)` fails with "Expect ')' after expression." at the token found instead |
| `GrammarProperties.ExpressionIsTernarySuffix` | src/main/java/lox/Parser.java:34-42 | without a leading operator or a comma, the rest of `expression()` is the ternary suffix |
| `GrammarProperties.TernaryParses` | src/main/java/lox/Parser.java:48-54 | `c ? t : e` parses to `Ternary(?, c, t, e)`, whose else-branch is a full expression |
| `GrammarProperties.TernaryMissingThenBranch` | src/main/java/lox/Parser.java:43-47 | `c ? : ...` fails at the `:` with "Expect expression before ','.", once the expression after the `:` parses |
| `GrammarProperties.TernaryMissingColon` | src/main/java/lox/Parser.java:55 | `c ? t` with no `:` fails with "Expect ':' after expression." at the token found instead |
| `GrammarProperties.NoStatementAtEof` | src/main/java/lox/Parser.java:61-77 | no statement parses at EOF |
| `GrammarProperties.ProgramParsesStatements` | src/main/java/lox/Parser.java:19-26 | `parse()` yields `statements` iff the tokens up to EOF are exactly those statements parsed one after another |
| `GrammarProperties.ProgramFailsAtFirstError` | src/main/java/lox/Parser.java:22-23 | `parse()` fails with `e` iff some statement fails with `e` after all earlier ones parsed: the first error, never a partial list |
| `GrammarProperties.FirstCauseFails` | src/main/java/lox/Parser.java:22-23 | a statement error after parsed statements is the error of the whole parse |
| `GrammarProperties.ErrorHasFirstCause` | src/main/java/lox/Parser.java:19-26 | a failing parse has a first failing statement |
| `GrammarProperties.StatementsBoundedBySemicolons` | src/main/java/lox/Parser.java:69-75 | a parsed program has no more statements than `;` tokens |
| `GrammarProperties.LeadingPlusRejected` | src/main/java/lox/Parser.java:113-118 | `+ 1 ;` fails with "Expect expression before '+'." at the `+` |
| `Interpreter.IsTruthy` | src/main/java/lox/Interpreter.java:137-141 | `nil` and `false` are falsy; every other value (0 and "" too) is truthy |
| `Interpreter.IsEqual` | src/main/java/lox/Interpreter.java:119-121 | `nil` equals only `nil`; equal values have the same runtime type; booleans, numbers and strings compare by value |
| `Interpreter.TrimPointZero` | src/main/java/lox/Interpreter.java:127-129 | a trailing ".0" is removed (appending it back restores the text); other text is unchanged |
| `Interpreter.Stringify` | src/main/java/lox/Interpreter.java:123-135 | `nil` renders as "nil", booleans as "true"/"false", strings unchanged, numbers as their text without a trailing ".0" |
| `Interpreter.CheckNumberOperand` | src/main/java/lox/Interpreter.java:113-117 | succeeds iff the operand is a number, else "Operand must be a number." at the operator |
| `Interpreter.CheckNumberOperands` | src/main/java/lox/Interpreter.java:107-111 | succeeds iff both operands are numbers, else "Operands must be numbers." at the operator |
| `Interpreter.CheckBooleanOperand` | src/main/java/lox/Interpreter.java:173-177 | succeeds iff the condition is a boolean, else "Condition must be a boolean." at the operator |
| `Interpreter.ApplyUnary` | src/main/java/lox/Interpreter.java:93-104 | fails iff the operator is `-` and the operand not a number, with "Operand must be a number."; `-` negates a number; `!` gives the negated truthiness |
| `Interpreter.ApplyPlus` | src/main/java/lox/Interpreter.java:43-58 | succeeds iff both operands are numbers or strings; the result is a number iff both are numbers (their sum), otherwise the concatenation of both operands' `stringify` texts |
| `Interpreter.ApplyBinary` | src/main/java/lox/Interpreter.java:32-76 | errors are reported at the operator with one of the three binary messages; `==`, `!=` and the fall-through (`,`) never fail; comparisons give booleans and `- * /` numbers |
| `Interpreter.Evaluate` | src/main/java/lox/Interpreter.java:27-105 | a literal never fails; every runtime error is reported at an operator token of the tree with one of the evaluator's messages |
| `Interpreter.Execute` | src/main/java/lox/Interpreter.java:151-162 | fails exactly when its expression does, with that error; a `print` emits exactly the line `stringify(value)`, an expression statement nothing |
| `Interpreter.Run` | src/main/java/lox/Interpreter.java:17-25 | a run prints at most one line per statement |
| `Interpreter.Interpret` | src/main/java/lox/Interpreter.java:17-25 | the loop's output and failure are exactly `Run`: statements in order, stopping at the first runtime error |
| `InterpreterProperties.BangNegatesTruthiness` | src/main/java/lox/Interpreter.java:97-98 | `!` fails only when its operand does and otherwise yields `!isTruthy(v)` |
| `InterpreterProperties.NegationNeedsNumber` | src/main/java/lox/Interpreter.java:94-96 | unary `-` negates a number and fails with "Operand must be a number." on anything else |
| `InterpreterProperties.NumericOperandsChecked` | src/main/java/lox/Interpreter.java:33-40 | `- * / < <= > >=` fail with "Operands must be numbers." exactly when an operand is not a number |
| `InterpreterProperties.NumericOperatorResults` | src/main/java/lox/Interpreter.java:59-70 | on two numbers they compute the difference, product, quotient and comparisons |
| `InterpreterProperties.DivisionByZero` | src/main/java/lox/Interpreter.java:39-42 | `/` fails with "Division by 0." exactly when both operands are numbers and the right one is 0; the type error takes precedence |
| `InterpreterProperties.PlusTable` | src/main/java/lox/Interpreter.java:43-58 | `+` is sum, `stringify(l) ++ r`, `l ++ stringify(r)`, concatenation, or "Operands must be two numbers or two strings." |
| `InterpreterProperties.EqualityOperatorsOpposite` | src/main/java/lox/Interpreter.java:71-72 | `==` and `!=` never fail and give opposite results |
| `InterpreterProperties.EqualityAcrossTypes` | src/main/java/lox/Interpreter.java:119-121 | values of different runtime types are never equal; `nil` equals only `nil`; equality is reflexive and symmetric |
| `InterpreterProperties.OperandErrorsFirst` | src/main/java/lox/Interpreter.java:29-30 | both operands are evaluated left then right before the operator, so an error on the left wins |
| `InterpreterProperties.CommaYieldsNil` | src/main/java/lox/Interpreter.java:73-76 | a `,` Binary node falls through the switch and yields `nil` |
| `InterpreterProperties.TernaryNeedsBoolean` | src/main/java/lox/Interpreter.java:166-168 | a non-boolean condition fails with "Condition must be a boolean." |
| `InterpreterProperties.TernaryShortCircuits` | src/main/java/lox/Interpreter.java:170 | only the selected branch is evaluated; replacing the other one, even by a failing one, changes nothing |
| `InterpreterProperties.StringifyNumber` | src/main/java/lox/Interpreter.java:126-131 | a number whose text is `w + ".0"` renders as `w`; other number text renders unchanged |
| `InterpreterProperties.RunAppend` | src/main/java/lox/Interpreter.java:19-21 | running `first + second` runs `second` only if `first` did not fail |
| `InterpreterProperties.RunWithoutFailure` | src/main/java/lox/Interpreter.java:157-162 | a run without failure prints exactly the `stringify` text of each `print` statement's value, in order (`Printed`), one line per `print` |
| `InterpreterProperties.RunStopsAtFirstFailure` | src/main/java/lox/Interpreter.java:17-25 | when statement `k` is the first to fail, the run fails with its error and its output is exactly `Printed(statements[..k])`: the `stringify` line of each `print` before `k` |
| `InterpreterProperties.PrefixSucceeds` | src/main/java/lox/Interpreter.java:18-21 | a list whose every statement succeeds runs without failure |
| `InterpreterProperties.FailureHasFirstCause` | src/main/java/lox/Interpreter.java:22-24 | a failing run has a first failing statement, with every earlier one succeeding |
| `InterpreterProperties.ArithmeticExamples` | src/main/java/lox/Interpreter.java:35-46 | `1 + 2 * 3` is 7, `(1 + 2) * 3` is 9, `1 / 2` is 0.5 |
| `InterpreterProperties.ComparisonChainExample` | src/main/java/lox/Interpreter.java:59-61 | `1 < 2 < 3` fails with "Operands must be numbers." |
| `InterpreterProperties.ConcatenationExamples` | src/main/java/lox/Interpreter.java:47-58 | `"a" + 1` is "a1", `1 + "a"` is "1a", `1 + true` fails |
| `InterpreterProperties.DivisionByZeroExample` | src/main/java/lox/Interpreter.java:41 | `1 / 0` fails with "Division by 0." |
| `InterpreterProperties.TernaryExamples` | src/main/java/lox/Interpreter.java:166-171 | `true ? 1 : (1/0)` is 1 and `1 ? 1 : 2` fails |
| `InterpreterProperties.PrintExamples` | src/main/java/lox/Interpreter.java:157-162 | `print 3.0;` writes "3", `print 3.5;` writes "3.5", `print nil;` writes "nil" |
| `EndToEnd.LevelAddsNothing` | src/main/java/lox/Parser.java:102-110 | a level whose first operand is not followed by one of its operators parses just that operand |
| `EndToEnd.PrecedenceParse` | src/main/java/lox/Parser.java:113-145 | the expression of `print 1 + 2 * 3 ;` is `1 + (2 * 3)`: `*` binds tighter than `+` |
| `EndToEnd.PrecedenceProgram` | src/main/java/lox/Parser.java:19-26 | `print 1 + 2 * 3 ;` parses to the single statement printing `1 + (2 * 3)` |
| `EndToEnd.PrecedenceEndToEnd` | src/main/java/lox/Interpreter.java:17-25 | parsing and then running `print 1 + 2 * 3 ;` writes the single line "7" |

## Left out

- `Lox.error` and `Lox.runtimeError`, the diagnostic sink: errors are returned as `ParseError(token, message)` and `RuntimeError(token, message)` values instead of being reported.
- `System.out.println`: `print` output is the returned sequence of lines.
- IEEE-754 doubles: numbers are exact reals. Rounding, overflow, NaN and `-0.0` are not modelled. So `Objects.equals` on NaN or `-0.0` is not modelled, and neither is a division whose right operand is `-0.0`.
- `Double.toString`: the rendering of a number is the parameter `showNumber`. Only the ".0" stripping that `stringify` applies to its output is modelled.
- The Visitor/`accept` dispatch and `evaluate`/`execute`: these are exhaustive `match`es in `Evaluate` and `Execute`.
- The scanner, the driver/REPL, and the Token, TokenType, Expr, Stmt and RuntimeError classes: these are not part of this model. Minimal datatypes stand in for them.
- Parser.Parser.Advance: requires that the cursor is not at EOF or is past the first token. In the source, `advance()` at EOF with `current == 0` would read `tokens.get(-1)` and throw. Only `synchronize()` could reach that case, and nothing calls it.
- Parser.Parser.Synchronize: modelled as a standalone method. The source never calls it, and `parse()` stops at the first error.
- Parser methods on failure: the model does not say where the cursor ends, because the source abandons the parse at the first error.
