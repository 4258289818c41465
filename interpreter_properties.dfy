/** Properties of the evaluator and of statement execution, stated over module Interpreter. */
module InterpreterProperties {
  import opened Wrappers
  import opened Values
  import opened Tokens
  import opened Ast
  import opened Interpreter

  // ---- truthiness and `!` ----

  /** `!` fails only if its operand does, and yields the negated truthiness. */
  lemma BangNegatesTruthiness(operator: Token, e: Expr, showNumber: real -> string)
    requires operator.kind == Bang
    ensures Evaluate(e, showNumber).Ok? ==>
      Evaluate(Unary(operator, e), showNumber) == Ok(Bool(!IsTruthy(Evaluate(e, showNumber).value)))
    ensures Evaluate(e, showNumber).Err? ==>
      Evaluate(Unary(operator, e), showNumber) == Err(Evaluate(e, showNumber).error)
  {
  }

  /** Unary `-` negates a number and rejects every other operand. */
  lemma NegationNeedsNumber(operator: Token, e: Expr, v: Value, showNumber: real -> string)
    requires operator.kind == Minus && Evaluate(e, showNumber) == Ok(v)
    ensures Evaluate(Unary(operator, e), showNumber)
         == if v.Number? then Ok(Number(-v.n)) else Err(RuntimeError(operator, "Operand must be a number."))
  {
  }

  // ---- binary operators ----

  /** The operators whose operands must both be numbers. */
  const NumericOperators: set<TokenType> := {Minus, Star, Slash, Less, LessEqual, Greater, GreaterEqual}

  /** A numeric operator fails with "Operands must be numbers." exactly when an operand is not a number. */
  lemma NumericOperandsChecked(left: Expr, operator: Token, right: Expr, a: Value, b: Value, showNumber: real -> string)
    requires operator.kind in NumericOperators
    requires Evaluate(left, showNumber) == Ok(a) && Evaluate(right, showNumber) == Ok(b)
    ensures Evaluate(Binary(left, operator, right), showNumber) == Err(RuntimeError(operator, "Operands must be numbers."))
        <==> !(a.Number? && b.Number?)
  {
  }

  /** On two numbers the numeric operators compute exact arithmetic and comparisons. */
  lemma NumericOperatorResults(left: Expr, operator: Token, right: Expr, x: real, y: real, showNumber: real -> string)
    requires Evaluate(left, showNumber) == Ok(Number(x)) && Evaluate(right, showNumber) == Ok(Number(y))
    ensures var r := Evaluate(Binary(left, operator, right), showNumber);
      && (operator.kind == Minus ==> r == Ok(Number(x - y)))
      && (operator.kind == Star ==> r == Ok(Number(x * y)))
      && (operator.kind == Slash && y != 0.0 ==> r == Ok(Number(x / y)))
      && (operator.kind == Less ==> r == Ok(Bool(x < y)))
      && (operator.kind == LessEqual ==> r == Ok(Bool(x <= y)))
      && (operator.kind == Greater ==> r == Ok(Bool(x > y)))
      && (operator.kind == GreaterEqual ==> r == Ok(Bool(x >= y)))
  {
    assert Evaluate(Binary(left, operator, right), showNumber)
        == ApplyBinary(operator, Number(x), Number(y), showNumber);
    assert CheckNumberOperands(operator, Number(x), Number(y)) == Ok((x, y));
    if operator.kind == Star {
      assert ApplyBinary(operator, Number(x), Number(y), showNumber).value.n == x * y;
    }
  }

  /** `/` fails with "Division by 0." exactly when both operands are numbers and the right one is 0. */
  lemma DivisionByZero(left: Expr, operator: Token, right: Expr, a: Value, b: Value, showNumber: real -> string)
    requires operator.kind == Slash
    requires Evaluate(left, showNumber) == Ok(a) && Evaluate(right, showNumber) == Ok(b)
    ensures Evaluate(Binary(left, operator, right), showNumber) == Err(RuntimeError(operator, "Division by 0."))
        <==> a.Number? && b.Number? && b.n == 0.0
  {
  }

  /** The table of `+`: sum, concatenation with the number rendered by `stringify`, or an error. */
  lemma PlusTable(left: Expr, operator: Token, right: Expr, a: Value, b: Value, showNumber: real -> string)
    requires operator.kind == Plus
    requires Evaluate(left, showNumber) == Ok(a) && Evaluate(right, showNumber) == Ok(b)
    ensures var r := Evaluate(Binary(left, operator, right), showNumber);
      && (a.Number? && b.Number? ==> r == Ok(Number(a.n + b.n)))
      && (a.Number? && b.Str? ==> r == Ok(Str(Stringify(a, showNumber) + b.s)))
      && (a.Str? && b.Number? ==> r == Ok(Str(a.s + Stringify(b, showNumber))))
      && (a.Str? && b.Str? ==> r == Ok(Str(a.s + b.s)))
      && (!((a.Number? || a.Str?) && (b.Number? || b.Str?)) ==>
            r == Err(RuntimeError(operator, "Operands must be two numbers or two strings.")))
  {
  }

  /** `==` and `!=` never fail on evaluated operands and always give opposite answers. */
  lemma EqualityOperatorsOpposite(left: Expr, eq: Token, ne: Token, right: Expr, a: Value, b: Value, showNumber: real -> string)
    requires eq.kind == EqualEqual && ne.kind == BangEqual
    requires Evaluate(left, showNumber) == Ok(a) && Evaluate(right, showNumber) == Ok(b)
    ensures Evaluate(Binary(left, eq, right), showNumber) == Ok(Bool(IsEqual(a, b)))
    ensures Evaluate(Binary(left, ne, right), showNumber) == Ok(Bool(!IsEqual(a, b)))
  {
  }

  /** Values of different runtime types are never equal, and nil equals only nil. */
  lemma EqualityAcrossTypes(a: Value, b: Value)
    ensures !SameType(a, b) ==> !IsEqual(a, b)
    ensures IsEqual(Nil, b) <==> b == Nil
    ensures IsEqual(a, a)
    ensures IsEqual(a, b) == IsEqual(b, a)
  {
  }

  /** Operands are evaluated left to right before the operator: an error on the left wins, then one on the right. */
  lemma OperandErrorsFirst(left: Expr, operator: Token, right: Expr, showNumber: real -> string)
    ensures Evaluate(left, showNumber).Err? ==>
      Evaluate(Binary(left, operator, right), showNumber) == Err(Evaluate(left, showNumber).error)
    ensures Evaluate(left, showNumber).Ok? && Evaluate(right, showNumber).Err? ==>
      Evaluate(Binary(left, operator, right), showNumber) == Err(Evaluate(right, showNumber).error)
  {
  }

  /** A `,` node falls through the operator switch and yields nil, whatever its operands are. */
  lemma CommaYieldsNil(left: Expr, operator: Token, right: Expr, showNumber: real -> string)
    requires operator.kind == Comma
    requires Evaluate(left, showNumber).Ok? && Evaluate(right, showNumber).Ok?
    ensures Evaluate(Binary(left, operator, right), showNumber) == Ok(Nil)
  {
  }

  // ---- the ternary ----

  /** A condition that is not a boolean fails with "Condition must be a boolean.". */
  lemma TernaryNeedsBoolean(operator: Token, condition: Expr, left: Expr, right: Expr, c: Value, showNumber: real -> string)
    requires Evaluate(condition, showNumber) == Ok(c)
    ensures !c.Bool? ==>
      Evaluate(Ternary(operator, condition, left, right), showNumber) == Err(RuntimeError(operator, "Condition must be a boolean."))
  {
  }

  /** Only the selected branch is evaluated: the other branch, error or not, does not change the result. */
  lemma TernaryShortCircuits(operator: Token, condition: Expr, left: Expr, right: Expr, other: Expr, showNumber: real -> string)
    requires Evaluate(condition, showNumber).Ok? && Evaluate(condition, showNumber).value.Bool?
    ensures Evaluate(condition, showNumber).value.b ==>
      && Evaluate(Ternary(operator, condition, left, right), showNumber) == Evaluate(left, showNumber)
      && Evaluate(Ternary(operator, condition, left, right), showNumber)
         == Evaluate(Ternary(operator, condition, left, other), showNumber)
    ensures !Evaluate(condition, showNumber).value.b ==>
      && Evaluate(Ternary(operator, condition, left, right), showNumber) == Evaluate(right, showNumber)
      && Evaluate(Ternary(operator, condition, left, right), showNumber)
         == Evaluate(Ternary(operator, condition, other, right), showNumber)
  {
  }

  // ---- stringify ----

  /** A number whose text ends in ".0" prints without it; any other number text prints unchanged. */
  lemma StringifyNumber(n: real, showNumber: real -> string, whole: string)
    ensures showNumber(n) == whole + ".0" ==> Stringify(Number(n), showNumber) == whole
    ensures !EndsWithPointZero(showNumber(n)) ==> Stringify(Number(n), showNumber) == showNumber(n)
  {
    if showNumber(n) == whole + ".0" {
      var text := showNumber(n);
      assert text[|text| - 2..] == ".0";
      assert text[..|text| - 2] == whole;
    }
  }

  // ---- running statement lists ----

  /** The number of `print` statements in a list. */
  function CountPrints(statements: seq<Stmt>): nat {
    if statements == [] then 0
    else (if statements[0].PrintStmt? then 1 else 0) + CountPrints(statements[1..])
  }

  /**
    What a list of statements prints when none of them fails, written without
    the run loop: the `stringify` text of each `print` statement's value, in order.
  */
  function Printed(statements: seq<Stmt>, showNumber: real -> string): seq<string> {
    if statements == [] then []
    else
      var s := statements[0];
      var v := Evaluate(s.expression, showNumber);
      (if s.PrintStmt? && v.Ok? then [Stringify(v.value, showNumber)] else [])
        + Printed(statements[1..], showNumber)
  }

  /** Running `first + second` runs `first`, and then `second` only if `first` did not fail. */
  lemma {:induction false} RunAppend(first: seq<Stmt>, second: seq<Stmt>, showNumber: real -> string)
    ensures Run(first + second, showNumber)
         == if Run(first, showNumber).1.Some? then Run(first, showNumber)
            else (Run(first, showNumber).0 + Run(second, showNumber).0, Run(second, showNumber).1)
    decreases |first|
  {
    if first == [] {
      assert first + second == second;
      assert [] + Run(second, showNumber).0 == Run(second, showNumber).0;
    } else {
      assert (first + second)[0] == first[0];
      assert (first + second)[1..] == first[1..] + second;
      RunAppend(first[1..], second, showNumber);
      match Execute(first[0], showNumber)
      case Err(_) =>
      case Ok(lines) =>
        var rest := Run(first[1..], showNumber);
        if rest.1.None? {
          assert lines + (rest.0 + Run(second, showNumber).0) == (lines + rest.0) + Run(second, showNumber).0;
        }
    }
  }

  /**
    A run without failure prints exactly one line per `print` statement: the
    `stringify` text of its value, in program order.
  */
  lemma {:induction false} RunWithoutFailure(statements: seq<Stmt>, showNumber: real -> string)
    requires Run(statements, showNumber).1 == None
    ensures Run(statements, showNumber).0 == Printed(statements, showNumber)
    ensures |Run(statements, showNumber).0| == CountPrints(statements)
    ensures forall k :: 0 <= k < |statements| ==> Execute(statements[k], showNumber).Ok?
    decreases |statements|
  {
    if statements != [] {
      RunWithoutFailure(statements[1..], showNumber);
      assert Execute(statements[0], showNumber).Ok?;
      forall k | 0 <= k < |statements|
        ensures Execute(statements[k], showNumber).Ok?
      {
        if k > 0 {
          assert statements[k] == statements[1..][k - 1];
        }
      }
    }
  }

  /**
    `interpret` stops at the first runtime error: when statement `k` is the
    first to fail, the run fails with its error, and the output is what the
    earlier statements print, the `stringify` text of each `print` among them.
  */
  lemma RunStopsAtFirstFailure(statements: seq<Stmt>, k: nat, e: RuntimeError, showNumber: real -> string)
    requires k < |statements|
    requires forall j :: 0 <= j < k ==> Execute(statements[j], showNumber).Ok?
    requires Execute(statements[k], showNumber) == Err(e)
    ensures Run(statements, showNumber) == (Printed(statements[..k], showNumber), Some(e))
    ensures |Run(statements, showNumber).0| == CountPrints(statements[..k])
  {
    PrefixSucceeds(statements[..k], showNumber);
    assert statements == statements[..k] + statements[k..];
    RunAppend(statements[..k], statements[k..], showNumber);
    assert statements[k..][0] == statements[k];
    assert Run(statements[..k], showNumber).0 + [] == Run(statements[..k], showNumber).0;
    RunWithoutFailure(statements[..k], showNumber);
  }

  /** A list whose every statement succeeds runs without failure. */
  lemma {:induction false} PrefixSucceeds(statements: seq<Stmt>, showNumber: real -> string)
    requires forall j :: 0 <= j < |statements| ==> Execute(statements[j], showNumber).Ok?
    ensures Run(statements, showNumber).1 == None
    decreases |statements|
  {
    if statements != [] {
      assert Execute(statements[0], showNumber).Ok?;
      forall j | 0 <= j < |statements| - 1
        ensures Execute(statements[1..][j], showNumber).Ok?
      {
        assert statements[1..][j] == statements[j + 1];
      }
      PrefixSucceeds(statements[1..], showNumber);
    }
  }

  /** Conversely, a failing run has a first failing statement. */
  lemma {:induction false} FailureHasFirstCause(statements: seq<Stmt>, e: RuntimeError, showNumber: real -> string)
    requires Run(statements, showNumber).1 == Some(e)
    ensures exists k :: (0 <= k < |statements|
      && (forall j :: 0 <= j < k ==> Execute(statements[j], showNumber).Ok?)
      && Execute(statements[k], showNumber) == Err(e))
    decreases |statements|
  {
    assert statements != [];
    match Execute(statements[0], showNumber)
    case Err(_) =>
      assert Execute(statements[0], showNumber) == Err(e);
    case Ok(_) =>
      FailureHasFirstCause(statements[1..], e, showNumber);
      var k :| 0 <= k < |statements[1..]|
        && (forall j :: 0 <= j < k ==> Execute(statements[1..][j], showNumber).Ok?)
        && Execute(statements[1..][k], showNumber) == Err(e);
      assert Execute(statements[k + 1], showNumber) == Err(e);
      forall j | 0 <= j < k + 1
        ensures Execute(statements[j], showNumber).Ok?
      {
        if j > 0 {
          assert statements[j] == statements[1..][j - 1];
        }
      }
  }

  // ---- worked examples ----

  /** An operator token on line 1. */
  function Op(kind: TokenType, lexeme: string): Token {
    Token(kind, lexeme, Nil, 1)
  }

  /** A number literal node. */
  function Num(n: real): Expr {
    Literal(Number(n))
  }

  /** `1 + 2 * 3` is 7 and `(1 + 2) * 3` is 9. */
  lemma ArithmeticExamples(showNumber: real -> string)
    ensures Evaluate(Binary(Num(1.0), Op(Plus, "+"), Binary(Num(2.0), Op(Star, "*"), Num(3.0))), showNumber)
         == Ok(Number(7.0))
    ensures Evaluate(Binary(Grouping(Binary(Num(1.0), Op(Plus, "+"), Num(2.0))), Op(Star, "*"), Num(3.0)), showNumber)
         == Ok(Number(9.0))
    ensures Evaluate(Binary(Num(1.0), Op(Slash, "/"), Num(2.0)), showNumber) == Ok(Number(0.5))
  {
    NumericOperatorResults(Num(2.0), Op(Star, "*"), Num(3.0), 2.0, 3.0, showNumber);
    NumericOperatorResults(Grouping(Binary(Num(1.0), Op(Plus, "+"), Num(2.0))), Op(Star, "*"), Num(3.0), 3.0, 3.0, showNumber);
    NumericOperatorResults(Num(1.0), Op(Slash, "/"), Num(2.0), 1.0, 2.0, showNumber);
  }

  /** `1 < 2 < 3` compares `true` with 3 and fails. */
  lemma ComparisonChainExample(showNumber: real -> string)
    ensures Evaluate(Binary(Binary(Num(1.0), Op(Less, "<"), Num(2.0)), Op(Less, "<"), Num(3.0)), showNumber)
         == Err(RuntimeError(Op(Less, "<"), "Operands must be numbers."))
  {
  }

  /** `"a" + 1` is "a1", `1 + "a"` is "1a", and `1 + true` fails, when 1 renders as "1.0". */
  lemma ConcatenationExamples(showNumber: real -> string)
    requires showNumber(1.0) == "1.0"
    ensures Evaluate(Binary(Literal(Str("a")), Op(Plus, "+"), Num(1.0)), showNumber) == Ok(Str("a1"))
    ensures Evaluate(Binary(Num(1.0), Op(Plus, "+"), Literal(Str("a"))), showNumber) == Ok(Str("1a"))
    ensures Evaluate(Binary(Num(1.0), Op(Plus, "+"), Literal(Bool(true))), showNumber)
         == Err(RuntimeError(Op(Plus, "+"), "Operands must be two numbers or two strings."))
  {
    assert "1" + ".0" == "1.0";
    StringifyNumber(1.0, showNumber, "1");
    assert Stringify(Number(1.0), showNumber) == "1";
    assert "a" + "1" == "a1" && "1" + "a" == "1a";
  }

  /** `1 / 0` fails with the distinct "Division by 0." error. */
  lemma DivisionByZeroExample(showNumber: real -> string)
    ensures Evaluate(Binary(Num(1.0), Op(Slash, "/"), Num(0.0)), showNumber)
         == Err(RuntimeError(Op(Slash, "/"), "Division by 0."))
  {
  }

  /** `true ? 1 : (1/0)` is 1, and `1 ? 1 : 2` fails. */
  lemma TernaryExamples(showNumber: real -> string)
    ensures Evaluate(Ternary(Op(Question, "?"), Literal(Bool(true)), Num(1.0),
                             Grouping(Binary(Num(1.0), Op(Slash, "/"), Num(0.0)))), showNumber)
         == Ok(Number(1.0))
    ensures Evaluate(Ternary(Op(Question, "?"), Num(1.0), Num(1.0), Num(2.0)), showNumber)
         == Err(RuntimeError(Op(Question, "?"), "Condition must be a boolean."))
  {
  }

  /** A single statement runs as it executes. */
  lemma PrintOne(s: Stmt, showNumber: real -> string)
    ensures Execute(s, showNumber).Ok? ==> Run([s], showNumber) == (Execute(s, showNumber).value, None)
  {
    assert [s][1..] == [];
    if Execute(s, showNumber).Ok? {
      assert Execute(s, showNumber).value + [] == Execute(s, showNumber).value;
    }
  }

  /** `print 3.0;` writes "3", `print 3.5;` writes "3.5" and `print nil;` writes "nil". */
  lemma PrintExamples(showNumber: real -> string)
    requires showNumber(3.0) == "3.0" && showNumber(3.5) == "3.5"
    ensures Run([PrintStmt(Num(3.0))], showNumber) == (["3"], None)
    ensures Run([PrintStmt(Num(3.5))], showNumber) == (["3.5"], None)
    ensures Run([PrintStmt(Literal(Nil))], showNumber) == (["nil"], None)
  {
    assert "3" + ".0" == "3.0";
    StringifyNumber(3.0, showNumber, "3");
    StringifyNumber(3.5, showNumber, "");
    assert !EndsWithPointZero("3.5") by {
      assert "3.5"[1..] == ".5";
    }
    assert Stringify(Number(3.0), showNumber) == "3";
    assert Stringify(Number(3.5), showNumber) == "3.5";
    PrintOne(PrintStmt(Num(3.0)), showNumber);
    PrintOne(PrintStmt(Num(3.5)), showNumber);
    PrintOne(PrintStmt(Literal(Nil)), showNumber);
  }
}
