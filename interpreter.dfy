/**
  The tree-walking evaluator of src/main/java/lox/Interpreter.java. Expression
  evaluation is a pure function returning a Result instead of throwing
  RuntimeError; `interpret` is a method that runs statements in order and
  collects the lines that `print` writes to standard output.

  Java's `Double.toString` is not modelled: every function that renders a
  number takes it as the parameter `showNumber`.
*/
module Interpreter {
  import opened Wrappers
  import opened Values
  import opened Tokens
  import opened Ast

  /** A runtime failure: the operator token it is reported at and the message. */
  datatype RuntimeError = RuntimeError(token: Token, message: string)

  /** Both values have the same runtime type. */
  predicate SameType(a: Value, b: Value) {
    || (a.Nil? && b.Nil?)
    || (a.Bool? && b.Bool?)
    || (a.Number? && b.Number?)
    || (a.Str? && b.Str?)
  }

  /** `isTruthy`: nil and false are falsy, everything else (0 and "" included) is truthy. */
  predicate IsTruthy(v: Value)
    ensures IsTruthy(v) <==> v != Nil && v != Bool(false)
  {
    match v
    case Nil => false
    case Bool(b) => b
    case _ => true
  }

  /** `isEqual`, that is `Objects.equals` on the four runtime types. */
  predicate IsEqual(a: Value, b: Value)
    ensures a.Nil? ==> (IsEqual(a, b) <==> b.Nil?)
    ensures IsEqual(a, b) ==> SameType(a, b)
    ensures a.Bool? && b.Bool? ==> (IsEqual(a, b) <==> a.b == b.b)
    ensures a.Number? && b.Number? ==> (IsEqual(a, b) <==> a.n == b.n)
    ensures a.Str? && b.Str? ==> (IsEqual(a, b) <==> a.s == b.s)
  {
    a == b
  }

  /** `text` ends with ".0", the suffix `stringify` removes from a number's text. */
  predicate EndsWithPointZero(text: string) {
    |text| >= 2 && text[|text| - 2..] == ".0"
  }

  /** Drops a trailing ".0": appending ".0" back gives the original text. */
  function TrimPointZero(text: string): (r: string)
    ensures EndsWithPointZero(text) ==> r + ".0" == text
    ensures !EndsWithPointZero(text) ==> r == text
  {
    if EndsWithPointZero(text) then text[..|text| - 2] else text
  }

  /** `stringify`: the text `print` writes and `+` concatenates. */
  function Stringify(v: Value, showNumber: real -> string): (s: string)
    ensures v.Nil? ==> s == "nil"
    ensures v.Bool? ==> s == if v.b then "true" else "false"
    ensures v.Str? ==> s == v.s
    ensures v.Number? ==> TrimPointZero(showNumber(v.n)) == s
  {
    match v
    case Nil => "nil"
    case Bool(b) => if b then "true" else "false"
    case Number(n) => TrimPointZero(showNumber(n))
    case Str(s) => s
  }

  /** `checkNumberOperand`: the operand as a number, or "Operand must be a number.". */
  function CheckNumberOperand(operator: Token, operand: Value): (r: Result<real, RuntimeError>)
    ensures r.Ok? <==> operand.Number?
    ensures r.Ok? ==> r.value == operand.n
    ensures r.Err? ==> r.error == RuntimeError(operator, "Operand must be a number.")
  {
    if operand.Number? then Ok(operand.n)
    else Err(RuntimeError(operator, "Operand must be a number."))
  }

  /** `checkNumberOperands`: both operands as numbers, or "Operands must be numbers.". */
  function CheckNumberOperands(operator: Token, left: Value, right: Value): (r: Result<(real, real), RuntimeError>)
    ensures r.Ok? <==> left.Number? && right.Number?
    ensures r.Ok? ==> r.value == (left.n, right.n)
    ensures r.Err? ==> r.error == RuntimeError(operator, "Operands must be numbers.")
  {
    if left.Number? && right.Number? then Ok((left.n, right.n))
    else Err(RuntimeError(operator, "Operands must be numbers."))
  }

  /** `checkBooleanOperand`: the ternary's condition as a boolean, or "Condition must be a boolean.". */
  function CheckBooleanOperand(operator: Token, condition: Value): (r: Result<bool, RuntimeError>)
    ensures r.Ok? <==> condition.Bool?
    ensures r.Ok? ==> r.value == condition.b
    ensures r.Err? ==> r.error == RuntimeError(operator, "Condition must be a boolean.")
  {
    if condition.Bool? then Ok(condition.b)
    else Err(RuntimeError(operator, "Condition must be a boolean."))
  }

  /** The switch of `visitUnaryExpr`, once the operand is evaluated: only `-` on a non-number fails. */
  function ApplyUnary(operator: Token, right: Value): (r: Result<Value, RuntimeError>)
    ensures r.Err? <==> operator.kind == Minus && !right.Number?
    ensures r.Err? ==> r.error == RuntimeError(operator, "Operand must be a number.")
    ensures operator.kind == Minus && right.Number? ==> r == Ok(Number(-right.n))
    ensures operator.kind == Bang ==> r == Ok(Bool(!IsTruthy(right)))
  {
    match operator.kind
    case Minus =>
      var n :- CheckNumberOperand(operator, right);
      Ok(Number(-n))
    case Bang => Ok(Bool(!IsTruthy(right)))
    case _ => Ok(Nil)
  }

  /**
    `+`: numbers add, a string on either side makes it a concatenation of both
    operands' `stringify` texts; any other pair is an error.
  */
  function ApplyPlus(operator: Token, left: Value, right: Value, showNumber: real -> string): (r: Result<Value, RuntimeError>)
    ensures r.Ok? <==> (left.Number? || left.Str?) && (right.Number? || right.Str?)
    ensures r.Err? ==> r.error == RuntimeError(operator, "Operands must be two numbers or two strings.")
    ensures r.Ok? ==> (r.value.Number? <==> left.Number? && right.Number?)
    ensures r.Ok? && r.value.Number? ==> r.value.n == left.n + right.n
    ensures r.Ok? && !r.value.Number? ==> r.value == Str(Stringify(left, showNumber) + Stringify(right, showNumber))
  {
    if left.Number? && right.Number? then Ok(Number(left.n + right.n))
    else if left.Number? && right.Str? then Ok(Str(Stringify(left, showNumber) + right.s))
    else if left.Str? && right.Number? then Ok(Str(left.s + Stringify(right, showNumber)))
    else if left.Str? && right.Str? then Ok(Str(left.s + right.s))
    else Err(RuntimeError(operator, "Operands must be two numbers or two strings."))
  }

  /** The messages of the runtime errors a binary operator can raise. */
  const BinaryErrorMessages: set<string> :=
    {"Operands must be numbers.", "Division by 0.", "Operands must be two numbers or two strings."}

  /**
    The switch of `visitBinaryExpr`, once both operands are evaluated; `,` falls
    through to nil. Errors are reported at the operator; `==`, `!=` and the
    fall-through never fail, and comparisons yield booleans.
  */
  function ApplyBinary(operator: Token, left: Value, right: Value, showNumber: real -> string): (r: Result<Value, RuntimeError>)
    ensures r.Err? ==> r.error.token == operator && r.error.message in BinaryErrorMessages
    ensures operator.kind !in {Minus, Star, Slash, Plus, Less, LessEqual, Greater, GreaterEqual} ==> r.Ok?
    ensures r.Ok? && operator.kind in {Less, LessEqual, Greater, GreaterEqual, EqualEqual, BangEqual} ==> r.value.Bool?
    ensures r.Ok? && operator.kind in {Minus, Star, Slash} ==> r.value.Number?
  {
    match operator.kind
    case Minus =>
      var (x, y) :- CheckNumberOperands(operator, left, right);
      Ok(Number(x - y))
    case Star =>
      var (x, y) :- CheckNumberOperands(operator, left, right);
      Ok(Number(x * y))
    case Slash =>
      var (x, y) :- CheckNumberOperands(operator, left, right);
      if y == 0.0 then Err(RuntimeError(operator, "Division by 0."))
      else Ok(Number(x / y))
    case Plus => ApplyPlus(operator, left, right, showNumber)
    case Less =>
      var (x, y) :- CheckNumberOperands(operator, left, right);
      Ok(Bool(x < y))
    case LessEqual =>
      var (x, y) :- CheckNumberOperands(operator, left, right);
      Ok(Bool(x <= y))
    case Greater =>
      var (x, y) :- CheckNumberOperands(operator, left, right);
      Ok(Bool(x > y))
    case GreaterEqual =>
      var (x, y) :- CheckNumberOperands(operator, left, right);
      Ok(Bool(x >= y))
    case EqualEqual => Ok(Bool(IsEqual(left, right)))
    case BangEqual => Ok(Bool(!IsEqual(left, right)))
    case _ => Ok(Nil)
  }

  /** The operator tokens of the unary, binary and ternary nodes of `e`. */
  function OperatorTokens(e: Expr): set<Token> {
    match e
    case Literal(_) => {}
    case Grouping(inner) => OperatorTokens(inner)
    case Unary(operator, right) => {operator} + OperatorTokens(right)
    case Binary(left, operator, right) => OperatorTokens(left) + {operator} + OperatorTokens(right)
    case Ternary(operator, condition, left, right) =>
      {operator} + OperatorTokens(condition) + OperatorTokens(left) + OperatorTokens(right)
  }

  /** Every message a runtime error can carry. */
  const RuntimeErrorMessages: set<string> :=
    BinaryErrorMessages + {"Operand must be a number.", "Condition must be a boolean."}

  /**
    `evaluate`: the visitor of each expression node, operands strictly left to
    right. A literal never fails, and every runtime error is reported at an
    operator token of the tree, with one of the evaluator's messages.
  */
  function Evaluate(e: Expr, showNumber: real -> string): (r: Result<Value, RuntimeError>)
    ensures e.Literal? ==> r.Ok?
    ensures r.Err? ==> r.error.token in OperatorTokens(e) && r.error.message in RuntimeErrorMessages
    decreases e
  {
    match e
    case Literal(value) => Ok(value)
    case Grouping(inner) => Evaluate(inner, showNumber)
    case Unary(operator, right) =>
      var r :- Evaluate(right, showNumber);
      ApplyUnary(operator, r)
    case Binary(left, operator, right) =>
      var l :- Evaluate(left, showNumber);
      var r :- Evaluate(right, showNumber);
      ApplyBinary(operator, l, r, showNumber)
    case Ternary(operator, condition, left, right) =>
      var c :- Evaluate(condition, showNumber);
      var b :- CheckBooleanOperand(operator, c);
      if b then Evaluate(left, showNumber) else Evaluate(right, showNumber)
  }

  /** `execute`: the lines a statement prints, which are written only once its expression succeeded. */
  function Execute(s: Stmt, showNumber: real -> string): (r: Result<seq<string>, RuntimeError>)
    ensures r.Ok? <==> Evaluate(s.expression, showNumber).Ok?
    ensures r.Err? ==> r.error == Evaluate(s.expression, showNumber).error
    ensures r.Ok? && s.PrintStmt? ==> r.value == [Stringify(Evaluate(s.expression, showNumber).value, showNumber)]
    ensures r.Ok? && s.ExpressionStmt? ==> r.value == []
  {
    match s
    case ExpressionStmt(e) =>
      var _ :- Evaluate(e, showNumber);
      Ok([])
    case PrintStmt(e) =>
      var v :- Evaluate(e, showNumber);
      Ok([Stringify(v, showNumber)])
  }

  /** What `interpret` does to a statement list: the printed lines, and the error that stopped it, if any. */
  function Run(statements: seq<Stmt>, showNumber: real -> string): (r: (seq<string>, Option<RuntimeError>))
    ensures |r.0| <= |statements|
    decreases |statements|
  {
    if statements == [] then ([], None)
    else
      match Execute(statements[0], showNumber)
      case Err(e) => ([], Some(e))
      case Ok(lines) =>
        var (rest, failure) := Run(statements[1..], showNumber);
        (lines + rest, failure)
  }

  /**
    `interpret`: executes the statements in order and stops at the first
    runtime error, which it hands to the diagnostic sink (here: returns).
  */
  method Interpret(statements: seq<Stmt>, showNumber: real -> string)
    returns (output: seq<string>, failure: Option<RuntimeError>)
    ensures (output, failure) == Run(statements, showNumber)
  {
    output := [];
    var i := 0;
    assert statements[0..] == statements;
    assert Run(statements, showNumber).0 == [] + Run(statements, showNumber).0;
    while i < |statements|
      invariant 0 <= i <= |statements|
      invariant Run(statements, showNumber)
             == (output + Run(statements[i..], showNumber).0, Run(statements[i..], showNumber).1)
    {
      var lines := Execute(statements[i], showNumber);
      if lines.Err? {
        assert statements[i..][0] == statements[i];
        assert output + [] == output;
        return output, Some(lines.error);
      }
      ghost var rest := Run(statements[i + 1..], showNumber);
      assert statements[i..][0] == statements[i] && statements[i..][1..] == statements[i + 1..];
      assert Run(statements[i..], showNumber) == (lines.value + rest.0, rest.1);
      assert output + (lines.value + rest.0) == (output + lines.value) + rest.0;
      output := output + lines.value;
      i := i + 1;
    }
    assert output + [] == output;
    return output, None;
  }
}
