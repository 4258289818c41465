/**
  The recursive-descent parser of src/main/java/lox/Parser.java as a class over
  an immutable token list and a mutable cursor `current`. Methods return a
  Result instead of throwing ParseError; each is proved to agree with the
  corresponding function of module Grammar, evaluated at the cursor on entry.
*/
module Parser {
  import opened Wrappers
  import opened Values
  import opened Tokens
  import opened Ast
  import opened Grammar

  /** A method's result and final cursor agree with a grammar outcome. On failure the cursor is not specified. */
  ghost predicate Agrees<T>(r: Result<T, ParseError>, current: nat, spec: Parsed<T>) {
    match r
    case Ok(v) => spec == Parsed(v, current)
    case Err(e) => spec == Failed(e)
  }

  /** Statements collected so far, in front of what the rest of the input parses to. */
  function Prepend(done: seq<Stmt>, rest: Result<seq<Stmt>, ParseError>): Result<seq<Stmt>, ParseError> {
    match rest
    case Ok(more) => Ok(done + more)
    case Err(e) => Err(e)
  }

  lemma PrependAssociative(first: seq<Stmt>, second: seq<Stmt>, rest: Result<seq<Stmt>, ParseError>)
    ensures Prepend([], rest) == rest
    ensures Prepend(first, Prepend(second, rest)) == Prepend(first + second, rest)
  {
    if rest.Ok? {
      assert [] + rest.value == rest.value;
      assert first + (second + rest.value) == (first + second) + rest.value;
    }
  }

  /** Keywords at which `synchronize()` stops, because they start a statement. */
  const StatementKeywords: set<TokenType> := {Class, Fun, Var, For, If, While, Print, Return}

  class Parser {
    const tokens: seq<Token>
    var current: nat

    /** The cursor always points at a token, and the list ends with EOF. */
    ghost predicate Valid()
      reads this
    {
      ValidTokens(tokens) && current < |tokens|
    }

    constructor (tokens: seq<Token>)
      requires ValidTokens(tokens)
      ensures Valid() && this.tokens == tokens && current == 0
    {
      this.tokens := tokens;
      current := 0;
    }

    // ---- cursor helpers ----

    /** `isAtEnd()`; when not at the end, there is a next token to move to. */
    predicate IsAtEnd()
      reads this
      requires Valid()
      ensures !IsAtEnd() ==> current + 1 < |tokens|
    {
      Peek().kind == Eof
    }

    /** `peek()`: always in range; at the last position it is the final EOF. */
    function Peek(): (t: Token)
      reads this
      requires Valid()
      ensures t == tokens[current]
      ensures current == |tokens| - 1 ==> t.kind == Eof
    {
      tokens[current]
    }

    /** `previous()`: the token just before the cursor. */
    function Previous(): (t: Token)
      reads this
      requires Valid() && current > 0
      ensures t == tokens[current - 1]
    {
      tokens[current - 1]
    }

    /** `check(kind)`: never true at EOF, so advancing after it stays in bounds. */
    predicate Check(kind: TokenType)
      reads this
      requires Valid()
      ensures Check(kind) ==> current + 1 < |tokens| && tokens[current].kind == kind
    {
      if IsAtEnd() then false else Peek().kind == kind
    }

    /** `advance()`: moves one token forward unless at EOF, and returns the token before the cursor. */
    method Advance() returns (t: Token)
      requires Valid() && (!IsAtEnd() || current > 0)
      modifies this
      ensures Valid()
      ensures current == if old(IsAtEnd()) then old(current) else old(current) + 1
      ensures t == tokens[current - 1]
    {
      if !IsAtEnd() {
        current := current + 1;
      }
      t := Previous();
    }

    /** `match(types)`: advances by exactly one exactly when the current token is not EOF and its type is in `types`. */
    method Match(types: set<TokenType>) returns (matched: bool)
      requires Valid()
      modifies this
      ensures Valid()
      ensures matched == MatchesAt(tokens, old(current), types)
      // The same fact unfolded, in the terms the parsing methods' loops reason with.
      ensures matched == (!old(IsAtEnd()) && old(Peek()).kind in types)
      ensures current == if matched then old(current) + 1 else old(current)
    {
      matched := exists t | t in types :: Check(t);
      if matched {
        var _ := Advance();
      }
    }

    /** `consume(kind, message)`: the current token and one step, or the error at `peek()` without moving. */
    method Consume(kind: TokenType, message: string) returns (r: Result<Token, ParseError>)
      requires Valid()
      modifies this
      ensures Valid()
      ensures r.Ok? <==> old(Check(kind))
      ensures r.Ok? ==> r.value == old(Peek()) && current == old(current) + 1
      ensures r.Err? ==> r.error == ParseError(old(Peek()), message) && current == old(current)
      ensures Agrees(r, current, ConsumeSpec(tokens, old(current), kind, message))
    {
      if Check(kind) {
        var t := Advance();
        return Ok(t);
      }
      return Err(ParseError(Peek(), message));
    }

    /**
      `synchronize()`: skips tokens up to a statement boundary. The source never
      calls it; it is kept for completeness.
    */
    method Synchronize()
      requires Valid() && (!IsAtEnd() || current > 0)
      modifies this
      ensures Valid() && old(current) <= current
      ensures !old(IsAtEnd()) ==> old(current) < current
      ensures IsAtEnd() || tokens[current - 1].kind == Semicolon || Peek().kind in StatementKeywords
      ensures forall i :: old(current) <= i < current - 1 ==> tokens[i].kind != Semicolon
      ensures forall i :: old(current) < i < current ==> tokens[i].kind !in StatementKeywords
      ensures forall i :: old(current) < i < current ==> tokens[i].kind != Eof
    {
      var _ := Advance();
      while !IsAtEnd()
        invariant Valid() && old(current) <= current && current > 0
        invariant !old(IsAtEnd()) ==> old(current) < current
        invariant forall i :: old(current) <= i < current - 1 ==> tokens[i].kind != Semicolon
        invariant forall i :: old(current) < i < current ==> tokens[i].kind !in StatementKeywords
        invariant forall i :: old(current) < i < current ==> tokens[i].kind != Eof
        decreases |tokens| - current
      {
        if Previous().kind == Semicolon {
          return;
        }
        if Peek().kind in StatementKeywords {
          return;
        }
        var _ := Advance();
      }
    }

    // ---- statements ----

    /** `parse()`: one statement per iteration until EOF; the first error aborts the whole parse. */
    method Parse() returns (r: Result<seq<Stmt>, ParseError>)
      requires Valid()
      modifies this
      ensures Valid()
      ensures r == ProgramSpec(tokens, old(current))
      ensures r.Ok? ==> IsAtEnd()
    {
      var statements: seq<Stmt> := [];
      PrependAssociative([], [], ProgramSpec(tokens, current));
      while !IsAtEnd()
        invariant Valid()
        invariant ProgramSpec(tokens, old(current)) == Prepend(statements, ProgramSpec(tokens, current))
        decreases |tokens| - current
      {
        ghost var before := current;
        var statement := Statement();
        if statement.Err? {
          return Err(statement.error);
        }
        assert ProgramSpec(tokens, before) == Prepend([statement.value], ProgramSpec(tokens, current));
        PrependAssociative(statements, [statement.value], ProgramSpec(tokens, current));
        statements := statements + [statement.value];
      }
      assert statements + [] == statements;
      return Ok(statements);
    }

    method Statement() returns (r: Result<Stmt, ParseError>)
      requires Valid()
      modifies this
      ensures Valid()
      ensures Agrees(r, current, StatementSpec(tokens, old(current)))
    {
      var isPrint := Match({Print});
      if isPrint {
        r := PrintStatement();
      } else {
        r := ExpressionStatement();
      }
    }

    method PrintStatement() returns (r: Result<Stmt, ParseError>)
      requires Valid()
      modifies this
      ensures Valid()
      ensures Agrees(r, current, PrintStatementSpec(tokens, old(current)))
    {
      var value := Expression();
      if value.Err? {
        return Err(value.error);
      }
      var semicolon := Consume(Semicolon, "Expect ';' after value.");
      if semicolon.Err? {
        return Err(semicolon.error);
      }
      return Ok(PrintStmt(value.value));
    }

    method ExpressionStatement() returns (r: Result<Stmt, ParseError>)
      requires Valid()
      modifies this
      ensures Valid()
      ensures Agrees(r, current, ExpressionStatementSpec(tokens, old(current)))
    {
      var expr := Expression();
      if expr.Err? {
        return Err(expr.error);
      }
      var semicolon := Consume(Semicolon, "Expect ';' after expression.");
      if semicolon.Err? {
        return Err(semicolon.error);
      }
      return Ok(ExpressionStmt(expr.value));
    }

    // ---- expressions ----

    method Expression() returns (r: Result<Expr, ParseError>)
      requires Valid()
      modifies this
      ensures Valid()
      ensures Agrees(r, current, ExpressionSpec(tokens, old(current)))
      decreases |tokens| - current, 11
    {
      ghost var start := current;
      var leading := Match({Comma, Question});
      if leading {
        var operator := Previous();
        var discarded := Equality();
        if discarded.Err? {
          return discarded;
        }
        return Err(MissingLeftOperand(operator));
      }
      var left := Equality();
      if left.Err? {
        return left;
      }
      var expr := left.value;

      var comma := Match({Comma});
      if comma {
        var operator := Previous();
        var right := Expression();
        if right.Err? {
          return right;
        }
        expr := Binary(expr, operator, right.value);
      }
      assert ExpressionSpec(tokens, start) == TernarySpec(tokens, expr, current);
      r := TernarySuffix(expr);
    }

    /**
      The optional `? then : else` at the end of `expression()`, with its
      condition already parsed; the source has this inline in `expression()`.
    */
    method TernarySuffix(condition: Expr) returns (r: Result<Expr, ParseError>)
      requires Valid()
      modifies this
      ensures Valid()
      ensures Agrees(r, current, TernarySpec(tokens, condition, old(current)))
      decreases |tokens| - current, 10
    {
      var question := Match({Question});
      if !question {
        return Ok(condition);
      }
      var colon := Match({Colon});
      if colon {
        var operator := Previous();
        var discarded := Expression();
        if discarded.Err? {
          return discarded;
        }
        return Err(ParseError(operator, "Expect expression before ','."));
      }
      // Lines 48-53 of the source do not compile (`right` is declared twice and
      // `left` is undefined). Reconstructed as evidently intended: the `?` token
      // is the operator, the first expression the then-branch, the second the
      // else-branch, in the field order Ternary(operator, condition, left, right).
      var operator := Previous();
      var thenBranch := Expression();
      if thenBranch.Err? {
        return thenBranch;
      }
      var hasColon := Match({Colon});
      if !hasColon {
        return Err(ParseError(Peek(), "Expect ':' after expression."));
      }
      var elseBranch := Expression();
      if elseBranch.Err? {
        return elseBranch;
      }
      return Ok(Ternary(operator, condition, thenBranch.value, elseBranch.value));
    }

    method Equality() returns (r: Result<Expr, ParseError>)
      requires Valid()
      modifies this
      ensures Valid()
      ensures Agrees(r, current, LevelSpec(EqualityLevel, tokens, old(current)))
      decreases |tokens| - current, 9
    {
      ghost var start := current;
      ghost var spec := LevelSpec(EqualityLevel, tokens, start);
      var leading := Match({BangEqual, EqualEqual});
      if leading {
        var operator := Previous();
        var discarded := Comparison();
        if discarded.Err? {
          return discarded;
        }
        return Err(MissingLeftOperand(operator));
      }
      var left := Comparison();
      if left.Err? {
        return left;
      }
      var expr := left.value;
      assert LevelSpec(EqualityLevel, tokens, start) == LevelTailSpec(EqualityLevel, tokens, expr, current);
      while true
        invariant Valid() && start < current
        invariant spec == LevelTailSpec(EqualityLevel, tokens, expr, current)
        decreases |tokens| - current
      {
        var more := Match({BangEqual, EqualEqual});
        if !more {
          return Ok(expr);
        }
        var operator := Previous();
        var right := Comparison();
        if right.Err? {
          return right;
        }
        expr := Binary(expr, operator, right.value);
      }
    }

    method Comparison() returns (r: Result<Expr, ParseError>)
      requires Valid()
      modifies this
      ensures Valid()
      ensures Agrees(r, current, LevelSpec(ComparisonLevel, tokens, old(current)))
      decreases |tokens| - current, 7
    {
      ghost var start := current;
      ghost var spec := LevelSpec(ComparisonLevel, tokens, start);
      var leading := Match({Less, LessEqual, Greater, GreaterEqual});
      if leading {
        var operator := Previous();
        var discarded := Term();
        if discarded.Err? {
          return discarded;
        }
        return Err(MissingLeftOperand(operator));
      }
      var left := Term();
      if left.Err? {
        return left;
      }
      var expr := left.value;
      assert LevelSpec(ComparisonLevel, tokens, start) == LevelTailSpec(ComparisonLevel, tokens, expr, current);
      while true
        invariant Valid() && start < current
        invariant spec == LevelTailSpec(ComparisonLevel, tokens, expr, current)
        decreases |tokens| - current
      {
        var more := Match({Less, LessEqual, Greater, GreaterEqual});
        if !more {
          return Ok(expr);
        }
        var operator := Previous();
        var right := Term();
        if right.Err? {
          return right;
        }
        expr := Binary(expr, operator, right.value);
      }
    }

    /** Only a leading `+` is an error here: a leading `-` is parsed further down as a negation. */
    method Term() returns (r: Result<Expr, ParseError>)
      requires Valid()
      modifies this
      ensures Valid()
      ensures Agrees(r, current, LevelSpec(TermLevel, tokens, old(current)))
      decreases |tokens| - current, 5
    {
      ghost var start := current;
      ghost var spec := LevelSpec(TermLevel, tokens, start);
      var leading := Match({Plus});
      if leading {
        var operator := Previous();
        var discarded := Factor();
        if discarded.Err? {
          return discarded;
        }
        return Err(MissingLeftOperand(operator));
      }
      var left := Factor();
      if left.Err? {
        return left;
      }
      var expr := left.value;
      assert LevelSpec(TermLevel, tokens, start) == LevelTailSpec(TermLevel, tokens, expr, current);
      while true
        invariant Valid() && start < current
        invariant spec == LevelTailSpec(TermLevel, tokens, expr, current)
        decreases |tokens| - current
      {
        var more := Match({Minus, Plus});
        if !more {
          return Ok(expr);
        }
        var operator := Previous();
        var right := Factor();
        if right.Err? {
          return right;
        }
        expr := Binary(expr, operator, right.value);
      }
    }

    method Factor() returns (r: Result<Expr, ParseError>)
      requires Valid()
      modifies this
      ensures Valid()
      ensures Agrees(r, current, LevelSpec(FactorLevel, tokens, old(current)))
      decreases |tokens| - current, 3
    {
      ghost var start := current;
      ghost var spec := LevelSpec(FactorLevel, tokens, start);
      var leading := Match({Slash, Star});
      if leading {
        var operator := Previous();
        var discarded := Unary();
        if discarded.Err? {
          return discarded;
        }
        return Err(MissingLeftOperand(operator));
      }
      var left := Unary();
      if left.Err? {
        return left;
      }
      var expr := left.value;
      assert LevelSpec(FactorLevel, tokens, start) == LevelTailSpec(FactorLevel, tokens, expr, current);
      while true
        invariant Valid() && start < current
        invariant spec == LevelTailSpec(FactorLevel, tokens, expr, current)
        decreases |tokens| - current
      {
        var more := Match({Slash, Star});
        if !more {
          return Ok(expr);
        }
        var operator := Previous();
        var right := Unary();
        if right.Err? {
          return right;
        }
        expr := Binary(expr, operator, right.value);
      }
    }

    method Unary() returns (r: Result<Expr, ParseError>)
      requires Valid()
      modifies this
      ensures Valid()
      ensures Agrees(r, current, UnarySpec(tokens, old(current)))
      decreases |tokens| - current, 1
    {
      var isUnary := Match({Bang, Minus});
      if isUnary {
        var operator := Previous();
        var right := Unary();
        if right.Err? {
          return right;
        }
        return Ok(Expr.Unary(operator, right.value));
      }
      r := Primary();
    }

    method Primary() returns (r: Result<Expr, ParseError>)
      requires Valid()
      modifies this
      ensures Valid()
      ensures Agrees(r, current, PrimarySpec(tokens, old(current)))
      decreases |tokens| - current, 0
    {
      var matched := Match({False});
      if matched {
        return Ok(Literal(Bool(false)));
      }
      matched := Match({True});
      if matched {
        return Ok(Literal(Bool(true)));
      }
      matched := Match({NilKeyword});
      if matched {
        return Ok(Literal(Nil));
      }
      matched := Match({NumberLiteral, StringLiteral});
      if matched {
        return Ok(Literal(Previous().literal));
      }
      matched := Match({LeftParen});
      if matched {
        var inner := Expression();
        if inner.Err? {
          return inner;
        }
        var closing := Consume(RightParen, "Expect ')' after expression.");
        if closing.Err? {
          return Err(closing.error);
        }
        return Ok(Grouping(inner.value));
      }
      return Err(ParseError(Peek(), "Expect expression."));
    }
  }
}
