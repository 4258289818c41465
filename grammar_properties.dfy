/** Properties of the grammar in module Grammar, and so of every parse the class Parser.Parser performs. */
module GrammarProperties {
  import opened Wrappers
  import opened Values
  import opened Tokens
  import opened Ast
  import opened Grammar

  // ---- left associativity of the binary levels ----

  /** One `operator operand` step of a binary level's loop. */
  datatype Link = Link(operator: Token, operand: Expr)

  /** The tree a left-associative loop builds: each link becomes the parent of everything before it. */
  function FoldLeft(left: Expr, links: seq<Link>): Expr
    decreases |links|
  {
    if links == [] then left
    else FoldLeft(Binary(left, links[0].operator, links[0].operand), links[1..])
  }

  /** From `pos` to `end` the tokens are the operators and operands `links` of `level`. */
  ghost predicate Chain(level: Level, tokens: seq<Token>, pos: nat, links: seq<Link>, end: nat)
    requires ValidTokens(tokens) && pos < |tokens|
    decreases |links|
  {
    if links == [] then pos == end
    else
      && MatchesAt(tokens, pos, Operators(level))
      && tokens[pos] == links[0].operator
      && match OperandSpec(level, tokens, pos + 1)
         case Failed(_) => false
         case Parsed(right, afterRight) =>
           right == links[0].operand && Chain(level, tokens, afterRight, links[1..], end)
  }

  /**
    A binary level's loop parses exactly the maximal chains of its operators and
    operands, and builds the left-nested tree of them: `a - b - c` is
    `Binary(Binary(a, -, b), -, c)`.
  */
  lemma {:induction false} LevelTailFoldsLeft(level: Level, tokens: seq<Token>, left: Expr, pos: nat, links: seq<Link>, end: nat)
    requires ValidTokens(tokens) && pos < |tokens| && end < |tokens|
    requires Chain(level, tokens, pos, links, end)
    requires !MatchesAt(tokens, end, Operators(level))
    ensures LevelTailSpec(level, tokens, left, pos) == Parsed(FoldLeft(left, links), end)
    decreases |links|
  {
    if links != [] {
      var afterRight := OperandSpec(level, tokens, pos + 1).next;
      LevelTailFoldsLeft(level, tokens, Binary(left, links[0].operator, links[0].operand), afterRight, links[1..], end);
    }
  }

  /** Conversely, every successful run of a level's loop is such a chain, ending where no operator follows. */
  lemma {:induction false} LevelTailIsChain(level: Level, tokens: seq<Token>, left: Expr, pos: nat)
    requires ValidTokens(tokens) && pos < |tokens|
    requires LevelTailSpec(level, tokens, left, pos).Parsed?
    ensures var r := LevelTailSpec(level, tokens, left, pos);
      && !MatchesAt(tokens, r.next, Operators(level))
      && exists links :: Chain(level, tokens, pos, links, r.next) && r.value == FoldLeft(left, links)
    decreases |tokens| - pos
  {
    var r := LevelTailSpec(level, tokens, left, pos);
    if MatchesAt(tokens, pos, Operators(level)) {
      var operand := OperandSpec(level, tokens, pos + 1);
      var tree := Binary(left, tokens[pos], operand.value);
      LevelTailIsChain(level, tokens, tree, operand.next);
      var rest :| Chain(level, tokens, operand.next, rest, r.next) && r.value == FoldLeft(tree, rest);
      var links := [Link(tokens[pos], operand.value)] + rest;
      assert links[1..] == rest;
      assert Chain(level, tokens, pos, links, r.next);
    } else {
      assert Chain(level, tokens, pos, [], r.next);
    }
  }

  /** The three-operand instance: `a op1 b op2 c` at one level nests to the left. */
  lemma LeftAssociativeTriple(level: Level, tokens: seq<Token>, pos: nat)
    requires ValidTokens(tokens) && pos < |tokens|
    requires !MatchesAt(tokens, pos, LeadingOperators(level))
    requires OperandSpec(level, tokens, pos).Parsed?
    requires var p1 := OperandSpec(level, tokens, pos).next;
      && MatchesAt(tokens, p1, Operators(level)) && OperandSpec(level, tokens, p1 + 1).Parsed?
      && var p2 := OperandSpec(level, tokens, p1 + 1).next;
         && MatchesAt(tokens, p2, Operators(level)) && OperandSpec(level, tokens, p2 + 1).Parsed?
         && !MatchesAt(tokens, OperandSpec(level, tokens, p2 + 1).next, Operators(level))
    ensures
      var a := OperandSpec(level, tokens, pos);
      var b := OperandSpec(level, tokens, a.next + 1);
      var c := OperandSpec(level, tokens, b.next + 1);
      LevelSpec(level, tokens, pos)
        == Parsed(Binary(Binary(a.value, tokens[a.next], b.value), tokens[b.next], c.value), c.next)
  {
    var a := OperandSpec(level, tokens, pos);
    var b := OperandSpec(level, tokens, a.next + 1);
    var c := OperandSpec(level, tokens, b.next + 1);
    var links := [Link(tokens[a.next], b.value), Link(tokens[b.next], c.value)];
    assert links[1..][1..] == [];
    assert Chain(level, tokens, b.next, links[1..], c.next);
    assert Chain(level, tokens, a.next, links, c.next);
    assert LevelSpec(level, tokens, pos) == LevelTailSpec(level, tokens, a.value, a.next);
    assert FoldLeft(a.value, links) == FoldLeft(Binary(a.value, tokens[a.next], b.value), links[1..]);
    var inner := Binary(a.value, tokens[a.next], b.value);
    assert FoldLeft(inner, links[1..]) == FoldLeft(Binary(inner, tokens[b.next], c.value), []);
    LevelTailFoldsLeft(level, tokens, a.value, a.next, links, c.next);
  }

  // ---- right associativity of the comma ----

  /** The tree the comma builds: each operand is the left child of everything after it. */
  function FoldRight(first: Expr, links: seq<Link>): Expr
    decreases |links|
  {
    if links == [] then first
    else Binary(first, links[0].operator, FoldRight(links[0].operand, links[1..]))
  }

  /** From `pos` to `end` the tokens are `, operand` steps, each operand an equality with no error production. */
  ghost predicate CommaChain(tokens: seq<Token>, pos: nat, links: seq<Link>, end: nat)
    requires ValidTokens(tokens) && pos < |tokens|
    decreases |links|
  {
    if links == [] then pos == end
    else
      && MatchesAt(tokens, pos, {Comma})
      && tokens[pos] == links[0].operator
      && !MatchesAt(tokens, pos + 1, {Comma, Question})
      && match LevelSpec(EqualityLevel, tokens, pos + 1)
         case Failed(_) => false
         case Parsed(right, afterRight) =>
           right == links[0].operand && CommaChain(tokens, afterRight, links[1..], end)
  }

  /** The comma is right-associative: `a, b, c` is `Binary(a, ',', Binary(b, ',', c))`. */
  lemma {:induction false} CommaFoldsRight(tokens: seq<Token>, pos: nat, links: seq<Link>, end: nat)
    requires ValidTokens(tokens) && pos < |tokens| && end < |tokens|
    requires !MatchesAt(tokens, pos, {Comma, Question})
    requires LevelSpec(EqualityLevel, tokens, pos).Parsed?
    requires CommaChain(tokens, LevelSpec(EqualityLevel, tokens, pos).next, links, end)
    requires !MatchesAt(tokens, end, {Comma, Question})
    ensures ExpressionSpec(tokens, pos) == Parsed(FoldRight(LevelSpec(EqualityLevel, tokens, pos).value, links), end)
    decreases |links|
  {
    var first := LevelSpec(EqualityLevel, tokens, pos);
    if links != [] {
      CommaFoldsRight(tokens, first.next + 1, links[1..], end);
    }
  }

  // ---- error productions ----

  /** The binary operators, each of which some level reports when it comes first. */
  const BinaryOperators: set<TokenType> :=
    {Comma, Question, BangEqual, EqualEqual, Less, LessEqual, Greater, GreaterEqual, Plus, Slash, Star}

  /** The operand that the level catching a leading `tokens[pos]` parses and then discards. */
  function DiscardedOperand(tokens: seq<Token>, pos: nat): Parsed<Expr>
    requires ValidTokens(tokens) && pos + 1 < |tokens|
  {
    var kind := tokens[pos].kind;
    if kind in {Comma, Question} then LevelSpec(EqualityLevel, tokens, pos + 1)
    else if kind in Operators(EqualityLevel) then LevelSpec(ComparisonLevel, tokens, pos + 1)
    else if kind in Operators(ComparisonLevel) then LevelSpec(TermLevel, tokens, pos + 1)
    else if kind == Plus then LevelSpec(FactorLevel, tokens, pos + 1)
    else UnarySpec(tokens, pos + 1)
  }

  /**
    An expression that starts with a binary operator (other than `-`) fails: with
    "Expect expression before '<lexeme>'." at that operator once the operand after
    it parses, or else with that operand's own error.
  */
  lemma ExpressionLeadingOperator(tokens: seq<Token>, pos: nat)
    requires ValidTokens(tokens) && pos < |tokens| && tokens[pos].kind in BinaryOperators
    ensures pos + 1 < |tokens|
    ensures ExpressionSpec(tokens, pos)
         == match DiscardedOperand(tokens, pos)
            case Failed(e) => Failed(e)
            case Parsed(_, _) => Failed(MissingLeftOperand(tokens[pos]))
  {
    assert MatchesAt(tokens, pos, {tokens[pos].kind});
    if tokens[pos].kind !in {Comma, Question} {
      assert ExpressionSpec(tokens, pos) == (
        match LevelSpec(EqualityLevel, tokens, pos)
        case Failed(e) => Failed(e)
        case Parsed(left, afterLeft) =>
          if MatchesAt(tokens, afterLeft, {Comma}) then
            match ExpressionSpec(tokens, afterLeft + 1)
            case Failed(e) => Failed(e)
            case Parsed(right, afterRight) =>
              TernarySpec(tokens, Binary(left, tokens[afterLeft], right), afterRight)
          else
            TernarySpec(tokens, left, afterLeft));
      LevelLeadingOperator(tokens, pos);
    }
  }

  /** The levels below `expression()` either report the leading operator or pass the failure of a tighter one through. */
  lemma LevelLeadingOperator(tokens: seq<Token>, pos: nat)
    requires ValidTokens(tokens) && pos < |tokens| && tokens[pos].kind in BinaryOperators - {Comma, Question}
    ensures pos + 1 < |tokens|
    ensures LevelSpec(EqualityLevel, tokens, pos)
         == match DiscardedOperand(tokens, pos)
            case Failed(e) => Failed(e)
            case Parsed(_, _) => Failed(MissingLeftOperand(tokens[pos]))
  {
    var kind := tokens[pos].kind;
    assert MatchesAt(tokens, pos, {kind});
    if kind in Operators(EqualityLevel) {
      assert MatchesAt(tokens, pos, LeadingOperators(EqualityLevel));
    } else {
      if kind in Operators(ComparisonLevel) {
        assert MatchesAt(tokens, pos, LeadingOperators(ComparisonLevel));
        assert DiscardedOperand(tokens, pos) == OperandSpec(ComparisonLevel, tokens, pos + 1);
      } else {
        if kind == Plus {
          assert MatchesAt(tokens, pos, LeadingOperators(TermLevel));
          assert DiscardedOperand(tokens, pos) == OperandSpec(TermLevel, tokens, pos + 1);
        } else {
          assert MatchesAt(tokens, pos, LeadingOperators(FactorLevel));
          assert DiscardedOperand(tokens, pos) == OperandSpec(FactorLevel, tokens, pos + 1);
          FailurePassesUp(TermLevel, tokens, pos);
        }
        FailurePassesUp(ComparisonLevel, tokens, pos);
      }
      FailurePassesUp(EqualityLevel, tokens, pos);
    }
  }

  /** A level whose first operand fails, and which does not start with one of its own operators, fails the same way. */
  lemma FailurePassesUp(level: Level, tokens: seq<Token>, pos: nat)
    requires ValidTokens(tokens) && pos < |tokens|
    requires !MatchesAt(tokens, pos, LeadingOperators(level)) && OperandSpec(level, tokens, pos).Failed?
    ensures LevelSpec(level, tokens, pos) == OperandSpec(level, tokens, pos)
  {
  }

  /** A leading `-` at the term level is a negation, not a missing left operand. */
  lemma TermLeadingMinusIsNegation(tokens: seq<Token>, pos: nat)
    requires ValidTokens(tokens) && pos < |tokens| && tokens[pos].kind == Minus
    requires pos + 1 < |tokens| && UnarySpec(tokens, pos + 1).Parsed?
    requires !MatchesAt(tokens, UnarySpec(tokens, pos + 1).next, Operators(FactorLevel))
    requires !MatchesAt(tokens, UnarySpec(tokens, pos + 1).next, Operators(TermLevel))
    ensures LevelSpec(TermLevel, tokens, pos)
         == Parsed(Unary(tokens[pos], UnarySpec(tokens, pos + 1).value), UnarySpec(tokens, pos + 1).next)
  {
    var operand := UnarySpec(tokens, pos + 1);
    var negation := Unary(tokens[pos], operand.value);
    assert MatchesAt(tokens, pos, {Minus});
    assert UnarySpec(tokens, pos) == Parsed(negation, operand.next);
    assert !MatchesAt(tokens, pos, LeadingOperators(FactorLevel));
    assert LevelTailSpec(FactorLevel, tokens, negation, operand.next) == Parsed(negation, operand.next);
    assert LevelSpec(FactorLevel, tokens, pos) == Parsed(negation, operand.next);
    assert !MatchesAt(tokens, pos, LeadingOperators(TermLevel));
    assert LevelTailSpec(TermLevel, tokens, negation, operand.next) == Parsed(negation, operand.next);
  }

  /** The tokens that can start an expression or a misplaced binary operator. */
  const ExpressionStarters: set<TokenType> :=
    BinaryOperators + {Bang, Minus, False, True, NilKeyword, NumberLiteral, StringLiteral, LeftParen}

  /** Starting at an operand token, `expression()` fails exactly as `primary()` does there. */
  lemma PrimaryFailurePropagates(tokens: seq<Token>, pos: nat)
    requires ValidTokens(tokens) && pos < |tokens|
    requires tokens[pos].kind !in BinaryOperators + {Bang, Minus}
    requires PrimarySpec(tokens, pos).Failed?
    ensures ExpressionSpec(tokens, pos) == PrimarySpec(tokens, pos)
  {
    assert UnarySpec(tokens, pos) == PrimarySpec(tokens, pos);
    assert LevelSpec(FactorLevel, tokens, pos) == PrimarySpec(tokens, pos);
    assert LevelSpec(TermLevel, tokens, pos) == PrimarySpec(tokens, pos);
    assert LevelSpec(ComparisonLevel, tokens, pos) == PrimarySpec(tokens, pos);
    assert LevelSpec(EqualityLevel, tokens, pos) == PrimarySpec(tokens, pos);
  }

  /** A token that cannot start an expression, EOF included, fails with "Expect expression." at that token. */
  lemma ExpectExpression(tokens: seq<Token>, pos: nat)
    requires ValidTokens(tokens) && pos < |tokens| && tokens[pos].kind !in ExpressionStarters
    ensures ExpressionSpec(tokens, pos) == Failed(ParseError(tokens[pos], "Expect expression."))
  {
    PrimaryFailurePropagates(tokens, pos);
  }

  /** `(` followed by an expression and no `)` fails with "Expect ')' after expression." where the `)` should be. */
  lemma UnclosedParenthesis(tokens: seq<Token>, pos: nat)
    requires ValidTokens(tokens) && pos + 1 < |tokens| && tokens[pos].kind == LeftParen
    requires ExpressionSpec(tokens, pos + 1).Parsed?
    requires tokens[ExpressionSpec(tokens, pos + 1).next].kind != RightParen
    ensures ExpressionSpec(tokens, pos)
         == Failed(ParseError(tokens[ExpressionSpec(tokens, pos + 1).next], "Expect ')' after expression."))
  {
    assert MatchesAt(tokens, pos, {LeftParen});
    PrimaryFailurePropagates(tokens, pos);
  }

  // ---- the ternary ----

  /** When an equality is followed by neither `,` nor an error production, the rest of `expression()` is the ternary suffix. */
  lemma ExpressionIsTernarySuffix(tokens: seq<Token>, pos: nat)
    requires ValidTokens(tokens) && pos < |tokens|
    requires !MatchesAt(tokens, pos, {Comma, Question})
    requires LevelSpec(EqualityLevel, tokens, pos).Parsed?
    requires !MatchesAt(tokens, LevelSpec(EqualityLevel, tokens, pos).next, {Comma})
    ensures ExpressionSpec(tokens, pos)
         == TernarySpec(tokens, LevelSpec(EqualityLevel, tokens, pos).value, LevelSpec(EqualityLevel, tokens, pos).next)
  {
  }

  /**
    `c ? t : e` parses to `Ternary(?, c, t, e)`; since the else-branch is a full
    expression, `a ? b : c ? d : e` nests to the right.
  */
  lemma TernaryParses(tokens: seq<Token>, pos: nat)
    requires ValidTokens(tokens) && pos < |tokens|
    requires !MatchesAt(tokens, pos, {Comma, Question})
    requires LevelSpec(EqualityLevel, tokens, pos).Parsed?
    requires var q := LevelSpec(EqualityLevel, tokens, pos).next;
      && MatchesAt(tokens, q, {Question}) && !MatchesAt(tokens, q + 1, {Colon})
      && ExpressionSpec(tokens, q + 1).Parsed?
      && MatchesAt(tokens, ExpressionSpec(tokens, q + 1).next, {Colon})
      && ExpressionSpec(tokens, ExpressionSpec(tokens, q + 1).next + 1).Parsed?
    ensures
      var condition := LevelSpec(EqualityLevel, tokens, pos);
      var thenBranch := ExpressionSpec(tokens, condition.next + 1);
      var elseBranch := ExpressionSpec(tokens, thenBranch.next + 1);
      ExpressionSpec(tokens, pos)
        == Parsed(Ternary(tokens[condition.next], condition.value, thenBranch.value, elseBranch.value), elseBranch.next)
  {
    ExpressionIsTernarySuffix(tokens, pos);
  }

  /** `c ? : ...` fails at the `:`, once the expression after it parses. */
  lemma TernaryMissingThenBranch(tokens: seq<Token>, pos: nat)
    requires ValidTokens(tokens) && pos < |tokens|
    requires !MatchesAt(tokens, pos, {Comma, Question})
    requires LevelSpec(EqualityLevel, tokens, pos).Parsed?
    requires var q := LevelSpec(EqualityLevel, tokens, pos).next;
      MatchesAt(tokens, q, {Question}) && MatchesAt(tokens, q + 1, {Colon}) && ExpressionSpec(tokens, q + 2).Parsed?
    ensures ExpressionSpec(tokens, pos)
         == Failed(ParseError(tokens[LevelSpec(EqualityLevel, tokens, pos).next + 1], "Expect expression before ','."))
  {
    ExpressionIsTernarySuffix(tokens, pos);
  }

  /** `c ? t` with no `:` after the then-branch fails with "Expect ':' after expression." where the `:` should be. */
  lemma TernaryMissingColon(tokens: seq<Token>, pos: nat)
    requires ValidTokens(tokens) && pos < |tokens|
    requires !MatchesAt(tokens, pos, {Comma, Question})
    requires LevelSpec(EqualityLevel, tokens, pos).Parsed?
    requires var q := LevelSpec(EqualityLevel, tokens, pos).next;
      && MatchesAt(tokens, q, {Question}) && !MatchesAt(tokens, q + 1, {Colon})
      && ExpressionSpec(tokens, q + 1).Parsed?
      && tokens[ExpressionSpec(tokens, q + 1).next].kind != Colon
    ensures
      var thenBranch := ExpressionSpec(tokens, LevelSpec(EqualityLevel, tokens, pos).next + 1);
      ExpressionSpec(tokens, pos) == Failed(ParseError(tokens[thenBranch.next], "Expect ':' after expression."))
  {
    ExpressionIsTernarySuffix(tokens, pos);
  }

  // ---- programs ----

  /** From `pos` to `end` the tokens are the statements `statements`, parsed one after the other. */
  ghost predicate Statements(tokens: seq<Token>, pos: nat, statements: seq<Stmt>, end: nat)
    requires ValidTokens(tokens) && pos < |tokens|
    decreases |statements|
  {
    if statements == [] then pos == end
    else
      && !IsEofAt(tokens, pos)
      && match StatementSpec(tokens, pos)
         case Failed(_) => false
         case Parsed(s, next) => s == statements[0] && Statements(tokens, next, statements[1..], end)
  }

  /** A statement never parses at EOF: it fails with "Expect expression.". */
  lemma NoStatementAtEof(tokens: seq<Token>, pos: nat)
    requires ValidTokens(tokens) && pos < |tokens| && IsEofAt(tokens, pos)
    ensures StatementSpec(tokens, pos) == Failed(ParseError(tokens[pos], "Expect expression."))
  {
    ExpectExpression(tokens, pos);
  }

  /**
    `parse()` succeeds with `statements` exactly when the tokens up to EOF are
    those statements one after another: one tree per statement, in order.
  */
  lemma {:induction false} ProgramParsesStatements(tokens: seq<Token>, pos: nat, statements: seq<Stmt>)
    requires ValidTokens(tokens) && pos < |tokens|
    ensures ProgramSpec(tokens, pos) == Ok(statements)
        <==> exists end: nat :: end < |tokens| && Statements(tokens, pos, statements, end) && IsEofAt(tokens, end)
    decreases |tokens| - pos
  {
    if IsEofAt(tokens, pos) {
      if statements != [] {
        assert !Statements(tokens, pos, statements, pos);
        forall end: nat | end < |tokens| && Statements(tokens, pos, statements, end)
          ensures false
        {
        }
      } else {
        assert Statements(tokens, pos, statements, pos);
      }
    } else {
      match StatementSpec(tokens, pos)
      case Failed(e) =>
        forall end: nat | end < |tokens| && Statements(tokens, pos, statements, end) && IsEofAt(tokens, end)
          ensures false
        {
        }
      case Parsed(s, next) =>
        if statements == [] {
          forall end: nat | end < |tokens| && Statements(tokens, pos, statements, end) && IsEofAt(tokens, end)
            ensures false
          {
          }
        } else {
          ProgramParsesStatements(tokens, next, statements[1..]);
          if ProgramSpec(tokens, pos) == Ok(statements) {
            assert ProgramSpec(tokens, next) == Ok(statements[1..]);
            var end: nat :| end < |tokens| && Statements(tokens, next, statements[1..], end) && IsEofAt(tokens, end);
            assert Statements(tokens, pos, statements, end);
          }
          if exists end: nat :: end < |tokens| && Statements(tokens, pos, statements, end) && IsEofAt(tokens, end) {
            var end: nat :| end < |tokens| && Statements(tokens, pos, statements, end) && IsEofAt(tokens, end);
            assert Statements(tokens, next, statements[1..], end);
            assert [statements[0]] + statements[1..] == statements;
          }
        }
    }
  }

  /** The statements `before` parse from `pos` up to `mid`, where the next statement fails with `e`. */
  ghost predicate FailsAfter(tokens: seq<Token>, pos: nat, before: seq<Stmt>, mid: nat, e: ParseError)
    requires ValidTokens(tokens) && pos < |tokens|
  {
    && mid < |tokens|
    && Statements(tokens, pos, before, mid)
    && !IsEofAt(tokens, mid)
    && StatementSpec(tokens, mid) == Failed(e)
  }

  /**
    `parse()` fails with `e` exactly when some statement fails with `e` after
    the statements before it parsed: the first error, never a partial list.
  */
  lemma ProgramFailsAtFirstError(tokens: seq<Token>, pos: nat, e: ParseError)
    requires ValidTokens(tokens) && pos < |tokens|
    ensures ProgramSpec(tokens, pos) == Err(e) <==> exists before, mid :: FailsAfter(tokens, pos, before, mid, e)
  {
    if ProgramSpec(tokens, pos) == Err(e) {
      ErrorHasFirstCause(tokens, pos, e);
    }
    forall before, mid | FailsAfter(tokens, pos, before, mid, e)
      ensures ProgramSpec(tokens, pos) == Err(e)
    {
      FirstCauseFails(tokens, pos, before, mid, e);
    }
  }

  /** A statement error after parsed statements is the error of the whole program. */
  lemma {:induction false} FirstCauseFails(tokens: seq<Token>, pos: nat, before: seq<Stmt>, mid: nat, e: ParseError)
    requires ValidTokens(tokens) && pos < |tokens|
    requires FailsAfter(tokens, pos, before, mid, e)
    ensures ProgramSpec(tokens, pos) == Err(e)
    decreases |before|
  {
    if before != [] {
      var next := StatementSpec(tokens, pos).next;
      FirstCauseFails(tokens, next, before[1..], mid, e);
    }
  }

  /** A failing program has a statement that fails after the statements before it parsed. */
  lemma {:induction false} ErrorHasFirstCause(tokens: seq<Token>, pos: nat, e: ParseError)
    requires ValidTokens(tokens) && pos < |tokens|
    requires ProgramSpec(tokens, pos) == Err(e)
    ensures exists before, mid :: FailsAfter(tokens, pos, before, mid, e)
    decreases |tokens| - pos
  {
    match StatementSpec(tokens, pos)
    case Failed(_) =>
      assert FailsAfter(tokens, pos, [], pos, e);
    case Parsed(s, next) =>
      ErrorHasFirstCause(tokens, next, e);
      var before, mid :| FailsAfter(tokens, next, before, mid, e);
      assert ([s] + before)[1..] == before;
      assert FailsAfter(tokens, pos, [s] + before, mid, e);
  }

  /** The number of `;` tokens in `tokens`. */
  function CountSemicolons(tokens: seq<Token>): nat {
    if tokens == [] then 0
    else (if tokens[0].kind == Semicolon then 1 else 0) + CountSemicolons(tokens[1..])
  }

  /** Counting over a split point. */
  lemma {:induction false} CountSemicolonsSplit(tokens: seq<Token>, k: nat)
    requires k <= |tokens|
    ensures CountSemicolons(tokens) == CountSemicolons(tokens[..k]) + CountSemicolons(tokens[k..])
    decreases k
  {
    if k > 0 {
      CountSemicolonsSplit(tokens[1..], k - 1);
      assert tokens[1..][..k - 1] == tokens[..k][1..];
      assert tokens[1..][k - 1..] == tokens[k..];
    } else {
      assert tokens[k..] == tokens;
    }
  }

  /** Since every statement ends with its own `;`, a program has at most as many statements as semicolons. */
  lemma {:induction false} StatementsBoundedBySemicolons(tokens: seq<Token>, pos: nat)
    requires ValidTokens(tokens) && pos < |tokens|
    requires ProgramSpec(tokens, pos).Ok?
    ensures |ProgramSpec(tokens, pos).value| <= CountSemicolons(tokens[pos..])
    decreases |tokens| - pos
  {
    if !IsEofAt(tokens, pos) {
      var next := StatementSpec(tokens, pos).next;
      StatementsBoundedBySemicolons(tokens, next);
      CountSemicolonsSplit(tokens[pos..], next - 1 - pos);
      assert tokens[pos..][next - 1 - pos..] == tokens[next - 1..];
      assert tokens[next - 1..][1..] == tokens[next..];
    }
  }

  // ---- a concrete program ----

  /** The tokens of `+ 1 ;`. */
  const LeadingPlus: seq<Token> := [
    Token(Plus, "+", Nil, 1),
    Token(NumberLiteral, "1", Number(1.0), 1),
    Token(Semicolon, ";", Nil, 1),
    Token(Eof, "", Nil, 1)]

  /** `+ 1 ;` is rejected with "Expect expression before '+'." at the `+`, after `1` was parsed and discarded. */
  lemma LeadingPlusRejected()
    ensures ValidTokens(LeadingPlus)
    ensures ProgramSpec(LeadingPlus, 0) == Err(ParseError(LeadingPlus[0], "Expect expression before '+'."))
  {
    LeadingPlusExpression();
    var tokens := LeadingPlus;
    assert !MatchesAt(tokens, 0, {Print});
    assert StatementSpec(tokens, 0) == Failed(MissingLeftOperand(tokens[0]));
  }

  /** The expression of `+ 1 ;` fails at the `+`. */
  lemma LeadingPlusExpression()
    ensures ValidTokens(LeadingPlus)
    ensures ExpressionSpec(LeadingPlus, 0) == Failed(ParseError(LeadingPlus[0], "Expect expression before '+'."))
  {
    LeadingPlusOperand();
    DiscardedFactor(LeadingPlus, 0);
    LeadingPlusMessage();
  }

  /** An expression starting with `+` before a factor fails at the `+`. */
  lemma DiscardedFactor(tokens: seq<Token>, pos: nat)
    requires ValidTokens(tokens) && pos + 1 < |tokens| && tokens[pos].kind == Plus
    requires LevelSpec(FactorLevel, tokens, pos + 1).Parsed?
    ensures ExpressionSpec(tokens, pos) == Failed(MissingLeftOperand(tokens[pos]))
  {
    ExpressionLeadingOperator(tokens, pos);
  }

  /** The message reported for the leading `+`. */
  lemma LeadingPlusMessage()
    ensures MissingLeftOperand(LeadingPlus[0]) == ParseError(LeadingPlus[0], "Expect expression before '+'.")
  {
    assert LeadingPlus[0].lexeme == "+";
  }

  /** In `+ 1 ;` the factor after the `+` parses as the literal 1. */
  lemma LeadingPlusOperand()
    ensures ValidTokens(LeadingPlus)
    ensures LevelSpec(FactorLevel, LeadingPlus, 1) == Parsed(Literal(Number(1.0)), 2)
  {
    var tokens := LeadingPlus;
    assert MatchesAt(tokens, 1, {NumberLiteral, StringLiteral});
    assert PrimarySpec(tokens, 1) == Parsed(Literal(Number(1.0)), 2);
    assert UnarySpec(tokens, 1) == Parsed(Literal(Number(1.0)), 2);
    assert !MatchesAt(tokens, 2, Operators(FactorLevel));
    assert LevelTailSpec(FactorLevel, tokens, Literal(Number(1.0)), 2) == Parsed(Literal(Number(1.0)), 2);
  }
}
