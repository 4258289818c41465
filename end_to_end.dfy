/** Parsing followed by evaluation: token lists run through module Grammar and then module Interpreter. */
module EndToEnd {
  import opened Wrappers
  import opened Values
  import opened Tokens
  import opened Ast
  import opened Grammar
  import opened GrammarProperties
  import opened Interpreter
  import opened InterpreterProperties

  /** A number token on line 1. */
  function NumberToken(lexeme: string, n: real): Token {
    Token(NumberLiteral, lexeme, Number(n), 1)
  }

  /** The tokens of `print 1 + 2 * 3 ;`. */
  const PrintArithmetic: seq<Token> := [
    Op(Print, "print"),
    NumberToken("1", 1.0),
    Op(Plus, "+"),
    NumberToken("2", 2.0),
    Op(Star, "*"),
    NumberToken("3", 3.0),
    Op(Semicolon, ";"),
    Op(Eof, "")]

  /** The tree `1 + (2 * 3)` that precedence gives. */
  const ArithmeticTree: Expr := Binary(Num(1.0), Op(Plus, "+"), Binary(Num(2.0), Op(Star, "*"), Num(3.0)))

  /** A number token at `pos` followed by a token that no factor-level loop takes is a complete factor. */
  lemma NumberIsFactor(tokens: seq<Token>, pos: nat)
    requires ValidTokens(tokens) && pos + 1 < |tokens| && tokens[pos].kind == NumberLiteral
    requires tokens[pos + 1].kind !in Operators(FactorLevel)
    ensures LevelSpec(FactorLevel, tokens, pos) == Parsed(Literal(tokens[pos].literal), pos + 1)
  {
    assert MatchesAt(tokens, pos, {NumberLiteral, StringLiteral});
    assert PrimarySpec(tokens, pos) == Parsed(Literal(tokens[pos].literal), pos + 1);
    assert UnarySpec(tokens, pos) == PrimarySpec(tokens, pos);
    assert LevelTailSpec(FactorLevel, tokens, Literal(tokens[pos].literal), pos + 1)
        == Parsed(Literal(tokens[pos].literal), pos + 1);
  }

  /** A level whose first operand is not followed by one of its operators parses just that operand. */
  lemma LevelAddsNothing(level: Level, tokens: seq<Token>, pos: nat)
    requires ValidTokens(tokens) && pos < |tokens|
    requires !MatchesAt(tokens, pos, LeadingOperators(level)) && OperandSpec(level, tokens, pos).Parsed?
    requires !MatchesAt(tokens, OperandSpec(level, tokens, pos).next, Operators(level))
    ensures LevelSpec(level, tokens, pos) == OperandSpec(level, tokens, pos)
  {
    var operand := OperandSpec(level, tokens, pos);
    assert LevelTailSpec(level, tokens, operand.value, operand.next) == operand;
  }

  /** The factor `2 * 3` of `print 1 + 2 * 3 ;` spans positions 3 to 6. */
  lemma ProductParse()
    ensures ValidTokens(PrintArithmetic)
    ensures LevelSpec(FactorLevel, PrintArithmetic, 3) == Parsed(Binary(Num(2.0), Op(Star, "*"), Num(3.0)), 6)
  {
    var tokens := PrintArithmetic;
    var product := Binary(Num(2.0), Op(Star, "*"), Num(3.0));
    NumberIsFactor(tokens, 5);
    assert MatchesAt(tokens, 3, {NumberLiteral, StringLiteral});
    assert UnarySpec(tokens, 3) == Parsed(Num(2.0), 4);
    assert UnarySpec(tokens, 5) == Parsed(Num(3.0), 6);
    assert MatchesAt(tokens, 4, Operators(FactorLevel));
    assert LevelTailSpec(FactorLevel, tokens, product, 6) == Parsed(product, 6);
    assert LevelTailSpec(FactorLevel, tokens, Num(2.0), 4) == Parsed(product, 6);
  }

  /** `*` binds tighter than `+`: the term of `print 1 + 2 * 3 ;` is `1 + (2 * 3)`, ending at the `;`. */
  lemma SumParse()
    ensures ValidTokens(PrintArithmetic)
    ensures LevelSpec(TermLevel, PrintArithmetic, 1) == Parsed(ArithmeticTree, 6)
  {
    var tokens := PrintArithmetic;
    NumberIsFactor(tokens, 1);
    ProductParse();
    assert MatchesAt(tokens, 2, Operators(TermLevel));
    assert LevelTailSpec(TermLevel, tokens, ArithmeticTree, 6) == Parsed(ArithmeticTree, 6);
    assert LevelTailSpec(TermLevel, tokens, Num(1.0), 2) == Parsed(ArithmeticTree, 6);
  }

  /** The expression of `print 1 + 2 * 3 ;` is `1 + (2 * 3)`: the looser levels add nothing. */
  lemma PrecedenceParse()
    ensures ValidTokens(PrintArithmetic)
    ensures ExpressionSpec(PrintArithmetic, 1) == Parsed(ArithmeticTree, 6)
  {
    var tokens := PrintArithmetic;
    SumParse();
    assert tokens[1].kind == NumberLiteral && tokens[6].kind == Semicolon;
    LevelAddsNothing(ComparisonLevel, tokens, 1);
    LevelAddsNothing(EqualityLevel, tokens, 1);
    ExpressionIsTernarySuffix(tokens, 1);
  }

  /** `print 1 + 2 * 3 ;` parses to the single statement that prints `1 + (2 * 3)`. */
  lemma PrecedenceProgram()
    ensures ValidTokens(PrintArithmetic)
    ensures ProgramSpec(PrintArithmetic, 0) == Ok([PrintStmt(ArithmeticTree)])
  {
    var tokens := PrintArithmetic;
    PrecedenceParse();
    assert MatchesAt(tokens, 0, {Print});
    assert MatchesAt(tokens, 6, {Semicolon});
    assert PrintStatementSpec(tokens, 1) == Parsed(PrintStmt(ArithmeticTree), 7);
    assert StatementSpec(tokens, 0) == Parsed(PrintStmt(ArithmeticTree), 7);
    assert ProgramSpec(tokens, 7) == Ok([]);
    assert [PrintStmt(ArithmeticTree)] + [] == [PrintStmt(ArithmeticTree)];
  }

  /**
    Parsing and then running `print 1 + 2 * 3 ;` writes the single line "7"
    (given that Java renders 7.0 as "7.0").
  */
  lemma PrecedenceEndToEnd(showNumber: real -> string)
    requires showNumber(7.0) == "7.0"
    ensures ValidTokens(PrintArithmetic)
    ensures ProgramSpec(PrintArithmetic, 0).Ok?
    ensures Run(ProgramSpec(PrintArithmetic, 0).value, showNumber) == (["7"], None)
  {
    PrecedenceProgram();
    ArithmeticExamples(showNumber);
    assert "7" + ".0" == "7.0";
    StringifyNumber(7.0, showNumber, "7");
    PrintOne(PrintStmt(ArithmeticTree), showNumber);
  }
}
