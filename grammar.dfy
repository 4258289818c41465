/**
  The grammar that the recursive-descent parser (src/main/java/lox/Parser.java)
  implements, written as pure functions of the token list and a cursor position.
  Each function returns the tree it parses together with the position just after
  it, or the first parse error. The methods of class Parser.Parser are proved to
  compute exactly these functions.
*/
module Grammar {
  import opened Wrappers
  import opened Values
  import opened Tokens
  import opened Ast

  /** A parse diagnostic: the token it is reported at and the message. */
  datatype ParseError = ParseError(token: Token, message: string)

  /** Parsing from some position either yields a value and the next position, or fails. */
  datatype Parsed<+T> = Parsed(value: T, next: nat) | Failed(error: ParseError)

  /** The scanner always terminates the token list with an EOF token. */
  predicate ValidTokens(tokens: seq<Token>) {
    |tokens| > 0 && tokens[|tokens| - 1].kind == Eof
  }

  /** `isAtEnd()` at cursor position `pos`; the last position of a scanned list is always the end. */
  predicate IsEofAt(tokens: seq<Token>, pos: nat)
    requires pos < |tokens|
    ensures ValidTokens(tokens) && pos == |tokens| - 1 ==> IsEofAt(tokens, pos)
    ensures ValidTokens(tokens) && !IsEofAt(tokens, pos) ==> pos + 1 < |tokens|
  {
    tokens[pos].kind == Eof
  }

  /** `match(types)` succeeds at `pos`; then there is a token after the matched one. */
  predicate MatchesAt(tokens: seq<Token>, pos: nat, types: set<TokenType>)
    requires ValidTokens(tokens) && pos < |tokens|
    ensures MatchesAt(tokens, pos, types) ==> pos + 1 < |tokens| && tokens[pos].kind in types
  {
    !IsEofAt(tokens, pos) && tokens[pos].kind in types
  }

  /**
    What every successful parse from `pos` promises: it stays inside the token
    list (so it never moves past the final EOF) and moves forward (strictly so
    when `strict`).
  */
  ghost predicate Consumes<T>(tokens: seq<Token>, pos: nat, r: Parsed<T>, strict: bool) {
    r.Parsed? ==>
      && (if strict then pos < r.next else pos <= r.next)
      && r.next < |tokens|
  }

  /** The binary precedence levels, from loosest to tightest. */
  datatype Level = EqualityLevel | ComparisonLevel | TermLevel | FactorLevel

  /** The operators a level combines, left-associatively. */
  function Operators(level: Level): set<TokenType> {
    match level
    case EqualityLevel => {BangEqual, EqualEqual}
    case ComparisonLevel => {Less, LessEqual, Greater, GreaterEqual}
    case TermLevel => {Minus, Plus}
    case FactorLevel => {Slash, Star}
  }

  /**
    The operators a level reports as a missing left operand when they come
    first. The term level leaves out `-`, since a leading `-` is a negation.
  */
  function LeadingOperators(level: Level): set<TokenType> {
    match level
    case EqualityLevel => {BangEqual, EqualEqual}
    case ComparisonLevel => {Less, LessEqual, Greater, GreaterEqual}
    case TermLevel => {Plus}
    case FactorLevel => {Slash, Star}
  }

  /** The termination rank of a level; its operands rank one lower. */
  function Rank(level: Level): nat {
    match level
    case EqualityLevel => 9
    case ComparisonLevel => 7
    case TermLevel => 5
    case FactorLevel => 3
  }

  /** The error of a binary operator found where its left operand should be. */
  function MissingLeftOperand(operator: Token): ParseError {
    ParseError(operator, "Expect expression before '" + operator.lexeme + "'.")
  }

  /** `consume(kind, message)` at `pos`. */
  function ConsumeSpec(tokens: seq<Token>, pos: nat, kind: TokenType, message: string): (r: Parsed<Token>)
    requires ValidTokens(tokens) && pos < |tokens|
    ensures r.Parsed? <==> !IsEofAt(tokens, pos) && tokens[pos].kind == kind
    ensures r.Parsed? ==> r.value == tokens[pos] && r.next == pos + 1 && r.next < |tokens|
    ensures r.Failed? ==> r.error == ParseError(tokens[pos], message)
  {
    if MatchesAt(tokens, pos, {kind}) then Parsed(tokens[pos], pos + 1)
    else Failed(ParseError(tokens[pos], message))
  }

  /** `expression()`: a leading `,`/`?` error, or an equality, then an optional `, expression`, then an optional ternary. */
  function ExpressionSpec(tokens: seq<Token>, pos: nat): (r: Parsed<Expr>)
    requires ValidTokens(tokens) && pos < |tokens|
    ensures Consumes(tokens, pos, r, true)
    decreases |tokens| - pos, 11
  {
    if MatchesAt(tokens, pos, {Comma, Question}) then
      match LevelSpec(EqualityLevel, tokens, pos + 1)
      case Failed(e) => Failed(e)
      case Parsed(_, _) => Failed(MissingLeftOperand(tokens[pos]))
    else
      match LevelSpec(EqualityLevel, tokens, pos)
      case Failed(e) => Failed(e)
      case Parsed(left, afterLeft) =>
        if MatchesAt(tokens, afterLeft, {Comma}) then
          match ExpressionSpec(tokens, afterLeft + 1)
          case Failed(e) => Failed(e)
          case Parsed(right, afterRight) =>
            TernarySpec(tokens, Binary(left, tokens[afterLeft], right), afterRight)
        else
          TernarySpec(tokens, left, afterLeft)
  }

  /** The optional `? expression : expression` that ends `expression()`, with `condition` already parsed. */
  function TernarySpec(tokens: seq<Token>, condition: Expr, pos: nat): (r: Parsed<Expr>)
    requires ValidTokens(tokens) && pos < |tokens|
    ensures Consumes(tokens, pos, r, false)
    decreases |tokens| - pos, 10
  {
    if MatchesAt(tokens, pos, {Question}) then
      if MatchesAt(tokens, pos + 1, {Colon}) then
        match ExpressionSpec(tokens, pos + 2)
        case Failed(e) => Failed(e)
        case Parsed(_, _) => Failed(ParseError(tokens[pos + 1], "Expect expression before ','."))
      else
        match ExpressionSpec(tokens, pos + 1)
        case Failed(e) => Failed(e)
        case Parsed(thenBranch, afterThen) =>
          if MatchesAt(tokens, afterThen, {Colon}) then
            match ExpressionSpec(tokens, afterThen + 1)
            case Failed(e) => Failed(e)
            case Parsed(elseBranch, afterElse) =>
              Parsed(Ternary(tokens[pos], condition, thenBranch, elseBranch), afterElse)
          else
            Failed(ParseError(tokens[afterThen], "Expect ':' after expression."))
    else
      Parsed(condition, pos)
  }

  /** `equality()`, `comparison()`, `term()` and `factor()`. */
  function LevelSpec(level: Level, tokens: seq<Token>, pos: nat): (r: Parsed<Expr>)
    requires ValidTokens(tokens) && pos < |tokens|
    ensures Consumes(tokens, pos, r, true)
    decreases |tokens| - pos, Rank(level)
  {
    if MatchesAt(tokens, pos, LeadingOperators(level)) then
      match OperandSpec(level, tokens, pos + 1)
      case Failed(e) => Failed(e)
      case Parsed(_, _) => Failed(MissingLeftOperand(tokens[pos]))
    else
      match OperandSpec(level, tokens, pos)
      case Failed(e) => Failed(e)
      case Parsed(left, afterLeft) => LevelTailSpec(level, tokens, left, afterLeft)
  }

  /** The `while (match(...))` loop of a level, with the left operand `left` already parsed. */
  function LevelTailSpec(level: Level, tokens: seq<Token>, left: Expr, pos: nat): (r: Parsed<Expr>)
    requires ValidTokens(tokens) && pos < |tokens|
    ensures Consumes(tokens, pos, r, false)
    decreases |tokens| - pos, Rank(level)
  {
    if MatchesAt(tokens, pos, Operators(level)) then
      match OperandSpec(level, tokens, pos + 1)
      case Failed(e) => Failed(e)
      case Parsed(right, afterRight) =>
        LevelTailSpec(level, tokens, Binary(left, tokens[pos], right), afterRight)
    else
      Parsed(left, pos)
  }

  /** The next tighter level, which parses the operands of `level`. */
  function OperandSpec(level: Level, tokens: seq<Token>, pos: nat): (r: Parsed<Expr>)
    requires ValidTokens(tokens) && pos < |tokens|
    ensures Consumes(tokens, pos, r, true)
    decreases |tokens| - pos, Rank(level) - 1
  {
    match level
    case EqualityLevel => LevelSpec(ComparisonLevel, tokens, pos)
    case ComparisonLevel => LevelSpec(TermLevel, tokens, pos)
    case TermLevel => LevelSpec(FactorLevel, tokens, pos)
    case FactorLevel => UnarySpec(tokens, pos)
  }

  /** `unary()`: prefix `!` and `-` nest to the right. */
  function UnarySpec(tokens: seq<Token>, pos: nat): (r: Parsed<Expr>)
    requires ValidTokens(tokens) && pos < |tokens|
    ensures Consumes(tokens, pos, r, true)
    decreases |tokens| - pos, 1
  {
    if MatchesAt(tokens, pos, {Bang, Minus}) then
      match UnarySpec(tokens, pos + 1)
      case Failed(e) => Failed(e)
      case Parsed(right, afterRight) => Parsed(Unary(tokens[pos], right), afterRight)
    else
      PrimarySpec(tokens, pos)
  }

  /** `primary()`: a literal, a parenthesised expression, or "Expect expression.". */
  function PrimarySpec(tokens: seq<Token>, pos: nat): (r: Parsed<Expr>)
    requires ValidTokens(tokens) && pos < |tokens|
    ensures Consumes(tokens, pos, r, true)
    decreases |tokens| - pos, 0
  {
    if MatchesAt(tokens, pos, {False}) then Parsed(Literal(Bool(false)), pos + 1)
    else if MatchesAt(tokens, pos, {True}) then Parsed(Literal(Bool(true)), pos + 1)
    else if MatchesAt(tokens, pos, {NilKeyword}) then Parsed(Literal(Nil), pos + 1)
    else if MatchesAt(tokens, pos, {NumberLiteral, StringLiteral}) then
      Parsed(Literal(tokens[pos].literal), pos + 1)
    else if MatchesAt(tokens, pos, {LeftParen}) then
      match ExpressionSpec(tokens, pos + 1)
      case Failed(e) => Failed(e)
      case Parsed(inner, afterInner) =>
        match ConsumeSpec(tokens, afterInner, RightParen, "Expect ')' after expression.")
        case Failed(e) => Failed(e)
        case Parsed(_, afterParen) => Parsed(Grouping(inner), afterParen)
    else
      Failed(ParseError(tokens[pos], "Expect expression."))
  }

  /** What a successful statement parse promises: it consumes at least one token and ends with its `;`. */
  ghost predicate EndsAtSemicolon<T>(tokens: seq<Token>, pos: nat, r: Parsed<T>) {
    r.Parsed? ==>
      && pos < r.next < |tokens|
      && tokens[r.next - 1].kind == Semicolon
  }

  /** `printStatement()`, entered after the `print` keyword. */
  function PrintStatementSpec(tokens: seq<Token>, pos: nat): (r: Parsed<Stmt>)
    requires ValidTokens(tokens) && pos < |tokens|
    ensures EndsAtSemicolon(tokens, pos, r)
  {
    match ExpressionSpec(tokens, pos)
    case Failed(e) => Failed(e)
    case Parsed(value, afterValue) =>
      match ConsumeSpec(tokens, afterValue, Semicolon, "Expect ';' after value.")
      case Failed(e) => Failed(e)
      case Parsed(_, next) => Parsed(PrintStmt(value), next)
  }

  /** `expressionStatement()`. */
  function ExpressionStatementSpec(tokens: seq<Token>, pos: nat): (r: Parsed<Stmt>)
    requires ValidTokens(tokens) && pos < |tokens|
    ensures EndsAtSemicolon(tokens, pos, r)
  {
    match ExpressionSpec(tokens, pos)
    case Failed(e) => Failed(e)
    case Parsed(expr, afterExpr) =>
      match ConsumeSpec(tokens, afterExpr, Semicolon, "Expect ';' after expression.")
      case Failed(e) => Failed(e)
      case Parsed(_, next) => Parsed(ExpressionStmt(expr), next)
  }

  /** `statement()`. */
  function StatementSpec(tokens: seq<Token>, pos: nat): (r: Parsed<Stmt>)
    requires ValidTokens(tokens) && pos < |tokens|
    ensures EndsAtSemicolon(tokens, pos, r)
  {
    if MatchesAt(tokens, pos, {Print}) then PrintStatementSpec(tokens, pos + 1)
    else ExpressionStatementSpec(tokens, pos)
  }

  /**
    `parse()`: statements up to EOF, or the first parse error (never a partial
    list). At EOF it is the empty program; since every statement consumes at
    least one token, there are fewer statements than tokens left.
  */
  function ProgramSpec(tokens: seq<Token>, pos: nat): (r: Result<seq<Stmt>, ParseError>)
    requires ValidTokens(tokens) && pos < |tokens|
    ensures IsEofAt(tokens, pos) ==> r == Ok([])
    ensures r.Ok? ==> |r.value| < |tokens| - pos
    decreases |tokens| - pos
  {
    if IsEofAt(tokens, pos) then Ok([])
    else
      match StatementSpec(tokens, pos)
      case Failed(e) => Err(e)
      case Parsed(statement, next) =>
        match ProgramSpec(tokens, next)
        case Err(e) => Err(e)
        case Ok(rest) => Ok([statement] + rest)
  }
}
