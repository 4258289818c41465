/** Runtime values of the Lox subset: nil, booleans, numbers and strings. */
module Values {

  /** Numbers are exact reals; the source's IEEE-754 doubles are not modelled. */
  datatype Value = Nil | Bool(b: bool) | Number(n: real) | Str(s: string)
}

/** Tokens as produced by the scanner, which is not part of this model. */
module Tokens {
  import opened Values

  datatype TokenType =
    // single-character tokens
    | LeftParen | RightParen | LeftBrace | RightBrace
    | Comma | Dot | Minus | Plus | Semicolon | Slash | Star
    | Question | Colon
    // one- or two-character tokens
    | Bang | BangEqual | Equal | EqualEqual
    | Greater | GreaterEqual | Less | LessEqual
    // literals
    | Identifier | StringLiteral | NumberLiteral
    // keywords
    | And | Class | Else | False | Fun | For | If | NilKeyword | Or
    | Print | Return | Super | This | True | Var | While
    | Eof

  /** The literal of a NUMBER or STRING token; Nil (Java's null) for every other token. */
  datatype Token = Token(kind: TokenType, lexeme: string, literal: Value, line: int)
}

/** The abstract syntax tree built by the parser and walked by the interpreter. */
module Ast {
  import opened Values
  import opened Tokens

  /** Operator nodes keep their token, which runtime errors report. */
  datatype Expr =
    | Literal(value: Value)
    | Grouping(expression: Expr)
    | Unary(operator: Token, right: Expr)
    | Binary(left: Expr, operator: Token, right: Expr)
    | Ternary(operator: Token, condition: Expr, left: Expr, right: Expr)

  datatype Stmt =
    | ExpressionStmt(expression: Expr)
    | PrintStmt(expression: Expr)
}
