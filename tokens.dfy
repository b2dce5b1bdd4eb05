// Tokens produced by the scanner of the Lox interpreter.

module Tokens {

  /** The lexical categories the scanner can emit: the punctuation and
      operator kinds dispatched in `scan_token`, plus the end-of-input
      sentinel. */
  datatype TokenType =
    | LeftParen | RightParen | LeftBrace | RightBrace
    | Comma | Dot | Minus | Plus | Semicolon | Star | Slash
    | Bang | BangEqual | Equal | EqualEqual
    | Lesser | LesserEqual | Greater | GreaterEqual
    | EOF

  /** An immutable token: its kind, the exact source text that produced it,
      its literal payload and the 1-based line it was found on. */
  datatype Token = Token(kind: TokenType, lexeme: string, literal: string, line: nat)

  /** The one spelling each kind has in source text (empty for `EOF`). */
  function Spelling(kind: TokenType): (s: string)
    ensures (kind == EOF) == (s == [])
    ensures '\n' !in s
  {
    match kind
    case LeftParen => "("
    case RightParen => ")"
    case LeftBrace => "{"
    case RightBrace => "}"
    case Comma => ","
    case Dot => "."
    case Minus => "-"
    case Plus => "+"
    case Semicolon => ";"
    case Star => "*"
    case Slash => "/"
    case Bang => "!"
    case BangEqual => "!="
    case Equal => "="
    case EqualEqual => "=="
    case Lesser => "<"
    case LesserEqual => "<="
    case Greater => ">"
    case GreaterEqual => ">="
    case EOF => ""
  }
}
