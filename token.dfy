/**
 * Tokens produced by the lexer. The Go `token` package is not part of this
 * model: the token kinds below are the ones the lexer emits, and the keyword
 * table is the one its tests exercise.
 */
module Token {

  /** A byte of Go source text, represented by the `char` of the same code
      point. For ASCII bytes this is also Go's `string(b)`; for a byte of
      0x80 or more Go's `string(b)` is the two-byte UTF-8 encoding of that
      code point. */
  type Byte = c: char | c as int < 256 witness '\0'

  datatype TokenType =
    | Illegal | Eof | Ident | Int
    | Assign | Plus | Minus | Bang | Asterisk | Slash | Lt | Gt | Eq | NotEq
    | Comma | Semicolon | LParen | RParen | LBrace | RBrace
    | Function | Let | True | False | If | Else | Return

  datatype Token = Token(tokenType: TokenType, literal: string)

  /** The kinds a keyword can have. */
  predicate IsKeyword(t: TokenType) {
    t in {Function, Let, True, False, If, Else, Return}
  }

  /** The keyword table: a keyword's own kind, every other word is an identifier. */
  function LookupIdent(ident: string): (t: TokenType)
    ensures t == Ident || IsKeyword(t)
    ensures t != Ident <==> ident in {"fn", "let", "true", "false", "if", "else", "return"}
  {
    if ident == "fn" then Function
    else if ident == "let" then Let
    else if ident == "true" then True
    else if ident == "false" then False
    else if ident == "if" then If
    else if ident == "else" then Else
    else if ident == "return" then Return
    else Ident
  }

  /** The printable name of a token kind, as used in parser messages. */
  function TypeName(t: TokenType): string {
    match t
    case Illegal => "ILLEGAL"
    case Eof => "EOF"
    case Ident => "IDENT"
    case Int => "INT"
    case Assign => "="
    case Plus => "+"
    case Minus => "-"
    case Bang => "!"
    case Asterisk => "*"
    case Slash => "/"
    case Lt => "<"
    case Gt => ">"
    case Eq => "=="
    case NotEq => "!="
    case Comma => ","
    case Semicolon => ";"
    case LParen => "("
    case RParen => ")"
    case LBrace => "{"
    case RBrace => "}"
    case Function => "FUNCTION"
    case Let => "LET"
    case True => "TRUE"
    case False => "FALSE"
    case If => "IF"
    case Else => "ELSE"
    case Return => "RETURN"
  }
}
