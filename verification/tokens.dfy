/**
 * The token record of the interpreter (Pengo/src/tokenizer/Token.h).  The tokenizer also
 * uses the keyword types Print and Var, which the header snapshot lacks; they are included
 * here.  `_EOF` is written `Eof`.
 */
module Tokens {

  datatype TokenType =
    | Bang | Plus | Minus | Asterisk | Slash | Equal
    | RightParen | LeftParen | RightCurly | LeftCurly | Comma
    | Identifier | String | Number | Bool
    | Semicolon
    | Eof
    | Print | Var

  /** A token: its type, its text, and the line and column counters when it was added. */
  datatype Token = Token(kind: TokenType, text: string, line: int, pos: int)
}
