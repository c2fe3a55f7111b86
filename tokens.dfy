/**
 * The token vocabulary of the tokenizer. `TokenType` lists the members of the
 * library's enumeration in declaration order, extended with the three members
 * the parser uses but the enumeration lacks (`StringType`, `LeftParenthesis`,
 * `RightParenthesis`); the `Length` sentinel is omitted.
 */
module Tokens {

  datatype TokenType =
    | Comma
    | Comment
    | Concatenation
    | Equal
    | EOF
    | LeftBrace
    | Name
    | RightBrace
    | Start
    | String
    | StringType
    | LeftParenthesis
    | RightParenthesis

  /** The text an enumeration value prints as (its member name). */
  function TypeName(t: TokenType): (r: string)
    ensures |r| > 0
  {
    match t
    case Comma => "Comma"
    case Comment => "Comment"
    case Concatenation => "Concatenation"
    case Equal => "Equal"
    case EOF => "EOF"
    case LeftBrace => "LeftBrace"
    case Name => "Name"
    case RightBrace => "RightBrace"
    case Start => "Start"
    case String => "String"
    case StringType => "StringType"
    case LeftParenthesis => "LeftParenthesis"
    case RightParenthesis => "RightParenthesis"
  }

  /** A token: its type and its text, which defaults to the empty string. */
  datatype Token = Token(kind: TokenType, value: string)

  /** `new Token(type)`: a token whose text is the default, empty. */
  function Bare(kind: TokenType): (t: Token)
    ensures t.kind == kind && t.value == ""
  {
    Token(kind, "")
  }
}
