/** The token vocabulary of the compiler (Compiler/Tokenization.hpp): the
    seventeen token kinds, the token record and the `to_string` mapping used
    in parser diagnostics. */
module Tokens {
  import opened Wrappers

  /** The seventeen kinds, in declaration order. */
  datatype TokenType =
    | Exit | IntLit | Semi | OpenParen | CloseParen | Ident | Let | Eq
    | Plus | Star | Minus | FSlash | OpenCurly | CloseCurly | If | Elif | Else

  /** A token: its kind, the source line it was read on, and an optional
      textual payload (absent unless the tokenizer supplies one). */
  datatype Token = Token(kind: TokenType, line: int, value: Option<string>)

  /** A token without payload, as `{ kind, line }` builds it. */
  function Plain(kind: TokenType, line: int): (t: Token)
    ensures t.kind == kind && t.line == line && t.value == None
  {
    Token(kind, line, None)
  }

  /** An integer literal token on line 1 carrying `text`. */
  function LitTok(text: string): Token
  {
    Token(IntLit, 1, Some(text))
  }

  /** An identifier token on line 1 carrying `name`. */
  function IdentTok(name: string): Token
  {
    Token(Ident, 1, Some(name))
  }

  /** Every kind, each exactly once. */
  const AllKinds: seq<TokenType> :=
    [Exit, IntLit, Semi, OpenParen, CloseParen, Ident, Let, Eq,
     Plus, Star, Minus, FSlash, OpenCurly, CloseCurly, If, Elif, Else]

  lemma AllKindsComplete(k: TokenType)
    ensures k in AllKinds
  {
  }

  lemma SeventeenKinds()
    ensures |AllKinds| == 17
    ensures forall i, j :: 0 <= i < j < |AllKinds| ==> AllKinds[i] != AllKinds[j]
  {
  }

  /** True for the kinds that stand for their own spelling (keywords,
      operators and punctuation), false for the two payload kinds. */
  predicate IsLexemeKind(k: TokenType)
  {
    k != IntLit && k != Ident
  }

  /** The spelling of a kind in diagnostics. Total: every kind has a case,
      so the throwing default of the source is never reached. */
  function ToString(k: TokenType): (s: string)
    ensures |s| > 0
    ensures IsLexemeKind(k) <==> (s[0] == '\'' && s[|s| - 1] == '\'')
  {
    match k
    case Exit => "'exit'"
    case IntLit => "integer literal"
    case Semi => "';'"
    case OpenParen => "'('"
    case CloseParen => "')'"
    case Ident => "identifier"
    case Let => "'let'"
    case Eq => "'='"
    case Plus => "'+'"
    case Star => "'*'"
    case Minus => "'-'"
    case FSlash => "'/'"
    case OpenCurly => "'{'"
    case CloseCurly => "'}'"
    case If => "'if'"
    case Elif => "'elif'"
    case Else => "'else'"
  }

  /** The source text a lexeme kind is written as. */
  function Lexeme(k: TokenType): string
    requires IsLexemeKind(k)
  {
    match k
    case Exit => "exit"
    case Semi => ";"
    case OpenParen => "("
    case CloseParen => ")"
    case Let => "let"
    case Eq => "="
    case Plus => "+"
    case Star => "*"
    case Minus => "-"
    case FSlash => "/"
    case OpenCurly => "{"
    case CloseCurly => "}"
    case If => "if"
    case Elif => "elif"
    case Else => "else"
  }

  /** For keyword and punctuation kinds the diagnostic is the lexeme in
      single quotes; the payload kinds are described in words. */
  lemma ToStringQuotesLexeme(k: TokenType)
    ensures IsLexemeKind(k) ==> ToString(k) == "'" + Lexeme(k) + "'"
    ensures k == IntLit ==> ToString(k) == "integer literal"
    ensures k == Ident ==> ToString(k) == "identifier"
  {
  }

  /** Distinct kinds have distinct diagnostic spellings. */
  lemma ToStringInjective(a: TokenType, b: TokenType)
    ensures ToString(a) == ToString(b) ==> a == b
  {
  }
}
