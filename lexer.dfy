/** The tokenizer (Compiler/Tokenization.cpp): one index-driven scan over the
    source text producing the token sequence.

    `Scan` is the specification: it does, one step per recursive call, what
    one iteration of the outer `while` in `Tokenizer::tokenize` does.  The
    class `Tokenizer` keeps the source's state (`m_src`, `m_index`) and its
    `Tokenize` method is proved to return exactly `Scan` of its input. */
module Lexer {
  import opened Wrappers
  import opened Tokens

  // ASCII character classes standing for isalpha, isdigit and isspace.

  predicate IsAlpha(c: char) { 'a' <= c <= 'z' || 'A' <= c <= 'Z' }

  predicate IsDigit(c: char) { '0' <= c <= '9' }

  predicate IsSpace(c: char)
  {
    c == ' ' || c == '\t' || c == '\n' || c == '\U{000B}' || c == '\U{000C}' || c == '\r'
  }

  predicate AllAlpha(s: string) { forall k :: 0 <= k < |s| ==> IsAlpha(s[k]) }

  predicate AllDigits(s: string) { forall k :: 0 <= k < |s| ==> IsDigit(s[k]) }

  /** The five words the tokenizer turns into keyword tokens. */
  predicate IsKeyword(word: string)
  {
    word == "exit" || word == "let" || word == "if" || word == "elif" || word == "else"
  }

  /** Number of newline characters in `s`. */
  function Newlines(s: string): nat
  {
    if s == [] then 0 else (if s[0] == '\n' then 1 else 0) + Newlines(s[1..])
  }

  /** The end of the run of letters that starts at `i`: the scan is
      maximal, so the character at the end (if any) is not a letter. */
  function AlphaEnd(src: string, i: nat): (j: nat)
    requires i <= |src|
    ensures i <= j <= |src|
    ensures forall k :: i <= k < j ==> IsAlpha(src[k])
    ensures j == |src| || !IsAlpha(src[j])
    decreases |src| - i
  {
    if i < |src| && IsAlpha(src[i]) then AlphaEnd(src, i + 1) else i
  }

  /** The end of the run of digits that starts at `i`, maximal likewise. */
  function DigitEnd(src: string, i: nat): (j: nat)
    requires i <= |src|
    ensures i <= j <= |src|
    ensures forall k :: i <= k < j ==> IsDigit(src[k])
    ensures j == |src| || !IsDigit(src[j])
    decreases |src| - i
  {
    if i < |src| && IsDigit(src[i]) then DigitEnd(src, i + 1) else i
  }

  /** Where a line comment whose body starts at `i` stops: at the next
      newline, which is left for the main loop, or at the end of input. */
  function LineCommentEnd(src: string, i: nat): (j: nat)
    requires i <= |src|
    ensures i <= j <= |src|
    ensures forall k :: i <= k < j ==> src[k] != '\n'
    ensures j == |src| || src[j] == '\n'
    decreases |src| - i
  {
    if i < |src| && src[i] != '\n' then LineCommentEnd(src, i + 1) else i
  }

  /** The two-character closer, star then slash, starts at position `k`. */
  predicate ClosesAt(src: string, k: nat)
  {
    k + 1 < |src| && src[k] == '*' && src[k + 1] == '/'
  }

  /** The block comment whose body starts at `i`: `Some((j, l))` when the
      comment ends just before `j` and the line counter is then `l`, `None`
      when the input ends first (BlockCommentEndSpec says what this means). */
  function BlockCommentEnd(src: string, i: nat, line: int): (r: Option<(nat, int)>)
    requires i <= |src|
    ensures r.Some? ==> i + 2 <= r.value.0 <= |src|
    decreases |src| - i
  {
    if i >= |src| then None
    else if ClosesAt(src, i) then Some((i + 2, line))
    else BlockCommentEnd(src, i + 1, if src[i] == '\n' then line + 1 else line)
  }

  /** A block comment ends at the FIRST closer after its opener, consuming
      both closing characters, and the line counter advances by exactly the
      newlines of its body; it is unterminated iff no closer follows. */
  lemma {:induction false} BlockCommentEndSpec(src: string, i: nat, line: int)
    requires i <= |src|
    ensures var r := BlockCommentEnd(src, i, line);
      && (r.None? <==> forall k :: i <= k < |src| ==> !ClosesAt(src, k))
      && (r.Some? ==>
            var (j, l) := r.value;
            && i + 2 <= j <= |src|
            && ClosesAt(src, j - 2)
            && (forall k :: i <= k < j - 2 ==> !ClosesAt(src, k))
            && l == line + Newlines(src[i..j - 2]))
    decreases |src| - i
  {
    if i < |src| && !ClosesAt(src, i) {
      var line' := if src[i] == '\n' then line + 1 else line;
      BlockCommentEndSpec(src, i + 1, line');
      var r := BlockCommentEnd(src, i + 1, line');
      if r.Some? {
        assert src[i..r.value.0 - 2][1..] == src[i + 1..r.value.0 - 2];
      }
    }
  }

  /** The kind of the ten one-character tokens. */
  function PunctKind(c: char): (k: Option<TokenType>)
    ensures k.Some? ==> IsLexemeKind(k.value) && Lexeme(k.value) == [c]
    ensures k.None? ==> c !in "();=+*-/{}"
  {
    match c
    case '(' => Some(OpenParen)
    case ')' => Some(CloseParen)
    case ';' => Some(Semi)
    case '=' => Some(Eq)
    case '+' => Some(Plus)
    case '*' => Some(Star)
    case '-' => Some(Minus)
    case '/' => Some(FSlash)
    case '{' => Some(OpenCurly)
    case '}' => Some(CloseCurly)
    case _ => None
  }

  /** The token for a finished letter run: one of the five keywords, with no
      payload, or else an identifier carrying the run. */
  function WordToken(word: string, line: int): (t: Token)
    ensures t.line == line
    ensures IsKeyword(word) ==> t.value == None && IsLexemeKind(t.kind) && Lexeme(t.kind) == word
    ensures !IsKeyword(word) ==> t == Token(Ident, line, Some(word))
  {
    if word == "exit" then Plain(Exit, line)
    else if word == "let" then Plain(Let, line)
    else if word == "if" then Plain(If, line)
    else if word == "elif" then Plain(Elif, line)
    else if word == "else" then Plain(Else, line)
    else Token(Ident, line, Some(word))
  }

  /** How a scan ends: with the tokens, stuck at a character that no rule
      accepts (the source then loops there for ever, printing a diagnostic
      and never advancing), or reading past the end of the input inside an
      unterminated block comment (where `std::string::at` throws). */
  datatype LexResult =
    | Lexed(tokens: seq<Token>)
    | InvalidChar(at: nat, line: int)
    | UnterminatedComment

  /** The scan from position `i` with line counter `line`, `acc` holding the
      tokens produced so far. */
  function Scan(src: string, i: nat, line: int, acc: seq<Token>): LexResult
    requires i <= |src|
    decreases |src| - i
  {
    if i == |src| then Lexed(acc)
    else
      var c := src[i];
      if IsAlpha(c) then
        var j := AlphaEnd(src, i);
        Scan(src, j, line, acc + [WordToken(src[i..j], line)])
      else if IsDigit(c) then
        var j := DigitEnd(src, i);
        Scan(src, j, line, acc + [Token(IntLit, line, Some(src[i..j]))])
      else if c == '/' && i + 1 < |src| && src[i + 1] == '/' then
        Scan(src, LineCommentEnd(src, i + 2), line, acc)
      else if c == '/' && i + 1 < |src| && src[i + 1] == '*' then
        match BlockCommentEnd(src, i + 2, line)
        case None => UnterminatedComment
        case Some((j, l)) => Scan(src, j, l, acc)
      else if PunctKind(c).Some? then
        Scan(src, i + 1, line, acc + [Plain(PunctKind(c).value, line)])
      else if c == '\n' then
        Scan(src, i + 1, line + 1, acc)
      else if IsSpace(c) then
        Scan(src, i + 1, line, acc)
      else
        InvalidChar(i, line)
  }

  /** What `tokenize` returns on a fresh tokenizer: the scan from the start
      with the line counter at 1. */
  function Tokenize(src: string): LexResult
  {
    Scan(src, 0, 1, [])
  }

  class Tokenizer {
    const src: string
    var index: nat

    ghost predicate Valid()
      reads this
    {
      index <= |src|
    }

    constructor (src: string)
      ensures Valid() && this.src == src && index == 0
    {
      this.src := src;
      index := 0;
    }

    /** The character `offset` places ahead, if the input has one. */
    function Peek(offset: nat): (r: Option<char>)
      reads this
      ensures r.Some? <==> index + offset < |src|
      ensures r.Some? ==> r.value == src[index + offset]
    {
      if index + offset >= |src| then None else Some(src[index + offset])
    }

    method Consume() returns (c: char)
      requires index < |src|
      modifies this
      ensures c == src[old(index)] && index == old(index) + 1
    {
      c := src[index];
      index := index + 1;
    }

    /** Consumes the letter run at the index into `buf`. */
    method ReadWord() returns (buf: string)
      requires Valid() && index < |src| && IsAlpha(src[index])
      modifies this
      ensures Valid()
      ensures index == AlphaEnd(src, old(index)) && buf == src[old(index)..index]
    {
      ghost var start := index;
      var ch := Consume();
      buf := [ch];
      while Peek(0).Some? && IsAlpha(Peek(0).value)
        invariant start < index <= |src|
        invariant buf == src[start..index]
        invariant AlphaEnd(src, index) == AlphaEnd(src, start)
        decreases |src| - index
      {
        ch := Consume();
        buf := buf + [ch];
      }
    }

    /** Consumes the digit run at the index into `buf`. */
    method ReadNumber() returns (buf: string)
      requires Valid() && index < |src| && IsDigit(src[index])
      modifies this
      ensures Valid()
      ensures index == DigitEnd(src, old(index)) && buf == src[old(index)..index]
    {
      ghost var start := index;
      var ch := Consume();
      buf := [ch];
      while Peek(0).Some? && IsDigit(Peek(0).value)
        invariant start < index <= |src|
        invariant buf == src[start..index]
        invariant DigitEnd(src, index) == DigitEnd(src, start)
        decreases |src| - index
      {
        ch := Consume();
        buf := buf + [ch];
      }
    }

    /** Consumes a line comment, leaving its newline unconsumed. */
    method SkipLineComment()
      requires Valid() && index + 1 < |src| && src[index] == '/' && src[index + 1] == '/'
      modifies this
      ensures Valid()
      ensures index == LineCommentEnd(src, old(index) + 2)
    {
      ghost var start := index + 2;
      var ch := Consume();
      ch := Consume();
      while Peek(0).Some? && Peek(0).value != '\n'
        invariant start <= index <= |src|
        invariant LineCommentEnd(src, index) == LineCommentEnd(src, start)
        decreases |src| - index
      {
        ch := Consume();
      }
    }

    /** Consumes a block comment, counting the newlines inside it; `closed`
        is false when the input ends before a closer, where the source's
        last consume() reads past the end. */
    method SkipBlockComment(line: int) returns (closed: bool, lineCount: int)
      requires Valid() && index + 1 < |src| && src[index] == '/' && src[index + 1] == '*'
      modifies this
      ensures Valid()
      ensures BlockCommentEnd(src, old(index) + 2, line)
              == if closed then Some((index, lineCount)) else None
    {
      ghost var start := index + 2;
      lineCount := line;
      var ch := Consume();
      ch := Consume();
      while Peek(0).Some?
        invariant start <= index <= |src|
        invariant BlockCommentEnd(src, index, lineCount) == BlockCommentEnd(src, start, line)
        decreases |src| - index
      {
        if Peek(0).value == '*' && Peek(1).Some? && Peek(1).value == '/' {
          break;
        }
        if Peek(0).value == '\n' {
          lineCount := lineCount + 1;
        }
        ch := Consume();
      }
      if Peek(0).Some? {
        ch := Consume();
      }
      if Peek(0).None? {
        closed := false;
        return;
      }
      ch := Consume();
      closed := true;
    }

    /** One iteration of `tokenize`'s loop at a character that starts a
        letter or digit run. */
    method StepRun(line: int, tokens: seq<Token>) returns (line': int, tokens': seq<Token>)
      requires Valid() && index < |src| && (IsAlpha(src[index]) || IsDigit(src[index]))
      modifies this
      ensures Valid() && old(index) < index
      ensures Scan(src, index, line', tokens') == Scan(src, old(index), line, tokens)
    {
      line' := line;
      if IsAlpha(Peek(0).value) {
        var buf := ReadWord();
        tokens' := tokens + [WordToken(buf, line)];
      } else {
        var buf := ReadNumber();
        tokens' := tokens + [Token(IntLit, line, Some(buf))];
      }
    }

    /** One iteration of `tokenize`'s loop at any other character: `tail`
        is the scan's result when the iteration ends it. */
    method StepOther(line: int, tokens: seq<Token>)
      returns (tail: Option<LexResult>, line': int, tokens': seq<Token>)
      requires Valid() && index < |src| && !IsAlpha(src[index]) && !IsDigit(src[index])
      modifies this
      ensures Valid()
      ensures tail.Some? ==> tail.value == Scan(src, old(index), line, tokens) && !tail.value.Lexed?
      ensures tail.None? ==> old(index) < index
                             && Scan(src, index, line', tokens') == Scan(src, old(index), line, tokens)
    {
      var c := Peek(0).value;
      tail, line', tokens' := None, line, tokens;
      if c == '/' && Peek(1).Some? && Peek(1).value == '/' {
        SkipLineComment();
      } else if c == '/' && Peek(1).Some? && Peek(1).value == '*' {
        var closed;
        closed, line' := SkipBlockComment(line);
        if !closed {
          tail := Some(UnterminatedComment);
        }
      } else if PunctKind(c).Some? {
        var ch := Consume();
        tokens' := tokens + [Plain(PunctKind(c).value, line)];
      } else if c == '\n' {
        var ch := Consume();
        line' := line + 1;
      } else if IsSpace(c) {
        var ch := Consume();
      } else {
        // "Invalid token": the source reports it and retries the same
        // character for ever, since nothing is consumed
        tail := Some(InvalidChar(index, line));
      }
    }

    /** The scan itself. On success the index is reset to 0, so calling it
        again on the same tokenizer yields the same tokens. */
    method Tokenize() returns (r: LexResult)
      requires Valid()
      modifies this
      ensures Valid()
      ensures r == Scan(src, old(index), 1, [])
      ensures r.Lexed? ==> index == 0
    {
      var tokens: seq<Token> := [];
      var lineCount: int := 1;
      while Peek(0).Some?
        invariant Valid()
        invariant Scan(src, index, lineCount, tokens) == Scan(src, old(index), 1, [])
        decreases |src| - index
      {
        var c := Peek(0).value;
        if IsAlpha(c) || IsDigit(c) {
          lineCount, tokens := StepRun(lineCount, tokens);
        } else {
          var tail;
          tail, lineCount, tokens := StepOther(lineCount, tokens);
          if tail.Some? {
            return tail.value;
          }
        }
      }
      index := 0;
      r := Lexed(tokens);
    }
  }
}
