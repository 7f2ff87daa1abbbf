/** Properties of the tokenizer's scan. */
module LexerFacts {
  import opened Wrappers
  import opened Tokens
  import opened Lexer

  /** What the scan promises about each token it emits: identifiers carry a
      non-empty run of letters that is not a keyword, integer literals carry
      a non-empty run of digits (so no sign: `-` is always its own token),
      and every other kind carries no payload. */
  predicate WellFormed(t: Token)
  {
    && (t.kind == Ident ==>
          t.value.Some? && |t.value.value| > 0 && AllAlpha(t.value.value) && !IsKeyword(t.value.value))
    && (t.kind == IntLit ==>
          t.value.Some? && |t.value.value| > 0 && AllDigits(t.value.value))
    && (IsLexemeKind(t.kind) ==> t.value == None)
  }

  lemma {:induction false} ScanWellFormed(src: string, i: nat, line: int, acc: seq<Token>)
    requires i <= |src|
    requires forall k :: 0 <= k < |acc| ==> WellFormed(acc[k])
    ensures Scan(src, i, line, acc).Lexed? ==>
      forall k :: 0 <= k < |Scan(src, i, line, acc).tokens| ==> WellFormed(Scan(src, i, line, acc).tokens[k])
    decreases |src| - i
  {
    if i < |src| {
      var c := src[i];
      if IsAlpha(c) {
        var j := AlphaEnd(src, i);
        var t := WordToken(src[i..j], line);
        assert WellFormed(t);
        ScanWellFormed(src, j, line, acc + [t]);
      } else if IsDigit(c) {
        var j := DigitEnd(src, i);
        ScanWellFormed(src, j, line, acc + [Token(IntLit, line, Some(src[i..j]))]);
      } else if c == '/' && i + 1 < |src| && src[i + 1] == '/' {
        ScanWellFormed(src, LineCommentEnd(src, i + 2), line, acc);
      } else if c == '/' && i + 1 < |src| && src[i + 1] == '*' {
        match BlockCommentEnd(src, i + 2, line)
        case None =>
        case Some((j, l)) => ScanWellFormed(src, j, l, acc);
      } else if PunctKind(c).Some? {
        ScanWellFormed(src, i + 1, line, acc + [Plain(PunctKind(c).value, line)]);
      } else if c == '\n' {
        ScanWellFormed(src, i + 1, line + 1, acc);
      } else if IsSpace(c) {
        ScanWellFormed(src, i + 1, line, acc);
      }
    }
  }

  /** Every token the tokenizer produces is well formed. */
  lemma TokenizeWellFormed(src: string)
    ensures Tokenize(src).Lexed? ==>
      forall k :: 0 <= k < |Tokenize(src).tokens| ==> WellFormed(Tokenize(src).tokens[k])
  {
    ScanWellFormed(src, 0, 1, []);
  }

  lemma {:induction false} NewlinesAppend(a: string, b: string)
    ensures Newlines(a + b) == Newlines(a) + Newlines(b)
  {
    if a == [] {
      assert a + b == b;
    } else {
      assert (a + b)[1..] == a[1..] + b;
      NewlinesAppend(a[1..], b);
    }
  }

  /** Newlines in the slice `src[i..j]`, counted by splitting the prefix. */
  lemma NewlinesSplit(src: string, i: nat, j: nat)
    requires i <= j <= |src|
    ensures Newlines(src[..j]) == Newlines(src[..i]) + Newlines(src[i..j])
  {
    assert src[..j] == src[..i] + src[i..j];
    NewlinesAppend(src[..i], src[i..j]);
  }

  lemma {:induction false} NoNewlines(s: string)
    requires forall k :: 0 <= k < |s| ==> s[k] != '\n'
    ensures Newlines(s) == 0
  {
    if s != [] {
      NoNewlines(s[1..]);
    }
  }

  predicate LinesOrdered(ts: seq<Token>)
  {
    forall a, b :: 0 <= a < b < |ts| ==> ts[a].line <= ts[b].line
  }

  predicate LinesWithin(ts: seq<Token>, lo: int, hi: int)
  {
    forall k :: 0 <= k < |ts| ==> lo <= ts[k].line <= hi
  }

  /** A block comment's delimiters hold no newline, so the newlines of the
      whole comment are those of its body. */
  lemma BlockCommentNewlines(src: string, i: nat, j: nat)
    requires i + 4 <= j <= |src|
    requires src[i] == '/' && src[i + 1] == '*' && src[j - 2] == '*' && src[j - 1] == '/'
    ensures Newlines(src[i..j]) == Newlines(src[i + 2..j - 2])
  {
    assert src[i..j] == src[i..i + 2] + src[i + 2..j - 2] + src[j - 2..j];
    NewlinesAppend(src[i..i + 2] + src[i + 2..j - 2], src[j - 2..j]);
    NewlinesAppend(src[i..i + 2], src[i + 2..j - 2]);
    NoNewlines(src[i..i + 2]);
    NoNewlines(src[j - 2..j]);
  }

  lemma AppendLine(acc: seq<Token>, t: Token, line: int)
    requires LinesOrdered(acc) && LinesWithin(acc, 1, line)
    requires t.line == line && 1 <= line
    ensures LinesOrdered(acc + [t]) && LinesWithin(acc + [t], 1, line)
  {
  }

  /** What one iteration of the scan from `i` establishes: either the scan
      stops without a token list, or it moves on to `j` with line counter
      `line'` and tokens `acc'`, keeping the line invariant. */
  ghost predicate StepKeepsLines(src: string, i: nat, line: int, acc: seq<Token>,
                                 stops: bool, j: nat, line': int, acc': seq<Token>)
    requires i <= |src|
  {
    && (stops ==> !Scan(src, i, line, acc).Lexed?)
    && (!stops ==>
      && i < j <= |src|
      && Scan(src, i, line, acc) == Scan(src, j, line', acc')
      && line' == 1 + Newlines(src[..j])
      && LinesOrdered(acc') && LinesWithin(acc', 1, line'))
  }

  lemma ScanStepLines(src: string, i: nat, line: int, acc: seq<Token>)
    returns (stops: bool, j: nat, line': int, acc': seq<Token>)
    requires i < |src|
    requires line == 1 + Newlines(src[..i])
    requires LinesOrdered(acc) && LinesWithin(acc, 1, line)
    ensures StepKeepsLines(src, i, line, acc, stops, j, line', acc')
  {
    var c := src[i];
    if IsAlpha(c) || IsDigit(c) {
      stops, j, line', acc' := StepRun(src, i, line, acc);
    } else if c == '/' && i + 1 < |src| && (src[i + 1] == '/' || src[i + 1] == '*') {
      stops, j, line', acc' := StepComment(src, i, line, acc);
    } else {
      stops, j, line', acc' := StepSingle(src, i, line, acc);
    }
  }

  /** A letter or digit run becomes one token on the current line. */
  lemma StepRun(src: string, i: nat, line: int, acc: seq<Token>)
    returns (stops: bool, j: nat, line': int, acc': seq<Token>)
    requires i < |src| && (IsAlpha(src[i]) || IsDigit(src[i]))
    requires line == 1 + Newlines(src[..i])
    requires LinesOrdered(acc) && LinesWithin(acc, 1, line)
    ensures StepKeepsLines(src, i, line, acc, stops, j, line', acc')
  {
    stops, line' := false, line;
    if IsAlpha(src[i]) {
      j := AlphaEnd(src, i);
      acc' := acc + [WordToken(src[i..j], line)];
    } else {
      j := DigitEnd(src, i);
      acc' := acc + [Token(IntLit, line, Some(src[i..j]))];
    }
    NoNewlines(src[i..j]);
    NewlinesSplit(src, i, j);
  }

  /** A comment emits nothing; a block comment's newlines advance the
      counter. */
  lemma StepComment(src: string, i: nat, line: int, acc: seq<Token>)
    returns (stops: bool, j: nat, line': int, acc': seq<Token>)
    requires i + 1 < |src| && src[i] == '/' && (src[i + 1] == '/' || src[i + 1] == '*')
    requires line == 1 + Newlines(src[..i])
    requires LinesOrdered(acc) && LinesWithin(acc, 1, line)
    ensures StepKeepsLines(src, i, line, acc, stops, j, line', acc')
  {
    stops, acc' := false, acc;
    if src[i + 1] == '/' {
      j := LineCommentEnd(src, i + 2);
      line' := line;
      NoNewlines(src[i..j]);
    } else {
      BlockCommentEndSpec(src, i + 2, line);
      var r := BlockCommentEnd(src, i + 2, line);
      if r.None? {
        stops, j, line' := true, i + 1, line;
        return;
      }
      j, line' := r.value.0, r.value.1;
      BlockCommentNewlines(src, i, j);
    }
    NewlinesSplit(src, i, j);
  }

  /** A punctuation character, a newline, other white space, or a
      character the scan stops at. */
  lemma StepSingle(src: string, i: nat, line: int, acc: seq<Token>)
    returns (stops: bool, j: nat, line': int, acc': seq<Token>)
    requires i < |src| && !IsAlpha(src[i]) && !IsDigit(src[i])
    requires !(src[i] == '/' && i + 1 < |src| && (src[i + 1] == '/' || src[i + 1] == '*'))
    requires line == 1 + Newlines(src[..i])
    requires LinesOrdered(acc) && LinesWithin(acc, 1, line)
    ensures StepKeepsLines(src, i, line, acc, stops, j, line', acc')
  {
    var c := src[i];
    stops, j, line', acc' := false, i + 1, line, acc;
    if PunctKind(c).Some? {
      acc' := acc + [Plain(PunctKind(c).value, line)];
      NoNewlines(src[i..j]);
    } else if c == '\n' {
      line' := line + 1;
      assert src[i..j] == [c];
    } else if IsSpace(c) {
      NoNewlines(src[i..j]);
    } else {
      stops := true;
      return;
    }
    NewlinesSplit(src, i, j);
  }

  /** The line counter always equals 1 plus the newlines read so far, both
      between tokens and inside block comments; hence token lines never
      decrease and lie between 1 and 1 plus the newlines of the source. */
  lemma {:induction false} ScanLines(src: string, i: nat, line: int, acc: seq<Token>)
    requires i <= |src|
    requires line == 1 + Newlines(src[..i])
    requires LinesOrdered(acc) && LinesWithin(acc, 1, line)
    ensures Scan(src, i, line, acc).Lexed? ==>
      LinesOrdered(Scan(src, i, line, acc).tokens) &&
      LinesWithin(Scan(src, i, line, acc).tokens, 1, 1 + Newlines(src))
    decreases |src| - i
  {
    if i == |src| {
      assert src[..i] == src;
    } else {
      var stops, j, line', acc' := ScanStepLines(src, i, line, acc);
      if !stops {
        ScanLines(src, j, line', acc');
      }
    }
  }

  lemma TokenizeLines(src: string)
    ensures Tokenize(src).Lexed? ==>
      LinesOrdered(Tokenize(src).tokens) && LinesWithin(Tokenize(src).tokens, 1, 1 + Newlines(src))
  {
    ScanLines(src, 0, 1, []);
  }

  /** Text made only of whitespace produces no tokens. */
  lemma {:induction false} BlankEmitsNothing(src: string, i: nat, line: int, acc: seq<Token>)
    requires i <= |src|
    requires forall k :: i <= k < |src| ==> IsSpace(src[k])
    ensures Scan(src, i, line, acc) == Lexed(acc)
    decreases |src| - i
  {
    if i < |src| {
      BlankEmitsNothing(src, i + 1, if src[i] == '\n' then line + 1 else line, acc);
    }
  }

  /** A line comment produces no tokens: from `//` up to (not including)
      the next newline, or to the end, the scan goes on with the same line
      counter and the same tokens. */
  lemma LineCommentEmitsNothing(src: string, i: nat, j: nat, line: int, acc: seq<Token>)
    requires i + 2 <= j <= |src| && src[i] == '/' && src[i + 1] == '/'
    requires forall k :: i + 2 <= k < j ==> src[k] != '\n'
    requires j == |src| || src[j] == '\n'
    ensures Scan(src, i, line, acc) == Scan(src, j, line, acc)
  {
  }

  /** A closed block comment produces no tokens: from `/*` to just after
      the first `*/` the scan goes on with the same tokens and the line
      counter advanced by the newlines inside. */
  lemma BlockCommentEmitsNothing(src: string, i: nat, j: nat, line: int, acc: seq<Token>)
    requires i + 4 <= j <= |src| && src[i] == '/' && src[i + 1] == '*'
    requires ClosesAt(src, j - 2)
    requires forall k :: i + 2 <= k < j - 2 ==> !ClosesAt(src, k)
    ensures Scan(src, i, line, acc) == Scan(src, j, line + Newlines(src[i + 2..j - 2]), acc)
  {
    BlockCommentEndSpec(src, i + 2, line);
    var r := BlockCommentEnd(src, i + 2, line);
    assert r.Some?;
  }

  /** Letter runs and digit runs are scanned separately: `x1` is the
      identifier `x` followed by the literal `1`. */
  lemma LettersThenDigits()
    ensures Tokenize("x1") == Lexed([Token(Ident, 1, Some("x")), Token(IntLit, 1, Some("1"))])
  {
    var s := "x1";
    assert AlphaEnd(s, 0) == 1 && s[0..1] == "x" && !IsKeyword("x");
    assert Scan(s, 0, 1, []) == Scan(s, 1, 1, [Token(Ident, 1, Some("x"))]);
    assert DigitEnd(s, 1) == 2 && s[1..2] == "1";
  }

  /** A minus sign before digits is its own token. */
  lemma MinusIsSeparate()
    ensures Tokenize("-7") == Lexed([Plain(Minus, 1), Token(IntLit, 1, Some("7"))])
  {
    var s := "-7";
    assert Scan(s, 0, 1, []) == Scan(s, 1, 1, [Plain(Minus, 1)]);
    assert DigitEnd(s, 1) == 2 && s[1..2] == "7";
  }

  /** A keyword is recognised only as a whole letter run. */
  lemma KeywordPrefixIsIdent()
    ensures Tokenize("exits") == Lexed([Token(Ident, 1, Some("exits"))])
  {
    var s := "exits";
    assert AlphaEnd(s, 0) == 5 && s[0..5] == s;
    assert !IsKeyword(s);
  }

  /** A line comment stops before its newline, which still counts. */
  lemma LineCommentKeepsNewline()
    ensures Tokenize("//a\n;") == Lexed([Plain(Semi, 2)])
  {
    assert LineCommentEnd("//a\n;", 2) == 3;
  }

  /** Newlines inside a block comment advance the line counter. */
  lemma BlockCommentCountsNewlines()
    ensures Tokenize("/*\n*/;") == Lexed([Plain(Semi, 2)])
  {
    assert BlockCommentEnd("/*\n*/;", 2, 1) == Some((5, 2));
  }

  /** A block comment with no closer reads past the end of the input. */
  lemma UnclosedBlockComment()
    ensures Tokenize("/* x") == UnterminatedComment
  {
    assert BlockCommentEnd("/* x", 2, 1) == None;
  }

  /** A character no rule accepts stops the scan at that character. */
  lemma InvalidCharacterStops()
    ensures Tokenize(";@;") == InvalidChar(1, 1)
  {
  }
}
