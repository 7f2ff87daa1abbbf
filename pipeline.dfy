/** The driver (Compiler/main.cpp): the file's contents go through the
    tokenizer, the parser and the generator in turn, and the generated text
    is what is written to the output file. Reading the file name and the
    file, and writing the result, are left to the caller; `Compile` is the
    path from the contents to the text, with each stage's way of stopping
    made a value. */
module Pipeline {
  import opened Wrappers
  import opened Tokens
  import opened Ast
  import opened Lexer
  import opened LexerFacts
  import opened Parser
  import opened Asm
  import opened Generation
  import opened GenerationFacts

  /** Where the compilation of a file ends: the tokenizer stuck on a
      character or an unclosed block comment, a parse error, a generator
      error, or the assembly text. */
  datatype Compilation =
    | LexStuck(at: nat, line: int)
    | CommentUnclosed
    | ParseFailed(parseError: ParseError)
    | GenFailed(genError: GenError)
    | Assembled(text: string)

  /** `tokenize`, then `parse_prog`, then `gen_prog` on a fresh generator. */
  function Compile(src: string): Compilation
  {
    match Tokenize(src)
    case InvalidChar(at, line) => LexStuck(at, line)
    case UnterminatedComment => CommentUnclosed
    case Lexed(toks) =>
      match ParseProgram(toks)
      case Failure(e) => ParseFailed(e)
      case Success(prog) =>
        match GenProgram(Init, prog)
        case Failure(e) => GenFailed(e)
        case Success(text) => Assembled(text)
  }

  /** The three objects of `main`, each built on the previous one's result. */
  method Run(src: string) returns (c: Compilation)
    ensures c == Compile(src)
  {
    var tokenizer := new Tokenizer(src);
    var lexed := tokenizer.Tokenize();
    match lexed {
      case InvalidChar(at, line) => return LexStuck(at, line);
      case UnterminatedComment => return CommentUnclosed;
      case Lexed(toks) =>
        var parser := new Parser(toks);
        var parsed := parser.ParseProg();
        if parsed.Failure? {
          return ParseFailed(parsed.error);
        }
        var generator := new Generator(parsed.value);
        var text := generator.GenProg();
        if text.Failure? {
          return GenFailed(text.error);
        }
        return Assembled(text.value);
    }
  }

  /** Well-formed tokens carry the text of every literal and identifier. */
  lemma WellFormedPayloaded(toks: seq<Token>)
    requires forall k :: 0 <= k < |toks| ==> WellFormed(toks[k])
    ensures Payloaded(toks)
  {
    forall k | 0 <= k < |toks| && (toks[k].kind == IntLit || toks[k].kind == Ident)
      ensures toks[k].value.Some?
    {
      assert WellFormed(toks[k]);
    }
  }

  /** No `.value()` of the generator ever finds a token without its text:
      the tokenizer gives every literal and identifier its text, the parser
      keeps exactly those tokens where the generator reads one, so the only
      way generation fails on a tokenized and parsed file is an undeclared
      identifier. */
  lemma GenerationFailsOnlyOnUndeclared(src: string)
    ensures Compile(src).GenFailed? ==> Compile(src).genError.Undeclared?
  {
    TokenizeWellFormed(src);
    if Tokenize(src).Lexed? {
      WellFormedPayloaded(Tokenize(src).tokens);
    }
  }

  /** A file that compiles gives a text that opens with the `_start`
      prologue and ends with the exit-with-status-0 trailer. */
  lemma CompiledTextFraming(src: string)
    ensures Compile(src).Assembled? ==>
      var v := Compile(src).text;
      Prologue <= v && |v| >= |Trailer| && v[|v| - |Trailer|..] == Trailer
  {
    if Compile(src).Assembled? {
      var prog := ParseProgram(Tokenize(src).tokens).value;
      ProgramFraming(Init, prog);
      assert Render(Init.output) == "";
    }
  }
}
