# A verified model of a three-stage toy compiler

The compiler reads a small language and writes Linux x86-64 assembly. The language has `exit(expr);`, `let x = expr;`, `x = expr;`, blocks `{ ... }` and `if (...) {...} elif (...) {...} else {...}`, with integer literals, identifiers, parentheses and `+ - * /`. It does this in three stages:

1. **Tokenizer** (`Compiler/Tokenization.cpp`, `Compiler/Tokenization.hpp`):
   - one index-driven scan turns the source text into `Token { kind, line, optional value }`;
   - letter runs become keywords or identifiers, and digit runs become literals;
   - `//` and `/* */` comments are skipped;
   - ten punctuation characters each become one token;
   - a line counter counts newlines.
2. **Parser** (`Compiler/Parser.cpp`, `Compiler/Parser.hpp`):
   - recursive descent over the token vector with a cursor `m_index`;
   - expressions use precedence climbing;
   - any syntax error ends the process with "Expected ... on line ...".
3. **Generator** (`Compiler/Generation.cpp`, `Compiler/Generation.hpp`):
   - a walk of the syntax tree that appends assembly to an output stream;
   - it tracks a virtual stack size, a symbol table of `(name, stack_loc)`, a stack of scope watermarks and a label counter.

Each stage is modelled in two layers.

- **Specification functions.** They take the stage's state explicitly:
  - `Lexer.Scan`;
  - `Parser.PTerm` … `Parser.PTop`;
  - `Generation.GTerm` … `Generation.GProg`, over a `GenState` record of the generator's fields.
- **Classes holding the source's mutable state.** Their methods are proved to compute exactly those functions:
  - `Lexer.Tokenizer` holds `m_src` and `m_index`;
  - `Parser.Parser` holds `m_tokens` and `m_index`;
  - `Generation.Generator` holds `m_output`, `m_stack_size`, `m_vars`, `m_scopes` and `m_label_count`.

  Loops stay loops:
  - the tokenizer's scan loop;
  - the `while (true)` of `parse_expr`;
  - the statement loops of `parse_scope`, `parse_prog`, `gen_scope` and `gen_prog`;
  - the pop loop of `end_scope`.

The lemmas in `LexerFacts`, `ParserFacts` and `GenerationFacts` state what the source promises about these functions. `Pipeline` chains the three stages as Compiler/main.cpp does and proves that a tokenized, parsed program never makes the generator read a missing token text. `GenerationExamples` works concrete programs through the generator to show its quirks.

The output stream is modelled as a sequence of `Asm.Line` values. `Asm.Text` gives each line's exact text, and `Asm.Render` concatenates them.

Where the behaviour is odd, the model follows the code:

- An invalid character is reported but never consumed, so the tokenizer loops for ever printing "Invalid token". The model ends the scan there with `InvalidChar`; it does not drop the character and go on.
- An unterminated block comment makes the final `consume()` read past the end, and `std::string::at` throws. The model returns `UnterminatedComment`.
- `if` jumps to its own false label right after its block (`jmp labelN`).
  - Without a successor, it writes that label as `labelN;`, with a semicolon.
  - With an `elif` or `else`, its label is never written at all.
  - An `elif` writes `labelN:` only when a further predicate follows.
  - The end label is written `labelN: `, with a trailing space.
- The assignment store is `mov [rsp<offset>], rax`, without `+`.
- Name lookup takes the earliest table entry. A duplicate `let` only adds a diagnostic and a second entry.
- A reference to an undeclared name dereferences `end()`, which is undefined behaviour. The model returns the error `Undeclared`.
- `m_stack_size` and `stack_loc` are `size_t`. The model keeps them as exact integers and reduces every printed value modulo 2^64, so `let x = x;` prints `QWORD [rsp + 18446744073709551608]`.
- `error_expected` reads `peek(-1)`, the last consumed token. With nothing consumed, that `.value()` throws. The model's error then has no line (`line == None`).

## Model

| member | source | states |
|---|---|---|
| Tokens.AllKindsComplete | Compiler/Tokenization.hpp:18-37 | every token kind is in the list of kinds |
| Tokens.SeventeenKinds | Compiler/Tokenization.hpp:18-37 | there are exactly 17 kinds, pairwise distinct |
| Tokens.ToString | Compiler/Tokenization.hpp:61-100 | `to_string` is total (non-empty for every kind); the result is quoted iff the kind is a keyword or punctuation kind |
| Tokens.ToStringQuotesLexeme | Compiler/Tokenization.hpp:63-97 | keyword and punctuation kinds give their lexeme in single quotes; the payload kinds give "integer literal" and "identifier" |
| Tokens.ToStringInjective | Compiler/Tokenization.hpp:63-97 | distinct kinds have distinct spellings |
| Lexer.AlphaEnd | Compiler/Tokenization.cpp:21-27 | a letter run is maximal: all letters up to the end, and the next character (if any) is not a letter |
| Lexer.DigitEnd | Compiler/Tokenization.cpp:59-65 | a digit run is maximal in the same way |
| Lexer.LineCommentEnd | Compiler/Tokenization.cpp:70-78 | a line comment stops at the first newline, which it leaves unconsumed, or at the end |
| Lexer.BlockCommentEndSpec | Compiler/Tokenization.cpp:79-100 | a block comment ends just after the first `*/`, and the line counter advances by exactly the newlines inside it; it is unterminated iff no `*/` follows |
| Lexer.PunctKind | Compiler/Tokenization.cpp:101-150 | each of the ten characters `( ) ; = + * - / { }` maps to the kind whose lexeme it is; any other character maps to none |
| Lexer.WordToken | Compiler/Tokenization.cpp:28-57 | the five keywords give their kind with no payload; any other run gives an identifier carrying the run; the token is stamped with the current line |
| Lexer.Tokenizer.constructor | Compiler/Tokenization.hpp:49-58 | a fresh tokenizer holds the source at index 0 |
| Lexer.Tokenizer.Consume | Compiler/Tokenization.cpp:182-187 | returns the character at the index and advances by one |
| Lexer.Tokenizer.ReadWord | Compiler/Tokenization.cpp:21-27 | consumes exactly the maximal letter run and returns it |
| Lexer.Tokenizer.ReadNumber | Compiler/Tokenization.cpp:59-65 | consumes exactly the maximal digit run and returns it |
| Lexer.Tokenizer.SkipLineComment | Compiler/Tokenization.cpp:70-78 | consumes up to, not including, the next newline |
| Lexer.Tokenizer.SkipBlockComment | Compiler/Tokenization.cpp:79-100 | consumes the comment and counts its newlines as the specification says, or reports that it reads past the end |
| Lexer.Tokenizer.StepRun | Compiler/Tokenization.cpp:21-69 | one loop iteration at a letter or digit makes progress and leaves the rest of the scan unchanged |
| Lexer.Tokenizer.StepOther | Compiler/Tokenization.cpp:70-163 | one loop iteration at any other character either ends the scan with its error or makes progress, leaving the rest of the scan unchanged |
| Lexer.Tokenizer.Tokenize | Compiler/Tokenization.cpp:13-168 | returns exactly `Scan` of the source from the index with line 1, and on success resets the index to 0, so running it again gives the same tokens |
| LexerFacts.ScanWellFormed | Compiler/Tokenization.cpp:21-150 | every token the scan emits is well formed: identifiers carry a non-empty non-keyword letter run, literals a non-empty digit run (no sign), all other kinds no payload |
| LexerFacts.TokenizeWellFormed | Compiler/Tokenization.cpp:13-168 | the same for the whole scan from the start |
| LexerFacts.ScanStepLines | Compiler/Tokenization.cpp:19-163 | each iteration keeps the line counter equal to 1 plus the newlines read so far, with token lines ordered and bounded |
| LexerFacts.ScanLines | Compiler/Tokenization.cpp:17-163 | the scan keeps the line counter equal to 1 plus the newlines read, whether between tokens or in block comments, so token lines never decrease and stay within 1 .. 1 + newlines |
| LexerFacts.TokenizeLines | Compiler/Tokenization.cpp:17-167 | the tokens of a successful run have non-decreasing lines, all between 1 and 1 plus the source's newlines |
| LexerFacts.BlankEmitsNothing | Compiler/Tokenization.cpp:151-159 | whitespace emits no tokens |
| LexerFacts.LineCommentEmitsNothing | Compiler/Tokenization.cpp:70-78 | from `//` up to the next newline (left in place) or the end, the scan goes on with the same tokens and the same line counter |
| LexerFacts.BlockCommentEmitsNothing | Compiler/Tokenization.cpp:79-100 | from `/*` to just after the first `*/`, the scan goes on with the same tokens and the line counter advanced by exactly the newlines inside |
| LexerFacts.LettersThenDigits | Compiler/Tokenization.cpp:21-69 | `x1` is the identifier `x` then the literal `1` |
| LexerFacts.MinusIsSeparate | Compiler/Tokenization.cpp:131-135 | `-7` is a `minus` token then the literal `7` |
| LexerFacts.KeywordPrefixIsIdent | Compiler/Tokenization.cpp:28-57 | `exits` is an identifier, not `exit` |
| LexerFacts.LineCommentKeepsNewline | Compiler/Tokenization.cpp:70-78 | after `//a`, the newline still advances the line |
| LexerFacts.BlockCommentCountsNewlines | Compiler/Tokenization.cpp:89-92 | a newline inside `/* */` advances the line |
| LexerFacts.UnclosedBlockComment | Compiler/Tokenization.cpp:95-99 | `/* x` reads past the end |
| LexerFacts.InvalidCharacterStops | Compiler/Tokenization.cpp:160-163 | `@` stops the scan at its position, since it is never consumed |
| Parser.BinPrec | Compiler/Parser.cpp:10-23 | `+` and `-` have precedence 0, `*` and `/` precedence 1, all other kinds none |
| Parser.MakeBin | Compiler/Parser.cpp:106-142 | the node for an operator keeps the left and right operands in place |
| Parser.PTerm | Compiler/Parser.cpp:28-64 | a term matches iff the next token is an integer literal, an identifier or `(`; a match consumes at least one token; over payloaded tokens (every literal and identifier carrying its text) the node it builds carries the text of every such token in it |
| Parser.PExpr | Compiler/Parser.cpp:66-146 | an expression matches iff a term starts; it stops at the first token that is not an operator or binds more loosely than the minimum, or at the end; over payloaded tokens (every literal and identifier carrying its text) the node it builds carries the text of every such token in it |
| Parser.PExprLoop | Compiler/Parser.cpp:77-144 | the operator loop never declines; it stops where the minimum precedence says, and returns the left side unchanged when it consumes nothing; over payloaded tokens, from an accumulated part carrying its text, the result carries its text |
| Parser.PScope | Compiler/Parser.cpp:148-162 | a scope matches iff the next token is `{`; over payloaded tokens (every literal and identifier carrying its text) the node it builds carries the text of every such token in it |
| Parser.PStmts | Compiler/Parser.cpp:156-159 | the statement loop stops at a position where no statement starts; over payloaded tokens, from an accumulated part carrying its text, the result carries its text |
| Parser.PIfPred | Compiler/Parser.cpp:164-208 | a predicate matches iff the next token is `elif` or `else`; an `else` without a block is fatal; over payloaded tokens (every literal and identifier carrying its text) the node it builds carries the text of every such token in it |
| Parser.PCondTail | Compiler/Parser.cpp:168-190 | after `if` or `elif`, a `(`, an expression, `)` and a block are required (fatal otherwise), then an optional predicate; over payloaded tokens (every literal and identifier carrying its text) the node it builds carries the text of every such token in it |
| Parser.PExitTail | Compiler/Parser.cpp:219-228 | after `exit (`, an expression, `)` and `;` are required; over payloaded tokens (every literal and identifier carrying its text) the node it builds carries the text of every such token in it |
| Parser.PExprSemi | Compiler/Parser.cpp:242-252 | an expression followed by `;` is required; over payloaded tokens (every literal and identifier carrying its text) the node it builds carries the text of every such token in it |
| Parser.PStmt | Compiler/Parser.cpp:210-319 | a statement matches iff the lookahead is `exit (`, `let ident =`, `ident =`, `{` or `if`; a match consumes at least one token; over payloaded tokens (every literal and identifier carrying its text) the node it builds carries the text of every such token in it |
| Parser.PTop | Compiler/Parser.cpp:324-334 | over payloaded tokens, from statements carrying their text, the statements `parse_prog` collects carry their text |
| Parser.ParseProgram | Compiler/Parser.cpp:321-337 | over payloaded tokens, every program `parse_prog` returns carries the text of its literals and identifiers |
| Parser.Parser.constructor | Compiler/Parser.hpp:132-153 | a fresh parser holds the token vector with the cursor at 0 |
| Parser.Parser.Consume | Compiler/Parser.cpp:351-354 | returns the token at the cursor and advances by one |
| Parser.Parser.TryConsume | Compiler/Parser.cpp:369-379 | consumes and returns the next token exactly when it has the kind; otherwise nothing changes |
| Parser.Parser.TryConsumeErr | Compiler/Parser.cpp:356-367 | as `TryConsume`, but a mismatch is the fatal `Expect` error and consumes nothing |
| Parser.Parser.ParseTerm | Compiler/Parser.cpp:28-64 | computes `PTerm` at the cursor and leaves the cursor after the match (unmoved on no match) |
| Parser.Parser.ParseExpr | Compiler/Parser.cpp:66-146 | computes `PExpr` at the cursor with its `while (true)` loop |
| Parser.Parser.ParseScope | Compiler/Parser.cpp:148-162 | computes `PScope` at the cursor |
| Parser.Parser.ParseIfPred | Compiler/Parser.cpp:164-208 | computes `PIfPred` at the cursor |
| Parser.Parser.ParseCondTail | Compiler/Parser.cpp:293-312 | computes `PCondTail` at the cursor |
| Parser.Parser.ParseExitTail | Compiler/Parser.cpp:219-228 | computes `PExitTail` at the cursor |
| Parser.Parser.ParseExprSemi | Compiler/Parser.cpp:264-272 | computes `PExprSemi` at the cursor |
| Parser.Parser.ParseLet | Compiler/Parser.cpp:234-258 | the `let` branch computes `PStmt` at the cursor |
| Parser.Parser.ParseAssign | Compiler/Parser.cpp:259-277 | the assignment branch computes `PStmt` at the cursor |
| Parser.Parser.ParseStmt | Compiler/Parser.cpp:210-319 | computes `PStmt` at the cursor |
| Parser.Parser.ParseProg | Compiler/Parser.cpp:321-337 | from cursor 0, returns `ParseProgram` of the tokens; on success the cursor is reset to 0 |
| ParserFacts.AtomTerm | Compiler/Parser.cpp:30-45 | a literal or identifier token is a whole term of one token |
| ParserFacts.LoopStep | Compiler/Parser.cpp:94-143 | inside a chain of one precedence, each operator takes just the next atom as its right operand |
| ParserFacts.LoopFoldsLeft | Compiler/Parser.cpp:77-145 | over a chain of operators of one precedence, the loop builds the left fold and stops where the chain ends |
| ParserFacts.SamePrecedenceFoldsLeft | Compiler/Parser.cpp:66-146 | `a1 o1 a2 ... on an+1` with operators of one precedence parses to `((a1 o1 a2) ...) on an+1` |
| ParserFacts.ThreeOperands | Compiler/Parser.cpp:84-96 | `a o1 b o2 c` nests left when `o1` binds at least as tightly as `o2`, and right otherwise |
| ParserFacts.SubtractionIsLeftAssociative | Compiler/Parser.cpp:94-143 | `8 - 3 - 2` is `Sub(Sub(8, 3), 2)` |
| ParserFacts.ProductBindsRight | Compiler/Parser.cpp:84-96 | `1 + 2 * 3` is `Add(1, Multi(2, 3))` |
| ParserFacts.ProductBindsLeft | Compiler/Parser.cpp:84-96 | `2 * 3 + 1` is `Add(Multi(2, 3), 1)` |
| ParserFacts.TopTiles | Compiler/Parser.cpp:321-337 | a successful top-level loop cuts the remaining tokens into consecutive statements that reach exactly the end |
| ParserFacts.TilesTop | Compiler/Parser.cpp:321-337 | conversely, tokens cut into consecutive statements reaching the end parse to exactly those statements |
| ParserFacts.ParseProgramTiles | Compiler/Parser.cpp:321-337 | `parse_prog` succeeds with statements S iff the whole token vector is S's statements back to back |
| Numerals.NatToString | Compiler/Generation.cpp:32 | a number prints as at least one decimal digit, and as at least two from 10 on |
| Numerals.ValueOfNatToString | Compiler/Generation.cpp:32 | reading the printed digits back gives the number |
| Numerals.NatToStringInjective | Compiler/Generation.cpp:269 | distinct numbers print differently |
| Asm.LabelName | Compiler/Generation.cpp:266-271 | a label's text is "label" followed by the number |
| Asm.LabelNameInjective | Compiler/Generation.cpp:266-271 | labels drawn as different numbers have different text |
| Asm.JoinAppend | Compiler/Generation.cpp:221-233 | concatenation of the written strings distributes over appending |
| Asm.RenderAppend | Compiler/Generation.cpp:221-233 | the stream's content after two batches of writes is the first batch's text then the second's |
| Asm.RenderSingle | Compiler/Generation.cpp:221-233 | one written line's content is its text |
| Generation.FindFrom | Compiler/Generation.cpp:25 | the first entry at or after `i` with the name, or none iff there is none |
| Generation.FindVar | Compiler/Generation.cpp:25 | `find_if` finds the earliest entry with the name, and none iff the name is absent |
| Generation.Offset | Compiler/Generation.cpp:32 | the `size_t` offset is below 2^64 |
| Generation.GTerm | Compiler/Generation.cpp:13-43 | a term adds exactly one slot to the stack and leaves the table, the scopes, the label counter and the diagnostics alone; output only grows; on a tree carrying the text of its tokens, the only way it fails is an undeclared name |
| Generation.GBinExpr | Compiler/Generation.cpp:45-90 | a binary expression nets +1 on the stack and changes nothing else but the output, which only grows; on a tree carrying the text of its tokens, the only way it fails is an undeclared name |
| Generation.GExpr | Compiler/Generation.cpp:92-110 | every expression nets +1 on the stack and leaves the table, scopes, label counter and diagnostics unchanged; on a tree carrying the text of its tokens, the only way it fails is an undeclared name |
| Generation.GScope | Compiler/Generation.cpp:112-120 | a scope leaves the stack size, the table and the scope stack as it found them; on a tree carrying the text of its tokens, the only way it fails is an undeclared name |
| Generation.GStmts | Compiler/Generation.cpp:115-118 | a statement sequence keeps the scopes, only extends the table, and grows the stack by exactly the entries it adds; on a tree carrying the text of its tokens, the only way it fails is an undeclared name |
| Generation.GIfPred | Compiler/Generation.cpp:122-152 | an `elif` or `else` chain leaves the stack, table and scopes unchanged; on a tree carrying the text of its tokens, the only way it fails is an undeclared name |
| Generation.GIf | Compiler/Generation.cpp:183-203 | an `if` leaves the stack, table and scopes unchanged and draws at least one label; on a tree carrying the text of its tokens, the only way it fails is an undeclared name |
| Generation.GStmt | Compiler/Generation.cpp:154-219 | `let` adds exactly one entry, the name at the stack size before its initialiser, even when the name is already present, and nets +1; its only other effect on the diagnostics is one "already used" entry exactly when the name was in the table; `exit`, assignment, scopes and `if` leave the stack and the table unchanged; on a tree carrying the text of its tokens, the only way it fails is an undeclared name |
| Generation.GProg | Compiler/Generation.cpp:221-235 | on a program carrying the text of its tokens, `gen_prog` fails only on an undeclared name |
| Generation.GenProgram | Compiler/Generation.cpp:221-235 | the same for the returned string |
| Generation.Generator.constructor | Compiler/Generation.hpp:40-45 | a new generator has stack size 0, label count 0, empty table and scopes, and holds the program |
| Generation.Generator.Emit | Compiler/Generation.cpp:20 | a write appends one line to the output |
| Generation.Generator.Push | Compiler/Generation.cpp:237-241 | appends one `push` line and adds 1 to the stack size |
| Generation.Generator.Pop | Compiler/Generation.cpp:243-247 | appends one `pop` line and takes 1 from the stack size |
| Generation.Generator.BeginScope | Compiler/Generation.cpp:249-252 | records the table size as a new watermark |
| Generation.Generator.EndScope | Compiler/Generation.cpp:254-264 | one `add rsp, n*8`, the stack size down by n, exactly the n entries added since the watermark dropped, and the watermark popped |
| Generation.Generator.CreateLabel | Compiler/Generation.cpp:266-271 | returns the counter's value and increments it |
| Generation.Generator.GenTerm | Compiler/Generation.cpp:13-43 | leaves the fields as `GTerm` says, or returns its error |
| Generation.Generator.GenBinExpr | Compiler/Generation.cpp:45-90 | leaves the fields as `GBinExpr` says, or returns its error |
| Generation.Generator.GenExpr | Compiler/Generation.cpp:92-110 | leaves the fields as `GExpr` says, or returns its error |
| Generation.Generator.GenScope | Compiler/Generation.cpp:112-120 | leaves the fields as `GScope` says, or returns its error |
| Generation.Generator.GenIfPred | Compiler/Generation.cpp:122-152 | leaves the fields as `GIfPred` says, or returns its error |
| Generation.Generator.GenStmt | Compiler/Generation.cpp:154-219 | leaves the fields as `GStmt` says, or returns its error |
| Generation.Generator.GenIf | Compiler/Generation.cpp:183-203 | leaves the fields as `GIf` says, or returns its error |
| Generation.Generator.GenProg | Compiler/Generation.cpp:221-235 | returns `GenProgram` of the initial fields and the program |
| GenerationFacts.IntLitTermShape | Compiler/Generation.cpp:18-22 | a literal writes `mov rax, <text>` and `push rax` and adds one to the stack size, nothing else; without its text it fails with `MissingValue` |
| GenerationFacts.IdentTermShape | Compiler/Generation.cpp:23-34 | an identifier pushes `QWORD [rsp + (m_stack_size - stack_loc - 1) * 8]` of the earliest entry with its name and adds one to the stack size, nothing else; a name not in the table is `Undeclared` |
| GenerationFacts.BinExprShape | Compiler/Generation.cpp:50-85 | the right operand is generated first and the left one after it; then `pop rax`, `pop rbx`, one `add`/`sub`/`mul`/`div` line for the operator and `push rax`; a failure of either operand is the result, the right one's first |
| GenerationFacts.StmtKeepsLayout | Compiler/Generation.cpp:154-219 | if the stack holds exactly the variables, the i-th in slot i, a statement keeps it so |
| GenerationFacts.StmtsKeepLayout | Compiler/Generation.cpp:115-118 | the same for a sequence of statements |
| GenerationFacts.TopLevelLayout | Compiler/Generation.cpp:225-228 | between top-level statements, the stack size equals the table size and entry i has location i |
| GenerationFacts.OffsetNoWrap | Compiler/Generation.cpp:32 | while the slot is on the stack, the printed offset is the byte distance `(m_stack_size - stack_loc - 1) * 8` with no wrap-around |
| GenerationFacts.DefsExtend | Compiler/Generation.cpp:221-233 | label definitions in an extended output come from the old part or the new part |
| GenerationFacts.TermDefinesNone | Compiler/Generation.cpp:13-43 | a term defines no label |
| GenerationFacts.BinExprDefinesNone | Compiler/Generation.cpp:45-90 | a binary expression defines no label |
| GenerationFacts.ExprDefinesNone | Compiler/Generation.cpp:92-110 | an expression defines no label |
| GenerationFacts.StmtDefinesOwn | Compiler/Generation.cpp:154-219 | every label a statement defines was drawn while generating it |
| GenerationFacts.IfDefinesOwn | Compiler/Generation.cpp:183-203 | every label an `if` defines was drawn while generating it |
| GenerationFacts.IfHeadSucceeds | Compiler/Generation.cpp:185-191 | an `if` that is generated has its condition and its block generated |
| GenerationFacts.IfHeadDefinesOwn | Compiler/Generation.cpp:185-191 | up to its jump after the block, an `if` draws its own label first, jumps to it with `jz`, and defines only labels drawn later |
| GenerationFacts.ScopeDefinesOwn | Compiler/Generation.cpp:112-120 | every label a scope defines was drawn inside it |
| GenerationFacts.StmtsDefineOwn | Compiler/Generation.cpp:115-118 | every label a statement sequence defines was drawn inside it |
| GenerationFacts.IfPredDefinesOwn | Compiler/Generation.cpp:122-152 | every label an `elif` or `else` chain defines was drawn inside it, so never the end label it jumps to |
| GenerationFacts.IfWithSuccessorShape | Compiler/Generation.cpp:183-198 | an `if` with a successor is its head, a fresh end label and a jump to it, the chain, then the end label |
| GenerationFacts.ChainLeavesLabelUndefined | Compiler/Generation.cpp:192-198 | with a successor, the `if`'s own label is jumped to but defined nowhere in the code that follows |
| GenerationFacts.IfWithSuccessorLeavesLabelUndefined | Compiler/Generation.cpp:183-203 | an `if` followed by `elif` or `else` emits `jz` to its own label but never defines that label |
| GenerationFacts.IfWithoutSuccessorEndsWithLabel | Compiler/Generation.cpp:199-202 | without a successor, the `if` jumps to its label and its last line is `label;` |
| GenerationFacts.LastElifLeavesLabelUndefined | Compiler/Generation.cpp:128-142 | an `elif` ending the chain jumps to its own label but never defines it |
| GenerationFacts.TrailerLines | Compiler/Generation.cpp:230-232 | the three trailer lines have the exact texts `mov rax, 60`, `mov rdi, 0`, `syscall` (the last without newline) |
| GenerationFacts.RenderThree | Compiler/Generation.cpp:230-232 | three written lines give their texts in order |
| GenerationFacts.TrailerText | Compiler/Generation.cpp:230-232 | the trailer text is exactly `    mov rax, 60\n    mov rdi, 0\n    syscall` |
| GenerationFacts.ProgramFraming | Compiler/Generation.cpp:221-235 | the program text starts with the earlier stream content plus `global _start\n_start:\n` and, whatever the statements, ends with the exit trailer |
| GenerationExamples.FirstLet | Compiler/Generation.cpp:167-176 | `let x = 1;` on a fresh generator enters `x` at location 0 and pushes the literal |
| GenerationExamples.SecondLet | Compiler/Generation.cpp:169-174 | a second `let x = 2;` adds a diagnostic and a second entry at location 1 |
| GenerationExamples.DuplicateNameReadsEarliest | Compiler/Generation.cpp:25-33 | after two `let x`, `exit(x)` reads the first entry's slot, `QWORD [rsp + 8]` |
| GenerationExamples.SelfReferenceWraps | Compiler/Generation.cpp:25-33 | `let x = x;` finds the entry just added, and the `size_t` offset wraps to 2^64 - 8 |
| GenerationExamples.StoreWithoutPlus | Compiler/Generation.cpp:204-214 | `let x = 1; x = 2;` ends with the store at offset 0 |
| GenerationExamples.ScopedNameIsGone | Compiler/Generation.cpp:254-264 | a name declared in a block is undeclared after the block |
| GenerationExamples.IfWithoutElseText | Compiler/Generation.cpp:183-202 | `if (1) {}` gives `jz label0`, the empty block, `jmp label0`, `label0;` |
| GenerationExamples.IfElseText | Compiler/Generation.cpp:183-198 | `if (1) {} else {}` jumps twice to `label0` without defining it, then jumps to `label1`, runs the else block and ends with `label1: ` |
| GenerationExamples.QuirkTexts | Compiler/Generation.cpp:197-213 | exact texts: the store is `mov [rsp0], rax`, the lone `if` label is `label0;`, the end label is `label1: ` |
| Pipeline.Run | Compiler/main.cpp:36-48 | building the tokenizer, the parser and the generator in turn computes exactly `Compile` of the contents |
| Pipeline.WellFormedPayloaded | Compiler/Tokenization.cpp:21-65 | the tokens the tokenizer forms carry the text of every literal and identifier |
| Pipeline.GenerationFailsOnlyOnUndeclared | Compiler/main.cpp:36-48 | on any contents, a run that gets through tokenizing and parsing never hits a `.value()` on a token without text: the generator fails only on an undeclared name |
| Pipeline.CompiledTextFraming | Compiler/main.cpp:45-48 | the text written for a compiled file starts with the `_start` prologue and ends with the exit trailer |

## Left out

- The I/O of Compiler/main.cpp is left out: reading the file name from standard input, the `.newton` suffix check (which only prints), reading the file and writing `out.asm`. `Pipeline.Compile` starts from the file's contents and ends with the text that would be written.
- The "Invalid Program" branch of Compiler/main.cpp:42-43 is not modelled: `parse_prog` never returns an empty optional, since every parse error ends the process first.
- Compiler/Arena.hpp and Compiler/Arena.cpp are not part of this model. The syntax tree is plain datatypes, and the order in which nodes were allocated cannot be observed.
- Writing to `std::cerr` and ending the process with `exit(1)` are not modelled as effects:
  - parse errors become `Fatal` or `Failure` values carrying the message and line;
  - the generator's "Identifier already used" report becomes a `Diagnostic` entry;
  - the tokenizer's "Invalid token" loop becomes the `InvalidChar` result.
- Lexer.Tokenizer.Tokenize returns `InvalidChar` where the source loops for ever without progress. Non-termination is not modelled.
- Generation.GStmt reports `Undeclared` for an assignment to an unknown name before generating the assigned expression. The source prints its report, generates the expression and only then dereferences the end iterator. After that, its behaviour is undefined, so no output after that point is modelled.
- After any error the model's state is not specified further. In the source, the process has ended or the behaviour is undefined.
- The runtime meaning of the emitted assembly is not modelled. The compiler only writes text, so the model stops at the emitted lines. This covers exit statuses, 64-bit arithmetic, and `mul`/`div` semantics.
- LexerFacts.ScanLines: the tokenizer's `line_count` and `Token.line` are `int`. Once a source has more than 2^31 - 2 newlines, `line_count++` overflows, which is undefined behaviour. The model counts lines as unbounded integers, so `ScanLines` and `TokenizeLines` (token lines never decrease, and stay between 1 and 1 plus the newlines) hold only for sources below that size.
- `m_label_count` is an `int`. Its overflow after 2^31 labels is not modelled: labels are unbounded naturals.
- `isalpha`, `isdigit` and `isspace` are the ASCII classes, with no locale.
- `parse_bin_expr` is declared in Compiler/Parser.hpp:135 but never defined, so there is nothing to model.
- `peek` takes a signed offset in the source. The only negative offset used is `peek(-1)` in `error_expected`, which `Parser.ErrorAt` covers directly, so the model's `Peek` takes a natural number.
