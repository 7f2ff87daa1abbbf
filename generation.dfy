/** The code generator (Compiler/Generation.cpp, Compiler/Generation.hpp): a
    stateful walk of the syntax tree that appends x86-64 assembly to an
    output stream while tracking the virtual stack.

    `GenState` holds the generator's fields. The functions `GTerm`,
    `GBinExpr`, `GExpr`, `GScope`, `GStmts`, `GIfPred`, `GStmt` and `GProg`
    say what each `gen_*` member does to them; the class `Generator` keeps
    the fields as mutable state and its methods are proved to compute these
    functions.

    The stack counter and the stack locations are `size_t` in the source.
    Here they are exact integers, and every value the source prints from
    them is reduced modulo 2^64, which is what the unsigned arithmetic
    prints. A `.value()` on a token without payload throws in the source
    and is `MissingValue` here; a reference to an undeclared name
    dereferences the end iterator, undefined behaviour, and is
    `Undeclared` here. */
module Generation {
  import opened Wrappers
  import opened Tokens
  import opened Ast
  import opened Asm

  /** 2^64, the modulus of `size_t` arithmetic. */
  const Word: int := 0x1_0000_0000_0000_0000

  /** A symbol-table entry: the name and the stack size at its `let`. */
  datatype Var = Var(name: string, stackLoc: int)

  /** What the generator reports on the error stream and then carries on
      from: a `let` of a name already in the table. */
  datatype Diagnostic = AlreadyUsed(name: string)

  datatype GenError = Undeclared(name: string) | MissingValue

  /** The generator's mutable fields: the lines written to `m_output`,
      `m_stack_size`, `m_vars`, `m_scopes` (the table size at each open
      scope), `m_label_count`, and the diagnostics written so far. */
  datatype GenState = GenState(
    output: seq<Line>,
    stackSize: int,
    vars: seq<Var>,
    scopes: seq<nat>,
    labelCount: nat,
    diagnostics: seq<Diagnostic>)

  /** A freshly constructed generator. */
  const Init := GenState([], 0, [], [], 0, [])

  /** `std::find_if` over the table from index `i`: the first entry with
      the name. */
  function FindFrom(vars: seq<Var>, name: string, i: nat): (r: Option<nat>)
    requires i <= |vars|
    ensures r.Some? ==> (i <= r.value < |vars| && vars[r.value].name == name
      && forall k :: i <= k < r.value ==> vars[k].name != name)
    ensures r.None? ==> forall k :: i <= k < |vars| ==> vars[k].name != name
    decreases |vars| - i
  {
    if i == |vars| then None
    else if vars[i].name == name then Some(i)
    else FindFrom(vars, name, i + 1)
  }

  /** The index of the earliest entry for `name`, if any. */
  function FindVar(vars: seq<Var>, name: string): (r: Option<nat>)
    ensures r.Some? ==> (r.value < |vars| && vars[r.value].name == name
      && forall k :: 0 <= k < r.value ==> vars[k].name != name)
    ensures r.None? <==> forall k :: 0 <= k < |vars| ==> vars[k].name != name
  {
    FindFrom(vars, name, 0)
  }

  /** The byte offset `(m_stack_size - stack_loc - 1) * 8` as `size_t`
      arithmetic computes it. */
  function Offset(stackSize: int, loc: int): (k: nat)
    ensures k < Word
  {
    ((stackSize - loc - 1) * 8) % Word
  }

  /** The payload a generator member reads with `.value()`. */
  function TokenText(t: Token): (r: Result<string, GenError>)
    ensures r.Success? <==> t.value.Some?
    ensures r.Success? ==> r.value == t.value.value
    ensures r.Failure? ==> r.error == MissingValue
  {
    if t.value.Some? then Success(t.value.value) else Failure(MissingValue)
  }

  function GEmit(g: GenState, l: Line): GenState
  {
    g.(output := g.output + [l])
  }

  function GPush(g: GenState, o: Operand): GenState
  {
    g.(output := g.output + [Push(o)], stackSize := g.stackSize + 1)
  }

  function GPop(g: GenState, r: Reg): GenState
  {
    g.(output := g.output + [Pop(r)], stackSize := g.stackSize - 1)
  }

  function GBeginScope(g: GenState): GenState
  {
    g.(scopes := g.scopes + [|g.vars|])
  }

  /** `end_scope`: releases the variables declared since the innermost
      `begin_scope` with one `add rsp`, and closes that scope. The source
      reads `m_scopes.back()`, so a scope must be open, and its mark is
      never above the table size. */
  function GEndScope(g: GenState): GenState
    requires |g.scopes| > 0 && g.scopes[|g.scopes| - 1] <= |g.vars|
  {
    var mark := g.scopes[|g.scopes| - 1];
    var popCount := |g.vars| - mark;
    g.(output := g.output + [AddRsp((popCount * 8) % Word)],
       stackSize := g.stackSize - popCount,
       vars := g.vars[..mark],
       scopes := g.scopes[..|g.scopes| - 1])
  }

  /** `create_label`: the state with the counter advanced, and the number
      drawn. */
  function GCreateLabel(g: GenState): (GenState, nat)
  {
    (g.(labelCount := g.labelCount + 1), g.labelCount)
  }

  function GTerm(g: GenState, t: Term): (r: Result<GenState, GenError>)
    ensures r.Success? ==> (r.value.stackSize == g.stackSize + 1
      && r.value.vars == g.vars && r.value.scopes == g.scopes)
    ensures r.Success? ==> (g.output <= r.value.output
      && r.value.labelCount == g.labelCount && r.value.diagnostics == g.diagnostics)
    ensures TermHasText(t) && r.Failure? ==> r.error.Undeclared?
    decreases t
  {
    match t
    case IntLitTerm(tok) =>
      var lit :- TokenText(tok);
      Success(GPush(GEmit(g, Mov(Rax, lit)), RegOp(Rax)))
    case IdentTerm(tok) =>
      var name :- TokenText(tok);
      (match FindVar(g.vars, name)
       case None => Failure(Undeclared(name))
       case Some(k) => Success(GPush(g, Slot(Offset(g.stackSize, g.vars[k].stackLoc)))))
    case ParenTerm(e) => GExpr(g, e)
  }

  /** Right operand first, then left; pop the left into rax and the right
      into rbx, combine, push rax. */
  function GBinExpr(g: GenState, b: BinExpr): (r: Result<GenState, GenError>)
    ensures r.Success? ==> (r.value.stackSize == g.stackSize + 1
      && r.value.vars == g.vars && r.value.scopes == g.scopes)
    ensures r.Success? ==> (g.output <= r.value.output
      && r.value.labelCount == g.labelCount && r.value.diagnostics == g.diagnostics)
    ensures BinHasText(b) && r.Failure? ==> r.error.Undeclared?
    decreases b
  {
    var g1 :- GExpr(g, b.rhs);
    var g2 :- GExpr(g1, b.lhs);
    Success(GPush(GEmit(GPop(GPop(g2, Rax), Rbx), Arith(OpOf(b))), RegOp(Rax)))
  }

  /** The instruction a binary node becomes: `add`, `sub`, `mul` or `div`. */
  function OpOf(b: BinExpr): ArithOp
  {
    match b
    case Add(_, _) => AddOp
    case Sub(_, _) => SubOp
    case Multi(_, _) => MulOp
    case Div(_, _) => DivOp
  }

  function GExpr(g: GenState, e: Expr): (r: Result<GenState, GenError>)
    ensures r.Success? ==> (r.value.stackSize == g.stackSize + 1
      && r.value.vars == g.vars && r.value.scopes == g.scopes)
    ensures r.Success? ==> (g.output <= r.value.output
      && r.value.labelCount == g.labelCount && r.value.diagnostics == g.diagnostics)
    ensures ExprHasText(e) && r.Failure? ==> r.error.Undeclared?
    decreases e
  {
    match e
    case TermExpr(t) => GTerm(g, t)
    case BinExprNode(b) => GBinExpr(g, b)
  }

  /** `gen_scope`: open a scope, the statements in order, close it. */
  function GScope(g: GenState, sc: Scope): (r: Result<GenState, GenError>)
    ensures r.Success? ==> (r.value.stackSize == g.stackSize
      && r.value.vars == g.vars && r.value.scopes == g.scopes)
    ensures r.Success? ==> (g.output <= r.value.output
      && g.labelCount <= r.value.labelCount && g.diagnostics <= r.value.diagnostics)
    ensures ScopeHasText(sc) && r.Failure? ==> r.error.Undeclared?
    decreases sc
  {
    var g1 := GBeginScope(g);
    var g2 :- GStmts(g1, sc.stmts);
    Success(GEndScope(g2))
  }

  /** The statements in order; the first failure ends the walk. */
  function GStmts(g: GenState, ss: seq<Stmt>): (r: Result<GenState, GenError>)
    ensures r.Success? ==> (r.value.scopes == g.scopes && g.vars <= r.value.vars
      && r.value.stackSize == g.stackSize + (|r.value.vars| - |g.vars|))
    ensures r.Success? ==> (g.output <= r.value.output
      && g.labelCount <= r.value.labelCount && g.diagnostics <= r.value.diagnostics)
    ensures StmtsHaveText(ss) && r.Failure? ==> r.error.Undeclared?
    decreases ss
  {
    if ss == [] then Success(g)
    else
      var g1 :- GStmt(g, ss[0]);
      GStmts(g1, ss[1..])
  }

  /** `gen_if_pred`: an `elif` tests its condition and jumps over its block
      to its own label, which is written (with a colon) only when a further
      predicate follows; after its block it jumps to `endLabel`. An `else`
      is just its block. */
  function GIfPred(g: GenState, p: IfPred, endLabel: nat): (r: Result<GenState, GenError>)
    ensures r.Success? ==> (r.value.stackSize == g.stackSize
      && r.value.vars == g.vars && r.value.scopes == g.scopes)
    ensures r.Success? ==> (g.output <= r.value.output
      && g.labelCount <= r.value.labelCount && g.diagnostics <= r.value.diagnostics)
    ensures PredHasText(p) && r.Failure? ==> r.error.Undeclared?
    decreases p
  {
    match p
    case ElifPred(e, sc, next) =>
      var g1 :- GExpr(g, e);
      var (g2, lab) := GCreateLabel(GPop(g1, Rax));
      var g3 := GEmit(GEmit(g2, Test), Jz(lab));
      var g4 :- GScope(g3, sc);
      var g5 := GEmit(g4, Jmp(endLabel));
      if next.Some? then GIfPred(GEmit(g5, LabelColon(lab)), next.value, endLabel)
      else Success(g5)
    case ElsePred(sc) => GScope(g, sc)
  }

  /** `gen_stmt`. A `let` enters the name at the current stack size before
      its initialiser is generated (a name already present only adds a
      diagnostic); an `if` jumps to its own label after its block, and
      writes that label (with a semicolon) only when no predicate follows;
      an assignment stores through `[rsp<offset>]` with the offset taken
      after the value is popped. */
  function GStmt(g: GenState, s: Stmt): (r: Result<GenState, GenError>)
    ensures r.Success? ==> (r.value.scopes == g.scopes && g.vars <= r.value.vars
      && r.value.stackSize == g.stackSize + (|r.value.vars| - |g.vars|))
    ensures r.Success? ==> (g.output <= r.value.output
      && g.labelCount <= r.value.labelCount && g.diagnostics <= r.value.diagnostics)
    ensures r.Success? && s.LetStmt? ==> (s.ident.value.Some?
      && r.value.vars == g.vars + [Var(s.ident.value.value, g.stackSize)]
      && r.value.stackSize == g.stackSize + 1)
    ensures r.Success? && s.LetStmt? ==>
      r.value.diagnostics == g.diagnostics
        + (if FindVar(g.vars, s.ident.value.value).Some? then [AlreadyUsed(s.ident.value.value)] else [])
    ensures r.Success? && !s.LetStmt? ==> (r.value.vars == g.vars
      && r.value.stackSize == g.stackSize)
    ensures StmtHasText(s) && r.Failure? ==> r.error.Undeclared?
    decreases s
  {
    match s
    case ExitStmt(e) =>
      var g1 :- GExpr(g, e);
      Success(GEmit(GPop(GEmit(g1, Mov(Rax, "60")), Rdi), Syscall))
    case LetStmt(tok, e) =>
      var name :- TokenText(tok);
      var diagnostics := if FindVar(g.vars, name).Some? then g.diagnostics + [AlreadyUsed(name)] else g.diagnostics;
      var g1 := g.(vars := g.vars + [Var(name, g.stackSize)], diagnostics := diagnostics);
      GExpr(g1, e)
    case ScopeStmt(sc) => GScope(g, sc)
    case IfStmt(e, sc, pred) => GIf(g, e, sc, pred)
    case AssignStmt(tok, e) =>
      var name :- TokenText(tok);
      (match FindVar(g.vars, name)
       case None => Failure(Undeclared(name))
       case Some(k) =>
         var g1 :- GExpr(g, e);
         var g2 := GPop(g1, Rax);
         Success(GEmit(g2, Store(Offset(g2.stackSize, g.vars[k].stackLoc)))))
  }

  /** The `if` case of `gen_stmt`: the condition, a fresh label jumped to
      when it is zero, the block, a jump to that same label; then either an
      end label, a jump to it and the predicate chain, or the `if`'s own
      label. */
  function GIf(g: GenState, e: Expr, sc: Scope, pred: Option<IfPred>): (r: Result<GenState, GenError>)
    ensures r.Success? ==> (r.value.stackSize == g.stackSize
      && r.value.vars == g.vars && r.value.scopes == g.scopes)
    ensures r.Success? ==> (g.output <= r.value.output
      && g.labelCount < r.value.labelCount && g.diagnostics <= r.value.diagnostics)
    ensures ExprHasText(e) && ScopeHasText(sc) && (pred.Some? ==> PredHasText(pred.value)) && r.Failure? ==> r.error.Undeclared?
    decreases IfStmt(e, sc, pred), 0
  {
    var g1 :- GExpr(g, e);
    var (g2, lab) := GCreateLabel(GPop(g1, Rax));
    var g3 := GEmit(GEmit(g2, Test), Jz(lab));
    var g4 :- GScope(g3, sc);
    var g5 := GEmit(g4, Jmp(lab));
    if pred.Some? then
      var (g6, endLabel) := GCreateLabel(g5);
      var g7 :- GIfPred(GEmit(g6, Jmp(endLabel)), pred.value, endLabel);
      Success(GEmit(g7, EndLabel(endLabel)))
    else
      Success(GEmit(g5, LabelSemi(lab)))
  }

  /** `gen_prog`: the prologue, the top-level statements, the exit trailer. */
  function GProg(g: GenState, p: Prog): (r: Result<GenState, GenError>)
    ensures StmtsHaveText(p.stmts) && r.Failure? ==> r.error.Undeclared?
  {
    var g1 :- GStmts(GEmit(g, Header), p.stmts);
    Success(GEmit(GEmit(GEmit(g1, Mov(Rax, "60")), Mov(Rdi, "0")), FinalSyscall))
  }

  /** The string `gen_prog` returns. */
  function GenProgram(g: GenState, p: Prog): (r: Result<string, GenError>)
    ensures StmtsHaveText(p.stmts) && r.Failure? ==> r.error.Undeclared?
  {
    var g1 :- GProg(g, p);
    Success(Render(g1.output))
  }

  /** The generator object: the program it was built for and the fields
      `gen_*` update in place. */
  class Generator {
    const prog: Prog
    var output: seq<Line>
    var stackSize: int
    var vars: seq<Var>
    var scopes: seq<nat>
    var labelCount: nat
    var diagnostics: seq<Diagnostic>

    constructor (prog: Prog)
      ensures this.prog == prog && State() == Init
    {
      this.prog := prog;
      output := [];
      stackSize := 0;
      vars := [];
      scopes := [];
      labelCount := 0;
      diagnostics := [];
    }

    function State(): GenState
      reads this
    {
      GenState(output, stackSize, vars, scopes, labelCount, diagnostics)
    }

    /** The method reported `err` where the specification gives `spec`: the
        same error, or success with the fields equal to the specified
        state. */
    predicate Follows(err: Option<GenError>, spec: Result<GenState, GenError>)
      reads this
    {
      match err
      case None => spec.Success? && State() == spec.value
      case Some(e) => spec == Failure(e)
    }

    /** A write to `m_output`. */
    method Emit(l: Line)
      modifies this
      ensures State() == GEmit(old(State()), l)
    {
      output := output + [l];
    }

    method Push(o: Operand)
      modifies this
      ensures State() == GPush(old(State()), o)
    {
      Emit(Line.Push(o));
      stackSize := stackSize + 1;
    }

    method Pop(r: Reg)
      modifies this
      ensures State() == GPop(old(State()), r)
    {
      Emit(Line.Pop(r));
      stackSize := stackSize - 1;
    }

    method BeginScope()
      modifies this
      ensures State() == GBeginScope(old(State()))
    {
      scopes := scopes + [|vars|];
    }

    method EndScope()
      requires |scopes| > 0 && scopes[|scopes| - 1] <= |vars|
      modifies this
      ensures State() == GEndScope(old(State()))
    {
      var popCount := |vars| - scopes[|scopes| - 1];
      Emit(AddRsp((popCount * 8) % Word));
      stackSize := stackSize - popCount;
      for i := 0 to popCount
        invariant vars == old(vars)[..|old(vars)| - i]
        invariant output == old(output) + [AddRsp((popCount * 8) % Word)]
        invariant stackSize == old(stackSize) - popCount
        invariant scopes == old(scopes) && labelCount == old(labelCount)
        invariant diagnostics == old(diagnostics)
      {
        vars := vars[..|vars| - 1];
      }
      scopes := scopes[..|scopes| - 1];
    }

    method CreateLabel() returns (lab: nat)
      modifies this
      ensures (State(), lab) == GCreateLabel(old(State()))
    {
      lab := labelCount;
      labelCount := labelCount + 1;
    }

    method GenTerm(t: Term) returns (err: Option<GenError>)
      modifies this
      ensures Follows(err, GTerm(old(State()), t))
      decreases t
    {
      match t
      case IntLitTerm(tok) =>
        if tok.value.None? {
          return Some(MissingValue);
        }
        Emit(Mov(Rax, tok.value.value));
        Push(RegOp(Rax));
        return None;
      case IdentTerm(tok) =>
        if tok.value.None? {
          return Some(MissingValue);
        }
        var name := tok.value.value;
        var it := FindVar(vars, name);
        if it.None? {
          return Some(Undeclared(name));
        }
        Push(Slot(Offset(stackSize, vars[it.value].stackLoc)));
        return None;
      case ParenTerm(e) =>
        err := GenExpr(e);
    }

    method GenBinExpr(b: BinExpr) returns (err: Option<GenError>)
      modifies this
      ensures Follows(err, GBinExpr(old(State()), b))
      decreases b
    {
      err := GenExpr(b.rhs);
      if err.Some? {
        return;
      }
      err := GenExpr(b.lhs);
      if err.Some? {
        return;
      }
      Pop(Rax);
      Pop(Rbx);
      Emit(Arith(OpOf(b)));
      Push(RegOp(Rax));
    }

    method GenExpr(e: Expr) returns (err: Option<GenError>)
      modifies this
      ensures Follows(err, GExpr(old(State()), e))
      decreases e
    {
      match e
      case TermExpr(t) => err := GenTerm(t);
      case BinExprNode(b) => err := GenBinExpr(b);
    }

    method GenScope(sc: Scope) returns (err: Option<GenError>)
      modifies this
      ensures Follows(err, GScope(old(State()), sc))
      decreases sc
    {
      BeginScope();
      ghost var g1 := State();
      var k := 0;
      while k < |sc.stmts|
        invariant 0 <= k <= |sc.stmts|
        invariant GStmts(g1, sc.stmts) == GStmts(State(), sc.stmts[k..])
      {
        assert sc.stmts[k..][1..] == sc.stmts[k + 1..];
        err := GenStmt(sc.stmts[k]);
        if err.Some? {
          return;
        }
        k := k + 1;
      }
      EndScope();
      return None;
    }

    method GenIfPred(p: IfPred, endLabel: nat) returns (err: Option<GenError>)
      modifies this
      ensures Follows(err, GIfPred(old(State()), p, endLabel))
      decreases p
    {
      match p
      case ElifPred(e, sc, next) =>
        err := GenExpr(e);
        if err.Some? {
          return;
        }
        Pop(Rax);
        var lab := CreateLabel();
        Emit(Test);
        Emit(Jz(lab));
        err := GenScope(sc);
        if err.Some? {
          return;
        }
        Emit(Jmp(endLabel));
        if next.Some? {
          Emit(LabelColon(lab));
          err := GenIfPred(next.value, endLabel);
        }
      case ElsePred(sc) =>
        err := GenScope(sc);
    }

    method GenStmt(s: Stmt) returns (err: Option<GenError>)
      modifies this
      ensures Follows(err, GStmt(old(State()), s))
      decreases s
    {
      match s
      case ExitStmt(e) =>
        err := GenExpr(e);
        if err.Some? {
          return;
        }
        Emit(Mov(Rax, "60"));
        Pop(Rdi);
        Emit(Syscall);
      case LetStmt(tok, e) =>
        if tok.value.None? {
          return Some(MissingValue);
        }
        var name := tok.value.value;
        var it := FindVar(vars, name);
        if it.Some? {
          diagnostics := diagnostics + [AlreadyUsed(name)];
        }
        vars := vars + [Var(name, stackSize)];
        err := GenExpr(e);
      case ScopeStmt(sc) =>
        err := GenScope(sc);
      case IfStmt(e, sc, pred) =>
        err := GenIf(e, sc, pred);
      case AssignStmt(tok, e) =>
        if tok.value.None? {
          return Some(MissingValue);
        }
        var name := tok.value.value;
        var it := FindVar(vars, name);
        if it.None? {
          return Some(Undeclared(name));
        }
        var loc := vars[it.value].stackLoc;
        err := GenExpr(e);
        if err.Some? {
          return;
        }
        Pop(Rax);
        Emit(Store(Offset(stackSize, loc)));
    }

    /** The `if` case of `gen_stmt`. */
    method GenIf(e: Expr, sc: Scope, pred: Option<IfPred>) returns (err: Option<GenError>)
      modifies this
      ensures Follows(err, GIf(old(State()), e, sc, pred))
      decreases IfStmt(e, sc, pred), 0
    {
      err := GenExpr(e);
      if err.Some? {
        return;
      }
      Pop(Rax);
      var lab := CreateLabel();
      Emit(Test);
      Emit(Jz(lab));
      err := GenScope(sc);
      if err.Some? {
        return;
      }
      Emit(Jmp(lab));
      if pred.Some? {
        var endLabel := CreateLabel();
        Emit(Jmp(endLabel));
        err := GenIfPred(pred.value, endLabel);
        if err.Some? {
          return;
        }
        Emit(EndLabel(endLabel));
      } else {
        Emit(LabelSemi(lab));
      }
    }

    /** `gen_prog`: writes the whole program and returns the stream's
        content. */
    method GenProg() returns (r: Result<string, GenError>)
      modifies this
      ensures r == GenProgram(old(State()), prog)
    {
      Emit(Header);
      ghost var g1 := State();
      var k := 0;
      while k < |prog.stmts|
        invariant 0 <= k <= |prog.stmts|
        invariant GStmts(g1, prog.stmts) == GStmts(State(), prog.stmts[k..])
      {
        assert prog.stmts[k..][1..] == prog.stmts[k + 1..];
        var err := GenStmt(prog.stmts[k]);
        if err.Some? {
          return Failure(err.value);
        }
        k := k + 1;
      }
      Emit(Mov(Rax, "60"));
      Emit(Mov(Rdi, "0"));
      Emit(FinalSyscall);
      return Success(Render(output));
    }
  }
}
