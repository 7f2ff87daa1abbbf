/** Small programs run through the generator specification, showing the
    source's behaviour on duplicate and undeclared names, on self-reference
    in a `let`, on the assignment store and on `if` labels. */
module GenerationExamples {
  import opened Wrappers
  import opened Tokens
  import opened Ast
  import opened Numerals
  import opened Asm
  import opened Generation

  function Num(v: string): Expr
  {
    TermExpr(IntLitTerm(LitTok(v)))
  }

  function Name(v: string): Expr
  {
    TermExpr(IdentTerm(IdentTok(v)))
  }

  function LetOf(v: string, e: Expr): Stmt
  {
    LetStmt(IdentTok(v), e)
  }

  function AssignOf(v: string, e: Expr): Stmt
  {
    AssignStmt(IdentTok(v), e)
  }

  /** `let x = 1; let x = 2; exit(x);`: the second `let` adds a diagnostic
      and a second entry, and `x` then reads the first entry's slot, 8 bytes
      up, not the second's. */
  lemma DuplicateNameReadsEarliest()
    ensures var g := GStmts(Init, [LetOf("x", Num("1")), LetOf("x", Num("2")), ExitStmt(Name("x"))]);
      g.Success?
      && g.value.diagnostics == [AlreadyUsed("x")]
      && g.value.output == [
        Mov(Rax, "1"), Push(RegOp(Rax)),
        Mov(Rax, "2"), Push(RegOp(Rax)),
        Push(Slot(8)), Mov(Rax, "60"), Pop(Rdi), Syscall]
  {
    var s1, s2, s3 := LetOf("x", Num("1")), LetOf("x", Num("2")), ExitStmt(Name("x"));
    var g1 := FirstLet();
    var g2 := SecondLet(g1);
    var g3 := ExitReadsFirst(g2);
    assert [s1, s2, s3][1..] == [s2, s3] && [s2, s3][1..] == [s3] && [s3][1..] == [];
    assert GStmts(Init, [s1, s2, s3]) == GStmts(g1, [s2, s3]);
    assert GStmts(g1, [s2, s3]) == GStmts(g2, [s3]);
  }

  /** `exit(x);` after `SecondLet` pushes the slot of the first `x`. */
  lemma ExitReadsFirst(g2: GenState) returns (g3: GenState)
    requires g2 == Init.(output := [Mov(Rax, "1"), Push(RegOp(Rax)), Mov(Rax, "2"), Push(RegOp(Rax))],
      stackSize := 2, vars := [Var("x", 0), Var("x", 1)], diagnostics := [AlreadyUsed("x")])
    ensures GStmt(g2, ExitStmt(Name("x"))) == Success(g3)
    ensures g3 == g2.(output := g2.output + [Push(Slot(8)), Mov(Rax, "60"), Pop(Rdi), Syscall])
  {
    assert FindVar(g2.vars, "x") == Some(0);
    assert Offset(2, 0) == 8;
    var gp := GPush(g2, Slot(8));
    assert GTerm(g2, Name("x").term) == Success(gp);
    g3 := GEmit(GPop(GEmit(gp, Mov(Rax, "60")), Rdi), Syscall);
  }

  /** `let x = 1;` on a fresh generator. */
  lemma FirstLet() returns (g1: GenState)
    ensures GStmt(Init, LetOf("x", Num("1"))) == Success(g1)
    ensures g1 == Init.(output := [Mov(Rax, "1"), Push(RegOp(Rax))], stackSize := 1, vars := [Var("x", 0)])
  {
    var tok := IdentTok("x");
    assert TokenText(tok) == Success("x");
    assert FindVar(Init.vars, "x").None?;
    var g0 := Init.(vars := [Var("x", 0)]);
    assert Init.(vars := Init.vars + [Var("x", Init.stackSize)], diagnostics := Init.diagnostics) == g0;
    g1 := Init.(output := [Mov(Rax, "1"), Push(RegOp(Rax))], stackSize := 1, vars := [Var("x", 0)]);
    assert GPush(GEmit(g0, Mov(Rax, "1")), RegOp(Rax)) == g1;
    assert GExpr(g0, Num("1")) == Success(g1);
  }

  /** A second `let x = 2;` after `FirstLet`. */
  lemma SecondLet(g1: GenState) returns (g2: GenState)
    requires g1 == Init.(output := [Mov(Rax, "1"), Push(RegOp(Rax))], stackSize := 1, vars := [Var("x", 0)])
    ensures GStmt(g1, LetOf("x", Num("2"))) == Success(g2)
    ensures g2 == g1.(output := g1.output + [Mov(Rax, "2"), Push(RegOp(Rax))], stackSize := 2,
      vars := [Var("x", 0), Var("x", 1)], diagnostics := [AlreadyUsed("x")])
  {
    var tok := IdentTok("x");
    assert TokenText(tok) == Success("x");
    assert FindVar(g1.vars, "x") == Some(0);
    var g1' := g1.(vars := [Var("x", 0), Var("x", 1)], diagnostics := [AlreadyUsed("x")]);
    assert g1.(vars := g1.vars + [Var("x", g1.stackSize)], diagnostics := g1.diagnostics + [AlreadyUsed("x")]) == g1';
    g2 := g1'.(output := g1.output + [Mov(Rax, "2"), Push(RegOp(Rax))], stackSize := 2);
    assert GPush(GEmit(g1', Mov(Rax, "2")), RegOp(Rax)) == g2;
    assert GExpr(g1', Num("2")) == Success(g2);
  }

  /** `let x = x;` with no earlier `x` finds the entry just added, at the
      current stack size, and the `size_t` offset wraps to 2^64 - 8. */
  lemma SelfReferenceWraps()
    ensures GStmt(Init, LetOf("x", Name("x"))) == Success(Init.(
      output := [Push(Slot(Word - 8))], stackSize := 1, vars := [Var("x", 0)]))
  {
    var tok := IdentTok("x");
    assert TokenText(tok) == Success("x");
    var g1 := Init.(vars := [Var("x", 0)]);
    assert FindVar(Init.vars, "x").None?;
    assert FindVar(g1.vars, "x") == Some(0);
    assert Offset(0, 0) == Word - 8;
    assert GTerm(g1, IdentTerm(tok)) == Success(GPush(g1, Slot(Word - 8)));
    assert Init.(vars := Init.vars + [Var("x", Init.stackSize)], diagnostics := Init.diagnostics) == g1;
    assert GPush(g1, Slot(Word - 8)) == Init.(output := [Push(Slot(Word - 8))], stackSize := 1, vars := [Var("x", 0)]);
  }

  /** `let x = 1; x = 2;` stores through `[rsp0]`: offset 0, written with no
      plus sign. */
  lemma StoreWithoutPlus()
    ensures var g := GStmts(Init, [LetOf("x", Num("1")), AssignOf("x", Num("2"))]);
      g.Success?
      && g.value.output == [
        Mov(Rax, "1"), Push(RegOp(Rax)),
        Mov(Rax, "2"), Push(RegOp(Rax)), Pop(Rax), Store(0)]
  {
    var s1, s2 := LetOf("x", Num("1")), AssignOf("x", Num("2"));
    var g1 := FirstLet();
    var g3 := AssignAfterFirst(g1);
    assert [s1, s2][1..] == [s2] && [s2][1..] == [];
    assert GStmts(Init, [s1, s2]) == GStmts(g1, [s2]);
  }

  /** `x = 2;` after `FirstLet` stores at offset 0. */
  lemma AssignAfterFirst(g1: GenState) returns (g3: GenState)
    requires g1 == Init.(output := [Mov(Rax, "1"), Push(RegOp(Rax))], stackSize := 1, vars := [Var("x", 0)])
    ensures GStmt(g1, AssignOf("x", Num("2"))) == Success(g3)
    ensures g3.output == g1.output + [Mov(Rax, "2"), Push(RegOp(Rax)), Pop(Rax), Store(0)]
  {
    var tok := IdentTok("x");
    assert TokenText(tok) == Success("x");
    assert FindVar(g1.vars, "x") == Some(0);
    var g2 := g1.(output := g1.output + [Mov(Rax, "2"), Push(RegOp(Rax))], stackSize := 2);
    assert GPush(GEmit(g1, Mov(Rax, "2")), RegOp(Rax)) == g2;
    assert GExpr(g1, Num("2")) == Success(g2);
    assert Offset(1, 0) == 0;
    g3 := GEmit(GPop(g2, Rax), Store(0));
  }

  /** A name declared in a block is gone once the block closes. */
  lemma ScopedNameIsGone()
    ensures GStmts(Init, [ScopeStmt(Scope([LetOf("x", Num("1"))])), ExitStmt(Name("x"))])
      == Failure(Undeclared("x"))
  {
    var let1 := LetOf("x", Num("1"));
    var s1, s2 := ScopeStmt(Scope([let1])), ExitStmt(Name("x"));
    var b := GBeginScope(Init);
    assert b.scopes == [0] && b.vars == [];
    var gl :- assert GStmt(b, let1);
    assert gl.vars == [Var("x", 0)];
    assert [let1][1..] == [];
    assert GStmts(b, [let1]) == Success(gl);
    var g1 := GEndScope(gl);
    assert g1.vars == [];
    assert GStmt(Init, s1) == Success(g1);
    assert [s1, s2][1..] == [s2];
    assert GStmts(Init, [s1, s2]) == GStmts(g1, [s2]);
    assert FindVar(g1.vars, "x").None?;
    assert GStmt(g1, s2) == Failure(Undeclared("x"));
  }

  /** `if (1) {}`: the false label is written `label0;` right after the
      jump to it. */
  lemma IfWithoutElseText()
    ensures var g := GStmt(Init, IfStmt(Num("1"), Scope([]), None));
      g.Success?
      && g.value.output == [
        Mov(Rax, "1"), Push(RegOp(Rax)), Pop(Rax), Test, Jz(0),
        AddRsp(0), Jmp(0), LabelSemi(0)]
  {
    var g1 := GExpr(Init, Num("1")).value;
    assert g1.output == [Mov(Rax, "1"), Push(RegOp(Rax))];
  }

  /** `if (1) {} else {}`: `jz label0` and `jmp label0` with no definition of
      `label0`, then `jmp label1`, the else block and `label1: `. */
  lemma IfElseText()
    ensures var g := GStmt(Init, IfStmt(Num("1"), Scope([]), Some(ElsePred(Scope([])))));
      g.Success?
      && g.value.output == [
        Mov(Rax, "1"), Push(RegOp(Rax)), Pop(Rax), Test, Jz(0),
        AddRsp(0), Jmp(0), Jmp(1), AddRsp(0), EndLabel(1)]
  {
    var g1 := GExpr(Init, Num("1")).value;
    assert g1.output == [Mov(Rax, "1"), Push(RegOp(Rax))];
  }

  /** The text of the lines the examples above end with: the store has no
      plus sign, the lone `if` label a semicolon, the end label a trailing
      space. */
  lemma QuirkTexts()
    ensures Text(Store(0)) == "    mov [rsp0], rax\n"
    ensures Text(LabelSemi(0)) == "label0;\n"
    ensures Text(EndLabel(1)) == "label1: \n"
  {
    assert NatToString(0) == "0";
    assert NatToString(1) == "1";
  }
}
