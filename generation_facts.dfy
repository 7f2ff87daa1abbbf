/** Properties of the generator specification: the stack layout kept
    between statements, where labels are defined, the offsets it prints, and
    the shape of the whole program text. */
module GenerationFacts {
  import opened Wrappers
  import opened Tokens
  import opened Ast
  import opened Numerals
  import opened Asm
  import opened Generation

  /** A literal term moves its text into `rax` and pushes `rax`; without
      its text it fails on the missing value. */
  lemma IntLitTermShape(g: GenState, tok: Token)
    ensures tok.value.None? ==> GTerm(g, IntLitTerm(tok)) == Failure(MissingValue)
    ensures tok.value.Some? ==> GTerm(g, IntLitTerm(tok)) == Success(g.(
      output := g.output + [Mov(Rax, tok.value.value), Push(RegOp(Rax))],
      stackSize := g.stackSize + 1))
  {
    if tok.value.None? {
      assert TokenText(tok) == Failure(MissingValue);
    } else {
      var lit := tok.value.value;
      assert TokenText(tok) == Success(lit);
      assert GTerm(g, IntLitTerm(tok)) == Success(GPush(GEmit(g, Mov(Rax, lit)), RegOp(Rax)));
      assert g.output + [Mov(Rax, lit)] + [Push(RegOp(Rax))] == g.output + [Mov(Rax, lit), Push(RegOp(Rax))];
    }
  }

  /** An identifier term pushes the slot of the earliest table entry with
      its name, at the `size_t` offset from the top of the stack; a name
      not in the table is undeclared. */
  lemma IdentTermShape(g: GenState, tok: Token, name: string)
    requires tok.value == Some(name)
    ensures FindVar(g.vars, name).None? ==> GTerm(g, IdentTerm(tok)) == Failure(Undeclared(name))
    ensures FindVar(g.vars, name).Some? ==>
      var k := FindVar(g.vars, name).value;
      GTerm(g, IdentTerm(tok)) == Success(g.(
        output := g.output + [Push(Slot(Offset(g.stackSize, g.vars[k].stackLoc)))],
        stackSize := g.stackSize + 1))
  {
  }

  /** A binary expression generates its right operand first, then its left
      one on top, pops the left into `rax` and the right into `rbx`, writes
      one instruction for the operator and pushes `rax`; it fails exactly
      when one operand does, the right one's failure first. */
  lemma BinExprShape(g: GenState, b: BinExpr)
    ensures GExpr(g, b.rhs).Failure? ==> GBinExpr(g, b) == Failure(GExpr(g, b.rhs).error)
    ensures GExpr(g, b.rhs).Success? ==>
      var g1 := GExpr(g, b.rhs).value;
      && (GExpr(g1, b.lhs).Failure? ==> GBinExpr(g, b) == Failure(GExpr(g1, b.lhs).error))
      && (GExpr(g1, b.lhs).Success? ==>
            GBinExpr(g, b).Success?
            && GBinExpr(g, b).value.output ==
                 GExpr(g1, b.lhs).value.output + [Pop(Rax), Pop(Rbx), Arith(OpOf(b)), Push(RegOp(Rax))]
            && GBinExpr(g, b).value.stackSize == g.stackSize + 1)
    ensures OpOf(b) == match b
      case Add(_, _) => AddOp
      case Sub(_, _) => SubOp
      case Multi(_, _) => MulOp
      case Div(_, _) => DivOp
  {
  }

  /** Between statements every variable has its own slot: the virtual stack
      holds exactly the variables, the i-th entry in slot i. */
  ghost predicate Layout(g: GenState)
  {
    g.stackSize == |g.vars| && forall k :: 0 <= k < |g.vars| ==> g.vars[k].stackLoc == k
  }

  lemma StmtKeepsLayout(g: GenState, s: Stmt)
    requires Layout(g) && GStmt(g, s).Success?
    ensures Layout(GStmt(g, s).value)
  {
    var r := GStmt(g, s).value;
    if s.LetStmt? {
      assert r.vars[|g.vars|].stackLoc == g.stackSize;
    }
  }

  lemma {:induction false} StmtsKeepLayout(g: GenState, ss: seq<Stmt>)
    requires Layout(g) && GStmts(g, ss).Success?
    ensures Layout(GStmts(g, ss).value)
    decreases ss
  {
    if ss != [] {
      StmtKeepsLayout(g, ss[0]);
      StmtsKeepLayout(GStmt(g, ss[0]).value, ss[1..]);
    }
  }

  /** Before and after every top-level statement of `gen_prog` the layout
      holds, starting from a fresh generator. */
  lemma TopLevelLayout(p: Prog, k: nat)
    requires k <= |p.stmts|
    requires GStmts(GEmit(Init, Header), p.stmts[..k]).Success?
    ensures Layout(GStmts(GEmit(Init, Header), p.stmts[..k]).value)
  {
    StmtsKeepLayout(GEmit(Init, Header), p.stmts[..k]);
  }

  /** While the stack holds slot `loc` and is not absurdly deep, the printed
      offset is the distance in bytes from the top of the stack to that
      slot, with no wrap-around. */
  lemma OffsetNoWrap(stackSize: int, loc: int)
    requires 0 <= loc < stackSize <= Word / 8
    ensures Offset(stackSize, loc) == (stackSize - loc - 1) * 8
  {
  }

  predicate IsDef(l: Line)
  {
    l.LabelColon? || l.LabelSemi? || l.EndLabel?
  }

  /** Every label defined in `out` from position `from` on was drawn from
      the counter range [lo, hi). */
  ghost predicate DefsWithin(out: seq<Line>, from: nat, lo: nat, hi: nat)
  {
    forall k :: from <= k < |out| && IsDef(out[k]) ==> lo <= out[k].lab < hi
  }

  lemma DefsExtend(a: seq<Line>, b: seq<Line>, from: nat, lo: nat, hi: nat, lo': nat, hi': nat)
    requires a <= b && from <= |a|
    requires DefsWithin(a, from, lo, hi) && DefsWithin(b, |a|, lo', hi')
    ensures forall k :: from <= k < |b| && IsDef(b[k]) ==>
      (lo <= b[k].lab < hi) || (lo' <= b[k].lab < hi')
  {
    forall k | from <= k < |b| && IsDef(b[k])
      ensures (lo <= b[k].lab < hi) || (lo' <= b[k].lab < hi')
    {
      if k < |a| {
        assert b[k] == a[k];
      }
    }
  }

  /** Expressions define no labels. */
  lemma {:induction false} TermDefinesNone(g: GenState, t: Term)
    requires GTerm(g, t).Success?
    ensures DefsWithin(GTerm(g, t).value.output, |g.output|, 0, 0)
    decreases t
  {
    if t.ParenTerm? {
      ExprDefinesNone(g, t.expr);
    }
  }

  lemma {:induction false} BinExprDefinesNone(g: GenState, b: BinExpr)
    requires GBinExpr(g, b).Success?
    ensures DefsWithin(GBinExpr(g, b).value.output, |g.output|, 0, 0)
    decreases b
  {
    var g1 := GExpr(g, b.rhs).value;
    ExprDefinesNone(g, b.rhs);
    var g2 := GExpr(g1, b.lhs).value;
    ExprDefinesNone(g1, b.lhs);
    DefsExtend(g1.output, g2.output, |g.output|, 0, 0, 0, 0);
    var r := GBinExpr(g, b).value;
    assert r.output[..|g2.output|] == g2.output;
  }

  lemma {:induction false} ExprDefinesNone(g: GenState, e: Expr)
    requires GExpr(g, e).Success?
    ensures DefsWithin(GExpr(g, e).value.output, |g.output|, 0, 0)
    decreases e
  {
    match e
    case TermExpr(t) => TermDefinesNone(g, t);
    case BinExprNode(b) => BinExprDefinesNone(g, b);
  }

  /** Every label a statement defines was drawn while generating it. */
  lemma {:induction false} StmtDefinesOwn(g: GenState, s: Stmt)
    requires GStmt(g, s).Success?
    ensures DefsWithin(GStmt(g, s).value.output, |g.output|, g.labelCount, GStmt(g, s).value.labelCount)
    decreases s
  {
    var r := GStmt(g, s).value;
    match s
    case ExitStmt(e) =>
      ExprDefinesNone(g, e);
      assert r.output[..|GExpr(g, e).value.output|] == GExpr(g, e).value.output;
    case LetStmt(tok, e) =>
      var name := tok.value.value;
      var diagnostics := if FindVar(g.vars, name).Some? then g.diagnostics + [AlreadyUsed(name)] else g.diagnostics;
      var g1 := g.(vars := g.vars + [Var(name, g.stackSize)], diagnostics := diagnostics);
      ExprDefinesNone(g1, e);
    case ScopeStmt(sc) =>
      ScopeDefinesOwn(g, sc);
    case IfStmt(e, sc, pred) =>
      IfDefinesOwn(g, e, sc, pred);
    case AssignStmt(tok, e) =>
      ExprDefinesNone(g, e);
      assert r.output[..|GExpr(g, e).value.output|] == GExpr(g, e).value.output;
  }

  lemma {:induction false} IfDefinesOwn(g: GenState, e: Expr, sc: Scope, pred: Option<IfPred>)
    requires GStmt(g, IfStmt(e, sc, pred)).Success?
    ensures var r := GStmt(g, IfStmt(e, sc, pred)).value;
      DefsWithin(r.output, |g.output|, g.labelCount, r.labelCount)
    decreases IfStmt(e, sc, pred), 1
  {
    IfHeadSucceeds(g, e, sc, pred);
    var g5, _ := IfHeadDefinesOwn(g, e, sc, pred);
    var r := GStmt(g, IfStmt(e, sc, pred)).value;
    if pred.Some? {
      var (g6, endLabel) := GCreateLabel(g5);
      var g6' := GEmit(g6, Jmp(endLabel));
      var g7 := GIfPred(g6', pred.value, endLabel).value;
      IfPredDefinesOwn(g6', pred.value, endLabel);
      DefsExtend(g6'.output, g7.output, |g.output|, g.labelCount, g5.labelCount, g6'.labelCount, g7.labelCount);
      assert r == GEmit(g7, EndLabel(endLabel));
    } else {
      assert r == GEmit(g5, LabelSemi(g.labelCount));
    }
  }

  /** An `if` that is generated has a generated condition and block. */
  lemma IfHeadSucceeds(g: GenState, e: Expr, sc: Scope, pred: Option<IfPred>)
    requires GStmt(g, IfStmt(e, sc, pred)).Success?
    ensures GExpr(g, e).Success?
    ensures var (g2, lab) := GCreateLabel(GPop(GExpr(g, e).value, Rax));
      GScope(GEmit(GEmit(g2, Test), Jz(lab)), sc).Success?
  {
  }

  /** The part of an `if` up to the jump after its block: it draws one label
      and defines only labels drawn inside the block. */
  lemma {:induction false} IfHeadDefinesOwn(g: GenState, e: Expr, sc: Scope, pred: Option<IfPred>)
      returns (g5: GenState, at: nat)
    requires GExpr(g, e).Success?
    requires var (g2, lab) := GCreateLabel(GPop(GExpr(g, e).value, Rax));
      GScope(GEmit(GEmit(g2, Test), Jz(lab)), sc).Success?
    ensures var (g2, lab) := GCreateLabel(GPop(GExpr(g, e).value, Rax));
      lab == g.labelCount
      && g5 == GEmit(GScope(GEmit(GEmit(g2, Test), Jz(lab)), sc).value, Jmp(lab))
    ensures g.labelCount < g5.labelCount
    ensures DefsWithin(g5.output, |g.output|, g.labelCount + 1, g5.labelCount)
    ensures |g.output| <= at < |g5.output| && g5.output[at] == Jz(g.labelCount)
    decreases IfStmt(e, sc, pred), 0
  {
    var g1 := GExpr(g, e).value;
    ExprDefinesNone(g, e);
    var (g2, lab) := GCreateLabel(GPop(g1, Rax));
    var g3 := GEmit(GEmit(g2, Test), Jz(lab));
    assert DefsWithin(g3.output, |g.output|, 0, 0);
    var g4 := GScope(g3, sc).value;
    ScopeDefinesOwn(g3, sc);
    DefsExtend(g3.output, g4.output, |g.output|, 0, 0, g3.labelCount, g4.labelCount);
    g5 := GEmit(g4, Jmp(lab));
    at := |g3.output| - 1;
    assert g4.output[at] == g3.output[at];
  }

  lemma {:induction false} ScopeDefinesOwn(g: GenState, sc: Scope)
    requires GScope(g, sc).Success?
    ensures DefsWithin(GScope(g, sc).value.output, |g.output|, g.labelCount, GScope(g, sc).value.labelCount)
    decreases sc
  {
    var g1 := GBeginScope(g);
    StmtsDefineOwn(g1, sc.stmts);
  }

  lemma {:induction false} StmtsDefineOwn(g: GenState, ss: seq<Stmt>)
    requires GStmts(g, ss).Success?
    ensures DefsWithin(GStmts(g, ss).value.output, |g.output|, g.labelCount, GStmts(g, ss).value.labelCount)
    decreases ss
  {
    if ss != [] {
      var g1 := GStmt(g, ss[0]).value;
      StmtDefinesOwn(g, ss[0]);
      var r := GStmts(g1, ss[1..]).value;
      StmtsDefineOwn(g1, ss[1..]);
      DefsExtend(g1.output, r.output, |g.output|, g.labelCount, g1.labelCount, g1.labelCount, r.labelCount);
    }
  }

  lemma {:induction false} IfPredDefinesOwn(g: GenState, p: IfPred, endLabel: nat)
    requires GIfPred(g, p, endLabel).Success?
    ensures var r := GIfPred(g, p, endLabel).value;
      DefsWithin(r.output, |g.output|, g.labelCount, r.labelCount)
    decreases p
  {
    match p
    case ElsePred(sc) => ScopeDefinesOwn(g, sc);
    case ElifPred(e, sc, next) =>
      var g1 := GExpr(g, e).value;
      ExprDefinesNone(g, e);
      var (g2, lab) := GCreateLabel(GPop(g1, Rax));
      var g3 := GEmit(GEmit(g2, Test), Jz(lab));
      assert DefsWithin(g3.output, |g.output|, 0, 0);
      var g4 := GScope(g3, sc).value;
      ScopeDefinesOwn(g3, sc);
      DefsExtend(g3.output, g4.output, |g.output|, 0, 0, g3.labelCount, g4.labelCount);
      var g5 := GEmit(g4, Jmp(endLabel));
      if next.Some? {
        var g6 := GEmit(g5, LabelColon(lab));
        var r := GIfPred(g6, next.value, endLabel).value;
        IfPredDefinesOwn(g6, next.value, endLabel);
        DefsExtend(g6.output, r.output, |g.output|, g.labelCount, g6.labelCount, g6.labelCount, r.labelCount);
      }
  }

  /** An `if` with a successor, taken apart: the head up to the jump after
      the block, the end label drawn next, and the chain generated after
      the jump to it. */
  lemma IfWithSuccessorShape(g: GenState, e: Expr, sc: Scope, p: IfPred)
      returns (g5: GenState, at: nat, g6: GenState, g7: GenState)
    requires GStmt(g, IfStmt(e, sc, Some(p))).Success?
    ensures g.labelCount < g5.labelCount
    ensures DefsWithin(g5.output, |g.output|, g.labelCount + 1, g5.labelCount)
    ensures |g.output| <= at < |g5.output| && g5.output[at] == Jz(g.labelCount)
    ensures g6 == GEmit(g5.(labelCount := g5.labelCount + 1), Jmp(g5.labelCount))
    ensures GIfPred(g6, p, g5.labelCount) == Success(g7)
    ensures GStmt(g, IfStmt(e, sc, Some(p))).value == GEmit(g7, EndLabel(g5.labelCount))
  {
    IfHeadSucceeds(g, e, sc, Some(p));
    g5, at := IfHeadDefinesOwn(g, e, sc, Some(p));
    g6 := GEmit(g5.(labelCount := g5.labelCount + 1), Jmp(g5.labelCount));
    g7 := GIfPred(g6, p, g5.labelCount).value;
  }

  /** The output of an `if` with a successor, from its parts: the label
      `lab` jumped to at `at` is defined nowhere from `start` on. */
  lemma ChainLeavesLabelUndefined(start: nat, lab: nat, p: IfPred, g5: GenState, at: nat, g6: GenState, g7: GenState)
    requires lab < g5.labelCount
    requires DefsWithin(g5.output, start, lab + 1, g5.labelCount)
    requires start <= at < |g5.output| && g5.output[at] == Jz(lab)
    requires g6 == GEmit(g5.(labelCount := g5.labelCount + 1), Jmp(g5.labelCount))
    requires GIfPred(g6, p, g5.labelCount) == Success(g7)
    ensures var r := GEmit(g7, EndLabel(g5.labelCount));
      Jz(lab) in r.output[start..]
      && forall k :: start <= k < |r.output| ==> !Defines(r.output[k], lab)
  {
    var r := GEmit(g7, EndLabel(g5.labelCount));
    IfPredDefinesOwn(g6, p, g5.labelCount);
    DefsExtend(g6.output, g7.output, start, lab + 1, g5.labelCount, g6.labelCount, g7.labelCount);
    assert r.output[at] == g5.output[at];
    assert r.output[start..][at - start] == Jz(lab);
  }

  /** An `if` followed by `elif` or `else` jumps to its own label when the
      condition is zero, but nothing it generates defines that label: the
      label is written only in the case without a successor. */
  lemma IfWithSuccessorLeavesLabelUndefined(g: GenState, e: Expr, sc: Scope, p: IfPred)
    requires GStmt(g, IfStmt(e, sc, Some(p))).Success?
    ensures var r := GStmt(g, IfStmt(e, sc, Some(p))).value;
      Jz(g.labelCount) in r.output[|g.output|..]
      && forall k :: |g.output| <= k < |r.output| ==> !Defines(r.output[k], g.labelCount)
  {
    var g5, at, g6, g7 := IfWithSuccessorShape(g, e, sc, p);
    ChainLeavesLabelUndefined(|g.output|, g.labelCount, p, g5, at, g6, g7);
  }

  /** Without a successor the `if` writes its label, as `label;`, as the
      last line it generates. */
  lemma IfWithoutSuccessorEndsWithLabel(g: GenState, e: Expr, sc: Scope)
    requires GStmt(g, IfStmt(e, sc, None)).Success?
    ensures var r := GStmt(g, IfStmt(e, sc, None)).value;
      Jz(g.labelCount) in r.output[|g.output|..]
      && r.output[|r.output| - 1] == LabelSemi(g.labelCount)
  {
    var r := GStmt(g, IfStmt(e, sc, None)).value;
    IfHeadSucceeds(g, e, sc, None);
    var g5, at := IfHeadDefinesOwn(g, e, sc, None);
    assert r == GEmit(g5, LabelSemi(g.labelCount));
    assert r.output[|g.output|..][at - |g.output|] == Jz(g.labelCount);
  }

  /** The same for an `elif` that ends the chain: it jumps to its own label,
      and nothing it generates defines that label. */
  lemma LastElifLeavesLabelUndefined(g: GenState, e: Expr, sc: Scope, endLabel: nat)
    requires GIfPred(g, ElifPred(e, sc, None), endLabel).Success?
    ensures var r := GIfPred(g, ElifPred(e, sc, None), endLabel).value;
      Jz(g.labelCount) in r.output[|g.output|..]
      && forall k :: |g.output| <= k < |r.output| ==> !Defines(r.output[k], g.labelCount)
  {
    var r := GIfPred(g, ElifPred(e, sc, None), endLabel).value;
    var g1 := GExpr(g, e).value;
    ExprDefinesNone(g, e);
    var (g2, lab) := GCreateLabel(GPop(g1, Rax));
    var g3 := GEmit(GEmit(g2, Test), Jz(lab));
    assert DefsWithin(g3.output, |g.output|, 0, 0);
    var g4 := GScope(g3, sc).value;
    ScopeDefinesOwn(g3, sc);
    DefsExtend(g3.output, g4.output, |g.output|, 0, 0, g3.labelCount, g4.labelCount);
    assert r == GEmit(g4, Jmp(endLabel));
    var at := |g3.output| - 1;
    assert r.output[at] == g3.output[at];
    assert r.output[|g.output|..][at - |g.output|] == Jz(g.labelCount);
  }

  const Prologue: string := "global _start\n_start:\n"
  const Trailer: string := "    mov rax, 60\n    mov rdi, 0\n    syscall"

  lemma TrailerLines()
    ensures Text(Mov(Rax, "60")) == "    mov rax, 60\n"
    ensures Text(Mov(Rdi, "0")) == "    mov rdi, 0\n"
    ensures Text(FinalSyscall) == "    syscall"
  {
  }

  lemma RenderThree(a: Line, b: Line, c: Line)
    ensures Render([a, b, c]) == Text(a) + Text(b) + Text(c)
  {
    RenderSingle(a);
    RenderSingle(b);
    RenderSingle(c);
    RenderAppend([a], [b]);
    RenderAppend([a, b], [c]);
    assert [a] + [b] == [a, b];
    assert [a, b] + [c] == [a, b, c];
  }

  lemma TrailerText()
    ensures Render([Mov(Rax, "60"), Mov(Rdi, "0"), FinalSyscall]) == Trailer
  {
    RenderThree(Mov(Rax, "60"), Mov(Rdi, "0"), FinalSyscall);
    TrailerLines();
  }

  /** The text `gen_prog` returns is what the stream already held, then the
      prologue, the statements' code and, whatever the statements were, the
      exit-with-status-0 trailer. */
  lemma ProgramFraming(g: GenState, p: Prog)
    requires GenProgram(g, p).Success?
    ensures var v := GenProgram(g, p).value;
      Render(g.output) + Prologue <= v
      && |v| >= |Trailer| && v[|v| - |Trailer|..] == Trailer
  {
    var v := GenProgram(g, p).value;
    var g1 := GEmit(g, Header);
    var g2 := GStmts(g1, p.stmts).value;
    var mid := g2.output[|g1.output|..];
    var tail := [Mov(Rax, "60"), Mov(Rdi, "0"), FinalSyscall];
    assert g2.output == g1.output + mid;
    var out := GProg(g, p).value.output;
    assert out == g2.output + [tail[0]] + [tail[1]] + [tail[2]];
    assert out == g1.output + mid + tail;
    RenderAppend(g1.output + mid, tail);
    RenderAppend(g1.output, mid);
    RenderAppend(g.output, [Header]);
    RenderSingle(Header);
    TrailerText();
    assert v == Render(g.output) + Prologue + Render(mid) + Trailer;
  }
}
