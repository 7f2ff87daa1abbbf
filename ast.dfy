/** The syntax tree (Compiler/Parser.hpp). Each pointer-tagged variant of the
    source is a datatype; the arena that owns the nodes has no counterpart,
    since the order in which nodes were allocated cannot be observed. */
module Ast {
  import opened Wrappers
  import opened Tokens

  /** An integer literal, an identifier reference or a parenthesised
      expression; the first two keep the token they were parsed from. */
  datatype Term =
    | IntLitTerm(intLit: Token)
    | IdentTerm(ident: Token)
    | ParenTerm(expr: Expr)

  /** The four binary operators, each with a left and a right operand. */
  datatype BinExpr =
    | Add(lhs: Expr, rhs: Expr)
    | Multi(lhs: Expr, rhs: Expr)
    | Sub(lhs: Expr, rhs: Expr)
    | Div(lhs: Expr, rhs: Expr)

  datatype Expr = TermExpr(term: Term) | BinExprNode(bin: BinExpr)

  datatype Stmt =
    | ExitStmt(expr: Expr)
    | LetStmt(ident: Token, expr: Expr)
    | ScopeStmt(scope: Scope)
    | IfStmt(expr: Expr, scope: Scope, pred: Option<IfPred>)
    | AssignStmt(ident: Token, expr: Expr)

  /** The statements of a block, in order. */
  datatype Scope = Scope(stmts: seq<Stmt>)

  /** The chain after an `if`: an `elif` with its condition, block and the
      rest of the chain, or a final `else` with only a block. */
  datatype IfPred =
    | ElifPred(expr: Expr, scope: Scope, pred: Option<IfPred>)
    | ElsePred(scope: Scope)

  datatype Prog = Prog(stmts: seq<Stmt>)

  // Every token the tree holds where the generator reads a payload (a
  // literal, a name reference, the name of a `let` or an assignment)
  // carries one.

  predicate TermHasText(t: Term)
    decreases t
  {
    match t
    case IntLitTerm(tok) => tok.value.Some?
    case IdentTerm(tok) => tok.value.Some?
    case ParenTerm(e) => ExprHasText(e)
  }

  predicate BinHasText(b: BinExpr)
    decreases b
  {
    ExprHasText(b.lhs) && ExprHasText(b.rhs)
  }

  predicate ExprHasText(e: Expr)
    decreases e
  {
    match e
    case TermExpr(t) => TermHasText(t)
    case BinExprNode(b) => BinHasText(b)
  }

  predicate StmtHasText(s: Stmt)
    decreases s
  {
    match s
    case ExitStmt(e) => ExprHasText(e)
    case LetStmt(tok, e) => tok.value.Some? && ExprHasText(e)
    case ScopeStmt(sc) => ScopeHasText(sc)
    case IfStmt(e, sc, pred) => ExprHasText(e) && ScopeHasText(sc) && (pred.Some? ==> PredHasText(pred.value))
    case AssignStmt(tok, e) => tok.value.Some? && ExprHasText(e)
  }

  predicate StmtsHaveText(ss: seq<Stmt>)
    decreases ss
  {
    forall k :: 0 <= k < |ss| ==> StmtHasText(ss[k])
  }

  predicate ScopeHasText(sc: Scope)
    decreases sc
  {
    StmtsHaveText(sc.stmts)
  }

  predicate PredHasText(p: IfPred)
    decreases p
  {
    match p
    case ElifPred(e, sc, next) => ExprHasText(e) && ScopeHasText(sc) && (next.Some? ==> PredHasText(next.value))
    case ElsePred(sc) => ScopeHasText(sc)
  }
}
