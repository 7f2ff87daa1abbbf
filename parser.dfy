/** The parser (Compiler/Parser.cpp): recursive descent over the token
    vector with a cursor, precedence climbing for expressions.

    The functions `PTerm`, `PExpr`, `PExprLoop`, `PScope`, `PStmts`,
    `PIfPred`, `PStmt` and `PTop` are the specification: each takes the
    cursor position explicitly and returns the node with the position after
    it. The class `Parser` keeps the source's state (`m_tokens`, `m_index`)
    and its methods are proved to compute exactly these functions. A call to
    `error_expected`, which ends the process, becomes a `Fatal` outcome. */
module Parser {
  import opened Wrappers
  import opened Tokens
  import opened Ast

  /** Binding strength of the binary operators; none for other kinds. */
  function BinPrec(k: TokenType): (p: Option<int>)
    ensures p.Some? <==> k in {Plus, Minus, Star, FSlash}
    ensures p == Some(0) <==> k in {Plus, Minus}
    ensures p == Some(1) <==> k in {Star, FSlash}
  {
    match k
    case Plus => Some(0)
    case Minus => Some(0)
    case Star => Some(1)
    case FSlash => Some(1)
    case _ => None
  }

  /** The node built for an operator token. */
  function MakeBin(op: TokenType, lhs: Expr, rhs: Expr): (b: BinExpr)
    requires BinPrec(op).Some?
    ensures b.lhs == lhs && b.rhs == rhs
  {
    match op
    case Plus => Add(lhs, rhs)
    case Star => Multi(lhs, rhs)
    case Minus => Sub(lhs, rhs)
    case FSlash => Div(lhs, rhs)
  }

  /** "Expected <expected> on line <line>": the line is that of the last
      consumed token; with nothing consumed the source's `peek(-1).value()`
      throws instead, which is `line == None`. */
  datatype ParseError = ParseError(expected: string, line: Option<int>)

  /** The result of a `parse_*` call: no match (nothing consumed), a node
      with the cursor after it, or a fatal error. */
  datatype Outcome<+T> = NoMatch | Match(node: T, next: nat) | Fatal(error: ParseError)

  /** The error `error_expected(msg)` reports with the cursor at `i`. */
  function ErrorAt(toks: seq<Token>, i: nat, msg: string): ParseError
  {
    ParseError(msg, if 0 < i <= |toks| then Some(toks[i - 1].line) else None)
  }

  predicate NextIs(toks: seq<Token>, i: nat, k: TokenType)
  {
    i < |toks| && toks[i].kind == k
  }

  /** `try_consume_err`: the next token if it has kind `k`, else the fatal
      "Expected <to_string(k)>". */
  function Expect(toks: seq<Token>, i: nat, k: TokenType): (r: Result<Token, ParseError>)
    ensures r.Success? <==> NextIs(toks, i, k)
    ensures r.Success? ==> r.value == toks[i]
    ensures r.Failure? ==> r.error == ErrorAt(toks, i, ToString(k))
  {
    if NextIs(toks, i, k) then Success(toks[i]) else Failure(ErrorAt(toks, i, ToString(k)))
  }

  /** Literal and identifier tokens carry their text, as every token the
      tokenizer emits does. Over such tokens every tree the parser builds
      has the text the generator reads (the `HasText` ensures below). */
  predicate Payloaded(toks: seq<Token>)
  {
    forall k :: 0 <= k < |toks| && (toks[k].kind == IntLit || toks[k].kind == Ident) ==> toks[k].value.Some?
  }

  /** The tokens a term can start with. */
  predicate StartsTerm(toks: seq<Token>, i: nat)
  {
    NextIs(toks, i, IntLit) || NextIs(toks, i, Ident) || NextIs(toks, i, OpenParen)
  }

  /** Where an expression at minimum precedence `minPrec` stops: at the end,
      or before a token that is not an operator or binds more loosely. */
  predicate StopsAt(toks: seq<Token>, j: nat, minPrec: int)
  {
    j >= |toks| || BinPrec(toks[j].kind).None? || BinPrec(toks[j].kind).value < minPrec
  }

  function PTerm(toks: seq<Token>, i: nat): (r: Outcome<Term>)
    requires i <= |toks|
    ensures r.Match? ==> i < r.next <= |toks|
    ensures r.NoMatch? <==> !StartsTerm(toks, i)
    ensures Payloaded(toks) && r.Match? ==> TermHasText(r.node)
    decreases |toks| - i, 0
  {
    if NextIs(toks, i, IntLit) then Match(IntLitTerm(toks[i]), i + 1)
    else if NextIs(toks, i, Ident) then Match(IdentTerm(toks[i]), i + 1)
    else if NextIs(toks, i, OpenParen) then
      match PExpr(toks, i + 1, 0)
      case NoMatch => Fatal(ErrorAt(toks, i + 1, "expression"))
      case Fatal(e) => Fatal(e)
      case Match(e, j) =>
        match Expect(toks, j, CloseParen)
        case Failure(err) => Fatal(err)
        case Success(_) => Match(ParenTerm(e), j + 1)
    else NoMatch
  }

  /** `parse_expr(min_prec)`: a term, then the operator loop. */
  function PExpr(toks: seq<Token>, i: nat, minPrec: int): (r: Outcome<Expr>)
    requires i <= |toks|
    ensures r.Match? ==> i < r.next <= |toks| && StopsAt(toks, r.next, minPrec)
    ensures r.NoMatch? <==> !StartsTerm(toks, i)
    ensures Payloaded(toks) && r.Match? ==> ExprHasText(r.node)
    decreases |toks| - i, 1
  {
    match PTerm(toks, i)
    case NoMatch => NoMatch
    case Fatal(e) => Fatal(e)
    case Match(t, j) => PExprLoop(toks, j, minPrec, TermExpr(t))
  }

  /** The `while (true)` of `parse_expr`, with `lhs` the expression
      accumulated so far: an operator of precedence at least `minPrec` takes
      a right operand parsed at one level higher, and the fold becomes the
      new left side. Never a `NoMatch`. */
  function PExprLoop(toks: seq<Token>, i: nat, minPrec: int, lhs: Expr): (r: Outcome<Expr>)
    requires i <= |toks|
    ensures !r.NoMatch?
    ensures r.Match? ==> i <= r.next <= |toks| && StopsAt(toks, r.next, minPrec)
    ensures r.Match? && r.next == i ==> r.node == lhs
    ensures Payloaded(toks) && ExprHasText(lhs) && r.Match? ==> ExprHasText(r.node)
    decreases |toks| - i, 2
  {
    if StopsAt(toks, i, minPrec) then Match(lhs, i)
    else
      var op := toks[i].kind;
      var prec := BinPrec(op).value;
      match PExpr(toks, i + 1, prec + 1)
      case NoMatch => Fatal(ErrorAt(toks, i + 1, "expression"))
      case Fatal(e) => Fatal(e)
      case Match(rhs, j) =>
        var folded := BinExprNode(MakeBin(op, lhs, rhs));
        assert ExprHasText(lhs) && ExprHasText(rhs) ==> ExprHasText(folded);
        PExprLoop(toks, j, minPrec, folded)
  }

  /** `parse_scope`: `{`, statements until one fails to start, then `}`. */
  function PScope(toks: seq<Token>, i: nat): (r: Outcome<Scope>)
    requires i <= |toks|
    ensures r.Match? ==> i < r.next <= |toks|
    ensures r.NoMatch? <==> !NextIs(toks, i, OpenCurly)
    ensures Payloaded(toks) && r.Match? ==> ScopeHasText(r.node)
    decreases |toks| - i, 0
  {
    if !NextIs(toks, i, OpenCurly) then NoMatch
    else
      match PStmts(toks, i + 1, [])
      case Failure(e) => Fatal(e)
      case Success((stmts, j)) =>
        match Expect(toks, j, CloseCurly)
        case Failure(err) => Fatal(err)
        case Success(_) => Match(Scope(stmts), j + 1)
  }

  /** The statement loop of `parse_scope`, `acc` holding the statements
      parsed so far; it stops at the first position where no statement
      starts. */
  function PStmts(toks: seq<Token>, i: nat, acc: seq<Stmt>): (r: Result<(seq<Stmt>, nat), ParseError>)
    requires i <= |toks|
    ensures r.Success? ==> i <= r.value.1 <= |toks| && PStmt(toks, r.value.1).NoMatch?
    ensures Payloaded(toks) && StmtsHaveText(acc) && r.Success? ==> StmtsHaveText(r.value.0)
    decreases |toks| - i, 2
  {
    match PStmt(toks, i)
    case NoMatch => Success((acc, i))
    case Fatal(e) => Failure(e)
    case Match(s, j) => PStmts(toks, j, acc + [s])
  }

  /** `parse_if_pred`: an `elif` with its own optional successor, an `else`,
      or nothing. */
  function PIfPred(toks: seq<Token>, i: nat): (r: Outcome<IfPred>)
    requires i <= |toks|
    ensures r.Match? ==> i < r.next <= |toks|
    ensures r.NoMatch? <==> !(NextIs(toks, i, Elif) || NextIs(toks, i, Else))
    ensures Payloaded(toks) && r.Match? ==> PredHasText(r.node)
    decreases |toks| - i, 0
  {
    if NextIs(toks, i, Elif) then
      match PCondTail(toks, i + 1)
      case Match((cond, sc, p), k) => Match(ElifPred(cond, sc, p), k)
      case Fatal(e) => Fatal(e)
      case NoMatch => NoMatch
    else if NextIs(toks, i, Else) then
      match PScope(toks, i + 1)
      case NoMatch => Fatal(ErrorAt(toks, i + 1, "statement"))
      case Fatal(e) => Fatal(e)
      case Match(sc, k) => Match(ElsePred(sc), k)
    else NoMatch
  }

  /** What `if` and `elif` share after their keyword: `(`, an expression,
      `)`, a scope and an optional further predicate. */
  function PCondTail(toks: seq<Token>, i: nat): (r: Outcome<(Expr, Scope, Option<IfPred>)>)
    requires i <= |toks|
    ensures r.Match? ==> i < r.next <= |toks|
    ensures !r.NoMatch?
    ensures Payloaded(toks) && r.Match? ==> ExprHasText(r.node.0) && ScopeHasText(r.node.1) && (r.node.2.Some? ==> PredHasText(r.node.2.value))
    decreases |toks| - i, 0
  {
    match Expect(toks, i, OpenParen)
    case Failure(err) => Fatal(err)
    case Success(_) =>
      match PExpr(toks, i + 1, 0)
      case NoMatch => Fatal(ErrorAt(toks, i + 1, "expression"))
      case Fatal(e) => Fatal(e)
      case Match(cond, j) =>
        match Expect(toks, j, CloseParen)
        case Failure(err) => Fatal(err)
        case Success(_) =>
          match PScope(toks, j + 1)
          case NoMatch => Fatal(ErrorAt(toks, j + 1, "statement"))
          case Fatal(e) => Fatal(e)
          case Match(sc, k) =>
            match PIfPred(toks, k)
            case NoMatch => Match((cond, sc, None), k)
            case Fatal(e) => Fatal(e)
            case Match(p, m) => Match((cond, sc, Some(p)), m)
  }

  /** What follows `exit (`: an expression, `)` and `;`. */
  function PExitTail(toks: seq<Token>, i: nat): (r: Outcome<Expr>)
    requires i <= |toks|
    ensures r.Match? ==> i < r.next <= |toks|
    ensures !r.NoMatch?
    ensures Payloaded(toks) && r.Match? ==> ExprHasText(r.node)
    decreases |toks| - i, 2
  {
    match PExpr(toks, i, 0)
    case NoMatch => Fatal(ErrorAt(toks, i, "expression"))
    case Fatal(e) => Fatal(e)
    case Match(e, j) =>
      match Expect(toks, j, CloseParen)
      case Failure(err) => Fatal(err)
      case Success(_) =>
        match Expect(toks, j + 1, Semi)
        case Failure(err) => Fatal(err)
        case Success(_) => Match(e, j + 2)
  }

  /** The lookahead `parse_stmt` dispatches on: `exit (`, `let ident =`,
      `ident =`, `{` or `if`. */
  predicate StartsStmt(toks: seq<Token>, i: nat)
  {
    || (NextIs(toks, i, Exit) && NextIs(toks, i + 1, OpenParen))
    || (NextIs(toks, i, Let) && NextIs(toks, i + 1, Ident) && NextIs(toks, i + 2, Eq))
    || (NextIs(toks, i, Ident) && NextIs(toks, i + 1, Eq))
    || NextIs(toks, i, OpenCurly)
    || NextIs(toks, i, If)
  }

  /** An expression followed by `;`, as in `let` and assignment. */
  function PExprSemi(toks: seq<Token>, i: nat): (r: Outcome<Expr>)
    requires i <= |toks|
    ensures !r.NoMatch?
    ensures r.Match? ==> i < r.next <= |toks|
    ensures Payloaded(toks) && r.Match? ==> ExprHasText(r.node)
    decreases |toks| - i, 2
  {
    match PExpr(toks, i, 0)
    case NoMatch => Fatal(ErrorAt(toks, i, "expression"))
    case Fatal(e) => Fatal(e)
    case Match(e, j) =>
      match Expect(toks, j, Semi)
      case Failure(err) => Fatal(err)
      case Success(_) => Match(e, j + 1)
  }

  function PStmt(toks: seq<Token>, i: nat): (r: Outcome<Stmt>)
    requires i <= |toks|
    ensures r.Match? ==> i < r.next <= |toks|
    ensures r.NoMatch? <==> !StartsStmt(toks, i)
    ensures Payloaded(toks) && r.Match? ==> StmtHasText(r.node)
    decreases |toks| - i, 1
  {
    if NextIs(toks, i, Exit) && NextIs(toks, i + 1, OpenParen) then
      match PExitTail(toks, i + 2)
      case Match(e, j) => Match(ExitStmt(e), j)
      case Fatal(e) => Fatal(e)
      case NoMatch => NoMatch
    else if NextIs(toks, i, Let) && NextIs(toks, i + 1, Ident) && NextIs(toks, i + 2, Eq) then
      match PExprSemi(toks, i + 3)
      case Match(e, j) => Match(LetStmt(toks[i + 1], e), j)
      case Fatal(e) => Fatal(e)
      case NoMatch => NoMatch
    else if NextIs(toks, i, Ident) && NextIs(toks, i + 1, Eq) then
      match PExprSemi(toks, i + 2)
      case Match(e, j) => Match(AssignStmt(toks[i], e), j)
      case Fatal(e) => Fatal(e)
      case NoMatch => NoMatch
    else if NextIs(toks, i, OpenCurly) then
      match PScope(toks, i)
      case Match(sc, j) => Match(ScopeStmt(sc), j)
      case Fatal(e) => Fatal(e)
      case NoMatch => Fatal(ErrorAt(toks, i, "scope"))
    else if NextIs(toks, i, If) then
      match PCondTail(toks, i + 1)
      case Match((cond, sc, p), k) => Match(IfStmt(cond, sc, p), k)
      case Fatal(e) => Fatal(e)
      case NoMatch => NoMatch
    else NoMatch
  }

  /** The loop of `parse_prog`: while tokens remain, a statement must start
      (otherwise "Expected statement"). */
  function PTop(toks: seq<Token>, i: nat, acc: seq<Stmt>): (r: Result<seq<Stmt>, ParseError>)
    requires i <= |toks|
    ensures Payloaded(toks) && StmtsHaveText(acc) && r.Success? ==> StmtsHaveText(r.value)
    decreases |toks| - i
  {
    if i == |toks| then Success(acc)
    else
      match PStmt(toks, i)
      case NoMatch => Failure(ErrorAt(toks, i, "statement"))
      case Fatal(e) => Failure(e)
      case Match(s, j) => PTop(toks, j, acc + [s])
  }

  /** What `parse_prog` returns for a token vector. */
  function ParseProgram(toks: seq<Token>): (r: Result<Prog, ParseError>)
    ensures Payloaded(toks) && r.Success? ==> StmtsHaveText(r.value.stmts)
  {
    match PTop(toks, 0, [])
    case Success(stmts) => Success(Prog(stmts))
    case Failure(e) => Failure(e)
  }

  /** The parser object: an immutable token vector and the cursor. */
  class Parser {
    const tokens: seq<Token>
    var index: nat

    ghost predicate Valid()
      reads this
    {
      index <= |tokens|
    }

    constructor (tokens: seq<Token>)
      ensures Valid() && this.tokens == tokens && index == 0
    {
      this.tokens := tokens;
      index := 0;
    }

    /** The token `offset` places ahead, if there is one. */
    function Peek(offset: nat): (r: Option<Token>)
      reads this
      ensures r.Some? <==> index + offset < |tokens|
      ensures r.Some? ==> r.value == tokens[index + offset]
    {
      if index + offset >= |tokens| then None else Some(tokens[index + offset])
    }

    method Consume() returns (t: Token)
      requires index < |tokens|
      modifies this
      ensures t == tokens[old(index)] && index == old(index) + 1
    {
      t := tokens[index];
      index := index + 1;
    }

    /** Consumes and returns the next token exactly when it has kind `k`;
        otherwise nothing changes. */
    method TryConsume(k: TokenType) returns (r: Option<Token>)
      requires Valid()
      modifies this
      ensures Valid()
      ensures NextIs(tokens, old(index), k) ==> r == Some(tokens[old(index)]) && index == old(index) + 1
      ensures !NextIs(tokens, old(index), k) ==> r == None && index == old(index)
    {
      if Peek(0).Some? && Peek(0).value.kind == k {
        var t := Consume();
        return Some(t);
      }
      return None;
    }

    /** As TryConsume, but a mismatch is the fatal "Expected <to_string(k)>". */
    method TryConsumeErr(k: TokenType) returns (r: Result<Token, ParseError>)
      requires Valid()
      modifies this
      ensures Valid()
      ensures r == Expect(tokens, old(index), k)
      ensures r.Success? ==> index == old(index) + 1
      ensures r.Failure? ==> index == old(index)
    {
      if Peek(0).Some? && Peek(0).value.kind == k {
        var t := Consume();
        return Success(t);
      }
      return Failure(ErrorExpected(ToString(k)));
    }

    /** The report of `error_expected`, at the current cursor. */
    function ErrorExpected(msg: string): ParseError
      reads this
    {
      ErrorAt(tokens, index, msg)
    }

    method ParseTerm() returns (r: Outcome<Term>)
      requires Valid()
      modifies this
      ensures Valid()
      ensures r == PTerm(tokens, old(index))
      ensures r.Match? ==> index == r.next
      ensures r.NoMatch? ==> index == old(index)
      decreases |tokens| - index, 0
    {
      var intLit := TryConsume(IntLit);
      if intLit.Some? {
        return Match(IntLitTerm(intLit.value), index);
      }
      var ident := TryConsume(Ident);
      if ident.Some? {
        return Match(IdentTerm(ident.value), index);
      }
      var openParen := TryConsume(OpenParen);
      if openParen.Some? {
        var expr := ParseExpr(0);
        if expr.NoMatch? {
          return Fatal(ErrorExpected("expression"));
        } else if expr.Fatal? {
          return Fatal(expr.error);
        }
        var close := TryConsumeErr(CloseParen);
        if close.Failure? {
          return Fatal(close.error);
        }
        return Match(ParenTerm(expr.node), index);
      }
      return NoMatch;
    }

    method ParseExpr(minPrec: int) returns (r: Outcome<Expr>)
      requires Valid()
      modifies this
      ensures Valid()
      ensures r == PExpr(tokens, old(index), minPrec)
      ensures r.Match? ==> index == r.next
      ensures r.NoMatch? ==> index == old(index)
      decreases |tokens| - index, 1
    {
      var termLhs := ParseTerm();
      if termLhs.NoMatch? {
        return NoMatch;
      } else if termLhs.Fatal? {
        return Fatal(termLhs.error);
      }
      var exprLhs := TermExpr(termLhs.node);
      while true
        invariant Valid() && old(index) < index
        invariant PExprLoop(tokens, index, minPrec, exprLhs) == PExpr(tokens, old(index), minPrec)
        decreases |tokens| - index
      {
        var currTok := Peek(0);
        var prec: Option<int>;
        if currTok.Some? {
          prec := BinPrec(currTok.value.kind);
          if prec.None? || prec.value < minPrec {
            break;
          }
        } else {
          break;
        }
        var op := Consume();
        var nextMinPrec := prec.value + 1;
        var exprRhs := ParseExpr(nextMinPrec);
        if exprRhs.NoMatch? {
          return Fatal(ErrorExpected("expression"));
        } else if exprRhs.Fatal? {
          return Fatal(exprRhs.error);
        }
        exprLhs := BinExprNode(MakeBin(op.kind, exprLhs, exprRhs.node));
      }
      return Match(exprLhs, index);
    }

    method ParseScope() returns (r: Outcome<Scope>)
      requires Valid()
      modifies this
      ensures Valid()
      ensures r == PScope(tokens, old(index))
      ensures r.Match? ==> index == r.next
      ensures r.NoMatch? ==> index == old(index)
      decreases |tokens| - index, 0
    {
      var open := TryConsume(OpenCurly);
      if open.None? {
        return NoMatch;
      }
      var stmts: seq<Stmt> := [];
      while true
        invariant Valid() && old(index) < index
        invariant PStmts(tokens, index, stmts) == PStmts(tokens, old(index) + 1, [])
        decreases |tokens| - index
      {
        var stmt := ParseStmt();
        if stmt.NoMatch? {
          break;
        } else if stmt.Fatal? {
          return Fatal(stmt.error);
        }
        stmts := stmts + [stmt.node];
      }
      var close := TryConsumeErr(CloseCurly);
      if close.Failure? {
        return Fatal(close.error);
      }
      return Match(Scope(stmts), index);
    }

    method ParseIfPred() returns (r: Outcome<IfPred>)
      requires Valid()
      modifies this
      ensures Valid()
      ensures r == PIfPred(tokens, old(index))
      ensures r.Match? ==> index == r.next
      ensures r.NoMatch? ==> index == old(index)
      decreases |tokens| - index, 0
    {
      var elif := TryConsume(Elif);
      if elif.Some? {
        var tail := ParseCondTail();
        if tail.Fatal? {
          return Fatal(tail.error);
        }
        var (cond, scope, pred) := tail.node;
        return Match(ElifPred(cond, scope, pred), index);
      }
      var else_ := TryConsume(Else);
      if else_.Some? {
        var scope := ParseScope();
        if scope.NoMatch? {
          return Fatal(ErrorExpected("statement"));
        } else if scope.Fatal? {
          return Fatal(scope.error);
        }
        return Match(ElsePred(scope.node), index);
      }
      return NoMatch;
    }

    method ParseCondTail() returns (r: Outcome<(Expr, Scope, Option<IfPred>)>)
      requires Valid()
      modifies this
      ensures Valid()
      ensures r == PCondTail(tokens, old(index))
      ensures r.Match? ==> index == r.next
      decreases |tokens| - index, 0
    {
      var open := TryConsumeErr(OpenParen);
      if open.Failure? {
        return Fatal(open.error);
      }
      var expr := ParseExpr(0);
      if expr.NoMatch? {
        return Fatal(ErrorExpected("expression"));
      } else if expr.Fatal? {
        return Fatal(expr.error);
      }
      var close := TryConsumeErr(CloseParen);
      if close.Failure? {
        return Fatal(close.error);
      }
      var scope := ParseScope();
      if scope.NoMatch? {
        return Fatal(ErrorExpected("statement"));
      } else if scope.Fatal? {
        return Fatal(scope.error);
      }
      var pred := ParseIfPred();
      if pred.Fatal? {
        return Fatal(pred.error);
      }
      var next := if pred.Match? then Some(pred.node) else None;
      return Match((expr.node, scope.node, next), index);
    }

    method ParseExitTail() returns (r: Outcome<Expr>)
      requires Valid()
      modifies this
      ensures Valid()
      ensures r == PExitTail(tokens, old(index))
      ensures r.Match? ==> index == r.next
      decreases |tokens| - index, 2
    {
      var expr := ParseExpr(0);
      if expr.NoMatch? {
        return Fatal(ErrorExpected("expression"));
      } else if expr.Fatal? {
        return Fatal(expr.error);
      }
      var close := TryConsumeErr(CloseParen);
      if close.Failure? {
        return Fatal(close.error);
      }
      var semi := TryConsumeErr(Semi);
      if semi.Failure? {
        return Fatal(semi.error);
      }
      return Match(expr.node, index);
    }

    /** The `let` branch of `parse_stmt`: `let`, the name and `=` are
        consumed, then an expression and `;`. */
    method ParseLet() returns (r: Outcome<Stmt>)
      requires Valid()
      requires NextIs(tokens, index, Let) && NextIs(tokens, index + 1, Ident) && NextIs(tokens, index + 2, Eq)
      modifies this
      ensures Valid()
      ensures r == PStmt(tokens, old(index))
      ensures r.Match? ==> index == r.next
      decreases |tokens| - index, 0
    {
      var t := Consume();
      var ident := Consume();
      t := Consume();
      var expr := ParseExprSemi();
      if expr.Fatal? {
        return Fatal(expr.error);
      }
      return Match(LetStmt(ident, expr.node), index);
    }

    /** The assignment branch of `parse_stmt`: the name and `=` are
        consumed, then an expression and `;`. */
    method ParseAssign() returns (r: Outcome<Stmt>)
      requires Valid()
      requires NextIs(tokens, index, Ident) && NextIs(tokens, index + 1, Eq)
      modifies this
      ensures Valid()
      ensures r == PStmt(tokens, old(index))
      ensures r.Match? ==> index == r.next
      decreases |tokens| - index, 0
    {
      var ident := Consume();
      var t := Consume();
      var expr := ParseExprSemi();
      if expr.Fatal? {
        return Fatal(expr.error);
      }
      return Match(AssignStmt(ident, expr.node), index);
    }

    /** An expression and a `;`, the tail of `let` and of assignment. */
    method ParseExprSemi() returns (r: Outcome<Expr>)
      requires Valid()
      modifies this
      ensures Valid()
      ensures r == PExprSemi(tokens, old(index))
      ensures r.Match? ==> index == r.next
      decreases |tokens| - index, 2
    {
      var expr := ParseExpr(0);
      if expr.NoMatch? {
        return Fatal(ErrorExpected("expression"));
      } else if expr.Fatal? {
        return Fatal(expr.error);
      }
      var semi := TryConsumeErr(Semi);
      if semi.Failure? {
        return Fatal(semi.error);
      }
      return Match(expr.node, index);
    }

    method ParseStmt() returns (r: Outcome<Stmt>)
      requires Valid()
      modifies this
      ensures Valid()
      ensures r == PStmt(tokens, old(index))
      ensures r.Match? ==> index == r.next
      ensures r.NoMatch? ==> index == old(index)
      decreases |tokens| - index, 1
    {
      if Peek(0).Some? && Peek(0).value.kind == Exit && Peek(1).Some? && Peek(1).value.kind == OpenParen {
        var t := Consume();
        t := Consume();
        var expr := ParseExitTail();
        if expr.Fatal? {
          return Fatal(expr.error);
        }
        return Match(ExitStmt(expr.node), index);
      }
      if Peek(0).Some? && Peek(0).value.kind == Let && Peek(1).Some? && Peek(1).value.kind == Ident
         && Peek(2).Some? && Peek(2).value.kind == Eq {
        r := ParseLet();
        return;
      }
      if Peek(0).Some? && Peek(0).value.kind == Ident && Peek(1).Some? && Peek(1).value.kind == Eq {
        r := ParseAssign();
        return;
      }
      if Peek(0).Some? && Peek(0).value.kind == OpenCurly {
        var scope := ParseScope();
        if scope.Match? {
          return Match(ScopeStmt(scope.node), index);
        }
        return Fatal(if scope.Fatal? then scope.error else ErrorExpected("scope"));
      }
      var if_ := TryConsume(If);
      if if_.Some? {
        var tail := ParseCondTail();
        if tail.Fatal? {
          return Fatal(tail.error);
        }
        var (cond, scope, pred) := tail.node;
        return Match(IfStmt(cond, scope, pred), index);
      }
      return NoMatch;
    }

    /** Parses the whole token vector into top-level statements, then
        resets the cursor to 0. */
    method ParseProg() returns (r: Result<Prog, ParseError>)
      requires Valid()
      modifies this
      ensures Valid()
      ensures old(index) == 0 ==> r == ParseProgram(tokens)
      ensures r == match PTop(tokens, old(index), [])
                   case Success(stmts) => Success(Prog(stmts))
                   case Failure(e) => Failure(e)
      ensures r.Success? ==> index == 0
    {
      var stmts: seq<Stmt> := [];
      while Peek(0).Some?
        invariant Valid()
        invariant PTop(tokens, index, stmts) == PTop(tokens, old(index), [])
        decreases |tokens| - index
      {
        var stmt := ParseStmt();
        if stmt.NoMatch? {
          return Failure(ErrorExpected("statement"));
        } else if stmt.Fatal? {
          return Failure(stmt.error);
        }
        stmts := stmts + [stmt.node];
      }
      index := 0;
      return Success(Prog(stmts));
    }
  }
}
