/** Properties of the parser specification: how operator chains associate,
    how the two precedence levels nest, and that a successful parse of the
    program tiles the whole token vector with top-level statements. */
module ParserFacts {
  import opened Wrappers
  import opened Tokens
  import opened Ast
  import opened Parser

  /** A token that is a whole term on its own. */
  predicate IsAtom(t: Token)
  {
    t.kind == IntLit || t.kind == Ident
  }

  /** The expression an atom token parses to. */
  function Atom(t: Token): Expr
  {
    if t.kind == IntLit then TermExpr(IntLitTerm(t)) else TermExpr(IdentTerm(t))
  }

  lemma AtomTerm(toks: seq<Token>, i: nat)
    requires i < |toks| && IsAtom(toks[i])
    ensures PTerm(toks, i) == Match(Atom(toks[i]).term, i + 1)
  {
  }

  /** `n` pairs of operator and atom starting at `i`, every operator of
      precedence `p`. */
  predicate OpAtomChain(toks: seq<Token>, i: nat, n: nat, p: int)
  {
    i + 2 * n <= |toks| &&
    forall k :: 0 <= k < n ==>
      BinPrec(toks[i + 2 * k].kind) == Some(p) && IsAtom(toks[i + 2 * k + 1])
  }

  /** The left fold the chain denotes: `((lhs o1 a1) o2 a2) ...`. */
  function FoldLeft(toks: seq<Token>, i: nat, n: nat, lhs: Expr, p: int): Expr
    requires OpAtomChain(toks, i, n, p)
    decreases n
  {
    if n == 0 then lhs
    else
      ChainTail(toks, i, n, p);
      FoldLeft(toks, i + 2, n - 1, BinExprNode(MakeBin(toks[i].kind, lhs, Atom(toks[i + 1]))), p)
  }

  /** The first pair of a non-empty chain, and the chain after it. */
  lemma ChainTail(toks: seq<Token>, i: nat, n: nat, p: int)
    requires OpAtomChain(toks, i, n, p) && n > 0
    ensures BinPrec(toks[i].kind) == Some(p) && IsAtom(toks[i + 1])
    ensures OpAtomChain(toks, i + 2, n - 1, p)
  {
    assert BinPrec(toks[i + 2 * 0].kind) == Some(p) && IsAtom(toks[i + 2 * 0 + 1]);
    forall k | 0 <= k < n - 1
      ensures BinPrec(toks[i + 2 + 2 * k].kind) == Some(p) && IsAtom(toks[i + 2 + 2 * k + 1])
    {
      assert i + 2 + 2 * k == i + 2 * (k + 1);
    }
  }

  /** One turn of the operator loop inside a chain: the right operand is
      the atom alone, and the fold with it becomes the new left side. */
  lemma LoopStep(toks: seq<Token>, i: nat, minPrec: int, lhs: Expr, n: nat, p: int)
    requires OpAtomChain(toks, i, n, p) && minPrec <= p && n > 0
    requires StopsAt(toks, i + 2 * n, minPrec)
    ensures BinPrec(toks[i].kind) == Some(p)
    ensures PExprLoop(toks, i, minPrec, lhs)
            == PExprLoop(toks, i + 2, minPrec, BinExprNode(MakeBin(toks[i].kind, lhs, Atom(toks[i + 1]))))
  {
    ChainTail(toks, i, n, p);
    AtomTerm(toks, i + 1);
    // The right operand stops at once: the next token is an operator of
    // precedence p < p + 1, or the chain's end, which stops at minPrec.
    assert StopsAt(toks, i + 2, p + 1) by {
      if n > 1 {
        ChainTail(toks, i + 2, n - 1, p);
      }
    }
    assert PExpr(toks, i + 1, p + 1) == Match(Atom(toks[i + 1]), i + 2);
  }

  /** Operators of one precedence associate to the left: once the operator
      loop meets a chain of such operators with atoms between them, it folds
      them left to right and stops where the chain ends. */
  lemma {:induction false} LoopFoldsLeft(toks: seq<Token>, i: nat, minPrec: int, lhs: Expr, n: nat, p: int)
    requires OpAtomChain(toks, i, n, p) && minPrec <= p
    requires StopsAt(toks, i + 2 * n, minPrec)
    ensures PExprLoop(toks, i, minPrec, lhs) == Match(FoldLeft(toks, i, n, lhs, p), i + 2 * n)
    decreases n
  {
    if n > 0 {
      ChainTail(toks, i, n, p);
      LoopStep(toks, i, minPrec, lhs, n, p);
      var lhs' := BinExprNode(MakeBin(toks[i].kind, lhs, Atom(toks[i + 1])));
      LoopFoldsLeft(toks, i + 2, minPrec, lhs', n - 1, p);
    }
  }

  /** A whole expression `a1 o1 a2 o2 ... an+1` with operators of one
      precedence parses to the left fold. */
  lemma SamePrecedenceFoldsLeft(toks: seq<Token>, i: nat, n: nat, p: int)
    requires i < |toks| && IsAtom(toks[i]) && p >= 0
    requires OpAtomChain(toks, i + 1, n, p)
    requires StopsAt(toks, i + 1 + 2 * n, 0)
    ensures PExpr(toks, i, 0) == Match(FoldLeft(toks, i + 1, n, Atom(toks[i]), p), i + 1 + 2 * n)
  {
    AtomTerm(toks, i);
    LoopFoldsLeft(toks, i + 1, 0, Atom(toks[i]), n, p);
  }

  /** The two three-operand shapes: when the first operator binds at least
      as tightly it takes the middle operand, otherwise the second does. */
  lemma ThreeOperands(a: Token, o1: Token, b: Token, o2: Token, c: Token)
    requires IsAtom(a) && IsAtom(b) && IsAtom(c)
    requires BinPrec(o1.kind).Some? && BinPrec(o2.kind).Some?
    ensures var toks := [a, o1, b, o2, c];
      PExpr(toks, 0, 0) ==
        if BinPrec(o1.kind).value >= BinPrec(o2.kind).value then
          Match(BinExprNode(MakeBin(o2.kind, BinExprNode(MakeBin(o1.kind, Atom(a), Atom(b))), Atom(c))), 5)
        else
          Match(BinExprNode(MakeBin(o1.kind, Atom(a), BinExprNode(MakeBin(o2.kind, Atom(b), Atom(c))))), 5)
  {
    var toks := [a, o1, b, o2, c];
    var p1, p2 := BinPrec(o1.kind).value, BinPrec(o2.kind).value;
    AtomTerm(toks, 0);
    AtomTerm(toks, 2);
    AtomTerm(toks, 4);
    assert PExprLoop(toks, 5, p2 + 1, Atom(c)) == Match(Atom(c), 5);
    assert PExpr(toks, 4, p2 + 1) == Match(Atom(c), 5);
    if p2 <= p1 {
      assert PExpr(toks, 2, p1 + 1) == Match(Atom(b), 3);
      var ab := BinExprNode(MakeBin(o1.kind, Atom(a), Atom(b)));
      assert PExprLoop(toks, 5, 0, BinExprNode(MakeBin(o2.kind, ab, Atom(c))))
        == Match(BinExprNode(MakeBin(o2.kind, ab, Atom(c))), 5);
      assert PExprLoop(toks, 3, 0, ab) == Match(BinExprNode(MakeBin(o2.kind, ab, Atom(c))), 5);
    } else {
      var bc := BinExprNode(MakeBin(o2.kind, Atom(b), Atom(c)));
      assert PExprLoop(toks, 5, p1 + 1, bc) == Match(bc, 5);
      assert PExprLoop(toks, 3, p1 + 1, Atom(b)) == Match(bc, 5);
      assert PExpr(toks, 2, p1 + 1) == Match(bc, 5);
      var abc := BinExprNode(MakeBin(o1.kind, Atom(a), bc));
      assert PExprLoop(toks, 5, 0, abc) == Match(abc, 5);
    }
  }

  /** `8 - 3 - 2` is `(8 - 3) - 2`. */
  lemma SubtractionIsLeftAssociative()
    ensures PExpr([LitTok("8"), Plain(Minus, 1), LitTok("3"), Plain(Minus, 1), LitTok("2")], 0, 0)
      == Match(BinExprNode(Sub(BinExprNode(Sub(Atom(LitTok("8")), Atom(LitTok("3")))), Atom(LitTok("2")))), 5)
  {
    ThreeOperands(LitTok("8"), Plain(Minus, 1), LitTok("3"), Plain(Minus, 1), LitTok("2"));
  }

  /** `1 + 2 * 3` is `1 + (2 * 3)`. */
  lemma ProductBindsRight()
    ensures PExpr([LitTok("1"), Plain(Plus, 1), LitTok("2"), Plain(Star, 1), LitTok("3")], 0, 0)
      == Match(BinExprNode(Add(Atom(LitTok("1")), BinExprNode(Multi(Atom(LitTok("2")), Atom(LitTok("3")))))), 5)
  {
    ThreeOperands(LitTok("1"), Plain(Plus, 1), LitTok("2"), Plain(Star, 1), LitTok("3"));
  }

  /** `2 * 3 + 1` is `(2 * 3) + 1`. */
  lemma ProductBindsLeft()
    ensures PExpr([LitTok("2"), Plain(Star, 1), LitTok("3"), Plain(Plus, 1), LitTok("1")], 0, 0)
      == Match(BinExprNode(Add(BinExprNode(Multi(Atom(LitTok("2")), Atom(LitTok("3")))), Atom(LitTok("1")))), 5)
  {
    ThreeOperands(LitTok("2"), Plain(Star, 1), LitTok("3"), Plain(Plus, 1), LitTok("1"));
  }

  /** `stmts` are the statements `parse_stmt` reads one after another from
      `i`, the last of them ending exactly at the end of the tokens. */
  ghost predicate Tiles(toks: seq<Token>, i: nat, stmts: seq<Stmt>)
    requires i <= |toks|
    decreases |stmts|
  {
    if stmts == [] then i == |toks|
    else
      i < |toks| && PStmt(toks, i).Match? && PStmt(toks, i).node == stmts[0]
      && Tiles(toks, PStmt(toks, i).next, stmts[1..])
  }

  /** The top-level loop succeeds exactly with the statements that tile
      the rest of the tokens, appended to those already collected. */
  lemma {:induction false} TopTiles(toks: seq<Token>, i: nat, acc: seq<Stmt>)
    requires i <= |toks|
    ensures PTop(toks, i, acc).Success? ==>
      acc <= PTop(toks, i, acc).value && Tiles(toks, i, PTop(toks, i, acc).value[|acc|..])
    decreases |toks| - i
  {
    if i < |toks| && PStmt(toks, i).Match? {
      var s, j := PStmt(toks, i).node, PStmt(toks, i).next;
      TopTiles(toks, j, acc + [s]);
      if PTop(toks, j, acc + [s]).Success? {
        var r := PTop(toks, j, acc + [s]).value;
        assert r[|acc|..][1..] == r[|acc + [s]|..];
      }
    } else if i == |toks| {
      assert acc[|acc|..] == [];
    }
  }

  lemma {:induction false} TilesTop(toks: seq<Token>, i: nat, acc: seq<Stmt>, stmts: seq<Stmt>)
    requires i <= |toks| && Tiles(toks, i, stmts)
    ensures PTop(toks, i, acc) == Success(acc + stmts)
    decreases |stmts|
  {
    if stmts == [] {
      assert acc + stmts == acc;
    } else {
      TilesTop(toks, PStmt(toks, i).next, acc + [stmts[0]], stmts[1..]);
      assert acc + [stmts[0]] + stmts[1..] == acc + stmts;
    }
  }

  /** A program parses exactly when its tokens are tiled by statements, and
      then to those statements. */
  lemma ParseProgramTiles(toks: seq<Token>)
    ensures ParseProgram(toks).Success? ==> Tiles(toks, 0, ParseProgram(toks).value.stmts)
    ensures forall stmts :: Tiles(toks, 0, stmts) ==> ParseProgram(toks) == Success(Prog(stmts))
  {
    TopTiles(toks, 0, []);
    forall stmts | Tiles(toks, 0, stmts)
      ensures ParseProgram(toks) == Success(Prog(stmts))
    {
      TilesTop(toks, 0, [], stmts);
      assert [] + stmts == stmts;
    }
  }
}
