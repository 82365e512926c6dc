/** The descent finds every well-formed tree in the tokens it is written with. */
module Completeness {
  import opened Ast
  import opened Tokens
  import opened Rendering
  import opened Grammar

  /** The kinds of token that an expression starts with. */
  predicate Opens(kind: TokenType) {
    IsLiteral(kind) || kind == TLsb || kind == TId || kind == TLrb || UnOpAt(kind).Some?
  }

  lemma {:induction false} FirstToken(t: Tree, w: seq<Token>)
    requires WellFormed(t)
    ensures Opens(Kind(Yield(t) + w))
    ensures Level(t) >= 10 ==> UnOpAt(Kind(Yield(t) + w)).None?
    ensures Level(t) == 11 ==> Kind(Yield(t) + w) in {TId, TLrb}
  {
    hide Spelling, Commas, AllWellFormed;
    match t {
      case TreeBinary(_, l, _) => FirstToken(l, w);
      case TreeTrinary(c, _, _) => FirstToken(c, w);
      case TreeIndex(o, _) => FirstToken(o, w);
      case TreeField(o, _) => FirstToken(o, w);
      case TreeCall(f, _) => FirstToken(f, w);
      case _ =>
    }
  }

  lemma {:induction false} Cons(x: Token, w: seq<Token>)
    ensures ([x] + w)[1..] == w && Kind([x] + w) == x.kind && ([x] + w)[0] == x
  {
  }

  lemma {:induction false} ConsTwo(x: Token, y: Token, w: seq<Token>)
    ensures var v := [x] + ([y] + w);
            v[2..] == w && v[1..] == [y] + w && v[0] == x && v[1] == y && Kind(v) == x.kind && Kind(v[1..]) == y.kind
  {
  }

  // ----- reassociating what is written -----

  lemma {:induction false} RightToLeft(a: seq<Token>, b: seq<Token>, c: seq<Token>, w: seq<Token>)
    ensures a + b + c + w == a + (b + (c + w))
    ensures a + b + w == a + (b + w)
  {
  }

  lemma {:induction false} YieldParen(e: Tree, w: seq<Token>)
    ensures Yield(TreeParen(e)) + w == [T(TLrb)] + (Yield(e) + ([T(TRrb)] + w))
  {
    hide Spelling;
    RightToLeft([T(TLrb)], Yield(e), [T(TRrb)], w);
  }

  lemma {:induction false} YieldUnary(op: UnOp, a: Tree, w: seq<Token>)
    ensures Yield(TreeUnary(op, a)) + w == [T(UnToken(op))] + (Yield(a) + w)
  {
    hide Spelling;
    RightToLeft([T(UnToken(op))], Yield(a), [], w);
  }

  lemma {:induction false} YieldBinary(op: BinOp, l: Tree, r: Tree, w: seq<Token>)
    ensures Yield(TreeBinary(op, l, r)) + w == Yield(l) + ([T(BinToken(op))] + (Yield(r) + w))
  {
    hide Spelling, BinToken;
    RightToLeft(Yield(l), [T(BinToken(op))], Yield(r), w);
  }

  lemma {:induction false} YieldTrinary(c: Tree, t: Tree, f: Tree, w: seq<Token>)
    ensures Yield(TreeTrinary(c, t, f)) + w ==
            Yield(c) + ([T(TQuestion)] + (Yield(t) + ([T(TColon)] + (Yield(f) + w))))
  {
    hide Spelling;
    RightToLeft(Yield(c) + [T(TQuestion)] + Yield(t), [T(TColon)], Yield(f), w);
    RightToLeft(Yield(c), [T(TQuestion)], Yield(t), [T(TColon)] + (Yield(f) + w));
  }

  lemma {:induction false} YieldIndex(o: Tree, k: Tree, w: seq<Token>)
    ensures Yield(TreeIndex(o, k)) + w == Yield(o) + ([T(TLsb)] + (Yield(k) + ([T(TRsb)] + w)))
  {
    hide Spelling;
    RightToLeft(Yield(o) + [T(TLsb)], Yield(k), [T(TRsb)], w);
    RightToLeft(Yield(o), [T(TLsb)], [], Yield(k) + ([T(TRsb)] + w));
  }

  lemma {:induction false} YieldField(o: Tree, x: string, w: seq<Token>)
    ensures Yield(TreeField(o, x)) + w == Yield(o) + ([T(TDot)] + ([Token(TId, x)] + w))
  {
    hide Spelling;
    RightToLeft(Yield(o), [T(TDot)], [Token(TId, x)], w);
    RightToLeft(Yield(o), [T(TDot), Token(TId, x)], [], w);
    RightToLeft([T(TDot)], [Token(TId, x)], [], w);
  }

  lemma {:induction false} YieldCall(f: Tree, args: seq<Tree>, w: seq<Token>)
    ensures Yield(TreeCall(f, args)) + w == Yield(f) + ([T(TLrb)] + (Commas(args) + ([T(TRrb)] + w)))
  {
    hide Spelling, Commas;
    RightToLeft(Yield(f) + [T(TLrb)], Commas(args), [T(TRrb)], w);
    RightToLeft(Yield(f), [T(TLrb)], [], Commas(args) + ([T(TRrb)] + w));
  }

  lemma {:induction false} YieldArray(es: seq<Tree>, trailing: bool, w: seq<Token>)
    ensures Yield(TreeArray(es, trailing)) + w ==
            [T(TLsb)] + (Commas(es) + AfterLast(trailing, w))
  {
    hide Spelling, Commas;
    var comma := if trailing then [T(TComma)] else [];
    RightToLeft([T(TLsb)] + Commas(es), comma, [T(TRsb)], w);
    RightToLeft([T(TLsb)], Commas(es), [], AfterLast(trailing, w));
  }

  lemma {:induction false} CommasFirst(t: Tree, ts: seq<Tree>, w: seq<Token>)
    ensures Commas([t] + ts) + w == Yield(t) + (Rest(ts) + w)
  {
    assert ([t] + ts)[1..] == ts;
  }

  /** What stands behind an argument: a comma and the others, if there are any. */
  function Rest(ts: seq<Tree>): seq<Token> {
    if ts == [] then [] else [T(TComma)] + Commas(ts)
  }

  // ----- the descent finds the tree -----

  lemma {:induction false} CompleteExpr(t: Tree, w: seq<Token>)
    requires WellFormed(t) && Ends(0, t, w)
    ensures PExpr(Yield(t) + w) == Some((t, w))
    decreases t, 30, 0
  {
    hide PBinary, Yield, Spelling;
    if t.TreeTrinary? {
      var w3 := Yield(t.onFalse) + w;
      var w2 := [T(TColon)] + w3;
      var w1 := [T(TQuestion)] + (Yield(t.onTrue) + w2);
      YieldTrinary(t.cond, t.onTrue, t.onFalse, w);
      CompleteBinary(1, t.cond, w1);
      CompleteExpr(t.onTrue, w2);
      CompleteExpr(t.onFalse, w);
      Cons(T(TQuestion), Yield(t.onTrue) + w2);
      Cons(T(TColon), w3);
    } else {
      CompleteBinary(1, t, w);
    }
  }

  lemma {:induction false} CompleteBinary(p: nat, t: Tree, w: seq<Token>)
    requires 1 <= p <= MAX_LEVEL && WellFormed(t) && Level(t) >= p && Ends(p, t, w)
    ensures PBinary(p, Yield(t) + w) == Some((t, w))
    decreases t, 30 - p, 2
  {
    hide PBinary, Yield;
    CompleteLeft(p, t, w);
  }

  /** The left operand's tokens read, the loop goes on with it. */
  lemma {:induction false} CompleteLeft(p: nat, t: Tree, w: seq<Token>)
    requires 1 <= p <= MAX_LEVEL && WellFormed(t) && Level(t) >= p && Ends(p + 1, t, w)
    ensures PBinary(p, Yield(t) + w) == PBinaryTail(p, t, w)
    decreases t, 30 - p, 1
  {
    hide POperand, Yield, Spelling;
    if t.TreeBinary? && Priority(t.binop) == p {
      var w1 := Yield(t.right) + w;
      YieldBinary(t.binop, t.left, t.right, w);
      CompleteLeft(p, t.left, [T(BinToken(t.binop))] + w1);
      CompleteOperand(p, t.right, w);
      Cons(T(BinToken(t.binop)), w1);
    } else {
      CompleteOperand(p, t, w);
    }
  }

  lemma {:induction false} CompleteOperand(p: nat, t: Tree, w: seq<Token>)
    requires 1 <= p <= MAX_LEVEL && WellFormed(t) && Level(t) > p && Ends(p + 1, t, w)
    ensures POperand(p, Yield(t) + w) == Some((t, w))
    decreases t, 30 - p, 0
  {
    hide PBinary, PUnary, Yield;
    if p < MAX_LEVEL {
      CompleteBinary(p + 1, t, w);
    } else {
      CompleteUnary(t, w);
    }
  }

  lemma {:induction false} CompleteUnary(t: Tree, w: seq<Token>)
    requires WellFormed(t) && Level(t) >= 9 && Ends(9, t, w)
    ensures PUnary(Yield(t) + w) == Some((t, w))
    decreases t, 9, 0
  {
    hide PAtom, Yield, Spelling;
    if t.TreeUnary? {
      YieldUnary(t.unop, t.arg, w);
      Cons(T(UnToken(t.unop)), Yield(t.arg) + w);
      CompleteAtom(t.arg, w);
    } else {
      FirstToken(t, w);
      CompleteAtom(t, w);
    }
  }

  lemma {:induction false} CompleteAtom(t: Tree, w: seq<Token>)
    requires WellFormed(t) && Level(t) >= 10 && Ends(9, t, w)
    ensures PAtom(Yield(t) + w) == Some((t, w))
    decreases t, 8, 0
  {
    hide PSuffixed, PElems, Spelling, Commas, AfterLast;
    if t.TreeLit? {
      Cons(t.tok, w);
    } else if t.TreeArray? {
      YieldArray(t.elems, t.trailing, w);
      Cons(T(TLsb), Commas(t.elems) + AfterLast(t.trailing, w));
      CompleteArray(t, w);
    } else {
      FirstToken(t, w);
      CompleteSuffixed(t, w);
    }
  }

  lemma {:induction false} CompleteArray(t: Tree, w: seq<Token>)
    requires t.TreeArray? && WellFormed(t)
    ensures PElems(Commas(t.elems) + AfterLast(t.trailing, w), false) == Some(((t.elems, t.trailing), w))
    decreases t, 7, 0
  {
    hide PElems, Spelling, Commas, AfterLast;
    if t.elems == [] {
      NoElems(w, false);
      EmptyArray(w);
    } else {
      CompleteElems(t.elems, t.trailing, w, false);
    }
  }

  lemma {:induction false} EmptyArray(w: seq<Token>)
    ensures Commas([]) + AfterLast(false, w) == [T(TRsb)] + w
  {
    hide Spelling;
    assert Commas([]) == [] && AfterLast(false, w) == [T(TRsb)] + w;
  }

  /** The tokens of a suffixed expression read, the loop goes on with it. */
  lemma {:induction false} CompleteSuffixed(t: Tree, w: seq<Token>)
    requires WellFormed(t) && Level(t) == 11
    ensures PSuffixed(Yield(t) + w) == PSuffixes(t, w)
    decreases t, 7, 0
  {
    hide PExpr, PArgs, PSuffixed, PSuffixes, PPrimary, Spelling, Yield;
    match t {
      case TreeName(x) => CompleteName(x, w);
      case TreeParen(e) =>
        CompleteExpr(e, [T(TRrb)] + w);
        CompleteParen(e, w);
      case TreeIndex(o, k) =>
        var w1 := [T(TLsb)] + (Yield(k) + ([T(TRsb)] + w));
        YieldIndex(o, k, w);
        CompleteSuffixed(o, w1);
        CompleteExpr(k, [T(TRsb)] + w);
        CompleteIndex(o, k, w);
      case TreeField(o, x) =>
        YieldField(o, x, w);
        CompleteSuffixed(o, [T(TDot)] + ([Token(TId, x)] + w));
        CompleteField(o, x, w);
      case TreeCall(f, args) =>
        YieldCall(f, args, w);
        CompleteSuffixed(f, [T(TLrb)] + (Commas(args) + ([T(TRrb)] + w)));
        CompleteArgs(args, w);
        CompleteCall(f, args, w);
    }
  }

  lemma {:induction false} CompleteParen(e: Tree, w: seq<Token>)
    requires PExpr(Yield(e) + ([T(TRrb)] + w)) == Some((e, [T(TRrb)] + w))
    ensures PSuffixed(Yield(TreeParen(e)) + w) == PSuffixes(TreeParen(e), w)
  {
    hide PExpr, Spelling, PSuffixes;
    YieldParen(e, w);
    Cons(T(TLrb), Yield(e) + ([T(TRrb)] + w));
    Cons(T(TRrb), w);
  }

  lemma {:induction false} CompleteIndex(o: Tree, k: Tree, w: seq<Token>)
    requires PExpr(Yield(k) + ([T(TRsb)] + w)) == Some((k, [T(TRsb)] + w))
    ensures PSuffixes(o, [T(TLsb)] + (Yield(k) + ([T(TRsb)] + w))) == PSuffixes(TreeIndex(o, k), w)
  {
    hide PExpr, PArgs, Spelling, Yield;
    Cons(T(TLsb), Yield(k) + ([T(TRsb)] + w));
    Cons(T(TRsb), w);
  }

  lemma {:induction false} CompleteField(o: Tree, x: string, w: seq<Token>)
    ensures PSuffixes(o, [T(TDot)] + ([Token(TId, x)] + w)) == PSuffixes(TreeField(o, x), w)
  {
    hide PExpr, PArgs, Spelling;
    var w1 := [Token(TId, x)] + w;
    Cons(T(TDot), w1);
    Cons(Token(TId, x), w);
    assert ([T(TDot)] + w1)[2..] == w && ([T(TDot)] + w1)[1] == Token(TId, x);
  }

  lemma {:induction false} CompleteCall(f: Tree, args: seq<Tree>, w: seq<Token>)
    requires PArgs(Commas(args) + ([T(TRrb)] + w), true) == Some((args, w))
    ensures PSuffixes(f, [T(TLrb)] + (Commas(args) + ([T(TRrb)] + w))) == PSuffixes(TreeCall(f, args), w)
  {
    hide PExpr, PArgs, Spelling, Commas;
    Cons(T(TLrb), Commas(args) + ([T(TRrb)] + w));
  }

  lemma {:induction false} CompleteName(x: string, w: seq<Token>)
    ensures PSuffixed(Yield(TreeName(x)) + w) == PSuffixes(TreeName(x), w)
  {
    Cons(Token(TId, x), w);
  }

  lemma {:induction false} CompleteArgs(ts: seq<Tree>, w: seq<Token>)
    requires AllWellFormed(ts)
    ensures PArgs(Commas(ts) + ([T(TRrb)] + w), true) == Some((ts, w))
    decreases ts, 0
  {
    hide PExpr, Spelling, Yield;
    if ts == [] {
      assert Commas(ts) + ([T(TRrb)] + w) == [T(TRrb)] + w;
      Cons(T(TRrb), w);
    } else {
      var w1 := Rest(ts[1..]) + ([T(TRrb)] + w);
      assert ts == [ts[0]] + ts[1..];
      CommasFirst(ts[0], ts[1..], [T(TRrb)] + w);
      FirstToken(ts[0], w1);
      CompleteExpr(ts[0], w1);
      CompleteMoreArgs(ts[1..], w);
    }
  }

  lemma {:induction false} CompleteMoreArgs(ts: seq<Tree>, w: seq<Token>)
    requires AllWellFormed(ts)
    ensures PArgs(Rest(ts) + ([T(TRrb)] + w), false) == Some((ts, w))
    decreases ts, 1
  {
    hide PExpr, Spelling, Yield;
    if ts == [] {
      assert Rest(ts) + ([T(TRrb)] + w) == [T(TRrb)] + w;
      Cons(T(TRrb), w);
    } else {
      var w1 := Rest(ts[1..]) + ([T(TRrb)] + w);
      assert ts == [ts[0]] + ts[1..];
      CommasFirst(ts[0], ts[1..], [T(TRrb)] + w);
      assert Rest(ts) + ([T(TRrb)] + w) == [T(TComma)] + (Yield(ts[0]) + w1);
      Cons(T(TComma), Yield(ts[0]) + w1);
      CompleteExpr(ts[0], w1);
      CompleteMoreArgs(ts[1..], w);
    }
  }

  /** An element read, with what stands behind it. */
  lemma {:induction false} CompleteElem(e: Tree, w: seq<Token>, comma: bool)
    requires WellFormed(e) && (Kind(w) == TComma || Kind(w) == TRsb)
    ensures PElems(Yield(e) + w, comma) ==
            if Kind(w) == TRsb then Some((([e], false), w[1..])) else
            match PElems(w[1..], true)
            case None => None
            case Some(((es, trailing), w2)) => Some((([e] + es, trailing), w2))
    decreases e, 31
  {
    hide PExpr, Spelling, Yield;
    FirstToken(e, w);
    CompleteExpr(e, w);
  }

  function AfterLast(trailing: bool, w: seq<Token>): seq<Token> {
    (if trailing then [T(TComma)] else []) + ([T(TRsb)] + w)
  }

  lemma {:induction false} CompleteLastElem(e: Tree, trailing: bool, w: seq<Token>, comma: bool)
    requires WellFormed(e)
    ensures PElems(Yield(e) + AfterLast(trailing, w), comma) == Some((([e], trailing), w))
    decreases e, 32
  {
    hide PElems, Spelling, Yield;
    Cons(T(TRsb), w);
    CompleteElem(e, AfterLast(trailing, w), comma);
    if trailing {
      assert AfterLast(true, w) == [T(TComma)] + ([T(TRsb)] + w);
      Cons(T(TComma), [T(TRsb)] + w);
      NoElems(w, true);
      assert [e] + [] == [e];
    } else {
      assert AfterLast(false, w) == [T(TRsb)] + w;
    }
  }

  lemma {:induction false} CompleteElems(es: seq<Tree>, trailing: bool, w: seq<Token>, comma: bool)
    requires AllWellFormed(es) && es != []
    ensures PElems(Commas(es) + AfterLast(trailing, w), comma) == Some(((es, trailing), w))
    decreases es, 0
  {
    hide PElems, Spelling, Yield, AfterLast;
    if |es| == 1 {
      CompleteLastElem(es[0], trailing, w, comma);
      assert es == [es[0]];
    } else {
      var w1 := Commas(es[1..]) + AfterLast(trailing, w);
      Cons(T(TComma), w1);
      assert Commas(es) + AfterLast(trailing, w) == Yield(es[0]) + ([T(TComma)] + w1);
      CompleteElem(es[0], [T(TComma)] + w1, comma);
      CompleteElems(es[1..], trailing, w, true);
      assert [es[0]] + es[1..] == es;
    }
  }

  lemma {:induction false} NoElems(w: seq<Token>, comma: bool)
    ensures PElems([T(TRsb)] + w, comma) == Some((([], comma), w))
  {
    Cons(T(TRsb), w);
  }
}
