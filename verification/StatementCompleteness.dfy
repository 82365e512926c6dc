/** The descent finds every statement in the tokens it is written with. */
module StatementCompleteness {
  import opened Ast
  import opened Tokens
  import opened Rendering
  import opened Grammar
  import opened Completeness
  import opened Printing
  import opened Statements

  // ----- types -----

  function TypeRest(ts: seq<TypeRef>): seq<Token> {
    if ts == [] then [] else [T(TComma)] + TypeCommas(ts)
  }

  lemma {:induction false} TypeListCons(t: TypeRef, ts: seq<TypeRef>, w: seq<Token>)
    ensures TypeCommas([t] + ts) + w == YType(t) + (TypeRest(ts) + w)
    ensures TypeRest([t] + ts) + w == [T(TComma)] + (YType(t) + (TypeRest(ts) + w))
  {
    hide Spelling, YType;
    assert ([t] + ts)[1..] == ts;
    assert TypeCommas([t] + ts) == YType(t) + TypeRest(ts);
  }

  lemma {:induction false} YieldType(t: TypeRef, w: seq<Token>)
    ensures YType(t) + w == [Token(TId, t.name)]
              + if t.args == [] then w else [T(TLt)] + (TypeCommas(t.args) + ([T(TGt)] + w))
  {
    hide Spelling, TypeCommas;
  }

  lemma {:induction false} CompleteType(t: TypeRef, w: seq<Token>)
    requires t.args == [] ==> Kind(w) != TLt
    ensures PType(YType(t) + w) == Some((t, w))
    decreases t, 2
  {
    hide Spelling, YType, TypeCommas, PTypeArgs;
    YieldType(t, w);
    if t.args == [] {
      Cons(Token(TId, t.name), w);
    } else {
      var w1 := TypeCommas(t.args) + ([T(TGt)] + w);
      CompleteTypeArgs(t.args, w);
      ConsTwo(Token(TId, t.name), T(TLt), w1);
    }
  }

  lemma {:induction false} CompleteTypeArgs(ts: seq<TypeRef>, w: seq<Token>)
    requires ts != []
    ensures PTypeArgs(TypeCommas(ts) + ([T(TGt)] + w), true) == Some((ts, w))
    decreases ts, 0
  {
    hide Spelling, YType, TypeCommas, PType, TypeRest;
    var w1 := TypeRest(ts[1..]) + ([T(TGt)] + w);
    assert ts == [ts[0]] + ts[1..];
    TypeListCons(ts[0], ts[1..], [T(TGt)] + w);
    YieldType(ts[0], w1);
    CompleteMoreTypes(ts[1..], w);
    CompleteType(ts[0], w1) by { TypeRestKind(ts[1..], w); }
  }

  lemma {:induction false} TypeRestKind(ts: seq<TypeRef>, w: seq<Token>)
    ensures Kind(TypeRest(ts) + ([T(TGt)] + w)) == if ts == [] then TGt else TComma
  {
  }

  lemma {:induction false} CompleteMoreTypes(ts: seq<TypeRef>, w: seq<Token>)
    ensures PTypeArgs(TypeRest(ts) + ([T(TGt)] + w), false) == Some((ts, w))
    decreases ts, 1
  {
    hide Spelling, YType, TypeCommas, PType;
    if ts == [] {
      assert TypeRest(ts) + ([T(TGt)] + w) == [T(TGt)] + w;
      Cons(T(TGt), w);
    } else {
      hide TypeRest;
      var w1 := TypeRest(ts[1..]) + ([T(TGt)] + w);
      assert ts == [ts[0]] + ts[1..];
      TypeListCons(ts[0], ts[1..], [T(TGt)] + w);
      Cons(T(TComma), YType(ts[0]) + w1);
      CompleteMoreTypes(ts[1..], w);
      CompleteType(ts[0], w1) by { TypeRestKind(ts[1..], w); }
    }
  }

  lemma {:induction false} CompleteOptType(t: Option<TypeRef>, w: seq<Token>)
    requires Kind(w) == TAssign
    ensures POptType(YOptType(t) + w) == Some((t, w))
  {
    hide Spelling, YType, PType;
    match t {
      case None => assert YOptType(t) + w == w;
      case Some(ty) =>
        assert YOptType(t) + w == [T(TColon)] + (YType(ty) + w);
        Cons(T(TColon), YType(ty) + w);
        CompleteType(ty, w);
    }
  }

  // ----- statements that end with a semicolon -----

  lemma {:induction false} YieldDef(s: STree, w: seq<Token>)
    requires s.StDef?
    ensures YBody(s) + w ==
            [T(if s.variable then TVar else TVal)]
            + ([Token(TId, s.name)] + (YOptType(s.ty) + ([T(TAssign)] + (Yield(s.value) + w))))
  {
    hide Spelling, Yield, YOptType;
  }

  lemma {:induction false} CompleteDefParts(k: TokenType, x: string, ty: Option<TypeRef>, v: Tree, w: seq<Token>)
    requires (k == TVar || k == TVal) && WellFormed(v) && Stops(w)
    ensures PDef([T(k)] + ([Token(TId, x)] + (YOptType(ty) + ([T(TAssign)] + (Yield(v) + w))))) ==
            Some((StDef(k == TVar, x, ty, v), w))
  {
    hide Spelling, Yield, YOptType, POptType, PExpr, WellFormed;
    var w2 := [T(TAssign)] + (Yield(v) + w);
    ConsTwo(T(k), Token(TId, x), YOptType(ty) + w2);
    Cons(T(TAssign), Yield(v) + w);
    CompleteOptType(ty, w2);
    CompleteExpr(v, w);
  }

  lemma {:induction false} CompleteDef(s: STree, w: seq<Token>)
    requires s.StDef? && SFormed(s) && Stops(w)
    ensures PDef(YBody(s) + w) == Some((s, w))
  {
    hide Spelling, Yield, YOptType, YBody, PDef;
    YieldDef(s, w);
    CompleteDefParts(if s.variable then TVar else TVal, s.name, s.ty, s.value, w);
  }

  lemma {:induction false} CompleteAssignOrCall(s: STree, w: seq<Token>)
    requires (s.StAssign? || s.StInvoke?) && SFormed(s) && Stops(w) && Kind(w) != TAssign
    ensures PAssignOrCall(YBody(s) + w) == Some((s, w))
    ensures Kind(YBody(s) + w) in {TId, TLrb}
  {
    hide PAssignOrCall, YBody, Stops;
    if s.StAssign? {
      CompleteAssign(s.left, s.right, w);
    } else {
      CompleteInvoke(s.call, w);
    }
  }

  lemma {:induction false} CompleteInvoke(c: Tree, w: seq<Token>)
    requires WellFormed(c) && Level(c) == 11 && Erase(c).Call? && Stops(w) && Kind(w) != TAssign
    ensures var u := YBody(StInvoke(c)) + w;
            PAssignOrCall(u) == Some((StInvoke(c), w)) && Kind(u) in {TId, TLrb}
  {
    hide Spelling, Yield, PExpr, PSuffixed, WellFormed, Erase;
    CompleteSuffixed(c, w);
    FirstToken(c, w);
  }

  lemma {:induction false} CompleteAssign(l: Tree, v: Tree, w: seq<Token>)
    requires WellFormed(l) && Level(l) == 11 && WellFormed(v) && Stops(w)
    ensures var u := YBody(StAssign(l, v)) + w;
            PAssignOrCall(u) == Some((StAssign(l, v), w)) && Kind(u) in {TId, TLrb}
  {
    hide Spelling, Yield, PExpr, PSuffixed, WellFormed, Erase;
    var w1 := Yield(v) + w;
    var w2 := [T(TAssign)] + w1;
    RightToLeft(Yield(l), [T(TAssign)], Yield(v), w);
    Cons(T(TAssign), w1);
    CompleteSuffixed(l, w2);
    CompleteExpr(v, w);
    FirstToken(l, w2);
  }

  lemma {:induction false} CompleteReturn(s: STree, w: seq<Token>)
    requires s.StReturn? && SFormed(s) && Kind(w) == TSemicolon
    ensures PReturn(YBody(s) + w) == Some((s, w)) && Kind(YBody(s) + w) == TReturn
  {
    hide Spelling, Yield, PExpr;
    match s.result {
      case None => Cons(T(TReturn), w);
      case Some(v) =>
        assert YBody(s) + w == [T(TReturn)] + (Yield(v) + w);
        Cons(T(TReturn), Yield(v) + w);
        FirstToken(v, w);
        CompleteExpr(v, w);
    }
  }

  lemma {:induction false} CompleteStep(s: STree, w: seq<Token>)
    requires (s.StDef? || s.StAssign? || s.StInvoke?) && SFormed(s) && Kind(w) == TRrb
    ensures PStep(YBody(s) + w) == Some((s, w))
  {
    hide YBody, PDef, PAssignOrCall;
    if s.StDef? {
      DefKind(s, w);
      CompleteDef(s, w);
    } else {
      CompleteAssignOrCall(s, w);
    }
  }

  lemma {:induction false} DefKind(s: STree, w: seq<Token>)
    requires s.StDef?
    ensures Kind(YBody(s) + w) == if s.variable then TVar else TVal
  {
    YieldDef(s, w);
  }

  predicate IsSimple(s: STree) {
    !s.StIf? && !s.StLoop? && !s.StBlock?
  }

  lemma {:induction false} YieldSimple(s: STree, w: seq<Token>)
    requires IsSimple(s)
    ensures YStmt(s) + w == YBody(s) + ([T(TSemicolon)] + w)
  {
    hide Spelling, YBody;
  }

  lemma {:induction false} CompleteSimple(s: STree, w: seq<Token>)
    requires IsSimple(s) && SFormed(s)
    ensures PStmt(YStmt(s) + w) == Some((s, w))
  {
    hide Spelling, PDef, PAssignOrCall, PReturn, YBody, YStmt, SFormed;
    var w1 := [T(TSemicolon)] + w;
    YieldSimple(s, w);
    Cons(T(TSemicolon), w);
    match s {
      case StDef(_, _, _, _) =>
        DefKind(s, w1);
        CompleteDef(s, w1);
      case StReturn(_) => CompleteReturn(s, w1);
      case StBreak => JumpBody(s, w1);
      case StContinue => JumpBody(s, w1);
      case _ => CompleteAssignOrCall(s, w1);
    }
  }

  lemma {:induction false} JumpBody(s: STree, w: seq<Token>)
    requires s.StBreak? || s.StContinue?
    ensures Kind(YBody(s) + w) == (if s.StBreak? then TBreak else TContinue) && (YBody(s) + w)[1..] == w
  {
    Cons(T(if s.StBreak? then TBreak else TContinue), w);
  }

  // ----- compound statements -----

  /** The tokens that a statement starts with. */
  lemma {:induction false} FirstOfStmt(s: STree, w: seq<Token>)
    requires SFormed(s)
    ensures var k := Kind(YStmt(s) + w);
            k in {TVar, TVal, TBreak, TContinue, TReturn, TIf, TLoop, TLcb, TId, TLrb}
  {
    hide Spelling, YBody;
    match s {
      case StDef(_, _, _, _) =>
        assert YStmt(s) + w == YBody(s) + ([T(TSemicolon)] + w);
        DefKind(s, [T(TSemicolon)] + w);
      case StAssign(_, _) => FirstOfSimple(s, w);
      case StInvoke(_) => FirstOfSimple(s, w);
      case StReturn(_) =>
        assert YStmt(s) + w == YBody(s) + ([T(TSemicolon)] + w);
        CompleteReturn(s, [T(TSemicolon)] + w);
      case StBreak => JumpBody(s, [T(TSemicolon)] + w);
      case StContinue => JumpBody(s, [T(TSemicolon)] + w);
      case _ =>
    }
  }

  lemma {:induction false} FirstOfSimple(s: STree, w: seq<Token>)
    requires SFormed(s) && (s.StAssign? || s.StInvoke?)
    ensures Kind(YStmt(s) + w) in {TId, TLrb}
  {
    hide Spelling, YBody;
    assert YStmt(s) + w == YBody(s) + ([T(TSemicolon)] + w);
    CompleteAssignOrCall(s, [T(TSemicolon)] + w);
  }

  lemma {:induction false} YieldBlock(ss: seq<Item>, w: seq<Token>)
    ensures YStmt(StBlock(ss)) + w == [T(TLcb)] + (YItems(ss) + ([T(TRcb)] + w))
  {
    hide Spelling, YItems;
  }

  lemma {:induction false} CompleteStmt(s: STree, w: seq<Token>)
    requires SFormed(s) && SEnds(s, w)
    ensures PStmt(YStmt(s) + w) == Some((s, w))
    decreases s, 2
  {
    hide Spelling, PDef, PAssignOrCall, PReturn, PIf, PLoop, PItems, YItems, YStmt;
    match s {
      case StIf(_, _, _) => CompleteIf(s, w);
      case StLoop(_, _, _, _) => CompleteLoop(s, w);
      case StBlock(ss) =>
        YieldBlock(ss, w);
        Cons(T(TLcb), YItems(ss) + ([T(TRcb)] + w));
        CompleteItems(ss, w);
      case _ => CompleteSimple(s, w);
    }
  }

  lemma {:induction false} Reassociate(x: Token, y: Token, c: seq<Token>, z: Token, t: seq<Token>, e: seq<Token>, w: seq<Token>)
    ensures [x, y] + c + [z] + t + e + w == [x] + ([y] + (c + ([z] + (t + (e + w)))))
  {
  }

  lemma {:induction false} YieldIf(c: Tree, t: STree, f: Option<STree>, w: seq<Token>)
    ensures YStmt(StIf(c, t, f)) + w ==
            [T(TIf)] + ([T(TLrb)] + (Yield(c) + ([T(TRrb)] + (YStmt(t) + (YElse(f) + w)))))
  {
    hide Spelling, Yield, YElse;
    assert YStmt(StIf(c, t, f)) == [T(TIf), T(TLrb)] + Yield(c) + [T(TRrb)] + YStmt(t) + YElse(f);
    Reassociate(T(TIf), T(TLrb), Yield(c), T(TRrb), YStmt(t), YElse(f), w);
  }

  lemma {:induction false} YieldElse(f: Option<STree>, w: seq<Token>)
    ensures YElse(f) + w == match f case None => w case Some(e) => [T(TElse)] + (YStmt(e) + w)
  {
    hide Spelling, YStmt;
  }

  lemma {:induction false} CompleteIf(s: STree, w: seq<Token>)
    requires s.StIf? && SFormed(s) && SEnds(s, w)
    ensures PIf(YStmt(s) + w) == Some((s, w)) && Kind(YStmt(s) + w) == TIf
    decreases s, 1
  {
    hide Spelling, PStmt, YStmt, YElse, Yield, PExpr;
    var w3 := YElse(s.onFalse) + w;
    var w2 := YStmt(s.onTrue) + w3;
    var w1 := Yield(s.cond) + ([T(TRrb)] + w2);
    YieldIf(s.cond, s.onTrue, s.onFalse, w);
    YieldElse(s.onFalse, w);
    ConsTwo(T(TIf), T(TLrb), w1);
    CompleteExpr(s.cond, [T(TRrb)] + w2);
    Cons(T(TRrb), w2);
    if s.onFalse.Some? {
      Cons(T(TElse), YStmt(s.onFalse.value) + w);
      CompleteStmt(s.onFalse.value, w);
    }
    CompleteStmt(s.onTrue, w3);
  }

  lemma {:induction false} YieldLoop(s: STree, w: seq<Token>)
    requires s.StLoop?
    ensures YStmt(s) + w == LoopHead(s, YStmt(s.body) + w)
  {
    hide Spelling, Yield, YBody;
    var i, c, st := YBody(s.init), Yield(s.guard), YBody(s.step);
    assert YStmt(s) == [T(TLoop), T(TLrb)] + i + [T(TSemicolon)] + c + [T(TSemicolon)] + st + [T(TRrb)] + YStmt(s.body);
    assert [T(TLoop), T(TLrb)] == [T(TLoop)] + [T(TLrb)];
  }

  function LoopHead(s: STree, w: seq<Token>): seq<Token>
    requires s.StLoop?
  {
    [T(TLoop)] + ([T(TLrb)] + (YBody(s.init) + ([T(TSemicolon)] + (Yield(s.guard)
    + ([T(TSemicolon)] + (YBody(s.step) + ([T(TRrb)] + w)))))))
  }

  lemma {:induction false} CompleteLoopHead(s: STree, w: seq<Token>)
    requires s.StLoop? && SFormed(s)
    ensures PLoopHead(LoopHead(s, w)) == Some(((s.init, s.guard, s.step), w)) && Kind(LoopHead(s, w)) == TLoop
  {
    hide Spelling, PDef, PExpr, PStep, YBody, Yield;
    var w3 := [T(TRrb)] + w;
    var w2 := [T(TSemicolon)] + (YBody(s.step) + w3);
    var w1 := [T(TSemicolon)] + (Yield(s.guard) + w2);
    ConsTwo(T(TLoop), T(TLrb), YBody(s.init) + w1);
    CompleteDef(s.init, w1);
    Cons(T(TSemicolon), Yield(s.guard) + w2);
    CompleteExpr(s.guard, w2);
    Cons(T(TSemicolon), YBody(s.step) + w3);
    CompleteStep(s.step, w3);
    Cons(T(TRrb), w);
  }

  lemma {:induction false} CompleteLoop(s: STree, w: seq<Token>)
    requires s.StLoop? && SFormed(s) && SEnds(s, w)
    ensures PLoop(YStmt(s) + w) == Some((s, w)) && Kind(YStmt(s) + w) == TLoop
    decreases s, 1
  {
    hide Spelling, PStmt, YStmt, PLoopHead, LoopHead;
    YieldLoop(s, w);
    CompleteLoopHead(s, YStmt(s.body) + w);
    CompleteStmt(s.body, w);
  }

  lemma {:induction false} CompleteItems(ss: seq<Item>, w: seq<Token>)
    requires ItemsFormed(ss)
    ensures PItems(YItems(ss) + ([T(TRcb)] + w)) == Some((ss, w))
    ensures Kind(YItems(ss) + ([T(TRcb)] + w)) !in {TElse, TSemicolon}
    decreases ss, 0
  {
    hide Spelling, PStmt, YStmt, SFormed;
    var end := [T(TRcb)] + w;
    if ss == [] {
      assert YItems(ss) + end == end;
      Cons(T(TRcb), w);
    } else {
      var w1 := YItems(ss[1..]) + end;
      assert YItems(ss) + end == YItem(ss[0]) + w1;
      CompleteItems(ss[1..], w);
      CompleteItem(ss[0], w1);
      assert [ss[0]] + ss[1..] == ss;
    }
  }

  /** A block's statement and the semicolon that may stand behind it. */
  lemma {:induction false} CompleteItem(i: Item, w: seq<Token>)
    requires ItemFormed(i) && Kind(w) !in {TElse, TSemicolon}
    ensures var w1 := if i.extra then [T(TSemicolon)] + w else w;
            && PStmt(YItem(i) + w) == Some((i.stmt, w1)) && (Kind(w1) == TSemicolon <==> i.extra)
            && (i.extra ==> w1[1..] == w)
    ensures Kind(YItem(i) + w) !in {TElse, TSemicolon, TRcb}
    decreases i, 0
  {
    hide Spelling, PStmt, YStmt, SFormed;
    var w1 := if i.extra then [T(TSemicolon)] + w else w;
    assert YItem(i) + w == YStmt(i.stmt) + w1;
    Cons(T(TSemicolon), w);
    FirstOfStmt(i.stmt, w1);
    CompleteStmt(i.stmt, w1);
  }

  lemma {:induction false} CompleteModule(ss: seq<STree>)
    requires ModuleFormed(ss)
    ensures PModule(YModule(ss)) == Some(ss) && Kind(YModule(ss)) != TElse
  {
    hide Spelling, PStmt, YStmt, SFormed;
    if ss != [] {
      var w := YModule(ss[1..]);
      CompleteModule(ss[1..]);
      FirstOfStmt(ss[0], w);
      CompleteStmt(ss[0], w);
      assert [ss[0]] + ss[1..] == ss;
    }
  }
}
