/** What the descent returns for a statement is written with exactly the tokens
    it consumed, and no `else` is left behind that the statement could take. */
module StatementSoundness {
  import opened Ast
  import opened Tokens
  import opened Rendering
  import opened Grammar
  import opened Completeness
  import opened Soundness
  import opened Statements
  import opened StatementCompleteness

  /** The rest of a parse in tokens of fixed spelling is so too. */
  lemma {:induction false} SpelledRest(a: seq<Token>, b: seq<Token>)
    requires AllSpelled(a + b)
    ensures AllSpelled(b)
  {
    hide AllSpelled;
    SpelledParts(a, b);
  }

  // ----- types -----

  lemma {:induction false} SoundType(w: seq<Token>)
    requires AllSpelled(w)
    ensures PType(w).Some? ==>
              var (t, rest) := PType(w).value; w == YType(t) + rest && (t.args == [] ==> Kind(rest) != TLt)
    decreases |w|, 0
  {
    hide Spelling, AllSpelled, TypeCommas, PTypeArgs, YType;
    if Kind(w) == TId {
      NextId(w);
      if Kind(w[1..]) == TLt {
        Next(w[1..], TLt);
        assert w[1..][1..] == w[2..];
        SoundTypeArgs(w[2..], true);
        if PType(w).Some? {
          var (t, w1) := PType(w).value;
          YieldType(t, w1);
        }
      } else {
        YieldType(TypeRef(w[0].value, []), w[1..]);
      }
    }
  }

  lemma {:induction false} SoundTypeArgs(w: seq<Token>, first: bool)
    requires AllSpelled(w)
    ensures PTypeArgs(w, first).Some? ==>
              var (ts, rest) := PTypeArgs(w, first).value;
              w == (if first then TypeCommas(ts) else TypeRest(ts)) + ([T(TGt)] + rest)
    decreases |w|, 1
  {
    hide Spelling, AllSpelled, YType, TypeCommas, TypeRest, PType;
    if Kind(w) == TGt {
      Next(w, TGt);
      NoTypes(w);
    } else if PTypeArgs(w, first).Some? {
      if !first {
        Next(w, TComma);
      }
      var v := if first then w else w[1..];
      SoundType(v);
      var (t, w1) := PType(v).value;
      SpelledRest(YType(t), w1);
      SoundTypeArgs(w1, false);
      var (ts, w2) := PTypeArgs(w1, false).value;
      TypeListCons(t, ts, [T(TGt)] + w2);
    }
  }

  lemma {:induction false} NoTypes(w: seq<Token>)
    ensures TypeCommas([]) + w == w && TypeRest([]) + w == w
  {
  }

  lemma {:induction false} SoundOptType(w: seq<Token>)
    requires AllSpelled(w)
    ensures POptType(w).Some? ==> var (t, rest) := POptType(w).value; w == YOptType(t) + rest
  {
    hide Spelling, AllSpelled, PType, YType;
    if Kind(w) == TColon {
      Next(w, TColon);
      SoundType(w[1..]);
    }
  }

  // ----- statements that end with a semicolon -----

  /** The parse of a statement without its semicolon. */
  ghost predicate GoodBody(r: Parsed<STree>, w: seq<Token>) {
    r.Some? ==> IsSimple(r.value.0) && SFormed(r.value.0) && w == YBody(r.value.0) + r.value.1
  }

  lemma {:induction false} SoundDef(w: seq<Token>)
    requires AllSpelled(w)
    ensures GoodBody(PDef(w), w) && (PDef(w).Some? ==> PDef(w).value.0.StDef?)
  {
    hide Spelling, AllSpelled, PExpr, POptType, YOptType, Yield, YBody;
    if PDef(w).Some? {
      Next(w, Kind(w));
      NextId(w[1..]);
      assert w[1..][1..] == w[2..];
      SoundOptType(w[2..]);
      var (ty, w1) := POptType(w[2..]).value;
      SpelledRest(YOptType(ty), w1);
      Next(w1, TAssign);
      SoundExpr(w1[1..]);
      YieldDef(PDef(w).value.0, PDef(w).value.1);
    }
  }

  lemma {:induction false} YieldAssign(l: Tree, r: Tree, w: seq<Token>)
    ensures YBody(StAssign(l, r)) + w == Yield(l) + ([T(TAssign)] + (Yield(r) + w))
  {
    hide Spelling, Yield;
  }

  lemma {:induction false} SoundAssign(l: Tree, w: seq<Token>)
    requires AllSpelled(w) && Kind(w) == TAssign && Level(l) == 11 && WellFormed(l) && PExpr(w[1..]).Some?
    ensures var (v, rest) := PExpr(w[1..]).value;
            SFormed(StAssign(l, v)) && Yield(l) + w == YBody(StAssign(l, v)) + rest
  {
    hide Spelling, AllSpelled, PExpr, Yield, YBody;
    Next(w, TAssign);
    SoundExpr(w[1..]);
    var (v, rest) := PExpr(w[1..]).value;
    YieldAssign(l, v, rest);
  }

  lemma {:induction false} SoundAssignOrCall(w: seq<Token>)
    requires AllSpelled(w)
    ensures GoodBody(PAssignOrCall(w), w)
    ensures PAssignOrCall(w).Some? ==> PAssignOrCall(w).value.0.StAssign? || PAssignOrCall(w).value.0.StInvoke?
  {
    hide Spelling, AllSpelled, PExpr, PSuffixed, Yield, Erase, WellFormed;
    SoundSuffixed(w);
    if PAssignOrCall(w).Some? {
      var (l, w1) := PSuffixed(w).value;
      if Kind(w1) == TAssign {
        SpelledRest(Yield(l), w1);
        SoundAssign(l, w1);
      }
    }
  }

  lemma {:induction false} SoundReturn(w: seq<Token>)
    requires AllSpelled(w)
    ensures GoodBody(PReturn(w), w)
  {
    hide Spelling, AllSpelled, PExpr, Yield, YBody, WellFormed, Ends;
    if PReturn(w).Some? {
      Next(w, TReturn);
      if Kind(w[1..]) != TSemicolon {
        SoundExpr(w[1..]);
        var (v, w1) := PExpr(w[1..]).value;
        YieldReturn(v, w1);
      } else {
        assert YBody(StReturn(None)) == [T(TReturn)] by { EmptyReturn(); }
      }
    }
  }

  lemma {:induction false} EmptyReturn()
    ensures YBody(StReturn(None)) == [T(TReturn)]
  {
  }

  lemma {:induction false} YieldReturn(v: Tree, w: seq<Token>)
    ensures YBody(StReturn(Some(v))) + w == [T(TReturn)] + (Yield(v) + w)
  {
    hide Spelling, Yield;
  }

  lemma {:induction false} SoundStep(w: seq<Token>)
    requires AllSpelled(w)
    ensures GoodBody(PStep(w), w)
    ensures PStep(w).Some? ==> var s := PStep(w).value.0; s.StDef? || s.StAssign? || s.StInvoke?
  {
    hide PDef, PAssignOrCall, AllSpelled, GoodBody;
    SoundDef(w);
    SoundAssignOrCall(w);
  }

  lemma {:induction false} SoundJump(w: seq<Token>)
    requires AllSpelled(w) && (Kind(w) == TBreak || Kind(w) == TContinue)
    ensures GoodBody(Some((if Kind(w) == TBreak then StBreak else StContinue, w[1..])), w)
  {
    hide Spelling, AllSpelled;
    Next(w, Kind(w));
  }

  /** A token of a fixed kind behind something written. */
  lemma {:induction false} SoundExpect(a: seq<Token>, w: seq<Token>, kind: TokenType)
    requires AllSpelled(a + w) && Kind(w) == kind && Fixed(kind)
    ensures w != [] && a + w == a + ([T(kind)] + w[1..]) && AllSpelled(w[1..])
    ensures a + w == (a + [T(kind)]) + w[1..]
  {
    hide Spelling, AllSpelled;
    SpelledRest(a, w);
    Next(w, kind);
  }

  ghost predicate GoodStmt(r: Parsed<STree>, w: seq<Token>) {
    r.Some? ==> SFormed(r.value.0) && w == YStmt(r.value.0) + r.value.1 && SEnds(r.value.0, r.value.1)
  }

  lemma {:induction false} SoundSemicolon(r: Parsed<STree>, w: seq<Token>)
    requires AllSpelled(w) && GoodBody(r, w)
    ensures GoodStmt(Expect(r, TSemicolon), w)
  {
    hide Spelling, AllSpelled, YBody, SFormed;
    if Expect(r, TSemicolon).Some? {
      SoundExpect(YBody(r.value.0), r.value.1, TSemicolon);
    }
  }

  // ----- compound statements -----

  lemma {:induction false} SoundStmt(w: seq<Token>)
    requires AllSpelled(w)
    ensures GoodStmt(PStmt(w), w)
    decreases |w|, 2
  {
    hide Spelling, AllSpelled, PDef, PAssignOrCall, PReturn, PIf, PLoop, PItems, Expect, GoodBody, GoodStmt;
    match Kind(w) {
      case TStruct => NoStmt(w);
      case TEnum => NoStmt(w);
      case TProc => NoStmt(w);
      case TVar =>
        SoundDef(w);
        SoundSemicolon(PDef(w), w);
      case TVal =>
        SoundDef(w);
        SoundSemicolon(PDef(w), w);
      case TBreak =>
        SoundJump(w);
        SoundSemicolon(Some((StBreak, w[1..])), w);
      case TContinue =>
        SoundJump(w);
        SoundSemicolon(Some((StContinue, w[1..])), w);
      case TReturn =>
        SoundReturn(w);
        SoundSemicolon(PReturn(w), w);
      case TIf => SoundIf(w);
      case TLoop => SoundLoop(w);
      case TLcb => SoundBlock(w);
      case _ =>
        SoundAssignOrCall(w);
        SoundSemicolon(PAssignOrCall(w), w);
    }
  }

  lemma {:induction false} NoStmt(w: seq<Token>)
    ensures GoodStmt(None, w)
  {
  }

  lemma {:induction false} SoundBlock(w: seq<Token>)
    requires AllSpelled(w) && Kind(w) == TLcb
    ensures GoodStmt(PStmt(w), w)
    decreases |w|, 0
  {
    hide Spelling, AllSpelled, PItems, YItems, YStmt;
    Next(w, TLcb);
    SoundItems(w[1..]);
    if PStmt(w).Some? {
      var (ss, w1) := PItems(w[1..]).value;
      YieldBlock(ss, w1);
    }
  }

  /** Up to the bracket behind the condition. */
  lemma {:induction false} SoundIfCond(w: seq<Token>)
    requires AllSpelled(w) && Kind(w) == TIf && Kind(w[1..]) == TLrb && Expect(PExpr(w[2..]), TRrb).Some?
    ensures var (c, w1) := Expect(PExpr(w[2..]), TRrb).value;
            WellFormed(c) && AllSpelled(w1) && w == [T(TIf)] + ([T(TLrb)] + (Yield(c) + ([T(TRrb)] + w1)))
  {
    hide Spelling, AllSpelled, PExpr, Yield;
    Next(w, TIf);
    Next(w[1..], TLrb);
    assert w[1..][1..] == w[2..];
    SoundExpr(w[2..]);
    var (c, w0) := PExpr(w[2..]).value;
    SoundExpect(Yield(c), w0, TRrb);
  }

  lemma {:induction false} SoundIf(w: seq<Token>)
    requires AllSpelled(w)
    ensures GoodStmt(PIf(w), w)
    decreases |w|, 0
  {
    hide Spelling, AllSpelled, PStmt, PExpr, Yield, YStmt, YElse, Expect, WellFormed;
    if PIf(w).Some? {
      SoundIfCond(w);
      var (c, w1) := Expect(PExpr(w[2..]), TRrb).value;
      SoundStmt(w1);
      var (t, w2) := PStmt(w1).value;
      if Kind(w2) == TElse {
        SoundExpect(YStmt(t), w2, TElse);
        SoundStmt(w2[1..]);
        var (f, w3) := PStmt(w2[1..]).value;
        YieldIf(c, t, Some(f), w3);
        YieldElse(Some(f), w3);
      } else {
        YieldIf(c, t, None, w2);
        YieldElse(None, w2);
      }
    }
  }

  lemma {:induction false} SoundLoopHead(w: seq<Token>)
    requires AllSpelled(w)
    ensures PLoopHead(w).Some? ==>
              var ((i, c, st), rest) := PLoopHead(w).value;
              && i.StDef? && SFormed(i) && WellFormed(c) && (st.StDef? || st.StAssign? || st.StInvoke?) && SFormed(st)
              && AllSpelled(rest) && forall b :: w == LoopHead(StLoop(i, c, st, b), rest)
  {
    hide Spelling, AllSpelled, PDef, PExpr, PStep, YBody, Yield;
    if PLoopHead(w).Some? {
      Next(w, TLoop);
      Next(w[1..], TLrb);
      assert w[1..][1..] == w[2..];
      SoundDef(w[2..]);
      var (i, v1) := PDef(w[2..]).value;
      SoundExpect(YBody(i), v1, TSemicolon);
      var w1 := v1[1..];
      SoundExpr(w1);
      var (c, v2) := PExpr(w1).value;
      SoundExpect(Yield(c), v2, TSemicolon);
      var w2 := v2[1..];
      SoundStep(w2);
      var (st, v3) := PStep(w2).value;
      SoundExpect(YBody(st), v3, TRrb);
    }
  }

  lemma {:induction false} SoundLoop(w: seq<Token>)
    requires AllSpelled(w)
    ensures GoodStmt(PLoop(w), w)
    decreases |w|, 0
  {
    hide Spelling, AllSpelled, PStmt, PLoopHead, YStmt, LoopHead;
    SoundLoopHead(w);
    if PLoop(w).Some? {
      var ((i, c, st), w1) := PLoopHead(w).value;
      SoundStmt(w1);
      var (b, w2) := PStmt(w1).value;
      YieldLoop(StLoop(i, c, st, b), w2);
    }
  }

  lemma {:induction false} SoundItems(w: seq<Token>)
    requires AllSpelled(w)
    ensures PItems(w).Some? ==>
              var (ss, rest) := PItems(w).value; ItemsFormed(ss) && w == YItems(ss) + ([T(TRcb)] + rest)
    decreases |w|, 4
  {
    hide Spelling, AllSpelled, PStmt, YStmt, YItem, ItemFormed;
    if Kind(w) == TRcb {
      Next(w, TRcb);
      assert YItems([]) + w == w;
    } else if PItems(w).Some? {
      SoundItem(w);
      var (i, w1) := FirstItem(w);
      SoundItems(w1);
      var (ss, w2) := PItems(w1).value;
      ItemCons(i, ss, [T(TRcb)] + w2);
    }
  }

  /** The statement in front, with the semicolon that may follow it. */
  function FirstItem(w: seq<Token>): (Item, seq<Token>)
    requires PStmt(w).Some?
  {
    var (s, w1) := PStmt(w).value;
    if Kind(w1) == TSemicolon then (Item(s, true), w1[1..]) else (Item(s, false), w1)
  }

  lemma {:induction false} SoundItem(w: seq<Token>)
    requires AllSpelled(w) && PStmt(w).Some?
    ensures var (i, w1) := FirstItem(w);
            ItemFormed(i) && w == YItem(i) + w1 && AllSpelled(w1) && |w1| < |w|
    decreases |w|, 3
  {
    hide Spelling, AllSpelled, PStmt, YStmt;
    SoundStmt(w);
    var (s, w1) := PStmt(w).value;
    SpelledRest(YStmt(s), w1);
    if Kind(w1) == TSemicolon {
      Next(w1, TSemicolon);
    }
  }

  lemma {:induction false} ItemCons(i: Item, ss: seq<Item>, w: seq<Token>)
    requires ItemFormed(i) && ItemsFormed(ss)
    ensures ItemsFormed([i] + ss) && YItems([i] + ss) + w == YItem(i) + (YItems(ss) + w)
  {
    hide Spelling, YItem, ItemFormed;
    assert ([i] + ss)[1..] == ss;
  }

  lemma {:induction false} SoundModule(w: seq<Token>)
    requires AllSpelled(w)
    ensures PModule(w).Some? ==> ModuleFormed(PModule(w).value) && w == YModule(PModule(w).value)
    decreases |w|
  {
    hide Spelling, PStmt, YStmt, SFormed;
    if w == [] {
    } else {
      assert Spelled(w[0]);
      if PModule(w).Some? {
        SoundStmt(w);
        var (s, w1) := PStmt(w).value;
        SpelledRest(YStmt(s), w1);
        SoundModule(w1);
        var ss := PModule(w1).value;
        assert ([s] + ss)[1..] == ss;
      }
    }
  }

  // ----- the descent and the grammar are the same -----

  /** The descent returns a statement exactly when it is well-formed, is written
      with the tokens consumed and the next token does not go on with it. */
  lemma {:induction false} StmtExact(s: STree, w: seq<Token>, rest: seq<Token>)
    requires AllSpelled(w)
    ensures PStmt(w) == Some((s, rest)) <==> SFormed(s) && w == YStmt(s) + rest && SEnds(s, rest)
  {
    hide PStmt, SFormed, YStmt, SEnds, AllSpelled;
    SoundStmt(w);
    if SFormed(s) && w == YStmt(s) + rest && SEnds(s, rest) {
      CompleteStmt(s, rest);
    }
  }

  /** A module is accepted exactly when it is what some statements are written
      as, and these are then the only ones. */
  lemma {:induction false} ModuleExact(w: seq<Token>, ss: seq<STree>)
    requires AllSpelled(w)
    ensures PModule(w) == Some(ss) <==> ModuleFormed(ss) && w == YModule(ss)
  {
    hide PModule, ModuleFormed, YModule, AllSpelled;
    SoundModule(w);
    if ModuleFormed(ss) && w == YModule(ss) {
      CompleteModule(ss);
    }
  }
}
