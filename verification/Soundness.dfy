/** What the descent returns is a well-formed tree written with exactly the
    tokens it consumed. */
module Soundness {
  import opened Ast
  import opened Tokens
  import opened Rendering
  import opened Grammar
  import opened Completeness

  /** The parse is a tree of at least level `lo` that ends at levels from `p`. */
  predicate Good(r: Parsed<Tree>, w: seq<Token>, lo: nat, p: nat) {
    r.Some? ==>
      var (t, rest) := r.value;
      WellFormed(t) && Level(t) >= lo && w == Yield(t) + rest && Ends(p, t, rest)
  }

  lemma {:induction false} SpelledParts(a: seq<Token>, b: seq<Token>)
    requires AllSpelled(a + b)
    ensures AllSpelled(a) && AllSpelled(b)
  {
    assert forall i | 0 <= i < |a| :: (a + b)[i] == a[i];
    assert forall i | 0 <= i < |b| :: (a + b)[|a| + i] == b[i];
  }

  predicate Fixed(kind: TokenType) {
    !IsNumber(kind) && kind !in {TString, TId, TUnknown, TEos}
  }

  /** A next token of a fixed spelling. */
  lemma {:induction false} Next(w: seq<Token>, kind: TokenType)
    requires AllSpelled(w) && Kind(w) == kind && Fixed(kind)
    ensures w != [] && w == [T(kind)] + w[1..] && AllSpelled(w[1..])
  {
    hide Spelling;
    assert Spelled(w[0]);
    assert w == [w[0]] + w[1..];
    SpelledParts([w[0]], w[1..]);
  }

  lemma {:induction false} NextId(w: seq<Token>)
    requires AllSpelled(w) && Kind(w) == TId
    ensures w != [] && w == [Token(TId, w[0].value)] + w[1..] && AllSpelled(w[1..])
  {
    hide Spelling;
    assert w == [w[0]] + w[1..];
    SpelledParts([w[0]], w[1..]);
  }

  lemma {:induction false} SoundExpr(w: seq<Token>)
    requires AllSpelled(w)
    ensures Good(PExpr(w), w, 0, 0)
    decreases |w|, 30, 0
  {
    hide PBinary, Spelling, AllSpelled, Yield, Level, Kind;
    SoundBinary(1, w);
    if PExpr(w).Some? {
      var (c, w1) := PBinary(1, w).value;
      SpelledParts(Yield(c), w1);
      if Kind(w1) == TQuestion {
        Next(w1, TQuestion);
        SoundExpr(w1[1..]);
        var (t, w2) := PExpr(w1[1..]).value;
        SpelledParts(Yield(t), w2);
        Next(w2, TColon);
        SoundExpr(w2[1..]);
        var (f, w3) := PExpr(w2[1..]).value;
        YieldTrinary(c, t, f, w3);
      }
    }
  }

  lemma {:induction false} SoundBinary(p: nat, w: seq<Token>)
    requires 1 <= p <= MAX_LEVEL && AllSpelled(w)
    ensures Good(PBinary(p, w), w, p, p)
    decreases |w|, 30 - p, 2
  {
    hide POperand, PBinaryTail, Spelling, AllSpelled, Yield;
    SoundOperand(p, w);
    if POperand(p, w).Some? {
      var (l, w1) := POperand(p, w).value;
      SpelledParts(Yield(l), w1);
      SoundTail(p, l, w1);
    }
  }

  lemma {:induction false} SoundOperand(p: nat, w: seq<Token>)
    requires 1 <= p <= MAX_LEVEL && AllSpelled(w)
    ensures Good(POperand(p, w), w, p + 1, p + 1)
    decreases |w|, 30 - p, 1
  {
    hide PBinary, PUnary, Spelling, AllSpelled, Yield;
    if p < MAX_LEVEL {
      SoundBinary(p + 1, w);
    } else {
      SoundUnary(w);
    }
  }

  /** The loop extends the tree that it was given. */
  lemma {:induction false} SoundTail(p: nat, l: Tree, w: seq<Token>)
    requires 1 <= p <= MAX_LEVEL && AllSpelled(w) && WellFormed(l) && Level(l) >= p && Ends(p + 1, l, w)
    ensures Good(PBinaryTail(p, l, w), Yield(l) + w, p, p)
    decreases |w|, 30 - p, 0
  {
    hide POperand, Spelling, AllSpelled, Yield, BinToken;
    if IsOper(w, p) {
      var op := BinOpAt(Kind(w)).value;
      BinTokenAt(Kind(w));
      Next(w, Kind(w));
      SoundOperand(p, w[1..]);
      if POperand(p, w[1..]).Some? {
        var (r, w1) := POperand(p, w[1..]).value;
        SpelledParts(Yield(r), w1);
        SoundTail(p, TreeBinary(op, l, r), w1);
        YieldBinary(op, l, r, w1);
      }
    }
  }

  lemma {:induction false} BinTokenAt(kind: TokenType)
    requires BinOpAt(kind).Some?
    ensures BinToken(BinOpAt(kind).value) == kind && Fixed(kind)
  {
  }

  lemma {:induction false} UnTokenAt(kind: TokenType)
    requires UnOpAt(kind).Some?
    ensures UnToken(UnOpAt(kind).value) == kind && Fixed(kind)
  {
  }

  lemma {:induction false} SoundUnary(w: seq<Token>)
    requires AllSpelled(w)
    ensures Good(PUnary(w), w, 9, 9)
    decreases |w|, 9, 0
  {
    hide PAtom, Spelling, AllSpelled, Yield, UnToken;
    var op := UnOpAt(Kind(w));
    if op.None? {
      SoundAtom(w);
    } else {
      UnTokenAt(Kind(w));
      Next(w, Kind(w));
      SoundAtom(w[1..]);
      if PAtom(w[1..]).Some? {
        var (a, w1) := PAtom(w[1..]).value;
        YieldUnary(op.value, a, w1);
      }
    }
  }

  lemma {:induction false} SoundAtom(w: seq<Token>)
    requires AllSpelled(w)
    ensures Good(PAtom(w), w, 10, 9)
    decreases |w|, 8, 0
  {
    hide PSuffixed, PElems, Spelling;
    if IsLiteral(Kind(w)) {
      assert w == [w[0]] + w[1..];
    } else if Kind(w) == TLsb {
      Next(w, TLsb);
      SoundElems(w[1..], false);
      if PElems(w[1..], false).Some? {
        var ((es, trailing), w1) := PElems(w[1..], false).value;
        YieldArray(es, trailing, w1);
      }
    } else if Kind(w) == TId || Kind(w) == TLrb {
      SoundSuffixed(w);
    }
  }

  /** A list written down with one more at its front. */
  lemma {:induction false} ListCons(t: Tree, ts: seq<Tree>, w: seq<Token>)
    requires WellFormed(t) && AllWellFormed(ts)
    ensures AllWellFormed([t] + ts) && [t] + ts != []
    ensures Commas([t] + ts) + w == Yield(t) + (Rest(ts) + w)
    ensures Rest([t] + ts) + w == [T(TComma)] + (Yield(t) + (Rest(ts) + w))
  {
    hide Spelling, Yield, Commas;
    assert ([t] + ts)[1..] == ts;
    CommasFirst(t, ts, w);
    assert [T(TComma)] + Commas([t] + ts) + w == [T(TComma)] + (Commas([t] + ts) + w);
  }

  ghost predicate GoodElems(es: seq<Tree>, trailing: bool, rest: seq<Token>, w: seq<Token>, comma: bool) {
    && AllWellFormed(es) && (es == [] ==> trailing == comma)
    && w == Commas(es) + (if es == [] then [T(TRsb)] + rest else AfterLast(trailing, rest))
  }

  lemma {:induction false} SoundElems(w: seq<Token>, comma: bool)
    requires AllSpelled(w)
    ensures PElems(w, comma).Some? ==>
              var ((es, trailing), rest) := PElems(w, comma).value; GoodElems(es, trailing, rest, w, comma)
    decreases |w|, 31, 0
  {
    hide PExpr, Spelling, AllSpelled, Yield, GoodElems;
    if Kind(w) == TRsb {
      Next(w, TRsb);
      ElemsNone(w[1..], comma);
    } else {
      SoundExpr(w);
      if PElems(w, comma).Some? {
        var (e, w1) := PExpr(w).value;
        SpelledParts(Yield(e), w1);
        if Kind(w1) == TComma {
          Next(w1, TComma);
          SoundElems(w1[1..], true);
          var ((es, trailing), w2) := PElems(w1[1..], true).value;
          ElemsMore(e, es, trailing, w2, w1[1..], comma);
        } else {
          Next(w1, TRsb);
          ElemsOne(e, w1[1..], comma);
        }
      }
    }
  }

  lemma {:induction false} ElemsNone(rest: seq<Token>, comma: bool)
    ensures GoodElems([], comma, rest, [T(TRsb)] + rest, comma)
  {
    assert Commas([]) + ([T(TRsb)] + rest) == [T(TRsb)] + rest;
  }

  lemma {:induction false} ElemsOne(e: Tree, rest: seq<Token>, comma: bool)
    requires WellFormed(e)
    ensures GoodElems([e], false, rest, Yield(e) + ([T(TRsb)] + rest), comma)
  {
    hide Spelling, Yield;
    var es := [e];
    assert es[1..] == [] && AllWellFormed(es) && Commas(es) == Yield(e);
    assert AfterLast(false, rest) == [T(TRsb)] + rest;
  }

  lemma {:induction false} ElemsMore(e: Tree, es: seq<Tree>, trailing: bool, rest: seq<Token>, w: seq<Token>, comma: bool)
    requires WellFormed(e) && GoodElems(es, trailing, rest, w, true)
    ensures GoodElems([e] + es, trailing, rest, Yield(e) + ([T(TComma)] + w), comma)
  {
    hide Spelling, Yield, WellFormed, AllWellFormed, Commas, Rest, AfterLast;
    ListCons(e, es, AfterLast(trailing, rest));
    CommaFirst(es, trailing, rest, w);
  }

  lemma {:induction false} CommaFirst(es: seq<Tree>, trailing: bool, rest: seq<Token>, w: seq<Token>)
    requires GoodElems(es, trailing, rest, w, true)
    ensures Rest(es) + AfterLast(trailing, rest) == [T(TComma)] + w
  {
    hide Spelling, AllWellFormed;
    if es == [] {
      assert Rest(es) == [] && w == [T(TRsb)] + rest;
    } else {
      hide Commas;
    }
  }

  lemma {:induction false} SoundSuffixed(w: seq<Token>)
    requires AllSpelled(w)
    ensures Good(PSuffixed(w), w, 11, 9)
    decreases |w|, 7, 0
  {
    hide PExpr, PSuffixes, Spelling, AllSpelled;
    if Kind(w) == TLrb {
      Next(w, TLrb);
      SoundExpr(w[1..]);
      if PPrimary(w).Some? {
        var (e, w1) := PExpr(w[1..]).value;
        SpelledParts(Yield(e), w1);
        Next(w1, TRrb);
        YieldParen(e, w1[1..]);
        SoundSuffixes(TreeParen(e), w1[1..]);
      }
    } else if Kind(w) == TId {
      NextId(w);
      SoundSuffixes(TreeName(w[0].value), w[1..]);
    }
  }

  lemma {:induction false} SoundSuffixes(t: Tree, w: seq<Token>)
    requires AllSpelled(w) && WellFormed(t) && Level(t) == 11
    ensures Good(PSuffixes(t, w), Yield(t) + w, 11, 9)
    decreases |w|, 6, 0
  {
    hide PExpr, PArgs, Spelling, AllSpelled, Yield;
    if Kind(w) == TDot {
      SoundField(t, w);
    } else if Kind(w) == TLsb {
      SoundIndex(t, w);
    } else if Kind(w) == TLrb {
      SoundCall(t, w);
    }
  }

  lemma {:induction false} SoundField(t: Tree, w: seq<Token>)
    requires AllSpelled(w) && WellFormed(t) && Level(t) == 11 && Kind(w) == TDot
    ensures Good(PSuffixes(t, w), Yield(t) + w, 11, 9)
    decreases |w|, 5, 0
  {
    hide PExpr, PArgs, Spelling, AllSpelled, Yield;
    Next(w, TDot);
    if Kind(w[1..]) == TId {
      NextId(w[1..]);
      assert w[1..][1..] == w[2..];
      var x := w[1].value;
      YieldField(t, x, w[2..]);
      SoundSuffixes(TreeField(t, x), w[2..]);
    }
  }

  lemma {:induction false} SoundIndex(t: Tree, w: seq<Token>)
    requires AllSpelled(w) && WellFormed(t) && Level(t) == 11 && Kind(w) == TLsb
    ensures Good(PSuffixes(t, w), Yield(t) + w, 11, 9)
    decreases |w|, 5, 0
  {
    hide PExpr, PArgs, Spelling, AllSpelled, Yield;
    Next(w, TLsb);
    SoundExpr(w[1..]);
    if PExpr(w[1..]).Some? {
      var (k, w1) := PExpr(w[1..]).value;
      SpelledParts(Yield(k), w1);
      if Kind(w1) == TRsb {
        Next(w1, TRsb);
        YieldIndex(t, k, w1[1..]);
        SoundSuffixes(TreeIndex(t, k), w1[1..]);
      }
    }
  }

  lemma {:induction false} SoundCall(t: Tree, w: seq<Token>)
    requires AllSpelled(w) && WellFormed(t) && Level(t) == 11 && Kind(w) == TLrb
    ensures Good(PSuffixes(t, w), Yield(t) + w, 11, 9)
    decreases |w|, 5, 0
  {
    hide PExpr, PArgs, Spelling, AllSpelled, Yield, Commas;
    Next(w, TLrb);
    SoundArgs(w[1..], true);
    if PArgs(w[1..], true).Some? {
      var (ts, w1) := PArgs(w[1..], true).value;
      SpelledParts(Commas(ts), [T(TRrb)] + w1);
      SpelledParts([T(TRrb)], w1);
      YieldCall(t, ts, w1);
      SoundSuffixes(TreeCall(t, ts), w1);
    }
  }

  lemma {:induction false} SoundArgs(w: seq<Token>, first: bool)
    requires AllSpelled(w)
    ensures PArgs(w, first).Some? ==>
              var (ts, rest) := PArgs(w, first).value;
              AllWellFormed(ts) && w == (if first then Commas(ts) else Rest(ts)) + ([T(TRrb)] + rest)
    decreases |w|, 31, 0
  {
    hide PExpr, Spelling, AllSpelled, Yield, Commas, Rest;
    if Kind(w) == TRrb {
      Next(w, TRrb);
      NoArgs([T(TRrb)] + w[1..]);
    } else if PArgs(w, first).Some? {
      if !first {
        Next(w, TComma);
      }
      var v := if first then w else w[1..];
      SoundExpr(v);
      var (t, w1) := PExpr(v).value;
      SpelledParts(Yield(t), w1);
      SoundArgs(w1, false);
      var (ts, w2) := PArgs(w1, false).value;
      ListCons(t, ts, [T(TRrb)] + w2);
    }
  }

  lemma {:induction false} NoArgs(w: seq<Token>)
    ensures Commas([]) + w == w && Rest([]) + w == w
  {
  }

  // ----- the descent and the grammar are the same -----

  /** The descent returns a tree exactly when the tree is well-formed, is written
      with the tokens consumed and the next token does not go on with it. */
  lemma {:induction false} ExprExact(t: Tree, w: seq<Token>, rest: seq<Token>)
    requires AllSpelled(w)
    ensures PExpr(w) == Some((t, rest)) <==> WellFormed(t) && w == Yield(t) + rest && Ends(0, t, rest)
  {
    hide PExpr, WellFormed, Yield, Ends, AllSpelled;
    SoundExpr(w);
    if WellFormed(t) && w == Yield(t) + rest && Ends(0, t, rest) {
      CompleteExpr(t, rest);
    }
  }

  /** Level by level: the tokens of a binary expression have one tree, in which
      every left operand has at least its operator's level and every right
      operand a higher one. */
  lemma {:induction false} BinaryExact(p: nat, t: Tree, w: seq<Token>, rest: seq<Token>)
    requires 1 <= p <= MAX_LEVEL && AllSpelled(w)
    ensures PBinary(p, w) == Some((t, rest)) <==>
            WellFormed(t) && Level(t) >= p && w == Yield(t) + rest && Ends(p, t, rest)
  {
    hide PBinary, WellFormed, Yield, Ends, AllSpelled, Level;
    SoundBinary(p, w);
    if WellFormed(t) && Level(t) >= p && w == Yield(t) + rest && Ends(p, t, rest) {
      CompleteBinary(p, t, rest);
    }
  }

  /** Two well-formed trees that start the same tokens and end there are the same. */
  lemma {:induction false} TreeUnique(t: Tree, r: seq<Token>, t1: Tree, r1: seq<Token>)
    requires WellFormed(t) && Ends(0, t, r) && WellFormed(t1) && Ends(0, t1, r1)
    requires Yield(t) + r == Yield(t1) + r1
    ensures t == t1 && r == r1
  {
    hide PExpr, WellFormed, Yield, Ends;
    CompleteExpr(t, r);
    CompleteExpr(t1, r1);
  }
}
