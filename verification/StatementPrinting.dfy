/** Programs written as tokens and as text, and parsing as the inverse. */
module StatementPrinting {
  import opened Ast
  import opened Tokens
  import opened Lexing
  import opened Rendering
  import opened Grammar
  import opened Completeness
  import opened Soundness
  import opened Printing
  import opened Statements
  import opened StatementCompleteness
  import opened StatementSoundness

  predicate PrintableType(t: TypeRef) {
    IsName(t.name) && AllPrintableTypes(t.args)
  }

  predicate AllPrintableTypes(ts: seq<TypeRef>) {
    ts == [] || (PrintableType(ts[0]) && AllPrintableTypes(ts[1..]))
  }

  /** Whether an `else` behind the statement would be taken for its own. */
  predicate OpenIf(s: Stmt) {
    match s
    case If(_, _, None) => true
    case If(_, _, Some(f)) => OpenIf(f)
    case Loop(_, _, _, Some(b)) => OpenIf(b)
    case _ => false
  }

  /** The statements that have a text: no child is missing that the grammar
      demands, and no `if` with an `else` has a branch that would take it. */
  predicate PrintableStmt(s: Stmt) {
    match s
    case SymbolDef(_, x, ty, v) => IsName(x) && (ty.Some? ==> PrintableType(ty.value)) && Printable(v)
    case Assign(l, r) => Printable(l) && Printable(r)
    case Invoke(c) => c.Call? && Printable(c)
    case Return(v) => v.Some? ==> Printable(v.value)
    case If(c, t, f) =>
      Printable(c) && t.Some? && PrintableStmt(t.value) && (f.Some? ==> !OpenIf(t.value) && PrintableStmt(f.value))
    case Loop(i, c, st, b) =>
      && i.Some? && i.value.SymbolDef? && PrintableStmt(i.value) && c.Some? && Printable(c.value)
      && st.Some? && (st.value.SymbolDef? || st.value.Assign? || st.value.Invoke?) && PrintableStmt(st.value)
      && b.Some? && PrintableStmt(b.value)
    case Break => true
    case Continue => true
    case Block(ss) => PrintableSeq(ss)
  }

  predicate PrintableSeq(ss: seq<Stmt>) {
    ss == [] || (PrintableStmt(ss[0]) && PrintableSeq(ss[1..]))
  }

  function CanonStmt(s: Stmt): STree
    requires PrintableStmt(s)
  {
    match s
    case SymbolDef(variable, x, ty, v) => StDef(variable, x, ty, Canon(v))
    case Assign(l, r) => StAssign(Paren(Canon(l), 11), Canon(r))
    case Invoke(c) => StInvoke(Canon(c))
    case Return(None) => StReturn(None)
    case Return(Some(v)) => StReturn(Some(Canon(v)))
    case If(c, Some(t), None) => StIf(Canon(c), CanonStmt(t), None)
    case If(c, Some(t), Some(f)) => StIf(Canon(c), CanonStmt(t), Some(CanonStmt(f)))
    case Loop(Some(i), Some(c), Some(st), Some(b)) => StLoop(CanonStmt(i), Canon(c), CanonStmt(st), CanonStmt(b))
    case Break => StBreak
    case Continue => StContinue
    case Block(ss) => StBlock(CanonItems(ss))
  }

  function CanonItems(ss: seq<Stmt>): seq<Item>
    requires PrintableSeq(ss)
  {
    if ss == [] then [] else [Item(CanonStmt(ss[0]), false)] + CanonItems(ss[1..])
  }

  function CanonModule(ss: seq<Stmt>): seq<STree>
    requires PrintableSeq(ss)
  {
    if ss == [] then [] else [CanonStmt(ss[0])] + CanonModule(ss[1..])
  }

  ghost predicate SWrites(st: STree, s: Stmt) {
    SFormed(st) && EraseStmt(st) == s && AllValid(YStmt(st)) && AllValid(YBody(st)) && EndsOpen(st) == OpenIf(s)
  }

  ghost predicate ItemsWrite(items: seq<Item>, ss: seq<Stmt>) {
    ItemsFormed(items) && EraseItems(items) == ss && AllValid(YItems(items))
  }

  // ----- types -----

  lemma {:induction false} TypeValid(t: TypeRef)
    requires PrintableType(t)
    ensures AllValid(YType(t))
    decreases t, 1
  {
    hide Valid, Spelling, TypeCommas;
    ValidFixed(TLt);
    ValidFixed(TGt);
    TypesValid(t.args);
  }

  lemma {:induction false} TypesValid(ts: seq<TypeRef>)
    requires AllPrintableTypes(ts)
    ensures AllValid(TypeCommas(ts))
    decreases ts, 0
  {
    hide Valid, Spelling, YType, IsName;
    if ts != [] {
      ValidFixed(TComma);
      TypeValid(ts[0]);
      TypesValid(ts[1..]);
    }
  }

  // ----- statements -----

  lemma {:induction false} DefWrites(variable: bool, x: string, ty: Option<TypeRef>, t: Tree, v: Expr)
    requires Writes(t, v) && IsName(x) && (ty.Some? ==> PrintableType(ty.value))
    ensures SWrites(StDef(variable, x, ty, t), SymbolDef(variable, x, ty, v))
  {
    hide Valid, Spelling, YType, Yield, WellFormed, Erase;
    ValidFixed(if variable then TVar else TVal);
    ValidFixed(TColon);
    ValidFixed(TAssign);
    ValidFixed(TSemicolon);
    if ty.Some? {
      TypeValid(ty.value);
    }
    assert AllValid(YOptType(ty));
  }

  lemma {:induction false} AssignWrites(tl: Tree, l: Expr, tr: Tree, r: Expr)
    requires Writes(tl, l) && Writes(tr, r) && Level(tl) == 11
    ensures SWrites(StAssign(tl, tr), Assign(l, r))
  {
    hide Valid, Spelling, Yield, WellFormed, Erase;
    ValidFixed(TAssign);
    ValidFixed(TSemicolon);
  }

  lemma {:induction false} InvokeWrites(t: Tree, c: Expr)
    requires Writes(t, c) && Level(t) == 11 && c.Call?
    ensures SWrites(StInvoke(t), Invoke(c))
  {
    hide Valid, Spelling, Yield, WellFormed, Erase;
    ValidFixed(TSemicolon);
  }

  lemma {:induction false} ReturnWrites(t: Tree, v: Expr)
    requires Writes(t, v)
    ensures SWrites(StReturn(Some(t)), Return(Some(v)))
  {
    hide Valid, Spelling, Yield, WellFormed, Erase;
    ValidFixed(TReturn);
    ValidFixed(TSemicolon);
  }

  lemma {:induction false} JumpsWrite()
    ensures SWrites(StReturn(None), Return(None)) && SWrites(StBreak, Break) && SWrites(StContinue, Continue)
  {
    hide Valid, Spelling;
    ValidFixed(TReturn);
    ValidFixed(TBreak);
    ValidFixed(TContinue);
    ValidFixed(TSemicolon);
  }

  lemma {:induction false} IfValid(t: Tree, a: STree, f: Option<STree>)
    requires AllValid(Yield(t)) && AllValid(YStmt(a)) && AllValid(YElse(f))
    ensures AllValid(YStmt(StIf(t, a, f)))
  {
    hide Valid, Spelling, Yield, YElse;
    ValidFixed(TIf);
    ValidFixed(TLrb);
    ValidFixed(TRrb);
    assert AllValid([T(TIf), T(TLrb)]);
    assert YStmt(StIf(t, a, f)) == [T(TIf), T(TLrb)] + Yield(t) + [T(TRrb)] + YStmt(a) + YElse(f);
  }

  lemma {:induction false} IfWrites(t: Tree, c: Expr, a: STree, sa: Stmt)
    requires Writes(t, c) && SWrites(a, sa)
    ensures SWrites(StIf(t, a, None), If(c, Some(sa), None))
  {
    hide Valid, Spelling, Yield, YStmt, WellFormed, Erase;
    IfValid(t, a, None);
  }

  lemma {:induction false} ElseWrites(t: Tree, c: Expr, a: STree, sa: Stmt, b: STree, sb: Stmt)
    requires Writes(t, c) && SWrites(a, sa) && SWrites(b, sb) && !OpenIf(sa)
    ensures SWrites(StIf(t, a, Some(b)), If(c, Some(sa), Some(sb)))
  {
    hide Valid, Spelling, Yield, YStmt, WellFormed, Erase;
    ValidFixed(TElse);
    assert AllValid(YElse(Some(b)));
    IfValid(t, a, Some(b));
  }

  lemma {:induction false} LoopWrites(i: STree, si: Stmt, t: Tree, c: Expr, st: STree, ss: Stmt, b: STree, sb: Stmt)
    requires SWrites(i, si) && Writes(t, c) && SWrites(st, ss) && SWrites(b, sb) && i.StDef?
    requires st.StDef? || st.StAssign? || st.StInvoke?
    ensures SWrites(StLoop(i, t, st, b), Loop(Some(si), Some(c), Some(ss), Some(sb)))
  {
    hide Valid, Spelling, Yield, YBody, WellFormed, Erase;
    ValidFixed(TLoop);
    ValidFixed(TLrb);
    ValidFixed(TSemicolon);
    ValidFixed(TRrb);
    assert YBody(StLoop(i, t, st, b)) == [] by { LoopBody(StLoop(i, t, st, b)); }
  }

  lemma {:induction false} LoopBody(s: STree)
    requires s.StLoop?
    ensures YBody(s) == []
  {
  }

  lemma {:induction false} BlockWrites(items: seq<Item>, ss: seq<Stmt>)
    requires ItemsWrite(items, ss)
    ensures SWrites(StBlock(items), Block(ss))
  {
    hide Valid, Spelling, YItems;
    ValidFixed(TLcb);
    ValidFixed(TRcb);
  }

  lemma {:induction false} StmtWrites(s: Stmt)
    requires PrintableStmt(s)
    ensures SWrites(CanonStmt(s), s)
    decreases s, 1
  {
    hide SWrites, ItemsWrite, Writes, Canon, Printable, Paren;
    match s {
      case SymbolDef(variable, x, ty, v) =>
        CanonWrites(v);
        DefWrites(variable, x, ty, Canon(v), v);
      case Assign(l, r) =>
        CanonWrites(l);
        CanonWrites(r);
        WritesParen(Canon(l), l, 11);
        AssignWrites(Paren(Canon(l), 11), l, Canon(r), r);
      case Invoke(c) =>
        CanonWrites(c);
        CallLevel(c);
        InvokeWrites(Canon(c), c);
      case Return(None) => JumpsWrite();
      case Return(Some(v)) =>
        CanonWrites(v);
        ReturnWrites(Canon(v), v);
      case If(c, Some(t), f) =>
        CanonWrites(c);
        StmtWrites(t);
        if f.None? {
          IfWrites(Canon(c), c, CanonStmt(t), t);
        } else {
          StmtWrites(f.value);
          ElseWrites(Canon(c), c, CanonStmt(t), t, CanonStmt(f.value), f.value);
        }
      case Loop(Some(i), Some(c), Some(st), Some(b)) =>
        CanonWrites(c);
        StmtWrites(i);
        StmtWrites(st);
        StmtWrites(b);
        LoopWrites(CanonStmt(i), i, Canon(c), c, CanonStmt(st), st, CanonStmt(b), b);
      case Break => JumpsWrite();
      case Continue => JumpsWrite();
      case Block(ss) =>
        ItemsCanon(ss);
        BlockWrites(CanonItems(ss), ss);
    }
  }

  lemma {:induction false} CallLevel(c: Expr)
    requires c.Call? && Printable(c)
    ensures Level(Canon(c)) == 11
  {
  }

  lemma {:induction false} ItemsCanon(ss: seq<Stmt>)
    requires PrintableSeq(ss)
    ensures ItemsWrite(CanonItems(ss), ss)
    decreases ss, 0
  {
    hide CanonStmt, PrintableStmt, YStmt, SFormed, EraseStmt, Valid;
    if ss != [] {
      var items := CanonItems(ss[1..]);
      StmtWrites(ss[0]);
      ItemsCanon(ss[1..]);
      var i := Item(CanonStmt(ss[0]), false);
      ItemCons(i, items, []);
      assert YItems([i] + items) + [] == YItems([i] + items) && YItems(items) + [] == YItems(items);
      assert YItem(i) == YStmt(i.stmt);
      assert ([i] + items)[1..] == items && EraseItem(i) == ss[0];
      assert [ss[0]] + ss[1..] == ss;
    }
  }

  lemma {:induction false} ModuleCanon(ss: seq<Stmt>)
    requires PrintableSeq(ss)
    ensures var ts := CanonModule(ss); ModuleFormed(ts) && EraseModule(ts) == ss && AllValid(YModule(ts))
  {
    hide CanonStmt, PrintableStmt, YStmt, SFormed, EraseStmt, Valid;
    if ss != [] {
      var ts := CanonModule(ss[1..]);
      StmtWrites(ss[0]);
      ModuleCanon(ss[1..]);
      assert ([CanonStmt(ss[0])] + ts)[1..] == ts;
      assert [ss[0]] + ss[1..] == ss;
    }
  }

  // ----- programs as text -----

  /** What the parser makes of a text. */
  function Parse(text: string): Option<seq<Stmt>> {
    match PModule(TokensOf(text))
    case None => None
    case Some(ss) => Some(EraseModule(ss))
  }

  /** A program as text. */
  function Source(body: seq<Stmt>): string
    requires PrintableSeq(body)
  {
    Render(YModule(CanonModule(body)))
  }

  /** Writing a program and scanning and parsing the text gives it back. */
  lemma {:induction false} ProgramRoundTrip(body: seq<Stmt>)
    requires PrintableSeq(body)
    ensures Parse(Source(body)) == Some(body)
  {
    hide TokensOf, Render, PModule, YModule, CanonModule, EraseModule, Valid;
    ModuleCanon(body);
    TokenRoundTrip(YModule(CanonModule(body)));
    CompleteModule(CanonModule(body));
  }

  lemma {:induction false} SpelledWords()
    ensures T(TVar).value == "var" && T(TVal).value == "val"
    ensures T(TBreak).value == "break" && T(TContinue).value == "continue"
  {
  }

  /** The words that tell statements of one form apart. */
  lemma {:induction false} StatementWords(s: STree)
    ensures s.StDef? ==> YBody(s)[0].value == if s.variable then "var" else "val"
    ensures s.StBreak? ==> |YBody(s)| == 1 && YBody(s)[0].value == "break"
    ensures s.StContinue? ==> |YBody(s)| == 1 && YBody(s)[0].value == "continue"
  {
    hide Spelling;
    SpelledWords();
  }

  /** Further semicolons behind the statements of a block mean nothing. */
  lemma {:induction false} FurtherSemicolons(ss: seq<Item>, ts: seq<Item>)
    requires |ss| == |ts| && forall i | 0 <= i < |ss| :: ss[i].stmt == ts[i].stmt
    ensures EraseItems(ss) == EraseItems(ts)
  {
    hide EraseStmt;
    if ss != [] {
      FurtherSemicolons(ss[1..], ts[1..]);
    }
  }

  // ----- what is parsed can be written -----

  lemma {:induction false} TypePrintable(t: TypeRef)
    requires AllScanned(YType(t))
    ensures PrintableType(t)
    decreases t, 1
  {
    hide Scanned, Spelling, TypeCommas, IsName;
    NameScanned(t.name, YType(t), 0);
    if t.args != [] {
      ScannedConcat([Token(TId, t.name)], [T(TLt)] + TypeCommas(t.args) + [T(TGt)]);
      ScannedConcat([T(TLt)] + TypeCommas(t.args), [T(TGt)]);
      ScannedConcat([T(TLt)], TypeCommas(t.args));
      TypesPrintable(t.args);
    }
  }

  lemma {:induction false} TypesPrintable(ts: seq<TypeRef>)
    requires AllScanned(TypeCommas(ts))
    ensures AllPrintableTypes(ts)
    decreases ts, 0
  {
    hide Scanned, Spelling, YType, PrintableType;
    if ts != [] {
      if |ts| > 1 {
        ScannedConcat(YType(ts[0]) + [T(TComma)], TypeCommas(ts[1..]));
        ScannedConcat(YType(ts[0]), [T(TComma)]);
      } else {
        assert TypeCommas(ts[1..]) == [];
      }
      TypePrintable(ts[0]);
      TypesPrintable(ts[1..]);
    }
  }

  lemma {:induction false} DefPrintable(s: STree)
    requires s.StDef? && SFormed(s) && AllScanned(YBody(s))
    ensures PrintableStmt(EraseStmt(s))
  {
    hide Scanned, Spelling, YType, IsName, Yield, Printable;
    var head := [T(if s.variable then TVar else TVal), Token(TId, s.name)];
    ScannedConcat(head + YOptType(s.ty) + [T(TAssign)], Yield(s.value));
    ScannedConcat(head + YOptType(s.ty), [T(TAssign)]);
    ScannedConcat(head, YOptType(s.ty));
    NameScanned(s.name, head, 1);
    ErasePrintable(s.value);
    if s.ty.Some? {
      ScannedConcat([T(TColon)], YType(s.ty.value));
      TypePrintable(s.ty.value);
    }
  }

  lemma {:induction false} SimplePrintable(s: STree)
    requires IsSimple(s) && SFormed(s) && AllScanned(YBody(s))
    ensures PrintableStmt(EraseStmt(s)) && !OpenIf(EraseStmt(s))
  {
    hide Scanned, Spelling, Yield, Printable;
    match s {
      case StDef(_, _, _, _) => DefPrintable(s);
      case StAssign(l, r) =>
        ScannedConcat(Yield(l) + [T(TAssign)], Yield(r));
        ScannedConcat(Yield(l), [T(TAssign)]);
        ErasePrintable(l);
        ErasePrintable(r);
      case StInvoke(c) => ErasePrintable(c);
      case StReturn(Some(v)) =>
        ScannedConcat([T(TReturn)], Yield(v));
        ErasePrintable(v);
      case _ =>
    }
  }

  lemma {:induction false} IfParts(c: Tree, t: STree, f: Option<STree>)
    requires AllScanned(YStmt(StIf(c, t, f)))
    ensures AllScanned(Yield(c)) && AllScanned(YStmt(t)) && (f.Some? ==> AllScanned(YStmt(f.value)))
  {
    hide Scanned, Spelling, Yield;
    var a, e := [T(TIf), T(TLrb)] + Yield(c), YElse(f);
    assert YStmt(StIf(c, t, f)) == a + [T(TRrb)] + YStmt(t) + e;
    ScannedConcat(a + [T(TRrb)] + YStmt(t), e);
    ScannedConcat(a + [T(TRrb)], YStmt(t));
    ScannedConcat(a, [T(TRrb)]);
    ScannedConcat([T(TIf), T(TLrb)], Yield(c));
    if f.Some? {
      ScannedConcat([T(TElse)], YStmt(f.value));
    }
  }

  lemma {:induction false} LoopParts(s: STree)
    requires s.StLoop? && AllScanned(YStmt(s))
    ensures AllScanned(YBody(s.init)) && AllScanned(Yield(s.guard)) && AllScanned(YBody(s.step))
    ensures AllScanned(YStmt(s.body))
  {
    hide Scanned, Spelling, Yield, YBody;
    var semi := [T(TSemicolon)];
    var a := [T(TLoop), T(TLrb)] + YBody(s.init);
    var b := a + semi + Yield(s.guard);
    var c := b + semi + YBody(s.step);
    assert YStmt(s) == c + [T(TRrb)] + YStmt(s.body);
    ScannedConcat(c + [T(TRrb)], YStmt(s.body));
    ScannedConcat(c, [T(TRrb)]);
    ScannedConcat(b + semi, YBody(s.step));
    ScannedConcat(b, semi);
    ScannedConcat(a + semi, Yield(s.guard));
    ScannedConcat(a, semi);
    ScannedConcat([T(TLoop), T(TLrb)], YBody(s.init));
  }

  /** What the parser returns for a statement has a text; its `else`s stand
      where they can only be read as they were. */
  lemma {:induction false} StmtPrintable(s: STree)
    requires SFormed(s) && AllScanned(YStmt(s))
    ensures PrintableStmt(EraseStmt(s)) && OpenIf(EraseStmt(s)) == EndsOpen(s)
    decreases s, 1
  {
    hide Scanned, Spelling, Yield, YStmt, YBody, Printable, Erase, AllScanned, WellFormed;
    match s {
      case StIf(c, t, f) =>
        IfParts(c, t, f);
        ErasePrintable(c);
        StmtPrintable(t);
        if f.Some? {
          StmtPrintable(f.value);
        }
      case StLoop(i, c, st, b) =>
        LoopParts(s);
        SimplePrintable(i);
        ErasePrintable(c);
        SimplePrintable(st);
        StmtPrintable(b);
      case StBlock(ss) =>
        BlockParts(ss);
        ItemsPrintable(ss);
      case _ =>
        SimpleParts(s);
        SimplePrintable(s);
    }
  }

  lemma {:induction false} SimpleParts(s: STree)
    requires IsSimple(s) && AllScanned(YStmt(s))
    ensures AllScanned(YBody(s))
  {
    hide Scanned, Spelling, YBody;
    ScannedConcat(YBody(s), [T(TSemicolon)]);
  }

  lemma {:induction false} BlockParts(ss: seq<Item>)
    requires AllScanned(YStmt(StBlock(ss)))
    ensures AllScanned(YItems(ss))
  {
    hide Scanned, Spelling, YItems;
    ScannedConcat([T(TLcb)] + YItems(ss), [T(TRcb)]);
    ScannedConcat([T(TLcb)], YItems(ss));
  }

  lemma {:induction false} ItemsPrintable(ss: seq<Item>)
    requires ItemsFormed(ss) && AllScanned(YItems(ss))
    ensures PrintableSeq(EraseItems(ss))
    decreases ss, 0
  {
    hide Scanned, Spelling, YItem, SFormed, PrintableStmt, EraseStmt;
    if ss != [] {
      ScannedConcat(YItem(ss[0]), YItems(ss[1..]));
      ItemPrintable(ss[0]);
      ItemsPrintable(ss[1..]);
      assert EraseItems(ss)[1..] == EraseItems(ss[1..]);
    }
  }

  lemma {:induction false} ItemPrintable(i: Item)
    requires ItemFormed(i) && AllScanned(YItem(i))
    ensures PrintableStmt(EraseItem(i))
    decreases i, 0
  {
    hide Scanned, Spelling, YStmt, SFormed, PrintableStmt, EraseStmt;
    ScannedConcat(YStmt(i.stmt), if i.extra then [T(TSemicolon)] else []);
    StmtPrintable(i.stmt);
  }

  lemma {:induction false} ModulePrintable(ss: seq<STree>)
    requires ModuleFormed(ss) && AllScanned(YModule(ss))
    ensures PrintableSeq(EraseModule(ss))
  {
    hide Scanned, Spelling, YStmt, SFormed, PrintableStmt, EraseStmt;
    if ss != [] {
      ScannedConcat(YStmt(ss[0]), YModule(ss[1..]));
      StmtPrintable(ss[0]);
      ModulePrintable(ss[1..]);
      assert EraseModule(ss)[1..] == EraseModule(ss[1..]);
    }
  }

  /** The programs that some text is parsed to are exactly the programs that
      have a text; so each of them survives being written and parsed again. */
  lemma {:induction false} ParserRange(body: seq<Stmt>)
    ensures (exists text :: Parse(text) == Some(body)) <==> PrintableSeq(body)
  {
    hide TokensOf, PModule, YModule, EraseModule, PrintableSeq, ModuleFormed, Source;
    if text :| Parse(text) == Some(body) {
      var w := TokensOf(text);
      ScannedValid(text);
      assert AllScanned(w);
      ScannedSpelled(w);
      SoundModule(w);
      ModulePrintable(PModule(w).value);
    }
    if PrintableSeq(body) {
      ProgramRoundTrip(body);
    }
  }
}
