/** The grammar of types, statements and modules, in the same way as that of
    expressions. */
module Statements {
  import opened Ast
  import opened Tokens
  import opened Rendering
  import opened Grammar

  /** A statement as it is written; a block's statement may have a further
      semicolon behind it. */
  datatype STree =
    | StDef(variable: bool, name: string, ty: Option<TypeRef>, value: Tree)
    | StAssign(left: Tree, right: Tree)
    | StInvoke(call: Tree)
    | StReturn(result: Option<Tree>)
    | StIf(cond: Tree, onTrue: STree, onFalse: Option<STree>)
    | StLoop(init: STree, guard: Tree, step: STree, body: STree)
    | StBreak
    | StContinue
    | StBlock(items: seq<Item>)

  datatype Item = Item(stmt: STree, extra: bool)

  // ----- the descent -----

  function PType(w: seq<Token>): (r: Parsed<TypeRef>)
    ensures r.Some? ==> |r.value.1| < |w|
    decreases |w|, 1
  {
    if Kind(w) != TId then None
    else if Kind(w[1..]) != TLt then Some((TypeRef(w[0].value, []), w[1..]))
    else
      match PTypeArgs(w[2..], true)
      case None => None
      case Some((ts, w1)) => if ts == [] then None else Some((TypeRef(w[0].value, ts), w1))
  }

  function PTypeArgs(w: seq<Token>, first: bool): (r: Parsed<seq<TypeRef>>)
    ensures r.Some? ==> |r.value.1| < |w|
    decreases |w|, 2
  {
    if Kind(w) == TGt then Some(([], w[1..]))
    else if !first && Kind(w) != TComma then None
    else
      match PType(if first then w else w[1..])
      case None => None
      case Some((t, w1)) =>
        match PTypeArgs(w1, false)
        case None => None
        case Some((ts, w2)) => Some(([t] + ts, w2))
  }

  /** Behind a definition's name: the optional type. */
  function POptType(w: seq<Token>): (r: Parsed<Option<TypeRef>>)
    ensures r.Some? ==> |r.value.1| <= |w|
  {
    if Kind(w) != TColon then Some((None, w)) else
    match PType(w[1..])
    case None => None
    case Some((t, w1)) => Some((Some(t), w1))
  }

  function PDef(w: seq<Token>): (r: Parsed<STree>)
    ensures r.Some? ==> |r.value.1| < |w|
  {
    if (Kind(w) != TVar && Kind(w) != TVal) || Kind(w[1..]) != TId then None else
    match POptType(w[2..])
    case None => None
    case Some((ty, w1)) =>
      if Kind(w1) != TAssign then None else
      match PExpr(w1[1..])
      case None => None
      case Some((v, w2)) => Some((StDef(Kind(w) == TVar, w[1].value, ty, v), w2))
  }

  function PAssignOrCall(w: seq<Token>): (r: Parsed<STree>)
    ensures r.Some? ==> |r.value.1| < |w|
  {
    match PSuffixed(w)
    case None => None
    case Some((l, w1)) =>
      if Kind(w1) == TAssign then
        match PExpr(w1[1..])
        case None => None
        case Some((v, w2)) => Some((StAssign(l, v), w2))
      else if Erase(l).Call? then Some((StInvoke(l), w1))
      else None
  }

  function PReturn(w: seq<Token>): (r: Parsed<STree>)
    ensures r.Some? ==> |r.value.1| < |w|
  {
    if Kind(w) != TReturn then None
    else if Kind(w[1..]) == TSemicolon then Some((StReturn(None), w[1..]))
    else
      match PExpr(w[1..])
      case None => None
      case Some((v, w1)) => Some((StReturn(Some(v)), w1))
  }

  /** A loop's step has no semicolon. */
  function PStep(w: seq<Token>): (r: Parsed<STree>)
    ensures r.Some? ==> |r.value.1| < |w|
  {
    if Kind(w) == TVar || Kind(w) == TVal then PDef(w) else PAssignOrCall(w)
  }

  /** A token of the kind, consumed. */
  function Expect<S>(r: Parsed<S>, kind: TokenType): Parsed<S> {
    match r
    case None => None
    case Some((s, w)) => if w != [] && w[0].kind == kind then Some((s, w[1..])) else None
  }

  function PStmt(w: seq<Token>): (r: Parsed<STree>)
    ensures r.Some? ==> |r.value.1| < |w|
    decreases |w|, 1
  {
    match Kind(w)
    case TStruct => None
    case TEnum => None
    case TProc => None
    case TVar => Expect(PDef(w), TSemicolon)
    case TVal => Expect(PDef(w), TSemicolon)
    case TBreak => Expect(Some((StBreak, w[1..])), TSemicolon)
    case TContinue => Expect(Some((StContinue, w[1..])), TSemicolon)
    case TReturn => Expect(PReturn(w), TSemicolon)
    case TIf => PIf(w)
    case TLoop => PLoop(w)
    case TLcb =>
      (match PItems(w[1..])
       case None => None
       case Some((ss, w1)) => Some((StBlock(ss), w1)))
    case _ => Expect(PAssignOrCall(w), TSemicolon)
  }

  /** An `else` goes to the nearest `if` that it can go to. */
  function PIf(w: seq<Token>): (r: Parsed<STree>)
    ensures r.Some? ==> |r.value.1| < |w|
    decreases |w|, 0
  {
    if Kind(w) != TIf || Kind(w[1..]) != TLrb then None else
    match Expect(PExpr(w[2..]), TRrb)
    case None => None
    case Some((c, w1)) =>
      match PStmt(w1)
      case None => None
      case Some((t, w2)) =>
        if Kind(w2) != TElse then Some((StIf(c, t, None), w2)) else
        match PStmt(w2[1..])
        case None => None
        case Some((f, w3)) => Some((StIf(c, t, Some(f)), w3))
  }

  /** The head of a loop up to its closing bracket. */
  function PLoopHead(w: seq<Token>): (r: Parsed<(STree, Tree, STree)>)
    ensures r.Some? ==> |r.value.1| < |w|
  {
    if Kind(w) != TLoop || Kind(w[1..]) != TLrb then None else
    match Expect(PDef(w[2..]), TSemicolon)
    case None => None
    case Some((i, w1)) =>
      match Expect(PExpr(w1), TSemicolon)
      case None => None
      case Some((c, w2)) =>
        match Expect(PStep(w2), TRrb)
        case None => None
        case Some((s, w3)) => Some(((i, c, s), w3))
  }

  function PLoop(w: seq<Token>): (r: Parsed<STree>)
    ensures r.Some? ==> |r.value.1| < |w|
    decreases |w|, 0
  {
    match PLoopHead(w)
    case None => None
    case Some(((i, c, s), w1)) =>
      match PStmt(w1)
      case None => None
      case Some((b, w2)) => Some((StLoop(i, c, s, b), w2))
  }

  /** The statements of a block up to its closing brace. */
  function PItems(w: seq<Token>): (r: Parsed<seq<Item>>)
    ensures r.Some? ==> |r.value.1| < |w|
    decreases |w|, 2
  {
    if Kind(w) == TRcb then Some(([], w[1..])) else
    match PStmt(w)
    case None => None
    case Some((s, w1)) =>
      match PItems(if Kind(w1) == TSemicolon then w1[1..] else w1)
      case None => None
      case Some((ss, w2)) => Some(([Item(s, Kind(w1) == TSemicolon)] + ss, w2))
  }

  function PModule(w: seq<Token>): Option<seq<STree>>
    decreases |w|
  {
    if Kind(w) == TEos then Some([])
    else if Kind(w) == TImport || Kind(w) == TExport then None
    else
      match PStmt(w)
      case None => None
      case Some((s, w1)) =>
        match PModule(w1)
        case None => None
        case Some(ss) => Some([s] + ss)
  }

  // ----- what is written -----

  function YType(t: TypeRef): (w: seq<Token>)
    ensures w != []
  {
    [Token(TId, t.name)] + if t.args == [] then [] else [T(TLt)] + TypeCommas(t.args) + [T(TGt)]
  }

  function TypeCommas(ts: seq<TypeRef>): seq<Token> {
    if ts == [] then []
    else if |ts| == 1 then YType(ts[0])
    else YType(ts[0]) + [T(TComma)] + TypeCommas(ts[1..])
  }

  function YOptType(t: Option<TypeRef>): seq<Token> {
    match t
    case None => []
    case Some(ty) => [T(TColon)] + YType(ty)
  }

  /** A statement that ends with a semicolon, without it. */
  function YBody(s: STree): seq<Token> {
    match s
    case StDef(variable, x, ty, v) =>
      [T(if variable then TVar else TVal), Token(TId, x)] + YOptType(ty) + [T(TAssign)] + Yield(v)
    case StAssign(l, r) => Yield(l) + [T(TAssign)] + Yield(r)
    case StInvoke(c) => Yield(c)
    case StReturn(None) => [T(TReturn)]
    case StReturn(Some(v)) => [T(TReturn)] + Yield(v)
    case StBreak => [T(TBreak)]
    case StContinue => [T(TContinue)]
    case _ => []
  }

  function YStmt(s: STree): seq<Token> {
    match s
    case StIf(c, t, f) =>
      [T(TIf), T(TLrb)] + Yield(c) + [T(TRrb)] + YStmt(t) + YElse(f)
    case StLoop(i, c, st, b) =>
      [T(TLoop), T(TLrb)] + YBody(i) + [T(TSemicolon)] + Yield(c) + [T(TSemicolon)] + YBody(st) + [T(TRrb)] + YStmt(b)
    case StBlock(ss) => [T(TLcb)] + YItems(ss) + [T(TRcb)]
    case _ => YBody(s) + [T(TSemicolon)]
  }

  function YElse(f: Option<STree>): seq<Token> {
    match f
    case None => []
    case Some(s) => [T(TElse)] + YStmt(s)
  }

  function YItems(ss: seq<Item>): seq<Token> {
    if ss == [] then []
    else YItem(ss[0]) + YItems(ss[1..])
  }

  function YItem(i: Item): seq<Token> {
    YStmt(i.stmt) + if i.extra then [T(TSemicolon)] else []
  }

  function YModule(ss: seq<STree>): seq<Token> {
    if ss == [] then [] else YStmt(ss[0]) + YModule(ss[1..])
  }

  /** Whether an `else` behind the statement would be taken for its own. */
  predicate EndsOpen(s: STree) {
    match s
    case StIf(_, _, None) => true
    case StIf(_, _, Some(f)) => EndsOpen(f)
    case StLoop(_, _, _, b) => EndsOpen(b)
    case _ => false
  }

  predicate SFormed(s: STree) {
    match s
    case StDef(_, _, _, v) => WellFormed(v)
    case StAssign(l, r) => Level(l) == 11 && WellFormed(l) && WellFormed(r)
    case StInvoke(c) => Level(c) == 11 && WellFormed(c) && Erase(c).Call?
    case StReturn(v) => v.Some? ==> WellFormed(v.value)
    case StIf(c, t, f) => WellFormed(c) && SFormed(t) && (f.Some? ==> !EndsOpen(t) && SFormed(f.value))
    case StLoop(i, c, st, b) =>
      && i.StDef? && SFormed(i) && WellFormed(c)
      && (st.StDef? || st.StAssign? || st.StInvoke?) && SFormed(st) && SFormed(b)
    case StBreak => true
    case StContinue => true
    case StBlock(ss) => ItemsFormed(ss)
  }

  predicate ItemsFormed(ss: seq<Item>) {
    ss == [] || (ItemFormed(ss[0]) && ItemsFormed(ss[1..]))
  }

  predicate ItemFormed(i: Item) {
    SFormed(i.stmt)
  }

  predicate ModuleFormed(ss: seq<STree>) {
    ss == [] || (SFormed(ss[0]) && ModuleFormed(ss[1..]))
  }

  /** The next token does not go on with the statement. */
  predicate SEnds(s: STree, w: seq<Token>) {
    EndsOpen(s) ==> Kind(w) != TElse
  }

  function EraseStmt(s: STree): Stmt {
    match s
    case StDef(variable, x, ty, v) => SymbolDef(variable, x, ty, Erase(v))
    case StAssign(l, r) => Assign(Erase(l), Erase(r))
    case StInvoke(c) => Invoke(Erase(c))
    case StReturn(None) => Return(None)
    case StReturn(Some(v)) => Return(Some(Erase(v)))
    case StIf(c, t, None) => If(Erase(c), Some(EraseStmt(t)), None)
    case StIf(c, t, Some(f)) => If(Erase(c), Some(EraseStmt(t)), Some(EraseStmt(f)))
    case StLoop(i, c, st, b) => Loop(Some(EraseStmt(i)), Some(Erase(c)), Some(EraseStmt(st)), Some(EraseStmt(b)))
    case StBreak => Break
    case StContinue => Continue
    case StBlock(ss) => Block(EraseItems(ss))
  }

  function EraseItems(ss: seq<Item>): seq<Stmt> {
    if ss == [] then [] else [EraseItem(ss[0])] + EraseItems(ss[1..])
  }

  function EraseItem(i: Item): Stmt {
    EraseStmt(i.stmt)
  }

  function EraseModule(ss: seq<STree>): seq<Stmt> {
    if ss == [] then [] else [EraseStmt(ss[0])] + EraseModule(ss[1..])
  }
}
