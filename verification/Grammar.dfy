/** The expression grammar: concrete trees with their tokens, and the recursive
    descent as functions of the tokens to come. */
module Grammar {
  import opened Ast
  import opened Tokens
  import opened Rendering
  import Literals

  /** A parse: what was recognised, and the tokens left. `None` is an error. */
  type Parsed<+T> = Option<(T, seq<Token>)>

  /** The tree of an expression as it is written, parentheses included. */
  datatype Tree =
    | TreeLit(tok: Token)
    | TreeName(name: string)
    | TreeParen(inner: Tree)
    | TreeUnary(unop: UnOp, arg: Tree)
    | TreeBinary(binop: BinOp, left: Tree, right: Tree)
    | TreeTrinary(cond: Tree, onTrue: Tree, onFalse: Tree)
    | TreeIndex(obj: Tree, key: Tree)
    | TreeField(obj: Tree, member: string)
    | TreeCall(func: Tree, args: seq<Tree>)
    | TreeArray(elems: seq<Tree>, trailing: bool)

  // ----- tokens -----

  /** Behind the last token is the end. */
  function Kind(w: seq<Token>): TokenType {
    if w == [] then TEos else w[0].kind
  }

  function T(kind: TokenType): Token {
    Token(kind, Spelling(kind))
  }

  predicate IsLiteral(kind: TokenType) {
    kind == TIntB || kind == TIntX || kind == TIntD || kind == TFloat || kind == TString || kind == TTrue || kind == TFalse
  }

  /** Tokens of a fixed spelling carry it, and none marks the end. */
  predicate Spelled(t: Token) {
    t.kind != TEos && (IsNumber(t.kind) || t.kind in {TString, TId, TUnknown} || t.value == Spelling(t.kind))
  }

  predicate AllSpelled(w: seq<Token>) {
    forall i | 0 <= i < |w| :: Spelled(w[i])
  }

  function UnOpAt(kind: TokenType): Option<UnOp> {
    match kind
    case TAdd => Some(Pos)
    case TSub => Some(Neg)
    case TNot => Some(Not)
    case TFlip => Some(Flip)
    case TAt => Some(TypeOf)
    case TPound => Some(SizeOf)
    case _ => None
  }

  function UnToken(op: UnOp): (kind: TokenType)
    ensures UnOpAt(kind) == Some(op)
  {
    match op
    case Pos => TAdd
    case Neg => TSub
    case Not => TNot
    case Flip => TFlip
    case TypeOf => TAt
    case SizeOf => TPound
  }

  function BinOpAt(kind: TokenType): Option<BinOp> {
    match kind
    case TOr2 => Some(Or)
    case TAnd2 => Some(And)
    case TEq => Some(Eq)
    case TGt => Some(Gt)
    case TLt => Some(Lt)
    case TGe => Some(Ge)
    case TLe => Some(Le)
    case TNe => Some(Ne)
    case TAdd => Some(Add)
    case TSub => Some(Sub)
    case TMul => Some(Mul)
    case TDiv => Some(Div)
    case TMod => Some(Mod)
    case TAnd => Some(BitAnd)
    case TOr => Some(BitOr)
    case TXor => Some(BitXor)
    case TShiftL => Some(ShiftL)
    case TShiftR => Some(ShiftR)
    case _ => None
  }

  function BinToken(op: BinOp): (kind: TokenType)
    ensures BinOpAt(kind) == Some(op)
  {
    match op
    case Or => TOr2
    case And => TAnd2
    case Eq => TEq
    case Gt => TGt
    case Lt => TLt
    case Ge => TGe
    case Le => TLe
    case Ne => TNe
    case Add => TAdd
    case Sub => TSub
    case Mul => TMul
    case Div => TDiv
    case Mod => TMod
    case BitAnd => TAnd
    case BitOr => TOr
    case BitXor => TXor
    case ShiftL => TShiftL
    case ShiftR => TShiftR
  }

  /** Whether the next token is a binary operator of level `p`. */
  predicate IsOper(w: seq<Token>, p: nat) {
    BinOpAt(Kind(w)).Some? && Priority(BinOpAt(Kind(w)).value) == p
  }

  // ----- the descent -----

  /** The highest level; only levels 1 to 6 have operators. */
  const MAX_LEVEL: nat := 8

  function PExpr(w: seq<Token>): (r: Parsed<Tree>)
    ensures r.Some? ==> |r.value.1| < |w|
    decreases |w|, 20, 0
  {
    match PBinary(1, w)
    case None => None
    case Some((c, w1)) =>
      if Kind(w1) != TQuestion then Some((c, w1)) else
      match PExpr(w1[1..])
      case None => None
      case Some((t, w2)) =>
        if Kind(w2) != TColon then None else
        match PExpr(w2[1..])
        case None => None
        case Some((f, w3)) => Some((TreeTrinary(c, t, f), w3))
  }

  function PBinary(p: nat, w: seq<Token>): (r: Parsed<Tree>)
    requires 1 <= p <= MAX_LEVEL
    ensures r.Some? ==> |r.value.1| < |w|
    decreases |w|, 18 - p, 1
  {
    match POperand(p, w)
    case None => None
    case Some((l, w1)) => PBinaryTail(p, l, w1)
  }

  /** An operand of level `p`. */
  function POperand(p: nat, w: seq<Token>): (r: Parsed<Tree>)
    requires 1 <= p <= MAX_LEVEL
    ensures r.Some? ==> |r.value.1| < |w|
    decreases |w|, 18 - p, 0
  {
    if p < MAX_LEVEL then PBinary(p + 1, w) else PUnary(w)
  }

  /** The loop that collects operators of level `p` to the left. */
  function PBinaryTail(p: nat, l: Tree, w: seq<Token>): (r: Parsed<Tree>)
    requires 1 <= p <= MAX_LEVEL
    ensures r.Some? ==> |r.value.1| <= |w|
    decreases |w|, 18 - p, 0
  {
    if !IsOper(w, p) then Some((l, w)) else
    match POperand(p, w[1..])
    case None => None
    case Some((r, w1)) => PBinaryTail(p, TreeBinary(BinOpAt(Kind(w)).value, l, r), w1)
  }

  /** At most one prefix operator. */
  function PUnary(w: seq<Token>): (r: Parsed<Tree>)
    ensures r.Some? ==> |r.value.1| < |w|
    decreases |w|, 9, 0
  {
    var op := UnOpAt(Kind(w));
    if op.None? then PAtom(w) else
    match PAtom(w[1..])
    case None => None
    case Some((a, w1)) => Some((TreeUnary(op.value, a), w1))
  }

  /** Literals and arrays take no suffix. */
  function PAtom(w: seq<Token>): (r: Parsed<Tree>)
    ensures r.Some? ==> |r.value.1| < |w|
    decreases |w|, 8, 0
  {
    if IsLiteral(Kind(w)) then Some((TreeLit(w[0]), w[1..]))
    else if Kind(w) == TLsb then
      match PElems(w[1..], false)
      case None => None
      case Some(((es, trailing), w1)) => Some((TreeArray(es, trailing), w1))
    else if Kind(w) == TId || Kind(w) == TLrb then PSuffixed(w)
    else None
  }

  /** The elements of an array up to the bracket; the last may have a comma. */
  function PElems(w: seq<Token>, comma: bool): (r: Parsed<(seq<Tree>, bool)>)
    ensures r.Some? ==> |r.value.1| < |w|
    decreases |w|, 21, 0
  {
    if Kind(w) == TRsb then Some((([], comma), w[1..])) else
    match PExpr(w)
    case None => None
    case Some((e, w1)) =>
      if Kind(w1) == TComma then
        match PElems(w1[1..], true)
        case None => None
        case Some(((es, trailing), w2)) => Some((([e] + es, trailing), w2))
      else if Kind(w1) == TRsb then Some((([e], false), w1[1..]))
      else None
  }

  function PSuffixed(w: seq<Token>): (r: Parsed<Tree>)
    ensures r.Some? ==> |r.value.1| < |w|
    decreases |w|, 7, 0
  {
    match PPrimary(w)
    case None => None
    case Some((t, w1)) => PSuffixes(t, w1)
  }

  function PPrimary(w: seq<Token>): (r: Parsed<Tree>)
    ensures r.Some? ==> |r.value.1| < |w|
    decreases |w|, 6, 0
  {
    if Kind(w) == TLrb then
      match PExpr(w[1..])
      case None => None
      case Some((t, w1)) => if Kind(w1) == TRrb then Some((TreeParen(t), w1[1..])) else None
    else if Kind(w) == TId then Some((TreeName(w[0].value), w[1..]))
    else None
  }

  /** The loop that collects suffixes. */
  function PSuffixes(t: Tree, w: seq<Token>): (r: Parsed<Tree>)
    ensures r.Some? ==> |r.value.1| <= |w|
    decreases |w|, 6, 0
  {
    match Kind(w)
    case TDot =>
      if Kind(w[1..]) == TId then PSuffixes(TreeField(t, w[1].value), w[2..]) else None
    case TLsb =>
      (match PExpr(w[1..])
       case None => None
       case Some((k, w1)) => if Kind(w1) == TRsb then PSuffixes(TreeIndex(t, k), w1[1..]) else None)
    case TLrb =>
      (match PArgs(w[1..], true)
       case None => None
       case Some((ts, w1)) => PSuffixes(TreeCall(t, ts), w1))
    case _ => Some((t, w))
  }

  /** The arguments of a call up to the bracket. */
  function PArgs(w: seq<Token>, first: bool): (r: Parsed<seq<Tree>>)
    ensures r.Some? ==> |r.value.1| < |w|
    decreases |w|, 21, 0
  {
    if Kind(w) == TRrb then Some(([], w[1..]))
    else if !first && Kind(w) != TComma then None
    else
      match PExpr(if first then w else w[1..])
      case None => None
      case Some((t, w1)) =>
        match PArgs(w1, false)
        case None => None
        case Some((ts, w2)) => Some(([t] + ts, w2))
  }

  // ----- trees -----

  /** The level of a tree's outermost construct; trees of level 9 are operands
      of binary operators, of level 10 of prefix operators, of level 11 of
      suffixes. */
  function Level(t: Tree): nat {
    match t
    case TreeTrinary(_, _, _) => 0
    case TreeBinary(op, _, _) => Priority(op)
    case TreeUnary(_, _) => 9
    case TreeLit(_) => 10
    case TreeArray(_, _) => 10
    case _ => 11
  }

  /** Operators bind by level and to the left: a left operand has at least its
      operator's level, a right one a higher level. */
  predicate WellFormed(t: Tree) {
    match t
    case TreeLit(tok) => IsLiteral(tok.kind) && Spelled(tok)
    case TreeName(_) => true
    case TreeParen(e) => WellFormed(e)
    case TreeUnary(_, a) => Level(a) >= 10 && WellFormed(a)
    case TreeBinary(op, l, r) =>
      Level(l) >= Priority(op) && Level(r) > Priority(op) && WellFormed(l) && WellFormed(r)
    case TreeTrinary(c, t, f) => Level(c) > 0 && WellFormed(c) && WellFormed(t) && WellFormed(f)
    case TreeIndex(o, k) => Level(o) == 11 && WellFormed(o) && WellFormed(k)
    case TreeField(o, _) => Level(o) == 11 && WellFormed(o)
    case TreeCall(f, args) => Level(f) == 11 && WellFormed(f) && AllWellFormed(args)
    case TreeArray(es, trailing) => AllWellFormed(es) && (trailing ==> es != [])
  }

  predicate AllWellFormed(ts: seq<Tree>) {
    ts == [] || (WellFormed(ts[0]) && AllWellFormed(ts[1..]))
  }

  /** The tokens of a tree, in order. */
  function Yield(t: Tree): (w: seq<Token>)
    ensures w != []
  {
    match t
    case TreeLit(tok) => [tok]
    case TreeName(x) => [Token(TId, x)]
    case TreeParen(e) => [T(TLrb)] + Yield(e) + [T(TRrb)]
    case TreeUnary(op, a) => [T(UnToken(op))] + Yield(a)
    case TreeBinary(op, l, r) => Yield(l) + [T(BinToken(op))] + Yield(r)
    case TreeTrinary(c, t, f) => Yield(c) + [T(TQuestion)] + Yield(t) + [T(TColon)] + Yield(f)
    case TreeIndex(o, k) => Yield(o) + [T(TLsb)] + Yield(k) + [T(TRsb)]
    case TreeField(o, x) => Yield(o) + [T(TDot), Token(TId, x)]
    case TreeCall(f, args) => Yield(f) + [T(TLrb)] + Commas(args) + [T(TRrb)]
    case TreeArray(es, trailing) => [T(TLsb)] + Commas(es) + (if trailing then [T(TComma)] else []) + [T(TRsb)]
  }

  function Commas(ts: seq<Tree>): seq<Token> {
    if ts == [] then []
    else if |ts| == 1 then Yield(ts[0])
    else Yield(ts[0]) + [T(TComma)] + Commas(ts[1..])
  }

  /** The construct that the tree's last token belongs to. */
  function Last(t: Tree): Tree {
    match t
    case TreeUnary(_, a) => Last(a)
    case TreeBinary(_, _, r) => Last(r)
    case TreeTrinary(_, _, f) => Last(f)
    case _ => t
  }

  predicate IsSuffix(kind: TokenType) {
    kind == TDot || kind == TLsb || kind == TLrb
  }

  /** The next token does not go on with the tree at levels from `p` on. */
  predicate Ends(p: nat, t: Tree, w: seq<Token>) {
    && (Level(Last(t)) == 11 ==> !IsSuffix(Kind(w)))
    && (BinOpAt(Kind(w)).Some? ==> Priority(BinOpAt(Kind(w)).value) < p)
    && (p == 0 ==> Kind(w) != TQuestion)
  }

  /** The expression that a tree is written for. */
  function Erase(t: Tree): Expr {
    match t
    case TreeLit(tok) => LiteralOf(tok)
    case TreeName(x) => Sym(x)
    case TreeParen(e) => Erase(e)
    case TreeUnary(op, a) => Unary(op, Erase(a))
    case TreeBinary(op, l, r) => Binary(op, Erase(l), Erase(r))
    case TreeTrinary(c, t, f) => Trinary(Erase(c), Erase(t), Erase(f))
    case TreeIndex(o, k) => Index(Erase(o), Erase(k))
    case TreeField(o, x) => Field(Erase(o), x)
    case TreeCall(f, args) => Call(Erase(f), EraseAll(args))
    case TreeArray(es, _) => Array(EraseAll(es))
  }

  function EraseAll(ts: seq<Tree>): (es: seq<Expr>)
    ensures |es| == |ts|
  {
    if ts == [] then [] else [Erase(ts[0])] + EraseAll(ts[1..])
  }

  /** The texts that are converted to true. */
  predicate ReadsTrue(s: string) {
    s == "true" || s == "TRUE" || s == "True" || s == "1"
  }

  function LiteralOf(tok: Token): Expr {
    match tok.kind
    case TFloat => FloatLit(tok.value)
    case TString => StrLit(tok.value)
    case TTrue => BoolLit(ReadsTrue(tok.value))
    case TFalse => BoolLit(ReadsTrue(tok.value))
    case _ => IntLit(Literals.IntValue(tok))
  }
}
