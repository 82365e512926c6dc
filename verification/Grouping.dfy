/** How operators group, told by their signs and by a list of their classes. */
module Grouping {
  import opened Ast
  import opened Tokens
  import opened Lexing
  import opened Rendering
  import opened Layout
  import opened Grammar
  import opened Completeness
  import opened Printing

  /** From the loosest class to the tightest. */
  const CLASSES: seq<set<BinOp>> := [
    {Or},
    {And},
    {Eq, Ne, Le, Ge, Lt, Gt},
    {Add, Sub},
    {Mul, Div, Mod},
    {BitAnd, BitOr, BitXor, ShiftL, ShiftR}]

  /** Whether the class of `q` comes after that of `p`. */
  predicate Tighter(q: BinOp, p: BinOp) {
    exists i, j | 0 <= i < j < |CLASSES| :: p in CLASSES[i] && q in CLASSES[j]
  }

  function Sign(op: BinOp): string {
    match op
    case Or => "||" case And => "&&"
    case Eq => "==" case Ne => "!=" case Le => "<=" case Ge => ">=" case Lt => "<" case Gt => ">"
    case Add => "+" case Sub => "-"
    case Mul => "*" case Div => "/" case Mod => "%"
    case BitAnd => "&" case BitOr => "|" case BitXor => "^" case ShiftL => "|<" case ShiftR => ">|"
  }

  function PrefixSign(op: UnOp): string {
    match op
    case Pos => "+" case Neg => "-" case Flip => "~" case Not => "!" case TypeOf => "@" case SizeOf => "#"
  }

  // ----- the signs -----

  lemma {:induction false} SignSpelled(op: BinOp)
    ensures T(BinToken(op)) == Token(BinToken(op), Sign(op)) && Valid(T(BinToken(op)))
  {
  }

  lemma {:induction false} PrefixSpelled(op: UnOp)
    ensures T(UnToken(op)) == Token(UnToken(op), PrefixSign(op)) && Valid(T(UnToken(op)))
  {
  }

  /** The two words for bools. */
  lemma {:induction false} BoolWords()
    ensures LiteralOf(Token(TTrue, "true")) == BoolLit(true) && LiteralOf(Token(TFalse, "false")) == BoolLit(false)
    ensures T(TTrue).value == "true" && T(TFalse).value == "false"
  {
  }

  // ----- the classes -----

  lemma {:induction false} ClassOf(op: BinOp, i: nat)
    requires i < |CLASSES|
    ensures op in CLASSES[i] <==> Priority(op) == i + 1
  {
  }

  lemma {:induction false} TighterLevel(q: BinOp, p: BinOp)
    ensures Tighter(q, p) <==> Priority(q) > Priority(p)
  {
    hide Priority;
    forall i, j | 0 <= i < j < |CLASSES| && p in CLASSES[i] && q in CLASSES[j] ensures Priority(q) > Priority(p) {
      ClassOf(p, i);
      ClassOf(q, j);
    }
    var i, j := Priority(p) - 1, Priority(q) - 1;
    ClassOf(p, i);
    ClassOf(q, j);
    assert p in CLASSES[i] && q in CLASSES[j];
  }

  // ----- grouping -----

  /** `x p y q z`, grouped to the right exactly when the class of `q` is later. */
  function Grouped(p: BinOp, q: BinOp, x: Tree, y: Tree, z: Tree): Tree {
    if Tighter(q, p) then TreeBinary(p, x, TreeBinary(q, y, z)) else TreeBinary(q, TreeBinary(p, x, y), z)
  }

  predicate IsOperand(t: Tree) {
    WellFormed(t) && Level(t) >= 9
  }

  /** What cannot go on with an expression. */
  predicate Stop(w: seq<Token>) {
    !IsSuffix(Kind(w)) && BinOpAt(Kind(w)).None? && Kind(w) != TQuestion
  }

  /** For all operators and operands: prefix operators, literals, calls and the
      like stay together, and two binary operators group by their classes. */
  lemma {:induction false} TreesGroup(p: BinOp, q: BinOp, x: Tree, y: Tree, z: Tree, w: seq<Token>)
    requires IsOperand(x) && IsOperand(y) && IsOperand(z) && Stop(w)
    ensures PExpr(Yield(x) + ([T(BinToken(p))] + (Yield(y) + ([T(BinToken(q))] + (Yield(z) + w))))) ==
            Some((Grouped(p, q, x, y, z), w))
  {
    hide PExpr, Spelling, BinToken, Priority, Tighter, Yield, Last;
    TighterLevel(q, p);
    var t := Grouped(p, q, x, y, z);
    GroupedFormed(p, q, x, y, z);
    if Tighter(q, p) {
      YieldBinary(p, x, TreeBinary(q, y, z), w);
      YieldBinary(q, y, z, w);
    } else {
      YieldBinary(q, TreeBinary(p, x, y), z, w);
      YieldBinary(p, x, y, [T(BinToken(q))] + (Yield(z) + w));
    }
    CompleteExpr(t, w);
  }

  lemma {:induction false} GroupedFormed(p: BinOp, q: BinOp, x: Tree, y: Tree, z: Tree)
    requires IsOperand(x) && IsOperand(y) && IsOperand(z)
    ensures WellFormed(Grouped(p, q, x, y, z))
  {
    hide Priority, Tighter;
    TighterLevel(q, p);
  }

  /** Words with a space behind each. */
  function Spaced(ws: seq<string>): string {
    if ws == [] then "" else ws[0] + (" " + Spaced(ws[1..]))
  }

  lemma {:induction false} WordThen(t: Token, ws: seq<string>)
    requires Valid(t) && t.kind != TString
    ensures TokensOf(Spaced([t.value] + ws)) == [t] + TokensOf(Spaced(ws))
  {
    hide TokensOf, Valid;
    assert ([t.value] + ws)[1..] == ws;
    TokenThen(t, " " + Spaced(ws));
    BlankSkipped(' ', Spaced(ws));
  }

  lemma {:induction false} FiveWords(t: Token, u: Token, v: Token, x: Token, y: Token)
    requires forall a | a in {t, u, v, x, y} :: Valid(a) && a.kind != TString
    ensures TokensOf(Spaced([t.value, u.value, v.value, x.value, y.value])) == [t, u, v, x, y]
  {
    hide TokensOf, Valid, Spaced;
    var a, b, c := [y.value] + [], [x.value] + ([y.value] + []), [v.value] + ([x.value] + ([y.value] + []));
    WordThen(y, []);
    WordThen(x, a);
    WordThen(v, b);
    WordThen(u, c);
    WordThen(t, [u.value] + c);
    NoWords();
    assert [t.value] + ([u.value] + c) == [t.value, u.value, v.value, x.value, y.value];
  }

  lemma {:induction false} NoWords()
    ensures TokensOf(Spaced([])) == []
  {
    NoTokens();
  }

  function GroupedExpr(p: BinOp, q: BinOp, x: Expr, y: Expr, z: Expr): Expr {
    if Tighter(q, p) then Expr.Binary(p, x, Expr.Binary(q, y, z)) else Expr.Binary(q, Expr.Binary(p, x, y), z)
  }

  lemma {:induction false} GroupedErased(p: BinOp, q: BinOp, x: Tree, y: Tree, z: Tree)
    ensures Erase(Grouped(p, q, x, y, z)) == GroupedExpr(p, q, Erase(x), Erase(y), Erase(z))
  {
    hide Tighter, Erase;
    EraseBinary(q, y, z);
    EraseBinary(p, x, y);
    EraseBinary(p, x, TreeBinary(q, y, z));
    EraseBinary(q, TreeBinary(p, x, y), z);
  }

  lemma {:induction false} EraseBinary(op: BinOp, l: Tree, r: Tree)
    ensures Erase(TreeBinary(op, l, r)) == Expr.Binary(op, Erase(l), Erase(r))
  {
    hide LiteralOf, EraseAll;
  }

  lemma {:induction false} FiveTokens(a: Token, b: Token, c: Token, d: Token, e: Token)
    ensures [a] + ([b] + ([c] + ([d] + ([e] + [])))) == [a, b, c, d, e]
  {
  }

  lemma {:induction false} NameTree(x: string)
    ensures Yield(TreeName(x)) == [Token(TId, x)] && Erase(TreeName(x)) == Sym(x) && IsOperand(TreeName(x))
  {
  }

  lemma {:induction false} NamesScanned(p: BinOp, q: BinOp, x: string, y: string, z: string)
    requires IsName(x) && IsName(y) && IsName(z)
    ensures TokensOf(Spaced([x, Sign(p), y, Sign(q), z])) ==
            [Token(TId, x), T(BinToken(p)), Token(TId, y), T(BinToken(q)), Token(TId, z)]
  {
    hide TokensOf, Spaced, Valid, IsName, Sign, BinToken, T;
    SignSpelled(p);
    SignSpelled(q);
    NameValid(x);
    NameValid(y);
    NameValid(z);
    OperatorKind(p);
    OperatorKind(q);
    FiveWords(Token(TId, x), T(BinToken(p)), Token(TId, y), T(BinToken(q)), Token(TId, z));
  }

  /** The text `x p y q z` of three names and two signs. */
  lemma {:induction false} NamesGroup(p: BinOp, q: BinOp, x: string, y: string, z: string)
    requires IsName(x) && IsName(y) && IsName(z)
    ensures var r := PExpr(TokensOf(Spaced([x, Sign(p), y, Sign(q), z])));
            r.Some? && r.value.1 == [] && Erase(r.value.0) == GroupedExpr(p, q, Sym(x), Sym(y), Sym(z))
  {
    hide TokensOf, PExpr, Spaced, Tighter, IsName, Priority, Sign, BinToken, Spelling, Erase, Yield, Grouped,
         GroupedExpr, IsOperand, T;
    NamesScanned(p, q, x, y, z);
    NameTree(x);
    NameTree(y);
    NameTree(z);
    TreesGroup(p, q, TreeName(x), TreeName(y), TreeName(z), []);
    GroupedErased(p, q, TreeName(x), TreeName(y), TreeName(z));
    FiveTokens(Token(TId, x), T(BinToken(p)), Token(TId, y), T(BinToken(q)), Token(TId, z));
  }

  lemma {:induction false} OperatorKind(op: BinOp)
    ensures BinToken(op) != TString
  {
  }

  lemma {:induction false} NameValid(x: string)
    requires IsName(x)
    ensures Valid(Token(TId, x))
  {
  }
}
