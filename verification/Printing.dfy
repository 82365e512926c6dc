/** Expressions written with the fewest parentheses, and parsing as the inverse
    of writing. */
module Printing {
  import opened Ast
  import opened Scalar
  import opened Tokens
  import opened Rendering
  import opened Literals
  import opened Grammar
  import opened Completeness
  import opened Soundness

  predicate IsName(x: string) {
    Valid(Token(TId, x))
  }

  /** The expressions that have a text. */
  predicate Printable(e: Expr) {
    match e
    case IntLit(n) => InRange(I32, n)
    case FloatLit(s) => IsFloat(s)
    case BoolLit(_) => true
    case StrLit(s) => '\0' !in s
    case Sym(x) => IsName(x)
    case Unary(_, a) => Printable(a)
    case Binary(_, l, r) => Printable(l) && Printable(r)
    case Trinary(c, t, f) => Printable(c) && Printable(t) && Printable(f)
    case Index(o, k) => Printable(o) && Printable(k)
    case Field(o, x) => Printable(o) && IsName(x)
    case Call(f, args) => Printable(f) && AllPrintable(args)
    case Array(es) => AllPrintable(es)
  }

  predicate AllPrintable(es: seq<Expr>) {
    es == [] || (Printable(es[0]) && AllPrintable(es[1..]))
  }

  /** In parentheses only where the level is too low for the place. */
  function Paren(t: Tree, level: nat): Tree {
    if Level(t) < level then TreeParen(t) else t
  }

  function Canon(e: Expr): Tree
    requires Printable(e)
  {
    match e
    case IntLit(n) => TreeLit(IntToken(n))
    case FloatLit(s) => TreeLit(Token(TFloat, s))
    case BoolLit(b) => TreeLit(T(if b then TTrue else TFalse))
    case StrLit(s) => TreeLit(Token(TString, s))
    case Sym(x) => TreeName(x)
    case Unary(op, a) => TreeUnary(op, Paren(Canon(a), 10))
    case Binary(op, l, r) => TreeBinary(op, Paren(Canon(l), Priority(op)), Paren(Canon(r), Priority(op) + 1))
    case Trinary(c, t, f) => TreeTrinary(Paren(Canon(c), 1), Canon(t), Canon(f))
    case Index(o, k) => TreeIndex(Paren(Canon(o), 11), Canon(k))
    case Field(o, x) => TreeField(Paren(Canon(o), 11), x)
    case Call(f, args) => TreeCall(Paren(Canon(f), 11), CanonAll(args))
    case Array(es) => TreeArray(CanonAll(es), false)
  }

  function CanonAll(es: seq<Expr>): seq<Tree>
    requires AllPrintable(es)
  {
    if es == [] then [] else [Canon(es[0])] + CanonAll(es[1..])
  }

  /** The tokens of an expression. */
  function Print(e: Expr): seq<Token>
    requires Printable(e)
  {
    Yield(Canon(e))
  }

  predicate AllValid(w: seq<Token>) {
    forall i | 0 <= i < |w| :: Valid(w[i])
  }

  /** What holds of a tree that an expression is written as. */
  ghost predicate Writes(t: Tree, e: Expr) {
    WellFormed(t) && Erase(t) == e && AllValid(Yield(t))
  }

  ghost predicate WritesAll(ts: seq<Tree>, es: seq<Expr>) {
    AllWellFormed(ts) && EraseAll(ts) == es && AllValid(Commas(ts))
  }

  lemma {:induction false} ValidFixed(kind: TokenType)
    requires Fixed(kind)
    ensures Valid(T(kind))
  {
  }

  lemma {:induction false} ValidConcat(a: seq<Token>, b: seq<Token>)
    ensures AllValid(a + b) <==> AllValid(a) && AllValid(b)
  {
    hide Valid;
    if AllValid(a + b) {
      assert forall i | 0 <= i < |a| :: (a + b)[i] == a[i];
      assert forall i | 0 <= i < |b| :: (a + b)[|a| + i] == b[i];
    }
  }

  lemma {:induction false} WritesParen(t: Tree, e: Expr, level: nat)
    requires Writes(t, e) && level <= 11
    ensures Writes(Paren(t, level), e) && Level(Paren(t, level)) >= level
  {
    hide Valid, Spelling;
    ValidFixed(TLrb);
    ValidFixed(TRrb);
  }

  lemma {:induction false} ListWrites(t: Tree, e: Expr, ts: seq<Tree>, es: seq<Expr>)
    requires Writes(t, e) && WritesAll(ts, es)
    ensures WritesAll([t] + ts, [e] + es)
  {
    hide Valid, Spelling, Yield, Erase;
    ValidFixed(TComma);
    assert ([t] + ts)[1..] == ts;
    CommasFirst(t, ts, []);
    assert Commas([t] + ts) + [] == Commas([t] + ts);
    assert Yield(t) + (Rest(ts) + []) == Yield(t) + Rest(ts);
  }

  lemma {:induction false} CanonWrites(e: Expr)
    requires Printable(e)
    ensures Writes(Canon(e), e)
    decreases e, 1
  {
    hide Writes, WritesAll, WellFormed, Erase, Yield;
    match e {
      case Unary(op, a) =>
        CanonWrites(a);
        WritesParen(Canon(a), a, 10);
        UnaryWrites(op, Paren(Canon(a), 10), a);
      case Binary(op, l, r) =>
        CanonWrites(l);
        CanonWrites(r);
        WritesParen(Canon(l), l, Priority(op));
        WritesParen(Canon(r), r, Priority(op) + 1);
        BinaryWrites(op, Paren(Canon(l), Priority(op)), l, Paren(Canon(r), Priority(op) + 1), r);
      case Trinary(c, t, f) =>
        CanonWrites(c);
        CanonWrites(t);
        CanonWrites(f);
        WritesParen(Canon(c), c, 1);
        TrinaryWrites(Paren(Canon(c), 1), c, Canon(t), t, Canon(f), f);
      case Index(o, k) =>
        CanonWrites(o);
        CanonWrites(k);
        WritesParen(Canon(o), o, 11);
        IndexWrites(Paren(Canon(o), 11), o, Canon(k), k);
      case Field(o, x) =>
        CanonWrites(o);
        WritesParen(Canon(o), o, 11);
        FieldWrites(Paren(Canon(o), 11), o, x);
      case Call(f, args) =>
        CanonWrites(f);
        CanonAllWrites(args);
        WritesParen(Canon(f), f, 11);
        CallWrites(Paren(Canon(f), 11), f, CanonAll(args), args);
      case Array(es) =>
        CanonAllWrites(es);
        ArrayWrites(CanonAll(es), es);
      case _ => LeafWrites(e);
    }
  }

  lemma {:induction false} CanonAllWrites(es: seq<Expr>)
    requires AllPrintable(es)
    ensures WritesAll(CanonAll(es), es)
    decreases es, 0
  {
    if es != [] {
      hide WritesAll, Writes;
      CanonWrites(es[0]);
      CanonAllWrites(es[1..]);
      ListWrites(Canon(es[0]), es[0], CanonAll(es[1..]), es[1..]);
      assert [es[0]] + es[1..] == es;
    }
  }

  lemma {:induction false} LeafWrites(e: Expr)
    requires Printable(e) && (e.IntLit? || e.FloatLit? || e.BoolLit? || e.StrLit? || e.Sym?)
    ensures Writes(Canon(e), e)
  {
    if e.IntLit? {
      IntWrites(e.value);
    } else if e.BoolLit? {
      BoolWrites(e.b);
    } else {
      hide Named, IsFloat, Name;
    }
  }

  lemma {:induction false} BoolWrites(b: bool)
    ensures Writes(Canon(BoolLit(b)), BoolLit(b))
  {
    hide Valid;
    ValidFixed(if b then TTrue else TFalse);
  }

  lemma {:induction false} IntWrites(n: int)
    requires InRange(I32, n)
    ensures Writes(Canon(IntLit(n)), IntLit(n))
  {
    hide IntValue, IntToken, Valid, Spelling;
    IntRoundTrip(n);
    IntTokenKind(n);
  }

  lemma {:induction false} IntTokenKind(n: int)
    requires InRange(I32, n)
    ensures IntToken(n).kind in {TIntD, TIntX}
  {
  }

  lemma {:induction false} UnaryWrites(op: UnOp, t: Tree, e: Expr)
    requires Writes(t, e) && Level(t) >= 10
    ensures Writes(TreeUnary(op, t), Unary(op, e))
  {
    hide Valid, Spelling;
    ValidFixed(UnToken(op));
  }

  lemma {:induction false} BinaryWrites(op: BinOp, t: Tree, e: Expr, t1: Tree, e1: Expr)
    requires Writes(t, e) && Writes(t1, e1) && Level(t) >= Priority(op) && Level(t1) > Priority(op)
    ensures Writes(TreeBinary(op, t, t1), Binary(op, e, e1))
  {
    hide Valid, Spelling, BinToken;
    BinTokenAt(BinToken(op));
    ValidFixed(BinToken(op));
  }

  lemma {:induction false} TrinaryWrites(t: Tree, e: Expr, t1: Tree, e1: Expr, t2: Tree, e2: Expr)
    requires Writes(t, e) && Writes(t1, e1) && Writes(t2, e2) && Level(t) > 0
    ensures Writes(TreeTrinary(t, t1, t2), Trinary(e, e1, e2))
  {
    hide Valid, Spelling;
    ValidFixed(TQuestion);
    ValidFixed(TColon);
  }

  lemma {:induction false} IndexWrites(t: Tree, e: Expr, t1: Tree, e1: Expr)
    requires Writes(t, e) && Writes(t1, e1) && Level(t) == 11
    ensures Writes(TreeIndex(t, t1), Index(e, e1))
  {
    hide Valid, Spelling;
    ValidFixed(TLsb);
    ValidFixed(TRsb);
  }

  lemma {:induction false} FieldWrites(t: Tree, e: Expr, x: string)
    requires Writes(t, e) && Level(t) == 11 && IsName(x)
    ensures Writes(TreeField(t, x), Field(e, x))
  {
    hide Valid, Spelling;
    ValidFixed(TDot);
  }

  lemma {:induction false} CallWrites(t: Tree, e: Expr, ts: seq<Tree>, es: seq<Expr>)
    requires Writes(t, e) && Level(t) == 11 && WritesAll(ts, es)
    ensures Writes(TreeCall(t, ts), Call(e, es))
  {
    hide Valid, Spelling, Commas;
    ValidFixed(TLrb);
    ValidFixed(TRrb);
  }

  lemma {:induction false} ArrayWrites(ts: seq<Tree>, es: seq<Expr>)
    requires WritesAll(ts, es)
    ensures Writes(TreeArray(ts, false), Array(es))
  {
    hide Valid, Spelling, Commas;
    ValidFixed(TLsb);
    ValidFixed(TRsb);
  }

  /** The tokens that cannot go on with an expression. */
  predicate Stops(w: seq<Token>) {
    !IsSuffix(Kind(w)) && BinOpAt(Kind(w)).None? && Kind(w) != TQuestion
  }

  /** Parsing undoes writing: for every expression that has a text, in front of
      any token that cannot go on with it, exactly its tokens are consumed and
      the expression comes back. */
  lemma {:induction false} ExprRoundTrip(e: Expr, w: seq<Token>)
    requires Printable(e) && Stops(w)
    ensures PExpr(Print(e) + w) == Some((Canon(e), w)) && Erase(Canon(e)) == e
    ensures AllValid(Print(e))
  {
    hide PExpr, WellFormed, Erase, Yield, Canon;
    CanonWrites(e);
    CompleteExpr(Canon(e), w);
  }

  // ----- what is parsed can be written -----

  /** What the scanner delivers: valid tokens and unknown ones. */
  predicate Scanned(t: Token) {
    t.kind == TUnknown || Valid(t)
  }

  predicate AllScanned(w: seq<Token>) {
    forall i | 0 <= i < |w| :: Scanned(w[i])
  }

  lemma {:induction false} ScannedConcat(a: seq<Token>, b: seq<Token>)
    ensures AllScanned(a + b) <==> AllScanned(a) && AllScanned(b)
  {
    hide Scanned;
    if AllScanned(a + b) {
      assert forall i | 0 <= i < |a| :: (a + b)[i] == a[i];
      assert forall i | 0 <= i < |b| :: (a + b)[|a| + i] == b[i];
    }
  }

  lemma {:induction false} ScannedSpelled(w: seq<Token>)
    requires AllScanned(w)
    ensures AllSpelled(w)
  {
    forall i | 0 <= i < |w| ensures Spelled(w[i]) {
      hide Spelling, IsFloat;
      assert Scanned(w[i]);
    }
  }

  /** The parts of a tree have scanned tokens when the tree has. */
  lemma {:induction false} PartsScanned(t: Tree)
    requires AllScanned(Yield(t))
    ensures t.TreeParen? ==> AllScanned(Yield(t.inner))
    ensures t.TreeUnary? ==> AllScanned(Yield(t.arg))
    ensures t.TreeBinary? ==> AllScanned(Yield(t.left)) && AllScanned(Yield(t.right))
    ensures t.TreeTrinary? ==> AllScanned(Yield(t.cond)) && AllScanned(Yield(t.onTrue)) && AllScanned(Yield(t.onFalse))
  {
    hide Scanned, Spelling;
    match t {
      case TreeParen(e) =>
        ScannedConcat([T(TLrb)] + Yield(e), [T(TRrb)]);
        ScannedConcat([T(TLrb)], Yield(e));
      case TreeUnary(op, a) => ScannedConcat([T(UnToken(op))], Yield(a));
      case TreeBinary(op, l, r) =>
        ScannedConcat(Yield(l) + [T(BinToken(op))], Yield(r));
        ScannedConcat(Yield(l), [T(BinToken(op))]);
      case TreeTrinary(c, a, f) =>
        ScannedConcat(Yield(c) + [T(TQuestion)] + Yield(a) + [T(TColon)], Yield(f));
        ScannedConcat(Yield(c) + [T(TQuestion)] + Yield(a), [T(TColon)]);
        ScannedConcat(Yield(c) + [T(TQuestion)], Yield(a));
        ScannedConcat(Yield(c), [T(TQuestion)]);
      case _ =>
    }
  }

  lemma {:induction false} NameScanned(x: string, w: seq<Token>, i: nat)
    requires AllScanned(w) && i < |w| && w[i] == Token(TId, x)
    ensures IsName(x)
  {
    assert Scanned(w[i]);
  }

  lemma {:induction false} SuffixPartsScanned(t: Tree)
    requires AllScanned(Yield(t))
    ensures t.TreeIndex? ==> AllScanned(Yield(t.obj)) && AllScanned(Yield(t.key))
    ensures t.TreeField? ==> AllScanned(Yield(t.obj)) && IsName(t.member)
    ensures t.TreeCall? ==> AllScanned(Yield(t.func)) && AllScanned(Commas(t.args))
    ensures t.TreeArray? ==> AllScanned(Commas(t.elems))
    ensures t.TreeName? ==> IsName(t.name)
  {
    hide Scanned, Spelling, Commas;
    match t {
      case TreeName(x) => NameScanned(x, Yield(t), 0);
      case TreeIndex(o, k) =>
        ScannedConcat(Yield(o) + [T(TLsb)] + Yield(k), [T(TRsb)]);
        ScannedConcat(Yield(o) + [T(TLsb)], Yield(k));
        ScannedConcat(Yield(o), [T(TLsb)]);
      case TreeField(o, x) =>
        ScannedConcat(Yield(o), [T(TDot), Token(TId, x)]);
        NameScanned(x, [T(TDot), Token(TId, x)], 1);
      case TreeCall(f, args) =>
        ScannedConcat(Yield(f) + [T(TLrb)] + Commas(args), [T(TRrb)]);
        ScannedConcat(Yield(f) + [T(TLrb)], Commas(args));
        ScannedConcat(Yield(f), [T(TLrb)]);
      case TreeArray(es, trailing) =>
        var c := if trailing then [T(TComma)] else [];
        ScannedConcat([T(TLsb)] + Commas(es) + c, [T(TRsb)]);
        ScannedConcat([T(TLsb)] + Commas(es), c);
        ScannedConcat([T(TLsb)], Commas(es));
      case _ =>
    }
  }

  lemma {:induction false} ErasePrintable(t: Tree)
    requires WellFormed(t) && AllScanned(Yield(t))
    ensures Printable(Erase(t))
    decreases t, 1
  {
    hide Scanned, Spelling, Yield, AllScanned;
    match t {
      case TreeLit(tok) => LiteralPrintable(tok);
      case TreeParen(e) =>
        PartsScanned(t);
        ErasePrintable(e);
      case TreeUnary(_, a) =>
        PartsScanned(t);
        ErasePrintable(a);
      case TreeBinary(_, _, _) => OperatorPrintable(t);
      case TreeTrinary(_, _, _) => OperatorPrintable(t);
      case _ => SuffixPrintable(t);
    }
  }

  lemma {:induction false} OperatorPrintable(t: Tree)
    requires WellFormed(t) && AllScanned(Yield(t)) && (t.TreeBinary? || t.TreeTrinary?)
    ensures Printable(Erase(t))
    decreases t, 0
  {
    hide Scanned, Spelling, Yield, AllScanned;
    PartsScanned(t);
    if t.TreeBinary? {
      ErasePrintable(t.left);
      ErasePrintable(t.right);
    } else {
      ErasePrintable(t.cond);
      ErasePrintable(t.onTrue);
      ErasePrintable(t.onFalse);
    }
  }

  lemma {:induction false} SuffixPrintable(t: Tree)
    requires WellFormed(t) && AllScanned(Yield(t)) && (Level(t) == 11 || t.TreeArray?) && !t.TreeParen?
    ensures Printable(Erase(t))
    decreases t, 0
  {
    hide Scanned, Spelling, Yield, AllScanned;
    SuffixPartsScanned(t);
    match t {
      case TreeName(_) =>
      case TreeIndex(o, k) =>
        ErasePrintable(o);
        ErasePrintable(k);
      case TreeField(o, _) => ErasePrintable(o);
      case TreeCall(f, args) =>
        ErasePrintable(f);
        EraseAllPrintable(args);
      case TreeArray(es, _) => EraseAllPrintable(es);
    }
  }

  lemma {:induction false} EraseAllPrintable(ts: seq<Tree>)
    requires AllWellFormed(ts) && AllScanned(Commas(ts))
    ensures AllPrintable(EraseAll(ts))
    decreases ts, 0
  {
    hide Scanned, Spelling, Yield, WellFormed;
    if ts != [] {
      if |ts| > 1 {
        ScannedConcat(Yield(ts[0]) + [T(TComma)], Commas(ts[1..]));
        ScannedConcat(Yield(ts[0]), [T(TComma)]);
      } else {
        assert Commas(ts[1..]) == [];
      }
      ErasePrintable(ts[0]);
      EraseAllPrintable(ts[1..]);
      assert EraseAll(ts)[1..] == EraseAll(ts[1..]);
    }
  }

  lemma {:induction false} LiteralPrintable(tok: Token)
    requires IsLiteral(tok.kind) && AllScanned(Yield(TreeLit(tok)))
    ensures Printable(LiteralOf(tok))
  {
    hide IntValue, IsFloat, Named;
    assert Scanned(Yield(TreeLit(tok))[0]);
  }

  // ----- no shorter text -----

  /** The number of a tree's tokens. */
  function Size(t: Tree): nat {
    match t
    case TreeLit(_) => 1
    case TreeName(_) => 1
    case TreeParen(e) => Size(e) + 2
    case TreeUnary(_, a) => 1 + Size(a)
    case TreeBinary(_, l, r) => Size(l) + 1 + Size(r)
    case TreeTrinary(c, a, f) => Size(c) + 1 + Size(a) + 1 + Size(f)
    case TreeIndex(o, k) => Size(o) + Size(k) + 2
    case TreeField(o, _) => Size(o) + 2
    case TreeCall(f, args) => Size(f) + 2 + ListSize(args)
    case TreeArray(es, trailing) => 2 + ListSize(es) + if trailing then 1 else 0
  }

  function ListSize(ts: seq<Tree>): nat {
    if ts == [] then 0 else if |ts| == 1 then Size(ts[0]) else Size(ts[0]) + 1 + ListSize(ts[1..])
  }

  lemma {:induction false} YieldSize(t: Tree)
    ensures |Yield(t)| == Size(t)
    decreases t, 0
  {
    hide Spelling;
    match t {
      case TreeParen(e) => YieldSize(e);
      case TreeUnary(_, a) => YieldSize(a);
      case TreeBinary(_, l, r) =>
        YieldSize(l);
        YieldSize(r);
      case TreeTrinary(c, a, f) =>
        YieldSize(c);
        YieldSize(a);
        YieldSize(f);
      case TreeIndex(o, k) =>
        YieldSize(o);
        YieldSize(k);
      case TreeField(o, _) => YieldSize(o);
      case TreeCall(f, args) =>
        YieldSize(f);
        CommasSize(args);
      case TreeArray(es, _) => CommasSize(es);
      case _ =>
    }
  }

  lemma {:induction false} CommasSize(ts: seq<Tree>)
    ensures |Commas(ts)| == ListSize(ts)
    decreases ts, 1
  {
    hide Spelling, Yield;
    if ts != [] {
      YieldSize(ts[0]);
      CommasSize(ts[1..]);
    }
  }

  lemma {:induction false} CanonSmallest(t: Tree)
    requires WellFormed(t) && Printable(Erase(t))
    ensures Size(Canon(Erase(t))) <= Size(t)
    decreases t, 1
  {
    if t.TreeParen? {
      CanonSmallest(t.inner);
    } else if t.TreeLit? || t.TreeName? {
      hide IntToken;
    } else if t.TreeUnary? || t.TreeBinary? || t.TreeTrinary? {
      OperatorSmallest(t);
    } else {
      SuffixSmallest(t);
    }
  }

  lemma {:induction false} OperatorSmallest(t: Tree)
    requires WellFormed(t) && Printable(Erase(t)) && (t.TreeUnary? || t.TreeBinary? || t.TreeTrinary?)
    ensures Size(Canon(Erase(t))) <= Size(t)
    decreases t, 0
  {
    hide Paren, IntToken, Priority, Spelling, AllWellFormed, AllPrintable, EraseAll, CanonAll;
    if t.TreeUnary? {
      ParenSmallest(t.arg, 10);
    } else if t.TreeBinary? {
      ParenSmallest(t.left, Priority(t.binop));
      ParenSmallest(t.right, Priority(t.binop) + 1);
    } else {
      ParenSmallest(t.cond, 1);
      CanonSmallest(t.onTrue);
      CanonSmallest(t.onFalse);
    }
  }

  lemma {:induction false} SuffixSmallest(t: Tree)
    requires WellFormed(t) && Printable(Erase(t)) && (t.TreeIndex? || t.TreeField? || t.TreeCall? || t.TreeArray?)
    ensures Size(Canon(Erase(t))) <= Size(t)
    decreases t, 0
  {
    hide Paren, IntToken, Priority;
    match t {
      case TreeIndex(o, k) =>
        ParenSmallest(o, 11);
        CanonSmallest(k);
      case TreeField(o, _) => ParenSmallest(o, 11);
      case TreeCall(f, args) =>
        ParenSmallest(f, 11);
        ListSmallest(args);
      case TreeArray(es, _) => ListSmallest(es);
    }
  }

  /** Only parentheses hide the level of what is written. */
  lemma {:induction false} CanonLevel(t: Tree)
    requires Printable(Erase(t)) && !t.TreeParen?
    ensures Level(Canon(Erase(t))) == Level(t)
  {
    hide Printable;
  }

  /** In a place for level `level`. */
  lemma {:induction false} ParenSmallest(t: Tree, level: nat)
    requires WellFormed(t) && Printable(Erase(t)) && Level(t) >= level
    ensures Size(Paren(Canon(Erase(t)), level)) <= Size(t)
    decreases t, 2
  {
    CanonSmallest(t);
    if t.TreeParen? {
      CanonSmallest(t.inner);
    } else {
      CanonLevel(t);
    }
  }

  lemma {:induction false} ListSmallest(ts: seq<Tree>)
    requires AllWellFormed(ts) && AllPrintable(EraseAll(ts))
    ensures ListSize(CanonAll(EraseAll(ts))) <= ListSize(ts)
    decreases ts, 1
  {
    if ts != [] {
      var es := EraseAll(ts);
      assert es[1..] == EraseAll(ts[1..]);
      CanonSmallest(ts[0]);
      ListSmallest(ts[1..]);
      assert CanonAll(es)[1..] == CanonAll(es[1..]);
    }
  }

  /** No text of an expression has fewer tokens than the one it is written with. */
  lemma {:induction false} PrintMinimal(t: Tree)
    requires WellFormed(t) && Printable(Erase(t))
    ensures |Print(Erase(t))| <= |Yield(t)|
  {
    hide Yield, Size;
    CanonSmallest(t);
    YieldSize(t);
    YieldSize(Canon(Erase(t)));
  }
}
