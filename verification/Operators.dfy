/** The operators against what the language manual says of them: `&&` and `||`
    that stop early, and a complement that flips every bit. */
module Operators {
  import opened Ast
  import opened Scalar
  import opened Lowering
  import opened Semantics

  /** The expression as the manual reads it: `a && b` is `a ? b : false`, and
      `a || b` is `a ? true : b`. */
  function Lazily(e: Expr): Expr {
    match e
    case Unary(op, a) => Unary(op, Lazily(a))
    case Binary(And, l, r) => Trinary(Lazily(l), Lazily(r), BoolLit(false))
    case Binary(Or, l, r) => Trinary(Lazily(l), BoolLit(true), Lazily(r))
    case Binary(op, l, r) => Binary(op, Lazily(l), Lazily(r))
    case Trinary(c, t, f) => Trinary(Lazily(c), Lazily(t), Lazily(f))
    case _ => e
  }

  /** Whether the operator's first operand decides its value. */
  predicate Decides(op: BinOp, a: Val) {
    (op == And && a == BoolVal(false)) || (op == Or && a == BoolVal(true))
  }

  predicate IsBool(r: Option<Val>) {
    r.Some? && r.value.ty == I1
  }

  /** On the way of the lazy evaluation, every second operand whose first one
      decides has a value, too. */
  predicate Harmless(e: Expr, env: Env) {
    match e
    case Unary(_, a) => Harmless(a, env)
    case Binary(op, l, r) =>
      Harmless(l, env)
      && (match Eval(Lazily(l), env, false)
          case None => true
          case Some(a) =>
            if Decides(op, a) then IsBool(Eval(r, env, false))
            else Harmless(r, env) && (op == And || op == Or ==> IsBool(Eval(Lazily(r), env, false))))
    case Trinary(c, t, f) =>
      Harmless(c, env)
      && (match Eval(Lazily(c), env, false)
          case None => true
          case Some(v) => Harmless(if v.n != 0 then t else f, env))
    case _ => true
  }

  predicate Proper(v: Val) {
    InRange(v.ty, v.n)
  }

  predicate ProperEnv(env: Env) {
    forall i, x | 0 <= i < |env| && x in env[i] :: Proper(env[i][x])
  }

  lemma {:induction false} FindProper(env: Env, x: string)
    requires ProperEnv(env) && Find(env, x).Some?
    ensures Proper(Find(env, x).value)
  {
    if x !in env[|env| - 1] {
      assert forall i | 0 <= i < |env| - 1 :: env[..|env| - 1][i] == env[i];
      FindProper(env[..|env| - 1], x);
    }
  }

  lemma {:induction false} UnProper(op: UnOp, a: Val)
    requires Proper(a) && EvalUn(op, a).Some?
    ensures Proper(EvalUn(op, a).value)
  {
    hide Wrap, Bitwise;
  }

  lemma {:induction false} BinProper(op: BinOp, a: Val, b: Val)
    requires Proper(a) && Proper(b) && EvalBin(op, a, b).Some?
    ensures Proper(EvalBin(op, a, b).value)
  {
    hide Wrap, Bitwise, Unsigned, TruncDiv, Pow2;
  }

  /** On bools the bit operations are the logical ones. */
  lemma {:induction false} LogicalBits(a: Val, b: Val)
    requires Proper(a) && Proper(b) && a.ty == I1 && b.ty == I1
    ensures EvalBin(And, a, b) == Some(if a == BoolVal(false) then a else b)
    ensures EvalBin(Or, a, b) == Some(if a == BoolVal(true) then a else b)
  {
    BitAt(AndFn, Unsigned(I1, a.n), Unsigned(I1, b.n));
    BitAt(OrFn, Unsigned(I1, a.n), Unsigned(I1, b.n));
  }

  lemma {:induction false} BitAt(f: BitFn, a: nat, b: nat)
    requires a < 2 && b < 2
    ensures Bitwise(f, a, b, 1) ==
            var x, y := a == 1, b == 1;
            if (match f case AndFn => x && y case OrFn => x || y case XorFn => x != y) then 1 else 0
  {
    assert Bitwise(f, a / 2, b / 2, 0) == 0;
  }

  /** `&&` and `||` evaluate both operands. Wherever that yields a value it is
      the value that stopping early yields. */
  lemma {:induction false} EagerIsLazy(e: Expr, env: Env)
    requires ProperEnv(env) && Eval(e, env, false).Some?
    ensures Eval(Lazily(e), env, false) == Eval(e, env, false) && Proper(Eval(e, env, false).value)
  {
    hide Wrap, EvalBin, EvalUn;
    match e {
      case Sym(x) => FindProper(env, x);
      case Unary(op, a) =>
        EagerIsLazy(a, env);
        UnProper(op, Eval(a, env, false).value);
      case Binary(op, l, r) =>
        EagerIsLazy(l, env);
        EagerIsLazy(r, env);
        var a, b := Eval(l, env, false).value, Eval(r, env, false).value;
        BinProper(op, a, b);
        if op == And || op == Or {
          LogicalTypes(op, a, b);
          LogicalBits(a, b);
        }
      case Trinary(c, t, f) =>
        EagerIsLazy(c, env);
        EagerIsLazy(if Eval(c, env, false).value.n != 0 then t else f, env);
      case _ =>
    }
  }

  lemma {:induction false} LogicalTypes(op: BinOp, a: Val, b: Val)
    requires (op == And || op == Or) && EvalBin(op, a, b).Some?
    ensures a.ty == I1 && b.ty == I1
  {
  }

  lemma {:induction false} EagerHarmless(e: Expr, env: Env)
    requires ProperEnv(env) && Eval(e, env, false).Some?
    ensures Harmless(e, env)
  {
    hide Wrap, EvalBin, EvalUn;
    match e {
      case Unary(_, a) => EagerHarmless(a, env);
      case Binary(op, l, r) =>
        EagerHarmless(l, env);
        EagerHarmless(r, env);
        EagerIsLazy(l, env);
        EagerIsLazy(r, env);
        if op == And || op == Or {
          LogicalTypes(op, Eval(l, env, false).value, Eval(r, env, false).value);
        }
      case Trinary(c, t, f) =>
        EagerHarmless(c, env);
        EagerIsLazy(c, env);
        EagerHarmless(if Eval(c, env, false).value.n != 0 then t else f, env);
      case _ =>
    }
  }

  lemma {:induction false} HarmlessEager(e: Expr, env: Env)
    requires ProperEnv(env) && Harmless(e, env) && Eval(Lazily(e), env, false).Some?
    ensures Eval(e, env, false) == Eval(Lazily(e), env, false)
    decreases e, 1
  {
    hide Wrap, EvalBin, EvalUn;
    match e {
      case Unary(_, a) => HarmlessEager(a, env);
      case Binary(op, l, r) =>
        HarmlessEager(l, env);
        if op == And || op == Or {
          HarmlessLogical(e, env);
        } else {
          HarmlessEager(r, env);
        }
      case Trinary(c, t, f) =>
        HarmlessEager(c, env);
        HarmlessEager(if Eval(c, env, false).value.n != 0 then t else f, env);
      case _ =>
    }
  }

  lemma {:induction false} HarmlessLogical(e: Expr, env: Env)
    requires ProperEnv(env) && Harmless(e, env) && Eval(Lazily(e), env, false).Some?
    requires e.Binary? && (e.binop == And || e.binop == Or)
    requires Eval(e.left, env, false) == Eval(Lazily(e.left), env, false)
    ensures Eval(e, env, false) == Eval(Lazily(e), env, false)
    decreases e, 0
  {
    hide Wrap, EvalBin, EvalUn;
    EagerIsLazy(e.left, env);
    var a := Eval(e.left, env, false).value;
    assert a.ty == I1;
    if !Decides(e.binop, a) {
      HarmlessEager(e.right, env);
    }
    EagerIsLazy(e.right, env);
    LogicalBits(a, Eval(e.right, env, false).value);
  }

  /** Evaluating both operands gives what stopping early gives exactly when
      that gives no value either, or no second operand whose first one decides
      would fault. */
  lemma {:induction false} EagerExact(e: Expr, env: Env)
    requires ProperEnv(env)
    ensures Eval(e, env, false) == Eval(Lazily(e), env, false)
            <==> Eval(Lazily(e), env, false).None? || Harmless(e, env)
  {
    hide Harmless;
    if Eval(e, env, false).Some? {
      EagerIsLazy(e, env);
      EagerHarmless(e, env);
    } else if Eval(Lazily(e), env, false).Some? && Harmless(e, env) {
      HarmlessEager(e, env);
    }
  }

  // ----- the complement -----

  /** Flipping all `w` bits. */
  lemma {:induction false} FlipAll(a: nat, w: nat)
    requires a < Pow2(w)
    ensures Bitwise(XorFn, a, Pow2(w) - 1, w) == Pow2(w) - 1 - a
  {
    if w != 0 {
      FlipAll(a / 2, w - 1);
      assert (Pow2(w) - 1) / 2 == Pow2(w - 1) - 1;
    }
  }

  /** A mask that ends below the top bit leaves the top bit as it is. */
  lemma {:induction false} FlipKeepsTop(a: nat, m: nat, w: nat)
    requires a < Pow2(w + 1) && m < Pow2(w)
    ensures Bitwise(XorFn, a, m, w + 1) >= Pow2(w) <==> a >= Pow2(w)
  {
    if w != 0 {
      FlipKeepsTop(a / 2, m / 2, w - 1);
    }
  }

  /** `~` flips every bit of an operand exactly when it is at most 32 bits wide:
      the mask is 32 ones at every width. */
  lemma {:induction false} FlipExact(v: Val)
    requires Proper(v)
    ensures EvalUn(Flip, v) == Some(Val(v.ty, -1 - v.n)) <==> v.ty != I64
  {
    hide EvalUn;
    match v.ty {
      case I1 => FlipBool(v.n);
      case I32 => FlipNarrow(v.n);
      case I64 => FlipWide(v.n);
    }
  }

  lemma {:induction false} FlipBool(n: int)
    requires InRange(I1, n)
    ensures EvalUn(Flip, Val(I1, n)) == Some(Val(I1, -1 - n))
  {
    hide Bitwise;
    Powers();
    FlipAll(Unsigned(I1, n), 1);
  }

  lemma {:induction false} FlipNarrow(n: int)
    requires InRange(I32, n)
    ensures EvalUn(Flip, Val(I32, n)) == Some(Val(I32, -1 - n))
  {
    hide Bitwise;
    Powers();
    FlipAll(Unsigned(I32, n), 32);
  }

  lemma {:induction false} FlipWide(n: int)
    requires InRange(I64, n)
    ensures EvalUn(Flip, Val(I64, n)) != Some(Val(I64, -1 - n))
  {
    hide Bitwise;
    Powers();
    FlipKeepsTop(Unsigned(I64, n), 0xFFFF_FFFF, 63);
  }

  lemma {:induction false} Powers()
    ensures Pow2(1) == 2 && Pow2(32) == 0x1_0000_0000
    ensures Pow2(63) == 0x8000_0000_0000_0000 && Pow2(64) == 0x1_0000_0000_0000_0000
  {
    assert Pow2(16) == 0x1_0000 by { assert Pow2(8) == 0x100; }
    assert Pow2(24) == 0x100_0000;
    assert Pow2(40) == 0x100_0000_0000 by { assert Pow2(32) == 0x1_0000_0000; }
    assert Pow2(56) == 0x100_0000_0000_0000 by { assert Pow2(48) == 0x1_0000_0000_0000; }
  }
}
