/** Accepted programs whose code does not do what the program means. */
module Counterexamples {
  import opened Ast
  import opened Scalar
  import opened Ir
  import opened Lowering
  import opened Semantics
  import opened Structure
  import opened Preservation
  import opened Meaning

  /** `return x;` */
  function ReturnOf(x: Expr): seq<Stmt> {
    [Return(Some(x))]
  }

  lemma {:induction false} ReturnRun(x: Expr, strict: bool, fuel: nat)
    ensures Run(ReturnOf(x), strict, fuel) ==
            match Eval(x, [map[], map[]], strict)
            case None => Faulted
            case Some(v) => Done(v)
  {
    var ss := ReturnOf(x);
    assert ss[1..] == [];
    assert ExecSeq(ss, [map[], map[]], strict, fuel) == Exec(ss[0], [map[], map[]], strict, fuel);
  }

  /** A single return is accepted when its expression is, with type i32. */
  lemma {:induction false} ReturnAccepted(x: Expr)
    requires EncodeVal(x, Initial).Some? && OpTy(EncodeVal(x, Initial).value.1) == I32
    ensures EncodeModule(ReturnOf(x)).Some?
  {
    var s := Return(Some(x));
    var (e1, o) := EncodeVal(x, Initial).value;
    assert EncodeStmt(s, Initial) == Some(Emit(e1, Ret(o)));
    assert [s][1..] == [];
    assert EncodeSeq([s], Initial) == EncodeSeq([], Emit(e1, Ret(o)));
  }

  /** Whenever the value of the returned expression goes through a merge that
      does not know its branch, the program returns and its code is stuck. */
  lemma {:induction false} UnknownMergeFaults(x: Expr, v: Val)
    requires EncodeModule(ReturnOf(x)).Some?
    requires Eval(x, [map[], map[]], false) == Some(v) && Eval(x, [map[], map[]], true) == None
    ensures Returns(ReturnOf(x), false, v) && CodeFaults(EncodeModule(ReturnOf(x)).value.code)
    ensures !exists w :: CodeReturns(EncodeModule(ReturnOf(x)).value.code, w)
  {
    hide EncodeModule, Eval;
    ReturnRun(x, false, 0);
    ReturnRun(x, true, 0);
    assert Run(ReturnOf(x), false, 0) == Done(v);
    assert Run(ReturnOf(x), true, 0) == Faulted;
    assert ScopedSeq(ReturnOf(x));
    StrictPreservation(ReturnOf(x), v);
    var code := EncodeModule(ReturnOf(x)).value.code;
    forall w ensures !CodeReturns(code, w) {
      StrictPreservation(ReturnOf(x), w);
      forall fuel: nat ensures Run(ReturnOf(x), true, fuel) != Done(w) {
        ReturnRun(x, true, fuel);
      }
    }
  }

  lemma {:induction false} BoolEncodes(c: bool, e: State)
    requires Ok(e)
    ensures EncodeVal(BoolLit(c), e) == Some((e, Const(BoolVal(c))))
  {
  }

  lemma {:induction false} IntEncodes(a: int, e: State)
    requires Ok(e) && 0 <= a < 100
    ensures EncodeVal(IntLit(a), e) == Some((e, Const(Val(I32, a))))
  {
  }

  /** An expression of constants is folded: it emits nothing. */
  lemma {:induction false} ConstantFolds(x: Expr, e: State)
    requires Ok(e) && ConstantOf(x).Some?
    ensures EncodeExpr(x, e) == Some((e, Const(ConstantOf(x).value)))
    ensures EncodeVal(x, e) == EncodeExpr(x, e)
  {
    hide EvalUn, EvalBin, UnTy, BinTy;
    match x {
      case Unary(op, a) =>
        ConstantFolds(a, e);
        UnHasType(op, ConstantOf(a).value);
      case Binary(op, l, r) =>
        ConstantFolds(l, e);
        ConstantFolds(r, e);
        BinHasType(op, ConstantOf(l).value, ConstantOf(r).value);
      case _ =>
    }
  }

  lemma {:induction false} UnHasType(op: UnOp, a: Val)
    requires EvalUn(op, a).Some?
    ensures UnTy(op, a.ty).Some? && (op == Pos ==> EvalUn(op, a) == Some(a))
  {
  }

  lemma {:induction false} BinHasType(op: BinOp, a: Val, b: Val)
    requires EvalBin(op, a, b).Some?
    ensures BinTy(op, a.ty, b.ty).Some?
  {
    hide Wrap, Bitwise, Unsigned, TruncDiv, Pow2;
  }

  /** The value of an expression of constants, whatever names are bound. */
  lemma {:induction false} ConstantValue(x: Expr, env: Env, strict: bool)
    requires ConstantOf(x).Some?
    ensures Eval(x, env, strict) == ConstantOf(x) && !HasTrinary(x)
  {
    hide EvalUn, EvalBin;
    match x {
      case Unary(_, a) => ConstantValue(a, env, strict);
      case Binary(_, l, r) =>
        ConstantValue(l, env, strict);
        ConstantValue(r, env, strict);
      case _ =>
    }
  }

  lemma {:induction false} ConstantsAccepted(x: Expr, e: State)
    requires Ok(e) && x.Trinary? && IsConstant(x.cond, I1) && IsConstant(x.onTrue, I32) && IsConstant(x.onFalse, I32)
    ensures var r := EncodeVal(x, e); r.Some? && OpTy(r.value.1) == I32
  {
    hide PhiIncomings, ConstantOf;
    var k := |e.code|;
    var s1 := Activate(Emit(NewBlocks(e, 4), Jump(k)), k);
    NewBlocksEmpty(e, 4);
    ConstantFolds(x.cond, s1);
    var s2 := Activate(Emit(s1, JumpCond(Const(ConstantOf(x.cond).value), k + 1, k + 2)), k + 1);
    ConstantFolds(x.onTrue, s2);
    var s3 := Activate(Emit(s2, Jump(k + 3)), k + 2);
    ConstantFolds(x.onFalse, s3);
    hide EncodeVal;
    assert EncodeExpr(x, e).Some?;
  }

  predicate IsConstant(x: Expr, ty: Ty) {
    ConstantOf(x).Some? && ConstantOf(x).value.ty == ty
  }

  /** A ternary whose branches fold to the same constant is accepted, and its
      code is stuck on the second branch. */
  lemma {:induction false} EqualConstantsFault(x: Expr, v: Val)
    requires x.Trinary? && IsConstant(x.cond, I1) && v.ty == I32
    requires ConstantOf(x.cond).value.n == 0 && ConstantOf(x.onTrue) == ConstantOf(x.onFalse) == Some(v)
    ensures EncodeModule(ReturnOf(x)).Some? && Returns(ReturnOf(x), false, v)
    ensures CodeFaults(EncodeModule(ReturnOf(x)).value.code)
  {
    hide ConstantOf, HasTrinary;
    ConstantsAccepted(x, Initial);
    ReturnAccepted(x);
    ConstantValue(x.cond, [map[], map[]], false);
    ConstantValue(x.cond, [map[], map[]], true);
    ConstantValue(x.onFalse, [map[], map[]], false);
    UnknownMergeFaults(x, v);
  }

  /** `false ? 1 : 1` */
  const EqualBranches := Trinary(BoolLit(false), IntLit(1), IntLit(1))

  /** `false ? 1 + 1 : 2` */
  const EqualSums := Trinary(BoolLit(false), Binary(Add, IntLit(1), IntLit(1)), IntLit(2))

  /** `true ? (true ? 1 : 2) : 3` */
  const NestedTernary := Trinary(BoolLit(true), Trinary(BoolLit(true), IntLit(1), IntLit(2)), IntLit(3))

  lemma {:induction false} EqualBranchesFault()
    ensures EncodeModule(ReturnOf(EqualBranches)).Some?
    ensures Returns(ReturnOf(EqualBranches), false, Val(I32, 1))
    ensures CodeFaults(EncodeModule(ReturnOf(EqualBranches)).value.code)
  {
    hide EncodeModule;
    EqualConstantsFault(EqualBranches, Val(I32, 1));
  }

  lemma {:induction false} EqualSumsFault()
    ensures EncodeModule(ReturnOf(EqualSums)).Some?
    ensures Returns(ReturnOf(EqualSums), false, Val(I32, 2))
    ensures CodeFaults(EncodeModule(ReturnOf(EqualSums)).value.code)
  {
    hide EncodeModule;
    assert ConstantOf(EqualSums.onTrue) == Some(Val(I32, 2));
    EqualConstantsFault(EqualSums, Val(I32, 2));
  }

  lemma {:induction false} NestedTernaryAccepted()
    ensures EncodeModule(ReturnOf(NestedTernary)).Some?
  {
    var b := |Initial.code|;
    var s1 := Activate(Emit(NewBlocks(Initial, 4), Jump(b)), b);
    NewBlocksEmpty(Initial, 4);
    BoolEncodes(true, s1);
    var s2 := Activate(Emit(s1, JumpCond(Const(BoolVal(true)), b + 1, b + 2)), b + 1);
    ConstantsAccepted(NestedTernary.onTrue, s2);
    var (e2, o) := EncodeVal(NestedTernary.onTrue, s2).value;
    var s3 := Activate(Emit(e2, Jump(b + 3)), b + 2);
    IntEncodes(3, s3);
    hide EncodeVal;
    assert EncodeExpr(NestedTernary, Initial).Some?;
    assert OpTy(EncodeExpr(NestedTernary, Initial).value.1) == I32;
    LoadedType(NestedTernary, Initial);
    ReturnAccepted(NestedTernary);
  }

  lemma {:induction false} LoadedType(x: Expr, e: State)
    requires Ok(e) && EncodeExpr(x, e).Some?
    ensures EncodeVal(x, e).Some? && OpTy(EncodeVal(x, e).value.1) == OpTy(EncodeExpr(x, e).value.1)
  {
  }

  lemma {:induction false} NestedTernaryFaults()
    ensures EncodeModule(ReturnOf(NestedTernary)).Some?
    ensures Returns(ReturnOf(NestedTernary), false, Val(I32, 1))
    ensures CodeFaults(EncodeModule(ReturnOf(NestedTernary)).value.code)
  {
    NestedTernaryAccepted();
    NestedTernaryValue();
    hide EncodeModule, Eval;
    UnknownMergeFaults(NestedTernary, Val(I32, 1));
  }

  lemma {:induction false} NestedTernaryValue()
    ensures Eval(NestedTernary, [map[], map[]], false) == Some(Val(I32, 1))
    ensures Eval(NestedTernary, [map[], map[]], true) == None
  {
    assert Eval(NestedTernary.onTrue, [map[], map[]], false) == Some(Val(I32, 1));
  }

  // ----- a definition as a branch -----

  const One := Const(Val(I32, 1))
  const Two := Const(Val(I32, 2))

  /** `var x = 1; { if (false) var x = 2; return x; }` */
  const Inner := SymbolDef(true, "x", None, IntLit(2))
  const Branch := If(BoolLit(false), Some(Inner), None)
  const LeakBlock := Block([Branch, Return(Some(Sym("x")))])
  const Leak: seq<Stmt> := [SymbolDef(true, "x", None, IntLit(1)), LeakBlock]

  const LeakCode: Code := [
    [Alloc(0), Store(0, One), JumpCond(Const(BoolVal(false)), 1, 2)],
    [Alloc(1), Store(1, Two), Jump(3)],
    [Jump(3)],
    [Load(0, 1), Ret(Reg(0, I32))]]

  const LeakOuter := State([[Alloc(0), Store(0, One)]], 0, 0, 1,
                           [map[], map["x" := Slot(0, I32)]], None, None)

  const LeakInner := State(
    [LeakCode[0], LeakCode[1], LeakCode[2], []], 3, 0, 2,
    [map[], map["x" := Slot(0, I32)], map["x" := Slot(1, I32)]], None, None)

  lemma {:induction false} Appends()
    ensures [] + [Alloc(0)] == [Alloc(0)] && [Alloc(0)] + [Store(0, One)] == [Alloc(0), Store(0, One)]
    ensures [Alloc(0), Store(0, One)] + [JumpCond(Const(BoolVal(false)), 1, 2)] == LeakCode[0]
    ensures [] + [Alloc(1)] == [Alloc(1)] && [Alloc(1)] + [Store(1, Two)] == [Alloc(1), Store(1, Two)]
    ensures [Alloc(1), Store(1, Two)] + [Jump(3)] == LeakCode[1] && [] + [Jump(3)] == LeakCode[2]
    ensures [] + [Load(0, 1)] == [Load(0, 1)] && [Load(0, 1)] + [Ret(Reg(0, I32))] == LeakCode[3]
  {
  }

  lemma {:induction false} LeakBranch()
    ensures EncodeStmt(Branch, PushScope(LeakOuter)) == Some(LeakInner)
  {
    var e := PushScope(LeakOuter);
    var s0 := NewBlocks(e, 3);
    assert s0.code == [LeakOuter.code[0], [], [], []] by {
      NewBlocksEmpty(e, 3);
    }
    NewBlocksEmpty(e, 3);
    Appends();
    BoolEncodes(false, s0);
    var s1 := Activate(Emit(s0, JumpCond(Const(BoolVal(false)), 1, 2)), 1);
    assert s1.code == [LeakCode[0], [], [], []];
    IntEncodes(2, s1);
    var s2 := EncodeStmt(Inner, s1).value;
    assert s2.code == [LeakCode[0], [Alloc(1), Store(1, Two)], [], []];
    var s3 := FallThrough(s2, 1, 3);
    assert s3.code == [LeakCode[0], LeakCode[1], [], []];
    var s4 := FallThrough(Activate(s3, 2), 2, 3);
    assert s4.code == LeakInner.code;
    assert s2.scopes == LeakInner.scopes;
    assert EncodeStmt(Branch, e) == Some(Activate(s4, 3));
  }

  lemma {:induction false} LeakEncodes()
    ensures EncodeModule(Leak).Some? && EncodeModule(Leak).value.code == LeakCode
  {
    Appends();
    IntEncodes(1, Initial);
    var e1 := Emit(Emit(Initial, Alloc(0)), Store(0, One));
    assert e1.code == LeakOuter.code;
    assert Declare(e1.(nslot := 1), "x", Slot(0, I32)).scopes == LeakOuter.scopes;
    assert EncodeStmt(Leak[0], Initial) == Some(LeakOuter);
    LeakBranch();
    LeakReturn();
    hide EncodeStmt;
    var ret := LeakBlock.stmts[1];
    var e2 := EncodeStmt(ret, LeakInner).value;
    var ss := LeakBlock.stmts;
    assert ss[1..] == [ret] && [ret][1..] == [];
    assert EncodeSeq([ret], LeakInner) == Some(e2);
    assert EncodeSeq(ss, PushScope(LeakOuter)) == Some(e2);
    LeakTail(e2);
  }

  lemma {:induction false} LeakReturn()
    ensures var r := EncodeStmt(LeakBlock.stmts[1], LeakInner);
            r.Some? && r.value.code == LeakCode && r.value.active == 3
  {
    Appends();
    assert Lookup(LeakInner.scopes, "x") == Some(Slot(1, I32));
    var e1 := Emit(LeakInner, Load(0, 1)).(nreg := 1);
    assert EncodeVal(Sym("x"), LeakInner) == Some((e1, Reg(0, I32)));
    assert Emit(e1, Ret(Reg(0, I32))).code == LeakCode;
  }

  lemma {:induction false} LeakTail(e1: State)
    requires EncodeSeq(LeakBlock.stmts, PushScope(LeakOuter)) == Some(e1) && Ok(e1) && e1.active == 3
    requires e1.code == LeakCode && EncodeStmt(Leak[0], Initial) == Some(LeakOuter)
    ensures EncodeModule(Leak).Some? && EncodeModule(Leak).value.code == LeakCode
  {
    LeakBlockEncodes(e1);
    hide EncodeStmt, EncodeSeq;
    SeqOf(LeakBlock, [], LeakOuter);
    SeqOf(Leak[0], [LeakBlock], Initial);
    assert EncodeSeq(Leak, Initial) == Some(PopScope(e1)) by { EmptySeq(PopScope(e1)); }
  }

  lemma {:induction false} LeakBlockEncodes(e1: State)
    requires EncodeSeq(LeakBlock.stmts, PushScope(LeakOuter)) == Some(e1) && Ok(e1)
    ensures EncodeStmt(LeakBlock, LeakOuter) == Some(PopScope(e1))
  {
    hide EncodeSeq;
  }

  lemma {:induction false} EmptySeq(e: State)
    requires Ok(e)
    ensures EncodeSeq([], e) == Some(e)
  {
  }

  lemma {:induction false} SeqOf(s: Stmt, ss: seq<Stmt>, e: State)
    requires Ok(e)
    ensures EncodeSeq([s] + ss, e) ==
            match EncodeStmt(s, e)
            case None => None
            case Some(e1) => EncodeSeq(ss, e1)
    ensures [s] + [] == [s]
  {
    hide EncodeStmt;
    assert ([s] + ss)[1..] == ss;
  }

  /** The branch is not taken, so x is 1; the code reads the branch's slot. */
  lemma {:induction false} LeakFaults()
    ensures EncodeModule(Leak).Some? && !ScopedSeq(Leak)
    ensures Returns(Leak, false, Val(I32, 1)) && CodeFaults(EncodeModule(Leak).value.code)
  {
    LeakEncodes();
    LeakRuns();
    var env: Env := [map[], map["x" := Val(I32, 1)]];
    assert Exec(Leak[0], [map[], map[]], false, 0) == Normal(env);
    var ss := LeakBlock.stmts;
    assert Exec(ss[0], env + [map[]], false, 0) == Normal(env + [map[]]);
    assert Find(env + [map[]], "x") == Some(Val(I32, 1)) by {
      assert (env + [map[]])[..2] == env;
    }
    assert ss[1..][0] == ss[1];
    assert ExecSeq(ss[1..], env + [map[]], false, 0) == Done(Val(I32, 1));
    assert ExecSeq(ss, env + [map[]], false, 0) == Done(Val(I32, 1));
    assert Leak[1..][0] == LeakBlock;
    assert ExecSeq(Leak[1..], env, false, 0) == Done(Val(I32, 1));
    assert Run(Leak, false, 0) == Done(Val(I32, 1));
    assert !Scoped(LeakBlock) by {
      assert !Scoped(ss[0]);
    }
    assert !ScopedSeq(Leak[1..]);
  }

  lemma {:induction false} LeakRuns()
    ensures Steps(LeakCode, Start, 5) == Stuck
  {
    var m1 := Step(LeakCode, Start);
    var m2 := Step(LeakCode, m1);
    var m3 := Step(LeakCode, m2);
    assert m3.Running? && m3.blk == 2 && m3.pc == 0;
    var m4 := Step(LeakCode, m3);
    assert m4.Running? && m4.blk == 3 && m4.pc == 0 && 1 !in m4.mem;
    assert Step(LeakCode, m4) == Stuck;
    assert Steps(LeakCode, m4, 1) == Stuck;
    assert Steps(LeakCode, m3, 2) == Stuck;
    assert Steps(LeakCode, m2, 3) == Stuck;
    assert Steps(LeakCode, m1, 4) == Stuck;
  }
}
