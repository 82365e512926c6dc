/** Programs with `&&` and `||` as the manual reads them, and as the code
    evaluates them. */
module ShortCircuit {
  import opened Ast
  import opened Scalar
  import opened Ir
  import opened Lowering
  import opened Semantics
  import opened Structure
  import opened Preservation
  import opened Meaning
  import opened Operators
  import opened TypeSafety
  import opened Counterexamples

  /** The second operands of `&&` and `||` have values for all operands of
      theirs: they hold no division, remainder or shift. */
  predicate SecondsTotal(e: Expr) {
    match e
    case Unary(_, a) => SecondsTotal(a)
    case Binary(op, l, r) => SecondsTotal(l) && SecondsTotal(r) && (op == And || op == Or ==> Total(r))
    case Trinary(c, t, f) => SecondsTotal(c) && SecondsTotal(t) && SecondsTotal(f)
    case _ => true
  }

  predicate SecondsTotalStmt(s: Stmt)
    decreases s, 0
  {
    match s
    case SymbolDef(_, _, _, v) => SecondsTotal(v)
    case Assign(_, r) => SecondsTotal(r)
    case Return(Some(v)) => SecondsTotal(v)
    case If(c, t, f) => SecondsTotal(c) && SecondsTotalOpt(t) && SecondsTotalOpt(f)
    case Loop(init, c, step, body) =>
      SecondsTotalOpt(init) && (c.Some? ==> SecondsTotal(c.value)) && SecondsTotalOpt(step) && SecondsTotalOpt(body)
    case Block(ss) => SecondsTotalSeq(ss)
    case _ => true
  }

  predicate SecondsTotalOpt(o: Option<Stmt>)
    decreases o, 1
  {
    o.Some? ==> SecondsTotalStmt(o.value)
  }

  predicate SecondsTotalSeq(ss: seq<Stmt>)
    decreases ss, 1
  {
    ss != [] ==> SecondsTotalStmt(ss[0]) && SecondsTotalSeq(ss[1..])
  }

  /** The statement with every expression read as in the manual. */
  function LazilyStmt(s: Stmt): Stmt
    decreases s, 0
  {
    match s
    case SymbolDef(variable, x, ty, v) => SymbolDef(variable, x, ty, Lazily(v))
    case Assign(l, r) => Assign(l, Lazily(r))
    case Return(Some(v)) => Return(Some(Lazily(v)))
    case If(c, t, f) => If(Lazily(c), LazilyOpt(t), LazilyOpt(f))
    case Loop(init, c, step, body) =>
      Loop(LazilyOpt(init), LazilyGuard(c), LazilyOpt(step), LazilyOpt(body))
    case Block(ss) => Block(LazilySeq(ss))
    case _ => s
  }

  function LazilyGuard(o: Option<Expr>): Option<Expr> {
    match o
    case None => None
    case Some(c) => Some(Lazily(c))
  }

  function LazilyOpt(o: Option<Stmt>): Option<Stmt>
    decreases o, 1
  {
    match o
    case None => None
    case Some(s) => Some(LazilyStmt(s))
  }

  function LazilySeq(ss: seq<Stmt>): seq<Stmt>
    decreases ss, 1
  {
    if ss == [] then [] else [LazilyStmt(ss[0])] + LazilySeq(ss[1..])
  }

  // ----- expressions -----

  lemma {:induction false} TypedProper(env: Env, scopes: seq<Scope>)
    requires Typed(env, scopes)
    ensures ProperEnv(env)
  {
  }

  /** In an accepted expression a total second operand is a bool and never
      faults. */
  lemma {:induction false} TotalHarmless(x: Expr, e: State, env: Env)
    requires ExprEncodes(x, e) && Typed(env, e.scopes) && SecondsTotal(x)
    ensures Harmless(x, env)
    decreases x, 1
  {
    hide SlotsOk, Typed, Eval;
    match x {
      case Unary(_, a) => ValHarmless(a, e, env);
      case Binary(_, _, _) => BinaryHarmless(x, e, env);
      case Trinary(_, _, _) => TrinaryHarmless(x, e, env);
      case _ =>
    }
  }

  lemma {:induction false} ValHarmless(x: Expr, e: State, env: Env)
    requires Ok(e) && SlotsOk(e.scopes, e.nslot) && EncodeVal(x, e).Some? && Typed(env, e.scopes) && SecondsTotal(x)
    ensures Harmless(x, env)
    decreases x, 2
  {
    hide SlotsOk, Typed, Harmless, SecondsTotal;
    TotalHarmless(x, e, env);
  }

  lemma {:induction false} TrinaryHarmless(x: Expr, e: State, env: Env)
    requires x.Trinary? && ExprEncodes(x, e) && Typed(env, e.scopes) && SecondsTotal(x)
    ensures Harmless(x, env)
    decreases x, 0
  {
    hide SlotsOk, Typed, Eval, EncodeExpr, EncodeVal, TriOf, Frame;
    FrameTrinary(x, e);
    var t := TriOf(x, e);
    ValHarmless(x.cond, t.s1, env);
    ValHarmless(x.onTrue, t.s2, env);
    ValHarmless(x.onFalse, t.s3, env);
  }

  lemma {:induction false} BinaryHarmless(x: Expr, e: State, env: Env)
    requires x.Binary? && ExprEncodes(x, e) && Typed(env, e.scopes) && SecondsTotal(x)
    ensures Harmless(x, env)
    decreases x, 0
  {
    hide SlotsOk, Typed, Eval, EncodeExpr, BinOf, Proper;
    var t := BinOf(x, e);
    FrameBinary(x, e);
    TotalHarmless(x.left, e, env);
    TotalHarmless(x.right, t.e1, env);
    if x.binop == And || x.binop == Or {
      ExprTyped(x.right, t.e1, env);
      FrameLoad(t.e3, t.or);
      FrameLoad(t.e2, t.ol);
      TypedProper(env, e.scopes);
      EagerIsLazy(x.right, env);
    }
  }

  /** What evaluating both operands makes of a lazy result: the same, or a
      fault if a second operand is not total. */
  ghost predicate Agrees<T>(eager: T, lazily: T, fault: T, total: bool) {
    eager == lazily || (!total && eager == fault)
  }

  lemma {:induction false} ExprAgrees(x: Expr, e: State, env: Env)
    requires Ok(e) && SlotsOk(e.scopes, e.nslot) && EncodeVal(x, e).Some? && Typed(env, e.scopes)
    ensures Agrees(Eval(x, env, false), Eval(Lazily(x), env, false), None, SecondsTotal(x))
  {
    hide SlotsOk, Typed, Eval, Harmless;
    TypedProper(env, e.scopes);
    if SecondsTotal(x) {
      TotalHarmless(x, e, env);
      EagerExact(x, env);
    } else if Eval(x, env, false).Some? {
      EagerIsLazy(x, env);
    }
  }

  lemma {:induction false} GuardAgrees(o: Option<Expr>, e: State, env: Env)
    requires Ok(e) && SlotsOk(e.scopes, e.nslot) && EncodeGuard(o, e).Some? && Typed(env, e.scopes)
    ensures Agrees(EvalGuard(o, env, false), EvalGuard(LazilyGuard(o), env, false), None,
                   o.Some? ==> SecondsTotal(o.value))
  {
    hide SlotsOk, Typed, Eval;
    if o.Some? {
      ExprAgrees(o.value, e, env);
    }
  }

  // ----- statements -----

  lemma {:induction false} StmtAgrees(s: Stmt, e: State, env: Env, fuel: nat)
    requires Ok(e) && SlotsOk(e.scopes, e.nslot) && EncodeStmt(s, e).Some? && Scoped(s) && Typed(env, e.scopes)
    ensures Agrees(Exec(s, env, false, fuel), Exec(LazilyStmt(s), env, false, fuel), Faulted, SecondsTotalStmt(s))
    decreases fuel, s, 3
  {
    hide SlotsOk, Typed, Eval;
    match s {
      case SymbolDef(_, _, _, v) => ExprAgrees(v, e, env);
      case Assign(l, r) =>
        FrameAssign(s, e);
        ExprAgrees(r, EncodeExpr(l, e).value.0, env);
      case Return(Some(v)) => ExprAgrees(v, e, env);
      case If(_, _, _) => IfAgrees(s, e, env, fuel);
      case Loop(_, _, _, _) => LoopAgrees(s, e, env, fuel);
      case Block(ss) =>
        SlotsOkPush(e.scopes, e.nslot);
        TypedPush(env, e.scopes);
        SeqAgrees(ss, PushScope(e), env + [map[]], fuel);
      case _ =>
    }
  }

  lemma {:induction false} OptAgrees(o: Option<Stmt>, e: State, env: Env, fuel: nat)
    requires Ok(e) && SlotsOk(e.scopes, e.nslot) && EncodeOpt(o, e).Some? && ScopedOpt(o) && Typed(env, e.scopes)
    ensures Agrees(ExecOpt(o, env, false, fuel), ExecOpt(LazilyOpt(o), env, false, fuel), Faulted, SecondsTotalOpt(o))
    decreases fuel, o, 4
  {
    hide SlotsOk, Typed;
    if o.Some? {
      StmtAgrees(o.value, e, env, fuel);
    }
  }

  lemma {:induction false} SeqAgrees(ss: seq<Stmt>, e: State, env: Env, fuel: nat)
    requires Ok(e) && SlotsOk(e.scopes, e.nslot) && EncodeSeq(ss, e).Some? && ScopedSeq(ss) && Typed(env, e.scopes)
    ensures Agrees(ExecSeq(ss, env, false, fuel), ExecSeq(LazilySeq(ss), env, false, fuel), Faulted, SecondsTotalSeq(ss))
    decreases fuel, ss, 4
  {
    hide SlotsOk, Typed, NamesGrow, Exec, EncodeStmt, LazilyStmt;
    if ss != [] {
      var e1 := EncodeStmt(ss[0], e).value;
      FrameStmt(ss[0], e);
      StmtAgrees(ss[0], e, env, fuel);
      StmtTyped(ss[0], e, env, fuel);
      assert LazilySeq(ss)[1..] == LazilySeq(ss[1..]);
      match Exec(ss[0], env, false, fuel) {
        case Normal(env1) => SeqAgrees(ss[1..], e1, env1, fuel);
        case _ =>
      }
    }
  }

  lemma {:induction false} IfAgrees(s: Stmt, e: State, env: Env, fuel: nat)
    requires s.If? && Ok(e) && SlotsOk(e.scopes, e.nslot) && EncodeStmt(s, e).Some? && Scoped(s) && Typed(env, e.scopes)
    ensures Agrees(Exec(s, env, false, fuel), Exec(LazilyStmt(s), env, false, fuel), Faulted, SecondsTotalStmt(s))
    decreases fuel, s, 2
  {
    hide SlotsOk, Typed, NamesGrow, EncodeStmt, EncodeOpt, EncodeVal, IfOf, FallThrough, Eval, ExecOpt;
    var t := IfOf(s, e);
    FrameIf(s, e);
    ScopedKeepsIf(s, e);
    ExprAgrees(s.cond, t.s0, env);
    OptAgrees(s.onTrue, t.s2, env, fuel);
    OptAgrees(s.onFalse, t.s3, env, fuel);
  }

  lemma {:induction false} LoopAgrees(s: Stmt, e: State, env: Env, fuel: nat)
    requires s.Loop? && Ok(e) && SlotsOk(e.scopes, e.nslot) && EncodeStmt(s, e).Some? && Scoped(s) && Typed(env, e.scopes)
    ensures Agrees(Exec(s, env, false, fuel), Exec(LazilyStmt(s), env, false, fuel), Faulted, SecondsTotalStmt(s))
    decreases fuel, s, 2
  {
    hide SlotsOk, Typed, NamesGrow, EncodeStmt, EncodeOpt, EncodeGuard, LoopOf, FallThrough, ExecOpt, ExecLoop, Frame,
         LazilyOpt, LazilyGuard;
    var t := LoopOf(s, e);
    FrameLoop(s, e);
    TypedPush(env, e.scopes);
    SimpleTyped(s.init, t.s0, env + [map[]], fuel);
    SimpleScoped(s.init);
    OptAgrees(s.init, t.s0, env + [map[]], fuel);
    match ExecOpt(s.init, env + [map[]], false, fuel) {
      case Normal(env1) => IterationsAgree(s, e, env1, fuel);
      case _ =>
    }
  }

  lemma {:induction false} SimpleScoped(o: Option<Stmt>)
    requires Simple(o)
    ensures ScopedOpt(o)
  {
  }

  lemma {:induction false} IterationsAgree(s: Stmt, e: State, env: Env, fuel: nat)
    requires s.Loop? && Ok(e) && SlotsOk(e.scopes, e.nslot) && EncodeStmt(s, e).Some? && Scoped(s)
    requires Typed(env, LoopOf(s, e).s1.scopes)
    ensures Agrees(ExecLoop(s, env, false, fuel), ExecLoop(LazilyStmt(s), env, false, fuel), Faulted, SecondsTotalStmt(s))
    decreases fuel, s, 1
  {
    hide SlotsOk, Typed, NamesGrow, EncodeStmt, EncodeOpt, EncodeGuard, LoopOf, FallThrough, ExecOpt, ExecStep, Frame,
         LazilyOpt, LazilyGuard, EvalGuard;
    if fuel != 0 {
      var t := LoopOf(s, e);
      FrameLoop(s, e);
      ScopedKeepsLoop(s, e);
      GuardAgrees(s.guard, t.s1, env);
      OptTyped(s.body, t.s2, env, fuel - 1);
      OptAgrees(s.body, t.s2, env, fuel - 1);
      match ExecOpt(s.body, env, false, fuel - 1) {
        case Normal(env1) => StepAgrees(s, e, env, env1, fuel - 1);
        case Continued(env1) => StepAgrees(s, e, env, env1, fuel - 1);
        case _ =>
      }
    }
  }

  lemma {:induction false} StepAgrees(s: Stmt, e: State, env: Env, env1: Env, fuel: nat)
    requires s.Loop? && Ok(e) && SlotsOk(e.scopes, e.nslot) && EncodeStmt(s, e).Some? && Scoped(s)
    requires Typed(env, LoopOf(s, e).s1.scopes) && Typed(env1, LoopOf(s, e).s1.scopes)
    ensures Agrees(ExecStep(s, env, env1, false, fuel), ExecStep(LazilyStmt(s), env, env1, false, fuel), Faulted,
                   SecondsTotalStmt(s))
    decreases fuel, s, 2
  {
    hide SlotsOk, Typed, NamesGrow, EncodeStmt, EncodeOpt, EncodeGuard, LoopOf, FallThrough, ExecOpt, ExecLoop, Frame,
         LazilyOpt, LazilyGuard;
    var t := LoopOf(s, e);
    FrameLoop(s, e);
    ScopedKeepsLoop(s, e);
    SimpleTyped(s.step, t.s3, env1, fuel);
    SimpleScoped(s.step);
    OptAgrees(s.step, t.s3, env1, fuel);
    match ExecOpt(s.step, env1, false, fuel) {
      case Normal(env2) =>
        TypedTrim(env2, t.e4.scopes, env, t.s1.scopes);
        IterationsAgree(s, e, Trim(env2, env), fuel);
      case _ =>
    }
  }

  // ----- programs -----

  /** An accepted program does what the manual says, unless it faults; and with
      total second operands it always does. */
  lemma {:induction false} RunAgrees(body: seq<Stmt>, fuel: nat)
    requires EncodeModule(body).Some? && ScopedSeq(body)
    ensures Agrees(Run(body, false, fuel), Run(LazilySeq(body), false, fuel), Faulted, SecondsTotalSeq(body))
  {
    hide EncodeSeq, ExecSeq;
    var env: Env := [map[], map[]];
    assert SlotsOk(Initial.scopes, Initial.nslot) && Typed(env, Initial.scopes);
    SeqAgrees(body, Initial, env, fuel);
  }

  /** So the code behaves as the program with operators that stop early. */
  lemma {:induction false} LazyPreservation(body: seq<Stmt>, v: Val)
    requires EncodeModule(body).Some? && ScopedSeq(body) && MergeableSeq(body) && SecondsTotalSeq(body)
    ensures var code := EncodeModule(body).value.code;
            && (CodeReturns(code, v) <==> Returns(LazilySeq(body), false, v))
            && (CodeFaults(code) <==> Faults(LazilySeq(body), false))
            && (CodeDiverges(code) <==> Diverges(LazilySeq(body), false))
  {
    hide EncodeModule, Run;
    SemanticPreservation(body, v);
    forall fuel: nat ensures Run(body, false, fuel) == Run(LazilySeq(body), false, fuel) {
      RunAgrees(body, fuel);
    }
  }

  // ----- a program that differs -----

  /** `1 / 0 == 1` */
  const Undefined := Binary(Eq, Binary(Div, IntLit(1), IntLit(0)), IntLit(1))

  /** `(false && 1 / 0 == 1) ? 1 : 2` */
  const Guarded := Trinary(Binary(And, BoolLit(false), Undefined), IntLit(1), IntLit(2))

  lemma {:induction false} GuardedAccepted()
    ensures EncodeModule(ReturnOf(Guarded)).Some?
  {
    var b := |Initial.code|;
    var s1 := Activate(Emit(NewBlocks(Initial, 4), Jump(b)), b);
    NewBlocksEmpty(Initial, 4);
    UndefinedEncodes(s1);
    var (e1, oc) := EncodeVal(Guarded.cond, s1).value;
    var s2 := Activate(Emit(e1, JumpCond(oc, b + 1, b + 2)), b + 1);
    IntEncodes(1, s2);
    var s3 := Activate(Emit(s2, Jump(b + 3)), b + 2);
    IntEncodes(2, s3);
    hide EncodeVal;
    assert EncodeExpr(Guarded, Initial).Some? && OpTy(EncodeExpr(Guarded, Initial).value.1) == I32;
    LoadedType(Guarded, Initial);
    ReturnAccepted(Guarded);
  }

  lemma {:induction false} UndefinedEncodes(e: State)
    requires Ok(e)
    ensures var r := EncodeVal(Guarded.cond, e); r.Some? && OpTy(r.value.1) == I1
  {
    IntEncodes(0, e);
    IntEncodes(1, e);
    var quotient := Undefined.left;
    var (e1, o) := BuildBin(e, Div, Const(Val(I32, 1)), Const(Val(I32, 0)), I32);
    assert EncodeExpr(quotient, e) == Some((e1, o)) && o == Reg(e.nreg, I32);
    IntEncodes(1, e1);
    var (e2, o2) := BuildBin(e1, Eq, o, Const(Val(I32, 1)), I1);
    assert EncodeExpr(Undefined, e) == Some((e2, o2)) && o2 == Reg(e1.nreg, I1);
    BoolEncodes(false, e);
  }

  /** Accepted; it returns 2 as the manual reads it, and its code is stuck. */
  lemma {:induction false} GuardedDiffers()
    ensures EncodeModule(ReturnOf(Guarded)).Some?
    ensures Returns(LazilySeq(ReturnOf(Guarded)), false, Val(I32, 2))
    ensures Faults(ReturnOf(Guarded), false) && CodeFaults(EncodeModule(ReturnOf(Guarded)).value.code)
  {
    GuardedAccepted();
    GuardedValues();
    hide EncodeModule, Eval;
    assert LazilySeq(ReturnOf(Guarded)) == ReturnOf(Lazily(Guarded)) by {
      assert ReturnOf(Guarded)[1..] == [];
    }
    ReturnRun(Lazily(Guarded), false, 0);
    assert Run(ReturnOf(Lazily(Guarded)), false, 0) == Done(Val(I32, 2));
    ReturnRun(Guarded, false, 0);
    assert Run(ReturnOf(Guarded), false, 0) == Faulted;
    SemanticPreservation(ReturnOf(Guarded), Val(I32, 2));
  }

  lemma {:induction false} GuardedValues()
    ensures Eval(Guarded, [map[], map[]], false) == None
    ensures Eval(Lazily(Guarded), [map[], map[]], false) == Some(Val(I32, 2))
    ensures MergeableSeq(ReturnOf(Guarded)) && ScopedSeq(ReturnOf(Guarded))
  {
    var env: Env := [map[], map[]];
    assert Eval(Undefined.left, env, false) == None;
    assert Eval(Guarded.cond, env, false) == None;
    assert Eval(Lazily(Guarded.cond), env, false) == Some(BoolVal(false));
    assert ReturnOf(Guarded)[1..] == [];
  }
}
