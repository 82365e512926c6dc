/** What acceptance buys: values keep the static types that the coder checked,
    and only division, remainder and shifts can go wrong. */
module TypeSafety {
  import opened Ast
  import opened Scalar
  import opened Ir
  import opened Lowering
  import opened Semantics
  import opened Structure
  import opened Simulation
  import opened Preservation
  import opened Meaning
  import opened Operators

  /** The operators whose value is not defined for all operands. */
  predicate Partial(op: BinOp) {
    op == Div || op == Mod || op == ShiftL || op == ShiftR
  }

  predicate Total(e: Expr) {
    match e
    case Unary(_, a) => Total(a)
    case Binary(op, l, r) => !Partial(op) && Total(l) && Total(r)
    case Trinary(c, t, f) => Total(c) && Total(t) && Total(f)
    case _ => true
  }

  predicate TotalStmt(s: Stmt)
    decreases s, 0
  {
    match s
    case SymbolDef(_, _, _, v) => Total(v)
    case Assign(_, r) => Total(r)
    case Return(Some(v)) => Total(v)
    case If(c, t, f) => Total(c) && TotalOpt(t) && TotalOpt(f)
    case Loop(init, c, step, body) => TotalOpt(init) && (c.Some? ==> Total(c.value)) && TotalOpt(step) && TotalOpt(body)
    case Block(ss) => TotalSeq(ss)
    case _ => true
  }

  predicate TotalOpt(o: Option<Stmt>)
    decreases o, 1
  {
    o.Some? ==> TotalStmt(o.value)
  }

  predicate TotalSeq(ss: seq<Stmt>)
    decreases ss, 1
  {
    ss != [] ==> TotalStmt(ss[0]) && TotalSeq(ss[1..])
  }

  /** Every bound name has a value of the type that its scope entry names. */
  ghost predicate Typed(env: Env, scopes: seq<Scope>) {
    && |env| == |scopes|
    && (forall i | 0 <= i < |env| :: env[i].Keys == scopes[i].Keys)
    && (forall i, x | 0 <= i < |env| && x in env[i] :: Proper(env[i][x]) && env[i][x].ty == OpTy(scopes[i][x]))
  }

  /** A value of the type, or a fault that needs a partial operator. */
  ghost predicate HasType(r: Option<Val>, ty: Ty, total: bool) {
    match r
    case None => !total
    case Some(v) => v.ty == ty && Proper(v)
  }

  // ----- expressions -----

  lemma {:induction false} UnTyped(op: UnOp, a: Val)
    requires Proper(a) && UnTy(op, a.ty).Some?
    ensures HasType(EvalUn(op, a), UnTy(op, a.ty).value, true)
  {
    hide Wrap, Bitwise;
  }

  lemma {:induction false} BinTyped(op: BinOp, a: Val, b: Val)
    requires Proper(a) && Proper(b) && BinTy(op, a.ty, b.ty).Some?
    ensures HasType(EvalBin(op, a, b), BinTy(op, a.ty, b.ty).value, !Partial(op))
  {
    hide Wrap, Bitwise, Unsigned, TruncDiv, Pow2;
  }

  /** A folded constant has the type of its operation. */
  lemma {:induction false} FoldedType(op: BinOp, a: Operand, b: Operand)
    requires BinTy(op, OpTy(a), OpTy(b)).Some? && FoldBin(op, a, b).Some?
    ensures FoldBin(op, a, b).value.ty == BinTy(op, OpTy(a), OpTy(b)).value
  {
    hide Wrap, Bitwise, Unsigned, TruncDiv, Pow2;
  }

  lemma {:induction false} FoldedUnType(op: UnOp, a: Operand)
    requires UnTy(op, OpTy(a)).Some? && FoldUn(op, a).Some?
    ensures FoldUn(op, a).value.ty == UnTy(op, OpTy(a)).value
  {
    hide Wrap, Bitwise;
  }

  lemma {:induction false} FindTyped(env: Env, scopes: seq<Scope>, x: string)
    requires Typed(env, scopes) && Lookup(scopes, x).Some?
    ensures Find(env, x).Some? && Proper(Find(env, x).value) && Find(env, x).value.ty == OpTy(Lookup(scopes, x).value)
  {
    var n := |env| - 1;
    if x !in scopes[n] {
      assert forall i | 0 <= i < n :: env[..n][i] == env[i] && scopes[..n][i] == scopes[i];
      FindTyped(env[..n], scopes[..n], x);
    }
  }

  lemma {:induction false} ExprTyped(x: Expr, e: State, env: Env)
    requires Ok(e) && SlotsOk(e.scopes, e.nslot) && EncodeExpr(x, e).Some? && Typed(env, e.scopes)
    ensures HasType(Eval(x, env, false), OpTy(EncodeExpr(x, e).value.1), Total(x))
    decreases x, 1
  {
    hide SlotsOk, Typed, Wrap, EvalUn, EvalBin, UnTy, BinTy;
    match x {
      case Sym(name) => FindTyped(env, e.scopes, name);
      case Unary(op, a) =>
        ValTyped(a, e, env);
        var o := EncodeVal(a, e).value.1;
        if FoldUn(op, o).Some? {
          FoldedUnType(op, o);
        }
        if Eval(a, env, false).Some? {
          UnTyped(op, Eval(a, env, false).value);
          PosKeeps(op, Eval(a, env, false).value.ty);
        }
      case Binary(_, _, _) => BinaryTyped(x, e, env);
      case Trinary(_, _, _) => TrinaryTyped(x, e, env);
      case _ =>
    }
  }

  lemma {:induction false} PosKeeps(op: UnOp, ty: Ty)
    ensures op == Pos ==> UnTy(op, ty) == Some(ty)
  {
  }

  lemma {:induction false} ValTyped(x: Expr, e: State, env: Env)
    requires Ok(e) && SlotsOk(e.scopes, e.nslot) && EncodeVal(x, e).Some? && Typed(env, e.scopes)
    ensures HasType(Eval(x, env, false), OpTy(EncodeVal(x, e).value.1), Total(x))
    decreases x, 2
  {
    hide SlotsOk, Typed, Eval, Total;
    ExprTyped(x, e, env);
  }

  lemma {:induction false} BinaryTyped(x: Expr, e: State, env: Env)
    requires x.Binary? && Ok(e) && SlotsOk(e.scopes, e.nslot) && EncodeExpr(x, e).Some? && Typed(env, e.scopes)
    ensures HasType(Eval(x, env, false), OpTy(EncodeExpr(x, e).value.1), Total(x))
    decreases x, 0
  {
    hide SlotsOk, Typed, EncodeExpr, BinOf, EvalBin, BinTy;
    var t := BinOf(x, e);
    FrameBinary(x, e);
    ExprTyped(x.left, e, env);
    ExprTyped(x.right, t.e1, env);
    FrameLoad(t.e2, t.ol);
    FrameLoad(t.e3, t.or);
    var a, b := Eval(x.left, env, false), Eval(x.right, env, false);
    if FoldBin(x.binop, t.vl, t.vr).Some? {
      FoldedType(x.binop, t.vl, t.vr);
    }
    if a.Some? && b.Some? {
      BinTyped(x.binop, a.value, b.value);
    }
  }

  lemma {:induction false} TrinaryTyped(x: Expr, e: State, env: Env)
    requires x.Trinary? && Ok(e) && SlotsOk(e.scopes, e.nslot) && EncodeExpr(x, e).Some? && Typed(env, e.scopes)
    ensures HasType(Eval(x, env, false), OpTy(EncodeExpr(x, e).value.1), Total(x))
    decreases x, 0
  {
    hide SlotsOk, Typed, EncodeExpr, EncodeVal, TriOf;
    var t := TriOf(x, e);
    FrameTrinary(x, e);
    ValTyped(x.cond, t.s1, env);
    ValTyped(x.onTrue, t.s2, env);
    ValTyped(x.onFalse, t.s3, env);
  }

  // ----- bindings -----

  lemma {:induction false} TypedPush(env: Env, scopes: seq<Scope>)
    requires Typed(env, scopes)
    ensures Typed(env + [map[]], scopes + [map[]])
  {
  }

  lemma {:induction false} TypedPop(env: Env, scopes: seq<Scope>)
    requires Typed(env, scopes) && |scopes| > 0
    ensures Typed(Pop(env), scopes[..|scopes| - 1])
  {
    var n := |env| - 1;
    assert forall i | 0 <= i < n :: env[..n][i] == env[i] && scopes[..n][i] == scopes[i];
  }

  lemma {:induction false} TypedDefine(env: Env, scopes: seq<Scope>, x: string, v: Val, o: Operand)
    requires Typed(env, scopes) && |scopes| > 0 && Proper(v) && v.ty == OpTy(o)
    ensures Typed(Define(env, x, v), scopes[|scopes| - 1 := scopes[|scopes| - 1][x := o]])
  {
    var n := |scopes| - 1;
    assert Define(env, x, v)[n].Keys == scopes[n][x := o].Keys;
  }

  lemma {:induction false} TypedUpdate(env: Env, scopes: seq<Scope>, x: string, v: Val)
    requires Typed(env, scopes) && Lookup(scopes, x).Some? && Proper(v) && v.ty == OpTy(Lookup(scopes, x).value)
    ensures Typed(Update(env, x, v), scopes)
  {
    FindTyped(env, scopes, x);
    var k := UpdateFound(env, scopes, x, v);
    assert Update(env, x, v)[k].Keys == env[k].Keys;
  }

  lemma {:induction false} TypedTrim(env1: Env, scopes1: seq<Scope>, env: Env, scopes: seq<Scope>)
    requires Typed(env1, scopes1) && Typed(env, scopes) && NamesGrow(scopes, scopes1) && |scopes| > 0
    ensures Typed(Trim(env1, env), scopes)
  {
    var n := |scopes| - 1;
    var env2 := Trim(env1, env);
    assert env[n].Keys == scopes[n].Keys && env1[n].Keys == scopes1[n].Keys;
    assert env2[n].Keys == scopes[n].Keys;
    forall i, x | 0 <= i < |env2| && x in env2[i] ensures Proper(env2[i][x]) && env2[i][x].ty == OpTy(scopes[i][x]) {
      assert x in scopes[i] && x in env1[i] && env1[i][x] == env2[i][x];
      assert scopes1[i][x] == scopes[i][x];
    }
    forall i | 0 <= i < |env2| ensures env2[i].Keys == scopes[i].Keys {
      if i < n {
        assert env2[i] == env1[i] && scopes1[i] == scopes[i];
      }
    }
  }

  // ----- statements -----

  /** What a typed statement ends with. */
  ghost predicate Sound(o: Outcome, e: State, e1: State, total: bool) {
    match o
    case Normal(env) => Typed(env, e1.scopes)
    case Broke(env) => e.brk.Some? && Typed(env, e.scopes)
    case Continued(env) => e.cont.Some? && Typed(env, e.scopes)
    case Done(v) => v.ty == I32 && Proper(v)
    case Faulted => !total
    case Timeout => true
  }

  ghost predicate SoundSeq(o: Outcome, e: State, e1: State, total: bool)
    requires Ok(e)
  {
    match o
    case Broke(env) => e.brk.Some? && Typed(Pop(env), e.scopes[..|e.scopes| - 1])
    case Continued(env) => e.cont.Some? && Typed(Pop(env), e.scopes[..|e.scopes| - 1])
    case _ => Sound(o, e, e1, total)
  }

  lemma {:induction false} StmtTyped(s: Stmt, e: State, env: Env, fuel: nat)
    requires Ok(e) && SlotsOk(e.scopes, e.nslot) && EncodeStmt(s, e).Some? && Scoped(s) && Typed(env, e.scopes)
    ensures Sound(Exec(s, env, false, fuel), e, EncodeStmt(s, e).value, TotalStmt(s))
    decreases fuel, s, 3
  {
    hide SlotsOk, Typed;
    match s {
      case SymbolDef(_, _, _, _) => DefTyped(s, e, env, fuel);
      case Assign(_, _) => AssignTyped(s, e, env, fuel);
      case Return(Some(v)) => ValTyped(v, e, env);
      case If(_, _, _) => IfTyped(s, e, env, fuel);
      case Loop(_, _, _, _) => LoopTyped(s, e, env, fuel);
      case Block(ss) => BlockTyped(s, e, env, fuel);
      case _ =>
    }
  }

  lemma {:induction false} OptTyped(o: Option<Stmt>, e: State, env: Env, fuel: nat)
    requires Ok(e) && SlotsOk(e.scopes, e.nslot) && EncodeOpt(o, e).Some? && ScopedOpt(o) && Typed(env, e.scopes)
    ensures Sound(ExecOpt(o, env, false, fuel), e, EncodeOpt(o, e).value, TotalOpt(o))
    decreases fuel, o, 4
  {
    hide SlotsOk, Typed;
    if o.Some? {
      StmtTyped(o.value, e, env, fuel);
    }
  }

  lemma {:induction false} SeqTyped(ss: seq<Stmt>, e: State, env: Env, fuel: nat)
    requires Ok(e) && SlotsOk(e.scopes, e.nslot) && EncodeSeq(ss, e).Some? && ScopedSeq(ss) && Typed(env, e.scopes)
    ensures SoundSeq(ExecSeq(ss, env, false, fuel), e, EncodeSeq(ss, e).value, TotalSeq(ss))
    decreases fuel, ss, 4
  {
    hide SlotsOk, Typed, NamesGrow, Exec, EncodeStmt, TotalStmt, Frame;
    if ss != [] {
      var e1 := EncodeStmt(ss[0], e).value;
      FrameStmt(ss[0], e);
      StmtTyped(ss[0], e, env, fuel);
      var o := Exec(ss[0], env, false, fuel);
      match o {
        case Normal(env1) =>
          SeqTyped(ss[1..], e1, env1, fuel);
          SameOuter(e.scopes, e1.scopes);
        case Broke(env1) => TypedPop(env1, e.scopes);
        case Continued(env1) => TypedPop(env1, e.scopes);
        case _ =>
      }
    }
  }

  lemma {:induction false} DefTyped(s: Stmt, e: State, env: Env, fuel: nat)
    requires s.SymbolDef? && Ok(e) && SlotsOk(e.scopes, e.nslot) && EncodeStmt(s, e).Some? && Typed(env, e.scopes)
    ensures Sound(Exec(s, env, false, fuel), e, EncodeStmt(s, e).value, TotalStmt(s))
    ensures !Exec(s, env, false, fuel).Timeout?
  {
    hide SlotsOk, Typed;
    FrameVal(s.value, e);
    ValTyped(s.value, e, env);
    var (e1, o) := EncodeVal(s.value, e).value;
    if Eval(s.value, env, false).Some? {
      TypedDefine(env, e.scopes, s.name, Eval(s.value, env, false).value, Slot(e1.nslot, OpTy(o)));
    }
  }

  lemma {:induction false} AssignTyped(s: Stmt, e: State, env: Env, fuel: nat)
    requires s.Assign? && Ok(e) && SlotsOk(e.scopes, e.nslot) && EncodeStmt(s, e).Some? && Typed(env, e.scopes)
    ensures Sound(Exec(s, env, false, fuel), e, EncodeStmt(s, e).value, TotalStmt(s))
    ensures !Exec(s, env, false, fuel).Timeout?
  {
    hide SlotsOk, Typed;
    FrameAssign(s, e);
    FrameVal(s.right, e);
    ValTyped(s.right, e, env);
    FindTyped(env, e.scopes, s.left.name);
    if Eval(s.right, env, false).Some? {
      TypedUpdate(env, e.scopes, s.left.name, Eval(s.right, env, false).value);
    }
  }

  lemma {:induction false} BlockTyped(s: Stmt, e: State, env: Env, fuel: nat)
    requires s.Block? && Ok(e) && SlotsOk(e.scopes, e.nslot) && EncodeStmt(s, e).Some? && Scoped(s) && Typed(env, e.scopes)
    ensures Sound(Exec(s, env, false, fuel), e, EncodeStmt(s, e).value, TotalStmt(s))
    decreases fuel, s, 2
  {
    hide SlotsOk, Typed, NamesGrow, ExecSeq, EncodeSeq;
    var e0 := PushScope(e);
    SlotsOkPush(e.scopes, e.nslot);
    TypedPush(env, e.scopes);
    FrameSeq(s.stmts, e0);
    var e1 := EncodeSeq(s.stmts, e0).value;
    ScopeExit(e, e1);
    SeqTyped(s.stmts, e0, env + [map[]], fuel);
    SameOuter(e0.scopes, e1.scopes);
    assert PopScope(e1) == e1.(scopes := e1.scopes[..|e1.scopes| - 1]);
    assert e0.scopes[..|e0.scopes| - 1] == e.scopes;
    match ExecSeq(s.stmts, env + [map[]], false, fuel) {
      case Normal(env1) => TypedPop(env1, e1.scopes);
      case _ =>
    }
  }

  lemma {:induction false} IfTyped(s: Stmt, e: State, env: Env, fuel: nat)
    requires s.If? && Ok(e) && SlotsOk(e.scopes, e.nslot) && EncodeStmt(s, e).Some? && Scoped(s) && Typed(env, e.scopes)
    ensures Sound(Exec(s, env, false, fuel), e, EncodeStmt(s, e).value, TotalStmt(s))
    decreases fuel, s, 2
  {
    hide SlotsOk, Typed, NamesGrow, EncodeStmt, EncodeOpt, EncodeVal, IfOf, FallThrough;
    var t := IfOf(s, e);
    FrameIf(s, e);
    ScopedKeepsIf(s, e);
    ValTyped(s.cond, t.s0, env);
    OptTyped(s.onTrue, t.s2, env, fuel);
    OptTyped(s.onFalse, t.s3, env, fuel);
  }

  lemma {:induction false} SimpleTyped(o: Option<Stmt>, e: State, env: Env, fuel: nat)
    requires Simple(o) && Ok(e) && SlotsOk(e.scopes, e.nslot) && EncodeOpt(o, e).Some? && Typed(env, e.scopes)
    ensures var r := ExecOpt(o, env, false, fuel);
            (r.Normal? || r.Faulted?) && Sound(r, e, EncodeOpt(o, e).value, TotalOpt(o))
  {
    hide SlotsOk, Typed;
    match o {
      case None =>
      case Some(s) =>
        if s.SymbolDef? {
          DefTyped(s, e, env, fuel);
        } else {
          FrameAssign(s, e);
          AssignTyped(s, e, env, fuel);
        }
    }
  }

  lemma {:induction false} LoopTyped(s: Stmt, e: State, env: Env, fuel: nat)
    requires s.Loop? && Ok(e) && SlotsOk(e.scopes, e.nslot) && EncodeStmt(s, e).Some? && Scoped(s) && Typed(env, e.scopes)
    ensures Sound(Exec(s, env, false, fuel), e, EncodeStmt(s, e).value, TotalStmt(s))
    decreases fuel, s, 2
  {
    hide SlotsOk, Typed, NamesGrow, EncodeStmt, EncodeOpt, EncodeGuard, LoopOf, FallThrough, ExecOpt, ExecLoop, Frame;
    var t := LoopOf(s, e);
    FrameLoop(s, e);
    TypedPush(env, e.scopes);
    SimpleTyped(s.init, t.s0, env + [map[]], fuel);
    match ExecOpt(s.init, env + [map[]], false, fuel) {
      case Normal(env1) =>
        IterationsTyped(s, e, env1, fuel);
        LoopPops(s, e);
        match ExecLoop(s, env1, false, fuel) {
          case Normal(env2) => TypedPop(env2, t.s1.scopes);
          case _ =>
        }
      case _ =>
    }
  }

  /** What a loop's iterations end with. */
  ghost predicate SoundLoop(o: Outcome, scopes: seq<Scope>, total: bool) {
    match o
    case Normal(env) => Typed(env, scopes)
    case Broke(_) => false
    case Continued(_) => false
    case Done(v) => v.ty == I32 && Proper(v)
    case Faulted => !total
    case Timeout => true
  }

  lemma {:induction false} IterationsTyped(s: Stmt, e: State, env: Env, fuel: nat)
    requires s.Loop? && Ok(e) && SlotsOk(e.scopes, e.nslot) && EncodeStmt(s, e).Some? && Scoped(s)
    requires Typed(env, LoopOf(s, e).s1.scopes)
    ensures SoundLoop(ExecLoop(s, env, false, fuel), LoopOf(s, e).s1.scopes, TotalStmt(s))
    decreases fuel, s, 1
  {
    hide SlotsOk, Typed, NamesGrow, EncodeStmt, EncodeOpt, EncodeGuard, LoopOf, FallThrough, ExecOpt, ExecStep, Frame;
    if fuel != 0 {
      var t := LoopOf(s, e);
      FrameLoop(s, e);
      ScopedKeepsLoop(s, e);
      GuardTyped(s.guard, t.s1, env);
      OptTyped(s.body, t.s2, env, fuel - 1);
      match ExecOpt(s.body, env, false, fuel - 1) {
        case Normal(env1) => StepTyped(s, e, env, env1, fuel - 1);
        case Continued(env1) => StepTyped(s, e, env, env1, fuel - 1);
        case _ =>
      }
    }
  }

  lemma {:induction false} GuardTyped(o: Option<Expr>, e: State, env: Env)
    requires Ok(e) && SlotsOk(e.scopes, e.nslot) && EncodeGuard(o, e).Some? && Typed(env, e.scopes)
    ensures HasType(EvalGuard(o, env, false), OpTy(EncodeGuard(o, e).value.1), o.Some? ==> Total(o.value))
  {
    hide SlotsOk, Typed;
    if o.Some? {
      ValTyped(o.value, e, env);
    }
  }

  lemma {:induction false} StepTyped(s: Stmt, e: State, env: Env, env1: Env, fuel: nat)
    requires s.Loop? && Ok(e) && SlotsOk(e.scopes, e.nslot) && EncodeStmt(s, e).Some? && Scoped(s)
    requires Typed(env, LoopOf(s, e).s1.scopes) && Typed(env1, LoopOf(s, e).s1.scopes)
    ensures SoundLoop(ExecStep(s, env, env1, false, fuel), LoopOf(s, e).s1.scopes, TotalStmt(s))
    decreases fuel, s, 2
  {
    hide SlotsOk, Typed, NamesGrow, EncodeStmt, EncodeOpt, EncodeGuard, LoopOf, FallThrough, ExecOpt, ExecLoop, Frame;
    var t := LoopOf(s, e);
    FrameLoop(s, e);
    ScopedKeepsLoop(s, e);
    SimpleTyped(s.step, t.s3, env1, fuel);
    match ExecOpt(s.step, env1, false, fuel) {
      case Normal(env2) =>
        TypedTrim(env2, t.e4.scopes, env, t.s1.scopes);
        IterationsTyped(s, e, Trim(env2, env), fuel);
      case _ =>
    }
  }

  // ----- the module -----

  /** An accepted program ends only by returning a 32-bit number or, if it has a
      partial operator, by a fault. */
  lemma {:induction false} RunTyped(body: seq<Stmt>, fuel: nat)
    requires EncodeModule(body).Some? && ScopedSeq(body)
    ensures match Run(body, false, fuel)
            case Done(v) => v.ty == I32 && Proper(v)
            case Faulted => !TotalSeq(body)
            case Timeout => true
            case _ => false
  {
    hide EncodeSeq, ExecSeq;
    assert SlotsOk(Initial.scopes, Initial.nslot);
    var env: Env := [map[], map[]];
    assert Typed(env, Initial.scopes);
    SeqTyped(body, Initial, env, fuel);
  }

  /** Type safety of the code: what it returns is a 32-bit number, and without
      division, remainder and shifts it never gets stuck. */
  lemma {:induction false} CodeSafe(body: seq<Stmt>, v: Val)
    requires EncodeModule(body).Some? && ScopedSeq(body) && MergeableSeq(body)
    ensures CodeReturns(EncodeModule(body).value.code, v) ==> v.ty == I32 && InRange(I32, v.n)
    ensures TotalSeq(body) ==> !CodeFaults(EncodeModule(body).value.code)
  {
    hide EncodeModule, Semantics.Run;
    SemanticPreservation(body, v);
    if fuel: nat :| Semantics.Run(body, false, fuel) == Done(v) {
      RunTyped(body, fuel);
    }
    if fuel: nat :| Semantics.Run(body, false, fuel) == Faulted {
      RunTyped(body, fuel);
    }
  }
}
