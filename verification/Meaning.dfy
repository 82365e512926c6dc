/** When strict evaluation is the plain meaning, and what follows for the code. */
module Meaning {
  import opened Ast
  import opened Scalar
  import opened Ir
  import opened Lowering
  import opened Semantics
  import opened Structure
  import opened Simulation
  import opened Preservation

  /** Every ternary's merge knows both of its branches. */
  predicate Mergeable(e: Expr) {
    match e
    case Unary(_, a) => Mergeable(a)
    case Binary(_, l, r) => Mergeable(l) && Mergeable(r)
    case Trinary(c, t, f) =>
      Mergeable(c) && Mergeable(t) && Mergeable(f) && Merges(true, t, f) && Merges(false, t, f)
    case _ => true
  }

  predicate MergeableStmt(s: Stmt)
    decreases s, 0
  {
    match s
    case SymbolDef(_, _, _, v) => Mergeable(v)
    case Assign(_, r) => Mergeable(r)
    case Return(Some(v)) => Mergeable(v)
    case If(c, t, f) => Mergeable(c) && MergeableOpt(t) && MergeableOpt(f)
    case Loop(init, c, step, body) =>
      MergeableOpt(init) && (c.Some? ==> Mergeable(c.value)) && MergeableOpt(step) && MergeableOpt(body)
    case Block(ss) => MergeableSeq(ss)
    case _ => true
  }

  predicate MergeableOpt(o: Option<Stmt>)
    decreases o, 1
  {
    o.Some? ==> MergeableStmt(o.value)
  }

  predicate MergeableSeq(ss: seq<Stmt>)
    decreases ss, 1
  {
    ss != [] ==> MergeableStmt(ss[0]) && MergeableSeq(ss[1..])
  }

  lemma {:induction false} StrictEval(e: Expr, env: Env)
    requires Mergeable(e)
    ensures Eval(e, env, true) == Eval(e, env, false)
  {
    match e {
      case Unary(_, a) => StrictEval(a, env);
      case Binary(_, l, r) =>
        StrictEval(l, env);
        StrictEval(r, env);
      case Trinary(c, t, f) =>
        StrictEval(c, env);
        StrictEval(t, env);
        StrictEval(f, env);
      case _ =>
    }
  }

  lemma {:induction false} StrictExec(s: Stmt, env: Env, fuel: nat)
    requires MergeableStmt(s)
    ensures Exec(s, env, true, fuel) == Exec(s, env, false, fuel)
    decreases fuel, s, 1
  {
    match s {
      case SymbolDef(_, _, _, v) => StrictEval(v, env);
      case Assign(_, r) => StrictEval(r, env);
      case Return(Some(v)) => StrictEval(v, env);
      case If(c, t, f) =>
        StrictEval(c, env);
        StrictExecOpt(t, env, fuel);
        StrictExecOpt(f, env, fuel);
      case Loop(init, _, _, _) =>
        StrictExecOpt(init, env + [map[]], fuel);
        match ExecOpt(init, env + [map[]], true, fuel) {
          case Normal(env1) => StrictExecLoop(s, env1, fuel);
          case _ =>
        }
      case Block(ss) => StrictExecSeq(ss, env + [map[]], fuel);
      case _ =>
    }
  }

  lemma {:induction false} StrictExecOpt(o: Option<Stmt>, env: Env, fuel: nat)
    requires MergeableOpt(o)
    ensures ExecOpt(o, env, true, fuel) == ExecOpt(o, env, false, fuel)
    decreases fuel, o, 2
  {
    if o.Some? {
      StrictExec(o.value, env, fuel);
    }
  }

  lemma {:induction false} StrictExecSeq(ss: seq<Stmt>, env: Env, fuel: nat)
    requires MergeableSeq(ss)
    ensures ExecSeq(ss, env, true, fuel) == ExecSeq(ss, env, false, fuel)
    decreases fuel, ss, 2
  {
    if ss != [] {
      StrictExec(ss[0], env, fuel);
      match Exec(ss[0], env, true, fuel) {
        case Normal(env1) => StrictExecSeq(ss[1..], env1, fuel);
        case _ =>
      }
    }
  }

  lemma {:induction false} StrictExecLoop(s: Stmt, env: Env, fuel: nat)
    requires s.Loop? && MergeableStmt(s)
    ensures ExecLoop(s, env, true, fuel) == ExecLoop(s, env, false, fuel)
    decreases fuel, s, 0
  {
    if fuel != 0 {
      if s.guard.Some? {
        StrictEval(s.guard.value, env);
      }
      StrictExecOpt(s.body, env, fuel - 1);
      match ExecOpt(s.body, env, true, fuel - 1) {
        case Normal(env1) => StrictExecStep(s, env, env1, fuel - 1);
        case Continued(env1) => StrictExecStep(s, env, env1, fuel - 1);
        case _ =>
      }
    }
  }

  lemma {:induction false} StrictExecStep(s: Stmt, env: Env, env1: Env, fuel: nat)
    requires s.Loop? && MergeableStmt(s)
    ensures ExecStep(s, env, env1, true, fuel) == ExecStep(s, env, env1, false, fuel)
    decreases fuel, s, 3
  {
    StrictExecOpt(s.step, env1, fuel);
    match ExecOpt(s.step, env1, true, fuel) {
      case Normal(env2) => StrictExecLoop(s, Trim(env2, env), fuel);
      case _ =>
    }
  }

  /** Semantic preservation: the emitted code returns v exactly when the program
      does, faults exactly when it does and diverges exactly when it does. */
  lemma {:induction false} SemanticPreservation(body: seq<Stmt>, v: Val)
    requires EncodeModule(body).Some? && ScopedSeq(body) && MergeableSeq(body)
    ensures var code := EncodeModule(body).value.code;
            && (CodeReturns(code, v) <==> Returns(body, false, v))
            && (CodeFaults(code) <==> Faults(body, false))
            && (CodeDiverges(code) <==> Diverges(body, false))
  {
    StrictPreservation(body, v);
    forall fuel: nat ensures Run(body, true, fuel) == Run(body, false, fuel) {
      StrictExecSeq(body, [map[], map[]], fuel);
    }
  }

  /** The code of one ternary ends with the ternary's value exactly when the
      taken branch holds no ternary of its own and, for the second branch, does
      not fold to the same constant as the first; otherwise the merge is stuck. */
  lemma {:induction false} TernaryLowering(x: Expr, e: State, code: Code, m: Machine, env: Env) returns (n: nat)
    requires x.Trinary? && Mergeable(x.cond) && Mergeable(x.onTrue) && Mergeable(x.onFalse)
    requires Ok(e) && SlotsOk(e.scopes, e.nslot) && EncodeExpr(x, e).Some?
    requires At(m, e) && Rel(env, e.scopes, m.mem) && Extends(EncodeExpr(x, e).value.0.code, code)
    requires Eval(x, env, false).Some?
    ensures var (e1, o) := EncodeExpr(x, e).value;
            var m1 := Steps(code, m, n);
            var c := Eval(x.cond, env, false);
            && c.Some?
            && (Arrives(m, m1, e1, e.nreg) && Holds(o, Eval(x, env, false).value, m1)
                <==> Merges(c.value.n != 0, x.onTrue, x.onFalse))
            && (m1 == Stuck <==> !Merges(c.value.n != 0, x.onTrue, x.onFalse))
  {
    StrictEval(x.cond, env);
    StrictEval(x.onTrue, env);
    StrictEval(x.onFalse, env);
    n := SimTrinary(x, e, code, m, env);
  }
}
