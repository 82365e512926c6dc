/** What a program means, told without blocks, registers or slots: names are
    bound to values in a chain of scopes and statements have outcomes. */
module Semantics {
  import opened Ast
  import opened Scalar
  import Lowering

  /** Innermost scope last. */
  type Env = seq<map<string, Val>>

  datatype Outcome =
    | Normal(env: Env)
    | Broke(env: Env)
    | Continued(env: Env)
    | Done(val: Val)
    | Faulted
    | Timeout

  function Find(env: Env, x: string): Option<Val> {
    if env == [] then None
    else if x in env[|env| - 1] then Some(env[|env| - 1][x])
    else Find(env[..|env| - 1], x)
  }

  /** Rebinds the innermost definition of `x`. */
  function Update(env: Env, x: string, v: Val): Env {
    if env == [] then env
    else if x in env[|env| - 1] then env[|env| - 1 := env[|env| - 1][x := v]]
    else Update(env[..|env| - 1], x, v) + [env[|env| - 1]]
  }

  function Define(env: Env, x: string, v: Val): Env {
    if env == [] then env else env[|env| - 1 := env[|env| - 1][x := v]]
  }

  function Pop(env: Env): Env {
    if env == [] then env else env[..|env| - 1]
  }

  /** Whether a ternary occurs in the expression. */
  predicate HasTrinary(e: Expr) {
    match e
    case Unary(_, a) => HasTrinary(a)
    case Binary(_, l, r) => HasTrinary(l) || HasTrinary(r)
    case Trinary(_, _, _) => true
    case _ => false
  }

  /** The value of an expression of literals, operators and nothing else, as
      far as its operations have results. */
  function ConstantOf(e: Expr): Option<Val> {
    match e
    case IntLit(n) => Some(Lowering.LiteralVal(n))
    case BoolLit(b) => Some(BoolVal(b))
    case Unary(op, a) =>
      (match ConstantOf(a)
       case None => None
       case Some(v) => EvalUn(op, v))
    case Binary(op, l, r) =>
      (match (ConstantOf(l), ConstantOf(r))
       case (Some(a), Some(b)) => EvalBin(op, a, b)
       case _ => None)
    case _ => None
  }

  /** Whether the ternary's taken branch reaches a merge that knows it. */
  predicate Merges(taken: bool, t: Expr, f: Expr) {
    if taken then !HasTrinary(t)
    else !HasTrinary(f) && (ConstantOf(t).None? || ConstantOf(t) != ConstantOf(f))
  }

  /** The value of an expression; `None` is a fault. Operands are evaluated
      left to right and `&&`, `||` evaluate both. With `strict` a ternary
      faults when its taken branch does not reach a merge that knows it. */
  function Eval(e: Expr, env: Env, strict: bool): Option<Val> {
    match e
    case IntLit(n) => Some(Lowering.LiteralVal(n))
    case BoolLit(b) => Some(BoolVal(b))
    case Sym(x) => Find(env, x)
    case Unary(op, a) =>
      (match Eval(a, env, strict)
       case None => None
       case Some(v) => EvalUn(op, v))
    case Binary(op, l, r) =>
      (match (Eval(l, env, strict), Eval(r, env, strict))
       case (Some(a), Some(b)) => EvalBin(op, a, b)
       case _ => None)
    case Trinary(c, t, f) =>
      (match Eval(c, env, strict)
       case None => None
       case Some(v) =>
         if v.ty != I1 then None
         else if strict && !Merges(v.n != 0, t, f) then None
         else Eval(if v.n != 0 then t else f, env, strict))
    case _ => None
  }

  function EvalGuard(o: Option<Expr>, env: Env, strict: bool): Option<Val> {
    match o
    case None => Some(BoolVal(true))
    case Some(c) => Eval(c, env, strict)
  }

  function PopOutcome(o: Outcome): Outcome {
    match o
    case Normal(env) => Normal(Pop(env))
    case Broke(env) => Broke(Pop(env))
    case Continued(env) => Continued(Pop(env))
    case _ => o
  }

  /** `env1` cut back to the names that `env` has in its innermost scope. */
  function Trim(env1: Env, env: Env): Env {
    if env1 == [] || env == [] then env1
    else
      var top := env1[|env1| - 1];
      env1[|env1| - 1 := map x | x in top && x in env[|env| - 1] :: top[x]]
  }

  /** Executes a statement. Each loop iteration spends one unit of fuel. */
  function Exec(s: Stmt, env: Env, strict: bool, fuel: nat): Outcome
    decreases fuel, s, 1
  {
    match s
    case SymbolDef(_, x, _, v) =>
      (match Eval(v, env, strict)
       case None => Faulted
       case Some(a) => Normal(Define(env, x, a)))
    case Assign(Sym(x), r) =>
      if Find(env, x).None? then Faulted else
      (match Eval(r, env, strict)
       case None => Faulted
       case Some(a) => Normal(Update(env, x, a)))
    case Return(Some(v)) =>
      (match Eval(v, env, strict)
       case None => Faulted
       case Some(a) => Done(a))
    case If(c, t, f) =>
      (match Eval(c, env, strict)
       case None => Faulted
       case Some(a) =>
         if a.ty != I1 then Faulted
         else if a.n != 0 then ExecOpt(t, env, strict, fuel)
         else ExecOpt(f, env, strict, fuel))
    case Loop(init, _, _, _) =>
      (match ExecOpt(init, env + [map[]], strict, fuel)
       case Normal(env1) => PopOutcome(ExecLoop(s, env1, strict, fuel))
       case o => PopOutcome(o))
    case Break => Broke(env)
    case Continue => Continued(env)
    case Block(ss) => PopOutcome(ExecSeq(ss, env + [map[]], strict, fuel))
    case _ => Faulted
  }

  function ExecOpt(o: Option<Stmt>, env: Env, strict: bool, fuel: nat): Outcome
    decreases fuel, o, 2
  {
    match o
    case None => Normal(env)
    case Some(s) => Exec(s, env, strict, fuel)
  }

  /** Test, body, step, and again. `continue` goes on with the step; `break`
      skips the step and the test. */
  function ExecLoop(s: Stmt, env: Env, strict: bool, fuel: nat): Outcome
    requires s.Loop?
    decreases fuel, s, 0
  {
    if fuel == 0 then Timeout else
    match EvalGuard(s.guard, env, strict)
    case None => Faulted
    case Some(a) =>
      if a.ty != I1 then Faulted
      else if a.n == 0 then Normal(env)
      else
        match ExecOpt(s.body, env, strict, fuel - 1)
        case Normal(env1) => ExecStep(s, env, env1, strict, fuel - 1)
        case Continued(env1) => ExecStep(s, env, env1, strict, fuel - 1)
        case Broke(env1) => Normal(env1)
        case o => o
  }

  /** The step's own definition, if any, ends with the iteration. */
  function ExecStep(s: Stmt, env: Env, env1: Env, strict: bool, fuel: nat): Outcome
    requires s.Loop?
    decreases fuel, s, 3
  {
    match ExecOpt(s.step, env1, strict, fuel)
    case Normal(env2) => ExecLoop(s, Trim(env2, env), strict, fuel)
    case o => o
  }

  function ExecSeq(ss: seq<Stmt>, env: Env, strict: bool, fuel: nat): Outcome
    decreases fuel, ss, 2
  {
    if ss == [] then Normal(env) else
    match Exec(ss[0], env, strict, fuel)
    case Normal(env1) => ExecSeq(ss[1..], env1, strict, fuel)
    case o => o
  }

  /** A module starts with the root scope and one inside it; falling off its
      end is returning 0. */
  function Run(body: seq<Stmt>, strict: bool, fuel: nat): Outcome {
    match ExecSeq(body, [map[], map[]], strict, fuel)
    case Normal(_) => Done(Val(I32, 0))
    case o => o
  }

  ghost predicate Returns(body: seq<Stmt>, strict: bool, v: Val) {
    exists fuel: nat :: Run(body, strict, fuel) == Done(v)
  }

  ghost predicate Faults(body: seq<Stmt>, strict: bool) {
    exists fuel: nat :: Run(body, strict, fuel) == Faulted
  }

  ghost predicate Diverges(body: seq<Stmt>, strict: bool) {
    forall fuel: nat :: Run(body, strict, fuel) == Timeout
  }

  // ----- the programs the theorems are about -----

  /** The statements the grammar allows as a loop's init and step. */
  predicate Simple(o: Option<Stmt>) {
    o.None? || o.value.SymbolDef? || o.value.Assign?
  }

  predicate NotDef(o: Option<Stmt>) {
    o.None? || !o.value.SymbolDef?
  }

  /** Definitions stand in blocks, at module level or in a loop's init or step:
      none is itself a branch or a loop body. */
  predicate Scoped(s: Stmt)
    decreases s, 0
  {
    match s
    case If(_, t, f) => NotDef(t) && NotDef(f) && ScopedOpt(t) && ScopedOpt(f)
    case Loop(init, _, step, body) => Simple(init) && Simple(step) && NotDef(body) && ScopedOpt(body)
    case Block(ss) => ScopedSeq(ss)
    case _ => true
  }

  predicate ScopedOpt(o: Option<Stmt>)
    decreases o, 1
  {
    o.Some? ==> Scoped(o.value)
  }

  predicate ScopedSeq(ss: seq<Stmt>)
    decreases ss, 1
  {
    ss != [] ==> Scoped(ss[0]) && ScopedSeq(ss[1..])
  }
}
