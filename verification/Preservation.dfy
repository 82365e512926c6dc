/** The emitted code of a module does what the module means. */
module Preservation {
  import opened Ast
  import opened Scalar
  import opened Ir
  import opened Lowering
  import opened Semantics
  import opened Structure
  import opened Simulation

  // ----- bindings and memory -----

  lemma {:induction false} RelPush(env: Env, scopes: seq<Scope>, mem: map<nat, Val>)
    requires Rel(env, scopes, mem)
    ensures Rel(env + [map[]], scopes + [map[]], mem)
  {
  }

  lemma {:induction false} RelPop(env: Env, scopes: seq<Scope>, mem: map<nat, Val>)
    requires Rel(env, scopes, mem) && |scopes| > 0
    ensures Rel(Pop(env), scopes[..|scopes| - 1], mem)
  {
    var n := |env| - 1;
    assert forall i | 0 <= i < n :: env[..n][i] == env[i] && scopes[..n][i] == scopes[i];
  }

  /** A definition takes a slot of its own, so no other binding changes. */
  lemma {:induction false} RelDefine(env: Env, scopes: seq<Scope>, mem: map<nat, Val>, slot: nat, x: string, v: Val, ty: Ty)
    requires Rel(env, scopes, mem) && SlotsOk(scopes, slot) && |scopes| > 0
    ensures Rel(Define(env, x, v), scopes[|scopes| - 1 := scopes[|scopes| - 1][x := Slot(slot, ty)]],
                (mem - {slot})[slot := v])
  {
    var n := |scopes| - 1;
    var scopes1 := scopes[n := scopes[n][x := Slot(slot, ty)]];
    var env1 := Define(env, x, v);
    var mem1 := (mem - {slot})[slot := v];
    assert env1[n].Keys == scopes1[n].Keys;
    forall i, y | 0 <= i < |env1| && y in env1[i]
      ensures scopes1[i][y].Slot? && scopes1[i][y].id in mem1 && mem1[scopes1[i][y].id] == env1[i][y]
    {
      if !(i == n && y == x) {
        assert y in env[i] && scopes1[i][y] == scopes[i][y];
      }
    }
  }

  lemma {:induction false} UpdateAt(env: Env, x: string, v: Val)
    requires Find(env, x).Some?
    ensures |Update(env, x, v)| == |env|
    ensures exists k :: 0 <= k < |env| && x in env[k] && (forall j | k < j < |env| :: x !in env[j])
                        && Update(env, x, v) == env[k := env[k][x := v]]
  {
    var n := |env| - 1;
    if x !in env[n] {
      UpdateAt(env[..n], x, v);
      var k :| 0 <= k < n && x in env[..n][k] && (forall j | k < j < n :: x !in env[..n][j])
               && Update(env[..n], x, v) == env[..n][k := env[..n][k][x := v]];
      assert forall j | 0 <= j < n :: env[..n][j] == env[j];
      assert env == env[..n] + [env[n]];
      assert Update(env, x, v) == env[k := env[k][x := v]];
    } else {
      assert Update(env, x, v) == env[n := env[n][x := v]];
    }
  }

  lemma {:induction false} RelStore(env: Env, scopes: seq<Scope>, mem: map<nat, Val>, nslot: nat, k: nat, x: string, v: Val)
    requires Rel(env, scopes, mem) && SlotsOk(scopes, nslot) && k < |env| && x in env[k] && x in scopes[k]
    ensures Rel(env[k := env[k][x := v]], scopes, mem[scopes[k][x].id := v])
  {
    var env1 := env[k := env[k][x := v]];
    var mem1 := mem[scopes[k][x].id := v];
    assert env1[k].Keys == env[k].Keys;
    forall i, y | 0 <= i < |env1| && y in env1[i]
      ensures scopes[i][y].Slot? && scopes[i][y].id in mem1 && mem1[scopes[i][y].id] == env1[i][y]
    {
      assert y in env[i] && y in scopes[i];
    }
  }

  /** What `Update` rebinds is what `Lookup` finds. */
  lemma {:induction false} UpdateFound(env: Env, scopes: seq<Scope>, x: string, v: Val) returns (k: nat)
    requires |env| == |scopes| && (forall i | 0 <= i < |env| :: env[i].Keys == scopes[i].Keys)
    requires Find(env, x).Some? && Lookup(scopes, x).Some?
    ensures k < |env| && x in env[k] && x in scopes[k] && scopes[k][x] == Lookup(scopes, x).value
    ensures Update(env, x, v) == env[k := env[k][x := v]]
  {
    hide Lookup, Find, Update;
    LookupIn(scopes, x);
    UpdateAt(env, x, v);
    k :| 0 <= k < |env| && x in env[k] && (forall j | k < j < |env| :: x !in env[j])
         && Update(env, x, v) == env[k := env[k][x := v]];
    var i :| 0 <= i < |scopes| && x in scopes[i] && scopes[i][x] == Lookup(scopes, x).value
             && forall j | i < j < |scopes| :: x !in scopes[j];
    assert x in env[i] && x in scopes[k];
    assert i == k;
  }

  /** Assigning stores to the slot of the innermost binding, and of it alone. */
  lemma {:induction false} RelUpdate(env: Env, scopes: seq<Scope>, mem: map<nat, Val>, nslot: nat, x: string, v: Val)
    requires Rel(env, scopes, mem) && SlotsOk(scopes, nslot) && Find(env, x).Some?
    ensures Lookup(scopes, x).Some? && Lookup(scopes, x).value.Slot?
    ensures Rel(Update(env, x, v), scopes, mem[Lookup(scopes, x).value.id := v])
  {
    hide SlotsOk;
    RelLookup(env, scopes, mem, x);
    var k := UpdateFound(env, scopes, x, v);
    hide Rel;
    RelStore(env, scopes, mem, nslot, k, x, v);
  }

  /** The names a loop's step defines go at the end of the iteration. */
  lemma {:induction false} RelTrim(env1: Env, scopes1: seq<Scope>, mem: map<nat, Val>, env: Env, scopes: seq<Scope>, mem0: map<nat, Val>)
    requires Rel(env1, scopes1, mem) && Rel(env, scopes, mem0) && NamesGrow(scopes, scopes1) && |scopes| > 0
    ensures Rel(Trim(env1, env), scopes, mem)
  {
    var n := |scopes| - 1;
    var env2 := Trim(env1, env);
    assert env[n].Keys == scopes[n].Keys && env1[n].Keys == scopes1[n].Keys;
    assert env2[n].Keys == scopes[n].Keys;
    forall i, x | 0 <= i < |env2| && x in env2[i]
      ensures scopes[i][x].Slot? && scopes[i][x].id in mem && mem[scopes[i][x].id] == env2[i][x]
    {
      assert x in scopes[i] && x in env1[i] && env1[i][x] == env2[i][x];
      assert scopes1[i][x] == scopes[i][x];
    }
    forall i | 0 <= i < |env2| ensures env2[i].Keys == scopes[i].Keys {
      if i < n {
        assert env2[i] == env1[i] && scopes1[i] == scopes[i];
      }
    }
  }

  // ----- statements -----

  /** Where the machine is after a statement: where the encoder stood, at the
      loop's end or step, returned, stuck, or still running after as many
      instructions as the fuel that was spent. */
  ghost predicate StmtDone(o: Outcome, m1: Machine, n: nat, fuel: nat, e: State, e1: State) {
    match o
    case Normal(env) =>
      At(m1, e1) && Rel(env, e1.scopes, m1.mem) && !EndsInTerminator(e1.code[e1.active])
    case Broke(env) => e.brk.Some? && AtBlock(m1, e.brk.value) && Rel(env, e.scopes, m1.mem)
    case Continued(env) => e.cont.Some? && AtBlock(m1, e.cont.value) && Rel(env, e.scopes, m1.mem)
    case Done(v) => m1 == Returned(v)
    case Faulted => m1 == Stuck
    case Timeout => m1.Running? && n >= fuel
  }

  /** The same for a sequence, which may leave by a jump after definitions. */
  ghost predicate SeqDone(o: Outcome, m1: Machine, n: nat, fuel: nat, e: State, e1: State)
    requires Ok(e)
  {
    match o
    case Broke(env) =>
      e.brk.Some? && AtBlock(m1, e.brk.value) && Rel(Pop(env), e.scopes[..|e.scopes| - 1], m1.mem)
    case Continued(env) =>
      e.cont.Some? && AtBlock(m1, e.cont.value) && Rel(Pop(env), e.scopes[..|e.scopes| - 1], m1.mem)
    case _ => StmtDone(o, m1, n, fuel, e, e1)
  }

  /** What a simulation lemma needs of its starting point. */
  ghost predicate Ready(e: State, e1: State, code: Code, m: Machine, env: Env) {
    && Ok(e) && SlotsOk(e.scopes, e.nslot)
    && At(m, e) && Rel(env, e.scopes, m.mem) && Extends(e1.code, code)
    && !EndsInTerminator(e.code[e.active])
  }

  lemma {:induction false} SimStmt(s: Stmt, e: State, code: Code, m: Machine, env: Env, fuel: nat)
      returns (n: nat)
    requires Ok(e) && EncodeStmt(s, e).Some? && Scoped(s)
    requires Ready(e, EncodeStmt(s, e).value, code, m, env)
    ensures StmtDone(Exec(s, env, true, fuel), Steps(code, m, n), n, fuel, e, EncodeStmt(s, e).value)
    decreases fuel, s, 3
  {
    hide SlotsOk, Rel;
    n := 0;
    match s {
      case SymbolDef(_, _, _, _) => n := SimSymbolDef(s, e, code, m, env, fuel);
      case Assign(_, _) => n := SimAssign(s, e, code, m, env, fuel);
      case Return(Some(v)) =>
        FrameVal(v, e);
        var (e1, o) := EncodeVal(v, e).value;
        EmitExtends(e1, Ret(o), code);
        n := SimVal(v, e, code, m, env);
        if Eval(v, env, true).Some? {
          StepEmitted(e1, Ret(o), code, Steps(code, m, n));
          StepsAdd(code, m, n, 1);
          n := n + 1;
        }
      case If(_, _, _) => n := SimIf(s, e, code, m, env, fuel);
      case Loop(_, _, _, _) => n := SimLoop(s, e, code, m, env, fuel);
      case Break =>
        StepEmitted(e, Jump(e.brk.value), code, m);
        n := 1;
      case Continue =>
        StepEmitted(e, Jump(e.cont.value), code, m);
        n := 1;
      case Block(ss) => n := SimBlock(s, e, code, m, env, fuel);
      case _ =>
    }
  }

  lemma {:induction false} SimOpt(o: Option<Stmt>, e: State, code: Code, m: Machine, env: Env, fuel: nat)
      returns (n: nat)
    requires Ok(e) && EncodeOpt(o, e).Some? && ScopedOpt(o)
    requires Ready(e, EncodeOpt(o, e).value, code, m, env)
    ensures StmtDone(ExecOpt(o, env, true, fuel), Steps(code, m, n), n, fuel, e, EncodeOpt(o, e).value)
    decreases fuel, o, 4
  {
    hide SlotsOk, Rel;
    if o.None? {
      n := 0;
    } else {
      n := SimStmt(o.value, e, code, m, env, fuel);
    }
  }

  lemma {:induction false} SimSeq(ss: seq<Stmt>, e: State, code: Code, m: Machine, env: Env, fuel: nat)
      returns (n: nat)
    requires Ok(e) && EncodeSeq(ss, e).Some? && ScopedSeq(ss)
    requires Ready(e, EncodeSeq(ss, e).value, code, m, env)
    ensures SeqDone(ExecSeq(ss, env, true, fuel), Steps(code, m, n), n, fuel, e, EncodeSeq(ss, e).value)
    decreases fuel, ss, 4
  {
    hide SlotsOk, Rel, NamesGrow;
    if ss == [] {
      n := 0;
    } else {
      var e1 := EncodeStmt(ss[0], e).value;
      FrameStmt(ss[0], e);
      FrameSeq(ss[1..], e1);
      PartExtends(e1, EncodeSeq(ss[1..], e1).value, code);
      assert EncodeSeq(ss, e) == EncodeSeq(ss[1..], e1);
      var o := Exec(ss[0], env, true, fuel);
      assert ExecSeq(ss, env, true, fuel) ==
             if o.Normal? then ExecSeq(ss[1..], o.env, true, fuel) else o;
      hide EncodeStmt, EncodeSeq, Exec, ExecSeq, Frame, Extends;
      n := SimStmt(ss[0], e, code, m, env, fuel);
      var m1 := Steps(code, m, n);
      if o.Normal? {
        var e2 := EncodeSeq(ss[1..], e1).value;
        assert Ready(e1, e2, code, m1, o.env);
        hide StmtDone, SeqDone, Ready;
        var k := SimSeq(ss[1..], e1, code, m1, o.env, fuel);
        StepsAdd(code, m, n, k);
        SeqCons(ExecSeq(ss[1..], o.env, true, fuel), Steps(code, m1, k), k, n + k, fuel, e, e1, e2);
        n := n + k;
      } else {
        LeavesSeq(o, m1, n, fuel, e, e1, EncodeSeq(ss, e).value);
      }
    }
  }

  lemma {:induction false} LeavesSeq(o: Outcome, m: Machine, n: nat, fuel: nat, e: State, e1: State, e2: State)
    requires Ok(e) && StmtDone(o, m, n, fuel, e, e1) && !o.Normal?
    ensures SeqDone(o, m, n, fuel, e, e2)
  {
    match o {
      case Broke(env1) => RelPop(env1, e.scopes, m.mem);
      case Continued(env1) => RelPop(env1, e.scopes, m.mem);
      case _ =>
    }
  }

  lemma {:induction false} SeqCons(o: Outcome, m: Machine, k: nat, n: nat, fuel: nat, e: State, e1: State, e2: State)
    requires StmtFrame(e, e1) && SeqDone(o, m, k, fuel, e1, e2) && k <= n
    ensures SeqDone(o, m, n, fuel, e, e2)
  {
    SameOuter(e.scopes, e1.scopes);
  }

  lemma {:induction false} SameOuter(a: seq<Scope>, b: seq<Scope>)
    requires NamesGrow(a, b) && |a| > 0
    ensures |b| == |a| && b[..|b| - 1] == a[..|a| - 1]
  {
  }

  lemma {:induction false} SimBlock(s: Stmt, e: State, code: Code, m: Machine, env: Env, fuel: nat)
      returns (n: nat)
    requires s.Block? && Ok(e) && EncodeStmt(s, e).Some? && Scoped(s)
    requires Ready(e, EncodeStmt(s, e).value, code, m, env)
    ensures StmtDone(Exec(s, env, true, fuel), Steps(code, m, n), n, fuel, e, EncodeStmt(s, e).value)
    decreases fuel, s, 2
  {
    hide SlotsOk, Rel, NamesGrow;
    var e0 := PushScope(e);
    SlotsOkPush(e.scopes, e.nslot);
    RelPush(env, e.scopes, m.mem);
    FrameSeq(s.stmts, e0);
    var e1 := EncodeSeq(s.stmts, e0).value;
    ScopeExit(e, e1);
    SameOuter(e0.scopes, e1.scopes);
    assert e0.scopes[..|e0.scopes| - 1] == e.scopes;
    assert PopScope(e1) == e1.(scopes := e1.scopes[..|e1.scopes| - 1]);
    assert EncodeStmt(s, e) == Some(PopScope(e1));
    assert Exec(s, env, true, fuel) == PopOutcome(ExecSeq(s.stmts, env + [map[]], true, fuel));
    hide EncodeStmt, EncodeSeq, Exec, ExecSeq, Frame, Extends;
    n := SimSeq(s.stmts, e0, code, m, env + [map[]], fuel);
    var m1 := Steps(code, m, n);
    match ExecSeq(s.stmts, env + [map[]], true, fuel) {
      case Normal(env1) => RelPop(env1, e1.scopes, m1.mem);
      case _ =>
    }
  }

  lemma {:induction false} SimSymbolDef(s: Stmt, e: State, code: Code, m: Machine, env: Env, fuel: nat)
      returns (n: nat)
    requires s.SymbolDef? && Ok(e) && EncodeStmt(s, e).Some?
    requires Ready(e, EncodeStmt(s, e).value, code, m, env)
    ensures StmtDone(Exec(s, env, true, fuel), Steps(code, m, n), n, fuel, e, EncodeStmt(s, e).value)
    decreases fuel, s, 1
  {
    hide SlotsOk, Rel;
    FrameVal(s.value, e);
    var (e1, o) := EncodeVal(s.value, e).value;
    var slot := e1.nslot;
    var e2 := Emit(e1, Alloc(slot));
    var e3 := Emit(e2, Store(slot, o));
    EmitExtends(e2, Store(slot, o), code);
    EmitExtends(e1, Alloc(slot), code);
    n := SimVal(s.value, e, code, m, env);
    if Eval(s.value, env, true).Some? {
      var v := Eval(s.value, env, true).value;
      var m1 := Steps(code, m, n);
      StepEmitted(e1, Alloc(slot), code, m1);
      var m2 := Steps(code, m1, 1);
      StepEmitted(e2, Store(slot, o), code, m2);
      StepsAdd(code, m, n, 1);
      StepsAdd(code, m, n + 1, 1);
      RelDefine(env, e.scopes, m.mem, slot, s.name, v, OpTy(o));
      n := n + 2;
    }
  }

  lemma {:induction false} SimAssign(s: Stmt, e: State, code: Code, m: Machine, env: Env, fuel: nat)
      returns (n: nat)
    requires s.Assign? && Ok(e) && EncodeStmt(s, e).Some?
    requires Ready(e, EncodeStmt(s, e).value, code, m, env)
    ensures StmtDone(Exec(s, env, true, fuel), Steps(code, m, n), n, fuel, e, EncodeStmt(s, e).value)
    decreases fuel, s, 1
  {
    hide SlotsOk, Rel;
    FrameAssign(s, e);
    var x := s.left.name;
    FrameVal(s.right, e);
    var (e2, o) := EncodeVal(s.right, e).value;
    var slot := Lookup(e.scopes, x).value.id;
    RelLookup(env, e.scopes, m.mem, x);
    EmitExtends(e2, Store(slot, o), code);
    n := SimVal(s.right, e, code, m, env);
    if Eval(s.right, env, true).Some? {
      var v := Eval(s.right, env, true).value;
      StepEmitted(e2, Store(slot, o), code, Steps(code, m, n));
      StepsAdd(code, m, n, 1);
      RelUpdate(env, e.scopes, m.mem, e.nslot, x, v);
      n := n + 1;
    }
  }

  /** From the end of a branch or body, over the one jump that closes it. */
  lemma {:induction false} SimFallThrough(s: State, e: State, target: nat, code: Code, m: Machine)
    requires Frame(s, e) && At(m, e) && !EndsInTerminator(e.code[e.active])
    requires Extends(FallThrough(e, s.active, target).code, code)
    ensures AtBlock(Steps(code, m, 1), target) && Steps(code, m, 1).mem == m.mem
  {
    OneFallThroughJump(s, e, target);
    StepEmitted(e, Jump(target), code, m);
  }

  lemma {:induction false} SimIf(s: Stmt, e: State, code: Code, m: Machine, env: Env, fuel: nat)
      returns (n: nat)
    requires s.If? && Ok(e) && EncodeStmt(s, e).Some? && Scoped(s)
    requires Ready(e, EncodeStmt(s, e).value, code, m, env)
    ensures StmtDone(Exec(s, env, true, fuel), Steps(code, m, n), n, fuel, e, EncodeStmt(s, e).value)
    decreases fuel, s, 2
  {
    hide SlotsOk, Rel, NamesGrow, EncodeStmt, EncodeOpt, EncodeVal, IfOf, Extends, FallThrough, Frame;
    var t := IfOf(s, e);
    var b := |e.code|;
    FrameIf(s, e);
    IfExtends(s, e, code);
    n := SimVal(s.cond, t.s0, code, m, env);
    var c := Eval(s.cond, env, true);
    if c.Some? {
      var m1 := Steps(code, m, n);
      StepEmitted(t.e1, JumpCond(t.oc, b, b + 1), code, m1);
      StepsAdd(code, m, n, 1);
      n := n + 1;
      if c.value.ty == I1 {
        var k := SimBranch(s, e, code, Steps(code, m1, 1), env, fuel, c.value.n != 0);
        StepsAdd(code, m, n, k);
        n := n + k;
      }
    }
  }

  /** The taken branch, to the block after the `if`. */
  lemma {:induction false} SimBranch(s: Stmt, e: State, code: Code, m: Machine, env: Env, fuel: nat, taken: bool)
      returns (n: nat)
    requires s.If? && Ok(e) && SlotsOk(e.scopes, e.nslot) && EncodeStmt(s, e).Some? && Scoped(s)
    requires At(m, if taken then IfOf(s, e).s2 else IfOf(s, e).s3) && Rel(env, e.scopes, m.mem)
    requires Extends(EncodeStmt(s, e).value.code, code)
    ensures StmtDone(ExecOpt(if taken then s.onTrue else s.onFalse, env, true, fuel),
                     Steps(code, m, n), n, fuel, e, EncodeStmt(s, e).value)
    decreases fuel, s, 1
  {
    hide SlotsOk, Rel, NamesGrow, EncodeStmt, EncodeOpt, EncodeVal, IfOf, Extends, FallThrough, Frame;
    var t := IfOf(s, e);
    FrameIf(s, e);
    IfExtends(s, e, code);
    ScopedKeepsIf(s, e);
    var y := if taken then s.onTrue else s.onFalse;
    var s1, e1 := if taken then t.s2 else t.s3, if taken then t.e2 else t.e3;
    n := SimOpt(y, s1, code, m, env, fuel);
    if ExecOpt(y, env, true, fuel).Normal? {
      SimFallThrough(s1, e1, |e.code| + 2, code, Steps(code, m, n));
      StepsAdd(code, m, n, 1);
      n := n + 1;
    }
  }

  lemma {:induction false} SimLoop(s: Stmt, e: State, code: Code, m: Machine, env: Env, fuel: nat)
      returns (n: nat)
    requires s.Loop? && Ok(e) && EncodeStmt(s, e).Some? && Scoped(s)
    requires Ready(e, EncodeStmt(s, e).value, code, m, env)
    ensures StmtDone(Exec(s, env, true, fuel), Steps(code, m, n), n, fuel, e, EncodeStmt(s, e).value)
    decreases fuel, s, 2
  {
    hide SlotsOk, Rel, NamesGrow, EncodeStmt, EncodeOpt, EncodeGuard, LoopOf, Extends, FallThrough, ExecOpt, ExecLoop, Frame;
    var t := LoopOf(s, e);
    var b := |e.code|;
    FrameLoop(s, e);
    LoopExtends(s, e, code);
    RelPush(env, e.scopes, m.mem);
    n := SimSimple(s.init, t.s0, code, m, env + [map[]], fuel);
    match ExecOpt(s.init, env + [map[]], true, fuel) {
      case Normal(env1) =>
        var m1 := Steps(code, m, n);
        StepEmitted(t.e1, Jump(b), code, m1);
        StepsAdd(code, m, n, 1);
        n := n + 1;
        var m2 := Steps(code, m1, 1);
        var k := SimIterations(s, e, code, m2, env1, fuel);
        StepsAdd(code, m, n, k);
        n := n + k;
        LoopPops(s, e);
        match ExecLoop(s, env1, true, fuel) {
          case Normal(env2) => RelPop(env2, t.s1.scopes, Steps(code, m2, k).mem);
          case _ =>
        }
      case _ =>
    }
  }

  lemma {:induction false} LoopPops(s: Stmt, e: State)
    requires s.Loop? && Ok(e) && SlotsOk(e.scopes, e.nslot) && EncodeStmt(s, e).Some?
    ensures var t := LoopOf(s, e);
            |t.s1.scopes| > 0 && t.s1.scopes[..|t.s1.scopes| - 1] == e.scopes
            && Starts(EncodeStmt(s, e).value, |e.code| + 3)
  {
    hide SlotsOk, NamesGrow, EncodeStmt, LoopOf;
    var t := LoopOf(s, e);
    FrameLoop(s, e);
    SameOuter(t.s0.scopes, t.s1.scopes);
  }

  /** A loop's init or step ends normally or faults. */
  lemma {:induction false} SimSimple(o: Option<Stmt>, e: State, code: Code, m: Machine, env: Env, fuel: nat)
      returns (n: nat)
    requires Ok(e) && EncodeOpt(o, e).Some? && Simple(o)
    requires Ready(e, EncodeOpt(o, e).value, code, m, env)
    ensures var r := ExecOpt(o, env, true, fuel);
            (r.Normal? || r.Faulted?)
            && StmtDone(r, Steps(code, m, n), n, fuel, e, EncodeOpt(o, e).value)
    decreases fuel, o, 2
  {
    hide SlotsOk, Rel;
    match o {
      case None => n := 0;
      case Some(s) =>
        if s.SymbolDef? {
          n := SimSymbolDef(s, e, code, m, env, fuel);
        } else {
          FrameAssign(s, e);
          n := SimAssign(s, e, code, m, env, fuel);
        }
    }
  }

  /** Where the machine is after a loop's iterations: at the block after it. */
  ghost predicate LoopDone(o: Outcome, m1: Machine, n: nat, fuel: nat, after: nat, scopes: seq<Scope>) {
    match o
    case Normal(env) => AtBlock(m1, after) && Rel(env, scopes, m1.mem)
    case Broke(_) => false
    case Continued(_) => false
    case Done(v) => m1 == Returned(v)
    case Faulted => m1 == Stuck
    case Timeout => m1.Running? && n >= fuel
  }

  /** The cond, body and step blocks of a loop run its iterations. */
  lemma {:induction false} SimIterations(s: Stmt, e: State, code: Code, m: Machine, env: Env, fuel: nat)
      returns (n: nat)
    requires s.Loop? && Ok(e) && SlotsOk(e.scopes, e.nslot) && EncodeStmt(s, e).Some? && Scoped(s)
    requires At(m, LoopOf(s, e).s1) && Rel(env, LoopOf(s, e).s1.scopes, m.mem)
    requires Extends(EncodeStmt(s, e).value.code, code)
    ensures LoopDone(ExecLoop(s, env, true, fuel), Steps(code, m, n), n, fuel,
                     |e.code| + 3, LoopOf(s, e).s1.scopes)
    decreases fuel, s, 1
  {
    hide SlotsOk, Rel, NamesGrow, EncodeStmt, EncodeOpt, EncodeGuard, LoopOf, Extends, FallThrough, Exec, ExecOpt, Frame;
    n := 0;
    if fuel != 0 {
      var t := LoopOf(s, e);
      var b := |e.code|;
      FrameLoop(s, e);
      LoopExtends(s, e, code);
      n := SimGuard(s.guard, t.s1, code, m, env);
      var c := EvalGuard(s.guard, env, true);
      if c.Some? {
        var m1 := Steps(code, m, n);
        StepEmitted(t.e2, JumpCond(t.oc, b + 2, b + 3), code, m1);
        StepsAdd(code, m, n, 1);
        n := n + 1;
        if c.value.ty == I1 && c.value.n != 0 {
          var k := SimBody(s, e, code, Steps(code, m1, 1), env, fuel - 1);
          StepsAdd(code, m, n, k);
          n := n + k;
        }
      }
    }
  }

  /** From the start of the body block: the body, the step, and the rest. */
  lemma {:induction false} SimBody(s: Stmt, e: State, code: Code, m: Machine, env: Env, fuel: nat)
      returns (n: nat)
    requires s.Loop? && Ok(e) && SlotsOk(e.scopes, e.nslot) && EncodeStmt(s, e).Some? && Scoped(s)
    requires At(m, LoopOf(s, e).s2) && Rel(env, LoopOf(s, e).s1.scopes, m.mem)
    requires Extends(EncodeStmt(s, e).value.code, code)
    ensures var r := match ExecOpt(s.body, env, true, fuel)
                     case Normal(env1) => ExecStep(s, env, env1, true, fuel)
                     case Continued(env1) => ExecStep(s, env, env1, true, fuel)
                     case Broke(env1) => Normal(env1)
                     case o => o;
            LoopDone(r, Steps(code, m, n), n, fuel, |e.code| + 3, LoopOf(s, e).s1.scopes)
    decreases fuel, s, 3
  {
    hide SlotsOk, Rel, NamesGrow, EncodeStmt, EncodeOpt, EncodeGuard, LoopOf, Extends, FallThrough, Exec, ExecOpt, Frame;
    var t := LoopOf(s, e);
    FrameLoop(s, e);
    LoopExtends(s, e, code);
    ScopedKeepsLoop(s, e);
    n := SimOpt(s.body, t.s2, code, m, env, fuel);
    var m1 := Steps(code, m, n);
    match ExecOpt(s.body, env, true, fuel) {
      case Normal(env1) =>
        SimFallThrough(t.s2, t.e3, |e.code| + 1, code, m1);
        StepsAdd(code, m, n, 1);
        n := n + 1;
        var k := SimStep(s, e, code, Steps(code, m1, 1), env, env1, m.mem, fuel);
        StepsAdd(code, m, n, k);
        n := n + k;
      case Continued(env1) =>
        var k := SimStep(s, e, code, m1, env, env1, m.mem, fuel);
        StepsAdd(code, m, n, k);
        n := n + k;
      case _ =>
    }
  }

  /** From the start of the step block, back to the test. */
  lemma {:induction false} SimStep(s: Stmt, e: State, code: Code, m: Machine, env: Env, env1: Env,
                                   mem0: map<nat, Val>, fuel: nat)
      returns (n: nat)
    requires s.Loop? && Ok(e) && SlotsOk(e.scopes, e.nslot) && EncodeStmt(s, e).Some? && Scoped(s)
    requires At(m, LoopOf(s, e).s3) && Rel(env1, LoopOf(s, e).s1.scopes, m.mem)
    requires Rel(env, LoopOf(s, e).s1.scopes, mem0)
    requires Extends(EncodeStmt(s, e).value.code, code)
    ensures LoopDone(ExecStep(s, env, env1, true, fuel), Steps(code, m, n), n, fuel,
                     |e.code| + 3, LoopOf(s, e).s1.scopes)
    decreases fuel, s, 2
  {
    hide SlotsOk, Rel, NamesGrow, EncodeStmt, EncodeOpt, EncodeGuard, LoopOf, Extends, FallThrough, Exec, ExecOpt, Frame;
    var t := LoopOf(s, e);
    var b := |e.code|;
    FrameLoop(s, e);
    LoopExtends(s, e, code);
    ScopedKeepsLoop(s, e);
    n := SimSimple(s.step, t.s3, code, m, env1, fuel);
    var r := ExecOpt(s.step, env1, true, fuel);
    if r.Normal? {
      var m1 := Steps(code, m, n);
      StepEmitted(t.e4, Jump(b), code, m1);
      StepsAdd(code, m, n, 1);
      n := n + 1;
      RelTrim(r.env, t.e4.scopes, m1.mem, env, t.s1.scopes, mem0);
      var k := SimIterations(s, e, code, Steps(code, m1, 1), Trim(r.env, env), fuel);
      StepsAdd(code, m, n, k);
      n := n + k;
    }
  }

  lemma {:induction false} SimGuard(o: Option<Expr>, e: State, code: Code, m: Machine, env: Env) returns (n: nat)
    requires Ok(e) && SlotsOk(e.scopes, e.nslot) && EncodeGuard(o, e).Some?
    requires At(m, e) && Rel(env, e.scopes, m.mem) && Extends(EncodeGuard(o, e).value.0.code, code)
    ensures var (e1, v) := EncodeGuard(o, e).value;
            var r := EvalGuard(o, env, true);
            var m1 := Steps(code, m, n);
            ExprDone(r, v, m, m1, e1, e.nreg) && (r.Some? ==> Read(v, m1.regs) == r)
  {
    match o {
      case None => n := 0;
      case Some(c) => n := SimVal(c, e, code, m, env);
    }
  }

  // ----- the module -----

  /** Entry to exit: returned, stuck, or running after as many instructions as
      the fuel that was spent. */
  lemma {:induction false} SimModule(body: seq<Stmt>, fuel: nat) returns (n: nat)
    requires EncodeModule(body).Some? && ScopedSeq(body)
    ensures var m := Steps(EncodeModule(body).value.code, Start, n);
            match Run(body, true, fuel)
            case Done(v) => m == Returned(v)
            case Faulted => m == Stuck
            case Timeout => m.Running? && n >= fuel
            case _ => false
  {
    hide EncodeSeq, ExecSeq;
    var e := EncodeSeq(body, Initial).value;
    var e1 := EnsureTailRet(e);
    var code := e1.code;
    assert SlotsOk(Initial.scopes, Initial.nslot);
    var env: Env := [map[], map[]];
    assert Rel(env, Initial.scopes, Start.mem);
    var ret := Ret(Const(Val(I32, 0)));
    FrameEmit(e, ret);
    assert Extends(e.code, code);
    n := SimSeq(body, Initial, code, Start, env, fuel);
    match ExecSeq(body, env, true, fuel) {
      case Normal(_) =>
        StepEmitted(e, ret, code, Steps(code, Start, n));
        StepsAdd(code, Start, n, 1);
        n := n + 1;
      case _ =>
    }
  }

  /** For every accepted program with scoped definitions: the emitted code
      returns, faults and diverges exactly as strict evaluation does. */
  lemma {:induction false} StrictPreservation(body: seq<Stmt>, v: Val)
    requires EncodeModule(body).Some? && ScopedSeq(body)
    ensures var code := EncodeModule(body).value.code;
            && (CodeReturns(code, v) <==> Returns(body, true, v))
            && (CodeFaults(code) <==> Faults(body, true))
            && (CodeDiverges(code) <==> Diverges(body, true))
  {
    hide EncodeModule, Run, Steps;
    var code := EncodeModule(body).value.code;
    if Returns(body, true, v) {
      var fuel: nat :| Run(body, true, fuel) == Done(v);
      var n := SimModule(body, fuel);
    }
    if Faults(body, true) {
      var fuel: nat :| Run(body, true, fuel) == Faulted;
      var n := SimModule(body, fuel);
    }
    if Diverges(body, true) {
      forall n: nat ensures Steps(code, Start, n).Running? {
        var k := SimModule(body, n);
        RunningBefore(code, Start, n, k);
      }
    }
    if n: nat :| !Steps(code, Start, n).Running? {
      HaltAgrees(body, n);
    } else {
      forall fuel: nat ensures Run(body, true, fuel) == Timeout {
        var k := SimModule(body, fuel);
      }
    }
  }

  /** When the code has halted after `n` instructions, the source has by fuel n + 1. */
  lemma {:induction false} HaltAgrees(body: seq<Stmt>, n: nat)
    requires EncodeModule(body).Some? && ScopedSeq(body)
    requires !Steps(EncodeModule(body).value.code, Start, n).Running?
    ensures match Steps(EncodeModule(body).value.code, Start, n)
            case Returned(v) => Run(body, true, n + 1) == Done(v)
            case Stuck => Run(body, true, n + 1) == Faulted
    ensures forall k: nat | !Steps(EncodeModule(body).value.code, Start, k).Running? ::
              Steps(EncodeModule(body).value.code, Start, k) == Steps(EncodeModule(body).value.code, Start, n)
  {
    hide EncodeModule, Run, Steps;
    var code := EncodeModule(body).value.code;
    var k := SimModule(body, n + 1);
    if Steps(code, Start, k).Running? {
      RunningBefore(code, Start, n, k);
    }
    HaltUnique(code, Start, n, k);
    forall j: nat | !Steps(code, Start, j).Running? ensures Steps(code, Start, j) == Steps(code, Start, n) {
      HaltUnique(code, Start, j, n);
    }
  }
}
