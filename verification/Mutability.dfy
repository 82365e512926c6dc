/** The coder does not tell a `val` from a `var`. */
module Mutability {
  import opened Ast
  import opened Scalar
  import opened Ir
  import opened Lowering
  import opened Semantics
  import opened Structure
  import opened Meaning
  import opened Counterexamples

  /** The statement with every `val` made a `var`. */
  function AsVar(s: Stmt): Stmt
    decreases s, 0
  {
    match s
    case SymbolDef(_, x, ty, v) => SymbolDef(true, x, ty, v)
    case If(c, t, f) => If(c, AsVarOpt(t), AsVarOpt(f))
    case Loop(init, c, step, body) => Loop(AsVarOpt(init), c, AsVarOpt(step), AsVarOpt(body))
    case Block(ss) => Block(AsVarSeq(ss))
    case _ => s
  }

  function AsVarOpt(o: Option<Stmt>): Option<Stmt>
    decreases o, 1
  {
    match o
    case None => None
    case Some(s) => Some(AsVar(s))
  }

  function AsVarSeq(ss: seq<Stmt>): seq<Stmt>
    decreases ss, 1
  {
    if ss == [] then [] else [AsVar(ss[0])] + AsVarSeq(ss[1..])
  }

  lemma {:induction false} StmtAsVar(s: Stmt, e: State)
    requires Ok(e)
    ensures EncodeStmt(AsVar(s), e) == EncodeStmt(s, e)
    decreases s, 1
  {
    hide EncodeVal, EncodeGuard, FallThrough, EncodeLoop;
    match s {
      case If(_, _, _) => IfAsVar(s, e);
      case Loop(_, _, _, _) => LoopAsVar(s, e);
      case Block(ss) => SeqAsVar(ss, PushScope(e));
      case _ =>
    }
  }

  lemma {:induction false} IfAsVar(s: Stmt, e: State)
    requires s.If? && Ok(e)
    ensures EncodeStmt(AsVar(s), e) == EncodeStmt(s, e)
    decreases s, 0
  {
    hide EncodeVal, FallThrough, EncodeOpt, AsVarOpt;
    forall e1 | Ok(e1) ensures EncodeOpt(AsVarOpt(s.onTrue), e1) == EncodeOpt(s.onTrue, e1) {
      OptAsVar(s.onTrue, e1);
    }
    forall e1 | Ok(e1) ensures EncodeOpt(AsVarOpt(s.onFalse), e1) == EncodeOpt(s.onFalse, e1) {
      OptAsVar(s.onFalse, e1);
    }
  }

  lemma {:induction false} LoopAsVar(s: Stmt, e: State)
    requires s.Loop? && Ok(e)
    ensures EncodeLoop(AsVar(s), e) == EncodeLoop(s, e)
    decreases s, 0
  {
    hide EncodeGuard, FallThrough, EncodeOpt, AsVarOpt, NewBlocks;
    NewBlocksEmpty(PushScope(e), 4);
    forall e1 | Ok(e1) ensures EncodeOpt(AsVarOpt(s.init), e1) == EncodeOpt(s.init, e1) {
      OptAsVar(s.init, e1);
    }
    forall e1 | Ok(e1) ensures EncodeOpt(AsVarOpt(s.body), e1) == EncodeOpt(s.body, e1) {
      OptAsVar(s.body, e1);
    }
    forall e1 | Ok(e1) ensures EncodeOpt(AsVarOpt(s.step), e1) == EncodeOpt(s.step, e1) {
      OptAsVar(s.step, e1);
    }
  }

  lemma {:induction false} OptAsVar(o: Option<Stmt>, e: State)
    requires Ok(e)
    ensures EncodeOpt(AsVarOpt(o), e) == EncodeOpt(o, e)
    decreases o, 2
  {
    hide EncodeStmt, AsVar;
    if o.Some? {
      StmtAsVar(o.value, e);
    }
  }

  lemma {:induction false} SeqAsVar(ss: seq<Stmt>, e: State)
    requires Ok(e)
    ensures EncodeSeq(AsVarSeq(ss), e) == EncodeSeq(ss, e)
    decreases ss, 2
  {
    hide EncodeStmt, AsVar;
    if ss != [] {
      assert AsVarSeq(ss)[1..] == AsVarSeq(ss[1..]);
      StmtAsVar(ss[0], e);
      if EncodeStmt(ss[0], e).Some? {
        SeqAsVar(ss[1..], EncodeStmt(ss[0], e).value);
      }
    }
  }

  /** Programs that differ in `val` and `var` only are accepted alike, with the
      same code. */
  lemma {:induction false} ValIsVar(a: seq<Stmt>, b: seq<Stmt>)
    requires AsVarSeq(a) == AsVarSeq(b)
    ensures EncodeModule(a) == EncodeModule(b)
  {
    SeqAsVar(a, Initial);
    SeqAsVar(b, Initial);
  }

  /** `val x = 1; x = 2; return x;` */
  const Reassigned: seq<Stmt> :=
    [SymbolDef(false, "x", None, IntLit(1)), Assign(Sym("x"), IntLit(2)), Return(Some(Sym("x")))]

  /** The assignment that the manual forbids is accepted and takes effect. */
  lemma {:induction false} ValReassigned()
    ensures EncodeModule(Reassigned).Some? && CodeReturns(EncodeModule(Reassigned).value.code, Val(I32, 2))
  {
    ReassignedAccepted();
    ReassignedRuns();
    SemanticPreservation(Reassigned, Val(I32, 2));
  }

  lemma {:induction false} ReassignedAccepted()
    ensures EncodeModule(Reassigned).Some?
  {
    var ss := Reassigned;
    IntEncodes(1, Initial);
    var e1 := EncodeStmt(ss[0], Initial).value;
    assert Lookup(e1.scopes, "x") == Some(Slot(0, I32));
    IntEncodes(2, e1);
    var e2 := EncodeStmt(ss[1], e1).value;
    assert e2.scopes == e1.scopes;
    assert EncodeVal(Sym("x"), e2).value.1 == Reg(e2.nreg, I32);
    var e3 := EncodeStmt(ss[2], e2).value;
    hide EncodeStmt;
    assert ss[1..][0] == ss[1] && ss[1..][1..] == [ss[2]] && [ss[2]][1..] == [];
    assert EncodeSeq([ss[2]], e2) == Some(e3);
    assert EncodeSeq(ss[1..], e1) == Some(e3);
    assert EncodeSeq(ss, Initial) == Some(e3);
  }

  lemma {:induction false} ReassignedRuns()
    ensures Returns(Reassigned, false, Val(I32, 2)) && ScopedSeq(Reassigned) && MergeableSeq(Reassigned)
  {
    var ss := Reassigned;
    assert ss[1..][0] == ss[1] && ss[1..][1..] == [ss[2]] && [ss[2]][1..] == [];
    var env: Env := [map[], map["x" := Val(I32, 1)]];
    assert Exec(ss[0], [map[], map[]], false, 0) == Normal(env);
    var env1: Env := [map[], map["x" := Val(I32, 2)]];
    assert Exec(ss[1], env, false, 0) == Normal(env1) by {
      assert env[1]["x" := Val(I32, 2)] == env1[1];
      assert Update(env, "x", Val(I32, 2)) == env[1 := env1[1]] == env1;
    }
    assert Exec(ss[2], env1, false, 0) == Done(Val(I32, 2));
    assert ExecSeq([ss[2]], env1, false, 0) == Done(Val(I32, 2));
    assert ExecSeq(ss[1..], env, false, 0) == Done(Val(I32, 2));
    assert Run(ss, false, 0) == Done(Val(I32, 2));
    assert ScopedSeq([ss[2]]) && MergeableSeq([ss[2]]);
    assert ScopedSeq(ss[1..]) && MergeableSeq(ss[1..]);
  }
}
