/** The machine running emitted code follows the evaluation of the source. */
module Simulation {
  import opened Ast
  import opened Scalar
  import opened Ir
  import opened Lowering
  import opened Semantics
  import opened Structure

  /** The machine is where the encoder stood in state `e`. */
  predicate At(m: Machine, e: State) {
    m.Running? && e.active < |e.code| && m.blk == e.active && m.pc == |e.code[e.active]|
  }

  predicate AtBlock(m: Machine, b: nat) {
    m.Running? && m.blk == b && m.pc == 0
  }

  /** Every bound name has its value in the slot that its scope entry names. */
  ghost predicate Rel(env: Env, scopes: seq<Scope>, mem: map<nat, Val>) {
    && |env| == |scopes|
    && (forall i | 0 <= i < |env| :: env[i].Keys == scopes[i].Keys)
    && (forall i, x | 0 <= i < |env| && x in env[i] ::
          scopes[i][x].Slot? && scopes[i][x].id in mem && mem[scopes[i][x].id] == env[i][x])
  }

  predicate RegsKept(r: map<nat, Val>, r1: map<nat, Val>, below: nat) {
    forall i | i in r && i < below :: i in r1 && r1[i] == r[i]
  }

  /** The operand stands for the value `v`. */
  predicate Holds(o: Operand, v: Val, m: Machine)
    requires m.Running?
  {
    match o
    case Const(c) => c == v
    case Reg(r, _) => r in m.regs && m.regs[r] == v
    case Slot(s, _) => s in m.mem && m.mem[s] == v
  }

  /** The machine has run on from `m` to where the encoder stood in `e1`,
      without touching memory or the registers below `below`. */
  predicate Arrives(m: Machine, m1: Machine, e1: State, below: nat)
    requires m.Running?
  {
    At(m1, e1) && m1.mem == m.mem && RegsKept(m.regs, m1.regs, below)
  }

  /** The next instruction is the one emitted from here. */
  lemma {:induction false} StepEmitted(e: State, i: Instr, code: Code, m: Machine)
    requires Ok(e) && At(m, e) && Extends(Emit(e, i).code, code)
    ensures Steps(code, m, 1) == Exec1(i, m)
  {
    var c := Emit(e, i).code[e.active];
    assert c <= code[e.active];
    assert code[e.active][m.pc] == c[m.pc] == i;
    assert Steps(code, m, 1) == Steps(code, Step(code, m), 0);
  }

  lemma {:induction false} RelLookup(env: Env, scopes: seq<Scope>, mem: map<nat, Val>, x: string)
    requires Rel(env, scopes, mem)
    ensures Find(env, x).Some? <==> Lookup(scopes, x).Some?
    ensures Find(env, x).Some? ==>
              var o := Lookup(scopes, x).value;
              o.Slot? && o.id in mem && mem[o.id] == Find(env, x).value
  {
    if env != [] && x !in env[|env| - 1] {
      var n := |env| - 1;
      assert forall i | 0 <= i < n :: env[..n][i] == env[i] && scopes[..n][i] == scopes[i];
      RelLookup(env[..n], scopes[..n], mem, x);
    }
  }

  lemma {:induction false} SimLoad(e: State, o: Operand, v: Val, code: Code, m: Machine) returns (n: nat)
    requires Ok(e) && At(m, e) && Holds(o, v, m) && Extends(LoadVal(e, o).0.code, code)
    ensures var (e1, o1) := LoadVal(e, o);
            var m1 := Steps(code, m, n);
            Arrives(m, m1, e1, e.nreg) && Holds(o1, v, m1) && !o1.Slot? && Read(o1, m1.regs) == Some(v)
  {
    match o {
      case Slot(s, ty) =>
        StepEmitted(e, Load(e.nreg, s), code, m);
        n := 1;
      case _ => n := 0;
    }
  }

  lemma {:induction false} RegsKeptTrans(a: map<nat, Val>, b: map<nat, Val>, c: map<nat, Val>, i: nat, j: nat)
    requires RegsKept(a, b, i) && RegsKept(b, c, j) && i <= j
    ensures RegsKept(a, c, i)
  {
  }

  lemma {:induction false} HoldsKept(o: Operand, v: Val, m: Machine, m1: Machine, below: nat)
    requires m.Running? && m1.Running? && Holds(o, v, m) && OperandBelow(o, below)
    requires m1.mem == m.mem && RegsKept(m.regs, m1.regs, below)
    ensures Holds(o, v, m1)
  {
  }

  /** Running the code of an expression: it arrives with the operand standing
      for the expression's value, or gets stuck when the expression faults. */
  ghost predicate ExprDone(r: Option<Val>, o: Operand, m: Machine, m1: Machine, e1: State, below: nat)
    requires m.Running?
  {
    match r
    case Some(v) => Arrives(m, m1, e1, below) && Holds(o, v, m1)
    case None => m1 == Stuck
  }

  lemma {:induction false} SimExpr(x: Expr, e: State, code: Code, m: Machine, env: Env) returns (n: nat)
    requires Ok(e) && SlotsOk(e.scopes, e.nslot) && EncodeExpr(x, e).Some?
    requires At(m, e) && Rel(env, e.scopes, m.mem) && Extends(EncodeExpr(x, e).value.0.code, code)
    ensures var (e1, o) := EncodeExpr(x, e).value;
            ExprDone(Eval(x, env, true), o, m, Steps(code, m, n), e1, e.nreg)
    decreases x, 2
  {
    hide SlotsOk, Rel;
    n := 0;
    match x {
      case Sym(name) => RelLookup(env, e.scopes, m.mem, name);
      case Unary(_, _) => n := SimUnary(x, e, code, m, env);
      case Binary(_, _, _) => n := SimBinary(x, e, code, m, env);
      case Trinary(_, _, _) => n := SimTrinary(x, e, code, m, env);
      case _ =>
    }
  }

  lemma {:induction false} SimVal(x: Expr, e: State, code: Code, m: Machine, env: Env) returns (n: nat)
    requires Ok(e) && SlotsOk(e.scopes, e.nslot) && EncodeVal(x, e).Some?
    requires At(m, e) && Rel(env, e.scopes, m.mem) && Extends(EncodeVal(x, e).value.0.code, code)
    ensures var (e1, o) := EncodeVal(x, e).value;
            var r := Eval(x, env, true);
            var m1 := Steps(code, m, n);
            ExprDone(r, o, m, m1, e1, e.nreg) && (r.Some? ==> Read(o, m1.regs) == r)
    decreases x, 3
  {
    hide SlotsOk, Rel;
    FrameExpr(x, e);
    var (e1, o) := EncodeExpr(x, e).value;
    FrameLoad(e1, o);
    FrameExtends(e1, LoadVal(e1, o).0);
    ExtendsTrans(e1.code, LoadVal(e1, o).0.code, code);
    n := SimExpr(x, e, code, m, env);
    if Eval(x, env, true).Some? {
      var m1 := Steps(code, m, n);
      var k := SimLoad(e1, o, Eval(x, env, true).value, code, m1);
      StepsAdd(code, m, n, k);
      RegsKeptTrans(m.regs, m1.regs, Steps(code, m1, k).regs, e.nreg, e1.nreg);
      n := n + k;
    }
  }

  lemma {:induction false} SimUnary(x: Expr, e: State, code: Code, m: Machine, env: Env) returns (n: nat)
    requires x.Unary? && Ok(e) && SlotsOk(e.scopes, e.nslot) && EncodeExpr(x, e).Some?
    requires At(m, e) && Rel(env, e.scopes, m.mem) && Extends(EncodeExpr(x, e).value.0.code, code)
    ensures var (e1, o) := EncodeExpr(x, e).value;
            ExprDone(Eval(x, env, true), o, m, Steps(code, m, n), e1, e.nreg)
    decreases x, 1
  {
    hide Wrap, Bitwise, LoadVal, SlotsOk, Rel;
    FrameVal(x.operand, e);
    var (e1, o) := EncodeVal(x.operand, e).value;
    if x.unop == Pos {
      n := SimVal(x.operand, e, code, m, env);
    } else {
      var i := Un(e1.nreg, x.unop, o);
      var folded := FoldUn(x.unop, o);
      if folded.None? {
        FrameEmit(e1, i);
        ExtendsTrans(e1.code, Emit(e1, i).code, code);
      }
      n := SimVal(x.operand, e, code, m, env);
      if Eval(x.operand, env, true).Some? && folded.None? {
        var m1 := Steps(code, m, n);
        StepEmitted(e1, i, code, m1);
        StepsAdd(code, m, n, 1);
        n := n + 1;
      }
    }
  }

  lemma {:induction false} SimBinary(x: Expr, e: State, code: Code, m: Machine, env: Env) returns (n: nat)
    requires x.Binary? && Ok(e) && SlotsOk(e.scopes, e.nslot) && EncodeExpr(x, e).Some?
    requires At(m, e) && Rel(env, e.scopes, m.mem) && Extends(EncodeExpr(x, e).value.0.code, code)
    ensures var (e1, o) := EncodeExpr(x, e).value;
            ExprDone(Eval(x, env, true), o, m, Steps(code, m, n), e1, e.nreg)
    decreases x, 1
  {
    hide SlotsOk, Rel, EncodeExpr, BinOf, Frame, Extends;
    var t := BinOf(x, e);
    FrameBinary(x, e);
    FrameRegs(t.e1, t.e2);
    FrameRegs(e, t.e1);
    BinExtends(x, e, code);
    n := SimExpr(x.left, e, code, m, env);
    if Eval(x.left, env, true).Some? {
      var m1 := Steps(code, m, n);
      var k := SimExpr(x.right, t.e1, code, m1, env);
      StepsAdd(code, m, n, k);
      n := n + k;
      if Eval(x.right, env, true).Some? {
        var m2 := Steps(code, m1, k);
        HoldsKept(t.ol, Eval(x.left, env, true).value, m1, m2, t.e1.nreg);
        RegsKeptTrans(m.regs, m1.regs, m2.regs, e.nreg, t.e1.nreg);
        k := SimOperands(x, e, Eval(x.left, env, true).value, Eval(x.right, env, true).value, code, m2);
        StepsAdd(code, m, n, k);
        var m3 := Steps(code, m2, k);
        if m3.Running? {
          RegsKeptTrans(m.regs, m2.regs, m3.regs, e.nreg, t.e2.nreg);
        }
        n := n + k;
      }
    }
  }

  lemma {:induction false} FrameRegs(e: State, e1: State)
    requires Frame(e, e1)
    ensures e.nreg <= e1.nreg && Ok(e) && Ok(e1)
  {
  }

  /** Both operands are read, left first, and then combined. */
  lemma {:induction false} SimOperands(x: Expr, e: State, a: Val, b: Val, code: Code, m: Machine) returns (n: nat)
    requires x.Binary? && Ok(e) && SlotsOk(e.scopes, e.nslot) && EncodeExpr(x, e).Some?
    requires var t := BinOf(x, e); At(m, t.e2) && Holds(t.ol, a, m) && Holds(t.or, b, m)
    requires Extends(EncodeExpr(x, e).value.0.code, code) && BinFrames(BinOf(x, e), e)
    ensures var (e1, o) := EncodeExpr(x, e).value;
            ExprDone(EvalBin(x.binop, a, b), o, m, Steps(code, m, n), e1, BinOf(x, e).e2.nreg)
  {
    hide SlotsOk, EncodeExpr, BinOf, Frame, Extends, EvalBin;
    var t := BinOf(x, e);
    FrameRegs(t.e1, t.e2);
    FrameRegs(t.e2, t.e3);
    FrameRegs(t.e3, t.e4);
    BinExtends(x, e, code);
    n := SimLoad(t.e2, t.ol, a, code, m);
    var m1 := Steps(code, m, n);
    HoldsKept(t.or, b, m, m1, t.e2.nreg);
    var k := SimLoad(t.e3, t.or, b, code, m1);
    var m2 := Steps(code, m1, k);
    HoldsKept(t.vl, a, m1, m2, t.e3.nreg);
    StepsAdd(code, m, n, k);
    RegsKeptTrans(m.regs, m1.regs, m2.regs, t.e2.nreg, t.e3.nreg);
    n := n + k;
    if FoldBin(x.binop, t.vl, t.vr).None? {
      StepEmitted(t.e4, Bin(t.e4.nreg, x.binop, t.vl, t.vr), code, m2);
      StepsAdd(code, m, n, 1);
      n := n + 1;
    }
  }

  /** An expression moves the active block exactly when it holds a ternary. */
  lemma {:induction false} ActiveMoves(x: Expr, e: State)
    requires Ok(e) && SlotsOk(e.scopes, e.nslot) && EncodeExpr(x, e).Some?
    ensures EncodeExpr(x, e).value.0.active != e.active <==> HasTrinary(x)
  {
    hide SlotsOk;
    FrameExpr(x, e);
    match x {
      case Unary(_, a) => ActiveMoves(a, e);
      case Binary(_, l, r) =>
        FrameBinary(x, e);
        ActiveMoves(l, e);
        ActiveMoves(r, BinOf(x, e).e1);
      case Trinary(_, _, _) => FrameTrinary(x, e);
      case _ =>
    }
  }

  /** An expression's operand is its constant, or else an address or a register
      of its own. */
  lemma {:induction false} ExprOperand(x: Expr, e: State)
    requires ExprEncodes(x, e)
    ensures var (e1, o) := EncodeExpr(x, e).value;
            match ConstantOf(x)
            case Some(v) => o == Const(v)
            case None => !o.Const? && (o.Reg? ==> e.nreg <= o.id < e1.nreg)
    decreases x, 1
  {
    hide SlotsOk, EvalUn, EvalBin;
    match x {
      case Sym(name) => LookupSlot(e.scopes, e.nslot, name);
      case Unary(_, a) =>
        LoadedOperand(a, e);
        FrameVal(a, e);
        PosIsOperand(EncodeVal(a, e).value.1);
      case Binary(_, _, _) => BinaryOperand(x, e);
      case Trinary(_, _, _) => FrameTrinary(x, e);
      case _ =>
    }
  }

  lemma {:induction false} PosIsOperand(o: Operand)
    ensures o.Const? ==> EvalUn(Pos, o.val) == Some(o.val)
  {
  }

  lemma {:induction false} BinaryOperand(x: Expr, e: State)
    requires x.Binary? && ExprEncodes(x, e)
    ensures var (e1, o) := EncodeExpr(x, e).value;
            match ConstantOf(x)
            case Some(v) => o == Const(v)
            case None => !o.Const? && (o.Reg? ==> e.nreg <= o.id < e1.nreg)
    decreases x, 0
  {
    hide SlotsOk, EvalBin, EncodeExpr, BinOf;
    var t := BinOf(x, e);
    FrameBinary(x, e);
    ExprOperand(x.left, e);
    ExprOperand(x.right, t.e1);
  }

  /** A loaded operand is the expression's constant or a register of its own. */
  lemma {:induction false} LoadedOperand(x: Expr, e: State)
    requires Ok(e) && SlotsOk(e.scopes, e.nslot) && EncodeVal(x, e).Some?
    ensures var (e1, o) := EncodeVal(x, e).value;
            match ConstantOf(x)
            case Some(v) => o == Const(v)
            case None => o.Reg? && e.nreg <= o.id < e1.nreg
    decreases x, 2
  {
    hide SlotsOk, ConstantOf;
    ExprOperand(x, e);
    FrameExpr(x, e);
  }

  /** Up to the conditional jump of a ternary. */
  lemma {:induction false} SimTriCond(x: Expr, e: State, code: Code, m: Machine, env: Env) returns (n: nat)
    requires x.Trinary? && Ok(e) && SlotsOk(e.scopes, e.nslot) && EncodeExpr(x, e).Some?
    requires At(m, e) && Rel(env, e.scopes, m.mem) && Extends(EncodeExpr(x, e).value.0.code, code)
    ensures var t := TriOf(x, e);
            var m1 := Steps(code, m, n);
            match Eval(x.cond, env, true)
            case None => m1 == Stuck
            case Some(v) =>
              if v.ty != I1 then m1 == Stuck
              else Arrives(m, m1, if v.n != 0 then t.s2 else t.s3, e.nreg)
    decreases x, 0
  {
    hide Frame, Eval, Holds, NewBlocks, SlotsOk, Rel, EncodeExpr, EncodeVal, TriOf, Extends;
    var t := TriOf(x, e);
    var b := |e.code|;
    FrameTrinary(x, e);
    TriExtends(x, e, code);
    NewBlocksEmpty(e, 4);
    StepEmitted(NewBlocks(e, 4), Jump(b), code, m);
    var m1 := Steps(code, m, 1);
    assert At(m1, t.s1);
    n := SimVal(x.cond, t.s1, code, m1, env);
    StepsAdd(code, m, 1, n);
    var m2 := Steps(code, m1, n);
    n := 1 + n;
    if Eval(x.cond, env, true).Some? {
      StepEmitted(t.e1, JumpCond(t.oc, b + 1, b + 2), code, m2);
      StepsAdd(code, m, n, 1);
      n := n + 1;
    }
  }

  /** From the start of the taken branch to the merge. */
  lemma {:induction false} SimTriBranch(x: Expr, e: State, code: Code, m: Machine, env: Env, taken: bool)
      returns (n: nat)
    requires x.Trinary? && Ok(e) && SlotsOk(e.scopes, e.nslot) && EncodeExpr(x, e).Some?
    requires At(m, if taken then TriOf(x, e).s2 else TriOf(x, e).s3) && Rel(env, e.scopes, m.mem)
    requires Extends(EncodeExpr(x, e).value.0.code, code)
    ensures var t := TriOf(x, e);
            var m1 := Steps(code, m, n);
            match Eval(if taken then x.onTrue else x.onFalse, env, true)
            case None => m1 == Stuck
            case Some(v) =>
              && Arrives(m, m1, t.e4, e.nreg)
              && Read(if taken then t.ot else t.of, m1.regs) == Some(v)
              && m1.prev == Some(if taken then t.e2.active else t.e3.active)
    decreases x, 0
  {
    hide Eval, Emit, Holds, NewBlocks, SlotsOk, Rel, EncodeExpr, EncodeVal, TriOf, Extends;
    var t := TriOf(x, e);
    var b := |e.code|;
    FrameTrinary(x, e);
    TriExtends(x, e, code);
    var y := if taken then x.onTrue else x.onFalse;
    var s, e1 := if taken then t.s2 else t.s3, if taken then t.e2 else t.e3;
    n := SimVal(y, s, code, m, env);
    if Eval(y, env, true).Some? {
      var m1 := Steps(code, m, n);
      StepEmitted(e1, Jump(b + 3), code, m1);
      StepsAdd(code, m, n, 1);
      n := n + 1;
    }
  }

  /** The merge knows the taken branch exactly when `Merges` says so. */
  lemma {:induction false} PhiKnows(x: Expr, e: State, taken: bool)
    requires x.Trinary? && Ok(e) && SlotsOk(e.scopes, e.nslot) && EncodeExpr(x, e).Some?
    ensures var t := TriOf(x, e);
            var b := |e.code|;
            FindIncoming(PhiIncomings(t.ot, b + 1, t.of, b + 2), if taken then t.e2.active else t.e3.active) ==
            if Merges(taken, x.onTrue, x.onFalse) then Some(if taken then t.ot else t.of) else None
  {
    hide NewBlocks, SlotsOk, EncodeExpr, TriOf;
    var t := TriOf(x, e);
    var b := |e.code|;
    FrameTrinary(x, e);
    ActiveMoves(x.onTrue, t.s2);
    ActiveMoves(x.onFalse, t.s3);
    LoadedOperand(x.onTrue, t.s2);
    LoadedOperand(x.onFalse, t.s3);
    FindTwo(t.ot, b + 1, t.of, b + 2, if taken then t.e2.active else t.e3.active);
  }

  lemma {:induction false} FindTwo(a: Operand, x: nat, b: Operand, y: nat, from: nat)
    ensures FindIncoming([Incoming(a, x), Incoming(b, y)], from) ==
            if from == x then Some(a) else if from == y then Some(b) else None
    ensures FindIncoming([Incoming(a, x)], from) == if from == x then Some(a) else None
  {
    var two, one, last := [Incoming(a, x), Incoming(b, y)], [Incoming(a, x)], [Incoming(b, y)];
    assert two[1..] == last && last[1..] == [] && one[1..] == [];
    assert FindIncoming(last, from) == if from == y then Some(b) else None;
  }

  /** The merge itself. */
  lemma {:induction false} SimPhi(x: Expr, e: State, code: Code, m: Machine, v: Val, taken: bool)
    requires x.Trinary? && Ok(e) && SlotsOk(e.scopes, e.nslot) && EncodeExpr(x, e).Some?
    requires Extends(EncodeExpr(x, e).value.0.code, code)
    requires var t := TriOf(x, e);
             At(m, t.e4) && m.prev == Some(if taken then t.e2.active else t.e3.active)
             && Read(if taken then t.ot else t.of, m.regs) == Some(v)
    ensures var (e1, o) := EncodeExpr(x, e).value;
            ExprDone(if Merges(taken, x.onTrue, x.onFalse) then Some(v) else None, o, m, Steps(code, m, 1), e1,
                     TriOf(x, e).e4.nreg)
  {
    hide SlotsOk, EncodeExpr, TriOf, Extends, Merges, FindIncoming, PhiIncomings;
    var t := TriOf(x, e);
    var b := |e.code|;
    PhiKnows(x, e, taken);
    StepEmitted(t.e4, Phi(t.e4.nreg, PhiIncomings(t.ot, b + 1, t.of, b + 2)), code, m);
  }

  lemma {:induction false} SimTrinary(x: Expr, e: State, code: Code, m: Machine, env: Env) returns (n: nat)
    requires x.Trinary? && Ok(e) && SlotsOk(e.scopes, e.nslot) && EncodeExpr(x, e).Some?
    requires At(m, e) && Rel(env, e.scopes, m.mem) && Extends(EncodeExpr(x, e).value.0.code, code)
    ensures var (e1, o) := EncodeExpr(x, e).value;
            ExprDone(Eval(x, env, true), o, m, Steps(code, m, n), e1, e.nreg)
    decreases x, 1
  {
    hide SlotsOk, Rel, EncodeExpr, EncodeVal, TriOf, Merges, Frame, Extends;
    var t := TriOf(x, e);
    FrameTrinary(x, e);
    FrameRegs(e, t.e4);
    n := SimTriCond(x, e, code, m, env);
    var c := Eval(x.cond, env, true);
    if c.Some? && c.value.ty == I1 {
      var taken := c.value.n != 0;
      var m1 := Steps(code, m, n);
      var k := SimTriBranch(x, e, code, m1, env, taken);
      StepsAdd(code, m, n, k);
      n := n + k;
      var r := Eval(if taken then x.onTrue else x.onFalse, env, true);
      if r.Some? {
        var m2 := Steps(code, m1, k);
        SimPhi(x, e, code, m2, r.value, taken);
        StepsAdd(code, m, n, 1);
        n := n + 1;
      }
    }
  }
}
