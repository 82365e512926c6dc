/** When the emitted blocks are basic blocks: one terminator each, at the end. */
module WellFormed {
  import opened Ast
  import opened Scalar
  import opened Ir
  import opened Lowering
  import opened Semantics
  import opened Structure

  predicate Open(ins: seq<Instr>) {
    forall i | 0 <= i < |ins| :: !IsTerminator(ins[i])
  }

  predicate Closed(ins: seq<Instr>) {
    EndsInTerminator(ins) && Open(ins[..|ins| - 1])
  }

  predicate TargetsBelow(i: Instr, n: nat) {
    match i
    case Jump(t) => t < n
    case JumpCond(_, t, f) => t < n && f < n
    case _ => true
  }

  predicate AllTargets(code: Code) {
    forall b, i | 0 <= b < |code| && 0 <= i < |code[b]| :: TargetsBelow(code[b][i], |code|)
  }

  /** Every block has exactly one terminator, in last position, and every target
      is a block of the function. */
  predicate BasicBlocks(code: Code) {
    (forall b | 0 <= b < |code| :: Closed(code[b])) && AllTargets(code)
  }

  /** Some block has an instruction behind a terminator. */
  ghost predicate HasDead(code: Code) {
    exists b, i :: 0 <= b < |code| && 0 <= i < |code[b]| - 1 && IsTerminator(code[b][i])
  }

  // ----- the source side: statements behind a jump -----

  /** `live`: no statement stands behind a jump; `jumped`: the last one jumps. */
  datatype Flow = Flow(live: bool, jumped: bool)

  /** How control reaches the end of a statement that is reached after a jump
      or not. */
  function FlowStmt(s: Stmt, jumped: bool): Flow
    decreases s, 0
  {
    match s
    case Return(_) => Flow(!jumped, true)
    case Break => Flow(!jumped, true)
    case Continue => Flow(!jumped, true)
    case If(_, t, f) => Flow(!jumped && FlowOpt(t, false).live && FlowOpt(f, false).live, false)
    case Loop(init, _, step, body) =>
      var i := FlowOpt(init, jumped);
      var st := FlowOpt(step, false);
      Flow(i.live && !i.jumped && FlowOpt(body, false).live && st.live && !st.jumped, false)
    case Block(ss) => FlowSeq(ss, jumped)
    case _ => Flow(!jumped, false)
  }

  function FlowOpt(o: Option<Stmt>, jumped: bool): Flow
    decreases o, 1
  {
    match o
    case None => Flow(true, jumped)
    case Some(s) => FlowStmt(s, jumped)
  }

  function FlowSeq(ss: seq<Stmt>, jumped: bool): Flow
    decreases ss, 1
  {
    if ss == [] then Flow(true, jumped) else
      var f := FlowStmt(ss[0], jumped);
      var g := FlowSeq(ss[1..], f.jumped);
      Flow(f.live && g.live, g.jumped)
  }

  /** No statement of the program stands behind a return, break or continue. */
  predicate NoDeadStatements(body: seq<Stmt>) {
    FlowSeq(body, false).live
  }

  predicate Terminated(e: State)
    requires Ok(e)
  {
    EndsInTerminator(e.code[e.active])
  }

  // ----- the invariant -----

  /** The blocks that enclosing constructs have yet to fill are empty, the
      active one may be open, and every other is a basic block. */
  ghost predicate Good(e: State, pending: set<nat>) {
    && Ok(e) && e.active !in pending
    && (forall b | b in pending :: b < |e.code| && e.code[b] == [])
    && (forall b | 0 <= b < |e.code| && b !in pending && b != e.active :: Closed(e.code[b]))
    && (Open(e.code[e.active]) || Closed(e.code[e.active]))
    && AllTargets(e.code)
    && (e.brk.Some? ==> e.brk.value < |e.code|) && (e.cont.Some? ==> e.cont.value < |e.code|)
  }

  lemma {:induction false} GoodEmit(e: State, i: Instr, pending: set<nat>)
    requires Good(e, pending) && !Terminated(e) && TargetsBelow(i, |e.code|)
    ensures Good(Emit(e, i), pending) && (Terminated(Emit(e, i)) <==> IsTerminator(i))
  {
    var c, c1 := e.code[e.active], Emit(e, i).code[e.active];
    assert Open(c);
    assert c1[..|c1| - 1] == c;
  }

  lemma {:induction false} GoodNew(e: State, n: nat, pending: set<nat>, blocks: set<nat>)
    requires Good(e, pending) && forall b :: b in blocks <==> |e.code| <= b < |e.code| + n
    ensures Good(NewBlocks(e, n), pending + blocks)
    ensures Terminated(NewBlocks(e, n)) == Terminated(e)
  {
    NewBlocksEmpty(e, n);
  }

  lemma {:induction false} GoodActivate(e: State, b: nat, pending: set<nat>)
    requires Good(e, pending) && Terminated(e) && b in pending
    ensures Good(Activate(e, b), pending - {b}) && !Terminated(Activate(e, b))
  {
    assert Closed(e.code[e.active]);
  }

  /** Leaving for a pending block by a terminator. */
  lemma {:induction false} GoodLeave(e: State, i: Instr, b: nat, pending: set<nat>)
    requires Good(e, pending) && !Terminated(e) && IsTerminator(i) && TargetsBelow(i, |e.code|) && b in pending
    ensures Good(Activate(Emit(e, i), b), pending - {b}) && !Terminated(Activate(Emit(e, i), b))
  {
    GoodEmit(e, i, pending);
    GoodActivate(Emit(e, i), b, pending);
  }

  lemma {:induction false} GoodFallThrough(s: State, e: State, target: nat, b: nat, pending: set<nat>)
    requires Frame(s, e) && Good(e, pending) && target < |e.code| && b in pending
    ensures var r := Activate(FallThrough(e, s.active, target), b);
            Good(r, pending - {b}) && !Terminated(r)
  {
    OneFallThroughJump(s, e, target);
    if !Terminated(e) {
      GoodEmit(e, Jump(target), pending);
    }
    GoodActivate(FallThrough(e, s.active, target), b, pending);
  }

  lemma {:induction false} GoodLoad(e: State, o: Operand, pending: set<nat>)
    requires Good(e, pending) && !Terminated(e)
    ensures Good(LoadVal(e, o).0, pending) && !Terminated(LoadVal(e, o).0)
  {
    if o.Slot? {
      GoodEmit(e, Load(e.nreg, o.id), pending);
    }
  }

  lemma {:induction false} GoodExpr(x: Expr, e: State, pending: set<nat>)
    requires ExprEncodes(x, e) && Good(e, pending) && !Terminated(e)
    ensures var e1 := EncodeExpr(x, e).value.0; Good(e1, pending) && !Terminated(e1)
    decreases x, 1
  {
    hide SlotsOk, Good;
    match x {
      case Unary(op, a) =>
        GoodVal(a, e, pending);
        var (e1, o) := EncodeVal(a, e).value;
        if op != Pos && FoldUn(op, o).None? {
          GoodReg(e1, Un(e1.nreg, op, o), pending);
        }
      case Binary(_, _, _) => GoodBinary(x, e, pending);
      case Trinary(_, _, _) => GoodTrinary(x, e, pending);
      case _ =>
    }
  }

  lemma {:induction false} GoodBinary(x: Expr, e: State, pending: set<nat>)
    requires x.Binary? && ExprEncodes(x, e) && Good(e, pending) && !Terminated(e)
    ensures var e1 := EncodeExpr(x, e).value.0; Good(e1, pending) && !Terminated(e1)
    decreases x, 0
  {
    hide SlotsOk, Good, EncodeExpr, BinOf;
    FrameBinary(x, e);
    var t := BinOf(x, e);
    GoodExpr(x.left, e, pending);
    GoodExpr(x.right, t.e1, pending);
    GoodLoad(t.e2, t.ol, pending);
    GoodLoad(t.e3, t.or, pending);
    if FoldBin(x.binop, t.vl, t.vr).None? {
      GoodReg(t.e4, Bin(t.e4.nreg, x.binop, t.vl, t.vr), pending);
    }
  }

  lemma {:induction false} GoodReg(e: State, i: Instr, pending: set<nat>)
    requires Good(e, pending) && !Terminated(e) && !IsTerminator(i)
    ensures Good(Emit(e, i).(nreg := e.nreg + 1), pending) && !Terminated(Emit(e, i).(nreg := e.nreg + 1))
  {
    GoodEmit(e, i, pending);
  }

  lemma {:induction false} GoodVal(x: Expr, e: State, pending: set<nat>)
    requires Ok(e) && SlotsOk(e.scopes, e.nslot) && EncodeVal(x, e).Some? && Good(e, pending) && !Terminated(e)
    ensures var e1 := EncodeVal(x, e).value.0; Good(e1, pending) && !Terminated(e1)
    decreases x, 2
  {
    hide SlotsOk, Good;
    GoodExpr(x, e, pending);
    var (e1, o) := EncodeExpr(x, e).value;
    GoodLoad(e1, o, pending);
  }

  lemma {:induction false} GoodTrinary(x: Expr, e: State, pending: set<nat>)
    requires x.Trinary? && ExprEncodes(x, e) && Good(e, pending) && !Terminated(e)
    ensures var e1 := EncodeExpr(x, e).value.0; Good(e1, pending) && !Terminated(e1)
    decreases x, 0
  {
    hide NewBlocks, Emit, Activate, Terminated, SlotsOk, Good, EncodeExpr, EncodeVal, TriOf, Frame;
    var t := TriOf(x, e);
    var b := |e.code|;
    var p := pending + {b, b + 1, b + 2, b + 3};
    FrameTrinary(x, e);
    TriSizes(x, e);
    GoodNew(e, 4, pending, {b, b + 1, b + 2, b + 3});
    GoodLeave(NewBlocks(e, 4), Jump(b), b, p);
    GoodVal(x.cond, t.s1, p - {b});
    GoodLeave(t.e1, JumpCond(t.oc, b + 1, b + 2), b + 1, p - {b});
    GoodVal(x.onTrue, t.s2, p - {b} - {b + 1});
    GoodLeave(t.e2, Jump(b + 3), b + 2, p - {b} - {b + 1});
    GoodVal(x.onFalse, t.s3, p - {b} - {b + 1} - {b + 2});
    GoodLeave(t.e3, Jump(b + 3), b + 3, p - {b} - {b + 1} - {b + 2});
    PendingRestored(e, pending, p - {b} - {b + 1} - {b + 2} - {b + 3});
    GoodReg(t.e4, Phi(t.e4.nreg, PhiIncomings(t.ot, b + 1, t.of, b + 2)), pending);
  }

  lemma {:induction false} PendingRestored(e: State, pending: set<nat>, p: set<nat>)
    requires Good(e, pending)
    requires forall b :: b in p <==> b in pending && b < |e.code|
    ensures p == pending
  {
  }

  lemma {:induction false} TriSizes(x: Expr, e: State)
    requires x.Trinary? && ExprEncodes(x, e)
    ensures var t := TriOf(x, e); var b := |e.code|;
            b + 4 <= |t.e1.code| && b + 4 <= |t.e2.code| && b + 4 <= |t.e3.code|
  {
    hide SlotsOk, EncodeExpr, EncodeVal, TriOf;
    FrameTrinary(x, e);
    NewBlocksEmpty(e, 4);
  }

  // ----- statements: no dead statement, so basic blocks -----

  lemma {:induction false} GoodStmt(s: Stmt, e: State, pending: set<nat>)
    requires Ok(e) && SlotsOk(e.scopes, e.nslot) && EncodeStmt(s, e).Some?
    requires Good(e, pending) && FlowStmt(s, Terminated(e)).live
    ensures var e1 := EncodeStmt(s, e).value;
            Good(e1, pending) && Terminated(e1) == FlowStmt(s, Terminated(e)).jumped
    decreases s, 2
  {
    hide SlotsOk, Good;
    var r := EncodeStmt(s, e).value;
    match s {
      case SymbolDef(_, _, _, v) =>
        GoodVal(v, e, pending);
        FrameVal(v, e);
        var (e1, o) := EncodeVal(v, e).value;
        var e2 := Emit(Emit(e1, Alloc(e1.nslot)), Store(e1.nslot, o));
        GoodEmit(e1, Alloc(e1.nslot), pending);
        GoodEmit(Emit(e1, Alloc(e1.nslot)), Store(e1.nslot, o), pending);
        TargetsOld(e2, pending);
        GoodRetarget(e2, r, pending);
      case Assign(l, v) =>
        FrameAssign(s, e);
        GoodVal(v, e, pending);
        var (e2, o) := EncodeVal(v, e).value;
        GoodEmit(e2, Store(EncodeExpr(l, e).value.1.id, o), pending);
      case Return(Some(v)) =>
        GoodVal(v, e, pending);
        var (e1, o) := EncodeVal(v, e).value;
        GoodEmit(e1, Ret(o), pending);
      case If(_, _, _) => GoodIf(s, e, pending);
      case Loop(_, _, _, _) => GoodLoop(s, e, pending);
      case Break =>
        TargetsOld(e, pending);
        GoodEmit(e, Jump(e.brk.value), pending);
      case Continue =>
        TargetsOld(e, pending);
        GoodEmit(e, Jump(e.cont.value), pending);
      case Block(ss) =>
        SlotsOkPush(e.scopes, e.nslot);
        TargetsOld(e, pending);
        GoodRetarget(e, PushScope(e), pending);
        GoodSeq(ss, PushScope(e), pending);
        var e1 := EncodeSeq(ss, PushScope(e)).value;
        TargetsOld(e1, pending);
        GoodRetarget(e1, r, pending);
      case _ =>
    }
  }

  lemma {:induction false} GoodOpt(o: Option<Stmt>, e: State, pending: set<nat>)
    requires Ok(e) && SlotsOk(e.scopes, e.nslot) && EncodeOpt(o, e).Some?
    requires Good(e, pending) && FlowOpt(o, Terminated(e)).live
    ensures var e1 := EncodeOpt(o, e).value;
            Good(e1, pending) && Terminated(e1) == FlowOpt(o, Terminated(e)).jumped
    decreases o, 2
  {
    hide SlotsOk, Good;
    if o.Some? {
      GoodStmt(o.value, e, pending);
    }
  }

  lemma {:induction false} GoodSeq(ss: seq<Stmt>, e: State, pending: set<nat>)
    requires Ok(e) && SlotsOk(e.scopes, e.nslot) && EncodeSeq(ss, e).Some?
    requires Good(e, pending) && FlowSeq(ss, Terminated(e)).live
    ensures var e1 := EncodeSeq(ss, e).value;
            Good(e1, pending) && Terminated(e1) == FlowSeq(ss, Terminated(e)).jumped
    decreases ss, 2
  {
    hide SlotsOk, Good;
    if ss != [] {
      GoodStmt(ss[0], e, pending);
      FrameStmt(ss[0], e);
      GoodSeq(ss[1..], EncodeStmt(ss[0], e).value, pending);
    }
  }

  lemma {:induction false} GoodIf(s: Stmt, e: State, pending: set<nat>)
    requires s.If? && Ok(e) && SlotsOk(e.scopes, e.nslot) && EncodeStmt(s, e).Some?
    requires Good(e, pending) && FlowStmt(s, Terminated(e)).live
    ensures var e1 := EncodeStmt(s, e).value; Good(e1, pending) && !Terminated(e1)
    decreases s, 0
  {
    hide SlotsOk, Good, EncodeStmt, EncodeOpt, EncodeVal, IfOf, Frame, FallThrough, NamesGrow;
    var t := IfOf(s, e);
    var b := |e.code|;
    var p := pending + {b, b + 1, b + 2};
    FrameIf(s, e);
    IfSizes(s, e);
    GoodNew(e, 3, pending, {b, b + 1, b + 2});
    GoodVal(s.cond, t.s0, p);
    GoodLeave(t.e1, JumpCond(t.oc, b, b + 1), b, p);
    GoodOpt(s.onTrue, t.s2, p - {b});
    GoodFallThrough(t.s2, t.e2, b + 2, b + 1, p - {b});
    GoodOpt(s.onFalse, t.s3, p - {b} - {b + 1});
    GoodFallThrough(t.s3, t.e3, b + 2, b + 2, p - {b} - {b + 1});
    PendingOld(e, pending);
    assert p - {b} - {b + 1} - {b + 2} == pending;
  }

  lemma {:induction false} PendingOld(e: State, pending: set<nat>)
    requires Good(e, pending)
    ensures forall b | b in pending :: b < |e.code|
  {
  }

  lemma {:induction false} IfSizes(s: Stmt, e: State)
    requires s.If? && Ok(e) && SlotsOk(e.scopes, e.nslot) && EncodeStmt(s, e).Some?
    ensures var t := IfOf(s, e); var b := |e.code|;
            b + 3 <= |t.e1.code| && b + 3 <= |t.e2.code| && b + 3 <= |t.e3.code|
            && t.s2.active == b && t.s3.active == b + 1 && Ok(t.e1) && Ok(t.e2) && Ok(t.e3)
  {
    hide SlotsOk, EncodeStmt, EncodeOpt, EncodeVal, IfOf, NamesGrow;
    FrameIf(s, e);
    NewBlocksEmpty(e, 3);
  }

  lemma {:induction false} LoopSizes(s: Stmt, e: State)
    requires s.Loop? && Ok(e) && SlotsOk(e.scopes, e.nslot) && EncodeStmt(s, e).Some?
    ensures var t := LoopOf(s, e); var b := |e.code|;
            b + 4 <= |t.e1.code| && b + 4 <= |t.e2.code| && b + 4 <= |t.e3.code| && b + 4 <= |t.e4.code|
            && t.s2.active == b + 2 && Ok(t.e1) && Ok(t.e2) && Ok(t.e3) && Ok(t.e4) && Ok(t.s4)
            && (t.s4.active == b + 3)
  {
    hide SlotsOk, EncodeStmt, EncodeOpt, EncodeGuard, LoopOf, NamesGrow;
    FrameLoop(s, e);
    NewBlocksEmpty(PushScope(e), 4);
  }

  lemma {:induction false} GoodGuard(o: Option<Expr>, e: State, pending: set<nat>)
    requires Ok(e) && SlotsOk(e.scopes, e.nslot) && EncodeGuard(o, e).Some? && Good(e, pending) && !Terminated(e)
    ensures var e1 := EncodeGuard(o, e).value.0; Good(e1, pending) && !Terminated(e1)
  {
    if o.Some? {
      GoodVal(o.value, e, pending);
    }
  }

  /** Other scopes and loop targets leave the blocks as they are. */
  lemma {:induction false} GoodRetarget(e: State, e1: State, pending: set<nat>)
    requires Good(e, pending) && Ok(e1) && e1.code == e.code && e1.active == e.active
    requires (e1.brk.Some? ==> e1.brk.value < |e.code|) && (e1.cont.Some? ==> e1.cont.value < |e.code|)
    ensures Good(e1, pending)
  {
  }

  /** Up to the start of the body. */
  lemma {:induction false} GoodLoopHead(s: Stmt, e: State, pending: set<nat>)
    requires s.Loop? && Ok(e) && SlotsOk(e.scopes, e.nslot) && EncodeStmt(s, e).Some?
    requires Good(e, pending) && FlowStmt(s, Terminated(e)).live
    ensures var t := LoopOf(s, e);
            var b := |e.code|;
            Good(t.s2, pending + {b, b + 1, b + 2, b + 3} - {b} - {b + 2}) && !Terminated(t.s2)
    decreases s, 0
  {
    hide SlotsOk, Good, EncodeStmt, EncodeOpt, EncodeGuard, LoopOf, Frame, FallThrough, NamesGrow;
    var t := LoopOf(s, e);
    var b := |e.code|;
    var p := pending + {b, b + 1, b + 2, b + 3};
    FrameLoop(s, e);
    LoopSizes(s, e);
    GoodRetarget(e, PushScope(e), pending) by { TargetsOld(e, pending); }
    GoodNew(PushScope(e), 4, pending, {b, b + 1, b + 2, b + 3});
    GoodRetarget(NewBlocks(PushScope(e), 4), t.s0, p);
    GoodOpt(s.init, t.s0, p);
    GoodLeave(t.e1, Jump(b), b, p);
    GoodGuard(s.guard, t.s1, p - {b});
    GoodLeave(t.e2, JumpCond(t.oc, b + 2, b + 3), b + 2, p - {b});
  }

  lemma {:induction false} GoodLoop(s: Stmt, e: State, pending: set<nat>)
    requires s.Loop? && Ok(e) && SlotsOk(e.scopes, e.nslot) && EncodeStmt(s, e).Some?
    requires Good(e, pending) && FlowStmt(s, Terminated(e)).live
    ensures var e1 := EncodeStmt(s, e).value; Good(e1, pending) && !Terminated(e1)
    decreases s, 1
  {
    hide SlotsOk, Good, EncodeStmt, EncodeOpt, EncodeGuard, LoopOf, Frame, FallThrough, NamesGrow;
    var t := LoopOf(s, e);
    var b := |e.code|;
    var p := pending + {b, b + 1, b + 2, b + 3};
    FrameLoop(s, e);
    LoopSizes(s, e);
    GoodLoopHead(s, e, pending);
    GoodOpt(s.body, t.s2, p - {b} - {b + 2});
    GoodFallThrough(t.s2, t.e3, b + 1, b + 1, p - {b} - {b + 2});
    GoodOpt(s.step, t.s3, p - {b} - {b + 2} - {b + 1});
    GoodLeave(t.e4, Jump(b), b + 3, p - {b} - {b + 2} - {b + 1});
    PendingOld(e, pending);
    assert p - {b} - {b + 2} - {b + 1} - {b + 3} == pending;
    TargetsOld(e, pending);
    GoodRetarget(Activate(Emit(t.e4, Jump(b)), b + 3), PopScope(t.s4), pending);
  }

  lemma {:induction false} TargetsOld(e: State, pending: set<nat>)
    requires Good(e, pending)
    ensures (e.brk.Some? ==> e.brk.value < |e.code|) && (e.cont.Some? ==> e.cont.value < |e.code|)
  {
  }

  // ----- a dead statement, so a block with more than its terminator -----

  lemma {:induction false} DeadStays(c: Code, c1: Code)
    requires HasDead(c) && Extends(c, c1)
    ensures HasDead(c1)
  {
    var b, i :| 0 <= b < |c| && 0 <= i < |c[b]| - 1 && IsTerminator(c[b][i]);
    assert c[b] <= c1[b];
    assert c1[b][i] == c[b][i];
  }

  lemma {:induction false} DeadEmit(e: State, i: Instr)
    requires Ok(e) && Terminated(e)
    ensures HasDead(Emit(e, i).code)
  {
    var c := Emit(e, i).code;
    assert IsTerminator(c[e.active][|e.code[e.active]| - 1]);
  }

  lemma {:induction false} DeadGrows(e: State, e1: State)
    requires Frame(e, e1) && Terminated(e) && |e1.code[e.active]| > |e.code[e.active]|
    ensures HasDead(e1.code)
  {
    assert IsTerminator(e1.code[e.active][|e.code[e.active]| - 1]);
  }

  /** Emitting behind an expression that began behind a jump is dead. */
  lemma {:induction false} DeadAfter(e: State, e1: State, i: Instr)
    requires Frame(e, e1) && Terminated(e)
    ensures HasDead(Emit(e1, i).code)
  {
    FrameEmit(e1, i);
    FrameTrans(e, e1, Emit(e1, i));
    DeadGrows(e, Emit(e1, i));
  }

  lemma {:induction false} FlowStmtExact(s: Stmt, e: State)
    requires Ok(e) && SlotsOk(e.scopes, e.nslot) && EncodeStmt(s, e).Some?
    ensures var e1 := EncodeStmt(s, e).value;
            var f := FlowStmt(s, Terminated(e));
            Terminated(e1) == f.jumped && (!f.live ==> HasDead(e1.code))
    decreases s, 1
  {
    hide SlotsOk, HasDead, Frame;
    match s {
      case SymbolDef(_, _, _, v) =>
        FrameVal(v, e);
        var (e1, o) := EncodeVal(v, e).value;
        if Terminated(e) {
          DeadAfter(e, e1, Alloc(e1.nslot));
          FrameEmit(Emit(e1, Alloc(e1.nslot)), Store(e1.nslot, o));
          DeadStays(Emit(e1, Alloc(e1.nslot)).code, EncodeStmt(s, e).value.code);
        }
      case Assign(l, r) =>
        FrameAssign(s, e);
        FrameVal(r, e);
        var (e2, o) := EncodeVal(r, e).value;
        if Terminated(e) {
          DeadAfter(e, e2, Store(EncodeExpr(l, e).value.1.id, o));
        }
      case Return(Some(v)) =>
        FrameVal(v, e);
        var (e1, o) := EncodeVal(v, e).value;
        if Terminated(e) {
          DeadAfter(e, e1, Ret(o));
        }
      case If(_, _, _) => FlowIfExact(s, e);
      case Loop(_, _, _, _) => FlowLoopExact(s, e);
      case Break =>
        if Terminated(e) {
          DeadEmit(e, Jump(e.brk.value));
        }
      case Continue =>
        if Terminated(e) {
          DeadEmit(e, Jump(e.cont.value));
        }
      case Block(ss) =>
        SlotsOkPush(e.scopes, e.nslot);
        FlowSeqExact(ss, PushScope(e));
      case _ =>
    }
  }

  lemma {:induction false} FlowOptExact(o: Option<Stmt>, e: State)
    requires Ok(e) && SlotsOk(e.scopes, e.nslot) && EncodeOpt(o, e).Some?
    ensures var e1 := EncodeOpt(o, e).value;
            var f := FlowOpt(o, Terminated(e));
            Terminated(e1) == f.jumped && (!f.live ==> HasDead(e1.code))
    decreases o, 2
  {
    hide SlotsOk, HasDead;
    if o.Some? {
      FlowStmtExact(o.value, e);
    }
  }

  lemma {:induction false} FlowSeqExact(ss: seq<Stmt>, e: State)
    requires Ok(e) && SlotsOk(e.scopes, e.nslot) && EncodeSeq(ss, e).Some?
    ensures var e1 := EncodeSeq(ss, e).value;
            var f := FlowSeq(ss, Terminated(e));
            Terminated(e1) == f.jumped && (!f.live ==> HasDead(e1.code))
    decreases ss, 2
  {
    hide SlotsOk, HasDead, Frame;
    if ss != [] {
      FrameStmt(ss[0], e);
      var e1 := EncodeStmt(ss[0], e).value;
      FlowStmtExact(ss[0], e);
      FlowSeqExact(ss[1..], e1);
      FrameSeq(ss[1..], e1);
      FrameExtends(e1, EncodeSeq(ss[1..], e1).value);
      if !FlowStmt(ss[0], Terminated(e)).live {
        DeadStays(e1.code, EncodeSeq(ss, e).value.code);
      }
    }
  }

  lemma {:induction false} FlowIfExact(s: Stmt, e: State)
    requires s.If? && Ok(e) && SlotsOk(e.scopes, e.nslot) && EncodeStmt(s, e).Some?
    ensures var e1 := EncodeStmt(s, e).value;
            !Terminated(e1) && (!FlowStmt(s, Terminated(e)).live ==> HasDead(e1.code))
    decreases s, 0
  {
    hide SlotsOk, HasDead, EncodeStmt, EncodeOpt, EncodeVal, IfOf, FallThrough, NamesGrow, Extends;
    var t := IfOf(s, e);
    FrameIf(s, e);
    IfExtends(s, e, t.s4.code) by { SelfExtends(t.s4.code); }
    FlowOptExact(s.onTrue, t.s2);
    FlowOptExact(s.onFalse, t.s3);
    if Terminated(e) {
      DeadGrows(e, t.s2);
      DeadStays(t.s2.code, t.s4.code);
    } else if !FlowOpt(s.onTrue, false).live {
      DeadStays(t.e2.code, t.s4.code);
    } else if !FlowOpt(s.onFalse, false).live {
      DeadStays(t.e3.code, t.s4.code);
    }
  }

  lemma {:induction false} SelfExtends(c: Code)
    ensures Extends(c, c)
  {
  }

  lemma {:induction false} FlowLoopExact(s: Stmt, e: State)
    requires s.Loop? && Ok(e) && SlotsOk(e.scopes, e.nslot) && EncodeStmt(s, e).Some?
    ensures var e1 := EncodeStmt(s, e).value;
            !Terminated(e1) && (!FlowStmt(s, Terminated(e)).live ==> HasDead(e1.code))
    decreases s, 0
  {
    hide SlotsOk, HasDead, EncodeStmt, EncodeOpt, EncodeGuard, LoopOf, FallThrough, NamesGrow, Extends, Frame;
    var t := LoopOf(s, e);
    var b := |e.code|;
    FrameLoop(s, e);
    LoopSizes(s, e);
    LoopExtends(s, e, t.s4.code) by { SelfExtends(t.s4.code); }
    NewBlocksEmpty(PushScope(e), 4);
    assert Terminated(t.s0) == Terminated(e);
    FlowOptExact(s.init, t.s0);
    FlowOptExact(s.body, t.s2);
    FlowOptExact(s.step, t.s3);
    if !FlowOpt(s.init, Terminated(e)).live {
      DeadStays(t.e1.code, t.s4.code);
    } else if Terminated(t.e1) {
      DeadEmit(t.e1, Jump(b));
      DeadStays(t.s1.code, t.s4.code);
    } else if !FlowOpt(s.body, false).live {
      DeadStays(t.e3.code, t.s4.code);
    } else if !FlowOpt(s.step, false).live {
      DeadStays(t.e4.code, t.s4.code);
    } else if Terminated(t.e4) {
      DeadEmit(t.e4, Jump(b));
    }
  }

  // ----- the module -----

  /** The blocks of an accepted program are basic blocks exactly when no
      statement stands behind a return, break or continue. */
  lemma {:induction false} BasicBlocksIff(body: seq<Stmt>)
    requires EncodeModule(body).Some?
    ensures BasicBlocks(EncodeModule(body).value.code) <==> NoDeadStatements(body)
  {
    hide EncodeSeq;
    var e := EncodeSeq(body, Initial).value;
    var e1 := EnsureTailRet(e);
    var ret := Ret(Const(Val(I32, 0)));
    assert SlotsOk(Initial.scopes, Initial.nslot);
    if NoDeadStatements(body) {
      assert Good(Initial, {});
      GoodSeq(body, Initial, {});
      if !Terminated(e) {
        GoodEmit(e, ret, {});
      }
      assert Good(e1, {}) && Terminated(e1);
    } else {
      FlowSeqExact(body, Initial);
      FrameEmit(e, ret);
      SelfExtends(e.code);
      DeadStays(e.code, e1.code);
      DeadNotBasic(e1.code);
    }
  }

  lemma {:induction false} DeadNotBasic(c: Code)
    requires HasDead(c)
    ensures !BasicBlocks(c)
  {
    var b, i :| 0 <= b < |c| && 0 <= i < |c[b]| - 1 && IsTerminator(c[b][i]);
    assert c[b][..|c[b]| - 1][i] == c[b][i];
  }
}
