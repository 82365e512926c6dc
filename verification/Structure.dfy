/** What every encoding step keeps: finished blocks, scopes, targets, names. */
module Structure {
  import opened Ast
  import opened Scalar
  import opened Ir
  import opened Lowering
  import opened Semantics

  /** Code is only ever appended, to existing blocks or as new ones. */
  ghost predicate Extends(c: Code, c1: Code) {
    |c| <= |c1| && forall b | 0 <= b < |c| :: c[b] <= c1[b]
  }

  predicate EndsInTerminator(ins: seq<Instr>) {
    ins != [] && IsTerminator(ins[|ins| - 1])
  }

  /** Encoding from `e` to `e1` appended to the active block only, and left it
      either active or closed by a terminator with a new block active. */
  ghost predicate Frame(e: State, e1: State) {
    && Ok(e) && Ok(e1)
    && |e.code| <= |e1.code|
    && (forall b | 0 <= b < |e.code| && b != e.active :: e1.code[b] == e.code[b])
    && e.code[e.active] <= e1.code[e.active]
    && (e1.active != e.active ==>
          e1.active >= |e.code| && EndsInTerminator(e1.code[e.active])
          && |e1.code[e.active]| > |e.code[e.active]|)
    && e.nreg <= e1.nreg && e.nslot <= e1.nslot
  }

  predicate SameTargets(e: State, e1: State) {
    e1.brk == e.brk && e1.cont == e.cont
  }

  /** An expression moreover adds no name and no slot. */
  ghost predicate ExprFrame(e: State, e1: State) {
    Frame(e, e1) && SameTargets(e, e1) && e1.scopes == e.scopes && e1.nslot == e.nslot
  }

  /** Blocks that nothing has been emitted to yet. */
  ghost predicate Empty(e: State, blocks: set<nat>) {
    forall b | b in blocks :: b < |e.code| && e.code[b] == []
  }

  /** Block `b` is active and nothing has been emitted to it. */
  predicate Starts(e: State, b: nat) {
    e.active == b && b < |e.code| && e.code[b] == []
  }

  lemma {:induction false} ExtendsTrans(a: Code, b: Code, c: Code)
    requires Extends(a, b) && Extends(b, c)
    ensures Extends(a, c)
  {
    forall i | 0 <= i < |a| ensures a[i] <= c[i] {
      assert a[i] <= b[i] && b[i] <= c[i];
    }
  }

  lemma {:induction false} FrameExtends(e: State, e1: State)
    requires Frame(e, e1)
    ensures Extends(e.code, e1.code)
  {
  }

  lemma {:induction false} FrameTrans(e: State, e1: State, e2: State)
    requires Frame(e, e1) && Frame(e1, e2)
    ensures Frame(e, e2)
  {
  }

  lemma {:induction false} FrameEmit(e: State, i: Instr)
    requires Ok(e)
    ensures Frame(e, Emit(e, i))
    ensures Extends(e.code, Emit(e, i).code)
  {
  }

  lemma {:induction false} NewBlocksEmpty(e: State, n: nat)
    requires Ok(e)
    ensures NewBlocks(e, n) == e.(code := NewBlocks(e, n).code)
    ensures |NewBlocks(e, n).code| == |e.code| + n
    ensures forall b | 0 <= b < |e.code| :: NewBlocks(e, n).code[b] == e.code[b]
    ensures forall b | |e.code| <= b < |e.code| + n :: NewBlocks(e, n).code[b] == []
    ensures ExprFrame(e, NewBlocks(e, n))
    decreases n
  {
    if n != 0 {
      NewBlocksEmpty(e.(code := e.code + [[]]), n - 1);
    }
  }

  /** After encoding something from `s` up to a terminator, one of the blocks
      that are new since `e` may become active. */
  lemma {:induction false} Leave(e: State, s: State, e1: State, b: nat)
    requires Frame(e, s) && Frame(s, e1) && EndsInTerminator(e1.code[e1.active])
    requires |e.code| <= b < |s.code|
    requires e1.active == e.active ==> |e1.code[e.active]| > |s.code[e.active]|
    ensures Frame(e, Activate(e1, b))
  {
    if e1.active != e.active {
      assert EndsInTerminator(e1.code[e.active]) by {
        if s.active == e.active {
        } else {
          assert e1.code[e.active] == s.code[e.active];
        }
      }
    }
  }

  /** The paired tail checks emit exactly one jump when control can fall off the
      active block, and none otherwise. */
  lemma {:induction false} OneFallThroughJump(s: State, e: State, target: nat)
    requires Frame(s, e)
    ensures FallThrough(e, s.active, target) ==
            if EndsInTerminator(e.code[e.active]) then e else Emit(e, Jump(target))
    ensures var r := FallThrough(e, s.active, target);
            Frame(s, r) && EndsInTerminator(r.code[r.active]) && r.active == e.active
            && r.scopes == e.scopes && r.nslot == e.nslot && r.nreg == e.nreg && SameTargets(e, r)
  {
  }

  predicate OperandBelow(o: Operand, nreg: nat) {
    o.Reg? ==> o.id < nreg
  }

  lemma {:induction false} FrameLoad(e: State, o: Operand)
    requires Ok(e) && OperandBelow(o, e.nreg)
    ensures var (e1, o1) := LoadVal(e, o);
            ExprFrame(e, e1) && e1.active == e.active
            && OperandBelow(o1, e1.nreg) && !o1.Slot? && OpTy(o1) == OpTy(o)
  {
  }

  /** What holds once a part begun in `s` is closed and block `b` is active. */
  ghost predicate Next(e: State, s: State, e1: State, r: State, b: nat) {
    && Frame(e, r) && r.active == b && Extends(e1.code, r.code) && |s.code| <= |r.code|
    && r.scopes == e1.scopes && r.nslot == e1.nslot && r.nreg == e1.nreg && SameTargets(e1, r)
  }

  lemma {:induction false} NextByTerminator(e: State, s: State, e1: State, i: Instr, b: nat, blocks: set<nat>)
    requires Frame(e, s) && Frame(s, e1) && IsTerminator(i) && |e.code| <= b < |s.code| && Empty(s, blocks)
    ensures Next(e, s, e1, Activate(Emit(e1, i), b), b)
    ensures Empty(Activate(Emit(e1, i), b), blocks - {s.active})
  {
    FrameEmit(e1, i);
    FrameTrans(s, e1, Emit(e1, i));
    Leave(e, s, Emit(e1, i), b);
  }

  lemma {:induction false} NextByFallThrough(e: State, s: State, e1: State, target: nat, b: nat, blocks: set<nat>)
    requires Frame(e, s) && Frame(s, e1) && |e.code| <= b < |s.code| && Empty(s, blocks) && s.active != e.active
    ensures Next(e, s, e1, Activate(FallThrough(e1, s.active, target), b), b)
    ensures Empty(Activate(FallThrough(e1, s.active, target), b), blocks - {s.active})
  {
    OneFallThroughJump(s, e1, target);
    FrameEmit(e1, Jump(target));
    Leave(e, s, FallThrough(e1, s.active, target), b);
  }

  /** Every name stands for the address of a slot of its own. */
  ghost predicate SlotsOk(scopes: seq<Scope>, nslot: nat) {
    && (forall i, x | 0 <= i < |scopes| && x in scopes[i] ::
          scopes[i][x].Slot? && scopes[i][x].id < nslot)
    && (forall i, x, j, y | 0 <= i < |scopes| && x in scopes[i] && 0 <= j < |scopes| && y in scopes[j]
                            && scopes[i][x].id == scopes[j][y].id :: i == j && x == y)
  }

  lemma {:induction false} LookupIn(scopes: seq<Scope>, x: string)
    ensures Lookup(scopes, x).Some? ==>
              exists i :: 0 <= i < |scopes| && x in scopes[i] && scopes[i][x] == Lookup(scopes, x).value
                          && forall j | i < j < |scopes| :: x !in scopes[j]
    ensures Lookup(scopes, x).None? ==> forall i | 0 <= i < |scopes| :: x !in scopes[i]
  {
    if scopes != [] && x !in scopes[|scopes| - 1] {
      LookupIn(scopes[..|scopes| - 1], x);
      assert forall i | 0 <= i < |scopes| - 1 :: scopes[i] == scopes[..|scopes| - 1][i];
    }
  }

  lemma {:induction false} LookupSlot(scopes: seq<Scope>, nslot: nat, x: string)
    requires SlotsOk(scopes, nslot) && Lookup(scopes, x).Some?
    ensures Lookup(scopes, x).value.Slot? && Lookup(scopes, x).value.id < nslot
  {
    LookupIn(scopes, x);
  }

  ghost predicate ExprEncodes(x: Expr, e: State) {
    Ok(e) && SlotsOk(e.scopes, e.nslot) && EncodeExpr(x, e).Some?
  }

  /** Encoding an expression adds no name and no slot and keeps the frame. */
  lemma {:induction false} FrameExpr(x: Expr, e: State)
    requires Ok(e) && SlotsOk(e.scopes, e.nslot) && EncodeExpr(x, e).Some?
    ensures var (e1, o) := EncodeExpr(x, e).value;
            ExprFrame(e, e1) && OperandBelow(o, e1.nreg)
    ensures EncodeExpr(x, e).value.1.Slot? ==> x.Sym?
    decreases x, 2
  {
    hide SlotsOk;
    match x {
      case Sym(name) => LookupSlot(e.scopes, e.nslot, name);
      case Unary(op, a) => FrameVal(a, e);
      case Binary(op, l, r) =>
        FrameBinary(x, e);
      case Trinary(c, t, f) => FrameTrinary(x, e);
      case _ =>
    }
  }

  /** The states between the parts of an accepted binary expression. */
  datatype BinSteps = BinSteps(
    e1: State, ol: Operand, e2: State, or: Operand, e3: State, vl: Operand, e4: State, vr: Operand)

  ghost function BinOf(x: Expr, e: State): (r: BinSteps)
    requires x.Binary? && Ok(e) && EncodeExpr(x, e).Some?
    ensures EncodeExpr(x.left, e) == Some((r.e1, r.ol)) && Ok(r.e1)
    ensures EncodeExpr(x.right, r.e1) == Some((r.e2, r.or)) && Ok(r.e2)
    ensures LoadVal(r.e2, r.ol) == (r.e3, r.vl) && Ok(r.e3)
    ensures LoadVal(r.e3, r.or) == (r.e4, r.vr) && Ok(r.e4)
    ensures var ty := BinTy(x.binop, OpTy(r.vl), OpTy(r.vr));
            ty.Some? && EncodeExpr(x, e).value == BuildBin(r.e4, x.binop, r.vl, r.vr, ty.value)
  {
    var (e1, ol) := EncodeExpr(x.left, e).value;
    var (e2, or) := EncodeExpr(x.right, e1).value;
    var (e3, vl) := LoadVal(e2, ol);
    var (e4, vr) := LoadVal(e3, or);
    BinSteps(e1, ol, e2, or, e3, vl, e4, vr)
  }

  ghost predicate BinFrames(t: BinSteps, e: State) {
    && ExprFrame(e, t.e1) && ExprFrame(t.e1, t.e2) && ExprFrame(t.e2, t.e3) && ExprFrame(t.e3, t.e4)
    && t.e4.active == t.e3.active == t.e2.active
    && OperandBelow(t.ol, t.e1.nreg) && OperandBelow(t.or, t.e2.nreg)
    && OperandBelow(t.vl, t.e3.nreg) && OperandBelow(t.vr, t.e4.nreg)
  }

  lemma {:induction false} FrameBinary(x: Expr, e: State)
    requires x.Binary? && Ok(e) && SlotsOk(e.scopes, e.nslot) && EncodeExpr(x, e).Some?
    ensures BinFrames(BinOf(x, e), e)
    ensures var (e1, o) := EncodeExpr(x, e).value;
            && ExprFrame(e, e1) && e1.active == BinOf(x, e).e2.active
            && !o.Slot? && (o.Reg? ==> e.nreg <= o.id < e1.nreg)
    decreases x, 1
  {
    hide SlotsOk, EncodeExpr, BinOf;
    var t := BinOf(x, e);
    FrameExpr(x.left, e);
    FrameExpr(x.right, t.e1);
    FrameLoad(t.e2, t.ol);
    FrameLoad(t.e3, t.or);
    FrameTrans(e, t.e1, t.e2);
    FrameTrans(e, t.e2, t.e3);
    FrameTrans(e, t.e3, t.e4);
    if FoldBin(x.binop, t.vl, t.vr).None? {
      var i := Bin(t.e4.nreg, x.binop, t.vl, t.vr);
      FrameEmit(t.e4, i);
      FrameTrans(e, t.e4, Emit(t.e4, i));
    }
  }

  lemma {:induction false} FrameVal(x: Expr, e: State)
    requires Ok(e) && SlotsOk(e.scopes, e.nslot) && EncodeVal(x, e).Some?
    ensures var (e1, o) := EncodeVal(x, e).value;
            ExprFrame(e, e1) && OperandBelow(o, e1.nreg)
            && !o.Slot?
    decreases x, 3
  {
    FrameExpr(x, e);
    var (e1, o) := EncodeExpr(x, e).value;
    FrameLoad(e1, o);
  }

  /** The states between the parts of an accepted ternary. */
  datatype TriSteps = TriSteps(
    s1: State, e1: State, oc: Operand,
    s2: State, e2: State, ot: Operand,
    s3: State, e3: State, of: Operand,
    e4: State)

  ghost function TriOf(x: Expr, e: State): (r: TriSteps)
    requires x.Trinary? && Ok(e) && EncodeExpr(x, e).Some?
    ensures Ok(r.s1) && EncodeVal(x.cond, r.s1) == Some((r.e1, r.oc)) && OpTy(r.oc) == I1
    ensures Ok(r.s2) && EncodeVal(x.onTrue, r.s2) == Some((r.e2, r.ot))
    ensures Ok(r.s3) && EncodeVal(x.onFalse, r.s3) == Some((r.e3, r.of))
    ensures Ok(r.e4) && OpTy(r.ot) == OpTy(r.of)
    ensures r.s1 == Activate(Emit(NewBlocks(e, 4), Jump(|e.code|)), |e.code|)
    ensures r.s2 == Activate(Emit(r.e1, JumpCond(r.oc, |e.code| + 1, |e.code| + 2)), |e.code| + 1)
    ensures r.s3 == Activate(Emit(r.e2, Jump(|e.code| + 3)), |e.code| + 2)
    ensures r.e4 == Activate(Emit(r.e3, Jump(|e.code| + 3)), |e.code| + 3)
    ensures EncodeExpr(x, e).value ==
            EmitReg(r.e4, Phi(r.e4.nreg, PhiIncomings(r.ot, |e.code| + 1, r.of, |e.code| + 2)), OpTy(r.ot))
  {
    var b := |e.code|;
    var s1 := Activate(Emit(NewBlocks(e, 4), Jump(b)), b);
    var (e1, oc) := EncodeVal(x.cond, s1).value;
    var s2 := Activate(Emit(e1, JumpCond(oc, b + 1, b + 2)), b + 1);
    var (e2, ot) := EncodeVal(x.onTrue, s2).value;
    var s3 := Activate(Emit(e2, Jump(b + 3)), b + 2);
    var (e3, of) := EncodeVal(x.onFalse, s3).value;
    TriSteps(s1, e1, oc, s2, e2, ot, s3, e3, of, Activate(Emit(e3, Jump(b + 3)), b + 3))
  }

  /** The parts of a ternary keep their frames, and each of its blocks is empty
      when it becomes active. */
  ghost predicate TriFrames(t: TriSteps, e: State) {
    var b := |e.code|;
    && ExprFrame(e, t.s1) && ExprFrame(t.s1, t.e1) && Starts(t.s1, b)
    && ExprFrame(e, t.s2) && ExprFrame(t.s2, t.e2) && Starts(t.s2, b + 1)
    && ExprFrame(e, t.s3) && ExprFrame(t.s3, t.e3) && Starts(t.s3, b + 2)
    && ExprFrame(e, t.e4) && Starts(t.e4, b + 3)
    && OperandBelow(t.oc, t.e1.nreg) && OperandBelow(t.ot, t.e2.nreg) && OperandBelow(t.of, t.e3.nreg)
    && !t.oc.Slot? && !t.ot.Slot? && !t.of.Slot?
  }

  lemma {:induction false} FrameTriCond(x: Expr, e: State)
    requires x.Trinary? && Ok(e) && SlotsOk(e.scopes, e.nslot) && EncodeExpr(x, e).Some?
    ensures var t := TriOf(x, e);
            && ExprFrame(e, t.s1) && ExprFrame(t.s1, t.e1) && Starts(t.s1, |e.code|)
            && ExprFrame(e, t.s2) && t.s2.active == |e.code| + 1 && |t.s2.code| >= |e.code| + 4
            && Empty(t.s2, {|e.code| + 1, |e.code| + 2, |e.code| + 3})
            && OperandBelow(t.oc, t.e1.nreg) && !t.oc.Slot?
    decreases x, 0
  {
    hide SlotsOk, EncodeExpr, EncodeVal, TriOf;
    var b := |e.code|;
    var t := TriOf(x, e);
    var bs := {b, b + 1, b + 2, b + 3};
    NewBlocksEmpty(e, 4);
    NextByTerminator(e, NewBlocks(e, 4), NewBlocks(e, 4), Jump(b), b, bs);
    FrameVal(x.cond, t.s1);
    NextByTerminator(e, t.s1, t.e1, JumpCond(t.oc, b + 1, b + 2), b + 1, bs);
  }

  lemma {:induction false} FrameTrinary(x: Expr, e: State)
    requires x.Trinary? && Ok(e) && SlotsOk(e.scopes, e.nslot) && EncodeExpr(x, e).Some?
    ensures TriFrames(TriOf(x, e), e)
    ensures var (e5, o) := EncodeExpr(x, e).value;
            ExprFrame(e, e5) && OperandBelow(o, e5.nreg) && !o.Slot?
    decreases x, 1
  {
    hide SlotsOk, EncodeExpr, EncodeVal, TriOf;
    var b := |e.code|;
    var t := TriOf(x, e);
    FrameTriCond(x, e);
    FrameVal(x.onTrue, t.s2);
    NextByTerminator(e, t.s2, t.e2, Jump(b + 3), b + 2, {b + 2, b + 3});
    FrameVal(x.onFalse, t.s3);
    NextByTerminator(e, t.s3, t.e3, Jump(b + 3), b + 3, {b + 3});
    FrameEmit(t.e4, Phi(t.e4.nreg, PhiIncomings(t.ot, b + 1, t.of, b + 2)));
    FrameTrans(e, t.e4, Emit(t.e4, Phi(t.e4.nreg, PhiIncomings(t.ot, b + 1, t.of, b + 2))));
  }

  /** All the intermediate code of a part is in the code emitted later. */
  lemma {:induction false} EmitExtends(e: State, i: Instr, code: Code)
    requires Ok(e) && Extends(Emit(e, i).code, code)
    ensures Extends(e.code, code)
  {
    FrameEmit(e, i);
    ExtendsTrans(e.code, Emit(e, i).code, code);
  }

  lemma {:induction false} PartExtends(e: State, e1: State, code: Code)
    requires Frame(e, e1) && Extends(e1.code, code)
    ensures Extends(e.code, code)
  {
    ExtendsTrans(e.code, e1.code, code);
  }

  lemma {:induction false} BinExtends(x: Expr, e: State, code: Code)
    requires x.Binary? && Ok(e) && SlotsOk(e.scopes, e.nslot) && EncodeExpr(x, e).Some?
    requires Extends(EncodeExpr(x, e).value.0.code, code)
    ensures var t := BinOf(x, e);
            && Extends(t.e1.code, code) && Extends(t.e2.code, code) && Extends(t.e3.code, code)
            && Extends(t.e4.code, code)
  {
    hide SlotsOk, EncodeExpr, BinOf, Frame, Extends;
    var t := BinOf(x, e);
    FrameBinary(x, e);
    if FoldBin(x.binop, t.vl, t.vr).None? {
      EmitExtends(t.e4, Bin(t.e4.nreg, x.binop, t.vl, t.vr), code);
    }
    PartExtends(t.e3, t.e4, code);
    PartExtends(t.e2, t.e3, code);
    PartExtends(t.e1, t.e2, code);
  }

  lemma {:induction false} TriExtends(x: Expr, e: State, code: Code)
    requires x.Trinary? && Ok(e) && SlotsOk(e.scopes, e.nslot) && EncodeExpr(x, e).Some?
    requires Extends(EncodeExpr(x, e).value.0.code, code)
    ensures var t := TriOf(x, e);
            && Extends(t.s1.code, code) && Extends(t.e1.code, code) && Extends(t.s2.code, code)
            && Extends(t.e2.code, code) && Extends(t.s3.code, code) && Extends(t.e3.code, code)
            && Extends(t.e4.code, code)
  {
    hide SlotsOk, EncodeExpr, TriOf, Frame, Extends;
    var t := TriOf(x, e);
    var b := |e.code|;
    FrameTrinary(x, e);
    EmitExtends(t.e4, Phi(t.e4.nreg, PhiIncomings(t.ot, b + 1, t.of, b + 2)), code);
    EmitExtends(t.e3, Jump(b + 3), code);
    PartExtends(t.s3, t.e3, code);
    EmitExtends(t.e2, Jump(b + 3), code);
    PartExtends(t.s2, t.e2, code);
    EmitExtends(t.e1, JumpCond(t.oc, b + 1, b + 2), code);
    PartExtends(t.s1, t.e1, code);
  }

  // ----- statements -----

  /** Names are added to the innermost scope only. */
  ghost predicate NamesGrow(a: seq<Scope>, b: seq<Scope>) {
    && |b| == |a|
    && (forall i | 0 <= i < |a| - 1 :: b[i] == a[i])
    && (forall i, x | 0 <= i < |a| && x in a[i] :: x in b[i] && b[i][x] == a[i][x])
  }

  ghost predicate StmtFrame(e: State, e1: State) {
    Frame(e, e1) && SameTargets(e, e1) && NamesGrow(e.scopes, e1.scopes) && SlotsOk(e1.scopes, e1.nslot)
  }

  /** The states between the parts of an accepted `if`. */
  datatype IfSteps = IfSteps(s0: State, e1: State, oc: Operand, s2: State, e2: State, s3: State, e3: State, s4: State)

  ghost function IfOf(s: Stmt, e: State): (r: IfSteps)
    requires s.If? && Ok(e) && EncodeStmt(s, e).Some?
    ensures Ok(r.s0) && EncodeVal(s.cond, r.s0) == Some((r.e1, r.oc)) && OpTy(r.oc) == I1
    ensures Ok(r.s2) && EncodeOpt(s.onTrue, r.s2) == Some(r.e2)
    ensures Ok(r.s3) && EncodeOpt(s.onFalse, r.s3) == Some(r.e3)
    ensures r.s0 == NewBlocks(e, 3)
    ensures r.s2 == Activate(Emit(r.e1, JumpCond(r.oc, |e.code|, |e.code| + 1)), |e.code|)
    ensures |e.code| < |r.e2.code| && |e.code| + 1 < |r.e3.code|
    ensures r.s3 == Activate(FallThrough(r.e2, |e.code|, |e.code| + 2), |e.code| + 1)
    ensures r.s4 == Activate(FallThrough(r.e3, |e.code| + 1, |e.code| + 2), |e.code| + 2)
    ensures EncodeStmt(s, e) == Some(r.s4)
  {
    var b := |e.code|;
    var s0 := NewBlocks(e, 3);
    var (e1, oc) := EncodeVal(s.cond, s0).value;
    var s2 := Activate(Emit(e1, JumpCond(oc, b, b + 1)), b);
    var e2 := EncodeOpt(s.onTrue, s2).value;
    var s3 := Activate(FallThrough(e2, b, b + 2), b + 1);
    var e3 := EncodeOpt(s.onFalse, s3).value;
    IfSteps(s0, e1, oc, s2, e2, s3, e3, Activate(FallThrough(e3, b + 1, b + 2), b + 2))
  }

  /** The states between the parts of an accepted loop. */
  datatype LoopSteps = LoopSteps(
    s0: State, e1: State, s1: State, e2: State, oc: Operand, s2: State, e3: State, s3: State, e4: State, s4: State)

  ghost function LoopOf(s: Stmt, e: State): (r: LoopSteps)
    requires s.Loop? && Ok(e) && EncodeStmt(s, e).Some?
    ensures Ok(r.s0) && EncodeOpt(s.init, r.s0) == Some(r.e1)
    ensures Ok(r.s1) && EncodeGuard(s.guard, r.s1) == Some((r.e2, r.oc)) && OpTy(r.oc) == I1
    ensures Ok(r.s2) && EncodeOpt(s.body, r.s2) == Some(r.e3)
    ensures Ok(r.s3) && EncodeOpt(s.step, r.s3) == Some(r.e4)
    ensures r.s0 == NewBlocks(PushScope(e), 4).(cont := Some(|e.code| + 1), brk := Some(|e.code| + 3))
    ensures r.s1 == Activate(Emit(r.e1, Jump(|e.code|)), |e.code|)
    ensures r.s2 == Activate(Emit(r.e2, JumpCond(r.oc, |e.code| + 2, |e.code| + 3)), |e.code| + 2)
    ensures |e.code| + 2 < |r.e3.code|
    ensures r.s3 == Activate(FallThrough(r.e3, |e.code| + 2, |e.code| + 1), |e.code| + 1)
    ensures r.s4 == Activate(Emit(r.e4, Jump(|e.code|)), |e.code| + 3).(cont := e.cont, brk := e.brk)
    ensures Ok(r.s4) && EncodeStmt(s, e) == Some(PopScope(r.s4))
  {
    assert EncodeStmt(s, e) == EncodeLoop(s, e);
    hide EncodeStmt, EncodeOpt, EncodeGuard, FallThrough, NewBlocks;
    var b := |e.code|;
    var s0 := NewBlocks(PushScope(e), 4).(cont := Some(b + 1), brk := Some(b + 3));
    var e1 := EncodeOpt(s.init, s0).value;
    var s1 := Activate(Emit(e1, Jump(b)), b);
    var (e2, oc) := EncodeGuard(s.guard, s1).value;
    var s2 := Activate(Emit(e2, JumpCond(oc, b + 2, b + 3)), b + 2);
    var e3 := EncodeOpt(s.body, s2).value;
    var s3 := Activate(FallThrough(e3, b + 2, b + 1), b + 1);
    var e4 := EncodeOpt(s.step, s3).value;
    LoopSteps(s0, e1, s1, e2, oc, s2, e3, s3, e4,
              Activate(Emit(e4, Jump(b)), b + 3).(cont := e.cont, brk := e.brk))
  }

  lemma {:induction false} NamesGrowTrans(a: seq<Scope>, b: seq<Scope>, c: seq<Scope>)
    requires NamesGrow(a, b) && NamesGrow(b, c)
    ensures NamesGrow(a, c)
  {
  }

  lemma {:induction false} StmtFrameTrans(e: State, e1: State, e2: State)
    requires StmtFrame(e, e1) && StmtFrame(e1, e2)
    ensures StmtFrame(e, e2)
  {
    FrameTrans(e, e1, e2);
    NamesGrowTrans(e.scopes, e1.scopes, e2.scopes);
  }

  lemma {:induction false} SlotsOkPush(scopes: seq<Scope>, nslot: nat)
    requires SlotsOk(scopes, nslot)
    ensures SlotsOk(scopes + [map[]], nslot)
  {
  }

  lemma {:induction false} SlotsOkPop(scopes: seq<Scope>, nslot: nat)
    requires SlotsOk(scopes, nslot) && |scopes| > 0
    ensures SlotsOk(scopes[..|scopes| - 1], nslot)
  {
    var s := scopes[..|scopes| - 1];
    assert forall i | 0 <= i < |s| :: s[i] == scopes[i];
  }

  lemma {:induction false} SlotsOkDeclare(scopes: seq<Scope>, nslot: nat, x: string, ty: Ty)
    requires SlotsOk(scopes, nslot) && |scopes| > 0 && x !in scopes[|scopes| - 1]
    ensures SlotsOk(scopes[|scopes| - 1 := scopes[|scopes| - 1][x := Slot(nslot, ty)]], nslot + 1)
    ensures NamesGrow(scopes, scopes[|scopes| - 1 := scopes[|scopes| - 1][x := Slot(nslot, ty)]])
  {
  }

  lemma {:induction false} SameScopes(e: State, r: State)
    requires Frame(e, r) && SameTargets(e, r) && r.scopes == e.scopes && r.nslot == e.nslot
    requires SlotsOk(e.scopes, e.nslot)
    ensures StmtFrame(e, r)
  {
  }

  lemma {:induction false} NextStmt(e: State, s: State, e1: State, target: nat, b: nat, blocks: set<nat>)
    requires StmtFrame(e, s) && StmtFrame(s, e1) && |e.code| <= b < |s.code| && Empty(s, blocks)
    requires s.active != e.active
    ensures Next(e, s, e1, Activate(FallThrough(e1, s.active, target), b), b)
    ensures StmtFrame(e, Activate(FallThrough(e1, s.active, target), b))
    ensures Empty(Activate(FallThrough(e1, s.active, target), b), blocks - {s.active})
  {
    NextByFallThrough(e, s, e1, target, b, blocks);
    NamesGrowTrans(e.scopes, s.scopes, e1.scopes);
  }

  /** Leaving the scope opened by a block or a loop restores the scope chain. */
  lemma {:induction false} ScopeExit(e: State, r: State)
    requires Frame(e, r) && SlotsOk(e.scopes, e.nslot) && SlotsOk(r.scopes, r.nslot)
    requires NamesGrow(e.scopes + [map[]], r.scopes)
    ensures PopScope(r).scopes == e.scopes
    ensures SameTargets(e, r) ==> StmtFrame(e, PopScope(r))
  {
    SlotsOkPop(r.scopes, r.nslot);
    assert PopScope(r).scopes == e.scopes;
  }

  /** A statement keeps its frame, the enclosing scopes and the loop targets. */
  lemma {:induction false} FrameStmt(s: Stmt, e: State)
    requires Ok(e) && SlotsOk(e.scopes, e.nslot) && EncodeStmt(s, e).Some?
    ensures StmtFrame(e, EncodeStmt(s, e).value)
    decreases s, 4
  {
    hide SlotsOk, NamesGrow;
    match s {
      case SymbolDef(_, _, _, _) => FrameSymbolDef(s, e);
      case Assign(_, _) => FrameAssign(s, e);
      case Return(Some(v)) =>
        FrameVal(v, e);
        var (e1, o) := EncodeVal(v, e).value;
        FrameEmit(e1, Ret(o));
        SameScopes(e, Emit(e1, Ret(o)));
      case If(c, t, f) => FrameIf(s, e);
      case Loop(_, _, _, _) => FrameLoop(s, e);
      case Break =>
        FrameEmit(e, Jump(e.brk.value));
        SameScopes(e, Emit(e, Jump(e.brk.value)));
      case Continue =>
        FrameEmit(e, Jump(e.cont.value));
        SameScopes(e, Emit(e, Jump(e.cont.value)));
      case Block(ss) =>
        SlotsOkPush(e.scopes, e.nslot);
        FrameSeq(ss, PushScope(e));
        ScopeExit(e, EncodeSeq(ss, PushScope(e)).value);
      case _ =>
    }
  }

  lemma {:induction false} FrameSymbolDef(s: Stmt, e: State)
    requires s.SymbolDef? && Ok(e) && SlotsOk(e.scopes, e.nslot) && EncodeStmt(s, e).Some?
    ensures StmtFrame(e, EncodeStmt(s, e).value)
  {
    hide SlotsOk, NamesGrow;
    FrameVal(s.value, e);
    var (e1, o) := EncodeVal(s.value, e).value;
    var e2 := Emit(e1, Alloc(e1.nslot));
    FrameEmit(e1, Alloc(e1.nslot));
    FrameEmit(e2, Store(e1.nslot, o));
    FrameTrans(e1, e2, Emit(e2, Store(e1.nslot, o)));
    FrameTrans(e, e1, Emit(e2, Store(e1.nslot, o)));
    SlotsOkDeclare(e.scopes, e.nslot, s.name, OpTy(o));
  }

  lemma {:induction false} FrameAssign(s: Stmt, e: State)
    requires s.Assign? && Ok(e) && SlotsOk(e.scopes, e.nslot) && EncodeStmt(s, e).Some?
    ensures StmtFrame(e, EncodeStmt(s, e).value)
    ensures s.left.Sym?
  {
    hide SlotsOk;
    FrameExpr(s.left, e);
    var (e1, ol) := EncodeExpr(s.left, e).value;
    FrameVal(s.right, e1);
    var (e2, or) := EncodeVal(s.right, e1).value;
    FrameEmit(e2, Store(ol.id, or));
    SameScopes(e, Emit(e2, Store(ol.id, or)));
  }

  lemma {:induction false} FrameOpt(o: Option<Stmt>, e: State)
    requires Ok(e) && SlotsOk(e.scopes, e.nslot) && EncodeOpt(o, e).Some?
    ensures StmtFrame(e, EncodeOpt(o, e).value)
    decreases o, 5
  {
    hide SlotsOk, NamesGrow;
    if o.None? {
      SameScopes(e, e);
    } else {
      FrameStmt(o.value, e);
    }
  }

  /** A branch or body that moved the active block left its first block closed,
      so the two tail checks together emit one jump or none. */
  lemma {:induction false} FallThroughOnce(o: Option<Stmt>, s: State, target: nat)
    requires Ok(s) && SlotsOk(s.scopes, s.nslot) && EncodeOpt(o, s).Some?
    ensures var e := EncodeOpt(o, s).value;
            && (e.active != s.active ==> EndsInTerminator(e.code[s.active]))
            && FallThrough(e, s.active, target) ==
               (if EndsInTerminator(e.code[e.active]) then e else Emit(e, Jump(target)))
  {
    hide SlotsOk, NamesGrow, EncodeOpt, FallThrough;
    FrameOpt(o, s);
    OneFallThroughJump(s, EncodeOpt(o, s).value, target);
  }

  lemma {:induction false} FrameSeq(ss: seq<Stmt>, e: State)
    requires Ok(e) && SlotsOk(e.scopes, e.nslot) && EncodeSeq(ss, e).Some?
    ensures StmtFrame(e, EncodeSeq(ss, e).value)
    decreases ss, 5
  {
    hide SlotsOk, NamesGrow;
    if ss == [] {
      SameScopes(e, e);
    } else {
      FrameStmt(ss[0], e);
      var e1 := EncodeStmt(ss[0], e).value;
      FrameSeq(ss[1..], e1);
      StmtFrameTrans(e, e1, EncodeSeq(ss, e).value);
    }
  }

  lemma {:induction false} FrameGuard(o: Option<Expr>, e: State)
    requires Ok(e) && SlotsOk(e.scopes, e.nslot) && EncodeGuard(o, e).Some?
    ensures var (e1, v) := EncodeGuard(o, e).value;
            ExprFrame(e, e1) && OperandBelow(v, e1.nreg)
            && !v.Slot?
  {
    if o.Some? {
      FrameVal(o.value, e);
    }
  }

  /** The same for an `if`. */
  ghost predicate IfFrames(t: IfSteps, e: State) {
    var b := |e.code|;
    && ExprFrame(e, t.s0) && ExprFrame(t.s0, t.e1)
    && StmtFrame(e, t.s2) && StmtFrame(t.s2, t.e2) && Starts(t.s2, b) && t.s2.scopes == e.scopes
    && StmtFrame(e, t.s3) && StmtFrame(t.s3, t.e3) && Starts(t.s3, b + 1)
    && StmtFrame(e, t.s4) && Starts(t.s4, b + 2)
    && OperandBelow(t.oc, t.e1.nreg) && !t.oc.Slot?
  }

  lemma {:induction false} FrameIfCond(s: Stmt, e: State)
    requires s.If? && Ok(e) && SlotsOk(e.scopes, e.nslot) && EncodeStmt(s, e).Some?
    ensures var t := IfOf(s, e);
            && ExprFrame(e, t.s0) && ExprFrame(t.s0, t.e1) && OperandBelow(t.oc, t.e1.nreg) && !t.oc.Slot?
            && StmtFrame(e, t.s2) && t.s2.scopes == e.scopes && |t.s2.code| >= |e.code| + 3
            && Empty(t.s2, {|e.code|, |e.code| + 1, |e.code| + 2})
  {
    hide SlotsOk, NamesGrow, EncodeStmt, EncodeOpt, EncodeVal, IfOf;
    var b := |e.code|;
    var t := IfOf(s, e);
    NewBlocksEmpty(e, 3);
    FrameVal(s.cond, t.s0);
    NextByTerminator(e, t.s0, t.e1, JumpCond(t.oc, b, b + 1), b, {b, b + 1, b + 2});
    SameScopes(e, t.s2);
  }

  lemma {:induction false} FrameIf(s: Stmt, e: State)
    requires s.If? && Ok(e) && SlotsOk(e.scopes, e.nslot) && EncodeStmt(s, e).Some?
    ensures IfFrames(IfOf(s, e), e)
    decreases s, 0
  {
    hide SlotsOk, NamesGrow, EncodeStmt, EncodeOpt, EncodeVal, IfOf, FallThrough;
    var b := |e.code|;
    var t := IfOf(s, e);
    FrameIfCond(s, e);
    FrameOpt(s.onTrue, t.s2);
    NextStmt(e, t.s2, t.e2, b + 2, b + 1, {b + 1, b + 2});
    FrameOpt(s.onFalse, t.s3);
    NextStmt(e, t.s3, t.e3, b + 2, b + 2, {b + 2});
  }

  /** The same for a loop. */
  ghost predicate LoopFrames(t: LoopSteps, e: State) {
    var b := |e.code|;
    && LoopHead(t, e)
    && StmtFrame(t.s2, t.e3)
    && Frame(e, t.s3) && Starts(t.s3, b + 1) && SameTargets(t.s0, t.s3) && StmtFrame(t.s3, t.e4)
    && NamesGrow(t.s1.scopes, t.s3.scopes) && SlotsOk(t.s3.scopes, t.s3.nslot) && t.s3.scopes == t.e3.scopes
    && Frame(e, t.s4) && Starts(t.s4, b + 3) && NamesGrow(t.s3.scopes, t.s4.scopes)
  }

  ghost predicate LoopInit(t: LoopSteps, e: State) {
    var b := |e.code|;
    && Frame(e, t.s0) && StmtFrame(t.s0, t.e1) && t.s0.scopes == e.scopes + [map[]]
    && SlotsOk(t.s0.scopes, t.s0.nslot)
    && Frame(e, t.s1) && Starts(t.s1, b) && SameTargets(t.s0, t.s1) && |t.s1.code| >= b + 4
    && NamesGrow(t.s0.scopes, t.s1.scopes) && SlotsOk(t.s1.scopes, t.s1.nslot) && t.s1.scopes == t.e1.scopes
    && Empty(t.s1, {b, b + 1, b + 2, b + 3})
  }

  ghost predicate LoopHead(t: LoopSteps, e: State) {
    var b := |e.code|;
    && LoopInit(t, e) && ExprFrame(t.s1, t.e2) && OperandBelow(t.oc, t.e2.nreg) && !t.oc.Slot?
    && Frame(e, t.s2) && Starts(t.s2, b + 2) && SameTargets(t.s0, t.s2)
    && t.s2.scopes == t.s1.scopes && t.s2.nslot == t.s1.nslot
    && |t.s2.code| >= b + 4 && Empty(t.s2, {b + 1, b + 2, b + 3})
  }

  lemma {:induction false} FrameLoopInit(s: Stmt, e: State)
    requires s.Loop? && Ok(e) && SlotsOk(e.scopes, e.nslot) && EncodeStmt(s, e).Some?
    ensures LoopInit(LoopOf(s, e), e)
    decreases s, 0
  {
    hide EncodeStmt, EncodeOpt, EncodeGuard, LoopOf, SlotsOk, NamesGrow;
    var b := |e.code|;
    var t := LoopOf(s, e);
    NewBlocksEmpty(PushScope(e), 4);
    SlotsOkPush(e.scopes, e.nslot);
    FrameOpt(s.init, t.s0);
    NextByTerminator(e, t.s0, t.e1, Jump(b), b, {b, b + 1, b + 2, b + 3});
  }

  lemma {:induction false} FrameLoopHead(s: Stmt, e: State)
    requires s.Loop? && Ok(e) && SlotsOk(e.scopes, e.nslot) && EncodeStmt(s, e).Some?
    ensures LoopHead(LoopOf(s, e), e)
    decreases s, 1
  {
    hide EncodeStmt, EncodeOpt, EncodeGuard, LoopOf, SlotsOk, NamesGrow;
    var b := |e.code|;
    var t := LoopOf(s, e);
    FrameLoopInit(s, e);
    FrameGuard(s.guard, t.s1);
    NextByTerminator(e, t.s1, t.e2, JumpCond(t.oc, b + 2, b + 3), b + 2, {b + 1, b + 2, b + 3});
  }

  lemma {:induction false} FrameLoop(s: Stmt, e: State)
    requires s.Loop? && Ok(e) && SlotsOk(e.scopes, e.nslot) && EncodeStmt(s, e).Some?
    ensures LoopFrames(LoopOf(s, e), e)
    ensures StmtFrame(e, EncodeStmt(s, e).value) && EncodeStmt(s, e).value.scopes == e.scopes
    decreases s, 3
  {
    hide EncodeStmt, EncodeOpt, EncodeGuard, LoopOf, SlotsOk, NamesGrow, FallThrough;
    var b := |e.code|;
    var t := LoopOf(s, e);
    FrameLoopBody(s, e);
    FrameOpt(s.step, t.s3);
    NextByTerminator(e, t.s3, t.e4, Jump(b), b + 3, {b + 3});
    NamesGrowTrans(t.s0.scopes, t.s1.scopes, t.s3.scopes);
    NamesGrowTrans(t.s0.scopes, t.s3.scopes, t.s4.scopes);
    ScopeExit(e, t.s4);
  }

  lemma {:induction false} FrameLoopBody(s: Stmt, e: State)
    requires s.Loop? && Ok(e) && SlotsOk(e.scopes, e.nslot) && EncodeStmt(s, e).Some?
    ensures var t := LoopOf(s, e);
            var b := |e.code|;
            && LoopHead(t, e) && StmtFrame(t.s2, t.e3)
            && Frame(e, t.s3) && Starts(t.s3, b + 1) && SameTargets(t.s0, t.s3)
            && NamesGrow(t.s1.scopes, t.s3.scopes) && SlotsOk(t.s3.scopes, t.s3.nslot) && t.s3.scopes == t.e3.scopes
            && b + 3 < |t.s3.code| && Empty(t.s3, {b + 3})
    decreases s, 2
  {
    hide EncodeStmt, EncodeOpt, EncodeGuard, LoopOf, SlotsOk, NamesGrow, FallThrough;
    var b := |e.code|;
    var t := LoopOf(s, e);
    FrameLoopHead(s, e);
    FrameOpt(s.body, t.s2);
    NextByFallThrough(e, t.s2, t.e3, b + 1, b + 1, {b + 1, b + 3});
  }

  lemma {:induction false} FallThroughExtends(e: State, start: nat, target: nat, code: Code)
    requires Ok(e) && start < |e.code| && Extends(FallThrough(e, start, target).code, code)
    ensures Extends(e.code, code)
  {
    hide Extends;
    var e1 := if e.active != start && !IsTerminatorIns(e, None) then Emit(e, Jump(target)) else e;
    if !IsTerminatorIns(e1, BlockTail(e1, start)) {
      EmitExtends(e1, Jump(target), code);
    }
    if e1 != e {
      EmitExtends(e, Jump(target), code);
    }
  }

  lemma {:induction false} IfExtends(s: Stmt, e: State, code: Code)
    requires s.If? && Ok(e) && SlotsOk(e.scopes, e.nslot) && EncodeStmt(s, e).Some?
    requires Extends(EncodeStmt(s, e).value.code, code)
    ensures var t := IfOf(s, e);
            && Extends(t.e1.code, code) && Extends(t.s2.code, code) && Extends(t.e2.code, code)
            && Extends(FallThrough(t.e2, |e.code|, |e.code| + 2).code, code)
            && Extends(t.s3.code, code) && Extends(t.e3.code, code)
            && Extends(FallThrough(t.e3, |e.code| + 1, |e.code| + 2).code, code)
  {
    hide SlotsOk, NamesGrow, EncodeStmt, EncodeOpt, EncodeVal, IfOf, Frame, Extends, FallThrough;
    var t := IfOf(s, e);
    var b := |e.code|;
    FrameIf(s, e);
    FallThroughExtends(t.e3, b + 1, b + 2, code);
    PartExtends(t.s3, t.e3, code);
    FallThroughExtends(t.e2, b, b + 2, code);
    PartExtends(t.s2, t.e2, code);
    EmitExtends(t.e1, JumpCond(t.oc, b, b + 1), code);
  }

  lemma {:induction false} LoopExtends(s: Stmt, e: State, code: Code)
    requires s.Loop? && Ok(e) && SlotsOk(e.scopes, e.nslot) && EncodeStmt(s, e).Some?
    requires Extends(EncodeStmt(s, e).value.code, code)
    ensures var t := LoopOf(s, e);
            && Extends(t.e1.code, code) && Extends(t.s1.code, code) && Extends(t.e2.code, code)
            && Extends(t.s2.code, code) && Extends(t.e3.code, code)
            && Extends(FallThrough(t.e3, |e.code| + 2, |e.code| + 1).code, code)
            && Extends(t.s3.code, code) && Extends(t.e4.code, code) && Extends(t.s4.code, code)
  {
    hide SlotsOk, NamesGrow, EncodeStmt, EncodeOpt, EncodeGuard, LoopOf, Frame, Extends, FallThrough;
    var t := LoopOf(s, e);
    var b := |e.code|;
    FrameLoop(s, e);
    EmitExtends(t.e4, Jump(b), code);
    PartExtends(t.s3, t.e4, code);
    FallThroughExtends(t.e3, b + 2, b + 1, code);
    PartExtends(t.s2, t.e3, code);
    EmitExtends(t.e2, JumpCond(t.oc, b + 2, b + 3), code);
    PartExtends(t.s1, t.e2, code);
    EmitExtends(t.e1, Jump(b), code);
  }

  /** A statement that is not itself a definition leaves the scopes as they were. */
  lemma {:induction false} ScopedKeeps(s: Stmt, e: State)
    requires Ok(e) && SlotsOk(e.scopes, e.nslot) && EncodeStmt(s, e).Some?
    requires Scoped(s) && !s.SymbolDef?
    ensures EncodeStmt(s, e).value.scopes == e.scopes
    decreases s
  {
    hide SlotsOk, NamesGrow;
    match s {
      case Assign(l, r) =>
        FrameExpr(l, e);
        FrameVal(r, EncodeExpr(l, e).value.0);
      case Return(Some(v)) => FrameVal(v, e);
      case If(_, t, f) => ScopedKeepsIf(s, e);
      case Loop(_, _, _, _) => FrameLoop(s, e);
      case Block(ss) =>
        SlotsOkPush(e.scopes, e.nslot);
        FrameSeq(ss, PushScope(e));
        ScopeExit(e, EncodeSeq(ss, PushScope(e)).value);
      case _ =>
    }
  }

  lemma {:induction false} ScopedKeepsIf(s: Stmt, e: State)
    requires s.If? && Ok(e) && SlotsOk(e.scopes, e.nslot) && EncodeStmt(s, e).Some? && Scoped(s)
    ensures var t := IfOf(s, e);
            t.s2.scopes == e.scopes && t.e2.scopes == e.scopes && t.s3.scopes == e.scopes
            && t.e3.scopes == e.scopes && t.s4.scopes == e.scopes
    decreases s, 0
  {
    hide SlotsOk, NamesGrow, IfOf, Frame;
    var t := IfOf(s, e);
    FrameIf(s, e);
    if s.onTrue.Some? {
      ScopedKeeps(s.onTrue.value, t.s2);
    }
    if s.onFalse.Some? {
      ScopedKeeps(s.onFalse.value, t.s3);
    }
  }

  lemma {:induction false} ScopedKeepsLoop(s: Stmt, e: State)
    requires s.Loop? && Ok(e) && SlotsOk(e.scopes, e.nslot) && EncodeStmt(s, e).Some? && Scoped(s)
    ensures var t := LoopOf(s, e);
            t.s2.scopes == t.s1.scopes && t.e3.scopes == t.s1.scopes && t.s3.scopes == t.s1.scopes
  {
    hide SlotsOk, NamesGrow, LoopOf, Frame, EncodeStmt;
    var t := LoopOf(s, e);
    FrameLoop(s, e);
    if s.body.Some? {
      ScopedKeeps(s.body.value, t.s2);
    }
  }
}
