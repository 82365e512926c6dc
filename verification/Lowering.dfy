/** What the coder emits for a tree, as a function of the module state. */
module Lowering {
  import opened Ast
  import opened Scalar
  import opened Ir

  type Scope = map<string, Operand>

  /** The module's mutable state: the function's blocks, the active block, the
      scope chain (innermost last) and the targets of break and continue. */
  datatype State = State(
    code: Code,
    active: nat,
    nreg: nat,
    nslot: nat,
    scopes: seq<Scope>,
    brk: Option<nat>,
    cont: Option<nat>)

  predicate Ok(e: State) {
    e.active < |e.code| && |e.scopes| > 0
  }

  /** `e1` is a later state of the same module. */
  predicate Later(e: State, e1: State) {
    Ok(e1) && |e1.code| >= |e.code|
  }

  // ----- blocks -----

  function NewBlocks(e: State, n: nat): (r: State)
    ensures |r.code| == |e.code| + n
    decreases n
  {
    if n == 0 then e else NewBlocks(e.(code := e.code + [[]]), n - 1)
  }

  /** Blocks created one by one. */
  lemma {:induction false} FewBlocks(e: State)
    ensures NewBlocks(e, 3) == e.(code := e.code + [[]] + [[]] + [[]])
    ensures NewBlocks(e, 4) == e.(code := e.code + [[]] + [[]] + [[]] + [[]])
  {
    assert NewBlocks(e, 4) == NewBlocks(e.(code := e.code + [[]]), 3);
  }

  function Activate(e: State, b: nat): State {
    e.(active := b)
  }

  function Emit(e: State, i: Instr): State
    requires Ok(e)
  {
    e.(code := e.code[e.active := e.code[e.active] + [i]])
  }

  /** Emits an instruction whose result is the next register. */
  function EmitReg(e: State, i: Instr, ty: Ty): (State, Operand)
    requires Ok(e)
  {
    (Emit(e, i).(nreg := e.nreg + 1), Reg(e.nreg, ty))
  }

  function BlockTail(e: State, b: nat): Option<Instr>
    requires b < |e.code|
  {
    if e.code[b] == [] then None else Some(e.code[b][|e.code[b]| - 1])
  }

  /** Without an instruction the question is about the active block's tail. */
  function IsTerminatorIns(e: State, ins: Option<Instr>): bool
    requires Ok(e)
  {
    match ins
    case Some(i) => IsTerminator(i)
    case None =>
      match BlockTail(e, e.active)
      case None => false
      case Some(i) => IsTerminator(i)
  }

  /** The two tail checks that close a branch or a loop body begun in `start`. */
  function FallThrough(e: State, start: nat, target: nat): (r: State)
    requires Ok(e) && start < |e.code|
    ensures Later(e, r)
  {
    var e1 := if e.active != start && !IsTerminatorIns(e, None) then Emit(e, Jump(target)) else e;
    if !IsTerminatorIns(e1, BlockTail(e1, start)) then Emit(e1, Jump(target)) else e1
  }

  // ----- names -----

  function PushScope(e: State): State {
    e.(scopes := e.scopes + [map[]])
  }

  /** The root scope is never popped. */
  function PopScope(e: State): State
    requires Ok(e)
  {
    if |e.scopes| == 1 then e else e.(scopes := e.scopes[..|e.scopes| - 1])
  }

  function Lookup(scopes: seq<Scope>, x: string): Option<Operand> {
    if scopes == [] then None
    else if x in scopes[|scopes| - 1] then Some(scopes[|scopes| - 1][x])
    else Lookup(scopes[..|scopes| - 1], x)
  }

  function Top(e: State): Scope
    requires Ok(e)
  {
    e.scopes[|e.scopes| - 1]
  }

  function Declare(e: State, x: string, o: Operand): State
    requires Ok(e)
  {
    e.(scopes := e.scopes[|e.scopes| - 1 := Top(e)[x := o]])
  }

  // ----- expressions -----

  /** The constant for a literal: 64 bits wide when the value read as an
      unsigned 64-bit number exceeds 0xFFFFFFFF, else 32. */
  function LiteralVal(n: int): Val {
    var ty := if n % 0x1_0000_0000_0000_0000 > 0xFFFF_FFFF then I64 else I32;
    Val(ty, Wrap(ty, n))
  }

  function OpTy(o: Operand): Ty {
    match o
    case Const(v) => v.ty
    case Reg(_, ty) => ty
    case Slot(_, ty) => ty
  }

  /** The builder computes an operation on constants, if it has a result, and
      emits no instruction. */
  function FoldUn(op: UnOp, a: Operand): Option<Val> {
    if a.Const? then EvalUn(op, a.val) else None
  }

  function FoldBin(op: BinOp, a: Operand, b: Operand): Option<Val> {
    if a.Const? && b.Const? then EvalBin(op, a.val, b.val) else None
  }

  function BuildUn(e: State, op: UnOp, a: Operand, ty: Ty): (r: (State, Operand))
    requires Ok(e)
    ensures Later(e, r.0)
  {
    match FoldUn(op, a)
    case Some(v) => (e, Const(v))
    case None => EmitReg(e, Un(e.nreg, op, a), ty)
  }

  function BuildBin(e: State, op: BinOp, a: Operand, b: Operand, ty: Ty): (r: (State, Operand))
    requires Ok(e)
    ensures Later(e, r.0)
  {
    match FoldBin(op, a, b)
    case Some(v) => (e, Const(v))
    case None => EmitReg(e, Bin(e.nreg, op, a, b), ty)
  }

  /** An address is read through; any other operand is itself. */
  function LoadVal(e: State, o: Operand): (r: (State, Operand))
    requires Ok(e)
    ensures Later(e, r.0)
  {
    match o
    case Slot(s, ty) => EmitReg(e, Load(e.nreg, s), ty)
    case Const(_) => (e, o)
    case Reg(_, _) => (e, o)
  }

  /** Incomings keyed by value: of two equal values only the first is kept. */
  function PhiIncomings(t: Operand, fromT: nat, f: Operand, fromF: nat): seq<Incoming> {
    if t == f then [Incoming(t, fromT)] else [Incoming(t, fromT), Incoming(f, fromF)]
  }

  function EncodeExpr(x: Expr, e: State): (r: Option<(State, Operand)>)
    requires Ok(e)
    ensures r.Some? ==> Later(e, r.value.0)
    decreases x, 0
  {
    match x
    case IntLit(n) => Some((e, Const(LiteralVal(n))))
    case BoolLit(b) => Some((e, Const(BoolVal(b))))
    case Sym(name) =>
      (match Lookup(e.scopes, name)
       case None => None
       case Some(o) => Some((e, o)))
    case Unary(op, a) =>
      (match EncodeVal(a, e)
       case None => None
       case Some((e1, o)) =>
         match UnTy(op, OpTy(o))
         case None => None
         case Some(ty) =>
           if op == Pos then Some((e1, o)) else Some(BuildUn(e1, op, o, ty)))
    case Binary(op, l, r) =>
      (match EncodeExpr(l, e)
       case None => None
       case Some((e1, ol)) =>
         match EncodeExpr(r, e1)
         case None => None
         case Some((e2, or)) =>
           var (e3, vl) := LoadVal(e2, ol);
           var (e4, vr) := LoadVal(e3, or);
           match BinTy(op, OpTy(vl), OpTy(vr))
           case None => None
           case Some(ty) => Some(BuildBin(e4, op, vl, vr, ty)))
    case Trinary(c, t, f) =>
      var b := |e.code|;
      var e0 := NewBlocks(e, 4);
      (match EncodeVal(c, Activate(Emit(e0, Jump(b)), b))
       case None => None
       case Some((e1, oc)) =>
         if OpTy(oc) != I1 then None else
         match EncodeVal(t, Activate(Emit(e1, JumpCond(oc, b + 1, b + 2)), b + 1))
         case None => None
         case Some((e2, ot)) =>
           match EncodeVal(f, Activate(Emit(e2, Jump(b + 3)), b + 2))
           case None => None
           case Some((e3, of)) =>
             var e4 := Activate(Emit(e3, Jump(b + 3)), b + 3);
             if OpTy(ot) != OpTy(of) then None else
             Some(EmitReg(e4, Phi(e4.nreg, PhiIncomings(ot, b + 1, of, b + 2)), OpTy(ot))))
    case FloatLit(_) => None
    case StrLit(_) => None
    case Index(_, _) => None
    case Field(_, _) => None
    case Call(_, _) => None
    case Array(_) => None
  }

  /** An expression followed by `get_ptr_val` on its result. */
  function EncodeVal(x: Expr, e: State): (r: Option<(State, Operand)>)
    requires Ok(e)
    ensures r.Some? ==> Later(e, r.value.0)
    decreases x, 1
  {
    match EncodeExpr(x, e)
    case None => None
    case Some((e1, o)) => Some(LoadVal(e1, o))
  }

  // ----- statements -----

  function EncodeStmt(s: Stmt, e: State): (r: Option<State>)
    requires Ok(e)
    ensures r.Some? ==> Later(e, r.value)
    decreases s, 1
  {
    match s
    case SymbolDef(_, x, ty, v) =>
      if x in Top(e) || ty.Some? then None else
      (match EncodeVal(v, e)
       case None => None
       case Some((e1, o)) =>
         var slot := e1.nslot;
         var e2 := Emit(Emit(e1, Alloc(slot)), Store(slot, o)).(nslot := slot + 1);
         if x in Top(e2) then None else Some(Declare(e2, x, Slot(slot, OpTy(o)))))
    case Assign(l, r) =>
      (match EncodeExpr(l, e)
       case None => None
       case Some((e1, ol)) =>
         match EncodeVal(r, e1)
         case None => None
         case Some((e2, or)) =>
           if ol.Slot? && ol.ty == OpTy(or) then Some(Emit(e2, Store(ol.id, or))) else None)
    case Invoke(_) => None
    case Return(None) => None
    case Return(Some(v)) =>
      (match EncodeVal(v, e)
       case None => None
       case Some((e1, o)) => if OpTy(o) == I32 then Some(Emit(e1, Ret(o))) else None)
    case If(c, t, f) =>
      var b := |e.code|;
      (match EncodeVal(c, NewBlocks(e, 3))
       case None => None
       case Some((e1, oc)) =>
         if OpTy(oc) != I1 then None else
         match EncodeOpt(t, Activate(Emit(e1, JumpCond(oc, b, b + 1)), b))
         case None => None
         case Some(e2) =>
           match EncodeOpt(f, Activate(FallThrough(e2, b, b + 2), b + 1))
           case None => None
           case Some(e3) => Some(Activate(FallThrough(e3, b + 1, b + 2), b + 2)))
    case Loop(_, _, _, _) => EncodeLoop(s, e)
    case Break =>
      (match e.brk
       case None => None
       case Some(b) => Some(Emit(e, Jump(b))))
    case Continue =>
      (match e.cont
       case None => None
       case Some(b) => Some(Emit(e, Jump(b))))
    case Block(ss) =>
      match EncodeSeq(ss, PushScope(e))
      case None => None
      case Some(e1) => Some(PopScope(e1))
  }

  /** Entered with the scope and the targets of its own, left without them. */
  function EncodeLoop(s: Stmt, e: State): (r: Option<State>)
    requires s.Loop? && Ok(e)
    ensures r.Some? ==> Later(e, r.value)
    decreases s, 0
  {
    var b := |e.code|;
    var e0 := NewBlocks(PushScope(e), 4).(cont := Some(b + 1), brk := Some(b + 3));
    match EncodeOpt(s.init, e0)
    case None => None
    case Some(e1) =>
      match EncodeGuard(s.guard, Activate(Emit(e1, Jump(b)), b))
      case None => None
      case Some((e2, oc)) =>
        if OpTy(oc) != I1 then None else
        match EncodeOpt(s.body, Activate(Emit(e2, JumpCond(oc, b + 2, b + 3)), b + 2))
        case None => None
        case Some(e3) =>
          match EncodeOpt(s.step, Activate(FallThrough(e3, b + 2, b + 1), b + 1))
          case None => None
          case Some(e4) =>
            Some(PopScope(Activate(Emit(e4, Jump(b)), b + 3).(cont := e.cont, brk := e.brk)))
  }

  /** A null child emits nothing. */
  function EncodeOpt(o: Option<Stmt>, e: State): (r: Option<State>)
    requires Ok(e)
    ensures r.Some? ==> Later(e, r.value)
    decreases o, 2
  {
    match o
    case None => Some(e)
    case Some(s) => EncodeStmt(s, e)
  }

  /** A loop without a condition tests the constant true. */
  function EncodeGuard(o: Option<Expr>, e: State): (r: Option<(State, Operand)>)
    requires Ok(e)
    ensures r.Some? ==> Later(e, r.value.0)
  {
    match o
    case None => Some((e, Const(BoolVal(true))))
    case Some(c) => EncodeVal(c, e)
  }

  function EncodeSeq(ss: seq<Stmt>, e: State): (r: Option<State>)
    requires Ok(e)
    ensures r.Some? ==> Later(e, r.value)
    decreases ss, 2
  {
    if ss == [] then Some(e) else
    match EncodeStmt(ss[0], e)
    case None => None
    case Some(e1) => EncodeSeq(ss[1..], e1)
  }

  // ----- the module -----

  /** The entry block is active; the root scope has one child. */
  const Initial := State([[]], 0, 0, 0, [map[], map[]], None, None)

  /** A module that falls off its end returns the default value of i32. */
  function EnsureTailRet(e: State): (r: State)
    requires Ok(e)
    ensures Later(e, r)
  {
    if IsTerminatorIns(e, BlockTail(e, e.active)) then e else Emit(e, Ret(Const(Val(I32, 0))))
  }

  function EncodeModule(body: seq<Stmt>): Option<State> {
    match EncodeSeq(body, Initial)
    case None => None
    case Some(e) => Some(PopScope(EnsureTailRet(e)))
  }
}
