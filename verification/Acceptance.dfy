/** Which programs the coder accepts, told by a check of names and types that
    knows nothing of blocks and operands. */
module Acceptance {
  import opened Ast
  import opened Scalar
  import opened Ir
  import opened Lowering
  import opened Semantics
  import opened Structure

  /** The types of the names in scope, innermost scope last. */
  type Names = seq<map<string, Ty>>

  /** The innermost definition counts. */
  function NameType(names: Names, x: string): Option<Ty> {
    if names == [] then None
    else
      var top := names[|names| - 1];
      if x in top then Some(top[x]) else NameType(names[..|names| - 1], x)
  }

  function PrefixType(op: UnOp, a: Ty): Option<Ty> {
    if op == SizeOf || op == TypeOf || (op == Not && a != I1) then None else Some(a)
  }

  function OperatorType(op: BinOp, a: Ty, b: Ty): Option<Ty> {
    if a != b || ((op == And || op == Or) && a != I1) then None
    else if op in {And, Or, Eq, Ne, Lt, Gt, Le, Ge} then Some(I1)
    else Some(a)
  }

  function ExprType(x: Expr, names: Names): Option<Ty> {
    match x
    case IntLit(n) => Some(if n % 0x1_0000_0000_0000_0000 <= 0xFFFF_FFFF then I32 else I64)
    case BoolLit(_) => Some(I1)
    case Sym(name) => NameType(names, name)
    case Unary(op, a) =>
      (match ExprType(a, names)
       case None => None
       case Some(t) => PrefixType(op, t))
    case Binary(op, l, r) =>
      (match (ExprType(l, names), ExprType(r, names))
       case (Some(t), Some(u)) => OperatorType(op, t, u)
       case _ => None)
    case Trinary(c, t, f) =>
      if ExprType(c, names) == Some(I1) && ExprType(t, names) == ExprType(f, names) then ExprType(t, names) else None
    case _ => None
  }

  /** The names in scope behind the statement, if it is accepted. */
  function CheckStmt(s: Stmt, names: Names, inLoop: bool): (r: Option<Names>)
    requires names != []
    ensures r.Some? ==> |r.value| == |names|
    decreases s, 1
  {
    match s
    case SymbolDef(_, x, ty, v) =>
      var n := |names| - 1;
      if ty.Some? || x in names[n] || ExprType(v, names).None? then None
      else Some(names[n := names[n][x := ExprType(v, names).value]])
    case Assign(Sym(x), v) =>
      if NameType(names, x).Some? && NameType(names, x) == ExprType(v, names) then Some(names) else None
    case Return(Some(v)) => if ExprType(v, names) == Some(I32) then Some(names) else None
    case If(c, t, f) =>
      if ExprType(c, names) != Some(I1) then None else
      (match CheckOpt(t, names, inLoop)
       case None => None
       case Some(names1) => CheckOpt(f, names1, inLoop))
    case Loop(_, _, _, _) => if CheckLoop(s, names) then Some(names) else None
    case Break => if inLoop then Some(names) else None
    case Continue => if inLoop then Some(names) else None
    case Block(ss) => if CheckSeq(ss, names + [map[]], inLoop).Some? then Some(names) else None
    case _ => None
  }

  /** A loop has a scope of its own, which its parts share in the order of init,
      condition, body and step. */
  predicate CheckLoop(s: Stmt, names: Names)
    requires s.Loop? && names != []
    decreases s, 0
  {
    match CheckOpt(s.init, names + [map[]], true)
    case None => false
    case Some(names1) =>
      && (s.guard.Some? ==> ExprType(s.guard.value, names1) == Some(I1))
      && match CheckOpt(s.body, names1, true)
         case None => false
         case Some(names2) => CheckOpt(s.step, names2, true).Some?
  }

  function CheckOpt(o: Option<Stmt>, names: Names, inLoop: bool): (r: Option<Names>)
    requires names != []
    ensures r.Some? ==> |r.value| == |names|
    decreases o, 2
  {
    match o
    case None => Some(names)
    case Some(s) => CheckStmt(s, names, inLoop)
  }

  function CheckSeq(ss: seq<Stmt>, names: Names, inLoop: bool): (r: Option<Names>)
    requires names != []
    ensures r.Some? ==> |r.value| == |names|
    decreases ss, 2
  {
    if ss == [] then Some(names) else
    match CheckStmt(ss[0], names, inLoop)
    case None => None
    case Some(names1) => CheckSeq(ss[1..], names1, inLoop)
  }

  predicate Checks(body: seq<Stmt>) {
    CheckSeq(body, [map[], map[]], false).Some?
  }

  // ----- the coder's scopes hold these types -----

  ghost predicate Describes(names: Names, scopes: seq<Scope>) {
    && |names| == |scopes|
    && (forall i | 0 <= i < |names| :: names[i].Keys == scopes[i].Keys)
    && (forall i, x | 0 <= i < |names| && x in names[i] :: names[i][x] == OpTy(scopes[i][x]))
  }

  lemma {:induction false} NameTyped(names: Names, scopes: seq<Scope>, x: string)
    requires Describes(names, scopes)
    ensures NameType(names, x).Some? <==> Lookup(scopes, x).Some?
    ensures NameType(names, x).Some? ==> NameType(names, x).value == OpTy(Lookup(scopes, x).value)
  {
    if names != [] && x !in names[|names| - 1] {
      var n := |names| - 1;
      assert forall i | 0 <= i < n :: names[..n][i] == names[i] && scopes[..n][i] == scopes[i];
      NameTyped(names[..n], scopes[..n], x);
    }
  }

  lemma {:induction false} DescribesPush(names: Names, scopes: seq<Scope>)
    requires Describes(names, scopes)
    ensures Describes(names + [map[]], scopes + [map[]])
  {
  }

  lemma {:induction false} DescribesDeclare(names: Names, scopes: seq<Scope>, x: string, o: Operand)
    requires Describes(names, scopes) && |names| > 0
    ensures var n := |names| - 1; Describes(names[n := names[n][x := OpTy(o)]], scopes[n := scopes[n][x := o]])
  {
    var n := |names| - 1;
    assert names[n][x := OpTy(o)].Keys == scopes[n][x := o].Keys;
  }

  // ----- expressions -----

  /** The check's answer is the coder's. */
  predicate Agree(t: Option<Ty>, r: Option<(State, Operand)>) {
    match t
    case None => r.None?
    case Some(ty) => r.Some? && OpTy(r.value.1) == ty
  }

  lemma {:induction false} OperatorTypes(op: BinOp, a: Ty, b: Ty)
    ensures OperatorType(op, a, b) == BinTy(op, a, b)
  {
  }

  lemma {:induction false} PrefixTypes(op: UnOp, a: Ty)
    ensures PrefixType(op, a) == UnTy(op, a) && (op == Pos ==> UnTy(op, a) == Some(a))
  {
  }

  lemma {:induction false} BuiltType(e: State, op: BinOp, a: Operand, b: Operand, ty: Ty)
    requires Ok(e) && BinTy(op, OpTy(a), OpTy(b)) == Some(ty)
    ensures OpTy(BuildBin(e, op, a, b, ty).1) == ty
  {
    hide Wrap, Bitwise, Unsigned, TruncDiv, Pow2;
  }

  lemma {:induction false} BuiltUnType(e: State, op: UnOp, a: Operand, ty: Ty)
    requires Ok(e) && UnTy(op, OpTy(a)) == Some(ty)
    ensures OpTy(BuildUn(e, op, a, ty).1) == ty
  {
    hide Wrap, Bitwise;
  }

  lemma {:induction false} ExprAgrees(x: Expr, e: State, names: Names)
    requires Ok(e) && SlotsOk(e.scopes, e.nslot) && Describes(names, e.scopes)
    ensures Agree(ExprType(x, names), EncodeExpr(x, e))
    decreases x, 1
  {
    hide SlotsOk, Describes, EvalUn, EvalBin, BuildUn, BuildBin, UnTy, BinTy, PrefixType, OperatorType;
    match x {
      case Sym(name) => NameTyped(names, e.scopes, name);
      case Unary(op, a) =>
        ValAgrees(a, e, names);
        if EncodeVal(a, e).Some? {
          var (e1, o) := EncodeVal(a, e).value;
          PrefixTypes(op, OpTy(o));
          if UnTy(op, OpTy(o)).Some? {
            BuiltUnType(e1, op, o, UnTy(op, OpTy(o)).value);
          }
        }
      case Binary(_, _, _) => BinaryAgrees(x, e, names);
      case Trinary(_, _, _) => TrinaryAgrees(x, e, names);
      case _ =>
    }
  }

  lemma {:induction false} ValAgrees(x: Expr, e: State, names: Names)
    requires Ok(e) && SlotsOk(e.scopes, e.nslot) && Describes(names, e.scopes)
    ensures Agree(ExprType(x, names), EncodeVal(x, e))
    decreases x, 2
  {
    hide SlotsOk, Describes, EncodeExpr, ExprType;
    ExprAgrees(x, e, names);
  }

  lemma {:induction false} BinaryAgrees(x: Expr, e: State, names: Names)
    requires x.Binary? && Ok(e) && SlotsOk(e.scopes, e.nslot) && Describes(names, e.scopes)
    ensures Agree(ExprType(x, names), EncodeExpr(x, e))
    decreases x, 0
  {
    hide SlotsOk, Describes, BuildBin, BinTy, OperatorType;
    ExprAgrees(x.left, e, names);
    if EncodeExpr(x.left, e).Some? {
      FrameExpr(x.left, e);
      var (e1, ol) := EncodeExpr(x.left, e).value;
      ExprAgrees(x.right, e1, names);
      if EncodeExpr(x.right, e1).Some? {
        var (e2, or) := EncodeExpr(x.right, e1).value;
        var (e3, vl) := LoadVal(e2, ol);
        var (e4, vr) := LoadVal(e3, or);
        OperatorTypes(x.binop, OpTy(vl), OpTy(vr));
        if BinTy(x.binop, OpTy(vl), OpTy(vr)).Some? {
          BuiltType(e4, x.binop, vl, vr, BinTy(x.binop, OpTy(vl), OpTy(vr)).value);
        }
      }
    }
  }

  lemma {:induction false} TrinaryAgrees(x: Expr, e: State, names: Names)
    requires x.Trinary? && Ok(e) && SlotsOk(e.scopes, e.nslot) && Describes(names, e.scopes)
    ensures Agree(ExprType(x, names), EncodeExpr(x, e))
    decreases x, 0
  {
    hide SlotsOk, Describes, EncodeVal, NewBlocks;
    var b := |e.code|;
    NewBlocksEmpty(e, 4);
    var s1 := Activate(Emit(NewBlocks(e, 4), Jump(b)), b);
    ValAgrees(x.cond, s1, names);
    if ExprType(x.cond, names) == Some(I1) {
      FrameVal(x.cond, s1);
      var (e1, oc) := EncodeVal(x.cond, s1).value;
      var s2 := Activate(Emit(e1, JumpCond(oc, b + 1, b + 2)), b + 1);
      ValAgrees(x.onTrue, s2, names);
      if EncodeVal(x.onTrue, s2).Some? {
        FrameVal(x.onTrue, s2);
        var (e2, ot) := EncodeVal(x.onTrue, s2).value;
        ValAgrees(x.onFalse, Activate(Emit(e2, Jump(b + 3)), b + 2), names);
      }
    }
  }

  // ----- statements -----

  ghost predicate AgreeStmt(n: Option<Names>, r: Option<State>) {
    match n
    case None => r.None?
    case Some(names) => r.Some? && Describes(names, r.value.scopes)
  }

  /** The targets of break and continue are set together, inside loops. */
  predicate Inside(e: State, inLoop: bool) {
    (e.brk.Some? <==> inLoop) && (e.cont.Some? <==> inLoop)
  }

  ghost predicate Ready(e: State, names: Names, inLoop: bool) {
    Ok(e) && SlotsOk(e.scopes, e.nslot) && Describes(names, e.scopes) && Inside(e, inLoop)
  }

  lemma {:induction false} StmtAgrees(s: Stmt, e: State, names: Names, inLoop: bool)
    requires Ready(e, names, inLoop)
    ensures names != [] && AgreeStmt(CheckStmt(s, names, inLoop), EncodeStmt(s, e))
    decreases s, 4
  {
    hide SlotsOk, ExprType, EncodeVal, EncodeExpr, EncodeLoop, CheckLoop, EncodeOpt, CheckOpt, FallThrough;
    match s {
      case SymbolDef(_, _, _, _) => DefAgrees(s, e, names, inLoop);
      case Assign(_, _) => AssignAgrees(s, e, names, inLoop);
      case Return(Some(v)) => ReturnAgrees(s, e, names, inLoop);
      case If(_, _, _) => IfAgrees(s, e, names, inLoop);
      case Loop(_, _, _, _) => LoopAgrees(s, e, names, inLoop);
      case Block(_) => BlockAgrees(s, e, names, inLoop);
      case _ =>
    }
  }

  lemma {:induction false} ReturnAgrees(s: Stmt, e: State, names: Names, inLoop: bool)
    requires s.Return? && s.result.Some? && Ready(e, names, inLoop)
    ensures names != [] && AgreeStmt(CheckStmt(s, names, inLoop), EncodeStmt(s, e))
  {
    hide SlotsOk, Describes, EncodeVal, ExprType;
    DescribesSome(names, e.scopes);
    ValAgrees(s.result.value, e, names);
    if EncodeVal(s.result.value, e).Some? {
      FrameVal(s.result.value, e);
    }
  }

  lemma {:induction false} DescribesSome(names: Names, scopes: seq<Scope>)
    requires Describes(names, scopes)
    ensures |names| == |scopes|
    ensures forall i | 0 <= i < |names| :: names[i].Keys == scopes[i].Keys
  {
  }

  lemma {:induction false} DefAgrees(s: Stmt, e: State, names: Names, inLoop: bool)
    requires s.SymbolDef? && Ready(e, names, inLoop)
    ensures names != [] && AgreeStmt(CheckStmt(s, names, inLoop), EncodeStmt(s, e))
  {
    hide SlotsOk, Describes, EncodeVal, ExprType;
    DescribesSome(names, e.scopes);
    var n := |names| - 1;
    assert s.name in names[n].Keys <==> s.name in e.scopes[n].Keys;
    ValAgrees(s.value, e, names);
    if EncodeVal(s.value, e).Some? {
      FrameVal(s.value, e);
      var (e1, o) := EncodeVal(s.value, e).value;
      DescribesDeclare(names, e.scopes, s.name, Slot(e1.nslot, OpTy(o)));
    }
  }

  lemma {:induction false} AssignAgrees(s: Stmt, e: State, names: Names, inLoop: bool)
    requires s.Assign? && Ready(e, names, inLoop)
    ensures names != [] && AgreeStmt(CheckStmt(s, names, inLoop), EncodeStmt(s, e))
  {
    hide SlotsOk, Describes, EncodeVal, EncodeExpr, ExprType;
    DescribesSome(names, e.scopes);
    if EncodeExpr(s.left, e).Some? {
      FrameExpr(s.left, e);
      var (e1, o) := EncodeExpr(s.left, e).value;
      ValAgrees(s.right, e1, names);
      if EncodeVal(s.right, e1).Some? {
        FrameVal(s.right, e1);
      }
    }
    if s.left.Sym? {
      SymEncodes(s.left.name, e);
      NameTyped(names, e.scopes, s.left.name);
      if Lookup(e.scopes, s.left.name).Some? {
        LookupSlot(e.scopes, e.nslot, s.left.name);
      }
    }
  }

  lemma {:induction false} SymEncodes(x: string, e: State)
    requires Ok(e)
    ensures EncodeExpr(Sym(x), e) == if Lookup(e.scopes, x).Some? then Some((e, Lookup(e.scopes, x).value)) else None
  {
  }

  lemma {:induction false} OptAgrees(o: Option<Stmt>, e: State, names: Names, inLoop: bool)
    requires Ready(e, names, inLoop)
    ensures names != [] && AgreeStmt(CheckOpt(o, names, inLoop), EncodeOpt(o, e))
    ensures EncodeOpt(o, e).Some? ==> Ready(EncodeOpt(o, e).value, CheckOpt(o, names, inLoop).value, inLoop)
    decreases o, 5
  {
    hide SlotsOk, EncodeStmt, CheckStmt;
    if o.Some? {
      StmtAgrees(o.value, e, names, inLoop);
    }
    if EncodeOpt(o, e).Some? {
      FrameOpt(o, e);
    }
  }

  lemma {:induction false} SeqAgrees(ss: seq<Stmt>, e: State, names: Names, inLoop: bool)
    requires Ready(e, names, inLoop)
    ensures names != [] && AgreeStmt(CheckSeq(ss, names, inLoop), EncodeSeq(ss, e))
    decreases ss, 5
  {
    hide SlotsOk, EncodeStmt, CheckStmt;
    if ss != [] {
      StmtAgrees(ss[0], e, names, inLoop);
      if EncodeStmt(ss[0], e).Some? {
        FrameStmt(ss[0], e);
        SeqAgrees(ss[1..], EncodeStmt(ss[0], e).value, CheckStmt(ss[0], names, inLoop).value, inLoop);
      }
    }
  }

  lemma {:induction false} BlockAgrees(s: Stmt, e: State, names: Names, inLoop: bool)
    requires s.Block? && Ready(e, names, inLoop)
    ensures names != [] && AgreeStmt(CheckStmt(s, names, inLoop), EncodeStmt(s, e))
    decreases s, 2
  {
    hide SlotsOk, Describes, NamesGrow, EncodeSeq, CheckSeq;
    DescribesSome(names, e.scopes);
    SlotsOkPush(e.scopes, e.nslot);
    DescribesPush(names, e.scopes);
    SeqAgrees(s.stmts, PushScope(e), names + [map[]], inLoop);
    if EncodeSeq(s.stmts, PushScope(e)).Some? {
      FrameSeq(s.stmts, PushScope(e));
      ScopeExit(e, EncodeSeq(s.stmts, PushScope(e)).value);
    }
  }

  /** Closing a part and going on elsewhere changes no name. */
  lemma {:induction false} ReadyAt(e: State, r: State, names: Names, inLoop: bool)
    requires Ready(e, names, inLoop) && Ok(r)
    requires r.scopes == e.scopes && r.nslot >= e.nslot && Inside(r, inLoop)
    ensures Ready(r, names, inLoop)
  {
  }

  lemma {:induction false} FallThroughKeeps(e: State, start: nat, target: nat, b: nat)
    requires Ok(e) && start < |e.code| && b < |e.code|
    ensures var r := Activate(FallThrough(e, start, target), b);
            Ok(r) && r.scopes == e.scopes && r.nslot == e.nslot && SameTargets(e, r) && |r.code| == |e.code|
  {
  }

  lemma {:induction false} IfAgrees(s: Stmt, e: State, names: Names, inLoop: bool)
    requires s.If? && Ready(e, names, inLoop)
    ensures names != [] && AgreeStmt(CheckStmt(s, names, inLoop), EncodeStmt(s, e))
    decreases s, 2
  {
    hide SlotsOk, Describes, EncodeVal, ExprType, EncodeOpt, CheckOpt, FallThrough, NewBlocks, NamesGrow;
    DescribesSome(names, e.scopes);
    var b := |e.code|;
    var s0 := NewBlocks(e, 3);
    NewBlocksEmpty(e, 3);
    ValAgrees(s.cond, s0, names);
    if ExprType(s.cond, names) == Some(I1) {
      FrameVal(s.cond, s0);
      var (e1, oc) := EncodeVal(s.cond, s0).value;
      var s2 := Activate(Emit(e1, JumpCond(oc, b, b + 1)), b);
      ReadyAt(e, s2, names, inLoop);
      OptAgrees(s.onTrue, s2, names, inLoop);
      if EncodeOpt(s.onTrue, s2).Some? {
        var e2, names1 := EncodeOpt(s.onTrue, s2).value, CheckOpt(s.onTrue, names, inLoop).value;
        FallThroughKeeps(e2, b, b + 2, b + 1);
        var s3 := Activate(FallThrough(e2, b, b + 2), b + 1);
        ReadyAt(e2, s3, names1, inLoop);
        OptAgrees(s.onFalse, s3, names1, inLoop);
        if EncodeOpt(s.onFalse, s3).Some? {
          FallThroughKeeps(EncodeOpt(s.onFalse, s3).value, b + 1, b + 2, b + 2);
        }
      }
    }
  }

  lemma {:induction false} GuardAgrees(o: Option<Expr>, e: State, names: Names)
    requires Ok(e) && SlotsOk(e.scopes, e.nslot) && Describes(names, e.scopes)
    ensures (EncodeGuard(o, e).Some? && OpTy(EncodeGuard(o, e).value.1) == I1)
            <==> (o.Some? ==> ExprType(o.value, names) == Some(I1))
    ensures EncodeGuard(o, e).Some? ==> ExprFrame(e, EncodeGuard(o, e).value.0)
  {
    hide SlotsOk, Describes, EncodeVal, ExprType;
    if o.Some? {
      ValAgrees(o.value, e, names);
      if EncodeVal(o.value, e).Some? {
        FrameVal(o.value, e);
      }
    }
  }

  /** From the start of the body on. */
  lemma {:induction false} LoopRestAgrees(s: Stmt, b: nat, s2: State, names: Names)
    requires s.Loop? && Ready(s2, names, true) && b + 3 < |s2.code|
    ensures var checked := CheckOpt(s.body, names, true);
            var e3 := EncodeOpt(s.body, s2);
            && (e3.Some? <==> checked.Some?)
            && (e3.Some? ==>
                  && b + 3 < |e3.value.code|
                  && (EncodeOpt(s.step, Activate(FallThrough(e3.value, b + 2, b + 1), b + 1)).Some?
                      <==> CheckOpt(s.step, checked.value, true).Some?))
    decreases s, 1
  {
    hide SlotsOk, Describes, EncodeOpt, CheckOpt, FallThrough;
    OptAgrees(s.body, s2, names, true);
    if EncodeOpt(s.body, s2).Some? {
      var e3, names1 := EncodeOpt(s.body, s2).value, CheckOpt(s.body, names, true).value;
      FallThroughKeeps(e3, b + 2, b + 1, b + 1);
      var s3 := Activate(FallThrough(e3, b + 2, b + 1), b + 1);
      ReadyAt(e3, s3, names1, true);
      OptAgrees(s.step, s3, names1, true);
    }
  }

  lemma {:induction false} LoopEncodesIff(s: Stmt, e: State, names: Names, inLoop: bool)
    requires s.Loop? && Ready(e, names, inLoop)
    ensures names != [] && (EncodeLoop(s, e).Some? <==> CheckLoop(s, names))
    decreases s, 2
  {
    hide SlotsOk, Describes, EncodeGuard, ExprType, EncodeOpt, CheckOpt, FallThrough, NewBlocks, NamesGrow, Frame;
    DescribesSome(names, e.scopes);
    var b := |e.code|;
    var s0 := NewBlocks(PushScope(e), 4).(cont := Some(b + 1), brk := Some(b + 3));
    NewBlocksEmpty(PushScope(e), 4);
    SlotsOkPush(e.scopes, e.nslot);
    DescribesPush(names, e.scopes);
    OptAgrees(s.init, s0, names + [map[]], true);
    if EncodeOpt(s.init, s0).Some? {
      var e1, names1 := EncodeOpt(s.init, s0).value, CheckOpt(s.init, names + [map[]], true).value;
      var s1 := Activate(Emit(e1, Jump(b)), b);
      ReadyAt(e1, s1, names1, true);
      GuardAgrees(s.guard, s1, names1);
      if EncodeGuard(s.guard, s1).Some? && OpTy(EncodeGuard(s.guard, s1).value.1) == I1 {
        var (e2, oc) := EncodeGuard(s.guard, s1).value;
        FrameRoom(s1, e2);
        var s2 := Activate(Emit(e2, JumpCond(oc, b + 2, b + 3)), b + 2);
        ReadyAt(s1, s2, names1, true);
        LoopRestAgrees(s, b, s2, names1);
      }
    }
  }

  lemma {:induction false} FrameRoom(e: State, e1: State)
    requires Frame(e, e1)
    ensures Ok(e1) && |e.code| <= |e1.code|
  {
  }

  lemma {:induction false} LoopAgrees(s: Stmt, e: State, names: Names, inLoop: bool)
    requires s.Loop? && Ready(e, names, inLoop)
    ensures names != [] && AgreeStmt(CheckStmt(s, names, inLoop), EncodeStmt(s, e))
    decreases s, 3
  {
    hide SlotsOk, Describes, EncodeLoop, CheckLoop, LoopOf, NamesGrow, Frame;
    LoopEncodesIff(s, e, names, inLoop);
    if EncodeStmt(s, e).Some? {
      FrameLoop(s, e);
      assert EncodeStmt(s, e).value.scopes == e.scopes;
    }
  }

  // ----- the module -----

  /** The coder accepts exactly the programs that check. */
  lemma {:induction false} AcceptedIff(body: seq<Stmt>)
    ensures EncodeModule(body).Some? <==> Checks(body)
  {
    hide EncodeSeq, CheckSeq;
    assert SlotsOk(Initial.scopes, Initial.nslot);
    SeqAgrees(body, Initial, [map[], map[]], false);
  }
}
