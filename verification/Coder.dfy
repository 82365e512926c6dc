/** The module and its coder as the object they are: every method emits into the
    fields, and what it leaves there is what `Lowering` says. */
module Coder {
  import opened Ast
  import opened Scalar
  import opened Ir
  import L = Lowering

  /** A loop up to the start of its body. */
  ghost function LoopHead(s: Stmt, e: L.State): (r: Option<L.State>)
    requires s.Loop? && L.Ok(e)
    ensures r.Some? ==> L.Ok(r.value) && |r.value.code| >= |e.code| + 4 && r.value.active == |e.code| + 2
  {
    var b := |e.code|;
    match L.EncodeOpt(s.init, L.NewBlocks(L.PushScope(e), 4).(cont := Some(b + 1), brk := Some(b + 3)))
    case None => None
    case Some(e1) =>
      match L.EncodeGuard(s.guard, L.Activate(L.Emit(e1, Jump(b)), b))
      case None => None
      case Some((e2, oc)) =>
        if L.OpTy(oc) != I1 then None
        else Some(L.Activate(L.Emit(e2, JumpCond(oc, b + 2, b + 3)), b + 2))
  }

  lemma {:induction false} LoopByHead(s: Stmt, e: L.State)
    requires s.Loop? && L.Ok(e)
    ensures L.EncodeStmt(s, e) ==
            var b := |e.code|;
            match LoopHead(s, e)
            case None => None
            case Some(s2) =>
              match L.EncodeOpt(s.body, s2)
              case None => None
              case Some(e3) =>
                match L.EncodeOpt(s.step, L.Activate(L.FallThrough(e3, b + 2, b + 1), b + 1))
                case None => None
                case Some(e4) =>
                  Some(L.PopScope(L.Activate(L.Emit(e4, Jump(b)), b + 3).(cont := e.cont, brk := e.brk)))
  {
    hide L.EncodeOpt, L.EncodeGuard, L.NewBlocks, L.FallThrough, L.Emit, L.Activate;
  }

  /** A ternary up to the start of its first branch. */
  ghost function TrinaryHead(x: Expr, e: L.State): (r: Option<L.State>)
    requires x.Trinary? && L.Ok(e)
    ensures r.Some? ==> L.Ok(r.value) && |r.value.code| >= |e.code| + 4
  {
    var b := |e.code|;
    match L.EncodeVal(x.cond, L.Activate(L.Emit(L.NewBlocks(e, 4), Jump(b)), b))
    case None => None
    case Some((e1, oc)) =>
      if L.OpTy(oc) != I1 then None
      else Some(L.Activate(L.Emit(e1, JumpCond(oc, b + 1, b + 2)), b + 1))
  }

  lemma {:induction false} TrinaryByHead(x: Expr, e: L.State)
    requires x.Trinary? && L.Ok(e)
    ensures L.EncodeExpr(x, e) ==
            var b := |e.code|;
            match TrinaryHead(x, e)
            case None => None
            case Some(s2) =>
              match L.EncodeVal(x.onTrue, s2)
              case None => None
              case Some((e2, ot)) =>
                match L.EncodeVal(x.onFalse, L.Activate(L.Emit(e2, Jump(b + 3)), b + 2))
                case None => None
                case Some((e3, of)) =>
                  var e4 := L.Activate(L.Emit(e3, Jump(b + 3)), b + 3);
                  if L.OpTy(ot) != L.OpTy(of) then None
                  else Some(L.EmitReg(e4, Phi(e4.nreg, L.PhiIncomings(ot, b + 1, of, b + 2)), L.OpTy(ot)))
  {
    hide L.EncodeVal, L.NewBlocks, L.PhiIncomings, L.EmitReg, L.Emit, L.Activate;
  }

  class ModuleCoder {
    var code: Code
    var activeBlock: nat
    var registers: nat
    var slots: nat
    var scopes: seq<L.Scope>
    var breakPoint: Option<nat>
    var continuePoint: Option<nat>

    /** The fields as one value. */
    ghost function View(): L.State
      reads this
    {
      L.State(code, activeBlock, registers, slots, scopes, breakPoint, continuePoint)
    }

    /** A new module has its root scope and no function yet. */
    constructor ()
      ensures View() == L.State([], 0, 0, 0, [map[]], None, None)
    {
      code, activeBlock, registers, slots := [], 0, 0, 0;
      scopes, breakPoint, continuePoint := [map[]], None, None;
    }

    // ----- blocks -----

    method CreateBlock() returns (b: nat)
      modifies `code
      ensures b == |old(code)| && code == old(code) + [[]]
    {
      b := |code|;
      code := code + [[]];
    }

    method SetActiveBlock(b: nat)
      modifies `activeBlock
      ensures View() == L.Activate(old(View()), b)
    {
      activeBlock := b;
    }

    method GetBlockTail(b: nat) returns (tail: Option<Instr>)
      requires b < |code|
      ensures tail == L.BlockTail(View(), b)
    {
      if code[b] == [] {
        return None;
      }
      return Some(code[b][|code[b]| - 1]);
    }

    /** Without an instruction the question is about the active block's tail. */
    method IsTerminatorIns(ins: Option<Instr>) returns (r: bool)
      requires L.Ok(View())
      ensures r == L.IsTerminatorIns(View(), ins)
    {
      match ins {
        case Some(i) => return IsTerminator(i);
        case None =>
          var tail := GetBlockTail(activeBlock);
          return tail.Some? && IsTerminator(tail.value);
      }
    }

    method Insert(i: Instr)
      requires L.Ok(View())
      modifies `code
      ensures View() == L.Emit(old(View()), i)
    {
      code := code[activeBlock := code[activeBlock] + [i]];
    }

    /** Inserts an instruction whose result is the next register. */
    method InsertValue(i: Instr, ty: Ty) returns (o: Operand)
      requires L.Ok(View())
      modifies `code, `registers
      ensures (View(), o) == L.EmitReg(old(View()), i, ty)
    {
      o := Reg(registers, ty);
      Insert(i);
      registers := registers + 1;
    }

    /** The builder's unary instruction, or the constant that it folds to. */
    method BuildUn(op: UnOp, a: Operand, ty: Ty) returns (o: Operand)
      requires L.Ok(View())
      modifies `code, `registers
      ensures (View(), o) == L.BuildUn(old(View()), op, a, ty)
    {
      var folded := L.FoldUn(op, a);
      if folded.Some? {
        return Const(folded.value);
      }
      o := InsertValue(Un(registers, op, a), ty);
    }

    method BuildBin(op: BinOp, a: Operand, b: Operand, ty: Ty) returns (o: Operand)
      requires L.Ok(View())
      modifies `code, `registers
      ensures (View(), o) == L.BuildBin(old(View()), op, a, b, ty)
    {
      var folded := L.FoldBin(op, a, b);
      if folded.Some? {
        return Const(folded.value);
      }
      o := InsertValue(Bin(registers, op, a, b), ty);
    }

    method GetPtrVal(o: Operand) returns (r: Operand)
      requires L.Ok(View())
      modifies `code, `registers
      ensures (View(), r) == L.LoadVal(old(View()), o)
    {
      match o {
        case Slot(s, ty) => r := InsertValue(Load(registers, s), ty);
        case _ => r := o;
      }
    }

    /** The paired tail checks that close a branch or a loop body. */
    method CloseTail(start: nat, target: nat)
      requires L.Ok(View()) && start < |code|
      modifies `code
      ensures View() == L.FallThrough(old(View()), start, target)
    {
      if activeBlock != start {
        var ended := IsTerminatorIns(None);
        if !ended {
          Insert(Jump(target));
        }
      }
      var tail := GetBlockTail(start);
      var ended := IsTerminatorIns(tail);
      if !ended {
        Insert(Jump(target));
      }
    }

    // ----- scopes -----

    method PushScope()
      modifies `scopes
      ensures View() == L.PushScope(old(View()))
    {
      scopes := scopes + [map[]];
    }

    method PopScope()
      requires L.Ok(View())
      modifies `scopes
      ensures View() == L.PopScope(old(View()))
    {
      if |scopes| != 1 {
        scopes := scopes[..|scopes| - 1];
      }
    }

    /** Searches the chain outwards; without `lookup` only the innermost scope. */
    method GetValueSymbol(name: string, lookup: bool) returns (o: Option<Operand>)
      requires L.Ok(View())
      ensures lookup ==> o == L.Lookup(scopes, name)
      ensures !lookup ==> o == if name in L.Top(View()) then Some(L.Top(View())[name]) else None
    {
      if !lookup {
        var top := scopes[|scopes| - 1];
        return if name in top then Some(top[name]) else None;
      }
      var n := |scopes|;
      assert scopes[..n] == scopes;
      while n > 0
        invariant 0 <= n <= |scopes|
        invariant L.Lookup(scopes[..n], name) == L.Lookup(scopes, name)
      {
        assert scopes[..n][..n - 1] == scopes[..n - 1];
        if name in scopes[n - 1] {
          return Some(scopes[n - 1][name]);
        }
        n := n - 1;
      }
      return None;
    }

    method AddValueSymbol(name: string, o: Operand) returns (ok: bool)
      requires L.Ok(View())
      modifies `scopes
      ensures ok == (name !in L.Top(old(View())))
      ensures View() == if ok then L.Declare(old(View()), name, o) else old(View())
    {
      var top := scopes[|scopes| - 1];
      ok := name !in top;
      if ok {
        scopes := scopes[|scopes| - 1 := top[name := o]];
      }
    }

    // ----- expressions -----

    method EncodeExpr(x: Expr) returns (ok: bool, o: Operand)
      requires L.Ok(View())
      modifies this
      ensures ok ==> L.EncodeExpr(x, old(View())) == Some((View(), o))
      ensures !ok ==> L.EncodeExpr(x, old(View())) == None
      decreases x, 2
    {
      ok, o := true, Const(BoolVal(false));
      match x {
        case IntLit(n) => o := Const(L.LiteralVal(n));
        case BoolLit(b) => o := Const(BoolVal(b));
        case Sym(name) =>
          var symbol := GetValueSymbol(name, true);
          if symbol.None? {
            return false, o;
          }
          o := symbol.value;
        case Unary(op, a) =>
          ok, o := EncodeVal(a);
          if !ok || UnTy(op, L.OpTy(o)).None? {
            return false, o;
          }
          if op != Pos {
            o := BuildUn(op, o, UnTy(op, L.OpTy(o)).value);
          }
        case Binary(op, l, r) =>
          var lhs, rhs;
          ok, lhs := EncodeExpr(l);
          if !ok {
            return false, o;
          }
          ok, rhs := EncodeExpr(r);
          if !ok {
            return false, o;
          }
          lhs := GetPtrVal(lhs);
          rhs := GetPtrVal(rhs);
          var ty := BinTy(op, L.OpTy(lhs), L.OpTy(rhs));
          if ty.None? {
            return false, o;
          }
          o := BuildBin(op, lhs, rhs, ty.value);
        case Trinary(_, _, _) => ok, o := ExprBranch(x);
        case _ => ok := false;
      }
    }

    method EncodeVal(x: Expr) returns (ok: bool, o: Operand)
      requires L.Ok(View())
      modifies this
      ensures ok ==> L.EncodeVal(x, old(View())) == Some((View(), o))
      ensures !ok ==> L.EncodeVal(x, old(View())) == None
      decreases x, 3
    {
      ok, o := EncodeExpr(x);
      if ok {
        o := GetPtrVal(o);
      }
    }

    /** The four blocks, the condition and the jump on it. */
    method BranchCond(x: Expr) returns (ok: bool)
      requires x.Trinary? && L.Ok(View())
      modifies this
      ensures ok ==> TrinaryHead(x, old(View())) == Some(View())
      ensures !ok ==> TrinaryHead(x, old(View())) == None
      decreases x, 0
    {
      hide L.EncodeVal, L.NewBlocks;
      var begin := CreateBlock();
      var ifTrue := CreateBlock();
      var ifFalse := CreateBlock();
      var end := CreateBlock();
      L.FewBlocks(old(View()));
      Insert(Jump(begin));
      SetActiveBlock(begin);
      var cond;
      ok, cond := EncodeVal(x.cond);
      if !ok || L.OpTy(cond) != I1 {
        return false;
      }
      Insert(JumpCond(cond, ifTrue, ifFalse));
      SetActiveBlock(ifTrue);
    }

    method ExprBranch(x: Expr) returns (ok: bool, o: Operand)
      requires x.Trinary? && L.Ok(View())
      modifies this
      ensures ok ==> L.EncodeExpr(x, old(View())) == Some((View(), o))
      ensures !ok ==> L.EncodeExpr(x, old(View())) == None
      decreases x, 1
    {
      hide L.EncodeVal, L.EncodeExpr, TrinaryHead, L.PhiIncomings;
      TrinaryByHead(x, View());
      o := Const(BoolVal(false));
      var onTrue, onFalse;
      var ifTrue, ifFalse, end := |code| + 1, |code| + 2, |code| + 3;
      ok := BranchCond(x);
      if !ok {
        return false, o;
      }
      ok, onTrue := EncodeVal(x.onTrue);
      if !ok {
        return false, o;
      }
      Insert(Jump(end));
      SetActiveBlock(ifFalse);
      ok, onFalse := EncodeVal(x.onFalse);
      if !ok {
        return false, o;
      }
      Insert(Jump(end));
      SetActiveBlock(end);
      if L.OpTy(onTrue) != L.OpTy(onFalse) {
        return false, o;
      }
      o := InsertValue(Phi(registers, L.PhiIncomings(onTrue, ifTrue, onFalse, ifFalse)), L.OpTy(onTrue));
    }

    // ----- statements -----

    method EncodeStmt(s: Stmt) returns (ok: bool)
      requires L.Ok(View())
      modifies this
      ensures ok ==> L.EncodeStmt(s, old(View())) == Some(View())
      ensures !ok ==> L.EncodeStmt(s, old(View())) == None
      decreases s, 2
    {
      match s {
        case SymbolDef(_, _, _, _) => ok := StmtSymbolDef(s);
        case Assign(_, _) => ok := StmtAssign(s);
        case Return(_) => ok := StmtReturn(s);
        case If(_, _, _) => ok := StmtBranch(s);
        case Loop(_, _, _, _) => ok := StmtLoop(s);
        case Break => ok := StmtBreak();
        case Continue => ok := StmtContinue();
        case Block(_) => ok := StmtBlock(s);
        case _ => ok := false;
      }
    }

    method StmtSymbolDef(s: Stmt) returns (ok: bool)
      requires s.SymbolDef? && L.Ok(View())
      modifies this
      ensures ok ==> L.EncodeStmt(s, old(View())) == Some(View())
      ensures !ok ==> L.EncodeStmt(s, old(View())) == None
    {
      var defined := GetValueSymbol(s.name, false);
      if defined.Some? || s.ty.Some? {
        return false;
      }
      var o;
      ok, o := EncodeVal(s.value);
      if !ok {
        return false;
      }
      var slot := slots;
      Insert(Alloc(slot));
      Insert(Store(slot, o));
      slots := slots + 1;
      ok := AddValueSymbol(s.name, Slot(slot, L.OpTy(o)));
    }

    method StmtAssign(s: Stmt) returns (ok: bool)
      requires s.Assign? && L.Ok(View())
      modifies this
      ensures ok ==> L.EncodeStmt(s, old(View())) == Some(View())
      ensures !ok ==> L.EncodeStmt(s, old(View())) == None
    {
      var lhs, rhs;
      ok, lhs := EncodeExpr(s.left);
      if !ok {
        return false;
      }
      ok, rhs := EncodeVal(s.right);
      if !ok || !lhs.Slot? || lhs.ty != L.OpTy(rhs) {
        return false;
      }
      Insert(Store(lhs.id, rhs));
    }

    method StmtReturn(s: Stmt) returns (ok: bool)
      requires s.Return? && L.Ok(View())
      modifies this
      ensures ok ==> L.EncodeStmt(s, old(View())) == Some(View())
      ensures !ok ==> L.EncodeStmt(s, old(View())) == None
    {
      if s.result.None? {
        return false;
      }
      var o;
      ok, o := EncodeVal(s.result.value);
      if !ok || L.OpTy(o) != I32 {
        return false;
      }
      Insert(Ret(o));
    }

    method StmtBreak() returns (ok: bool)
      requires L.Ok(View())
      modifies this
      ensures ok ==> L.EncodeStmt(Break, old(View())) == Some(View())
      ensures !ok ==> L.EncodeStmt(Break, old(View())) == None
    {
      if breakPoint.None? {
        return false;
      }
      Insert(Jump(breakPoint.value));
      return true;
    }

    method StmtContinue() returns (ok: bool)
      requires L.Ok(View())
      modifies this
      ensures ok ==> L.EncodeStmt(Continue, old(View())) == Some(View())
      ensures !ok ==> L.EncodeStmt(Continue, old(View())) == None
    {
      if continuePoint.None? {
        return false;
      }
      Insert(Jump(continuePoint.value));
      return true;
    }

    /** A child that may be null. */
    method EncodeOpt(o: Option<Stmt>) returns (ok: bool)
      requires L.Ok(View())
      modifies this
      ensures ok ==> L.EncodeOpt(o, old(View())) == Some(View())
      ensures !ok ==> L.EncodeOpt(o, old(View())) == None
      decreases o, 3
    {
      ok := true;
      if o.Some? {
        ok := EncodeStmt(o.value);
      }
    }

    method StmtBlock(s: Stmt) returns (ok: bool)
      requires s.Block? && L.Ok(View())
      modifies this
      ensures ok ==> L.EncodeStmt(s, old(View())) == Some(View())
      ensures !ok ==> L.EncodeStmt(s, old(View())) == None
      decreases s, 0
    {
      PushScope();
      for i := 0 to |s.stmts|
        invariant L.Ok(View())
        invariant L.EncodeSeq(s.stmts, L.PushScope(old(View()))) == L.EncodeSeq(s.stmts[i..], View())
      {
        assert s.stmts[i..][1..] == s.stmts[i + 1..];
        ok := EncodeStmt(s.stmts[i]);
        if !ok {
          return false;
        }
      }
      PopScope();
      return true;
    }

    method StmtBranch(s: Stmt) returns (ok: bool)
      requires s.If? && L.Ok(View())
      modifies this
      ensures ok ==> L.EncodeStmt(s, old(View())) == Some(View())
      ensures !ok ==> L.EncodeStmt(s, old(View())) == None
      decreases s, 0
    {
      hide L.EncodeVal, L.EncodeOpt, L.FallThrough, L.NewBlocks;
      var ifTrue := CreateBlock();
      var ifFalse := CreateBlock();
      var ifEnd := CreateBlock();
      L.FewBlocks(old(View()));
      var cond;
      ok, cond := EncodeVal(s.cond);
      if !ok || L.OpTy(cond) != I1 {
        return false;
      }
      Insert(JumpCond(cond, ifTrue, ifFalse));
      SetActiveBlock(ifTrue);
      ok := EncodeOpt(s.onTrue);
      if !ok {
        return false;
      }
      CloseTail(ifTrue, ifEnd);
      SetActiveBlock(ifFalse);
      ok := EncodeOpt(s.onFalse);
      if !ok {
        return false;
      }
      CloseTail(ifFalse, ifEnd);
      SetActiveBlock(ifEnd);
    }

    /** Without a condition a loop tests the constant true. */
    method EncodeGuard(c: Option<Expr>) returns (ok: bool, o: Operand)
      requires L.Ok(View())
      modifies this
      ensures ok ==> L.EncodeGuard(c, old(View())) == Some((View(), o))
      ensures !ok ==> L.EncodeGuard(c, old(View())) == None
    {
      ok, o := true, Const(BoolVal(true));
      if c.Some? {
        ok, o := EncodeVal(c.value);
      }
    }

    /** Scope, blocks and targets, the init, the condition and the jump on it. */
    method LoopCond(s: Stmt) returns (ok: bool)
      requires s.Loop? && L.Ok(View())
      modifies this
      ensures ok ==> LoopHead(s, old(View())) == Some(View())
      ensures !ok ==> LoopHead(s, old(View())) == None
      decreases s, 0
    {
      hide L.EncodeGuard, L.EncodeOpt, L.NewBlocks;
      PushScope();
      var loopCond := CreateBlock();
      var loopStep := CreateBlock();
      var loopBody := CreateBlock();
      var loopEnd := CreateBlock();
      L.FewBlocks(L.PushScope(old(View())));
      continuePoint, breakPoint := Some(loopStep), Some(loopEnd);
      ok := EncodeOpt(s.init);
      if !ok {
        return false;
      }
      Insert(Jump(loopCond));
      SetActiveBlock(loopCond);
      var cond;
      ok, cond := EncodeGuard(s.guard);
      if !ok || L.OpTy(cond) != I1 {
        return false;
      }
      Insert(JumpCond(cond, loopBody, loopEnd));
      SetActiveBlock(loopBody);
    }

    method StmtLoop(s: Stmt) returns (ok: bool)
      requires s.Loop? && L.Ok(View())
      modifies this
      ensures ok ==> L.EncodeStmt(s, old(View())) == Some(View())
      ensures !ok ==> L.EncodeStmt(s, old(View())) == None
      decreases s, 1
    {
      hide L.EncodeStmt, L.EncodeOpt, L.FallThrough, LoopHead;
      LoopByHead(s, View());
      var oldContinuePoint, oldBreakPoint := continuePoint, breakPoint;
      var loopCond, loopStep, loopBody, loopEnd := |code|, |code| + 1, |code| + 2, |code| + 3;
      ok := LoopCond(s);
      if !ok {
        return false;
      }
      ok := EncodeOpt(s.body);
      if !ok {
        return false;
      }
      CloseTail(loopBody, loopStep);
      SetActiveBlock(loopStep);
      ok := EncodeOpt(s.step);
      if !ok {
        return false;
      }
      Insert(Jump(loopCond));
      SetActiveBlock(loopEnd);
      continuePoint, breakPoint := oldContinuePoint, oldBreakPoint;
      PopScope();
    }

    // ----- the module -----

    method StmtEnsureTailRet()
      requires L.Ok(View())
      modifies `code
      ensures View() == L.EnsureTailRet(old(View()))
    {
      var tail := GetBlockTail(activeBlock);
      var ended := IsTerminatorIns(tail);
      if !ended {
        Insert(Ret(Const(Val(I32, 0))));
      }
    }

    /** Encoding a module into a new coder. */
    method EncodeModule(body: seq<Stmt>) returns (ok: bool)
      requires View() == L.State([], 0, 0, 0, [map[]], None, None)
      modifies this
      ensures ok ==> L.EncodeModule(body) == Some(View())
      ensures !ok ==> L.EncodeModule(body) == None
    {
      PushScope();
      var entry := CreateBlock();
      SetActiveBlock(entry);
      assert View() == L.Initial;
      for i := 0 to |body|
        invariant L.Ok(View())
        invariant L.EncodeSeq(body, L.Initial) == L.EncodeSeq(body[i..], View())
      {
        assert body[i..][1..] == body[i + 1..];
        ok := EncodeStmt(body[i]);
        if !ok {
          return false;
        }
      }
      StmtEnsureTailRet();
      PopScope();
      return true;
    }
  }
}
