/** The emitted code: basic blocks of instructions, and the machine that runs them. */
module Ir {
  import opened Ast
  import opened Scalar

  /** What an `omis_value_t` stands for: a constant, the result of an
      instruction, or the address produced by an `alloca`. */
  datatype Operand =
    | Const(val: Val)
    | Reg(id: nat, ty: Ty)
    | Slot(id: nat, ty: Ty)

  datatype Incoming = Incoming(val: Operand, from: nat)

  datatype Instr =
    | Alloc(slot: nat)
    | Store(slot: nat, val: Operand)
    | Load(dst: nat, slot: nat)
    | Un(dst: nat, unop: UnOp, a: Operand)
    | Bin(dst: nat, binop: BinOp, a: Operand, b: Operand)
    | Phi(dst: nat, incomings: seq<Incoming>)
    | Jump(target: nat)
    | JumpCond(cond: Operand, onTrue: nat, onFalse: nat)
    | Ret(val: Operand)

  predicate IsTerminator(i: Instr) {
    i.Jump? || i.JumpCond? || i.Ret?
  }

  /** One instruction sequence per block; a block is named by its index. */
  type Code = seq<seq<Instr>>

  datatype Machine =
    | Running(blk: nat, pc: nat, prev: Option<nat>, regs: map<nat, Val>, mem: map<nat, Val>)
    | Returned(val: Val)
    | Stuck

  /** The value of an operand, if it has one yet. */
  function Read(o: Operand, regs: map<nat, Val>): Option<Val> {
    match o
    case Const(v) => Some(v)
    case Reg(r, _) => if r in regs then Some(regs[r]) else None
    case Slot(_, _) => None
  }

  function FindIncoming(ins: seq<Incoming>, from: nat): Option<Operand> {
    if ins == [] then None
    else if ins[0].from == from then Some(ins[0].val)
    else FindIncoming(ins[1..], from)
  }

  function SetReg(m: Machine, dst: nat, v: Option<Val>): Machine
    requires m.Running?
  {
    match v
    case None => Stuck
    case Some(x) => m.(pc := m.pc + 1, regs := m.regs[dst := x])
  }

  function Goto(m: Machine, target: nat): Machine
    requires m.Running?
  {
    m.(blk := target, pc := 0, prev := Some(m.blk))
  }

  /** Executes one instruction. Reading an unset register or slot, a branch on
      a non-bool, and a phi entered from a block it does not list are stuck. */
  function Exec1(i: Instr, m: Machine): Machine
    requires m.Running?
  {
    match i
    case Alloc(s) => m.(pc := m.pc + 1, mem := m.mem - {s})
    case Store(s, o) =>
      (match Read(o, m.regs)
       case None => Stuck
       case Some(v) => m.(pc := m.pc + 1, mem := m.mem[s := v]))
    case Load(d, s) => SetReg(m, d, if s in m.mem then Some(m.mem[s]) else None)
    case Un(d, op, a) =>
      (match Read(a, m.regs)
       case None => Stuck
       case Some(x) => SetReg(m, d, EvalUn(op, x)))
    case Bin(d, op, a, b) =>
      (match (Read(a, m.regs), Read(b, m.regs))
       case (Some(x), Some(y)) => SetReg(m, d, EvalBin(op, x, y))
       case _ => Stuck)
    case Phi(d, ins) =>
      if m.prev.None? then Stuck else
      (match FindIncoming(ins, m.prev.value)
       case None => Stuck
       case Some(o) => SetReg(m, d, Read(o, m.regs)))
    case Jump(t) => Goto(m, t)
    case JumpCond(c, t, f) =>
      (match Read(c, m.regs)
       case None => Stuck
       case Some(v) => if v.ty != I1 then Stuck else Goto(m, if v.n != 0 then t else f))
    case Ret(o) =>
      (match Read(o, m.regs)
       case None => Stuck
       case Some(v) => Returned(v))
  }

  /** A machine that has returned or is stuck stays so. */
  function Step(code: Code, m: Machine): Machine {
    if !m.Running? then m
    else if m.blk < |code| && m.pc < |code[m.blk]| then Exec1(code[m.blk][m.pc], m)
    else Stuck
  }

  function Steps(code: Code, m: Machine, n: nat): Machine
    decreases n
  {
    if n == 0 then m else Steps(code, Step(code, m), n - 1)
  }

  const Start := Running(0, 0, None, map[], map[])

  ghost predicate CodeReturns(code: Code, v: Val) {
    exists n: nat :: Steps(code, Start, n) == Returned(v)
  }

  ghost predicate CodeFaults(code: Code) {
    exists n: nat :: Steps(code, Start, n) == Stuck
  }

  ghost predicate CodeDiverges(code: Code) {
    forall n: nat :: Steps(code, Start, n).Running?
  }

  lemma {:induction false} StepsAdd(code: Code, m: Machine, a: nat, b: nat)
    ensures Steps(code, m, a + b) == Steps(code, Steps(code, m, a), b)
    decreases a
  {
    if a != 0 {
      StepsAdd(code, Step(code, m), a - 1, b);
    }
  }

  /** A halted machine has the same state ever after. */
  lemma {:induction false} HaltedStays(code: Code, m: Machine, n: nat)
    requires !m.Running?
    ensures Steps(code, m, n) == m
  {
    if n != 0 {
      HaltedStays(code, m, n - 1);
    }
  }

  /** Any two halting points of one run are the same. */
  lemma {:induction false} HaltUnique(code: Code, m: Machine, a: nat, b: nat)
    requires !Steps(code, m, a).Running? && !Steps(code, m, b).Running?
    ensures Steps(code, m, a) == Steps(code, m, b)
  {
    if a <= b {
      StepsAdd(code, m, a, b - a);
      HaltedStays(code, Steps(code, m, a), b - a);
    } else {
      StepsAdd(code, m, b, a - b);
      HaltedStays(code, Steps(code, m, b), a - b);
    }
  }

  /** A machine running after n steps was running before. */
  lemma {:induction false} RunningBefore(code: Code, m: Machine, a: nat, b: nat)
    requires a <= b && Steps(code, m, b).Running?
    ensures Steps(code, m, a).Running?
  {
    if !Steps(code, m, a).Running? {
      StepsAdd(code, m, a, b - a);
      HaltedStays(code, Steps(code, m, a), b - a);
    }
  }
}
