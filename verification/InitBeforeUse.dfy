/** On every path of the emitted control-flow graph, a slot is stored to before
    it is loaded and a register is defined before it is used. */
module InitBeforeUse {
  import opened Ast
  import opened Scalar
  import opened Ir
  import opened Lowering
  import opened Semantics
  import opened Structure
  import opened Simulation
  import opened Meaning

  /** Slots that have been stored to and registers that have been set. */
  datatype Facts = Facts(slots: set<nat>, regs: set<nat>)

  predicate Leq(f: Facts, g: Facts) {
    f.slots <= g.slots && f.regs <= g.regs
  }

  predicate Known(o: Operand, f: Facts) {
    match o
    case Const(_) => true
    case Reg(r, _) => r in f.regs
    case Slot(s, _) => s in f.slots
  }

  /** An instruction's own uses; a phi's are uses on the edges into its block. */
  predicate Uses(i: Instr, f: Facts) {
    match i
    case Alloc(_) => true
    case Store(_, o) => Known(o, f)
    case Load(_, s) => s in f.slots
    case Un(_, _, a) => Known(a, f)
    case Bin(_, _, a, b) => Known(a, f) && Known(b, f)
    case Phi(_, _) => true
    case Jump(_) => true
    case JumpCond(c, _, _) => Known(c, f)
    case Ret(o) => Known(o, f)
  }

  function Gen(i: Instr, f: Facts): Facts {
    match i
    case Alloc(s) => f.(slots := f.slots - {s})
    case Store(s, _) => f.(slots := f.slots + {s})
    case Load(d, _) => f.(regs := f.regs + {d})
    case Un(d, _, _) => f.(regs := f.regs + {d})
    case Bin(d, _, _, _) => f.(regs := f.regs + {d})
    case Phi(d, _) => f.(regs := f.regs + {d})
    case _ => f
  }

  function After(ins: seq<Instr>, f: Facts): Facts {
    if ins == [] then f else Gen(ins[|ins| - 1], After(ins[..|ins| - 1], f))
  }

  /** The index of the first terminator, or the length. */
  function FirstTerm(ins: seq<Instr>): (n: nat)
    ensures n <= |ins|
    ensures n < |ins| ==> IsTerminator(ins[n])
    ensures forall i | 0 <= i < n :: !IsTerminator(ins[i])
  {
    if ins == [] then 0
    else if IsTerminator(ins[0]) then 0
    else
      assert forall i | 0 < i < |ins| :: ins[i] == ins[1..][i - 1];
      1 + FirstTerm(ins[1..])
  }

  predicate Exited(ins: seq<Instr>) {
    FirstTerm(ins) < |ins|
  }

  /** What is known when control leaves the block. */
  function AtExit(ins: seq<Instr>, f: Facts): Facts {
    After(ins[..FirstTerm(ins)], f)
  }

  predicate Succ(i: Instr, t: nat) {
    match i
    case Jump(a) => t == a
    case JumpCond(_, a, b) => t == a || t == b
    case _ => false
  }

  // ----- paths -----

  /** A path of blocks from the entry along first terminators. */
  ghost predicate IsPath(code: Code, p: seq<nat>) {
    && p != [] && p[0] == 0
    && (forall k | 0 <= k < |p| :: p[k] < |code|)
    && (forall k | 0 <= k < |p| - 1 ::
          Exited(code[p[k]]) && Succ(code[p[k]][FirstTerm(code[p[k]])], p[k + 1]))
  }

  /** What is known on arrival at the last block of the path. */
  function Arrival(code: Code, p: seq<nat>): Facts
    requires p != [] && forall k | 0 <= k < |p| :: p[k] < |code|
  {
    if |p| == 1 then Facts({}, {})
    else AtExit(code[p[|p| - 2]], Arrival(code, p[..|p| - 1]))
  }

  /** Every instruction that the path reaches in its last block uses only what
      the path has defined; with `phis`, moreover, a phi has a defined value for
      the path's last edge. */
  ghost predicate PathSafe(code: Code, p: seq<nat>, phis: bool)
    requires p != [] && forall k | 0 <= k < |p| :: p[k] < |code|
  {
    var c := code[p[|p| - 1]];
    forall i | 0 <= i < |c| && i <= FirstTerm(c) ::
      && Uses(c[i], After(c[..i], Arrival(code, p)))
      && (phis && c[i].Phi? ==> |p| > 1 && PhiSafe(c[i].incomings, p[|p| - 2], Arrival(code, p)))
  }

  ghost predicate PhiSafe(ins: seq<Incoming>, from: nat, f: Facts) {
    FindIncoming(ins, from).Some? && Known(FindIncoming(ins, from).value, f)
  }

  // ----- annotations -----

  /** What is known on entry to a block, and the blocks that may jump to it. */
  datatype Note = Note(facts: Facts, from: Option<set<nat>>)

  ghost predicate EdgeOk(ann: seq<Note>, b: nat, t: nat, f: Facts) {
    t < |ann| && Leq(ann[t].facts, f) && (ann[t].from.Some? ==> b in ann[t].from.value)
  }

  /** Block `p` is left with the operand known. */
  ghost predicate Sends(code: Code, ann: seq<Note>, o: Operand, p: nat) {
    p < |code| && p < |ann| && Exited(code[p]) && Known(o, AtExit(code[p], ann[p].facts))
  }

  ghost predicate IncomingOk(code: Code, ann: seq<Note>, ins: seq<Incoming>, p: nat) {
    FindIncoming(ins, p).Some? && Sends(code, ann, FindIncoming(ins, p).value, p)
  }

  /** The instruction `i` of block `b`, with `f` known before it. */
  ghost predicate InstrOk(code: Code, ann: seq<Note>, phis: bool, b: nat, i: Instr, f: Facts) {
    && Uses(i, f)
    && (i.Jump? ==> EdgeOk(ann, b, i.target, f))
    && (i.JumpCond? ==> EdgeOk(ann, b, i.onTrue, f) && EdgeOk(ann, b, i.onFalse, f))
    && (phis && i.Phi? ==>
          b < |ann| && ann[b].from.Some?
          && forall p | p in ann[b].from.value :: IncomingOk(code, ann, i.incomings, p))
  }

  /** Each block, entered with what it is annotated with, uses only what is
      known and leaves for blocks annotated with no more. */
  ghost predicate Annotates(code: Code, ann: seq<Note>, phis: bool) {
    && |ann| == |code|
    && forall b, i | 0 <= b < |code| && 0 <= i < |code[b]| ::
         InstrOk(code, ann, phis, b, code[b][i], After(code[b][..i], ann[b].facts))
  }

  const Nothing := Note(Facts({}, {}), None)

  lemma {:induction false} AfterMonotone(ins: seq<Instr>, f: Facts, g: Facts)
    requires Leq(f, g)
    ensures Leq(After(ins, f), After(ins, g))
  {
    if ins != [] {
      AfterMonotone(ins[..|ins| - 1], f, g);
    }
  }

  /** Along any path at least the annotation is known, and its last edge is
      one that the annotation allows. */
  lemma {:induction false} ArrivalAnnotated(code: Code, ann: seq<Note>, phis: bool, p: seq<nat>)
    requires Annotates(code, ann, phis) && IsPath(code, p) && ann[0] == Nothing
    ensures Leq(ann[p[|p| - 1]].facts, Arrival(code, p))
    ensures ann[p[|p| - 1]].from.Some? ==> |p| > 1 && p[|p| - 2] in ann[p[|p| - 1]].from.value
    decreases |p|
  {
    if |p| > 1 {
      var q := p[..|p| - 1];
      assert IsPath(code, q);
      ArrivalAnnotated(code, ann, phis, q);
      var b := q[|q| - 1];
      var n := FirstTerm(code[b]);
      AfterMonotone(code[b][..n], ann[b].facts, Arrival(code, q));
      assert InstrOk(code, ann, phis, b, code[b][n], After(code[b][..n], ann[b].facts));
    }
  }

  /** An annotated graph is safe along every path. */
  lemma {:induction false} AnnotatedPathsSafe(code: Code, ann: seq<Note>, phis: bool, p: seq<nat>)
    requires Annotates(code, ann, phis) && IsPath(code, p) && ann[0] == Nothing
    ensures PathSafe(code, p, phis)
  {
    ArrivalAnnotated(code, ann, phis, p);
    var b := p[|p| - 1];
    var c := code[b];
    forall i | 0 <= i < |c| && i <= FirstTerm(c)
      ensures Uses(c[i], After(c[..i], Arrival(code, p)))
      ensures phis && c[i].Phi? ==> |p| > 1 && PhiSafe(c[i].incomings, p[|p| - 2], Arrival(code, p))
    {
      AfterMonotone(c[..i], ann[b].facts, Arrival(code, p));
      assert InstrOk(code, ann, phis, b, c[i], After(c[..i], ann[b].facts));
      if phis && c[i].Phi? {
        var q := p[..|p| - 1];
        assert IsPath(code, q);
        ArrivalAnnotated(code, ann, phis, q);
        var d := code[p[|p| - 2]];
        assert IncomingOk(code, ann, c[i].incomings, p[|p| - 2]);
        AfterMonotone(d[..FirstTerm(d)], ann[p[|p| - 2]].facts, Arrival(code, q));
      }
    }
  }

  // ----- what the encoder keeps -----

  /** What is known where the encoder stands. */
  ghost function Here(e: State, ann: seq<Note>): Facts {
    if e.active < |e.code| && e.active < |ann| then After(e.code[e.active], ann[e.active].facts)
    else Facts({}, {})
  }

  ghost predicate Bounded(f: Facts, nslot: nat, nreg: nat) {
    (forall s | s in f.slots :: s < nslot) && (forall r | r in f.regs :: r < nreg)
  }

  /** Every name in scope has a slot that has been stored to. */
  ghost predicate NamesKnown(scopes: seq<Scope>, f: Facts) {
    forall i, x | 0 <= i < |scopes| && x in scopes[i] && scopes[i][x].Slot? :: scopes[i][x].id in f.slots
  }

  ghost predicate Noted(e: State, ann: seq<Note>, phis: bool) {
    && Ok(e) && |ann| == |e.code| && Annotates(e.code, ann, phis)
    && Bounded(Here(e, ann), e.nslot, e.nreg) && NamesKnown(e.scopes, Here(e, ann))
  }

  /** A pending block that may be jumped to from here. */
  ghost predicate Awaits(ann: seq<Note>, b: nat, f: Facts) {
    b < |ann| && ann[b].from.None? && Leq(ann[b].facts, f)
  }

  /** The targets of break and continue expect nothing that is not known. */
  ghost predicate Aims(e: State, ann: seq<Note>) {
    && (e.brk.Some? ==> Awaits(ann, e.brk.value, Here(e, ann)))
    && (e.cont.Some? ==> Awaits(ann, e.cont.value, Here(e, ann)))
  }

  ghost predicate Adds(ann: seq<Note>, ann1: seq<Note>) {
    |ann| <= |ann1| && forall b | 0 <= b < |ann| :: ann1[b] == ann[b]
  }

  /** From `e` to `e1` notes were only added and nothing was forgotten. */
  ghost predicate Learns(e: State, ann: seq<Note>, e1: State, ann1: seq<Note>) {
    Adds(ann, ann1) && Leq(Here(e, ann), Here(e1, ann1))
  }

  lemma {:induction false} LearnsSelf(e: State, ann: seq<Note>)
    ensures Learns(e, ann, e, ann)
  {
  }

  lemma {:induction false} LearnsTrans(e: State, ann: seq<Note>, e1: State, ann1: seq<Note>, e2: State, ann2: seq<Note>)
    requires Learns(e, ann, e1, ann1) && Learns(e1, ann1, e2, ann2)
    ensures Learns(e, ann, e2, ann2)
  {
  }

  lemma {:induction false} AwaitsLater(ann: seq<Note>, ann1: seq<Note>, b: nat, f: Facts, g: Facts)
    requires Awaits(ann, b, f) && Adds(ann, ann1) && Leq(f, g)
    ensures Awaits(ann1, b, g)
  {
  }

  lemma {:induction false} AimsLater(e: State, ann: seq<Note>, e1: State, ann1: seq<Note>)
    requires Aims(e, ann) && Learns(e, ann, e1, ann1) && SameTargets(e, e1)
    ensures Aims(e1, ann1)
  {
  }

  lemma {:induction false} FirstTermStable(c: seq<Instr>, c1: seq<Instr>)
    requires c <= c1 && Exited(c)
    ensures Exited(c1) && FirstTerm(c1) == FirstTerm(c)
  {
    var n := FirstTerm(c);
    assert forall i | 0 <= i <= n :: c1[i] == c[i];
    assert IsTerminator(c1[n]);
  }

  lemma {:induction false} SendsLater(code: Code, ann: seq<Note>, code1: Code, ann1: seq<Note>, o: Operand, p: nat)
    requires Sends(code, ann, o, p) && Extends(code, code1) && Adds(ann, ann1)
    ensures Sends(code1, ann1, o, p)
  {
    assert code[p] <= code1[p];
    FirstTermStable(code[p], code1[p]);
    assert code1[p][..FirstTerm(code[p])] == code[p][..FirstTerm(code[p])];
  }

  lemma {:induction false} InstrLater(code: Code, ann: seq<Note>, code1: Code, ann1: seq<Note>, phis: bool, b: nat, i: Instr, f: Facts)
    requires InstrOk(code, ann, phis, b, i, f) && Extends(code, code1) && Adds(ann, ann1)
    ensures InstrOk(code1, ann1, phis, b, i, f)
  {
    if phis && i.Phi? {
      forall p | p in ann[b].from.value ensures IncomingOk(code1, ann1, i.incomings, p) {
        assert IncomingOk(code, ann, i.incomings, p);
        SendsLater(code, ann, code1, ann1, FindIncoming(i.incomings, p).value, p);
      }
    }
  }

  /** Emitting an instruction that is in order here. */
  lemma {:induction false} NoteEmit(e: State, ann: seq<Note>, phis: bool, i: Instr)
    requires Ok(e) && |ann| == |e.code| && Annotates(e.code, ann, phis)
    requires InstrOk(e.code, ann, phis, e.active, i, Here(e, ann))
    ensures Annotates(Emit(e, i).code, ann, phis) && Here(Emit(e, i), ann) == Gen(i, Here(e, ann))
  {
    hide InstrOk;
    var c := e.code[e.active];
    var code1 := Emit(e, i).code;
    var c1 := code1[e.active];
    FrameEmit(e, i);
    assert c1[..|c|] == c;
    forall b, k | 0 <= b < |code1| && 0 <= k < |code1[b]|
      ensures InstrOk(code1, ann, phis, b, code1[b][k], After(code1[b][..k], ann[b].facts))
    {
      if b == e.active && k == |c| {
        InstrLater(e.code, ann, code1, ann, phis, b, i, Here(e, ann));
      } else {
        assert code1[b][..k] == e.code[b][..k] && code1[b][k] == e.code[b][k];
        InstrLater(e.code, ann, code1, ann, phis, b, e.code[b][k], After(e.code[b][..k], ann[b].facts));
      }
    }
  }

  /** New blocks may be annotated at will. */
  lemma {:induction false} NoteNew(e: State, ann: seq<Note>, phis: bool, notes: seq<Note>)
    requires Noted(e, ann, phis)
    ensures var e1 := NewBlocks(e, |notes|);
            Noted(e1, ann + notes, phis) && Here(e1, ann + notes) == Here(e, ann) && Adds(ann, ann + notes)
  {
    hide InstrOk;
    var e1 := NewBlocks(e, |notes|);
    NewBlocksEmpty(e, |notes|);
    FrameExtends(e, e1);
    forall b, k | 0 <= b < |e1.code| && 0 <= k < |e1.code[b]|
      ensures InstrOk(e1.code, ann + notes, phis, b, e1.code[b][k], After(e1.code[b][..k], (ann + notes)[b].facts))
    {
      assert b < |e.code| && e1.code[b] == e.code[b];
      InstrLater(e.code, ann, e1.code, ann + notes, phis, b, e.code[b][k], After(e.code[b][..k], ann[b].facts));
    }
  }

  /** An instruction that sets the next register. */
  lemma {:induction false} NoteReg(e: State, ann: seq<Note>, phis: bool, i: Instr, ty: Ty)
    requires Noted(e, ann, phis) && InstrOk(e.code, ann, phis, e.active, i, Here(e, ann))
    requires Gen(i, Here(e, ann)) == Here(e, ann).(regs := Here(e, ann).regs + {e.nreg})
    ensures var (e1, o) := EmitReg(e, i, ty);
            Noted(e1, ann, phis) && Learns(e, ann, e1, ann) && Known(o, Here(e1, ann))
  {
    hide InstrOk, Annotates;
    NoteEmit(e, ann, phis, i);
    assert Here(Emit(e, i).(nreg := e.nreg + 1), ann) == Here(Emit(e, i), ann);
  }

  lemma {:induction false} NoteLoad(e: State, ann: seq<Note>, phis: bool, o: Operand)
    requires Noted(e, ann, phis) && Known(o, Here(e, ann))
    ensures var (e1, o1) := LoadVal(e, o);
            Noted(e1, ann, phis) && Learns(e, ann, e1, ann) && Known(o1, Here(e1, ann))
  {
    if o.Slot? {
      NoteReg(e, ann, phis, Load(e.nreg, o.id), o.ty);
    }
  }

  /** Leaving the active block by a jump that its target awaits, for a block
      that was annotated with `f` and is still empty. */
  lemma {:induction false} NoteEnter(e: State, ann: seq<Note>, phis: bool, s: State, f: Facts)
    requires Ok(e) && Ok(s) && |ann| == |e.code| && Annotates(e.code, ann, phis) && s.code == e.code
    requires s.code[s.active] == [] && ann[s.active].facts == f
    requires Bounded(f, e.nslot, e.nreg) && s.nslot == e.nslot && s.nreg == e.nreg && NamesKnown(s.scopes, f)
    ensures Noted(s, ann, phis) && Here(s, ann) == f
  {
  }

  // ----- expressions -----

  /** A ternary-free expression emits no terminator. */
  lemma {:induction false} PlainOpen(x: Expr, e: State)
    requires ExprEncodes(x, e) && !HasTrinary(x) && !Exited(e.code[e.active])
    ensures var e1 := EncodeExpr(x, e).value.0; Ok(e1) && e1.active == e.active && !Exited(e1.code[e1.active])
    decreases x, 0
  {
    hide SlotsOk;
    match x {
      case Unary(op, a) =>
        PlainOpenVal(a, e);
        var (e1, o) := EncodeVal(a, e).value;
        OpenEmit(e1, Un(e1.nreg, op, o));
      case Binary(op, l, r) =>
        FrameBinary(x, e);
        var t := BinOf(x, e);
        PlainOpen(l, e);
        PlainOpen(r, t.e1);
        OpenLoad(t.e2, t.ol);
        OpenLoad(t.e3, t.or);
        if FoldBin(op, t.vl, t.vr).None? {
          OpenEmit(t.e4, Bin(t.e4.nreg, op, t.vl, t.vr));
        }
      case _ =>
    }
  }

  lemma {:induction false} PlainOpenVal(x: Expr, e: State)
    requires Ok(e) && SlotsOk(e.scopes, e.nslot) && EncodeVal(x, e).Some?
    requires !HasTrinary(x) && !Exited(e.code[e.active])
    ensures var e1 := EncodeVal(x, e).value.0; Ok(e1) && e1.active == e.active && !Exited(e1.code[e1.active])
    decreases x, 1
  {
    PlainOpen(x, e);
    var (e1, o) := EncodeExpr(x, e).value;
    OpenLoad(e1, o);
  }

  lemma {:induction false} OpenEmit(e: State, i: Instr)
    requires Ok(e) && !Exited(e.code[e.active])
    ensures var c1 := Emit(e, i).code[e.active];
            FirstTerm(c1) == if IsTerminator(i) then |c1| - 1 else |c1|
  {
    var c, c1 := e.code[e.active], Emit(e, i).code[e.active];
    assert forall k | 0 <= k < |c| :: c1[k] == c[k];
    assert c1[|c|] == i;
  }

  lemma {:induction false} OpenLoad(e: State, o: Operand)
    requires Ok(e) && !Exited(e.code[e.active])
    ensures var e1 := LoadVal(e, o).0; e1.active == e.active && !Exited(e1.code[e1.active])
  {
    if o.Slot? {
      OpenEmit(e, Load(e.nreg, o.id));
    }
  }

  lemma {:induction false} AnnVal(x: Expr, e: State, ann: seq<Note>, phis: bool) returns (ann1: seq<Note>)
    requires Ok(e) && SlotsOk(e.scopes, e.nslot) && EncodeVal(x, e).Some?
    requires Noted(e, ann, phis) && (phis ==> Mergeable(x))
    ensures var (e1, o) := EncodeVal(x, e).value;
            Noted(e1, ann1, phis) && Learns(e, ann, e1, ann1) && Known(o, Here(e1, ann1))
    decreases x, 4
  {
    hide SlotsOk, Noted, Learns;
    FrameExpr(x, e);
    var (e1, o) := EncodeExpr(x, e).value;
    ann1 := AnnExpr(x, e, ann, phis);
    NoteLoad(e1, ann1, phis, o);
    LearnsTrans(e, ann, e1, ann1, LoadVal(e1, o).0, ann1);
  }

  /** The code of an expression uses only what is known, and its operand is
      known afterwards. */
  lemma {:induction false} AnnExpr(x: Expr, e: State, ann: seq<Note>, phis: bool) returns (ann1: seq<Note>)
    requires ExprEncodes(x, e) && Noted(e, ann, phis) && (phis ==> Mergeable(x))
    ensures var (e1, o) := EncodeExpr(x, e).value;
            Noted(e1, ann1, phis) && Learns(e, ann, e1, ann1) && Known(o, Here(e1, ann1))
    decreases x, 3
  {
    hide SlotsOk;
    ann1 := ann;
    match x {
      case Sym(name) =>
        LookupSlot(e.scopes, e.nslot, name);
        LookupIn(e.scopes, name);
      case Unary(op, a) =>
        hide Noted, Learns;
        ann1 := AnnVal(a, e, ann, phis);
        var (e1, o) := EncodeVal(a, e).value;
        if op != Pos && FoldUn(op, o).None? {
          NoteReg(e1, ann1, phis, Un(e1.nreg, op, o), UnTy(op, OpTy(o)).value);
          LearnsTrans(e, ann, e1, ann1, EncodeExpr(x, e).value.0, ann1);
        }
      case Binary(_, _, _) => ann1 := AnnBinary(x, e, ann, phis);
      case Trinary(_, _, _) => ann1 := AnnTrinary(x, e, ann, phis);
      case _ =>
    }
  }

  lemma {:induction false} KnownLater(o: Operand, e: State, ann: seq<Note>, e1: State, ann1: seq<Note>)
    requires Known(o, Here(e, ann)) && Learns(e, ann, e1, ann1)
    ensures Known(o, Here(e1, ann1))
  {
  }

  lemma {:induction false} AnnBinary(x: Expr, e: State, ann: seq<Note>, phis: bool) returns (ann1: seq<Note>)
    requires x.Binary? && ExprEncodes(x, e) && Noted(e, ann, phis) && (phis ==> Mergeable(x))
    ensures var (e1, o) := EncodeExpr(x, e).value;
            Noted(e1, ann1, phis) && Learns(e, ann, e1, ann1) && Known(o, Here(e1, ann1))
    decreases x, 0
  {
    hide SlotsOk, Noted, Learns, EncodeExpr, BinOf, Frame;
    var t := BinOf(x, e);
    FrameBinary(x, e);
    var annL := AnnExpr(x.left, e, ann, phis);
    ann1 := AnnExpr(x.right, t.e1, annL, phis);
    KnownLater(t.ol, t.e1, annL, t.e2, ann1);
    NoteLoad(t.e2, ann1, phis, t.ol);
    KnownLater(t.or, t.e2, ann1, t.e3, ann1);
    NoteLoad(t.e3, ann1, phis, t.or);
    KnownLater(t.vl, t.e3, ann1, t.e4, ann1);
    LearnsTrans(e, ann, t.e1, annL, t.e2, ann1);
    LearnsTrans(e, ann, t.e2, ann1, t.e3, ann1);
    LearnsTrans(e, ann, t.e3, ann1, t.e4, ann1);
    if FoldBin(x.binop, t.vl, t.vr).None? {
      var i := Bin(t.e4.nreg, x.binop, t.vl, t.vr);
      NoteReg(t.e4, ann1, phis, i, BinTy(x.binop, OpTy(t.vl), OpTy(t.vr)).value);
      LearnsTrans(e, ann, t.e4, ann1, EncodeExpr(x, e).value.0, ann1);
    }
  }

  /** A branch of a ternary, from its empty block to the jump to the merge. */
  lemma {:induction false} AnnBranch(y: Expr, s: State, ann: seq<Note>, phis: bool, merge: nat) returns (ann1: seq<Note>)
    requires Ok(s) && SlotsOk(s.scopes, s.nslot) && EncodeVal(y, s).Some? && Noted(s, ann, phis)
    requires s.code[s.active] == [] && merge < |ann| && Leq(ann[merge].facts, Here(s, ann))
    requires phis ==> Mergeable(y) && !HasTrinary(y)
    requires ann[merge].from.Some? ==> phis && s.active in ann[merge].from.value
    ensures var (e1, o) := EncodeVal(y, s).value;
            var r := Emit(e1, Jump(merge));
            && |ann1| == |r.code| && Annotates(r.code, ann1, phis) && Learns(s, ann, e1, ann1)
            && Bounded(Here(s, ann), e1.nslot, e1.nreg)
            && (phis ==> Sends(r.code, ann1, o, s.active) && e1.active == s.active)
    decreases y, 5
  {
    hide EncodeVal, Mergeable, HasTrinary, SlotsOk, Annotates;
    FrameVal(y, s);
    var (e1, o) := EncodeVal(y, s).value;
    ann1 := AnnVal(y, s, ann, phis);
    if phis {
      PlainOpenVal(y, s);
      OpenEmit(e1, Jump(merge));
      var c, c1 := e1.code[e1.active], Emit(e1, Jump(merge)).code[e1.active];
      assert c1[..|c|] == c;
    }
    NoteEmit(e1, ann1, phis, Jump(merge));
  }

  /** Both branches, up to the empty block of the merge. */
  lemma {:induction false} AnnTriBranches(x: Expr, e: State, ann: seq<Note>, phis: bool) returns (ann1: seq<Note>)
    requires x.Trinary? && ExprEncodes(x, e) && Noted(e, ann, phis) && (phis ==> Mergeable(x))
    ensures var t := TriOf(x, e);
            var b := |e.code|;
            && Noted(t.e4, ann1, phis) && Adds(ann, ann1) && Here(t.e4, ann1) == Here(e, ann)
            && TriNotes(ann1, b, Here(e, ann), phis)
            && (phis ==> Sends(t.e4.code, ann1, t.ot, b + 1) && Sends(t.e4.code, ann1, t.of, b + 2)
                         && t.e2.active == b + 1 && t.e3.active == b + 2)
    decreases x, 1
  {
    hide OpTy, LoadVal, SlotsOk, Annotates, EncodeExpr, EncodeVal, TriOf, FindIncoming, PhiIncomings, After, HasTrinary,
         Sends;
    var t := TriOf(x, e);
    var b := |e.code|;
    FrameTrinary(x, e);
    var annC := AnnTriCond(x, e, ann, phis);
    var annT := AnnBranch(x.onTrue, t.s2, annC, phis, b + 3);
    NoteEnter(Emit(t.e2, Jump(b + 3)), annT, phis, t.s3, Here(e, ann));
    ann1 := AnnBranch(x.onFalse, t.s3, annT, phis, b + 3);
    NoteEnter(Emit(t.e3, Jump(b + 3)), ann1, phis, t.e4, Here(e, ann));
    if phis {
      SendsLater(Emit(t.e2, Jump(b + 3)).code, annT, t.e4.code, ann1, t.ot, b + 1);
    }
  }

  lemma {:induction false} AnnTrinary(x: Expr, e: State, ann: seq<Note>, phis: bool) returns (ann1: seq<Note>)
    requires x.Trinary? && ExprEncodes(x, e) && Noted(e, ann, phis) && (phis ==> Mergeable(x))
    ensures var (e1, o) := EncodeExpr(x, e).value;
            Noted(e1, ann1, phis) && Learns(e, ann, e1, ann1) && Known(o, Here(e1, ann1))
    decreases x, 2
  {
    hide OpTy, SlotsOk, Annotates, EncodeExpr, EncodeVal, TriOf, FindIncoming, PhiIncomings, After, HasTrinary, Sends,
         Frame, Here, Bounded;
    var t := TriOf(x, e);
    var b := |e.code|;
    FrameTrinary(x, e);
    ann1 := AnnTriBranches(x, e, ann, phis);
    if phis {
      MergeSends(x, e, t.e4.code, ann1);
    }
    NoteReg(t.e4, ann1, phis, Phi(t.e4.nreg, PhiIncomings(t.ot, b + 1, t.of, b + 2)), OpTy(t.ot));
  }

  /** Each listed block of a merge is left with the value it is listed with. */
  lemma {:induction false} MergeSends(x: Expr, e: State, code: Code, ann: seq<Note>)
    requires x.Trinary? && ExprEncodes(x, e) && Mergeable(x)
    requires TriOf(x, e).e2.active == |e.code| + 1 && TriOf(x, e).e3.active == |e.code| + 2
    requires Sends(code, ann, TriOf(x, e).ot, |e.code| + 1) && Sends(code, ann, TriOf(x, e).of, |e.code| + 2)
    ensures var ins := PhiIncomings(TriOf(x, e).ot, |e.code| + 1, TriOf(x, e).of, |e.code| + 2);
            IncomingOk(code, ann, ins, |e.code| + 1) && IncomingOk(code, ann, ins, |e.code| + 2)
  {
    hide SlotsOk, EncodeExpr, TriOf, FindIncoming, PhiIncomings, Sends, HasTrinary;
    PhiKnows(x, e, true);
    PhiKnows(x, e, false);
  }

  /** The four blocks of a ternary know what was known before it. */
  lemma {:induction false} AnnTriStart(x: Expr, e: State, ann: seq<Note>, phis: bool) returns (ann1: seq<Note>)
    requires x.Trinary? && ExprEncodes(x, e) && Noted(e, ann, phis)
    ensures var t := TriOf(x, e);
            && Noted(t.s1, ann1, phis) && Learns(e, ann, t.s1, ann1) && Here(t.s1, ann1) == Here(e, ann)
            && TriNotes(ann1, |e.code|, Here(e, ann), phis)
  {
    hide SlotsOk, Annotates, EncodeExpr, EncodeVal, TriOf, After;
    var t := TriOf(x, e);
    var b := |e.code|;
    var f := Here(e, ann);
    NewBlocksEmpty(e, 4);
    var n := Note(f, None);
    var notes := [n, n, n, Note(f, if phis then Some({b + 1, b + 2}) else None)];
    ann1 := ann + notes;
    NoteNew(e, ann, phis, notes);
    NoteEmit(NewBlocks(e, 4), ann1, phis, Jump(b));
    NoteEnter(Emit(NewBlocks(e, 4), Jump(b)), ann1, phis, t.s1, f);
  }

  ghost predicate TriNotes(ann: seq<Note>, b: nat, f: Facts, phis: bool) {
    && b + 3 < |ann| && ann[b + 1] == Note(f, None) && ann[b + 2] == Note(f, None)
    && ann[b + 3] == Note(f, if phis then Some({b + 1, b + 2}) else None)
  }

  lemma {:induction false} AnnTriCond(x: Expr, e: State, ann: seq<Note>, phis: bool) returns (ann1: seq<Note>)
    requires x.Trinary? && ExprEncodes(x, e) && Noted(e, ann, phis) && (phis ==> Mergeable(x))
    ensures var t := TriOf(x, e);
            && Noted(t.s2, ann1, phis) && Learns(e, ann, t.s2, ann1) && Here(t.s2, ann1) == Here(e, ann)
            && TriNotes(ann1, |e.code|, Here(e, ann), phis)
    decreases x, 0
  {
    hide SlotsOk, Annotates, EncodeExpr, EncodeVal, TriOf, After;
    var t := TriOf(x, e);
    var b := |e.code|;
    FrameTriCond(x, e);
    var ann0 := AnnTriStart(x, e, ann, phis);
    ann1 := AnnVal(x.cond, t.s1, ann0, phis);
    NoteEmit(t.e1, ann1, phis, JumpCond(t.oc, b + 1, b + 2));
    NoteEnter(Emit(t.e1, JumpCond(t.oc, b + 1, b + 2)), ann1, phis, t.s2, Here(e, ann));
  }

  // ----- statements -----

  /** The facts that a part of a loop's head adds for the code behind it. */
  ghost function Defined(o: Option<Stmt>, e: State, f: Facts): Facts {
    if o.Some? && o.value.SymbolDef? then f.(slots := f.slots + {e.nslot}) else f
  }

  ghost predicate Defines(o: Option<Stmt>, e: State, ann: seq<Note>, r: State, ann1: seq<Note>) {
    var f := Defined(o, e, Here(e, ann));
    NamesKnown(r.scopes, f) && Leq(f, Here(r, ann1)) && Bounded(f, r.nslot, r.nreg)
  }

  /** After a definition its slot has been stored to. */
  lemma {:induction false} AnnDef(s: Stmt, e: State, ann: seq<Note>, phis: bool) returns (ann1: seq<Note>)
    requires s.SymbolDef? && Ok(e) && SlotsOk(e.scopes, e.nslot) && EncodeStmt(s, e).Some?
    requires Noted(e, ann, phis) && (phis ==> MergeableStmt(s))
    ensures var r := EncodeStmt(s, e).value;
            Noted(r, ann1, phis) && Learns(e, ann, r, ann1) && Defines(Some(s), e, ann, r, ann1)
  {
    hide SlotsOk, Annotates, After;
    FrameVal(s.value, e);
    var (e1, o) := EncodeVal(s.value, e).value;
    ann1 := AnnVal(s.value, e, ann, phis);
    NoteEmit(e1, ann1, phis, Alloc(e1.nslot));
    var e2 := Emit(e1, Alloc(e1.nslot));
    NoteEmit(e2, ann1, phis, Store(e1.nslot, o));
    var r := EncodeStmt(s, e).value;
    assert Here(r, ann1) == Here(Emit(e2, Store(e1.nslot, o)), ann1);
  }

  lemma {:induction false} AnnAssign(s: Stmt, e: State, ann: seq<Note>, phis: bool) returns (ann1: seq<Note>)
    requires s.Assign? && Ok(e) && SlotsOk(e.scopes, e.nslot) && EncodeStmt(s, e).Some?
    requires Noted(e, ann, phis) && (phis ==> MergeableStmt(s))
    ensures var r := EncodeStmt(s, e).value;
            Noted(r, ann1, phis) && Learns(e, ann, r, ann1) && Defines(Some(s), e, ann, r, ann1)
  {
    hide SlotsOk, Annotates, After;
    FrameAssign(s, e);
    LookupSlot(e.scopes, e.nslot, s.left.name);
    FrameVal(s.right, e);
    var (e2, o) := EncodeVal(s.right, e).value;
    ann1 := AnnVal(s.right, e, ann, phis);
    NoteEmit(e2, ann1, phis, Store(EncodeExpr(s.left, e).value.1.id, o));
  }

  lemma {:induction false} AnnSimple(o: Option<Stmt>, e: State, ann: seq<Note>, phis: bool) returns (ann1: seq<Note>)
    requires Simple(o) && Ok(e) && SlotsOk(e.scopes, e.nslot) && EncodeOpt(o, e).Some?
    requires Noted(e, ann, phis) && (phis ==> MergeableOpt(o))
    ensures var r := EncodeOpt(o, e).value;
            Noted(r, ann1, phis) && Learns(e, ann, r, ann1) && Defines(o, e, ann, r, ann1)
  {
    hide SlotsOk, Annotates, EncodeStmt, After;
    ann1 := ann;
    match o {
      case None =>
      case Some(s) =>
        if s.SymbolDef? {
          ann1 := AnnDef(s, e, ann, phis);
        } else {
          ann1 := AnnAssign(s, e, ann, phis);
        }
    }
  }

  /** A statement's code uses only what is known and jumps only to where no
      more is expected. */
  lemma {:induction false} AnnStmt(s: Stmt, e: State, ann: seq<Note>, phis: bool) returns (ann1: seq<Note>)
    requires Ok(e) && SlotsOk(e.scopes, e.nslot) && EncodeStmt(s, e).Some? && Scoped(s)
    requires Noted(e, ann, phis) && Aims(e, ann) && (phis ==> MergeableStmt(s))
    ensures var e1 := EncodeStmt(s, e).value; Noted(e1, ann1, phis) && Learns(e, ann, e1, ann1)
    decreases s, 1
  {
    hide SlotsOk, Annotates, After;
    ann1 := ann;
    match s {
      case SymbolDef(_, _, _, _) => ann1 := AnnDef(s, e, ann, phis);
      case Assign(_, _) => ann1 := AnnAssign(s, e, ann, phis);
      case Return(Some(v)) =>
        FrameVal(v, e);
        ann1 := AnnVal(v, e, ann, phis);
        var (e1, o) := EncodeVal(v, e).value;
        NoteEmit(e1, ann1, phis, Ret(o));
      case If(_, _, _) => ann1 := AnnIf(s, e, ann, phis);
      case Loop(_, _, _, _) => ann1 := AnnLoop(s, e, ann, phis);
      case Break => NoteEmit(e, ann, phis, Jump(e.brk.value));
      case Continue => NoteEmit(e, ann, phis, Jump(e.cont.value));
      case Block(ss) => ann1 := AnnBlock(ss, e, ann, phis);
      case _ =>
    }
  }

  lemma {:induction false} AnnOpt(o: Option<Stmt>, e: State, ann: seq<Note>, phis: bool) returns (ann1: seq<Note>)
    requires Ok(e) && SlotsOk(e.scopes, e.nslot) && EncodeOpt(o, e).Some? && ScopedOpt(o)
    requires Noted(e, ann, phis) && Aims(e, ann) && (phis ==> MergeableOpt(o))
    ensures var e1 := EncodeOpt(o, e).value; Noted(e1, ann1, phis) && Learns(e, ann, e1, ann1)
    decreases o, 2
  {
    hide SlotsOk, Noted, Aims, Learns;
    ann1 := ann;
    LearnsSelf(e, ann);
    if o.Some? {
      ann1 := AnnStmt(o.value, e, ann, phis);
    }
  }

  lemma {:induction false} AnnSeq(ss: seq<Stmt>, e: State, ann: seq<Note>, phis: bool) returns (ann1: seq<Note>)
    requires Ok(e) && SlotsOk(e.scopes, e.nslot) && EncodeSeq(ss, e).Some? && ScopedSeq(ss)
    requires Noted(e, ann, phis) && Aims(e, ann) && (phis ==> MergeableSeq(ss))
    ensures var e1 := EncodeSeq(ss, e).value; Noted(e1, ann1, phis) && Learns(e, ann, e1, ann1)
    decreases ss, 2
  {
    hide SlotsOk, Noted, Aims, Learns;
    ann1 := ann;
    LearnsSelf(e, ann);
    if ss != [] {
      FrameStmt(ss[0], e);
      var e1 := EncodeStmt(ss[0], e).value;
      var annS := AnnStmt(ss[0], e, ann, phis);
      AimsLater(e, ann, e1, annS);
      ann1 := AnnSeq(ss[1..], e1, annS, phis);
      LearnsTrans(e, ann, e1, annS, EncodeSeq(ss, e).value, ann1);
    }
  }

  /** Leaving a scope forgets its names. */
  lemma {:induction false} NotePop(e: State, ann: seq<Note>, phis: bool, scopes: seq<Scope>)
    requires Noted(e, ann, phis) && PopScope(e).scopes == scopes && NamesKnown(scopes, Here(e, ann)) && scopes != []
    ensures Noted(PopScope(e), ann, phis) && Here(PopScope(e), ann) == Here(e, ann)
  {
  }

  lemma {:induction false} AnnBlock(ss: seq<Stmt>, e: State, ann: seq<Note>, phis: bool) returns (ann1: seq<Note>)
    requires Ok(e) && SlotsOk(e.scopes, e.nslot) && EncodeStmt(Block(ss), e).Some? && ScopedSeq(ss)
    requires Noted(e, ann, phis) && Aims(e, ann) && (phis ==> MergeableSeq(ss))
    ensures var e1 := EncodeStmt(Block(ss), e).value; Noted(e1, ann1, phis) && Learns(e, ann, e1, ann1)
    decreases ss, 3
  {
    hide SlotsOk, Annotates, After, EncodeSeq;
    SlotsOkPush(e.scopes, e.nslot);
    FrameSeq(ss, PushScope(e));
    ScopeExit(e, EncodeSeq(ss, PushScope(e)).value);
    assert Here(PushScope(e), ann) == Here(e, ann);
    ann1 := AnnSeq(ss, PushScope(e), ann, phis);
    NotePop(EncodeSeq(ss, PushScope(e)).value, ann1, phis, e.scopes);
  }

  /** The two tail checks jump only where no more is expected. */
  lemma {:induction false} NoteFallThrough(s: State, e: State, ann: seq<Note>, phis: bool, target: nat)
    requires Frame(s, e) && Noted(e, ann, phis) && Awaits(ann, target, Here(e, ann))
    ensures var r := FallThrough(e, s.active, target);
            Ok(r) && |ann| == |r.code| && Annotates(r.code, ann, phis)
  {
    hide Annotates, After;
    OneFallThroughJump(s, e, target);
    NoteEmit(e, ann, phis, Jump(target));
  }

  ghost predicate Pending(ann: seq<Note>, lo: nat, hi: nat, f: Facts) {
    hi <= |ann| && forall b | lo <= b < hi :: ann[b] == Note(f, None)
  }

  lemma {:induction false} AnnIfCond(s: Stmt, e: State, ann: seq<Note>, phis: bool) returns (ann1: seq<Note>)
    requires s.If? && Ok(e) && SlotsOk(e.scopes, e.nslot) && EncodeStmt(s, e).Some?
    requires Noted(e, ann, phis) && (phis ==> Mergeable(s.cond))
    ensures var t := IfOf(s, e);
            && Noted(t.s2, ann1, phis) && Learns(e, ann, t.s2, ann1) && Here(t.s2, ann1) == Here(e, ann)
            && Pending(ann1, |e.code|, |e.code| + 3, Here(e, ann))
  {
    hide SlotsOk, Annotates, EncodeStmt, EncodeOpt, EncodeVal, IfOf, After, NamesGrow, FallThrough;
    var t := IfOf(s, e);
    var b := |e.code|;
    var f := Here(e, ann);
    FrameIf(s, e);
    FrameIfCond(s, e);
    NewBlocksEmpty(e, 3);
    var notes := [Note(f, None), Note(f, None), Note(f, None)];
    NoteNew(e, ann, phis, notes);
    ann1 := AnnVal(s.cond, t.s0, ann + notes, phis);
    assert ann1[b] == notes[0] && ann1[b + 1] == notes[1] && ann1[b + 2] == notes[2];
    NoteEmit(t.e1, ann1, phis, JumpCond(t.oc, b, b + 1));
    NoteEnter(Emit(t.e1, JumpCond(t.oc, b, b + 1)), ann1, phis, t.s2, f);
  }

  /** From the start of a branch to the start of the pending block `b`. */
  lemma {:induction false} AnnPart(o: Option<Stmt>, s: State, ann: seq<Note>, phis: bool, target: nat,
                                   b: nat, r: State, f: Facts)
      returns (ann1: seq<Note>)
    requires Ok(s) && SlotsOk(s.scopes, s.nslot) && EncodeOpt(o, s).Some? && ScopedOpt(o)
    requires Noted(s, ann, phis) && Aims(s, ann) && (phis ==> MergeableOpt(o)) && Here(s, ann) == f
    requires target < |ann| && b < |ann| && ann[target] == Note(f, None) && ann[b] == Note(f, None)
    requires r == Activate(FallThrough(EncodeOpt(o, s).value, s.active, target), b)
    requires Ok(r) && r.code[b] == [] && r.scopes == s.scopes && SameTargets(s, r)
    ensures Noted(r, ann1, phis) && Learns(s, ann, r, ann1) && Here(r, ann1) == f && Aims(r, ann1)
    decreases o, 3
  {
    hide SlotsOk, Annotates, EncodeStmt, EncodeOpt, After, NamesGrow, FallThrough;
    FrameOpt(o, s);
    var e1 := EncodeOpt(o, s).value;
    ann1 := AnnOpt(o, s, ann, phis);
    NoteFallThrough(s, e1, ann1, phis, target);
    OneFallThroughJump(s, e1, target);
    NoteEnter(FallThrough(e1, s.active, target), ann1, phis, r, f);
  }

  lemma {:induction false} AnnIf(s: Stmt, e: State, ann: seq<Note>, phis: bool) returns (ann1: seq<Note>)
    requires s.If? && Ok(e) && SlotsOk(e.scopes, e.nslot) && EncodeStmt(s, e).Some? && Scoped(s)
    requires Noted(e, ann, phis) && Aims(e, ann) && (phis ==> MergeableStmt(s))
    ensures var e1 := EncodeStmt(s, e).value; Noted(e1, ann1, phis) && Learns(e, ann, e1, ann1)
    decreases s, 0
  {
    hide SlotsOk, EncodeStmt, EncodeOpt, EncodeVal, IfOf, NamesGrow, FallThrough, Noted, Frame, Here;
    var t := IfOf(s, e);
    var b := |e.code|;
    var f := Here(e, ann);
    FrameIf(s, e);
    ScopedKeepsIf(s, e);
    FrameIfCond(s, e);
    var annC := AnnIfCond(s, e, ann, phis);
    AimsLater(e, ann, t.s2, annC);
    var annT := AnnPart(s.onTrue, t.s2, annC, phis, b + 2, b + 1, t.s3, f);
    ann1 := AnnPart(s.onFalse, t.s3, annT, phis, b + 2, b + 2, t.s4, f);
  }

  // ----- loops -----

  lemma {:induction false} AnnLoopInit(s: Stmt, e: State, ann: seq<Note>, phis: bool) returns (ann1: seq<Note>)
    requires s.Loop? && Ok(e) && SlotsOk(e.scopes, e.nslot) && EncodeStmt(s, e).Some? && Scoped(s)
    requires Noted(e, ann, phis) && (phis ==> MergeableStmt(s))
    ensures var t := LoopOf(s, e);
            var f := Defined(s.init, e, Here(e, ann));
            && Noted(t.s1, ann1, phis) && Adds(ann, ann1) && Here(t.s1, ann1) == f
            && Pending(ann1, |e.code|, |e.code| + 4, f)
  {
    hide Frame, Mergeable, NewBlocks, Bounded, SlotsOk, Annotates, EncodeStmt, EncodeOpt, EncodeGuard, LoopOf, After, NamesGrow, FallThrough;
    var t := LoopOf(s, e);
    var b := |e.code|;
    var f := Defined(s.init, e, Here(e, ann));
    FrameLoop(s, e);
    NewBlocksEmpty(PushScope(e), 4);
    var n := Note(f, None);
    var notes := [n, n, n, n];
    assert Here(PushScope(e), ann) == Here(e, ann);
    NoteNew(PushScope(e), ann, phis, notes);
    assert Here(t.s0, ann + notes) == Here(e, ann);
    ann1 := AnnSimple(s.init, t.s0, ann + notes, phis);
    assert ann1[b] == n && ann1[b + 1] == n && ann1[b + 2] == n && ann1[b + 3] == n;
    NoteEmit(t.e1, ann1, phis, Jump(b));
    NoteEnter(Emit(t.e1, Jump(b)), ann1, phis, t.s1, f);
  }

  lemma {:induction false} AnnLoopHead(s: Stmt, e: State, ann: seq<Note>, phis: bool) returns (ann1: seq<Note>)
    requires s.Loop? && Ok(e) && SlotsOk(e.scopes, e.nslot) && EncodeStmt(s, e).Some? && Scoped(s)
    requires Noted(e, ann, phis) && (phis ==> MergeableStmt(s))
    ensures var t := LoopOf(s, e);
            var f := Defined(s.init, e, Here(e, ann));
            && Noted(t.s2, ann1, phis) && Adds(ann, ann1) && Here(t.s2, ann1) == f
            && Pending(ann1, |e.code|, |e.code| + 4, f)
  {
    hide Frame, Mergeable, SlotsOk, Annotates, EncodeStmt, EncodeOpt, EncodeGuard, LoopOf, After, NamesGrow, FallThrough, Defined;
    var t := LoopOf(s, e);
    var b := |e.code|;
    var f := Defined(s.init, e, Here(e, ann));
    FrameLoop(s, e);
    var ann0 := AnnLoopInit(s, e, ann, phis);
    ann1 := AnnGuard(s.guard, t.s1, ann0, phis);
    NoteEmit(t.e2, ann1, phis, JumpCond(t.oc, b + 2, b + 3));
    NoteEnter(Emit(t.e2, JumpCond(t.oc, b + 2, b + 3)), ann1, phis, t.s2, f);
  }

  lemma {:induction false} AnnGuard(o: Option<Expr>, e: State, ann: seq<Note>, phis: bool) returns (ann1: seq<Note>)
    requires Ok(e) && SlotsOk(e.scopes, e.nslot) && EncodeGuard(o, e).Some?
    requires Noted(e, ann, phis) && (phis && o.Some? ==> Mergeable(o.value))
    ensures var (e1, v) := EncodeGuard(o, e).value;
            Noted(e1, ann1, phis) && Learns(e, ann, e1, ann1) && Known(v, Here(e1, ann1))
  {
    hide SlotsOk, Noted, Learns;
    ann1 := ann;
    LearnsSelf(e, ann);
    if o.Some? {
      ann1 := AnnVal(o.value, e, ann, phis);
    }
  }

  lemma {:induction false} AnnLoop(s: Stmt, e: State, ann: seq<Note>, phis: bool) returns (ann1: seq<Note>)
    requires s.Loop? && Ok(e) && SlotsOk(e.scopes, e.nslot) && EncodeStmt(s, e).Some? && Scoped(s)
    requires Noted(e, ann, phis) && (phis ==> MergeableStmt(s))
    ensures var e1 := EncodeStmt(s, e).value; Noted(e1, ann1, phis) && Learns(e, ann, e1, ann1)
    decreases s, 0
  {
    hide Frame, Here, Defined, Mergeable, NewBlocks, SlotsOk, EncodeStmt, EncodeOpt, EncodeGuard, LoopOf, After, NamesGrow, FallThrough, Annotates;
    var t := LoopOf(s, e);
    var b := |e.code|;
    var f := Defined(s.init, e, Here(e, ann));
    FrameLoop(s, e);
    ScopedKeepsLoop(s, e);
    var annH := AnnLoopHead(s, e, ann, phis);
    assert Aims(t.s2, annH);
    var annB := AnnPart(s.body, t.s2, annH, phis, b + 1, b + 1, t.s3, f);
    ann1 := AnnSimple(s.step, t.s3, annB, phis);
    NoteEmit(t.e4, ann1, phis, Jump(b));
    LoopExit(s, e, ann, ann1, phis);
  }

  /** Behind a loop the names of its own scope are gone. */
  lemma {:induction false} LoopExit(s: Stmt, e: State, ann: seq<Note>, ann1: seq<Note>, phis: bool)
    requires s.Loop? && Ok(e) && SlotsOk(e.scopes, e.nslot) && EncodeStmt(s, e).Some? && Noted(e, ann, phis)
    requires var t := LoopOf(s, e);
             var f := Defined(s.init, e, Here(e, ann));
             && |ann1| == |t.s4.code| && Annotates(t.s4.code, ann1, phis) && Adds(ann, ann1)
             && |e.code| + 3 < |ann1| && ann1[|e.code| + 3].facts == f && Bounded(f, t.s4.nslot, t.s4.nreg)
    ensures var e1 := EncodeStmt(s, e).value; Noted(e1, ann1, phis) && Learns(e, ann, e1, ann1)
  {
    hide Frame, Here, SameTargets, NewBlocks, SlotsOk, EncodeStmt, EncodeOpt, EncodeGuard, LoopOf, After, NamesGrow, FallThrough, Annotates;
    var t := LoopOf(s, e);
    var f := Defined(s.init, e, Here(e, ann));
    FrameLoop(s, e);
    NoteEnter(t.s4, ann1, phis, PopScope(t.s4), f);
  }

  // ----- the module -----

  lemma {:induction false} AnnModule(body: seq<Stmt>, phis: bool) returns (ann: seq<Note>)
    requires EncodeModule(body).Some? && ScopedSeq(body) && (phis ==> MergeableSeq(body))
    ensures Annotates(EncodeModule(body).value.code, ann, phis) && |ann| > 0 && ann[0] == Nothing
  {
    hide EncodeSeq;
    assert SlotsOk(Initial.scopes, Initial.nslot);
    ann := AnnSeq(body, Initial, [Nothing], phis);
    NoteEmit(EncodeSeq(body, Initial).value, ann, phis, Ret(Const(Val(I32, 0))));
  }

  /** On every path from the entry, through any nesting of branches, loops,
      break and continue: a slot is loaded only after it has been stored to and
      a register is read only after it has been set. When all merges know their
      branches, a phi too has a value for the edge that the path takes. */
  lemma {:induction false} InitialisedBeforeUse(body: seq<Stmt>, p: seq<nat>)
    requires EncodeModule(body).Some? && ScopedSeq(body) && IsPath(EncodeModule(body).value.code, p)
    ensures PathSafe(EncodeModule(body).value.code, p, false)
    ensures MergeableSeq(body) ==> PathSafe(EncodeModule(body).value.code, p, true)
  {
    hide EncodeModule, Annotates, PathSafe, IsPath;
    var code := EncodeModule(body).value.code;
    var ann := AnnModule(body, false);
    AnnotatedPathsSafe(code, ann, false, p);
    if MergeableSeq(body) {
      ann := AnnModule(body, true);
      AnnotatedPathsSafe(code, ann, true, p);
    }
  }
}
