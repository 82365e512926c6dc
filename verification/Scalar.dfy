/** Fixed-width integers and the builder's scalar instructions on them. */
module Scalar {
  import opened Ast

  /** `I1` is the language's bool. */
  datatype Ty = I1 | I32 | I64

  function Modulus(ty: Ty): (m: nat)
    ensures m >= 2 && m % 2 == 0
  {
    match ty
    case I1 => 2
    case I32 => 0x1_0000_0000
    case I64 => 0x1_0000_0000_0000_0000
  }

  function Bits(ty: Ty): nat {
    match ty
    case I1 => 1
    case I32 => 32
    case I64 => 64
  }

  predicate InRange(ty: Ty, x: int) {
    -(Modulus(ty) / 2) <= x < Modulus(ty) / 2
  }

  /** Two's complement truncation: the signed value of the low bits of `x`. */
  function Wrap(ty: Ty, x: int): (r: int)
    ensures InRange(ty, r)
    ensures InRange(ty, x) ==> r == x
    ensures (r - x) % Modulus(ty) == 0
  {
    var m := x % Modulus(ty);
    WrapCongruent(ty, x);
    if m >= Modulus(ty) / 2 then m - Modulus(ty) else m
  }

  lemma {:induction false} WrapCongruent(ty: Ty, x: int)
    ensures (x % Modulus(ty) - x) % Modulus(ty) == 0
    ensures (x % Modulus(ty) - Modulus(ty) - x) % Modulus(ty) == 0
  {
    match ty {
      case I1 =>
      case I32 =>
      case I64 =>
    }
  }

  /** The bits of `x` read without sign. */
  function Unsigned(ty: Ty, x: int): (r: nat)
    ensures r < Modulus(ty)
  {
    x % Modulus(ty)
  }

  /** A run-time value; a true bool is the one-bit integer -1. */
  datatype Val = Val(ty: Ty, n: int)

  function BoolVal(b: bool): Val {
    Val(I1, if b then -1 else 0)
  }

  function Pow2(n: nat): (p: nat)
    ensures p >= 1
  {
    if n == 0 then 1 else 2 * Pow2(n - 1)
  }

  datatype BitFn = AndFn | OrFn | XorFn

  /** The bitwise operation on the `w` low bits of two unsigned numbers. */
  function Bitwise(f: BitFn, a: nat, b: nat, w: nat): (r: nat)
    ensures r < Pow2(w)
  {
    if w == 0 then 0 else
      var x := a % 2 == 1;
      var y := b % 2 == 1;
      var bit := match f { case AndFn => x && y case OrFn => x || y case XorFn => x != y };
      (if bit then 1 else 0) + 2 * Bitwise(f, a / 2, b / 2, w - 1)
  }

  function BitVal(f: BitFn, ty: Ty, a: int, b: int): Val {
    Val(ty, Wrap(ty, Bitwise(f, Unsigned(ty, a), Unsigned(ty, b), Bits(ty))))
  }

  /** Quotient rounded toward zero. */
  function TruncDiv(a: int, b: int): int
    requires b != 0
  {
    var q := (if a < 0 then -a else a) / (if b < 0 then -b else b);
    if (a < 0) == (b < 0) then q else -q
  }

  /** The mask of the complement instruction: 0xFFFFFFFF cut to the width. */
  function FlipMask(ty: Ty): int {
    match ty
    case I1 => 1
    case I32 => 0xFFFF_FFFF
    case I64 => 0xFFFF_FFFF
  }

  /** `None` where the builder has no instruction for the operand or where
      executing it has no defined result. */
  function EvalUn(op: UnOp, a: Val): Option<Val> {
    match op
    case Pos => Some(a)
    case Neg => Some(Val(a.ty, Wrap(a.ty, -a.n)))
    case Not => if a.ty == I1 then Some(BitVal(XorFn, I1, a.n, 1)) else None
    case Flip => Some(BitVal(XorFn, a.ty, a.n, FlipMask(a.ty)))
    case SizeOf => None
    case TypeOf => None
  }

  /** Operands of different widths have no instruction; division by zero, an
      overflowing division and an over-wide shift have no defined result. */
  function EvalBin(op: BinOp, a: Val, b: Val): Option<Val> {
    if a.ty != b.ty then None else
    var ty := a.ty;
    match op
    case Or => if ty == I1 then Some(BitVal(OrFn, ty, a.n, b.n)) else None
    case And => if ty == I1 then Some(BitVal(AndFn, ty, a.n, b.n)) else None
    case Eq => Some(BoolVal(a.n == b.n))
    case Ne => Some(BoolVal(a.n != b.n))
    case Le => Some(BoolVal(a.n <= b.n))
    case Ge => Some(BoolVal(a.n >= b.n))
    case Lt => Some(BoolVal(a.n < b.n))
    case Gt => Some(BoolVal(a.n > b.n))
    case Add => Some(Val(ty, Wrap(ty, a.n + b.n)))
    case Sub => Some(Val(ty, Wrap(ty, a.n - b.n)))
    case Mul => Some(Val(ty, Wrap(ty, a.n * b.n)))
    case Div =>
      if b.n == 0 || !InRange(ty, TruncDiv(a.n, b.n)) then None
      else Some(Val(ty, TruncDiv(a.n, b.n)))
    case Mod =>
      if b.n == 0 || !InRange(ty, TruncDiv(a.n, b.n)) then None
      else Some(Val(ty, Wrap(ty, a.n - b.n * TruncDiv(a.n, b.n))))
    case BitAnd => Some(BitVal(AndFn, ty, a.n, b.n))
    case BitOr => Some(BitVal(OrFn, ty, a.n, b.n))
    case BitXor => Some(BitVal(XorFn, ty, a.n, b.n))
    case ShiftL =>
      if Unsigned(ty, b.n) >= Bits(ty) then None
      else Some(Val(ty, Wrap(ty, a.n * Pow2(Unsigned(ty, b.n)))))
    case ShiftR =>
      if Unsigned(ty, b.n) >= Bits(ty) then None
      else Some(Val(ty, Wrap(ty, Unsigned(ty, a.n) / Pow2(Unsigned(ty, b.n)))))
  }

  /** The static result type of an accepted operation. */
  function UnTy(op: UnOp, a: Ty): Option<Ty> {
    match op
    case Pos | Neg | Flip => Some(a)
    case Not => if a == I1 then Some(I1) else None
    case SizeOf | TypeOf => None
  }

  function BinTy(op: BinOp, a: Ty, b: Ty): Option<Ty> {
    if a != b then None else
    match op
    case Or | And => if a == I1 then Some(I1) else None
    case Eq | Ne | Le | Ge | Lt | Gt => Some(I1)
    case Add | Sub | Mul | Div | Mod => Some(a)
    case BitAnd | BitOr | BitXor | ShiftL | ShiftR => Some(a)
  }
}
