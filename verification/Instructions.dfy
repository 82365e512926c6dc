/** Laws of the scalar instructions, for all operands in range. */
module Instructions {
  import opened Ast
  import opened Scalar
  import opened Semantics
  import opened Operators

  /** Two operands of one type, both in range. */
  predicate Pair(a: Val, b: Val) {
    a.ty == b.ty && Proper(a) && Proper(b)
  }

  function Zero(ty: Ty): Val {
    Val(ty, 0)
  }

  predicate IsTrue(r: Option<Val>) {
    r.Some? && r.value.ty == I1 && r.value.n != 0
  }

  predicate IsFalse(r: Option<Val>) {
    r == Some(Zero(I1))
  }

  // ----- wrapping -----

  /** Wrapping adds a multiple of the modulus. */
  lemma {:induction false} WrapForm(ty: Ty, x: int) returns (k: int)
    ensures Wrap(ty, x) == x + k * Modulus(ty)
  {
    hide Wrap;
    k := (Wrap(ty, x) - x) / Modulus(ty);
    match ty {
      case I1 =>
      case I32 =>
      case I64 =>
    }
  }

  /** A number in range is determined by its residue. */
  lemma {:induction false} RangeUnique(ty: Ty, x: int, y: int, k: int)
    requires InRange(ty, x) && InRange(ty, y) && x == y + k * Modulus(ty)
    ensures x == y
  {
    match ty {
      case I1 =>
      case I32 =>
      case I64 =>
    }
  }

  lemma {:induction false} WrapSame(ty: Ty, x: int, y: int, k: int)
    requires x == y + k * Modulus(ty)
    ensures Wrap(ty, x) == Wrap(ty, y)
  {
    hide Wrap;
    var i := WrapForm(ty, x);
    var j := WrapForm(ty, y);
    var m := Modulus(ty);
    assert i * m + k * m - j * m == (i + k - j) * m;
    RangeUnique(ty, Wrap(ty, x), Wrap(ty, y), i + k - j);
  }

  lemma {:induction false} UnsignedWrap(ty: Ty, x: nat)
    requires x < Modulus(ty)
    ensures Unsigned(ty, Wrap(ty, x)) == x
  {
  }

  /** The bits of a value read without sign. */
  lemma {:induction false} UnsignedForm(v: Val)
    requires Proper(v)
    ensures Unsigned(v.ty, v.n) == if v.n >= 0 then v.n else v.n + Modulus(v.ty)
  {
  }

  lemma {:induction false} Widths()
    ensures Modulus(I1) == Pow2(Bits(I1)) == 2 && Bits(I1) == 1
    ensures Modulus(I32) == Pow2(Bits(I32)) == 4294967296 && Bits(I32) == 32
    ensures Modulus(I64) == Pow2(Bits(I64)) == 18446744073709551616 && Bits(I64) == 64
  {
    Powers();
  }

  // ----- sums and products -----

  /** A sum is the mathematical one, or misses it by the modulus where that is
      out of range; and a difference takes back what a sum adds. */
  lemma {:induction false} AddSub(a: Val, b: Val)
    requires Pair(a, b)
    ensures var s := EvalBin(Add, a, b);
            && s.Some? && s.value.ty == a.ty && Proper(s.value)
            && OffBy(s.value.n - a.n - b.n, Modulus(a.ty))
            && (InRange(a.ty, a.n + b.n) ==> s.value.n == a.n + b.n)
            && EvalBin(Sub, s.value, b) == Some(a)
    ensures InRange(a.ty, a.n - b.n) ==> EvalBin(Sub, a, b) == Some(Val(a.ty, a.n - b.n))
  {
    hide Wrap;
    var ty := a.ty;
    var k := WrapForm(ty, a.n + b.n);
    SmallMultiple(ty, a.n + b.n, k);
    WrapSame(ty, Wrap(ty, a.n + b.n) - b.n, a.n, k);
  }

  predicate OffBy(d: int, m: int) {
    d == 0 || d == m || d == -m
  }

  lemma {:induction false} SmallMultiple(ty: Ty, x: int, k: int)
    requires 0 <= x + Modulus(ty) < 2 * Modulus(ty) && InRange(ty, x + k * Modulus(ty))
    ensures OffBy(k * Modulus(ty), Modulus(ty))
  {
    match ty {
      case I1 =>
      case I32 =>
      case I64 =>
    }
  }

  /** Multiplying is adding again and again. */
  lemma {:induction false} MulAdds(a: Val, b: Val)
    requires Pair(a, b)
    ensures EvalBin(Mul, a, Zero(a.ty)) == Some(Zero(a.ty))
    ensures var b1 := Val(b.ty, b.n + 1);
            Proper(b1) ==>
              && EvalBin(Mul, a, b).Some? && Proper(EvalBin(Mul, a, b).value)
              && EvalBin(Mul, a, b1) == EvalBin(Add, EvalBin(Mul, a, b).value, a)
    ensures InRange(a.ty, a.n * b.n) ==> EvalBin(Mul, a, b) == Some(Val(a.ty, a.n * b.n))
  {
    hide Wrap;
    var ty := a.ty;
    assert InRange(ty, 0) && a.n * 0 == 0;
    var k := WrapForm(ty, a.n * b.n);
    assert a.n * (b.n + 1) == a.n * b.n + a.n;
    assert (-k) * Modulus(ty) == -(k * Modulus(ty));
    WrapSame(ty, a.n * (b.n + 1), Wrap(ty, a.n * b.n) + a.n, -k);
  }

  /** Negation subtracts from zero, and plus does nothing. */
  lemma {:induction false} NegSubtracts(a: Val)
    requires Proper(a)
    ensures EvalUn(Neg, a) == EvalBin(Sub, Zero(a.ty), a) && EvalUn(Pos, a) == Some(a)
  {
    hide Wrap;
  }

  // ----- division -----

  lemma {:induction false} DivUnique(x: nat, d: nat, q: nat, r: nat)
    requires d > 0 && x == d * q + r && r < d
    ensures x / d == q
  {
    var q1, r1 := x / d, x % d;
    assert x == d * q1 + r1 && 0 <= r1 < d;
    assert d * q1 - d * q == d * (q1 - q);
    BelowDivisor(d, q1 - q);
  }

  lemma {:induction false} BelowDivisor(d: int, k: int)
    requires d > 0
    ensures -d < d * k < d ==> k == 0
  {
    if k > 0 {
      assert d * k >= d;
    } else if k < 0 {
      assert d * k <= -d;
    }
  }

  /** What the quotient rounded toward zero is: the remainder that it leaves is
      smaller than the divisor and has the dividend's sign. */
  lemma {:induction false} TruncForm(a: int, b: int)
    requires b != 0
    ensures var r := a - b * TruncDiv(a, b);
            -(if b < 0 then -b else b) < r < (if b < 0 then -b else b) && (r == 0 || (r < 0 <==> a < 0))
  {
    var x, d := if a < 0 then -a else a, if b < 0 then -b else b;
    var q := x / d;
    assert x == d * q + x % d && 0 <= x % d < d;
    assert b * q == if b < 0 then -(d * q) else d * q;
    assert b * (-q) == -(b * q);
  }

  lemma {:induction false} SmallQuotient(x: nat, d: nat)
    requires d > 0
    ensures x / d >= 0 && (d == 1 ==> x / d == x) && (d > 1 ==> 2 * (x / d) <= x)
  {
    var q := x / d;
    assert x == d * q + x % d && 0 <= x % d < d;
    Twice(d, q);
  }

  lemma {:induction false} Twice(d: nat, q: int)
    ensures d >= 2 && q >= 0 ==> d * q >= 2 * q
  {
  }

  lemma {:induction false} TruncRange(ty: Ty, a: int, b: int)
    requires InRange(ty, a) && InRange(ty, b) && b != 0
    ensures InRange(ty, TruncDiv(a, b)) <==> !(b == -1 && a == -(Modulus(ty) / 2))
  {
    var x, d := if a < 0 then -a else a, if b < 0 then -b else b;
    SmallQuotient(x, d);
    QuotientRange(Modulus(ty) / 2, a, b, x / d);
  }

  lemma {:induction false} QuotientRange(h: int, a: int, b: int, q: int)
    requires h > 0 && -h <= a < h && b != 0 && q >= 0
    requires var x := if a < 0 then -a else a;
             if b == 1 || b == -1 then q == x else 2 * q <= x
    ensures -h <= (if (a < 0) == (b < 0) then q else -q) < h <==> !(b == -1 && a == -h)
  {
  }

  /** Quotient and remainder of one division belong together. */
  lemma {:induction false} DivMod(a: Val, b: Val)
    requires Pair(a, b)
    ensures var q, r := EvalBin(Div, a, b), EvalBin(Mod, a, b);
            && (q.Some? <==> r.Some?)
            && (q.Some? <==> b.n != 0 && !(b.n == -1 && a.n == -(Modulus(a.ty) / 2)))
            && (q.Some? ==>
                  && q.value.ty == r.value.ty == a.ty && Proper(q.value) && Proper(r.value)
                  && q.value.n * b.n + r.value.n == a.n
                  && (r.value.n == 0 || (r.value.n < 0 <==> a.n < 0))
                  && -(if b.n < 0 then -b.n else b.n) < r.value.n < (if b.n < 0 then -b.n else b.n))
  {
    hide Wrap, TruncDiv;
    if b.n != 0 {
      TruncForm(a.n, b.n);
      TruncRange(a.ty, a.n, b.n);
    }
  }

  // ----- comparisons -----

  predicate Less(a: Val, b: Val) {
    IsTrue(EvalBin(Lt, a, b))
  }

  /** The six comparisons speak of one order, and yield bools. */
  lemma {:induction false} Comparisons(a: Val, b: Val)
    requires Pair(a, b)
    ensures forall op | op in {Eq, Ne, Lt, Gt, Le, Ge} :: IsTrue(EvalBin(op, a, b)) <==> !IsFalse(EvalBin(op, a, b))
    ensures IsTrue(EvalBin(Eq, a, b)) <==> a == b
    ensures IsTrue(EvalBin(Ne, a, b)) <==> a != b
    ensures a == b ==> !Less(a, b) && !Less(b, a)
    ensures a != b ==> (Less(a, b) <==> !Less(b, a))
    ensures IsTrue(EvalBin(Gt, a, b)) <==> Less(b, a)
    ensures IsTrue(EvalBin(Le, a, b)) <==> Less(a, b) || a == b
    ensures IsTrue(EvalBin(Ge, a, b)) <==> Less(b, a) || a == b
  {
  }

  /** The order is that of the numbers: it is transitive, every number is below
      the next, and adding keeps it as long as the sums are in range. */
  lemma {:induction false} NumberOrder(a: Val, b: Val, c: Val)
    requires Pair(a, b) && Pair(b, c)
    ensures Less(a, b) && Less(b, c) ==> Less(a, c)
    ensures Proper(Val(a.ty, a.n + 1)) ==> Less(a, Val(a.ty, a.n + 1))
    ensures InRange(a.ty, a.n + c.n) && InRange(a.ty, b.n + c.n) ==>
              && EvalBin(Add, a, c).Some? && EvalBin(Add, b, c).Some?
              && (Less(EvalBin(Add, a, c).value, EvalBin(Add, b, c).value) <==> Less(a, b))
  {
    hide Wrap;
  }

  // ----- shifts -----

  /** Shifting to the left doubles, once for each place. */
  lemma {:induction false} ShiftLeft(a: Val, n: nat)
    requires Proper(a) && n < Bits(a.ty)
    ensures EvalBin(ShiftL, a, Zero(a.ty)) == Some(a)
    ensures var s := EvalBin(ShiftL, a, Val(a.ty, n));
            && s.Some? && Proper(s.value)
            && (n + 1 < Bits(a.ty) ==> EvalBin(ShiftL, a, Val(a.ty, n + 1)) == EvalBin(Add, s.value, s.value))
  {
    hide Wrap, Unsigned;
    var ty := a.ty;
    ShiftAmount(ty, n);
    ShiftAmount(ty, 0);
    assert a.n * Pow2(0) == a.n;
    var x := a.n * Pow2(n);
    var k := WrapForm(ty, x);
    if n + 1 < Bits(ty) {
      ShiftAmount(ty, n + 1);
      assert a.n * Pow2(n + 1) == x + x by { assert Pow2(n + 1) == 2 * Pow2(n); }
      assert (-(2 * k)) * Modulus(ty) == -(k * Modulus(ty)) - k * Modulus(ty);
      WrapSame(ty, x + x, Wrap(ty, x) + Wrap(ty, x), -(2 * k));
    }
  }

  lemma {:induction false} ShiftAmount(ty: Ty, n: nat)
    requires n < Bits(ty)
    ensures Unsigned(ty, n) == n && Unsigned(ty, n) < Bits(ty)
  {
  }

  /** Shifting to the right halves the number that the bits are without sign. */
  lemma {:induction false} ShiftRight(a: Val, n: nat)
    requires Proper(a) && n < Bits(a.ty)
    ensures EvalBin(ShiftR, a, Zero(a.ty)) == Some(a)
    ensures var s := EvalBin(ShiftR, a, Val(a.ty, n));
            && s.Some? && s.value.ty == a.ty
            && (n + 1 < Bits(a.ty) ==>
                  var t := EvalBin(ShiftR, a, Val(a.ty, n + 1));
                  t.Some? && Unsigned(a.ty, t.value.n) == Unsigned(a.ty, s.value.n) / 2)
  {
    hide Wrap, Unsigned;
    var ty := a.ty;
    var u := Unsigned(ty, a.n);
    ShiftAmount(ty, n);
    ShiftAmount(ty, 0);
    UnsignedBack(a);
    assert u / Pow2(0) == u;
    Quotient(u, n);
    UnsignedWrap(ty, u / Pow2(n));
    if n + 1 < Bits(ty) {
      ShiftAmount(ty, n + 1);
      UnsignedWrap(ty, u / Pow2(n + 1));
    }
  }

  lemma {:induction false} UnsignedBack(a: Val)
    requires Proper(a)
    ensures Wrap(a.ty, Unsigned(a.ty, a.n)) == a.n
  {
  }

  lemma {:induction false} HalfQuotient(u: nat, p: nat)
    requires p > 0
    ensures 0 <= u / p <= u && u / (2 * p) == u / p / 2
  {
    var q, r := u / p, u % p;
    assert u == p * q + r && 0 <= r < p && q >= 0;
    Grows(p, q);
    HalfOf(u, p, q, r);
  }

  lemma {:induction false} HalfOf(u: nat, p: nat, q: nat, r: nat)
    requires u == p * q + r && r < p
    ensures u / (2 * p) == q / 2
  {
    var h := q / 2;
    if q == 2 * h {
      assert p * (2 * h) == 2 * p * h;
      DivUnique(u, 2 * p, h, r);
    } else {
      assert p * (2 * h + 1) == 2 * p * h + p;
      DivUnique(u, 2 * p, h, p + r);
    }
  }

  lemma {:induction false} Grows(p: nat, q: nat)
    requires p > 0
    ensures p * q >= q
  {
  }

  lemma {:induction false} Quotient(u: nat, n: nat)
    ensures 0 <= u / Pow2(n) <= u && 0 <= u / Pow2(n + 1) <= u
    ensures u / Pow2(n + 1) == u / Pow2(n) / 2
  {
    HalfQuotient(u, Pow2(n));
    HalfQuotient(u, Pow2(n + 1));
  }

  /** Exactly the operations of one type have results, but for bools, division
      by zero, the one quotient out of range, and shifts by the width or more. */
  lemma {:induction false} Results(op: BinOp, a: Val, b: Val)
    requires Proper(a) && Proper(b)
    ensures EvalBin(op, a, b).Some? <==>
              && a.ty == b.ty
              && (op == And || op == Or ==> a.ty == I1)
              && (op == Div || op == Mod ==> b.n != 0 && !(b.n == -1 && a.n == -(Modulus(a.ty) / 2)))
              && (op == ShiftL || op == ShiftR ==> 0 <= b.n < Bits(a.ty))
  {
    hide Wrap, TruncDiv, Unsigned, Pow2, Bitwise;
    if a.ty == b.ty {
      if op == Div || op == Mod {
        DivMod(a, b);
      }
      UnsignedForm(b);
    }
  }

  // ----- bits -----

  /** Bit `i` of a number: its last bit after `i` halvings. */
  predicate BitAt(x: nat, i: nat) {
    if i == 0 then x % 2 == 1 else BitAt(x / 2, i - 1)
  }

  predicate BitOf(v: Val, i: nat) {
    BitAt(Unsigned(v.ty, v.n), i)
  }

  lemma {:induction false} BitwiseAt(f: BitFn, a: nat, b: nat, w: nat, i: nat)
    requires i < w
    ensures BitAt(Bitwise(f, a, b, w), i) ==
            match f
            case AndFn => BitAt(a, i) && BitAt(b, i)
            case OrFn => BitAt(a, i) || BitAt(b, i)
            case XorFn => BitAt(a, i) != BitAt(b, i)
  {
    if i > 0 {
      BitwiseAt(f, a / 2, b / 2, w - 1, i - 1);
      assert Bitwise(f, a, b, w) / 2 == Bitwise(f, a / 2, b / 2, w - 1);
    }
  }

  lemma {:induction false} BitValAt(f: BitFn, ty: Ty, a: int, b: int, i: nat)
    requires i < Bits(ty)
    ensures BitOf(BitVal(f, ty, a, b), i) ==
            var x, y := BitAt(Unsigned(ty, a), i), BitAt(Unsigned(ty, b), i);
            match f
            case AndFn => x && y
            case OrFn => x || y
            case XorFn => x != y
  {
    hide Wrap, Unsigned, Bitwise, BitAt, Pow2;
    Widths();
    UnsignedWrap(ty, Bitwise(f, Unsigned(ty, a), Unsigned(ty, b), Bits(ty)));
    BitwiseAt(f, Unsigned(ty, a), Unsigned(ty, b), Bits(ty), i);
  }

  /** The bit operations work bit by bit, and the logical ones are they. */
  lemma {:induction false} BitByBit(a: Val, b: Val, i: nat)
    requires Pair(a, b) && i < Bits(a.ty)
    ensures var r := EvalBin(BitAnd, a, b); r.Some? && r.value.ty == a.ty && (BitOf(r.value, i) <==> BitOf(a, i) && BitOf(b, i))
    ensures var r := EvalBin(BitOr, a, b); r.Some? && r.value.ty == a.ty && (BitOf(r.value, i) <==> BitOf(a, i) || BitOf(b, i))
    ensures var r := EvalBin(BitXor, a, b); r.Some? && r.value.ty == a.ty && (BitOf(r.value, i) <==> BitOf(a, i) != BitOf(b, i))
    ensures a.ty == I1 ==> EvalBin(And, a, b) == EvalBin(BitAnd, a, b) && EvalBin(Or, a, b) == EvalBin(BitOr, a, b)
  {
    hide Wrap, Unsigned, Bitwise, BitAt;
    BitValAt(AndFn, a.ty, a.n, b.n, i);
    BitValAt(OrFn, a.ty, a.n, b.n, i);
    BitValAt(XorFn, a.ty, a.n, b.n, i);
  }

  /** `~` flips the 32 low bits and keeps the others; `!` turns a bool around. */
  lemma {:induction false} FlipBits(a: Val, i: nat)
    requires Proper(a) && i < Bits(a.ty)
    ensures var r := EvalUn(Flip, a); r.Some? && r.value.ty == a.ty && (BitOf(r.value, i) <==> BitOf(a, i) != (i < 32))
    ensures EvalUn(Not, a).Some? <==> a.ty == I1
    ensures a.ty == I1 ==> (IsTrue(EvalUn(Not, a)) <==> a.n == 0) && (IsFalse(EvalUn(Not, a)) <==> a.n != 0)
  {
    hide Wrap, Unsigned, Bitwise, BitAt;
    BitValAt(XorFn, a.ty, a.n, FlipMask(a.ty), i);
    MaskBits(a.ty, i);
    if a.ty == I1 {
      NotTurns(a.n);
    }
  }

  lemma {:induction false} MaskBits(ty: Ty, i: nat)
    requires i < Bits(ty)
    ensures BitAt(Unsigned(ty, FlipMask(ty)), i) <==> i < 32
  {
    hide Pow2;
    Powers();
    match ty {
      case I1 =>
      case I32 => OnesAt(32, i);
      case I64 => OnesAt(32, i);
    }
  }

  /** The bits of the number of `w` ones. */
  lemma {:induction false} OnesAt(w: nat, i: nat)
    ensures BitAt(Pow2(w) - 1, i) <==> i < w
    decreases i
  {
    if w == 0 {
      if i > 0 {
        OnesAt(0, i - 1);
      }
    } else {
      assert (Pow2(w) - 1) / 2 == Pow2(w - 1) - 1;
      if i > 0 {
        OnesAt(w - 1, i - 1);
      }
    }
  }

  lemma {:induction false} NotTurns(n: int)
    requires InRange(I1, n)
    ensures BitVal(XorFn, I1, n, 1) == if n == 0 then Val(I1, -1) else Val(I1, 0)
  {
    Operators.BitAt(XorFn, Unsigned(I1, n), Unsigned(I1, 1));
  }

  // ----- bools -----

  /** A true bool takes the first branch. */
  lemma {:induction false} BoolsChoose(b: bool, t: Expr, f: Expr, env: Env)
    ensures Eval(Trinary(BoolLit(b), t, f), env, false) == Eval(if b then t else f, env, false)
    ensures IsTrue(Some(BoolVal(true))) && IsFalse(Some(BoolVal(false)))
  {
  }
}
