/** The values of integer literals: the conversion loops, what they compute and
    how a number is written so that it is read back. */
module Literals {
  import opened Ast
  import opened Scalar
  import opened Lexing
  import opened Rendering
  import opened Tokens
  import opened Lowering

  /** The value of a hexadecimal digit, 0 for any other character. */
  function DigitOf(c: char): (d: nat)
    ensures d < 16
  {
    if '0' <= c <= '9' then c as int - '0' as int
    else if 'A' <= c <= 'F' then c as int - 'A' as int + 10
    else if 'a' <= c <= 'f' then c as int - 'a' as int + 10
    else 0
  }

  /** The hexadecimal digits, listed; letters of either case count the same. */
  lemma {:induction false} HexDigits(i: nat)
    ensures i < 10 ==> DigitOf("0123456789"[i]) == i
    ensures i < 6 ==> DigitOf("abcdef"[i]) == DigitOf("ABCDEF"[i]) == 10 + i
  {
  }

  /** What one character adds in the binary and in the hexadecimal loop. */
  function Bit(hex: bool, c: char): int {
    if hex then DigitOf(c) else c as int - 48
  }

  function Width(hex: bool): nat {
    if hex then 4 else 1
  }

  /** The digits behind a `0b` or `0x`; another first digit counts as a digit. */
  function Digits(hex: bool, v: string): string {
    if At(v) == '0' && (if hex then At(Drop(v, 1)) in "xX" else At(Drop(v, 1)) in "bB") then Drop(v, 2) else v
  }

  /** One character's bits at its place, in the 32 low bits. */
  function Shifted(hex: bool, c: char, place: nat): (r: nat)
    ensures r < 0x1_0000_0000
  {
    Bit(hex, c) * Pow2(Width(hex) * place) % 0x1_0000_0000
  }

  /** The loop from a state on: it ors each remaining character in. */
  function OrAll(hex: bool, v: string, acc: nat): nat {
    if v == "" then acc
    else OrAll(hex, v[1..], Bitwise(OrFn, acc, Shifted(hex, v[0], |v| - 1), 32))
  }

  /** More than 32 binary or 8 hexadecimal digits count as 0. */
  function BasedValue(hex: bool, v: string): (n: int)
    ensures InRange(I32, n)
  {
    var d := Digits(hex, v);
    if |d| * Width(hex) > 32 then 0 else Wrap(I32, OrAll(hex, d, 0))
  }

  /** The value of digits in a base. */
  function Positional(base: nat, v: string): nat {
    if v == "" then 0 else Positional(base, v[..|v| - 1]) * base + DigitOf(v[|v| - 1])
  }

  /** A decimal that does not fit is read as the largest value. */
  function DecimalValue(v: string): (n: int)
    ensures InRange(I32, n)
  {
    var n := Positional(10, v[..Run(Digit, v)]);
    if n > 0x7FFF_FFFF then 0x7FFF_FFFF else n
  }

  function IntValue(t: Token): (n: int)
    ensures InRange(I32, n)
  {
    match t.kind
    case TIntB => BasedValue(false, t.value)
    case TIntX => BasedValue(true, t.value)
    case _ => DecimalValue(t.value)
  }

  /** Where the digits start. */
  method PrefixLength(hex: bool, str: string) returns (pos: nat)
    ensures pos <= |str| && str[pos..] == Digits(hex, str)
  {
    pos := 0;
    if |str| > 1 && str[0] == '0' && (if hex then str[1] in "xX" else str[1] in "bB") {
      pos := 2;
    }
    assert |str| > 1 ==> Drop(str, 2) == str[2..] && Drop(str, 1)[0] == str[1];
    assert str[0..] == str;
  }

  /** The loops of `binstrToValue` and `hexstrToValue` for 32-bit results. */
  method StringToValue(hex: bool, str: string) returns (n: int)
    ensures n == BasedValue(hex, str)
  {
    hide Bitwise, Wrap, DigitOf, Digits;
    var len := |str|;
    var pos := PrefixLength(hex, str);
    if (len - pos) * Width(hex) > 32 {
      return 0;
    }
    var result := 0;
    ghost var d := str[pos..];
    while pos < len
      invariant pos <= len && result >= 0
      invariant OrAll(hex, d, 0) == OrAll(hex, str[pos..], result)
    {
      result := Bitwise(OrFn, result, Shifted(hex, str[pos], len - pos - 1), 32);
      assert str[pos..][1..] == str[pos + 1..];
      pos := pos + 1;
    }
    n := Wrap(I32, result);
  }

  lemma {:induction false} RunWhole(v: string)
    requires AllIn(Digit, v)
    ensures v[..Run(Digit, v)] == v
  {
    RunAll(Digit, v, "");
    assert v + "" == v;
  }

  /** A decimal literal has its value if and only if that fits 32 signed bits,
      and else the largest that does; based literals with too many digits are 0. */
  lemma {:induction false} LongLiterals(v: string, w: string, hex: bool)
    requires AllIn(Digit, v)
    ensures DecimalValue(v) == Positional(10, v) <==> Positional(10, v) < 2147483648
    ensures Positional(10, v) >= 2147483648 ==> DecimalValue(v) == 2147483647
    ensures |Digits(hex, w)| > (if hex then 8 else 32) ==> BasedValue(hex, w) == 0
  {
    RunWhole(v);
  }

  // ----- oring disjoint bits is adding -----

  lemma {:induction false} OrNothing(b: nat, w: nat)
    requires b < Pow2(w)
    ensures Bitwise(OrFn, 0, b, w) == b
  {
    if w != 0 {
      OrNothing(b / 2, w - 1);
    }
  }

  /** `a` has no bit below `m` and `b` none from `m` on. */
  lemma {:induction false} OrDisjoint(a: nat, m: nat, b: nat, w: nat)
    requires b < Pow2(m) && a * Pow2(m) + b < Pow2(w)
    ensures Bitwise(OrFn, a * Pow2(m), b, w) == a * Pow2(m) + b
  {
    if m == 0 {
      assert a * Pow2(0) == a;
      OrZero(a, w);
    } else if w != 0 {
      var h := a * Pow2(m - 1);
      assert a * Pow2(m) == 2 * h by { assert Pow2(m) == 2 * Pow2(m - 1); }
      OrDisjoint(a, m - 1, b / 2, w - 1);
    } else {
      assert a * Pow2(m) == 0 && b == 0;
    }
  }

  lemma {:induction false} OrZero(a: nat, w: nat)
    requires a < Pow2(w)
    ensures Bitwise(OrFn, a, 0, w) == a
  {
    if w != 0 {
      OrZero(a / 2, w - 1);
    }
  }

  // ----- the loops compute the positional value -----

  function Base(hex: bool): nat {
    if hex then 16 else 2
  }

  lemma {:induction false} Pow2Add(a: nat, b: nat)
    ensures Pow2(a + b) == Pow2(a) * Pow2(b)
  {
    if a != 0 {
      Pow2Add(a - 1, b);
      assert 2 * (Pow2(a - 1) * Pow2(b)) == 2 * Pow2(a - 1) * Pow2(b);
    }
  }

  /** The weight of a digit with `n` digits behind it. */
  function Weight(hex: bool, n: nat): nat {
    Pow2(Width(hex) * n)
  }

  lemma {:induction false} WeightNext(hex: bool, n: nat)
    ensures Weight(hex, n + 1) == Weight(hex, n) * Base(hex)
  {
    assert Width(hex) * (n + 1) == Width(hex) * n + Width(hex);
    Pow2Add(Width(hex) * n, Width(hex));
    assert Pow2(1) == 2;
    assert Pow2(4) == 16 by { assert Pow2(3) == 8; }
  }

  lemma {:induction false} FrontDigit(hex: bool, v: string)
    requires v != ""
    ensures Positional(Base(hex), v) == DigitOf(v[0]) * Weight(hex, |v| - 1) + Positional(Base(hex), v[1..])
  {
    hide DigitOf;
    var n := |v|;
    if n == 1 {
      assert v[..0] == "" && v[1..] == "" && Weight(hex, 0) == 1;
    } else {
      var u := v[..n - 1];
      FrontDigit(hex, u);
      assert v[1..][..n - 2] == u[1..];
      WeightNext(hex, n - 2);
      Distribute(DigitOf(v[0]), Weight(hex, n - 2), Positional(Base(hex), u[1..]), Base(hex));
    }
  }

  lemma {:induction false} Distribute(d: nat, w: nat, p: nat, b: nat)
    ensures (d * w + p) * b == d * (w * b) + p * b
  {
  }

  function DigitClass(hex: bool): Class {
    if hex then Class.Hex else Class.Binary
  }

  predicate IsDigits(hex: bool, v: string) {
    AllIn(DigitClass(hex), v)
  }

  lemma {:induction false} DigitBelow(hex: bool, c: char)
    requires Is(DigitClass(hex), c)
    ensures DigitOf(c) < Base(hex) && Bit(hex, c) == DigitOf(c)
  {
  }

  /** Oring in the digits behind `acc` adds their positional value. */
  lemma {:induction false} OrAllAdds(hex: bool, v: string, acc: nat)
    requires IsDigits(hex, v) && (acc + 1) * Weight(hex, |v|) <= 0x1_0000_0000
    ensures OrAll(hex, v, acc * Weight(hex, |v|)) == acc * Weight(hex, |v|) + Positional(Base(hex), v)
  {
    hide DigitOf, Weight, Bitwise, Is;
    if v != "" {
      var n := |v| - 1;
      var d, w, b := DigitOf(v[0]), Weight(hex, n), Base(hex);
      DigitBelow(hex, v[0]);
      WeightNext(hex, n);
      OrDigit(hex, v[0], n, acc);
      NextBound(acc, d, w, b);
      OrAllAdds(hex, v[1..], acc * b + d);
      FrontDigit(hex, v);
    }
  }

  lemma {:induction false} NextBound(acc: nat, d: nat, w: nat, b: nat)
    requires d < b && (acc + 1) * (w * b) <= 0x1_0000_0000
    ensures (acc * b + d + 1) * w <= 0x1_0000_0000
    ensures (acc * b + d) * w == acc * (w * b) + d * w
  {
    assert (acc * b + d + 1) * w <= (acc * b + b) * w == (acc + 1) * (w * b);
  }

  /** One step of the loop. */
  lemma {:induction false} OrDigit(hex: bool, c: char, n: nat, acc: nat)
    requires Is(DigitClass(hex), c) && (acc + 1) * Weight(hex, n + 1) <= 0x1_0000_0000
    ensures Bitwise(OrFn, acc * Weight(hex, n + 1), Shifted(hex, c, n), 32) ==
            acc * Weight(hex, n + 1) + DigitOf(c) * Weight(hex, n)
  {
    hide DigitOf, Bitwise, Is;
    var d, w, b := DigitOf(c), Weight(hex, n), Base(hex);
    DigitBelow(hex, c);
    WeightNext(hex, n);
    DigitFits(acc, d, w, b);
    Pow32();
    OrDisjoint(acc, Width(hex) * (n + 1), d * w, 32);
  }

  lemma {:induction false} DigitFits(acc: nat, d: nat, w: nat, b: nat)
    requires d < b && w >= 1 && (acc + 1) * (w * b) <= 0x1_0000_0000
    ensures d * w < w * b && acc * (w * b) + d * w < 0x1_0000_0000 && d * w % 0x1_0000_0000 == d * w
  {
    assert d * w < b * w;
    assert acc * (w * b) + w * b == (acc + 1) * (w * b);
  }

  lemma {:induction false} Pow32()
    ensures Pow2(32) == 0x1_0000_0000
  {
    assert Pow2(8) == 256;
    Pow2Add(8, 8);
    Pow2Add(16, 16);
  }

  /** A binary literal of at most 32 digits and a hexadecimal one of at most 8
      has its positional value, read as a signed 32-bit number. */
  lemma {:induction false} BasedPositional(hex: bool, v: string)
    requires IsDigits(hex, Digits(hex, v)) && |Digits(hex, v)| * Width(hex) <= 32
    ensures BasedValue(hex, v) == Wrap(I32, Positional(Base(hex), Digits(hex, v)))
  {
    hide DigitOf, Is, Bitwise, Wrap, Digits;
    var d := Digits(hex, v);
    Pow32();
    Pow2Monotone(Width(hex) * |d|, 32);
    OrAllAdds(hex, d, 0);
  }

  lemma {:induction false} Pow2Monotone(a: nat, b: nat)
    requires a <= b
    ensures Pow2(a) <= Pow2(b)
  {
    if a < b {
      Pow2Monotone(a, b - 1);
    }
  }

  // ----- a first digit other than 0 -----

  lemma {:induction false} OrGrows(a: nat, b: nat, w: nat)
    requires a < Pow2(w) && b < Pow2(w)
    ensures Bitwise(OrFn, a, b, w) >= a && Bitwise(OrFn, a, b, w) >= b
  {
    if w != 0 {
      OrGrows(a / 2, b / 2, w - 1);
    }
  }

  lemma {:induction false} OrAllGrows(hex: bool, v: string, acc: nat)
    requires acc < 0x1_0000_0000
    ensures acc <= OrAll(hex, v, acc) < 0x1_0000_0000
  {
    hide Bitwise, Shifted;
    if v != "" {
      Pow32();
      OrGrows(acc, Shifted(hex, v[0], |v| - 1), 32);
      OrAllGrows(hex, v[1..], Bitwise(OrFn, acc, Shifted(hex, v[0], |v| - 1), 32));
    }
  }

  /** Digits are worth less than the place in front of them. */
  lemma {:induction false} PositionalBelow(hex: bool, v: string)
    requires IsDigits(hex, v)
    ensures Positional(Base(hex), v) < Weight(hex, |v|)
  {
    hide Is, DigitOf;
    if v != "" {
      var u := v[..|v| - 1];
      PositionalBelow(hex, u);
      DigitBelow(hex, v[|v| - 1]);
      WeightNext(hex, |u|);
      assert (Positional(Base(hex), u) + 1) * Base(hex) <= Weight(hex, |u|) * Base(hex);
    }
  }

  lemma {:induction false} ModScale(k: nat, p: nat, q: nat)
    requires p > 0 && q > 0
    ensures p * q > 0 && k * p % (p * q) == p * (k % q)
  {
    var d, r := k / q, k % q;
    assert k == d * q + r;
    assert k * p == d * (p * q) + p * r;
    assert p * r < p * q;
    ModUnique(k * p, d, p * r, p * q);
  }

  lemma {:induction false} ModUnique(x: nat, d: nat, r: nat, m: nat)
    requires m > 0 && r < m && x == d * m + r
    ensures x % m == r
  {
    var e := x / m - d;
    assert e * m == r - x % m;
    assert e > 0 ==> e * m >= m;
    assert e < 0 ==> e * m <= -1 * m;
  }

  /** Cut to 32 bits, a number that is no multiple of what is cut off keeps a bit
      at or above the place. */
  lemma {:induction false} CutKeeps(k: nat, p: nat, q: nat)
    requires p > 0 && q > 0 && p * q == 0x1_0000_0000 && k % q > 0
    ensures k * p % 0x1_0000_0000 >= p
  {
    ModScale(k, p, q);
    assert p * (k % q) >= p;
  }

  /** The digit in front of a hexadecimal literal's letter leaves a bit above the
      place of the digits' weight. */
  lemma {:induction false} HexHeavy(d: char, n: nat)
    requires '1' <= d <= '9' && n + 2 <= 8
    ensures Shifted(true, d, n + 1) >= Weight(true, n)
  {
    assert 1 <= Bit(true, d) <= 9;
    Pow32();
    HexPlaces(n + 1);
    ShiftedIs(true, d, n + 1);
    hide Pow2, Weight, Shifted, Bit, DigitOf;
    CutSmall(Bit(true, d), Weight(true, n + 1), Pow2(32 - 4 * (n + 1)));
  }

  lemma {:induction false} CutSmall(k: nat, p: nat, q: nat)
    requires p > 0 && p * q == 0x1_0000_0000 && 0 < k < q
    ensures k * p % 0x1_0000_0000 >= p
  {
    assert k % q == k;
    CutKeeps(k, p, q);
  }

  lemma {:induction false} ShiftedIs(hex: bool, c: char, n: nat)
    ensures Shifted(hex, c, n) == Bit(hex, c) * Weight(hex, n) % 0x1_0000_0000
  {
    hide Pow2;
  }

  lemma {:induction false} HexPlaces(n: nat)
    requires 1 <= n <= 7
    ensures Weight(true, n) * Pow2(32 - 4 * n) == Pow2(32) && Pow2(32 - 4 * n) >= 16
    ensures Weight(true, n) >= Weight(true, n - 1)
  {
    Pow2Add(4 * n, 32 - 4 * n);
    Pow2Monotone(4, 32 - 4 * n);
    Pow2Monotone(4 * (n - 1), 4 * n);
    assert Pow2(4) == 16 by { assert Pow2(3) == 8; }
  }

  /** The letter of a binary literal leaves a bit at or above that place. */
  lemma {:induction false} BinaryHeavy(x: char, n: nat)
    requires (x == 'b' || x == 'B') && n + 2 <= 32
    ensures Shifted(false, x, n) >= Weight(false, n)
  {
    Pow32();
    Pow2Add(n, 32 - n);
    Pow2Add(2, 30 - n);
    PowFour();
    assert Weight(false, n) == Pow2(n);
    hide Pow2, Weight;
    var q := Pow2(32 - n);
    NotMultiple(Bit(false, x), q, Pow2(30 - n));
    CutKeeps(Bit(false, x), Weight(false, n), q);
    ShiftedIs(false, x, n);
  }

  lemma {:induction false} PowFour()
    ensures Pow2(2) == 4
  {
  }

  lemma {:induction false} NotMultiple(k: nat, q: nat, r: nat)
    requires q == 4 * r && r > 0 && k % 4 == 2
    ensures k % q > 0
  {
    assert k == (k / q) * q + k % q;
    assert (k / q) * q == 4 * ((k / q) * r);
    assert k % 4 == k % q % 4;
  }

  /** The value of a scanned literal is that of the digits behind its prefix
      exactly when the prefix begins with 0. */
  lemma {:induction false} BasedExact(hex: bool, v: string)
    requires Valid(Token(if hex then TIntX else TIntB, v)) && |Digits(hex, v)| * Width(hex) <= 32
    ensures BasedValue(hex, v) == Wrap(I32, Positional(Base(hex), v[2..])) <==> v[0] == '0'
  {
    hide DigitOf, Bitwise, Wrap, Positional, OrAll, Shifted, Name, Named, Spelling;
    var w := v[2..];
    assert Drop(v, 2) == w && Drop(v, 1)[0] == v[1];
    if v[0] == '0' {
      BasedPositional(hex, v);
    } else {
      assert Digits(hex, v) == v;
      if hex {
        HexHeavy(v[0], |w|);
      } else {
        BinaryHeavy(v[1], |w|);
      }
      HeadStays(hex, v);
      PositionalBelow(hex, w);
      OrAllGrows(hex, v, 0);
      WrapDiffers(OrAll(hex, v, 0), Positional(Base(hex), w));
    }
  }

  /** The two characters of the prefix are ored in first and stay. */
  lemma {:induction false} HeadStays(hex: bool, v: string)
    requires |v| >= 2
    ensures OrAll(hex, v, 0) >= Shifted(hex, v[0], |v| - 1) && OrAll(hex, v, 0) >= Shifted(hex, v[1], |v| - 2)
  {
    hide Bitwise, Shifted;
    Pow32();
    var a, b := Shifted(hex, v[0], |v| - 1), Shifted(hex, v[1], |v| - 2);
    OrNothing(a, 32);
    OrGrows(a, b, 32);
    var acc := Bitwise(OrFn, a, b, 32);
    assert v[1..][1..] == v[2..];
    assert OrAll(hex, v, 0) == OrAll(hex, v[2..], acc);
    OrAllGrows(hex, v[2..], acc);
  }

  lemma {:induction false} WrapDiffers(a: nat, b: nat)
    requires b < a < 0x1_0000_0000
    ensures Wrap(I32, a) != Wrap(I32, b)
  {
  }

  // ----- writing numbers -----

  function DigitChar(d: nat): (c: char)
    requires d < 16
    ensures Is(Hex, c) && DigitOf(c) == d && (d < 10 ==> Is(Digit, c))
  {
    if d < 10 then '0' + d as char else 'a' + (d - 10) as char
  }

  function Decimal(n: nat): (v: string)
    ensures v != "" && AllIn(Digit, v)
  {
    if n < 10 then [DigitChar(n)] else Decimal(n / 10) + [DigitChar(n % 10)]
  }

  lemma {:induction false} DecimalPositional(n: nat)
    ensures Positional(10, Decimal(n)) == n
  {
    hide DigitChar;
    var v := Decimal(n);
    if n < 10 {
      assert v[..0] == "";
    } else {
      DecimalPositional(n / 10);
      assert v[..|v| - 1] == Decimal(n / 10);
    }
  }

  /** The `w` low hexadecimal digits. */
  function Hexadecimal(n: nat, w: nat): (v: string)
    ensures |v| == w && AllIn(Hex, v)
    decreases w
  {
    if w == 0 then "" else Hexadecimal(n / 16, w - 1) + [DigitChar(n % 16)]
  }

  lemma {:induction false} HexadecimalPositional(n: nat, w: nat)
    requires n < Weight(true, w)
    ensures Positional(16, Hexadecimal(n, w)) == n
    decreases w
  {
    hide DigitChar;
    if w != 0 {
      var v := Hexadecimal(n, w);
      WeightNext(true, w - 1);
      HexadecimalPositional(n / 16, w - 1);
      assert v[..|v| - 1] == Hexadecimal(n / 16, w - 1);
    }
  }

  /** The token that a number is written as: decimal, or the eight digits of its
      two's complement when it is negative. */
  function IntToken(n: int): Token
    requires InRange(I32, n)
  {
    if n >= 0 then Token(TIntD, Decimal(n))
    else Token(TIntX, "0x" + Hexadecimal(n + 0x1_0000_0000, 8))
  }

  lemma {:induction false} DecimalRoundTrip(n: nat)
    requires n <= 0x7FFF_FFFF
    ensures DecimalValue(Decimal(n)) == n
  {
    var v := Decimal(n);
    DecimalPositional(n);
    RunAll(Digit, v, "");
    assert v + "" == v && v[..|v|] == v;
  }

  lemma {:induction false} HexRoundTrip(n: int)
    requires -0x8000_0000 <= n < 0
    ensures BasedValue(true, "0x" + Hexadecimal(n + 0x1_0000_0000, 8)) == n
  {
    hide Hexadecimal, Positional, OrAll, BasedValue;
    var d := Hexadecimal(n + 0x1_0000_0000, 8);
    var v := "0x" + d;
    assert Drop(v, 2) == d && Drop(v, 1)[0] == 'x';
    assert Weight(true, 8) == 0x1_0000_0000 by { Pow32(); }
    HexadecimalPositional(n + 0x1_0000_0000, 8);
    BasedPositional(true, v);
  }

  lemma {:induction false} HexTokenValid(d: string)
    requires AllIn(Hex, d)
    ensures Valid(Token(TIntX, "0x" + d))
  {
    hide Is, Name, Named, Spelling;
    var v := "0x" + d;
    assert v[2..] == d && v[0] == '0' && v[1] == 'x';
    assert Is(Digit, '0') by { IsZero(); }
  }

  lemma {:induction false} IsZero()
    ensures Is(Digit, '0')
  {
  }

  lemma {:induction false} DecimalTokenValid(v: string)
    requires v != "" && AllIn(Digit, v)
    ensures Valid(Token(TIntD, v))
  {
    hide Is, Name, Named, Spelling;
  }

  lemma {:induction false} NonnegativeRoundTrip(n: nat)
    requires n <= 0x7FFF_FFFF
    ensures Valid(IntToken(n)) && IntValue(IntToken(n)) == n
  {
    hide DecimalValue, BasedValue, Valid, Positional;
    DecimalRoundTrip(n);
    DecimalTokenValid(Decimal(n));
  }

  lemma {:induction false} NegativeRoundTrip(n: int)
    requires -0x8000_0000 <= n < 0
    ensures Valid(IntToken(n)) && IntValue(IntToken(n)) == n
  {
    hide DecimalValue, BasedValue, Valid, Positional;
    HexRoundTrip(n);
    HexTokenValid(Hexadecimal(n + 0x1_0000_0000, 8));
  }

  /** Every 32-bit number is written as a token that the scanner accepts and that
      is read back as the number. */
  lemma {:induction false} IntRoundTrip(n: int)
    requires InRange(I32, n)
    ensures Valid(IntToken(n)) && IntValue(IntToken(n)) == n
  {
    hide IntToken, IntValue, Valid;
    if n >= 0 {
      NonnegativeRoundTrip(n);
    } else {
      NegativeRoundTrip(n);
    }
  }

  // ----- the constant that a literal becomes -----

  /** The width chosen for a constant keeps its signed value except where the
      number needs the 32nd bit for its magnitude. */
  lemma {:induction false} WidthKeepsValue(n: int)
    requires InRange(I64, n)
    ensures LiteralVal(n).n == n <==> !(0x8000_0000 <= n <= 0xFFFF_FFFF)
    ensures LiteralVal(n).ty == I32 <==> 0 <= n <= 0xFFFF_FFFF
  {
  }

  /** No literal reaches that exception: the constant has the literal's value,
      but a negative one is 64 bits wide. */
  lemma {:induction false} LiteralConstant(t: Token)
    ensures LiteralVal(IntValue(t)).n == IntValue(t)
    ensures LiteralVal(IntValue(t)).ty == if IntValue(t) >= 0 then I32 else I64
  {
    WidthKeepsValue(IntValue(t));
  }
}
