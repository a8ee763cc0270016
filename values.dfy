/**
 * The number type of the language, `NUMBER_DT`, which is
 * `std::variant<short, int, long, float, double>`, and the C++ arithmetic the
 * interpreter applies to it.
 *
 * Integer widths follow the Windows (LLP64) data model the driver is written
 * for: `short` has 16 bits, `int` and `long` 32 bits.  Signed overflow is
 * taken to wrap in two's complement.  Floating-point values are kept as
 * symbolic terms: the model records which operations produced them but does
 * not round.
 */
module Values {
  import opened Outcomes
  import opened Tokens

  /** A floating-point value as the expression that produced it. */
  datatype FloatTerm =
    | FLit(text: string)                                // `stof`/`stod` of a literal
    | FInt(v: int)                                      // an integer converted to floating point
    | FNeg(a: FloatTerm)
    | FArith(op: TokenKind, a: FloatTerm, b: FloatTerm)

  /** One alternative of `NUMBER_DT`. */
  datatype Number =
    | Short(v: int)
    | Int(v: int)
    | Long(v: int)
    | Float(f: FloatTerm)
    | Double(f: FloatTerm)
  {
    predicate IsIntegral() {
      Short? || Int? || Long?
    }
  }

  datatype NumKind = KShort | KInt | KLong | KFloat | KDouble
  {
    predicate IsIntegral() {
      this != KFloat && this != KDouble
    }
  }

  function KindOf(n: Number): NumKind {
    match n
    case Short(_) => KShort
    case Int(_) => KInt
    case Long(_) => KLong
    case Float(_) => KFloat
    case Double(_) => KDouble
  }

  /** Half the size of the value range of a 16- or 32-bit signed integer. */
  function HalfRange(k: NumKind): (h: int)
    requires k.IsIntegral()
    ensures h > 0
  {
    if k == KShort then 0x8000 else 0x8000_0000
  }

  predicate InRange(k: NumKind, x: int)
    requires k.IsIntegral()
  {
    -HalfRange(k) <= x < HalfRange(k)
  }

  /** Every stored integer lies in the range of its width. */
  predicate WellFormed(n: Number) {
    match n
    case Short(v) => InRange(KShort, v)
    case Int(v) => InRange(KInt, v)
    case Long(v) => InRange(KLong, v)
    case _ => true
  }

  /** Two's-complement truncation of `x` to the width of `k`. */
  function Wrap(k: NumKind, x: int): (r: int)
    requires k.IsIntegral()
    ensures InRange(k, r)
    ensures (x - r) % (2 * HalfRange(k)) == 0
    ensures InRange(k, x) ==> r == x
  {
    var h := HalfRange(k);
    (x + h) % (2 * h) - h
  }

  /**
   * The type of `a op b` under the usual arithmetic conversions: `short` is
   * promoted to `int`, and the operand of lower rank is converted to the
   * other's type.
   */
  function CommonKind(a: NumKind, b: NumKind): (k: NumKind)
    ensures k != KShort
    ensures (a == KDouble || b == KDouble) <==> k == KDouble
    ensures k.IsIntegral() <==> a.IsIntegral() && b.IsIntegral()
  {
    if a == KDouble || b == KDouble then KDouble
    else if a == KFloat || b == KFloat then KFloat
    else if a == KLong || b == KLong then KLong
    else KInt
  }

  /** The value of an operand after conversion to floating point. */
  function ToTerm(n: Number): FloatTerm {
    match n
    case Short(v) => FInt(v)
    case Int(v) => FInt(v)
    case Long(v) => FInt(v)
    case Float(f) => f
    case Double(f) => f
  }

  /** C++ integer division, which truncates toward zero. */
  function TruncDiv(a: int, b: int): (q: int)
    requires b != 0
    ensures a >= 0 && b > 0 ==> q == a / b
    ensures (a >= 0) == (b > 0) ==> q >= 0
  {
    if a >= 0 && b > 0 then a / b
    else if a < 0 && b < 0 then (-a) / (-b)
    else if a < 0 then -((-a) / b)
    else -(a / (-b))
  }

  /** Truncation is symmetric under a change of sign of either operand. */
  lemma TruncDivSigns(a: int, b: int)
    requires b != 0
    ensures TruncDiv(-a, b) == -TruncDiv(a, b)
    ensures TruncDiv(a, -b) == -TruncDiv(a, b)
  {
    if a == 0 {
      assert 0 / b == 0 && 0 / (-b) == 0;
    }
  }

  /** The mathematical result of an integer arithmetic operator. */
  function Exact(op: TokenKind, x: int, y: int): int
    requires op in {Plus, Minus, Star, Slash}
    requires op == Slash ==> y != 0
  {
    if op == Plus then x + y
    else if op == Minus then x - y
    else if op == Star then x * y
    else TruncDiv(x, y)
  }

  function MakeIntegral(k: NumKind, v: int): Number
    requires k.IsIntegral()
  {
    match k
    case KShort => Short(v)
    case KInt => Int(v)
    case KLong => Long(v)
  }

  /**
   * `(T1)l op (T2)r` for `+ - * /`, converted back into `NUMBER_DT`.  Integer
   * division by zero, and the one quotient that overflows, trap on the
   * target and end the process.
   */
  function Arith(op: TokenKind, a: Number, b: Number): (r: Res<Number>)
    requires op in {Plus, Minus, Star, Slash}
    ensures r.Ok? ==> KindOf(r.value) == CommonKind(KindOf(a), KindOf(b))
    ensures r.Fail? ==> op == Slash && a.IsIntegral() && b.IsIntegral()
    ensures r.Ok? && r.value.IsIntegral() ==>
      WellFormed(r.value) && (op == Slash ==> b.v != 0) && (Exact(op, a.v, b.v) - r.value.v) % (2 * HalfRange(KindOf(r.value))) == 0
  {
    var k := CommonKind(KindOf(a), KindOf(b));
    if k == KFloat then Ok(Float(FArith(op, ToTerm(a), ToTerm(b))))
    else if k == KDouble then Ok(Double(FArith(op, ToTerm(a), ToTerm(b))))
    else IntegralArith(k, op, a.v, b.v)
  }

  /** The integer case of `Arith`, once both operands are converted to `k`. */
  function IntegralArith(k: NumKind, op: TokenKind, x: int, y: int): (r: Res<Number>)
    requires k == KInt || k == KLong
    requires op in {Plus, Minus, Star, Slash}
    ensures r.Ok? ==> KindOf(r.value) == k && WellFormed(r.value)
    ensures r.Ok? ==> (op == Slash ==> y != 0) && (Exact(op, x, y) - r.value.v) % (2 * HalfRange(k)) == 0
    ensures r.Fail? <==> op == Slash && (y == 0 || (x == -HalfRange(k) && y == -1))
  {
    if op == Slash && y == 0 then Fail(Crash("integer division by zero"))
    else if op == Slash && x == -HalfRange(k) && y == -1 then Fail(Crash("integer division overflow"))
    else Ok(MakeIntegral(k, Wrap(k, Exact(op, x, y))))
  }

  /**
   * `(bool)((T1)l == (T2)r)` (or `!=`) stored into `NUMBER_DT`: the `bool`
   * selects the `int` alternative, so equality yields the number 1 or 0.
   */
  function Equality(op: TokenKind, a: Number, b: Number): (r: Res<Number>)
    requires op in {EqualEqual, BangEqual}
    ensures r.Ok? <==> a.IsIntegral() && b.IsIntegral()
    ensures r.Ok? ==> r.value == Int(if (a.v == b.v) == (op == EqualEqual) then 1 else 0)
  {
    if a.IsIntegral() && b.IsIntegral() then
      Ok(Int(if (a.v == b.v) == (op == EqualEqual) then 1 else 0))
    else
      Fail(Unmodelled("floating-point comparison"))
  }

  /** `-(T)x` converted back into `NUMBER_DT`; a `short` is promoted to `int` first. */
  function Negate(n: Number): (r: Number)
    ensures n.IsIntegral() <==> r.IsIntegral()
    ensures n.IsIntegral() ==> KindOf(r) == CommonKind(KindOf(n), KindOf(n))
    ensures n.IsIntegral() && WellFormed(n) ==> WellFormed(r) && (r.v + n.v) % 0x1_0000_0000 == 0
  {
    match n
    case Short(v) => Int(-v)
    case Int(v) => WrapNegation(KInt, v); Int(Wrap(KInt, -v))
    case Long(v) => WrapNegation(KLong, v); Long(Wrap(KLong, -v))
    case Float(f) => Float(FNeg(f))
    case Double(f) => Double(FNeg(f))
  }

  /** The wrapped negation of `v` adds up with `v` to a multiple of 2^32. */
  lemma WrapNegation(k: NumKind, v: int)
    requires k == KInt || k == KLong
    ensures (Wrap(k, -v) + v) % 0x1_0000_0000 == 0
  {
    var h := HalfRange(k);
    var x := -v + h;
    assert Wrap(k, -v) == x % 0x1_0000_0000 - h;
    assert x == (x / 0x1_0000_0000) * 0x1_0000_0000 + x % 0x1_0000_0000;
    assert Wrap(k, -v) + v == -(x / 0x1_0000_0000) * 0x1_0000_0000;
  }

  /** The only value in the range of `k` that is congruent to `x` is `x` itself. */
  lemma WrapOfCongruent(k: NumKind, x: int, y: int)
    requires k == KInt || k == KLong
    requires InRange(k, x) && (y - x) % 0x1_0000_0000 == 0
    ensures Wrap(k, y) == x
  {
    var w := Wrap(k, y);
    assert (w - x) % 0x1_0000_0000 == 0 by {
      assert (y - w) % 0x1_0000_0000 == 0;
      assert (w - x) == (y - x) - (y - w);
    }
    assert -0x1_0000_0000 < w - x < 0x1_0000_0000;
  }

  /**
   * Negating twice gives back a well-formed integer, wrap-around included;
   * a `short` comes back as an `int`, since negation promotes it.
   */
  lemma NegateTwice(n: Number)
    requires n.IsIntegral() && WellFormed(n)
    ensures Negate(Negate(n)) == if n.Short? then Int(n.v) else n
  {
    match n
    case Short(v) =>
      WrapOfCongruent(KInt, v, v);
    case Int(v) =>
      WrapNegation(KInt, v);
      WrapOfCongruent(KInt, v, -Wrap(KInt, -v));
    case Long(v) =>
      WrapNegation(KLong, v);
      WrapOfCongruent(KLong, v, -Wrap(KLong, -v));
  }

  /** An operation that stays in range gives the exact result. */
  lemma ArithExactWhenInRange(op: TokenKind, a: Number, b: Number)
    requires op in {Plus, Minus, Star, Slash}
    requires a.IsIntegral() && b.IsIntegral()
    requires op == Slash ==> b.v != 0
    requires InRange(CommonKind(KindOf(a), KindOf(b)), Exact(op, a.v, b.v))
    ensures Arith(op, a, b) == Ok(MakeIntegral(CommonKind(KindOf(a), KindOf(b)), Exact(op, a.v, b.v)))
  {
  }

  /** The common type does not depend on the order of the operands. */
  lemma CommonKindSymmetric(a: NumKind, b: NumKind)
    ensures CommonKind(a, b) == CommonKind(b, a)
  {
  }

  /** `+` and `*` are commutative on every pair of numbers, mixed widths included. */
  lemma ArithCommutes(op: TokenKind, a: Number, b: Number)
    requires op in {Plus, Star}
    requires a.IsIntegral() && b.IsIntegral()
    ensures Arith(op, a, b) == Arith(op, b, a)
  {
    CommonKindSymmetric(KindOf(a), KindOf(b));
    var k := CommonKind(KindOf(a), KindOf(b));
    assert Exact(op, a.v, b.v) == Exact(op, b.v, a.v);
    assert IntegralArith(k, op, a.v, b.v) == IntegralArith(k, op, b.v, a.v);
  }

  /** Mixing widths never fails for `+ - *`: the narrower operand is converted. */
  lemma MixedWidthsCombine(op: TokenKind, a: Number, b: Number)
    requires op in {Plus, Minus, Star}
    ensures Arith(op, a, b).Ok?
    ensures a.Short? && b.Short? ==> Arith(op, a, b).value.Int?
    ensures a.IsIntegral() && b.Long? ==> Arith(op, a, b).value.Long?
  {
  }

  // ---------------------------------------------------------------------
  // Decimal text: what `stoi`/`stol` read and what `operator<<` writes.

  predicate IsDigit(c: char) {
    '0' <= c <= '9'
  }

  function DigitValue(c: char): nat
    requires IsDigit(c)
  {
    (c as int) - ('0' as int)
  }

  /** Length of the run of decimal digits at the start of `s`. */
  function DigitRun(s: string): (n: nat)
    ensures n <= |s|
    ensures forall i :: 0 <= i < n ==> IsDigit(s[i])
    ensures n < |s| ==> !IsDigit(s[n])
  {
    if |s| == 0 || !IsDigit(s[0]) then 0 else 1 + DigitRun(s[1..])
  }

  /** The value of a string of decimal digits. */
  function DecimalValue(s: string): nat
    requires forall i :: 0 <= i < |s| ==> IsDigit(s[i])
  {
    if |s| == 0 then 0 else 10 * DecimalValue(s[..|s| - 1]) + DigitValue(s[|s| - 1])
  }

  /** The decimal digits of a natural number, without leading zeros. */
  function NatToDecimal(n: nat): (s: string)
    ensures |s| > 0
    ensures forall i :: 0 <= i < |s| ==> IsDigit(s[i])
  {
    var d := ['0' + ((n % 10) as char)];
    if n < 10 then d else NatToDecimal(n / 10) + d
  }

  /** How `operator<<` writes an integer: an optional minus sign and the digits. */
  function IntToDecimal(v: int): string {
    if v < 0 then "-" + NatToDecimal(-v) else NatToDecimal(v)
  }

  /** Reading back the digits written for `n` gives `n`. */
  lemma {:induction false} DecimalRoundTrip(n: nat)
    ensures DecimalValue(NatToDecimal(n)) == n
  {
    var d := ['0' + ((n % 10) as char)];
    if n >= 10 {
      DecimalRoundTrip(n / 10);
      var s := NatToDecimal(n / 10) + d;
      assert s[..|s| - 1] == NatToDecimal(n / 10);
    }
  }

  /**
   * `stoi` (and `stol`, `long` having 32 bits here) of a number token's
   * text: the leading digits are read; with none, `std::invalid_argument`
   * is thrown, and a value past the 32-bit range throws `std::out_of_range`.
   */
  function StoInt(text: string): (r: Res<int>)
    ensures r.Ok? ==> InRange(KInt, r.value)
    ensures DigitRun(text) == 0 ==> r == Fail(InvalidArgument("stoi"))
    ensures DigitRun(text) > 0 ==> (r.Ok? <==> DecimalValue(text[..DigitRun(text)]) < HalfRange(KInt))
    ensures r.Ok? ==> r.value == DecimalValue(text[..DigitRun(text)])
  {
    if DigitRun(text) == 0 then Fail(InvalidArgument("stoi"))
    else
      var v := DecimalValue(text[..DigitRun(text)]);
      if v < HalfRange(KInt) then Ok(v) else Fail(Crash("stoi: out of range"))
  }

  /** `stoi` reads back what `operator<<` wrote for every non-negative `int`. */
  lemma StoIntReadsPrinted(n: nat)
    requires n < HalfRange(KInt)
    ensures DigitRun(IntToDecimal(n)) == |IntToDecimal(n)|
    ensures StoInt(IntToDecimal(n)) == Ok(n)
  {
    var s := NatToDecimal(n);
    DigitRunOfDigits(s);
    assert s[..|s|] == s;
    DecimalRoundTrip(n);
  }

  lemma {:induction false} DigitRunOfDigits(s: string)
    requires forall i :: 0 <= i < |s| ==> IsDigit(s[i])
    ensures DigitRun(s) == |s|
  {
    if |s| > 0 {
      DigitRunOfDigits(s[1..]);
    }
  }

  // ---------------------------------------------------------------------
  // `stof` and `stod` of a number token's text.

  /** `10` to the power `n`. */
  function Pow10(n: nat): (r: nat)
    ensures r >= 1
  {
    if n == 0 then 1 else 10 * Pow10(n - 1)
  }

  /** The number of `'0'` characters at the start of `s`. */
  function ZeroRun(s: string): (n: nat)
    ensures n <= |s|
    ensures forall i :: 0 <= i < n ==> s[i] == '0'
    ensures n < |s| ==> s[n] != '0'
  {
    if |s| == 0 || s[0] != '0' then 0 else 1 + ZeroRun(s[1..])
  }

  /** The text of a number token as the lexer builds it: digits, then optionally a dot and digits. */
  predicate DecimalLiteral(text: string) {
    var n := DigitRun(text);
    n > 0 && (n == |text| || (text[n] == '.' && DigitRun(text[n + 1..]) == |text| - n - 1))
  }

  /** The digits before the dot. */
  function IntegerPart(text: string): string {
    text[..DigitRun(text)]
  }

  /** The digits after the dot, none when there is no dot. */
  function FractionPart(text: string): string {
    if DigitRun(text) < |text| then text[DigitRun(text) + 1..] else ""
  }

  /** The number of digits of the integer part that are not leading zeros. */
  function SignificantDigits(text: string): nat {
    |IntegerPart(text)| - ZeroRun(IntegerPart(text))
  }

  /**
   * Bounds on the integer part that decide the range of `float` and
   * `double` for sure.  FLT_MAX is about 3.40282347e38, and a value below
   * about 3.40282357e38 still rounds to it; DBL_MAX is about
   * 1.79769313e308, with the same margin.  So an integer part below
   * `FitBelow` (3.4e38, 1.7e308) is in range, and one from `OverflowFrom`
   * (3.5e38, 1.8e308) on is past it.  A fraction with at most
   * `FractionZeros` leading zeros before a non-zero digit is at least
   * `10^-(FractionZeros + 1)`, above FLT_MIN (about 1.2e-38) and DBL_MIN
   * (about 2.2e-308).
   */
  /** The power of ten the bounds are counted in: `10^37` for `float`, `10^307` for `double`. */
  function BoundExponent(k: NumKind): nat
    requires !k.IsIntegral()
  {
    if k == KFloat then 37 else 307
  }

  function FitBelow(k: NumKind): nat
    requires !k.IsIntegral()
  {
    var p := Pow10(BoundExponent(k));
    if k == KFloat then 34 * p else 17 * p
  }

  function OverflowFrom(k: NumKind): nat
    requires !k.IsIntegral()
  {
    var p := Pow10(BoundExponent(k));
    if k == KFloat then 35 * p else 18 * p
  }

  function FractionZeros(k: NumKind): nat
    requires !k.IsIntegral()
  {
    if k == KFloat then 36 else 306
  }

  /** A decimal literal whose value is surely zero or a normal value of the kind. */
  predicate SurelyInRange(k: NumKind, text: string)
    requires !k.IsIntegral() && DecimalLiteral(text)
  {
    var v, f := DecimalValue(IntegerPart(text)), FractionPart(text);
    v < FitBelow(k) && (v > 0 || ZeroRun(f) == |f| || ZeroRun(f) <= FractionZeros(k))
  }

  /** A decimal literal whose value surely lies past the largest finite value of the kind. */
  predicate SurelyTooLarge(k: NumKind, text: string)
    requires !k.IsIntegral() && DecimalLiteral(text)
  {
    DecimalValue(IntegerPart(text)) >= OverflowFrom(k)
  }

  /**
   * `stof` (for `KFloat`) or `stod` (for `KDouble`) of a number token's
   * text.  The value itself stays symbolic.  A value past the range throws
   * `std::out_of_range`, which nothing catches.  Where the bounds do not
   * decide the range (just around the largest value, or a value too small
   * to be normal) the outcome depends on rounding and is `Unmodelled`, as
   * is text the lexer never produces.
   */
  function StoFloat(k: NumKind, text: string): (r: Res<FloatTerm>)
    requires !k.IsIntegral()
    ensures r.Ok? ==> r.value == FLit(text)
    ensures r.Fail? ==> r.abrupt.Crash? || r.abrupt.Unmodelled?
  {
    if !DecimalLiteral(text) then Fail(Unmodelled("stof/stod of text that is not a decimal literal"))
    else if SurelyTooLarge(k, text) then Fail(Crash("stof/stod: out of range"))
    else if SurelyInRange(k, text) then Ok(FLit(text))
    else Fail(Unmodelled("stof/stod at the limits of the floating range"))
  }

  /**
   * The digit counts `StoFloat` implies: an integer part of at most 38
   * (`float`) or 308 (`double`) significant digits, with no tiny fraction,
   * converts; one of at least 40 or 310 digits throws `std::out_of_range`;
   * a conversion that succeeds had at most 39 or 309 digits.
   */
  lemma StoFloatDigits(k: NumKind, text: string)
    requires !k.IsIntegral() && DecimalLiteral(text)
    ensures var d := SignificantDigits(text);
      var fits := BoundExponent(k) + 1;
      (d <= fits && ZeroRun(FractionPart(text)) <= FractionZeros(k) ==> StoFloat(k, text).Ok?) &&
      (d >= fits + 2 ==> StoFloat(k, text) == Fail(Crash("stof/stod: out of range"))) &&
      (StoFloat(k, text).Ok? ==> d <= fits + 1)
  {
    var d := SignificantDigits(text);
    var v := DecimalValue(IntegerPart(text));
    var p := Pow10(BoundExponent(k));
    DecimalMagnitude(IntegerPart(text));
    DigitsAgainstBounds(BoundExponent(k), v, d);
    assert 17 * p <= FitBelow(k) && OverflowFrom(k) <= 100 * p;
    if d <= BoundExponent(k) + 1 {
      assert !SurelyTooLarge(k, text);
      if ZeroRun(FractionPart(text)) <= FractionZeros(k) {
        assert SurelyInRange(k, text);
      }
    }
  }

  /** A value of `d` significant digits against the bounds `17 * 10^e` and `18 * 10^e`. */
  lemma DigitsAgainstBounds(e: nat, v: nat, d: nat)
    requires v < Pow10(d) && (d > 0 ==> Pow10(d - 1) <= v)
    ensures d <= e + 1 ==> v < 10 * Pow10(e)
    ensures d >= e + 3 ==> v >= 100 * Pow10(e)
  {
    assert Pow10(e + 1) == 10 * Pow10(e);
    assert Pow10(e + 2) == 100 * Pow10(e);
    if d <= e + 1 {
      Pow10Monotone(d, e + 1);
    }
    if d >= e + 3 {
      Pow10Monotone(e + 2, d - 1);
    }
  }

  /** A `float` literal of 4e38 lies past FLT_MAX: `stof` throws. */
  lemma FloatLiteralTooLarge(text: string)
    requires DecimalLiteral(text) && DecimalValue(IntegerPart(text)) == 4 * Pow10(38)
    ensures StoFloat(KFloat, text) == Fail(Crash("stof/stod: out of range"))
  {
    assert Pow10(38) == 10 * Pow10(37);
  }

  lemma {:induction false} Pow10Monotone(a: nat, b: nat)
    requires a <= b
    ensures Pow10(a) <= Pow10(b)
    decreases b
  {
    if a < b {
      Pow10Monotone(a, b - 1);
    }
  }

  /** A string of digits with `z` leading zeros and `d` more digits lies in `[10^(d-1), 10^d)`. */
  lemma {:induction false} DecimalMagnitude(s: string)
    requires forall i :: 0 <= i < |s| ==> IsDigit(s[i])
    ensures DecimalValue(s) < Pow10(|s| - ZeroRun(s))
    ensures ZeroRun(s) < |s| ==> Pow10(|s| - ZeroRun(s) - 1) <= DecimalValue(s)
    decreases |s|
  {
    if |s| > 0 {
      var t := s[1..];
      var p := Pow10(|t|);
      var d := DigitValue(s[0]);
      assert s[..1] + t == s;
      assert s[..1][..0] == [];
      assert DecimalValue(s[..1]) == d;
      DecimalSplit(s[..1], t);
      assert DecimalValue(s) == d * p + DecimalValue(t);
      DecimalBelow(t);
      if s[0] == '0' {
        assert d == 0 && DecimalValue(s) == DecimalValue(t);
        assert ZeroRun(s) == 1 + ZeroRun(t);
        DecimalMagnitude(t);
      } else {
        assert ZeroRun(s) == 0;
        assert Pow10(|s|) == 10 * p;
        LeadingDigitBounds(d, p, DecimalValue(t));
      }
    }
  }

  /** A leading digit `d` from 1 to 9 before a value below `p`. */
  lemma LeadingDigitBounds(d: nat, p: nat, rest: nat)
    requires 1 <= d <= 9 && rest < p
    ensures p <= d * p + rest < 10 * p
  {
  }

  /** The value of `a + b` is `a` shifted by the length of `b`, plus `b`. */
  lemma {:induction false} DecimalSplit(a: string, b: string)
    requires forall i :: 0 <= i < |a| ==> IsDigit(a[i])
    requires forall i :: 0 <= i < |b| ==> IsDigit(b[i])
    ensures DecimalValue(a + b) == DecimalValue(a) * Pow10(|b|) + DecimalValue(b)
    decreases |b|
  {
    if |b| > 0 {
      var c := a + b;
      var front := b[..|b| - 1];
      var last := DigitValue(b[|b| - 1]);
      assert c[..|c| - 1] == a + front;
      assert c[|c| - 1] == b[|b| - 1];
      DecimalSplit(a, front);
      var va, q, vf := DecimalValue(a), Pow10(|front|), DecimalValue(front);
      assert DecimalValue(c) == 10 * DecimalValue(a + front) + last;
      assert DecimalValue(b) == 10 * vf + last;
      assert Pow10(|b|) == 10 * q;
      ShiftDigit(va, q, vf, last);
    } else {
      assert a + b == a;
    }
  }

  /** Appending a digit to `a + front` appends it to `front`. */
  lemma ShiftDigit(va: nat, q: nat, vf: nat, last: nat)
    ensures 10 * (va * q + vf) + last == va * (10 * q) + (10 * vf + last)
  {
    assert 10 * (va * q) == va * (10 * q);
  }

  /** `n` digits never reach `10^n`. */
  lemma {:induction false} DecimalBelow(s: string)
    requires forall i :: 0 <= i < |s| ==> IsDigit(s[i])
    ensures DecimalValue(s) < Pow10(|s|)
    decreases |s|
  {
    if |s| > 0 {
      DecimalBelow(s[..|s| - 1]);
    }
  }
}
