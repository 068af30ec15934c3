/** The meaning of a 4-byte `float` bit pattern, as far as the alert
    comparisons in the message handlers need it: the IEEE-754 binary32
    value the bits encode, and what `x > c` and `x < c` give for it.
    The C++ compares a `float` with a `double` literal; promoting a float to
    double is exact, so comparing the exact real value with the limit is the
    same test. A NaN compares false with everything. */
module Float32 {
  import opened Bytes

  /** The raw bits of a `float`, sign bit most significant. */
  type Bits = Uint32

  /** What a bit pattern denotes. A finite value is a real number; for zero
      the sign is not kept, since -0.0 and +0.0 compare equal. */
  datatype FloatValue = Finite(value: real) | Infinity(negative: bool) | NaN

  const PositiveInfinity: Bits := 0x7F80_0000
  const NegativeInfinity: Bits := 0xFF80_0000
  /** Bit pattern of the `float` 100.0f */
  const Hundred: Bits := 0x42C8_0000

  function Pow2(n: nat): (p: nat)
    ensures p >= 1
  {
    if n == 0 then 1 else 2 * Pow2(n - 1)
  }

  predicate SignSet(b: Bits) {
    b as int >= 0x8000_0000
  }

  /** The bits without the sign bit. */
  function Magnitude(b: Bits): nat {
    b as int % 0x8000_0000
  }

  /** The 8-bit biased exponent field. */
  function Exponent(b: Bits): nat {
    Magnitude(b) / 0x80_0000
  }

  /** The 23-bit fraction field. */
  function Fraction(b: Bits): nat {
    Magnitude(b) % 0x80_0000
  }

  /** For a finite pattern, the absolute value is Scaled(b) * 2^-149:
      a subnormal is fraction * 2^-149, a normal number is
      (2^23 + fraction) * 2^(exponent - 150). */
  function Scaled(b: Bits): nat {
    if Exponent(b) == 0 then Fraction(b)
    else (0x80_0000 + Fraction(b)) * Pow2(Exponent(b) - 1)
  }

  /** The IEEE-754 binary32 value of a bit pattern. */
  function Value(b: Bits): (v: FloatValue)
    ensures v.Finite? <==> Magnitude(b) < PositiveInfinity as int
    ensures v.Infinity? <==> Magnitude(b) == PositiveInfinity as int
    ensures v.Infinity? ==> (v.negative <==> SignSet(b))
  {
    if Exponent(b) == 0xFF then
      if Fraction(b) == 0 then Infinity(SignSet(b)) else NaN
    else
      var m := Quotient(Scaled(b));
      Finite(if SignSet(b) then -m else m)
  }

  /** 2^149: a finite value is a multiple of 2^-149, the smallest subnormal. */
  const Denominator: nat := 0x20_0000_0000_0000_0000_0000_0000_0000_0000_0000

  /** s * 2^-149 */
  function Quotient(s: nat): real {
    s as real / Denominator as real
  }

  /** The C++ comparison `x > limit` for the float with bits `b`. */
  predicate GreaterThan(b: Bits, limit: real) {
    match Value(b)
    case Finite(x) => x > limit
    case Infinity(negative) => !negative
    case NaN => false
  }

  /** The C++ comparison `x < limit` for the float with bits `b`. */
  predicate LessThan(b: Bits, limit: real) {
    match Value(b)
    case Finite(x) => x < limit
    case Infinity(negative) => negative
    case NaN => false
  }

  lemma {:induction false} Pow2Monotone(i: nat, j: nat)
    requires i <= j
    ensures Pow2(i) <= Pow2(j)
  {
    if i < j {
      Pow2Monotone(i, j - 1);
    }
  }

  lemma {:induction false} Pow2Add(i: nat, j: nat)
    ensures Pow2(i + j) == Pow2(i) * Pow2(j)
  {
    if j > 0 {
      Pow2Add(i, j - 1);
      assert Pow2(i + j) == 2 * Pow2(i + j - 1);
    }
  }

  /** A finite pattern with exponent field e lies in [2^23 * 2^(e-1), 2^23 * 2^e)
      on the Scaled scale (the lower end only for normal numbers). */
  lemma ScaledBounds(b: Bits)
    requires Magnitude(b) < PositiveInfinity as int
    ensures Scaled(b) < 0x80_0000 * Pow2(Exponent(b))
    ensures Exponent(b) >= 1 ==> 0x80_0000 * Pow2(Exponent(b) - 1) <= Scaled(b)
  {
    var e := Exponent(b);
    if e >= 1 {
      var p := Pow2(e - 1);
      assert Pow2(e) == 2 * p;
      calc {
        Scaled(b);
        (0x80_0000 + Fraction(b)) * p;
      <  { assert Fraction(b) < 0x80_0000; MultiplyStrict(0x80_0000 + Fraction(b), 0x100_0000, p); }
        0x100_0000 * p;
        0x80_0000 * Pow2(e);
      }
      MultiplyMonotone(0x80_0000, 0x80_0000 + Fraction(b), p);
    }
  }

  lemma MultiplyStrict(x: nat, y: nat, p: nat)
    requires x < y && p >= 1
    ensures x * p < y * p
  {
    assert y * p == x * p + (y - x) * p;
  }

  lemma MultiplyMonotone(x: nat, y: nat, p: nat)
    requires x <= y
    ensures x * p <= y * p
  {
    assert y * p == x * p + (y - x) * p;
  }

  /** Among finite patterns, a larger magnitude field means a strictly larger
      absolute value: the map from magnitude field to absolute value is
      increasing. */
  lemma ScaledIncreasing(a: Bits, b: Bits)
    requires Magnitude(a) < Magnitude(b) < PositiveInfinity as int
    ensures Scaled(a) < Scaled(b)
  {
    var ea, eb := Exponent(a), Exponent(b);
    if ea == eb {
      assert Fraction(a) < Fraction(b);
      if ea >= 1 {
        MultiplyStrict(0x80_0000 + Fraction(a), 0x80_0000 + Fraction(b), Pow2(ea - 1));
      }
    } else {
      assert ea < eb;
      ScaledBounds(a);
      ScaledBounds(b);
      Pow2Monotone(ea, eb - 1);
      MultiplyMonotone(Pow2(ea), Pow2(eb - 1), 0x80_0000);
    }
  }

  lemma QuotientOrder(s: nat, t: nat)
    ensures Quotient(s) < Quotient(t) <==> s < t
  {
  }

  /** Only the patterns of +0.0 and -0.0 denote zero; every other finite
      pattern is nonzero and has the sign its sign bit says. */
  lemma FiniteSign(b: Bits)
    requires Magnitude(b) < PositiveInfinity as int
    ensures Value(b).value == 0.0 <==> Magnitude(b) == 0
    ensures Value(b).value < 0.0 <==> SignSet(b) && Magnitude(b) != 0
    ensures Value(b).value > 0.0 <==> !SignSet(b) && Magnitude(b) != 0
  {
    if Magnitude(b) != 0 {
      ScaledIncreasing(0, b);
      QuotientOrder(0, Scaled(b));
    }
  }

  /** A pattern below 0x80000000 has its sign bit clear and is its own
      magnitude; below +infinity it is a finite non-negative value. */
  lemma NonNegativePattern(b: Bits)
    requires b as int < 0x8000_0000
    ensures !SignSet(b) && Magnitude(b) == b as int
    ensures b as int < PositiveInfinity as int ==> Value(b) == Finite(Quotient(Scaled(b)))
  {
  }

  /** On the non-negative finite patterns, the order of the bits is the order
      of the values. */
  lemma NonNegativeOrder(a: Bits, b: Bits)
    requires a as int < PositiveInfinity as int && b as int < PositiveInfinity as int
    ensures Value(a).value < Value(b).value <==> a as int < b as int
  {
    NonNegativePattern(a);
    NonNegativePattern(b);
    if a as int < b as int {
      ScaledIncreasing(a, b);
    } else if b as int < a as int {
      ScaledIncreasing(b, a);
    }
    QuotientOrder(Scaled(a), Scaled(b));
  }

  /** `x > c`, where c is a non-negative finite float, holds exactly for the
      patterns above c's up to and including +infinity: it is false for
      c itself, for every negative value, -0.0 and every NaN. */
  lemma GreaterThanIff(b: Bits, limit: Bits)
    requires limit as int < PositiveInfinity as int
    ensures GreaterThan(b, Value(limit).value) <==> limit as int < b as int <= PositiveInfinity as int
  {
    NonNegativePattern(limit);
    FiniteSign(limit);
    if b as int < 0x8000_0000 {
      NonNegativePattern(b);
      if b as int < PositiveInfinity as int {
        NonNegativeOrder(limit, b);
      }
    } else if Magnitude(b) < PositiveInfinity as int {
      FiniteSign(b);
      assert Value(b).value <= 0.0 <= Value(limit).value;
    }
  }

  /** `x < 0.0` holds exactly for the negative patterns other than -0.0 and
      the NaNs, -infinity included. */
  lemma LessThanZeroIff(b: Bits)
    ensures LessThan(b, 0.0) <==> 0x8000_0000 < b as int <= NegativeInfinity as int
  {
    if Magnitude(b) < PositiveInfinity as int {
      FiniteSign(b);
    }
  }

  lemma Pow2Of16()
    ensures Pow2(4) == 0x10 && Pow2(16) == 0x1_0000
  {
    assert Pow2(2) == 4;
    Pow2Add(2, 2);
    Pow2Add(4, 4);
    Pow2Add(8, 8);
  }

  lemma Pow2Of64()
    ensures Pow2(64) == 0x1_0000_0000_0000_0000
  {
    Pow2Of16();
    Pow2Add(16, 16);
    Pow2Add(32, 32);
  }

  lemma Pow2Of132()
    ensures Pow2(132) == 0x10_0000_0000_0000_0000_0000_0000_0000_0000
  {
    Pow2Of16();
    Pow2Of64();
    Pow2Add(64, 64);
    Pow2Add(128, 4);
  }

  /** 100.0 = 1.5625 * 2^6: exponent field 133, fraction 0x480000. */
  lemma HundredFields()
    ensures Exponent(Hundred) == 133 && Fraction(Hundred) == 0x48_0000
  {
  }

  lemma HundredScaled()
    ensures Scaled(Hundred) == 100 * Denominator
  {
    HundredFields();
    Pow2Of132();
  }

  /** 0x42C80000 is the pattern of 100.0. */
  lemma HundredValue()
    ensures Value(Hundred) == Finite(100.0)
  {
    HundredScaled();
  }

  /** `x > 100.0` holds exactly for the patterns strictly between 100.0f
      and +infinity, +infinity included. */
  lemma GreaterThanHundredIff(b: Bits)
    ensures GreaterThan(b, 100.0) <==> Hundred as int < b as int <= PositiveInfinity as int
  {
    HundredValue();
    GreaterThanIff(b, Hundred);
  }
}
