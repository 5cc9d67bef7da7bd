/** The IEEE 754 binary32 reading of a 32-bit pattern, as far as the
    threshold comparisons of the touch state machine need it.  Thresholds
    are stored as their bit patterns (that is what the settings blob holds);
    the measured quantities they are compared with are exact reals here. */
module Binary32 {

  /** What a binary32 pattern denotes: a finite number (signed zero folds
      into 0.0), an infinity, or not-a-number. */
  datatype Value = Number(r: real) | Infinity(negative: bool) | NaN

  /** 2 to the power k. */
  function Pow2(k: nat): (p: nat)
    ensures p >= 1
    decreases k
  {
    if k == 0 then 1 else 2 * Pow2(k - 1)
  }

  /** The sign bit, the 8-bit biased exponent and the 23-bit fraction. */
  function SignBit(bits: bv32): bool
  {
    bits as int >= 0x8000_0000
  }

  function Exponent(bits: bv32): nat
  {
    (bits as int / 0x80_0000) % 0x100
  }

  function Fraction(bits: bv32): nat
  {
    bits as int % 0x80_0000
  }

  /** The magnitude of a finite pattern: a subnormal fraction times 2^-149,
      or the fraction with its hidden bit times 2^(exponent - 150). */
  function Magnitude(e: nat, f: nat): (m: real)
    requires e < 0xFF
    ensures m >= 0.0
  {
    if e == 0 then
      f as real / Pow2(149) as real
    else if e < 150 then
      (0x80_0000 + f) as real / Pow2(150 - e) as real
    else
      ((0x80_0000 + f) * Pow2(e - 150)) as real
  }

  /** Decoding of a pattern: exponent 255 is an infinity (zero fraction) or
      NaN (non-zero fraction); every other exponent is a finite number. */
  function Decode(bits: bv32): (v: Value)
    ensures v.NaN? <==> Exponent(bits) == 0xFF && Fraction(bits) != 0
    ensures v.Infinity? ==> v.negative == SignBit(bits)
  {
    var e := Exponent(bits);
    var f := Fraction(bits);
    if e == 0xFF then
      (if f == 0 then Infinity(SignBit(bits)) else NaN)
    else
      var m := Magnitude(e, f);
      Number(if SignBit(bits) then -m else m)
  }

  /** The C comparison x >= t for a finite x and a binary32 threshold t:
      false against NaN, true against minus infinity only. */
  function AtLeast(x: real, t: bv32): bool
  {
    match Decode(t)
    case Number(v) => x >= v
    case Infinity(negative) => negative
    case NaN => false
  }

  /** The C comparison x <= t for a finite x and a binary32 threshold t. */
  function AtMost(x: real, t: bv32): bool
  {
    match Decode(t)
    case Number(v) => x <= v
    case Infinity(negative) => !negative
    case NaN => false
  }

  /** A finite threshold compares as the real it denotes, in both
      directions; a NaN threshold makes both comparisons false. */
  lemma ComparisonsAgreeWithValue(x: real, t: bv32)
    ensures Decode(t).Number? ==> (AtLeast(x, t) <==> x >= Decode(t).r)
    ensures Decode(t).Number? ==> (AtMost(x, t) <==> x <= Decode(t).r)
    ensures Decode(t).NaN? ==> !AtLeast(x, t) && !AtMost(x, t)
    ensures AtLeast(x, t) || AtMost(x, t) || Decode(t).NaN?
  {
  }

  /** An erased cell pattern 0xFFFFFFFF is NaN. */
  lemma ErasedPatternIsNaN()
    ensures Decode(0xFFFF_FFFF) == NaN
  {
    assert (0xFFFF_FFFF as bv32) as int == 0xFFFF_FFFF;
    assert Exponent(0xFFFF_FFFF) == 0xFF && Fraction(0xFFFF_FFFF) == 0x7F_FFFF;
  }

  /** The powers of two the default thresholds need. */
  lemma Pow2Small()
    ensures Pow2(16) == 0x1_0000 && Pow2(17) == 0x2_0000 && Pow2(18) == 0x4_0000
  {
    assert Pow2(4) == 16;
    assert Pow2(8) == 256;
    assert Pow2(12) == 0x1000;
  }

  /** The default thresholds 50.0, 40.0, 150.0 and 120.0 as binary32
      patterns. */
  const Fifty: bv32 := 0x4248_0000
  const Forty: bv32 := 0x4220_0000
  const HundredFifty: bv32 := 0x4316_0000
  const HundredTwenty: bv32 := 0x42F0_0000

  lemma DefaultThresholdValues()
    ensures Decode(Fifty) == Number(50.0)
    ensures Decode(Forty) == Number(40.0)
    ensures Decode(HundredFifty) == Number(150.0)
    ensures Decode(HundredTwenty) == Number(120.0)
  {
    Pow2Small();
    FiftyValue();
    FortyValue();
    HundredFiftyValue();
    HundredTwentyValue();
  }

  /** 0x42480000 has exponent 132 and fraction 0x480000: 1.5625 * 2^5. */
  lemma FiftyValue()
    requires Pow2(18) == 0x4_0000
    ensures Decode(Fifty) == Number(50.0)
  {
    assert Exponent(Fifty) == 132 && Fraction(Fifty) == 0x48_0000;
  }

  /** 0x42200000: 1.25 * 2^5. */
  lemma FortyValue()
    requires Pow2(18) == 0x4_0000
    ensures Decode(Forty) == Number(40.0)
  {
    assert Exponent(Forty) == 132 && Fraction(Forty) == 0x20_0000;
  }

  /** 0x43160000: 1.171875 * 2^7. */
  lemma HundredFiftyValue()
    requires Pow2(16) == 0x1_0000
    ensures Decode(HundredFifty) == Number(150.0)
  {
    assert Exponent(HundredFifty) == 134 && Fraction(HundredFifty) == 0x16_0000;
  }

  /** 0x42F00000: 1.875 * 2^6. */
  lemma HundredTwentyValue()
    requires Pow2(17) == 0x2_0000
    ensures Decode(HundredTwenty) == Number(120.0)
  {
    assert Exponent(HundredTwenty) == 133 && Fraction(HundredTwenty) == 0x70_0000;
  }
}
