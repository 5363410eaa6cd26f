/** The contract that the unit tests of the big integer arbitraries state: for each
    entry point, the predicate a generated value must satisfy (written with the same
    shifts and comparisons as the tests), and the checks run on every arbitrary: each
    generated value and each shrink candidate is valid, and each candidate is strictly
    smaller than the value it comes from. */
module BigIntArbitrarySpec {
  import opened Wrappers
  import opened Bits
  import opened Magnitude
  import opened Constraints
  import opened BigIntArbitrary

  /** `bigIntN(n)`: `g >= (-1 << (n - 1)) && g <= (1 << (n - 1)) - 1`. */
  function IsValidBigIntN(g: int, n: int): (b: bool)
    requires n >= 1
    ensures b <==> -(Pow2(n - 1) as int) <= g < Pow2(n - 1)
  {
    g >= ShiftLeft(-1, n - 1) && g <= ShiftLeft(1, n - 1) - 1
  }

  /** `bigUintN(n)`: `g >= 0 && g <= (1 << n) - 1`. */
  function IsValidBigUintN(g: int, n: int): (b: bool)
    requires n >= 1
    ensures b <==> 0 <= g < Pow2(n)
  {
    g >= 0 && g <= ShiftLeft(1, n) - 1
  }

  /** `bigInt({min})`: `min <= g`. */
  function IsValidBigIntMin(g: int, min: int): (b: bool)
    ensures b <==> Range(Some(min), None).Contains(g)
  {
    min <= g
  }

  /** `bigInt({max})`: `g <= max`. */
  function IsValidBigIntMax(g: int, max: int): (b: bool)
    ensures b <==> Range(None, Some(max)).Contains(g)
  {
    g <= max
  }

  /** `bigInt({min, max})`: `min <= g && g <= max`. */
  function IsValidBigIntMinMax(g: int, min: int, max: int): (b: bool)
    ensures b <==> Range(Some(min), Some(max)).Contains(g)
  {
    min <= g && g <= max
  }

  /** `bigUint()`: `g >= 0`. */
  function IsValidBigUint(g: int): (b: bool)
    ensures b <==> Range(Some(0), None).Contains(g)
  {
    g >= 0
  }

  /** `bigUint({max})`: `g >= 0 && g <= max`. */
  function IsValidBigUintMax(g: int, max: int): (b: bool)
    ensures b <==> Range(Some(0), Some(max)).Contains(g)
  {
    g >= 0 && g <= max
  }

  /** The checks run on any arbitrary `a` against the validity predicate `isValidValue`
      it is paired with, once `canGenerate` and `isValidValue` agree: the value generated
      from any random stream is valid, and every shrink candidate of a valid value is
      valid and strictly smaller than it. */
  lemma ValidArbitrary(a: Arbitrary, isValidValue: int -> bool, bits: seq<bool>, v: int)
    requires a.range.WellFormed()
    requires forall g :: a.CanGenerate(g) <==> isValidValue(g)
    ensures a.Generate(bits).Some? ==> isValidValue(a.Generate(bits).value.0)
    ensures isValidValue(v) ==>
              forall c :: c in a.Shrink(v) ==> isValidValue(c) && IsStrictlySmaller(c, v)
  {
  }

  /** `bigIntN(n)` for every width `n >= 1` generates exactly the values of
      `[-2^(n-1), 2^(n-1) - 1]`, the values the test accepts. */
  lemma {:induction false} BigIntNMatchesTest(n: int)
    requires n >= 1
    ensures Create(BigIntN(n)).Ok?
    ensures forall g :: Create(BigIntN(n)).value.CanGenerate(g) <==> IsValidBigIntN(g, n)
  {
  }

  /** `bigUintN(n)` for every width `n >= 1` generates exactly the values of `[0, 2^n - 1]`. */
  lemma {:induction false} BigUintNMatchesTest(n: int)
    requires n >= 1
    ensures Create(BigUintN(n)).Ok?
    ensures forall g :: Create(BigUintN(n)).value.CanGenerate(g) <==> IsValidBigUintN(g, n)
  {
  }

  /** Both bit-width ranges hold zero, so neither is empty. */
  lemma BitWidthRangesHoldZero(n: int)
    requires n >= 1
    ensures Create(BigIntN(n)).Ok? && Create(BigIntN(n)).value.CanGenerate(0)
    ensures Create(BigUintN(n)).Ok? && Create(BigUintN(n)).value.CanGenerate(0)
    ensures Create(BigIntN(n)).value.CanGenerate(-1)
  {
  }

  /** `bigInt()` (or `bigInt({})`) accepts every integer. */
  lemma BigIntUnconstrainedMatchesTest(g: int)
    ensures Create(BigInt(NoIntArgs)).Ok? && Create(BigInt(NoIntArgs)).value.CanGenerate(g)
    ensures Create(BigInt(IntConstraints(None, None))) == Create(BigInt(NoIntArgs))
  {
  }

  /** `bigInt({min})` accepts exactly the values at or above `min`, for every `min`. */
  lemma BigIntMinMatchesTest(min: int)
    ensures Create(BigInt(IntConstraints(Some(min), None))).Ok?
    ensures forall g :: Create(BigInt(IntConstraints(Some(min), None))).value.CanGenerate(g) <==> IsValidBigIntMin(g, min)
  {
  }

  /** `bigInt({max})` accepts exactly the values at or below `max`, for every `max`. */
  lemma BigIntMaxMatchesTest(max: int)
    ensures Create(BigInt(IntConstraints(None, Some(max)))).Ok?
    ensures forall g :: Create(BigInt(IntConstraints(None, Some(max)))).value.CanGenerate(g) <==> IsValidBigIntMax(g, max)
  {
  }

  /** `bigInt({min, max})` with `min <= max` accepts exactly the values of `[min, max]`. */
  lemma BigIntMinMaxMatchesTest(min: int, max: int)
    requires min <= max
    ensures Create(BigInt(IntConstraints(Some(min), Some(max)))).Ok?
    ensures forall g :: Create(BigInt(IntConstraints(Some(min), Some(max)))).value.CanGenerate(g) <==> IsValidBigIntMinMax(g, min, max)
  {
  }

  /** `bigUint()` accepts exactly the non-negative values. */
  lemma BigUintMatchesTest()
    ensures Create(BigUint(NoUintArgs)).Ok?
    ensures forall g :: Create(BigUint(NoUintArgs)).value.CanGenerate(g) <==> IsValidBigUint(g)
  {
  }

  /** `bigUint({max})` with `max >= 0` accepts exactly the values of `[0, max]`. */
  lemma BigUintMaxMatchesTest(max: int)
    requires max >= 0
    ensures Create(BigUint(UintConstraints(Some(max)))).Ok?
    ensures forall g :: Create(BigUint(UintConstraints(Some(max)))).value.CanGenerate(g) <==> IsValidBigUintMax(g, max)
  {
  }

  /** `bigIntN(n)` passes `isValidArbitrary` with the bit-width predicate, for every
      `n >= 1`: every value it generates is valid, and every shrink candidate of a valid
      value is valid and strictly smaller. */
  lemma BigIntNIsValidArbitrary(n: int, bits: seq<bool>, v: int)
    requires n >= 1
    ensures Create(BigIntN(n)).Ok?
    ensures var a := Create(BigIntN(n)).value;
              a.Generate(bits).Some? ==> IsValidBigIntN(a.Generate(bits).value.0, n)
    ensures IsValidBigIntN(v, n) ==>
              forall c :: c in Create(BigIntN(n)).value.Shrink(v) ==> IsValidBigIntN(c, n) && IsStrictlySmaller(c, v)
  {
    BigIntNMatchesTest(n);
  }

  /** `bigUintN(n)` passes `isValidArbitrary` with the unsigned bit-width predicate, for
      every `n >= 1`: every value it generates is valid, and every shrink candidate of a
      valid value is valid and strictly smaller. */
  lemma BigUintNIsValidArbitrary(n: int, bits: seq<bool>, v: int)
    requires n >= 1
    ensures Create(BigUintN(n)).Ok?
    ensures var a := Create(BigUintN(n)).value;
              a.Generate(bits).Some? ==> IsValidBigUintN(a.Generate(bits).value.0, n)
    ensures IsValidBigUintN(v, n) ==>
              forall c :: c in Create(BigUintN(n)).value.Shrink(v) ==> IsValidBigUintN(c, n) && IsStrictlySmaller(c, v)
  {
    BigUintNMatchesTest(n);
  }

  /** `bigInt()` passes `isValidArbitrary`, whose predicate accepts every integer: it
      always builds, every value it generates is one it can generate, and every shrink
      candidate is strictly smaller. */
  lemma BigIntIsValidArbitrary(bits: seq<bool>, v: int)
    ensures Create(BigInt(NoIntArgs)).Ok?
    ensures Create(BigInt(NoIntArgs)).value.Generate(bits).Some? ==> Create(BigInt(NoIntArgs)).value.CanGenerate(Create(BigInt(NoIntArgs)).value.Generate(bits).value.0)
    ensures forall c :: c in Create(BigInt(NoIntArgs)).value.Shrink(v) ==> IsStrictlySmaller(c, v)
  {
  }

  /** `bigInt({min})` passes `isValidArbitrary` with `min <= g`, for every `min`: every
      value it generates is valid, and every shrink candidate of a valid value is valid
      and strictly smaller. */
  lemma BigIntMinIsValidArbitrary(min: int, bits: seq<bool>, v: int)
    ensures Create(BigInt(IntConstraints(Some(min), None))).Ok?
    ensures var a := Create(BigInt(IntConstraints(Some(min), None))).value;
              a.Generate(bits).Some? ==> IsValidBigIntMin(a.Generate(bits).value.0, min)
    ensures IsValidBigIntMin(v, min) ==>
              forall c :: c in Create(BigInt(IntConstraints(Some(min), None))).value.Shrink(v) ==> IsValidBigIntMin(c, min) && IsStrictlySmaller(c, v)
  {
    BigIntMinMatchesTest(min);
  }

  /** `bigInt({max})` passes `isValidArbitrary` with `g <= max`, for every `max`: every
      value it generates is valid, and every shrink candidate of a valid value is valid
      and strictly smaller. */
  lemma BigIntMaxIsValidArbitrary(max: int, bits: seq<bool>, v: int)
    ensures Create(BigInt(IntConstraints(None, Some(max)))).Ok?
    ensures var a := Create(BigInt(IntConstraints(None, Some(max)))).value;
              a.Generate(bits).Some? ==> IsValidBigIntMax(a.Generate(bits).value.0, max)
    ensures IsValidBigIntMax(v, max) ==>
              forall c :: c in Create(BigInt(IntConstraints(None, Some(max)))).value.Shrink(v) ==> IsValidBigIntMax(c, max) && IsStrictlySmaller(c, v)
  {
    BigIntMaxMatchesTest(max);
  }

  /** `bigInt({min, max})` passes `isValidArbitrary` with `min <= g <= max`, for every
      `min <= max`: every value it generates is valid, and every shrink candidate of a
      valid value is valid and strictly smaller. */
  lemma BigIntMinMaxIsValidArbitrary(min: int, max: int, bits: seq<bool>, v: int)
    requires min <= max
    ensures Create(BigInt(IntConstraints(Some(min), Some(max)))).Ok?
    ensures var a := Create(BigInt(IntConstraints(Some(min), Some(max)))).value;
              a.Generate(bits).Some? ==> IsValidBigIntMinMax(a.Generate(bits).value.0, min, max)
    ensures IsValidBigIntMinMax(v, min, max) ==>
              forall c :: c in Create(BigInt(IntConstraints(Some(min), Some(max)))).value.Shrink(v) ==> IsValidBigIntMinMax(c, min, max) && IsStrictlySmaller(c, v)
  {
    BigIntMinMaxMatchesTest(min, max);
  }

  /** `bigUint()` passes `isValidArbitrary` with `g >= 0`: every value it generates is
      valid, and every shrink candidate of a valid value is valid and strictly smaller. */
  lemma BigUintIsValidArbitrary(bits: seq<bool>, v: int)
    ensures Create(BigUint(NoUintArgs)).Ok?
    ensures var a := Create(BigUint(NoUintArgs)).value;
              a.Generate(bits).Some? ==> IsValidBigUint(a.Generate(bits).value.0)
    ensures IsValidBigUint(v) ==>
              forall c :: c in Create(BigUint(NoUintArgs)).value.Shrink(v) ==> IsValidBigUint(c) && IsStrictlySmaller(c, v)
  {
    BigUintMatchesTest();
  }

  /** `bigUint({max})` passes `isValidArbitrary` with `0 <= g <= max`, for every `max >=
      0`: every value it generates is valid, and every shrink candidate of a valid value
      is valid and strictly smaller. */
  lemma BigUintMaxIsValidArbitrary(max: int, bits: seq<bool>, v: int)
    requires max >= 0
    ensures Create(BigUint(UintConstraints(Some(max)))).Ok?
    ensures var a := Create(BigUint(UintConstraints(Some(max)))).value;
              a.Generate(bits).Some? ==> IsValidBigUintMax(a.Generate(bits).value.0, max)
    ensures IsValidBigUintMax(v, max) ==>
              forall c :: c in Create(BigUint(UintConstraints(Some(max)))).value.Shrink(v) ==> IsValidBigUintMax(c, max) && IsStrictlySmaller(c, v)
  {
    BigUintMaxMatchesTest(max);
  }
}
