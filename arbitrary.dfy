/** The arbitrary built by each entry point: it fixes the canonical range once, then
    generates values from an explicit random bit stream, shrinks values toward zero
    within that range, and decides which values it can generate. */
module BigIntArbitrary {
  import opened Wrappers
  import opened Bits
  import opened Magnitude
  import opened Constraints
  import Sampler
  import Shrinker

  /** Bounds used for sampling on a side the range leaves open: the signed 256-bit range
      `[-2^255, 2^255 - 1]`, widened to the bound given on the other side when that bound
      lies beyond it. */
  const DefaultMin: int := -(Pow2(255) as int)
  const DefaultMax: int := Pow2(255) - 1

  datatype Arbitrary = Arbitrary(range: Range) {

    /** `canGenerate(v)`: `v` lies in the canonical range. That every such value is
        really generated is `BoundedRangeFullyCovered`. */
    function CanGenerate(v: int): (b: bool)
      ensures range.min.Some? && range.max.Some? ==> (b <==> range.min.value <= v <= range.max.value)
    {
      range.Contains(v)
    }

    /** The finite interval sampling draws from: the range itself when it is bounded on
        both sides, otherwise the range cut at the default bounds. */
    function SampleBounds(): (bounds: (int, int))
      requires range.WellFormed()
      ensures bounds.0 <= bounds.1
      ensures range.Contains(bounds.0) && range.Contains(bounds.1)
      ensures range.min.Some? ==> bounds.0 == range.min.value
      ensures range.max.Some? ==> bounds.1 == range.max.value
      ensures range.min.None? ==> bounds.0 <= DefaultMin
      ensures range.max.None? ==> bounds.1 >= DefaultMax
    {
      var lo :=
        if range.min.Some? then range.min.value
        else if range.max.Some? && range.max.value < DefaultMin then range.max.value
        else DefaultMin;
      var hi :=
        if range.max.Some? then range.max.value
        else if range.min.Some? && range.min.value > DefaultMax then range.min.value
        else DefaultMax;
      (lo, hi)
    }

    /** `generate`: one value drawn uniformly from the sampling interval, and the rest of
        the random stream. */
    function Generate(bits: seq<bool>): (res: Option<(int, seq<bool>)>)
      requires range.WellFormed()
      ensures res.Some? ==> range.Contains(res.value.0)
    {
      var (lo, hi) := SampleBounds();
      Sampler.Sample(lo, hi, bits)
    }

    /** `shrink`: the candidates for a value of the range, each of them a value the
        arbitrary can generate and strictly smaller than `v`. */
    function Shrink(v: int): (cs: seq<int>)
      ensures range.WellFormed() && CanGenerate(v) ==>
                forall c :: c in cs ==> CanGenerate(c) && IsStrictlySmaller(c, v)
    {
      Shrinker.Shrink(v, range)
    }
  }

  /** Builds the arbitrary for a call; construction is the only place an error is raised. */
  function Create(call: Call): (res: Result<Arbitrary, Error>)
    ensures res.Ok? ==> res.value.range.WellFormed()
    ensures res.Ok? <==> Normalize(call).Ok?
    ensures res.Ok? ==> res.value.range == Normalize(call).value
    ensures res.Err? ==> res.error == Normalize(call).error
  {
    match Normalize(call)
    case Ok(r) => Ok(Arbitrary(r))
    case Err(e) => Err(e)
  }

  /** Every value of a range bounded on both sides is generated by exactly one draw of
      the random stream (the one encoding its offset from the lower bound). */
  lemma {:induction false} BoundedRangeFullyCovered(a: Arbitrary, v: int, word: seq<bool>, rest: seq<bool>)
    requires a.range.WellFormed() && a.range.min.Some? && a.range.max.Some? && a.CanGenerate(v)
    requires |word| == BitLength(a.range.max.value - a.range.min.value)
    ensures a.Generate(word + rest) == Some((v, rest)) <==> word == ToBits(v - a.range.min.value, |word|)
  {
    Sampler.ExactlyOneDrawPerValue(a.range.min.value, a.range.max.value, v, word, rest);
  }

  /** The older `bigInt(min, max)` builds the same arbitrary as `bigInt({min, max})`: it
      fails in the same cases and otherwise generates the same value from the same random
      stream and offers the same shrink candidates. */
  lemma LegacyBigIntSameBehaviour(min: int, max: int, bits: seq<bool>, v: int)
    ensures Create(BigInt(IntPositional(min, max))) == Create(BigInt(IntConstraints(Some(min), Some(max))))
    ensures Create(BigInt(IntPositional(min, max))).Ok? <==> min <= max
    ensures min <= max ==>
              Create(BigInt(IntPositional(min, max))).value.Generate(bits)
                == Create(BigInt(IntConstraints(Some(min), Some(max)))).value.Generate(bits)
    ensures min <= max ==>
              Create(BigInt(IntPositional(min, max))).value.Shrink(v)
                == Create(BigInt(IntConstraints(Some(min), Some(max)))).value.Shrink(v)
  {
  }

  /** The older `bigUint(max)` builds the same arbitrary as `bigUint({max})`. */
  lemma LegacyBigUintSameBehaviour(max: int, bits: seq<bool>, v: int)
    ensures Create(BigUint(UintPositional(max))) == Create(BigUint(UintConstraints(Some(max))))
    ensures Create(BigUint(UintPositional(max))).Ok? <==> 0 <= max
    ensures 0 <= max ==>
              Create(BigUint(UintPositional(max))).value.Generate(bits)
                == Create(BigUint(UintConstraints(Some(max)))).value.Generate(bits)
    ensures 0 <= max ==>
              Create(BigUint(UintPositional(max))).value.Shrink(v)
                == Create(BigUint(UintConstraints(Some(max)))).value.Shrink(v)
  {
  }

  /** `bigIntN(1)` only generates -1 and 0. */
  lemma OneBitSigned(bits: seq<bool>)
    ensures Create(BigIntN(1)).Ok?
    ensures forall v :: Create(BigIntN(1)).value.CanGenerate(v) <==> v == -1 || v == 0
    ensures Create(BigIntN(1)).value.Generate(bits).Some? ==>
              Create(BigIntN(1)).value.Generate(bits).value.0 in {-1, 0}
  {
  }

  /** `bigUintN(1)` only generates 0 and 1. */
  lemma OneBitUnsigned(bits: seq<bool>)
    ensures Create(BigUintN(1)).Ok?
    ensures forall v :: Create(BigUintN(1)).value.CanGenerate(v) <==> v == 0 || v == 1
    ensures Create(BigUintN(1)).value.Generate(bits).Some? ==>
              Create(BigUintN(1)).value.Generate(bits).value.0 in {0, 1}
  {
  }

  /** `bigInt({min: 5, max: 5})` generates 5 without consuming any random bit, and 5 has
      no shrink candidate. */
  lemma SingleValueRange(bits: seq<bool>)
    ensures Create(BigInt(IntConstraints(Some(5), Some(5)))).Ok?
    ensures Create(BigInt(IntConstraints(Some(5), Some(5)))).value.Generate(bits) == Some((5, bits))
    ensures Create(BigInt(IntConstraints(Some(5), Some(5)))).value.Shrink(5) == []
  {
  }

  /** A minimum above the maximum is refused at construction, in both call styles. */
  lemma InvertedBoundsRefused(min: int, max: int)
    requires min > max
    ensures Create(BigInt(IntConstraints(Some(min), Some(max)))) == Err(InvalidConstraint)
    ensures Create(BigInt(IntPositional(min, max))) == Err(InvalidConstraint)
  {
  }

  /** A negative maximum for `bigUint` leaves `[0, max]` empty and is refused at
      construction, in both call styles. */
  lemma NegativeUintMaxRefused(max: int)
    requires max < 0
    ensures Create(BigUint(UintConstraints(Some(max)))) == Err(InvalidConstraint)
    ensures Create(BigUint(UintPositional(max))) == Err(InvalidConstraint)
  {
  }

  /** A bit width below one is refused at construction. */
  lemma BadBitWidthRefused(n: int)
    requires n < 1
    ensures Create(BigIntN(n)) == Err(InvalidBitWidth)
    ensures Create(BigUintN(n)) == Err(InvalidBitWidth)
  {
  }
}
