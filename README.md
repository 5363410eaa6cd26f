# Arbitrary-precision integer arbitraries: a reference model

This project models the big integer arbitraries of a property-based testing
framework: `bigInt`, `bigUint`, `bigIntN` and `bigUintN`. Each is a generator of
unbounded integers (`bigint`, here Dafny's `int`) that can also shrink a value
toward zero. The model follows the contract their unit tests state:

- **Order.** "Strictly smaller" compares magnitudes. The model proves this order
  irreflexive, asymmetric and transitive, and proves that every strictly
  decreasing chain starting at `v` has at most `|v| + 1` elements.
- **Normalisation.** Every call shape resolves once to a canonical inclusive
  range (module `Constraints`). A bound may be missing: `bigInt()` is
  unbounded. The call shapes are: no argument, a constraints object
  `{min?, max?}`, the older positional forms `bigInt(min, max)` and
  `bigUint(max)`, and a bit width `n`. A bit width below 1 is refused with
  `InvalidBitWidth`. A minimum above the maximum is refused with
  `InvalidConstraint`.
- **Validity.** The predicate that each test pairs with an entry point is
  written as in the test, shifts included (module `BigIntArbitrarySpec`). The
  model proves it equal to the arbitrary's `canGenerate` for every argument.
- **Generation** (module `Sampler`). Generation is rejection sampling over an
  explicit random bit stream, from a finite sampling interval. On a range bounded
  on both sides that interval is the range itself. On an open side it stops at
  the signed 256-bit bound (see the list of what is left out). Each draw reads
  just enough bits to cover the span. A draw above the span is thrown away and
  drawn again. Each value of the sampling interval is produced by exactly one draw
  (`Sampler.ExactlyOneDrawPerValue`), so every value of the interval is equally
  likely. On a range bounded on both sides this covers every value of the range
  (`BigIntArbitrary.BoundedRangeFullyCovered`). Fewer than half of all draws are
  rejected (`Sampler.AcceptedDrawsOutnumberRejected`). The bit-word encoding this
  relies on is a bijection (`Bits.FromToBits`, `Bits.ToFromBits`).
- **Shrinking** (module `Shrinker`). Candidates come in this order:
  1. zero, when the range admits it;
  2. the bound nearest zero;
  3. midpoints between the last candidate and the value, rounded toward zero.

  The model proves that the candidates stay in the range, are strictly smaller
  than the value, and never repeat. The sequence is empty
  exactly when no value of the range is smaller. The first candidate is a value
  of the range nearest zero. Repeated shrinking always ends.

The legacy positional forms build the same arbitrary as the object forms. They
therefore generate the same value from the same random stream and offer the same
shrink candidates.

## Model

| member | source | states |
|---|---|---|
| `Magnitude.Abs` | test/unit/check/arbitrary/BigIntArbitrary.spec.ts:11-12 | the magnitude `v >= 0 ? v : -v` is non-negative, is `v` or `-v`, and bounds both `v` and `-v` |
| `Magnitude.IsStrictlySmaller` | test/unit/check/arbitrary/BigIntArbitrary.spec.ts:10-14 | `isStrictlySmallerBigInt(c, v)` holds exactly when `-abs(v) < c < abs(v)`, and never when `v` is 0 |
| `Magnitude.StrictlySmallerIrreflexive` | test/unit/check/arbitrary/BigIntArbitrary.spec.ts:10-14 | no value is strictly smaller than itself |
| `Magnitude.StrictlySmallerTransitive` | test/unit/check/arbitrary/BigIntArbitrary.spec.ts:10-14 | the strictly-smaller relation is transitive |
| `Magnitude.StrictlySmallerAsymmetric` | test/unit/check/arbitrary/BigIntArbitrary.spec.ts:10-14 | if `a` is strictly smaller than `b` then `b` is not strictly smaller than `a` |
| `Magnitude.ZeroIsLeast` | test/unit/check/arbitrary/BigIntArbitrary.spec.ts:10-14 | nothing is smaller than 0, and 0 is smaller than every non-zero value |
| `Magnitude.DescendingChainBound` | test/unit/check/arbitrary/BigIntArbitrary.spec.ts:10-14 | a strictly decreasing chain from `v` has at most `abs(v) + 1` elements; each step lowers the magnitude by at least one |
| `Bits.ShiftLeft` | test/unit/check/arbitrary/BigIntArbitrary.spec.ts:29 | the BigInt shift `x << k`, as repeated doubling, equals `x * 2^k`, so `-1 << (n-1)` is `-2^(n-1)` and `1 << k` is `2^k` |
| `Constraints.WellFormedIffNonEmpty` | test/unit/check/arbitrary/BigIntArbitrary.spec.ts:66 | a range is well formed (`min <= max`, as the seed generator guarantees) exactly when it holds some value |
| `Constraints.Normalize` | test/unit/check/arbitrary/BigIntArbitrary.spec.ts:25-39 | every successful resolution is a well-formed range; a bit-width call succeeds exactly when `n >= 1` and fails otherwise with InvalidBitWidth; `bigInt` with a side left open never fails, and its minimum is the requested one; `bigUint` has minimum 0 and succeeds exactly when its requested maximum, if any, is non-negative |
| `Constraints.LegacyBigIntSameRange` | test/unit/check/arbitrary/BigIntArbitrary.spec.ts:73-80 | `bigInt(min, max)` resolves to the same result as `bigInt({min, max})` for all `min`, `max`, and succeeds exactly when `min <= max` |
| `Constraints.LegacyBigUintSameRange` | test/unit/check/arbitrary/BigIntArbitrary.spec.ts:99-106 | `bigUint(max)` resolves to the same result as `bigUint({max})`, and succeeds exactly when `max >= 0` |
| `Constraints.EmptyConstraintsSameRange` | test/unit/check/arbitrary/BigIntArbitrary.spec.ts:45 | an empty constraints object resolves as no argument: the unbounded range for `bigInt`, `[0, +inf)` for `bigUint` |
| `Sampler.Sample` | test/unit/check/arbitrary/BigIntArbitrary.spec.ts:25-30 | a sampled value lies in `[lo, hi]`; what is returned of the stream is a suffix of it, shorter by at least the bits of one draw |
| `Shrinker.Shrink` | test/unit/check/arbitrary/BigIntArbitrary.spec.ts:25-30 | for a value of a well-formed range, every shrink candidate lies in the range and is strictly smaller than the value |
| `Shrinker.ShrinkCandidatesDistinct` | test/unit/check/arbitrary/BigIntArbitrary.spec.ts:25-30 | no shrink candidate appears twice |
| `Shrinker.ShrinkEmptyIffMinimal` | test/unit/check/arbitrary/BigIntArbitrary.spec.ts:65-70 | the candidate sequence is empty exactly when no value of the range is strictly smaller than the value (so 0, or the in-range value nearest zero, has none) |
| `Shrinker.FirstCandidateIsNearestZero` | test/unit/check/arbitrary/BigIntArbitrary.spec.ts:65-70 | the first candidate is in the range and no value of the range has a smaller magnitude |
| `Shrinker.ShrinkPathInRange` | test/unit/check/arbitrary/BigIntArbitrary.spec.ts:25-30 | along a path of successive shrink candidates every element stays in the range and is strictly smaller than the one before |
| `Shrinker.ShrinkPathFinite` | test/unit/check/arbitrary/BigIntArbitrary.spec.ts:10-14 | a path of successive shrink candidates from `v` has at most `abs(v) + 1` elements: shrinking always ends |
| `BigIntArbitrary.Arbitrary.SampleBounds` | test/unit/check/arbitrary/BigIntArbitrary.spec.ts:45-62 | the sampling interval is non-empty, lies in the range, equals the range on every bounded side, and reaches at least the 256-bit default bound on each open side |
| `BigIntArbitrary.Arbitrary.CanGenerate` | test/unit/check/arbitrary/BigIntArbitrary.spec.ts:25-30 | on a range bounded on both sides, `canGenerate(v)` holds exactly for `min <= v <= max`; that each such `v` is really generated is `BoundedRangeFullyCovered` |
| `BigIntArbitrary.Arbitrary.Generate` | test/unit/check/arbitrary/BigIntArbitrary.spec.ts:25-30 | every generated value is one the arbitrary can generate |
| `BigIntArbitrary.Arbitrary.Shrink` | test/unit/check/arbitrary/BigIntArbitrary.spec.ts:25-30 | every shrink candidate of a generable value is generable and strictly smaller |
| `BigIntArbitrary.Create` | test/unit/check/arbitrary/BigIntArbitrary.spec.ts:25 | an arbitrary is built exactly when the call normalises; its range is the normalised one, and a failure carries the normaliser's error |
| `BigIntArbitrary.BoundedRangeFullyCovered` | test/unit/check/arbitrary/BigIntArbitrary.spec.ts:64-70 | on a range bounded on both sides, each value is generated by exactly one draw, the word encoding its offset from `min` |
| `BigIntArbitrary.LegacyBigIntSameBehaviour` | test/unit/check/arbitrary/BigIntArbitrary.spec.ts:73-80 | `bigInt(min, max)` and `bigInt({min, max})` are the same arbitrary: same failure cases, same generated value for the same stream, same shrink candidates |
| `BigIntArbitrary.LegacyBigUintSameBehaviour` | test/unit/check/arbitrary/BigIntArbitrary.spec.ts:99-106 | `bigUint(max)` and `bigUint({max})` are the same arbitrary: same failure cases, same generated value, same shrink candidates |
| `BigIntArbitrary.OneBitSigned` | test/unit/check/arbitrary/BigIntArbitrary.spec.ts:24-29 | `bigIntN(1)` can generate exactly -1 and 0 |
| `BigIntArbitrary.OneBitUnsigned` | test/unit/check/arbitrary/BigIntArbitrary.spec.ts:34-39 | `bigUintN(1)` can generate exactly 0 and 1 |
| `BigIntArbitrary.SingleValueRange` | test/unit/check/arbitrary/BigIntArbitrary.spec.ts:64-70 | `bigInt({min: 5, max: 5})` generates 5 without consuming the stream, and 5 has no shrink candidate |
| `BigIntArbitrary.InvertedBoundsRefused` | test/unit/check/arbitrary/BigIntArbitrary.spec.ts:66 | `min > max` is refused with InvalidConstraint in both `bigInt` call styles |
| `BigIntArbitrary.NegativeUintMaxRefused` | test/unit/check/arbitrary/BigIntArbitrary.spec.ts:93 | a negative maximum is refused with InvalidConstraint by `bigUint({max})` and by `bigUint(max)` |
| `BigIntArbitrary.BadBitWidthRefused` | test/unit/check/arbitrary/BigIntArbitrary.spec.ts:26 | a bit width below 1 is refused with InvalidBitWidth by `bigIntN` and `bigUintN` |
| `BigIntArbitrarySpec.ValidArbitrary` | test/unit/check/arbitrary/BigIntArbitrary.spec.ts:25-30 | once `canGenerate` agrees with a test's `isValidValue`, every generated value passes it, and every shrink candidate of a passing value passes it and is strictly smaller |
| `BigIntArbitrarySpec.IsValidBigIntN` | test/unit/check/arbitrary/BigIntArbitrary.spec.ts:28-29 | the test's `g >= (-1 << (n-1)) && g <= (1 << (n-1)) - 1` holds exactly when `-2^(n-1) <= g < 2^(n-1)` |
| `BigIntArbitrarySpec.IsValidBigUintN` | test/unit/check/arbitrary/BigIntArbitrary.spec.ts:38-39 | the test's `g >= 0 && g <= (1 << n) - 1` holds exactly when `0 <= g < 2^n` |
| `BigIntArbitrarySpec.IsValidBigIntMin` | test/unit/check/arbitrary/BigIntArbitrary.spec.ts:54 | the test's `min <= g` is membership in the range `[min, +inf)` |
| `BigIntArbitrarySpec.IsValidBigIntMax` | test/unit/check/arbitrary/BigIntArbitrary.spec.ts:61 | the test's `g <= max` is membership in the range `(-inf, max]` |
| `BigIntArbitrarySpec.IsValidBigIntMinMax` | test/unit/check/arbitrary/BigIntArbitrary.spec.ts:68-69 | the test's `min <= g && g <= max` is membership in the range `[min, max]` |
| `BigIntArbitrarySpec.IsValidBigUint` | test/unit/check/arbitrary/BigIntArbitrary.spec.ts:88 | the test's `g >= 0` is membership in the range `[0, +inf)` |
| `BigIntArbitrarySpec.IsValidBigUintMax` | test/unit/check/arbitrary/BigIntArbitrary.spec.ts:95 | the test's `g >= 0 && g <= max` is membership in the range `[0, max]` |
| `BigIntArbitrarySpec.BigIntNMatchesTest` | test/unit/check/arbitrary/BigIntArbitrary.spec.ts:28-29 | for every `n >= 1`, `bigIntN(n)` can generate `g` exactly when `g >= (-1 << (n-1))` and `g <= (1 << (n-1)) - 1` |
| `BigIntArbitrarySpec.BigUintNMatchesTest` | test/unit/check/arbitrary/BigIntArbitrary.spec.ts:38-39 | for every `n >= 1`, `bigUintN(n)` can generate `g` exactly when `g >= 0` and `g <= (1 << n) - 1` |
| `BigIntArbitrarySpec.BitWidthRangesHoldZero` | test/unit/check/arbitrary/BigIntArbitrary.spec.ts:26-39 | for every `n >= 1` both bit-width ranges contain 0, and the signed one also contains -1 |
| `BigIntArbitrarySpec.BigIntUnconstrainedMatchesTest` | test/unit/check/arbitrary/BigIntArbitrary.spec.ts:47 | `bigInt()` (and `bigInt({})`) can generate every integer |
| `BigIntArbitrarySpec.BigIntMinMatchesTest` | test/unit/check/arbitrary/BigIntArbitrary.spec.ts:54 | for every `min`, `bigInt({min})` builds and can generate `g` exactly when `min <= g` |
| `BigIntArbitrarySpec.BigIntMaxMatchesTest` | test/unit/check/arbitrary/BigIntArbitrary.spec.ts:61 | for every `max`, `bigInt({max})` builds and can generate `g` exactly when `g <= max` |
| `BigIntArbitrarySpec.BigIntMinMaxMatchesTest` | test/unit/check/arbitrary/BigIntArbitrary.spec.ts:68-69 | for `min <= max`, `bigInt({min, max})` builds and can generate `g` exactly when `min <= g <= max` |
| `BigIntArbitrarySpec.BigUintMatchesTest` | test/unit/check/arbitrary/BigIntArbitrary.spec.ts:88 | `bigUint()` can generate `g` exactly when `g >= 0` |
| `BigIntArbitrarySpec.BigUintMaxMatchesTest` | test/unit/check/arbitrary/BigIntArbitrary.spec.ts:95 | for `max >= 0`, `bigUint({max})` builds and can generate `g` exactly when `0 <= g <= max` |
| `BigIntArbitrarySpec.BigIntNIsValidArbitrary` | test/unit/check/arbitrary/BigIntArbitrary.spec.ts:25-30 | for every `n >= 1`, `bigIntN(n)` builds, every generated value passes the test's predicate, and every candidate of a passing value passes it and is strictly smaller |
| `BigIntArbitrarySpec.BigUintNIsValidArbitrary` | test/unit/check/arbitrary/BigIntArbitrary.spec.ts:35-40 | for every `n >= 1`, `bigUintN(n)` builds, every generated value passes the test's predicate, and every candidate of a passing value passes it and is strictly smaller |
| `BigIntArbitrarySpec.BigIntIsValidArbitrary` | test/unit/check/arbitrary/BigIntArbitrary.spec.ts:45-48 | `bigInt()` builds, every generated value is one it can generate, and every shrink candidate is strictly smaller |
| `BigIntArbitrarySpec.BigIntMinIsValidArbitrary` | test/unit/check/arbitrary/BigIntArbitrary.spec.ts:51-55 | for every `min`, `bigInt({min})` builds, generates only `g >= min`, and shrinks a valid value only to valid, strictly smaller values |
| `BigIntArbitrarySpec.BigIntMaxIsValidArbitrary` | test/unit/check/arbitrary/BigIntArbitrary.spec.ts:58-62 | for every `max`, `bigInt({max})` builds, generates only `g <= max`, and shrinks a valid value only to valid, strictly smaller values |
| `BigIntArbitrarySpec.BigIntMinMaxIsValidArbitrary` | test/unit/check/arbitrary/BigIntArbitrary.spec.ts:65-70 | for every `min <= max`, `bigInt({min, max})` builds, generates only values of `[min, max]`, and shrinks a valid value only to valid, strictly smaller values |
| `BigIntArbitrarySpec.BigUintIsValidArbitrary` | test/unit/check/arbitrary/BigIntArbitrary.spec.ts:86-89 | `bigUint()` builds, generates only `g >= 0`, and shrinks a valid value only to valid, strictly smaller values |
| `BigIntArbitrarySpec.BigUintMaxIsValidArbitrary` | test/unit/check/arbitrary/BigIntArbitrary.spec.ts:92-96 | for every `max >= 0`, `bigUint({max})` builds, generates only values of `[0, max]`, and shrinks a valid value only to valid, strictly smaller values |

The sampler and bit-word lemmas named in the overview (`Sampler.SampleAccepts`,
`Sampler.SampleRejects`, `Sampler.RejectedDrawConsumesMore`, `Sampler.ExactlyOneDrawPerValue`,
`Sampler.AcceptedDrawsOutnumberRejected`, `Bits.FromToBits`, `Bits.ToFromBits`)
and the shrink helpers (`Shrinker.MidTowardZero`, `Shrinker.NearestBoundary`,
`Shrinker.NearestBoundaryIsNearest`,
`Shrinker.Bisect`) model how values are drawn and how candidates are built. No
line of the test states them, so the table above has no row for them.

## Left out

- The implementation `src/check/arbitrary/BigIntArbitrary` is not part of this model. The sampling and shrinking algorithms here are a reference choice: rejection sampling over just enough bits, and shrinking by zero, nearest bound, then bisection. Only their contract is proved to match the test's predicates.
- An open side of a `bigInt` or `bigUint` range stays unbounded in the canonical range. This is a modelling choice, not something the test forces: the test draws `min` and `max` from `fc.bigInt()`, so it never asks for a bound beyond the 256-bit default, and an open side fixed at that default would pass it too. Because of this choice, `bigInt({min})` and `bigInt({max})` never fail.
- `BigIntArbitrary.Arbitrary.SampleBounds` collapses to the single value `m` when a one-sided range's given bound `m` lies beyond the 256-bit default: `bigInt({min: m})` with `m > 2^255 - 1` builds and only ever generates `m`, and likewise `bigInt({max: m})` with `m < -2^255`. An open side fixed at the default would refuse such a call with InvalidConstraint instead.
- `BigIntArbitrary.Arbitrary.Generate` on a range open on one or both sides draws only from the sampling interval. Values beyond the 256-bit default are in the range (`canGenerate` holds) but are never sampled; for example `bigInt()` can generate `2^300` but never draws it.
- The 256-bit default bound (`BigIntArbitrary.DefaultMin`, `DefaultMax`) is this model's own choice of value.
- The check that a `BigInt` global exists, and the `typeof g === 'bigint'` checks: every value of the model is an integer.
- The test runner (`describe`, `it`, `fc.assert`, `fc.property`, `expect`) and the bodies of `generateOneValue`, `isValidArbitrary` and `minMax`: their code is not part of this model. The model keeps what their arguments state. `minMax` supplies `min <= max` (the requires of `BigIntMinMaxMatchesTest`). `isValidArbitrary` checks generated values and shrink candidates (`ValidArbitrary` and the `*IsValidArbitrary` lemmas).
- A bit width that is not an integer (a JavaScript `number` such as 1.5) cannot be written in the model, whose widths are `int`.
- The seeded random generator itself is left out. The random source is a parameter: a finite stream of bits. `Sample` returns `None` when the stream ends before a draw is accepted; a real source never ends.
- Uniformity is proved as a one-to-one correspondence between values and accepted draws. The probabilities themselves are not modelled.
- Laziness of the shrink sequence: the model returns the whole finite sequence. A consumer that stops early is not modelled.
- `BigIntArbitrary.Arbitrary.Shrink` promises nothing for a value outside the range, and the tests never shrink such a value.
