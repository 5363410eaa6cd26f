/** Normalisation of the call shapes of the four entry points (`bigInt`, `bigUint`,
    `bigIntN`, `bigUintN`) into one canonical inclusive range. */
module Constraints {
  import opened Wrappers
  import opened Bits

  /** An inclusive range of integers; a missing bound means "unbounded on that side". */
  datatype Range = Range(min: Option<int>, max: Option<int>) {

    /** `v` lies within the range. */
    predicate Contains(v: int) {
      (min.Some? ==> min.value <= v) && (max.Some? ==> v <= max.value)
    }

    /** The bounds are ordered; an arbitrary is only ever built on such a range. */
    predicate WellFormed() {
      min.Some? && max.Some? ==> min.value <= max.value
    }
  }

  /** A range is well formed exactly when it holds at least one value. */
  lemma WellFormedIffNonEmpty(r: Range)
    ensures r.WellFormed() <==> exists v :: r.Contains(v)
  {
    if r.WellFormed() {
      var v := if r.min.Some? then r.min.value else if r.max.Some? then r.max.value else 0;
      assert r.Contains(v);
    }
  }

  /** What `bigInt` may be given: nothing, a constraints object `{min?, max?}`, or the
      older positional form `(min, max)`. */
  datatype IntArgs =
    | NoIntArgs
    | IntConstraints(min: Option<int>, max: Option<int>)
    | IntPositional(minArg: int, maxArg: int)

  /** What `bigUint` may be given: nothing, a constraints object `{max?}`, or the older
      positional form `(max)`. */
  datatype UintArgs =
    | NoUintArgs
    | UintConstraints(max: Option<int>)
    | UintPositional(maxArg: int)

  /** One call to an entry point. */
  datatype Call =
    | BigInt(intArgs: IntArgs)
    | BigUint(uintArgs: UintArgs)
    | BigIntN(n: int)
    | BigUintN(n: int)

  datatype Error =
    | InvalidConstraint  // the resolved minimum exceeds the resolved maximum
    | InvalidBitWidth    // a bit width below 1

  /** The bounds a `bigInt` call asks for; the positional form is read as the object form. */
  function IntBounds(args: IntArgs): (Option<int>, Option<int>) {
    match args
    case NoIntArgs => (None, None)
    case IntConstraints(min, max) => (min, max)
    case IntPositional(min, max) => (Some(min), Some(max))
  }

  /** The upper bound a `bigUint` call asks for; the positional form is read as the object form. */
  function UintMax(args: UintArgs): Option<int> {
    match args
    case NoUintArgs => None
    case UintConstraints(max) => max
    case UintPositional(max) => Some(max)
  }

  /** A range from requested bounds, refused when it would be empty. */
  function Checked(r: Range): (res: Result<Range, Error>)
    ensures res.Ok? <==> r.WellFormed()
    ensures res.Ok? ==> res.value == r
    ensures res.Err? ==> res.error == InvalidConstraint
  {
    if r.WellFormed() then Ok(r) else Err(InvalidConstraint)
  }

  /** Resolves a call to its canonical range, once, when the arbitrary is built:
      - `bigIntN(n)`:  `[-2^(n-1), 2^(n-1) - 1]`;
      - `bigUintN(n)`: `[0, 2^n - 1]`;
      - `bigInt(...)`: the requested bounds, each side unbounded when not given;
      - `bigUint(...)`: from 0 up to the requested maximum, unbounded when not given. */
  function Normalize(call: Call): (res: Result<Range, Error>)
    ensures res.Ok? ==> res.value.WellFormed()
    ensures (call.BigIntN? || call.BigUintN?) ==> (res.Ok? <==> call.n >= 1)
    ensures res.Err? ==> (res.error == InvalidBitWidth <==> (call.BigIntN? || call.BigUintN?))
    ensures call.BigInt? && res.Ok? ==> res.value.min == IntBounds(call.intArgs).0
    ensures call.BigUint? ==> (res.Ok? ==> res.value.min == Some(0))
    ensures call.BigInt? && IntBounds(call.intArgs).0.None? ==> res.Ok?
    ensures call.BigInt? && IntBounds(call.intArgs).1.None? ==> res.Ok?
    ensures call.BigUint? ==> (res.Ok? <==> (UintMax(call.uintArgs).Some? ==> UintMax(call.uintArgs).value >= 0))
  {
    match call
    case BigIntN(n) =>
      if n < 1 then Err(InvalidBitWidth)
      else Ok(Range(Some(-(Pow2(n - 1) as int)), Some(Pow2(n - 1) - 1)))
    case BigUintN(n) =>
      if n < 1 then Err(InvalidBitWidth)
      else Ok(Range(Some(0), Some(Pow2(n) - 1)))
    case BigInt(args) =>
      var (min, max) := IntBounds(args);
      Checked(Range(min, max))
    case BigUint(args) =>
      Checked(Range(Some(0), UintMax(args)))
  }

  /** The older positional `bigInt(min, max)` resolves exactly as `bigInt({min, max})`,
      including the refusal of `min > max`. */
  lemma LegacyBigIntSameRange(min: int, max: int)
    ensures Normalize(BigInt(IntPositional(min, max))) == Normalize(BigInt(IntConstraints(Some(min), Some(max))))
    ensures Normalize(BigInt(IntPositional(min, max))).Ok? <==> min <= max
  {
  }

  /** The older positional `bigUint(max)` resolves exactly as `bigUint({max})`. */
  lemma LegacyBigUintSameRange(max: int)
    ensures Normalize(BigUint(UintPositional(max))) == Normalize(BigUint(UintConstraints(Some(max))))
    ensures Normalize(BigUint(UintPositional(max))).Ok? <==> 0 <= max
  {
  }

  /** A constraints object with no field resolves as a call with no argument. */
  lemma EmptyConstraintsSameRange()
    ensures Normalize(BigInt(IntConstraints(None, None))) == Normalize(BigInt(NoIntArgs)) == Ok(Range(None, None))
    ensures Normalize(BigUint(UintConstraints(None))) == Normalize(BigUint(NoUintArgs)) == Ok(Range(Some(0), None))
  {
  }
}
