/**
 `CbNormalizedRange` is used throughout the menu and editor code, but its
 definition is not part of this model. Only what the call sites show is
 modelled: a value with two bounds built by `new(value, min, max)`, taken to
 store its arguments unchanged, a public `value` field, and the helpers
 `map_to_range_usize`, `min`, `max` and `default`, whose bodies are unknown
 and so are passed in as parameters.
 */
module CbRange {

  /**
   A value with a lower and an upper bound. `CbNormalizedRange::new(value, min, max)`
   is modelled as this constructor: it stores its three arguments unchanged.
   */
  datatype NormalizedRange = NormalizedRange(value: int, lo: int, hi: int)

  /** The unseen helpers of `CbNormalizedRange`, supplied by the caller. */
  datatype RangeOps = RangeOps(
    mapToRangeUsize: (NormalizedRange, nat, nat) -> nat,
    min: NormalizedRange -> int,
    max: NormalizedRange -> int,
    default: NormalizedRange)

  /** The bound callers may assume: a mapped value lies in the (inclusive) target range. */
  ghost predicate MapsIntoTarget(ops: RangeOps)
  {
    forall r, lo: nat, hi: nat :: lo <= hi ==> lo <= ops.mapToRangeUsize(r, lo, hi) <= hi
  }
}
