/** The immutable two-channel record of the engine (Piping/ValueAndSupplement.cs). */
module ValueAndSupplement {
  import opened Basics

  /** The value channel and the supplemented-value channel; either may be null. */
  datatype ValueAndSupplement<V, S> = ValueAndSupplement(val: Nullable<V>, supplementVal: Nullable<S>)

  /** The same two objects with their channels exchanged. */
  function Swapped<V, S>(p: ValueAndSupplement<V, S>): (r: ValueAndSupplement<S, V>)
    ensures r.val == p.supplementVal && r.supplementVal == p.val
  {
    ValueAndSupplement(p.supplementVal, p.val)
  }

  /** Swapping twice gives the original record back. */
  lemma SwappedInvolution<V, S>(p: ValueAndSupplement<V, S>)
    ensures Swapped(Swapped(p)) == p
  {
  }

  /** The pair with both channels null, what a pipeline continues with after an absent outcome. */
  function Nulls<V, S>(): (r: ValueAndSupplement<V, S>)
    ensures r.val.Null? && r.supplementVal.Null?
  {
    ValueAndSupplement(Null, Null)
  }
}
