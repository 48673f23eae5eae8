/**
 * Branching in a pipeline (Piping/Pipe.cs, region iff): `Iff` evaluates a
 * predicate and sets the branch flag, `Else` sets it, `EndIff` clears it, and
 * `EndIffStrong` raises exactly when the
 * flag left by the last `Iff` is false. None of them changes the pair.
 */
module PipeIff {
  import opened Basics
  import opened ValueAndSupplement
  import opened PipeOption
  import opened PipeBase
  import opened Option
  import opened PipeThen

  const EndIffStrongMessage := "EndIffStrong supposes at least one Iff returns truely. Add an Iff with a truely evaluated predicate"

  /** The context `Iff` continues with: the predicate's verdict as the flag, the same hooks. */
  function Branch(ctx: PipeOption, met: bool): (c: PipeOption)
    ensures c.conditionIsMet == Set(met) && c.extensions == ctx.extensions
  {
    PipeOption(Set(met), ctx.extensions)
  }

  /**
   * `Iff(Func<IValueAndSupplement<TV, TS>, bool>)`: the predicate sees the
   * pair and its verdict replaces the flag, whatever it was; the pair is
   * wrapped again. A throwing predicate gives an InvalidOperationException
   * with the same message.
   */
  function IffBoth<V, S>(cv: Caps<V>, cs: Caps<S>, src: Run<V, S>, test: ValueAndSupplement<V, S> -> Result<bool>): (r: Run<V, S>)
    ensures PassesOn(src, r) && src.trace <= r.trace
    ensures Continues(src.outcome) && test(Current(src.outcome)).Success? ==>
      r == WrapPipeLineResult(cv, cs, Val(src.outcome), SupplementVal(src.outcome),
                              Branch(src.outcome.ctx, test(Current(src.outcome)).value), src.trace)
    ensures Continues(src.outcome) && test(Current(src.outcome)).Failure? ==>
      r == Raise(Rewrapped(test(Current(src.outcome)).error), src.outcome.ctx, src.trace)
  {
    match ContinuePipeLineEntry(src.outcome)
    case Break(b) => Run(b, src.trace)
    case Continue(p, ctx) =>
      match test(p)
      case Failure(e) => Raise(Rewrapped(e), ctx, src.trace)
      case Success(met) => WrapPipeLineResult(cv, cs, p.val, p.supplementVal, Branch(ctx, met), src.trace)
  }

  /** `Iff(Func<TV, bool>)`: as `IffBoth`, with the predicate on the value. */
  function IffValue<V, S>(cv: Caps<V>, cs: Caps<S>, src: Run<V, S>, test: Nullable<V> -> Result<bool>): (r: Run<V, S>)
    ensures PassesOn(src, r) && src.trace <= r.trace
    ensures Continues(src.outcome) && test(Val(src.outcome)).Success? ==>
      r == WrapPipeLineResult(cv, cs, Val(src.outcome), SupplementVal(src.outcome),
                              Branch(src.outcome.ctx, test(Val(src.outcome)).value), src.trace)
    ensures Continues(src.outcome) && test(Val(src.outcome)).Failure? ==>
      r == Raise(Rewrapped(test(Val(src.outcome)).error), src.outcome.ctx, src.trace)
  {
    match ContinuePipeLineEntry(src.outcome)
    case Break(b) => Run(b, src.trace)
    case Continue(p, ctx) =>
      match test(p.val)
      case Failure(e) => Raise(Rewrapped(e), ctx, src.trace)
      case Success(met) => WrapPipeLineResult(cv, cs, p.val, p.supplementVal, Branch(ctx, met), src.trace)
  }

  /**
   * `Iff(Func<TS, bool>)`: as `IffBoth`, with the predicate on the
   * supplement; but a throwing predicate gives an exception outcome built
   * from a null context, so flag and hooks are lost.
   */
  function IffSupplement<V, S>(cv: Caps<V>, cs: Caps<S>, src: Run<V, S>, test: Nullable<S> -> Result<bool>): (r: Run<V, S>)
    ensures PassesOn(src, r) && src.trace <= r.trace
    ensures Continues(src.outcome) && test(SupplementVal(src.outcome)).Success? ==>
      r == WrapPipeLineResult(cv, cs, Val(src.outcome), SupplementVal(src.outcome),
                              Branch(src.outcome.ctx, test(SupplementVal(src.outcome)).value), src.trace)
    ensures Continues(src.outcome) && test(SupplementVal(src.outcome)).Failure? ==>
      r == Raise(Rewrapped(test(SupplementVal(src.outcome)).error), EmptyOption, src.trace)
  {
    match ContinuePipeLineEntry(src.outcome)
    case Break(b) => Run(b, src.trace)
    case Continue(p, ctx) =>
      match test(p.supplementVal)
      case Failure(e) => Raise(Rewrapped(e), EmptyOption, src.trace)
      case Success(met) => WrapPipeLineResult(cv, cs, p.val, p.supplementVal, Branch(ctx, met), src.trace)
  }

  /** `Else`: an `Iff` on the supplement whose predicate always holds, so the flag becomes true. */
  function Else<V, S>(cv: Caps<V>, cs: Caps<S>, src: Run<V, S>): (r: Run<V, S>)
    ensures PassesOn(src, r) && src.trace <= r.trace
    ensures Continues(src.outcome) ==>
      r == WrapPipeLineResult(cv, cs, Val(src.outcome), SupplementVal(src.outcome), Branch(src.outcome.ctx, true), src.trace)
  {
    IffSupplement(cv, cs, src, _ => Success(true))
  }

  /** `EndIff`: the flag goes back to unset, so later steps run; same pair, same hooks. */
  function EndIff<V, S>(cv: Caps<V>, cs: Caps<S>, src: Run<V, S>): (r: Run<V, S>)
    ensures PassesOn(src, r) && src.trace <= r.trace
    ensures Continues(src.outcome) ==>
      r == WrapPipeLineResult(cv, cs, Val(src.outcome), SupplementVal(src.outcome),
                              PipeOption(Unset, src.outcome.ctx.extensions), src.trace)
  {
    match ContinuePipeLineEntry(src.outcome)
    case Break(b) => Run(b, src.trace)
    case Continue(p, ctx) => WrapPipeLineResult(cv, cs, p.val, p.supplementVal, PipeOption(Unset, ctx.extensions), src.trace)
  }

  /**
   * `EndIffStrong`: a false flag (the last `Iff` failed) is an error;
   * otherwise the pair is wrapped again and the flag is kept, not reset.
   */
  function EndIffStrong<V, S>(cv: Caps<V>, cs: Caps<S>, src: Run<V, S>): (r: Run<V, S>)
    ensures PassesOn(src, r) && src.trace <= r.trace
    ensures Continues(src.outcome) && Skipping(src.outcome.ctx) ==>
      r == Raise(Fault(InvalidOperation, EndIffStrongMessage), src.outcome.ctx, src.trace)
    ensures Continues(src.outcome) && !Skipping(src.outcome.ctx) ==>
      r == WrapPipeLineResult(cv, cs, Val(src.outcome), SupplementVal(src.outcome), src.outcome.ctx, src.trace)
  {
    match ContinuePipeLineEntry(src.outcome)
    case Break(b) => Run(b, src.trace)
    case Continue(p, ctx) =>
      if Skipping(ctx) then Raise(Fault(InvalidOperation, EndIffStrongMessage), ctx, src.trace)
      else WrapPipeLineResult(cv, cs, p.val, p.supplementVal, ctx, src.trace)
  }
}
