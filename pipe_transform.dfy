/**
 * The `Transform` overloads of the `Pipe` class (Piping/Pipe.cs, region
 * TransForm): they replace one channel with a converted object, or the whole
 * pair with the outcome of an inner pipeline started from a converted object.
 * The conversion runs even under a false `Iff`, and no invariant is checked.
 */
module PipeTransform {
  import opened Basics
  import opened ValueAndSupplement
  import opened PipeOption
  import opened PipeBase
  import opened Option
  import opened PipeInit

  /**
   * A step that changes the channel types: an exception passes on, a
   * validation failure keeps its message but loses its pair, and the
   * context is kept in every case.
   */
  ghost predicate PassesOnConverted<V, S, W, R>(src: Run<V, S>, r: Run<W, R>)
  {
    (src.outcome.SomeException? ==> r == Raise(src.outcome.error, src.outcome.ctx, src.trace))
    && (src.outcome.Validation? ==> r == Run(Validation(Nulls(), src.outcome.ctx, src.outcome.result), src.trace))
    && r.outcome.ctx == src.outcome.ctx && src.trace <= r.trace
  }

  /** `Transform(Func<TS, TW>)`: the supplement is replaced by its conversion. */
  function TransformSupplement<V, S, W>(cv: Caps<V>, cw: Caps<W>, src: Run<V, S>,
                                        toNewValue: Nullable<S> -> Result<Nullable<W>>): (r: Run<V, W>)
    ensures PassesOnConverted(src, r)
    ensures Continues(src.outcome) && toNewValue(SupplementVal(src.outcome)).Failure? ==>
      r == Raise(toNewValue(SupplementVal(src.outcome)).error, src.outcome.ctx, src.trace)
    ensures Continues(src.outcome) && toNewValue(SupplementVal(src.outcome)).Success? ==>
      r == WrapPipeLineResult(cv, cw, Val(src.outcome), toNewValue(SupplementVal(src.outcome)).value, src.outcome.ctx, src.trace)
  {
    match ContinuePipeLineEntryConvert<V, S, V, W>(src.outcome)
    case Break(b) => Run(b, src.trace)
    case Continue(_, ctx) =>
      match toNewValue(SupplementVal(src.outcome))
      case Failure(e) => Raise(e, ctx, src.trace)
      case Success(w) => WrapPipeLineResult(cv, cw, Val(src.outcome), w, ctx, src.trace)
  }

  /** `Transform(Func<TV, TW>)`: the value is replaced by its conversion. */
  function TransformValue<V, S, W>(cw: Caps<W>, cs: Caps<S>, src: Run<V, S>,
                                   toNewValue: Nullable<V> -> Result<Nullable<W>>): (r: Run<W, S>)
    ensures PassesOnConverted(src, r)
    ensures Continues(src.outcome) && toNewValue(Val(src.outcome)).Failure? ==>
      r == Raise(toNewValue(Val(src.outcome)).error, src.outcome.ctx, src.trace)
    ensures Continues(src.outcome) && toNewValue(Val(src.outcome)).Success? ==>
      r == WrapPipeLineResult(cw, cs, toNewValue(Val(src.outcome)).value, SupplementVal(src.outcome), src.outcome.ctx, src.trace)
  {
    match ContinuePipeLineEntryConvert<V, S, W, S>(src.outcome)
    case Break(b) => Run(b, src.trace)
    case Continue(_, ctx) =>
      match toNewValue(Val(src.outcome))
      case Failure(e) => Raise(e, ctx, src.trace)
      case Success(w) => WrapPipeLineResult(cw, cs, w, SupplementVal(src.outcome), ctx, src.trace)
  }

  /** The no-op action the shorter overloads pass as `onValue`: the new supplement is left as it is. */
  function NoOp<X, R>(): (f: (Nullable<X>, Nullable<R>) -> Result<Nullable<R>>)
  {
    (x, r) => Success(r)
  }

  /**
   * The part the pipeline forms share once the converted object `w` exists:
   * run the inner pipeline on it, hand its supplement to `onValue` together
   * with the old channel `before` (as the conversion left it), and wrap the
   * inner pair, with the supplement as `onValue` left it, in the outer
   * context. The inner outcome's variant is not looked at: only its two
   * channels are read.
   */
  function Feed<W, R, X>(cw: Caps<W>, cr: Caps<R>, w: Nullable<W>, inner: Segment<W, W, R>, before: Nullable<X>,
                         onValue: (Nullable<X>, Nullable<R>) -> Result<Nullable<R>>, ctx: PipeOption, t: Trace): (r: Run<W, R>)
    ensures r.outcome.ctx == ctx && t + inner(w).trace <= r.trace
    ensures onValue(before, SupplementVal(inner(w).outcome)).Failure? ==>
      r == Raise(onValue(before, SupplementVal(inner(w).outcome)).error, ctx, t + inner(w).trace)
    ensures onValue(before, SupplementVal(inner(w).outcome)).Success? ==>
      r == WrapPipeLineResult(cw, cr, Val(inner(w).outcome), onValue(before, SupplementVal(inner(w).outcome)).value,
                              ctx, t + inner(w).trace)
  {
    var state := inner(w);
    match onValue(before, SupplementVal(state.outcome))
    case Failure(e) => Raise(e, ctx, t + state.trace)
    case Success(newSupplement) => WrapPipeLineResult(cw, cr, Val(state.outcome), newSupplement, ctx, t + state.trace)
  }

  /**
   * `Transform(Func<TV, TW>, ToValueSupplementValue<TW, TW, TR>, Action<TS, TR>)`:
   * the value is converted, the inner pipeline runs on the conversion, and
   * `onValue` sees the old supplement next to the new one.
   */
  function TransformValuePipeline<V, S, W, R>(cw: Caps<W>, cr: Caps<R>, src: Run<V, S>,
                                              toNewValue: Nullable<V> -> Result<Nullable<W>>, inner: Segment<W, W, R>,
                                              onValue: (Nullable<S>, Nullable<R>) -> Result<Nullable<R>>): (r: Run<W, R>)
    ensures PassesOnConverted(src, r)
    ensures Continues(src.outcome) && toNewValue(Val(src.outcome)).Failure? ==>
      r == Raise(toNewValue(Val(src.outcome)).error, src.outcome.ctx, src.trace)
    ensures Continues(src.outcome) && toNewValue(Val(src.outcome)).Success? ==>
      r == Feed(cw, cr, toNewValue(Val(src.outcome)).value, inner, SupplementVal(src.outcome), onValue, src.outcome.ctx, src.trace)
  {
    match ContinuePipeLineEntryConvert<V, S, W, R>(src.outcome)
    case Break(b) => Run(b, src.trace)
    case Continue(_, ctx) =>
      match toNewValue(Val(src.outcome))
      case Failure(e) => Raise(e, ctx, src.trace)
      case Success(w) => Feed(cw, cr, w, inner, SupplementVal(src.outcome), onValue, ctx, src.trace)
  }

  /**
   * `Transform(Func<TV, TW>, ToValueSupplementValue<TW, TW, TR>, Action<TV, TR>)`:
   * as above, but `onValue` sees the old value, as the conversion left it.
   */
  function TransformValuePipelineOnValue<V, S, W, R>(cw: Caps<W>, cr: Caps<R>, src: Run<V, S>,
                                                     toNewValue: Nullable<V> -> Result<Call<Nullable<V>, Nullable<W>>>,
                                                     inner: Segment<W, W, R>,
                                                     onValue: (Nullable<V>, Nullable<R>) -> Result<Nullable<R>>): (r: Run<W, R>)
    ensures PassesOnConverted(src, r)
    ensures Continues(src.outcome) && toNewValue(Val(src.outcome)).Failure? ==>
      r == Raise(toNewValue(Val(src.outcome)).error, src.outcome.ctx, src.trace)
    ensures Continues(src.outcome) && toNewValue(Val(src.outcome)).Success? ==>
      var c := toNewValue(Val(src.outcome)).value;
      r == Feed(cw, cr, c.ret, inner, c.after, onValue, src.outcome.ctx, src.trace)
  {
    match ContinuePipeLineEntryConvert<V, S, W, R>(src.outcome)
    case Break(b) => Run(b, src.trace)
    case Continue(_, ctx) =>
      match toNewValue(Val(src.outcome))
      case Failure(e) => Raise(e, ctx, src.trace)
      case Success(c) => Feed(cw, cr, c.ret, inner, c.after, onValue, ctx, src.trace)
  }

  /**
   * `Transform(Func<TS, TW>, ToValueSupplementValue<TW, TW, TR>, Action<TS, TR>)`
   * (and the `Then` overload that forwards to it): the supplement is
   * converted, and `onValue` sees the old supplement as the conversion left it.
   */
  function TransformSupplementPipeline<V, S, W, R>(cw: Caps<W>, cr: Caps<R>, src: Run<V, S>,
                                                   toNewValue: Nullable<S> -> Result<Call<Nullable<S>, Nullable<W>>>,
                                                   inner: Segment<W, W, R>,
                                                   onValue: (Nullable<S>, Nullable<R>) -> Result<Nullable<R>>): (r: Run<W, R>)
    ensures PassesOnConverted(src, r)
    ensures Continues(src.outcome) && toNewValue(SupplementVal(src.outcome)).Failure? ==>
      r == Raise(toNewValue(SupplementVal(src.outcome)).error, src.outcome.ctx, src.trace)
    ensures Continues(src.outcome) && toNewValue(SupplementVal(src.outcome)).Success? ==>
      var c := toNewValue(SupplementVal(src.outcome)).value;
      r == Feed(cw, cr, c.ret, inner, c.after, onValue, src.outcome.ctx, src.trace)
  {
    match ContinuePipeLineEntryConvert<V, S, W, R>(src.outcome)
    case Break(b) => Run(b, src.trace)
    case Continue(_, ctx) =>
      match toNewValue(SupplementVal(src.outcome))
      case Failure(e) => Raise(e, ctx, src.trace)
      case Success(c) => Feed(cw, cr, c.ret, inner, c.after, onValue, ctx, src.trace)
  }

  /**
   * `Transform(Func<PipeBase<TV, TS>, TW>, Func<ToValueSupplementValue<TW, TW, TR>>, Action<TS, TR>)`:
   * the conversion reads the whole input outcome, and the inner pipeline is
   * itself produced by a factory, called after the conversion; an exception
   * of either becomes the outcome.
   */
  function TransformOutcomePipeline<V, S, W, R>(cw: Caps<W>, cr: Caps<R>, src: Run<V, S>,
                                                toNewValue: Outcome<V, S> -> Result<Call<Nullable<S>, Nullable<W>>>,
                                                inner: Result<Segment<W, W, R>>,
                                                onValue: (Nullable<S>, Nullable<R>) -> Result<Nullable<R>>): (r: Run<W, R>)
    ensures PassesOnConverted(src, r)
    ensures Continues(src.outcome) && toNewValue(src.outcome).Failure? ==>
      r == Raise(toNewValue(src.outcome).error, src.outcome.ctx, src.trace)
    ensures Continues(src.outcome) && toNewValue(src.outcome).Success? && inner.Failure? ==>
      r == Raise(inner.error, src.outcome.ctx, src.trace)
    ensures Continues(src.outcome) && toNewValue(src.outcome).Success? && inner.Success? ==>
      var c := toNewValue(src.outcome).value;
      r == Feed(cw, cr, c.ret, inner.value, c.after, onValue, src.outcome.ctx, src.trace)
  {
    match ContinuePipeLineEntryConvert<V, S, W, R>(src.outcome)
    case Break(b) => Run(b, src.trace)
    case Continue(_, ctx) =>
      match toNewValue(src.outcome)
      case Failure(e) => Raise(e, ctx, src.trace)
      case Success(c) =>
        match inner
        case Failure(e) => Raise(e, ctx, src.trace)
        case Success(seg) => Feed(cw, cr, c.ret, seg, c.after, onValue, ctx, src.trace)
  }

  /**
   * `Then(Func<TS, TW>, Func<ToValueSupplementValue<TW, TW, TR>>, Action<TS, TR>)`:
   * the supplement is converted and the inner pipeline comes from a factory.
   */
  function ThenSupplementPipelineFactory<V, S, W, R>(cw: Caps<W>, cr: Caps<R>, src: Run<V, S>,
                                                     toNewValue: Nullable<S> -> Result<Call<Nullable<S>, Nullable<W>>>,
                                                     inner: Result<Segment<W, W, R>>,
                                                     onValue: (Nullable<S>, Nullable<R>) -> Result<Nullable<R>>): (r: Run<W, R>)
    ensures PassesOnConverted(src, r)
    ensures Continues(src.outcome) && toNewValue(SupplementVal(src.outcome)).Failure? ==>
      r == Raise(toNewValue(SupplementVal(src.outcome)).error, src.outcome.ctx, src.trace)
    ensures Continues(src.outcome) && toNewValue(SupplementVal(src.outcome)).Success? && inner.Failure? ==>
      r == Raise(inner.error, src.outcome.ctx, src.trace)
    ensures Continues(src.outcome) && toNewValue(SupplementVal(src.outcome)).Success? && inner.Success? ==>
      var c := toNewValue(SupplementVal(src.outcome)).value;
      r == Feed(cw, cr, c.ret, inner.value, c.after, onValue, src.outcome.ctx, src.trace)
  {
    match ContinuePipeLineEntryConvert<V, S, W, R>(src.outcome)
    case Break(b) => Run(b, src.trace)
    case Continue(_, ctx) =>
      match toNewValue(SupplementVal(src.outcome))
      case Failure(e) => Raise(e, ctx, src.trace)
      case Success(c) =>
        match inner
        case Failure(e) => Raise(e, ctx, src.trace)
        case Success(seg) => Feed(cw, cr, c.ret, seg, c.after, onValue, ctx, src.trace)
  }

  /** A conversion that leaves its argument as it was, as the shorter overloads' `Func<T, TW>` is read. */
  function Pure<X, W>(f: Nullable<X> -> Result<Nullable<W>>): (g: Nullable<X> -> Result<Call<Nullable<X>, Nullable<W>>>)
  {
    x => match f(x) case Failure(e) => Failure(e) case Success(w) => Success(Call(x, w))
  }

  /**
   * `Transform(Func<TS, TW>, Func<TR>)`: the converted supplement becomes the
   * value of a fresh `Init` whose supplement is the factory's object; no
   * action runs. The result is that Init's pair in the outer context.
   */
  function TransformSupplementInit<V, S, W, R>(cw: Caps<W>, cr: Caps<R>, equals: (W, R) -> bool, src: Run<V, S>,
                                               toNewValue: Nullable<S> -> Result<Nullable<W>>,
                                               toNewSupplementedValue: Result<Nullable<R>>): (r: Run<W, R>)
    ensures PassesOnConverted(src, r)
    ensures Continues(src.outcome) && toNewValue(SupplementVal(src.outcome)).Failure? ==>
      r == Raise(toNewValue(SupplementVal(src.outcome)).error, src.outcome.ctx, src.trace)
    ensures Continues(src.outcome) && toNewValue(SupplementVal(src.outcome)).Success? ==>
      var state := InitFactory(cw, cr, equals, toNewValue(SupplementVal(src.outcome)).value, toNewSupplementedValue, Null, []);
      r == WrapPipeLineResult(cw, cr, Val(state.outcome), SupplementVal(state.outcome), src.outcome.ctx, src.trace + state.trace)
  {
    TransformSupplementPipeline(cw, cr, src, Pure(toNewValue), InitFactorySegment(cw, cr, equals, toNewSupplementedValue), NoOp())
  }

  /** `Transform(Func<TV, TW>, Func<TR>)`: as above, from the value. */
  function TransformValueInit<V, S, W, R>(cw: Caps<W>, cr: Caps<R>, equals: (W, R) -> bool, src: Run<V, S>,
                                          toNewValue: Nullable<V> -> Result<Nullable<W>>,
                                          toNewSupplementedValue: Result<Nullable<R>>): (r: Run<W, R>)
    ensures PassesOnConverted(src, r)
    ensures Continues(src.outcome) && toNewValue(Val(src.outcome)).Failure? ==>
      r == Raise(toNewValue(Val(src.outcome)).error, src.outcome.ctx, src.trace)
    ensures Continues(src.outcome) && toNewValue(Val(src.outcome)).Success? ==>
      var state := InitFactory(cw, cr, equals, toNewValue(Val(src.outcome)).value, toNewSupplementedValue, Null, []);
      r == WrapPipeLineResult(cw, cr, Val(state.outcome), SupplementVal(state.outcome), src.outcome.ctx, src.trace + state.trace)
  {
    TransformValuePipelineOnValue(cw, cr, src, Pure(toNewValue), InitFactorySegment(cw, cr, equals, toNewSupplementedValue), NoOp())
  }

  /** `Transform(Func<TV, TW>, ToValueSupplementValue<TW, TW, TR>)`: the inner pipeline's pair in the outer context. */
  function TransformValueInto<V, S, W, R>(cw: Caps<W>, cr: Caps<R>, src: Run<V, S>,
                                          toNewValue: Nullable<V> -> Result<Nullable<W>>, inner: Segment<W, W, R>): (r: Run<W, R>)
    ensures PassesOnConverted(src, r)
    ensures Continues(src.outcome) && toNewValue(Val(src.outcome)).Failure? ==>
      r == Raise(toNewValue(Val(src.outcome)).error, src.outcome.ctx, src.trace)
    ensures Continues(src.outcome) && toNewValue(Val(src.outcome)).Success? ==>
      var state := inner(toNewValue(Val(src.outcome)).value);
      r == WrapPipeLineResult(cw, cr, Val(state.outcome), SupplementVal(state.outcome), src.outcome.ctx, src.trace + state.trace)
  {
    TransformValuePipelineOnValue(cw, cr, src, Pure(toNewValue), inner, NoOp())
  }

  /** `Transform(Func<TS, TW>, ToValueSupplementValue<TW, TW, TR>)`: as above, from the supplement. */
  function TransformSupplementInto<V, S, W, R>(cw: Caps<W>, cr: Caps<R>, src: Run<V, S>,
                                               toNewValue: Nullable<S> -> Result<Nullable<W>>, inner: Segment<W, W, R>): (r: Run<W, R>)
    ensures PassesOnConverted(src, r)
    ensures Continues(src.outcome) && toNewValue(SupplementVal(src.outcome)).Failure? ==>
      r == Raise(toNewValue(SupplementVal(src.outcome)).error, src.outcome.ctx, src.trace)
    ensures Continues(src.outcome) && toNewValue(SupplementVal(src.outcome)).Success? ==>
      var state := inner(toNewValue(SupplementVal(src.outcome)).value);
      r == WrapPipeLineResult(cw, cr, Val(state.outcome), SupplementVal(state.outcome), src.outcome.ctx, src.trace + state.trace)
  {
    TransformSupplementPipeline(cw, cr, src, Pure(toNewValue), inner, NoOp())
  }
}
