/**
 * The `Then` overloads of the `Pipe` class (Piping/Pipe.cs, regions then,
 * "from v to s", "on S returning s" and "on V returning V"). Each runs caller
 * logic on the current pair unless a false `Iff` is in force, refuses a pair
 * that turned invalid, and wraps the result.
 */
module PipeThen {
  import opened Basics
  import opened ValueAndSupplement
  import opened PipeOption
  import opened PipeBase
  import opened Option

  /** The exception the later overloads give in place of the caller's: an InvalidOperationException with its message. */
  function Rewrapped(e: Fault): (f: Fault)
    ensures f.kind == InvalidOperation && f.message == e.message
  {
    Fault(InvalidOperation, e.message)
  }

  /** A step runs caller logic: the input continues and no false `Iff` is in force. */
  predicate Running<V, S>(o: Outcome<V, S>)
  {
    Continues(o) && !Skipping(o.ctx)
  }

  /** An exception or a validation failure reaches the next step unchanged, and no hook runs. */
  ghost predicate PassesOn<V, S>(src: Run<V, S>, r: Run<V, S>)
  {
    (src.outcome.SomeException? ==> r == Raise(src.outcome.error, src.outcome.ctx, src.trace))
    && (src.outcome.Validation? ==> r == src)
  }

  /** The same for a step that exchanges the channels: a validation failure keeps its pair, swapped. */
  ghost predicate PassesOnSwapped<V, S>(src: Run<V, S>, r: Run<S, V>)
  {
    (src.outcome.SomeException? ==> r == Raise(src.outcome.error, src.outcome.ctx, src.trace))
    && (src.outcome.Validation? ==>
          r == Run(Validation(Swapped(src.outcome.pair), src.outcome.ctx, src.outcome.result), src.trace))
  }

  /**
   * A step keeps the branch context (flag and hooks), except that a new
   * validation failure drops it; hooks only ever append to the trace.
   */
  ghost predicate KeepsContext<V, S, C, D>(src: Run<V, S>, r: Run<C, D>)
  {
    src.trace <= r.trace
    && (r.outcome.ctx == src.outcome.ctx || (r.outcome.Validation? && r.outcome.ctx == EmptyOption))
  }

  /**
   * The common tail of a step whose logic returned: `ValidateIsValid` on
   * `checked` (the validation failure is returned as it is, without hooks),
   * then `WrapPipeLineResult` on `next`.
   */
  function Conclude<A, B>(ca: Caps<A>, cb: Caps<B>, checked: ValueAndSupplement<A, B>, next: ValueAndSupplement<A, B>,
                         ctx: PipeOption, t: Trace): (r: Run<A, B>)
    ensures ValidateIsValid(ca, cb, checked).Invalidated? ==> r == Run(ValidateIsValid(ca, cb, checked).validation, t)
    ensures ValidateIsValid(ca, cb, checked).IsValid? ==> r == WrapPipeLineResult(ca, cb, next.val, next.supplementVal, ctx, t)
    ensures t <= r.trace && (r.outcome.ctx == ctx || (r.outcome.Validation? && r.outcome.ctx == EmptyOption))
  {
    match ValidateIsValid(ca, cb, checked)
    case Invalidated(v) => Run(v, t)
    case IsValid => WrapPipeLineResult(ca, cb, next.val, next.supplementVal, ctx, t)
  }

  /**
   * `Then(Action<TV, TS>)`: the action sees both channels and the pipeline
   * continues with the channels exchanged. Its exception is passed on as it is.
   */
  function ThenBothSwapped<V, S>(cv: Caps<V>, cs: Caps<S>, src: Run<V, S>,
                                apply: ValueAndSupplement<V, S> -> Result<ValueAndSupplement<V, S>>): (r: Run<S, V>)
    ensures PassesOnSwapped(src, r) && KeepsContext(src, r)
    ensures Continues(src.outcome) && Skipping(src.outcome.ctx) ==>
      r == WrapPipeLineResult(cs, cv, SupplementVal(src.outcome), Val(src.outcome), src.outcome.ctx, src.trace)
    ensures Running(src.outcome) && apply(Current(src.outcome)).Failure? ==>
      r == Raise(apply(Current(src.outcome)).error, src.outcome.ctx, src.trace)
    ensures Running(src.outcome) && apply(Current(src.outcome)).Success? ==>
      var after := Swapped(apply(Current(src.outcome)).value);
      r == Conclude(cs, cv, after, after, src.outcome.ctx, src.trace)
  {
    match ContinuePipeLineEntrySwap(src.outcome)
    case Break(b) => Run(b, src.trace)
    case Continue(p, ctx) =>
      if Skipping(ctx) then WrapPipeLineResult(cs, cv, p.val, p.supplementVal, ctx, src.trace)
      else match apply(Swapped(p))
        case Failure(e) => Raise(e, ctx, src.trace)
        case Success(after) => Conclude(cs, cv, Swapped(after), Swapped(after), ctx, src.trace)
  }

  /**
   * `Then(Action<TS, TV>)` and `Then(Action<IValueAndSupplement<TV, TS>>)`:
   * the action sees both channels; the pair it leaves is checked and
   * wrapped. Its exception is passed on as it is.
   */
  function ThenBoth<V, S>(cv: Caps<V>, cs: Caps<S>, src: Run<V, S>,
                         apply: ValueAndSupplement<V, S> -> Result<ValueAndSupplement<V, S>>): (r: Run<V, S>)
    ensures PassesOn(src, r) && KeepsContext(src, r)
    ensures Continues(src.outcome) && Skipping(src.outcome.ctx) ==>
      r == WrapPipeLineResult(cv, cs, Val(src.outcome), SupplementVal(src.outcome), src.outcome.ctx, src.trace)
    ensures Running(src.outcome) && apply(Current(src.outcome)).Failure? ==>
      r == Raise(apply(Current(src.outcome)).error, src.outcome.ctx, src.trace)
    ensures Running(src.outcome) && apply(Current(src.outcome)).Success? ==>
      var after := apply(Current(src.outcome)).value;
      r == Conclude(cv, cs, after, after, src.outcome.ctx, src.trace)
  {
    match ContinuePipeLineEntry(src.outcome)
    case Break(b) => Run(b, src.trace)
    case Continue(p, ctx) =>
      if Skipping(ctx) then WrapPipeLineResult(cv, cs, p.val, p.supplementVal, ctx, src.trace)
      else match apply(p)
        case Failure(e) => Raise(e, ctx, src.trace)
        case Success(after) => Conclude(cv, cs, after, after, ctx, src.trace)
  }

  /**
   * `Then(Func<IValueAndSupplement<TS, TV>, TV>)` as written: the result
   * becomes the value. `ret` is one variable shared by every invocation of
   * the built pipeline, so under a false `Iff` the value channel is whatever
   * an earlier invocation computed, or null on the first one. Returns the
   * new run and the variable's new content. Everywhere else the run is the
   * corrected overload's.
   */
  function ThenBothToValueAsWritten<V, S>(cv: Caps<V>, cs: Caps<S>, src: Run<V, S>,
                                         apply: ValueAndSupplement<S, V> -> Result<Call<ValueAndSupplement<S, V>, Nullable<V>>>,
                                         captured: Nullable<V>): (r: (Run<V, S>, Nullable<V>))
    ensures PassesOn(src, r.0) && KeepsContext(src, r.0)
    ensures Continues(src.outcome) && Skipping(src.outcome.ctx) ==>
      r == (WrapPipeLineResult(cv, cs, captured, SupplementVal(src.outcome), src.outcome.ctx, src.trace), captured)
    ensures !(Continues(src.outcome) && Skipping(src.outcome.ctx)) ==> r.0 == ThenBothToValue(cv, cs, src, apply)
    ensures Running(src.outcome) && apply(Swapped(Current(src.outcome))).Success? ==>
      r.1 == apply(Swapped(Current(src.outcome))).value.ret
    ensures !Running(src.outcome) ==> r.1 == captured
  {
    match ContinuePipeLineEntry(src.outcome)
    case Break(b) => (Run(b, src.trace), captured)
    case Continue(p, ctx) =>
      if Skipping(ctx) then (WrapPipeLineResult(cv, cs, captured, p.supplementVal, ctx, src.trace), captured)
      else match apply(Swapped(p))
        case Failure(e) => (Raise(e, ctx, src.trace), captured)
        case Success(call) =>
          (Conclude(cv, cs, Swapped(call.after), ValueAndSupplement(call.ret, call.after.val), ctx, src.trace), call.ret)
  }

  /**
   * `Then(Func<IValueAndSupplement<TS, TV>, TV>)`, with a skipped step
   * keeping the current value: the function sees both channels (supplement
   * first) and its result becomes the value. The pair it left behind is what
   * is checked. Its exception is passed on as it is.
   */
  function ThenBothToValue<V, S>(cv: Caps<V>, cs: Caps<S>, src: Run<V, S>,
                                apply: ValueAndSupplement<S, V> -> Result<Call<ValueAndSupplement<S, V>, Nullable<V>>>): (r: Run<V, S>)
    ensures PassesOn(src, r) && KeepsContext(src, r)
    ensures Continues(src.outcome) && Skipping(src.outcome.ctx) ==>
      r == WrapPipeLineResult(cv, cs, Val(src.outcome), SupplementVal(src.outcome), src.outcome.ctx, src.trace)
    ensures Running(src.outcome) && apply(Swapped(Current(src.outcome))).Failure? ==>
      r == Raise(apply(Swapped(Current(src.outcome))).error, src.outcome.ctx, src.trace)
    ensures Running(src.outcome) && apply(Swapped(Current(src.outcome))).Success? ==>
      var call := apply(Swapped(Current(src.outcome))).value;
      r == Conclude(cv, cs, Swapped(call.after), ValueAndSupplement(call.ret, call.after.val), src.outcome.ctx, src.trace)
  {
    match ContinuePipeLineEntry(src.outcome)
    case Break(b) => Run(b, src.trace)
    case Continue(p, ctx) =>
      if Skipping(ctx) then WrapPipeLineResult(cv, cs, p.val, p.supplementVal, ctx, src.trace)
      else match apply(Swapped(p))
        case Failure(e) => Raise(e, ctx, src.trace)
        case Success(call) => Conclude(cv, cs, Swapped(call.after), ValueAndSupplement(call.ret, call.after.val), ctx, src.trace)
  }

  /**
   * `Then(Func<IValueAndSupplement<TS, TV>, TS>)` as written: under a false
   * `Iff` the new supplement stays `default`, so the wrap refuses the null
   * supplement and the pipeline faults. Everywhere else it is the corrected
   * overload.
   */
  function ThenBothToSupplementAsWritten<V, S>(cv: Caps<V>, cs: Caps<S>, src: Run<V, S>,
                                              apply: ValueAndSupplement<S, V> -> Result<Call<ValueAndSupplement<S, V>, Nullable<S>>>): (r: Run<V, S>)
    ensures PassesOn(src, r) && KeepsContext(src, r)
    ensures Continues(src.outcome) && Skipping(src.outcome.ctx) ==>
      r == WrapPipeLineResult(cv, cs, Val(src.outcome), Null, src.outcome.ctx, src.trace)
    ensures !(Continues(src.outcome) && Skipping(src.outcome.ctx)) ==> r == ThenBothToSupplement(cv, cs, src, apply)
  {
    match ContinuePipeLineEntry(src.outcome)
    case Break(b) => Run(b, src.trace)
    case Continue(p, ctx) =>
      if Skipping(ctx) then WrapPipeLineResult(cv, cs, p.val, Null, ctx, src.trace)
      else match apply(Swapped(p))
        case Failure(e) => Raise(e, ctx, src.trace)
        case Success(call) =>
          var next := ValueAndSupplement(call.after.supplementVal, call.ret);
          Conclude(cv, cs, next, next, ctx, src.trace)
  }

  /**
   * `Then(Func<IValueAndSupplement<TS, TV>, TS>)`, with a skipped step
   * keeping the current supplement: the function sees both channels
   * (supplement first) and its result becomes the supplement; the new pair
   * is checked. Its exception is passed on as it is.
   */
  function ThenBothToSupplement<V, S>(cv: Caps<V>, cs: Caps<S>, src: Run<V, S>,
                                     apply: ValueAndSupplement<S, V> -> Result<Call<ValueAndSupplement<S, V>, Nullable<S>>>): (r: Run<V, S>)
    ensures PassesOn(src, r) && KeepsContext(src, r)
    ensures Continues(src.outcome) && Skipping(src.outcome.ctx) ==>
      r == WrapPipeLineResult(cv, cs, Val(src.outcome), SupplementVal(src.outcome), src.outcome.ctx, src.trace)
    ensures Running(src.outcome) && apply(Swapped(Current(src.outcome))).Failure? ==>
      r == Raise(apply(Swapped(Current(src.outcome))).error, src.outcome.ctx, src.trace)
    ensures Running(src.outcome) && apply(Swapped(Current(src.outcome))).Success? ==>
      var call := apply(Swapped(Current(src.outcome))).value;
      var next := ValueAndSupplement(call.after.supplementVal, call.ret);
      r == Conclude(cv, cs, next, next, src.outcome.ctx, src.trace)
  {
    match ContinuePipeLineEntry(src.outcome)
    case Break(b) => Run(b, src.trace)
    case Continue(p, ctx) =>
      if Skipping(ctx) then WrapPipeLineResult(cv, cs, p.val, p.supplementVal, ctx, src.trace)
      else match apply(Swapped(p))
        case Failure(e) => Raise(e, ctx, src.trace)
        case Success(call) =>
          var next := ValueAndSupplement(call.after.supplementVal, call.ret);
          Conclude(cv, cs, next, next, ctx, src.trace)
  }

  /**
   * `Then(Func<TS, TV>)` as written: the pipeline continues as
   * (supplement, result). Under a false `Iff` the result stays `default`,
   * so the wrap refuses it and the pipeline faults. Everywhere else it is the
   * corrected overload.
   */
  function ThenSupplementToValueAsWritten<V, S>(cv: Caps<V>, cs: Caps<S>, src: Run<V, S>,
                                               apply: Nullable<S> -> Result<Call<Nullable<S>, Nullable<V>>>): (r: Run<S, V>)
    ensures PassesOnSwapped(src, r) && KeepsContext(src, r)
    ensures Continues(src.outcome) && Skipping(src.outcome.ctx) ==>
      r == WrapPipeLineResult(cs, cv, SupplementVal(src.outcome), Null, src.outcome.ctx, src.trace)
    ensures !(Continues(src.outcome) && Skipping(src.outcome.ctx)) ==> r == ThenSupplementToValue(cv, cs, src, apply)
  {
    match ContinuePipeLineEntrySwap(src.outcome)
    case Break(b) => Run(b, src.trace)
    case Continue(p, ctx) =>
      if Skipping(ctx) then WrapPipeLineResult(cs, cv, p.val, Null, ctx, src.trace)
      else match apply(p.val)
        case Failure(e) => Raise(Rewrapped(e), ctx, src.trace)
        case Success(call) =>
          Conclude(cs, cv, ValueAndSupplement(call.after, p.supplementVal), ValueAndSupplement(call.after, call.ret), ctx, src.trace)
  }

  /**
   * `Then(Func<TS, TV>)`, with a skipped step keeping the current value:
   * the function maps the supplement to a new object of the value type and
   * the pipeline continues as (supplement, result). The old pair, as the
   * call left it, is what is checked; an exception is re-thrown as an
   * InvalidOperationException with the same message.
   */
  function ThenSupplementToValue<V, S>(cv: Caps<V>, cs: Caps<S>, src: Run<V, S>,
                                      apply: Nullable<S> -> Result<Call<Nullable<S>, Nullable<V>>>): (r: Run<S, V>)
    ensures PassesOnSwapped(src, r) && KeepsContext(src, r)
    ensures Continues(src.outcome) && Skipping(src.outcome.ctx) ==>
      r == WrapPipeLineResult(cs, cv, SupplementVal(src.outcome), Val(src.outcome), src.outcome.ctx, src.trace)
    ensures Running(src.outcome) && apply(SupplementVal(src.outcome)).Failure? ==>
      r == Raise(Rewrapped(apply(SupplementVal(src.outcome)).error), src.outcome.ctx, src.trace)
    ensures Running(src.outcome) && apply(SupplementVal(src.outcome)).Success? ==>
      var call := apply(SupplementVal(src.outcome)).value;
      r == Conclude(cs, cv, ValueAndSupplement(call.after, Val(src.outcome)), ValueAndSupplement(call.after, call.ret),
                    src.outcome.ctx, src.trace)
  {
    match ContinuePipeLineEntrySwap(src.outcome)
    case Break(b) => Run(b, src.trace)
    case Continue(p, ctx) =>
      if Skipping(ctx) then WrapPipeLineResult(cs, cv, p.val, p.supplementVal, ctx, src.trace)
      else match apply(p.val)
        case Failure(e) => Raise(Rewrapped(e), ctx, src.trace)
        case Success(call) =>
          Conclude(cs, cv, ValueAndSupplement(call.after, p.supplementVal), ValueAndSupplement(call.after, call.ret), ctx, src.trace)
  }

  /**
   * `Then(Func<TV, TS>)` as written: under a false `Iff` the new supplement
   * stays `default`, so the wrap refuses it and the pipeline faults.
   * Everywhere else it is the corrected overload.
   */
  function ThenValueToSupplementAsWritten<V, S>(cv: Caps<V>, cs: Caps<S>, src: Run<V, S>,
                                               apply: Nullable<V> -> Result<Call<Nullable<V>, Nullable<S>>>): (r: Run<V, S>)
    ensures PassesOn(src, r) && KeepsContext(src, r)
    ensures Continues(src.outcome) && Skipping(src.outcome.ctx) ==>
      r == WrapPipeLineResult(cv, cs, Val(src.outcome), Null, src.outcome.ctx, src.trace)
    ensures !(Continues(src.outcome) && Skipping(src.outcome.ctx)) ==> r == ThenValueToSupplement(cv, cs, src, apply)
  {
    match ContinuePipeLineEntry(src.outcome)
    case Break(b) => Run(b, src.trace)
    case Continue(p, ctx) =>
      if Skipping(ctx) then WrapPipeLineResult(cv, cs, p.val, Null, ctx, src.trace)
      else match apply(p.val)
        case Failure(e) => Raise(Rewrapped(e), ctx, src.trace)
        case Success(call) =>
          Conclude(cv, cs, ValueAndSupplement(call.after, p.supplementVal), ValueAndSupplement(call.after, call.ret), ctx, src.trace)
  }

  /**
   * `Then(Func<TV, TS>)`, with a skipped step keeping the current
   * supplement: the function maps the value to a new supplement. The old
   * pair, as the call left it, is what is checked; an exception is re-thrown
   * as an InvalidOperationException with the same message.
   */
  function ThenValueToSupplement<V, S>(cv: Caps<V>, cs: Caps<S>, src: Run<V, S>,
                                      apply: Nullable<V> -> Result<Call<Nullable<V>, Nullable<S>>>): (r: Run<V, S>)
    ensures PassesOn(src, r) && KeepsContext(src, r)
    ensures Continues(src.outcome) && Skipping(src.outcome.ctx) ==>
      r == WrapPipeLineResult(cv, cs, Val(src.outcome), SupplementVal(src.outcome), src.outcome.ctx, src.trace)
    ensures Running(src.outcome) && apply(Val(src.outcome)).Failure? ==>
      r == Raise(Rewrapped(apply(Val(src.outcome)).error), src.outcome.ctx, src.trace)
    ensures Running(src.outcome) && apply(Val(src.outcome)).Success? ==>
      var call := apply(Val(src.outcome)).value;
      r == Conclude(cv, cs, ValueAndSupplement(call.after, SupplementVal(src.outcome)), ValueAndSupplement(call.after, call.ret),
                    src.outcome.ctx, src.trace)
  {
    match ContinuePipeLineEntry(src.outcome)
    case Break(b) => Run(b, src.trace)
    case Continue(p, ctx) =>
      if Skipping(ctx) then WrapPipeLineResult(cv, cs, p.val, p.supplementVal, ctx, src.trace)
      else match apply(p.val)
        case Failure(e) => Raise(Rewrapped(e), ctx, src.trace)
        case Success(call) =>
          Conclude(cv, cs, ValueAndSupplement(call.after, p.supplementVal), ValueAndSupplement(call.after, call.ret), ctx, src.trace)
  }

  /**
   * `Then(Func<TS, TS>)`: the function works on the supplement in place and
   * what it returns is discarded; the supplement as the call left it is
   * checked and kept. An exception is re-thrown as an InvalidOperationException.
   */
  function ThenSupplementFunc<V, S>(cv: Caps<V>, cs: Caps<S>, src: Run<V, S>,
                                   apply: Nullable<S> -> Result<Call<Nullable<S>, Nullable<S>>>): (r: Run<V, S>)
    ensures PassesOn(src, r) && KeepsContext(src, r)
    ensures Continues(src.outcome) && Skipping(src.outcome.ctx) ==>
      r == WrapPipeLineResult(cv, cs, Val(src.outcome), SupplementVal(src.outcome), src.outcome.ctx, src.trace)
    ensures Running(src.outcome) && apply(SupplementVal(src.outcome)).Failure? ==>
      r == Raise(Rewrapped(apply(SupplementVal(src.outcome)).error), src.outcome.ctx, src.trace)
    ensures Running(src.outcome) && apply(SupplementVal(src.outcome)).Success? ==>
      var next := ValueAndSupplement(Val(src.outcome), apply(SupplementVal(src.outcome)).value.after);
      r == Conclude(cv, cs, next, next, src.outcome.ctx, src.trace)
  {
    match ContinuePipeLineEntry(src.outcome)
    case Break(b) => Run(b, src.trace)
    case Continue(p, ctx) =>
      if Skipping(ctx) then WrapPipeLineResult(cv, cs, p.val, p.supplementVal, ctx, src.trace)
      else match apply(p.supplementVal)
        case Failure(e) => Raise(Rewrapped(e), ctx, src.trace)
        case Success(call) =>
          var next := ValueAndSupplement(p.val, call.after);
          Conclude(cv, cs, next, next, ctx, src.trace)
  }

  /**
   * `Then(Action<TS>)`: the action works on the supplement in place; the
   * supplement it leaves is checked and kept. An exception is re-thrown as
   * an InvalidOperationException.
   */
  function ThenSupplement<V, S>(cv: Caps<V>, cs: Caps<S>, src: Run<V, S>,
                               apply: Nullable<S> -> Result<Nullable<S>>): (r: Run<V, S>)
    ensures PassesOn(src, r) && KeepsContext(src, r)
    ensures Continues(src.outcome) && Skipping(src.outcome.ctx) ==>
      r == WrapPipeLineResult(cv, cs, Val(src.outcome), SupplementVal(src.outcome), src.outcome.ctx, src.trace)
    ensures Running(src.outcome) && apply(SupplementVal(src.outcome)).Failure? ==>
      r == Raise(Rewrapped(apply(SupplementVal(src.outcome)).error), src.outcome.ctx, src.trace)
    ensures Running(src.outcome) && apply(SupplementVal(src.outcome)).Success? ==>
      var next := ValueAndSupplement(Val(src.outcome), apply(SupplementVal(src.outcome)).value);
      r == Conclude(cv, cs, next, next, src.outcome.ctx, src.trace)
  {
    match ContinuePipeLineEntry(src.outcome)
    case Break(b) => Run(b, src.trace)
    case Continue(p, ctx) =>
      if Skipping(ctx) then WrapPipeLineResult(cv, cs, p.val, p.supplementVal, ctx, src.trace)
      else match apply(p.supplementVal)
        case Failure(e) => Raise(Rewrapped(e), ctx, src.trace)
        case Success(after) =>
          var next := ValueAndSupplement(p.val, after);
          Conclude(cv, cs, next, next, ctx, src.trace)
  }

  /**
   * `Then(Func<TV, TV>)`: the returned object becomes the value; under a
   * false `Iff` the value is kept. The resulting pair is checked in both
   * cases. An exception is re-thrown as an InvalidOperationException.
   */
  function ThenValueFunc<V, S>(cv: Caps<V>, cs: Caps<S>, src: Run<V, S>,
                              apply: Nullable<V> -> Result<Nullable<V>>): (r: Run<V, S>)
    ensures PassesOn(src, r) && KeepsContext(src, r)
    ensures Continues(src.outcome) && Skipping(src.outcome.ctx) ==>
      r == Conclude(cv, cs, Current(src.outcome), Current(src.outcome), src.outcome.ctx, src.trace)
    ensures Running(src.outcome) && apply(Val(src.outcome)).Failure? ==>
      r == Raise(Rewrapped(apply(Val(src.outcome)).error), src.outcome.ctx, src.trace)
    ensures Running(src.outcome) && apply(Val(src.outcome)).Success? ==>
      var next := ValueAndSupplement(apply(Val(src.outcome)).value, SupplementVal(src.outcome));
      r == Conclude(cv, cs, next, next, src.outcome.ctx, src.trace)
  {
    match ContinuePipeLineEntry(src.outcome)
    case Break(b) => Run(b, src.trace)
    case Continue(p, ctx) =>
      if Skipping(ctx) then Conclude(cv, cs, p, p, ctx, src.trace)
      else match apply(p.val)
        case Failure(e) => Raise(Rewrapped(e), ctx, src.trace)
        case Success(ret) =>
          var next := ValueAndSupplement(ret, p.supplementVal);
          Conclude(cv, cs, next, next, ctx, src.trace)
  }

  /**
   * `Then(Action<TV>)`: the action works on the value in place; the value it
   * leaves is checked and kept. An exception is re-thrown as an
   * InvalidOperationException.
   */
  function ThenValue<V, S>(cv: Caps<V>, cs: Caps<S>, src: Run<V, S>,
                          apply: Nullable<V> -> Result<Nullable<V>>): (r: Run<V, S>)
    ensures PassesOn(src, r) && KeepsContext(src, r)
    ensures Continues(src.outcome) && Skipping(src.outcome.ctx) ==>
      r == WrapPipeLineResult(cv, cs, Val(src.outcome), SupplementVal(src.outcome), src.outcome.ctx, src.trace)
    ensures Running(src.outcome) && apply(Val(src.outcome)).Failure? ==>
      r == Raise(Rewrapped(apply(Val(src.outcome)).error), src.outcome.ctx, src.trace)
    ensures Running(src.outcome) && apply(Val(src.outcome)).Success? ==>
      var next := ValueAndSupplement(apply(Val(src.outcome)).value, SupplementVal(src.outcome));
      r == Conclude(cv, cs, next, next, src.outcome.ctx, src.trace)
  {
    match ContinuePipeLineEntry(src.outcome)
    case Break(b) => Run(b, src.trace)
    case Continue(p, ctx) =>
      if Skipping(ctx) then WrapPipeLineResult(cv, cs, p.val, p.supplementVal, ctx, src.trace)
      else match apply(p.val)
        case Failure(e) => Raise(Rewrapped(e), ctx, src.trace)
        case Success(after) =>
          var next := ValueAndSupplement(after, p.supplementVal);
          Conclude(cv, cs, next, next, ctx, src.trace)
  }
}
