/**
 * The `Init` overloads of the `Pipe` class (Piping/Pipe.cs, region init):
 * each starts a pipeline from an input object, refusing an invalid input,
 * and builds the supplement channel.
 */
module PipeInit {
  import opened Basics
  import opened Invariant
  import opened ValueAndSupplement
  import opened PipeOption
  import opened PipeBase
  import opened Option

  /**
   * A built pipeline (the `ToValueSupplementValue` delegate): invoked with an
   * input object it gives an outcome, with the lines its own hooks logged.
   */
  type Segment<!I, V, S> = Nullable<I> -> Run<V, S>

  /** `Unit` neither implements IInvariant nor is exposed to hooks. */
  const UnitCaps: Caps<Unit> := Caps(_ => NotInvariant, _ => Hidden)

  /** The Validation outcome every Init returns for an invalid input: it drops the hooks. */
  function InvalidInput<I, S>(ci: Caps<I>, i: Nullable<I>, supplement: Nullable<S>, t: Trace): (r: Run<I, S>)
    requires Invalid(ci, i)
    ensures r.outcome.Validation? && r.outcome.pair == ValueAndSupplement(i, supplement) && r.outcome.ctx == EmptyOption
    ensures r.outcome.result.errorMessage == ci.validity(i.value).error && r.trace == t
  {
    Run(Validation(ValueAndSupplement(i, supplement), EmptyOption, ToValidationResult(ci.validity(i.value))), t)
  }

  /**
   * `Init()` and, with the invalid-input case returning `Validation`,
   * `Init(postProcessings)`: a `Unit` supplement. An invalid input gives
   * `Validation`; a null input makes `Equals` throw; otherwise the hooks run
   * on the input and the pipeline starts as `Some(input, Unit)`.
   */
  function InitUnit<I>(ci: Caps<I>, equals: (I, Unit) -> bool, i: Nullable<I>, hooks: Nullable<seq<Hook>>, t: Trace): (r: Run<I, Unit>)
    ensures r.outcome.ctx.conditionIsMet == Unset && t <= r.trace
    ensures Invalid(ci, i) ==> r == InvalidInput(ci, i, NonNull(Unit), t)
    ensures i.Null? ==> r == Raise(NullReferenceFault, PipeOption(Unset, hooks), t)
    ensures i.NonNull? && !Invalid(ci, i) && equals(i.value, Unit) ==>
      r == Raise(Fault(InvalidOperation, NewInstanceMessage), PipeOption(Unset, hooks), t)
    ensures i.NonNull? && !Invalid(ci, i) && !equals(i.value, Unit) ==>
      r.trace == Extensions(ci, PipeOption(Unset, hooks), i, t).trace
      && (r.outcome.Some? <==> Extensions(ci, PipeOption(Unset, hooks), i, t).Completed?)
    ensures i.NonNull? && !Invalid(ci, i) && !equals(i.value, Unit) && Extensions(ci, PipeOption(Unset, hooks), i, t).Faulted? ==>
      r == Raise(Extensions(ci, PipeOption(Unset, hooks), i, t).fault, PipeOption(Unset, hooks), Extensions(ci, PipeOption(Unset, hooks), i, t).trace)
    ensures r.outcome.Some? ==> r.outcome == Some(ValueAndSupplement(i, NonNull(Unit)), PipeOption(Unset, hooks))
    ensures !r.outcome.None?
  {
    if TestInputIsInvariant(ci, i) then InvalidInput(ci, i, NonNull(Unit), t)
    else WrapPipeLineResultInit(ci, UnitCaps, equals, Success(NonNull(Unit)), i, PipeOption(Unset, hooks), true, t)
  }

  /**
   * `Init(postProcessings)` as written: an invalid input is not refused but
   * starts the pipeline as `Some`, with the hooks dropped.
   */
  function InitHooksAsWritten<I>(ci: Caps<I>, equals: (I, Unit) -> bool, i: Nullable<I>, hooks: seq<Hook>, t: Trace): (r: Run<I, Unit>)
    ensures Invalid(ci, i) ==> r == Run(Some(ValueAndSupplement(i, NonNull(Unit)), EmptyOption), t)
    ensures !Invalid(ci, i) ==> r == InitUnit(ci, equals, i, NonNull(hooks), t)
  {
    if TestInputIsInvariant(ci, i) then Run(Some(ValueAndSupplement(i, NonNull(Unit)), EmptyOption), t)
    else WrapPipeLineResultInit(ci, UnitCaps, equals, Success(NonNull(Unit)), i, PipeOption(Unset, NonNull(hooks)), true, t)
  }

  /** The input that shows the difference: an invalid input reaches the rest of the pipeline as `Some`. */
  lemma InitHooksAsWrittenLetsInvalidThrough<I>(ci: Caps<I>, equals: (I, Unit) -> bool, i: Nullable<I>, hooks: seq<Hook>, t: Trace)
    requires Invalid(ci, i)
    ensures InitHooksAsWritten(ci, equals, i, hooks, t).outcome.Some?
    ensures InitUnit(ci, equals, i, NonNull(hooks), t).outcome.Validation?
  {
  }

  /**
   * `Init(Func<TV> init)` and `Init(init, postProcessings)`: the supplement
   * is the factory's object. An invalid input gives `Validation` without
   * calling the factory; the factory's exception, a null input and a factory
   * result equal to the input give `SomeException`; a null factory result
   * gives `None`; otherwise the hooks run on both channels.
   */
  function InitFactory<I, S>(ci: Caps<I>, cs: Caps<S>, equals: (I, S) -> bool, i: Nullable<I>, init: Result<Nullable<S>>,
                            hooks: Nullable<seq<Hook>>, t: Trace): (r: Run<I, S>)
    ensures r.outcome.ctx.conditionIsMet == Unset && t <= r.trace
    ensures Invalid(ci, i) ==> r == InvalidInput(ci, i, Null, t)
    ensures !Invalid(ci, i) && init.Failure? ==> r == Raise(init.error, PipeOption(Unset, hooks), t)
    ensures !Invalid(ci, i) && init.Success? && i.Null? ==> r == Raise(NullReferenceFault, PipeOption(Unset, hooks), t)
    ensures !Invalid(ci, i) && init.Success? && i.NonNull? && init.value.NonNull? && equals(i.value, init.value.value) ==>
      r == Raise(Fault(InvalidOperation, NewInstanceMessage), PipeOption(Unset, hooks), t)
    ensures r.outcome.Some? ==> r.outcome == Some(ValueAndSupplement(i, init.value), PipeOption(Unset, hooks)) && init.value.NonNull?
    ensures r.outcome.None? ==> init == Success(Null) && r.outcome.ctx == PipeOption(Unset, hooks)
    ensures (r.outcome.Some? || r.outcome.None?) ==> r.trace == HooksOnBoth(ci, cs, PipeOption(Unset, hooks), i, init.value, t).trace
    ensures !Invalid(ci, i) && init.Success? && i.NonNull? && !(init.value.NonNull? && equals(i.value, init.value.value)) ==>
      var ctx := PipeOption(Unset, hooks);
      var h := HooksOnBoth(ci, cs, ctx, i, init.value, t);
      (h.Faulted? ==> r == Raise(h.fault, ctx, h.trace))
      && (h.Completed? && init.value.Null? ==> r == Run(None(ctx), h.trace))
      && (h.Completed? && init.value.NonNull? ==> r == Run(Some(ValueAndSupplement(i, init.value), ctx), h.trace))
  {
    if TestInputIsInvariant(ci, i) then InvalidInput(ci, i, Null, t)
    else WrapPipeLineResultInit(ci, cs, equals, init, i, PipeOption(Unset, hooks), true, t)
  }

  /** `Init<TW, TR>(Func<TR>)` as a pipeline delegate, as the `Transform` overloads build it. */
  function InitFactorySegment<I, S>(ci: Caps<I>, cs: Caps<S>, equals: (I, S) -> bool, init: Result<Nullable<S>>): (seg: Segment<I, I, S>)
  {
    i => InitFactory(ci, cs, equals, i, init, Null, [])
  }

  /**
   * `Init(Func<TI, TV> init)` and `Init(init, postProcessings)`: the
   * supplement is computed from the input. No hook runs here. An invalid
   * input gives `Validation` without calling `init`; its exception and a
   * null input give `SomeException` with the hooks kept; a result equal to
   * the input gives `SomeException` with an empty context; a null result
   * gives `None`.
   */
  function InitFunc<I, S>(ci: Caps<I>, equals: (I, S) -> bool, i: Nullable<I>, init: Nullable<I> -> Result<Nullable<S>>,
                         hooks: Nullable<seq<Hook>>, t: Trace): (r: Run<I, S>)
    ensures r.trace == t && r.outcome.ctx.conditionIsMet == Unset
    ensures Invalid(ci, i) ==> r == InvalidInput(ci, i, Null, t)
    ensures !Invalid(ci, i) && init(i).Failure? ==> r == Raise(init(i).error, PipeOption(Unset, hooks), t)
    ensures !Invalid(ci, i) && init(i).Success? && i.Null? ==> r == Raise(NullReferenceFault, PipeOption(Unset, hooks), t)
    ensures !Invalid(ci, i) && init(i).Success? && i.NonNull? && init(i).value.NonNull? && equals(i.value, init(i).value.value) ==>
      r == Raise(Fault(InvalidOperation, NewInstanceMessage), EmptyOption, t)
    ensures r.outcome.None? <==> !Invalid(ci, i) && i.NonNull? && init(i) == Success(Null)
    ensures r.outcome.Some? <==> !Invalid(ci, i) && i.NonNull? && init(i).Success? && init(i).value.NonNull? && !equals(i.value, init(i).value.value)
    ensures r.outcome.Some? ==> r.outcome == Some(ValueAndSupplement(i, init(i).value), PipeOption(Unset, hooks))
    ensures r.outcome.None? ==> r.outcome.ctx == PipeOption(Unset, hooks)
  {
    var ctx := PipeOption(Unset, hooks);
    if TestInputIsInvariant(ci, i) then InvalidInput(ci, i, Null, t)
    else match init(i)
      case Failure(e) => Raise(e, ctx, t)
      case Success(nv) =>
        if i.Null? then Raise(NullReferenceFault, ctx, t)
        else if nv.NonNull? && equals(i.value, nv.value) then Raise(Fault(InvalidOperation, NewInstanceMessage), EmptyOption, t)
        else if nv.Null? then Run(None(ctx), t)
        else Run(Some(ValueAndSupplement(i, nv), ctx), t)
  }

  /** Every Init refuses a null input: the pipeline starts as an exception. */
  lemma NullInputNeverStarts<I, S>(ci: Caps<I>, cs: Caps<S>, eu: (I, Unit) -> bool, es: (I, S) -> bool,
                                   hooks: Nullable<seq<Hook>>, factory: Result<Nullable<S>>,
                                   init: Nullable<I> -> Result<Nullable<S>>, t: Trace)
    ensures InitUnit(ci, eu, Null, hooks, t).outcome.SomeException?
    ensures InitFactory(ci, cs, es, Null, factory, hooks, t).outcome.SomeException?
    ensures InitFunc(ci, es, Null, init, hooks, t).outcome.SomeException?
  {
  }
}
