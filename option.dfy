/**
 * The four-way outcome of a pipeline step and the shared machinery every
 * combinator goes through (Piping/Option.cs): the accessors, the invariant
 * checks, wrapping a result (null checks and hooks) and deciding whether a
 * step runs at all.
 */
module Option {
  import opened Basics
  import opened Invariant
  import opened ValueAndSupplement
  import opened PipeOption
  import opened PipeBase
  import OT = OptionType

  /**
   * The outcome classes `Some`, `None`, `SomeException` and `Validation`.
   * Every outcome carries the branch context it was built with.
   */
  datatype Outcome<V, S> =
    | Some(pair: ValueAndSupplement<V, S>, ctx: PipeOption)
    | None(ctx: PipeOption)
    | SomeException(error: Fault, ctx: PipeOption)
    | Validation(pair: ValueAndSupplement<V, S>, ctx: PipeOption, result: ValidationResult)

  /** An outcome together with everything the hooks have logged up to it. */
  datatype Run<V, S> = Run(outcome: Outcome<V, S>, trace: Trace)

  const BothNullMessage := "Null values for value and supplemented value are not allowed!"
  const SupplementNullMessage := "Null values for supplemented value is not allowed!"
  const NewInstanceMessage := "The Init function must create a new instance of an object"

  /** `GetOptionType`: the variant tag. */
  function GetOptionType<V, S>(o: Outcome<V, S>): (t: OT.OptionType)
    ensures (t == OT.None) == o.None? && (t == OT.Some) == o.Some?
    ensures (t == OT.Exception) == o.SomeException? && (t == OT.Validation) == o.Validation?
  {
    match o
    case Some(_, _) => OT.Some
    case None(_) => OT.None
    case SomeException(_, _) => OT.Exception
    case Validation(_, _, _) => OT.Validation
  }

  /** `Val`: the value channel of `Some` and `Validation`, and `default` (null) otherwise. */
  function Val<V, S>(o: Outcome<V, S>): (v: Nullable<V>)
    ensures (o.Some? || o.Validation?) ==> v == o.pair.val
    ensures (o.None? || o.SomeException?) ==> v.Null?
  {
    if o.Some? || o.Validation? then o.pair.val else Null
  }

  /** `SupplementVal`: the supplement channel of `Some` and `Validation`, and null otherwise. */
  function SupplementVal<V, S>(o: Outcome<V, S>): (s: Nullable<S>)
    ensures (o.Some? || o.Validation?) ==> s == o.pair.supplementVal
    ensures (o.None? || o.SomeException?) ==> s.Null?
  {
    if o.Some? || o.Validation? then o.pair.supplementVal else Null
  }

  /** `ExceptionVal`: the carried exception; reading it from any other variant throws. */
  function ExceptionVal<V, S>(o: Outcome<V, S>): (r: Result<Fault>)
    ensures r.Success? <==> o.SomeException?
    ensures r.Success? ==> r.value == o.error
    ensures r.Failure? ==> r.error.kind == InvalidOperation
  {
    if o.SomeException? then Success(o.error) else Failure(Fault(InvalidOperation, InvalidOperationMessage))
  }

  /** `ValidationResult`: the carried validation result; reading it from any other variant throws. */
  function ValidationResultOf<V, S>(o: Outcome<V, S>): (r: Result<ValidationResult>)
    ensures r.Success? <==> o.Validation?
    ensures r.Success? ==> r.value == o.result
    ensures r.Failure? ==> r.error.kind == InvalidOperation
  {
    if o.Validation? then Success(o.result) else Failure(Fault(InvalidOperation, InvalidOperationMessage))
  }

  /** The variants after which a step still runs: `None` is among them, because the engine never detects it. */
  predicate Continues<V, S>(o: Outcome<V, S>)
  {
    o.Some? || o.None?
  }

  /** The pair a continuing step reads from its input outcome. */
  function Current<V, S>(o: Outcome<V, S>): (p: ValueAndSupplement<V, S>)
    ensures o.Some? ==> p == o.pair
    ensures o.None? ==> p == Nulls()
  {
    ValueAndSupplement(Val(o), SupplementVal(o))
  }

  /** A value that is not null, implements IInvariant and reports itself invalid. */
  predicate Invalid<T>(c: Caps<T>, x: Nullable<T>)
  {
    x.NonNull? && IsInvalid(c.validity(x.value))
  }

  /** `TestInputIsInvariant`: the Init input is an invalid IInvariant object. */
  function TestInputIsInvariant<I>(c: Caps<I>, input: Nullable<I>): (b: bool)
    ensures b <==> input.NonNull? && c.validity(input.value).Invariant? && !c.validity(input.value).isValid
  {
    Invalid(c, input)
  }

  /** The second result of `ValidateIsValid`: the pair passes, or the Validation outcome to return instead. */
  datatype Validated<A, B> = IsValid | Invalidated(validation: Outcome<A, B>)

  /**
   * `ValidateIsValid`: the pair fails when either channel is an invalid
   * IInvariant object; the value channel is checked first and its error is
   * reported. The Validation outcome keeps the pair and drops the context.
   */
  function ValidateIsValid<A, B>(ca: Caps<A>, cb: Caps<B>, p: ValueAndSupplement<A, B>): (r: Validated<A, B>)
    ensures r.IsValid? <==> !Invalid(ca, p.val) && !Invalid(cb, p.supplementVal)
    ensures r.Invalidated? ==> r.validation.Validation? && r.validation.pair == p && r.validation.ctx == EmptyOption
    ensures Invalid(ca, p.val) ==> r.validation.result.errorMessage == ca.validity(p.val.value).error
    ensures !Invalid(ca, p.val) && Invalid(cb, p.supplementVal) ==>
      r.validation.result.errorMessage == cb.validity(p.supplementVal.value).error
  {
    if Invalid(ca, p.val) then
      Invalidated(Validation(p, EmptyOption, ToValidationResult(ca.validity(p.val.value))))
    else if Invalid(cb, p.supplementVal) then
      Invalidated(Validation(p, EmptyOption, ToValidationResult(cb.validity(p.supplementVal.value))))
    else IsValid
  }

  /** The exception outcome a step builds for a caught exception. */
  function Raise<V, S>(e: Fault, ctx: PipeOption, t: Trace): (r: Run<V, S>)
    ensures r.outcome.SomeException? && r.outcome.error == e && r.outcome.ctx == ctx && r.trace == t
  {
    Run(SomeException(e, ctx), t)
  }

  /**
   * Post-process both channels with the context's hooks, value first; the
   * first hook exception stops both loops.
   */
  function HooksOnBoth<A, B>(ca: Caps<A>, cb: Caps<B>, ctx: PipeOption, v: Nullable<A>, s: Nullable<B>, t: Trace): (r: HooksRun)
    ensures t <= r.trace
    ensures Extensions(ca, ctx, v, t).Faulted? ==> r == Extensions(ca, ctx, v, t)
    ensures Extensions(ca, ctx, v, t).Completed? ==> r == Extensions(cb, ctx, s, Extensions(ca, ctx, v, t).trace)
  {
    var first := Extensions(ca, ctx, v, t);
    if first.Faulted? then first else Extensions(cb, ctx, s, first.trace)
  }

  /**
   * `WrapPipeLineResult(value, supplementedValue, pipeOption)`: refuse a null
   * supplement (with its own message when both channels are null), otherwise
   * run the hooks on both channels and give `Some` of exactly that pair.
   * The context is kept whatever happens.
   */
  function WrapPipeLineResult<A, B>(ca: Caps<A>, cb: Caps<B>, v: Nullable<A>, s: Nullable<B>, ctx: PipeOption, t: Trace): (r: Run<A, B>)
    ensures r.outcome.ctx == ctx && t <= r.trace
    ensures r.outcome.Some? || r.outcome.SomeException?
    ensures v.Null? && s.Null? ==> r == Raise(Fault(InvalidOperation, BothNullMessage), ctx, t)
    ensures v.NonNull? && s.Null? ==> r == Raise(Fault(InvalidOperation, SupplementNullMessage), ctx, t)
    ensures s.NonNull? ==> r.trace == HooksOnBoth(ca, cb, ctx, v, s, t).trace
    ensures r.outcome.Some? <==> s.NonNull? && HooksOnBoth(ca, cb, ctx, v, s, t).Completed?
    ensures r.outcome.Some? ==> r.outcome.pair == ValueAndSupplement(v, s)
    ensures s.NonNull? && r.outcome.SomeException? ==> r.outcome.error == HooksOnBoth(ca, cb, ctx, v, s, t).fault
  {
    if v.Null? && s.Null? then Raise(Fault(InvalidOperation, BothNullMessage), ctx, t)
    else if s.Null? then Raise(Fault(InvalidOperation, SupplementNullMessage), ctx, t)
    else
      var hooks := HooksOnBoth(ca, cb, ctx, v, s, t);
      if hooks.Faulted? then Raise(hooks.fault, ctx, hooks.trace)
      else Run(Some(ValueAndSupplement(v, s), ctx), hooks.trace)
  }

  /**
   * `WrapPipeLineResult(init, value, pipeOption, isInit)`: call the factory
   * (its exception becomes the outcome); for an Init, a null input makes
   * `Equals` throw and a factory result equal to the input is refused; then
   * the hooks run on both channels, and a null factory result gives `None`.
   */
  function WrapPipeLineResultInit<I, A>(ci: Caps<I>, ca: Caps<A>, equals: (I, A) -> bool, init: Result<Nullable<A>>,
                                       value: Nullable<I>, ctx: PipeOption, isInit: bool, t: Trace): (r: Run<I, A>)
    ensures r.outcome.ctx == ctx && t <= r.trace
    ensures r.outcome.Some? || r.outcome.None? || r.outcome.SomeException?
    ensures init.Failure? ==> r == Raise(init.error, ctx, t)
    ensures init.Success? && isInit && value.Null? ==> r == Raise(NullReferenceFault, ctx, t)
    ensures init.Success? && isInit && value.NonNull? && init.value.NonNull? && equals(value.value, init.value.value) ==>
      r == Raise(Fault(InvalidOperation, NewInstanceMessage), ctx, t)
    ensures r.outcome.Some? ==> init.Success? && init.value.NonNull? && r.outcome.pair == ValueAndSupplement(value, init.value)
    ensures r.outcome.None? ==> init.Success? && init.value.Null?
    ensures (r.outcome.Some? || r.outcome.None?) ==> r.trace == HooksOnBoth(ci, ca, ctx, value, init.value, t).trace
    ensures init.Success? && !(isInit && value.Null?)
            && !(isInit && value.NonNull? && init.value.NonNull? && equals(value.value, init.value.value)) ==>
      var h := HooksOnBoth(ci, ca, ctx, value, init.value, t);
      (h.Faulted? ==> r == Raise(h.fault, ctx, h.trace))
      && (h.Completed? && init.value.Null? ==> r == Run(None(ctx), h.trace))
      && (h.Completed? && init.value.NonNull? ==> r == Run(Some(ValueAndSupplement(value, init.value), ctx), h.trace))
  {
    match init
    case Failure(e) => Raise(e, ctx, t)
    case Success(nv) =>
      if isInit && value.Null? then Raise(NullReferenceFault, ctx, t)
      else if isInit && nv.NonNull? && equals(value.value, nv.value) then
        Raise(Fault(InvalidOperation, NewInstanceMessage), ctx, t)
      else
        var hooks := HooksOnBoth(ci, ca, ctx, value, nv, t);
        if hooks.Faulted? then Raise(hooks.fault, ctx, hooks.trace)
        else if nv.Null? then Run(None(ctx), hooks.trace)
        else Run(Some(ValueAndSupplement(value, nv), ctx), hooks.trace)
  }

  /**
   * What `ContinuePipeLineEntry` hands a step: the outcome to return at once,
   * or the pair to work on together with the input's context.
   */
  datatype Entry<C, D> = Break(outcome: Outcome<C, D>) | Continue(input: ValueAndSupplement<C, D>, ctx: PipeOption)

  /**
   * `ContinuePipeLineEntry`, same channel order: an exception or a validation
   * failure is passed on unchanged; `Some` continues with its pair and
   * `None`, which is never recognised, continues with two nulls.
   */
  function ContinuePipeLineEntry<A, B>(o: Outcome<A, B>): (r: Entry<A, B>)
    ensures r.Continue? <==> Continues(o)
    ensures r.Continue? ==> r.input == Current(o) && r.ctx == o.ctx
    ensures o.SomeException? ==> r == Break(SomeException(o.error, o.ctx))
    ensures o.Validation? ==> r == Break(o)
  {
    match o
    case SomeException(e, ctx) => Break(SomeException(e, ctx))
    case Validation(p, ctx, res) => Break(Validation(p, ctx, res))
    case _ => Continue(ValueAndSupplement(Val(o), SupplementVal(o)), o.ctx)
  }

  /** `ContinuePipeLineEntry`, swapping form: like the same-order form, with the channels exchanged. */
  function ContinuePipeLineEntrySwap<A, B>(o: Outcome<A, B>): (r: Entry<B, A>)
    ensures r.Continue? <==> Continues(o)
    ensures r.Continue? ==> r.input == Swapped(Current(o)) && r.ctx == o.ctx
    ensures o.SomeException? ==> r == Break(SomeException(o.error, o.ctx))
    ensures o.Validation? ==> r == Break(Validation(Swapped(o.pair), o.ctx, o.result))
  {
    match o
    case SomeException(e, ctx) => Break(SomeException(e, ctx))
    case Validation(p, ctx, res) => Break(Validation(Swapped(p), ctx, res))
    case _ => Continue(ValueAndSupplement(SupplementVal(o), Val(o)), o.ctx)
  }

  /**
   * `ContinuePipeLineEntry`, converting form (used by `Transform`): the
   * validation failure keeps its message but not its pair, and a continuing
   * step reads the input outcome itself; the pair handed over is two nulls.
   */
  function ContinuePipeLineEntryConvert<A, B, C, D>(o: Outcome<A, B>): (r: Entry<C, D>)
    ensures r.Continue? <==> Continues(o)
    ensures r.Continue? ==> r.input == Nulls() && r.ctx == o.ctx
    ensures o.SomeException? ==> r == Break(SomeException(o.error, o.ctx))
    ensures o.Validation? ==> r == Break(Validation(Nulls(), o.ctx, o.result))
  {
    match o
    case SomeException(e, ctx) => Break(SomeException(e, ctx))
    case Validation(_, ctx, res) => Break(Validation(ValueAndSupplement(Null, Null), ctx, res))
    case _ => Continue(ValueAndSupplement(Null, Null), o.ctx)
  }

  /**
   * When every hook accepts both channels, a wrap of a non-null supplement
   * gives `Some` of exactly that pair, and the hooks log the value's lines
   * and then the supplement's.
   */
  lemma WrapWhenHooksAccept<A, B>(ca: Caps<A>, cb: Caps<B>, v: Nullable<A>, s: Nullable<B>, ctx: PipeOption, t: Trace)
    requires s.NonNull? && HooksAccept(ca, ctx, v) && HooksAccept(cb, ctx, s)
    ensures WrapPipeLineResult(ca, cb, v, s, ctx, t) == Run(Some(ValueAndSupplement(v, s), ctx), t + Logged(ca, ctx, v) + Logged(cb, ctx, s))
  {
    ExtensionsWhenAccepted(ca, ctx, v, t);
    ExtensionsWhenAccepted(cb, ctx, s, t + Logged(ca, ctx, v));
  }

  /**
   * With hooks that each append one line for either channel's view and two
   * exposed non-null channels, a wrap gives `Some` and every hook appends
   * one entry for the value and then one for the supplement.
   */
  lemma WrapRecordsBothChannels<A, B>(ca: Caps<A>, cb: Caps<B>, v: Nullable<A>, s: Nullable<B>, ctx: PipeOption, t: Trace)
    requires v.NonNull? && s.NonNull? && ctx.extensions.NonNull?
    requires ca.expose(v.value).Exposed? && cb.expose(s.value).Exposed?
    requires forall k :: 0 <= k < |ctx.extensions.value| ==>
      ctx.extensions.value[k].postProcess(ca.expose(v.value).view).Success?
      && |ctx.extensions.value[k].postProcess(ca.expose(v.value).view).value| == 1
      && ctx.extensions.value[k].postProcess(cb.expose(s.value).view).Success?
      && |ctx.extensions.value[k].postProcess(cb.expose(s.value).view).value| == 1
    ensures var r := WrapPipeLineResult(ca, cb, v, s, ctx, t);
      r.outcome == Some(ValueAndSupplement(v, s), ctx)
      && r.trace == t + Recorded(ctx.extensions.value, ca.expose(v.value).view)
                      + Recorded(ctx.extensions.value, cb.expose(s.value).view)
      && |r.trace| == |t| + 2 * |ctx.extensions.value|
  {
    ExtensionsAppendOnePerHook(ca, ctx, v, t);
    ExtensionsAppendOnePerHook(cb, ctx, s, Extensions(ca, ctx, v, t).trace);
  }

  /** With no hooks, or no exposed channel, a wrap of a non-null supplement gives `Some` and logs nothing. */
  lemma WrapWithoutObserversIsSilent<A, B>(ca: Caps<A>, cb: Caps<B>, v: Nullable<A>, s: Nullable<B>, ctx: PipeOption, t: Trace)
    requires s.NonNull?
    requires ctx.extensions.Null? || ((v.Null? || ca.expose(v.value).Hidden?) && cb.expose(s.value).Hidden?)
    ensures WrapPipeLineResult(ca, cb, v, s, ctx, t) == Run(Some(ValueAndSupplement(v, s), ctx), t)
  {
  }
}
