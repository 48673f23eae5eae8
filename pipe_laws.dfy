/**
 * Laws of the pipeline combinators: how exceptions, validation failures and
 * branches travel through a sequence of steps, what a skipped step does, and
 * where the written overloads depart from the behaviour they evidently
 * intend.
 */
module PipeLaws {
  import opened Basics
  import opened ValueAndSupplement
  import opened PipeOption
  import opened PipeBase
  import opened Option
  import opened PipeInit
  import opened PipeThen
  import opened PipeIff
  import opened PipeTransform

  /** One segment of a pipeline that keeps both channel types. */
  datatype Step<!V, !S> =
    | Both(both: ValueAndSupplement<V, S> -> Result<ValueAndSupplement<V, S>>)
    | BothToValue(toValue: ValueAndSupplement<S, V> -> Result<Call<ValueAndSupplement<S, V>, Nullable<V>>>)
    | BothToSupplement(toSupplement: ValueAndSupplement<S, V> -> Result<Call<ValueAndSupplement<S, V>, Nullable<S>>>)
    | ValueToSupplement(fromValue: Nullable<V> -> Result<Call<Nullable<V>, Nullable<S>>>)
    | SupplementFunc(onSupplementFunc: Nullable<S> -> Result<Call<Nullable<S>, Nullable<S>>>)
    | Supplement(onSupplement: Nullable<S> -> Result<Nullable<S>>)
    | ValueFunc(onValueFunc: Nullable<V> -> Result<Nullable<V>>)
    | Value(onValue: Nullable<V> -> Result<Nullable<V>>)
    | IffOnBoth(testBoth: ValueAndSupplement<V, S> -> Result<bool>)
    | IffOnValue(testValue: Nullable<V> -> Result<bool>)
    | IffOnSupplement(testSupplement: Nullable<S> -> Result<bool>)
    | ElseBranch
    | EndBranch
    | EndBranchStrong

  /** One step, by the overload it stands for. */
  function Apply<V, S>(cv: Caps<V>, cs: Caps<S>, step: Step<V, S>, src: Run<V, S>): (r: Run<V, S>)
    ensures PassesOn(src, r) && src.trace <= r.trace
  {
    match step
    case Both(f) => ThenBoth(cv, cs, src, f)
    case BothToValue(f) => ThenBothToValue(cv, cs, src, f)
    case BothToSupplement(f) => ThenBothToSupplement(cv, cs, src, f)
    case ValueToSupplement(f) => ThenValueToSupplement(cv, cs, src, f)
    case SupplementFunc(f) => ThenSupplementFunc(cv, cs, src, f)
    case Supplement(f) => ThenSupplement(cv, cs, src, f)
    case ValueFunc(f) => ThenValueFunc(cv, cs, src, f)
    case Value(f) => ThenValue(cv, cs, src, f)
    case IffOnBoth(p) => IffBoth(cv, cs, src, p)
    case IffOnValue(p) => IffValue(cv, cs, src, p)
    case IffOnSupplement(p) => IffSupplement(cv, cs, src, p)
    case ElseBranch => Else(cv, cs, src)
    case EndBranch => EndIff(cv, cs, src)
    case EndBranchStrong => EndIffStrong(cv, cs, src)
  }

  /** A chain of steps, each invoked on the outcome of the one before; the hook log only grows. */
  function RunSteps<V, S>(cv: Caps<V>, cs: Caps<S>, steps: seq<Step<V, S>>, src: Run<V, S>): (r: Run<V, S>)
    ensures src.trace <= r.trace
    decreases |steps|
  {
    if |steps| == 0 then src else RunSteps(cv, cs, steps[1..], Apply(cv, cs, steps[0], src))
  }

  /** Once a step has faulted, every later step passes the same exception on and logs nothing. */
  lemma {:induction false} ExceptionIsTerminal<V, S>(cv: Caps<V>, cs: Caps<S>, steps: seq<Step<V, S>>, src: Run<V, S>)
    requires src.outcome.SomeException?
    ensures RunSteps(cv, cs, steps, src) == Raise(src.outcome.error, src.outcome.ctx, src.trace)
    decreases |steps|
  {
    if |steps| > 0 {
      var next := Apply(cv, cs, steps[0], src);
      ExceptionIsTerminal(cv, cs, steps[1..], next);
    }
  }

  /** Once a pair has failed validation, every later step hands back that same outcome. */
  lemma {:induction false} ValidationIsTerminal<V, S>(cv: Caps<V>, cs: Caps<S>, steps: seq<Step<V, S>>, src: Run<V, S>)
    requires src.outcome.Validation?
    ensures RunSteps(cv, cs, steps, src) == src
    decreases |steps|
  {
    if |steps| > 0 {
      ValidationIsTerminal(cv, cs, steps[1..], Apply(cv, cs, steps[0], src));
    }
  }

  /** Running two chains one after the other is running their concatenation. */
  lemma {:induction false} RunStepsAppend<V, S>(cv: Caps<V>, cs: Caps<S>, first: seq<Step<V, S>>, second: seq<Step<V, S>>, src: Run<V, S>)
    ensures RunSteps(cv, cs, first + second, src) == RunSteps(cv, cs, second, RunSteps(cv, cs, first, src))
    decreases |first|
  {
    if |first| > 0 {
      assert (first + second)[1..] == first[1..] + second;
      RunStepsAppend(cv, cs, first[1..], second, Apply(cv, cs, first[0], src));
    } else {
      assert first + second == second;
    }
  }

  /** A `Some` whose two channels are set and whose context carries no hooks: a wrap of it changes nothing. */
  predicate Quiet<V, S>(src: Run<V, S>)
  {
    src.outcome.Some? && src.outcome.pair.val.NonNull? && src.outcome.pair.supplementVal.NonNull?
    && src.outcome.ctx.extensions.Null?
  }

  /**
   * A `Some` whose two channels are set and whose hooks all return normally
   * on either channel: a wrap of it keeps the outcome and only logs.
   */
  predicate Settled<V, S>(cv: Caps<V>, cs: Caps<S>, src: Run<V, S>)
  {
    src.outcome.Some? && src.outcome.pair.val.NonNull? && src.outcome.pair.supplementVal.NonNull?
    && HooksAccept(cv, src.outcome.ctx, src.outcome.pair.val) && HooksAccept(cs, src.outcome.ctx, src.outcome.pair.supplementVal)
  }

  /** The same pipeline after one more wrap: the outcome as it was, the hooks' lines for value and supplement appended. */
  function Relogged<V, S>(cv: Caps<V>, cs: Caps<S>, src: Run<V, S>): (r: Run<V, S>)
    requires Settled(cv, cs, src)
    ensures r.outcome == src.outcome && src.trace <= r.trace
    ensures src.outcome.ctx.extensions.Null? ==> r == src
  {
    var ctx := src.outcome.ctx;
    Run(src.outcome, src.trace + Logged(cv, ctx, src.outcome.pair.val) + Logged(cs, ctx, src.outcome.pair.supplementVal))
  }

  /**
   * Under a false `Iff`, the corrected overloads leave the outcome exactly
   * as it was, whatever their logic would have done; only the hooks log the
   * unchanged channels again. Without hooks the pipeline is unchanged.
   */
  lemma SkippedStepsChangeNothing<V, S>(cv: Caps<V>, cs: Caps<S>, src: Run<V, S>,
                                        both: ValueAndSupplement<V, S> -> Result<ValueAndSupplement<V, S>>,
                                        toValue: ValueAndSupplement<S, V> -> Result<Call<ValueAndSupplement<S, V>, Nullable<V>>>,
                                        toSupplement: ValueAndSupplement<S, V> -> Result<Call<ValueAndSupplement<S, V>, Nullable<S>>>,
                                        fromValue: Nullable<V> -> Result<Call<Nullable<V>, Nullable<S>>>,
                                        onSupplement: Nullable<S> -> Result<Nullable<S>>,
                                        onValue: Nullable<V> -> Result<Nullable<V>>)
    requires Settled(cv, cs, src) && Skipping(src.outcome.ctx)
    ensures ThenBoth(cv, cs, src, both) == Relogged(cv, cs, src)
    ensures ThenBothToValue(cv, cs, src, toValue) == Relogged(cv, cs, src)
    ensures ThenBothToSupplement(cv, cs, src, toSupplement) == Relogged(cv, cs, src)
    ensures ThenValueToSupplement(cv, cs, src, fromValue) == Relogged(cv, cs, src)
    ensures ThenSupplement(cv, cs, src, onSupplement) == Relogged(cv, cs, src)
    ensures ThenValue(cv, cs, src, onValue) == Relogged(cv, cs, src)
  {
    var p := src.outcome.pair;
    WrapWhenHooksAccept(cv, cs, p.val, p.supplementVal, src.outcome.ctx, src.trace);
  }

  /**
   * The swapping overloads, skipped, only exchange the channels (the hooks
   * log the supplement, now the value, first); two of them restore the outcome.
   */
  lemma SkippedSwapsRoundTrip<V, S>(cv: Caps<V>, cs: Caps<S>, src: Run<V, S>,
                                    both: ValueAndSupplement<V, S> -> Result<ValueAndSupplement<V, S>>,
                                    back: ValueAndSupplement<S, V> -> Result<ValueAndSupplement<S, V>>,
                                    toValue: Nullable<S> -> Result<Call<Nullable<S>, Nullable<V>>>)
    requires Settled(cv, cs, src) && Skipping(src.outcome.ctx)
    ensures var p := src.outcome.pair;
      var ctx := src.outcome.ctx;
      ThenBothSwapped(cv, cs, src, both)
        == Run(Some(Swapped(p), ctx), src.trace + Logged(cs, ctx, p.supplementVal) + Logged(cv, ctx, p.val))
    ensures ThenSupplementToValue(cv, cs, src, toValue) == ThenBothSwapped(cv, cs, src, both)
    ensures var p := src.outcome.pair;
      var ctx := src.outcome.ctx;
      var twice := ThenBothSwapped(cs, cv, ThenBothSwapped(cv, cs, src, both), back);
      twice.outcome == src.outcome
      && twice.trace == src.trace + Logged(cs, ctx, p.supplementVal) + Logged(cv, ctx, p.val)
                                  + Logged(cv, ctx, p.val) + Logged(cs, ctx, p.supplementVal)
    ensures src.outcome.ctx.extensions.Null? ==> ThenBothSwapped(cs, cv, ThenBothSwapped(cv, cs, src, both), back) == src
  {
    var p := src.outcome.pair;
    var ctx := src.outcome.ctx;
    WrapWhenHooksAccept(cs, cv, p.supplementVal, p.val, ctx, src.trace);
    var once := ThenBothSwapped(cv, cs, src, both);
    assert Settled(cs, cv, once) && Skipping(once.outcome.ctx);
    WrapWhenHooksAccept(cv, cs, p.val, p.supplementVal, ctx, once.trace);
    SwappedInvolution(p);
  }

  /** The fault every as-written overload below gives for a skipped step: the new channel is still null. */
  const SkippedStepFault := Fault(InvalidOperation, SupplementNullMessage)

  /**
   * `Then(Func<IValueAndSupplement<TS, TV>, TS>)` as written faults under a
   * false `Iff` on the very pipeline the corrected overload hands back unchanged.
   */
  lemma SkippedBothToSupplementFaultsAsWritten<V, S>(cv: Caps<V>, cs: Caps<S>, src: Run<V, S>,
                                                     f: ValueAndSupplement<S, V> -> Result<Call<ValueAndSupplement<S, V>, Nullable<S>>>)
    requires Quiet(src) && Skipping(src.outcome.ctx)
    ensures ThenBothToSupplementAsWritten(cv, cs, src, f) == Raise(SkippedStepFault, src.outcome.ctx, src.trace)
    ensures ThenBothToSupplement(cv, cs, src, f) == src
  {
    WrapWithoutObserversIsSilent(cv, cs, src.outcome.pair.val, src.outcome.pair.supplementVal, src.outcome.ctx, src.trace);
  }

  /** The same for `Then(Func<TV, TS>)`. */
  lemma SkippedValueToSupplementFaultsAsWritten<V, S>(cv: Caps<V>, cs: Caps<S>, src: Run<V, S>,
                                                      f: Nullable<V> -> Result<Call<Nullable<V>, Nullable<S>>>)
    requires Quiet(src) && Skipping(src.outcome.ctx)
    ensures ThenValueToSupplementAsWritten(cv, cs, src, f) == Raise(SkippedStepFault, src.outcome.ctx, src.trace)
    ensures ThenValueToSupplement(cv, cs, src, f) == src
  {
    WrapWithoutObserversIsSilent(cv, cs, src.outcome.pair.val, src.outcome.pair.supplementVal, src.outcome.ctx, src.trace);
  }

  /** The same for `Then(Func<TS, TV>)`, whose corrected form only exchanges the channels. */
  lemma SkippedSupplementToValueFaultsAsWritten<V, S>(cv: Caps<V>, cs: Caps<S>, src: Run<V, S>,
                                                      f: Nullable<S> -> Result<Call<Nullable<S>, Nullable<V>>>)
    requires Quiet(src) && Skipping(src.outcome.ctx)
    ensures ThenSupplementToValueAsWritten(cv, cs, src, f) == Raise(SkippedStepFault, src.outcome.ctx, src.trace)
    ensures ThenSupplementToValue(cv, cs, src, f) == Run(Some(Swapped(src.outcome.pair), src.outcome.ctx), src.trace)
  {
    WrapWithoutObserversIsSilent(cs, cv, src.outcome.pair.supplementVal, src.outcome.pair.val, src.outcome.ctx, src.trace);
  }

  /**
   * `Then(Func<IValueAndSupplement<TS, TV>, TV>)` as written, skipped,
   * replaces the value with whatever the shared variable holds: null on the
   * first invocation, an earlier invocation's result afterwards. The
   * corrected overload keeps the current value.
   */
  lemma SkippedBothToValueUsesStaleValueAsWritten<V, S>(cv: Caps<V>, cs: Caps<S>, src: Run<V, S>,
                                                        f: ValueAndSupplement<S, V> -> Result<Call<ValueAndSupplement<S, V>, Nullable<V>>>,
                                                        captured: Nullable<V>)
    requires Quiet(src) && Skipping(src.outcome.ctx)
    ensures ThenBothToValueAsWritten(cv, cs, src, f, captured).0
      == Run(Some(ValueAndSupplement(captured, src.outcome.pair.supplementVal), src.outcome.ctx), src.trace)
    ensures captured != src.outcome.pair.val ==> ThenBothToValueAsWritten(cv, cs, src, f, captured).0 != src
    ensures ThenBothToValue(cv, cs, src, f) == src
  {
    var p := src.outcome.pair;
    WrapWithoutObserversIsSilent(cv, cs, captured, p.supplementVal, src.outcome.ctx, src.trace);
    WrapWithoutObserversIsSilent(cv, cs, p.val, p.supplementVal, src.outcome.ctx, src.trace);
  }

  /**
   * `Else` does not look at the verdict of the `Iff` before it: on a quiet
   * pipeline it always switches the branch on, so after an `Iff` that held
   * the steps behind `Else` run as well.
   */
  lemma ElseAlwaysRuns<V, S>(cv: Caps<V>, cs: Caps<S>, src: Run<V, S>)
    requires Quiet(src)
    ensures Else(cv, cs, src).outcome == Some(src.outcome.pair, Branch(src.outcome.ctx, true))
    ensures Running(Else(cv, cs, src).outcome)
  {
    var p := src.outcome.pair;
    WrapWithoutObserversIsSilent(cv, cs, p.val, p.supplementVal, Branch(src.outcome.ctx, true), src.trace);
  }

  /** An `Iff` replaces the flag it finds: a false branch followed by an `Iff` that holds runs again. */
  lemma IffIgnoresIncomingFlag<V, S>(cv: Caps<V>, cs: Caps<S>, src: Run<V, S>, test: Nullable<V> -> Result<bool>)
    requires Quiet(src) && test(src.outcome.pair.val).Success?
    ensures IffValue(cv, cs, src, test).outcome
      == Some(src.outcome.pair, PipeOption(Set(test(src.outcome.pair.val).value), src.outcome.ctx.extensions))
    ensures test(src.outcome.pair.val).value ==> Running(IffValue(cv, cs, src, test).outcome)
  {
    var p := src.outcome.pair;
    WrapWithoutObserversIsSilent(cv, cs, p.val, p.supplementVal, Branch(src.outcome.ctx, test(p.val).value), src.trace);
  }

  /**
   * `None` is never recognised as an end: a step continues with two null
   * channels, and the wrap after it faults. An `EndIff` does the same.
   */
  lemma NoneFaultsAtTheNextStep<V, S>(cv: Caps<V>, cs: Caps<S>, src: Run<V, S>,
                                      both: ValueAndSupplement<V, S> -> Result<ValueAndSupplement<V, S>>)
    requires src.outcome.None?
    requires both(Nulls()) == Success(Nulls())
    ensures ThenBoth(cv, cs, src, both) == Raise(Fault(InvalidOperation, BothNullMessage), src.outcome.ctx, src.trace)
    ensures EndIff(cv, cs, src)
      == Raise(Fault(InvalidOperation, BothNullMessage), PipeOption(Unset, src.outcome.ctx.extensions), src.trace)
  {
  }

  /**
   * A `Transform` reads only the channels of the inner pipeline's outcome:
   * an exception there reaches the caller as the null-channels fault, its
   * own exception lost, and a validation failure there reaches the caller
   * as `Some` of the invalid pair.
   */
  lemma TransformMasksInnerOutcome<V, S, W, R>(cw: Caps<W>, cr: Caps<R>, src: Run<V, S>,
                                               toNewValue: Nullable<V> -> Result<Nullable<W>>, inner: Segment<W, W, R>)
    requires Continues(src.outcome) && toNewValue(Val(src.outcome)).Success?
    requires src.outcome.ctx.extensions.Null?
    ensures inner(toNewValue(Val(src.outcome)).value).outcome.SomeException? ==>
      TransformValueInto(cw, cr, src, toNewValue, inner).outcome == SomeException(Fault(InvalidOperation, BothNullMessage), src.outcome.ctx)
    ensures var state := inner(toNewValue(Val(src.outcome)).value).outcome;
      state.Validation? && state.pair.supplementVal.NonNull? ==>
      TransformValueInto(cw, cr, src, toNewValue, inner).outcome == Some(state.pair, src.outcome.ctx)
  {
    var state := inner(toNewValue(Val(src.outcome)).value);
    if state.outcome.Validation? && state.outcome.pair.supplementVal.NonNull? {
      WrapWithoutObserversIsSilent(cw, cr, state.outcome.pair.val, state.outcome.pair.supplementVal, src.outcome.ctx,
                                   src.trace + state.trace);
    }
  }

  /**
   * `Transform(Func<TS, TW>, Func<TR>)` on a quiet pipeline: the converted
   * supplement and the factory's object become the new pair, in the old
   * context, and nothing is logged.
   */
  lemma TransformSupplementInitPairs<V, S, W, R>(cw: Caps<W>, cr: Caps<R>, equals: (W, R) -> bool, src: Run<V, S>,
                                                 toNewValue: Nullable<S> -> Result<Nullable<W>>, made: R)
    requires Quiet(src)
    requires toNewValue(src.outcome.pair.supplementVal).Success?
    requires var w := toNewValue(src.outcome.pair.supplementVal).value;
      w.NonNull? && !Invalid(cw, w) && !equals(w.value, made)
    ensures TransformSupplementInit(cw, cr, equals, src, toNewValue, Success(NonNull(made)))
      == Run(Some(ValueAndSupplement(toNewValue(src.outcome.pair.supplementVal).value, NonNull(made)), src.outcome.ctx), src.trace)
  {
    var w := toNewValue(src.outcome.pair.supplementVal).value;
    var state := InitFactory(cw, cr, equals, w, Success(NonNull(made)), Null, []);
    WrapWithoutObserversIsSilent(cw, cr, w, NonNull(made), EmptyOption, []);
    assert state.outcome == Some(ValueAndSupplement(w, NonNull(made)), EmptyOption) && state.trace == [];
    WrapWithoutObserversIsSilent(cw, cr, w, NonNull(made), src.outcome.ctx, src.trace);
    assert src.trace + state.trace == src.trace;
  }
}
