/**
 * The post-processing step shared by every combinator (`ExecuteExtensions`
 * in Piping/PipeBase.cs) and the capabilities a channel value may have.
 */
module PipeBase {
  import opened Basics
  import opened Invariant
  import opened PipeOption

  /** How a value answers `is IExpose`: not exposed, or exposed with the view a hook is handed. */
  datatype Exposure = Hidden | Exposed(view: View)

  /**
   * The capabilities the engine discovers on a channel value at run time.
   * C# finds them by type tests; the model passes them per channel type.
   */
  datatype Caps<!T> = Caps(validity: T -> Invariance, expose: T -> Exposure)

  /** One line a hook appended to its own log. */
  datatype LogEntry = LogEntry(hook: nat, line: Nullable<string>)

  /** All hook logs, as one list in the order the lines were appended. */
  type Trace = seq<LogEntry>

  /** The effect of running hooks: every entry appended so far, and the exception that stopped them, if any. */
  datatype HooksRun = Completed(trace: Trace) | Faulted(trace: Trace, fault: Fault)

  /** The lines one call of hook `id` appended, as trace entries. */
  function Entries(id: nat, lines: seq<Nullable<string>>): (es: Trace)
    ensures |es| == |lines|
    ensures forall k :: 0 <= k < |lines| ==> es[k] == LogEntry(id, lines[k])
  {
    seq(|lines|, k requires 0 <= k < |lines| => LogEntry(id, lines[k]))
  }

  /**
   * The `foreach` over the hook list, as a specification: each hook is
   * called once, in list order, and the first exception ends the loop.
   */
  function PostProcessAll(hooks: seq<Hook>, view: View, t: Trace): (r: HooksRun)
    ensures t <= r.trace
    decreases |hooks|
  {
    if hooks == [] then Completed(t)
    else match hooks[0].postProcess(view)
      case Failure(e) => Faulted(t, e)
      case Success(lines) => PostProcessAll(hooks[1..], view, t + Entries(hooks[0].id, lines))
  }

  /** Every hook of the list returns normally on the view. */
  predicate AllAccept(hooks: seq<Hook>, view: View)
  {
    forall k :: 0 <= k < |hooks| ==> hooks[k].postProcess(view).Success?
  }

  /**
   * The entries a list of hooks that all return normally appends, hook by
   * hook in list order. Hooks that append one line each (the test `Log` on
   * an `IExposeLog`) give one entry per hook; hooks that append nothing
   * (the test `Log` on a bare `IExpose`) give none.
   */
  function Recorded(hooks: seq<Hook>, view: View): (es: Trace)
    requires AllAccept(hooks, view)
    ensures (forall k :: 0 <= k < |hooks| ==> |hooks[k].postProcess(view).value| == 1) ==>
      |es| == |hooks| && forall k :: 0 <= k < |hooks| ==> es[k] == LogEntry(hooks[k].id, hooks[k].postProcess(view).value[0])
    ensures (forall k :: 0 <= k < |hooks| ==> hooks[k].postProcess(view).value == []) ==> es == []
    decreases |hooks|
  {
    if hooks == [] then []
    else
      assert forall k :: 0 <= k < |hooks[1..]| ==> hooks[1..][k] == hooks[k + 1];
      Entries(hooks[0].id, hooks[0].postProcess(view).value) + Recorded(hooks[1..], view)
  }

  /** When no hook throws, the loop completes and every hook has appended its lines. */
  lemma {:induction false} PostProcessAllCompletes(hooks: seq<Hook>, view: View, t: Trace)
    requires AllAccept(hooks, view)
    ensures PostProcessAll(hooks, view, t) == Completed(t + Recorded(hooks, view))
    decreases |hooks|
  {
    if hooks != [] {
      var es := Entries(hooks[0].id, hooks[0].postProcess(view).value);
      assert AllAccept(hooks[1..], view) by {
        assert forall k :: 0 <= k < |hooks[1..]| ==> hooks[1..][k] == hooks[k + 1];
      }
      PostProcessAllCompletes(hooks[1..], view, t + es);
      assert t + es + Recorded(hooks[1..], view) == t + (es + Recorded(hooks[1..], view));
    }
  }

  /**
   * When hook `bad` is the first to throw, the loop stops with its exception:
   * the hooks `before` it have appended their lines and those `after` it are never called.
   */
  lemma {:induction false} PostProcessAllStops(before: seq<Hook>, bad: Hook, after: seq<Hook>, view: View, t: Trace)
    requires AllAccept(before, view)
    requires bad.postProcess(view).Failure?
    ensures PostProcessAll(before + [bad] + after, view, t) == Faulted(t + Recorded(before, view), bad.postProcess(view).error)
    decreases |before|
  {
    var hooks := before + [bad] + after;
    if before == [] {
      assert hooks[0] == bad;
    } else {
      var es := Entries(before[0].id, before[0].postProcess(view).value);
      assert hooks[0] == before[0] && hooks[1..] == before[1..] + [bad] + after;
      assert AllAccept(before[1..], view) by {
        assert forall k :: 0 <= k < |before[1..]| ==> before[1..][k] == before[k + 1];
      }
      PostProcessAllStops(before[1..], bad, after, view, t + es);
      assert t + es + Recorded(before[1..], view) == t + (es + Recorded(before[1..], view));
    }
  }

  /**
   * `ExecuteExtensions` as a specification: nothing happens for a null
   * value, a null hook list or a value that is not exposed; otherwise every
   * hook post-processes the value's view.
   */
  function Extensions<T>(c: Caps<T>, ctx: PipeOption, val: Nullable<T>, t: Trace): (r: HooksRun)
    ensures t <= r.trace
    ensures (val.Null? || ctx.extensions.Null? || c.expose(val.value).Hidden?) ==> r == Completed(t)
  {
    if val.Null? || ctx.extensions.Null? then Completed(t)
    else match c.expose(val.value)
      case Hidden => Completed(t)
      case Exposed(view) => PostProcessAll(ctx.extensions.value, view, t)
  }

  /** Every hook of the context that would be called on the value returns normally. */
  predicate HooksAccept<T>(c: Caps<T>, ctx: PipeOption, val: Nullable<T>)
  {
    val.NonNull? && ctx.extensions.NonNull? && c.expose(val.value).Exposed? ==>
      AllAccept(ctx.extensions.value, c.expose(val.value).view)
  }

  /** The entries the hooks of the context append for a value they all accept. */
  function Logged<T>(c: Caps<T>, ctx: PipeOption, val: Nullable<T>): (es: Trace)
    requires HooksAccept(c, ctx, val)
  {
    if val.Null? || ctx.extensions.Null? || c.expose(val.value).Hidden? then []
    else Recorded(ctx.extensions.value, c.expose(val.value).view)
  }

  /** When every hook accepts the value, `ExecuteExtensions` completes and appends exactly the hooks' lines. */
  lemma ExtensionsWhenAccepted<T>(c: Caps<T>, ctx: PipeOption, val: Nullable<T>, t: Trace)
    requires HooksAccept(c, ctx, val)
    ensures Extensions(c, ctx, val, t) == Completed(t + Logged(c, ctx, val))
  {
    if val.NonNull? && ctx.extensions.NonNull? && c.expose(val.value).Exposed? {
      PostProcessAllCompletes(ctx.extensions.value, c.expose(val.value).view, t);
    }
  }

  /**
   * With hooks that each append one line for the value's view, an exposed
   * non-null value makes every hook of the context append exactly one entry,
   * in list order.
   */
  lemma ExtensionsAppendOnePerHook<T>(c: Caps<T>, ctx: PipeOption, val: Nullable<T>, t: Trace)
    requires val.NonNull? && ctx.extensions.NonNull? && c.expose(val.value).Exposed?
    requires AllAccept(ctx.extensions.value, c.expose(val.value).view)
    requires forall k :: 0 <= k < |ctx.extensions.value| ==>
      |ctx.extensions.value[k].postProcess(c.expose(val.value).view).value| == 1
    ensures Extensions(c, ctx, val, t) == Completed(t + Recorded(ctx.extensions.value, c.expose(val.value).view))
    ensures |Extensions(c, ctx, val, t).trace| == |t| + |ctx.extensions.value|
  {
    PostProcessAllCompletes(ctx.extensions.value, c.expose(val.value).view, t);
  }

  /** The loop itself, as the source runs it: the exposure test is made for each hook, in list order. */
  method ExecuteExtensions<T>(c: Caps<T>, ctx: PipeOption, val: Nullable<T>, t: Trace) returns (r: HooksRun)
    ensures r == Extensions(c, ctx, val, t)
  {
    if val.Null? {
      return Completed(t);
    }
    if ctx.extensions.Null? {
      return Completed(t);
    }
    var hooks := ctx.extensions.value;
    var trace := t;
    var i := 0;
    while i < |hooks|
      invariant 0 <= i <= |hooks|
      invariant c.expose(val.value).Hidden? ==> trace == t
      invariant c.expose(val.value).Exposed? ==>
        Extensions(c, ctx, val, t) == PostProcessAll(hooks[i..], c.expose(val.value).view, trace)
    {
      var exposure := c.expose(val.value);
      if exposure.Exposed? {
        assert hooks[i..][1..] == hooks[i + 1..];
        match hooks[i].postProcess(exposure.view) {
          case Failure(e) =>
            return Faulted(trace, e);
          case Success(lines) =>
            trace := trace + Entries(hooks[i].id, lines);
        }
      }
      i := i + 1;
    }
    return Completed(trace);
  }
}
