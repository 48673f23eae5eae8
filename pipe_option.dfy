/** The branch context carried by every outcome (Piping/IPipeOption.cs). */
module PipeOption {
  import opened Basics

  /** The tri-state `bool? ConditionIsMet`: null, true or false. */
  datatype Condition = Unset | Set(met: bool)

  /**
   * What `PostProcess(IExpose val)` can learn of the object it is handed:
   * that it is an `IExpose` and nothing more, or that it is also an
   * `IExposeLog`, with its `Log` line (which may be null).
   */
  datatype View = Bare | Loggable(log: Nullable<string>)

  /**
   * A post-processing hook (`IValueAndSupplementExtension`). Given the view
   * of an exposed value, `PostProcess` either appends lines (none, one or
   * several, each possibly null) to the hook's own log or throws.
   */
  datatype Hook = Hook(id: nat, postProcess: View -> Result<seq<Nullable<string>>>)

  /**
   * The context: the branch flag and the hook list, which may itself be null.
   * Both are fixed at construction; a Dafny datatype value never changes.
   */
  datatype PipeOption = PipeOption(conditionIsMet: Condition, extensions: Nullable<seq<Hook>>)

  /**
   * `new PipeOption(null, null)`; it is also what an outcome built from a
   * null `IPipeOption` reads back, because its constructor copies
   * `pipeOption?.ConditionIsMet` and `pipeOption?.Extensions`.
   */
  const EmptyOption := PipeOption(Unset, Null)

  /** The flag a false `Iff` leaves: the pipeline skips caller logic. */
  predicate Skipping(ctx: PipeOption)
  {
    ctx.conditionIsMet == Set(false)
  }
}
