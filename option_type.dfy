/** The variant tags of an outcome (`OptionType` in Piping/Option.cs). */
module OptionType {
  datatype OptionType = None | Some | Exception | Validation

  /** The enum's numeric values. */
  function Code(t: OptionType): (n: int)
    ensures 0 <= n <= 3
    ensures t == None <==> n == 0
    ensures t == Some <==> n == 1
    ensures t == Exception <==> n == 2
  {
    match t
    case None => 0
    case Some => 1
    case Exception => 2
    case Validation => 3
  }
}
