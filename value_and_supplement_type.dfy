/**
 * The `ValueAndSupplementType` enumeration and its mapping from an integer
 * code (Piping/IValueAndSupplementType.cs): the three declared codes map to
 * their members and every other code maps to `None`.
 */
module ValueAndSupplementType {
  datatype ValueAndSupplementType = None | Some | Exception

  /** The integer each member is declared with. */
  function PipeType(t: ValueAndSupplementType): (code: int)
    ensures 0 <= code <= 2
    ensures (code == 0 <==> t == None) && (code == 1 <==> t == Some) && (code == 2 <==> t == Exception)
  {
    match t
    case None => 0
    case Some => 1
    case Exception => 2
  }

  /** `ToValueAndSupplementType`: total; an undeclared code falls back to `None`. */
  function ToValueAndSupplementType(code: int): (t: ValueAndSupplementType)
    ensures 0 <= code <= 2 ==> PipeType(t) == code
    ensures !(0 <= code <= 2) ==> t == None
  {
    if code == 1 then Some
    else if code == 2 then Exception
    else None
  }

  /** Every member survives the trip through its code. */
  lemma CodeRoundTrip(t: ValueAndSupplementType)
    ensures ToValueAndSupplementType(PipeType(t)) == t
  {
  }

  /** A code survives the trip through the enumeration exactly when it is declared. */
  lemma CodeKeptIffDeclared(code: int)
    ensures PipeType(ToValueAndSupplementType(code)) == code <==> 0 <= code <= 2
  {
  }
}
