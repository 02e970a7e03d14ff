/** Values shared by the event records, the handler and the program: nullable
    values, results of calls that may throw, and the text renderers that .NET
    takes from a culture. */
module Common {

  /** A C# nullable value (`int?`, `float?`, a string reference). */
  datatype Option<+T> = None | Some(value: T)

  /** An exception as the program sees it: only its message is ever read. */
  datatype Exception = Exception(message: string)

  /** The result of a call that either returns a value or throws. */
  datatype Result<+T> = Success(value: T) | Failure(error: Exception)

  /** How a sequence of statements ended: normally, or by throwing. */
  datatype Outcome = Completed | Failed(error: Exception)

  /** A .NET `DateTime`, kept as its tick count; its text is culture-dependent. */
  datatype DateTime = DateTime(ticks: nat)

  /** A .NET `float` (IEEE 754 single precision), kept as its bit pattern. */
  datatype Float32 = Float32(bits: bv32)

  /** A .NET `int`. */
  newtype Int32 = x: int | -0x8000_0000 <= x < 0x8000_0000

  /** The formatting a culture applies when a value is interpolated into a
      string. Date and number formatting are left abstract. */
  datatype Culture = Culture(
    dateTimeText: DateTime -> string,
    floatText: Float32 -> string,
    intText: Int32 -> string)

  /** `bool.ToString()`, which does not depend on the culture. */
  function BoolText(b: bool): (s: string)
    ensures s == "True" <==> b
    ensures s == "False" <==> !b
  {
    if b then "True" else "False"
  }

  /** A string reference interpolated into a string: null contributes
      nothing, any other string contributes itself. */
  function StringText(s: Option<string>): (r: string)
    ensures s.None? ==> r == ""
    ensures s.Some? ==> r == s.value
  {
    match s
    case None => ""
    case Some(v) => v
  }
}
