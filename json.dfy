/** The parts of `System.Text.Json.JsonElement` the core reads: a property
    that should hold a string or a 32-bit integer. Parsing itself is not
    modelled; a remote reply carries each property already classified. */
module Json {
  import opened Wrappers

  /** A property read as a string: missing, JSON `null`, a string, or a value
      of another kind (with the message `GetString` throws for it). */
  datatype JsonString = Absent | Null | Str(s: string) | NotAString(message: string)

  /** A property read as a number: missing, a number, or a value of another
      kind (with the message `GetInt32` throws for it). */
  datatype JsonNumber = NumberAbsent | Number(n: int) | NotANumber(message: string)

  /** The message of the `KeyNotFoundException` thrown by `GetProperty`. */
  const KeyNotFoundMessage := "The given key was not present in the dictionary."
  /** The message of the `FormatException` thrown by `GetInt32` for a number
      outside the `int` range. */
  const NotInt32Message := "One of the identified items was in an invalid format."

  /** `GetProperty(name).GetString()`: a missing property throws, `null`
      reads as null. */
  function GetPropertyString(p: JsonString): (r: Result<Option<string>>)
    ensures r.Fail? <==> p.Absent? || p.NotAString?
    ensures r == Ok(None) <==> p.Null?
    ensures p.Str? ==> r == Ok(Some(p.s))
  {
    match p
    case Absent => Fail(Failure(KeyNotFoundMessage))
    case Null => Ok(None)
    case Str(s) => Ok(Some(s))
    case NotAString(m) => Fail(Failure(m))
  }

  /** `TryGetProperty(name, out var v) ? v.GetString() : null`: a missing
      property reads as null instead of throwing. */
  function TryGetPropertyString(p: JsonString): (r: Result<Option<string>>)
    ensures r.Fail? <==> p.NotAString?
    ensures r == Ok(None) <==> p.Absent? || p.Null?
    ensures !p.Absent? ==> r == GetPropertyString(p)
  {
    if p.Absent? then Ok(None) else GetPropertyString(p)
  }

  /** `GetProperty(name).GetInt32()`. */
  function GetPropertyInt32(p: JsonNumber): (r: Result<int>)
    ensures r.Ok? <==> p.Number? && IsInt32(p.n)
    ensures r.Ok? ==> r.value == p.n
  {
    match p
    case NumberAbsent => Fail(Failure(KeyNotFoundMessage))
    case Number(n) => if IsInt32(n) then Ok(n) else Fail(Failure(NotInt32Message))
    case NotANumber(m) => Fail(Failure(m))
  }
}
