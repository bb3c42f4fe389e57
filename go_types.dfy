/** Value-level stand-ins for Go's built-in types that the rest of the model shares. */
module GoTypes {
  /** A Go pointer or an optional result: `nil` is `None`. */
  datatype Option<T> = None | Some(value: T)

  /**
   * Go's dynamically typed `any` / `interface{}` as it appears in query arguments
   * and in the `ToMap` projections of entities. `Ptr(None)` is a typed nil
   * pointer stored in an interface, which Go does not consider equal to `Nil`.
   */
  datatype Value =
    | Nil
    | Str(s: string)
    | Int(i: int)
    | Bool(b: bool)
    | Float(f: real)
    | Time(unix: int)
    | List(items: seq<Value>)
    | Ptr(target: Option<Value>)

  /** The pointee of an optional string field as stored in a `map[string]interface{}`. */
  function StrPtr(p: Option<string>): (v: Value)
    ensures v.Ptr? && (v.target.Some? <==> p.Some?)
    ensures p.Some? ==> v.target.value == Str(p.value)
  {
    match p
    case None => Ptr(None)
    case Some(s) => Ptr(Some(Str(s)))
  }

  /** The pointee of an optional time field as stored in a `map[string]interface{}`. */
  function TimePtr(p: Option<int>): (v: Value)
    ensures v.Ptr? && (v.target.Some? <==> p.Some?)
    ensures p.Some? ==> v.target.value == Time(p.value)
  {
    match p
    case None => Ptr(None)
    case Some(t) => Ptr(Some(Time(t)))
  }

  /** Go error values carry only their message in this model. */
  datatype GoError = GoError(message: string)
}
