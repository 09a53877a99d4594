/** Values shared by the builder, the error value and the introspection
    functions: optional values, the error code, the untyped values of the
    context bag and the program counters of a raw stack capture. */
module Types {

  /** Go's nil-or-value, used where the source returns nil or a value. */
  datatype Option<+T> = None | Some(value: T)

  /** `internal.Code`: an error code, a string under its own type. */
  datatype Code = Code(text: string) {

    /** `Code.String`: the code's text; converting it back gives the same code. */
    function String(): (s: string)
      ensures Code(s) == this
    {
      text
    }
  }

  /** A value of Go's `any` as stored in the context bag. The source puts
      strings, numbers, booleans and (through the package-level `SDC`) maps of
      strings there; every other dynamic value is an opaque tag. `NilValue` is
      the nil interface, the answer for a missing key. */
  datatype Value =
    | NilValue
    | StringValue(s: string)
    | IntValue(i: int)
    | BoolValue(b: bool)
    | StringMap(m: map<string, string>)
    | OtherValue(tag: nat)

  /** A program counter (`uintptr`) recorded by the runtime's stack capture. */
  type Pc = nat
}
