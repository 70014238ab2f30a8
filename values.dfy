/**
 * `Value`: an immutable wrapper holding a Go type name and the payload it
 * was built from (trace.go:21-39).
 *
 * Go stores the payload as `interface{}`. The model closes it into `Datum`:
 * the kinds whose `%T` and `%v` texts are fixed by Go (int, string, bool and a
 * nil interface), plus `OtherDatum`, which carries the type name and display
 * text of any other payload (a float64, a struct, ...) as given, opaque values.
 */
module Values {
  import opened Text

  datatype Datum =
    | IntDatum(i: int)
    | StringDatum(s: string)
    | BoolDatum(b: bool)
    | NilDatum
    | OtherDatum(goType: string, text: string)

  /** `fmt.Sprintf("%T", d)`: Go's name of the payload's dynamic type, "<nil>" for a nil interface. */
  function TypeName(d: Datum): (r: string)
    ensures d.IntDatum? ==> r == "int"
    ensures d.StringDatum? ==> r == "string"
    ensures d.BoolDatum? ==> r == "bool"
    ensures d.NilDatum? ==> r == "<nil>"
    ensures d.OtherDatum? ==> r == d.goType
  {
    match d
    case IntDatum(_) => "int"
    case StringDatum(_) => "string"
    case BoolDatum(_) => "bool"
    case NilDatum => "<nil>"
    case OtherDatum(t, _) => t
  }

  datatype Value = Value(typeName: string, payload: Datum)

  /** NewValue: keeps the payload as given and tags it with its Go type name. */
  function NewValue(d: Datum): (v: Value)
    ensures v.payload == d
    ensures d.IntDatum? ==> v.typeName == "int"
    ensures d.StringDatum? ==> v.typeName == "string"
    ensures d.BoolDatum? ==> v.typeName == "bool"
    ensures d.NilDatum? ==> v.typeName == "<nil>"
    ensures d.OtherDatum? ==> v.typeName == d.goType
  {
    Value(TypeName(d), d)
  }

  /** Value.String: `fmt.Sprintf("%v", v.Value)`, the payload's display text; the type tag plays no part. */
  function Display(v: Value): (r: string)
    ensures v.payload.IntDatum? ==> r == IntString(v.payload.i)
    ensures v.payload.IntDatum? ==> IsIntText(r) && ParseInt(r) == v.payload.i
    ensures v.payload.StringDatum? ==> r == v.payload.s
    ensures v.payload.BoolDatum? ==> r == if v.payload.b then "true" else "false"
    ensures v.payload.NilDatum? ==> r == "<nil>"
    ensures v.payload.OtherDatum? ==> r == v.payload.text
  {
    match v.payload
    case IntDatum(i) => IntString(i)
    case StringDatum(s) => s
    case BoolDatum(b) => if b then "true" else "false"
    case NilDatum => "<nil>"
    case OtherDatum(_, text) => text
  }

  /** The integer 10 and the text "10" are different values with the same display text. */
  lemma IntAndTextCanDisplayAlike()
    ensures NewValue(IntDatum(10)) != NewValue(StringDatum("10"))
    ensures Display(NewValue(IntDatum(10))) == Display(NewValue(StringDatum("10")))
  {
    assert NatString(10) == NatString(1) + [DigitChar(0)];
  }
}
