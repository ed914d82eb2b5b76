/** The decoded JSON values a Wikidata claim carries. A datavalue's `value`
    member is either a plain string (for string-like datatypes) or a flat object
    whose members are scalars (entity references, coordinates, quantities,
    monolingual texts, times). */
module Json {
  import PyText

  datatype Scalar =
    | Str(s: string)
    | Int(i: int)
    | Dec(text: string)   // a JSON number with a fraction or exponent, by its text
    | Null

  datatype Value =
    | Plain(x: Scalar)
    | Record(fields: map<string, Scalar>)

  /** Python's `str()` (and f-string formatting) of a decoded scalar. */
  function Show(x: Scalar): string {
    match x
    case Str(s) => s
    case Int(i) => PyText.IntToString(i)
    case Dec(text) => text
    case Null => "None"
  }
}
