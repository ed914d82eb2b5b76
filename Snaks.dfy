/** One claim of an entity, seen through its main snak, and the two helpers
    `check_skip` and `get_value` with the datatype table they use. */
module Snaks {
  import opened Base
  import opened Json

  /** A claim's main snak: its datatype and, unless it is a "somevalue" or
      "novalue" snak, the `value` member of its datavalue. */
  datatype Snak = Snak(dataType: string, datavalue: Option<Value>)

  /** `DATATYPES_MAPPINGS`: the literal category of each literal datatype. */
  const DatatypeMappings: map<string, string> := map[
    "external-id" := "STRING",
    "quantity" := "NUMBER",
    "globe-coordinate" := "STRING",
    "string" := "STRING",
    "monolingualtext" := "STRING",
    "commonsMedia" := "STRING",
    "time" := "DATETIME",
    "url" := "STRING",
    "geo-shape" := "GEOSHAPE",
    "math" := "MATH",
    "musical-notation" := "MUSICAL_NOTATION",
    "tabular-data" := "TABULAR_DATA"
  ]

  /** `DATATYPES`: the literal categories, the keys of every literals record. */
  const Categories: set<string> :=
    {"STRING", "NUMBER", "DATETIME", "GEOSHAPE", "MATH", "MUSICAL_NOTATION", "TABULAR_DATA"}

  /** The lexical datatypes whose claims are never recorded. */
  const LexicalDatatypes: set<string> := {"wikibase-lexeme", "wikibase-form", "wikibase-sense"}

  /** The member of the datavalue `get_value` reads for the datatypes that wrap their value. */
  const SubFields: map<string, string> := map["quantity" := "amount", "monolingualtext" := "text", "time" := "time"]

  /** `DATATYPES` is the set of values of `DATATYPES_MAPPINGS`, seven categories. */
  lemma CategoriesOfMappings()
    ensures DatatypeMappings.Values == Categories
    ensures |Categories| == 7
  {
    assert DatatypeMappings["external-id"] == "STRING";
    assert DatatypeMappings["quantity"] == "NUMBER";
    assert DatatypeMappings["time"] == "DATETIME";
    assert DatatypeMappings["geo-shape"] == "GEOSHAPE";
    assert DatatypeMappings["math"] == "MATH";
    assert DatatypeMappings["musical-notation"] == "MUSICAL_NOTATION";
    assert DatatypeMappings["tabular-data"] == "TABULAR_DATA";
  }

  /** `check_skip`: a claim is skipped when its snak has no datavalue, or when its
      datatype is a lexeme, form or sense, whatever its value. */
  function CheckSkip(s: Snak, dataType: string): (skip: bool)
    ensures dataType in LexicalDatatypes ==> skip
    ensures s.datavalue.None? ==> skip
    ensures skip ==> s.datavalue.None? || dataType in LexicalDatatypes
  {
    s.datavalue.None? || dataType in LexicalDatatypes
  }

  /** The text of a coordinate literal: f"{latitude},{longitude}". */
  function CoordinateText(latitude: Scalar, longitude: Scalar): string {
    Show(latitude) + "," + Show(longitude)
  }

  /** `get_value`: the literal a claim contributes. A missing member is a
      `KeyError`; subscripting a plain value is a `TypeError`. */
  function GetValue(s: Snak, dataType: string): (r: Result<Value, Failure>)
    ensures s.datavalue.None? ==> r == Failure(KeyError("datavalue"))
    ensures dataType == "globe-coordinate" && s.datavalue.Some? ==>
      match s.datavalue.value
      case Plain(_) => r == Failure(TypeError)
      case Record(f) =>
        if "latitude" !in f then r == Failure(KeyError("latitude"))
        else if "longitude" !in f then r == Failure(KeyError("longitude"))
        else r == Success(Plain(Str(CoordinateText(f["latitude"], f["longitude"]))))
    ensures dataType in SubFields && s.datavalue.Some? ==>
      match s.datavalue.value
      case Plain(_) => r == Failure(TypeError)
      case Record(f) =>
        r == if SubFields[dataType] in f then Success(Plain(f[SubFields[dataType]]))
             else Failure(KeyError(SubFields[dataType]))
    ensures dataType != "globe-coordinate" && dataType !in SubFields && s.datavalue.Some? ==>
      r == Success(s.datavalue.value)
  {
    match s.datavalue
    case None => Failure(KeyError("datavalue"))
    case Some(v) =>
      if dataType == "globe-coordinate" then
        match v
        case Plain(_) => Failure(TypeError)
        case Record(f) =>
          if "latitude" !in f then Failure(KeyError("latitude"))
          else if "longitude" !in f then Failure(KeyError("longitude"))
          else Success(Plain(Str(CoordinateText(f["latitude"], f["longitude"]))))
      else if dataType in SubFields then
        var key := SubFields[dataType];
        match v
        case Plain(_) => Failure(TypeError)
        case Record(f) => if key in f then Success(Plain(f[key])) else Failure(KeyError(key))
      else Success(v)
  }

  /** The text before the first comma. */
  function BeforeComma(t: string): (r: string)
    ensures ',' !in r
  {
    if t == [] || t[0] == ',' then [] else [t[0]] + BeforeComma(t[1..])
  }

  /** The text after the first comma, or nothing. */
  function AfterComma(t: string): string {
    if t == [] then [] else if t[0] == ',' then t[1..] else AfterComma(t[1..])
  }

  /** A coordinate literal splits back into its latitude and longitude texts,
      whenever the latitude is written without a comma (as numbers are). */
  lemma {:induction false} CoordinateTextSplits(latitude: Scalar, longitude: Scalar)
    requires ',' !in Show(latitude)
    ensures BeforeComma(CoordinateText(latitude, longitude)) == Show(latitude)
    ensures AfterComma(CoordinateText(latitude, longitude)) == Show(longitude)
  {
    SplitAtFirstComma(Show(latitude), Show(longitude));
  }

  lemma {:induction false} SplitAtFirstComma(a: string, b: string)
    requires ',' !in a
    ensures BeforeComma(a + "," + b) == a && AfterComma(a + "," + b) == b
  {
    if a != [] {
      assert ',' !in a[1..];
      SplitAtFirstComma(a[1..], b);
      assert (a + "," + b)[1..] == a[1..] + "," + b;
    }
  }
}
