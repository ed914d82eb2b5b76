/** The API's request-parameter checks (`ParamsValidator`). Each takes a query
    parameter, `None` when the request leaves it out, and either accepts it,
    with the value the handler goes on with, or rejects it with the error
    response `build_error` makes from a message and an HTTP status. The access
    token and the knowledge graphs the database serves are inputs. */
module ParamsValidator {
  import opened Base
  import opened PyText
  import Entities

  /** The response `build_error(message, status)` describes. */
  datatype ApiError = ApiError(message: string, status: nat)

  /** A validator's `(True, value)` or `(False, error)`. */
  datatype Verdict<+T> = Accept(value: T) | Reject(error: ApiError)

  const InvalidToken: ApiError := ApiError("Invalid access token", 403)
  const KgError: ApiError := ApiError("Knowledge Graph Specification Error", 400)
  const LimitError: ApiError := ApiError("limit parameter cannot be converted to int", 400)
  const KError: ApiError := ApiError("k parameter cannot be converted to int", 400)
  const BoolError: ApiError := ApiError("Bool parameter cannot be converted", 400)
  const NerTypeError: ApiError := ApiError("NERtype parameter is not valid", 400)

  /** The knowledge graph of a request that names none. */
  const DefaultKg: string := "wikidata"

  /** The number of results of a request that sets no limit. */
  const DefaultLimit: int := 1000

  /** `validate_token`: only the configured token gets through. */
  function ValidateToken(token: Option<string>, accessToken: string): (r: Verdict<()>)
    ensures r.Accept? <==> token == Some(accessToken)
    ensures r.Reject? ==> r.error == InvalidToken && r.error.status == 403
  {
    if token != Some(accessToken) then Reject(InvalidToken) else Accept(())
  }

  /** `validate_kg`: a missing kg means Wikidata, whatever the database serves;
      a named one must be served. */
  function ValidateKg(kg: Option<string>, supported: set<string>): (r: Verdict<string>)
    ensures kg.None? ==> r == Accept(DefaultKg)
    ensures kg.Some? ==> (r.Accept? <==> kg.value in supported)
    ensures kg.Some? && r.Accept? ==> r.value == kg.value
    ensures r.Reject? ==> r.error == KgError && r.error.status == 400
  {
    match kg
    case None => Accept(DefaultKg)
    case Some(name) => if name !in supported then Reject(KgError) else Accept(name)
  }

  /** `validate_limit`: the limit as `int()` reads it, 1000 when absent. */
  function ValidateLimit(limit: Option<string>): (r: Verdict<int>)
    ensures limit.None? ==> r == Accept(DefaultLimit)
    ensures limit.Some? ==> (r.Accept? <==> ParseInt(limit.value).Some?)
    ensures limit.Some? && r.Accept? ==> Some(r.value) == ParseInt(limit.value)
    ensures r.Reject? ==> r.error == LimitError && r.error.status == 400
  {
    match limit
    case None => Accept(DefaultLimit)
    case Some(s) =>
      match ParseInt(s)
      case Some(n) => Accept(n)
      case None => Reject(LimitError)
  }

  /** `validate_k`: `k` must convert to an integer, and is not passed on;
      `int(None)` raises, so a missing `k` is an error too. */
  function ValidateK(k: Option<string>): (r: Verdict<()>)
    ensures r.Accept? <==> k.Some? && ParseInt(k.value).Some?
    ensures r.Reject? ==> r.error == KError && r.error.status == 400
  {
    match k
    case None => Reject(KError)
    case Some(s) => if ParseInt(s).Some? then Accept(()) else Reject(KError)
  }

  /** `validate_bool`: `"true"` or `"false"` in any case, false when absent. */
  function ValidateBool(value: Option<string>): (r: Verdict<bool>)
    ensures value.None? ==> r == Accept(false)
    ensures value.Some? ==> (r == Accept(true) <==> Lower(value.value) == "true")
    ensures value.Some? ==> (r == Accept(false) <==> Lower(value.value) == "false")
    ensures r.Reject? ==> r.error == BoolError && r.error.status == 400
  {
    match value
    case None => Accept(false)
    case Some(s) =>
      if Lower(s) == "true" then Accept(true)
      else if Lower(s) == "false" then Accept(false)
      else Reject(BoolError)
  }

  /** The tag names `validate_NERtype` accepts. */
  const NerTypes: seq<string> := ["LOC", "ORG", "PERS", "OTHERS"]

  /** `validate_NERtype`: a missing or empty type means no filter; otherwise
      the type must be one of the four tag names, spelt exactly. */
  function ValidateNerType(nerType: Option<string>): (r: Verdict<Option<string>>)
    ensures (nerType.None? || nerType == Some("")) ==> r == Accept(None)
    ensures (nerType.Some? && nerType.value != "") ==> (r.Accept? <==> nerType.value in NerTypes)
    ensures r.Accept? && r.value.Some? ==> nerType == r.value
    ensures r.Reject? ==> r.error == NerTypeError && r.error.status == 400
  {
    match nerType
    case None => Accept(None)
    case Some(s) =>
      if |s| == 0 then Accept(None)
      else if s !in NerTypes then Reject(NerTypeError)
      else Accept(Some(s))
  }

  /** Any integer the API can write back as a limit reads as itself. */
  lemma LimitRoundTrip(n: int)
    requires DigitsOf(n) <= MaxStrDigits
    ensures ValidateLimit(Some(IntToString(n))) == Accept(n)
  {
    ParseIntOfString(n);
  }

  /** Every accepted limit has the canonical spelling `str()` gives it, and
      that spelling is accepted as the same limit. */
  lemma LimitCanonical(s: string)
    requires ValidateLimit(Some(s)).Accept?
    ensures ValidateLimit(Some(IntToString(ValidateLimit(Some(s)).value))) == ValidateLimit(Some(s))
  {
    ParsedDigits(s);
    LimitRoundTrip(ValidateLimit(Some(s)).value);
  }

  /** A limit of more than `MaxStrDigits` digits is refused, even all zeros. */
  lemma LongLimitRejected(zeros: nat)
    requires zeros > MaxStrDigits
    ensures ValidateLimit(Some(seq(zeros, k => '0'))) == Reject(LimitError)
  {
    TooManyDigits(zeros);
  }

  /** A limit or a `k` led by one of the separators U+001C to U+001F is
      refused: `int()` does not trim them. */
  lemma SeparatorRejected(c: char, s: string)
    requires '\U{1C}' <= c <= '\U{1F}'
    ensures ValidateLimit(Some([c] + s)) == Reject(LimitError)
    ensures ValidateK(Some([c] + s)) == Reject(KError)
  {
    SeparatorNotTrimmed(c, s);
  }

  /** A `k` that reads as an integer passes, whatever its value. */
  lemma KAcceptsIntegers(n: int)
    requires DigitsOf(n) <= MaxStrDigits
    ensures ValidateK(Some(IntToString(n))) == Accept(())
  {
    ParseIntOfString(n);
  }

  lemma LowerCharIdempotent(c: char)
    ensures LowerChar(LowerChar(c)) == LowerChar(c)
  {
  }

  /** Lower-casing twice is lower-casing once. */
  lemma LowerIdempotent(s: string)
    ensures Lower(Lower(s)) == Lower(s)
  {
    forall k | 0 <= k < |s|
      ensures Lower(Lower(s))[k] == Lower(s)[k]
    {
      LowerCharIdempotent(s[k]);
    }
  }

  /** The case of a boolean parameter does not matter. */
  lemma BoolIgnoresCase(s: string)
    ensures ValidateBool(Some(Lower(s))) == ValidateBool(Some(s))
  {
    LowerIdempotent(s);
  }

  /** The name a tag is stored under in an entity's `NERtype`. */
  function TagName(t: Entities.NerTag): string {
    match t
    case PERS => "PERS"
    case LOC => "LOC"
    case ORG => "ORG"
    case OTHERS => "OTHERS"
  }

  /** The NER types a request may filter on are exactly the tags the
      dump ingester stores, so each stored tag passes unchanged. */
  lemma NerTypesAreStoredTags(s: string)
    ensures ValidateNerType(Some(s)) == Accept(Some(s)) <==> exists t: Entities.NerTag :: TagName(t) == s
  {
    if s in NerTypes {
      var t: Entities.NerTag :=
        if s == "LOC" then Entities.LOC else if s == "ORG" then Entities.ORG
        else if s == "PERS" then Entities.PERS else Entities.OTHERS;
      assert TagName(t) == s;
    }
  }
}
