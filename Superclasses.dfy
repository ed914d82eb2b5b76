/** `retrieve_superclasses`: the superclass query sent through the retrying
    `query_wikidata`, then its answer turned into identifiers through a
    dictionary keyed by label. The endpoint is an input: the outcome of each
    attempt, by attempt number. */
module Superclasses {
  import opened Base
  import opened Seqs
  import opened PyText
  import Taxonomy

  /** One row of the answer: the superclass URI and its label. */
  datatype Binding = Binding(superclass: string, superclassLabel: string)

  /** The outcome of one attempt: an answer, an error whose text mentions 429,
      or any other error. */
  datatype Attempt = Answer(bindings: seq<Binding>) | RateLimited | Failed

  /** The `retries` default of `query_wikidata`. */
  const Retries: nat := 3

  /** What `query_wikidata` returns from attempt `attempt` on: the answer of
      the first attempt that succeeds while only rate limits came before, and
      nothing after another error or once the attempts run out. */
  function FirstAnswer(outcome: nat -> Attempt, attempt: nat, retries: nat): Option<seq<Binding>>
    decreases retries - attempt
  {
    if attempt >= retries then None
    else
      match outcome(attempt)
      case Answer(b) => Some(b)
      case RateLimited => FirstAnswer(outcome, attempt + 1, retries)
      case Failed => None
  }

  /** The query yields an answer exactly when some attempt answers and every
      attempt before it hit the rate limit. */
  lemma {:induction false} FirstAnswerSpec(outcome: nat -> Attempt, attempt: nat, retries: nat, b: seq<Binding>)
    ensures FirstAnswer(outcome, attempt, retries) == Some(b) <==>
      exists k :: attempt <= k < retries && outcome(k) == Answer(b) &&
        forall j :: attempt <= j < k ==> outcome(j) == RateLimited
    decreases retries - attempt
  {
    if attempt < retries {
      FirstAnswerSpec(outcome, attempt + 1, retries, b);
      if outcome(attempt).RateLimited? {
        if exists k :: attempt <= k < retries && outcome(k) == Answer(b) &&
            forall j :: attempt <= j < k ==> outcome(j) == RateLimited {
          var k :| attempt <= k < retries && outcome(k) == Answer(b) &&
            forall j :: attempt <= j < k ==> outcome(j) == RateLimited;
          assert attempt + 1 <= k;
        }
      } else {
        if outcome(attempt) == Answer(b) {
          assert attempt <= attempt < retries && outcome(attempt) == Answer(b);
        }
      }
    }
  }

  /** The bounded retry loop of `query_wikidata`; the pause after a rate limit
      is not modelled. */
  method QueryWikidata(outcome: nat -> Attempt, retries: nat) returns (results: Option<seq<Binding>>)
    ensures results == FirstAnswer(outcome, 0, retries)
  {
    var attempt := 0;
    while attempt < retries
      invariant attempt <= retries
      invariant FirstAnswer(outcome, attempt, retries) == FirstAnswer(outcome, 0, retries)
    {
      match outcome(attempt) {
        case Answer(b) =>
          return Some(b);
        case RateLimited =>
        case Failed =>
          return None;
      }
      attempt := attempt + 1;
    }
    return None;
  }

  /** Three rate limits in a row exhaust the default retries. */
  lemma ThreeRateLimitsGiveUp(outcome: nat -> Attempt)
    requires outcome(0) == RateLimited && outcome(1) == RateLimited && outcome(2) == RateLimited
    ensures FirstAnswer(outcome, 0, Retries) == None
  {
  }

  /** `"Q" + superclass_id[1:]` for the last path segment of the URI. */
  function IdOf(uri: string): string {
    var segment := LastSegment(uri);
    "Q" + (if |segment| > 0 then segment[1..] else [])
  }

  /** The identifier read from an entity URI is the entity's own `Q` identifier. */
  lemma IdOfEntityUri(n: nat)
    ensures IdOf(Taxonomy.EntityUri(n)) == "Q" + NatToString(n)
  {
    Taxonomy.ItemIdHasNoSlash(n);
    LastSegmentAfterSlash(Taxonomy.EntityPath, "Q" + NatToString(n));
    assert ("Q" + NatToString(n))[1..] == NatToString(n);
  }

  /** A Python dict with string keys and values: its keys in insertion order
      and its entries. */
  datatype OrderedDict = OrderedDict(keys: seq<string>, entries: map<string, string>)

  predicate ValidDict(d: OrderedDict) {
    NoDup(d.keys) && (forall k :: 0 <= k < |d.keys| ==> d.keys[k] in d.entries) &&
    forall key :: key in d.entries ==> key in d.keys
  }

  /** `d[key] = value`: a new key goes last, an existing key keeps its place. */
  function Assign(d: OrderedDict, key: string, value: string): (r: OrderedDict)
    requires ValidDict(d)
    ensures ValidDict(r)
  {
    if key in d.entries then OrderedDict(d.keys, d.entries[key := value])
    else
      assert forall k :: 0 <= k < |d.keys| ==> d.keys[k] != key;
      OrderedDict(d.keys + [key], d.entries[key := value])
  }

  function Labels(bindings: seq<Binding>): (r: seq<string>)
    ensures |r| == |bindings|
    ensures forall k :: 0 <= k < |r| ==> r[k] == bindings[k].superclassLabel
  {
    if bindings == [] then [] else Labels(bindings[..|bindings| - 1]) + [bindings[|bindings| - 1].superclassLabel]
  }

  /** `superclass_dict` after the loop over the bindings. */
  function LabelDict(bindings: seq<Binding>): (d: OrderedDict)
    ensures ValidDict(d)
  {
    if bindings == [] then OrderedDict([], map[])
    else
      var b := bindings[|bindings| - 1];
      Assign(LabelDict(bindings[..|bindings| - 1]), b.superclassLabel, IdOf(b.superclass))
  }

  /** The identifier of the last binding with label `name`, if any. */
  function LastIdFor(bindings: seq<Binding>, name: string): Option<string> {
    if bindings == [] then None
    else if bindings[|bindings| - 1].superclassLabel == name then Some(IdOf(bindings[|bindings| - 1].superclass))
    else LastIdFor(bindings[..|bindings| - 1], name)
  }

  /** The dictionary holds one key per distinct label, in first-occurrence order. */
  lemma {:induction false} LabelDictKeys(bindings: seq<Binding>)
    ensures LabelDict(bindings).keys == Distinct(Labels(bindings))
  {
    if bindings != [] {
      var init := bindings[..|bindings| - 1];
      LabelDictKeys(init);
      assert Labels(bindings)[..|bindings| - 1] == Labels(init);
      var b := bindings[|bindings| - 1];
      var d := LabelDict(init);
      assert b.superclassLabel in d.entries <==> b.superclassLabel in d.keys;
    }
  }

  /** A label is a key exactly when some binding carries it, and it maps to the
      identifier of the last such binding: later labels overwrite earlier ones. */
  lemma {:induction false} LabelDictEntries(bindings: seq<Binding>, name: string)
    ensures name in LabelDict(bindings).entries <==> LastIdFor(bindings, name).Some?
    ensures name in LabelDict(bindings).entries ==>
      LabelDict(bindings).entries[name] == LastIdFor(bindings, name).value
  {
    if bindings != [] {
      var init := bindings[..|bindings| - 1];
      var b := bindings[|bindings| - 1];
      LabelDictEntries(init, name);
      var d := LabelDict(init);
      var id := IdOf(b.superclass);
      assert LabelDict(bindings) == Assign(d, b.superclassLabel, id);
      if b.superclassLabel == name {
        assert LastIdFor(bindings, name) == Some(id);
        assert Assign(d, b.superclassLabel, id).entries[name] == id;
      } else {
        assert LastIdFor(bindings, name) == LastIdFor(init, name);
        assert Assign(d, b.superclassLabel, id).entries == d.entries[b.superclassLabel := id];
      }
    }
  }

  function Values(d: OrderedDict): (r: seq<string>)
    requires ValidDict(d)
    ensures |r| == |d.keys|
  {
    seq(|d.keys|, k requires 0 <= k < |d.keys| => d.entries[d.keys[k]])
  }

  /** The list `retrieve_superclasses` returns for the outcomes of its attempts:
      the dictionary's values, or nothing when the query gave no answer. */
  function Retrieve(outcome: nat -> Attempt): seq<string> {
    match FirstAnswer(outcome, 0, Retries)
    case Some(bindings) => Values(LabelDict(bindings))
    case None => []
  }

  /** Each value of the dictionary is the identifier of the last binding with its key. */
  lemma DictValues(bindings: seq<Binding>, k: nat)
    requires k < |LabelDict(bindings).keys|
    ensures LastIdFor(bindings, LabelDict(bindings).keys[k]) == Some(Values(LabelDict(bindings))[k])
  {
    var d := LabelDict(bindings);
    assert d.keys[k] in d.entries;
    LabelDictEntries(bindings, d.keys[k]);
  }

  /** One identifier per distinct label, that of its last binding. */
  lemma RetrieveSpec(outcome: nat -> Attempt, bindings: seq<Binding>, k: nat)
    requires FirstAnswer(outcome, 0, Retries) == Some(bindings)
    requires k < |Retrieve(outcome)|
    ensures |Retrieve(outcome)| == |Distinct(Labels(bindings))|
    ensures k < |Distinct(Labels(bindings))| &&
      LastIdFor(bindings, Distinct(Labels(bindings))[k]) == Some(Retrieve(outcome)[k])
  {
    var d := LabelDict(bindings);
    assert Retrieve(outcome) == Values(d);
    LabelDictKeys(bindings);
    DictValues(bindings, k);
  }

  /** `retrieve_superclasses`: the query, then the loop filling the dictionary. */
  method RetrieveSuperclasses(outcome: nat -> Attempt) returns (ids: seq<string>)
    ensures ids == Retrieve(outcome)
  {
    var results := QueryWikidata(outcome, Retries);
    if results.None? {
      return [];
    }
    var bindings := results.value;
    var superclassDict := OrderedDict([], map[]);
    var k := 0;
    while k < |bindings|
      invariant 0 <= k <= |bindings|
      invariant superclassDict == LabelDict(bindings[..k])
    {
      assert bindings[..k + 1][..k] == bindings[..k];
      var superclassId := LastSegment(bindings[k].superclass);
      var name := bindings[k].superclassLabel;
      superclassDict := Assign(superclassDict, name, "Q" + (if |superclassId| > 0 then superclassId[1..] else []));
      k := k + 1;
    }
    assert bindings[..k] == bindings;
    ids := Values(superclassDict);
  }
}
