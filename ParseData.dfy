/** The loops of `parse_data`, written as the code runs them. Each method is
    proved to compute its part of the transform `Entities.Transform`. */
module ParseData {
  import opened Base
  import opened Seqs
  import opened Json
  import opened Snaks
  import opened Decomposition
  import opened Taxonomy
  import opened Entities

  /** The `for lang in labels` loop filling `all_labels`. */
  method CollectLabels(labels: map<string, LangText>) returns (all: map<string, string>)
    ensures all == LabelValues(labels)
  {
    all := map[];
    var todo := labels.Keys;
    while todo != {}
      invariant todo <= labels.Keys
      invariant all.Keys == labels.Keys - todo
      invariant forall lang :: lang in all ==> all[lang] == labels[lang].value
      decreases |todo|
    {
      var lang :| lang in todo;
      all := all[lang := labels[lang].value];
      todo := todo - {lang};
    }
    assert all.Keys == LabelValues(labels).Keys;
  }

  /** The nested loops filling `all_aliases`, each language's list then
      replaced by `list(set(...))`. */
  method CollectAliases(aliases: map<string, seq<LangText>>) returns (all: map<string, seq<string>>)
    ensures all == AliasLists(aliases)
  {
    all := map[];
    var todo := aliases.Keys;
    while todo != {}
      invariant todo <= aliases.Keys
      invariant all.Keys == aliases.Keys - todo
      invariant forall lang :: lang in all ==> all[lang] == Distinct(AliasValues(aliases[lang]))
      decreases |todo|
    {
      var lang :| lang in todo;
      var list := aliases[lang];
      var values: seq<string> := [];
      var k := 0;
      while k < |list|
        invariant 0 <= k <= |list|
        invariant |values| == k
        invariant forall j :: 0 <= j < k ==> values[j] == list[j].value
      {
        values := values + [list[k].value];
        k := k + 1;
      }
      assert values == AliasValues(list);
      all := all[lang := Distinct(values)];
      todo := todo - {lang};
    }
    assert all.Keys == AliasLists(aliases).Keys;
  }

  /** The `for predicate in item["claims"]` loop that sets `found`. */
  method FindPredicate(claims: seq<(string, seq<Snak>)>, p: string) returns (found: bool)
    ensures found == HasPredicate(claims, p)
  {
    found := false;
    var k := 0;
    while k < |claims|
      invariant 0 <= k <= |claims|
      invariant found == HasPredicate(claims[..k], p)
    {
      if claims[k].0 == p {
        found := true;
      }
      assert forall j :: 0 <= j < k ==> claims[..k + 1][j] == claims[..k][j];
      assert claims[..k + 1][k] == claims[k];
      k := k + 1;
    }
    assert claims[..k] == claims;
  }

  /** The P31 loop counting tags in a `Counter`. Only the key order of the
      counter is kept: the counts are never read. */
  method CountTags(p31: seq<Snak>, classes: Classes) returns (r: Result<seq<NerTag>, Failure>)
    ensures NumericIds(p31).Failure? ==> r == Failure(NumericIds(p31).error)
    ensures NumericIds(p31).Success? ==> r == Success(NerTags(NumericIds(p31).value, classes))
  {
    var counter: seq<NerTag> := [];
    ghost var ids: seq<Scalar> := [];
    var k := 0;
    while k < |p31|
      invariant 0 <= k <= |p31|
      invariant NumericIds(p31[..k]) == Success(ids)
      invariant counter == NerTags(ids, classes)
    {
      var numericId := NumericId(p31[k]);
      assert p31[..k + 1][..k] == p31[..k];
      if numericId.Failure? {
        NumericIdsFailurePersists(p31[..k + 1], p31);
        return Failure(numericId.error);
      }
      var tag := TagOf(numericId.value, classes);
      NerTagsSnoc(ids, numericId.value, classes);
      if tag !in counter {
        counter := counter + [tag];
      }
      ids := ids + [numericId.value];
      k := k + 1;
    }
    assert p31[..k] == p31;
    return Success(counter);
  }

  /** The loop copying the counter's keys, in insertion order, into `NERtype`. */
  method CopyTags(counter: seq<NerTag>) returns (nerType: seq<NerTag>)
    ensures nerType == counter
  {
    nerType := [];
    var j := 0;
    while j < |counter|
      invariant 0 <= j <= |counter|
      invariant nerType == counter[..j]
    {
      match counter[j] {
        case ORG => nerType := nerType + [ORG];
        case PERS => nerType := nerType + [PERS];
        case LOC => nerType := nerType + [LOC];
        case OTHERS => nerType := nerType + [OTHERS];
      }
      assert counter[..j + 1] == counter[..j] + [counter[j]];
      j := j + 1;
    }
    assert counter[..j] == counter;
  }

  /** The counting loop, then the copy loop. */
  method ClassifyNer(p31: seq<Snak>, classes: Classes) returns (r: Result<seq<NerTag>, Failure>)
    ensures NumericIds(p31).Failure? ==> r == Failure(NumericIds(p31).error)
    ensures NumericIds(p31).Success? ==> r == Success(NerTags(NumericIds(p31).value, classes))
  {
    r := CountTags(p31, classes);
    if r.Success? {
      var nerType := CopyTags(r.value);
      r := Success(nerType);
    }
  }

  /** The P31 loop building `types_list`. */
  method CollectExplicitTypes(p31: seq<Snak>) returns (r: Result<seq<string>, Failure>)
    ensures NumericIds(p31).Failure? ==> r == Failure(NumericIds(p31).error)
    ensures NumericIds(p31).Success? ==> r == Success(TypeNames(NumericIds(p31).value))
  {
    var typesList: seq<string> := [];
    ghost var ids: seq<Scalar> := [];
    var k := 0;
    while k < |p31|
      invariant 0 <= k <= |p31|
      invariant NumericIds(p31[..k]) == Success(ids)
      invariant typesList == TypeNames(ids)
    {
      var numericId := NumericId(p31[k]);
      assert p31[..k + 1][..k] == p31[..k];
      if numericId.Failure? {
        NumericIdsFailurePersists(p31[..k + 1], p31);
        return Failure(numericId.error);
      }
      typesList := typesList + ["Q" + Show(numericId.value)];
      ids := ids + [numericId.value];
      k := k + 1;
    }
    assert p31[..k] == p31;
    return Success(typesList);
  }

  /** The loop `total += retrieve_superclasses(el)`, then `set(total)`. */
  method ExtendTypes(typesList: seq<string>, sup: string -> seq<string>) returns (extended: set<string>)
    ensures extended == ExtendedTypes(typesList, sup)
  {
    var total: seq<string> := [];
    var k := 0;
    while k < |typesList|
      invariant 0 <= k <= |typesList|
      invariant total == AllSuperclasses(typesList[..k], sup)
    {
      assert typesList[..k + 1][..k] == typesList[..k];
      total := total + sup(typesList[k]);
      k := k + 1;
    }
    assert typesList[..k] == typesList;
    extended := set x | x in total;
  }

  /** The body of the inner loop: one claim `obj` of predicate `p` added to
      the maps, or the exception it raises. */
  method AddClaim(p: string, obj: Snak, b: Buckets) returns (r: Result<Buckets, Failure>)
    requires WellFormed(b)
    ensures r == Step(b, p, obj)
  {
    var objects, literals, types := b.objects, b.literals, b.types;
    var dataType := obj.dataType;
    if CheckSkip(obj, dataType) {
      return Success(Buckets(objects, literals, types));
    }
    if dataType == "wikibase-item" || dataType == "wikibase-property" {
      match obj.datavalue.value {
        case Plain(_) =>
          return Failure(TypeError);
        case Record(f) =>
          if "id" !in f {
            return Failure(KeyError("id"));
          }
          var value := f["id"];
          var newTypes := types;
          if p == "P31" || p == "P106" {
            newTypes := types + [value];
          }
          var newObjects := objects;
          if value !in newObjects {
            newObjects := newObjects[value := []];
          }
          newObjects := newObjects[value := newObjects[value] + [p]];
          assert newObjects == objects[value := ObjectsAt(objects, value) + [p]];
          assert Classify(p, obj) == Success(Link(value, DeclaresType(p)));
          return Success(Buckets(newObjects, literals, newTypes));
      }
    }
    var value := GetValue(obj, dataType);
    if value.Failure? {
      return Failure(value.error);
    }
    if dataType !in DatatypeMappings {
      return Failure(KeyError(dataType));
    }
    var category := DatatypeMappings[dataType];
    var lit := literals[category];
    if p !in lit {
      lit := lit[p := []];
    }
    lit := lit[p := lit[p] + [value.value]];
    assert lit == literals[category][p := LiteralsAt(literals[category], p) + [value.value]];
    assert Classify(p, obj) == Success(Literal(category, value.value));
    return Success(Buckets(objects, literals[category := lit], types));
  }

  /** The inner loop over the claims of one predicate, continuing the maps
      that the claims `done` produced. */
  method DecomposePredicate(ghost done: seq<(string, Snak)>, p: string, snaks: seq<Snak>, b: Buckets)
    returns (r: Result<Buckets, Failure>)
    requires Decompose(done) == Success(b)
    ensures r == Decompose(done + Pairs(p, snaks))
  {
    var acc := b;
    var j := 0;
    assert snaks[..0] == [] && done + Pairs(p, []) == done;
    while j < |snaks|
      invariant 0 <= j <= |snaks|
      invariant Decompose(done + Pairs(p, snaks[..j])) == Success(acc)
    {
      PredicateStep(done, p, snaks, j, acc);
      var step := AddClaim(p, snaks[j], acc);
      if step.Failure? {
        PredicateFailurePersists(done, p, snaks, j + 1);
        return step;
      }
      acc := step.value;
      j := j + 1;
    }
    assert snaks[..j] == snaks;
    return Success(acc);
  }

  /** The nested loops over the predicates and their claims that fill
      `objects`, `literals` and `types["P31"]`. */
  method DecomposeClaims(claims: seq<(string, seq<Snak>)>) returns (r: Result<Buckets, Failure>)
    ensures r == Decompose(ClaimList(claims))
  {
    var b := Start();
    var i := 0;
    while i < |claims|
      invariant 0 <= i <= |claims|
      invariant Decompose(ClaimList(claims[..i])) == Success(b)
    {
      ClaimListSnoc(claims, i);
      var step := DecomposePredicate(ClaimList(claims[..i]), claims[i].0, claims[i].1, b);
      if step.Failure? {
        ClaimsFailurePersists(claims, i + 1);
        return step;
      }
      b := step.value;
      i := i + 1;
    }
    assert claims[..i] == claims;
    return Success(b);
  }

  /** `parse_data` up to the records it appends: the statements of the source
      in their order, with each exception as an early `Failure`. */
  method ParseEntity(e: RawEntity, i: nat, classes: Classes, sup: string -> seq<string>)
    returns (r: Result<Derived, Failure>)
    ensures r == Transform(e, i, classes, sup)
  {
    if e.id.None? {
      return Failure(KeyError("id"));
    }
    var entity := e.id.value;
    var description := if "en" in e.descriptions then Some(e.descriptions["en"]) else None;
    var kind := Entity;
    var popularity := if |e.sitelinks| > 0 then |e.sitelinks| else 1;
    var allLabels := CollectLabels(e.labels);
    var allAliases := CollectAliases(e.aliases);
    if e.claims.None? {
      return Failure(KeyError("claims"));
    }
    var claims := e.claims.value;
    var found := FindPredicate(claims, "P279");
    if found {
      kind := Type;
    }
    if |entity| == 0 {
      return Failure(IndexError);
    }
    if entity[0] == 'P' {
      kind := Predicate;
    }
    if e.entityType != Some("item") {
      return Failure(UnboundLocal("types_list"));
    }
    var p31 := ClaimsOf(claims, "P31");
    var nerType := ClassifyNer(p31, classes);
    if nerType.Failure? {
      return Failure(nerType.error);
    }
    // The loop over the same claims cannot raise once the counting loop did not.
    var typesList := CollectExplicitTypes(p31);
    var extended := ExtendTypes(typesList.value, sup);
    if "enwiki" !in e.sitelinks {
      return Failure(KeyError("enwiki"));
    }
    var decomposed := DecomposeClaims(claims);
    if decomposed.Failure? {
      return Failure(decomposed.error);
    }
    var b := decomposed.value;
    var item := ItemRecord(
      i, entity, description, allLabels, allAliases, b.types, popularity, kind,
      nerType.value, extended, typesList.value);
    assert kind == KindOf(entity, claims);
    r := Success(Derived(
      item,
      ObjectsRecord(i, entity, b.objects),
      LiteralsRecord(i, entity, b.literals),
      TypesRecord(i, entity, b.types)));
  }
}
