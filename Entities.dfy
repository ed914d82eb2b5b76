/** The per-entity transform `parse_data`: one decoded dump record, the two
    taxonomy class sets and a superclass oracle give either the four records
    written to the `items`, `objects`, `literals` and `types` collections, or
    the exception that stops the transform. */
module Entities {
  import opened Base
  import opened Seqs
  import opened Json
  import opened Snaks
  import opened Decomposition
  import opened Taxonomy
  import PyText
  import Superclasses

  /** A label, alias or description: its language code and its text. */
  datatype LangText = LangText(language: string, value: string)

  /** The members of a decoded dump record that `parse_data` reads. `None` is
      a missing member where the code subscripts it; the members it reads with
      `.get(..., {})` are empty maps when missing. A sitelink is given by its
      title. `claims` lists the predicates in key order with their claims'
      main snaks. */
  datatype RawEntity = RawEntity(
    id: Option<string>,
    entityType: Option<string>,
    labels: map<string, LangText>,
    aliases: map<string, seq<LangText>>,
    descriptions: map<string, LangText>,
    sitelinks: map<string, string>,
    claims: Option<seq<(string, seq<Snak>)>>)

  /** The `kind` of an item record. */
  datatype Kind = Entity | Type | Predicate

  /** The named-entity tags of an item record. */
  datatype NerTag = PERS | LOC | ORG | OTHERS

  datatype ItemRecord = ItemRecord(
    idEntity: nat,
    entity: string,
    description: Option<LangText>,
    labels: map<string, string>,
    aliases: map<string, seq<string>>,
    types: seq<Scalar>,
    popularity: nat,
    kind: Kind,
    nerType: seq<NerTag>,
    extendedTypes: set<string>,
    explicitTypes: seq<string>)

  datatype ObjectsRecord = ObjectsRecord(idEntity: nat, entity: string, objects: map<Scalar, seq<string>>)

  datatype LiteralsRecord = LiteralsRecord(idEntity: nat, entity: string, literals: map<string, map<string, seq<Value>>>)

  datatype TypesRecord = TypesRecord(idEntity: nat, entity: string, types: seq<Scalar>)

  /** The four records one successful `parse_data` appends to the buffer. */
  datatype Derived = Derived(item: ItemRecord, objects: ObjectsRecord, literals: LiteralsRecord, types: TypesRecord)

  // ---- Labels, aliases, popularity and kind ----

  /** `all_labels`: the text of the label in each language. */
  function LabelValues(labels: map<string, LangText>): map<string, string> {
    map lang | lang in labels :: labels[lang].value
  }

  /** The texts of one language's aliases, in order. */
  function AliasValues(aliases: seq<LangText>): (r: seq<string>)
    ensures |r| == |aliases|
  {
    seq(|aliases|, k requires 0 <= k < |aliases| => aliases[k].value)
  }

  /** `all_aliases`: each language's alias texts with duplicates removed. */
  function AliasLists(aliases: map<string, seq<LangText>>): map<string, seq<string>> {
    map lang | lang in aliases :: Distinct(AliasValues(aliases[lang]))
  }

  /** Every language keeps its aliases, each text exactly once. */
  lemma AliasListsSpec(aliases: map<string, seq<LangText>>, lang: string, v: string)
    requires lang in aliases
    ensures lang in AliasLists(aliases) && NoDup(AliasLists(aliases)[lang])
    ensures v in AliasLists(aliases)[lang] <==> exists k :: 0 <= k < |aliases[lang]| && aliases[lang][k].value == v
  {
    var values := AliasValues(aliases[lang]);
    var r := Distinct(values);
    assert AliasLists(aliases)[lang] == r;
    if v in r {
      var k :| 0 <= k < |r| && r[k] == v;
      var j :| 0 <= j < |values| && values[j] == r[k];
    }
    if exists k :: 0 <= k < |aliases[lang]| && aliases[lang][k].value == v {
      var k :| 0 <= k < |aliases[lang]| && aliases[lang][k].value == v;
      assert values[k] == v;
    }
  }

  /** Whether some claim is made with predicate `p`. */
  predicate HasPredicate(claims: seq<(string, seq<Snak>)>, p: string) {
    exists k :: 0 <= k < |claims| && claims[k].0 == p
  }

  /** `popularity`: the number of sitelinks, or 1 when there are none. */
  function Popularity(sitelinks: map<string, string>): (n: nat)
    ensures n >= 1
    ensures |sitelinks| > 0 ==> n == |sitelinks|
    ensures |sitelinks| == 0 ==> n == 1
  {
    if |sitelinks| > 0 then |sitelinks| else 1
  }

  /** The kind of the entity with identifier `id`: a property id makes a
      predicate, otherwise a P279 claim makes a type. */
  function KindOf(id: string, claims: seq<(string, seq<Snak>)>): (k: Kind)
    requires |id| > 0
    ensures k == Predicate <==> id[0] == 'P'
    ensures k == Type <==> id[0] != 'P' && HasPredicate(claims, "P279")
    ensures k == Entity <==> id[0] != 'P' && !HasPredicate(claims, "P279")
  {
    if id[0] == 'P' then Predicate
    else if HasPredicate(claims, "P279") then Type
    else Entity
  }

  /** `item["claims"].get(p, [])`: the claims of the first entry for `p`. */
  function ClaimsOf(claims: seq<(string, seq<Snak>)>, p: string): (r: seq<Snak>)
    ensures !HasPredicate(claims, p) ==> r == []
    ensures HasPredicate(claims, p) ==> exists k :: 0 <= k < |claims| && claims[k] == (p, r)
  {
    if claims == [] then []
    else if claims[0].0 == p then claims[0].1
    else
      var r := ClaimsOf(claims[1..], p);
      assert HasPredicate(claims[1..], p) ==> HasPredicate(claims, p) by {
        if HasPredicate(claims[1..], p) {
          var k :| 0 <= k < |claims[1..]| && claims[1..][k].0 == p;
          assert claims[k + 1].0 == p;
        }
      }
      assert HasPredicate(claims, p) ==> HasPredicate(claims[1..], p) by {
        if HasPredicate(claims, p) {
          var k :| 0 <= k < |claims| && claims[k].0 == p;
          assert k > 0 && claims[1..][k - 1].0 == p;
        }
      }
      assert HasPredicate(claims[1..], p) ==> exists k :: 0 <= k < |claims| && claims[k] == (p, r) by {
        if HasPredicate(claims[1..], p) {
          var k :| 0 <= k < |claims[1..]| && claims[1..][k] == (p, r);
          assert claims[k + 1] == (p, r);
        }
      }
      r
  }

  // ---- Named-entity tags and explicit types ----

  /** `datavalue.get("value", {}).get("numeric-id")` of one P31 claim: `Null`
      stands for Python's `None`, and a plain string value has no `.get`. */
  function NumericId(s: Snak): (r: Result<Scalar, Failure>)
    ensures r.Failure? <==> s.datavalue.Some? && s.datavalue.value.Plain?
    ensures r.Failure? ==> r.error == AttributeError
    ensures s.datavalue.None? ==> r == Success(Null)
  {
    match s.datavalue
    case None => Success(Null)
    case Some(Plain(_)) => Failure(AttributeError)
    case Some(Record(f)) => Success(if "numeric-id" in f then f["numeric-id"] else Null)
  }

  /** A claim whose value is a plain string: reading its numeric id raises. */
  predicate PlainValued(s: Snak) {
    s.datavalue.Some? && s.datavalue.value.Plain?
  }

  /** The numeric ids of a sequence of P31 claims, or the exception of the first
      claim that has none. */
  function NumericIds(snaks: seq<Snak>): (r: Result<seq<Scalar>, Failure>)
    ensures r.Failure? <==> exists k :: 0 <= k < |snaks| && PlainValued(snaks[k])
    ensures r.Failure? ==> r.error == AttributeError
    ensures r.Success? ==> |r.value| == |snaks|
    ensures r.Success? ==> forall k :: 0 <= k < |snaks| ==> NumericId(snaks[k]) == Success(r.value[k])
  {
    if snaks == [] then Success([])
    else
      var init := snaks[..|snaks| - 1];
      var last := snaks[|snaks| - 1];
      assert forall k :: 0 <= k < |init| ==> init[k] == snaks[k];
      match NumericIds(init)
      case Failure(e) => Failure(e)
      case Success(ids) =>
        match NumericId(last)
        case Failure(e) => Failure(e)
        case Success(n) => Success(ids + [n])
  }

  /** Once a prefix of the claims raises, every longer sequence raises the same. */
  lemma {:induction false} NumericIdsFailurePersists(xs: seq<Snak>, ys: seq<Snak>)
    requires xs <= ys && NumericIds(xs).Failure?
    ensures NumericIds(ys) == NumericIds(xs)
    decreases |ys|
  {
    if |ys| > |xs| {
      assert xs <= ys[..|ys| - 1];
      NumericIdsFailurePersists(xs, ys[..|ys| - 1]);
    } else {
      assert xs == ys;
    }
  }

  /** The tag of one P31 claim, by the first rule that matches: the human class
      Q5, a location class, an organization class, anything else. */
  function TagOf(n: Scalar, classes: Classes): (t: NerTag)
    ensures n == Int(5) ==> t == PERS
    ensures t == PERS ==> n == Int(5)
    ensures t == LOC <==> n != Int(5) && n.Int? && n.i in classes.locations
    ensures t == ORG <==> n != Int(5) && n.Int? && n.i !in classes.locations && n.i in classes.organizations
  {
    if n == Int(5) then PERS
    else if n.Int? && n.i in classes.locations then LOC
    else if n.Int? && n.i in classes.organizations then ORG
    else OTHERS
  }

  function Tags(ids: seq<Scalar>, classes: Classes): (r: seq<NerTag>)
    ensures |r| == |ids|
  {
    seq(|ids|, k requires 0 <= k < |ids| => TagOf(ids[k], classes))
  }

  /** `NERtype`: the tags of the claims, each once, in the order the counter
      first met them. */
  function NerTags(ids: seq<Scalar>, classes: Classes): seq<NerTag> {
    Distinct(Tags(ids, classes))
  }

  /** One more P31 id adds its tag at the end, unless the tag is already listed. */
  lemma NerTagsSnoc(ids: seq<Scalar>, x: Scalar, classes: Classes)
    ensures NerTags(ids + [x], classes) ==
      if TagOf(x, classes) in NerTags(ids, classes) then NerTags(ids, classes)
      else NerTags(ids, classes) + [TagOf(x, classes)]
  {
    var all := Tags(ids + [x], classes);
    assert all[..|ids|] == Tags(ids, classes);
    assert all[|ids|] == TagOf(x, classes);
  }

  /** A tag is listed once, exactly when some claim maps to it. */
  lemma NerTagsSpec(ids: seq<Scalar>, classes: Classes, t: NerTag)
    ensures NoDup(NerTags(ids, classes))
    ensures t in NerTags(ids, classes) <==> exists k :: 0 <= k < |ids| && TagOf(ids[k], classes) == t
  {
    var tags := Tags(ids, classes);
    if t in NerTags(ids, classes) {
      var j :| 0 <= j < |NerTags(ids, classes)| && NerTags(ids, classes)[j] == t;
      var k :| 0 <= k < |tags| && tags[k] == t;
    }
    if exists k :: 0 <= k < |ids| && TagOf(ids[k], classes) == t {
      var k :| 0 <= k < |ids| && TagOf(ids[k], classes) == t;
      assert tags[k] == t;
    }
  }

  /** An entity that is an instance of humans only is tagged PERS alone. */
  lemma {:induction false} OnlyHumansArePersons(ids: seq<Scalar>, classes: Classes)
    requires |ids| > 0 && forall k :: 0 <= k < |ids| ==> ids[k] == Int(5)
    ensures NerTags(ids, classes) == [PERS]
  {
    var init := ids[..|ids| - 1];
    assert Tags(ids, classes)[..|ids| - 1] == Tags(init, classes);
    if |init| > 0 {
      OnlyHumansArePersons(init, classes);
    } else {
      assert Tags(init, classes) == [];
    }
  }

  /** `types_list`: "Q" followed by `str()` of each numeric id. */
  function TypeNames(ids: seq<Scalar>): (r: seq<string>)
    ensures |r| == |ids|
  {
    seq(|ids|, k requires 0 <= k < |ids| => "Q" + Show(ids[k]))
  }

  /** The explicit type of an integer numeric id `n` is the item identifier
      `Qn`, the same identifier `retrieve_superclasses` reads from the entity
      URI of that item. */
  lemma TypeNameOfItem(ids: seq<Scalar>, k: nat, n: nat)
    requires k < |ids| && ids[k] == Int(n)
    ensures TypeNames(ids)[k] == "Q" + PyText.NatToString(n)
    ensures TypeNames(ids)[k] == Superclasses.IdOf(EntityUri(n))
  {
    Superclasses.IdOfEntityUri(n);
  }

  /** The superclass lists of the explicit types, concatenated (`total`). */
  function AllSuperclasses(types: seq<string>, sup: string -> seq<string>): seq<string> {
    if types == [] then [] else AllSuperclasses(types[..|types| - 1], sup) + sup(types[|types| - 1])
  }

  /** `extended_WDtypes`: the set of all superclasses of the explicit types. */
  function ExtendedTypes(types: seq<string>, sup: string -> seq<string>): set<string> {
    set x | x in AllSuperclasses(types, sup)
  }

  /** A class is an extended type exactly when it is a superclass of some explicit type. */
  lemma {:induction false} ExtendedTypesSpec(types: seq<string>, sup: string -> seq<string>, x: string)
    ensures x in ExtendedTypes(types, sup) <==> exists k :: 0 <= k < |types| && x in sup(types[k])
  {
    if types != [] {
      var init := types[..|types| - 1];
      ExtendedTypesSpec(init, sup, x);
      assert forall k :: 0 <= k < |init| ==> init[k] == types[k];
      if x in sup(types[|types| - 1]) {
        assert x in AllSuperclasses(types, sup);
      }
    }
  }

  // ---- The whole transform ----

  /** `parse_data` on one record. Its exceptions, in the order the code can raise
      them: no `id` (line 265); no `claims` (286); an empty `id` (292); a `type`
      other than "item", which leaves `types_list` unbound (356); a P31 claim
      with a plain value (317); no `enwiki` sitelink (372); a failing claim in
      the decomposition (381-433). */
  function Transform(e: RawEntity, i: nat, classes: Classes, sup: string -> seq<string>): (r: Result<Derived, Failure>)
    ensures e.id.None? ==> r == Failure(KeyError("id"))
    ensures e.id.Some? && e.claims.None? ==> r == Failure(KeyError("claims"))
    ensures e.id == Some("") && e.claims.Some? ==> r == Failure(IndexError)
    ensures (e.id.Some? && e.id.value != "" && e.claims.Some? && e.entityType != Some("item")) ==>
      r == Failure(UnboundLocal("types_list"))
    ensures r.Success? <==>
      && e.id.Some? && e.id.value != "" && e.claims.Some? && e.entityType == Some("item")
      && "enwiki" in e.sitelinks
      && NumericIds(ClaimsOf(e.claims.value, "P31")).Success?
      && Decompose(ClaimList(e.claims.value)).Success?
    ensures (e.id.Some? && e.id.value != "" && e.claims.Some? && e.entityType == Some("item") &&
             NumericIds(ClaimsOf(e.claims.value, "P31")).Failure?) ==>
      r == Failure(AttributeError)
    ensures (e.id.Some? && e.id.value != "" && e.claims.Some? && e.entityType == Some("item") &&
             NumericIds(ClaimsOf(e.claims.value, "P31")).Success? && "enwiki" !in e.sitelinks) ==>
      r == Failure(KeyError("enwiki"))
    ensures (e.id.Some? && e.id.value != "" && e.claims.Some? && e.entityType == Some("item") &&
             NumericIds(ClaimsOf(e.claims.value, "P31")).Success? && "enwiki" in e.sitelinks &&
             Decompose(ClaimList(e.claims.value)).Failure?) ==>
      r == Failure(Decompose(ClaimList(e.claims.value)).error)
    ensures r.Success? ==>
      var d := r.value;
      && d.item.idEntity == i && d.objects.idEntity == i && d.literals.idEntity == i && d.types.idEntity == i
      && d.item.entity == e.id.value && d.objects.entity == e.id.value
      && d.literals.entity == e.id.value && d.types.entity == e.id.value
      && d.item.types == d.types.types
      && d.item.popularity == |e.sitelinks| >= 1
      && d.item.kind == KindOf(e.id.value, e.claims.value)
      && d.literals.literals.Keys == Categories
      && |d.item.explicitTypes| == |ClaimsOf(e.claims.value, "P31")|
      && d.item.explicitTypes == TypeNames(NumericIds(ClaimsOf(e.claims.value, "P31")).value)
  {
    if e.id.None? then Failure(KeyError("id"))
    else if e.claims.None? then Failure(KeyError("claims"))
    else
      var entity := e.id.value;
      var claims := e.claims.value;
      if entity == [] then Failure(IndexError)
      else if e.entityType != Some("item") then Failure(UnboundLocal("types_list"))
      else
        match NumericIds(ClaimsOf(claims, "P31"))
        case Failure(err) => Failure(err)
        case Success(ids) =>
          if "enwiki" !in e.sitelinks then Failure(KeyError("enwiki"))
          else
            match Decompose(ClaimList(claims))
            case Failure(err) => Failure(err)
            case Success(b) =>
              var explicit := TypeNames(ids);
              var item := ItemRecord(
                i, entity,
                if "en" in e.descriptions then Some(e.descriptions["en"]) else None,
                LabelValues(e.labels), AliasLists(e.aliases),
                b.types, Popularity(e.sitelinks), KindOf(entity, claims),
                NerTags(ids, classes), ExtendedTypes(explicit, sup), explicit);
              Success(Derived(
                item,
                ObjectsRecord(i, entity, b.objects),
                LiteralsRecord(i, entity, b.literals),
                TypesRecord(i, entity, b.types)))
  }

  /** An entity without P31 claims gets no tags and no explicit or extended types. */
  lemma NoInstanceClaims(e: RawEntity, i: nat, classes: Classes, sup: string -> seq<string>)
    requires e.claims.Some? && ClaimsOf(e.claims.value, "P31") == []
    requires Transform(e, i, classes, sup).Success?
    ensures Transform(e, i, classes, sup).value.item.nerType == []
    ensures Transform(e, i, classes, sup).value.item.explicitTypes == []
    ensures Transform(e, i, classes, sup).value.item.extendedTypes == {}
  {
    assert Tags([], classes) == [];
  }

  /** The item record of a successful transform carries the tags, the explicit
      types and the extended types of its P31 claims. */
  lemma TransformItem(e: RawEntity, i: nat, classes: Classes, sup: string -> seq<string>)
    requires Transform(e, i, classes, sup).Success?
    ensures var ids := NumericIds(ClaimsOf(e.claims.value, "P31")).value;
      var item := Transform(e, i, classes, sup).value.item;
      && item.nerType == NerTags(ids, classes)
      && item.explicitTypes == TypeNames(ids)
      && item.extendedTypes == ExtendedTypes(TypeNames(ids), sup)
  {
  }

  /** The item record of a successful transform carries the kind, the
      aliases and the popularity of the entity. */
  lemma TransformFields(e: RawEntity, i: nat, classes: Classes, sup: string -> seq<string>)
    requires Transform(e, i, classes, sup).Success?
    ensures var item := Transform(e, i, classes, sup).value.item;
      && item.kind == KindOf(e.id.value, e.claims.value)
      && item.aliases == AliasLists(e.aliases)
      && item.popularity == Popularity(e.sitelinks)
  {
  }

  /** The tags of a successful transform are those of its P31 claims, each once. */
  lemma TransformTags(e: RawEntity, i: nat, classes: Classes, sup: string -> seq<string>, t: NerTag)
    requires Transform(e, i, classes, sup).Success?
    ensures NoDup(Transform(e, i, classes, sup).value.item.nerType)
    ensures var p31 := ClaimsOf(e.claims.value, "P31");
      t in Transform(e, i, classes, sup).value.item.nerType <==>
      exists k :: 0 <= k < |p31| && TagOf(NumericId(p31[k]).value, classes) == t
  {
    var p31 := ClaimsOf(e.claims.value, "P31");
    TransformItem(e, i, classes, sup);
    ClaimTags(p31, classes, t);
  }

  /** The tags of the P31 claims, read through their numeric ids. */
  lemma ClaimTags(p31: seq<Snak>, classes: Classes, t: NerTag)
    requires NumericIds(p31).Success?
    ensures NoDup(NerTags(NumericIds(p31).value, classes))
    ensures t in NerTags(NumericIds(p31).value, classes) <==>
      exists k :: 0 <= k < |p31| && TagOf(NumericId(p31[k]).value, classes) == t
  {
    var ids := NumericIds(p31).value;
    NerTagsSpec(ids, classes, t);
    assert forall k :: 0 <= k < |p31| ==> NumericId(p31[k]).value == ids[k];
  }

  /** The object, literal and type maps of a successful transform are the
      decomposition of all its claims. */
  lemma TransformClaims(e: RawEntity, i: nat, classes: Classes, sup: string -> seq<string>)
    requires Transform(e, i, classes, sup).Success?
    ensures var b := Decompose(ClaimList(e.claims.value)).value;
      var d := Transform(e, i, classes, sup).value;
      d.objects.objects == b.objects && d.literals.literals == b.literals && d.types.types == b.types
  {
  }

  /** An example record: Douglas Adams, an instance of
      human, with an English sitelink. */
  function Q42(): RawEntity {
    RawEntity(
      Some("Q42"), Some("item"),
      map["en" := LangText("en", "Douglas Adams")],
      map["en" := [LangText("en", "DNA"), LangText("en", "DNA")]],
      map[], map["enwiki" := "Douglas Adams"],
      Some([("P31", [HumanClaim()])]))
  }

  /** The claim "instance of (P31) human (Q5)". */
  function HumanClaim(): Snak {
    Snak("wikibase-item", Some(Record(map["id" := Str("Q5"), "numeric-id" := Int(5)])))
  }

  lemma Q42Types()
    ensures NumericIds(ClaimsOf(Q42().claims.value, "P31")) == Success([Int(5)])
    ensures TypeNames([Int(5)]) == ["Q5"]
  {
    var snak := HumanClaim();
    assert ClaimsOf(Q42().claims.value, "P31") == [snak];
    assert NumericId(snak) == Success(Int(5));
    assert !PlainValued([snak][0]);
    var ids := NumericIds([snak]).value;
    assert |ids| == 1 && ids[0] == Int(5);
    assert ids == [Int(5)];
    assert PyText.NatToString(5) == "5";
    assert TypeNames([Int(5)])[0] == "Q" + "5" == "Q5";
  }

  lemma Q42Aliases()
    ensures AliasLists(Q42().aliases) == map["en" := ["DNA"]]
  {
    var values := AliasValues([LangText("en", "DNA"), LangText("en", "DNA")]);
    assert values == ["DNA", "DNA"];
    assert values[..1] == ["DNA"];
    assert Distinct(values) == ["DNA"];
  }

  lemma Q42Fields()
    ensures KindOf("Q42", Q42().claims.value) == Entity
    ensures Popularity(Q42().sitelinks) == 1
  {
    assert !HasPredicate(Q42().claims.value, "P279");
    assert |Q42().sitelinks| == 1;
  }

  lemma Q42Claims()
    ensures Decompose(ClaimList(Q42().claims.value)) ==
      Success(Buckets(map[Str("Q5") := ["P31"]], Start().literals, [Str("Q5")]))
  {
    var snak := HumanClaim();
    assert Pairs("P31", [snak]) == [("P31", snak)];
    assert ClaimList(Q42().claims.value) == [("P31", snak)];
    assert Classify("P31", snak) == Success(Link(Str("Q5"), true));
    assert [("P31", snak)][..0] == [];
    assert Decompose([("P31", snak)]) == Success(Apply(Start(), "P31", Link(Str("Q5"), true)));
    assert Start().objects == map[] && Start().types == [];
    assert ObjectsAt(Start().objects, Str("Q5")) == [];
    var b := Apply(Start(), "P31", Link(Str("Q5"), true));
    assert b.objects == Start().objects[Str("Q5") := ObjectsAt(Start().objects, Str("Q5")) + ["P31"]];
    assert b.objects.Keys == {Str("Q5")} && b.objects[Str("Q5")] == ["P31"];
    assert b.objects == map[Str("Q5") := ["P31"]];
    assert b.types == [Str("Q5")];
    assert b.literals == Start().literals;
  }

  /** The example record parses. */
  lemma Q42Parses(classes: Classes, sup: string -> seq<string>)
    ensures Transform(Q42(), 0, classes, sup).Success?
  {
    Q42Types();
    Q42Claims();
  }

  /** Its item record is tagged PERS and explicitly of type Q5. */
  lemma Q42Tags(classes: Classes, sup: string -> seq<string>)
    requires Transform(Q42(), 0, classes, sup).Success?
    ensures var item := Transform(Q42(), 0, classes, sup).value.item;
      item.nerType == [PERS] && item.explicitTypes == ["Q5"]
  {
    Q42Types();
    Q42Persons(classes);
    TransformItem(Q42(), 0, classes, sup);
  }

  lemma Q42Persons(classes: Classes)
    ensures NerTags([Int(5)], classes) == [PERS]
  {
    OnlyHumansArePersons([Int(5)], classes);
  }

  /** Its item record is of kind entity, has its duplicate alias dropped and
      popularity 1. */
  lemma Q42Item(classes: Classes, sup: string -> seq<string>)
    requires Transform(Q42(), 0, classes, sup).Success?
    ensures var item := Transform(Q42(), 0, classes, sup).value.item;
      item.kind == Entity && item.aliases == map["en" := ["DNA"]] && item.popularity == 1
  {
    TransformFields(Q42(), 0, classes, sup);
    Q42Aliases();
    Q42Fields();
  }

  /** Its other records: linked to Q5 by P31, of type Q5, no literal. */
  lemma Q42Records(classes: Classes, sup: string -> seq<string>)
    requires Transform(Q42(), 0, classes, sup).Success?
    ensures var d := Transform(Q42(), 0, classes, sup).value;
      && d.objects.objects == map[Str("Q5") := ["P31"]] && d.types.types == [Str("Q5")]
      && forall c :: c in Categories ==> d.literals.literals[c] == map[]
  {
    Q42Claims();
    TransformClaims(Q42(), 0, classes, sup);
  }

  /** It becomes a PERS entity of kind entity, explicitly of type Q5, linked to
      Q5 by P31, with its duplicate alias dropped and every literal list empty. */
  lemma Q42Example(classes: Classes, sup: string -> seq<string>)
    ensures Transform(Q42(), 0, classes, sup).Success?
    ensures var d := Transform(Q42(), 0, classes, sup).value;
      && d.item.kind == Entity && d.item.nerType == [PERS] && d.item.explicitTypes == ["Q5"]
      && d.item.aliases == map["en" := ["DNA"]] && d.item.popularity == 1
      && d.objects.objects == map[Str("Q5") := ["P31"]] && d.types.types == [Str("Q5")]
      && forall c :: c in Categories ==> d.literals.literals[c] == map[]
  {
    Q42Parses(classes, sup);
    Q42Tags(classes, sup);
    Q42Item(classes, sup);
    Q42Records(classes, sup);
  }
}
