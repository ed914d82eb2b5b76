/** Claim decomposition (the last loop of `parse_data`): every claim of an
    entity, in the order of its predicates and then of its claims, goes to the
    object map, to the literal map of its category, or nowhere. */
module Decomposition {
  import opened Base
  import opened Json
  import opened Snaks

  /** What one claim adds to the derived records. */
  datatype Contribution =
    | Skipped
    | Link(target: Scalar, declaresType: bool)   // an item or property reference
    | Literal(category: string, value: Value)

  predicate IsReference(dataType: string) {
    dataType == "wikibase-item" || dataType == "wikibase-property"
  }

  /** The predicates whose references also declare a type of the entity. */
  predicate DeclaresType(prop: string) {
    prop == "P31" || prop == "P106"
  }

  /** The fate of one claim `s` made with the predicate `prop`. */
  function Classify(prop: string, s: Snak): (r: Result<Contribution, Failure>)
    ensures CheckSkip(s, s.dataType) ==> r == Success(Skipped)
    ensures r == Success(Skipped) ==> CheckSkip(s, s.dataType)
    ensures r.Success? && r.value.Link? ==>
      IsReference(s.dataType) && s.datavalue.Some? && s.datavalue.value.Record? &&
      "id" in s.datavalue.value.fields &&
      r.value == Link(s.datavalue.value.fields["id"], DeclaresType(prop))
    ensures r.Success? && r.value.Literal? ==>
      !IsReference(s.dataType) && s.dataType in DatatypeMappings &&
      GetValue(s, s.dataType).Success? &&
      r.value == Literal(DatatypeMappings[s.dataType], GetValue(s, s.dataType).value)
    ensures r.Success? && r.value.Literal? ==> r.value.category in Categories
    ensures (!CheckSkip(s, s.dataType) && !IsReference(s.dataType) && GetValue(s, s.dataType).Success? &&
             s.dataType !in DatatypeMappings) ==> r == Failure(KeyError(s.dataType))
    ensures !CheckSkip(s, s.dataType) && IsReference(s.dataType) ==>
      (r.Success? <==> s.datavalue.value.Record? && "id" in s.datavalue.value.fields)
    ensures !CheckSkip(s, s.dataType) && IsReference(s.dataType) && s.datavalue.value.Plain? ==>
      r == Failure(TypeError)
    ensures !CheckSkip(s, s.dataType) && IsReference(s.dataType) && s.datavalue.value.Record? ==>
      r == if "id" in s.datavalue.value.fields
           then Success(Link(s.datavalue.value.fields["id"], DeclaresType(prop)))
           else Failure(KeyError("id"))
    ensures (!CheckSkip(s, s.dataType) && !IsReference(s.dataType) && GetValue(s, s.dataType).Failure?) ==>
      r == Failure(GetValue(s, s.dataType).error)
    ensures (!CheckSkip(s, s.dataType) && !IsReference(s.dataType) && GetValue(s, s.dataType).Success? &&
             s.dataType in DatatypeMappings) ==>
      r == Success(Literal(DatatypeMappings[s.dataType], GetValue(s, s.dataType).value))
  {
    var dataType := s.dataType;
    if CheckSkip(s, dataType) then Success(Skipped)
    else if IsReference(dataType) then
      match s.datavalue.value
      case Plain(_) => Failure(TypeError)
      case Record(f) =>
        if "id" in f then Success(Link(f["id"], DeclaresType(prop))) else Failure(KeyError("id"))
    else
      match GetValue(s, dataType)
      case Failure(e) => Failure(e)
      case Success(v) =>
        CategoriesOfMappings();
        if dataType in DatatypeMappings then Success(Literal(DatatypeMappings[dataType], v))
        else Failure(KeyError(dataType))
  }

  /** The three maps `parse_data` fills: `objects`, `literals` and `types["P31"]`. */
  datatype Buckets = Buckets(
    objects: map<Scalar, seq<string>>,
    literals: map<string, map<string, seq<Value>>>,
    types: seq<Scalar>)

  /** The literal map always has exactly the seven category keys. */
  predicate WellFormed(b: Buckets) {
    b.literals.Keys == Categories
  }

  /** The maps before the first claim. */
  function Start(): (b: Buckets)
    ensures WellFormed(b)
  {
    Buckets(map[], map c | c in Categories :: map[], [])
  }

  function ObjectsAt(objects: map<Scalar, seq<string>>, t: Scalar): seq<string> {
    if t in objects then objects[t] else []
  }

  function LiteralsAt(lit: map<string, seq<Value>>, prop: string): seq<Value> {
    if prop in lit then lit[prop] else []
  }

  /** One contribution added to the maps. */
  function Apply(b: Buckets, prop: string, c: Contribution): (r: Buckets)
    requires WellFormed(b)
    requires c.Literal? ==> c.category in Categories
    ensures WellFormed(r)
  {
    match c
    case Skipped => b
    case Link(t, declares) =>
      b.(objects := b.objects[t := ObjectsAt(b.objects, t) + [prop]],
         types := if declares then b.types + [t] else b.types)
    case Literal(category, v) =>
      var lit := b.literals[category];
      b.(literals := b.literals[category := lit[prop := LiteralsAt(lit, prop) + [v]]])
  }

  /** The claims of one predicate, each paired with the predicate. */
  function Pairs(prop: string, snaks: seq<Snak>): (r: seq<(string, Snak)>)
    ensures |r| == |snaks|
  {
    if snaks == [] then []
    else Pairs(prop, snaks[..|snaks| - 1]) + [(prop, snaks[|snaks| - 1])]
  }

  /** All claims of an entity in iteration order. */
  function ClaimList(claims: seq<(string, seq<Snak>)>): seq<(string, Snak)> {
    if claims == [] then []
    else ClaimList(claims[..|claims| - 1]) + Pairs(claims[|claims| - 1].0, claims[|claims| - 1].1)
  }

  /** The maps `b` after one more claim `s` made with `prop`, or its exception. */
  function Step(b: Buckets, prop: string, s: Snak): (r: Result<Buckets, Failure>)
    requires WellFormed(b)
    ensures r.Success? ==> WellFormed(r.value)
  {
    match Classify(prop, s)
    case Failure(e) => Failure(e)
    case Success(c) => Success(Apply(b, prop, c))
  }

  /** The maps after the claims `cs`, or the exception of the first claim that raises. */
  function Decompose(cs: seq<(string, Snak)>): (r: Result<Buckets, Failure>)
    ensures r.Success? ==> WellFormed(r.value)
  {
    if cs == [] then Success(Start())
    else
      match Decompose(cs[..|cs| - 1])
      case Failure(e) => Failure(e)
      case Success(b) => Step(b, cs[|cs| - 1].0, cs[|cs| - 1].1)
  }

  /** One more claim after `done`. */
  lemma DecomposeSnoc(done: seq<(string, Snak)>, x: (string, Snak))
    ensures Decompose(done).Failure? ==> Decompose(done + [x]) == Decompose(done)
    ensures Decompose(done).Success? ==> Decompose(done + [x]) == Step(Decompose(done).value, x.0, x.1)
  {
    assert (done + [x])[..|done|] == done;
  }

  /** Once a prefix of the claims raises, the whole decomposition raises the same. */
  lemma {:induction false} DecomposeFailurePersists(xs: seq<(string, Snak)>, ys: seq<(string, Snak)>)
    requires xs <= ys && Decompose(xs).Failure?
    ensures Decompose(ys) == Decompose(xs)
    decreases |ys|
  {
    if |ys| > |xs| {
      assert xs <= ys[..|ys| - 1];
      DecomposeFailurePersists(xs, ys[..|ys| - 1]);
    } else {
      assert xs == ys;
    }
  }

  lemma {:induction false} PairsPrefix(p: string, ss: seq<Snak>, j: nat)
    requires j <= |ss|
    ensures Pairs(p, ss[..j]) <= Pairs(p, ss)
    decreases |ss|
  {
    if j < |ss| {
      assert ss[..|ss| - 1][..j] == ss[..j];
      PairsPrefix(p, ss[..|ss| - 1], j);
    } else {
      assert ss[..j] == ss;
    }
  }

  /** One more claim of a predicate is one more step. */
  lemma PredicateStep(done: seq<(string, Snak)>, p: string, ss: seq<Snak>, j: nat, b: Buckets)
    requires j < |ss| && Decompose(done + Pairs(p, ss[..j])) == Success(b)
    ensures WellFormed(b) && Decompose(done + Pairs(p, ss[..j + 1])) == Step(b, p, ss[j])
  {
    assert ss[..j + 1][..j] == ss[..j];
    assert done + Pairs(p, ss[..j + 1]) == done + Pairs(p, ss[..j]) + [(p, ss[j])];
    DecomposeSnoc(done + Pairs(p, ss[..j]), (p, ss[j]));
  }

  /** A claim of a predicate that raises makes the rest of the predicate raise the same. */
  lemma PredicateFailurePersists(done: seq<(string, Snak)>, p: string, ss: seq<Snak>, j: nat)
    requires j <= |ss| && Decompose(done + Pairs(p, ss[..j])).Failure?
    ensures Decompose(done + Pairs(p, ss)) == Decompose(done + Pairs(p, ss[..j]))
  {
    PairsPrefix(p, ss, j);
    DecomposeFailurePersists(done + Pairs(p, ss[..j]), done + Pairs(p, ss));
  }

  /** The claims of one more predicate. */
  lemma ClaimListSnoc(claims: seq<(string, seq<Snak>)>, i: nat)
    requires i < |claims|
    ensures ClaimList(claims[..i + 1]) == ClaimList(claims[..i]) + Pairs(claims[i].0, claims[i].1)
  {
    assert claims[..i + 1][..i] == claims[..i];
  }

  /** A predicate whose claims raise makes the whole claim list raise the same. */
  lemma ClaimsFailurePersists(claims: seq<(string, seq<Snak>)>, i: nat)
    requires i <= |claims| && Decompose(ClaimList(claims[..i])).Failure?
    ensures Decompose(ClaimList(claims)) == Decompose(ClaimList(claims[..i]))
  {
    ClaimListMonotone(claims, i);
    DecomposeFailurePersists(ClaimList(claims[..i]), ClaimList(claims));
  }

  lemma {:induction false} ClaimListMonotone(claims: seq<(string, seq<Snak>)>, i: nat)
    requires i <= |claims|
    ensures ClaimList(claims[..i]) <= ClaimList(claims)
    decreases |claims|
  {
    if i < |claims| {
      assert claims[..|claims| - 1][..i] == claims[..i];
      ClaimListMonotone(claims[..|claims| - 1], i);
    } else {
      assert claims[..i] == claims;
    }
  }

  // Independent reference definitions of what the maps hold.

  /** The predicates linking the entity to `t`, in claim order. */
  function Linking(cs: seq<(string, Snak)>, t: Scalar): seq<string> {
    if cs == [] then []
    else
      var p := cs[|cs| - 1].0;
      Linking(cs[..|cs| - 1], t) +
        (match Classify(p, cs[|cs| - 1].1)
         case Success(Link(u, _)) => if u == t then [p] else []
         case _ => [])
  }

  /** The referenced values of P31 and P106 claims, in claim order. */
  function DeclaredTypes(cs: seq<(string, Snak)>): seq<Scalar> {
    if cs == [] then []
    else
      DeclaredTypes(cs[..|cs| - 1]) +
        (match Classify(cs[|cs| - 1].0, cs[|cs| - 1].1)
         case Success(Link(u, true)) => [u]
         case _ => [])
  }

  /** The literal values of category `category` made with `predicate`, in claim order. */
  function LiteralsFor(cs: seq<(string, Snak)>, category: string, prop: string): seq<Value> {
    if cs == [] then []
    else
      var p := cs[|cs| - 1].0;
      LiteralsFor(cs[..|cs| - 1], category, prop) +
        (match Classify(p, cs[|cs| - 1].1)
         case Success(Literal(c, v)) => if c == category && p == prop then [v] else []
         case _ => [])
  }

  /** `objects[t]` lists, in order, the predicate of every reference to `t`, and
      `t` is a key exactly when some claim references it. */
  lemma {:induction false} DecomposeObjects(cs: seq<(string, Snak)>, t: Scalar)
    requires Decompose(cs).Success?
    ensures ObjectsAt(Decompose(cs).value.objects, t) == Linking(cs, t)
    ensures t in Decompose(cs).value.objects <==> Linking(cs, t) != []
  {
    if cs != [] {
      var init := cs[..|cs| - 1];
      var (p, snak) := cs[|cs| - 1];
      DecomposeObjects(init, t);
      var b := Decompose(init).value;
      var c := Classify(p, snak).value;
      assert Decompose(cs).value == Apply(b, p, c);
      if c.Link? && c.target == t {
        assert Linking(cs, t) == Linking(init, t) + [p];
      } else {
        assert Linking(cs, t) == Linking(init, t);
        assert ObjectsAt(Decompose(cs).value.objects, t) == ObjectsAt(b.objects, t);
      }
    }
  }

  /** `types["P31"]` lists the referenced values of the P31 and P106 claims, in order. */
  lemma {:induction false} DecomposeTypes(cs: seq<(string, Snak)>)
    requires Decompose(cs).Success?
    ensures Decompose(cs).value.types == DeclaredTypes(cs)
  {
    if cs != [] {
      DecomposeTypes(cs[..|cs| - 1]);
    }
  }

  /** `literals[category][predicate]` lists the values of the literal claims of
      that category made with that predicate, in order. */
  lemma {:induction false} DecomposeLiterals(cs: seq<(string, Snak)>, category: string, prop: string)
    requires Decompose(cs).Success? && category in Categories
    ensures LiteralsAt(Decompose(cs).value.literals[category], prop) == LiteralsFor(cs, category, prop)
    ensures prop in Decompose(cs).value.literals[category] <==> LiteralsFor(cs, category, prop) != []
  {
    if cs != [] {
      var init := cs[..|cs| - 1];
      var (p, snak) := cs[|cs| - 1];
      DecomposeLiterals(init, category, prop);
      var b := Decompose(init).value;
      var c := Classify(p, snak).value;
      assert Decompose(cs).value == Apply(b, p, c);
      if c.Literal? && c.category == category && p == prop {
        assert Decompose(cs).value.literals[category] == b.literals[category][prop := LiteralsAt(b.literals[category], prop) + [c.value]];
      } else if c.Literal? {
        assert LiteralsFor(cs, category, prop) == LiteralsFor(init, category, prop);
        var lit := b.literals[c.category];
        assert Decompose(cs).value.literals == b.literals[c.category := lit[p := LiteralsAt(lit, p) + [c.value]]];
      } else {
        assert LiteralsFor(cs, category, prop) == LiteralsFor(init, category, prop);
        assert Decompose(cs).value.literals == b.literals;
      }
    }
  }

  /** The decomposition raises exactly when some claim raises, and then it raises
      the exception of the first such claim. */
  lemma {:induction false} DecomposeFailure(cs: seq<(string, Snak)>)
    ensures Decompose(cs).Failure? <==> exists k :: 0 <= k < |cs| && Classify(cs[k].0, cs[k].1).Failure?
    ensures forall k ::
      (0 <= k < |cs| && Classify(cs[k].0, cs[k].1).Failure? &&
       forall j :: 0 <= j < k ==> Classify(cs[j].0, cs[j].1).Success?)
      ==> Decompose(cs) == Failure(Classify(cs[k].0, cs[k].1).error)
  {
    if cs != [] {
      var init := cs[..|cs| - 1];
      var last := cs[|cs| - 1];
      DecomposeFailure(init);
      forall k | 0 <= k < |init| ensures init[k] == cs[k] { }
      assert init + [last] == cs;
      DecomposeSnoc(init, last);
      if Decompose(init).Success? {
        StepFails(Decompose(init).value, last.0, last.1);
      }
    }
  }

  /** A step raises exactly the exception its claim raises. */
  lemma StepFails(b: Buckets, prop: string, s: Snak)
    requires WellFormed(b)
    ensures Step(b, prop, s).Failure? <==> Classify(prop, s).Failure?
    ensures Step(b, prop, s).Failure? ==> Step(b, prop, s) == Failure(Classify(prop, s).error)
  {
  }

  /** Claims that are all skipped leave the maps as they started. */
  lemma {:induction false} SkippedClaimsChangeNothing(cs: seq<(string, Snak)>)
    requires forall k :: 0 <= k < |cs| ==> CheckSkip(cs[k].1, cs[k].1.dataType)
    ensures Decompose(cs) == Success(Start())
  {
    if cs != [] {
      var init := cs[..|cs| - 1];
      forall k | 0 <= k < |init| ensures CheckSkip(init[k].1, init[k].1.dataType) {
        assert init[k] == cs[k];
      }
      SkippedClaimsChangeNothing(init);
    }
  }
}
