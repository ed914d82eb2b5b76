/** Taxonomy construction (in `parse_wikidata_dump`): the organization and the
    location classes, each the subclass closure of one root minus the closures
    of its excluded classes. The remote subclass query is an input: for a root
    identifier it yields the `WD_id` URIs of the answer, or an undecodable reply. */
module Taxonomy {
  import opened Base
  import opened PyText

  /** The reply to one subclass-closure query. */
  datatype Reply = Bindings(uris: seq<string>) | Undecodable

  /** The two class sets the named-entity tagging consults. */
  datatype Classes = Classes(locations: set<int>, organizations: set<int>)

  const OrganizationRoot: int := 43229
  /** country, city, capital, administrative territorial entity, venue (Q17350442,
      held in a variable named after families), sports league and family (Q8436,
      held in a variable named after venues). */
  const OrganizationExclusions: seq<int> := [6256, 515, 5119, 15916867, 17350442, 623109, 8436]

  const LocationRoot: int := 2221906
  /** food, educational institution, government agency, international organization, time zone. */
  const LocationExclusions: seq<int> := [2095, 2385804, 327333, 484652, 12143]

  /** The numeric id in one `WD_id` URI: the last path segment with its leading
      `Q`s stripped, read by `int()`; `None` when `int()` raises `ValueError`. */
  function BindingId(uri: string): Option<int> {
    ParseInt(LStrip(LastSegment(uri), 'Q'))
  }

  /** The values of the parses that succeed, in order. */
  function Parsed(parses: seq<Option<int>>): (ids: seq<int>)
    ensures |ids| <= |parses|
  {
    if parses == [] then []
    else
      var rest := Parsed(parses[..|parses| - 1]);
      match parses[|parses| - 1]
      case Some(n) => rest + [n]
      case None => rest
  }

  lemma {:induction false} ParsedKeeps(parses: seq<Option<int>>, k: nat)
    requires k < |parses| && parses[k].Some?
    ensures parses[k].value in Parsed(parses)
  {
    var init := parses[..|parses| - 1];
    if k < |init| {
      assert init[k] == parses[k];
      ParsedKeeps(init, k);
    }
  }

  lemma {:induction false} ParsedFrom(parses: seq<Option<int>>, n: int)
    requires n in Parsed(parses)
    ensures exists k :: 0 <= k < |parses| && parses[k] == Some(n)
  {
    var init := parses[..|parses| - 1];
    if n in Parsed(init) {
      ParsedFrom(init, n);
      var k :| 0 <= k < |init| && init[k] == Some(n);
      assert parses[k] == init[k];
    } else {
      assert parses[|parses| - 1] == Some(n);
    }
  }

  /** The parse of every binding, in binding order. */
  function BindingIds(uris: seq<string>): (r: seq<Option<int>>)
    ensures |r| == |uris|
    ensures forall k :: 0 <= k < |uris| ==> r[k] == BindingId(uris[k])
  {
    seq(|uris|, k requires 0 <= k < |uris| => BindingId(uris[k]))
  }

  /** The ids `get_wikidata_item_tree_item_idsSPARQL` returns: those of the
      bindings that parse, in binding order; a binding that raises
      `ValueError` is skipped. */
  function EntityIds(uris: seq<string>): (ids: seq<int>)
    ensures |ids| <= |uris|
  {
    Parsed(BindingIds(uris))
  }

  /** Every binding that parses contributes its id. */
  lemma ParsedBindingIsReturned(uris: seq<string>, k: nat)
    requires k < |uris| && BindingId(uris[k]).Some?
    ensures BindingId(uris[k]).value in EntityIds(uris)
  {
    ParsedKeeps(BindingIds(uris), k);
  }

  /** Every returned id comes from a binding that parses to it. */
  lemma ReturnedIdIsParsed(uris: seq<string>, n: int)
    requires n in EntityIds(uris)
    ensures exists k :: 0 <= k < |uris| && BindingId(uris[k]) == Some(n)
  {
    ParsedFrom(BindingIds(uris), n);
    var k :| 0 <= k < |uris| && BindingIds(uris)[k] == Some(n);
    assert BindingId(uris[k]) == Some(n);
  }

  /** The path of the entity URIs the query service writes. */
  const EntityPath: string := "http://www.wikidata.org/entity"

  /** The URI the query service writes for item Q`n`. */
  function EntityUri(n: nat): string {
    EntityPath + "/" + ("Q" + NatToString(n))
  }

  /** No slash occurs in an item identifier. */
  lemma ItemIdHasNoSlash(n: nat)
    ensures '/' !in "Q" + NatToString(n)
  {
    var digits := NatToString(n);
    forall k | 0 <= k < |digits| ensures digits[k] != '/' {
      assert IsDigit(digits[k]);
    }
  }

  /** The id parsing reads back the item number of every entity URI. */
  lemma EntityUriRoundTrip(n: nat)
    requires DigitsOf(n) <= MaxStrDigits
    ensures BindingId(EntityUri(n)) == Some(n)
    ensures EntityIds([EntityUri(n)]) == [n]
  {
    var digits := NatToString(n);
    ItemIdHasNoSlash(n);
    LastSegmentAfterSlash(EntityPath, "Q" + digits);
    assert ("Q" + digits)[1..] == digits;
    assert LStrip(digits, 'Q') == digits by {
      assert IsDigit(digits[0]);
    }
    ParseIntOfString(n);
    assert BindingIds([EntityUri(n)]) == [Some(n)];
    assert [Some(n)][..0] == [];
  }

  /** One closure as a set, with the `try/except JSONDecodeError` fallback to empty. */
  function ClosureOf(r: Reply): (s: set<int>)
    ensures r.Undecodable? ==> s == {}
  {
    match r
    case Bindings(uris) => set n | n in EntityIds(uris)
    case Undecodable => {}
  }

  /** The chained set differences `set(root) - set(e1) - set(e2) - ...`. */
  function Exclude(s: set<int>, excluded: seq<int>, closure: int -> Reply): set<int> {
    if excluded == [] then s
    else Exclude(s - ClosureOf(closure(excluded[0])), excluded[1..], closure)
  }

  /** A class is kept exactly when it is in the root set and in no excluded closure. */
  lemma {:induction false} ExcludeMembers(s: set<int>, excluded: seq<int>, closure: int -> Reply, n: int)
    ensures n in Exclude(s, excluded, closure) <==>
      n in s && forall k :: 0 <= k < |excluded| ==> n !in ClosureOf(closure(excluded[k]))
  {
    if excluded != [] {
      var first := ClosureOf(closure(excluded[0]));
      var rest := excluded[1..];
      ExcludeMembers(s - first, rest, closure, n);
      assert Exclude(s, excluded, closure) == Exclude(s - first, rest, closure);
      if n in s && forall k :: 0 <= k < |excluded| ==> n !in ClosureOf(closure(excluded[k])) {
        forall k | 0 <= k < |rest| ensures n !in ClosureOf(closure(rest[k])) {
          assert rest[k] == excluded[k + 1];
        }
      }
      if n in Exclude(s - first, rest, closure) {
        forall k | 0 <= k < |excluded| ensures n !in ClosureOf(closure(excluded[k])) {
          if k > 0 {
            assert excluded[k] == rest[k - 1];
          }
        }
      }
    }
  }

  /** The kept set lies in the root set, misses every excluded closure, and keeps
      everything else. */
  lemma ExcludeSpec(s: set<int>, excluded: seq<int>, closure: int -> Reply)
    ensures Exclude(s, excluded, closure) <= s
    ensures forall k :: 0 <= k < |excluded| ==> Exclude(s, excluded, closure) !! ClosureOf(closure(excluded[k]))
    ensures forall n :: n in s && (forall k :: 0 <= k < |excluded| ==> n !in ClosureOf(closure(excluded[k]))) ==>
      n in Exclude(s, excluded, closure)
  {
    forall n ensures n in Exclude(s, excluded, closure) <==>
      n in s && forall k :: 0 <= k < |excluded| ==> n !in ClosureOf(closure(excluded[k]))
    {
      ExcludeMembers(s, excluded, closure, n);
    }
  }

  /** The organization set of lines 486-495. */
  function OrganizationSet(closure: int -> Reply): (s: set<int>)
    ensures s <= ClosureOf(closure(OrganizationRoot))
    ensures forall k :: 0 <= k < |OrganizationExclusions| ==> s !! ClosureOf(closure(OrganizationExclusions[k]))
    ensures forall n ::
      (n in ClosureOf(closure(OrganizationRoot)) &&
       forall k :: 0 <= k < |OrganizationExclusions| ==> n !in ClosureOf(closure(OrganizationExclusions[k])))
      ==> n in s
  {
    ExcludeSpec(ClosureOf(closure(OrganizationRoot)), OrganizationExclusions, closure);
    Exclude(ClosureOf(closure(OrganizationRoot)), OrganizationExclusions, closure)
  }

  /** The location set of lines 528-535. */
  function LocationSet(closure: int -> Reply): (s: set<int>)
    ensures s <= ClosureOf(closure(LocationRoot))
    ensures forall k :: 0 <= k < |LocationExclusions| ==> s !! ClosureOf(closure(LocationExclusions[k]))
    ensures forall n ::
      (n in ClosureOf(closure(LocationRoot)) &&
       forall k :: 0 <= k < |LocationExclusions| ==> n !in ClosureOf(closure(LocationExclusions[k])))
      ==> n in s
  {
    ExcludeSpec(ClosureOf(closure(LocationRoot)), LocationExclusions, closure);
    Exclude(ClosureOf(closure(LocationRoot)), LocationExclusions, closure)
  }

  /** Both sets, built once before the dump is read. */
  function Build(closure: int -> Reply): Classes {
    Classes(LocationSet(closure), OrganizationSet(closure))
  }

  /** Excluding again changes nothing: the set difference is idempotent. */
  lemma {:induction false} ExcludeIdempotent(s: set<int>, excluded: seq<int>, closure: int -> Reply)
    ensures Exclude(Exclude(s, excluded, closure), excluded, closure) == Exclude(s, excluded, closure)
  {
    var once := Exclude(s, excluded, closure);
    forall n ensures n in Exclude(once, excluded, closure) <==> n in once {
      ExcludeMembers(s, excluded, closure, n);
      ExcludeMembers(once, excluded, closure, n);
    }
  }
}
