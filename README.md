# LamAPI: the Wikidata dump ingester and the request validators, in Dafny

This project models two parts of LamAPI.

**The Wikidata dump ingester** (`scripts/parse_wikidata_dump.py`):

- It builds two taxonomy class sets from subclass-closure queries. Organizations are the subclasses of Q43229 minus seven excluded closures. Locations are the subclasses of Q2221906 minus five.
- It turns each decoded dump record into four records, for the `items`, `objects`, `literals` and `types` collections. The item record carries:
  - the kind (entity, type or predicate);
  - the popularity;
  - the de-duplicated aliases;
  - the named-entity tags PERS, LOC, ORG and OTHERS;
  - the explicit types, and the types extended through a superclass query.
- The claims are split into references (`objects`) and literals (`literals`) by datatype.
- The records are buffered and written in batches of 100.
- The driver loop skips undecodable lines, keeps the running mean of the line size, and logs each entity that fails.

**The request-parameter validators** (`api/model/params_validator.py`): six pure checks. Each turns an optional query parameter into an accepted value or an error response with an HTTP status.

The model keeps the source's own behaviour, defects included. Where the code raises, the model returns the exception as a `Failure`:

- A record whose `type` is not `item` reads `types_list` before assigning it, so it fails with `UnboundLocal`.
- A record without an `enwiki` sitelink fails with `KeyError`.
- A literal datatype missing from `DATATYPES_MAPPINGS` fails with `KeyError`.
- A record without `id` fails inside `parse_data`, then fails again inside the exception handler. The run then stops without the final flush.

Two consequences of the code that are easy to miss:

- A `P31` reference is recorded in `objects` as well as in `types`. An item whose only claim is `P31: Q5` gets the `objects` map `{Q5: [P31]}`: `Entities.Q42Example` proves it.
- The four buffers are flushed together, when `items` reaches 100, not each on its own.

Files, in dependency order:

| file | contents |
|---|---|
| `Base.dfy` | `Option`, `Result`, and the Python exceptions as `Failure` |
| `Seqs.dfy` | duplicate-free sequences, first-occurrence de-duplication, flattening, sums |
| `PyText.dfy` | `int()` with its whitespace trimming and digit limit, `str()`, `lstrip`, `split("/")[-1]` and `lower` on strings |
| `Json.dfy` | the decoded JSON values a claim carries |
| `Snaks.dfy` | `check_skip`, `get_value`, and the datatype table |
| `Taxonomy.dfy` | the SPARQL id parsing and the class-set algebra |
| `Decomposition.dfy` | the claim loop of `parse_data`, as functions over the claim list |
| `Entities.dfy` | the whole of `parse_data` as one function, `Transform` |
| `ParseData.dfy` | the loops of `parse_data`, each proved equal to the function it computes |
| `Superclasses.dfy` | `retrieve_superclasses` and its retrying `query_wikidata` |
| `Ingest.dfy` | the buffer, the batches, the statistics and the driver loop |
| `ParamsValidator.dfy` | the six request validators |

Inputs the model takes as parameters instead of performing I/O:

- `closure: int -> Reply`: the answer to each subclass-closure query.
- `sup: string -> seq<string>`: the superclass lookup `parse_data` performs for each explicit type. Its intended instance is `Superclasses.Retrieve`.
- `outcome: nat -> Attempt`: the outcome of each SPARQL attempt.
- The dump, as a sequence of `Line`s: each line's length, and the record it decodes to or `None`.
- The access token, and the set of knowledge graphs the database serves.

## Model

| member | source | states |
|---|---|---|
| PyText.ParseIntOfString | api/model/params_validator.py:26 | `int()` reads back what `str()` writes for every integer of at most 4300 digits, whatever its sign |
| PyText.ParseInt | api/model/params_validator.py:26 | `int()` succeeds exactly on an optionally signed digit string of at most 4300 digits, once its whitespace is trimmed |
| PyText.ParsedDigits | api/model/params_validator.py:26 | every integer `int()` returns has at most 4300 digits |
| PyText.SeparatorNotTrimmed | api/model/params_validator.py:26 | a string that starts with one of the separators U+001C to U+001F is not an integer, whatever follows |
| PyText.TooManyDigits | api/model/params_validator.py:26 | a string of more than 4300 zeros is refused, although its value is 0 |
| PyText.LastSegment | scripts/parse_wikidata_dump.py:197 | the part after the last `/`: it has no slash, is a suffix of its input, and is preceded by a slash unless it is the whole input |
| PyText.LastSegmentAfterSlash | scripts/parse_wikidata_dump.py:197 | a path ending in `/segment` splits back to that segment |
| PyText.LStrip | scripts/parse_wikidata_dump.py:197 | `lstrip` removes a prefix made only of the stripped character, and what is left does not start with it |
| PyText.Lower | api/model/params_validator.py:42 | lower-casing keeps the length, leaves no capital, turns each capital into the small letter at its place in the alphabet, and keeps every other character |
| PyText.LowerChar | api/model/params_validator.py:42 | one character: no capital results, a capital becomes its small letter, anything else is kept |
| Seqs.Distinct | scripts/parse_wikidata_dump.py:283 | `list(set(xs))`: no duplicates, every element comes from `xs`, and every element of `xs` is kept |
| Seqs.DistinctOfNoDup | scripts/parse_wikidata_dump.py:283 | de-duplicating a duplicate-free list changes nothing |
| Snaks.CategoriesOfMappings | scripts/parse_wikidata_dump.py:93-107 | `DATATYPES` is exactly the set of values of `DATATYPES_MAPPINGS`, seven categories |
| Snaks.CheckSkip | scripts/parse_wikidata_dump.py:119-126 | a claim is skipped exactly when it has no datavalue or a lexical datatype |
| Snaks.GetValue | scripts/parse_wikidata_dump.py:129-146 | the coordinate text, the wrapped member of quantities, monolingual texts and times, or the value itself; a missing member is a `KeyError`, and a subscript on a string is a `TypeError` |
| Snaks.CoordinateTextSplits | scripts/parse_wikidata_dump.py:133-134 | the `latitude,longitude` text splits back into the two numbers it was made from |
| Taxonomy.EntityIds | scripts/parse_wikidata_dump.py:195-206 | the parsed ids are never more than the bindings |
| Taxonomy.BindingIds | scripts/parse_wikidata_dump.py:195-203 | one parse attempt per binding, in binding order |
| Taxonomy.ParsedBindingIsReturned | scripts/parse_wikidata_dump.py:195-206 | every binding whose id `int()` reads contributes that id |
| Taxonomy.ReturnedIdIsParsed | scripts/parse_wikidata_dump.py:195-206 | every returned id is read from some binding |
| Taxonomy.EntityUriRoundTrip | scripts/parse_wikidata_dump.py:197-201 | the id of the entity URI of item `Qn` is `n`, for every `n` `int()` can read |
| Taxonomy.ClosureOf | scripts/parse_wikidata_dump.py:445-448 | an undecodable reply gives the empty closure |
| Taxonomy.ExcludeMembers | scripts/parse_wikidata_dump.py:486-495 | a class survives the set differences exactly when it is in the root closure and in none of the excluded closures |
| Taxonomy.ExcludeSpec | scripts/parse_wikidata_dump.py:486-495 | the result is a subset of the root closure, disjoint from each excluded closure, and holds everything else in the root closure |
| Taxonomy.ExcludeIdempotent | scripts/parse_wikidata_dump.py:486-495 | removing the excluded closures a second time changes nothing |
| Taxonomy.OrganizationSet | scripts/parse_wikidata_dump.py:445-495 | the organizations are the closure of Q43229 without the seven excluded closures |
| Taxonomy.LocationSet | scripts/parse_wikidata_dump.py:497-535 | the locations are the closure of Q2221906 without the five excluded closures |
| Decomposition.Classify | scripts/parse_wikidata_dump.py:413-429 | one claim is skipped exactly under `check_skip`; a reference is a `TypeError` on a string value, a `KeyError` without `id`, and otherwise a link to its `id` (marked as a type under P31 or P106); any other claim passes on the exception of `get_value`, is a `KeyError` when its datatype is unmapped, and otherwise a literal of its mapped category |
| Decomposition.Start | scripts/parse_wikidata_dump.py:381-383 | the literals map starts with exactly the seven categories as keys |
| Decomposition.Apply | scripts/parse_wikidata_dump.py:418-433 | adding one claim keeps the category keys of the literals map |
| Decomposition.Step | scripts/parse_wikidata_dump.py:413-433 | one iteration of the claim loop keeps the category keys |
| Decomposition.Decompose | scripts/parse_wikidata_dump.py:410-433 | the claim loop keeps the category keys when it completes |
| Decomposition.DecomposeSnoc | scripts/parse_wikidata_dump.py:411-412 | one more claim fails with the earlier failure, or applies to the earlier maps |
| Decomposition.StepFails | scripts/parse_wikidata_dump.py:413-433 | one iteration raises exactly the exception its claim raises |
| Decomposition.PredicateStep | scripts/parse_wikidata_dump.py:411-412 | one more claim of the current predicate is one more step on the maps so far |
| Decomposition.PredicateFailurePersists | scripts/parse_wikidata_dump.py:411-433 | a claim that raises makes the rest of its predicate raise the same |
| Decomposition.ClaimListSnoc | scripts/parse_wikidata_dump.py:410-411 | the claims of one more predicate follow those of the earlier ones |
| Decomposition.ClaimsFailurePersists | scripts/parse_wikidata_dump.py:410-433 | a predicate whose claims raise makes the whole loop raise the same |
| Decomposition.DecomposeFailurePersists | scripts/parse_wikidata_dump.py:410-433 | once a claim raises, later claims do not matter |
| Decomposition.DecomposeObjects | scripts/parse_wikidata_dump.py:418-426 | `objects[v]` lists the predicates of all linking claims to `v`, in order, and `v` is a key exactly when one exists |
| Decomposition.DecomposeTypes | scripts/parse_wikidata_dump.py:421-422 | `types["P31"]` lists the targets of the P31 and P106 reference claims, in order |
| Decomposition.DecomposeLiterals | scripts/parse_wikidata_dump.py:427-433 | `literals[c][p]` lists the values of the category-`c` claims of predicate `p`, in order, and `p` is a key exactly when one exists |
| Decomposition.DecomposeFailure | scripts/parse_wikidata_dump.py:410-433 | the loop fails exactly when some claim fails, and then with the failure of the first one |
| Decomposition.SkippedClaimsChangeNothing | scripts/parse_wikidata_dump.py:415-416 | an entity whose claims are all skipped gets the empty maps |
| Entities.AliasListsSpec | scripts/parse_wikidata_dump.py:278-283 | each language's alias list is duplicate-free and holds exactly the alias texts of that language |
| Entities.Popularity | scripts/parse_wikidata_dump.py:271-272 | the popularity is the number of sitelinks, and 1 when there are none |
| Entities.KindOf | scripts/parse_wikidata_dump.py:285-293 | predicate exactly for a `P` identifier, otherwise type exactly when there is a P279 claim, otherwise entity |
| Entities.ClaimsOf | scripts/parse_wikidata_dump.py:311 | the claims of a predicate, or none when the predicate is absent |
| Entities.NumericId | scripts/parse_wikidata_dump.py:316-318 | `numeric-id` is `None` without a datavalue, and `.get` on a string value is an `AttributeError` |
| Entities.NumericIds | scripts/parse_wikidata_dump.py:315-318 | the P31 loop fails exactly when some claim has a string value; otherwise it gives one id per claim |
| Entities.NumericIdsFailurePersists | scripts/parse_wikidata_dump.py:315-318 | once a claim raises, later claims do not matter |
| Entities.TagOf | scripts/parse_wikidata_dump.py:321-328 | PERS exactly for Q5; otherwise LOC for a location class, ORG for an organization class, OTHERS for the rest |
| Entities.NerTagsSpec | scripts/parse_wikidata_dump.py:312-339 | `NERtype` is duplicate-free and holds a tag exactly when some P31 claim produces it |
| Entities.NerTagsSnoc | scripts/parse_wikidata_dump.py:319-328 | one more P31 id adds its tag unless the tag is already there |
| Entities.OnlyHumansArePersons | scripts/parse_wikidata_dump.py:321-322 | an item that is only an instance of human is tagged `[PERS]` |
| Entities.TypeNameOfItem | scripts/parse_wikidata_dump.py:352 | the explicit type of an integer numeric id `n` is `Qn`, the identifier `retrieve_superclasses` reads from the entity URI of `Qn` |
| Entities.ExtendedTypesSpec | scripts/parse_wikidata_dump.py:354-358 | the extended types are exactly the superclasses of some explicit type |
| Entities.Transform | scripts/parse_wikidata_dump.py:264-433 | `KeyError(id)`, `KeyError(claims)`, `IndexError`, `UnboundLocal`, `AttributeError`, `KeyError(enwiki)` and the claim loop's exception, in the order the code raises them; it succeeds exactly when none is raised, and then the four records share the position and identifier, the item's types are the `types` record's, and popularity, kind, literal categories and explicit types are as above |
| Entities.NoInstanceClaims | scripts/parse_wikidata_dump.py:308-358 | without P31 claims, absent or an empty list, the tags, the explicit types and the extended types are all empty |
| Entities.TransformItem | scripts/parse_wikidata_dump.py:308-358 | the item's tags, explicit types and extended types are those of its P31 ids |
| Entities.TransformTags | scripts/parse_wikidata_dump.py:308-339 | the item's tags are duplicate-free and are exactly the tags of its P31 claims |
| Entities.ClaimTags | scripts/parse_wikidata_dump.py:312-339 | the tags of the P31 ids are duplicate-free and are exactly the tags of the P31 claims |
| Entities.TransformClaims | scripts/parse_wikidata_dump.py:381-433 | the objects, literals and types records hold the maps of the claim loop |
| Entities.TransformFields | scripts/parse_wikidata_dump.py:267-293 | the item's kind is the entity's kind, its aliases are the per-language alias lists without duplicates, its popularity is the sitelink count (1 when there are none) |
| Entities.Q42Parses | scripts/parse_wikidata_dump.py:264-433 | an item with an id, claims, type `item`, an English sitelink and the only claim `P31: Q5` is transformed without error |
| Entities.Q42Tags | scripts/parse_wikidata_dump.py:308-339 | that item is tagged `[PERS]` with explicit types `["Q5"]` |
| Entities.Q42Item | scripts/parse_wikidata_dump.py:267-293 | that item is of kind entity, has its duplicate alias `DNA` kept once and popularity 1 |
| Entities.Q42Records | scripts/parse_wikidata_dump.py:381-433 | that item's objects record is `{Q5: [P31]}`, its types record `[Q5]`, and every literal category is empty |
| Entities.Q42Example | scripts/parse_wikidata_dump.py:264-433 | an item whose only claim is `P31: Q5`: kind entity, tags `[PERS]`, explicit types `["Q5"]`, `objects` `{Q5: [P31]}`, every literal category empty |
| ParseData.CollectLabels | scripts/parse_wikidata_dump.py:274-276 | the label loop gives each language's label text |
| ParseData.CollectAliases | scripts/parse_wikidata_dump.py:278-283 | the alias loop gives each language's de-duplicated alias texts |
| ParseData.FindPredicate | scripts/parse_wikidata_dump.py:285-288 | the flag is set exactly when the predicate has claims |
| ParseData.ClassifyNer | scripts/parse_wikidata_dump.py:308-339 | the counting loop and the copy loop give the distinct tags of the P31 ids, or the loop's `AttributeError` |
| ParseData.CountTags | scripts/parse_wikidata_dump.py:312-328 | the counting loop gives the distinct tags of the P31 ids in first-occurrence order, or the loop's `AttributeError` |
| ParseData.CopyTags | scripts/parse_wikidata_dump.py:330-339 | the copy loop keeps the counter's keys in their order |
| ParseData.CollectExplicitTypes | scripts/parse_wikidata_dump.py:344-352 | the types loop gives `Q` plus each P31 id, or the loop's `AttributeError` |
| ParseData.ExtendTypes | scripts/parse_wikidata_dump.py:354-358 | the superclass loop gives the union of the superclasses of the explicit types |
| ParseData.AddClaim | scripts/parse_wikidata_dump.py:413-433 | the body of the claim loop performs one step of the claim decomposition |
| ParseData.DecomposePredicate | scripts/parse_wikidata_dump.py:411-433 | the inner loop continues the decomposition through the claims of one predicate |
| ParseData.DecomposeClaims | scripts/parse_wikidata_dump.py:410-433 | the nested claim loops compute the claim decomposition, stopping at the first exception |
| ParseData.ParseEntity | scripts/parse_wikidata_dump.py:264-433 | the whole transform, loops and exceptions included, is `Entities.Transform` |
| Superclasses.FirstAnswerSpec | scripts/parse_wikidata_dump.py:229-243 | the query answers exactly when some attempt answers and every earlier attempt hit the rate limit |
| Superclasses.QueryWikidata | scripts/parse_wikidata_dump.py:229-243 | the retry loop returns the first answer, and nothing after another error or after the last attempt |
| Superclasses.ThreeRateLimitsGiveUp | scripts/parse_wikidata_dump.py:229-243 | three rate limits in a row exhaust the default three retries |
| Superclasses.IdOfEntityUri | scripts/parse_wikidata_dump.py:255-257 | the identifier read from an entity URI is the entity's own `Q` identifier |
| Superclasses.Assign | scripts/parse_wikidata_dump.py:257 | a dictionary assignment keeps the keys duplicate-free and in step with the entries |
| Superclasses.LabelDictKeys | scripts/parse_wikidata_dump.py:252-257 | the dictionary has one key per distinct label, in first-occurrence order |
| Superclasses.LabelDictEntries | scripts/parse_wikidata_dump.py:252-257 | a label is a key exactly when some binding has it, and maps to the identifier of the last such binding |
| Superclasses.DictValues | scripts/parse_wikidata_dump.py:258 | each listed value is the identifier of the last binding with its label |
| Superclasses.RetrieveSpec | scripts/parse_wikidata_dump.py:249-261 | one identifier per distinct label, that of its last binding |
| Superclasses.RetrieveSuperclasses | scripts/parse_wikidata_dump.py:209-261 | the query and the dictionary loop compute `Retrieve`, and the empty list when the query fails |
| Ingest.AppendHolds | scripts/parse_wikidata_dump.py:435-436 | appending to a buffer appends to the records held, in order |
| Ingest.WriteHolds | scripts/parse_wikidata_dump.py:149-153 | writing a buffer as a batch keeps every record, in order |
| Ingest.AppendKeeps | scripts/parse_wikidata_dump.py:435-436 | appending one entity's four records keeps the four collections in step with the entities parsed |
| Ingest.FlushKeeps | scripts/parse_wikidata_dump.py:149-153 | a flush empties the buffers and loses or reorders no record |
| Ingest.FlushFull | scripts/parse_wikidata_dump.py:438-439 | a flush at the batch size writes only full batches |
| Ingest.FinalFlush | scripts/parse_wikidata_dump.py:555-556 | after the final flush every record is written, in order, and in each collection every batch but the last is full |
| Ingest.AbortPersists | scripts/parse_wikidata_dump.py:551-553 | once the handler raises, the remaining lines are not processed |
| Ingest.UndecodableLineSkipped | scripts/parse_wikidata_dump.py:549-550 | a line that does not decode changes nothing, not even the statistics |
| Ingest.ConsumedAccounts | scripts/parse_wikidata_dump.py:538-553 | one iteration counts a decoded line once and gives it one outcome, and stops exactly on a record without `id` |
| Ingest.ConsumedDerived | scripts/parse_wikidata_dump.py:538-548 | one iteration adds at most one record set, the one parsed from its line |
| Ingest.ConsumedLog | scripts/parse_wikidata_dump.py:551-553 | one iteration adds at most one log entry, naming the record whose parse raised |
| Ingest.IngestedStops | scripts/parse_wikidata_dump.py:551-553 | the run stops exactly when some decoded record has no `id` |
| Ingest.IngestedCounts | scripts/parse_wikidata_dump.py:538-553 | until then, the counted lines are the decoded lines, and each gives either records or one log entry |
| Ingest.DerivedOrigin | scripts/parse_wikidata_dump.py:538-548 | every record set parsed comes from a decoded line, with that line's position as `id_entity` |
| Ingest.LogOrigin | scripts/parse_wikidata_dump.py:551-553 | every log entry names a decoded record's `id` and the exception its parse raised |
| Ingest.Ingester.constructor | scripts/parse_wikidata_dump.py:91 | empty buffers, nothing written, no statistics |
| Ingest.Ingester.UpdateAverageSize | scripts/parse_wikidata_dump.py:112-116 | counts one more line and returns the sum of the counted sizes over their number |
| Ingest.Ingester.FlushBuffer | scripts/parse_wikidata_dump.py:149-153 | each non-empty buffer becomes one more batch of its collection, and the buffers end empty |
| Ingest.Ingester.Enqueue | scripts/parse_wikidata_dump.py:435-439 | the four records are appended; at the batch size the buffers are flushed |
| Ingest.Ingester.ParseData | scripts/parse_wikidata_dump.py:264-439 | the transform's result, then its records buffered; a failing entity leaves the buffers as they were |
| Ingest.Ingester.Consume | scripts/parse_wikidata_dump.py:538-553 | one iteration of the driver loop is one step of `Ingest.Ingested`; when the handler raises, the buffers and the database are left as they were |
| Ingest.Ingester.InsertLog | scripts/parse_wikidata_dump.py:553 | one more error-log entry, with the buffers, the database and the statistics untouched |
| Ingest.Ingester.Run | scripts/parse_wikidata_dump.py:538-556 | the loop computes `Ingest.Ingested`; unless it stops, the buffers end empty, every record is written in order, and in each collection every batch but the last is full; when it stops, the final flush is skipped, so the database holds full batches only and fewer than 100 records stay buffered |
| Ingest.IngestDump | scripts/parse_wikidata_dump.py:442-556 | the class sets are built, then the loop runs on a fresh state |
| ParamsValidator.ValidateToken | api/model/params_validator.py:7-11 | accepts exactly the configured token; otherwise the 403 error |
| ParamsValidator.ValidateKg | api/model/params_validator.py:13-20 | a missing kg means `wikidata`, unchecked; a named kg is accepted and echoed exactly when it is served; otherwise the 400 error |
| ParamsValidator.ValidateLimit | api/model/params_validator.py:22-30 | a missing limit means 1000; otherwise the value `int()` reads, or the 400 error when it raises |
| ParamsValidator.ValidateK | api/model/params_validator.py:32-38 | accepted exactly when `int()` reads it, without passing the value on; a missing `k` is the 400 error |
| ParamsValidator.ValidateBool | api/model/params_validator.py:40-49 | a missing value means false; otherwise true or false exactly when its lower case is `true` or `false`; otherwise the 400 error |
| ParamsValidator.ValidateNerType | api/model/params_validator.py:52-58 | missing or empty means no filter; otherwise accepted and echoed exactly when it is one of the four tag names, case-sensitively; otherwise the 400 error |
| ParamsValidator.LimitRoundTrip | api/model/params_validator.py:22-30 | every integer of at most 4300 digits, written out by `str()`, is accepted as that limit |
| ParamsValidator.LimitCanonical | api/model/params_validator.py:22-30 | an accepted limit, written out again, is accepted as the same limit |
| ParamsValidator.SeparatorRejected | api/model/params_validator.py:22-38 | a limit or a `k` led by one of the separators U+001C to U+001F is the 400 error of its parameter |
| ParamsValidator.LongLimitRejected | api/model/params_validator.py:22-30 | a limit of more than 4300 digits is the 400 error, even when it is all zeros |
| ParamsValidator.KAcceptsIntegers | api/model/params_validator.py:32-38 | every integer of at most 4300 digits written out by `str()` passes as `k` |
| ParamsValidator.BoolIgnoresCase | api/model/params_validator.py:40-49 | lower-casing a boolean parameter first does not change the verdict |
| ParamsValidator.NerTypesAreStoredTags | api/model/params_validator.py:52-58 | the filter accepts a string unchanged exactly when it names one of the tags the ingester stores |

## Left out

- I/O is not modelled: the bz2 dump file, MongoDB, the HTTP and SPARQL clients, `print`, `tqdm`, `time.sleep` and the tracebacks. Queries and their answers are parameters, and the database is the sequence of batches each collection receives.
- `create_indexes`, the command-line handling, `main`'s final mean and its division by zero when no line decodes are not modelled. They are set-up and reporting, not ingestion.
- The item record's `URLs` field is dropped: the dictionary built at lines 369-374 and stored at line 397 has no counterpart in `ItemRecord`. Only the `KeyError` a missing `enwiki` sitelink raises while it is built is modelled.
- The English label and the language read at lines 268 and 364 are not modelled, because no record uses them.
- The driver loop's `line[:-2]` slicing and JSON decoding are given: each `Line` carries its length and its decoded record, or `None` when `json.loads` raises `JSONDecodeError` (line 549).
- The other errors `json.loads` can raise on a line are not modelled: `UnicodeDecodeError` on bytes that are not UTF-8, `ValueError` on an integer literal of more than 4300 digits, `RecursionError` on deep nesting. The source handles them at lines 551-553, without counting the line: it logs the `id` of the previous decoded record with this line's error, and when no line has decoded yet, reading `item` raises `UnboundLocalError` and the run ends.
- A decoded line that is not a JSON object is not modelled, nor claims or main snaks missing their `mainsnak` or `datatype` members. The model's records always have these shapes.
- `Snaks.Snak`: a datavalue present without its `value` member cannot be represented. The source raises `KeyError('value')` for it at lines 143, 145 and 419, and the tagging loop reads its `numeric-id` as `None` at line 317, which tags it OTHERS.
- `Json.Scalar` has no JSON boolean, so a `true`/`false` datavalue value cannot be represented.
- Nested datavalue objects are not modelled. A datavalue is a plain scalar or a flat object of scalars, which is enough for every datatype `get_value` handles.
- A float is kept as its JSON text (`Dec`), so Python's `5.0 == 5` is not modelled, and a numeric id written `5.0` gets no PERS tag. For the same reason `Json.Show` writes a float as it appears in the dump, where the f-string of the coordinate text (line 134) re-formats it as `str(float)` does, turning `1E2` into `100.0`.
- `Seqs.Distinct`: Python does not fix the order of `list(set(xs))`, in the aliases and in `DATATYPES`. The model fixes it at first occurrence.
- `ParseData.ClassifyNer` models the `Counter` only through the order of its keys, because its counts are never read.
- `PyText.Lower` folds ASCII letters only: Python's Unicode case mapping is not modelled.
- `PyText.ParseInt` reads ASCII digits only, while `int()` reads every Unicode decimal digit (the fullwidth `１２` is 12): such a string is refused by the model.
- `PyText.MaxStrDigits`: the 4300-digit limit of `int()` and `str()` is the default of Python 3.11 and later. Earlier versions have no limit, and a limit changed through `sys.set_int_max_str_digits` is not modelled.
- `Json.Show` writes an integer of more than 4300 digits, where `str()` raises `ValueError`.
- `Entities.ClaimsOf`: an entity's claims are a list of predicates with their claims, and a predicate repeated in it is not modelled faithfully. `json.loads` keeps the last value of a repeated key at the position of its first occurrence; the model's `ClaimsOf` takes the first occurrence, and its claim loop (`Decomposition.ClaimList`) goes through every occurrence.
- A failing `insert_many`/`insert_one` is not modelled. A real run would fail to encode `extended_WDtypes`, which is a `set`, but the model writes every batch as given.
- `Entities.Transform` takes the superclass lookup as the parameter `sup`, without tying it to `Superclasses.Retrieve`. `retrieve_superclasses` performs a network query per explicit type.
- `Superclasses.QueryWikidata` does not model the `delay` pause after a rate limit, nor the error text beyond whether it mentions 429 (an `Attempt`).
- `build_error` (`api/model/utils.py`) is not part of this model. It is represented by the message and the status it is given.
- `ParamsValidator.ValidateKg`: `database.get_supported_kgs()` is the parameter `supported`.
- `api/scripts/summary.py` and `api/scripts/conf.py` are not modelled. They are not part of the ingester or the validators.
