# Near-Earth object database and filters, modelled in Dafny

This project models the in-memory core of a small near-Earth object (NEO)
explorer. The explorer loads near-Earth objects and their close approaches to
Earth, links each approach to the object whose primary designation it carries,
looks objects up by designation or by name, and answers queries built from
command-line criteria.

The model has four modules:

- `Wrappers` holds `Option` and `Result`.
- `Records` holds the two record classes, `NearEarthObject` and
  `CloseApproach`, together with dates, timestamps and a floating-point value
  that may be NaN. Only the two link attributes are mutable fields
  (`NearEarthObject.approaches` and `CloseApproach.neo`). Everything fixed at
  load time is a `const`.
- `Filters` models `home/filters.py`:
  - the attribute filters as one `Filter` value with a `Kind` that picks the
    attribute, and the evaluation of one filter and of a whole list as `all(...)`
    evaluates it: left to right, stopping at the first false filter, with
    errors propagating;
  - the factory `create_filters`;
  - the stream limiter `limit`.
- `Database` models `home/database.py`:
  - the class `NEODatabase`, whose constructor links the records in place with a
    loop, and whose two memoised lookups are loops that fill their cache maps;
  - the query, as a function from the approaches and the filters to the stream it
    produces. The stream is the approaches that pass every filter. If a filter
    raises, the stream ends with that error.

What is proved, in short:

- The lookups return the first object with the exact key and cache misses as
  `null`.
- Linking makes every approach point at its object. Every object then lists
  exactly its own approaches, in storage order. The links agree in both
  directions. With unique designations, an object's list is exactly the
  approaches carrying its designation. When no object is listed
  twice, the lists together hold as many entries as there are approaches.
- `create_filters` yields one filter per given criterion and exactly the
  requested ones. On a linked approach the filters never raise, and together
  they hold exactly when the approach satisfies the criteria.
- A query with no filters yields every approach. A query that raises nothing
  yields exactly the matching approaches, in order. The query for criteria
  yields exactly the approaches that satisfy them.
- `limit` keeps a prefix of the stream. It passes the stream through unchanged
  without a positive bound, and applying it twice is the same as applying it
  once.

## Model

| member | source | states |
|---|---|---|
| Records.NearEarthObject.constructor | home/extract.py:32-36 | an object is built from its designation, name, diameter and hazard flag and starts with no approaches |
| Records.CloseApproach.constructor | home/extract.py:49-54 | an approach is built from its designation key, time, distance and velocity and starts unlinked |
| Filters.Compare | home/filters.py:51-68 | `op(x, y)` with its first argument on the left: `<=` and `>=` on values of one type are the order `x <= y` and `y <= x`; only an ordering between values of different types raises; equality holds exactly for equal values that are not NaN |
| Filters.CompareLeGeIsEq | home/filters.py:51-68 | on values of one type without NaN, `<=` together with `>=` hold exactly when `==` holds |
| Filters.TextLeReflexive | home/filters.py:93-96 | the string order used by designation filters is reflexive |
| Filters.TextLeAntisymmetric | home/filters.py:93-96 | the string order used by designation filters is antisymmetric |
| Filters.Get | home/filters.py:73-138 | the base filter class raises; the object-reading kinds raise on an unlinked approach; each kind yields a value of its own type (text, date, number or flag); the attribute each kind reads is stated by DesignationFilterMeaning, DateFiltersMeaning, NumericFiltersMeaning and HazardFiltersMeaning |
| Filters.Apply | home/filters.py:66-68 | calling a filter raises exactly when extraction raises or an ordering compares values of different types; an extraction error propagates unchanged |
| Filters.DesignationFilterMeaning | home/filters.py:93-96 | on a linked approach a designation filter compares the object's designation, on the left, with the reference string, on the right, by `==`, `<=` or `>=` |
| Filters.AllHold | home/database.py:138 | `all(...)` over the filters is true exactly when every filter holds; any error it raises is the error of one of the filters; when no filter raises, neither does the conjunction |
| Filters.AllHoldConcat | home/database.py:138 | evaluating two filter lists one after the other evaluates the second only when the first holds |
| Filters.DateFilters | home/filters.py:195-199 | one date filter per given date criterion: `==` for the exact date, `>=` for the start, `<=` for the end |
| Filters.BoundFilters | home/filters.py:200-211 | one filter per given bound on a numeric attribute: `>=` for the minimum and `<=` for the maximum |
| Filters.NumericFilters | home/filters.py:200-211 | the distance, velocity and diameter filters are exactly the requested bounds, one per given bound |
| Filters.HazardFilters | home/filters.py:212-213 | an equality filter on the hazard flag exactly when a hazard criterion is given |
| Filters.CreateFilters | home/filters.py:141-215 | one filter per criterion that is not `None`, and a filter is in the result exactly when the criteria ask for it |
| Filters.CreateFiltersNone | home/filters.py:141-215 | with no criterion given there is no filter |
| Filters.HazardousFalseIsNotAbsent | home/filters.py:162-166 | `hazardous=False` produces a filter for non-hazardous objects, while an absent hazard criterion produces no hazard filter |
| Filters.DateFiltersMeaning | home/filters.py:195-199 | the date filters never raise, and they hold exactly when the approach's date is the given date and lies within the given range, both ends inclusive |
| Filters.BoundFiltersMeaning | home/filters.py:200-211 | the bound filters for one attribute never raise, and they hold exactly when the attribute lies within the given inclusive bounds; NaN lies within no bound |
| Filters.NumericFiltersMeaning | home/filters.py:200-211 | on a linked approach the numeric filters never raise, and they hold exactly when distance, velocity and diameter lie within their bounds |
| Filters.HazardFiltersMeaning | home/filters.py:212-213 | on a linked approach the hazard filter never raises, and holds exactly when the object's hazard flag equals the requested one |
| Filters.CreateFiltersMeaning | home/filters.py:174-213 | on a linked approach the filters from `create_filters` never raise, and together they hold exactly when the approach satisfies every given criterion |
| Filters.Limit | home/filters.py:218-234 | the result is a prefix of the stream, of length `min(n, length)` for a bound `n >= 1` and the whole stream otherwise |
| Filters.LimitPassesThrough | home/filters.py:229-234 | an absent bound or one below 1 passes the stream through unchanged |
| Filters.LimitIgnoresRest | home/filters.py:229-231 | a positive bound keeps the first `n` items, whatever follows them |
| Filters.LimitIdempotent | home/filters.py:218-234 | limiting twice by the same bound is the same as limiting once |
| Database.FirstWithDesignation | home/database.py:79-86 | the designation scan returns an object of `neos` with exactly that designation, and `null` exactly when there is none |
| Database.FirstWithDesignationIsFirst | home/database.py:80-83 | the scan returns the earliest object with that designation |
| Database.FirstWithName | home/database.py:107-114 | the name scan returns an object of `neos` with exactly that name, and `null` exactly when there is none |
| Database.FirstWithNameIsFirst | home/database.py:108-111 | the name scan returns the earliest object with that name |
| Database.UnnamedQueries | home/database.py:90-116 | the name lookup has no special case for the absent or the empty name: the absent name finds an unnamed object whenever there is one, and the empty name finds nothing exactly when no stored name equals it |
| Database.LinkedToSelects | home/database.py:57-60 | an object's linked approaches are, in storage order, exactly the approaches whose key lookup finds that object |
| Database.LinkedToCounts | home/database.py:57-60 | an approach occurs in an object's list as often as it occurs in storage when its key lookup finds that object, and not at all otherwise |
| Database.KeysMeaning | home/database.py:57-58 | the set of keys the linking loop looks up is exactly the set of keys the approaches carry |
| Database.OwnerByDesignation | home/database.py:57-60 | with unique designations, the key lookup of an approach finds an object exactly when the approach carries that object's designation |
| Database.LinkedToByDesignation | home/database.py:57-60 | with unique designations, an object's linked approaches are exactly the approaches carrying its designation, in storage order |
| Database.TotalLinkedIsAll | home/database.py:57-60 | when every approach resolves and no object is listed twice, the objects' linked lists together are as long as the approach collection |
| Database.MatchingSelects | home/database.py:136-139 | the matching approaches are, in order, exactly the approaches that pass every filter |
| Database.MatchingCounts | home/database.py:136-139 | an approach occurs among the matching ones as often as it occurs in storage when it passes every filter, and not at all otherwise |
| Database.MatchingNoFilters | home/database.py:136-139 | with no filters every approach matches |
| Database.FirstFailure | home/database.py:136-139 | the position of the first approach on which a filter raises: every earlier approach evaluates without error |
| Database.Select | home/database.py:136-139 | the stream yields the matching approaches before the first approach whose evaluation raises, then ends with that error; with no error it covers the whole collection |
| Database.SelectFacts | home/database.py:118-139 | the stream is a subsequence of the approaches; it ends without error exactly when no approach makes a filter raise, and then it is exactly the matching approaches; with no filters it is every approach |
| Database.NEODatabase.constructor | home/database.py:26-60 | the database keeps both collections; afterwards every approach points at the object with its designation, every object lists exactly its approaches in storage order, the name cache is empty, and the designation cache holds exactly the approaches' keys, each mapped to the result of a fresh scan |
| Database.NEODatabase.LinkAll | home/database.py:57-60 | the linking loop leaves every approach attached to its owner and every owner's list equal to its approaches in storage order; the designation cache gains exactly the approaches' keys |
| Database.NEODatabase.Attach | home/database.py:58-60 | one step of linking: the approach's owner is looked up, the approach is appended to the owner's list and points back at it; the designation cache changes only at the approach's key, which now maps to the owner; no other object or approach changes |
| Database.NEODatabase.GetNeoByDesignation | home/database.py:62-88 | returns the first object with exactly that designation or `null`; the first call for a designation caches its result, a miss included, and a later call leaves the cache unchanged |
| Database.NEODatabase.GetNeoByName | home/database.py:90-116 | returns the first object with exactly that name or `null`; the first call for a name caches its result, a miss included, and a later call leaves the cache unchanged |
| Database.NEODatabase.Query | home/database.py:118-139 | with no filters, all approaches in stored order; without an error, exactly the approaches passing every filter, in stored order; an error is raised exactly when some approach makes a filter raise; the stream is always a subsequence of the approaches |
| Database.LinksAgree | home/database.py:41-43 | after linking, each approach's object lists that approach, and each approach an object lists points back at that object |
| Database.LinkedListsCoverAll | home/database.py:41-43 | after linking, with no object listed twice, the approach lists stored in the objects together hold as many entries as the approach collection |
| Database.QueryByCriteria | home/database.py:118-139 | on a linked database the query for the filters built from criteria never raises and yields exactly the approaches that satisfy the criteria |

## Left out

- Reading the CSV and JSON files and writing results belong to `home/extract.py` and `home/write.py`. They are input and output and are not modelled. The records are taken as parameters.
- `models.py` is not part of this model. The record attributes come from how `extract.py`, `write.py`, `database.py` and `filters.py` use them. Parsing of times and numbers, and the records' string forms, are left out with it.
- `AttributeFilter.__str__` and `__repr__` produce text for display only and are not modelled.
- `create_filters` reads the keyword arguments through `locals()`. The model takes their order to be the parameter order.
- The `float(...)` conversions in `create_filters` are not modelled. The criteria arrive as reals. A criterion that `float` cannot convert, and which would raise, is not represented.
- Python's mixed comparisons are reduced to the types used here. Equality between values of different types is false. An ordering between them raises. The `bool`/number coercion, where `True == 1`, is not modelled.
- Floating point is modelled as exact reals, plus a NaN for an unknown diameter. Rounding is not modelled.
- The query and `limit` are generators in the source. The model gives the finished stream. Laziness, and the fact that `islice` stops consuming the query, are not modelled.
- Database.NEODatabase.constructor: it requires every approach's key to resolve to an object. The source raises `AttributeError` on the first approach that does not resolve, after linking the approaches before it. That crash, and the partial linking, are not modelled.
- The docstring of `get_neo_by_name` says that no object is associated with the empty string or `None`. The code has no such guard. Database.UnnamedQueries states what the code does instead.
