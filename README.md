# Resource monitor: the version ledger and its tables

A model of the resource monitor service.  The service keeps three tables:

- businesses (`tax_business`);
- resources (`tax_resource`): files fetched from a URL, each belonging to a business;
- monitor rows (`tax_resource_monitor`): one row per observed copy of a resource, with a
  version number and a `resource_is_new` flag that marks the current copy.

The route handlers are modelled as atomic steps on an in-memory store of these tables.

The centre is `update_resource_monitor`.  When a request marks its row current, the handler
finds the resource's current row and retires it.  It then inserts a row whose version is one
past the retired one, or 1 when there was none.  A request that does not mark its row current
inserts version 1, not current, and touches nothing else.  The key invariant is that at most
one row per resource is current.  It is proved to hold after every handler, together with the
database's own constraints: unique names, foreign keys, column widths and autoincrement ids.

Layout (one module per file):

- `wrappers.dfy` (`Wrappers`): `Option`.
- `enums.dfy` (`Enums`): `MatchTypeEnum`.  `Parse` models the enumeration's constructor: a
  member is returned as is, a value is looked up, and `_missing_` retries an integer as its
  decimal string.
- `models.dfy` (`Models`): the row types, the column widths, the 32-bit `IntField` range,
  the defaults, and `WellFormed`.  `WellFormed` is the conjunction of every table constraint
  (ids, unique names, foreign keys, widths, the integer range).  It also holds two invariants
  that no database constraint enforces and only the handlers keep: at most one current row per
  resource (`AtMostOneCurrent`), and every version at least 1.
- `queries.dfy` (`Queries`): the ORM reads the handlers issue, and `list.sort` by id.
- `router_spec.dfy` (`RouterSpec`): each state-changing handler as a function from the tables
  before the request to the tables after it and the response code.
- `router_properties.dfy` (`RouterProperties`): the properties of those functions, and the
  ledger over a run of updates.
- `router.dfy` (`Router`): the class `Store`, holding the tables as fields.  Its methods are
  the handlers; each mutating one is proved to keep `Valid()` and to agree with its
  `RouterSpec` function.

Modelling decisions:

- Response codes: 100 success, 102 not found, 110 business already exists.  A refused row
  raises inside the handler, and which exception handler answers depends on the exception:
  - A value too wide for its `CharField` is refused by the ORM's own length validation before
    anything is sent.  A value outside the 32-bit `IntField` range is refused by the database.
    Neither is an `IntegrityError`, so the generic handler of `monitor/exceptions.py` answers
    HTTP 500 with code 103, modelled as `ServerError`.
  - A resource name already taken violates the unique key on `resource_name`.  The database
    raises `IntegrityError`, which the ORM's exception handlers (registered with
    `add_exception_handlers=True` in `app.py:39`) answer with HTTP 422 and a body without a
    `code`.  This is modelled as `Conflict`.  A row both too wide and with a taken name is
    refused by the validation first, so it gets `ServerError`.
  - Nothing is written in any of these cases.  In `update_resource_monitor` the transaction
    rolls back, so the retired row is restored.
- Rows are kept in insertion order, which is primary-key order because ids come from the
  autoincrement counters.  `filter(...).first()` at `monitor/router.py:179-182` has no
  `order_by`, so which current row it returns is unspecified.  The model chooses the first in
  id order.  The choice is harmless: under `AtMostOneCurrent` there is at most one such row.
- String equality is exact.
- `create_time` arrives as a parameter: the request layer fills it from the clock.
  `resource_md5`, `resource_file_uuid` and the URL are opaque strings.  JSON values are opaque
  maps.
- The request has no version field.  The version is always computed by the handler.
- `delete_resource` deletes every resource that matches all the supplied conditions, so one
  request may delete several resources.  An empty request deletes all of them.  This is what
  the code does, and the model keeps it.

## Model

| member | source | states |
|---|---|---|
| `Enums.Parse` | monitor/enums.py:4-14 | `MatchTypeEnum(value)`: a member is returned as it is.  A member found for a `str` has that string as its value, and one found for an `int` has the int's decimal string.  Any other kind of value is refused |
| `Enums.Repr` | monitor/enums.py:8-9 | the repr of a member is one character, and the constructor maps it back to that member |
| `Enums.ParseStr` | monitor/enums.py:4-6 | "1" parses to MATCH_1 and "2" to MATCH_2.  A string parses to a member exactly when it is that member's value; every other string is refused |
| `Enums.ParseIntAsStr` | monitor/enums.py:11-14 | an integer parses to the same member as its decimal string |
| `Enums.ParseInt` | monitor/enums.py:11-14 | exactly the integers 1 and 2 are accepted (as MATCH_1 and MATCH_2); every other integer is refused |
| `Enums.ParseRejects` | monitor/enums.py:11-14 | a bool (an int to `isinstance`, but its str is "True"/"False") and any non-str, non-int value are refused |
| `Enums.ReprRoundTrip` | monitor/enums.py:8-9 | the repr of a member is exactly its value, and parsing it gives the member back; a member passed to the constructor is returned |
| `Enums.NatToString` | monitor/enums.py:14 | `str` of a natural number is non-empty, and has one character exactly when the number is below 10 |
| `Models.MatchTypeFitsColumn` | monitor/models.py:23 | every member's value fits the 2-character `resource_match_type` column |
| `Models.EmptyTablesWellFormed` | monitor/models.py:4-39 | a freshly created database satisfies every table constraint |
| `Models.ReferencesAreUnique` | monitor/models.py:17-35 | in a well-formed store each resource references exactly one business, and each monitor row exactly one resource |
| `Queries.FindBusinessByName` | monitor/router.py:20 | the lookup of get_or_create returns a business with that name, and returns nothing exactly when no business has it |
| `Queries.FindResource` | monitor/router.py:93 | `get_or_none(id=...)` returns a resource with that id, and nothing exactly when none has it |
| `Queries.FindCurrent` | monitor/router.py:179-182 | `filter(resource_id, resource_is_new=True).first()`: the first current row of the resource, and nothing exactly when it has no current row |
| `Queries.SelectBusinesses` | monitor/router.py:36-39 | a business is selected exactly when no name was given or it has the given name; with no name, the whole table |
| `Queries.SortById` | monitor/router.py:50 | the sorted list is ordered by id and is a permutation of the input |
| `Queries.Matches` | monitor/router.py:146-153 | the filter built from the supplied fields.  A request with no field matches every row; one that gives a resource id matches only the row with that id |
| `Queries.KeepResources` | monitor/router.py:146-153 | a resource survives exactly when it fails some supplied condition; nothing is removed exactly when nothing matches, and then the table is unchanged |
| `Queries.KeepResourcesIncreasing` | monitor/router.py:153 | deleting resources keeps the rest in id order |
| `Queries.DeletedIdsOfRemovedRows` | monitor/router.py:153 | with unique ids, a resource's id is among the deleted ids exactly when the delete drops that resource from the table |
| `Queries.KeepMonitors` | monitor/models.py:35 | the cascade removes exactly the monitor rows of deleted resources and keeps the rest in id order |
| `RouterSpec.MarksCurrent` | monitor/models.py:36 | `resource_is_new` as given, and true when the request leaves it out |
| `RouterSpec.NewResource` | monitor/router.py:75-76 | the inserted row has the next id and the request's business, name, area code and URL; its stored match type parses back to the request's member |
| `RouterSpec.Retire` | monitor/router.py:185-186 | retiring a row clears its current flag, keeps its id, version and resource, and changes no other row |
| `RouterSpec.AddBusiness` | monitor/router.py:11-24 | only the business table changes; anything but 100 changes nothing; after 100 a business with the name exists |
| `RouterSpec.AddResource` | monitor/router.py:60-80 | only the resource table changes; anything but 100 changes nothing; after 100 a resource with the name exists |
| `RouterSpec.UpdateResourceMonitor` | monitor/router.py:160-191 | only the monitor table changes; anything but 100 changes nothing; 100 adds exactly one row |
| `RouterSpec.DeleteResource` | monitor/router.py:137-157 | the answer is 100 or 102; businesses and all three counters stay as they were, and the resource table only shrinks |
| `RouterProperties.UpdateUnknownResource` | monitor/router.py:170-175 | an unknown resource id answers 102 and leaves every table unchanged |
| `RouterProperties.UpdateFirstVersion` | monitor/router.py:177-187 | marking current with no current row inserts exactly one row: version 1, current, with the next id |
| `RouterProperties.UpdateNextVersion` | monitor/router.py:179-187 | marking current when a row of version v is current retires exactly that row and inserts version v+1 as current |
| `RouterProperties.UpdateBackfill` | monitor/router.py:177-187 | not marking current inserts version 1, not current, and changes no existing row |
| `RouterProperties.UpdateDefaultMarksCurrent` | monitor/models.py:36 | a request that leaves `resource_is_new` out behaves as one that marks its row current |
| `RouterProperties.UpdateFrame` | monitor/router.py:176-187 | an update changes only the monitor table.  A failure changes nothing.  A success appends exactly one row, deletes none and leaves other resources' rows untouched.  An old row can only go from current to retired |
| `RouterProperties.UpdateKeepsOneCurrent` | monitor/router.py:176-187 | if at most one row per resource is current before an update, the same holds after it |
| `RouterProperties.UpdateKeepsWellFormed` | monitor/router.py:160-191 | an update keeps every table constraint |
| `RouterProperties.UpdateKeepsMonitorRows` | monitor/router.py:176-187 | after a successful update the monitor rows are still in id order below the counter, with versions at least 1, fitting widths and existing resources |
| `RouterProperties.VersionsCountFromOne` | monitor/router.py:177-187 | after N marking-current updates of a resource without rows, its rows carry versions exactly 1..N in order, only the last is current, and the other rows are unchanged |
| `RouterProperties.LedgerStep` | monitor/router.py:177-187 | one marking-current update extends a ledger of versions 1..k to 1..k+1 |
| `RouterProperties.AddBusinessResult` | monitor/router.py:20-24 | 110 with the tables unchanged exactly when the name exists; 100 exactly when it is new and fits, appending one business with the next id |
| `RouterProperties.AddBusinessIdempotent` | monitor/router.py:20-22 | repeating an add_business call that did not fail answers 110 and changes nothing |
| `RouterProperties.AddBusinessKeepsWellFormed` | monitor/router.py:11-24 | add_business keeps every table constraint, business names staying unique |
| `RouterProperties.AddResourceResult` | monitor/router.py:69-80 | 102 with nothing inserted exactly when the business id is absent.  A row too wide for its columns gets a server error (103), and a taken name a unique-key conflict (422); neither changes anything.  100 exactly when the business exists, the row fits and the name is new, and then one row is appended with the next id |
| `RouterProperties.NewResourceDefaults` | monitor/models.py:21-23 | an omitted header or params is stored as `{}`, given ones as given; the stored match type fits its column |
| `RouterProperties.AddResourceKeepsWellFormed` | monitor/router.py:60-80 | add_resource keeps every table constraint, resource names staying unique |
| `RouterProperties.DeleteResourceResult` | monitor/router.py:146-157 | exactly the matching resources are deleted, with every monitor row of theirs.  Businesses and the autoincrement counters are untouched.  The code is 100 exactly when something matched; otherwise it is 102 and nothing changes |
| `RouterProperties.DeleteAll` | monitor/router.py:146-153 | a request with no condition deletes every resource and every monitor row |
| `RouterProperties.DeleteKeepsWellFormed` | monitor/router.py:137-157 | delete_resource keeps every table constraint, including the foreign keys of the surviving monitor rows |
| `Router.Store.constructor` | monitor/models.py:4-39 | a new store has empty tables, counters at 1, and is valid |
| `Router.Store.AddBusiness` | monitor/router.py:11-24 | keeps the store valid and does what `RouterSpec.AddBusiness` says |
| `Router.Store.QueryBusiness` | monitor/router.py:27-57 | returns exactly the selected businesses, in id order, as a permutation of the selection; 102 exactly when there are none |
| `Router.Store.AddResource` | monitor/router.py:60-80 | keeps the store valid and does what `RouterSpec.AddResource` says |
| `Router.Store.QueryResource` | monitor/router.py:83-107 | returns the resource with the id, and 102 exactly when there is none.  Its current row is returned when it has one.  That row is the only current row of the resource, so `get_or_none` cannot find two |
| `Router.Store.DeleteResource` | monitor/router.py:137-157 | keeps the store valid and does what `RouterSpec.DeleteResource` says for the filter built from the supplied fields |
| `Router.Store.UpdateResourceMonitor` | monitor/router.py:160-191 | keeps the store valid, retiring and inserting inside one rolled-back-on-failure step, and does what `RouterSpec.UpdateResourceMonitor` says |

## Left out

- Concurrency: async handlers, `in_transaction` and `select_for_update`.  Each handler is one
  atomic sequential step.  Lock waits, isolation levels and the parallelism of updates to
  different resources are not sequential behaviour.
- `query_resources` (`GET /queryResources`) is not modelled.  It is read-only, and it compares
  an integer `area_code` query parameter with a character column.  That comparison relies on
  the database's implicit type conversion.
- Request validation (FastAPI, pydantic).  The handlers receive a validated request:
  `resource_match_type` is already a MatchTypeEnum member, and `resource_id` of
  `/updateResourceMonitor` (a string in the request schema) is already an integer id.
  A body that fails validation never reaches a handler.
- Response bodies.  The messages and the 422 `detail` are left out.  Only the outcomes are
  modelled: codes 100, 102 and 110, code 103 for a server error, and the 422 of a unique-key
  conflict.  `/queryResource` returns the resource and its current row, not
  their serialised merge.
- Database collations.  Case- or accent-insensitive name comparison is left out, and so are
  trailing-space padding.  Strings compare exactly.  An over-long value never reaches the
  database, because the ORM's validation refuses it first.
- An autoincrement value consumed by an insert that failed.  A refused insert leaves the
  counters unchanged.
- The width of the TEXT column `resource_url`, and the contents of the JSON columns.
- Errors of the store itself (connection loss and the like), logging, the request-id and timing
  middleware, CORS, and application wiring.  None of them changes the tables.
