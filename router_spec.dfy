/** What each state-changing route handler of `monitor/router.py` does to
    the tables, as one atomic step from the tables before the request to the
    tables after it and the result code returned. */
module RouterSpec {
  import opened Wrappers
  import opened Models
  import opened Queries
  import Enums

  /** The outcome of a request, as the client sees it. */
  datatype Code =
    | Ok             // code 100: done
    | NotFound       // code 102: the referenced row, or any matching row, is absent
    | AlreadyExists  // code 110: the business already exists
    | ServerError    // HTTP 500, code 103: the ORM or the database refused the row
    | Conflict       // HTTP 422, no code: a unique key was violated (IntegrityError)

  /** The `code` field of the response body; the ORM's `IntegrityError`
      handler answers with a `detail` body that has none. */
  function CodeValue(c: Code): Option<int> {
    match c
    case Ok => Some(100)
    case NotFound => Some(102)
    case AlreadyExists => Some(110)
    case ServerError => Some(103)
    case Conflict => None
  }

  function HttpStatus(c: Code): int {
    match c
    case ServerError => 500
    case Conflict => 422
    case _ => 200
  }

  datatype Outcome = Outcome(tables: Tables, code: Code)

  /** The body of `/addResource` once validated: `resource_match_type` has
      already been parsed into a MatchTypeEnum member; header and params may
      be left out. */
  datatype ResourceInput = ResourceInput(
    businessId: int,
    areaCode: string,
    name: string,
    url: string,
    header: Option<Json>,
    params: Option<Json>,
    matchType: Enums.MatchType)

  /** The body of `/updateResourceMonitor`.  It has no version field: the
      version is always computed by the handler.  `create_time` is supplied
      by the request layer (it defaults to the clock there). */
  datatype MonitorInput = MonitorInput(
    resourceId: int,
    isNew: Option<bool>,
    md5: string,
    fileUuid: string,
    createTime: string)

  /** `resource_is_new` of the request, true when it is left out. */
  function MarksCurrent(input: MonitorInput): (b: bool)
    ensures input.isNew.None? ==> b
    ensures input.isNew.Some? ==> b == input.isNew.value
  {
    input.isNew.GetOr(DefaultIsNew)
  }

  /** The row `TaxResource.create(**resource.model_dump())` inserts. */
  function NewResource(id: int, input: ResourceInput): (r: Resource)
    ensures r.id == id && r.businessId == input.businessId && r.name == input.name
    ensures r.areaCode == input.areaCode && r.url == input.url
    ensures Enums.Parse(Enums.PyStr(r.matchType)) == Some(input.matchType)
  {
    Resource(id, input.businessId, input.areaCode, input.name, input.url,
             input.header.GetOr(DefaultJson), input.params.GetOr(DefaultJson),
             Enums.Value(input.matchType))
  }

  /** `monitor.resource_is_new = False; await monitor.save()`. */
  function Retire(ms: seq<Monitor>, i: nat): (r: seq<Monitor>)
    requires i < |ms|
    ensures |r| == |ms| && !r[i].isNew
    ensures r[i].id == ms[i].id && r[i].version == ms[i].version && r[i].resourceId == ms[i].resourceId
    ensures forall k :: 0 <= k < |ms| && k != i ==> r[k] == ms[k]
  {
    ms[i := ms[i].(isNew := false)]
  }

  /** `add_business`: get_or_create by name. */
  function AddBusiness(t: Tables, name: string): (o: Outcome)
    ensures o.tables.resources == t.resources && o.tables.monitors == t.monitors
    ensures o.code != Ok ==> o.tables == t
    ensures o.code == Ok ==> exists b :: b in o.tables.businesses && b.name == name
  {
    if FindBusinessByName(t.businesses, name).Some? then Outcome(t, AlreadyExists)
    else
      var b := Business(t.nextBusinessId, name);
      if !BusinessFits(b) then Outcome(t, ServerError)
      else Outcome(t.(businesses := t.businesses + [b], nextBusinessId := t.nextBusinessId + 1), Ok)
  }

  /** `add_resource`: insert a resource under an existing business.  The
      ORM's own validation refuses a value too wide for its column before
      anything is sent (a 500); the database then refuses a name already
      taken with an `IntegrityError` (a 422). */
  function AddResource(t: Tables, input: ResourceInput): (o: Outcome)
    ensures o.tables.businesses == t.businesses && o.tables.monitors == t.monitors
    ensures o.code != Ok ==> o.tables == t
    ensures o.code == Ok ==> HasResourceNamed(o.tables.resources, input.name)
  {
    if !HasBusiness(t.businesses, input.businessId) then Outcome(t, NotFound)
    else
      var r := NewResource(t.nextResourceId, input);
      if !ResourceFits(r) then Outcome(t, ServerError)
      else if HasResourceNamed(t.resources, r.name) then Outcome(t, Conflict)
      else
        assert (t.resources + [r])[|t.resources|] == r;
        Outcome(t.(resources := t.resources + [r], nextResourceId := t.nextResourceId + 1), Ok)
  }

  /** `update_resource_monitor`: record a new version row for a resource.
      When the request marks it current, the current row (if any) is retired
      and the new version is one past it; otherwise the row gets version 1
      and nothing else is touched.  A refused insert rolls the transaction
      back, retirement included. */
  function UpdateResourceMonitor(t: Tables, input: MonitorInput): (o: Outcome)
    ensures o.tables.businesses == t.businesses && o.tables.resources == t.resources
    ensures o.code != Ok ==> o.tables == t
    ensures o.code == Ok ==> |o.tables.monitors| == |t.monitors| + 1
  {
    if !HasResource(t.resources, input.resourceId) then Outcome(t, NotFound)
    else
      var current := if MarksCurrent(input) then FindCurrent(t.monitors, input.resourceId) else None;
      var version := if current.Some? then t.monitors[current.value].version + 1 else 1;
      var row := Monitor(t.nextMonitorId, version, input.resourceId, MarksCurrent(input),
                         input.md5, input.fileUuid, input.createTime);
      if !MonitorFits(row) then Outcome(t, ServerError)
      else
        var retired := if current.Some? then Retire(t.monitors, current.value) else t.monitors;
        Outcome(t.(monitors := retired + [row], nextMonitorId := t.nextMonitorId + 1), Ok)
  }

  /** `delete_resource`: delete every resource the filter matches, and with
      them their monitor rows; the code tells whether anything was deleted. */
  function DeleteResource(t: Tables, f: ResourceFilter): (o: Outcome)
    ensures o.tables.businesses == t.businesses
    ensures o.tables.nextBusinessId == t.nextBusinessId
    ensures o.tables.nextResourceId == t.nextResourceId
    ensures o.tables.nextMonitorId == t.nextMonitorId
    ensures o.code == Ok || o.code == NotFound
    ensures |o.tables.resources| <= |t.resources|
  {
    var kept := KeepResources(t.resources, f);
    var removed := |t.resources| - |kept|;
    var monitors := KeepMonitors(t.monitors, DeletedIds(t.resources, f));
    Outcome(t.(resources := kept, monitors := monitors), if removed > 0 then Ok else NotFound)
  }
}
