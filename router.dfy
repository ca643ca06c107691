/** The route handlers of `monitor/router.py` as methods on an in-memory
    store of the three tables.  Each handler runs as one atomic step: the
    transaction and row lock of `/updateResourceMonitor` become the fact
    that nothing else runs while a method does. */
module Router {
  import opened Wrappers
  import opened Models
  import opened Queries
  import opened RouterSpec
  import RouterProperties

  class Store {
    var businesses: seq<Business>
    var resources: seq<Resource>
    var monitors: seq<Monitor>
    // The tables' autoincrement counters: the id the next inserted row gets.
    var nextBusinessId: int
    var nextResourceId: int
    var nextMonitorId: int

    function State(): Tables
      reads this
    {
      Tables(businesses, resources, monitors, nextBusinessId, nextResourceId, nextMonitorId)
    }

    ghost predicate Valid()
      reads this
    {
      WellFormed(State())
    }

    /** A freshly created database: empty tables, counters at 1. */
    constructor ()
      ensures Valid() && State() == EmptyTables
    {
      businesses, resources, monitors := [], [], [];
      nextBusinessId, nextResourceId, nextMonitorId := 1, 1, 1;
    }

    /** `POST /addBusiness`. */
    method AddBusiness(name: string) returns (code: Code)
      requires Valid()
      modifies this
      ensures Valid()
      ensures Outcome(State(), code) == RouterSpec.AddBusiness(old(State()), name)
    {
      RouterProperties.AddBusinessKeepsWellFormed(State(), name);
      var existing := FindBusinessByName(businesses, name);
      if existing.Some? {
        return AlreadyExists;
      }
      var b := Business(nextBusinessId, name);
      if !BusinessFits(b) {
        return ServerError;
      }
      businesses := businesses + [b];
      nextBusinessId := nextBusinessId + 1;
      // The `save()` that follows the create writes the same row again.
      code := Ok;
    }

    /** `GET /queryBusiness`: every business, or the one with the given
        name, as (id, name) pairs in id order. */
    method QueryBusiness(name: Option<string>) returns (code: Code, data: seq<Business>)
      requires Valid()
      ensures forall b :: b in data <==> b in businesses && NameSelected(name, b)
      ensures multiset(data) == multiset(SelectBusinesses(businesses, name))
      ensures name.None? ==> multiset(data) == multiset(businesses)
      ensures SortedById(data)
      ensures code == if data == [] then NotFound else Ok
    {
      var selected := SelectBusinesses(businesses, name);
      data := SortById(selected);
      assert forall b :: b in data <==> b in multiset(selected);
      code := if data == [] then NotFound else Ok;
    }

    /** `POST /addResource`. */
    method AddResource(input: ResourceInput) returns (code: Code)
      requires Valid()
      modifies this
      ensures Valid()
      ensures Outcome(State(), code) == RouterSpec.AddResource(old(State()), input)
    {
      RouterProperties.AddResourceKeepsWellFormed(State(), input);
      if !HasBusiness(businesses, input.businessId) {
        return NotFound;
      }
      var r := NewResource(nextResourceId, input);
      if !ResourceFits(r) {
        // The ORM's field validation raises before the insert.
        return ServerError;
      }
      if HasResourceNamed(resources, r.name) {
        // The unique key on `resource_name` raises IntegrityError.
        return Conflict;
      }
      resources := resources + [r];
      nextResourceId := nextResourceId + 1;
      code := Ok;
    }

    /** `GET /queryResource`: the resource with the given id together with
        its current version row, if it has one. */
    method QueryResource(rid: int) returns (code: Code, resource: Option<Resource>, current: Option<Monitor>)
      requires Valid()
      ensures resource.Some? <==> HasResource(resources, rid)
      ensures code == if resource.Some? then Ok else NotFound
      ensures resource.Some? ==> resource.value in resources && resource.value.id == rid
      ensures resource.Some? ==> forall r :: r in resources && r.id == rid ==> r == resource.value
      ensures current.Some? ==> resource.Some? && current.value in monitors && IsCurrentOf(current.value, rid)
      ensures current.Some? ==> forall m :: m in monitors && IsCurrentOf(m, rid) ==> m == current.value
      ensures resource.Some? && current.None? ==> forall m :: m in monitors ==> !IsCurrentOf(m, rid)
    {
      resource := FindResource(resources, rid);
      if resource.None? {
        return NotFound, None, None;
      }
      // `get_or_none` on the current rows: at most one exists, so it
      // cannot raise MultipleObjectsReturned.
      var i := FindCurrent(monitors, rid);
      current := if i.Some? then Some(monitors[i.value]) else None;
      code := Ok;
    }

    /** `DELETE /deleteResource`: the supplied fields of the request become
        the filter; the matching resources and their monitor rows go. */
    method DeleteResource(businessId: Option<int>, resourceId: Option<int>, areaCode: Option<string>)
      returns (code: Code)
      requires Valid()
      modifies this
      ensures Valid()
      ensures Outcome(State(), code) ==
              RouterSpec.DeleteResource(old(State()), ResourceFilter(businessId, resourceId, areaCode))
    {
      var f := ResourceFilter(businessId, resourceId, areaCode);
      RouterProperties.DeleteKeepsWellFormed(State(), f);
      var kept := KeepResources(resources, f);
      var deleted := DeletedIds(resources, f);
      var count := |resources| - |kept|;
      resources := kept;
      monitors := KeepMonitors(monitors, deleted);
      code := if count > 0 then Ok else NotFound;
    }

    /** `POST /updateResourceMonitor`. */
    method UpdateResourceMonitor(input: MonitorInput) returns (code: Code)
      requires Valid()
      modifies this
      ensures Valid()
      ensures Outcome(State(), code) == RouterSpec.UpdateResourceMonitor(old(State()), input)
    {
      ghost var o := RouterSpec.UpdateResourceMonitor(State(), input);
      RouterProperties.UpdateKeepsWellFormed(State(), input);
      if !HasResource(resources, input.resourceId) {
        assert State() == o.tables;
        return NotFound;
      }
      // The transaction begins.
      var before := monitors;
      var version := 1;
      var current: Option<nat> := None;
      if MarksCurrent(input) {
        current := FindCurrent(monitors, input.resourceId);
        if current.Some? {
          version := monitors[current.value].version + 1;
          monitors := Retire(monitors, current.value);
        }
      }
      var row := Monitor(nextMonitorId, version, input.resourceId, MarksCurrent(input),
                         input.md5, input.fileUuid, input.createTime);
      if !MonitorFits(row) {
        // The insert is refused and the transaction rolls back.
        monitors := before;
        assert State() == o.tables;
        return ServerError;
      }
      monitors := monitors + [row];
      nextMonitorId := nextMonitorId + 1;
      code := Ok;
      assert State() == o.tables;
    }
  }
}
