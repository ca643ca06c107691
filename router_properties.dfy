/** Properties of the route handlers: what each returns and changes, the
    table constraints each keeps, and the version ledger over a run of
    updates. */
module RouterProperties {
  import opened Wrappers
  import opened Models
  import opened Queries
  import opened RouterSpec

  // ---- update_resource_monitor ----

  /** An unknown resource is reported with 102 and nothing is written. */
  lemma UpdateUnknownResource(t: Tables, input: MonitorInput)
    requires !HasResource(t.resources, input.resourceId)
    ensures UpdateResourceMonitor(t, input) == Outcome(t, NotFound)
  {
  }

  /** The columns of the inserted row that come from the request fit. */
  predicate InputFits(input: MonitorInput) {
    && InIntRange(input.resourceId)
    && |input.md5| <= Md5Max
    && |input.fileUuid| <= FileUuidMax
    && |input.createTime| <= CreateTimeMax
  }

  /** Marking current with no current row inserts exactly one row: version 1,
      current. */
  lemma UpdateFirstVersion(t: Tables, input: MonitorInput)
    requires HasResource(t.resources, input.resourceId) && MarksCurrent(input)
    requires forall m :: m in t.monitors ==> !IsCurrentOf(m, input.resourceId)
    requires InputFits(input) && InIntRange(t.nextMonitorId)
    ensures UpdateResourceMonitor(t, input) ==
      Outcome(t.(monitors := t.monitors + [Monitor(t.nextMonitorId, 1, input.resourceId, true,
                                                   input.md5, input.fileUuid, input.createTime)],
                 nextMonitorId := t.nextMonitorId + 1), Ok)
  {
  }

  /** Marking current when row `i` is the current one of version v retires
      that row and inserts version v + 1 as the current one. */
  lemma UpdateNextVersion(t: Tables, input: MonitorInput, i: nat)
    requires AtMostOneCurrent(t.monitors)
    requires HasResource(t.resources, input.resourceId) && MarksCurrent(input)
    requires i < |t.monitors| && IsCurrentOf(t.monitors[i], input.resourceId)
    requires InputFits(input) && InIntRange(t.nextMonitorId) && t.monitors[i].version < IntMax
    requires IntMin <= t.monitors[i].version
    ensures UpdateResourceMonitor(t, input) ==
      Outcome(t.(monitors := t.monitors[i := t.monitors[i].(isNew := false)]
                   + [Monitor(t.nextMonitorId, t.monitors[i].version + 1, input.resourceId, true,
                              input.md5, input.fileUuid, input.createTime)],
                 nextMonitorId := t.nextMonitorId + 1), Ok)
  {
  }

  /** Not marking current inserts version 1, not current, and modifies no
      existing row. */
  lemma UpdateBackfill(t: Tables, input: MonitorInput)
    requires HasResource(t.resources, input.resourceId) && !MarksCurrent(input)
    requires InputFits(input) && InIntRange(t.nextMonitorId)
    ensures UpdateResourceMonitor(t, input) ==
      Outcome(t.(monitors := t.monitors + [Monitor(t.nextMonitorId, 1, input.resourceId, false,
                                                   input.md5, input.fileUuid, input.createTime)],
                 nextMonitorId := t.nextMonitorId + 1), Ok)
  {
  }

  /** Leaving `resource_is_new` out of the request marks the row current. */
  lemma UpdateDefaultMarksCurrent(t: Tables, input: MonitorInput)
    ensures UpdateResourceMonitor(t, input.(isNew := None)) ==
            UpdateResourceMonitor(t, input.(isNew := Some(true)))
  {
  }

  /** What one update may change: only the monitor table; on success exactly
      one row is appended, none is deleted, rows of other resources are
      untouched, and an existing row can only go from current to retired. */
  lemma UpdateFrame(t: Tables, input: MonitorInput)
    ensures var o := UpdateResourceMonitor(t, input);
      && o.tables.businesses == t.businesses
      && o.tables.resources == t.resources
      && (o.code != Ok ==> o.tables == t)
      && (o.code == Ok ==>
            && |o.tables.monitors| == |t.monitors| + 1
            && o.tables.nextMonitorId == t.nextMonitorId + 1
            && o.tables.monitors[|t.monitors|].id == t.nextMonitorId
            && o.tables.monitors[|t.monitors|].resourceId == input.resourceId
            && o.tables.monitors[|t.monitors|].isNew == MarksCurrent(input)
            && (forall k :: 0 <= k < |t.monitors| && t.monitors[k].resourceId != input.resourceId ==>
                  o.tables.monitors[k] == t.monitors[k])
            && (forall k :: 0 <= k < |t.monitors| ==>
                  o.tables.monitors[k] == t.monitors[k]
                  || (IsCurrentOf(t.monitors[k], input.resourceId)
                      && o.tables.monitors[k] == t.monitors[k].(isNew := false))))
    ensures UpdateResourceMonitor(t, input).code == ServerError ==> HasResource(t.resources, input.resourceId)
    ensures UpdateResourceMonitor(t, input).code == Ok ==> HasResource(t.resources, input.resourceId)
  {
  }

  /** The key invariant: if at most one row per resource is current before an
      update, the same holds after it. */
  lemma UpdateKeepsOneCurrent(t: Tables, input: MonitorInput)
    requires AtMostOneCurrent(t.monitors)
    ensures AtMostOneCurrent(UpdateResourceMonitor(t, input).tables.monitors)
  {
  }

  lemma UpdateKeepsWellFormed(t: Tables, input: MonitorInput)
    requires WellFormed(t)
    ensures WellFormed(UpdateResourceMonitor(t, input).tables)
  {
    UpdateKeepsOneCurrent(t, input);
    if UpdateResourceMonitor(t, input).code == Ok {
      UpdateKeepsMonitorRows(t, input);
    }
  }

  /** The rows after a successful update keep their ids, versions, widths
      and resources, and the new row has the next id. */
  lemma UpdateKeepsMonitorRows(t: Tables, input: MonitorInput)
    requires WellFormed(t) && UpdateResourceMonitor(t, input).code == Ok
    ensures var o := UpdateResourceMonitor(t, input);
      && MonitorIdsIncreasing(o.tables.monitors)
      && forall m :: m in o.tables.monitors ==>
           1 <= m.id < o.tables.nextMonitorId && 1 <= m.version && MonitorFits(m)
           && HasResource(t.resources, m.resourceId)
  {
    var o := UpdateResourceMonitor(t, input);
    var ms, ms' := t.monitors, o.tables.monitors;
    var n := |ms|;
    assert forall k :: 0 <= k < n ==> ms'[k].id == ms[k].id && ms'[k].version == ms[k].version;
    assert forall k :: 0 <= k < n ==> ms[k] in ms;
    forall m | m in ms'
      ensures 1 <= m.id < o.tables.nextMonitorId && 1 <= m.version && MonitorFits(m)
      ensures HasResource(t.resources, m.resourceId)
    {
      var k :| 0 <= k < |ms'| && ms'[k] == m;
      if k < n { assert ms[k] in ms; }
    }
  }

  // ---- add_business ----

  /** A name already present is answered with 110 and nothing changes;
      otherwise one business is appended with the next id. */
  lemma AddBusinessResult(t: Tables, name: string)
    ensures var o := AddBusiness(t, name);
      && ((exists b :: b in t.businesses && b.name == name) <==> o == Outcome(t, AlreadyExists))
      && (o.code == Ok <==> (forall b :: b in t.businesses ==> b.name != name)
                                && BusinessFits(Business(t.nextBusinessId, name)))
      && (o.code == Ok ==> o.tables == t.(businesses := t.businesses + [Business(t.nextBusinessId, name)],
                                           nextBusinessId := t.nextBusinessId + 1))
      && (o.code != Ok ==> o.tables == t)
  {
  }

  /** get_or_create is idempotent: repeating a call that did not fail finds
      the business and changes nothing. */
  lemma AddBusinessIdempotent(t: Tables, name: string)
    requires AddBusiness(t, name).code != ServerError
    ensures var t1 := AddBusiness(t, name).tables;
      AddBusiness(t1, name) == Outcome(t1, AlreadyExists)
  {
  }

  lemma AddBusinessKeepsWellFormed(t: Tables, name: string)
    requires WellFormed(t)
    ensures WellFormed(AddBusiness(t, name).tables)
  {
    var o := AddBusiness(t, name);
    if o.code == Ok {
      var bs := o.tables.businesses;
      forall r | r in t.resources ensures HasBusiness(bs, r.businessId) {
        var k :| 0 <= k < |t.businesses| && t.businesses[k].id == r.businessId;
        assert bs[k] == t.businesses[k];
      }
      assert forall k :: 0 <= k < |t.businesses| ==> t.businesses[k] in t.businesses;
    }
  }

  // ---- add_resource ----

  /** An absent business is answered with 102 and nothing is inserted.  A
      row too wide for its columns is refused with a server error, and a
      name already taken with a unique-key conflict; neither changes
      anything.  Otherwise the row is appended with the next id. */
  lemma AddResourceResult(t: Tables, input: ResourceInput)
    ensures var o := AddResource(t, input);
      && (!HasBusiness(t.businesses, input.businessId) <==> o == Outcome(t, NotFound))
      && ((HasBusiness(t.businesses, input.businessId) && !ResourceFits(NewResource(t.nextResourceId, input)))
          ==> o == Outcome(t, ServerError))
      && ((HasBusiness(t.businesses, input.businessId) && ResourceFits(NewResource(t.nextResourceId, input))
           && HasResourceNamed(t.resources, input.name))
          ==> o == Outcome(t, Conflict))
      && (o.code != Ok ==> o.tables == t)
      && (o.code == Ok <==>
            HasBusiness(t.businesses, input.businessId)
            && ResourceFits(NewResource(t.nextResourceId, input))
            && !HasResourceNamed(t.resources, input.name))
      && (o.code == Ok ==>
            o.tables == t.(resources := t.resources + [NewResource(t.nextResourceId, input)],
                           nextResourceId := t.nextResourceId + 1))
  {
  }

  /** The inserted row takes the defaults for what the request left out. */
  lemma NewResourceDefaults(id: int, input: ResourceInput)
    ensures input.header.None? ==> NewResource(id, input).header == map[]
    ensures input.params.None? ==> NewResource(id, input).params == map[]
    ensures input.header.Some? ==> NewResource(id, input).header == input.header.value
    ensures input.params.Some? ==> NewResource(id, input).params == input.params.value
    ensures |NewResource(id, input).matchType| <= MatchTypeMax
  {
  }

  lemma AddResourceKeepsWellFormed(t: Tables, input: ResourceInput)
    requires WellFormed(t)
    ensures WellFormed(AddResource(t, input).tables)
  {
    var o := AddResource(t, input);
    if o.code == Ok {
      var rs := o.tables.resources;
      forall m | m in t.monitors ensures HasResource(rs, m.resourceId) {
        var k :| 0 <= k < |t.resources| && t.resources[k].id == m.resourceId;
        assert rs[k] == t.resources[k];
      }
      assert forall k :: 0 <= k < |t.resources| ==> t.resources[k] in t.resources;
    }
  }

  // ---- delete_resource ----

  /** Exactly the resources matching every supplied condition are deleted,
      and their monitor rows with them; 100 exactly when something was
      deleted, and when nothing matched nothing changes. */
  lemma DeleteResourceResult(t: Tables, f: ResourceFilter)
    ensures var o := DeleteResource(t, f);
      && o.tables.businesses == t.businesses
      && (forall r :: r in o.tables.resources <==> r in t.resources && !Matches(f, r))
      && (forall m :: m in o.tables.monitors <==>
            m in t.monitors && !(exists r :: r in t.resources && Matches(f, r) && r.id == m.resourceId))
      && (o.code == Ok <==> exists r :: r in t.resources && Matches(f, r))
      && (o.code != Ok ==> o.code == NotFound && o.tables == t)
      && o.tables.nextBusinessId == t.nextBusinessId
      && o.tables.nextResourceId == t.nextResourceId
      && o.tables.nextMonitorId == t.nextMonitorId
  {
  }

  /** With no condition supplied every resource is deleted, and in a
      well-formed store every monitor row with them. */
  lemma DeleteAll(t: Tables)
    requires WellFormed(t)
    ensures DeleteResource(t, MatchAll).tables.resources == []
    ensures DeleteResource(t, MatchAll).tables.monitors == []
  {
    forall m | m in t.monitors ensures m.resourceId in DeletedIds(t.resources, MatchAll) {
      var k :| 0 <= k < |t.resources| && t.resources[k].id == m.resourceId;
      assert t.resources[k] in t.resources;
    }
  }

  lemma DeleteKeepsWellFormed(t: Tables, f: ResourceFilter)
    requires WellFormed(t)
    ensures WellFormed(DeleteResource(t, f).tables)
  {
    var o := DeleteResource(t, f);
    var kept := o.tables.resources;
    var deleted := DeletedIds(t.resources, f);
    KeepResourcesIncreasing(t.resources, f);
    UniqueResourceNamesSubset(t.resources, kept);
    AtMostOneCurrentSubset(t.monitors, o.tables.monitors);
    forall m | m in o.tables.monitors ensures HasResource(kept, m.resourceId) {
      var k :| 0 <= k < |t.resources| && t.resources[k].id == m.resourceId;
      var r := t.resources[k];
      assert r in t.resources;
      assert !Matches(f, r);
      assert r in kept;
      var j :| 0 <= j < |kept| && kept[j] == r;
    }
  }

  // ---- The version ledger over a run of updates ----

  /** The tables after the updates of `inputs`, applied one after another. */
  function RunUpdates(t: Tables, inputs: seq<MonitorInput>): Tables
    decreases |inputs|
  {
    if inputs == [] then t
    else RunUpdates(UpdateResourceMonitor(t, inputs[0]).tables, inputs[1..])
  }

  /** `ms` is `base` followed by k rows of resource `rid` with versions
      1..k, of which only the last is current. */
  predicate Ledger(ms: seq<Monitor>, base: seq<Monitor>, rid: int, k: nat) {
    && |ms| == |base| + k
    && ms[..|base|] == base
    && forall i :: |base| <= i < |ms| ==>
         && ms[i].resourceId == rid
         && ms[i].version == i - |base| + 1
         && ms[i].isNew == (i == |ms| - 1)
  }

  /** In a ledger the only current row of `rid` is its last one. */
  lemma LedgerCurrent(ms: seq<Monitor>, base: seq<Monitor>, rid: int, k: nat)
    requires forall m :: m in base ==> m.resourceId != rid
    requires Ledger(ms, base, rid, k)
    ensures FindCurrent(ms, rid) == if k == 0 then None else Some(|ms| - 1)
  {
    forall i | 0 <= i < |base| ensures !IsCurrentOf(ms[i], rid) {
      assert ms[i] == ms[..|base|][i] && base[i] in base;
    }
    assert forall i :: 0 <= i < |ms| && IsCurrentOf(ms[i], rid) ==> i == |ms| - 1;
    if 0 < k {
      assert IsCurrentOf(ms[|ms| - 1], rid);
    }
  }

  /** Retiring the last row of a ledger and appending the next version to
      it gives the ledger one longer. */
  lemma LedgerAppend(ms: seq<Monitor>, base: seq<Monitor>, rid: int, k: nat, row: Monitor)
    requires Ledger(ms, base, rid, k)
    requires row.resourceId == rid && row.version == k + 1 && row.isNew
    ensures 0 < k ==> Ledger(Retire(ms, |ms| - 1) + [row], base, rid, k + 1)
    ensures k == 0 ==> Ledger(ms + [row], base, rid, k + 1)
  {
    if 0 < k {
      var ms' := Retire(ms, |ms| - 1) + [row];
      assert ms'[..|base|] == ms[..|base|];
    } else {
      assert (ms + [row])[..|base|] == ms[..|base|];
    }
  }

  /** One update marking a row of `rid` current extends the ledger by the
      next version. */
  lemma LedgerStep(t: Tables, input: MonitorInput, base: seq<Monitor>, k: nat)
    requires HasResource(t.resources, input.resourceId) && MarksCurrent(input) && InputFits(input)
    requires InIntRange(t.nextMonitorId) && k < IntMax
    requires forall m :: m in base ==> m.resourceId != input.resourceId
    requires Ledger(t.monitors, base, input.resourceId, k)
    ensures UpdateResourceMonitor(t, input).code == Ok
    ensures UpdateResourceMonitor(t, input).tables.resources == t.resources
    ensures UpdateResourceMonitor(t, input).tables.nextMonitorId == t.nextMonitorId + 1
    ensures Ledger(UpdateResourceMonitor(t, input).tables.monitors, base, input.resourceId, k + 1)
  {
    var ms, rid := t.monitors, input.resourceId;
    LedgerCurrent(ms, base, rid, k);
    var row := Monitor(t.nextMonitorId, k + 1, rid, true, input.md5, input.fileUuid, input.createTime);
    if 0 < k {
      assert ms[|ms| - 1].version == k;
    }
    LedgerAppend(ms, base, rid, k, row);
  }

  lemma {:induction false} RunExtendsLedger(t: Tables, rid: int, inputs: seq<MonitorInput>, base: seq<Monitor>, k: nat)
    requires HasResource(t.resources, rid)
    requires forall i :: 0 <= i < |inputs| ==>
      inputs[i].resourceId == rid && MarksCurrent(inputs[i]) && InputFits(inputs[i])
    requires IntMin <= t.nextMonitorId && t.nextMonitorId + |inputs| <= IntMax + 1
    requires k + |inputs| <= IntMax
    requires forall m :: m in base ==> m.resourceId != rid
    requires Ledger(t.monitors, base, rid, k)
    ensures Ledger(RunUpdates(t, inputs).monitors, base, rid, k + |inputs|)
    decreases |inputs|
  {
    if inputs != [] {
      LedgerStep(t, inputs[0], base, k);
      var t1 := UpdateResourceMonitor(t, inputs[0]).tables;
      RunExtendsLedger(t1, rid, inputs[1..], base, k + 1);
    }
  }

  /** After N updates that mark a row of a resource without version rows
      current, its rows carry exactly the versions 1..N, in order, and only
      the last is current; the rows of the other resources stay as they were. */
  lemma VersionsCountFromOne(t: Tables, rid: int, inputs: seq<MonitorInput>)
    requires WellFormed(t) && HasResource(t.resources, rid)
    requires forall m :: m in t.monitors ==> m.resourceId != rid
    requires forall i :: 0 <= i < |inputs| ==>
      inputs[i].resourceId == rid && MarksCurrent(inputs[i]) && InputFits(inputs[i])
    requires t.nextMonitorId + |inputs| <= IntMax + 1
    ensures var ms := RunUpdates(t, inputs).monitors;
      && |ms| == |t.monitors| + |inputs|
      && ms[..|t.monitors|] == t.monitors
      && forall i :: |t.monitors| <= i < |ms| ==>
           && ms[i].resourceId == rid
           && ms[i].version == i - |t.monitors| + 1
           && ms[i].isNew == (i == |ms| - 1)
  {
    assert t.monitors[..|t.monitors|] == t.monitors;
    RunExtendsLedger(t, rid, inputs, t.monitors, 0);
  }
}
