/** The ORM reads the handlers issue against the tables: `get_or_none`,
    `filter(...).first()`, `filter(...)`, and Python's `list.sort` on the
    rows returned. */
module Queries {
  import opened Wrappers
  import opened Models

  /** The lookup half of `TaxBusiness.get_or_create(business_name=name)`. */
  function FindBusinessByName(bs: seq<Business>, name: string): (r: Option<Business>)
    ensures r.Some? ==> r.value in bs && r.value.name == name
    ensures r.None? <==> forall b :: b in bs ==> b.name != name
  {
    if bs == [] then None
    else if bs[0].name == name then Some(bs[0])
    else FindBusinessByName(bs[1..], name)
  }

  /** `TaxResource.get_or_none(id=id)`. */
  function FindResource(rs: seq<Resource>, id: int): (r: Option<Resource>)
    ensures r.Some? ==> r.value in rs && r.value.id == id
    ensures r.None? <==> !HasResource(rs, id)
  {
    if rs == [] then None
    else if rs[0].id == id then Some(rs[0])
    else
      var r := FindResource(rs[1..], id);
      assert HasResource(rs, id) ==> HasResource(rs[1..], id) by {
        if HasResource(rs, id) {
          var k :| 0 <= k < |rs| && rs[k].id == id;
          assert k != 0 && rs[1..][k - 1].id == id;
        }
      }
      r
  }

  /** `TaxResourceMonitor.filter(resource_id=rid, resource_is_new=True).first()`:
      the position of the first current row of the resource, if any. */
  function FindCurrent(ms: seq<Monitor>, rid: int): (r: Option<nat>)
    ensures r.Some? ==> r.value < |ms| && IsCurrentOf(ms[r.value], rid)
    ensures r.Some? ==> forall k :: 0 <= k < r.value ==> !IsCurrentOf(ms[k], rid)
    ensures r.None? <==> forall k :: 0 <= k < |ms| ==> !IsCurrentOf(ms[k], rid)
  {
    if ms == [] then None
    else if IsCurrentOf(ms[0], rid) then Some(0)
    else match FindCurrent(ms[1..], rid)
      case None => None
      case Some(i) => Some(i + 1)
  }

  /** The businesses `query_business` selects: all of them, or those with
      the given name. */
  predicate NameSelected(name: Option<string>, b: Business) {
    name.None? || b.name == name.value
  }

  function SelectBusinesses(bs: seq<Business>, name: Option<string>): (r: seq<Business>)
    ensures forall b :: b in r <==> b in bs && NameSelected(name, b)
    ensures name.None? ==> r == bs
  {
    if bs == [] then []
    else if NameSelected(name, bs[0]) then [bs[0]] + SelectBusinesses(bs[1..], name)
    else SelectBusinesses(bs[1..], name)
  }

  predicate SortedById(s: seq<Business>) {
    forall i, j :: 0 <= i < j < |s| ==> s[i].id <= s[j].id
  }

  function InsertById(b: Business, s: seq<Business>): (r: seq<Business>)
    requires SortedById(s)
    ensures SortedById(r)
    ensures multiset(r) == multiset(s) + multiset{b}
    ensures r[0] == b || (s != [] && r[0] == s[0])
  {
    if s == [] then [b]
    else if b.id <= s[0].id then [b] + s
    else
      var tail := InsertById(b, s[1..]);
      assert s == [s[0]] + s[1..];
      [s[0]] + tail
  }

  /** `data.sort(key=lambda x: x["id"])`: the same rows, in id order. */
  function SortById(s: seq<Business>): (r: seq<Business>)
    ensures SortedById(r)
    ensures multiset(r) == multiset(s)
  {
    if s == [] then []
    else
      assert s == [s[0]] + s[1..];
      InsertById(s[0], SortById(s[1..]))
  }

  /** The conditions `delete_resource` collects: each one is present only
      when the request supplied it. */
  datatype ResourceFilter = ResourceFilter(
    businessId: Option<int>,
    resourceId: Option<int>,
    areaCode: Option<string>)

  const MatchAll := ResourceFilter(None, None, None)

  /** `TaxResource.filter(**filter_conditions)`: a row matches when it
      satisfies every supplied condition. */
  predicate Matches(f: ResourceFilter, r: Resource)
    ensures f == MatchAll ==> Matches(f, r)
    ensures Matches(f, r) && f.resourceId.Some? ==> r.id == f.resourceId.value
  {
    && (f.businessId.None? || r.businessId == f.businessId.value)
    && (f.resourceId.None? || r.id == f.resourceId.value)
    && (f.areaCode.None? || r.areaCode == f.areaCode.value)
  }

  /** The resource rows left once the matching ones are deleted. */
  function KeepResources(rs: seq<Resource>, f: ResourceFilter): (r: seq<Resource>)
    ensures forall x :: x in r <==> x in rs && !Matches(f, x)
    ensures |r| <= |rs|
    ensures |r| == |rs| <==> forall x :: x in rs ==> !Matches(f, x)
    ensures |r| == |rs| ==> r == rs
    ensures (forall x :: x in rs ==> Matches(f, x)) ==> r == []
  {
    if rs == [] then []
    else
      var tail := KeepResources(rs[1..], f);
      assert rs == [rs[0]] + rs[1..];
      if Matches(f, rs[0]) then tail else [rs[0]] + tail
  }

  /** Deleting rows keeps the others in id order. */
  lemma {:induction false} KeepResourcesIncreasing(rs: seq<Resource>, f: ResourceFilter)
    requires ResourceIdsIncreasing(rs)
    ensures ResourceIdsIncreasing(KeepResources(rs, f))
  {
    if rs != [] {
      KeepResourcesIncreasing(rs[1..], f);
      var tail := KeepResources(rs[1..], f);
      if !Matches(f, rs[0]) {
        HeadBelowRest(rs);
        ConsIncreasing(rs[0], tail, rs[1..]);
      }
    }
  }

  lemma HeadBelowRest(rs: seq<Resource>)
    requires rs != [] && ResourceIdsIncreasing(rs)
    ensures forall x :: x in rs[1..] ==> rs[0].id < x.id
  {
    forall x | x in rs[1..] ensures rs[0].id < x.id {
      var k :| 0 <= k < |rs[1..]| && rs[1..][k] == x;
      assert rs[k + 1] == x;
    }
  }

  lemma ConsIncreasing(r0: Resource, tail: seq<Resource>, rest: seq<Resource>)
    requires ResourceIdsIncreasing(tail)
    requires forall x :: x in tail ==> x in rest
    requires forall x :: x in rest ==> r0.id < x.id
    ensures ResourceIdsIncreasing([r0] + tail)
  {
    var r := [r0] + tail;
    forall i, j | 0 <= i < j < |r| ensures r[i].id < r[j].id {
      assert r[j] == tail[j - 1] && tail[j - 1] in tail;
      if 0 < i { assert r[i] == tail[i - 1]; }
    }
  }

  /** The ids of the rows the filter deletes. */
  function DeletedIds(rs: seq<Resource>, f: ResourceFilter): set<int> {
    set r | r in rs && Matches(f, r) :: r.id
  }

  /** With unique ids, the deleted ids are exactly those of the rows that
      `KeepResources` drops, so the cascade follows the delete. */
  lemma DeletedIdsOfRemovedRows(rs: seq<Resource>, f: ResourceFilter)
    requires ResourceIdsIncreasing(rs)
    ensures forall r :: r in rs ==> (r.id in DeletedIds(rs, f) <==> r !in KeepResources(rs, f))
  {
    forall r | r in rs && r.id in DeletedIds(rs, f) ensures Matches(f, r) {
      var r' :| r' in rs && Matches(f, r') && r'.id == r.id;
      var i :| 0 <= i < |rs| && rs[i] == r;
      var j :| 0 <= j < |rs| && rs[j] == r';
      assert i == j;
    }
  }

  /** The monitor rows left once those of the deleted resources are removed
      (`ON DELETE CASCADE` on `tax_resource_monitor.resource_id`). */
  function KeepMonitors(ms: seq<Monitor>, ids: set<int>): (r: seq<Monitor>)
    ensures forall m :: m in r <==> m in ms && m.resourceId !in ids
    ensures (forall m :: m in ms ==> m.resourceId !in ids) ==> r == ms
    ensures (forall m :: m in ms ==> m.resourceId in ids) ==> r == []
    ensures MonitorIdsIncreasing(ms) ==> MonitorIdsIncreasing(r)
  {
    if ms == [] then []
    else
      var tail := KeepMonitors(ms[1..], ids);
      assert ms == [ms[0]] + ms[1..];
      if ms[0].resourceId in ids then tail else [ms[0]] + tail
  }
}
