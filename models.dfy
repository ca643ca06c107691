/** The three tables of the resource monitor (`tax_business`, `tax_resource`,
    `tax_resource_monitor`): their row shapes, column widths, defaults and the
    uniqueness and foreign-key constraints the database enforces. */
module Models {
  import opened Wrappers
  import Enums

  // Widths of the CharField columns, in characters.
  const BusinessNameMax := 255
  const AreaCodeMax := 10
  const ResourceNameMax := 255
  const MatchTypeMax := 2
  const Md5Max := 255
  const FileUuidMax := 32
  const CreateTimeMax := 32

  // IntField is a signed 32-bit INT column.
  const IntMin := -0x8000_0000
  const IntMax := 0x7FFF_FFFF

  predicate InIntRange(x: int) {
    IntMin <= x <= IntMax
  }

  /** A JSONField value; its contents are opaque to this model. */
  type Json = map<string, string>

  /** `resource_header` and `resource_params` default to `{}`. */
  const DefaultJson: Json := map[]

  /** `resource_is_new` defaults to true. */
  const DefaultIsNew := true

  datatype Business = Business(id: int, name: string)

  datatype Resource = Resource(
    id: int,
    businessId: int,
    areaCode: string,
    name: string,
    url: string,
    header: Json,
    params: Json,
    matchType: string)

  datatype Monitor = Monitor(
    id: int,
    version: int,
    resourceId: int,
    isNew: bool,
    md5: string,
    fileUuid: string,
    createTime: string)

  // ---- Column constraints of a single row ----

  predicate BusinessFits(b: Business) {
    InIntRange(b.id) && |b.name| <= BusinessNameMax
  }

  predicate ResourceFits(r: Resource) {
    && InIntRange(r.id)
    && InIntRange(r.businessId)
    && |r.areaCode| <= AreaCodeMax
    && |r.name| <= ResourceNameMax
    && |r.matchType| <= MatchTypeMax
  }

  predicate MonitorFits(m: Monitor) {
    && InIntRange(m.id)
    && InIntRange(m.version)
    && InIntRange(m.resourceId)
    && |m.md5| <= Md5Max
    && |m.fileUuid| <= FileUuidMax
    && |m.createTime| <= CreateTimeMax
  }

  /** Every member of MatchTypeEnum fits the `resource_match_type` column. */
  lemma MatchTypeFitsColumn(t: Enums.MatchType)
    ensures |Enums.Value(t)| <= MatchTypeMax
  {
  }

  // ---- Table-wide constraints ----

  /** Primary keys come from an autoincrement counter, so rows are kept in
      increasing id order, which also makes ids unique. */
  predicate BusinessIdsIncreasing(bs: seq<Business>) {
    forall i, j :: 0 <= i < j < |bs| ==> bs[i].id < bs[j].id
  }

  predicate ResourceIdsIncreasing(rs: seq<Resource>) {
    forall i, j :: 0 <= i < j < |rs| ==> rs[i].id < rs[j].id
  }

  predicate MonitorIdsIncreasing(ms: seq<Monitor>) {
    forall i, j :: 0 <= i < j < |ms| ==> ms[i].id < ms[j].id
  }

  /** `business_name` is declared unique. */
  predicate UniqueBusinessNames(bs: seq<Business>) {
    forall i, j :: 0 <= i < |bs| && 0 <= j < |bs| && bs[i].name == bs[j].name ==> i == j
  }

  /** `resource_name` is declared unique. */
  predicate UniqueResourceNames(rs: seq<Resource>) {
    forall i, j :: 0 <= i < |rs| && 0 <= j < |rs| && rs[i].name == rs[j].name ==> i == j
  }

  predicate HasBusiness(bs: seq<Business>, id: int) {
    exists i :: 0 <= i < |bs| && bs[i].id == id
  }

  predicate HasResource(rs: seq<Resource>, id: int) {
    exists i :: 0 <= i < |rs| && rs[i].id == id
  }

  predicate HasResourceNamed(rs: seq<Resource>, name: string) {
    exists i :: 0 <= i < |rs| && rs[i].name == name
  }

  /** The row is the current version of resource `rid`. */
  predicate IsCurrentOf(m: Monitor, rid: int) {
    m.resourceId == rid && m.isNew
  }

  /** At most one row per resource has `resource_is_new` set. */
  predicate AtMostOneCurrent(ms: seq<Monitor>) {
    forall i, j ::
      0 <= i < |ms| && 0 <= j < |ms| && ms[i].isNew && ms[j].isNew && ms[i].resourceId == ms[j].resourceId
      ==> i == j
  }

  /** The whole store: the three tables and their autoincrement counters. */
  datatype Tables = Tables(
    businesses: seq<Business>,
    resources: seq<Resource>,
    monitors: seq<Monitor>,
    nextBusinessId: int,
    nextResourceId: int,
    nextMonitorId: int)

  const EmptyTables := Tables([], [], [], 1, 1, 1)

  predicate BusinessTableOk(bs: seq<Business>, next: int) {
    && 1 <= next
    && BusinessIdsIncreasing(bs)
    && UniqueBusinessNames(bs)
    && (forall b :: b in bs ==> 1 <= b.id < next && BusinessFits(b))
  }

  /** Besides its own constraints, every resource refers to a business. */
  predicate ResourceTableOk(rs: seq<Resource>, next: int, bs: seq<Business>) {
    && 1 <= next
    && ResourceIdsIncreasing(rs)
    && UniqueResourceNames(rs)
    && (forall r :: r in rs ==> 1 <= r.id < next && ResourceFits(r) && HasBusiness(bs, r.businessId))
  }

  /** Every monitor row refers to a resource, carries a positive version,
      and at most one row per resource is current. */
  predicate MonitorTableOk(ms: seq<Monitor>, next: int, rs: seq<Resource>) {
    && 1 <= next
    && MonitorIdsIncreasing(ms)
    && AtMostOneCurrent(ms)
    && (forall m :: m in ms ==> 1 <= m.id < next && 1 <= m.version && MonitorFits(m) && HasResource(rs, m.resourceId))
  }

  predicate WellFormed(t: Tables) {
    && BusinessTableOk(t.businesses, t.nextBusinessId)
    && ResourceTableOk(t.resources, t.nextResourceId, t.businesses)
    && MonitorTableOk(t.monitors, t.nextMonitorId, t.resources)
  }

  lemma EmptyTablesWellFormed()
    ensures WellFormed(EmptyTables)
  {
  }

  /** In a well-formed store no two businesses share a name, and a foreign
      key names exactly one row: a resource one business, a monitor row one
      resource. */
  lemma ReferencesAreUnique(t: Tables)
    requires WellFormed(t)
    ensures forall r, i, j ::
      (r in t.resources && 0 <= i < |t.businesses| && 0 <= j < |t.businesses|
       && t.businesses[i].id == r.businessId && t.businesses[j].id == r.businessId) ==> i == j
    ensures forall m, i, j ::
      (m in t.monitors && 0 <= i < |t.resources| && 0 <= j < |t.resources|
       && t.resources[i].id == m.resourceId && t.resources[j].id == m.resourceId) ==> i == j
    ensures forall r :: r in t.resources ==> HasBusiness(t.businesses, r.businessId)
    ensures forall m :: m in t.monitors ==> HasResource(t.resources, m.resourceId)
  {
  }

  /** Deleting rows keeps every row's own constraints; the pairwise ones
      carry over to any set of the old rows that is still ordered by id. */
  lemma UniqueResourceNamesSubset(rs: seq<Resource>, kept: seq<Resource>)
    requires UniqueResourceNames(rs)
    requires ResourceIdsIncreasing(kept)
    requires forall r :: r in kept ==> r in rs
    ensures UniqueResourceNames(kept)
  {
    forall i, j | 0 <= i < |kept| && 0 <= j < |kept| && kept[i].name == kept[j].name
      ensures i == j
    {
      assert kept[i] in kept && kept[j] in kept;
      var i' :| 0 <= i' < |rs| && rs[i'] == kept[i];
      var j' :| 0 <= j' < |rs| && rs[j'] == kept[j];
      assert i' == j';
    }
  }

  lemma AtMostOneCurrentSubset(ms: seq<Monitor>, kept: seq<Monitor>)
    requires AtMostOneCurrent(ms)
    requires MonitorIdsIncreasing(kept)
    requires forall m :: m in kept ==> m in ms
    ensures AtMostOneCurrent(kept)
  {
    forall i, j | 0 <= i < |kept| && 0 <= j < |kept| && kept[i].isNew && kept[j].isNew
      && kept[i].resourceId == kept[j].resourceId
      ensures i == j
    {
      assert kept[i] in kept && kept[j] in kept;
      var i' :| 0 <= i' < |ms| && ms[i'] == kept[i];
      var j' :| 0 <= j' < |ms| && ms[j'] == kept[j];
      assert i' == j';
    }
  }
}
