/** The provider-binding table and its versioned upsert. */
module Bindings {
  import opened Base

  /** A row without its primary key and time stamps.  Rows written by older
      releases may have no provider. */
  datatype Binding = Binding(
    device: string, provider: Option<string>, providerType: string,
    externalRef: string, revision: int, routeData: Json)

  /** The part of a row that says where a command is sent. */
  datatype Route = Route(
    device: string, provider: Option<string>, providerType: string,
    externalRef: string, routeData: Json)

  /** Rows by primary key. */
  type Table = map<string, Binding>

  function RouteOf(b: Binding): Route {
    Route(b.device, b.provider, b.providerType, b.externalRef, b.routeData)
  }

  /** `binding.provider_id or binding.provider_type` */
  function ProviderOf(b: Binding): string {
    if b.provider.Some? && b.provider.value != "" then b.provider.value else b.providerType
  }

  predicate OwnedBy(row: Binding, device: string, provider: string) {
    row.device == device && row.provider == Some(provider)
  }

  predicate Reaches(row: Binding, providerType: string, externalRef: string) {
    row.providerType == providerType && row.externalRef == externalRef
  }

  /** The two unique keys.  The device/provider key ignores rows without a provider. */
  ghost predicate Unique(t: Table) {
    && (forall a, b | a in t && b in t && Reaches(t[a], t[b].providerType, t[b].externalRef) :: a == b)
    && (forall a, b | a in t && b in t && t[b].provider.Some?
                      && OwnedBy(t[a], t[b].device, t[b].provider.value) :: a == b)
  }

  ghost function FindOwned(t: Table, device: string, provider: string): (r: Option<string>)
    ensures r.Some? ==> r.value in t && OwnedBy(t[r.value], device, provider)
    ensures r.None? ==> forall k | k in t :: !OwnedBy(t[k], device, provider)
  {
    if k :| k in t && OwnedBy(t[k], device, provider) then Some(k) else None
  }

  ghost function FindReaching(t: Table, providerType: string, externalRef: string): (r: Option<string>)
    ensures r.Some? ==> r.value in t && Reaches(t[r.value], providerType, externalRef)
    ensures r.None? ==> forall k | k in t :: !Reaches(t[k], providerType, externalRef)
  {
    if k :| k in t && Reaches(t[k], providerType, externalRef) then Some(k) else None
  }

  /** The row an upsert finds: by device and provider first, by external reference second. */
  ghost function Found(t: Table, b: Binding): Option<string> {
    var owned := FindOwned(t, b.device, ProviderOf(b));
    if owned.Some? then owned else FindReaching(t, b.providerType, b.externalRef)
  }

  function Stored(b: Binding): Binding {
    b.(provider := Some(ProviderOf(b)))
  }

  function Merged(row: Binding, b: Binding): Binding {
    var bumped := if RouteOf(row) != RouteOf(Stored(b)) then row.revision + 1 else row.revision;
    Stored(b).(revision := if b.revision >= bumped then b.revision else bumped)
  }

  /** The table the session would commit, before the unique keys are checked. */
  ghost function Proposed(t: Table, id: string, b: Binding): Table {
    match Found(t, b)
    case Some(k) => t[k := Merged(t[k], b)]
    case None => t[id := Stored(b)]
  }

  /** A commit is refused, leaving the table as it was, when it would break a
      key or refer to a device that is not on record. */
  ghost predicate Refused(t: Table, id: string, b: Binding, devices: set<string>) {
    b.device !in devices || (Found(t, b).None? && id in t) || !Unique(Proposed(t, id, b))
  }

  ghost function Upserted(t: Table, id: string, b: Binding, devices: set<string>): Table {
    if Refused(t, id, b, devices) then t else Proposed(t, id, b)
  }

  /** Some upsert, or none that commits, leads from one table to the next. */
  ghost predicate Synced(t: Table, t': Table) {
    exists id, b, devices :: t' == Upserted(t, id, b, devices)
  }

  /** Successive contents of the table. */
  ghost predicate History(ts: seq<Table>) {
    && |ts| > 0
    && Unique(ts[0])
    && forall i, j | 0 <= i && j == i + 1 < |ts| :: Synced(ts[i], ts[j])
  }

  /** Revisions never fall, and rise whenever the route changes. */
  ghost predicate Versioned(t: Table, t': Table) {
    forall k | k in t ::
      && k in t'
      && t[k].revision <= t'[k].revision
      && (RouteOf(t[k]) != RouteOf(t'[k]) ==> t[k].revision < t'[k].revision)
  }

  /** An upsert is refused in exactly three cases: a device that is not on record,
      a new row under a taken primary key, or a row found by its owner that would
      take over an external reference another row holds.  A row found by its external reference never
      collides, because no row had the wanted owner. */
  lemma RefusedExactlyWhen(t: Table, id: string, b: Binding, devices: set<string>)
    requires Unique(t)
    ensures Refused(t, id, b, devices) <==>
            var owned := FindOwned(t, b.device, ProviderOf(b));
            || b.device !in devices
            || (Found(t, b).None? && id in t)
            || (owned.Some? && exists k | k in t :: k != owned.value && Reaches(t[k], b.providerType, b.externalRef))
  {
    var owned := FindOwned(t, b.device, ProviderOf(b));
    var t' := Proposed(t, id, b);
    if owned.Some? {
      if k :| k in t && k != owned.value && Reaches(t[k], b.providerType, b.externalRef) {
        assert Reaches(t'[k], t'[owned.value].providerType, t'[owned.value].externalRef);
      }
    }
  }

  lemma MergedVersions(row: Binding, b: Binding)
    ensures row.revision <= Merged(row, b).revision
    ensures RouteOf(row) != RouteOf(Merged(row, b)) ==> row.revision < Merged(row, b).revision
  {
  }

  lemma ProposedVersions(t: Table, id: string, b: Binding)
    requires Found(t, b).None? ==> id !in t
    ensures Versioned(t, Proposed(t, id, b))
  {
    var found := Found(t, b);
    if found.Some? {
      MergedVersions(t[found.value], b);
    }
  }

  /** The keys survive an upsert, and it keeps every row's version. */
  lemma UpsertVersions(t: Table, id: string, b: Binding, devices: set<string>)
    requires Unique(t)
    ensures Unique(Upserted(t, id, b, devices)) && Versioned(t, Upserted(t, id, b, devices))
  {
    if !Refused(t, id, b, devices) {
      ProposedVersions(t, id, b);
    }
  }

  lemma SyncedVersions(t: Table, t': Table)
    requires Unique(t) && Synced(t, t')
    ensures Unique(t') && Versioned(t, t')
  {
    var id, b, devices :| t' == Upserted(t, id, b, devices);
    UpsertVersions(t, id, b, devices);
  }

  lemma HistoryGrows(ts: seq<Table>, t: Table)
    requires History(ts) && Synced(ts[|ts| - 1], t)
    ensures History(ts + [t])
  {
  }

  lemma {:induction false} HistoryVersions(ts: seq<Table>, i: nat, j: nat)
    requires History(ts) && i <= j < |ts|
    ensures Unique(ts[j])
    ensures Versioned(ts[i], ts[j])
    decreases j
  {
    if j == 0 {
    } else {
      HistoryVersions(ts, if i < j then i else j - 1, j - 1);
      assert Synced(ts[j - 1], ts[j]);
      SyncedVersions(ts[j - 1], ts[j]);
    }
  }

  /** No ABA: a row seen with the same revision at two moments had the same
      route at every moment between them, and was never absent. */
  lemma {:induction false} SameRevisionSameRoute(ts: seq<Table>, id: string, i: nat, m: nat, j: nat)
    requires History(ts) && i <= m <= j < |ts|
    requires id in ts[i] && id in ts[j] && ts[i][id].revision == ts[j][id].revision
    ensures id in ts[m] && RouteOf(ts[m][id]) == RouteOf(ts[i][id]) && ts[m][id].revision == ts[i][id].revision
  {
    HistoryVersions(ts, i, m);
    HistoryVersions(ts, m, j);
  }

  /** The provider a lookup is for. */
  function Meant(device: string, provider: Option<string>, providers: map<string, string>): Option<string> {
    if provider.Some? then provider else if device in providers then Some(providers[device]) else None
  }

  /** The provider a binding is for: the one it names, or else its type's. */
  predicate IsFor(b: Binding, provider: string) {
    if b.provider.Some? && b.provider.value != "" then provider == b.provider.value else provider == b.providerType
  }

  /** The row an upsert goes to: the one of its device and provider, or else the
      one with its reference, or else a new one. */
  ghost predicate GoesTo(t: Table, id: string, b: Binding, provider: string, k: string) {
    if exists o :: o in t && t[o].device == b.device && t[o].provider == Some(provider) then
      k in t && t[k].device == b.device && t[k].provider == Some(provider)
    else if exists o :: o in t && t[o].providerType == b.providerType && t[o].externalRef == b.externalRef then
      k in t && t[k].providerType == b.providerType && t[k].externalRef == b.externalRef
    else k == id && k !in t
  }

  /** What the row says afterwards: what was given, with the revision given or
      the row's own, whichever is greater, the row's own raised when the row
      changes. */
  predicate SaysNow(t: Table, b: Binding, provider: string, k: string, row: Binding) {
    && row == b.(provider := Some(provider), revision := row.revision)
    && if k in t then
         var own := if row == t[k].(revision := row.revision) then t[k].revision else t[k].revision + 1;
         row.revision == if b.revision > own then b.revision else own
       else row.revision == b.revision
  }

  /** The upsert wrote one row, the right one, as it should. */
  ghost predicate WroteOne(t: Table, t': Table, id: string, b: Binding, row: Binding) {
    exists k, provider ::
      IsFor(b, provider) && GoesTo(t, id, b, provider, k) && SaysNow(t, b, provider, k, row) && t' == t[k := row]
  }

  lemma UpsertWrites(t: Table, id: string, b: Binding, k: string)
    requires k == if Found(t, b).Some? then Found(t, b).value else id
    requires Found(t, b).None? ==> id !in t
    ensures WroteOne(t, Proposed(t, id, b), id, b, Proposed(t, id, b)[k])
  {
    var provider, row := ProviderOf(b), Proposed(t, id, b)[k];
    assert forall o | o in t ::
      OwnedBy(t[o], b.device, provider) <==> t[o].device == b.device && t[o].provider == Some(provider);
    assert IsFor(b, provider) && GoesTo(t, id, b, provider, k) && SaysNow(t, b, provider, k, row);
  }

  /** The repository over the table. */
  class BindingTable {
    var rows: Table

    constructor ()
      ensures rows == map[]
    {
      rows := map[];
    }

    /** `providers` are the devices on record with their provider; without an
        explicit provider the device's own is meant. */
    method GetPrimary(device: string, provider: Option<string>, providers: map<string, string>)
      returns (r: Option<Binding>)
      requires Unique(rows)
      ensures var meant := Meant(device, provider, providers);
        && (r.Some? <==> meant.Some? && exists k | k in rows :: OwnedBy(rows[k], device, meant.value))
        && (meant.Some? ==> forall k | k in rows && OwnedBy(rows[k], device, meant.value) :: r == Some(rows[k]))
    {
      if provider.None? {
        if device !in providers {
          return None;
        }
        r := GetOwned(device, providers[device]);
      } else {
        r := GetOwned(device, provider.value);
      }
    }

    method GetOwned(device: string, provider: string) returns (r: Option<Binding>)
      requires Unique(rows)
      ensures r.Some? <==> exists k | k in rows :: OwnedBy(rows[k], device, provider)
      ensures forall k | k in rows && OwnedBy(rows[k], device, provider) :: r == Some(rows[k])
    {
      if k :| k in rows && OwnedBy(rows[k], device, provider) {
        assert OwnedBy(rows[k], rows[k].device, rows[k].provider.value);
        return Some(rows[k]);
      }
      return None;
    }

    /** `id` is the key a new row would get, `devices` are those on record.
        `None` is the integrity error. */
    method UpsertBinding(id: string, b: Binding, devices: set<string>) returns (r: Option<Binding>)
      requires Unique(rows)
      modifies this
      ensures Unique(rows) && rows == Upserted(old(rows), id, b, devices)
      ensures r.None? <==> Refused(old(rows), id, b, devices)
      ensures r.None? ==> rows == old(rows)
      ensures r.Some? ==> WroteOne(old(rows), rows, id, b, r.value)
      ensures r.Some? ==> exists k | k in rows :: r == Some(rows[k]) && OwnedBy(rows[k], b.device, ProviderOf(b))
                                          && Reaches(rows[k], b.providerType, b.externalRef)
    {
      RefusedExactlyWhen(rows, id, b, devices);
      if b.device !in devices {
        return None;
      }
      var provider := ProviderOf(b);
      if k :| k in rows && OwnedBy(rows[k], b.device, provider) {
        assert FindOwned(rows, b.device, provider) == Some(k);
        if other :| other in rows && other != k && Reaches(rows[other], b.providerType, b.externalRef) {
          return None;
        }
        UpsertWrites(rows, id, b, k);
        rows := rows[k := Merged(rows[k], b)];
        return Some(rows[k]);
      }
      if k :| k in rows && Reaches(rows[k], b.providerType, b.externalRef) {
        assert FindReaching(rows, b.providerType, b.externalRef) == Some(k);
        UpsertWrites(rows, id, b, k);
        rows := rows[k := Merged(rows[k], b)];
        return Some(rows[k]);
      }
      if id in rows {
        return None;
      }
      UpsertWrites(rows, id, b, id);
      rows := rows[id := Stored(b)];
      return Some(rows[id]);
    }
  }
}
