/** Merging Home Assistant's states and registries into one catalog. */
module CatalogMerge {
  import opened Base
  import opened Order
  import opened Catalog

  type Record = map<string, Json>

  /** Python's `str` of a value that is not a string, `strip` and `casefold`. */
  datatype Text = Text(str: Json -> string, strip: string -> string, fold: string -> string)

  datatype Registries = Registries(states: seq<Record>, entities: seq<Record>, devices: seq<Record>, areas: seq<Record>)

  function Get(r: Record, key: string): Json {
    if key in r then r[key] else JNull
  }

  predicate Truthy(v: Json) {
    match v
    case JNull => false
    case JBool(b) => b
    case JInt(n) => n != 0
    case JReal(x) => x != 0.0
    case JString(s) => s != ""
    case JList(items) => items != []
    case JObject(f) => f != map[]
  }

  function Or(a: Json, b: Json): Json {
    if Truthy(a) then a else b
  }

  function Str(t: Text, v: Json): string {
    if v.JString? then v.s else t.str(v)
  }

  function OptionalString(t: Text, v: Json): Option<string> {
    if v.JString? && t.strip(v.s) != "" then Some(v.s) else None
  }

  function Strings(t: Text, items: seq<Json>): seq<string> {
    if items == [] then []
    else (if OptionalString(t, items[0]).Some? then [items[0].s] else []) + Strings(t, items[1..])
  }

  function StringTuple(t: Text, v: Json): seq<string> {
    if v.JList? then SortedIds(Strings(t, v.items)) else []
  }

  // ------------------------------------------------ dictionaries by id

  function StringAt(r: Record, key: string): Option<string> {
    if Get(r, key).JString? then Some(Get(r, key).s) else None
  }

  function EntityKey(r: Record): Option<string> {
    var id := StringAt(r, "entity_id");
    if id.Some? && '.' in id.value then id else None
  }

  function DeviceKey(r: Record): Option<string> {
    StringAt(r, "id")
  }

  function AreaKey(t: Text): Record -> Option<string> {
    (r: Record) =>
      var id := Or(Get(r, "area_id"), Get(r, "id"));
      if Truthy(id) then Some(Str(t, id)) else None
  }

  /** The last record under the id, or an empty one. */
  function Find(records: seq<Record>, id: string, keyOf: Record -> Option<string>): Record {
    if records == [] then map[]
    else
      var n := |records| - 1;
      if keyOf(records[n]) == Some(id) then records[n] else Find(records[..n], id, keyOf)
  }

  function EntityKeys(records: seq<Record>): seq<string> {
    if records == [] then []
    else
      var n := |records| - 1;
      EntityKeys(records[..n]) + (if EntityKey(records[n]).Some? then [EntityKey(records[n]).value] else [])
  }

  // ------------------------------------------------------- one entity

  /** What precedes the first dot. */
  function Domain(id: string): string {
    if id == "" || id[0] == '.' then "" else [id[0]] + Domain(id[1..])
  }

  function Capabilities(domain: string, attributes: Record): set<Action> {
    var modes := Get(attributes, "supported_color_modes");
    var dims := (modes.JList? && exists i :: 0 <= i < |modes.items| && modes.items[i] != JString("onoff"))
                || "brightness" in attributes;
    (if domain in {"fan", "humidifier", "input_boolean", "light", "media_player", "remote", "switch"}
     then {TurnOn, TurnOff} else {})
    + (if domain == "light" && dims then {SetBrightness} else {})
  }

  function Attributes(state: Record): Record {
    if Get(state, "attributes").JObject? then state["attributes"].fields else map[]
  }

  /** The entity made of its state and registry records. */
  function Merged(t: Text, home: string, id: string, state: Record, entry: Record, rs: Registries): Entity {
    var attributes := Attributes(state);
    var deviceId := OptionalString(t, Get(entry, "device_id"));
    var device := Find(rs.devices, if deviceId.Some? then deviceId.value else "", DeviceKey);
    var areaId := OptionalString(t, Or(Get(entry, "area_id"), Get(device, "area_id")));
    var area := Find(rs.areas, if areaId.Some? then areaId.value else "", AreaKey(t));
    var value := Str(t, Or(Get(state, "state"), JString("unavailable")));
    Entity(home, id, Domain(id), deviceId, areaId,
           OptionalString(t, Get(area, "name")), OptionalString(t, Get(area, "floor_name")),
           OptionalString(t, Or(Get(attributes, "friendly_name"), Get(entry, "name"))),
           OptionalString(t, Get(entry, "original_name")), StringTuple(t, Get(entry, "aliases")),
           OptionalString(t, Or(Get(device, "name_by_user"), Get(device, "name"))),
           StringTuple(t, Get(device, "aliases")),
           value, Capabilities(Domain(id), attributes),
           state != map[] && t.fold(value) !in {"unavailable", "unknown"},
           Get(entry, "disabled_by") != JNull)
  }

  function EntityFor(t: Text, home: string, rs: Registries, id: string): Entity {
    Merged(t, home, id, Find(rs.states, id, EntityKey), Find(rs.entities, id, EntityKey), rs)
  }

  function Ids(rs: Registries): seq<string> {
    SortedIds(EntityKeys(rs.states) + EntityKeys(rs.entities))
  }

  /** What an entity's own validation demands of its home and id. */
  predicate Acceptable(home: string, id: string) {
    home != "" && |id| >= 3 && Domain(id) != ""
  }

  /** `None` is the validation error of the first entity that has one. */
  method Merge(t: Text, home: string, rs: Registries) returns (r: Option<seq<Entity>>)
    ensures r.Some? <==> forall id | id in Ids(rs) :: Acceptable(home, id)
    ensures r.Some? ==> IsMerge(t, home, rs, r.value)
  {
    var ids := Ids(rs);
    var merged: seq<Entity> := [];
    for i := 0 to |ids|
      invariant |merged| == i && forall j | 0 <= j < i :: merged[j] == EntityFor(t, home, rs, ids[j])
      invariant forall j | 0 <= j < i :: Acceptable(home, ids[j])
    {
      if !Acceptable(home, ids[i]) {
        return None;
      }
      merged := merged + [EntityFor(t, home, rs, ids[i])];
    }
    return Some(merged);
  }

  // ------------------------------------------------- what it guarantees

  ghost predicate IsMerge(t: Text, home: string, rs: Registries, merged: seq<Entity>) {
    && |merged| == |Ids(rs)|
    && (forall id | id in Ids(rs) :: Acceptable(home, id))
    && forall i | 0 <= i < |merged| :: merged[i] == EntityFor(t, home, rs, Ids(rs)[i])
  }

  function SnapshotOf(home: string, merged: seq<Entity>): Snapshot {
    Snapshot(home, VersionOf(home, merged), merged)
  }

  /** There is a catalog exactly when every record that has an entity id has an
      acceptable one. */
  lemma MergesExactlyWhen(home: string, rs: Registries)
    ensures (forall id | id in Ids(rs) :: Acceptable(home, id))
      <==> forall r | (r in rs.states || r in rs.entities) && EntityKey(r).Some? :: Acceptable(home, EntityKey(r).value)
  {
    var keys := EntityKeys(rs.states) + EntityKeys(rs.entities);
    SortedIdsSorts(keys);
    EntityKeysAre(rs.states);
    EntityKeysAre(rs.entities);
    forall id ensures id in Ids(rs) <==> id in keys {
      assert id in Elements(Ids(rs)) <==> id in Elements(keys);
    }
    forall r | (r in rs.states || r in rs.entities) && EntityKey(r).Some? ensures EntityKey(r).value in Ids(rs) {
      assert EntityKey(r) == Some(EntityKey(r).value);
    }
  }

  lemma {:induction false} DomainBeforeDot(id: string)
    requires '.' in id
    ensures Domain(id) + "." <= id && '.' !in Domain(id)
  {
    if id[0] == '.' {
    } else {
      assert id == [id[0]] + id[1..];
      DomainBeforeDot(id[1..]);
    }
  }

  /** Each entity passes its own validation. */
  lemma EntitiesAreSound(t: Text, home: string, rs: Registries, merged: seq<Entity>, e: Entity)
    requires IsMerge(t, home, rs, merged) && e in merged
    ensures e.home == home != "" && |e.id| >= 3 && e.domain != "" && e.domain + "." <= e.id
  {
    var keys := EntityKeys(rs.states) + EntityKeys(rs.entities);
    SortedIdsSorts(keys);
    EntityKeysAre(rs.states);
    EntityKeysAre(rs.entities);
    var i :| 0 <= i < |merged| && merged[i] == e;
    assert Ids(rs)[i] in Elements(Ids(rs));
    assert e.id in Elements(keys);
    DomainBeforeDot(e.id);
  }

  /** A merged catalog is a valid snapshot: one entity for each id that a state
      or the registry names, in order. */
  lemma MergeIsValid(t: Text, home: string, rs: Registries, merged: seq<Entity>)
    requires IsMerge(t, home, rs, merged)
    ensures Valid(SnapshotOf(home, merged))
    ensures forall id ::
      Has(SnapshotOf(home, merged), id) <==> id in EntityKeys(rs.states) || id in EntityKeys(rs.entities)
  {
    var keys := EntityKeys(rs.states) + EntityKeys(rs.entities);
    SortedIdsSorts(keys);
    StringOrder();
    forall id ensures Has(SnapshotOf(home, merged), id) <==> id in keys {
      assert id in Elements(Ids(rs)) <==> id in Elements(keys);
      if id in Ids(rs) {
        var i :| 0 <= i < |Ids(rs)| && Ids(rs)[i] == id;
        assert merged[i] in merged;
      }
    }
  }

  /** Two readings agree on what an entity is, whatever its state. */
  predicate SameButState(a: Record, b: Record) {
    Attributes(a) == Attributes(b)
  }

  lemma SameIdentity(t: Text, home: string, a: Registries, b: Registries, id: string)
    requires a.entities == b.entities && a.devices == b.devices && a.areas == b.areas
    requires SameButState(Find(a.states, id, EntityKey), Find(b.states, id, EntityKey))
    ensures IdentityOf(EntityFor(t, home, a, id)) == IdentityOf(EntityFor(t, home, b, id))
  {
  }

  /** States coming and going, with their attributes kept, leave the version
      unchanged: it is never taken for a changed catalog. */
  lemma StatesLeaveVersion(t: Text, home: string, a: Registries, b: Registries, m: seq<Entity>, n: seq<Entity>)
    requires a.entities == b.entities && a.devices == b.devices && a.areas == b.areas
    requires Elements(EntityKeys(a.states)) == Elements(EntityKeys(b.states))
    requires forall id :: SameButState(Find(a.states, id, EntityKey), Find(b.states, id, EntityKey))
    requires IsMerge(t, home, a, m) && IsMerge(t, home, b, n)
    ensures VersionOf(home, m) == VersionOf(home, n)
  {
    StringOrder();
    var x, y := EntityKeys(a.states) + EntityKeys(a.entities), EntityKeys(b.states) + EntityKeys(b.entities);
    assert Elements(x) == Elements(EntityKeys(a.states)) + Elements(EntityKeys(a.entities));
    assert Elements(y) == Elements(EntityKeys(b.states)) + Elements(EntityKeys(b.entities));
    SortDistinctOfSet(x, y, StringLt);
    forall i | 0 <= i < |m| ensures IdentityOf(m[i]) == IdentityOf(n[i]) {
      SameIdentity(t, home, a, b, Ids(a)[i]);
    }
  }

  // -------------------------------------------------- the order of records

  /** No two records stand under one id. */
  ghost predicate Unambiguous(records: seq<Record>, keyOf: Record -> Option<string>) {
    forall i, j | 0 <= i < j < |records| && keyOf(records[i]).Some? :: keyOf(records[i]) != keyOf(records[j])
  }

  lemma {:induction false} FindIs(records: seq<Record>, id: string, keyOf: Record -> Option<string>)
    ensures (exists r :: r in records && keyOf(r) == Some(id)) ==>
      Find(records, id, keyOf) in records && keyOf(Find(records, id, keyOf)) == Some(id)
    ensures !(exists r :: r in records && keyOf(r) == Some(id)) ==> Find(records, id, keyOf) == map[]
  {
    if records == [] {
    } else {
      var n := |records| - 1;
      FindIs(records[..n], id, keyOf);
      assert records == records[..n] + [records[n]];
    }
  }

  lemma SameFind(a: seq<Record>, b: seq<Record>, id: string, keyOf: Record -> Option<string>)
    requires Elements(a) == Elements(b) && Unambiguous(b, keyOf)
    ensures Find(a, id, keyOf) == Find(b, id, keyOf)
  {
    FindIs(a, id, keyOf);
    FindIs(b, id, keyOf);
    assert forall r :: r in a <==> r in Elements(a);
    assert forall r :: r in b <==> r in Elements(b);
  }

  lemma {:induction false} EntityKeysAre(records: seq<Record>)
    ensures forall id :: id in EntityKeys(records) <==> exists r :: r in records && EntityKey(r) == Some(id)
  {
    if records == [] {
    } else {
      var n := |records| - 1;
      EntityKeysAre(records[..n]);
      assert records == records[..n] + [records[n]];
    }
  }

  lemma SameKeys(a: seq<Record>, b: seq<Record>)
    requires Elements(a) == Elements(b)
    ensures Elements(EntityKeys(a)) == Elements(EntityKeys(b))
  {
    EntityKeysAre(a);
    EntityKeysAre(b);
    assert forall r :: r in a <==> r in Elements(a);
    assert forall r :: r in b <==> r in Elements(b);
  }

  /** Home Assistant may list its records in any order. */
  lemma MergeIsOfSets(t: Text, home: string, a: Registries, b: Registries, m: seq<Entity>, n: seq<Entity>)
    requires Elements(a.states) == Elements(b.states) && Elements(a.entities) == Elements(b.entities)
    requires Elements(a.devices) == Elements(b.devices) && Elements(a.areas) == Elements(b.areas)
    requires Unambiguous(b.states, EntityKey) && Unambiguous(b.entities, EntityKey)
    requires Unambiguous(b.devices, DeviceKey) && Unambiguous(b.areas, AreaKey(t))
    requires IsMerge(t, home, a, m) && IsMerge(t, home, b, n)
    ensures m == n
  {
    StringOrder();
    SameKeys(a.states, b.states);
    SameKeys(a.entities, b.entities);
    var x, y := EntityKeys(a.states) + EntityKeys(a.entities), EntityKeys(b.states) + EntityKeys(b.entities);
    assert Elements(x) == Elements(EntityKeys(a.states)) + Elements(EntityKeys(a.entities));
    assert Elements(y) == Elements(EntityKeys(b.states)) + Elements(EntityKeys(b.entities));
    SortDistinctOfSet(x, y, StringLt);
    forall i | 0 <= i < |m| ensures m[i] == n[i] {
      SameEntity(t, home, a, b, Ids(a)[i]);
    }
  }

  lemma SameEntity(t: Text, home: string, a: Registries, b: Registries, id: string)
    requires Elements(a.states) == Elements(b.states) && Elements(a.entities) == Elements(b.entities)
    requires Elements(a.devices) == Elements(b.devices) && Elements(a.areas) == Elements(b.areas)
    requires Unambiguous(b.states, EntityKey) && Unambiguous(b.entities, EntityKey)
    requires Unambiguous(b.devices, DeviceKey) && Unambiguous(b.areas, AreaKey(t))
    ensures EntityFor(t, home, a, id) == EntityFor(t, home, b, id)
  {
    SameFind(a.states, b.states, id, EntityKey);
    SameFind(a.entities, b.entities, id, EntityKey);
    forall key ensures Find(a.devices, key, DeviceKey) == Find(b.devices, key, DeviceKey) {
      SameFind(a.devices, b.devices, key, DeviceKey);
    }
    forall key ensures Find(a.areas, key, AreaKey(t)) == Find(b.areas, key, AreaKey(t)) {
      SameFind(a.areas, b.areas, key, AreaKey(t));
    }
  }
}
