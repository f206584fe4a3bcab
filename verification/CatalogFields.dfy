/** Where each field of a merged entity comes from, in terms of the records
    Home Assistant lists. */
module CatalogFields {
  import opened Base
  import opened Order
  import opened Catalog
  import opened CatalogMerge

  // ----------------------------------------------------- reading a record

  /** The values Python counts as false. */
  predicate Falsy(v: Json) {
    v in {JNull, JBool(false), JInt(0), JReal(0.0), JString(""), JList([]), JObject(map[])}
  }

  /** The record has something other than nothing under the key. */
  predicate Tells(r: Record, key: string) {
    key in r && !Falsy(r[key])
  }

  /** `o` is the text under the key, if there is one that is not blank. */
  ghost predicate TextAt(t: Text, r: Record, key: string, o: Option<string>) {
    forall s :: o == Some(s) <==> key in r && r[key] == JString(s) && t.strip(s) != ""
  }

  /** The same, but the second key of the second record counts when the first
      tells nothing. */
  ghost predicate TextAtEither(t: Text, r: Record, key: string, r2: Record, key2: string, o: Option<string>) {
    if Tells(r, key) then TextAt(t, r, key, o) else TextAt(t, r2, key2, o)
  }

  /** The texts in the list under the key that are not blank, once each, in order. */
  ghost predicate TextsAt(t: Text, r: Record, key: string, texts: seq<string>) {
    && StrictlySorted(texts, StringLt)
    && forall s :: s in texts <==> && key in r && r[key].JList? && JString(s) in r[key].items && t.strip(s) != ""
  }

  /** The id a record is listed under, by the names its key may have. */
  predicate ListedAs(t: Text, r: Record, key: string, id: string) {
    key in r && r[key] == JString(id)
  }

  /** An area is listed under its "area_id", or under its "id" without one. */
  predicate AreaListedAs(t: Text, r: Record, id: string) {
    var key := if Tells(r, "area_id") then "area_id" else "id";
    Tells(r, key) && id == if r[key].JString? then r[key].s else t.str(r[key])
  }

  /** `r` is the last record listed so, or empty when there is none. */
  ghost predicate IsLast(records: seq<Record>, r: Record, listed: Record -> bool) {
    if exists x :: x in records && listed(x) then exists i :: 0 <= i < |records| && IsLastAt(records, r, listed, i)
    else r == map[]
  }

  ghost predicate IsLastAt(records: seq<Record>, r: Record, listed: Record -> bool, i: nat)
    requires i < |records|
  {
    records[i] == r && listed(r) && forall j | i < j < |records| :: !listed(records[j])
  }

  // ------------------------------------------------------- an entity's fields

  /** The four records an entity is made of: its state, its entry in the entity
      registry, the device that entry names, and the area of the entry or, if it
      has none, of the device. */
  ghost predicate MadeOf(t: Text, rs: Registries, e: Entity, state: Record, entry: Record, device: Record,
      area: Record)
  {
    && IsLast(rs.states, state, r => ListedAs(t, r, "entity_id", e.id))
    && IsLast(rs.entities, entry, r => ListedAs(t, r, "entity_id", e.id))
    && IsLast(rs.devices, device, r => ListedAs(t, r, "id", if e.deviceId.Some? then e.deviceId.value else ""))
    && IsLast(rs.areas, area, r => AreaListedAs(t, r, if e.areaId.Some? then e.areaId.value else ""))
  }

  /** The fields that describe where the entity is and what it is called. */
  ghost predicate Describes(t: Text, e: Entity, attributes: Record, entry: Record, device: Record, area: Record) {
    && TextAt(t, entry, "device_id", e.deviceId)
    && TextAtEither(t, entry, "area_id", device, "area_id", e.areaId)
    && TextAt(t, area, "name", e.area) && TextAt(t, area, "floor_name", e.floor)
    && TextAtEither(t, attributes, "friendly_name", entry, "name", e.friendly)
    && TextAt(t, entry, "original_name", e.original) && TextsAt(t, entry, "aliases", e.aliases)
    && TextAtEither(t, device, "name_by_user", device, "name", e.device)
    && TextsAt(t, device, "aliases", e.deviceAliases)
  }

  /** Brightness is known, or some colour mode other than on and off is. */
  predicate CanDim(attributes: Record) {
    || "brightness" in attributes
    || ("supported_color_modes" in attributes && attributes["supported_color_modes"].JList?
        && exists m :: m in attributes["supported_color_modes"].items && m != JString("onoff"))
  }

  /** What the entity can do and whether it can do it now. */
  ghost predicate Serves(t: Text, e: Entity, attributes: Record, state: Record, entry: Record) {
    && (TurnOn in e.capabilities <==>
          e.domain in {"fan", "humidifier", "input_boolean", "light", "media_player", "remote", "switch"})
    && (TurnOff in e.capabilities <==> TurnOn in e.capabilities)
    && (SetBrightness in e.capabilities <==> e.domain == "light" && CanDim(attributes))
    && (e.available <==> state != map[] && t.fold(e.state) != "unavailable" && t.fold(e.state) != "unknown")
    && e.state == (if !Tells(state, "state") then "unavailable"
                   else if state["state"].JString? then state["state"].s else t.str(state["state"]))
    && (e.disabled <==> "disabled_by" in entry && entry["disabled_by"] != JNull)
  }

  /** The attributes of a state that has any. */
  predicate AttributesOf(state: Record, attributes: Record) {
    if "attributes" in state && state["attributes"].JObject? then state["attributes"] == JObject(attributes)
    else attributes == map[]
  }

  // --------------------------------------------------------------- the proof

  lemma TruthyIs(v: Json)
    ensures Truthy(v) <==> !Falsy(v)
  {
  }

  lemma TellsIs(r: Record, key: string)
    ensures Truthy(Get(r, key)) <==> Tells(r, key)
  {
    TruthyIs(Get(r, key));
  }

  lemma OptionalIs(t: Text, r: Record, key: string)
    ensures TextAt(t, r, key, OptionalString(t, Get(r, key)))
  {
  }

  lemma EitherIs(t: Text, r: Record, key: string, r2: Record, key2: string)
    ensures TextAtEither(t, r, key, r2, key2, OptionalString(t, Or(Get(r, key), Get(r2, key2))))
  {
    TellsIs(r, key);
    OptionalIs(t, r, key);
    OptionalIs(t, r2, key2);
  }

  lemma {:induction false} StringsAre(t: Text, items: seq<Json>, s: string)
    ensures s in Strings(t, items) <==> JString(s) in items && t.strip(s) != ""
  {
    if items == [] {
    } else {
      StringsAre(t, items[1..], s);
      assert items == [items[0]] + items[1..];
    }
  }

  lemma TextsAre(t: Text, r: Record, key: string)
    ensures TextsAt(t, r, key, StringTuple(t, Get(r, key)))
  {
    var v := Get(r, key);
    if v.JList? {
      SortedIdsSorts(Strings(t, v.items));
      forall s ensures s in StringTuple(t, v) <==> JString(s) in v.items && t.strip(s) != "" {
        StringsAre(t, v.items, s);
        assert s in Elements(StringTuple(t, v)) <==> s in Elements(Strings(t, v.items));
      }
    }
  }

  lemma LastStaysLast(records: seq<Record>, last: Record, r: Record, listed: Record -> bool, i: nat)
    requires i < |records| && IsLastAt(records, r, listed, i) && !listed(last)
    ensures IsLastAt(records + [last], r, listed, i)
  {
  }

  lemma {:induction false} FindIsLast(records: seq<Record>, id: string, keyOf: Record -> Option<string>,
      listed: Record -> bool)
    requires forall r :: keyOf(r) == Some(id) <==> listed(r)
    ensures IsLast(records, Find(records, id, keyOf), listed)
  {
    if records == [] {
    } else {
      var n := |records| - 1;
      var init, last := records[..n], records[n];
      assert records == init + [last];
      if listed(last) {
        assert IsLastAt(records, last, listed, n);
      } else {
        FindIsLast(init, id, keyOf, listed);
        if x :| x in init && listed(x) {
          var i :| 0 <= i < |init| && IsLastAt(init, Find(init, id, keyOf), listed, i);
          LastStaysLast(init, last, Find(init, id, keyOf), listed, i);
        }
      }
    }
  }

  lemma AreaKeyIs(t: Text, r: Record, id: string)
    ensures AreaKey(t)(r) == Some(id) <==> AreaListedAs(t, r, id)
  {
    TellsIs(r, "area_id");
    TellsIs(r, "id");
  }

  lemma EntityListed(t: Text, records: seq<Record>, id: string)
    requires '.' in id
    ensures IsLast(records, Find(records, id, EntityKey), r => ListedAs(t, r, "entity_id", id))
  {
    FindIsLast(records, id, EntityKey, r => ListedAs(t, r, "entity_id", id));
  }

  lemma DeviceListed(t: Text, records: seq<Record>, id: string)
    ensures IsLast(records, Find(records, id, DeviceKey), r => ListedAs(t, r, "id", id))
  {
    FindIsLast(records, id, DeviceKey, r => ListedAs(t, r, "id", id));
  }

  lemma AreaListed(t: Text, records: seq<Record>, id: string)
    ensures IsLast(records, Find(records, id, AreaKey(t)), r => AreaListedAs(t, r, id))
  {
    forall r ensures AreaKey(t)(r) == Some(id) <==> AreaListedAs(t, r, id) {
      AreaKeyIs(t, r, id);
    }
    FindIsLast(records, id, AreaKey(t), r => AreaListedAs(t, r, id));
  }

  lemma RecordsDescribe(t: Text, e: Entity, home: string, id: string, state: Record, entry: Record, rs: Registries,
      device: Record, area: Record)
    requires e == Merged(t, home, id, state, entry, rs)
    requires device == Find(rs.devices, if e.deviceId.Some? then e.deviceId.value else "", DeviceKey)
    requires area == Find(rs.areas, if e.areaId.Some? then e.areaId.value else "", AreaKey(t))
    ensures Describes(t, e, Attributes(state), entry, device, area)
  {
    OptionalIs(t, entry, "device_id");
    EitherIs(t, entry, "area_id", device, "area_id");
    OptionalIs(t, area, "name");
    OptionalIs(t, area, "floor_name");
    EitherIs(t, Attributes(state), "friendly_name", entry, "name");
    OptionalIs(t, entry, "original_name");
    TextsAre(t, entry, "aliases");
    EitherIs(t, device, "name_by_user", device, "name");
    TextsAre(t, device, "aliases");
  }

  lemma DimsIs(attributes: Record)
    ensures var modes := Get(attributes, "supported_color_modes");
            ((modes.JList? && exists i :: 0 <= i < |modes.items| && modes.items[i] != JString("onoff"))
             || "brightness" in attributes)
            <==> CanDim(attributes)
  {
    var modes := Get(attributes, "supported_color_modes");
    if i :| modes.JList? && 0 <= i < |modes.items| && modes.items[i] != JString("onoff") {
      assert modes.items[i] in modes.items;
    }
    if CanDim(attributes) && "brightness" !in attributes {
      var items := attributes["supported_color_modes"].items;
      var m :| m in items && m != JString("onoff");
      var i :| 0 <= i < |items| && items[i] == m;
    }
  }

  lemma RecordsServe(t: Text, home: string, id: string, state: Record, entry: Record, rs: Registries)
    ensures Serves(t, Merged(t, home, id, state, entry, rs), Attributes(state), state, entry)
  {
    TellsIs(state, "state");
    DimsIs(Attributes(state));
  }

  lemma FieldsOf(t: Text, home: string, rs: Registries, id: string)
    returns (state: Record, entry: Record, device: Record, area: Record, attributes: Record)
    requires '.' in id
    ensures MadeOf(t, rs, EntityFor(t, home, rs, id), state, entry, device, area) && AttributesOf(state, attributes)
    ensures Describes(t, EntityFor(t, home, rs, id), attributes, entry, device, area)
    ensures Serves(t, EntityFor(t, home, rs, id), attributes, state, entry)
  {
    var e := EntityFor(t, home, rs, id);
    state, entry := Find(rs.states, id, EntityKey), Find(rs.entities, id, EntityKey);
    device := Find(rs.devices, if e.deviceId.Some? then e.deviceId.value else "", DeviceKey);
    area := Find(rs.areas, if e.areaId.Some? then e.areaId.value else "", AreaKey(t));
    attributes := Attributes(state);
    RecordsAreListed(t, rs, e, state, entry, device, area);
    RecordsDescribe(t, e, home, id, state, entry, rs, device, area);
    RecordsServe(t, home, id, state, entry, rs);
  }

  lemma RecordsAreListed(t: Text, rs: Registries, e: Entity, state: Record, entry: Record, device: Record, area: Record)
    requires '.' in e.id && state == Find(rs.states, e.id, EntityKey) && entry == Find(rs.entities, e.id, EntityKey)
    requires device == Find(rs.devices, if e.deviceId.Some? then e.deviceId.value else "", DeviceKey)
    requires area == Find(rs.areas, if e.areaId.Some? then e.areaId.value else "", AreaKey(t))
    ensures MadeOf(t, rs, e, state, entry, device, area)
  {
    EntityListed(t, rs.states, e.id);
    EntityListed(t, rs.entities, e.id);
    DeviceListed(t, rs.devices, if e.deviceId.Some? then e.deviceId.value else "");
    AreaListed(t, rs.areas, if e.areaId.Some? then e.areaId.value else "");
  }

  /** Every field of every merged entity, from the records it is made of. */
  lemma FieldsComeFrom(t: Text, home: string, rs: Registries, merged: seq<Entity>, e: Entity)
    returns (state: Record, entry: Record, device: Record, area: Record, attributes: Record)
    requires IsMerge(t, home, rs, merged) && e in merged
    ensures e.home == home && e.domain + "." <= e.id && '.' !in e.domain
    ensures MadeOf(t, rs, e, state, entry, device, area) && AttributesOf(state, attributes)
    ensures Describes(t, e, attributes, entry, device, area) && Serves(t, e, attributes, state, entry)
  {
    var i :| 0 <= i < |merged| && merged[i] == e;
    NamedHasDot(rs, Ids(rs)[i]);
    DomainBeforeDot(Ids(rs)[i]);
    state, entry, device, area, attributes := FieldsOf(t, home, rs, Ids(rs)[i]);
  }

  lemma NamedHasDot(rs: Registries, id: string)
    requires id in Ids(rs)
    ensures '.' in id
  {
    var keys := EntityKeys(rs.states) + EntityKeys(rs.entities);
    SortedIdsSorts(keys);
    EntityKeysAre(rs.states);
    EntityKeysAre(rs.entities);
    assert id in Elements(Ids(rs));
    assert id in Elements(keys);
  }
}
