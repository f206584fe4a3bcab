/** The device catalog: entities, capabilities and the version digest. */
module Catalog {
  import opened Base

  datatype Action = TurnOn | TurnOff | SetBrightness

  datatype Entity = Entity(
    home: string, id: string, domain: string, deviceId: Option<string>, areaId: Option<string>,
    area: Option<string>, floor: Option<string>, friendly: Option<string>, original: Option<string>,
    aliases: seq<string>, device: Option<string>, deviceAliases: seq<string>,
    state: string, capabilities: set<Action>, available: bool, disabled: bool)

  /** The fields of an entity that the version covers: all but its home, state
      and availability. */
  datatype Identity = Identity(
    id: string, domain: string, deviceId: Option<string>, areaId: Option<string>,
    area: Option<string>, floor: Option<string>, friendly: Option<string>, original: Option<string>,
    aliases: seq<string>, device: Option<string>, deviceAliases: seq<string>,
    capabilities: set<Action>, disabled: bool)

  /** The digest, as the constructor of its payload. */
  datatype Version = Version(home: string, entities: seq<Identity>)

  datatype Snapshot = Snapshot(home: string, version: Version, entities: seq<Entity>)

  function IdentityOf(e: Entity): Identity {
    Identity(e.id, e.domain, e.deviceId, e.areaId, e.area, e.floor, e.friendly, e.original, e.aliases,
             e.device, e.deviceAliases, e.capabilities, e.disabled)
  }

  function VersionOf(home: string, entities: seq<Entity>): Version {
    Version(home, seq(|entities|, i requires 0 <= i < |entities| => IdentityOf(entities[i])))
  }

  predicate DistinctIds(entities: seq<Entity>) {
    forall i, j | 0 <= i < j < |entities| :: entities[i].id != entities[j].id
  }

  /** What the snapshot's own validation and its construction guarantee. */
  predicate Valid(s: Snapshot) {
    && (forall e | e in s.entities :: e.home == s.home)
    && DistinctIds(s.entities)
    && s.version == VersionOf(s.home, s.entities)
  }

  predicate Has(s: Snapshot, id: string) {
    exists e :: e in s.entities && e.id == id
  }

  /** Two readings of one device: the same in every field but state and availability. */
  predicate SameDevice(e: Entity, f: Entity) {
    f == e.(state := f.state, available := f.available)
  }

  /** Snapshots with one version describe the same devices, up to state and
      availability. */
  lemma SameVersionSameDevices(a: Snapshot, b: Snapshot, e: Entity)
    requires Valid(a) && Valid(b) && a.version == b.version && e in a.entities
    ensures a.home == b.home
    ensures exists f :: f in b.entities && IdentityOf(f) == IdentityOf(e) && f.home == e.home
    ensures forall f | f in b.entities && f.id == e.id :: IdentityOf(f) == IdentityOf(e) && SameDevice(e, f)
  {
    var i :| 0 <= i < |a.entities| && a.entities[i] == e;
    assert a.version.entities[i] == IdentityOf(e) && b.version.entities[i] == IdentityOf(b.entities[i]);
    assert b.entities[i] in b.entities;
    forall f | f in b.entities && f.id == e.id ensures IdentityOf(f) == IdentityOf(e) && SameDevice(e, f) {
      var j :| 0 <= j < |b.entities| && b.entities[j] == f;
      assert j == i;
      assert f.home == b.home && e.home == a.home;
    }
  }
}
