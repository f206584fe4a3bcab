/** Checking a chosen candidate against the catalog as it is now. */
module Verifier {
  import opened Base
  import opened Order
  import opened Catalog
  import opened Candidates
  import opened CandidateTheorems

  datatype Status = Selected | Ambiguous | NoMatch

  datatype Decision = Decision(status: Status, selected: Option<string>, confidence: real, alternatives: seq<string>)

  datatype Code =
    | NotSelected | LowConfidence | CandidateSetInvalid | CandidateUnknown | OutsideHome | EntitySetInvalid
    | CatalogUnavailable | CatalogChanged | NotFound | Disabled | Unavailable | ActionUnsupported

  /** Only a changed catalog is worth another round. */
  predicate Retryable(c: Code) {
    c == CatalogChanged
  }

  datatype Verified = Verified(home: string, candidate: string, targets: seq<string>, version: Version, action: Action)

  // ---------------------------------------------------- lookups by id

  /** The last element with the id, as a dictionary built in order keeps it. */
  function LastWith<T>(s: seq<T>, id: string, idOf: T -> string): Option<T> {
    if s == [] then None
    else if idOf(s[|s| - 1]) == id then Some(s[|s| - 1])
    else LastWith(s[..|s| - 1], id, idOf)
  }

  function CandidateIdOf(c: Candidate): string { c.id }

  function EntityIdOf(e: Entity): string { e.id }

  ghost predicate Indexes<T>(m: map<string, T>, s: seq<T>, idOf: T -> string) {
    forall id :: LastWith(s, id, idOf) == if id in m then Some(m[id]) else None
  }

  lemma IndexGrows<T>(m: map<string, T>, s: seq<T>, i: nat, idOf: T -> string)
    requires i < |s| && Indexes(m, s[..i], idOf)
    ensures Indexes(m[idOf(s[i]) := s[i]], s[..i + 1], idOf)
  {
    assert s[..i + 1][..i] == s[..i];
  }

  method Index<T>(s: seq<T>, idOf: T -> string) returns (m: map<string, T>)
    ensures Indexes(m, s, idOf)
  {
    m := map[];
    for i := 0 to |s|
      invariant Indexes(m, s[..i], idOf)
    {
      IndexGrows(m, s, i, idOf);
      m := m[idOf(s[i]) := s[i]];
    }
    assert s[..|s|] == s;
  }

  lemma {:induction false} LastWithIs<T>(s: seq<T>, id: string, idOf: T -> string)
    ensures LastWith(s, id, idOf).Some? <==> exists x :: x in s && idOf(x) == id
    ensures LastWith(s, id, idOf).Some? ==>
      LastWith(s, id, idOf).value in s && idOf(LastWith(s, id, idOf).value) == id
  {
    if s == [] {
    } else {
      var n := |s| - 1;
      assert s == s[..n] + [s[n]];
      LastWithIs(s[..n], id, idOf);
    }
  }

  // --------------------------------------------------- the verdict

  /** The first thing wrong with one target entity. */
  function EntityFault(e: Option<Entity>, home: string, action: Action): Option<Code> {
    if e.None? then Some(NotFound)
    else if e.value.home != home then Some(OutsideHome)
    else if e.value.disabled then Some(Disabled)
    else if !e.value.available then Some(Unavailable)
    else if action !in e.value.capabilities then Some(ActionUnsupported)
    else None
  }

  function FaultOf(entities: seq<Entity>, id: string, home: string, action: Action): Option<Code> {
    EntityFault(LastWith(entities, id, EntityIdOf), home, action)
  }

  function FirstFault(entities: seq<Entity>, ids: seq<string>, home: string, action: Action): Option<Code> {
    if ids == [] then None
    else if FaultOf(entities, ids[0], home, action).Some? then FaultOf(entities, ids[0], home, action)
    else FirstFault(entities, ids[1..], home, action)
  }

  predicate DistinctCandidates(cands: seq<Candidate>) {
    forall i, j | 0 <= i < j < |cands| :: cands[i].id != cands[j].id
  }

  /** The candidate a decision stands for, before the catalog is consulted. */
  function Choice(threshold: real, d: Decision, cands: seq<Candidate>, actor: Actor): Result<Candidate, Code> {
    if d.status != Selected || d.selected.None? then Err(NotSelected)
    else if d.confidence < threshold then Err(LowConfidence)
    else if !DistinctCandidates(cands) then Err(CandidateSetInvalid)
    else match LastWith(cands, d.selected.value, CandidateIdOf)
      case None => Err(CandidateUnknown)
      case Some(c) =>
        if c.home != actor.home then Err(OutsideHome)
        else if c.targets == [] || |c.targets| > 20 || SortedIds(c.targets) != c.targets then Err(EntitySetInvalid)
        else Ok(c)
  }

  function Verdict(threshold: real, d: Decision, cands: seq<Candidate>, actor: Actor, action: Action,
      refreshed: Option<Snapshot>): Result<Verified, Code>
  {
    match Choice(threshold, d, cands, actor)
    case Err(e) => Err(e)
    case Ok(c) =>
      match refreshed
      case None => Err(CatalogUnavailable)
      case Some(now) =>
        if now.home != actor.home then Err(OutsideHome)
        else if now.version != c.version then Err(CatalogChanged)
        else match FirstFault(now.entities, c.targets, actor.home, action)
          case Some(e) => Err(e)
          case None => Ok(Verified(actor.home, c.id, c.targets, now.version, action))
  }

  method Choose(threshold: real, d: Decision, cands: seq<Candidate>, actor: Actor) returns (r: Result<Candidate, Code>)
    ensures r == Choice(threshold, d, cands, actor)
  {
    if d.status != Selected || d.selected.None? {
      return Err(NotSelected);
    }
    if d.confidence < threshold {
      return Err(LowConfidence);
    }
    var byId: map<string, Candidate> := map[];
    for i := 0 to |cands|
      invariant forall id :: id in byId <==> exists j :: 0 <= j < i && cands[j].id == id
      invariant Indexes(byId, cands[..i], CandidateIdOf)
      invariant forall j, k | 0 <= j < k < i :: cands[j].id != cands[k].id
    {
      if cands[i].id in byId {
        return Err(CandidateSetInvalid);
      }
      IndexGrows(byId, cands, i, CandidateIdOf);
      byId := byId[cands[i].id := cands[i]];
    }
    assert cands[..|cands|] == cands;
    if d.selected.value !in byId {
      return Err(CandidateUnknown);
    }
    var c := byId[d.selected.value];
    if c.home != actor.home {
      return Err(OutsideHome);
    }
    if c.targets == [] || |c.targets| > 20 || SortedIds(c.targets) != c.targets {
      return Err(EntitySetInvalid);
    }
    return Ok(c);
  }

  method Verify(threshold: real, d: Decision, cands: seq<Candidate>, actor: Actor, action: Action,
      refreshed: Option<Snapshot>) returns (r: Result<Verified, Code>)
    ensures r == Verdict(threshold, d, cands, actor, action, refreshed)
  {
    var choice := Choose(threshold, d, cands, actor);
    if choice.Err? {
      return Err(choice.error);
    }
    var c := choice.value;
    if refreshed.None? {
      return Err(CatalogUnavailable);
    }
    var now := refreshed.value;
    if now.home != actor.home {
      return Err(OutsideHome);
    }
    if now.version != c.version {
      return Err(CatalogChanged);
    }
    var byId := Index(now.entities, EntityIdOf);
    for i := 0 to |c.targets|
      invariant FirstFault(now.entities, c.targets, actor.home, action)
             == FirstFault(now.entities, c.targets[i..], actor.home, action)
    {
      var id := c.targets[i];
      assert c.targets[i..][1..] == c.targets[i + 1..];
      if id !in byId {
        return Err(NotFound);
      }
      var e := byId[id];
      if e.home != actor.home {
        return Err(OutsideHome);
      }
      if e.disabled {
        return Err(Disabled);
      }
      if !e.available {
        return Err(Unavailable);
      }
      if action !in e.capabilities {
        return Err(ActionUnsupported);
      }
    }
    return Ok(Verified(actor.home, c.id, c.targets, now.version, action));
  }

  // ------------------------------------------------------ what success means

  lemma {:induction false} NoFault(entities: seq<Entity>, ids: seq<string>, home: string, action: Action)
    ensures FirstFault(entities, ids, home, action).None?
       <==> forall id | id in ids :: FaultOf(entities, id, home, action).None?
    ensures FirstFault(entities, ids, home, action).Some? ==>
      exists id :: id in ids && FirstFault(entities, ids, home, action) == FaultOf(entities, id, home, action)
  {
    if ids == [] {
    } else {
      NoFault(entities, ids[1..], home, action);
      assert ids == [ids[0]] + ids[1..];
    }
  }

  /** The entity may be controlled right now. */
  ghost predicate Fit(now: Snapshot, id: string, home: string, action: Action) {
    exists e :: e in now.entities && e.id == id && e.home == home && !e.disabled && e.available
      && action in e.capabilities
  }

  /** Whatever the decision and the candidates are, a verified target is the
      chosen one, well formed, and fit for the action in all its parts. */
  lemma VerifiedMeansFit(threshold: real, d: Decision, cands: seq<Candidate>, actor: Actor, action: Action,
      now: Snapshot)
    requires Verdict(threshold, d, cands, actor, action, Some(now)).Ok?
    ensures var v := Verdict(threshold, d, cands, actor, action, Some(now)).value;
      && d.status == Selected && d.confidence >= threshold && d.selected == Some(v.candidate)
      && (exists c :: c in cands && c.id == v.candidate && c.targets == v.targets && c.version == v.version)
      && v.home == actor.home == now.home && v.version == now.version && v.action == action
      && 1 <= |v.targets| <= 20 && StrictlySorted(v.targets, StringLt)
      && forall id | id in v.targets :: Fit(now, id, actor.home, action)
  {
    var v := Verdict(threshold, d, cands, actor, action, Some(now)).value;
    LastWithIs(cands, d.selected.value, CandidateIdOf);
    SortedIdsSorts(v.targets);
    NoFault(now.entities, v.targets, actor.home, action);
    forall id | id in v.targets ensures Fit(now, id, actor.home, action) {
      LastWithIs(now.entities, id, EntityIdOf);
    }
  }

  // ------------------------------------------------------ what an error means

  /** The decision points at this candidate surely enough, and no two candidates
      share an id. */
  ghost predicate Points(threshold: real, d: Decision, cands: seq<Candidate>, c: Candidate) {
    && d.status == Selected && d.confidence >= threshold && d.selected == Some(c.id) && c in cands
    && forall i, j | 0 <= i < j < |cands| :: cands[i].id != cands[j].id
  }

  /** Its target is what a candidate may have. */
  ghost predicate WellTargeted(actor: Actor, c: Candidate) {
    c.home == actor.home && 1 <= |c.targets| <= 20 && StrictlySorted(c.targets, StringLt)
  }

  /** The target of a candidate that stands up to everything but this entity:
      all before it are fit. */
  ghost predicate FaultAt(now: Snapshot, c: Candidate, actor: Actor, action: Action, code: Code) {
    && now.home == actor.home && now.version == c.version
    && exists i :: 0 <= i < |c.targets| && (forall j | 0 <= j < i :: Fit(now, c.targets[j], actor.home, action))
                   && FaultyAs(now, c.targets[i], actor.home, action, code)
  }

  /** What is wrong with an entity, checked in this order. */
  predicate Faulty(e: Entity, home: string, action: Action, code: Code) {
    || (code == OutsideHome && e.home != home)
    || (code == Disabled && e.home == home && e.disabled)
    || (code == Unavailable && e.home == home && !e.disabled && !e.available)
    || (code == ActionUnsupported && e.home == home && !e.disabled && e.available && action !in e.capabilities)
  }

  /** The entity is missing, or is there and has this fault. */
  ghost predicate FaultyAs(now: Snapshot, id: string, home: string, action: Action, code: Code) {
    if code == NotFound then forall e | e in now.entities :: e.id != id
    else exists e :: e in now.entities && e.id == id && Faulty(e, home, action, code)
  }

  /** What an error says: each code names the first check that fails, in this order. */
  ghost predicate Says(threshold: real, d: Decision, cands: seq<Candidate>, actor: Actor, action: Action,
      refreshed: Option<Snapshot>, code: Code)
  {
    match code
    case NotSelected => d.status != Selected || d.selected.None?
    case LowConfidence => d.status == Selected && d.selected.Some? && d.confidence < threshold
    case CandidateSetInvalid =>
      && d.status == Selected && d.selected.Some? && d.confidence >= threshold
      && exists i, j :: 0 <= i < j < |cands| && cands[i].id == cands[j].id
    case CandidateUnknown =>
      && d.status == Selected && d.selected.Some? && d.confidence >= threshold
      && forall c | c in cands :: c.id != d.selected.value
    case EntitySetInvalid =>
      exists c :: Points(threshold, d, cands, c) && c.home == actor.home && !WellTargeted(actor, c)
    case CatalogUnavailable =>
      refreshed.None? && exists c :: Points(threshold, d, cands, c) && WellTargeted(actor, c)
    case CatalogChanged =>
      && refreshed.Some? && refreshed.value.home == actor.home
      && exists c :: Points(threshold, d, cands, c) && WellTargeted(actor, c) && refreshed.value.version != c.version
    case _ =>
      exists c :: Points(threshold, d, cands, c)
        && ((code == OutsideHome && c.home != actor.home)
            || (refreshed.Some? && WellTargeted(actor, c)
                && ((code == OutsideHome && refreshed.value.home != actor.home)
                    || FaultAt(refreshed.value, c, actor, action, code))))
  }

  lemma ChoiceSays(threshold: real, d: Decision, cands: seq<Candidate>, actor: Actor, action: Action,
      refreshed: Option<Snapshot>)
    ensures var r := Choice(threshold, d, cands, actor);
            if r.Err? then Says(threshold, d, cands, actor, action, refreshed, r.error)
            else Points(threshold, d, cands, r.value) && WellTargeted(actor, r.value)
  {
    if d.selected.Some? {
      LastWithIs(cands, d.selected.value, CandidateIdOf);
      var found := LastWith(cands, d.selected.value, CandidateIdOf);
      if found.Some? {
        SortedIdsSorts(found.value.targets);
      }
    }
  }

  lemma FaultSays(now: Snapshot, id: string, home: string, action: Action)
    ensures var fault := FaultOf(now.entities, id, home, action);
            if fault.Some? then FaultyAs(now, id, home, action, fault.value) else Fit(now, id, home, action)
  {
    LastWithIs(now.entities, id, EntityIdOf);
  }

  lemma {:induction false} FirstFaultSays(now: Snapshot, ids: seq<string>, home: string, action: Action)
    ensures var fault := FirstFault(now.entities, ids, home, action);
            fault.Some? ==> exists i :: 0 <= i < |ids| && (forall j | 0 <= j < i :: Fit(now, ids[j], home, action))
                                        && FaultyAs(now, ids[i], home, action, fault.value)
  {
    if ids == [] {
    } else {
      FaultSays(now, ids[0], home, action);
      var rest, fault := ids[1..], FirstFault(now.entities, ids, home, action);
      FirstFaultSays(now, rest, home, action);
      if fault.Some? && FaultOf(now.entities, ids[0], home, action).None? {
        var i :| 0 <= i < |rest| && (forall j | 0 <= j < i :: Fit(now, rest[j], home, action))
                 && FaultyAs(now, rest[i], home, action, fault.value);
        assert forall j | 0 < j < i + 1 :: ids[j] == rest[j - 1];
        assert ids[i + 1] == rest[i];
      }
    }
  }

  lemma EntitySays(threshold: real, d: Decision, cands: seq<Candidate>, actor: Actor, action: Action,
      now: Snapshot, c: Candidate, code: Code)
    requires Points(threshold, d, cands, c) && WellTargeted(actor, c) && FaultAt(now, c, actor, action, code)
    ensures Says(threshold, d, cands, actor, action, Some(now), code)
  {
    var i :| 0 <= i < |c.targets| && FaultyAs(now, c.targets[i], actor.home, action, code);
  }

  lemma TargetSays(threshold: real, d: Decision, cands: seq<Candidate>, actor: Actor, action: Action,
      now: Snapshot, c: Candidate)
    requires Choice(threshold, d, cands, actor) == Ok(c) && Points(threshold, d, cands, c) && WellTargeted(actor, c)
    ensures var r := Verdict(threshold, d, cands, actor, action, Some(now));
            r.Err? ==> Says(threshold, d, cands, actor, action, Some(now), r.error)
  {
    var fault := FirstFault(now.entities, c.targets, actor.home, action);
    FirstFaultSays(now, c.targets, actor.home, action);
    if now.home == actor.home && now.version == c.version && fault.Some? {
      EntitySays(threshold, d, cands, actor, action, now, c, fault.value);
    }
  }

  /** Every error tells what was wrong. */
  lemma VerdictSays(threshold: real, d: Decision, cands: seq<Candidate>, actor: Actor, action: Action,
      refreshed: Option<Snapshot>)
    ensures var r := Verdict(threshold, d, cands, actor, action, refreshed);
            r.Err? ==> Says(threshold, d, cands, actor, action, refreshed, r.error)
  {
    ChoiceSays(threshold, d, cands, actor, action, refreshed);
    var choice := Choice(threshold, d, cands, actor);
    if choice.Ok? && refreshed.Some? {
      TargetSays(threshold, d, cands, actor, action, refreshed.value, choice.value);
    }
  }

  // ------------------------------------------------- adequacy of candidates

  ghost predicate AvailableNow(now: Snapshot, id: string) {
    exists e :: e in now.entities && e.id == id && e.available
  }

  /** A candidate whose target was eligible in the snapshot it was built from. */
  ghost predicate Proposed(q: Query, built: Snapshot, c: Candidate) {
    && c.home == built.home == q.actor.home && c.version == built.version
    && 1 <= |c.targets| <= 20 && StrictlySorted(c.targets, StringLt)
    && forall id | id in c.targets :: EligibleId(q, built.entities, id)
  }

  lemma SameIdSameEntity(entities: seq<Entity>, e: Entity, f: Entity)
    requires DistinctIds(entities) && e in entities && f in entities && e.id == f.id
    ensures e == f
  {
  }

  /** In an unchanged catalog an entity that was eligible is only ever
      unavailable. */
  lemma EligibleThen(q: Query, built: Snapshot, now: Snapshot, id: string)
    requires Valid(built) && Valid(now) && built.version == now.version && built.home == q.actor.home
    requires EligibleId(q, built.entities, id)
    ensures FaultOf(now.entities, id, q.actor.home, q.action)
         == if AvailableNow(now, id) then None else Some(Unavailable)
  {
    var e :| e in built.entities && e.id == id && Eligible(q, e);
    SameVersionSameDevices(built, now, e);
    LastWithIs(now.entities, id, EntityIdOf);
    var f := LastWith(now.entities, id, EntityIdOf).value;
    assert IdentityOf(f) == IdentityOf(e);
    forall g | g in now.entities && g.id == id ensures g == f {
      SameIdSameEntity(now.entities, g, f);
    }
  }

  lemma FaultsThen(q: Query, built: Snapshot, now: Snapshot, ids: seq<string>)
    requires Valid(built) && Valid(now) && built.version == now.version && built.home == q.actor.home
    requires forall id | id in ids :: EligibleId(q, built.entities, id)
    ensures FirstFault(now.entities, ids, q.actor.home, q.action)
         == if forall id | id in ids :: AvailableNow(now, id) then None else Some(Unavailable)
  {
    forall id | id in ids
      ensures FaultOf(now.entities, id, q.actor.home, q.action)
           == if AvailableNow(now, id) then None else Some(Unavailable)
    {
      EligibleThen(q, built, now, id);
    }
    NoFault(now.entities, ids, q.actor.home, q.action);
  }

  predicate Selects(d: Decision, threshold: real, c: Candidate) {
    d.status == Selected && d.selected == Some(c.id) && d.confidence >= threshold
  }

  lemma ChoiceIs(threshold: real, d: Decision, cands: seq<Candidate>, actor: Actor, c: Candidate)
    requires Selects(d, threshold, c) && DistinctCandidates(cands) && c in cands && c.home == actor.home
    requires 1 <= |c.targets| <= 20 && StrictlySorted(c.targets, StringLt)
    ensures Choice(threshold, d, cands, actor) == Ok(c)
  {
    LastWithIs(cands, c.id, CandidateIdOf);
    SortedIdsSorts(c.targets);
  }

  /** A proposed candidate that is chosen with enough confidence is verified
      exactly when the catalog has not changed and all of its target is
      available; the error says which of the two it was. */
  lemma ProposedVerdict(q: Query, built: Snapshot, now: Snapshot, c: Candidate, cands: seq<Candidate>, d: Decision,
      threshold: real)
    requires Valid(built) && Valid(now) && Proposed(q, built, c)
    requires c in cands && DistinctCandidates(cands) && Selects(d, threshold, c)
    ensures Verdict(threshold, d, cands, q.actor, q.action, Some(now))
         == if now.home != q.actor.home then Err(OutsideHome)
            else if now.version != built.version then Err(CatalogChanged)
            else if exists id :: id in c.targets && !AvailableNow(now, id) then Err(Unavailable)
            else Ok(Verified(q.actor.home, c.id, c.targets, built.version, q.action))
  {
    ChoiceIs(threshold, d, cands, q.actor, c);
    if now.version == built.version {
      FaultsThen(q, built, now, c.targets);
    }
  }

  lemma BuiltIsProposed(q: Query, built: Snapshot, terms: seq<Term>, out: seq<Candidate>)
    requires Proper(q) && Valid(built) && IsBuild(q, built, terms, out)
    ensures DistinctCandidates(out) && forall c | c in out :: Proposed(q, built, c)
  {
    forall c | c in out ensures Proposed(q, built, c) {
      CandidatesAreSound(q, built, terms, out, c);
    }
    forall i, j | 0 <= i < j < |out| ensures out[i].id != out[j].id {
      CandidatesInOrder(q, built, terms, out, i, j);
    }
  }

  /** Every candidate `build` returns is adequate in that sense. */
  lemma BuiltVerdict(q: Query, built: Snapshot, terms: seq<Term>, out: seq<Candidate>, now: Snapshot, c: Candidate,
      d: Decision, threshold: real)
    requires Proper(q) && Valid(built) && Valid(now) && IsBuild(q, built, terms, out)
    requires c in out && Selects(d, threshold, c)
    ensures Verdict(threshold, d, out, q.actor, q.action, Some(now))
         == if now.home != q.actor.home then Err(OutsideHome)
            else if now.version != built.version then Err(CatalogChanged)
            else if exists id :: id in c.targets && !AvailableNow(now, id) then Err(Unavailable)
            else Ok(Verified(q.actor.home, c.id, c.targets, built.version, q.action))
  {
    BuiltIsProposed(q, built, terms, out);
    ProposedVerdict(q, built, now, c, out, d, threshold);
  }
}
