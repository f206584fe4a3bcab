/** Which targets an expression can mean, and in what order they are proposed. */
module Candidates {
  import opened Base
  import opened Order
  import opened Catalog

  datatype Actor = Actor(home: string, person: string)

  datatype Scope = Personal | HomeWide

  datatype TermStatus = Provisional | Approved

  datatype Term = Term(
    id: string, home: string, scope: Scope, person: Option<string>, display: string, term: string,
    targets: seq<string>, status: TermStatus)

  datatype Source =
    | PersonalProvisional | PersonalApproved | HomeShared | HaAlias | HaName | Area | Context | SemanticFallback
    | ClarificationAll

  /** A line of evidence; the wording is left out. */
  datatype Note =
    | TermNote(mapping: string) | AliasNote(entity: string) | NameNote(entity: string) | AreaNote(area: string)
    | ContextNote | FallbackNote(entity: string) | ChoiceNote(candidate: string)

  datatype Evidence = Evidence(sources: set<Source>, matched: set<string>, notes: set<Note>, semantic: real)

  /** `normalize_term` and the similarity ratio, two deterministic functions of strings. */
  datatype Text = Text(norm: string -> string, ratio: (string, string) -> real)

  /** What one call of `build` is about.  `expression` is already normalized,
      `spoken` is the expression as given, stripped. */
  datatype Query = Query(
    action: Action, expression: string, spoken: string, actor: Actor, text: Text, context: seq<string>,
    limit: int, targetLimit: int)

  /** What the builder's constructor accepts. */
  predicate Proper(q: Query) {
    1 <= q.limit <= 20 && 1 <= q.targetLimit <= 20
  }

  /** A candidate; its display name, areas, domains and states are left out. */
  datatype Candidate = Candidate(
    id: string, targets: seq<string>, evidence: Evidence, score: real, version: Version, home: string)

  /** The weights in a score; `ClarificationAll` is never weighed. */
  function Weight(s: Source): real {
    match s
    case PersonalProvisional => 700.0
    case PersonalApproved => 600.0
    case HomeShared => 500.0
    case HaAlias => 400.0
    case HaName => 350.0
    case Area => 250.0
    case Context => 100.0
    case SemanticFallback => 50.0
    case ClarificationAll => 0.0
  }

  function Part(s: Source, sources: set<Source>): real {
    if s in sources then Weight(s) else 0.0
  }

  function Score(e: Evidence): real {
    Part(PersonalProvisional, e.sources) + Part(PersonalApproved, e.sources) + Part(HomeShared, e.sources)
    + Part(HaAlias, e.sources) + Part(HaName, e.sources) + Part(Area, e.sources) + Part(Context, e.sources)
    + Part(SemanticFallback, e.sources) + e.semantic
  }

  predicate Eligible(q: Query, e: Entity) {
    e.home == q.actor.home && e.available && !e.disabled && q.action in e.capabilities
  }

  /** The entity is in the catalog and eligible. */
  predicate EligibleId(q: Query, entities: seq<Entity>, id: string) {
    exists e :: e in entities && e.id == id && Eligible(q, e)
  }

  predicate Visible(q: Query, t: Term) {
    && t.home == q.actor.home
    && match t.scope
       case HomeWide => t.status == Approved
       case Personal => t.person == Some(q.actor.person)
  }

  function TermSource(t: Term): Source {
    if t.scope == HomeWide then HomeShared
    else if t.status == Provisional then PersonalProvisional
    else PersonalApproved
  }

  /** The term names the expression and all it stands for can be controlled. */
  predicate TermCounts(q: Query, entities: seq<Entity>, t: Term) {
    var ids := SortedIds(t.targets);
    && Visible(q, t) && t.term == q.expression && 1 <= |ids| <= q.targetLimit
    && forall id | id in ids :: EligibleId(q, entities, id)
  }

  predicate Named(q: Query, names: seq<Option<string>>) {
    exists n ::
      n in names && n.Some? && n.value != "" && q.text.norm(n.value) != "" && q.text.norm(n.value) == q.expression
  }

  predicate AliasMatches(q: Query, e: Entity) {
    exists a :: a in e.aliases + e.deviceAliases && q.text.norm(a) != "" && q.text.norm(a) == q.expression
  }

  predicate NameMatches(q: Query, e: Entity) {
    Named(q, [e.friendly, e.original, e.device])
  }

  predicate InArea(q: Query, e: Entity, area: string) {
    Eligible(q, e) && e.area == Some(area) && area != "" && q.text.norm(area) == q.expression
  }

  /** One call of `_add`. */
  datatype Contribution = Contribution(
    key: seq<string>, source: Source, matched: Option<string>, note: Note, semantic: real)

  function OfTerm(t: Term): Contribution {
    Contribution(SortedIds(t.targets), TermSource(t), Some(t.display), TermNote(t.id), 0.0)
  }

  function OfAlias(q: Query, e: Entity): Contribution {
    Contribution([e.id], HaAlias, Some(q.spoken), AliasNote(e.id), 0.0)
  }

  function OfName(q: Query, e: Entity): Contribution {
    Contribution([e.id], HaName, Some(q.spoken), NameNote(e.id), 0.0)
  }

  /** The ids of an area's eligible entities, in catalog order. */
  function AreaIds(q: Query, entities: seq<Entity>, area: string): seq<string> {
    if entities == [] then []
    else
      var n := |entities| - 1;
      AreaIds(q, entities[..n], area) + (if InArea(q, entities[n], area) then [entities[n].id] else [])
  }

  function OfArea(q: Query, entities: seq<Entity>, area: string): Contribution {
    Contribution(SortedIds(AreaIds(q, entities, area)), Area, Some(area), AreaNote(area), 0.0)
  }

  predicate AreaCounts(q: Query, entities: seq<Entity>, area: string) {
    (exists e :: e in entities && InArea(q, e, area)) && |AreaIds(q, entities, area)| <= q.targetLimit
  }

  /** The expression speaks of lamps, light or lighting. */
  predicate HintsAtLight(expression: string) {
    Contains(expression, "灯") || Contains(expression, "灯光") || Contains(expression, "照明")
  }

  predicate FallsBack(q: Query, e: Entity) {
    Eligible(q, e) && (!HintsAtLight(q.expression) || e.domain == "light")
  }

  function Similarity(q: Query, names: seq<Option<string>>): real {
    if names == [] then 0.0
    else
      var rest := Similarity(q, names[1..]);
      if names[0].Some? && names[0].value != "" && q.text.norm(names[0].value) != "" then
        var here := q.text.ratio(q.expression, q.text.norm(names[0].value)) * 100.0;
        if here > rest then here else rest
      else rest
  }

  function AllNames(e: Entity): seq<Option<string>> {
    [e.friendly, e.original, e.device]
    + seq(|e.aliases|, i requires 0 <= i < |e.aliases| => Some(e.aliases[i]))
    + seq(|e.deviceAliases|, i requires 0 <= i < |e.deviceAliases| => Some(e.deviceAliases[i]))
  }

  function OfFallback(q: Query, e: Entity): Contribution {
    Contribution([e.id], SemanticFallback, None, FallbackNote(e.id), Similarity(q, AllNames(e)))
  }

  // ------------------------------------- what is collected, stated with sets

  ghost function TermPart(q: Query, entities: seq<Entity>, terms: seq<Term>): set<Contribution> {
    set t | t in terms && TermCounts(q, entities, t) :: OfTerm(t)
  }

  ghost function AliasPart(q: Query, entities: seq<Entity>): set<Contribution> {
    set e | e in entities && Eligible(q, e) && AliasMatches(q, e) :: OfAlias(q, e)
  }

  ghost function NamePart(q: Query, entities: seq<Entity>): set<Contribution> {
    set e | e in entities && Eligible(q, e) && NameMatches(q, e) :: OfName(q, e)
  }

  /** The areas the expression names. */
  ghost function Areas(q: Query, entities: seq<Entity>): set<string> {
    set e | e in entities && e.area.Some? && InArea(q, e, e.area.value) :: e.area.value
  }

  ghost function AreaPart(q: Query, entities: seq<Entity>): set<Contribution> {
    set a | a in Areas(q, entities) && AreaCounts(q, entities, a) :: OfArea(q, entities, a)
  }

  ghost function Exact(q: Query, entities: seq<Entity>, terms: seq<Term>): set<Contribution> {
    TermPart(q, entities, terms) + AliasPart(q, entities) + NamePart(q, entities) + AreaPart(q, entities)
  }

  ghost function Fallback(q: Query, entities: seq<Entity>): set<Contribution> {
    set e | e in entities && FallsBack(q, e) :: OfFallback(q, e)
  }

  type Collected = map<seq<string>, Evidence>

  /** `m` is the dictionary that any order of adding `cs` produces. */
  ghost predicate Collects(cs: set<Contribution>, m: Collected) {
    && m.Keys == (set c | c in cs :: c.key)
    && forall k | k in m :: Gathers(cs, k, m[k])
  }

  ghost predicate Gathers(cs: set<Contribution>, k: seq<string>, e: Evidence) {
    && e.sources == (set c | c in cs && c.key == k :: c.source)
    && e.matched == (set c | c in cs && c.key == k && c.matched.Some? :: c.matched.value)
    && e.notes == (set c | c in cs && c.key == k :: c.note)
    && e.semantic >= 0.0
    && (forall c | c in cs && c.key == k :: c.semantic <= e.semantic)
    && (e.semantic == 0.0 || exists c :: c in cs && c.key == k && c.semantic == e.semantic)
  }

  predicate InContext(q: Query) {
    exists v :: v in q.context && q.text.norm(v) != "" && q.text.norm(v) == q.expression
  }

  function WithContext(m: Collected): Collected {
    map k | k in m :: m[k].(sources := m[k].sources + {Context}, notes := m[k].notes + {ContextNote})
  }

  /** The dictionary `build` sorts. */
  ghost predicate IsCollection(q: Query, entities: seq<Entity>, terms: seq<Term>, m: Collected) {
    var exact := Exact(q, entities, terms);
    if exact == {} then Collects(Fallback(q, entities), m)
    else exists base :: Collects(exact, base) && m == if InContext(q) then WithContext(base) else base
  }

  /** Best score first, ids in dictionary order among equals. */
  datatype Rank = Rank(score: real, key: seq<string>)

  predicate RankLt(a: Rank, b: Rank) {
    a.score > b.score || (a.score == b.score && StringsLt(a.key, b.key))
  }

  ghost predicate IsRanking(m: Collected, ranks: seq<Rank>) {
    StrictlySorted(ranks, RankLt) && Elements(ranks) == (set k | k in m :: Rank(Score(m[k]), k))
  }

  /** `cand_01`, `cand_02`, ... */
  function CandidateId(n: nat): string
    requires n < 100
  {
    "cand_" + [('0' as int + n / 10) as char, ('0' as int + n % 10) as char]
  }

  function Min(a: int, b: int): int { if a < b then a else b }

  ghost predicate IsCut(q: Query, version: Version, m: Collected, ranks: seq<Rank>, out: seq<Candidate>) {
    && |out| == Min(|ranks|, q.limit) && |out| < 100
    && forall i | 0 <= i < |out| ::
         && ranks[i].key in m
         && out[i] == Candidate(CandidateId(i + 1), ranks[i].key, m[ranks[i].key], Score(m[ranks[i].key]), version,
                                q.actor.home)
  }

  /** What `build` may return: nothing for a foreign home or an empty
      expression, otherwise the best of everything that was collected. */
  ghost predicate IsBuild(q: Query, catalog: Snapshot, terms: seq<Term>, out: seq<Candidate>) {
    if catalog.home != q.actor.home || q.expression == "" then out == []
    else exists m, ranks ::
      IsCollection(q, catalog.entities, terms, m) && IsRanking(m, ranks) && IsCut(q, catalog.version, m, ranks, out)
  }

  // ------------------------------------------------ the sets decide it all

  lemma RankOrder()
    ensures StrictTotal(RankLt)
  {
    StringsOrder();
  }

  lemma CollectsUnique(cs: set<Contribution>, a: Collected, b: Collected)
    requires Collects(cs, a) && Collects(cs, b)
    ensures a == b
  {
    forall k | k in a ensures k in b && a[k] == b[k] {
      assert k in b.Keys;
      assert Gathers(cs, k, a[k]) && Gathers(cs, k, b[k]);
    }
    assert a.Keys == b.Keys;
  }
}
