/** What a candidate has to do with what was said, in terms of the fields of
    the terms and entities given to `build`. */
module CandidateMeaning {
  import opened Base
  import opened Order
  import opened Catalog
  import opened Candidates
  import opened CandidateTheorems

  // --------------------------------------------------- what names a target

  predicate Controllable(q: Query, e: Entity) {
    e.home == q.actor.home && e.available && !e.disabled && q.action in e.capabilities
  }

  /** A target that may be proposed at all. */
  ghost predicate Proposable(q: Query, entities: seq<Entity>, ids: seq<string>) {
    && 1 <= |ids| <= q.targetLimit && StrictlySorted(ids, StringLt)
    && forall id | id in ids :: exists e :: e in entities && e.id == id && Controllable(q, e)
  }

  /** The term is one the actor sees with this standing, is spelled like the
      expression, and stands for exactly these entities. */
  ghost predicate TermIs(q: Query, t: Term, ids: seq<string>, s: Source) {
    && t.home == q.actor.home && t.term == q.expression && Elements(t.targets) == Elements(ids)
    && match s
       case PersonalProvisional => t.scope == Personal && t.person == Some(q.actor.person) && t.status == Provisional
       case PersonalApproved => t.scope == Personal && t.person == Some(q.actor.person) && t.status == Approved
       case HomeShared => t.scope == HomeWide && t.status == Approved
       case _ => false
  }

  ghost predicate HasAlias(q: Query, e: Entity) {
    exists a :: (a in e.aliases || a in e.deviceAliases) && q.text.norm(a) == q.expression
  }

  predicate Spells(q: Query, name: Option<string>) {
    name.Some? && name.value != "" && q.text.norm(name.value) == q.expression
  }

  predicate HasName(q: Query, e: Entity) {
    Spells(q, e.friendly) || Spells(q, e.original) || Spells(q, e.device)
  }

  /** The ids of what can be controlled in an area. */
  ghost function Members(q: Query, entities: seq<Entity>, area: string): set<string> {
    set e | e in entities && Controllable(q, e) && e.area == Some(area) :: e.id
  }

  /** A piece of evidence for this target, other than the context. */
  ghost predicate Says(q: Query, entities: seq<Entity>, terms: seq<Term>, ids: seq<string>, s: Source) {
    match s
    case PersonalProvisional => exists t :: t in terms && TermIs(q, t, ids, PersonalProvisional)
    case PersonalApproved => exists t :: t in terms && TermIs(q, t, ids, PersonalApproved)
    case HomeShared => exists t :: t in terms && TermIs(q, t, ids, HomeShared)
    case HaAlias => exists e :: e in entities && Controllable(q, e) && ids == [e.id] && HasAlias(q, e)
    case HaName => exists e :: e in entities && Controllable(q, e) && ids == [e.id] && HasName(q, e)
    case Area =>
      exists a: string :: a != "" && q.text.norm(a) == q.expression && Elements(ids) == Members(q, entities, a)
    case _ => false
  }

  /** The same piece by piece: the word that matched and the line that tells why. */
  ghost predicate Tells(q: Query, entities: seq<Entity>, terms: seq<Term>, ids: seq<string>, s: Source, w: string,
      note: Note)
  {
    match note
    case TermNote(m) => exists t :: t in terms && TermIs(q, t, ids, s) && t.display == w && t.id == m
    case AliasNote(id) =>
      s == HaAlias && w == q.spoken && ids == [id]
      && exists e :: e in entities && Controllable(q, e) && e.id == id && HasAlias(q, e)
    case NameNote(id) =>
      s == HaName && w == q.spoken && ids == [id]
      && exists e :: e in entities && Controllable(q, e) && e.id == id && HasName(q, e)
    case AreaNote(a) =>
      s == Area && w == a && a != "" && q.text.norm(a) == q.expression && Elements(ids) == Members(q, entities, a)
    case _ => false
  }

  lemma SaysIsTells(q: Query, entities: seq<Entity>, terms: seq<Term>, ids: seq<string>, s: Source)
    ensures Says(q, entities, terms, ids, s) <==> exists w, note :: Tells(q, entities, terms, ids, s, w, note)
  {
    if t :| t in terms && TermIs(q, t, ids, s) {
      assert Tells(q, entities, terms, ids, s, t.display, TermNote(t.id));
    }
    if e :| e in entities && Controllable(q, e) && s == HaAlias && ids == [e.id] && HasAlias(q, e) {
      assert Tells(q, entities, terms, ids, s, q.spoken, AliasNote(e.id));
    }
    if e :| e in entities && Controllable(q, e) && s == HaName && ids == [e.id] && HasName(q, e) {
      assert Tells(q, entities, terms, ids, s, q.spoken, NameNote(e.id));
    }
    if a: string :| a != "" && q.text.norm(a) == q.expression && s == Area && Elements(ids) == Members(q, entities, a) {
      assert Tells(q, entities, terms, ids, s, a, AreaNote(a));
    }
  }

  /** Nothing that can be proposed is named by the expression. */
  ghost predicate Unnamed(q: Query, entities: seq<Entity>, terms: seq<Term>) {
    forall ids, s | Proposable(q, entities, ids) :: !Says(q, entities, terms, ids, s)
  }

  /** One of the words an entity goes by. */
  predicate GoesBy(e: Entity, n: string) {
    n != "" && (e.friendly == Some(n) || e.original == Some(n) || e.device == Some(n) || n in e.aliases
                || n in e.deviceAliases)
  }

  /** How well the best word of an entity matches, as a percentage. */
  ghost predicate BestMatch(q: Query, e: Entity, x: real) {
    && x >= 0.0
    && (forall n | GoesBy(e, n) && q.text.norm(n) != "" :: q.text.ratio(q.expression, q.text.norm(n)) * 100.0 <= x)
    && (x == 0.0
        || exists n :: GoesBy(e, n) && q.text.norm(n) != ""
                       && q.text.ratio(q.expression, q.text.norm(n)) * 100.0 == x)
  }

  /** An entity the fallback may propose: a lamp, if the expression speaks of one. */
  predicate MayStandIn(q: Query, e: Entity) {
    Controllable(q, e) && (Contains(q.expression, "灯") || Contains(q.expression, "照明") ==> e.domain == "light")
  }

  // --------------------------------------------- contributions and meaning

  ghost predicate Contributes(q: Query, entities: seq<Entity>, terms: seq<Term>, ids: seq<string>, s: Source, w: string,
      note: Note)
  {
    Contribution(ids, s, Some(w), note, 0.0) in Exact(q, entities, terms)
  }

  lemma SoundIsProposable(q: Query, entities: seq<Entity>, ids: seq<string>)
    ensures SoundTarget(q, entities, ids) <==> Proposable(q, entities, ids)
  {
    forall id ensures EligibleId(q, entities, id) <==> exists e :: e in entities && e.id == id && Controllable(q, e) {
      if EligibleId(q, entities, id) {
        var e :| e in entities && e.id == id && Eligible(q, e);
        assert Controllable(q, e);
      }
      if e :| e in entities && e.id == id && Controllable(q, e) {
        assert Eligible(q, e);
      }
    }
  }

  lemma SortedTargets(a: seq<string>, ids: seq<string>)
    requires StrictlySorted(ids, StringLt)
    ensures SortedIds(a) == ids <==> Elements(a) == Elements(ids)
  {
    SortedIdsSorts(a);
    SortedIdsSorts(ids);
    StringOrder();
    if Elements(a) == Elements(ids) {
      SortDistinctOfSet(a, ids, StringLt);
    }
  }

  lemma TermMeans(q: Query, entities: seq<Entity>, t: Term, ids: seq<string>, s: Source)
    requires SoundTarget(q, entities, ids)
    ensures TermCounts(q, entities, t) && OfTerm(t).key == ids && OfTerm(t).source == s <==> TermIs(q, t, ids, s)
  {
    SortedTargets(t.targets, ids);
  }

  lemma TermTells(q: Query, entities: seq<Entity>, terms: seq<Term>, ids: seq<string>, s: Source, w: string, m: string)
    requires SoundTarget(q, entities, ids)
    ensures Contributes(q, entities, terms, ids, s, w, TermNote(m))
            <==> Tells(q, entities, terms, ids, s, w, TermNote(m))
  {
    var d := Contribution(ids, s, Some(w), TermNote(m), 0.0);
    if d in Exact(q, entities, terms) {
      assert d in TermPart(q, entities, terms);
      var t :| t in terms && TermCounts(q, entities, t) && d == OfTerm(t);
      TermMeans(q, entities, t, ids, s);
    }
    if t :| t in terms && TermIs(q, t, ids, s) && t.display == w && t.id == m {
      TermMeans(q, entities, t, ids, s);
      assert OfTerm(t) in TermPart(q, entities, terms);
    }
  }

  lemma AliasMeans(q: Query, e: Entity)
    requires q.expression != ""
    ensures AliasMatches(q, e) <==> HasAlias(q, e)
  {
    if HasAlias(q, e) {
      var a :| (a in e.aliases || a in e.deviceAliases) && q.text.norm(a) == q.expression;
      assert a in e.aliases + e.deviceAliases;
    }
  }

  lemma NameMeans(q: Query, e: Entity)
    requires q.expression != ""
    ensures NameMatches(q, e) <==> HasName(q, e)
  {
    var names := [e.friendly, e.original, e.device];
    assert names[0] in names && names[1] in names && names[2] in names;
  }

  lemma AliasTells(q: Query, entities: seq<Entity>, terms: seq<Term>, ids: seq<string>, s: Source, w: string,
      id: string)
    requires q.expression != ""
    ensures Contributes(q, entities, terms, ids, s, w, AliasNote(id))
            <==> Tells(q, entities, terms, ids, s, w, AliasNote(id))
  {
    var d := Contribution(ids, s, Some(w), AliasNote(id), 0.0);
    if d in Exact(q, entities, terms) {
      assert d in AliasPart(q, entities);
      var e :| e in entities && Eligible(q, e) && AliasMatches(q, e) && d == OfAlias(q, e);
      AliasMeans(q, e);
      assert Controllable(q, e);
    }
    if e :| e in entities && Controllable(q, e) && e.id == id && HasAlias(q, e) {
      AliasMeans(q, e);
      assert OfAlias(q, e) in AliasPart(q, entities);
    }
  }

  lemma NameTells(q: Query, entities: seq<Entity>, terms: seq<Term>, ids: seq<string>, s: Source, w: string, id: string)
    requires q.expression != ""
    ensures Contributes(q, entities, terms, ids, s, w, NameNote(id))
            <==> Tells(q, entities, terms, ids, s, w, NameNote(id))
  {
    var d := Contribution(ids, s, Some(w), NameNote(id), 0.0);
    if d in Exact(q, entities, terms) {
      assert d in NamePart(q, entities);
      var e :| e in entities && Eligible(q, e) && NameMatches(q, e) && d == OfName(q, e);
      NameMeans(q, e);
      assert Controllable(q, e);
    }
    if e :| e in entities && Controllable(q, e) && e.id == id && HasName(q, e) {
      NameMeans(q, e);
      assert OfName(q, e) in NamePart(q, entities);
    }
  }

  lemma AreaMembers(q: Query, entities: seq<Entity>, a: string)
    requires a != "" && q.text.norm(a) == q.expression && DistinctIds(entities)
    ensures Elements(AreaIds(q, entities, a)) == Members(q, entities, a)
    ensures |AreaIds(q, entities, a)| == |SortedIds(AreaIds(q, entities, a))|
  {
    AreaIdsAre(q, entities, a);
    forall e | e in entities ensures InArea(q, e, a) <==> Controllable(q, e) && e.area == Some(a) {
    }
    assert IdsInArea(q, entities, a) == Members(q, entities, a);
    AreaIdsDiffer(q, entities, a);
    StringOrder();
    SortDistinctLength(AreaIds(q, entities, a), StringLt);
  }

  lemma AreaMeans(q: Query, entities: seq<Entity>, a: string, ids: seq<string>)
    requires SoundTarget(q, entities, ids) && DistinctIds(entities)
    requires a != "" && q.text.norm(a) == q.expression && Elements(ids) == Members(q, entities, a)
    ensures OfArea(q, entities, a) in AreaPart(q, entities) && OfArea(q, entities, a).key == ids
  {
    AreaMembers(q, entities, a);
    SortedTargets(AreaIds(q, entities, a), ids);
    assert ids[0] in Elements(ids);
    var e :| e in entities && Controllable(q, e) && e.area == Some(a) && e.id == ids[0];
    assert InArea(q, e, a);
    assert a in Areas(q, entities);
  }

  lemma AreaTells(q: Query, entities: seq<Entity>, terms: seq<Term>, ids: seq<string>, s: Source, w: string, a: string)
    requires SoundTarget(q, entities, ids) && DistinctIds(entities)
    ensures Contributes(q, entities, terms, ids, s, w, AreaNote(a))
            <==> Tells(q, entities, terms, ids, s, w, AreaNote(a))
  {
    var d := Contribution(ids, s, Some(w), AreaNote(a), 0.0);
    if d in Exact(q, entities, terms) {
      assert d in AreaPart(q, entities);
      assert a in Areas(q, entities) && d == OfArea(q, entities, a);
      AreaMembers(q, entities, a);
      SortedTargets(AreaIds(q, entities, a), ids);
    }
    if Tells(q, entities, terms, ids, s, w, AreaNote(a)) {
      AreaMeans(q, entities, a, ids);
    }
  }

  /** What the loops add for a target is what the expression says of it. */
  lemma ContributionsTell(q: Query, entities: seq<Entity>, terms: seq<Term>, ids: seq<string>, s: Source, w: string,
      note: Note)
    requires SoundTarget(q, entities, ids) && DistinctIds(entities) && q.expression != ""
    ensures Contributes(q, entities, terms, ids, s, w, note) <==> Tells(q, entities, terms, ids, s, w, note)
  {
    match note
    case TermNote(m) => TermTells(q, entities, terms, ids, s, w, m);
    case AliasNote(id) => AliasTells(q, entities, terms, ids, s, w, id);
    case NameNote(id) => NameTells(q, entities, terms, ids, s, w, id);
    case AreaNote(a) => AreaTells(q, entities, terms, ids, s, w, a);
    case _ =>
  }

  /** Every contribution names its word and weighs nothing by itself. */
  lemma ExactShape(q: Query, entities: seq<Entity>, terms: seq<Term>, d: Contribution)
    requires d in Exact(q, entities, terms)
    ensures d.matched.Some? && d == Contribution(d.key, d.source, Some(d.matched.value), d.note, 0.0)
  {
  }

  lemma UnnamedIsFallback(q: Query, entities: seq<Entity>, terms: seq<Term>)
    requires Proper(q) && DistinctIds(entities) && q.expression != ""
    ensures Unnamed(q, entities, terms) <==> Exact(q, entities, terms) == {}
  {
    var exact := Exact(q, entities, terms);
    if d :| d in exact {
      ContributionIsSound(q, entities, terms, d);
      SoundIsProposable(q, entities, d.key);
      ExactShape(q, entities, terms, d);
      ContributionsTell(q, entities, terms, d.key, d.source, d.matched.value, d.note);
      SaysIsTells(q, entities, terms, d.key, d.source);
    }
    forall ids, s | Proposable(q, entities, ids) && Says(q, entities, terms, ids, s) ensures exact != {} {
      SoundIsProposable(q, entities, ids);
      SaysIsTells(q, entities, terms, ids, s);
      var w, note :| Tells(q, entities, terms, ids, s, w, note);
      ContributionsTell(q, entities, terms, ids, s, w, note);
    }
  }

  // ---------------------------------------------------------------- theorems

  /** The evidence collected for a target is all there is and nothing else. */
  ghost predicate EvidenceIs(q: Query, entities: seq<Entity>, terms: seq<Term>, ids: seq<string>, e: Evidence) {
    && (forall s :: s in e.sources <==> Says(q, entities, terms, ids, s))
    && (forall w :: w in e.matched <==> exists s, note :: Tells(q, entities, terms, ids, s, w, note))
    && (forall note :: note in e.notes <==> exists s, w :: Tells(q, entities, terms, ids, s, w, note))
    && e.semantic == 0.0
  }

  /** `cs` holds for this target exactly what is told of it. */
  ghost predicate AreTold(q: Query, entities: seq<Entity>, terms: seq<Term>, ids: seq<string>, cs: set<Contribution>) {
    && (forall s, w, note ::
          Contribution(ids, s, Some(w), note, 0.0) in cs <==> Tells(q, entities, terms, ids, s, w, note))
    && (forall d | d in cs :: d.matched.Some? && d == Contribution(d.key, d.source, Some(d.matched.value), d.note, 0.0))
  }

  lemma ExactIsTold(q: Query, entities: seq<Entity>, terms: seq<Term>, ids: seq<string>)
    requires SoundTarget(q, entities, ids) && DistinctIds(entities) && q.expression != ""
    ensures AreTold(q, entities, terms, ids, Exact(q, entities, terms))
  {
    var exact := Exact(q, entities, terms);
    forall s, w, note
      ensures Contribution(ids, s, Some(w), note, 0.0) in exact <==> Tells(q, entities, terms, ids, s, w, note)
    {
      ContributionsTell(q, entities, terms, ids, s, w, note);
    }
    forall d | d in exact
      ensures d.matched.Some? && d == Contribution(d.key, d.source, Some(d.matched.value), d.note, 0.0)
    {
      ExactShape(q, entities, terms, d);
    }
  }

  lemma ToldSource(q: Query, entities: seq<Entity>, terms: seq<Term>, ids: seq<string>, cs: set<Contribution>,
      e: Evidence, s: Source)
    requires AreTold(q, entities, terms, ids, cs) && Gathers(cs, ids, e)
    ensures s in e.sources <==> Says(q, entities, terms, ids, s)
  {
    SaysIsTells(q, entities, terms, ids, s);
    if s in e.sources {
      var d :| d in cs && d.key == ids && d.source == s;
      assert Tells(q, entities, terms, ids, s, d.matched.value, d.note);
    }
    if w, note :| Tells(q, entities, terms, ids, s, w, note) {
      assert Contribution(ids, s, Some(w), note, 0.0) in cs;
    }
  }

  lemma ToldWord(q: Query, entities: seq<Entity>, terms: seq<Term>, ids: seq<string>, cs: set<Contribution>,
      e: Evidence, w: string)
    requires AreTold(q, entities, terms, ids, cs) && Gathers(cs, ids, e)
    ensures w in e.matched <==> exists s, note :: Tells(q, entities, terms, ids, s, w, note)
  {
    if w in e.matched {
      var d :| d in cs && d.key == ids && d.matched.Some? && d.matched.value == w;
      assert Tells(q, entities, terms, ids, d.source, w, d.note);
    }
    if s, note :| Tells(q, entities, terms, ids, s, w, note) {
      assert Contribution(ids, s, Some(w), note, 0.0) in cs;
    }
  }

  lemma ToldNote(q: Query, entities: seq<Entity>, terms: seq<Term>, ids: seq<string>, cs: set<Contribution>,
      e: Evidence, note: Note)
    requires AreTold(q, entities, terms, ids, cs) && Gathers(cs, ids, e)
    ensures note in e.notes <==> exists s, w :: Tells(q, entities, terms, ids, s, w, note)
  {
    if note in e.notes {
      var d :| d in cs && d.key == ids && d.note == note;
      assert Tells(q, entities, terms, ids, d.source, d.matched.value, note);
    }
    if s, w :| Tells(q, entities, terms, ids, s, w, note) {
      assert Contribution(ids, s, Some(w), note, 0.0) in cs;
    }
  }

  lemma GatheredEvidence(q: Query, entities: seq<Entity>, terms: seq<Term>, ids: seq<string>, e: Evidence)
    requires SoundTarget(q, entities, ids) && DistinctIds(entities) && q.expression != ""
    requires Gathers(Exact(q, entities, terms), ids, e)
    ensures EvidenceIs(q, entities, terms, ids, e)
  {
    var exact := Exact(q, entities, terms);
    ExactIsTold(q, entities, terms, ids);
    forall s ensures s in e.sources <==> Says(q, entities, terms, ids, s) {
      ToldSource(q, entities, terms, ids, exact, e, s);
    }
    forall w ensures w in e.matched <==> exists s, note :: Tells(q, entities, terms, ids, s, w, note) {
      ToldWord(q, entities, terms, ids, exact, e, w);
    }
    forall note ensures note in e.notes <==> exists s, w :: Tells(q, entities, terms, ids, s, w, note) {
      ToldNote(q, entities, terms, ids, exact, e, note);
    }
  }

  /** What the context adds when a candidate has other evidence. */
  ghost predicate InContextSaid(q: Query) {
    exists v :: v in q.context && q.text.norm(v) == q.expression
  }

  /** The whole evidence of a candidate for a target that is named. */
  ghost predicate NamedEvidence(q: Query, entities: seq<Entity>, terms: seq<Term>, ids: seq<string>, e: Evidence) {
    && (forall s :: s in e.sources <==> Says(q, entities, terms, ids, s) || (s == Context && InContextSaid(q)))
    && (forall w :: w in e.matched <==> exists s, note :: Tells(q, entities, terms, ids, s, w, note))
    && (forall note :: note in e.notes <==> (exists s, w :: Tells(q, entities, terms, ids, s, w, note))
                                            || (note == ContextNote && InContextSaid(q)))
    && e.semantic == 0.0
  }

  /** The whole evidence of a candidate that only stands in. */
  ghost predicate StandInEvidence(q: Query, entities: seq<Entity>, ids: seq<string>, e: Evidence) {
    && e.sources == {SemanticFallback} && e.matched == {}
    && exists x :: x in entities && MayStandIn(q, x) && ids == [x.id] && e.notes == {FallbackNote(x.id)}
                   && BestMatch(q, x, e.semantic)
  }

  lemma ContextAdds(q: Query, entities: seq<Entity>, terms: seq<Term>, ids: seq<string>, base: Collected)
    requires ids in base && EvidenceIs(q, entities, terms, ids, base[ids]) && q.expression != ""
    ensures var m := if InContext(q) then WithContext(base) else base;
            ids in m && NamedEvidence(q, entities, terms, ids, m[ids])
  {
    assert InContext(q) <==> InContextSaid(q);
    assert !Says(q, entities, terms, ids, Context);
    assert forall s, w :: !Tells(q, entities, terms, ids, s, w, ContextNote);
  }

  // ------------------------------------------------------------ standing in

  lemma {:induction false} SimilarityIsBest(q: Query, names: seq<Option<string>>)
    ensures Similarity(q, names) >= 0.0
    ensures forall n | Some(n) in names && n != "" && q.text.norm(n) != "" ::
              q.text.ratio(q.expression, q.text.norm(n)) * 100.0 <= Similarity(q, names)
    ensures Similarity(q, names) == 0.0
            || exists n :: Some(n) in names && n != "" && q.text.norm(n) != ""
                           && q.text.ratio(q.expression, q.text.norm(n)) * 100.0 == Similarity(q, names)
  {
    if names == [] {
    } else {
      SimilarityIsBest(q, names[1..]);
      assert forall n :: Some(n) in names <==> Some(n) == names[0] || Some(n) in names[1..];
    }
  }

  lemma AllNamesAre(e: Entity, n: string)
    ensures Some(n) in AllNames(e) && n != "" <==> GoesBy(e, n)
  {
    var own := [e.friendly, e.original, e.device];
    var aliases: seq<Option<string>> := seq(|e.aliases|, i requires 0 <= i < |e.aliases| => Some(e.aliases[i]));
    var others: seq<Option<string>> :=
      seq(|e.deviceAliases|, i requires 0 <= i < |e.deviceAliases| => Some(e.deviceAliases[i]));
    assert AllNames(e) == own + aliases + others;
    SomeOf(e.aliases, aliases, n);
    SomeOf(e.deviceAliases, others, n);
    assert own[0] in own && own[1] in own && own[2] in own;
  }

  lemma SomeOf(s: seq<string>, t: seq<Option<string>>, n: string)
    requires |t| == |s| && forall i | 0 <= i < |s| :: t[i] == Some(s[i])
    ensures Some(n) in t <==> n in s
  {
    if n in s {
      var i :| 0 <= i < |s| && s[i] == n;
      assert t[i] == Some(n);
    }
  }

  lemma SimilarityMatches(q: Query, e: Entity)
    ensures BestMatch(q, e, Similarity(q, AllNames(e)))
  {
    SimilarityIsBest(q, AllNames(e));
    forall n ensures Some(n) in AllNames(e) && n != "" <==> GoesBy(e, n) {
      AllNamesAre(e, n);
    }
  }

  lemma StandsIn(q: Query, e: Entity)
    ensures FallsBack(q, e) <==> MayStandIn(q, e)
  {
    assert Eligible(q, e) <==> Controllable(q, e);
    if Contains(q.expression, "灯光") {
      var i :| 0 <= i <= |q.expression| && "灯光" <= q.expression[i..];
      assert "灯" <= q.expression[i..];
    }
  }

  /** With distinct ids each entity that stands in contributes to its own key alone. */
  lemma OneFallback(q: Query, entities: seq<Entity>, x: Entity, d: Contribution)
    requires DistinctIds(entities) && x in entities && d in Fallback(q, entities) && d.key == [x.id]
    ensures d == OfFallback(q, x)
  {
    var y :| y in entities && FallsBack(q, y) && d == OfFallback(q, y);
    assert [y.id][0] == [x.id][0];
  }

  lemma GatheredFallback(q: Query, entities: seq<Entity>, ids: seq<string>, e: Evidence, x: Entity)
    requires DistinctIds(entities) && Gathers(Fallback(q, entities), ids, e)
    requires x in entities && FallsBack(q, x) && ids == [x.id]
    ensures StandInEvidence(q, entities, ids, e)
  {
    var all, c := Fallback(q, entities), OfFallback(q, x);
    forall d | d in all && d.key == ids ensures d == c {
      OneFallback(q, entities, x, d);
    }
    assert c in all && c.key == ids;
    assert (set d | d in all && d.key == ids :: d.source) == {SemanticFallback};
    assert (set d | d in all && d.key == ids :: d.note) == {FallbackNote(x.id)};
    SimilarityMatches(q, x);
    StandsIn(q, x);
  }

  lemma FallbackEvidence(q: Query, entities: seq<Entity>, m: Collected, k: seq<string>)
    requires DistinctIds(entities) && Collects(Fallback(q, entities), m) && k in m
    ensures StandInEvidence(q, entities, k, m[k])
  {
    var d := KeyComesFrom(Fallback(q, entities), m, k);
    var x :| x in entities && FallsBack(q, x) && d == OfFallback(q, x);
    assert Gathers(Fallback(q, entities), k, m[k]);
    GatheredFallback(q, entities, k, m[k], x);
  }

  lemma NamedKey(q: Query, entities: seq<Entity>, terms: seq<Term>, base: Collected, k: seq<string>)
    requires Proper(q) && DistinctIds(entities) && q.expression != ""
    requires Collects(Exact(q, entities, terms), base) && k in base
    ensures var m := if InContext(q) then WithContext(base) else base;
            k in m && NamedEvidence(q, entities, terms, k, m[k])
  {
    ExactKey(q, entities, terms, base, k);
    assert Gathers(Exact(q, entities, terms), k, base[k]);
    GatheredEvidence(q, entities, terms, k, base[k]);
    ContextAdds(q, entities, terms, k, base);
  }

  /** The evidence tells why the target is proposed: it is named, or nothing is
      and it stands in. */
  ghost predicate Explains(q: Query, entities: seq<Entity>, terms: seq<Term>, ids: seq<string>, e: Evidence) {
    if Unnamed(q, entities, terms) then StandInEvidence(q, entities, ids, e)
    else NamedEvidence(q, entities, terms, ids, e)
  }

  lemma KeyEvidence(q: Query, entities: seq<Entity>, terms: seq<Term>, m: Collected, k: seq<string>)
    requires Proper(q) && DistinctIds(entities) && q.expression != "" && IsCollection(q, entities, terms, m) && k in m
    ensures Explains(q, entities, terms, k, m[k])
  {
    UnnamedIsFallback(q, entities, terms);
    if Unnamed(q, entities, terms) {
      FallbackEvidence(q, entities, m, k);
    } else {
      var base: Collected :|
        Collects(Exact(q, entities, terms), base) && m == if InContext(q) then WithContext(base) else base;
      NamedKey(q, entities, terms, base, k);
    }
  }

  /** The weights of the sources, one by one, and the similarity. */
  ghost predicate Weighs(e: Evidence, score: real) {
    score == (if PersonalProvisional in e.sources then 700.0 else 0.0)
             + (if PersonalApproved in e.sources then 600.0 else 0.0)
             + (if HomeShared in e.sources then 500.0 else 0.0)
             + (if HaAlias in e.sources then 400.0 else 0.0)
             + (if HaName in e.sources then 350.0 else 0.0)
             + (if Area in e.sources then 250.0 else 0.0)
             + (if Context in e.sources then 100.0 else 0.0)
             + (if SemanticFallback in e.sources then 50.0 else 0.0)
             + e.semantic
  }

  lemma ScoreWeighs(e: Evidence)
    ensures Weighs(e, Score(e))
  {
  }

  lemma CutEvidence(q: Query, entities: seq<Entity>, terms: seq<Term>, v: Version, m: Collected, ranks: seq<Rank>,
      out: seq<Candidate>, i: nat)
    requires Proper(q) && DistinctIds(entities) && q.expression != "" && IsCollection(q, entities, terms, m)
    requires IsCut(q, v, m, ranks, out) && i < |out|
    ensures Explains(q, entities, terms, out[i].targets, out[i].evidence) && out[i].score == Score(out[i].evidence)
  {
    KeyEvidence(q, entities, terms, m, ranks[i].key);
  }

  /** The candidate's target can be proposed, and its evidence and score follow
      from what was said. */
  ghost predicate MeansIt(q: Query, entities: seq<Entity>, terms: seq<Term>, c: Candidate) {
    && q.expression != "" && Proposable(q, entities, c.targets)
    && Explains(q, entities, terms, c.targets, c.evidence) && Weighs(c.evidence, c.score)
  }

  /** Every candidate stands for a target that can be controlled.  If anything
      at all is named by the expression, the candidate is, and its evidence is
      exactly the visible terms spelled so that stand for its target, the alias
      or name of its one entity, the areas so named that consist of its target,
      and the context; if nothing is, it is one entity that stands in, weighed by
      its best word. */
  lemma CandidatesMean(q: Query, catalog: Snapshot, terms: seq<Term>, out: seq<Candidate>, c: Candidate)
    requires Proper(q) && DistinctIds(catalog.entities) && IsBuild(q, catalog, terms, out) && c in out
    ensures MeansIt(q, catalog.entities, terms, c)
  {
    CandidatesAreSound(q, catalog, terms, out, c);
    SoundIsProposable(q, catalog.entities, c.targets);
    var m: Collected, ranks: seq<Rank> :|
      IsCollection(q, catalog.entities, terms, m) && IsRanking(m, ranks) && IsCut(q, catalog.version, m, ranks, out);
    var i :| 0 <= i < |out| && out[i] == c;
    CutEvidence(q, catalog.entities, terms, catalog.version, m, ranks, out, i);
    ScoreWeighs(c.evidence);
  }

  /** A target is in the dictionary exactly when it can be proposed and something
      names it, and its evidence is all of that. */
  ghost predicate CollectsWhatIsSaid(q: Query, entities: seq<Entity>, terms: seq<Term>, m: Collected) {
    && (forall ids :: ids in m <==> Proposable(q, entities, ids) && exists s :: Says(q, entities, terms, ids, s))
    && (forall ids | ids in m :: EvidenceIs(q, entities, terms, ids, m[ids]))
  }

  lemma CollectedMeans(q: Query, entities: seq<Entity>, terms: seq<Term>, m: Collected)
    requires Proper(q) && DistinctIds(entities) && q.expression != "" && Collects(Exact(q, entities, terms), m)
    ensures CollectsWhatIsSaid(q, entities, terms, m)
  {
    forall ids ensures ids in m <==> Proposable(q, entities, ids) && exists s :: Says(q, entities, terms, ids, s)
      ensures ids in m ==> EvidenceIs(q, entities, terms, ids, m[ids])
    {
      if ids in m {
        CollectedKeyMeans(q, entities, terms, m, ids);
      }
      if Proposable(q, entities, ids) {
        if s :| Says(q, entities, terms, ids, s) {
          SaidIsCollected(q, entities, terms, m, ids, s);
        }
      }
    }
  }

  lemma CollectedKeyMeans(q: Query, entities: seq<Entity>, terms: seq<Term>, m: Collected, ids: seq<string>)
    requires Proper(q) && DistinctIds(entities) && q.expression != ""
    requires Collects(Exact(q, entities, terms), m) && ids in m
    ensures Proposable(q, entities, ids) && (exists s :: Says(q, entities, terms, ids, s))
    ensures EvidenceIs(q, entities, terms, ids, m[ids])
  {
    ExactKey(q, entities, terms, m, ids);
    SoundIsProposable(q, entities, ids);
    assert Gathers(Exact(q, entities, terms), ids, m[ids]);
    GatheredEvidence(q, entities, terms, ids, m[ids]);
    var s :| s in m[ids].sources;
    assert Says(q, entities, terms, ids, s);
  }

  lemma SaidIsCollected(q: Query, entities: seq<Entity>, terms: seq<Term>, m: Collected, ids: seq<string>, s: Source)
    requires DistinctIds(entities) && q.expression != "" && Collects(Exact(q, entities, terms), m)
    requires Proposable(q, entities, ids) && Says(q, entities, terms, ids, s)
    ensures ids in m
  {
    SoundIsProposable(q, entities, ids);
    SaysIsTells(q, entities, terms, ids, s);
    var w, note :| Tells(q, entities, terms, ids, s, w, note);
    ContributionsTell(q, entities, terms, ids, s, w, note);
    assert Contribution(ids, s, Some(w), note, 0.0).key in m.Keys;
  }

  // ------------------------------------------------------- nothing is missing

  lemma NamedIsCollected(q: Query, entities: seq<Entity>, terms: seq<Term>, m: Collected, ids: seq<string>, s: Source)
    requires Proper(q) && DistinctIds(entities) && q.expression != "" && IsCollection(q, entities, terms, m)
    requires Proposable(q, entities, ids) && Says(q, entities, terms, ids, s)
    ensures ids in m
  {
    UnnamedIsFallback(q, entities, terms);
    var base: Collected :|
      Collects(Exact(q, entities, terms), base) && m == if InContext(q) then WithContext(base) else base;
    SaidIsCollected(q, entities, terms, base, ids, s);
  }

  lemma StandInIsCollected(q: Query, entities: seq<Entity>, terms: seq<Term>, m: Collected, x: Entity)
    requires Proper(q) && DistinctIds(entities) && q.expression != "" && IsCollection(q, entities, terms, m)
    requires Unnamed(q, entities, terms) && x in entities && MayStandIn(q, x)
    ensures [x.id] in m
  {
    UnnamedIsFallback(q, entities, terms);
    StandsIn(q, x);
    assert OfFallback(q, x) in Fallback(q, entities);
    assert OfFallback(q, x).key in m.Keys;
  }

  /** What ought to be proposed: whatever is named, or else whatever may stand in. */
  ghost predicate Deserves(q: Query, entities: seq<Entity>, terms: seq<Term>, ids: seq<string>) {
    if Unnamed(q, entities, terms) then exists x :: x in entities && MayStandIn(q, x) && ids == [x.id]
    else Proposable(q, entities, ids) && exists s :: Says(q, entities, terms, ids, s)
  }

  lemma DeservingIsCollected(q: Query, entities: seq<Entity>, terms: seq<Term>, m: Collected, ids: seq<string>)
    requires Proper(q) && DistinctIds(entities) && q.expression != "" && IsCollection(q, entities, terms, m)
    requires Deserves(q, entities, terms, ids)
    ensures ids in m
  {
    if Unnamed(q, entities, terms) {
      var x :| x in entities && MayStandIn(q, x) && ids == [x.id];
      StandInIsCollected(q, entities, terms, m, x);
    } else {
      var s :| Says(q, entities, terms, ids, s);
      NamedIsCollected(q, entities, terms, m, ids, s);
    }
  }

  /** The target is proposed, or the list is full of what scores at least as much. */
  predicate ProposedOrOutdone(q: Query, out: seq<Candidate>, ids: seq<string>, score: real) {
    || (exists c :: c in out && c.targets == ids)
    || (|out| == q.limit
        && forall c | c in out :: c.score > score || (c.score == score && StringsLt(c.targets, ids)))
  }

  lemma KeptOrOutdone(q: Query, entities: seq<Entity>, terms: seq<Term>, v: Version, m: Collected, ranks: seq<Rank>,
      out: seq<Candidate>, ids: seq<string>)
    requires IsCollection(q, entities, terms, m) && IsRanking(m, ranks) && IsCut(q, v, m, ranks, out) && ids in m
    ensures ProposedOrOutdone(q, out, ids, Score(m[ids]))
  {
    if forall c | c in out :: c.targets != ids {
      BestAreKept(q, entities, terms, v, m, ranks, out, ids);
      forall c | c in out ensures c.score > Score(m[ids]) || (c.score == Score(m[ids]) && StringsLt(c.targets, ids)) {
        assert RankLt(RankOf(c), Rank(Score(m[ids]), ids));
      }
    }
  }

  /** In the actor's home everything that ought to be proposed is, unless the
      list is full of candidates that score at least as much. */
  lemma NothingIsMissing(q: Query, catalog: Snapshot, terms: seq<Term>, out: seq<Candidate>, ids: seq<string>)
    returns (e: Evidence, score: real)
    requires Proper(q) && DistinctIds(catalog.entities) && IsBuild(q, catalog, terms, out)
    requires catalog.home == q.actor.home && q.expression != "" && Deserves(q, catalog.entities, terms, ids)
    ensures Explains(q, catalog.entities, terms, ids, e) && Weighs(e, score)
    ensures ProposedOrOutdone(q, out, ids, score)
  {
    var m: Collected, ranks: seq<Rank> :|
      IsCollection(q, catalog.entities, terms, m) && IsRanking(m, ranks) && IsCut(q, catalog.version, m, ranks, out);
    DeservingIsCollected(q, catalog.entities, terms, m, ids);
    KeyEvidence(q, catalog.entities, terms, m, ids);
    e, score := m[ids], Score(m[ids]);
    ScoreWeighs(e);
    KeptOrOutdone(q, catalog.entities, terms, catalog.version, m, ranks, out, ids);
  }
}
