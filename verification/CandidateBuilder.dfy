/** `CandidateBuilder.build`: the loops that fill, sort and cut the dictionary. */
module CandidateBuilder {
  import opened Base
  import opened Order
  import opened Catalog
  import opened Candidates
  import M = CandidateMeaning

  /** One entry of the dictionary, updated by `_add`. */
  function Added(m: Collected, c: Contribution): Collected {
    var had := if c.key in m then m[c.key] else Evidence({}, {}, {}, 0.0);
    m[c.key := Evidence(
        had.sources + {c.source},
        had.matched + (if c.matched.Some? then {c.matched.value} else {}),
        had.notes + {c.note},
        if c.semantic > had.semantic then c.semantic else had.semantic)]
  }

  /** Whatever was added before, adding `c` collects `c` too. */
  lemma AddCollects(cs: set<Contribution>, m: Collected, c: Contribution)
    requires Collects(cs, m)
    ensures Collects(cs + {c}, Added(m, c))
  {
    var all := cs + {c};
    var after := Added(m, c);
    forall k | k in after ensures Gathers(all, k, after[k]) {
      if k != c.key {
        OthersGather(cs, m, c, k);
      } else {
        AddGathers(cs, c, if c.key in m then m[c.key] else Evidence({}, {}, {}, 0.0));
      }
    }
    assert after.Keys == (set d | d in all :: d.key);
  }

  lemma OthersGather(cs: set<Contribution>, m: Collected, c: Contribution, k: seq<string>)
    requires k in m && k != c.key && Gathers(cs, k, m[k])
    ensures Gathers(cs + {c}, k, m[k])
  {
    var all := cs + {c};
    assert (set d | d in all && d.key == k :: d.source) == (set d | d in cs && d.key == k :: d.source);
    assert (set d | d in all && d.key == k :: d.note) == (set d | d in cs && d.key == k :: d.note);
  }

  lemma AddGathers(cs: set<Contribution>, c: Contribution, had: Evidence)
    requires Gathers(cs, c.key, had)
    ensures Gathers(cs + {c}, c.key, Added(map[c.key := had], c)[c.key])
  {
    var all := cs + {c};
    assert c in all;
    var now := Added(map[c.key := had], c)[c.key];
    assert now.semantic == c.semantic || now.semantic == had.semantic;
    if now.semantic != 0.0 && now.semantic == had.semantic {
      var d :| d in cs && d.key == c.key && d.semantic == had.semantic;
      assert d in all;
    }
  }

  method Add(m: Collected, c: Contribution, ghost cs: set<Contribution>) returns (r: Collected)
    requires Collects(cs, m)
    ensures Collects(cs + {c}, r)
  {
    AddCollects(cs, m, c);
    r := Added(m, c);
  }

  // ------------------------------------------------------------ the terms

  method Eligibles(q: Query, entities: seq<Entity>) returns (eligible: map<string, Entity>)
    requires DistinctIds(entities)
    ensures forall id :: id in eligible <==> EligibleId(q, entities, id)
  {
    eligible := map[];
    for i := 0 to |entities|
      invariant forall id | id in eligible :: EligibleId(q, entities, id)
      invariant forall j | 0 <= j < i && Eligible(q, entities[j]) :: entities[j].id in eligible
    {
      var e := entities[i];
      if Eligible(q, e) {
        eligible := eligible[e.id := e];
      }
    }
  }

  lemma TermPartGrows(q: Query, entities: seq<Entity>, terms: seq<Term>, i: nat)
    requires i < |terms|
    ensures TermPart(q, entities, terms[..i + 1])
         == TermPart(q, entities, terms[..i]) + (if TermCounts(q, entities, terms[i]) then {OfTerm(terms[i])} else {})
  {
    assert terms[..i + 1] == terms[..i] + [terms[i]];
  }

  /** The checks on one term. */
  method Counts(q: Query, eligible: map<string, Entity>, t: Term, ghost entities: seq<Entity>) returns (b: bool)
    requires forall id :: id in eligible <==> EligibleId(q, entities, id)
    ensures b == TermCounts(q, entities, t)
  {
    if !Visible(q, t) || t.term != q.expression {
      return false;
    }
    var ids := SortedIds(t.targets);
    b := 1 <= |ids| <= q.targetLimit && forall id | id in ids :: id in eligible;
  }

  method FromTerms(q: Query, entities: seq<Entity>, terms: seq<Term>) returns (m: Collected)
    requires DistinctIds(entities)
    ensures Collects(TermPart(q, entities, terms), m)
  {
    var eligible := Eligibles(q, entities);
    m := map[];
    for i := 0 to |terms|
      invariant Collects(TermPart(q, entities, terms[..i]), m)
    {
      TermPartGrows(q, entities, terms, i);
      var counts := Counts(q, eligible, terms[i], entities);
      if counts {
        m := Add(m, OfTerm(terms[i]), TermPart(q, entities, terms[..i]));
      }
    }
    assert terms[..|terms|] == terms;
  }

  // -------------------------------------------------- aliases and names

  lemma NamePartsGrow(q: Query, entities: seq<Entity>, i: nat)
    requires i < |entities|
    ensures AliasPart(q, entities[..i + 1]) == AliasPart(q, entities[..i])
         + (if Eligible(q, entities[i]) && AliasMatches(q, entities[i]) then {OfAlias(q, entities[i])} else {})
    ensures NamePart(q, entities[..i + 1]) == NamePart(q, entities[..i])
         + (if Eligible(q, entities[i]) && NameMatches(q, entities[i]) then {OfName(q, entities[i])} else {})
  {
    assert entities[..i + 1] == entities[..i] + [entities[i]];
  }

  ghost function NamesOf(q: Query, e: Entity, have: set<Contribution>): set<Contribution> {
    have + (if Eligible(q, e) && AliasMatches(q, e) then {OfAlias(q, e)} else {})
    + (if Eligible(q, e) && NameMatches(q, e) then {OfName(q, e)} else {})
  }

  method FromName(q: Query, e: Entity, before: Collected, ghost have: set<Contribution>) returns (m: Collected)
    requires Collects(have, before)
    ensures Collects(NamesOf(q, e, have), m)
  {
    m := before;
    ghost var now := have;
    if Eligible(q, e) && AliasMatches(q, e) {
      m := Add(m, OfAlias(q, e), now);
      now := now + {OfAlias(q, e)};
    }
    if Eligible(q, e) && NameMatches(q, e) {
      m := Add(m, OfName(q, e), now);
      now := now + {OfName(q, e)};
    }
    assert now == NamesOf(q, e, have);
  }

  lemma NamesGrow(q: Query, entities: seq<Entity>, i: nat, cs: set<Contribution>)
    requires i < |entities|
    ensures cs + AliasPart(q, entities[..i + 1]) + NamePart(q, entities[..i + 1])
         == NamesOf(q, entities[i], cs + AliasPart(q, entities[..i]) + NamePart(q, entities[..i]))
  {
    NamePartsGrow(q, entities, i);
  }

  method FromNames(q: Query, entities: seq<Entity>, before: Collected, ghost cs: set<Contribution>)
    returns (m: Collected)
    requires Collects(cs, before)
    ensures Collects(cs + AliasPart(q, entities) + NamePart(q, entities), m)
  {
    m := before;
    assert cs + AliasPart(q, []) + NamePart(q, []) == cs;
    for i := 0 to |entities|
      invariant Collects(cs + AliasPart(q, entities[..i]) + NamePart(q, entities[..i]), m)
    {
      ghost var have := cs + AliasPart(q, entities[..i]) + NamePart(q, entities[..i]);
      NamesGrow(q, entities, i, cs);
      m := FromName(q, entities[i], m, have);
    }
    assert entities[..|entities|] == entities;
  }

  // ------------------------------------------------------------ areas

  lemma AreasGrow(q: Query, entities: seq<Entity>, i: nat)
    requires i < |entities|
    ensures Areas(q, entities[..i + 1]) == Areas(q, entities[..i])
         + (if entities[i].area.Some? && InArea(q, entities[i], entities[i].area.value)
            then {entities[i].area.value} else {})
    ensures forall a ::
      AreaIds(q, entities[..i + 1], a)
      == AreaIds(q, entities[..i], a) + (if InArea(q, entities[i], a) then [entities[i].id] else [])
  {
    assert entities[..i + 1] == entities[..i] + [entities[i]];
    assert entities[..i + 1][..i] == entities[..i];
  }

  lemma {:induction false} NoAreaNoIds(q: Query, entities: seq<Entity>, area: string)
    requires area !in Areas(q, entities)
    ensures AreaIds(q, entities, area) == []
  {
    if entities == [] {
    } else {
      var n := |entities| - 1;
      AreasGrow(q, entities, n);
      assert entities[..n + 1] == entities;
      NoAreaNoIds(q, entities[..n], area);
    }
  }

  method Groups(q: Query, entities: seq<Entity>) returns (groups: map<string, seq<string>>)
    ensures groups.Keys == Areas(q, entities)
    ensures forall a | a in groups :: groups[a] == AreaIds(q, entities, a)
  {
    groups := map[];
    for i := 0 to |entities|
      invariant groups.Keys == Areas(q, entities[..i])
      invariant forall a | a in groups :: groups[a] == AreaIds(q, entities[..i], a)
    {
      var e := entities[i];
      AreasGrow(q, entities, i);
      if e.area.Some? && InArea(q, e, e.area.value) {
        if e.area.value !in groups {
          NoAreaNoIds(q, entities[..i], e.area.value);
          groups := groups[e.area.value := []];
        }
        groups := groups[e.area.value := groups[e.area.value] + [e.id]];
      }
    }
    assert entities[..|entities|] == entities;
  }

  ghost function SomeAreas(q: Query, entities: seq<Entity>, areas: set<string>): set<Contribution> {
    set a | a in areas && AreaCounts(q, entities, a) :: OfArea(q, entities, a)
  }

  lemma OneMoreArea(q: Query, entities: seq<Entity>, done: set<string>, a: string, cs: set<Contribution>)
    requires a in Areas(q, entities)
    ensures cs + SomeAreas(q, entities, done + {a})
         == if |AreaIds(q, entities, a)| <= q.targetLimit
            then (cs + SomeAreas(q, entities, done)) + {OfArea(q, entities, a)}
            else cs + SomeAreas(q, entities, done)
  {
  }

  method FromAreas(q: Query, entities: seq<Entity>, before: Collected, ghost cs: set<Contribution>)
    returns (m: Collected)
    requires Collects(cs, before)
    ensures Collects(cs + AreaPart(q, entities), m)
  {
    var groups := Groups(q, entities);
    m := before;
    var rest := groups.Keys;
    ghost var done: set<string> := {};
    assert cs + SomeAreas(q, entities, {}) == cs;
    while rest != {}
      invariant done + rest == groups.Keys
      invariant Collects(cs + SomeAreas(q, entities, done), m)
      decreases |rest|
    {
      var a :| a in rest;
      rest := rest - {a};
      ghost var have := cs + SomeAreas(q, entities, done);
      OneMoreArea(q, entities, done, a, cs);
      if |groups[a]| <= q.targetLimit {
        m := Add(m, Contribution(SortedIds(groups[a]), Area, Some(a), AreaNote(a), 0.0), have);
      }
      done := done + {a};
    }
    assert SomeAreas(q, entities, done) == AreaPart(q, entities);
  }

  // ------------------------------------------- fallback and the ranking

  lemma FallbackGrows(q: Query, entities: seq<Entity>, i: nat)
    requires i < |entities|
    ensures Fallback(q, entities[..i + 1]) == Fallback(q, entities[..i])
         + (if FallsBack(q, entities[i]) then {OfFallback(q, entities[i])} else {})
  {
    assert entities[..i + 1] == entities[..i] + [entities[i]];
  }

  method FromSimilarity(q: Query, entities: seq<Entity>) returns (m: Collected)
    ensures Collects(Fallback(q, entities), m)
  {
    m := map[];
    for i := 0 to |entities|
      invariant Collects(Fallback(q, entities[..i]), m)
    {
      FallbackGrows(q, entities, i);
      if FallsBack(q, entities[i]) {
        m := Add(m, OfFallback(q, entities[i]), Fallback(q, entities[..i]));
      }
    }
    assert entities[..|entities|] == entities;
  }

  ghost function RanksOf(m: Collected, keys: set<seq<string>>): set<Rank>
    requires keys <= m.Keys
  {
    set k | k in keys :: Rank(Score(m[k]), k)
  }

  method Ranked(m: Collected) returns (ranks: seq<Rank>)
    ensures IsRanking(m, ranks)
  {
    RankOrder();
    ranks := [];
    var rest := m.Keys;
    ghost var done: set<seq<string>> := {};
    while rest != {}
      invariant done + rest == m.Keys
      invariant StrictlySorted(ranks, RankLt) && Elements(ranks) == RanksOf(m, done)
      decreases |rest|
    {
      var k :| k in rest;
      rest := rest - {k};
      var r := Rank(Score(m[k]), k);
      PlaceSorted(r, ranks, RankLt);
      PlaceElements(r, ranks, RankLt);
      ranks := Place(r, ranks, RankLt);
      assert RanksOf(m, done + {k}) == RanksOf(m, done) + {r};
      done := done + {k};
    }
    assert RanksOf(m, done) == (set k | k in m :: Rank(Score(m[k]), k));
  }

  lemma RankedKey(m: Collected, ranks: seq<Rank>, i: nat)
    requires IsRanking(m, ranks) && i < |ranks|
    ensures ranks[i].key in m && ranks[i].score == Score(m[ranks[i].key])
  {
    assert ranks[i] in Elements(ranks);
  }

  method Cut(q: Query, version: Version, m: Collected, ranks: seq<Rank>) returns (out: seq<Candidate>)
    requires Proper(q) && IsRanking(m, ranks)
    ensures IsCut(q, version, m, ranks, out)
  {
    out := [];
    var n := Min(|ranks|, q.limit);
    for i := 0 to n
      invariant |out| == i
      invariant forall j | 0 <= j < i ::
        && ranks[j].key in m
        && out[j] == Candidate(CandidateId(j + 1), ranks[j].key, m[ranks[j].key], Score(m[ranks[j].key]), version,
                               q.actor.home)
    {
      RankedKey(m, ranks, i);
      var e := m[ranks[i].key];
      out := out + [Candidate(CandidateId(i + 1), ranks[i].key, e, Score(e), version, q.actor.home)];
    }
  }

  lemma CollectsNothing(cs: set<Contribution>, m: Collected)
    requires Collects(cs, m)
    ensures m == map[] <==> cs == {}
  {
    if cs != {} {
      var c :| c in cs;
      assert c.key in m.Keys;
    } else {
      assert m.Keys == {};
    }
  }

  /** The three passes.  A target is collected exactly when it can be proposed
      and the expression names it, with all that names it and nothing else. */
  method Collect(q: Query, entities: seq<Entity>, terms: seq<Term>) returns (m: Collected)
    requires DistinctIds(entities)
    ensures Collects(Exact(q, entities, terms), m)
    ensures Proper(q) && q.expression != "" ==> M.CollectsWhatIsSaid(q, entities, terms, m)
  {
    m := FromTerms(q, entities, terms);
    m := FromNames(q, entities, m, TermPart(q, entities, terms));
    m := FromAreas(q, entities, m, TermPart(q, entities, terms) + AliasPart(q, entities) + NamePart(q, entities));
    if Proper(q) && q.expression != "" {
      M.CollectedMeans(q, entities, terms, m);
    }
  }

  /** The dictionary as it is sorted: context added, or the fallback instead. */
  method Complete(q: Query, entities: seq<Entity>, base: Collected, ghost terms: seq<Term>) returns (m: Collected)
    requires Collects(Exact(q, entities, terms), base)
    ensures IsCollection(q, entities, terms, m)
  {
    m := base;
    CollectsNothing(Exact(q, entities, terms), base);
    if InContext(q) {
      m := WithContext(m);
    }
    if m.Keys == {} {
      assert m == map[];
      m := FromSimilarity(q, entities);
    }
  }

  method Build(q: Query, catalog: Snapshot, terms: seq<Term>) returns (out: seq<Candidate>)
    requires Proper(q) && DistinctIds(catalog.entities)
    ensures IsBuild(q, catalog, terms, out)
    // nothing for a foreign home; every candidate is explained by what was said
    ensures catalog.home != q.actor.home ==> out == []
    ensures forall c | c in out :: M.MeansIt(q, catalog.entities, terms, c)
  {
    if catalog.home != q.actor.home || q.expression == "" {
      return [];
    }
    var m := Collect(q, catalog.entities, terms);
    m := Complete(q, catalog.entities, m, terms);
    var ranks := Ranked(m);
    out := Cut(q, catalog.version, m, ranks);
    forall c | c in out ensures M.MeansIt(q, catalog.entities, terms, c) {
      M.CandidatesMean(q, catalog, terms, out, c);
    }
  }
}
