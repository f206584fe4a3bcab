/** What every list of candidates looks like, and that it depends on sets only. */
module CandidateTheorems {
  import opened Base
  import opened Order
  import opened Catalog
  import opened Candidates

  // ------------------------------------------------- the order of the input

  lemma {:induction false} PlaceLength<T(!new)>(x: T, s: seq<T>, lt: (T, T) -> bool)
    requires x !in s
    ensures |Place(x, s, lt)| == |s| + 1
  {
    if s == [] || lt(x, s[0]) {
    } else {
      PlaceLength(x, s[1..], lt);
    }
  }

  /** Sorting a list without duplicates drops nothing. */
  lemma {:induction false} SortDistinctLength<T(!new)>(s: seq<T>, lt: (T, T) -> bool)
    requires StrictTotal(lt) && Distinct(s)
    ensures |SortDistinct(s, lt)| == |s|
  {
    if s == [] {
    } else {
      SortDistinctLength(s[1..], lt);
      SortDistinctSorts(s[1..], lt);
      assert s[0] !in Elements(s[1..]);
      PlaceLength(s[0], SortDistinct(s[1..], lt), lt);
    }
  }

  ghost function IdsInArea(q: Query, entities: seq<Entity>, area: string): set<string> {
    set e | e in entities && InArea(q, e, area) :: e.id
  }

  lemma IdsInAreaGrow(q: Query, init: seq<Entity>, last: Entity, area: string)
    ensures IdsInArea(q, init + [last], area)
         == IdsInArea(q, init, area) + (if InArea(q, last, area) then {last.id} else {})
  {
  }

  lemma {:induction false} AreaIdsAre(q: Query, entities: seq<Entity>, area: string)
    ensures Elements(AreaIds(q, entities, area)) == IdsInArea(q, entities, area)
  {
    if entities == [] {
    } else {
      var n := |entities| - 1;
      AreaIdsAre(q, entities[..n], area);
      IdsInAreaGrow(q, entities[..n], entities[n], area);
      assert entities == entities[..n] + [entities[n]];
      AppendElements(AreaIds(q, entities[..n], area), entities[n].id);
    }
  }

  lemma AppendElements<T>(s: seq<T>, x: T)
    ensures Elements(s + [x]) == Elements(s) + {x}
  {
  }

  lemma {:induction false} AreaIdsDiffer(q: Query, entities: seq<Entity>, area: string)
    requires DistinctIds(entities)
    ensures Distinct(AreaIds(q, entities, area))
  {
    if entities == [] {
    } else {
      var n := |entities| - 1;
      AreaIdsDiffer(q, entities[..n], area);
      AreaIdsAre(q, entities[..n], area);
      assert entities[n].id !in IdsInArea(q, entities[..n], area);
      assert entities[n].id !in Elements(AreaIds(q, entities[..n], area));
    }
  }

  lemma SameAreaIds(q: Query, a: seq<Entity>, b: seq<Entity>, area: string)
    requires Elements(a) == Elements(b) && DistinctIds(a) && DistinctIds(b)
    ensures SortedIds(AreaIds(q, a, area)) == SortedIds(AreaIds(q, b, area))
    ensures |AreaIds(q, a, area)| == |AreaIds(q, b, area)|
  {
    AreaIdsAre(q, a, area);
    AreaIdsAre(q, b, area);
    AreaIdsDiffer(q, a, area);
    AreaIdsDiffer(q, b, area);
    SameMembers(a, b);
    assert IdsInArea(q, a, area) == IdsInArea(q, b, area);
    StringOrder();
    SortDistinctOfSet(AreaIds(q, a, area), AreaIds(q, b, area), StringLt);
    SortDistinctLength(AreaIds(q, a, area), StringLt);
    SortDistinctLength(AreaIds(q, b, area), StringLt);
  }

  lemma SameMembers<T>(a: seq<T>, b: seq<T>)
    requires Elements(a) == Elements(b)
    ensures forall x :: x in a <==> x in b
  {
    forall x ensures x in a <==> x in b {
      assert x in Elements(a) <==> x in Elements(b);
    }
  }

  lemma SameTermPart(q: Query, a: seq<Entity>, b: seq<Entity>, s: seq<Term>, t: seq<Term>)
    requires Elements(a) == Elements(b) && Elements(s) == Elements(t)
    ensures TermPart(q, a, s) == TermPart(q, b, t)
  {
    SameMembers(a, b);
    SameMembers(s, t);
    assert forall id :: EligibleId(q, a, id) <==> EligibleId(q, b, id);
    assert forall x :: TermCounts(q, a, x) <==> TermCounts(q, b, x);
  }

  lemma SameNameParts(q: Query, a: seq<Entity>, b: seq<Entity>)
    requires Elements(a) == Elements(b)
    ensures AliasPart(q, a) == AliasPart(q, b) && NamePart(q, a) == NamePart(q, b)
    ensures Fallback(q, a) == Fallback(q, b)
  {
    SameMembers(a, b);
  }

  lemma SameAreaPart(q: Query, a: seq<Entity>, b: seq<Entity>)
    requires Elements(a) == Elements(b) && DistinctIds(a) && DistinctIds(b)
    ensures AreaPart(q, a) == AreaPart(q, b)
  {
    SameMembers(a, b);
    assert Areas(q, a) == Areas(q, b);
    forall area ensures AreaCounts(q, a, area) <==> AreaCounts(q, b, area) {
      SameAreaIds(q, a, b, area);
    }
    forall area ensures OfArea(q, a, area) == OfArea(q, b, area) {
      SameAreaIds(q, a, b, area);
    }
  }

  lemma SameCollection(q: Query, a: seq<Entity>, b: seq<Entity>, s: seq<Term>, t: seq<Term>, m: Collected, n: Collected)
    requires Exact(q, a, s) == Exact(q, b, t) && Fallback(q, a) == Fallback(q, b)
    requires IsCollection(q, a, s, m) && IsCollection(q, b, t, n)
    ensures m == n
  {
    var exact := Exact(q, a, s);
    if exact == {} {
      CollectsUnique(Fallback(q, a), m, n);
    } else {
      var x :| Collects(exact, x) && m == if InContext(q) then WithContext(x) else x;
      var y :| Collects(exact, y) && n == if InContext(q) then WithContext(y) else y;
      CollectsUnique(exact, x, y);
    }
  }

  lemma SameCut(q: Query, u: Version, v: Version, m: Collected, r: seq<Rank>, s: seq<Rank>, x: seq<Candidate>,
      y: seq<Candidate>)
    requires IsRanking(m, r) && IsRanking(m, s) && IsCut(q, u, m, r, x) && IsCut(q, v, m, s, y)
    ensures |x| == |y| && forall i | 0 <= i < |x| :: y[i] == x[i].(version := v)
  {
    RankOrder();
    SortedUnique(r, s, RankLt);
  }

  /** Listing the same devices and the same terms in another order gives the
      same candidates, in the same order, up to the catalog's version. */
  lemma BuildIsOfSets(q: Query, a: Snapshot, b: Snapshot, s: seq<Term>, t: seq<Term>, x: seq<Candidate>,
      y: seq<Candidate>)
    requires a.home == b.home && Elements(a.entities) == Elements(b.entities) && Elements(s) == Elements(t)
    requires DistinctIds(a.entities) && DistinctIds(b.entities)
    requires IsBuild(q, a, s, x) && IsBuild(q, b, t, y)
    ensures |x| == |y| && forall i | 0 <= i < |x| :: y[i] == x[i].(version := b.version)
  {
    if a.home == q.actor.home && q.expression != "" {
      SameTermPart(q, a.entities, b.entities, s, t);
      SameNameParts(q, a.entities, b.entities);
      SameAreaPart(q, a.entities, b.entities);
      assert Exact(q, a.entities, s) == Exact(q, b.entities, t);
      var m, r :| IsCollection(q, a.entities, s, m) && IsRanking(m, r) && IsCut(q, a.version, m, r, x);
      var n, u :| IsCollection(q, b.entities, t, n) && IsRanking(n, u) && IsCut(q, b.version, n, u, y);
      SameCollection(q, a.entities, b.entities, s, t, m, n);
      SameCut(q, a.version, b.version, m, r, u, x, y);
    }
  }

  // ------------------------------------------------- the shape of the output

  /** A target a candidate may carry. */
  ghost predicate SoundTarget(q: Query, entities: seq<Entity>, ids: seq<string>) {
    && 1 <= |ids| <= q.targetLimit && StrictlySorted(ids, StringLt)
    && forall id | id in ids :: EligibleId(q, entities, id)
  }

  lemma OneIsSound(q: Query, entities: seq<Entity>, e: Entity)
    requires Proper(q) && e in entities && Eligible(q, e)
    ensures SoundTarget(q, entities, [e.id])
  {
  }

  lemma AreaIsSound(q: Query, entities: seq<Entity>, area: string)
    requires area in Areas(q, entities) && AreaCounts(q, entities, area) && DistinctIds(entities)
    ensures SoundTarget(q, entities, SortedIds(AreaIds(q, entities, area)))
  {
    var ids := AreaIds(q, entities, area);
    AreaIdsAre(q, entities, area);
    AreaIdsDiffer(q, entities, area);
    SortedIdsSorts(ids);
    StringOrder();
    SortDistinctLength(ids, StringLt);
    var e :| e in entities && InArea(q, e, area);
    assert e.id in Elements(ids);
    forall id | id in SortedIds(ids) ensures EligibleId(q, entities, id) {
      assert id in Elements(SortedIds(ids));
      assert id in IdsInArea(q, entities, area);
    }
  }

  lemma ContributionIsSound(q: Query, entities: seq<Entity>, terms: seq<Term>, c: Contribution)
    requires Proper(q) && DistinctIds(entities)
    requires c in Exact(q, entities, terms) || c in Fallback(q, entities)
    ensures SoundTarget(q, entities, c.key)
  {
    if c in TermPart(q, entities, terms) {
      var t :| t in terms && TermCounts(q, entities, t) && c == OfTerm(t);
      SortedIdsSorts(t.targets);
    } else if c in AreaPart(q, entities) {
      var a :| a in Areas(q, entities) && AreaCounts(q, entities, a) && c == OfArea(q, entities, a);
      AreaIsSound(q, entities, a);
    } else {
      var e :| e in entities && Eligible(q, e) && c.key == [e.id];
      OneIsSound(q, entities, e);
    }
  }

  lemma ExactIsNoFallback(q: Query, entities: seq<Entity>, terms: seq<Term>, c: Contribution)
    requires c in Exact(q, entities, terms)
    ensures c.source != SemanticFallback
  {
  }

  /** Whether the candidates are all fallbacks: nothing else was found. */
  ghost predicate OnlyFallback(q: Query, entities: seq<Entity>, terms: seq<Term>) {
    Exact(q, entities, terms) == {}
  }

  lemma FallbackKey(q: Query, entities: seq<Entity>, terms: seq<Term>, m: Collected, k: seq<string>)
    requires Proper(q) && DistinctIds(entities) && Collects(Fallback(q, entities), m) && k in m
    ensures SoundTarget(q, entities, k) && SemanticFallback in m[k].sources
  {
    var c := KeyComesFrom(Fallback(q, entities), m, k);
    ContributionIsSound(q, entities, terms, c);
  }

  lemma ExactKey(q: Query, entities: seq<Entity>, terms: seq<Term>, m: Collected, k: seq<string>)
    requires Proper(q) && DistinctIds(entities) && Collects(Exact(q, entities, terms), m) && k in m
    ensures SoundTarget(q, entities, k) && m[k].sources != {} && SemanticFallback !in m[k].sources
  {
    var c := KeyComesFrom(Exact(q, entities, terms), m, k);
    ContributionIsSound(q, entities, terms, c);
    SourcesOf(Exact(q, entities, terms), m, k);
    forall d | d in Exact(q, entities, terms) ensures d.source != SemanticFallback {
      ExactIsNoFallback(q, entities, terms, d);
    }
  }

  lemma SourcesOf(cs: set<Contribution>, m: Collected, k: seq<string>)
    requires Collects(cs, m) && k in m
    ensures forall s | s in m[k].sources :: exists c :: c in cs && c.source == s
  {
    assert Gathers(cs, k, m[k]);
  }

  lemma ContextKey(q: Query, base: Collected, k: seq<string>)
    requires k in base && base[k].sources != {} && SemanticFallback !in base[k].sources
    ensures var m := if InContext(q) then WithContext(base) else base;
      k in m && m[k].sources != {} && SemanticFallback !in m[k].sources
  {
  }

  lemma KeyIsSound(q: Query, entities: seq<Entity>, terms: seq<Term>, m: Collected, k: seq<string>)
    requires Proper(q) && DistinctIds(entities) && IsCollection(q, entities, terms, m) && k in m
    ensures SoundTarget(q, entities, k)
    ensures m[k].sources != {}
    ensures SemanticFallback in m[k].sources <==> OnlyFallback(q, entities, terms)
  {
    if OnlyFallback(q, entities, terms) {
      FallbackKey(q, entities, terms, m, k);
    } else {
      var base: Collected :|
        Collects(Exact(q, entities, terms), base) && m == if InContext(q) then WithContext(base) else base;
      ExactKey(q, entities, terms, base, k);
      ContextKey(q, base, k);
    }
  }

  lemma KeyComesFrom(cs: set<Contribution>, m: Collected, k: seq<string>) returns (c: Contribution)
    requires Collects(cs, m) && k in m
    ensures c in cs && c.key == k && c.source in m[k].sources
  {
    assert k in m.Keys;
    c :| c in cs && c.key == k;
    assert Gathers(cs, k, m[k]);
  }

  lemma CandidateIdsDiffer(i: nat, j: nat)
    requires i < j < 100
    ensures CandidateId(i) != CandidateId(j)
  {
    assert CandidateId(i)[5] == ('0' as int + i / 10) as char && CandidateId(i)[6] == ('0' as int + i % 10) as char;
    assert CandidateId(j)[5] == ('0' as int + j / 10) as char && CandidateId(j)[6] == ('0' as int + j % 10) as char;
  }

  function RankOf(c: Candidate): Rank {
    Rank(c.score, c.targets)
  }

  /** Every candidate stands for a proper, eligible target and carries the
      catalog's version; fallback is in all of them or in none. */
  lemma CandidatesAreSound(q: Query, catalog: Snapshot, terms: seq<Term>, out: seq<Candidate>, c: Candidate)
    requires Proper(q) && DistinctIds(catalog.entities) && IsBuild(q, catalog, terms, out) && c in out
    ensures SoundTarget(q, catalog.entities, c.targets) && |c.targets| <= 20
    ensures c.version == catalog.version && c.home == catalog.home == q.actor.home
    ensures c.evidence.sources != {} && c.score == Score(c.evidence)
    ensures SemanticFallback in c.evidence.sources <==> OnlyFallback(q, catalog.entities, terms)
  {
    var m: Collected, ranks: seq<Rank> :|
      IsCollection(q, catalog.entities, terms, m) && IsRanking(m, ranks) && IsCut(q, catalog.version, m, ranks, out);
    var i :| 0 <= i < |out| && out[i] == c;
    KeyIsSound(q, catalog.entities, terms, m, ranks[i].key);
  }

  lemma CutInOrder(q: Query, v: Version, m: Collected, ranks: seq<Rank>, out: seq<Candidate>)
    requires IsRanking(m, ranks) && IsCut(q, v, m, ranks, out)
    ensures forall i | 0 <= i < |out| :: RankOf(out[i]) == ranks[i] && out[i].id == CandidateId(i + 1)
  {
    forall i | 0 <= i < |out| ensures RankOf(out[i]) == ranks[i] {
      assert ranks[i] in Elements(ranks);
    }
  }

  lemma InOrder(q: Query, v: Version, m: Collected, ranks: seq<Rank>, out: seq<Candidate>, i: nat, j: nat)
    requires IsRanking(m, ranks) && IsCut(q, v, m, ranks, out) && i < j < |out|
    ensures out[i].id != out[j].id && out[i].targets != out[j].targets && RankLt(RankOf(out[i]), RankOf(out[j]))
  {
    CutInOrder(q, v, m, ranks, out);
    CandidateIdsDiffer(i + 1, j + 1);
    assert ranks[i].key == ranks[j].key ==> ranks[i] == ranks[j];
    RankOrder();
  }

  /** Candidates come best first under distinct ids and targets. */
  lemma CandidatesInOrder(q: Query, catalog: Snapshot, terms: seq<Term>, out: seq<Candidate>, i: nat, j: nat)
    requires IsBuild(q, catalog, terms, out) && i < j < |out|
    ensures out[i].id != out[j].id && out[i].targets != out[j].targets
    ensures out[i].score > out[j].score
            || (out[i].score == out[j].score && StringsLt(out[i].targets, out[j].targets))
  {
    var m: Collected, ranks: seq<Rank> :|
      IsCollection(q, catalog.entities, terms, m) && IsRanking(m, ranks) && IsCut(q, catalog.version, m, ranks, out);
    InOrder(q, catalog.version, m, ranks, out, i, j);
  }

  predicate Numbered(out: seq<Candidate>) {
    |out| <= 20 && forall i | 0 <= i < |out| :: out[i].id == CandidateId(i + 1)
  }

  /** They are numbered from 1 and stay within the limit. */
  lemma CandidatesAreNumbered(q: Query, catalog: Snapshot, terms: seq<Term>, out: seq<Candidate>)
    requires Proper(q) && IsBuild(q, catalog, terms, out)
    ensures |out| <= q.limit && Numbered(out)
  {
  }

  lemma KeptRank(q: Query, v: Version, m: Collected, ranks: seq<Rank>, out: seq<Candidate>, j: nat)
    requires IsRanking(m, ranks) && IsCut(q, v, m, ranks, out) && j < |out|
    ensures exists c :: c in out && c.targets == ranks[j].key
  {
    assert out[j] in out;
  }

  /** The limit only ever cuts off what ranks below every candidate kept. */
  lemma BestAreKept(q: Query, entities: seq<Entity>, terms: seq<Term>, v: Version, m: Collected, ranks: seq<Rank>,
      out: seq<Candidate>, k: seq<string>)
    requires IsCollection(q, entities, terms, m) && IsRanking(m, ranks) && IsCut(q, v, m, ranks, out)
    requires k in m && forall c | c in out :: c.targets != k
    ensures |out| == q.limit && forall c | c in out :: RankLt(RankOf(c), Rank(Score(m[k]), k))
  {
    CutInOrder(q, v, m, ranks, out);
    assert Rank(Score(m[k]), k) in Elements(ranks);
    var j: nat :| j < |ranks| && ranks[j] == Rank(Score(m[k]), k);
    if j < |out| {
      KeptRank(q, v, m, ranks, out, j);
    }
  }
}
