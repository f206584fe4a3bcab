/** Asking back: the choices shown, and the candidate that means all of them. */
module Clarification {
  import opened Base
  import opened Order
  import opened Catalog
  import opened Candidates
  import opened CandidateTheorems
  import opened Verifier

  // ------------------------------------------------------ which are shown

  predicate Known(cands: seq<Candidate>, id: string) {
    exists c :: c in cands && c.id == id
  }

  function IdsOf(cands: seq<Candidate>): seq<string> {
    seq(|cands|, i requires 0 <= i < |cands| => cands[i].id)
  }

  /** The chosen candidate, its alternatives, and the rest. */
  function Preferred(d: Decision, cands: seq<Candidate>): seq<string> {
    (if d.selected.Some? then [d.selected.value] else []) + d.alternatives + IdsOf(cands)
  }

  /** The known ids in the list, each at its first place. */
  function Firsts(ids: seq<string>, cands: seq<Candidate>): seq<string> {
    if ids == [] then []
    else
      var n := |ids| - 1;
      var before := Firsts(ids[..n], cands);
      if Known(cands, ids[n]) && ids[n] !in before then before + [ids[n]] else before
  }

  function UpTo3(s: seq<string>): seq<string> {
    if |s| <= 3 then s else s[..3]
  }

  lemma {:induction false} FirstsExtend(ids: seq<string>, cands: seq<Candidate>, i: nat)
    requires i <= |ids|
    ensures Firsts(ids[..i], cands) <= Firsts(ids, cands)
  {
    if i < |ids| {
      var n := |ids| - 1;
      FirstsExtend(ids[..n], cands, i);
      assert ids[..n][..i] == ids[..i];
    } else {
      assert ids[..i] == ids;
    }
  }

  lemma FirstsStep(ids: seq<string>, cands: seq<Candidate>, i: nat)
    requires i < |ids|
    ensures var before := Firsts(ids[..i], cands);
            Firsts(ids[..i + 1], cands)
            == if Known(cands, ids[i]) && ids[i] !in before then before + [ids[i]] else before
  {
    assert ids[..i + 1][..i] == ids[..i];
  }

  method ChoiceIds(d: Decision, cands: seq<Candidate>) returns (unique: seq<string>)
    ensures unique == UpTo3(Firsts(Preferred(d, cands), cands))
  {
    var preferred := Preferred(d, cands);
    unique := [];
    for i := 0 to |preferred|
      invariant unique == Firsts(preferred[..i], cands) && |unique| < 3
    {
      FirstsStep(preferred, cands, i);
      if Known(cands, preferred[i]) && preferred[i] !in unique {
        unique := unique + [preferred[i]];
      }
      if |unique| == 3 {
        FirstsExtend(preferred, cands, i + 1);
        return;
      }
    }
    assert preferred[..|preferred|] == preferred;
  }

  lemma {:induction false} FirstsAre(ids: seq<string>, cands: seq<Candidate>)
    ensures Distinct(Firsts(ids, cands))
    ensures forall id :: id in Firsts(ids, cands) <==> id in ids && Known(cands, id)
  {
    if ids == [] {
    } else {
      var n := |ids| - 1;
      FirstsAre(ids[..n], cands);
      assert ids == ids[..n] + [ids[n]];
    }
  }

  lemma {:induction false} DistinctSize<T>(s: seq<T>)
    requires Distinct(s)
    ensures |Elements(s)| == |s|
  {
    if s == [] {
    } else {
      var n := |s| - 1;
      DistinctSize(s[..n]);
      assert s == s[..n] + [s[n]];
      AppendElements(s[..n], s[n]);
      assert s[n] !in Elements(s[..n]);
    }
  }

  /** The choices are distinct known candidates, three where there are three,
      and a known selection comes first. */
  lemma ChoicesAre(d: Decision, cands: seq<Candidate>)
    requires DistinctCandidates(cands)
    ensures var ids := UpTo3(Firsts(Preferred(d, cands), cands));
      && Distinct(ids) && (forall id | id in ids :: Known(cands, id))
      && |ids| == (if |cands| < 3 then |cands| else 3)
      && (d.selected.Some? && Known(cands, d.selected.value) ==> ids != [] && ids[0] == d.selected.value)
  {
    var p := Preferred(d, cands);
    var all := Firsts(p, cands);
    FirstsAre(p, cands);
    DistinctSize(all);
    DistinctSize(IdsOf(cands));
    AllIdsPreferred(d, cands);
    assert Elements(all) == Elements(IdsOf(cands));
    if d.selected.Some? && Known(cands, d.selected.value) {
      FirstsExtend(p, cands, 1);
      assert p[..1] == [d.selected.value] && p[..1][..0] == [];
      assert Firsts(p[..1], cands) == [d.selected.value];
    }
  }

  lemma AllIdsPreferred(d: Decision, cands: seq<Candidate>)
    ensures forall id :: id in IdsOf(cands) <==> id in Preferred(d, cands) && Known(cands, id)
  {
    forall id ensures id in IdsOf(cands) <==> Known(cands, id) {
      if Known(cands, id) {
        var c :| c in cands && c.id == id;
        var i :| 0 <= i < |cands| && cands[i] == c;
        assert IdsOf(cands)[i] == id;
      }
      if id in IdsOf(cands) {
        var i :| 0 <= i < |cands| && IdsOf(cands)[i] == id;
        assert cands[i] in cands;
      }
    }
  }

  // -------------------------------------------------- "all of them"

  const ALL_ID := "cand_99"

  /** The normalized answers that ask for every choice. */
  function AllWords(action: Action): set<string> {
    {"全部", "全都", "都要"} +
    match action
    case TurnOn => {"都打开", "都开启", "全部打开", "两盏都开", "两盏都打开", "两个都打开"}
    case TurnOff =>
      {"都关闭", "都关掉", "全部关闭", "全部关掉", "两盏都关", "两盏都关闭", "两个都关闭"}
    case SetBrightness => {"都调", "全部都调"}
  }

  /** No answer asks for another action than the one that was meant: opening is
      only said of turning on, closing of turning off, adjusting of brightness. */
  lemma WordsFitTheirAction(action: Action, answer: string)
    requires answer in AllWords(action)
    ensures '开' in answer ==> action == TurnOn
    ensures '关' in answer ==> action == TurnOff
    ensures '调' in answer ==> action == SetBrightness
    ensures '全' in answer || '都' in answer
  {
  }

  /** The candidates shown, by id. */
  predicate Shown(cands: seq<Candidate>, ids: seq<string>, c: Candidate) {
    c.id in ids && LastWith(cands, c.id, CandidateIdOf) == Some(c)
  }

  ghost predicate InSome(cands: seq<Candidate>, ids: seq<string>, id: string) {
    exists c :: c in cands && Shown(cands, ids, c) && id in c.targets
  }

  /** Everything the choices stand for. */
  ghost function UnionOf(cands: seq<Candidate>, ids: seq<string>): set<string> {
    set c, id | c in cands && Shown(cands, ids, c) && id in c.targets :: id
  }

  ghost predicate Alike(cands: seq<Candidate>, ids: seq<string>) {
    forall c, e | c in cands && e in cands && Shown(cands, ids, c) && Shown(cands, ids, e) ::
      c.version == e.version && c.home == e.home
  }

  ghost predicate AllAllowed(action: Action, answer: string, cands: seq<Candidate>, ids: seq<string>) {
    && answer in AllWords(action) && |ids| >= 2
    && (forall id | id in ids :: Known(cands, id))
    && 1 <= |UnionOf(cands, ids)| <= 20 && Alike(cands, ids)
  }

  /** `c` stands for the choices together. */
  ghost predicate IsAll(cands: seq<Candidate>, ids: seq<string>, c: Candidate) {
    && c.id == ALL_ID && StrictlySorted(c.targets, StringLt) && Elements(c.targets) == UnionOf(cands, ids)
    && forall e | e in cands && Shown(cands, ids, e) :: c.version == e.version && c.home == e.home
  }

  function TargetsOf(picked: seq<Candidate>): seq<string> {
    if picked == [] then [] else picked[0].targets + TargetsOf(picked[1..])
  }

  lemma {:induction false} TargetsOfAre(picked: seq<Candidate>)
    ensures forall id :: id in TargetsOf(picked) <==> exists c :: c in picked && id in c.targets
  {
    if picked == [] {
    } else {
      TargetsOfAre(picked[1..]);
      assert picked == [picked[0]] + picked[1..];
    }
  }

  /** The candidates for the ids that are known, in order. */
  method Picked(cands: seq<Candidate>, ids: seq<string>) returns (picked: seq<Candidate>)
    ensures forall c :: c in picked <==> c in cands && Shown(cands, ids, c)
    ensures |picked| <= |ids|
    ensures |picked| == |ids| <==> forall id | id in ids :: Known(cands, id)
  {
    var byId := Index(cands, CandidateIdOf);
    picked := [];
    for i := 0 to |ids|
      invariant forall c | c in picked :: c in cands && Shown(cands, ids[..i], c)
      invariant forall j | 0 <= j < i && ids[j] in byId :: byId[ids[j]] in picked
      invariant |picked| <= i
      invariant |picked| == i <==> forall j | 0 <= j < i :: ids[j] in byId
    {
      LastWithIs(cands, ids[i], CandidateIdOf);
      if ids[i] in byId {
        picked := picked + [byId[ids[i]]];
      }
      assert ids[..i + 1] == ids[..i] + [ids[i]];
    }
    assert ids[..|ids|] == ids;
    forall id ensures id in byId <==> Known(cands, id) {
      LastWithIs(cands, id, CandidateIdOf);
    }
  }

  lemma {:induction false} SortedDistinct(s: seq<string>)
    requires StrictlySorted(s, StringLt)
    ensures |Elements(s)| == |s|
  {
    StringOrder();
    DistinctSize(s);
  }

  lemma UnionIs(cands: seq<Candidate>, ids: seq<string>, picked: seq<Candidate>)
    requires forall c :: c in picked <==> c in cands && Shown(cands, ids, c)
    ensures Elements(TargetsOf(picked)) == UnionOf(cands, ids)
  {
    TargetsOfAre(picked);
  }

  predicate AllAlike(picked: seq<Candidate>) {
    picked != [] && forall c | c in picked :: c.version == picked[0].version && c.home == picked[0].home
  }

  /** The picked candidates as one. */
  method Joined(expression: string, picked: seq<Candidate>) returns (r: Option<Candidate>)
    requires picked != []
    ensures r.Some? <==> 1 <= |Elements(TargetsOf(picked))| <= 20 && AllAlike(picked)
    ensures r.Some? ==>
      && r.value.id == ALL_ID && r.value.version == picked[0].version && r.value.home == picked[0].home
      && StrictlySorted(r.value.targets, StringLt) && Elements(r.value.targets) == Elements(TargetsOf(picked))
  {
    var targets := SortedIds(TargetsOf(picked));
    SortedIdsSorts(TargetsOf(picked));
    SortedDistinct(targets);
    if targets == [] || |targets| > 20 || !AllAlike(picked) {
      return None;
    }
    return Some(Candidate(ALL_ID, targets,
      Evidence({ClarificationAll}, {expression}, set c | c in picked :: ChoiceNote(c.id), 0.0),
      0.0, picked[0].version, picked[0].home));
  }

  method AllCandidate(action: Action, expression: string, answer: string, cands: seq<Candidate>, ids: seq<string>)
    returns (r: Option<Candidate>)
    ensures r.Some? <==> AllAllowed(action, answer, cands, ids)
    ensures r.Some? ==> IsAll(cands, ids, r.value)
  {
    if answer !in AllWords(action) || |ids| < 2 {
      return None;
    }
    var picked := Picked(cands, ids);
    if |picked| != |ids| {
      return None;
    }
    UnionIs(cands, ids, picked);
    r := Joined(expression, picked);
  }

  /** The id of "all" is never one of the numbered candidates. */
  lemma AllIsNew(out: seq<Candidate>)
    requires Numbered(out)
    ensures forall c | c in out :: c.id != ALL_ID
  {
    forall i | 0 <= i < |out| ensures out[i].id != ALL_ID {
      CandidateIdsDiffer(i + 1, 99);
    }
  }

  lemma StillDistinct(out: seq<Candidate>, c: Candidate)
    requires DistinctCandidates(out) && forall e | e in out :: e.id != c.id
    ensures DistinctCandidates(out + [c])
  {
  }

  lemma AllIsProposed(q: Query, built: Snapshot, answer: string, cands: seq<Candidate>, ids: seq<string>, c: Candidate)
    requires forall e | e in cands :: Proposed(q, built, e)
    requires AllAllowed(q.action, answer, cands, ids) && IsAll(cands, ids, c)
    ensures Proposed(q, built, c)
  {
    SortedDistinct(c.targets);
    forall id | id in c.targets ensures InSome(cands, ids, id) {
      assert id in Elements(c.targets);
    }
    assert InSome(cands, ids, c.targets[0]);
  }

  lemma KnownShown(cands: seq<Candidate>, ids: seq<string>, id: string) returns (c: Candidate)
    requires id in ids && Known(cands, id)
    ensures c in cands && c.id == id && Shown(cands, ids, c)
  {
    LastWithIs(cands, id, CandidateIdOf);
    c := LastWith(cands, id, CandidateIdOf).value;
  }

  /** For choices among built candidates only the answer, the number of
      choices and the size of the union matter. */
  lemma AllAllowedExactlyWhen(q: Query, built: Snapshot, answer: string, cands: seq<Candidate>, ids: seq<string>)
    requires forall c | c in cands :: Proposed(q, built, c)
    requires forall id | id in ids :: Known(cands, id)
    ensures AllAllowed(q.action, answer, cands, ids)
       <==> answer in AllWords(q.action) && |ids| >= 2 && |UnionOf(cands, ids)| <= 20
  {
    if |ids| >= 2 {
      var c := KnownShown(cands, ids, ids[0]);
      assert Proposed(q, built, c);
      assert c.targets[0] in c.targets;
      assert c.targets[0] in UnionOf(cands, ids);
    }
  }

  /** Answering "all" to choices among built candidates is verified exactly
      when the catalog is unchanged and everything in the union of the choices
      is available. */
  lemma AllVerdict(q: Query, built: Snapshot, terms: seq<Term>, out: seq<Candidate>, answer: string, ids: seq<string>,
      all: Candidate, now: Snapshot, threshold: real)
    requires Proper(q) && Valid(built) && Valid(now) && IsBuild(q, built, terms, out) && threshold <= 1.0
    requires AllAllowed(q.action, answer, out, ids) && IsAll(out, ids, all)
    ensures Verdict(threshold, Decision(Selected, Some(ALL_ID), 1.0, []), out + [all], q.actor, q.action, Some(now))
         == if now.home != q.actor.home then Err(OutsideHome)
            else if now.version != built.version then Err(CatalogChanged)
            else if exists id :: id in UnionOf(out, ids) && !AvailableNow(now, id) then Err(Unavailable)
            else Ok(Verified(q.actor.home, ALL_ID, all.targets, built.version, q.action))
  {
    BuiltIsProposed(q, built, terms, out);
    AllIsProposed(q, built, answer, out, ids, all);
    CandidatesAreNumbered(q, built, terms, out);
    AllIsNew(out);
    StillDistinct(out, all);
    ProposedVerdict(q, built, now, all, out + [all], Decision(Selected, Some(ALL_ID), 1.0, []), threshold);
    forall id ensures id in all.targets <==> id in UnionOf(out, ids) {
      assert id in Elements(all.targets) <==> id in UnionOf(out, ids);
    }
  }
}
