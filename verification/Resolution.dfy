/** The two rounds in which a command's target is resolved. */
module Resolution {
  import opened Base
  import opened Order
  import opened Catalog
  import opened Candidates
  import opened CandidateBuilder
  import opened Verifier

  /** What the surroundings answer in one round: the catalog, the terms, the
      decision of the language model, and the catalog read again to verify.
      `None` is a dependency error. */
  datatype Round = Round(
    catalog: Option<Snapshot>, terms: Option<seq<Term>>, decision: Option<Decision>, refreshed: Option<Snapshot>)

  datatype Outcome =
    | DeviceError
    | Clarify(decision: Decision, candidates: seq<Candidate>)
    | Execute(verified: Verified)

  const NO_CANDIDATES := Decision(NoMatch, None, 0.0, [])

  /** Catalogs come from the catalog provider, so they are valid. */
  predicate Plausible(r: Round) {
    (r.catalog.Some? ==> Valid(r.catalog.value)) && (r.refreshed.Some? ==> Valid(r.refreshed.value))
  }

  /** A round that reads the catalog and the terms and builds `cands`. */
  ghost predicate Builds(q: Query, r: Round, cands: seq<Candidate>) {
    r.catalog.Some? && r.terms.Some? && IsBuild(q, r.catalog.value, r.terms.value, cands)
  }

  /** What one round comes to, given its candidates; `None` asks for another,
      which only a changed catalog in the first round does. */
  function RoundResult(q: Query, threshold: real, r: Round, cands: seq<Candidate>, last: bool): Option<Outcome> {
    if cands == [] then Some(Clarify(NO_CANDIDATES, []))
    else if r.decision.None? then Some(DeviceError)
    else match Verdict(threshold, r.decision.value, cands, q.actor, q.action, r.refreshed)
      case Ok(v) => Some(Execute(v))
      case Err(e) =>
        if e == CatalogUnavailable then Some(DeviceError)
        else if e == CatalogChanged && !last then None
        else Some(Clarify(r.decision.value, cands))
  }

  predicate Readable(r: Round) {
    r.catalog.Some? && r.terms.Some?
  }

  ghost predicate EndsIn(q: Query, threshold: real, r: Round, last: bool, o: Outcome, cands: seq<Candidate>) {
    if Readable(r) then Builds(q, r, cands) && RoundResult(q, threshold, r, cands, last) == Some(o)
    else o == DeviceError
  }

  ghost predicate AsksAgain(q: Query, threshold: real, r: Round) {
    Readable(r) && exists cands :: Builds(q, r, cands) && RoundResult(q, threshold, r, cands, false).None?
  }

  method Judged(q: Query, threshold: real, r: Round, cands: seq<Candidate>, last: bool) returns (o: Option<Outcome>)
    ensures o == RoundResult(q, threshold, r, cands, last)
  {
    if cands == [] {
      return Some(Clarify(NO_CANDIDATES, cands));
    }
    if r.decision.None? {
      return Some(DeviceError);
    }
    var v := Verify(threshold, r.decision.value, cands, q.actor, q.action, r.refreshed);
    if v.Ok? {
      return Some(Execute(v.value));
    }
    if v.error == CatalogUnavailable {
      return Some(DeviceError);
    }
    if Retryable(v.error) && !last {
      return None;
    }
    return Some(Clarify(r.decision.value, cands));
  }

  method OneRound(q: Query, threshold: real, r: Round, last: bool)
    returns (o: Option<Outcome>, cands: seq<Candidate>)
    requires Proper(q) && Plausible(r)
    ensures o.Some? ==> EndsIn(q, threshold, r, last, o.value, cands)
    ensures o.None? ==> !last && AsksAgain(q, threshold, r)
  {
    if r.catalog.None? || r.terms.None? {
      return Some(DeviceError), [];
    }
    cands := Build(q, r.catalog.value, r.terms.value);
    o := Judged(q, threshold, r, cands, last);
  }

  /** How the command ended: whether in the second round, and with what candidates. */
  datatype End = End(outcome: Outcome, again: bool, cands: seq<Candidate>)

  /** The loop always returns: the second round never asks for a third. */
  method Resolve(q: Query, threshold: real, first: Round, second: Round) returns (e: End)
    requires Proper(q) && Plausible(first) && Plausible(second)
    ensures e.again ==> AsksAgain(q, threshold, first) && EndsIn(q, threshold, second, true, e.outcome, e.cands)
    ensures !e.again ==> EndsIn(q, threshold, first, false, e.outcome, e.cands)
  {
    for i := 0 to 2
      invariant i < 2 && (i == 1 ==> AsksAgain(q, threshold, first))
    {
      var o, cands := OneRound(q, threshold, if i == 0 then first else second, i == 1);
      if o.Some? {
        return End(o.value, i == 1, cands);
      }
    }
    assert false;
  }

  /** Whatever the language model decided, a target that is executed consists
      of entities that were eligible in the catalog the candidates came from,
      are fit in the catalog read afterwards, and describe the same devices. */
  lemma ExecutedTargetIsSound(q: Query, threshold: real, r: Round, last: bool, o: Outcome,
      cands: seq<Candidate>)
    requires Proper(q) && Plausible(r) && EndsIn(q, threshold, r, last, o, cands) && o.Execute?
    ensures Readable(r) && r.refreshed.Some? && r.refreshed.value.version == r.catalog.value.version
    ensures var v := o.verified;
      && v.home == q.actor.home && v.action == q.action
      && 1 <= |v.targets| <= 20 && StrictlySorted(v.targets, StringLt)
      && forall id | id in v.targets ::
           EligibleId(q, r.catalog.value.entities, id) && Fit(r.refreshed.value, id, q.actor.home, q.action)
  {
    var built, now := r.catalog.value, r.refreshed.value;
    BuiltIsProposed(q, built, r.terms.value, cands);
    VerifiedMeansFit(threshold, r.decision.value, cands, q.actor, q.action, now);
    var v := o.verified;
    var c: Candidate :| c in cands && c.id == v.candidate && c.targets == v.targets && c.version == v.version;
    assert Proposed(q, built, c);
  }

  /** With the decision sure of a known candidate and the catalog unchanged, a
      round either executes that candidate or finds part of it unavailable. */
  lemma SureDecisionExecutes(q: Query, threshold: real, r: Round, last: bool, o: Outcome,
      cands: seq<Candidate>, c: Candidate)
    requires Proper(q) && Plausible(r) && Readable(r) && EndsIn(q, threshold, r, last, o, cands)
    requires r.decision.Some? && c in cands && Selects(r.decision.value, threshold, c)
    requires r.refreshed.Some? && r.refreshed.value.version == r.catalog.value.version
    ensures o.Execute? <==> forall id | id in c.targets :: AvailableNow(r.refreshed.value, id)
    ensures o.Execute? ==> o.verified.targets == c.targets && o.verified.candidate == c.id
    ensures !o.Execute? ==> o == Clarify(r.decision.value, cands)
  {
    BuiltVerdict(q, r.catalog.value, r.terms.value, cands, r.refreshed.value, c, r.decision.value, threshold);
    BuiltIsProposed(q, r.catalog.value, r.terms.value, cands);
    assert Proposed(q, r.catalog.value, c);
  }

  /** Without candidates the command asks back with none; with a catalog, terms
      or decision missing it ends in an error. */
  lemma RoundWithoutChoice(q: Query, threshold: real, r: Round, last: bool, o: Outcome, cands: seq<Candidate>)
    requires EndsIn(q, threshold, r, last, o, cands)
    ensures r.catalog.None? || r.terms.None? ==> o == DeviceError
    ensures r.catalog.Some? && r.terms.Some? && cands == [] ==>
              o == Clarify(Decision(NoMatch, None, 0.0, []), [])
    ensures r.catalog.Some? && r.terms.Some? && cands != [] && r.decision.None? ==> o == DeviceError
  {
  }

  /** The decision surely points at a candidate, and the catalog read to verify
      it is of the home and is not the one the candidates came from. */
  ghost predicate CatalogMoved(q: Query, threshold: real, r: Round, cands: seq<Candidate>) {
    && Readable(r) && r.decision.Some? && r.refreshed.Some? && r.refreshed.value.home == q.actor.home
    && r.refreshed.value.version != r.catalog.value.version
    && exists c :: c in cands && Selects(r.decision.value, threshold, c)
  }

  lemma MovedAsksAgain(q: Query, threshold: real, r: Round, cands: seq<Candidate>)
    requires Proper(q) && Plausible(r) && Builds(q, r, cands) && CatalogMoved(q, threshold, r, cands)
    ensures Verdict(threshold, r.decision.value, cands, q.actor, q.action, r.refreshed) == Err(CatalogChanged)
  {
    var c :| c in cands && Selects(r.decision.value, threshold, c);
    BuiltVerdict(q, r.catalog.value, r.terms.value, cands, r.refreshed.value, c, r.decision.value, threshold);
  }

  lemma AgainIsMoved(q: Query, threshold: real, r: Round, cands: seq<Candidate>)
    requires Proper(q) && Plausible(r) && Builds(q, r, cands) && r.decision.Some?
    requires Verdict(threshold, r.decision.value, cands, q.actor, q.action, r.refreshed) == Err(CatalogChanged)
    ensures CatalogMoved(q, threshold, r, cands)
  {
    var d := r.decision.value;
    VerdictSays(threshold, d, cands, q.actor, q.action, r.refreshed);
    BuiltIsProposed(q, r.catalog.value, r.terms.value, cands);
    var c: Candidate :| Points(threshold, d, cands, c) && r.refreshed.value.version != c.version;
    assert Proposed(q, r.catalog.value, c) && Selects(d, threshold, c);
  }

  /** Another round is asked for exactly when the decision surely points at a
      candidate and the catalog has changed since; in the second round the same
      finding is put to the user. */
  lemma AgainExactlyWhen(q: Query, threshold: real, r: Round, cands: seq<Candidate>)
    requires Proper(q) && Plausible(r) && Builds(q, r, cands)
    ensures RoundResult(q, threshold, r, cands, false).None? <==> CatalogMoved(q, threshold, r, cands)
    ensures RoundResult(q, threshold, r, cands, true)
         == if CatalogMoved(q, threshold, r, cands) then Some(Clarify(r.decision.value, cands))
            else RoundResult(q, threshold, r, cands, false)
  {
    if CatalogMoved(q, threshold, r, cands) {
      MovedAsksAgain(q, threshold, r, cands);
    }
    if RoundResult(q, threshold, r, cands, false).None? {
      AgainIsMoved(q, threshold, r, cands);
    }
  }

  /** What the user is asked back, or told, when the target is not executed: an
      error only if something could not be read, and otherwise the decision with
      its candidates. */
  lemma OtherwiseAsksBack(q: Query, threshold: real, r: Round, last: bool, o: Outcome, cands: seq<Candidate>)
    requires Readable(r) && EndsIn(q, threshold, r, last, o, cands) && cands != [] && r.decision.Some? && !o.Execute?
    ensures o == DeviceError || o == Clarify(r.decision.value, cands)
    ensures o == DeviceError
       <==> r.refreshed.None? && exists c :: Points(threshold, r.decision.value, cands, c) && WellTargeted(q.actor, c)
  {
    var d := r.decision.value;
    VerdictSays(threshold, d, cands, q.actor, q.action, r.refreshed);
    if c :| Points(threshold, d, cands, c) && WellTargeted(q.actor, c) {
      ChoiceIs(threshold, d, cands, q.actor, c);
    }
  }
}
