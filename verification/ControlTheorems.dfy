/** The promises of the control plane, over every run. */
module ControlTheorems {
  import opened Base
  import opened Policy
  import opened ControlProtocol
  import opened ControlSafety
  import opened ControlHistory

  lemma OneRunner(c: Config, s: Db, p: nat, q: nat, op: string)
    requires LedgerInv(c, s) && MayRun(s, p, op) && MayRun(s, q, op)
    ensures p == q
  {
    if op in s.wins && op in s.origins {
      assert WinFacts(s, op) && ConfFacts(c, s, s.wins[op].b.confirmation);
    }
  }

  /** At most one command per operation ever reaches a provider, and none if
      the operation was found to need none; hence at most one per idempotency key. */
  lemma AtMostOneCommand(c: Config, run: seq<State>, n: nat, i: nat, j: nat)
    requires Behavior(c, run) && n < |run|
    requires i < j < |run[n].db.trace| && Finishes(run[n].db.trace[i]) && Finishes(run[n].db.trace[j])
    ensures var e, f := run[n].db.trace[i], run[n].db.trace[j];
            && e.op != f.op && e.op in run[n].db.ops && f.op in run[n].db.ops
            && run[n].db.ops[e.op].request.key != run[n].db.ops[f.op].request.key
  {
    Reachable(c, run, n);
    var s := run[n].db;
    var e, f := s.trace[i], s.trace[j];
    assert EventFacts(c, s, i) && EventFacts(c, s, j);
    FinisherIsKnown(c, s, i);
    FinisherIsKnown(c, s, j);
    if e.op == f.op {
      OneRunner(c, s, e.pid, f.pid, e.op);
    }
  }

  lemma FinisherIsKnown(c: Config, s: Db, i: nat)
    requires LedgerInv(c, s) && i < |s.trace| && Finishes(s.trace[i]) && EventFacts(c, s, i)
    ensures MayRun(s, s.trace[i].pid, s.trace[i].op) && s.trace[i].op in s.ops
  {
    var op := s.trace[i].op;
    assert op in s.origins ==> OriginFacts(s, op);
    assert op in s.wins ==> WinFacts(s, op);
  }

  /** Only a request submitted here by an interactive principal, or one that
      nothing it touches makes high-risk, does without an approval. */
  ghost predicate NeedsApproval(s: Db, op: string) {
    op in s.origins ==>
      var o := s.origins[op];
      && o.q.principal.mode == Autonomous
      && (o.device.risk == High || exists f :: f in o.features && Names(o.q.action, f) && f.risk == Some(High))
  }

  predicate PendingAt(s: Db, id: string) {
    id in s.confs && s.confs[id].decision == L.Pending
  }

  /** The three moments of a decision, while its confirmation was pending: the
      process read the clock for the expiry check, then the binding table, then
      took the decision.  What it read is what the win records. */
  ghost predicate TakenAt(run: seq<State>, m: nat, k: nat, j: nat, op: string, w: Win) {
    && m <= k < j && ReadsClock(run, m, w.pid, w.b, w.at) && ReadsTable(run, k, w.pid, w.b, w.seen)
    && Takes(run, j, op, w)
    && PendingAt(run[m].db, w.b.confirmation) && PendingAt(run[k].db, w.b.confirmation)
  }

  ghost predicate TakenIn(run: seq<State>, n: nat, op: string, w: Win) {
    exists m: nat, k: nat, j: nat :: j < n && TakenAt(run, m, k, j, op, w)
  }

  lemma PendingBefore(c: Config, run: seq<State>, m: nat, j: nat, id: string)
    requires Behavior(c, run) && m <= j < |run| && id in run[m].db.confs && PendingAt(run[j].db, id)
    ensures PendingAt(run[m].db, id)
  {
    RunExtends(c, run, m, j);
  }

  lemma StillThere(c: Config, run: seq<State>, m: nat, k: nat, id: string)
    requires Behavior(c, run) && m <= k < |run| && id in run[m].db.confs
    ensures id in run[k].db.confs
  {
    RunExtends(c, run, m, k);
  }

  lemma EveryWinWasTaken(c: Config, run: seq<State>, n: nat, op: string)
    requires Behavior(c, run) && n < |run| && op in run[n].db.wins
    ensures TakenIn(run, n, op, run[n].db.wins[op])
  {
    var w := run[n].db.wins[op];
    HistoryHolds(c, run, n);
    assert WinHistory(run, n, op, w);
    var j: nat :| j < n && Takes(run, j, op, w) && BallotRead(run, j, w.pid, w.b, w.at, w.seen);
    var m: nat, k: nat :| m <= k < j && ReadsClock(run, m, w.pid, w.b, w.at) && ReadsTable(run, k, w.pid, w.b, w.seen);
    StillThere(c, run, m, k, w.b.confirmation);
    PendingBefore(c, run, m, j, w.b.confirmation);
    PendingBefore(c, run, k, j, w.b.confirmation);
    assert TakenAt(run, m, k, j, op, w);
  }

  /** The submission of an operation read the binding table in this run, and
      the version it read is the one its origin records. */
  lemma EveryOriginFoundItsRow(c: Config, run: seq<State>, n: nat, op: string)
    requires Behavior(c, run) && n < |run| && op in run[n].db.origins
    ensures var o := run[n].db.origins[op]; exists m: nat :: m < n && FindsRow(run, m, o.pid, o.q, o.seen)
  {
    HistoryHolds(c, run, n);
    assert OriginTold(run, n, run[n].db.origins[op]);
  }

  /** Gate and binding.  A command for an operation that needs approval comes
      after the decision that approved its confirmation: an approving ballot of
      the confirmation's actor, presenting its digest, with the clock of the run
      before the expiry when it was read.  What is sent, and to which device, is
      what that digest is the digest of. */
  lemma CommandWasApproved(c: Config, run: seq<State>, n: nat, i: nat)
    requires Behavior(c, run) && n < |run|
    requires i < |run[n].db.trace| && run[n].db.trace[i].Issued? && NeedsApproval(run[n].db, run[n].db.trace[i].op)
    ensures var s := run[n].db;
            var e := s.trace[i];
            && e.op in s.ops && s.ops[e.op].request.target.Some?
            && e.op in s.wins && s.wins[e.op].b.confirmation in s.confs
            && var w, conf, t := s.wins[e.op], s.confs[s.wins[e.op].b.confirmation], s.ops[e.op].request.target.value;
               && w.index < i && s.trace[w.index] == Settled(e.pid, w.b.confirmation, L.Approve)
               && conf.op == e.op && conf.decision == L.Approve
               && w.b.actor == conf.actor && w.b.decision == "approve" && w.at < conf.expiresAt
               && w.b.hash == conf.hash == ActionHash(s.ops[e.op].request.device, e.action, t)
               && e.provider == t.provider && e.externalRef == t.externalRef
               && e.provider in c.providers && c.providers[e.provider] == t.providerType
               && (e.op in s.origins ==> conf.actor == c.confirmer)
    ensures var op := run[n].db.trace[i].op; TakenIn(run, n, op, run[n].db.wins[op])
  {
    Reachable(c, run, n);
    CommandFacts(c, run[n].db, i);
    EveryWinWasTaken(c, run, n, run[n].db.trace[i].op);
  }

  lemma NeedIsGated(s: Db, op: string)
    requires op in s.origins && OriginFacts(s, op) && NeedsApproval(s, op)
    ensures Gated(s.origins[op])
  {
    var o := s.origins[op];
    RiskIs(o.device.risk, o.features, o.q.action);
    assert Contributes(o.device.risk, o.features, o.q.action, High);
  }

  lemma CommandFacts(c: Config, s: Db, i: nat)
    requires LedgerInv(c, s) && TraceInv(c, s)
    requires i < |s.trace| && s.trace[i].Issued? && NeedsApproval(s, s.trace[i].op)
    ensures var e := s.trace[i];
            && e.op in s.ops && s.ops[e.op].request.target.Some?
            && e.op in s.wins && s.wins[e.op].b.confirmation in s.confs
            && var w, conf, t := s.wins[e.op], s.confs[s.wins[e.op].b.confirmation], s.ops[e.op].request.target.value;
               && w.index < i && s.trace[w.index] == Settled(e.pid, w.b.confirmation, L.Approve)
               && conf.op == e.op && conf.decision == L.Approve
               && w.b.actor == conf.actor && w.b.decision == "approve" && w.at < conf.expiresAt
               && w.b.hash == conf.hash == ActionHash(s.ops[e.op].request.device, e.action, t)
               && e.provider == t.provider && e.externalRef == t.externalRef
               && e.provider in c.providers && c.providers[e.provider] == t.providerType
               && (e.op in s.origins ==> conf.actor == c.confirmer)
  {
    assert EventFacts(c, s, i);
    if s.trace[i].op in s.origins {
      NeedIsGated(s, s.trace[i].op);
    }
    assert WinFacts(s, s.trace[i].op);
    assert ConfFacts(c, s, s.wins[s.trace[i].op].b.confirmation);
  }

  /** Every decision a run takes, whatever interleaves with its four awaits, is
      the verdict of the whole procedure on the ballot, the unchanging request,
      and the clock and the binding table as they were in the run when the
      process read them; and only the confirmation's actor is heard. */
  lemma DecisionsAreVerdicts(c: Config, run: seq<State>, n: nat, op: string)
    requires Behavior(c, run) && n < |run| && op in run[n].db.wins
    ensures var s, w := run[n].db, run[n].db.wins[op];
            && op in s.ops && w.b.confirmation in s.confs && w.seen < |s.tables|
            && s.confs[w.b.confirmation].op == op && s.confs[w.b.confirmation].decision == w.d
            && w.b.actor == s.confs[w.b.confirmation].actor
            && w.d == Verdict(w.b, s.confs[w.b.confirmation], s.ops[op].request, w.at, s.tables[w.seen])
    ensures TakenIn(run, n, op, run[n].db.wins[op])
  {
    Reachable(c, run, n);
    EveryWinWasTaken(c, run, n, op);
    assert WinFacts(run[n].db, op);
  }

  lemma RouteBetween(c: Config, s: Db, op: string, m: nat)
    requires LedgerInv(c, s) && op in s.origins && op in s.wins && s.wins[op].d == L.Approve
    requires s.origins[op].seen <= m <= s.wins[op].seen
    ensures && op in s.ops && s.ops[op].request.target.Some?
            && m < |s.tables| && s.origins[op].seen < |s.tables|
            && var id := s.ops[op].request.target.value.bindingId;
               && id in s.tables[s.origins[op].seen] && id in s.tables[m]
               && B.RouteOf(s.tables[m][id]) == B.RouteOf(s.tables[s.origins[op].seen][id])
               && Bound(s.tables[m], s.ops[op].request.device, s.ops[op].request.target.value)
  {
    assert OriginFacts(s, op) && WinFacts(s, op);
    B.SameRevisionSameRoute(s.tables, s.ops[op].request.target.value.bindingId, s.origins[op].seen, m, s.wins[op].seen);
  }

  /** No ABA between submission and approval: from the version the submission
      found to the one the approving process read, the row the request was bound
      to kept its device, provider, reference and route data at every version. */
  lemma RouteStoodStill(c: Config, run: seq<State>, n: nat, op: string, m: nat)
    requires Behavior(c, run) && n < |run|
    requires var s := run[n].db;
             op in s.origins && op in s.wins && s.wins[op].d == L.Approve && s.origins[op].seen <= m <= s.wins[op].seen
    ensures var s := run[n].db;
            && op in s.ops && s.ops[op].request.target.Some?
            && m < |s.tables| && s.origins[op].seen < |s.tables|
            && var id := s.ops[op].request.target.value.bindingId;
               && id in s.tables[s.origins[op].seen] && id in s.tables[m]
               && B.RouteOf(s.tables[m][id]) == B.RouteOf(s.tables[s.origins[op].seen][id])
               && Bound(s.tables[m], s.ops[op].request.device, s.ops[op].request.target.value)
    ensures TakenIn(run, n, op, run[n].db.wins[op])
    ensures var o := run[n].db.origins[op]; exists k: nat :: k < n && FindsRow(run, k, o.pid, o.q, o.seen)
  {
    Reachable(c, run, n);
    EveryWinWasTaken(c, run, n, op);
    EveryOriginFoundItsRow(c, run, n, op);
    RouteBetween(c, run[n].db, op, m);
  }

  /** The two refusals that follow a won approval in the code are never taken:
      no row is ever rejected for an invalid approval binding, nor for a missing
      target unless a decision rejected it for that. */
  lemma LateRefusalsUnreachable(c: Config, run: seq<State>, n: nat, i: nat)
    requires Behavior(c, run) && n < |run|
    requires i < |run[n].db.trace| && run[n].db.trace[i].Wrote? && run[n].db.trace[i].status == L.Rejected
    ensures var s, e := run[n].db, run[n].db.trace[i];
            && e.result != Some(L.Code("approval_binding_invalid"))
            && (e.result == Some(L.Code("bound_target_missing")) ==> e.op in s.wins && s.wins[e.op].d == L.Reject)
  {
    Reachable(c, run, n);
    assert EventFacts(c, run[n].db, i);
  }

  /** A row is written only by the process that created it and by the one that
      won its confirmation. */
  lemma OnlyCreatorAndWinnerWrite(c: Config, run: seq<State>, n: nat, i: nat)
    requires Behavior(c, run) && n < |run| && i < |run[n].db.trace| && run[n].db.trace[i].Wrote?
    ensures var s, e := run[n].db, run[n].db.trace[i];
            || (e.op in s.origins && s.origins[e.op].pid == e.pid)
            || (e.op in s.wins && s.wins[e.op].pid == e.pid)
  {
    Reachable(c, run, n);
    assert EventFacts(c, run[n].db, i);
  }

  /** A decider that lost the compare-and-set, whatever it was attempting, is
      over; nothing else it did is on record: no decision, no write, no command,
      no operation. */
  lemma LoserDidNothing(c: Config, run: seq<State>, n: nat, i: nat)
    requires Behavior(c, run) && n < |run| && i < |run[n].db.trace| && run[n].db.trace[i].Lost?
    ensures OnlyEvent(run[n].db, i)
    ensures run[n].db.trace[i].pid in run[n].procs && run[n].procs[run[n].db.trace[i].pid].Done?
  {
    QuietHolds(c, run, n);
  }

  /** The records are complete: an operation's row never changes without its
      write on the trace, nor a confirmation without its decision. */
  lemma WritesAreLogged(c: Config, run: seq<State>, n: nat)
    requires Behavior(c, run) && n + 1 < |run|
    ensures var s, s' := run[n].db, run[n + 1].db;
            && s.trace <= s'.trace
            && (forall op | op in s.ops && op in s'.ops && s'.ops[op] != s.ops[op] ::
                  exists i :: |s.trace| <= i < |s'.trace| && s'.trace[i].Wrote? && s'.trace[i].op == op)
            && (forall id | id in s.confs && id in s'.confs && s'.confs[id] != s.confs[id] ::
                  exists i :: |s.trace| <= i < |s'.trace| && s'.trace[i].Settled? && s'.trace[i].id == id)
  {
    ProcsAt(c, run, n);
    assert GoesOn(c, run, n);
    var l :| Enabled(run[n], l) && run[n + 1] == Apply(c, run[n], l);
    if l.Run? {
      StepLogs(c, run[n].db, l.pid, run[n].procs[l.pid], l.x);
    }
  }

  /** The write of this operation's row that no other follows. */
  predicate LastWrite(trace: seq<Event>, i: nat, op: string) {
    && i < |trace| && trace[i].Wrote? && trace[i].op == op
    && forall k | i < k < |trace| && trace[k].Wrote? :: trace[k].op != op
  }

  predicate Unwritten(trace: seq<Event>, op: string) {
    forall k | 0 <= k < |trace| && trace[k].Wrote? :: trace[k].op != op
  }

  /** A row's status is the last one written and its result the one written
      with it, if any; a row of the run not yet written is as it was stored. */
  ghost predicate ShowsWrites(s: Db) {
    && (forall i: nat, op | LastWrite(s.trace, i, op) ::
          && op in s.ops && s.ops[op].status == s.trace[i].status
          && (s.trace[i].result.Some? ==> s.ops[op].result == s.trace[i].result))
    && (forall op | op in s.origins && Unwritten(s.trace, op) ::
          op in s.ops && s.ops[op].status == L.Requested && s.ops[op].result == None)
  }

  lemma LogShows(s: Db, e: Event)
    requires ShowsWrites(s) && !e.Wrote?
    ensures ShowsWrites(Log(s, e))
  {
    forall i: nat, op | LastWrite(s.trace + [e], i, op) ensures LastWrite(s.trace, i, op) {
      assert forall k | 0 <= k < |s.trace| :: (s.trace + [e])[k] == s.trace[k];
    }
    forall op | Unwritten(s.trace + [e], op) ensures Unwritten(s.trace, op) {
      assert forall k | 0 <= k < |s.trace| :: (s.trace + [e])[k] == s.trace[k];
    }
  }

  lemma WriteShows(s: Db, pid: nat, op: string, status: L.Status, result: Option<L.OpResult>)
    requires ShowsWrites(s) && op in s.ops
    ensures ShowsWrites(Log(s.(ops := L.Updated(s.ops, op, status, result)), Wrote(pid, op, status, result)))
  {
    var trace := s.trace + [Wrote(pid, op, status, result)];
    assert trace[|s.trace|].op == op;
    forall i: nat, o | LastWrite(trace, i, o) && o != op ensures LastWrite(s.trace, i, o) {
      assert forall k | 0 <= k < |s.trace| :: trace[k] == s.trace[k];
    }
    forall o | Unwritten(trace, o) ensures o != op && Unwritten(s.trace, o) {
      assert forall k | 0 <= k < |s.trace| :: trace[k] == s.trace[k];
    }
  }

  lemma WritesAreOfRows(c: Config, s: Db, op: string)
    requires LedgerInv(c, s) && TraceInv(c, s) && op !in s.ops
    ensures Unwritten(s.trace, op)
  {
    forall k | 0 <= k < |s.trace| && s.trace[k].Wrote? ensures s.trace[k].op != op {
      assert EventFacts(c, s, k);
      assert op in s.origins ==> OriginFacts(s, op);
      assert op in s.wins ==> WinFacts(s, op);
    }
  }

  lemma RowShows(s: Db, id: string, r: OpRequest, o: Origin, devices: set<string>)
    requires ShowsWrites(s) && L.Insertion(s.ops, id, r, devices) == L.Created && Unwritten(s.trace, id)
    ensures ShowsWrites(AddOperation(s, id, r, o, devices))
  {
  }

  lemma InsertShows(c: Config, s: Db, pid: nat, pc: Pc, x: Input)
    requires LedgerInv(c, s) && TraceInv(c, s) && pc.Insert? && ShowsWrites(s)
    ensures ShowsWrites(SubmitStep(c, s, pid, pc, x).db)
  {
    if x.NewId? {
      var r := RequestOf(pc.o, pc.target);
      var e := Answered(pid, pc.o, pc.target, L.Insertion(s.ops, x.id, r, x.devices));
      if e.answer == L.Created {
        WritesAreOfRows(c, s, x.id);
        RowShows(s, x.id, r, pc.o, x.devices);
        LogShows(AddOperation(s, x.id, r, pc.o, x.devices), e);
      } else {
        LogShows(s, e);
      }
    }
  }

  /** The rows are as they were, and at most an event is logged that writes none. */
  ghost predicate WritesNoRow(s: Db, s': Db) {
    && s'.ops == s.ops && s'.origins == s.origins
    && (s'.trace == s.trace
        || (|s'.trace| > |s.trace| && s'.trace == s.trace + [s'.trace[|s.trace|]] && !s'.trace[|s.trace|].Wrote?))
  }

  lemma SubmitWritesNoRow(c: Config, s: Db, pid: nat, pc: Pc, x: Input)
    requires |s.tables| > 0 && InSubmit(pc) && !pc.Insert?
    ensures WritesNoRow(s, SubmitStep(c, s, pid, pc, x).db)
  {
  }

  lemma DecideWritesNoRow(s: Db, pid: nat, pc: Pc)
    requires |s.tables| > 0 && InDecide(pc)
    ensures WritesNoRow(s, DecideStep(s, pid, pc).db)
  {
  }

  lemma ExecuteWritesNoRow(c: Config, s: Db, pid: nat, pc: Pc, x: Input)
    requires !InSubmit(pc) && !InDecide(pc) && !pc.Write?
    ensures WritesNoRow(s, ExecuteStep(c, s, pid, pc, x).db)
  {
  }

  lemma NoRowShows(s: Db, s': Db)
    requires ShowsWrites(s) && WritesNoRow(s, s')
    ensures ShowsWrites(s')
  {
    if s'.trace != s.trace {
      LogShows(s, s'.trace[|s.trace|]);
      assert s'.trace == Log(s, s'.trace[|s.trace|]).trace;
    }
  }

  lemma OtherShows(c: Config, s: Db, pid: nat, pc: Pc, x: Input)
    requires |s.tables| > 0 && !pc.Insert? && !pc.Write? && ShowsWrites(s)
    ensures ShowsWrites(RunStep(c, s, pid, pc, x).db)
  {
    if InSubmit(pc) {
      SubmitWritesNoRow(c, s, pid, pc, x);
    } else if InDecide(pc) {
      DecideWritesNoRow(s, pid, pc);
    } else {
      ExecuteWritesNoRow(c, s, pid, pc, x);
    }
    NoRowShows(s, RunStep(c, s, pid, pc, x).db);
  }

  lemma StepShows(c: Config, s: Db, pid: nat, pc: Pc, x: Input)
    requires LedgerInv(c, s) && TraceInv(c, s) && ShowsWrites(s)
    ensures ShowsWrites(RunStep(c, s, pid, pc, x).db)
  {
    if pc.Insert? {
      InsertShows(c, s, pid, pc, x);
    } else if pc.Write? {
      if pc.op in s.ops {
        WriteShows(s, pid, pc.op, pc.status, pc.result);
      }
    } else {
      OtherShows(c, s, pid, pc, x);
    }
  }

  lemma SameRecordsShow(s: Db, s': Db)
    requires ShowsWrites(s) && s'.ops == s.ops && s'.origins == s.origins && s'.trace == s.trace
    ensures ShowsWrites(s')
  {
  }

  lemma LabelShows(c: Config, s: State, l: Label)
    requires Inv(c, s) && Enabled(s, l) && ShowsWrites(s.db)
    ensures ShowsWrites(Apply(c, s, l).db)
  {
    if l.Run? {
      StepShows(c, s.db, l.pid, s.procs[l.pid], l.x);
    } else {
      SameRecordsShow(s.db, Apply(c, s, l).db);
    }
  }

  lemma InitShows(s: Db)
    requires s.trace == [] && s.origins == map[]
    ensures ShowsWrites(s)
  {
  }

  lemma NextShows(c: Config, run: seq<State>, n: nat)
    requires Behavior(c, run) && n + 1 < |run| && ShowsWrites(run[n].db)
    ensures ShowsWrites(run[n + 1].db)
  {
    Reachable(c, run, n);
    var l := StepLabel(c, run, n);
    LabelShows(c, run[n], l);
  }

  /** In every run the ledger is what its trace says was written. */
  lemma {:induction false} RowsShowWrites(c: Config, run: seq<State>, n: nat)
    requires Behavior(c, run) && n < |run|
    ensures ShowsWrites(run[n].db)
  {
    if n == 0 {
      InitShows(run[0].db);
    } else {
      RowsShowWrites(c, run, n - 1);
      NextShows(c, run, n - 1);
    }
  }

  // --------------------------------------------------------- idempotent replay

  /** The submission that made the operation and this one ask for the same. */
  predicate SameSubmission(made: Origin, bound: Target, o: Origin, target: Target) {
    && made.q.device == o.q.device && made.q.action == o.q.action && made.q.principal == o.q.principal
    && bound == target
  }

  /** Across the two sessions of `create_operation`, whatever comes between: a
      submission is told that its row was created, and then its row it is; or it
      is told of the row that has its key, as a replay exactly when the requests
      match and as a conflict otherwise, and then it did nothing else.  Between
      submissions of one run, to match is to ask for the same. */
  lemma ReplaysAreAnswered(c: Config, run: seq<State>, n: nat, i: nat)
    requires Behavior(c, run) && n < |run| && i < |run[n].db.trace| && run[n].db.trace[i].Answered?
    ensures var s, e, r := run[n].db, run[n].db.trace[i],
                           RequestOf(run[n].db.trace[i].o, run[n].db.trace[i].target);
            && (e.answer.Created? ==> exists id :: Created(s, e.pid, id) && id in s.ops && s.ops[id].request == r)
            && (!e.answer.Created? ==> OnlyEvent(s, i))
            && (e.answer.Replayed? || e.answer.Conflict? ==> exists id :: Answers(s, id, r, e.answer))
            && forall id | Answers(s, id, r, e.answer) && id in s.origins ::
                 && s.ops[id].request.target.Some?
                 && (e.answer.Replayed? <==>
                       SameSubmission(s.origins[id], s.ops[id].request.target.value, e.o, e.target))
  {
    Reachable(c, run, n);
    QuietHolds(c, run, n);
    var s, e := run[n].db, run[n].db.trace[i];
    var r := RequestOf(e.o, e.target);
    assert EventFacts(c, s, i);
    AnswerExists(s, e.pid, r, e.answer);
    forall id | Answers(s, id, r, e.answer) && id in s.origins
      ensures s.ops[id].request.target.Some?
      ensures e.answer.Replayed? <==> SameSubmission(s.origins[id], s.ops[id].request.target.value, e.o, e.target)
    {
      assert OriginFacts(s, id);
      var made, t := s.origins[id], s.ops[id].request.target.value;
      MatchersAgree(made.q.device, made.q.action, t, made.q.principal, made.q.key,
                    e.o.q.device, e.o.q.action, e.target, e.o.q.principal, e.o.q.key);
    }
  }

  /** The row has the key, and the answer is what it resolves to. */
  ghost predicate Answers(s: Db, id: string, r: OpRequest, answer: L.Creation) {
    id in s.ops && s.ops[id].request.key == r.key && answer == L.Resolved(s.ops[id].request, id, r)
  }

  lemma AnswerExists(s: Db, pid: nat, r: OpRequest, answer: L.Creation)
    requires AnswerFacts(s, pid, r, answer)
    ensures answer.Replayed? || answer.Conflict? ==> exists id :: Answers(s, id, r, answer)
  {
    if answer.Replayed? {
      assert Answers(s, answer.id, r, answer);
    } else if answer.Conflict? {
      var id :| id in s.ops && s.ops[id].request.key == r.key && !Matches(s.ops[id].request, r);
      assert Answers(s, id, r, answer);
    }
  }

  /** A confirmation leaves the pending state at most once and never changes
      again; what it asks, and what its operation requests, never changes at all. */
  lemma DecidedOnce(c: Config, run: seq<State>, m: nat, n: nat, id: string)
    requires Behavior(c, run) && m <= n < |run| && id in run[m].db.confs
    ensures var before, after := run[m].db, run[n].db;
            && id in after.confs && SameQuestion(before.confs[id], after.confs[id])
            && (before.confs[id].decision != L.Pending ==> after.confs[id] == before.confs[id])
            && before.confs[id].op in before.ops && before.confs[id].op in after.ops
            && after.ops[before.confs[id].op].request == before.ops[before.confs[id].op].request
  {
    Reachable(c, run, m);
    RunExtends(c, run, m, n);
    assert ConfFacts(c, run[m].db, id);
  }
}
