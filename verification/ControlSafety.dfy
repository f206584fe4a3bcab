/** What every run of the control protocol keeps. */
module ControlSafety {
  import opened Base
  import opened Policy
  import opened ControlProtocol

  // ---------------------------------------------------------------- growth

  /** What no step takes back: requests, the question a confirmation asks, a
      decision once taken, history. */
  ghost predicate Extends(s: Db, s': Db) {
    && s.now <= s'.now
    && (forall op | op in s.ops :: op in s'.ops && s'.ops[op].request == s.ops[op].request)
    && (forall op | op in s.ops && op in s'.origins :: op in s.origins)
    && (forall op | op in s.origins :: op in s'.origins && s'.origins[op] == s.origins[op])
    && (forall id | id in s.confs :: id in s'.confs && SameQuestion(s.confs[id], s'.confs[id]))
    && (forall id | id in s.confs && s.confs[id].decision != L.Pending :: s'.confs[id] == s.confs[id])
    && (forall op | op in s.wins :: op in s'.wins && s'.wins[op] == s.wins[op])
    && s.tables <= s'.tables
    && s.trace <= s'.trace
  }

  predicate SameQuestion(c: L.Confirmation, c': L.Confirmation) {
    c'.op == c.op && c'.hash == c.hash && c'.actor == c.actor && c'.target == c.target && c'.expiresAt == c.expiresAt
  }

  // ------------------------------------------------------------- authority

  ghost predicate Approved(s: Db, op: string) {
    op in s.wins && s.wins[op].d == L.Approve
  }

  ghost predicate Created(s: Db, pid: nat, op: string) {
    op in s.origins && s.origins[op].pid == pid
  }

  ghost predicate Won(s: Db, pid: nat, op: string) {
    op in s.wins && s.wins[op].pid == pid
  }

  /** The one process that may carry an operation out. */
  ghost predicate MayRun(s: Db, pid: nat, op: string) {
    || (Created(s, pid, op) && !Gated(s.origins[op]))
    || (Won(s, pid, op) && Approved(s, op))
  }

  ghost predicate MayWrite(s: Db, pid: nat, op: string) {
    Created(s, pid, op) || Won(s, pid, op)
  }

  // ------------------------------------------------- facts steps rely upon

  ghost predicate Assessed(s: Db, o: Origin, t: Target) {
    && o.seen < |s.tables| && Bound(s.tables[o.seen], o.q.device, t)
    && IsRisk(o.device.risk, o.features, o.q.action, o.risk)
    && o.device.active && t.provider == o.device.provider
  }

  /** The request was submitted for a row of the binding table as it then was. */
  ghost predicate OriginFacts(s: Db, op: string)
    requires op in s.origins
  {
    var o := s.origins[op];
    && op in s.ops
    && s.ops[op].request.target.Some?
    && var t := s.ops[op].request.target.value;
       s.ops[op].request == Propose(o.q.device, o.q.action, t, o.q.principal, o.q.key) && Assessed(s, o, t)
  }

  /** A decision that can be taken: the ballot comes from the right actor and
      the decision is the verdict on it. */
  ghost predicate Sound(s: Db, op: string, b: Ballot, d: L.Decision, at: int, seen: nat) {
    && op in s.ops && b.confirmation in s.confs && s.confs[b.confirmation].op == op
    && b.actor == s.confs[b.confirmation].actor
    && (b.decision == "approve" || b.decision == "reject")
    && seen < |s.tables|
    && d == Verdict(b, s.confs[b.confirmation], s.ops[op].request, at, s.tables[seen])
    && (d == L.Approve && op in s.origins ==> s.origins[op].seen <= seen)
  }

  ghost predicate WinFacts(s: Db, op: string)
    requires op in s.wins
  {
    var w := s.wins[op];
    && Sound(s, op, w.b, w.d, w.at, w.seen)
    && s.confs[w.b.confirmation].decision == w.d
    && w.index < |s.trace| && s.trace[w.index] == Settled(w.pid, w.b.confirmation, w.d)
  }

  /** A confirmation of an operation created here was asked for because of its
      risk, of the configured actor, about that very operation. */
  ghost predicate ConfFacts(c: Config, s: Db, id: string)
    requires id in s.confs
  {
    var op := s.confs[id].op;
    && op in s.ops
    && (op in s.origins ==> Gated(s.origins[op]) && Asks(c, s.confs[id], s.ops[op].request))
  }

  predicate Asks(c: Config, conf: L.Confirmation, r: OpRequest) {
    && r.target.Some? && conf.target == r.target && conf.actor == c.confirmer
    && conf.hash == ActionHash(r.device, r.action, r.target.value)
  }

  ghost predicate Recallable(s: Db, id: string, conf: L.Confirmation) {
    id in s.confs && SameQuestion(conf, s.confs[id])
  }

  ghost predicate Ready(s: Db, pid: nat, op: string, r: OpRequest) {
    MayRun(s, pid, op) && op in s.ops && s.ops[op].request == r && r.target.Some?
  }

  /** The two codes that speak of a broken binding. */
  ghost predicate ResultFacts(s: Db, op: string, status: L.Status, result: Option<L.OpResult>) {
    status == L.Rejected ==>
      && result != Some(L.Code("approval_binding_invalid"))
      && (result == Some(L.Code("bound_target_missing")) ==> op in s.wins && s.wins[op].d == L.Reject)
  }

  /** A status that ends the work of the process that carries an operation out. */
  predicate Final(pc: Pc) {
    pc.Done? || pc.Await? || (pc.Write? && pc.status != L.NoOp && pc.rest.Done?)
  }

  ghost predicate PcFacts(c: Config, s: Db, pid: nat, pc: Pc)
    requires |s.tables| > 0
    decreases pc
  {
    match pc
    case FindBinding(q, device) => device.active
    case Assess(q, device, target, seen) =>
      && device.active && target.provider == device.provider
      && seen < |s.tables| && Bound(s.tables[seen], q.device, target)
    case LookUp(o, target) => o.pid == pid && Assessed(s, o, target)
    case Insert(o, target) => o.pid == pid && Assessed(s, o, target)
    case Ask(op, q, target) =>
      && Created(s, pid, op) && Gated(s.origins[op]) && op in s.ops
      && s.ops[op].request == Propose(q.device, q.action, target, q.principal, q.key)
    case LoadOperation(b, conf) => Recallable(s, b.confirmation, conf)
    case CheckBinding(b, conf, r, at) =>
      && Recallable(s, b.confirmation, conf) && conf.op in s.ops && s.ops[conf.op].request == r
      && r.target.Some? && r.target == conf.target && b.actor == conf.actor && at < conf.expiresAt
      && b.decision == "approve" && b.hash == conf.hash
    case Settle(b, op, d, e, code, at, seen) =>
      && Sound(s, op, b, d, at, seen)
      && code != "approval_binding_invalid" && (code == "bound_target_missing" ==> d == L.Reject)
    case LoadApproved(op) => Won(s, pid, op) && Approved(s, op)
    case LoadVerdict(op, r) => Won(s, pid, op) && Approved(s, op) && op in s.ops && s.ops[op].request == r
    case Start(op, r) => Ready(s, pid, op, r)
    case Read(op, r) => Ready(s, pid, op, r) && Routed(c, r)
    case Send(op, r) => Ready(s, pid, op, r) && Routed(c, r)
    case Await(op, r) => Ready(s, pid, op, r)
    case Write(op, status, result, rest) =>
      && MayWrite(s, pid, op) && ResultFacts(s, op, status, result)
      && (status == L.NoOp ==> MayRun(s, pid, op) && rest.Done?)
      && (rest.Done? || rest.Start? || rest.Read? || rest.Send?) && PcFacts(c, s, pid, rest)
    case _ => true
  }

  predicate Routed(c: Config, r: OpRequest) {
    r.target.Some? && r.target.value.provider in c.providers
    && c.providers[r.target.value.provider] == r.target.value.providerType
  }

  /** The answer speaks of a row with the key, and of whether it is the request. */
  ghost predicate AnswerFacts(s: Db, pid: nat, r: OpRequest, answer: L.Creation) {
    match answer
    case Created => exists op :: Created(s, pid, op) && op in s.ops && s.ops[op].request == r
    case Replayed(id) => id in s.ops && s.ops[id].request.key == r.key && Matches(s.ops[id].request, r)
    case Conflict => exists id :: id in s.ops && s.ops[id].request.key == r.key && !Matches(s.ops[id].request, r)
    case Unavailable => true
  }

  ghost predicate EventFacts(c: Config, s: Db, i: nat)
    requires i < |s.trace|
  {
    match s.trace[i]
    case Settled(pid, id, d) => true
    case Lost(pid, id) => true
    case Answered(pid, o, target, answer) => o.pid == pid && AnswerFacts(s, pid, RequestOf(o, target), answer)
    case Wrote(pid, op, status, result) =>
      MayWrite(s, pid, op) && ResultFacts(s, op, status, result) && (status == L.NoOp ==> MayRun(s, pid, op))
    case Issued(pid, op, provider, externalRef, action) =>
      && op in s.ops && Ready(s, pid, op, s.ops[op].request) && Routed(c, s.ops[op].request)
      && provider == s.ops[op].request.target.value.provider
      && externalRef == s.ops[op].request.target.value.externalRef
      && action == s.ops[op].request.action
      && ((Created(s, pid, op) && !Gated(s.origins[op]))
          || (Won(s, pid, op) && Approved(s, op) && s.wins[op].index < i))
  }

  /** The event by which a process finishes an operation: the command to the
      provider, or the finding that none is needed. */
  predicate Finishes(e: Event) {
    e.Issued? || (e.Wrote? && e.status == L.NoOp)
  }

  ghost predicate TraceInv(c: Config, s: Db) {
    forall i | 0 <= i < |s.trace| :: EventFacts(c, s, i)
  }

  /** A process that finished has nothing left but to record the outcome, so it
      never finishes twice. */
  ghost predicate OnceInv(s: State) {
    var trace := s.db.trace;
    && (forall i | 0 <= i < |trace| && Finishes(trace[i]) ::
          trace[i].pid in s.procs && Final(s.procs[trace[i].pid]))
    && (forall i, j | 0 <= i < j < |trace| && Finishes(trace[i]) && Finishes(trace[j]) ::
          trace[i].pid != trace[j].pid)
  }

  ghost predicate LedgerInv(c: Config, s: Db) {
    && |s.tables| > 0 && B.History(s.tables)
    && Keyed(s)
    && (forall id | id in s.confs :: ConfFacts(c, s, id))
    && (forall op | op in s.origins :: OriginFacts(s, op))
    && (forall op | op in s.wins :: WinFacts(s, op))
  }

  ghost predicate ProcsInv(c: Config, s: Db, procs: map<nat, Pc>)
    requires |s.tables| > 0
  {
    forall pid | pid in procs :: PcFacts(c, s, pid, procs[pid])
  }

  ghost predicate Inv(c: Config, s: State) {
    LedgerInv(c, s.db) && TraceInv(c, s.db) && OnceInv(s) && ProcsInv(c, s.db, s.procs)
  }

  // ------------------------------------------------------ facts are stable

  lemma OriginFactsStable(s: Db, s': Db, op: string)
    requires Extends(s, s') && op in s.origins && OriginFacts(s, op)
    ensures OriginFacts(s', op)
  {
  }

  lemma WinFactsStable(s: Db, s': Db, op: string)
    requires Extends(s, s') && op in s.wins && WinFacts(s, op)
    ensures WinFacts(s', op)
  {
  }

  lemma ConfFactsStable(c: Config, s: Db, s': Db, id: string)
    requires Extends(s, s') && id in s.confs && ConfFacts(c, s, id)
    ensures ConfFacts(c, s', id)
  {
  }

  lemma WorkFactsStable(c: Config, s: Db, s': Db, pid: nat, pc: Pc)
    requires |s.tables| > 0 && Extends(s, s') && !InDecide(pc) && !pc.Write? && PcFacts(c, s, pid, pc)
    ensures PcFacts(c, s', pid, pc)
  {
  }

  lemma DecideFactsStable(c: Config, s: Db, s': Db, pid: nat, pc: Pc)
    requires |s.tables| > 0 && Extends(s, s') && InDecide(pc) && PcFacts(c, s, pid, pc)
    ensures PcFacts(c, s', pid, pc)
  {
  }

  lemma {:induction false} PcFactsStable(c: Config, s: Db, s': Db, pid: nat, pc: Pc)
    requires |s.tables| > 0 && Extends(s, s') && PcFacts(c, s, pid, pc)
    ensures PcFacts(c, s', pid, pc)
  {
    if pc.Write? {
      PcFactsStable(c, s, s', pid, pc.rest);
      assert MayWrite(s', pid, pc.op);
    } else if InDecide(pc) {
      DecideFactsStable(c, s, s', pid, pc);
    } else {
      WorkFactsStable(c, s, s', pid, pc);
    }
  }

  lemma AnswerFactsStable(s: Db, s': Db, pid: nat, r: OpRequest, answer: L.Creation)
    requires Extends(s, s') && AnswerFacts(s, pid, r, answer)
    ensures AnswerFacts(s', pid, r, answer)
  {
    if answer.Created? {
      var op :| Created(s, pid, op) && op in s.ops && s.ops[op].request == r;
      assert Created(s', pid, op);
    } else if answer.Conflict? {
      var id :| id in s.ops && s.ops[id].request.key == r.key && !Matches(s.ops[id].request, r);
      assert id in s'.ops;
    }
  }

  lemma EventFactsStable(c: Config, s: Db, s': Db, i: nat)
    requires Extends(s, s') && i < |s.trace| && EventFacts(c, s, i)
    ensures EventFacts(c, s', i)
  {
    var e := s.trace[i];
    if e.Answered? {
      AnswerFactsStable(s, s', e.pid, RequestOf(e.o, e.target), e.answer);
    }
  }

  // -------------------------------------------------------- steps preserve

  /** What a step may leave behind: everything old is kept and whatever is new
      in the ledger is sound. */
  ghost predicate Advances(c: Config, s: Db, s': Db) {
    && Extends(s, s')
    && s'.tables == s.tables
    && (forall id | id in s'.confs && id !in s.confs :: ConfFacts(c, s', id))
    && (forall op | op in s'.origins && op !in s.origins :: OriginFacts(s', op))
    && (forall op | op in s'.wins && op !in s.wins :: WinFacts(s', op))
  }

  lemma AddOperationAdvances(c: Config, s: Db, id: string, t: Target, o: Origin, devices: set<string>, e: Event)
    requires forall op | op in s.origins :: op in s.ops
    requires Assessed(s, o, t)
    requires L.Insertion(s.ops, id, RequestOf(o, t), devices) == L.Created
    ensures Advances(c, s, Log(AddOperation(s, id, RequestOf(o, t), o, devices), e))
  {
    assert OriginFacts(Log(AddOperation(s, id, RequestOf(o, t), o, devices), e), id);
  }

  lemma AddConfirmationAdvances(c: Config, s: Db, id: string, conf: L.Confirmation)
    requires L.Requestable(s.confs, id, conf.op, s.ops.Keys)
    requires conf.op in s.origins ==> Gated(s.origins[conf.op]) && Asks(c, conf, s.ops[conf.op].request)
    ensures Advances(c, s, AddConfirmation(s, id, conf))
  {
  }

  lemma LogAdvances(c: Config, s: Db, e: Event)
    ensures Advances(c, s, Log(s, e))
  {
  }

  lemma WriteAdvances(c: Config, s: Db, op: string, status: L.Status, result: Option<L.OpResult>, e: Event)
    ensures Advances(c, s, Log(s.(ops := L.Updated(s.ops, op, status, result)), e))
  {
  }

  /** A confirmation still pending was never decided here, so the decision is new. */
  lemma DecisionIsNew(s: Db, id: string, op: string)
    requires L.UniqueConfirmations(s.confs) && (op in s.wins ==> WinFacts(s, op))
    requires id in s.confs && s.confs[id].op == op && s.confs[id].decision == L.Pending
    ensures op !in s.wins
  {
  }

  lemma TakeDecisionAdvances(c: Config, s: Db, op: string, e: L.Expected, w: Win)
    requires op !in s.wins && Sound(s, op, w.b, w.d, w.at, w.seen) && w.index == |s.trace|
    requires L.Decidable(s.confs, w.b.confirmation, e)
    ensures Advances(c, s, TakeDecision(s, op, e, w))
  {
    var s' := TakeDecision(s, op, e, w);
    assert Extends(s, s');
    assert WinFacts(s', op);
  }

  lemma NothingAdvances(c: Config, s: Db)
    ensures Advances(c, s, s)
  {
  }

  lemma InsertAdvances(c: Config, s: Db, pid: nat, pc: Pc, x: Input)
    requires LedgerInv(c, s) && pc.Insert? && PcFacts(c, s, pid, pc)
    ensures Advances(c, s, SubmitStep(c, s, pid, pc, x).db)
  {
    var r := RequestOf(pc.o, pc.target);
    if !x.NewId? {
      NothingAdvances(c, s);
    } else {
      var e := Answered(pid, pc.o, pc.target, L.Insertion(s.ops, x.id, r, x.devices));
      if e.answer == L.Created {
        assert forall op | op in s.origins :: OriginFacts(s, op);
        AddOperationAdvances(c, s, x.id, pc.target, pc.o, x.devices, e);
        assert SubmitStep(c, s, pid, pc, x).db == Log(AddOperation(s, x.id, r, pc.o, x.devices), e);
      } else {
        LogAdvances(c, s, e);
        assert SubmitStep(c, s, pid, pc, x).db == Log(s, e);
      }
    }
  }

  lemma SubmitAdvances(c: Config, s: Db, pid: nat, pc: Pc, x: Input)
    requires LedgerInv(c, s) && InSubmit(pc) && PcFacts(c, s, pid, pc)
    ensures Advances(c, s, SubmitStep(c, s, pid, pc, x).db)
  {
    if pc.Insert? {
      InsertAdvances(c, s, pid, pc, x);
    } else if pc.Ask? && x.NewId? && L.Requestable(s.confs, x.id, pc.op, s.ops.Keys) {
      var conf := SubmitStep(c, s, pid, pc, x).db.confs[x.id];
      AddConfirmationAdvances(c, s, x.id, conf);
      assert SubmitStep(c, s, pid, pc, x).db == AddConfirmation(s, x.id, conf);
    } else if pc.LookUp? && L.FindKey(s.ops, pc.o.q.key).Some? {
      var e := SubmitStep(c, s, pid, pc, x).db.trace[|s.trace|];
      LogAdvances(c, s, e);
      assert SubmitStep(c, s, pid, pc, x).db == Log(s, e);
    } else {
      NothingAdvances(c, s);
      assert SubmitStep(c, s, pid, pc, x).db == s;
    }
  }

  lemma DecideAdvances(c: Config, s: Db, pid: nat, pc: Pc)
    requires LedgerInv(c, s) && InDecide(pc) && PcFacts(c, s, pid, pc)
    ensures Advances(c, s, DecideStep(s, pid, pc).db)
  {
    if pc.Settle? && L.Decidable(s.confs, pc.b.confirmation, pc.e) {
      var w := Win(pid, pc.b, pc.d, pc.at, pc.seen, |s.trace|);
      DecisionIsNew(s, pc.b.confirmation, pc.op);
      TakeDecisionAdvances(c, s, pc.op, pc.e, w);
      assert DecideStep(s, pid, pc).db == TakeDecision(s, pc.op, pc.e, w);
    } else if pc.Settle? {
      LogAdvances(c, s, Lost(pid, pc.b.confirmation));
      assert DecideStep(s, pid, pc).db == Log(s, Lost(pid, pc.b.confirmation));
    } else {
      NothingAdvances(c, s);
      assert DecideStep(s, pid, pc).db == s;
    }
  }

  lemma ExecuteAdvances(c: Config, s: Db, pid: nat, pc: Pc, x: Input)
    requires !InSubmit(pc) && !InDecide(pc)
    ensures Advances(c, s, ExecuteStep(c, s, pid, pc, x).db)
  {
    var s' := ExecuteStep(c, s, pid, pc, x).db;
    if s' == s {
      NothingAdvances(c, s);
    } else if pc.Write? {
      var e := Wrote(pid, pc.op, pc.status, pc.result);
      WriteAdvances(c, s, pc.op, pc.status, pc.result, e);
      assert s' == Log(s.(ops := L.Updated(s.ops, pc.op, pc.status, pc.result)), e);
    } else {
      var e := s'.trace[|s.trace|];
      LogAdvances(c, s, e);
      assert s' == Log(s, e);
    }
  }

  ghost predicate Keyed(s: Db) {
    L.UniqueKeys(s.ops) && L.UniqueConfirmations(s.confs)
  }

  lemma SubmitKeepsKeys(c: Config, s: Db, pid: nat, pc: Pc, x: Input)
    requires |s.tables| > 0 && Keyed(s) && InSubmit(pc)
    ensures Keyed(SubmitStep(c, s, pid, pc, x).db)
  {
    if !pc.Insert? && !pc.Ask? {
      assert SubmitStep(c, s, pid, pc, x).db.(trace := s.trace) == s;
    }
  }

  lemma DecideKeepsKeys(s: Db, pid: nat, pc: Pc)
    requires |s.tables| > 0 && Keyed(s) && InDecide(pc)
    ensures Keyed(DecideStep(s, pid, pc).db)
  {
    if !pc.Settle? {
      assert DecideStep(s, pid, pc).db == s;
    }
  }

  lemma ExecuteKeepsKeys(c: Config, s: Db, pid: nat, pc: Pc, x: Input)
    requires Keyed(s) && !InSubmit(pc) && !InDecide(pc)
    ensures Keyed(ExecuteStep(c, s, pid, pc, x).db)
  {
    if !pc.Write? {
      assert ExecuteStep(c, s, pid, pc, x).db.ops == s.ops && ExecuteStep(c, s, pid, pc, x).db.confs == s.confs;
    }
  }

  /** The constraints of the two tables survive every step. */
  lemma StepKeepsKeys(c: Config, s: Db, pid: nat, pc: Pc, x: Input)
    requires |s.tables| > 0 && Keyed(s)
    ensures Keyed(RunStep(c, s, pid, pc, x).db)
  {
    if InSubmit(pc) {
      SubmitKeepsKeys(c, s, pid, pc, x);
    } else if InDecide(pc) {
      DecideKeepsKeys(s, pid, pc);
    } else {
      ExecuteKeepsKeys(c, s, pid, pc, x);
    }
  }

  // ------------------------------------- the next program counter is sound

  ghost predicate Lands(c: Config, pid: nat, m: Move) {
    |m.db.tables| > 0 && PcFacts(c, m.db, pid, m.pc)
  }

  lemma InsertFacts(c: Config, s: Db, pid: nat, pc: Pc, x: Input)
    requires |s.tables| > 0 && pc.Insert? && PcFacts(c, s, pid, pc)
    ensures Lands(c, pid, SubmitStep(c, s, pid, pc, x))
  {
  }

  lemma AskFacts(c: Config, s: Db, pid: nat, pc: Pc, x: Input)
    requires |s.tables| > 0 && pc.Ask? && PcFacts(c, s, pid, pc)
    ensures Lands(c, pid, SubmitStep(c, s, pid, pc, x))
  {
  }

  lemma SubmitFacts(c: Config, s: Db, pid: nat, pc: Pc, x: Input)
    requires |s.tables| > 0 && InSubmit(pc) && PcFacts(c, s, pid, pc)
    ensures Lands(c, pid, SubmitStep(c, s, pid, pc, x))
  {
    if pc.Insert? {
      InsertFacts(c, s, pid, pc, x);
    } else if pc.Ask? {
      AskFacts(c, s, pid, pc, x);
    }
  }

  /** Writing a failure is within the rights of whoever may write at all. */
  lemma FailFacts(c: Config, s: Db, pid: nat, op: string, status: L.Status, code: string)
    requires |s.tables| > 0 && MayWrite(s, pid, op) && status != L.NoOp
    requires ResultFacts(s, op, status, Some(L.Code(code)))
    ensures PcFacts(c, s, pid, Fail(op, status, code))
  {
  }

  lemma VetoFacts(c: Config, s: Db, pid: nat, b: Ballot, conf: L.Confirmation, d: L.Decision, code: string)
    requires |s.tables| > 0 && Recallable(s, b.confirmation, conf) && conf.op in s.ops
    requires b.actor == conf.actor && (b.decision == "approve" || b.decision == "reject") && d != L.Approve
    requires d == Verdict(b, conf, s.ops[conf.op].request, s.now, Current(s))
    requires code != "approval_binding_invalid" && (code == "bound_target_missing" ==> d == L.Reject)
    ensures PcFacts(c, s, pid, Veto(b, conf, d, code, s.now, |s.tables| - 1))
  {
  }

  lemma JudgeFacts(c: Config, s: Db, pid: nat, b: Ballot, conf: L.Confirmation)
    requires |s.tables| > 0 && Recallable(s, b.confirmation, conf) && conf.op in s.ops
    ensures PcFacts(c, s, pid, Judge(s, b, conf, s.ops[conf.op].request))
  {
    var pc := Judge(s, b, conf, s.ops[conf.op].request);
    if pc.Settle? {
      VetoFacts(c, s, pid, b, conf, pc.d, pc.code);
    }
  }

  lemma CheckBindingFacts(c: Config, s: Db, pid: nat, pc: Pc)
    requires |s.tables| > 0 && pc.CheckBinding? && PcFacts(c, s, pid, pc)
    requires pc.conf.op in s.origins ==> s.origins[pc.conf.op].seen < |s.tables|
    requires B.Unique(Current(s))
    ensures Lands(c, pid, DecideStep(s, pid, pc))
  {
    var t, r := Current(s), pc.r;
    if Bound(t, r.device, r.target.value) {
      assert B.FindOwned(t, r.device, r.target.value.provider) == Some(r.target.value.bindingId);
    }
  }

  lemma SettleFacts(c: Config, s: Db, pid: nat, pc: Pc)
    requires |s.tables| > 0 && pc.Settle? && PcFacts(c, s, pid, pc)
    ensures Lands(c, pid, DecideStep(s, pid, pc))
  {
    var m := DecideStep(s, pid, pc);
    if m.pc.Write? {
      FailFacts(c, m.db, pid, pc.op, m.pc.status, pc.code);
    }
  }

  /** After a won approval the re-read confirmation always confirms: it is the
      only one of its operation, it is approved, and its target is the operation's. */
  lemma VerdictFacts(c: Config, s: Db, pid: nat, pc: Pc)
    requires |s.tables| > 0 && pc.LoadVerdict? && PcFacts(c, s, pid, pc)
    requires L.UniqueConfirmations(s.confs) && WinFacts(s, pc.op)
    ensures DecideStep(s, pid, pc) == Move(s, Write(pc.op, L.Approved, None, Start(pc.op, pc.r)))
    ensures Lands(c, pid, DecideStep(s, pid, pc))
  {
    assert FindConfirmation(s.confs, pc.op) == Some(s.wins[pc.op].b.confirmation);
    assert PcFacts(c, s, pid, Start(pc.op, pc.r));
  }

  lemma LoadFacts(c: Config, s: Db, pid: nat, pc: Pc)
    requires |s.tables| > 0 && PcFacts(c, s, pid, pc) && (pc.LoadConfirmation? || pc.LoadOperation? || pc.LoadApproved?)
    ensures Lands(c, pid, DecideStep(s, pid, pc))
  {
    if pc.LoadOperation? && pc.conf.op in s.ops {
      JudgeFacts(c, s, pid, pc.b, pc.conf);
    }
  }

  lemma DecideFacts(c: Config, s: Db, pid: nat, pc: Pc)
    requires LedgerInv(c, s) && InDecide(pc) && PcFacts(c, s, pid, pc)
    ensures Lands(c, pid, DecideStep(s, pid, pc))
  {
    if pc.CheckBinding? {
      assert pc.conf.op in s.origins ==> OriginFacts(s, pc.conf.op);
      B.HistoryVersions(s.tables, |s.tables| - 1, |s.tables| - 1);
      CheckBindingFacts(c, s, pid, pc);
    } else if pc.Settle? {
      SettleFacts(c, s, pid, pc);
    } else if pc.LoadVerdict? {
      VerdictFacts(c, s, pid, pc);
    } else {
      LoadFacts(c, s, pid, pc);
    }
  }

  lemma RecordedFacts(c: Config, s: Db, pid: nat, op: string, r: OpRequest, x: Input)
    requires |s.tables| > 0 && MayWrite(s, pid, op)
    ensures PcFacts(c, s, pid, Recorded(op, r, x)) && Final(Recorded(op, r, x))
  {
  }

  lemma StartFacts(c: Config, s: Db, pid: nat, pc: Pc, x: Input)
    requires |s.tables| > 0 && pc.Start? && PcFacts(c, s, pid, pc)
    ensures Lands(c, pid, ExecuteStep(c, s, pid, pc, x))
  {
    var m := ExecuteStep(c, s, pid, pc, x);
    if m.pc.status == L.Executing {
      assert PcFacts(c, s, pid, m.pc.rest);
    } else {
      FailFacts(c, s, pid, pc.op, L.Failed, m.pc.result.value.code);
    }
  }

  lemma StateReadFacts(c: Config, s: Db, pid: nat, pc: Pc, x: Input)
    requires |s.tables| > 0 && pc.Read? && PcFacts(c, s, pid, pc) && x.StateRead? && pc.r.action.Properties?
    ensures Lands(c, pid, ExecuteStep(c, s, pid, pc, x))
  {
  }

  lemma ReadFacts(c: Config, s: Db, pid: nat, pc: Pc, x: Input)
    requires |s.tables| > 0 && pc.Read? && PcFacts(c, s, pid, pc)
    ensures Lands(c, pid, ExecuteStep(c, s, pid, pc, x))
  {
    if x.StateRead? && pc.r.action.Properties? {
      StateReadFacts(c, s, pid, pc, x);
    } else {
      RecordedFacts(c, s, pid, pc.op, pc.r, if x.TimedOut? then TimedOut else Broken);
    }
  }

  lemma WriteFacts(c: Config, s: Db, pid: nat, pc: Pc, x: Input)
    requires |s.tables| > 0 && pc.Write? && PcFacts(c, s, pid, pc)
    ensures Lands(c, pid, ExecuteStep(c, s, pid, pc, x))
  {
    var m := ExecuteStep(c, s, pid, pc, x);
    if m.db != s {
      WriteAdvances(c, s, pc.op, pc.status, pc.result, Wrote(pid, pc.op, pc.status, pc.result));
      PcFactsStable(c, s, m.db, pid, pc.rest);
    }
  }

  lemma ExecuteFacts(c: Config, s: Db, pid: nat, pc: Pc, x: Input)
    requires |s.tables| > 0 && !InSubmit(pc) && !InDecide(pc) && PcFacts(c, s, pid, pc)
    ensures Lands(c, pid, ExecuteStep(c, s, pid, pc, x))
  {
    match pc
    case Start(_, _) => StartFacts(c, s, pid, pc, x);
    case Read(_, _) => ReadFacts(c, s, pid, pc, x);
    case Send(_, _) =>
    case Await(op, r) => RecordedFacts(c, s, pid, op, r, x);
    case Write(_, _, _, _) => WriteFacts(c, s, pid, pc, x);
    case _ =>
  }

  // ------------------------------------------------------- the trace grows

  /** A step adds at most one event; a finishing event comes from a process
      that had not finished and leaves it with only the outcome to record. */
  ghost predicate Traces(c: Config, s: Db, pid: nat, pc: Pc, m: Move) {
    && s.trace <= m.db.trace && |m.db.trace| <= |s.trace| + 1
    && (Final(pc) ==> Final(m.pc))
    && (|m.db.trace| == |s.trace| + 1 ==>
          var e := m.db.trace[|s.trace|];
          && EventFacts(c, m.db, |s.trace|)
          && e.pid == pid
          && (Finishes(e) ==> !Final(pc) && Final(m.pc)))
  }

  lemma DecideTraces(c: Config, s: Db, pid: nat, pc: Pc)
    requires |s.tables| > 0 && InDecide(pc)
    ensures Traces(c, s, pid, pc, DecideStep(s, pid, pc))
  {
  }

  lemma SendTraces(c: Config, s: Db, pid: nat, pc: Pc, x: Input)
    requires |s.tables| > 0 && pc.Send? && PcFacts(c, s, pid, pc) && (pc.op in s.wins ==> WinFacts(s, pc.op))
    ensures Traces(c, s, pid, pc, ExecuteStep(c, s, pid, pc, x))
  {
  }

  lemma WriteTraces(c: Config, s: Db, pid: nat, pc: Pc, x: Input)
    requires |s.tables| > 0 && pc.Write? && PcFacts(c, s, pid, pc)
    ensures Traces(c, s, pid, pc, ExecuteStep(c, s, pid, pc, x))
  {
  }

  lemma SubmitTraces(c: Config, s: Db, pid: nat, pc: Pc, x: Input)
    requires |s.tables| > 0 && InSubmit(pc) && PcFacts(c, s, pid, pc)
    ensures Traces(c, s, pid, pc, SubmitStep(c, s, pid, pc, x))
  {
    if pc.Insert? {
      InsertTraces(c, s, pid, pc, x);
    } else if pc.LookUp? {
      LookUpTraces(c, s, pid, pc, x);
    } else {
      assert SubmitStep(c, s, pid, pc, x).db.trace == s.trace;
    }
  }

  lemma LookUpTraces(c: Config, s: Db, pid: nat, pc: Pc, x: Input)
    requires |s.tables| > 0 && pc.LookUp? && PcFacts(c, s, pid, pc)
    ensures Traces(c, s, pid, pc, SubmitStep(c, s, pid, pc, x))
  {
    var found := L.FindKey(s.ops, pc.o.q.key);
    if found.Some? {
      var r := RequestOf(pc.o, pc.target);
      assert AnswerFacts(s, pid, r, L.Resolved(s.ops[found.value].request, found.value, r));
    }
  }

  lemma InsertTraces(c: Config, s: Db, pid: nat, pc: Pc, x: Input)
    requires |s.tables| > 0 && pc.Insert? && PcFacts(c, s, pid, pc)
    ensures Traces(c, s, pid, pc, SubmitStep(c, s, pid, pc, x))
  {
    if x.NewId? {
      var r := RequestOf(pc.o, pc.target);
      var db := SubmitStep(c, s, pid, pc, x).db;
      if L.Insertion(s.ops, x.id, r, x.devices) == L.Created {
        assert Created(db, pid, x.id);
      }
      assert AnswerFacts(db, pid, r, L.Insertion(s.ops, x.id, r, x.devices));
    }
  }

  lemma OtherTraces(c: Config, s: Db, pid: nat, pc: Pc, x: Input)
    requires pc.Start? || pc.Read? || pc.Await? || pc.Done?
    ensures Traces(c, s, pid, pc, ExecuteStep(c, s, pid, pc, x))
  {
    assert ExecuteStep(c, s, pid, pc, x).db == s;
    if pc.Await? {
      assert Final(Recorded(pc.op, pc.r, x));
    }
  }

  lemma StepTraces(c: Config, s: Db, pid: nat, pc: Pc, x: Input)
    requires |s.tables| > 0 && PcFacts(c, s, pid, pc) && (pc.Send? && pc.op in s.wins ==> WinFacts(s, pc.op))
    ensures Traces(c, s, pid, pc, RunStep(c, s, pid, pc, x))
  {
    var m := RunStep(c, s, pid, pc, x);
    if InDecide(pc) {
      DecideTraces(c, s, pid, pc);
    } else if InSubmit(pc) {
      SubmitTraces(c, s, pid, pc, x);
    } else if pc.Send? {
      SendTraces(c, s, pid, pc, x);
    } else if pc.Write? {
      WriteTraces(c, s, pid, pc, x);
    } else {
      OtherTraces(c, s, pid, pc, x);
    }
  }

  // -------------------------------------------------- the invariant is kept

  lemma StepAdvances(c: Config, s: Db, pid: nat, pc: Pc, x: Input)
    requires LedgerInv(c, s) && PcFacts(c, s, pid, pc)
    ensures Advances(c, s, RunStep(c, s, pid, pc, x).db) && Lands(c, pid, RunStep(c, s, pid, pc, x))
  {
    if InSubmit(pc) {
      SubmitAdvances(c, s, pid, pc, x);
      SubmitFacts(c, s, pid, pc, x);
    } else if InDecide(pc) {
      DecideAdvances(c, s, pid, pc);
      DecideFacts(c, s, pid, pc);
    } else {
      ExecuteAdvances(c, s, pid, pc, x);
      ExecuteFacts(c, s, pid, pc, x);
    }
  }

  lemma LedgerKept(c: Config, s: Db, s': Db)
    requires LedgerInv(c, s) && Advances(c, s, s') && Keyed(s')
    ensures LedgerInv(c, s')
  {
    forall id | id in s'.confs ensures ConfFacts(c, s', id) {
      if id in s.confs { ConfFactsStable(c, s, s', id); }
    }
    forall op | op in s'.origins ensures OriginFacts(s', op) {
      if op in s.origins { OriginFactsStable(s, s', op); }
    }
    forall op | op in s'.wins ensures WinFacts(s', op) {
      if op in s.wins { WinFactsStable(s, s', op); }
    }
  }

  lemma TraceKept(c: Config, s: Db, s': Db)
    requires TraceInv(c, s) && Extends(s, s')
    requires forall i | |s.trace| <= i < |s'.trace| :: EventFacts(c, s', i)
    ensures TraceInv(c, s')
  {
    forall i | 0 <= i < |s'.trace| ensures EventFacts(c, s', i) {
      if i < |s.trace| { EventFactsStable(c, s, s', i); }
    }
  }

  lemma OnceKept(c: Config, s: State, pid: nat, m: Move)
    requires OnceInv(s) && pid in s.procs && Traces(c, s.db, pid, s.procs[pid], m)
    ensures OnceInv(State(m.db, s.procs[pid := m.pc]))
  {
    var t, t' := s.db.trace, m.db.trace;
    assert forall i | 0 <= i < |t| :: t'[i] == t[i];
  }

  lemma ProcsKept(c: Config, s: State, pid: nat, m: Move)
    requires |s.db.tables| > 0 && Extends(s.db, m.db) && Lands(c, pid, m)
    requires ProcsInv(c, s.db, s.procs)
    ensures ProcsInv(c, m.db, s.procs[pid := m.pc])
  {
    forall p | p in s.procs && p != pid ensures PcFacts(c, m.db, p, s.procs[p]) {
      PcFactsStable(c, s.db, m.db, p, s.procs[p]);
    }
  }

  lemma NewEvents(c: Config, s: Db, pid: nat, pc: Pc, m: Move)
    requires Traces(c, s, pid, pc, m)
    ensures forall i | |s.trace| <= i < |m.db.trace| :: EventFacts(c, m.db, i)
  {
  }

  lemma MoveKeeps(c: Config, s: State, pid: nat, m: Move)
    requires Inv(c, s) && pid in s.procs
    requires Advances(c, s.db, m.db) && Lands(c, pid, m) && Traces(c, s.db, pid, s.procs[pid], m)
    requires Keyed(m.db)
    ensures Inv(c, State(m.db, s.procs[pid := m.pc]))
  {
    LedgerKept(c, s.db, m.db);
    NewEvents(c, s.db, pid, s.procs[pid], m);
    TraceKept(c, s.db, m.db);
    OnceKept(c, s, pid, m);
    ProcsKept(c, s, pid, m);
  }

  lemma RunKeeps(c: Config, s: State, pid: nat, x: Input)
    requires Inv(c, s) && pid in s.procs
    ensures var s' := Apply(c, s, Run(pid, x)); Inv(c, s') && Extends(s.db, s'.db)
  {
    StepAdvances(c, s.db, pid, s.procs[pid], x);
    StepTraces(c, s.db, pid, s.procs[pid], x);
    StepKeepsKeys(c, s.db, pid, s.procs[pid], x);
    MoveKeeps(c, s, pid, RunStep(c, s.db, pid, s.procs[pid], x));
  }

  /** A call starts, or a coroutine ends early: the database is as it was. */
  lemma ProcessChangeKeeps(c: Config, s: State, pid: nat, pc: Pc)
    requires Inv(c, s) && PcFacts(c, s.db, pid, pc) && (pid in s.procs ==> Final(pc))
    ensures Inv(c, s.(procs := s.procs[pid := pc]))
  {
  }

  /** The clock and the sync of a binding touch nothing but themselves. */
  lemma WorldKeeps(c: Config, s: State, db: Db)
    requires Inv(c, s) && Extends(s.db, db) && B.History(db.tables)
    requires db == s.db.(now := db.now, tables := db.tables)
    ensures Inv(c, s.(db := db))
  {
    forall id | id in db.confs ensures ConfFacts(c, db, id) { ConfFactsStable(c, s.db, db, id); }
    forall op | op in db.origins ensures OriginFacts(db, op) { OriginFactsStable(s.db, db, op); }
    forall op | op in db.wins ensures WinFacts(db, op) { WinFactsStable(s.db, db, op); }
    TraceKept(c, s.db, db);
    forall p | p in s.procs ensures PcFacts(c, db, p, s.procs[p]) { PcFactsStable(c, s.db, db, p, s.procs[p]); }
  }

  lemma TableKeeps(c: Config, s: State, t: B.Table)
    requires Inv(c, s) && B.Synced(Current(s.db), t)
    ensures var db := s.db.(tables := s.db.tables + [t]); Inv(c, s.(db := db)) && Extends(s.db, db)
  {
    var db := s.db.(tables := s.db.tables + [t]);
    B.HistoryGrows(s.db.tables, t);
    assert Extends(s.db, db);
    WorldKeeps(c, s, db);
  }

  lemma SyncKeeps(c: Config, s: State, id: string, b: B.Binding, devices: set<string>)
    requires Inv(c, s)
    ensures var s' := Apply(c, s, Sync(id, b, devices)); Inv(c, s') && Extends(s.db, s'.db)
  {
    var t := B.Upserted(Current(s.db), id, b, devices);
    assert B.Synced(Current(s.db), t);
    TableKeeps(c, s, t);
  }

  lemma ClockExtends(s: Db, now: int)
    requires s.now <= now
    ensures Extends(s, s.(now := now))
  {
  }

  lemma TickKeeps(c: Config, s: State, now: int)
    requires Inv(c, s) && s.db.now <= now
    ensures var s' := Apply(c, s, Tick(now)); Inv(c, s') && Extends(s.db, s'.db)
  {
    ClockExtends(s.db, now);
    WorldKeeps(c, s, s.db.(now := now));
  }

  lemma SpawnKeeps(c: Config, s: State, l: Label)
    requires Inv(c, s) && Enabled(s, l) && (l.Submit? || l.Decide? || l.Stop?)
    ensures Inv(c, Apply(c, s, l)) && Extends(s.db, Apply(c, s, l).db)
  {
    NothingAdvances(c, s.db);
    if l.Submit? {
      ProcessChangeKeeps(c, s, l.pid, FindDevice(l.q));
    } else if l.Decide? {
      ProcessChangeKeeps(c, s, l.pid, LoadConfirmation(l.b));
    } else {
      ProcessChangeKeeps(c, s, l.pid, Done);
    }
  }

  lemma ApplyKeeps(c: Config, s: State, l: Label)
    requires Inv(c, s) && Enabled(s, l)
    ensures Inv(c, Apply(c, s, l)) && Extends(s.db, Apply(c, s, l).db)
  {
    match l
    case Tick(now) => TickKeeps(c, s, now);
    case Sync(id, b, devices) => SyncKeeps(c, s, id, b, devices);
    case Run(pid, x) => RunKeeps(c, s, pid, x);
    case _ => SpawnKeeps(c, s, l);
  }

  lemma InitHolds(c: Config, s: State)
    requires Init(s)
    ensures Inv(c, s)
  {
  }

  lemma NextKeeps(c: Config, s: State, s': State)
    requires Inv(c, s) && Next(c, s, s')
    ensures Inv(c, s')
  {
    var l :| Enabled(s, l) && s' == Apply(c, s, l);
    ApplyKeeps(c, s, l);
  }

  lemma {:induction false} Reachable(c: Config, run: seq<State>, n: nat)
    requires Behavior(c, run) && n < |run|
    ensures Inv(c, run[n])
  {
    if n == 0 {
      InitHolds(c, run[0]);
    } else {
      Reachable(c, run, n - 1);
      assert GoesOn(c, run, n - 1);
      NextKeeps(c, run[n - 1], run[n]);
    }
  }
}
