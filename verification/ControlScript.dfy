/** In what order a process does things: whatever others do in between, the
    events of one process follow the script of its coroutine. */
module ControlScript {
  import opened Base
  import opened Policy
  import opened ControlProtocol
  import opened ControlSafety
  import opened ControlHistory

  /** The last event of the process so far. */
  ghost function LastOf(trace: seq<Event>, pid: nat): (r: Option<Event>)
    ensures r.Some? ==> r.value in trace && r.value.pid == pid
    ensures r.None? ==> forall i | 0 <= i < |trace| :: trace[i].pid != pid
  {
    if trace == [] then None
    else if trace[|trace| - 1].pid == pid then Some(trace[|trace| - 1])
    else LastOf(trace[..|trace| - 1], pid)
  }

  lemma {:induction false} LastOfIs(trace: seq<Event>, pid: nat, i: nat)
    requires i < |trace| && trace[i].pid == pid && forall k | i < k < |trace| :: trace[k].pid != pid
    ensures LastOf(trace, pid) == Some(trace[i])
  {
    if i == |trace| - 1 {
    } else {
      LastOfIs(trace[..|trace| - 1], pid, i);
    }
  }

  lemma {:induction false} LastOfNone(trace: seq<Event>, pid: nat)
    requires forall k | 0 <= k < |trace| :: trace[k].pid != pid
    ensures LastOf(trace, pid) == None
  {
    if trace == [] {
    } else {
      LastOfNone(trace[..|trace| - 1], pid);
    }
  }

  lemma LastOfGrows(trace: seq<Event>, e: Event, pid: nat)
    ensures LastOf(trace + [e], pid) == if e.pid == pid then Some(e) else LastOf(trace, pid)
  {
    assert (trace + [e])[..|trace|] == trace;
  }

  // ------------------------------------------------------------- the script

  /** The code a refused ballot leaves on the operation. */
  function Refusal(b: Ballot, conf: L.Confirmation, r: OpRequest): string {
    if b.hash != conf.hash then "action_hash_mismatch"
    else if b.decision == "reject" then "confirmation_rejected"
    else if r.target.None? || r.target != conf.target then "bound_target_missing"
    else "binding_changed"
  }

  /** The write that carries out a decision. */
  predicate Enacts(d: L.Decision, refusal: string, status: L.Status, result: Option<L.OpResult>) {
    match d
    case Approve => status == L.Approved && result == None
    case Expire => status == L.Expired && result == Some(L.Code("confirmation_expired"))
    case Reject => status == L.Rejected && result == Some(L.Code(refusal))
    case Pending => false
  }

  /** The write with which an execution begins, or fails to. */
  predicate Begins(c: Config, r: OpRequest, status: L.Status, result: Option<L.OpResult>) {
    && r.target.Some?
    && var t := r.target.value;
       || (status == L.Executing && result == None
           && t.provider in c.providers && c.providers[t.provider] == t.providerType)
       || (status == L.Failed && result == Some(L.Code("device_unavailable")))
       || (status == L.Failed && result == Some(L.Code("provider_binding_mismatch"))
           && (t.provider in c.providers ==> c.providers[t.provider] != t.providerType))
  }

  /** What an execution under way does next: it sends the command, or finds
      that all wanted values are there, or cannot read them. */
  predicate Proceeds(r: OpRequest, f: Event) {
    match f
    case Issued(_, _, provider, externalRef, action) =>
      && r.target.Some? && provider == r.target.value.provider && externalRef == r.target.value.externalRef
      && action == r.action
    case Wrote(_, _, status, result) =>
      && r.action.Properties?
      && if status == L.NoOp then
           && result.Some? && result.value.Payload? && result.value.data.JObject?
           && var found := result.value.data.fields;
              forall k | k in r.action.values :: (if k in found then found[k] else JNull) == r.action.values[k]
         else
           && status == L.Unknown
           && (result == Some(L.Code("provider_timeout")) || result == Some(L.Code("provider_error")))
    case _ => false
  }

  /** The provider's report shows every wanted value in place. */
  predicate Confirms(action: Action, data: Json) {
    && action.Properties? && data.JObject? && "after" in data.fields && data.fields["after"].JObject?
    && var found := data.fields["after"].fields;
       forall k | k in action.values :: (if k in found then found[k] else JNull) == action.values[k]
  }

  /** The write that records what became of a command. */
  predicate Concludes(r: OpRequest, status: L.Status, result: Option<L.OpResult>) {
    && result.Some?
    && match status
       case Succeeded => result.value.Payload? && Confirms(r.action, result.value.data)
       case Accepted => result.value.Payload? && !Confirms(r.action, result.value.data)
       case Failed => result.value.Code? && result.value.code != "" && result.value.code != "provider_timeout"
       case Unknown => result.value == L.Code("provider_timeout") || result.value == L.Code("provider_error")
       case _ => false
  }

  /** The confirmation that was asked for a submission. */
  predicate AsksFor(c: Config, conf: L.Confirmation, op: string, o: Origin, target: Target) {
    && conf.op == op && conf.hash == ActionHash(o.q.device, o.q.action, target)
    && conf.actor == c.confirmer && conf.target == Some(target)
  }

  /** `f` is what a process may do next whose last event is `e`. */
  ghost predicate Follows(c: Config, s: Db, e: Option<Event>, f: Event) {
    if e.None? then f.Answered? || f.Settled? || f.Lost?
    else match e.value
      case Settled(_, id, d) =>
        && f.Wrote? && id in s.confs && f.op == s.confs[id].op && f.op in s.ops && f.op in s.wins
        && Enacts(d, Refusal(s.wins[f.op].b, s.confs[id], s.ops[f.op].request), f.status, f.result)
      case Answered(_, o, target, answer) =>
        && answer == L.Created && f.Wrote? && f.op in s.origins && s.origins[f.op] == o
        && f.op in s.ops && s.ops[f.op].request.target == Some(target)
        && if o.q.principal.mode == Autonomous && o.risk == High then
             && f.status == L.PendingConfirmation && f.result.Some? && f.result.value.AwaitingConfirmation?
             && f.result.value.confirmation in s.confs
             && AsksFor(c, s.confs[f.result.value.confirmation], f.op, o, target)
           else Begins(c, s.ops[f.op].request, f.status, f.result)
      case Wrote(_, op, status, _) =>
        && (f.Wrote? || f.Issued?) && f.op == op && op in s.ops
        && ((status == L.Approved && f.Wrote? && Begins(c, s.ops[op].request, f.status, f.result))
            || (status == L.Executing && Proceeds(s.ops[op].request, f)))
      case Issued(_, op, _, _, _) =>
        f.Wrote? && f.op == op && op in s.ops && Concludes(s.ops[op].request, f.status, f.result)
      case Lost(_, _) => false
  }

  /** Where a process stands whose last event is `e`. */
  ghost predicate Stage(c: Config, s: Db, pid: nat, e: Option<Event>, pc: Pc)
    decreases pc
  {
    match pc
    case Done => true
    case Write(op, status, result, rest) =>
      var f := Wrote(pid, op, status, result);
      && e.Some? && Follows(c, s, e, f) && Stage(c, s, pid, Some(f), rest)
      && (status == L.Approved || status == L.Executing ==> !rest.Done?)
    case Settle(b, op, d, _, code, _, _) =>
      && e.None? && d != L.Pending && (d == L.Expire ==> code == "confirmation_expired")
      && (d == L.Reject ==>
            op in s.ops && b.confirmation in s.confs && code == Refusal(b, s.confs[b.confirmation], s.ops[op].request))
    case LoadApproved(op) => HasWon(s, e, op)
    case LoadVerdict(op, _) => HasWon(s, e, op)
    case Ask(op, q, target) => Told(s, e, op, target) && e.value.o.q == q && Gated(e.value.o)
    case Start(op, r) =>
      && e.Some?
      && ((r.target.Some? && Told(s, e, op, r.target.value) && !Gated(e.value.o))
          || (e.value.Wrote? && e.value.op == op && e.value.status == L.Approved))
    case Read(op, r) => e == Some(Wrote(pid, op, L.Executing, None)) && r.action.Properties?
    case Send(op, r) => e == Some(Wrote(pid, op, L.Executing, None))
    case Await(op, _) => e.Some? && e.value.Issued? && e.value.op == op
    case _ => e.None?
  }

  ghost predicate HasWon(s: Db, e: Option<Event>, op: string) {
    && e.Some? && e.value.Settled? && e.value.d == L.Approve
    && e.value.id in s.confs && s.confs[e.value.id].op == op && op in s.ops && op in s.wins
  }

  /** The process was told that its row was created. */
  ghost predicate Told(s: Db, e: Option<Event>, op: string, target: Target) {
    && e.Some? && e.value.Answered? && e.value.answer == L.Created && e.value.target == target
    && op in s.origins && s.origins[op] == e.value.o
    && op in s.ops && s.ops[op].request.target == Some(target)
  }

  // ------------------------------------------------------- it stays followed

  lemma FollowsStable(c: Config, s: Db, s': Db, e: Option<Event>, f: Event)
    requires Extends(s, s') && Follows(c, s, e, f)
    ensures Follows(c, s', e, f)
  {
  }

  lemma {:induction false} StageStable(c: Config, s: Db, s': Db, pid: nat, e: Option<Event>, pc: Pc)
    requires Extends(s, s') && Stage(c, s, pid, e, pc)
    ensures Stage(c, s', pid, e, pc)
    decreases pc
  {
    if pc.Write? {
      var f := Wrote(pid, pc.op, pc.status, pc.result);
      FollowsStable(c, s, s', e, f);
      StageStable(c, s, s', pid, Some(f), pc.rest);
    }
  }

  /** A step adds no event, or the one that comes next. */
  ghost predicate Performs(c: Config, s: Db, pid: nat, e: Option<Event>, m: Move) {
    || (m.db.trace == s.trace && Stage(c, m.db, pid, e, m.pc))
    || (|m.db.trace| == |s.trace| + 1 &&
        var f := m.db.trace[|s.trace|];
        m.db.trace == s.trace + [f] && f.pid == pid && Follows(c, m.db, e, f) && Stage(c, m.db, pid, Some(f), m.pc))
  }

  lemma InsertPerforms(c: Config, s: Db, pid: nat, e: Option<Event>, pc: Pc, x: Input)
    requires |s.tables| > 0 && pc.Insert? && Stage(c, s, pid, e, pc)
    ensures Performs(c, s, pid, e, SubmitStep(c, s, pid, pc, x))
  {
  }

  lemma AskedPerforms(c: Config, s: Db, pid: nat, e: Option<Event>, pc: Pc, id: string, conf: L.Confirmation)
    requires pc.Ask? && Told(s, e, pc.op, pc.target) && e.value.o.q == pc.q && Gated(e.value.o)
    requires L.Requestable(s.confs, id, pc.op, s.ops.Keys) && AsksFor(c, conf, pc.op, e.value.o, pc.target)
    ensures Performs(c, s, pid, e, Move(AddConfirmation(s, id, conf),
                     Write(pc.op, L.PendingConfirmation, Some(L.AwaitingConfirmation(id)), Done)))
  {
  }

  lemma AskPerforms(c: Config, s: Db, pid: nat, e: Option<Event>, pc: Pc, x: Input)
    requires |s.tables| > 0 && pc.Ask? && Stage(c, s, pid, e, pc)
    ensures Performs(c, s, pid, e, SubmitStep(c, s, pid, pc, x))
  {
    var m := SubmitStep(c, s, pid, pc, x);
    if x.NewId? && L.Requestable(s.confs, x.id, pc.op, s.ops.Keys) {
      var hash := ActionHash(pc.q.device, pc.q.action, pc.target);
      var conf := L.Asked(pc.op, hash, c.confirmer, pc.target, s.now + c.ttl);
      assert m == Move(AddConfirmation(s, x.id, conf),
                       Write(pc.op, L.PendingConfirmation, Some(L.AwaitingConfirmation(x.id)), Done));
      AskedPerforms(c, s, pid, e, pc, x.id, conf);
    } else {
      assert m == Move(s, Done);
    }
  }

  lemma SubmitPerforms(c: Config, s: Db, pid: nat, e: Option<Event>, pc: Pc, x: Input)
    requires |s.tables| > 0 && InSubmit(pc) && PcFacts(c, s, pid, pc) && Stage(c, s, pid, e, pc)
    ensures Performs(c, s, pid, e, SubmitStep(c, s, pid, pc, x))
  {
    if pc.Insert? {
      InsertPerforms(c, s, pid, e, pc, x);
    } else if pc.Ask? {
      AskPerforms(c, s, pid, e, pc, x);
    }
  }

  lemma LoadOperationPerforms(c: Config, s: Db, pid: nat, e: Option<Event>, pc: Pc)
    requires |s.tables| > 0 && pc.LoadOperation? && PcFacts(c, s, pid, pc) && Stage(c, s, pid, e, pc)
    ensures Performs(c, s, pid, e, DecideStep(s, pid, pc))
  {
  }

  lemma CheckBindingPerforms(c: Config, s: Db, pid: nat, e: Option<Event>, pc: Pc)
    requires |s.tables| > 0 && pc.CheckBinding? && PcFacts(c, s, pid, pc) && Stage(c, s, pid, e, pc)
    ensures Performs(c, s, pid, e, DecideStep(s, pid, pc))
  {
  }

  /** The three ways on from a decision that was taken. */
  predicate GoesOnWith(d: L.Decision, op: string, code: string, next: Pc) {
    match d
    case Approve => next == LoadApproved(op)
    case Expire => next == Write(op, L.Expired, Some(L.Code(code)), Done)
    case _ => next == Write(op, L.Rejected, Some(L.Code(code)), Done)
  }

  lemma TakenPerforms(c: Config, s: Db, x: L.Expected, w: Win, pc: Pc, next: Pc)
    requires pc.Settle? && Stage(c, s, w.pid, None, pc)
    requires pc.op in s.ops && w.b.confirmation in s.confs && s.confs[w.b.confirmation].op == pc.op
    requires w.b == pc.b && w.d == pc.d && GoesOnWith(w.d, pc.op, pc.code, next)
    ensures Performs(c, s, w.pid, None, Move(TakeDecision(s, pc.op, x, w), next))
  {
  }

  lemma SettlePerforms(c: Config, s: Db, pid: nat, e: Option<Event>, pc: Pc)
    requires |s.tables| > 0 && pc.Settle? && Sound(s, pc.op, pc.b, pc.d, pc.at, pc.seen) && Stage(c, s, pid, e, pc)
    ensures Performs(c, s, pid, e, DecideStep(s, pid, pc))
  {
    if L.Decidable(s.confs, pc.b.confirmation, pc.e) {
      TakenPerforms(c, s, pc.e, Win(pid, pc.b, pc.d, pc.at, pc.seen, |s.trace|), pc, DecideStep(s, pid, pc).pc);
    }
  }

  lemma ApprovedPerforms(c: Config, s: Db, pid: nat, e: Option<Event>, op: string, r: OpRequest)
    requires HasWon(s, e, op)
    ensures Performs(c, s, pid, e, Move(s, Write(op, L.Approved, None, Start(op, r))))
  {
  }

  lemma LoadPerforms(c: Config, s: Db, pid: nat, e: Option<Event>, pc: Pc)
    requires |s.tables| > 0 && (pc.LoadConfirmation? || pc.LoadApproved?) && Stage(c, s, pid, e, pc)
    ensures Performs(c, s, pid, e, DecideStep(s, pid, pc))
  {
  }

  lemma DecidePerforms(c: Config, s: Db, pid: nat, e: Option<Event>, pc: Pc)
    requires LedgerInv(c, s) && InDecide(pc) && PcFacts(c, s, pid, pc) && Stage(c, s, pid, e, pc)
    ensures Performs(c, s, pid, e, DecideStep(s, pid, pc))
  {
    if pc.LoadOperation? {
      LoadOperationPerforms(c, s, pid, e, pc);
    } else if pc.CheckBinding? {
      CheckBindingPerforms(c, s, pid, e, pc);
    } else if pc.Settle? {
      SettlePerforms(c, s, pid, e, pc);
    } else if pc.LoadVerdict? {
      VerdictFacts(c, s, pid, pc);
      ApprovedPerforms(c, s, pid, e, pc.op, pc.r);
    } else {
      LoadPerforms(c, s, pid, e, pc);
    }
  }

  lemma BeginPerforms(c: Config, s: Db, pid: nat, e: Option<Event>, pc: Pc, status: L.Status,
      result: Option<L.OpResult>, rest: Pc)
    requires pc.Start? && pc.op in s.ops && s.ops[pc.op].request == pc.r && Stage(c, s, pid, e, pc)
    requires Begins(c, pc.r, status, result)
    requires rest == if status != L.Executing then Done
                     else if pc.r.action.Properties? then Read(pc.op, pc.r) else Send(pc.op, pc.r)
    ensures Performs(c, s, pid, e, Move(s, Write(pc.op, status, result, rest)))
  {
  }

  lemma StartPerforms(c: Config, s: Db, pid: nat, e: Option<Event>, pc: Pc, x: Input)
    requires pc.Start? && Ready(s, pid, pc.op, pc.r) && Stage(c, s, pid, e, pc)
    ensures Performs(c, s, pid, e, ExecuteStep(c, s, pid, pc, x))
  {
    var m := ExecuteStep(c, s, pid, pc, x);
    BeginPerforms(c, s, pid, e, pc, m.pc.status, m.pc.result, m.pc.rest);
  }

  lemma ReadPerforms(c: Config, s: Db, pid: nat, e: Option<Event>, pc: Pc, x: Input)
    requires |s.tables| > 0 && pc.Read? && Ready(s, pid, pc.op, pc.r) && Stage(c, s, pid, e, pc)
    ensures Performs(c, s, pid, e, ExecuteStep(c, s, pid, pc, x))
  {
  }

  lemma RecordedConcludes(op: string, r: OpRequest, x: Input)
    ensures var pc := Recorded(op, r, x);
            pc.Write? && pc.op == op && pc.rest == Done && Concludes(r, pc.status, pc.result)
  {
  }

  lemma ConcludePerforms(c: Config, s: Db, pid: nat, e: Option<Event>, op: string, status: L.Status,
      result: Option<L.OpResult>)
    requires e.Some? && e.value.Issued? && e.value.op == op && op in s.ops
    requires Concludes(s.ops[op].request, status, result)
    ensures Performs(c, s, pid, e, Move(s, Write(op, status, result, Done)))
  {
  }

  lemma AwaitPerforms(c: Config, s: Db, pid: nat, e: Option<Event>, pc: Pc, x: Input)
    requires pc.Await? && Ready(s, pid, pc.op, pc.r) && Stage(c, s, pid, e, pc)
    ensures Performs(c, s, pid, e, ExecuteStep(c, s, pid, pc, x))
  {
    RecordedConcludes(pc.op, pc.r, x);
    var next := Recorded(pc.op, pc.r, x);
    ConcludePerforms(c, s, pid, e, pc.op, next.status, next.result);
  }

  lemma WritePerforms(c: Config, s: Db, pid: nat, e: Option<Event>, pc: Pc, x: Input)
    requires |s.tables| > 0 && pc.Write? && PcFacts(c, s, pid, pc) && Stage(c, s, pid, e, pc)
    ensures Performs(c, s, pid, e, ExecuteStep(c, s, pid, pc, x))
  {
    var m, f := ExecuteStep(c, s, pid, pc, x), Wrote(pid, pc.op, pc.status, pc.result);
    if m.db != s {
      WriteAdvances(c, s, pc.op, pc.status, pc.result, f);
      FollowsStable(c, s, m.db, e, f);
      StageStable(c, s, m.db, pid, Some(f), pc.rest);
    }
  }

  lemma ExecutePerforms(c: Config, s: Db, pid: nat, e: Option<Event>, pc: Pc, x: Input)
    requires |s.tables| > 0 && !InSubmit(pc) && !InDecide(pc) && PcFacts(c, s, pid, pc) && Stage(c, s, pid, e, pc)
    ensures Performs(c, s, pid, e, ExecuteStep(c, s, pid, pc, x))
  {
    if pc.Start? {
      StartPerforms(c, s, pid, e, pc, x);
    } else if pc.Read? {
      ReadPerforms(c, s, pid, e, pc, x);
    } else if pc.Await? {
      AwaitPerforms(c, s, pid, e, pc, x);
    } else if pc.Write? {
      WritePerforms(c, s, pid, e, pc, x);
    }
  }

  lemma StepPerforms(c: Config, s: Db, pid: nat, e: Option<Event>, pc: Pc, x: Input)
    requires LedgerInv(c, s) && PcFacts(c, s, pid, pc) && Stage(c, s, pid, e, pc)
    ensures Performs(c, s, pid, e, RunStep(c, s, pid, pc, x))
  {
    if InSubmit(pc) {
      SubmitPerforms(c, s, pid, e, pc, x);
    } else if InDecide(pc) {
      DecidePerforms(c, s, pid, e, pc);
    } else {
      ExecutePerforms(c, s, pid, e, pc, x);
    }
  }

  ghost predicate Linked(c: Config, s: Db, j: nat)
    requires j < |s.trace|
  {
    Follows(c, s, LastOf(s.trace[..j], s.trace[j].pid), s.trace[j])
  }

  ghost predicate Staged(c: Config, s: State, pid: nat) {
    if pid in s.procs then Stage(c, s.db, pid, LastOf(s.db.trace, pid), s.procs[pid])
    else LastOf(s.db.trace, pid) == None
  }

  ghost predicate ScriptInv(c: Config, s: State) {
    && (forall pid: nat :: Staged(c, s, pid))
    && (forall j | 0 <= j < |s.db.trace| :: Linked(c, s.db, j))
  }

  lemma LinkedStable(c: Config, s: Db, s': Db, j: nat)
    requires Extends(s, s') && j < |s.trace| && Linked(c, s, j)
    ensures Linked(c, s', j)
  {
    assert s'.trace[..j] == s.trace[..j];
    FollowsStable(c, s, s', LastOf(s.trace[..j], s.trace[j].pid), s.trace[j]);
  }

  lemma StagedStable(c: Config, s: State, s': State, pid: nat)
    requires Staged(c, s, pid) && Extends(s.db, s'.db) && LastOf(s'.db.trace, pid) == LastOf(s.db.trace, pid)
    requires pid in s.procs <==> pid in s'.procs
    requires pid in s.procs ==> s'.procs[pid] == s.procs[pid]
    ensures Staged(c, s', pid)
  {
    if pid in s.procs {
      StageStable(c, s.db, s'.db, pid, LastOf(s.db.trace, pid), s.procs[pid]);
    }
  }

  lemma LinksKept(c: Config, s: Db, pid: nat, m: Move)
    requires Extends(s, m.db) && Performs(c, s, pid, LastOf(s.trace, pid), m)
    requires forall j | 0 <= j < |s.trace| :: Linked(c, s, j)
    ensures forall j | 0 <= j < |m.db.trace| :: Linked(c, m.db, j)
  {
    forall j | 0 <= j < |m.db.trace| ensures Linked(c, m.db, j) {
      if j < |s.trace| {
        LinkedStable(c, s, m.db, j);
      } else {
        assert m.db.trace[..j] == s.trace;
      }
    }
  }

  lemma LastKept(c: Config, s: Db, pid: nat, m: Move, p: nat)
    requires Performs(c, s, pid, LastOf(s.trace, pid), m)
    ensures p != pid ==> LastOf(m.db.trace, p) == LastOf(s.trace, p)
    ensures Stage(c, m.db, pid, LastOf(m.db.trace, pid), m.pc)
  {
    if m.db.trace != s.trace {
      LastOfGrows(s.trace, m.db.trace[|s.trace|], p);
      LastOfGrows(s.trace, m.db.trace[|s.trace|], pid);
    }
  }

  lemma RunScripted(c: Config, s: State, pid: nat, m: Move)
    requires ScriptInv(c, s) && pid in s.procs && Extends(s.db, m.db)
    requires Performs(c, s.db, pid, LastOf(s.db.trace, pid), m)
    ensures ScriptInv(c, State(m.db, s.procs[pid := m.pc]))
  {
    var t := State(m.db, s.procs[pid := m.pc]);
    LinksKept(c, s.db, pid, m);
    forall p: nat ensures Staged(c, t, p) {
      LastKept(c, s.db, pid, m, p);
      if p != pid {
        StagedStable(c, s, t, p);
      }
    }
  }

  lemma SpawnScripted(c: Config, s: State, pid: nat, pc: Pc)
    requires ScriptInv(c, s) && Extends(s.db, s.db)
    requires pc.Done? || (pid !in s.procs && (pc.FindDevice? || pc.LoadConfirmation?))
    ensures ScriptInv(c, s.(procs := s.procs[pid := pc]))
  {
    var t := s.(procs := s.procs[pid := pc]);
    forall p: nat ensures Staged(c, t, p) {
      assert Staged(c, s, p);
    }
  }

  lemma WorldScripted(c: Config, s: State, db: Db)
    requires ScriptInv(c, s) && Extends(s.db, db) && db == s.db.(now := db.now, tables := db.tables)
    ensures ScriptInv(c, s.(db := db))
  {
    var t := s.(db := db);
    forall p: nat ensures Staged(c, t, p) {
      StagedStable(c, s, t, p);
    }
    forall j | 0 <= j < |db.trace| ensures Linked(c, db, j) {
      LinkedStable(c, s.db, db, j);
    }
  }

  lemma StepScripted(c: Config, s: State, l: Label)
    requires Enabled(s, l) && Inv(c, s) && ScriptInv(c, s)
    ensures ScriptInv(c, Apply(c, s, l))
  {
    ApplyKeeps(c, s, l);
    match l
    case Tick(now) => WorldScripted(c, s, s.db.(now := now));
    case Sync(id, b, devices) =>
      WorldScripted(c, s, s.db.(tables := s.db.tables + [B.Upserted(Current(s.db), id, b, devices)]));
    case Submit(pid, q) => SpawnScripted(c, s, pid, FindDevice(q));
    case Decide(pid, b) => SpawnScripted(c, s, pid, LoadConfirmation(b));
    case Stop(pid) => SpawnScripted(c, s, pid, Done);
    case Run(pid, x) =>
      assert Staged(c, s, pid);
      StepPerforms(c, s.db, pid, LastOf(s.db.trace, pid), s.procs[pid], x);
      RunScripted(c, s, pid, RunStep(c, s.db, pid, s.procs[pid], x));
  }

  lemma {:induction false} ScriptHolds(c: Config, run: seq<State>, n: nat)
    requires Behavior(c, run) && n < |run|
    ensures ScriptInv(c, run[n])
  {
    if n == 0 {
    } else {
      ScriptHolds(c, run, n - 1);
      Reachable(c, run, n - 1);
      var l := StepLabel(c, run, n - 1);
      StepScripted(c, run[n - 1], l);
    }
  }

  // ---------------------------------------------------------------- theorems

  /** Nothing of the process lies between the two places of the trace. */
  predicate NextOf(trace: seq<Event>, i: nat, j: nat) {
    && i < j < |trace| && trace[i].pid == trace[j].pid
    && forall k | i < k < j :: trace[k].pid != trace[i].pid
  }

  /** In every run, the next event of a process is one that may follow its
      last: a won approval is written and then begins to execute, an expiry and
      a refusal write their code and nothing else, a created operation is asked
      about or begins to execute, an execution sends exactly what was requested
      or finds every wanted value in place, and a command is followed by what
      the provider's answer amounts to. */
  lemma ScriptIsFollowed(c: Config, run: seq<State>, n: nat, i: nat, j: nat)
    requires Behavior(c, run) && n < |run| && NextOf(run[n].db.trace, i, j)
    ensures Follows(c, run[n].db, Some(run[n].db.trace[i]), run[n].db.trace[j])
  {
    ScriptHolds(c, run, n);
    var trace := run[n].db.trace;
    assert Linked(c, run[n].db, j);
    LastOfIs(trace[..j], trace[j].pid, i);
  }

  /** The first event of a process is the answer to its submission or what
      became of its decision. */
  lemma ScriptOpens(c: Config, run: seq<State>, n: nat, j: nat)
    requires Behavior(c, run) && n < |run| && j < |run[n].db.trace|
    requires forall k | 0 <= k < j :: run[n].db.trace[k].pid != run[n].db.trace[j].pid
    ensures var f := run[n].db.trace[j]; f.Answered? || f.Settled? || f.Lost?
  {
    ScriptHolds(c, run, n);
    var trace := run[n].db.trace;
    assert Linked(c, run[n].db, j);
    LastOfNone(trace[..j], trace[j].pid);
  }

  /** After an approval won the compare-and-set, the winner's next event writes
      the operation as approved. */
  lemma ApprovalIsWrittenNext(c: Config, run: seq<State>, n: nat, op: string, j: nat)
    requires Behavior(c, run) && n < |run| && op in run[n].db.wins && run[n].db.wins[op].d == L.Approve
    requires NextOf(run[n].db.trace, run[n].db.wins[op].index, j)
    ensures run[n].db.trace[j] == Wrote(run[n].db.wins[op].pid, op, L.Approved, None)
  {
    Reachable(c, run, n);
    assert WinFacts(run[n].db, op);
    ScriptIsFollowed(c, run, n, run[n].db.wins[op].index, j);
  }
}
