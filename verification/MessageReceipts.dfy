/** User messages: a receipt row per message id decides who runs the command
    and what every repetition is answered. */
module MessageReceipts {
  import opened Base

  /** What the orchestrator returned, and whether a warning was added because
      the conversation could not be synchronised. */
  datatype Response = Response(body: string, warned: bool)

  datatype Receipt = Processing | Completed(response: Response) | Failed

  /** Receipts by message id. */
  type Receipts = map<string, Receipt>

  function Claimed(rows: Receipts, m: string): Receipts {
    if m in rows then rows else rows[m := Processing]
  }

  class ReceiptStore {
    var rows: Receipts

    constructor ()
      ensures rows == map[]
    {
      rows := map[];
    }

    method ClaimMessage(m: string) returns (isNew: bool, receipt: Receipt)
      modifies this
      ensures isNew <==> m !in old(rows)
      ensures rows == Claimed(old(rows), m) == (if isNew then old(rows)[m := Processing] else old(rows))
      ensures m in rows && receipt == rows[m] && (isNew ==> receipt == Processing)
    {
      isNew := m !in rows;
      if isNew {
        rows := rows[m := Processing];
      }
      receipt := rows[m];
    }

    /** Both guarded updates: from processing only, or not at all. */
    method CompleteMessage(m: string, response: Response) returns (ok: bool)
      modifies this
      ensures ok <==> m in old(rows) && old(rows)[m] == Processing
      ensures rows == Settled(old(rows), m, Completed(response))
                   == (if ok then old(rows)[m := Completed(response)] else old(rows))
    {
      ok := m in rows && rows[m] == Processing;
      if ok {
        rows := rows[m := Completed(response)];
      }
    }

    method FailMessage(m: string) returns (ok: bool)
      modifies this
      ensures ok <==> m in old(rows) && old(rows)[m] == Processing
      ensures rows == Settled(old(rows), m, Failed) == (if ok then old(rows)[m := Failed] else old(rows))
    {
      ok := m in rows && rows[m] == Processing;
      if ok {
        rows := rows[m := Failed];
      }
    }
  }

  function Settled(rows: Receipts, m: string, r: Receipt): Receipts {
    if m in rows && rows[m] == Processing then rows[m := r] else rows
  }

  /** `execute` with conversations configured. */
  datatype Pc =
    | Claiming(m: string)
    // waits for the conversation's turn, then records the request
    | Queued(m: string)
    | Running(m: string)
    // the orchestrator has returned; the result is committed to the conversation
    | Committing(m: string, body: string)
    | Completing(m: string, response: Response)
    | Failing(m: string)
    | Over

  /** What a caller of `execute` got back, at first hand or as a replay. */
  datatype Answer = Answer(m: string, response: Response)

  /** What the orchestrator returned for a message. */
  datatype Return = Return(m: string, body: string)

  /** `Refuses` is a dependency error, `Raises` any other. */
  datatype Input = Goes | Returns(body: string) | Refuses | Raises

  datatype State = State(
    receipts: Receipts, procs: map<nat, Pc>, started: seq<string>, returned: set<Return>, answers: set<Answer>)

  datatype Label = Begin(pid: nat, m: string) | Run(pid: nat, x: Input) | Stop(pid: nat)

  predicate Enabled(s: State, l: Label) {
    match l
    case Begin(pid, _) => pid !in s.procs
    case Run(pid, _) => pid in s.procs
    case Stop(pid) => pid in s.procs
  }

  function Go(s: State, pid: nat, pc: Pc): State {
    s.(procs := s.procs[pid := pc])
  }

  function Tell(s: State, m: string, response: Response): State {
    s.(answers := s.answers + {Answer(m, response)})
  }

  function RunStep(s: State, pid: nat, x: Input): State
    requires pid in s.procs
  {
    match s.procs[pid]
    case Claiming(m) =>
      if m !in s.receipts then Go(s, pid, Queued(m)).(receipts := Claimed(s.receipts, m))
      else if s.receipts[m].Completed? then Tell(Go(s, pid, Over), m, s.receipts[m].response)
      else Go(s, pid, Over)
    case Queued(m) => if x.Raises? then Go(s, pid, Over) else Go(s, pid, Running(m)).(started := s.started + [m])
    case Running(m) =>
      if x.Returns? then Go(s, pid, Committing(m, x.body)).(returned := s.returned + {Return(m, x.body)})
      else Go(s, pid, Failing(m))
    case Committing(m, body) =>
      if x.Raises? then Go(s, pid, Over) else Go(s, pid, Completing(m, Response(body, x.Refuses?)))
    case Completing(m, response) =>
      if m in s.receipts && s.receipts[m] == Processing then
        Tell(Go(s, pid, Over).(receipts := Settled(s.receipts, m, Completed(response))), m, response)
      else Go(s, pid, Over)
    case Failing(m) => Go(s, pid, Over).(receipts := Settled(s.receipts, m, Failed))
    case Over => s
  }

  function Apply(s: State, l: Label): State
    requires Enabled(s, l)
  {
    match l
    case Begin(pid, m) => Go(s, pid, Claiming(m))
    case Run(pid, x) => RunStep(s, pid, x)
    case Stop(pid) => Go(s, pid, Over)
  }

  ghost predicate Next(s: State, s': State) {
    exists l :: Enabled(s, l) && s' == Apply(s, l)
  }

  ghost predicate Behavior(run: seq<State>) {
    && |run| > 0
    && run[0].procs == map[] && run[0].started == [] && run[0].returned == {} && run[0].answers == {}
    && forall i, j | 0 <= i && j == i + 1 < |run| :: Next(run[i], run[j])
  }

  /** The process claimed the message and has not settled it. */
  predicate Owns(pc: Pc, m: string) {
    pc == Queued(m) || pc == Running(m) || (pc.Committing? && pc.m == m) || (pc.Completing? && pc.m == m)
    || pc == Failing(m)
  }

  ghost predicate OwnersInv(s: State) {
    && (forall p, m | p in s.procs && Owns(s.procs[p], m) :: m in s.receipts && s.receipts[m] == Processing)
    && (forall p, q, m | p in s.procs && q in s.procs && Owns(s.procs[p], m) && Owns(s.procs[q], m) :: p == q)
  }

  ghost predicate StartsInv(s: State) {
    && (forall m | m in s.started :: m in s.receipts && forall p | p in s.procs :: s.procs[p] != Queued(m))
    && Distinct(s.started)
  }

  ghost predicate AnswersInv(s: State) {
    forall a | a in s.answers :: a.m in s.receipts && s.receipts[a.m] == Completed(a.response)
  }

  ghost predicate Inv(s: State) {
    OwnersInv(s) && StartsInv(s) && AnswersInv(s)
  }

  lemma GoKeeps(s: State, pid: nat, pc: Pc)
    requires Inv(s) && (pid in s.procs || pc.Claiming?) && !pc.Queued?
    requires forall m | Owns(pc, m) :: pid in s.procs && Owns(s.procs[pid], m)
    ensures Inv(Go(s, pid, pc))
  {
  }

  lemma ClaimKeeps(s: State, pid: nat, m: string)
    requires Inv(s) && pid in s.procs && s.procs[pid] == Claiming(m) && m !in s.receipts
    ensures Inv(Go(s, pid, Queued(m)).(receipts := s.receipts[m := Processing]))
  {
  }

  lemma ReplayKeeps(s: State, m: string)
    requires Inv(s) && m in s.receipts && s.receipts[m].Completed?
    ensures Inv(Tell(s, m, s.receipts[m].response))
  {
  }

  lemma StartKeeps(s: State, pid: nat, m: string)
    requires Inv(s) && pid in s.procs && s.procs[pid] == Queued(m)
    ensures Inv(Go(s, pid, Running(m)).(started := s.started + [m]))
  {
    assert Owns(s.procs[pid], m);
    StartsKept(s, pid, m);
    OwnersKept(s, pid, m);
  }

  lemma OwnersKept(s: State, pid: nat, m: string)
    requires OwnersInv(s) && pid in s.procs && Owns(s.procs[pid], m)
    ensures OwnersInv(Go(s, pid, Running(m)).(started := s.started + [m]))
  {
    var procs := s.procs[pid := Running(m)];
    forall p, x | p in procs && Owns(procs[p], x) ensures p in s.procs && Owns(s.procs[p], x) {
    }
  }

  lemma StartsKept(s: State, pid: nat, m: string)
    requires StartsInv(s) && pid in s.procs && s.procs[pid] == Queued(m) && m in s.receipts
    requires forall p | p in s.procs && Owns(s.procs[p], m) :: p == pid
    ensures StartsInv(Go(s, pid, Running(m)).(started := s.started + [m]))
  {
    var started := s.started + [m];
    assert m !in s.started;
    forall x | x in started ensures x in s.started || x == m {
    }
    forall p | p in s.procs && p != pid ensures s.procs[p] != Queued(m) {
      assert !Owns(s.procs[p], m);
    }
  }

  /** Settling one's own receipt disturbs no other owner and no answer given before. */
  lemma SettleKeeps(s: State, pid: nat, m: string, r: Receipt)
    requires Inv(s) && pid in s.procs && Owns(s.procs[pid], m) && r != Processing
    ensures Inv(Go(s, pid, Over).(receipts := Settled(s.receipts, m, r)))
  {
  }

  lemma CompleteKeeps(s: State, pid: nat, m: string, response: Response)
    requires Inv(s) && pid in s.procs && s.procs[pid] == Completing(m, response)
    ensures m in s.receipts && s.receipts[m] == Processing
    ensures Inv(Tell(Go(s, pid, Over).(receipts := Settled(s.receipts, m, Completed(response))), m, response))
  {
    assert Owns(s.procs[pid], m);
    SettleKeeps(s, pid, m, Completed(response));
    ReplayKeeps(Go(s, pid, Over).(receipts := Settled(s.receipts, m, Completed(response))), m);
  }

  lemma ClaimStepKeeps(s: State, pid: nat, m: string, x: Input)
    requires Inv(s) && pid in s.procs && s.procs[pid] == Claiming(m)
    ensures Inv(RunStep(s, pid, x))
  {
    if m !in s.receipts {
      ClaimKeeps(s, pid, m);
    } else {
      GoKeeps(s, pid, Over);
      if s.receipts[m].Completed? {
        ReplayKeeps(Go(s, pid, Over), m);
      }
    }
  }

  lemma QueuedStepKeeps(s: State, pid: nat, m: string, x: Input)
    requires Inv(s) && pid in s.procs && s.procs[pid] == Queued(m)
    ensures Inv(RunStep(s, pid, x))
  {
    if x.Raises? {
      GoKeeps(s, pid, Over);
    } else {
      StartKeeps(s, pid, m);
    }
  }

  lemma RunningStepKeeps(s: State, pid: nat, m: string, x: Input)
    requires Inv(s) && pid in s.procs && s.procs[pid] == Running(m)
    ensures Inv(RunStep(s, pid, x))
  {
    GoKeeps(s, pid, if x.Returns? then Committing(m, x.body) else Failing(m));
  }

  lemma RunStepKeeps(s: State, pid: nat, x: Input)
    requires Inv(s) && pid in s.procs
    ensures Inv(RunStep(s, pid, x))
  {
    match s.procs[pid]
    case Claiming(m) => ClaimStepKeeps(s, pid, m, x);
    case Queued(m) => QueuedStepKeeps(s, pid, m, x);
    case Running(m) => RunningStepKeeps(s, pid, m, x);
    case Committing(m, body) => GoKeeps(s, pid, RunStep(s, pid, x).procs[pid]);
    case Completing(m, response) => CompleteKeeps(s, pid, m, response);
    case Failing(m) => SettleKeeps(s, pid, m, Failed);
    case Over =>
  }

  lemma ApplyKeeps(s: State, l: Label)
    requires Inv(s) && Enabled(s, l)
    ensures Inv(Apply(s, l))
  {
    match l
    case Begin(pid, m) => GoKeeps(s, pid, Claiming(m));
    case Run(pid, x) => RunStepKeeps(s, pid, x);
    case Stop(pid) => GoKeeps(s, pid, Over);
  }

  /** A receipt is settled at most once. */
  ghost predicate Keeps(s: State, s': State) {
    forall m | m in s.receipts :: m in s'.receipts && (s.receipts[m] != Processing ==> s'.receipts[m] == s.receipts[m])
  }

  lemma {:induction false} Reachable(run: seq<State>, n: nat)
    requires Behavior(run) && n < |run|
    ensures Inv(run[n])
  {
    if n == 0 {
    } else {
      Reachable(run, n - 1);
      assert Next(run[n - 1], run[n]);
      var l :| Enabled(run[n - 1], l) && run[n] == Apply(run[n - 1], l);
      ApplyKeeps(run[n - 1], l);
    }
  }

  lemma {:induction false} SettledOnce(run: seq<State>, m: nat, n: nat)
    requires Behavior(run) && m <= n < |run|
    ensures Keeps(run[m], run[n])
  {
    if m == n {
    } else {
      SettledOnce(run, m, n - 1);
      assert Next(run[n - 1], run[n]);
    }
  }

  /** The message has not been returned for yet. */
  predicate BeforeReturn(pc: Pc, m: string) {
    pc == Queued(m) || pc == Running(m)
  }

  /** One return per message, after its start; whoever has a response at hand has
      it from there. */
  ghost predicate ReturnsInv(s: State) {
    && (forall a, b | a in s.returned && b in s.returned && a.m == b.m :: a == b)
    && (forall a | a in s.returned :: a.m in s.started)
    && (forall a, p | a in s.returned && p in s.procs :: !BeforeReturn(s.procs[p], a.m))
    && (forall p, m, body | p in s.procs && s.procs[p] == Committing(m, body) :: Return(m, body) in s.returned)
    && (forall p, m, r | p in s.procs && s.procs[p] == Completing(m, r) :: Return(m, r.body) in s.returned)
    && (forall p, m | p in s.procs && s.procs[p] == Running(m) :: m in s.started)
  }

  /** A completed receipt holds what was returned, unless it was there before. */
  ghost predicate FilledInv(before: Receipts, s: State) {
    forall m | m in s.receipts && s.receipts[m].Completed? ::
      Return(m, s.receipts[m].response.body) in s.returned || (m in before && before[m] == s.receipts[m])
  }

  /** A process that is over, or starts anew, is not concerned. */
  lemma IdleReturns(s: State, pid: nat, pc: Pc)
    requires ReturnsInv(s) && (pc.Claiming? || pc.Failing? || pc.Over?)
    ensures ReturnsInv(Go(s, pid, pc))
  {
  }

  lemma QueuedReturns(s: State, pid: nat, m: string)
    requires ReturnsInv(s) && forall a | a in s.returned :: a.m != m
    ensures ReturnsInv(Go(s, pid, Queued(m)))
  {
  }

  lemma StartedReturns(s: State, pid: nat, m: string)
    requires ReturnsInv(s) && pid in s.procs && s.procs[pid] == Queued(m)
    ensures ReturnsInv(Go(s, pid, Running(m)).(started := s.started + [m]))
  {
    assert BeforeReturn(s.procs[pid], m);
    assert forall x | x in s.started :: x in s.started + [m];
  }

  lemma ReturnedReturns(s: State, pid: nat, m: string, body: string)
    requires ReturnsInv(s) && pid in s.procs && s.procs[pid] == Running(m)
    requires forall p | p in s.procs && p != pid :: !BeforeReturn(s.procs[p], m)
    ensures ReturnsInv(Go(s, pid, Committing(m, body)).(returned := s.returned + {Return(m, body)}))
  {
    assert BeforeReturn(s.procs[pid], m);
  }

  lemma CommittedReturns(s: State, pid: nat, m: string, r: Response)
    requires ReturnsInv(s) && pid in s.procs && s.procs[pid] == Committing(m, r.body)
    ensures ReturnsInv(Go(s, pid, Completing(m, r)))
  {
  }

  /** The records that matter here are the processes, the starts and the returns. */
  lemma SameReturns(s: State, t: State)
    requires ReturnsInv(s) && t.procs == s.procs && t.started == s.started && t.returned == s.returned
    ensures ReturnsInv(t)
  {
  }

  lemma OnlyOwner(s: State, pid: nat, m: string)
    requires Inv(s) && pid in s.procs && s.procs[pid] == Running(m)
    ensures forall p | p in s.procs && p != pid :: !BeforeReturn(s.procs[p], m)
  {
    forall p | p in s.procs && p != pid ensures !BeforeReturn(s.procs[p], m) {
      assert Owns(s.procs[pid], m) && (BeforeReturn(s.procs[p], m) ==> Owns(s.procs[p], m));
    }
  }

  lemma ClaimReturns(s: State, pid: nat, m: string, x: Input)
    requires ReturnsInv(s) && pid in s.procs && s.procs[pid] == Claiming(m)
    requires m !in s.receipts ==> forall a | a in s.returned :: a.m != m
    ensures ReturnsInv(RunStep(s, pid, x))
  {
    if m !in s.receipts {
      QueuedReturns(s, pid, m);
      SameReturns(Go(s, pid, Queued(m)), RunStep(s, pid, x));
    } else {
      IdleReturns(s, pid, Over);
      SameReturns(Go(s, pid, Over), RunStep(s, pid, x));
    }
  }

  lemma RunningReturns(s: State, pid: nat, m: string, x: Input)
    requires ReturnsInv(s) && pid in s.procs && s.procs[pid] == Running(m)
    requires forall p | p in s.procs && p != pid :: !BeforeReturn(s.procs[p], m)
    ensures ReturnsInv(RunStep(s, pid, x))
  {
    if x.Returns? {
      ReturnedReturns(s, pid, m, x.body);
    } else {
      IdleReturns(s, pid, Failing(m));
    }
  }

  lemma LateReturns(s: State, pid: nat, x: Input)
    requires ReturnsInv(s) && pid in s.procs && !s.procs[pid].Claiming? && !s.procs[pid].Running?
    ensures ReturnsInv(RunStep(s, pid, x))
  {
    var pc := s.procs[pid];
    IdleReturns(s, pid, Over);
    if pc.Queued? {
      StartedReturns(s, pid, pc.m);
    } else if pc.Committing? {
      CommittedReturns(s, pid, pc.m, Response(pc.body, x.Refuses?));
    } else {
      SameReturns(Go(s, pid, Over), RunStep(s, pid, x));
    }
  }

  lemma StepReturns(s: State, pid: nat, x: Input)
    requires Inv(s) && ReturnsInv(s) && pid in s.procs
    ensures ReturnsInv(RunStep(s, pid, x))
  {
    var pc := s.procs[pid];
    if pc.Claiming? {
      NothingReturned(s, pc.m);
      ClaimReturns(s, pid, pc.m, x);
    } else if pc.Running? {
      OnlyOwner(s, pid, pc.m);
      RunningReturns(s, pid, pc.m, x);
    } else {
      LateReturns(s, pid, x);
    }
  }

  lemma NothingReturned(s: State, m: string)
    requires Inv(s) && ReturnsInv(s)
    ensures m !in s.receipts ==> forall a | a in s.returned :: a.m != m
  {
    forall a | a in s.returned ensures a.m in s.receipts {
      assert a.m in s.started;
    }
  }

  lemma StepFills(before: Receipts, s: State, pid: nat, x: Input)
    requires ReturnsInv(s) && FilledInv(before, s) && pid in s.procs
    ensures FilledInv(before, RunStep(s, pid, x))
  {
  }

  lemma ApplyReturns(before: Receipts, s: State, l: Label)
    requires Inv(s) && ReturnsInv(s) && FilledInv(before, s) && Enabled(s, l)
    ensures ReturnsInv(Apply(s, l)) && FilledInv(before, Apply(s, l))
  {
    match l
    case Begin(pid, m) => IdleReturns(s, pid, Claiming(m));
    case Stop(pid) => IdleReturns(s, pid, Over);
    case Run(pid, x) =>
      StepReturns(s, pid, x);
      StepFills(before, s, pid, x);
  }

  lemma {:induction false} ReturnsHold(run: seq<State>, n: nat)
    requires Behavior(run) && n < |run|
    ensures ReturnsInv(run[n]) && FilledInv(run[0].receipts, run[n])
  {
    if n == 0 {
    } else {
      ReturnsHold(run, n - 1);
      Reachable(run, n - 1);
      assert Next(run[n - 1], run[n]);
      var l :| Enabled(run[n - 1], l) && run[n] == Apply(run[n - 1], l);
      ApplyReturns(run[0].receipts, run[n - 1], l);
    }
  }

  /** Every answer is what the orchestrator returned for the message, once, or
      the response of a receipt completed before the run. */
  lemma AnswersAreReturns(run: seq<State>, n: nat)
    requires Behavior(run) && n < |run|
    ensures forall a | a in run[n].answers ::
      || Return(a.m, a.response.body) in run[n].returned
      || (a.m in run[0].receipts && run[0].receipts[a.m] == Completed(a.response))
    ensures forall a, b | a in run[n].returned && b in run[n].returned && a.m == b.m :: a == b
  {
    Reachable(run, n);
    ReturnsHold(run, n);
  }

  /** The orchestrator starts at most once per message id, whatever repeats,
      fails or stops; and every answer a caller ever gets for a message, first
      or replayed, is one and the same response. */
  lemma StartedOnceAnsweredAlike(run: seq<State>, n: nat)
    requires Behavior(run) && n < |run|
    ensures forall i, j | 0 <= i < j < |run[n].started| :: run[n].started[i] != run[n].started[j]
    ensures forall a, b | a in run[n].answers && b in run[n].answers && a.m == b.m :: a == b
    ensures forall a | a in run[n].answers :: a.m in run[n].receipts && run[n].receipts[a.m] == Completed(a.response)
  {
    Reachable(run, n);
  }

  // ----------------------------------------------------- a call by itself

  /** The state after a call begins and takes its steps, meeting these turns of
      events while queued, in the orchestrator, and at the commit. */
  function Executed(s: State, pid: nat, m: string, queued: Input, ran: Input, committed: Input): State
    requires pid !in s.procs
  {
    var claimed := RunStep(Apply(s, Begin(pid, m)), pid, Goes);
    var started := RunStep(claimed, pid, queued);
    RunStep(RunStep(RunStep(started, pid, ran), pid, committed), pid, Goes)
  }

  /** A repetition: the known receipt stays, and only a completed one answers. */
  lemma RepeatAlone(s: State, pid: nat, m: string, queued: Input, ran: Input, committed: Input)
    requires pid !in s.procs && m in s.receipts
    ensures var after := Executed(s, pid, m, queued, ran, committed);
            && after.procs == s.procs[pid := Over] && after.receipts == s.receipts && after.started == s.started
            && after.returned == s.returned
            && after.answers == if s.receipts[m].Completed? then s.answers + {Answer(m, s.receipts[m].response)}
                                else s.answers
  {
  }

  /** From a committed result on. */
  lemma FinishAlone(s: State, pid: nat, m: string, body: string, committed: Input)
    requires pid in s.procs && s.procs[pid] == Committing(m, body) && m in s.receipts && s.receipts[m] == Processing
    ensures var after := RunStep(RunStep(s, pid, committed), pid, Goes);
            var response := Response(body, committed.Refuses?);
            after == if committed.Raises? then s.(procs := s.procs[pid := Over])
                     else s.(procs := s.procs[pid := Over], receipts := s.receipts[m := Completed(response)],
                             answers := s.answers + {Answer(m, response)})
  {
    assert s.procs[pid := Over][pid := Over] == s.procs[pid := Over];
  }

  /** From the orchestrator's turn on. */
  lemma RunAlone(s: State, pid: nat, m: string, ran: Input, committed: Input)
    requires pid in s.procs && s.procs[pid] == Running(m) && m in s.receipts && s.receipts[m] == Processing
    ensures var after := RunStep(RunStep(RunStep(s, pid, ran), pid, committed), pid, Goes);
            && after.procs == s.procs[pid := Over] && after.started == s.started
            && after.returned == (if ran.Returns? then s.returned + {Return(m, ran.body)} else s.returned)
            && after.receipts == s.receipts[m := if !ran.Returns? then Failed
                                                 else if committed.Raises? then Processing
                                                 else Completed(Response(ran.body, committed.Refuses?))]
            && after.answers == (if ran.Returns? && !committed.Raises?
                                 then s.answers + {Answer(m, Response(ran.body, committed.Refuses?))} else s.answers)
  {
    if ran.Returns? {
      FinishAlone(RunStep(s, pid, ran), pid, m, ran.body, committed);
    }
  }

  /** A new message: it starts unless its request cannot be recorded; what the
      orchestrator returns is stored, and is the answer, with a warning exactly
      when the conversation refused it; a failure is stored as one and answers
      nothing; and what cannot be committed is left in processing. */
  lemma ExecuteAlone(s: State, pid: nat, m: string, queued: Input, ran: Input, committed: Input)
    requires pid !in s.procs && m !in s.receipts
    ensures var after := Executed(s, pid, m, queued, ran, committed);
            && after.procs == s.procs[pid := Over]
            && after.started == (if queued.Raises? then s.started else s.started + [m])
            && after.returned == (if !queued.Raises? && ran.Returns? then s.returned + {Return(m, ran.body)}
                                  else s.returned)
            && after.receipts == s.receipts[m := if queued.Raises? then Processing
                                                 else if !ran.Returns? then Failed
                                                 else if committed.Raises? then Processing
                                                 else Completed(Response(ran.body, committed.Refuses?))]
            && after.answers == (if !queued.Raises? && ran.Returns? && !committed.Raises?
                                 then s.answers + {Answer(m, Response(ran.body, committed.Refuses?))} else s.answers)
  {
    var claimed := RunStep(Apply(s, Begin(pid, m)), pid, Goes);
    assert claimed == s.(procs := s.procs[pid := Queued(m)], receipts := s.receipts[m := Processing]);
    if !queued.Raises? {
      RunAlone(RunStep(claimed, pid, queued), pid, m, ran, committed);
    }
  }
}
