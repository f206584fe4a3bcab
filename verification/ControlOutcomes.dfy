/** What a call comes to: from any moment of any run, the steps of one process
    alone lead to the end of its coroutine, by way of these events. */
module ControlOutcomes {
  import opened Base
  import opened Policy
  import opened ControlProtocol
  import opened ControlSafety
  import opened ControlHistory
  import opened ControlScript

  // ------------------------------------------------------------ running alone

  function Last(run: seq<State>): State
    requires |run| > 0
  {
    run[|run| - 1]
  }

  ghost predicate StepsBy(c: Config, s: State, s': State, pid: nat) {
    exists x :: Enabled(s, Run(pid, x)) && s' == Apply(c, s, Run(pid, x))
  }

  /** From place `from` on, the step out of place `i` is one of this process. */
  ghost predicate OwnStep(c: Config, run: seq<State>, from: nat, i: nat, pid: nat) {
    from <= i + 1 < |run| ==> StepsBy(c, run[i], run[i + 1], pid)
  }

  /** `run'` goes on from `run` with steps of this process and no others. */
  ghost predicate Alone(c: Config, run: seq<State>, run': seq<State>, pid: nat) {
    && Behavior(c, run) && Behavior(c, run') && run <= run'
    && forall i: nat :: OwnStep(c, run', |run|, i, pid)
  }

  ghost predicate At(run: seq<State>, pid: nat, s: Db, pc: Pc) {
    |run| > 0 && Last(run).db == s && pid in Last(run).procs && Last(run).procs[pid] == pc
  }

  lemma Idle(c: Config, run: seq<State>, pid: nat)
    requires Behavior(c, run)
    ensures Alone(c, run, run, pid)
  {
  }

  lemma Longer(c: Config, run: seq<State>, s: State)
    requires Behavior(c, run) && ControlProtocol.Next(c, Last(run), s)
    ensures Behavior(c, run + [s])
  {
    var run' := run + [s];
    forall i: nat ensures GoesOn(c, run', i) {
      assert GoesOn(c, run, i);
    }
  }

  lemma AloneLonger(c: Config, run0: seq<State>, run: seq<State>, pid: nat, s: State)
    requires Alone(c, run0, run, pid) && StepsBy(c, Last(run), s, pid)
    ensures Alone(c, run0, run + [s], pid)
  {
    var x :| Enabled(Last(run), Run(pid, x)) && s == Apply(c, Last(run), Run(pid, x));
    Longer(c, run, s);
    var run' := run + [s];
    forall i: nat ensures OwnStep(c, run', |run0|, i, pid) {
      assert OwnStep(c, run, |run0|, i, pid);
    }
  }

  lemma Go(c: Config, run0: seq<State>, run: seq<State>, pid: nat, s: Db, pc: Pc, x: Input, m: Move)
    returns (run': seq<State>)
    requires Alone(c, run0, run, pid) && At(run, pid, s, pc)
    requires |s.tables| > 0 && RunStep(c, s, pid, pc, x) == m
    ensures Alone(c, run0, run', pid) && At(run', pid, m.db, m.pc)
  {
    var s' := Apply(c, Last(run), Run(pid, x));
    assert StepsBy(c, Last(run), s', pid);
    AloneLonger(c, run0, run, pid, s');
    run' := run + [s'];
  }

  // --------------------------------------------------------------- execution

  /** Rows and questions are the same but for what a write changes. */
  ghost predicate OnlyWrote(s: Db, s': Db, op: string) {
    && s'.ops.Keys == s.ops.Keys && s'.tables == s.tables && s'.confs == s.confs && s'.wins == s.wins
    && forall k | k in s.ops :: s'.ops[k].request == s.ops[k].request && (k != op ==> s'.ops[k] == s.ops[k])
  }

  lemma GoWrite(c: Config, run0: seq<State>, run: seq<State>, pid: nat, s: Db, op: string, status: L.Status,
      result: Option<L.OpResult>, rest: Pc) returns (run': seq<State>, s': Db)
    requires Alone(c, run0, run, pid) && At(run, pid, s, Write(op, status, result, rest))
    requires |s.tables| > 0 && op in s.ops
    ensures Alone(c, run0, run', pid) && At(run', pid, s', rest)
    ensures s'.trace == s.trace + [Wrote(pid, op, status, result)] && OnlyWrote(s, s', op)
  {
    s' := Log(s.(ops := L.Updated(s.ops, op, status, result)), Wrote(pid, op, status, result));
    run' := Go(c, run0, run, pid, s, Write(op, status, result, rest), Nothing, Move(s', rest));
  }

  /** The events of `_execute`, given what the device table, the provider's
      state and the provider's answer are. */
  function Execution(c: Config, pid: nat, op: string, r: OpRequest, t: Target, device: Option<Device>,
      reading: Input, answer: Input): seq<Event>
  {
    if device.None? || !device.value.active then [Wrote(pid, op, L.Failed, Some(L.Code("device_unavailable")))]
    else if t.provider !in c.providers || c.providers[t.provider] != t.providerType then
      [Wrote(pid, op, L.Failed, Some(L.Code("provider_binding_mismatch")))]
    else [Wrote(pid, op, L.Executing, None)] + Attempt(pid, op, r, t, reading, answer)
  }

  /** A command for property values goes out unless each of them is there. */
  function Attempt(pid: nat, op: string, r: OpRequest, t: Target, reading: Input, answer: Input): seq<Event> {
    var command := [Issued(pid, op, t.provider, t.externalRef, r.action), Outcome(pid, op, r.action, answer)];
    if r.action.Service? then command
    else match reading
      case StateRead(found) =>
        if forall k | k in r.action.values :: (if k in found then found[k] else JNull) == r.action.values[k]
        then [Wrote(pid, op, L.NoOp, Some(L.Payload(JObject(found))))]
        else command
      case TimedOut => [Wrote(pid, op, L.Unknown, Some(L.Code("provider_timeout")))]
      case _ => [Wrote(pid, op, L.Unknown, Some(L.Code("provider_error")))]
  }

  /** The write that records an answer. */
  function Outcome(pid: nat, op: string, action: Action, answer: Input): Event {
    match answer
    case Answer(ok, errorCode, data) =>
      if errorCode == Some("provider_timeout") then Wrote(pid, op, L.Unknown, Some(L.Code("provider_timeout")))
      else if !ok && (errorCode == None || errorCode == Some("")) then
        Wrote(pid, op, L.Failed, Some(L.Code("provider_failed")))
      else if !ok then Wrote(pid, op, L.Failed, Some(L.Code(errorCode.value)))
      else if Confirms(action, data) then Wrote(pid, op, L.Succeeded, Some(L.Payload(data)))
      else Wrote(pid, op, L.Accepted, Some(L.Payload(data)))
    case TimedOut => Wrote(pid, op, L.Unknown, Some(L.Code("provider_timeout")))
    case _ => Wrote(pid, op, L.Unknown, Some(L.Code("provider_error")))
  }

  /** The coroutine is over, having added these events. */
  ghost predicate Ends(c: Config, run0: seq<State>, run: seq<State>, pid: nat, s: Db, events: seq<Event>) {
    && Alone(c, run0, run, pid) && |run| > 0 && pid in Last(run).procs && Last(run).procs[pid] == Done
    && Last(run).db.trace == s.trace + events
  }

  lemma RecordedIsOutcome(pid: nat, op: string, r: OpRequest, answer: Input)
    ensures var pc := Recorded(op, r, answer);
            pc.Write? && pc.op == op && pc.rest == Done
            && Outcome(pid, op, r.action, answer) == Wrote(pid, op, pc.status, pc.result)
  {
  }

  lemma GoAwait(c: Config, run0: seq<State>, run: seq<State>, pid: nat, s: Db, op: string, r: OpRequest, answer: Input)
    returns (run': seq<State>)
    requires Alone(c, run0, run, pid) && At(run, pid, s, Await(op, r)) && |s.tables| > 0 && op in s.ops
    ensures Ends(c, run0, run', pid, s, [Outcome(pid, op, r.action, answer)])
    ensures OnlyWrote(s, Last(run').db, op)
  {
    RecordedIsOutcome(pid, op, r, answer);
    var pc := Recorded(op, r, answer);
    run' := Go(c, run0, run, pid, s, Await(op, r), answer, Move(s, pc));
    var s' : Db;
    run', s' := GoWrite(c, run0, run', pid, s, op, pc.status, pc.result, Done);
  }

  lemma GoSend(c: Config, run0: seq<State>, run: seq<State>, pid: nat, s: Db, op: string, r: OpRequest, answer: Input)
    returns (run': seq<State>)
    requires Alone(c, run0, run, pid) && At(run, pid, s, Send(op, r)) && |s.tables| > 0 && op in s.ops && r.target.Some?
    ensures Ends(c, run0, run', pid, s, [Issued(pid, op, r.target.value.provider, r.target.value.externalRef, r.action),
                                         Outcome(pid, op, r.action, answer)])
    ensures OnlyWrote(s, Last(run').db, op)
  {
    var e := Issued(pid, op, r.target.value.provider, r.target.value.externalRef, r.action);
    run' := Go(c, run0, run, pid, s, Send(op, r), Nothing, Move(Log(s, e), Await(op, r)));
    run' := GoAwait(c, run0, run', pid, Log(s, e), op, r, answer);
    assert s.trace + [e] + [Outcome(pid, op, r.action, answer)] == s.trace + [e, Outcome(pid, op, r.action, answer)];
  }

  lemma GoRead(c: Config, run0: seq<State>, run: seq<State>, pid: nat, s: Db, op: string, r: OpRequest,
      reading: Input, answer: Input) returns (run': seq<State>)
    requires Alone(c, run0, run, pid) && At(run, pid, s, Read(op, r)) && |s.tables| > 0 && op in s.ops
    requires r.target.Some? && r.action.Properties?
    ensures Ends(c, run0, run', pid, s, Attempt(pid, op, r, r.target.value, reading, answer))
    ensures OnlyWrote(s, Last(run').db, op)
  {
    var next := RunStep(c, s, pid, Read(op, r), reading).pc;
    run' := Go(c, run0, run, pid, s, Read(op, r), reading, Move(s, next));
    if next.Send? {
      run' := GoSend(c, run0, run', pid, s, op, r, answer);
    } else {
      var s': Db;
      run', s' := GoWrite(c, run0, run', pid, s, op, next.status, next.result, Done);
    }
  }

  lemma GoAttempt(c: Config, run0: seq<State>, run: seq<State>, pid: nat, s: Db, op: string, r: OpRequest,
      reading: Input, answer: Input) returns (run': seq<State>)
    requires Alone(c, run0, run, pid) && |s.tables| > 0 && op in s.ops && r.target.Some?
    requires At(run, pid, s, if r.action.Properties? then Read(op, r) else Send(op, r))
    ensures Ends(c, run0, run', pid, s, Attempt(pid, op, r, r.target.value, reading, answer))
    ensures OnlyWrote(s, Last(run').db, op)
  {
    if r.action.Properties? {
      run' := GoRead(c, run0, run, pid, s, op, r, reading, answer);
    } else {
      run' := GoSend(c, run0, run, pid, s, op, r, answer);
    }
  }

  /** How an execution begins. */
  function Beginning(c: Config, op: string, r: OpRequest, t: Target, device: Option<Device>): Pc {
    if device.None? || !device.value.active then Write(op, L.Failed, Some(L.Code("device_unavailable")), Done)
    else if t.provider !in c.providers || c.providers[t.provider] != t.providerType then
      Write(op, L.Failed, Some(L.Code("provider_binding_mismatch")), Done)
    else Write(op, L.Executing, None, if r.action.Properties? then Read(op, r) else Send(op, r))
  }

  lemma StartIsBeginning(c: Config, s: Db, pid: nat, op: string, r: OpRequest, device: Option<Device>)
    requires |s.tables| > 0 && r.target.Some?
    ensures RunStep(c, s, pid, Start(op, r), DeviceRead(device)) == Move(s, Beginning(c, op, r, r.target.value, device))
  {
  }

  lemma GoBegin(c: Config, run0: seq<State>, run: seq<State>, pid: nat, s: Db, op: string, r: OpRequest,
      device: Option<Device>) returns (run': seq<State>, s': Db)
    requires Alone(c, run0, run, pid) && At(run, pid, s, Start(op, r))
    requires |s.tables| > 0 && op in s.ops && r.target.Some?
    ensures var pc := Beginning(c, op, r, r.target.value, device);
            && Alone(c, run0, run', pid) && At(run', pid, s', pc.rest)
            && s'.trace == s.trace + [Wrote(pid, op, pc.status, pc.result)] && OnlyWrote(s, s', op)
  {
    var pc := Beginning(c, op, r, r.target.value, device);
    StartIsBeginning(c, s, pid, op, r, device);
    run' := Go(c, run0, run, pid, s, Start(op, r), DeviceRead(device), Move(s, pc));
    run', s' := GoWrite(c, run0, run', pid, s, op, pc.status, pc.result, pc.rest);
  }

  lemma OnlyWroteTransitive(a: Db, b: Db, d: Db, op: string)
    requires OnlyWrote(a, b, op) && OnlyWrote(b, d, op)
    ensures OnlyWrote(a, d, op)
  {
  }

  lemma EndsAfter(c: Config, run0: seq<State>, run: seq<State>, pid: nat, s: Db, first: Event, s': Db,
      events: seq<Event>)
    requires Ends(c, run0, run, pid, s', events) && s'.trace == s.trace + [first]
    ensures Ends(c, run0, run, pid, s, [first] + events)
  {
    assert s.trace + [first] + events == s.trace + ([first] + events);
  }

  lemma GoExecute(c: Config, run0: seq<State>, run: seq<State>, pid: nat, s: Db, op: string, r: OpRequest,
      device: Option<Device>, reading: Input, answer: Input) returns (run': seq<State>)
    requires Alone(c, run0, run, pid) && At(run, pid, s, Start(op, r))
    requires |s.tables| > 0 && op in s.ops && r.target.Some?
    ensures Ends(c, run0, run', pid, s, Execution(c, pid, op, r, r.target.value, device, reading, answer))
    ensures OnlyWrote(s, Last(run').db, op)
  {
    var begun, s' := GoBegin(c, run0, run, pid, s, op, r, device);
    var pc := Beginning(c, op, r, r.target.value, device);
    if pc.status == L.Executing {
      run' := GoAttempt(c, run0, begun, pid, s', op, r, reading, answer);
      EndsAfter(c, run0, run', pid, s, Wrote(pid, op, L.Executing, None), s',
                Attempt(pid, op, r, r.target.value, reading, answer));
      OnlyWroteTransitive(s, s', Last(run').db, op);
    } else {
      run' := begun;
    }
  }

  // ---------------------------------------------------------------- approval

  lemma InvAt(c: Config, run0: seq<State>, run: seq<State>, pid: nat, s: Db, pc: Pc)
    requires Alone(c, run0, run, pid) && At(run, pid, s, pc)
    ensures LedgerInv(c, s) && PcFacts(c, s, pid, pc)
  {
    Reachable(c, run, |run| - 1);
  }

  lemma StageAt(c: Config, run: seq<State>, pid: nat, s: Db, pc: Pc)
    requires Behavior(c, run) && At(run, pid, s, pc)
    ensures Stage(c, s, pid, LastOf(s.trace, pid), pc)
  {
    ScriptHolds(c, run, |run| - 1);
    assert Staged(c, Last(run), pid);
  }

  /** The write of the approval, and what comes after it. */
  function Approval(c: Config, pid: nat, op: string, r: OpRequest, t: Target, device: Option<Device>,
      reading: Input, answer: Input): seq<Event>
  {
    [Wrote(pid, op, L.Approved, None)] + Execution(c, pid, op, r, t, device, reading, answer)
  }

  lemma GoApproved(c: Config, run0: seq<State>, run: seq<State>, pid: nat, s: Db, op: string, r: OpRequest,
      device: Option<Device>, reading: Input, answer: Input) returns (run': seq<State>)
    requires Alone(c, run0, run, pid) && At(run, pid, s, Write(op, L.Approved, None, Start(op, r)))
    requires |s.tables| > 0 && op in s.ops && r.target.Some?
    ensures Ends(c, run0, run', pid, s, Approval(c, pid, op, r, r.target.value, device, reading, answer))
  {
    var begun, s' := GoWrite(c, run0, run, pid, s, op, L.Approved, None, Start(op, r));
    run' := GoExecute(c, run0, begun, pid, s', op, r, device, reading, answer);
    EndsAfter(c, run0, run', pid, s, Wrote(pid, op, L.Approved, None), s',
              Execution(c, pid, op, r, r.target.value, device, reading, answer));
  }

  /** A win is of an operation on record that has a target when it approves. */
  lemma ApprovedHasTarget(c: Config, s: Db, op: string)
    requires LedgerInv(c, s) && op in s.wins && s.wins[op].d == L.Approve
    ensures op in s.ops && s.ops[op].request.target.Some?
  {
    assert WinFacts(s, op);
  }

  lemma GoVerdict(c: Config, run0: seq<State>, run: seq<State>, pid: nat, s: Db, op: string, r: OpRequest,
      device: Option<Device>, reading: Input, answer: Input) returns (run': seq<State>)
    requires Alone(c, run0, run, pid) && At(run, pid, s, LoadVerdict(op, r))
    ensures op in s.ops && s.ops[op].request == r && r.target.Some?
    ensures Ends(c, run0, run', pid, s, Approval(c, pid, op, r, r.target.value, device, reading, answer))
  {
    InvAt(c, run0, run, pid, s, LoadVerdict(op, r));
    assert WinFacts(s, op);
    ApprovedHasTarget(c, s, op);
    VerdictFacts(c, s, pid, LoadVerdict(op, r));
    run' := Go(c, run0, run, pid, s, LoadVerdict(op, r), Nothing, Move(s, Write(op, L.Approved, None, Start(op, r))));
    run' := GoApproved(c, run0, run', pid, s, op, r, device, reading, answer);
  }

  lemma GoLoadApproved(c: Config, run0: seq<State>, run: seq<State>, pid: nat, s: Db, op: string,
      device: Option<Device>, reading: Input, answer: Input) returns (run': seq<State>)
    requires Alone(c, run0, run, pid) && At(run, pid, s, LoadApproved(op))
    ensures op in s.ops && s.ops[op].request.target.Some?
    ensures var r := s.ops[op].request;
            Ends(c, run0, run', pid, s, Approval(c, pid, op, r, r.target.value, device, reading, answer))
  {
    InvAt(c, run0, run, pid, s, LoadApproved(op));
    ApprovedHasTarget(c, s, op);
    var r := s.ops[op].request;
    run' := Go(c, run0, run, pid, s, LoadApproved(op), Nothing, Move(s, LoadVerdict(op, r)));
    run' := GoVerdict(c, run0, run', pid, s, op, r, device, reading, answer);
  }

  /** The place of the last event of the process. */
  predicate LastEvent(trace: seq<Event>, i: nat, e: Event) {
    i < |trace| && trace[i] == e && forall k | i < k < |trace| :: trace[k].pid != e.pid
  }

  lemma WritesApproval(c: Config, s: Db, pid: nat, id: string, pc: Pc)
    requires |s.tables| > 0 && pc.Write? && PcFacts(c, s, pid, pc)
    requires Stage(c, s, pid, Some(Settled(pid, id, L.Approve)), pc)
    ensures id in s.confs && s.confs[id].op in s.ops
    ensures pc == Write(s.confs[id].op, L.Approved, None, Start(s.confs[id].op, s.ops[s.confs[id].op].request))
    ensures s.ops[s.confs[id].op].request.target.Some?
  {
    assert Follows(c, s, Some(Settled(pid, id, L.Approve)), Wrote(pid, pc.op, pc.status, pc.result));
    assert Stage(c, s, pid, Some(Wrote(pid, pc.op, pc.status, pc.result)), pc.rest) && PcFacts(c, s, pid, pc.rest);
    assert pc.rest.Start? && Ready(s, pid, pc.rest.op, pc.rest.r);
  }

  /** Where a process can be whose last event is a won approval. */
  lemma AfterApproval(c: Config, run: seq<State>, pid: nat, s: Db, pc: Pc, id: string, i: nat)
    requires Behavior(c, run) && At(run, pid, s, pc) && !pc.Done? && LastEvent(s.trace, i, Settled(pid, id, L.Approve))
    ensures id in s.confs
    ensures var op := s.confs[id].op;
            || pc == LoadApproved(op) || (pc.LoadVerdict? && pc.op == op)
            || (op in s.ops && s.ops[op].request.target.Some?
                && pc == Write(op, L.Approved, None, Start(op, s.ops[op].request)))
  {
    LastOfIs(s.trace, pid, i);
    StageAt(c, run, pid, s, pc);
    if pc.Write? {
      Idle(c, run, pid);
      InvAt(c, run, run, pid, s, pc);
      WritesApproval(c, s, pid, id, pc);
    }
  }

  /** A won approval is carried out.  Take any moment of any run at which a
      process has won an approval, done nothing since, and has not been stopped.
      Left to itself it writes the approval and executes: it fails when the
      device is inactive or its provider is not registered as it was; otherwise
      it sends the requested action to the requested place, or, for properties,
      finds that every wanted value is already there and sends nothing. */
  lemma ApprovalIsCarriedOut(c: Config, run: seq<State>, pid: nat, id: string, i: nat,
      device: Option<Device>, reading: Input, answer: Input) returns (run': seq<State>)
    requires Behavior(c, run) && pid in Last(run).procs && Last(run).procs[pid] != Done
    requires LastEvent(Last(run).db.trace, i, Settled(pid, id, L.Approve))
    ensures var s := Last(run).db;
            && id in s.confs && s.confs[id].op in s.ops && s.ops[s.confs[id].op].request.target.Some?
            && var op, r := s.confs[id].op, s.ops[s.confs[id].op].request;
               Ends(c, run, run', pid, s, Approval(c, pid, op, r, r.target.value, device, reading, answer))
  {
    var s, pc := Last(run).db, Last(run).procs[pid];
    Idle(c, run, pid);
    AfterApproval(c, run, pid, s, pc, id, i);
    var op := s.confs[id].op;
    if pc.LoadApproved? {
      run' := GoLoadApproved(c, run, run, pid, s, op, device, reading, answer);
    } else if pc.LoadVerdict? {
      run' := GoVerdict(c, run, run, pid, s, op, pc.r, device, reading, answer);
    } else {
      ProcsAt(c, run, |run| - 1);
      run' := GoApproved(c, run, run, pid, s, op, s.ops[op].request, device, reading, answer);
    }
  }

  /** The step that takes an approval leaves its process with that to do. */
  lemma WinnerGoesOn(c: Config, run: seq<State>, op: string, w: Win)
    requires Behavior(c, run) && |run| >= 2 && Takes(run, |run| - 2, op, w) && w.d == L.Approve
    ensures w.pid in Last(run).procs && Last(run).procs[w.pid] != Done
    ensures LastEvent(Last(run).db.trace, |Last(run).db.trace| - 1, Settled(w.pid, w.b.confirmation, L.Approve))
  {
    var n := |run| - 2;
    ProcsAt(c, run, n);
    var l := StepLabel(c, run, n);
    assert l.Run?;
    StepHands(c, run[n].db, l.pid, run[n].procs[l.pid], l.x);
  }
}
