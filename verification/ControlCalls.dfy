/** The calls of the control plane, each from its start to its end when nothing
    interferes, at any moment of any run. */
module ControlCalls {
  import opened Base
  import opened Policy
  import opened ControlProtocol
  import opened ControlSafety
  import opened ControlHistory
  import opened ControlScript
  import opened ControlOutcomes
  import B = Bindings

  /** The run goes on with the start of a call. */
  ghost function Called(c: Config, run: seq<State>, l: Label): seq<State>
    requires |run| > 0 && Enabled(Last(run), l)
  {
    run + [Apply(c, Last(run), l)]
  }

  lemma CallIsRun(c: Config, run: seq<State>, l: Label)
    requires Behavior(c, run) && Enabled(Last(run), l)
    ensures Behavior(c, Called(c, run, l))
  {
    Longer(c, run, Apply(c, Last(run), l));
  }

  // ------------------------------------------------------------------ decide

  /** The row is there and is in every respect what the target says. */
  predicate Stands(t: B.Table, device: string, target: Target) {
    && target.bindingId in t
    && var row := t[target.bindingId];
       && row.device == device && row.provider == Some(target.provider) && row.providerType == target.providerType
       && row.externalRef == target.externalRef && row.revision == target.revision
  }

  /** Only a pending confirmation is decided; the operation's row follows. */
  function Vetoed(pid: nat, b: Ballot, conf: L.Confirmation, d: L.Decision, status: L.Status, code: string)
    : seq<Event>
  {
    if conf.decision != L.Pending then [Lost(pid, b.confirmation)]
    else [Settled(pid, b.confirmation, d), Wrote(pid, conf.op, status, Some(L.Code(code)))]
  }

  /** The last check of `decide`, and what comes of it. */
  ghost function Examined(c: Config, s: Db, pid: nat, b: Ballot, conf: L.Confirmation, r: OpRequest, t: Target,
      device: Option<Device>, reading: Input, answer: Input): seq<Event>
    requires |s.tables| > 0
  {
    if !Stands(s.tables[|s.tables| - 1], r.device, t) || conf.hash != ActionHash(r.device, r.action, t) then
      Vetoed(pid, b, conf, L.Reject, L.Rejected, "binding_changed")
    else if conf.decision != L.Pending then [Lost(pid, b.confirmation)]
    else [Settled(pid, b.confirmation, L.Approve)] + Approval(c, pid, conf.op, r, t, device, reading, answer)
  }

  /** The events of `decide` on a ballot that may be cast. */
  ghost function Hearing(c: Config, s: Db, pid: nat, b: Ballot, conf: L.Confirmation, r: OpRequest,
      device: Option<Device>, reading: Input, answer: Input): seq<Event>
    requires |s.tables| > 0
  {
    if b.hash != conf.hash then Vetoed(pid, b, conf, L.Reject, L.Rejected, "action_hash_mismatch")
    else if conf.expiresAt <= s.now then Vetoed(pid, b, conf, L.Expire, L.Expired, "confirmation_expired")
    else if b.decision == "reject" then Vetoed(pid, b, conf, L.Reject, L.Rejected, "confirmation_rejected")
    else if r.target.None? || conf.target != r.target then
      Vetoed(pid, b, conf, L.Reject, L.Rejected, "bound_target_missing")
    else Examined(c, s, pid, b, conf, r, r.target.value, device, reading, answer)
  }

  /** The events of a call of `decide`: none unless the confirmation's actor
      casts a ballot for or against it. */
  ghost function Decision(c: Config, s: Db, pid: nat, b: Ballot,
      device: Option<Device>, reading: Input, answer: Input): seq<Event>
    requires |s.tables| > 0
  {
    if b.confirmation !in s.confs then []
    else
      var conf := s.confs[b.confirmation];
      if conf.op !in s.ops || b.actor != conf.actor || (b.decision != "approve" && b.decision != "reject") then []
      else Hearing(c, s, pid, b, conf, s.ops[conf.op].request, device, reading, answer)
  }

  /** The compare-and-set when the confirmation is no longer pending. */
  lemma GoLost(c: Config, run0: seq<State>, run: seq<State>, pid: nat, s: Db, pc: Pc) returns (run': seq<State>)
    requires Alone(c, run0, run, pid) && At(run, pid, s, pc) && |s.tables| > 0 && pc.Settle?
    requires pc.b.confirmation in s.confs && s.confs[pc.b.confirmation].decision != L.Pending
    ensures Ends(c, run0, run', pid, s, [Lost(pid, pc.b.confirmation)])
  {
    var m := Move(Log(s, Lost(pid, pc.b.confirmation)), Done);
    run' := Go(c, run0, run, pid, s, pc, Nothing, m);
  }

  lemma VetoTaken(s: Db, pid: nat, b: Ballot, conf: L.Confirmation, d: L.Decision, code: string, at: int, seen: nat)
    requires |s.tables| > 0 && b.confirmation in s.confs && s.confs[b.confirmation].decision == L.Pending
    requires d == L.Reject || d == L.Expire
    ensures DecideStep(s, pid, Veto(b, conf, d, code, at, seen))
         == Move(TakeDecision(s, conf.op, L.Anything, Win(pid, b, d, at, seen, |s.trace|)),
                 Fail(conf.op, if d == L.Expire then L.Expired else L.Rejected, code))
  {
  }

  lemma GoVetoed(c: Config, run0: seq<State>, run: seq<State>, pid: nat, s: Db, b: Ballot, conf: L.Confirmation,
      d: L.Decision, code: string, at: int, seen: nat) returns (run': seq<State>, s': Db)
    requires Alone(c, run0, run, pid) && At(run, pid, s, Veto(b, conf, d, code, at, seen)) && |s.tables| > 0
    requires b.confirmation in s.confs && s.confs[b.confirmation].decision == L.Pending
    requires d == L.Reject || d == L.Expire
    ensures Alone(c, run0, run', pid)
    ensures At(run', pid, s', Fail(conf.op, if d == L.Expire then L.Expired else L.Rejected, code))
    ensures s'.trace == s.trace + [Settled(pid, b.confirmation, d)] && s'.ops == s.ops && s'.tables == s.tables
  {
    s' := TakeDecision(s, conf.op, L.Anything, Win(pid, b, d, at, seen, |s.trace|));
    VetoTaken(s, pid, b, conf, d, code, at, seen);
    run' := Go(c, run0, run, pid, s, Veto(b, conf, d, code, at, seen), Nothing,
               Move(s', Fail(conf.op, if d == L.Expire then L.Expired else L.Rejected, code)));
  }

  /** A confirmation that is pending is refused, and the operation with it. */
  lemma GoRefuse(c: Config, run0: seq<State>, run: seq<State>, pid: nat, s: Db, b: Ballot, conf: L.Confirmation,
      d: L.Decision, code: string, at: int, seen: nat) returns (run': seq<State>)
    requires Alone(c, run0, run, pid) && At(run, pid, s, Veto(b, conf, d, code, at, seen)) && |s.tables| > 0
    requires b.confirmation in s.confs && s.confs[b.confirmation].decision == L.Pending && conf.op in s.ops
    requires d == L.Reject || d == L.Expire
    ensures Ends(c, run0, run', pid, s, [Settled(pid, b.confirmation, d),
                 Wrote(pid, conf.op, if d == L.Expire then L.Expired else L.Rejected, Some(L.Code(code)))])
  {
    var status := if d == L.Expire then L.Expired else L.Rejected;
    var e, f := Settled(pid, b.confirmation, d), Wrote(pid, conf.op, status, Some(L.Code(code)));
    var taken, s' := GoVetoed(c, run0, run, pid, s, b, conf, d, code, at, seen);
    var s'': Db;
    run', s'' := GoWrite(c, run0, taken, pid, s', conf.op, status, Some(L.Code(code)), Done);
    assert s.trace + [e] + [f] == s.trace + [e, f];
  }

  lemma GoVeto(c: Config, run0: seq<State>, run: seq<State>, pid: nat, s: Db, b: Ballot, conf: L.Confirmation,
      d: L.Decision, code: string, at: int, seen: nat) returns (run': seq<State>)
    requires Alone(c, run0, run, pid) && At(run, pid, s, Veto(b, conf, d, code, at, seen)) && |s.tables| > 0
    requires b.confirmation in s.confs && s.confs[b.confirmation] == conf && conf.op in s.ops
    requires d == L.Reject || d == L.Expire
    ensures Ends(c, run0, run', pid, s, Vetoed(pid, b, conf, d, if d == L.Expire then L.Expired else L.Rejected, code))
  {
    if conf.decision != L.Pending {
      run' := GoLost(c, run0, run, pid, s, Veto(b, conf, d, code, at, seen));
    } else {
      run' := GoRefuse(c, run0, run, pid, s, b, conf, d, code, at, seen);
    }
  }

  /** The state a won approval leaves. */
  function Granted(s: Db, pid: nat, b: Ballot, op: string, e: L.Expected, at: int, seen: nat): Db {
    TakeDecision(s, op, e, Win(pid, b, L.Approve, at, seen, |s.trace|))
  }

  lemma GoGrant(c: Config, run0: seq<State>, run: seq<State>, pid: nat, s: Db, b: Ballot, op: string,
      e: L.Expected, at: int, seen: nat, device: Option<Device>, reading: Input, answer: Input)
    returns (run': seq<State>)
    requires Alone(c, run0, run, pid) && At(run, pid, s, Settle(b, op, L.Approve, e, "", at, seen)) && |s.tables| > 0
    requires op in s.ops && s.ops[op].request.target.Some? && L.Decidable(s.confs, b.confirmation, e)
    ensures var r := s.ops[op].request;
            Ends(c, run0, run', pid, s, [Settled(pid, b.confirmation, L.Approve)]
                                        + Approval(c, pid, op, r, r.target.value, device, reading, answer))
  {
    var r, s' := s.ops[op].request, Granted(s, pid, b, op, e, at, seen);
    var granted := Go(c, run0, run, pid, s, Settle(b, op, L.Approve, e, "", at, seen), Nothing,
                      Move(s', LoadApproved(op)));
    run' := GoLoadApproved(c, run0, granted, pid, s', op, device, reading, answer);
    EndsAfter(c, run0, run', pid, s, Settled(pid, b.confirmation, L.Approve), s',
              Approval(c, pid, op, r, r.target.value, device, reading, answer));
  }

  /** The primary binding is the target's row exactly when that row stands. */
  lemma PrimaryStands(t: B.Table, device: string, target: Target)
    requires B.Unique(t)
    ensures B.FindOwned(t, device, target.provider) == Some(target.bindingId) && Bound(t, device, target)
            <==> Stands(t, device, target)
  {
    if Stands(t, device, target) {
      var found := B.FindOwned(t, device, target.provider);
      assert B.OwnedBy(t[target.bindingId], device, target.provider);
      assert found.Some?;
    }
  }

  /** What the check of the binding leads to. */
  function Examination(b: Ballot, conf: L.Confirmation, r: OpRequest, t: Target, at: int, table: B.Table,
      seen: nat): Pc
  {
    if Stands(table, r.device, t) && conf.hash == ActionHash(r.device, r.action, t) then
      Settle(b, conf.op, L.Approve, L.Exactly(conf.hash, t.bindingId, t.revision), "", at, seen)
    else Veto(b, conf, L.Reject, "binding_changed", at, seen)
  }

  lemma CheckIsExamined(s: Db, pid: nat, b: Ballot, conf: L.Confirmation, r: OpRequest, at: int)
    requires |s.tables| > 0 && B.Unique(Current(s)) && r.target.Some?
    ensures DecideStep(s, pid, CheckBinding(b, conf, r, at))
         == Move(s, Examination(b, conf, r, r.target.value, at, Current(s), |s.tables| - 1))
  {
    PrimaryStands(Current(s), r.device, r.target.value);
  }

  lemma GoCheck(c: Config, run0: seq<State>, run: seq<State>, pid: nat, s: Db, b: Ballot, conf: L.Confirmation,
      r: OpRequest, at: int, device: Option<Device>, reading: Input, answer: Input) returns (run': seq<State>)
    requires Alone(c, run0, run, pid) && At(run, pid, s, CheckBinding(b, conf, r, at)) && |s.tables| > 0
    requires B.Unique(Current(s)) && b.confirmation in s.confs && s.confs[b.confirmation] == conf
    requires conf.op in s.ops && s.ops[conf.op].request == r && r.target.Some? && conf.target == r.target
    ensures Ends(c, run0, run', pid, s, Examined(c, s, pid, b, conf, r, r.target.value, device, reading, answer))
  {
    var t := r.target.value;
    var seen: nat := |s.tables| - 1;
    CheckIsExamined(s, pid, b, conf, r, at);
    var next := Examination(b, conf, r, t, at, Current(s), seen);
    var checked := Go(c, run0, run, pid, s, CheckBinding(b, conf, r, at), Nothing, Move(s, next));
    if !Stands(s.tables[seen], r.device, t) || conf.hash != ActionHash(r.device, r.action, t) {
      run' := GoVeto(c, run0, checked, pid, s, b, conf, L.Reject, "binding_changed", at, seen);
    } else if conf.decision != L.Pending {
      run' := GoLost(c, run0, checked, pid, s, next);
    } else {
      run' := GoGrant(c, run0, checked, pid, s, b, conf.op, next.e, at, seen, device, reading, answer);
    }
  }

  /** What is still to come of a ballot, judging from where the process stands. */
  ghost predicate Awaits(c: Config, s: Db, pid: nat, b: Ballot, conf: L.Confirmation, r: OpRequest, pc: Pc,
      events: seq<Event>, device: Option<Device>, reading: Input, answer: Input)
    requires |s.tables| > 0
  {
    if pc.Done? then events == []
    else if pc.Settle? then
      && pc == Veto(b, conf, pc.d, pc.code, pc.at, pc.seen) && (pc.d == L.Reject || pc.d == L.Expire)
      && events == Vetoed(pid, b, conf, pc.d, if pc.d == L.Expire then L.Expired else L.Rejected, pc.code)
    else
      && pc == CheckBinding(b, conf, r, s.now) && r.target.Some? && conf.target == r.target
      && events == Examined(c, s, pid, b, conf, r, r.target.value, device, reading, answer)
  }

  predicate MayVote(b: Ballot, conf: L.Confirmation) {
    b.actor == conf.actor && (b.decision == "approve" || b.decision == "reject")
  }

  lemma VetoAwaits(c: Config, s: Db, pid: nat, b: Ballot, conf: L.Confirmation, r: OpRequest,
      device: Option<Device>, reading: Input, answer: Input)
    requires |s.tables| > 0 && MayVote(b, conf) && Judge(s, b, conf, r).Settle?
    ensures Awaits(c, s, pid, b, conf, r, Judge(s, b, conf, r),
                   Hearing(c, s, pid, b, conf, r, device, reading, answer), device, reading, answer)
  {
    var pc := Judge(s, b, conf, r);
    assert pc == Veto(b, conf, pc.d, pc.code, pc.at, pc.seen);
  }

  lemma CheckAwaits(c: Config, s: Db, pid: nat, b: Ballot, conf: L.Confirmation, r: OpRequest,
      device: Option<Device>, reading: Input, answer: Input)
    requires |s.tables| > 0 && MayVote(b, conf) && Judge(s, b, conf, r).CheckBinding?
    ensures Awaits(c, s, pid, b, conf, r, Judge(s, b, conf, r),
                   Hearing(c, s, pid, b, conf, r, device, reading, answer), device, reading, answer)
  {
    assert Judge(s, b, conf, r) == CheckBinding(b, conf, r, s.now);
  }

  lemma JudgmentAwaits(c: Config, s: Db, pid: nat, b: Ballot, conf: L.Confirmation, r: OpRequest,
      device: Option<Device>, reading: Input, answer: Input)
    requires |s.tables| > 0 && MayVote(b, conf)
    ensures Awaits(c, s, pid, b, conf, r, Judge(s, b, conf, r),
                   Hearing(c, s, pid, b, conf, r, device, reading, answer), device, reading, answer)
  {
    if Judge(s, b, conf, r).Settle? {
      VetoAwaits(c, s, pid, b, conf, r, device, reading, answer);
    } else {
      CheckAwaits(c, s, pid, b, conf, r, device, reading, answer);
    }
  }

  lemma GoJudged(c: Config, run0: seq<State>, run: seq<State>, pid: nat, s: Db, b: Ballot, conf: L.Confirmation, pc: Pc,
      device: Option<Device>, reading: Input, answer: Input) returns (run': seq<State>)
    requires |s.tables| > 0 && B.Unique(Current(s)) && b.confirmation in s.confs && s.confs[b.confirmation] == conf
    requires conf.op in s.ops && pc == Judge(s, b, conf, s.ops[conf.op].request)
    requires Alone(c, run0, run, pid) && At(run, pid, s, pc)
    ensures Ends(c, run0, run', pid, s, Decision(c, s, pid, b, device, reading, answer))
  {
    if MayVote(b, conf) {
      JudgmentAwaits(c, s, pid, b, conf, s.ops[conf.op].request, device, reading, answer);
    }
    if pc.Settle? {
      run' := GoVeto(c, run0, run, pid, s, b, conf, pc.d, pc.code, pc.at, pc.seen);
    } else if pc.CheckBinding? {
      run' := GoCheck(c, run0, run, pid, s, b, conf, pc.r, s.now, device, reading, answer);
    } else {
      run' := run;
    }
  }

  lemma UniqueAt(c: Config, run: seq<State>)
    requires Behavior(c, run)
    ensures var s := Last(run).db;
            |s.tables| > 0 && B.Unique(Current(s)) && forall id | id in s.confs :: s.confs[id].op in s.ops
  {
    Reachable(c, run, |run| - 1);
    var s := Last(run).db;
    B.HistoryVersions(s.tables, |s.tables| - 1, |s.tables| - 1);
    assert forall id | id in s.confs :: ConfFacts(c, s, id);
  }

  /** A call of `decide`, at any moment of any run, when nothing interferes: it
      does these things and no others, and it ends. */
  lemma DecideAlone(c: Config, run: seq<State>, pid: nat, b: Ballot,
      device: Option<Device>, reading: Input, answer: Input) returns (run': seq<State>)
    requires Behavior(c, run) && pid !in Last(run).procs
    ensures Enabled(Last(run), Decide(pid, b))
    ensures var s := Last(run).db;
            Ends(c, Called(c, run, Decide(pid, b)), run', pid, s, Decision(c, s, pid, b, device, reading, answer))
  {
    UniqueAt(c, run);
    var s, run0 := Last(run).db, Called(c, run, Decide(pid, b));
    CallIsRun(c, run, Decide(pid, b));
    Idle(c, run0, pid);
    if b.confirmation in s.confs {
      var conf := s.confs[b.confirmation];
      run' := Go(c, run0, run0, pid, s, LoadConfirmation(b), Nothing, Move(s, LoadOperation(b, conf)));
      var pc := Judge(s, b, conf, s.ops[conf.op].request);
      run' := Go(c, run0, run', pid, s, LoadOperation(b, conf), Nothing, Move(s, pc));
      run' := GoJudged(c, run0, run', pid, s, b, conf, pc, device, reading, answer);
    } else {
      run' := Go(c, run0, run0, pid, s, LoadConfirmation(b), Nothing, Move(s, Done));
    }
  }

  // ------------------------------------------------------------------ submit

  /** The target of a submission: the primary binding, field by field. */
  function TargetOf(k: string, provider: string, row: B.Binding): Target {
    Target(k, provider, row.providerType, row.externalRef, row.revision)
  }

  /** The row a submission asks to be stored. */
  function Filed(q: Submission, target: Target): OpRequest {
    OpRequest(q.device, SourceName(q.principal.source) + ":" + q.principal.actor, q.principal.mode, q.action,
              Some(target), q.key, Some(Fingerprint(q.device, target, q.action, q.principal)))
  }

  predicate IsPrimary(t: B.Table, k: string, device: string, provider: string) {
    k in t && t[k].device == device && t[k].provider == Some(provider)
  }

  lemma PrimaryIsFound(t: B.Table, k: string, device: string, provider: string)
    requires B.Unique(t) && IsPrimary(t, k, device, provider)
    ensures B.FindOwned(t, device, provider) == Some(k)
  {
    assert B.OwnedBy(t[k], device, provider);
    assert B.FindOwned(t, device, provider).Some?;
  }

  /** From the call to the check for an existing row. */
  lemma GoFile(c: Config, run0: seq<State>, pid: nat, s: Db, q: Submission, device: Device, features: seq<Feature>,
      risk: Risk, k: string) returns (run': seq<State>)
    requires Behavior(c, run0) && At(run0, pid, s, FindDevice(q)) && |s.tables| > 0 && B.Unique(Current(s))
    requires device.active && IsPrimary(Current(s), k, q.device, device.provider)
    requires IsRisk(device.risk, features, q.action, risk)
    ensures Alone(c, run0, run', pid)
    ensures At(run', pid, s, LookUp(Origin(pid, q, device, features, risk, |s.tables| - 1),
                                    TargetOf(k, device.provider, Current(s)[k])))
  {
    Idle(c, run0, pid);
    PrimaryIsFound(Current(s), k, q.device, device.provider);
    var target := TargetOf(k, device.provider, Current(s)[k]);
    var seen: nat := |s.tables| - 1;
    run' := Go(c, run0, run0, pid, s, FindDevice(q), DeviceRead(Some(device)), Move(s, FindBinding(q, device)));
    run' := Go(c, run0, run', pid, s, FindBinding(q, device), Nothing, Move(s, Assess(q, device, target, seen)));
    run' := Go(c, run0, run', pid, s, Assess(q, device, target, seen), Assessment(true, features, risk),
               Move(s, LookUp(Origin(pid, q, device, features, risk, seen), target)));
  }

  /** The table with the new row in it. */
  ghost function WithRow(s: Db, pid: nat, o: Origin, target: Target, id: string, devices: set<string>): Db {
    Log(AddOperation(s, id, Filed(o.q, target), o, devices), Answered(pid, o, target, L.Created))
  }

  ghost predicate KeyIsFree(ops: L.Operations, key: string) {
    forall op | op in ops :: ops[op].request.key != key
  }

  lemma GoInsert(c: Config, run0: seq<State>, run: seq<State>, pid: nat, s: Db, o: Origin, target: Target,
      id: string, devices: set<string>) returns (run': seq<State>)
    requires Alone(c, run0, run, pid) && At(run, pid, s, LookUp(o, target)) && |s.tables| > 0
    requires KeyIsFree(s.ops, o.q.key) && id !in s.ops && o.q.device in devices
    ensures Alone(c, run0, run', pid)
    ensures At(run', pid, WithRow(s, pid, o, target, id, devices),
               if o.q.principal.mode == Autonomous && o.risk == High then Ask(id, o.q, target)
               else Start(id, Filed(o.q, target)))
    ensures WithRow(s, pid, o, target, id, devices).ops
         == s.ops[id := L.Operation(Filed(o.q, target), L.Requested, None)]
  {
    assert RequestOf(o, target) == Filed(o.q, target);
    run' := Go(c, run0, run, pid, s, LookUp(o, target), Nothing, Move(s, Insert(o, target)));
    var m := RunStep(c, s, pid, Insert(o, target), NewId(id, devices));
    run' := Go(c, run0, run', pid, s, Insert(o, target), NewId(id, devices), m);
  }

  /** The confirmation asked at this moment. */
  function Question(c: Config, now: int, op: string, q: Submission, target: Target): L.Confirmation {
    L.Confirmation(op, ActionHash(q.device, q.action, target), c.confirmer, Some(target), now + c.ttl, L.Pending, None)
  }

  lemma GoAsk(c: Config, run0: seq<State>, run: seq<State>, pid: nat, s: Db, op: string, q: Submission, target: Target,
      asked: string) returns (run': seq<State>)
    requires Alone(c, run0, run, pid) && At(run, pid, s, Ask(op, q, target)) && |s.tables| > 0 && op in s.ops
    requires asked !in s.confs && forall id | id in s.confs :: s.confs[id].op != op
    ensures Ends(c, run0, run', pid, s, [Wrote(pid, op, L.PendingConfirmation, Some(L.AwaitingConfirmation(asked)))])
    ensures Last(run').db.confs == s.confs[asked := Question(c, s.now, op, q, target)]
    ensures op in Last(run').db.ops && Last(run').db.ops[op].request == s.ops[op].request
  {
    var s' := s.(confs := s.confs[asked := Question(c, s.now, op, q, target)]);
    var result := Some(L.AwaitingConfirmation(asked));
    run' := Go(c, run0, run, pid, s, Ask(op, q, target), NewId(asked, {}),
               Move(s', Write(op, L.PendingConfirmation, result, Done)));
    var s'': Db;
    run', s'' := GoWrite(c, run0, run', pid, s', op, L.PendingConfirmation, result, Done);
  }

  /** What follows once the row is created: a question when an autonomous
      principal asks for something of high risk, the execution otherwise. */
  function Sequel(c: Config, pid: nat, op: string, o: Origin, target: Target, asked: string,
      device: Option<Device>, reading: Input, answer: Input): seq<Event>
  {
    if o.q.principal.mode == Autonomous && o.risk == High then
      [Wrote(pid, op, L.PendingConfirmation, Some(L.AwaitingConfirmation(asked)))]
    else Execution(c, pid, op, Filed(o.q, target), target, device, reading, answer)
  }

  /** The rows a submission leaves. */
  ghost predicate LeavesRows(c: Config, s: Db, s': Db, id: string, o: Origin, target: Target, asked: string) {
    && id in s'.ops && s'.ops[id].request == Filed(o.q, target)
    && s'.confs == if o.q.principal.mode == Autonomous && o.risk == High
                   then s.confs[asked := Question(c, s.now, id, o.q, target)] else s.confs
  }

  lemma GoSequel(c: Config, run0: seq<State>, run: seq<State>, pid: nat, s: Db, id: string, o: Origin, target: Target,
      asked: string, device: Option<Device>, reading: Input, answer: Input) returns (run': seq<State>)
    requires |s.tables| > 0 && id in s.ops && s.ops[id].request == Filed(o.q, target)
    requires asked !in s.confs && forall k | k in s.confs :: s.confs[k].op != id
    requires Alone(c, run0, run, pid)
    requires At(run, pid, s, if o.q.principal.mode == Autonomous && o.risk == High then Ask(id, o.q, target)
                             else Start(id, Filed(o.q, target)))
    ensures Ends(c, run0, run', pid, s, Sequel(c, pid, id, o, target, asked, device, reading, answer))
    ensures LeavesRows(c, s, Last(run').db, id, o, target, asked)
  {
    if o.q.principal.mode == Autonomous && o.risk == High {
      run' := GoAsk(c, run0, run, pid, s, id, o.q, target, asked);
    } else {
      run' := GoExecute(c, run0, run, pid, s, id, Filed(o.q, target), device, reading, answer);
    }
  }

  lemma GoStore(c: Config, run0: seq<State>, run: seq<State>, pid: nat, s: Db, id: string, devices: set<string>,
      o: Origin, target: Target, asked: string, device: Option<Device>, reading: Input, answer: Input)
    returns (run': seq<State>)
    requires Alone(c, run0, run, pid) && At(run, pid, s, LookUp(o, target)) && |s.tables| > 0
    requires KeyIsFree(s.ops, o.q.key) && id !in s.ops && o.q.device in devices
    requires asked !in s.confs && forall k | k in s.confs :: s.confs[k].op in s.ops
    ensures Ends(c, run0, run', pid, s, [Answered(pid, o, target, L.Created)]
                                        + Sequel(c, pid, id, o, target, asked, device, reading, answer))
    ensures LeavesRows(c, s, Last(run').db, id, o, target, asked)
  {
    var s' := WithRow(s, pid, o, target, id, devices);
    var stored := GoInsert(c, run0, run, pid, s, o, target, id, devices);
    run' := GoSequel(c, run0, stored, pid, s', id, o, target, asked, device, reading, answer);
    EndsAfter(c, run0, run', pid, s, Answered(pid, o, target, L.Created), s',
              Sequel(c, pid, id, o, target, asked, device, reading, answer));
  }

  /** A call of `submit` for an active device with a primary binding, under a
      key nobody used, when nothing interferes: the row is stored, bound to that
      binding as it stands, and is asked about, until the term of the
      confirmation from now, or executed at once. */
  lemma SubmitAlone(c: Config, run: seq<State>, pid: nat, q: Submission, device: Device, features: seq<Feature>,
      risk: Risk, k: string, id: string, devices: set<string>, asked: string,
      found: Option<Device>, reading: Input, answer: Input) returns (run': seq<State>)
    requires Behavior(c, run) && pid !in Last(run).procs && q.key != "" && device.active
    requires |Last(run).db.tables| > 0 && IsPrimary(Current(Last(run).db), k, q.device, device.provider)
    requires IsRisk(device.risk, features, q.action, risk)
    requires KeyIsFree(Last(run).db.ops, q.key) && id !in Last(run).db.ops && q.device in devices
    requires asked !in Last(run).db.confs
    ensures Enabled(Last(run), Submit(pid, q))
    ensures var s := Last(run).db;
            var o := Origin(pid, q, device, features, risk, |s.tables| - 1);
            var target := TargetOf(k, device.provider, Current(s)[k]);
            && Ends(c, Called(c, run, Submit(pid, q)), run', pid, s,
                    [Answered(pid, o, target, L.Created)]
                    + Sequel(c, pid, id, o, target, asked, found, reading, answer))
            && LeavesRows(c, s, Last(run').db, id, o, target, asked)
  {
    UniqueAt(c, run);
    var s, run0 := Last(run).db, Called(c, run, Submit(pid, q));
    CallIsRun(c, run, Submit(pid, q));
    var o := Origin(pid, q, device, features, risk, |s.tables| - 1);
    var target := TargetOf(k, device.provider, Current(s)[k]);
    var filed := GoFile(c, run0, pid, s, q, device, features, risk, k);
    run' := GoStore(c, run0, filed, pid, s, id, devices, o, target, asked, found, reading, answer);
  }

  /** The row asks for the same: by its fingerprint when it has one, or field by field. */
  predicate AsksTheSame(r: OpRequest, q: Submission, target: Target) {
    || r.fingerprint == Some(Fingerprint(q.device, target, q.action, q.principal))
    || (r.device == q.device && r.initiator == SourceName(q.principal.source) + ":" + q.principal.actor
        && r.mode == q.principal.mode && r.action == q.action && r.target == Some(target))
  }

  lemma GoReplay(c: Config, run0: seq<State>, run: seq<State>, pid: nat, s: Db, o: Origin, target: Target, row: string)
    returns (run': seq<State>)
    requires Alone(c, run0, run, pid) && At(run, pid, s, LookUp(o, target)) && |s.tables| > 0
    requires L.UniqueKeys(s.ops) && row in s.ops && s.ops[row].request.key == o.q.key
    ensures Ends(c, run0, run', pid, s, [Answered(pid, o, target,
                 if AsksTheSame(s.ops[row].request, o.q, target) then L.Replayed(row) else L.Conflict)])
    ensures Last(run').db.ops == s.ops && Last(run').db.confs == s.confs
  {
    assert L.FindKey(s.ops, o.q.key) == Some(row);
    var answer := if AsksTheSame(s.ops[row].request, o.q, target) then L.Replayed(row) else L.Conflict;
    run' := Go(c, run0, run, pid, s, LookUp(o, target), Nothing, Move(Log(s, Answered(pid, o, target, answer)), Done));
  }

  /** A call of `submit` under a key that a row has changes no row: it answers
      with that row when it asks for the same, and with a conflict otherwise. */
  lemma SubmitAgain(c: Config, run: seq<State>, pid: nat, q: Submission, device: Device, features: seq<Feature>,
      risk: Risk, k: string, row: string) returns (run': seq<State>)
    requires Behavior(c, run) && pid !in Last(run).procs && q.key != "" && device.active
    requires |Last(run).db.tables| > 0 && IsPrimary(Current(Last(run).db), k, q.device, device.provider)
    requires IsRisk(device.risk, features, q.action, risk)
    requires row in Last(run).db.ops && Last(run).db.ops[row].request.key == q.key
    ensures Enabled(Last(run), Submit(pid, q))
    ensures var s := Last(run).db;
            var o := Origin(pid, q, device, features, risk, |s.tables| - 1);
            var target := TargetOf(k, device.provider, Current(s)[k]);
            && Ends(c, Called(c, run, Submit(pid, q)), run', pid, s, [Answered(pid, o, target,
                    if AsksTheSame(s.ops[row].request, q, target) then L.Replayed(row) else L.Conflict)])
            && Last(run').db.ops == s.ops && Last(run').db.confs == s.confs
  {
    UniqueAt(c, run);
    Reachable(c, run, |run| - 1);
    var s, run0 := Last(run).db, Called(c, run, Submit(pid, q));
    CallIsRun(c, run, Submit(pid, q));
    var filed := GoFile(c, run0, pid, s, q, device, features, risk, k);
    run' := GoReplay(c, run0, filed, pid, s, Origin(pid, q, device, features, risk, |s.tables| - 1),
                     TargetOf(k, device.provider, Current(s)[k]), row);
  }

  /** A submission with nothing to act on, or an action that is not valid. */
  ghost predicate TurnsAway(t: B.Table, q: Submission, device: Option<Device>, valid: bool) {
    || device.None? || !device.value.active
    || (forall k | k in t :: !IsPrimary(t, k, q.device, device.value.provider))
    || !valid
  }

  lemma GoNowhere(c: Config, run0: seq<State>, pid: nat, s: Db, q: Submission, device: Option<Device>, valid: bool,
      features: seq<Feature>, risk: Risk) returns (run': seq<State>)
    requires Behavior(c, run0) && At(run0, pid, s, FindDevice(q)) && |s.tables| > 0
    requires TurnsAway(Current(s), q, device, valid)
    ensures Alone(c, run0, run', pid) && At(run', pid, s, Done)
  {
    Idle(c, run0, pid);
    if device.None? || !device.value.active {
      run' := Go(c, run0, run0, pid, s, FindDevice(q), DeviceRead(device), Move(s, Done));
    } else {
      var m := SubmitStep(c, s, pid, FindBinding(q, device.value), Nothing);
      run' := Go(c, run0, run0, pid, s, FindDevice(q), DeviceRead(device), Move(s, FindBinding(q, device.value)));
      run' := Go(c, run0, run', pid, s, FindBinding(q, device.value), Nothing, m);
      if m.pc != Done {
        assert IsPrimary(Current(s), m.pc.target.bindingId, q.device, device.value.provider);
        run' := Go(c, run0, run', pid, s, m.pc, Assessment(valid, features, risk), Move(s, Done));
      }
    }
  }

  /** A call that is turned away leaves the database as it was: the device is
      gone or inactive, or has no primary binding, or the action is not valid. */
  lemma SubmitTurnedAway(c: Config, run: seq<State>, pid: nat, q: Submission, device: Option<Device>, valid: bool,
      features: seq<Feature>, risk: Risk) returns (run': seq<State>)
    requires Behavior(c, run) && pid !in Last(run).procs && q.key != ""
    requires |Last(run).db.tables| > 0 && TurnsAway(Current(Last(run).db), q, device, valid)
    ensures Enabled(Last(run), Submit(pid, q))
    ensures Ends(c, Called(c, run, Submit(pid, q)), run', pid, Last(run).db, []) && Last(run').db == Last(run).db
  {
    UniqueAt(c, run);
    var s, run0 := Last(run).db, Called(c, run, Submit(pid, q));
    CallIsRun(c, run, Submit(pid, q));
    assert s.trace + [] == s.trace;
    run' := GoNowhere(c, run0, pid, s, q, device, valid, features, risk);
  }
}
