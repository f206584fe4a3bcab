/** Control and confirmation as a step machine.  Every coroutine is a process
    with a program counter; every session of a repository is one atomic step
    over the shared tables; processes, binding syncs and the clock interleave
    in any order.  What a device or provider answers is an input of the step.

    `origins`, `wins` and `trace` record what happened; no step reads them. */
module ControlProtocol {
  import opened Base
  import opened Policy
  import B = Bindings
  import L = Ledger

  /** Registered providers by id with their type, the actor who may decide, and
      how long a confirmation stays open. */
  datatype Config = Config(providers: map<string, string>, confirmer: string, ttl: int)

  datatype Device = Device(provider: string, risk: Risk, active: bool)

  datatype Submission = Submission(device: string, action: Action, principal: Principal, key: string)

  /** A call of `decide`. */
  datatype Ballot = Ballot(confirmation: string, decision: string, actor: string, hash: ActionHash)

  datatype Pc =
    // submit
    | FindDevice(q: Submission)
    | FindBinding(q: Submission, device: Device)
    | Assess(q: Submission, device: Device, target: Target, seen: nat)
    | LookUp(o: Origin, target: Target)
    | Insert(o: Origin, target: Target)
    | Ask(op: string, q: Submission, target: Target)
    // decide
    | LoadConfirmation(b: Ballot)
    | LoadOperation(b: Ballot, conf: L.Confirmation)
    | CheckBinding(b: Ballot, conf: L.Confirmation, r: OpRequest, at: int)
    | Settle(b: Ballot, op: string, d: L.Decision, e: L.Expected, code: string, at: int, seen: nat)
    // execute_approved
    | LoadApproved(op: string)
    | LoadVerdict(op: string, r: OpRequest)
    // _execute
    | Start(op: string, r: OpRequest)
    | Read(op: string, r: OpRequest)
    | Send(op: string, r: OpRequest)
    | Await(op: string, r: OpRequest)
    // update_operation, with what follows it
    | Write(op: string, status: L.Status, result: Option<L.OpResult>, rest: Pc)
    | Done

  /** What the outside supplies to one step. */
  datatype Input =
    | Nothing
    | DeviceRead(device: Option<Device>)
    | Assessment(valid: bool, features: seq<Feature>, risk: Risk)
    // a fresh id, and the devices on record when the row is stored
    | NewId(id: string, devices: set<string>)
    | StateRead(values: map<string, Json>)
    | Answer(ok: bool, errorCode: Option<string>, data: Json)
    | TimedOut
    | Broken

  /** How an operation came to be: which process submitted what, the device and
      features it read, the risk it found, and the version of the binding table
      the target was read from. */
  datatype Origin = Origin(pid: nat, q: Submission, device: Device, features: seq<Feature>, risk: Risk, seen: nat)

  /** The compare-and-set that decided an operation's confirmation: which
      process answered which ballot and how, the clock reading at which the
      expiry was checked, the version of the binding table that was consulted,
      and the place in the trace. */
  datatype Win = Win(pid: nat, b: Ballot, d: L.Decision, at: int, seen: nat, index: nat)

  datatype Event =
    | Settled(pid: nat, id: string, d: L.Decision)
    | Wrote(pid: nat, op: string, status: L.Status, result: Option<L.OpResult>)
    // what `create_operation` told the submitter
    | Answered(pid: nat, o: Origin, target: Target, answer: L.Creation)
    // a compare-and-set that did not find the confirmation as expected
    | Lost(pid: nat, id: string)
    // write_properties or invoke_service
    | Issued(pid: nat, op: string, provider: string, externalRef: string, action: Action)

  /** What the processes share, and the three records. */
  datatype Db = Db(
    now: int, tables: seq<B.Table>, ops: L.Operations, confs: L.Confirmations,
    origins: map<string, Origin>, wins: map<string, Win>, trace: seq<Event>)

  datatype State = State(db: Db, procs: map<nat, Pc>)

  /** The outcome of one step of a process. */
  datatype Move = Move(db: Db, pc: Pc)

  datatype Label =
    | Tick(now: int)
    | Sync(id: string, binding: B.Binding, devices: set<string>)
    | Submit(pid: nat, q: Submission)
    | Decide(pid: nat, b: Ballot)
    // the coroutine is cancelled, raises, or the service goes down
    | Stop(pid: nat)
    | Run(pid: nat, x: Input)

  ghost function Current(s: Db): B.Table
    requires |s.tables| > 0
  {
    s.tables[|s.tables| - 1]
  }

  predicate Gated(o: Origin) {
    RequiresConfirmation(o.q.principal, o.risk)
  }

  /** The row still is what the target says. */
  predicate Bound(t: B.Table, device: string, target: Target) {
    && target.bindingId in t
    && B.OwnedBy(t[target.bindingId], device, target.provider)
    && B.Reaches(t[target.bindingId], target.providerType, target.externalRef)
    && t[target.bindingId].revision == target.revision
  }

  predicate Holds(values: map<string, Json>, wanted: map<string, Json>) {
    forall k | k in wanted :: (if k in values then values[k] else JNull) == wanted[k]
  }

  function AnswerStatus(action: Action, ok: bool, data: Json): L.Status {
    if !ok then L.Failed
    else if action.Properties? && data.JObject? && "after" in data.fields && data.fields["after"].JObject?
            && Holds(data.fields["after"].fields, action.values) then L.Succeeded
    else L.Accepted
  }

  /** What `decide` would answer if it ran in one piece, given the operation's
      request, the clock and the binding table. */
  function Verdict(b: Ballot, conf: L.Confirmation, r: OpRequest, at: int, t: B.Table): L.Decision {
    if b.hash != conf.hash then L.Reject
    else if conf.expiresAt <= at then L.Expire
    else if b.decision == "approve" && r.target.Some? && r.target == conf.target && Bound(t, r.device, r.target.value)
            && conf.hash == ActionHash(r.device, r.action, r.target.value) then L.Approve
    else L.Reject
  }

  ghost function FindConfirmation(confs: L.Confirmations, op: string): (r: Option<string>)
    ensures r.Some? ==> r.value in confs && confs[r.value].op == op
    ensures r.None? ==> forall id | id in confs :: confs[id].op != op
  {
    if id :| id in confs && confs[id].op == op then Some(id) else None
  }

  function Fail(op: string, status: L.Status, code: string): Pc {
    Write(op, status, Some(L.Code(code)), Done)
  }

  ghost function AddOperation(s: Db, id: string, r: OpRequest, o: Origin, devices: set<string>): Db {
    s.(ops := L.Inserted(s.ops, id, r, devices), origins := s.origins[id := o])
  }

  ghost function AddConfirmation(s: Db, id: string, conf: L.Confirmation): Db {
    s.(confs := L.WithRequest(s.confs, id, conf, s.ops.Keys))
  }

  function Log(s: Db, e: Event): Db {
    s.(trace := s.trace + [e])
  }

  function TakeDecision(s: Db, op: string, e: L.Expected, w: Win): Db {
    Log(s.(confs := L.Decided(s.confs, w.b.confirmation, w.d, e, s.now), wins := s.wins[op := w]),
        Settled(w.pid, w.b.confirmation, w.d))
  }

  function RequestOf(o: Origin, target: Target): OpRequest {
    Propose(o.q.device, o.q.action, target, o.q.principal, o.q.key)
  }

  ghost function SubmitStep(c: Config, s: Db, pid: nat, pc: Pc, x: Input): Move
    requires |s.tables| > 0
  {
    match pc
    case FindDevice(q) =>
      if x.DeviceRead? && x.device.Some? && x.device.value.active then
        Move(s, FindBinding(q, x.device.value))
      else Move(s, Done)
    case FindBinding(q, device) =>
      var row := B.FindOwned(Current(s), q.device, device.provider);
      if row.None? then Move(s, Done)
      else
        var b := Current(s)[row.value];
        var target := Target(row.value, device.provider, b.providerType, b.externalRef, b.revision);
        Move(s, Assess(q, device, target, |s.tables| - 1))
    case Assess(q, device, target, seen) =>
      if x.Assessment? && x.valid && IsRisk(device.risk, x.features, q.action, x.risk) then
        Move(s, LookUp(Origin(pid, q, device, x.features, x.risk, seen), target))
      else Move(s, Done)
    case LookUp(o, target) =>
      // an existing row is returned or refused, and the call ends
      var found := L.FindKey(s.ops, o.q.key);
      if found.None? then Move(s, Insert(o, target))
      else
        var answer := L.Resolved(s.ops[found.value].request, found.value, RequestOf(o, target));
        Move(Log(s, Answered(pid, o, target, answer)), Done)
    case Insert(o, target) =>
      if !x.NewId? then Move(s, Done)
      else
        var r := RequestOf(o, target);
        var e := Answered(pid, o, target, L.Insertion(s.ops, x.id, r, x.devices));
        if e.answer == L.Created then
          Move(Log(AddOperation(s, x.id, r, o, x.devices), e),
               if RequiresConfirmation(o.q.principal, o.risk) then Ask(x.id, o.q, target) else Start(x.id, r))
        else Move(Log(s, e), Done)
    case Ask(op, q, target) =>
      if x.NewId? && L.Requestable(s.confs, x.id, op, s.ops.Keys) then
        Move(AddConfirmation(s, x.id, L.Asked(op, ActionHash(q.device, q.action, target), c.confirmer, target,
                                              s.now + c.ttl)),
           Write(op, L.PendingConfirmation, Some(L.AwaitingConfirmation(x.id)), Done))
      else Move(s, Done)
    case _ => Move(s, pc)
  }

  /** The checks of `decide` between loading the operation and the next await. */
  function Judge(s: Db, b: Ballot, conf: L.Confirmation, r: OpRequest): Pc
    requires |s.tables| > 0
  {
    var seen := |s.tables| - 1;
    if b.actor != conf.actor || (b.decision != "approve" && b.decision != "reject") then Done
    else if b.hash != conf.hash then Veto(b, conf, L.Reject, "action_hash_mismatch", s.now, seen)
    else if conf.expiresAt <= s.now then Veto(b, conf, L.Expire, "confirmation_expired", s.now, seen)
    else if b.decision == "reject" then Veto(b, conf, L.Reject, "confirmation_rejected", s.now, seen)
    else if r.target.None? || r.target != conf.target then
      Veto(b, conf, L.Reject, "bound_target_missing", s.now, seen)
    else CheckBinding(b, conf, r, s.now)
  }

  function Veto(b: Ballot, conf: L.Confirmation, d: L.Decision, code: string, at: int, seen: nat): Pc {
    Settle(b, conf.op, d, L.Anything, code, at, seen)
  }

  ghost function DecideStep(s: Db, pid: nat, pc: Pc): Move
    requires |s.tables| > 0
  {
    match pc
    case LoadConfirmation(b) =>
      if b.confirmation in s.confs then Move(s, LoadOperation(b, s.confs[b.confirmation])) else Move(s, Done)
    case LoadOperation(b, conf) =>
      if conf.op in s.ops then Move(s, Judge(s, b, conf, s.ops[conf.op].request)) else Move(s, Done)
    case CheckBinding(b, conf, r, at) =>
      if r.target.None? then Move(s, Done)
      else
        var target := r.target.value;
        var row := B.FindOwned(Current(s), r.device, target.provider);
        if row == Some(target.bindingId) && Bound(Current(s), r.device, target)
           && ActionHash(r.device, r.action, target) == conf.hash then
          Move(s, Settle(b, conf.op, L.Approve,
                            L.Exactly(conf.hash, target.bindingId, target.revision), "", at, |s.tables| - 1))
        else Move(s, Veto(b, conf, L.Reject, "binding_changed", at, |s.tables| - 1))
    case Settle(b, op, d, e, code, at, seen) =>
      if L.Decidable(s.confs, b.confirmation, e) then
        Move(TakeDecision(s, op, e, Win(pid, b, d, at, seen, |s.trace|)),
           match d
           case Approve => LoadApproved(op)
           case Expire => Fail(op, L.Expired, code)
           case _ => Fail(op, L.Rejected, code))
      else Move(Log(s, Lost(pid, b.confirmation)), Done)
    case LoadApproved(op) =>
      if op in s.ops then Move(s, LoadVerdict(op, s.ops[op].request)) else Move(s, Done)
    case LoadVerdict(op, r) =>
      var id := FindConfirmation(s.confs, op);
      if r.target.None? || id.None? || s.confs[id.value].decision != L.Approve || s.confs[id.value].target != r.target
      then Move(s, Fail(op, L.Rejected, "approval_binding_invalid"))
      else Move(s, Write(op, L.Approved, None, Start(op, r)))
    case _ => Move(s, pc)
  }

  function Recorded(op: string, r: OpRequest, x: Input): Pc {
    match x
    case TimedOut => Fail(op, L.Unknown, "provider_timeout")
    case Answer(ok, errorCode, data) =>
      if errorCode == Some("provider_timeout") then Fail(op, L.Unknown, "provider_timeout")
      else Write(op, AnswerStatus(r.action, ok, data),
                 Some(if ok then L.Payload(data)
                      else L.Code(if errorCode.Some? && errorCode.value != "" then errorCode.value
                                  else "provider_failed")), Done)
    case _ => Fail(op, L.Unknown, "provider_error")
  }

  ghost function ExecuteStep(c: Config, s: Db, pid: nat, pc: Pc, x: Input): Move {
    match pc
    case Start(op, r) =>
      if r.target.None? then Move(s, Fail(op, L.Rejected, "bound_target_missing"))
      else if !(x.DeviceRead? && x.device.Some? && x.device.value.active) then
        Move(s, Fail(op, L.Failed, "device_unavailable"))
      else
        var t := r.target.value;
        if t.provider !in c.providers || c.providers[t.provider] != t.providerType then
          Move(s, Fail(op, L.Failed, "provider_binding_mismatch"))
        else Move(s, Write(op, L.Executing, None, if r.action.Properties? then Read(op, r) else Send(op, r)))
    case Read(op, r) =>
      if x.StateRead? && r.action.Properties? then
        Move(s, if Holds(x.values, r.action.values)
                   then Write(op, L.NoOp, Some(L.Payload(JObject(x.values))), Done)
                   else Send(op, r))
      else Move(s, Recorded(op, r, if x.TimedOut? then TimedOut else Broken))
    case Send(op, r) =>
      if r.target.None? then Move(s, Done)
      else
        Move(Log(s, Issued(pid, op, r.target.value.provider, r.target.value.externalRef, r.action)), Await(op, r))
    case Await(op, r) => Move(s, Recorded(op, r, x))
    case Write(op, status, result, rest) =>
      if op !in s.ops then Move(s, Done)
      else if status == L.NoOp && (x.TimedOut? || x.Broken?) then
        // the no-op is written inside the guarded block
        Move(s, Fail(op, L.Unknown, if x.TimedOut? then "provider_timeout" else "provider_error"))
      else
        Move(Log(s.(ops := L.Updated(s.ops, op, status, result)), Wrote(pid, op, status, result)), rest)
    case _ => Move(s, pc)
  }

  predicate InSubmit(pc: Pc) {
    pc.FindDevice? || pc.FindBinding? || pc.Assess? || pc.LookUp? || pc.Insert? || pc.Ask?
  }

  predicate InDecide(pc: Pc) {
    pc.LoadConfirmation? || pc.LoadOperation? || pc.CheckBinding? || pc.Settle? || pc.LoadApproved? || pc.LoadVerdict?
  }

  ghost function RunStep(c: Config, s: Db, pid: nat, pc: Pc, x: Input): Move
    requires |s.tables| > 0
  {
    if InSubmit(pc) then SubmitStep(c, s, pid, pc, x)
    else if InDecide(pc) then DecideStep(s, pid, pc)
    else ExecuteStep(c, s, pid, pc, x)
  }

  ghost predicate Enabled(s: State, l: Label) {
    && |s.db.tables| > 0
    && match l
       case Tick(now) => s.db.now <= now
       case Sync(_, _, _) => true
       case Submit(pid, q) => pid !in s.procs && q.key != ""
       case Decide(pid, _) => pid !in s.procs
       case Stop(pid) => pid in s.procs
       case Run(pid, _) => pid in s.procs
  }

  ghost function Apply(c: Config, s: State, l: Label): State
    requires Enabled(s, l)
  {
    match l
    case Tick(now) => s.(db := s.db.(now := now))
    case Sync(id, b, devices) =>
      s.(db := s.db.(tables := s.db.tables + [B.Upserted(Current(s.db), id, b, devices)]))
    case Submit(pid, q) => s.(procs := s.procs[pid := FindDevice(q)])
    case Decide(pid, b) => s.(procs := s.procs[pid := LoadConfirmation(b)])
    case Stop(pid) => s.(procs := s.procs[pid := Done])
    case Run(pid, x) =>
      var m := RunStep(c, s.db, pid, s.procs[pid], x);
      State(m.db, s.procs[pid := m.pc])
  }

  ghost predicate Next(c: Config, s: State, s': State) {
    exists l :: Enabled(s, l) && s' == Apply(c, s, l)
  }

  /** Any database that respects its constraints, with nobody at work yet. */
  ghost predicate Init(s: State) {
    && |s.db.tables| == 1 && B.Unique(s.db.tables[0])
    && L.UniqueKeys(s.db.ops) && L.UniqueConfirmations(s.db.confs)
    && (forall id | id in s.db.confs :: s.db.confs[id].op in s.db.ops)
    && s.db.origins == map[] && s.db.wins == map[] && s.db.trace == [] && s.procs == map[]
  }

  ghost predicate GoesOn(c: Config, run: seq<State>, i: nat) {
    i + 1 < |run| ==> Next(c, run[i], run[i + 1])
  }

  /** A run: any interleaving, of any length. */
  ghost predicate Behavior(c: Config, run: seq<State>) {
    |run| > 0 && Init(run[0]) && forall i: nat :: GoesOn(c, run, i)
  }
}
