/** Term mappings as they are created, used, promoted, corrected and retired by
    any number of interleaved calls.  A call reads in one step and appends in
    another; anything may happen in between. */
module TermMachine {
  import opened Base
  import opened Order
  import opened TermLog

  datatype Call =
    | CreateProvisional(home: string, owner: string, display: string, term: string, ids: seq<string>,
                        message: string, source: Source, now: int)
    | CreateApproved(home: string, scope: Scope, owner: string, display: string, term: string, ids: seq<string>,
                     message: string, source: Source, supersedes: Option<string>, now: int)
    | Approve(id: string, now: int)
    | Reject(id: string, now: int)
    | Supersede(id: string, now: int)

  predicate Creates(call: Call) {
    call.CreateProvisional? || call.CreateApproved?
  }

  function KeyOf(call: Call): Key
    requires Creates(call)
  {
    match call
    case CreateProvisional(home, owner, _, term, _, _, _, _) => Key(home, Person, Some(owner), term)
    case CreateApproved(home, scope, owner, _, term, _, _, _, _, _) =>
      Key(home, scope, if scope == Person then Some(owner) else None, term)
  }

  ghost predicate ActiveAt(log: Log, key: Key, r: Revision) {
    IsLatest(log, r) && r.key == key && Active(r)
  }

  /** The newest active row for a key; ties are the database's choice. */
  ghost predicate Finds(log: Log, key: Key, found: Option<Revision>) {
    match found
    case None => forall r | r in log :: !ActiveAt(log, key, r)
    case Some(f) => ActiveAt(log, key, f) && forall r | ActiveAt(log, key, r) :: r.createdAt <= f.createdAt
  }

  /** What a call decides after its read. */
  datatype Plan =
    | Append(base: Option<Revision>, row: Revision)
    | Return(row: Revision)
    | Raise(code: string)

  function FirstRow(call: Call, ids: seq<string>, newId: string, ttl: int): Revision
    requires Creates(call)
  {
    match call
    case CreateProvisional(_, _, display, _, _, message, source, now) =>
      Revision(newId, 1, KeyOf(call), display, ids, Provisional, message, source, now, Some(now + ttl), now, None)
    case CreateApproved(_, _, _, display, _, _, message, source, supersedes, now) =>
      Revision(newId, 1, KeyOf(call), display, ids, Approved, message, source, now, None, now, supersedes)
  }

  function PlanCreate(call: Call, found: Option<Revision>, newId: string, ttl: int): Plan
    requires Creates(call)
  {
    var ids := SortedIds(call.ids);
    if |ids| == 0 || |ids| > 20 then Raise("invalid_target")
    else if found.None? then Append(None, FirstRow(call, ids, newId, ttl))
    else if found.value.targets != ids then Raise("term_conflict")
    else
      var status := if call.CreateProvisional? then found.value.status else Approved;
      Append(found, WithStatus(found.value, status, Some(call.source), call.now))
  }

  function PlanChange(call: Call, current: Option<Revision>): Plan
    requires !Creates(call)
  {
    if current.None? then Raise("term_not_found")
    else
      var r := current.value;
      match call
      case Approve(_, now) =>
        if r.status == Approved then Return(r)
        else if r.status != Provisional then Raise("term_not_provisional")
        else Append(current, WithStatus(r, Approved, None, now))
      case Reject(_, now) =>
        if r.status == Rejected then Return(r)
        else if !Active(r) then Raise("term_not_active")
        else Append(current, WithStatus(r, Rejected, None, now))
      case Supersede(_, now) =>
        if r.status == Superseded then Return(r)
        else Append(current, WithStatus(r, Superseded, None, now))
      case _ => Raise("")
  }

  ghost function PlanFor(log: Log, call: Call, found: Option<Revision>, newId: string, ttl: int): Plan {
    if Creates(call) then PlanCreate(call, found, newId, ttl) else PlanChange(call, Latest(log, call.id))
  }

  datatype Pc =
    | Reading(call: Call)
    | Inserting(call: Call, base: Option<Revision>, row: Revision)
    | Finished

  datatype State = State(log: Log, procs: map<nat, Pc>)

  datatype Label =
    | Begin(pid: nat, call: Call)
    // the find of a create answers `found`; `newId` is the id a new mapping would get
    | Read(pid: nat, found: Option<Revision>, newId: string)
    | Insert(pid: nat)
    // an audit or storage error, or a cancellation
    | Stop(pid: nat)

  ghost predicate Enabled(s: State, l: Label) {
    match l
    case Begin(pid, _) => pid !in s.procs
    case Read(pid, found, _) =>
      && pid in s.procs && s.procs[pid].Reading?
      && (Creates(s.procs[pid].call) ==> Finds(s.log, KeyOf(s.procs[pid].call), found))
    case Insert(pid) => pid in s.procs && s.procs[pid].Inserting?
    case Stop(pid) => pid in s.procs
  }

  ghost function AfterRead(s: State, call: Call, found: Option<Revision>, newId: string, ttl: int): Pc {
    var plan := PlanFor(s.log, call, found, newId, ttl);
    if plan.Append? then Inserting(call, plan.base, plan.row) else Finished
  }

  ghost function Apply(ttl: int, s: State, l: Label): State
    requires Enabled(s, l)
  {
    match l
    case Begin(pid, call) => s.(procs := s.procs[pid := Reading(call)])
    case Read(pid, found, newId) => s.(procs := s.procs[pid := AfterRead(s, s.procs[pid].call, found, newId, ttl)])
    case Insert(pid) => State(Inserted(s.log, s.procs[pid].row), s.procs[pid := Finished])
    case Stop(pid) => s.(procs := s.procs[pid := Finished])
  }

  ghost predicate Next(ttl: int, s: State, s': State) {
    exists l :: Enabled(s, l) && s' == Apply(ttl, s, l)
  }

  ghost predicate Behavior(ttl: int, run: seq<State>) {
    && |run| > 0
    && run[0] == State([], map[])
    && forall i, j | 0 <= i && j == i + 1 < |run| :: Next(ttl, run[i], run[j])
  }

  // ----------------------------------------------------------- lawful logs

  predicate MayBecome(a: Status, b: Status) {
    match a
    case Provisional => true
    case Approved => b != Provisional
    case Rejected => b == Superseded
    case Superseded => false
  }

  /** `r` was computed from `base`. */
  predicate Succeeds(base: Revision, r: Revision) {
    && r.id == base.id && r.number == base.number + 1
    && r.key == base.key && r.targets == base.targets && r.display == base.display
    && r.createdAt == base.createdAt && r.message == base.message && r.supersedes == base.supersedes
    && MayBecome(base.status, r.status)
    && r.promoteAt == (if r.status == Provisional then base.promoteAt else None)
  }

  predicate Born(ttl: int, r: Revision) {
    && r.number == 1
    && 1 <= |r.targets| <= 20 && StrictlySorted(r.targets, StringLt)
    && (r.key.scope == Person <==> r.key.person.Some?)
    && match r.status
       case Provisional => r.key.scope == Person && r.promoteAt == Some(r.createdAt + ttl)
       case Approved => r.promoteAt == None
       case _ => false
  }

  /** Every row starts a mapping or was computed from the row that was its
      mapping's latest at the very moment of the insert. */
  ghost predicate Lawful(ttl: int, log: Log) {
    log != [] ==>
      var n := |log| - 1;
      Lawful(ttl, log[..n]) && Follows(ttl, log[..n], log[n])
  }

  ghost predicate Follows(ttl: int, before: Log, r: Revision) {
    || (Born(ttl, r) && Count(before, r.id) == 0)
    || exists base :: IsLatest(before, base) && Succeeds(base, r)
  }

  ghost predicate PcFacts(ttl: int, log: Log, pc: Pc) {
    pc.Inserting? ==>
      match pc.base
      case None => Creates(pc.call) && Born(ttl, pc.row) && pc.row.key == KeyOf(pc.call) && Active(pc.row)
      case Some(b) => b in log && Succeeds(b, pc.row)
  }

  ghost predicate Inv(ttl: int, s: State) {
    && Numbered(s.log) && Lawful(ttl, s.log)
    && forall pid | pid in s.procs :: PcFacts(ttl, s.log, s.procs[pid])
  }

  lemma PlanFacts(ttl: int, s: State, call: Call, found: Option<Revision>, newId: string)
    requires Creates(call) ==> Finds(s.log, KeyOf(call), found)
    ensures PcFacts(ttl, s.log, AfterRead(s, call, found, newId, ttl))
  {
    if Creates(call) {
      SortedIdsSorts(call.ids);
    }
  }

  lemma NoneCounted(log: Log, id: string)
    requires Numbered(log) && forall q | q in log && q.id == id :: q.number != 1
    ensures Count(log, id) == 0
  {
    if Count(log, id) > 0 {
      NoGap(log, id, 1);
    }
  }

  /** Lost updates cannot happen: an insert is accepted only as the first row
      of a new mapping or on top of the row it was computed from. */
  lemma InsertKeeps(ttl: int, log: Log, pc: Pc)
    requires Numbered(log) && Lawful(ttl, log) && pc.Inserting? && PcFacts(ttl, log, pc)
    ensures Numbered(Inserted(log, pc.row)) && Lawful(ttl, Inserted(log, pc.row))
    ensures pc.base.Some? ==> (Insertable(log, pc.row) <==> IsLatest(log, pc.base.value))
  {
    if pc.base.Some? {
      SuccessorFitsOnlyLatest(log, pc.base.value, pc.row);
    }
    if Insertable(log, pc.row) {
      InsertKeepsNumbers(log, pc.row);
      if pc.base.None? {
        NoneCounted(log, pc.row.id);
      }
      assert Follows(ttl, log, pc.row);
      assert (log + [pc.row])[..|log|] == log;
    }
  }

  lemma ApplyKeeps(ttl: int, s: State, l: Label)
    requires Inv(ttl, s) && Enabled(s, l)
    ensures Inv(ttl, Apply(ttl, s, l)) && s.log <= Apply(ttl, s, l).log
  {
    match l
    case Read(pid, found, newId) => PlanFacts(ttl, s, s.procs[pid].call, found, newId);
    case Insert(pid) => InsertKeeps(ttl, s.log, s.procs[pid]);
    case _ =>
  }

  lemma {:induction false} Reachable(ttl: int, run: seq<State>, n: nat)
    requires Behavior(ttl, run) && n < |run|
    ensures Inv(ttl, run[n])
  {
    if n == 0 {
    } else {
      Reachable(ttl, run, n - 1);
      assert Next(ttl, run[n - 1], run[n]);
      var l :| Enabled(run[n - 1], l) && run[n] == Apply(ttl, run[n - 1], l);
      ApplyKeeps(ttl, run[n - 1], l);
    }
  }

  lemma {:induction false} LogGrows(ttl: int, run: seq<State>, m: nat, n: nat)
    requires Behavior(ttl, run) && m <= n < |run|
    ensures run[m].log <= run[n].log
  {
    if m == n {
    } else {
      LogGrows(ttl, run, m, n - 1);
      Reachable(ttl, run, n - 1);
      assert Next(ttl, run[n - 1], run[n]);
      var l :| Enabled(run[n - 1], l) && run[n] == Apply(ttl, run[n - 1], l);
      ApplyKeeps(ttl, run[n - 1], l);
    }
  }
}
