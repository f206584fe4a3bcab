/** Where in a run the values come from that a process carries along, and who
    leaves no trace. */
module ControlHistory {
  import opened ControlProtocol
  import opened ControlSafety

  // ------------------------------------------------------ moments of a run

  /** At `m` the process, about to check this ballot, read the clock. */
  ghost predicate ReadsClock(run: seq<State>, m: nat, pid: nat, b: Ballot, at: int) {
    && m < |run| && pid in run[m].procs && run[m].procs[pid].LoadOperation? && run[m].procs[pid].b == b
    && run[m].db.now == at && b.confirmation in run[m].db.confs
  }

  /** At `k` the process, judging this ballot, had this version of the binding
      table before it. */
  ghost predicate ReadsTable(run: seq<State>, k: nat, pid: nat, b: Ballot, seen: nat) {
    && k < |run| && pid in run[k].procs && (run[k].procs[pid].LoadOperation? || run[k].procs[pid].CheckBinding?)
    && run[k].procs[pid].b == b && |run[k].db.tables| == seen + 1
  }

  /** The step from `j` to the next state is the one in which the process took
      the decision: the confirmation was pending and is decided, and the win, on
      record from now on, was not before. */
  ghost predicate Takes(run: seq<State>, j: nat, op: string, w: Win) {
    && j + 1 < |run| && TakesBetween(run[j], run[j + 1].db, op, w)
  }

  ghost predicate TakesBetween(s: State, next: Db, op: string, w: Win) {
    var id := w.b.confirmation;
    && w.pid in s.procs && s.procs[w.pid].Settle? && s.procs[w.pid].b == w.b
    && id in s.db.confs && s.db.confs[id].decision == L.Pending
    && id in next.confs && next.confs[id].decision == w.d
    && op !in s.db.wins && op in next.wins && next.wins[op] == w
    && next.trace == s.db.trace + [Settled(w.pid, id, w.d)]
  }

  /** At `m` the process, submitting this, read the binding table. */
  ghost predicate FindsRow(run: seq<State>, m: nat, pid: nat, q: Submission, seen: nat) {
    && m < |run| && pid in run[m].procs && run[m].procs[pid].FindBinding? && run[m].procs[pid].q == q
    && |run[m].db.tables| == seen + 1
  }

  ghost predicate ClockRead(run: seq<State>, n: nat, pid: nat, b: Ballot, at: int) {
    exists m: nat :: m < n && ReadsClock(run, m, pid, b, at)
  }

  /** First the clock, then the table, both before `n`. */
  ghost predicate BallotRead(run: seq<State>, n: nat, pid: nat, b: Ballot, at: int, seen: nat) {
    exists m: nat, k: nat :: m <= k < n && ReadsClock(run, m, pid, b, at) && ReadsTable(run, k, pid, b, seen)
  }

  ghost predicate RowFound(run: seq<State>, n: nat, pid: nat, q: Submission, seen: nat) {
    exists m: nat :: m < n && FindsRow(run, m, pid, q, seen)
  }

  ghost predicate PcHistory(run: seq<State>, n: nat, pid: nat, pc: Pc) {
    match pc
    case Assess(q, _, _, seen) => RowFound(run, n, pid, q, seen)
    case LookUp(o, _) => RowFound(run, n, pid, o.q, o.seen)
    case Insert(o, _) => RowFound(run, n, pid, o.q, o.seen)
    case CheckBinding(b, _, _, at) => ClockRead(run, n, pid, b, at)
    case Settle(b, _, _, _, _, at, seen) => BallotRead(run, n, pid, b, at, seen)
    case _ => true
  }

  ghost predicate WinHistory(run: seq<State>, n: nat, op: string, w: Win) {
    exists j: nat :: j < n && Takes(run, j, op, w) && BallotRead(run, j, w.pid, w.b, w.at, w.seen)
  }

  ghost predicate ProcsTold(run: seq<State>, n: nat, procs: map<nat, Pc>) {
    forall pid | pid in procs :: PcHistory(run, n, pid, procs[pid])
  }

  ghost predicate WinsTold(run: seq<State>, n: nat, wins: map<string, Win>) {
    forall op | op in wins :: WinHistory(run, n, op, wins[op])
  }

  ghost predicate OriginTold(run: seq<State>, n: nat, o: Origin) {
    RowFound(run, n, o.pid, o.q, o.seen)
  }

  ghost predicate OriginsTold(run: seq<State>, n: nat, origins: map<string, Origin>) {
    forall op | op in origins :: OriginTold(run, n, origins[op])
  }

  // --------------------------------------------------- what a step hands on

  /** Where the next program counter has its values from. */
  ghost predicate Stems(s: Db, pc: Pc, next: Pc)
    requires |s.tables| > 0
  {
    match next
    case Assess(q, _, _, seen) => pc.FindBinding? && pc.q == q && |s.tables| == seen + 1
    case LookUp(o, _) => pc.Assess? && o.q == pc.q && o.seen == pc.seen
    case Insert(o, _) => pc.LookUp? && o == pc.o
    case CheckBinding(b, _, _, at) => pc.LoadOperation? && pc.b == b && at == s.now
    case Settle(b, _, _, _, _, at, seen) =>
      && |s.tables| == seen + 1
      && ((pc.LoadOperation? && pc.b == b && at == s.now) || (pc.CheckBinding? && pc.b == b && pc.at == at))
    case _ => true
  }

  ghost predicate Hands(s: Db, pid: nat, pc: Pc, m: Move)
    requires |s.tables| > 0
  {
    && Stems(s, pc, m.pc)
    && (forall op | op in m.db.origins && op !in s.origins :: pc.Insert? && m.db.origins[op] == pc.o)
    && (forall op | op in m.db.wins && op !in s.wins ::
          && pc.Settle? && L.Decidable(s.confs, pc.b.confirmation, pc.e)
          && m.db.wins[op] == Win(pid, pc.b, pc.d, pc.at, pc.seen, |s.trace|)
          && m.db == TakeDecision(s, op, pc.e, m.db.wins[op]))
  }

  lemma SubmitHands(c: Config, s: Db, pid: nat, pc: Pc, x: Input)
    requires |s.tables| > 0 && InSubmit(pc)
    ensures Hands(s, pid, pc, SubmitStep(c, s, pid, pc, x))
  {
  }

  lemma DecideHands(s: Db, pid: nat, pc: Pc)
    requires |s.tables| > 0 && InDecide(pc)
    ensures Hands(s, pid, pc, DecideStep(s, pid, pc))
  {
  }

  lemma ExecuteHands(c: Config, s: Db, pid: nat, pc: Pc, x: Input)
    requires |s.tables| > 0 && !InSubmit(pc) && !InDecide(pc) && PcFacts(c, s, pid, pc)
    ensures Hands(s, pid, pc, ExecuteStep(c, s, pid, pc, x))
  {
  }

  lemma StepHands(c: Config, s: Db, pid: nat, pc: Pc, x: Input)
    requires |s.tables| > 0 && PcFacts(c, s, pid, pc)
    ensures Hands(s, pid, pc, RunStep(c, s, pid, pc, x))
  {
    if InSubmit(pc) {
      SubmitHands(c, s, pid, pc, x);
    } else if InDecide(pc) {
      DecideHands(s, pid, pc);
    } else {
      ExecuteHands(c, s, pid, pc, x);
    }
  }

  // -------------------------------------------------- histories accumulate

  lemma PcHistoryGrows(run: seq<State>, n: nat, pid: nat, pc: Pc)
    requires PcHistory(run, n, pid, pc)
    ensures PcHistory(run, n + 1, pid, pc)
  {
  }

  lemma NextPcHistory(c: Config, run: seq<State>, n: nat, pid: nat, next: Pc)
    requires n < |run| && pid in run[n].procs && |run[n].db.tables| > 0
    requires PcHistory(run, n, pid, run[n].procs[pid]) && PcFacts(c, run[n].db, pid, run[n].procs[pid])
    requires Stems(run[n].db, run[n].procs[pid], next)
    ensures PcHistory(run, n + 1, pid, next)
  {
    var pc := run[n].procs[pid];
    match next
    case Assess(q, _, _, seen) => assert FindsRow(run, n, pid, q, seen);
    case CheckBinding(b, _, _, at) => assert ReadsClock(run, n, pid, b, at);
    case Settle(b, _, _, _, _, at, seen) =>
      assert ReadsTable(run, n, pid, b, seen);
      assert pc.LoadOperation? ==> ReadsClock(run, n, pid, b, at);
      assert pc.CheckBinding? ==> ClockRead(run, n, pid, b, at);
    case _ =>
  }

  lemma ProcsGoOn(run: seq<State>, n: nat, procs: map<nat, Pc>, pid: nat, next: Pc)
    requires ProcsTold(run, n, procs) && PcHistory(run, n + 1, pid, next)
    ensures ProcsTold(run, n + 1, procs[pid := next])
  {
    forall p | p in procs && p != pid ensures PcHistory(run, n + 1, p, procs[p]) {
      PcHistoryGrows(run, n, p, procs[p]);
    }
  }

  lemma ProcsGrow(run: seq<State>, n: nat, procs: map<nat, Pc>)
    requires ProcsTold(run, n, procs)
    ensures ProcsTold(run, n + 1, procs)
  {
    forall p | p in procs ensures PcHistory(run, n + 1, p, procs[p]) {
      PcHistoryGrows(run, n, p, procs[p]);
    }
  }

  lemma WinsGrow(run: seq<State>, n: nat, wins: map<string, Win>)
    requires WinsTold(run, n, wins)
    ensures WinsTold(run, n + 1, wins)
  {
    forall op | op in wins ensures WinHistory(run, n + 1, op, wins[op]) {
      assert WinHistory(run, n, op, wins[op]);
    }
  }

  lemma OriginsGrow(run: seq<State>, n: nat, origins: map<string, Origin>)
    requires OriginsTold(run, n, origins)
    ensures OriginsTold(run, n + 1, origins)
  {
    forall op | op in origins ensures OriginTold(run, n + 1, origins[op]) {
      assert OriginTold(run, n, origins[op]);
    }
  }

  lemma WinsGoOn(run: seq<State>, n: nat, pid: nat, m: Move)
    requires n + 1 < |run| && run[n + 1].db == m.db && |run[n].db.tables| > 0 && pid in run[n].procs
    requires WinsTold(run, n, run[n].db.wins) && PcHistory(run, n, pid, run[n].procs[pid])
    requires Extends(run[n].db, m.db) && Hands(run[n].db, pid, run[n].procs[pid], m)
    ensures WinsTold(run, n + 1, m.db.wins)
  {
    WinsGrow(run, n, run[n].db.wins);
    forall op | op in m.db.wins && op !in run[n].db.wins ensures WinHistory(run, n + 1, op, m.db.wins[op]) {
      assert TakesBetween(run[n], m.db, op, m.db.wins[op]);
      assert Takes(run, n, op, m.db.wins[op]);
    }
  }

  lemma OriginsGoOn(c: Config, run: seq<State>, n: nat, pid: nat, m: Move)
    requires n < |run| && |run[n].db.tables| > 0 && pid in run[n].procs
    requires OriginsTold(run, n, run[n].db.origins) && PcHistory(run, n, pid, run[n].procs[pid])
    requires Extends(run[n].db, m.db) && Hands(run[n].db, pid, run[n].procs[pid], m)
    requires PcFacts(c, run[n].db, pid, run[n].procs[pid])
    ensures OriginsTold(run, n + 1, m.db.origins)
  {
    OriginsGrow(run, n, run[n].db.origins);
    forall op | op in m.db.origins && op !in run[n].db.origins ensures OriginTold(run, n + 1, m.db.origins[op]) {
      assert run[n].procs[pid].Insert?;
    }
  }

  ghost predicate HistoryInv(run: seq<State>, n: nat, s: State) {
    ProcsTold(run, n, s.procs) && WinsTold(run, n, s.db.wins) && OriginsTold(run, n, s.db.origins)
  }

  lemma RunTold(c: Config, run: seq<State>, n: nat, pid: nat, m: Move)
    requires n + 1 < |run| && run[n + 1].db == m.db && |run[n].db.tables| > 0 && pid in run[n].procs
    requires HistoryInv(run, n, run[n])
    requires PcFacts(c, run[n].db, pid, run[n].procs[pid])
    requires Extends(run[n].db, m.db) && Hands(run[n].db, pid, run[n].procs[pid], m)
    ensures HistoryInv(run, n + 1, State(m.db, run[n].procs[pid := m.pc]))
  {
    NextPcHistory(c, run, n, pid, m.pc);
    ProcsGoOn(run, n, run[n].procs, pid, m.pc);
    WinsGoOn(run, n, pid, m);
    OriginsGoOn(c, run, n, pid, m);
  }

  lemma NewPcTold(run: seq<State>, n: nat, s: State, pid: nat, pc: Pc)
    requires HistoryInv(run, n, s) && (pc.FindDevice? || pc.LoadConfirmation? || pc.Done?)
    ensures HistoryInv(run, n + 1, s.(procs := s.procs[pid := pc]))
  {
    ProcsGoOn(run, n, s.procs, pid, pc);
    WinsGrow(run, n, s.db.wins);
    OriginsGrow(run, n, s.db.origins);
  }

  lemma WorldTold(run: seq<State>, n: nat, s: State, db: Db)
    requires HistoryInv(run, n, s) && db.wins == s.db.wins && db.origins == s.db.origins
    ensures HistoryInv(run, n + 1, s.(db := db))
  {
    ProcsGrow(run, n, s.procs);
    WinsGrow(run, n, s.db.wins);
    OriginsGrow(run, n, s.db.origins);
  }

  lemma StepTold(c: Config, run: seq<State>, n: nat, l: Label)
    requires n + 1 < |run| && Enabled(run[n], l) && run[n + 1] == Apply(c, run[n], l)
    requires HistoryInv(run, n, run[n])
    requires ProcsInv(c, run[n].db, run[n].procs) && Extends(run[n].db, Apply(c, run[n], l).db)
    ensures HistoryInv(run, n + 1, Apply(c, run[n], l))
  {
    var s := run[n];
    match l
    case Tick(now) => WorldTold(run, n, s, s.db.(now := now));
    case Sync(id, b, devices) =>
      WorldTold(run, n, s, s.db.(tables := s.db.tables + [B.Upserted(Current(s.db), id, b, devices)]));
    case Submit(pid, q) => NewPcTold(run, n, s, pid, FindDevice(q));
    case Decide(pid, b) => NewPcTold(run, n, s, pid, LoadConfirmation(b));
    case Stop(pid) => NewPcTold(run, n, s, pid, Done);
    case Run(pid, x) =>
      StepHands(c, s.db, pid, s.procs[pid], x);
      RunTold(c, run, n, pid, RunStep(c, s.db, pid, s.procs[pid], x));
  }

  /** What the invariant says of the processes at one moment. */
  lemma ProcsAt(c: Config, run: seq<State>, n: nat)
    requires Behavior(c, run) && n < |run|
    ensures |run[n].db.tables| > 0 && ProcsInv(c, run[n].db, run[n].procs)
  {
    Reachable(c, run, n);
  }

  lemma {:induction false} HistoryHolds(c: Config, run: seq<State>, n: nat)
    requires Behavior(c, run) && n < |run|
    ensures HistoryInv(run, n, run[n])
  {
    if n == 0 {
    } else {
      HistoryHolds(c, run, n - 1);
      HistoryGoesOn(c, run, n - 1);
    }
  }

  lemma HistoryGoesOn(c: Config, run: seq<State>, n: nat)
    requires Behavior(c, run) && n + 1 < |run| && HistoryInv(run, n, run[n])
    ensures HistoryInv(run, n + 1, run[n + 1])
  {
    ProcsAt(c, run, n);
    StepExtends(c, run, n);
    var l := StepLabel(c, run, n);
    StepTold(c, run, n, l);
  }

  lemma StepLabel(c: Config, run: seq<State>, n: nat) returns (l: Label)
    requires Behavior(c, run) && n + 1 < |run|
    ensures Enabled(run[n], l) && run[n + 1] == Apply(c, run[n], l)
  {
    assert GoesOn(c, run, n);
    l :| Enabled(run[n], l) && run[n + 1] == Apply(c, run[n], l);
  }

  lemma StepExtends(c: Config, run: seq<State>, n: nat)
    requires Behavior(c, run) && n + 1 < |run|
    ensures Extends(run[n].db, run[n + 1].db)
  {
    Reachable(c, run, n);
    var l := StepLabel(c, run, n);
    ApplyKeeps(c, run[n], l);
  }

  lemma ExtendsTransitive(a: Db, b: Db, d: Db)
    requires Extends(a, b) && Extends(b, d)
    ensures Extends(a, d)
  {
  }

  lemma {:induction false} RunExtends(c: Config, run: seq<State>, m: nat, n: nat)
    requires Behavior(c, run) && m <= n < |run|
    ensures Extends(run[m].db, run[n].db)
  {
    if m == n {
    } else {
      RunExtends(c, run, m, n - 1);
      StepExtends(c, run, n - 1);
      ExtendsTransitive(run[m].db, run[n - 1].db, run[n].db);
    }
  }

  // ------------------------------------------------------------- bystanders

  /** Nothing in the records comes from the process. */
  ghost predicate Silent(s: Db, pid: nat) {
    && (forall i | 0 <= i < |s.trace| :: s.trace[i].pid != pid)
    && (forall op | op in s.origins :: s.origins[op].pid != pid)
    && (forall op | op in s.wins :: s.wins[op].pid != pid)
  }

  /** Before its first write, a process has done nothing. */
  predicate Early(pc: Pc) {
    (InSubmit(pc) && !pc.Ask?) || (InDecide(pc) && !pc.LoadApproved? && !pc.LoadVerdict?)
  }

  /** The event with which a call ends that changed nothing. */
  predicate Closing(e: Event) {
    e.Lost? || (e.Answered? && e.answer != L.Created)
  }

  /** Its one event apart, nothing comes from the process. */
  ghost predicate OnlyEvent(s: Db, i: nat)
    requires i < |s.trace|
  {
    var pid := s.trace[i].pid;
    && (forall j | 0 <= j < |s.trace| && j != i :: s.trace[j].pid != pid)
    && (forall op | op in s.origins :: s.origins[op].pid != pid)
    && (forall op | op in s.wins :: s.wins[op].pid != pid)
  }

  ghost predicate QuietInv(s: State) {
    && (forall pid | pid !in s.procs || Early(s.procs[pid]) :: Silent(s.db, pid))
    && (forall i | 0 <= i < |s.db.trace| && Closing(s.db.trace[i]) ::
          s.db.trace[i].pid in s.procs && s.procs[s.db.trace[i].pid].Done? && OnlyEvent(s.db, i))
  }

  /** What a step of a process does to the records. */
  ghost predicate Steps(s: Db, pid: nat, pc: Pc, m: Move) {
    && s.trace <= m.db.trace && |m.db.trace| <= |s.trace| + 1
    && (|m.db.trace| == |s.trace| + 1 ==> m.db.trace[|s.trace|].pid == pid)
    && (forall op | op in m.db.origins ::
          (op in s.origins && m.db.origins[op] == s.origins[op]) || m.db.origins[op].pid == pid)
    && (forall op | op in m.db.wins ::
          (op in s.wins && m.db.wins[op] == s.wins[op]) || m.db.wins[op].pid == pid)
    && (Early(m.pc) ==> Early(pc) && Unrecorded(s, m.db) && m.db.trace == s.trace)
    && (|m.db.trace| == |s.trace| + 1 && Closing(m.db.trace[|s.trace|]) ==>
          Early(pc) && m.pc.Done? && Unrecorded(s, m.db))
    && (pc.Done? ==> m == Move(s, Done))
  }

  predicate Unrecorded(s: Db, s': Db) {
    s'.origins == s.origins && s'.wins == s.wins
  }

  lemma StillSteps(s: Db, pid: nat, pc: Pc, m: Move)
    requires m.db == s && (Early(m.pc) ==> Early(pc)) && (pc.Done? ==> m.pc.Done?)
    ensures Steps(s, pid, pc, m)
  {
  }

  lemma LogSteps(s: Db, pid: nat, pc: Pc, m: Move, e: Event)
    requires m.db.trace == s.trace + [e] && e.pid == pid && Unrecorded(s, m.db) && !Early(m.pc) && !pc.Done?
    requires Closing(e) ==> Early(pc) && m.pc.Done?
    ensures Steps(s, pid, pc, m)
  {
  }

  lemma InsertSteps(c: Config, s: Db, pid: nat, pc: Pc, x: Input)
    requires |s.tables| > 0 && pc.Insert? && PcFacts(c, s, pid, pc)
    ensures Steps(s, pid, pc, SubmitStep(c, s, pid, pc, x))
  {
    var m := SubmitStep(c, s, pid, pc, x);
    if !x.NewId? {
      StillSteps(s, pid, pc, m);
    } else if L.Insertion(s.ops, x.id, RequestOf(pc.o, pc.target), x.devices) != L.Created {
      LogSteps(s, pid, pc, m, m.db.trace[|s.trace|]);
    }
  }

  lemma SubmitSteps(c: Config, s: Db, pid: nat, pc: Pc, x: Input)
    requires |s.tables| > 0 && InSubmit(pc) && PcFacts(c, s, pid, pc)
    ensures Steps(s, pid, pc, SubmitStep(c, s, pid, pc, x))
  {
    var m := SubmitStep(c, s, pid, pc, x);
    if pc.Insert? {
      InsertSteps(c, s, pid, pc, x);
    } else if pc.LookUp? && L.FindKey(s.ops, pc.o.q.key).Some? {
      LogSteps(s, pid, pc, m, m.db.trace[|s.trace|]);
    } else if pc.Ask? {
      AskSteps(c, s, pid, pc, x);
    } else {
      StillSteps(s, pid, pc, m);
    }
  }

  lemma AskSteps(c: Config, s: Db, pid: nat, pc: Pc, x: Input)
    requires |s.tables| > 0 && pc.Ask?
    ensures Steps(s, pid, pc, SubmitStep(c, s, pid, pc, x))
  {
  }

  lemma DecideSteps(s: Db, pid: nat, pc: Pc)
    requires |s.tables| > 0 && InDecide(pc)
    ensures Steps(s, pid, pc, DecideStep(s, pid, pc))
  {
    var m := DecideStep(s, pid, pc);
    if pc.Settle? {
      SettleSteps(s, pid, pc);
    } else {
      StillSteps(s, pid, pc, m);
    }
  }

  lemma SettleSteps(s: Db, pid: nat, pc: Pc)
    requires |s.tables| > 0 && pc.Settle?
    ensures Steps(s, pid, pc, DecideStep(s, pid, pc))
  {
    if !L.Decidable(s.confs, pc.b.confirmation, pc.e) {
      LogSteps(s, pid, pc, DecideStep(s, pid, pc), Lost(pid, pc.b.confirmation));
    }
  }

  lemma WriteSteps(c: Config, s: Db, pid: nat, pc: Pc, x: Input)
    requires |s.tables| > 0 && pc.Write? && PcFacts(c, s, pid, pc)
    ensures Steps(s, pid, pc, ExecuteStep(c, s, pid, pc, x))
  {
    var m := ExecuteStep(c, s, pid, pc, x);
    if m.db == s {
      StillSteps(s, pid, pc, m);
    } else {
      LogSteps(s, pid, pc, m, Wrote(pid, pc.op, pc.status, pc.result));
    }
  }

  lemma ExecuteSteps(c: Config, s: Db, pid: nat, pc: Pc, x: Input)
    requires |s.tables| > 0 && !InSubmit(pc) && !InDecide(pc) && PcFacts(c, s, pid, pc)
    ensures Steps(s, pid, pc, ExecuteStep(c, s, pid, pc, x))
  {
    var m := ExecuteStep(c, s, pid, pc, x);
    if pc.Write? {
      WriteSteps(c, s, pid, pc, x);
    } else if m.db == s {
      StillSteps(s, pid, pc, m);
    } else {
      LogSteps(s, pid, pc, m, m.db.trace[|s.trace|]);
    }
  }

  lemma RunSteps(c: Config, s: Db, pid: nat, pc: Pc, x: Input)
    requires |s.tables| > 0 && PcFacts(c, s, pid, pc)
    ensures Steps(s, pid, pc, RunStep(c, s, pid, pc, x))
  {
    if InSubmit(pc) {
      SubmitSteps(c, s, pid, pc, x);
    } else if InDecide(pc) {
      DecideSteps(s, pid, pc);
    } else {
      ExecuteSteps(c, s, pid, pc, x);
    }
  }

  lemma OthersStaySilent(s: Db, pid: nat, pc: Pc, m: Move, p: nat)
    requires Steps(s, pid, pc, m) && p != pid && Silent(s, p)
    ensures Silent(m.db, p)
  {
  }

  lemma OldEventStaysOnly(s: Db, pid: nat, pc: Pc, m: Move, i: nat)
    requires Steps(s, pid, pc, m) && i < |s.trace| && OnlyEvent(s, i) && s.trace[i].pid != pid
    ensures OnlyEvent(m.db, i)
  {
  }

  lemma QuietKept(s: State, pid: nat, m: Move)
    requires QuietInv(s) && pid in s.procs && Steps(s.db, pid, s.procs[pid], m)
    ensures QuietInv(State(m.db, s.procs[pid := m.pc]))
  {
    var pc, t := s.procs[pid], State(m.db, s.procs[pid := m.pc]);
    forall p | p !in t.procs || Early(t.procs[p]) ensures Silent(t.db, p) {
      if p != pid {
        OthersStaySilent(s.db, pid, pc, m, p);
      } else {
        assert Silent(s.db, pid);
      }
    }
    forall i | 0 <= i < |t.db.trace| && Closing(t.db.trace[i])
      ensures t.db.trace[i].pid in t.procs && t.procs[t.db.trace[i].pid].Done? && OnlyEvent(t.db, i)
    {
      if i == |s.db.trace| {
        assert Silent(s.db, pid);
      } else if s.db.trace[i].pid != pid {
        assert t.db.trace[i] == s.db.trace[i];
        OldEventStaysOnly(s.db, pid, pc, m, i);
      } else {
        assert t.db.trace[i] == s.db.trace[i];
      }
    }
  }

  lemma NewPcQuiet(s: State, pid: nat, pc: Pc)
    requires QuietInv(s) && (pid in s.procs ==> pc.Done?)
    ensures QuietInv(s.(procs := s.procs[pid := pc]))
  {
  }

  lemma WorldQuiet(s: State, db: Db)
    requires QuietInv(s) && db == s.db.(now := db.now, tables := db.tables)
    ensures QuietInv(s.(db := db))
  {
    forall pid | Silent(s.db, pid) ensures Silent(db, pid) {
    }
  }

  lemma StepQuiet(c: Config, s: State, l: Label)
    requires Enabled(s, l) && QuietInv(s) && ProcsInv(c, s.db, s.procs)
    ensures QuietInv(Apply(c, s, l))
  {
    match l
    case Tick(now) => WorldQuiet(s, s.db.(now := now));
    case Sync(id, b, devices) =>
      WorldQuiet(s, s.db.(tables := s.db.tables + [B.Upserted(Current(s.db), id, b, devices)]));
    case Submit(pid, q) => NewPcQuiet(s, pid, FindDevice(q));
    case Decide(pid, b) => NewPcQuiet(s, pid, LoadConfirmation(b));
    case Stop(pid) => NewPcQuiet(s, pid, Done);
    case Run(pid, x) =>
      RunSteps(c, s.db, pid, s.procs[pid], x);
      QuietKept(s, pid, RunStep(c, s.db, pid, s.procs[pid], x));
  }

  lemma {:induction false} QuietHolds(c: Config, run: seq<State>, n: nat)
    requires Behavior(c, run) && n < |run|
    ensures QuietInv(run[n])
  {
    if n == 0 {
    } else {
      QuietHolds(c, run, n - 1);
      ProcsAt(c, run, n - 1);
      var l := StepLabel(c, run, n - 1);
      StepQuiet(c, run[n - 1], l);
    }
  }

  // --------------------------------------------------- the trace is complete

  /** Old rows change only along with the event that says so. */
  ghost predicate Logs(s: Db, s': Db) {
    && s.trace <= s'.trace
    && (forall op | op in s.ops && op in s'.ops && s'.ops[op] != s.ops[op] ::
          exists i :: |s.trace| <= i < |s'.trace| && s'.trace[i].Wrote? && s'.trace[i].op == op)
    && (forall id | id in s.confs && id in s'.confs && s'.confs[id] != s.confs[id] ::
          exists i :: |s.trace| <= i < |s'.trace| && s'.trace[i].Settled? && s'.trace[i].id == id)
  }

  lemma SettleLogs(s: Db, pid: nat, pc: Pc)
    requires |s.tables| > 0 && pc.Settle?
    ensures Logs(s, DecideStep(s, pid, pc).db)
  {
    var s' := DecideStep(s, pid, pc).db;
    assert s'.ops == s.ops;
    if L.Decidable(s.confs, pc.b.confirmation, pc.e) {
      assert s'.trace[|s.trace|] == Settled(pid, pc.b.confirmation, pc.d);
    } else {
      assert s'.confs == s.confs;
    }
  }

  lemma WriteLogs(c: Config, s: Db, pid: nat, pc: Pc, x: Input)
    requires pc.Write?
    ensures Logs(s, ExecuteStep(c, s, pid, pc, x).db)
  {
    var s' := ExecuteStep(c, s, pid, pc, x).db;
    assert s'.confs == s.confs;
    if s' != s {
      assert s'.trace[|s.trace|] == Wrote(pid, pc.op, pc.status, pc.result);
      assert forall op | op in s.ops && op != pc.op :: s'.ops[op] == s.ops[op];
    }
  }

  lemma SubmitLogs(c: Config, s: Db, pid: nat, pc: Pc, x: Input)
    requires |s.tables| > 0 && InSubmit(pc)
    ensures Logs(s, SubmitStep(c, s, pid, pc, x).db)
  {
    var s' := SubmitStep(c, s, pid, pc, x).db;
    assert forall op | op in s.ops :: op in s'.ops && s'.ops[op] == s.ops[op];
    assert forall id | id in s.confs :: id in s'.confs && s'.confs[id] == s.confs[id];
  }

  lemma OtherLogs(c: Config, s: Db, pid: nat, pc: Pc, x: Input)
    requires |s.tables| > 0 && !InSubmit(pc) && !pc.Settle? && !pc.Write?
    ensures Logs(s, RunStep(c, s, pid, pc, x).db)
  {
    var s' := RunStep(c, s, pid, pc, x).db;
    assert s'.ops == s.ops && s'.confs == s.confs;
  }

  lemma StepLogs(c: Config, s: Db, pid: nat, pc: Pc, x: Input)
    requires |s.tables| > 0
    ensures Logs(s, RunStep(c, s, pid, pc, x).db)
  {
    if pc.Settle? {
      SettleLogs(s, pid, pc);
    } else if pc.Write? {
      WriteLogs(c, s, pid, pc, x);
    } else if InSubmit(pc) {
      SubmitLogs(c, s, pid, pc, x);
    } else {
      OtherLogs(c, s, pid, pc, x);
    }
  }
}
