/** The promises of the term log, over every run. */
module TermTheorems {
  import opened Base
  import opened Order
  import opened TermLog
  import opened TermMachine

  lemma {:induction false} LawfulAt(ttl: int, log: Log, i: nat)
    requires Lawful(ttl, log) && Numbered(log) && i < |log|
    ensures Follows(ttl, log[..i], log[i]) && log[i].number == Count(log[..i], log[i].id) + 1
  {
    var n := |log| - 1;
    if i < n {
      LawfulAt(ttl, log[..n], i);
      assert log[..n][..i] == log[..i];
    }
  }

  /** Lost-update freedom.  In every run each mapping's rows are numbered 1, 2,
      3, ... in the order of the log, and each row after the first was computed
      from the row that still was the latest when it was appended. */
  lemma NoLostUpdate(ttl: int, run: seq<State>, n: nat, i: nat)
    requires Behavior(ttl, run) && n < |run| && i < |run[n].log|
    ensures var log := run[n].log;
            && log[i].number == Count(log[..i], log[i].id) + 1
            && (log[i].number > 1 ==> exists base :: IsLatest(log[..i], base) && Succeeds(base, log[i]))
  {
    Reachable(ttl, run, n);
    LawfulAt(ttl, run[n].log, i);
  }

  /** What cannot be undone between an earlier and a later row of a mapping. */
  predicate Later(a: Revision, b: Revision) {
    && b.id == a.id && b.key == a.key && b.targets == a.targets && b.createdAt == a.createdAt
    && (!Active(a) ==> !Active(b))
    && (a.status == Superseded ==> b.status == Superseded)
    && (b.status == Provisional ==> a.status == Provisional && b.promoteAt == a.promoteAt)
  }

  lemma {:induction false} RowsLater(ttl: int, log: Log, i: nat, j: nat)
    requires Numbered(log) && Lawful(ttl, log) && i <= j < |log| && log[i].id == log[j].id
    ensures Later(log[i], log[j])
  {
    var n := |log| - 1;
    if j < n {
      RowsLater(ttl, log[..n], i, j);
    } else if i < j {
      assert log[i] in log[..n];
      CountBounds(log[..n], log[n].id);
      var base :| IsLatest(log[..n], base) && Succeeds(base, log[n]);
      var k :| 0 <= k < n && log[k] == base;
      if k < i {
        NumbersRise(log[..n], k, i);
      }
      RowsLater(ttl, log[..n], i, k);
    }
  }

  lemma {:induction false} RowFacts(ttl: int, log: Log, i: nat)
    requires Numbered(log) && Lawful(ttl, log) && i < |log|
    ensures var r := log[i];
            && (r.promoteAt.Some? <==> r.status == Provisional)
            && (r.status == Provisional ==> r.key.scope == Person && r.key.person.Some?
                                            && r.promoteAt == Some(r.createdAt + ttl))
            && 1 <= |r.targets| <= 20 && StrictlySorted(r.targets, StringLt)
  {
    var n := |log| - 1;
    if i < n {
      RowFacts(ttl, log[..n], i);
    } else if !(Born(ttl, log[n]) && Count(log[..n], log[n].id) == 0) {
      var base :| IsLatest(log[..n], base) && Succeeds(base, log[n]);
      var k :| 0 <= k < n && log[k] == base;
      RowFacts(ttl, log[..n], k);
    }
  }

  lemma LatestLater(ttl: int, log: Log, log': Log, a: Revision)
    requires Numbered(log') && Lawful(ttl, log') && log <= log' && IsLatest(log, a)
    ensures exists b :: IsLatest(log', b) && Later(a, b)
  {
    MaintainedIsLatest(log');
    var b := Maintained(log')[a.id];
    var i :| 0 <= i < |log| && log[i] == a;
    var j :| 0 <= j < |log'| && log'[j] == b;
    assert log'[i] == a;
    if j < i {
      NumbersRise(log', j, i);
    }
    RowsLater(ttl, log', i, j);
  }

  /** The life of a mapping over any interleaving: from one moment to any later
      one it keeps its key and targets; once rejected or superseded it is never
      active again; once approved it is never provisional again; and while it is
      provisional its promotion date, set once from its creation, never moves. */
  lemma Lifecycle(ttl: int, run: seq<State>, m: nat, n: nat, a: Revision)
    requires Behavior(ttl, run) && m <= n < |run| && IsLatest(run[m].log, a)
    ensures exists b :: IsLatest(run[n].log, b) && Later(a, b)
    ensures a.promoteAt == if a.status == Provisional then Some(a.createdAt + ttl) else None
  {
    Reachable(ttl, run, m);
    Reachable(ttl, run, n);
    LogGrows(ttl, run, m, n);
    LatestLater(ttl, run[m].log, run[n].log, a);
    var i :| 0 <= i < |run[m].log| && run[m].log[i] == a;
    RowFacts(ttl, run[m].log, i);
  }

  /** The rows the promotion worker fetches. */
  ghost predicate Due(log: Log, now: int, r: Revision) {
    IsLatest(log, r) && r.status == Provisional && r.promoteAt.Some? && r.promoteAt.value <= now
  }

  /** The rows a person's "not that one" may still take back. */
  ghost predicate Correctable(log: Log, home: string, person: string, now: int, r: Revision) {
    && IsLatest(log, r) && r.key.home == home && r.key.scope == Person && r.key.person == Some(person)
    && r.status == Provisional && r.promoteAt.Some? && r.promoteAt.value > now
  }

  /** At any instant a provisional mapping is either still correctable by its
      owner, and by nobody else, or due for promotion, never both. */
  lemma CorrectableOrDue(ttl: int, run: seq<State>, n: nat, r: Revision, now: int)
    requires Behavior(ttl, run) && n < |run| && IsLatest(run[n].log, r) && r.status == Provisional
    ensures var log := run[n].log;
            && r.key.person.Some?
            && (Due(log, now, r) <==> !Correctable(log, r.key.home, r.key.person.value, now, r))
            && forall home, person | Correctable(log, home, person, now, r) ::
                 home == r.key.home && Some(person) == r.key.person
  {
    Reachable(ttl, run, n);
    var i :| 0 <= i < |run[n].log| && run[n].log[i] == r;
    RowFacts(ttl, run[n].log, i);
  }

  /** The queries over MAX(revision) agree with a map kept up to date row by row. */
  lemma QueriesAgreeWithMap(ttl: int, run: seq<State>, n: nat)
    requires Behavior(ttl, run) && n < |run|
    ensures var log := run[n].log;
            && Currents(log) == Maintained(log).Values
            && (forall id | id in Maintained(log) :: Latest(log, id) == Some(Maintained(log)[id]))
            && (forall id | Latest(log, id).Some? :: id in Maintained(log))
  {
    Reachable(ttl, run, n);
    JoinIsMaintainedMap(run[n].log);
  }

  // ------------------------------------------------- one mapping for a key

  ghost predicate OneActiveFor(log: Log, key: Key) {
    forall a, b | ActiveAt(log, key, a) && ActiveAt(log, key, b) :: a.id == b.id
  }

  ghost predicate OneActive(log: Log) {
    forall key :: OneActiveFor(log, key)
  }

  /** A process on its way to create or reuse a mapping for a key. */
  predicate Busy(pc: Pc, key: Key) {
    (pc.Reading? || pc.Inserting?) && Creates(pc.call) && KeyOf(pc.call) == key
  }

  /** Creates for the key do not overlap. */
  ghost predicate NoOverlapFor(s: State, key: Key) {
    forall p, q | p in s.procs && q in s.procs && Busy(s.procs[p], key) && Busy(s.procs[q], key) :: p == q
  }

  /** A create for the key that found nothing still would find nothing. */
  ghost predicate NoneYetFor(s: State, key: Key) {
    forall pid | pid in s.procs && s.procs[pid].Inserting? && s.procs[pid].base.None? && s.procs[pid].row.key == key ::
      Finds(s.log, key, None)
  }

  lemma LatestAfter(log: Log, row: Revision, r: Revision)
    requires Numbered(log) && Numbered(log + [row])
    ensures IsLatest(log + [row], r) <==> r == row || (IsLatest(log, r) && r.id != row.id)
  {
    assert (log + [row])[..|log|] == log;
    CountBounds(log, row.id);
    CountBounds(log + [row], row.id);
    assert forall q | q in log :: q in log + [row];
  }

  ghost predicate ActiveOnlyIn(log: Log, key: Key, id: string) {
    forall r | ActiveAt(log, key, r) :: r.id == id
  }

  /** Whatever is active for the row's key is the mapping the row belongs to. */
  lemma RowOwnsItsKey(ttl: int, log: Log, pc: Pc)
    requires Numbered(log) && pc.Inserting? && PcFacts(ttl, log, pc) && Insertable(log, pc.row)
    requires OneActiveFor(log, pc.row.key) && (pc.base.None? ==> Finds(log, pc.row.key, None))
    ensures Active(pc.row) ==> ActiveOnlyIn(log, pc.row.key, pc.row.id)
    ensures Active(pc.row) && pc.base.Some? ==> ActiveAt(log, pc.row.key, pc.base.value)
  {
    if pc.base.Some? {
      SuccessorFitsOnlyLatest(log, pc.base.value, pc.row);
      if Active(pc.row) {
        assert ActiveAt(log, pc.row.key, pc.base.value);
      }
    }
  }

  lemma ActiveAfter(log: Log, row: Revision, key: Key, r: Revision)
    requires Numbered(log) && Numbered(log + [row]) && ActiveAt(log + [row], key, r)
    ensures if r == row then key == row.key && Active(row) else ActiveAt(log, key, r)
  {
    LatestAfter(log, row, r);
  }

  lemma OneActiveAfter(log: Log, row: Revision, key: Key)
    requires Numbered(log) && Numbered(log + [row]) && OneActiveFor(log, key)
    requires row.key == key && Active(row) ==> ActiveOnlyIn(log, key, row.id)
    ensures OneActiveFor(log + [row], key)
  {
    forall a, b | ActiveAt(log + [row], key, a) && ActiveAt(log + [row], key, b) ensures a.id == b.id {
      ActiveAfter(log, row, key, a);
      ActiveAfter(log, row, key, b);
    }
  }

  lemma NoneYetAfter(log: Log, row: Revision, key: Key)
    requires Numbered(log) && Numbered(log + [row]) && Finds(log, key, None)
    requires !(row.key == key && Active(row))
    ensures Finds(log + [row], key, None)
  {
    forall r | r in log + [row] ensures !ActiveAt(log + [row], key, r) {
      if ActiveAt(log + [row], key, r) {
        ActiveAfter(log, row, key, r);
      }
    }
  }

  lemma InsertKeepsOneActive(ttl: int, s: State, pid: nat, key: Key)
    requires Inv(ttl, s) && OneActiveFor(s.log, key) && NoneYetFor(s, key) && NoOverlapFor(s, key)
    requires Enabled(s, Insert(pid)) && Insertable(s.log, s.procs[pid].row)
    ensures OneActiveFor(Apply(ttl, s, Insert(pid)).log, key) && NoneYetFor(Apply(ttl, s, Insert(pid)), key)
  {
    var pc := s.procs[pid];
    var row, log := pc.row, s.log;
    assert PcFacts(ttl, log, pc);
    InsertKeeps(ttl, log, pc);
    if row.key == key {
      RowOwnsItsKey(ttl, log, pc);
    }
    OneActiveAfter(log, row, key);
    forall q | q in s.procs && q != pid && s.procs[q].Inserting? && s.procs[q].base.None? && s.procs[q].row.key == key
      ensures Finds(log + [row], key, None)
    {
      assert PcFacts(ttl, log, s.procs[q]) && Busy(s.procs[q], key);
      assert row.key == key && pc.base.None? ==> Busy(pc, key);
      NoneYetAfter(log, row, key);
    }
  }

  lemma StepKeepsOneActive(ttl: int, s: State, l: Label, key: Key)
    requires Inv(ttl, s) && OneActiveFor(s.log, key) && NoneYetFor(s, key) && NoOverlapFor(s, key) && Enabled(s, l)
    ensures OneActiveFor(Apply(ttl, s, l).log, key) && NoneYetFor(Apply(ttl, s, l), key)
  {
    match l
    case Insert(pid) =>
      if Insertable(s.log, s.procs[pid].row) {
        InsertKeepsOneActive(ttl, s, pid, key);
      }
    case Read(pid, found, newId) =>
      PlanFacts(ttl, s, s.procs[pid].call, found, newId);
    case _ =>
  }

  lemma {:induction false} OneActiveHolds(ttl: int, run: seq<State>, n: nat, key: Key)
    requires Behavior(ttl, run) && n < |run|
    requires forall i | 0 <= i < n :: NoOverlapFor(run[i], key)
    ensures OneActiveFor(run[n].log, key) && NoneYetFor(run[n], key)
  {
    if n == 0 {
    } else {
      OneActiveHolds(ttl, run, n - 1, key);
      Reachable(ttl, run, n - 1);
      assert Next(ttl, run[n - 1], run[n]);
      var l :| Enabled(run[n - 1], l) && run[n] == Apply(ttl, run[n - 1], l);
      StepKeepsOneActive(ttl, run[n - 1], l, key);
    }
  }

  /** As long as creates for a key do not overlap, the key has at most one active
      mapping, however creates for other keys overlap and whatever approvals,
      rejections, corrections and reuses interleave. */
  lemma AtMostOneActive(ttl: int, run: seq<State>, n: nat, key: Key)
    requires Behavior(ttl, run) && n < |run|
    requires forall i | 0 <= i < n :: NoOverlapFor(run[i], key)
    ensures OneActiveFor(run[n].log, key)
  {
    OneActiveHolds(ttl, run, n, key);
  }

  /** Hence every key has, when no creates overlap at all. */
  lemma AtMostOneActiveEach(ttl: int, run: seq<State>, n: nat)
    requires Behavior(ttl, run) && n < |run|
    requires forall i, key | 0 <= i < n :: NoOverlapFor(run[i], key)
    ensures OneActive(run[n].log)
  {
    forall key ensures OneActiveFor(run[n].log, key) {
      AtMostOneActive(ttl, run, n, key);
    }
  }

  /** Without that discipline one check is missing: a new mapping leaves its key
      single exactly when nothing became active for the key since the read, and
      it leaves every other key as it was. */
  lemma NewMappingIsSafeExactlyWhen(ttl: int, log: Log, pc: Pc)
    requires Numbered(log) && Lawful(ttl, log) && pc.Inserting? && OneActiveFor(log, pc.row.key)
    requires pc.base.None? && PcFacts(ttl, log, pc) && Insertable(log, pc.row)
    ensures OneActiveFor(Inserted(log, pc.row), pc.row.key) <==> Finds(log, pc.row.key, None)
    ensures forall key | key != pc.row.key :: OneActiveFor(Inserted(log, pc.row), key) <==> OneActiveFor(log, key)
  {
    var row := pc.row;
    InsertKeeps(ttl, log, pc);
    NoneCounted(log, row.id);
    CountBounds(log, row.id);
    if Finds(log, row.key, None) {
      OneActiveAfter(log, row, row.key);
    } else {
      var r :| ActiveAt(log, row.key, r);
      LatestAfter(log, row, r);
      LatestAfter(log, row, row);
      assert ActiveAt(log + [row], row.key, r) && ActiveAt(log + [row], row.key, row);
    }
    forall key | key != row.key ensures OneActiveFor(log + [row], key) <==> OneActiveFor(log, key) {
      OtherKeyUntouched(log, row, key);
    }
  }

  lemma OtherKeyUntouched(log: Log, row: Revision, key: Key)
    requires Numbered(log) && Numbered(log + [row]) && key != row.key && forall q | q in log :: q.id != row.id
    ensures OneActiveFor(log + [row], key) <==> OneActiveFor(log, key)
  {
    forall r ensures ActiveAt(log + [row], key, r) <==> ActiveAt(log, key, r) {
      LatestAfter(log, row, r);
    }
  }

  /** The row starts a second active mapping for the key. */
  ghost predicate Doubles(log: Log, row: Revision, key: Key) {
    row.number == 1 && row.key == key && !Finds(log, key, None)
  }

  lemma NewRowIsBorn(ttl: int, log: Log, row: Revision)
    requires Numbered(log + [row]) && Lawful(ttl, log + [row])
    ensures row.number == 1 ==> Born(ttl, row) && Count(log, row.id) == 0
    ensures row.number != 1 ==> exists base :: IsLatest(log, base) && Succeeds(base, row)
  {
    assert (log + [row])[..|log|] == log;
    CountBounds(log, row.id);
    assert Follows(ttl, log, row);
  }

  /** Any row at all, new or a successor, leaves a single key single exactly when
      it does not start a second active mapping for it. */
  lemma RowKeepsSingleExactlyWhen(ttl: int, log: Log, row: Revision, key: Key)
    requires Numbered(log) && Numbered(log + [row]) && Lawful(ttl, log + [row]) && OneActiveFor(log, key)
    ensures OneActiveFor(log + [row], key) <==> !Doubles(log, row, key)
  {
    NewRowIsBorn(ttl, log, row);
    CountBounds(log, row.id);
    if Doubles(log, row, key) {
      var r :| ActiveAt(log, key, r);
      NoneCounted(log, row.id);
      LatestAfter(log, row, r);
      LatestAfter(log, row, row);
      assert ActiveAt(log + [row], key, r) && ActiveAt(log + [row], key, row);
    } else {
      if row.number != 1 {
        var base :| IsLatest(log, base) && Succeeds(base, row);
        assert row.key == key && Active(row) ==> ActiveAt(log, key, base);
      }
      OneActiveAfter(log, row, key);
    }
  }

  /** The step after `i` appends a row that starts a second active mapping. */
  ghost predicate DoublesAt(run: seq<State>, i: nat, key: Key) {
    && i + 1 < |run| && |run[i + 1].log| == |run[i].log| + 1
    && Doubles(run[i].log, run[i + 1].log[|run[i].log|], key)
  }

  lemma StepsAppend(ttl: int, run: seq<State>, i: nat)
    requires Behavior(ttl, run) && i + 1 < |run|
    ensures Numbered(run[i].log) && Numbered(run[i + 1].log) && Lawful(ttl, run[i + 1].log)
    ensures run[i + 1].log == run[i].log
         || (|run[i + 1].log| == |run[i].log| + 1 && run[i + 1].log == run[i].log + [run[i + 1].log[|run[i].log|]])
  {
    Reachable(ttl, run, i);
    Reachable(ttl, run, i + 1);
    assert Next(ttl, run[i], run[i + 1]);
  }

  ghost predicate SingleUpTo(run: seq<State>, n: nat, key: Key)
    requires n < |run|
  {
    forall i | 0 <= i <= n :: OneActiveFor(run[i].log, key)
  }

  /** With overlapping creates and all: a key is single throughout a run exactly
      when no insert of the run started a mapping for it beside an active one. */
  lemma {:induction false} SingleThroughoutExactlyWhen(ttl: int, run: seq<State>, n: nat, key: Key)
    requires Behavior(ttl, run) && n < |run|
    ensures SingleUpTo(run, n, key) <==> forall i | 0 <= i < n :: !DoublesAt(run, i, key)
  {
    if n == 0 {
    } else {
      SingleThroughoutExactlyWhen(ttl, run, n - 1, key);
      StepsAppend(ttl, run, n - 1);
      if SingleUpTo(run, n - 1, key) {
        var log := run[n - 1].log;
        if run[n].log != log {
          RowKeepsSingleExactlyWhen(ttl, log, run[n].log[|log|], key);
        }
        assert OneActiveFor(run[n].log, key) <==> !DoublesAt(run, n - 1, key);
      }
    }
  }

  lemma RunOn(ttl: int, run: seq<State>, s: State)
    requires Behavior(ttl, run) && Next(ttl, run[|run| - 1], s)
    ensures Behavior(ttl, run + [s])
  {
  }

  lemma CreateBegins(ttl: int, s: State, pid: nat, call: Call)
    requires pid !in s.procs
    ensures Next(ttl, s, s.(procs := s.procs[pid := Reading(call)]))
  {
    assert Enabled(s, Begin(pid, call));
    assert Apply(ttl, s, Begin(pid, call)) == s.(procs := s.procs[pid := Reading(call)]);
  }

  lemma CreateReads(ttl: int, s: State, pid: nat, call: Call, row: Revision)
    requires s.log == [] && pid in s.procs && s.procs[pid] == Reading(call)
    requires Creates(call) && PlanCreate(call, None, row.id, ttl) == Append(None, row)
    ensures Next(ttl, s, s.(procs := s.procs[pid := Inserting(call, None, row)]))
  {
    assert Enabled(s, Read(pid, None, row.id));
    assert Apply(ttl, s, Read(pid, None, row.id)) == s.(procs := s.procs[pid := Inserting(call, None, row)]);
  }

  lemma CreateInserts(ttl: int, s: State, pid: nat, call: Call, row: Revision)
    requires pid in s.procs && s.procs[pid] == Inserting(call, None, row) && Insertable(s.log, row)
    ensures Next(ttl, s, State(s.log + [row], s.procs[pid := Finished]))
  {
    assert Enabled(s, Insert(pid));
    assert Apply(ttl, s, Insert(pid)) == State(s.log + [row], s.procs[pid := Finished]);
  }

  /** Two overlapping creates: both begin, both read, both insert. */
  lemma OverlapRuns(ttl: int, call: Call, a: Revision, b: Revision) returns (run: seq<State>)
    requires Creates(call) && a.id != b.id
    requires PlanCreate(call, None, a.id, ttl) == Append(None, a)
    requires PlanCreate(call, None, b.id, ttl) == Append(None, b)
    ensures Behavior(ttl, run) && run[|run| - 1].log == [a, b]
  {
    run := [State([], map[])];
    var s := run[0];
    CreateBegins(ttl, s, 0, call);
    s := s.(procs := s.procs[0 := Reading(call)]);
    RunOn(ttl, run, s);
    run := run + [s];
    CreateBegins(ttl, s, 1, call);
    s := s.(procs := s.procs[1 := Reading(call)]);
    RunOn(ttl, run, s);
    run := run + [s];
    run := OverlapEnds(ttl, call, a, b, run);
  }

  lemma OverlapEnds(ttl: int, call: Call, a: Revision, b: Revision, begun: seq<State>) returns (run: seq<State>)
    requires Creates(call) && a.id != b.id
    requires PlanCreate(call, None, a.id, ttl) == Append(None, a)
    requires PlanCreate(call, None, b.id, ttl) == Append(None, b)
    requires Behavior(ttl, begun)
    requires var s := begun[|begun| - 1]; s.log == [] && s.procs == map[0 := Reading(call), 1 := Reading(call)]
    ensures Behavior(ttl, run) && run[|run| - 1].log == [a, b]
  {
    run := begun;
    var s := run[|run| - 1];
    CreateReads(ttl, s, 0, call, a);
    s := s.(procs := s.procs[0 := Inserting(call, None, a)]);
    RunOn(ttl, run, s);
    run := run + [s];
    CreateReads(ttl, s, 1, call, b);
    s := s.(procs := s.procs[1 := Inserting(call, None, b)]);
    RunOn(ttl, run, s);
    run := run + [s];
    CreateInserts(ttl, s, 0, call, a);
    s := State([] + [a], s.procs[0 := Finished]);
    RunOn(ttl, run, s);
    run := run + [s];
    CreateInserts(ttl, s, 1, call, b);
    s := State([a] + [b], s.procs[1 := Finished]);
    RunOn(ttl, run, s);
    run := run + [s];
  }

  /** Any create whose target is acceptable can end up twice: two first uses of
      one expression that both read before either inserts leave two active
      mappings for its key. */
  lemma OverlappingCreatesBothStay(ttl: int, call: Call)
    requires Creates(call) && 1 <= |SortedIds(call.ids)| <= 20
    ensures exists run: seq<State> :: Behavior(ttl, run) && !OneActiveFor(run[|run| - 1].log, KeyOf(call))
  {
    var ids := SortedIds(call.ids);
    var a, b := FirstRow(call, ids, "1", ttl), FirstRow(call, ids, "2", ttl);
    var run := OverlapRuns(ttl, call, a, b);
    assert ActiveAt([a, b], KeyOf(call), a) && ActiveAt([a, b], KeyOf(call), b);
  }
}
