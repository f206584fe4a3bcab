/** The term store as one process sees it when nobody interrupts, and the worker
    that promotes what is due. */
module TermStore {
  import opened Base
  import opened Order
  import opened TermLog
  import opened TermMachine
  import T = TermTheorems

  /** How a write ends: well, with an error before the row is stored, or with an
      error after it, when only the closing audit record fails. */
  datatype Fault = NoFault | BeforeWrite | AfterWrite

  /** Where the worker's own records of a mapping raise, which ends the pass: at
      the first, at the second, or after the attempt to promote it. */
  datatype Abort = Never | AtRequest | AtCheck | AtResponse

  /** A due mapping in the order the worker takes them. */
  datatype Turn = Turn(promoteAt: int, id: string)

  predicate TurnLt(a: Turn, b: Turn) {
    a.promoteAt < b.promoteAt || (a.promoteAt == b.promoteAt && StringLt(a.id, b.id))
  }

  lemma TurnOrder()
    ensures StrictTotal(TurnLt)
  {
    StringOrder();
  }

  predicate IsDue(r: Revision, now: int) {
    r.status == Provisional && r.promoteAt.Some? && r.promoteAt.value <= now
  }

  /** The mapping's current row waits for a promotion whose date has come. */
  ghost predicate DueId(log: Log, now: int, id: string) {
    Latest(log, id).Some? && IsDue(Latest(log, id).value, now)
  }

  function Promoted(r: Option<Revision>, now: int): Option<Revision> {
    if r.None? then None else Some(WithStatus(r.value, Status.Approved, None, now))
  }

  ghost predicate Sound(ttl: int, log: Log) {
    Numbered(log) && Lawful(ttl, log)
  }

  lemma LatestIs(log: Log, r: Revision)
    requires Numbered(log) && IsLatest(log, r)
    ensures Latest(log, r.id) == Some(r)
  {
    OneLatest(log, r, Latest(log, r.id).value);
  }

  lemma LatestAfterAppend(log: Log, row: Revision, id: string)
    requires Numbered(log) && Numbered(log + [row])
    ensures Latest(log + [row], id) == if id == row.id then Some(row) else Latest(log, id)
  {
    var log' := log + [row];
    assert log'[..|log|] == log;
    CountBounds(log, row.id);
    CountBounds(log', row.id);
    if id == row.id {
      assert IsLatest(log', row);
      LatestIs(log', row);
    } else {
      forall q: Revision | q.id == id ensures IsLatest(log', q) <==> IsLatest(log, q) {
        assert forall x | x in log :: x in log';
      }
      if Latest(log, id).Some? {
        LatestIs(log', Latest(log, id).value);
      }
    }
  }

  function TurnOf(r: Revision): Turn
    requires r.promoteAt.Some?
  {
    Turn(r.promoteAt.value, r.id)
  }

  ghost predicate IsTurn(log: Log, now: int, t: Turn) {
    DueId(log, now, t.id) && TurnOf(Latest(log, t.id).value) == t
  }

  lemma AddTurn(due: seq<Turn>, t: Turn)
    requires StrictlySorted(due, TurnLt)
    ensures StrictlySorted(Place(t, due, TurnLt), TurnLt)
    ensures forall x :: x in Place(t, due, TurnLt) <==> x in due || x == t
  {
    TurnOrder();
    PlaceSorted(t, due, TurnLt);
    PlaceElements(t, due, TurnLt);
    forall x ensures x in Place(t, due, TurnLt) <==> x in due || x == t {
      assert x in Elements(Place(t, due, TurnLt)) <==> x in Elements(due) + {t};
    }
  }

  /** The turns found among the first `n` rows. */
  ghost predicate Collected(log: Log, now: int, due: seq<Turn>, n: nat) {
    && n <= |log| && StrictlySorted(due, TurnLt)
    && (forall t | t in due :: IsTurn(log, now, t))
    && (forall k | 0 <= k < n && IsLatest(log, log[k]) && IsDue(log[k], now) :: TurnOf(log[k]) in due)
  }

  lemma CollectRow(log: Log, now: int, due: seq<Turn>, n: nat)
    requires Numbered(log) && Collected(log, now, due, n) && n < |log|
    ensures if IsDue(log[n], now) && IsLatest(log, log[n])
            then Collected(log, now, Place(TurnOf(log[n]), due, TurnLt), n + 1)
            else Collected(log, now, due, n + 1)
  {
    var r := log[n];
    if IsDue(r, now) && IsLatest(log, r) {
      LatestIs(log, r);
      AddTurn(due, TurnOf(r));
    }
  }

  lemma DueComplete(log: Log, now: int, due: seq<Turn>)
    requires Collected(log, now, due, |log|)
    ensures Fetched(log, now, due)
  {
    TurnOrder();
    forall id ensures DueId(log, now, id) <==> id in Ids(due) {
      if DueId(log, now, id) {
        var r := Latest(log, id).value;
        var k :| 0 <= k < |log| && log[k] == r;
        var i :| 0 <= i < |due| && due[i] == TurnOf(r);
        assert Ids(due)[i] == id;
      }
      if id in Ids(due) {
        var i :| 0 <= i < |due| && Ids(due)[i] == id;
        assert IsTurn(log, now, due[i]);
      }
    }
    forall i, j | 0 <= i < j < |due| ensures Ids(due)[i] != Ids(due)[j] {
      assert IsTurn(log, now, due[i]) && IsTurn(log, now, due[j]) && TurnLt(due[i], due[j]);
    }
  }

  /** How far a pass has come: the mappings in `done` were promoted unless the
      write failed, and everything else is as it was. */
  ghost predicate Progress(before: Log, log: Log, now: int, done: seq<string>, faults: string -> Fault) {
    forall id :: Latest(log, id) == if id in done && faults(id) != BeforeWrite
                                    then Promoted(Latest(before, id), now) else Latest(before, id)
  }

  lemma PassGoesOn(before: Log, log: Log, log': Log, now: int, done: seq<string>, id: string, faults: string -> Fault)
    requires Numbered(log) && Numbered(log') && Progress(before, log, now, done, faults)
    requires id !in done && DueId(before, now, id)
    requires log' == if faults(id) != BeforeWrite
                     then log + [WithStatus(Latest(before, id).value, Status.Approved, None, now)] else log
    ensures Progress(before, log', now, done + [id], faults)
  {
    forall other ensures Latest(log', other) == if other in done + [id] && faults(other) != BeforeWrite
                                                then Promoted(Latest(before, other), now) else Latest(before, other)
    {
      assert Latest(log, other) == if other in done && faults(other) != BeforeWrite
                                   then Promoted(Latest(before, other), now) else Latest(before, other);
      if faults(id) != BeforeWrite {
        LatestAfterAppend(log, WithStatus(Latest(before, id).value, Status.Approved, None, now), other);
      }
    }
  }

  /** Due afterwards is what was due and was not tried, or could not be written. */
  ghost predicate Leaves(before: Log, log: Log, now: int, tried: seq<string>, faults: string -> Fault) {
    forall id :: DueId(log, now, id) <==> DueId(before, now, id) && (id in tried ==> faults(id) == BeforeWrite)
  }

  /** What was tried is either promoted or reported as skipped. */
  ghost predicate Sorts(approved: seq<string>, skipped: seq<string>, tried: seq<string>, faults: string -> Fault) {
    && (forall id :: id in approved <==> id in tried && faults(id) == NoFault)
    && (forall id :: id in skipped <==> id in tried && faults(id) != NoFault)
  }

  lemma SortOne(approved: seq<string>, skipped: seq<string>, tried: seq<string>, faults: string -> Fault, id: string,
      isTried: bool)
    requires Sorts(approved, skipped, tried, faults)
    ensures var ok := isTried && faults(id) == NoFault;
      Sorts(approved + (if ok then [id] else []), skipped + (if isTried && !ok then [id] else []),
            tried + (if isTried then [id] else []), faults)
  {
  }

  lemma PassLeaves(before: Log, log: Log, now: int, ids: seq<string>, tried: seq<string>, faults: string -> Fault)
    requires Progress(before, log, now, tried, faults) && forall id | id in ids :: DueId(before, now, id)
    requires forall id | id in tried :: id in ids
    ensures Leaves(before, log, now, tried, faults)
  {
  }

  /** The pass ends after all of `ids`, or at the first of them whose records raise. */
  ghost predicate EndsAt(ids: seq<string>, aborts: string -> Abort, n: nat) {
    n <= |ids| && (forall i | 0 <= i < n :: aborts(ids[i]) == Never) && (n < |ids| ==> aborts(ids[n]) != Never)
  }

  /** The mappings it put on the list of checked ones. */
  ghost function Checked(ids: seq<string>, aborts: string -> Abort, n: nat): seq<string>
    requires n <= |ids|
  {
    ids[..n] + (if n < |ids| && aborts(ids[n]) != AtRequest then [ids[n]] else [])
  }

  /** The mappings it tried to promote. */
  ghost function Tried(ids: seq<string>, aborts: string -> Abort, n: nat): seq<string>
    requires n <= |ids|
  {
    ids[..n] + (if n < |ids| && aborts(ids[n]) == AtResponse then [ids[n]] else [])
  }

  /** The mappings of the turns, in order. */
  function Ids(due: seq<Turn>): seq<string> {
    seq(|due|, i requires 0 <= i < |due| => due[i].id)
  }

  /** What the worker fetches: every due mapping once. */
  ghost predicate Fetched(log: Log, now: int, due: seq<Turn>) {
    && StrictlySorted(due, TurnLt)
    && (forall t | t in due :: IsTurn(log, now, t))
    && (forall id :: DueId(log, now, id) <==> id in Ids(due))
    && (forall i, j | 0 <= i < j < |due| :: Ids(due)[i] != Ids(due)[j])
  }

  /** Where the loop is: in the middle of `ids`, or stopped at the `n`-th. */
  ghost predicate PassAt(ids: seq<string>, aborts: string -> Abort, n: nat, completed: bool, checked: seq<string>,
      tried: seq<string>)
  {
    && n <= |ids| && (forall i | 0 <= i < n :: aborts(ids[i]) == Never)
    && (if completed then checked == ids[..n] && tried == ids[..n]
        else n < |ids| && aborts(ids[n]) != Never
             && checked == Checked(ids, aborts, n) && tried == Tried(ids, aborts, n))
  }

  lemma NextInPass(ids: seq<string>, aborts: string -> Abort, n: nat, checked: seq<string>, tried: seq<string>)
    requires PassAt(ids, aborts, n, true, checked, tried) && n < |ids|
    requires forall i, j | 0 <= i < j < |ids| :: ids[i] != ids[j]
    ensures ids[n] in ids && ids[n] !in tried
    ensures var a := aborts(ids[n]);
      var checked' := checked + (if a != AtRequest then [ids[n]] else []);
      var tried' := tried + (if a == Never || a == AtResponse then [ids[n]] else []);
      if a == Never then PassAt(ids, aborts, n + 1, true, checked', tried')
      else PassAt(ids, aborts, n, false, checked', tried')
  {
    assert ids[..n + 1] == ids[..n] + [ids[n]];
  }

  lemma EndOfPass(ids: seq<string>, aborts: string -> Abort, n: nat, completed: bool, checked: seq<string>,
      tried: seq<string>)
    requires PassAt(ids, aborts, n, completed, checked, tried) && (completed ==> n == |ids|)
    ensures EndsAt(ids, aborts, n) && (completed <==> n == |ids|)
    ensures checked == Checked(ids, aborts, n) && tried == Tried(ids, aborts, n)
    ensures forall id | id in tried :: id in ids
  {
    assert ids[..|ids|] == ids;
  }

  // ------------------------------------------- what a pass does to the rows

  /** The latest row of its mapping is provisional and its promotion date has come. */
  ghost predicate DueRow(log: Log, now: int, r: Revision) {
    IsLatest(log, r) && r.status == Provisional && r.promoteAt.Some? && r.promoteAt.value <= now
  }

  /** The row after its promotion. */
  function ApprovedRow(r: Revision, now: int): Revision {
    r.(number := r.number + 1, status := Status.Approved, promoteAt := None, updatedAt := now)
  }

  lemma LatestRow(log: Log, id: string, r: Revision)
    requires Numbered(log)
    ensures Latest(log, id) == Some(r) <==> r.id == id && IsLatest(log, r)
  {
    if r.id == id && IsLatest(log, r) {
      LatestIs(log, r);
    }
  }

  lemma DueIsARow(log: Log, now: int, id: string)
    requires Numbered(log)
    ensures DueId(log, now, id) <==> exists r :: DueRow(log, now, r) && r.id == id
  {
    if DueId(log, now, id) {
      assert DueRow(log, now, Latest(log, id).value);
    }
    if r :| DueRow(log, now, r) && r.id == id {
      LatestIs(log, r);
    }
  }

  lemma FetchedRows(log: Log, now: int, due: seq<Turn>)
    requires Numbered(log) && Fetched(log, now, due)
    ensures forall t :: t in due <==> exists r :: DueRow(log, now, r) && t == Turn(r.promoteAt.value, r.id)
    ensures forall i, j | 0 <= i < j < |due| :: due[i].promoteAt <= due[j].promoteAt
  {
    forall t ensures t in due <==> exists r :: DueRow(log, now, r) && t == Turn(r.promoteAt.value, r.id) {
      if t in due {
        assert IsTurn(log, now, t) && DueRow(log, now, Latest(log, t.id).value);
      }
      if r :| DueRow(log, now, r) && t == Turn(r.promoteAt.value, r.id) {
        LatestIs(log, r);
        assert DueId(log, now, r.id);
        var i :| 0 <= i < |due| && Ids(due)[i] == r.id;
        assert IsTurn(log, now, due[i]);
      }
    }
    forall i, j | 0 <= i < j < |due| ensures due[i].promoteAt <= due[j].promoteAt {
      assert TurnLt(due[i], due[j]);
    }
  }

  /** What a pass may do to the rows: it tries only mappings that are due, each
      of those it wrote has its approved row, and no other row moves. */
  ghost predicate MovesOnlyDue(before: Log, log: Log, now: int, tried: seq<string>, approved: seq<string>) {
    && (forall id | id in tried :: exists r :: DueRow(before, now, r) && r.id == id)
    && (forall id | id in approved ::
          exists r :: DueRow(before, now, r) && r.id == id && IsLatest(log, ApprovedRow(r, now)))
    && (forall r | IsLatest(before, r) && !DueRow(before, now, r) :: IsLatest(log, r))
  }

  lemma PassMovesOnlyDue(before: Log, log: Log, now: int, ids: seq<string>, tried: seq<string>,
      approved: seq<string>, skipped: seq<string>, faults: string -> Fault)
    requires Numbered(before) && Numbered(log) && Progress(before, log, now, tried, faults)
    requires Sorts(approved, skipped, tried, faults)
    requires (forall id | id in ids :: DueId(before, now, id)) && forall id | id in tried :: id in ids
    ensures MovesOnlyDue(before, log, now, tried, approved)
  {
    forall id | id in tried ensures exists r :: DueRow(before, now, r) && r.id == id {
      DueIsARow(before, now, id);
    }
    forall id | id in approved
      ensures exists r :: DueRow(before, now, r) && r.id == id && IsLatest(log, ApprovedRow(r, now))
    {
      var r := Latest(before, id).value;
      assert Latest(log, id) == Some(ApprovedRow(r, now));
    }
    forall r | IsLatest(before, r) && !DueRow(before, now, r) ensures IsLatest(log, r) {
      LatestIs(before, r);
      assert Latest(log, r.id) == Some(r);
    }
  }

  /** What its owner may take back before the pass, the owner may take back after it. */
  ghost predicate StaysCorrectable(before: Log, log: Log, now: int) {
    forall home, person, r | T.Correctable(before, home, person, now, r) :: T.Correctable(log, home, person, now, r)
  }

  predicate AllWritten(ids: seq<string>, faults: string -> Fault) {
    forall id | id in ids :: faults(id) != BeforeWrite
  }

  /** Every provisional mapping is one its owner may still take back. */
  ghost predicate OnlyCorrectable(log: Log, now: int) {
    forall r | IsLatest(log, r) && r.status == Provisional ::
      r.key.person.Some? && T.Correctable(log, r.key.home, r.key.person.value, now, r)
  }

  lemma NothingDue(ttl: int, log: Log, now: int)
    requires Sound(ttl, log) && forall id :: !DueId(log, now, id)
    ensures OnlyCorrectable(log, now)
  {
    forall r | IsLatest(log, r) && r.status == Provisional
      ensures r.key.person.Some? && T.Correctable(log, r.key.home, r.key.person.value, now, r)
    {
      var i :| 0 <= i < |log| && log[i] == r;
      T.RowFacts(ttl, log, i);
      LatestIs(log, r);
      assert !DueId(log, now, r.id);
    }
  }

  lemma CleanPass(ttl: int, before: Log, log: Log, now: int, due: seq<Turn>, aborts: string -> Abort, n: nat,
      faults: string -> Fault)
    requires Sound(ttl, log) && Fetched(before, now, due) && EndsAt(Ids(due), aborts, n) && n == |due|
    requires Leaves(before, log, now, Tried(Ids(due), aborts, n), faults) && AllWritten(Ids(due), faults)
    ensures OnlyCorrectable(log, now)
  {
    assert Tried(Ids(due), aborts, n) == Ids(due);
    NothingDue(ttl, log, now);
  }

  lemma PassOnRows(ttl: int, before: Log, log: Log, now: int, due: seq<Turn>, aborts: string -> Abort, n: nat,
      tried: seq<string>, approved: seq<string>, skipped: seq<string>, faults: string -> Fault)
    requires Sound(ttl, before) && Sound(ttl, log) && Fetched(before, now, due) && EndsAt(Ids(due), aborts, n)
    requires tried == Tried(Ids(due), aborts, n) && Sorts(approved, skipped, tried, faults)
    requires Progress(before, log, now, tried, faults) && Leaves(before, log, now, tried, faults)
    ensures MovesOnlyDue(before, log, now, tried, approved) && StaysCorrectable(before, log, now)
    ensures n == |due| && AllWritten(Ids(due), faults) ==> OnlyCorrectable(log, now)
  {
    PassMovesOnlyDue(before, log, now, Ids(due), tried, approved, skipped, faults);
    if n == |due| && AllWritten(Ids(due), faults) {
      CleanPass(ttl, before, log, now, due, aborts, n, faults);
    }
  }

  class Store {
    const ttl: int
    var log: Log

    constructor (ttl: int)
      ensures this.ttl == ttl && log == [] && Sound(ttl, log)
    {
      this.ttl := ttl;
      log := [];
    }

    method LoadCurrent(id: string) returns (r: Option<Revision>)
      requires Numbered(log)
      ensures r == Latest(log, id)
    {
      r := None;
      for i := 0 to |log|
        invariant r.Some? ==> r.value in log && r.value.id == id
        invariant forall k | 0 <= k < i && log[k].id == id :: r.Some? && log[k].number <= r.value.number
      {
        if log[i].id == id && (r.None? || r.value.number < log[i].number) {
          r := Some(log[i]);
        }
      }
      if r.Some? {
        LatestIs(log, r.value);
      }
    }

    method DueProvisionals(now: int) returns (due: seq<Turn>)
      requires Numbered(log)
      ensures Fetched(log, now, due)
      ensures forall t :: t in due <==> exists r :: DueRow(log, now, r) && t == Turn(r.promoteAt.value, r.id)
      ensures forall i, j | 0 <= i < j < |due| ::
                due[i].promoteAt < due[j].promoteAt
                || (due[i].promoteAt == due[j].promoteAt && StringLt(due[i].id, due[j].id))
    {
      due := [];
      for i := 0 to |log|
        invariant Collected(log, now, due, i)
      {
        var r := log[i];
        CollectRow(log, now, due, i);
        if IsDue(r, now) && forall k | 0 <= k < |log| && log[k].id == r.id :: log[k].number <= r.number {
          due := Place(TurnOf(r), due, TurnLt);
        }
      }
      DueComplete(log, now, due);
      FetchedRows(log, now, due);
    }

    /** Read and append without interruption. */
    method Approve(id: string, now: int, fault: Fault) returns (ok: bool)
      requires Sound(ttl, log)
      modifies this
      ensures Sound(ttl, log) && old(log) <= log
      ensures var r := Latest(old(log), id);
              && (ok <==> r.Some?
                          && (r.value.status == Approved || (r.value.status == Provisional && fault == NoFault)))
              && log == if r.Some? && r.value.status == Provisional && fault != BeforeWrite
                        then old(log) + [ApprovedRow(r.value, now)] else old(log)
    {
      var current := LoadCurrent(id);
      if current.None? {
        return false;
      }
      if current.value.status == Approved {
        return true;
      }
      if current.value.status != Provisional || fault == BeforeWrite {
        return false;
      }
      var row := WithStatus(current.value, Approved, None, now);
      InsertKeeps(ttl, log, Inserting(TermMachine.Approve(id, now), current, row));
      log := Inserted(log, row);
      return fault == NoFault;
    }

    /** The worker's turn on one mapping, after those it tried before.  It ends
        early where one of its own records raises. */
    method PromoteOne(id: string, now: int, fault: Fault, abort: Abort, ghost first: Log, ghost tried: seq<string>,
        ghost faults: string -> Fault) returns (isChecked: bool, isTried: bool, ok: bool)
      requires Sound(ttl, log) && Progress(first, log, now, tried, faults) && id !in tried && DueId(first, now, id)
      requires fault == faults(id)
      modifies this
      ensures Sound(ttl, log) && old(log) <= log
      ensures isChecked == (abort != AtRequest) && isTried == (abort == Never || abort == AtResponse)
      ensures ok == (isTried && fault == NoFault)
      ensures Progress(first, log, now, tried + (if isTried then [id] else []), faults)
    {
      isChecked, isTried, ok := false, false, false;
      assert tried + [] == tried;
      if abort == AtRequest {
        return;
      }
      isChecked := true;
      if abort == AtCheck {
        return;
      }
      ghost var before := log;
      assert Latest(before, id) == Latest(first, id);
      isTried := true;
      ok := Approve(id, now, fault);
      PassGoesOn(first, before, log, now, tried, id, faults);
    }

    /** One pass of the promotion worker.  `due` is what it fetched and `n` how
        many of those it got through. */
    method RunOnce(now: int, faults: string -> Fault, aborts: string -> Abort)
      returns (completed: bool, checked: seq<string>, approved: seq<string>, skipped: seq<string>,
        ghost due: seq<Turn>, n: nat)
      requires Sound(ttl, log)
      modifies this
      ensures Sound(ttl, log) && old(log) <= log
      ensures Fetched(old(log), now, due) && EndsAt(Ids(due), aborts, n) && (completed <==> n == |due|)
      ensures checked == Checked(Ids(due), aborts, n)
      // everything tried was either promoted or reported
      ensures Sorts(approved, skipped, Tried(Ids(due), aborts, n), faults)
      // a due mapping that was tried and written is approved; nothing else moved
      ensures Progress(old(log), log, now, Tried(Ids(due), aborts, n), faults)
      // what is still due is what was not tried or could not be written
      ensures Leaves(old(log), log, now, Tried(Ids(due), aborts, n), faults)
      // on the rows: only what is due is tried, and nothing else moves
      ensures MovesOnlyDue(old(log), log, now, Tried(Ids(due), aborts, n), approved)
      // what its owner may still take back is not touched
      ensures StaysCorrectable(old(log), log, now)
      // and when all that was due is written, that is all that is left provisional
      ensures completed && AllWritten(Ids(due), faults) ==> OnlyCorrectable(log, now)
    {
      var turns := DueProvisionals(now);
      due := turns;
      ghost var ids := Ids(due);
      ghost var tried: seq<string> := [];
      completed, checked, approved, skipped, n := true, [], [], [], 0;
      while n < |turns| && completed
        invariant Sound(ttl, log) && old(log) <= log
        invariant PassAt(ids, aborts, n, completed, checked, tried)
        invariant Sorts(approved, skipped, tried, faults)
        invariant Progress(old(log), log, now, tried, faults)
        decreases |turns| - n, completed
      {
        var id := turns[n].id;
        NextInPass(ids, aborts, n, checked, tried);
        var isChecked, isTried, ok := PromoteOne(id, now, faults(id), aborts(id), old(log), tried, faults);
        SortOne(approved, skipped, tried, faults, id, isTried);
        checked := checked + (if isChecked then [id] else []);
        approved := approved + (if ok then [id] else []);
        skipped := skipped + (if isTried && !ok then [id] else []);
        tried := tried + (if isTried then [id] else []);
        if aborts(id) == Never {
          n := n + 1;
        } else {
          completed := false;
        }
      }
      EndOfPass(ids, aborts, n, completed, checked, tried);
      PassLeaves(old(log), log, now, ids, tried, faults);
      PassOnRows(ttl, old(log), log, now, due, aborts, n, tried, approved, skipped, faults);
    }
  }

  /** A pass in which nothing raises leaves due exactly what could not be
      written; if nothing fails at all, it leaves nothing due. */
  lemma UninterruptedPass(before: Log, log: Log, now: int, due: seq<Turn>, faults: string -> Fault,
      aborts: string -> Abort, n: nat)
    requires Fetched(before, now, due) && EndsAt(Ids(due), aborts, n)
    requires Leaves(before, log, now, Tried(Ids(due), aborts, n), faults)
    requires forall id | DueId(before, now, id) :: aborts(id) == Never
    ensures n == |due| && Checked(Ids(due), aborts, n) == Ids(due) == Tried(Ids(due), aborts, n)
    ensures forall id :: DueId(log, now, id) <==> DueId(before, now, id) && faults(id) == BeforeWrite
    ensures (forall id | DueId(before, now, id) :: faults(id) != BeforeWrite) ==> forall id :: !DueId(log, now, id)
    // on the rows: what it looks at is due, and without failures no row is left due
    ensures Numbered(before) ==>
              forall t | t in due :: exists r :: DueRow(before, now, r) && t == Turn(r.promoteAt.value, r.id)
    ensures Numbered(log) && (forall id | DueId(before, now, id) :: faults(id) != BeforeWrite) ==>
              forall r :: !DueRow(log, now, r)
  {
    if Numbered(before) {
      FetchedRows(before, now, due);
    }
    if Numbered(log) {
      forall r | DueRow(log, now, r) ensures DueId(log, now, r.id) {
        DueIsARow(log, now, r.id);
      }
    }
    assert forall i | 0 <= i < |due| :: Ids(due)[i] in Ids(due);
  }
}
