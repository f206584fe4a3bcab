/** The append-only table of term revisions and the queries over it. */
module TermLog {
  import opened Base

  datatype Status = Provisional | Approved | Rejected | Superseded

  datatype Scope = Person | Home

  /** What a term is unique by, while active. */
  datatype Key = Key(home: string, scope: Scope, person: Option<string>, term: string)

  /** Where the latest use of a mapping came from. */
  datatype Source = Source(candidate: string, catalog: string, evidence: map<string, Json>)

  /** One row.  `number` is the revision column; the random revision id is left out. */
  datatype Revision = Revision(
    id: string, number: nat, key: Key, display: string, targets: seq<string>, status: Status,
    message: string, source: Source, createdAt: int, promoteAt: Option<int>, updatedAt: int,
    supersedes: Option<string>)

  type Log = seq<Revision>

  predicate Active(r: Revision) {
    r.status == Provisional || r.status == Approved
  }

  /** UNIQUE(mapping_id, revision) */
  predicate Insertable(log: Log, r: Revision) {
    forall i | 0 <= i < |log| :: !(log[i].id == r.id && log[i].number == r.number)
  }

  function Inserted(log: Log, r: Revision): Log {
    if Insertable(log, r) then log + [r] else log
  }

  /** The row the join with MAX(revision) keeps for its mapping. */
  ghost predicate IsLatest(log: Log, r: Revision) {
    r in log && forall q | q in log && q.id == r.id :: q.number <= r.number
  }

  /** Every current row: the join without a further condition. */
  ghost function Currents(log: Log): set<Revision> {
    set r | r in log && IsLatest(log, r)
  }

  ghost function Latest(log: Log, id: string): (r: Option<Revision>)
    ensures r.Some? ==> r.value.id == id && IsLatest(log, r.value)
    ensures r.None? ==> forall q | q in log :: !(q.id == id && IsLatest(log, q))
  {
    if r :| r in log && r.id == id && IsLatest(log, r) then Some(r) else None
  }

  /** The same mappings, kept up to date row by row in a map. */
  function Maintained(log: Log): map<string, Revision> {
    if log == [] then map[]
    else var last := log[|log| - 1]; Maintained(log[..|log| - 1])[last.id := last]
  }

  function Count(log: Log, id: string): nat {
    if log == [] then 0
    else Count(log[..|log| - 1], id) + (if log[|log| - 1].id == id then 1 else 0)
  }

  /** Each mapping's revisions are 1, 2, 3, ... in the order they were appended. */
  ghost predicate Numbered(log: Log) {
    log != [] ==>
      var n := |log| - 1;
      Numbered(log[..n]) && log[n].number == Count(log[..n], log[n].id) + 1
  }

  function Or(a: string, b: string): string {
    if a != "" then a else b
  }

  /** The row `_append_revision` builds on the one that was read. */
  function WithStatus(r: Revision, status: Status, source: Option<Source>, now: int): Revision {
    r.(number := r.number + 1, status := status,
       source := match source
                 case None => r.source
                 case Some(s) => Source(Or(s.candidate, r.source.candidate), Or(s.catalog, r.source.catalog),
                                        r.source.evidence + s.evidence),
       promoteAt := if status == Provisional then r.promoteAt else None, updatedAt := now)
  }

  // ---------------------------------------------------------------- numbers

  lemma {:induction false} CountBounds(log: Log, id: string)
    requires Numbered(log)
    ensures forall q | q in log && q.id == id :: 1 <= q.number <= Count(log, id)
  {
    if log == [] {
    } else {
      var n := |log| - 1;
      CountBounds(log[..n], id);
      forall q | q in log && q.id == id ensures 1 <= q.number <= Count(log, id) {
        assert q in log[..n] || q == log[n];
      }
    }
  }

  /** Optimistic concurrency: a successor of a row that was read is accepted
      exactly when that row still is its mapping's latest; a stale one is refused. */
  lemma SuccessorFitsOnlyLatest(log: Log, r: Revision, next: Revision)
    requires Numbered(log) && r in log && next.id == r.id && next.number == r.number + 1
    ensures Insertable(log, next) <==> IsLatest(log, r)
  {
    CountBounds(log, r.id);
    if Insertable(log, next) {
      NoGap(log, r.id, r.number + 1);
    }
  }

  /** Every number up to the count occurs. */
  lemma {:induction false} NoGap(log: Log, id: string, k: nat)
    requires Numbered(log)
    ensures 1 <= k <= Count(log, id) ==> exists q :: q in log && q.id == id && q.number == k
  {
    if log == [] || !(1 <= k <= Count(log, id)) {
    } else {
      var n := |log| - 1;
      if k <= Count(log[..n], id) {
        NoGap(log[..n], id, k);
        var q :| q in log[..n] && q.id == id && q.number == k;
        assert q in log;
      } else {
        assert log[n] in log && log[n].id == id && log[n].number == k;
      }
    }
  }

  lemma InsertKeepsNumbers(log: Log, r: Revision)
    requires Numbered(log) && Insertable(log, r)
    requires r.number == 1 || exists q :: q in log && q.id == r.id && r.number == q.number + 1
    ensures Numbered(log + [r])
  {
    CountBounds(log, r.id);
    var k := Count(log, r.id);
    NoGap(log, r.id, r.number);
    assert r.number == k + 1;
    assert (log + [r])[..|log|] == log;
  }

  /** The max-revision join returns what an incrementally kept map would. */
  lemma {:induction false} JoinIsMaintainedMap(log: Log)
    requires Numbered(log)
    ensures Currents(log) == Maintained(log).Values
    ensures forall id :: (id in Maintained(log)) == (Latest(log, id) != None)
    ensures forall id | id in Maintained(log) :: Latest(log, id) == Some(Maintained(log)[id])
  {
    MaintainedIsLatest(log);
    forall r | r in Currents(log) ensures r in Maintained(log).Values {
      OneLatest(log, r, Maintained(log)[r.id]);
    }
    forall id | id in Maintained(log) ensures Latest(log, id) == Some(Maintained(log)[id]) {
      assert IsLatest(log, Maintained(log)[id]);
      OneLatest(log, Latest(log, id).value, Maintained(log)[id]);
    }
  }

  lemma {:induction false} MaintainedIsLatest(log: Log)
    requires Numbered(log)
    ensures forall r | r in log :: r.id in Maintained(log)
    ensures forall id | id in Maintained(log) :: Maintained(log)[id].id == id && IsLatest(log, Maintained(log)[id])
  {
    if log == [] {
    } else {
      var n := |log| - 1;
      var last := log[n];
      MaintainedIsLatest(log[..n]);
      CountBounds(log[..n], last.id);
      forall r | r in log ensures r in log[..n] || r == last {}
      forall id | id in Maintained(log) ensures Maintained(log)[id].id == id && IsLatest(log, Maintained(log)[id]) {
        if id != last.id {
          assert IsLatest(log[..n], Maintained(log[..n])[id]);
        }
      }
    }
  }

  lemma OneLatest(log: Log, a: Revision, b: Revision)
    requires Numbered(log) && IsLatest(log, a) && IsLatest(log, b) && a.id == b.id
    ensures a == b
  {
    var i :| 0 <= i < |log| && log[i] == a;
    var j :| 0 <= j < |log| && log[j] == b;
    if i < j {
      NumbersRise(log, i, j);
    } else if j < i {
      NumbersRise(log, j, i);
    }
  }

  lemma {:induction false} NumbersRise(log: Log, i: nat, j: nat)
    requires Numbered(log) && i < j < |log| && log[i].id == log[j].id
    ensures log[i].number < log[j].number
  {
    var n := |log| - 1;
    if j < n {
      NumbersRise(log[..n], i, j);
    } else {
      assert log[i] in log[..n];
      CountBounds(log[..n], log[j].id);
    }
  }
}
