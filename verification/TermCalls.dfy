/** What a call on the term store does when nothing comes between its read and
    its insert, at any moment of any run. */
module TermCalls {
  import opened Base
  import opened Order
  import opened TermLog
  import opened TermMachine
  import opened TermTheorems

  /** The log after the call: it begins, reads, and inserts what it decided on. */
  ghost function LogAfter(ttl: int, s: State, pid: nat, call: Call, found: Option<Revision>, newId: string): Log
    requires pid !in s.procs && (Creates(call) ==> Finds(s.log, KeyOf(call), found))
  {
    var begun := Apply(ttl, s, Begin(pid, call));
    var read := Apply(ttl, begun, Read(pid, found, newId));
    if read.procs[pid].Inserting? then Apply(ttl, read, Insert(pid)).log else read.log
  }

  /** The source of a use: what the call says, and what was known where it says nothing. */
  predicate SourceIs(now: Source, said: Source, before: Source) {
    && now.candidate == (if said.candidate != "" then said.candidate else before.candidate)
    && now.catalog == (if said.catalog != "" then said.catalog else before.catalog)
    && now.evidence.Keys == said.evidence.Keys + before.evidence.Keys
    && forall k | k in now.evidence ::
         now.evidence[k] == if k in said.evidence then said.evidence[k] else before.evidence[k]
  }

  /** A row that differs from an earlier one in these respects only. */
  predicate NextRow(r: Revision, before: Revision, status: Status, now: int) {
    && r.number == before.number + 1 && r.status == status && r.updatedAt == now
    && r.promoteAt == (if status == Provisional then before.promoteAt else None)
    && r == before.(number := r.number, status := r.status, updatedAt := r.updatedAt, promoteAt := r.promoteAt,
                    source := r.source)
  }

  /** The first row of a new mapping. */
  ghost predicate FirstRowOf(call: Call, r: Revision, newId: string, ttl: int)
    requires Creates(call)
  {
    && r.id == newId && r.number == 1 && r.createdAt == call.now && r.updatedAt == call.now
    && r.key.home == call.home && r.key.term == call.term && r.display == call.display && r.message == call.message
    && r.source == call.source && StrictlySorted(r.targets, StringLt) && Elements(r.targets) == Elements(call.ids)
    && if call.CreateProvisional? then
         && r.key.scope == Person && r.key.person == Some(call.owner) && r.supersedes == None
         && r.status == Provisional && r.promoteAt == Some(call.now + ttl)
       else
         && r.key.scope == call.scope && r.key.person == (if call.scope == Person then Some(call.owner) else None)
         && r.supersedes == call.supersedes && r.status == Approved && r.promoteAt == None
  }

  lemma SameTargets(r: Revision, ids: seq<string>)
    requires StrictlySorted(r.targets, StringLt)
    ensures r.targets == SortedIds(ids) <==> Elements(r.targets) == Elements(ids)
  {
    SortedIdsSorts(ids);
    StringOrder();
    if Elements(r.targets) == Elements(ids) {
      SortedUnique(r.targets, SortedIds(ids), StringLt);
    }
  }

  lemma FoundRow(ttl: int, log: Log, key: Key, r: Revision)
    requires Numbered(log) && Lawful(ttl, log) && ActiveAt(log, key, r)
    ensures StrictlySorted(r.targets, StringLt) && IsLatest(log, r)
  {
    var i :| 0 <= i < |log| && log[i] == r;
    RowFacts(ttl, log, i);
  }

  /** What a create does, by what it found.  It starts a mapping when the key
      has none, adds a use to the one it has when that stands for the same
      entities, which an approval approves, and changes nothing when it stands
      for others or the number of entities is not one to twenty. */
  ghost predicate CreateDoes(log: Log, after: Log, call: Call, found: Option<Revision>, newId: string, ttl: int)
    requires Creates(call)
  {
    var n := |SortedIds(call.ids)|;
    if n == 0 || n > 20 then after == log
    else if found.None? then
      |after| == |log| + 1 && after == log + [after[|log|]] && FirstRowOf(call, after[|log|], newId, ttl)
    else if Elements(found.value.targets) != Elements(call.ids) then after == log
    else
      && |after| == |log| + 1 && after == log + [after[|log|]]
      && NextRow(after[|log|], found.value, if call.CreateProvisional? then found.value.status else Approved, call.now)
      && SourceIs(after[|log|].source, call.source, found.value.source)
  }

  lemma NewRow(log: Log, call: Call, newId: string, ttl: int)
    requires Creates(call) && forall r | r in log :: r.id != newId
    ensures var row := FirstRow(call, SortedIds(call.ids), newId, ttl);
            Inserted(log, row) == log + [row] && FirstRowOf(call, row, newId, ttl)
  {
    SortedIdsSorts(call.ids);
  }

  lemma UsedRow(log: Log, r: Revision, status: Status, said: Option<Source>, now: int)
    requires Numbered(log) && IsLatest(log, r)
    ensures var row := WithStatus(r, status, said, now);
            && Inserted(log, row) == log + [row] && NextRow(row, r, status, now)
            && (if said.Some? then SourceIs(row.source, said.value, r.source) else row.source == r.source)
  {
    SuccessorFitsOnlyLatest(log, r, WithStatus(r, status, said, now));
  }

  lemma CreateAlone(ttl: int, s: State, pid: nat, call: Call, found: Option<Revision>, newId: string)
    requires Inv(ttl, s) && pid !in s.procs && Creates(call) && Finds(s.log, KeyOf(call), found)
    requires forall r | r in s.log :: r.id != newId
    ensures CreateDoes(s.log, LogAfter(ttl, s, pid, call, found, newId), call, found, newId, ttl)
  {
    if found.None? {
      NewRow(s.log, call, newId, ttl);
    } else {
      var r := found.value;
      FoundRow(ttl, s.log, KeyOf(call), r);
      SameTargets(r, call.ids);
      UsedRow(s.log, r, if call.CreateProvisional? then r.status else Approved, Some(call.source), call.now);
    }
  }

  /** What a change of status does, by the mapping's current row: an approval
      approves what is provisional, a rejection rejects what is active, a
      replacement retires whatever is not retired; otherwise nothing changes. */
  ghost predicate ChangeDoes(log: Log, after: Log, call: Call)
    requires !Creates(call)
  {
    var current := Latest(log, call.id);
    var status := if call.Approve? then Approved else if call.Reject? then Rejected else Superseded;
    var changes := && current.Some?
                   && (call.Approve? ==> current.value.status == Provisional)
                   && (call.Reject? ==> current.value.status in {Provisional, Approved})
                   && (call.Supersede? ==> current.value.status != Superseded);
    if changes then
      && |after| == |log| + 1 && after == log + [after[|log|]]
      && NextRow(after[|log|], current.value, status, call.now) && after[|log|].source == current.value.source
    else after == log
  }

  lemma ChangeAlone(ttl: int, s: State, pid: nat, call: Call, newId: string)
    requires Inv(ttl, s) && pid !in s.procs && !Creates(call)
    ensures ChangeDoes(s.log, LogAfter(ttl, s, pid, call, None, newId), call)
  {
    var current := Latest(s.log, call.id);
    if current.Some? {
      var status := if call.Approve? then Approved else if call.Reject? then Rejected else Superseded;
      UsedRow(s.log, current.value, status, None, call.now);
    }
  }

  /** The same at every moment of every run. */
  lemma CallsDo(ttl: int, run: seq<State>, n: nat, pid: nat, call: Call, found: Option<Revision>, newId: string)
    requires Behavior(ttl, run) && n < |run| && pid !in run[n].procs && (forall r | r in run[n].log :: r.id != newId)
    requires if Creates(call) then Finds(run[n].log, KeyOf(call), found) else found.None?
    ensures var after := LogAfter(ttl, run[n], pid, call, found, newId);
            if Creates(call) then CreateDoes(run[n].log, after, call, found, newId, ttl)
            else ChangeDoes(run[n].log, after, call)
  {
    Reachable(ttl, run, n);
    if Creates(call) {
      CreateAlone(ttl, run[n], pid, call, found, newId);
    } else {
      ChangeAlone(ttl, run[n], pid, call, newId);
    }
  }
}
