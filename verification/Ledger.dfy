/** The operation and confirmation tables. */
module Ledger {
  import opened Base
  import opened Policy

  datatype Status =
    | Requested | PendingConfirmation | Approved | Executing | Succeeded | NoOp
    | Accepted | Failed | Unknown | Rejected | Expired

  datatype OpResult =
    | AwaitingConfirmation(confirmation: string)
    | Code(code: string)
    | Payload(data: Json)

  datatype Operation = Operation(request: OpRequest, status: Status, result: Option<OpResult>)

  type Operations = map<string, Operation>

  datatype Decision = Pending | Approve | Reject | Expire

  datatype Confirmation = Confirmation(
    op: string, hash: ActionHash, actor: string, target: Option<Target>, expiresAt: int,
    decision: Decision, decidedAt: Option<int>)

  type Confirmations = map<string, Confirmation>

  /** The idempotency key is unique. */
  ghost predicate UniqueKeys(ops: Operations) {
    forall a, b | a in ops && b in ops && ops[a].request.key == ops[b].request.key :: a == b
  }

  /** An operation has at most one confirmation. */
  ghost predicate UniqueConfirmations(confs: Confirmations) {
    forall a, b | a in confs && b in confs && confs[a].op == confs[b].op :: a == b
  }

  datatype Creation = Created | Replayed(id: string) | Conflict | Unavailable

  ghost function FindKey(ops: Operations, key: string): (r: Option<string>)
    ensures r.Some? ==> r.value in ops && ops[r.value].request.key == key
    ensures r.None? ==> forall id | id in ops :: ops[id].request.key != key
  {
    if id :| id in ops && ops[id].request.key == key then Some(id) else None
  }

  function Resolved(existing: OpRequest, id: string, proposed: OpRequest): Creation {
    if Matches(existing, proposed) then Replayed(id) else Conflict
  }

  /** The second session of `create_operation`: insert, or resolve against the
      row that got there first.  Any other integrity error, on the primary key or
      for a device that is not on record, is raised. */
  ghost function Insertion(ops: Operations, id: string, r: OpRequest, devices: set<string>): Creation {
    match FindKey(ops, r.key)
    case Some(existing) => Resolved(ops[existing].request, existing, r)
    case None => if id in ops || r.device !in devices then Unavailable else Created
  }

  function Fresh(r: OpRequest): Operation {
    Operation(r, Requested, None)
  }

  ghost function Inserted(ops: Operations, id: string, r: OpRequest, devices: set<string>): Operations {
    if Insertion(ops, id, r, devices) == Created then ops[id := Fresh(r)] else ops
  }

  /** `update_operation` writes the status, and the result when one is given. */
  function Written(op: Operation, status: Status, result: Option<OpResult>): Operation {
    Operation(op.request, status, if result.Some? then result else op.result)
  }

  ghost function Updated(ops: Operations, id: string, status: Status, result: Option<OpResult>): Operations {
    if id in ops then ops[id := Written(ops[id], status, result)] else ops
  }

  /** The insert of a confirmation is refused when a key is taken or the
      operation is not on record. */
  ghost predicate Requestable(confs: Confirmations, id: string, op: string, ops: set<string>) {
    op in ops && id !in confs && forall c | c in confs :: confs[c].op != op
  }

  /** A confirmation as it is first stored. */
  function Asked(op: string, hash: ActionHash, actor: string, target: Target, expiresAt: int): Confirmation {
    Confirmation(op, hash, actor, Some(target), expiresAt, Pending, None)
  }

  ghost function WithRequest(confs: Confirmations, id: string, c: Confirmation, ops: set<string>): Confirmations {
    if Requestable(confs, id, c.op, ops) then confs[id := c] else confs
  }

  /** What a conditional update may demand besides the pending state. */
  datatype Expected = Anything | Exactly(hash: ActionHash, bindingId: string, revision: int)

  predicate Meets(c: Confirmation, e: Expected) {
    match e
    case Anything => true
    case Exactly(hash, bindingId, revision) =>
      c.hash == hash && c.target.Some? && c.target.value.bindingId == bindingId && c.target.value.revision == revision
  }

  predicate Decidable(confs: Confirmations, id: string, e: Expected) {
    id in confs && confs[id].decision == Pending && Meets(confs[id], e)
  }

  function Decided(confs: Confirmations, id: string, d: Decision, e: Expected, now: int): Confirmations {
    if Decidable(confs, id, e) then confs[id := confs[id].(decision := d, decidedAt := Some(now))] else confs
  }

  class OperationTable {
    var rows: Operations

    constructor ()
      ensures rows == map[]
    {
      rows := map[];
    }

    method GetByKey(key: string) returns (r: Option<string>)
      requires UniqueKeys(rows)
      ensures r == FindKey(rows, key)
    {
      if id :| id in rows && rows[id].request.key == key {
        return Some(id);
      }
      return None;
    }

    method Insert(id: string, r: OpRequest, devices: set<string>) returns (c: Creation)
      requires UniqueKeys(rows)
      modifies this
      ensures UniqueKeys(rows)
      ensures c == Insertion(old(rows), id, r, devices) && rows == Inserted(old(rows), id, r, devices)
      ensures c == Created <==> && id !in old(rows) && r.device in devices
                                && forall k | k in old(rows) :: old(rows)[k].request.key != r.key
      ensures rows == if c == Created then old(rows)[id := Operation(r, Requested, None)] else old(rows)
    {
      var existing := GetByKey(r.key);
      if existing.Some? {
        return Resolved(rows[existing.value].request, existing.value, r);
      }
      if id in rows || r.device !in devices {
        return Unavailable;
      }
      rows := rows[id := Fresh(r)];
      return Created;
    }

    /** Both sessions.  `meanwhile` is the table as others left it in between.
        A reused key never changes a row: the caller is told of the original
        operation when the requests match and of a conflict when they do not,
        whether the key was taken before the first session or between the two. */
    method CreateOperation(id: string, r: OpRequest, meanwhile: Operations, devices: set<string>)
      returns (c: Creation)
      requires UniqueKeys(rows) && UniqueKeys(meanwhile)
      requires forall k | k in rows :: k in meanwhile && meanwhile[k].request == rows[k].request
      modifies this
      ensures UniqueKeys(rows)
      ensures c == Created <==> && id !in meanwhile && r.device in devices
                                && forall k | k in meanwhile :: meanwhile[k].request.key != r.key
      ensures c == Created ==> rows == meanwhile[id := Operation(r, Requested, None)]
      ensures c != Created ==> rows == meanwhile
      ensures forall k | k in meanwhile && meanwhile[k].request.key == r.key ::
                c == if Matches(meanwhile[k].request, r) then Replayed(k) else Conflict
    {
      var existing := GetByKey(r.key);
      if existing.Some? {
        c := Resolved(rows[existing.value].request, existing.value, r);
        rows := meanwhile;
        return;
      }
      rows := meanwhile;
      c := Insert(id, r, devices);
    }

    /** `false` is the unknown-operation error. */
    method UpdateOperation(id: string, status: Status, result: Option<OpResult>) returns (ok: bool)
      requires UniqueKeys(rows)
      modifies this
      ensures UniqueKeys(rows) && rows == Updated(old(rows), id, status, result)
      ensures ok <==> id in old(rows)
      ensures ok ==> rows == old(rows)[id := Operation(old(rows)[id].request, status,
                                                       if result.Some? then result else old(rows)[id].result)]
      ensures !ok ==> rows == old(rows)
    {
      if id !in rows {
        return false;
      }
      rows := rows[id := Written(rows[id], status, result)];
      return true;
    }
  }

  class ConfirmationTable {
    var rows: Confirmations

    constructor ()
      ensures rows == map[]
    {
      rows := map[];
    }

    /** `ops` are the operations on record. */
    method CreateRequest(id: string, op: string, hash: ActionHash, actor: string, target: Target, expiresAt: int,
        ops: set<string>) returns (ok: bool)
      requires UniqueConfirmations(rows)
      modifies this
      ensures UniqueConfirmations(rows)
      ensures ok <==> Requestable(old(rows), id, op, ops)
      ensures ok <==> op in ops && id !in old(rows) && forall k | k in old(rows) :: old(rows)[k].op != op
      ensures rows == WithRequest(old(rows), id, Asked(op, hash, actor, target, expiresAt), ops)
      ensures rows == if ok then old(rows)[id := Confirmation(op, hash, actor, Some(target), expiresAt, Pending, None)]
                      else old(rows)
    {
      if id in rows || op !in ops {
        return false;
      }
      if c :| c in rows && rows[c].op == op {
        return false;
      }
      rows := rows[id := Asked(op, hash, actor, target, expiresAt)];
      return true;
    }

    /** The compare-and-set.  It wins only from pending, and a loser changes nothing. */
    method DecidePending(id: string, d: Decision, e: Expected, now: int) returns (won: bool)
      requires UniqueConfirmations(rows) && d != Pending
      modifies this
      ensures UniqueConfirmations(rows)
      ensures won <==> Decidable(old(rows), id, e)
      ensures rows == Decided(old(rows), id, d, e, now)
      ensures won ==> !Decidable(rows, id, e)
      ensures won <==> && id in old(rows) && old(rows)[id].decision == Pending
                       && (e.Exactly? ==> && old(rows)[id].hash == e.hash && old(rows)[id].target.Some?
                                          && old(rows)[id].target.value.bindingId == e.bindingId
                                          && old(rows)[id].target.value.revision == e.revision)
      ensures rows == if won then old(rows)[id := old(rows)[id].(decision := d, decidedAt := Some(now))] else old(rows)
    {
      if !Decidable(rows, id, e) {
        return false;
      }
      rows := rows[id := rows[id].(decision := d, decidedAt := Some(now))];
      return true;
    }
  }
}
