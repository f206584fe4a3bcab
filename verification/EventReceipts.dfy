/** Household events: each is claimed, handled, and released only if nothing
    outside can have happened yet. */
module EventReceipts {
  datatype Key = Key(source: string, eventId: string)

  /** The claim table; the rows' message ids are left out. */
  type Claims = set<Key>

  function Claimed(rows: Claims, k: Key): Claims {
    rows + {k}
  }

  function Released(rows: Claims, k: Key): Claims {
    rows - {k}
  }

  class EventStore {
    var rows: Claims

    constructor ()
      ensures rows == {}
    {
      rows := {};
    }

    method Claim(k: Key) returns (claimed: bool)
      modifies this
      ensures claimed <==> k !in old(rows)
      ensures rows == Claimed(old(rows), k) == old(rows) + {k}
    {
      claimed := k !in rows;
      rows := rows + {k};
    }

    method Release(k: Key)
      modifies this
      ensures rows == Released(old(rows), k) == old(rows) - {k}
    {
      rows := rows - {k};
    }
  }

  /** `handle`.  `Handling` is everything from the claim up to the flag that
      says an outside effect is possible; raising it and starting the command
      are one step, since nothing awaits in between. */
  datatype Pc =
    | Claiming(k: Key)
    | Handling(k: Key)
    | Responding(k: Key, mayHaveEffects: bool)
    | Releasing(k: Key)
    | Over

  /** How a step goes on: the rules matched or not, or something raised. */
  datatype Turn = Goes | Matches | Raises

  datatype State = State(claims: Claims, procs: map<nat, Pc>, started: seq<Key>)

  datatype Label = Begin(pid: nat, k: Key) | Run(pid: nat, turn: Turn) | Stop(pid: nat)

  predicate Enabled(s: State, l: Label) {
    match l
    case Begin(pid, _) => pid !in s.procs
    case Run(pid, _) => pid in s.procs
    case Stop(pid) => pid in s.procs
  }

  function Go(s: State, pid: nat, pc: Pc): State {
    s.(procs := s.procs[pid := pc])
  }

  function RunStep(s: State, pid: nat, turn: Turn): State
    requires pid in s.procs
  {
    match s.procs[pid]
    case Claiming(k) =>
      if k in s.claims then Go(s, pid, Over) else Go(s, pid, Handling(k)).(claims := Claimed(s.claims, k))
    case Handling(k) =>
      (match turn
       case Goes => Go(s, pid, Responding(k, false))
       case Matches => Go(s, pid, Responding(k, true)).(started := s.started + [k])
       case Raises => Go(s, pid, Releasing(k)))
    case Responding(k, mayHaveEffects) =>
      // a raise out of the command, or out of the records after it, lands here too
      if turn.Raises? && !mayHaveEffects then Go(s, pid, Releasing(k)) else Go(s, pid, Over)
    case Releasing(k) => Go(s, pid, Over).(claims := Released(s.claims, k))
    case Over => s
  }

  function Apply(s: State, l: Label): State
    requires Enabled(s, l)
  {
    match l
    case Begin(pid, k) => Go(s, pid, Claiming(k))
    case Run(pid, turn) => RunStep(s, pid, turn)
    case Stop(pid) => Go(s, pid, Over)
  }

  ghost predicate Next(s: State, s': State) {
    exists l :: Enabled(s, l) && s' == Apply(s, l)
  }

  ghost predicate Behavior(run: seq<State>) {
    && |run| > 0
    && run[0].procs == map[] && run[0].started == []
    && forall i, j | 0 <= i && j == i + 1 < |run| :: Next(run[i], run[j])
  }

  /** The process may still start the command or give the claim back. */
  predicate Owns(pc: Pc, k: Key) {
    pc == Handling(k) || pc == Responding(k, false) || pc == Releasing(k)
  }

  ghost predicate Inv(s: State) {
    && (forall p, k | p in s.procs && Owns(s.procs[p], k) :: k in s.claims && k !in s.started)
    && (forall p, q, k | p in s.procs && q in s.procs && Owns(s.procs[p], k) && Owns(s.procs[q], k) :: p == q)
    && (forall k | k in s.started :: k in s.claims)
    && (forall i, j | 0 <= i < j < |s.started| :: s.started[i] != s.started[j])
  }

  lemma ClaimKeeps(s: State, pid: nat, k: Key)
    requires Inv(s) && pid in s.procs && s.procs[pid] == Claiming(k) && k !in s.claims
    ensures Inv(Go(s, pid, Handling(k)).(claims := Claimed(s.claims, k)))
  {
  }

  lemma StartKeeps(s: State, pid: nat, k: Key)
    requires Inv(s) && pid in s.procs && s.procs[pid] == Handling(k)
    ensures Inv(Go(s, pid, Responding(k, true)).(started := s.started + [k]))
  {
    var s' := Go(s, pid, Responding(k, true)).(started := s.started + [k]);
    assert Owns(s.procs[pid], k);
    assert forall x :: x in s'.started <==> x in s.started || x == k;
    assert forall i | 0 <= i < |s.started| :: s.started[i] in s.started;
  }

  lemma ReleaseKeeps(s: State, pid: nat, k: Key)
    requires Inv(s) && pid in s.procs && s.procs[pid] == Releasing(k)
    ensures Inv(Go(s, pid, Over).(claims := Released(s.claims, k)))
  {
    assert Owns(s.procs[pid], k);
  }

  /** Moving on within one's own claim, or giving up. */
  lemma GoKeeps(s: State, pid: nat, pc: Pc)
    requires Inv(s) && (pid in s.procs || pc.Claiming?)
    requires forall k | Owns(pc, k) :: pid in s.procs && Owns(s.procs[pid], k)
    ensures Inv(Go(s, pid, pc))
  {
  }

  lemma RunStepKeeps(s: State, pid: nat, turn: Turn)
    requires Inv(s) && pid in s.procs
    ensures Inv(RunStep(s, pid, turn))
  {
    match s.procs[pid]
    case Claiming(k) => if k in s.claims { GoKeeps(s, pid, Over); } else { ClaimKeeps(s, pid, k); }
    case Handling(k) =>
      if turn.Matches? { StartKeeps(s, pid, k); } else { GoKeeps(s, pid, RunStep(s, pid, turn).procs[pid]); }
    case Responding(k, _) => GoKeeps(s, pid, RunStep(s, pid, turn).procs[pid]);
    case Releasing(k) => ReleaseKeeps(s, pid, k);
    case Over =>
  }

  lemma {:induction false} Reachable(run: seq<State>, n: nat)
    requires Behavior(run) && n < |run|
    ensures Inv(run[n])
  {
    if n == 0 {
    } else {
      Reachable(run, n - 1);
      assert Next(run[n - 1], run[n]);
      var l :| Enabled(run[n - 1], l) && run[n] == Apply(run[n - 1], l);
      if l.Run? {
        RunStepKeeps(run[n - 1], l.pid, l.turn);
      }
    }
  }

  /** The command of an event is started at most once per source and event id,
      over all interleavings, failures and releases; and once it was started the
      claim is never given back, so every later delivery is a duplicate. */
  lemma StartedAtMostOnce(run: seq<State>, n: nat)
    requires Behavior(run) && n < |run|
    ensures forall i, j | 0 <= i < j < |run[n].started| :: run[n].started[i] != run[n].started[j]
    ensures forall k | k in run[n].started ::
      k in run[n].claims && forall p | p in run[n].procs :: !Owns(run[n].procs[p], k)
  {
    Reachable(run, n);
  }

  // ----------------------------------------------------- a call by itself

  /** The state after a call begins and takes its steps, the command's turns
      being these. */
  function Handled(s: State, pid: nat, k: Key, rules: Turn, command: Turn): State
    requires pid !in s.procs
  {
    var claimed := RunStep(Apply(s, Begin(pid, k)), pid, Goes);
    RunStep(RunStep(RunStep(claimed, pid, rules), pid, command), pid, Goes)
  }

  /** What a call of `handle` comes to that nothing interrupts, at any moment.
      An event that was claimed is not handled again.  Otherwise it is claimed;
      the command is started exactly when the rules match; and the claim is
      given back exactly when something raised with no command started. */
  lemma HandleAlone(s: State, pid: nat, k: Key, rules: Turn, command: Turn)
    requires pid !in s.procs
    ensures var after := Handled(s, pid, k, rules, command);
            && after.procs == s.procs[pid := Over]
            && after.started == (if k !in s.claims && rules == Matches then s.started + [k] else s.started)
            && (k in s.claims ==> after.claims == s.claims)
            && (k !in s.claims ==>
                  after.claims == if rules == Raises || (rules == Goes && command == Raises) then s.claims
                                  else s.claims + {k})
  {
    var claimed := RunStep(Apply(s, Begin(pid, k)), pid, Goes);
    if k !in s.claims {
      assert claimed.claims == s.claims + {k} && claimed.procs[pid] == Handling(k);
      assert Released(s.claims + {k}, k) == s.claims;
    }
  }
}
