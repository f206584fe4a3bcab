/** Signed webhooks: the window check and the nonce table that purges itself. */
module Nonces {
  /** A row: when the nonce was signed and until when it counts as used. */
  datatype Entry = Entry(signedAt: int, expiresAt: int)

  type Table = map<string, Entry>

  datatype Stamp = NoStamp | BadStamp | At(seconds: int)
  datatype Signature = NoSignature | WrongSignature | GoodSignature

  /** A request as `verify` sees it; whether the signature is the keyed hash of
      stamp, nonce and body is an input. */
  datatype Delivery = Delivery(stamp: Stamp, nonce: string, signature: Signature)

  datatype Outcome = Accepted | Refused(code: string)

  predicate Expired(e: Entry, now: real) {
    e.expiresAt as real < now
  }

  function Distance(now: real, at: int): real {
    if now >= at as real then now - at as real else at as real - now
  }

  /** Everything `verify` checks before it looks at the nonce. */
  function Screened(tolerance: int, d: Delivery, now: real): Outcome {
    if d.stamp.NoStamp? || d.nonce == "" || d.signature.NoSignature? then Refused("webhook_signature_missing")
    else if d.stamp.BadStamp? || Distance(now, d.stamp.seconds) > tolerance as real then
      Refused("webhook_timestamp_invalid")
    else if d.signature.WrongSignature? then Refused("webhook_signature_invalid")
    else Accepted
  }

  function EntryOf(tolerance: int, d: Delivery): Entry
    requires d.stamp.At?
  {
    Entry(d.stamp.seconds, d.stamp.seconds + tolerance)
  }

  predicate Fresh(t: Table, nonce: string, now: real) {
    nonce !in t || Expired(t[nonce], now)
  }

  /** The conditional upsert, followed on success by the purge of other expired rows. */
  function Consumed(t: Table, nonce: string, e: Entry, now: real): Table {
    if Fresh(t, nonce, now) then (map n | n in t && n != nonce && !Expired(t[n], now) :: t[n])[nonce := e] else t
  }

  function Verdict(tolerance: int, t: Table, d: Delivery, now: real): Outcome {
    var screened := Screened(tolerance, d, now);
    if screened != Accepted then screened
    else if Fresh(t, d.nonce, now) then Accepted
    else Refused("webhook_replay")
  }

  function After(tolerance: int, t: Table, d: Delivery, now: real): Table {
    if Screened(tolerance, d, now) == Accepted then Consumed(t, d.nonce, EntryOf(tolerance, d), now) else t
  }

  /** The nonce has its new row, and of the others exactly those are left that
      have not expired. */
  ghost predicate Replaced(before: Table, after: Table, nonce: string, e: Entry, now: real) {
    && nonce in after && after[nonce] == e
    && forall n | n != nonce ::
         && (n in after <==> n in before && before[n].expiresAt as real >= now)
         && (n in after ==> after[n] == before[n])
  }

  /** A request with all three headers, stamped within the tolerance either way,
      and signed. */
  predicate Genuine(tolerance: int, d: Delivery, now: real) {
    && d.stamp.At? && d.nonce != "" && d.signature.GoodSignature?
    && (d.stamp.seconds - tolerance) as real <= now <= (d.stamp.seconds + tolerance) as real
  }

  class Channel {
    const tolerance: int
    var rows: Table

    constructor (tolerance: int)
      ensures this.tolerance == tolerance && rows == map[]
    {
      this.tolerance := tolerance;
      rows := map[];
    }

    method Consume(nonce: string, e: Entry, now: real) returns (consumed: bool)
      modifies this
      ensures consumed <==> Fresh(old(rows), nonce, now)
      ensures rows == Consumed(old(rows), nonce, e, now)
      ensures consumed <==> (nonce in old(rows) ==> old(rows)[nonce].expiresAt as real < now)
      ensures if consumed then Replaced(old(rows), rows, nonce, e, now) else rows == old(rows)
    {
      consumed := nonce !in rows || Expired(rows[nonce], now);
      if consumed {
        rows := rows[nonce := e];
        rows := map n | n in rows && (n == nonce || !Expired(rows[n], now)) :: rows[n];
      }
    }

    method Verify(d: Delivery, now: real) returns (o: Outcome)
      modifies this
      ensures o == Verdict(tolerance, old(rows), d, now) && rows == After(tolerance, old(rows), d, now)
      ensures o == Accepted <==> && Genuine(tolerance, d, now)
                                 && (d.nonce in old(rows) ==> old(rows)[d.nonce].expiresAt as real < now)
      ensures o == Accepted ==>
                Replaced(old(rows), rows, d.nonce, Entry(d.stamp.seconds, d.stamp.seconds + tolerance), now)
      ensures o != Accepted ==> rows == old(rows)
      ensures o == Refused("webhook_signature_missing")
         <==> d.stamp.NoStamp? || d.nonce == "" || d.signature.NoSignature?
      ensures o == Refused("webhook_timestamp_invalid")
         <==> && !d.stamp.NoStamp? && d.nonce != "" && !d.signature.NoSignature?
              && (d.stamp.At? ==> now < (d.stamp.seconds - tolerance) as real
                                  || now > (d.stamp.seconds + tolerance) as real)
      ensures o == Refused("webhook_replay")
         <==> && Genuine(tolerance, d, now)
              && d.nonce in old(rows) && old(rows)[d.nonce].expiresAt as real >= now
      ensures o.Refused? ==> o.code in {"webhook_signature_missing", "webhook_timestamp_invalid",
                                        "webhook_signature_invalid", "webhook_replay"}
    {
      if d.stamp.NoStamp? || d.nonce == "" || d.signature.NoSignature? {
        return Refused("webhook_signature_missing");
      }
      if d.stamp.BadStamp? || Distance(now, d.stamp.seconds) > tolerance as real {
        return Refused("webhook_timestamp_invalid");
      }
      if d.signature.WrongSignature? {
        return Refused("webhook_signature_invalid");
      }
      var consumed := Consume(d.nonce, EntryOf(tolerance, d), now);
      return if consumed then Accepted else Refused("webhook_replay");
    }
  }

  // ------------------------------------------------- against a full history

  /** A delivery and the clock reading `verify` took. */
  datatype Arrival = Arrival(d: Delivery, now: real)

  ghost predicate ClockRises(arrivals: seq<Arrival>) {
    forall i, j | 0 <= i < j < |arrivals| :: arrivals[i].now <= arrivals[j].now
  }

  /** The table after the first arrivals. */
  function TableAfter(tolerance: int, arrivals: seq<Arrival>): Table {
    if arrivals == [] then map[]
    else
      var n := |arrivals| - 1;
      After(tolerance, TableAfter(tolerance, arrivals[..n]), arrivals[n].d, arrivals[n].now)
  }

  /** Was arrival `i` accepted? */
  predicate AcceptedAt(tolerance: int, arrivals: seq<Arrival>, i: nat)
    requires i < |arrivals|
  {
    Verdict(tolerance, TableAfter(tolerance, arrivals[..i]), arrivals[i].d, arrivals[i].now) == Accepted
  }

  /** An earlier accepted arrival with this nonce still counts at `now`. */
  ghost predicate Remembered(tolerance: int, arrivals: seq<Arrival>, nonce: string, now: real) {
    exists j :: 0 <= j < |arrivals| && AcceptedAt(tolerance, arrivals, j) && arrivals[j].d.nonce == nonce
                && !Expired(EntryOf(tolerance, arrivals[j].d), now)
  }

  /** Every row is the trace of an accepted arrival, and every accepted arrival
      that still counts is a row. */
  ghost predicate Mirrors(tolerance: int, arrivals: seq<Arrival>, now: real) {
    var t := TableAfter(tolerance, arrivals);
    && (forall n | n in t && !Expired(t[n], now) :: Remembered(tolerance, arrivals, n, now))
    && (forall j | 0 <= j < |arrivals| && AcceptedAt(tolerance, arrivals, j)
                   && !Expired(EntryOf(tolerance, arrivals[j].d), now) ::
          arrivals[j].d.nonce in t && t[arrivals[j].d.nonce] == EntryOf(tolerance, arrivals[j].d))
  }

  lemma PrefixAccepts(tolerance: int, arrivals: seq<Arrival>, n: nat, j: nat)
    requires j < n <= |arrivals|
    ensures AcceptedAt(tolerance, arrivals[..n], j) <==> AcceptedAt(tolerance, arrivals, j)
  {
    assert arrivals[..n][..j] == arrivals[..j];
  }

  lemma PrefixRemembers(tolerance: int, arrivals: seq<Arrival>, n: nat, nonce: string, now: real)
    requires n <= |arrivals| && Remembered(tolerance, arrivals[..n], nonce, now)
    ensures Remembered(tolerance, arrivals, nonce, now)
  {
    var j :| 0 <= j < n && AcceptedAt(tolerance, arrivals[..n], j) && arrivals[..n][j].d.nonce == nonce
             && !Expired(EntryOf(tolerance, arrivals[..n][j].d), now);
    PrefixAccepts(tolerance, arrivals, n, j);
  }

  lemma RowsComeFromAcceptances(tolerance: int, arrivals: seq<Arrival>, now: real, m: string)
    requires arrivals != [] && Mirrors(tolerance, arrivals[..|arrivals| - 1], now)
    requires var t' := TableAfter(tolerance, arrivals); m in t' && !Expired(t'[m], now)
    ensures Remembered(tolerance, arrivals, m, now)
  {
    var n := |arrivals| - 1;
    var before, last := arrivals[..n], arrivals[n];
    var t, t' := TableAfter(tolerance, before), TableAfter(tolerance, arrivals);
    if AcceptedAt(tolerance, arrivals, n) && m == last.d.nonce {
      assert t'[m] == EntryOf(tolerance, last.d);
    } else {
      assert m in t && t[m] == t'[m];
      PrefixRemembers(tolerance, arrivals, n, m, now);
    }
  }

  lemma AcceptancesHaveRows(tolerance: int, arrivals: seq<Arrival>, now: real, j: nat)
    requires arrivals != [] && j < |arrivals| && arrivals[|arrivals| - 1].now <= now
    requires Mirrors(tolerance, arrivals[..|arrivals| - 1], arrivals[|arrivals| - 1].now)
    requires AcceptedAt(tolerance, arrivals, j) && !Expired(EntryOf(tolerance, arrivals[j].d), now)
    ensures var t' := TableAfter(tolerance, arrivals);
            arrivals[j].d.nonce in t' && t'[arrivals[j].d.nonce] == EntryOf(tolerance, arrivals[j].d)
  {
    var n := |arrivals| - 1;
    if j < n {
      PrefixAccepts(tolerance, arrivals, n, j);
      assert arrivals[..n][j] == arrivals[j];
    }
  }

  lemma {:induction false} TableMirrors(tolerance: int, arrivals: seq<Arrival>, now: real)
    requires ClockRises(arrivals) && forall i | 0 <= i < |arrivals| :: arrivals[i].now <= now
    ensures Mirrors(tolerance, arrivals, now)
  {
    if arrivals == [] {
    } else {
      var before, last := arrivals[..|arrivals| - 1], arrivals[|arrivals| - 1];
      TableMirrors(tolerance, before, last.now);
      TableMirrors(tolerance, before, now);
      var t' := TableAfter(tolerance, arrivals);
      forall m | m in t' && !Expired(t'[m], now) ensures Remembered(tolerance, arrivals, m, now) {
        RowsComeFromAcceptances(tolerance, arrivals, now, m);
      }
      forall j | 0 <= j < |arrivals| && AcceptedAt(tolerance, arrivals, j)
                 && !Expired(EntryOf(tolerance, arrivals[j].d), now)
        ensures arrivals[j].d.nonce in t' && t'[arrivals[j].d.nonce] == EntryOf(tolerance, arrivals[j].d)
      {
        AcceptancesHaveRows(tolerance, arrivals, now, j);
      }
    }
  }

  /** The purging table decides like the unbounded history: with a clock that
      never goes back, a delivery that passes the other checks is accepted
      exactly when no earlier accepted delivery with its nonce still counts. */
  lemma DecidesLikeHistory(tolerance: int, arrivals: seq<Arrival>, i: nat)
    requires ClockRises(arrivals) && i < |arrivals|
    ensures AcceptedAt(tolerance, arrivals, i) <==>
            && Screened(tolerance, arrivals[i].d, arrivals[i].now) == Accepted
            && !Remembered(tolerance, arrivals[..i], arrivals[i].d.nonce, arrivals[i].now)
  {
    TableMirrors(tolerance, arrivals[..i], arrivals[i].now);
    var a := arrivals[i];
    if Remembered(tolerance, arrivals[..i], a.d.nonce, a.now) {
      var j :| 0 <= j < i && AcceptedAt(tolerance, arrivals[..i], j) && arrivals[..i][j].d.nonce == a.d.nonce
               && !Expired(EntryOf(tolerance, arrivals[..i][j].d), a.now);
    }
  }

  /** No signed request is accepted twice: a stamp and nonce pair passes at most once, ever. */
  lemma AcceptedAtMostOnce(tolerance: int, arrivals: seq<Arrival>, i: nat, j: nat)
    requires ClockRises(arrivals) && i < j < |arrivals|
    requires AcceptedAt(tolerance, arrivals, i) && AcceptedAt(tolerance, arrivals, j)
    ensures arrivals[i].d.nonce != arrivals[j].d.nonce || arrivals[i].d.stamp != arrivals[j].d.stamp
  {
    DecidesLikeHistory(tolerance, arrivals, j);
    PrefixAccepts(tolerance, arrivals, j, i);
    assert arrivals[..j][i] == arrivals[i];
    assert arrivals[i].d.stamp == arrivals[j].d.stamp ==> !Expired(EntryOf(tolerance, arrivals[i].d), arrivals[j].now);
  }

  /** Right after an acceptance the table holds nothing that could not still
      reject a replay, so its size is bounded by the window. */
  lemma AcceptancePurges(tolerance: int, arrivals: seq<Arrival>)
    requires arrivals != [] && AcceptedAt(tolerance, arrivals, |arrivals| - 1)
    ensures var t, now := TableAfter(tolerance, arrivals), arrivals[|arrivals| - 1].now;
            forall n | n in t :: !Expired(t[n], now)
  {
  }
}
