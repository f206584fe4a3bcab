/** Household context: the last word on a subject, by when it happened. */
module Context {
  import opened Base

  datatype Key = Key(subject: string, eventType: string)

  /** What a row stores of an event; the time of writing is left out. */
  datatype Entry = Entry(location: Option<string>, attributes: map<string, Json>, message: string, occurredAt: int)

  datatype Event = Event(key: Key, entry: Entry)

  type Table = map<Key, Entry>

  function Upserted(t: Table, e: Event): Table {
    if e.key in t && e.entry.occurredAt < t[e.key].occurredAt then t else t[e.key := e.entry]
  }

  class ContextStore {
    var rows: Table

    constructor ()
      ensures rows == map[]
    {
      rows := map[];
    }

    /** Returns the row as it stands afterwards, which need not be the event's. */
    method Upsert(e: Event) returns (r: Entry)
      modifies this
      ensures rows == Upserted(old(rows), e)
      ensures rows == old(rows)[e.key := r]
      ensures r == if e.key in old(rows) && old(rows)[e.key].occurredAt > e.entry.occurredAt then old(rows)[e.key]
                   else e.entry
      ensures e.key in rows && r == rows[e.key] && r.occurredAt >= e.entry.occurredAt
      ensures e.key in old(rows) ==> r.occurredAt >= old(rows)[e.key].occurredAt
    {
      if e.key !in rows || e.entry.occurredAt >= rows[e.key].occurredAt {
        rows := rows[e.key := e.entry];
      }
      r := rows[e.key];
    }
  }

  function Delivered(events: seq<Event>): Table {
    if events == [] then map[]
    else Upserted(Delivered(events[..|events| - 1]), events[|events| - 1])
  }

  /** Arrival `i` is the greatest by time among the arrivals of its key, and the
      last of those. */
  predicate Prevails(events: seq<Event>, i: int) {
    && 0 <= i < |events|
    && forall j | 0 <= j < |events| && events[j].key == events[i].key ::
         if j > i then events[j].entry.occurredAt < events[i].entry.occurredAt
         else events[j].entry.occurredAt <= events[i].entry.occurredAt
  }

  /** The arrival that prevails for a key; -1 when the key never arrived. */
  function Winner(events: seq<Event>, key: Key): (i: int)
    ensures -1 <= i < |events|
    ensures i >= 0 ==> events[i].key == key
  {
    if events == [] then -1
    else
      var n := |events| - 1;
      var w := Winner(events[..n], key);
      if events[n].key == key && (w < 0 || events[w].entry.occurredAt <= events[n].entry.occurredAt) then n else w
  }

  lemma {:induction false} WinnerPrevails(events: seq<Event>, key: Key)
    ensures var w := Winner(events, key);
            if w < 0 then forall e | e in events :: e.key != key else Prevails(events, w)
  {
    if events == [] {
    } else {
      var n := |events| - 1;
      WinnerPrevails(events[..n], key);
      forall e | e in events ensures e in events[..n] || e == events[n] {}
    }
  }

  lemma {:induction false} RowIsWinner(events: seq<Event>, key: Key)
    ensures var w := Winner(events, key);
            if w < 0 then key !in Delivered(events)
            else key in Delivered(events) && Delivered(events)[key] == events[w].entry
  {
    if events == [] {
    } else {
      RowIsWinner(events[..|events| - 1], key);
    }
  }

  /** After any deliveries the row of a key is the arrival that prevails, and
      there is a row exactly when there was an arrival. */
  lemma RowPrevails(events: seq<Event>, key: Key)
    ensures key !in Delivered(events) <==> forall e | e in events :: e.key != key
    ensures forall i | Prevails(events, i) && events[i].key == key ::
              key in Delivered(events) && Delivered(events)[key] == events[i].entry
    ensures key in Delivered(events) ==> exists i :: Prevails(events, i) && events[i].key == key
  {
    WinnerPrevails(events, key);
    RowIsWinner(events, key);
    var w := Winner(events, key);
    if w >= 0 {
      assert events[w] in events;
    }
  }

  /** No two different events of one key happened at the same time. */
  ghost predicate DistinctTimes(events: seq<Event>) {
    forall a, b | a in events && b in events && a.key == b.key && a.entry.occurredAt == b.entry.occurredAt :: a == b
  }

  /** Deliveries of the same events converge, in whatever order and however
      often each arrives. */
  lemma OrderDoesNotMatter(a: seq<Event>, b: seq<Event>)
    requires Elements(a) == Elements(b) && DistinctTimes(a)
    ensures Delivered(a) == Delivered(b)
  {
    assert forall e :: e in a <==> e in Elements(a);
    assert forall e :: e in b <==> e in Elements(b);
    forall key ensures (key in Delivered(a)) == (key in Delivered(b)) {
      RowPrevails(a, key);
      RowPrevails(b, key);
    }
    forall key | key in Delivered(a) ensures Delivered(a)[key] == Delivered(b)[key] {
      SameRow(a, b, key);
    }
  }

  lemma SameRow(a: seq<Event>, b: seq<Event>, key: Key)
    requires Elements(a) == Elements(b) && DistinctTimes(a) && key in Delivered(a) && key in Delivered(b)
    ensures Delivered(a)[key] == Delivered(b)[key]
  {
    var x := Strongest(a, key);
    var y := Strongest(b, key);
    assert x in Elements(b) && y in Elements(a);
  }

  /** The event in the row, as an event no other arrival of the key outdates. */
  lemma Strongest(events: seq<Event>, key: Key) returns (e: Event)
    requires key in Delivered(events)
    ensures e in events && e.key == key && Delivered(events)[key] == e.entry
    ensures forall x | x in events && x.key == key :: x.entry.occurredAt <= e.entry.occurredAt
  {
    RowPrevails(events, key);
    var i :| Prevails(events, i) && events[i].key == key;
    e := events[i];
  }
}
