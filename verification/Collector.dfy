/**
 The collector's event store (internal/collector/store.go): two tables, one transaction a request,
 batches deduplicated by (agent, batch) and events by (agent, event key).
 */
module Collector {

  /** What `payload.event_id` decodes to; fmt.Sprint turns any other JSON value into `printed`. */
  datatype EventId = NoId | TextId(text: string) | OtherId(printed: string)

  /** `digest` is the hexadecimal SHA-256 of `raw`. */
  datatype Event = Event(receivedAt: string, raw: string, digest: string, parseError: bool, id: EventId)

  datatype Request = Request(agent: string, batch: string, events: seq<Event>)

  datatype Row = Row(agent: string, batch: string, key: string, event: Event)

  datatype Db = Db(batches: map<(string, string), nat>, rows: seq<Row>)

  const EMPTY_DB := Db(map[], [])

  /** A uuid column compares identifiers without regard to the case of their digits. */
  function Uuid(agent: string): string {
    seq(|agent|, i requires 0 <= i < |agent| => Folded(agent[i]))
  }

  const LOWER := "abcdef"
  const UPPER := "ABCDEF"

  /** The same character, or the same hexadecimal letter in two cases. */
  predicate SameDigit(c: char, d: char) {
    || c == d
    || exists k :: 0 <= k < |LOWER| && ((c == LOWER[k] && d == UPPER[k]) || (c == UPPER[k] && d == LOWER[k]))
  }

  /** Two identifiers of one agent. */
  predicate SameAgent(a: string, b: string) {
    |a| == |b| && forall i :: 0 <= i < |a| ==> SameDigit(a[i], b[i])
  }

  function Folded(c: char): char {
    if 'A' <= c <= 'F' then c - 'A' + 'a' else c
  }

  lemma FoldExactly(c: char, d: char)
    ensures Folded(c) == Folded(d) <==> SameDigit(c, d)
  {
    if 'A' <= c <= 'F' {
      assert UPPER[(c - 'A') as int] == c && LOWER[(c - 'A') as int] == Folded(c);
    }
    if 'A' <= d <= 'F' {
      assert UPPER[(d - 'A') as int] == d && LOWER[(d - 'A') as int] == Folded(d);
    }
  }

  /** The column takes two identifiers for one exactly if they differ in the case of hexadecimal letters only. */
  lemma UuidExactly(a: string, b: string)
    ensures Uuid(a) == Uuid(b) <==> SameAgent(a, b)
    ensures SameAgent(a, Uuid(a))
  {
    forall c: char, d: char ensures Folded(c) == Folded(d) <==> SameDigit(c, d) {
      FoldExactly(c, d);
    }
    assert forall i :: 0 <= i < |a| ==> Uuid(a)[i] == Folded(a[i]) == Folded(Uuid(a)[i]);
    assert forall i :: 0 <= i < |b| ==> Uuid(b)[i] == Folded(b[i]);
  }

  function Printed(id: EventId): string {
    match id
    case NoId => ""
    case TextId(text) => text
    case OtherId(printed) => printed
  }

  function EventKey(e: Event): string {
    if !e.parseError && Printed(e.id) != "" then "event_id:" + Printed(e.id)
    else "fallback:" + e.receivedAt + ":" + e.digest
  }

  /** The event has this identifier, as a text or printed, and it is not empty. */
  predicate IdentifiedBy(e: Event, id: string) {
    !e.parseError && id != "" && (e.id == TextId(id) || e.id == OtherId(id))
  }

  /** Two events share a key exactly if they have the same identifier, or neither has one and their contents agree. */
  lemma EventKeyExactly(e: Event, f: Event)
    requires |e.digest| == |f.digest|
    ensures EventKey(e) == EventKey(f) <==>
              || (exists id :: IdentifiedBy(e, id) && IdentifiedBy(f, id))
              || (&& (forall id :: !IdentifiedBy(e, id) && !IdentifiedBy(f, id))
                  && e.receivedAt == f.receivedAt && e.digest == f.digest)
  {
    KeyParts(e);
    KeyParts(f);
    var x, y := e.receivedAt + ":" + e.digest, f.receivedAt + ":" + f.digest;
    if x == y {
      assert |e.receivedAt| == |f.receivedAt|;
      assert e.receivedAt == x[..|e.receivedAt|] && e.digest == x[|e.receivedAt| + 1..];
      assert f.receivedAt == y[..|f.receivedAt|] && f.digest == y[|f.receivedAt| + 1..];
    }
  }

  lemma KeyParts(e: Event)
    ensures forall id :: IdentifiedBy(e, id) ==>
              EventKey(e)[0] == 'e' && |EventKey(e)| >= 9 && EventKey(e)[9..] == id == Printed(e.id)
    ensures (forall id :: !IdentifiedBy(e, id)) ==>
              EventKey(e)[0] == 'f' && |EventKey(e)| >= 9 && EventKey(e)[9..] == e.receivedAt + ":" + e.digest
    ensures IdentifiedBy(e, Printed(e.id)) || (forall id :: !IdentifiedBy(e, id))
  {
    assert ("event_id:" + Printed(e.id))[9..] == Printed(e.id);
    assert "fallback:" + (e.receivedAt + ":" + e.digest) == "fallback:" + e.receivedAt + ":" + e.digest;
    assert ("fallback:" + (e.receivedAt + ":" + e.digest))[9..] == e.receivedAt + ":" + e.digest;
  }

  predicate Known(rows: seq<Row>, agent: string, key: string) {
    exists row :: row in rows && row.agent == agent && row.key == key
  }

  /** INSERT ... ON CONFLICT(agent_id, event_key) DO NOTHING */
  function Insert(rows: seq<Row>, row: Row): seq<Row> {
    if Known(rows, row.agent, row.key) then rows else rows + [row]
  }

  function InsertAll(rows: seq<Row>, agent: string, batch: string, events: seq<Event>): seq<Row> {
    if events == [] then rows else
      var e := events[|events| - 1];
      Insert(InsertAll(rows, agent, batch, events[..|events| - 1]), Row(agent, batch, EventKey(e), e))
  }

  predicate Seen(db: Db, r: Request) {
    (Uuid(r.agent), r.batch) in db.batches
  }

  /** The tables after a committed request. */
  function Saved(db: Db, r: Request): Db {
    if Seen(db, r) then db
    else Db(db.batches[(Uuid(r.agent), r.batch) := |r.events|], InsertAll(db.rows, Uuid(r.agent), r.batch, r.events))
  }

  function Accepted(db: Db, r: Request): int {
    |Saved(db, r).rows| - |db.rows|
  }

  function SavedAll(db: Db, rs: seq<Request>): Db {
    if rs == [] then db else Saved(SavedAll(db, rs[..|rs| - 1]), rs[|rs| - 1])
  }

  // ---- the store itself ----

  class PostgresStore {
    var batches: map<(string, string), nat>
    var events: seq<Row>

    constructor ()
      ensures Tables() == EMPTY_DB
    {
      batches, events := map[], [];
    }

    function Tables(): Db
      reads this
    {
      Db(batches, events)
    }

    /**
     One transaction. `failing` is the number of the statement that fails: 0 for BEGIN, 1 for the
     batch row, 2 + i for event i, and the COMMIT after them; a larger number means none does.
     */
    method SaveEvents(r: Request, failing: nat) returns (accepted: int, duplicated: int, ok: bool)
      modifies this
      ensures ok <==> failing >= 3 + (if old(Seen(Tables(), r)) then 0 else |r.events|)
      ensures Tables() == if ok then Saved(old(Tables()), r) else old(Tables())
      ensures ok ==> accepted == |Tables().rows| - |old(Tables().rows)| && accepted + duplicated == |r.events|
      ensures ok ==> 0 <= accepted <= |r.events|
      ensures !ok ==> accepted == 0
      ensures forall q: Request :: !SameAgent(q.agent, r.agent) ==>
                && Seen(Tables(), q) == old(Seen(Tables(), q)) && Accepted(Tables(), q) == old(Accepted(Tables(), q))
                && Keys(Tables().rows, Uuid(q.agent)) == old(Keys(Tables().rows, Uuid(q.agent)))
      ensures ok ==> forall q: Request :: SameAgent(q.agent, r.agent) && q.batch == r.batch ==>
                Seen(Tables(), q) && Saved(Tables(), q) == Tables()
    {
      EachSaved(Tables(), r);
      if failing == 0 {
        return 0, 0, false;
      }
      var txBatches, txEvents := batches, events;
      if failing == 1 {
        return 0, 0, false;
      }
      if (Uuid(r.agent), r.batch) in txBatches {
        return 0, |r.events|, failing != 2;
      }
      txBatches := txBatches[(Uuid(r.agent), r.batch) := |r.events|];
      accepted := 0;
      for i := 0 to |r.events|
        invariant failing >= 2 + i
        invariant txEvents == InsertAll(events, Uuid(r.agent), r.batch, r.events[..i])
        invariant accepted == |txEvents| - |events| && 0 <= accepted <= i
      {
        if failing == 2 + i {
          return 0, 0, false;
        }
        var e := r.events[i];
        var key := EventKey(e);
        assert r.events[..i + 1][..i] == r.events[..i];
        if !Known(txEvents, Uuid(r.agent), key) {
          txEvents := txEvents + [Row(Uuid(r.agent), r.batch, key, e)];
          accepted := accepted + 1;
        }
      }
      assert r.events[..|r.events|] == r.events;
      if failing == 2 + |r.events| {
        return 0, 0, false;
      }
      batches, events := txBatches, txEvents;
      return accepted, |r.events| - accepted, true;
    }
  }

  // ---- keys in insertion order ----

  function Keys(rows: seq<Row>, agent: string): seq<string> {
    if rows == [] then [] else
      Keys(rows[..|rows| - 1], agent) + (if rows[|rows| - 1].agent == agent then [rows[|rows| - 1].key] else [])
  }

  function KeysOf(events: seq<Event>): (ks: seq<string>)
    ensures |ks| == |events| && forall i :: 0 <= i < |ks| ==> ks[i] == EventKey(events[i])
  {
    seq(|events|, i requires 0 <= i < |events| => EventKey(events[i]))
  }

  function ToSet<T>(s: seq<T>): set<T> {
    set x | x in s
  }

  /** The keys of `ks` that are new, each once, at its first occurrence. */
  function FirstSeen(ks: seq<string>, seen: set<string>): seq<string> {
    if ks == [] then []
    else if ks[0] in seen then FirstSeen(ks[1..], seen)
    else [ks[0]] + FirstSeen(ks[1..], seen + {ks[0]})
  }

  /** Deduplication by first occurrence. */
  function Dedup(ks: seq<string>): seq<string> {
    FirstSeen(ks, {})
  }

  lemma {:induction false} FirstSeenConcat(a: seq<string>, b: seq<string>, seen: set<string>)
    ensures FirstSeen(a + b, seen) == FirstSeen(a, seen) + FirstSeen(b, seen + ToSet(a))
    decreases |a|
  {
    if a == [] {
      assert a + b == b && seen + ToSet(a) == seen;
    } else {
      assert (a + b)[1..] == a[1..] + b && a == [a[0]] + a[1..];
      var seen' := seen + {a[0]};
      FirstSeenConcat(a[1..], b, seen');
      assert seen' + ToSet(a[1..]) == seen + ToSet(a);
      if a[0] in seen {
        assert seen' == seen;
      }
    }
  }

  lemma {:induction false} FirstSeenNothing(ks: seq<string>, seen: set<string>)
    requires ToSet(ks) <= seen
    ensures FirstSeen(ks, seen) == []
  {
    if ks != [] {
      assert ks[0] in ToSet(ks) && ToSet(ks[1..]) <= ToSet(ks);
      FirstSeenNothing(ks[1..], seen);
    }
  }

  /** Deduplicating loses no key and repeats none. */
  lemma {:induction false} FirstSeenContents(ks: seq<string>, seen: set<string>)
    ensures ToSet(FirstSeen(ks, seen)) == ToSet(ks) - seen
    ensures forall i, j :: 0 <= i < j < |FirstSeen(ks, seen)| ==> FirstSeen(ks, seen)[i] != FirstSeen(ks, seen)[j]
    decreases |ks|
  {
    if ks != [] {
      assert ks == [ks[0]] + ks[1..];
      assert ToSet(ks) == {ks[0]} + ToSet(ks[1..]);
      if ks[0] in seen {
        FirstSeenContents(ks[1..], seen);
      } else {
        var more := FirstSeen(ks[1..], seen + {ks[0]});
        FirstSeenContents(ks[1..], seen + {ks[0]});
        assert ks[0] !in ToSet(more) && FirstSeen(ks, seen) == [ks[0]] + more;
        assert ToSet([ks[0]] + more) == {ks[0]} + ToSet(more);
        assert forall j :: 0 <= j < |more| ==> more[j] in ToSet(more);
      }
    }
  }

  lemma {:induction false} KnownIsKey(rows: seq<Row>, agent: string, key: string)
    ensures Known(rows, agent, key) <==> key in Keys(rows, agent)
  {
    if rows != [] {
      KnownIsKey(rows[..|rows| - 1], agent, key);
      assert rows == rows[..|rows| - 1] + [rows[|rows| - 1]];
    }
  }

  lemma KeysSnoc(rows: seq<Row>, row: Row, agent: string)
    ensures Keys(rows + [row], agent) == Keys(rows, agent) + if row.agent == agent then [row.key] else []
  {
    assert (rows + [row])[..|rows|] == rows;
  }

  /** What a batch adds: the agent's new keys in order of first occurrence. */
  lemma {:induction false} InsertAllOwnKeys(rows: seq<Row>, agent: string, batch: string, events: seq<Event>)
    ensures Keys(InsertAll(rows, agent, batch, events), agent) ==
            Keys(rows, agent) + FirstSeen(KeysOf(events), ToSet(Keys(rows, agent)))
    decreases |events|
  {
    if events == [] {
      assert KeysOf(events) == [];
    } else {
      var init, e := events[..|events| - 1], events[|events| - 1];
      var row := Row(agent, batch, EventKey(e), e);
      InsertAllOwnKeys(rows, agent, batch, init);
      KeysOfSnoc(events);
      InsertNewKey(InsertAll(rows, agent, batch, init), row, Keys(rows, agent), KeysOf(init), KeysOf(events));
    }
  }

  /** And nothing for anyone else. */
  lemma {:induction false} InsertAllOtherKeys(rows: seq<Row>, agent: string, batch: string, events: seq<Event>,
                                              who: string)
    requires who != agent
    ensures Keys(InsertAll(rows, agent, batch, events), who) == Keys(rows, who)
    decreases |events|
  {
    if events != [] {
      var init, e := events[..|events| - 1], events[|events| - 1];
      InsertAllOtherKeys(rows, agent, batch, init, who);
      InsertKeys(InsertAll(rows, agent, batch, init), Row(agent, batch, EventKey(e), e), who);
    }
  }

  lemma KeysOfSnoc(events: seq<Event>)
    requires events != []
    ensures KeysOf(events) == KeysOf(events[..|events| - 1]) + [EventKey(events[|events| - 1])]
  {
  }

  lemma InsertNewKey(rows: seq<Row>, row: Row, held: seq<string>, ks: seq<string>, ks': seq<string>)
    requires Keys(rows, row.agent) == held + FirstSeen(ks, ToSet(held)) && ks' == ks + [row.key]
    ensures Keys(Insert(rows, row), row.agent) == held + FirstSeen(ks', ToSet(held))
  {
    InsertKeys(rows, row, row.agent);
    FirstSeenSnoc(ks, row.key, held);
  }

  lemma InsertKeys(rows: seq<Row>, row: Row, who: string)
    ensures Keys(Insert(rows, row), who) ==
            Keys(rows, who) + if who == row.agent && row.key !in Keys(rows, who) then [row.key] else []
  {
    KeysSnoc(rows, row, who);
    KnownIsKey(rows, row.agent, row.key);
  }

  lemma FirstSeenSnoc(ks: seq<string>, key: string, held: seq<string>)
    ensures var sofar := held + FirstSeen(ks, ToSet(held));
            held + FirstSeen(ks + [key], ToSet(held)) == sofar + if key in sofar then [] else [key]
  {
    FirstSeenConcat(ks, [key], ToSet(held));
    FirstSeenContents(ks, ToSet(held));
    var added := FirstSeen(ks, ToSet(held));
    assert key in added <==> key in ToSet(added);
    assert key in held + added <==> key in ToSet(held) + ToSet(ks);
    var last := FirstSeen([key], ToSet(held) + ToSet(ks));
    assert last == if key in held + added then [] else [key];
    assert held + (added + last) == held + added + last;
  }

  lemma {:induction false} RowsAreKeys(rows: seq<Row>, agent: string, batch: string, events: seq<Event>)
    ensures var rows' := InsertAll(rows, agent, batch, events);
            |rows'| - |rows| == |Keys(rows', agent)| - |Keys(rows, agent)|
    decreases |events|
  {
    if events != [] {
      var init, e := events[..|events| - 1], events[|events| - 1];
      var row := Row(agent, batch, EventKey(e), e);
      RowsAreKeys(rows, agent, batch, init);
      InsertKeys(InsertAll(rows, agent, batch, init), row, agent);
      KnownIsKey(InsertAll(rows, agent, batch, init), agent, row.key);
    }
  }

  /** As many rows are added as there are distinct new keys. */
  lemma StoreCount(rows: seq<Row>, agent: string, batch: string, events: seq<Event>)
    ensures |InsertAll(rows, agent, batch, events)| == |rows| + |FirstSeen(KeysOf(events), ToSet(Keys(rows, agent)))|
  {
    RowsAreKeys(rows, agent, batch, events);
    InsertAllOwnKeys(rows, agent, batch, events);
  }

  /** The same for a whole request. */
  lemma SavedKeys(db: Db, r: Request, who: string)
    ensures Keys(Saved(db, r).rows, who) ==
            Keys(db.rows, who) + if who == Uuid(r.agent) && !Seen(db, r)
                                 then FirstSeen(KeysOf(r.events), ToSet(Keys(db.rows, who))) else []
  {
    if who == Uuid(r.agent) {
      InsertAllOwnKeys(db.rows, who, r.batch, r.events);
    } else {
      InsertAllOtherKeys(db.rows, Uuid(r.agent), r.batch, r.events, who);
    }
  }

  /** Rows stay where they are, and after the request every event of it is known. */
  lemma {:induction false} InsertAllGrows(rows: seq<Row>, agent: string, batch: string, events: seq<Event>)
    ensures rows <= InsertAll(rows, agent, batch, events)
    ensures forall e :: e in events ==> Known(InsertAll(rows, agent, batch, events), agent, EventKey(e))
    decreases |events|
  {
    if events != [] {
      var n := |events| - 1;
      InsertAllGrows(rows, agent, batch, events[..n]);
      var rows', all := InsertAll(rows, agent, batch, events[..n]), InsertAll(rows, agent, batch, events);
      assert rows' <= all;
      forall e | e in events ensures Known(all, agent, EventKey(e)) {
        if e == events[n] {
          assert Known(rows', agent, EventKey(e)) || all[|rows'|] in all;
        } else {
          assert e in events[..n];
        }
        if Known(rows', agent, EventKey(e)) {
          KnownGrows(rows', all, agent, EventKey(e));
        }
      }
    }
  }

  lemma KnownGrows(rows: seq<Row>, rows': seq<Row>, agent: string, key: string)
    requires rows <= rows' && Known(rows, agent, key)
    ensures Known(rows', agent, key)
  {
    var row :| row in rows && row.agent == agent && row.key == key;
    assert row in rows';
  }

  // ---- who notices a request ----

  /** Only the agent's own rows and replies depend on it, and with letters of either case it is the same agent. */
  lemma EachSaved(db: Db, r: Request)
    ensures forall q: Request :: !SameAgent(q.agent, r.agent) ==>
              && Seen(Saved(db, r), q) == Seen(db, q) && Accepted(Saved(db, r), q) == Accepted(db, q)
              && Keys(Saved(db, r).rows, Uuid(q.agent)) == Keys(db.rows, Uuid(q.agent))
    ensures forall q: Request :: SameAgent(q.agent, r.agent) && q.batch == r.batch ==>
              Seen(Saved(db, r), q) && Saved(Saved(db, r), q) == Saved(db, r)
  {
    hide Uuid, SameAgent, Saved, Seen, Accepted, Keys;
    forall q: Request | !SameAgent(q.agent, r.agent)
      ensures && Seen(Saved(db, r), q) == Seen(db, q) && Accepted(Saved(db, r), q) == Accepted(db, q)
              && Keys(Saved(db, r).rows, Uuid(q.agent)) == Keys(db.rows, Uuid(q.agent))
    {
      OtherAgent(db, r, q);
    }
    forall q: Request | SameAgent(q.agent, r.agent) && q.batch == r.batch
      ensures Seen(Saved(db, r), q) && Saved(Saved(db, r), q) == Saved(db, r)
    {
      SameReplay(db, r, q);
    }
  }

  lemma OtherAgent(db: Db, r: Request, q: Request)
    requires !SameAgent(q.agent, r.agent)
    ensures Seen(Saved(db, r), q) == Seen(db, q) && Accepted(Saved(db, r), q) == Accepted(db, q)
    ensures Keys(Saved(db, r).rows, Uuid(q.agent)) == Keys(db.rows, Uuid(q.agent))
  {
    hide Uuid, SameAgent, Keys, FirstSeen, InsertAll, KeysOf;
    UuidExactly(q.agent, r.agent);
    SavedKeys(db, r, Uuid(q.agent));
    assert Keys(Saved(db, r).rows, Uuid(q.agent)) == Keys(db.rows, Uuid(q.agent));
    StoreCount(db.rows, Uuid(q.agent), q.batch, q.events);
    StoreCount(Saved(db, r).rows, Uuid(q.agent), q.batch, q.events);
  }

  lemma SameReplay(db: Db, r: Request, q: Request)
    requires SameAgent(q.agent, r.agent) && q.batch == r.batch
    ensures Seen(Saved(db, r), q) && Saved(Saved(db, r), q) == Saved(db, r)
  {
    UuidExactly(q.agent, r.agent);
  }

  /** A batch is taken for a replay exactly if the same agent has sent one with this id before. */
  lemma {:induction false} SeenExactly(rs: seq<Request>, q: Request)
    ensures Seen(SavedAll(EMPTY_DB, rs), q) <==>
            exists i :: 0 <= i < |rs| && SameAgent(q.agent, rs[i].agent) && rs[i].batch == q.batch
  {
    hide Uuid, SameAgent;
    if rs != [] {
      var n := |rs| - 1;
      SeenExactly(rs[..n], q);
      UuidExactly(q.agent, rs[n].agent);
      assert forall i :: 0 <= i < n ==> rs[..n][i] == rs[i];
    }
  }

  /** The row comes from this request. */
  predicate RowFrom(row: Row, r: Request) {
    SameAgent(r.agent, row.agent) && row.batch == r.batch && row.event in r.events && row.key == EventKey(row.event)
  }

  lemma {:induction false} InsertedFrom(rows: seq<Row>, r: Request, n: nat)
    requires n <= |r.events|
    ensures forall row :: row in InsertAll(rows, Uuid(r.agent), r.batch, r.events[..n]) ==>
              row in rows || RowFrom(row, r)
  {
    hide Uuid, SameAgent, EventKey;
    UuidExactly(r.agent, r.agent);
    if n > 0 {
      InsertedFrom(rows, r, n - 1);
      assert r.events[..n][..n - 1] == r.events[..n - 1];
    }
  }

  predicate HasRow(rows: seq<Row>, agent: string, e: Event) {
    exists row :: row in rows && SameAgent(agent, row.agent) && row.key == EventKey(e)
  }

  lemma {:induction false} EventKept(rs: seq<Request>, i: nat, e: Event)
    requires i < |rs| && !Seen(SavedAll(EMPTY_DB, rs[..i]), rs[i]) && e in rs[i].events
    ensures HasRow(SavedAll(EMPTY_DB, rs).rows, rs[i].agent, e)
  {
    hide Uuid, SameAgent, EventKey, InsertAll, Seen;
    var n := |rs| - 1;
    var db, r := SavedAll(EMPTY_DB, rs[..n]), rs[n];
    InsertAllGrows(db.rows, Uuid(r.agent), r.batch, r.events);
    UuidExactly(r.agent, r.agent);
    if i < n {
      assert rs[..n][..i] == rs[..i];
      EventKept(rs[..n], i, e);
      var row :| row in db.rows && SameAgent(rs[i].agent, row.agent) && row.key == EventKey(e);
      assert row in SavedAll(EMPTY_DB, rs).rows;
    } else {
      assert Known(SavedAll(EMPTY_DB, rs).rows, Uuid(r.agent), EventKey(e));
    }
  }

  /** Every row comes from a request, and no event of a request that was no replay is missing. */
  lemma {:induction false} RowsExactly(rs: seq<Request>)
    ensures forall row :: row in SavedAll(EMPTY_DB, rs).rows ==> exists i :: 0 <= i < |rs| && RowFrom(row, rs[i])
    ensures forall i, e :: 0 <= i < |rs| && !Seen(SavedAll(EMPTY_DB, rs[..i]), rs[i]) && e in rs[i].events ==>
              HasRow(SavedAll(EMPTY_DB, rs).rows, rs[i].agent, e)
  {
    hide Uuid, SameAgent, EventKey, InsertAll, Seen, HasRow;
    forall i, e | 0 <= i < |rs| && !Seen(SavedAll(EMPTY_DB, rs[..i]), rs[i]) && e in rs[i].events
      ensures HasRow(SavedAll(EMPTY_DB, rs).rows, rs[i].agent, e)
    {
      EventKept(rs, i, e);
    }
    if rs != [] {
      var n := |rs| - 1;
      var db, r := SavedAll(EMPTY_DB, rs[..n]), rs[n];
      RowsExactly(rs[..n]);
      assert r.events[..|r.events|] == r.events;
      InsertedFrom(db.rows, r, |r.events|);
      forall row | row in SavedAll(EMPTY_DB, rs).rows ensures exists i :: 0 <= i < |rs| && RowFrom(row, rs[i]) {
        if row in db.rows {
          var i :| 0 <= i < n && RowFrom(row, rs[..n][i]);
          assert rs[i] == rs[..n][i];
        }
      }
    }
  }

  // ---- what every request keeps ----

  /** The primary key of batches is a map's; this is the rest of the schema. */
  predicate Consistent(db: Db) {
    && (forall i, j :: 0 <= i < j < |db.rows| ==>
        db.rows[i].agent != db.rows[j].agent || db.rows[i].key != db.rows[j].key)
    && (forall row :: row in db.rows ==> (row.agent, row.batch) in db.batches)
  }

  lemma {:induction false} InsertAllConsistent(db: Db, agent: string, batch: string, events: seq<Event>)
    requires Consistent(db) && (agent, batch) in db.batches
    ensures Consistent(Db(db.batches, InsertAll(db.rows, agent, batch, events)))
    decreases |events|
  {
    if events != [] {
      InsertAllConsistent(db, agent, batch, events[..|events| - 1]);
      var rows' := InsertAll(db.rows, agent, batch, events[..|events| - 1]);
      assert forall i :: 0 <= i < |rows'| ==> rows'[i] in rows';
    }
  }

  /** Keys stay unique per agent and every event row keeps its batch row, whatever the requests. */
  lemma {:induction false} AllConsistent(rs: seq<Request>)
    ensures Consistent(SavedAll(EMPTY_DB, rs))
  {
    if rs != [] {
      AllConsistent(rs[..|rs| - 1]);
      var db, r := SavedAll(EMPTY_DB, rs[..|rs| - 1]), rs[|rs| - 1];
      if !Seen(db, r) {
        var db' := Db(db.batches[(Uuid(r.agent), r.batch) := |r.events|], db.rows);
        InsertAllConsistent(db', Uuid(r.agent), r.batch, r.events);
      }
    }
  }

  lemma {:induction false} InsertAllBound(rows: seq<Row>, agent: string, batch: string, events: seq<Event>)
    ensures |rows| <= |InsertAll(rows, agent, batch, events)| <= |rows| + |events|
    decreases |events|
  {
    if events != [] {
      InsertAllBound(rows, agent, batch, events[..|events| - 1]);
    }
  }

  lemma AcceptedInRange(db: Db, r: Request)
    ensures 0 <= Accepted(db, r) <= |r.events|
  {
    InsertAllBound(db.rows, Uuid(r.agent), r.batch, r.events);
  }

  function TotalAccepted(db: Db, rs: seq<Request>): int {
    if rs == [] then 0
    else TotalAccepted(db, rs[..|rs| - 1]) + Accepted(SavedAll(db, rs[..|rs| - 1]), rs[|rs| - 1])
  }

  /** The accepted counts of all replies add up to the number of event rows. */
  lemma {:induction false} AcceptedAddsUp(rs: seq<Request>)
    ensures TotalAccepted(EMPTY_DB, rs) == |SavedAll(EMPTY_DB, rs).rows|
  {
    if rs != [] {
      AcceptedAddsUp(rs[..|rs| - 1]);
    }
  }

  /** Tables only grow. */
  lemma {:induction false} SavedAllGrows(db: Db, rs: seq<Request>)
    ensures db.batches.Keys <= SavedAll(db, rs).batches.Keys && db.rows <= SavedAll(db, rs).rows
  {
    if rs != [] {
      SavedAllGrows(db, rs[..|rs| - 1]);
      var db', r := SavedAll(db, rs[..|rs| - 1]), rs[|rs| - 1];
      InsertAllGrows(db'.rows, Uuid(r.agent), r.batch, r.events);
    }
  }

  /**
   Replays, however many other requests came in between: the same request changes nothing at all,
   and its events under any batch id and in any selection add no event row.
   */
  lemma ReplayAddsNothing(db: Db, r: Request, between: seq<Request>, again: Request)
    requires SameAgent(again.agent, r.agent) && !Seen(db, r)
    requires forall e :: e in again.events ==> e in r.events
    ensures var later := SavedAll(Saved(db, r), between);
            && Saved(later, r) == later
            && Saved(later, again).rows == later.rows
  {
    var later := SavedAll(Saved(db, r), between);
    var agent := Uuid(r.agent);
    UuidExactly(again.agent, r.agent);
    SavedAllGrows(Saved(db, r), between);
    InsertAllGrows(db.rows, agent, r.batch, r.events);
    forall e | e in again.events ensures Known(later.rows, agent, EventKey(e)) {
      KnownGrows(Saved(db, r).rows, later.rows, agent, EventKey(e));
    }
    InsertKnown(later.rows, agent, again.batch, again.events);
  }

  lemma {:induction false} InsertKnown(rows: seq<Row>, agent: string, batch: string, events: seq<Event>)
    requires forall e :: e in events ==> Known(rows, agent, EventKey(e))
    ensures InsertAll(rows, agent, batch, events) == rows
    decreases |events|
  {
    if events != [] {
      InsertKnown(rows, agent, batch, events[..|events| - 1]);
    }
  }
}
