/**
 The mock collector (internal/mockserver/mockserver.go) as a second implementation of the
 deduplication: one set of batch ids, one set of keys, a list of accepted events.
 */
module MockServer {
  import C = Collector

  const MAX_EVENTS := 10000

  datatype AcceptedEvent = AcceptedEvent(key: string, eventId: string, receivedAt: string)

  datatype State = State(batches: set<string>, keys: set<string>, accepted: seq<AcceptedEvent>)

  const EMPTY := State({}, {}, [])

  datatype Reply = TooLarge | Counted(received: nat, accepted: nat, duplicated: nat)

  /** An `event_id` that is not a string does not decode, and the event has none. */
  function IdOf(e: C.Event): string {
    if !e.parseError && e.id.TextId? then e.id.text else ""
  }

  function Key(agent: string, e: C.Event): string {
    if IdOf(e) != "" then agent + "|event_id|" + IdOf(e)
    else agent + "|" + e.receivedAt + "|" + e.digest
  }

  function Insert(s: State, agent: string, e: C.Event): State {
    var key := Key(agent, e);
    if key in s.keys then s
    else s.(keys := s.keys + {key}, accepted := s.accepted + [AcceptedEvent(key, IdOf(e), e.receivedAt)])
  }

  function InsertAll(s: State, agent: string, events: seq<C.Event>): State {
    if events == [] then s
    else Insert(InsertAll(s, agent, events[..|events| - 1]), agent, events[|events| - 1])
  }

  function Handled(s: State, r: C.Request): State {
    if |r.events| > MAX_EVENTS || r.batch in s.batches then s
    else InsertAll(s.(batches := s.batches + {r.batch}), r.agent, r.events)
  }

  function ReplyTo(s: State, r: C.Request): Reply {
    if |r.events| > MAX_EVENTS then TooLarge
    else
      InsertAllGrows(s.(batches := s.batches + {r.batch}), r.agent, r.events);
      var accepted := |Handled(s, r).accepted| - |s.accepted|;
      Counted(|r.events|, accepted, |r.events| - accepted)
  }

  lemma {:induction false} InsertAllGrows(s: State, agent: string, events: seq<C.Event>)
    ensures var n := |InsertAll(s, agent, events).accepted|; |s.accepted| <= n <= |s.accepted| + |events|
    ensures InsertAll(s, agent, events).batches == s.batches
  {
    if events != [] {
      InsertAllGrows(s, agent, events[..|events| - 1]);
    }
  }

  function HandledAll(s: State, rs: seq<C.Request>): State {
    if rs == [] then s else Handled(HandledAll(s, rs[..|rs| - 1]), rs[|rs| - 1])
  }

  /** The replies to a sequence of requests. */
  function Replies(s: State, rs: seq<C.Request>): seq<Reply> {
    if rs == [] then [] else
      var init := rs[..|rs| - 1];
      Replies(s, init) + [ReplyTo(HandledAll(s, init), rs[|rs| - 1])]
  }

  // ---- the server itself ----

  class Server {
    var batches: set<string>
    var keys: set<string>
    var accepted: seq<AcceptedEvent>
    var batchesReceived: nat
    var batchesDuplicated: nat
    var eventsReceived: nat
    var eventsAccepted: nat
    var eventsDuplicated: nat

    function Now(): State
      reads this
    {
      State(batches, keys, accepted)
    }

    /** The statistics add up. */
    predicate Valid()
      reads this
    {
      && eventsAccepted + eventsDuplicated == eventsReceived
      && eventsAccepted == |accepted|
      && batchesReceived == batchesDuplicated + |batches|
    }

    constructor ()
      ensures Valid() && Now() == EMPTY
    {
      batches, keys, accepted := {}, {}, [];
      batchesReceived, batchesDuplicated, eventsReceived, eventsAccepted, eventsDuplicated := 0, 0, 0, 0, 0;
    }

    /** handleEvents, for a request that decodes and is valid. */
    method HandleEvents(r: C.Request) returns (reply: Reply)
      requires Valid()
      modifies this
      ensures Valid() && Now() == Handled(old(Now()), r) && reply == ReplyTo(old(Now()), r)
      ensures reply.Counted? ==> eventsReceived == old(eventsReceived) + reply.received
                                 && eventsAccepted == old(eventsAccepted) + reply.accepted
    {
      if |r.events| > MAX_EVENTS {
        return TooLarge;
      }
      ghost var before := Now();
      var n := |r.events|;
      batchesReceived := batchesReceived + 1;
      eventsReceived := eventsReceived + n;
      if r.batch in batches {
        batchesDuplicated := batchesDuplicated + 1;
        eventsDuplicated := eventsDuplicated + n;
        return Counted(n, 0, n);
      }
      batches := batches + {r.batch};
      ghost var start := Now();
      var count := 0;
      for i := 0 to n
        invariant Now() == InsertAll(start, r.agent, r.events[..i])
        invariant count == |accepted| - |before.accepted| && count <= i
        invariant batchesReceived == batchesDuplicated + |batches|
        invariant eventsReceived == eventsAccepted + eventsDuplicated + n && eventsAccepted == |before.accepted|
        invariant eventsAccepted == old(eventsAccepted) && eventsReceived == old(eventsReceived) + n
      {
        var e := r.events[i];
        var key := Key(r.agent, e);
        assert r.events[..i + 1][..i] == r.events[..i];
        if key !in keys {
          keys := keys + {key};
          accepted := accepted + [AcceptedEvent(key, IdOf(e), e.receivedAt)];
          count := count + 1;
        }
      }
      assert r.events[..n] == r.events;
      eventsAccepted := eventsAccepted + count;
      eventsDuplicated := eventsDuplicated + (n - count);
      return Counted(n, count, n - count);
    }
  }

  // ---- the same counts as the database ----

  /** Text ids, a receive time that begins with a digit as in RFC 3339, a hexadecimal SHA-256. */
  predicate Regular(e: C.Event) {
    && !e.id.OtherId?
    && e.receivedAt != "" && '0' <= e.receivedAt[0] <= '9'
    && |e.digest| == 64
  }

  predicate RegularRequest(r: C.Request) {
    && C.Uuid(r.agent) == r.agent && |r.agent| == 36
    && |r.events| <= MAX_EVENTS && forall e :: e in r.events ==> Regular(e)
  }

  /** No two agents use the same batch id. */
  predicate BatchesApart(rs: seq<C.Request>) {
    forall i, j :: 0 <= i < |rs| && 0 <= j < |rs| && rs[i].batch == rs[j].batch ==> rs[i].agent == rs[j].agent
  }

  lemma SplitSame<T>(a: seq<T>, b: seq<T>, a': seq<T>, b': seq<T>)
    requires |a| == |a'|
    ensures a + b == a' + b' <==> a == a' && b == b'
  {
    if a + b == a' + b' {
      assert a == (a + b)[..|a|] && a' == (a' + b')[..|a|];
      assert b == (a + b)[|a|..] && b' == (a' + b')[|a|..];
    }
  }

  lemma SplitSameEnd<T>(a: seq<T>, b: seq<T>, a': seq<T>, b': seq<T>)
    requires |b| == |b'|
    ensures a + b == a' + b' <==> a == a' && b == b'
  {
    if a + b == a' + b' {
      assert |a| == |a'|;
      SplitSame(a, b, a', b');
    }
  }

  /** The key without its agent, in both forms. */
  function MockTail(e: C.Event): string {
    if IdOf(e) != "" then "|event_id|" + IdOf(e) else "|" + e.receivedAt + "|" + e.digest
  }

  lemma KeyIsTail(agent: string, e: C.Event)
    ensures Key(agent, e) == agent + MockTail(e)
  {
    if IdOf(e) != "" {
      assert agent + "|event_id|" + IdOf(e) == agent + ("|event_id|" + IdOf(e));
    } else {
      assert agent + "|" + e.receivedAt + "|" + e.digest == agent + ("|" + e.receivedAt + "|" + e.digest);
    }
  }

  lemma SameFallback(sep: string, mid: string, e: C.Event, f: C.Event)
    requires |e.digest| == |f.digest|
    ensures sep + e.receivedAt + mid + e.digest == sep + f.receivedAt + mid + f.digest <==>
            e.receivedAt == f.receivedAt && e.digest == f.digest
  {
    SplitSameEnd(sep + e.receivedAt + mid, e.digest, sep + f.receivedAt + mid, f.digest);
    SplitSameEnd(sep + e.receivedAt, mid, sep + f.receivedAt, mid);
    SplitSame(sep, e.receivedAt, sep, f.receivedAt);
  }

  lemma SameTail(e: C.Event, f: C.Event)
    requires Regular(e) && Regular(f)
    ensures MockTail(e) == MockTail(f) <==> C.EventKey(e) == C.EventKey(f)
  {
    if IdOf(e) != "" && IdOf(f) != "" {
      SplitSame("|event_id|", IdOf(e), "|event_id|", IdOf(f));
      SplitSame("event_id:", IdOf(e), "event_id:", IdOf(f));
    } else if IdOf(e) == "" && IdOf(f) == "" {
      SameFallback("|", "|", e, f);
      SameFallback("fallback:", ":", e, f);
    } else {
      assert MockTail(e)[1] != MockTail(f)[1];
      assert C.EventKey(e)[0] != C.EventKey(f)[0];
    }
  }

  /** Two regular events are the same to the mock exactly when they are the same to the database. */
  lemma SameKeys(agent: string, e: C.Event, agent': string, f: C.Event)
    requires Regular(e) && Regular(f) && |agent| == |agent'|
    ensures Key(agent, e) == Key(agent', f) <==> agent == agent' && C.EventKey(e) == C.EventKey(f)
  {
    KeyIsTail(agent, e);
    KeyIsTail(agent', f);
    SplitSame(agent, MockTail(e), agent', MockTail(f));
    SameTail(e, f);
  }

  /** The mock has accepted the events of the database's rows, in their order. */
  ghost predicate SameEvents(s: State, rows: seq<C.Row>) {
    && |s.accepted| == |rows|
    && (forall i :: 0 <= i < |rows| ==>
          && rows[i].key == C.EventKey(rows[i].event) && Regular(rows[i].event) && |rows[i].agent| == 36
          && s.accepted[i].key == Key(rows[i].agent, rows[i].event))
    && (forall key :: key in s.keys <==> exists i :: 0 <= i < |rows| && s.accepted[i].key == key)
  }

  lemma SameKnown(s: State, rows: seq<C.Row>, agent: string, e: C.Event)
    requires SameEvents(s, rows) && Regular(e) && |agent| == 36
    ensures Key(agent, e) in s.keys <==> C.Known(rows, agent, C.EventKey(e))
  {
    forall i | 0 <= i < |rows|
      ensures s.accepted[i].key == Key(agent, e) <==> rows[i].agent == agent && rows[i].key == C.EventKey(e)
    {
      SameKeys(rows[i].agent, rows[i].event, agent, e);
    }
    if C.Known(rows, agent, C.EventKey(e)) {
      var row :| row in rows && row.agent == agent && row.key == C.EventKey(e);
      var i :| 0 <= i < |rows| && rows[i] == row;
      assert s.accepted[i].key == Key(agent, e);
    }
    if Key(agent, e) in s.keys {
      var i :| 0 <= i < |rows| && s.accepted[i].key == Key(agent, e);
      assert rows[i] in rows;
    }
  }

  lemma InsertSame(s: State, rows: seq<C.Row>, agent: string, batch: string, e: C.Event)
    requires SameEvents(s, rows) && Regular(e) && |agent| == 36
    ensures SameEvents(Insert(s, agent, e), C.Insert(rows, C.Row(agent, batch, C.EventKey(e), e)))
  {
    hide C.EventKey, Key, Regular;
    SameKnown(s, rows, agent, e);
    if Key(agent, e) !in s.keys {
      var s', rows' := Insert(s, agent, e), rows + [C.Row(agent, batch, C.EventKey(e), e)];
      forall key ensures key in s'.keys <==> exists i :: 0 <= i < |rows'| && s'.accepted[i].key == key {
        if key in s.keys {
          var i :| 0 <= i < |rows| && s.accepted[i].key == key;
          assert s'.accepted[i].key == key;
        }
        if key == Key(agent, e) {
          assert s'.accepted[|rows|].key == key;
        }
        if i :| 0 <= i < |rows'| && s'.accepted[i].key == key {
          assert i < |rows| ==> s.accepted[i].key == key;
        }
      }
    }
  }

  lemma {:induction false} InsertAllSame(s: State, rows: seq<C.Row>, agent: string, batch: string, events: seq<C.Event>)
    requires SameEvents(s, rows) && |agent| == 36 && forall e :: e in events ==> Regular(e)
    ensures SameEvents(InsertAll(s, agent, events), C.InsertAll(rows, agent, batch, events))
    decreases |events|
  {
    if events != [] {
      var init, e := events[..|events| - 1], events[|events| - 1];
      InsertAllSame(s, rows, agent, batch, init);
      InsertSame(InsertAll(s, agent, init), C.InsertAll(rows, agent, batch, init), agent, batch, e);
    }
  }

  /** Both have seen the batches of `rs`, and hold the same events. */
  ghost predicate Same(s: State, db: C.Db, rs: seq<C.Request>) {
    && SameEvents(s, db.rows)
    && (forall batch :: batch in s.batches <==> exists i :: 0 <= i < |rs| && rs[i].batch == batch)
    && (forall agent, batch :: (agent, batch) in db.batches <==>
          exists i :: 0 <= i < |rs| && rs[i].agent == agent && rs[i].batch == batch)
  }

  lemma SameSeen(s: State, db: C.Db, rs: seq<C.Request>, r: C.Request)
    requires Same(s, db, rs) && BatchesApart(rs + [r]) && C.Uuid(r.agent) == r.agent
    ensures r.batch in s.batches <==> C.Seen(db, r)
  {
    if r.batch in s.batches {
      var i :| 0 <= i < |rs| && rs[i].batch == r.batch;
      assert (rs + [r])[i] == rs[i] && (rs + [r])[|rs|] == r;
      assert rs[i].agent == r.agent;
    }
  }

  lemma SameBatches(s: State, db: C.Db, rs: seq<C.Request>, r: C.Request)
    requires Same(s, db, rs) && RegularRequest(r) && (r.batch in s.batches <==> C.Seen(db, r))
    requires SameEvents(Handled(s, r), C.Saved(db, r).rows)
    ensures Same(Handled(s, r), C.Saved(db, r), rs + [r])
  {
    var rs' := rs + [r];
    InsertAllGrows(s.(batches := s.batches + {r.batch}), r.agent, r.events);
    assert forall i :: 0 <= i < |rs| ==> rs'[i] == rs[i];
    assert rs'[|rs|] == r;
  }

  function StoreReply(db: C.Db, r: C.Request): Reply {
    C.AcceptedInRange(db, r);
    Counted(|r.events|, C.Accepted(db, r), |r.events| - C.Accepted(db, r))
  }

  lemma SameStep(s: State, db: C.Db, rs: seq<C.Request>, r: C.Request)
    requires Same(s, db, rs) && RegularRequest(r) && BatchesApart(rs + [r])
    ensures Same(Handled(s, r), C.Saved(db, r), rs + [r])
    ensures ReplyTo(s, r) == StoreReply(db, r)
  {
    hide BatchesApart, InsertAll, C.InsertAll;
    SameSeen(s, db, rs, r);
    InsertAllSame(s.(batches := s.batches + {r.batch}), db.rows, r.agent, r.batch, r.events);
    SameBatches(s, db, rs, r);
  }

  /** What the database's store answers to a sequence of requests. */
  function StoreReplies(db: C.Db, rs: seq<C.Request>): seq<Reply> {
    if rs == [] then [] else
      var init := rs[..|rs| - 1];
      StoreReplies(db, init) + [StoreReply(C.SavedAll(db, init), rs[|rs| - 1])]
  }

  lemma ApartBefore(rs: seq<C.Request>)
    requires rs != [] && BatchesApart(rs)
    ensures BatchesApart(rs[..|rs| - 1]) && rs == rs[..|rs| - 1] + [rs[|rs| - 1]]
  {
  }

  /** Mock and database answer every request of every sequence with the same counts. */
  lemma {:induction false} SameReplies(rs: seq<C.Request>)
    requires forall r :: r in rs ==> RegularRequest(r)
    requires BatchesApart(rs)
    ensures Replies(EMPTY, rs) == StoreReplies(C.EMPTY_DB, rs)
    ensures Same(HandledAll(EMPTY, rs), C.SavedAll(C.EMPTY_DB, rs), rs)
  {
    if rs == [] {
      NothingYet();
    } else {
      hide Same, BatchesApart, RegularRequest;
      var init, r := rs[..|rs| - 1], rs[|rs| - 1];
      ApartBefore(rs);
      SameReplies(init);
      SameStep(HandledAll(EMPTY, init), C.SavedAll(C.EMPTY_DB, init), init, r);
    }
  }

  lemma NothingYet()
    ensures Same(EMPTY, C.EMPTY_DB, [])
  {
  }

  // ---- exactly when they answer alike ----

  function KeysTo(agent: string, events: seq<C.Event>): (ks: seq<string>)
    ensures |ks| == |events| && forall i :: 0 <= i < |ks| ==> ks[i] == Key(agent, events[i])
  {
    seq(|events|, i requires 0 <= i < |events| => Key(agent, events[i]))
  }

  lemma NewKeySnoc(ks: seq<string>, key: string, seen: set<string>)
    ensures |C.FirstSeen(ks + [key], seen)| == |C.FirstSeen(ks, seen)| + if key in seen + C.ToSet(ks) then 0 else 1
    ensures C.ToSet(ks + [key]) == C.ToSet(ks) + {key}
  {
    C.FirstSeenConcat(ks, [key], seen);
    assert C.FirstSeen([], seen + C.ToSet(ks) + {key}) == [];
    assert [key][1..] == [];
  }

  /** The mock accepts the distinct keys that it does not have. */
  lemma {:induction false} MockCount(s: State, agent: string, events: seq<C.Event>)
    ensures var s', ks := InsertAll(s, agent, events), KeysTo(agent, events);
            && |s'.accepted| == |s.accepted| + |C.FirstSeen(ks, s.keys)|
            && s'.keys == s.keys + C.ToSet(ks)
    decreases |events|
  {
    if events == [] {
      assert KeysTo(agent, events) == [];
    } else {
      var init, e := events[..|events| - 1], events[|events| - 1];
      MockCount(s, agent, init);
      assert KeysTo(agent, events) == KeysTo(agent, init) + [Key(agent, e)];
      NewKeySnoc(KeysTo(agent, init), Key(agent, e), s.keys);
    }
  }

  /** The entry was made for an event of the request. */
  predicate EntryFrom(a: AcceptedEvent, r: C.Request) {
    exists e :: e in r.events && a.key == Key(r.agent, e) && a.receivedAt == e.receivedAt
                && a.eventId == if !e.parseError && e.id.TextId? then e.id.text else ""
  }

  lemma {:induction false} EntriesFrom(s: State, r: C.Request, n: nat)
    requires n <= |r.events|
    ensures var s' := InsertAll(s, r.agent, r.events[..n]);
            && s.accepted <= s'.accepted
            && forall k :: |s.accepted| <= k < |s'.accepted| ==> EntryFrom(s'.accepted[k], r)
  {
    hide Key;
    if n > 0 {
      EntriesFrom(s, r, n - 1);
      assert r.events[..n][..n - 1] == r.events[..n - 1] && r.events[n - 1] in r.events;
    }
  }

  /**
   More than 10000 events are refused, a known batch id gives duplicates only, and any other request adds
   its id and one entry for each of its keys that is new, made from an event of it.
   */
  lemma HandledExactly(s: State, r: C.Request)
    ensures |r.events| > 10000 ==> Handled(s, r) == s && ReplyTo(s, r).TooLarge?
    ensures |r.events| <= 10000 && r.batch in s.batches ==>
              Handled(s, r) == s && ReplyTo(s, r) == Counted(|r.events|, 0, |r.events|)
    ensures |r.events| <= 10000 && r.batch !in s.batches ==>
              var s', fresh' := Handled(s, r), C.FirstSeen(KeysTo(r.agent, r.events), s.keys);
              && s'.batches == s.batches + {r.batch} && s'.keys == s.keys + C.ToSet(KeysTo(r.agent, r.events))
              && s.accepted <= s'.accepted && |s'.accepted| == |s.accepted| + |fresh'|
              && |fresh'| <= |r.events|
              && ReplyTo(s, r) == Counted(|r.events|, |fresh'|, |r.events| - |fresh'|)
              && forall k :: |s.accepted| <= k < |s'.accepted| ==> EntryFrom(s'.accepted[k], r)
  {
    hide InsertAll, Key, EntryFrom;
    if |r.events| <= 10000 && r.batch !in s.batches {
      var s1 := s.(batches := s.batches + {r.batch});
      MockCount(s1, r.agent, r.events);
      EntriesFrom(s1, r, |r.events|);
      InsertAllGrows(s1, r.agent, r.events);
      assert r.events[..|r.events|] == r.events;
    }
  }

  /** How many distinct new keys a request has, to the one and to the other; none if its batch id is known. */
  function NewToMock(s: State, r: C.Request): nat {
    if r.batch in s.batches then 0 else |C.FirstSeen(KeysTo(r.agent, r.events), s.keys)|
  }

  function NewToStore(db: C.Db, r: C.Request): nat {
    if C.Seen(db, r) then 0
    else |C.FirstSeen(C.KeysOf(r.events), C.ToSet(C.Keys(db.rows, C.Uuid(r.agent))))|
  }

  /**
   In any two states and for any request, event ids of any kind included, the answers are the same exactly
   if the request has as many new distinct keys for the one as for the other.
   */
  lemma SameReplyExactly(s: State, db: C.Db, r: C.Request)
    requires |r.events| <= MAX_EVENTS
    ensures ReplyTo(s, r) == StoreReply(db, r) <==> NewToMock(s, r) == NewToStore(db, r)
  {
    MockCount(s.(batches := s.batches + {r.batch}), r.agent, r.events);
    C.StoreCount(db.rows, C.Uuid(r.agent), r.batch, r.events);
  }

  predicate AllKnown(rows: seq<C.Row>, agent: string, events: seq<C.Event>) {
    forall e :: e in events ==> C.Known(rows, agent, C.EventKey(e))
  }

  lemma NoneNew(rows: seq<C.Row>, agent: string, batch: string, events: seq<C.Event>)
    ensures |C.InsertAll(rows, agent, batch, events)| == |rows| <==> AllKnown(rows, agent, events)
    ensures AllKnown(rows, agent, events) ==> C.InsertAll(rows, agent, batch, events) == rows
  {
    C.InsertAllGrows(rows, agent, batch, events);
    if AllKnown(rows, agent, events) {
      C.InsertKnown(rows, agent, batch, events);
    }
  }

  /** The batch id is known to both or to neither, or there is nothing new in the batch. */
  predicate BatchFit(s: State, db: C.Db, r: C.Request) {
    (r.batch in s.batches <==> C.Seen(db, r)) || AllKnown(db.rows, r.agent, r.events)
  }

  /** With the same events on both sides, a regular request gets the same answer exactly if its batch id fits. */
  lemma SharedBatchExactly(s: State, db: C.Db, r: C.Request)
    requires SameEvents(s, db.rows) && RegularRequest(r)
    ensures ReplyTo(s, r) == StoreReply(db, r) <==> BatchFit(s, db, r)
    ensures BatchFit(s, db, r) ==> SameEvents(Handled(s, r), C.Saved(db, r).rows)
  {
    hide InsertAll, C.InsertAll, RegularRequest, SameEvents, AllKnown;
    var s' := s.(batches := s.batches + {r.batch});
    RegularParts(r);
    SameWithBatch(s, s', db.rows);
    InsertAllSame(s', db.rows, r.agent, r.batch, r.events);
    SameLength(s, db.rows);
    SameLength(InsertAll(s', r.agent, r.events), C.InsertAll(db.rows, r.agent, r.batch, r.events));
    NoneNew(db.rows, r.agent, r.batch, r.events);
  }

  lemma RegularParts(r: C.Request)
    requires RegularRequest(r)
    ensures C.Uuid(r.agent) == r.agent && |r.agent| == 36 && |r.events| <= MAX_EVENTS
    ensures forall e :: e in r.events ==> Regular(e)
  {
  }

  lemma SameWithBatch(s: State, s': State, rows: seq<C.Row>)
    requires SameEvents(s, rows) && s'.keys == s.keys && s'.accepted == s.accepted
    ensures SameEvents(s', rows)
  {
  }

  lemma SameLength(s: State, rows: seq<C.Row>)
    requires SameEvents(s, rows)
    ensures |s.accepted| == |rows|
  {
  }

  predicate BatchesFit(rs: seq<C.Request>) {
    rs == []
    || (var init := rs[..|rs| - 1];
        BatchesFit(init) && BatchFit(HandledAll(EMPTY, init), C.SavedAll(C.EMPTY_DB, init), rs[|rs| - 1]))
  }

  /** A whole sequence of regular requests gets the same answers exactly if every batch id fits when it comes. */
  lemma {:induction false} SameRepliesExactly(rs: seq<C.Request>)
    requires forall r :: r in rs ==> RegularRequest(r)
    ensures Replies(EMPTY, rs) == StoreReplies(C.EMPTY_DB, rs) <==> BatchesFit(rs)
    ensures BatchesFit(rs) ==> SameEvents(HandledAll(EMPTY, rs), C.SavedAll(C.EMPTY_DB, rs).rows)
    ensures |Replies(EMPTY, rs)| == |StoreReplies(C.EMPTY_DB, rs)|
  {
    hide SameEvents, RegularRequest, BatchFit, ReplyTo, StoreReply, Handled, C.Saved;
    if rs == [] {
      NothingYet();
      EmptySame();
    } else {
      var init, r := rs[..|rs| - 1], rs[|rs| - 1];
      SameRepliesExactly(init);
      var s, db := HandledAll(EMPTY, init), C.SavedAll(C.EMPTY_DB, init);
      if BatchesFit(init) {
        SharedBatchExactly(s, db, r);
      }
      SplitSame(Replies(EMPTY, init), [ReplyTo(s, r)], StoreReplies(C.EMPTY_DB, init), [StoreReply(db, r)]);
    }
  }

  lemma EmptySame()
    ensures SameEvents(EMPTY, C.EMPTY_DB.rows)
  {
  }

  // ---- where they differ ----

  /** An event that was sent with a number as its id, and sent again later with the same number. */
  lemma NumberIdsDiffer(agent: string, batch: string, printed: string, e: C.Event, f: C.Event)
    requires |agent| == 36 && C.Uuid(agent) == agent && printed != ""
    requires e.id == f.id == C.OtherId(printed) && !e.parseError && !f.parseError
    requires |e.digest| == |f.digest| && e.receivedAt != f.receivedAt
    ensures var r := C.Request(agent, batch, [e, f]);
            ReplyTo(EMPTY, r) == Counted(2, 2, 0) && StoreReplies(C.EMPTY_DB, [r]) == [Counted(2, 1, 1)]
  {
    var r := C.Request(agent, batch, [e, f]);
    KeyIsTail(agent, e);
    KeyIsTail(agent, f);
    SplitSame(agent, MockTail(e), agent, MockTail(f));
    SameFallback("|", "|", e, f);
    assert [e, f][..1] == [e] && [e][..0] == [] && [r][..0] == [];
    var s := EMPTY.(batches := EMPTY.batches + {batch});
    assert InsertAll(s, agent, [e]) == Insert(InsertAll(s, agent, []), agent, e);
    assert InsertAll(s, agent, [e, f]) == Insert(InsertAll(s, agent, [e]), agent, f);
    var row := C.Row(agent, batch, C.EventKey(e), e);
    assert C.InsertAll([], agent, batch, [e]) == C.Insert(C.InsertAll([], agent, batch, []), row) == [row];
    assert row in [row] && C.Known([row], agent, C.EventKey(f));
    assert C.InsertAll([], agent, batch, [e, f]) == [row];
    assert C.SavedAll(C.EMPTY_DB, []) == C.EMPTY_DB;
    assert StoreReplies(C.EMPTY_DB, []) == [];
  }

  /** Two agents that use the same batch id: the mock takes the second request for a replay of the first. */
  lemma SharedBatchDiffers(agent: string, other: string, batch: string, e: C.Event)
    requires C.Uuid(agent) == agent && C.Uuid(other) == other && agent != other
    ensures var first, second := C.Request(agent, batch, [e]), C.Request(other, batch, [e]);
            && ReplyTo(Handled(EMPTY, first), second) == Counted(1, 0, 1)
            && StoreReply(C.Saved(C.EMPTY_DB, first), second) == Counted(1, 1, 0)
  {
    var first, second := C.Request(agent, batch, [e]), C.Request(other, batch, [e]);
    InsertAllGrows(EMPTY.(batches := EMPTY.batches + {batch}), agent, [e]);
    assert [e][..0] == [];
    var row := C.Row(agent, batch, C.EventKey(e), e);
    assert C.InsertAll([], agent, batch, [e]) == C.Insert(C.InsertAll([], agent, batch, []), row) == [row];
    assert C.InsertAll([row], other, batch, [e]) ==
           C.Insert(C.InsertAll([row], other, batch, []), C.Row(other, batch, C.EventKey(e), e));
  }
}
