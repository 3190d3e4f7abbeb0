/** What one step keeps of the promises: conservation, no loss, order, and the saved offset. */
module PipelineTheorems {
  import opened SpoolModel
  import opened Pipeline
  import opened PipelineInvariant
  import C = Collector

  function InFlight(w: World): seq<nat> {
    if w.agent.Up? && w.agent.p.fwd.Delivering? then w.agent.p.fwd.ids else []
  }

  /** Where reading goes on: in memory while the agent runs, from the offset file after a kill. */
  function Base(w: World): Position {
    if w.agent.Up? then w.agent.p.committed else w.disk
  }

  /** How many lines of the last batch are settled and not yet counted as forwarded or dead-lettered. */
  function Settling(w: World): nat {
    if w.agent.Up? && (w.agent.p.fwd.Persisting? || w.agent.p.fwd.Counting?) then w.agent.p.fwd.n else 0
  }

  /** What a Cleanup under way has taken and not yet reported. */
  function Uncounted(w: World): seq<nat> {
    if w.agent.Up? then w.agent.p.uncounted else []
  }

  ghost predicate Done(w: World, i: nat) {
    i in w.served || i in w.dead || i in w.dropped
  }

  /** Steps that move no line and no position that counts. */
  predicate Quiet(a: Action) {
    match a
    case Append(_, _, _) => false
    case FinishRead(_) => false
    case Accept => false
    case Reject => false
    case Remove(_) => false
    case Report => false
    case CountSettled => false
    case Compress(_) => false
    case Kill => false
    case Start(_) => false
    case _ => true
  }

  lemma QuietStep(w: World, a: Action)
    requires Enabled(w, a) && Quiet(a)
    ensures var w' := Apply(w, a);
            && w'.me == w.me && w'.history == w.history && w'.dir == w.dir && w'.agent.Up? == w.agent.Up?
            && w'.dead == w.dead && w'.dropped == w.dropped && w'.taken == w.taken && w.served <= w'.served
            && Uncounted(w') == Uncounted(w) && Settling(w') == Settling(w) && (a.Persist? || w'.disk == w.disk)
            && InFlight(w') == InFlight(w) && Base(w') == Base(w)
            && (w.agent.Up? ==> w'.agent.p.counters == w.agent.p.counters && w'.agent.p.inflight == w.agent.p.inflight)
    ensures !a.Serve? && !a.ServeOther? ==> Apply(w, a).served == w.served && Apply(w, a).db == w.db
    ensures !a.SendPost? ==> Apply(w, a).posts == w.posts
  {
  }

  // ---- the network ----

  /** Every post is a batch of lines; a batch the collector has seen is one whose lines it has kept. */
  ghost predicate NetOk(w: World) {
    && (forall post :: post in w.posts ==>
          && post.ids != [] && Increasing(post.ids)
          && (forall i: nat :: i in post.ids ==> i < |w.history|)
          && ((w.me, post.batch) in w.db.batches ==> C.ToSet(post.ids) <= w.served))
    && (forall p1, p2 :: p1 in w.posts && p2 in w.posts && p1.batch == p2.batch ==> p1 == p2)
    && (forall i: nat :: i in w.served ==> i < |w.history| && C.Known(w.db.rows, w.me, C.EventKey(w.history[i])))
    && (w.agent.Up? && w.agent.p.fwd.Delivering? ==> BatchOk(w, w.agent.p.fwd.batch, w.agent.p.fwd.ids))
  }

  ghost predicate BatchOk(w: World, batch: string, ids: seq<nat>) {
    && ((w.me, batch) in w.db.batches ==> C.ToSet(ids) <= w.served)
    && (forall post :: post in w.posts && post.batch == batch ==> post.ids == ids)
  }

  lemma ServeNet(w: World, post: Post)
    requires Structure(w) && NetOk(w) && post in w.posts
    ensures NetOk(Apply(w, Serve(post)))
  {
    hide Rest, FilesOk, ProcessOk, C.InsertAll;
    var r := RequestOf(w, post);
    var w' := Apply(w, Serve(post));
    C.InsertAllGrows(w.db.rows, w.me, r.batch, r.events);
    forall i: nat | i in w'.served ensures i < |w.history| && C.Known(w'.db.rows, w.me, C.EventKey(w.history[i])) {
      if i in w.served {
        C.KnownGrows(w.db.rows, w'.db.rows, w.me, C.EventKey(w.history[i]));
      } else {
        var k :| 0 <= k < |post.ids| && post.ids[k] == i;
        assert r.events[k] == w.history[i] && r.events[k] in r.events;
      }
    }
  }

  lemma ServeOtherNet(w: World, r: C.Request)
    requires Structure(w) && NetOk(w) && C.Uuid(r.agent) != w.me
    ensures NetOk(Apply(w, ServeOther(r)))
  {
    var w' := Apply(w, ServeOther(r));
    C.InsertAllGrows(w.db.rows, C.Uuid(r.agent), r.batch, r.events);
    forall i: nat | i in w.served ensures C.Known(w'.db.rows, w.me, C.EventKey(w.history[i])) {
      C.KnownGrows(w.db.rows, w'.db.rows, w.me, C.EventKey(w.history[i]));
    }
  }

  lemma QuietNet(w: World, a: Action)
    requires NetOk(w) && Enabled(w, a) && Quiet(a) && !a.Serve? && !a.ServeOther? && !a.SendPost?
    ensures NetOk(Apply(w, a))
  {
    QuietStep(w, a);
    var w' := Apply(w, a);
    assert w'.agent.Up? && w'.agent.p.fwd.Delivering? ==> w'.agent.p.fwd == w.agent.p.fwd;
  }

  lemma SendNet(w: World)
    requires NetOk(w) && Enabled(w, SendPost) && DeliveryOk(w, w.agent.p)
    ensures NetOk(Apply(w, SendPost))
  {
    var w' := Apply(w, SendPost);
    var sent := Post(w.agent.p.fwd.batch, w.agent.p.fwd.ids);
    assert w'.posts == w.posts + {sent};
    assert BatchOk(w, sent.batch, sent.ids);
    forall p1, p2 | p1 in w'.posts && p2 in w'.posts && p1.batch == p2.batch ensures p1 == p2 {
    }
  }

  lemma AppendNet(w: World, day: nat, e: C.Event, result: WriteResult)
    requires NetOk(w) && Enabled(w, Append(day, e, result))
    ensures NetOk(Apply(w, Append(day, e, result)))
  {
    assert forall i: nat :: i < |w.history| ==> (w.history + [e])[i] == w.history[i];
  }

  lemma RestNet(w: World, a: Action)
    requires NetOk(w) && Enabled(w, a) && !Quiet(a) && !a.Append?
    ensures NetOk(Apply(w, a))
  {
    hide Rest, PlainDays, Search, LastPlain, C.Saved, C.Known;
  }

  lemma NetStep(w: World, a: Action)
    requires Structure(w) && NetOk(w) && Enabled(w, a)
    ensures NetOk(Apply(w, a))
  {
    if a.Serve? {
      ServeNet(w, a.post);
    } else if a.ServeOther? {
      ServeOtherNet(w, a.r);
    } else if a.SendPost? {
      SendNet(w);
    } else if Quiet(a) {
      QuietNet(w, a);
    } else if a.Append? {
      AppendNet(w, a.day, a.event, a.result);
    } else {
      RestNet(w, a);
    }
  }

  // ---- conservation ----

  /** Lines left at start-up plus lines appended are all somewhere, each once. */
  ghost predicate Balanced(w: World) {
    w.agent.Up? ==>
      var p := w.agent.p;
      p.counters.left + p.counters.appended ==
      p.counters.forwarded + p.counters.deadLettered + p.counters.dropped + |p.uncounted|
        + Settling(w) + |InFlight(w)| + |Rest(w.dir, p.inflight)|
  }

  lemma LaterIsInflight(p: Process)
    requires p.committed.AtMost(p.inflight)
    ensures Later(p) == p.inflight
  {
  }

  lemma BalanceAppend(w: World, day: nat, e: C.Event, result: WriteResult)
    requires Structure(w) && Balanced(w) && Enabled(w, Append(day, e, result))
    ensures Balanced(Apply(w, Append(day, e, result)))
  {
    AppendAdds(w, w.agent.p, day, e, result, w.agent.p.inflight);
  }

  lemma BalanceGone(w: World, a: Action)
    requires Structure(w) && Balanced(w) && Enabled(w, a) && (a.Remove? || a.Compress?)
    ensures Balanced(Apply(w, a))
  {
    hide Rest, PlainDays, Search, LastPlain;
    var p := w.agent.p;
    LaterIsInflight(p);
    if a.Remove? {
      WithoutRest(w, a.k, w.dir[..a.k] + w.dir[a.k + 1..], p.inflight);
    } else {
      WithoutRest(w, a.k, w.dir[a.k := w.dir[a.k].(gz := true)], p.inflight);
    }
  }

  lemma BalanceFinish(w: World, batch: string)
    requires Balanced(w) && Enabled(w, FinishRead(batch))
    requires ReaderOk(w, w.agent.p) && w.agent.p.inflight == w.agent.p.committed
    ensures Balanced(Apply(w, FinishRead(batch)))
  {
    Lengths(w.agent.p.fwd.got, Rest(w.dir, w.agent.p.fwd.pos), Rest(w.dir, w.agent.p.committed));
  }

  lemma Lengths(a: seq<nat>, b: seq<nat>, c: seq<nat>)
    ensures a + b == c ==> |a| + |b| == |c|
  {
  }

  lemma BalanceSettle(w: World, a: Action)
    requires Structure(w) && Balanced(w) && Enabled(w, a)
    requires a.Accept? || a.Reject? || a.CountSettled? || a.Report?
    ensures Balanced(Apply(w, a))
  {
    hide Rest, PlainDays, Search, LastPlain, FilesOk, C.Saved, ReaderOk, JanitorOk, WriterOk;
  }

  lemma BalanceEnds(w: World, a: Action)
    requires Enabled(w, a) && (a.Start? || a.Kill?)
    ensures Balanced(Apply(w, a))
  {
    hide Rest;
  }

  lemma BalanceStep(w: World, a: Action)
    requires Structure(w) && Balanced(w) && Enabled(w, a)
    ensures Balanced(Apply(w, a))
  {
    if Quiet(a) {
      QuietStep(w, a);
    } else if a.Append? {
      BalanceAppend(w, a.day, a.event, a.result);
    } else if a.FinishRead? {
      BalanceFinish(w, a.batch);
    } else if a.Remove? || a.Compress? {
      BalanceGone(w, a);
    } else if a.Start? || a.Kill? {
      BalanceEnds(w, a);
    } else {
      BalanceSettle(w, a);
    }
  }

  /** Every datagram received is a line in the spool or a write error, or both if its fsync failed. */
  predicate Tallies(w: World) {
    w.agent.Up? ==>
      var c := w.agent.p.counters;
      c.received + c.unsynced == c.appended + c.writeErrors
  }

  lemma TallyStep(w: World, a: Action)
    requires Tallies(w) && Enabled(w, a)
    ensures Tallies(Apply(w, a))
  {
    hide Rest, PlainDays, Search, LastPlain, C.Saved;
    if Quiet(a) {
      QuietStep(w, a);
    }
  }

  // ---- no loss ----

  /** Settled, or unread, or in the batch in flight, or in the count of the Cleanup under way. */
  ghost predicate Kept(w: World, i: nat) {
    Done(w, i) || i in Rest(w.dir, Base(w)) || i in InFlight(w) || i in Uncounted(w)
  }

  /** Every line is settled, or will be read again, or is in memory to be settled or counted. */
  ghost predicate Safe(w: World) {
    forall i: nat :: i < |w.history| ==> Kept(w, i)
  }

  /** A line that is before the saved offset but still in a file is settled. */
  ghost predicate SettledBelow(w: World) {
    forall i: nat :: i in Rest(w.dir, START) ==> i in Rest(w.dir, w.disk) || Done(w, i)
  }

  /** A line in memory alone: in the batch in flight or in Cleanup's count, but settled nowhere and in no file. */
  ghost predicate InMemoryOnly(w: World, i: nat) {
    (i in InFlight(w) || i in Uncounted(w)) && !Done(w, i) && i !in Rest(w.dir, START)
  }

  /**
   What a kill must not interrupt: the delivery of a line whose file Cleanup has removed, and a Cleanup
   that has removed unread lines and not yet reported them.
   */
  ghost predicate KillFit(w: World) {
    forall i: nat :: !InMemoryOnly(w, i)
  }

  /** What Cleanup counts is in no file any more. */
  ghost predicate UncountedGone(w: World) {
    forall i: nat :: i in Uncounted(w) ==> i < |w.history| && i !in Rest(w.dir, START) && i in w.taken
  }

  /** Cleanup: what it takes from the unread lines goes into its count, the rest of the file is in flight or settled. */
  lemma RemoveSafe(w: World, k: nat)
    requires Structure(w) && Safe(w) && Enabled(w, Remove(k))
    ensures Safe(Apply(w, Remove(k)))
  {
    var p := w.agent.p;
    var dir := w.dir[..k] + w.dir[k + 1..];
    var w' := Apply(w, Remove(k));
    LaterIsInflight(p);
    forall i: nat | i < |w.history| ensures Kept(w', i) {
      assert Kept(w, i);
      WithoutMember(w, k, dir, p.committed, i);
      RestWithout(w.dir, k, p.inflight, i);
      assert i in Part(w.dir[k], p.inflight) ==> i in Uncounted(w');
      assert i in Rest(w.dir, p.committed) ==> i in InFlight(w) || i in Rest(w.dir, p.inflight);
    }
  }

  lemma FitKill(w: World)
    requires Safe(w) && SettledBelow(w) && w.agent.Up? && KillFit(w)
    ensures Safe(Apply(w, Kill))
  {
    hide Rest;
    var w' := Apply(w, Kill);
    forall i: nat | i < |w.history| ensures Kept(w', i) {
      assert Kept(w, i) && !InMemoryOnly(w, i);
      if i in Rest(w.dir, w.agent.p.committed) {
        RestInAll(w.dir, w.agent.p.committed, i);
      }
    }
  }

  lemma UnfitKill(w: World, i: nat)
    requires Structure(w) && UncountedGone(w) && w.agent.Up? && InMemoryOnly(w, i)
    ensures i < |w.history| && !Kept(Apply(w, Kill), i)
  {
    hide Rest, Structure;
    InMemoryIsLine(w, i);
    if i in Rest(w.dir, w.disk) {
      RestInAll(w.dir, w.disk, i);
    }
  }

  /** A kill loses nothing if, and only if, no line is in memory alone. */
  lemma KillSafe(w: World)
    requires Structure(w) && Safe(w) && SettledBelow(w) && UncountedGone(w) && w.agent.Up?
    ensures Safe(Apply(w, Kill)) <==> KillFit(w)
  {
    hide Structure, Kept, InMemoryOnly, SettledBelow, UncountedGone;
    if KillFit(w) {
      FitKill(w);
    } else {
      var i: nat :| InMemoryOnly(w, i);
      UnfitKill(w, i);
    }
  }

  lemma InMemoryIsLine(w: World, i: nat)
    requires Structure(w) && UncountedGone(w) && InMemoryOnly(w, i)
    ensures i < |w.history|
  {
  }

  lemma SettleSafe(w: World, a: Action)
    requires Structure(w) && NetOk(w) && Safe(w) && Enabled(w, a) && (a.Accept? || a.Reject?)
    ensures Safe(Apply(w, a))
  {
    var w' := Apply(w, a);
    forall i: nat | i < |w.history| ensures Kept(w', i) {
      assert Kept(w, i);
      assert i in InFlight(w) ==> i in C.ToSet(w.agent.p.fwd.ids);
    }
  }

  lemma AppendSafe(w: World, day: nat, e: C.Event, result: WriteResult)
    requires Structure(w) && Safe(w) && Enabled(w, Append(day, e, result))
    ensures Safe(Apply(w, Append(day, e, result)))
  {
    var w' := Apply(w, Append(day, e, result));
    AppendAdds(w, w.agent.p, day, e, result, w.agent.p.committed);
    forall i: nat | i < |w'.history| ensures Kept(w', i) {
      assert i < |w.history| ==> Kept(w, i);
      assert i == |w.history| ==> i in NewLines(w, result);
    }
  }

  /** A step after which every unread line is still unread and nothing in flight is given up. */
  lemma SafeCarries(w: World, w': World)
    requires Safe(w) && w'.history == w.history
    requires w.served <= w'.served && w.dead <= w'.dead && w.dropped <= w'.dropped
    requires forall i: nat :: i in Rest(w.dir, Base(w)) ==> i in Rest(w'.dir, Base(w'))
    requires forall i: nat :: i in InFlight(w) ==> i in InFlight(w')
    requires Uncounted(w) == Uncounted(w')
    ensures Safe(w')
  {
    forall i: nat | i < |w.history| ensures Kept(w', i) {
      assert Kept(w, i);
    }
  }

  /** What a restart reads from, either way, has all that the saved offset has before it. */
  lemma StartSafe(w: World, readable: bool)
    requires Safe(w) && w.agent.Down?
    ensures Safe(DoStart(w, readable))
  {
    forall i: nat | i in Rest(w.dir, w.disk) ensures i in Rest(w.dir, START) {
      RestInAll(w.dir, w.disk, i);
    }
    SafeCarries(w, DoStart(w, readable));
  }

  lemma ReportSafe(w: World)
    requires Safe(w) && Enabled(w, Report)
    ensures Safe(Apply(w, Report))
  {
    var w' := Apply(w, Report);
    forall i: nat | i < |w.history| ensures Kept(w', i) {
      assert Kept(w, i);
      assert i in Uncounted(w) ==> i in C.ToSet(w.agent.p.uncounted);
    }
  }

  lemma SafeStep(w: World, a: Action)
    requires Structure(w) && NetOk(w) && Safe(w) && SettledBelow(w) && UncountedGone(w) && Enabled(w, a)
    requires a.Kill? ==> KillFit(w)
    ensures Safe(Apply(w, a))
  {
    hide Rest, PlainDays, Search, LastPlain, C.Saved, FilesOk;
    if Quiet(a) {
      QuietStep(w, a);
      SafeCarries(w, Apply(w, a));
    } else {
      match a
      case Append(day, e, result) => AppendSafe(w, day, e, result);
      case Accept => SettleSafe(w, a);
      case Reject => SettleSafe(w, a);
      case Remove(k) => RemoveSafe(w, k);
      case Report => ReportSafe(w);
      case Compress(k) => CompressKeeps(w, w.agent.p, k); SafeCarries(w, Apply(w, a));
      case Kill => KillSafe(w);
      case CountSettled => SafeCarries(w, Apply(w, a));
      case FinishRead(_) => SafeCarries(w, Apply(w, a));
      case Start(readable) => StartSafe(w, readable);
    }
  }

  // ---- the saved offset ----

  lemma BelowCarries(w: World, w': World)
    requires SettledBelow(w) && w'.disk == w.disk && forall i: nat :: Done(w, i) ==> Done(w', i)
    requires forall i: nat :: i in Rest(w'.dir, START) && i in Rest(w.dir, w.disk) ==> i in Rest(w'.dir, w.disk)
    requires forall i: nat :: i in Rest(w'.dir, START) ==> i in Rest(w.dir, START) || i in Rest(w'.dir, w.disk)
    ensures SettledBelow(w')
  {
    forall i: nat | i in Rest(w'.dir, START) ensures i in Rest(w'.dir, w'.disk) || Done(w', i) {
      assert i in Rest(w.dir, START) ==> i in Rest(w.dir, w.disk) || Done(w, i);
    }
  }

  lemma AppendBelow(w: World, day: nat, e: C.Event, result: WriteResult)
    requires Structure(w) && SettledBelow(w) && Enabled(w, Append(day, e, result))
    ensures SettledBelow(Apply(w, Append(day, e, result)))
  {
    hide Rest, PlainDays, Search, LastPlain, NewLines;
    AppendAdds(w, w.agent.p, day, e, result, w.disk);
    AppendAdds(w, w.agent.p, day, e, result, START);
    AppendRest(w, w.agent.p, day, e, result);
    BelowCarries(w, Apply(w, Append(day, e, result)));
  }

  lemma AppendRest(w: World, p: Process, day: nat, e: C.Event, result: WriteResult)
    requires w.agent == Up(p)
    ensures var w' := DoAppend(w, p, day, e, result);
            && w'.disk == w.disk && w'.served == w.served && w'.dead == w.dead && w'.dropped == w.dropped
            && w'.taken == w.taken && Uncounted(w') == Uncounted(w)
  {
  }

  lemma GoneBelow(w: World, a: Action)
    requires Structure(w) && SettledBelow(w) && Enabled(w, a) && (a.Remove? || a.Compress?)
    ensures SettledBelow(Apply(w, a))
  {
    hide Rest, PlainDays, Search, LastPlain;
    var w' := Apply(w, a);
    forall i: nat
      ensures i in Rest(w'.dir, START) <==> i in Rest(w.dir, START) && i !in Part(w.dir[a.k], START)
      ensures i in Rest(w'.dir, w.disk) <==> i in Rest(w.dir, w.disk) && i !in Part(w.dir[a.k], START)
    {
      WithoutMember(w, a.k, w'.dir, START, i);
      WithoutMember(w, a.k, w'.dir, w.disk, i);
    }
    BelowCarries(w, w');
  }

  /** Once the offset file is written, what lies before it is settled: it was so in memory. */
  lemma PersistBelow(w: World, ok: bool)
    requires Structure(w) && Safe(w) && SettledBelow(w) && UncountedGone(w) && Enabled(w, Persist(ok))
    ensures SettledBelow(Apply(w, Persist(ok)))
  {
    hide Rest, PlainDays, Search, LastPlain, ProcessOk;
    var w' := Apply(w, Persist(ok));
    forall i: nat | i in Rest(w.dir, START) ensures i in Rest(w.dir, w'.disk) || Done(w, i) {
      assert i < |w.history| && Kept(w, i);
    }
  }

  lemma RemoveGone(w: World, k: nat)
    requires Structure(w) && UncountedGone(w) && Enabled(w, Remove(k))
    ensures UncountedGone(Apply(w, Remove(k)))
  {
    hide Rest, PlainDays, Search, LastPlain;
    var p, w' := w.agent.p, Apply(w, Remove(k));
    var gone := Part(w.dir[k], Later(p));
    forall i: nat | i in Uncounted(w') ensures i < |w.history| && i !in Rest(w'.dir, START) && i in w'.taken {
      WithoutMember(w, k, w'.dir, START, i);
      if i in gone {
        RestMember(w.dir, Later(p), i);
        RestInAll(w.dir, Later(p), i);
        PartInWhole(w.dir[k], Later(p), i);
        assert i in C.ToSet(gone);
      }
    }
  }

  lemma PartInWhole(f: File<nat>, p: Position, i: nat)
    requires i in Part(f, p)
    ensures i in Part(f, START)
  {
  }

  lemma GoneStep(w: World, a: Action)
    requires Structure(w) && UncountedGone(w) && Enabled(w, a)
    ensures UncountedGone(Apply(w, a))
  {
    hide Rest, PlainDays, Search, LastPlain, FilesOk, ProcessOk;
    if Quiet(a) {
      QuietStep(w, a);
    } else if a.Append? {
      AppendGone(w, a.day, a.event, a.result);
    } else if a.Remove? {
      RemoveGone(w, a.k);
    } else if a.Compress? {
      CompressGone(w, a.k);
    } else {
      OtherGone(w, a);
    }
  }

  lemma OtherGone(w: World, a: Action)
    requires UncountedGone(w) && Enabled(w, a) && !Quiet(a) && !a.Append? && !a.Remove? && !a.Compress?
    ensures UncountedGone(Apply(w, a))
  {
    hide Rest, PlainDays, Search, LastPlain;
    var w' := Apply(w, a);
    assert w'.dir == w.dir && w'.history == w.history && w'.taken == w.taken;
    assert Uncounted(w') == Uncounted(w) || Uncounted(w') == [];
  }

  lemma AppendGone(w: World, day: nat, e: C.Event, result: WriteResult)
    requires Structure(w) && UncountedGone(w) && Enabled(w, Append(day, e, result))
    ensures UncountedGone(Apply(w, Append(day, e, result)))
  {
    hide Rest, PlainDays, Search, LastPlain;
    AppendAdds(w, w.agent.p, day, e, result, START);
    AppendRest(w, w.agent.p, day, e, result);
    AppendMemory(w, w.agent.p, day, e, result);
  }

  lemma CompressGone(w: World, k: nat)
    requires Structure(w) && UncountedGone(w) && Enabled(w, Compress(k))
    ensures UncountedGone(Apply(w, Compress(k)))
  {
    hide Rest, PlainDays, Search, LastPlain;
    var w' := Apply(w, Compress(k));
    assert Uncounted(w') == Uncounted(w) && w'.taken == w.taken;
    forall i: nat | i in Uncounted(w') ensures i < |w.history| && i !in Rest(w'.dir, START) && i in w.taken {
      WithoutMember(w, k, w'.dir, START, i);
    }
  }

  lemma BelowStep(w: World, a: Action)
    requires Structure(w) && Safe(w) && SettledBelow(w) && UncountedGone(w) && NetOk(w) && Enabled(w, a)
    ensures SettledBelow(Apply(w, a))
  {
    hide Rest, PlainDays, Search, LastPlain, FilesOk, ProcessOk, NetOk;
    if a.Persist? {
      PersistBelow(w, a.ok);
    } else if Quiet(a) {
      QuietStep(w, a);
    } else if a.Append? {
      AppendBelow(w, a.day, a.event, a.result);
    } else if a.Remove? || a.Compress? {
      GoneBelow(w, a);
    } else {
      OtherBelow(w, a);
    }
  }

  lemma OtherBelow(w: World, a: Action)
    requires SettledBelow(w) && NetOk(w) && Enabled(w, a) && !Quiet(a) && !a.Append? && !a.Remove? && !a.Compress?
    ensures SettledBelow(Apply(w, a))
  {
    hide Rest, PlainDays, Search, LastPlain, Later, ReadyToDeliver;
  }

  // ---- order ----

  /** No line before the last one of `ids` has been passed over, unless Cleanup has taken it. */
  ghost predicate Gapless(w: World, ids: seq<nat>) {
    ids != [] ==> forall j: nat :: j < ids[|ids| - 1] ==> j in ids || Done(w, j) || j in w.taken
  }

  ghost predicate AllGapless(w: World) {
    Gapless(w, InFlight(w)) && forall post :: post in w.posts ==> Gapless(w, post.ids)
  }

  /** The batch that FinishRead hands over is the head of all that is unsettled. */
  lemma FinishGapless(w: World, p: Process)
    requires FilesOk(w) && Safe(w) && UncountedGone(w) && w.agent == Up(p) && p.fwd.Reading? && p.fwd.got != []
    requires p.fwd.got + Rest(w.dir, p.fwd.pos) == Rest(w.dir, p.committed)
    ensures Gapless(w, p.fwd.got)
  {
    var got, more := p.fwd.got, Rest(w.dir, p.fwd.pos);
    GotBelow(w.dir, p.committed, got, more);
    LastIsLine(w, p.committed, got, more);
    NoneAfterLast(w, got, more);
  }

  lemma GotBelow(dir: seq<File<nat>>, p: Position, got: seq<nat>, more: seq<nat>)
    requires Increasing(Rest(dir, START)) && got != [] && got + more == Rest(dir, p)
    ensures forall j: nat :: j in more ==> got[|got| - 1] < j
  {
    RestIncreasing(dir, p);
    HeadBelow(got, more);
  }

  lemma LastIsLine(w: World, p: Position, got: seq<nat>, more: seq<nat>)
    requires FilesOk(w) && got != [] && got + more == Rest(w.dir, p)
    ensures got[|got| - 1] < |w.history|
  {
    assert got[|got| - 1] == (got + more)[|got| - 1];
    RestInAll(w.dir, p, got[|got| - 1]);
  }

  lemma NoneAfterLast(w: World, got: seq<nat>, more: seq<nat>)
    requires Safe(w) && UncountedGone(w) && w.agent.Up? && !w.agent.p.fwd.Delivering? && got != []
    requires got + more == Rest(w.dir, w.agent.p.committed)
    requires forall k: nat :: k in more ==> got[|got| - 1] < k
    requires got[|got| - 1] < |w.history|
    ensures Gapless(w, got)
  {
    forall j: nat | j < got[|got| - 1] ensures j in got || Done(w, j) || j in w.taken {
      assert Kept(w, j);
      assert j in got + more ==> j in got || j in more;
    }
  }

  lemma HeadBelow(a: seq<nat>, b: seq<nat>)
    requires Increasing(a + b) && a != []
    ensures forall j: nat :: j in b ==> a[|a| - 1] < j
  {
    assert forall k :: 0 <= k < |b| ==> b[k] == (a + b)[|a| + k];
    assert a[|a| - 1] == (a + b)[|a| - 1];
  }

  lemma GaplessCarries(w: World, w': World, ids: seq<nat>)
    requires Gapless(w, ids) && w.served <= w'.served && w.dead <= w'.dead && w.dropped <= w'.dropped
    requires w.taken <= w'.taken
    ensures Gapless(w', ids)
  {
    forall j: nat | ids != [] && j < ids[|ids| - 1] ensures j in ids || Done(w', j) || j in w'.taken {
      assert j in ids || Done(w, j) || j in w.taken;
    }
  }

  lemma Grows(w: World, a: Action)
    requires Enabled(w, a)
    ensures var w' := Apply(w, a);
            && w.served <= w'.served && w.dead <= w'.dead && w.dropped <= w'.dropped && w.posts <= w'.posts
            && w.taken <= w'.taken && w.history <= w'.history && w'.me == w.me
            && (forall post :: post in w'.posts ==> post in w.posts || post.ids == InFlight(w))
            && (InFlight(w') == [] || InFlight(w') == InFlight(w)
                || (a.FinishRead? && ReadyToDeliver(w.agent.p.fwd) && InFlight(w') == w.agent.p.fwd.got))
  {
    if Quiet(a) {
      QuietStep(w, a);
    }
  }

  lemma GaplessStep(w: World, a: Action)
    requires Structure(w) && Safe(w) && UncountedGone(w) && AllGapless(w) && Enabled(w, a)
    ensures AllGapless(Apply(w, a))
  {
    var w' := Apply(w, a);
    Grows(w, a);
    if a.FinishRead? && ReadyToDeliver(w.agent.p.fwd) {
      FinishGapless(w, w.agent.p);
      GaplessCarries(w, w', w.agent.p.fwd.got);
    }
    GaplessCarries(w, w', InFlight(w));
    forall post | post in w'.posts ensures Gapless(w', post.ids) {
      GaplessCarries(w, w', post.ids);
    }
  }

  /** The collector has the first `m` lines, and its rows are their distinct keys in order of first occurrence. */
  ghost predicate Frontier(w: World, m: nat) {
    && m <= |w.history|
    && (forall i: nat :: i in w.served <==> i < m)
    && C.Keys(w.db.rows, w.me) == C.Dedup(C.KeysOf(w.history[..m]))
  }

  ghost predicate Ordered(w: World) {
    w.dead == {} && w.taken == {} ==> exists m: nat :: Frontier(w, m)
  }

  /** What is counted as dropped, and what is about to be, was taken by a removal. */
  ghost predicate CountTaken(w: World) {
    w.dropped <= w.taken && C.ToSet(Uncounted(w)) <= w.taken
  }

  ghost predicate NoneTaken(w: World) {
    w.taken == w.dropped == {}
  }

  lemma CountTakenStep(w: World, a: Action)
    requires CountTaken(w) && Enabled(w, a)
    ensures CountTaken(Apply(w, a))
  {
    hide Rest, PlainDays, Search, LastPlain;
    if Quiet(a) {
      QuietStep(w, a);
    } else if a.Append? {
      AppendRest(w, w.agent.p, a.day, a.event, a.result);
    } else if a.Remove? {
      assert Uncounted(Apply(w, a)) == Uncounted(w) + Part(w.dir[a.k], Later(w.agent.p));
    }
  }

  /** An increasing batch without gaps from `m` on is some lines below `m` and then all up to its last. */
  lemma {:induction false} SplitAt(s: seq<nat>, m: nat) returns (c: nat)
    requires Increasing(s)
    requires s != [] ==> forall j: nat :: m <= j < s[|s| - 1] ==> j in s
    ensures c <= |s|
    ensures forall k :: 0 <= k < c ==> s[k] < m
    ensures forall k :: c <= k < |s| ==> s[k] == m + k - c
    decreases |s|
  {
    if s == [] || s[|s| - 1] < m {
      return |s|;
    }
    var init, last := s[..|s| - 1], s[|s| - 1];
    forall j: nat | m <= j < last ensures j in init {
      LastOrBefore(s, j);
    }
    if init != [] {
      assert init[|init| - 1] < last;
    }
    c := SplitAt(init, m);
    if last > m {
      LastIsPredecessor(init, last);
    }
  }

  lemma LastOrBefore(s: seq<nat>, j: nat)
    requires s != [] && j in s && j != s[|s| - 1]
    ensures j in s[..|s| - 1]
  {
    assert s == s[..|s| - 1] + [s[|s| - 1]];
  }

  lemma LastIsPredecessor(init: seq<nat>, last: nat)
    requires Increasing(init + [last]) && last > 0 && last - 1 in init
    ensures init[|init| - 1] == last - 1
  {
    var k :| 0 <= k < |init| && init[k] == last - 1;
    var s := init + [last];
    assert s[k] == last - 1 && s[|init|] == last && s[|init| - 1] == init[|init| - 1];
  }

  /** The keys of a gapless batch: known ones, and then those of the lines from `m` on. */
  lemma BatchKeys(w: World, ids: seq<nat>, m: nat, c: nat)
    requires Frontier(w, m) && c <= |ids| && (forall i: nat :: i in ids ==> i < |w.history|)
    requires forall k :: 0 <= k < c ==> ids[k] < m
    requires forall k :: c <= k < |ids| ==> ids[k] == m + k - c
    ensures var hi := m + |ids| - c;
            && hi <= |w.history|
            && C.FirstSeen(C.KeysOf(EventsOf(w, ids)), C.ToSet(C.KeysOf(w.history[..m])))
               == C.FirstSeen(C.KeysOf(w.history[m..hi]), C.ToSet(C.KeysOf(w.history[..m])))
  {
    if c < |ids| {
      assert ids[|ids| - 1] in ids;
    }
    var seen := C.ToSet(C.KeysOf(w.history[..m]));
    var low, high := C.KeysOf(EventsOf(w, ids[..c])), C.KeysOf(w.history[m..m + |ids| - c]);
    KeysSplit(w, ids, m, c);
    LowKnown(w, ids[..c], m);
    KnownFirst(low, high, seen);
  }

  lemma LowKnown(w: World, ids: seq<nat>, m: nat)
    requires m <= |w.history| && forall k :: 0 <= k < |ids| ==> ids[k] < m
    ensures C.ToSet(C.KeysOf(EventsOf(w, ids))) <= C.ToSet(C.KeysOf(w.history[..m]))
  {
    var keys := C.KeysOf(EventsOf(w, ids));
    forall k | 0 <= k < |ids| ensures keys[k] in C.KeysOf(w.history[..m]) {
      assert keys[k] == C.KeysOf(w.history[..m])[ids[k]];
    }
  }

  lemma KnownFirst(low: seq<string>, high: seq<string>, seen: set<string>)
    requires C.ToSet(low) <= seen
    ensures C.FirstSeen(low + high, seen) == C.FirstSeen(high, seen)
  {
    C.FirstSeenConcat(low, high, seen);
    C.FirstSeenNothing(low, seen);
    assert seen + C.ToSet(low) == seen;
  }

  lemma KeysSplit(w: World, ids: seq<nat>, m: nat, c: nat)
    requires c <= |ids| && m + |ids| - c <= |w.history|
    requires forall k :: c <= k < |ids| ==> ids[k] == m + k - c
    ensures C.KeysOf(EventsOf(w, ids)) == C.KeysOf(EventsOf(w, ids[..c])) + C.KeysOf(w.history[m..m + |ids| - c])
  {
    var low, high := C.KeysOf(EventsOf(w, ids[..c])), C.KeysOf(w.history[m..m + |ids| - c]);
    forall k | 0 <= k < |ids| ensures C.KeysOf(EventsOf(w, ids))[k] == (low + high)[k] {
    }
  }

  lemma DedupGrows(h: seq<C.Event>, m: nat, hi: nat)
    requires m <= hi <= |h|
    ensures C.Dedup(C.KeysOf(h[..hi])) ==
            C.Dedup(C.KeysOf(h[..m])) + C.FirstSeen(C.KeysOf(h[m..hi]), C.ToSet(C.KeysOf(h[..m])))
  {
    assert C.KeysOf(h[..hi]) == C.KeysOf(h[..m]) + C.KeysOf(h[m..hi]);
    C.FirstSeenConcat(C.KeysOf(h[..m]), C.KeysOf(h[m..hi]), {});
    assert {} + C.ToSet(C.KeysOf(h[..m])) == C.ToSet(C.KeysOf(h[..m]));
  }

  /** Any posted batch, old or new and however cut, moves the frontier forward or leaves it. */
  lemma ServeOrdered(w: World, post: Post, m: nat) returns (m': nat)
    requires C.Uuid(w.me) == w.me && NetOk(w) && AllGapless(w) && post in w.posts && w.dead == {} && NoneTaken(w)
    requires Frontier(w, m)
    ensures Frontier(Apply(w, Serve(post)), m')
  {
    hide C.KeysOf, C.FirstSeen, C.Keys, C.InsertAll, C.Saved, Gapless, Frontier, RequestOf;
    if C.Seen(w.db, RequestOf(w, post)) {
      SeenAgain(w, post, m);
      return m;
    }
    var c := CutBatch(w, post, m);
    m' := m + |post.ids| - c;
    ServedOn(w, post, m, c);
  }

  lemma ServedOn(w: World, post: Post, m: nat, c: nat)
    requires C.Uuid(w.me) == w.me && Frontier(w, m) && post in w.posts && !C.Seen(w.db, RequestOf(w, post))
    requires c <= |post.ids| && forall i: nat :: i in post.ids ==> i < |w.history|
    requires forall k :: 0 <= k < c ==> post.ids[k] < m
    requires forall k :: c <= k < |post.ids| ==> post.ids[k] == m + k - c
    ensures Frontier(Apply(w, Serve(post)), m + |post.ids| - c)
  {
    hide C.KeysOf, C.Dedup, C.FirstSeen, C.Keys, C.InsertAll, C.Saved, RequestOf;
    ServeKeys(w, post, m, c);
    ServedUpTo(w.served, post.ids, m, c);
  }

  /** Where the lines from `m` on begin in a batch. */
  lemma CutBatch(w: World, post: Post, m: nat) returns (c: nat)
    requires NetOk(w) && AllGapless(w) && post in w.posts && w.dead == {} && NoneTaken(w) && Frontier(w, m)
    ensures c <= |post.ids| && forall i: nat :: i in post.ids ==> i < |w.history|
    ensures forall k :: 0 <= k < c ==> post.ids[k] < m
    ensures forall k :: c <= k < |post.ids| ==> post.ids[k] == m + k - c
  {
    var ids := post.ids;
    assert Gapless(w, ids);
    forall j: nat | m <= j < ids[|ids| - 1] ensures j in ids {
      assert j in ids || Done(w, j) || j in w.taken;
    }
    c := SplitAt(ids, m);
  }

  lemma SeenAgain(w: World, post: Post, m: nat)
    requires C.Uuid(w.me) == w.me && NetOk(w) && post in w.posts && C.Seen(w.db, RequestOf(w, post)) && Frontier(w, m)
    ensures Frontier(Apply(w, Serve(post)), m)
  {
    assert Apply(w, Serve(post)).served == w.served;
  }

  lemma ServeKeys(w: World, post: Post, m: nat, c: nat)
    requires C.Uuid(w.me) == w.me && Frontier(w, m) && !C.Seen(w.db, RequestOf(w, post))
    requires c <= |post.ids| && forall i: nat :: i in post.ids ==> i < |w.history|
    requires forall k :: 0 <= k < c ==> post.ids[k] < m
    requires forall k :: c <= k < |post.ids| ==> post.ids[k] == m + k - c
    ensures var m' := m + |post.ids| - c;
            && m' <= |w.history|
            && C.Keys(C.Saved(w.db, RequestOf(w, post)).rows, w.me) == C.Dedup(C.KeysOf(w.history[..m']))
  {
    hide C.KeysOf, C.Dedup, C.FirstSeen, C.Keys, C.InsertAll;
    BatchKeys(w, post.ids, m, c);
    SavedKeysOf(w, post);
    PrefixGrows(w.history, m, m + |post.ids| - c, C.KeysOf(EventsOf(w, post.ids)), C.Keys(w.db.rows, w.me));
  }

  /** Distinct keys of a prefix, and then those of a batch that reaches to `hi`. */
  lemma PrefixGrows(h: seq<C.Event>, m: nat, hi: nat, batch: seq<string>, held: seq<string>)
    requires m <= hi <= |h| && held == C.Dedup(C.KeysOf(h[..m]))
    requires C.FirstSeen(batch, C.ToSet(C.KeysOf(h[..m]))) == C.FirstSeen(C.KeysOf(h[m..hi]), C.ToSet(C.KeysOf(h[..m])))
    ensures held + C.FirstSeen(batch, C.ToSet(held)) == C.Dedup(C.KeysOf(h[..hi]))
  {
    C.FirstSeenContents(C.KeysOf(h[..m]), {});
    assert C.ToSet(held) == C.ToSet(C.KeysOf(h[..m]));
    DedupGrows(h, m, hi);
  }

  lemma SavedKeysOf(w: World, post: Post)
    requires C.Uuid(w.me) == w.me && !C.Seen(w.db, RequestOf(w, post))
    ensures C.Keys(C.Saved(w.db, RequestOf(w, post)).rows, w.me) ==
            C.Keys(w.db.rows, w.me) + C.FirstSeen(C.KeysOf(EventsOf(w, post.ids)), C.ToSet(C.Keys(w.db.rows, w.me)))
  {
    C.SavedKeys(w.db, RequestOf(w, post), w.me);
  }

  lemma ServedUpTo(served: set<nat>, ids: seq<nat>, m: nat, c: nat)
    requires c <= |ids| && (forall i: nat :: i in served <==> i < m)
    requires forall k :: 0 <= k < c ==> ids[k] < m
    requires forall k :: c <= k < |ids| ==> ids[k] == m + k - c
    ensures forall i: nat :: i in served + C.ToSet(ids) <==> i < m + |ids| - c
  {
    forall i: nat | m <= i < m + |ids| - c ensures i in C.ToSet(ids) {
      assert ids[c + i - m] == i;
    }
  }

  lemma AppendOrdered(w: World, day: nat, e: C.Event, result: WriteResult, m: nat)
    requires Enabled(w, Append(day, e, result)) && Frontier(w, m)
    ensures Frontier(Apply(w, Append(day, e, result)), m)
  {
    assert Apply(w, Append(day, e, result)).history[..m] == w.history[..m];
  }

  lemma OtherOrdered(w: World, a: Action, m: nat)
    requires C.Uuid(w.me) == w.me && Enabled(w, a) && Frontier(w, m) && !a.Serve? && !a.Append?
    ensures Frontier(Apply(w, a), m)
  {
    hide Rest, PlainDays, Search, LastPlain, C.Saved, C.Keys, C.KeysOf, C.Dedup, FilesOk, ProcessOk;
    if a.ServeOther? {
      C.SavedKeys(w.db, a.r, w.me);
    }
  }

  lemma OrderedStep(w: World, a: Action)
    requires Structure(w) && NetOk(w) && AllGapless(w) && CountTaken(w) && Ordered(w) && Enabled(w, a)
    ensures Ordered(Apply(w, a))
  {
    var w' := Apply(w, a);
    Grows(w, a);
    if w'.dead == {} && w'.taken == {} {
      var m: nat :| Frontier(w, m);
      if a.Serve? {
        var m' := ServeOrdered(w, a.post, m);
      } else if a.Append? {
        AppendOrdered(w, a.day, a.event, a.result, m);
      } else {
        OtherOrdered(w, a, m);
      }
    }
  }
}
