/** The pipeline's promises, for every run from an empty spool and an empty collector. */
module PipelineRuns {
  import opened SpoolModel
  import opened Pipeline
  import opened PipelineInvariant
  import opened PipelineTheorems
  import opened PipelineCounters
  import C = Collector

  ghost predicate Sound(w: World) {
    Structure(w) && NetOk(w) && Balanced(w) && CountTaken(w) && UncountedGone(w) && Tallies(w)
  }

  ghost predicate Lossless(w: World) {
    Safe(w) && SettledBelow(w) && AllGapless(w) && Ordered(w)
  }

  lemma InitSound(me: string)
    requires C.Uuid(me) == me
    ensures Sound(Init(me)) && Lossless(Init(me))
  {
    assert C.KeysOf([]) == [];
    assert Init(me).history[..0] == [];
    assert Frontier(Init(me), 0);
  }

  lemma SoundStep(w: World, a: Action)
    requires Sound(w) && Enabled(w, a)
    ensures Sound(Apply(w, a))
  {
    hide Structure, NetOk, Balanced, CountTaken, UncountedGone, Tallies;
    StructureStep(w, a);
    NetStep(w, a);
    BalanceStep(w, a);
    CountTakenStep(w, a);
    GoneStep(w, a);
    TallyStep(w, a);
  }

  lemma LosslessStep(w: World, a: Action)
    requires Sound(w) && Lossless(w) && Enabled(w, a) && (a.Kill? ==> KillFit(w))
    ensures Lossless(Apply(w, a))
  {
    hide Structure, NetOk, Balanced, CountTaken, UncountedGone, Tallies, Safe, SettledBelow, AllGapless, Ordered,
      KillFit;
    SafeStep(w, a);
    BelowStep(w, a);
    GaplessStep(w, a);
    OrderedStep(w, a);
  }

  /** No kill of the run interrupts the delivery of a line whose file Cleanup has removed. */
  ghost predicate KillsFit(w: World, acts: seq<Action>)
    requires Possible(w, acts)
    decreases |acts|
  {
    acts == [] || ((acts[0].Kill? ==> KillFit(w)) && KillsFit(Apply(w, acts[0]), acts[1..]))
  }

  ghost predicate AlwaysSafe(w: World, acts: seq<Action>)
    requires Possible(w, acts)
    decreases |acts|
  {
    Safe(w) && (acts == [] || AlwaysSafe(Apply(w, acts[0]), acts[1..]))
  }

  lemma {:induction false} RunSound(w: World, acts: seq<Action>)
    requires Sound(w) && Possible(w, acts)
    ensures Sound(Run(w, acts))
    decreases |acts|
  {
    if acts != [] {
      SoundStep(w, acts[0]);
      RunSound(Apply(w, acts[0]), acts[1..]);
    }
  }

  lemma {:induction false} RunLossless(w: World, acts: seq<Action>)
    requires Sound(w) && Lossless(w) && Possible(w, acts) && KillsFit(w, acts)
    ensures Sound(Run(w, acts)) && Lossless(Run(w, acts))
    decreases |acts|
  {
    if acts != [] {
      SoundStep(w, acts[0]);
      LosslessStep(w, acts[0]);
      RunLossless(Apply(w, acts[0]), acts[1..]);
    }
  }

  // ---- the theorems ----

  /** In the collector's events table, or in a dead-letter file, or counted as dropped. */
  ghost predicate AccountedFor(w: World, i: nat)
    requires i < |w.history|
  {
    C.Known(w.db.rows, w.me, C.EventKey(w.history[i])) || i in w.dead || i in w.dropped
  }

  /** Not to be read any more: from the position in memory, or from the one in the offset file. */
  ghost predicate PassedOver(w: World, i: nat) {
    i !in Rest(w.dir, Base(w)) || i !in Rest(w.dir, w.disk)
  }

  /**
   No loss: a line that the agent will not read again, from its committed position or from the one
   in the offset file, and that is neither in the batch in flight nor in the count of a Cleanup that
   has not returned, is accounted for.
   */
  lemma NoLoss(me: string, acts: seq<Action>)
    requires C.Uuid(me) == me && Possible(Init(me), acts) && KillsFit(Init(me), acts)
    ensures var w := Run(Init(me), acts);
            forall i: nat :: i < |w.history| && i !in InFlight(w) && i !in Uncounted(w) && PassedOver(w, i) ==>
              AccountedFor(w, i)
  {
    var w := Run(Init(me), acts);
    InitSound(me);
    RunLossless(Init(me), acts);
    forall i: nat | i < |w.history| && i !in InFlight(w) && i !in Uncounted(w) && PassedOver(w, i)
      ensures AccountedFor(w, i)
    {
      assert Kept(w, i);
      if i in Rest(w.dir, Base(w)) {
        RestInAll(w.dir, Base(w), i);
      }
    }
  }

  /** The condition of NoLoss is exact: all states of a run are safe if and only if its kills are fit. */
  lemma {:induction false} SafeExactlyWhenKillsFit(w: World, acts: seq<Action>)
    requires Sound(w) && Safe(w) && SettledBelow(w) && Possible(w, acts)
    ensures AlwaysSafe(w, acts) <==> KillsFit(w, acts)
    decreases |acts|
  {
    hide Structure, NetOk, Balanced, CountTaken, UncountedGone, Tallies, Safe, SettledBelow, KillFit;
    if acts != [] {
      var w' := Apply(w, acts[0]);
      SoundStep(w, acts[0]);
      BelowStep(w, acts[0]);
      if acts[0].Kill? {
        KillSafe(w);
      } else {
        SafeStep(w, acts[0]);
      }
      if Safe(w') {
        SafeExactlyWhenKillsFit(w', acts[1..]);
      }
    }
  }

  /**
   Exactly once, in order: while nothing is dead-lettered or taken by Cleanup, the agent's event rows are, in
   insertion order, the distinct keys of a prefix of all lines ever appended.
   */
  lemma ExactlyOnceInOrder(me: string, acts: seq<Action>)
    requires C.Uuid(me) == me && Possible(Init(me), acts) && KillsFit(Init(me), acts)
    ensures var w := Run(Init(me), acts);
            w.dead == {} && w.taken == {} ==>
              exists m: nat :: m <= |w.history| && C.Keys(w.db.rows, me) == C.Dedup(C.KeysOf(w.history[..m]))
  {
    var w := Run(Init(me), acts);
    InitSound(me);
    RunLossless(Init(me), acts);
    RunKeepsAgent(Init(me), acts);
    if w.dead == {} && w.taken == {} {
      var m: nat :| Frontier(w, m);
    }
  }

  lemma {:induction false} RunKeepsAgent(w: World, acts: seq<Action>)
    requires Possible(w, acts)
    ensures Run(w, acts).me == w.me
    decreases |acts|
  {
    if acts != [] {
      Grows(w, acts[0]);
      RunKeepsAgent(Apply(w, acts[0]), acts[1..]);
    }
  }

  /**
   Conservation, in every state of every run, kills and cleanups at any moment included: what Cleanup has
   removed and not yet reported, and what is settled and not yet counted, are terms of their own.
   */
  lemma Conservation(me: string, acts: seq<Action>)
    requires C.Uuid(me) == me && Possible(Init(me), acts)
    requires Run(Init(me), acts).agent.Up?
    ensures var w := Run(Init(me), acts);
            var c := w.agent.p.counters;
            c.left + c.appended ==
            c.forwarded + c.deadLettered + c.dropped + Settling(w) + |Uncounted(w)| + |InFlight(w)|
              + |Rest(w.dir, Later(w.agent.p))|
  {
    InitSound(me);
    RunSound(Init(me), acts);
    LaterIsInflight(Run(Init(me), acts).agent.p);
  }

  /**
   Reading under appends and rollovers: what FinishRead hands over is the head of the unread lines as
   they are at that moment, what is left after its end is the remainder, and the writer's file is the
   newest there is. A batch that is not full is handed over only if that is allowed.
   */
  lemma ReaderSkipsNothing(me: string, acts: seq<Action>, batch: string)
    requires C.Uuid(me) == me && Possible(Init(me), acts)
    requires Enabled(Run(Init(me), acts), FinishRead(batch))
    ensures var w := Run(Init(me), acts);
            var p := w.agent.p;
            && p.fwd.got + Rest(w.dir, p.fwd.pos) == Rest(w.dir, p.committed)
            && Increasing(Rest(w.dir, p.committed))
            && |p.fwd.got| <= p.fwd.max
            && Apply(w, FinishRead(batch)).agent.p.fwd ==
               (if p.fwd.got != [] && (|p.fwd.got| == p.fwd.max || p.fwd.partial)
                then Delivering(batch, p.fwd.got, p.fwd.pos) else Idle)
            && (p.name != 0 ==> p.name == LastPlain(w.dir) && HasPlain(w.dir, p.name))
  {
    hide Rest, PlainDays, Run, Possible, NetOk, Balanced;
    var w := Run(Init(me), acts);
    InitSound(me);
    RunSound(Init(me), acts);
    RestIncreasing(w.dir, w.agent.p.committed);
    if w.agent.p.name != 0 {
      var k :| 0 <= k < |w.dir| && !w.dir[k].gz && w.dir[k].day == w.high;
    }
  }

  /** Within a run neither the committed position nor the writer's file ever goes back. */
  lemma NothingGoesBack(w: World, a: Action)
    requires Sound(w) && Enabled(w, a) && w.agent.Up? && Apply(w, a).agent.Up?
    ensures w.agent.p.committed.AtMost(Apply(w, a).agent.p.committed)
    ensures w.agent.p.name <= Apply(w, a).agent.p.name && w.high <= Apply(w, a).high
  {
    hide Apply, Enabled, Structure, NetOk, Balanced, CountTaken, UncountedGone, Tallies;
    if a.Append? {
      NamesGrow(w, a);
    } else {
      EndAhead(w);
      NamesStay(w, a);
    }
  }

  lemma EndAhead(w: World)
    requires Structure(w) && w.agent.Up?
    ensures w.agent.p.fwd.Delivering? ==> w.agent.p.committed.AtMost(w.agent.p.fwd.end)
  {
    hide Rest, PlainDays, Search, LastPlain, FilesOk;
  }

  lemma NamesGrow(w: World, a: Action)
    requires Structure(w) && Enabled(w, a) && a.Append?
    ensures w.agent.Up? && Apply(w, a).agent.Up?
    ensures w.agent.p.committed == Apply(w, a).agent.p.committed
    ensures w.agent.p.name <= Apply(w, a).agent.p.name && w.high <= Apply(w, a).high
  {
    hide Rest, PlainDays, Search;
    AppendFiles(w, w.agent.p, a.day, a.event, a.result);
  }

  lemma NamesStay(w: World, a: Action)
    requires Enabled(w, a) && w.agent.Up? && Apply(w, a).agent.Up? && !a.Append?
    requires w.agent.p.fwd.Delivering? ==> w.agent.p.committed.AtMost(w.agent.p.fwd.end)
    ensures Apply(w, a).agent.p.name == w.agent.p.name && Apply(w, a).high == w.high
    ensures w.agent.p.committed.AtMost(Apply(w, a).agent.p.committed)
  {
  }

  /** `disk` is a position that the agent had committed in memory by step `n`. */
  ghost predicate CommittedAt(w: World, acts: seq<Action>, n: nat, disk: Position)
    requires Possible(w, acts) && n <= |acts|
    decreases |acts|
  {
    if n == 0 then w.agent.Up? && w.agent.p.committed == disk
    else CommittedAt(Apply(w, acts[0]), acts[1..], n - 1, disk)
  }

  lemma {:induction false} OffsetWasCommitted(w: World, acts: seq<Action>) returns (n: nat)
    requires Possible(w, acts)
    ensures var disk := Run(w, acts).disk;
            disk == w.disk || (n <= |acts| && CommittedAt(w, acts, n, disk))
    decreases |acts|
  {
    n := 0;
    if acts != [] {
      n := OffsetWasCommitted(Apply(w, acts[0]), acts[1..]);
      n := if Run(w, acts).disk == Apply(w, acts[0]).disk then 0 else n + 1;
    }
  }

  /** The position in memory at the last write of the offset file that worked. */
  function LastSaved(w: World, acts: seq<Action>): Position
    requires Possible(w, acts)
    decreases |acts|
  {
    if acts == [] then w.disk
    else
      RunSnoc(w, acts);
      var n := |acts| - 1;
      if acts[n] == Persist(true) then Run(w, acts[..n]).agent.p.committed else LastSaved(w, acts[..n])
  }

  /** That is what the offset file holds: no other step touches it, nor does a write that fails. */
  lemma {:induction false} DiskExactly(w: World, acts: seq<Action>)
    requires Possible(w, acts)
    ensures Run(w, acts).disk == LastSaved(w, acts)
    decreases |acts|
  {
    if acts != [] {
      var n := |acts| - 1;
      RunSnoc(w, acts);
      DiskExactly(w, acts[..n]);
      DiskStep(Run(w, acts[..n]), acts[n]);
    }
  }

  lemma DiskStep(w: World, a: Action)
    requires Enabled(w, a)
    ensures Apply(w, a).disk == if a == Persist(true) then w.agent.p.committed else w.disk
  {
  }

  /** The saved offset is not ahead of the position in memory. */
  predicate Behind(w: World) {
    w.agent.Up? ==> w.disk.AtMost(w.agent.p.committed)
  }

  /** A start reads the offset file, or there is no position in it. */
  predicate StartFit(w: World, a: Action) {
    a.Start? ==> a.readable || w.disk == START
  }

  /** A step leaves the saved offset behind, unless it is a start that cannot read it; writing it puts it there. */
  lemma BehindStep(w: World, a: Action)
    requires Sound(w) && Enabled(w, a)
    ensures a.Start? ==> (Behind(Apply(w, a)) <==> StartFit(w, a))
    ensures Behind(w) && !a.Start? ==> Behind(Apply(w, a))
    ensures a == Persist(true) ==> Behind(Apply(w, a))
  {
    hide Rest, PlainDays, Search, LastPlain, FilesOk, NetOk, Balanced, CountTaken, UncountedGone, Tallies, ReaderOk,
      WriterOk, JanitorOk, C.Saved;
    if Quiet(a) {
      QuietStep(w, a);
    }
  }

  predicate AlwaysBehind(w: World, acts: seq<Action>)
    requires Possible(w, acts)
    decreases |acts|
  {
    Behind(w) && (acts == [] || AlwaysBehind(Apply(w, acts[0]), acts[1..]))
  }

  predicate StartsFit(w: World, acts: seq<Action>)
    requires Possible(w, acts)
    decreases |acts|
  {
    acts == [] || (StartFit(w, acts[0]) && StartsFit(Apply(w, acts[0]), acts[1..]))
  }

  /** In all states of a run the saved offset is not ahead of memory if and only if every start reads what is saved. */
  lemma {:induction false} BehindExactlyWhenRead(w: World, acts: seq<Action>)
    requires Sound(w) && Behind(w) && Possible(w, acts)
    ensures AlwaysBehind(w, acts) <==> StartsFit(w, acts)
    decreases |acts|
  {
    hide Sound, Behind, StartFit;
    if acts != [] {
      var w' := Apply(w, acts[0]);
      SoundStep(w, acts[0]);
      BehindStep(w, acts[0]);
      NoStart(w, acts[0]);
      if Behind(w') {
        BehindExactlyWhenRead(w', acts[1..]);
      }
    }
  }

  lemma NoStart(w: World, a: Action)
    ensures !a.Start? ==> StartFit(w, a)
  {
  }

  /** The last start has read what was saved, or the offset file has been written since. */
  predicate Recovered(w: World, acts: seq<Action>, so: bool)
    requires Possible(w, acts)
    decreases |acts|
  {
    if acts == [] then so
    else
      var a := acts[0];
      Recovered(Apply(w, a), acts[1..], if a.Start? then StartFit(w, a) else so || a == Persist(true))
  }

  lemma {:induction false} RecoveredBehind(w: World, acts: seq<Action>, so: bool)
    requires Sound(w) && (so ==> Behind(w)) && Possible(w, acts)
    ensures Recovered(w, acts, so) ==> Behind(Run(w, acts))
    decreases |acts|
  {
    hide Sound, Behind, StartFit;
    if acts != [] {
      var a := acts[0];
      SoundStep(w, a);
      BehindStep(w, a);
      RecoveredBehind(Apply(w, a), acts[1..], if a.Start? then StartFit(w, a) else so || a == Persist(true));
    }
  }

  /**
   What a restart finds, wherever the kill came: the empty position or one committed before, whole. It is
   not ahead of the position in memory from a start that has read it, or a write of it, on.
   */
  lemma OffsetRecovery(me: string, acts: seq<Action>)
    requires C.Uuid(me) == me && Possible(Init(me), acts)
    ensures var w := Run(Init(me), acts);
            && (w.disk == START || exists n: nat :: n <= |acts| && CommittedAt(Init(me), acts, n, w.disk))
            && (Recovered(Init(me), acts, true) ==> Behind(w))
  {
    hide Sound, Behind;
    InitSound(me);
    DownIsBehind(Init(me));
    RecoveredBehind(Init(me), acts, true);
    var n := OffsetWasCommitted(Init(me), acts);
  }

  lemma DownIsBehind(w: World)
    requires w.agent.Down?
    ensures Behind(w)
  {
  }

  /**
   The receiver's counters: since the last start, `received` counts the datagrams, `writeErrors` those whose
   append failed, be it only at the fsync, `appended` those whose line went into the spool and `unsynced` those
   of them that were not synced. So received less write errors is the number of lines that went into the spool
   if and only if no fsync has failed.
   */
  lemma ReceivedAddsUp(me: string, acts: seq<Action>)
    requires C.Uuid(me) == me && Possible(Init(me), acts)
    requires Run(Init(me), acts).agent.Up?
    ensures var c := Run(Init(me), acts).agent.p.counters;
            && c.received == |set i: nat | i < |acts| && acts[i].Append? && SameProcess(acts, i)|
            && c.writeErrors ==
               |set i: nat | i < |acts| && acts[i].Append? && acts[i].result != Written(true) && SameProcess(acts, i)|
            && c.appended ==
               |set i: nat | i < |acts| && acts[i].Append? && acts[i].result.Written? && SameProcess(acts, i)|
            && c.unsynced ==
               |set i: nat | i < |acts| && acts[i].Append? && acts[i].result == Written(false) && SameProcess(acts, i)|
    ensures var c := Run(Init(me), acts).agent.p.counters;
            && c.received + c.unsynced == c.appended + c.writeErrors
            && (c.received - c.writeErrors == c.appended <==> c.unsynced == 0)
  {
    hide Run, Possible, Sound, Structure, NetOk, Balanced, CountTaken, UncountedGone;
    InitSound(me);
    RunSound(Init(me), acts);
    ReceiverRun(me, acts);
    SoundTallies(Run(Init(me), acts));
    assert Hits(acts, Received) == set i: nat | i < |acts| && acts[i].Append? && SameProcess(acts, i);
    assert Hits(acts, Failed) ==
      set i: nat | i < |acts| && acts[i].Append? && acts[i].result != Written(true) && SameProcess(acts, i);
    assert Hits(acts, Landed) ==
      set i: nat | i < |acts| && acts[i].Append? && acts[i].result.Written? && SameProcess(acts, i);
    assert Hits(acts, Unsynced) ==
      set i: nat | i < |acts| && acts[i].Append? && acts[i].result == Written(false) && SameProcess(acts, i);
  }

  lemma SoundTallies(w: World)
    requires Sound(w)
    ensures Tallies(w)
  {
  }
}
