/** Runs in which a line is lost or the saved offset is ahead: what the conditions of PipelineRuns exclude. */
module PipelineLosses {
  import opened SpoolModel
  import opened Pipeline
  import opened PipelineInvariant
  import opened PipelineTheorems
  import opened PipelineRuns
  import C = Collector

  // ---- a line that is nowhere ----

  /** Nowhere: not settled, in no file, in no batch and in no request under way. */
  ghost predicate Lost(w: World, i: nat) {
    && i < |w.history| && !Done(w, i) && i !in Rest(w.dir, START) && i !in InFlight(w) && i !in Uncounted(w)
    && forall post :: post in w.posts ==> i !in post.ids
  }

  /** A step that brings nothing into files, batches or counts leaves a lost line lost. */
  lemma LostCarries(w: World, w': World, i: nat)
    requires Lost(w, i) && |w.history| <= |w'.history|
    requires Done(w', i) ==> Done(w, i)
    requires i in Rest(w'.dir, START) ==> i in Rest(w.dir, START)
    requires i !in InFlight(w') && i !in Uncounted(w')
    requires forall post :: post in w'.posts ==> post in w.posts || post.ids == InFlight(w)
    ensures Lost(w', i)
  {
  }

  lemma LostQuiet(w: World, a: Action, i: nat)
    requires Enabled(w, a) && Quiet(a) && Lost(w, i)
    ensures Lost(Apply(w, a), i)
  {
    QuietStep(w, a);
    Grows(w, a);
    if a.Serve? {
      assert Apply(w, a).served == w.served + C.ToSet(a.post.ids);
    }
    LostCarries(w, Apply(w, a), i);
  }

  lemma LostAppend(w: World, a: Action, i: nat)
    requires Structure(w) && Enabled(w, a) && a.Append? && Lost(w, i)
    ensures Lost(Apply(w, a), i)
  {
    hide Rest, PlainDays, Search, LastPlain, PlainIndex, NewLines, C.Known, C.Saved;
    AppendAdds(w, w.agent.p, a.day, a.event, a.result, START);
    NewLineIsNew(w, a.result, i);
    AppendRest(w, w.agent.p, a.day, a.event, a.result);
    AppendMemory(w, w.agent.p, a.day, a.event, a.result);
    Grows(w, a);
    LostCarries(w, Apply(w, a), i);
  }

  lemma NewLineIsNew(w: World, result: WriteResult, i: nat)
    requires i < |w.history|
    ensures i !in NewLines(w, result)
  {
  }

  lemma LostRemove(w: World, p: Process, k: nat, i: nat)
    requires FilesOk(w) && w.agent == Up(p) && k < |w.dir| && Lost(w, i)
    ensures Lost(DoRemove(w, p, k), i)
  {
    WithoutMember(w, k, w.dir[..k] + w.dir[k + 1..], START, i);
    NotInPart(w, k, Later(p), i);
  }

  lemma NotInPart(w: World, k: nat, p: Position, i: nat)
    requires k < |w.dir| && i !in Rest(w.dir, START)
    ensures i !in Part(w.dir[k], p)
  {
    if i in Part(w.dir[k], p) {
      RestMember(w.dir, p, i);
      RestInAll(w.dir, p, i);
    }
  }

  lemma LostCompress(w: World, k: nat, i: nat)
    requires FilesOk(w) && Enabled(w, Compress(k)) && Lost(w, i)
    ensures Lost(Apply(w, Compress(k)), i)
  {
    var dir := w.dir[k := w.dir[k].(gz := true)];
    WithoutMember(w, k, dir, START, i);
    LostCarries(w, w.(dir := dir), i);
  }

  lemma LostFinish(w: World, a: Action, i: nat)
    requires Structure(w) && Enabled(w, a) && a.FinishRead? && Lost(w, i)
    ensures Lost(Apply(w, a), i)
  {
    var p := w.agent.p;
    assert i in p.fwd.got ==> i in p.fwd.got + Rest(w.dir, p.fwd.pos);
    if i in Rest(w.dir, p.committed) {
      RestInAll(w.dir, p.committed, i);
    }
    Grows(w, a);
    LostCarries(w, Apply(w, a), i);
  }

  lemma LostOther(w: World, a: Action, i: nat)
    requires Enabled(w, a) && Lost(w, i)
    requires a.Accept? || a.Reject? || a.CountSettled? || a.Report? || a.Kill? || a.Start?
    ensures Lost(Apply(w, a), i)
  {
  }

  lemma LostStep(w: World, a: Action, i: nat)
    requires Structure(w) && Enabled(w, a) && Lost(w, i)
    ensures Lost(Apply(w, a), i)
  {
    if Quiet(a) {
      LostQuiet(w, a, i);
    } else if a.Append? {
      LostAppend(w, a, i);
    } else if a.Remove? {
      LostRemove(w, w.agent.p, a.k, i);
    } else if a.Compress? {
      LostCompress(w, a.k, i);
    } else if a.FinishRead? {
      LostFinish(w, a, i);
    } else {
      LostOther(w, a, i);
    }
  }

  /** A lost line stays lost: it never reaches the collector or a dead letter, and is never counted. */
  lemma {:induction false} LostForever(w: World, acts: seq<Action>, i: nat)
    requires Sound(w) && Possible(w, acts) && Lost(w, i)
    ensures Lost(Run(w, acts), i)
    decreases |acts|
  {
    if acts != [] {
      SoundStep(w, acts[0]);
      LostStep(w, acts[0], i);
      LostForever(Apply(w, acts[0]), acts[1..], i);
    }
  }

  lemma {:induction false} RunSnoc(w: World, acts: seq<Action>, a: Action)
    requires Possible(w, acts) && Enabled(Run(w, acts), a)
    ensures Possible(w, acts + [a]) && Run(w, acts + [a]) == Apply(Run(w, acts), a)
    decreases |acts|
  {
    if acts == [] {
      assert acts + [a] == [a] && [a][1..] == [];
    } else {
      assert (acts + [a])[1..] == acts[1..] + [a];
      RunSnoc(Apply(w, acts[0]), acts[1..], a);
    }
  }

  function OneFile(day: nat, i: nat): File<nat> {
    File(day, false, [i])
  }

  /** A running agent with two files of one line each; nothing has reached anyone. */
  function TwoFiles(me: string, e: C.Event, f: C.Event, committed: Position, inflight: Position,
                    fwd: Forwarder): World {
    World(me, [e, f], [OneFile(1, 0), OneFile(2, 1)], 2, START,
          Up(Process(true, 2, committed, inflight, fwd, Resting, [], Counters(0, 2, 0, 0, 0, 2, 0, 0))),
          {}, C.EMPTY_DB, {}, {}, {}, {})
  }

  /** Appending to a file newer than all there are. */
  lemma AppendNewer(w: World, p: Process, day: nat, e: C.Event)
    requires w.agent == Up(p) && day > w.high >= p.name && forall k :: 0 <= k < |w.dir| ==> w.dir[k].day <= w.high
    ensures DoAppend(w, p, day, e, Written(true)) ==
            w.(history := w.history + [e], dir := w.dir + [OneFile(day, |w.history|)], high := day,
               agent := Up(p.(open := true, name := day, counters := Tallied(p.counters, Written(true)))))
  {
    assert !HasPlain(w.dir, day);
    var dir := w.dir + [File(day, false, [])];
    assert Opened(w.dir, day) == dir && dir[|w.dir|].day == day;
    assert PlainIndex(dir, day) == |w.dir|;
    var line: seq<nat> := [|w.history|];
    assert Grown(dir, |w.dir|, line)[|w.dir|].content == [] + line == line;
    assert Grown(dir, |w.dir|, line) == w.dir + [OneFile(day, |w.history|)];
  }

  /** The agent has read nothing yet. */
  lemma TwoDays(me: string, e: C.Event, f: C.Event) returns (acts: seq<Action>)
    ensures Possible(Init(me), acts) && Run(Init(me), acts) == TwoFiles(me, e, f, START, START, Idle)
  {
    var w := Init(me);
    acts := [];
    RunSnoc(w, acts, Start(true));
    acts := acts + [Start(true)];
    AppendNewer(Run(w, acts), Run(w, acts).agent.p, 1, e);
    RunSnoc(w, acts, Append(1, e, Written(true)));
    acts := acts + [Append(1, e, Written(true))];
    assert [] + [e] == [e] && [e] + [f] == [e, f];
    assert Run(w, acts).dir == [OneFile(1, 0)];
    AppendNewer(Run(w, acts), Run(w, acts).agent.p, 2, f);
    RunSnoc(w, acts, Append(2, f, Written(true)));
    acts := acts + [Append(2, f, Written(true))];
    assert Run(w, acts).dir == [OneFile(1, 0), OneFile(2, 1)];
  }

  /** The first line is read and handed over for delivery. */
  lemma FirstLineInFlight(me: string, e: C.Event, f: C.Event) returns (acts: seq<Action>)
    ensures Possible(Init(me), acts)
    ensures Run(Init(me), acts) == TwoFiles(me, e, f, START, Position(1, 1), Delivering("b", [0], Position(1, 1)))
  {
    hide LastPlain, C.Saved;
    var w := Init(me);
    acts := TwoDays(me, e, f);
    var dir := Run(w, acts).dir;
    assert dir[1..] == [OneFile(2, 1)] && PlainDays([OneFile(2, 1)]) == [2];
    assert PlainDays(dir) == [1, 2];
    RunSnoc(w, acts, StartRead(1, true));
    acts := acts + [StartRead(1, true)];
    acts := FirstFileRead(me, e, f, acts);
    RunSnoc(w, acts, FinishRead("b"));
    acts := acts + [FinishRead("b")];
  }

  lemma FirstFileRead(me: string, e: C.Event, f: C.Event, before: seq<Action>) returns (acts: seq<Action>)
    requires Possible(Init(me), before)
    requires Run(Init(me), before) == TwoFiles(me, e, f, START, START, Reading(1, true, [1, 2], START, [], false))
    ensures Possible(Init(me), acts)
    ensures Run(Init(me), acts) ==
            TwoFiles(me, e, f, START, START, Reading(1, true, [1, 2], Position(1, 1), [0], false))
  {
    hide LastPlain, C.Saved, Possible, Run;
    var w := Init(me);
    acts := before;
    assert Search([1, 2], 0) == 0;
    RunSnoc(w, acts, ReadFile(0));
    acts := acts + [ReadFile(0)];
    assert Run(w, acts).agent.p.fwd == Reading(1, true, [1, 2], Position(1, 1), [0], false);
  }

  /** Cleanup removes the first file for size. */
  lemma FirstFileRemoved(w: World, before: seq<Action>) returns (acts: seq<Action>)
    requires Possible(w, before) && Run(w, before).agent.Up? && Run(w, before).dir == [OneFile(1, 0), OneFile(2, 1)]
    requires var p := Run(w, before).agent.p; p.name == 2 && p.janitor.Resting? && !p.fwd.Reading?
    ensures Possible(w, acts)
    ensures var p := Run(w, before).agent.p.(janitor := Cleaning(2, 0));
            Run(w, acts) == DoRemove(Run(w, before).(agent := Up(p)), p, 0)
  {
    RunSnoc(w, before, LookAtCurrent(0));
    acts := before + [LookAtCurrent(0)];
    RunSnoc(w, acts, Remove(0));
    acts := acts + [Remove(0)];
  }

  /** A kill, when the line of a removed file is in memory alone. */
  lemma KilledAfterRemoval(me: string, before: seq<Action>) returns (acts: seq<Action>)
    requires C.Uuid(me) == me && Possible(Init(me), before)
    requires var w := Run(Init(me), before);
             && w.agent.Up? && w.dir == [OneFile(2, 1)] && |w.history| == 2
             && w.posts == {} && w.served == w.dead == w.dropped == {}
    ensures Possible(Init(me), acts) && Lost(Run(Init(me), acts), 0)
    ensures forall more :: Possible(Run(Init(me), acts), more) ==> Lost(Run(Run(Init(me), acts), more), 0)
  {
    var w := Init(me);
    RunSnoc(w, before, Kill);
    acts := before + [Kill];
    RestPush([], 2, [1], START);
    assert [] + [OneFile(2, 1)] == [OneFile(2, 1)];
    assert Rest([OneFile(2, 1)], START) == [1];
    InitSound(me);
    RunSound(w, acts);
    forall more | Possible(Run(w, acts), more) ensures Lost(Run(Run(w, acts), more), 0) {
      LostForever(Run(w, acts), more, 0);
    }
  }

  /** The first loss: the batch is being delivered, so Cleanup does not count its line; then the agent is killed. */
  lemma KillMidDeliveryLoses(me: string, e: C.Event, f: C.Event) returns (acts: seq<Action>)
    requires C.Uuid(me) == me
    ensures Possible(Init(me), acts) && Lost(Run(Init(me), acts), 0)
    ensures forall more :: Possible(Run(Init(me), acts), more) ==> Lost(Run(Run(Init(me), acts), more), 0)
  {
    hide Lost, Possible, Run;
    acts := FirstLineInFlight(me, e, f);
    acts := FirstFileRemoved(Init(me), acts);
    assert [OneFile(1, 0), OneFile(2, 1)][..0] + [OneFile(1, 0), OneFile(2, 1)][1..] == [OneFile(2, 1)];
    acts := KilledAfterRemoval(me, acts);
  }

  /** The second: Cleanup has the line in its count, but the agent is killed before Cleanup returns. */
  lemma KillMidCleanupLoses(me: string, e: C.Event, f: C.Event) returns (acts: seq<Action>)
    requires C.Uuid(me) == me
    ensures Possible(Init(me), acts) && Lost(Run(Init(me), acts), 0)
    ensures forall more :: Possible(Run(Init(me), acts), more) ==> Lost(Run(Run(Init(me), acts), more), 0)
  {
    hide Lost, Possible, Run;
    acts := TwoDays(me, e, f);
    acts := FirstFileRemoved(Init(me), acts);
    assert [OneFile(1, 0), OneFile(2, 1)][..0] + [OneFile(1, 0), OneFile(2, 1)][1..] == [OneFile(2, 1)];
    acts := KilledAfterRemoval(me, acts);
  }

  // ---- an offset file that cannot be read ----

  /** The first line is settled, and the offset file says so. */
  lemma FirstLineSettled(me: string, e: C.Event, f: C.Event) returns (acts: seq<Action>)
    ensures Possible(Init(me), acts)
    ensures var w := Run(Init(me), acts); w.agent.Up? && w.disk == Position(1, 1)
  {
    hide Possible, Run, LastPlain, C.Saved;
    var w := Init(me);
    acts := FirstLineInFlight(me, e, f);
    RunSnoc(w, acts, SendPost);
    acts := acts + [SendPost];
    RunSnoc(w, acts, Reject);
    acts := acts + [Reject];
    RunSnoc(w, acts, Persist(true));
    acts := acts + [Persist(true)];
  }

  /** A start that cannot read the offset file leaves it ahead of memory. */
  lemma UnreadableOffsetAhead(me: string, e: C.Event, f: C.Event) returns (acts: seq<Action>)
    ensures Possible(Init(me), acts)
    ensures var w := Run(Init(me), acts);
            && w.agent.Up? && w.agent.p.committed == START && w.disk == Position(1, 1) && !Behind(w)
  {
    hide Possible, Run, LastPlain, C.Saved;
    var w := Init(me);
    acts := FirstLineSettled(me, e, f);
    RunSnoc(w, acts, Kill);
    acts := acts + [Kill];
    RunSnoc(w, acts, Start(false));
    acts := acts + [Start(false)];
  }
}
