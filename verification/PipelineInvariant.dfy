/** What every step of the pipeline keeps: the files, the positions in them, and the three threads. */
module PipelineInvariant {
  import opened SpoolModel
  import opened Pipeline
  import C = Collector

  /** Every line is in at most one place, in the order of `history`. */
  ghost predicate FilesOk(w: World) {
    && PlainOrdered(w.dir)
    && (forall k :: 0 <= k < |w.dir| ==> w.dir[k].day <= w.high)
    && Increasing(Rest(w.dir, START))
    && (forall i: nat :: i in Rest(w.dir, START) ==> i < |w.history|)
  }

  ghost predicate At(w: World, p: Position) {
    p.day <= w.high && Fits(w.dir, p)
  }

  /** Once it has a file in this run, the writer's file is the newest there ever was, and it exists. */
  ghost predicate WriterOk(w: World, p: Process) {
    && (p.open ==> p.name != 0)
    && (p.name != 0 ==> p.name == w.high && HasPlain(w.dir, w.high))
  }

  /** A file from `day` on is in the listing, or newer than all of it. */
  ghost predicate Listed(dir: seq<File<nat>>, day: nat, names: seq<nat>) {
    forall k :: 0 <= k < |dir| && !dir[k].gz && day <= dir[k].day ==>
      dir[k].day in names || forall n: nat :: n in names ==> n < dir[k].day
  }

  /** The reader has all that the file at `p` will ever hold. */
  ghost predicate Exhausted(dir: seq<File<nat>>, p: Position) {
    forall k :: 0 <= k < |dir| && !dir[k].gz && dir[k].day == p.day ==> p.offset == |dir[k].content|
  }

  ghost predicate ReaderOk(w: World, p: Process) {
    var f := p.fwd;
    f.Reading? ==>
      && At(w, f.pos) && p.committed.AtMost(f.pos) && |f.got| <= f.max
      && f.got + Rest(w.dir, f.pos) == Rest(w.dir, p.committed)
      && Increasing(f.names) && (forall n: nat :: n in f.names ==> n <= w.high)
      && Listed(w.dir, p.committed.day, f.names)
      && (f.eof ==> |f.got| < f.max && f.pos.day in f.names && (CanNextFile(f) ==> Exhausted(w.dir, f.pos)))
  }

  /** What is unread after `committed` is in the batch in flight or after its end; the batch came from there. */
  ghost predicate DeliveryOk(w: World, p: Process) {
    if p.fwd.Delivering? then
      && p.inflight == p.fwd.end && p.fwd.ids != [] && Increasing(p.fwd.ids)
      && (forall i: nat :: i in p.fwd.ids ==> i < |w.history|)
      && (forall i: nat :: i in Rest(w.dir, p.committed) ==> i in p.fwd.ids || i in Rest(w.dir, p.fwd.end))
      && (forall i: nat :: i in p.fwd.ids && i in Rest(w.dir, START) ==> i in Rest(w.dir, p.committed))
    else
      p.inflight == p.committed
  }

  ghost predicate JanitorOk(w: World, p: Process) {
    match p.janitor
    case Resting => p.uncounted == []
    case Cleaning(current, _) => current <= p.name
    case Compressing(days) => forall d: nat :: d in days ==> d < p.committed.day
  }

  ghost predicate ProcessOk(w: World, p: Process) {
    && At(w, p.committed) && At(w, p.inflight)
    && p.committed.AtMost(p.inflight)
    && WriterOk(w, p) && ReaderOk(w, p) && DeliveryOk(w, p) && JanitorOk(w, p)
  }

  ghost predicate Structure(w: World) {
    && C.Uuid(w.me) == w.me
    && FilesOk(w) && At(w, w.disk)
    && (w.agent.Up? ==> ProcessOk(w, w.agent.p))
  }

  // ---- members of Rest ----

  lemma RestInAll(dir: seq<File<nat>>, p: Position, i: nat)
    requires i in Rest(dir, p)
    ensures i in Rest(dir, START)
  {
    RestMember(dir, p, i);
    var k :| 0 <= k < |dir| && i in Part(dir[k], p);
    assert i in Part(dir[k], START);
    RestMember(dir, START, i);
  }

  /** Taking file `k` away takes exactly its lines out of every rest. */
  lemma RestWithout(dir: seq<File<nat>>, k: nat, p: Position, i: nat)
    requires k < |dir| && Increasing(Rest(dir, START))
    ensures i in Rest(dir[..k] + dir[k + 1..], p) <==> i in Rest(dir, p) && i !in Part(dir[k], START)
    ensures i in Rest(dir, p) && i in Part(dir[k], START) ==> i in Part(dir[k], p)
  {
    RestSplit(dir, k, p);
    RestSplit(dir, k, START);
    RestRemove(dir, k, p);
    assert Rest(dir[..k] + dir[k + 1..], p) == Rest(dir[..k], p) + Rest(dir[k + 1..], p);
    var before, part, after := Rest(dir[..k], START), Part(dir[k], START), Rest(dir[k + 1..], START);
    if i in Rest(dir[..k], p) {
      RestInAll(dir[..k], p, i);
    }
    if i in Rest(dir[k + 1..], p) {
      RestInAll(dir[k + 1..], p, i);
    }
    IncreasingApart(before, part, after);
    assert i in Part(dir[k], p) ==> i in part;
  }

  lemma IncreasingApart(a: seq<nat>, b: seq<nat>, c: seq<nat>)
    requires Increasing(a + b + c)
    ensures forall i: nat :: i in b ==> i !in a && i !in c
    ensures Increasing(a + c)
  {
    var s := a + b + c;
    forall i: nat | i in b ensures i !in a && i !in c {
      var k :| 0 <= k < |b| && b[k] == i;
      assert s[|a| + k] == i;
      assert forall j :: 0 <= j < |a| ==> s[j] == a[j];
      assert forall j :: 0 <= j < |c| ==> s[|a| + |b| + j] == c[j];
    }
    assert forall j :: 0 <= j < |a + c| ==> (a + c)[j] == s[if j < |a| then j else j + |b|];
  }

  /** The rest after any position is in order too. */
  lemma {:induction false} RestIncreasing(dir: seq<File<nat>>, p: Position)
    requires Increasing(Rest(dir, START))
    ensures Increasing(Rest(dir, p))
  {
    if dir != [] {
      var f, more := dir[0], dir[1..];
      IncreasingTail(Part(f, START), Rest(more, START));
      RestIncreasing(more, p);
      forall i: nat | i in Rest(more, p) ensures i in Rest(more, START) {
        RestInAll(more, p, i);
      }
      IncreasingJoin(Part(f, START), Rest(more, START), Part(f, p), Rest(more, p));
    }
  }

  lemma IncreasingTail(a: seq<nat>, b: seq<nat>)
    requires Increasing(a + b)
    ensures Increasing(b)
  {
    assert forall j :: 0 <= j < |b| ==> b[j] == (a + b)[|a| + j];
  }

  lemma IncreasingJoin(a: seq<nat>, b: seq<nat>, a': seq<nat>, b': seq<nat>)
    requires Increasing(a + b) && Increasing(b')
    requires |a'| <= |a| && a' == a[|a| - |a'|..]
    requires forall i: nat :: i in b' ==> i in b
    ensures Increasing(a' + b')
  {
    var s := a' + b';
    forall i, j | 0 <= i < j < |s| ensures s[i] < s[j] {
      if i < |a'| {
        assert s[i] == (a + b)[|a| - |a'| + i];
        if j < |a'| {
          assert s[j] == (a + b)[|a| - |a'| + j];
        } else {
          assert s[j] in b;
          var k :| 0 <= k < |b| && b[k] == s[j];
          assert s[j] == (a + b)[|a| + k];
        }
      }
    }
  }

  // ---- the writer ----

  /** The writer never goes back: it writes to the newest file, or to a new and newer one. */
  lemma TargetIsNewest(w: World, p: Process, day: nat)
    requires FilesOk(w) && WriterOk(w, p) && ClockFit(w, p, day)
    ensures var t := Target(w.dir, p, day);
            t > 0 && t >= w.high && (t == w.high ==> HasPlain(w.dir, t))
  {
    if HasPlain(w.dir, w.high) {
      LastPlainIs(w.dir, w.high);
    }
  }

  lemma OpenedKeeps(w: World, t: nat, p: Position)
    requires FilesOk(w) && t >= w.high && (t == w.high ==> HasPlain(w.dir, t))
    requires p.day <= w.high
    ensures var dir := Opened(w.dir, t);
            && PlainOrdered(dir)
            && (forall k :: 0 <= k < |dir| ==> dir[k].day <= t)
            && Rest(dir, p) == Rest(w.dir, p)
  {
    if !HasPlain(w.dir, t) {
      RestPush(w.dir, t, [], p);
    }
  }

  /** A written line ends the rest of every position there is. */
  lemma WrittenLast(dir: seq<File<nat>>, t: nat, x: nat, p: Position)
    requires PlainOrdered(dir) && HasPlain(dir, t) && (forall k :: 0 <= k < |dir| ==> dir[k].day <= t)
    requires p.day <= t && Fits(dir, p)
    ensures var dir' := Grown(dir, PlainIndex(dir, t), [x]);
            && Rest(dir', p) == Rest(dir, p) + [x]
            && Fits(dir', p) && PlainOrdered(dir') && HasPlain(dir', t)
  {
    var k := PlainIndex(dir, t);
    NewestIndex(dir, t);
    RestGrow(dir, k, [x], p);
    assert Grown(dir, k, [x])[k].day == t;
  }

  lemma OpenedFits(dir: seq<File<nat>>, t: nat, p: Position)
    requires Fits(dir, p) && p.day <= t && (p.day == t ==> HasPlain(dir, t))
    ensures Fits(Opened(dir, t), p)
  {
  }

  function OpenedDir(w: World, p: Process, day: nat): (dir: seq<File<nat>>)
    ensures HasPlain(dir, Target(w.dir, p, day))
  {
    Opened(w.dir, Target(w.dir, p, day))
  }

  function WrittenDir(w: World, p: Process, day: nat): seq<File<nat>> {
    var t := Target(w.dir, p, day);
    Grown(OpenedDir(w, p, day), PlainIndex(OpenedDir(w, p, day), t), [|w.history|])
  }

  lemma DirsOfAppend(w: World, p: Process, day: nat, e: C.Event)
    ensures DoAppend(w, p, day, e, WriteFails).dir == OpenedDir(w, p, day)
    ensures forall synced :: DoAppend(w, p, day, e, Written(synced)).dir == WrittenDir(w, p, day)
  {
  }

  function NextLine(w: World): seq<nat> {
    [|w.history|]
  }

  /** The lines an Append adds to the spool. */
  function NewLines(w: World, result: WriteResult): seq<nat> {
    if result.Written? then NextLine(w) else []
  }

  /** What an append does to the rest of any position: opening nothing, writing one line at its end. */
  lemma OpenedRest(w: World, p: Process, day: nat, q: Position)
    requires FilesOk(w) && WriterOk(w, p) && ClockFit(w, p, day) && At(w, q)
    ensures Rest(OpenedDir(w, p, day), q) == Rest(w.dir, q) && Fits(OpenedDir(w, p, day), q)
  {
    var t := Target(w.dir, p, day);
    TargetIsNewest(w, p, day);
    OpenedKeeps(w, t, q);
    OpenedFits(w.dir, t, q);
  }

  lemma WrittenRest(w: World, p: Process, day: nat, q: Position)
    requires FilesOk(w) && WriterOk(w, p) && ClockFit(w, p, day) && At(w, q)
    ensures Rest(WrittenDir(w, p, day), q) == Rest(w.dir, q) + NextLine(w) && Fits(WrittenDir(w, p, day), q)
  {
    var t, dir := Target(w.dir, p, day), OpenedDir(w, p, day);
    TargetIsNewest(w, p, day);
    OpenedKeeps(w, t, q);
    OpenedRest(w, p, day, q);
    WrittenLast(dir, t, |w.history|, q);
  }

  lemma IncreasingSnoc(s: seq<nat>, x: nat)
    requires Increasing(s) && forall i: nat :: i in s ==> i < x
    ensures Increasing(s + [x])
  {
    assert forall j :: 0 <= j < |s| ==> s[j] in s;
  }

  lemma AppendFiles(w: World, p: Process, day: nat, e: C.Event, result: WriteResult)
    requires FilesOk(w) && WriterOk(w, p) && ClockFit(w, p, day) && w.agent == Up(p)
    ensures var w' := DoAppend(w, p, day, e, result);
            && FilesOk(w') && w'.agent.Up? && WriterOk(w', w'.agent.p)
            && p.name <= w'.agent.p.name && w.high <= w'.high
  {
    hide Rest, LastPlain, PlainIndex;
    TargetIsNewest(w, p, day);
    OpenedKeeps(w, Target(w.dir, p, day), START);
    if result.Written? {
      WrittenFiles(w, p, day);
      DirsOfAppend(w, p, day, e);
    }
  }

  lemma WrittenFiles(w: World, p: Process, day: nat)
    requires FilesOk(w) && WriterOk(w, p) && ClockFit(w, p, day)
    ensures var t, dir := Target(w.dir, p, day), WrittenDir(w, p, day);
            && PlainOrdered(dir) && HasPlain(dir, t) && (forall k :: 0 <= k < |dir| ==> dir[k].day <= t)
            && Increasing(Rest(dir, START)) && forall i: nat :: i in Rest(dir, START) ==> i <= |w.history|
  {
    hide Rest, LastPlain, PlainIndex;
    var t := Target(w.dir, p, day);
    TargetIsNewest(w, p, day);
    OpenedKeeps(w, t, START);
    WrittenRest(w, p, day, START);
    WrittenLast(OpenedDir(w, p, day), t, |w.history|, START);
    SnocBelow(Rest(w.dir, START), |w.history|);
  }

  lemma SnocBelow(s: seq<nat>, x: nat)
    requires Increasing(s) && forall i: nat :: i in s ==> i < x
    ensures Increasing(s + [x]) && forall i: nat :: i in s + [x] ==> i <= x
  {
    IncreasingSnoc(s, x);
  }

  /** Appending leaves the listing good, and the file the reader is done with as it was. */
  lemma AppendListing(w: World, p: Process, day: nat, names: seq<nat>, from: nat)
    requires FilesOk(w) && WriterOk(w, p) && ClockFit(w, p, day)
    requires Listed(w.dir, from, names) && forall n: nat :: n in names ==> n <= w.high
    ensures Listed(OpenedDir(w, p, day), from, names) && Listed(WrittenDir(w, p, day), from, names)
  {
    var t := Target(w.dir, p, day);
    TargetIsNewest(w, p, day);
    var dir := OpenedDir(w, p, day);
    assert forall k :: 0 <= k < |dir| ==> (k < |w.dir| && dir[k] == w.dir[k]) || (dir[k].day == t && t > w.high);
  }

  lemma AppendExhausted(w: World, p: Process, day: nat, pos: Position)
    requires FilesOk(w) && WriterOk(w, p) && ClockFit(w, p, day)
    requires Exhausted(w.dir, pos) && pos.day < w.high
    ensures Exhausted(OpenedDir(w, p, day), pos) && Exhausted(WrittenDir(w, p, day), pos)
  {
    TargetIsNewest(w, p, day);
  }

  /** A step that adds `x` at the end of the rests involved and spoils no listing keeps the reader right. */
  lemma ReaderCarries(w: World, p: Process, w': World, p': Process, x: seq<nat>)
    requires ReaderOk(w, p) && p.fwd.Reading? && p'.fwd == p.fwd && p'.committed == p.committed
    requires w.high <= w'.high && At(w', p.fwd.pos)
    requires Rest(w'.dir, p.fwd.pos) == Rest(w.dir, p.fwd.pos) + x
    requires Rest(w'.dir, p.committed) == Rest(w.dir, p.committed) + x
    requires Listed(w'.dir, p.committed.day, p.fwd.names)
    requires CanNextFile(p.fwd) ==> Exhausted(w'.dir, p.fwd.pos)
    ensures ReaderOk(w', p')
  {
    Regroup(p.fwd.got, Rest(w.dir, p.fwd.pos), x);
  }

  lemma Regroup(a: seq<nat>, b: seq<nat>, c: seq<nat>)
    ensures a + (b + c) == a + b + c
  {
  }

  /** What DoAppend adds to the rests, and the directory it leaves. */
  lemma AppendAdds(w: World, p: Process, day: nat, e: C.Event, result: WriteResult, q: Position)
    requires FilesOk(w) && WriterOk(w, p) && ClockFit(w, p, day) && w.agent == Up(p) && At(w, q)
    ensures var w' := DoAppend(w, p, day, e, result);
            && w.high <= w'.high && At(w', q)
            && Rest(w'.dir, q) == Rest(w.dir, q) + NewLines(w, result)
  {
    AppendFiles(w, p, day, e, result);
    DirsOfAppend(w, p, day, e);
    match result
    case OpenFails => assert Rest(w.dir, q) + [] == Rest(w.dir, q);
    case WriteFails => OpenedRest(w, p, day, q); assert Rest(w.dir, q) + [] == Rest(w.dir, q);
    case Written(_) => WrittenRest(w, p, day, q);
  }

  /** Once the reader may go on to a newer name, the file it leaves is never written again. */
  lemma AppendReader(w: World, p: Process, day: nat, e: C.Event, result: WriteResult)
    requires FilesOk(w) && WriterOk(w, p) && ClockFit(w, p, day) && w.agent == Up(p)
    requires p.fwd.Reading? && ReaderOk(w, p) && At(w, p.committed)
    ensures var w' := DoAppend(w, p, day, e, result); ReaderOk(w', w'.agent.p)
  {
    hide Rest, LastPlain, PlainIndex, PlainDays, Search;
    var f := p.fwd;
    var w' := DoAppend(w, p, day, e, result);
    AppendAdds(w, p, day, e, result, f.pos);
    AppendAdds(w, p, day, e, result, p.committed);
    AppendListing(w, p, day, f.names, p.committed.day);
    DirsOfAppend(w, p, day, e);
    if CanNextFile(f) {
      assert f.names[Search(f.names, f.pos.day) + 1] in f.names;
      SearchFinds(f.names, f.pos.day);
      AppendExhausted(w, p, day, f.pos);
    }
    ReaderCarries(w, p, w', w'.agent.p, NewLines(w, result));
  }

  lemma DeliveryCarries(w: World, p: Process, w': World, p': Process, x: seq<nat>)
    requires DeliveryOk(w, p) && |w.history| <= |w'.history|
    requires p'.fwd == p.fwd && p'.committed == p.committed && p'.inflight == p.inflight
    requires forall i: nat :: i in x ==> i >= |w.history|
    requires Rest(w'.dir, START) == Rest(w.dir, START) + x
    requires Rest(w'.dir, p.committed) == Rest(w.dir, p.committed) + x
    requires Rest(w'.dir, p.inflight) == Rest(w.dir, p.inflight) + x
    ensures DeliveryOk(w', p')
  {
  }

  /** An append touches none of the forwarder's memory. */
  lemma AppendMemory(w: World, p: Process, day: nat, e: C.Event, result: WriteResult)
    requires w.agent == Up(p)
    ensures var w' := DoAppend(w, p, day, e, result);
            && w'.agent.Up? && w'.agent.p.fwd == p.fwd && w'.agent.p.committed == p.committed
            && w'.agent.p.inflight == p.inflight && |w.history| <= |w'.history|
  {
  }

  lemma AppendDelivery(w: World, p: Process, day: nat, e: C.Event, result: WriteResult, w': World)
    requires FilesOk(w) && WriterOk(w, p) && ClockFit(w, p, day) && w.agent == Up(p)
    requires At(w, p.committed) && At(w, p.inflight) && DeliveryOk(w, p)
    requires w' == DoAppend(w, p, day, e, result)
    ensures w'.agent.Up? && DeliveryOk(w', w'.agent.p)
  {
    AppendMemory(w, p, day, e, result);
    if p.fwd.Delivering? {
      AppendAdds(w, p, day, e, result, p.committed);
      AppendAdds(w, p, day, e, result, p.inflight);
      AppendAdds(w, p, day, e, result, START);
      DeliveryCarries(w, p, w', w'.agent.p, NewLines(w, result));
    }
  }

  lemma AppendKeeps(w: World, p: Process, day: nat, e: C.Event, result: WriteResult)
    requires Structure(w) && w.agent == Up(p) && ClockFit(w, p, day)
    ensures Structure(DoAppend(w, p, day, e, result))
  {
    AppendFiles(w, p, day, e, result);
    if p.fwd.Reading? {
      AppendReader(w, p, day, e, result);
    }
    AppendDelivery(w, p, day, e, result, DoAppend(w, p, day, e, result));
    AppendAdds(w, p, day, e, result, p.committed);
    AppendAdds(w, p, day, e, result, p.inflight);
    AppendAdds(w, p, day, e, result, w.disk);
  }

  // ---- the reader ----

  /** Between the reader and the next name it opens there is nothing unread. */
  lemma SkipToName(w: World, p: Process, i: nat)
    requires FilesOk(w) && ReaderOk(w, p) && p.fwd.Reading? && i < |p.fwd.names|
    requires i == Search(p.fwd.names, p.fwd.pos.day) + (if p.fwd.eof then 1 else 0)
    ensures p.fwd.names[i] >= p.fwd.pos.day
    ensures p.fwd.names[i] > p.fwd.pos.day ==> Rest(w.dir, Position(p.fwd.names[i], 0)) == Rest(w.dir, p.fwd.pos)
  {
    var f := p.fwd;
    if f.eof {
      SearchFinds(f.names, f.pos.day);
    }
    if f.names[i] > f.pos.day {
      assert f.names[i] in f.names;
      forall k | 0 <= k < |w.dir| && !w.dir[k].gz && f.pos.day <= w.dir[k].day < f.names[i]
        ensures w.dir[k].day == f.pos.day && f.pos.offset == |w.dir[k].content|
      {
        BetweenNames(f.names, f.pos.day, i, w.dir[k].day);
      }
      RestSkip(w.dir, f.pos, f.names[i]);
    }
  }

  lemma ReadFileKeeps(w: World, p: Process, k: nat)
    requires FilesOk(w) && ReaderOk(w, p) && CanReadFile(w, p.fwd, k)
    ensures ReaderOk(w, p.(fwd := DoReadFile(w, p.fwd, k)))
  {
    hide Rest, Search;
    var f := p.fwd;
    var file := w.dir[k];
    var g := DoReadFile(w, f, k);
    var from := StartIn(file, f.pos);
    var n := g.pos.offset - from;
    var start := Position(file.day, from);
    SkipToName(w, p, Search(f.names, f.pos.day));
    assert Rest(w.dir, start) == Rest(w.dir, f.pos);
    assert file.day in f.names;
    RestAdvance(w.dir, k, from, n);
    Regroup(f.got, file.content[from..from + n], Rest(w.dir, g.pos));
    OnlyPlain(w.dir, k);
  }

  lemma NextFileKeeps(w: World, p: Process)
    requires FilesOk(w) && ReaderOk(w, p) && CanNextFile(p.fwd)
    ensures var next := p.fwd.names[Search(p.fwd.names, p.fwd.pos.day) + 1];
            ReaderOk(w, p.(fwd := p.fwd.(pos := Position(next, 0), eof := false)))
  {
    hide Rest, Search;
    var f := p.fwd;
    var i := Search(f.names, f.pos.day) + 1;
    SearchFinds(f.names, f.pos.day);
    SkipToName(w, p, i);
    assert f.names[i] in f.names;
  }

  lemma FinishKeeps(w: World, p: Process, batch: string)
    requires Structure(w) && w.agent == Up(p) && CanFinish(p.fwd) && ReadyToDeliver(p.fwd)
    ensures DeliveryOk(w, p.(inflight := p.fwd.pos, fwd := Delivering(batch, p.fwd.got, p.fwd.pos)))
  {
    var f := p.fwd;
    var all := Rest(w.dir, p.committed);
    RestIncreasing(w.dir, p.committed);
    assert forall j :: 0 <= j < |f.got| ==> f.got[j] == all[j];
    forall i: nat | i in all ensures i in Rest(w.dir, START) {
      RestInAll(w.dir, p.committed, i);
    }
    assert forall i: nat :: i in f.got ==> i in all;
  }

  // ---- the janitor ----

  /** `dir` is `w.dir` with plain file `k` gone: removed, or replaced by its compressed form. */
  ghost predicate Without(w: World, k: nat, dir: seq<File<nat>>) {
    && k < |w.dir|
    && (dir == w.dir[..k] + w.dir[k + 1..] || dir == w.dir[k := w.dir[k].(gz := true)])
  }

  lemma WithoutRest(w: World, k: nat, dir: seq<File<nat>>, p: Position)
    requires Without(w, k, dir)
    ensures Rest(dir, p) == Rest(w.dir[..k], p) + Rest(w.dir[k + 1..], p)
    ensures |Rest(dir, p)| + |Part(w.dir[k], p)| == |Rest(w.dir, p)|
    ensures Part(w.dir[k], p) == [] ==> Rest(dir, p) == Rest(w.dir, p)
  {
    RestRemove(w.dir, k, p);
    RestSplit(w.dir, k, p);
    RestUpdate(w.dir, k, w.dir[k].(gz := true), p);
    DropMiddle(Rest(w.dir[..k], p), Rest(w.dir[k + 1..], p));
  }

  lemma DropMiddle(a: seq<nat>, c: seq<nat>)
    ensures a + [] + c == a + c
  {
  }

  /** Files that stay are files that were there. */
  lemma WithoutFiles(w: World, k: nat, dir: seq<File<nat>>)
    requires Without(w, k, dir) && FilesOk(w)
    ensures FilesOk(w.(dir := dir))
  {
    var before, part, after := Rest(w.dir[..k], START), Part(w.dir[k], START), Rest(w.dir[k + 1..], START);
    WithoutRest(w, k, dir, START);
    RestSplit(w.dir, k, START);
    IncreasingApart(before, part, after);
    SubsetOf(before, part, after);
    WithoutListing(w, k, dir);
  }

  lemma SubsetOf(a: seq<nat>, b: seq<nat>, c: seq<nat>)
    ensures forall i: nat :: i in a + c ==> i in a + b + c
  {
  }

  lemma WithoutListing(w: World, k: nat, dir: seq<File<nat>>)
    requires Without(w, k, dir) && FilesOk(w)
    ensures PlainOrdered(dir) && forall j :: 0 <= j < |dir| ==> dir[j].day <= w.high
  {
    if dir == w.dir[..k] + w.dir[k + 1..] {
      assert forall j :: 0 <= j < |dir| ==> dir[j] == w.dir[if j < k then j else j + 1];
    }
  }

  lemma WithoutFits(w: World, k: nat, dir: seq<File<nat>>, p: Position)
    requires Without(w, k, dir) && Fits(w.dir, p)
    ensures Fits(dir, p)
  {
    if dir == w.dir[..k] + w.dir[k + 1..] {
      assert forall j :: 0 <= j < |dir| ==> dir[j] == w.dir[if j < k then j else j + 1];
    }
  }

  lemma WithoutKeepsNewest(w: World, k: nat, dir: seq<File<nat>>, day: nat)
    requires Without(w, k, dir) && HasPlain(w.dir, day) && (w.dir[k].gz || w.dir[k].day != day)
    ensures HasPlain(dir, day)
  {
    var j :| 0 <= j < |w.dir| && !w.dir[j].gz && w.dir[j].day == day;
    var j' := if dir == w.dir[k := w.dir[k].(gz := true)] || j < k then j else j - 1;
    assert dir[j'].day == day && !dir[j'].gz;
  }

  /** Membership after file `k` is gone. */
  lemma WithoutMember(w: World, k: nat, dir: seq<File<nat>>, p: Position, i: nat)
    requires Without(w, k, dir) && FilesOk(w)
    ensures i in Rest(dir, p) <==> i in Rest(w.dir, p) && i !in Part(w.dir[k], START)
  {
    WithoutRest(w, k, dir, p);
    RestRemove(w.dir, k, p);
    RestWithout(w.dir, k, p, i);
  }

  lemma WithoutDelivery(w: World, p: Process, k: nat, dir: seq<File<nat>>)
    requires Without(w, k, dir) && FilesOk(w) && DeliveryOk(w, p)
    ensures DeliveryOk(w.(dir := dir), p)
  {
    forall i: nat
      ensures i in Rest(dir, START) ==> i in Rest(w.dir, START)
      ensures i in Rest(dir, p.committed) <==> i in Rest(w.dir, p.committed) && i !in Part(w.dir[k], START)
      ensures i in Rest(dir, p.inflight) <==> i in Rest(w.dir, p.inflight) && i !in Part(w.dir[k], START)
      ensures i in Rest(dir, START) ==> i !in Part(w.dir[k], START)
    {
      WithoutMember(w, k, dir, START, i);
      WithoutMember(w, k, dir, p.committed, i);
      WithoutMember(w, k, dir, p.inflight, i);
    }
  }

  /**
   The code's own check protects the writer's file unless the name that Cleanup looked up is out of date:
   none at all, or one older than the writer's by now with an age limit that is past the writer's.
   */
  lemma StaleNameOnly(w: World, p: Process, k: nat)
    requires k < |w.dir| && MayRemove(p.janitor, w.dir[k]) && p.name != 0 && p.janitor.current <= p.name
    ensures !CleanupFit(p, w.dir[k]) ==>
              p.janitor.current != p.name && (p.janitor.current == 0 || p.name < p.janitor.cutoff)
  {
  }

  lemma RemoveKeeps(w: World, p: Process, k: nat)
    requires Structure(w) && w.agent == Up(p) && EnabledUp(w, p, Remove(k))
    ensures Structure(DoRemove(w, p, k))
  {
    WithoutKeeps(w, p, k, w.dir[..k] + w.dir[k + 1..]);
  }

  lemma WithoutKeeps(w: World, p: Process, k: nat, dir: seq<File<nat>>)
    requires Structure(w) && w.agent == Up(p) && Without(w, k, dir)
    requires p.name != 0 ==> w.dir[k].gz || w.dir[k].day != w.high
    ensures FilesOk(w.(dir := dir)) && At(w.(dir := dir), w.disk) && DeliveryOk(w.(dir := dir), p)
    ensures At(w.(dir := dir), p.committed) && At(w.(dir := dir), p.inflight) && WriterOk(w.(dir := dir), p)
  {
    WithoutFiles(w, k, dir);
    WithoutDelivery(w, p, k, dir);
    WithoutFits(w, k, dir, w.disk);
    WithoutFits(w, k, dir, p.committed);
    WithoutFits(w, k, dir, p.inflight);
    if p.name != 0 {
      WithoutKeepsNewest(w, k, dir, w.high);
    }
  }

  /** Compressing takes no file that a reader or the writer can still open. */
  lemma CompressKeeps(w: World, p: Process, k: nat)
    requires Structure(w) && w.agent == Up(p) && EnabledUp(w, p, Compress(k))
    ensures Structure(Apply(w, Compress(k)))
    ensures Rest(Apply(w, Compress(k)).dir, p.committed) == Rest(w.dir, p.committed)
    ensures w.dir[k].day < p.committed.day <= w.high
  {
    hide Rest, PlainDays, Search, LastPlain;
    var dir := w.dir[k := w.dir[k].(gz := true)];
    WithoutKeeps(w, p, k, dir);
    WithoutRest(w, k, dir, p.committed);
    if p.fwd.Reading? {
      WithoutFits(w, k, dir, p.fwd.pos);
      WithoutRest(w, k, dir, p.fwd.pos);
      NoMore(Rest(w.dir, p.committed), Rest(w.dir, p.fwd.pos));
      ReaderCarries(w, p, w.(dir := dir), p, []);
    }
  }

  lemma NoMore(a: seq<nat>, b: seq<nat>)
    ensures a + [] == a && b + [] == b
  {
  }

  // ---- every step ----

  lemma StructureUp(w: World, p: Process, a: Action)
    requires Structure(w) && w.agent == Up(p) && EnabledUp(w, p, a)
    ensures Structure(ApplyUp(w, p, a))
  {
    hide Structure, Rest, PlainDays, Search, LastPlain, C.Saved;
    match a
    case Append(day, e, result) => AppendKeeps(w, p, day, e, result);
    case StartRead(max, partial) => StartReadKeeps(w, p, max, partial);
    case ReadFile(k) => ReadFileStep(w, p, k);
    case NextFile => NextFileStep(w, p);
    case FinishRead(batch) => FinishReadKeeps(w, p, batch);
    case Remove(k) => RemoveKeeps(w, p, k);
    case Compress(k) => CompressKeeps(w, p, k);
    case ReadFails => OtherKeeps(w, p, a);
    case SendPost => OtherKeeps(w, p, a);
    case LookAtCurrent(_) => JanitorKeeps(w, p, a);
    case PickCompress => JanitorKeeps(w, p, a);
    case Report => JanitorKeeps(w, p, a);
    case Accept => SettleKeeps(w, p, a);
    case Reject => SettleKeeps(w, p, a);
    case Persist(_) => SettleKeeps(w, p, a);
    case CountSettled => SettleKeeps(w, p, a);
    case Kill => StructureOutside(w, a);
  }

  lemma StartReadKeeps(w: World, p: Process, max: nat, partial: bool)
    requires Structure(w) && w.agent == Up(p) && EnabledUp(w, p, StartRead(max, partial))
    ensures Structure(ApplyUp(w, p, StartRead(max, partial)))
  {
    hide Rest, Search, LastPlain, PlainDays;
    PlainDaysListed(w.dir);
    Regroup([], [], Rest(w.dir, p.committed));
  }

  lemma ReadFileStep(w: World, p: Process, k: nat)
    requires Structure(w) && w.agent == Up(p) && EnabledUp(w, p, ReadFile(k))
    ensures Structure(ApplyUp(w, p, ReadFile(k)))
  {
    hide Rest, PlainDays, Search, LastPlain;
    ReadFileKeeps(w, p, k);
  }

  lemma NextFileStep(w: World, p: Process)
    requires Structure(w) && w.agent == Up(p) && EnabledUp(w, p, NextFile)
    ensures Structure(ApplyUp(w, p, NextFile))
  {
    hide Rest, PlainDays, Search, LastPlain;
    NextFileKeeps(w, p);
  }

  lemma FinishReadKeeps(w: World, p: Process, batch: string)
    requires Structure(w) && w.agent == Up(p) && EnabledUp(w, p, FinishRead(batch))
    ensures Structure(ApplyUp(w, p, FinishRead(batch)))
  {
    if ReadyToDeliver(p.fwd) {
      FinishKeeps(w, p, batch);
    }
  }

  lemma SettleKeeps(w: World, p: Process, a: Action)
    requires Structure(w) && w.agent == Up(p) && EnabledUp(w, p, a)
    requires a.Accept? || a.Reject? || a.Persist? || a.CountSettled?
    ensures Structure(ApplyUp(w, p, a))
  {
    hide Rest, PlainDays, Search, LastPlain, C.Saved;
  }

  lemma JanitorKeeps(w: World, p: Process, a: Action)
    requires Structure(w) && w.agent == Up(p) && EnabledUp(w, p, a)
    requires a.LookAtCurrent? || a.PickCompress? || a.Report?
    ensures Structure(ApplyUp(w, p, a))
  {
    hide Rest, PlainDays, Search, LastPlain, C.Saved;
  }

  lemma OtherKeeps(w: World, p: Process, a: Action)
    requires Structure(w) && w.agent == Up(p) && EnabledUp(w, p, a) && (a.ReadFails? || a.SendPost?)
    ensures Structure(ApplyUp(w, p, a))
  {
    hide Rest, PlainDays, Search, LastPlain, C.Saved;
  }

  lemma StructureOutside(w: World, a: Action)
    requires Structure(w) && Enabled(w, a) && (a.Serve? || a.ServeOther? || a.Kill?)
    ensures Structure(Apply(w, a))
  {
  }

  lemma StructureStart(w: World, readable: bool)
    requires Structure(w) && w.agent.Down?
    ensures Structure(DoStart(w, readable))
  {
    assert Fits(w.dir, START);
  }

  lemma StructureStep(w: World, a: Action)
    requires Structure(w) && Enabled(w, a)
    ensures Structure(Apply(w, a))
  {
    hide Structure, Rest, PlainDays, Search, C.Saved;
    if a.Serve? || a.ServeOther? || a.Kill? {
      StructureOutside(w, a);
    } else if a.Start? {
      StructureStart(w, a.readable);
    } else {
      StructureUp(w, w.agent.p, a);
    }
  }
}
