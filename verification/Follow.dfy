/**
 `agent tail` (internal/agent/cli.go): following the spool files across rollovers while they are written
 and cleaned up. Files hold lines here and `off` counts lines; TailRead does the same in bytes.
 */
module Follow {
  import opened Lines
  import opened SpoolModel

  // ---- one read, in bytes ----

  /** tailRead: every complete line from `off` on; a torn one is left for the next time. */
  method TailRead(content: seq<byte>, off: nat) returns (end: nat, printed: seq<Line>)
    ensures var start := if |content| < off then 0 else off;
            && start <= end <= |content| && NL !in content[end..]
            && printed == LinesOf(content[start..])
            && (Complete(content[..start]) ==>
                  && Complete(content[..end])
                  && LinesOf(content[..start]) + printed == LinesOf(content) == LinesOf(content[..end]))
  {
    hide LinesOf, Complete;
    end, printed := off, [];
    if |content| < off {
      end := 0;
    }
    ghost var start := end;
    while NL in content[end..]
      invariant start <= end <= |content|
      invariant printed + LinesOf(content[end..]) == LinesOf(content[start..])
      invariant Complete(content[..start]) ==> Complete(content[..end])
      decreases |content| - end
    {
      var k := FirstBreak(content[end..]);
      NextLine(content, end, printed);
      printed := printed + [content[end..][..k]];
      end := end + k;
    }
    TornLeft(content, start, end, printed);
  }

  lemma NextLine(content: seq<byte>, end: nat, printed: seq<Line>)
    requires end <= |content| && NL in content[end..]
    ensures var k := FirstBreak(content[end..]);
            && end + k <= |content| && Complete(content[..end + k])
            && printed + LinesOf(content[end..]) == printed + [content[end..][..k]] + LinesOf(content[end + k..])
  {
    hide LinesOf;
    var rest := content[end..];
    var k := FirstBreak(rest);
    LinesOfFirst(rest, k);
    assert rest[k..] == content[end + k..];
    assert content[end + k - 1] == rest[k - 1];
  }

  lemma TornLeft(content: seq<byte>, start: nat, end: nat, printed: seq<Line>)
    requires start <= end <= |content| && NL !in content[end..]
    requires printed + LinesOf(content[end..]) == LinesOf(content[start..])
    ensures printed == LinesOf(content[start..])
    ensures Complete(content[..start]) ==> LinesOf(content[..start]) + printed == LinesOf(content)
    ensures Complete(content[..end]) ==> LinesOf(content[..end]) == LinesOf(content)
  {
    hide LinesOf, Complete;
    NoLine(content[end..]);
    CutAt(content, start);
    CutAt(content, end);
    assert printed + [] == printed && LinesOf(content[..end]) + [] == LinesOf(content[..end]);
  }

  lemma NoLine(s: seq<byte>)
    requires NL !in s
    ensures LinesOf(s) == []
  {
  }

  lemma CutAt(content: seq<byte>, k: nat)
    requires k <= |content|
    ensures Complete(content[..k]) ==> LinesOf(content) == LinesOf(content[..k]) + LinesOf(content[k..])
  {
    if Complete(content[..k]) {
      LinesOfAppend(content[..k], content[k..]);
      assert content == content[..k] + content[k..];
    }
  }

  // ---- the loop, among writes and cleanups ----

  datatype Phase = First | Look | Second(latest: nat)

  /** `appended` collects the lines appended since the start; `out` those printed. */
  datatype State = State(dir: seq<File<Line>>, appended: seq<Line>, cur: nat, off: nat, out: seq<Line>, phase: Phase)

  datatype Step =
    | Create(day: nat)
    | Write(k: nat, line: Line)
    | Drop(k: nat)
    | ReadFirst
    | LookAround
    | ReadSecond

  function At(s: State): Position {
    Position(s.cur, s.off)
  }

  /** Files are created in date order, and only the newest is written; of the others the followed one stays. */
  predicate Enabled(s: State, a: Step) {
    match a
    case Create(day) => day > LastPlain(s.dir)
    case Write(k, _) => k < |s.dir| && IsNewestPlain(s.dir, k)
    case Drop(k) => k < |s.dir| && (s.dir[k].gz || s.dir[k].day < s.cur)
    case ReadFirst => s.phase.First?
    case LookAround => s.phase.Look?
    case ReadSecond => s.phase.Second?
  }

  /** tailRead of the followed file; there may be none. */
  function Read(s: State): State {
    if !HasPlain(s.dir, s.cur) then s else
      var f := s.dir[PlainIndex(s.dir, s.cur)];
      s.(out := s.out + f.content[StartIn(f, At(s))..], off := |f.content|)
  }

  function Apply(s: State, a: Step): State
    requires Enabled(s, a)
  {
    match a
    case Create(day) => s.(dir := s.dir + [File(day, false, [])])
    case Write(k, line) => s.(dir := Grown(s.dir, k, [line]), appended := s.appended + [line])
    case Drop(k) => s.(dir := s.dir[..k] + s.dir[k + 1..])
    case ReadFirst => Read(s).(phase := Look)
    case LookAround =>
      if LastPlain(s.dir) > s.cur then s.(phase := Second(LastPlain(s.dir))) else s.(phase := First)
    case ReadSecond => Read(s).(cur := s.phase.latest, off := 0, phase := First)
  }

  predicate Possible(s: State, steps: seq<Step>)
    decreases |steps|
  {
    steps == [] || (Enabled(s, steps[0]) && Possible(Apply(s, steps[0]), steps[1..]))
  }

  function Run(s: State, steps: seq<Step>): State
    requires Possible(s, steps)
    decreases |steps|
  {
    if steps == [] then s else Run(Apply(s, steps[0]), steps[1..])
  }

  /** At the start the newest file is followed, from its end. */
  function Start(dir: seq<File<Line>>): State {
    var cur := LastPlain(dir);
    State(dir, [], cur, if HasPlain(dir, cur) then |dir[PlainIndex(dir, cur)].content| else 0, [], First)
  }

  // ---- what every step keeps ----

  predicate Ok(s: State) {
    && PlainOrdered(s.dir) && (forall k :: 0 <= k < |s.dir| && !s.dir[k].gz ==> s.dir[k].day > 0)
    && Fits(s.dir, At(s))
    && (s.cur > 0 ==> HasPlain(s.dir, s.cur))
    && (s.phase.Second? ==> s.cur < s.phase.latest && HasPlain(s.dir, s.phase.latest))
  }

  /** What was printed and what the reader still has before it are the lines appended, in order. */
  predicate Exact(s: State) {
    s.appended == s.out + Rest(s.dir, At(s))
  }

  predicate NothingBetween(dir: seq<File<Line>>, day: nat, later: nat) {
    forall k :: 0 <= k < |dir| && !dir[k].gz && day < dir[k].day < later ==> dir[k].content == []
  }

  /** No file with lines lies between the one followed and the one it goes on to. */
  predicate SwitchFit(s: State) {
    s.phase.Second? ==> NothingBetween(s.dir, s.cur, s.phase.latest)
  }

  lemma StartOk(dir: seq<File<Line>>)
    requires PlainOrdered(dir) && forall k :: 0 <= k < |dir| && !dir[k].gz ==> dir[k].day > 0
    ensures Ok(Start(dir)) && Exact(Start(dir))
  {
    var s := Start(dir);
    if HasPlain(dir, s.cur) {
      OnlyPlain(dir, PlainIndex(dir, s.cur));
    }
    forall k | 0 <= k < |dir| ensures Part(dir[k], At(s)) == [] {
      if !dir[k].gz && dir[k].day == s.cur {
        assert HasPlain(dir, s.cur);
      }
    }
    RestEmpty(dir, At(s));
  }

  lemma CreateStep(s: State, day: nat)
    requires Ok(s) && Enabled(s, Create(day))
    ensures Ok(Apply(s, Create(day))) && Rest(Apply(s, Create(day)).dir, At(s)) == Rest(s.dir, At(s))
  {
    hide Rest;
    var dir' := s.dir + [File(day, false, [])];
    assert forall k :: 0 <= k < |s.dir| ==> dir'[k] == s.dir[k];
    assert dir'[|s.dir|].day == day;
    RestPush(s.dir, day, [], At(s));
    forall d: nat | HasPlain(s.dir, d) ensures HasPlain(dir', d) {
      var k :| 0 <= k < |s.dir| && !s.dir[k].gz && s.dir[k].day == d;
      assert dir'[k].day == d;
    }
  }

  lemma WriteStep(s: State, k: nat, line: Line)
    requires Ok(s) && Enabled(s, Write(k, line))
    ensures Ok(Apply(s, Write(k, line))) && Rest(Apply(s, Write(k, line)).dir, At(s)) == Rest(s.dir, At(s)) + [line]
  {
    hide Rest;
    var dir' := Grown(s.dir, k, [line]);
    NewestDay(s.dir, k);
    RestGrow(s.dir, k, [line], At(s));
    forall d: nat | HasPlain(s.dir, d) ensures HasPlain(dir', d) {
      var j :| 0 <= j < |s.dir| && !s.dir[j].gz && s.dir[j].day == d;
      assert dir'[j].day == d;
    }
  }

  lemma NewestDay(dir: seq<File<Line>>, k: nat)
    requires k < |dir| && PlainOrdered(dir) && IsNewestPlain(dir, k)
    ensures LastPlain(dir) == dir[k].day
  {
    LastPlainIs(dir, dir[k].day);
  }

  lemma DropStep(s: State, k: nat)
    requires Ok(s) && Enabled(s, Drop(k))
    ensures Ok(Apply(s, Drop(k))) && Rest(Apply(s, Drop(k)).dir, At(s)) == Rest(s.dir, At(s))
  {
    hide Rest, PlainOrdered, Fits, HasPlain;
    RestSplit(s.dir, k, At(s));
    RestRemove(s.dir, k, At(s));
    Dropped(s.dir, k, At(s));
    StillThere(s.dir, k, s.cur);
    if s.phase.Second? {
      StillThere(s.dir, k, s.phase.latest);
    }
  }

  lemma Dropped(dir: seq<File<Line>>, k: nat, p: Position)
    requires k < |dir| && PlainOrdered(dir) && Fits(dir, p)
    ensures var dir' := dir[..k] + dir[k + 1..];
            && PlainOrdered(dir') && Fits(dir', p)
            && forall j :: 0 <= j < |dir'| ==> dir'[j] == dir[if j < k then j else j + 1]
  {
  }

  lemma StillThere(dir: seq<File<Line>>, k: nat, day: nat)
    requires k < |dir| && (dir[k].gz || dir[k].day != day)
    ensures HasPlain(dir, day) ==> HasPlain(dir[..k] + dir[k + 1..], day)
  {
    if HasPlain(dir, day) {
      var dir' := dir[..k] + dir[k + 1..];
      var j :| 0 <= j < |dir| && !dir[j].gz && dir[j].day == day;
      assert dir'[if j < k then j else j - 1] == dir[j];
    }
  }

  /** The reader has printed all of the file it follows. */
  predicate AtEnd(dir: seq<File<Line>>, p: Position) {
    forall k :: 0 <= k < |dir| && !dir[k].gz && dir[k].day == p.day ==> p.offset == |dir[k].content|
  }

  /** A read prints what the reader has before it in the followed file, and no line of it twice. */
  lemma ReadKeeps(s: State)
    requires Ok(s)
    ensures var s' := Read(s);
            && Ok(s') && s'.dir == s.dir && s'.cur == s.cur
            && s'.out + Rest(s.dir, At(s')) == s.out + Rest(s.dir, At(s))
            && AtEnd(s.dir, At(s'))
  {
    hide Rest;
    if HasPlain(s.dir, s.cur) {
      var k := PlainIndex(s.dir, s.cur);
      OnlyPlain(s.dir, k);
      var content := s.dir[k].content;
      RestAdvance(s.dir, k, s.off, |content| - s.off);
      assert content[s.off..|content|] == content[s.off..];
      Assoc(s.out, content[s.off..], Rest(s.dir, At(Read(s))));
    }
  }

  lemma PartsLeft(dir: seq<File<Line>>, p: Position, day: nat, k: nat)
    requires k < |dir| && p.day < day && AtEnd(dir, p)
    ensures var between := !dir[k].gz && p.day < dir[k].day < day;
            Part(dir[k], Position(day, 0)) == (if between then [] else Part(dir[k], p))
            && (between ==> Part(dir[k], p) == dir[k].content)
  {
  }

  /** Going on to the newer file leaves nothing out exactly when no file with lines lies in between. */
  lemma SwitchExactly(dir: seq<File<Line>>, p: Position, day: nat)
    requires p.day < day && AtEnd(dir, p)
    ensures Rest(dir, Position(day, 0)) == Rest(dir, p) <==> NothingBetween(dir, p.day, day)
  {
    hide Rest, Part, AtEnd;
    forall k | 0 <= k < |dir| ensures |Part(dir[k], Position(day, 0))| <= |Part(dir[k], p)| {
      PartsLeft(dir, p, day, k);
    }
    if NothingBetween(dir, p.day, day) {
      forall k | 0 <= k < |dir| ensures Part(dir[k], p) == Part(dir[k], Position(day, 0)) {
        PartsLeft(dir, p, day, k);
      }
      RestSame(dir, p, Position(day, 0));
    } else {
      var k :| 0 <= k < |dir| && !dir[k].gz && p.day < dir[k].day < day && dir[k].content != [];
      PartsLeft(dir, p, day, k);
      LessRest(dir, p, Position(day, 0), k);
    }
  }

  /** Where a file is passed over, less is left. */
  lemma {:induction false} LessRest(dir: seq<File<Line>>, p: Position, q: Position, k: nat)
    requires k < |dir| && forall j :: 0 <= j < |dir| ==> |Part(dir[j], q)| <= |Part(dir[j], p)|
    requires |Part(dir[k], q)| < |Part(dir[k], p)|
    ensures |Rest(dir, q)| < |Rest(dir, p)|
  {
    hide Part;
    assert forall j :: 0 <= j < |dir[1..]| ==> dir[1..][j] == dir[j + 1];
    if k > 0 {
      LessRest(dir[1..], p, q, k - 1);
    } else {
      NoMoreRest(dir[1..], p, q);
    }
  }

  lemma {:induction false} NoMoreRest(dir: seq<File<Line>>, p: Position, q: Position)
    requires forall j :: 0 <= j < |dir| ==> |Part(dir[j], q)| <= |Part(dir[j], p)|
    ensures |Rest(dir, q)| <= |Rest(dir, p)|
  {
    hide Part;
    if dir != [] {
      assert forall j :: 0 <= j < |dir[1..]| ==> dir[1..][j] == dir[j + 1];
      NoMoreRest(dir[1..], p, q);
    }
  }

  lemma SecondStep(s: State)
    requires Ok(s) && Exact(s) && Enabled(s, ReadSecond)
    ensures Ok(Apply(s, ReadSecond))
    ensures Exact(Apply(s, ReadSecond)) <==> SwitchFit(s)
  {
    hide Rest;
    var s1, s2 := Read(s), Apply(s, ReadSecond);
    ReadKeeps(s);
    SwitchExactly(s.dir, At(s1), s.phase.latest);
    SameEnd(s1.out, Rest(s.dir, At(s1)), Rest(s.dir, At(s2)));
    InRange(s.dir, s.phase.latest);
  }

  lemma InRange(dir: seq<File<Line>>, day: nat)
    requires HasPlain(dir, day)
    ensures day <= LastPlain(dir) && Fits(dir, Position(day, 0))
  {
    var k :| 0 <= k < |dir| && !dir[k].gz && dir[k].day == day;
  }

  lemma StepKeeps(s: State, a: Step)
    requires Ok(s) && Exact(s) && Enabled(s, a)
    ensures Ok(Apply(s, a))
    ensures Exact(Apply(s, a)) <==> (a.ReadSecond? ==> SwitchFit(s))
  {
    hide Rest, PlainOrdered, Fits, HasPlain, LastPlain;
    match a
    case Create(day) => CreateStep(s, day);
    case Write(k, line) => WriteStep(s, k, line); Assoc(s.out, Rest(s.dir, At(s)), [line]);
    case Drop(k) => DropStep(s, k);
    case ReadFirst => ReadKeeps(s);
    case LookAround => LookStep(s);
    case ReadSecond => SecondStep(s);
  }

  lemma LookStep(s: State)
    requires Ok(s) && Enabled(s, LookAround)
    ensures Ok(Apply(s, LookAround)) && At(Apply(s, LookAround)) == At(s)
  {
  }

  // ---- whole runs ----

  predicate AlwaysExact(s: State, steps: seq<Step>)
    requires Possible(s, steps)
    decreases |steps|
  {
    Exact(s) && (steps == [] || AlwaysExact(Apply(s, steps[0]), steps[1..]))
  }

  /** At every switch to a newer file, no file with lines lies in between. */
  predicate SwitchesFit(s: State, steps: seq<Step>)
    requires Possible(s, steps)
    decreases |steps|
  {
    steps == [] || ((steps[0].ReadSecond? ==> SwitchFit(s)) && SwitchesFit(Apply(s, steps[0]), steps[1..]))
  }

  /**
   `tail` prints every line appended after it starts exactly once and in order, at every moment of a run,
   if and only if it never goes past a file that holds lines.
   */
  lemma {:induction false} TailExactly(s: State, steps: seq<Step>)
    requires Ok(s) && Exact(s) && Possible(s, steps)
    ensures AlwaysExact(s, steps) <==> SwitchesFit(s, steps)
    decreases |steps|
  {
    if steps != [] {
      var s' := Apply(s, steps[0]);
      StepKeeps(s, steps[0]);
      if Exact(s') {
        TailExactly(s', steps[1..]);
      }
    }
  }

  lemma {:induction false} ExactAtEnd(s: State, steps: seq<Step>)
    requires Possible(s, steps) && AlwaysExact(s, steps)
    ensures Exact(Run(s, steps))
    decreases |steps|
  {
    if steps != [] {
      ExactAtEnd(Apply(s, steps[0]), steps[1..]);
    }
  }

  /** From any spool: what was printed is a prefix of what was appended, and all of it once nothing is left to read. */
  lemma TailPrintsAll(dir: seq<File<Line>>, steps: seq<Step>)
    requires PlainOrdered(dir) && forall k :: 0 <= k < |dir| && !dir[k].gz ==> dir[k].day > 0
    requires Possible(Start(dir), steps) && SwitchesFit(Start(dir), steps)
    ensures var s := Run(Start(dir), steps);
            && s.out <= s.appended
            && (Rest(s.dir, At(s)) == [] ==> s.out == s.appended)
  {
    StartOk(dir);
    TailExactly(Start(dir), steps);
    ExactAtEnd(Start(dir), steps);
  }

  lemma NewestRead(dir: seq<File<Line>>, p: Position)
    requires AtEnd(dir, p) && LastPlain(dir) <= p.day
    ensures Rest(dir, p) == []
  {
    forall k | 0 <= k < |dir| ensures Part(dir[k], p) == [] {
    }
    RestEmpty(dir, p);
  }

  predicate OnlyReads(steps: seq<Step>) {
    forall a :: a in steps ==> a.ReadFirst? || a.LookAround? || a.ReadSecond?
  }

  /**
   Left alone, the reader follows the newest file and has printed all of it after at most two polls, and it has
   printed all there is to print.
   */
  lemma CatchesUp(s: State) returns (steps: seq<Step>)
    requires Ok(s) && s.phase.First?
    ensures Possible(s, steps) && OnlyReads(steps) && |steps| <= 4
    ensures var s' := Run(s, steps);
            s'.dir == s.dir && s'.cur == LastPlain(s.dir) && Rest(s'.dir, At(s')) == []
  {
    hide Rest, LastPlain, PlainOrdered, Read, Fits;
    var s1 := Apply(s, ReadFirst);
    ReadKeeps(s);
    Nothing(s);
    RunSnoc(s, [], ReadFirst);
    steps := [ReadFirst];
    assert [] + [ReadFirst] == steps;
    if LastPlain(s.dir) > s.cur {
      var s2 := Apply(s1, LookAround);
      RunSnoc(s, steps, LookAround);
      ReadKeeps(s2);
      RunSnoc(s, steps + [LookAround], ReadSecond);
      var s3 := Apply(s2, ReadSecond);
      SwitchedOk(s2);
      ReadKeeps(s3);
      RunSnoc(s, steps + [LookAround] + [ReadSecond], ReadFirst);
      steps := steps + [LookAround] + [ReadSecond] + [ReadFirst];
      NewestRead(s.dir, At(Apply(s3, ReadFirst)));
    } else {
      NewestFollowed(s);
      NewestRead(s.dir, At(s1));
    }
  }

  lemma NewestFollowed(s: State)
    requires Ok(s) && LastPlain(s.dir) <= s.cur
    ensures s.cur == LastPlain(s.dir)
  {
    if s.cur > 0 {
      InRange(s.dir, s.cur);
    }
  }

  lemma SwitchedOk(s: State)
    requires Ok(s) && s.phase.Second?
    ensures Ok(Apply(s, ReadSecond)) && Apply(s, ReadSecond).dir == s.dir
  {
    hide Rest;
    ReadKeeps(s);
    InRange(s.dir, s.phase.latest);
  }

  // ---- a run that goes past a file ----

  lemma {:induction false} RunSnoc(s: State, steps: seq<Step>, a: Step)
    requires Possible(s, steps) && Enabled(Run(s, steps), a)
    ensures Possible(s, steps + [a]) && Run(s, steps + [a]) == Apply(Run(s, steps), a)
    decreases |steps|
  {
    if steps == [] {
      assert [] + [a] == [a];
    } else {
      assert (steps + [a])[1..] == steps[1..] + [a];
      RunSnoc(Apply(s, steps[0]), steps[1..], a);
    }
  }

  function Plain(day: nat, content: seq<Line>): File<Line> {
    File(day, false, content)
  }

  lemma Newest(dir: seq<File<Line>>, k: nat)
    requires k + 1 == |dir| && PlainOrdered(dir) && !dir[k].gz
    ensures HasPlain(dir, dir[k].day) && LastPlain(dir) == dir[k].day && PlainIndex(dir, dir[k].day) == k
    ensures IsNewestPlain(dir, k)
  {
    LastPlainIs(dir, dir[k].day);
    OnlyPlain(dir, k);
  }

  /** The second file gets a line, and a third is created, before the loop looks around again. */
  lemma TwoNewFiles(line: Line) returns (steps: seq<Step>)
    ensures Possible(Start([Plain(1, [])]), steps)
    ensures Run(Start([Plain(1, [])]), steps) ==
            State([Plain(1, []), Plain(2, [line]), Plain(3, [])], [line], 1, 0, [], First)
  {
    hide Possible, Run, LastPlain, PlainIndex, HasPlain;
    var dir := [Plain(1, [])];
    Newest(dir, 0);
    var s := Start(dir);
    Nothing(s);
    steps := [];
    RunSnoc(s, steps, Create(2));
    steps := steps + [Create(2)];
    assert Run(s, steps).dir == [Plain(1, []), Plain(2, [])];
    Newest([Plain(1, []), Plain(2, [])], 1);
    RunSnoc(s, steps, Write(1, line));
    steps := steps + [Write(1, line)];
    assert Grown([Plain(1, []), Plain(2, [])], 1, [line])[1].content == [] + [line] == [line];
    assert Run(s, steps).dir == [Plain(1, []), Plain(2, [line])];
    Newest([Plain(1, []), Plain(2, [line])], 1);
    RunSnoc(s, steps, Create(3));
    steps := steps + [Create(3)];
  }

  lemma Nothing(s: State)
    ensures Possible(s, []) && Run(s, []) == s
  {
  }

  /** `tail` goes from the first file to the third: the line of the second is never printed. */
  lemma TailPassesOver(line: Line) returns (steps: seq<Step>)
    ensures Possible(Start([Plain(1, [])]), steps)
    ensures var s := Run(Start([Plain(1, [])]), steps);
            s.appended == [line] && s.out == [] && s.cur == 3 && Rest(s.dir, At(s)) == [] && !Exact(s)
  {
    hide Possible, Run, LastPlain, PlainIndex, HasPlain, Rest, Apply, Start;
    var s := Start([Plain(1, [])]);
    var dir := [Plain(1, []), Plain(2, [line]), Plain(3, [])];
    steps := TwoNewFiles(line);
    var t := State(dir, [line], 1, 0, [], First);
    OnePoll(t, line);
    RunSnoc(s, steps, ReadFirst);
    steps := steps + [ReadFirst];
    RunSnoc(s, steps, LookAround);
    steps := steps + [LookAround];
    RunSnoc(s, steps, ReadSecond);
    steps := steps + [ReadSecond];
    RestEmpty(dir, Position(3, 0));
  }

  lemma OnePoll(t: State, line: Line)
    requires t == State([Plain(1, []), Plain(2, [line]), Plain(3, [])], [line], 1, 0, [], First)
    ensures Apply(t, ReadFirst) == t.(phase := Look)
    ensures Apply(t.(phase := Look), LookAround) == t.(phase := Second(3))
    ensures Apply(t.(phase := Second(3)), ReadSecond) == t.(cur := 3)
  {
    hide LastPlain, PlainIndex, HasPlain;
    FirstOfThree(t.dir);
    Newest(t.dir, 2);
  }

  lemma FirstOfThree(dir: seq<File<Line>>)
    requires |dir| == 3 && dir[0] == Plain(1, []) && dir[1].day == 2 && dir[2].day == 3
    ensures HasPlain(dir, 1) && PlainIndex(dir, 1) == 0
  {
    assert !dir[0].gz && dir[0].day == 1;
  }
}
