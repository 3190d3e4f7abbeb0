/**
 One spool file, its writer and a reader that runs at the same time (internal/agent/spool.go).
 A write becomes visible piece by piece; a failed one leaves a torn line until it is truncated away.
 The reader holds bytes it has taken from the file and not yet handed out as lines.
 */
module TornReads {
  import opened Lines

  /**
   `base` is what curSize covers; `written` is how much of `line` is in the file behind it. The read under
   way began at `start`, its position is `off`, and `out` is what it has handed out.
   */
  datatype State = State(base: seq<byte>, line: Line, written: seq<byte>,
                         start: nat, off: nat, pending: seq<byte>, out: seq<Line>)

  datatype Step =
    | Begin(l: Line)
    | Put(n: nat)
    | Finish
    | Fail
    | Fill(n: nat)
    | Emit
    | Reopen(to: nat)

  function Content(s: State): seq<byte> {
    s.base + s.written
  }

  /** What no truncation can take back any more: a line that is written whole is not cut. */
  function Settled(s: State): seq<byte> {
    if s.written == s.line then s.base + s.line else s.base
  }

  predicate Enabled(s: State, a: Step) {
    match a
    case Begin(l) => s.line == [] && IsLine(l)
    case Put(n) => n > 0 && |s.written| + n <= |s.line|
    case Finish => s.line != [] && s.written == s.line
    case Fail => |s.written| < |s.line|
    case Fill(n) => n > 0 && NL !in s.pending && s.off + |s.pending| + n <= |Content(s)|
    case Emit => NL in s.pending
    case Reopen(to) => AtLine(Settled(s), to)
  }

  predicate AtLine(settled: seq<byte>, off: nat) {
    off <= |settled| && Complete(settled[..off])
  }

  /** The next read may begin at the end of any line, also one handed out before. */
  function Apply(s: State, a: Step): State
    requires Enabled(s, a)
  {
    match a
    case Begin(l) => s.(line := l, written := [])
    case Put(n) => s.(written := s.line[..|s.written| + n])
    case Finish => s.(base := s.base + s.line, line := [], written := [])
    case Fail => s.(line := [], written := [])
    case Fill(n) =>
      var at := s.off + |s.pending|;
      s.(pending := s.pending + Content(s)[at..at + n])
    case Emit =>
      var k := FirstBreak(s.pending);
      s.(off := s.off + k, pending := s.pending[k..], out := s.out + [s.pending[..k]])
    case Reopen(to) => s.(start := to, off := to, pending := [], out := [])
  }

  predicate Possible(s: State, steps: seq<Step>)
    decreases |steps|
  {
    steps == [] || (Enabled(s, steps[0]) && Possible(Apply(s, steps[0]), steps[1..]))
  }

  function Run(s: State, steps: seq<Step>): State
    requires Possible(s, steps)
    decreases |steps|
  {
    if steps == [] then s else Run(Apply(s, steps[0]), steps[1..])
  }

  /** A reader that opens a complete file at a line boundary. */
  function Opened(base: seq<byte>, off: nat): State {
    State(base, [], [], off, off, [], [])
  }

  // ---- what holds whatever happens ----

  predicate WriterOk(s: State) {
    Complete(s.base) && s.written <= s.line && (s.line != [] ==> IsLine(s.line))
  }

  /** Every newline the reader holds is one that stays in the file. */
  predicate BreaksStay(settled: seq<byte>, off: nat, pending: seq<byte>) {
    forall i :: 0 <= i < |pending| && pending[i] == NL ==> off + i < |settled| && settled[off + i] == NL
  }

  predicate Ok(s: State) {
    && WriterOk(s) && s.start <= s.off
    && AtLine(Settled(s), s.start) && AtLine(Settled(s), s.off) && BreaksStay(Settled(s), s.off, s.pending)
  }

  lemma SettledGrows(s: State, a: Step)
    requires WriterOk(s) && Enabled(s, a)
    ensures WriterOk(Apply(s, a)) && Settled(s) <= Settled(Apply(s, a)) && Settled(s) <= Content(s)
  {
    if a.Put? {
      var w := s.line[..|s.written| + a.n];
      assert s.written <= w;
    }
  }

  lemma StaysOk(settled: seq<byte>, settled': seq<byte>, off: nat, pending: seq<byte>)
    requires settled <= settled' && AtLine(settled, off) && BreaksStay(settled, off, pending)
    ensures AtLine(settled', off) && BreaksStay(settled', off, pending)
  {
    assert settled'[..off] == settled[..off];
  }

  /** The torn part of the file has no newline. */
  lemma TornHasNoBreak(s: State)
    requires WriterOk(s)
    ensures NL in s.written ==> s.written == s.line
  {
    if s.written != s.line {
      assert s.written == s.line[..|s.line| - 1][..|s.written|];
    }
  }

  lemma FillBreaks(settled: seq<byte>, content: seq<byte>, off: nat, pending: seq<byte>, n: nat)
    requires settled <= content && NL !in content[|settled|..] && BreaksStay(settled, off, pending)
    requires off + |pending| + n <= |content|
    ensures BreaksStay(settled, off, pending + content[off + |pending|..off + |pending| + n])
  {
    var more := content[off + |pending|..off + |pending| + n];
    assert forall j :: |settled| <= j < |content| ==> content[j] == content[|settled|..][j - |settled|];
    assert forall i :: 0 <= i < n ==> more[i] == content[off + |pending| + i];
  }

  lemma FillOk(s: State, n: nat)
    requires Ok(s) && Enabled(s, Fill(n))
    ensures Ok(Apply(s, Fill(n)))
  {
    hide BreaksStay;
    TornHasNoBreak(s);
    var torn := Content(s)[|Settled(s)|..];
    assert torn == if s.written == s.line then [] else s.written;
    FillBreaks(Settled(s), Content(s), s.off, s.pending, n);
  }

  /** Past a newline the reader holds. */
  lemma EmitBreaks(settled: seq<byte>, off: nat, pending: seq<byte>, k: nat)
    requires AtLine(settled, off) && BreaksStay(settled, off, pending)
    requires 1 <= k <= |pending| && pending[k - 1] == NL
    ensures off + k <= |settled| && AtLine(settled, off + k) && BreaksStay(settled, off + k, pending[k..])
  {
    assert settled[..off + k][off + k - 1] == NL;
    forall i | 0 <= i < |pending| - k && pending[k..][i] == NL
      ensures off + k + i < |settled| && settled[off + k + i] == NL
    {
      assert pending[k + i] == NL;
    }
  }

  lemma EmitOk(s: State)
    requires Ok(s) && Enabled(s, Emit)
    ensures Ok(Apply(s, Emit)) && s.off + FirstBreak(s.pending) <= |Settled(s)|
  {
    hide BreaksStay;
    EmitBreaks(Settled(s), s.off, s.pending, FirstBreak(s.pending));
  }

  lemma StepOk(s: State, a: Step)
    requires Ok(s) && Enabled(s, a)
    ensures Ok(Apply(s, a))
  {
    SettledGrows(s, a);
    match a
    case Fill(n) => FillOk(s, n);
    case Emit => EmitOk(s);
    case Reopen(_) =>
    case _ =>
      StaysOk(Settled(s), Settled(Apply(s, a)), s.off, s.pending);
      StaysOk(Settled(s), Settled(Apply(s, a)), s.start, []);
  }

  /**
   Whatever the writer and the reader do, the reader's position is the end of a line that stays in the
   file, and truncating a torn line never cuts below it.
   */
  lemma {:induction false} PositionsStay(s: State, steps: seq<Step>)
    requires Ok(s) && Possible(s, steps)
    ensures var s' := Run(s, steps);
            && Ok(s') && s'.off <= |Settled(s')| && Complete(Settled(s')[..s'.off])
            && (Enabled(s', Fail) ==> s'.off <= |Content(Apply(s', Fail))|)
            && Settled(s) <= Settled(s')
    decreases |steps|
  {
    if steps != [] {
      StepOk(s, steps[0]);
      SettledGrows(s, steps[0]);
      PositionsStay(Apply(s, steps[0]), steps[1..]);
    }
  }

  // ---- what it returns ----

  /** The lines handed out since the read began are the whole lines that lie there. */
  predicate Faithful(s: State) {
    s.start <= s.off <= |Settled(s)| && s.out == LinesOf(Settled(s)[s.start..s.off])
  }

  predicate AlwaysFaithful(s: State, steps: seq<Step>)
    requires Possible(s, steps)
    decreases |steps|
  {
    Faithful(s) && (steps == [] || AlwaysFaithful(Apply(s, steps[0]), steps[1..]))
  }

  lemma FaithfulStays(s: State, a: Step)
    requires Ok(s) && Faithful(s) && Enabled(s, a) && !a.Emit?
    ensures Faithful(Apply(s, a))
  {
    SettledGrows(s, a);
    var s' := Apply(s, a);
    if a.Reopen? {
      assert Settled(s')[a.to..a.to] == [];
    } else {
      assert Settled(s')[s.start..s.off] == Settled(s)[s.start..s.off];
    }
  }

  lemma EmitState(s: State)
    requires Enabled(s, Emit)
    ensures var s', k := Apply(s, Emit), FirstBreak(s.pending);
            && Settled(s') == Settled(s) && s'.off == s.off + k && s'.pending == s.pending[k..]
            && s'.start == s.start && s'.out == s.out + [s.pending[..k]] && Torn(s') == Torn(s)
  {
  }

  /** The line about to be handed out is what the file holds there. */
  predicate EmitFit(s: State) {
    NL in s.pending ==>
      var k := FirstBreak(s.pending);
      s.off + k <= |Settled(s)| && s.pending[..k] == Settled(s)[s.off..s.off + k]
  }

  /** One line on: right exactly if the bytes handed out are those of the file. */
  lemma EmitFaithful(s: State)
    requires Ok(s) && Faithful(s) && Enabled(s, Emit)
    ensures Faithful(Apply(s, Emit)) <==> EmitFit(s)
  {
    hide LinesOf, BreaksStay, WriterOk, AtLine, IsLine, Settled, Apply;
    var k := FirstBreak(s.pending);
    EmitState(s);
    HeadIsLine(s.pending);
    EmitBreaks(Settled(s), s.off, s.pending, k);
    OneMore(Settled(s), s.start, s.off, s.pending[..k]);
  }

  lemma HeadIsLine(pending: seq<byte>)
    requires NL in pending
    ensures IsLine(pending[..FirstBreak(pending)])
  {
    var k := FirstBreak(pending);
    assert pending[..k][..k - 1] == pending[..k - 1];
  }

  lemma OneMore(settled: seq<byte>, start: nat, off: nat, line: Line)
    requires start <= off && AtLine(settled, off) && AtLine(settled, off + |line|) && IsLine(line)
    ensures LinesOf(settled[start..off]) + [line] == LinesOf(settled[start..off + |line|]) <==>
            line == settled[off..off + |line|]
  {
    hide LinesOf;
    var end := off + |line|;
    var here, before := settled[off..end], settled[start..off];
    assert settled[start..end] == before + here;
    EndsLine(settled, start, off);
    EndsLine(settled, off, end);
    LinesOfAppend(before, here);
    OneLine(here, line);
    SameEnd(LinesOf(before), [line], LinesOf(here));
  }

  lemma EndsLine(settled: seq<byte>, start: nat, off: nat)
    requires start <= off && AtLine(settled, off)
    ensures Complete(settled[start..off])
  {
    if start < off {
      assert settled[start..off][off - start - 1] == settled[..off][off - 1];
    }
  }

  lemma OneLine(here: seq<byte>, line: Line)
    requires IsLine(line) && Complete(here)
    ensures LinesOf(here) == [line] <==> here == line
  {
    LinesOfOne(line);
    LinesRebuild(here);
    LinesRebuild(line);
  }

  // ---- when that is so ----

  /** What the file has of an unfinished line. */
  function Torn(s: State): seq<byte> {
    if s.written == s.line then [] else s.written
  }

  /** The bytes of `pending` that lie behind `settled`. */
  function Behind(settled: seq<byte>, off: nat, pending: seq<byte>): seq<byte> {
    if off <= |settled| < off + |pending| then pending[|settled| - off..] else []
  }

  /** What the reader holds of an unfinished line: a failing write cuts it from the file, but not from the reader. */
  function Held(s: State): seq<byte> {
    Behind(Settled(s), s.off, s.pending)
  }

  predicate Completes(s: State, a: Step) {
    a.Put? && |s.written| + a.n == |s.line|
  }

  /** The torn bytes that the reader held when the last write here failed: none after a new line or a new read. */
  function CutAfter(s: State, a: Step, cut: seq<byte>): seq<byte> {
    if a.Fail? then Held(s)
    else if a.Reopen? || Completes(s, a) then []
    else cut
  }

  /** Until the next read begins, no line is handed out that reaches beyond `at`. */
  predicate NoneBeyond(s: State, at: nat, steps: seq<Step>)
    requires Possible(s, steps)
    decreases |steps|
  {
    steps == [] || steps[0].Reopen?
    || (!(steps[0].Emit? && s.off + FirstBreak(s.pending) > at) && NoneBeyond(Apply(s, steps[0]), at, steps[1..]))
  }

  /**
   Whenever a failed write has cut bytes that the reader holds, the line written there next begins with
   them, or a new read begins before they are handed out.
   */
  predicate CutsFit(s: State, cut: seq<byte>, steps: seq<Step>)
    requires Possible(s, steps)
    decreases |steps|
  {
    steps == []
    || (var s', rest := Apply(s, steps[0]), steps[1..];
        && (Completes(s, steps[0]) ==> cut <= s.line || NoneBeyond(s', |s.base|, rest))
        && CutsFit(s', CutAfter(s, steps[0], cut), rest))
  }

  /** What the reader holds of settled bytes is what they are. */
  predicate Agrees(settled: seq<byte>, off: nat, pending: seq<byte>) {
    forall i :: 0 <= i < |pending| && off + i < |settled| ==> pending[i] == settled[off + i]
  }

  /** `held` is `cut` and then what the file has had behind it since. */
  predicate Grew(cut: seq<byte>, held: seq<byte>, torn: seq<byte>) {
    cut <= held && (|held| > |cut| ==> |held| <= |torn| && held[|cut|..] == torn[|cut|..|held|])
  }

  predicate Good(s: State, cut: seq<byte>) {
    Agrees(Settled(s), s.off, s.pending) && Grew(cut, Held(s), Torn(s))
  }

  lemma FillGrows(settled: seq<byte>, off: nat, pending: seq<byte>, torn: seq<byte>, n: nat, cut: seq<byte>)
    requires off <= |settled| && off + |pending| + n <= |settled + torn|
    requires Agrees(settled, off, pending) && Grew(cut, Behind(settled, off, pending), torn)
    ensures var pending' := pending + (settled + torn)[off + |pending|..off + |pending| + n];
            Agrees(settled, off, pending') && Grew(cut, Behind(settled, off, pending'), torn)
  {
    hide Grew, Behind, Agrees;
    FillAgrees(settled, off, pending, torn, n);
    FillHeld(settled, off, pending, torn, n);
    var held := Behind(settled, off, pending);
    var held' := Behind(settled, off, pending + (settled + torn)[off + |pending|..off + |pending| + n]);
    if |held| < |held'| {
      HeldGrows(cut, held, held', torn);
    }
  }

  lemma FillAgrees(settled: seq<byte>, off: nat, pending: seq<byte>, torn: seq<byte>, n: nat)
    requires off + |pending| + n <= |settled + torn| && Agrees(settled, off, pending)
    ensures Agrees(settled, off, pending + (settled + torn)[off + |pending|..off + |pending| + n])
  {
    var at := off + |pending|;
    var more := (settled + torn)[at..at + n];
    assert forall i :: 0 <= i < n && at + i < |settled| ==> more[i] == settled[at + i];
  }

  lemma FillHeld(settled: seq<byte>, off: nat, pending: seq<byte>, torn: seq<byte>, n: nat)
    requires off <= |settled| && off + |pending| + n <= |settled + torn|
    ensures var held := Behind(settled, off, pending);
            var held' := Behind(settled, off, pending + (settled + torn)[off + |pending|..off + |pending| + n]);
            && (|held| < |held'| ==> |held'| <= |torn| && held' == held + torn[|held|..|held'|])
            && (|held| >= |held'| ==> held == held')
  {
    hide Behind;
    var at := off + |pending|;
    var more := (settled + torn)[at..at + n];
    if at > |settled| {
      FillBehind(settled, torn, at, n);
      HeldBehind(settled, off, pending, torn, more);
    } else if at + n > |settled| {
      FillAcross(settled, torn, at, n);
      HeldAcross(settled, off, pending, torn, more);
    } else {
      HeldNone(settled, off, pending, more);
    }
  }

  lemma HeldBehind(settled: seq<byte>, off: nat, pending: seq<byte>, torn: seq<byte>, more: seq<byte>)
    requires off <= |settled| < off + |pending|
    requires var k := off + |pending| - |settled|; k + |more| <= |torn| && more == torn[k..k + |more|]
    ensures var held, held' := Behind(settled, off, pending), Behind(settled, off, pending + more);
            |held'| == |held| + |more| <= |torn| && held' == held + torn[|held|..|held'|]
  {
    DropHead(pending, more, |settled| - off);
  }

  lemma HeldAcross(settled: seq<byte>, off: nat, pending: seq<byte>, torn: seq<byte>, more: seq<byte>)
    requires off <= off + |pending| <= |settled| < off + |pending| + |more|
    requires var k := |settled| - off - |pending|; |more| - k <= |torn| && more[k..] == torn[..|more| - k]
    ensures var held, held' := Behind(settled, off, pending), Behind(settled, off, pending + more);
            held == [] && 0 < |held'| <= |torn| && held' == held + torn[|held|..|held'|]
  {
    DropAll(pending, more, |settled| - off);
  }

  lemma HeldNone(settled: seq<byte>, off: nat, pending: seq<byte>, more: seq<byte>)
    requires off + |pending| + |more| <= |settled|
    ensures Behind(settled, off, pending) == [] == Behind(settled, off, pending + more)
  {
  }

  lemma FillBehind(settled: seq<byte>, torn: seq<byte>, at: nat, n: nat)
    requires |settled| <= at && at + n <= |settled + torn|
    ensures (settled + torn)[at..at + n] == torn[at - |settled|..at - |settled| + n]
  {
  }

  lemma FillAcross(settled: seq<byte>, torn: seq<byte>, at: nat, n: nat)
    requires at <= |settled| < at + n <= |settled + torn|
    ensures (settled + torn)[at..at + n][|settled| - at..] == torn[..at + n - |settled|]
  {
  }

  lemma DropHead(a: seq<byte>, b: seq<byte>, k: nat)
    requires k <= |a|
    ensures (a + b)[k..] == a[k..] + b
  {
  }

  lemma DropAll(a: seq<byte>, b: seq<byte>, k: nat)
    requires |a| <= k <= |a + b|
    ensures (a + b)[k..] == b[k - |a|..]
  {
  }

  lemma HeldGrows(cut: seq<byte>, held: seq<byte>, held': seq<byte>, torn: seq<byte>)
    requires Grew(cut, held, torn) && |held| < |held'| <= |torn| && held' == held + torn[|held|..|held'|]
    ensures Grew(cut, held', torn)
  {
    assert forall i :: |cut| <= i < |held| ==> held[i] == held[|cut|..][i - |cut|] == torn[i];
    assert held'[|cut|..] == torn[|cut|..|held'|];
  }

  lemma EmitGrows(settled: seq<byte>, off: nat, pending: seq<byte>, k: nat)
    requires k <= |pending| && off + k <= |settled| && Agrees(settled, off, pending)
    ensures Agrees(settled, off + k, pending[k..]) && pending[..k] == settled[off..off + k]
    ensures Behind(settled, off + k, pending[k..]) == Behind(settled, off, pending)
  {
  }

  /** A line is completed that begins with the torn bytes held before: all the reader holds of it is right. */
  lemma CompleteAgrees(base: seq<byte>, line: Line, off: nat, pending: seq<byte>, written: seq<byte>, cut: seq<byte>)
    requires off <= |base| && written <= line && IsLine(line) && cut <= line
    requires Agrees(base, off, pending) && BreaksStay(base, off, pending)
    requires Grew(cut, Behind(base, off, pending), written)
    ensures Agrees(base + line, off, pending) && Behind(base + line, off, pending) == []
  {
    var held := Behind(base, off, pending);
    assert forall i :: 0 <= i < |held| ==> held[i] == pending[|base| - off + i];
    assert forall i :: |cut| <= i < |held| ==> held[i] == held[|cut|..][i - |cut|] == written[i];
    assert forall i :: 0 <= i < |held| && i < |line| ==> held[i] == line[i];
    HeldShorter(held, line);
  }

  lemma HeldShorter(held: seq<byte>, line: Line)
    requires IsLine(line) && forall i :: 0 <= i < |held| && i < |line| ==> held[i] == line[i]
    ensures NL !in held ==> |held| < |line|
  {
    if |held| >= |line| {
      assert held[|line| - 1] == NL;
    }
  }

  /** `pending` holds `cut` at `at`, the settled bytes before it, and a byte of `cut` is not what is settled there. */
  predicate WrongAt(settled: seq<byte>, off: nat, pending: seq<byte>, at: nat, cut: seq<byte>) {
    && off <= at <= |settled| && at + |cut| <= off + |pending| && NL !in cut
    && (forall i :: 0 <= i < |cut| ==> pending[at - off + i] == cut[i])
    && (exists j :: 0 <= j < |cut| && at + j < |settled| && cut[j] != settled[at + j])
    && (forall i :: 0 <= i < at - off ==> pending[i] == settled[off + i])
  }

  predicate Wrong(s: State, at: nat, cut: seq<byte>) {
    WrongAt(Settled(s), s.off, s.pending, at, cut)
  }

  lemma CutHasNoBreak(s: State, cut: seq<byte>)
    requires Ok(s) && Good(s, cut)
    ensures NL !in cut && NL !in Held(s)
  {
    var held := Held(s);
    assert forall i :: 0 <= i < |held| ==> held[i] == s.pending[|Settled(s)| - s.off + i];
    assert forall i :: 0 <= i < |cut| ==> cut[i] == held[i];
  }

  lemma CutInPending(s: State, cut: seq<byte>)
    requires Ok(s) && Good(s, cut)
    ensures var at := |Settled(s)| - s.off;
            && 0 <= at && (cut != [] ==> at + |cut| <= |s.pending|)
            && forall i :: 0 <= i < |cut| ==> cut[i] == s.pending[at + i]
  {
    var held := Held(s);
    assert forall i :: 0 <= i < |held| ==> held[i] == s.pending[|Settled(s)| - s.off + i];
    assert forall i :: 0 <= i < |cut| ==> cut[i] == held[i];
  }

  lemma CompleteWrong(s: State, a: Step, cut: seq<byte>)
    requires Ok(s) && Good(s, cut) && Enabled(s, a) && Completes(s, a) && !(cut <= s.line)
    ensures Wrong(Apply(s, a), |s.base|, cut)
  {
    hide Grew, Held, BreaksStay, AtLine, Behind;
    var s' := Apply(s, a);
    CutHasNoBreak(s, cut);
    assert s.line[..|s.line|] == s.line && Settled(s') == s.base + s.line && Settled(s) == s.base;
    CutInPending(s, cut);
    var j := FirstDifference(cut, s.line);
    assert cut[j] != Settled(s')[|s.base| + j];
  }

  lemma FirstDifference(cut: seq<byte>, line: Line) returns (j: nat)
    requires NL !in cut && IsLine(line) && !(cut <= line)
    ensures j < |cut| && j < |line| && cut[j] != line[j]
  {
    if |cut| >= |line| {
      j := |line| - 1;
    } else {
      j :| j < |cut| && cut[j] != line[j];
    }
  }

  /** Good stays good, unless a line is completed that does not begin with the torn bytes held. */
  lemma GoodStep(s: State, a: Step, cut: seq<byte>)
    requires Ok(s) && Good(s, cut) && Enabled(s, a) && (Completes(s, a) ==> cut <= s.line)
    ensures Good(Apply(s, a), CutAfter(s, a, cut)) && (a.Emit? ==> EmitFit(s))
  {
    hide Ok, Good, EmitFit, Held, Settled;
    match a
    case Fill(n) => FillGood(s, n, cut);
    case Emit => EmitGood(s, cut);
    case Reopen(to) => ReopenGood(s, a, cut);
    case Put(_) =>
      if Completes(s, a) {
        CompleteGood(s, a, cut);
      } else {
        PutGood(s, a, cut);
      }
    case _ => WriterGood(s, a, cut);
  }

  lemma FillGood(s: State, n: nat, cut: seq<byte>)
    requires Ok(s) && Good(s, cut) && Enabled(s, Fill(n))
    ensures Good(Apply(s, Fill(n)), cut)
  {
    hide Agrees, Behind, Grew, BreaksStay;
    ContentIs(s);
    FillGrows(Settled(s), s.off, s.pending, Torn(s), n, cut);
  }

  lemma EmitGood(s: State, cut: seq<byte>)
    requires Ok(s) && Good(s, cut) && Enabled(s, Emit)
    ensures Good(Apply(s, Emit), cut) && EmitFit(s)
  {
    hide Agrees, Behind, Grew, BreaksStay, AtLine, Settled, Torn;
    EmitState(s);
    EmitBreaks(Settled(s), s.off, s.pending, FirstBreak(s.pending));
    EmitGrows(Settled(s), s.off, s.pending, FirstBreak(s.pending));
  }

  lemma WriterGood(s: State, a: Step, cut: seq<byte>)
    requires Ok(s) && Good(s, cut) && Enabled(s, a) && (a.Begin? || a.Finish? || a.Fail?)
    ensures Good(Apply(s, a), if a.Fail? then Held(s) else cut)
  {
    hide Agrees, Behind, Grew;
    SameSettled(s, a);
    NothingSince(Held(s), []);
  }

  lemma SameSettled(s: State, a: Step)
    requires WriterOk(s) && Enabled(s, a) && (a.Begin? || a.Finish? || a.Fail?)
    ensures Settled(Apply(s, a)) == Settled(s) && Torn(Apply(s, a)) == []
    ensures a.Fail? || Torn(s) == []
  {
  }

  lemma ContentIs(s: State)
    requires WriterOk(s)
    ensures Content(s) == Settled(s) + Torn(s)
  {
  }

  lemma ReopenGood(s: State, a: Step, cut: seq<byte>)
    requires a.Reopen? && Enabled(s, a)
    ensures Good(Apply(s, a), []) && CutAfter(s, a, cut) == [] && !Completes(s, a)
  {
    hide Agrees, Behind, Grew;
    NothingHeld(Settled(s), a.to);
  }

  lemma NothingHeld(settled: seq<byte>, to: nat)
    ensures Agrees(settled, to, []) && Behind(settled, to, []) == [] && forall torn :: Grew([], [], torn)
  {
  }

  lemma NothingSince(held: seq<byte>, torn: seq<byte>)
    ensures Grew(held, held, torn)
  {
  }

  lemma SinceMore(cut: seq<byte>, held: seq<byte>, torn: seq<byte>, more: seq<byte>)
    requires Grew(cut, held, torn)
    ensures Grew(cut, held, torn + more)
  {
  }

  lemma PutGood(s: State, a: Step, cut: seq<byte>)
    requires Ok(s) && Good(s, cut) && Enabled(s, a) && a.Put? && !Completes(s, a)
    ensures Good(Apply(s, a), cut)
  {
    hide Agrees, Behind, Grew, BreaksStay;
    var s' := Apply(s, a);
    assert s'.written == s.written + s.line[|s.written|..|s.written| + a.n];
    assert s.written != s.line && s'.written != s.line;
    SinceMore(cut, Held(s), Torn(s), s.line[|s.written|..|s.written| + a.n]);
  }

  lemma CompleteGood(s: State, a: Step, cut: seq<byte>)
    requires Ok(s) && Good(s, cut) && Enabled(s, a) && Completes(s, a) && cut <= s.line
    ensures Good(Apply(s, a), [])
  {
    hide Agrees, Behind, Grew, BreaksStay;
    assert s.line[..|s.line|] == s.line && s.written != s.line;
    CompleteAgrees(s.base, s.line, s.off, s.pending, s.written, cut);
    NothingHeld(s.base, 0);
  }

  /** A wrong byte stays in the reader until a line is handed out that reaches it, or a new read begins. */
  lemma WrongStep(s: State, a: Step, at: nat, cut: seq<byte>)
    requires Ok(s) && Wrong(s, at, cut) && Enabled(s, a) && !a.Reopen?
    ensures !(a.Emit? && s.off + FirstBreak(s.pending) > at) ==> Wrong(Apply(s, a), at, cut)
    ensures a.Emit? ==> (EmitFit(s) <==> s.off + FirstBreak(s.pending) <= at)
  {
    SettledGrows(s, a);
    if a.Emit? {
      WrongEmit(s, at, cut);
    } else {
      WrongStays(s, Apply(s, a), at, cut);
    }
  }

  lemma WrongStays(s: State, s': State, at: nat, cut: seq<byte>)
    requires Wrong(s, at, cut) && Settled(s) <= Settled(s') && s'.off == s.off && s.pending <= s'.pending
    ensures Wrong(s', at, cut)
  {
    hide Settled;
    var j :| 0 <= j < |cut| && at + j < |Settled(s)| && cut[j] != Settled(s)[at + j];
    assert Settled(s')[at + j] == Settled(s)[at + j];
  }

  lemma WrongEmit(s: State, at: nat, cut: seq<byte>)
    requires Ok(s) && Wrong(s, at, cut) && Enabled(s, Emit)
    ensures s.off + FirstBreak(s.pending) <= at ==> Wrong(Apply(s, Emit), at, cut)
    ensures EmitFit(s) <==> s.off + FirstBreak(s.pending) <= at
  {
    hide WrongAt, BreaksStay, AtLine;
    var k := FirstBreak(s.pending);
    EmitBreaks(Settled(s), s.off, s.pending, k);
    if s.off + k > at {
      WrongReached(Settled(s), s.off, s.pending, at, cut, k);
    } else {
      WrongPast(Settled(s), s.off, s.pending, at, cut, k);
    }
  }

  lemma WrongReached(settled: seq<byte>, off: nat, pending: seq<byte>, at: nat, cut: seq<byte>, k: nat)
    requires WrongAt(settled, off, pending, at, cut) && 0 < k <= |pending| && pending[k - 1] == NL
    requires at < off + k <= |settled|
    ensures pending[..k] != settled[off..off + k]
  {
    CutByte(pending, at - off, cut, k);
    var j :| 0 <= j < |cut| && at + j < |settled| && cut[j] != settled[at + j];
    var i := at - off + j;
    assert pending[i] == cut[j] && pending[..k][i] == pending[i] && settled[off..off + k][i] == settled[at + j];
  }

  lemma CutByte(pending: seq<byte>, from: nat, cut: seq<byte>, k: nat)
    requires 0 < k <= |pending| && from + |cut| <= |pending| && NL !in cut
    requires forall i :: 0 <= i < |cut| ==> pending[from + i] == cut[i]
    ensures from < k <= from + |cut| ==> pending[k - 1] != NL
  {
    if from < k <= from + |cut| {
      assert pending[from + (k - 1 - from)] == cut[k - 1 - from];
    }
  }

  lemma WrongPast(settled: seq<byte>, off: nat, pending: seq<byte>, at: nat, cut: seq<byte>, k: nat)
    requires WrongAt(settled, off, pending, at, cut) && k <= |pending| && off + k <= at
    ensures WrongAt(settled, off + k, pending[k..], at, cut) && pending[..k] == settled[off..off + k]
  {
    var rest := pending[k..];
    forall i | 0 <= i < |cut| ensures rest[at - off - k + i] == cut[i] {
      assert pending[at - off + i] == cut[i];
    }
    forall i | 0 <= i < at - off - k ensures rest[i] == settled[off + k + i] {
      assert pending[k + i] == settled[off + (k + i)];
    }
    assert forall i :: 0 <= i < k ==> pending[..k][i] == settled[off..off + k][i];
  }

  lemma {:induction false} NoneBeyondLess(s: State, at: nat, at': nat, steps: seq<Step>)
    requires at <= at' && Possible(s, steps) && NoneBeyond(s, at, steps)
    ensures NoneBeyond(s, at', steps)
    decreases |steps|
  {
    if steps != [] && !steps[0].Reopen? {
      NoneBeyondLess(Apply(s, steps[0]), at, at', steps[1..]);
    }
  }

  lemma {:induction false} GoodRun(s: State, cut: seq<byte>, steps: seq<Step>)
    requires Ok(s) && Faithful(s) && Good(s, cut) && Possible(s, steps)
    ensures AlwaysFaithful(s, steps) <==> CutsFit(s, cut, steps)
    decreases |steps|
  {
    hide Ok, Faithful, Good, EmitFit, Wrong, Apply, Enabled, Completes, CutAfter;
    if steps != [] {
      var a, s' := steps[0], Apply(s, steps[0]);
      StepOk(s, a);
      if Completes(s, a) && !(cut <= s.line) {
        CompletesPut(s, a, cut);
        CompleteWrong(s, a, cut);
        FaithfulStays(s, a);
        WrongRun(s', |s.base|, cut, [], steps[1..]);
      } else {
        GoodStep(s, a, cut);
        if a.Emit? {
          EmitIsEnabled(s, a);
          EmitFaithful(s);
        } else {
          FaithfulStays(s, a);
        }
        GoodRun(s', CutAfter(s, a, cut), steps[1..]);
      }
    }
  }

  lemma CompletesPut(s: State, a: Step, cut: seq<byte>)
    requires Completes(s, a)
    ensures a.Put? && CutAfter(s, a, cut) == []
  {
  }

  lemma EmitIsEnabled(s: State, a: Step)
    requires a.Emit? && Enabled(s, a)
    ensures a == Emit
  {
  }

  lemma {:induction false} WrongRun(s: State, at: nat, wrong: seq<byte>, cut: seq<byte>, steps: seq<Step>)
    requires Ok(s) && Faithful(s) && Wrong(s, at, wrong) && Possible(s, steps)
    ensures AlwaysFaithful(s, steps) <==> NoneBeyond(s, at, steps) && CutsFit(s, cut, steps)
    decreases |steps|
  {
    hide Ok, Faithful, Good, EmitFit, Wrong, Apply, Enabled, Completes, CutAfter;
    if steps != [] {
      var a, s' := steps[0], Apply(s, steps[0]);
      StepOk(s, a);
      if a.Reopen? {
        FaithfulStays(s, a);
        ReopenGood(s, a, cut);
        GoodRun(s', [], steps[1..]);
      } else {
        WrongStep(s, a, at, wrong);
        if a.Emit? {
          EmitIsEnabled(s, a);
          EmitFaithful(s);
        } else {
          FaithfulStays(s, a);
        }
        if Faithful(s') {
          WrongRun(s', at, wrong, CutAfter(s, a, cut), steps[1..]);
          if NoneBeyond(s', at, steps[1..]) && Completes(s, a) {
            WrongBelow(s, a, at, wrong);
            NoneBeyondLess(s', at, |s.base|, steps[1..]);
          }
        }
      }
    }
  }

  lemma WrongBelow(s: State, a: Step, at: nat, wrong: seq<byte>)
    requires Wrong(s, at, wrong) && Enabled(s, a) && Completes(s, a)
    ensures at <= |s.base|
  {
  }

  /**
   Every line handed out in a run is a whole line of the file if and only if the torn bytes that a failed
   write leaves in the reader are how the next line begins, or are dropped before they are handed out.
   */
  lemma FaithfulExactly(base: seq<byte>, start: nat, steps: seq<Step>)
    requires Complete(base) && AtLine(base, start) && Possible(Opened(base, start), steps)
    ensures AlwaysFaithful(Opened(base, start), steps) <==> CutsFit(Opened(base, start), [], steps)
  {
    OpenedOk(base, start);
    GoodRun(Opened(base, start), [], steps);
  }

  lemma OpenedOk(base: seq<byte>, start: nat)
    requires Complete(base) && AtLine(base, start)
    ensures var s := Opened(base, start); Ok(s) && Faithful(s) && Good(s, [])
  {
    assert base + [] == base && base[start..start] == [];
  }

  /** No torn line is truncated while the reader holds some of it. */
  predicate FailsFit(s: State, steps: seq<Step>)
    requires Possible(s, steps)
    decreases |steps|
  {
    steps == [] || ((steps[0].Fail? ==> s.off + |s.pending| <= |s.base|) && FailsFit(Apply(s, steps[0]), steps[1..]))
  }

  lemma {:induction false} NothingCut(s: State, steps: seq<Step>)
    requires Possible(s, steps) && FailsFit(s, steps)
    ensures CutsFit(s, [], steps)
    decreases |steps|
  {
    if steps != [] {
      NothingCut(Apply(s, steps[0]), steps[1..]);
    }
  }

  lemma {:induction false} FaithfulAtEnd(s: State, steps: seq<Step>)
    requires Possible(s, steps) && AlwaysFaithful(s, steps)
    ensures Faithful(Run(s, steps))
    decreases |steps|
  {
    if steps != [] {
      FaithfulAtEnd(Apply(s, steps[0]), steps[1..]);
    }
  }

  /** In particular the lines are whole if no truncate ever cuts bytes that the reader holds. */
  lemma NoTornReads(base: seq<byte>, start: nat, steps: seq<Step>)
    requires Complete(base) && AtLine(base, start)
    requires Possible(Opened(base, start), steps) && FailsFit(Opened(base, start), steps)
    ensures Faithful(Run(Opened(base, start), steps))
  {
    NothingCut(Opened(base, start), steps);
    FaithfulExactly(base, start, steps);
    FaithfulAtEnd(Opened(base, start), steps);
  }

  // ---- and when it is not ----

  lemma {:induction false} RunSnoc(s: State, steps: seq<Step>, a: Step)
    requires Possible(s, steps) && Enabled(Run(s, steps), a)
    ensures Possible(s, steps + [a]) && Run(s, steps + [a]) == Apply(Run(s, steps), a)
    decreases |steps|
  {
    if steps == [] {
      assert [] + [a] == [a];
    } else {
      assert (steps + [a])[1..] == steps[1..] + [a];
      RunSnoc(Apply(s, steps[0]), steps[1..], a);
    }
  }

  /** A reader at the end of the file takes the first `n` bytes of a line whose write then fails. */
  lemma TornTaken(base: seq<byte>, failed: Line, n: nat) returns (steps: seq<Step>)
    requires IsLine(failed) && 0 < n < |failed|
    ensures Possible(Opened(base, |base|), steps)
    ensures Run(Opened(base, |base|), steps) == State(base, [], [], |base|, |base|, failed[..n], [])
  {
    var s := Opened(base, |base|);
    RunSnoc(s, [], Begin(failed));
    RunSnoc(s, [Begin(failed)], Put(n));
    var written := base + failed[..n];
    assert written[|base|..|base| + n] == failed[..n] && [] + failed[..n] == failed[..n];
    steps := [Begin(failed)] + [Put(n)];
    RunSnoc(s, steps, Fill(n));
    steps := steps + [Fill(n)];
    RunSnoc(s, steps, Fail);
    steps := steps + [Fail];
  }

  lemma StillLacking(base: seq<byte>, failed: Line, l: Line, n: nat)
    requires IsLine(failed) && n < |failed| && n < |l|
    ensures NL !in failed[..n] && (base + l + [])[|base| + n..|base| + |l|] == l[n..]
  {
    assert failed[..n] == failed[..|failed| - 1][..n];
  }

  /** A line is written whole. */
  lemma Wrote(s: State, before: seq<Step>, l: Line) returns (steps: seq<Step>)
    requires IsLine(l) && Possible(s, before) && Run(s, before).line == Run(s, before).written == []
    ensures Possible(s, steps)
    ensures var t := Run(s, before); Run(s, steps) == t.(base := t.base + l)
  {
    assert l[..0 + |l|] == l;
    RunSnoc(s, before, Begin(l));
    steps := before + [Begin(l)];
    RunSnoc(s, steps, Put(|l|));
    steps := steps + [Put(|l|)];
    RunSnoc(s, steps, Finish);
    steps := steps + [Finish];
  }

  /** The next line is written whole, and the reader takes what it lacks of it. */
  lemma RestTaken(base: seq<byte>, failed: Line, l: Line, n: nat) returns (steps: seq<Step>)
    requires IsLine(failed) && IsLine(l) && 0 < n < |failed| && n < |l|
    ensures Possible(Opened(base, |base|), steps)
    ensures Run(Opened(base, |base|), steps) == State(base + l, [], [], |base|, |base|, failed[..n] + l[n..], [])
  {
    hide IsLine, Possible, Run;
    var s := Opened(base, |base|);
    steps := TornTaken(base, failed, n);
    steps := Wrote(s, steps, l);
    StillLacking(base, failed, l, n);
    RunSnoc(s, steps, Fill(|l| - n));
    steps := steps + [Fill(|l| - n)];
  }

  /**
   What the reader then hands out is the old beginning with the new end: a line that nobody appended,
   unless the torn bytes happen to be how the new line begins.
   */
  lemma TornRead(base: seq<byte>, failed: Line, l: Line, n: nat) returns (steps: seq<Step>)
    requires IsLine(failed) && IsLine(l) && 0 < n < |failed| && n < |l|
    ensures Possible(Opened(base, |base|), steps)
    ensures var s := Run(Opened(base, |base|), steps);
            && s.base == base + l && s.out == [failed[..n] + l[n..]]
            && (s.out == [l] <==> failed[..n] == l[..n])
  {
    var s := Opened(base, |base|);
    steps := RestTaken(base, failed, l, n);
    MixedLine(failed, l, n);
    RunSnoc(s, steps, Emit);
    steps := steps + [Emit];
  }

  lemma MixedLine(failed: Line, l: Line, n: nat)
    requires IsLine(failed) && IsLine(l) && 0 < n < |failed| && n < |l|
    ensures var mixed := failed[..n] + l[n..];
            && NL in mixed && FirstBreak(mixed) == |l| && mixed[..|l|] == mixed && [] + [mixed] == [mixed]
            && ([mixed] == [l] <==> failed[..n] == l[..n])
  {
    var mixed := failed[..n] + l[n..];
    assert forall i :: 0 <= i < |l| - 1 ==> mixed[i] == if i < n then failed[..|failed| - 1][i] else l[..|l| - 1][i];
    assert mixed[|l| - 1] == l[|l| - 1];
    FirstBreakUnique(mixed, |l|);
    assert l == l[..n] + l[n..];
    assert mixed[..n] == failed[..n];
  }
}
