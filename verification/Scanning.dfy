/** The loops that scan file content in 64 KiB chunks (internal/agent/spool.go, internal/agent/logging.go). */
module Scanning {
  import opened Lines

  const CHUNK := 65536

  /** bytes.LastIndexByte(s, '\\n') */
  function LastIndex(s: seq<byte>): (i: int)
    ensures -1 <= i < |s|
    ensures i >= 0 ==> s[i] == NL
    ensures forall j :: i < j < |s| ==> s[j] != NL
  {
    if s == [] then -1
    else if s[|s| - 1] == NL then |s| - 1
    else LastIndex(s[..|s| - 1])
  }

  /** `cut` is one past the last newline of `s`, 0 if there is none. */
  predicate LastBreakAt(s: seq<byte>, cut: nat) {
    cut <= |s| && (cut == 0 || s[cut - 1] == NL) && forall j :: cut <= j < |s| ==> s[j] != NL
  }

  /** Where to cut a file so that only complete lines remain, or -1 when it is complete as it is. */
  method CompleteLength(content: seq<byte>) returns (cut: int)
    ensures cut == -1 <==> Complete(content)
    ensures cut != -1 ==> cut >= 0 && LastBreakAt(content, cut)
  {
    var size := |content|;
    var end := size;
    while end > 0
      invariant 0 <= end <= size
      invariant forall j :: end <= j < size ==> content[j] != NL
    {
      var start := if end - CHUNK > 0 then end - CHUNK else 0;
      var chunk := content[start..end];
      var i := LastIndex(chunk);
      assert forall j :: start <= j < end ==> content[j] == chunk[j - start];
      if i >= 0 {
        cut := start + i + 1;
        if cut != size {
          return cut;
        }
        return -1;
      }
      end := start;
    }
    if size == 0 {
      return -1;
    }
    return 0;
  }

  /** What repairTails makes of a file: its complete lines. */
  function Repaired(content: seq<byte>): seq<byte> {
    Flatten(LinesOf(content))
  }

  lemma {:induction false} RepairSplits(content: seq<byte>)
    ensures Repaired(content) <= content && LastBreakAt(content, |Repaired(content)|)
    decreases |content|
  {
    if NL in content {
      var k := FirstBreak(content);
      var head, tail := content[..k], content[k..];
      RepairSplits(tail);
      LinesOfFirst(content, k);
      assert LinesOf(content)[1..] == LinesOf(tail);
      PrependLine(head, tail, Repaired(tail));
      assert content == head + tail;
    }
  }

  lemma PrependLine(head: Line, tail: seq<byte>, r: seq<byte>)
    requires head != [] && head[|head| - 1] == NL && r <= tail && LastBreakAt(tail, |r|)
    ensures head + r <= head + tail && LastBreakAt(head + tail, |head + r|)
  {
  }

  /** The longest beginning that holds complete lines only. */
  predicate Longest(content: seq<byte>, r: seq<byte>) {
    r <= content && (r == [] || r[|r| - 1] == NL) && NL !in content[|r|..]
  }

  lemma RepairIsLongest(content: seq<byte>)
    ensures forall r :: Longest(content, r) <==> r == Repaired(content)
  {
    RepairSplits(content);
    var r := Repaired(content);
    assert NL !in content[|r|..];
    forall q | Longest(content, q) ensures q == r {
      NoneLonger(content, q, r);
      NoneLonger(content, r, q);
    }
  }

  lemma NoneLonger(content: seq<byte>, q: seq<byte>, r: seq<byte>)
    requires Longest(content, q) && Longest(content, r)
    ensures |r| <= |q|
  {
    assert forall j :: |q| <= j < |content| ==> content[j] == content[|q|..][j - |q|];
    assert r != [] ==> r[|r| - 1] == content[|r| - 1];
  }

  /** Cutting at one past the last newline leaves exactly the complete lines. */
  lemma CutIsRepaired(content: seq<byte>, cut: nat)
    requires LastBreakAt(content, cut)
    ensures content[..cut] == Repaired(content)
  {
    RepairSplits(content);
    assert |Repaired(content)| == cut;
  }

  /** Repair loses no complete line and is done in one go. */
  lemma RepairKeepsLines(content: seq<byte>)
    ensures LinesOf(Repaired(content)) == LinesOf(content)
    ensures Repaired(Repaired(content)) == Repaired(content)
  {
    RepairSplits(content);
    var r := Repaired(content);
    var torn := content[|r|..];
    assert content == r + torn;
    assert NL !in torn;
    LinesOfAppend(r, torn);
  }

  /** Newlines from `from` on; nothing when `from` is past the end. */
  method CountLines(content: seq<byte>, from: nat) returns (n: nat)
    ensures n == if from <= |content| then |LinesOf(content[from..])| else 0
  {
    n := 0;
    var at := from;
    while at < |content|
      invariant from <= at && (from <= |content| ==> at <= |content|)
      invariant from <= |content| ==> n == Breaks(content[from..at])
      invariant from > |content| ==> n == 0
    {
      var end := if at + CHUNK < |content| then at + CHUNK else |content|;
      assert content[from..end] == content[from..at] + content[at..end];
      BreaksAppend(content[from..at], content[at..end]);
      n := n + Breaks(content[at..end]);
      at := end;
    }
    if from <= |content| {
      assert content[from..|content|] == content[from..];
      BreaksCountLines(content[from..]);
    }
  }

  // ---- lastLines ----

  /** strings.Split(s, "\n") */
  function Split(s: seq<byte>): (parts: seq<seq<byte>>)
    ensures parts != []
    decreases |s|
  {
    if NL !in s then [s] else [s[..FirstBreak(s) - 1]] + Split(s[FirstBreak(s)..])
  }

  /** strings.Join(parts, "\n") */
  function Join(parts: seq<seq<byte>>): seq<byte>
    requires parts != []
  {
    if |parts| == 1 then parts[0] else parts[0] + [NL] + Join(parts[1..])
  }

  /** The pieces hold no newline, and joined by newlines they are the text again. */
  lemma {:induction false} SplitJoin(s: seq<byte>)
    ensures Join(Split(s)) == s && forall part :: part in Split(s) ==> NL !in part
    decreases |s|
  {
    if NL in s {
      var k := FirstBreak(s);
      SplitJoin(s[k..]);
      assert s == s[..k - 1] + [NL] + s[k..];
      assert Split(s)[1..] == Split(s[k..]);
    }
  }

  function LastN<T>(s: seq<T>, n: nat): (r: seq<T>)
    ensures |r| == (if |s| > n then n else |s|) && r == s[|s| - |r|..]
  {
    if |s| > n then s[|s| - n..] else s
  }

  /** The lines of a log, not counting what follows the last line that is not blank. */
  function LogLines(content: seq<byte>): seq<seq<byte>> {
    if TrimRight(content) == [] then [] else Split(TrimRight(content))
  }

  /** Where the backward scan stops: more than `n` newlines read, or the whole file. */
  function Window(content: seq<byte>, n: nat, pos: nat): (w: nat)
    requires pos <= |content|
    ensures w <= pos
    ensures w > 0 ==> Breaks(content[w..]) > n
    decreases pos
  {
    if pos > 0 && Breaks(content[pos..]) <= n
    then Window(content, n, if pos > CHUNK then pos - CHUNK else 0)
    else pos
  }

  /** The scan saw enough: the whole file, or `n` newlines before the trailing blank lines. */
  predicate SawEnough(content: seq<byte>, n: nat) {
    var w := Window(content, n, |content|);
    w == 0 || Breaks(TrimRight(content[w..])) >= n || TrimRight(content) == []
  }

  /** The loop of lastLines: prepend chunks until there are more than `n` newlines. */
  method ScanBack(content: seq<byte>, n: nat) returns (buf: seq<byte>, pos: nat)
    ensures pos == Window(content, n, |content|) && buf == content[pos..]
  {
    buf := [];
    pos := |content|;
    while pos > 0 && Breaks(buf) <= n
      invariant 0 <= pos <= |content| && buf == content[pos..]
      invariant Window(content, n, pos) == Window(content, n, |content|)
    {
      var start := if pos > CHUNK then pos - CHUNK else 0;
      assert content[start..pos] + content[pos..] == content[start..];
      buf := content[start..pos] + buf;
      pos := start;
    }
  }

  /** The last `n` lines, if and only if the scan saw enough of them. */
  method LastLines(content: seq<byte>, n: int) returns (lines: seq<seq<byte>>)
    ensures n <= 0 ==> lines == []
    ensures n > 0 ==> (lines == LastN(LogLines(content), n) <==> SawEnough(content, n))
    ensures n > 0 ==> forall text :: Body(content, text) ==>
              (lines == LastN(if text == [] then [] else Split(text), n) <==> SawEnough(content, n))
  {
    hide Body, SawEnough, Window, Split, LastN;
    TrimIsBody(content);
    if n <= 0 {
      return [];
    }
    var buf, pos := ScanBack(content, n);
    var text := TrimRight(buf);
    if text == [] {
      LastOfNothing(content, n, pos);
      return [];
    }
    LastOfSplit(content, n, pos);
    lines := DropTorn(text, pos > 0);
    lines := Newest(lines, n);
  }

  /** A first piece that may be part of a longer line does not count. */
  method DropTorn(text: seq<byte>, torn: bool) returns (lines: seq<seq<byte>>)
    ensures lines == if torn then Split(text)[1..] else Split(text)
  {
    lines := Split(text);
    if torn {
      lines := lines[1..];
    }
  }

  method Newest<T>(all: seq<T>, n: nat) returns (lines: seq<T>)
    ensures lines == LastN(all, n)
  {
    lines := all;
    if |lines| > n {
      lines := lines[|lines| - n..];
    }
  }

  lemma {:induction false} SplitLength(s: seq<byte>)
    ensures |Split(s)| == Breaks(s) + 1
    decreases |s|
  {
    hide Breaks;
    NoBreaks(s);
    if NL in s {
      var k := FirstBreak(s);
      NoBreaks(s[..k - 1]);
      assert s == s[..k - 1] + ([NL] + s[k..]);
      BreaksAppend(s[..k - 1], [NL] + s[k..]);
      BreaksAppend([NL], s[k..]);
      OneBreak();
      SplitLength(s[k..]);
    }
  }

  /** Splitting `a + b`: all of `b` but its first piece comes out as it would alone. */
  lemma {:induction false} SplitConcat(a: seq<byte>, b: seq<byte>)
    ensures |Split(a + b)| >= |Split(b)|
    ensures Split(a + b)[|Split(a + b)| - |Split(b)| + 1..] == Split(b)[1..]
    decreases |a|
  {
    if NL !in a {
      SplitFirst(a, b);
    } else {
      var k := FirstBreak(a);
      var tail := a[k..];
      assert (a + b)[..k - 1] == a[..k - 1];
      FirstBreakUnique(a + b, k);
      assert (a + b)[k..] == tail + b;
      SplitConcat(tail, b);
      assert Split(a + b) == [a[..k - 1]] + Split(tail + b);
    }
  }

  lemma SplitFirst(a: seq<byte>, b: seq<byte>)
    requires NL !in a
    ensures Split(a + b) == [a + Split(b)[0]] + Split(b)[1..]
  {
    if NL !in b {
      assert NL !in a + b;
    } else {
      var k := FirstBreak(b);
      var head, tail := b[..k - 1], b[k..];
      assert (a + b)[..|a| + k - 1] == a + head;
      FirstBreakUnique(a + b, |a| + k);
      assert (a + b)[|a| + k..] == tail;
      SplitCons(a + b, a + head, tail);
      SplitCons(b, head, tail);
    }
  }

  lemma SplitCons(s: seq<byte>, head: seq<byte>, tail: seq<byte>)
    requires NL in s && head == s[..FirstBreak(s) - 1] && tail == s[FirstBreak(s)..]
    ensures Split(s) == [head] + Split(tail) && Split(s)[0] == head && Split(s)[1..] == Split(tail)
  {
  }

  lemma {:induction false} TrimOfSuffix(a: seq<byte>, b: seq<byte>)
    ensures TrimRight(a + b) == if TrimRight(b) == [] then TrimRight(a) else a + TrimRight(b)
    decreases |b|
  {
    if b == [] {
      assert a + b == a;
    } else {
      assert (a + b)[..|a + b| - 1] == a + b[..|b| - 1];
      if b[|b| - 1] == NL || b[|b| - 1] == CR {
        TrimOfSuffix(a, b[..|b| - 1]);
      }
    }
  }

  lemma LastOfNothing(content: seq<byte>, n: nat, pos: nat)
    requires n > 0 && pos == Window(content, n, |content|) && TrimRight(content[pos..]) == []
    ensures [] == LastN(LogLines(content), n) <==> SawEnough(content, n)
  {
    assert Breaks([]) == 0 && content[0..] == content;
    if TrimRight(content) != [] {
      assert |LastN(LogLines(content), n)| > 0;
    }
  }

  lemma LastOfSplit(content: seq<byte>, n: nat, pos: nat)
    requires n > 0 && pos == Window(content, n, |content|) && TrimRight(content[pos..]) != []
    ensures var text := TrimRight(content[pos..]);
            LastN(if pos > 0 then Split(text)[1..] else Split(text), n) == LastN(LogLines(content), n) <==>
            SawEnough(content, n)
  {
    var front, text := content[..pos], TrimRight(content[pos..]);
    assert content == front + content[pos..];
    TrimOfSuffix(front, content[pos..]);
    assert LogLines(content) == Split(front + text);
    SplitConcat(front, text);
    SplitLength(text);
    if pos > 0 {
      LastOfTail(Split(front + text), Split(text), n);
    } else {
      assert front + text == text;
    }
  }

  /** Dropping the first piece is right exactly when `n` pieces are left. */
  lemma LastOfTail<T>(all: seq<T>, part: seq<T>, n: nat)
    requires part != [] && |all| >= |part| && all[|all| - |part| + 1..] == part[1..]
    ensures LastN(part[1..], n) == LastN(all, n) <==> |part| - 1 >= n
  {
    if |part| - 1 >= n {
      assert LastN(part[1..], n) == part[|part| - n..] == all[|all| - n..];
    } else {
      assert |LastN(part[1..], n)| < |LastN(all, n)|;
    }
  }

  /** A log that does not end in blank lines is always read right: at most one newline is trimmed. */
  lemma NoBlankEnd(content: seq<byte>, n: nat)
    requires n > 0
    requires Breaks(content[|TrimRight(content)|..]) <= 1
    ensures SawEnough(content, n)
  {
    hide Breaks, TrimRight, Window;
    var w := Window(content, n, |content|);
    if w > 0 && TrimRight(content) != [] {
      assert content == content[..w] + content[w..];
      TrimmedBreaks(content[..w], content[w..]);
    }
  }

  /** Of the newlines of `buf`, trimming removes no more than are trimmed from the whole. */
  lemma TrimmedBreaks(front: seq<byte>, buf: seq<byte>)
    ensures var whole := front + buf;
            Breaks(buf) <= Breaks(TrimRight(buf)) + Breaks(whole[|TrimRight(whole)|..])
  {
    hide Breaks;
    var whole, text := front + buf, TrimRight(buf);
    TrimOfSuffix(front, buf);
    if text == [] {
      var t := |TrimRight(front)|;
      assert whole[t..] == front[t..] + buf;
      BreaksAppend(front[t..], buf);
    } else {
      assert whole[|front + text|..] == buf[|text|..];
      assert buf == text + buf[|text|..];
      BreaksAppend(text, buf[|text|..]);
    }
  }

  /** One long line, then "b" and a blank line: asked for two lines, the scan stops one short. */
  lemma BlankEndFails()
    ensures exists content :: !SawEnough(content, 2)
  {
    var a := seq(CHUNK, _ => 97 as byte);
    var b: seq<byte> := [98];
    var content := a + [NL] + b + [NL, NL];
    var w := |content| - CHUNK;
    assert w == 4;
    var buf := content[4..];
    var line := seq(CHUNK - 4, _ => 97 as byte);
    assert buf == line + [NL, 98, NL, NL];
    NoBreaks(line);
    BreaksAppend(line, [NL, 98, NL, NL]);
    assert Breaks([NL, 98, NL, NL]) == 3 by {
      assert [NL, 98, NL, NL] == [NL] + [98] + [NL] + [NL];
      assert Breaks([NL]) == 1 && Breaks([98]) == 0 by { assert [NL][..0] == [] && [98 as byte][..0] == []; }
      BreaksAppend([NL], [98]);
      BreaksAppend([NL] + [98], [NL]);
      BreaksAppend([NL] + [98] + [NL], [NL]);
    }
    assert content[|content|..] == [];
    assert Window(content, 2, |content|) == 4 by {
      assert Window(content, 2, 4) == 4;
    }
    TrimOfSuffix(line, [NL, 98, NL, NL]);
    TrimEnd();
    assert TrimRight(buf) == line + [NL, 98];
    BreaksAppend(line, [NL, 98]);
    BreaksAppend([NL], [98]);
    assert [NL] + [98] == [NL, 98];
    assert Breaks([NL]) == 1 && Breaks([98]) == 0 by { assert [NL][..0] == [] && [98 as byte][..0] == []; }
    assert content == content[..4] + buf;
    TrimOfSuffix(content[..4], buf);
    assert !SawEnough(content, 2);
  }

  lemma TrimEnd()
    ensures TrimRight([NL, 98, NL, NL]) == [NL, 98]
  {
    var s: seq<byte> := [NL, 98, NL, NL];
    assert s[..3] == [NL, 98, NL];
    assert s[..3][..2] == [NL, 98];
    assert TrimRight(s[..3]) == TrimRight(s[..3][..2]);
  }
}
