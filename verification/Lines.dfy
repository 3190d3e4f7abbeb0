/** Spool bytes seen as newline-terminated lines (internal/agent/spool.go). */
module Lines {

  newtype byte = b: int | 0 <= b < 256

  const NL: byte := 10
  const CR: byte := 13

  type Line = seq<byte>

  lemma Assoc<T>(a: seq<T>, b: seq<T>, c: seq<T>)
    ensures a + (b + c) == a + b + c
  {
  }

  lemma SameEnd<T>(a: seq<T>, b: seq<T>, c: seq<T>)
    ensures a + b == a + c <==> b == c
  {
    if a + b == a + c {
      assert b == (a + b)[|a|..] && c == (a + c)[|a|..];
    }
  }

  /** True when no torn line is left at the end. */
  predicate Complete(s: seq<byte>) {
    s == [] || s[|s| - 1] == NL
  }

  /** One past the first newline. */
  function FirstBreak(s: seq<byte>): (k: nat)
    requires NL in s
    ensures 1 <= k <= |s| && s[k - 1] == NL && NL !in s[..k - 1]
  {
    if s[0] == NL then 1 else
      assert s == [s[0]] + s[1..];
      var k := 1 + FirstBreak(s[1..]);
      assert s[..k - 1] == [s[0]] + s[1..][..k - 2];
      k
  }

  lemma FirstBreakUnique(s: seq<byte>, k: nat)
    requires 1 <= k <= |s| && s[k - 1] == NL && NL !in s[..k - 1]
    ensures NL in s && FirstBreak(s) == k
  {
    var j := FirstBreak(s);
    assert forall i :: 0 <= i < k - 1 ==> s[i] == s[..k - 1][i];
    assert forall i :: 0 <= i < j - 1 ==> s[i] == s[..j - 1][i];
  }

  /** The complete lines of `s`, each with its newline; a torn last line is left out. */
  function LinesOf(s: seq<byte>): seq<Line>
    decreases |s|
  {
    if NL !in s then [] else [s[..FirstBreak(s)]] + LinesOf(s[FirstBreak(s)..])
  }

  function Flatten(ls: seq<Line>): seq<byte> {
    if ls == [] then [] else ls[0] + Flatten(ls[1..])
  }

  /** One newline, at the end: what MarshalRecord writes. */
  predicate IsLine(l: Line) {
    l != [] && l[|l| - 1] == NL && NL !in l[..|l| - 1]
  }

  lemma LinesOfCons(l: Line, s: seq<byte>)
    requires IsLine(l)
    ensures LinesOf(l + s) == [l] + LinesOf(s)
  {
    assert (l + s)[..|l| - 1] == l[..|l| - 1];
    LinesOfFirst(l + s, |l|);
    assert (l + s)[..|l|] == l && (l + s)[|l|..] == s;
  }

  lemma LinesOfFirst(s: seq<byte>, k: nat)
    requires 1 <= k <= |s| && s[k - 1] == NL && NL !in s[..k - 1]
    ensures LinesOf(s) == [s[..k]] + LinesOf(s[k..])
  {
    FirstBreakUnique(s, k);
  }

  lemma {:induction false} LinesOfAppend(a: seq<byte>, b: seq<byte>)
    requires Complete(a)
    ensures LinesOf(a + b) == LinesOf(a) + LinesOf(b)
    decreases |a|
  {
    if a == [] {
      assert a + b == b;
    } else {
      var head, tail := CutFirst(a);
      Assoc(head, tail, b);
      LinesOfCons(head, tail);
      LinesOfCons(head, tail + b);
      LinesOfAppend(tail, b);
      Assoc([head], LinesOf(tail), LinesOf(b));
    }
  }

  lemma CutFirst(s: seq<byte>) returns (head: Line, tail: seq<byte>)
    requires s != [] && Complete(s)
    ensures IsLine(head) && s == head + tail && Complete(tail) && |tail| < |s|
  {
    var k := FirstBreak(s);
    head, tail := s[..k], s[k..];
    assert head[..k - 1] == s[..k - 1];
  }

  lemma LinesOfOne(l: Line)
    requires IsLine(l)
    ensures LinesOf(l) == [l]
  {
    FirstBreakUnique(l, |l|);
    assert l[..|l|] == l && LinesOf(l[|l|..]) == [];
  }

  lemma FlattenCons(l: Line, ls: seq<Line>)
    ensures Flatten([l] + ls) == l + Flatten(ls)
  {
    assert ([l] + ls)[1..] == ls;
  }

  /** Every complete line read back is a line. */
  lemma {:induction false} LinesAreLines(s: seq<byte>)
    ensures forall l :: l in LinesOf(s) ==> IsLine(l)
    decreases |s|
  {
    if NL in s {
      var k := FirstBreak(s);
      LinesOfFirst(s, k);
      LinesAreLines(s[k..]);
      hide LinesOf;
      assert s[..k][..k - 1] == s[..k - 1];
    }
  }

  /** The lines of a complete file rebuild it. */
  lemma {:induction false} LinesRebuild(s: seq<byte>)
    requires Complete(s)
    ensures Flatten(LinesOf(s)) == s
    decreases |s|
  {
    if s != [] {
      var head, tail := CutFirst(s);
      LinesOfCons(head, tail);
      FlattenCons(head, LinesOf(tail));
      LinesRebuild(tail);
      hide LinesOf, Flatten;
    }
  }

  function Breaks(s: seq<byte>): nat {
    if s == [] then 0 else Breaks(s[..|s| - 1]) + (if s[|s| - 1] == NL then 1 else 0)
  }

  lemma {:induction false} BreaksAppend(a: seq<byte>, b: seq<byte>)
    ensures Breaks(a + b) == Breaks(a) + Breaks(b)
    decreases |b|
  {
    if b == [] {
      assert a + b == a;
    } else {
      assert (a + b)[..|a + b| - 1] == a + b[..|b| - 1];
      BreaksAppend(a, b[..|b| - 1]);
    }
  }

  lemma {:induction false} NoBreaks(s: seq<byte>)
    ensures Breaks(s) == 0 <==> NL !in s
  {
    if s != [] {
      NoBreaks(s[..|s| - 1]);
      assert s == s[..|s| - 1] + [s[|s| - 1]];
    }
  }

  lemma OneBreak()
    ensures Breaks([NL]) == 1
  {
    assert [NL][..0] == [];
  }

  /** Counting newline bytes counts complete lines. */
  lemma {:induction false} BreaksCountLines(s: seq<byte>)
    ensures Breaks(s) == |LinesOf(s)|
    decreases |s|
  {
    NoBreaks(s);
    if NL in s {
      var k := FirstBreak(s);
      assert s == (s[..k - 1] + [NL]) + s[k..];
      BreaksAppend(s[..k - 1] + [NL], s[k..]);
      BreaksAppend(s[..k - 1], [NL]);
      NoBreaks(s[..k - 1]);
      OneBreak();
      BreaksCountLines(s[k..]);
    }
  }

  // ---- what the forwarder makes of a line ----

  /** bytes.TrimRight(s, "\r\n"). */
  function TrimRight(s: seq<byte>): (r: seq<byte>)
    ensures r <= s
  {
    if s != [] && (s[|s| - 1] == NL || s[|s| - 1] == CR) then TrimRight(s[..|s| - 1]) else s
  }

  /** `body` is what is left of the line without the CR and NL bytes at its end. */
  predicate Body(line: Line, body: seq<byte>) {
    && body <= line
    && (forall k :: |body| <= k < |line| ==> line[k] == NL || line[k] == CR)
    && (body == [] || (body[|body| - 1] != NL && body[|body| - 1] != CR))
  }

  /** Every line has exactly one body. */
  lemma {:induction false} TrimIsBody(line: Line)
    ensures forall body :: Body(line, body) <==> body == TrimRight(line)
  {
    TrimFits(line);
    forall body | Body(line, body) ensures body == TrimRight(line) {
      BodyUnique(line, body, TrimRight(line));
      BodyUnique(line, TrimRight(line), body);
    }
  }

  lemma {:induction false} TrimFits(line: Line)
    ensures Body(line, TrimRight(line))
  {
    if TrimRight(line) != line {
      TrimFits(line[..|line| - 1]);
    }
  }

  lemma BodyUnique(line: Line, a: seq<byte>, b: seq<byte>)
    requires Body(line, a) && Body(line, b)
    ensures |a| <= |b| && (|a| == |b| ==> a == b)
  {
    if |a| > 0 {
      assert a[|a| - 1] == line[|a| - 1];
    }
    if |a| == |b| {
      assert a == line[..|a|] == b;
    }
  }

  /** Neither blank nor damaged; `valid` stands for json.Valid. */
  predicate Deliverable(valid: seq<byte> -> bool, l: Line) {
    TrimRight(l) != [] && valid(TrimRight(l))
  }

  function RecordOf(valid: seq<byte> -> bool, l: Line): seq<seq<byte>> {
    if Deliverable(valid, l) then [TrimRight(l)] else []
  }

  /** The records the forwarder takes out of these lines, in order. */
  function Records(valid: seq<byte> -> bool, ls: seq<Line>): seq<seq<byte>> {
    if ls == [] then [] else RecordOf(valid, ls[0]) + Records(valid, ls[1..])
  }

  lemma {:induction false} RecordsAppend(valid: seq<byte> -> bool, a: seq<Line>, b: seq<Line>)
    ensures Records(valid, a + b) == Records(valid, a) + Records(valid, b)
  {
    if a == [] {
      assert a + b == b;
    } else {
      assert (a + b)[1..] == a[1..] + b;
      RecordsAppend(valid, a[1..], b);
      Assoc(RecordOf(valid, a[0]), Records(valid, a[1..]), Records(valid, b));
    }
  }

  lemma RecordsCons(valid: seq<byte> -> bool, l: Line, ls: seq<Line>)
    ensures Records(valid, [l] + ls) == RecordOf(valid, l) + Records(valid, ls)
  {
    assert ([l] + ls)[1..] == ls;
  }

  /**
   `records` are the bodies of the lines at the increasing indices `idx`, none of them empty or damaged; every
   other line is blank or damaged.
   */
  ghost predicate Selected(valid: seq<byte> -> bool, ls: seq<Line>, records: seq<seq<byte>>, idx: seq<nat>) {
    && |idx| == |records|
    && (forall i, j :: 0 <= i < j < |idx| ==> idx[i] < idx[j])
    && (forall i :: 0 <= i < |idx| ==>
          idx[i] < |ls| && Body(ls[idx[i]], records[i]) && records[i] != [] && valid(records[i]))
    && (forall j: nat, body :: j < |ls| && j !in idx && Body(ls[j], body) ==> body == [] || !valid(body))
  }

  /** What the forwarder takes out of any lines: the bodies of those that are neither blank nor damaged, in order. */
  lemma {:induction false} RecordsSelected(valid: seq<byte> -> bool, ls: seq<Line>) returns (idx: seq<nat>)
    ensures Selected(valid, ls, Records(valid, ls), idx)
  {
    if ls == [] {
      idx := [];
    } else {
      var n := |ls| - 1;
      var init, line := ls[..n], ls[n];
      idx := RecordsSelected(valid, init);
      RecordsAppend(valid, init, [line]);
      RecordsOne(valid, line);
      assert ls == init + [line];
      SelectedSnoc(valid, init, Records(valid, init), idx, line);
      idx := idx + if Deliverable(valid, line) then [n] else [];
    }
  }

  lemma SelectedSnoc(valid: seq<byte> -> bool, ls: seq<Line>, records: seq<seq<byte>>, idx: seq<nat>, line: Line)
    requires Selected(valid, ls, records, idx)
    ensures var idx' := idx + if Deliverable(valid, line) then [|ls|] else [];
            Selected(valid, ls + [line], records + RecordOf(valid, line), idx')
  {
    hide TrimRight, Body;
    TrimIsBody(line);
    var ls', idx' := ls + [line], idx + if Deliverable(valid, line) then [|ls|] else [];
    forall j: nat, body | j < |ls'| && j !in idx' && Body(ls'[j], body) ensures body == [] || !valid(body) {
      assert j < |ls| ==> ls'[j] == ls[j] && j !in idx;
      assert Deliverable(valid, line) ==> idx'[|idx|] == |ls|;
    }
  }

  lemma RecordsOne(valid: seq<byte> -> bool, l: Line)
    ensures Records(valid, [l]) == RecordOf(valid, l)
  {
    RecordsCons(valid, l, []);
    assert [l] + [] == [l] && RecordOf(valid, l) + [] == RecordOf(valid, l);
  }

  lemma {:induction false} AllDeliverable(valid: seq<byte> -> bool, ls: seq<Line>)
    requires forall l :: l in ls ==> Deliverable(valid, l)
    ensures |Records(valid, ls)| == |ls|
  {
    if ls != [] {
      AllDeliverable(valid, ls[1..]);
    }
  }
}
