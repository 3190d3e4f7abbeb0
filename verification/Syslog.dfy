/**
 The syslog parser (internal/agent/parser.go). A Go string is a sequence of bytes; each is a `char` here.
 `stampOk` stands for time.Parse with the layout time.Stamp, `jsonOk` for json.Valid.
 */
module Syslog {
  import opened Options

  datatype Error =
    | NoPriority
    | BadPriority
    | PriorityRange
    | NoTimestamp
    | BadTimestamp
    | NoHostname
    | NoProgram
    | BadPid
    | NoObject

  datatype Parsed = Parsed(program: string, hostname: string, pid: Option<int>, priority: int, payload: Option<string>)

  /** A parse result and an error may come together: the header was good, the payload was not. */
  datatype Result = Result(parsed: Option<Parsed>, error: Option<Error>)

  // ---- strings ----

  /** strings.IndexByte */
  function IndexByte(s: string, c: char): (i: int)
    ensures -1 <= i < |s|
    ensures i >= 0 ==> s[i] == c && c !in s[..i]
    ensures i < 0 ==> c !in s
  {
    if s == "" then -1
    else if s[0] == c then 0
    else
      var i := IndexByte(s[1..], c);
      assert s == [s[0]] + s[1..];
      assert i >= 0 ==> s[..i + 1] == [s[0]] + s[1..][..i];
      if i < 0 then -1 else i + 1
  }

  predicate IsSpace(c: char) {
    c == ' ' || '\t' <= c <= '\r'
  }

  function TrimLeft(s: string): string {
    if s != "" && IsSpace(s[0]) then TrimLeft(s[1..]) else s
  }

  function TrimRight(s: string): string {
    if s != "" && IsSpace(s[|s| - 1]) then TrimRight(s[..|s| - 1]) else s
  }

  /** strings.TrimSpace, for ASCII. */
  function TrimSpace(s: string): string {
    TrimRight(TrimLeft(s))
  }

  const SPACES := " \t\n\U{0B}\U{0C}\r"

  predicate AllSpace(s: string) {
    forall c :: c in s ==> c in SPACES
  }

  /** `p` is `s` without the white space at both ends. */
  ghost predicate Trimmed(s: string, p: string) {
    && (p == "" || (p[0] !in SPACES && p[|p| - 1] !in SPACES))
    && exists a, b :: s == a + p + b && AllSpace(a) && AllSpace(b)
  }

  lemma SpaceExactly(c: char)
    ensures IsSpace(c) <==> c in SPACES
  {
    assert SPACES[0] == ' ' && SPACES[1] == '\t' && SPACES[2] == '\n' && SPACES[5] == '\r';
    assert SPACES[3] == '\U{0B}' && SPACES[4] == '\U{0C}';
  }

  lemma {:induction false} LeftOf(a: string, b: string)
    requires AllSpace(a) && (b == "" || b[0] !in SPACES)
    ensures TrimLeft(a + b) == b
  {
    if a == "" {
      assert a + b == b;
      if b != "" {
        SpaceExactly(b[0]);
      }
    } else {
      SpaceExactly(a[0]);
      assert (a + b)[1..] == a[1..] + b;
      LeftOf(a[1..], b);
    }
  }

  lemma {:induction false} RightOf(a: string, b: string)
    requires AllSpace(b) && (a == "" || a[|a| - 1] !in SPACES)
    ensures TrimRight(a + b) == a
    decreases |b|
  {
    if b == "" {
      assert a + b == a;
      if a != "" {
        SpaceExactly(a[|a| - 1]);
      }
    } else {
      var n := |b| - 1;
      SpaceExactly(b[n]);
      assert (a + b)[..|a| + n] == a + b[..n];
      RightOf(a, b[..n]);
    }
  }

  lemma {:induction false} LeftCut(s: string) returns (a: string)
    ensures s == a + TrimLeft(s) && AllSpace(a) && (TrimLeft(s) == "" || TrimLeft(s)[0] !in SPACES)
  {
    if s == "" {
      a := "";
    } else {
      SpaceExactly(s[0]);
      if IsSpace(s[0]) {
        var more := LeftCut(s[1..]);
        a := [s[0]] + more;
        assert s == [s[0]] + s[1..];
      } else {
        a := "";
      }
    }
  }

  lemma {:induction false} RightCut(s: string) returns (b: string)
    ensures s == TrimRight(s) + b && AllSpace(b)
    ensures TrimRight(s) == "" || TrimRight(s)[|TrimRight(s)| - 1] !in SPACES
  {
    if s == "" {
      b := "";
    } else {
      var n := |s| - 1;
      SpaceExactly(s[n]);
      if IsSpace(s[n]) {
        var more := RightCut(s[..n]);
        b := more + [s[n]];
        assert s == s[..n] + [s[n]];
      } else {
        b := "";
      }
    }
  }

  lemma TrimExactly(s: string, p: string)
    ensures Trimmed(s, p) <==> p == TrimSpace(s)
  {
    var a := LeftCut(s);
    var b := RightCut(TrimLeft(s));
    var t := TrimSpace(s);
    assert s == a + t + b;
    assert t != "" ==> t[0] == TrimLeft(s)[0];
    if Trimmed(s, p) {
      var x, y :| s == x + p + y && AllSpace(x) && AllSpace(y);
      if p == "" {
        assert s == (x + y) + "" && AllSpace(x + y);
        LeftOf(x + y, "");
      } else {
        assert s == x + (p + y);
        LeftOf(x, p + y);
        RightOf(p, y);
      }
    }
  }

  predicate IsDigit(c: char) {
    '0' <= c <= '9'
  }

  predicate AllDigits(s: string) {
    forall i :: 0 <= i < |s| ==> IsDigit(s[i])
  }

  function Digit(c: char): nat
    requires IsDigit(c)
  {
    (c - '0') as nat
  }

  function ValueOf(s: string): nat
    requires AllDigits(s)
  {
    if s == "" then 0 else 10 * ValueOf(s[..|s| - 1]) + Digit(s[|s| - 1])
  }

  const MAX_INT := 0x7fff_ffff_ffff_ffff

  /** strconv.Atoi: an optional sign and digits, in the range of a 64-bit int. */
  function Atoi(s: string): Option<int> {
    var negative := s != "" && s[0] == '-';
    var digits := if s != "" && (s[0] == '-' || s[0] == '+') then s[1..] else s;
    if digits == "" || !AllDigits(digits) then None
    else
      var n: int := ValueOf(digits);
      if negative then (if n <= MAX_INT + 1 then Some(-n) else None)
      else if n <= MAX_INT then Some(n) else None
  }

  /** Atoi gives a number exactly for a sign or none, and digits after it, whose value is a 64-bit int. */
  lemma AtoiExactly(s: string, v: int)
    ensures Atoi(s) == Some(v) <==>
            && -9223372036854775808 <= v <= 9223372036854775807
            && (|| Numeral(s, v)
                || (s != "" && s[0] == '+' && Numeral(s[1..], v))
                || (s != "" && s[0] == '-' && Numeral(s[1..], -v)))
  {
    hide ValueOf;
  }

  predicate Numeral(digits: string, v: int) {
    digits != "" && AllDigits(digits) && v == ValueOf(digits)
  }

  // ---- the parser ----

  /** Priority, and what follows it. */
  function ParsePriority(msg: string): (r: (Option<Error>, int, string))
    ensures r.0.None? ==> 0 <= r.1 <= 191
  {
    if msg == "" || msg[0] != '<' then (Some(NoPriority), 0, "")
    else
      var end := IndexByte(msg, '>');
      if end < 2 || end > 4 then (Some(BadPriority), 0, "")
      else
        var pri := Atoi(msg[1..end]);
        if pri.None? || pri.value < 0 || pri.value > 191 then (Some(PriorityRange), 0, "")
        else (None, pri.value, msg[end + 1..])
  }

  /** The tag before the colon: a program, or a program and a PID in brackets. */
  function ParseTag(tag: string): (r: (Option<Error>, string, Option<int>))
    requires tag != ""
    ensures r.0.None? ==> r.1 != "" && r.1 <= tag
  {
    var lb := IndexByte(tag, '[');
    if lb > 0 && tag[|tag| - 1] == ']' then
      var pid := Atoi(tag[lb + 1..|tag| - 1]);
      if pid.None? then (Some(BadPid), "", None) else (None, tag[..lb], pid)
    else (None, tag, None)
  }

  function ParsePayload(rest: string, jsonOk: string -> bool): Option<string> {
    var payload := TrimSpace(rest);
    if payload == "" || payload[0] != '{' || !jsonOk(payload) then None else Some(payload)
  }

  function Fail(e: Error): Result {
    Result(None, Some(e))
  }

  function ParseSyslog(msg: string, stampOk: string -> bool, jsonOk: string -> bool): Result {
    var (bad, pri, rest) := ParsePriority(msg);
    if bad.Some? then Fail(bad.value)
    else if |rest| < 16 || rest[15] != ' ' then Fail(NoTimestamp)
    else if !stampOk(rest[..15]) then Fail(BadTimestamp)
    else ParseAfterStamp(rest[16..], pri, jsonOk)
  }

  function ParseAfterStamp(rest: string, pri: int, jsonOk: string -> bool): Result {
    var sp := IndexByte(rest, ' ');
    if sp <= 0 then Fail(NoHostname)
    else ParseAfterHost(rest[sp + 1..], rest[..sp], pri, jsonOk)
  }

  function ParseAfterHost(rest: string, host: string, pri: int, jsonOk: string -> bool): Result {
    var colon := IndexByte(rest, ':');
    if colon <= 0 || ' ' in rest[..colon] || '\t' in rest[..colon] then Fail(NoProgram)
    else
      var (bad, program, pid) := ParseTag(rest[..colon]);
      if bad.Some? then Fail(bad.value)
      else
        var payload := ParsePayload(rest[colon + 1..], jsonOk);
        Result(Some(Parsed(program, host, pid, pri, payload)), if payload.None? then Some(NoObject) else None)
  }

  // ---- printing ----

  function Dec(n: nat): (s: string)
    ensures s != ""
  {
    if n < 10 then ['0' + n as char] else Dec(n / 10) + ['0' + (n % 10) as char]
  }

  function Tag(program: string, pid: Option<nat>): string {
    match pid
    case None => program
    case Some(n) => program + "[" + Dec(n) + "]"
  }

  /** A message, part by part. */
  function Message(num: string, stamp: string, host: string, tag: string, rest: string): string {
    "<" + num + ">" + (stamp + " " + (host + " " + (tag + ":" + rest)))
  }

  function Print(pri: nat, stamp: string, host: string, program: string, pid: Option<nat>, payload: string): string {
    Message(Dec(pri), stamp, host, Tag(program, pid), " " + payload)
  }

  /** Digits are zeros and then the number they stand for, in decimal. */
  lemma {:induction false} DigitsAreDec(s: string) returns (zeros: string)
    requires s != "" && AllDigits(s)
    ensures s == zeros + Dec(ValueOf(s)) && forall c :: c in zeros ==> c == '0'
  {
    hide Dec, ValueOf, Digit, IsDigit;
    var n := |s| - 1;
    DigitLast(s);
    InitAndLast(s);
    if n == 0 {
      zeros := "";
      OneDigit(s);
    } else {
      var before := DigitsAreDec(s[..n]);
      zeros := if ValueOf(s[..n]) == 0 then before + "0" else before;
      DigitOn(before, ValueOf(s[..n]), s[n]);
    }
  }

  lemma DigitLast(s: string)
    requires s != "" && AllDigits(s)
    ensures var n := |s| - 1;
            && IsDigit(s[n]) && AllDigits(s[..n])
            && ValueOf(s) == 10 * ValueOf(s[..n]) + Digit(s[n])
  {
    hide Digit;
  }

  lemma InitAndLast(s: string)
    requires s != ""
    ensures s == s[..|s| - 1] + [s[|s| - 1]]
  {
  }

  lemma OneDigit(s: string)
    requires |s| == 1 && AllDigits(s)
    ensures Dec(ValueOf(s)) == s
  {
    hide Dec, Digit;
    DigitChar(s[0]);
    assert s[..0] == "" && s == [s[0]];
  }

  lemma DigitChar(c: char)
    requires IsDigit(c)
    ensures Digit(c) < 10 && c == '0' + Digit(c) as char && Dec(Digit(c)) == [c]
  {
    assert Dec(Digit(c)) == ['0' + Digit(c) as char];
  }

  lemma DigitOn(zeros: string, v: nat, c: char)
    requires IsDigit(c)
    ensures zeros + Dec(v) + [c] == (if v == 0 then zeros + "0" else zeros) + Dec(10 * v + Digit(c))
  {
    hide Digit;
    DigitChar(c);
    if v == 0 {
      assert Dec(0) == "0";
    } else {
      DecSnoc(v, Digit(c));
    }
  }

  lemma DecSnoc(v: nat, d: nat)
    requires v > 0 && d < 10
    ensures Dec(10 * v + d) == Dec(v) + ['0' + d as char]
  {
    assert (10 * v + d) / 10 == v && (10 * v + d) % 10 == d;
  }

  lemma {:induction false} DecDigits(n: nat)
    ensures AllDigits(Dec(n)) && ValueOf(Dec(n)) == n
    ensures forall k: nat :: 1 <= k && n < Power10(k) ==> |Dec(n)| <= k
  {
    if n < 10 {
      assert ['0' + n as char][..0] == "";
      assert ValueOf(['0' + n as char]) == n;
    } else {
      DecDigits(n / 10);
      var init, last := Dec(n / 10), '0' + (n % 10) as char;
      assert (init + [last])[..|init|] == init;
      assert ValueOf(Dec(n)) == 10 * ValueOf(init) + n % 10;
      forall k: nat | 1 <= k && n < Power10(k) ensures |Dec(n)| <= k {
        assert k >= 2 && Power10(k) == 10 * Power10(k - 1);
        assert n / 10 < Power10(k - 1);
      }
    }
  }

  function Power10(k: nat): nat {
    if k == 0 then 1 else 10 * Power10(k - 1)
  }

  lemma AtoiDec(n: nat)
    requires n <= MAX_INT
    ensures Atoi(Dec(n)) == Some(n)
  {
    DecDigits(n);
    assert IsDigit(Dec(n)[0]);
  }

  lemma ShortPriority(n: nat)
    requires n <= 191
    ensures |Dec(n)| <= 3
  {
    DecDigits(n);
    assert Power10(3) == 1000;
  }

  lemma IndexAfter(a: string, c: char, b: string)
    requires c !in a
    ensures IndexByte(a + [c] + b, c) == |a|
    ensures (a + [c] + b)[..|a|] == a && (a + [c] + b)[|a| + 1..] == b
  {
    var s := a + [c] + b;
    var i := IndexByte(s, c);
    assert s[|a|] == c;
    assert forall j :: 0 <= j < |a| ==> s[j] == a[j];
    assert forall j :: 0 <= j < i ==> s[j] == s[..i][j];
  }

  predicate InRange(pri: Option<int>) {
    pri.Some? && 0 <= pri.value <= 191
  }

  /** What stands between the angle brackets is a priority exactly if Atoi says so. */
  lemma PriorityOf(num: string, rest: string)
    requires 1 <= |num| <= 3 && '>' !in num
    ensures ParsePriority("<" + num + ">" + rest) ==
            if InRange(Atoi(num)) then (None, Atoi(num).value, rest) else (Some(PriorityRange), 0, "")
  {
    hide Atoi;
    var head := "<" + num;
    IndexAfter(head, '>', rest);
    var msg := head + ">" + rest;
    assert msg[1..|head|] == num;
  }

  lemma PriorityBack(pri: nat, rest: string)
    requires pri <= 191
    ensures ParsePriority("<" + Dec(pri) + ">" + rest) == (None, pri, rest)
  {
    hide Atoi, ParsePriority;
    DecDigits(pri);
    AtoiDec(pri);
    ShortPriority(pri);
    NotDigits(Dec(pri));
    PriorityOf(Dec(pri), rest);
  }

  /** A sign before a number in decimal. */
  lemma AtoiSigned(n: nat)
    ensures var value: int := n;
            && (n <= MAX_INT ==> Atoi("+" + Dec(n)) == Some(value))
            && (n <= MAX_INT + 1 ==> Atoi("-" + Dec(n)) == Some(-value))
  {
    DecDigits(n);
    assert ("+" + Dec(n))[1..] == Dec(n) == ("-" + Dec(n))[1..];
  }

  /**
   A sign is no digit, but it is accepted where there is room for it: every `<+n>` has the priority of `<n>`,
   and of the negative numbers `<-0>` is one, and only that.
   */
  lemma SignedPriority(n: nat, rest: string)
    requires |Dec(n)| <= 2
    ensures n <= 191 && ParsePriority("<+" + Dec(n) + ">" + rest) == ParsePriority("<" + Dec(n) + ">" + rest)
    ensures ParsePriority("<-" + Dec(n) + ">" + rest) ==
            if n == 0 then (None, 0, rest) else (Some(PriorityRange), 0, "")
  {
    hide Atoi, ParsePriority;
    TwoDigits(n);
    DecDigits(n);
    NotDigits(Dec(n));
    AtoiSigned(n);
    PriorityBack(n, rest);
    PriorityOf("+" + Dec(n), rest);
    PriorityOf("-" + Dec(n), rest);
    assert "<" + ("+" + Dec(n)) == "<+" + Dec(n) && "<" + ("-" + Dec(n)) == "<-" + Dec(n);
  }

  lemma TwoDigits(n: nat)
    ensures n >= 100 ==> |Dec(n)| >= 3
  {
    if n >= 100 {
      assert |Dec(n)| == |Dec(n / 10)| + 1 && |Dec(n / 10)| >= 2;
    }
  }

  predicate Plain(program: string) {
    program != "" && ' ' !in program && '\t' !in program && ':' !in program && '[' !in program
  }

  predicate TagOk(tag: string) {
    tag != "" && ' ' !in tag && '\t' !in tag && ':' !in tag
  }

  /** What stands in the brackets behind a program is a PID exactly if Atoi says so. */
  lemma PidOf(program: string, text: string)
    requires program != "" && '[' !in program
    ensures ParseTag(program + "[" + text + "]") ==
            if Atoi(text).None? then (Some(BadPid), "", None) else (None, program, Atoi(text))
  {
    hide Atoi;
    IndexAfter(program, '[', text + "]");
    var tag := program + "[" + text + "]";
    assert tag == program + "[" + (text + "]");
    assert tag[|program| + 1..|tag| - 1] == text;
  }

  /** A PID may have a sign too, also a minus. */
  lemma SignedPid(program: string, n: nat)
    requires program != "" && '[' !in program && n <= MAX_INT
    ensures var pid: int := n;
            && ParseTag(program + "[" + ("+" + Dec(n)) + "]") == (None, program, Some(pid))
            && ParseTag(program + "[" + ("-" + Dec(n)) + "]") == (None, program, Some(-pid))
  {
    hide Atoi, ParseTag;
    AtoiSigned(n);
    PidOf(program, "+" + Dec(n));
    PidOf(program, "-" + Dec(n));
  }

  lemma TagBack(program: string, pid: Option<nat>)
    requires Plain(program) && (pid.Some? ==> pid.value <= MAX_INT)
    ensures var tag := Tag(program, pid);
            && TagOk(tag) && ParseTag(tag) == (None, program, if pid.None? then None else Some(pid.value))
  {
    if pid.Some? {
      hide Atoi;
      DecDigits(pid.value);
      AtoiDec(pid.value);
      NotDigits(Dec(pid.value));
      PidOf(program, Dec(pid.value));
    }
  }

  /** Without a closing bracket at its end, or an opening one after its first byte, all of the tag is the program. */
  lemma TagWhole(tag: string)
    requires tag != "" && (tag[|tag| - 1] != ']' || tag[0] == '[' || '[' !in tag)
    ensures ParseTag(tag) == (None, tag, None)
  {
  }

  lemma NotDigits(s: string)
    requires AllDigits(s)
    ensures ' ' !in s && '\t' !in s && ':' !in s && '>' !in s
  {
  }

  lemma PayloadBack(payload: string, jsonOk: string -> bool)
    requires payload != "" && payload[0] == '{' && !IsSpace(payload[|payload| - 1]) && jsonOk(payload)
    ensures ParsePayload(" " + payload, jsonOk) == Some(payload)
  {
    assert (" " + payload)[1..] == payload;
    assert TrimLeft(" " + payload) == TrimLeft(payload) == payload;
    assert TrimRight(payload) == payload;
  }

  /** A payload is taken exactly if, without the white space around it, it begins with a brace and is valid JSON. */
  lemma PayloadExactly(rest: string, jsonOk: string -> bool, payload: string)
    ensures ParsePayload(rest, jsonOk) == Some(payload) <==>
              Trimmed(rest, payload) && payload != "" && payload[0] == '{' && jsonOk(payload)
  {
    hide TrimSpace, Trimmed;
    TrimExactly(rest, payload);
  }

  /** What is printed in the format of section 4.1 of RFC 3164 is parsed back, field by field, without error. */
  lemma RoundTrip(pri: nat, stamp: string, host: string, program: string, pid: Option<nat>, payload: string,
                  stampOk: string -> bool, jsonOk: string -> bool)
    requires pri <= 191 && |stamp| == 15 && stampOk(stamp)
    requires host != "" && ' ' !in host
    requires Plain(program) && (pid.Some? ==> pid.value <= MAX_INT)
    requires payload != "" && payload[0] == '{' && !IsSpace(payload[|payload| - 1]) && jsonOk(payload)
    ensures ParseSyslog(Print(pri, stamp, host, program, pid, payload), stampOk, jsonOk) ==
            Result(Some(Parsed(program, host, if pid.None? then None else Some(pid.value), pri, Some(payload))), None)
  {
    hide Atoi, Dec, Tag, ParseTag, ParsePayload, ParseSyslog, TagOk, Message;
    DecDigits(pri);
    NotDigits(Dec(pri));
    AtoiDec(pri);
    ShortPriority(pri);
    TagBack(program, pid);
    PayloadBack(payload, jsonOk);
    PartsParsed(Dec(pri), stamp, host, Tag(program, pid), " " + payload, stampOk, jsonOk);
  }

  /** After a priority field the first part that is not there or not good is the error. */
  lemma StampErrors(num: string, rest: string, stampOk: string -> bool, jsonOk: string -> bool)
    requires 1 <= |num| <= 3 && '>' !in num
    ensures ParseSyslog("<" + num + ">" + rest, stampOk, jsonOk) ==
            if !InRange(Atoi(num)) then Fail(PriorityRange)
            else if |rest| < 16 || rest[15] != ' ' then Fail(NoTimestamp)
            else if !stampOk(rest[..15]) then Fail(BadTimestamp)
            else ParseAfterStamp(rest[16..], Atoi(num).value, jsonOk)
  {
    hide Atoi, ParseAfterStamp, ParsePriority;
    PriorityOf(num, rest);
  }

  /** After the timestamp: a host and a space, then a tag without a blank, then a colon. */
  lemma HeaderErrors(rest: string, pri: int, jsonOk: string -> bool)
    ensures ' ' !in rest || rest[0] == ' ' ==> ParseAfterStamp(rest, pri, jsonOk) == Fail(NoHostname)
  {
    hide ParseAfterHost;
  }

  lemma TagErrors(host: string, tag: string, after: string, pri: int, jsonOk: string -> bool)
    requires host != "" && ' ' !in host && ':' !in tag
    ensures ParseAfterStamp(host + " " + tag, pri, jsonOk) == Fail(NoProgram)
    ensures var r := ParseAfterStamp(host + " " + (tag + ":" + after), pri, jsonOk);
            && (tag == "" || ' ' in tag || '\t' in tag ==> r == Fail(NoProgram))
            && (tag != "" && ' ' !in tag && '\t' !in tag && ParseTag(tag).0.Some? ==> r == Fail(BadPid))
            && (r.parsed.Some? <==> tag != "" && ' ' !in tag && '\t' !in tag && ParseTag(tag).0.None?)
  {
    hide ParsePayload, Atoi;
    IndexAfter(host, ' ', tag);
    IndexAfter(host, ' ', tag + ":" + after);
    IndexAfter(tag, ':', after);
  }

  /** The parts of a message that gives a result. */
  predicate Parts(num: string, stamp: string, host: string, tag: string, stampOk: string -> bool) {
    && 1 <= |num| <= 3 && '>' !in num && InRange(Atoi(num))
    && |stamp| == 15 && stampOk(stamp) && host != "" && ' ' !in host
    && TagOk(tag) && ParseTag(tag).0.None?
  }

  /** All of them are accepted, whatever follows the colon, and give these fields. */
  lemma PartsParsed(num: string, stamp: string, host: string, tag: string, rest: string,
                    stampOk: string -> bool, jsonOk: string -> bool)
    requires Parts(num, stamp, host, tag, stampOk)
    ensures var payload := ParsePayload(rest, jsonOk);
            ParseSyslog(Message(num, stamp, host, tag, rest), stampOk, jsonOk) ==
            Result(Some(Parsed(ParseTag(tag).1, host, ParseTag(tag).2, Atoi(num).value, payload)),
                   if payload.None? then Some(NoObject) else None)
  {
    hide Atoi, ParseTag, ParsePayload, ParsePriority;
    var tail := tag + ":" + rest;
    var afterStamp := host + " " + tail;
    var after := stamp + " " + afterStamp;
    PriorityOf(num, after);
    assert after[..15] == stamp && after[15] == ' ' && after[16..] == afterStamp;
    IndexAfter(host, ' ', tail);
    IndexAfter(tag, ':', rest);
  }

  // ---- the other way round ----

  lemma Cut(s: string, c: char)
    requires IndexByte(s, c) >= 0
    ensures var i := IndexByte(s, c); s == s[..i] + [c] + s[i + 1..] && c !in s[..i]
  {
    var i := IndexByte(s, c);
    CutIn(s, i);
  }

  lemma CutIn(s: string, i: nat)
    requires i < |s|
    ensures s == s[..i] + [s[i]] + s[i + 1..]
  {
    var head := s[..i] + [s[i]];
    assert head == s[..i + 1];
    assert s == s[..i + 1] + s[i + 1..];
  }

  lemma TagParts(rest: string, host: string, pri: int, jsonOk: string -> bool) returns (tag: string, more: string)
    requires ParseAfterHost(rest, host, pri, jsonOk).parsed.Some?
    ensures var r := ParseAfterHost(rest, host, pri, jsonOk);
            var p := r.parsed.value;
            && rest == tag + ":" + more && TagOk(tag) && p.hostname == host && p.priority == pri
            && ParseTag(tag) == (None, p.program, p.pid)
            && p.payload == ParsePayload(more, jsonOk) && (r.error.None? <==> p.payload.Some?)
  {
    hide ParseTag, ParsePayload;
    Cut(rest, ':');
    var colon := IndexByte(rest, ':');
    tag, more := rest[..colon], rest[colon + 1..];
  }

  lemma HostParts(rest: string, pri: int, jsonOk: string -> bool) returns (host: string, more: string)
    requires ParseAfterStamp(rest, pri, jsonOk).parsed.Some?
    ensures rest == host + " " + more && host != "" && ' ' !in host
    ensures ParseAfterStamp(rest, pri, jsonOk) == ParseAfterHost(more, host, pri, jsonOk)
  {
    hide ParseAfterHost;
    Cut(rest, ' ');
    var sp := IndexByte(rest, ' ');
    host, more := rest[..sp], rest[sp + 1..];
  }

  lemma PriorityParts(msg: string) returns (num: string, more: string)
    requires ParsePriority(msg).0.None?
    ensures msg == "<" + num + ">" + more && 1 <= |num| <= 3 && '>' !in num
    ensures Atoi(num) == Some(ParsePriority(msg).1) && more == ParsePriority(msg).2
  {
    hide Atoi;
    Cut(msg, '>');
    var end := IndexByte(msg, '>');
    num, more := msg[1..end], msg[end + 1..];
    assert msg[..end] == "<" + num;
  }

  lemma StampParts(rest: string) returns (stamp: string, more: string)
    requires |rest| >= 16 && rest[15] == ' '
    ensures stamp == rest[..15] && more == rest[16..] && rest == stamp + " " + more
  {
    stamp, more := rest[..15], rest[16..];
  }

  /** Anything that gives a result consists of such parts, and the fields are theirs. */
  lemma ParsedParts(msg: string, stampOk: string -> bool, jsonOk: string -> bool)
      returns (num: string, stamp: string, host: string, tag: string, rest: string)
    requires ParseSyslog(msg, stampOk, jsonOk).parsed.Some?
    ensures Parts(num, stamp, host, tag, stampOk) && msg == Message(num, stamp, host, tag, rest)
    ensures var r := ParseSyslog(msg, stampOk, jsonOk);
            var p := r.parsed.value;
            && Atoi(num) == Some(p.priority) && p.hostname == host && ParseTag(tag) == (None, p.program, p.pid)
            && p.payload == ParsePayload(rest, jsonOk) && (r.error.None? <==> p.payload.Some?)
  {
    hide ParsePriority, ParseAfterStamp, ParseAfterHost, ParseTag, ParsePayload, TagOk, Atoi;
    var afterPriority, afterStamp, afterHost;
    num, afterPriority := PriorityParts(msg);
    stamp, afterStamp := StampParts(afterPriority);
    var pri := ParsePriority(msg).1;
    host, afterHost := HostParts(afterStamp, pri, jsonOk);
    tag, rest := TagParts(afterHost, host, pri, jsonOk);
  }

  ghost predicate HasParts(msg: string, stampOk: string -> bool) {
    exists num, stamp, host, tag, rest ::
      Parts(num, stamp, host, tag, stampOk) && msg == Message(num, stamp, host, tag, rest)
  }

  /** So a message gives a result if and only if it has such parts, and no error if its payload is an object too. */
  lemma AcceptedExactly(msg: string, stampOk: string -> bool, jsonOk: string -> bool)
    ensures ParseSyslog(msg, stampOk, jsonOk).parsed.Some? <==> HasParts(msg, stampOk)
    ensures var r := ParseSyslog(msg, stampOk, jsonOk);
            && (r.error.None? <==> r.parsed.Some? && r.parsed.value.payload.Some?)
            && (r.error == Some(NoObject) <==> r.parsed.Some? && r.parsed.value.payload.None?)
  {
    hide ParseSyslog, Parts, Message, ParsePayload, ParseTag, Atoi;
    if ParseSyslog(msg, stampOk, jsonOk).parsed.Some? {
      var num, stamp, host, tag, rest := ParsedParts(msg, stampOk, jsonOk);
    }
    if HasParts(msg, stampOk) {
      var num, stamp, host, tag, rest :|
        Parts(num, stamp, host, tag, stampOk) && msg == Message(num, stamp, host, tag, rest);
      PartsAtoi(num, stamp, host, tag, stampOk);
      PartsParsed(num, stamp, host, tag, rest, stampOk, jsonOk);
    }
    NoResultIsError(msg, stampOk, jsonOk);
  }

  lemma PartsAtoi(num: string, stamp: string, host: string, tag: string, stampOk: string -> bool)
    requires Parts(num, stamp, host, tag, stampOk)
    ensures Atoi(num).Some? && tag != ""
  {
  }

  lemma NoResultIsError(msg: string, stampOk: string -> bool, jsonOk: string -> bool)
    ensures Told(ParseSyslog(msg, stampOk, jsonOk))
  {
    hide ParseAfterStamp, Atoi, IndexByte;
    forall rest, pri ensures Told(ParseAfterStamp(rest, pri, jsonOk)) {
      NoHostIsError(rest, pri, jsonOk);
    }
  }

  /** No error exactly with a payload, and the payload's error exactly with a result that has none. */
  predicate Told(r: Result) {
    && (r.error.None? <==> r.parsed.Some? && r.parsed.value.payload.Some?)
    && (r.error == Some(NoObject) <==> r.parsed.Some? && r.parsed.value.payload.None?)
  }

  lemma NoHostIsError(rest: string, pri: int, jsonOk: string -> bool)
    ensures Told(ParseAfterStamp(rest, pri, jsonOk))
  {
    hide ParsePayload, Atoi, IndexByte;
  }
}
