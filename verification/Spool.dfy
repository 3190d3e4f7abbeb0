/** The spool itself (internal/agent/spool.go): one object, its files in bytes. */
module Spool {
  import opened Lines
  import opened SpoolModel
  import opened SpoolBytes
  import opened Cleaning
  import Scanning

  const SYNC_EVERY := 100

  /** The offset file; `Damaged` is content that does not decode. */
  datatype OffsetFile = Missing | Damaged | Holds(at: Position)

  /** loadOffset: whatever is not a position in a spool file means the empty position. */
  function LoadOffset(f: OffsetFile): (p: Position)
    ensures p == START || f == Holds(p)
  {
    if f.Holds? && f.at.day > 0 then f.at else START
  }

  datatype OpenIo = OpenOk | OpenFails | StatFails

  datatype WriteIo = Short(written: nat) | Full(syncFails: bool)

  function RepairedFile(f: File<byte>): File<byte> {
    if f.gz then f else f.(content := Scanning.Repaired(f.content))
  }

  /** A compressed file stays as it is, and a plain one keeps its complete lines and nothing else. */
  predicate RepairedTo(f: File<byte>, g: File<byte>) {
    && f.day == g.day && f.gz == g.gz
    && (if f.gz then f.content == g.content else Scanning.Longest(f.content, g.content))
  }

  lemma RepairedExactly(f: File<byte>)
    ensures forall g :: RepairedTo(f, g) <==> g == RepairedFile(f)
  {
    Scanning.RepairIsLongest(f.content);
  }

  /** ReadBytes('\\n'): the next complete line, or io.EOF. */
  method ReadLine(content: seq<byte>, offset: nat) returns (line: Line, eof: bool)
    requires offset <= |content|
    ensures eof ==> NL !in content[offset..] && LinesOf(content[offset..]) == []
    ensures !eof ==> line != [] && offset + |line| <= |content| && Complete(content[..offset + |line|])
    ensures !eof ==> LinesOf(content[offset..]) == [line] + LinesOf(content[offset + |line|..])
  {
    hide *;
    var rest := content[offset..];
    if NL !in rest {
      NoLineLeft(content, offset);
      return [], true;
    }
    line := rest[..FirstBreak(rest)];
    LineLeft(content, offset);
    return line, false;
  }

  lemma NoLineLeft(content: seq<byte>, offset: nat)
    requires offset <= |content| && NL !in content[offset..]
    ensures LinesOf(content[offset..]) == []
  {
  }

  lemma LineLeft(content: seq<byte>, offset: nat)
    requires offset <= |content| && NL in content[offset..]
    ensures var line := content[offset..][..FirstBreak(content[offset..])];
            && line != [] && offset + |line| <= |content| && Complete(content[..offset + |line|])
            && LinesOf(content[offset..]) == [line] + LinesOf(content[offset + |line|..])
  {
    hide LinesOf;
    var rest := content[offset..];
    var k := FirstBreak(rest);
    LinesOfFirst(rest, k);
    assert rest[k..] == content[offset + k..];
    assert content[offset + k - 1] == rest[k - 1];
  }

  /** What to keep of a line: nothing if it is blank or damaged. */
  method KeepRecord(valid: seq<byte> -> bool, line: Line, lines: seq<seq<byte>>) returns (lines': seq<seq<byte>>)
    ensures lines' == lines + RecordOf(valid, line) && |lines| <= |lines'| <= |lines| + 1
    ensures forall body :: Body(line, body) ==> lines' == lines + if body != [] && valid(body) then [body] else []
  {
    TrimIsBody(line);
    var body := TrimRight(line);
    if body == [] || !valid(body) {
      return lines;
    }
    return lines + [body];
  }

  /** One more line passed. */
  lemma PassOne(valid: seq<byte> -> bool, all: seq<Line>, passed: seq<Line>, line: Line, rest: seq<Line>,
                got: seq<seq<byte>>)
    requires all == passed + ([line] + rest)
    ensures all == passed + [line] + rest
    ensures got + Records(valid, passed) + RecordOf(valid, line) == got + Records(valid, passed + [line])
  {
    hide Records, RecordOf;
    RecordsAppend(valid, passed, [line]);
    RecordsOne(valid, line);
    Assoc(passed, [line], rest);
    Assoc(got, Records(valid, passed), RecordOf(valid, line));
  }

  lemma NonePassed(valid: seq<byte> -> bool, all: seq<Line>, got: seq<seq<byte>>)
    ensures [] + all == all && got + Records(valid, []) == got
  {
  }

  /**
   readFrom on one file: lines are passed from `from` on until there are `max` records or no complete
   line is left. The new records are the bodies of the lines passed that are neither blank nor damaged.
   */
  method ReadFrom(valid: seq<byte> -> bool, content: seq<byte>, from: nat, max: nat, got: seq<seq<byte>>)
    returns (offset: nat, lines: seq<seq<byte>>, eof: bool, ghost passed: seq<Line>, ghost idx: seq<nat>)
    requires |got| <= max
    ensures var start := if from > |content| then 0 else from;
            && start <= offset <= |content|
            && LinesOf(content[start..]) == passed + LinesOf(content[offset..])
            && (Complete(content[..start]) ==> Complete(content[..offset]))
    ensures lines == got + Records(valid, passed) && Selected(valid, passed, lines[|got|..], idx)
    ensures |lines| <= max && (if eof then NL !in content[offset..] else |lines| == max)
  {
    hide *;
    offset := if from > |content| then 0 else from;
    lines, passed := got, [];
    ghost var start := offset;
    NonePassed(valid, LinesOf(content[start..]), got);
    while |lines| < max
      invariant start <= offset <= |content| && |lines| <= max
      invariant LinesOf(content[start..]) == passed + LinesOf(content[offset..])
      invariant lines == got + Records(valid, passed)
      invariant Complete(content[..start]) ==> Complete(content[..offset])
      decreases |content| - offset
    {
      var line, end := ReadLine(content, offset);
      if end {
        idx := RecordsSelected(valid, passed);
        return offset, lines, true, passed, idx;
      }
      PassOne(valid, LinesOf(content[start..]), passed, line, LinesOf(content[offset + |line|..]), got);
      lines := KeepRecord(valid, line, lines);
      passed := passed + [line];
      offset := offset + |line|;
    }
    idx := RecordsSelected(valid, passed);
    return offset, lines, false, passed, idx;
  }

  /** One turn of that loop: on to the next file if the one at `pos` is gone, and what it holds. */
  method ReadNext(valid: seq<byte> -> bool, dir: seq<File<byte>>, pos: Position, max: nat, lines: seq<seq<byte>>)
    returns (end: Position, more: seq<seq<byte>>, eof: bool, ghost passed: seq<Line>)
    requires Listing(dir) && AllComplete(dir) && PlainOrdered(dir) && |lines| <= max
    requires Search(PlainDays(dir), pos.day) < |PlainDays(dir)|
    ensures Unread(dir, pos) == passed + Unread(dir, end) && more == lines + Records(valid, passed) && |more| <= max
    ensures end.day == PlainDays(dir)[Search(PlainDays(dir), pos.day)] && Fits(dir, end)
    ensures Onward(dir, pos, end)
    ensures if eof
            then forall k :: 0 <= k < |dir| && !dir[k].gz && dir[k].day == end.day ==> end.offset == |dir[k].content|
            else |more| == max
  {
    hide LinesOf, Records, Rest, Search, PlainDays, Listing, Onward, Unread, Selected, AllComplete, PlainOrdered, Fits,
      Complete;
    var names := PlainDays(dir);
    var idx := Search(names, pos.day);
    PlainDaysMember(dir, names[idx]);
    var at := pos;
    OnwardTo(dir, pos, pos);
    if names[idx] != pos.day {
      SkipLines(dir, pos, idx);
      at := Position(names[idx], 0);
      OnwardToStart(dir, pos, names[idx]);
    }
    var k := PlainIndex(dir, at.day);
    var offset;
    ghost var chosen;
    offset, more, eof, passed, chosen := ReadFrom(valid, dir[k].content, at.offset, max, lines);
    AfterFile(dir, k, at, offset, passed);
    OnInFile(dir, k, at, offset);
    end := Position(at.day, offset);
    OnwardTransitive(dir, pos, at, end);
  }

  /** Reading on in file `k`, perhaps to its last newline. */
  lemma OnInFile(dir: seq<File<byte>>, k: nat, at: Position, offset: nat)
    requires k < |dir| && !dir[k].gz && dir[k].day == at.day && PlainOrdered(dir) && AllComplete(dir)
    requires var start := StartIn(dir[k], at);
             && start <= offset <= |dir[k].content|
             && (Complete(dir[k].content[..start]) ==> Complete(dir[k].content[..offset]))
    ensures var end := Position(at.day, offset);
            && Onward(dir, at, end) && Fits(dir, end)
            && (NL !in dir[k].content[offset..] ==>
                  forall j :: 0 <= j < |dir| && !dir[j].gz && dir[j].day == end.day ==> end.offset == |dir[j].content|)
  {
    hide Onward;
    OnlyPlain(dir, k);
    TailHasBreak(dir[k].content, offset);
    OnwardTo(dir, at, Position(at.day, offset));
  }

  /**
   The loop of readBatch over one listing of the directory: the lines passed are the first unread ones, and
   the records are the bodies of those that are neither blank nor damaged.
   */
  method ReadFiles(valid: seq<byte> -> bool, dir: seq<File<byte>>, committed: Position, max: nat, failing: set<nat>)
    returns (lines: seq<seq<byte>>, pos: Position, ok: bool, ghost passed: seq<Line>, ghost idx: seq<nat>)
    requires Listing(dir) && AllComplete(dir)
    ensures failing == {} ==> ok
    ensures ok ==> Taken(UnreadRecords(valid, dir, committed), max, lines, UnreadRecords(valid, dir, pos))
    ensures ok ==> Unread(dir, committed) == passed + Unread(dir, pos) && Selected(valid, passed, lines, idx)
    ensures ok ==> |lines| <= max && (|lines| == max || Unread(dir, pos) == [])
    ensures Onward(dir, committed, pos) && (pos == committed || HasPlain(dir, pos.day))
  {
    hide LinesOf, Rest, Listing, AllComplete, PlainOrdered, Onward, Unread, Records, PlainDays, Search, Taken, Selected;
    ghost var all := Unread(dir, committed);
    var names := PlainDays(dir);
    pos, lines, passed, idx := committed, [], [], [];
    ListingIsOrdered(dir);
    OnwardTo(dir, pos, pos);
    NonePassed(valid, all, []);
    var at := Search(names, pos.day);
    if at == |names| {
      NoFileLeft(dir, pos);
      NothingUnread(dir, pos);
    }
    while |lines| < max && at < |names|
      invariant at == Search(names, pos.day)
      invariant all == passed + Unread(dir, pos) && lines == Records(valid, passed) && |lines| <= max
      invariant Onward(dir, committed, pos) && (pos == committed || pos.day in names)
      invariant at < |names| || Unread(dir, pos) == []
      decreases |names| - at
    {
      if names[at] in failing {
        return [], committed, false, [], [];
      }
      var end, more, eof;
      ghost var some;
      end, more, eof, some := ReadNext(valid, dir, pos, max, lines);
      OnwardTransitive(dir, committed, pos, end);
      PassMore(valid, all, passed, some, Unread(dir, end));
      pos, lines, passed := end, more, passed + some;
      if !eof {
        break;
      }
      if at == |names| - 1 {
        LastFileDone(dir, pos);
        NothingUnread(dir, pos);
        break;
      }
      NextLines(dir, pos, at);
      OnwardTransitive(dir, committed, pos, Position(names[at + 1], 0));
      pos := Position(names[at + 1], 0);
      at := at + 1;
    }
    TakenLines(valid, all, passed, Unread(dir, pos), lines, max);
    idx := RecordsSelected(valid, passed);
    PlainDaysMember(dir, pos.day);
    return lines, pos, true, passed, idx;
  }

  lemma PassMore(valid: seq<byte> -> bool, all: seq<Line>, passed: seq<Line>, some: seq<Line>, rest: seq<Line>)
    requires all == passed + (some + rest)
    ensures all == passed + some + rest
    ensures Records(valid, passed) + Records(valid, some) == Records(valid, passed + some)
  {
    RecordsAppend(valid, passed, some);
  }

  lemma NothingUnread(dir: seq<File<byte>>, pos: Position)
    requires Rest(dir, pos) == []
    ensures Unread(dir, pos) == []
  {
    hide Rest;
  }

  lemma NextLines(dir: seq<File<byte>>, pos: Position, i: nat)
    requires PlainOrdered(dir) && i + 1 < |PlainDays(dir)| && pos.day == PlainDays(dir)[i]
    requires forall k :: 0 <= k < |dir| && !dir[k].gz && dir[k].day == pos.day ==> pos.offset == |dir[k].content|
    ensures var q := Position(PlainDays(dir)[i + 1], 0);
            Unread(dir, q) == Unread(dir, pos) && Onward(dir, pos, q) && Search(PlainDays(dir), q.day) == i + 1
  {
    hide Rest, LinesOf, PlainDays, Search, Onward;
    NextName(dir, pos, i);
  }

  lemma NoneSelected(valid: seq<byte> -> bool, all: seq<Line>)
    ensures [] + all == all && Selected(valid, [], [], [])
  {
  }

  /** `lines` are the first of `all`, at most `max`, and `rest` are the others. */
  predicate Taken<T(==)>(all: seq<T>, max: nat, lines: seq<T>, rest: seq<T>) {
    var n := if |all| < max then |all| else max;
    lines == all[..n] && rest == all[n..]
  }

  lemma TakenLines(valid: seq<byte> -> bool, all: seq<Line>, passed: seq<Line>, rest: seq<Line>,
                   lines: seq<seq<byte>>, max: nat)
    requires all == passed + rest && lines == Records(valid, passed) && |lines| <= max && (|lines| == max || rest == [])
    ensures Taken(Records(valid, all), max, lines, Records(valid, rest))
  {
    RecordsAppend(valid, passed, rest);
  }

  method CountUnsent(f: File<byte>, eff: Position) returns (n: nat)
    ensures n == Counted(f, eff)
  {
    n := 0;
    if !f.gz && f.day >= eff.day {
      var from := 0;
      if f.day == eff.day {
        from := eff.offset;
      }
      assert f.content[0..] == f.content;
      n := Scanning.CountLines(f.content, from);
    }
  }

  class Spool {
    const valid: seq<byte> -> bool
    const zip: seq<byte> -> seq<byte>
    var dir: seq<File<byte>>
    var isOpen: bool
    var curName: nat
    var curSize: nat
    var unsynced: nat
    var committed: Position
    var inflight: Position
    var offsetFile: OffsetFile

    predicate Valid()
      reads this
    {
      Listing(dir) && AllComplete(dir) && unsynced < SYNC_EVERY && WriterFits(dir, isOpen, curName, curSize)
    }

    /** OpenSpool: cut torn last lines, then load the offset. */
    constructor (valid: seq<byte> -> bool, zip: seq<byte> -> seq<byte>, found: seq<File<byte>>, offsetFile: OffsetFile)
      requires Listing(found)
      ensures Valid() && this.valid == valid && this.zip == zip && this.offsetFile == offsetFile
      ensures |dir| == |found| && forall k :: 0 <= k < |dir| ==>
                dir[k] == RepairedFile(found[k]) && RepairedTo(found[k], dir[k])
      ensures !isOpen && curName == 0 && committed == inflight == LoadOffset(offsetFile)
      ensures committed == match offsetFile
                case Holds(at) => if at.day > 0 then at else START
                case _ => START
    {
      this.valid, this.zip, this.offsetFile := valid, zip, offsetFile;
      dir, isOpen, curName, curSize, unsynced := found, false, 0, 0, 0;
      committed, inflight := LoadOffset(offsetFile), LoadOffset(offsetFile);
      new;
      RepairTails();
    }

    method RepairTails()
      requires Listing(dir)
      modifies this`dir
      ensures |dir| == |old(dir)| && forall k :: 0 <= k < |dir| ==>
                dir[k] == RepairedFile(old(dir)[k]) && RepairedTo(old(dir)[k], dir[k])
      ensures Listing(dir) && AllComplete(dir)
    {
      hide LinesOf, Flatten;
      ghost var found := dir;
      for i := 0 to |dir|
        invariant |dir| == |found|
        invariant forall k :: 0 <= k < i ==> dir[k] == RepairedFile(found[k])
        invariant forall k :: i <= k < |dir| ==> dir[k] == found[k]
      {
        if !dir[i].gz {
          var content := dir[i].content;
          Scanning.RepairSplits(content);
          var cut := Scanning.CompleteLength(content);
          if cut >= 0 {
            Scanning.CutIsRepaired(content, cut);
            dir := dir[i := dir[i].(content := content[..cut])];
          } else {
            Scanning.CutIsRepaired(content, |content|);
          }
        }
      }
      forall k | 0 <= k < |dir| && !dir[k].gz ensures Complete(dir[k].content) {
        Scanning.RepairSplits(found[k].content);
      }
      forall k | 0 <= k < |dir| ensures RepairedTo(found[k], dir[k]) {
        RepairedExactly(found[k]);
      }
    }

    // ---- writing ----

    /** openLocked */
    method OpenLocked(day: nat, openIo: OpenIo) returns (ok: bool)
      requires Valid() && day > 0 && (!isOpen || day > curName)
      modifies this`dir, this`isOpen, this`curName, this`curSize, this`unsynced
      ensures Valid() && ok == openIo.OpenOk? && isOpen == ok
      ensures var t := old(WriterTarget(dir, isOpen, curName, day));
              && t >= old(LastPlain(dir)) && t > 0 && (t == day || t == old(LastPlain(dir))) && t >= day
              && dir == (if openIo.OpenFails? then old(dir) else Created(old(dir), t))
              && curName == (if ok then t else old(curName))
      ensures ok ==> unsynced == 0
    {
      hide Listing, AllComplete, HasPlain, LastPlain, PlainIndex, Created, LinesOf, Rest;
      var name := day;
      if !isOpen {
        var last := LastPlain(dir);
        if last > name {
          name := last;
        }
      } else {
        unsynced := 0;
        isOpen := false;
      }
      if openIo.OpenFails? {
        return false;
      }
      CreatedKeeps(dir, name);
      CreatedNewest(dir, name);
      CreatedHas(dir, name, curName);
      dir := Created(dir, name);
      if openIo.StatFails? {
        return false;
      }
      isOpen, curName, curSize, unsynced := true, name, |dir[PlainIndex(dir, name)].content|, 0;
      return true;
    }

    /**
     Append: `openIo` is what opening does if a file must be opened, `writeIo` what the write does.
     A short write leaves nothing behind; a full one ends the unread lines of every reader that is
     not past the file, even if the fsync after it fails.
     */
    method Append(day: nat, line: Line, openIo: OpenIo, writeIo: WriteIo) returns (ok: bool)
      requires Valid() && day > 0 && IsLine(line)
      modifies this`dir, this`isOpen, this`curName, this`curSize, this`unsynced
      ensures Valid()
      ensures var t := old(WriterTarget(dir, isOpen, curName, day));
              var usable := old(isOpen && day <= curName) || openIo.OpenOk?;
              var dir1 := if !usable && openIo.OpenFails? then old(dir) else Created(old(dir), t);
              && HasPlain(Created(old(dir), t), t)
              && t == (if day > old(LastPlain(dir)) then day else old(LastPlain(dir)))
              && dir == (if usable && writeIo.Full? then Grown(dir1, PlainIndex(dir1, t), line) else dir1)
              && isOpen == usable && (usable ==> curName == t && t >= old(curName))
              && (!usable ==> curName == old(curName))
              && ok == (usable && writeIo.Full? && !(writeIo.syncFails && unsynced == 0))
      ensures var t := old(WriterTarget(dir, isOpen, curName, day));
              var usable := old(isOpen && day <= curName) || openIo.OpenOk?;
              forall p: Position :: p.day <= t && Fits(Created(old(dir), t), p) ==>
                Unread(dir, p) == old(Unread(dir, p)) + if usable && writeIo.Full? then [line] else []
    {
      hide Listing, AllComplete, LastPlain, PlainIndex, LinesOf, Rest;
      ghost var before := dir;
      ghost var t := WriterTarget(dir, isOpen, curName, day);
      TargetIsNewest(dir, isOpen, curName, day);
      CreatedNewest(dir, t);
      NothingAdded(dir, Created(dir, t), t);
      if !isOpen || day > curName {
        ok := OpenLocked(day, openIo);
        if !ok {
          return false;
        }
      } else {
        assert Created(dir, t) == dir;
      }
      WriteLast(before, t, line);
      ok := WriteLine(line, writeIo);
    }

    /** The write itself; what a failed one leaves behind is truncated away. */
    method WriteLine(line: Line, writeIo: WriteIo) returns (ok: bool)
      requires Valid() && isOpen && IsLine(line)
      modifies this`dir, this`curSize, this`unsynced
      ensures Valid() && ok == (writeIo.Full? && !(writeIo.syncFails && unsynced == 0))
      ensures unsynced == if writeIo.Full? then (old(unsynced) + 1) % 100 else old(unsynced)
      ensures dir == if writeIo.Full? then Grown(old(dir), PlainIndex(old(dir), curName), line) else old(dir)
    {
      var k := PlainIndex(dir, curName);
      match writeIo
      case Short(n) =>
        var part := if n < |line| then line[..n] else line;
        dir := dir[k := dir[k].(content := dir[k].content + part)];
        dir := dir[k := dir[k].(content := dir[k].content[..curSize])];
        assert dir == old(dir);
        return false;
      case Full(syncFails) =>
        NewestIsNewest(dir, curName);
        GrownKeeps(dir, k, line);
        dir := Grown(dir, k, line);
        curSize := curSize + |line|;
        unsynced := unsynced + 1;
        if unsynced >= SYNC_EVERY {
          unsynced := 0;
          return !syncFails;
        }
        return true;
    }

    // ---- reading ----

    /**
     readBatch: the first records after `committed`, at most `max`, and a position after which exactly
     the others are left; a short batch that is refused leaves no trace. The records are the bodies of the
     lines passed, but for those that are blank or damaged. `failing` holds the files that cannot be
     opened or read.
     */
    method ReadBatch(max: nat, allowPartial: bool, failing: set<nat>)
      returns (lines: seq<seq<byte>>, end: Position, ok: bool, ghost passed: seq<Line>, ghost idx: seq<nat>)
      requires Valid()
      modifies this`inflight
      ensures Valid() && (failing == {} ==> ok)
      ensures !ok ==> lines == [] && end == committed && inflight == old(inflight)
      ensures ok ==>
                var all := UnreadRecords(valid, dir, committed);
                var n := if |all| < max then |all| else max;
                if n < max && !allowPartial
                then lines == [] && end == committed && inflight == old(inflight)
                else
                  && Taken(all, max, lines, UnreadRecords(valid, dir, end))
                  && inflight == (if n > 0 then end else old(inflight))
      ensures Unread(dir, committed) == passed + Unread(dir, end) && Selected(valid, passed, lines, idx)
      ensures |lines| <= max && (ok && allowPartial ==> |lines| == max || Unread(dir, end) == [])
      ensures Onward(dir, committed, end) && (end == committed || HasPlain(dir, end.day))
    {
      hide Listing, AllComplete, WriterFits, Unread, Records, Onward, Selected;
      OnwardTo(dir, committed, committed);
      var lines', pos, read;
      lines', pos, read, passed, idx := ReadFiles(valid, dir, committed, max, failing);
      if !read || (|lines'| < max && !allowPartial) {
        NoneSelected(valid, Unread(dir, committed));
        return [], committed, read, [], [];
      }
      if |lines'| > 0 {
        inflight := pos;
      }
      return lines', pos, true, passed, idx;
    }

    /** Commit: memory moves at once; the offset file is replaced whole, or stays if writing it fails. */
    method Commit(p: Position, written: bool)
      requires Valid()
      modifies this`committed, this`inflight, this`offsetFile
      ensures Valid() && committed == p && !inflight.Less(p)
      ensures inflight == (if old(inflight).Less(p) then p else old(inflight))
      ensures offsetFile == (if written then Holds(p) else old(offsetFile))
      ensures written && p.day > 0 ==> LoadOffset(offsetFile) == p
    {
      committed := p;
      if inflight.Less(p) {
        inflight := p;
      }
      if written {
        offsetFile := Holds(p);
      }
    }

    // ---- cleaning ----

    /** What a removal takes as read: the batch in flight will still be sent. */
    function Later(): (p: Position)
      reads `committed, `inflight
      ensures (p == committed || p == inflight) && committed.AtMost(p) && inflight.AtMost(p)
    {
      if committed.Less(inflight) then inflight else committed
    }

    method Sizes() returns (backlog: nat, total: nat)
      ensures total == TotalSize(dir) && backlog == Backlog(dir, committed)
    {
      backlog, total := 0, 0;
      for i := 0 to |dir|
        invariant total + TotalSize(dir[i..]) == TotalSize(dir)
        invariant backlog + Backlog(dir[i..], committed) == Backlog(dir, committed)
      {
        var f := dir[i];
        assert dir[i..][1..] == dir[i + 1..];
        total := total + |f.content|;
        if f.gz || f.day < committed.day {
        } else if f.day == committed.day {
          backlog := backlog + if |f.content| > committed.offset then |f.content| - committed.offset else 0;
        } else {
          backlog := backlog + |f.content|;
        }
      }
    }

    /** removeLocked: count first, then remove; a file that cannot be removed counts for nothing. */
    method RemoveLocked(k: nat, stuck: set<Name>) returns (n: nat, ok: bool)
      requires Valid() && k < |dir| && !IsCurrent(dir[k], curName)
      modifies this`dir
      ensures Valid() && ok == (NameOf(old(dir)[k]) !in stuck)
      ensures dir == if ok then Without(old(dir), k) else old(dir)
      ensures n == if ok then Counted(old(dir)[k], Later()) else 0
      ensures AllCounted(old(dir), dir, Later(), n)
    {
      hide Listing, AllComplete, WriterFits, Without, Counted, AllCounted;
      NoneCounted(dir, Later());
      var f, eff := dir[k], committed;
      if eff.Less(inflight) {
        eff := inflight;
      }
      n := CountUnsent(f, eff);
      if NameOf(f) in stuck {
        return 0, false;
      }
      RemovalKeeps(dir, k, eff, isOpen, curName, curSize);
      dir := Without(dir, k);
      return n, true;
    }

    /** An old file goes, unless it is the writer's or cannot be removed. */
    method ExpireOne(k: nat, cutoff: nat, stuck: set<Name>) returns (n: nat, gone: bool)
      requires Valid() && k < |dir|
      modifies this`dir
      ensures Valid() && gone == (Expired(old(dir)[k], cutoff, curName) && NameOf(old(dir)[k]) !in stuck)
      ensures !gone ==> n == 0
      ensures dir == if gone then Without(old(dir), k) else old(dir)
      ensures AllCounted(old(dir), dir, Later(), n)
    {
      hide Valid, Later, Without, Counted, AllCounted, NameOf;
      if Expired(dir[k], cutoff, curName) {
        n, gone := RemoveLocked(k, stuck);
      } else {
        NoneCounted(dir, Later());
        return 0, false;
      }
    }

    /**
     The first loop of Cleanup: what stays is as young as the cutoff or younger, or the writer's, or stuck, and
     keeps its order; nothing else stays.
     */
    method Expire(cutoff: nat, stuck: set<Name>) returns (dropped: nat, total: nat, ghost at: seq<nat>)
      requires Valid()
      modifies this`dir
      ensures Valid() && dir == Retained(old(dir), cutoff, curName, stuck) && total == TotalSize(dir)
      ensures KeptInOrder(old(dir), dir, at, cutoff, curName, stuck)
      ensures forall f :: f in dir <==>
                f in old(dir) && (f.day >= cutoff || (!f.gz && f.day == curName) || (f.day, f.gz) in stuck)
      ensures AllCounted(old(dir), dir, Later(), dropped) && (|dir| == |old(dir)| ==> dir == old(dir) && dropped == 0)
    {
      hide *;
      ghost var files, eff := dir, Later();
      var done, n, left := 0, |dir|, 0;
      dropped, total := 0, 0;
      RetainedEnds(files, cutoff, curName, stuck);
      NoneCounted(dir, eff);
      while done < n
        invariant Valid() && done <= n == |files|
        invariant left == |Retained(files[..done], cutoff, curName, stuck)|
        invariant dir == Retained(files[..done], cutoff, curName, stuck) + files[done..]
        invariant total == TotalSize(Retained(files[..done], cutoff, curName, stuck))
        invariant AllCounted(files, dir, eff, dropped)
        invariant |dir| <= |files| && (|dir| == |files| ==> dir == files && dropped == 0)
      {
        RetainedStep(files, done, cutoff, curName, stuck);
        ghost var before := dir;
        var size := |dir[left].content|;
        var counted, gone := ExpireOne(left, cutoff, stuck);
        CountedOn(files, before, dir, eff, dropped, counted);
        dropped := dropped + counted;
        if !gone {
          left := left + 1;
          total := total + size;
        }
        done := done + 1;
      }
      at := RetainedInOrder(files, cutoff, curName, stuck);
      RetainedMembers(files, cutoff, curName, stuck);
    }

    /** The second loop: oldest first, as long as the total is over the limit. */
    method Shrink(all: nat, maxBytes: int, stuck: set<Name>) returns (dropped: nat, ghost n: nat)
      requires Valid() && all == TotalSize(dir)
      modifies this`dir
      ensures Valid() && SizeCut(old(dir), n, maxBytes, curName, stuck) && dir == old(dir)[n..]
      ensures all <= maxBytes ==> n == 0
      ensures AllCounted(old(dir), dir, Later(), dropped) && (n == 0 ==> dropped == 0)
    {
      hide Valid, Later, Counted, TotalSize, Without, AllCounted;
      ghost var files, eff := dir, Later();
      var total := all;
      dropped, n := 0, 0;
      NoneCounted(dir, eff);
      ShrinkEnds(files);
      while total > maxBytes && |dir| > 0
        invariant Valid() && n <= |files| && dir == files[n..] && total == TotalSize(dir)
        invariant forall m :: 0 <= m < n ==>
                    && TotalSize(files[m..]) > maxBytes
                    && (files[m].gz || files[m].day != curName) && (files[m].day, files[m].gz) !in stuck
        invariant AllCounted(files, dir, eff, dropped) && (n == 0 ==> dropped == 0 && total == all)
        decreases |dir|
      {
        ShrinkStep(files, n);
        if IsCurrent(dir[0], curName) {
          break;
        }
        ghost var before := dir;
        var size := |dir[0].content|;
        var counted, ok := RemoveLocked(0, stuck);
        CountedOn(files, before, dir, eff, dropped, counted);
        if !ok {
          break;
        }
        dropped := dropped + counted;
        total := total - size;
        n := n + 1;
      }
    }

    /** compress, for one name; nothing but that file is touched. */
    method Compress(day: nat, io: CompressIo)
      requires Valid() && HasPlain(dir, day) && day != curName
      modifies this`dir
      ensures Valid() && Squeezed(old(dir), dir, {day}, zip) && Pressed(old(dir), dir, day, zip, io)
    {
      hide Listing, AllComplete, WriterFits, CompressedAt, Squeezed, Pressed, HasPlain, LastPlain;
      var k := PlainIndex(dir, day);
      CompressedExactly(dir, k, zip, io);
      CompressKeepsWriter(dir, k, zip, io, isOpen, curName, curSize);
      dir := CompressedAt(dir, k, zip, io);
    }

    /** The last loop of Cleanup; the order of the names makes no difference. */
    method CompressAll(io: nat -> CompressIo)
      requires Valid()
      modifies this`dir
      ensures Valid() && Squeezed(old(dir), dir, ToCompress(old(dir), committed, curName), zip)
      ensures AllPressed(old(dir), dir, ToCompress(old(dir), committed, curName), zip, io)
    {
      hide Valid, Squeezed, Pressed, AllPressed, HasPlain, ToCompress;
      ghost var left, done := dir, {};
      var days := ToCompress(dir, committed, curName);
      NothingSqueezed(dir, zip);
      NothingPressed(dir, zip, io);
      while days != {}
        invariant Valid() && Squeezed(left, dir, done, zip) && AllPressed(left, dir, done, zip, io)
        invariant done + days == ToCompress(left, committed, curName) && done !! days
        decreases |days|
      {
        var day :| day in days;
        StillPlain(left, dir, done, day, committed, curName, zip);
        ghost var before := dir;
        Compress(day, io(day));
        SqueezedOn(left, before, dir, done, day, zip);
        PressedOn(left, before, dir, done, day, zip, io);
        days := days - {day};
        done := done + {day};
      }
    }

    /**
     Cleanup: what is left by age, then by size; then the files before the committed one are compressed,
     which only their own names notice. The count is the number of lines gone from the unread ones. If no
     file is too old and they are not too many, none is deleted and nothing counts as dropped.
     */
    method Cleanup(cutoff: nat, maxBytes: int, stuck: set<Name>, io: nat -> CompressIo)
      returns (dropped: nat, ghost n: nat, ghost kept: seq<File<byte>>, ghost at: seq<nat>)
      requires Valid()
      modifies this`dir
      ensures Valid()
      ensures AllCounted(old(dir), dir, Later(), dropped)
      ensures kept == Retained(old(dir), cutoff, curName, stuck)
      ensures KeptInOrder(old(dir), kept, at, cutoff, curName, stuck)
      ensures forall f :: f in kept <==>
                f in old(dir) && (f.day >= cutoff || (!f.gz && f.day == curName) || (f.day, f.gz) in stuck)
      ensures SizeCut(kept, n, maxBytes, curName, stuck)
      ensures Squeezed(kept[n..], dir, ToCompress(kept[n..], committed, curName), zip)
      ensures AllPressed(kept[n..], dir, ToCompress(kept[n..], committed, curName), zip, io)
      ensures (forall f :: f in old(dir) ==> f.day >= cutoff) && TotalSize(old(dir)) <= maxBytes ==>
                kept == old(dir) && n == 0 && dropped == 0
    {
      hide Valid, Squeezed, AllPressed, AllCounted, Retained, SizeCut, ToCompress, TotalSize, KeptInOrder, Later,
        Unread, HasPlain, Fits;
      var total, more;
      dropped, total, at := Expire(cutoff, stuck);
      AllKept(old(dir), dir, at, cutoff, curName, stuck);
      kept := dir;
      ghost var expired := dir;
      more, n := Shrink(total, maxBytes, stuck);
      ghost var left := dir;
      CompressAll(io);
      SqueezedUnread(left, dir, committed, curName, Later(), zip);
      CountedOn(old(dir), expired, left, Later(), dropped, more);
      dropped := dropped + more;
      CountedOn(old(dir), left, dir, Later(), dropped, 0);
    }
  }
}
