/** A spool directory in bytes, and how it refines the line-by-line directory of the pipeline. */
module SpoolBytes {
  import opened Lines
  import opened SpoolModel

  /** No plain file ends in a torn line. */
  predicate AllComplete(dir: seq<File<byte>>) {
    forall k :: 0 <= k < |dir| && !dir[k].gz ==> Complete(dir[k].content)
  }

  /** The complete lines that a reader at `p` has still to pass. */
  function Unread(dir: seq<File<byte>>, p: Position): seq<Line> {
    LinesOf(Rest(dir, p))
  }

  /** The records the forwarder gets out of them. */
  function UnreadRecords(valid: seq<byte> -> bool, dir: seq<File<byte>>, p: Position): seq<seq<byte>> {
    Records(valid, Unread(dir, p))
  }

  lemma PartComplete(f: File<byte>, p: Position)
    requires !f.gz ==> Complete(f.content)
    ensures Complete(Part(f, p))
  {
  }

  lemma CompleteConcat(a: seq<byte>, b: seq<byte>)
    requires Complete(a) && Complete(b)
    ensures Complete(a + b)
  {
  }

  lemma {:induction false} RestComplete(dir: seq<File<byte>>, p: Position)
    requires AllComplete(dir)
    ensures Complete(Rest(dir, p))
  {
    if dir != [] {
      assert dir[0] == dir[0];
      PartComplete(dir[0], p);
      assert forall k :: 0 <= k < |dir[1..]| ==> dir[1..][k] == dir[k + 1];
      RestComplete(dir[1..], p);
      CompleteConcat(Part(dir[0], p), Rest(dir[1..], p));
    }
  }

  /** The unread lines, file by file. */
  lemma UnreadSplit(dir: seq<File<byte>>, k: nat, p: Position)
    requires k < |dir| && AllComplete(dir)
    ensures Unread(dir, p) == Unread(dir[..k], p) + LinesOf(Part(dir[k], p)) + Unread(dir[k + 1..], p)
  {
    RestSplit(dir, k, p);
    RestComplete(dir[..k], p);
    PartComplete(dir[k], p);
    CompleteConcat(Rest(dir[..k], p), Part(dir[k], p));
    LinesOfAppend(Rest(dir[..k], p), Part(dir[k], p));
    LinesOfAppend(Rest(dir[..k], p) + Part(dir[k], p), Rest(dir[k + 1..], p));
  }

  lemma UnreadConcat(a: seq<File<byte>>, b: seq<File<byte>>, p: Position)
    requires AllComplete(a)
    ensures Unread(a + b, p) == Unread(a, p) + Unread(b, p)
  {
    RestConcat(a, b, p);
    RestComplete(a, p);
    LinesOfAppend(Rest(a, p), Rest(b, p));
  }

  // ---- refinement: offsets in bytes become offsets in lines ----

  function AbsFile(f: File<byte>): File<Line> {
    File(f.day, f.gz, LinesOf(f.content))
  }

  function AbsDir(dir: seq<File<byte>>): seq<File<Line>> {
    seq(|dir|, k requires 0 <= k < |dir| => AbsFile(dir[k]))
  }

  /** `p` is at a line boundary of its file, and `q` says at which. */
  predicate SamePlace(dir: seq<File<byte>>, p: Position, q: Position) {
    && p.day == q.day
    && forall k :: 0 <= k < |dir| && !dir[k].gz && dir[k].day == p.day ==>
         && p.offset <= |dir[k].content| && Complete(dir[k].content[..p.offset])
         && q.offset == |LinesOf(dir[k].content[..p.offset])|
  }

  /** `p` lies at a line boundary of its file, if that file is there. */
  predicate OnLine(dir: seq<File<byte>>, p: Position) {
    Fits(dir, p) && forall k :: 0 <= k < |dir| && !dir[k].gz && dir[k].day == p.day ==>
        Complete(dir[k].content[..p.offset])
  }

  /** The line-by-line position of a place at a line boundary. */
  function LinePosition(dir: seq<File<byte>>, p: Position): Position
    requires OnLine(dir, p)
  {
    Position(p.day, if HasPlain(dir, p.day) then |LinesOf(dir[PlainIndex(dir, p.day)].content[..p.offset])| else 0)
  }

  lemma LinePositionIsPlace(dir: seq<File<byte>>, p: Position)
    requires OnLine(dir, p) && PlainOrdered(dir)
    ensures SamePlace(dir, p, LinePosition(dir, p))
  {
    forall k | 0 <= k < |dir| && !dir[k].gz && dir[k].day == p.day
      ensures HasPlain(dir, p.day) && k == PlainIndex(dir, p.day)
    {
    }
  }

  lemma LinesFrom(content: seq<byte>, offset: nat)
    requires offset <= |content| && Complete(content[..offset])
    ensures |LinesOf(content[..offset])| <= |LinesOf(content)|
    ensures LinesOf(content[offset..]) == LinesOf(content)[|LinesOf(content[..offset])|..]
  {
    hide LinesOf;
    LinesOfAppend(content[..offset], content[offset..]);
    assert content == content[..offset] + content[offset..];
  }

  /** The bytes after `p` hold exactly the lines after `q`. */
  lemma {:induction false} UnreadRefines(dir: seq<File<byte>>, p: Position, q: Position)
    requires AllComplete(dir) && SamePlace(dir, p, q)
    ensures Unread(dir, p) == Rest(AbsDir(dir), q)
  {
    hide Rest, LinesOf, Part, AbsDir, AbsFile, SamePlace, AllComplete;
    if dir == [] {
      NoneRefines(p, q);
    } else {
      var f, more := dir[0], dir[1..];
      assert dir == [f] + more;
      TailPlace(dir, p, q);
      PartRefines(dir, p, q);
      UnreadRefines(more, p, q);
      RestOfCons(f, more, p);
      LinesOfAppend(Part(f, p), Rest(more, p));
      RestOfCons(AbsFile(f), AbsDir(more), q);
    }
  }

  lemma NoneRefines(p: Position, q: Position)
    ensures Unread([], p) == [] == Rest(AbsDir([]), q)
  {
  }

  lemma TailPlace(dir: seq<File<byte>>, p: Position, q: Position)
    requires dir != [] && AllComplete(dir) && SamePlace(dir, p, q)
    ensures AllComplete(dir[1..]) && SamePlace(dir[1..], p, q) && Complete(Part(dir[0], p))
    ensures AbsDir(dir) == [AbsFile(dir[0])] + AbsDir(dir[1..])
  {
    assert forall k :: 0 <= k < |dir[1..]| ==> dir[1..][k] == dir[k + 1];
    PartComplete(dir[0], p);
  }

  lemma RestOfCons<U>(f: File<U>, more: seq<File<U>>, q: Position)
    ensures Rest([f] + more, q) == Part(f, q) + Rest(more, q)
  {
    assert ([f] + more)[1..] == more;
  }

  lemma PartRefines(dir: seq<File<byte>>, p: Position, q: Position)
    requires dir != [] && SamePlace(dir, p, q)
    ensures LinesOf(Part(dir[0], p)) == Part(AbsFile(dir[0]), q)
  {
    hide LinesOf, Complete;
    var f := dir[0];
    if f.gz || f.day < p.day {
      BeforeRefines(f, p, q);
    } else if f.day == p.day {
      LinesFrom(f.content, p.offset);
    } else {
      AfterRefines(f, p, q);
    }
  }

  lemma BeforeRefines(f: File<byte>, p: Position, q: Position)
    requires f.gz || (f.day < p.day && p.day == q.day)
    ensures LinesOf(Part(f, p)) == Part(AbsFile(f), q) == []
  {
  }

  lemma AfterRefines(f: File<byte>, p: Position, q: Position)
    requires !f.gz && f.day > p.day && p.day == q.day
    ensures LinesOf(Part(f, p)) == Part(AbsFile(f), q)
  {
    hide LinesOf;
    assert f.content[0..] == f.content && LinesOf(f.content)[0..] == LinesOf(f.content);
  }

  /** What readBatch takes in bytes is what the pipeline's reader takes line by line. */
  lemma RecordsRefine(valid: seq<byte> -> bool, dir: seq<File<byte>>, p: Position)
    requires AllComplete(dir) && PlainOrdered(dir) && OnLine(dir, p)
    ensures UnreadRecords(valid, dir, p) == Records(valid, Rest(AbsDir(dir), LinePosition(dir, p)))
  {
    hide Rest, LinesOf, Records, SamePlace, OnLine, LinePosition, AbsDir;
    LinePositionIsPlace(dir, p);
    UnreadRefines(dir, p, LinePosition(dir, p));
  }

  /** A line appended in bytes is an entry appended line by line. */
  lemma GrowRefines(dir: seq<File<byte>>, k: nat, line: Line)
    requires k < |dir| && Complete(dir[k].content) && IsLine(line)
    ensures AbsDir(Grown(dir, k, line)) == Grown(AbsDir(dir), k, [line])
  {
    LinesOfAppend(dir[k].content, line);
    LinesOfOne(line);
  }

  // ---- listing order and new files ----

  /** By date, the plain file before its compressed form. */
  predicate Before(f: File<byte>, g: File<byte>) {
    f.day < g.day || (f.day == g.day && !f.gz && g.gz)
  }

  predicate Listing(dir: seq<File<byte>>) {
    forall i, j :: 0 <= i < j < |dir| ==> Before(dir[i], dir[j])
  }

  lemma ListingIsOrdered(dir: seq<File<byte>>)
    requires Listing(dir)
    ensures PlainOrdered(dir)
  {
  }

  /** os.OpenFile with O_CREATE: an empty file in its place in the listing, if it is not there. */
  function Created(dir: seq<File<byte>>, day: nat): seq<File<byte>> {
    if HasPlain(dir, day) then dir else Inserted(dir, File(day, false, []))
  }

  function Inserted(dir: seq<File<byte>>, f: File<byte>): (dir': seq<File<byte>>)
    ensures |dir'| == |dir| + 1 && f in dir'
    ensures forall g :: g in dir' <==> g in dir || g == f
  {
    if dir == [] || Before(f, dir[0]) then [f] + dir else [dir[0]] + Inserted(dir[1..], f)
  }

  lemma HasPlainInTail(dir: seq<File<byte>>, day: nat)
    requires dir != []
    ensures HasPlain(dir[1..], day) ==> HasPlain(dir, day)
  {
    if HasPlain(dir[1..], day) {
      var k :| 0 <= k < |dir[1..]| && !dir[1..][k].gz && dir[1..][k].day == day;
      assert dir[k + 1] == dir[1..][k];
    }
  }

  lemma {:induction false} InsertedListing(dir: seq<File<byte>>, f: File<byte>)
    requires Listing(dir) && !f.gz && !HasPlain(dir, f.day)
    ensures Listing(Inserted(dir, f))
  {
    if dir != [] && !Before(f, dir[0]) {
      var more := dir[1..];
      assert forall k :: 0 <= k < |more| ==> more[k] == dir[k + 1];
      HasPlainInTail(dir, f.day);
      InsertedListing(more, f);
      var tail := Inserted(more, f);
      assert Before(dir[0], f);
      forall j | 0 <= j < |tail| ensures Before(dir[0], tail[j]) {
        assert tail[j] in tail;
        if tail[j] in more {
          var k :| 0 <= k < |more| && more[k] == tail[j];
          assert Before(dir[0], dir[k + 1]);
        }
      }
    }
  }

  /** A new empty file changes no one's rest. */
  lemma {:induction false} InsertedRest(dir: seq<File<byte>>, f: File<byte>, p: Position)
    requires f.content == []
    ensures Rest(Inserted(dir, f), p) == Rest(dir, p)
  {
    assert Part(f, p) == [];
    if dir == [] || Before(f, dir[0]) {
      assert ([f] + dir)[1..] == dir;
      assert [] + Rest(dir, p) == Rest(dir, p);
    } else {
      InsertedRest(dir[1..], f, p);
      assert ([dir[0]] + Inserted(dir[1..], f))[1..] == Inserted(dir[1..], f);
    }
  }

  lemma CreatedKeeps(dir: seq<File<byte>>, day: nat)
    requires Listing(dir) && AllComplete(dir)
    ensures var dir' := Created(dir, day);
            && Listing(dir') && AllComplete(dir') && HasPlain(dir', day)
            && forall p: Position :: Rest(dir', p) == Rest(dir, p)
  {
    if !HasPlain(dir, day) {
      var f: File<byte> := File(day, false, []);
      InsertedListing(dir, f);
      var dir' := Inserted(dir, f);
      var k :| 0 <= k < |dir'| && dir'[k] == f;
      assert !dir'[k].gz && dir'[k].day == day;
      forall j | 0 <= j < |dir'| && !dir'[j].gz ensures Complete(dir'[j].content) {
        assert dir'[j] in dir';
        if dir'[j] in dir {
          var i :| 0 <= i < |dir| && dir[i] == dir'[j];
        }
      }
      forall p: Position ensures Rest(dir', p) == Rest(dir, p) {
        InsertedRest(dir, f, p);
      }
    }
  }

  /** The newest plain file of a listing, where it stands. */
  lemma NewestIsNewest(dir: seq<File<byte>>, day: nat)
    requires Listing(dir) && HasPlain(dir, day) && LastPlain(dir) <= day
    ensures IsNewestPlain(dir, PlainIndex(dir, day)) && LastPlain(dir) == day
  {
    LastPlainIs(dir, day);
    NewestIndex(dir, day);
  }

  /** A line written to the newest file ends the unread lines of every position not past that file. */
  lemma WriteEndsUnread(dir: seq<File<byte>>, k: nat, line: Line, p: Position)
    requires k < |dir| && IsNewestPlain(dir, k) && AllComplete(dir) && Fits(dir, p)
    requires IsLine(line)
    ensures p.day <= dir[k].day ==> Unread(Grown(dir, k, line), p) == Unread(dir, p) + [line]
    ensures p.day > dir[k].day ==> Unread(Grown(dir, k, line), p) == Unread(dir, p)
  {
    RestGrow(dir, k, line, p);
    RestComplete(dir, p);
    LinesOfAppend(Rest(dir, p), line);
    LinesOfOne(line);
    if p.day > dir[k].day {
      RestToNewest(dir, k, p);
      RestToNewest(Grown(dir, k, line), k, p);
      assert Grown(dir, k, line)[..k] == dir[..k];
    }
  }

  lemma GrownKeeps(dir: seq<File<byte>>, k: nat, line: Line)
    requires k < |dir| && Listing(dir) && AllComplete(dir) && IsNewestPlain(dir, k) && IsLine(line)
    ensures var dir' := Grown(dir, k, line);
            && Listing(dir') && AllComplete(dir') && HasPlain(dir', dir[k].day)
            && LastPlain(dir') == dir[k].day && PlainIndex(dir', dir[k].day) == k
  {
    var dir' := Grown(dir, k, line);
    assert dir'[k].day == dir[k].day;
    forall j | 0 <= j < |dir'| && !dir'[j].gz ensures dir'[j].day <= dir[k].day {
      assert j < k ==> Before(dir[j], dir[k]);
    }
    LastPlainIs(dir', dir[k].day);
    ListingIsOrdered(dir');
  }

  // ---- reading a batch ----

  /** From `pos` to the next name of a listing nothing is unread, if the file at `pos` is done. */
  lemma SkipTo(dir: seq<File<byte>>, pos: Position, i: nat)
    requires PlainOrdered(dir) && i < |PlainDays(dir)| && pos.day < PlainDays(dir)[i]
    requires var s := Search(PlainDays(dir), pos.day);
             i == s || (i == s + 1 && forall k :: 0 <= k < |dir| && !dir[k].gz && dir[k].day == PlainDays(dir)[s] ==>
                                                    dir[k].day == pos.day && pos.offset == |dir[k].content|)
    ensures Rest(dir, Position(PlainDays(dir)[i], 0)) == Rest(dir, pos)
  {
    var names := PlainDays(dir);
    PlainDaysListed(dir);
    forall k | 0 <= k < |dir| && !dir[k].gz && pos.day <= dir[k].day < names[i]
      ensures dir[k].day == pos.day && pos.offset == |dir[k].content|
    {
      assert HasPlain(dir, dir[k].day);
      BetweenNames(names, pos.day, i, dir[k].day);
    }
    RestSkip(dir, pos, names[i]);
  }

  /** Reading goes forward, and from one line boundary to another. */
  predicate Onward(dir: seq<File<byte>>, p: Position, q: Position) {
    && (Fits(dir, p) ==> Fits(dir, q) && p.AtMost(q))
    && (OnLine(dir, p) ==> OnLine(dir, q))
  }

  lemma OnwardTransitive(dir: seq<File<byte>>, p: Position, q: Position, r: Position)
    requires Onward(dir, p, q) && Onward(dir, q, r)
    ensures Onward(dir, p, r)
  {
  }

  /** Reading on in the file at `p`. */
  lemma OnwardTo(dir: seq<File<byte>>, p: Position, q: Position)
    requires p.day == q.day
    requires p == q || forall k :: 0 <= k < |dir| && !dir[k].gz && dir[k].day == p.day ==>
               && StartIn(dir[k], p) <= q.offset <= |dir[k].content|
               && (Complete(dir[k].content[..StartIn(dir[k], p)]) ==> Complete(dir[k].content[..q.offset]))
    requires p == q || HasPlain(dir, p.day)
    ensures Onward(dir, p, q)
  {
    if p != q && Fits(dir, p) {
      var k :| 0 <= k < |dir| && !dir[k].gz && dir[k].day == p.day;
    }
  }

  lemma OnwardToStart(dir: seq<File<byte>>, pos: Position, day: nat)
    requires pos.day < day
    ensures Onward(dir, pos, Position(day, 0))
  {
  }

  lemma SearchName(names: seq<nat>, i: nat)
    requires Increasing(names) && i < |names|
    ensures Search(names, names[i]) == i
  {
    SearchFinds(names, names[i]);
  }

  /** From the end of a file that is done to the next name. */
  lemma NextName(dir: seq<File<byte>>, pos: Position, i: nat)
    requires PlainOrdered(dir) && i + 1 < |PlainDays(dir)| && pos.day == PlainDays(dir)[i]
    requires forall k :: 0 <= k < |dir| && !dir[k].gz && dir[k].day == pos.day ==> pos.offset == |dir[k].content|
    ensures var q := Position(PlainDays(dir)[i + 1], 0);
            Rest(dir, q) == Rest(dir, pos) && Onward(dir, pos, q) && Search(PlainDays(dir), q.day) == i + 1
  {
    hide PlainDays, Rest, Search, Onward;
    PlainDaysIncreasing(dir);
    SearchName(PlainDays(dir), i);
    SearchName(PlainDays(dir), i + 1);
    OnwardToStart(dir, pos, PlainDays(dir)[i + 1]);
    SkipTo(dir, pos, i + 1);
  }

  /** No name from `pos` on: nothing is unread. */
  lemma NoFileLeft(dir: seq<File<byte>>, pos: Position)
    requires PlainOrdered(dir) && Search(PlainDays(dir), pos.day) == |PlainDays(dir)|
    ensures Rest(dir, pos) == []
  {
    PlainDaysListed(dir);
    forall k | 0 <= k < |dir| ensures Part(dir[k], pos) == [] {
      if !dir[k].gz {
        assert HasPlain(dir, dir[k].day);
        var j :| 0 <= j < |PlainDays(dir)| && PlainDays(dir)[j] == dir[k].day;
      }
    }
    RestEmpty(dir, pos);
  }

  /** At the end of the last file: nothing is unread. */
  lemma LastFileDone(dir: seq<File<byte>>, pos: Position)
    requires PlainOrdered(dir) && |PlainDays(dir)| > 0 && pos.day == PlainDays(dir)[|PlainDays(dir)| - 1]
    requires forall k :: 0 <= k < |dir| && !dir[k].gz && dir[k].day == pos.day ==> pos.offset == |dir[k].content|
    ensures Rest(dir, pos) == []
  {
    var names := PlainDays(dir);
    PlainDaysListed(dir);
    forall k | 0 <= k < |dir| ensures Part(dir[k], pos) == [] {
      if !dir[k].gz {
        assert HasPlain(dir, dir[k].day);
        var j :| 0 <= j < |names| && names[j] == dir[k].day;
        assert dir[k].day <= pos.day;
      }
    }
    RestEmpty(dir, pos);
  }

  lemma SkipLines(dir: seq<File<byte>>, pos: Position, i: nat)
    requires PlainOrdered(dir) && i == Search(PlainDays(dir), pos.day) < |PlainDays(dir)| && pos.day < PlainDays(dir)[i]
    ensures Unread(dir, Position(PlainDays(dir)[i], 0)) == Unread(dir, pos)
  {
    hide Rest, Search, PlainDays;
    SkipTo(dir, pos, i);
  }

  lemma NoneOf()
    ensures LinesOf([]) == []
  {
  }

  /** The unread lines of a position in file `k`: those of that file, and then those after it. */
  lemma HeadOfUnread(dir: seq<File<byte>>, k: nat, p: Position)
    requires PlainOrdered(dir) && AllComplete(dir) && k < |dir| && !dir[k].gz && dir[k].day == p.day
    ensures Unread(dir, p) == LinesOf(dir[k].content[StartIn(dir[k], p)..]) + Unread(dir[k + 1..], p)
  {
    hide Rest, LinesOf, AllComplete;
    NoneOf();
    UnreadSplit(dir, k, p);
    NothingBefore(dir, k, p);
    assert [] + LinesOf(Part(dir[k], p)) == LinesOf(Part(dir[k], p));
  }

  /** After passing these lines of file `k` they and what is unread still make up the whole. */
  lemma AfterFile(dir: seq<File<byte>>, k: nat, p: Position, offset: nat, passed: seq<Line>)
    requires PlainOrdered(dir) && AllComplete(dir) && k < |dir| && !dir[k].gz && dir[k].day == p.day
    requires offset <= |dir[k].content|
    requires LinesOf(dir[k].content[StartIn(dir[k], p)..]) == passed + LinesOf(dir[k].content[offset..])
    ensures Unread(dir, p) == passed + Unread(dir, Position(p.day, offset))
  {
    hide Rest, LinesOf, AllComplete;
    var q := Position(p.day, offset);
    HeadOfUnread(dir, k, p);
    HeadOfUnread(dir, k, q);
    SameAfter(dir, k, p, q);
    Assoc(passed, LinesOf(dir[k].content[offset..]), Unread(dir[k + 1..], p));
  }

  lemma TailHasBreak(content: seq<byte>, offset: nat)
    requires Complete(content)
    ensures offset < |content| ==> NL in content[offset..]
  {
    if offset < |content| {
      assert content[offset..][|content| - offset - 1] == NL;
    }
  }

  lemma CreatedHas(dir: seq<File<byte>>, day: nat, other: nat)
    ensures HasPlain(dir, other) ==> HasPlain(Created(dir, day), other)
  {
    if HasPlain(dir, other) {
      var k :| 0 <= k < |dir| && !dir[k].gz && dir[k].day == other;
      var dir' := Created(dir, day);
      assert dir[k] in dir';
      var j :| 0 <= j < |dir'| && dir'[j] == dir[k];
      assert !dir'[j].gz && dir'[j].day == other;
    }
  }

  /** Creating the file Append has chosen makes it the newest plain file. */
  lemma CreatedNewest(dir: seq<File<byte>>, day: nat)
    requires Listing(dir) && AllComplete(dir) && LastPlain(dir) <= day
    ensures HasPlain(Created(dir, day), day) && LastPlain(Created(dir, day)) == day
  {
    CreatedKeeps(dir, day);
    var dir' := Created(dir, day);
    forall k | 0 <= k < |dir'| && !dir'[k].gz ensures dir'[k].day <= day {
      assert dir'[k] in dir';
      if dir'[k] in dir {
        var j :| 0 <= j < |dir| && dir[j] == dir'[k];
        assert dir[j].day <= LastPlain(dir);
      }
    }
    LastPlainIs(dir', day);
  }

  /** A position in a file there is stays one, whatever the writer does. */
  lemma PlaceStays(dir: seq<File<byte>>, day: nat, line: Line, p: Position)
    requires Listing(dir) && AllComplete(dir) && LastPlain(dir) <= day && IsLine(line)
    requires p.day <= LastPlain(dir) && Fits(dir, p) && 0 < day
    ensures var dir1 := Created(dir, day);
            && HasPlain(dir1, day) && p.day <= LastPlain(dir1) && Fits(dir1, p)
            && var dir2 := Grown(dir1, PlainIndex(dir1, day), line);
               p.day <= LastPlain(dir2) && Fits(dir2, p)
  {
    hide Rest, LinesOf;
    CreatedNewest(dir, day);
    CreatedKeeps(dir, day);
    var dir1 := Created(dir, day);
    CreatedFits(dir, day, p);
    NewestIsNewest(dir1, day);
    GrownKeeps(dir1, PlainIndex(dir1, day), line);
    GrownFits(dir1, PlainIndex(dir1, day), line, p);
  }

  lemma CreatedFits(dir: seq<File<byte>>, day: nat, p: Position)
    requires Fits(dir, p) && p.day <= LastPlain(dir) <= day && 0 < day
    ensures Fits(Created(dir, day), p)
  {
    var dir' := Created(dir, day);
    assert p.day == day ==> HasPlain(dir, day);
    forall k | 0 <= k < |dir'| && !dir'[k].gz && dir'[k].day == p.day ensures p.offset <= |dir'[k].content| {
      assert dir'[k] in dir';
      if dir'[k] in dir {
        var j :| 0 <= j < |dir| && dir[j] == dir'[k];
      }
    }
  }

  lemma GrownFits(dir: seq<File<byte>>, k: nat, line: Line, p: Position)
    requires k < |dir| && Fits(dir, p)
    ensures Fits(Grown(dir, k, line), p)
  {
  }

  /** Creating a file adds no line to any position. */
  lemma NothingAdded(dir: seq<File<byte>>, dir': seq<File<byte>>, day: nat)
    requires Listing(dir) && AllComplete(dir) && (dir' == dir || dir' == Created(dir, day))
    ensures forall p: Position :: Unread(dir', p) == Unread(dir, p)
  {
    CreatedKeeps(dir, day);
  }

  /** Writing a line to the newest file `day` adds it to every position not past that file. */
  lemma WriteLast(dir: seq<File<byte>>, day: nat, line: Line)
    requires Listing(dir) && AllComplete(dir) && LastPlain(dir) <= day && IsLine(line)
    ensures var dir1 := Created(dir, day);
            HasPlain(dir1, day) &&
            forall p: Position :: p.day <= day && Fits(dir1, p) ==>
              Unread(Grown(dir1, PlainIndex(dir1, day), line), p) == Unread(dir, p) + [line]
  {
    CreatedNewest(dir, day);
    CreatedKeeps(dir, day);
    var dir1 := Created(dir, day);
    var k := PlainIndex(dir1, day);
    NewestIsNewest(dir1, day);
    forall p: Position | p.day <= day && Fits(dir1, p)
      ensures Unread(Grown(dir1, k, line), p) == Unread(dir, p) + [line]
    {
      WriteEndsUnread(dir1, k, line, p);
    }
  }
}
