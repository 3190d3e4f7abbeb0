/**
 Positions and directories of a spool, for any unit of content: bytes in the file system,
 one entry per line in the pipeline. A day number stands for the file name of that UTC date;
 day 0 is the empty name, which sorts below every file.
 */
module SpoolModel {

  datatype Position = Position(day: nat, offset: nat) {
    predicate Less(q: Position) {
      if day != q.day then day < q.day else offset < q.offset
    }

    predicate AtMost(q: Position) {
      this == q || Less(q)
    }
  }

  const START := Position(0, 0)

  datatype File<U> = File(day: nat, gz: bool, content: seq<U>)

  /** Plain files are listed in date order, one per day. */
  predicate PlainOrdered<U>(dir: seq<File<U>>) {
    forall i, j :: 0 <= i < j < |dir| && !dir[i].gz && !dir[j].gz ==> dir[i].day < dir[j].day
  }

  predicate HasPlain<U>(dir: seq<File<U>>, day: nat) {
    exists k :: 0 <= k < |dir| && !dir[k].gz && dir[k].day == day
  }

  /** Where reading `f` from `p` starts: an offset past the end means the whole file again. */
  function StartIn<U>(f: File<U>, p: Position): (k: nat)
    ensures k <= |f.content|
  {
    if f.day != p.day || p.offset > |f.content| then 0 else p.offset
  }

  /** The content of `f` that a reader at `p` has still to pass. */
  function Part<U>(f: File<U>, p: Position): seq<U> {
    if f.gz || f.day < p.day then [] else f.content[StartIn(f, p)..]
  }

  /** Everything after `p`, over the plain files in date order. */
  function Rest<U>(dir: seq<File<U>>, p: Position): seq<U> {
    if dir == [] then [] else Part(dir[0], p) + Rest(dir[1..], p)
  }

  /** `p` lies inside the file it names, if that file is there. */
  predicate Fits<U>(dir: seq<File<U>>, p: Position) {
    forall k :: 0 <= k < |dir| && !dir[k].gz && dir[k].day == p.day ==> p.offset <= |dir[k].content|
  }

  /** The greatest plain name, 0 if there is none. */
  function LastPlain<U>(dir: seq<File<U>>): (d: nat)
    ensures forall k :: 0 <= k < |dir| && !dir[k].gz ==> dir[k].day <= d
    ensures d != 0 ==> HasPlain(dir, d)
  {
    if dir == [] then 0 else
      var f, d := dir[|dir| - 1], LastPlain(dir[..|dir| - 1]);
      assert dir == dir[..|dir| - 1] + [f];
      assert d != 0 ==> HasPlain(dir, d) by {
        if d != 0 {
          var k :| 0 <= k < |dir[..|dir| - 1]| && !dir[..|dir| - 1][k].gz && dir[..|dir| - 1][k].day == d;
          assert dir[k].day == d;
        }
      }
      if !f.gz && f.day > d then f.day else d
  }

  /** `dir[k]` is plain and no plain file follows it. */
  predicate IsNewestPlain<U>(dir: seq<File<U>>, k: nat)
    requires k < |dir|
  {
    !dir[k].gz && forall j :: k < j < |dir| ==> dir[j].gz
  }

  function Grown<U>(dir: seq<File<U>>, k: nat, xs: seq<U>): seq<File<U>>
    requires k < |dir|
  {
    dir[k := dir[k].(content := dir[k].content + xs)]
  }

  // ---- listings ----

  predicate Increasing(s: seq<nat>) {
    forall i, j :: 0 <= i < j < |s| ==> s[i] < s[j]
  }

  function PlainIndex<U>(dir: seq<File<U>>, day: nat): (k: nat)
    requires HasPlain(dir, day)
    ensures k < |dir| && !dir[k].gz && dir[k].day == day
  {
    if !dir[0].gz && dir[0].day == day then 0 else
      assert HasPlain(dir[1..], day) by {
        var k :| 0 <= k < |dir| && !dir[k].gz && dir[k].day == day;
        assert dir[1..][k - 1] == dir[k];
      }
      1 + PlainIndex(dir[1..], day)
  }

  function PlainDays<U>(dir: seq<File<U>>): seq<nat> {
    if dir == [] then [] else (if dir[0].gz then [] else [dir[0].day]) + PlainDays(dir[1..])
  }

  /** sort.SearchStrings */
  function Search(names: seq<nat>, day: nat): (i: nat)
    ensures i <= |names|
    ensures forall j :: 0 <= j < i ==> names[j] < day
    ensures i < |names| ==> day <= names[i]
  {
    if names == [] || day <= names[0] then 0 else 1 + Search(names[1..], day)
  }

  lemma {:induction false} PlainDaysMember<U>(dir: seq<File<U>>, d: nat)
    ensures d in PlainDays(dir) <==> HasPlain(dir, d)
  {
    if dir != [] {
      var more := dir[1..];
      PlainDaysMember(more, d);
      if HasPlain(more, d) {
        var k :| 0 <= k < |more| && !more[k].gz && more[k].day == d;
        assert dir[k + 1] == more[k];
      }
      if HasPlain(dir, d) {
        var k :| 0 <= k < |dir| && !dir[k].gz && dir[k].day == d;
        assert k > 0 ==> more[k - 1] == dir[k];
      }
    }
  }

  lemma {:induction false} PlainDaysIncreasing<U>(dir: seq<File<U>>)
    requires PlainOrdered(dir)
    ensures Increasing(PlainDays(dir))
  {
    if dir != [] {
      var more, names := dir[1..], PlainDays(dir[1..]);
      assert forall k :: 0 <= k < |more| ==> more[k] == dir[k + 1];
      PlainDaysIncreasing(more);
      forall j | 0 <= j < |names| && !dir[0].gz ensures dir[0].day < names[j] {
        PlainDaysMember(more, names[j]);
        var k :| 0 <= k < |more| && !more[k].gz && more[k].day == names[j];
        assert dir[k + 1] == more[k];
      }
    }
  }

  /** A listing holds the plain days, in order. */
  lemma PlainDaysListed<U>(dir: seq<File<U>>)
    requires PlainOrdered(dir)
    ensures Increasing(PlainDays(dir))
    ensures forall d: nat :: d in PlainDays(dir) <==> HasPlain(dir, d)
  {
    PlainDaysIncreasing(dir);
    forall d: nat ensures d in PlainDays(dir) <==> HasPlain(dir, d) {
      PlainDaysMember(dir, d);
    }
  }

  lemma LastPlainIs<U>(dir: seq<File<U>>, day: nat)
    requires HasPlain(dir, day) && forall k :: 0 <= k < |dir| && !dir[k].gz ==> dir[k].day <= day
    ensures LastPlain(dir) == day
  {
    var k :| 0 <= k < |dir| && !dir[k].gz && dir[k].day == day;
    assert day <= LastPlain(dir);
  }

  lemma BetweenNames(names: seq<nat>, day: nat, i: nat, x: nat)
    requires Increasing(names) && x in names && Search(names, day) <= i <= Search(names, day) + 1 && i < |names|
    requires day <= x < names[i]
    ensures i == Search(names, day) + 1 && x == names[Search(names, day)]
  {
    var j :| 0 <= j < |names| && names[j] == x;
  }

  lemma OnlyPlain<U>(dir: seq<File<U>>, k: nat)
    requires k < |dir| && !dir[k].gz && PlainOrdered(dir)
    ensures forall j :: 0 <= j < |dir| && !dir[j].gz && dir[j].day == dir[k].day ==> j == k
  {
  }

  lemma NewestIndex<U>(dir: seq<File<U>>, day: nat)
    requires PlainOrdered(dir) && HasPlain(dir, day)
    requires forall k :: 0 <= k < |dir| && !dir[k].gz ==> dir[k].day <= day
    ensures IsNewestPlain(dir, PlainIndex(dir, day))
  {
  }

  lemma SearchFinds(names: seq<nat>, day: nat)
    requires Increasing(names) && day in names
    ensures Search(names, day) < |names| && names[Search(names, day)] == day
  {
    var j :| 0 <= j < |names| && names[j] == day;
  }

  /**
   The file Append writes to. A closed writer keeps the newest name there is when the clock is behind
   it; an open one changes files only for a later day.
   */
  function WriterTarget<U>(dir: seq<File<U>>, isOpen: bool, name: nat, day: nat): nat {
    if isOpen && day <= name then name
    else if !isOpen && LastPlain(dir) > day then LastPlain(dir)
    else day
  }

  /** Either way it is the later of the day and the newest file. */
  lemma TargetIsNewest<U>(dir: seq<File<U>>, isOpen: bool, name: nat, day: nat)
    requires isOpen ==> LastPlain(dir) == name
    ensures WriterTarget(dir, isOpen, name, day) == if day > LastPlain(dir) then day else LastPlain(dir)
  {
  }

  // ---- laws of Rest ----

  lemma {:induction false} RestConcat<U>(a: seq<File<U>>, b: seq<File<U>>, p: Position)
    ensures Rest(a + b, p) == Rest(a, p) + Rest(b, p)
  {
    if a == [] {
      assert a + b == b;
    } else {
      assert (a + b)[1..] == a[1..] + b;
      RestConcat(a[1..], b, p);
    }
  }

  lemma RestSplit<U>(dir: seq<File<U>>, k: nat, p: Position)
    requires k < |dir|
    ensures Rest(dir, p) == Rest(dir[..k], p) + Part(dir[k], p) + Rest(dir[k + 1..], p)
  {
    assert dir == dir[..k] + ([dir[k]] + dir[k + 1..]);
    RestConcat(dir[..k], [dir[k]] + dir[k + 1..], p);
    assert ([dir[k]] + dir[k + 1..])[1..] == dir[k + 1..];
  }

  lemma RestUpdate<U>(dir: seq<File<U>>, k: nat, f: File<U>, p: Position)
    requires k < |dir|
    ensures Rest(dir[k := f], p) == Rest(dir[..k], p) + Part(f, p) + Rest(dir[k + 1..], p)
  {
    RestSplit(dir[k := f], k, p);
    assert dir[k := f][..k] == dir[..k] && dir[k := f][k + 1..] == dir[k + 1..];
  }

  lemma RestRemove<U>(dir: seq<File<U>>, k: nat, p: Position)
    requires k < |dir|
    ensures Rest(dir[..k] + dir[k + 1..], p) == Rest(dir[..k], p) + Rest(dir[k + 1..], p)
  {
    RestConcat(dir[..k], dir[k + 1..], p);
  }

  lemma {:induction false} RestMember<U>(dir: seq<File<U>>, p: Position, x: U)
    ensures x in Rest(dir, p) <==> exists k :: 0 <= k < |dir| && x in Part(dir[k], p)
  {
    if dir != [] {
      RestMember(dir[1..], p, x);
      if x in Rest(dir[1..], p) {
        var k :| 0 <= k < |dir[1..]| && x in Part(dir[1..][k], p);
        assert x in Part(dir[k + 1], p);
      }
      if k :| 0 <= k < |dir| && x in Part(dir[k], p) {
        if k > 0 {
          assert x in Part(dir[1..][k - 1], p);
        }
      }
    }
  }

  lemma {:induction false} RestEmpty<U>(dir: seq<File<U>>, p: Position)
    requires forall k :: 0 <= k < |dir| ==> Part(dir[k], p) == []
    ensures Rest(dir, p) == []
  {
    if dir != [] {
      assert forall k :: 0 <= k < |dir[1..]| ==> dir[1..][k] == dir[k + 1];
      RestEmpty(dir[1..], p);
    }
  }

  /** Two positions that leave the same part of every file leave the same rest. */
  lemma {:induction false} RestSame<U>(dir: seq<File<U>>, p: Position, q: Position)
    requires forall k :: 0 <= k < |dir| ==> Part(dir[k], p) == Part(dir[k], q)
    ensures Rest(dir, p) == Rest(dir, q)
  {
    if dir != [] {
      assert forall k :: 0 <= k < |dir[1..]| ==> dir[1..][k] == dir[k + 1];
      RestSame(dir[1..], p, q);
    }
  }

  lemma NothingAfter<U>(dir: seq<File<U>>, k: nat, p: Position)
    requires k < |dir| && IsNewestPlain(dir, k)
    ensures Rest(dir[k + 1..], p) == []
  {
    var later := dir[k + 1..];
    assert forall j :: 0 <= j < |later| ==> later[j] == dir[j + k + 1] && later[j].gz;
    RestEmpty(later, p);
  }

  lemma RestToNewest<U>(dir: seq<File<U>>, k: nat, p: Position)
    requires k < |dir| && IsNewestPlain(dir, k)
    ensures Rest(dir, p) == Rest(dir[..k], p) + Part(dir[k], p)
  {
    RestSplit(dir, k, p);
    NothingAfter(dir, k, p);
  }

  /**
   What adding `xs` to the newest plain file does to a reader at `p`, exactly: the reader sees it
   at the end of its rest if and only if `p` is not past that file.
   */
  lemma RestGrow<U>(dir: seq<File<U>>, k: nat, xs: seq<U>, p: Position)
    requires k < |dir| && IsNewestPlain(dir, k) && Fits(dir, p)
    requires xs != []
    ensures Rest(Grown(dir, k, xs), p) == Rest(dir, p) + xs <==> p.day <= dir[k].day
  {
    hide Rest;
    var g := Grown(dir, k, xs);
    RestToNewest(dir, k, p);
    RestToNewest(g, k, p);
    assert g[..k] == dir[..k];
    EndGrows(Rest(dir[..k], p), Part(dir[k], p), Part(g[k], p), xs, p.day <= dir[k].day);
  }

  lemma EndGrows<U>(a: seq<U>, b: seq<U>, b': seq<U>, xs: seq<U>, grows: bool)
    requires xs != [] && b' == if grows then b + xs else b
    ensures a + b' == a + b + xs <==> grows
  {
    if grows {
      assert a + (b + xs) == a + b + xs;
    } else {
      assert |a + b| < |a + b + xs|;
    }
  }

  /** Opening a newer file and writing `xs` to it. */
  lemma RestPush<U>(dir: seq<File<U>>, day: nat, xs: seq<U>, p: Position)
    requires p.day < day
    ensures Rest(dir + [File(day, false, xs)], p) == Rest(dir, p) + xs
  {
    RestConcat(dir, [File(day, false, xs)], p);
    assert Rest([File(day, false, xs)], p) == xs + Rest([], p);
  }

  /** With no unread content from `p` up to `day`, reading can go on at the start of `day`. */
  lemma RestSkip<U>(dir: seq<File<U>>, p: Position, day: nat)
    requires p.day < day
    requires forall k :: 0 <= k < |dir| && !dir[k].gz && p.day <= dir[k].day < day ==>
               dir[k].day == p.day && p.offset == |dir[k].content|
    ensures Rest(dir, Position(day, 0)) == Rest(dir, p)
  {
    RestSame(dir, p, Position(day, 0));
  }

  lemma NothingBefore<U>(dir: seq<File<U>>, k: nat, p: Position)
    requires k < |dir| && !dir[k].gz && PlainOrdered(dir) && p.day == dir[k].day
    ensures Rest(dir[..k], p) == []
  {
    var earlier := dir[..k];
    assert forall j :: 0 <= j < k ==> earlier[j] == dir[j] && (dir[j].gz || dir[j].day < dir[k].day);
    RestEmpty(earlier, p);
  }

  lemma SameAfter<U>(dir: seq<File<U>>, k: nat, p: Position, q: Position)
    requires k < |dir| && !dir[k].gz && PlainOrdered(dir) && p.day == q.day == dir[k].day
    ensures Rest(dir[k + 1..], p) == Rest(dir[k + 1..], q)
  {
    var later := dir[k + 1..];
    assert forall j :: 0 <= j < |later| ==> later[j] == dir[k + 1 + j] && (later[j].gz || dir[k].day < later[j].day);
    RestSame(later, p, q);
  }

  /** Reading `n` units of the file at the head of the rest. */
  lemma RestAdvance<U>(dir: seq<File<U>>, k: nat, from: nat, n: nat)
    requires k < |dir| && !dir[k].gz && PlainOrdered(dir) && from + n <= |dir[k].content|
    ensures Rest(dir, Position(dir[k].day, from)) ==
            dir[k].content[from..from + n] + Rest(dir, Position(dir[k].day, from + n))
  {
    var p, q := Position(dir[k].day, from), Position(dir[k].day, from + n);
    RestSplit(dir, k, p);
    RestSplit(dir, k, q);
    NothingBefore(dir, k, p);
    NothingBefore(dir, k, q);
    SameAfter(dir, k, p, q);
    HeadMoves(dir[k].content, from, n, Rest(dir[k + 1..], q));
  }

  lemma HeadMoves<U>(s: seq<U>, from: nat, n: nat, more: seq<U>)
    requires from + n <= |s|
    ensures [] + s[from..] + more == s[from..from + n] + ([] + s[from + n..] + more)
  {
    assert s[from..] == s[from..from + n] + s[from + n..];
  }

  predicate IsSuffix<U(==)>(s: seq<U>, all: seq<U>) {
    |s| <= |all| && s == all[|all| - |s|..]
  }

  /** The part of a file that a later position leaves: all of it, its end, or nothing. */
  lemma PartSuffix<U>(f: File<U>, p: Position, q: Position)
    requires p.AtMost(q)
    requires !f.gz && f.day == p.day ==> p.offset <= |f.content|
    requires !f.gz && f.day == q.day ==> q.offset <= |f.content|
    ensures IsSuffix(Part(f, q), Part(f, p))
    ensures !f.gz && f.day > q.day ==> Part(f, q) == Part(f, p)
    ensures f.gz || f.day < q.day ==> Part(f, q) == []
  {
    if !f.gz && f.day == q.day == p.day {
      DropMore(f.content, p.offset, q.offset);
    }
  }

  lemma DropMore<U>(s: seq<U>, i: nat, j: nat)
    requires i <= j <= |s|
    ensures IsSuffix(s[j..], s[i..])
  {
    assert s[i..][j - i..] == s[j..];
  }

  lemma SuffixBefore<U>(a: seq<U>, b: seq<U>, b': seq<U>)
    requires IsSuffix(b', b)
    ensures IsSuffix([] + b', a + b)
  {
    assert (a + b)[|a| + |b| - |b'|..] == b[|b| - |b'|..];
  }

  lemma SuffixAfter<U>(a: seq<U>, a': seq<U>, b: seq<U>)
    requires IsSuffix(a', a)
    ensures IsSuffix(a' + b, a + b)
  {
    assert (a + b)[|a| - |a'|..] == a[|a| - |a'|..] + b;
  }

  /** Behind the file that `q` names, or one after it, both positions leave the same. */
  lemma SameBeyond<U>(dir: seq<File<U>>, p: Position, q: Position)
    requires dir != [] && PlainOrdered(dir) && p.AtMost(q) && !dir[0].gz && dir[0].day >= q.day
    ensures Rest(dir[1..], p) == Rest(dir[1..], q)
  {
    var more := dir[1..];
    forall k | 0 <= k < |more| ensures Part(more[k], p) == Part(more[k], q) {
      assert more[k] == dir[k + 1];
    }
    RestSame(more, p, q);
  }

  lemma TailFits<U>(dir: seq<File<U>>, p: Position)
    requires dir != [] && PlainOrdered(dir) && Fits(dir, p)
    ensures PlainOrdered(dir[1..]) && Fits(dir[1..], p)
    ensures !dir[0].gz && dir[0].day == p.day ==> p.offset <= |dir[0].content|
  {
    assert forall k :: 0 <= k < |dir[1..]| ==> dir[1..][k] == dir[k + 1];
  }

  lemma RestFirst<U>(dir: seq<File<U>>, p: Position)
    requires dir != []
    ensures Rest(dir, p) == Part(dir[0], p) + Rest(dir[1..], p)
  {
  }

  /** What is left after a later position is the end of what was left after an earlier one. */
  lemma {:induction false} RestSuffix<U>(dir: seq<File<U>>, p: Position, q: Position)
    requires PlainOrdered(dir) && p.AtMost(q) && Fits(dir, p) && Fits(dir, q)
    ensures IsSuffix(Rest(dir, q), Rest(dir, p))
  {
    hide Rest, Part, Fits, PlainOrdered, IsSuffix;
    if dir == [] {
      RestNone<U>(p, q);
    } else {
      var f, more := dir[0], dir[1..];
      TailFits(dir, p);
      TailFits(dir, q);
      RestFirst(dir, p);
      RestFirst(dir, q);
      PartSuffix(f, p, q);
      if !f.gz && f.day >= q.day {
        SameBeyond(dir, p, q);
        SuffixAfter(Part(f, p), Part(f, q), Rest(more, p));
      } else {
        RestSuffix(more, p, q);
        SuffixBefore(Part(f, p), Rest(more, p), Rest(more, q));
      }
    }
  }

  lemma RestNone<U>(p: Position, q: Position)
    ensures IsSuffix(Rest<U>([], q), Rest<U>([], p))
  {
  }
}
