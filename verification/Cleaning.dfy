/** What Cleanup takes away, counts and compresses (internal/agent/spool.go). */
module Cleaning {
  import opened Lines
  import opened SpoolModel
  import opened SpoolBytes

  /** A file name: its day, and whether it ends in `.gz`. */
  type Name = (nat, bool)

  function NameOf(f: File<byte>): Name {
    (f.day, f.gz)
  }

  /** Cleanup protects the name the writer has, which is empty before the first open. */
  predicate IsCurrent(f: File<byte>, current: nat) {
    !f.gz && f.day == current
  }

  function TotalSize(dir: seq<File<byte>>): nat {
    if dir == [] then 0 else |dir[0].content| + TotalSize(dir[1..])
  }

  lemma {:induction false} SizeSnoc(dir: seq<File<byte>>, f: File<byte>)
    ensures TotalSize(dir + [f]) == TotalSize(dir) + |f.content|
  {
    if dir == [] {
      assert dir + [f] == [f];
    } else {
      assert (dir + [f])[1..] == dir[1..] + [f];
      SizeSnoc(dir[1..], f);
    }
  }

  // ---- what a removal counts ----

  /** The lines that removeLocked counts when the later of `committed` and `inflight` is `eff`. */
  function Counted(f: File<byte>, eff: Position): nat {
    if f.gz || f.day < eff.day then 0
    else if f.day > eff.day then |LinesOf(f.content)|
    else if eff.offset <= |f.content| then |LinesOf(f.content[eff.offset..])| else 0
  }

  function Without(dir: seq<File<byte>>, k: nat): seq<File<byte>>
    requires k < |dir|
  {
    dir[..k] + dir[k + 1..]
  }

  lemma {:induction false} NoLines(s: seq<byte>)
    requires Complete(s)
    ensures LinesOf(s) == [] <==> s == []
  {
    if s != [] {
      var head, tail := CutFirst(s);
      LinesOfCons(head, tail);
    }
  }

  /**
   The count is the number of lines that vanish from the unread ones, except when the offset lies past
   the end of a file that is not empty: the reader would start that file over, the count takes it as read.
   */
  lemma CountedVanish(dir: seq<File<byte>>, k: nat, eff: Position)
    requires k < |dir| && AllComplete(dir)
    ensures Counted(dir[k], eff) + |Unread(Without(dir, k), eff)| <= |Unread(dir, eff)|
    ensures Counted(dir[k], eff) + |Unread(Without(dir, k), eff)| == |Unread(dir, eff)| <==>
            !(IsCurrent(dir[k], eff.day) && eff.offset > |dir[k].content| > 0)
  {
    hide LinesOf, Rest;
    WholeLines(dir[k]);
    NoLinesHere(dir, k);
    UnreadSplit(dir, k, eff);
    assert AllComplete(dir[..k]);
    UnreadConcat(dir[..k], dir[k + 1..], eff);
  }

  lemma WholeLines(f: File<byte>)
    ensures LinesOf([]) == [] && f.content[0..] == f.content
  {
  }

  lemma NoLinesHere(dir: seq<File<byte>>, k: nat)
    requires k < |dir| && AllComplete(dir)
    ensures !dir[k].gz ==> (|LinesOf(dir[k].content)| == 0 <==> dir[k].content == [])
  {
    if !dir[k].gz {
      NoLines(dir[k].content);
    }
  }

  lemma FitsWithout(dir: seq<File<byte>>, k: nat, p: Position)
    requires k < |dir|
    ensures Fits(dir, p) ==> Fits(Without(dir, k), p) && !(IsCurrent(dir[k], p.day) && p.offset > |dir[k].content| > 0)
  {
  }

  lemma WithoutKeeps(dir: seq<File<byte>>, k: nat)
    requires k < |dir| && Listing(dir) && AllComplete(dir)
    ensures Listing(Without(dir, k)) && AllComplete(Without(dir, k))
    ensures forall f :: f in Without(dir, k) <==> f in dir && f != dir[k]
  {
    var dir' := Without(dir, k);
    forall f | f in dir && f != dir[k] ensures f in dir' {
      var j :| 0 <= j < |dir| && dir[j] == f;
      assert dir'[if j < k then j else j - 1] == f;
    }
  }

  /** The writer's file stays where the writer left it as long as no one touches that file. */
  lemma WriterStays(dir: seq<File<byte>>, dir': seq<File<byte>>, name: nat)
    requires Listing(dir) && Listing(dir') && HasPlain(dir, name)
    requires forall f :: f in dir' && !f.gz ==> f in dir
    requires forall f :: f in dir && IsCurrent(f, name) ==> f in dir'
    ensures HasPlain(dir', name) && dir'[PlainIndex(dir', name)] == dir[PlainIndex(dir, name)]
    ensures LastPlain(dir) == name ==> LastPlain(dir') == name
  {
    var f := dir[PlainIndex(dir, name)];
    var j :| 0 <= j < |dir'| && dir'[j] == f;
    assert HasPlain(dir', name);
    OnlyPlain(dir', j);
    if LastPlain(dir) == name {
      forall k | 0 <= k < |dir'| && !dir'[k].gz ensures dir'[k].day <= name {
        assert dir'[k] in dir;
      }
      LastPlainIs(dir', name);
    }
  }

  /** The writer's file exists, and while it is open it is the newest and of the size the writer knows. */
  predicate WriterFits(dir: seq<File<byte>>, isOpen: bool, name: nat, size: nat) {
    && (name > 0 ==> HasPlain(dir, name))
    && (isOpen ==> name > 0 && LastPlain(dir) == name && size == |dir[PlainIndex(dir, name)].content|)
  }

  /** `n` is the number of lines after `eff` that went from `dir` to `dir'`, and never more than that. */
  predicate AllCounted(dir: seq<File<byte>>, dir': seq<File<byte>>, eff: Position, n: nat) {
    && n + |Unread(dir', eff)| <= |Unread(dir, eff)|
    && (Fits(dir, eff) ==> Fits(dir', eff) && n + |Unread(dir', eff)| == |Unread(dir, eff)|)
  }

  lemma NoneCounted(dir: seq<File<byte>>, eff: Position)
    ensures AllCounted(dir, dir, eff, 0)
  {
  }

  lemma CountedOn(a: seq<File<byte>>, b: seq<File<byte>>, c: seq<File<byte>>, eff: Position, n: nat, n': nat)
    requires AllCounted(a, b, eff, n) && AllCounted(b, c, eff, n')
    ensures AllCounted(a, c, eff, n + n')
  {
  }

  /** Removing any file but the writer's: what stays true, and what is gone. */
  lemma RemovalKeeps(dir: seq<File<byte>>, k: nat, eff: Position, isOpen: bool, name: nat, size: nat)
    requires k < |dir| && Listing(dir) && AllComplete(dir) && WriterFits(dir, isOpen, name, size)
        && !IsCurrent(dir[k], name)
    ensures Listing(Without(dir, k)) && AllComplete(Without(dir, k)) && WriterFits(Without(dir, k), isOpen, name, size)
    ensures AllCounted(dir, Without(dir, k), eff, Counted(dir[k], eff))
  {
    hide Listing, AllComplete, HasPlain, LastPlain, PlainIndex, Without, Counted, Unread, Fits;
    FitsWithout(dir, k, eff);
    CountedVanish(dir, k, eff);
    WithoutKeeps(dir, k);
    if name > 0 {
      WriterStays(dir, Without(dir, k), name);
    }
  }

  // ---- the same line by line ----

  /** The pipeline's removal takes the same file away. */
  lemma WithoutRefines(dir: seq<File<byte>>, k: nat)
    requires k < |dir|
    ensures AbsDir(Without(dir, k)) == AbsDir(dir)[..k] + AbsDir(dir)[k + 1..]
  {
  }

  /** And it counts as many lines as the bytes give. */
  lemma CountedRefines(dir: seq<File<byte>>, k: nat, p: Position)
    requires k < |dir| && AllComplete(dir) && PlainOrdered(dir) && OnLine(dir, p)
    ensures Counted(dir[k], p) == |Part(AbsDir(dir)[k], LinePosition(dir, p))|
  {
    hide LinesOf, LinePosition;
    LinePositionIsPlace(dir, p);
    FileRefines(dir, k, p, LinePosition(dir, p));
    CountedIsPart(dir, k, p);
  }

  lemma FileRefines(dir: seq<File<byte>>, k: nat, p: Position, q: Position)
    requires k < |dir| && SamePlace(dir, p, q)
    ensures LinesOf(Part(dir[k], p)) == Part(AbsDir(dir)[k], q)
  {
    hide LinesOf, Part;
    var one := [dir[k]];
    assert SamePlace(one, p, q);
    PartRefines(one, p, q);
  }

  lemma CountedIsPart(dir: seq<File<byte>>, k: nat, p: Position)
    requires k < |dir| && Fits(dir, p)
    ensures Counted(dir[k], p) == |LinesOf(Part(dir[k], p))|
  {
    WholeLines(dir[k]);
  }

  /** A position at the end of a line stays one when a line is appended. */
  lemma OnLineGrows(dir: seq<File<byte>>, k: nat, line: Line, p: Position)
    requires k < |dir| && OnLine(dir, p)
    ensures OnLine(Grown(dir, k, line), p)
  {
    var dir' := Grown(dir, k, line);
    forall j | 0 <= j < |dir'| && !dir'[j].gz && dir'[j].day == p.day
      ensures p.offset <= |dir'[j].content| && Complete(dir'[j].content[..p.offset])
    {
      assert dir'[j].content[..p.offset] == dir[j].content[..p.offset];
    }
  }

  // ---- by age ----

  predicate Expired(f: File<byte>, cutoff: nat, current: nat) {
    f.day < cutoff && !IsCurrent(f, current)
  }

  /** What is left of a listing when all old files are removed, but for those that cannot be. */
  function Retained(files: seq<File<byte>>, cutoff: nat, current: nat, stuck: set<Name>): seq<File<byte>> {
    if files == [] then [] else
      var n := |files| - 1;
      Retained(files[..n], cutoff, current, stuck)
        + if Expired(files[n], cutoff, current) && NameOf(files[n]) !in stuck then [] else [files[n]]
  }

  lemma {:induction false} RetainedMember(files: seq<File<byte>>, cutoff: nat, current: nat, stuck: set<Name>,
                                          f: File<byte>)
    ensures f in Retained(files, cutoff, current, stuck) <==>
            f in files && (f.day >= cutoff || (!f.gz && f.day == current) || (f.day, f.gz) in stuck)
  {
    if files != [] {
      var n := |files| - 1;
      assert files == files[..n] + [files[n]];
      RetainedMember(files[..n], cutoff, current, stuck, f);
    }
  }

  lemma RetainedMembers(files: seq<File<byte>>, cutoff: nat, current: nat, stuck: set<Name>)
    ensures forall f :: f in Retained(files, cutoff, current, stuck) <==>
              f in files && (f.day >= cutoff || (!f.gz && f.day == current) || (f.day, f.gz) in stuck)
  {
    forall f ensures f in Retained(files, cutoff, current, stuck) <==>
      f in files && (f.day >= cutoff || (!f.gz && f.day == current) || (f.day, f.gz) in stuck)
    {
      RetainedMember(files, cutoff, current, stuck, f);
    }
  }

  /** Where the files that are left stood in the listing: in the same order, and no other that must stay is missing. */
  ghost predicate KeptInOrder(files: seq<File<byte>>, kept: seq<File<byte>>, at: seq<nat>, cutoff: nat, current: nat,
                              stuck: set<Name>) {
    && |at| == |kept|
    && (forall i, j :: 0 <= i < j < |at| ==> at[i] < at[j])
    && (forall i :: 0 <= i < |at| ==> at[i] < |files| && kept[i] == files[at[i]])
    && (forall j: nat :: j < |files| ==>
          (j in at <==> files[j].day >= cutoff || (!files[j].gz && files[j].day == current)
                        || (files[j].day, files[j].gz) in stuck))
  }

  /** If none is too old, they are all left. */
  lemma AllKept(files: seq<File<byte>>, kept: seq<File<byte>>, at: seq<nat>, cutoff: nat, current: nat,
                stuck: set<Name>)
    requires KeptInOrder(files, kept, at, cutoff, current, stuck)
    ensures (forall f :: f in files ==> f.day >= cutoff) ==> |kept| == |files|
  {
    if forall f :: f in files ==> f.day >= cutoff {
      forall j: nat | j < |files| ensures j in at {
        assert files[j] in files;
      }
      IncreasingCovers(at, |files|);
    }
  }

  lemma {:induction false} IncreasingCovers(at: seq<nat>, n: nat)
    requires forall i, j :: 0 <= i < j < |at| ==> at[i] < at[j]
    requires forall i :: 0 <= i < |at| ==> at[i] < n
    requires forall j: nat :: j < n ==> j in at
    ensures |at| == n
    decreases n
  {
    var last: nat := if n > 0 then n - 1 else 0;
    assert n > 0 ==> last in at;
    if |at| > 0 {
      var init := at[..|at| - 1];
      assert at[|at| - 1] < n;
      var i :| 0 <= i < |at| && at[i] == last;
      assert i == |at| - 1;
      forall j: nat | j < n - 1 ensures j in init {
        assert j in at;
        var k :| 0 <= k < |at| && at[k] == j;
        assert init[k] == j;
      }
      IncreasingCovers(init, n - 1);
    }
  }

  lemma {:induction false} RetainedInOrder(files: seq<File<byte>>, cutoff: nat, current: nat, stuck: set<Name>)
    returns (at: seq<nat>)
    ensures KeptInOrder(files, Retained(files, cutoff, current, stuck), at, cutoff, current, stuck)
  {
    if files == [] {
      at := [];
    } else {
      hide KeptInOrder, Retained;
      var n := |files| - 1;
      at := RetainedInOrder(files[..n], cutoff, current, stuck);
      RetainedSnoc(files, n, cutoff, current, stuck);
      assert files[..n] + [files[n]] == files == files[..|files|];
      if Expired(files[n], cutoff, current) && NameOf(files[n]) !in stuck {
        KeptWithout(files[..n], Retained(files[..n], cutoff, current, stuck), at, files[n], cutoff, current, stuck);
      } else {
        KeptWith(files[..n], Retained(files[..n], cutoff, current, stuck), at, files[n], cutoff, current, stuck);
        at := at + [n];
      }
    }
  }

  lemma KeptWithout(files: seq<File<byte>>, kept: seq<File<byte>>, at: seq<nat>, f: File<byte>, cutoff: nat,
                    current: nat, stuck: set<Name>)
    requires KeptInOrder(files, kept, at, cutoff, current, stuck)
    requires Expired(f, cutoff, current) && NameOf(f) !in stuck
    ensures KeptInOrder(files + [f], kept + [], at, cutoff, current, stuck)
  {
    assert |files| !in at;
  }

  lemma KeptWith(files: seq<File<byte>>, kept: seq<File<byte>>, at: seq<nat>, f: File<byte>, cutoff: nat,
                 current: nat, stuck: set<Name>)
    requires KeptInOrder(files, kept, at, cutoff, current, stuck)
    requires !(Expired(f, cutoff, current) && NameOf(f) !in stuck)
    ensures KeptInOrder(files + [f], kept + [f], at + [|files|], cutoff, current, stuck)
  {
    var at' := at + [|files|];
    assert forall j: nat :: j in at' <==> j in at || j == |files|;
  }

  lemma RetainedSnoc(files: seq<File<byte>>, i: nat, cutoff: nat, current: nat, stuck: set<Name>)
    requires i < |files|
    ensures Retained(files[..i + 1], cutoff, current, stuck) == Retained(files[..i], cutoff, current, stuck)
              + if Expired(files[i], cutoff, current) && NameOf(files[i]) !in stuck then [] else [files[i]]
  {
    assert files[..i + 1][..i] == files[..i];
  }

  lemma RetainedEnds(files: seq<File<byte>>, cutoff: nat, current: nat, stuck: set<Name>)
    ensures Retained(files[..0], cutoff, current, stuck) == [] && TotalSize([]) == 0 && files[0..] == files
    ensures [] + files == files
    ensures var kept := Retained(files[..|files|], cutoff, current, stuck);
            kept == Retained(files, cutoff, current, stuck) && kept + files[|files|..] == kept
  {
    assert files[..|files|] == files;
  }

  /** One file on: where it stands among those kept so far and those still to be looked at. */
  lemma RetainedStep(files: seq<File<byte>>, i: nat, cutoff: nat, current: nat, stuck: set<Name>)
    requires i < |files|
    ensures var kept := Retained(files[..i], cutoff, current, stuck);
            var kept' := Retained(files[..i + 1], cutoff, current, stuck);
            var dir := kept + files[i..];
            && |kept| < |dir| && dir[|kept|] == files[i]
            && (if Expired(files[i], cutoff, current) && NameOf(files[i]) !in stuck
                then kept' == kept && Without(dir, |kept|) == kept' + files[i + 1..]
                else
                  && |kept'| == |kept| + 1 && dir == kept' + files[i + 1..]
                  && TotalSize(kept') == TotalSize(kept) + |files[i].content|)
  {
    hide Retained, TotalSize;
    var kept := Retained(files[..i], cutoff, current, stuck);
    RetainedSnoc(files, i, cutoff, current, stuck);
    SizeSnoc(kept, files[i]);
    assert kept + files[i..] == kept + [files[i]] + files[i + 1..];
  }

  // ---- by size ----

  /**
   Size deletion takes the `n` oldest files: all of them while the total was over the limit, and none
   that may not be removed; then the total is within the limit or the oldest that is left must stay.
   */
  ghost predicate SizeCut(files: seq<File<byte>>, n: nat, maxBytes: int, current: nat, stuck: set<Name>) {
    && n <= |files|
    && (forall m :: 0 <= m < n ==>
          && TotalSize(files[m..]) > maxBytes
          && (files[m].gz || files[m].day != current) && (files[m].day, files[m].gz) !in stuck)
    && (n < |files| ==>
          || TotalSize(files[n..]) <= maxBytes
          || (!files[n].gz && files[n].day == current) || (files[n].day, files[n].gz) in stuck)
  }

  lemma ShrinkEnds(files: seq<File<byte>>)
    ensures files[0..] == files && TotalSize([]) == 0
  {
  }

  lemma ShrinkStep(files: seq<File<byte>>, n: nat)
    requires n < |files|
    ensures var dir := files[n..];
            && |dir| > 0 && dir[0] == files[n] && Without(dir, 0) == files[n + 1..]
            && TotalSize(dir) == |dir[0].content| + TotalSize(files[n + 1..])
  {
    assert files[n..][1..] == files[n + 1..];
  }

  /** Neither deletion ever takes the file the writer has. */
  lemma CurrentSurvives(files: seq<File<byte>>, f: File<byte>, cutoff: nat, n: nat, maxBytes: int, current: nat,
                        stuck: set<Name>)
    requires f in files && IsCurrent(f, current)
    requires SizeCut(Retained(files, cutoff, current, stuck), n, maxBytes, current, stuck)
    ensures f in Retained(files, cutoff, current, stuck)[n..]
  {
    var kept := Retained(files, cutoff, current, stuck);
    RetainedMember(files, cutoff, current, stuck, f);
    var i :| 0 <= i < |kept| && kept[i] == f;
    assert i >= n && kept[n..][i - n] == f;
  }

  // ---- compression ----

  datatype CompressIo = CompressFails | KeepsSource | Compressed

  /** The rename puts the compressed form in the place of an older one. */
  function WithoutOldGz(dir: seq<File<byte>>, k: nat): (dir': seq<File<byte>>)
    requires k < |dir|
    ensures |dir'| > k && dir'[k] == dir[k]
  {
    if k + 1 < |dir| && dir[k + 1].gz && dir[k + 1].day == dir[k].day then Without(dir, k + 1) else dir
  }

  function GzOf(f: File<byte>, zip: seq<byte> -> seq<byte>): File<byte> {
    File(f.day, true, zip(f.content))
  }

  function WithGz(dir: seq<File<byte>>, k: nat, z: File<byte>): (dir': seq<File<byte>>)
    requires k < |dir|
    ensures |dir'| == |dir| + 1 && dir'[k] == dir[k]
  {
    dir[..k + 1] + [z] + dir[k + 1..]
  }

  /** compress: the temporary file takes its name; then the original is removed, which may fail. */
  function CompressedAt(dir: seq<File<byte>>, k: nat, zip: seq<byte> -> seq<byte>, io: CompressIo): seq<File<byte>>
    requires k < |dir|
  {
    var both := WithGz(WithoutOldGz(dir, k), k, GzOf(dir[k], zip));
    match io
    case CompressFails => dir
    case KeepsSource => both
    case Compressed => Without(both, k)
  }

  /** The same files, but for the compressed one of `day`. */
  ghost predicate SameBut(dir: seq<File<byte>>, dir': seq<File<byte>>, day: nat) {
    forall f: File<byte> :: !(f.gz && f.day == day) ==> (f in dir <==> f in dir')
  }

  lemma OldGzGone(dir: seq<File<byte>>, k: nat)
    requires k < |dir| && !dir[k].gz && Listing(dir) && AllComplete(dir)
    ensures var dir1 := WithoutOldGz(dir, k);
            && Listing(dir1) && AllComplete(dir1) && SameBut(dir, dir1, dir[k].day)
            && (k + 1 < |dir1| ==> dir1[k + 1].day > dir[k].day)
  {
    if k + 1 < |dir| {
      WithoutKeeps(dir, k + 1);
      assert Before(dir[k], dir[k + 1]);
      if k + 2 < |dir| {
        assert Before(dir[k], dir[k + 2]) && Before(dir[k + 1], dir[k + 2]);
      }
    }
  }

  lemma GzListed(dir: seq<File<byte>>, k: nat, z: File<byte>)
    requires k < |dir| && !dir[k].gz && Listing(dir) && AllComplete(dir)
    requires z.gz && z.day == dir[k].day && (k + 1 < |dir| ==> dir[k + 1].day > dir[k].day)
    ensures Listing(WithGz(dir, k, z)) && AllComplete(WithGz(dir, k, z))
  {
    var dir' := WithGz(dir, k, z);
    assert forall j :: 0 <= j < |dir'| ==> dir'[j] == if j <= k then dir[j] else if j == k + 1 then z else dir[j - 1];
    assert forall j :: k + 1 < j < |dir| ==> Before(dir[k + 1], dir[j]);
  }

  lemma GzAdded(dir: seq<File<byte>>, k: nat, z: File<byte>)
    requires k < |dir| && z.gz
    ensures SameBut(dir, WithGz(dir, k, z), z.day) && WithGz(dir, k, z)[k + 1] == z
  {
    assert dir == dir[..k + 1] + dir[k + 1..];
  }

  /**
   After compressing the plain file of `day` its compressed form is there, and the file itself only if it
   could not be removed; if compressing fails, all is as it was. Files of other days are the same.
   */
  ghost predicate Pressed(dir: seq<File<byte>>, dir': seq<File<byte>>, day: nat, zip: seq<byte> -> seq<byte>,
                          io: CompressIo) {
    && (forall g: File<byte> :: g.day != day ==> (g in dir <==> g in dir'))
    && (forall f: File<byte>, g: File<byte> :: f in dir && !f.gz && f.day == day && g.day == day ==>
          (g in dir' <==> match io
                          case CompressFails => g in dir
                          case KeepsSource => g == f || g == File(day, true, zip(f.content))
                          case Compressed => g == File(day, true, zip(f.content))))
  }

  lemma OldGzExactly(dir: seq<File<byte>>, k: nat)
    requires k < |dir| && !dir[k].gz && Listing(dir) && AllComplete(dir)
    ensures forall g :: g in WithoutOldGz(dir, k) <==> g in dir && (g.day != dir[k].day || g == dir[k])
  {
    if k + 1 < |dir| && dir[k + 1].gz && dir[k + 1].day == dir[k].day {
      WithoutKeeps(dir, k + 1);
    }
    forall g | g in dir && g.day == dir[k].day
      ensures g == dir[k] || (k + 1 < |dir| && g == dir[k + 1] && g.gz)
    {
      var j: nat :| j < |dir| && dir[j] == g;
      Listed(dir, j, k);
      Listed(dir, k, j);
      Listed(dir, k, k + 1);
      Listed(dir, k + 1, j);
    }
  }

  lemma Listed(dir: seq<File<byte>>, i: nat, j: nat)
    requires Listing(dir)
    ensures i < j < |dir| ==> Before(dir[i], dir[j])
  {
  }

  lemma CompressedExactly(dir: seq<File<byte>>, k: nat, zip: seq<byte> -> seq<byte>, io: CompressIo)
    requires k < |dir| && !dir[k].gz && Listing(dir) && AllComplete(dir)
    ensures Pressed(dir, CompressedAt(dir, k, zip, io), dir[k].day, zip, io)
  {
    hide Listing, AllComplete, WithoutOldGz, WithGz, Without;
    var dir1, z := WithoutOldGz(dir, k), GzOf(dir[k], zip);
    OldGzGone(dir, k);
    OldGzExactly(dir, k);
    GzListed(dir1, k, z);
    GzMember(dir1, k, z);
    var both := WithGz(dir1, k, z);
    WithoutKeeps(both, k);
    forall f: File<byte> | f in dir && !f.gz && f.day == dir[k].day ensures f == dir[k] {
      OnePerDay(dir, k, f);
    }
  }

  lemma GzMember(dir: seq<File<byte>>, k: nat, z: File<byte>)
    requires k < |dir|
    ensures forall g :: g in WithGz(dir, k, z) <==> g in dir || g == z
  {
    assert dir == dir[..k + 1] + dir[k + 1..];
    assert z in WithGz(dir, k, z);
  }

  /** The same for several days, one after another. */
  ghost predicate AllPressed(dir: seq<File<byte>>, dir': seq<File<byte>>, days: set<nat>, zip: seq<byte> -> seq<byte>,
                             io: nat -> CompressIo) {
    && (forall g: File<byte> :: g.day !in days ==> (g in dir <==> g in dir'))
    && (forall f: File<byte>, g: File<byte> :: f in dir && !f.gz && f.day in days && g.day == f.day ==>
          (g in dir' <==> match io(f.day)
                          case CompressFails => g in dir
                          case KeepsSource => g == f || g == File(f.day, true, zip(f.content))
                          case Compressed => g == File(f.day, true, zip(f.content))))
  }

  lemma PressedOn(a: seq<File<byte>>, b: seq<File<byte>>, c: seq<File<byte>>, done: set<nat>, day: nat,
                  zip: seq<byte> -> seq<byte>, io: nat -> CompressIo)
    requires AllPressed(a, b, done, zip, io) && Pressed(b, c, day, zip, io(day)) && day !in done
    ensures AllPressed(a, c, done + {day}, zip, io)
  {
  }

  lemma NothingPressed(dir: seq<File<byte>>, zip: seq<byte> -> seq<byte>, io: nat -> CompressIo)
    ensures AllPressed(dir, dir, {}, zip, io)
  {
  }

  /** Compressing loses no content and touches no other file. */
  lemma CompressKeeps(dir: seq<File<byte>>, k: nat, zip: seq<byte> -> seq<byte>, io: CompressIo)
    requires k < |dir| && !dir[k].gz && Listing(dir) && AllComplete(dir)
    ensures var dir' := CompressedAt(dir, k, zip, io);
            && Listing(dir') && AllComplete(dir')
            && (dir[k] in dir' || GzOf(dir[k], zip) in dir')
            && (forall f: File<byte> :: f != dir[k] && !(f.gz && f.day == dir[k].day) ==> (f in dir <==> f in dir'))
  {
    hide Listing, AllComplete, WithoutOldGz, WithGz, Without;
    var dir1, z := WithoutOldGz(dir, k), GzOf(dir[k], zip);
    OldGzGone(dir, k);
    GzListed(dir1, k, z);
    GzAdded(dir1, k, z);
    var both := WithGz(dir1, k, z);
    assert both[k + 1] in both && both[k] in both;
    WithoutKeeps(both, k);
  }

  lemma OldGzUnread(dir: seq<File<byte>>, k: nat, p: Position)
    requires k < |dir|
    ensures Rest(WithoutOldGz(dir, k), p) == Rest(dir, p)
  {
    if k + 1 < |dir| {
      hide Rest;
      RestRemove(dir, k + 1, p);
      RestSplit(dir, k + 1, p);
    }
  }

  lemma GzUnread(dir: seq<File<byte>>, k: nat, z: File<byte>, p: Position)
    requires k < |dir| && z.gz
    ensures Rest(WithGz(dir, k, z), p) == Rest(dir, p)
  {
    hide Rest;
    var dir' := WithGz(dir, k, z);
    RestRemove(dir', k + 1, p);
    RestSplit(dir', k + 1, p);
    assert dir'[..k + 1] + dir'[k + 2..] == dir;
  }

  /** No reader at a later day notices. */
  lemma CompressUnread(dir: seq<File<byte>>, k: nat, zip: seq<byte> -> seq<byte>, io: CompressIo, p: Position)
    requires k < |dir| && !dir[k].gz && dir[k].day < p.day
    ensures Rest(CompressedAt(dir, k, zip, io), p) == Rest(dir, p)
  {
    hide Rest;
    var both := WithGz(WithoutOldGz(dir, k), k, GzOf(dir[k], zip));
    OldGzUnread(dir, k, p);
    GzUnread(WithoutOldGz(dir, k), k, GzOf(dir[k], zip), p);
    RestRemove(both, k, p);
    RestSplit(both, k, p);
  }

  /** The names Cleanup compresses: those the committed position has left behind, but for the writer's. */
  function ToCompress(dir: seq<File<byte>>, committed: Position, current: nat): (days: set<nat>)
    ensures forall d: nat :: d in days <==> d < committed.day && d != current && HasPlain(dir, d)
  {
    set k | 0 <= k < |dir| && !dir[k].gz && dir[k].day < committed.day && dir[k].day != current :: dir[k].day
  }

  /**
   The plain files of `days` were compressed or left as they are; all others are the same, and so is
   what a reader at a later day has left.
   */
  ghost predicate Squeezed(dir: seq<File<byte>>, dir': seq<File<byte>>, days: set<nat>, zip: seq<byte> -> seq<byte>) {
    && (forall f: File<byte> :: f.day !in days ==> (f in dir <==> f in dir'))
    && (forall f: File<byte> :: !f.gz && f in dir' ==> f in dir)
    && (forall f: File<byte> :: !f.gz && f in dir && f.day in days ==> f in dir' || GzOf(f, zip) in dir')
    && (forall p: Position :: Beyond(days, p) ==> Rest(dir', p) == Rest(dir, p))
  }

  predicate Beyond(days: set<nat>, p: Position) {
    forall d :: d in days ==> d < p.day
  }

  lemma CompressSqueezes(dir: seq<File<byte>>, k: nat, zip: seq<byte> -> seq<byte>, io: CompressIo)
    requires k < |dir| && !dir[k].gz && Listing(dir) && AllComplete(dir)
    ensures Squeezed(dir, CompressedAt(dir, k, zip, io), {dir[k].day}, zip)
  {
    hide Listing, AllComplete, CompressedAt;
    CompressKeeps(dir, k, zip, io);
    forall f: File<byte> | !f.gz && f in dir && f.day == dir[k].day ensures f == dir[k] {
      OnePerDay(dir, k, f);
    }
    forall p: Position | Beyond({dir[k].day}, p) ensures Rest(CompressedAt(dir, k, zip, io), p) == Rest(dir, p) {
      CompressUnread(dir, k, zip, io, p);
    }
  }

  lemma OnePerDay(dir: seq<File<byte>>, k: nat, f: File<byte>)
    requires k < |dir| && !dir[k].gz && Listing(dir) && !f.gz && f in dir && f.day == dir[k].day
    ensures f == dir[k]
  {
    var j :| 0 <= j < |dir| && dir[j] == f;
  }

  lemma CompressKeepsWriter(dir: seq<File<byte>>, k: nat, zip: seq<byte> -> seq<byte>, io: CompressIo,
                            isOpen: bool, name: nat, size: nat)
    requires k < |dir| && !dir[k].gz && dir[k].day != name
    requires Listing(dir) && AllComplete(dir) && WriterFits(dir, isOpen, name, size)
    ensures var dir' := CompressedAt(dir, k, zip, io);
            && Listing(dir') && AllComplete(dir') && WriterFits(dir', isOpen, name, size)
            && Squeezed(dir, dir', {dir[k].day}, zip)
  {
    hide Listing, AllComplete, CompressedAt, HasPlain, LastPlain, PlainIndex;
    CompressKeeps(dir, k, zip, io);
    CompressSqueezes(dir, k, zip, io);
    if name > 0 {
      WriterStays(dir, CompressedAt(dir, k, zip, io), name);
    }
  }

  lemma NothingSqueezed(dir: seq<File<byte>>, zip: seq<byte> -> seq<byte>)
    ensures Squeezed(dir, dir, {}, zip)
  {
  }

  lemma SqueezedOn(a: seq<File<byte>>, b: seq<File<byte>>, c: seq<File<byte>>, done: set<nat>, day: nat,
                   zip: seq<byte> -> seq<byte>)
    requires Squeezed(a, b, done, zip) && Squeezed(b, c, {day}, zip) && day !in done
    ensures Squeezed(a, c, done + {day}, zip)
  {
    hide Rest;
    forall p: Position | Beyond(done + {day}, p) ensures Rest(c, p) == Rest(a, p) {
      assert Beyond(done, p) && Beyond({day}, p);
    }
    forall f: File<byte> | !f.gz && f in a && f.day in done + {day} ensures f in c || GzOf(f, zip) in c {
      assert f.day in done ==> f in b || GzOf(f, zip) in b;
    }
  }

  /** A name that is still to be compressed is still there. */
  lemma StillPlain(dir: seq<File<byte>>, dir': seq<File<byte>>, done: set<nat>, day: nat, committed: Position,
                   current: nat, zip: seq<byte> -> seq<byte>)
    requires Squeezed(dir, dir', done, zip) && day in ToCompress(dir, committed, current) && day !in done
    ensures HasPlain(dir', day) && day != current
  {
    var k :| 0 <= k < |dir| && !dir[k].gz && dir[k].day == day && dir[k].day != current;
    assert dir[k] in dir';
    var j :| 0 <= j < |dir'| && dir'[j] == dir[k];
    assert !dir'[j].gz && dir'[j].day == day;
  }

  /** Compressing what the committed position has left behind takes no line from anyone. */
  lemma SqueezedUnread(dir: seq<File<byte>>, dir': seq<File<byte>>, committed: Position, current: nat, eff: Position,
                       zip: seq<byte> -> seq<byte>)
    requires Squeezed(dir, dir', ToCompress(dir, committed, current), zip) && committed.day <= eff.day
    ensures AllCounted(dir, dir', eff, 0)
  {
    assert Beyond(ToCompress(dir, committed, current), eff);
    if Fits(dir, eff) {
      forall k | 0 <= k < |dir'| && !dir'[k].gz && dir'[k].day == eff.day ensures eff.offset <= |dir'[k].content| {
        assert dir'[k] in dir;
      }
    }
  }

  // ---- the size of the backlog ----

  /** What Sizes adds up as backlog. */
  function Backlog(dir: seq<File<byte>>, p: Position): nat {
    if dir == [] then 0 else
      (if dir[0].gz || dir[0].day < p.day then 0
       else if dir[0].day > p.day then |dir[0].content|
       else if |dir[0].content| > p.offset then |dir[0].content| - p.offset else 0) + Backlog(dir[1..], p)
  }

  /** The backlog is the length of what the reader has left, unless the offset lies past the end of its file. */
  lemma {:induction false} BacklogIsRest(dir: seq<File<byte>>, p: Position)
    ensures Backlog(dir, p) <= |Rest(dir, p)|
    ensures Backlog(dir, p) == |Rest(dir, p)| <==>
            forall k :: 0 <= k < |dir| && IsCurrent(dir[k], p.day) && p.offset > |dir[k].content| ==>
                dir[k].content == []
  {
    if dir != [] {
      var more := dir[1..];
      BacklogIsRest(more, p);
      assert forall k :: 0 <= k < |more| ==> more[k] == dir[k + 1];
      if Backlog(more, p) != |Rest(more, p)| {
        var k :| 0 <= k < |more| && IsCurrent(more[k], p.day) && p.offset > |more[k].content| && more[k].content != [];
        assert dir[k + 1] == more[k];
      }
    }
  }

  lemma FittingBacklog(dir: seq<File<byte>>, p: Position)
    requires Fits(dir, p)
    ensures Backlog(dir, p) == |Rest(dir, p)|
  {
    BacklogIsRest(dir, p);
  }

  /** The agent is idle exactly when the backlog is 0, if every line can be delivered. */
  lemma BacklogMatchesReader(valid: seq<byte> -> bool, dir: seq<File<byte>>, p: Position)
    requires AllComplete(dir) && Fits(dir, p)
    requires forall l :: l in Unread(dir, p) ==> Deliverable(valid, l)
    ensures Backlog(dir, p) == 0 <==> UnreadRecords(valid, dir, p) == []
  {
    FittingBacklog(dir, p);
    RestComplete(dir, p);
    NoLines(Rest(dir, p));
    AllDeliverable(valid, Unread(dir, p));
  }

  /** A line appended adds its length to the backlog of every position not past the writer's file. */
  lemma AppendBacklog(dir: seq<File<byte>>, k: nat, line: Line, p: Position)
    requires k < |dir| && IsNewestPlain(dir, k) && Fits(dir, p) && line != [] && p.day <= dir[k].day
    ensures Backlog(Grown(dir, k, line), p) == Backlog(dir, p) + |line|
  {
    RestGrow(dir, k, line, p);
    FittingBacklog(dir, p);
    FittingBacklog(Grown(dir, k, line), p);
  }

  /** Committing a later position takes from the backlog the bytes that were passed, which came first. */
  lemma CommitBacklog(dir: seq<File<byte>>, p: Position, q: Position)
    requires Listing(dir) && p.AtMost(q) && Fits(dir, p) && Fits(dir, q)
    ensures Backlog(dir, q) <= Backlog(dir, p) <= |Rest(dir, p)|
    ensures Rest(dir, p) == Rest(dir, p)[..Backlog(dir, p) - Backlog(dir, q)] + Rest(dir, q)
  {
    hide Rest, Backlog, Listing, PlainOrdered, Fits;
    ListingIsOrdered(dir);
    RestSuffix(dir, p, q);
    FittingBacklog(dir, p);
    FittingBacklog(dir, q);
  }
}
