/** Every removal of the spool's Cleanup is one the step machine allows, and the machine allows no others. */
module Removals {
  import opened Lines
  import opened SpoolModel
  import opened SpoolBytes
  import opened Cleaning
  import P = Pipeline

  /** The file goes by age, or as one of the first `n` of those left, by size. */
  ghost predicate GoesIn(files: seq<File<byte>>, kept: seq<File<byte>>, at: seq<nat>, n: nat, f: File<byte>,
                         cutoff: nat, maxBytes: int, current: nat, stuck: set<Name>) {
    && Listing(files) && (current > 0 ==> HasPlain(files, current)) && f in files
    && KeptInOrder(files, kept, at, cutoff, current, stuck) && SizeCut(kept, n, maxBytes, current, stuck)
    && n <= |kept| && f !in kept[n..]
  }

  lemma CurrentKept(files: seq<File<byte>>, kept: seq<File<byte>>, at: seq<nat>, cutoff: nat, current: nat,
                    stuck: set<Name>) returns (i: nat)
    requires KeptInOrder(files, kept, at, cutoff, current, stuck) && HasPlain(files, current)
    ensures i < |kept| && !kept[i].gz && kept[i].day == current
  {
    var j: nat :| j < |files| && !files[j].gz && files[j].day == current;
    assert j in at;
    i :| i < |at| && at[i] == j;
  }

  lemma ByAge(files: seq<File<byte>>, kept: seq<File<byte>>, at: seq<nat>, f: File<byte>, cutoff: nat, current: nat,
              stuck: set<Name>)
    requires KeptInOrder(files, kept, at, cutoff, current, stuck) && f in files && f !in kept
    ensures f.day < cutoff && (f.gz || f.day != current)
  {
    var j: nat :| j < |files| && files[j] == f;
    AtKept(files, kept, at, j, cutoff, current, stuck);
  }

  lemma AtKept(files: seq<File<byte>>, kept: seq<File<byte>>, at: seq<nat>, j: nat, cutoff: nat, current: nat,
               stuck: set<Name>)
    requires KeptInOrder(files, kept, at, cutoff, current, stuck) && j < |files|
    ensures j in at ==> files[j] in kept
  {
    if j in at {
      var m: nat :| m < |at| && at[m] == j;
      assert kept[m] == files[j];
    }
  }

  lemma BySize(files: seq<File<byte>>, kept: seq<File<byte>>, at: seq<nat>, n: nat, m: nat, cutoff: nat, maxBytes: int,
               current: nat, stuck: set<Name>)
    requires Listing(files) && (current > 0 ==> HasPlain(files, current)) && m < n
    requires KeptInOrder(files, kept, at, cutoff, current, stuck) && SizeCut(kept, n, maxBytes, current, stuck)
    ensures kept[m].gz || kept[m].day != current
    ensures current > 0 ==> kept[m].day < current
  {
    if current > 0 {
      var i := CurrentKept(files, kept, at, cutoff, current, stuck);
      assert i != m;
      assert Before(files[at[m]], files[at[i]]);
    }
  }

  /** Whatever Cleanup takes away, by age or by size, the machine's janitor may remove. */
  lemma RemovedMay(files: seq<File<byte>>, kept: seq<File<byte>>, at: seq<nat>, n: nat, f: File<byte>, cutoff: nat,
                   maxBytes: int, current: nat, stuck: set<Name>)
    requires GoesIn(files, kept, at, n, f, cutoff, maxBytes, current, stuck)
    ensures P.MayRemove(P.Cleaning(current, cutoff), f)
  {
    hide KeptInOrder, SizeCut, Listing, HasPlain;
    CutWithin(kept, n, maxBytes, current, stuck);
    if f !in kept {
      ByAge(files, kept, at, f, cutoff, current, stuck);
    } else {
      var m: nat :| m < |kept| && kept[m] == f;
      InTail(kept, n, m);
      BySize(files, kept, at, n, m, cutoff, maxBytes, current, stuck);
    }
  }

  lemma InTail(kept: seq<File<byte>>, n: nat, m: nat)
    requires n <= |kept| && m < |kept|
    ensures n <= m ==> kept[m] in kept[n..]
  {
    if n <= m {
      assert kept[n..][m - n] == kept[m];
    }
  }

  lemma CutWithin(kept: seq<File<byte>>, n: nat, maxBytes: int, current: nat, stuck: set<Name>)
    requires SizeCut(kept, n, maxBytes, current, stuck)
    ensures n <= |kept|
  {
  }

  /** And whatever it may remove goes in some Cleanup with this cutoff and current name. */
  lemma MayBeRemoved(f: File<byte>, cutoff: nat, current: nat)
    returns (files: seq<File<byte>>, kept: seq<File<byte>>, at: seq<nat>, n: nat, maxBytes: int)
    requires P.MayRemove(P.Cleaning(current, cutoff), f)
    ensures GoesIn(files, kept, at, n, f, cutoff, maxBytes, current, {}) && maxBytes >= 0
  {
    hide GoesIn;
    var other: File<byte> := File(if current == 0 then f.day + cutoff + 1 else current, false, [NL]);
    if f.day >= cutoff {
      files, kept, at, n, maxBytes := [f, other], [f, other], [0, 1], if current == 0 then 2 else 1, 0;
      GoesBySize(f, other, cutoff, current);
    } else if Before(f, other) {
      files, kept, at, n, maxBytes := [f, other], [other], [1], 0, 1;
      GoesByAge(f, other, cutoff, current);
    } else {
      files, kept, at, n, maxBytes := [other, f], [other], [0], 0, 1;
      GoesByAge(f, other, cutoff, current);
    }
  }

  lemma GoesBySize(f: File<byte>, other: File<byte>, cutoff: nat, current: nat)
    requires P.MayRemove(P.Cleaning(current, cutoff), f) && f.day >= cutoff
    requires other == File(if current == 0 then f.day + cutoff + 1 else current, false, [NL])
    ensures GoesIn([f, other], [f, other], [0, 1], if current == 0 then 2 else 1, f, cutoff, 0, current, {})
  {
    hide KeptInOrder, SizeCut, Listing;
    BothKept(f, other, cutoff, current);
    BothListed(f, other);
    FirstCut(f, other, if current == 0 then 2 else 1, current);
    assert [f, other][1] == other;
  }

  lemma BothKept(f: File<byte>, other: File<byte>, cutoff: nat, current: nat)
    requires f.day >= cutoff && (other.day >= cutoff || (!other.gz && other.day == current))
    ensures KeptInOrder([f, other], [f, other], [0, 1], cutoff, current, {})
  {
    var at: seq<nat> := [0, 1];
    assert at[0] == 0 && at[1] == 1;
  }

  lemma BothListed(f: File<byte>, other: File<byte>)
    requires Before(f, other)
    ensures Listing([f, other])
  {
  }

  lemma FirstCut(f: File<byte>, other: File<byte>, n: nat, current: nat)
    requires |other.content| == 1 && !other.gz && 1 <= n <= 2 && (n == 1 ==> other.day == current)
    requires (f.gz || f.day != current) && (n == 2 ==> other.day != current)
    ensures SizeCut([f, other], n, 0, current, {}) && (f != other ==> f !in [f, other][n..])
  {
    var files := [f, other];
    assert files[0..] == files && files[1..] == [other] && files[2..] == [];
    assert TotalSize([other]) == 1 && TotalSize(files) == |f.content| + TotalSize(files[1..]);
  }

  lemma GoesByAge(f: File<byte>, other: File<byte>, cutoff: nat, current: nat)
    requires P.MayRemove(P.Cleaning(current, cutoff), f) && f.day < cutoff
    requires other == File(if current == 0 then f.day + cutoff + 1 else current, false, [NL])
    ensures Before(f, other) ==> GoesIn([f, other], [other], [1], 0, f, cutoff, 1, current, {})
    ensures !Before(f, other) ==> GoesIn([other, f], [other], [0], 0, f, cutoff, 1, current, {})
  {
    assert [f, other][1] == other && [other, f][0] == other && [other][0..] == [other];
    assert TotalSize([other]) == 1;
  }
}
