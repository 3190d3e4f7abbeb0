/**
 writeFileAtomic (internal/agent/spool.go): temporary file, fsync, rename. The process may be killed
 before any of its steps, and any step may fail.
 */
module OffsetStore {

  import opened Options
  import Lines

  type Bytes = seq<Lines.byte>

  /** The steps in their order; a kill comes before one of them or not at all. */
  datatype Step = Open | Write | Sync | Close | Rename | SyncDir | Never

  /** What fails, how much of the data a failed or interrupted write leaves, and where a kill comes. */
  datatype Io = Io(failing: set<Step>, written: nat, removeFails: bool, kill: Step)

  datatype End = Done | Error | Killed

  class Store {
    var file: Option<Bytes>
    var tmp: Option<Bytes>

    constructor (file: Option<Bytes>)
      ensures this.file == file && tmp == None
    {
      this.file, tmp := file, None;
    }

    /** A kill during the write leaves a torn temporary file; nothing but the rename touches the file itself. */
    method WriteFileAtomic(data: Bytes, io: Io) returns (end: End)
      modifies this
      ensures file == Some(data) || file == old(file)
      ensures end == Done ==> file == Some(data) && tmp == None
      ensures end == Error ==> file == old(file)
      ensures end == Killed && file != old(file) ==> file == Some(data) && tmp == None
      ensures end == Done <==> io.kill == Never && io.failing !! {Open, Write, Sync, Close, Rename}
      ensures io.kill == Never ==> end != Killed
    {
      if io.kill == Open {
        return Killed;
      }
      if Open in io.failing {
        return Error;
      }
      tmp := Some([]);
      var torn := if io.written < |data| then data[..io.written] else data;
      if io.kill == Write {
        tmp := Some(torn);
        return Killed;
      }
      var failed := Write in io.failing;
      tmp := Some(if failed then torn else data);
      if io.kill == Sync {
        return Killed;
      }
      if !failed && Sync in io.failing {
        failed := true;
      }
      if io.kill == Close {
        return Killed;
      }
      if !failed && Close in io.failing {
        failed := true;
      }
      if io.kill == Rename {
        return Killed;
      }
      if !failed && Rename !in io.failing {
        file, tmp := tmp, None;
        return if io.kill == SyncDir then Killed else Done;
      }
      if !io.removeFails {
        tmp := None;
      }
      return Error;
    }

    /**
     A whole history of writes, kills and restarts: the file holds what it held before or one of the data
     written, whole, and never data older than the last write that was done.
     */
    method WriteAll(writes: seq<(Bytes, Io)>) returns (ends: seq<End>)
      modifies this
      ensures |ends| == |writes|
      ensures Holds(file, old(file), writes, ends)
    {
      ends := [];
      ghost var before := file;
      ghost var from := -1;
      for i := 0 to |writes|
        invariant |ends| == i && -1 <= from < i
        invariant if from < 0 then file == before else file == Some(writes[from].0)
        invariant forall j :: from < j < i ==> ends[j] != Done
      {
        ghost var was := file;
        var end := WriteFileAtomic(writes[i].0, writes[i].1);
        ends := ends + [end];
        if file != was || end == Done {
          from := i;
        }
      }
      HoldsFrom(file, before, writes, ends, from);
    }
  }

  ghost predicate Holds(file: Option<Bytes>, before: Option<Bytes>, writes: seq<(Bytes, Io)>, ends: seq<End>)
    requires |ends| == |writes|
  {
    exists from :: -1 <= from < |writes| && HeldFrom(file, before, writes, ends, from)
  }

  predicate HeldFrom(file: Option<Bytes>, before: Option<Bytes>, writes: seq<(Bytes, Io)>, ends: seq<End>, from: int)
    requires |ends| == |writes| && -1 <= from < |writes|
  {
    && (if from < 0 then file == before else file == Some(writes[from].0))
    && forall j :: from < j < |ends| ==> ends[j] != Done
  }

  lemma HoldsFrom(file: Option<Bytes>, before: Option<Bytes>, writes: seq<(Bytes, Io)>, ends: seq<End>, from: int)
    requires |ends| == |writes| && -1 <= from < |writes| && HeldFrom(file, before, writes, ends, from)
    ensures Holds(file, before, writes, ends)
  {
  }

  /** If the last write is done, a restart finds exactly what it wrote. */
  lemma LastDone(file: Option<Bytes>, before: Option<Bytes>, writes: seq<(Bytes, Io)>, ends: seq<End>)
    requires |ends| == |writes| > 0 && ends[|ends| - 1] == Done && Holds(file, before, writes, ends)
    ensures file == Some(writes[|writes| - 1].0)
  {
    var from :| -1 <= from < |writes| && HeldFrom(file, before, writes, ends, from);
  }
}
