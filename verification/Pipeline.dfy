/**
 Receiver, forwarder, janitor, network and collector as one interleaved step machine.

 A spool file holds one number per line: the index of that line in `history`, the list of every
 line ever appended. `offset` therefore counts lines here. The receiver holds wmu for one Append;
 the reader holds pmu from StartRead to FinishRead, and appends run in between its file reads.
 A kill may come at any step. A request once posted may be served late, repeatedly or never.
 */
module Pipeline {
  import opened SpoolModel
  import C = Collector

  /** Where the forwarder goroutine stands; after a batch is settled, `n` lines are still to be counted. */
  datatype Forwarder =
    | Idle
    | Reading(max: nat, partial: bool, names: seq<nat>, pos: Position, got: seq<nat>, eof: bool)
    | Delivering(batch: string, ids: seq<nat>, end: Position)
    | Persisting(n: nat, dead: bool)
    | Counting(n: nat, dead: bool)

  datatype Janitor =
    | Resting
    | Cleaning(current: nat, cutoff: nat)
    | Compressing(days: set<nat>)

  /**
   Stats of one run; `left` is the number of unread lines at start-up, `appended` that of the lines that
   went into the spool, and `unsynced` that of those among them whose fsync failed.
   */
  datatype Counters = Counters(left: nat, appended: nat, forwarded: nat, deadLettered: nat, dropped: nat,
                               received: nat, writeErrors: nat, unsynced: nat)

  /**
   Memory of the running agent; `name` is curName, 0 before the first open. `uncounted` holds the lines
   that a Cleanup under way has removed: their number is its local count, which goes into the counters
   only after it has returned.
   */
  datatype Process = Process(open: bool, name: nat, committed: Position, inflight: Position,
                             fwd: Forwarder, janitor: Janitor, uncounted: seq<nat>, counters: Counters)

  datatype Agent = Down | Up(p: Process)

  datatype Post = Post(batch: string, ids: seq<nat>)

  /**
   `high` is the newest file ever opened and `disk` what OpenSpool would load from the offset file.
   `served`, `dead` and `dropped` collect the lines the collector has processed, a dead-letter file
   has received, and the dropped counter has counted; `taken` those that a removal has ever taken from
   the unread ones, counted or not.
   */
  datatype World = World(me: string, history: seq<C.Event>, dir: seq<File<nat>>, high: nat, disk: Position,
                         agent: Agent, posts: set<Post>, db: C.Db,
                         served: set<nat>, dead: set<nat>, dropped: set<nat>, taken: set<nat>)

  /** `synced` is false when the line was written and the fsync after it failed. */
  datatype WriteResult = OpenFails | WriteFails | Written(synced: bool)

  datatype Action =
    | Append(day: nat, event: C.Event, result: WriteResult)
    | StartRead(max: nat, partial: bool)
    | ReadFile(k: nat)
    | NextFile
    | ReadFails
    | FinishRead(batch: string)
    | SendPost
    | Serve(post: Post)
    | ServeOther(r: C.Request)
    | Accept
    | Reject
    | Persist(ok: bool)
    | CountSettled
    | LookAtCurrent(cutoff: nat)
    | Remove(k: nat)
    | PickCompress
    | Compress(k: nat)
    | Report
    | Kill
    | Start(readable: bool)

  function Init(me: string): World {
    World(me, [], [], 0, START, Down, {}, C.EMPTY_DB, {}, {}, {}, {})
  }

  // ---- writer ----

  predicate MustOpen(p: Process, day: nat) {
    !p.open || day > p.name
  }

  function Target(dir: seq<File<nat>>, p: Process, day: nat): nat {
    WriterTarget(dir, p.open, p.name, day)
  }

  function Opened(dir: seq<File<nat>>, day: nat): (dir': seq<File<nat>>)
    ensures HasPlain(dir', day)
  {
    if HasPlain(dir, day) then dir else
      assert (dir + [File(day, false, [])])[|dir|].day == day;
      dir + [File(day, false, [])]
  }

  function WriterOpens(w: World, p: Process, day: nat): World {
    var t := Target(w.dir, p, day);
    w.(dir := Opened(w.dir, t), high := if t > w.high then t else w.high, agent := Up(p.(open := true, name := t)))
  }

  function WriterWrites(w: World, e: C.Event): World
    requires w.agent.Up? && HasPlain(w.dir, w.agent.p.name)
  {
    var p := w.agent.p;
    w.(history := w.history + [e],
       dir := Grown(w.dir, PlainIndex(w.dir, p.name), [|w.history|]))
  }

  /** What runReceiver counts for one datagram, and what it does not know. */
  function Tallied(c: Counters, result: WriteResult): Counters {
    var failed := if result == Written(true) then 0 else 1;
    c.(received := c.received + 1, writeErrors := c.writeErrors + failed,
       appended := c.appended + (if result.Written? then 1 else 0),
       unsynced := c.unsynced + (if result == Written(false) then 1 else 0))
  }

  function DoAppend(w: World, p: Process, day: nat, e: C.Event, result: WriteResult): World {
    var p' := p.(counters := Tallied(p.counters, result));
    match result
    case OpenFails => w.(agent := Up(if MustOpen(p, day) then p'.(open := false) else p'))
    case WriteFails => WriterOpens(w, p', day)
    case Written(_) => WriterWrites(WriterOpens(w, p', day), e)
  }

  // ---- reader ----

  predicate CanReadFile(w: World, f: Forwarder, k: nat) {
    && f.Reading? && !f.eof && |f.got| < f.max
    && Search(f.names, f.pos.day) < |f.names|
    && k < |w.dir| && !w.dir[k].gz && w.dir[k].day == f.names[Search(f.names, f.pos.day)]
  }

  /** readFrom over the content the file has at this moment. */
  function DoReadFile(w: World, f: Forwarder, k: nat): Forwarder
    requires CanReadFile(w, f, k)
  {
    var file := w.dir[k];
    var from := StartIn(file, f.pos);
    var n := if |file.content| - from < f.max - |f.got| then |file.content| - from else f.max - |f.got|;
    var got := f.got + file.content[from..from + n];
    f.(pos := Position(file.day, from + n), got := got, eof := |got| < f.max)
  }

  predicate CanNextFile(f: Forwarder) {
    f.Reading? && f.eof && Search(f.names, f.pos.day) + 1 < |f.names|
  }

  predicate CanFinish(f: Forwarder) {
    && f.Reading?
    && (|f.got| == f.max || (if f.eof then !CanNextFile(f) else Search(f.names, f.pos.day) == |f.names|))
  }

  predicate ReadyToDeliver(f: Forwarder) {
    f.Reading? && f.got != [] && (|f.got| == f.max || f.partial)
  }

  predicate FreshBatch(w: World, batch: string) {
    (w.me, batch) !in w.db.batches && forall post :: post in w.posts ==> post.batch != batch
  }

  // ---- network and collector ----

  function EventsOf(w: World, ids: seq<nat>): seq<C.Event> {
    seq(|ids|, i requires 0 <= i < |ids| =>
      if ids[i] < |w.history| then w.history[ids[i]] else C.Event("", "", "", true, C.NoId))
  }

  function RequestOf(w: World, post: Post): C.Request {
    C.Request(w.me, post.batch, EventsOf(w, post.ids))
  }

  // ---- settling a batch ----

  /** Spool.Commit in memory; the offset file follows in Persist, and the counter in CountSettled. */
  function Settled(p: Process, dead: bool): Process
    requires p.fwd.Delivering?
  {
    var end := p.fwd.end;
    p.(committed := end, inflight := if p.inflight.Less(end) then end else p.inflight,
       fwd := Persisting(|p.fwd.ids|, dead))
  }

  function CountedSettled(c: Counters, n: nat, dead: bool): Counters {
    if dead then c.(deadLettered := c.deadLettered + n) else c.(forwarded := c.forwarded + n)
  }

  // ---- cleanup ----

  function Later(p: Process): (q: Position)
    ensures (q == p.committed || q == p.inflight) && p.committed.AtMost(q) && p.inflight.AtMost(q)
  {
    if p.committed.Less(p.inflight) then p.inflight else p.committed
  }

  /** What the code itself checks before a removal: by age, or by size while only older files are in the way. */
  predicate MayRemove<U>(j: Janitor, f: File<U>) {
    j.Cleaning? && (f.gz || f.day != j.current) && (f.day < j.cutoff || j.current == 0 || f.day < j.current)
  }

  /** removeLocked: the file goes, and the count is Cleanup's own for now. */
  function DoRemove(w: World, p: Process, k: nat): World
    requires k < |w.dir|
  {
    var gone := Part(w.dir[k], Later(p));
    w.(dir := w.dir[..k] + w.dir[k + 1..], taken := w.taken + C.ToSet(gone),
       agent := Up(p.(uncounted := p.uncounted + gone)))
  }

  /** Cleanup has returned, and runJanitor adds its count to the dropped counter. */
  function DoReport(w: World, p: Process): World {
    w.(dropped := w.dropped + C.ToSet(p.uncounted),
       agent := Up(p.(janitor := Resting, uncounted := [],
                      counters := p.counters.(dropped := p.counters.dropped + |p.uncounted|))))
  }

  function ToCompress(w: World, p: Process, current: nat): (days: set<nat>)
    ensures forall d: nat :: d in days <==> d < p.committed.day && d != current && HasPlain(w.dir, d)
  {
    set k | 0 <= k < |w.dir| && !w.dir[k].gz && w.dir[k].day < p.committed.day && w.dir[k].day != current ::
      w.dir[k].day
  }

  // ---- restart ----

  /** An offset file that cannot be read stays as it is; the agent starts from the beginning. */
  function DoStart(w: World, readable: bool): World {
    var at := if readable then w.disk else START;
    w.(agent := Up(Process(false, 0, at, at, Idle, Resting, [], Counters(|Rest(w.dir, at)|, 0, 0, 0, 0, 0, 0, 0))))
  }

  // ---- hypotheses of the environment ----

  /** At the first open of a run the newest file ever used still exists, or the clock shows a later day. */
  predicate ClockFit(w: World, p: Process, day: nat) {
    day > 0 && (p.name != 0 || day > w.high || HasPlain(w.dir, w.high))
  }

  /** Cleanup does not take the writer's file for an old one: the name it looked up is not out of date in that way. */
  predicate CleanupFit(p: Process, f: File<nat>) {
    p.name != 0 ==> f.gz || f.day != p.name
  }

  // ---- steps ----

  predicate Enabled(w: World, a: Action) {
    if a.Serve? then a.post in w.posts
    else if a.ServeOther? then C.Uuid(a.r.agent) != w.me
    else if a.Start? then w.agent.Down?
    else w.agent.Up? && EnabledUp(w, w.agent.p, a)
  }

  predicate EnabledUp(w: World, p: Process, a: Action) {
    match a
    case Append(day, _, _) => ClockFit(w, p, day)
    case StartRead(max, _) => p.fwd.Idle? && max > 0
    case ReadFile(k) => CanReadFile(w, p.fwd, k)
    case NextFile => CanNextFile(p.fwd)
    case ReadFails => p.fwd.Reading?
    case FinishRead(batch) => CanFinish(p.fwd) && (ReadyToDeliver(p.fwd) ==> FreshBatch(w, batch))
    case SendPost => p.fwd.Delivering?
    case Accept => p.fwd.Delivering? && (w.me, p.fwd.batch) in w.db.batches
    case Reject => p.fwd.Delivering? && Post(p.fwd.batch, p.fwd.ids) in w.posts
    case Persist(_) => p.fwd.Persisting?
    case CountSettled => p.fwd.Counting?
    case LookAtCurrent(_) => p.janitor.Resting?
    case Remove(k) => k < |w.dir| && !p.fwd.Reading? && MayRemove(p.janitor, w.dir[k]) && CleanupFit(p, w.dir[k])
    case PickCompress => p.janitor.Cleaning? && !p.fwd.Reading?
    case Compress(k) => k < |w.dir| && !w.dir[k].gz && p.janitor.Compressing? && w.dir[k].day in p.janitor.days
    case Report => p.janitor.Compressing?
    case Kill => true
    case _ => false
  }

  function Apply(w: World, a: Action): World
    requires Enabled(w, a)
  {
    match a
    case Serve(post) => w.(db := C.Saved(w.db, RequestOf(w, post)), served := w.served + C.ToSet(post.ids))
    case ServeOther(r) => w.(db := C.Saved(w.db, r))
    case Start(readable) => DoStart(w, readable)
    case Kill => w.(agent := Down)
    case _ => ApplyUp(w, w.agent.p, a)
  }

  function ApplyUp(w: World, p: Process, a: Action): World
    requires w.agent.Up? && p == w.agent.p && EnabledUp(w, p, a)
  {
    match a
    case Append(day, e, result) => DoAppend(w, p, day, e, result)
    case StartRead(max, partial) =>
      w.(agent := Up(p.(fwd := Reading(max, partial, PlainDays(w.dir), p.committed, [], false))))
    case ReadFile(k) => w.(agent := Up(p.(fwd := DoReadFile(w, p.fwd, k))))
    case NextFile =>
      var next := p.fwd.names[Search(p.fwd.names, p.fwd.pos.day) + 1];
      w.(agent := Up(p.(fwd := p.fwd.(pos := Position(next, 0), eof := false))))
    case ReadFails => w.(agent := Up(p.(fwd := Idle)))
    case FinishRead(batch) =>
      if ReadyToDeliver(p.fwd)
      then w.(agent := Up(p.(inflight := p.fwd.pos, fwd := Delivering(batch, p.fwd.got, p.fwd.pos))))
      else w.(agent := Up(p.(fwd := Idle)))
    case SendPost => w.(posts := w.posts + {Post(p.fwd.batch, p.fwd.ids)})
    case Accept => w.(agent := Up(Settled(p, false)))
    case Reject => w.(dead := w.dead + C.ToSet(p.fwd.ids), agent := Up(Settled(p, true)))
    case Persist(ok) =>
      w.(disk := if ok then p.committed else w.disk, agent := Up(p.(fwd := Counting(p.fwd.n, p.fwd.dead))))
    case CountSettled =>
      w.(agent := Up(p.(fwd := Idle, counters := CountedSettled(p.counters, p.fwd.n, p.fwd.dead))))
    case LookAtCurrent(cutoff) => w.(agent := Up(p.(janitor := Cleaning(p.name, cutoff))))
    case Remove(k) => DoRemove(w, p, k)
    case PickCompress => w.(agent := Up(p.(janitor := Compressing(ToCompress(w, p, p.janitor.current)))))
    case Compress(k) => w.(dir := w.dir[k := w.dir[k].(gz := true)])
    case Report => DoReport(w, p)
    case _ => w
  }

  /** `acts` can be taken from `w`, one after another. */
  predicate Possible(w: World, acts: seq<Action>)
    decreases |acts|
  {
    acts == [] || (Enabled(w, acts[0]) && Possible(Apply(w, acts[0]), acts[1..]))
  }

  function Run(w: World, acts: seq<Action>): World
    requires Possible(w, acts)
    decreases |acts|
  {
    if acts == [] then w else Run(Apply(w, acts[0]), acts[1..])
  }
}
