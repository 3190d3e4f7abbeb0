/**
 The forwarder goroutine (internal/agent/forwarder.go) over a real spool: deliver, which settles one
 batch, and Run, which decides when to read one. What the collector, the clock and the disk do comes in
 as a script of attempts and turns.
 */
module Forwarder {
  import opened Lines
  import opened SpoolModel
  import opened SpoolBytes
  import S = Spool
  import B = Backoff

  datatype RetryAfter = NoDelay | After(seconds: real)

  datatype Response =
    | NoConnection
    | Status(code: nat, retryAfter: RetryAfter)

  /**
   One attempt: whether the context has ended when the post returns, what came back, whether writing a
   dead letter and the offset file works, the random number for the jitter, and whether the context ends
   during the wait.
   */
  datatype Attempt = Attempt(cancelled: bool, response: Response, deadLetterOk: bool, offsetOk: bool,
                             r: real, cancelledInWait: bool)

  datatype Post = Post(batch: string, events: seq<seq<byte>>)

  datatype Fate = Accepted | Refused | Retry | Quit

  /** What an attempt comes to. */
  function FateOf(a: Attempt): Fate {
    if a.cancelled then Quit
    else if a.response.NoConnection? then Retry
    else if 200 <= a.response.code < 300 then Accepted
    else if a.response.code == 429 then Retry
    else if 400 <= a.response.code < 500 then (if a.deadLetterOk then Refused else Retry)
    else Retry
  }

  /**
   What each answer comes to: a status from 200 to 299 accepts the batch, one from 400 to 499 other than 429
   refuses it if the dead letter is written, and with everything else it is tried again.
   */
  lemma FateExactly(a: Attempt)
    ensures FateOf(a).Quit? <==> a.cancelled
    ensures FateOf(a).Accepted? <==> !a.cancelled && a.response.Status? && 200 <= a.response.code < 300
    ensures FateOf(a).Refused? <==>
              && !a.cancelled && a.response.Status? && 400 <= a.response.code < 500
              && a.response.code != 429 && a.deadLetterOk
  {
  }

  /** Another attempt follows. */
  predicate GoesOn(a: Attempt) {
    FateOf(a) == Retry && !a.cancelledInWait
  }

  /** The number of attempts made: those before the first that ends it, and that one. */
  function Made(attempts: seq<Attempt>): (n: nat)
    ensures n <= |attempts|
    ensures forall i :: 0 <= i < n - 1 ==> GoesOn(attempts[i])
    ensures n < |attempts| ==> n > 0
    ensures n > 0 && GoesOn(attempts[n - 1]) ==> n == |attempts|
  {
    if attempts == [] then 0
    else if GoesOn(attempts[0]) then 1 + Made(attempts[1..])
    else 1
  }

  /** How it ends: `Retry` when the script is over first. */
  function Ending(attempts: seq<Attempt>): Fate {
    var n := Made(attempts);
    if n == 0 then Retry
    else if FateOf(attempts[n - 1]) == Retry && attempts[n - 1].cancelledInWait then Quit
    else FateOf(attempts[n - 1])
  }

  /** The collector says how long to wait. */
  predicate Dictated(a: Attempt) {
    a.response.Status? && a.response.code == 429 && a.response.retryAfter.After?
  }

  /** The random number of an attempt, if its wait is drawn from the backoff. */
  function DrawOf(a: Attempt): (d: seq<real>)
    ensures |d| <= 1
  {
    if FateOf(a) == Retry && !Dictated(a) then [a.r] else []
  }

  function Draws(attempts: seq<Attempt>): seq<real> {
    if attempts == [] then []
    else Draws(attempts[..|attempts| - 1]) + DrawOf(attempts[|attempts| - 1])
  }

  function Copies<T>(x: T, n: nat): (s: seq<T>)
    ensures |s| == n && forall i :: 0 <= i < n ==> s[i] == x
  {
    seq(n, _ => x)
  }

  lemma CopiesStep<T>(before: seq<T>, x: T, n: nat)
    ensures before + Copies(x, n) + [x] == before + Copies(x, n + 1)
  {
    assert Copies(x, n) + [x] == Copies(x, n + 1);
  }

  lemma MadeStep(attempts: seq<Attempt>, i: nat)
    requires i < |attempts| && forall j :: 0 <= j < i ==> GoesOn(attempts[j])
    ensures !GoesOn(attempts[i]) ==> Made(attempts) == i + 1
    ensures GoesOn(attempts[i]) && i + 1 == |attempts| ==> Made(attempts) == i + 1
  {
  }

  lemma NoAttempt(attempts: seq<Attempt>, post: Post)
    ensures Copies(post, 0) == [] && Draws(attempts[..0]) == []
    ensures forall attempt :: WaitsOf(attempt, []) == []
    ensures attempts == [] ==> Made(attempts) == 0
  {
  }

  lemma DrawsStep(attempts: seq<Attempt>, i: nat)
    requires i < |attempts|
    ensures attempts[..i + 1] == attempts[..i] + [attempts[i]]
    ensures Draws(attempts[..i + 1]) == Draws(attempts[..i]) + DrawOf(attempts[i])
  {
    assert attempts[..i + 1][..i] == attempts[..i];
  }

  /** How long an attempt waits, if it waits: what the collector says, or what the backoff draws after `drawn` draws. */
  function WaitOf(drawn: nat, a: Attempt): seq<real>
    requires 0.0 <= a.r < 1.0
  {
    if FateOf(a) != Retry then []
    else if Dictated(a) then [a.response.retryAfter.seconds]
    else [B.Jitter(B.StepAt(drawn), a.r)]
  }

  /** All waits of a delivery, when `attempt` draws were made before it. */
  function WaitsOf(attempt: nat, attempts: seq<Attempt>): seq<real>
    requires Drawn(attempts)
  {
    if attempts == [] then []
    else
      var init := attempts[..|attempts| - 1];
      WaitsOf(attempt, init) + WaitOf(attempt + |Draws(init)|, attempts[|attempts| - 1])
  }

  lemma WaitsOfStep(attempt: nat, attempts: seq<Attempt>, i: nat)
    requires Drawn(attempts) && i < |attempts|
    ensures WaitsOf(attempt, attempts[..i + 1]) ==
            WaitsOf(attempt, attempts[..i]) + WaitOf(attempt + |Draws(attempts[..i])|, attempts[i])
  {
    assert attempts[..i + 1][..i] == attempts[..i];
  }

  /** The attempts before `n` whose wait the collector does not dictate. */
  function DrawnBefore(attempts: seq<Attempt>, n: nat): (s: set<nat>)
    requires n <= |attempts|
    ensures forall j: nat :: j in s <==>
              j < n && match attempts[j].response
                       case Status(429, After(_)) => false
                       case _ => true
  {
    set j: nat | j < n && !Dictated(attempts[j])
  }

  lemma {:induction false} DrawsCount(attempts: seq<Attempt>, n: nat)
    requires n <= |attempts| && forall i :: 0 <= i < n ==> FateOf(attempts[i]).Retry?
    ensures |Draws(attempts[..n])| == |DrawnBefore(attempts, n)|
  {
    if n == 0 {
      assert attempts[..0] == [] && DrawnBefore(attempts, 0) == {};
    } else {
      DrawsCount(attempts, n - 1);
      DrawsStep(attempts, n - 1);
      var before, upTo := DrawnBefore(attempts, n - 1), DrawnBefore(attempts, n);
      assert Dictated(attempts[n - 1]) ==> upTo == before;
      assert !Dictated(attempts[n - 1]) ==> upTo == before + {n - 1};
    }
  }

  /** The waits of attempts that all wait, one by one. */
  lemma {:induction false} WaitsExactly(attempt: nat, attempts: seq<Attempt>, n: nat)
    requires Drawn(attempts) && n <= |attempts| && forall i :: 0 <= i < n ==> FateOf(attempts[i]).Retry?
    ensures var waits := WaitsOf(attempt, attempts[..n]);
            |waits| == n && forall i :: 0 <= i < n ==> waits[i] == WaitAt(attempt, attempts, i)
  {
    hide WaitsOf, FateOf, Draws, DrawnBefore, WaitAt, Drawn;
    if n == 0 {
      NoWaits(attempt);
      assert attempts[..0] == [];
    } else {
      WaitsExactly(attempt, attempts, n - 1);
      WaitsOfStep(attempt, attempts, n - 1);
      WaitExactly(attempt, attempts, n - 1);
    }
  }

  lemma WaitExactly(attempt: nat, attempts: seq<Attempt>, i: nat)
    requires Drawn(attempts) && i < |attempts| && forall j :: 0 <= j <= i ==> FateOf(attempts[j]).Retry?
    ensures 0.0 <= attempts[i].r < 1.0
    ensures WaitOf(attempt + |Draws(attempts[..i])|, attempts[i]) == [WaitAt(attempt, attempts, i)]
  {
    hide Draws, DrawnBefore;
    DrawsCount(attempts, i);
    assert attempts[i] in attempts;
  }

  /** The wait after the failed attempt `i`. */
  function WaitAt(attempt: nat, attempts: seq<Attempt>, i: nat): (wait: real)
    requires i < |attempts| && Drawn(attempts)
    ensures wait == match attempts[i].response
              case Status(429, After(seconds)) => seconds
              case _ => B.Jitter(B.StepAt(attempt + |DrawnBefore(attempts, i)|), attempts[i].r)
  {
    var a := attempts[i];
    if Dictated(a) then a.response.retryAfter.seconds
    else B.Jitter(B.StepAt(attempt + |DrawnBefore(attempts, i)|), a.r)
  }

  /** What a script of attempts comes to, by the answers alone. */
  lemma EndingExactly(attempts: seq<Attempt>)
    requires attempts != []
    ensures var n := Made(attempts);
            && n > 0
            && (forall i :: 0 <= i < n - 1 ==> FateOf(attempts[i]).Retry? && !attempts[i].cancelledInWait)
            && (n < |attempts| ==> FateOf(attempts[n - 1]).Retry? ==> attempts[n - 1].cancelledInWait)
            && Ending(attempts) == (if FateOf(attempts[n - 1]).Retry? && attempts[n - 1].cancelledInWait then Quit
                                    else FateOf(attempts[n - 1]))
  {
  }

  lemma {:induction false} WaitsMade(attempt: nat, attempts: seq<Attempt>)
    requires Drawn(attempts) && attempts != []
    ensures var n := Made(attempts);
            var waits := WaitsOf(attempt, attempts[..n]);
            && n > 0 && |waits| == n - (if FateOf(attempts[n - 1]).Retry? then 0 else 1)
            && forall i :: 0 <= i < |waits| ==> waits[i] == WaitAt(attempt, attempts, i)
  {
    hide WaitsOf, FateOf, Draws, DrawnBefore, WaitAt, Drawn, Made;
    EndingExactly(attempts);
    var n := Made(attempts);
    if FateOf(attempts[n - 1]).Retry? {
      WaitsExactly(attempt, attempts, n);
    } else {
      WaitsExactly(attempt, attempts, n - 1);
      WaitsOfStep(attempt, attempts, n - 1);
      NoWait(attempt, attempts, n - 1);
    }
  }

  lemma NoWait(attempt: nat, attempts: seq<Attempt>, i: nat)
    requires Drawn(attempts) && i < |attempts| && !FateOf(attempts[i]).Retry?
    ensures 0.0 <= attempts[i].r < 1.0 && WaitOf(attempt + |Draws(attempts[..i])|, attempts[i]) == []
  {
    assert attempts[i] in attempts;
  }

  /** The same over the answers themselves. */
  lemma DeliveryExactly(attempt: nat, attempts: seq<Attempt>)
    requires Drawn(attempts)
    ensures Made(attempts) == 0 <==> attempts == []
    ensures attempts == [] ==> Ending(attempts).Retry?
    ensures forall i :: 0 <= i < Made(attempts) - 1 ==>
              var a := attempts[i];
              && !a.cancelled && !a.cancelledInWait
              && !(a.response.Status? && 200 <= a.response.code < 300)
              && !(&& a.response.Status? && 400 <= a.response.code < 500 && a.response.code != 429 && a.deadLetterOk)
    ensures attempts != [] ==>
              var n := Made(attempts);
              var a := attempts[n - 1];
              var accepted := !a.cancelled && a.response.Status? && 200 <= a.response.code < 300;
              var refused := && !a.cancelled && a.response.Status? && 400 <= a.response.code < 500
                             && a.response.code != 429 && a.deadLetterOk;
              var settles := accepted || refused;
              var waits := WaitsOf(attempt, attempts[..n]);
              && (n < |attempts| ==> settles || a.cancelled || a.cancelledInWait)
              && (Ending(attempts).Accepted? <==> accepted) && (Ending(attempts).Refused? <==> refused)
              && (Ending(attempts).Quit? <==> !settles && (a.cancelled || a.cancelledInWait))
              && |waits| == n - (if settles || a.cancelled then 1 else 0)
              && forall i :: 0 <= i < |waits| ==> waits[i] == WaitAt(attempt, attempts, i)
  {
    hide FateOf, WaitsOf, Made, Ending, WaitAt, Drawn;
    if attempts == [] {
      assert Made(attempts) == 0;
      NoEnding();
    } else {
      EndingExactly(attempts);
      WaitsMade(attempt, attempts);
      FateExactly(attempts[Made(attempts) - 1]);
      forall i | 0 <= i < Made(attempts) - 1
        ensures var a := attempts[i];
                && !a.cancelled
                && !(a.response.Status? && 200 <= a.response.code < 300)
                && !(&& a.response.Status? && 400 <= a.response.code < 500 && a.response.code != 429 && a.deadLetterOk)
      {
        FateExactly(attempts[i]);
      }
    }
  }

  lemma NoEnding()
    ensures Ending([]).Retry?
  {
  }

  predicate Undictated(attempts: seq<Attempt>) {
    forall a :: a in attempts ==> !Dictated(a)
  }

  /** If the collector dictates none of them, they are consecutive waits of the backoff. */
  lemma {:induction false} UndictatedWaits(attempt: nat, attempts: seq<Attempt>)
    requires Drawn(attempts) && Undictated(attempts)
    ensures B.Random(Draws(attempts)) && WaitsOf(attempt, attempts) == B.Waits(attempt, Draws(attempts))
  {
    hide *;
    if attempts == [] {
      NoWaits(attempt);
    } else {
      var init, a := attempts[..|attempts| - 1], attempts[|attempts| - 1];
      InitAndLast(attempt, attempts);
      UndictatedWaits(attempt, init);
      WaitsStep(attempt, Draws(init), a);
      UndictatedWait(attempt + |Draws(init)|, a);
    }
  }

  lemma InitAndLast(attempt: nat, attempts: seq<Attempt>)
    requires Drawn(attempts) && Undictated(attempts) && attempts != []
    ensures var init, a := attempts[..|attempts| - 1], attempts[|attempts| - 1];
            && Drawn(init) && Undictated(init) && !Dictated(a) && 0.0 <= a.r < 1.0
            && WaitsOf(attempt, attempts) == WaitsOf(attempt, init) + WaitOf(attempt + |Draws(init)|, a)
            && Draws(attempts) == Draws(init) + DrawOf(a)
  {
  }

  lemma NoWaits(attempt: nat)
    ensures B.Random([]) && B.Waits(attempt, []) == [] == WaitsOf(attempt, []) && Draws([]) == []
  {
  }

  lemma UndictatedWait(drawn: nat, a: Attempt)
    requires 0.0 <= a.r < 1.0 && !Dictated(a)
    ensures B.Random(DrawOf(a)) && WaitOf(drawn, a) == B.Waits(drawn, DrawOf(a))
  {
    var waits := WaitOf(drawn, a);
    assert B.Random(DrawOf(a));
    assert |waits| == |B.Waits(drawn, DrawOf(a))|;
  }

  predicate Drawn(attempts: seq<Attempt>) {
    forall a :: a in attempts ==> 0.0 <= a.r < 1.0
  }

  lemma {:induction false} DrawsRandom(attempts: seq<Attempt>)
    requires Drawn(attempts)
    ensures B.Random(Draws(attempts))
  {
    if attempts != [] {
      DrawsRandom(attempts[..|attempts| - 1]);
    }
  }

  /** The waits drawn so far, and one more. */
  lemma WaitsStep(attempt: nat, draws: seq<real>, a: Attempt)
    requires B.Random(draws) && 0.0 <= a.r < 1.0
    ensures B.Random(DrawOf(a)) && B.Random(draws + DrawOf(a))
    ensures B.Waits(attempt, draws + DrawOf(a)) == B.Waits(attempt, draws) + B.Waits(attempt + |draws|, DrawOf(a))
  {
    if DrawOf(a) == [] {
      assert draws + [] == draws;
    } else {
      B.WaitsSnoc(attempt, draws, a.r);
    }
  }

  /** A batch is settled: the collector has it, or a dead-letter file. */
  predicate Settles(f: Fate) {
    f.Accepted? || f.Refused?
  }

  // ---- the loop of Run ----

  datatype Wake = Timer | Notified | Stop

  /** A datagram: its day, its line, and what opening and writing do. */
  datatype Arrival = Arrival(day: nat, line: Line, openIo: S.OpenIo, writeIo: S.WriteIo)

  /** The lines of the arrivals that were written, in order; for any other the open failed or the write. */
  predicate LandedOf(arrivals: seq<Arrival>, landed: seq<Line>)
    decreases |arrivals|
  {
    if arrivals == [] then landed == []
    else
      var n, m := |arrivals| - 1, |landed| - 1;
      var a := arrivals[n];
      || (a.writeIo.Full? && m >= 0 && landed[m] == a.line && LandedOf(arrivals[..n], landed[..m]))
      || (!(a.openIo.OpenOk? && a.writeIo.Full?) && LandedOf(arrivals[..n], landed))
  }

  lemma NothingLanded(arrivals: seq<Arrival>)
    ensures LandedOf(arrivals[..0], [])
  {
  }

  lemma LandedOn(arrivals: seq<Arrival>, landed: seq<Line>, i: nat, one: seq<Line>)
    requires i < |arrivals| && LandedOf(arrivals[..i], landed)
    requires (one == [arrivals[i].line] && arrivals[i].writeIo.Full?)
          || (one == [] && !(arrivals[i].openIo.OpenOk? && arrivals[i].writeIo.Full?))
    ensures LandedOf(arrivals[..i + 1], landed + one)
  {
    var upTo := arrivals[..i + 1];
    assert upTo[..i] == arrivals[..i] && upTo[i] == arrivals[i];
    assert one == [] ==> landed + one == landed;
    assert one != [] ==> (landed + one)[..|landed|] == landed;
  }

  lemma {:induction false} LandedJoin(a: seq<Arrival>, landed: seq<Line>, b: seq<Arrival>, more: seq<Line>)
    requires LandedOf(a, landed) && LandedOf(b, more)
    ensures LandedOf(a + b, landed + more)
    decreases |b|
  {
    if b == [] {
      assert a + b == a && landed + more == landed;
    } else {
      var n, m := |b| - 1, |more| - 1;
      assert (a + b)[..|a + b| - 1] == a + b[..n] && (a + b)[|a + b| - 1] == b[n];
      if b[n].writeIo.Full? && m >= 0 && more[m] == b[n].line && LandedOf(b[..n], more[..m]) {
        LandedJoin(a, landed, b[..n], more[..m]);
        assert (landed + more)[..|landed| + m] == landed + more[..m];
      } else {
        LandedJoin(a, landed, b[..n], more);
      }
    }
  }

  predicate Arrives(a: Arrival) {
    a.day > 0 && IsLine(a.line)
  }

  /**
   One turn of the loop: the time before a wait, how it ends, what has arrived since the last read, the
   time of this read, and what follows.
   */
  datatype Turn = Turn(before: real, wake: Wake, arrivals: seq<Arrival>, now: real, failing: set<nat>, batch: string,
                       attempts: seq<Attempt>, after: real)

  predicate TurnOk(t: Turn) {
    Drawn(t.attempts) && forall a :: a in t.arrivals ==> Arrives(a)
  }

  /** The last read: none so far, failed, or fewer records found than a batch holds, or at least as many. */
  datatype LastRead = Never | Failed | Short | Full

  /**
   What the loop does, with the number of records unread at a read, the time it looks at before and the time
   it notes after.
   */
  datatype Happening =
    | Blocked(last: LastRead, before: real)
    | ReadFailed(after: real)
    | NothingSent(unread: nat, startup: bool, due: bool, now: real, after: real)
    | Handed(n: nat, unread: nat, startup: bool, due: bool, now: real, after: real)

  /**
   The loop blocks only when its last read failed or found less than a batch. A read that works hands over as
   much as is unread, at most a batch, on the start-up read or when the interval has passed; otherwise it hands
   over a full batch, or nothing if less is unread.
   */
  predicate Fine(h: Happening, batchSize: nat) {
    match h
    case Blocked(last, _) => last.Failed? || last.Short?
    case NothingSent(unread, startup, due, _, _) => unread < batchSize && (startup || due ==> unread == 0)
    case Handed(n, unread, startup, due, _, _) =>
      && n == (if unread < batchSize then unread else batchSize) && n > 0
      && (n == batchSize || startup || due)
    case _ => true
  }

  predicate AllFine(log: seq<Happening>, batchSize: nat) {
    forall h :: h in log ==> Fine(h, batchSize)
  }

  /** How many reads there were: one in each turn. */
  function Reads(log: seq<Happening>): nat {
    if log == [] then 0 else Reads(log[..|log| - 1]) + if log[|log| - 1].Blocked? then 0 else 1
  }

  /**
   `n` turns have had their read and `begun` have begun: all of them, or the loop ended when the context did, at
   a turn or during a delivery.
   */
  predicate Ended(turns: seq<Turn>, n: nat, begun: nat) {
    || n == begun == |turns|
    || (n + 1 == begun <= |turns| && turns[n].wake.Stop?)
    || (0 < n == begun <= |turns| && !Settles(Ending(turns[n - 1].attempts)))
  }

  /** Everything that has arrived in these turns. */
  function Arrived(turns: seq<Turn>): seq<Arrival> {
    if turns == [] then [] else Arrived(turns[..|turns| - 1]) + turns[|turns| - 1].arrivals
  }

  lemma ArrivedOn(turns: seq<Turn>, i: nat, landed: seq<Line>, more: seq<Line>)
    requires i < |turns| && LandedOf(Arrived(turns[..i]), landed) && LandedOf(turns[i].arrivals, more)
    ensures LandedOf(Arrived(turns[..i + 1]), landed + more)
  {
    hide LandedOf;
    assert turns[..i + 1][..i] == turns[..i];
    LandedJoin(Arrived(turns[..i]), landed, turns[i].arrivals, more);
  }

  lemma NoneArrived(turns: seq<Turn>)
    ensures LandedOf(Arrived(turns[..0]), [])
  {
  }

  predicate Worked(h: Happening) {
    h.NothingSent? || h.Handed?
  }

  predicate AtStartup(h: Happening) {
    (h.NothingSent? && h.startup) || (h.Handed? && h.startup)
  }

  /** Only the first read that works is the start-up read. */
  predicate OneStartup(log: seq<Happening>) {
    forall i, j :: 0 <= i < j < |log| && Worked(log[i]) ==> !AtStartup(log[j])
  }

  /** `startup` is still set exactly while no read has worked. */
  predicate StartupSo(log: seq<Happening>, startup: bool) {
    OneStartup(log) && (startup <==> forall h :: h in log ==> !Worked(h))
  }

  lemma LogOn(log: seq<Happening>, startup: bool, h: Happening, batchSize: nat)
    requires AllFine(log, batchSize) && Fine(h, batchSize) && StartupSo(log, startup)
    requires Worked(h) ==> (AtStartup(h) ==> startup)
    ensures AllFine(log + [h], batchSize) && StartupSo(log + [h], startup && !Worked(h))
    ensures Reads(log + [h]) == Reads(log) + if h.Blocked? then 0 else 1
  {
    var log' := log + [h];
    assert log'[|log|] == h && h in log' && log'[..|log|] == log;
    forall i, j | 0 <= i < j < |log'| && Worked(log'[i]) ensures !AtStartup(log'[j]) {
      assert log'[i] == log[i] && log[i] in log;
    }
    if startup && !Worked(h) {
      forall g | g in log' ensures !Worked(g) {
      }
    }
    if !startup {
      var g :| g in log && Worked(g);
      assert g in log';
    }
  }

  /** The time from which the interval counts: the last batch handed over, failed read, or idle read that was due. */
  function SentAt(start: real, log: seq<Happening>): real {
    if log == [] then start
    else match log[|log| - 1]
      case ReadFailed(after) => after
      case Handed(_, _, _, _, _, after) => after
      case NothingSent(_, _, true, _, after) => after
      case _ => SentAt(start, log[..|log| - 1])
  }

  /** `due` says whether the interval has passed since then, and the loop blocks only if it has not. */
  predicate TimedSo(h: Happening, sent: real, interval: real) {
    match h
    case Handed(_, _, _, due, now, _) => due <==> now - sent >= interval
    case NothingSent(_, _, due, now, _) => due <==> now - sent >= interval
    case Blocked(_, before) => before - sent < interval
    case _ => true
  }

  predicate Timed(log: seq<Happening>, start: real, interval: real) {
    forall i :: 0 <= i < |log| ==> TimedSo(log[i], SentAt(start, log[..i]), interval)
  }

  lemma TimedOn(log: seq<Happening>, start: real, interval: real, h: Happening)
    requires Timed(log, start, interval) && TimedSo(h, SentAt(start, log), interval)
    ensures Timed(log + [h], start, interval)
    ensures SentAt(start, log + [h]) == match h
              case ReadFailed(after) => after
              case Handed(_, _, _, _, _, after) => after
              case NothingSent(_, _, true, _, after) => after
              case _ => SentAt(start, log)
  {
    hide TimedSo;
    var log' := log + [h];
    assert log'[..|log|] == log;
    assert forall i :: 0 <= i < |log| ==> log'[..i] == log[..i] && log'[i] == log[i];
  }

  /** The log after some turns. */
  predicate LogSo(log: seq<Happening>, batchSize: nat, startup: bool, start: real, interval: real) {
    AllFine(log, batchSize) && StartupSo(log, startup) && Timed(log, start, interval)
  }

  lemma LogParts(log: seq<Happening>, batchSize: nat, startup: bool, start: real, interval: real)
    requires LogSo(log, batchSize, startup, start, interval)
    ensures AllFine(log, batchSize) && OneStartup(log) && Timed(log, start, interval)
  {
  }

  lemma NoLog(batchSize: nat, start: real, interval: real)
    ensures LogSo([], batchSize, true, start, interval) && Reads([]) == 0 && SentAt(start, []) == start
  {
  }

  lemma LogStep(log: seq<Happening>, batchSize: nat, startup: bool, start: real, interval: real, h: Happening)
    requires LogSo(log, batchSize, startup, start, interval)
    requires Fine(h, batchSize) && (AtStartup(h) ==> startup) && TimedSo(h, SentAt(start, log), interval)
    ensures LogSo(log + [h], batchSize, startup && !Worked(h), start, interval)
    ensures Reads(log + [h]) == Reads(log) + if h.Blocked? then 0 else 1
    ensures SentAt(start, log + [h]) == match h
              case ReadFailed(after) => after
              case Handed(_, _, _, _, _, after) => after
              case NothingSent(_, _, true, _, after) => after
              case _ => SentAt(start, log)
  {
    hide AllFine, StartupSo, Timed, Fine, TimedSo, SentAt, Reads;
    LogOn(log, startup, h, batchSize);
    TimedOn(log, start, interval, h);
  }

  /** What is settled and what is still unread make up all there was. */
  lemma SettledOn<T>(settled: seq<T>, lines: seq<T>, rest: seq<T>, all: seq<T>, total: seq<T>, max: nat)
    requires S.Taken(all, max, lines, rest) && settled + all == total
    ensures settled + lines + rest == total
  {
    assert lines + rest == all;
  }

  lemma TurnParts(t: Turn)
    requires TurnOk(t)
    ensures Drawn(t.attempts) && forall a :: a in t.arrivals ==> Arrives(a)
  {
  }

  lemma NoRecords(valid: seq<byte> -> bool, unsent: seq<seq<byte>>)
    ensures Records(valid, []) == [] && unsent + Records(valid, []) == unsent
  {
  }

  lemma RecordsOn(valid: seq<byte> -> bool, unsent: seq<seq<byte>>, landed: seq<Line>, more: seq<Line>)
    ensures unsent + Records(valid, landed) + Records(valid, more) == unsent + Records(valid, landed + more)
    ensures more == [] ==> landed + more == landed
  {
    RecordsAppend(valid, landed, more);
  }

  lemma AccountOn(valid: seq<byte> -> bool, settled: seq<seq<byte>>, unsent: seq<seq<byte>>,
                  landed: seq<Line>, more: seq<Line>, total: seq<seq<byte>>)
    ensures settled + unsent == total + Records(valid, landed) ==>
              settled + (unsent + Records(valid, more)) == total + Records(valid, landed + more)
    ensures landed + more == [] ==> landed == more == []
    ensures |landed + more| == |landed| + |more|
  {
    RecordsAppend(valid, landed, more);
    Assoc(settled, unsent, Records(valid, more));
    Assoc(total, Records(valid, landed), Records(valid, more));
  }

  /** The position is in a file there is, or before all of them. */
  predicate PlacedIn(dir: seq<File<byte>>, p: Position) {
    p.day <= LastPlain(dir) && Fits(dir, p)
  }

  lemma PlacedOn(dir: seq<File<byte>>, p: Position)
    ensures PlacedIn(dir, p) ==>
              forall q :: Onward(dir, p, q) && (q == p || HasPlain(dir, q.day)) ==> PlacedIn(dir, q)
  {
  }

  class Forwarder {
    const spool: S.Spool
    const backoff: B.Backoff
    const batchSize: nat
    const interval: real
    var pending: int
    var woken: bool
    var forwarded: nat
    var deadLettered: nat
    var posted: seq<Post>
    var deadLetters: seq<Post>
    /** All records settled so far, in order. */
    ghost var settled: seq<seq<byte>>

    constructor (spool: S.Spool, backoff: B.Backoff, batchSize: nat, interval: real)
      ensures this.spool == spool && this.backoff == backoff && this.batchSize == batchSize && this.interval == interval
      ensures pending == 0 && !woken && forwarded == deadLettered == 0 && posted == [] && deadLetters == []
          && settled == []
    {
      this.spool, this.backoff, this.batchSize, this.interval := spool, backoff, batchSize, interval;
      pending, woken, forwarded, deadLettered, posted, deadLetters, settled := 0, false, 0, 0, [], [], [];
    }

    /** Called by the receiver after every append. */
    method Notify()
      modifies this`pending, this`woken
      ensures pending == old(pending) + 1
      ensures woken == (old(woken) || pending >= batchSize)
    {
      pending := pending + 1;
      if pending >= batchSize {
        woken := true;
      }
    }

    /** What settling a batch changes, and nothing else does. */
    twostate predicate Outcome(post: Post, end: Position, fate: Fate)
      reads this, spool
    {
      && forwarded == old(forwarded) + (if fate.Accepted? then |post.events| else 0)
      && deadLettered == old(deadLettered) + (if fate.Refused? then |post.events| else 0)
      && deadLetters == old(deadLetters) + (if fate.Refused? then [post] else [])
      && settled == old(settled) + (if Settles(fate) then post.events else [])
      && spool.committed == (if Settles(fate) then end else old(spool.committed))
      && (!Settles(fate) ==> spool.inflight == old(spool.inflight) && spool.offsetFile == old(spool.offsetFile))
    }

    /**
     One attempt. A status from 200 to 299 counts the batch as forwarded, one from 400 to 499 other than 429 as
     dead-lettered once the dead letter is written; both commit it. Anything else leaves the position, the
     offset file and the counters as they were, and unless the context has ended a wait follows.
     */
    method Try(post: Post, end: Position, a: Attempt) returns (fate: Fate, wait: seq<real>)
      requires spool.Valid() && 0.0 <= a.r < 1.0
      modifies this`forwarded, this`deadLettered, this`posted, this`deadLetters, this`settled
      modifies backoff, spool`committed, spool`inflight, spool`offsetFile
      ensures spool.Valid() && fate == FateOf(a) && posted == old(posted) + [post]
      ensures Outcome(post, end, fate)
      ensures backoff.attempt == if Settles(fate) then 0 else old(backoff.attempt) + |DrawOf(a)|
      ensures wait == WaitOf(old(backoff.attempt), a)
      ensures var accepted := !a.cancelled && a.response.Status? && 200 <= a.response.code < 300;
              var refused := && !a.cancelled && a.response.Status? && 400 <= a.response.code < 500
                             && a.response.code != 429 && a.deadLetterOk;
              && (fate.Accepted? <==> accepted) && (fate.Refused? <==> refused) && (fate.Quit? <==> a.cancelled)
              && forwarded == old(forwarded) + (if accepted then |post.events| else 0)
              && deadLettered == old(deadLettered) + (if refused then |post.events| else 0)
              && deadLetters == old(deadLetters) + (if refused then [post] else [])
              && settled == old(settled) + (if accepted || refused then post.events else [])
              && spool.committed == (if accepted || refused then end else old(spool.committed))
              && spool.offsetFile == (if (accepted || refused) && a.offsetOk then S.Holds(end)
                                      else old(spool.offsetFile))
              && (!accepted && !refused ==> spool.inflight == old(spool.inflight))
              && wait == (if a.cancelled || accepted || refused then [] else match a.response
                          case Status(429, After(seconds)) => [seconds]
                          case _ => [B.Jitter(B.StepAt(old(backoff.attempt)), a.r)])
              && backoff.attempt == (if accepted || refused then 0 else match a.response
                                     case Status(429, After(_)) => old(backoff.attempt)
                                     case _ => old(backoff.attempt) + if a.cancelled then 0 else 1)
    {
      hide S.Spool.Valid, B.Jitter, B.StepAt;
      posted := posted + [post];
      wait := [];
      fate := FateOf(a);
      match fate
      case Quit =>
      case Accepted =>
        spool.Commit(end, a.offsetOk);
        backoff.Reset();
        forwarded, settled := forwarded + |post.events|, settled + post.events;
      case Refused =>
        deadLetters := deadLetters + [post];
        spool.Commit(end, a.offsetOk);
        backoff.Reset();
        deadLettered, settled := deadLettered + |post.events|, settled + post.events;
      case Retry =>
        var delay;
        if Dictated(a) {
          delay := a.response.retryAfter.seconds;
        } else {
          delay := backoff.Next(a.r);
        }
        wait := [delay];
    }

    /**
     deliver: the same batch id and events in every attempt; the committed position stays until the
     batch is settled, and then exactly one of the two counters goes up by its length.
     */
    method Deliver(batch: string, lines: seq<seq<byte>>, end: Position, attempts: seq<Attempt>)
      returns (fate: Fate, waits: seq<real>, ghost made: nat)
      requires spool.Valid() && Drawn(attempts)
      modifies this`forwarded, this`deadLettered, this`posted, this`deadLetters, this`settled
      modifies backoff, spool`committed, spool`inflight, spool`offsetFile
      ensures spool.Valid() && fate == Ending(attempts)
      ensures posted == old(posted) + Copies(Post(batch, lines), Made(attempts))
      ensures Outcome(Post(batch, lines), end, fate)
      ensures backoff.attempt == if Settles(fate) then 0 else old(backoff.attempt) + |Draws(attempts[..Made(attempts)])|
      ensures waits == WaitsOf(old(backoff.attempt), attempts[..Made(attempts)])
      ensures made == Made(attempts) <= |attempts| && (made == 0 <==> attempts == [])
      ensures forall i :: 0 <= i < made - 1 ==>
                var a := attempts[i];
                && !a.cancelled && !a.cancelledInWait
                && !(a.response.Status? && 200 <= a.response.code < 300)
                && !(&& a.response.Status? && 400 <= a.response.code < 500 && a.response.code != 429 && a.deadLetterOk)
      ensures made == 0 ==>
                && fate.Retry? && waits == [] && spool.committed == old(spool.committed)
                && forwarded == old(forwarded) && deadLettered == old(deadLettered)
      ensures made > 0 ==>
                var a := attempts[made - 1];
                var accepted := !a.cancelled && a.response.Status? && 200 <= a.response.code < 300;
                var refused := && !a.cancelled && a.response.Status? && 400 <= a.response.code < 500
                               && a.response.code != 429 && a.deadLetterOk;
                var settles := accepted || refused;
                && (made < |attempts| ==> settles || a.cancelled || a.cancelledInWait)
                && (fate.Accepted? <==> accepted) && (fate.Refused? <==> refused)
                && (fate.Quit? <==> !settles && (a.cancelled || a.cancelledInWait))
                && forwarded == old(forwarded) + (if accepted then |lines| else 0)
                && deadLettered == old(deadLettered) + (if refused then |lines| else 0)
                && deadLetters == old(deadLetters) + (if refused then [Post(batch, lines)] else [])
                && settled == old(settled) + (if settles then lines else [])
                && spool.committed == (if settles then end else old(spool.committed))
                && spool.offsetFile == (if settles && a.offsetOk then S.Holds(end) else old(spool.offsetFile))
                && |waits| == made - (if settles || a.cancelled then 1 else 0)
                && forall i :: 0 <= i < |waits| ==> waits[i] == WaitAt(old(backoff.attempt), attempts, i)
    {
      hide S.Spool.Valid, FateOf, Dictated, DrawOf, Draws, WaitsOf, WaitOf, Copies, Made, WaitAt, DrawnBefore,
        B.StepAt, B.Jitter;
      made := Made(attempts);
      DeliveryExactly(old(backoff.attempt), attempts);
      waits := [];
      var i := 0;
      var post := Post(batch, lines);
      NoAttempt(attempts, post);
      while i < |attempts|
        invariant 0 <= i <= |attempts| && (forall j :: 0 <= j < i ==> GoesOn(attempts[j]))
        invariant spool.Valid() && Outcome(post, end, Retry)
        invariant posted == old(posted) + Copies(post, i)
        invariant backoff.attempt == old(backoff.attempt) + |Draws(attempts[..i])|
        invariant waits == WaitsOf(old(backoff.attempt), attempts[..i])
      {
        MadeStep(attempts, i);
        DrawsStep(attempts, i);
        WaitsOfStep(old(backoff.attempt), attempts, i);
        CopiesStep(old(posted), post, i);
        var wait;
        fate, wait := Try(post, end, attempts[i]);
        waits := waits + wait;
        i := i + 1;
        if !fate.Retry? {
          return fate, waits, made;
        }
        if attempts[i - 1].cancelledInWait {
          return Quit, waits, made;
        }
      }
      return Retry, waits, made;
    }

    predicate Placed()
      reads spool`dir, spool`committed
    {
      PlacedIn(spool.dir, spool.committed)
    }

    /** The records that are unread after the committed position. */
    function Unsent(): seq<seq<byte>>
      reads spool`dir, spool`committed
    {
      UnreadRecords(spool.valid, spool.dir, spool.committed)
    }

    /**
     What runReceiver does with a datagram: append, and notify if that worked. What landed in the spool ends
     the unsent records; it did not land, or its fsync failed, exactly if the append reports an error.
     */
    method Receive(a: Arrival) returns (ok: bool, ghost landed: seq<Line>)
      requires spool.Valid() && Arrives(a)
      modifies this`pending, this`woken, spool`dir, spool`isOpen, spool`curName, spool`curSize, spool`unsynced
      ensures spool.Valid() && (landed == [] || landed == [a.line])
      ensures landed != [] <==> (old(spool.isOpen && a.day <= spool.curName) || a.openIo.OpenOk?) && a.writeIo.Full?
      ensures ok <==> landed == [a.line] && !(a.writeIo == S.Full(true) && spool.unsynced == 0)
      ensures landed == [] ==> Unsent() == old(Unsent())
      ensures old(Placed()) ==> Placed() && Unsent() == old(Unsent()) + Records(spool.valid, landed)
      ensures pending == old(pending) + (if ok then 1 else 0)
      ensures woken == (old(woken) || (ok && pending >= batchSize))
    {
      hide S.Spool.Valid, LinesOf, Rest, LastPlain, PlainIndex;
      ghost var dir := spool.dir;
      ghost var day := WriterTarget(dir, spool.isOpen, spool.curName, a.day);
      ValidParts();
      ok := spool.Append(a.day, a.line, a.openIo, a.writeIo);
      landed := if spool.isOpen && a.writeIo.Full? then [a.line] else [];
      NothingAdded(dir, Created(dir, day), day);
      if PlacedIn(dir, spool.committed) {
        PlaceStays(dir, day, a.line, spool.committed);
        RecordsAppend(spool.valid, Unread(dir, spool.committed), landed);
      }
      if ok {
        Notify();
      }
    }

    lemma ValidParts()
      requires spool.Valid()
      ensures Listing(spool.dir) && AllComplete(spool.dir)
    {
    }

    /** Everything that has arrived since the last read. */
    method ReceiveAll(arrivals: seq<Arrival>) returns (acked: nat, ghost landed: seq<Line>)
      requires spool.Valid() && forall a :: a in arrivals ==> Arrives(a)
      modifies this`pending, this`woken, spool`dir, spool`isOpen, spool`curName, spool`curSize, spool`unsynced
      ensures spool.Valid() && acked <= |landed| <= |arrivals| && pending == old(pending) + acked
      ensures LandedOf(arrivals, landed)
      ensures landed == [] ==> Unsent() == old(Unsent())
      ensures old(Placed()) ==> Placed() && Unsent() == old(Unsent()) + Records(spool.valid, landed)
      ensures acked > 0 && pending >= batchSize ==> woken
    {
      hide S.Spool.Valid, Unsent, Placed, Records, Arrives, LandedOf;
      acked, landed := 0, [];
      NothingLanded(arrivals);
      NoRecords(spool.valid, Unsent());
      for i := 0 to |arrivals|
        invariant spool.Valid() && acked <= |landed| <= i && pending == old(pending) + acked
        invariant LandedOf(arrivals[..i], landed)
        invariant landed == [] ==> Unsent() == old(Unsent())
        invariant old(Placed()) ==> Placed() && Unsent() == old(Unsent()) + Records(spool.valid, landed)
        invariant acked > 0 && pending >= batchSize ==> woken
      {
        var ok;
        ghost var one;
        ok, one := Receive(arrivals[i]);
        RecordsOn(spool.valid, old(Unsent()), landed, one);
        LandedOn(arrivals, landed, i, one);
        landed := landed + one;
        if ok {
          acked := acked + 1;
        }
      }
      assert arrivals[..|arrivals|] == arrivals;
    }

    method Read(allowPartial: bool, failing: set<nat>) returns (lines: seq<seq<byte>>, end: Position, last: LastRead)
      requires spool.Valid() && batchSize > 0
      modifies spool`inflight
      ensures spool.Valid()
      ensures last == Failed || last == if |Unsent()| < batchSize then Short else Full
      ensures last.Failed? ==> lines == []
      ensures last.Full? || allowPartial ==> |lines| > 0 || last.Failed? || Unsent() == []
      ensures !last.Failed? ==> |lines| == 0 || |lines| == if |Unsent()| < batchSize then |Unsent()| else batchSize
      ensures lines == [] && !last.Failed? ==> |Unsent()| < batchSize
      ensures 0 < |lines| ==> |lines| <= batchSize && (|lines| == batchSize || allowPartial)
      ensures 0 < |lines| ==> (|lines| == batchSize <==> last.Full?)
      ensures 0 < |lines| ==> S.Taken(Unsent(), batchSize, lines, UnreadRecords(spool.valid, spool.dir, end))
      ensures Placed() ==> PlacedIn(spool.dir, end)
    {
      hide S.Spool.Valid, Unread, Records, Selected, Onward, PlacedIn;
      PlacedOn(spool.dir, spool.committed);
      var ok;
      ghost var passed, idx;
      lines, end, ok, passed, idx := spool.ReadBatch(batchSize, allowPartial, failing);
      last := if !ok then Failed else if |lines| < batchSize then Short else Full;
    }

    /** Settled and unread records make up `total`. */
    ghost predicate Accounted(total: seq<seq<byte>>)
      reads this`settled, spool`dir, spool`committed
    {
      settled + Unsent() == total
    }

    /** `total` and what has landed since are settled or unread; the counters count the settled ones from `base` on. */
    ghost predicate Books(total: seq<seq<byte>>, base: int, placed: bool, landed: seq<Line>)
      reads this`settled, this`forwarded, this`deadLettered, spool`dir, spool`committed
    {
      && (placed ==> Placed()) && forwarded + deadLettered == base + |settled|
      && (placed || landed == [] ==> Accounted(total + Records(spool.valid, landed)))
    }

    /** No more lines are pending than were reported as appended, and no fewer than those of them not settled. */
    ghost predicate PendingSo(pending0: int, settled0: nat, acked: nat)
      reads this`settled, this`pending
    {
      && settled0 <= |settled|
      && (pending0 >= 0 ==> 0 <= pending <= pending0 + acked && pending + |settled| - settled0 >= pending0 + acked)
    }

    /** What has arrived since the last read. */
    method Arrive(arrivals: seq<Arrival>, ghost total: seq<seq<byte>>, ghost base: int, ghost placed: bool,
                  ghost before: seq<Line>, ghost pending0: int, ghost settled0: nat, ghost acked0: nat)
      returns (acked: nat, ghost landed: seq<Line>)
      requires spool.Valid() && forall a :: a in arrivals ==> Arrives(a)
      requires Books(total, base, placed, before) && PendingSo(pending0, settled0, acked0)
      modifies this`pending, this`woken, spool`dir, spool`isOpen, spool`curName, spool`curSize, spool`unsynced
      ensures spool.Valid() && acked <= |landed| && Books(total, base, placed, before + landed)
      ensures LandedOf(arrivals, landed)
      ensures PendingSo(pending0, settled0, acked0 + acked)
    {
      hide S.Spool.Valid, UnreadRecords, Records, PlacedIn, Arrives, LandedOf;
      ghost var unsent := Unsent();
      acked, landed := ReceiveAll(arrivals);
      AccountOn(spool.valid, settled, unsent, before, landed, total);
    }

    /** The delivery of a batch that was just read. */
    method Send(batch: string, lines: seq<seq<byte>>, end: Position, attempts: seq<Attempt>,
                ghost total: seq<seq<byte>>, ghost base: int, ghost placed: bool, ghost landed: seq<Line>,
                ghost pending0: int, ghost settled0: nat, ghost acked: nat) returns (sent: bool)
      requires spool.Valid() && Drawn(attempts)
      requires S.Taken(Unsent(), batchSize, lines, UnreadRecords(spool.valid, spool.dir, end))
      requires Books(total, base, placed, landed) && PendingSo(pending0, settled0, acked)
      requires placed ==> PlacedIn(spool.dir, end)
      modifies this`forwarded, this`deadLettered, this`posted, this`deadLetters, this`settled, this`pending
      modifies backoff, spool`committed, spool`inflight, spool`offsetFile
      ensures spool.Valid() && Books(total, base, placed, landed) && PendingSo(pending0, settled0, acked)
      ensures settled == old(settled) + (if sent then lines else []) && (sent <==> Settles(Ending(attempts)))
      ensures pending == if !sent then old(pending) else if old(pending) < |lines| then 0 else old(pending) - |lines|
    {
      hide S.Spool.Valid, UnreadRecords, Made, Ending, Draws, Copies, WaitsOf, S.Taken, Records, PlacedIn;
      if placed || landed == [] {
        SettledOn(settled, lines, UnreadRecords(spool.valid, spool.dir, end), Unsent(),
                  total + Records(spool.valid, landed), batchSize);
      }
      var fate, waits, made := Deliver(batch, lines, end, attempts);
      if !Settles(fate) {
        return false;
      }
      pending := if pending - |lines| < 0 then 0 else pending - |lines|;
      return true;
    }

    /** A read and, if it found anything to send, the delivery. */
    method HandOver(t: Turn, allowPartial: bool, ghost total: seq<seq<byte>>, ghost base: int, ghost placed: bool,
                    ghost landed: seq<Line>, ghost pending0: int, ghost settled0: nat, ghost acked: nat)
      returns (n: nat, last: LastRead, sent: bool, ghost unread: nat)
      requires spool.Valid() && batchSize > 0 && TurnOk(t)
      requires Books(total, base, placed, landed) && PendingSo(pending0, settled0, acked)
      modifies this`forwarded, this`deadLettered, this`posted, this`deadLetters, this`settled, this`pending
      modifies backoff, spool`committed, spool`inflight, spool`offsetFile
      ensures spool.Valid() && Books(total, base, placed, landed) && PendingSo(pending0, settled0, acked)
      ensures unread == |old(Unsent())| && (last.Failed? ==> n == 0)
      ensures n == 0 && !last.Failed? ==> last.Short? && unread < batchSize && (allowPartial ==> unread == 0)
      ensures n > 0 ==> && n == (if unread < batchSize then unread else batchSize) && (n == batchSize || allowPartial)
                        && (n == batchSize || last.Short?) && (sent <==> Settles(Ending(t.attempts)))
      ensures !sent ==> settled == old(settled) && pending == old(pending)
      ensures sent ==> |settled| == |old(settled)| + n && pending == if old(pending) < n then 0 else old(pending) - n
    {
      hide S.Spool.Valid, UnreadRecords, S.Taken, Books, PendingSo, PlacedIn, TurnOk, Ending, Unsent, Placed, Accounted,
        Settles, LinesOf, Records;
      TurnParts(t);
      unread := |Unsent()|;
      var lines, end;
      lines, end, last := Read(allowPartial, t.failing);
      n, sent := |lines|, false;
      if n > 0 {
        StillPlaced(total, base, placed, landed);
        sent := Send(t.batch, lines, end, t.attempts, total, base, placed, landed, pending0, settled0, acked);
      }
    }

    /**
     Run, with datagrams arriving between its reads. Whatever becomes of the batches: settled and unread
     records always make up what was unread at the start and what has landed since, in order, and the
     counters count the settled ones. The number of pending lines is never less than that of the lines
     reported as appended since the start and not yet settled, so a full batch of them wakes the loop.
     */
    method Run(start: real, turns: seq<Turn>)
      returns (ghost log: seq<Happening>, acked: nat, ghost landed: seq<Line>, ghost begun: nat)
      requires spool.Valid() && batchSize > 0 && forall t :: t in turns ==> TurnOk(t)
      modifies this, backoff, spool
      ensures spool.Valid() && AllFine(log, batchSize) && OneStartup(log) && Timed(log, start, interval)
      ensures Ended(turns, Reads(log), begun) && LandedOf(Arrived(turns[..begun]), landed)
      ensures old(Placed()) || landed == [] ==>
                settled + Unsent() == old(settled) + old(Unsent()) + Records(spool.valid, landed)
      ensures forwarded + deadLettered + |old(settled)| == old(forwarded) + old(deadLettered) + |settled|
      ensures acked <= |landed| && |old(settled)| <= |settled|
      ensures old(pending) >= 0 ==>
                0 <= pending <= old(pending) + acked && pending + |settled| - |old(settled)| >= old(pending) + acked
    {
      ghost var total, base, placed := settled + Unsent(), forwarded + deadLettered - |settled|, Placed();
      NoRecords(spool.valid, total);
      log, acked, landed, begun := Loop(start, turns, total, base, placed, pending, |settled|);
    }

    method Loop(start: real, turns: seq<Turn>, ghost total: seq<seq<byte>>, ghost base: int, ghost placed: bool,
                ghost pending0: int, ghost settled0: nat)
      returns (ghost log: seq<Happening>, acked: nat, ghost landed: seq<Line>, ghost begun: nat)
      requires spool.Valid() && batchSize > 0 && forall t :: t in turns ==> TurnOk(t)
      requires Books(total, base, placed, []) && PendingSo(pending0, settled0, 0)
      modifies this, backoff, spool
      ensures spool.Valid() && AllFine(log, batchSize) && OneStartup(log) && Timed(log, start, interval)
      ensures Ended(turns, Reads(log), begun) && LandedOf(Arrived(turns[..begun]), landed)
      ensures acked <= |landed| && Books(total, base, placed, landed) && PendingSo(pending0, settled0, acked)
    {
      hide S.Spool.Valid, LogSo, AllFine, OneStartup, Timed, Books, PendingSo, TurnOk, Reads, Ending, LandedOf, Arrived,
        Unsent, Settles, SentAt;
      var lastSend, startup, skipWait, last := start, true, true, Never;
      log, acked, landed, begun := [], 0, [], 0;
      NoLog(batchSize, start, interval);
      NoneArrived(turns);
      var i := 0;
      while i < |turns|
        invariant spool.Valid() && LogSo(log, batchSize, startup, start, interval) && lastSend == SentAt(start, log)
        invariant skipWait || last.Failed? || last.Short?
        invariant i == begun <= |turns| && Reads(log) == i && LandedOf(Arrived(turns[..i]), landed)
        invariant acked <= |landed| && Books(total, base, placed, landed) && PendingSo(pending0, settled0, acked)
        decreases |turns| - i
      {
        var t := turns[i];
        i := i + 1;
        TurnParts(t);
        if !skipWait && interval - (t.before - lastSend) > 0.0 {
          LogStep(log, batchSize, startup, start, interval, Blocked(last, t.before));
          log := log + [Blocked(last, t.before)];
          if t.wake.Notified? {
            woken := false;
          }
        }
        var more;
        ghost var lines';
        more, lines' := Arrive(t.arrivals, total, base, placed, landed, pending0, settled0, acked);
        ArrivedOn(turns, begun, landed, lines');
        acked, landed, begun := acked + more, landed + lines', i;
        LogParts(log, batchSize, startup, start, interval);
        if t.wake.Stop? {
          return;
        }
        skipWait := false;
        var due := t.now - lastSend >= interval;
        var n, sent;
        ghost var unread;
        n, last, sent, unread := HandOver(t, due || startup, total, base, placed, landed, pending0, settled0, acked);
        if last.Failed? {
          LogStep(log, batchSize, startup, start, interval, ReadFailed(t.after));
          log := log + [ReadFailed(t.after)];
          lastSend := t.after;
          continue;
        }
        if n == 0 {
          if due {
            lastSend := t.after;
          }
          ghost var h := NothingSent(unread, startup, due, t.now, t.after);
          LogStep(log, batchSize, startup, start, interval, h);
          log := log + [h];
          startup := false;
          continue;
        }
        ghost var h := Handed(n, unread, startup, due, t.now, t.after);
        LogStep(log, batchSize, startup, start, interval, h);
        log := log + [h];
        startup := false;
        LogParts(log, batchSize, startup, start, interval);
        if !sent {
          return;
        }
        lastSend := t.after;
        skipWait := n == batchSize;
      }
      LogParts(log, batchSize, startup, start, interval);
    }

    lemma StillPlaced(total: seq<seq<byte>>, base: int, placed: bool, landed: seq<Line>)
      requires Books(total, base, placed, landed)
      ensures placed ==> Placed()
    {
    }
  }
}
