/** What the counters of a running agent count, over whole runs and by their actions alone. */
module PipelineCounters {
  import opened SpoolModel
  import opened Pipeline
  import C = Collector

  /** The agent has not been started since action `i`. */
  predicate SameProcess(acts: seq<Action>, i: nat) {
    forall j :: i < j < |acts| ==> !acts[j].Start?
  }

  predicate Received(a: Action) {
    a.Append?
  }

  predicate Failed(a: Action) {
    a.Append? && a.result != Written(true)
  }

  predicate Landed(a: Action) {
    a.Append? && a.result.Written?
  }

  predicate Unsynced(a: Action) {
    a.Append? && a.result == Written(false)
  }

  /** The actions of the present process that are such. */
  function Hits(acts: seq<Action>, such: Action -> bool): set<nat> {
    set i: nat | i < |acts| && such(acts[i]) && SameProcess(acts, i)
  }

  lemma HitsSnoc(acts: seq<Action>, a: Action, such: Action -> bool)
    ensures !a.Start? ==> |Hits(acts + [a], such)| == |Hits(acts, such)| + if such(a) then 1 else 0
    ensures a.Start? && !such(a) ==> Hits(acts + [a], such) == {}
  {
    hide SameProcess;
    var acts' := acts + [a];
    forall i: nat | i < |acts| ensures SameProcess(acts', i) <==> !a.Start? && SameProcess(acts, i) {
      ProcessSnoc(acts, a, i);
    }
    LastIsPresent(acts', |acts|);
    if !a.Start? {
      assert Hits(acts', such) == Hits(acts, such) + if such(a) then {|acts|} else {};
    }
  }

  lemma ProcessSnoc(acts: seq<Action>, a: Action, i: nat)
    requires i < |acts|
    ensures SameProcess(acts + [a], i) <==> !a.Start? && SameProcess(acts, i)
  {
    var acts' := acts + [a];
    assert acts'[|acts|] == a && forall j :: i < j < |acts| ==> acts'[j] == acts[j];
  }

  lemma LastIsPresent(acts: seq<Action>, i: nat)
    requires i + 1 == |acts|
    ensures SameProcess(acts, i)
  {
  }

  lemma {:induction false} RunSnoc(w: World, acts: seq<Action>)
    requires Possible(w, acts) && acts != []
    ensures var n := |acts| - 1;
            && Possible(w, acts[..n]) && Enabled(Run(w, acts[..n]), acts[n])
            && Run(w, acts) == Apply(Run(w, acts[..n]), acts[n])
    decreases |acts|
  {
    hide Apply, Enabled;
    var n := |acts| - 1;
    if n == 0 {
      assert acts[..0] == [] && acts[1..] == [];
    } else {
      RunSnoc(Apply(w, acts[0]), acts[1..]);
      assert acts[1..][..n - 1] == acts[..n][1..] && acts[1..][n - 1] == acts[n];
    }
  }

  /** The receiver's counters are those of its appends. */
  predicate ReceiverSo(c: Counters, acts: seq<Action>) {
    && c.received == |Hits(acts, Received)| && c.writeErrors == |Hits(acts, Failed)|
    && c.appended == |Hits(acts, Landed)| && c.unsynced == |Hits(acts, Unsynced)|
  }

  lemma ReceiverStep(w: World, acts: seq<Action>, a: Action)
    requires Enabled(w, a) && (w.agent.Up? ==> ReceiverSo(w.agent.p.counters, acts))
    ensures Apply(w, a).agent.Up? ==> ReceiverSo(Apply(w, a).agent.p.counters, acts + [a])
  {
    hide Hits;
    HitsSnoc(acts, a, Received);
    HitsSnoc(acts, a, Failed);
    HitsSnoc(acts, a, Landed);
    HitsSnoc(acts, a, Unsynced);
  }

  lemma {:induction false} ReceiverRun(me: string, acts: seq<Action>)
    requires Possible(Init(me), acts)
    ensures Run(Init(me), acts).agent.Up? ==> ReceiverSo(Run(Init(me), acts).agent.p.counters, acts)
    decreases |acts|
  {
    hide Apply, Enabled, ReceiverSo;
    if acts != [] {
      var n := |acts| - 1;
      RunSnoc(Init(me), acts);
      ReceiverRun(me, acts[..n]);
      ReceiverStep(Run(Init(me), acts[..n]), acts[..n], acts[n]);
      assert acts[..n] + [acts[n]] == acts;
    }
  }

  // ---- what the forwarder counts ----

  /** The lines of the batches that have been accepted, or rejected, since the last start. */
  function SettledBy(w: World, acts: seq<Action>, dead: bool): nat
    requires Possible(w, acts)
    decreases |acts|
  {
    if acts == [] then 0
    else
      RunSnoc(w, acts);
      var n := |acts| - 1;
      var before := Run(w, acts[..n]);
      match acts[n]
      case Start(_) => 0
      case Accept => SettledBy(w, acts[..n], dead) + if dead then 0 else |before.agent.p.fwd.ids|
      case Reject => SettledBy(w, acts[..n], dead) + if dead then |before.agent.p.fwd.ids| else 0
      case _ => SettledBy(w, acts[..n], dead)
  }

  /** Settled and not yet counted. */
  function NotCounted(f: Forwarder, dead: bool): nat {
    if (f.Persisting? || f.Counting?) && f.dead == dead then f.n else 0
  }

  lemma ForwarderStep(w: World, a: Action)
    requires Enabled(w, a) && Apply(w, a).agent.Up?
    ensures a.Start? ==>
              var p := Apply(w, a).agent.p;
              p.counters.forwarded == p.counters.deadLettered == 0 && p.fwd.Idle?
    ensures !a.Start? ==> w.agent.Up?
    ensures !a.Start? ==>
              var p, q := w.agent.p, Apply(w, a).agent.p;
              && (a.Accept? || a.Reject? ==> p.fwd.Delivering?)
              && q.counters.forwarded + NotCounted(q.fwd, false) == p.counters.forwarded + NotCounted(p.fwd, false)
                   + (if a.Accept? then |p.fwd.ids| else 0)
              && q.counters.deadLettered + NotCounted(q.fwd, true) == p.counters.deadLettered + NotCounted(p.fwd, true)
                   + (if a.Reject? then |p.fwd.ids| else 0)
  {
    hide HasPlain, Rest, Part, PlainDays, Search, LastPlain, PlainIndex, ClockFit, FreshBatch, MayRemove,
      CleanupFit, WriterTarget, Opened, Grown;
  }

  /**
   Since the last start, `forwarded` counts the lines of the batches accepted and `deadLettered` those of the
   batches rejected, but for the one batch just settled whose count is still to come.
   */
  lemma {:induction false} ForwarderCounts(me: string, acts: seq<Action>)
    requires Possible(Init(me), acts) && Run(Init(me), acts).agent.Up?
    ensures var p := Run(Init(me), acts).agent.p;
            && p.counters.forwarded + (if (p.fwd.Persisting? || p.fwd.Counting?) && !p.fwd.dead then p.fwd.n else 0)
                 == SettledBy(Init(me), acts, false)
            && p.counters.deadLettered + (if (p.fwd.Persisting? || p.fwd.Counting?) && p.fwd.dead then p.fwd.n else 0)
                 == SettledBy(Init(me), acts, true)
    decreases |acts|
  {
    hide Apply, Enabled;
    if acts != [] {
      var n := |acts| - 1;
      RunSnoc(Init(me), acts);
      ForwarderStep(Run(Init(me), acts[..n]), acts[n]);
      if !acts[n].Start? {
        ForwarderCounts(me, acts[..n]);
      }
    }
  }
}
