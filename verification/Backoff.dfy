/** Waiting times between attempts (internal/agent/backoff.go), in seconds and exact arithmetic. */
module Backoff {

  const STEPS: seq<real> := [1.0, 5.0, 15.0, 30.0, 60.0]

  function StepAt(attempt: nat): real {
    STEPS[if attempt < |STEPS| - 1 then attempt else |STEPS| - 1]
  }

  /** Between 0.8 and 1.2 times `d`, for a random number in [0, 1). */
  function Jitter(d: real, r: real): (j: real)
    requires d > 0.0 && 0.0 <= r < 1.0
    ensures 0.8 * d <= j < 1.2 * d
  {
    d * (0.8 + 0.4 * r)
  }

  predicate Random(rs: seq<real>) {
    forall i :: 0 <= i < |rs| ==> 0.0 <= rs[i] < 1.0
  }

  /** The waits of consecutive calls of Next when `attempt` of them were made since the last reset. */
  function Waits(attempt: nat, rs: seq<real>): (ws: seq<real>)
    requires Random(rs)
    ensures |ws| == |rs|
    ensures forall i :: 0 <= i < |ws| ==> ws[i] == Jitter(StepAt(attempt + i), rs[i])
  {
    seq(|rs|, i requires 0 <= i < |rs| => Jitter(StepAt(attempt + i), rs[i]))
  }

  class Backoff {
    var attempt: nat

    constructor ()
      ensures attempt == 0
    {
      attempt := 0;
    }

    method Next(r: real) returns (d: real)
      requires 0.0 <= r < 1.0
      modifies this
      ensures attempt == old(attempt) + 1 && d == Waits(old(attempt), [r])[0]
      ensures d == Jitter(StepAt(old(attempt)), r) == (0.8 + 0.4 * r) * match old(attempt)
                                                                        case 0 => 1.0
                                                                        case 1 => 5.0
                                                                        case 2 => 15.0
                                                                        case 3 => 30.0
                                                                        case _ => 60.0
    {
      var i := if attempt < |STEPS| - 1 then attempt else |STEPS| - 1;
      attempt := attempt + 1;
      d := Jitter(STEPS[i], r);
    }

    method Reset()
      modifies this
      ensures attempt == 0
    {
      attempt := 0;
    }
  }

  lemma WaitsSnoc(attempt: nat, rs: seq<real>, r: real)
    requires Random(rs) && 0.0 <= r < 1.0
    ensures Random(rs + [r])
    ensures Waits(attempt, rs + [r]) == Waits(attempt, rs) + Waits(attempt + |rs|, [r])
  {
  }

  /** Whatever the jitter, each of the first five waits after a reset is longer than the one before. */
  lemma FirstWaitsGrow(rs: seq<real>, i: nat, j: nat)
    requires Random(rs) && i < j < |rs| && j < |STEPS|
    ensures Waits(0, rs)[i] < Waits(0, rs)[j]
  {
    assert 1.2 * StepAt(i) < 0.8 * StepAt(j);
  }

  /** From the fifth on they are all drawn from the same minute. */
  lemma LaterWaits(rs: seq<real>, i: nat)
    requires Random(rs) && |STEPS| - 1 <= i < |rs|
    ensures 48.0 <= Waits(0, rs)[i] < 72.0
  {
    assert StepAt(i) == 60.0;
  }

  function Sum(ws: seq<real>): real {
    if ws == [] then 0.0 else Sum(ws[..|ws| - 1]) + ws[|ws| - 1]
  }

  /** What `n` waits add up to without jitter. */
  function Nominal(n: nat): real {
    if n == 0 then 0.0 else Nominal(n - 1) + StepAt(n - 1)
  }

  lemma {:induction false} NominalClosed(n: nat)
    requires n >= |STEPS|
    ensures Nominal(n) == 111.0 + 60.0 * (n - |STEPS|) as real
  {
    if n == |STEPS| {
      assert Nominal(1) == 1.0 && Nominal(2) == 6.0 && Nominal(3) == 21.0;
      assert Nominal(4) == 51.0 && Nominal(5) == 111.0;
    } else {
      NominalClosed(n - 1);
    }
  }

  lemma {:induction false} SumNearNominal(rs: seq<real>)
    requires Random(rs)
    ensures 0.8 * Nominal(|rs|) <= Sum(Waits(0, rs)) <= 1.2 * Nominal(|rs|)
    ensures rs != [] ==> Sum(Waits(0, rs)) < 1.2 * Nominal(|rs|)
  {
    if rs != [] {
      var n := |rs| - 1;
      SumNearNominal(rs[..n]);
      assert Waits(0, rs)[..n] == Waits(0, rs[..n]);
      assert Waits(0, rs)[n] == Jitter(StepAt(n), rs[n]);
    }
  }

  /** The whole time waited in `n` attempts since a reset. */
  lemma TotalWait(rs: seq<real>)
    requires Random(rs) && |rs| >= |STEPS|
    ensures var nominal := 111.0 + 60.0 * (|rs| - |STEPS|) as real;
            0.8 * nominal <= Sum(Waits(0, rs)) < 1.2 * nominal
  {
    NominalClosed(|rs|);
    SumNearNominal(rs);
  }
}
