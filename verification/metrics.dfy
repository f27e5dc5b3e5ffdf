/** The `calculateAverage...` methods every scheduler carries: a total over a
    list of processes divided by the list's length. The division is kept
    exact as a total and a count; a count of 0 stands for the source's
    double division 0.0 / 0 on an empty list, which is NaN. */
module Metrics {
  import opened IndexSeqs
  import opened Processes

  /** total / count, kept exact; count 0 is NaN. */
  datatype Mean = Mean(total: int, count: nat)

  /** Sum of f over the list. */
  function Sum(ps: seq<Process>, f: Process -> int): int {
    if |ps| == 0 then 0 else Sum(ps[..|ps| - 1], f) + f(ps[|ps| - 1])
  }

  /** The average of f over the list. */
  function AverageOf(ps: seq<Process>, f: Process -> int): (m: Mean)
    ensures m.count == |ps| && m.total == Sum(ps, f)
    ensures (forall i :: 0 <= i < |ps| ==> f(ps[i]) >= 0) ==> m.total >= 0
  {
    SumNonNegative(ps, f);
    Mean(Sum(ps, f), |ps|)
  }

  // Per-process values read from the stored completion time, as the
  // average methods do.
  function TurnaroundOf(p: Process): int { TurnaroundTime(p, p.completion) }
  function WaitingOf(p: Process): int { WaitingTime(p, p.completion) }
  function WaitingSrtfOf(p: Process): int { WaitingTimeSrtf(p, p.completion) }
  function WaitingFcaiOf(p: Process): int { WaitingTimeFcai(p, p.originalBurst) }
  function BurstOf(p: Process): int { p.burst }
  function ArrivalOf(p: Process): int { p.arrival }
  function OriginalBurstOf(p: Process): int { p.originalBurst }

  /** A sum of non-negative values is non-negative. */
  lemma {:induction false} SumNonNegative(ps: seq<Process>, f: Process -> int)
    ensures (forall i :: 0 <= i < |ps| ==> f(ps[i]) >= 0) ==> Sum(ps, f) >= 0
  {
    if |ps| > 0 && forall i :: 0 <= i < |ps| ==> f(ps[i]) >= 0 {
      var front := ps[..|ps| - 1];
      assert forall i :: 0 <= i < |front| ==> front[i] == ps[i];
      SumNonNegative(front, f);
    }
  }

  /** Sums are linear: a per-process identity f = g + h lifts to the totals. */
  lemma {:induction false} SumSplit(ps: seq<Process>, f: Process -> int, g: Process -> int, h: Process -> int)
    requires forall i :: 0 <= i < |ps| ==> f(ps[i]) == g(ps[i]) + h(ps[i])
    ensures Sum(ps, f) == Sum(ps, g) + Sum(ps, h)
  {
    if |ps| > 0 {
      SumSplit(ps[..|ps| - 1], f, g, h);
    }
  }

  /** Total turnaround = total `getWaitingTime` + total remaining burst, for any list. */
  lemma TurnaroundIsWaitingPlusBurst(ps: seq<Process>)
    ensures Sum(ps, TurnaroundOf) == Sum(ps, WaitingOf) + Sum(ps, BurstOf)
  {
    SumSplit(ps, TurnaroundOf, WaitingOf, BurstOf);
  }

  /** Total turnaround = total SRTF waiting + total original burst, for any list. */
  lemma TurnaroundIsSrtfWaitingPlusOriginal(ps: seq<Process>)
    ensures Sum(ps, TurnaroundOf) == Sum(ps, WaitingSrtfOf) + Sum(ps, OriginalBurstOf)
  {
    SumSplit(ps, TurnaroundOf, WaitingSrtfOf, OriginalBurstOf);
  }

  /** The FCAI waiting time is the SRTF one, whatever argument it is passed. */
  lemma FcaiWaitingIsSrtfWaiting(ps: seq<Process>)
    ensures Sum(ps, WaitingFcaiOf) == Sum(ps, WaitingSrtfOf)
  {
    SumSplit(ps, WaitingFcaiOf, WaitingSrtfOf, p => 0);
    ZeroSum(ps);
  }

  lemma {:induction false} ZeroSum(ps: seq<Process>)
    ensures Sum(ps, p => 0) == 0
  {
    if |ps| > 0 {
      ZeroSum(ps[..|ps| - 1]);
    }
  }

  /** Replacing one process changes the sum by the difference of its values. */
  lemma {:induction false} SumUpdate(ps: seq<Process>, i: nat, q: Process, f: Process -> int)
    requires i < |ps|
    ensures Sum(ps[i := q], f) == Sum(ps, f) - f(ps[i]) + f(q)
  {
    var n := |ps| - 1;
    if i < n {
      SumUpdate(ps[..n], i, q, f);
      assert ps[i := q][..n] == ps[..n][i := q];
    } else {
      assert ps[i := q][..n] == ps[..n];
    }
  }

  /** The largest value of f over the list, 0 for an empty list: a stream's
      `max().orElse(0.0)`. */
  function Greatest(ps: seq<Process>, f: Process -> int): int {
    if |ps| == 0 then 0
    else if |ps| == 1 then f(ps[0])
    else Max(Greatest(ps[..|ps| - 1], f), f(ps[|ps| - 1]))
  }

  /** Greatest bounds every value and, for a non-empty list, is one of them. */
  lemma {:induction false} GreatestIsMax(ps: seq<Process>, f: Process -> int)
    ensures forall i :: 0 <= i < |ps| ==> f(ps[i]) <= Greatest(ps, f)
    ensures |ps| > 0 ==> exists i :: 0 <= i < |ps| && f(ps[i]) == Greatest(ps, f)
  {
    if |ps| > 1 {
      var n := |ps| - 1;
      GreatestIsMax(ps[..n], f);
      var i :| 0 <= i < n && f(ps[..n][i]) == Greatest(ps[..n], f);
      assert forall k :: 0 <= k < n ==> ps[..n][k] == ps[k];
      if Greatest(ps, f) != f(ps[n]) {
        assert f(ps[i]) == Greatest(ps, f);
      } else {
        assert f(ps[n]) == Greatest(ps, f);
      }
    } else if |ps| == 1 {
      assert f(ps[0]) == Greatest(ps, f);
    }
  }

  /** Processes that agree on f have the same greatest value. */
  lemma {:induction false} GreatestAgrees(ps: seq<Process>, qs: seq<Process>, f: Process -> int)
    requires |ps| == |qs| && forall i :: 0 <= i < |ps| ==> f(ps[i]) == f(qs[i])
    ensures Greatest(ps, f) == Greatest(qs, f)
  {
    if |ps| > 1 {
      GreatestAgrees(ps[..|ps| - 1], qs[..|qs| - 1], f);
    }
  }

  /** Lists that agree pointwise on f and g have equal sums. */
  lemma {:induction false} SumAgrees(ps: seq<Process>, qs: seq<Process>, f: Process -> int, g: Process -> int)
    requires |ps| == |qs| && forall i :: 0 <= i < |ps| ==> f(ps[i]) == g(qs[i])
    ensures Sum(ps, f) == Sum(qs, g)
  {
    if |ps| > 0 {
      SumAgrees(ps[..|ps| - 1], qs[..|qs| - 1], f, g);
    }
  }
}
