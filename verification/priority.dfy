/** Non-preemptive priority scheduling (src/algorithms/PriorityScheduler.java). */
module PriorityScheduling {
  import opened IndexSeqs
  import opened Processes
  import opened Segments
  import opened StableSort
  import opened Metrics

  /** What `schedule` leaves behind: the caller's list order after the sort
      (as arena indices), the returned segments, and the arena with the
      completion times written. */
  datatype Outcome = Outcome(order: seq<nat>, segments: seq<Segment>, procs: seq<Process>)

  /** The returned segments and the arena with completion times written. */
  datatype Trace = Trace(segs: seq<Segment>, procs: seq<Process>)

  /** The for-loop over the sorted list from position k on, at the given
      time: wait for the process if it has not arrived, run it for its whole
      burst, record its completion, then pay the context switch. Segment j - k
      of the result belongs to order[j]. */
  function Run(ps: seq<Process>, order: seq<nat>, k: nat, time: int, cs: int): (r: Trace)
    requires Distinct(order) && InRange(order, |ps|) && k <= |order|
    ensures |r.segs| == |order| - k && |r.procs| == |ps|
    decreases |order| - k
  {
    if k == |order| then Trace([], ps)
    else
      var p := ps[order[k]];
      var start := if p.arrival > time then p.arrival else time;
      var rest := Run(ps[order[k] := SetCompletion(p, start + p.burst)], order, k + 1, start + p.burst + cs, cs);
      Trace([SegmentOf(p, p.burst, start)] + rest.segs, rest.procs)
  }

  /** Segment j - k is the whole burst of order[j], under its name, pid and priority. */
  lemma {:induction false} RunSegment(ps: seq<Process>, order: seq<nat>, k: nat, time: int, cs: int, j: nat)
    requires Distinct(order) && InRange(order, |ps|) && k <= j < |order|
    ensures Describes(Run(ps, order, k, time, cs).segs[j - k], ps[order[j]])
    ensures Run(ps, order, k, time, cs).segs[j - k].duration == ps[order[j]].burst
    decreases |order| - k
  {
    if j > k {
      var p := ps[order[k]];
      var start := if p.arrival > time then p.arrival else time;
      var ps' := ps[order[k] := SetCompletion(p, start + p.burst)];
      RunSegment(ps', order, k + 1, start + p.burst + cs, cs, j);
      assert ps'[order[j]] == ps[order[j]];
    }
  }

  /** Segment j - k starts when the CPU is free (after the previous segment and
      a context switch, or at the given time for the first) or when order[j]
      arrives, whichever is later. */
  lemma {:induction false} RunStart(ps: seq<Process>, order: seq<nat>, k: nat, time: int, cs: int, j: nat)
    requires Distinct(order) && InRange(order, |ps|) && k <= j < |order|
    ensures var segs := Run(ps, order, k, time, cs).segs;
      segs[j - k].start == Max(if j == k then time else End(segs[j - k - 1]) + cs, ps[order[j]].arrival)
    decreases |order| - k
  {
    var p := ps[order[k]];
    var start := if p.arrival > time then p.arrival else time;
    var ps' := ps[order[k] := SetCompletion(p, start + p.burst)];
    var rest := Run(ps', order, k + 1, start + p.burst + cs, cs);
    var segs := Run(ps, order, k, time, cs).segs;
    assert segs == [SegmentOf(p, p.burst, start)] + rest.segs;
    if j == k {
      assert segs[0] == SegmentOf(p, p.burst, start);
    } else {
      RunStart(ps', order, k + 1, start + p.burst + cs, cs, j);
      assert ps'[order[j]] == ps[order[j]];
      assert segs[j - k] == rest.segs[j - k - 1];
      if j == k + 1 {
        assert segs[0] == SegmentOf(p, p.burst, start);
      } else {
        assert segs[j - k - 1] == rest.segs[j - k - 2];
      }
    }
  }

  /** A process the loop does not reach from position k on is untouched. */
  lemma {:induction false} RunLeavesOthers(ps: seq<Process>, order: seq<nat>, k: nat, time: int, cs: int, x: nat)
    requires Distinct(order) && InRange(order, |ps|) && k <= |order| && x < |ps|
    requires forall j :: k <= j < |order| ==> order[j] != x
    ensures Run(ps, order, k, time, cs).procs[x] == ps[x]
    decreases |order| - k
  {
    if k < |order| {
      var p := ps[order[k]];
      var start := if p.arrival > time then p.arrival else time;
      var ps' := ps[order[k] := SetCompletion(p, start + p.burst)];
      RunLeavesOthers(ps', order, k + 1, start + p.burst + cs, cs, x);
    }
  }

  /** The process at position j gets the end of its segment as its completion
      time, and nothing else of it is written. */
  lemma {:induction false} RunCompletion(ps: seq<Process>, order: seq<nat>, k: nat, time: int, cs: int, j: nat)
    requires Distinct(order) && InRange(order, |ps|) && k <= j < |order|
    ensures Run(ps, order, k, time, cs).procs[order[j]] == SetCompletion(ps[order[j]], End(Run(ps, order, k, time, cs).segs[j - k]))
    decreases |order| - k
  {
    var p := ps[order[k]];
    var start := if p.arrival > time then p.arrival else time;
    var ps' := ps[order[k] := SetCompletion(p, start + p.burst)];
    if j == k {
      RunLeavesOthers(ps', order, k + 1, start + p.burst + cs, cs, order[k]);
    } else {
      RunCompletion(ps', order, k + 1, start + p.burst + cs, cs, j);
      assert ps'[order[j]] == ps[order[j]];
    }
  }

  /** `schedule(processes, contextSwitchingTime)`: sort by (priority, arrival),
      then run each process to completion in that order, starting at time 0. */
  function Schedule(ps: seq<Process>, cs: int): (o: Outcome)
    ensures IsPermutation(o.order, |ps|) && SortedBy(ps, PriorityThenArrival, o.order)
    ensures |o.segments| == |ps| && |o.procs| == |ps|
    ensures forall j :: 0 <= j < |ps| ==>
      Describes(o.segments[j], ps[o.order[j]]) && o.segments[j].duration == ps[o.order[j]].burst
    ensures |ps| > 0 ==> o.segments[0].start == Max(0, ps[o.order[0]].arrival)
    ensures forall j :: 0 < j < |ps| ==>
      o.segments[j].start == Max(End(o.segments[j - 1]) + cs, ps[o.order[j]].arrival)
    ensures forall j :: 0 <= j < |ps| ==>
      o.procs[o.order[j]] == SetCompletion(ps[o.order[j]], End(o.segments[j]))
  {
    var order := StableOrder(ps, PriorityThenArrival);
    var r := Run(ps, order, 0, 0, cs);
    forall j | 0 <= j < |ps|
      ensures r.procs[order[j]] == SetCompletion(ps[order[j]], End(r.segs[j]))
      ensures Describes(r.segs[j], ps[order[j]]) && r.segs[j].duration == ps[order[j]].burst
      ensures r.segs[j].start == Max(if j == 0 then 0 else End(r.segs[j - 1]) + cs, ps[order[j]].arrival)
    {
      RunCompletion(ps, order, 0, 0, cs, j);
      RunSegment(ps, order, 0, 0, cs, j);
      RunStart(ps, order, 0, 0, cs, j);
    }
    Outcome(order, r.segs, r.procs)
  }

  /** Exactly one segment per process, and nothing but completion times is
      written: burst, arrival, priority and every other field stay as given. */
  lemma OnlyCompletionWritten(ps: seq<Process>, cs: int, i: nat)
    requires i < |ps|
    ensures SameExcept(ps[i], Schedule(ps, cs).procs[i], CompletionField)
    ensures exists j :: 0 <= j < |ps| && Schedule(ps, cs).order[j] == i
  {
    var o := Schedule(ps, cs);
    assert i in o.order;
    var j :| 0 <= j < |o.order| && o.order[j] == i;
    assert o.procs[i] == SetCompletion(ps[i], End(o.segments[j]));
  }

  /** The execution order is THE stable sort: any arrangement of the arena
      that is sorted by (priority, arrival) with ties in input order equals it. */
  lemma OrderIsStableSort(ps: seq<Process>, cs: int, s: seq<nat>)
    requires IsPermutation(s, |ps|) && SortedBy(ps, PriorityThenArrival, s)
    ensures Schedule(ps, cs).order == s
  {
    var o := Schedule(ps, cs).order;
    forall x
      ensures x in s <==> x in o
    {
      if x in s { assert x < |ps|; }
      if x in o { assert x < |ps|; }
    }
    SortedPermutationUnique(ps, PriorityThenArrival, s, o);
  }

  /** Every process starts no earlier than its arrival and no earlier than
      time 0; the CPU idles only until the next process arrives. */
  lemma StartsAfterArrival(ps: seq<Process>, cs: int, j: nat)
    requires j < |ps|
    ensures Schedule(ps, cs).segments[j].start >= ps[Schedule(ps, cs).order[j]].arrival
    ensures j == 0 ==> Schedule(ps, cs).segments[j].start >= 0
    ensures j > 0 ==> Schedule(ps, cs).segments[j].start >= End(Schedule(ps, cs).segments[j - 1]) + cs
    ensures j > 0 && Schedule(ps, cs).segments[j].start > End(Schedule(ps, cs).segments[j - 1]) + cs
            ==> Schedule(ps, cs).segments[j].start == ps[Schedule(ps, cs).order[j]].arrival
  {
  }

  /** With a non-negative context switch and non-negative bursts the segments
      never overlap; with positive bursts their start times strictly increase. */
  lemma SegmentsDoNotOverlap(ps: seq<Process>, cs: int)
    requires cs >= 0 && forall i :: 0 <= i < |ps| ==> ps[i].burst >= 0
    ensures Sequential(Schedule(ps, cs).segments)
    ensures (forall i :: 0 <= i < |ps| ==> ps[i].burst > 0) ==>
      forall j :: 0 < j < |ps| ==> Schedule(ps, cs).segments[j - 1].start < Schedule(ps, cs).segments[j].start
  {
    var o := Schedule(ps, cs);
    forall j | 0 < j < |ps|
      ensures Precedes(o.segments[j - 1], o.segments[j])
    {
      assert o.order[j - 1] < |ps|;
    }
  }

  /** Completion is start + burst, so `getWaitingTime` at the completion time
      is the start delay, never negative, and turnaround is at least the burst. */
  lemma WaitingIsStartDelay(ps: seq<Process>, cs: int, j: nat)
    requires j < |ps|
    ensures var o := Schedule(ps, cs);
      && WaitingOf(o.procs[o.order[j]]) == o.segments[j].start - ps[o.order[j]].arrival >= 0
      && TurnaroundOf(o.procs[o.order[j]]) >= ps[o.order[j]].burst
  {
    StartsAfterArrival(ps, cs, j);
  }

  /** `calculateAverageWaitingTime`: over the list as given, total of `getWaitingTime` at each completion time. */
  function AverageWaitingTime(ps: seq<Process>): (m: Mean)
    ensures m.count == |ps| && m.total == Sum(ps, WaitingOf)
  {
    AverageOf(ps, WaitingOf)
  }

  /** `calculateAverageTurnaroundTime`: over the list as given. */
  function AverageTurnaroundTime(ps: seq<Process>): (m: Mean)
    ensures m.count == |ps| && m.total == Sum(ps, TurnaroundOf)
  {
    AverageOf(ps, TurnaroundOf)
  }

  /** After scheduling, the mean waiting time is never negative and the mean
      turnaround exceeds it by exactly the mean burst. */
  lemma AveragesAfterSchedule(ps: seq<Process>, cs: int)
    ensures var procs := Schedule(ps, cs).procs;
      && AverageWaitingTime(procs).total >= 0
      && AverageTurnaroundTime(procs).total == AverageWaitingTime(procs).total + Sum(procs, BurstOf)
  {
    var o := Schedule(ps, cs);
    forall i | 0 <= i < |ps|
      ensures WaitingOf(o.procs[i]) >= 0
    {
      OnlyCompletionWritten(ps, cs, i);
      var j :| 0 <= j < |ps| && o.order[j] == i;
      WaitingIsStartDelay(ps, cs, j);
    }
    SumNonNegative(o.procs, WaitingOf);
    TurnaroundIsWaitingPlusBurst(o.procs);
  }
}
