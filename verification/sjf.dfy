/** Non-preemptive shortest-job-first scheduling with a starvation override
    (src/algorithms/ShortestJobFirstScheduler.java). */
module SjfScheduling {
  import opened IndexSeqs
  import opened Processes
  import opened Segments
  import opened StableSort
  import opened Metrics
  import opened Starvation
  import opened Completions

  /** The comparator of the caller's list: arrival, then burst, then priority. */
  const ListKey: SortKey := ArrivalThenBurstThenPriority

  /** The comparator of the `min` selection: shorter burst, then earlier arrival. */
  predicate JobLess(p: Process, q: Process) {
    p.burst < q.burst || (p.burst == q.burst && p.arrival < q.arrival)
  }

  // The selection scans below walk the remaining list in order and skip
  // the processes that have not arrived, which visits `availableProcesses`
  // in its own order; results are positions in the remaining list.

  /** The first position from i on whose process has arrived by time t. */
  function FirstArrived(ps: seq<Process>, pool: seq<nat>, t: int, i: nat): (r: Option<nat>)
    requires InRange(pool, |ps|) && i <= |pool|
    ensures r.Some? ==> i <= r.value < |pool|
    decreases |pool| - i
  {
    if i == |pool| then None
    else if ps[pool[i]].arrival <= t then Some(i)
    else FirstArrived(ps, pool, t, i + 1)
  }

  /** FirstArrived finds an arrived process and skips only unarrived ones;
      None means nothing from position i on has arrived. */
  lemma {:induction false} FirstArrivedRule(ps: seq<Process>, pool: seq<nat>, t: int, i: nat)
    requires InRange(pool, |ps|) && i <= |pool|
    ensures var r := FirstArrived(ps, pool, t, i);
      && (r.Some? ==> ps[pool[r.value]].arrival <= t)
      && forall m :: i <= m < |pool| && (r.None? || m < r.value) ==> ps[pool[m]].arrival > t
    decreases |pool| - i
  {
    if i < |pool| && ps[pool[i]].arrival > t {
      FirstArrivedRule(ps, pool, t, i + 1);
    }
  }

  /** The starvation scan: the first available process from position i on
      whose `getWaitingTime(t)` exceeds `MaxWaitTime` and whose burst is positive. */
  function FirstStarving(ps: seq<Process>, pool: seq<nat>, t: int, i: nat): (r: Option<nat>)
    requires InRange(pool, |ps|) && i <= |pool|
    ensures r.Some? ==> i <= r.value < |pool|
    decreases |pool| - i
  {
    if i == |pool| then None
    else if ps[pool[i]].arrival <= t && Starving(ps[pool[i]], t) then Some(i)
    else FirstStarving(ps, pool, t, i + 1)
  }

  /** The scan finds an available starving process, and none before it;
      None means no available process from position i on is starving. */
  lemma {:induction false} FirstStarvingRule(ps: seq<Process>, pool: seq<nat>, t: int, i: nat)
    requires InRange(pool, |ps|) && i <= |pool|
    ensures var r := FirstStarving(ps, pool, t, i);
      && (r.Some? ==> ps[pool[r.value]].arrival <= t && Starving(ps[pool[r.value]], t))
      && forall m :: i <= m < |pool| && (r.None? || m < r.value) && ps[pool[m]].arrival <= t ==>
           !Starving(ps[pool[m]], t)
    decreases |pool| - i
  {
    if i < |pool| && !(ps[pool[i]].arrival <= t && Starving(ps[pool[i]], t)) {
      FirstStarvingRule(ps, pool, t, i + 1);
    }
  }

  /** `stream().min(...)` over the available processes from position i on,
      with pool[best] the minimum so far: a later one replaces the current
      one only when strictly less. */
  function Shortest(ps: seq<Process>, pool: seq<nat>, t: int, best: nat, i: nat): (k: nat)
    requires InRange(pool, |ps|) && best < i <= |pool|
    ensures best <= k < |pool|
    decreases |pool| - i
  {
    if i == |pool| then best
    else if ps[pool[i]].arrival <= t && JobLess(ps[pool[i]], ps[pool[best]]) then Shortest(ps, pool, t, i, i + 1)
    else Shortest(ps, pool, t, best, i + 1)
  }

  /** If pool[best] is the first minimum among the available processes
      before position i, the scan ends on the first minimum among all of them. */
  lemma {:induction false} ShortestRule(ps: seq<Process>, pool: seq<nat>, t: int, best: nat, i: nat)
    requires InRange(pool, |ps|) && best < i <= |pool| && ps[pool[best]].arrival <= t
    requires forall m :: 0 <= m < i && ps[pool[m]].arrival <= t ==> !JobLess(ps[pool[m]], ps[pool[best]])
    requires forall m :: 0 <= m < best && ps[pool[m]].arrival <= t ==> JobLess(ps[pool[best]], ps[pool[m]])
    ensures var k := Shortest(ps, pool, t, best, i);
      && ps[pool[k]].arrival <= t
      && (forall m :: 0 <= m < |pool| && ps[pool[m]].arrival <= t ==> !JobLess(ps[pool[m]], ps[pool[k]]))
      && (forall m :: 0 <= m < k && ps[pool[m]].arrival <= t ==> JobLess(ps[pool[k]], ps[pool[m]]))
    decreases |pool| - i
  {
    if i < |pool| {
      if ps[pool[i]].arrival <= t && JobLess(ps[pool[i]], ps[pool[best]]) {
        forall m | 0 <= m < i && ps[pool[m]].arrival <= t
          ensures JobLess(ps[pool[i]], ps[pool[m]])
        {
          assert !JobLess(ps[pool[m]], ps[pool[best]]);
        }
        ShortestRule(ps, pool, t, i, i + 1);
      } else {
        ShortestRule(ps, pool, t, best, i + 1);
      }
    }
  }

  /** One turn of the loop's selection at time t: None when
      `availableProcesses` is empty, otherwise the position in the list of
      the process selected, the first starving one if any, else the first
      of minimal (burst, arrival). PickObeysRule and NothingToPick state it. */
  function Pick(ps: seq<Process>, pool: seq<nat>, t: int): (r: Option<nat>)
    requires InRange(pool, |ps|)
    ensures r.Some? <==> FirstArrived(ps, pool, t, 0).Some?
    ensures r.Some? ==> r.value < |pool|
  {
    match FirstArrived(ps, pool, t, 0)
    case None => None
    case Some(f) =>
      match FirstStarving(ps, pool, t, 0)
      case Some(k) => Some(k)
      case None => Some(Shortest(ps, pool, t, f, f + 1))
  }

  /** Nothing is picked exactly when nothing in the list has arrived. */
  lemma NothingToPick(ps: seq<Process>, pool: seq<nat>, t: int)
    requires InRange(pool, |ps|)
    ensures Pick(ps, pool, t).None? <==> forall y :: y in pool ==> ps[y].arrival > t
  {
    FirstArrivedRule(ps, pool, t, 0);
  }

  /** x beats y at time t under the selection rule: if y had arrived, then
      if y is starving so is x, ahead of y in list order; and if x is not
      starving, y does not have a shorter (burst, arrival), and if theirs
      are equal x is ahead of y in list order. */
  predicate Beats(ps: seq<Process>, x: nat, y: nat, t: int)
    requires x < |ps| && y < |ps|
  {
    y != x && ps[y].arrival <= t ==>
      && (Starving(ps[y], t) ==> Starving(ps[x], t) && Before(ps, ListKey, x, y))
      && (!Starving(ps[x], t) ==> !JobLess(ps[y], ps[x]) && (!JobLess(ps[x], ps[y]) ==> Before(ps, ListKey, x, y)))
  }

  /** x is what the selection rule allows at time t against `others`. */
  predicate Picked(ps: seq<Process>, x: nat, others: seq<nat>, t: int)
    requires x < |ps| && InRange(others, |ps|)
  {
    forall y :: y in others ==> Beats(ps, x, y, t)
  }

  /** The process Pick returns has arrived. */
  lemma PickObeysArrival(ps: seq<Process>, pool: seq<nat>, t: int)
    requires InRange(pool, |ps|) && Pick(ps, pool, t).Some?
    ensures ps[pool[Pick(ps, pool, t).value]].arrival <= t
  {
    var f := FirstArrived(ps, pool, t, 0).value;
    FirstArrivedRule(ps, pool, t, 0);
    FirstStarvingRule(ps, pool, t, 0);
    ShortestRule(ps, pool, t, f, f + 1);
  }

  /** The process Pick returns has arrived and obeys the selection rule
      against the whole list. */
  lemma PickObeysRule(ps: seq<Process>, pool: seq<nat>, t: int)
    requires Distinct(pool) && InRange(pool, |ps|) && SortedBy(ps, ListKey, pool)
    requires Pick(ps, pool, t).Some?
    ensures ps[pool[Pick(ps, pool, t).value]].arrival <= t
    ensures Picked(ps, pool[Pick(ps, pool, t).value], pool, t)
  {
    var f := FirstArrived(ps, pool, t, 0).value;
    FirstArrivedRule(ps, pool, t, 0);
    FirstStarvingRule(ps, pool, t, 0);
    ShortestRule(ps, pool, t, f, f + 1);
    var k := Pick(ps, pool, t).value;
    var x := pool[k];
    forall y | y in pool
      ensures Beats(ps, x, y, t)
    {
      var q :| 0 <= q < |pool| && pool[q] == y;
      if q > k {
        assert Before(ps, ListKey, pool[k], pool[q]);
      }
    }
  }

  /** The idle ticks: `currentTime++` while `availableProcesses` is empty.
      IdleWaits states where they stop. */
  function Idle(ps: seq<Process>, pool: seq<nat>, time: int): (t: int)
    requires InRange(pool, |ps|) && pool != []
    ensures t >= time && FirstArrived(ps, pool, t, 0).Some?
    decreases ps[pool[0]].arrival - time
  {
    if FirstArrived(ps, pool, time, 0).Some? then time
    else
      FirstArrivedRule(ps, pool, time, 0);
      Idle(ps, pool, time + 1)
  }

  /** The ticks stop at the first time some process of the list has
      arrived: if the CPU idled at all, nothing had arrived before. */
  lemma {:induction false} IdleWaits(ps: seq<Process>, pool: seq<nat>, time: int)
    requires InRange(pool, |ps|) && pool != []
    ensures var t := Idle(ps, pool, time);
      t > time ==> forall y :: y in pool ==> ps[y].arrival >= t
    decreases ps[pool[0]].arrival - time
  {
    FirstArrivedRule(ps, pool, time, 0);
    if FirstArrived(ps, pool, time, 0).None? {
      IdleWaits(ps, pool, time + 1);
    }
  }

  /** What the loop has produced so far: the processes in the order they ran
      (`executionOrder`) and their segments (`executionOrder2`). */
  datatype Run = Run(executed: seq<nat>, segs: seq<Segment>)

  /** One dispatch appended to the run: x ran its whole burst from time t. */
  function Dispatch(ps: seq<Process>, done: Run, x: nat, t: int): (r: Run)
    requires x < |ps|
    ensures r.executed == done.executed + [x]
    ensures r.segs == done.segs + [SegmentOf(ps[x], ps[x].burst, t)]
  {
    Run(done.executed + [x], done.segs + [SegmentOf(ps[x], ps[x].burst, t)])
  }

  /** The while-loop with `pool` as what is left of the caller's list: tick
      until something has arrived, run the process selected for its whole
      burst, take it out of the list, and go on after the burst and the
      context switch. Completion times are not read inside the loop;
      `Complete` writes them afterwards. */
  function Loop(ps: seq<Process>, pool: seq<nat>, time: int, cs: int, done: Run): (r: Run)
    requires Distinct(pool) && InRange(pool, |ps|)
    ensures |r.executed| == |done.executed| + |pool| && |r.segs| == |done.segs| + |pool|
    decreases |pool|
  {
    if pool == [] then done
    else
      var t := Idle(ps, pool, time);
      var k := Pick(ps, pool, t).value;
      RemoveAtKeepsShape(pool, k, |ps|);
      Loop(ps, RemoveAt(pool, k), t + ps[pool[k]].burst + cs, cs, Dispatch(ps, done, pool[k], t))
  }

  /** When the CPU is free for the j-th dispatch: at time 0 for the first,
      after the previous segment and a context switch for the others. */
  function FreeAt(segs: seq<Segment>, j: nat, cs: int): (t: int)
    requires j <= |segs|
  {
    if j == 0 then 0 else End(segs[j - 1]) + cs
  }

  // What holds of the run so far and the list still waiting, every time the
  // loop condition is tested. LoopKeeps carries it from start to finish.

  /** Nobody run twice, nobody both run and still waiting, the list still
      in its sorted order, one segment per process run, and the clock at
      the moment the CPU is next free. */
  predicate Shape(ps: seq<Process>, cs: int, done: Run, pool: seq<nat>, time: int) {
    && |done.segs| == |done.executed|
    && Distinct(done.executed) && InRange(done.executed, |ps|)
    && Distinct(pool) && InRange(pool, |ps|) && SortedBy(ps, ListKey, pool)
    && (forall y :: y in pool ==> y !in done.executed)
    && time == FreeAt(done.segs, |done.segs|, cs)
  }

  /** Segment j is the whole burst of the j-th process run, under its name,
      pid and priority. */
  predicate SegmentsMatch(ps: seq<Process>, done: Run)
    requires |done.segs| == |done.executed| && InRange(done.executed, |ps|)
  {
    forall j :: 0 <= j < |done.executed| ==>
      Describes(done.segs[j], ps[done.executed[j]]) && done.segs[j].duration == ps[done.executed[j]].burst
  }

  /** No dispatch before the CPU is free or before the process arrives. */
  predicate StartsOk(ps: seq<Process>, cs: int, done: Run)
    requires |done.segs| == |done.executed| && InRange(done.executed, |ps|)
  {
    && (forall j :: 0 <= j < |done.executed| ==> done.segs[j].start >= ps[done.executed[j]].arrival)
    && (forall j {:trigger FreeAt(done.segs, j, cs)} :: 0 <= j < |done.executed| ==>
          done.segs[j].start >= FreeAt(done.segs, j, cs))
  }

  /** If the CPU idled before the j-th dispatch, that process started the
      moment it arrived, and no process run later or still waiting had
      arrived sooner. */
  predicate IdleOk(ps: seq<Process>, cs: int, done: Run, pool: seq<nat>)
    requires |done.segs| == |done.executed| && InRange(done.executed, |ps|) && InRange(pool, |ps|)
  {
    forall j {:trigger FreeAt(done.segs, j, cs)} :: 0 <= j < |done.executed| && done.segs[j].start > FreeAt(done.segs, j, cs) ==>
      && ps[done.executed[j]].arrival == done.segs[j].start
      && (forall m :: j <= m < |done.executed| ==> ps[done.executed[m]].arrival >= done.segs[j].start)
      && (forall y :: y in pool ==> ps[y].arrival >= done.segs[j].start)
  }

  /** Each process run beat, at its dispatch time, every process run after
      it and every process still waiting. */
  predicate ChoiceOk(ps: seq<Process>, done: Run, pool: seq<nat>)
    requires |done.segs| == |done.executed| && InRange(done.executed, |ps|) && InRange(pool, |ps|)
  {
    && (forall j, m :: 0 <= j < m < |done.executed| ==>
          Beats(ps, done.executed[j], done.executed[m], done.segs[j].start))
    && (forall j, y :: 0 <= j < |done.executed| && y in pool ==>
          Beats(ps, done.executed[j], y, done.segs[j].start))
  }

  /** Everything the loop keeps, together. */
  predicate Inv(ps: seq<Process>, cs: int, done: Run, pool: seq<nat>, time: int) {
    && Shape(ps, cs, done, pool, time)
    && SegmentsMatch(ps, done)
    && StartsOk(ps, cs, done)
    && IdleOk(ps, cs, done, pool)
    && ChoiceOk(ps, done, pool)
  }

  /** One turn keeps the bookkeeping. */
  lemma StepShape(ps: seq<Process>, cs: int, done: Run, pool: seq<nat>, time: int)
    requires Shape(ps, cs, done, pool, time) && pool != []
    ensures var t := Idle(ps, pool, time);
      var k := Pick(ps, pool, t).value;
      Shape(ps, cs, Dispatch(ps, done, pool[k], t), RemoveAt(pool, k), t + ps[pool[k]].burst + cs)
  {
    var t := Idle(ps, pool, time);
    var k := Pick(ps, pool, t).value;
    var x := pool[k];
    var d := Dispatch(ps, done, x, t);
    RemoveAtKeepsShape(pool, k, |ps|);
    RemoveAtSorted(ps, ListKey, pool, k);
    AppendKeepsShape(done.executed, x, |ps|);
    forall y | y in RemoveAt(pool, k)
      ensures y !in d.executed
    {
      assert y in pool && y != x;
    }
  }

  /** Appending a segment does not move the free times of those before it. */
  lemma FreeAtAppend(segs: seq<Segment>, s: Segment, j: nat, cs: int)
    requires j <= |segs|
    ensures FreeAt(segs + [s], j, cs) == FreeAt(segs, j, cs)
  {
    if j > 0 {
      assert (segs + [s])[j - 1] == segs[j - 1];
    }
  }

  /** Dispatching x keeps segments matched to their processes. */
  lemma StepSegments(ps: seq<Process>, done: Run, x: nat, t: int)
    requires |done.segs| == |done.executed| && InRange(done.executed, |ps|) && x < |ps|
    requires SegmentsMatch(ps, done)
    ensures InRange(Dispatch(ps, done, x, t).executed, |ps|) && SegmentsMatch(ps, Dispatch(ps, done, x, t))
  {
  }

  /** Dispatching x at a time t no earlier than the CPU is free and x
      arrives keeps every dispatch after its arrival and the free time. */
  lemma StepStarts(ps: seq<Process>, cs: int, done: Run, x: nat, t: int)
    requires |done.segs| == |done.executed| && InRange(done.executed, |ps|) && x < |ps|
    requires StartsOk(ps, cs, done)
    requires t >= FreeAt(done.segs, |done.segs|, cs) && t >= ps[x].arrival
    ensures InRange(Dispatch(ps, done, x, t).executed, |ps|) && StartsOk(ps, cs, Dispatch(ps, done, x, t))
  {
    var d := Dispatch(ps, done, x, t);
    forall j | 0 <= j < |d.executed|
      ensures d.segs[j].start >= FreeAt(d.segs, j, cs) && d.segs[j].start >= ps[d.executed[j]].arrival
    {
      FreeAtAppend(done.segs, d.segs[|done.segs|], j, cs);
    }
  }

  /** Dispatching a waiting process x at t keeps the idle facts, provided
      that x had arrived and that, if the CPU idled, nothing waiting had
      arrived before t; `fewer` is what waits afterwards. */
  lemma StepIdle(ps: seq<Process>, cs: int, done: Run, pool: seq<nat>, fewer: seq<nat>, x: nat, t: int)
    requires |done.segs| == |done.executed| && InRange(done.executed, |ps|) && InRange(pool, |ps|)
    requires InRange(fewer, |ps|) && x in pool
    requires IdleOk(ps, cs, done, pool)
    requires forall y :: y in fewer ==> y in pool
    requires t >= ps[x].arrival
    requires t > FreeAt(done.segs, |done.segs|, cs) ==> forall y :: y in pool ==> ps[y].arrival >= t
    ensures InRange(Dispatch(ps, done, x, t).executed, |ps|) && IdleOk(ps, cs, Dispatch(ps, done, x, t), fewer)
  {
    var d := Dispatch(ps, done, x, t);
    var n := |done.executed|;
    forall j | 0 <= j < |d.executed| && d.segs[j].start > FreeAt(d.segs, j, cs)
      ensures ps[d.executed[j]].arrival == d.segs[j].start
      ensures forall m :: j <= m < |d.executed| ==> ps[d.executed[m]].arrival >= d.segs[j].start
      ensures forall y :: y in fewer ==> ps[y].arrival >= d.segs[j].start
    {
      FreeAtAppend(done.segs, d.segs[n], j, cs);
      if j < n {
        assert d.segs[j] == done.segs[j] && d.executed[j] == done.executed[j];
        forall m | j <= m < |d.executed|
          ensures ps[d.executed[m]].arrival >= d.segs[j].start
        {
          if m < n {
            assert d.executed[m] == done.executed[m];
          }
        }
      }
    }
  }

  /** Dispatching a waiting process x that beats every waiting process at t
      keeps the selection facts; `fewer` is what waits afterwards. */
  lemma StepChoice(ps: seq<Process>, done: Run, pool: seq<nat>, fewer: seq<nat>, x: nat, t: int)
    requires |done.segs| == |done.executed| && InRange(done.executed, |ps|) && InRange(pool, |ps|)
    requires InRange(fewer, |ps|) && x in pool
    requires ChoiceOk(ps, done, pool) && Picked(ps, x, pool, t)
    requires forall y :: y in fewer ==> y in pool
    ensures InRange(Dispatch(ps, done, x, t).executed, |ps|) && ChoiceOk(ps, Dispatch(ps, done, x, t), fewer)
  {
    var d := Dispatch(ps, done, x, t);
    var n := |done.executed|;
    forall j, m | 0 <= j < m < |d.executed|
      ensures Beats(ps, d.executed[j], d.executed[m], d.segs[j].start)
    {
      assert d.executed[j] == done.executed[j] && d.segs[j] == done.segs[j];
      if m < n {
        assert d.executed[m] == done.executed[m];
      }
    }
    forall j, y | 0 <= j < |d.executed| && y in fewer
      ensures Beats(ps, d.executed[j], y, d.segs[j].start)
    {
      if j < n {
        assert d.executed[j] == done.executed[j] && d.segs[j] == done.segs[j];
      }
    }
  }

  /** What one turn of the loop guarantees about the process it dispatches
      and when. */
  lemma TurnFacts(ps: seq<Process>, pool: seq<nat>, time: int)
    requires Distinct(pool) && InRange(pool, |ps|) && SortedBy(ps, ListKey, pool) && pool != []
    ensures var t := Idle(ps, pool, time);
      var k := Pick(ps, pool, t).value;
      && k < |pool| && t >= time && ps[pool[k]].arrival <= t
      && Picked(ps, pool[k], pool, t)
      && (t > time ==> forall y :: y in pool ==> ps[y].arrival >= t)
      && (forall y :: y in RemoveAt(pool, k) ==> y in pool)
  {
    var t := Idle(ps, pool, time);
    var k := Pick(ps, pool, t).value;
    PickObeysRule(ps, pool, t);
    IdleWaits(ps, pool, time);
    RemoveAtKeepsShape(pool, k, |ps|);
  }

  /** The loop keeps Inv from any state to the end, where nothing waits. */
  lemma {:induction false} LoopKeeps(ps: seq<Process>, pool: seq<nat>, time: int, cs: int, done: Run)
    requires Inv(ps, cs, done, pool, time)
    ensures var r := Loop(ps, pool, time, cs, done);
      Inv(ps, cs, r, [], FreeAt(r.segs, |r.segs|, cs))
    decreases |pool|
  {
    if pool != [] {
      var t := Idle(ps, pool, time);
      var k := Pick(ps, pool, t).value;
      var x := pool[k];
      TurnFacts(ps, pool, time);
      StepShape(ps, cs, done, pool, time);
      StepSegments(ps, done, x, t);
      StepStarts(ps, cs, done, x, t);
      StepIdle(ps, cs, done, pool, RemoveAt(pool, k), x, t);
      StepChoice(ps, done, pool, RemoveAt(pool, k), x, t);
      LoopKeeps(ps, RemoveAt(pool, k), t + ps[x].burst + cs, cs, Dispatch(ps, done, x, t));
      assert Loop(ps, pool, time, cs, done) == Loop(ps, RemoveAt(pool, k), t + ps[x].burst + cs, cs, Dispatch(ps, done, x, t));
    }
  }

  /** The loop runs exactly the processes already run and those waiting. */
  lemma {:induction false} LoopMembers(ps: seq<Process>, pool: seq<nat>, time: int, cs: int, done: Run)
    requires Distinct(pool) && InRange(pool, |ps|)
    ensures forall y :: y in Loop(ps, pool, time, cs, done).executed <==> y in done.executed || y in pool
    decreases |pool|
  {
    if pool != [] {
      var t := Idle(ps, pool, time);
      var k := Pick(ps, pool, t).value;
      RemoveAtKeepsShape(pool, k, |ps|);
      LoopMembers(ps, RemoveAt(pool, k), t + ps[pool[k]].burst + cs, cs, Dispatch(ps, done, pool[k], t));
    }
  }

  /** What `schedule()` leaves behind: the caller's list as sorted, the
      execution order, the returned segments, and the arena with completion
      times written. The caller's list itself ends empty: every process in it
      is removed exactly once, as `executed` being a permutation shows. */
  datatype Outcome = Outcome(sorted: seq<nat>, executed: seq<nat>, segments: seq<Segment>, procs: seq<Process>)

  /** `schedule()`: sort the caller's list, then run the loop from time 0. */
  function Schedule(ps: seq<Process>, cs: int): (o: Outcome)
    ensures IsPermutation(o.sorted, |ps|) && SortedBy(ps, ListKey, o.sorted)
    ensures IsPermutation(o.executed, |ps|)
    ensures |o.segments| == |ps| && |o.procs| == |ps|
    ensures forall j :: 0 <= j < |ps| ==>
      o.procs[o.executed[j]] == SetCompletion(ps[o.executed[j]], End(o.segments[j]))
    ensures var run := Run(o.executed, o.segments);
      && SegmentsMatch(ps, run) && StartsOk(ps, cs, run)
      && IdleOk(ps, cs, run, []) && ChoiceOk(ps, run, [])
  {
    var sorted := StableOrder(ps, ListKey);
    var r := Loop(ps, sorted, 0, cs, Run([], []));
    LoopKeeps(ps, sorted, 0, cs, Run([], []));
    LoopMembers(ps, sorted, 0, cs, Run([], []));
    Outcome(sorted, r.executed, r.segs, Complete(ps, r.executed, r.segs))
  }

  /** Each segment is one whole burst; the first starts no earlier than time
      0, each later one no earlier than the previous end plus the context
      switch; none starts before its process arrives; and an idle gap ends
      exactly when the process started arrives, nothing left having arrived
      sooner. Burst is never modified, so completion = start + burst. */
  lemma ScheduleTiming(ps: seq<Process>, cs: int, j: nat)
    requires j < |ps|
    ensures var o := Schedule(ps, cs);
      var free := if j == 0 then 0 else End(o.segments[j - 1]) + cs;
      && Describes(o.segments[j], ps[o.executed[j]])
      && o.segments[j].duration == ps[o.executed[j]].burst
      && o.segments[j].start >= free
      && o.segments[j].start >= ps[o.executed[j]].arrival
      && (o.segments[j].start > free ==>
            ps[o.executed[j]].arrival == o.segments[j].start
            && forall m :: j <= m < |ps| ==> ps[o.executed[m]].arrival >= o.segments[j].start)
      && o.procs[o.executed[j]].completion == o.segments[j].start + ps[o.executed[j]].burst
  {
    var o := Schedule(ps, cs);
    assert o.segments[j].start >= FreeAt(o.segments, j, cs);
  }

  /** Every dispatch follows the selection rule against the processes not
      yet run that had arrived by the dispatch time. */
  lemma ScheduleChoice(ps: seq<Process>, cs: int, j: nat)
    requires j < |ps|
    ensures var o := Schedule(ps, cs);
      Picked(ps, o.executed[j], o.executed[j + 1..], o.segments[j].start)
  {
    var o := Schedule(ps, cs);
    forall y | y in o.executed[j + 1..]
      ensures Beats(ps, o.executed[j], y, o.segments[j].start)
    {
      var m :| j < m < |ps| && o.executed[m] == y;
    }
  }

  /** With a non-negative context switch and non-negative bursts the segments
      never overlap. */
  lemma SegmentsDoNotOverlap(ps: seq<Process>, cs: int)
    requires cs >= 0 && forall i :: 0 <= i < |ps| ==> ps[i].burst >= 0
    ensures Sequential(Schedule(ps, cs).segments)
  {
    var o := Schedule(ps, cs);
    forall j | 0 < j < |ps|
      ensures Precedes(o.segments[j - 1], o.segments[j])
    {
      ScheduleTiming(ps, cs, j);
    }
  }

  /** `executionOrder`: the processes as run, with completion times written. */
  function ExecutionOrder(o: Outcome): (list: seq<Process>)
    requires InRange(o.executed, |o.procs|)
    ensures |list| == |o.executed|
    ensures forall j :: 0 <= j < |list| ==> list[j] == o.procs[o.executed[j]]
  {
    seq(|o.executed|, j requires 0 <= j < |o.executed| => o.procs[o.executed[j]])
  }

  /** `calculateAverageWaitingTime`: `getWaitingTime` at each completion time,
      over the execution order. */
  function AverageWaitingTime(list: seq<Process>): (m: Mean)
    ensures m.count == |list| && m.total == Sum(list, WaitingOf)
  {
    AverageOf(list, WaitingOf)
  }

  /** `calculateAverageTurnaroundTime`, over the execution order. */
  function AverageTurnaroundTime(list: seq<Process>): (m: Mean)
    ensures m.count == |list| && m.total == Sum(list, TurnaroundOf)
  {
    AverageOf(list, TurnaroundOf)
  }

  /** Completion is start + burst, so `getWaitingTime` at the completion
      time is the start delay, never negative, and turnaround is at least
      the burst. */
  lemma WaitingIsStartDelay(ps: seq<Process>, cs: int, j: nat)
    requires j < |ps|
    ensures var o := Schedule(ps, cs);
      && o.procs[o.executed[j]].arrival == ps[o.executed[j]].arrival
      && WaitingOf(o.procs[o.executed[j]]) == o.segments[j].start - ps[o.executed[j]].arrival >= 0
      && TurnaroundOf(o.procs[o.executed[j]]) >= ps[o.executed[j]].burst
  {
    ScheduleTiming(ps, cs, j);
  }

  /** The mean waiting time over the execution order is never negative and
      the mean turnaround exceeds it by exactly the mean burst. */
  lemma AveragesAfterSchedule(ps: seq<Process>, cs: int)
    ensures var list := ExecutionOrder(Schedule(ps, cs));
      && |list| == |ps|
      && AverageWaitingTime(list).total >= 0
      && AverageTurnaroundTime(list).total == AverageWaitingTime(list).total + Sum(list, BurstOf)
  {
    var o := Schedule(ps, cs);
    var list := ExecutionOrder(o);
    forall j | 0 <= j < |list|
      ensures WaitingOf(list[j]) >= 0
    {
      WaitingIsStartDelay(ps, cs, j);
    }
    SumNonNegative(list, WaitingOf);
    TurnaroundIsWaitingPlusBurst(list);
  }
}
