/** Preemptive shortest-remaining-time-first scheduling
    (src/algorithms/ShortestRemainingTimeFirstScheduler.java). The while-loop
    is a state machine: each turn is the for-loop over the sorted list
    (admission and the starvation override), then either one idle tick or
    one unit of the queued process with the least remaining burst. */
module SrtfScheduling {
  import opened IndexSeqs
  import opened Processes
  import opened Segments
  import opened StableSort
  import opened Metrics
  import opened Starvation

  /** The comparator of the initial `processes.sort`: arrival only. */
  const ListKey: SortKey := ArrivalOnly

  /** The loop's variables, with processes named by arena index. */
  datatype State = State(
    procs: seq<Process>,  // the process objects, updated in place by the setters
    queue: seq<nat>,      // the PriorityQueue's elements, in insertion order
    time: int,            // currentTime
    completed: nat,       // completed
    last: Option<nat>,    // lastProcess
    segs: seq<Segment>,   // executionOrder, the returned segments
    owners: seq<nat>,     // the process each segment was emitted for
    finished: seq<nat>,   // executionOrder2: processes in completion order
    starved: seq<nat>)    // processes completed by the starvation override

  /** The state before the while-loop. */
  function Init(ps: seq<Process>): (s: State)
    ensures s.procs == ps && s.time == 0 && s.completed == 0 && s.last == None
    ensures s.queue == [] && s.segs == [] && s.owners == [] && s.finished == [] && s.starved == []
  {
    State(ps, [], 0, 0, None, [], [], [], [])
  }

  /** The admission test of the for-loop: a process that is not queued, has
      arrived and has work left joins the queue, its original burst being
      recorded first if that is still 0. */
  function Admit(s: State, x: nat): (r: State)
    requires x < |s.procs|
    ensures |r.procs| == |s.procs|
  {
    var p := s.procs[x];
    if x !in s.queue && p.arrival <= s.time && p.burst > 0 then
      var p' := if p.originalBurst == 0 then SetOriginalBurst(p, p.burst) else p;
      s.(procs := s.procs[x := p'], queue := s.queue + [x])
    else s
  }

  /** The starvation override of the for-loop: a process that has waited
      more than `MAX_WAIT_TIME` by `getWaitingTime` runs to completion at
      once, after a context switch. The one segment emitted for it lasts 1
      and starts at its completion time. */
  function Starve(s: State, x: nat, cs: int): (r: State)
    requires x < |s.procs|
    ensures |r.procs| == |s.procs|
  {
    var p := s.procs[x];
    if Starving(p, s.time) then
      var t := s.time + cs + p.burst;
      s.(procs := s.procs[x := SetCompletion(SetBurst(p, 0), t)], time := t,
         completed := s.completed + 1, queue := Remove(s.queue, x),
         segs := s.segs + [SegmentOf(p, 1, t)], owners := s.owners + [x],
         finished := s.finished + [x], starved := s.starved + [x])
    else s
  }

  /** The for-loop over the sorted list from position i on. */
  function Pass(s: State, order: seq<nat>, i: nat, cs: int): (r: State)
    requires InRange(order, |s.procs|) && i <= |order|
    ensures |r.procs| == |s.procs|
    decreases |order| - i
  {
    if i == |order| then s
    else Pass(Starve(Admit(s, order[i]), order[i], cs), order, i + 1, cs)
  }

  /** The first queue position holding a least remaining burst. */
  function Shortest(ps: seq<Process>, q: seq<nat>): (k: nat)
    requires |q| > 0 && InRange(q, |ps|)
    ensures k < |q|
  {
    if |q| == 1 then 0
    else
      var k := Shortest(ps, q[..|q| - 1]);
      if ps[q[|q| - 1]].burst < ps[q[k]].burst then |q| - 1 else k
  }

  /** No queued process has less remaining burst than the one Shortest finds. */
  lemma {:induction false} ShortestIsMinimal(ps: seq<Process>, q: seq<nat>)
    requires |q| > 0 && InRange(q, |ps|)
    ensures forall j :: 0 <= j < |q| ==> ps[q[Shortest(ps, q)]].burst <= ps[q[j]].burst
  {
    if |q| > 1 {
      var n := |q| - 1;
      ShortestIsMinimal(ps, q[..n]);
      assert forall j :: 0 <= j < n ==> q[..n][j] == q[j];
    }
  }

  /** `queue.poll()`: a queued process of least remaining burst. Which one
      among equals depends on the heap's internal layout, so the choice among
      ties is a parameter: tie(s) proposes a queue position, which is taken
      whenever it holds a least burst; otherwise the first such position is. */
  function Pick(s: State, tie: State -> nat): (k: nat)
    requires |s.queue| > 0 && InRange(s.queue, |s.procs|)
    ensures k < |s.queue|
  {
    var m := Shortest(s.procs, s.queue);
    var k := tie(s);
    if k < |s.queue| && s.procs[s.queue[k]].burst == s.procs[s.queue[m]].burst then k else m
  }

  /** The polled process is one of least remaining burst in the queue. */
  lemma PickIsShortest(s: State, tie: State -> nat)
    requires |s.queue| > 0 && InRange(s.queue, |s.procs|)
    ensures forall j :: 0 <= j < |s.queue| ==>
      s.procs[s.queue[Pick(s, tie)]].burst <= s.procs[s.queue[j]].burst
  {
    ShortestIsMinimal(s.procs, s.queue);
  }

  /** One unit of the polled process: a context switch first if another
      process ran last, a segment of length 1, the burst decremented; then
      completion or back into the queue. */
  function Step(s: State, cs: int, tie: State -> nat): (r: State)
    requires |s.queue| > 0 && InRange(s.queue, |s.procs|)
    ensures |r.procs| == |s.procs|
  {
    RunUnit(s, Pick(s, tie), cs)
  }

  /** One unit of the process at queue position k. */
  function RunUnit(s: State, k: nat, cs: int): (r: State)
    requires k < |s.queue| && InRange(s.queue, |s.procs|)
    ensures |r.procs| == |s.procs|
  {
    var x := s.queue[k];
    var p := s.procs[x];
    var t := if s.last.Some? && s.last.value != x then s.time + cs else s.time;
    var ran := SetBurst(p, p.burst - 1);
    var s' := s.(time := t + 1, last := Some(x), segs := s.segs + [SegmentOf(p, 1, t)], owners := s.owners + [x]);
    if ran.burst == 0 then
      s'.(procs := s.procs[x := SetCompletion(ran, t + 1)], completed := s.completed + 1,
          finished := s.finished + [x], queue := RemoveAt(s.queue, k))
    else
      s'.(procs := s.procs[x := ran], queue := RemoveAt(s.queue, k) + [x])
  }

  /** The idle branch: nothing is queued, so one unit passes and the next
      dispatch pays no context switch. */
  function Idle(s: State): (r: State)
    ensures r.time == s.time + 1 && r.last == None
    ensures r.(time := s.time, last := s.last) == s
  {
    s.(time := s.time + 1, last := None)
  }

  // ---------------------------------------------------------------------
  // The loop and its termination

  /** What every state of the loop satisfies: the completion list and the
      queue hold distinct processes; a process is finished exactly when its
      remaining burst is 0; queued processes have work left. */
  predicate Core(s: State) {
    Accounted(s.procs, s.queue, s.finished, s.completed)
  }

  predicate Accounted(ps: seq<Process>, queue: seq<nat>, finished: seq<nat>, completed: nat) {
    && Distinct(finished) && InRange(finished, |ps|) && completed == |finished|
    && Distinct(queue) && InRange(queue, |ps|)
    && (forall i :: 0 <= i < |ps| ==> ps[i].burst >= 0 && (ps[i].burst == 0 <==> i in finished))
    && (forall j :: 0 <= j < |queue| ==> ps[queue[j]].burst > 0)
  }

  /** Completing a queued process: its burst drops to 0, it leaves the queue
      and joins the completion list. */
  lemma FinishKeeps(ps: seq<Process>, queue: seq<nat>, finished: seq<nat>, completed: nat, x: nat, p: Process, q: seq<nat>)
    requires Accounted(ps, queue, finished, completed) && x < |ps| && ps[x].burst > 0 && p.burst == 0
    requires Distinct(q) && InRange(q, |ps|) && forall y :: y in q <==> y in queue && y != x
    ensures Accounted(ps[x := p], q, finished + [x], completed + 1)
    ensures Sum(ps[x := p], BurstOf) == Sum(ps, BurstOf) - ps[x].burst
    ensures p.arrival == ps[x].arrival ==> SameArrivals(ps, ps[x := p])
  {
    SumUpdate(ps, x, p, BurstOf);
    AppendKeepsShape(finished, x, |ps|);
    forall j | 0 <= j < |q|
      ensures q[j] in queue && q[j] != x
    {
      assert q[j] in q;
    }
  }

  /** Updating a process that keeps work left, with it queued. */
  lemma QueuedKeeps(ps: seq<Process>, queue: seq<nat>, finished: seq<nat>, completed: nat, x: nat, p: Process, q: seq<nat>)
    requires Accounted(ps, queue, finished, completed) && x < |ps| && ps[x].burst > 0 && p.burst > 0
    requires Distinct(q) && InRange(q, |ps|) && forall y :: y in q <==> y in queue || y == x
    ensures Accounted(ps[x := p], q, finished, completed)
    ensures Sum(ps[x := p], BurstOf) == Sum(ps, BurstOf) - ps[x].burst + p.burst
    ensures p.arrival == ps[x].arrival ==> SameArrivals(ps, ps[x := p])
  {
    SumUpdate(ps, x, p, BurstOf);
    forall j | 0 <= j < |q|
      ensures q[j] in queue || q[j] == x
    {
      assert q[j] in q;
    }
  }

  predicate SameArrivals(a: seq<Process>, b: seq<Process>) {
    |a| == |b| && forall i :: 0 <= i < |a| ==> a[i].arrival == b[i].arrival
  }

  /** Every process of the list from position i on that has arrived and has
      work left is queued. */
  predicate AllArrivedQueued(s: State, order: seq<nat>, i: nat)
    requires InRange(order, |s.procs|)
  {
    forall j :: i <= j < |order| && s.procs[order[j]].arrival <= s.time && s.procs[order[j]].burst > 0
      ==> order[j] in s.queue
  }

  /** Total remaining burst: the first half of the termination measure. */
  function Remaining(s: State): nat {
    var r := Sum(s.procs, BurstOf);
    if r > 0 then r else 0
  }

  /** Time left until the last arrival: the second half, which idle ticks use up. */
  function Slack(s: State): nat {
    var g := Greatest(s.procs, ArrivalOf) - s.time;
    if g > 0 then g else 0
  }

  /** One pass of the admission test leaves the bursts alone and queues the
      process exactly when it is eligible. */
  lemma AdmitKeeps(s: State, x: nat)
    requires Core(s) && x < |s.procs|
    ensures var r := Admit(s, x);
      && Core(r) && SameArrivals(s.procs, r.procs)
      && r.time == s.time && r.finished == s.finished
      && Sum(r.procs, BurstOf) == Sum(s.procs, BurstOf)
      && (forall y :: y in s.queue ==> y in r.queue)
      && (r.procs[x].arrival <= r.time && r.procs[x].burst > 0 ==> x in r.queue)
  {
    var p := s.procs[x];
    if x !in s.queue && p.arrival <= s.time && p.burst > 0 {
      var p' := if p.originalBurst == 0 then SetOriginalBurst(p, p.burst) else p;
      var r := Admit(s, x);
      assert r.procs == s.procs[x := p'] && r.queue == s.queue + [x];
      assert r.finished == s.finished && r.completed == s.completed && r.time == s.time;
      AppendKeepsShape(s.queue, x, |s.procs|);
      QueuedKeeps(s.procs, s.queue, s.finished, s.completed, x, p', s.queue + [x]);
    }
  }

  /** The starvation override either changes nothing or completes the
      process, which lowers the total remaining burst. */
  lemma StarveKeeps(s: State, x: nat, cs: int)
    requires Core(s) && x < |s.procs|
    ensures var r := Starve(s, x, cs);
      && Core(r) && SameArrivals(s.procs, r.procs)
      && (Starving(s.procs[x], s.time) ==> Sum(r.procs, BurstOf) < Sum(s.procs, BurstOf))
      && (!Starving(s.procs[x], s.time) ==> r == s)
  {
    var p := s.procs[x];
    if Starving(p, s.time) {
      var done := SetCompletion(SetBurst(p, 0), s.time + cs + p.burst);
      var r := Starve(s, x, cs);
      assert r.procs == s.procs[x := done] && r.queue == Remove(s.queue, x);
      assert r.finished == s.finished + [x] && r.completed == s.completed + 1;
      RemoveKeepsShape(s.queue, x, |s.procs|);
      FinishKeeps(s.procs, s.queue, s.finished, s.completed, x, done, Remove(s.queue, x));
    }
  }

  /** The for-loop from position i on either completes some process by
      starvation (the total remaining burst drops) or leaves time and the
      finished processes as they were, only adding to the queue, and then
      every eligible process of the rest of the list is queued. */
  lemma {:induction false} PassKeeps(s: State, order: seq<nat>, i: nat, cs: int)
    requires Core(s) && InRange(order, |s.procs|) && i <= |order|
    ensures var r := Pass(s, order, i, cs);
      && Core(r) && SameArrivals(s.procs, r.procs)
      && Sum(r.procs, BurstOf) <= Sum(s.procs, BurstOf)
      && (Sum(r.procs, BurstOf) == Sum(s.procs, BurstOf) ==>
            && r.time == s.time && r.finished == s.finished
            && (forall y :: y in s.queue ==> y in r.queue)
            && AllArrivedQueued(r, order, i))
    decreases |order| - i
  {
    if i < |order| {
      var x := order[i];
      var sa := Admit(s, x);
      var s1 := Starve(sa, x, cs);
      AdmitKeeps(s, x);
      StarveKeeps(sa, x, cs);
      PassKeeps(s1, order, i + 1, cs);
      var r := Pass(s1, order, i + 1, cs);
      assert Pass(s, order, i, cs) == r;
      if Sum(r.procs, BurstOf) == Sum(s.procs, BurstOf) {
        assert s1 == sa;
        forall j | i <= j < |order| && r.procs[order[j]].arrival <= r.time && r.procs[order[j]].burst > 0
          ensures order[j] in r.queue
        {
          if j == i {
            assert sa.procs[x].burst > 0 && sa.procs[x].arrival <= sa.time;
          }
        }
      }
    }
  }

  /** Remaining is the total remaining burst. */
  lemma RemainingIsSum(s: State)
    requires Core(s)
    ensures Remaining(s) == Sum(s.procs, BurstOf)
  {
    assert forall i :: 0 <= i < |s.procs| ==> BurstOf(s.procs[i]) >= 0;
    SumNonNegative(s.procs, BurstOf);
  }

  /** A unit step uses up one unit of the total remaining burst. */
  lemma RunUnitKeeps(s: State, k: nat, cs: int)
    requires Core(s) && k < |s.queue|
    ensures var r := RunUnit(s, k, cs);
      Core(r) && SameArrivals(s.procs, r.procs) && Sum(r.procs, BurstOf) == Sum(s.procs, BurstOf) - 1
  {
    var n := |s.procs|;
    var x := s.queue[k];
    var p := s.procs[x];
    var t := if s.last.Some? && s.last.value != x then s.time + cs else s.time;
    var ran := SetBurst(p, p.burst - 1);
    var r := RunUnit(s, k, cs);
    RemoveAtKeepsShape(s.queue, k, n);
    if ran.burst == 0 {
      var done := SetCompletion(ran, t + 1);
      assert r.procs == s.procs[x := done] && r.queue == RemoveAt(s.queue, k);
      assert r.finished == s.finished + [x] && r.completed == s.completed + 1;
      FinishKeeps(s.procs, s.queue, s.finished, s.completed, x, done, RemoveAt(s.queue, k));
    } else {
      assert r.procs == s.procs[x := ran] && r.queue == RemoveAt(s.queue, k) + [x];
      assert r.finished == s.finished && r.completed == s.completed;
      AppendKeepsShape(RemoveAt(s.queue, k), x, n);
      QueuedKeeps(s.procs, s.queue, s.finished, s.completed, x, ran, RemoveAt(s.queue, k) + [x]);
    }
  }

  /** One iteration of the while-loop: the for-loop, then an idle tick or a unit step. */
  function Turn(s: State, order: seq<nat>, cs: int, tie: State -> nat): (r: State)
    requires Core(s) && InRange(order, |s.procs|)
    ensures |r.procs| == |s.procs|
  {
    PassKeeps(s, order, 0, cs);
    var s1 := Pass(s, order, 0, cs);
    if s1.queue == [] then Idle(s1) else Step(s1, cs, tie)
  }

  /** While some process is unfinished, a turn either uses up remaining burst
      or, when nothing is queued, moves time towards the last arrival: an
      unfinished process that is not queued has not arrived yet. */
  lemma TurnKeeps(s: State, order: seq<nat>, cs: int, tie: State -> nat)
    requires Core(s) && IsPermutation(order, |s.procs|) && s.completed < |s.procs|
    ensures var r := Turn(s, order, cs, tie);
      && Core(r) && SameArrivals(s.procs, r.procs)
      && (Remaining(r) < Remaining(s) || (Remaining(r) == Remaining(s) && Slack(r) < Slack(s)))
  {
    var n := |s.procs|;
    PassKeeps(s, order, 0, cs);
    var s1 := Pass(s, order, 0, cs);
    var r := Turn(s, order, cs, tie);
    RemainingIsSum(s);
    RemainingIsSum(s1);
    if s1.queue == [] {
      assert r == Idle(s1);
      assert r.procs == s1.procs && r.finished == s1.finished && r.queue == s1.queue;
      RemainingIsSum(r);
      if Sum(s1.procs, BurstOf) == Sum(s.procs, BurstOf) {
        IdleProgress(s, s1, order);
      }
    } else {
      assert r == RunUnit(s1, Pick(s1, tie), cs);
      RunUnitKeeps(s1, Pick(s1, tie), cs);
      RemainingIsSum(r);
    }
  }

  /** An idle tick after a pass that starved nobody: some process is
      unfinished, so, not being queued, it has not arrived; the tick brings
      time closer to the last arrival. */
  lemma IdleProgress(s: State, s1: State, order: seq<nat>)
    requires Core(s) && Core(s1) && IsPermutation(order, |s.procs|) && s.completed < |s.procs|
    requires SameArrivals(s.procs, s1.procs) && s1.queue == []
    requires s1.time == s.time && s1.finished == s.finished && AllArrivedQueued(s1, order, 0)
    ensures Slack(Idle(s1)) < Slack(s)
  {
    var n := |s.procs|;
    Pigeonhole(s.finished, n);
    var x :| 0 <= x < n && x !in s.finished;
    assert x in order;
    var j :| 0 <= j < n && order[j] == x;
    assert s1.procs[x].arrival > s1.time;
    GreatestIsMax(s1.procs, ArrivalOf);
    assert ArrivalOf(s1.procs[x]) <= Greatest(s1.procs, ArrivalOf);
    GreatestAgrees(s.procs, s1.procs, ArrivalOf);
  }

  /** The while-loop: turns until `completed` reaches the number of processes. */
  function Simulate(s: State, order: seq<nat>, cs: int, tie: State -> nat): (r: State)
    requires Core(s) && IsPermutation(order, |s.procs|)
    ensures |r.procs| == |s.procs|
    decreases Remaining(s), Slack(s)
  {
    if s.completed >= |s.procs| then s
    else
      TurnKeeps(s, order, cs, tie);
      Simulate(Turn(s, order, cs, tie), order, cs, tie)
  }

  /** When the loop stops every process has completed exactly once. */
  lemma {:induction false} SimulateEnds(s: State, order: seq<nat>, cs: int, tie: State -> nat)
    requires Core(s) && IsPermutation(order, |s.procs|)
    ensures var r := Simulate(s, order, cs, tie);
      Core(r) && SameArrivals(s.procs, r.procs) && IsPermutation(r.finished, |r.procs|)
    decreases Remaining(s), Slack(s)
  {
    if s.completed >= |s.procs| {
      Pigeonhole(s.finished, |s.procs|);
    } else {
      TurnKeeps(s, order, cs, tie);
      SimulateEnds(Turn(s, order, cs, tie), order, cs, tie);
    }
  }

  // ---------------------------------------------------------------------
  // What the run does to each process

  /** p is what the run has made of the caller's p0 so far: only the burst,
      the original burst and the completion time are ever written; the burst
      only goes down; the original burst is recorded on admission if it was
      0; a process never admitted still has its whole burst, and one not
      finished keeps its completion time. */
  predicate Evolved(p0: Process, p: Process, admitted: bool, done: bool) {
    && p.name == p0.name && p.arrival == p0.arrival && p.priority == p0.priority
    && p.pid == p0.pid && p.quantum == p0.quantum
    && p.burst <= p0.burst
    && p.originalBurst == (if p0.originalBurst == 0 && admitted then p0.burst else p0.originalBurst)
    && (!admitted ==> p.burst == p0.burst)
    && (!done ==> p.completion == p0.completion)
  }

  /** The unit segments emitted for a process account for the burst it has
      used, except for a starved one, whose single marker stands for all of
      its remaining burst. */
  predicate Counted(p0: Process, p: Process, units: nat, starved: bool, done: bool) {
    && (starved ==> done && 1 <= units <= p0.burst)
    && (!starved ==> units + p.burst == p0.burst)
  }

  /** The state is reachable from the caller's processes ps. */
  predicate Hist(ps: seq<Process>, s: State) {
    && |s.procs| == |ps| && |s.segs| == |s.owners| && InRange(s.owners, |ps|)
    && (forall i :: 0 <= i < |ps| ==>
          && Evolved(ps[i], s.procs[i], i in s.queue || i in s.finished, i in s.finished)
          && Counted(ps[i], s.procs[i], SegmentsFor(s.owners, i), i in s.starved, i in s.finished))
    && (forall j :: 0 <= j < |s.segs| ==> s.segs[j].duration == 1 && Describes(s.segs[j], ps[s.owners[j]]))
  }

  /** Appending one segment for x keeps the segments already there. */
  lemma AppendSegment(s: State, r: State, seg: Segment, x: nat, n: nat)
    requires |s.segs| == |s.owners| && InRange(s.owners, n) && x < n
    requires r.segs == s.segs + [seg] && r.owners == s.owners + [x]
    ensures |r.segs| == |r.owners| && InRange(r.owners, n)
    ensures forall j :: 0 <= j < |s.segs| ==> r.segs[j] == s.segs[j] && r.owners[j] == s.owners[j]
    ensures forall i :: SegmentsFor(r.owners, i) == SegmentsFor(s.owners, i) + (if i == x then 1 else 0)
  {
    forall i
      ensures SegmentsFor(r.owners, i) == SegmentsFor(s.owners, i) + (if i == x then 1 else 0)
    {
      TimeGivenAppend(s.segs, s.owners, seg, x, i);
    }
  }

  lemma AdmitHist(ps: seq<Process>, s: State, x: nat)
    requires Core(s) && Hist(ps, s) && x < |s.procs|
    ensures Hist(ps, Admit(s, x))
  {
    var p := s.procs[x];
    if x !in s.queue && p.arrival <= s.time && p.burst > 0 {
      var p' := if p.originalBurst == 0 then SetOriginalBurst(p, p.burst) else p;
      var r := Admit(s, x);
      assert r.procs == s.procs[x := p'] && r.queue == s.queue + [x];
      assert r.finished == s.finished && r.starved == s.starved && r.owners == s.owners && r.segs == s.segs;
      assert x !in s.finished;
      forall i | 0 <= i < |ps|
        ensures Evolved(ps[i], r.procs[i], i in r.queue || i in r.finished, i in r.finished)
        ensures Counted(ps[i], r.procs[i], SegmentsFor(r.owners, i), i in r.starved, i in r.finished)
      {
        if i != x {
          assert r.procs[i] == s.procs[i];
          assert i in r.queue <==> i in s.queue;
        }
      }
    }
  }

  lemma StarveHist(ps: seq<Process>, s: State, x: nat, cs: int)
    requires Core(s) && Hist(ps, s) && x < |s.procs|
    requires Starving(s.procs[x], s.time) ==> x in s.queue
    ensures Hist(ps, Starve(s, x, cs))
  {
    var p := s.procs[x];
    if Starving(p, s.time) {
      var t := s.time + cs + p.burst;
      var done := SetCompletion(SetBurst(p, 0), t);
      var r := Starve(s, x, cs);
      assert r.procs == s.procs[x := done] && r.queue == Remove(s.queue, x);
      assert r.finished == s.finished + [x] && r.starved == s.starved + [x];
      AppendSegment(s, r, SegmentOf(p, 1, t), x, |ps|);
      RemoveKeepsShape(s.queue, x, |ps|);
      assert x !in s.finished;
      forall i | 0 <= i < |ps|
        ensures Evolved(ps[i], r.procs[i], i in r.queue || i in r.finished, i in r.finished)
        ensures Counted(ps[i], r.procs[i], SegmentsFor(r.owners, i), i in r.starved, i in r.finished)
      {
        if i != x {
          assert r.procs[i] == s.procs[i];
          assert i in r.queue <==> i in s.queue;
          assert i in r.finished <==> i in s.finished;
          assert i in r.starved <==> i in s.starved;
        }
      }
      forall j | 0 <= j < |r.segs|
        ensures r.segs[j].duration == 1 && Describes(r.segs[j], ps[r.owners[j]])
      {
        if j == |s.segs| {
          assert r.segs[j] == SegmentOf(p, 1, t) && r.owners[j] == x;
        }
      }
    }
  }

  lemma RunUnitHist(ps: seq<Process>, s: State, k: nat, cs: int)
    requires Core(s) && Hist(ps, s) && k < |s.queue|
    ensures Hist(ps, RunUnit(s, k, cs))
  {
    var x := s.queue[k];
    var p := s.procs[x];
    var t := if s.last.Some? && s.last.value != x then s.time + cs else s.time;
    var r := RunUnit(s, k, cs);
    RemoveAtKeepsShape(s.queue, k, |ps|);
    if p.burst == 1 {
      var q := SetCompletion(SetBurst(p, 0), t + 1);
      assert r.procs == s.procs[x := q] && r.queue == RemoveAt(s.queue, k) && r.finished == s.finished + [x];
      UnitHist(ps, s, r, x, q, SegmentOf(p, 1, t));
    } else {
      var q := SetBurst(p, p.burst - 1);
      assert r.procs == s.procs[x := q] && r.queue == RemoveAt(s.queue, k) + [x] && r.finished == s.finished;
      UnitHist(ps, s, r, x, q, SegmentOf(p, 1, t));
    }
  }

  /** One unit of the queued process x, with the state's fields given: its
      burst drops by one, a unit segment is emitted for it, and it either
      finishes or stays queued. */
  lemma UnitHist(ps: seq<Process>, s: State, r: State, x: nat, q: Process, seg: Segment)
    requires Core(s) && Hist(ps, s) && x in s.queue
    requires r.procs == s.procs[x := q] && r.segs == s.segs + [seg] && r.owners == s.owners + [x]
    requires r.starved == s.starved && seg.duration == 1 && Describes(seg, s.procs[x])
    requires SameExcept(s.procs[x], q, BurstField) || SameExcept(SetBurst(s.procs[x], 0), q, CompletionField)
    requires q.burst == s.procs[x].burst - 1
    requires forall i :: i != x ==> (i in r.queue <==> i in s.queue) && (i in r.finished <==> i in s.finished)
    requires q.burst == 0 ==> x in r.finished
    requires q.burst > 0 ==> x in r.queue && x !in r.finished
    ensures Hist(ps, r)
  {
    AppendSegment(s, r, seg, x, |ps|);
    assert x !in s.finished;
    forall i | 0 <= i < |ps|
      ensures Evolved(ps[i], r.procs[i], i in r.queue || i in r.finished, i in r.finished)
      ensures Counted(ps[i], r.procs[i], SegmentsFor(r.owners, i), i in r.starved, i in r.finished)
    {
      if i != x {
        assert r.procs[i] == s.procs[i];
      }
    }
    forall j | 0 <= j < |r.segs|
      ensures r.segs[j].duration == 1 && Describes(r.segs[j], ps[r.owners[j]])
    {
      if j == |s.segs| {
        assert r.segs[j] == seg && r.owners[j] == x;
      }
    }
  }

  lemma {:induction false} PassHist(ps: seq<Process>, s: State, order: seq<nat>, i: nat, cs: int)
    requires Core(s) && Hist(ps, s) && InRange(order, |s.procs|) && i <= |order|
    ensures Hist(ps, Pass(s, order, i, cs))
    decreases |order| - i
  {
    if i < |order| {
      var x := order[i];
      var sa := Admit(s, x);
      AdmitKeeps(s, x);
      AdmitHist(ps, s, x);
      StarvingMeans(sa.procs[x], sa.time);
      StarveKeeps(sa, x, cs);
      StarveHist(ps, sa, x, cs);
      PassHist(ps, Starve(sa, x, cs), order, i + 1, cs);
      assert Pass(s, order, i, cs) == Pass(Starve(sa, x, cs), order, i + 1, cs);
    }
  }

  lemma TurnHist(ps: seq<Process>, s: State, order: seq<nat>, cs: int, tie: State -> nat)
    requires Core(s) && Hist(ps, s) && InRange(order, |s.procs|)
    ensures Hist(ps, Turn(s, order, cs, tie))
  {
    PassKeeps(s, order, 0, cs);
    PassHist(ps, s, order, 0, cs);
    var s1 := Pass(s, order, 0, cs);
    if s1.queue != [] {
      assert Turn(s, order, cs, tie) == RunUnit(s1, Pick(s1, tie), cs);
      RunUnitHist(ps, s1, Pick(s1, tie), cs);
    }
  }

  lemma {:induction false} SimulateHist(ps: seq<Process>, s: State, order: seq<nat>, cs: int, tie: State -> nat)
    requires Core(s) && Hist(ps, s) && IsPermutation(order, |s.procs|)
    ensures Hist(ps, Simulate(s, order, cs, tie))
    decreases Remaining(s), Slack(s)
  {
    if s.completed < |s.procs| {
      TurnKeeps(s, order, cs, tie);
      TurnHist(ps, s, order, cs, tie);
      SimulateHist(ps, Turn(s, order, cs, tie), order, cs, tie);
    }
  }

  // ---------------------------------------------------------------------
  // Timing, for a non-negative context switch

  /** The burst p has used so far fits between its arrival and now, and a
      finished process completed no earlier than its arrival plus its whole
      burst, and no later than now. */
  predicate Elapsed(p0: Process, p: Process, time: int, done: bool) {
    && (p.burst < p0.burst ==> p0.burst - p.burst <= time - p0.arrival)
    && (done ==> p0.burst <= p.completion - p0.arrival && p.completion <= time)
  }

  /** Time never goes below 0; queued processes have arrived; segments start
      at or after their process's arrival, no later than now, and in
      non-decreasing order. */
  predicate Timed(ps: seq<Process>, s: State) {
    && |s.procs| == |ps| && |s.segs| == |s.owners| && InRange(s.owners, |ps|) && InRange(s.queue, |ps|)
    && s.time >= 0
    && (forall j :: 0 <= j < |s.queue| ==> ps[s.queue[j]].arrival <= s.time)
    && (forall i :: 0 <= i < |ps| ==> Elapsed(ps[i], s.procs[i], s.time, i in s.finished))
    && (forall j :: 0 <= j < |s.segs| ==> 0 <= s.segs[j].start <= s.time && ps[s.owners[j]].arrival <= s.segs[j].start)
    && (forall j :: 0 < j < |s.segs| ==> s.segs[j - 1].start <= s.segs[j].start)
  }

  /** Time moves forward, x runs from the queue to time t' with its burst
      lowered to q.burst, and one segment starting at a time between the old
      and the new time is emitted for it. */
  lemma ChargeTimed(ps: seq<Process>, s: State, r: State, x: nat, q: Process, seg: Segment)
    requires Core(s) && Hist(ps, s) && Timed(ps, s) && x in s.queue
    requires r.procs == s.procs[x := q] && r.segs == s.segs + [seg] && r.owners == s.owners + [x]
    requires s.time <= seg.start <= r.time
    requires q.burst < s.procs[x].burst && s.procs[x].burst - q.burst <= r.time - s.time
    requires q.burst == 0 ==> q.completion == r.time
    requires q.burst > 0 ==> q.completion == s.procs[x].completion
    requires forall i :: i != x ==> (i in r.finished <==> i in s.finished)
    requires x in r.finished <==> q.burst == 0
    requires Distinct(r.queue) && InRange(r.queue, |ps|) && forall y :: y in r.queue ==> y in s.queue
    ensures Timed(ps, r)
  {
    AppendSegment(s, r, seg, x, |ps|);
    var p := s.procs[x];
    assert ps[x].arrival <= s.time;
    assert x !in s.finished;
    forall i | 0 <= i < |ps|
      ensures Elapsed(ps[i], r.procs[i], r.time, i in r.finished)
    {
      if i != x {
        assert r.procs[i] == s.procs[i];
      }
    }
    forall j | 0 <= j < |r.queue|
      ensures ps[r.queue[j]].arrival <= r.time
    {
      assert r.queue[j] in s.queue;
    }
    forall j | 0 <= j < |r.segs|
      ensures 0 <= r.segs[j].start <= r.time && ps[r.owners[j]].arrival <= r.segs[j].start
    {
      if j == |s.segs| {
        assert r.segs[j] == seg && r.owners[j] == x;
      }
    }
    forall j | 0 < j < |r.segs|
      ensures r.segs[j - 1].start <= r.segs[j].start
    {
      if j == |s.segs| {
        assert r.segs[j] == seg;
      }
    }
  }

  lemma AdmitTimed(ps: seq<Process>, s: State, x: nat)
    requires Core(s) && Hist(ps, s) && Timed(ps, s) && x < |s.procs|
    ensures Timed(ps, Admit(s, x))
  {
    var p := s.procs[x];
    if x !in s.queue && p.arrival <= s.time && p.burst > 0 {
      var p' := if p.originalBurst == 0 then SetOriginalBurst(p, p.burst) else p;
      var r := Admit(s, x);
      assert r.procs == s.procs[x := p'] && r.queue == s.queue + [x];
      assert r.finished == s.finished && r.owners == s.owners && r.segs == s.segs && r.time == s.time;
      AppendKeepsShape(s.queue, x, |ps|);
      forall i | 0 <= i < |ps|
        ensures Elapsed(ps[i], r.procs[i], r.time, i in r.finished)
      {
        if i != x {
          assert r.procs[i] == s.procs[i];
        }
      }
    }
  }

  lemma StarveTimed(ps: seq<Process>, s: State, x: nat, cs: int)
    requires Core(s) && Hist(ps, s) && Timed(ps, s) && x < |s.procs| && cs >= 0
    requires Starving(s.procs[x], s.time) ==> x in s.queue
    ensures Timed(ps, Starve(s, x, cs))
  {
    var p := s.procs[x];
    if Starving(p, s.time) {
      var t := s.time + cs + p.burst;
      var done := SetCompletion(SetBurst(p, 0), t);
      var r := Starve(s, x, cs);
      assert r.procs == s.procs[x := done] && r.queue == Remove(s.queue, x) && r.time == t;
      assert r.finished == s.finished + [x] && r.segs == s.segs + [SegmentOf(p, 1, t)] && r.owners == s.owners + [x];
      RemoveKeepsShape(s.queue, x, |ps|);
      ChargeTimed(ps, s, r, x, done, SegmentOf(p, 1, t));
    }
  }

  lemma RunUnitTimed(ps: seq<Process>, s: State, k: nat, cs: int)
    requires Core(s) && Hist(ps, s) && Timed(ps, s) && k < |s.queue| && cs >= 0
    ensures Timed(ps, RunUnit(s, k, cs))
  {
    if s.procs[s.queue[k]].burst == 1 {
      LastUnitTimed(ps, s, k, cs);
    } else {
      OtherUnitTimed(ps, s, k, cs);
    }
  }

  lemma LastUnitTimed(ps: seq<Process>, s: State, k: nat, cs: int)
    requires Core(s) && Hist(ps, s) && Timed(ps, s) && k < |s.queue| && cs >= 0
    requires s.procs[s.queue[k]].burst == 1
    ensures Timed(ps, RunUnit(s, k, cs))
  {
    var x := s.queue[k];
    var p := s.procs[x];
    var t := if s.last.Some? && s.last.value != x then s.time + cs else s.time;
    var r := RunUnit(s, k, cs);
    var q := SetCompletion(SetBurst(p, 0), t + 1);
    RemoveAtKeepsShape(s.queue, k, |ps|);
    assert r.segs == s.segs + [SegmentOf(p, 1, t)] && r.owners == s.owners + [x] && r.time == t + 1;
    assert r.procs == s.procs[x := q] && r.queue == RemoveAt(s.queue, k) && r.finished == s.finished + [x];
    ChargeTimed(ps, s, r, x, q, SegmentOf(p, 1, t));
  }

  lemma OtherUnitTimed(ps: seq<Process>, s: State, k: nat, cs: int)
    requires Core(s) && Hist(ps, s) && Timed(ps, s) && k < |s.queue| && cs >= 0
    requires s.procs[s.queue[k]].burst != 1
    ensures Timed(ps, RunUnit(s, k, cs))
  {
    var x := s.queue[k];
    var p := s.procs[x];
    var t := if s.last.Some? && s.last.value != x then s.time + cs else s.time;
    var r := RunUnit(s, k, cs);
    var q := SetBurst(p, p.burst - 1);
    RemoveAtKeepsShape(s.queue, k, |ps|);
    assert r.segs == s.segs + [SegmentOf(p, 1, t)] && r.owners == s.owners + [x] && r.time == t + 1;
    assert r.procs == s.procs[x := q] && r.queue == RemoveAt(s.queue, k) + [x] && r.finished == s.finished;
    AppendKeepsShape(RemoveAt(s.queue, k), x, |ps|);
    ChargeTimed(ps, s, r, x, q, SegmentOf(p, 1, t));
  }

  lemma {:induction false} PassTimed(ps: seq<Process>, s: State, order: seq<nat>, i: nat, cs: int)
    requires Core(s) && Hist(ps, s) && Timed(ps, s) && InRange(order, |s.procs|) && i <= |order| && cs >= 0
    ensures Timed(ps, Pass(s, order, i, cs))
    decreases |order| - i
  {
    if i < |order| {
      var x := order[i];
      var sa := Admit(s, x);
      AdmitKeeps(s, x);
      AdmitHist(ps, s, x);
      AdmitTimed(ps, s, x);
      StarvingMeans(sa.procs[x], sa.time);
      StarveKeeps(sa, x, cs);
      StarveHist(ps, sa, x, cs);
      StarveTimed(ps, sa, x, cs);
      PassTimed(ps, Starve(sa, x, cs), order, i + 1, cs);
      assert Pass(s, order, i, cs) == Pass(Starve(sa, x, cs), order, i + 1, cs);
    }
  }

  lemma TurnTimed(ps: seq<Process>, s: State, order: seq<nat>, cs: int, tie: State -> nat)
    requires Core(s) && Hist(ps, s) && Timed(ps, s) && InRange(order, |s.procs|) && cs >= 0
    ensures Timed(ps, Turn(s, order, cs, tie))
  {
    PassKeeps(s, order, 0, cs);
    PassHist(ps, s, order, 0, cs);
    PassTimed(ps, s, order, 0, cs);
    var s1 := Pass(s, order, 0, cs);
    if s1.queue != [] {
      assert Turn(s, order, cs, tie) == RunUnit(s1, Pick(s1, tie), cs);
      RunUnitTimed(ps, s1, Pick(s1, tie), cs);
    } else {
      var r := Idle(s1);
      assert Turn(s, order, cs, tie) == r;
      forall i | 0 <= i < |ps|
        ensures Elapsed(ps[i], r.procs[i], r.time, i in r.finished)
      {
        assert Elapsed(ps[i], s1.procs[i], s1.time, i in s1.finished);
      }
    }
  }

  lemma {:induction false} SimulateTimed(ps: seq<Process>, s: State, order: seq<nat>, cs: int, tie: State -> nat)
    requires Core(s) && Hist(ps, s) && Timed(ps, s) && IsPermutation(order, |s.procs|) && cs >= 0
    ensures Timed(ps, Simulate(s, order, cs, tie))
    decreases Remaining(s), Slack(s)
  {
    if s.completed < |s.procs| {
      TurnKeeps(s, order, cs, tie);
      TurnHist(ps, s, order, cs, tie);
      TurnTimed(ps, s, order, cs, tie);
      SimulateTimed(ps, Turn(s, order, cs, tie), order, cs, tie);
    }
  }

  // ---------------------------------------------------------------------
  // Completion times

  /** A finished process's completion time is where its segments leave off:
      the end of its last unit or, for a process completed by the starvation
      override, the start of its one marker segment. Only finished processes
      are ever starved. */
  predicate Closed(s: State) {
    && |s.segs| == |s.owners|
    && (forall i :: i in s.starved ==> i in s.finished)
    && (forall i :: 0 <= i < |s.procs| && i in s.finished ==> ClosedAt(s, i))
  }

  predicate ClosedAt(s: State, i: nat)
    requires |s.segs| == |s.owners| && i < |s.procs|
  {
    var j := LastOwned(s.owners, i);
    j >= 0 && s.procs[i].completion == (if i in s.starved then s.segs[j].start else End(s.segs[j]))
  }

  /** One segment for x, not yet finished, is appended; every other process
      and its membership of the finished and starved lists stay as they were. */
  lemma AppendClosed(s: State, r: State, x: nat)
    requires Closed(s) && x < |s.procs| && x !in s.finished && |r.procs| == |s.procs|
    requires |r.segs| == |s.segs| + 1 && r.segs[..|s.segs|] == s.segs && r.owners == s.owners + [x]
    requires forall i :: 0 <= i < |s.procs| && i != x ==> r.procs[i] == s.procs[i]
    requires forall i :: i != x ==> (i in r.finished <==> i in s.finished) && (i in r.starved <==> i in s.starved)
    requires x in r.starved ==> x in r.finished
    requires x in r.finished ==> ClosedAt(r, x)
    ensures Closed(r)
  {
    forall i | 0 <= i < |r.procs| && i in r.finished
      ensures ClosedAt(r, i)
    {
      if i != x {
        LastOwnedAppend(s.owners, x, i);
        var j := LastOwned(s.owners, i);
        assert r.segs[j] == s.segs[..|s.segs|][j];
      }
    }
  }

  lemma AdmitClosed(s: State, x: nat)
    requires Closed(s) && x < |s.procs|
    ensures Closed(Admit(s, x))
  {
    var r := Admit(s, x);
    forall i | 0 <= i < |r.procs| && i in r.finished
      ensures ClosedAt(r, i)
    {
      assert ClosedAt(s, i);
    }
  }

  lemma StarveClosed(s: State, x: nat, cs: int)
    requires Core(s) && Closed(s) && x < |s.procs|
    ensures Closed(Starve(s, x, cs))
  {
    var p := s.procs[x];
    if Starving(p, s.time) {
      var t := s.time + cs + p.burst;
      var r := Starve(s, x, cs);
      assert r.procs == s.procs[x := SetCompletion(SetBurst(p, 0), t)];
      assert r.finished == s.finished + [x] && r.starved == s.starved + [x];
      assert r.segs == s.segs + [SegmentOf(p, 1, t)] && r.owners == s.owners + [x];
      assert r.segs[..|s.segs|] == s.segs;
      LastOwnedAppend(s.owners, x, x);
      AppendClosed(s, r, x);
    }
  }

  lemma RunUnitClosed(s: State, k: nat, cs: int)
    requires Core(s) && Closed(s) && k < |s.queue|
    ensures Closed(RunUnit(s, k, cs))
  {
    var x := s.queue[k];
    var p := s.procs[x];
    var t := if s.last.Some? && s.last.value != x then s.time + cs else s.time;
    var r := RunUnit(s, k, cs);
    assert x !in s.finished && x !in s.starved;
    assert r.segs == s.segs + [SegmentOf(p, 1, t)] && r.owners == s.owners + [x];
    assert r.segs[..|s.segs|] == s.segs && r.starved == s.starved;
    LastOwnedAppend(s.owners, x, x);
    if p.burst == 1 {
      assert r.procs == s.procs[x := SetCompletion(SetBurst(p, 0), t + 1)] && r.finished == s.finished + [x];
    } else {
      assert r.procs == s.procs[x := SetBurst(p, p.burst - 1)] && r.finished == s.finished;
    }
    AppendClosed(s, r, x);
  }

  lemma {:induction false} PassClosed(s: State, order: seq<nat>, i: nat, cs: int)
    requires Core(s) && Closed(s) && InRange(order, |s.procs|) && i <= |order|
    ensures Closed(Pass(s, order, i, cs))
    decreases |order| - i
  {
    if i < |order| {
      var x := order[i];
      var sa := Admit(s, x);
      AdmitKeeps(s, x);
      AdmitClosed(s, x);
      StarvingMeans(sa.procs[x], sa.time);
      StarveKeeps(sa, x, cs);
      StarveClosed(sa, x, cs);
      PassClosed(Starve(sa, x, cs), order, i + 1, cs);
      assert Pass(s, order, i, cs) == Pass(Starve(sa, x, cs), order, i + 1, cs);
    }
  }

  lemma TurnClosed(s: State, order: seq<nat>, cs: int, tie: State -> nat)
    requires Core(s) && Closed(s) && InRange(order, |s.procs|)
    ensures Closed(Turn(s, order, cs, tie))
  {
    PassKeeps(s, order, 0, cs);
    PassClosed(s, order, 0, cs);
    var s1 := Pass(s, order, 0, cs);
    if s1.queue != [] {
      assert Turn(s, order, cs, tie) == RunUnit(s1, Pick(s1, tie), cs);
      RunUnitClosed(s1, Pick(s1, tie), cs);
    } else {
      var r := Idle(s1);
      assert Turn(s, order, cs, tie) == r;
      forall i | 0 <= i < |r.procs| && i in r.finished
        ensures ClosedAt(r, i)
      {
        assert ClosedAt(s1, i);
      }
    }
  }

  lemma {:induction false} SimulateClosed(s: State, order: seq<nat>, cs: int, tie: State -> nat)
    requires Core(s) && Closed(s) && IsPermutation(order, |s.procs|)
    ensures Closed(Simulate(s, order, cs, tie))
    decreases Remaining(s), Slack(s)
  {
    if s.completed < |s.procs| {
      TurnKeeps(s, order, cs, tie);
      TurnClosed(s, order, cs, tie);
      SimulateClosed(Turn(s, order, cs, tie), order, cs, tie);
    }
  }

  // ---------------------------------------------------------------------
  // The scheduler

  /** What `schedule` leaves behind: the caller's list order after the sort
      (as arena indices), the returned segments with the process each was
      emitted for, `executionOrder2`, the processes completed by the
      starvation override, and the arena with the setters' writes. */
  datatype Outcome = Outcome(
    order: seq<nat>, segments: seq<Segment>, owners: seq<nat>,
    finished: seq<nat>, starved: seq<nat>, procs: seq<Process>)

  /** A process after the run: no work left, its identity as given, and its
      original burst recorded if it was 0. */
  predicate Completed(p0: Process, p: Process) {
    && p.burst == 0
    && p.name == p0.name && p.arrival == p0.arrival && p.priority == p0.priority
    && p.pid == p0.pid && p.quantum == p0.quantum
    && p.originalBurst == (if p0.originalBurst == 0 then p0.burst else p0.originalBurst)
  }

  /** `schedule(processes, contextSwitchingTime)`, with tie choosing among
      queued processes of equal remaining burst. Each process completes at
      the end of its last unit, or, when the starvation override completed
      it, at the start of its marker segment. Every burst must be
      positive: a process with no burst is never admitted nor completed, so
      `completed` never reaches the list size and the source's loop never
      ends. */
  function Schedule(ps: seq<Process>, cs: int, tie: State -> nat): (o: Outcome)
    requires forall i :: 0 <= i < |ps| ==> ps[i].burst > 0
    ensures IsPermutation(o.order, |ps|) && SortedBy(ps, ListKey, o.order)
    ensures IsPermutation(o.finished, |ps|)
    ensures |o.procs| == |ps| && |o.segments| == |o.owners| && InRange(o.owners, |ps|)
    ensures forall i :: 0 <= i < |ps| ==> Completed(ps[i], o.procs[i])
    ensures forall i :: 0 <= i < |ps| && i !in o.starved ==> SegmentsFor(o.owners, i) == ps[i].burst
    ensures forall i :: 0 <= i < |ps| && i in o.starved ==> 1 <= SegmentsFor(o.owners, i) <= ps[i].burst
    ensures forall j :: 0 <= j < |o.segments| ==>
      o.segments[j].duration == 1 && Describes(o.segments[j], ps[o.owners[j]])
    ensures forall i :: 0 <= i < |ps| ==> LastOwned(o.owners, i) >= 0
    ensures forall i :: 0 <= i < |ps| && i !in o.starved ==>
      o.procs[i].completion == End(o.segments[LastOwned(o.owners, i)])
    ensures forall i :: 0 <= i < |ps| && i in o.starved ==>
      o.procs[i].completion == o.segments[LastOwned(o.owners, i)].start
  {
    var order := StableOrder(ps, ListKey);
    var s := Simulate(Init(ps), order, cs, tie);
    SimulateAccounts(ps, order, cs, tie);
    SimulateCompletions(ps, order, cs, tie);
    Outcome(order, s.segs, s.owners, s.finished, s.starved, s.procs)
  }

  /** At the end of the loop every process has completed with its identity
      kept, and its unit segments account for its burst. */
  lemma SimulateAccounts(ps: seq<Process>, order: seq<nat>, cs: int, tie: State -> nat)
    requires forall i :: 0 <= i < |ps| ==> ps[i].burst > 0
    requires IsPermutation(order, |ps|)
    ensures var s := Simulate(Init(ps), order, cs, tie);
      && IsPermutation(s.finished, |ps|)
      && |s.procs| == |ps| && |s.segs| == |s.owners| && InRange(s.owners, |ps|)
      && (forall i :: 0 <= i < |ps| ==> Completed(ps[i], s.procs[i]))
      && (forall i :: 0 <= i < |ps| && i !in s.starved ==> SegmentsFor(s.owners, i) == ps[i].burst)
      && (forall i :: 0 <= i < |ps| && i in s.starved ==> 1 <= SegmentsFor(s.owners, i) <= ps[i].burst)
      && (forall j :: 0 <= j < |s.segs| ==> s.segs[j].duration == 1 && Describes(s.segs[j], ps[s.owners[j]]))
  {
    var s0 := Init(ps);
    assert Core(s0) && Hist(ps, s0);
    SimulateEnds(s0, order, cs, tie);
    SimulateHist(ps, s0, order, cs, tie);
    var s := Simulate(s0, order, cs, tie);
    assert forall i :: 0 <= i < |ps| ==> i in s.finished;
    assert forall i :: 0 <= i < |ps| ==> Completed(ps[i], s.procs[i]);
  }

  /** At the end of the loop every process has a last segment, and its
      completion time is where that segment leaves off. */
  lemma SimulateCompletions(ps: seq<Process>, order: seq<nat>, cs: int, tie: State -> nat)
    requires forall i :: 0 <= i < |ps| ==> ps[i].burst > 0
    requires IsPermutation(order, |ps|)
    ensures var s := Simulate(Init(ps), order, cs, tie);
      && |s.procs| == |ps| && |s.segs| == |s.owners|
      && (forall i :: 0 <= i < |ps| ==> LastOwned(s.owners, i) >= 0)
      && (forall i :: 0 <= i < |ps| && i !in s.starved ==>
            s.procs[i].completion == End(s.segs[LastOwned(s.owners, i)]))
      && (forall i :: 0 <= i < |ps| && i in s.starved ==>
            s.procs[i].completion == s.segs[LastOwned(s.owners, i)].start)
  {
    var s0 := Init(ps);
    assert Core(s0) && Closed(s0);
    SimulateEnds(s0, order, cs, tie);
    SimulateClosed(s0, order, cs, tie);
    var s := Simulate(s0, order, cs, tie);
    forall i | 0 <= i < |ps|
      ensures LastOwned(s.owners, i) >= 0
      ensures s.procs[i].completion
        == if i in s.starved then s.segs[LastOwned(s.owners, i)].start else End(s.segs[LastOwned(s.owners, i)])
    {
      assert i in s.finished;
      assert ClosedAt(s, i);
    }
  }

  /** With a non-negative context switch: every segment starts at or after
      its process's arrival and at or after time 0; start times never go
      down; every process completes no earlier than its arrival plus its
      whole burst. */
  lemma ScheduleTiming(ps: seq<Process>, cs: int, tie: State -> nat)
    requires forall i :: 0 <= i < |ps| ==> ps[i].burst > 0
    requires cs >= 0
    ensures var o := Schedule(ps, cs, tie);
      && (forall j :: 0 <= j < |o.segments| ==>
            0 <= o.segments[j].start && ps[o.owners[j]].arrival <= o.segments[j].start)
      && (forall j :: 0 < j < |o.segments| ==> o.segments[j - 1].start <= o.segments[j].start)
      && (forall i :: 0 <= i < |ps| ==> TurnaroundOf(o.procs[i]) >= ps[i].burst)
  {
    var order := StableOrder(ps, ListKey);
    var s0 := Init(ps);
    assert Core(s0) && Hist(ps, s0) && Timed(ps, s0);
    SimulateEnds(s0, order, cs, tie);
    SimulateTimed(ps, s0, order, cs, tie);
    var s := Simulate(s0, order, cs, tie);
    var o := Schedule(ps, cs, tie);
    assert o.procs == s.procs && o.segments == s.segs && o.owners == s.owners && o.finished == s.finished;
    forall i | 0 <= i < |ps|
      ensures TurnaroundOf(o.procs[i]) >= ps[i].burst
    {
      assert i in s.finished;
      assert Elapsed(ps[i], s.procs[i], s.time, i in s.finished);
    }
  }

  // ---------------------------------------------------------------------
  // One call at a time

  /** Admission queues x exactly when it is not queued, has arrived and has
      work left, and then records its original burst if that was 0; nothing
      else changes. */
  lemma AdmitEffect(s: State, x: nat)
    requires x < |s.procs|
    ensures var r := Admit(s, x);
      var eligible := x !in s.queue && s.procs[x].arrival <= s.time && s.procs[x].burst > 0;
      && (forall y :: y in r.queue <==> y in s.queue || (y == x && eligible))
      && SameExcept(s.procs[x], r.procs[x], OriginalBurstField)
      && r.procs[x].originalBurst
         == (if eligible && s.procs[x].originalBurst == 0 then s.procs[x].burst else s.procs[x].originalBurst)
      && (forall i :: 0 <= i < |s.procs| && i != x ==> r.procs[i] == s.procs[i])
      && r.(procs := s.procs, queue := s.queue) == s
  {
  }

  /** The starvation override fires exactly when x has waited more than
      `MAX_WAIT_TIME` with work left. Time then moves on by the context
      switch plus the whole remaining burst, x completes at that time with
      no burst left and leaves the queue, and the one segment emitted for it
      lasts 1 and starts at its completion time. */
  lemma StarveEffect(s: State, x: nat, cs: int)
    requires x < |s.procs| && Distinct(s.queue) && InRange(s.queue, |s.procs|)
    ensures var r := Starve(s, x, cs);
      && (Starving(s.procs[x], s.time) <==> s.time - s.procs[x].arrival - s.procs[x].burst > 20 && s.procs[x].burst > 0)
      && (!Starving(s.procs[x], s.time) ==> r == s)
      && (Starving(s.procs[x], s.time) ==>
            && r.time == s.time + cs + s.procs[x].burst
            && r.procs[x].burst == 0 && r.procs[x].completion == r.time
            && x !in r.queue && r.finished == s.finished + [x] && r.completed == s.completed + 1
            && r.segs == s.segs + [SegmentOf(s.procs[x], 1, r.procs[x].completion)]
            && (forall i :: 0 <= i < |s.procs| && i != x ==> r.procs[i] == s.procs[i]))
  {
    RemoveKeepsShape(s.queue, x, |s.procs|);
  }

  /** A unit step polls a queued process x of least remaining burst, charges
      a context switch only when a different process ran last (never after an
      idle tick, which forgets the last process), emits a length-1 segment at
      that time, lowers x's burst by one and advances time by one; x then
      completes at the new time and leaves the queue, or stays queued. */
  lemma StepEffect(s: State, cs: int, tie: State -> nat)
    requires |s.queue| > 0 && InRange(s.queue, |s.procs|) && Distinct(s.queue)
    ensures var r := Step(s, cs, tie);
      var x := s.queue[Pick(s, tie)];
      var start := if s.last.Some? && s.last.value != x then s.time + cs else s.time;
      && (forall y :: y in s.queue ==> s.procs[x].burst <= s.procs[y].burst)
      && r.segs == s.segs + [SegmentOf(s.procs[x], 1, start)] && r.owners == s.owners + [x]
      && r.time == start + 1 && r.last == Some(x)
      && r.procs[x].burst == s.procs[x].burst - 1
      && (r.procs[x].burst == 0 ==>
            r.procs[x].completion == r.time && x !in r.queue && r.finished == s.finished + [x])
      && (r.procs[x].burst != 0 ==>
            r.procs[x].completion == s.procs[x].completion && x in r.queue && r.finished == s.finished)
      && (forall i :: 0 <= i < |s.procs| && i != x ==> r.procs[i] == s.procs[i])
  {
    var k := Pick(s, tie);
    PickIsShortest(s, tie);
    RemoveAtKeepsShape(s.queue, k, |s.procs|);
    forall y | y in s.queue
      ensures s.procs[s.queue[k]].burst <= s.procs[y].burst
    {
      var j :| 0 <= j < |s.queue| && s.queue[j] == y;
    }
  }

  // ---------------------------------------------------------------------
  // Averages

  /** `calculateAverageWaitingTime`: over the list as given, the total of
      `getWaitingTimeSRTF` at each stored completion time. */
  function AverageWaitingTime(ps: seq<Process>): (m: Mean)
    ensures m.count == |ps| && m.total == Sum(ps, WaitingSrtfOf)
  {
    AverageOf(ps, WaitingSrtfOf)
  }

  /** `calculateAverageTurnaroundTime`: over the list as given. */
  function AverageTurnaroundTime(ps: seq<Process>): (m: Mean)
    ensures m.count == |ps| && m.total == Sum(ps, TurnaroundOf)
  {
    AverageOf(ps, TurnaroundOf)
  }

  /** For processes built by the constructor (original burst equal to the
      burst, or still 0), after scheduling with a non-negative context
      switch the mean waiting time is never negative and the mean turnaround
      exceeds it by exactly the mean burst. */
  lemma AveragesAfterSchedule(ps: seq<Process>, cs: int, tie: State -> nat)
    requires forall i :: 0 <= i < |ps| ==> ps[i].burst > 0
    requires forall i :: 0 <= i < |ps| ==> ps[i].originalBurst == 0 || ps[i].originalBurst == ps[i].burst
    requires cs >= 0
    ensures var procs := Schedule(ps, cs, tie).procs;
      && AverageWaitingTime(procs).total >= 0
      && AverageTurnaroundTime(procs).total == AverageWaitingTime(procs).total + Sum(ps, BurstOf)
  {
    var procs := Schedule(ps, cs, tie).procs;
    ScheduleTiming(ps, cs, tie);
    forall i | 0 <= i < |procs|
      ensures WaitingSrtfOf(procs[i]) >= 0 && OriginalBurstOf(procs[i]) == BurstOf(ps[i])
    {
      assert Completed(ps[i], procs[i]);
    }
    SumNonNegative(procs, WaitingSrtfOf);
    TurnaroundIsSrtfWaitingPlusOriginal(procs);
    SumAgrees(procs, ps, OriginalBurstOf, BurstOf);
  }
}
