/** FCAI scheduling (src/algorithms/FCAIScheduler.java): a dynamic-quantum
    hybrid. Each dispatch takes the ready queue's head (FCFS) or the process
    with the best FCAI factor, runs it without interruption for 40% of its
    quantum, then unit by unit until it finishes, its quantum runs out or a
    ready process has a strictly better factor; the quantum then grows. */
module FcaiScheduling {
  import opened IndexSeqs
  import opened Processes
  import opened Segments
  import opened Metrics

  /** The scheduler's `choice` variable: 2 takes the queue head, 1 the best factor. */
  datatype Mode = Fcfs | BestFactor

  /** The scheduler's fields and the loop's variables, with processes named
      by arena index. */
  datatype State = State(
    procs: seq<Process>,   // the process objects, updated in place by the setters
    pending: seq<nat>,     // processList: not yet arrived at the last refresh
    ready: seq<nat>,       // readyQueue
    factors: seq<Factor>,  // each process's stored `fcaiFactor`
    time: int,             // currentTime
    mode: Mode,            // choice
    segs: seq<Segment>,    // executionOrder, the returned segments
    owners: seq<nat>)      // the process each segment was emitted for

  /** v1 and v2 ten times over: the latest arrival and the longest burst of
      the list given to the constructor, 0 for an empty list
      (`calculateV1`, `calculateV2`). */
  datatype Scale = Scale(lastArrival: nat, longestBurst: nat)

  function ScaleOf(ps: seq<Process>): (sc: Scale)
    requires forall i :: 0 <= i < |ps| ==> ps[i].arrival >= 0 && ps[i].burst >= 0
    ensures forall i :: 0 <= i < |ps| ==> ps[i].arrival <= sc.lastArrival && ps[i].burst <= sc.longestBurst
    ensures |ps| == 0 ==> sc == Scale(0, 0)
    ensures |ps| > 0 ==> exists i :: 0 <= i < |ps| && ps[i].arrival == sc.lastArrival
    ensures |ps| > 0 ==> exists i :: 0 <= i < |ps| && ps[i].burst == sc.longestBurst
  {
    GreatestIsMax(ps, ArrivalOf);
    GreatestIsMax(ps, BurstOf);
    if |ps| == 0 then Scale(0, 0)
    else
      assert ArrivalOf(ps[0]) <= Greatest(ps, ArrivalOf) && BurstOf(ps[0]) <= Greatest(ps, BurstOf);
      Scale(Greatest(ps, ArrivalOf), Greatest(ps, BurstOf))
  }

  /** `calculateFcaiFactor(v1, v2)` for p. */
  function FactorOf(p: Process, sc: Scale): Factor {
    FcaiFactor(p, sc.lastArrival, sc.longestBurst)
  }

  /** The state `schedule` starts from: every process pending, in the
      caller's order; stored factors at Java's default of 0. */
  function Init(ps: seq<Process>): (s: State)
    ensures s.procs == ps && s.pending == Range(|ps|) && s.ready == [] && s.time == 0 && s.mode == Fcfs
    ensures |s.factors| == |ps| && s.segs == [] && s.owners == []
  {
    State(ps, Range(|ps|), [], seq(|ps|, i => Value(0)), 0, Fcfs, [], [])
  }

  // ---------------------------------------------------------------------
  // updateReadyQueueState

  /** The pending list split by one refresh. */
  datatype Split = Split(kept: seq<nat>, ready: seq<nat>)

  /** The iterator loop of `updateReadyQueueState`: each pending process that
      has arrived and is not already queued moves to the queue's tail. */
  function Move(ps: seq<Process>, pending: seq<nat>, ready: seq<nat>, t: int): (r: Split)
    requires InRange(pending, |ps|)
    ensures InRange(ready, |ps|) ==> InRange(r.ready, |ps|)
    decreases |pending|
  {
    if pending == [] then Split([], ready)
    else
      var x := pending[0];
      if ps[x].arrival <= t && x !in ready then Move(ps, pending[1..], ready + [x], t)
      else
        var r := Move(ps, pending[1..], ready, t);
        Split([x] + r.kept, r.ready)
  }

  /** The entries of the pending list that have arrived by time t, in list order. */
  function Arrivals(ps: seq<Process>, pending: seq<nat>, t: int): seq<nat>
    requires InRange(pending, |ps|)
  {
    if pending == [] then []
    else (if ps[pending[0]].arrival <= t then [pending[0]] else []) + Arrivals(ps, pending[1..], t)
  }

  /** The entries of the pending list still to arrive after time t, in list order. */
  function Later(ps: seq<Process>, pending: seq<nat>, t: int): seq<nat>
    requires InRange(pending, |ps|)
  {
    if pending == [] then []
    else (if ps[pending[0]].arrival <= t then [] else [pending[0]]) + Later(ps, pending[1..], t)
  }

  /** What the two halves hold. */
  lemma {:induction false} FilterMembers(ps: seq<Process>, pending: seq<nat>, t: int, n: nat)
    requires InRange(pending, |ps|) && Distinct(pending) && InRange(pending, n)
    ensures forall y :: y in Arrivals(ps, pending, t) <==> y in pending && y < |ps| && ps[y].arrival <= t
    ensures forall y :: y in Later(ps, pending, t) <==> y in pending && y < |ps| && ps[y].arrival > t
    ensures Distinct(Arrivals(ps, pending, t)) && InRange(Arrivals(ps, pending, t), n)
    ensures Distinct(Later(ps, pending, t)) && InRange(Later(ps, pending, t), n)
  {
    if pending != [] {
      var x := pending[0];
      var rest := pending[1..];
      FilterMembers(ps, rest, t, n);
      assert pending == [x] + rest;
      assert x !in rest;
      var a := Arrivals(ps, rest, t);
      var l := Later(ps, rest, t);
      if ps[x].arrival <= t {
        assert Arrivals(ps, pending, t) == [x] + a && Later(ps, pending, t) == l;
        PrependDistinct(x, a, n);
      } else {
        assert Arrivals(ps, pending, t) == a && Later(ps, pending, t) == [x] + l;
        PrependDistinct(x, l, n);
      }
    }
  }

  lemma PrependDistinct(x: nat, s: seq<nat>, n: nat)
    requires Distinct(s) && InRange(s, n) && x !in s && x < n
    ensures Distinct([x] + s) && InRange([x] + s, n)
  {
    forall a, b | 0 <= a < b < |[x] + s|
      ensures ([x] + s)[a] != ([x] + s)[b]
    {
      if a == 0 {
        assert ([x] + s)[b] == s[b - 1];
      }
    }
  }

  /** When no pending process is already queued, a refresh appends exactly
      the arrived ones to the queue, in pending order, and keeps the others
      pending, in order. */
  lemma {:induction false} MoveIsFilter(ps: seq<Process>, pending: seq<nat>, ready: seq<nat>, t: int)
    requires InRange(pending, |ps|) && Distinct(pending)
    requires forall y :: y in pending ==> y !in ready
    ensures Move(ps, pending, ready, t) == Split(Later(ps, pending, t), ready + Arrivals(ps, pending, t))
  {
    if pending != [] {
      var x := pending[0];
      var rest := pending[1..];
      assert pending == [x] + rest;
      assert x !in rest;
      if ps[x].arrival <= t {
        MoveIsFilter(ps, rest, ready + [x], t);
        assert ready + [x] + Arrivals(ps, rest, t) == ready + ([x] + Arrivals(ps, rest, t));
      } else {
        MoveIsFilter(ps, rest, ready, t);
      }
    }
  }

  /** `calculateFcaiFactor()`: the loop over the queue storing each queued
      process's factor; other stored factors stay. */
  function Refresh(ps: seq<Process>, factors: seq<Factor>, ready: seq<nat>, sc: Scale): (f: seq<Factor>)
    requires |factors| == |ps| && InRange(ready, |ps|)
    ensures |f| == |ps|
    decreases |ready|
  {
    if ready == [] then factors
    else Refresh(ps, factors[ready[0] := FactorOf(ps[ready[0]], sc)], ready[1..], sc)
  }

  /** After the loop, each queued process's stored factor is its current
      factor and every other stored factor is unchanged. */
  lemma {:induction false} RefreshStores(ps: seq<Process>, factors: seq<Factor>, ready: seq<nat>, sc: Scale)
    requires |factors| == |ps| && InRange(ready, |ps|)
    ensures forall i :: 0 <= i < |ps| ==>
      Refresh(ps, factors, ready, sc)[i] == if i in ready then FactorOf(ps[i], sc) else factors[i]
    decreases |ready|
  {
    if ready != [] {
      RefreshStores(ps, factors[ready[0] := FactorOf(ps[ready[0]], sc)], ready[1..], sc);
      assert forall i :: i in ready <==> i == ready[0] || i in ready[1..];
    }
  }

  /** `updateReadyQueueState(currentTime)`. */
  function Update(s: State, sc: Scale): (r: State)
    requires InRange(s.pending, |s.procs|) && InRange(s.ready, |s.procs|) && |s.factors| == |s.procs|
    ensures r.procs == s.procs && r.time == s.time && r.mode == s.mode && r.segs == s.segs && r.owners == s.owners
    ensures |r.factors| == |s.procs|
  {
    var m := Move(s.procs, s.pending, s.ready, s.time);
    s.(pending := m.kept, ready := m.ready, factors := Refresh(s.procs, s.factors, m.ready, sc))
  }

  // ---------------------------------------------------------------------
  // Invariants the loop keeps

  /** Process p's place: pending, ready, or the one running; never two of
      them; it has work left exactly when it is pending, ready or running
      (a running process may reach 0 before it is put back); burst and
      quantum are never negative. */
  predicate Placed(p: Process, pending: bool, ready: bool, running: bool) {
    && !(pending && ready) && !(running && (pending || ready))
    && p.burst >= 0 && p.quantum >= 0
    && (!running ==> (pending || ready <==> p.burst > 0))
  }

  /** The shape of the state, with x the running process (or none when x is
      not an index). */
  predicate InvWith(s: State, x: int) {
    && |s.factors| == |s.procs|
    && Distinct(s.pending) && InRange(s.pending, |s.procs|)
    && Distinct(s.ready) && InRange(s.ready, |s.procs|)
    && (forall i :: 0 <= i < |s.procs| ==> PlacedAt(s, i, x))
  }

  predicate PlacedAt(s: State, i: nat, x: int)
    requires i < |s.procs|
  {
    Placed(s.procs[i], i in s.pending, i in s.ready, i == x)
  }

  predicate Inv(s: State) {
    InvWith(s, -1)
  }

  /** Right after a refresh, every pending process is still to arrive. */
  predicate AllLater(s: State)
    requires InRange(s.pending, |s.procs|)
  {
    forall j :: 0 <= j < |s.pending| ==> s.procs[s.pending[j]].arrival > s.time
  }

  /** A refresh appends exactly the arrived pending processes to the queue,
      in pending order, and keeps the rest pending, in order; it recomputes
      the stored factor of every queued process and no other. */
  lemma UpdateIsFilter(s: State, sc: Scale, x: int)
    requires InvWith(s, x)
    ensures Update(s, sc).ready == s.ready + Arrivals(s.procs, s.pending, s.time)
    ensures Update(s, sc).pending == Later(s.procs, s.pending, s.time)
    ensures forall i :: 0 <= i < |s.procs| ==>
      Update(s, sc).factors[i] == if i in Update(s, sc).ready then FactorOf(s.procs[i], sc) else s.factors[i]
  {
    forall y | y in s.pending
      ensures y !in s.ready
    {
      assert PlacedAt(s, y, x);
    }
    MoveIsFilter(s.procs, s.pending, s.ready, s.time);
    var m := Move(s.procs, s.pending, s.ready, s.time);
    RefreshStores(s.procs, s.factors, m.ready, sc);
  }

  /** Moving processes between the two lists, without ever putting one in
      both, keeps every process placed. */
  lemma PlacedMoves(s: State, r: State, x: int)
    requires InvWith(s, x) && r.procs == s.procs
    requires forall y :: y in r.pending || y in r.ready <==> y in s.pending || y in s.ready
    requires forall y :: y in r.pending ==> y !in r.ready
    ensures forall i :: 0 <= i < |r.procs| ==> PlacedAt(r, i, x)
  {
    forall i | 0 <= i < |r.procs|
      ensures PlacedAt(r, i, x)
    {
      assert PlacedAt(s, i, x);
    }
  }

  /** A refresh keeps the invariant, and afterwards every pending process is
      still to arrive. */
  lemma UpdateKeeps(s: State, sc: Scale, x: int)
    requires InvWith(s, x)
    ensures InvWith(Update(s, sc), x) && AllLater(Update(s, sc))
    ensures forall y :: y in Update(s, sc).ready <==> y in s.ready || (y in s.pending && s.procs[y].arrival <= s.time)
    ensures forall y :: y in Update(s, sc).pending <==> y in s.pending && s.procs[y].arrival > s.time
  {
    var n := |s.procs|;
    var r := Update(s, sc);
    UpdateIsFilter(s, sc, x);
    FilterMembers(s.procs, s.pending, s.time, n);
    var a := Arrivals(s.procs, s.pending, s.time);
    forall y | y in a
      ensures y !in s.ready
    {
      assert PlacedAt(s, y, x);
    }
    AppendAllDistinct(s.ready, a, n);
    forall y | y in r.pending
      ensures y !in r.ready
    {
      assert PlacedAt(s, y, x);
    }
    PlacedMoves(s, r, x);
    forall j | 0 <= j < |r.pending|
      ensures s.procs[r.pending[j]].arrival > s.time
    {
      assert r.pending[j] in r.pending;
    }
  }

  /** Joining two disjoint lists without repeats gives a list without repeats. */
  lemma AppendAllDistinct(a: seq<nat>, b: seq<nat>, n: nat)
    requires Distinct(a) && InRange(a, n) && Distinct(b) && InRange(b, n)
    requires forall y :: y in b ==> y !in a
    ensures Distinct(a + b) && InRange(a + b, n)
    ensures forall y :: y in a + b <==> y in a || y in b
  {
    forall i, j | 0 <= i < j < |a + b|
      ensures (a + b)[i] != (a + b)[j]
    {
      if i < |a| && j >= |a| {
        assert (a + b)[j] == b[j - |a|];
        assert b[j - |a|] in b;
      }
    }
  }

  /** The clock is not part of the invariant. */
  lemma RunningKeeps(s: State, x: int, t: int)
    requires InvWith(s, x)
    ensures InvWith(s.(time := t), x)
  {
    var r := s.(time := t);
    forall i | 0 <= i < |r.procs|
      ensures PlacedAt(r, i, x)
    {
      assert PlacedAt(s, i, x);
    }
  }

  /** Keeping a running process's burst and quantum non-negative keeps the invariant. */
  lemma RunKeeps(s: State, x: nat, q: Process, t: int)
    requires InvWith(s, x) && x < |s.procs| && q.burst >= 0 && q.quantum >= 0
    ensures InvWith(s.(procs := s.procs[x := q], time := t), x)
  {
    var r := s.(procs := s.procs[x := q], time := t);
    forall i | 0 <= i < |r.procs|
      ensures PlacedAt(r, i, x)
    {
      assert PlacedAt(s, i, x);
    }
  }

  // ---------------------------------------------------------------------
  // getBestProcessFromQueue

  /** Process y beats z in `getBestProcessFromQueue`: a strictly smaller
      stored factor, or an equal one and a strictly earlier arrival. Every
      comparison with NaN is false. */
  predicate Better(ps: seq<Process>, factors: seq<Factor>, y: nat, z: nat)
    requires y < |ps| && z < |ps| && |factors| == |ps|
  {
    FactorLess(factors[y], factors[z]) || (FactorEqual(factors[y], factors[z]) && ps[y].arrival < ps[z].arrival)
  }

  /** The queue position `getBestProcessFromQueue` settles on: it walks the
      queue from the head and takes a process whenever it beats the best so
      far. */
  function BestOf(ps: seq<Process>, factors: seq<Factor>, q: seq<nat>): (k: nat)
    requires |q| > 0 && InRange(q, |ps|) && |factors| == |ps|
    ensures k < |q|
  {
    var n := |q| - 1;
    if n == 0 then 0
    else
      var k := BestOf(ps, factors, q[..n]);
      if Better(ps, factors, q[n], q[k]) then n else k
  }

  /** No queued process beats the one `getBestProcessFromQueue` settles on,
      and one found past the head beats the head; when no factor is NaN,
      it beats every process ahead of it, so ties go to the earliest queue
      position. */
  lemma {:induction false} BestOfIsBest(ps: seq<Process>, factors: seq<Factor>, q: seq<nat>)
    requires |q| > 0 && InRange(q, |ps|) && |factors| == |ps|
    ensures var k := BestOf(ps, factors, q);
      && (forall j :: 0 <= j < |q| ==> !Better(ps, factors, q[j], q[k]))
      && (k > 0 ==> Better(ps, factors, q[k], q[0]))
    ensures (forall j :: 0 <= j < |q| ==> factors[q[j]].Value?) ==>
      var k := BestOf(ps, factors, q);
      forall j :: 0 <= j < k ==> Better(ps, factors, q[k], q[j])
  {
    var n := |q| - 1;
    if n > 0 {
      var b := BestOf(ps, factors, q[..n]);
      BestOfIsBest(ps, factors, q[..n]);
      assert forall j :: 0 <= j < n ==> q[..n][j] == q[j];
      if Better(ps, factors, q[n], q[b]) {
        forall j | 0 <= j < |q|
          ensures !Better(ps, factors, q[j], q[n])
        {
          if j < n {
            assert !Better(ps, factors, q[j], q[b]);
          }
        }
        if forall j :: 0 <= j < |q| ==> factors[q[j]].Value? {
          forall j | 0 <= j < n
            ensures Better(ps, factors, q[n], q[j])
          {
            assert !Better(ps, factors, q[j], q[b]) && factors[q[j]].Value? && factors[q[b]].Value?;
          }
        }
      }
    }
  }

  // ---------------------------------------------------------------------
  // schedule

  /** One idle unit: the clock advances and the queue is refreshed. */
  function Tick(s: State, sc: Scale): (r: State)
    requires Inv(s)
    ensures Inv(r) && AllLater(r) && r.time == s.time + 1
    ensures r.procs == s.procs && r.mode == s.mode && r.segs == s.segs && r.owners == s.owners
  {
    var s1 := s.(time := s.time + 1);
    RunningKeeps(s, -1, s.time + 1);
    UpdateKeeps(s1, sc, -1);
    Update(s1, sc)
  }

  /** Time left until the latest arrival. */
  function Slack(s: State): nat {
    var g := Greatest(s.procs, ArrivalOf);
    if g > s.time then g - s.time else 0
  }

  /** While nothing is queued and a process is pending, an idle unit brings
      the latest arrival one unit closer. */
  lemma TickProgress(s: State, sc: Scale)
    requires Inv(s) && AllLater(s) && s.ready == [] && s.pending != []
    ensures Slack(Tick(s, sc)) < Slack(s)
  {
    GreatestIsMax(s.procs, ArrivalOf);
    assert ArrivalOf(s.procs[s.pending[0]]) > s.time;
    var t := Tick(s, sc);
    assert Greatest(t.procs, ArrivalOf) == Greatest(s.procs, ArrivalOf);
  }

  /** The idle loop: while nothing is queued and some process is still to
      come, the clock advances one unit and the queue is refreshed. */
  function Wait(s: State, sc: Scale): (r: State)
    requires Inv(s) && AllLater(s)
    ensures r.procs == s.procs && r.mode == s.mode && r.segs == s.segs && r.owners == s.owners
    decreases Slack(s)
  {
    if s.ready == [] && s.pending != [] then
      TickProgress(s, sc);
      Wait(Tick(s, sc), sc)
    else s
  }

  /** The state after the preemptible phase, and the quantum left. */
  datatype Run = Run(state: State, left: int)

  /** The best queued process has a strictly smaller stored factor than x's. */
  predicate Preempted(s: State, x: nat)
    requires InvWith(s, x) && x < |s.procs|
  {
    s.ready != [] && FactorLess(s.factors[s.ready[BestOf(s.procs, s.factors, s.ready)]], s.factors[x])
  }

  /** One preemptible unit of x, followed by a refresh. */
  function Next(s: State, x: nat, sc: Scale): (r: State)
    requires InvWith(s, x) && x < |s.procs| && s.procs[x].burst > 0
    ensures InvWith(r, x) && |r.procs| == |s.procs|
    ensures r.procs == s.procs[x := SetBurst(s.procs[x], s.procs[x].burst - 1)] && r.time == s.time + 1
    ensures r.segs == s.segs && r.owners == s.owners && r.mode == s.mode
  {
    var p := s.procs[x];
    var q := SetBurst(p, p.burst - 1);
    assert PlacedAt(s, x, x);
    RunKeeps(s, x, q, s.time + 1);
    UpdateKeeps(s.(procs := s.procs[x := q], time := s.time + 1), sc, x);
    Update(s.(procs := s.procs[x := q], time := s.time + 1), sc)
  }

  /** The preemptible phase of a dispatch of x: unit by unit while x has work
      and quantum left, stopping first if the best queued process has a
      strictly smaller stored factor than x's; each unit is followed by a
      refresh. x's own stored factor is not refreshed while it runs. */
  function Preempt(s: State, x: nat, left: int, sc: Scale): (r: Run)
    requires InvWith(s, x) && x < |s.procs|
    ensures InvWith(r.state, x) && |r.state.procs| == |s.procs| && r.left <= left && (left >= 0 ==> r.left >= 0)
    ensures r.state.segs == s.segs && r.state.owners == s.owners && r.state.mode == s.mode
    decreases Max(0, left)
  {
    if s.procs[x].burst > 0 && left > 0 && !Preempted(s, x) then Preempt(Next(s, x, sc), x, left - 1, sc)
    else Run(s, left)
  }

  /** The preemptible phase stops only when x is out of work, out of
      quantum, or beaten by the best queued process, and it runs x at all
      exactly when none of these holds at the start. */
  lemma PreemptStops(s: State, x: nat, left: int, sc: Scale)
    requires InvWith(s, x) && x < |s.procs| && left >= 0
    ensures var r := Preempt(s, x, left, sc);
      && InvWith(r.state, x)
      && (r.left == 0 || r.state.procs[x].burst == 0 || Preempted(r.state, x))
      && (r.left == left <==> left == 0 || s.procs[x].burst == 0 || Preempted(s, x))
  {
    PreemptHalts(s, x, left, sc);
    if s.procs[x].burst > 0 && left > 0 && !Preempted(s, x) {
      assert Preempt(s, x, left, sc) == Preempt(Next(s, x, sc), x, left - 1, sc);
    }
  }

  /** When the preemptible phase ends, x is out of work or quantum or is beaten. */
  lemma {:induction false} PreemptHalts(s: State, x: nat, left: int, sc: Scale)
    requires InvWith(s, x) && x < |s.procs| && left >= 0
    ensures var r := Preempt(s, x, left, sc);
      r.left == 0 || r.state.procs[x].burst == 0 || Preempted(r.state, x)
    decreases left
  {
    assert PlacedAt(s, x, x);
    if s.procs[x].burst > 0 && left > 0 && !Preempted(s, x) {
      PreemptHalts(Next(s, x, sc), x, left - 1, sc);
      assert Preempt(s, x, left, sc) == Preempt(Next(s, x, sc), x, left - 1, sc);
    }
  }

  /** `ceil(quantum * 0.4)`: the non-preemptive share of a quantum. */
  function NonPreemptive(q: int): (e: int)
    requires q >= 0
    ensures 0 <= e <= q && 5 * (e - 1) < 2 * q <= 5 * e
  {
    CeilDivBounds(2 * q, 5, 0, q);
    CeilDiv(2 * q, 5)
  }

  /** Taking the process at position k off the queue to run it. */
  lemma TakeKeeps(s: State, k: nat, q: Process, t: int)
    requires Inv(s) && k < |s.ready| && q.burst >= 0 && q.quantum >= 0
    ensures InvWith(s.(procs := s.procs[s.ready[k] := q], ready := RemoveAt(s.ready, k), time := t), s.ready[k])
  {
    var x := s.ready[k];
    var r := s.(procs := s.procs[x := q], ready := RemoveAt(s.ready, k), time := t);
    RemoveAtKeepsShape(s.ready, k, |s.procs|);
    forall i | 0 <= i < |r.procs|
      ensures PlacedAt(r, i, x)
    {
      assert PlacedAt(s, i, -1);
    }
  }

  /** The queue position a dispatch takes: the best process's under choice
      1, the head under choice 2. */
  function Take(s: State): (k: nat)
    requires Inv(s) && s.ready != []
    ensures k < |s.ready|
  {
    if s.mode == BestFactor then BestOf(s.procs, s.factors, s.ready) else 0
  }

  /** Taking position `Take(s)` off the queue is `readyQueue.remove(best)`
      under choice 1 and `poll()` under choice 2. */
  lemma TakeIsRemove(s: State)
    requires Inv(s) && s.ready != []
    ensures s.mode == BestFactor ==> RemoveAt(s.ready, Take(s)) == Remove(s.ready, s.ready[Take(s)])
    ensures s.mode == Fcfs ==> RemoveAt(s.ready, Take(s)) == s.ready[1..]
  {
    if s.mode == BestFactor {
      RemoveIsRemoveAt(s.ready, Take(s));
    } else {
      assert s.ready[..0] + s.ready[1..] == s.ready[1..];
    }
  }

  /** The process a dispatch runs. */
  function Chosen(s: State): (x: nat)
    requires Inv(s) && s.ready != []
    ensures x < |s.procs| && x == s.ready[Take(s)]
    ensures s.procs[x].burst > 0 && s.procs[x].quantum >= 0
  {
    var x := s.ready[Take(s)];
    assert PlacedAt(s, x, -1);
    x
  }

  /** The units run without preemption: `min(ceil(0.4 q), burst)`. */
  function Share(s: State): (e: int)
    requires Inv(s) && s.ready != []
    ensures var p := s.procs[Chosen(s)];
      && 0 <= e <= p.quantum && e <= p.burst
      && (p.quantum > 0 ==> e > 0)
  {
    var p := s.procs[Chosen(s)];
    Min(NonPreemptive(p.quantum), p.burst)
  }

  /** The state once the chosen process is off the queue and has run its
      non-preemptive share, with no refresh in between. */
  function Begin(s: State): (r: State)
    requires Inv(s) && s.ready != []
    ensures InvWith(r, Chosen(s)) && Chosen(s) < |r.procs|
    ensures r.procs == s.procs[Chosen(s) := SetBurst(s.procs[Chosen(s)], s.procs[Chosen(s)].burst - Share(s))]
    ensures r.time == s.time + Share(s) && r.segs == s.segs && r.owners == s.owners
    ensures r.ready == RemoveAt(s.ready, Take(s))
  {
    var x := Chosen(s);
    var p := s.procs[x];
    var e := Share(s);
    TakeKeeps(s, Take(s), SetBurst(p, p.burst - e), s.time + e);
    s.(procs := s.procs[x := SetBurst(p, p.burst - e)], ready := RemoveAt(s.ready, Take(s)), time := s.time + e)
  }

  /** The end of a dispatch of x begun at `start` with quantum q: one
      segment for the whole run; then x finishes, or goes back to the
      queue's tail with its quantum grown by 2 when it was used up, or by
      what was left of it otherwise (and the next dispatch picks by
      factor); then the context switch is charged. */
  function Settle(s: State, x: nat, q: int, left: int, start: int, cs: int): (r: State)
    requires x < |s.procs|
  {
    var p := s.procs[x];
    var seg := SegmentOf(p, s.time - start, start);
    var s1 :=
      if p.burst == 0 then s.(procs := s.procs[x := SetCompletion(p, s.time)], mode := Fcfs)
      else if left == 0 then s.(procs := s.procs[x := SetQuantum(p, q + 2)], ready := s.ready + [x], mode := Fcfs)
      else s.(procs := s.procs[x := SetQuantum(p, q + left)], ready := s.ready + [x], mode := BestFactor);
    s1.(segs := s.segs + [seg], owners := s.owners + [x], time := s.time + cs)
  }

  /** A dispatch of x with quantum q from state b, in which x has already
      run its non-preemptive share e since `start`: the preemptible phase
      with the rest of the quantum, then settling. */
  function DispatchFrom(b: State, x: nat, q: int, e: int, start: int, sc: Scale, cs: int): (r: State)
    requires InvWith(b, x) && x < |b.procs|
  {
    var u := Preempt(b, x, q - e, sc);
    Settle(u.state, x, q, u.left, start, cs)
  }

  /** One pass of `schedule`'s loop body after the idle wait: a dispatch. */
  function Dispatch(s: State, sc: Scale, cs: int): (r: State)
    requires Inv(s) && s.ready != []
  {
    DispatchFrom(Begin(s), Chosen(s), s.procs[Chosen(s)].quantum, Share(s), s.time, sc, cs)
  }


  /** Work left: the sum of the remaining bursts. */
  function Remaining(s: State): nat {
    var t := Sum(s.procs, BurstOf);
    if t < 0 then 0 else t
  }

  function ZeroQuantumOf(p: Process): int {
    if p.quantum == 0 then 1 else 0
  }

  /** Processes whose quantum is 0: a dispatch of one runs nothing and sets
      its quantum to 2. */
  function ZeroQuanta(s: State): nat {
    var t := Sum(s.procs, ZeroQuantumOf);
    if t < 0 then 0 else t
  }

  /** `schedule`'s loop: while a process is pending or queued, refresh, wait
      idle while nothing is queued, stop if still nothing is, otherwise
      dispatch. Every dispatch runs a unit of work or, with a quantum of 0,
      raises that quantum to 2; so it ends for non-negative quanta. */
  function Simulate(s: State, sc: Scale, cs: int): (r: State)
    requires Inv(s)
    decreases Remaining(s), ZeroQuanta(s)
  {
    if s.pending == [] && s.ready == [] then s
    else
      UpdateKeeps(s, sc, -1);
      WaitKeeps(Update(s, sc), sc);
      var s1 := Wait(Update(s, sc), sc);
      if s1.ready == [] then s1
      else
        DispatchKeeps(s1, sc, cs);
        Simulate(Dispatch(s1, sc, cs), sc, cs)
  }

  /** The idle wait keeps the invariant and ends with a process queued or
      none pending. */
  lemma {:induction false} WaitKeeps(s: State, sc: Scale)
    requires Inv(s) && AllLater(s)
    ensures Inv(Wait(s, sc)) && AllLater(Wait(s, sc))
    ensures Wait(s, sc).ready != [] || Wait(s, sc).pending == []
    decreases Slack(s)
  {
    if s.ready == [] && s.pending != [] {
      TickProgress(s, sc);
      WaitKeeps(Tick(s, sc), sc);
    }
  }

  /** The preemptible phase keeps the invariant and only runs x: it uses
      `left - r.left` units of quantum, each one unit of x's burst and one
      unit of time. */
  lemma PreemptKeeps(s: State, x: nat, left: int, sc: Scale)
    requires InvWith(s, x) && x < |s.procs| && left >= 0
    ensures var r := Preempt(s, x, left, sc);
      && InvWith(r.state, x) && 0 <= r.left <= left
      && r.state.procs == s.procs[x := SetBurst(s.procs[x], s.procs[x].burst - (left - r.left))]
      && r.state.time == s.time + (left - r.left)
  {
    PreemptBurst(s, x, left, sc);
    PreemptClock(s, x, left, sc);
  }

  /** Each unit of quantum the preemptible phase uses is one unit of x's burst. */
  lemma {:induction false} PreemptBurst(s: State, x: nat, left: int, sc: Scale)
    requires InvWith(s, x) && x < |s.procs| && left >= 0
    ensures var r := Preempt(s, x, left, sc);
      r.state.procs == s.procs[x := SetBurst(s.procs[x], s.procs[x].burst - (left - r.left))]
    decreases left
  {
    if s.procs[x].burst > 0 && left > 0 && !Preempted(s, x) {
      var n := Next(s, x, sc);
      PreemptBurst(n, x, left - 1, sc);
      var r := Preempt(n, x, left - 1, sc);
      BurstChain(s.procs, x, left - 1 - r.left, left - r.left);
    } else {
      BurstNone(s.procs, x, left - Preempt(s, x, left, sc).left);
    }
  }

  /** Each unit of quantum the preemptible phase uses is one unit of time. */
  lemma {:induction false} PreemptClock(s: State, x: nat, left: int, sc: Scale)
    requires InvWith(s, x) && x < |s.procs| && left >= 0
    ensures var r := Preempt(s, x, left, sc); r.state.time == s.time + (left - r.left)
    decreases left
  {
    if s.procs[x].burst > 0 && left > 0 && !Preempted(s, x) {
      PreemptClock(Next(s, x, sc), x, left - 1, sc);
    }
  }

  /** Taking no units of x's burst changes nothing. */
  lemma BurstNone(ps: seq<Process>, x: nat, d: int)
    requires x < |ps| && d == 0
    ensures ps[x := SetBurst(ps[x], ps[x].burst - d)] == ps
  {
    assert SetBurst(ps[x], ps[x].burst - d) == ps[x];
  }

  /** One unit of x's burst and then `rest` more is `rest + 1` units at once. */
  lemma BurstChain(ps: seq<Process>, x: nat, rest: int, total: int)
    requires x < |ps| && total == rest + 1
    ensures var n := ps[x := SetBurst(ps[x], ps[x].burst - 1)];
      n[x := SetBurst(n[x], n[x].burst - rest)] == ps[x := SetBurst(ps[x], ps[x].burst - total)]
  {
    var n := ps[x := SetBurst(ps[x], ps[x].burst - 1)];
    assert SetBurst(n[x], n[x].burst - rest) == SetBurst(ps[x], ps[x].burst - total);
  }

  /** Settling keeps the invariant; x's burst is kept, and a quantum of 0 that
      ran nothing becomes 2. */
  lemma SettleKeeps(s: State, x: nat, q: int, left: int, start: int, cs: int)
    requires InvWith(s, x) && x < |s.procs| && q >= 0 && left >= 0
    ensures var r := Settle(s, x, q, left, start, cs);
      && Inv(r) && |r.procs| == |s.procs|
      && r.procs == s.procs[x := r.procs[x]] && r.procs[x].burst == s.procs[x].burst
      && (s.procs[x].burst > 0 && left == 0 ==> r.procs[x].quantum == q + 2)
  {
    var r := Settle(s, x, q, left, start, cs);
    var p := s.procs[x];
    assert PlacedAt(s, x, x);
    if p.burst > 0 {
      AppendKeepsShape(s.ready, x, |s.procs|);
      assert r.ready == s.ready + [x];
    } else {
      assert r.ready == s.ready;
    }
    forall i | 0 <= i < |r.procs|
      ensures PlacedAt(r, i, -1)
    {
      assert PlacedAt(s, i, x);
    }
  }

  /** The rest of a dispatch keeps the invariant and only changes x, which
      loses q - e - left units of burst for some left in [0, q - e]; a
      quantum of 0 that ran nothing becomes 2. */
  lemma DispatchFromKeeps(b: State, x: nat, q: int, e: int, start: int, sc: Scale, cs: int)
    requires InvWith(b, x) && x < |b.procs| && 0 <= e <= q
    ensures var r := DispatchFrom(b, x, q, e, start, sc, cs);
      && Inv(r) && |r.procs| == |b.procs|
      && r.procs == b.procs[x := r.procs[x]]
      && b.procs[x].burst - (q - e) <= r.procs[x].burst <= b.procs[x].burst
      && (q == e && b.procs[x].burst > 0 ==> r.procs[x].burst == b.procs[x].burst && r.procs[x].quantum == q + 2)
  {
    PreemptKeeps(b, x, q - e, sc);
    var u := Preempt(b, x, q - e, sc);
    SettleKeeps(u.state, x, q, u.left, start, cs);
    var r := DispatchFrom(b, x, q, e, start, sc, cs);
    assert r == Settle(u.state, x, q, u.left, start, cs);
    assert r.procs == u.state.procs[x := r.procs[x]];
    assert r.procs == b.procs[x := r.procs[x]];
  }

  /** Settling x after a run that started at `start` from state p and used
      all of q but `left`: one segment for the whole run, owned by x; the
      clock plus the context switch; then completion at the end of the run,
      or back to the queue's tail with the quantum grown by 2 (quantum used
      up) or by what was left of it. */
  lemma SettleTrace(u: State, x: nat, q: int, left: int, start: int, cs: int, p: Process)
    requires InvWith(u, x) && x < |u.procs| && 0 <= left <= q
    requires u.procs[x] == SetBurst(p, p.burst - (q - left)) && u.time == start + (q - left)
    ensures var r := Settle(u, x, q, left, start, cs);
      var d := p.burst - r.procs[x].burst;
      && d == q - left && |r.procs| == |u.procs| && r.procs[x].burst >= 0 && x < |r.procs|
      && r.segs == u.segs + [SegmentOf(p, d, start)] && r.owners == u.owners + [x]
      && r.time == start + d + cs && u.ready <= r.ready
      && SameExcept(p, SetBurst(r.procs[x], p.burst), if p.burst == d then CompletionField else QuantumField)
      && (p.burst == d ==> r.procs[x].completion == start + d && r.mode == Fcfs && r.ready == u.ready)
      && (p.burst > d ==> r.ready == u.ready + [x])
      && (p.burst > d && left == 0 ==> r.procs[x].quantum == q + 2 && r.mode == Fcfs)
      && (p.burst > d && left > 0 ==> r.procs[x].quantum == q + left && r.mode == BestFactor)
  {
    var w := u.procs[x];
    assert SegmentOf(w, q - left, start) == SegmentOf(p, q - left, start);
    assert PlacedAt(u, x, x);
  }

  /** The rest of a dispatch of x, whose state before the dispatch was p
      and which has run e units since `start`, in terms of the units d it
      runs in all: at least e, at most q and its burst; then as SettleTrace
      says, the queue before settling being b's with the arrivals of the
      preemptible phase behind. */
  lemma DispatchFromTrace(b: State, x: nat, q: int, e: int, start: int, sc: Scale, cs: int, p: Process)
    requires InvWith(b, x) && x < |b.procs| && 0 <= e <= q && e <= p.burst
    requires b.procs[x] == SetBurst(p, p.burst - e) && b.time == start + e
    ensures var r := DispatchFrom(b, x, q, e, start, sc, cs);
      var d := p.burst - r.procs[x].burst;
      && e <= d <= q && d <= p.burst && |r.procs| == |b.procs|
      && r.segs == b.segs + [SegmentOf(p, d, start)] && r.owners == b.owners + [x]
      && r.time == start + d + cs && b.ready <= r.ready
      && SameExcept(p, SetBurst(r.procs[x], p.burst), if p.burst == d then CompletionField else QuantumField)
      && (p.burst == d ==> r.procs[x].completion == start + d && r.mode == Fcfs && x !in r.ready)
      && (p.burst > d ==> r.ready != [] && r.ready[|r.ready| - 1] == x)
      && (p.burst > d && d == q ==> r.procs[x].quantum == q + 2 && r.mode == Fcfs)
      && (p.burst > d && d < q ==> r.procs[x].quantum == q + (q - d) && r.mode == BestFactor)
  {
    var u := Preempt(b, x, q - e, sc);
    assert InvWith(u.state, x) && 0 <= u.left <= q - e && b.ready <= u.state.ready && x !in u.state.ready
      && u.state.procs[x] == SetBurst(p, p.burst - (q - u.left)) && u.state.time == start + (q - u.left)
    by {
      PreemptKeeps(b, x, q - e, sc);
      PreemptQueue(b, x, q - e, sc);
      assert u.state.procs[x] == SetBurst(b.procs[x], b.procs[x].burst - (q - e - u.left));
    }
    SettleTrace(u.state, x, q, u.left, start, cs, p);
    var r := DispatchFrom(b, x, q, e, start, sc, cs);
    assert r == Settle(u.state, x, q, u.left, start, cs);
    PrefixTrans(b.ready, u.state.ready, r.ready);
  }

  /** The preemptible phase only appends to the queue: the processes queued
      when it starts keep their order ahead of the ones that arrive. */
  lemma {:induction false} PreemptQueue(s: State, x: nat, left: int, sc: Scale)
    requires InvWith(s, x) && x < |s.procs|
    ensures s.ready <= Preempt(s, x, left, sc).state.ready && x !in Preempt(s, x, left, sc).state.ready
    decreases Max(0, left)
  {
    assert PlacedAt(s, x, x);
    if s.procs[x].burst > 0 && left > 0 && !Preempted(s, x) {
      var q := SetBurst(s.procs[x], s.procs[x].burst - 1);
      RunKeeps(s, x, q, s.time + 1);
      UpdateIsFilter(s.(procs := s.procs[x := q], time := s.time + 1), sc, x);
      var n := Next(s, x, sc);
      assert s.ready <= n.ready;
      PreemptQueue(n, x, left - 1, sc);
    }
  }

  /** b is s once the process at queue position k is off the queue and has
      run e units of its quantum and burst. */
  predicate Started(s: State, b: State, k: nat, e: int) {
    && k < |s.ready| && s.ready[k] < |s.procs|
    && var x := s.ready[k]; var p := s.procs[x];
      && 0 <= e <= p.quantum && e <= p.burst && InvWith(b, x)
      && b.procs == s.procs[x := SetBurst(p, p.burst - e)] && b.time == s.time + e
      && b.ready == RemoveAt(s.ready, k) && b.segs == s.segs && b.owners == s.owners
  }

  /** A dispatch in terms of the state s it starts from, given the state b
      once the process at queue position k is off the queue and has run its
      share e: it runs d units in all, at least e and at most its quantum
      and its burst, in one segment starting now; the clock moves by d plus
      the context switch; no other process changes, and of the one run only
      its burst and then its completion (when it finishes) or its quantum
      (otherwise). */
  lemma DispatchFromRun(s: State, b: State, k: nat, e: int, sc: Scale, cs: int)
    requires Started(s, b, k, e)
    ensures var x := s.ready[k]; var p := s.procs[x]; var q := p.quantum;
      var r := DispatchFrom(b, x, q, e, s.time, sc, cs); var d := p.burst - r.procs[x].burst;
      && |r.procs| == |s.procs| && e <= d <= q && d <= p.burst
      && r.segs == s.segs + [SegmentOf(p, d, s.time)] && r.owners == s.owners + [x]
      && r.time == s.time + d + cs
      && (forall i :: 0 <= i < |s.procs| && i != x ==> r.procs[i] == s.procs[i])
      && SameExcept(p, SetBurst(r.procs[x], p.burst), if d == p.burst then CompletionField else QuantumField)
  {
    var x := s.ready[k];
    var p := s.procs[x];
    DispatchFromTrace(b, x, p.quantum, e, s.time, sc, cs, p);
    DispatchFromKeeps(b, x, p.quantum, e, s.time, sc, cs);
  }

  /** Then the process run finishes at the end of the run, or goes to the
      queue's tail, behind the processes queued before (which keep their
      order) and the ones that arrived meanwhile, with its quantum grown by
      2 when the quantum was used up and by the unused part otherwise. */
  lemma DispatchFromQueue(s: State, b: State, k: nat, e: int, sc: Scale, cs: int)
    requires Started(s, b, k, e)
    ensures var x := s.ready[k]; var p := s.procs[x]; var q := p.quantum;
      var r := DispatchFrom(b, x, q, e, s.time, sc, cs); var d := p.burst - r.procs[x].burst;
      && RemoveAt(s.ready, k) <= r.ready
      && (d == p.burst ==> r.procs[x].completion == s.time + d && r.mode == Fcfs && x !in r.ready)
      && (d < p.burst ==> r.ready != [] && r.ready[|r.ready| - 1] == x)
      && (d < p.burst && d == q ==> r.procs[x].quantum == q + 2 && r.mode == Fcfs)
      && (d < p.burst && d < q ==> r.procs[x].quantum == q + (q - d) && r.mode == BestFactor)
  {
    var x := s.ready[k];
    var p := s.procs[x];
    DispatchFromTrace(b, x, p.quantum, e, s.time, sc, cs, p);
  }

  /** One dispatch: the process run is the queue's head after a completion
      or a used-up quantum, and the best queued one after a preemption; it
      runs at least its non-preemptive share `min(ceil(0.4 q), burst)`. The
      rest is DispatchFromRun and DispatchFromQueue. */
  lemma DispatchEffect(s: State, sc: Scale, cs: int)
    requires Inv(s) && s.ready != []
    ensures var x := Chosen(s);
      && (s.mode == Fcfs ==> x == s.ready[0])
      && (s.mode == BestFactor ==> x == s.ready[BestOf(s.procs, s.factors, s.ready)])
      && Dispatch(s, sc, cs) == DispatchFrom(Begin(s), x, s.procs[x].quantum, Share(s), s.time, sc, cs)
      && Share(s) == Min(NonPreemptive(s.procs[x].quantum), s.procs[x].burst)
    ensures Started(s, Begin(s), Take(s), Share(s))
  {
  }

  /** A dispatch keeps the invariant and lowers the measure of `Simulate`. */
  lemma DispatchKeeps(s: State, sc: Scale, cs: int)
    requires Inv(s) && s.ready != []
    ensures var r := Dispatch(s, sc, cs);
      && Inv(r) && |r.procs| == |s.procs|
      && (Remaining(r) < Remaining(s) || (Remaining(r) == Remaining(s) && ZeroQuanta(r) < ZeroQuanta(s)))
  {
    var x := Chosen(s);
    var p := s.procs[x];
    var q := p.quantum;
    var e := Share(s);
    var b := Begin(s);
    DispatchFromKeeps(b, x, q, e, s.time, sc, cs);
    var r := DispatchFrom(b, x, q, e, s.time, sc, cs);
    assert r == Dispatch(s, sc, cs);
    var p1 := SetBurst(p, p.burst - e);
    var pf := r.procs[x];
    SumUpdate(s.procs, x, p1, BurstOf);
    SumUpdate(b.procs, x, pf, BurstOf);
    SumUpdate(s.procs, x, p1, ZeroQuantumOf);
    SumUpdate(b.procs, x, pf, ZeroQuantumOf);
    BurstsNonNegative(s);
    BurstsNonNegative(r);
    SumNonNegative(r.procs, ZeroQuantumOf);
  }

  lemma BurstsNonNegative(s: State)
    requires Inv(s)
    ensures Sum(s.procs, BurstOf) >= 0
  {
    forall i | 0 <= i < |s.procs|
      ensures BurstOf(s.procs[i]) >= 0
    {
      assert PlacedAt(s, i, -1);
    }
    SumNonNegative(s.procs, BurstOf);
  }

  // ---------------------------------------------------------------------
  // Queued processes have arrived

  /** Every queued process has arrived by now. */
  predicate Arrived(s: State) {
    forall y :: y in s.ready && y < |s.procs| ==> s.procs[y].arrival <= s.time
  }

  lemma UpdateArrived(s: State, sc: Scale, x: int)
    requires InvWith(s, x) && Arrived(s)
    ensures Arrived(Update(s, sc))
  {
    UpdateKeeps(s, sc, x);
  }

  lemma {:induction false} WaitArrived(s: State, sc: Scale)
    requires Inv(s) && AllLater(s) && Arrived(s)
    ensures Arrived(Wait(s, sc)) && Wait(s, sc).time >= s.time
    decreases Slack(s)
  {
    if s.ready == [] && s.pending != [] {
      TickProgress(s, sc);
      RunningKeeps(s, -1, s.time + 1);
      UpdateArrived(s.(time := s.time + 1), sc, -1);
      WaitArrived(Tick(s, sc), sc);
    }
  }

  lemma {:induction false} PreemptArrived(s: State, x: nat, left: int, sc: Scale)
    requires InvWith(s, x) && x < |s.procs| && Arrived(s)
    ensures Arrived(Preempt(s, x, left, sc).state)
    decreases Max(0, left)
  {
    if s.procs[x].burst > 0 && left > 0 && !Preempted(s, x) {
      var q := SetBurst(s.procs[x], s.procs[x].burst - 1);
      assert PlacedAt(s, x, x);
      RunKeeps(s, x, q, s.time + 1);
      UpdateArrived(s.(procs := s.procs[x := q], time := s.time + 1), sc, x);
      PreemptArrived(Next(s, x, sc), x, left - 1, sc);
    }
  }

  lemma DispatchFromArrived(b: State, x: nat, q: int, e: int, start: int, sc: Scale, cs: int)
    requires InvWith(b, x) && x < |b.procs| && 0 <= e <= q && cs >= 0
    requires Arrived(b) && b.procs[x].arrival <= b.time
    ensures Arrived(DispatchFrom(b, x, q, e, start, sc, cs))
  {
    var u := Preempt(b, x, q - e, sc);
    assert Arrived(u.state) && u.state.time >= b.time && x < |u.state.procs|
      && u.state.procs[x].arrival == b.procs[x].arrival
    by {
      PreemptArrived(b, x, q - e, sc);
      PreemptKeeps(b, x, q - e, sc);
    }
    var r := DispatchFrom(b, x, q, e, start, sc, cs);
    assert r == Settle(u.state, x, q, u.left, start, cs);
    assert r.ready == u.state.ready || r.ready == u.state.ready + [x];
    assert r.procs == u.state.procs[x := r.procs[x]] && r.procs[x].arrival == u.state.procs[x].arrival;
  }

  /** A dispatch from a state whose queued processes have arrived leaves a
      queue whose processes have arrived, for a non-negative context switch. */
  lemma DispatchArrived(s: State, sc: Scale, cs: int)
    requires Inv(s) && s.ready != [] && Arrived(s) && cs >= 0
    ensures Arrived(Dispatch(s, sc, cs))
  {
    var x := Chosen(s);
    var b := Begin(s);
    RemoveAtKeepsShape(s.ready, Take(s), |s.procs|);
    assert b.procs[x].arrival == s.procs[x].arrival;
    assert Arrived(b);
    DispatchFromArrived(b, x, s.procs[x].quantum, Share(s), s.time, sc, cs);
  }

  // ---------------------------------------------------------------------
  // The run as a whole: termination with no work left

  /** With nothing pending or queued and nobody running, no work is left. */
  lemma NothingLeft(s: State)
    requires Inv(s) && s.pending == [] && s.ready == []
    ensures forall i :: 0 <= i < |s.procs| ==> s.procs[i].burst == 0
  {
    forall i | 0 <= i < |s.procs|
      ensures s.procs[i].burst == 0
    {
      assert PlacedAt(s, i, -1);
    }
  }

  /** The loop ends with nothing pending or queued, so with no work left. */
  lemma {:induction false} SimulateEnds(s: State, sc: Scale, cs: int)
    requires Inv(s)
    ensures var r := Simulate(s, sc, cs);
      && Inv(r) && r.pending == [] && r.ready == [] && |r.procs| == |s.procs|
      && forall i :: 0 <= i < |r.procs| ==> r.procs[i].burst == 0
    decreases Remaining(s), ZeroQuanta(s)
  {
    if s.pending == [] && s.ready == [] {
      NothingLeft(s);
    } else {
      UpdateKeeps(s, sc, -1);
      WaitKeeps(Update(s, sc), sc);
      var s1 := Wait(Update(s, sc), sc);
      if s1.ready == [] {
        NothingLeft(s1);
      } else {
        DispatchKeeps(s1, sc, cs);
        SimulateEnds(Dispatch(s1, sc, cs), sc, cs);
      }
    }
  }

  // ---------------------------------------------------------------------
  // History: what the run has done to each process

  /** p is p0 part-way through the run: its identity and original burst are
      as given, its quantum has only grown, and its completion time is
      untouched while it has work left. */
  predicate Evolved(p0: Process, p: Process) {
    && p.name == p0.name && p.arrival == p0.arrival && p.priority == p0.priority && p.pid == p0.pid
    && p.originalBurst == p0.originalBurst && p.quantum >= p0.quantum && p.burst <= p0.burst
    && (p.burst > 0 ==> p.completion == p0.completion)
  }

  /** The state is reachable from the caller's processes ps: each process has
      evolved from its given self, the segments emitted for it add up to the
      burst it has used, and every segment carries its owner's identity. */
  predicate Hist(ps: seq<Process>, s: State) {
    && |s.procs| == |ps| && |s.segs| == |s.owners| && InRange(s.owners, |ps|)
    && (forall i :: 0 <= i < |ps| ==>
          Evolved(ps[i], s.procs[i]) && TimeGiven(s.segs, s.owners, i) + s.procs[i].burst == ps[i].burst)
    && (forall j :: 0 <= j < |s.segs| ==> s.segs[j].duration >= 0 && Describes(s.segs[j], ps[s.owners[j]]))
  }

  /** x runs d units in one segment from t: its burst drops by d, its
      quantum does not drop, and only its completion (when it finishes) or
      its quantum changes besides; nobody else changes. */
  lemma ChargeHist(ps: seq<Process>, s: State, r: State, x: nat, d: int, t: int)
    requires Hist(ps, s) && x < |s.procs| && 0 <= d <= s.procs[x].burst
    requires |r.procs| == |s.procs| && forall i :: 0 <= i < |s.procs| && i != x ==> r.procs[i] == s.procs[i]
    requires r.procs[x].burst == s.procs[x].burst - d && r.procs[x].quantum >= s.procs[x].quantum
    requires SameExcept(s.procs[x], SetBurst(r.procs[x], s.procs[x].burst),
      if d == s.procs[x].burst then CompletionField else QuantumField)
    requires r.segs == s.segs + [SegmentOf(s.procs[x], d, t)] && r.owners == s.owners + [x]
    ensures Hist(ps, r)
  {
    var seg := SegmentOf(s.procs[x], d, t);
    forall i | 0 <= i < |ps|
      ensures Evolved(ps[i], r.procs[i]) && TimeGiven(r.segs, r.owners, i) + r.procs[i].burst == ps[i].burst
    {
      TimeGivenAppend(s.segs, s.owners, seg, x, i);
    }
    forall j | 0 <= j < |r.segs|
      ensures r.segs[j].duration >= 0 && Describes(r.segs[j], ps[r.owners[j]])
    {
      if j == |s.segs| {
        assert r.segs[j] == seg && r.owners[j] == x;
      } else {
        assert r.segs[j] == s.segs[j] && r.owners[j] == s.owners[j];
      }
    }
  }

  lemma DispatchFromHist(ps: seq<Process>, s: State, b: State, k: nat, e: int, sc: Scale, cs: int)
    requires Hist(ps, s) && Started(s, b, k, e)
    ensures Hist(ps, DispatchFrom(b, s.ready[k], s.procs[s.ready[k]].quantum, e, s.time, sc, cs))
  {
    var x := s.ready[k];
    var p := s.procs[x];
    var r := DispatchFrom(b, x, p.quantum, e, s.time, sc, cs);
    var d := p.burst - r.procs[x].burst;
    assert && x < |s.procs| && 0 <= d <= p.burst
      && |r.procs| == |s.procs| && (forall i :: 0 <= i < |s.procs| && i != x ==> r.procs[i] == s.procs[i])
      && r.procs[x].quantum >= p.quantum
      && SameExcept(p, SetBurst(r.procs[x], p.burst), if d == p.burst then CompletionField else QuantumField)
      && r.segs == s.segs + [SegmentOf(p, d, s.time)] && r.owners == s.owners + [x]
    by {
      DispatchFromRun(s, b, k, e, sc, cs);
      DispatchFromQueue(s, b, k, e, sc, cs);
    }
    ChargeHist(ps, s, r, x, d, s.time);
  }

  lemma DispatchHist(ps: seq<Process>, s: State, sc: Scale, cs: int)
    requires Inv(s) && s.ready != [] && Hist(ps, s)
    ensures Hist(ps, Dispatch(s, sc, cs))
  {
    DispatchEffect(s, sc, cs);
    DispatchFromHist(ps, s, Begin(s), Take(s), Share(s), sc, cs);
  }

  lemma {:induction false} SimulateHist(ps: seq<Process>, s: State, sc: Scale, cs: int)
    requires Inv(s) && Hist(ps, s)
    ensures Hist(ps, Simulate(s, sc, cs))
    decreases Remaining(s), ZeroQuanta(s)
  {
    if s.pending != [] || s.ready != [] {
      UpdateKeeps(s, sc, -1);
      WaitKeeps(Update(s, sc), sc);
      var s1 := Wait(Update(s, sc), sc);
      assert Hist(ps, s1);
      if s1.ready != [] {
        DispatchKeeps(s1, sc, cs);
        DispatchHist(ps, s1, sc, cs);
        SimulateHist(ps, Dispatch(s1, sc, cs), sc, cs);
      }
    }
  }

  // ---------------------------------------------------------------------
  // Completion times

  /** Every process that is out of work and not running completed where its
      last segment ends. */
  predicate Closed(s: State) {
    && |s.segs| == |s.owners|
    && (forall i :: 0 <= i < |s.procs| && s.procs[i].burst == 0 ==> ClosedAt(s, i))
  }

  predicate ClosedAt(s: State, i: nat)
    requires |s.segs| == |s.owners| && i < |s.procs|
  {
    LastOwned(s.owners, i) >= 0 && s.procs[i].completion == End(s.segs[LastOwned(s.owners, i)])
  }

  /** Appending one segment for x keeps every other process's last segment;
      if x is out of work it must have completed at that segment's end. */
  lemma AppendClosed(s: State, r: State, x: nat, seg: Segment)
    requires Closed(s) && x < |s.procs| && |r.procs| == |s.procs|
    requires forall i :: 0 <= i < |s.procs| && i != x ==> r.procs[i] == s.procs[i]
    requires r.segs == s.segs + [seg] && r.owners == s.owners + [x]
    requires r.procs[x].burst == 0 ==> r.procs[x].completion == End(seg)
    ensures Closed(r)
  {
    forall i | 0 <= i < |r.procs| && r.procs[i].burst == 0
      ensures ClosedAt(r, i)
    {
      LastOwnedAppend(s.owners, x, i);
      if i != x {
        assert ClosedAt(s, i);
        assert r.segs[LastOwned(s.owners, i)] == s.segs[LastOwned(s.owners, i)];
      }
    }
  }

  /** A dispatch appends the segment of the process it runs, which it
      completes at that segment's end when it finishes. */
  lemma DispatchClosed(s: State, sc: Scale, cs: int)
    requires Inv(s) && s.ready != [] && Closed(s)
    ensures Closed(Dispatch(s, sc, cs))
  {
    DispatchEffect(s, sc, cs);
    var k := Take(s);
    var b := Begin(s);
    var e := Share(s);
    var x := s.ready[k];
    var p := s.procs[x];
    var r := DispatchFrom(b, x, p.quantum, e, s.time, sc, cs);
    assert r == Dispatch(s, sc, cs);
    var d := p.burst - r.procs[x].burst;
    assert && |r.procs| == |s.procs| && (forall i :: 0 <= i < |s.procs| && i != x ==> r.procs[i] == s.procs[i])
      && r.segs == s.segs + [SegmentOf(p, d, s.time)] && r.owners == s.owners + [x]
      && (d == p.burst ==> r.procs[x].completion == s.time + d)
    by {
      DispatchFromRun(s, b, k, e, sc, cs);
      DispatchFromQueue(s, b, k, e, sc, cs);
    }
    AppendClosed(s, r, x, SegmentOf(p, d, s.time));
  }

  lemma {:induction false} SimulateClosed(s: State, sc: Scale, cs: int)
    requires Inv(s) && Closed(s)
    ensures Closed(Simulate(s, sc, cs))
    decreases Remaining(s), ZeroQuanta(s)
  {
    if s.pending != [] || s.ready != [] {
      UpdateKeeps(s, sc, -1);
      WaitKeeps(Update(s, sc), sc);
      var s1 := Wait(Update(s, sc), sc);
      assert s1.procs == s.procs && s1.segs == s.segs && s1.owners == s.owners;
      assert Closed(s1) by {
        forall i | 0 <= i < |s1.procs| && s1.procs[i].burst == 0
          ensures ClosedAt(s1, i)
        {
          assert ClosedAt(s, i);
        }
      }
      if s1.ready != [] {
        DispatchKeeps(s1, sc, cs);
        DispatchClosed(s1, sc, cs);
        SimulateClosed(Dispatch(s1, sc, cs), sc, cs);
      }
    }
  }

  // ---------------------------------------------------------------------
  // Timing, for a non-negative context switch

  /** The burst p has used so far fits between its arrival and now; once it
      has used all of it, it completed no earlier than its arrival plus its
      whole burst and no later than now. */
  predicate Elapsed(p0: Process, p: Process, time: int) {
    && (p.burst < p0.burst ==> p0.burst - p.burst <= time - p0.arrival)
    && (p.burst == 0 < p0.burst ==> p0.burst <= p.completion - p0.arrival <= time - p0.arrival)
  }

  /** Time never goes below 0; queued processes have arrived; each segment
      starts at or after time 0 and its owner's arrival and is over by now;
      segments never overlap. */
  predicate Timed(ps: seq<Process>, s: State) {
    && |s.procs| == |ps| && |s.segs| == |s.owners| && InRange(s.owners, |ps|)
    && s.time >= 0 && Arrived(s)
    && (forall i :: 0 <= i < |ps| ==> Elapsed(ps[i], s.procs[i], s.time))
    && (forall j :: 0 <= j < |s.segs| ==>
          0 <= s.segs[j].start && ps[s.owners[j]].arrival <= s.segs[j].start && End(s.segs[j]) <= s.time)
    && Sequential(s.segs)
  }

  /** Letting time pass with the processes and the segments as they are. */
  lemma LaterTimed(ps: seq<Process>, s: State, r: State)
    requires Timed(ps, s) && r.procs == s.procs && r.segs == s.segs && r.owners == s.owners
    requires r.time >= s.time && Arrived(r)
    ensures Timed(ps, r)
  {
    forall i | 0 <= i < |ps|
      ensures Elapsed(ps[i], r.procs[i], r.time)
    {
      assert Elapsed(ps[i], s.procs[i], s.time);
    }
  }

  /** The queued process x runs d units in one segment from now; the clock
      moves by d and the context switch; x completes at the end of the run
      if it has no work left; nobody else changes. */
  lemma ChargeTimed(ps: seq<Process>, s: State, r: State, x: nat, d: int, cs: int)
    requires Hist(ps, s) && Timed(ps, s) && x < |s.procs| && x in s.ready && cs >= 0
    requires 0 <= d <= s.procs[x].burst
    requires |r.procs| == |s.procs| && forall i :: 0 <= i < |s.procs| && i != x ==> r.procs[i] == s.procs[i]
    requires r.procs[x].burst == s.procs[x].burst - d
    requires r.procs[x].burst == 0 ==> r.procs[x].completion == s.time + d
    requires r.segs == s.segs + [SegmentOf(s.procs[x], d, s.time)] && r.owners == s.owners + [x]
    requires r.time == s.time + d + cs && Arrived(r)
    ensures Timed(ps, r)
  {
    var seg := SegmentOf(s.procs[x], d, s.time);
    assert Evolved(ps[x], s.procs[x]);
    assert Elapsed(ps[x], s.procs[x], s.time);
    forall i | 0 <= i < |ps|
      ensures Elapsed(ps[i], r.procs[i], r.time)
    {
      assert Elapsed(ps[i], s.procs[i], s.time);
    }
    forall j | 0 <= j < |r.segs|
      ensures 0 <= r.segs[j].start && ps[r.owners[j]].arrival <= r.segs[j].start && End(r.segs[j]) <= r.time
    {
      if j == |s.segs| {
        assert r.segs[j] == seg && r.owners[j] == x;
      } else {
        assert r.segs[j] == s.segs[j] && r.owners[j] == s.owners[j];
      }
    }
    forall j | 0 < j < |r.segs|
      ensures Precedes(r.segs[j - 1], r.segs[j])
    {
      if j == |s.segs| {
        assert r.segs[j] == seg && r.segs[j - 1] == s.segs[j - 1];
      } else {
        assert r.segs[j] == s.segs[j] && r.segs[j - 1] == s.segs[j - 1];
      }
    }
  }

  lemma DispatchFromTimed(ps: seq<Process>, s: State, b: State, k: nat, e: int, sc: Scale, cs: int)
    requires Hist(ps, s) && Timed(ps, s) && Started(s, b, k, e) && cs >= 0
    requires Arrived(DispatchFrom(b, s.ready[k], s.procs[s.ready[k]].quantum, e, s.time, sc, cs))
    ensures Timed(ps, DispatchFrom(b, s.ready[k], s.procs[s.ready[k]].quantum, e, s.time, sc, cs))
  {
    var x := s.ready[k];
    var p := s.procs[x];
    var r := DispatchFrom(b, x, p.quantum, e, s.time, sc, cs);
    var d := p.burst - r.procs[x].burst;
    assert && 0 <= d <= p.burst
      && |r.procs| == |s.procs| && (forall i :: 0 <= i < |s.procs| && i != x ==> r.procs[i] == s.procs[i])
      && (r.procs[x].burst == 0 ==> r.procs[x].completion == s.time + d)
      && r.segs == s.segs + [SegmentOf(p, d, s.time)] && r.owners == s.owners + [x]
      && r.time == s.time + d + cs
    by {
      DispatchFromRun(s, b, k, e, sc, cs);
      DispatchFromQueue(s, b, k, e, sc, cs);
    }
    ChargeTimed(ps, s, r, x, d, cs);
  }

  lemma DispatchTimed(ps: seq<Process>, s: State, sc: Scale, cs: int)
    requires Inv(s) && s.ready != [] && Hist(ps, s) && Timed(ps, s) && cs >= 0
    ensures Timed(ps, Dispatch(s, sc, cs))
  {
    DispatchEffect(s, sc, cs);
    DispatchArrived(s, sc, cs);
    DispatchFromTimed(ps, s, Begin(s), Take(s), Share(s), sc, cs);
  }

  /** The refresh and the idle wait at the top of the loop only let time
      pass. */
  lemma RefreshTimed(ps: seq<Process>, s: State, sc: Scale)
    requires Inv(s) && Hist(ps, s) && Timed(ps, s)
    ensures Inv(Update(s, sc)) && AllLater(Update(s, sc))
    ensures var s1 := Wait(Update(s, sc), sc);
      Inv(s1) && Hist(ps, s1) && Timed(ps, s1) && s1.procs == s.procs
  {
    UpdateKeeps(s, sc, -1);
    UpdateArrived(s, sc, -1);
    var s0 := Update(s, sc);
    LaterTimed(ps, s, s0);
    WaitKeeps(s0, sc);
    WaitArrived(s0, sc);
    LaterTimed(ps, s0, Wait(s0, sc));
  }

  /** A dispatch keeps the history and the timing. */
  lemma DispatchRound(ps: seq<Process>, s: State, sc: Scale, cs: int)
    requires Inv(s) && s.ready != [] && Hist(ps, s) && Timed(ps, s) && cs >= 0
    ensures var r := Dispatch(s, sc, cs);
      && Inv(r) && Hist(ps, r) && Timed(ps, r)
      && (Remaining(r) < Remaining(s) || (Remaining(r) == Remaining(s) && ZeroQuanta(r) < ZeroQuanta(s)))
  {
    DispatchKeeps(s, sc, cs);
    DispatchHist(ps, s, sc, cs);
    DispatchTimed(ps, s, sc, cs);
  }

  lemma {:induction false} SimulateTimed(ps: seq<Process>, s: State, sc: Scale, cs: int)
    requires Inv(s) && Hist(ps, s) && Timed(ps, s) && cs >= 0
    ensures Timed(ps, Simulate(s, sc, cs))
    decreases Remaining(s), ZeroQuanta(s)
  {
    if s.pending != [] || s.ready != [] {
      RefreshTimed(ps, s, sc);
      var s1 := Wait(Update(s, sc), sc);
      if s1.ready != [] {
        assert Remaining(s1) == Remaining(s) && ZeroQuanta(s1) == ZeroQuanta(s);
        var r := Dispatch(s1, sc, cs);
        assert Inv(r) && Hist(ps, r) && Timed(ps, r)
          && (Remaining(r) < Remaining(s1) || (Remaining(r) == Remaining(s1) && ZeroQuanta(r) < ZeroQuanta(s1)))
        by {
          DispatchRound(ps, s1, sc, cs);
        }
        SimulateTimed(ps, r, sc, cs);
      }
    }
  }

  // ---------------------------------------------------------------------
  // The scheduler

  /** The state `schedule` starts from keeps every invariant above, for
      positive bursts and non-negative quanta. */
  lemma InitInv(ps: seq<Process>)
    requires forall i :: 0 <= i < |ps| ==> ps[i].burst > 0 && ps[i].quantum >= 0
    ensures Inv(Init(ps)) && Hist(ps, Init(ps)) && Timed(ps, Init(ps))
  {
    var s := Init(ps);
    forall i | 0 <= i < |ps|
      ensures PlacedAt(s, i, -1)
    {
      assert s.pending[i] == i;
    }
  }

  /** What `schedule` leaves behind: the returned segments with the process
      each was emitted for, and the arena with the setters' writes. */
  datatype Outcome = Outcome(segments: seq<Segment>, owners: seq<nat>, procs: seq<Process>)

  /** A process after the run: no work left, its identity and original burst
      as given, its quantum no smaller than it started. */
  predicate Completed(p0: Process, p: Process) {
    && p.burst == 0
    && p.name == p0.name && p.arrival == p0.arrival && p.priority == p0.priority && p.pid == p0.pid
    && p.originalBurst == p0.originalBurst && p.quantum >= p0.quantum
  }

  /** `new FCAIScheduler(ps).schedule(cs)`. Every process completes, at the
      end of the last segment emitted for it; the segments emitted for each
      add up to its whole burst and carry its identity. */
  function Schedule(ps: seq<Process>, cs: int): (o: Outcome)
    requires forall i :: 0 <= i < |ps| ==> ps[i].arrival >= 0 && ps[i].burst > 0 && ps[i].quantum >= 0
    ensures |o.procs| == |ps| && |o.segments| == |o.owners| && InRange(o.owners, |ps|)
    ensures forall i :: 0 <= i < |ps| ==> Completed(ps[i], o.procs[i])
    ensures forall i :: 0 <= i < |ps| ==> TimeGiven(o.segments, o.owners, i) == ps[i].burst
    ensures forall j :: 0 <= j < |o.segments| ==>
      o.segments[j].duration >= 0 && Describes(o.segments[j], ps[o.owners[j]])
    ensures forall i :: 0 <= i < |ps| ==>
      LastOwned(o.owners, i) >= 0 && o.procs[i].completion == End(o.segments[LastOwned(o.owners, i)])
  {
    var s0 := Init(ps);
    InitInv(ps);
    SimulateEnds(s0, ScaleOf(ps), cs);
    SimulateHist(ps, s0, ScaleOf(ps), cs);
    var s := Simulate(s0, ScaleOf(ps), cs);
    assert forall i :: 0 <= i < |ps| ==> Evolved(ps[i], s.procs[i]);
    SimulateCompletions(ps, cs);
    Outcome(s.segs, s.owners, s.procs)
  }

  /** At the end of the loop every process has a last segment, and it
      completed where that segment ends. */
  lemma {:induction false} SimulateCompletions(ps: seq<Process>, cs: int)
    requires forall i :: 0 <= i < |ps| ==> ps[i].arrival >= 0 && ps[i].burst > 0 && ps[i].quantum >= 0
    requires Inv(Init(ps))
    ensures var s := Simulate(Init(ps), ScaleOf(ps), cs);
      && |s.procs| == |ps| && |s.segs| == |s.owners|
      && forall i :: 0 <= i < |ps| ==>
           LastOwned(s.owners, i) >= 0 && s.procs[i].completion == End(s.segs[LastOwned(s.owners, i)])
  {
    var s0 := Init(ps);
    InitInv(ps);
    assert Closed(s0);
    SimulateEnds(s0, ScaleOf(ps), cs);
    SimulateClosed(s0, ScaleOf(ps), cs);
    var s := Simulate(s0, ScaleOf(ps), cs);
    forall i | 0 <= i < |ps|
      ensures LastOwned(s.owners, i) >= 0 && s.procs[i].completion == End(s.segs[LastOwned(s.owners, i)])
    {
      assert ClosedAt(s, i);
    }
  }

  /** With a non-negative context switch: every segment starts at or after
      time 0 and its process's arrival, each starts after the one before
      has ended, and every process completes no earlier than its arrival
      plus its whole burst. */
  lemma {:induction false} ScheduleTiming(ps: seq<Process>, cs: int)
    requires forall i :: 0 <= i < |ps| ==> ps[i].arrival >= 0 && ps[i].burst > 0 && ps[i].quantum >= 0
    requires cs >= 0
    ensures var o := Schedule(ps, cs);
      && (forall j :: 0 <= j < |o.segments| ==>
            0 <= o.segments[j].start && ps[o.owners[j]].arrival <= o.segments[j].start)
      && Sequential(o.segments)
      && (forall i :: 0 <= i < |ps| ==> TurnaroundOf(o.procs[i]) >= ps[i].burst)
  {
    InitInv(ps);
    SimulateTiming(ps, cs);
    var s := Simulate(Init(ps), ScaleOf(ps), cs);
    var o := Schedule(ps, cs);
    assert o.procs == s.procs && o.segments == s.segs && o.owners == s.owners;
  }

  /** The timing facts of ScheduleTiming, about the loop's final state. */
  lemma {:induction false} SimulateTiming(ps: seq<Process>, cs: int)
    requires forall i :: 0 <= i < |ps| ==> ps[i].arrival >= 0 && ps[i].burst > 0 && ps[i].quantum >= 0
    requires cs >= 0
    requires Inv(Init(ps))
    ensures var s := Simulate(Init(ps), ScaleOf(ps), cs);
      && |s.procs| == |ps| && |s.segs| == |s.owners| && InRange(s.owners, |ps|)
      && (forall j :: 0 <= j < |s.segs| ==>
            0 <= s.segs[j].start && ps[s.owners[j]].arrival <= s.segs[j].start)
      && Sequential(s.segs)
      && (forall i :: 0 <= i < |ps| ==> TurnaroundOf(s.procs[i]) >= ps[i].burst)
  {
    var s0 := Init(ps);
    SimulateEnds(s0, ScaleOf(ps), cs);
    SimulateHist(ps, s0, ScaleOf(ps), cs);
    SimulateTimed(ps, s0, ScaleOf(ps), cs);
    var s := Simulate(s0, ScaleOf(ps), cs);
    forall i | 0 <= i < |ps|
      ensures TurnaroundOf(s.procs[i]) >= ps[i].burst
    {
      assert Evolved(ps[i], s.procs[i]) && s.procs[i].burst == 0;
      assert Elapsed(ps[i], s.procs[i], s.time);
    }
  }

  // ---------------------------------------------------------------------
  // Averages

  /** `calculateAverageWaitingTime`: over the list as given, the total of
      `getWaitingTimeFcai(getOriginalBurstTime())`. */
  function AverageWaitingTime(ps: seq<Process>): (m: Mean)
    ensures m.count == |ps| && m.total == Sum(ps, WaitingFcaiOf)
  {
    AverageOf(ps, WaitingFcaiOf)
  }

  /** `calculateAverageTurnaroundTime`: over the list as given. */
  function AverageTurnaroundTime(ps: seq<Process>): (m: Mean)
    ensures m.count == |ps| && m.total == Sum(ps, TurnaroundOf)
  {
    AverageOf(ps, TurnaroundOf)
  }

  /** For processes as the constructor builds them (original burst equal to
      the burst), after scheduling with a non-negative context switch the
      mean waiting time is never negative and the mean turnaround exceeds it
      by exactly the mean burst. */
  lemma {:induction false} AveragesAfterSchedule(ps: seq<Process>, cs: int)
    requires forall i :: 0 <= i < |ps| ==> ps[i].arrival >= 0 && ps[i].burst > 0 && ps[i].quantum >= 0
    requires forall i :: 0 <= i < |ps| ==> ps[i].originalBurst == ps[i].burst
    requires cs >= 0
    ensures var procs := Schedule(ps, cs).procs;
      && AverageWaitingTime(procs).total >= 0
      && AverageTurnaroundTime(procs).total == AverageWaitingTime(procs).total + Sum(ps, BurstOf)
  {
    var procs := Schedule(ps, cs).procs;
    ScheduleTiming(ps, cs);
    forall i | 0 <= i < |procs|
      ensures WaitingFcaiOf(procs[i]) >= 0 && OriginalBurstOf(procs[i]) == BurstOf(ps[i])
    {
      assert Completed(ps[i], procs[i]);
    }
    SumNonNegative(procs, WaitingFcaiOf);
    FcaiWaitingIsSrtfWaiting(procs);
    TurnaroundIsSrtfWaitingPlusOriginal(procs);
    SumAgrees(procs, ps, OriginalBurstOf, BurstOf);
  }
}
