/** The process record shared by the four schedulers, its setters, the
    per-process metrics and the FCAI factor (src/models/Process.java). */
module Processes {

  /** A process. `burst` is the REMAINING burst (the source's `burstTime`,
      decremented as the process runs); `originalBurst` keeps the burst given
      at construction; `quantum` is the FCAI dynamic quantum (`updatedQuantum`).
      The display colour is not modelled. */
  datatype Process = Process(
    name: string,
    arrival: int,
    burst: int,
    priority: int,
    pid: int,
    completion: int,
    originalBurst: int,
    quantum: int)

  /** The constructor: remaining and original burst both start at the given
      burst; completion time and quantum keep Java's default of 0. */
  function NewProcess(name: string, arrival: int, burst: int, priority: int, pid: int): (p: Process)
    ensures p.name == name && p.arrival == arrival && p.priority == priority && p.pid == pid
    ensures p.burst == burst && p.originalBurst == burst
    ensures p.completion == 0 && p.quantum == 0
  {
    Process(name, arrival, burst, priority, pid, 0, burst, 0)
  }

  /** The mutable fields, one per setter. */
  datatype Field = BurstField | CompletionField | OriginalBurstField | QuantumField

  /** q is p with at most field f changed: name, arrival, priority and pid
      never change, and every other mutable field is equal. */
  predicate SameExcept(p: Process, q: Process, f: Field) {
    && p.name == q.name && p.arrival == q.arrival && p.priority == q.priority && p.pid == q.pid
    && (f == BurstField || p.burst == q.burst)
    && (f == CompletionField || p.completion == q.completion)
    && (f == OriginalBurstField || p.originalBurst == q.originalBurst)
    && (f == QuantumField || p.quantum == q.quantum)
  }

  function SetBurst(p: Process, b: int): (q: Process)
    ensures q.burst == b && SameExcept(p, q, BurstField)
  {
    p.(burst := b)
  }

  function SetCompletion(p: Process, c: int): (q: Process)
    ensures q.completion == c && SameExcept(p, q, CompletionField)
  {
    p.(completion := c)
  }

  function SetOriginalBurst(p: Process, b: int): (q: Process)
    ensures q.originalBurst == b && SameExcept(p, q, OriginalBurstField)
  {
    p.(originalBurst := b)
  }

  function SetQuantum(p: Process, k: int): (q: Process)
    ensures q.quantum == k && SameExcept(p, q, QuantumField)
  {
    p.(quantum := k)
  }

  /** Turnaround for a given completion time: the time from arrival to completion. */
  function TurnaroundTime(p: Process, c: int): (t: int)
    ensures p.arrival + t == c
  {
    c - p.arrival
  }

  /** `getWaitingTime`: turnaround minus the CURRENT remaining burst, so its
      value moves as the burst is decremented. */
  function WaitingTime(p: Process, c: int): (w: int)
    ensures w + p.burst == TurnaroundTime(p, c)
  {
    c - p.arrival - p.burst
  }

  /** `getWaitingTimeSRTF`: turnaround minus the original burst. */
  function WaitingTimeSrtf(p: Process, c: int): (w: int)
    ensures w + p.originalBurst == TurnaroundTime(p, c)
  {
    c - p.arrival - p.originalBurst
  }

  /** `getWaitingTimeFcai`: its argument is ignored; the stored completion
      time is used instead. */
  function WaitingTimeFcai(p: Process, ignored: int): (w: int)
    ensures w == WaitingTimeSrtf(p, p.completion)
  {
    TurnaroundTime(p, p.completion) - p.originalBurst
  }

  /** Running k units makes `getWaitingTime` grow by k for the same completion time. */
  lemma WaitingTimeTracksBurst(p: Process, c: int, k: int)
    ensures WaitingTime(SetBurst(p, p.burst - k), c) == WaitingTime(p, c) + k
  {
  }

  /** Before anything runs the two waiting-time variants agree. */
  lemma FreshWaitingTimesAgree(name: string, arrival: int, burst: int, priority: int, pid: int, c: int)
    ensures WaitingTime(NewProcess(name, arrival, burst, priority, pid), c)
         == WaitingTimeSrtf(NewProcess(name, arrival, burst, priority, pid), c)
  {
  }

  // ---------------------------------------------------------------------
  // The FCAI factor

  /** An FCAI factor as the source's double: a number, or NaN. */
  datatype Factor = NaN | Value(v: int)

  /** Java's `<` on doubles: false whenever either side is NaN. */
  predicate FactorLess(a: Factor, b: Factor) {
    a.Value? && b.Value? && a.v < b.v
  }

  /** Java's `==` on doubles: false whenever either side is NaN. */
  predicate FactorEqual(a: Factor, b: Factor) {
    a.Value? && b.Value? && a.v == b.v
  }

  /** Ceiling of x / d for a positive divisor. */
  function CeilDiv(x: int, d: int): int
    requires d > 0
  {
    -((-x) / d)
  }

  /** CeilDiv(x, d) is the least r with x <= d * r. */
  lemma CeilDivIsCeiling(x: int, d: int)
    requires d > 0
    ensures d * (CeilDiv(x, d) - 1) < x <= d * CeilDiv(x, d)
  {
    var q := (-x) / d;
    assert -x == d * q + (-x) % d;
  }

  /** `calculateFcaiFactor(v1, v2)` with v1 = maxArrival/10 and v2 = maxBurst/10:
      (10 - priority) + ceil(arrival / v1) + ceil(remaining burst / v2), in exact
      integers (ceil(a / (m/10)) = ceil(10a / m)). When v1 is 0 every arrival is 0
      (arrivals are non-negative), so arrival / v1 is 0/0 and the factor is NaN.
      A zero v2 is given NaN as well; it never arises for a non-empty process set
      with positive bursts. */
  function FcaiFactor(p: Process, maxArrival: nat, maxBurst: nat): (f: Factor)
    ensures f.Value? <==> maxArrival > 0 && maxBurst > 0
  {
    if maxArrival == 0 || maxBurst == 0 then NaN
    else Value((10 - p.priority) + CeilDiv(10 * p.arrival, maxArrival) + CeilDiv(10 * p.burst, maxBurst))
  }

  /** With arrival in [0, maxArrival] and remaining burst in [1, maxBurst], the
      scaled arrival term lies in [0, 10] and the scaled burst term in [1, 10]. */
  lemma FactorBounds(p: Process, maxArrival: nat, maxBurst: nat)
    requires maxArrival > 0 && maxBurst > 0
    requires 0 <= p.arrival <= maxArrival && 0 < p.burst <= maxBurst
    ensures 11 - p.priority <= FcaiFactor(p, maxArrival, maxBurst).v <= 30 - p.priority
  {
    CeilDivBounds(10 * p.arrival, maxArrival, 0, 10);
    CeilDivBounds(10 * p.burst, maxBurst, 1, 10);
  }

  /** Less remaining burst never gives a larger factor: running a process can
      only improve its factor. */
  lemma FactorMonotoneInBurst(p: Process, b: int, maxArrival: nat, maxBurst: nat)
    requires maxArrival > 0 && maxBurst > 0 && b <= p.burst
    ensures FcaiFactor(SetBurst(p, b), maxArrival, maxBurst).v <= FcaiFactor(p, maxArrival, maxBurst).v
  {
    CeilDivMonotone(10 * b, 10 * p.burst, maxBurst);
  }

  /** Cancelling a positive factor keeps a strict inequality. */
  lemma MulCancel(d: int, u: int, v: int)
    requires d > 0 && d * u < d * v
    ensures u < v
  {
    assert d * v - d * u == d * (v - u);
  }

  lemma CeilDivBounds(x: int, d: int, lo: int, hi: int)
    requires d > 0 && d * (lo - 1) < x <= d * hi
    ensures lo <= CeilDiv(x, d) <= hi
  {
    var r := CeilDiv(x, d);
    CeilDivIsCeiling(x, d);
    MulCancel(d, lo - 1, r);
    MulCancel(d, r - 1, hi);
  }

  lemma CeilDivMonotone(x: int, y: int, d: int)
    requires d > 0 && x <= y
    ensures CeilDiv(x, d) <= CeilDiv(y, d)
  {
    CeilDivIsCeiling(x, d);
    CeilDivIsCeiling(y, d);
    MulCancel(d, CeilDiv(x, d) - 1, CeilDiv(y, d));
  }
}
