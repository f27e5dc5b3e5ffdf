/** The execution-segment record (src/models/ProcessExecution.java) and the
    facts about traces of segments that the schedulers' contracts use. */
module Segments {
  import opened Processes

  /** One contiguous slice of CPU time. No field is validated: duration and
      start may be any integer, so their signs are proved at the schedulers.
      The display colour is not modelled. */
  datatype Segment = Segment(processName: string, duration: int, pid: int, priority: int, start: int)

  /** The segment a scheduler emits for process p: the display identity is
      copied from p, the timing is given. */
  function SegmentOf(p: Process, duration: int, start: int): (s: Segment)
    ensures Describes(s, p) && s.duration == duration && s.start == start
  {
    Segment(p.name, duration, p.pid, p.priority, start)
  }

  /** `getProcessName`: the stored name. */
  function ProcessName(s: Segment): string {
    s.processName
  }

  /** The name read back from a segment is the name of the process it was
      built for. */
  lemma ProcessNameOfSegment(p: Process, duration: int, start: int)
    ensures ProcessName(SegmentOf(p, duration, start)) == p.name
  {
  }

  /** s carries p's display identity. */
  predicate Describes(s: Segment, p: Process) {
    s.processName == p.name && s.pid == p.pid && s.priority == p.priority
  }

  /** A segment occupies the half-open interval [start, start + duration). */
  function End(s: Segment): int {
    s.start + s.duration
  }

  predicate Covers(s: Segment, t: int) {
    s.start <= t < End(s)
  }

  /** a is over by the time b starts. */
  predicate Precedes(a: Segment, b: Segment) {
    End(a) <= b.start
  }

  /** Two segments one after the other never claim the same instant. */
  lemma PrecedesDisjoint(a: Segment, b: Segment, t: int)
    requires Precedes(a, b)
    ensures !(Covers(a, t) && Covers(b, t))
  {
  }

  /** Consecutive segments of the trace never overlap. */
  predicate Sequential(segs: seq<Segment>) {
    forall j :: 0 < j < |segs| ==> Precedes(segs[j - 1], segs[j])
  }

  /** Sequential traces are ordered pairwise, not only neighbour by neighbour,
      provided no segment has negative duration. */
  lemma {:induction false} SequentialPairwise(segs: seq<Segment>, a: nat, b: nat)
    requires Sequential(segs) && a < b < |segs|
    requires forall j :: 0 <= j < |segs| ==> segs[j].duration >= 0
    ensures Precedes(segs[a], segs[b])
    decreases b - a
  {
    if a + 1 < b {
      SequentialPairwise(segs, a + 1, b);
      assert Precedes(segs[a], segs[a + 1]);
    }
  }

  /** Total time the trace gives to the process at arena index i, where
      owners[j] is the index segment j was emitted for. Summed from the back,
      so appending a segment is one unfolding. */
  function TimeGiven(segs: seq<Segment>, owners: seq<nat>, i: nat): int
    requires |segs| == |owners|
  {
    if |segs| == 0 then 0
    else TimeGiven(segs[..|segs| - 1], owners[..|owners| - 1], i)
         + (if owners[|owners| - 1] == i then segs[|segs| - 1].duration else 0)
  }

  /** Position of the last segment emitted for arena index i, or -1 when
      there is none. */
  function LastOwned(owners: seq<nat>, i: nat): (j: int)
    ensures -1 <= j < |owners|
    ensures j >= 0 ==> owners[j] == i
    ensures forall k :: j < k < |owners| ==> owners[k] != i
  {
    if |owners| == 0 then -1
    else if owners[|owners| - 1] == i then |owners| - 1
    else LastOwned(owners[..|owners| - 1], i)
  }

  /** Appending a segment for o makes it o's last one and leaves everyone
      else's last segment where it was. */
  lemma LastOwnedAppend(owners: seq<nat>, o: nat, i: nat)
    ensures LastOwned(owners + [o], i) == if o == i then |owners| else LastOwned(owners, i)
  {
    assert (owners + [o])[..|owners|] == owners;
  }

  /** Number of segments the trace emits for arena index i. */
  function SegmentsFor(owners: seq<nat>, i: nat): nat {
    if |owners| == 0 then 0
    else SegmentsFor(owners[..|owners| - 1], i) + (if owners[|owners| - 1] == i then 1 else 0)
  }

  /** Appending a segment adds its duration to its owner's total and nothing to anyone else's. */
  lemma TimeGivenAppend(segs: seq<Segment>, owners: seq<nat>, s: Segment, o: nat, i: nat)
    requires |segs| == |owners|
    ensures TimeGiven(segs + [s], owners + [o], i) == TimeGiven(segs, owners, i) + (if o == i then s.duration else 0)
    ensures SegmentsFor(owners + [o], i) == SegmentsFor(owners, i) + (if o == i then 1 else 0)
  {
    assert (segs + [s])[..|segs|] == segs;
    assert (owners + [o])[..|owners|] == owners;
  }

  /** When every segment lasts one unit, a process's time equals its segment count. */
  lemma {:induction false} UnitTraceTime(segs: seq<Segment>, owners: seq<nat>, i: nat)
    requires |segs| == |owners|
    requires forall j :: 0 <= j < |segs| ==> segs[j].duration == 1
    ensures TimeGiven(segs, owners, i) == SegmentsFor(owners, i)
  {
    if |segs| > 0 {
      UnitTraceTime(segs[..|segs| - 1], owners[..|owners| - 1], i);
    }
  }

  /** The time the trace gives to each pid, for callers whose pids are unique. */
  function TimeGivenToPid(segs: seq<Segment>, pid: int): int {
    if |segs| == 0 then 0
    else TimeGivenToPid(segs[..|segs| - 1], pid)
         + (if segs[|segs| - 1].pid == pid then segs[|segs| - 1].duration else 0)
  }

  /** With distinct pids in the arena, the owner-indexed total is the pid-indexed total. */
  lemma {:induction false} TimeGivenByPid(ps: seq<Process>, segs: seq<Segment>, owners: seq<nat>, i: nat)
    requires |segs| == |owners| && i < |ps|
    requires forall a, b :: 0 <= a < b < |ps| ==> ps[a].pid != ps[b].pid
    requires forall j :: 0 <= j < |owners| ==> owners[j] < |ps| && segs[j].pid == ps[owners[j]].pid
    ensures TimeGivenToPid(segs, ps[i].pid) == TimeGiven(segs, owners, i)
  {
    if |segs| > 0 {
      var n := |segs| - 1;
      TimeGivenByPid(ps, segs[..n], owners[..n], i);
      assert segs[n].pid == ps[i].pid <==> owners[n] == i;
    }
  }
}
