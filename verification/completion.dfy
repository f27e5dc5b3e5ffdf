/** Completion times written back into the arena. The SJF loop never reads a
    completion time, so writing them one per iteration (as the source does)
    and writing them all once the loop is over give the same arena. */
module Completions {
  import opened IndexSeqs
  import opened Processes
  import opened Segments

  /** Every process in exec gets the end of its segment as completion time;
      every other process is left as it is. */
  function Complete(ps: seq<Process>, exec: seq<nat>, segs: seq<Segment>): (procs: seq<Process>)
    requires Distinct(exec) && InRange(exec, |ps|) && |segs| == |exec|
    ensures |procs| == |ps|
    ensures forall j :: 0 <= j < |exec| ==> procs[exec[j]] == SetCompletion(ps[exec[j]], End(segs[j]))
    ensures forall x :: 0 <= x < |ps| && x !in exec ==> procs[x] == ps[x]
  {
    var procs := seq(|ps|, x requires 0 <= x < |ps| =>
      if x in exec then SetCompletion(ps[x], End(segs[IndexOf(exec, x)])) else ps[x]);
    forall j | 0 <= j < |exec|
      ensures procs[exec[j]] == SetCompletion(ps[exec[j]], End(segs[j]))
    {
      var k := IndexOf(exec, exec[j]);
      assert exec[k] == exec[j];
    }
    procs
  }
}
