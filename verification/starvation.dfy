/** The starvation rule shared by the SJF and SRTF schedulers
    (`MAX_WAIT_TIME` in both). */
module Starvation {
  import opened Processes

  /** The wait beyond which a process is run at once. */
  const MaxWaitTime: int := 20

  /** At time t, p has waited more than `MaxWaitTime` by `getWaitingTime(t)`
      (which subtracts the CURRENT remaining burst) and still has work left. */
  predicate Starving(p: Process, t: int) {
    WaitingTime(p, t) > MaxWaitTime && p.burst > 0
  }

  /** Starvation in plain terms: more than 20 units beyond arrival plus remaining burst. */
  lemma StarvingMeans(p: Process, t: int)
    ensures Starving(p, t) <==> t > p.arrival + p.burst + 20 && p.burst > 0
  {
  }
}
