# CPU scheduler simulator — Dafny model

A model of the scheduling engine of the CPU Schedulers Simulator: the process
record and its metrics, the execution-segment record, and four schedulers.

- **Priority** is non-preemptive, in (priority, arrival) order.
- **SJF** (shortest job first) is non-preemptive and has a starvation override.
- **SRTF** (shortest remaining time first) is preemptive in unit steps and has the same override.
- **FCAI** is a hybrid with a dynamic quantum. It dispatches first-come-first-served or by the best FCAI factor, runs a non-preemptive share of 40% of the quantum, then preemptible unit steps, then updates the quantum.

Each scheduler is a functional state machine.

- The processes live in one sequence, the arena, indexed by their position in the caller's list.
- The lists, queues and execution orders of the source are sequences of arena indices.
- Every setter call becomes a functional update of one arena entry.
- Segments (`ProcessExecution`) are appended to a sequence. A parallel sequence records which arena index each segment was emitted for.

Termination is proved with explicit measures:

- SRTF: remaining burst, then time to the last arrival.
- FCAI: remaining burst, then processes whose quantum is still 0, with the idle wait measured by time to the last arrival.

| file | module | models |
|---|---|---|
| indices.dfy | IndexSeqs | index sequences: removal by position and by identity (`List.remove(Object)`), distinctness, pigeonhole |
| process.dfy | Processes | `Process`: constructor, setters, turnaround and the three waiting times, the FCAI factor |
| segment.dfy | Segments | `ProcessExecution`, segment extents, time given to each process |
| starvation.dfy | Starvation | the `MAX_WAIT_TIME` rule shared by SJF and SRTF |
| completion.dfy | Completions | completion times written back by SJF |
| metrics.dfy | Metrics | sums and averages over process lists; the stream `max` used for v1 and v2 |
| sorting.dfy | StableSort | the stable `List.sort` calls, as insertion sort of arena indices |
| priority.dfy | PriorityScheduling | `PriorityScheduler` |
| sjf.dfy | SjfScheduling | `ShortestJobFirstScheduler` |
| srtf.dfy | SrtfScheduling | `ShortestRemainingTimeFirstScheduler` |
| fcai.dfy | FcaiScheduling | `FCAIScheduler` |

The FCAI factor is a double in the source. It is modelled as `Factor = NaN | Value(int)`:

- `ceil(arrival / v1)` is computed exactly as the ceiling of `10 * arrival / maxArrival`.
- `ceil(0.4 * q)` is computed exactly as the ceiling of `2q / 5`.
- When every arrival is 0, v1 is 0 and each factor is `0/0 = NaN`. Every comparison with NaN is false, so the best process is the queue head and no preemption happens. The model keeps this case.

## Model

| member | source | states |
|---|---|---|
| Processes.NewProcess | src/models/Process.java:22-30 | the constructor sets both the remaining and the original burst to the given burst; completion time and quantum stay at 0; identity fields are stored as given |
| Processes.SetBurst | src/models/Process.java:45-48 | `setBurstTime` changes the remaining burst and no other field |
| Processes.SetCompletion | src/models/Process.java:66-69 | `setCompletionTime` changes the completion time and no other field |
| Processes.SetOriginalBurst | src/models/Process.java:75-78 | `setOriginalBurstTime` changes the original burst and no other field |
| Processes.SetQuantum | src/models/Process.java:110-113 | `setUpdatedQuantum` changes the FCAI quantum and no other field |
| Processes.TurnaroundTime | src/models/Process.java:86-89 | arrival plus turnaround is the completion time given |
| Processes.WaitingTime | src/models/Process.java:81-84 | `getWaitingTime` plus the current remaining burst is the turnaround |
| Processes.WaitingTimeTracksBurst | src/models/Process.java:81-84 | running k units raises `getWaitingTime` at a fixed completion time by exactly k |
| Processes.WaitingTimeSrtf | src/models/Process.java:91-94 | `getWaitingTimeSRTF` plus the original burst is the turnaround |
| Processes.WaitingTimeFcai | src/models/Process.java:122-124 | `getWaitingTimeFcai` ignores its argument; it equals the SRTF waiting time at the stored completion time |
| Processes.FreshWaitingTimesAgree | src/models/Process.java:22-30 | for a freshly constructed process the plain and SRTF waiting times agree at every completion time |
| Processes.FcaiFactor | src/models/Process.java:116-119 | the factor is a number exactly when both scales are non-zero, NaN otherwise |
| Processes.FactorBounds | src/models/Process.java:116-119 | with arrival between 0 and the latest arrival and a positive burst within the longest burst, the factor lies in [11 - priority, 30 - priority] |
| Processes.FactorMonotoneInBurst | src/models/Process.java:116-119 | less remaining burst never gives a larger factor |
| Processes.FactorLess | src/algorithms/FCAIScheduler.java:104 | Java's `<` on two factors: true only when both are numbers and the first is smaller, so every comparison with NaN is false; BestOfIsBest and PreemptStops state the scans built on it |
| Processes.CeilDivIsCeiling | src/models/Process.java:116-119 | `Math.ceil` of an exact quotient, as CeilDiv computes it: the least r with x <= d * r |
| Segments.SegmentOf | src/models/ProcessExecution.java:26-33 | the constructor copies name, pid and priority from the process and stores duration and start as given |
| Segments.ProcessNameOfSegment | src/models/ProcessExecution.java:26-38 | `getProcessName` on a segment built from a process returns that process's name |
| Segments.PrecedesDisjoint | src/models/ProcessExecution.java:11-23 | a segment over by the time the next starts shares no instant with it, reading a segment as [start, start + duration) |
| Segments.SequentialPairwise | src/models/ProcessExecution.java:11-23 | in a trace whose neighbours do not overlap and whose durations are non-negative, every earlier segment is over before every later one starts |
| Segments.TimeGivenAppend | src/models/ProcessExecution.java:11 | appending a segment adds its duration to its owner's total time and one to its segment count, and changes no other process's |
| Segments.UnitTraceTime | src/algorithms/ShortestRemainingTimeFirstScheduler.java:72-79 | when every segment lasts one unit, a process's total time equals its number of segments |
| Segments.TimeGivenByPid | src/models/ProcessExecution.java:17 | with distinct pids, the time summed by the pid stored in the segments equals the time summed by arena index |
| Starvation.StarvingMeans | src/algorithms/ShortestJobFirstScheduler.java:64 | a process is starving at t exactly when t > arrival + remaining burst + 20 and its burst is positive |
| Starvation.Starving | src/algorithms/ShortestJobFirstScheduler.java:64 | the starvation test `getWaitingTime(t) > MAX_WAIT_TIME && burst > 0`, the same in SRTF at line 43; StarvingMeans states it in plain terms |
| Completions.Complete | src/algorithms/ShortestJobFirstScheduler.java:101-102 | each executed process gets the end of its segment as completion time; every other process is unchanged |
| Metrics.AverageOf | src/algorithms/PriorityScheduler.java:85-108 | an average is the exact total over the list with the list's length as count; the total is non-negative when every value is |
| Metrics.Sum | src/algorithms/PriorityScheduler.java:85-108 | the total the average loops accumulate, in list order; SumNonNegative and the Turnaround lemmas below state its laws |
| Metrics.SumNonNegative | src/algorithms/PriorityScheduler.java:85-95 | a total of values that are all non-negative is non-negative |
| Metrics.TurnaroundIsWaitingPlusBurst | src/models/Process.java:81-89 | over any list, total turnaround equals total `getWaitingTime` plus total remaining burst |
| Metrics.TurnaroundIsSrtfWaitingPlusOriginal | src/models/Process.java:86-94 | over any list, total turnaround equals total SRTF waiting time plus total original burst |
| Metrics.FcaiWaitingIsSrtfWaiting | src/models/Process.java:122-124 | over any list, total FCAI waiting time equals total SRTF waiting time |
| Metrics.GreatestIsMax | src/algorithms/FCAIScheduler.java:149-164 | the stream maximum bounds every value and, for a non-empty list, is one of them |
| Metrics.GreatestAgrees | src/algorithms/FCAIScheduler.java:149-164 | lists that agree on a value have the same maximum |
| Metrics.Greatest | src/algorithms/FCAIScheduler.java:149-164 | the stream `max().orElse(0)` behind v1 and v2; GreatestIsMax states that it is the maximum |
| StableSort.BeforeIsStrictTotal | src/algorithms/PriorityScheduler.java:13-21 | the stable-sort order (key, then input position) is irreflexive, total on distinct indices, and transitive |
| StableSort.KeyLess | src/algorithms/PriorityScheduler.java:13-21 | the three comparators: (priority, arrival) here, (arrival, burst, priority) at ShortestJobFirstScheduler.java:34-36 and arrival alone at ShortestRemainingTimeFirstScheduler.java:20 |
| StableSort.Before | src/algorithms/PriorityScheduler.java:13-21 | where a stable sort puts index i relative to j: smaller key first, ties in the caller's order; BeforeIsStrictTotal states that it is a strict total order |
| StableSort.Insert | src/algorithms/PriorityScheduler.java:13-21 | insertion keeps the sequence sorted and adds exactly the inserted index |
| StableSort.Sort | src/algorithms/PriorityScheduler.java:13-21 | insertion sort returns a sorted permutation of its input |
| StableSort.SortedIsDistinct | src/algorithms/PriorityScheduler.java:13-21 | a sequence sorted in the strict stable order has no repeats |
| StableSort.StableOrder | src/algorithms/PriorityScheduler.java:13-21 | the caller's list after the sort is a permutation of the arena in stable key order |
| StableSort.SortedPermutationUnique | src/algorithms/PriorityScheduler.java:13-21 | two sorted sequences with the same elements are equal, so the stable sort has one possible result |
| StableSort.SortedArrivals | src/algorithms/ShortestRemainingTimeFirstScheduler.java:20 | along an order sorted by a key that starts with arrival, arrival never decreases |
| StableSort.RemoveAtSorted | src/algorithms/ShortestJobFirstScheduler.java:85 | removing one process from a sorted list leaves it sorted |
| PriorityScheduling.Run | src/algorithms/PriorityScheduler.java:29-52 | the loop emits one segment per remaining process and keeps the arena's size |
| PriorityScheduling.RunSegment | src/algorithms/PriorityScheduler.java:36-44 | each segment is the whole burst of its process, under that process's name, pid and priority |
| PriorityScheduling.RunStart | src/algorithms/PriorityScheduler.java:27-34 | each segment starts at the later of the previous end plus the context switch (or the start time) and its process's arrival |
| PriorityScheduling.RunLeavesOthers | src/algorithms/PriorityScheduler.java:30-52 | a process the loop does not reach is untouched |
| PriorityScheduling.RunCompletion | src/algorithms/PriorityScheduler.java:46-48 | each process reached gets the end of its segment as completion time, and nothing else of it changes |
| PriorityScheduling.Schedule | src/algorithms/PriorityScheduler.java:11-55 | the order is a sorted permutation by (priority, arrival); one segment per process of its whole burst; the first starts at max(0, arrival) and each later one at max(previous end + cs, arrival); completion is each segment's end |
| PriorityScheduling.OnlyCompletionWritten | src/algorithms/PriorityScheduler.java:30-52 | every process appears in the order, and only its completion time is written |
| PriorityScheduling.OrderIsStableSort | src/algorithms/PriorityScheduler.java:13-21 | any permutation sorted by (priority, arrival) with ties in input order is the schedule's order |
| PriorityScheduling.StartsAfterArrival | src/algorithms/PriorityScheduler.java:31-34 | no segment starts before its arrival, before time 0, or before the previous end plus cs; any idle gap ends exactly at an arrival |
| PriorityScheduling.SegmentsDoNotOverlap | src/algorithms/PriorityScheduler.java:47-51 | with cs >= 0 and non-negative bursts segments never overlap; with positive bursts start times strictly increase |
| PriorityScheduling.WaitingIsStartDelay | src/algorithms/PriorityScheduler.java:46-48 | waiting time is the start delay, never negative; turnaround is at least the burst |
| PriorityScheduling.AverageWaitingTime | src/algorithms/PriorityScheduler.java:85-95 | the mean of `getWaitingTime` at each stored completion time over the list as given |
| PriorityScheduling.AverageTurnaroundTime | src/algorithms/PriorityScheduler.java:98-108 | the mean turnaround over the list as given |
| PriorityScheduling.AveragesAfterSchedule | src/algorithms/PriorityScheduler.java:85-108 | after scheduling, total waiting is non-negative and total turnaround is total waiting plus total burst |
| SjfScheduling.FirstArrivedRule | src/algorithms/ShortestJobFirstScheduler.java:48-53 | the scan finds an arrived process and skips only unarrived ones; none means nothing has arrived |
| SjfScheduling.FirstStarvingRule | src/algorithms/ShortestJobFirstScheduler.java:62-68 | the starvation scan finds the first available starving process in list order; none means no available process starves |
| SjfScheduling.ShortestRule | src/algorithms/ShortestJobFirstScheduler.java:78-81 | the `min` scan ends on the first available process of least (burst, arrival); no available process is less |
| SjfScheduling.FirstArrived | src/algorithms/ShortestJobFirstScheduler.java:48-53 | the scan for an available process; FirstArrivedRule states what it finds |
| SjfScheduling.FirstStarving | src/algorithms/ShortestJobFirstScheduler.java:62-68 | the starvation scan with its `break`; FirstStarvingRule states that it finds the first starving process |
| SjfScheduling.Shortest | src/algorithms/ShortestJobFirstScheduler.java:78-81 | the `min` over available processes by (burst, arrival), keeping the earlier one on ties; ShortestRule states the result |
| SjfScheduling.Pick | src/algorithms/ShortestJobFirstScheduler.java:62-82 | a process is selected exactly when some process in the list has arrived |
| SjfScheduling.NothingToPick | src/algorithms/ShortestJobFirstScheduler.java:56-59 | nothing is selected exactly when no process in the list has arrived |
| SjfScheduling.PickObeysArrival | src/algorithms/ShortestJobFirstScheduler.java:48-53 | the selected process has arrived |
| SjfScheduling.PickObeysRule | src/algorithms/ShortestJobFirstScheduler.java:62-82 | against every arrived process, the selected one is the first starving one, or else the first of least (burst, arrival) |
| SjfScheduling.Idle | src/algorithms/ShortestJobFirstScheduler.java:56-59 | idle ticks stop no earlier than they start, at a time when some process has arrived |
| SjfScheduling.IdleWaits | src/algorithms/ShortestJobFirstScheduler.java:56-59 | if the CPU idled, nothing in the list had arrived before the dispatch time |
| SjfScheduling.Dispatch | src/algorithms/ShortestJobFirstScheduler.java:85-98 | one dispatch appends the process to the execution order and one whole-burst segment starting now |
| SjfScheduling.Loop | src/algorithms/ShortestJobFirstScheduler.java:46-120 | the loop runs every remaining process once, one segment each |
| SjfScheduling.StepShape | src/algorithms/ShortestJobFirstScheduler.java:85-105 | one turn keeps the bookkeeping: nobody runs twice, the list stays sorted, and the clock is at the next free time |
| SjfScheduling.StepSegments | src/algorithms/ShortestJobFirstScheduler.java:91-98 | a dispatch keeps every segment matched to its process's identity and whole burst |
| SjfScheduling.StepStarts | src/algorithms/ShortestJobFirstScheduler.java:97-105 | a dispatch at or after the free time and the arrival keeps every start after both |
| SjfScheduling.StepIdle | src/algorithms/ShortestJobFirstScheduler.java:56-59 | after idling, the process started arrived at that moment and nothing later had arrived sooner |
| SjfScheduling.StepChoice | src/algorithms/ShortestJobFirstScheduler.java:62-82 | a dispatch that beats every waiting process keeps the selection facts |
| SjfScheduling.TurnFacts | src/algorithms/ShortestJobFirstScheduler.java:46-85 | one turn dispatches an arrived process that obeys the selection rule, after idling only while nothing had arrived |
| SjfScheduling.LoopKeeps | src/algorithms/ShortestJobFirstScheduler.java:46-120 | the loop keeps its invariant from any state to the end, where nothing waits |
| SjfScheduling.LoopMembers | src/algorithms/ShortestJobFirstScheduler.java:46-88 | the loop runs exactly the processes already run and those waiting |
| SjfScheduling.Schedule | src/algorithms/ShortestJobFirstScheduler.java:32-135 | sorts the list by (arrival, burst, priority); the execution order is a permutation; completion is each segment's end; segments match, starts are valid, idling is justified, and every choice obeys the rule |
| SjfScheduling.ScheduleTiming | src/algorithms/ShortestJobFirstScheduler.java:91-105 | each segment is a whole burst starting after the previous end plus cs and after arrival; an idle gap ends at an arrival; completion is start plus burst |
| SjfScheduling.ScheduleChoice | src/algorithms/ShortestJobFirstScheduler.java:62-82 | each dispatch obeys the selection rule against the processes run after it |
| SjfScheduling.SegmentsDoNotOverlap | src/algorithms/ShortestJobFirstScheduler.java:101-105 | with cs >= 0 and non-negative bursts segments never overlap |
| SjfScheduling.ExecutionOrder | src/algorithms/ShortestJobFirstScheduler.java:88 | `executionOrder` lists the processes as run, with completion times written |
| SjfScheduling.AverageWaitingTime | src/algorithms/ShortestJobFirstScheduler.java:138-144 | the mean of `getWaitingTime` at each completion time over the execution order |
| SjfScheduling.AverageTurnaroundTime | src/algorithms/ShortestJobFirstScheduler.java:147-153 | the mean turnaround over the execution order |
| SjfScheduling.WaitingIsStartDelay | src/algorithms/ShortestJobFirstScheduler.java:101-109 | the burst is never modified, so waiting time is the start delay, never negative; turnaround is at least the burst |
| SjfScheduling.AveragesAfterSchedule | src/algorithms/ShortestJobFirstScheduler.java:138-153 | over the execution order, total waiting is non-negative and total turnaround is total waiting plus total burst |
| SrtfScheduling.Init | src/algorithms/ShortestRemainingTimeFirstScheduler.java:23-28 | the loop starts at time 0 with nothing queued, completed or emitted and no last process |
| SrtfScheduling.Admit | src/algorithms/ShortestRemainingTimeFirstScheduler.java:33-40 | the admission test of the for-loop; AdmitEffect states when a process joins the queue |
| SrtfScheduling.Starve | src/algorithms/ShortestRemainingTimeFirstScheduler.java:42-53 | the starvation override; StarveEffect states when it fires and what it writes |
| SrtfScheduling.Pass | src/algorithms/ShortestRemainingTimeFirstScheduler.java:33-54 | the for-loop over the sorted list, admission then override per process; PassKeeps states its effect |
| SrtfScheduling.Shortest | src/algorithms/ShortestRemainingTimeFirstScheduler.java:23 | the first queue position of least remaining burst; ShortestIsMinimal states that it is least |
| SrtfScheduling.Pick | src/algorithms/ShortestRemainingTimeFirstScheduler.java:64 | `queue.poll()`, with the choice among equal bursts as a parameter; PickIsShortest states that the polled burst is least |
| SrtfScheduling.RunUnit | src/algorithms/ShortestRemainingTimeFirstScheduler.java:66-93 | one unit of the polled process: context switch, unit segment, then completion or requeue; StepEffect states it |
| SrtfScheduling.Step | src/algorithms/ShortestRemainingTimeFirstScheduler.java:64-95 | poll, then one unit of the polled process; StepEffect states it |
| SrtfScheduling.Turn | src/algorithms/ShortestRemainingTimeFirstScheduler.java:31-96 | one iteration of the while-loop: the for-loop, then an idle tick or a unit step; TurnKeeps, TurnHist and TurnClosed state what it keeps |
| SrtfScheduling.Simulate | src/algorithms/ShortestRemainingTimeFirstScheduler.java:31-96 | the while-loop until every process has completed; SimulateEnds, SimulateHist, SimulateTimed and SimulateClosed state its outcome |
| SrtfScheduling.ShortestIsMinimal | src/algorithms/ShortestRemainingTimeFirstScheduler.java:23 | no queued process has less remaining burst than the one found |
| SrtfScheduling.PickIsShortest | src/algorithms/ShortestRemainingTimeFirstScheduler.java:64 | the polled process has the least remaining burst in the queue, whatever the tie order |
| SrtfScheduling.Idle | src/algorithms/ShortestRemainingTimeFirstScheduler.java:57-61 | an idle tick advances time by one, forgets the last process, and changes nothing else |
| SrtfScheduling.FinishKeeps | src/algorithms/ShortestRemainingTimeFirstScheduler.java:86-89 | completing a queued process takes it off the queue, adds it to the completion list, and lowers the total remaining burst by its burst |
| SrtfScheduling.QueuedKeeps | src/algorithms/ShortestRemainingTimeFirstScheduler.java:90-93 | updating a process that still has work keeps it queued and changes the total remaining burst by the difference |
| SrtfScheduling.AdmitKeeps | src/algorithms/ShortestRemainingTimeFirstScheduler.java:34-40 | admission keeps the invariant and the bursts, only adds to the queue, and queues every arrived process with work left |
| SrtfScheduling.StarveKeeps | src/algorithms/ShortestRemainingTimeFirstScheduler.java:43-53 | the override changes nothing unless the process is starving, in which case the total remaining burst drops |
| SrtfScheduling.PassKeeps | src/algorithms/ShortestRemainingTimeFirstScheduler.java:33-54 | the for-loop either completes someone by starvation or leaves time and completions alone and queues every eligible process |
| SrtfScheduling.RemainingIsSum | src/algorithms/ShortestRemainingTimeFirstScheduler.java:31 | the termination measure is the total remaining burst |
| SrtfScheduling.RunUnitKeeps | src/algorithms/ShortestRemainingTimeFirstScheduler.java:72-93 | a unit step keeps the invariant and uses up exactly one unit of remaining burst |
| SrtfScheduling.TurnKeeps | src/algorithms/ShortestRemainingTimeFirstScheduler.java:31-96 | while some process is unfinished, a turn lowers the remaining burst, or keeps it and moves time towards the last arrival |
| SrtfScheduling.IdleProgress | src/algorithms/ShortestRemainingTimeFirstScheduler.java:57-61 | an idle tick after a pass that starved nobody brings time closer to the last arrival |
| SrtfScheduling.SimulateEnds | src/algorithms/ShortestRemainingTimeFirstScheduler.java:31 | when the loop stops, the completion list is a permutation of all processes |
| SrtfScheduling.AppendSegment | src/algorithms/ShortestRemainingTimeFirstScheduler.java:72-79 | appending a segment keeps those before it and adds one to its owner's segment count only |
| SrtfScheduling.AdmitHist | src/algorithms/ShortestRemainingTimeFirstScheduler.java:34-40 | admission keeps every process's history: only the original burst may be recorded, and only on admission |
| SrtfScheduling.StarveHist | src/algorithms/ShortestRemainingTimeFirstScheduler.java:43-53 | the override keeps the history; the one marker segment stands for the rest of the burst |
| SrtfScheduling.RunUnitHist | src/algorithms/ShortestRemainingTimeFirstScheduler.java:72-93 | a unit step keeps the history: one unit segment per unit of burst used |
| SrtfScheduling.UnitHist | src/algorithms/ShortestRemainingTimeFirstScheduler.java:72-93 | one unit of a queued process that then finishes or stays queued keeps the history |
| SrtfScheduling.PassHist | src/algorithms/ShortestRemainingTimeFirstScheduler.java:33-54 | the for-loop keeps the history |
| SrtfScheduling.TurnHist | src/algorithms/ShortestRemainingTimeFirstScheduler.java:31-96 | a turn keeps the history |
| SrtfScheduling.SimulateHist | src/algorithms/ShortestRemainingTimeFirstScheduler.java:31-96 | the whole loop keeps the history |
| SrtfScheduling.ChargeTimed | src/algorithms/ShortestRemainingTimeFirstScheduler.java:43-93 | running a queued process between the old and the new time keeps every timing fact |
| SrtfScheduling.AdmitTimed | src/algorithms/ShortestRemainingTimeFirstScheduler.java:34-40 | admission keeps the timing facts: only arrived processes are queued |
| SrtfScheduling.StarveTimed | src/algorithms/ShortestRemainingTimeFirstScheduler.java:43-53 | with cs >= 0 the override keeps the timing facts |
| SrtfScheduling.RunUnitTimed | src/algorithms/ShortestRemainingTimeFirstScheduler.java:67-93 | with cs >= 0 a unit step keeps the timing facts |
| SrtfScheduling.LastUnitTimed | src/algorithms/ShortestRemainingTimeFirstScheduler.java:86-89 | a unit step that completes its process keeps the timing facts |
| SrtfScheduling.OtherUnitTimed | src/algorithms/ShortestRemainingTimeFirstScheduler.java:90-93 | a unit step that requeues its process keeps the timing facts |
| SrtfScheduling.PassTimed | src/algorithms/ShortestRemainingTimeFirstScheduler.java:33-54 | the for-loop keeps the timing facts |
| SrtfScheduling.TurnTimed | src/algorithms/ShortestRemainingTimeFirstScheduler.java:31-96 | a turn keeps the timing facts |
| SrtfScheduling.SimulateTimed | src/algorithms/ShortestRemainingTimeFirstScheduler.java:31-96 | the whole loop keeps the timing facts |
| SrtfScheduling.AppendClosed | src/algorithms/ShortestRemainingTimeFirstScheduler.java:72-89 | appending a segment for an unfinished process keeps every other completed process's last segment, and the process completes where the new segment says |
| SrtfScheduling.AdmitClosed | src/algorithms/ShortestRemainingTimeFirstScheduler.java:33-40 | admission keeps each completed process's completion at its last segment |
| SrtfScheduling.StarveClosed | src/algorithms/ShortestRemainingTimeFirstScheduler.java:43-53 | the override completes the process at the start of its one marker segment |
| SrtfScheduling.RunUnitClosed | src/algorithms/ShortestRemainingTimeFirstScheduler.java:72-93 | a unit step that finishes its process completes it at the end of the unit segment just emitted |
| SrtfScheduling.PassClosed | src/algorithms/ShortestRemainingTimeFirstScheduler.java:33-54 | the for-loop keeps every completion at its last segment |
| SrtfScheduling.TurnClosed | src/algorithms/ShortestRemainingTimeFirstScheduler.java:31-96 | a turn keeps every completion at its last segment |
| SrtfScheduling.SimulateClosed | src/algorithms/ShortestRemainingTimeFirstScheduler.java:31-96 | the whole loop keeps every completion at its last segment |
| SrtfScheduling.SimulateAccounts | src/algorithms/ShortestRemainingTimeFirstScheduler.java:31-96 | at the end of the loop every process has completed with burst 0 and its identity kept, and its unit segments account for its burst |
| SrtfScheduling.SimulateCompletions | src/algorithms/ShortestRemainingTimeFirstScheduler.java:48-87 | at the end of the loop each process has a last segment; a starved process completed at its start, any other at its end |
| SrtfScheduling.Schedule | src/algorithms/ShortestRemainingTimeFirstScheduler.java:18-99 | for positive bursts: the list is sorted by arrival; every process completes once with burst 0 and its identity kept; a process never starved gets exactly its burst in unit segments and completes at the end of its last one; a starved one gets between 1 and its burst and completes at the start of its marker segment |
| SrtfScheduling.ScheduleTiming | src/algorithms/ShortestRemainingTimeFirstScheduler.java:43-93 | with cs >= 0, segments start at or after time 0 and their arrival, in non-decreasing order; turnaround is at least the burst |
| SrtfScheduling.AdmitEffect | src/algorithms/ShortestRemainingTimeFirstScheduler.java:34-40 | a process is queued exactly when it is not queued, has arrived and has work left; its original burst is then recorded if it was 0 |
| SrtfScheduling.StarveEffect | src/algorithms/ShortestRemainingTimeFirstScheduler.java:43-53 | the override fires exactly on starvation; time moves by cs plus the burst, the process completes then, and the one length-1 segment starts at the completion time |
| SrtfScheduling.StepEffect | src/algorithms/ShortestRemainingTimeFirstScheduler.java:64-95 | a step polls a least-burst process, charges cs only after a different process, emits one unit segment, and completes or requeues the process |
| SrtfScheduling.AverageWaitingTime | src/algorithms/ShortestRemainingTimeFirstScheduler.java:126-132 | the mean of `getWaitingTimeSRTF` at each stored completion time |
| SrtfScheduling.AverageTurnaroundTime | src/algorithms/ShortestRemainingTimeFirstScheduler.java:135-141 | the mean turnaround over the list as given |
| SrtfScheduling.AveragesAfterSchedule | src/algorithms/ShortestRemainingTimeFirstScheduler.java:126-141 | for constructed processes and cs >= 0, total waiting is non-negative and total turnaround is total waiting plus total burst |
| FcaiScheduling.ScaleOf | src/algorithms/FCAIScheduler.java:149-164 | v1 and v2 (ten times over) are the latest arrival and the longest burst, each attained by some process, 0 for an empty list |
| FcaiScheduling.Init | src/algorithms/FCAIScheduler.java:20-26 | the loop starts at time 0 in FCFS mode with every process pending in list order and nothing queued or emitted |
| FcaiScheduling.Move | src/algorithms/FCAIScheduler.java:29-37 | the iterator loop of `updateReadyQueueState`; MoveIsFilter states it as a filter |
| FcaiScheduling.RefreshStores | src/algorithms/FCAIScheduler.java:41-46 | `calculateFcaiFactor` over the queue, as Refresh loops it: the stored factor of each queued process is recomputed from its current state and every other is kept |
| FcaiScheduling.Update | src/algorithms/FCAIScheduler.java:29-39 | `updateReadyQueueState` changes only the pending list, the queue and the stored factors; UpdateIsFilter states which processes move |
| FcaiScheduling.FilterMembers | src/algorithms/FCAIScheduler.java:29-37 | the arrived and the still-to-arrive parts of the pending list hold exactly the arrived and the unarrived processes |
| FcaiScheduling.MoveIsFilter | src/algorithms/FCAIScheduler.java:29-37 | the iterator loop appends the arrived pending processes to the queue in list order and keeps the rest pending in order |
| FcaiScheduling.UpdateIsFilter | src/algorithms/FCAIScheduler.java:29-46 | a refresh appends exactly the arrivals to the queue and recomputes the factor of every queued process and no other |
| FcaiScheduling.UpdateKeeps | src/algorithms/FCAIScheduler.java:29-39 | a refresh never puts a process in both collections, and afterwards every pending process is still to arrive |
| FcaiScheduling.BestOf | src/algorithms/FCAIScheduler.java:49-60 | the best-process scan returns a queue position |
| FcaiScheduling.Better | src/algorithms/FCAIScheduler.java:52-55 | the replacement test of `getBestProcessFromQueue`: a strictly smaller factor, or an equal one and an earlier arrival; BestOfIsBest states the scan built on it |
| FcaiScheduling.BestOfIsBest | src/algorithms/FCAIScheduler.java:49-60 | no queued process beats the pick on (factor, arrival); without NaN the pick beats every process ahead of it, so ties go to the earliest position |
| FcaiScheduling.Tick | src/algorithms/FCAIScheduler.java:73-76 | an idle unit advances time by one and keeps the invariant |
| FcaiScheduling.TickProgress | src/algorithms/FCAIScheduler.java:73-76 | while nothing is queued and something is pending, an idle unit brings the latest arrival closer |
| FcaiScheduling.Wait | src/algorithms/FCAIScheduler.java:73-76 | the idle loop changes neither the processes, the mode nor the segments; WaitKeeps states how it ends |
| FcaiScheduling.WaitKeeps | src/algorithms/FCAIScheduler.java:72-79 | the idle loop keeps the invariant and ends with a process queued or none pending |
| FcaiScheduling.Next | src/algorithms/FCAIScheduler.java:106-110 | one preemptible unit lowers the running burst by one, advances time by one, and refreshes the queue |
| FcaiScheduling.Preempted | src/algorithms/FCAIScheduler.java:104 | the preemption test: some process is queued and the best one's factor is strictly below the running one's; PreemptStops states the loop built on it |
| FcaiScheduling.Preempt | src/algorithms/FCAIScheduler.java:102-111 | the preemptible phase keeps the scheduler invariant and the process count, uses no more quantum than it is given (never going below zero), and touches neither the segments nor the mode |
| FcaiScheduling.PreemptStops | src/algorithms/FCAIScheduler.java:102-111 | the phase stops only when out of burst, out of quantum, or beaten by a strictly smaller factor; it runs at all exactly when none holds at the start |
| FcaiScheduling.PreemptKeeps | src/algorithms/FCAIScheduler.java:102-111 | the phase only runs the process: each unit of quantum used is one unit of its burst and one unit of time |
| FcaiScheduling.PreemptHalts | src/algorithms/FCAIScheduler.java:102-106 | the loop ends only on one of its three exits: quantum used up, burst used up, or a strictly better queued factor |
| FcaiScheduling.PreemptBurst | src/algorithms/FCAIScheduler.java:102-109 | the running process loses exactly one unit of burst per unit of quantum used, and no other process changes |
| FcaiScheduling.PreemptClock | src/algorithms/FCAIScheduler.java:102-108 | the clock advances exactly one unit per unit of quantum used |
| FcaiScheduling.PreemptQueue | src/algorithms/FCAIScheduler.java:102-111 | the phase only appends to the queue, and the running process is not in it |
| FcaiScheduling.NonPreemptive | src/algorithms/FCAIScheduler.java:93 | the non-preemptive share is ceil(0.4 q): between 0 and q, the least e with 2q <= 5e |
| FcaiScheduling.Take | src/algorithms/FCAIScheduler.java:84-89 | the queue position a dispatch takes is in the queue; TakeIsRemove states which one |
| FcaiScheduling.TakeIsRemove | src/algorithms/FCAIScheduler.java:84-89 | taking the chosen position off is `remove(best)` in best-factor mode and `poll()` in FCFS mode |
| FcaiScheduling.Chosen | src/algorithms/FCAIScheduler.java:84-89 | the process dispatched is queued, has work left and a non-negative quantum |
| FcaiScheduling.Share | src/algorithms/FCAIScheduler.java:92-94 | the units run without preemption fit in the quantum and the burst, and are positive for a positive quantum |
| FcaiScheduling.Begin | src/algorithms/FCAIScheduler.java:81-99 | the chosen process leaves the queue and runs its share with no refresh in between |
| FcaiScheduling.Settle | src/algorithms/FCAIScheduler.java:113-143 | the segment, the completion or requeue and the context switch after a run; SettleTrace states it |
| FcaiScheduling.DispatchFrom | src/algorithms/FCAIScheduler.java:101-143 | the preemptible phase, then settling; DispatchFromRun and DispatchFromQueue state it |
| FcaiScheduling.Dispatch | src/algorithms/FCAIScheduler.java:81-143 | one dispatch of the loop body; DispatchEffect, DispatchKeeps and DispatchClosed state it |
| FcaiScheduling.Simulate | src/algorithms/FCAIScheduler.java:69-144 | the while-loop: refresh, idle wait, stop if nothing is queued, otherwise dispatch; SimulateEnds, SimulateHist, SimulateTimed and SimulateClosed state its outcome |
| FcaiScheduling.SettleKeeps | src/algorithms/FCAIScheduler.java:124-143 | settling keeps the invariant and the burst; a used-up quantum becomes q + 2 |
| FcaiScheduling.DispatchFromKeeps | src/algorithms/FCAIScheduler.java:102-143 | the rest of a dispatch changes only the running process, whose burst drops by at most the rest of the quantum |
| FcaiScheduling.SettleTrace | src/algorithms/FCAIScheduler.java:114-143 | one segment for the whole run; completion at the run's end in FCFS mode, or requeued at the tail with quantum q + 2 (FCFS) or q + unused (best-factor); then cs |
| FcaiScheduling.DispatchFromTrace | src/algorithms/FCAIScheduler.java:102-143 | a dispatch runs between its share and its quantum, within its burst, and settles as SettleTrace states |
| FcaiScheduling.DispatchFromRun | src/algorithms/FCAIScheduler.java:81-143 | a dispatch runs d units, between its share and its quantum and burst, in one segment starting now; time moves by d plus cs; no other process changes |
| FcaiScheduling.DispatchFromQueue | src/algorithms/FCAIScheduler.java:124-140 | the process finishes in FCFS mode, or goes to the queue's tail behind the earlier queue, with quantum q + 2 (FCFS) or q + unused (best-factor) |
| FcaiScheduling.DispatchEffect | src/algorithms/FCAIScheduler.java:81-99 | FCFS dispatches the queue head and best-factor mode the best process; the share is min(ceil(0.4 q), burst) |
| FcaiScheduling.DispatchKeeps | src/algorithms/FCAIScheduler.java:81-143 | a dispatch keeps the invariant and lowers the remaining burst, or raises a zero quantum |
| FcaiScheduling.UpdateArrived | src/algorithms/FCAIScheduler.java:29-37 | a refresh queues only arrived processes |
| FcaiScheduling.WaitArrived | src/algorithms/FCAIScheduler.java:72-76 | the idle loop queues only arrived processes and never moves time back |
| FcaiScheduling.PreemptArrived | src/algorithms/FCAIScheduler.java:102-111 | the refreshes of the preemptible phase queue only arrived processes |
| FcaiScheduling.DispatchFromArrived | src/algorithms/FCAIScheduler.java:102-143 | with cs >= 0 the rest of a dispatch queues only arrived processes |
| FcaiScheduling.DispatchArrived | src/algorithms/FCAIScheduler.java:81-143 | with cs >= 0 a dispatch queues only arrived processes |
| FcaiScheduling.NothingLeft | src/algorithms/FCAIScheduler.java:69 | with nothing pending or queued, no process has work left |
| FcaiScheduling.SimulateEnds | src/algorithms/FCAIScheduler.java:69-79 | the loop ends with both collections empty and every burst at 0 |
| FcaiScheduling.ChargeHist | src/algorithms/FCAIScheduler.java:97-121 | running a process d units in one segment keeps every history fact |
| FcaiScheduling.DispatchFromHist | src/algorithms/FCAIScheduler.java:97-140 | the rest of a dispatch keeps every history fact |
| FcaiScheduling.DispatchHist | src/algorithms/FCAIScheduler.java:81-143 | a dispatch keeps every history fact |
| FcaiScheduling.SimulateHist | src/algorithms/FCAIScheduler.java:63-146 | the loop keeps the history: identity and original burst unchanged, quantum never smaller, segments adding up to the burst used |
| FcaiScheduling.AppendClosed | src/algorithms/FCAIScheduler.java:114-125 | appending a segment for one process keeps every other finished process's last segment, and the process, if finished, completes at the new segment's end |
| FcaiScheduling.DispatchClosed | src/algorithms/FCAIScheduler.java:114-125 | a dispatch that finishes its process completes it at the end of the segment it emits, and keeps every other completion |
| FcaiScheduling.SimulateClosed | src/algorithms/FCAIScheduler.java:69-144 | the whole loop keeps every finished process's completion at the end of its last segment |
| FcaiScheduling.SimulateCompletions | src/algorithms/FCAIScheduler.java:114-125 | at the end of the loop every process has a last segment and completed at its end |
| FcaiScheduling.LaterTimed | src/algorithms/FCAIScheduler.java:73-76 | letting time pass keeps the timing facts |
| FcaiScheduling.ChargeTimed | src/algorithms/FCAIScheduler.java:97-143 | running a process from the current time keeps the timing facts |
| FcaiScheduling.DispatchFromTimed | src/algorithms/FCAIScheduler.java:97-143 | with cs >= 0 the rest of a dispatch keeps the timing facts |
| FcaiScheduling.DispatchTimed | src/algorithms/FCAIScheduler.java:81-143 | with cs >= 0 a dispatch keeps the timing facts |
| FcaiScheduling.RefreshTimed | src/algorithms/FCAIScheduler.java:70-76 | the refresh and idle wait keep the invariant, history and timing, and change no process |
| FcaiScheduling.DispatchRound | src/algorithms/FCAIScheduler.java:81-143 | a dispatch keeps invariant, history and timing and lowers the loop's measure |
| FcaiScheduling.SimulateTimed | src/algorithms/FCAIScheduler.java:63-146 | the whole loop keeps the timing facts |
| FcaiScheduling.InitInv | src/algorithms/FCAIScheduler.java:63-67 | the initial state satisfies invariant, history and timing for positive bursts and non-negative quanta |
| FcaiScheduling.Schedule | src/algorithms/FCAIScheduler.java:63-146 | every process completes with its identity and original burst kept and quantum not smaller, at the end of the last segment emitted for it; its segments add up to its whole burst and carry its identity |
| FcaiScheduling.ScheduleTiming | src/algorithms/FCAIScheduler.java:63-146 | with cs >= 0 segments start at or after time 0 and their arrival and never overlap; turnaround is at least the burst |
| FcaiScheduling.SimulateTiming | src/algorithms/FCAIScheduler.java:63-146 | with cs >= 0, at the end of the loop segments start at or after time 0 and their arrival, never overlap, and turnaround is at least the burst |
| FcaiScheduling.AverageWaitingTime | src/algorithms/FCAIScheduler.java:188-194 | the mean of `getWaitingTimeFcai` over the list as given |
| FcaiScheduling.AverageTurnaroundTime | src/algorithms/FCAIScheduler.java:197-203 | the mean turnaround over the list as given |
| FcaiScheduling.AveragesAfterSchedule | src/algorithms/FCAIScheduler.java:188-203 | for constructed processes and cs >= 0, total waiting is non-negative and total turnaround is total waiting plus total burst |

## Left out

- Printing (`printResults`, the `System.out` lines inside the schedulers), FCAI's `timeline` strings, the Swing Gantt chart and the console front end: output only, with no effect on the schedule.
- Colours (`Process.getColor`, `ProcessExecution.color`): display only, so they are dropped from both records.
- `toString`, the plain getters and `setFcaiFactor`: the getters are field reads in the model, and `setFcaiFactor` is never called.
- The averages' double division: an average is kept exact as a total and a count. A count of 0 stands for the NaN that `0.0 / 0` gives.
- Java `int` overflow: all integers are unbounded. Totals and times that would wrap in 32 bits are not modelled.
- The FCAI doubles: v1, v2, the factor and ceil(0.4 q) are exact integer ceilings. Rounding in the double computations is not modelled.
- FcaiScheduling.Schedule: requires arrivals >= 0, bursts > 0 and quanta >= 0. The source takes a process with burst 0 when it arrives and completes it with a segment of length 0. A negative quantum would make the burst grow. Neither case is covered.
- SrtfScheduling.Schedule: requires positive bursts. The source never admits or completes a process with burst 0, so its loop never ends.
- SrtfScheduling.Pick: the order among processes of equal remaining burst in `PriorityQueue.poll()` is a parameter, because it depends on the heap's layout. The contracts only state that the polled burst is least.
- SjfScheduling.Pick: the `orElseThrow` branch cannot be reached after the emptiness check, so it is not modelled.
- SjfScheduling.Loop: the loop's local `totalWaitingTime` and `totalTurnaroundTime` feed only the printing, so they are not kept.
- FcaiScheduling.ScheduleTiming, SrtfScheduling.ScheduleTiming: a negative context switch is not covered. Time can then go backwards, so the timing facts do not hold.
- FcaiScheduling.Schedule: states the whole-run accounting and each dispatch's effect, not the exact sequence of dispatches for a given input.
