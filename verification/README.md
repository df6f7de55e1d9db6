# Verified models of the OS simulator

This project models the algorithms of the Go simulator in Dafny and proves what they are for:
the CPU schedulers, the G-M-P goroutine runtime, the Banker's algorithm, the reader-writer lock,
the futex-style mutex with condition variables and the bounded buffer, the dining philosophers, the
page tables with TLB and page replacement, the free-list and buddy allocators, and the process
table. `dafny verify dfyconfig.toml` checks everything.

How to read it:

- Each stateful object of the simulator is a `class` whose methods follow the Go code. A method's
  `ensures` ties the new state to a function of the old state, and the laws are proved about that
  function over whole runs.
- Protocols that run in several goroutines (reader-writer lock, mutex and bounded buffer, dining
  philosophers) are transition systems over any number of threads. A step is one critical section
  or one atomic instruction, and the theorems cover every interleaving.
- Reference definitions are kept apart from the code they judge: `Schedules` (what any schedule
  costs), `Charts.Follows` (the one Gantt chart a policy allows), `GmpHistory.WorkSteps` (steps a
  goroutine was found current), `FrameHistory.Log` (requests and the frames they were answered with),
  `Banker.Safe` (some safe order exists), `TlbLru.Recency` (an unbounded recency list),
  `Translation.WalkRun` (a manager without a TLB), `TwoLevel.LinearTable` (one linear page table),
  `FreeListLaws.FreeRange` (contiguous free bytes), `Buddy.FreeSlot` (an aligned unallocated block).

Conventions:

- Scheduler ticks are 0, 1, 2, ... and bursts are at least 1 (`SchedulerCore.FreshProcs`). The laws of
  runs name the final process list; `Additions` proves that it does not matter when a process is
  added, as long as its arrival tick is still to come.
- Processes, threads, goroutines and frames are named by their position, where the Go code holds
  pointers; free-list blocks and buddy nodes stay linked heap objects.
- Randomness (the first steal victim) is a parameter and the theorems hold for every choice.
- Integers are unbounded except where the width shows: physical addresses are taken modulo 2^64,
  and two-level page-table indices use the low 32 bits of an address.

| files | subject |
|---|---|
| `Schedules`, `Dominance` | schedules in general; shortest-first minimises jobs in the system |
| `SchedulerCore`, `ShortestJob`, `RoundRobin`, `Mlfq*` | the tick-driven schedulers |
| `Charts`, `ChartQueues`, `RoundRobinChart`, `ShortestJobChart` | policies read off the Gantt chart alone (`MlfqChart` for MLFQ) |
| `Additions` | processes added between ticks |
| `Gmp*` | goroutines, OS threads and logical processors |
| `Banker`, `BankersState` | deadlock avoidance |
| `RwLock`, `BoundedBuffer`, `BufferLaws`, `Dining` | synchronisation under all interleavings |
| `Paging`, `TwoLevel`, `Tlb`, `TlbLru`, `PageReplacement`, `Translation`, `Residency`, `FrameHistory`, `MemoryManager` | virtual memory |
| `FreeList*`, `Buddy*` | heap allocators |
| `ProcessTree`, `ProcessManager` | fork, exit and wait |
| `Collections`, `Arithmetic` | sequences without repetition, division with remainder |

Where the code and its comments differ, the model follows the code:

- The two-level page table is described for 32-bit addresses; addresses from 2^32 up alias the
  low 32 bits instead of being rejected.
- MLFQ Rule 1 is applied at dispatch points only; an arrival does not preempt a running slice.
- The README of the simulator describes merging of buddies; the code has no free.
- A lock acquisition that loses the compare-and-swap race may store "locked with waiters" after the
  owner has gone; the mutex is then never acquired again. `BoundedBuffer.DeadExactlyByLateFlag` is
  the exact condition, and `BufferLaws.ServesUnlessDead` says what holds without it.
- A process is admitted in the tick equal to its arrival or never. The kernel counts its tick up
  before it passes it to the scheduler (pkg/kernel/os_kernel.go:60-63), so a process added with the
  tick just executed as its arrival (cmd/os-sim/main.go:344), or with arrival 0, stays new for ever
  (`Additions.KernelRunsNothing`); `Additions.AdmittedIff` is the exact condition.
- AccessMemory does not look at the ReadWrite bit that Translate checks (`Translation.WalkAgrees`).
- Page eviction does not clear the victim's Present bit, so a page faults at most once and the
  replacement policies fault equally often (`Residency`).

## Model

| member | source | states |
|---|---|---|
| `Schedules.TurnaroundIsFlow` | pkg/cpu/scheduler.go:30-62 | For any schedule that finishes, the turnaround times summed over jobs equal the number of jobs in the system summed over ticks. |
| `Schedules.WorkConservingFinishes` | pkg/cpu/sched_rr.go:44-111 | Any schedule that never idles while work is waiting finishes every job by last arrival + total burst. |
| `Dominance.ServeShortest` | pkg/cpu/sched_sjf.go:156-175 | Serving the shortest busy job lowers, for every k, the work left outside the k largest jobs, whenever there is any. |
| `Dominance.ArrivalsDominate` | pkg/cpu/sched_sjf.go:143-148 | Equal arrivals on both sides keep the domination of one load by another. |
| `Dominance.ShortestFirstFewest` | pkg/cpu/sched_sjf.go:139-205 | At every tick a shortest-remaining-first schedule has no more jobs in the system than any other schedule of the same jobs. |
| `Dominance.ShortestFirstOptimal` | pkg/cpu/sched_sjf.go:139-205 | If any schedule has finished all jobs, shortest-first has too, with total turnaround no larger. |
| `SchedulerCore.Admit` | pkg/cpu/sched_sjf.go:41-46 | The admission loop readies exactly the new processes arriving now and appends them in list order. |
| `SchedulerCore.Age` | pkg/cpu/sched_sjf.go:48-50 | The waiting loop adds one tick for every entry of the ready queue. |
| `SchedulerCore.PreparedKept` | pkg/cpu/sched_rr.go:48-57 | Admission and ageing keep the books: every process in one place, records equal to what the Gantt chart says. |
| `SchedulerCore.PreemptedKept` | pkg/cpu/sched_rr.go:60-66 | Moving the running process to the back of the queue keeps the books: still every process in one place, with the same records. |
| `SchedulerCore.DispatchedKept` | pkg/cpu/sched_rr.go:69-80 | Dispatching the head of the queue keeps them; start and response time are those of its first dispatch. |
| `SchedulerCore.ExecutedKept` | pkg/cpu/sched_rr.go:82-107 | A tick that leaves no ready process while the CPU idles balances the books again, one tick later; completed processes are listed in the order of their finish. |
| `SchedulerCore.CompletionTestExact` | pkg/cpu/sched_rr.go:109-110 | The allDone test by lengths, with its test for an empty list, is exact: it holds if and only if there are processes and all have terminated. |
| `SchedulerCore.TerminatedInTime` | pkg/cpu/sched_rr.go:44-111 | With balanced books every process has terminated by last arrival + total burst. |
| `SchedulerCore.SumsMatch` | pkg/cpu/scheduler.go:30-62 | Recorded turnarounds sum to the true cost of the schedule, and recorded waiting times to turnaround + number of processes - burst, because the first dispatch tick counts as waiting. |
| `ShortestJob.StableSort` | pkg/cpu/sched_sjf.go:156-158 | The sorted queue is a permutation of the queue in order of remaining time. |
| `ShortestJob.SortIsStable` | pkg/cpu/sched_sjf.go:156-158 | Entries with equal keys keep their order. |
| `ShortestJob.SortIsDetermined` | pkg/cpu/sched_sjf.go:156-158 | Two sorted permutations of one queue that agree on the order of equal keys are the same queue, so the stable sort is the only result possible. |
| `ShortestJob.StcfScheduler.constructor` | pkg/cpu/sched_sjf.go:122-129 | An empty scheduler. |
| `ShortestJob.StcfScheduler.AddProcess` | pkg/cpu/sched_sjf.go:135-137 | The process list grows by the process; nothing else changes. |
| `ShortestJob.StcfScheduler.Choose` | pkg/cpu/sched_sjf.go:155-175 | Sorting, preempting only for strictly less remaining time, and dispatching, as one state change. |
| `ShortestJob.StcfScheduler.Tick` | pkg/cpu/sched_sjf.go:139-205 | The tick of the specification; returns the running process and allDone. |
| `ShortestJob.StcfRunBalanced` | pkg/cpu/sched_sjf.go:139-205 | After every tick of any workload the books balance and the Gantt chart is a shortest-first schedule. |
| `ShortestJob.StcfFewestInSystem` | pkg/cpu/sched_sjf.go:139-205 | At every tick STCF has no more processes in the system than any one-process-per-tick schedule. |
| `ShortestJob.StcfTurnaroundMinimal` | pkg/cpu/sched_sjf.go:139-205 | The turnaround times STCF records sum to no more than those of any schedule that finishes. |
| `ShortestJob.StcfCompletes` | pkg/cpu/sched_sjf.go:139-205 | All processes complete by last arrival + total burst. |
| `ShortestJob.SjfScheduler.constructor` | pkg/cpu/sched_sjf.go:21-28 | An empty scheduler. |
| `ShortestJob.SjfScheduler.AddProcess` | pkg/cpu/sched_sjf.go:34-36 | The process list grows by the process; nothing else changes. |
| `ShortestJob.SjfScheduler.Choose` | pkg/cpu/sched_sjf.go:53-66 | When the CPU is free, the first shortest burst of the stably sorted queue is dispatched. |
| `ShortestJob.SjfScheduler.Tick` | pkg/cpu/sched_sjf.go:38-95 | The tick of the specification; returns the running process and allDone. |
| `ShortestJob.SjfRunBalanced` | pkg/cpu/sched_sjf.go:38-95 | After every tick of any workload the books balance. |
| `ShortestJob.SjfCompletes` | pkg/cpu/sched_sjf.go:38-95 | All processes complete by last arrival + total burst. |
| `ShortestJob.SjfWaitingMinimal` | pkg/cpu/sched_sjf.go:38-95 | When all processes arrive at tick 0, SJF minimises total waiting over all schedules, preemptive ones included. |
| `Charts.OnlyOneChart` | pkg/cpu/sched_sjf.go:155-175 | Round robin, SJF and STCF as rules on the chart alone, with ties broken by who has waited longest, each allow exactly one chart of each length. |
| `Charts.ShortestStarts` | pkg/cpu/sched_sjf.go:53-66 | In a chart that keeps the SJF rule, a job that starts has the smallest burst in the system, and the job before it has finished. |
| `Charts.StrictlyShorter` | pkg/cpu/sched_sjf.go:160-166 | In a chart that keeps the STCF rule, a job with work left loses the CPU only to one with strictly less. |
| `ShortestJobCharts.SjfFollows` | pkg/cpu/sched_sjf.go:38-95 | For any workload and any number of ticks the chart of SJF is the one in which a job runs until it is finished and then the smallest burst in the system is next, of equal ones the first to arrive. |
| `ShortestJobCharts.StcfFollows` | pkg/cpu/sched_sjf.go:139-205 | The chart of STCF is the one in which a job runs while none has less work left and then one with the least is next, of equal ones the one that has waited longest. |
| `ShortestJobCharts.SjfCounters` | pkg/cpu/sched_sjf.go:53-90 | Busy time is the number of ticks that ran something, and context switches the number of ticks that ran another process than the tick before. |
| `ShortestJobCharts.StcfCounters` | pkg/cpu/sched_sjf.go:168-200 | The same for STCF. |
| `RoundRobin.RrScheduler.constructor` | pkg/cpu/sched_rr.go:23-34 | An empty scheduler with the default quantum where none is given. |
| `RoundRobin.RrScheduler.AddProcess` | pkg/cpu/sched_rr.go:40-42 | The process list grows by the process; nothing else changes. |
| `RoundRobin.RrScheduler.Choose` | pkg/cpu/sched_rr.go:59-80 | Quantum expiry to the back of the queue, then dispatch of the head with a fresh slice. |
| `RoundRobin.RrScheduler.Tick` | pkg/cpu/sched_rr.go:44-111 | The tick of the specification; returns the running process and allDone. |
| `RoundRobin.RrRunBalanced` | pkg/cpu/sched_rr.go:44-111 | After every tick of any workload the books balance. |
| `RoundRobin.RrCompletes` | pkg/cpu/sched_rr.go:44-111 | All processes complete by last arrival + total burst. |
| `RoundRobin.RrNoStarvation` | pkg/cpu/sched_rr.go:59-80 | The process at position p of the ready queue runs within p quanta plus the rest of the current slice, whatever arrives. |
| `Charts.WholeQuantum` | pkg/cpu/sched_rr.go:59-66 | In a chart that keeps the round-robin rule, a job with work left loses the CPU only after a quantum of ticks in a row. |
| `Charts.QuantumEnds` | pkg/cpu/sched_rr.go:59-66 | After a quantum of ticks of one slice it does lose it, if any other job is in the system. |
| `RoundRobinCharts.RrFollows` | pkg/cpu/sched_rr.go:44-111 | For any workload, quantum and number of ticks the chart of round robin is the one in which a job runs until it is finished or has had its quantum, and then whoever has waited longest is next, arrivals of the same tick before it. |
| `RoundRobinCharts.RrCounters` | pkg/cpu/sched_rr.go:69-90 | Busy time is the number of ticks that ran something, and context switches the number of slices. |
| `Mlfq.MlfqScheduler.constructor` | pkg/cpu/sched_mlfq.go:41-67 | Three empty queues and the default boost period where none is given. |
| `Mlfq.MlfqScheduler.AddProcess` | pkg/cpu/sched_mlfq.go:73-75 | The process list grows by the process; nothing else changes. |
| `Mlfq.MlfqScheduler.Boost` | pkg/cpu/sched_mlfq.go:79-104 | Every queued process moves to Q0 in queue order with a fresh allotment, the running one is reset, and the boost is recorded. |
| `Mlfq.MlfqScheduler.Enter` | pkg/cpu/sched_mlfq.go:106-121 | Arrivals enter Q0 and every queued process waits one more tick. |
| `Mlfq.MlfqScheduler.Expire` | pkg/cpu/sched_mlfq.go:124-145 | A used-up allotment moves the process down one level, a used-up quantum to the back of its level. |
| `Mlfq.MlfqScheduler.Choose` | pkg/cpu/sched_mlfq.go:147-164 | The head of the highest non-empty queue is dispatched. |
| `Mlfq.MlfqScheduler.Use` | pkg/cpu/sched_mlfq.go:166-192 | One tick of work, charged to slice and allotment. |
| `Mlfq.MlfqScheduler.Tick` | pkg/cpu/sched_mlfq.go:77-196 | The tick of the specification; returns the running process and allDone. |
| `Mlfq.BoostsOnSchedule` | pkg/cpu/sched_mlfq.go:79-84 | The recorded boosts are exactly every BoostPeriod-th tick, whatever the processes do. |
| `MlfqHistory.HistoryLaw` | pkg/cpu/sched_mlfq.go:77-196 | After every tick the level and allotment of each live process are a function of the ticks it ran since admission or the last boost, and it waits in the queue of its level. |
| `MlfqLaws.MlfqRunBalanced` | pkg/cpu/sched_mlfq.go:77-196 | After every tick of any workload the books balance. |
| `MlfqLaws.MlfqCompletes` | pkg/cpu/sched_mlfq.go:77-196 | All processes complete by last arrival + total burst. |
| `MlfqProgress.MlfqNoStarvation` | pkg/cpu/sched_mlfq.go:81-104 | A waiting process runs within one boost period, two ticks per process and seven more, whatever its level. |
| `MlfqProgress.DispatchHighest` | pkg/cpu/sched_mlfq.go:147-164 | At every dispatch point of every run the process chosen is a waiting one, and no waiting process has a higher level. |
| `MlfqCharts.MlfqFollows` | pkg/cpu/sched_mlfq.go:77-196 | In every tick of any workload a job goes on for 2, 4 or 8 ticks by its level, or until it has used the 4, 8 or 16 of the level, all counted on the chart; then the highest level that anyone waits at is served, by the same job only if it is alone there. |
| `MlfqCharts.MlfqCounters` | pkg/cpu/sched_mlfq.go:147-175 | Busy time is the number of ticks that ran something, and context switches the number of slices. |
| `Additions.DrivenIsRun` | pkg/cpu/sched_rr.go:40-111 | The scheduler object itself, driven by such an interleaving, holds the state of the run over the final list. |
| `Additions.AdmittedIff` | pkg/cpu/sched_rr.go:48-53 | For each of the four, a process added before tick `now` is admitted within the next n ticks if and only if now <= arrival < now + n. |
| `Additions.Untouched` | pkg/cpu/sched_mlfq.go:106-114 | Until it arrives, and for ever if its arrival tick has passed, it changes nothing: the ticks commute with adding it. |
| `Additions.KernelRunsNothing` | pkg/kernel/os_kernel.go:60-63 | With the kernel's ticks 1, 2, ... and any of the four, no process added with an arrival up to the current tick is ever admitted, run or completed, in any interleaving. |
| `Additions.DriveStcf` | pkg/cpu/sched_sjf.go:135-205 | The scheduler object itself, driven by such an interleaving, holds the state of the run over the final list. |
| `Additions.DriveSjf` | pkg/cpu/sched_sjf.go:34-95 | The scheduler object itself, driven by such an interleaving, holds the state of the run over the final list. |
| `Additions.DriveRr` | pkg/cpu/sched_rr.go:40-111 | The scheduler object itself, driven by such an interleaving, holds the state of the run over the final list. |
| `Additions.DriveMq` | pkg/cpu/sched_mlfq.go:73-196 | The scheduler object itself, driven by such an interleaving, holds the state of the run over the final list. |
| `GmpRuntimes.GmpRuntime.constructor` | pkg/cpu/gmp_runtime.go:73-108 | One thread bound to each processor; two processors where none are asked for. |
| `GmpRuntimes.GmpRuntime.SpawnGoroutine` | pkg/cpu/gmp_runtime.go:111-138 | The new goroutine joins the target local queue, or the global queue when that holds 256. |
| `GmpRuntimes.FindVictim` | pkg/cpu/gmp_runtime.go:258-264 | The first processor with queued work in a walk round all processors from the random start; none only if all the others are empty. |
| `GmpPlacement.FoundSteals` | pkg/cpu/gmp_runtime.go:250-279 | With nothing local or global a processor finds work if and only if some queue holds any; it then gets the younger half of that queue in order, running the first, and the victim keeps the older half. |
| `GmpProgress.ServedProgress` | pkg/cpu/gmp_runtime.go:145-210 | The turn of one processor lowers the unfinished work, or leaves a thread in a system call, or changes nothing because the processor is idle and no goroutine waits anywhere. |
| `GmpRuntimes.GmpRuntime.Step` | pkg/cpu/gmp_runtime.go:141-226 | The step of the specification, for every choice of steal starts. |
| `GmpPlacement.FoundConserves` | pkg/cpu/gmp_runtime.go:228-280 | The search takes exactly one goroutine out of the run queues, or all run queues are empty. |
| `GmpSteps.SpawnedValid` | pkg/cpu/gmp_runtime.go:111-138 | Spawning puts the new goroutine in exactly one place and keeps every queue within its capacity. |
| `GmpSteps.SteppedValid` | pkg/cpu/gmp_runtime.go:141-226 | A step loses, duplicates and misplaces no goroutine and keeps the bindings mutual. |
| `GmpSteps.ReachableValid` | pkg/cpu/gmp_runtime.go:73-226 | In every reachable state each goroutine is in exactly one of local queues, global queue, a thread or CompletedGs; bindings are mutual; a blocked thread has no processor; local queues hold at most 256. |
| `GmpProgress.StepProgress` | pkg/cpu/gmp_runtime.go:141-226 | Every step lowers the measure of unfinished work until it is zero. |
| `GmpProgress.AllComplete` | pkg/cpu/gmp_runtime.go:141-280 | Without further spawns nothing is unfinished after as many steps as the measure, for any steal victims. |
| `GmpProgress.AllInCompleted` | pkg/cpu/gmp_runtime.go:186-193 | Then every goroutine is in CompletedGs exactly once. |
| `GmpProgress.SpawnWeight` | pkg/cpu/gmp_runtime.go:111-138 | A spawned goroutine adds max(work, 1) + 1 to the measure, and 4 more if it makes a system call. |
| `GmpProgress.EverythingCompletes` | pkg/cpu/gmp_runtime.go:73-280 | After any run of spawns and steps, as many further steps as max(work, 1) + 1 per spawn and 4 per system call put every goroutine into CompletedGs exactly once. |
| `GmpIdle.IdleMeansEmpty` | pkg/cpu/gmp_runtime.go:141-280 | If a processor ends a step idle without a handoff, every local queue is empty and the global queue holds only goroutines woken in that step. |
| `GmpHistory.StepEvolves` | pkg/cpu/gmp_runtime.go:141-226 | In one step, for any steal victims, a running goroutine does a unit of work or enters the kernel, one in the kernel counts a tick and returns after the third, a waiting one waits or starts, a dead one stays dead; no other field of it changes. |
| `GmpHistory.WorkHistory` | pkg/cpu/gmp_runtime.go:141-226 | After any run, the work left of a goroutine is the work it was spawned with less the steps that found it current and working, and it is in CompletedGs if and only if those are max(work, 1); a system call has cost it three steps, before the first unit. |
| `GmpHistory.FoundOrder` | pkg/cpu/gmp_runtime.go:228-255 | The local queue goes before the global one except on every 61st tick of the processor; exactly the head of the queue chosen leaves it. |
| `GmpHistory.TicksAreSteps` | pkg/cpu/gmp_runtime.go:145-150 | The tick of every processor is the number of steps of the run. |
| `GmpHistory.SpawnsInTurn` | pkg/cpu/gmp_runtime.go:111-138 | After any run the n-th spawn, counted from 1, goes to the back of the queue of processor n modulo their number, or to the back of the global queue if that holds 256. |
| `GmpHistory.RunsWhereNoted` | pkg/cpu/gmp_runtime.go:195-210 | In every reachable state a running goroutine notes the thread and processor that it runs on. |
| `GmpHistory.StepCounts` | pkg/cpu/gmp_runtime.go:152-193 | A step counts one handoff for each processor whose goroutine enters the kernel, and appends to CompletedGs. |
| `GmpHistory.GlobalIsFifo` | pkg/cpu/gmp_runtime.go:212-255 | The global queue is served from the front and joined at the back: after a step a suffix of it begins the new one. |
| `BankersStates.BankersState.constructor` | pkg/concurrency/deadlock_banker.go:21-45 | Zero matrices; missing totals count as zero. |
| `BankersStates.BankersState.SetProcessClaim` | pkg/concurrency/deadlock_banker.go:48-55 | Max, Allocation and Need of the process are set and its holding leaves Available. |
| `BankersStates.ClaimConserves` | pkg/concurrency/deadlock_banker.go:48-55 | A claim conserves the units of a resource if and only if the process held none of it before. |
| `BankersStates.ClaimsSaneIff` | pkg/concurrency/deadlock_banker.go:21-55 | Claims, one per process, lead from the constructor to a sane state if and only if nobody holds less than nothing or more than claimed and no more is held than there is. |
| `BankersStates.BankersState.NextToFinish` | pkg/concurrency/deadlock_banker.go:72-96 | The lowest-numbered unfinished process whose need fits, or none. |
| `BankersStates.BankersState.CheckSafeState` | pkg/concurrency/deadlock_banker.go:59-107 | True with a permutation that is a safe sequence; in a sane state, true if and only if any safe sequence exists. |
| `Banker.StuckIsUnsafe` | pkg/concurrency/deadlock_banker.go:98-102 | When the greedy search is stuck, no permutation whatsoever is safe. |
| `BankersStates.BankersState.RequestResources` | pkg/concurrency/deadlock_banker.go:110-145 | Each outcome with its exact condition; a granted request is the grant with a safe order, a denied one leaves the state as it was. |
| `BankersStates.RollbackRestores` | pkg/concurrency/deadlock_banker.go:134-140 | The rollback undoes the speculative grant exactly. |
| `Banker.GrantedConserves` | pkg/concurrency/deadlock_banker.go:127-131 | A grant conserves Available + the sum of Allocation for every resource. |
| `Banker.RunStaysSafe` | pkg/concurrency/deadlock_banker.go:110-145 | Any run of requests from a safe state stays safe, keeps Need = Max - Allocation, and conserves every resource. |
| `Banker.FirstIsGrantable` | pkg/concurrency/deadlock_banker.go:59-145 | In a safe state the first process of any safe sequence would be granted its whole remaining Need. |
| `RwLock.StepInv` | pkg/concurrency/rwlock.go:26-73 | Every critical section keeps the counts of readers, writers and waiters and accounts for every sleeper. |
| `RwLock.MutualExclusion` | pkg/concurrency/rwlock.go:26-73 | A writer never shares the lock with a reader or another writer. |
| `RwLock.NoDeadlock` | pkg/concurrency/rwlock.go:26-73 | Unless every script is finished some thread can move: never is everyone asleep. |
| `RwLock.ReleasedIsAttended` | pkg/concurrency/rwlock.go:38-73 | With the lock free, a sleeper implies that a woken writer is on its way: no wakeup is lost. |
| `RwLock.StepDecreases` | pkg/concurrency/rwlock.go:26-73 | Every step uses up some of a budget fixed by the scripts. |
| `RwLock.RunBounded` | pkg/concurrency/rwlock.go:26-73 | Every interleaving keeps the invariant and is no longer than the budget. |
| `RwLock.EveryRunFinishes` | pkg/concurrency/rwlock.go:26-73 | Every interleaving of any scripts ends, and only with all scripts completed and the lock free. |
| `RwLock.WritersFirst` | pkg/concurrency/rwlock.go:30-34 | Over any run throughout which a writer waits, the number of readers never grows and nobody becomes a reader. |
| `BoundedBuffer.StepExclusive` | pkg/concurrency/mutex.go:30-67 | No atomic step creates a second owner, nor an owner while the state word is 0. |
| `BoundedBuffer.StepGuarded` | pkg/concurrency/mutex.go:39-66 | The internal guard is held exactly by the thread inside its section. |
| `BoundedBuffer.StepWaiters` | pkg/concurrency/mutex.go:39-58 | Queued threads are distinct and blocked in Lock. |
| `BoundedBuffer.StepCalledUp` | pkg/concurrency/mutex.go:51-62 | A thread being handed the mutex is blocked and has left the queue. |
| `BoundedBuffer.StepFifo` | pkg/concurrency/condvar.go:86-114 | Each step keeps buffer length within capacity, items put = items got + buffer, and what the owner has checked. |
| `BoundedBuffer.ReachableSafe` | pkg/concurrency/condvar.go:25-114 | Over all interleavings: at most one owner, at most capacity items, and the items got are a prefix of the items put. |
| `BoundedBuffer.NeverPanics` | pkg/concurrency/condvar.go:100-114 | Get never reads an empty buffer and a wakeup always finds its thread blocked. |
| `BufferLaws.StepWord` | pkg/concurrency/mutex.go:39-66 | Each atomic step keeps the meaning of the state word and the order of the queue. |
| `BufferLaws.HandedInOrder` | pkg/concurrency/mutex.go:39-62 | In every reachable state threads have been handed the mutex in the order in which they queued, and outside the guard the word is 2 if and only if some thread is queued. |
| `BufferLaws.StepSupplied` | pkg/concurrency/condvar.go:25-51 | Each atomic step keeps at least as many threads on their way as there is stock, while someone waits unsignalled. |
| `BufferLaws.NoLostSignal` | pkg/concurrency/condvar.go:25-114 | While a consumer waits unsignalled, as many threads are on their way to the buffer or about to signal as there are items; likewise for producers and free places. |
| `BufferLaws.SignalledInOrder` | pkg/concurrency/condvar.go:25-51 | Over any run the threads signalled are the first that joined the condition variable, in that order, and the others wait in the order of joining. |
| `BoundedBuffer.DeadForever` | pkg/concurrency/mutex.go:30-46 | Over any run from a state with no owner and a non-zero state word, nobody ever owns the mutex again and every parked thread stays parked. |
| `BoundedBuffer.DiesByLateFlag` | pkg/concurrency/mutex.go:39-42 | A live mutex dies at a step if and only if that step stores 2 while the state word is 0. |
| `BoundedBuffer.DeadExactlyByLateFlag` | pkg/concurrency/mutex.go:30-67 | A run of any threads from the start ends with the mutex dead if and only if some step of it stores 2 while the state word is 0. |
| `BoundedBuffer.LostWakeup` | pkg/concurrency/mutex.go:30-67 | A concrete run of two threads after which one is parked, and parked still after every continuation. |
| `BufferLaws.StepAttended` | pkg/concurrency/mutex.go:39-62 | Each step keeps every thread blocked in Lock either queued or about to be woken by a thread that has taken it out of the queue. |
| `BufferLaws.OwnerMoves` | pkg/concurrency/mutex.go:48-67 | While the mutex has an owner some thread in the middle of an operation can move. |
| `BufferLaws.ServesUnlessDead` | pkg/concurrency/condvar.go:25-114 | After any run without such a late store, if nobody in the middle of an operation can move, then the mutex is free, everyone else waits in a condition variable, consumers only on an empty buffer and producers only on a full one. |
| `Dining.StepKeeps` | pkg/concurrency/dining_philosophers.go:107-125 | A fork is locked by a philosopher exactly while that philosopher holds it, and meals match the loop counters. |
| `Dining.NeighboursExclusive` | pkg/concurrency/dining_philosophers.go:113-123 | Two philosophers never hold the same fork. |
| `Dining.NoDeadlock` | pkg/concurrency/dining_philosophers.go:99-104 | For n >= 2, whenever a philosopher is unfinished some philosopher can move. |
| `Dining.StepCounts` | pkg/concurrency/dining_philosophers.go:109-124 | Every step lowers the number of steps to go by exactly one. |
| `Dining.EveryoneEats` | pkg/concurrency/dining_philosophers.go:91-129 | For n >= 2 a run is stuck if and only if it has taken 5 * goal * n steps, and then everyone has eaten mealsGoal times and all forks are free. |
| `Dining.LonePhilosopherSticks` | pkg/concurrency/dining_philosophers.go:95-115 | For n = 1 the second lock of the same fork never succeeds. |
| `Paging.PageTable.constructor` | pkg/memory/paging.go:38-48 | All entries invalid; page size 4096 where none is given. |
| `Paging.PageTable.MapPage` | pkg/memory/paging.go:51-61 | Exactly the entry of the page is replaced, if there is one. |
| `Paging.PageTable.Translate` | pkg/memory/paging.go:64-93 | The physical address or the error kind, and Accessed and Dirty set on success only. |
| `Paging.MappedTranslates` | pkg/memory/paging.go:51-61 | A page mapped reads as the frame address plus offset, writes likewise if writable and with a protection fault if not, is neither accessed nor dirty; every other page answers as before. |
| `Paging.TranslationMarks` | pkg/memory/paging.go:64-93 | A successful translation leaves the page accessed, and dirty if it was a write or dirty before; a failed one leaves the table alone; neither changes what any address translates to. |
| `TwoLevel.IndicesArePageNumber` | pkg/memory/multilevel_pt.go:41-42 | The 10/10/12 split of an address is its page number and offset in 32 bits. |
| `TwoLevel.MultiLevelPageTable.constructor` | pkg/memory/multilevel_pt.go:29-37 | No second-level table; the linear view is all invalid. |
| `TwoLevel.MultiLevelPageTable.Prepare` | pkg/memory/multilevel_pt.go:44-51 | Allocating a second-level table on demand does not change the linear view and counts the region once. |
| `TwoLevel.MultiLevelPageTable.Map` | pkg/memory/multilevel_pt.go:40-54 | The linear view changes as one linear table would. |
| `TwoLevel.MultiLevelPageTable.Translate` | pkg/memory/multilevel_pt.go:57-87 | Address, error kind, Accessed and Dirty bits are those of one linear table of 2^20 pages. |
| `TwoLevel.Replay` | pkg/memory/multilevel_pt.go:40-87 | For any sequence of Map and Translate the answers and the linear view equal those of one linear table, and AllocatedPTs is the number of distinct 4 MB regions mapped. |
| `Tlb.TLB.constructor` | pkg/memory/tlb.go:31-39 | All slots invalid; 16 slots where no capacity is given. |
| `Tlb.TLB.Lookup` | pkg/memory/tlb.go:42-59 | A hit returns and stamps the first slot with the key; a miss counts. |
| `Tlb.TLB.Insert` | pkg/memory/tlb.go:62-108 | The first empty or matching slot is written, else the first least recently used one. |
| `Tlb.TLB.Flush` | pkg/memory/tlb.go:111-118 | Every slot becomes invalid. |
| `TlbLru.HitIffRecent` | pkg/memory/tlb.go:48-58 | A lookup hits if and only if the key is among the Capacity most recently used. |
| `TlbLru.EvictKeeps` | pkg/memory/tlb.go:93-107 | The slot evicted is that of the least recently used key. |
| `TlbLru.TrueLru` | pkg/memory/tlb.go:42-118 | After any trace valid slots form a prefix, no key repeats, and the cached keys are exactly the Capacity most recently used since the last flush. |
| `TlbLru.LargerNeverWorse` | pkg/memory/tlb.go:42-118 | On the same trace a larger TLB never has fewer hits. |
| `TlbLru.CountersExact` | pkg/memory/tlb.go:42-59 | Hits are the lookups of keys among the Capacity most recently used, misses the others. |
| `PageReplacement.SecondChance` | pkg/memory/page_replacement.go:169-182 | The clock victim is the first frame round from the hand with a clear use bit and exactly the frames passed lose theirs; if all are set the hand comes back to its start. |
| `PageReplacement.EvictsByPolicy` | pkg/memory/page_replacement.go:143-203 | The victim is oldest loaded, least recently used or second-chance according to policy; a dirty victim costs a swap write; other frames keep page and times. |
| `MemoryManagers.MemoryManager.constructor` | pkg/memory/page_replacement.go:46-62 | Numbered empty frames, four where none are asked for, and an empty TLB. |
| `MemoryManagers.MemoryManager.SweepClock` | pkg/memory/page_replacement.go:169-182 | The clock loop terminates with the victim, use bits and hand of the specification. |
| `MemoryManagers.MemoryManager.OldestBy` | pkg/memory/page_replacement.go:148-166 | The first frame with the smallest load or use time. |
| `MemoryManagers.MemoryManager.AllocateFrame` | pkg/memory/page_replacement.go:126-204 | The frame chosen and the memory with the new page in it. |
| `MemoryManagers.MemoryManager.FaultIn` | pkg/memory/page_replacement.go:92-110 | An absent page becomes present in the frame allocated for it; a present one changes nothing. |
| `MemoryManagers.MemoryManager.AccessMemory` | pkg/memory/page_replacement.go:65-124 | Address or error, frames, counters, TLB and page table of the specification. |
| `Translation.CachedIsResident` | pkg/memory/page_replacement.go:71-82 | A hit names the frame in the page table entry, which is valid and present. |
| `Translation.AccessKeepsCoherent` | pkg/memory/page_replacement.go:65-124 | Every cached translation stays the one in the page table. |
| `Translation.HitIsWalk` | pkg/memory/page_replacement.go:71-82 | The hit path does to memory, and answers, what a walk would. |
| `Translation.Transparent` | pkg/memory/page_replacement.go:65-204 | For any trace over any number of page tables, addresses, errors, frames, clock hand and all counters equal those of a manager without a TLB; only Dirty bits of page tables may be missing. |
| `Translation.CacheFollows` | pkg/memory/page_replacement.go:70-113 | The TLB after any access trace is the TLB after a trace of events that does not depend on its capacity. |
| `Translation.EventsConsistent` | pkg/memory/page_replacement.go:84-87 | Only mapped pages are ever remembered. |
| `Translation.ManagerTlbIsLru` | pkg/memory/page_replacement.go:65-124 | After any access trace a page is cached if and only if it is among the Capacity most recently accessed since the last flush. |
| `Translation.LargerTlbNeverWorse` | pkg/memory/page_replacement.go:65-124 | On the same access trace a manager with a larger TLB never has fewer hits. |
| `Translation.ManagerCountersExact` | pkg/memory/page_replacement.go:70-113 | The hits and misses of the manager count its accesses to pages among the Capacity most recent, and the others. |
| `Translation.WalkAgrees` | pkg/memory/page_replacement.go:84-123 | A walk answers what Translate answers on the table it leaves, unless the access is a write to a read-only page: only Translate refuses that. |
| `Translation.AnswersStand` | pkg/memory/page_replacement.go:65-124 | Every address and error a trace was answered, from the TLB or by a walk, is what Translate answers to a read on the page tables at the end of the trace. |
| `Residency.FaultsAreDemand` | pkg/memory/page_replacement.go:92-110 | Over any trace, under every policy and TLB size, faults are the distinct mapped pages accessed that were absent at the start, and evictions are how many more they are than the free frames. |
| `Residency.PoliciesFaultAlike` | pkg/memory/page_replacement.go:146-182 | On the same trace no policy faults or evicts more often than another. |
| `Residency.SingleOwnerIff` | pkg/memory/page_replacement.go:184-203 | That every present page is the one its frame holds is kept by a trace if and only if it demands no more absent pages than there are free frames. |
| `Residency.TwoPagesOneFrame` | pkg/memory/page_replacement.go:184-203 | A concrete trace of two reads after which two pages are present in one frame. |
| `FrameHistory.FrameLaw` | pkg/memory/page_replacement.go:65-204 | After any trace, under every policy and TLB size, a frame is dirty if and only if some write since its page was loaded was answered with it; its stamps are the last access and the last load answered with it; swap writes are the evictions of frames written since their load. |
| `FrameHistory.EvictsOldest` | pkg/memory/page_replacement.go:143-166 | Whenever a trace evicts, FIFO takes the frame whose last load, and LRU the one whose last access, is earliest in the log of requests. |
| `FreeListAllocators.FreeListAllocator.constructor` | pkg/memory/allocator.go:33-44 | One free block over the whole heap. |
| `FreeListAllocators.FreeListAllocator.FindFirstFit` | pkg/memory/allocator.go:66-75 | The first free block that is large enough, or none. |
| `FreeListAllocators.FreeListAllocator.FindBestFit` | pkg/memory/allocator.go:55-65 | The first of the smallest free blocks that are large enough, or none. |
| `FreeListAllocators.FreeListAllocator.Split` | pkg/memory/allocator.go:82-95 | The rest of the block is linked in after it, with Next and Prev consistent. |
| `FreeListAllocators.FreeListAllocator.Malloc` | pkg/memory/allocator.go:47-100 | The block list, counters and reply of the specification, on the linked headers. |
| `FreeListAllocators.FreeListAllocator.Absorb` | pkg/memory/allocator.go:113-127 | A block takes over its successor, which leaves the list, with Next and Prev consistent. |
| `FreeListAllocators.FreeListAllocator.Free` | pkg/memory/allocator.go:103-135 | The block list, counters and reply of the specification, on the linked headers. |
| `FreeListLaws.MallocKeeps` | pkg/memory/allocator.go:47-100 | Malloc keeps the blocks tiling the heap, no two free neighbours, and AllocatedBytes exact. |
| `FreeListLaws.FreeKeeps` | pkg/memory/allocator.go:103-135 | Free keeps the same. |
| `FreeListLaws.Run` | pkg/memory/allocator.go:33-135 | So does every run of Malloc and Free. |
| `FreeListLaws.MallocIff` | pkg/memory/allocator.go:47-80 | Malloc of a positive size succeeds if and only if that many contiguous free bytes exist. |
| `FreeListLaws.MallocTakes` | pkg/memory/allocator.go:82-99 | A grant is one new block at the address returned, of the size asked plus at most 16; every block held stays held. |
| `FreeListLaws.GrantByPolicy` | pkg/memory/allocator.go:52-75 | A first-fit grant is the fitting free block of lowest address, a best-fit grant the smallest fitting one, of lowest address among those. |
| `FreeListLaws.GrantIsCut` | pkg/memory/allocator.go:82-99 | The block is cut exactly when more than 16 bytes would be left over: then the caller gets the size asked for and the rest stays free behind it, else the whole block. |
| `FreeListLaws.CountIsGrants` | pkg/memory/allocator.go:97-99 | After any run AllocationsCount is the number of requests granted. |
| `FreeListLaws.FreeReleases` | pkg/memory/allocator.go:103-135 | Free releases exactly the block held at the address; a free block there is a double free; the blocks held otherwise stay. |
| `FreeListLaws.MallocThenFree` | pkg/memory/allocator.go:47-135 | Malloc then Free gives back the very same block list and byte count. |
| `FreeListLaws.FreeAllRestores` | pkg/memory/allocator.go:103-135 | Freeing every held block in any order leaves one free block over the whole heap. |
| `Buddy.TargetOrder` | pkg/memory/allocator.go:218-221 | The least order from MinOrder up whose block holds the size. |
| `Buddy.ClaimedIff` | pkg/memory/allocator.go:235-259 | The search succeeds if and only if a free leaf of sufficient order exists; otherwise the tree is unchanged. |
| `Buddy.ClaimedPacked` | pkg/memory/allocator.go:235-259 | Every split node holds an allocated block: nothing is split in vain. |
| `Buddy.AllocateIff` | pkg/memory/allocator.go:217-232 | Allocate succeeds if and only if a block of the target size, at a multiple of it from BaseAddr, is unallocated; otherwise the tree is unchanged. |
| `Buddy.AllocateGrants` | pkg/memory/allocator.go:217-232 | A grant is one new block of the target order, inside the arena, aligned to its size and disjoint from all others. |
| `Buddy.AllocateLowest` | pkg/memory/allocator.go:235-259 | The block granted is the lowest unallocated one of its size. |
| `Buddy.RunDisjoint` | pkg/memory/allocator.go:204-259 | Over any run the blocks handed out are pairwise disjoint, inside the arena and aligned. |
| `BuddyAllocators.BuddyAllocator.constructor` | pkg/memory/allocator.go:204-214 | One free node of the maximal order. |
| `BuddyAllocators.BuddyNode.FindAndSplit` | pkg/memory/allocator.go:235-259 | The node found and the tree of nodes after splitting in place, with the node found still to be flagged. |
| `BuddyAllocators.BuddyNode.Settled` | pkg/memory/allocator.go:231 | Setting the flag of the node found completes the tree of the specification. |
| `BuddyAllocators.BuddyAllocator.Allocate` | pkg/memory/allocator.go:217-232 | The tree of nodes and the reply of the specification. |
| `ProcessTree.ForkKeeps` | pkg/kernel/process_lifecycle.go:80-133 | Fork keeps the process tree: each process listed once, by its living, older parent. |
| `ProcessTree.ExitKeeps` | pkg/kernel/process_lifecycle.go:166-204 | Exit keeps it, with orphans adopted by init. |
| `ProcessTree.WaitKeeps` | pkg/kernel/process_lifecycle.go:207-242 | Wait keeps it. |
| `ProcessTree.ReapsLeaf` | pkg/kernel/process_lifecycle.go:221-238 | A reaping Wait removes exactly one process, a childless zombie of the caller, and returns its exit code. |
| `ProcessTree.OneParent` | pkg/kernel/process_lifecycle.go:80-242 | A process is in the children of q if and only if q is its parent. |
| `ProcessTree.ForkIff` | pkg/kernel/process_lifecycle.go:80-133 | Fork succeeds if and only if the parent exists; the child is new, alive and childless, last on the parent's list, and nobody else changes. |
| `ProcessTree.ExitIff` | pkg/kernel/process_lifecycle.go:166-204 | Exit succeeds if and only if the process exists and is not init, each refusal likewise; the process becomes a zombie with the code, its children go to the end of init's list, and nobody else changes. |
| `ProcessTree.WaitIff` | pkg/kernel/process_lifecycle.go:207-242 | Wait reaps if and only if some zombie has the caller as parent, the first on its list; reports no child if and only if nobody has the caller as parent; would block if and only if it has children and none is a zombie; a refusal changes nothing. |
| `ProcessTree.ReachesInit` | pkg/kernel/process_lifecycle.go:80-242 | Following parents, PIDs fall until init is reached: ancestry is acyclic. |
| `ProcessTree.CallEffect` | pkg/kernel/process_lifecycle.go:80-242 | Fork adds exactly the next PID, Wait removes exactly the process delivered, nothing else enters or leaves the table. |
| `ProcessTree.NeverReused` | pkg/kernel/process_lifecycle.go:89-90 | Over any run no PID is issued twice. |
| `ProcessTree.DeliveredOnce` | pkg/kernel/process_lifecycle.go:221-238 | Over any run each process's exit code is delivered at most once. |
| `ProcessTree.DeliversLastExit` | pkg/kernel/process_lifecycle.go:166-238 | After any run since boot, the code Wait delivers is that of the last Exit of the process. |
| `ProcessTree.ReapEmpties` | pkg/kernel/process_lifecycle.go:207-242 | When all but init have exited, one Wait(1) each delivers every exit code and empties the table down to init, and the next reports no child. |
| `ProcessManagers.ProcessManager.constructor` | pkg/kernel/process_lifecycle.go:51-74 | Only init, with next PID 2. |
| `ProcessManagers.ProcessManager.Fork` | pkg/kernel/process_lifecycle.go:80-133 | The table, next PID and reply of the specification. |
| `ProcessManagers.ProcessManager.Exit` | pkg/kernel/process_lifecycle.go:166-204 | The table and reply of the specification, including the refusal for init. |
| `ProcessManagers.ProcessManager.Reparent` | pkg/kernel/process_lifecycle.go:186-197 | The orphan loop gives every child to init, in order. |
| `ProcessManagers.ProcessManager.Wait` | pkg/kernel/process_lifecycle.go:207-242 | The table and reply of the specification: no such process, no child, would block, or the first zombie child. |

## Left out

- Rendering, log strings, event histories and the command-line front end: terminal output only.
- `pkg/parallelism`, `race_demo.go`, `pkg/io`, `pkg/ipc`, the system-call and trap tables, isolation, semaphore, spinlock, atomics, address spaces and call stacks: timing, stubs or easier members.
- FIFO and lottery schedulers: easier than the four modelled.
- Averages and percentages of CalculateMetrics and HitRate: floating point over sums that are modelled.
- GMP RunNext and acquireM: never used in reachable states, because RunNext is never set and every processor always has a thread.
- Fairness of the mutex: that a thread in Lock gets it in the end depends on the Go scheduler; only the order of handing over and the absence of deadlock short of a late store are proved.
- CondVar Broadcast: not used by the bounded buffer.
- Dining philosophers in the deadlock scenario: timeouts.
- RwLock.EveryRunFinishes: each thread runs a finite script of read and write sections and releases what it takes; sync.Mutex and sync.Cond are trusted, without spurious wakeups.
- Translation.Transparent: page tables are not remapped in the middle of a trace and have distinct PIDs, and frame numbers of present pages are below the number of frames.
- Page numbers from 2^63 up, where the Go conversion to int turns negative: only a page size of 1 reaches them.
- Overflow of tick counters, AccessTick and AllocatedBytes: unbounded here.
- FreeListAllocators.FreeListAllocator.Malloc: heap end plus 16 is taken to fit in 64 bits, so that no size computation wraps.
- BuddyAllocators.BuddyAllocator.Allocate: sizes above 2^63, for which the order loop of the code does not end, and maximal orders above 62.
- Registers, file descriptors, address spaces and page tables of processes in Fork, and Exec: frames of forked processes are not kept distinct by the code.
- ProcessManagers.ProcessManager.Fork: the caller is not a zombie, because the code reads an address space that Exit has cleared.
