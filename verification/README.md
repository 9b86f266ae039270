# Workload-kit: verified models

Workload-kit is a set of small C programs that produce recognisable scheduling, locking and
pipe activity. This project models the programs whose logic is a concurrent protocol or exact
arithmetic, and proves what they do for every input, every number of threads and every
interleaving.

A concurrent program is modelled twice. A value-level state machine gives each thread a program
counter; every semaphore operation and every access to shared memory is one step, and a step that
is blocked leaves the state alone. A run is then fixed by its schedule (the sequence of threads
that are given a turn), so a lemma about all schedules is a lemma about all interleavings. Beside
it stands a class with the program's own fields, whose methods take one step each in place and
are proved to do what the state machine does. Compile-time constants of the programs are
parameters. Memory is sequentially consistent; semaphores, barrier, pipe, timer and mutexes have
their POSIX or kernel meaning.

- `Runs.dfy`: schedules, invariants of runs, counting the moves of a run.
- `Arith.dfy`, `Sums.dfy`, `CInts.dfy`: division, sums over sequences, the int and char of C.
- `Pipeline.dfy`: three workers, two ring buffers, shutdown by a sentinel.
- `Spin.dfy`: worker pool with start and done semaphores, a one-shot timer and its handler.
- `TokenRing.dfy`: n threads passing one token round a ring of semaphores.
- `ThreadTree.dfy`, `TaskList.dfy`: stages of threads that spawn each other; the heap list of stages.
- `Pipette.dfy`: block transfer in chunks over a bounded pipe.
- `PinCpu.dfy`: CPU list parser and printer.
- `Profile.dfy`: timespec arithmetic, mean and variance.
- `Imbalance.dfy`: barrier cycles with a rotating load.
- `Pulse.dfy`: periodic bursts, round-robin pinning.
- `WkLock.dfy`: the two-lock kernel device.
- `FuncTrace.dfy`: the doubling loop and its call trace.

Where the code does not keep what one would expect of it, the model follows the code, and a lemma
says exactly when the expectation holds:

- `threadtree.c` writes a thread's slot after it has released the mutex, so the main thread can join a
  slot that was never written. It never does exactly when no stage has two threads
  (`ThreadTree.JoinsOnlyWrittenSlotsIff`); with slot and post inside the mutex it never does. Runs without
  such a join always complete (`ThreadTree.TreeFinishes`).
- `spin_run` can return exactly for 0 < usec < 1000000 (`Spin.SpinRunReturnsIff`), and leaves nothing of its
  round behind exactly when the pool has a thread (`Spin.IsolationNeedsThreads`).
- `profile_stats` divides the total of repeat - 1 deltas by repeat; its mean is their average exactly when
  the clock did not move (`Profile.MeanIsAverageIff`).
- `pulse.c` has its sleep refused exactly for a negative frequency, and for a frequency of 1 on a whole second
  (`Pulse.SleepRefusedIff`). Its bursts start on multiples of its period in all runs exactly when the period
  divides a second (`Pulse.BurstsAlignIff`). It divides by 0 exactly when it has a burst to make with a
  frequency beyond a million in size (`Pulse.PulseLoop`).
- `pincpu_parse` takes or rejects a number of the wrong size only outside the range of int;
  `PinCpu.PrintedNumberRightIff` says which numbers it gets right.
- `profile_stats` computes 0.0 / 0 for a repeat of 0 (`Profile.Statistics.Compute`).
- In `wk_lock.c` the mutex is only unlocked by its holder exactly when tasks release what they opened, or there
  is one task (`WkLock.OnlyHoldersUnlockIff`). The calls can get stuck as soon as tasks may open a second time
  or share files: when a file is open and every task waits to open (`WkLock.StuckIff`, `WkLock.NoDeadlockIff`).
- `pipette.c` prints an expected sum that is the actual one exactly for the first 128 blocks
  (`Pipette.ExpectedSumIff`).
- `functrace.c` overflows int in `baz` exactly for an argument of `foo` beyond 2^29, that is, for a call of `bar`
  beyond 2^29 - 1 (`FuncTrace.Program.CallFoo`, `FuncTrace.Program.CallBar`).
- The threads of `imbalance.c` do equal work exactly when their number divides the number of cycles
  (`Imbalance.BalancedIff`).

## Model

| member | source | states |
|---|---|---|
| Pipeline.PipelineDelivers | src/pipeline.c:31-93 | under every interleaving the cells worker 3 has processed are a prefix of the items in order, each through all three stages, which make the char 3 of 0, and all N once every worker has returned |
| Pipeline.PipelineEnds | src/pipeline.c:37-115 | no interleaving deadlocks; no run has more than 16N + 10 moves, and all workers have returned exactly when that many were made |
| Pipeline.SlotsAccountedFor | src/pipeline.c:42-92 | free, busy and held slots of each queue always add up to L, ip and ic are the produced and consumed counts mod L, at most 2L items are under way |
| Pipeline.NoSlotOverwritten | src/pipeline.c:44-71 | a worker about to write a cell never aims at a slot its consumer may still read |
| Pipeline.Finds2 | src/pipeline.c:64-69 | worker 2 finds the next item in its slot, or the sentinel exactly after all items |
| Pipeline.Finds3 | src/pipeline.c:85-87 | worker 3 finds the next item in its slot, or the sentinel exactly after all items |
| Pipeline.StepKeepsInv | src/pipeline.c:37-93 | every step of every worker keeps semaphore counts, ring positions and queue contents consistent |
| Pipeline.Threads.Worker1 | src/pipeline.c:37-56 | one step of worker_1 on the shared queues is the step of the state machine |
| Pipeline.Threads.Worker2 | src/pipeline.c:58-78 | one step of worker_2 on the shared queues is the step of the state machine |
| Pipeline.Threads.Worker3 | src/pipeline.c:80-93 | one step of worker_3 on the shared queues is the step of the state machine |
| Pipeline.Threads.constructor | src/pipeline.c:97-108 | main sets up empty queues with L free slots |
| Pipeline.RunProgram | src/pipeline.c:95-115 | the program delivers a prefix of the processed items under any schedule, and all of them when the joins return |
| Spin.RoundsAreIsolated | src/spin.c:37-150 | over any history of init, run and exit calls and any interleaving: between calls the timer has fired, run and all semaphores are 0 and every worker has done one round per returned spin_run; no round is under way when run is set again; once the arrays are freed every worker has left |
| Spin.SpinRunDoesOneRound | src/spin.c:123-150 | spin_run(usec) raises run, starts a timer of usec and makes every worker do exactly one round; it can always move until it returns, and takes at most 14 moves a worker and 6 |
| Spin.SpinInitMakesThreads | src/spin.c:57-88 | spin_init makes n workers for every n; when it returns all n have been created, are between rounds and have done none; it can move until then, and takes at most 2 moves a worker and 1 |
| Spin.PoolHasItsThreads | src/spin.c:57-121 | in a history of calls for n threads a live pool has n workers |
| Spin.CallsWithoutEffect | src/spin.c:61-63 | a call between calls does nothing exactly if it is spin_init on a live pool, or spin_run or spin_exit without one |
| Spin.SpinExitStopsAll | src/spin.c:97-121 | spin_exit makes every worker leave without another round, frees only after the last one left, can always move until it returns, and takes at most 14 moves a worker and 4 |
| Spin.SpinRunReturnsIff | src/spin.c:134-149 | spin_run can return exactly if 0 < usec < 1000000 |
| Spin.IsolationNeedsThreads | src/spin.c:123-150 | rounds are isolated in every history of pools with n threads exactly if n is not 0 |
| Spin.ZeroThreadsLeakTheRound | src/spin.c:123-150 | with no threads spin_run returns with run still 1 and the timer still running |
| Spin.StepKeepsInv | src/spin.c:31-150 | every call, worker step, expiry and handler step keeps the pool invariant |
| Spin.Pool.SpinInit | src/spin.c:57-88 | spin_init does nothing on a live pool and otherwise starts a fresh one of n threads |
| Spin.Pool.SpinRun | src/spin.c:123-132 | spin_run does nothing without a pool and otherwise raises run before the timer is set |
| Spin.Pool.SpinExit | src/spin.c:97-105 | spin_exit does nothing without a pool and otherwise clears cont before it posts |
| Spin.Pool.Control | src/spin.c:92-149 | the loops of the three calls and the timer set-up, step by step |
| Spin.Pool.WorkerThread | src/spin.c:37-55 | one step of worker |
| Spin.Pool.SignalHandler | src/spin.c:31-35 | the handler clears run |
| TokenRing.TurnsAlternate | src/schedfreq.c:50-62 | pass t is made by thread t mod n, each thread has made as many passes as there are numbers below their count that leave its rank mod n, any two counts differ by at most 1 |
| TokenRing.OneToken | src/schedfreq.c:57-72 | semaphore values plus threads between wait and post always make 1 |
| TokenRing.RingCompletes | src/schedfreq.c:50-72 | before n * R passes the thread whose turn it is can move; no run makes more; then every loop has ended and the token is back on the first semaphore |
| TokenRing.StepKeepsInv | src/schedfreq.c:57-60 | every step keeps the state a function of the number of passes and of the token being in hand |
| TokenRing.Experiment.constructor | src/schedfreq.c:64-72 | sems_init puts one token on the first semaphore and none elsewhere |
| TokenRing.Experiment.Worker | src/schedfreq.c:50-62 | one step of sems_wrk |
| ThreadTree.ForksFormATree | ust/threadtree/threadtree.c:104-145 | each stage is forked by one thread, the one that drew the last index of the stage before, after all of that stage have done their work; threads exist exactly if forked, none is forked twice |
| ThreadTree.WritesStayInside | ust/threadtree/threadtree.c:130-136 | the index a thread writes at is its own, inside the allocated cells, and still unwritten |
| ThreadTree.OneInside | ust/threadtree/threadtree.c:130-132 | a worker between wait and post of a stage's mutex is alone there |
| ThreadTree.ReadyIsPermutation | ust/threadtree/threadtree.c:130-136 | after all posts of a stage its ready array is a permutation of its threads |
| ThreadTree.JoinsOnlyWrittenSlotsIff | ust/threadtree/threadtree.c:130-136 | the main thread never joins an unwritten slot, in any interleaving, exactly if slot and post are inside the mutex or no stage has two threads |
| ThreadTree.MainCanReadUnwritten | ust/threadtree/threadtree.c:200-212 | with two threads or more in the first stage the main thread can read slot 0 before it is written |
| ThreadTree.TreeFinishes | ust/threadtree/threadtree.c:104-212 | in both variants, for any numbers of stages and threads: some thread can move until the main thread is done or has joined an unwritten slot; no run has more than 15 moves a thread, one a stage and 4; when the stages are freed every thread has exited and the threads created are the sum of the positive stage sizes; no unwritten slot is joined with slot and post inside the mutex or one thread at most in a stage |
| ThreadTree.ThreadsInNumbers | ust/threadtree/threadtree.c:147-166 | that sum is n * (2 * T - n + 1) / 2 with n the smaller of S and T, or 0 |
| ThreadTree.WorkersFinish | ust/threadtree/threadtree.c:104-145 | in both variants runs are bounded and when no worker can move all stages are complete |
| ThreadTree.StepKeepsInv | ust/threadtree/threadtree.c:104-212 | every step of main and workers keeps mutex, index, slot, post and fork invariants |
| ThreadTree.SlotIsWritten | ust/threadtree/threadtree.c:205-208 | the slot read after its wait is written in the safe variant, and for one thread a stage |
| TaskList.MakeTask | ust/threadtree/threadtree.c:147-166 | builds an acyclic list of S fresh stages of sizes T, T - 1, ... with T cells each, none for a negative T, in the state the protocol starts from |
| TaskList.FreeTask | ust/threadtree/threadtree.c:168-185 | frees every stage once, in list order; a stage is only read and freed through methods that require it not to be freed yet |
| TaskList.StageNode.Work | ust/threadtree/threadtree.c:121-145 | one step of thread_worker outside the spawning loop |
| TaskList.Tree.WorkerThreadStep | ust/threadtree/threadtree.c:104-145 | one step of a worker on the heap, following next to the stage it spawns, and touching no freed stage |
| TaskList.Tree.Control | ust/threadtree/threadtree.c:200-230 | one step of the main thread on the heap: wait_task follows next, and the last step is free_task |
| TaskList.RunProgram | ust/threadtree/threadtree.c:214-234 | make_task, the threads under any schedule and free_task together: the run is that of the protocol, and a stage has been freed only if every thread of every stage has been created and has exited; then the threads are the sum of the positive stage sizes |
| Pipette.BlocksArriveIntact | src/pipette.c:153-219 | however transfers are cut and interleaved, block b arrives as it was sent, and all blocks at the end |
| Pipette.TransferCompletes | src/pipette.c:153-219 | the two sides never block together, the consumer never reads at end of file, the moves are at most the bytes in and out |
| Pipette.DoTransfer | src/pipette.c:205-219 | calls are contiguous, each for 4096 bytes or for all that is missing, whichever is less; the result is the size, or -1 after the first failing call; calls may return 0, though not for ever |
| Pipette.CallsOfTransfer | src/pipette.c:205-219 | a complete transfer makes at least size / 4096 calls, rounded up, and exactly that many if each is met in full |
| Pipette.PagesSuffice | src/pipette.c:153-219 | over a pipe that holds a request all blocks can go through with one write and one read a page |
| Pipette.SumsArriveIntact | src/pipette.c:186-197 | however transfers are cut and interleaved, the bytes of block b add up to size times the char b, which is the expected sum exactly for b < 128 |
| Pipette.RunProgram | src/pipette.c:153-200 | both processes under any schedule: the sum computed for block b is size times the char b, and all blocks have been summed when both are through |
| Pipette.SumBlock | src/pipette.c:192-195 | adds up the bytes of the buffer |
| Pipette.ExpectedSumIff | src/pipette.c:160-196 | the sum expected for block i is the actual one exactly for i < 128 |
| Pipette.StepKeepsInv | src/pipette.c:205-219 | every partial read or write keeps the pipe a window of the byte stream |
| Pipette.Processes.Produce | src/pipette.c:163-166 | a partial write takes the next bytes of the filled buffer; the buffer is refilled between blocks |
| Pipette.Processes.Consume | src/pipette.c:188-191 | a partial read puts the bytes at the offset reached |
| PinCpu.CpuSet.Parse | src/pincpu.c:18-59 | 0 exactly if every token is taken, else -1; one cell per token counted, the numbers of the taken tokens in order, no write past the cells |
| PinCpu.CpuSet.CountTokens | src/pincpu.c:29-35 | the first pass counts the tokens |
| PinCpu.ParseFailsIff | src/pincpu.c:40-55 | for numerals in the range of int, all tokens are taken exactly if each is a numeral below the limit |
| PinCpu.AcceptedIff | src/pincpu.c:41-52 | a token is taken exactly if it is a numeral whose saturated, wrapped value is below the limit |
| PinCpu.PrintedNumberTakenIff | src/pincpu.c:41-46 | a printed number of any size is taken exactly if it is below the limit after wrapping |
| PinCpu.PrintedNumberRightIff | src/pincpu.c:41-46 | the verdict on a printed number is right always within int, beyond long exactly for a negative limit, below long exactly with a CPU, and in between by its low 32 bits |
| PinCpu.WrappedNumberIsTaken | src/pincpu.c:41-46 | some number of 1 or more passes for CPU 0 with a limit of 1 |
| PinCpu.CpuSet.Dump | src/pincpu.c:61-70 | prints the comma-joined decimals between brackets |
| PinCpu.DecimalIff | src/pincpu.c:65 | a number is printed as the one text of digits without a zero in front, after a minus if it is negative, that denotes it |
| PinCpu.JoinCommas | src/pincpu.c:64-68 | the printed list has one comma fewer than numbers and none at its ends |
| PinCpu.TokensOfJoin | src/pincpu.c:64-68 | its tokens are the printed numbers in order |
| PinCpu.TokensConcat | src/pincpu.c:30-34 | the tokens of two texts with a comma between them are those of the one and then those of the other |
| PinCpu.TokenAlone | src/pincpu.c:30-34 | a text without commas is its only token, unless it is empty |
| PinCpu.NumeralIff | src/pincpu.c:41-48 | a token is a numeral exactly if it is blanks, a sign or none, and digits |
| PinCpu.BlanksAreSkipped | src/pincpu.c:41-53 | a printed number with blanks in front is taken, and for the same CPU, exactly as without them |
| PinCpu.ReadBack | src/pincpu.c:18-70 | parsing the printed list gives the list back, and succeeds exactly if all numbers are below the limit |
| Profile.TimesAreExact | src/utils.c:67-87 | time_sub and time_add are exact on normalised times, keep them normalised and undo each other |
| Profile.Clock.Add | src/utils.c:79-87 | time_add in place |
| Profile.Statistics.Total | src/utils.c:131-139 | the first loop telescopes to last minus first |
| Profile.Statistics.Compute | src/utils.c:128-149 | mean times repeat is last minus first; variance times repeat is the sum of squared distances from the mean; variance is not negative; without data nothing changes; for a repeat of 0 both are not a number |
| Profile.VarianceIdentity | src/utils.c:140-149 | that sum is the sum of squared deltas less repeat + 1 times the squared mean |
| Profile.DistancesAreZeroIff | src/utils.c:143-149 | the sum is 0 exactly if every delta is the mean, and positive otherwise |
| Profile.MeanIsAverageIff | src/utils.c:140 | the mean is the average of the deltas exactly if first and last time are equal |
| Imbalance.ThreadsStayTogether | src/imbalance.c:26-38 | barrier counts differ by at most 1; position and work depend on thread and cycle alone; positions within a cycle differ |
| Imbalance.CycleLoad | src/imbalance.c:26-33 | in its cycle i thread t is asked for ((t + i) mod T) + 1 units and then goes to the barrier |
| Imbalance.SlowestRotates | src/imbalance.c:29-35 | no thread has more than T units in a cycle, and the one with T units in cycle i is (T - 1 - i) mod T |
| Imbalance.CyclesComplete | src/imbalance.c:26-53 | no interleaving deadlocks; all threads return after exactly 4 * C * T moves with the work of C cycles |
| Imbalance.BalancedIff | src/imbalance.c:29-36 | all threads do equal work exactly if T divides C or a unit is 0 |
| Imbalance.BalancedTotal | src/imbalance.c:31-36 | the common total is (C / T) * T * (T + 1) / 2 units |
| Imbalance.Cycles.Worker | src/imbalance.c:26-38 | one step of worker and of the barrier |
| Pulse.PeriodIsSecondOverFrequency | src/pulse.c:157 | the period is 1000000 divided by the frequency, rounded towards zero |
| Pulse.BurstsEverySoMuch | src/pulse.c:154-166 | with p times the frequency a second, bursts start on multiples of p microseconds, and exactly p apart after bursts that end before that |
| Pulse.BurstsFollow | src/pulse.c:154-166 | for every positive period a burst starts after the sync block that follows the burst before it |
| Pulse.IterationsOfSeconds | src/pulse.c:144 | s seconds at frequency f make s * f bursts, as far as an int holds that |
| Pulse.BurstsAlign | src/pulse.c:154-166 | for a period that divides a second all bursts start on multiples of the period, consecutive ones exactly after bursts that fit |
| Pulse.BurstsAlignIff | src/pulse.c:154-166 | the bursts of all runs start on multiples of the period exactly if it divides a second |
| Pulse.NegativeNeverSleeps | src/pulse.c:154-166 | for a negative frequency the bursts start at once and without gaps |
| Pulse.WakesOnPeriodIff | src/pulse.c:156-162 | wake-ups are multiples of the period at all times exactly if it divides a second, as it does if the frequency does |
| Pulse.SleepRefusedIff | src/pulse.c:156-162 | the sleep is refused exactly for a negative frequency and for a frequency of 1 on a whole second |
| Pulse.PulseLoop | src/pulse.c:144-166 | for any duration and frequency the loop of main makes the specified bursts, unless it divides by a period of 0: exactly with a burst to make and a frequency beyond a million in size |
| Pulse.SleepToBoundary | src/pulse.c:156-162 | one sync block: the clock rests on the next multiple of 1000000 / frequency counted from the second, or where it was if the sleep is refused |
| Pulse.PinThreads | src/pulse.c:127-134 | slot c gets the threads whose id is c mod nrcpus, and any two slots differ by at most 1 |
| WkLock.OneOwner | rt_kernel_lock/src/lockmodule/wk_lock.c:36-58 | for any number of tasks, whoever releases: at most one file is open, and none while a task is between lock and unlock; locked implies the mutex is held; they agree while nobody is inside open or release |
| WkLock.StuckIff | rt_kernel_lock/src/lockmodule/wk_lock.c:36-58 | the calls are stuck exactly when a file is open and every task waits for the mutex |
| WkLock.NoDeadlockIff | rt_kernel_lock/src/lockmodule/wk_lock.c:36-58 | no interleaving gets stuck exactly if every task has a descriptor of its own, or there is no task |
| WkLock.UnlockerIsHolderIff | rt_kernel_lock/src/lockmodule/wk_lock.c:36-46 | the task that unlocks the mutex holds it exactly if it releases the file it opened |
| WkLock.OnlyHoldersUnlockIff | rt_kernel_lock/src/lockmodule/wk_lock.c:36-58 | only holders unlock in all interleavings exactly if every task has a descriptor of its own, or there is one task at most |
| WkLock.ExitFindsUnlocked | rt_kernel_lock/src/lockmodule/wk_lock.c:88-98 | wk_exit never finds locked set and leaves both locks free |
| WkLock.OpenSucceeds | rt_kernel_lock/src/lockmodule/wk_lock.c:48-58 | while the module is loaded any idle task without a file can open; with nobody inside and no file open it succeeds and leaves mutex and locked set |
| WkLock.ReleaseSucceeds | rt_kernel_lock/src/lockmodule/wk_lock.c:36-46 | with nobody inside an open file can be released, which leaves mutex and locked clear |
| WkLock.UnloadSucceeds | rt_kernel_lock/src/lockmodule/wk_lock.c:88-98 | the module can be unloaded exactly with nobody inside and no file open |
| WkLock.Device.CallOpen | rt_kernel_lock/src/lockmodule/wk_lock.c:49 | a task enters wk_open |
| WkLock.Device.CallRelease | rt_kernel_lock/src/lockmodule/wk_lock.c:37 | a task enters wk_release for a file it or another task opened |
| WkLock.Device.TaskStep | rt_kernel_lock/src/lockmodule/wk_lock.c:36-58 | one step of wk_open or wk_release |
| WkLock.Device.UnloadMove | rt_kernel_lock/src/lockmodule/wk_lock.c:88-98 | one step of wk_exit |
| FuncTrace.Program.CallBar | ust/functrace/functrace.c:20-29 | returns the least 2^k - 1 that is n or more after exactly k calls of baz; its result stays in int, and a call of baz overflows exactly for n > 2^29 - 1 |
| FuncTrace.Program.CallFoo | ust/functrace/functrace.c:31-38 | foo(n) calls bar(0) to bar(n - 1) in order, each with the rounds it needs, and nothing else; its trace is well nested; its result is that of bar(n - 1), or undefined for n of 0 or less; a call of baz overflows exactly for n > 2^29 |
| FuncTrace.BazCallsAre | ust/functrace/functrace.c:23-27 | round j of bar's loop calls baz(2^(j+1) - 2) |
| FuncTrace.BazCallsNested | ust/functrace/functrace.c:23-27 | the calls of baz are well nested and there are k of them |

## Left out

- Option parsing, usage text, printing other than the CPU list, CSV output and tracepoint macros: input and output only.
- CPU affinity calls, real time, allocation failure, scheduler fairness: progress is stated as "some step is enabled" with a bound on the moves.
- Threads of `pipeline.c`, `schedfreq.c` and `imbalance.c` exist from the start: a thread created late is one the schedule has not picked yet.
- The nanosleep library of `schedfreq.c`: independent sleeping loops.
- Spin: the args and threads arrays are part of the worker records, and a setitimer refusal is modelled as the end of the program.
- Spin: a worker that reads run as 1 makes no move, since its counter is never read.
- TokenRing.Experiment.constructor: needs a thread, since with none sems_init writes outside its array.
- TaskList.Tree.Control: free_task is one step, since no other thread is left by then.
- ThreadTree: what happens after a join on a slot that was never written is undefined and not modelled.
- Pipette.DoTransfer: does not model calls that all return 0 from some point on, for which the loop does not end; a read gives 0 at end of file, and Pipette.TransferCompletes shows the consumer is never there.
- Pipette.SumBlock: int overflow of the sum, which needs blocks of more than 2^24 bytes.
- Pipette: the check that size * count exceeds INT_MAX compares an int with the largest int and cannot hold.
- PinCpu: strtok and strtol are specified, not copied; the separator string is taken to be the comma alone, although the code passes the address of a single char.
- PinCpu.CpuSet.Parse: a count of CPUs below 0 before the call is not modelled.
- Profile: overflow of time_t, floating-point rounding and the final square root; variance is the value before it.
- Imbalance: int overflow of (pos + 1) * max.
- Pulse.PulseLoop: overflow of long in seconds times frequency; the conversion of that product to int is modelled.
- WkLock: the kernel's use count, which keeps the module loaded while the device is open, is the guard of the unloading step.
- WkLock: an unlock by a task that does not hold the rt_mutex frees it, as without lock debugging; priority inheritance is not modelled.
- RPC programs, socket programs, signal benchmarks, performance counters and scripts: their behaviour lies in code outside the repository.
