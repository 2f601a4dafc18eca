# Kernel Sprint orchestrator: verified models

Dafny models of the backend's pipelines, relays and experiments, of the benchmark programs they run,
and of the page that shows a patch run, with proofs of the properties they rely on. Verify with
`dafny verify dfyconfig.toml`.

## How it is organised

| file | what it models |
|---|---|
| `Runs.dfy` | step machines: schedules, invariants, measures |
| `Patterns.dfy`, `Decimals.dfy` | the regular expressions and the number formats used |
| `BenchmarkReports.dfy` | the reports printed in the guest, and the parsers that read them |
| `ReportFormats.dfy` | those reports, patterns and dictionaries spelled out, key by key |
| `StageMarkers.dfy` | stage markers, and the backend's two ways of recognising them |
| `PatchPipeline.dfy`, `BenchmarkPipeline.dfy` | the `set -e` scripts and the generators that run them |
| `ScriptLogs.dfy` | what a script prints, read as a log of benchmark reports |
| `EventContents.dfy` | what the events of both pipelines carry, and how runs end |
| `PatchClient.dfy` | the page's patch runner, and whole runs seen from the page |
| `OutputPane.dfy`, `GuestToPage.dfy` | the lines on the page, and the guest's numbers on it |
| `PipeStream.dfy`, `PingPong.dfy` | the two-process pipe benchmarks |
| `EventRelay.dfy`, `MonitorRelay.dfy` | the WebSocket handlers and their worker threads |
| `NetworkDelay.dfy`, `KnobRestore.dfy` | shared state that concurrent requests acquire and restore |
| `TickPairing.dfy` | the eBPF metrics stream and its CPU accounting |
| `KillTimer.dfy` | the command time limit |
| `MutexRounds.dfy` | the thread stress test |
| `DeadlineProbe.dfy`, `LatencyStatistics.dfy` | the wake-up latency loop, and the statistics |

Programs with several processes or threads are step machines: `Step(s, a)` is the state after one
action, or `None` when the action is blocked, and `Exec` runs a schedule, that is any sequence of
actions. A statement about `Exec(Step, Initial(..), acts)` for all `acts` is a statement about every
interleaving and every reachable state. Programs with one thread of control are classes and methods
with loops, proved against functions, and the functions' own properties are lemmas.

What the operating system, the container and the clock do is given from outside: command output and
exit codes, line streams, CPU and clock readings, whether a directory could be made.

Printed measurements are natural numbers of thousandths of a microsecond, which is nanoseconds. The
C expression `(int)(n * 0.99)` is modelled as the floor of 99n/100, which it equals for every `int` n.

## Results that contradict the code's own comments

* The network-delay action promises never to leave the interface degraded. It does so exactly when
  `tc qdisc add` takes effect and its runner then times out, because the add is outside the `try`, or
  when `tc qdisc del` fails or times out, because nothing looks at its result; after either, every later
  request is refused (`NetworkDelay.CleanExactlyWithoutLeak`, `NetworkDelay.LeakBlocksForGood`).
* The scheduler experiment promises always to restore the knob. Two overlapping experiments can leave
  it at a third of its value (`KnobRestore.OverlapLosesTheKnob`);
  `KnobRestore.RestoredExactlyAtDepthZero` says, from the order of the reads and writes alone, when it
  is restored and what it holds otherwise.
* The monitor's worker promises to kill its tracer. It does so exactly when the first reading of the CPU
  counters, which stands before the `try`, succeeded; and it puts its sentinel exactly when nothing
  raised (`MonitorRelay.WorkerEnds`).
* A round of the thread stress test fails, although all its own creations succeeded, exactly when a
  thread left over from a round that was given up stores during it (`MutexRounds.RoundPassesExactly`).
* A handler whose generator raises waits for ever, and holds a thread of the executor that all
  connections share. While fewer clients do so than there are threads nobody else notices
  (`EventRelay.AllAnsweredUnlessGeneratorRaises`); as many as there are threads can starve every other
  client (`EventRelay.AsManyRaisingAsThreadsCanStarve`).
* The page never shows the report stage as done: it closes its socket on the result
  (`PatchClient.SuccessReachesPage`).
* A benchmark run whose script fails ends in a result, never in an error, and the result holds whatever
  had been printed (`BenchmarkPipeline.ErrorExactly`, `BenchmarkPipeline.ResultIsWhatWasPrinted`).
* A command can be reported as killed although it exited by itself and the timer had been cancelled
  (`KillTimer.KilledTrailerAfterOwnExit`).

## Model

| member | source | states |
|---|---|---|
| Patterns.SearchDecidesRegex | backend/agents/qemu_agent.py:55-80 | the deterministic matcher decides the backtracking regular expression: it succeeds exactly when some start of the text can be cut as the pattern says, and reports the cut at the first such start |
| Patterns.SplitIsMatch | backend/agents/qemu_agent.py:55-80 | every way to cut the text is the one found, up to the greed of the last group |
| BenchmarkReports.ParserPatternsDelimited | backend/agents/qemu_agent.py:55-80 | the parser's three patterns meet the condition under which no backtracking is needed |
| Decimals.ReadFloatOfThousandths | benchmark/process_creation.c:65-66 | what `%.3f` prints, `float()` reads back exactly |
| Decimals.ReadFloatRaises | backend/agents/qemu_agent.py:62-63 | `float()` on a captured group raises exactly on two dots or on no digit |
| Decimals.PrintedDigits | benchmark/context_switch.c:75-76 | position k from the right of a printed number is its k-th decimal digit |
| Decimals.PrintedThousandths | benchmark/process_creation.c:65-66 | `%.3f` prints whole microseconds, a dot and the three digits of the thousandths |
| ReportFormats.StatisticsLine | benchmark/process_creation.c:65-66 | the value line of both statistics programs, label by label |
| ReportFormats.PrintedProcessCreation | benchmark/process_creation.c:64 | its header line, literally |
| ReportFormats.PrintedContextSwitch | benchmark/context_switch.c:74-76 | both its lines, literally |
| ReportFormats.PrintedSchedulerLatency | benchmark/scheduler_latency.c:101-102 | its header line, literally |
| ReportFormats.ParserPatterns | backend/agents/qemu_agent.py:55-80 | the three regular expressions, item by item |
| BenchmarkReports.ParseRecoversReports | backend/agents/qemu_agent.py:52-87 | for any reports in any order between any clean noise, each key holds exactly the numbers of the first report of its kind, and is absent when there is none |
| ReportFormats.ParserFillsDictionary | backend/agents/qemu_agent.py:52-87 | for any clean log: the keys `process_creation`, `context_switch` and `scheduler_latency` are there if and only if a report of that program is, and there is no other key |
| ReportFormats.ProcessCreationSection | backend/agents/qemu_agent.py:60-64 | under `process_creation`, the five numbers of that program's first report under their own names |
| ReportFormats.ContextSwitchSection | backend/agents/qemu_agent.py:70-74 | the same for `context_switch` and its three numbers |
| ReportFormats.SchedulerLatencySection | backend/agents/qemu_agent.py:81-85 | the same for `scheduler_latency` |
| BenchmarkReports.SearchFindsFirst | backend/agents/qemu_agent.py:55-80 | each search captures the values of the first report of its kind, although two kinds have value lines of the same shape |
| BenchmarkReports.ParseRecoversGuestLog | scripts/initramfs-staging/init:9-19 | the log of the init script gives back all three reports, its framing lines being clean noise |
| BenchmarkReports.FramesAreClean | scripts/initramfs-staging/init:9-19 | the framing lines between the benchmarks disturb none of the searches |
| ReportFormats.FramingLine | scripts/initramfs-staging/init:9-19 | a framing line, literally |
| ReportFormats.FramingLines | scripts/initramfs-staging/init:11-17 | which of them stand between the benchmarks |
| ReportFormats.GuestLogText | scripts/initramfs-staging/init:9-19 | the reports and those lines in the order of the script |
| BenchmarkReports.ParseLatencyRecoversReport | backend/agents/experiments_agent.py:133-142 | the headerless search recovers the numbers of either statistics program's own output |
| ReportFormats.NoValueLine | backend/agents/experiments_agent.py:137-138 | a text without a value line gives an empty dictionary |
| StageMarkers.RecognisersAgree | backend/agents/patch_agent.py:111-133 | when no line has two markers, the joined text contains a marker exactly when the line search reported it |
| StageMarkers.RecognisersDisagree | backend/agents/qemu_agent.py:27 | with two markers on a line they do not agree: only the first is reported |
| StageMarkers.MarksAcross | backend/agents/patch_agent.py:113-119 | ordinary output, even without a final newline, followed by a marker line yields exactly that marker |
| PatchPipeline.MarksOfScript | backend/agents/patch_agent.py:32-72 | the backend sees exactly the markers a `set -e` run got to, at most one on a line |
| PatchPipeline.ScriptStatus | backend/agents/patch_agent.py:32-72 | the script exits with a failure exactly when some command fails |
| PatchPipeline.CommandsUpToFailure | backend/agents/patch_agent.py:33 | `set -e`: the output is that of the commands up to the first that fails, the status its own |
| PatchPipeline.ScriptExit | backend/agents/patch_agent.py:33-72 | the script exits with the status of the stage that failed |
| PatchPipeline.StageTexts | backend/agents/patch_agent.py:34-71 | a stage prints its start marker, its output and, if it succeeds, its done marker, literally |
| PatchPipeline.AttributionsAgree | backend/agents/patch_agent.py:111-133 | for any output with at most one marker a line, attributing a failure from the joined text and attributing it from the emitted stage events are the same |
| PatchPipeline.BackendNamesFailingStage | backend/agents/patch_agent.py:128-135 | for every failing run the error is the one of the stage whose command failed, with its exit status |
| PatchPipeline.OneTerminalEvent | backend/agents/patch_agent.py:84-171 | a run that returns has exactly one error or result, a run that raises none; nothing follows an error, and only the end of the report stage follows a result |
| EventContents.PatchEventsCarryOutput | backend/agents/patch_agent.py:111-119 | event i stands for line i of the output, with the line itself or its marker; the lines carried are exactly those without a marker, in order, and the marks carried are the marks of the text |
| EventContents.BenchmarkEventsCarryOutput | backend/agents/qemu_agent.py:108-116 | the same for the benchmark pipeline |
| EventContents.TimeOutIsError | backend/agents/patch_agent.py:120-124 | a run that times out ends in the time-limit error and no other |
| EventContents.FailureIsError | backend/agents/patch_agent.py:128-135 | a run whose process failed ends in the error of the first stage without a done event |
| EventContents.SuccessIsResult | backend/agents/patch_agent.py:137-168 | a run whose process succeeded ends in a result with what the parser found in the whole output, unless parsing or comparing raises |
| EventContents.PatchRunEnds | backend/agents/patch_agent.py:84-171 | blank and oversized patches are refused, and exactly when a run raises |
| EventContents.BenchmarkRunTerminal | backend/agents/qemu_agent.py:90-124 | which terminal event a benchmark run has, for every kernel, output and ending |
| PatchPipeline.EncodedBounds | backend/agents/patch_agent.py:88 | the size limit counts bytes: as many as characters exactly for ASCII, never more than four each |
| PatchPipeline.BlankText | backend/agents/patch_agent.py:85 | white space alone is no patch, any visible character is one |
| PatchPipeline.RunPatchPipeline | backend/agents/patch_agent.py:84-171 | for a consumer that stops after any number of events: exactly that prefix of the events, and the scratch directory is gone again |
| PatchPipeline.GuardedRegion | backend/agents/patch_agent.py:95-169 | the events, as the rows above say, cut off where the consumer stops |
| BenchmarkPipeline.RunBenchmarkPipeline | backend/agents/qemu_agent.py:90-124 | the same for the benchmark pipeline, a process that cannot be started included |
| BenchmarkPipeline.ErrorExactly | backend/agents/qemu_agent.py:90-124 | a run ends in an error exactly when the kernel is unknown or the wait timed out, and raises exactly when the process cannot be started or a captured number cannot be read |
| BenchmarkPipeline.ResultIsWhatWasPrinted | backend/agents/qemu_agent.py:102-124 | whatever the exit status, the result holds exactly the first report of each kind that the boot stage printed, and nothing when the compile stage failed |
| BenchmarkPipeline.StoppedGuestReportsOne | backend/agents/qemu_agent.py:43-48 | a guest stopped by `timeout 90` after its first benchmark ends in a result with that one section |
| BenchmarkPipeline.FailureLooksLikeEmptyResult | backend/agents/qemu_agent.py:108-124 | a run that fails before any report ends in a result without numbers, after exactly the stage events it got to |
| BenchmarkPipeline.OneTerminalEventLast | backend/agents/qemu_agent.py:90-124 | a run that returns has one terminal event, the last |
| PatchClient.PatchRunner.OnMessage | web/src/components/PatchRunner.tsx:123-141 | one message changes the page as `Receive` says, and a message on a closed socket changes nothing |
| PatchClient.PatchRunner.OnMessages | web/src/components/PatchRunner.tsx:123-141 | the messages of a connection, one after the other, are the fold that the results below speak of |
| PatchClient.PatchRunner.Run | web/src/components/PatchRunner.tsx:100-121 | a run whose socket opens resets the page, and is a no-op while one is going on |
| PatchClient.FailureReachesPage | web/src/components/PatchRunner.tsx:123-141 | script, backend and page together: earlier stages done, the failing one failed, later ones idle, the error of that stage and no report |
| PatchClient.SuccessReachesPage | web/src/components/PatchRunner.tsx:123-141 | after a successful run all stages are done but report, which still runs, and the report is what the parser found |
| OutputPane.PaneAfterRun | web/src/components/PatchRunner.tsx:128-130 | after all events of a run the pane shows the last 201 of the unmarked output lines, or all of them when there are fewer, in order |
| ScriptLogs.CleanAcrossMark | scripts/initramfs-staging/init:9-19 | markers and clean output around each other stay clean noise for all three searches |
| ScriptLogs.ScriptPrintsLog | backend/agents/patch_agent.py:32-72 | a script whose last stage prints a log of reports prints, markers and earlier output included, a log of the same reports |
| GuestToPage.GuestNumbersReachPage | backend/agents/patch_agent.py:126-168 | when the boot stage prints a guest log and the stages before it nothing like one, the numbers printed in the guest are the numbers on the page |
| GuestToPage.AnyReportsCanBePrinted | scripts/initramfs-staging/init:9-19 | for any three reports there is such a run |
| GuestToPage.SamplesReachPage | benchmark/scheduler_latency.c:91-104 | min, max, p50 and p99 of the samples of both statistics programs are on the page, exact to the nanosecond |
| PipeStream.StreamIsConserved | benchmark/ipc_throughput.c:38-67 | at every step written = received + in the pipe; the writer never meets a closed pipe and writes nothing after the reader has exited |
| PipeStream.ReadsAreChunked | benchmark/ipc_throughput.c:44-46 | a read takes from one byte to a chunk, of what is there, and sees the end exactly when the pipe is empty with no writer |
| PipeStream.WritesArePartial | benchmark/ipc_throughput.c:57-62 | a write goes in piece by piece as there is room, and fails exactly when nobody can read |
| PipeStream.NeverStuck | benchmark/ipc_throughput.c:38-67 | no deadlock, for any capacity of at least one byte and any partial reads and writes |
| PipeStream.StreamIsFinite | benchmark/ipc_throughput.c:44-63 | every run is finite, with an explicit bound |
| PipeStream.StreamCompletes | benchmark/ipc_throughput.c:21-24 | a run that cannot go on has delivered all whole chunks, less than one chunk short of the volume asked for |
| PingPong.OneProcessCanGo | benchmark/context_switch.c:40-61 | at most one byte is under way, no call fails, and exactly one process can make its next read or write |
| PingPong.CallsFailWithoutPeer | benchmark/context_switch.c:44-61 | a call fails exactly when the other process is gone and nothing is left to read, which never happens |
| PingPong.TurnsAreFixed | benchmark/context_switch.c:44-61 | the order of reads and writes is the same under every schedule |
| PingPong.PingPongCompletes | benchmark/context_switch.c:69-71 | every run ends after four reads and writes a round, with empty pipes and exactly two handoffs a round |
| EventRelay.SocketsGetTheirOwnReplies | backend/api/patch.py:26-49 | under every interleaving of all connections, a socket has been sent the whole replies to its finished requests and a prefix of the current one, and the queue is empty between requests |
| EventRelay.SentinelLeavesNothing | backend/api/benchmark.py:41-55 | a sentinel taken off a queue was alone on it |
| EventRelay.PutSlotKeepsInv | backend/api/lab.py:58-65 | a worker, which uses whatever queue its handler's variable names, only ever reaches its own request's queue |
| EventRelay.AcceptKeepsInv | backend/api/chaos.py:32-49 | taking a request, an unknown action included, keeps the replies in order |
| EventRelay.NothingSentAfterLeaving | backend/api/patch.py:48-49 | a client can leave at any moment, and nothing is sent to it from then on |
| EventRelay.AllAnsweredUnlessGeneratorRaises | backend/api/experiments.py:42-56 | while fewer clients have a raising generator than the executor has threads: when nothing more can happen, a client still there has had every reply exactly when none of its own generators raises |
| EventRelay.StarvedForGood | backend/api/patch.py:41-47 | once all threads are held for generators that raised, a connection waiting for a thread is never sent anything again |
| EventRelay.AsManyRaisingAsThreadsCanStarve | backend/api/patch.py:41-47 | for every pool size, as many raising clients as threads can bring that about, whatever the client left waiting asked |
| MonitorRelay.MonitorIsSafe | backend/api/monitor.py:23-43 | the socket gets a prefix of the metrics queued, which are those owed by the lines up to one that an exception interrupted; at most one metric is queued after the stop flag; one sentinel at most, and last |
| MonitorRelay.LinesAreProcessed | backend/agents/ebpf_agent.py:83-112 | while the client stays and nothing raises, the lines processed are the lines that arrived less the one in hand, and the metrics queued are those they owe |
| MonitorRelay.EveryMetricIsDelivered | backend/api/monitor.py:34-40 | when such a run can go no further the socket has had every metric owed, in order, and nothing else |
| MonitorRelay.WorkerStaysAtStream | backend/agents/ebpf_agent.py:83-86 | the worker leaves its stream only when the lines end, something raises, or the client is gone |
| MonitorRelay.CheckFollowsFlag | backend/agents/ebpf_agent.py:84-85 | a check breaks off only when it finds the flag set, and otherwise goes on with the line |
| MonitorRelay.AnyStreamRuns | backend/agents/ebpf_agent.py:83-112 | every stream of lines has such a run |
| MonitorRelay.DisconnectStopsRelay | backend/api/monitor.py:41-43 | the client can leave at any moment; the flag is set and nothing more is sent |
| MonitorRelay.WorkerEnds | backend/agents/ebpf_agent.py:73-113 | an ended worker has left its tracer running exactly when the first CPU reading raised, and has put one sentinel if nothing raised and none otherwise, client or no client |
| MonitorRelay.RaisesAnywhere | backend/agents/ebpf_agent.py:73-113 | where something can raise, and that only after the first reading it passes through `finally` |
| MonitorRelay.StopEndsWorker | backend/agents/ebpf_agent.py:73-113 | once the flag is set the worker makes at most six more steps, queues at most one more metric whether or not something raises, and can only end as the row above says |
| NetworkDelay.DelaysExcludeEachOther | backend/agents/chaos_agent.py:143-155 | the qdisc is there exactly while one run occupies it, never two, with that run's own delay |
| NetworkDelay.AddSucceedsExactlyWhenFree | backend/agents/chaos_agent.py:143-148 | the lock: a request can apply its delay if and only if no run occupies the interface |
| NetworkDelay.SleepingCanDelete | backend/agents/chaos_agent.py:150-155 | a run that sleeps can always give the interface back, touching no other run |
| NetworkDelay.DelayRunsThrough | backend/agents/chaos_agent.py:143-155 | a request alone on a clean interface runs through and leaves it clean |
| NetworkDelay.EndsWithoutDelay | backend/agents/chaos_agent.py:143-148 | a request refused, timed out without effect or given up changes nothing |
| NetworkDelay.DeletesItsOwn | backend/agents/chaos_agent.py:150-155 | no run deletes another's qdisc |
| NetworkDelay.CleanExactlyWithoutLeak | backend/agents/chaos_agent.py:143-155 | with no run asleep the interface is clean if and only if no add took effect and timed out and no delete failed |
| NetworkDelay.EachLeakHappens | backend/agents/chaos_agent.py:143-155 | either of the two happens to a single request that is alone |
| NetworkDelay.LeakBlocksForGood | backend/agents/chaos_agent.py:143-155 | after either leak no add succeeds |
| KnobRestore.RestoredExactlyAtDepthZero | backend/agents/experiments_agent.py:53-67 | in every state of every schedule the knob is the initial value divided by three as often as the order of the actions says, and is the initial value if and only if that is never, or it was 0 |
| KnobRestore.RestoredWhenFirstIsLast | backend/agents/experiments_agent.py:53-67 | overlapping runs restore it when the first reader of each group is the last to restore |
| KnobRestore.SequentialRunsRestore | backend/agents/experiments_agent.py:53-67 | runs that do not overlap and whose restoring writes take effect restore it wherever they are aborted |
| KnobRestore.OverlapLosesTheKnob | backend/agents/experiments_agent.py:60-67 | two overlapping runs leave any positive knob at a third |
| KnobRestore.SchedulesAreInterleavings | backend/agents/experiments_agent.py:53-67 | nothing blocks: a schedule can be executed if and only if each run's own actions follow its program, at most one reduction and one restore after the read |
| TickPairing.StreamMetrics | backend/agents/ebpf_agent.py:80-113 | the metrics are those owed by the lines before the stop flag was seen, between successive CPU readings |
| TickPairing.PairsWithLatestSwitches | backend/agents/ebpf_agent.py:87-96 | a wakeups line makes a metric exactly when a switches line precedes it with no wakeups line between, and takes the latest one's count |
| TickPairing.NoLineUsedTwice | backend/agents/ebpf_agent.py:87-111 | the lines of different metrics are different |
| TickPairing.OnePairPerInterval | backend/agents/ebpf_agent.py:13-29 | printed intervals with any noise give exactly one pair each, in order |
| TickPairing.PrintedLines | backend/agents/ebpf_agent.py:24-29 | the two lines of a tick, literally |
| TickPairing.SwitchesComeFirst | backend/agents/ebpf_agent.py:87-90 | a line with a switches count is a switches line whatever else it holds |
| TickPairing.MetricsCarryPairs | backend/agents/ebpf_agent.py:98-111 | each metric carries its own pair and lies between its own two readings |
| TickPairing.DeltasTelescope | backend/agents/ebpf_agent.py:98-102 | the total and idle deltas of all metrics add up to last minus first |
| TickPairing.PercentagesInRange | backend/agents/ebpf_agent.py:101 | with growing counters every percentage lies in 0..100 |
| TickPairing.PercentIsBusyShare | backend/agents/ebpf_agent.py:99-101 | a percentage is the share of the time passed that was not idle, and 0 when none passed |
| TickPairing.BusyTimeIsConserved | backend/agents/ebpf_agent.py:98-102 | the percentages weighted with their time add up to the whole busy time |
| KillTimer.TrailerTellsTheTruth | backend/agents/docker_agent.py:107-125 | all lines, then exactly one trailer; it says killed whenever the kill ended the command, and an exit code is always the command's own |
| KillTimer.FiredTimerHasEnded | backend/agents/docker_agent.py:109-111 | once the timer has killed, the command is over |
| KillTimer.OrdinaryRun | backend/agents/docker_agent.py:107-125 | a command that exits in time: all it printed, then its exit code, for any output and code |
| KillTimer.KilledRun | backend/agents/docker_agent.py:107-125 | one that does not: all it printed, then that it was killed |
| KillTimer.KilledExactlyWhenFlagged | backend/agents/docker_agent.py:109-125 | it says killed exactly when the timer set its flag before the reader looked |
| KillTimer.KilledTrailerAfterOwnExit | backend/agents/docker_agent.py:109-125 | it can say so of a command that exited by itself, even after the cancellation has returned |
| MutexRounds.MutexExcludes | benchmark/stress_test.c:38-44 | at most one thread is in the critical section |
| MutexRounds.RoundsAreExact | benchmark/stress_test.c:78-96 | while every creation succeeds, the counter is the number of completed stores, is N after the joins, and no round fails |
| MutexRounds.RoundPassesExactly | benchmark/stress_test.c:78-96 | for every N and schedule, a round that reaches its comparison passes if and only if no thread created before it stores during it |
| MutexRounds.RoundIsFinite | benchmark/stress_test.c:78-96 | under any schedule a round whose creations succeed takes at most six steps a thread and four for each thread left over, and cannot stop before its comparison |
| MutexRounds.TestPassesExactly | benchmark/stress_test.c:113-120 | the rounds report no failure if and only if no creation failed |
| MutexRounds.FailedCreationSpoilsNextRound | benchmark/stress_test.c:81-95 | an example of a round spoilt by a thread left over |
| DeadlineProbe.Timespec.AddNs | benchmark/scheduler_latency.c:41-47 | adds exactly `ns`, and the result is normalised exactly when no borrow is needed |
| DeadlineProbe.Probe | benchmark/scheduler_latency.c:71-84 | no drift: the target after k iterations is the start plus k intervals, normalised, and each sample is the lateness against its own deadline, or 0 |
| LatencyStatistics.OrderedIsUnique | benchmark/scheduler_latency.c:49-52 | sorted results depend only on the multiset of samples |
| LatencyStatistics.Summarise | benchmark/process_creation.c:54-62 | sorts in place and returns the summary of the samples |
| LatencyStatistics.SummaryInOrder | benchmark/scheduler_latency.c:91-99 | min ≤ p50 ≤ p99 ≤ max are samples, every sample and the mean lie between the extremes |
| LatencyStatistics.SummaryRanks | benchmark/scheduler_latency.c:98-99 | among the unsorted samples p50 has rank n/2 and p99 rank 99n/100: at most that many lie below, more than that many do not exceed it; at most (n-1)/100 exceed p99 |
| LatencyStatistics.RankIsUnique | benchmark/process_creation.c:61-62 | only one value has a given rank |
| LatencyStatistics.SummarySum | benchmark/scheduler_latency.c:91-95 | the sum is that of the samples as measured, the count is theirs |
| LatencyStatistics.SumConcat | benchmark/process_creation.c:55-58 | summing in parts and adding up is summing |
| LatencyStatistics.SummaryIgnoresOrder | benchmark/process_creation.c:54-62 | any reordering of the samples gives the same summary |
| LatencyStatistics.SummaryReadBack | benchmark/process_creation.c:58-66 | min, max, p50 and p99 of the samples come back from either program's printed report, exact to the nanosecond |
| LatencyStatistics.SamplesReadBackFromGuest | benchmark/scheduler_latency.c:95-104 | the same for both programs at once, through the whole guest log |

## Left out

- The programs with several processes or threads are modelled on values, not as classes: a state is a
  value and a step a function, so that all interleavings can be quantified over. Nothing of their order
  or sharing is lost; memory-model effects below the level of single loads and stores are.
- `\d` and `\w` stand for ASCII digits and word characters; Python's also match other Unicode ones.
- A context-switch report of zero duration prints `inf` or `nan`, which the parser does not match; only
  finite values are modelled.
- The text of error messages, among it the line picked from a failed `git apply`, and the percentage
  changes against the stored baseline: only whether they could be computed.
- A failing removal of the scratch directory.
- PatchClient.PatchRunner.Run: does not model a socket that fails to open or takes two seconds to, which
  starts the demo mode.
- A guest stopped in the middle of printing a report.
- The lengths of the executor's waits: a free thread may serve any handler that waits, and the monitor's
  handlers, which hold a thread too, count as clients with one request.
- The page's trimming of the patch text is taken to be the backend's.
- The demo mode of the page and everything it draws.
- The other chaos actions, the fork half of the stress test, and the thresholds and clamps: their
  properties are one-line facts.
- How means and percentages are rounded, and 32- and 64-bit overflow of byte and nanosecond counts.
- The scheduler change itself, whose code is not part of this model.
