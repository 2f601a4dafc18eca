/** From the samples measured in the guest to the report on the page: printers, script, parser, pipeline
    and client together. */
module GuestToPage {
  import opened Runs
  import opened StageMarkers
  import opened BenchmarkReports
  import opened LatencyStatistics
  import opened PatchPipeline
  import opened ScriptLogs
  import opened PatchClient

  lemma PatchStageAt(a: seq<Command>, b: seq<Command>, c: seq<Command>)
    ensures var stages := PatchStages(a, b, c);
            |stages| == 3 && stages[0].commands == a && stages[1].commands == b && stages[2].commands == c
  {
  }

  lemma {:induction false} StagesSucceed(stages: seq<Stage>)
    requires FailingStage(stages).None?
    ensures forall i :: 0 <= i < |stages| ==> RunCommands(stages[i].commands).status == 0
  {
    if stages != [] {
      CommandsStatus(stages[0].commands);
      StagesSucceed(stages[1..]);
      assert forall i :: 0 < i < |stages| ==> stages[i] == stages[1..][i - 1];
    }
  }

  /** A run in whose boot stage the guest printed its log, and whose other stages printed nothing like it. */
  predicate PrintsGuestLog(a: seq<Command>, b: seq<Command>, c: seq<Command>,
                           boot: string, process: Report, switch: Report, latency: Report, shutdown: string) {
    && Ordinary(PatchStages(a, b, c)) && FailingStage(PatchStages(a, b, c)).None?
    && Clean(RunCommands(a).text) && Clean(RunCommands(b).text) && Clean(boot) && Clean(shutdown)
    && process.ProcessCreation? && switch.ContextSwitch? && latency.SchedulerLatency?
    && RunCommands(c).text == GuestLog(boot, process, switch, latency, shutdown)
  }

  lemma GuestEntriesAreClean(boot: string, process: Report, switch: Report, latency: Report, shutdown: string)
    requires Clean(boot) && Clean(shutdown)
    ensures CleanLog(boot, ThreeEntries(process, switch, latency, shutdown))
  {
    FramesAreClean();
    ThreeAreClean(boot, Entry(process, Between(ProcessCreationKind, ContextSwitchKind)),
                  Entry(switch, Between(ContextSwitchKind, SchedulerLatencyKind)), Entry(latency, shutdown));
  }

  lemma ThreeAreClean(boot: string, x: Entry, y: Entry, z: Entry)
    requires Clean(boot) && Clean(x.noise) && Clean(y.noise) && Clean(z.noise)
    ensures CleanLog(boot, [x] + ([y] + [z]))
  {
    var all := [x] + ([y] + [z]);
    forall i | 0 <= i < |all| ensures Clean(all[i].noise) { assert all[i] in {x, y, z}; }
  }

  lemma GuestEntriesInOrder(process: Report, switch: Report, latency: Report, shutdown: string)
    requires process.ProcessCreation? && switch.ContextSwitch? && latency.SchedulerLatency?
    ensures var all := ThreeEntries(process, switch, latency, shutdown);
            && First(ProcessCreationKind, all) == Some(process) && First(ContextSwitchKind, all) == Some(switch)
            && First(SchedulerLatencyKind, all) == Some(latency)
  {
    FirstOfThree(Entry(process, Between(ProcessCreationKind, ContextSwitchKind)),
                 Entry(switch, Between(ContextSwitchKind, SchedulerLatencyKind)), Entry(latency, shutdown));
  }

  lemma PatchPrintsLog(a: seq<Command>, b: seq<Command>, c: seq<Command>, noise: string, entries: seq<Entry>)
    returns (before: string, all: seq<Entry>)
    requires Ordinary(PatchStages(a, b, c)) && FailingStage(PatchStages(a, b, c)).None?
    requires Clean(RunCommands(a).text) && Clean(RunCommands(b).text)
    requires RunCommands(c).text == Log(noise, entries) && CleanLog(noise, entries)
    ensures CleanLog(before, all) && RunScript(PatchStages(a, b, c)).text == Log(before, all)
    ensures forall k :: First(k, all) == First(k, entries)
  {
    PatchStageAt(a, b, c);
    var stages := PatchStages(a, b, c);
    StagesSucceed(stages);
    before, all := ScriptPrintsLog(stages, noise, entries);
  }

  lemma ScriptPrintsGuestLog(a: seq<Command>, b: seq<Command>, c: seq<Command>,
                             boot: string, process: Report, switch: Report, latency: Report, shutdown: string)
    returns (before: string, all: seq<Entry>)
    requires PrintsGuestLog(a, b, c, boot, process, switch, latency, shutdown)
    ensures CleanLog(before, all) && RunScript(PatchStages(a, b, c)).text == Log(before, all)
    ensures First(ProcessCreationKind, all) == Some(process) && First(ContextSwitchKind, all) == Some(switch)
    ensures First(SchedulerLatencyKind, all) == Some(latency)
  {
    GuestLogIsLog(boot, process, switch, latency, shutdown);
    GuestEntriesAreClean(boot, process, switch, latency, shutdown);
    GuestEntriesInOrder(process, switch, latency, shutdown);
    before, all := PatchPrintsLog(a, b, c, boot, ThreeEntries(process, switch, latency, shutdown));
  }

  /** From the guest's printed numbers to the page: when the boot stage of a successful run prints a guest log
      and the stages before it nothing that looks like one, the page reports exactly the numbers printed. */
  lemma GuestNumbersReachPage(patch: string, a: seq<Command>, b: seq<Command>, c: seq<Command>,
                              boot: string, process: Report, switch: Report, latency: Report, shutdown: string)
    requires !IsBlank(patch) && EncodedLength(patch) <= MAX_PATCH_BYTES
    requires PrintsGuestLog(a, b, c, boot, process, switch, latency, shutdown)
    ensures var report := ReceiveAll(STARTED, PipelineEvents(patch, WorldOf(a, b, c)).events).report;
            && report.Some?
            && SectionOf(report.value, ProcessCreationKind) == Some(FieldsOf(process))
            && SectionOf(report.value, ContextSwitchKind) == Some(FieldsOf(switch))
            && SectionOf(report.value, SchedulerLatencyKind) == Some(FieldsOf(latency))
  {
    var before, all := ScriptPrintsGuestLog(a, b, c, boot, process, switch, latency, shutdown);
    ParseRecoversReports(before, all, ProcessCreationKind);
    ParseRecoversReports(before, all, ContextSwitchKind);
    ParseRecoversReports(before, all, SchedulerLatencyKind);
    SuccessReachesPage(patch, a, b, c);
  }

  /** There is such a run for any three reports. */
  lemma AnyReportsCanBePrinted(process: Report, switch: Report, latency: Report)
    requires process.ProcessCreation? && switch.ContextSwitch? && latency.SchedulerLatency?
    ensures PrintsGuestLog([], [], [Command(GuestLog("", process, switch, latency, ""), 0)],
                           "", process, switch, latency, "")
  {
    var log := GuestLog("", process, switch, latency, "");
    NothingIsClean();
    GuestLogIsQuiet("", process, switch, latency, "");
    OneCommand(log);
    OneCommandSucceeds(log);
  }

  lemma OneCommand(output: string)
    ensures RunCommands([Command(output, 0)]) == ScriptRun(output, 0)
  {
    assert RunCommands([Command(output, 0)][1..]) == ScriptRun("", 0) && output + "" == output;
  }

  /** A script whose only command prints ordinary output and succeeds. */
  lemma OneCommandSucceeds(output: string)
    requires Quiet(output)
    ensures Ordinary(PatchStages([], [], [Command(output, 0)]))
    ensures FailingStage(PatchStages([], [], [Command(output, 0)])).None?
  {
    StatusWords();
    NothingIsQuiet();
    OneCommand(output);
    var last := [Stage("boot", [Command(output, 0)])] + [];
    var rest := [Stage("build", [])] + last;
    assert last[1..] == [] && FailingStage(last).None?;
    assert rest[1..] == last && FailingStage(rest).None?;
    assert PatchStages([], [], [Command(output, 0)])[1..] == rest;
  }

  /** From the samples measured in the guest to the page, exact to the nanosecond. */
  lemma SamplesReachPage(patch: string, a: seq<Command>, b: seq<Command>, c: seq<Command>, boot: string,
                         process: seq<int>, processMean: nat, switch: Report, latency: seq<int>, latencyMean: nat,
                         intervalUs: int, ncpus: int, shutdown: string)
    requires !IsBlank(patch) && EncodedLength(patch) <= MAX_PATCH_BYTES
    requires process != [] && latency != [] && NonNegative(SummaryOf(process)) && NonNegative(SummaryOf(latency))
    requires PrintsGuestLog(a, b, c, boot, ProcessReport(SummaryOf(process), processMean), switch,
                            LatencyReport(SummaryOf(latency), latencyMean, intervalUs, ncpus), shutdown)
    ensures var report := ReceiveAll(STARTED, PipelineEvents(patch, WorldOf(a, b, c)).events).report;
            && report.Some?
            && ReadsBack(SummaryOf(process), SectionOf(report.value, ProcessCreationKind))
            && ReadsBack(SummaryOf(latency), SectionOf(report.value, SchedulerLatencyKind))
  {
    var p, l := SummaryOf(process), SummaryOf(latency);
    GuestNumbersReachPage(patch, a, b, c, boot, ProcessReport(p, processMean), switch,
                          LatencyReport(l, latencyMean, intervalUs, ncpus), shutdown);
    FieldsReadBack(p, processMean);
    FieldsReadBack(l, latencyMean);
  }
}
