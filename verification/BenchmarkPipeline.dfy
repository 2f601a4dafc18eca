/** The benchmark pipeline: the same event loop as the patch pipeline's over a script of two stages, but
    the exit status of the process is never looked at. */
module BenchmarkPipeline {
  import opened Runs
  import opened Patterns
  import opened StageMarkers
  import opened BenchmarkReports
  import opened PatchPipeline
  import opened ScriptLogs

  /** What follows the output: a time-out is an error, anything else is parsed, whatever the exit code. */
  function Outcome(parsed: Option<map<string, Fields>>, wait: Wait): Generated {
    if wait.TimedOut? then Generated([ErrorEvent(None, TimeLimit)], Finished)
    else if parsed.None? then Generated([], Raised)
    else Generated([ResultEvent(parsed.value)], Finished)
  }

  /** All the events of `run_benchmark_pipeline`; `launched` is whether its process could be started. */
  function BenchmarkEvents(kernel: string, launched: bool, text: string, wait: Wait): Generated {
    if kernel !in {"baseline", "optimized"} then Generated([ErrorEvent(None, UnknownKernel)], Finished)
    else if !launched then Generated([], Raised)
    else
      var outcome := Outcome(ParseBenchmarkOutput(text), wait);
      Generated(LineEvents(Lines(text)) + outcome.events, outcome.ending)
  }

  /** The one event after the output. */
  method Conclude(parsed: Option<map<string, Fields>>, wait: Wait, before: seq<Event>, demand: nat)
    returns (events: seq<Event>, ending: Ending)
    requires |before| < demand
    ensures var outcome := Outcome(parsed, wait);
            Served(events, ending, demand, Generated(before + outcome.events, outcome.ending))
  {
    ghost var all := before + Outcome(parsed, wait).events;
    var closed: bool;
    if wait.TimedOut? {
      events, closed := Yield(before, ErrorEvent(None, TimeLimit), demand, all);
    } else if parsed.None? {
      return before, Raised;
    } else {
      events, closed := Yield(before, ResultEvent(parsed.value), demand, all);
    }
    ending := if closed then Closed else Finished;
  }

  /** `run_benchmark_pipeline`, consumed for at most `demand` events. */
  method RunBenchmarkPipeline(kernel: string, launched: bool, text: string, wait: Wait, demand: nat)
    returns (events: seq<Event>, ending: Ending)
    ensures Served(events, ending, demand, BenchmarkEvents(kernel, launched, text, wait))
  {
    events := [];
    if demand == 0 { return events, Closed; }
    var closed: bool;
    if kernel !in {"baseline", "optimized"} {
      ghost var all := BenchmarkEvents(kernel, launched, text, wait).events;
      events, closed := Yield(events, ErrorEvent(None, UnknownKernel), demand, all);
      return events, if closed then Closed else Finished;
    }
    if !launched { return events, Raised; }
    var fullOutput;
    events, fullOutput, closed := ReadOutput(Lines(text), demand);
    if closed { return events, Closed; }
    JoinLines(text);
    events, ending := Conclude(ParseBenchmarkOutput(Join(fullOutput)), wait, events, demand);
  }

  /** `PIPELINE_SCRIPT` of the benchmark pipeline. */
  function BenchmarkStages(compiling: seq<Command>, booting: seq<Command>): seq<Stage> {
    [Stage("compile", compiling)] + ([Stage("boot", booting)] + [])
  }

  /** The event grammar: a run that returns has one terminal event, the last one. */
  lemma {:induction false} OneTerminalEventLast(kernel: string, launched: bool, text: string, wait: Wait)
    requires BenchmarkEvents(kernel, launched, text, wait).ending == Finished
    ensures var events := BenchmarkEvents(kernel, launched, text, wait).events;
            events != [] && Terminal(events[|events| - 1]) && forall i :: 0 <= i < |events| - 1 ==> !Terminal(events[i])
  {
    if kernel in {"baseline", "optimized"} { LinesAreNotTerminal(Lines(text)); }
  }

  /** A run ends in an error exactly when the kernel is unknown or waiting for the process timed out, never
      because the script failed; and it raises exactly when the process cannot be started or a captured
      number cannot be read. */
  lemma {:induction false} ErrorExactly(kernel: string, launched: bool, text: string, wait: Wait)
    ensures var run := BenchmarkEvents(kernel, launched, text, wait);
            var known := kernel in {"baseline", "optimized"};
            && ((exists e :: e in run.events && e.ErrorEvent?) <==> !known || (launched && wait.TimedOut?))
            && (run.ending == Raised <==>
                  known && (!launched || (wait.Exited? && ParseBenchmarkOutput(text).None?)))
            && (run.ending != Raised ==> run.ending == Finished)
  {
    var run := BenchmarkEvents(kernel, launched, text, wait);
    LinesAreNotTerminal(Lines(text));
    if kernel !in {"baseline", "optimized"} {
      assert run.events[0].ErrorEvent?;
    } else if launched && wait.TimedOut? {
      assert run.events[|Lines(text)|].ErrorEvent?;
    }
  }

  /** Whatever the script's exit status, a run ends in a result that holds exactly the reports printed: for a
      guest stopped half way, the sections of the benchmarks that had reported, and no others. */
  lemma ResultIsWhatWasPrinted(kernel: string, compiling: seq<Command>, booting: seq<Command>,
                               noise: string, entries: seq<Entry>, k: Kind)
    requires kernel in {"baseline", "optimized"}
    requires Ordinary(BenchmarkStages(compiling, booting)) && Clean(RunCommands(compiling).text)
    requires RunCommands(booting).text == Log(noise, entries) && CleanLog(noise, entries)
    ensures var run := RunScript(BenchmarkStages(compiling, booting));
            var generated := BenchmarkEvents(kernel, true, run.text, Exited(run.status));
            var n := |Lines(run.text)|;
            && generated.ending == Finished && |generated.events| == n + 1
            && generated.events[n].ResultEvent?
            && SectionOf(generated.events[n].data, k)
               == (if RunCommands(compiling).status != 0 then None
                   else match First(k, entries) case None => None case Some(r) => Some(FieldsOf(r)))
  {
    var stages := BenchmarkStages(compiling, booting);
    BootIsLast(compiling, booting);
    if RunCommands(compiling).status != 0 {
      CompileFails(compiling, booting);
      ParseOfCleanText(RunScript(stages).text);
    } else {
      var before, all := ScriptPrintsLog(stages, noise, entries);
      ParseRecoversReports(before, all, k);
    }
  }

  lemma BootIsLast(compiling: seq<Command>, booting: seq<Command>)
    ensures var stages := BenchmarkStages(compiling, booting);
            |stages| == 2 && stages[0] == Stage("compile", compiling) && stages[1] == Stage("boot", booting)
  {
  }

  /** When the build of the guest fails, the output is clean. */
  lemma CompileFails(compiling: seq<Command>, booting: seq<Command>)
    requires Clean(RunCommands(compiling).text) && RunCommands(compiling).status != 0
    requires Ordinary(BenchmarkStages(compiling, booting))
    ensures Clean(RunScript(BenchmarkStages(compiling, booting)).text)
  {
    StatusWords();
    NothingIsClean();
    BootIsLast(compiling, booting);
    CleanAcrossMark("", Mark("compile", "start"), RunCommands(compiling).text);
    var text := RunCommands(compiling).text;
    assert "" + (MarkLine(Mark("compile", "start")) + text) == MarkLine(Mark("compile", "start")) + text;
  }

  lemma ParseOfCleanText(text: string)
    requires Clean(text)
    ensures ParseBenchmarkOutput(text) == Some(map[])
  {
    assert Log(text, []) == text;
    ParseSectionOfLog(ProcessCreationKind, text, []);
    ParseSectionOfLog(ContextSwitchKind, text, []);
    ParseSectionOfLog(SchedulerLatencyKind, text, []);
  }

  /** In particular a failure before any report looks like an empty result, after exactly the stage events
      the script got to. */
  lemma FailureLooksLikeEmptyResult(kernel: string, compiling: seq<Command>, booting: seq<Command>)
    requires kernel in {"baseline", "optimized"}
    requires Ordinary(BenchmarkStages(compiling, booting)) && FailingStage(BenchmarkStages(compiling, booting)).Some?
    requires Clean(RunCommands(compiling).text) && Clean(RunCommands(booting).text)
    ensures var run := RunScript(BenchmarkStages(compiling, booting));
            var generated := BenchmarkEvents(kernel, true, run.text, Exited(run.status));
            && run.status != 0 && generated.ending == Finished
            && generated.events == LineEvents(Lines(run.text)) + [ResultEvent(map[])]
            && Marks(Lines(run.text)) == ExpectedMarks(BenchmarkStages(compiling, booting))
  {
    ScriptStatus(BenchmarkStages(compiling, booting));
    MarksOfScript(BenchmarkStages(compiling, booting));
    NothingIsParsed(compiling, booting);
  }

  lemma NothingIsParsed(compiling: seq<Command>, booting: seq<Command>)
    requires Ordinary(BenchmarkStages(compiling, booting))
    requires Clean(RunCommands(compiling).text) && Clean(RunCommands(booting).text)
    ensures ParseBenchmarkOutput(RunScript(BenchmarkStages(compiling, booting)).text) == Some(map[])
  {
    var stages := BenchmarkStages(compiling, booting);
    BootIsLast(compiling, booting);
    if RunCommands(compiling).status != 0 {
      CompileFails(compiling, booting);
      ParseOfCleanText(RunScript(stages).text);
    } else {
      assert Log(RunCommands(booting).text, []) == RunCommands(booting).text;
      var before, all := ScriptPrintsLog(stages, RunCommands(booting).text, []);
      NoReports(before, all);
    }
  }

  lemma NoReports(before: string, all: seq<Entry>)
    requires CleanLog(before, all) && forall k :: First(k, all) == First(k, [])
    ensures ParseBenchmarkOutput(Log(before, all)) == Some(map[])
  {
    ParseSectionOfLog(ProcessCreationKind, before, all);
    ParseSectionOfLog(ContextSwitchKind, before, all);
    ParseSectionOfLog(SchedulerLatencyKind, before, all);
  }

  /** What a guest has printed that is stopped while the second benchmark is at work, and the boot stage. */
  function StoppedOutput(boot: string, r: Report): string {
    boot + (Print(r) + Between(ProcessCreationKind, ContextSwitchKind))
  }

  function Stopped(output: string): seq<Command> { [Command(output, 124)] }

  /** The ordinary case of that: a guest stopped by the script's own time limit while the second benchmark was
      at work ends in a result with the first one's numbers. */
  lemma StoppedGuestReportsOne(kernel: string, boot: string, r: Report, k: Kind)
    requires kernel in {"baseline", "optimized"} && r.ProcessCreation? && Clean(boot) && Lacks('@', boot)
    ensures var run := RunScript(BenchmarkStages([], Stopped(StoppedOutput(boot, r))));
            var generated := BenchmarkEvents(kernel, true, run.text, Exited(run.status));
            var n := |Lines(run.text)|;
            && run.status == 124 && |generated.events| == n + 1 && generated.events[n].ResultEvent?
            && SectionOf(generated.events[n].data, k) == if k == ProcessCreationKind then Some(FieldsOf(r)) else None
  {
    var output, entries := StoppedOutput(boot, r), StoppedEntries(r);
    StoppedLog(boot, r);
    StoppedIsOrdinary(output);
    StoppedStatus(output);
    FirstOfStopped(k, r);
    ResultIsWhatWasPrinted(kernel, [], Stopped(output), boot, entries, k);
  }

  function StoppedEntries(r: Report): seq<Entry> { [Entry(r, Between(ProcessCreationKind, ContextSwitchKind))] }

  lemma FirstOfStopped(k: Kind, r: Report)
    requires r.ProcessCreation?
    ensures First(k, StoppedEntries(r)) == if k == ProcessCreationKind then Some(r) else None
  {
    assert First(k, StoppedEntries(r)[1..]) == None;
  }

  lemma StoppedLog(boot: string, r: Report)
    requires Clean(boot) && Lacks('@', boot)
    ensures StoppedOutput(boot, r) == Log(boot, StoppedEntries(r)) && CleanLog(boot, StoppedEntries(r))
    ensures Quiet(StoppedOutput(boot, r))
  {
    var between := Between(ProcessCreationKind, ContextSwitchKind);
    FramesAreClean();
    LogCons(boot, r, between, []);
    assert StoppedEntries(r) + [] == StoppedEntries(r) && between + "" == between;
    PrintLacksAt(r);
    BetweenLacks('@', ProcessCreationKind, ContextSwitchKind);
    LacksConcat('@', Print(r), between);
    LacksConcat('@', boot, Print(r) + between);
    LacksIsQuiet(StoppedOutput(boot, r));
  }

  lemma StoppedIsOrdinary(output: string)
    requires Quiet(output)
    ensures Ordinary(BenchmarkStages([], Stopped(output))) && RunCommands(Stopped(output)).text == output
    ensures Clean(RunCommands([]).text) && RunCommands([]).status == 0
  {
    NothingIsQuiet();
    NothingIsClean();
    BootIsLast([], Stopped(output));
    assert IsWord("compile") && IsWord("boot");
  }

  lemma StoppedStatus(output: string)
    ensures RunScript(BenchmarkStages([], Stopped(output))).status == 124
  {
    BootIsLast([], Stopped(output));
    assert BenchmarkStages([], Stopped(output))[1..] == [Stage("boot", Stopped(output))];
  }
}
