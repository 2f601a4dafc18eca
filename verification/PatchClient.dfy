/** The patch runner of the web page: its state, how each message from the backend changes it, and
    what is on the screen at the end of a whole run of the pipeline.

    The page closes its socket when it gets a result or an error; a message that arrives on a socket
    that is no longer open is ignored (WHATWG WebSockets Standard, "Feedback from the protocol"). */
module PatchClient {
  import opened Runs
  import opened StageMarkers
  import opened BenchmarkReports
  import opened PatchPipeline

  datatype Status = Idle | Running | Done | Failed

  type Stages = map<string, Status>

  const INITIAL_STAGES: Stages :=
    map["apply" := Idle, "build" := Idle, "boot" := Idle, "compare" := Idle, "report" := Idle]

  datatype Page = Page(stages: Stages, running: bool, output: seq<string>,
                       report: Option<map<string, Fields>>, error: Option<Message>, open: bool)

  const STARTED := Page(INITIAL_STAGES, true, [], None, None, true)

  /** `o.slice(-n)`. */
  function LastOf(lines: seq<string>, n: nat): seq<string> {
    if |lines| <= n then lines else lines[|lines| - n..]
  }

  /** `ws.onmessage`. */
  function Receive(page: Page, e: Event): Page {
    if !page.open then page
    else match e
      case StageEvent(stage, status) =>
        page.(stages := page.stages[stage := if status == "start" then Running else Done])
      case OutputEvent(line) => page.(output := LastOf(page.output, 200) + [line])
      case ResultEvent(data) => page.(report := Some(data), running := false, open := false)
      case ErrorEvent(failed, message) =>
        page.(stages := if failed.Some? then page.stages[failed.value := Failed] else page.stages,
              error := Some(message), running := false, open := false)
  }

  function ReceiveAll(page: Page, events: seq<Event>): Page
    decreases |events|
  {
    if events == [] then page else ReceiveAll(Receive(page, events[0]), events[1..])
  }

  /** The component, whose handlers update its state in place. */
  class PatchRunner {
    var stages: Stages
    var running: bool
    var output: seq<string>
    var report: Option<map<string, Fields>>
    var error: Option<Message>
    var open: bool

    constructor ()
      ensures View() == Page(INITIAL_STAGES, false, [], None, None, false)
    {
      stages, running, output, report, error, open := INITIAL_STAGES, false, [], None, None, false;
    }

    function View(): Page
      reads this
    {
      Page(stages, running, output, report, error, open)
    }

    /** `run()`, when the socket could be opened: a no-op while a run is going on. */
    method Run(patch: string)
      modifies this
      ensures View() == if old(running) || IsBlank(patch) then old(View())
                        else Page(map["apply" := Idle, "build" := Idle, "boot" := Idle, "compare" := Idle,
                                      "report" := Idle],
                                  true, [], None, None, true)
    {
      if running || IsBlank(patch) { return; }
      running := true;
      stages := INITIAL_STAGES;
      output := [];
      report := None;
      error := None;
      open := true;
    }

    method OnMessage(e: Event)
      modifies this
      ensures View() == Receive(old(View()), e)
    {
      if !open { return; }
      match e {
        case StageEvent(stage, status) =>
          stages := stages[stage := if status == "start" then Running else Done];
        case OutputEvent(line) =>
          output := LastOf(output, 200) + [line];
        case ResultEvent(data) =>
          report := Some(data);
          running := false;
          open := false;
        case ErrorEvent(failed, message) =>
          error := Some(message);
          if failed.Some? { stages := stages[failed.value := Failed]; }
          running := false;
          open := false;
      }
    }

    /** The messages of one connection, one after the other. */
    method OnMessages(events: seq<Event>)
      modifies this
      ensures View() == ReceiveAll(old(View()), events)
    {
      var n := 0;
      while n < |events|
        invariant 0 <= n <= |events|
        invariant ReceiveAll(old(View()), events) == ReceiveAll(View(), events[n..])
      {
        OnMessage(events[n]);
        assert events[n..][1..] == events[n + 1..];
        n := n + 1;
      }
    }
  }

  // ----- Folding a run -----

  /** The stage vector after the marks of a run. */
  function WithMarks(stages: Stages, marks: seq<Mark>): Stages
    decreases |marks|
  {
    if marks == [] then stages
    else WithMarks(stages[marks[0].stage := if marks[0].status == "start" then Running else Done], marks[1..])
  }

  lemma {:induction false} ReceiveConcat(page: Page, first: seq<Event>, second: seq<Event>)
    ensures ReceiveAll(page, first + second) == ReceiveAll(ReceiveAll(page, first), second)
    decreases |first|
  {
    if first == [] {
      assert first + second == second;
    } else {
      assert (first + second)[1..] == first[1..] + second;
      ReceiveConcat(Receive(page, first[0]), first[1..], second);
    }
  }

  /** The output of the process only changes the stage vector, mark by mark, and the output shown. */
  lemma {:induction false} ReceiveLines(page: Page, lines: seq<string>)
    requires page.open
    ensures var after := ReceiveAll(page, LineEvents(lines));
            after == page.(stages := WithMarks(page.stages, Marks(lines)), output := after.output)
    decreases |lines|
  {
    if lines != [] {
      var events := LineEvents(lines);
      var next := Receive(page, events[0]);
      assert events[1..] == LineEvents(lines[1..]);
      ReceiveLines(next, lines[1..]);
      if MarkOf(lines[0]).Some? {
        assert Marks(lines)[0] == MarkOf(lines[0]).value && Marks(lines)[1..] == Marks(lines[1..]);
      } else {
        assert Marks(lines) == Marks(lines[1..]);
      }
    }
  }

  /** After the last event of a run the socket is closed, and it stays as it is. */
  lemma {:induction false} ClosedIgnores(page: Page, events: seq<Event>)
    requires !page.open
    ensures ReceiveAll(page, events) == page
  {
    if events != [] { ClosedIgnores(page, events[1..]); }
  }

  /** The vector after a failure in stage `k`: earlier stages done, this one failed, later ones idle. */
  function FailedAt(k: nat): Stages {
    map["apply" := if k == 0 then Failed else Done,
        "build" := if k == 0 then Idle else if k == 1 then Failed else Done,
        "boot" := if k <= 1 then Idle else if k == 2 then Failed else Done,
        "compare" := Idle, "report" := Idle]
  }

  /** The vector after a complete run: the page has closed the socket before the report stage ends. */
  const ALL_BUT_REPORT: Stages :=
    map["apply" := Done, "build" := Done, "boot" := Done, "compare" := Done, "report" := Running]

  lemma WithMarksCons(stages: Stages, m: Mark, rest: seq<Mark>)
    ensures WithMarks(stages, [m] + rest)
         == WithMarks(stages[m.stage := if m.status == "start" then Running else Done], rest)
  {
    assert ([m] + rest)[1..] == rest;
  }

  lemma StartedAndDone(stages: Stages, name: string, rest: seq<Mark>)
    ensures WithMarks(stages, [Mark(name, "start"), Mark(name, "done")] + rest) == WithMarks(stages[name := Done], rest)
  {
    var marks := [Mark(name, "start"), Mark(name, "done")] + rest;
    assert marks == [Mark(name, "start")] + ([Mark(name, "done")] + rest);
    WithMarksCons(stages, Mark(name, "start"), [Mark(name, "done")] + rest);
    WithMarksCons(stages[name := Running], Mark(name, "done"), rest);
    assert stages[name := Running][name := Done] == stages[name := Done];
  }

  lemma JustStarted(stages: Stages, name: string)
    ensures WithMarks(stages, [Mark(name, "start")]) == stages[name := Running]
  {
    WithMarksCons(stages, Mark(name, "start"), []);
    assert [Mark(name, "start")] + [] == [Mark(name, "start")];
  }

  lemma VectorAtApply()
    ensures WithMarks(INITIAL_STAGES, [Mark("apply", "start")])["apply" := Failed] == FailedAt(0)
  {
    JustStarted(INITIAL_STAGES, "apply");
  }

  lemma VectorAtBuild()
    ensures WithMarks(INITIAL_STAGES, [Mark("apply", "start"), Mark("apply", "done"), Mark("build", "start")])
                     ["build" := Failed]
         == FailedAt(1)
  {
    var last := [Mark("build", "start")];
    StartedAndDone(INITIAL_STAGES, "apply", last);
    JustStarted(INITIAL_STAGES["apply" := Done], "build");
    assert [Mark("apply", "start"), Mark("apply", "done")] + last
        == [Mark("apply", "start"), Mark("apply", "done"), Mark("build", "start")];
  }

  lemma VectorAtBoot()
    ensures WithMarks(INITIAL_STAGES, [Mark("apply", "start"), Mark("apply", "done"), Mark("build", "start"),
                                       Mark("build", "done"), Mark("boot", "start")])["boot" := Failed] == FailedAt(2)
  {
    var last := [Mark("boot", "start")];
    var tail := [Mark("build", "start"), Mark("build", "done")] + last;
    var s1 := INITIAL_STAGES["apply" := Done];
    StartedAndDone(INITIAL_STAGES, "apply", tail);
    StartedAndDone(s1, "build", last);
    JustStarted(s1["build" := Done], "boot");
    assert [Mark("apply", "start"), Mark("apply", "done")] + tail
        == [Mark("apply", "start"), Mark("apply", "done"), Mark("build", "start"), Mark("build", "done"),
            Mark("boot", "start")];
  }

  /** The vector shown while stage `k` is running, turned into a failure, is `FailedAt(k)`. */
  lemma VectorAtFailure(a: seq<Command>, b: seq<Command>, c: seq<Command>)
    requires FailingStage(PatchStages(a, b, c)).Some?
    ensures var k := FailingStage(PatchStages(a, b, c)).value;
            && k < 3
            && WithMarks(INITIAL_STAGES, ExpectedMarks(PatchStages(a, b, c)))[STAGE_NAMES[k] := Failed] == FailedAt(k)
  {
    PatchMarks(a, b, c);
    VectorAtApply();
    VectorAtBuild();
    VectorAtBoot();
  }

  lemma VectorAtSuccess(a: seq<Command>, b: seq<Command>, c: seq<Command>)
    requires FailingStage(PatchStages(a, b, c)).None?
    ensures WithMarks(INITIAL_STAGES, ExpectedMarks(PatchStages(a, b, c)))
         == map["apply" := Done, "build" := Done, "boot" := Done, "compare" := Idle, "report" := Idle]
  {
    PatchMarks(a, b, c);
    var last := [Mark("boot", "start"), Mark("boot", "done")];
    var tail := [Mark("build", "start"), Mark("build", "done")] + last;
    assert ExpectedMarks(PatchStages(a, b, c)) == [Mark("apply", "start"), Mark("apply", "done")] + tail;
    StartedAndDone(INITIAL_STAGES, "apply", tail);
    StartedAndDone(INITIAL_STAGES["apply" := Done], "build", last);
    assert last == last + [];
    StartedAndDone(INITIAL_STAGES["apply" := Done]["build" := Done], "boot", []);
  }

  /** The page after the process's output, before the conclusion. */
  lemma PageAfterOutput(a: seq<Command>, b: seq<Command>, c: seq<Command>)
    requires Ordinary(PatchStages(a, b, c))
    ensures var page := ReceiveAll(STARTED, LineEvents(Lines(RunScript(PatchStages(a, b, c)).text)));
            page == STARTED.(stages := WithMarks(INITIAL_STAGES, ExpectedMarks(PatchStages(a, b, c))),
                             output := page.output)
  {
    MarksOfScript(PatchStages(a, b, c));
    ReceiveLines(STARTED, Lines(RunScript(PatchStages(a, b, c)).text));
  }

  /** The world in which the script ran to its end or its first failing command. */
  function WorldOf(a: seq<Command>, b: seq<Command>, c: seq<Command>): World {
    var run := RunScript(PatchStages(a, b, c));
    World(true, true, run.text, Exited(run.status), true)
  }

  /** End to end, failing run: whichever command fails, the page ends with the stages before it done,
      its own stage failed and the later ones idle, with an error and no report, no longer running. */
  lemma FailureReachesPage(patch: string, a: seq<Command>, b: seq<Command>, c: seq<Command>)
    requires !IsBlank(patch) && EncodedLength(patch) <= MAX_PATCH_BYTES
    requires Ordinary(PatchStages(a, b, c)) && FailingStage(PatchStages(a, b, c)).Some?
    ensures var page := ReceiveAll(STARTED, PipelineEvents(patch, WorldOf(a, b, c)).events);
            && page.stages == FailedAt(FailingStage(PatchStages(a, b, c)).value)
            && page.error == Some(var k := FailingStage(PatchStages(a, b, c)).value;
                                  var status := RunScript(PatchStages(a, b, c)).status;
                                  if k == 0 then ApplyRejected
                                  else if k == 1 then BuildFailed(status) else BootFailed(status))
            && page.report.None? && !page.running && !page.open
  {
    var run := RunScript(PatchStages(a, b, c));
    ScriptStatus(PatchStages(a, b, c));
    PageAfterOutput(a, b, c);
    BackendNamesFailingStage(a, b, c);
    VectorAtFailure(a, b, c);
    ReceiveLast(STARTED, LineEvents(Lines(run.text)), Attribute(run.text, run.status));
  }

  lemma ReceiveLast(page: Page, events: seq<Event>, last: Event)
    ensures ReceiveAll(page, events + [last]) == Receive(ReceiveAll(page, events), last)
  {
    ReceiveConcat(page, events, [last]);
    assert ReceiveAll(ReceiveAll(page, events), [last]) == ReceiveAll(Receive(ReceiveAll(page, events), last), []);
  }

  lemma ReceiveReport(page: Page, data: map<string, Fields>)
    requires page.open
    requires page.stages == map["apply" := Done, "build" := Done, "boot" := Done, "compare" := Idle, "report" := Idle]
    ensures ReceiveAll(page, CompareAndReport(Some(data), true).events)
         == page.(stages := ALL_BUT_REPORT, report := Some(data), running := false, open := false)
  {
    var events := CompareAndReport(Some(data), true).events;
    var compared := page.(stages := map["apply" := Done, "build" := Done, "boot" := Done, "compare" := Done,
                                        "report" := Idle]);
    TwoMore(page, StageEvent("compare", "start"), StageEvent("compare", "done"), events[2..]);
    assert events == [StageEvent("compare", "start"), StageEvent("compare", "done")] + events[2..];
    assert Receive(Receive(page, StageEvent("compare", "start")), StageEvent("compare", "done")) == compared;
    ReceiveResult(compared, data);
    assert events[2..] == [StageEvent("report", "start"), ResultEvent(data)] + [StageEvent("report", "done")];
  }

  lemma TwoMore(page: Page, a: Event, b: Event, rest: seq<Event>)
    ensures ReceiveAll(page, [a, b] + rest) == ReceiveAll(Receive(Receive(page, a), b), rest)
  {
    assert ([a, b] + rest)[1..] == [b] + rest && ([b] + rest)[1..] == rest;
  }

  lemma ReceiveResult(page: Page, data: map<string, Fields>)
    requires page.open
    requires page.stages == map["apply" := Done, "build" := Done, "boot" := Done, "compare" := Done, "report" := Idle]
    ensures ReceiveAll(page, [StageEvent("report", "start"), ResultEvent(data)] + [StageEvent("report", "done")])
         == page.(stages := ALL_BUT_REPORT, report := Some(data), running := false, open := false)
  {
    var last := Receive(Receive(page, StageEvent("report", "start")), ResultEvent(data));
    TwoMore(page, StageEvent("report", "start"), ResultEvent(data), [StageEvent("report", "done")]);
    assert last.stages == ALL_BUT_REPORT;
    ClosedIgnores(last, [StageEvent("report", "done")]);
  }

  /** End to end, successful run: the page shows the parsed numbers and is no longer running; apply,
      build, boot and compare are done, and report is still shown as running, because the page closed
      the socket on the result and the last stage event never reaches it. */
  lemma SuccessReachesPage(patch: string, a: seq<Command>, b: seq<Command>, c: seq<Command>)
    requires !IsBlank(patch) && EncodedLength(patch) <= MAX_PATCH_BYTES
    requires Ordinary(PatchStages(a, b, c)) && FailingStage(PatchStages(a, b, c)).None?
    requires ParseBenchmarkOutput(RunScript(PatchStages(a, b, c)).text).Some?
    ensures var page := ReceiveAll(STARTED, PipelineEvents(patch, WorldOf(a, b, c)).events);
            && page.stages == ALL_BUT_REPORT
            && page.report == ParseBenchmarkOutput(RunScript(PatchStages(a, b, c)).text)
            && page.error.None? && !page.running && !page.open
  {
    var world := WorldOf(a, b, c);
    var parsed := ParseBenchmarkOutput(world.text);
    var tail := CompareAndReport(parsed, true).events;
    ScriptStatus(PatchStages(a, b, c));
    PageAfterOutput(a, b, c);
    VectorAtSuccess(a, b, c);
    ReceiveConcat(STARTED, LineEvents(Lines(world.text)), tail);
    ReceiveReport(ReceiveAll(STARTED, LineEvents(Lines(world.text))), parsed.value);
  }
}
