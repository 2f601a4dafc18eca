/** The patch pipeline: a `set -e` script of stages, and the generator that runs it in a container
    and turns its output into events.

    What the operating system does is given: what each command prints and returns, whether the
    scratch directory could be made, whether the process could be started, how waiting for it
    ended, and whether the comparison with the stored baseline could be computed. */
module PatchPipeline {
  import opened Runs
  import opened Patterns
  import opened StageMarkers
  import opened BenchmarkReports

  // ----- The script -----

  datatype Command = Command(output: string, status: int)

  datatype Stage = Stage(name: string, commands: seq<Command>)

  /** What a script printed and its exit status. */
  datatype ScriptRun = ScriptRun(text: string, status: int)

  /** Commands one after the other, up to the first that fails (`set -e`). */
  function RunCommands(commands: seq<Command>): ScriptRun {
    if commands == [] then ScriptRun("", 0)
    else if commands[0].status != 0 then ScriptRun(commands[0].output, commands[0].status)
    else
      var rest := RunCommands(commands[1..]);
      ScriptRun(commands[0].output + rest.text, rest.status)
  }

  /** The outputs of some commands, one after the other. */
  function Outputs(commands: seq<Command>): string {
    if commands == [] then "" else commands[0].output + Outputs(commands[1..])
  }

  /** Each stage between its two markers. */
  function RunScript(stages: seq<Stage>): ScriptRun {
    if stages == [] then ScriptRun("", 0)
    else
      var name := stages[0].name;
      var body := RunCommands(stages[0].commands);
      if body.status != 0 then ScriptRun(MarkLine(Mark(name, "start")) + body.text, body.status)
      else
        var rest := RunScript(stages[1..]);
        ScriptRun(MarkLine(Mark(name, "start")) + (body.text + (MarkLine(Mark(name, "done")) + rest.text)), rest.status)
  }

  /** Index of the first stage one of whose commands fails. */
  function FailingStage(stages: seq<Stage>): Option<nat> {
    if stages == [] then None
    else if exists i :: 0 <= i < |stages[0].commands| && stages[0].commands[i].status != 0 then Some(0)
    else match FailingStage(stages[1..])
      case None => None
      case Some(k) => Some(k + 1)
  }

  /** Stages with proper names whose commands print no marker text. */
  predicate Ordinary(stages: seq<Stage>) {
    forall i :: 0 <= i < |stages| ==> IsWord(stages[i].name) && Quiet(RunCommands(stages[i].commands).text)
  }

  /** The markers a run prints: start and done of every stage before the failing one, and its start. */
  function ExpectedMarks(stages: seq<Stage>): seq<Mark> {
    if stages == [] then []
    else if RunCommands(stages[0].commands).status != 0 then [Mark(stages[0].name, "start")]
    else [Mark(stages[0].name, "start")] + ([Mark(stages[0].name, "done")] + ExpectedMarks(stages[1..]))
  }

  /** `PIPELINE_SCRIPT` of the patch pipeline. */
  function PatchStages(applying: seq<Command>, building: seq<Command>, booting: seq<Command>): seq<Stage> {
    [Stage("apply", applying)] + ([Stage("build", building)] + ([Stage("boot", booting)] + []))
  }

  lemma {:induction false} CommandsStatus(commands: seq<Command>)
    ensures RunCommands(commands).status != 0 <==> exists i :: 0 <= i < |commands| && commands[i].status != 0
  {
    if commands != [] {
      CommandsStatus(commands[1..]);
      if exists i :: 0 < i < |commands| && commands[i].status != 0 {
        var i :| 0 < i < |commands| && commands[i].status != 0;
        assert commands[1..][i - 1].status != 0;
      }
      if commands[0].status == 0 && RunCommands(commands[1..]).status != 0 {
        var i :| 0 <= i < |commands[1..]| && commands[1..][i].status != 0;
        assert commands[i + 1].status != 0;
      }
    }
  }

  /** `set -e`, command by command: when command `k` is the first to fail, the output is that of the commands up
      to it and the status is its own; when none fails, all of them have run. */
  lemma {:induction false} CommandsUpToFailure(commands: seq<Command>, k: nat)
    requires k <= |commands| && (forall i :: 0 <= i < k ==> commands[i].status == 0)
    requires k < |commands| ==> commands[k].status != 0
    ensures RunCommands(commands)
         == if k < |commands| then ScriptRun(Outputs(commands[..k + 1]), commands[k].status)
            else ScriptRun(Outputs(commands), 0)
  {
    if commands != [] {
      if k == 0 {
        assert commands[..1][1..] == [] && commands[0].output + "" == commands[0].output;
      } else {
        CommandsUpToFailure(commands[1..], k - 1);
        if k < |commands| { assert commands[..k + 1][1..] == commands[1..][..k]; }
      }
    }
  }

  /** The script's status is that of the stage that fails. */
  lemma {:induction false} ScriptExit(stages: seq<Stage>)
    requires FailingStage(stages).Some?
    ensures FailingStage(stages).value < |stages|
    ensures RunScript(stages).status == RunCommands(stages[FailingStage(stages).value].commands).status
  {
    CommandsStatus(stages[0].commands);
    if RunCommands(stages[0].commands).status == 0 { ScriptExit(stages[1..]); }
  }

  /** A script exits with a failure exactly when some command of it fails. */
  lemma {:induction false} ScriptStatus(stages: seq<Stage>)
    ensures RunScript(stages).status != 0 <==> FailingStage(stages).Some?
  {
    if stages != [] {
      CommandsStatus(stages[0].commands);
      ScriptStatus(stages[1..]);
    }
  }

  lemma StatusWords()
    ensures IsWord("start") && IsWord("done") && IsWord("apply") && IsWord("build") && IsWord("boot")
  {
  }

  lemma NothingIsQuiet()
    ensures Quiet("")
  {
  }

  /** The backend sees exactly the markers the script got to, at most one on a line. */
  lemma {:induction false} MarksOfScript(stages: seq<Stage>)
    requires Ordinary(stages)
    ensures Marks(Lines(RunScript(stages).text)) == ExpectedMarks(stages)
    ensures OneMarkPerLine(RunScript(stages).text)
  {
    if stages == [] {
    } else {
      StatusWords();
      NothingIsQuiet();
      var name, body := stages[0].name, RunCommands(stages[0].commands);
      if body.status != 0 {
        QuietMarks(body.text);
        MarksAcross("", Mark(name, "start"), body.text);
        assert "" + (MarkLine(Mark(name, "start")) + body.text) == RunScript(stages).text;
        assert [Mark(name, "start")] + [] == ExpectedMarks(stages);
      } else {
        MarksOfScript(stages[1..]);
        var rest := RunScript(stages[1..]).text;
        MarksAcross(body.text, Mark(name, "done"), rest);
        var tail := body.text + (MarkLine(Mark(name, "done")) + rest);
        MarksAcross("", Mark(name, "start"), tail);
        assert "" + (MarkLine(Mark(name, "start")) + tail) == RunScript(stages).text;
      }
    }
  }

  // ----- Events -----

  datatype Message =
    | EmptyPatch | PatchTooLarge | UnknownKernel | TimeLimit
    | ApplyRejected | BuildFailed(code: int) | BootFailed(code: int)

  datatype Event =
    | StageEvent(stage: string, status: string)
    | OutputEvent(line: string)
    | ErrorEvent(failed: Option<string>, message: Message)
    | ResultEvent(data: map<string, Fields>)

  predicate Terminal(e: Event) { e.ErrorEvent? || e.ResultEvent? }

  /** A line of output becomes a stage event when it holds a marker, an output event otherwise. */
  function LineEvent(line: string): Event {
    match MarkOf(line)
    case Some(m) => StageEvent(m.stage, m.status)
    case None => OutputEvent(line)
  }

  function LineEvents(lines: seq<string>): (events: seq<Event>)
    ensures |events| == |lines|
    ensures forall i :: 0 <= i < |lines| ==> events[i] == LineEvent(lines[i])
  {
    if lines == [] then [] else [LineEvent(lines[0])] + LineEvents(lines[1..])
  }

  /** The error of a process that exited with a failure, from the done markers in its joined output. */
  function Attribute(text: string, code: int): Event {
    if !Contains("@@STAGE:apply:done@@", text) then ErrorEvent(Some("apply"), ApplyRejected)
    else if !Contains("@@STAGE:build:done@@", text) then ErrorEvent(Some("build"), BuildFailed(code))
    else ErrorEvent(Some("boot"), BootFailed(code))
  }

  /** The same choice, made on the stage events instead of the text. */
  function AttributeMarks(marks: seq<Mark>, code: int): Event {
    if Mark("apply", "done") !in marks then ErrorEvent(Some("apply"), ApplyRejected)
    else if Mark("build", "done") !in marks then ErrorEvent(Some("build"), BuildFailed(code))
    else ErrorEvent(Some("boot"), BootFailed(code))
  }

  datatype Wait = Exited(code: int) | TimedOut

  /** How a generator's run ended: by returning, by an exception, or closed by its consumer. */
  datatype Ending = Finished | Raised | Closed

  datatype Generated = Generated(events: seq<Event>, ending: Ending)

  /** What follows the output of the process. */
  function Conclusion(text: string, wait: Wait, comparable: bool): Generated {
    if wait.TimedOut? then Generated([ErrorEvent(None, TimeLimit)], Finished)
    else if wait.code != 0 then Generated([Attribute(text, wait.code)], Finished)
    else CompareAndReport(ParseBenchmarkOutput(text), comparable)
  }

  /** The compare and report stages; parsing or comparing may raise. */
  function CompareAndReport(parsed: Option<map<string, Fields>>, comparable: bool): Generated {
    if parsed.None? || !comparable then Generated([StageEvent("compare", "start")], Raised)
    else Generated([StageEvent("compare", "start"), StageEvent("compare", "done"), StageEvent("report", "start"),
                    ResultEvent(parsed.value), StageEvent("report", "done")], Finished)
  }

  /** What the outside world does to one run. */
  datatype World = World(directoryMade: bool, launched: bool, text: string, wait: Wait, comparable: bool)

  const MAX_PATCH_BYTES := 200000

  predicate IsSpace(c: char) {
    var n := c as int;
    || 9 <= n <= 13 || 28 <= n <= 32 || 0x2000 <= n <= 0x200A
    || n in {0x85, 0xA0, 0x1680, 0x2028, 0x2029, 0x202F, 0x205F, 0x3000}
  }

  /** `not s.strip()`. */
  predicate IsBlank(s: string) { forall i :: 0 <= i < |s| ==> IsSpace(s[i]) }

  /** `len(s.encode())`, in UTF-8. */
  function EncodedLength(s: string): nat {
    if s == "" then 0
    else
      var n := s[0] as int;
      (if n < 0x80 then 1 else if n < 0x800 then 2 else if n < 0x10000 then 3 else 4) + EncodedLength(s[1..])
  }

  /** All the events of `run_patch_pipeline` when its consumer asks for all of them. */
  function PipelineEvents(patch: string, world: World): Generated {
    if IsBlank(patch) then Generated([ErrorEvent(None, EmptyPatch)], Finished)
    else if EncodedLength(patch) > MAX_PATCH_BYTES then Generated([ErrorEvent(None, PatchTooLarge)], Finished)
    else if !world.directoryMade then Generated([], Raised)
    else GuardedEvents(world)
  }

  /** The events of the generator's `try` body: one per line, then the conclusion. */
  function GuardedEvents(world: World): Generated {
    if !world.launched then Generated([], Raised)
    else
      var conclusion := Conclusion(world.text, world.wait, world.comparable);
      Generated(LineEvents(Lines(world.text)) + conclusion.events, conclusion.ending)
  }

  // ----- The generator itself -----

  /** Directories under the scratch root. */
  class ScratchRoot {
    var directories: set<string>

    constructor ()
      ensures directories == {}
    {
      directories := {};
    }
  }

  /** What a consumer who takes at most `demand` events and then closes the generator gets: a prefix
      of all the events, the whole of them when it asked for more. */
  ghost predicate Served(events: seq<Event>, ending: Ending, demand: nat, all: Generated) {
    && events <= all.events
    && |events| <= demand
    && (|events| == demand ==> ending == Closed)
    && (|events| < demand ==> events == all.events && ending == all.ending)
  }

  /** One `yield`, of the next event of `all`: the consumer closes the generator when it has what
      it wanted. */
  method Yield(events: seq<Event>, e: Event, demand: nat, ghost all: seq<Event>)
    returns (more: seq<Event>, closed: bool)
    requires events + [e] <= all
    ensures more == events + [e] && (closed <==> |more| == demand)
  {
    more := events + [e];
    closed := |more| == demand;
  }

  lemma OneMoreLine(all: seq<Event>, n: nat, e: Event)
    requires n < |all| && all[n] == e
    ensures all[..n] + [e] == all[..n + 1] <= all
  {
  }

  /** One line of output: it is kept, and yielded as an event. */
  method RelayLine(lines: seq<string>, n: nat, events: seq<Event>, demand: nat) returns (more: seq<Event>, closed: bool)
    requires n < |lines| && events == LineEvents(lines)[..n]
    ensures more == LineEvents(lines)[..n + 1] && (closed <==> |more| == demand)
  {
    ghost var all := LineEvents(lines);
    OneMoreLine(all, n, LineEvent(lines[n]));
    match MarkOf(lines[n]) {
      case Some(m) => more, closed := Yield(events, StageEvent(m.stage, m.status), demand, all);
      case None => more, closed := Yield(events, OutputEvent(lines[n]), demand, all);
    }
  }

  /** The loop over the process's output. */
  method ReadOutput(lines: seq<string>, demand: nat) returns (events: seq<Event>, fullOutput: seq<string>, closed: bool)
    requires demand > 0
    ensures events <= LineEvents(lines) && |events| <= demand && (closed <==> |events| == demand)
    ensures !closed ==> events == LineEvents(lines) && fullOutput == lines
  {
    events, fullOutput, closed := [], [], false;
    var n := 0;
    while n < |lines|
      invariant 0 <= n <= |lines| && fullOutput == lines[..n]
      invariant events == LineEvents(lines)[..n] && n < demand && !closed
    {
      fullOutput := fullOutput + [lines[n]];
      events, closed := RelayLine(lines, n, events, demand);
      n := n + 1;
      if closed { return; }
    }
  }

  /** The body of the generator's `try`. */
  method GuardedRegion(world: World, demand: nat) returns (events: seq<Event>, ending: Ending)
    requires demand > 0
    ensures Served(events, ending, demand, GuardedEvents(world))
  {
    if !world.launched { return [], Raised; }
    var fullOutput, closed;
    events, fullOutput, closed := ReadOutput(Lines(world.text), demand);
    if closed { return events, Closed; }
    JoinLines(world.text);
    events, ending := AfterOutput(Join(fullOutput), world.wait, world.comparable, events, demand);
  }

  /** After the last line: waiting, attribution, or the compare and report stages. */
  method AfterOutput(text: string, wait: Wait, comparable: bool, before: seq<Event>, demand: nat)
    returns (events: seq<Event>, ending: Ending)
    requires |before| < demand
    ensures var c := Conclusion(text, wait, comparable);
            Served(events, ending, demand, Generated(before + c.events, c.ending))
  {
    ghost var all := before + Conclusion(text, wait, comparable).events;
    var closed: bool;
    if wait.TimedOut? {
      events, closed := Yield(before, ErrorEvent(None, TimeLimit), demand, all);
      ending := if closed then Closed else Finished;
    } else if wait.code != 0 {
      events, closed := Yield(before, Attribute(text, wait.code), demand, all);
      ending := if closed then Closed else Finished;
    } else {
      events, ending := Compare(ParseBenchmarkOutput(text), comparable, before, demand);
    }
  }

  /** The compare and report stages, on what the parser returned (or raised). */
  method Compare(parsed: Option<map<string, Fields>>, comparable: bool, before: seq<Event>, demand: nat)
    returns (events: seq<Event>, ending: Ending)
    requires |before| < demand
    ensures var c := CompareAndReport(parsed, comparable);
            Served(events, ending, demand, Generated(before + c.events, c.ending))
  {
    ghost var all := before + CompareAndReport(parsed, comparable).events;
    var closed: bool;
    events, closed := Yield(before, StageEvent("compare", "start"), demand, all);
    if closed { return events, Closed; }
    if parsed.None? || !comparable { return events, Raised; }
    events, closed := Yield(events, StageEvent("compare", "done"), demand, all);
    if closed { return events, Closed; }
    events, closed := Yield(events, StageEvent("report", "start"), demand, all);
    if closed { return events, Closed; }
    events, closed := Yield(events, ResultEvent(parsed.value), demand, all);
    if closed { return events, Closed; }
    events, closed := Yield(events, StageEvent("report", "done"), demand, all);
    ending := if closed then Closed else Finished;
  }

  /** `run_patch_pipeline`, consumed for at most `demand` events.  Whatever happens inside the
      guarded region, the directory made for the run is removed again. */
  method RunPatchPipeline(scratch: ScratchRoot, name: string, patch: string, world: World, demand: nat)
    returns (events: seq<Event>, ending: Ending)
    requires name !in scratch.directories
    modifies scratch
    ensures Served(events, ending, demand, PipelineEvents(patch, world))
    ensures scratch.directories == old(scratch.directories)
  {
    events := [];
    if demand == 0 { return events, Closed; }
    var closed: bool;
    if IsBlank(patch) {
      events, closed := Yield(events, ErrorEvent(None, EmptyPatch), demand, PipelineEvents(patch, world).events);
      return events, if closed then Closed else Finished;
    }
    if EncodedLength(patch) > MAX_PATCH_BYTES {
      events, closed := Yield(events, ErrorEvent(None, PatchTooLarge), demand, PipelineEvents(patch, world).events);
      return events, if closed then Closed else Finished;
    }
    if !world.directoryMade { return events, Raised; }
    scratch.directories := scratch.directories + {name};
    events, ending := GuardedRegion(world, demand);
    scratch.directories := scratch.directories - {name};
  }

  // ----- What the events say -----

  /** Exactly one terminal event: an error ends the run, a result is followed by the end of the
      report stage and nothing else. */
  ghost predicate OneTerminal(events: seq<Event>) {
    exists k :: 0 <= k < |events| && TerminalAt(events, k)
  }

  ghost predicate TerminalAt(events: seq<Event>, k: nat)
    requires k < |events|
  {
    && Terminal(events[k])
    && (forall i :: 0 <= i < |events| && Terminal(events[i]) ==> i == k)
    && (events[k].ErrorEvent? ==> k == |events| - 1)
    && (events[k].ResultEvent? ==> k == |events| - 2 && events[k + 1] == StageEvent("report", "done"))
  }

  lemma ConclusionTerminal(text: string, wait: Wait, comparable: bool)
    requires Conclusion(text, wait, comparable).ending == Finished
    ensures OneTerminal(Conclusion(text, wait, comparable).events)
  {
    var events := Conclusion(text, wait, comparable).events;
    if |events| == 1 {
      assert TerminalAt(events, 0);
    } else {
      assert TerminalAt(events, 3);
    }
  }

  lemma TerminalAfterLines(lines: seq<string>, tail: seq<Event>)
    requires OneTerminal(tail)
    ensures OneTerminal(LineEvents(lines) + tail)
  {
    var k :| 0 <= k < |tail| && TerminalAt(tail, k);
    var events := LineEvents(lines) + tail;
    assert forall i :: 0 <= i < |lines| ==> events[i] == LineEvent(lines[i]) && !Terminal(events[i]);
    assert forall i :: |lines| <= i < |events| ==> events[i] == tail[i - |lines|];
    assert TerminalAt(events, |lines| + k);
  }

  lemma LinesAreNotTerminal(lines: seq<string>)
    ensures forall i :: 0 <= i < |lines| ==> !Terminal(LineEvents(lines)[i])
  {
    assert forall i :: 0 <= i < |lines| ==> LineEvents(lines)[i] == LineEvent(lines[i]);
  }

  lemma TerminalWhenFinished(world: World)
    requires GuardedEvents(world).ending == Finished
    ensures OneTerminal(GuardedEvents(world).events)
  {
    ConclusionTerminal(world.text, world.wait, world.comparable);
    TerminalAfterLines(Lines(world.text), Conclusion(world.text, world.wait, world.comparable).events);
  }

  lemma NoTerminalWhenRaised(world: World)
    requires GuardedEvents(world).ending != Finished
    ensures forall e :: e in GuardedEvents(world).events ==> !Terminal(e)
  {
    if world.launched {
      LinesAreNotTerminal(Lines(world.text));
      assert Conclusion(world.text, world.wait, world.comparable).events == [StageEvent("compare", "start")];
    }
  }

  /** Every run that returns has exactly one terminal event, a run that raises none. */
  lemma OneTerminalEvent(patch: string, world: World)
    ensures var run := PipelineEvents(patch, world);
            if run.ending == Finished then OneTerminal(run.events) else forall e :: e in run.events ==> !Terminal(e)
  {
    if IsBlank(patch) || EncodedLength(patch) > MAX_PATCH_BYTES {
      assert TerminalAt(PipelineEvents(patch, world).events, 0);
    } else if world.directoryMade {
      if GuardedEvents(world).ending == Finished { TerminalWhenFinished(world); } else { NoTerminalWhenRaised(world); }
    }
  }

  /** The joined output of an ordinary script holds a stage's done marker exactly when it finished. */
  lemma DoneMarkersOfScript(stages: seq<Stage>, name: string)
    requires Ordinary(stages) && IsWord(name)
    ensures Contains(MarkText(Mark(name, "done")), RunScript(stages).text)
            <==> Mark(name, "done") in ExpectedMarks(stages)
  {
    StatusWords();
    MarksOfScript(stages);
    RecognisersAgree(RunScript(stages).text, Mark(name, "done"));
  }

  lemma PatchMarks(a: seq<Command>, b: seq<Command>, c: seq<Command>)
    ensures var marks := ExpectedMarks(PatchStages(a, b, c));
            match FailingStage(PatchStages(a, b, c))
            case None => marks == [Mark("apply", "start"), Mark("apply", "done"), Mark("build", "start"),
                                   Mark("build", "done"), Mark("boot", "start"), Mark("boot", "done")]
            case Some(k) =>
              && k < 3
              && (k == 0 ==> marks == [Mark("apply", "start")])
              && (k == 1 ==> marks == [Mark("apply", "start"), Mark("apply", "done"), Mark("build", "start")])
              && (k == 2 ==> marks == [Mark("apply", "start"), Mark("apply", "done"), Mark("build", "start"),
                                       Mark("build", "done"), Mark("boot", "start")])
  {
    CommandsStatus(a);
    CommandsStatus(b);
    CommandsStatus(c);
    var s1 := [Stage("build", b)] + ([Stage("boot", c)] + []);
    var s2 := [Stage("boot", c)] + [];
    assert PatchStages(a, b, c)[1..] == s1 && s1[1..] == s2 && s2[1..] == [];
    assert FailingStage([]).None? && ExpectedMarks([]) == [];
    assert FailingStage(s2) == if RunCommands(c).status != 0 then Some(0) else None;
    assert ExpectedMarks(s2) == if RunCommands(c).status != 0 then [Mark("boot", "start")]
                                else [Mark("boot", "start"), Mark("boot", "done")];
    assert FailingStage(s1) == if RunCommands(b).status != 0 then Some(0)
                               else if RunCommands(c).status != 0 then Some(1) else None;
  }

  const STAGE_NAMES := ["apply", "build", "boot"]

  lemma DoneTexts()
    ensures MarkText(Mark("apply", "done")) == "@@STAGE:apply:done@@"
    ensures MarkText(Mark("build", "done")) == "@@STAGE:build:done@@"
  {
  }

  /** Whatever a script printed, as long as no line has two markers, attributing its failure from the joined
      text and attributing it from the stage events that were emitted are the same. */
  lemma AttributionsAgree(text: string, code: int)
    requires OneMarkPerLine(text)
    ensures Attribute(text, code) == AttributeMarks(Marks(Lines(text)), code)
  {
    StatusWords();
    DoneTexts();
    RecognisersAgree(text, Mark("apply", "done"));
    RecognisersAgree(text, Mark("build", "done"));
  }

  /** Attribution: the stage named in the error is the stage that failed. */
  lemma BackendNamesFailingStage(a: seq<Command>, b: seq<Command>, c: seq<Command>)
    requires Ordinary(PatchStages(a, b, c)) && FailingStage(PatchStages(a, b, c)).Some?
    ensures var run := RunScript(PatchStages(a, b, c));
            var k := FailingStage(PatchStages(a, b, c)).value;
            && run.status != 0 && k < 3
            && Attribute(run.text, run.status) == if k == 0 then ErrorEvent(Some("apply"), ApplyRejected)
                                                  else if k == 1 then ErrorEvent(Some("build"), BuildFailed(run.status))
                                                  else ErrorEvent(Some("boot"), BootFailed(run.status))
  {
    var stages := PatchStages(a, b, c);
    StatusWords();
    ScriptStatus(stages);
    PatchMarks(a, b, c);
    DoneMarkersOfScript(stages, "apply");
    DoneMarkersOfScript(stages, "build");
    DoneTexts();
  }

  lemma StageTexts(name: string, commands: seq<Command>, rest: seq<Stage>)
    ensures var stages := [Stage(name, commands)] + rest;
            RunScript(stages).text
            == "@@STAGE:" + (name + (":" + ("start" + "@@"))) + "\n"
               + (RunCommands(commands).text
                  + (if RunCommands(commands).status != 0 then ""
                     else "@@STAGE:" + (name + (":" + ("done" + "@@"))) + "\n" + RunScript(rest).text))
  {
    var stages := [Stage(name, commands)] + rest;
    assert stages[1..] == rest;
    assert RunCommands(commands).text + "" == RunCommands(commands).text;
  }

  // ----- Which patches are accepted -----

  lemma {:induction false} EncodedConcat(a: string, b: string)
    ensures EncodedLength(a + b) == EncodedLength(a) + EncodedLength(b)
  {
    if a == "" {
      assert a + b == b;
    } else {
      assert (a + b)[0] == a[0] && (a + b)[1..] == a[1..] + b;
      EncodedConcat(a[1..], b);
    }
  }

  /** The encoded length is at least the number of characters, and exactly that for ASCII text only; no
      character takes more than four bytes. */
  lemma {:induction false} EncodedBounds(s: string)
    ensures |s| <= EncodedLength(s) <= 4 * |s|
    ensures EncodedLength(s) == |s| <==> forall i :: 0 <= i < |s| ==> s[i] as int < 128
  {
    if s != "" {
      EncodedBounds(s[1..]);
      assert forall i :: 0 < i < |s| ==> s[i] == s[1..][i - 1];
    }
  }

  /** Which text is no patch at all: ASCII white space is blank, and any visible ASCII character is not. */
  lemma BlankText(s: string)
    ensures (forall i :: 0 <= i < |s| ==> s[i] in {' ', '\t', '\n', '\r'}) ==> IsBlank(s)
    ensures (exists i :: 0 <= i < |s| && 33 <= s[i] as int <= 126) ==> !IsBlank(s)
  {
    if exists i :: 0 <= i < |s| && 33 <= s[i] as int <= 126 {
      var i :| 0 <= i < |s| && 33 <= s[i] as int <= 126;
      assert !IsSpace(s[i]);
    }
  }
}
