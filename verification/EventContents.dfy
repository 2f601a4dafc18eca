/** What the events of the two pipelines carry, read off the events alone: no line of output is lost,
    altered or out of place, and what follows the output is decided by how the process ended. */
module EventContents {
  import opened Runs
  import opened StageMarkers
  import opened BenchmarkReports
  import opened PatchPipeline
  import opened BenchmarkPipeline

  // ----- Projections -----

  /** The lines carried by output events. */
  function CarriedLines(events: seq<Event>): seq<string> {
    if events == [] then []
    else (if events[0].OutputEvent? then [events[0].line] else []) + CarriedLines(events[1..])
  }

  /** The stage and status carried by stage events. */
  function CarriedMarks(events: seq<Event>): seq<Mark> {
    if events == [] then []
    else (if events[0].StageEvent? then [Mark(events[0].stage, events[0].status)] else []) + CarriedMarks(events[1..])
  }

  /** The lines in which no marker is found. */
  function Unmarked(lines: seq<string>): seq<string> {
    if lines == [] then [] else (if MarkOf(lines[0]).None? then [lines[0]] else []) + Unmarked(lines[1..])
  }

  lemma {:induction false} LineEventsCarry(lines: seq<string>)
    ensures CarriedLines(LineEvents(lines)) == Unmarked(lines)
    ensures CarriedMarks(LineEvents(lines)) == Marks(lines)
  {
    if lines != [] {
      assert LineEvents(lines)[1..] == LineEvents(lines[1..]);
      LineEventsCarry(lines[1..]);
    }
  }

  lemma {:induction false} CarriedConcat(a: seq<Event>, b: seq<Event>)
    ensures CarriedLines(a + b) == CarriedLines(a) + CarriedLines(b)
  {
    if a == [] {
      assert a + b == b;
    } else {
      assert (a + b)[1..] == a[1..] + b;
      CarriedConcat(a[1..], b);
    }
  }

  lemma {:induction false} NoOutputCarriesNothing(events: seq<Event>)
    requires forall i :: 0 <= i < |events| ==> !events[i].OutputEvent?
    ensures CarriedLines(events) == []
  {
    if events != [] { NoOutputCarriesNothing(events[1..]); }
  }

  /** An event that stands for a line of output: the line itself, or the first marker found in it. */
  predicate Reports(e: Event, line: string) {
    match e
    case OutputEvent(carried) => carried == line && MarkOf(line).None?
    case StageEvent(stage, status) => MarkOf(line) == Some(Mark(stage, status))
    case _ => false
  }

  /** Events that begin with one for each line of a text, and hold no other output. */
  predicate CarryText(events: seq<Event>, text: string) {
    var lines := Lines(text);
    && |lines| <= |events|
    && (forall i :: 0 <= i < |lines| ==> Reports(events[i], lines[i]))
    && CarriedMarks(events[..|lines|]) == Marks(lines)
    && CarriedLines(events) == Unmarked(lines)
  }

  lemma OutputThenRest(text: string, rest: seq<Event>)
    requires forall i :: 0 <= i < |rest| ==> !rest[i].OutputEvent?
    ensures CarryText(LineEvents(Lines(text)) + rest, text)
  {
    var first := LineEvents(Lines(text));
    LineEventsCarry(Lines(text));
    CarriedConcat(first, rest);
    NoOutputCarriesNothing(rest);
    assert (first + rest)[..|Lines(text)|] == first;
  }

  /** Patch pipeline: whatever the process printed is in the events, line by line and in order, and whatever
      else happens nothing else is. */
  lemma PatchEventsCarryOutput(patch: string, world: World)
    ensures var events := PipelineEvents(patch, world).events;
            if !IsBlank(patch) && EncodedLength(patch) <= 200000 && world.directoryMade && world.launched
            then CarryText(events, world.text) else CarriedLines(events) == []
  {
    if !IsBlank(patch) && EncodedLength(patch) <= 200000 && world.directoryMade && world.launched {
      OutputThenRest(world.text, Conclusion(world.text, world.wait, world.comparable).events);
    } else {
      NoOutputCarriesNothing(PipelineEvents(patch, world).events);
    }
  }

  /** The same for the benchmark pipeline. */
  lemma BenchmarkEventsCarryOutput(kernel: string, launched: bool, text: string, wait: Wait)
    ensures var events := BenchmarkEvents(kernel, launched, text, wait).events;
            if kernel in {"baseline", "optimized"} && launched then CarryText(events, text)
            else CarriedLines(events) == []
  {
    if kernel in {"baseline", "optimized"} && launched {
      OutputThenRest(text, Outcome(ParseBenchmarkOutput(text), wait).events);
    } else {
      NoOutputCarriesNothing(BenchmarkEvents(kernel, launched, text, wait).events);
    }
  }

  // ----- How a patch run ends -----

  /** The patch is accepted and the process starts; the limit is in bytes of UTF-8. */
  predicate RunsToEnd(patch: string, world: World) {
    !IsBlank(patch) && EncodedLength(patch) <= 200000 && world.directoryMade && world.launched
  }

  /** Refused patches, and exactly when a run raises. */
  lemma PatchRunEnds(patch: string, world: World)
    ensures var run := PipelineEvents(patch, world);
            && (IsBlank(patch) ==> run == Generated([ErrorEvent(None, EmptyPatch)], Finished))
            && (!IsBlank(patch) && EncodedLength(patch) > 200000 ==>
                  run == Generated([ErrorEvent(None, PatchTooLarge)], Finished))
            && (run.ending == Raised <==>
                  && !IsBlank(patch) && EncodedLength(patch) <= 200000
                  && (!RunsToEnd(patch, world) ||
                      (world.wait == Exited(0) && (ParseBenchmarkOutput(world.text).None? || !world.comparable))))
            && (run.ending in {Finished, Raised})
  {
  }

  lemma NoLineIsTerminal(lines: seq<string>, rest: seq<Event>, e: Event)
    requires Terminal(e)
    ensures e in LineEvents(lines) + rest <==> e in rest
  {
    LinesAreNotTerminal(lines);
  }

  /** A run whose process was waited for in vain ends in the time-limit error. */
  lemma TimeOutIsError(patch: string, world: World, e: Event)
    requires RunsToEnd(patch, world) && Terminal(e) && world.wait.TimedOut?
    ensures e in PipelineEvents(patch, world).events <==> e == ErrorEvent(None, TimeLimit)
  {
    NoLineIsTerminal(Lines(world.text), Conclusion(world.text, world.wait, world.comparable).events, e);
  }

  /** One whose process failed ends in the error of the first stage without a done event. */
  lemma FailureIsError(patch: string, world: World, e: Event)
    requires RunsToEnd(patch, world) && Terminal(e) && world.wait.Exited? && world.wait.code != 0
    requires OneMarkPerLine(world.text)
    ensures var marks := Marks(Lines(world.text));
            e in PipelineEvents(patch, world).events
            <==> e == if Mark("apply", "done") !in marks then ErrorEvent(Some("apply"), ApplyRejected)
                      else if Mark("build", "done") !in marks
                      then ErrorEvent(Some("build"), BuildFailed(world.wait.code))
                      else ErrorEvent(Some("boot"), BootFailed(world.wait.code))
  {
    AttributionsAgree(world.text, world.wait.code);
    NoLineIsTerminal(Lines(world.text), Conclusion(world.text, world.wait, world.comparable).events, e);
  }

  /** One whose process succeeded ends in a result, with what the parser found in the whole output, unless
      parsing or comparing raises. */
  lemma SuccessIsResult(patch: string, world: World, e: Event)
    requires RunsToEnd(patch, world) && Terminal(e) && world.wait == Exited(0)
    ensures e in PipelineEvents(patch, world).events
            <==> world.comparable && ParseBenchmarkOutput(world.text).Some?
                 && e == ResultEvent(ParseBenchmarkOutput(world.text).value)
  {
    NoLineIsTerminal(Lines(world.text), Conclusion(world.text, world.wait, world.comparable).events, e);
  }

  /** How a benchmark run ends: refused, in the time-limit error, or in a result with what the parser found,
      whatever the exit status was. */
  lemma BenchmarkRunTerminal(kernel: string, launched: bool, text: string, wait: Wait, e: Event)
    requires Terminal(e)
    ensures e in BenchmarkEvents(kernel, launched, text, wait).events
            <==> if kernel !in {"baseline", "optimized"} then e == ErrorEvent(None, UnknownKernel)
                 else launched && (if wait.TimedOut? then e == ErrorEvent(None, TimeLimit)
                                   else ParseBenchmarkOutput(text).Some?
                                        && e == ResultEvent(ParseBenchmarkOutput(text).value))
  {
    NoLineIsTerminal(Lines(text), Outcome(ParseBenchmarkOutput(text), wait).events, e);
  }
}
