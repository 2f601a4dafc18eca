/** The output pane of the page: which lines of a run's output are on it at the end. */
module OutputPane {
  import opened Runs
  import opened StageMarkers
  import opened PatchPipeline
  import opened EventContents
  import opened PatchClient

  /** The last 201 of some lines, or all of them when there are fewer. */
  function Shown(lines: seq<string>): seq<string> { if |lines| <= 201 then lines else lines[|lines| - 201..] }

  lemma ShownAppend(lines: seq<string>, line: string)
    ensures LastOf(Shown(lines), 200) + [line] == Shown(lines + [line])
  {
  }

  lemma LineIsShown(page: Page, before: seq<string>, line: string)
    requires page.open && page.output == Shown(before)
    ensures var next := Receive(page, LineEvent(line));
            next.open && next.output == Shown(before + Unmarked([line]))
  {
    assert Unmarked([line][1..]) == [];
    if MarkOf(line).None? {
      ShownAppend(before, line);
      assert Unmarked([line]) == [line];
    } else {
      assert before + Unmarked([line]) == before;
    }
  }

  lemma UnmarkedCons(before: seq<string>, lines: seq<string>)
    requires lines != []
    ensures before + Unmarked([lines[0]]) + Unmarked(lines[1..]) == before + Unmarked(lines)
  {
    var first, rest := Unmarked([lines[0]]), Unmarked(lines[1..]);
    assert Unmarked([lines[0]][1..]) == [];
    assert first == if MarkOf(lines[0]).None? then [lines[0]] else [];
    Associate(before, first, rest);
  }

  lemma Associate(a: seq<string>, b: seq<string>, c: seq<string>)
    ensures a + b + c == a + (b + c)
  {
  }

  /** The output pane while lines arrive. */
  lemma {:induction false} LinesAreShown(page: Page, before: seq<string>, lines: seq<string>)
    requires page.open && page.output == Shown(before)
    ensures ReceiveAll(page, LineEvents(lines)).output == Shown(before + Unmarked(lines))
    decreases |lines|
  {
    if lines == [] {
      assert before + [] == before;
    } else {
      assert LineEvents(lines)[1..] == LineEvents(lines[1..]);
      LineIsShown(page, before, lines[0]);
      LinesAreShown(Receive(page, LineEvent(lines[0])), before + Unmarked([lines[0]]), lines[1..]);
      UnmarkedCons(before, lines);
    }
  }

  lemma {:induction false} PaneStays(page: Page, events: seq<Event>)
    requires forall i :: 0 <= i < |events| ==> !events[i].OutputEvent?
    ensures ReceiveAll(page, events).output == page.output
    decreases |events|
  {
    if events != [] { PaneStays(Receive(page, events[0]), events[1..]); }
  }

  /** The output pane after all the events of a run, however it ended: the last 201 of the lines of output in
      which no marker was found, in order, or all of them when there are fewer. */
  lemma PaneAfterRun(patch: string, world: World)
    requires !IsBlank(patch) && EncodedLength(patch) <= 200000 && world.directoryMade && world.launched
    ensures var lines := Unmarked(Lines(world.text));
            ReceiveAll(STARTED, PipelineEvents(patch, world).events).output
            == if |lines| <= 201 then lines else lines[|lines| - 201..]
  {
    ConclusionHasNoOutput(world.text, world.wait, world.comparable);
    PaneAfter(Lines(world.text), Conclusion(world.text, world.wait, world.comparable).events);
  }

  lemma ConclusionHasNoOutput(text: string, wait: Wait, comparable: bool)
    ensures var rest := Conclusion(text, wait, comparable).events;
            forall i :: 0 <= i < |rest| ==> !rest[i].OutputEvent?
  {
  }

  lemma PaneAfter(lines: seq<string>, rest: seq<Event>)
    requires forall i :: 0 <= i < |rest| ==> !rest[i].OutputEvent?
    ensures ReceiveAll(STARTED, LineEvents(lines) + rest).output == Shown(Unmarked(lines))
  {
    LinesAreShown(STARTED, [], lines);
    assert [] + Unmarked(lines) == Unmarked(lines);
    ReceiveConcat(STARTED, LineEvents(lines), rest);
    PaneStays(ReceiveAll(STARTED, LineEvents(lines)), rest);
  }
}
