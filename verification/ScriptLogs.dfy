/** What a pipeline script prints, read as a log of reports: the markers and the output of the stages
    before the last are noise that no search of the parser minds. */
module ScriptLogs {
  import opened Runs
  import opened Patterns
  import opened StageMarkers
  import opened BenchmarkReports
  import opened PatchPipeline

  // ----- Noise around a marker -----

  /** A pattern that cannot match across a marker line, nor inside one. */
  predicate PassesMarks(p: Pattern) {
    Avoids(p, '@') && Avoids(p, '\n') && Needs(p, '=') && p != [] && p[0].Lit? && p[0].text != ""
  }

  lemma MarkTextLacksEquals(m: Mark)
    requires WellNamed(m)
    ensures Lacks('=', MarkText(m))
  {
    ClassLacks(Word, '=', m.stage);
    ClassLacks(Word, '=', m.status);
    LacksConcat('=', m.status, "@@");
    LacksConcat('=', ":", m.status + "@@");
    LacksConcat('=', m.stage, ":" + (m.status + "@@"));
    LacksConcat('=', MARKER_PREFIX, m.stage + (":" + (m.status + "@@")));
  }

  lemma SearchAcrossMark(p: Pattern, a: string, m: Mark, b: string)
    requires PassesMarks(p) && WellNamed(m) && Search(p, a).None?
    ensures Search(p, a + (MarkLine(m) + b)) == Search(p, b)
  {
    var rest := MarkLine(m) + b;
    SearchIsLeftmost(p, a);
    forall i | 0 <= i < |a| ensures Match(p, a[i..] + rest).None? {
      MatchStopsAt(p, a[i..], '@', rest[1..]);
      assert a[i..] + ['@'] + rest[1..] == a[i..] + rest;
    }
    SearchSkips(p, a, rest);
    MarkTextLacksEquals(m);
    SearchSkipsLine(p, '=', MarkText(m), b);
  }

  /** The substring test, as a search. */
  lemma ContainsIsSearch(h: string, s: string)
    ensures Contains(h, s) <==> Search([Lit(h)], s).Some?
  {
    ContainsSomewhere(h, s);
    SearchIsLeftmost([Lit(h)], s);
    assert forall t: string :: Match([Lit(h)], t).Some? <==> h <= t;
  }

  lemma LitPassesMarks(h: string)
    requires Lacks('@', h) && Lacks('\n', h) && '=' in h
    ensures PassesMarks([Lit(h)])
  {
    var p: Pattern := [Lit(h)];
    assert p[0].Lit? && '=' in p[0].text;
  }

  lemma ProcessHeaderPassesMarks()
    ensures PassesMarks([Lit(PROCESS_HEADER)])
  {
    assert PROCESS_HEADER[9] == '=';
    LitPassesMarks(PROCESS_HEADER);
  }

  lemma LatencyHeaderPassesMarks()
    ensures PassesMarks([Lit(LATENCY_HEADER)])
  {
    assert LATENCY_HEADER[9] == '=';
    LitPassesMarks(LATENCY_HEADER);
  }

  lemma SwitchPassesMarks()
    ensures PassesMarks(LinePattern(SWITCH_LABELS))
  {
    LabelsLack('@');
    LabelsLack('\n');
    LinePatternAvoids('@', SWITCH_LABELS);
    LinePatternAvoids('\n', SWITCH_LABELS);
    assert SWITCH_LABELS[0][13] == '=';
    LinePatternNeeds('=', SWITCH_LABELS, 0);
    SwitchPatternBegins();
  }

  lemma StillLacksHeader(h: string, a: string, m: Mark, b: string)
    requires PassesMarks([Lit(h)]) && WellNamed(m) && !Contains(h, a) && !Contains(h, b)
    ensures !Contains(h, a + (MarkLine(m) + b))
  {
    ContainsIsSearch(h, a);
    ContainsIsSearch(h, b);
    ContainsIsSearch(h, a + (MarkLine(m) + b));
    SearchAcrossMark([Lit(h)], a, m, b);
  }

  /** Clean output, a marker line and clean output again are clean. */
  lemma CleanAcrossMark(a: string, m: Mark, b: string)
    requires Clean(a) && Clean(b) && WellNamed(m)
    ensures Clean(a + (MarkLine(m) + b))
  {
    ProcessHeaderPassesMarks();
    LatencyHeaderPassesMarks();
    StillLacksHeader(PROCESS_HEADER, a, m, b);
    StillLacksHeader(LATENCY_HEADER, a, m, b);
    SwitchPassesMarks();
    SearchAcrossMark(LinePattern(SWITCH_LABELS), a, m, b);
  }

  lemma NothingIsClean()
    ensures Clean("")
  {
    SearchNothing(ContextSwitchKind);
  }

  // ----- Logs inside a script's output -----

  predicate CleanLog(noise: string, entries: seq<Entry>) {
    Clean(noise) && forall i :: 0 <= i < |entries| ==> Clean(entries[i].noise)
  }

  lemma NoiseThenMark(noise: string, m: Mark)
    requires Clean(noise) && WellNamed(m)
    ensures var before := noise + (MarkLine(m) + "");
            Clean(before) && Log(before, []) == Log(noise, []) + (MarkLine(m) + "")
  {
    NothingIsClean();
    CleanAcrossMark(noise, m, "");
    assert noise + "" == noise;
  }

  /** A marker line after a log is noise after its last report. */
  lemma {:induction false} LogThenMark(noise: string, entries: seq<Entry>, m: Mark)
    returns (before: string, all: seq<Entry>)
    requires CleanLog(noise, entries) && WellNamed(m)
    ensures CleanLog(before, all) && Log(before, all) == Log(noise, entries) + (MarkLine(m) + "")
    ensures forall k :: First(k, all) == First(k, entries)
    decreases |entries|
  {
    if entries == [] {
      before, all := noise + (MarkLine(m) + ""), [];
      NoiseThenMark(noise, m);
    } else {
      var e := entries[0];
      var after, rest := LogThenMark(e.noise, entries[1..], m);
      before, all := noise, [Entry(e.report, after)] + rest;
      MoreNoise(noise, e, entries[1..], after, rest, MarkLine(m) + "");
      assert [e] + entries[1..] == entries;
    }
  }

  lemma MoreNoise(noise: string, e: Entry, entries: seq<Entry>, after: string, rest: seq<Entry>, tail: string)
    requires CleanLog(e.noise, entries) && CleanLog(after, rest) && Log(after, rest) == Log(e.noise, entries) + tail
    requires forall k :: First(k, rest) == First(k, entries)
    ensures var all := [Entry(e.report, after)] + rest;
            && (Clean(noise) ==> CleanLog(noise, all))
            && Log(noise, all) == Log(noise, [e] + entries) + tail
            && forall k :: First(k, all) == First(k, [e] + entries)
  {
    var all := [Entry(e.report, after)] + rest;
    assert all[1..] == rest && ([e] + entries)[1..] == entries;
    LogCons(noise, e.report, after, rest);
    LogCons(noise, e.report, e.noise, entries);
    AppendToLog(noise, Print(e.report), Log(e.noise, entries), tail);
  }

  lemma LogCons(noise: string, r: Report, after: string, rest: seq<Entry>)
    ensures Log(noise, [Entry(r, after)] + rest) == noise + (Print(r) + Log(after, rest))
  {
    BodyCons(Entry(r, after), rest);
  }

  lemma AppendToLog(noise: string, printed: string, rest: string, mark: string)
    ensures noise + (printed + rest) + mark == noise + (printed + (rest + mark))
  {
  }

  lemma PrependToLog(a: string, mark: string, noise: string, body: string)
    ensures a + (mark + (noise + body)) == a + (mark + noise) + body
  {
  }

  /** A log after clean output and a marker line. */
  lemma MarkThenLog(a: string, m: Mark, noise: string, entries: seq<Entry>)
    requires Clean(a) && WellNamed(m) && CleanLog(noise, entries)
    ensures CleanLog(a + (MarkLine(m) + noise), entries)
    ensures Log(a + (MarkLine(m) + noise), entries) == a + (MarkLine(m) + Log(noise, entries))
  {
    CleanAcrossMark(a, m, noise);
    PrependToLog(a, MarkLine(m), noise, Body(entries));
  }

  // ----- Ordinary output, and the output of a whole script -----

  lemma LacksIsQuiet(out: string)
    requires Lacks('@', out)
    ensures Quiet(out)
  {
    ContainsSomewhere(MARKER_PREFIX, out);
    assert forall i :: 0 <= i < |out| ==> out[i..][0] == out[i];
  }

  lemma PrintLacksAt(r: Report)
    ensures Lacks('@', Print(r))
  {
    HeaderLineLacks('@', r);
    ValueLineLacks('@', r);
  }

  /** A guest log is ordinary output: it holds no marker. */
  lemma GuestLogIsQuiet(boot: string, p: Report, c: Report, l: Report, shutdown: string)
    requires Lacks('@', boot) && Lacks('@', shutdown)
    ensures Quiet(GuestLog(boot, p, c, l, shutdown))
  {
    PrintLacksAt(p);
    PrintLacksAt(c);
    PrintLacksAt(l);
    var first := Between(ProcessCreationKind, ContextSwitchKind);
    var second := Between(ContextSwitchKind, SchedulerLatencyKind);
    BetweenLacks('@', ProcessCreationKind, ContextSwitchKind);
    BetweenLacks('@', ContextSwitchKind, SchedulerLatencyKind);
    LacksConcat('@', Print(l), shutdown);
    LacksConcat('@', second, Print(l) + shutdown);
    LacksConcat('@', Print(c), second + (Print(l) + shutdown));
    LacksConcat('@', first, Print(c) + (second + (Print(l) + shutdown)));
    LacksConcat('@', Print(p), first + (Print(c) + (second + (Print(l) + shutdown))));
    LacksConcat('@', boot, Print(p) + (first + (Print(c) + (second + (Print(l) + shutdown)))));
    LacksIsQuiet(GuestLog(boot, p, c, l, shutdown));
  }

  /** When the stages before the last print nothing but noise and succeed, and the last prints a log, the
      whole script prints a log of the same reports, whether the last stage succeeds or not. */
  lemma {:induction false} ScriptPrintsLog(stages: seq<Stage>, noise: string, entries: seq<Entry>)
    returns (before: string, all: seq<Entry>)
    requires stages != [] && Ordinary(stages) && CleanLog(noise, entries)
    requires forall i :: 0 <= i < |stages| - 1 ==>
               Clean(RunCommands(stages[i].commands).text) && RunCommands(stages[i].commands).status == 0
    requires RunCommands(stages[|stages| - 1].commands).text == Log(noise, entries)
    ensures CleanLog(before, all) && RunScript(stages).text == Log(before, all)
    ensures forall k :: First(k, all) == First(k, entries)
  {
    StatusWords();
    var name, body := stages[0].name, RunCommands(stages[0].commands);
    if |stages| == 1 {
      before, all := LastStagePrintsLog(stages[0], noise, entries);
      assert stages == [stages[0]];
    } else {
      before, all := ScriptPrintsLog(stages[1..], noise, entries);
      before := StageThenLog(name, body.text, before, all);
    }
  }

  lemma LastStagePrintsLog(stage: Stage, noise: string, entries: seq<Entry>) returns (before: string, all: seq<Entry>)
    requires IsWord(stage.name) && CleanLog(noise, entries) && RunCommands(stage.commands).text == Log(noise, entries)
    ensures CleanLog(before, all) && RunScript([stage]).text == Log(before, all)
    ensures forall k :: First(k, all) == First(k, entries)
  {
    StatusWords();
    NothingIsClean();
    before, all := noise, entries;
    if RunCommands(stage.commands).status == 0 {
      before, all := LogThenMark(noise, entries, Mark(stage.name, "done"));
    }
    assert RunScript([stage][1..]).text == "";
    MarkThenLog("", Mark(stage.name, "start"), before, all);
    before := "" + (MarkLine(Mark(stage.name, "start")) + before);
  }

  lemma StageThenLog(name: string, text: string, before: string, all: seq<Entry>) returns (longer: string)
    requires IsWord(name) && Clean(text) && CleanLog(before, all)
    ensures CleanLog(longer, all)
    ensures Log(longer, all)
         == MarkLine(Mark(name, "start")) + (text + (MarkLine(Mark(name, "done")) + Log(before, all)))
  {
    StatusWords();
    NothingIsClean();
    MarkThenLog(text, Mark(name, "done"), before, all);
    longer := text + (MarkLine(Mark(name, "done")) + before);
    MarkThenLog("", Mark(name, "start"), longer, all);
    longer := "" + (MarkLine(Mark(name, "start")) + longer);
  }
}
