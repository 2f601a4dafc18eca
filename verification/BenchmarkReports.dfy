/** The three benchmark programs' reports, and the parser that recovers them from a boot log.

    The printing side is `printf` in the C programs; the reading side is
    `parse_benchmark_output` (three regular-expression searches) and `_parse_latency`.  Two of the
    reports have value lines of exactly the same shape and differ only in their header line. */
module BenchmarkReports {
  import opened Runs
  import opened Patterns
  import opened Decimals

  // ----- Lines of labelled values, printed and matched -----

  /** Each name followed by its value. */
  function Line(labels: seq<string>, values: seq<string>): string
    requires |labels| == |values|
  {
    if labels == [] then "" else labels[0] + (values[0] + Line(labels[1..], values[1..]))
  }

  function Field(name: string, rest: Pattern): Pattern {
    [Lit(name)] + ([Group(Numeric)] + rest)
  }

  /** Each name followed by a captured group of digits and dots. */
  function LinePattern(labels: seq<string>): Pattern {
    if labels == [] then [] else Field(labels[0], LinePattern(labels[1..]))
  }

  /** Labels that cannot be taken for the end of the value before them. */
  predicate Separating(labels: seq<string>) {
    forall i :: 0 <= i < |labels| ==> labels[i] != "" && !InClass(Numeric, labels[i][0])
  }

  predicate NumericTexts(values: seq<string>) {
    forall i :: 0 <= i < |values| ==> NumericText(values[i])
  }

  predicate AllLack(c: char, texts: seq<string>) {
    forall i :: 0 <= i < |texts| ==> Lacks(c, texts[i])
  }

  lemma {:induction false} LineLacks(c: char, labels: seq<string>, values: seq<string>)
    requires |labels| == |values| && AllLack(c, labels) && AllLack(c, values)
    ensures Lacks(c, Line(labels, values))
  {
    if labels != [] {
      LineLacks(c, labels[1..], values[1..]);
      LacksConcat(c, values[0], Line(labels[1..], values[1..]));
      LacksConcat(c, labels[0], values[0] + Line(labels[1..], values[1..]));
    }
  }

  lemma MatchField(name: string, value: string, p: Pattern, s: string)
    requires value != "" && AllIn(Numeric, value) && (s != "" ==> !InClass(Numeric, s[0]))
    ensures Match(Field(name, p), name + (value + s))
         == match Match(p, s) case None => None case Some(groups) => Some([value] + groups)
  {
    MatchLit(name, [Group(Numeric)] + p, value + s);
    MatchGroup(Numeric, value, p, s);
  }

  lemma LineBegins(labels: seq<string>, values: seq<string>, s: string)
    requires |labels| == |values| && Separating(labels)
    requires s != "" && !InClass(Numeric, s[0])
    ensures Line(labels, values) + s != "" && !InClass(Numeric, (Line(labels, values) + s)[0])
  {
    if labels == [] {
      assert Line(labels, values) + s == s;
    } else {
      assert (Line(labels, values) + s)[0] == labels[0][0];
    }
  }

  lemma MatchLineCons(labels: seq<string>, values: seq<string>, rest: string)
    requires |labels| == |values| > 0 && NumericText(values[0])
    requires rest != "" && !InClass(Numeric, rest[0])
    requires Match(LinePattern(labels[1..]), rest) == Some(values[1..])
    ensures Match(LinePattern(labels), labels[0] + (values[0] + rest)) == Some(values)
  {
    MatchField(labels[0], values[0], LinePattern(labels[1..]), rest);
    assert [values[0]] + values[1..] == values;
  }

  lemma LineCons(labels: seq<string>, values: seq<string>, s: string)
    requires |labels| == |values| > 0
    ensures Line(labels, values) + s == labels[0] + (values[0] + (Line(labels[1..], values[1..]) + s))
  {
  }

  predicate NumericText(value: string) { value != "" && AllIn(Numeric, value) }

  /** The pattern of a line captures exactly the values printed in it. */
  lemma {:induction false} MatchLine(labels: seq<string>, values: seq<string>, s: string)
    requires |labels| == |values| && Separating(labels) && NumericTexts(values)
    requires s != "" && !InClass(Numeric, s[0])
    ensures Match(LinePattern(labels), Line(labels, values) + s) == Some(values)
  {
    if labels == [] {
      assert values == [] && Line(labels, values) + s == s;
    } else {
      var rest := Line(labels[1..], values[1..]) + s;
      MatchLine(labels[1..], values[1..], s);
      LineBegins(labels[1..], values[1..], s);
      MatchLineCons(labels, values, rest);
      LineCons(labels, values, s);
    }
  }

  lemma {:induction false} LinePatternAvoids(c: char, labels: seq<string>)
    requires AllLack(c, labels) && !InClass(Numeric, c)
    ensures Avoids(LinePattern(labels), c)
  {
    if labels != [] {
      LinePatternAvoids(c, labels[1..]);
      var p := LinePattern(labels);
      assert p[0] == Lit(labels[0]) && p[1] == Group(Numeric);
      assert forall i :: 2 <= i < |p| ==> p[i] == LinePattern(labels[1..])[i - 2];
    }
  }

  lemma {:induction false} LinePatternNeeds(c: char, labels: seq<string>, i: nat)
    requires i < |labels| && c in labels[i]
    ensures Needs(LinePattern(labels), c)
  {
    var p := LinePattern(labels);
    if i == 0 {
      assert p[0] == Lit(labels[0]);
    } else {
      LinePatternNeeds(c, labels[1..], i - 1);
      var q := LinePattern(labels[1..]);
      var j :| 0 <= j < |q| && q[j].Lit? && c in q[j].text;
      assert p[j + 2] == q[j];
    }
  }

  // ----- What the programs print -----

  /** Microseconds, held as thousandths: a sample in nanoseconds is printed as it is. */
  datatype Statistics = Statistics(mean: nat, min: nat, max: nat, p50: nat, p99: nat)

  datatype Report =
    | ProcessCreation(iterations: int, statistics: Statistics)
    | ContextSwitch(roundTrips: int, roundTrip: nat, perSwitch: nat, perSecond: nat)
    | SchedulerLatency(iterations: int, intervalUs: int, ncpus: int, statistics: Statistics)

  const STATISTICS_LABELS := ["mean_us=", " min_us=", " max_us=", " p50_us=", " p99_us="]
  const SWITCH_LABELS := ["round_trip_us=", " context_switch_us=", " context_switches_per_sec="]

  function StatisticsValues(t: Statistics): (values: seq<string>)
    ensures NumericTexts(values)
  {
    [PrintThousandths(t.mean), PrintThousandths(t.min), PrintThousandths(t.max), PrintThousandths(t.p50),
     PrintThousandths(t.p99)]
  }

  function HeaderName(r: Report): string {
    match r
    case ProcessCreation(_, _) => "benchmark=process_creation"
    case ContextSwitch(_, _, _, _) => "benchmark=context_switch"
    case SchedulerLatency(_, _, _, _) => "benchmark=scheduler_latency"
  }

  function HeaderLabels(r: Report): seq<string> {
    match r
    case ProcessCreation(_, _) => [" iterations="]
    case ContextSwitch(_, _, _, _) => [" round_trips="]
    case SchedulerLatency(_, _, _, _) => [" iterations=", " interval_us=", " ncpus="]
  }

  function HeaderValues(r: Report): (values: seq<string>)
    ensures |values| == |HeaderLabels(r)|
  {
    match r
    case ProcessCreation(n, _) => [PrintLong(n)]
    case ContextSwitch(n, _, _, _) => [PrintLong(n)]
    case SchedulerLatency(n, us, cpus, _) => [PrintLong(n), PrintLong(us), PrintLong(cpus)]
  }

  function ValueLabels(r: Report): seq<string> {
    if r.ContextSwitch? then SWITCH_LABELS else STATISTICS_LABELS
  }

  function Values(r: Report): (values: seq<string>)
    ensures |values| == |ValueLabels(r)| && NumericTexts(values)
  {
    match r
    case ProcessCreation(_, t) => StatisticsValues(t)
    case ContextSwitch(_, trip, each, rate) =>
      assert AllIn(Numeric, PrintNat(rate));
      [PrintThousandths(trip), PrintThousandths(each), PrintNat(rate)]
    case SchedulerLatency(_, _, _, t) => StatisticsValues(t)
  }

  function HeaderArguments(r: Report): string { Line(HeaderLabels(r), HeaderValues(r)) }

  function HeaderLine(r: Report): string { HeaderName(r) + HeaderArguments(r) }

  function ValueLine(r: Report): string { Line(ValueLabels(r), Values(r)) }

  function Print(r: Report): string {
    HeaderLine(r) + "\n" + (ValueLine(r) + "\n")
  }

  // ----- What the parser looks for -----

  datatype Kind = ProcessCreationKind | ContextSwitchKind | SchedulerLatencyKind

  function KindOf(r: Report): Kind {
    match r
    case ProcessCreation(_, _) => ProcessCreationKind
    case ContextSwitch(_, _, _, _) => ContextSwitchKind
    case SchedulerLatency(_, _, _, _) => SchedulerLatencyKind
  }

  const PROCESS_HEADER := "benchmark=process_creation"
  const LATENCY_HEADER := "benchmark=scheduler_latency"

  function HeadedPattern(header: string): Pattern {
    [Lit(header)] + ([RestOfLine] + LinePattern(STATISTICS_LABELS))
  }

  function PatternOf(k: Kind): Pattern {
    match k
    case ProcessCreationKind => HeadedPattern(PROCESS_HEADER)
    case ContextSwitchKind => LinePattern(SWITCH_LABELS)
    case SchedulerLatencyKind => HeadedPattern(LATENCY_HEADER)
  }

  const STATISTICS_NAMES := ["mean_us", "min_us", "max_us", "p50_us", "p99_us"]

  function FieldNames(k: Kind): seq<string> {
    if k == ContextSwitchKind then ["round_trip_us", "per_switch_us", "switches_per_sec"] else STATISTICS_NAMES
  }

  function KeyOf(k: Kind): string {
    match k
    case ProcessCreationKind => "process_creation"
    case ContextSwitchKind => "context_switch"
    case SchedulerLatencyKind => "scheduler_latency"
  }

  type Fields = map<string, Number>

  /** `{name: float(group), ...}`; `None` when some `float()` raises. */
  function ReadFields(names: seq<string>, groups: seq<string>): Option<Fields> {
    if names == [] || groups == [] then Some(map[])
    else match (ReadFloat(groups[0]), ReadFields(names[1..], groups[1..]))
      case (Some(v), Some(rest)) => Some(rest[names[0] := v])
      case _ => None
  }

  /** One `re.search` and the dictionary it fills: the outer `None` is a ValueError, the inner one
      a search without a match. */
  function ParseSection(k: Kind, text: string): Option<Option<Fields>> {
    match Search(PatternOf(k), text)
    case None => Some(None)
    case Some(groups) =>
      match ReadFields(FieldNames(k), groups)
      case None => None
      case Some(fields) => Some(Some(fields))
  }

  function WithSection(result: map<string, Fields>, k: Kind, fields: Option<Fields>): map<string, Fields> {
    if fields.Some? then result[KeyOf(k) := fields.value] else result
  }

  /** `parse_benchmark_output`; `None` when it raises ValueError. */
  function ParseBenchmarkOutput(text: string): Option<map<string, Fields>> {
    match (ParseSection(ProcessCreationKind, text), ParseSection(ContextSwitchKind, text),
           ParseSection(SchedulerLatencyKind, text))
    case (Some(p), Some(c), Some(l)) =>
      Some(WithSection(WithSection(WithSection(map[], ProcessCreationKind, p), ContextSwitchKind, c),
                       SchedulerLatencyKind, l))
    case _ => None
  }

  /** `_parse_latency`, which looks for the value line alone. */
  function ParseLatency(text: string): Option<Fields> {
    match Search(LinePattern(STATISTICS_LABELS), text)
    case None => Some(map[])
    case Some(groups) => ReadFields(STATISTICS_NAMES, groups)
  }

  // ----- What must come back -----

  function StatisticsFields(t: Statistics): Fields {
    map["mean_us" := Number(t.mean, 3), "min_us" := Number(t.min, 3), "max_us" := Number(t.max, 3),
        "p50_us" := Number(t.p50, 3), "p99_us" := Number(t.p99, 3)]
  }

  function FieldsOf(r: Report): Fields {
    match r
    case ProcessCreation(_, t) => StatisticsFields(t)
    case ContextSwitch(_, trip, each, rate) =>
      map["round_trip_us" := Number(trip, 3), "per_switch_us" := Number(each, 3), "switches_per_sec" := Number(rate, 0)]
    case SchedulerLatency(_, _, _, t) => StatisticsFields(t)
  }

  /** A log: noise, then reports each followed by more noise. */
  datatype Entry = Entry(report: Report, noise: string)

  function Body(entries: seq<Entry>): string {
    if entries == [] then ""
    else Print(entries[0].report) + (entries[0].noise + Body(entries[1..]))
  }

  function Log(noise: string, entries: seq<Entry>): string { noise + Body(entries) }

  /** Noise has neither statistics header, nor anything the context-switch search would take. */
  predicate Clean(noise: string) {
    && !Contains(PROCESS_HEADER, noise) && !Contains(LATENCY_HEADER, noise)
    && Search(LinePattern(SWITCH_LABELS), noise).None?
  }

  /** The first report of a kind. */
  function First(k: Kind, entries: seq<Entry>): Option<Report> {
    if entries == [] then None
    else if KindOf(entries[0].report) == k then Some(entries[0].report)
    else First(k, entries[1..])
  }

  // ----- Printed reports, character by character -----

  lemma LongLacks(c: char, n: int)
    requires !IsDigit(c) && c != '-'
    ensures Lacks(c, PrintLong(n))
  {
  }

  lemma NumericTextsLack(c: char, values: seq<string>)
    requires NumericTexts(values) && !InClass(Numeric, c)
    ensures AllLack(c, values)
  {
  }

  lemma LabelsLack(c: char)
    requires c in {'b', 'w', '@', '\n'}
    ensures AllLack(c, STATISTICS_LABELS)
    ensures c != 'w' ==> AllLack(c, SWITCH_LABELS)
  {
    var t := STATISTICS_LABELS;
    assert Lacks(c, t[0]) && Lacks(c, t[1]) && Lacks(c, t[2]) && Lacks(c, t[3]) && Lacks(c, t[4]);
    var s := SWITCH_LABELS;
    assert c != 'w' ==> Lacks(c, s[0]) && Lacks(c, s[1]) && Lacks(c, s[2]);
  }

  lemma ValueLineLacks(c: char, r: Report)
    requires c in {'b', '@', '\n'} || (c == 'w' && !r.ContextSwitch?)
    ensures Lacks(c, ValueLine(r))
  {
    LabelsLack(c);
    NumericTextsLack(c, Values(r));
    LineLacks(c, ValueLabels(r), Values(r));
  }

  lemma HeaderLabelsLack(c: char, r: Report)
    requires c in {'b', 'w', 'x', '@', '\n'}
    ensures AllLack(c, HeaderLabels(r))
  {
    assert Lacks(c, " iterations=") && Lacks(c, " round_trips=");
    assert Lacks(c, " interval_us=") && Lacks(c, " ncpus=");
  }

  lemma HeaderValuesLack(c: char, r: Report)
    requires !IsDigit(c) && c != '-'
    ensures AllLack(c, HeaderValues(r))
  {
    match r
    case ProcessCreation(n, _) => LongLacks(c, n);
    case ContextSwitch(n, _, _, _) => LongLacks(c, n);
    case SchedulerLatency(n, us, cpus, _) =>
      LongLacks(c, n);
      LongLacks(c, us);
      LongLacks(c, cpus);
  }

  lemma HeaderArgumentsLack(c: char, r: Report)
    requires c in {'b', 'w', 'x', '@', '\n'}
    ensures Lacks(c, HeaderArguments(r))
  {
    HeaderLabelsLack(c, r);
    HeaderValuesLack(c, r);
    LineLacks(c, HeaderLabels(r), HeaderValues(r));
  }

  lemma HeaderNameLacks(c: char, r: Report)
    requires c in {'@', '\n'} || (c in {'w', 'x'} && !r.ContextSwitch?)
    ensures Lacks(c, HeaderName(r))
  {
  }

  lemma HeaderLineLacks(c: char, r: Report)
    requires c in {'@', '\n'} || (c in {'w', 'x'} && !r.ContextSwitch?)
    ensures Lacks(c, HeaderLine(r))
  {
    HeaderNameLacks(c, r);
    HeaderArgumentsLack(c, r);
    LacksConcat(c, HeaderName(r), HeaderArguments(r));
  }

  /** `c` can only be the first character of `s`. */
  predicate OnlyFirst(c: char, s: string) {
    s != "" && s[0] == c && forall i :: 0 < i < |s| ==> s[i] != c
  }

  lemma OnlyFirstConcat(c: char, a: string, b: string)
    requires OnlyFirst(c, a) && Lacks(c, b)
    ensures OnlyFirst(c, a + b)
  {
  }

  lemma HeaderNameBeginsWithB(r: Report)
    ensures OnlyFirst('b', HeaderName(r))
  {
  }

  lemma OnlyFirstOfLines(c: char, name: string, arguments: string, values: string)
    requires c != '\n' && OnlyFirst(c, name) && Lacks(c, arguments) && Lacks(c, values)
    ensures OnlyFirst(c, name + arguments + "\n" + (values + "\n"))
  {
    OnlyFirstConcat(c, name, arguments);
    OnlyFirstConcat(c, name + arguments, "\n");
    LacksConcat(c, values, "\n");
    OnlyFirstConcat(c, name + arguments + "\n", values + "\n");
  }

  /** The letter b begins each report and occurs nowhere else in it. */
  lemma OnlyFirstIsB(r: Report)
    ensures OnlyFirst('b', Print(r))
  {
    HeaderNameBeginsWithB(r);
    HeaderArgumentsLack('b', r);
    ValueLineLacks('b', r);
    OnlyFirstOfLines('b', HeaderName(r), HeaderArguments(r), ValueLine(r));
  }

  /** Which statistics header a report begins with is its kind. */
  lemma HeaderNamesDiffer(r: Report, s: string)
    ensures PROCESS_HEADER <= HeaderName(r) + s <==> r.ProcessCreation?
    ensures LATENCY_HEADER <= HeaderName(r) + s <==> r.SchedulerLatency?
  {
    var t := HeaderName(r) + s;
    assert t[10] == HeaderName(r)[10];
    assert HeaderName(r) <= t;
  }

  // ----- Matching a printed report -----

  lemma StatisticsLabelsSeparate()
    ensures Separating(STATISTICS_LABELS)
  {
  }

  lemma SwitchLabelsSeparate()
    ensures Separating(SWITCH_LABELS)
  {
  }

  lemma MatchValueLine(r: Report, s: string)
    ensures Match(LinePattern(ValueLabels(r)), ValueLine(r) + ("\n" + s)) == Some(Values(r))
  {
    StatisticsLabelsSeparate();
    SwitchLabelsSeparate();
    MatchLine(ValueLabels(r), Values(r), "\n" + s);
  }

  lemma MatchHeadedLines(header: string, arguments: string, p: Pattern, values: string, s: string)
    requires Lacks('\n', arguments)
    ensures Match([Lit(header)] + ([RestOfLine] + p), header + arguments + "\n" + (values + "\n") + s)
         == Match(p, values + ("\n" + s))
  {
    var after := values + ("\n" + s);
    MatchRestOfLine(arguments, p, after);
    MatchLit(header, [RestOfLine] + p, arguments + "\n" + after);
    RegroupLines(header, arguments, values, s);
  }

  lemma RegroupLines(header: string, arguments: string, values: string, s: string)
    ensures header + arguments + "\n" + (values + "\n") + s == header + (arguments + "\n" + (values + ("\n" + s)))
  {
  }

  lemma MatchHeaded(r: Report, s: string)
    requires !r.ContextSwitch?
    ensures Match(PatternOf(KindOf(r)), Print(r) + s) == Some(Values(r))
  {
    HeaderArgumentsLack('\n', r);
    MatchValueLine(r, s);
    MatchHeadedLines(HeaderName(r), HeaderArguments(r), LinePattern(STATISTICS_LABELS), ValueLine(r), s);
  }

  // ----- Searching a log -----

  /** The headed searches pass over noise: no header straddles its end, because the body begins
      with the only b of a header. */
  lemma SearchSkipsNoise(header: string, p: Pattern, noise: string, body: string)
    requires OnlyFirst('b', header) && !Contains(header, noise)
    requires body == "" || body[0] == 'b'
    ensures Search([Lit(header)] + p, noise + body) == Search([Lit(header)] + p, body)
  {
    forall i | 0 <= i < |noise| ensures Match([Lit(header)] + p, noise[i..] + body).None? {
      var s := noise[i..] + body;
      ContainsSomewhere(header, noise);
      assert !(header <= noise[i..]);
      var n := |noise| - i;
      assert !(header <= s) by {
        assert |header| <= n ==> s[..|header|] == noise[i..][..|header|];
        assert n < |s| ==> s[n] == 'b';
      }
    }
    SearchSkips([Lit(header)] + p, noise, body);
  }

  lemma SwitchPatternAvoids(c: char)
    requires c in {'b', '\n'}
    ensures Avoids(LinePattern(SWITCH_LABELS), c)
  {
    LabelsLack(c);
    LinePatternAvoids(c, SWITCH_LABELS);
  }

  lemma SwitchSearchSkipsNoise(noise: string, body: string)
    requires Search(LinePattern(SWITCH_LABELS), noise).None?
    requires body == "" || body[0] == 'b'
    ensures Search(LinePattern(SWITCH_LABELS), noise + body) == Search(LinePattern(SWITCH_LABELS), body)
  {
    var p := LinePattern(SWITCH_LABELS);
    SearchIsLeftmost(p, noise);
    SwitchPatternAvoids('b');
    forall i | 0 <= i < |noise| ensures Match(p, noise[i..] + body).None? {
      if body == "" {
        assert noise[i..] + body == noise[i..];
      } else {
        MatchStopsAt(p, noise[i..], 'b', body[1..]);
        assert noise[i..] + ['b'] + body[1..] == noise[i..] + body;
      }
    }
    SearchSkips(p, noise, body);
  }

  /** A headed search passes over a report with another header. */
  lemma HeadedSearchSkipsReport(header: string, p: Pattern, r: Report, s: string)
    requires OnlyFirst('b', header) && !(header <= Print(r) + s)
    ensures Search([Lit(header)] + p, Print(r) + s) == Search([Lit(header)] + p, s)
  {
    OnlyFirstIsB(r);
    forall i | 0 <= i < |Print(r)| ensures Match([Lit(header)] + p, Print(r)[i..] + s).None? {
      if i == 0 {
        assert Print(r)[0..] == Print(r);
      } else {
        assert (Print(r)[i..] + s)[0] == Print(r)[i] != header[0];
      }
    }
    SearchSkips([Lit(header)] + p, Print(r), s);
  }

  lemma SwitchPatternBegins()
    ensures LinePattern(SWITCH_LABELS) != [] && LinePattern(SWITCH_LABELS)[0] == Lit("round_trip_us=")
  {
  }

  lemma SwitchPatternNeedsW()
    ensures Needs(LinePattern(SWITCH_LABELS), 'w')
  {
    assert SWITCH_LABELS[1][10] == 'w';
    LinePatternNeeds('w', SWITCH_LABELS, 1);
  }

  /** The context-switch search passes over a statistics report: neither of its lines has a w. */
  lemma SwitchSearchSkipsReport(r: Report, s: string)
    requires !r.ContextSwitch?
    ensures Search(LinePattern(SWITCH_LABELS), Print(r) + s) == Search(LinePattern(SWITCH_LABELS), s)
  {
    var p := LinePattern(SWITCH_LABELS);
    SwitchPatternAvoids('\n');
    SwitchPatternNeedsW();
    HeaderLineLacks('w', r);
    ValueLineLacks('w', r);
    SwitchPatternBegins();
    SearchSkipsTwoLines(p, 'w', HeaderLine(r), ValueLine(r), s);
  }

  lemma SearchSkipsTwoLines(p: Pattern, c: char, first: string, second: string, s: string)
    requires Avoids(p, '\n') && Needs(p, c) && Lacks(c, first) && Lacks(c, second)
    requires p != [] && p[0].Lit? && p[0].text != ""
    ensures Search(p, first + "\n" + (second + "\n") + s) == Search(p, s)
  {
    SearchSkipsLine(p, c, first, second + "\n" + s);
    SearchSkipsLine(p, c, second, s);
    assert first + "\n" + (second + "\n") + s == first + "\n" + (second + "\n" + s);
  }

  /** The search label occurs nowhere in the context-switch report's own header line. */
  lemma SwitchHeaderHasNoLabel(i: nat, s: string)
    requires i < |"benchmark=context_switch round_trips="|
    ensures !("round_trip_us=" <= ("benchmark=context_switch round_trips=" + s)[i..])
  {
    var h := "benchmark=context_switch round_trips=";
    var m := "round_trip_us=";
    assert (h + s)[i..][0] == h[i];
    if h[i] == 'r' {
      assert i in {7, 25, 32};
      assert (h + s)[i..][1] == h[i + 1];
      if i == 25 { assert (h + s)[i..][10] == h[35]; }
    }
  }

  lemma SwitchHeaderLineHasNoLabel(r: Report, i: nat, s: string)
    requires r.ContextSwitch? && i <= |HeaderLine(r)|
    ensures !("round_trip_us=" <= (HeaderLine(r) + ("\n" + s))[i..])
  {
    var h := "benchmark=context_switch round_trips=";
    var n := PrintLong(r.roundTrips);
    assert HeaderArguments(r) == " round_trips=" + n by {
      assert Line(HeaderLabels(r)[1..], HeaderValues(r)[1..]) == "";
      assert n + "" == n;
    }
    assert HeaderLine(r) == h + n;
    assert HeaderLine(r) + ("\n" + s) == h + (n + ("\n" + s));
    if i < |h| {
      SwitchHeaderHasNoLabel(i, n + ("\n" + s));
    } else {
      LongLacks('r', r.roundTrips);
      assert (HeaderLine(r) + ("\n" + s))[i..][0] == if i == |h + n| then '\n' else n[i - |h|];
    }
  }

  lemma SuffixPlus(a: string, s: string, i: nat)
    requires i <= |a|
    ensures (a + s)[i..] == a[i..] + s
  {
  }

  lemma SwitchSearchSkipsHeader(r: Report, after: string)
    requires r.ContextSwitch?
    ensures Search(LinePattern(SWITCH_LABELS), HeaderLine(r) + "\n" + after)
         == Search(LinePattern(SWITCH_LABELS), after)
  {
    var h := HeaderLine(r);
    var a := h + "\n";
    forall i | 0 <= i < |a| ensures !("round_trip_us=" <= a[i..] + after) {
      SwitchHeaderLineHasNoLabel(r, i, after);
      assert h + ("\n" + after) == a + after;
      SuffixPlus(a, after, i);
    }
    SwitchPatternBegins();
    SearchSkipsUnlabelled(LinePattern(SWITCH_LABELS), "round_trip_us=", a, after);
  }

  lemma SwitchSearchFindsReport(r: Report, s: string)
    requires r.ContextSwitch?
    ensures Search(LinePattern(SWITCH_LABELS), Print(r) + s) == Some(Values(r))
  {
    SwitchSearchSkipsHeader(r, ValueLine(r) + ("\n" + s));
    MatchValueLine(r, s);
    RegroupPrint(HeaderLine(r), ValueLine(r), s);
  }

  lemma RegroupPrint(header: string, values: string, s: string)
    ensures header + "\n" + (values + "\n") + s == header + "\n" + (values + ("\n" + s))
  {
  }

  lemma HeadedSearchFindsReport(r: Report, s: string)
    requires !r.ContextSwitch?
    ensures Search(PatternOf(KindOf(r)), Print(r) + s) == Some(Values(r))
  {
    MatchHeaded(r, s);
  }

  lemma Regroup(name: string, arguments: string, values: string, s: string)
    ensures name + arguments + "\n" + (values + "\n") + s == name + (arguments + ("\n" + (values + "\n" + s)))
  {
  }

  lemma HeaderNotAtOtherReport(header: string, r: Report, s: string)
    requires (header == PROCESS_HEADER && !r.ProcessCreation?) || (header == LATENCY_HEADER && !r.SchedulerLatency?)
    ensures !(header <= Print(r) + s)
  {
    Regroup(HeaderName(r), HeaderArguments(r), ValueLine(r), s);
    HeaderNamesDiffer(r, HeaderArguments(r) + ("\n" + (ValueLine(r) + "\n" + s)));
  }

  lemma HeadedSearchSkipsOtherReport(k: Kind, r: Report, s: string)
    requires k != ContextSwitchKind && KindOf(r) != k
    ensures Search(PatternOf(k), Print(r) + s) == Search(PatternOf(k), s)
  {
    var header := if k == ProcessCreationKind then PROCESS_HEADER else LATENCY_HEADER;
    HeaderNotAtOtherReport(header, r, s);
    HeadersBeginWithB();
    HeadedSearchSkipsReport(header, [RestOfLine] + LinePattern(STATISTICS_LABELS), r, s);
  }

  /** The search for a kind stops at a report of that kind and passes over every other. */
  lemma SearchAtReport(k: Kind, r: Report, s: string)
    ensures Search(PatternOf(k), Print(r) + s) == if KindOf(r) == k then Some(Values(r)) else Search(PatternOf(k), s)
  {
    if k == ContextSwitchKind {
      if r.ContextSwitch? { SwitchSearchFindsReport(r, s); } else { SwitchSearchSkipsReport(r, s); }
    } else if KindOf(r) == k {
      HeadedSearchFindsReport(r, s);
    } else {
      HeadedSearchSkipsOtherReport(k, r, s);
    }
  }

  lemma HeadersBeginWithB()
    ensures OnlyFirst('b', PROCESS_HEADER) && OnlyFirst('b', LATENCY_HEADER)
  {
  }

  lemma BodyBeginsWithB(entries: seq<Entry>)
    ensures Body(entries) == "" || Body(entries)[0] == 'b'
  {
    if entries != [] { OnlyFirstIsB(entries[0].report); }
  }

  lemma SearchSkipsCleanNoise(k: Kind, noise: string, entries: seq<Entry>)
    requires Clean(noise)
    ensures Search(PatternOf(k), noise + Body(entries)) == Search(PatternOf(k), Body(entries))
  {
    BodyBeginsWithB(entries);
    HeadersBeginWithB();
    var tail := [RestOfLine] + LinePattern(STATISTICS_LABELS);
    match k
    case ProcessCreationKind => SearchSkipsNoise(PROCESS_HEADER, tail, noise, Body(entries));
    case SchedulerLatencyKind => SearchSkipsNoise(LATENCY_HEADER, tail, noise, Body(entries));
    case ContextSwitchKind => SwitchSearchSkipsNoise(noise, Body(entries));
  }

  lemma SearchNothing(k: Kind)
    ensures Search(PatternOf(k), "").None?
  {
    SwitchPatternBegins();
  }

  /** Each search returns the values of the first report of its kind, wherever it is. */
  lemma {:induction false} SearchFindsFirst(k: Kind, noise: string, entries: seq<Entry>)
    requires Clean(noise) && forall i :: 0 <= i < |entries| ==> Clean(entries[i].noise)
    ensures Search(PatternOf(k), Log(noise, entries))
         == match First(k, entries) case None => None case Some(r) => Some(Values(r))
    decreases |entries|
  {
    SearchSkipsCleanNoise(k, noise, entries);
    if entries == [] {
      SearchNothing(k);
    } else {
      var after := Log(entries[0].noise, entries[1..]);
      SearchAtReport(k, entries[0].report, after);
      SearchFindsFirst(k, entries[0].noise, entries[1..]);
    }
  }

  // ----- Numbers back from captured groups -----

  lemma ReadFieldsCons(names: seq<string>, groups: seq<string>, v: Number, rest: Fields)
    requires names != [] && groups != []
    requires ReadFloat(groups[0]) == Some(v) && ReadFields(names[1..], groups[1..]) == Some(rest)
    ensures ReadFields(names, groups) == Some(rest[names[0] := v])
  {
  }

  /** The numbers read from a list of printed thousandths. */
  function Assign(names: seq<string>, numbers: seq<Number>): Fields {
    if names == [] || numbers == [] then map[] else Assign(names[1..], numbers[1..])[names[0] := numbers[0]]
  }

  lemma {:induction false} ReadFieldsAssigns(names: seq<string>, groups: seq<string>, numbers: seq<Number>)
    requires ReadsAs(groups, numbers)
    ensures ReadFields(names, groups) == Some(Assign(names, numbers))
  {
    if names != [] && groups != [] {
      ReadFieldsAssigns(names[1..], groups[1..], numbers[1..]);
      ReadFieldsCons(names, groups, numbers[0], Assign(names[1..], numbers[1..]));
    }
  }

  function StatisticsNumbers(t: Statistics): seq<Number> {
    [Number(t.mean, 3), Number(t.min, 3), Number(t.max, 3), Number(t.p50, 3), Number(t.p99, 3)]
  }

  function NumbersOf(r: Report): seq<Number> {
    match r
    case ContextSwitch(_, trip, each, rate) => [Number(trip, 3), Number(each, 3), Number(rate, 0)]
    case _ => StatisticsNumbers(r.statistics)
  }

  ghost predicate ReadsAs(values: seq<string>, numbers: seq<Number>) {
    |values| == |numbers| && forall i :: 0 <= i < |values| ==> ReadFloat(values[i]) == Some(numbers[i])
  }

  lemma ReadPrintedStatistics(t: Statistics)
    ensures ReadsAs(StatisticsValues(t), StatisticsNumbers(t))
  {
    ReadFloatOfThousandths(t.mean);
    ReadFloatOfThousandths(t.min);
    ReadFloatOfThousandths(t.max);
    ReadFloatOfThousandths(t.p50);
    ReadFloatOfThousandths(t.p99);
  }

  lemma ReadPrintedSwitches(trip: nat, each: nat, rate: nat)
    ensures ReadsAs([PrintThousandths(trip), PrintThousandths(each), PrintNat(rate)],
                    [Number(trip, 3), Number(each, 3), Number(rate, 0)])
  {
    ReadFloatOfThousandths(trip);
    ReadFloatOfThousandths(each);
    ReadFloatOfNat(rate);
  }

  lemma ReadPrintedValues(r: Report)
    ensures ReadsAs(Values(r), NumbersOf(r))
  {
    match r
    case ContextSwitch(_, trip, each, rate) => ReadPrintedSwitches(trip, each, rate);
    case _ => ReadPrintedStatistics(r.statistics);
  }

  lemma AssignIsFields(r: Report)
    ensures Assign(FieldNames(KindOf(r)), NumbersOf(r)) == FieldsOf(r)
  {
    var names, numbers := FieldNames(KindOf(r)), NumbersOf(r);
    AssignUnrolled(names, numbers);
  }

  lemma AssignUnrolled(names: seq<string>, numbers: seq<Number>)
    requires |names| == |numbers| && |names| in {3, 5}
    ensures |names| == 3 ==>
              Assign(names, numbers) == map[][names[2] := numbers[2]][names[1] := numbers[1]][names[0] := numbers[0]]
    ensures |names| == 5 ==>
              Assign(names, numbers) == map[][names[4] := numbers[4]][names[3] := numbers[3]]
                                             [names[2] := numbers[2]][names[1] := numbers[1]][names[0] := numbers[0]]
  {
    var n1, m1 := names[1..], numbers[1..];
    var n2, m2 := n1[1..], m1[1..];
    var n3, m3 := n2[1..], m2[1..];
    if |names| == 5 {
      var n4, m4 := n3[1..], m3[1..];
      assert Assign(n4, m4) == map[][names[4] := numbers[4]];
      assert Assign(n3, m3) == Assign(n4, m4)[names[3] := numbers[3]];
    }
    assert Assign(n2, m2) == Assign(n3, m3)[names[2] := numbers[2]];
    assert Assign(n1, m1) == Assign(n2, m2)[names[1] := numbers[1]];
  }

  /** A section of the dictionary holds the first report's numbers, exactly, or is absent. */
  lemma ParseSectionOfLog(k: Kind, noise: string, entries: seq<Entry>)
    requires Clean(noise) && forall i :: 0 <= i < |entries| ==> Clean(entries[i].noise)
    ensures ParseSection(k, Log(noise, entries))
         == Some(match First(k, entries) case None => None case Some(r) => Some(FieldsOf(r)))
  {
    SearchFindsFirst(k, noise, entries);
    if First(k, entries).Some? {
      var r := First(k, entries).value;
      FirstHasKind(k, entries);
      ReadPrintedValues(r);
      ReadFieldsAssigns(FieldNames(k), Values(r), NumbersOf(r));
      AssignIsFields(r);
    }
  }

  lemma {:induction false} FirstHasKind(k: Kind, entries: seq<Entry>)
    ensures First(k, entries).Some? ==> KindOf(First(k, entries).value) == k
  {
    if entries != [] { FirstHasKind(k, entries[1..]); }
  }

  function SectionOf(result: map<string, Fields>, k: Kind): Option<Fields> {
    if KeyOf(k) in result then Some(result[KeyOf(k)]) else None
  }

  lemma WithSectionReads(result: map<string, Fields>, k: Kind, fields: Option<Fields>, other: Kind)
    requires SectionOf(result, k).None?
    ensures SectionOf(WithSection(result, k, fields), other) == if other == k then fields else SectionOf(result, other)
  {
    assert KeyOf(ProcessCreationKind)[0] == 'p' && KeyOf(ContextSwitchKind)[0] == 'c';
    assert KeyOf(SchedulerLatencyKind)[0] == 's';
  }

  lemma SectionsRead(p: Option<Fields>, c: Option<Fields>, l: Option<Fields>, k: Kind)
    ensures SectionOf(WithSection(WithSection(WithSection(map[], ProcessCreationKind, p), ContextSwitchKind, c),
                                  SchedulerLatencyKind, l), k)
         == match k case ProcessCreationKind => p case ContextSwitchKind => c case SchedulerLatencyKind => l
  {
    var r1 := WithSection(map[], ProcessCreationKind, p);
    var r2 := WithSection(r1, ContextSwitchKind, c);
    WithSectionReads(map[], ProcessCreationKind, p, ContextSwitchKind);
    WithSectionReads(map[], ProcessCreationKind, p, SchedulerLatencyKind);
    WithSectionReads(map[], ProcessCreationKind, p, k);
    WithSectionReads(r1, ContextSwitchKind, c, SchedulerLatencyKind);
    WithSectionReads(r1, ContextSwitchKind, c, k);
    WithSectionReads(r2, SchedulerLatencyKind, l, k);
  }

  /** Print and parse are inverse: whatever reports a log holds, in any order, any number of times,
      between any clean noise, the parser returns under each key exactly the numbers of the first
      report of that kind, and no key for a kind that is not there. */
  lemma ParseRecoversReports(noise: string, entries: seq<Entry>, k: Kind)
    requires Clean(noise) && forall i :: 0 <= i < |entries| ==> Clean(entries[i].noise)
    ensures var result := ParseBenchmarkOutput(Log(noise, entries));
            result.Some? && SectionOf(result.value, k)
                         == match First(k, entries) case None => None case Some(r) => Some(FieldsOf(r))
  {
    var text := Log(noise, entries);
    ParseSectionOfLog(ProcessCreationKind, noise, entries);
    ParseSectionOfLog(ContextSwitchKind, noise, entries);
    ParseSectionOfLog(SchedulerLatencyKind, noise, entries);
    SectionsRead(ParseSection(ProcessCreationKind, text).value, ParseSection(ContextSwitchKind, text).value,
                 ParseSection(SchedulerLatencyKind, text).value, k);
  }

  // ----- The searches are the regular expressions of the parser -----

  lemma {:induction false} LinePatternDelimited(labels: seq<string>)
    requires Separating(labels)
    ensures Delimited(LinePattern(labels))
  {
    if labels != [] {
      LinePatternDelimited(labels[1..]);
      var q := LinePattern(labels[1..]);
      var p := LinePattern(labels);
      assert p[1..] == [Group(Numeric)] + q;
      assert p[1..][1..] == q;
      assert q != [] ==> q[0] == Lit(labels[1]);
      assert Delimited(p[1..]);
    }
  }

  /** Every search of the parser is delimited, so it decides its regular expression. */
  lemma {:induction false} ParserPatternsDelimited(k: Kind)
    ensures Delimited(PatternOf(k)) && Delimited(LinePattern(STATISTICS_LABELS))
  {
    StatisticsLabelsSeparate();
    SwitchLabelsSeparate();
    LinePatternDelimited(STATISTICS_LABELS);
    LinePatternDelimited(SWITCH_LABELS);
    HeadedDelimited(PROCESS_HEADER, LinePattern(STATISTICS_LABELS));
    HeadedDelimited(LATENCY_HEADER, LinePattern(STATISTICS_LABELS));
  }

  lemma HeadedDelimited(header: string, p: Pattern)
    requires Delimited(p)
    ensures Delimited([Lit(header)] + ([RestOfLine] + p))
  {
    var q := [RestOfLine] + p;
    assert q[1..] == p;
    assert ([Lit(header)] + q)[1..] == q;
  }

  // ----- The experiments' parser, and the guest's own log -----

  lemma StatisticsPatternFacts()
    ensures Needs(LinePattern(STATISTICS_LABELS), 'x') && Avoids(LinePattern(STATISTICS_LABELS), '\n')
    ensures LinePattern(STATISTICS_LABELS) != [] && LinePattern(STATISTICS_LABELS)[0] == Lit("mean_us=")
  {
    LabelsLack('\n');
    LinePatternAvoids('\n', STATISTICS_LABELS);
    assert STATISTICS_LABELS[2][3] == 'x';
    LinePatternNeeds('x', STATISTICS_LABELS, 2);
  }

  /** `_parse_latency` recovers the numbers of either statistics program's own output. */
  lemma ParseLatencyRecoversReport(r: Report)
    requires !r.ContextSwitch?
    ensures ParseLatency(Print(r)) == Some(FieldsOf(r))
  {
    StatisticsPatternFacts();
    HeaderLineLacks('x', r);
    SearchSkipsLine(LinePattern(STATISTICS_LABELS), 'x', HeaderLine(r), ValueLine(r) + "\n");
    MatchValueLine(r, "");
    assert ValueLine(r) + ("\n" + "") == ValueLine(r) + "\n";
    ReadPrintedValues(r);
    ReadFieldsAssigns(STATISTICS_NAMES, Values(r), NumbersOf(r));
    AssignIsFields(r);
  }

  lemma CleanWithout(c: char, noise: string)
    requires Lacks('b', noise) && Lacks(c, noise) && Needs(LinePattern(SWITCH_LABELS), c)
    ensures Clean(noise)
  {
    HeadersBeginWithB();
    ContainsSomewhere(PROCESS_HEADER, noise);
    ContainsSomewhere(LATENCY_HEADER, noise);
    forall i | 0 <= i <= |noise| ensures !(PROCESS_HEADER <= noise[i..]) && !(LATENCY_HEADER <= noise[i..]) {
      if i < |noise| { assert noise[i..][0] == noise[i]; }
    }
    SearchIsLeftmost(LinePattern(SWITCH_LABELS), noise);
    forall i | 0 <= i <= |noise| ensures Match(LinePattern(SWITCH_LABELS), noise[i..]).None? {
      if Match(LinePattern(SWITCH_LABELS), noise[i..]).Some? {
        MatchNeeds(LinePattern(SWITCH_LABELS), c, noise[i..]);
      }
    }
  }

  /** `echo "=== BENCHMARK-START name ==="`, and the same with END. */
  function Frame(word: string, name: string): string {
    "=== BENCHMARK-" + (word + (" " + (name + " ===\n")))
  }

  function Between(ended: Kind, started: Kind): string {
    Frame("END", KeyOf(ended)) + Frame("START", KeyOf(started))
  }

  lemma FrameLacks(c: char, word: string, k: Kind)
    requires word in {"START", "END"}
    requires c in {'b', '@'} || (c == 'd' && k != SchedulerLatencyKind) || (c == 'p' && k != ProcessCreationKind)
    ensures Lacks(c, Frame(word, KeyOf(k)))
  {
    assert Lacks(c, "START") && Lacks(c, "END") && Lacks(c, "=== BENCHMARK-") && Lacks(c, " ===\n") && Lacks(c, " ");
    assert Lacks(c, KeyOf(k));
    LacksConcat(c, KeyOf(k), " ===\n");
    LacksConcat(c, " ", KeyOf(k) + " ===\n");
    LacksConcat(c, word, " " + (KeyOf(k) + " ===\n"));
    LacksConcat(c, "=== BENCHMARK-", word + (" " + (KeyOf(k) + " ===\n")));
  }

  lemma BetweenLacks(c: char, ended: Kind, started: Kind)
    requires c in {'b', '@'} || (c == 'd' && SchedulerLatencyKind !in {ended, started})
                             || (c == 'p' && ProcessCreationKind !in {ended, started})
    ensures Lacks(c, Between(ended, started))
  {
    FrameLacks(c, "END", ended);
    FrameLacks(c, "START", started);
    LacksConcat(c, Frame("END", KeyOf(ended)), Frame("START", KeyOf(started)));
  }

  lemma SwitchPatternNeedsLetters()
    ensures Needs(LinePattern(SWITCH_LABELS), 'd') && Needs(LinePattern(SWITCH_LABELS), 'p')
  {
    assert SWITCH_LABELS[0][4] == 'd' && SWITCH_LABELS[0][9] == 'p';
    LinePatternNeeds('d', SWITCH_LABELS, 0);
    LinePatternNeeds('p', SWITCH_LABELS, 0);
  }

  /** The lines the guest's init script prints between the benchmarks are clean noise. */
  lemma FramesAreClean()
    ensures Clean(Between(ProcessCreationKind, ContextSwitchKind))
    ensures Clean(Between(ContextSwitchKind, SchedulerLatencyKind))
  {
    BetweenLacks('b', ProcessCreationKind, ContextSwitchKind);
    BetweenLacks('d', ProcessCreationKind, ContextSwitchKind);
    BetweenLacks('b', ContextSwitchKind, SchedulerLatencyKind);
    BetweenLacks('p', ContextSwitchKind, SchedulerLatencyKind);
    SwitchPatternNeedsLetters();
    CleanWithout('d', Between(ProcessCreationKind, ContextSwitchKind));
    CleanWithout('p', Between(ContextSwitchKind, SchedulerLatencyKind));
  }

  /** What the guest prints: boot messages, the three reports in the init script's order, shutdown. */
  function GuestLog(boot: string, p: Report, c: Report, l: Report, shutdown: string): string {
    boot + (Print(p) + (Between(ProcessCreationKind, ContextSwitchKind)
      + (Print(c) + (Between(ContextSwitchKind, SchedulerLatencyKind) + (Print(l) + shutdown)))))
  }

  lemma ThreeEntriesRecovered(boot: string, x: Entry, y: Entry, z: Entry)
    requires Clean(boot) && Clean(x.noise) && Clean(y.noise) && Clean(z.noise)
    requires x.report.ProcessCreation? && y.report.ContextSwitch? && z.report.SchedulerLatency?
    ensures var result := ParseBenchmarkOutput(Log(boot, [x] + ([y] + [z])));
            && result.Some?
            && SectionOf(result.value, ProcessCreationKind) == Some(FieldsOf(x.report))
            && SectionOf(result.value, ContextSwitchKind) == Some(FieldsOf(y.report))
            && SectionOf(result.value, SchedulerLatencyKind) == Some(FieldsOf(z.report))
  {
    var entries := [x] + ([y] + [z]);
    assert entries[0] == x && entries[1] == y && entries[2] == z;
    FirstOfThree(x, y, z);
    ParseRecoversReports(boot, entries, ProcessCreationKind);
    ParseRecoversReports(boot, entries, ContextSwitchKind);
    ParseRecoversReports(boot, entries, SchedulerLatencyKind);
  }

  /** A complete guest log gives back all three reports. */
  lemma ParseRecoversGuestLog(boot: string, p: Report, c: Report, l: Report, shutdown: string)
    requires p.ProcessCreation? && c.ContextSwitch? && l.SchedulerLatency?
    requires Clean(boot) && Clean(shutdown)
    ensures var result := ParseBenchmarkOutput(GuestLog(boot, p, c, l, shutdown));
            && result.Some?
            && SectionOf(result.value, ProcessCreationKind) == Some(FieldsOf(p))
            && SectionOf(result.value, ContextSwitchKind) == Some(FieldsOf(c))
            && SectionOf(result.value, SchedulerLatencyKind) == Some(FieldsOf(l))
  {
    FramesAreClean();
    GuestLogIsLog(boot, p, c, l, shutdown);
    ThreeEntriesRecovered(boot, Entry(p, Between(ProcessCreationKind, ContextSwitchKind)),
                          Entry(c, Between(ContextSwitchKind, SchedulerLatencyKind)), Entry(l, shutdown));
  }

  function ThreeEntries(p: Report, c: Report, l: Report, shutdown: string): (entries: seq<Entry>)
    ensures |entries| == 3
  {
    [Entry(p, Between(ProcessCreationKind, ContextSwitchKind))]
      + ([Entry(c, Between(ContextSwitchKind, SchedulerLatencyKind))] + [Entry(l, shutdown)])
  }

  lemma FirstOfThree(x: Entry, y: Entry, z: Entry)
    requires KindOf(x.report) != KindOf(y.report) && KindOf(z.report) !in {KindOf(x.report), KindOf(y.report)}
    ensures var entries := [x] + ([y] + [z]);
            First(KindOf(x.report), entries) == Some(x.report) && First(KindOf(y.report), entries) == Some(y.report)
            && First(KindOf(z.report), entries) == Some(z.report)
  {
    var entries := [x] + ([y] + [z]);
    assert entries[1..] == [y] + [z] && ([y] + [z])[1..] == [z];
    assert First(KindOf(z.report), [z]) == Some(z.report);
  }

  lemma BodyCons(x: Entry, rest: seq<Entry>)
    ensures Body([x] + rest) == Print(x.report) + (x.noise + Body(rest))
  {
    assert ([x] + rest)[1..] == rest;
  }

  lemma GuestLogIsLog(boot: string, p: Report, c: Report, l: Report, shutdown: string)
    ensures GuestLog(boot, p, c, l, shutdown) == Log(boot, ThreeEntries(p, c, l, shutdown))
  {
    var e3 := [Entry(l, shutdown)];
    var e2 := [Entry(c, Between(ContextSwitchKind, SchedulerLatencyKind))] + e3;
    BodyCons(Entry(l, shutdown), []);
    BodyCons(Entry(c, Between(ContextSwitchKind, SchedulerLatencyKind)), e3);
    BodyCons(Entry(p, Between(ProcessCreationKind, ContextSwitchKind)), e2);
    assert e3 == e3 + [] && shutdown + "" == shutdown;
  }
}
