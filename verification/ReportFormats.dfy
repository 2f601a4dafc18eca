/** The formats on both sides, character by character and key by key: what the programs print, what the
    parser looks for, and the dictionary it fills. */
module ReportFormats {
  import opened Runs
  import opened Patterns
  import opened Decimals
  import opened BenchmarkReports

  // ----- What is printed -----

  lemma LineOf(name: string, value: string, labels: seq<string>, values: seq<string>)
    requires |labels| == |values|
    ensures Line([name] + labels, [value] + values) == name + (value + Line(labels, values))
  {
    assert ([name] + labels)[1..] == labels && ([value] + values)[1..] == values;
  }

  lemma LineOf3(a: string, b: string, c: string, x: string, y: string, z: string)
    ensures Line([a, b, c], [x, y, z]) == a + x + b + y + c + z
  {
    LineOf(c, z, [], []);
    LineOf(b, y, [c], [z]);
    LineOf(a, x, [b, c], [y, z]);
    assert [a] + [b, c] == [a, b, c] && [x] + [y, z] == [x, y, z];
    assert [b] + [c] == [b, c] && [y] + [z] == [y, z] && [c] + [] == [c] && [z] + [] == [z];
    assert Line([c], [z]) == c + z;
  }

  lemma LineOf1(a: string, x: string)
    ensures Line([a], [x]) == a + x
  {
    LineOf(a, x, [], []);
    assert [a] + [] == [a] && [x] + [] == [x];
  }

  lemma LineOf5(a: string, b: string, c: string, d: string, e: string,
                v: string, w: string, x: string, y: string, z: string)
    ensures Line([a, b, c, d, e], [v, w, x, y, z]) == a + v + b + w + c + x + d + y + e + z
  {
    LineOf3(c, d, e, x, y, z);
    LineOf(b, w, [c, d, e], [x, y, z]);
    LineOf(a, v, [b, c, d, e], [w, x, y, z]);
    assert [b] + [c, d, e] == [b, c, d, e] && [w] + [x, y, z] == [w, x, y, z];
    assert [a] + [b, c, d, e] == [a, b, c, d, e] && [v] + [w, x, y, z] == [v, w, x, y, z];
    Chain(a + v, b + w, c + x + d + y + e + z);
  }

  lemma Chain(a: string, b: string, c: string)
    ensures a + (b + c) == a + b + c
  {
  }

  /** The value line of a statistics program. */
  lemma StatisticsLine(r: Report)
    requires !r.ContextSwitch?
    ensures var t := r.statistics;
            ValueLine(r) == "mean_us=" + PrintThousandths(t.mean) + " min_us=" + PrintThousandths(t.min)
                            + " max_us=" + PrintThousandths(t.max) + " p50_us=" + PrintThousandths(t.p50)
                            + " p99_us=" + PrintThousandths(t.p99)
  {
    var t := r.statistics;
    LineOf5("mean_us=", " min_us=", " max_us=", " p50_us=", " p99_us=", PrintThousandths(t.mean),
            PrintThousandths(t.min), PrintThousandths(t.max), PrintThousandths(t.p50), PrintThousandths(t.p99));
  }

  /** `process_creation`'s two lines. */
  lemma PrintedProcessCreation(n: int, t: Statistics)
    ensures HeaderLine(ProcessCreation(n, t)) == "benchmark=process_creation" + (" iterations=" + PrintLong(n))
  {
    LineOf1(" iterations=", PrintLong(n));
  }

  /** `context_switch`'s two lines. */
  lemma PrintedContextSwitch(n: int, trip: nat, each: nat, rate: nat)
    ensures HeaderLine(ContextSwitch(n, trip, each, rate))
         == "benchmark=context_switch" + (" round_trips=" + PrintLong(n))
    ensures ValueLine(ContextSwitch(n, trip, each, rate))
         == "round_trip_us=" + PrintThousandths(trip) + " context_switch_us=" + PrintThousandths(each)
            + " context_switches_per_sec=" + PrintNat(rate)
  {
    LineOf1(" round_trips=", PrintLong(n));
    LineOf3("round_trip_us=", " context_switch_us=", " context_switches_per_sec=",
            PrintThousandths(trip), PrintThousandths(each), PrintNat(rate));
  }

  /** `scheduler_latency`'s header line. */
  lemma PrintedSchedulerLatency(n: int, us: int, cpus: int, t: Statistics)
    ensures HeaderLine(SchedulerLatency(n, us, cpus, t))
         == "benchmark=scheduler_latency"
            + (" iterations=" + PrintLong(n) + " interval_us=" + PrintLong(us) + " ncpus=" + PrintLong(cpus))
  {
    LineOf3(" iterations=", " interval_us=", " ncpus=", PrintLong(n), PrintLong(us), PrintLong(cpus));
  }

  /** Both lines end in a newline. */
  lemma PrintedLines(r: Report)
    ensures Print(r) == HeaderLine(r) + "\n" + ValueLine(r) + "\n"
  {
    Chain(HeaderLine(r) + "\n", ValueLine(r), "\n");
  }

  // ----- What is looked for -----

  const STATISTICS_ITEMS: Pattern :=
    [Lit("mean_us="), Group(Numeric), Lit(" min_us="), Group(Numeric), Lit(" max_us="), Group(Numeric),
     Lit(" p50_us="), Group(Numeric), Lit(" p99_us="), Group(Numeric)]

  lemma {:induction false} PatternItems(labels: seq<string>)
    ensures |LinePattern(labels)| == 2 * |labels|
    ensures forall i :: 0 <= i < |labels| ==>
              LinePattern(labels)[2 * i] == Lit(labels[i]) && LinePattern(labels)[2 * i + 1] == Group(Numeric)
  {
    if labels != [] {
      PatternItems(labels[1..]);
      var p, q := LinePattern(labels), LinePattern(labels[1..]);
      forall i | 0 <= i < |labels| ensures p[2 * i] == Lit(labels[i]) && p[2 * i + 1] == Group(Numeric) {
        if i > 0 { assert p[2 * i] == q[2 * (i - 1)] && p[2 * i + 1] == q[2 * (i - 1) + 1]; }
      }
    }
  }

  lemma StatisticsItems()
    ensures LinePattern(STATISTICS_LABELS) == STATISTICS_ITEMS
  {
    PatternItems(STATISTICS_LABELS);
    var p := LinePattern(STATISTICS_LABELS);
    assert p[2 * 0] == Lit("mean_us=") && p[2 * 1] == Lit(" min_us=") && p[2 * 2] == Lit(" max_us=");
    assert p[2 * 3] == Lit(" p50_us=") && p[2 * 4] == Lit(" p99_us=");
    assert p[2 * 0 + 1] == p[2 * 1 + 1] == p[2 * 2 + 1] == p[2 * 3 + 1] == p[2 * 4 + 1] == Group(Numeric);
  }

  /** The three regular expressions, item by item. */
  lemma ParserPatterns()
    ensures PatternOf(ProcessCreationKind) == [Lit("benchmark=process_creation"), RestOfLine] + STATISTICS_ITEMS
    ensures PatternOf(SchedulerLatencyKind) == [Lit("benchmark=scheduler_latency"), RestOfLine] + STATISTICS_ITEMS
    ensures PatternOf(ContextSwitchKind)
         == [Lit("round_trip_us="), Group(Numeric), Lit(" context_switch_us="), Group(Numeric),
             Lit(" context_switches_per_sec="), Group(Numeric)]
  {
    StatisticsItems();
    PatternItems(SWITCH_LABELS);
    var p := LinePattern(SWITCH_LABELS);
    assert p[2 * 0] == Lit("round_trip_us=") && p[2 * 1] == Lit(" context_switch_us=");
    assert p[2 * 2] == Lit(" context_switches_per_sec=");
    assert p[2 * 0 + 1] == p[2 * 1 + 1] == p[2 * 2 + 1] == Group(Numeric);
    HeadedItems("benchmark=process_creation");
    HeadedItems("benchmark=scheduler_latency");
  }

  lemma HeadedItems(header: string)
    ensures HeadedPattern(header) == [Lit(header), RestOfLine] + LinePattern(STATISTICS_LABELS)
  {
  }

  // ----- The dictionary -----

  lemma {:induction false} FirstIsFirst(k: Kind, entries: seq<Entry>)
    ensures First(k, entries).Some? <==> exists i :: 0 <= i < |entries| && KindOf(entries[i].report) == k
    ensures forall i :: 0 <= i < |entries| && KindOf(entries[i].report) == k
                        && (forall j :: 0 <= j < i ==> KindOf(entries[j].report) != k) ==>
              First(k, entries) == Some(entries[i].report)
  {
    if entries != [] {
      var tail := entries[1..];
      FirstIsFirst(k, tail);
      assert forall i :: 0 < i < |entries| ==> entries[i] == tail[i - 1];
      if First(k, entries).Some? && KindOf(entries[0].report) != k {
        var i :| 0 <= i < |tail| && KindOf(tail[i].report) == k;
        assert KindOf(entries[i + 1].report) == k;
      }
      if exists i :: 0 < i < |entries| && KindOf(entries[i].report) == k {
        var i :| 0 < i < |entries| && KindOf(entries[i].report) == k;
        assert KindOf(tail[i - 1].report) == k;
      }
      forall i | 0 <= i < |entries| && KindOf(entries[i].report) == k
                 && (forall j :: 0 <= j < i ==> KindOf(entries[j].report) != k)
        ensures First(k, entries) == Some(entries[i].report)
      {
        if i > 0 { assert forall j :: 0 <= j < i - 1 ==> tail[j] == entries[j + 1]; }
      }
    }
  }

  /** A dictionary made of the sections found. */
  predicate Holds(m: map<string, Fields>, p: Option<Fields>, c: Option<Fields>, l: Option<Fields>) {
    && m.Keys <= {"process_creation", "context_switch", "scheduler_latency"}
    && ("process_creation" in m <==> p.Some?) && (p.Some? ==> m["process_creation"] == p.value)
    && ("context_switch" in m <==> c.Some?) && (c.Some? ==> m["context_switch"] == c.value)
    && ("scheduler_latency" in m <==> l.Some?) && (l.Some? ==> m["scheduler_latency"] == l.value)
  }

  lemma KeysDiffer()
    ensures "process_creation" != "context_switch" && "context_switch" != "scheduler_latency"
    ensures "process_creation" != "scheduler_latency"
  {
    assert "process_creation"[0] == 'p' && "context_switch"[0] == 'c' && "scheduler_latency"[0] == 's';
  }

  lemma DictionaryHolds(p: Option<Fields>, c: Option<Fields>, l: Option<Fields>)
    ensures Holds(WithSection(WithSection(WithSection(map[], ProcessCreationKind, p), ContextSwitchKind, c),
                              SchedulerLatencyKind, l), p, c, l)
  {
    KeysDiffer();
  }

  lemma ParsedSectionsHold(text: string, p: Option<Fields>, c: Option<Fields>, l: Option<Fields>)
    requires ParseSection(ProcessCreationKind, text) == Some(p) && ParseSection(ContextSwitchKind, text) == Some(c)
    requires ParseSection(SchedulerLatencyKind, text) == Some(l)
    ensures ParseBenchmarkOutput(text).Some? && Holds(ParseBenchmarkOutput(text).value, p, c, l)
  {
    DictionaryHolds(p, c, l);
  }

  lemma LogDictionary(noise: string, entries: seq<Entry>)
    requires Clean(noise) && forall i :: 0 <= i < |entries| ==> Clean(entries[i].noise)
    ensures ParseBenchmarkOutput(Log(noise, entries)).Some?
    ensures Holds(ParseBenchmarkOutput(Log(noise, entries)).value,
                  FieldsOfFirst(ProcessCreationKind, entries), FieldsOfFirst(ContextSwitchKind, entries),
                  FieldsOfFirst(SchedulerLatencyKind, entries))
  {
    ParseSectionOfLog(ProcessCreationKind, noise, entries);
    ParseSectionOfLog(ContextSwitchKind, noise, entries);
    ParseSectionOfLog(SchedulerLatencyKind, noise, entries);
    ParsedSectionsHold(Log(noise, entries), FieldsOfFirst(ProcessCreationKind, entries),
                       FieldsOfFirst(ContextSwitchKind, entries), FieldsOfFirst(SchedulerLatencyKind, entries));
  }

  function FieldsOfFirst(k: Kind, entries: seq<Entry>): Option<Fields> {
    match First(k, entries) case None => None case Some(r) => Some(FieldsOf(r))
  }

  /** The dictionary of any log, key by key: each key is there if and only if a report of its program is, and
      then holds that program's first report's numbers under the parser's names; there is no other key. */
  lemma ParserFillsDictionary(noise: string, entries: seq<Entry>)
    requires Clean(noise) && forall i :: 0 <= i < |entries| ==> Clean(entries[i].noise)
    ensures ParseBenchmarkOutput(Log(noise, entries)).Some?
    ensures var m := ParseBenchmarkOutput(Log(noise, entries)).value;
            && m.Keys <= {"process_creation", "context_switch", "scheduler_latency"}
            && ("process_creation" in m <==> exists i :: 0 <= i < |entries| && entries[i].report.ProcessCreation?)
            && ("context_switch" in m <==> exists i :: 0 <= i < |entries| && entries[i].report.ContextSwitch?)
            && ("scheduler_latency" in m <==> exists i :: 0 <= i < |entries| && entries[i].report.SchedulerLatency?)
  {
    LogDictionary(noise, entries);
    KindsPresent(entries);
  }

  lemma KindsPresent(entries: seq<Entry>)
    ensures First(ProcessCreationKind, entries).Some?
            <==> exists i :: 0 <= i < |entries| && entries[i].report.ProcessCreation?
    ensures First(ContextSwitchKind, entries).Some?
            <==> exists i :: 0 <= i < |entries| && entries[i].report.ContextSwitch?
    ensures First(SchedulerLatencyKind, entries).Some?
            <==> exists i :: 0 <= i < |entries| && entries[i].report.SchedulerLatency?
  {
    FirstIsFirst(ProcessCreationKind, entries);
    FirstIsFirst(ContextSwitchKind, entries);
    FirstIsFirst(SchedulerLatencyKind, entries);
  }

  lemma ProcessCreationSection(noise: string, entries: seq<Entry>, i: nat)
    requires Clean(noise) && forall j :: 0 <= j < |entries| ==> Clean(entries[j].noise)
    requires i < |entries| && entries[i].report.ProcessCreation?
    requires forall j :: 0 <= j < i ==> !entries[j].report.ProcessCreation?
    ensures var r := ParseBenchmarkOutput(Log(noise, entries));
            var t := entries[i].report.statistics;
            && r.Some? && "process_creation" in r.value
            && r.value["process_creation"]
               == map["mean_us" := Number(t.mean, 3), "min_us" := Number(t.min, 3), "max_us" := Number(t.max, 3),
                      "p50_us" := Number(t.p50, 3), "p99_us" := Number(t.p99, 3)]
  {
    LogDictionary(noise, entries);
    FirstIsFirst(ProcessCreationKind, entries);
  }

  lemma SchedulerLatencySection(noise: string, entries: seq<Entry>, i: nat)
    requires Clean(noise) && forall j :: 0 <= j < |entries| ==> Clean(entries[j].noise)
    requires i < |entries| && entries[i].report.SchedulerLatency?
    requires forall j :: 0 <= j < i ==> !entries[j].report.SchedulerLatency?
    ensures var r := ParseBenchmarkOutput(Log(noise, entries));
            var t := entries[i].report.statistics;
            && r.Some? && "scheduler_latency" in r.value
            && r.value["scheduler_latency"]
               == map["mean_us" := Number(t.mean, 3), "min_us" := Number(t.min, 3), "max_us" := Number(t.max, 3),
                      "p50_us" := Number(t.p50, 3), "p99_us" := Number(t.p99, 3)]
  {
    LogDictionary(noise, entries);
    FirstIsFirst(SchedulerLatencyKind, entries);
  }

  lemma ContextSwitchSection(noise: string, entries: seq<Entry>, i: nat)
    requires Clean(noise) && forall j :: 0 <= j < |entries| ==> Clean(entries[j].noise)
    requires i < |entries| && entries[i].report.ContextSwitch?
    requires forall j :: 0 <= j < i ==> !entries[j].report.ContextSwitch?
    ensures var r := ParseBenchmarkOutput(Log(noise, entries));
            var c := entries[i].report;
            && r.Some? && "context_switch" in r.value
            && r.value["context_switch"]
               == map["round_trip_us" := Number(c.roundTrip, 3), "per_switch_us" := Number(c.perSwitch, 3),
                      "switches_per_sec" := Number(c.perSecond, 0)]
  {
    LogDictionary(noise, entries);
    FirstIsFirst(ContextSwitchKind, entries);
  }

  /** The headerless search on a text without a value line: an empty dictionary, not an error. */
  lemma NoValueLine(text: string)
    requires Lacks('x', text)
    ensures ParseLatency(text) == Some(map[])
  {
    var p := LinePattern(STATISTICS_LABELS);
    StatisticsPatternFacts();
    SearchIsLeftmost(p, text);
    forall i | 0 <= i <= |text| ensures Match(p, text[i..]).None? {
      if Match(p, text[i..]).Some? { MatchNeeds(p, 'x', text[i..]); }
    }
  }

  /** A framing line of the guest's init script. */
  lemma FramingLine(word: string, name: string)
    ensures Frame(word, name) == "=== BENCHMARK-" + word + " " + name + " ===\n"
  {
    Chain("=== BENCHMARK-" + word + " ", name, " ===\n");
    Chain("=== BENCHMARK-" + word, " ", name + " ===\n");
    Chain("=== BENCHMARK-", word, " " + (name + " ===\n"));
  }

  /** Those between the benchmarks. */
  lemma FramingLines()
    ensures Between(ProcessCreationKind, ContextSwitchKind)
         == Frame("END", "process_creation") + Frame("START", "context_switch")
    ensures Between(ContextSwitchKind, SchedulerLatencyKind)
         == Frame("END", "context_switch") + Frame("START", "scheduler_latency")
  {
  }

  /** The guest's log: boot messages, and the three reports with those lines between them. */
  lemma GuestLogText(boot: string, p: Report, c: Report, l: Report, shutdown: string)
    ensures GuestLog(boot, p, c, l, shutdown)
         == boot + Print(p) + Between(ProcessCreationKind, ContextSwitchKind)
            + Print(c) + Between(ContextSwitchKind, SchedulerLatencyKind) + Print(l) + shutdown
  {
    var first := Between(ProcessCreationKind, ContextSwitchKind);
    var second := Between(ContextSwitchKind, SchedulerLatencyKind);
    Chain(boot + Print(p) + first + Print(c) + second, Print(l), shutdown);
    Chain(boot + Print(p) + first + Print(c), second, Print(l) + shutdown);
    Chain(boot + Print(p) + first, Print(c), second + (Print(l) + shutdown));
    Chain(boot + Print(p), first, Print(c) + (second + (Print(l) + shutdown)));
    Chain(boot, Print(p), first + (Print(c) + (second + (Print(l) + shutdown))));
  }
}
