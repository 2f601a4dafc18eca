/** The metrics stream: each tick of bpftrace prints a switches line and then a wakeups line, between
    arbitrary other lines; the agent pairs them and adds the CPU use since the previous metric.

    The CPU readings are given, one for the start and one for each metric. */
module TickPairing {
  import opened Runs
  import opened Patterns
  import opened Decimals

  datatype Tick = Switches(count: nat) | Wakeups(count: nat) | Other

  const SWITCHES_LABEL := "@switches: "
  const WAKEUPS_LABEL := "@wakeups: "

  function CountPattern(name: string): Pattern { [Lit(name)] + ([Group(Digits)] + []) }

  /** `int(match.group(1))`, when the search succeeds. */
  function CountIn(name: string, line: string): Option<nat> {
    match Search(CountPattern(name), line)
    case None => None
    case Some(groups) => if |groups| == 1 && AllIn(Digits, groups[0]) then Some(NatValue(groups[0])) else None
  }

  /** What a line is to the stream: the switches search comes first. */
  function TickOf(line: string): Tick {
    match CountIn(SWITCHES_LABEL, line)
    case Some(n) => Switches(n)
    case None =>
      match CountIn(WAKEUPS_LABEL, line)
      case Some(n) => Wakeups(n)
      case None => Other
  }

  function TicksOf(lines: seq<string>): (ticks: seq<Tick>)
    ensures |ticks| == |lines|
  {
    if lines == [] then [] else [TickOf(lines[0])] + TicksOf(lines[1..])
  }

  lemma {:induction false} TicksAre(lines: seq<string>)
    ensures forall i :: 0 <= i < |lines| ==> TicksOf(lines)[i] == TickOf(lines[i])
  {
    if lines != [] {
      TicksAre(lines[1..]);
      assert forall i :: 0 < i < |lines| ==>
               TicksOf(lines)[i] == TicksOf(lines[1..])[i - 1] && lines[i] == lines[1..][i - 1];
    }
  }

  datatype Pair = Pair(switches: nat, wakeups: nat)

  // ----- Which pairs a stream owes, without any state -----

  /** The nearest line before `i` that is a tick at all. */
  function Nearest(ticks: seq<Tick>, i: nat): Option<nat>
    requires i <= |ticks|
  {
    if i == 0 then None
    else if ticks[i - 1] != Other then Some(i - 1)
    else Nearest(ticks, i - 1)
  }

  /** A wakeups line makes a metric exactly when the nearest tick before it is a switches line. */
  function PairAt(ticks: seq<Tick>, i: nat): Option<Pair>
    requires i < |ticks|
  {
    var j := Nearest(ticks, i);
    if ticks[i].Wakeups? && j.Some? && j.value < i && ticks[j.value].Switches?
    then Some(Pair(ticks[j.value].count, ticks[i].count)) else None
  }

  /** All the pairs of the first `i` lines, in order. */
  function PairsUpTo(ticks: seq<Tick>, i: nat): seq<Pair>
    requires i <= |ticks|
  {
    if i == 0 then []
    else match PairAt(ticks, i - 1)
      case None => PairsUpTo(ticks, i - 1)
      case Some(p) => PairsUpTo(ticks, i - 1) + [p]
  }

  /** The switches count waiting for its wakeups line after `i` lines. */
  function PendingAt(ticks: seq<Tick>, i: nat): Option<nat>
    requires i <= |ticks|
  {
    var j := Nearest(ticks, i);
    if j.Some? && j.value < i && ticks[j.value].Switches? then Some(ticks[j.value].count) else None
  }

  lemma {:induction false} NearestIsNearest(ticks: seq<Tick>, i: nat)
    requires i <= |ticks|
    ensures var j := Nearest(ticks, i);
            && (j.Some? ==> j.value < i && ticks[j.value] != Other)
            && (forall k :: (if j.Some? then j.value else -1) < k < i ==> ticks[k] == Other)
  {
    if i > 0 && ticks[i - 1] == Other { NearestIsNearest(ticks, i - 1); }
  }

  /** What one more tick adds to the pairs and does to the count that is waiting. */
  lemma OneMoreTick(ticks: seq<Tick>, i: nat)
    requires i < |ticks|
    ensures PairsUpTo(ticks, i + 1)
         == PairsUpTo(ticks, i) + (if ticks[i].Wakeups? && PendingAt(ticks, i).Some?
                                   then [Pair(PendingAt(ticks, i).value, ticks[i].count)] else [])
    ensures PendingAt(ticks, i + 1)
         == match ticks[i] case Switches(n) => Some(n) case Wakeups(n) => None case Other => PendingAt(ticks, i)
  {
    NearestIsNearest(ticks, i);
  }

  // ----- CPU accounting -----

  /** Idle and total jiffies of one reading of /proc/stat. */
  datatype Reading = Reading(idle: int, total: int)

  /** CPU percentage between two readings, before rounding. */
  function Percent(before: Reading, now: Reading): real {
    var total := now.total - before.total;
    if total > 0 then 100.0 * (1.0 - (now.idle - before.idle) as real / total as real) else 0.0
  }

  datatype Metrics = Metrics(pair: Pair, before: Reading, now: Reading, cpu: real)

  /** The metrics of a list of pairs: the k-th lies between readings k and k+1. */
  function MetricsOf(pairs: seq<Pair>, cpu: nat -> Reading): (metrics: seq<Metrics>)
    ensures |metrics| == |pairs|
  {
    if pairs == [] then []
    else
      var k := |pairs| - 1;
      MetricsOf(pairs[..k], cpu) + [Metrics(pairs[k], cpu(k), cpu(k + 1), Percent(cpu(k), cpu(k + 1)))]
  }

  lemma MetricsAppend(pairs: seq<Pair>, p: Pair, cpu: nat -> Reading)
    ensures MetricsOf(pairs + [p], cpu)
         == MetricsOf(pairs, cpu)
            + [Metrics(p, cpu(|pairs|), cpu(|pairs| + 1), Percent(cpu(|pairs|), cpu(|pairs| + 1)))]
  {
    assert (pairs + [p])[..|pairs|] == pairs;
  }

  // ----- The stream itself -----

  /** The two searches on line `i`, the second only when the first finds nothing. */
  method SearchLine(lines: seq<string>, i: nat) returns (switches: Option<nat>, wakeups: Option<nat>)
    requires i < |lines|
    ensures var tick := TicksOf(lines)[i];
            && switches == (if tick.Switches? then Some(tick.count) else None)
            && wakeups == (if tick.Wakeups? then Some(tick.count) else None)
  {
    TicksAre(lines);
    switches, wakeups := CountIn(SWITCHES_LABEL, lines[i]), None;
    if switches.Some? { return; }
    wakeups := CountIn(WAKEUPS_LABEL, lines[i]);
  }

  /** One metric more, after reading the CPU counters once. */
  method Measure(previous: Reading, switches: nat, wakeups: nat, ghost pairs: seq<Pair>, cpu: nat -> Reading,
                 metrics: seq<Metrics>) returns (more: seq<Metrics>, now: Reading)
    requires metrics == MetricsOf(pairs, cpu) && previous == cpu(|metrics|)
    ensures more == MetricsOf(pairs + [Pair(switches, wakeups)], cpu) && |more| == |metrics| + 1 && now == cpu(|more|)
  {
    now := cpu(|metrics| + 1);
    MetricsAppend(pairs, Pair(switches, wakeups), cpu);
    more := metrics + [Metrics(Pair(switches, wakeups), previous, now, Percent(previous, now))];
  }

  /** The agent's local variables after `i` lines. */
  ghost predicate Consistent(lines: seq<string>, i: nat, cpu: nat -> Reading, metrics: seq<Metrics>,
                             previous: Reading, pendingSwitches: Option<nat>)
  {
    && i <= |lines|
    && metrics == MetricsOf(PairsUpTo(TicksOf(lines), i), cpu)
    && previous == cpu(|metrics|)
    && pendingSwitches == PendingAt(TicksOf(lines), i)
  }

  /** The loop body, past the stop check. */
  method ProcessLine(lines: seq<string>, i: nat, cpu: nat -> Reading, metrics: seq<Metrics>, previous: Reading,
                     pendingSwitches: Option<nat>)
    returns (metrics': seq<Metrics>, previous': Reading, pendingSwitches': Option<nat>)
    requires i < |lines| && Consistent(lines, i, cpu, metrics, previous, pendingSwitches)
    ensures Consistent(lines, i + 1, cpu, metrics', previous', pendingSwitches')
  {
    ghost var pairs := PairsUpTo(TicksOf(lines), i);
    OneMoreTick(TicksOf(lines), i);
    metrics', previous', pendingSwitches' := metrics, previous, pendingSwitches;
    var switches, wakeups := SearchLine(lines, i);
    if switches.Some? {
      pendingSwitches' := switches;
      return;
    }
    if wakeups.None? || pendingSwitches.None? { return; }
    metrics', previous' := Measure(previous, pendingSwitches.value, wakeups.value, pairs, cpu, metrics);
    pendingSwitches' := None;
  }

  /** `stream_metrics`; `stopped(i)` is the stop flag as seen when line `i` has arrived.  The metrics are
      exactly those of the pairs owed by the lines before the first one that finds the flag set, and
      their CPU figures tile the time since the first reading. */
  method StreamMetrics(lines: seq<string>, stopped: nat -> bool, cpu: nat -> Reading)
    returns (metrics: seq<Metrics>, processed: nat)
    ensures processed <= |lines| && (forall k: nat :: k < processed ==> !stopped(k))
    ensures processed < |lines| ==> stopped(processed)
    ensures metrics == MetricsOf(PairsUpTo(TicksOf(lines), processed), cpu)
  {
    metrics, processed := [], 0;
    var previous := cpu(0);
    var pendingSwitches: Option<nat> := None;
    while processed < |lines|
      invariant Consistent(lines, processed, cpu, metrics, previous, pendingSwitches)
      invariant forall k: nat :: k < processed ==> !stopped(k)
    {
      if stopped(processed) { return; }
      metrics, previous, pendingSwitches := ProcessLine(lines, processed, cpu, metrics, previous, pendingSwitches);
      processed := processed + 1;
    }
  }

  // ----- What the pairs are -----

  /** A metric is owed at a wakeups line exactly when some switches line precedes it with no other wakeups
      line between, and it then carries the count of the latest such switches line. */
  lemma PairsWithLatestSwitches(ticks: seq<Tick>, i: nat)
    requires i < |ticks|
    ensures PairAt(ticks, i).Some? <==>
              ticks[i].Wakeups? && exists j :: 0 <= j < i && ticks[j].Switches? && NoWakeups(ticks, j, i)
    ensures forall j :: 0 <= j < i && ticks[j].Switches? && PairAt(ticks, i).Some? && NoSwitches(ticks, j + 1, i) ==>
              PairAt(ticks, i) == Some(Pair(ticks[j].count, ticks[i].count))
  {
    NearestIsNearest(ticks, i);
    var j := Nearest(ticks, i);
    if PairAt(ticks, i).Some? {
      assert NoWakeups(ticks, j.value, i);
    }
    if exists k :: 0 <= k < i && ticks[k].Switches? && NoWakeups(ticks, k, i) {
      var k :| 0 <= k < i && ticks[k].Switches? && NoWakeups(ticks, k, i);
      assert j.Some? && k <= j.value;
    }
    forall k | 0 <= k < i && ticks[k].Switches? && PairAt(ticks, i).Some? && NoSwitches(ticks, k + 1, i)
      ensures j == Some(k)
    {
      assert k <= j.value;
    }
  }

  predicate NoWakeups(ticks: seq<Tick>, from: int, to: nat)
    requires 0 <= from <= to <= |ticks|
  {
    forall k :: from <= k < to ==> !ticks[k].Wakeups?
  }

  predicate NoSwitches(ticks: seq<Tick>, from: int, to: nat)
    requires 0 <= from <= to <= |ticks|
  {
    forall k :: from <= k < to ==> !ticks[k].Switches?
  }

  /** No line is used twice: the lines of a later metric all come after those of an earlier one. */
  lemma NoLineUsedTwice(ticks: seq<Tick>, i: nat, later: nat)
    requires i < later < |ticks| && PairAt(ticks, i).Some? && PairAt(ticks, later).Some?
    ensures Nearest(ticks, i).value < i < Nearest(ticks, later).value < later
  {
    NearestIsNearest(ticks, i);
    NearestIsNearest(ticks, later);
    assert ticks[i] != Other;
  }

  // ----- A stream of ticks with noise -----

  function SwitchesLine(n: nat): string { SWITCHES_LABEL + (PrintNat(n) + "\n") }
  function WakeupsLine(n: nat): string { WAKEUPS_LABEL + (PrintNat(n) + "\n") }

  lemma MatchCount(name: string, n: nat)
    ensures Match(CountPattern(name), name + (PrintNat(n) + "\n")) == Some([PrintNat(n)])
  {
    MatchGroup(Digits, PrintNat(n), [], "\n");
    MatchLit(name, [Group(Digits)] + [], PrintNat(n) + "\n");
    assert [PrintNat(n)] + [] == [PrintNat(n)];
  }

  lemma CountInOwnLine(name: string, n: nat)
    ensures CountIn(name, name + (PrintNat(n) + "\n")) == Some(n)
  {
    MatchCount(name, n);
    ReadPrintedNat(n);
  }

  lemma NoSwitchesInWakeups(n: nat)
    ensures CountIn(SWITCHES_LABEL, WakeupsLine(n)).None?
  {
    var p := CountPattern(SWITCHES_LABEL);
    var line := WakeupsLine(n);
    ClassLacks(Digits, 'c', PrintNat(n));
    assert Lacks('c', line);
    assert p[0] == Lit(SWITCHES_LABEL) && SWITCHES_LABEL[5] == 'c';
    SearchIsLeftmost(p, line);
    forall i | 0 <= i <= |line| ensures Match(p, line[i..]).None? {
      if Match(p, line[i..]).Some? { MatchNeeds(p, 'c', line[i..]); }
    }
  }

  /** The lines bpftrace prints are read back as what they are. */
  lemma PrintedTicks(n: nat)
    ensures TickOf(SwitchesLine(n)) == Switches(n) && TickOf(WakeupsLine(n)) == Wakeups(n)
  {
    CountInOwnLine(SWITCHES_LABEL, n);
    CountInOwnLine(WAKEUPS_LABEL, n);
    NoSwitchesInWakeups(n);
  }

  /** One interval: its two lines, each followed by noise. */
  datatype Interval = Interval(pair: Pair, between: seq<string>, after: seq<string>)

  predicate NoisyLines(lines: seq<string>) { forall i :: 0 <= i < |lines| ==> TickOf(lines[i]) == Other }

  function IntervalLines(v: Interval): seq<string> {
    [SwitchesLine(v.pair.switches)] + v.between + [WakeupsLine(v.pair.wakeups)] + v.after
  }

  function Stream(before: seq<string>, intervals: seq<Interval>): seq<string> {
    if intervals == [] then before
    else Stream(before, intervals[..|intervals| - 1]) + IntervalLines(intervals[|intervals| - 1])
  }

  function PairsOf(intervals: seq<Interval>): seq<Pair> {
    if intervals == [] then [] else PairsOf(intervals[..|intervals| - 1]) + [intervals[|intervals| - 1].pair]
  }

  lemma {:induction false} OthersAddNothing(ticks: seq<Tick>, i: nat, j: nat)
    requires i <= j <= |ticks| && forall k :: i <= k < j ==> ticks[k] == Other
    ensures PairsUpTo(ticks, j) == PairsUpTo(ticks, i) && Nearest(ticks, j) == Nearest(ticks, i)
  {
    if i < j { OthersAddNothing(ticks, i, j - 1); }
  }

  lemma {:induction false} PairsOfPrefix(ticks: seq<Tick>, more: seq<Tick>, i: nat)
    requires i <= |ticks|
    ensures PairsUpTo(ticks + more, i) == PairsUpTo(ticks, i) && Nearest(ticks + more, i) == Nearest(ticks, i)
  {
    if i > 0 {
      PairsOfPrefix(ticks, more, i - 1);
      NearestIsNearest(ticks, i - 1);
    }
  }

  /** One more interval adds its own pair, whatever came before. */
  lemma IntervalAddsPair(ticks: seq<Tick>, n: nat, m: nat, pair: Pair)
    requires n < m < |ticks|
    requires ticks[n] == Switches(pair.switches) && ticks[m] == Wakeups(pair.wakeups)
    requires forall k :: n < k < |ticks| && k != m ==> ticks[k] == Other
    ensures PairsUpTo(ticks, |ticks|) == PairsUpTo(ticks, n) + [pair]
  {
    OthersAddNothing(ticks, n + 1, m);
    OthersAddNothing(ticks, m + 1, |ticks|);
    assert Nearest(ticks, n + 1) == Some(n);
    assert PairsUpTo(ticks, n + 1) == PairsUpTo(ticks, n);
    assert PairAt(ticks, m) == Some(pair);
  }

  lemma TicksOfConcat(a: seq<string>, b: seq<string>)
    ensures TicksOf(a + b) == TicksOf(a) + TicksOf(b)
  {
    TicksAre(a);
    TicksAre(b);
    TicksAre(a + b);
  }

  /** A stream of intervals, with any noise around their lines, yields exactly one pair per interval, in
      order. */
  lemma {:induction false} OnePairPerInterval(before: seq<string>, intervals: seq<Interval>)
    requires NoisyLines(before)
    requires forall v :: v in intervals ==> NoisyLines(v.between) && NoisyLines(v.after)
    ensures var lines := Stream(before, intervals);
            PairsUpTo(TicksOf(lines), |lines|) == PairsOf(intervals)
  {
    if intervals == [] {
      TicksAre(before);
      OthersAddNothing(TicksOf(before), 0, |before|);
    } else {
      var v := intervals[|intervals| - 1];
      var earlier := Stream(before, intervals[..|intervals| - 1]);
      OnePairPerInterval(before, intervals[..|intervals| - 1]);
      LastIntervalAddsPair(earlier, v);
    }
  }

  lemma LastIntervalAddsPair(earlier: seq<string>, v: Interval)
    requires NoisyLines(v.between) && NoisyLines(v.after)
    ensures var lines := earlier + IntervalLines(v);
            PairsUpTo(TicksOf(lines), |lines|) == PairsUpTo(TicksOf(earlier), |earlier|) + [v.pair]
  {
    var lines := earlier + IntervalLines(v);
    var ticks := TicksOf(lines);
    var n := |earlier|;
    var m := n + 1 + |v.between|;
    TicksAre(lines);
    PrintedTicks(v.pair.switches);
    PrintedTicks(v.pair.wakeups);
    assert lines[n] == SwitchesLine(v.pair.switches) && lines[m] == WakeupsLine(v.pair.wakeups);
    assert forall k :: n < k < m ==> lines[k] == v.between[k - n - 1];
    assert forall k :: m < k < |lines| ==> lines[k] == v.after[k - m - 1];
    IntervalAddsPair(ticks, n, m, v.pair);
    TicksOfConcat(earlier, IntervalLines(v));
    PairsOfPrefix(TicksOf(earlier), TicksOf(IntervalLines(v)), n);
  }

  // ----- Conservation of CPU time -----

  /** Counters that only grow, idle time being part of the total. */
  predicate Growing(cpu: nat -> Reading, n: nat) {
    forall k: nat :: k < n ==> 0 <= cpu(k + 1).idle - cpu(k).idle <= cpu(k + 1).total - cpu(k).total
  }

  function TotalDeltas(metrics: seq<Metrics>): int {
    if metrics == [] then 0
    else var m := metrics[|metrics| - 1];
         TotalDeltas(metrics[..|metrics| - 1]) + (m.now.total - m.before.total)
  }

  function IdleDeltas(metrics: seq<Metrics>): int {
    if metrics == [] then 0
    else var m := metrics[|metrics| - 1];
         IdleDeltas(metrics[..|metrics| - 1]) + (m.now.idle - m.before.idle)
  }

  /** Each percentage, weighted with the time it covers. */
  function WeightedPercent(metrics: seq<Metrics>): real {
    if metrics == [] then 0.0
    else var m := metrics[|metrics| - 1];
         WeightedPercent(metrics[..|metrics| - 1]) + m.cpu * (m.now.total - m.before.total) as real
  }

  lemma PercentOfInterval(before: Reading, now: Reading)
    requires 0 <= now.idle - before.idle <= now.total - before.total
    ensures 0.0 <= Percent(before, now) <= 100.0
    ensures Percent(before, now) * (now.total - before.total) as real
         == 100.0 * ((now.total - before.total) - (now.idle - before.idle)) as real
  {
    var t, i := (now.total - before.total) as real, (now.idle - before.idle) as real;
    if t > 0.0 {
      UnitQuotient(i, t);
      var q := i / t;
      assert 100.0 * (1.0 - q) * t == 100.0 * (t - q * t);
    }
  }

  lemma UnitQuotient(i: real, t: real)
    requires 0.0 <= i <= t && t > 0.0
    ensures 0.0 <= i / t <= 1.0 && i / t * t == i
  {
  }

  /** Over any metrics, the deltas telescope to last minus first: no CPU time is lost or counted twice. */
  lemma {:induction false} DeltasTelescope(pairs: seq<Pair>, cpu: nat -> Reading)
    ensures TotalDeltas(MetricsOf(pairs, cpu)) == cpu(|pairs|).total - cpu(0).total
    ensures IdleDeltas(MetricsOf(pairs, cpu)) == cpu(|pairs|).idle - cpu(0).idle
  {
    if pairs != [] {
      var k := |pairs| - 1;
      DeltasTelescope(pairs[..k], cpu);
      assert MetricsOf(pairs, cpu)[..k] == MetricsOf(pairs[..k], cpu);
    }
  }

  /** With growing counters every percentage lies in 0..100. */
  lemma {:induction false} PercentagesInRange(pairs: seq<Pair>, cpu: nat -> Reading)
    requires Growing(cpu, |pairs|)
    ensures forall m :: m in MetricsOf(pairs, cpu) ==> 0.0 <= m.cpu <= 100.0
  {
    if pairs != [] {
      var k := |pairs| - 1;
      PercentagesInRange(pairs[..k], cpu);
      PercentOfInterval(cpu(k), cpu(k + 1));
    }
  }

  /** Busy time since the first reading. */
  function Busy(cpu: nat -> Reading, n: nat): int {
    (cpu(n).total - cpu(0).total) - (cpu(n).idle - cpu(0).idle)
  }

  lemma HundredTimes(a: int, b: int)
    ensures 100.0 * a as real + 100.0 * b as real == 100.0 * (a + b) as real
  {
  }

  /** Weighted with the time they cover, the percentages add up to the whole busy time. */
  lemma {:induction false} BusyTimeIsConserved(pairs: seq<Pair>, cpu: nat -> Reading)
    requires Growing(cpu, |pairs|)
    ensures WeightedPercent(MetricsOf(pairs, cpu)) == 100.0 * Busy(cpu, |pairs|) as real
  {
    if pairs != [] {
      var k := |pairs| - 1;
      BusyTimeIsConserved(pairs[..k], cpu);
      assert MetricsOf(pairs, cpu)[..k] == MetricsOf(pairs[..k], cpu);
      PercentOfInterval(cpu(k), cpu(k + 1));
      HundredTimes(Busy(cpu, k), (cpu(k + 1).total - cpu(k).total) - (cpu(k + 1).idle - cpu(k).idle));
    }
  }

  // ----- The lines, literally -----

  /** What bpftrace prints for a tick. */
  lemma PrintedLines(n: nat)
    ensures SwitchesLine(n) == "@switches: " + (PrintNat(n) + "\n")
    ensures WakeupsLine(n) == "@wakeups: " + (PrintNat(n) + "\n")
  {
  }

  /** A line with a switches count is a switches line whatever follows the count, a wakeups count included. */
  lemma SwitchesComeFirst(n: nat, rest: string)
    requires rest != "" ==> !IsDigit(rest[0])
    ensures TickOf("@switches: " + (PrintNat(n) + rest)) == Switches(n)
  {
    MatchGroup(Digits, PrintNat(n), [], rest);
    MatchLit("@switches: ", [Group(Digits)] + [], PrintNat(n) + rest);
    assert [PrintNat(n)] + [] == [PrintNat(n)];
    ReadPrintedNat(n);
  }

  /** Each metric carries its own pair and lies between its own two readings. */
  lemma {:induction false} MetricsCarryPairs(pairs: seq<Pair>, cpu: nat -> Reading, k: nat)
    requires k < |pairs|
    ensures var m := MetricsOf(pairs, cpu)[k];
            m.pair == pairs[k] && m.before == cpu(k) && m.now == cpu(k + 1) && m.cpu == Percent(cpu(k), cpu(k + 1))
  {
    var n := |pairs| - 1;
    if k < n { MetricsCarryPairs(pairs[..n], cpu, k); }
  }

  /** A single percentage: of the time that passed, the share that was not idle; 0 when none passed. */
  lemma PercentIsBusyShare(before: Reading, now: Reading)
    ensures now.total <= before.total ==> Percent(before, now) == 0.0
    ensures now.total > before.total ==>
              Percent(before, now) * (now.total - before.total) as real
              == 100.0 * ((now.total - before.total) - (now.idle - before.idle)) as real
  {
    var t, i := (now.total - before.total) as real, (now.idle - before.idle) as real;
    if t > 0.0 {
      var q := i / t;
      assert q * t == i;
      assert 100.0 * (1.0 - q) * t == 100.0 * (t - q * t);
    }
  }
}
