/** The statistics of `process_creation` and `scheduler_latency`: sort the samples, then read off the
    minimum, maximum, median and 99th percentile, and sum them for the mean.

    `(int)(n * 0.99)` in doubles is the floor of 99n/100 for every `int` n: the product differs from the
    exact value by far less than a hundredth and is rounded to it when that is whole. */
module LatencyStatistics {
  import opened Runs
  import opened Decimals
  import opened BenchmarkReports

  predicate Ordered(s: seq<int>) { forall i, j :: 0 <= i <= j < |s| ==> s[i] <= s[j] }

  function Insert(x: int, s: seq<int>): seq<int> {
    if s == [] || x <= s[0] then [x] + s else [s[0]] + Insert(x, s[1..])
  }

  function Sort(s: seq<int>): seq<int> {
    if s == [] then [] else Insert(s[0], Sort(s[1..]))
  }

  lemma {:induction false} InsertOrdered(x: int, s: seq<int>)
    requires Ordered(s)
    ensures Ordered(Insert(x, s)) && |Insert(x, s)| == |s| + 1 && multiset(Insert(x, s)) == multiset(s) + multiset{x}
    ensures Insert(x, s)[0] == if s == [] || x <= s[0] then x else s[0]
  {
    if s == [] || x <= s[0] {
    } else {
      InsertOrdered(x, s[1..]);
      assert s == [s[0]] + s[1..];
      InsertAbove(x, s);
    }
  }

  lemma InsertAbove(x: int, s: seq<int>)
    requires Ordered(s) && s != [] && s[0] < x && Ordered(Insert(x, s[1..]))
    requires multiset(Insert(x, s[1..])) == multiset(s[1..]) + multiset{x}
    ensures Ordered([s[0]] + Insert(x, s[1..]))
  {
    var t := Insert(x, s[1..]);
    forall i | 0 <= i < |t| ensures s[0] <= t[i] {
      assert t[i] in multiset(t);
      assert t[i] == x || t[i] in multiset(s[1..]);
    }
  }

  lemma {:induction false} SortSorts(s: seq<int>)
    ensures Ordered(Sort(s)) && |Sort(s)| == |s| && multiset(Sort(s)) == multiset(s)
  {
    if s != [] {
      SortSorts(s[1..]);
      InsertOrdered(s[0], Sort(s[1..]));
      assert s == [s[0]] + s[1..];
    }
  }

  lemma FirstIsLeast(a: seq<int>, x: int)
    requires Ordered(a) && x in multiset(a)
    ensures a != [] && a[0] <= x
  {
  }

  lemma WithoutFirst(a: seq<int>)
    requires a != []
    ensures multiset(a[1..]) == multiset(a) - multiset{a[0]}
  {
    assert a == [a[0]] + a[1..];
  }

  lemma SameLength(a: seq<int>, b: seq<int>)
    requires multiset(a) == multiset(b)
    ensures |a| == |b|
  {
    assert |a| == |multiset(a)| == |multiset(b)| == |b|;
  }

  lemma HeadsAgree(a: seq<int>, b: seq<int>)
    requires Ordered(a) && Ordered(b) && multiset(a) == multiset(b) && a != []
    ensures b != [] && a[0] == b[0] && multiset(a[1..]) == multiset(b[1..])
  {
    SameLength(a, b);
    FirstIsLeast(a, b[0]);
    FirstIsLeast(b, a[0]);
    WithoutFirst(a);
    WithoutFirst(b);
  }

  lemma SameHeadAndTail(a: seq<int>, b: seq<int>)
    requires a != [] && b != [] && a[0] == b[0] && a[1..] == b[1..]
    ensures a == b
  {
    assert a == [a[0]] + a[1..] && b == [b[0]] + b[1..];
  }

  lemma OrderedTail(a: seq<int>)
    requires Ordered(a) && a != []
    ensures Ordered(a[1..])
  {
  }

  /** Ordered sequences with the same elements are the same: whatever sorts, sorts alike. */
  lemma {:induction false} OrderedIsUnique(a: seq<int>, b: seq<int>)
    requires Ordered(a) && Ordered(b) && multiset(a) == multiset(b)
    ensures a == b
  {
    if a == [] {
      SameLength(a, b);
    } else {
      HeadsAgree(a, b);
      OrderedTail(a);
      OrderedTail(b);
      OrderedIsUnique(a[1..], b[1..]);
      SameHeadAndTail(a, b);
    }
  }

  /** `qsort` with `cmp_long`, by its contract. */
  method Qsort(a: array<int>)
    modifies a
    ensures Ordered(a[..]) && multiset(a[..]) == multiset(old(a[..]))
  {
    var sorted := Sort(a[..]);
    SortSorts(a[..]);
    forall i | 0 <= i < a.Length {
      a[i] := sorted[i];
    }
    assert a[..] == sorted;
  }

  function Sum(s: seq<int>): int {
    if s == [] then 0 else Sum(s[..|s| - 1]) + s[|s| - 1]
  }

  datatype Summary = Summary(min: int, max: int, p50: int, p99: int, sum: int, count: nat)

  /** What is read off a sorted array. */
  function ReadOff(sorted: seq<int>): Summary
    requires sorted != []
  {
    var n := |sorted|;
    Summary(sorted[0], sorted[n - 1], sorted[n / 2], sorted[99 * n / 100], Sum(sorted), n)
  }

  function SummaryOf(samples: seq<int>): Summary
    requires samples != []
  {
    SortSorts(samples);
    ReadOff(Sort(samples))
  }

  /** The summing loop. */
  method Total(samples: array<int>) returns (sum: int)
    ensures sum == Sum(samples[..])
  {
    sum := 0;
    var i := 0;
    while i < samples.Length
      invariant 0 <= i <= samples.Length && sum == Sum(samples[..i])
    {
      assert samples[..i + 1][..i] == samples[..i];
      sum := sum + samples[i];
      i := i + 1;
    }
    assert samples[..i] == samples[..];
  }

  /** The end of both programs' `main`. */
  method Summarise(samples: array<int>) returns (summary: Summary)
    requires samples.Length > 0
    modifies samples
    ensures samples[..] == Sort(old(samples[..]))
    ensures summary == SummaryOf(old(samples[..]))
  {
    Qsort(samples);
    SortSorts(old(samples[..]));
    OrderedIsUnique(samples[..], Sort(old(samples[..])));
    var n := samples.Length;
    var sum := Total(samples);
    summary := Summary(samples[0], samples[n - 1], samples[n / 2], samples[99 * n / 100], sum, n);
  }

  // ----- What the numbers are -----

  /** How many samples are at most `v`. */
  function CountAtMost(s: seq<int>, v: int): nat {
    if s == [] then 0 else (if s[0] <= v then 1 else 0) + CountAtMost(s[1..], v)
  }

  lemma {:induction false} CountInsert(x: int, s: seq<int>, v: int)
    ensures CountAtMost(Insert(x, s), v) == CountAtMost(s, v) + (if x <= v then 1 else 0)
  {
    if s == [] || x <= s[0] {
      assert ([x] + s)[1..] == s;
    } else {
      assert ([s[0]] + Insert(x, s[1..]))[1..] == Insert(x, s[1..]);
      CountInsert(x, s[1..], v);
    }
  }

  lemma {:induction false} CountSort(s: seq<int>, v: int)
    ensures CountAtMost(Sort(s), v) == CountAtMost(s, v)
  {
    if s != [] {
      CountInsert(s[0], Sort(s[1..]), v);
      CountSort(s[1..], v);
    }
  }

  /** In an ordered sequence at least `k + 1` elements are at most the one at `k`. */
  lemma {:induction false} CountUpTo(s: seq<int>, k: nat)
    requires Ordered(s) && k < |s|
    ensures k + 1 <= CountAtMost(s, s[k]) <= |s|
  {
    CountBounded(s, s[k]);
    if k > 0 {
      CountUpTo(s[1..], k - 1);
    }
  }

  lemma {:induction false} CountBounded(s: seq<int>, v: int)
    ensures CountAtMost(s, v) <= |s|
  {
    if s != [] { CountBounded(s[1..], v); }
  }

  lemma {:induction false} SumBounded(s: seq<int>, low: int, high: int)
    requires forall i :: 0 <= i < |s| ==> low <= s[i] <= high
    ensures |s| * low <= Sum(s) <= |s| * high
  {
    if s != [] {
      var n := |s| - 1;
      SumBounded(s[..n], low, high);
      assert (n + 1) * low == n * low + low && (n + 1) * high == n * high + high;
    }
  }

  /** The ranks: all indices are in range; minimum, median, 99th percentile and maximum are samples in
      that order, and the mean lies between the extremes. */
  lemma SummaryInOrder(samples: seq<int>)
    requires samples != []
    ensures var r := SummaryOf(samples);
            && r.min <= r.p50 <= r.p99 <= r.max
            && (forall x :: x in samples ==> r.min <= x <= r.max)
            && r.min in samples && r.p50 in samples && r.p99 in samples && r.max in samples
            && |samples| * r.min <= r.sum <= |samples| * r.max
  {
    SortSorts(samples);
    var sorted, n := Sort(samples), |samples|;
    assert n / 2 <= 99 * n / 100 < n;
    SumBounded(sorted, sorted[0], sorted[n - 1]);
    InSorted(samples);
  }

  /** How many samples are less than `v`. */
  function CountBelow(s: seq<int>, v: int): nat {
    if s == [] then 0 else (if s[0] < v then 1 else 0) + CountBelow(s[1..], v)
  }

  lemma {:induction false} BelowIsAtMost(s: seq<int>, v: int)
    ensures CountBelow(s, v) == CountAtMost(s, v - 1)
  {
    if s != [] { BelowIsAtMost(s[1..], v); }
  }

  /** In an ordered sequence no more than `k` elements are less than the one at `k`. */
  lemma {:induction false} CountBelowAt(s: seq<int>, k: nat)
    requires Ordered(s) && k < |s|
    ensures CountBelow(s, s[k]) <= k
  {
    if k > 0 { CountBelowAt(s[1..], k - 1); } else { NoneBelow(s, s[0]); }
  }

  lemma {:induction false} NoneBelow(s: seq<int>, v: int)
    requires forall i :: 0 <= i < |s| ==> v <= s[i]
    ensures CountBelow(s, v) == 0
  {
    if s != [] { NoneBelow(s[1..], v); }
  }

  /** The rank of a value: with `k` samples at most below it and `k + 1` at least up to it, it is what stands at
      position `k` when the samples are sorted. */
  predicate HasRank(samples: seq<int>, v: int, k: nat) {
    CountBelow(samples, v) <= k < CountAtMost(samples, v)
  }

  /** The median and the 99th percentile have the ranks n/2 and 99n/100 among the unsorted samples; so more than
      half of them are at most the median, and at most one in a hundred of the others exceed the percentile. */
  lemma SummaryRanks(samples: seq<int>)
    requires samples != []
    ensures var r, n := SummaryOf(samples), |samples|;
            && CountBelow(samples, r.p50) <= n / 2 < CountAtMost(samples, r.p50)
            && CountBelow(samples, r.p99) <= 99 * n / 100 < CountAtMost(samples, r.p99)
            && n - CountAtMost(samples, r.p99) <= (n - 1) / 100
  {
    SortSorts(samples);
    RankInSorted(samples, |samples| / 2);
    RankInSorted(samples, 99 * |samples| / 100);
  }

  lemma RankInSorted(samples: seq<int>, k: nat)
    requires k < |samples|
    ensures |Sort(samples)| == |samples| && HasRank(samples, Sort(samples)[k], k)
  {
    SortSorts(samples);
    var v := Sort(samples)[k];
    CountUpTo(Sort(samples), k);
    CountBelowAt(Sort(samples), k);
    CountSort(samples, v);
    CountSort(samples, v - 1);
    BelowIsAtMost(samples, v);
    BelowIsAtMost(Sort(samples), v);
  }

  /** A rank belongs to one value only: nothing else could be reported. */
  lemma RankIsUnique(samples: seq<int>, v: int, w: int, k: nat)
    requires HasRank(samples, v, k) && HasRank(samples, w, k)
    ensures v == w
  {
    if v < w { AtMostIsBelow(samples, v, w); }
    if w < v { AtMostIsBelow(samples, w, v); }
  }

  lemma {:induction false} AtMostIsBelow(samples: seq<int>, v: int, w: int)
    requires v < w
    ensures CountAtMost(samples, v) <= CountBelow(samples, w)
  {
    if samples != [] { AtMostIsBelow(samples[1..], v, w); }
  }

  lemma {:induction false} SumConcat(a: seq<int>, b: seq<int>)
    ensures Sum(a + b) == Sum(a) + Sum(b)
  {
    if b == [] {
      assert a + b == a;
    } else {
      var n := |b| - 1;
      assert (a + b)[..|a| + n] == a + b[..n];
      SumConcat(a, b[..n]);
    }
  }

  lemma {:induction false} SumInsert(x: int, s: seq<int>)
    ensures Sum(Insert(x, s)) == x + Sum(s)
  {
    SumOne(x);
    if s == [] || x <= s[0] {
      SumConcat([x], s);
    } else {
      SumInsert(x, s[1..]);
      SumOne(s[0]);
      SumConcat([s[0]], Insert(x, s[1..]));
      SumConcat([s[0]], s[1..]);
      assert [s[0]] + s[1..] == s;
    }
  }

  lemma SumOne(x: int)
    ensures Sum([x]) == x
  {
    assert [x][..0] == [];
  }

  lemma {:induction false} SumSort(s: seq<int>)
    ensures Sum(Sort(s)) == Sum(s)
  {
    if s != [] {
      SumSort(s[1..]);
      SumInsert(s[0], Sort(s[1..]));
      SumOne(s[0]);
      SumConcat([s[0]], s[1..]);
      assert [s[0]] + s[1..] == s;
    }
  }

  /** The sum is that of the samples as they were measured, one by one from the front, and the count is theirs. */
  lemma SummarySum(samples: seq<int>)
    requires samples != []
    ensures SummaryOf(samples).sum == samples[0] + Sum(samples[1..]) && SummaryOf(samples).count == |samples|
  {
    SortSorts(samples);
    SumSort(samples);
    SumOne(samples[0]);
    SumConcat([samples[0]], samples[1..]);
    assert [samples[0]] + samples[1..] == samples;
  }

  lemma InSorted(samples: seq<int>)
    ensures forall x :: x in samples <==> x in Sort(samples)
  {
    SortSorts(samples);
    assert forall x :: x in samples <==> x in multiset(samples);
    assert forall x :: x in Sort(samples) <==> x in multiset(Sort(samples));
  }

  /** Nothing but the samples themselves matters: any reordering gives the same summary. */
  lemma SummaryIgnoresOrder(samples: seq<int>, reordered: seq<int>)
    requires samples != [] && multiset(samples) == multiset(reordered)
    ensures reordered != [] && SummaryOf(samples) == SummaryOf(reordered)
  {
    SortSorts(samples);
    SortSorts(reordered);
    OrderedIsUnique(Sort(samples), Sort(reordered));
    assert |multiset(samples)| == |samples|;
  }

  predicate NonNegative(r: Summary) { r.min >= 0 && r.max >= 0 && r.p50 >= 0 && r.p99 >= 0 }

  /** The reports printed from a summary; `mean` is whatever the rounded mean was. */
  function LatencyReport(r: Summary, mean: nat, intervalUs: int, ncpus: int): Report
    requires NonNegative(r)
  {
    SchedulerLatency(r.count, intervalUs, ncpus, Statistics(mean, r.min, r.max, r.p50, r.p99))
  }

  function ProcessReport(r: Summary, mean: nat): Report
    requires NonNegative(r)
  {
    ProcessCreation(r.count, Statistics(mean, r.min, r.max, r.p50, r.p99))
  }

  /** The dictionary holds the summary's extremes and percentiles, exact to the nanosecond. */
  predicate ReadsBack(r: Summary, read: Option<Fields>)
    requires NonNegative(r)
  {
    && read.Some?
    && {"min_us", "max_us", "p50_us", "p99_us"} <= read.value.Keys
    && read.value["min_us"] == Number(r.min, 3) && read.value["max_us"] == Number(r.max, 3)
    && read.value["p50_us"] == Number(r.p50, 3) && read.value["p99_us"] == Number(r.p99, 3)
  }

  lemma FieldsReadBack(r: Summary, mean: nat)
    requires NonNegative(r)
    ensures ReadsBack(r, Some(StatisticsFields(Statistics(mean, r.min, r.max, r.p50, r.p99))))
  {
  }

  lemma SummaryNonNegative(samples: seq<int>)
    requires samples != [] && forall i :: 0 <= i < |samples| ==> samples[i] >= 0
    ensures NonNegative(SummaryOf(samples))
  {
    SummaryInOrder(samples);
  }

  /** From samples to the experiments' dictionary: the minimum, maximum, median and 99th percentile that the
      backend reads off either program's output are those of the samples, exact to the nanosecond. */
  lemma SummaryReadBack(samples: seq<int>, mean: nat, intervalUs: int, ncpus: int)
    requires samples != [] && forall i :: 0 <= i < |samples| ==> samples[i] >= 0
    ensures NonNegative(SummaryOf(samples))
    ensures ReadsBack(SummaryOf(samples),
                      ParseLatency(Print(LatencyReport(SummaryOf(samples), mean, intervalUs, ncpus))))
    ensures ReadsBack(SummaryOf(samples), ParseLatency(Print(ProcessReport(SummaryOf(samples), mean))))
  {
    SummaryNonNegative(samples);
    var r := SummaryOf(samples);
    ParseLatencyRecoversReport(LatencyReport(r, mean, intervalUs, ncpus));
    ParseLatencyRecoversReport(ProcessReport(r, mean));
    FieldsReadBack(r, mean);
  }

  /** From the samples of both programs, through the whole guest log, to the pipelines' dictionary. */
  lemma SamplesReadBackFromGuest(boot: string, process: seq<int>, processMean: nat, switch: Report,
                                 latency: seq<int>, latencyMean: nat, intervalUs: int, ncpus: int, shutdown: string)
    requires process != [] && forall i :: 0 <= i < |process| ==> process[i] >= 0
    requires latency != [] && forall i :: 0 <= i < |latency| ==> latency[i] >= 0
    requires switch.ContextSwitch? && Clean(boot) && Clean(shutdown)
    ensures NonNegative(SummaryOf(process)) && NonNegative(SummaryOf(latency))
    ensures var log := GuestLog(boot, ProcessReport(SummaryOf(process), processMean), switch,
                                LatencyReport(SummaryOf(latency), latencyMean, intervalUs, ncpus), shutdown);
            var result := ParseBenchmarkOutput(log);
            && result.Some?
            && ReadsBack(SummaryOf(process), SectionOf(result.value, ProcessCreationKind))
            && ReadsBack(SummaryOf(latency), SectionOf(result.value, SchedulerLatencyKind))
  {
    SummaryNonNegative(process);
    SummaryNonNegative(latency);
    var p, l := SummaryOf(process), SummaryOf(latency);
    ParseRecoversGuestLog(boot, ProcessReport(p, processMean), switch,
                          LatencyReport(l, latencyMean, intervalUs, ncpus), shutdown);
    FieldsReadBack(p, processMean);
    FieldsReadBack(l, latencyMean);
  }
}
