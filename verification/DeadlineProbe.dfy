/** The measuring loop of `scheduler_latency`: absolute deadlines one interval apart, and how late each
    wake-up was.  The clock readings are given. */
module DeadlineProbe {

  const NS_PER_SEC := 1000000000

  /** A reading of the clock. */
  datatype Time = Time(sec: int, nsec: int)

  function Nanoseconds(t: Time): int { t.sec * NS_PER_SEC + t.nsec }

  predicate Normalised(t: Time) { 0 <= t.nsec < NS_PER_SEC }

  /** `elapsed_ns(&start, &end)`. */
  function Elapsed(start: Time, end: Time): int {
    (end.sec - start.sec) * NS_PER_SEC + (end.nsec - start.nsec)
  }

  /** A difference of readings is the difference of their totals, whether they are normalised or not. */
  lemma ElapsedIsDifference(start: Time, end: Time)
    ensures Elapsed(start, end) == Nanoseconds(end) - Nanoseconds(start)
  {
  }

  class Timespec {
    var sec: int
    var nsec: int

    constructor (t: Time)
      ensures Value() == t
    {
      sec, nsec := t.sec, t.nsec;
    }

    function Value(): Time
      reads this
    {
      Time(sec, nsec)
    }

    /** `ts_add_ns`: adds exactly `ns`.  The loop only carries upwards, so the result is normalised
        exactly when no borrow is needed, as for every non-negative `ns`. */
    method AddNs(ns: int)
      requires Normalised(Value())
      modifies this
      ensures Nanoseconds(Value()) == Nanoseconds(old(Value())) + ns
      ensures Normalised(Value()) <==> old(nsec) + ns >= 0
      ensures old(nsec) + ns < 0 ==> sec == old(sec)
    {
      nsec := nsec + ns;
      while nsec >= NS_PER_SEC
        invariant Nanoseconds(Value()) == Nanoseconds(old(Value())) + ns
        invariant if old(nsec) + ns >= 0 then nsec >= 0 else sec == old(sec) && nsec == old(nsec) + ns
        decreases nsec
      {
        nsec := nsec - NS_PER_SEC;
        sec := sec + 1;
      }
    }
  }

  function Max(a: int, b: int): int { if a >= b then a else b }

  /** The k-th deadline: k steps after the start. */
  function Deadline(start: Time, step: nat, k: nat): int { Nanoseconds(start) + k * step }

  /** What wake-up `i` must be recorded as: how long after deadline `i + 1` it was. */
  function Overshoot(start: Time, step: nat, wakeUps: seq<Time>, i: nat): int
    requires i < |wakeUps|
  {
    Max(0, Nanoseconds(wakeUps[i]) - Deadline(start, step, i + 1))
  }

  /** How long after the target a wake-up was, or 0. */
  method Lateness(target: Timespec, wakeUp: Time) returns (overshoot: int)
    ensures overshoot == Max(0, Nanoseconds(wakeUp) - Nanoseconds(target.Value()))
  {
    ElapsedIsDifference(target.Value(), wakeUp);
    overshoot := Elapsed(target.Value(), wakeUp);
    if overshoot < 0 { overshoot := 0; }
  }

  /** The loop of `main`.  Deadlines do not drift: however late the wake-ups are, deadline k is the start
      plus k intervals, and each sample is the lateness against its own deadline. */
  method Probe(start: Time, intervalUs: nat, wakeUps: seq<Time>) returns (samples: array<int>, target: Timespec)
    requires Normalised(start)
    ensures fresh(samples) && fresh(target) && samples.Length == |wakeUps|
    ensures Normalised(target.Value()) && Nanoseconds(target.Value()) == Deadline(start, intervalUs * 1000, |wakeUps|)
    ensures forall i :: 0 <= i < |wakeUps| ==> samples[i] == Overshoot(start, intervalUs * 1000, wakeUps, i)
  {
    var step := intervalUs * 1000;
    samples := new int[|wakeUps|];
    target := new Timespec(start);
    var i := 0;
    while i < |wakeUps|
      invariant 0 <= i <= |wakeUps| && fresh(samples) && fresh(target) && samples.Length == |wakeUps|
      invariant Normalised(target.Value()) && Nanoseconds(target.Value()) == Deadline(start, step, i)
      invariant forall j :: 0 <= j < i ==> samples[j] == Overshoot(start, step, wakeUps, j)
    {
      assert (i + 1) * step == i * step + step;
      target.AddNs(step);
      var overshoot := Lateness(target, wakeUps[i]);
      samples[i] := overshoot;
      i := i + 1;
    }
  }
}
