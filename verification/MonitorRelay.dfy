/** The monitor socket: a worker thread runs the metrics stream and queues each metric, a handler
    relays them, and a stop flag ends the worker when the client is gone.

    The worker only looks at the flag when a line has arrived, so it may still be on its way to one more
    metric when the flag is set.  Any call it makes may raise: starting the tracer, the first reading of
    the CPU counters, which stands before the `try`, reading a line, and the readings for a metric. */
module MonitorRelay {
  import opened Runs
  import opened TickPairing

  datatype Slot = Metric(pair: Pair) | Sentinel

  /** Where the worker is: about to start the tracer, at the first reading, waiting for a line, before the
      stop check, after it, making a metric, in `finally`, putting the sentinel, or over. */
  datatype Point =
    | Launching | Starting | AwaitingLine | GotLine(tick: Tick) | Passed(tick: Tick) | Emitting(pair: Pair)
    | Killing | Closing | Ended

  /** Whether the worker has started the tracer, had the first reading, and raised; the sentinels it put. */
  datatype History = History(launched: bool, read: bool, raised: bool, sentinels: nat)

  /** `tracing`: the tracer runs; `seen` and `emitted`: the lines processed and the metrics queued so far;
      `late`: the number of metrics queued while the flag was set; `done`: what the worker has done. */
  datatype State = State(
    stop: bool, point: Point, pending: Option<nat>, tracing: bool,
    queue: seq<Slot>, relaying: bool, sent: seq<Pair>,
    seen: seq<Tick>, emitted: seq<Pair>, late: nat, done: History)

  datatype Action =
    | Launch | FirstReading | Line(tick: Tick) | EndOfLines | CheckStop | Process | PutMetric | Kill | PutSentinel
    | Raise
    | Relay
    | Disconnect            // the handler ends: its client is gone, or the server cancels it

  const INITIAL := State(false, Launching, None, false, [], true, [], [], [], 0, History(false, false, false, 0))

  function Step(s: State, a: Action): Option<State> {
    match a
    case Launch =>
      if s.point != Launching then None
      else Some(s.(point := Starting, tracing := true, done := s.done.(launched := true)))
    case FirstReading =>
      if s.point == Starting then Some(s.(point := AwaitingLine, done := s.done.(read := true))) else None
    case Raise =>
      if s.point in {Launching, Starting} then Some(s.(point := Ended, done := s.done.(raised := true)))
      else if s.point == AwaitingLine || s.point.Emitting?
      then Some(s.(point := Killing, done := s.done.(raised := true)))
      else None
    case Line(tick) => if s.point == AwaitingLine then Some(s.(point := GotLine(tick))) else None
    case EndOfLines => if s.point == AwaitingLine then Some(s.(point := Killing)) else None
    case CheckStop =>
      if s.point.GotLine? then Some(s.(point := if s.stop then Killing else Passed(s.point.tick))) else None
    case Process =>
      if !s.point.Passed? then None
      else
        var t := s.(seen := s.seen + [s.point.tick]);
        (match s.point.tick
         case Switches(n) => Some(t.(pending := Some(n), point := AwaitingLine))
         case Wakeups(n) =>
           Some(if s.pending.Some? then t.(point := Emitting(Pair(s.pending.value, n))) else t.(point := AwaitingLine))
         case Other => Some(t.(point := AwaitingLine)))
    case PutMetric =>
      if !s.point.Emitting? then None
      else Some(s.(queue := s.queue + [Metric(s.point.pair)], emitted := s.emitted + [s.point.pair], pending := None,
                   point := AwaitingLine, late := if s.stop then s.late + 1 else s.late))
    case Kill =>
      if s.point == Killing then Some(s.(tracing := false, point := if s.done.raised then Ended else Closing)) else None
    case PutSentinel =>
      if s.point != Closing then None
      else Some(s.(queue := s.queue + [Sentinel], point := Ended,
                   done := s.done.(sentinels := s.done.sentinels + 1)))
    case Relay =>
      if !s.relaying || s.queue == [] then None
      else (match s.queue[0]
            case Metric(p) => Some(s.(queue := s.queue[1..], sent := s.sent + [p]))
            case Sentinel => Some(s.(queue := s.queue[1..], relaying := false, stop := true)))
    case Disconnect => if s.relaying then Some(s.(relaying := false, stop := true)) else None
  }

  predicate ByWorker(a: Action) { !a.Relay? && !a.Disconnect? }

  function Paid(slot: Slot): seq<Pair> { if slot.Metric? then [slot.pair] else [] }

  function Payload(queue: seq<Slot>): seq<Pair> {
    if queue == [] then [] else Paid(queue[0]) + Payload(queue[1..])
  }

  lemma {:induction false} PayloadAppend(queue: seq<Slot>, slot: Slot)
    ensures Payload(queue + [slot]) == Payload(queue) + Paid(slot)
  {
    if queue == [] {
      assert (queue + [slot])[1..] == [];
      assert Paid(slot) + [] == [] + Paid(slot);
    } else {
      assert (queue + [slot])[1..] == queue[1..] + [slot];
      PayloadAppend(queue[1..], slot);
    }
  }

  /** The pairs owed by all the lines processed. */
  function Owed(seen: seq<Tick>): seq<Pair> { PairsUpTo(seen, |seen|) }

  /** Nothing is lost or invented between the lines and the socket, but the metric an exception interrupts. */
  predicate Accounted(s: State) {
    && (s.relaying ==> s.sent + Payload(s.queue) == s.emitted)
    && s.sent <= s.emitted <= Owed(s.seen)
    && |Owed(s.seen)| <= |s.emitted| + 1
    && (s.done.raised ==> s.point in {Killing, Ended})
    && (s.point.Emitting? ==> s.pending.Some?)
    && (!s.done.raised ==>
          && Owed(s.seen) == s.emitted + (if s.point.Emitting? then [s.point.pair] else [])
          && PendingAt(s.seen, |s.seen|) == (if s.point.Emitting? then None else s.pending))
  }

  /** What the worker has done by the point it is at. */
  predicate Located(s: State) {
    && (s.point == Launching ==> !s.done.launched)
    && (s.point == Starting ==> s.done.launched && !s.done.read)
    && (s.point !in {Launching, Starting, Ended} ==> s.done.read)
    && (s.done.read ==> s.done.launched)
    && (s.point == Ended && !s.done.read ==> s.done.raised)
    && (s.done.raised ==> s.point in {Killing, Ended})
    && (s.tracing <==> s.done.launched && (!s.done.read || s.point !in {Closing, Ended}))
  }

  /** One sentinel, last on the queue, put by a worker that ended without raising. */
  predicate Terminated(s: State) {
    && Located(s)
    && s.done.sentinels == (if s.point == Ended && !s.done.raised then 1 else 0)
    && (forall i :: 0 <= i < |s.queue| && s.queue[i] == Sentinel ==> i == |s.queue| - 1 && s.done.sentinels == 1)
    && (s.done.sentinels == 1 && s.relaying ==> s.queue != [] && s.queue[|s.queue| - 1] == Sentinel)
  }

  /** At most one metric after the stop flag. */
  predicate Stopping(s: State) {
    && (!s.relaying ==> s.stop)
    && (s.stop ==> s.late <= 1 && (s.late == 1 ==> !s.point.Passed? && !s.point.Emitting?))
    && (!s.stop ==> s.late == 0)
  }

  predicate Inv(s: State) { Accounted(s) && Terminated(s) && Stopping(s) }

  lemma ProcessKeepsOwed(seen: seq<Tick>, t: Tick)
    ensures Owed(seen + [t]) == Owed(seen) + (if t.Wakeups? && PendingAt(seen, |seen|).Some?
                                              then [Pair(PendingAt(seen, |seen|).value, t.count)] else [])
    ensures PendingAt(seen + [t], |seen| + 1) == (match t case Switches(n) => Some(n) case Wakeups(n) => None
                                                          case Other => PendingAt(seen, |seen|))
  {
    PairsOfPrefix(seen, [t], |seen|);
    NearestIsNearest(seen, |seen|);
    OneMoreTick(seen + [t], |seen|);
  }

  lemma ProcessKeepsAccounts(s: State)
    requires Accounted(s) && Step(s, Process).Some?
    ensures Accounted(Step(s, Process).value)
  {
    ProcessKeepsOwed(s.seen, s.point.tick);
  }

  lemma PutKeepsAccounts(s: State)
    requires Accounted(s) && Step(s, PutMetric).Some?
    ensures Accounted(Step(s, PutMetric).value)
  {
    PayloadAppend(s.queue, Metric(s.point.pair));
    assert s.sent + (Payload(s.queue) + [s.point.pair]) == s.sent + Payload(s.queue) + [s.point.pair];
  }

  lemma Reassociate(a: seq<Pair>, b: seq<Pair>, c: seq<Pair>)
    ensures a + (b + c) == a + b + c && a + b <= a + b + c
  {
  }

  lemma RelayKeepsAccounts(s: State)
    requires Accounted(s) && Step(s, Relay).Some?
    ensures Accounted(Step(s, Relay).value)
  {
    Reassociate(s.sent, Paid(s.queue[0]), Payload(s.queue[1..]));
  }

  lemma RaiseKeepsAccounts(s: State)
    requires Accounted(s) && Step(s, Raise).Some?
    ensures Accounted(Step(s, Raise).value)
  {
  }

  /** The steps that process no line, put nothing and relay nothing. */
  lemma QuietStepKeepsAccounts(s: State, a: Action)
    requires Accounted(s) && Step(s, a).Some?
    requires a !in {Process, PutMetric, PutSentinel, Relay, Raise}
    ensures Accounted(Step(s, a).value)
  {
    var t := Step(s, a).value;
    assert t.queue == s.queue && t.sent == s.sent && t.emitted == s.emitted;
    assert t.seen == s.seen && t.pending == s.pending;
    assert t.done.raised == s.done.raised && (t.point.Emitting? || s.point.Emitting? ==> t.point == s.point);
  }

  lemma StepKeepsAccounts(s: State, a: Action)
    requires Accounted(s) && Step(s, a).Some?
    ensures Accounted(Step(s, a).value)
  {
    match a {
      case Process => ProcessKeepsAccounts(s);
      case PutMetric => PutKeepsAccounts(s);
      case PutSentinel => PayloadAppend(s.queue, Sentinel);
      case Relay => RelayKeepsAccounts(s);
      case Raise => RaiseKeepsAccounts(s);
      case _ => QuietStepKeepsAccounts(s, a);
    }
  }

  lemma StepKeepsTerminated(s: State, a: Action)
    requires Terminated(s) && Step(s, a).Some?
    ensures Terminated(Step(s, a).value)
  {
  }

  lemma StepKeepsInv(s: State, a: Action)
    requires Inv(s) && Step(s, a).Some?
    ensures Inv(Step(s, a).value)
  {
    StepKeepsAccounts(s, a);
    StepKeepsTerminated(s, a);
  }

  lemma RunKeepsInv(acts: seq<Action>)
    ensures var r := Exec(Step, INITIAL, acts); r.Some? ==> Inv(r.value)
  {
    forall s, a | Inv(s) && Step(s, a).Some? ensures Inv(Step(s, a).value) { StepKeepsInv(s, a); }
    Preserved(Step, Inv, INITIAL, acts);
  }

  /** Under every interleaving: what the socket was sent is a prefix of the metrics queued, and these are
      the metrics owed by the lines processed, up to one that an exception interrupted; at most one metric
      is queued after the flag was set; the sentinel is on the queue at most once and last. */
  lemma MonitorIsSafe(acts: seq<Action>)
    requires Exec(Step, INITIAL, acts).Some?
    ensures var s := Exec(Step, INITIAL, acts).value;
            && s.sent <= s.emitted <= Owed(s.seen)
            && (s.relaying ==> s.sent + Payload(s.queue) == s.emitted)
            && |Owed(s.seen)| <= |s.emitted| + 1
            && (s.point == Ended && !s.done.raised ==> s.emitted == Owed(s.seen))
            && s.late <= 1
            && (forall i :: 0 <= i < |s.queue| && s.queue[i] == Sentinel ==> i == |s.queue| - 1)
            && (s.relaying ==> (Sentinel in s.queue <==> s.point == Ended && !s.done.raised))
  {
    RunKeepsInv(acts);
  }

  lemma MostStepsKeepHistory(s: State, a: Action)
    requires Step(s, a).Some? && a !in {Launch, FirstReading, Raise, PutSentinel}
    ensures Step(s, a).value.done == s.done
  {
  }

  lemma HistoryOfStep(s: State, a: Action)
    requires Step(s, a).Some?
    ensures var t := Step(s, a).value;
            && (t.done.launched <==> s.done.launched || a == Launch)
            && (t.done.read <==> s.done.read || a == FirstReading)
            && (t.done.raised <==> s.done.raised || a == Raise)
            && t.done.sentinels == s.done.sentinels + (if a == PutSentinel then 1 else 0)
  {
    if a !in {Launch, FirstReading, Raise, PutSentinel} { MostStepsKeepHistory(s, a); }
  }

  /** The history in a state is that of the schedule. */
  lemma {:induction false} HistoryOfRun(s: State, acts: seq<Action>)
    requires Exec(Step, s, acts).Some?
    ensures var t := Exec(Step, s, acts).value;
            && (t.done.launched <==> s.done.launched || Launch in acts)
            && (t.done.read <==> s.done.read || FirstReading in acts)
            && (t.done.raised <==> s.done.raised || Raise in acts)
            && t.done.sentinels == s.done.sentinels + multiset(acts)[PutSentinel]
    decreases |acts|
  {
    if acts != [] {
      HistoryOfStep(s, acts[0]);
      HistoryOfRun(Step(s, acts[0]).value, acts[1..]);
      assert acts == [acts[0]] + acts[1..];
    }
  }

  /** How the worker ends, whether or not the client is still there: the tracer is left running exactly when
      it was started and the first reading of the counters raised; and the worker puts exactly one sentinel
      when nothing raised and none when something did. */
  lemma WorkerEnds(acts: seq<Action>)
    requires Exec(Step, INITIAL, acts).Some? && Exec(Step, INITIAL, acts).value.point == Ended
    ensures Exec(Step, INITIAL, acts).value.tracing <==> Launch in acts && FirstReading !in acts
    ensures multiset(acts)[PutSentinel] == if Raise in acts then 0 else 1
  {
    RunKeepsInv(acts);
    HistoryOfRun(INITIAL, acts);
  }

  // ----- Shutdown -----

  /** How far the worker is from its end once the flag is set. */
  function Rank(p: Point): nat {
    match p
    case Launching => 6 case Starting => 5
    case Passed(_) => 6 case Emitting(_) => 5 case AwaitingLine => 4 case GotLine(_) => 3
    case Killing => 2 case Closing => 1 case Ended => 0
  }

  function WorkerSteps(acts: seq<Action>): nat {
    if acts == [] then 0 else (if ByWorker(acts[0]) then 1 else 0) + WorkerSteps(acts[1..])
  }

  lemma OthersMoveNothing(s: State, a: Action)
    requires s.stop && Step(s, a).Some? && !ByWorker(a)
    ensures Step(s, a).value.stop && Step(s, a).value.point == s.point
  {
  }

  lemma WorkerStepLowersRank(s: State, a: Action)
    requires s.stop && Step(s, a).Some? && ByWorker(a)
    ensures Step(s, a).value.stop && Rank(Step(s, a).value.point) < Rank(s.point)
  {
    var p, q := s.point, Step(s, a).value.point;
    match a {
      case Process => assert p.Passed? && (q == AwaitingLine || q.Emitting?);
      case CheckStop => assert p.GotLine? && q == Killing;
      case PutMetric => assert p.Emitting? && q == AwaitingLine;
      case _ =>
    }
  }

  lemma StopBoundsStep(s: State, a: Action)
    requires s.stop && Step(s, a).Some?
    ensures var t := Step(s, a).value; t.stop && (if ByWorker(a) then 1 else 0) + Rank(t.point) <= Rank(s.point)
  {
    if ByWorker(a) { WorkerStepLowersRank(s, a); } else { OthersMoveNothing(s, a); }
  }

  /** Whatever else happens, each step of the worker after the flag is set brings it nearer its end. */
  lemma {:induction false} StopBoundsWorker(s: State, acts: seq<Action>)
    requires s.stop && Exec(Step, s, acts).Some?
    ensures var t := Exec(Step, s, acts).value; t.stop && WorkerSteps(acts) + Rank(t.point) <= Rank(s.point)
    decreases |acts|
  {
    if acts != [] {
      StopBoundsStep(s, acts[0]);
      StopBoundsWorker(Step(s, acts[0]).value, acts[1..]);
    }
  }

  /** The worker can always go on until it has ended, provided lines keep coming or end. */
  lemma WorkerNeverStuck(s: State)
    requires s.point != Ended
    ensures exists a :: ByWorker(a) && a != Raise && Step(s, a).Some?
  {
    match s.point
    case Launching => assert Step(s, Launch).Some?;
    case Starting => assert Step(s, FirstReading).Some?;
    case AwaitingLine => assert Step(s, EndOfLines).Some?;
    case GotLine(_) => assert Step(s, CheckStop).Some?;
    case Passed(_) => assert Step(s, Process).Some?;
    case Emitting(_) => assert Step(s, PutMetric).Some?;
    case Killing => assert Step(s, Kill).Some?;
    case Closing => assert Step(s, PutSentinel).Some?;
  }

  /** Shutdown: from any reachable state with the flag set, the worker makes at most six more steps in any
      continuation, queueing at most one more metric, and when it can make none it has ended: with the
      tracer killed if the first reading succeeded, and with exactly one sentinel if nothing raised. */
  lemma StopEndsWorker(before: seq<Action>, after: seq<Action>)
    requires Exec(Step, INITIAL, before).Some? && Exec(Step, INITIAL, before).value.stop
    requires Exec(Step, Exec(Step, INITIAL, before).value, after).Some?
    ensures var s := Exec(Step, INITIAL, before).value;
            var t := Exec(Step, s, after).value;
            var acts := before + after;
            && WorkerSteps(after) <= 6
            && |s.emitted| <= |t.emitted| <= |s.emitted| + 1
            && ((forall a :: ByWorker(a) ==> Step(t, a).None?) ==>
                  && t.point == Ended
                  && (t.tracing <==> Launch in acts && FirstReading !in acts)
                  && multiset(acts)[PutSentinel] == if Raise in acts then 0 else 1)
  {
    var s := Exec(Step, INITIAL, before).value;
    StopBoundsWorker(s, after);
    RunKeepsInv(before);
    ExecConcat(Step, INITIAL, before, after);
    RunKeepsInv(before + after);
    LateCountsEmitted(s, after);
    var t := Exec(Step, s, after).value;
    if t.point != Ended { WorkerNeverStuck(t); } else { WorkerEnds(before + after); }
  }

  lemma LateCountsStep(s: State, a: Action)
    requires s.stop && Step(s, a).Some?
    ensures var t := Step(s, a).value; t.stop && |t.emitted| - |s.emitted| == t.late - s.late >= 0
  {
  }

  lemma {:induction false} LateCountsEmitted(s: State, acts: seq<Action>)
    requires s.stop && Exec(Step, s, acts).Some?
    ensures var t := Exec(Step, s, acts).value; |t.emitted| - |s.emitted| == t.late - s.late >= 0
    decreases |acts|
  {
    if acts != [] {
      LateCountsStep(s, acts[0]);
      LateCountsEmitted(Step(s, acts[0]).value, acts[1..]);
    }
  }

  // ----- What is delivered -----

  /** The lines that arrived, in order. */
  function TicksIn(acts: seq<Action>): seq<Tick> {
    if acts == [] then [] else TickIn(acts[0]) + TicksIn(acts[1..])
  }

  function TickIn(a: Action): seq<Tick> { match a case Line(t) => [t] case _ => [] }

  /** The line the worker has in hand. */
  function InHand(p: Point): seq<Tick> { match p case GotLine(t) => [t] case Passed(t) => [t] case _ => [] }

  /** As long as nothing raises and the client stays: every line that arrived is processed or in hand, every
      metric owed is queued or being made, and every metric queued is sent or still on the queue. */
  predicate UpToDate(s: State, ticks: seq<Tick>) {
    && !s.done.raised
    && s.seen + InHand(s.point) == ticks
    && s.emitted + (if s.point.Emitting? then [s.point.pair] else []) == Owed(s.seen)
    && s.sent + Payload(s.queue) == s.emitted
    && (if s.relaying then !s.stop else s.stop && s.point == Ended && s.queue == [])
  }

  lemma ProcessIsUpToDate(s: State, ticks: seq<Tick>)
    requires Inv(s) && UpToDate(s, ticks) && Step(s, Process).Some?
    ensures UpToDate(Step(s, Process).value, ticks)
  {
    ProcessKeepsOwed(s.seen, s.point.tick);
    assert s.seen + [s.point.tick] + [] == ticks;
  }

  lemma PutIsUpToDate(s: State, ticks: seq<Tick>)
    requires Inv(s) && UpToDate(s, ticks) && Step(s, PutMetric).Some?
    ensures UpToDate(Step(s, PutMetric).value, ticks)
  {
    PayloadAppend(s.queue, Metric(s.point.pair));
    Reassociate(s.sent, Payload(s.queue), [s.point.pair]);
  }

  lemma RelayIsUpToDate(s: State, ticks: seq<Tick>)
    requires Inv(s) && UpToDate(s, ticks) && Step(s, Relay).Some?
    ensures UpToDate(Step(s, Relay).value, ticks)
  {
    Reassociate(s.sent, Paid(s.queue[0]), Payload(s.queue[1..]));
    if s.queue[0] == Sentinel { assert |s.queue| == 1; }
  }

  /** The steps of the worker that touch neither the metrics nor the queue's metrics. */
  lemma MoveIsUpToDate(s: State, ticks: seq<Tick>, a: Action)
    requires Inv(s) && UpToDate(s, ticks) && Step(s, a).Some?
    requires a.Line? || a in {Launch, FirstReading, EndOfLines, CheckStop, Kill}
    ensures UpToDate(Step(s, a).value, ticks + TickIn(a))
  {
    assert ticks + [] == ticks;
    assert !s.stop || s.point == Ended;
  }

  lemma StepIsUpToDate(s: State, ticks: seq<Tick>, a: Action)
    requires Inv(s) && UpToDate(s, ticks) && Step(s, a).Some? && a != Raise && a != Disconnect
    ensures UpToDate(Step(s, a).value, ticks + TickIn(a))
  {
    assert ticks + [] == ticks;
    match a {
      case Process => ProcessIsUpToDate(s, ticks);
      case PutMetric => PutIsUpToDate(s, ticks);
      case Relay => RelayIsUpToDate(s, ticks);
      case PutSentinel => PayloadAppend(s.queue, Sentinel);
      case _ => MoveIsUpToDate(s, ticks, a);
    }
  }

  lemma TicksOfRun(ticks: seq<Tick>, acts: seq<Action>)
    requires acts != []
    ensures ticks + TickIn(acts[0]) + TicksIn(acts[1..]) == ticks + TicksIn(acts)
  {
    var first, rest := TickIn(acts[0]), TicksIn(acts[1..]);
    assert ticks + first + rest == ticks + (first + rest);
  }

  lemma {:induction false} RunIsUpToDate(s: State, ticks: seq<Tick>, acts: seq<Action>)
    requires Inv(s) && UpToDate(s, ticks) && Exec(Step, s, acts).Some? && Raise !in acts && Disconnect !in acts
    ensures UpToDate(Exec(Step, s, acts).value, ticks + TicksIn(acts)) && Inv(Exec(Step, s, acts).value)
    decreases |acts|
  {
    if acts == [] {
      assert ticks + [] == ticks;
    } else {
      StepKeepsInv(s, acts[0]);
      StepIsUpToDate(s, ticks, acts[0]);
      RunIsUpToDate(Step(s, acts[0]).value, ticks + TickIn(acts[0]), acts[1..]);
      TicksOfRun(ticks, acts);
    }
  }

  /** From the schedule alone: as long as the client stays and nothing raises, the lines processed are the lines
      that arrived, less the one in hand; the metrics queued are those these lines owe, less the one being
      made; and what was queued and is not on the queue any more has been sent. */
  lemma LinesAreProcessed(acts: seq<Action>)
    requires Exec(Step, INITIAL, acts).Some? && Raise !in acts && Disconnect !in acts
    ensures var s := Exec(Step, INITIAL, acts).value;
            && s.seen + (match s.point case GotLine(t) => [t] case Passed(t) => [t] case _ => []) == TicksIn(acts)
            && s.emitted + (if s.point.Emitting? then [s.point.pair] else []) == Owed(s.seen)
            && s.sent + Payload(s.queue) == s.emitted
  {
    RunIsUpToDate(INITIAL, [], acts);
    assert [] + TicksIn(acts) == TicksIn(acts);
  }

  /** When such a run can go no further, the socket has had every metric that the lines owe, in order, and
      nothing else; the worker has ended and its tracer is killed. */
  lemma EveryMetricIsDelivered(acts: seq<Action>)
    requires Exec(Step, INITIAL, acts).Some? && Raise !in acts && Disconnect !in acts
    requires forall a :: a != Raise && a != Disconnect ==> Step(Exec(Step, INITIAL, acts).value, a).None?
    ensures var s := Exec(Step, INITIAL, acts).value;
            s.sent == Owed(TicksIn(acts)) && s.point == Ended && !s.relaying && !s.tracing
  {
    RunIsUpToDate(INITIAL, [], acts);
    assert [] + TicksIn(acts) == TicksIn(acts);
    AtTheEnd(Exec(Step, INITIAL, acts).value, TicksIn(acts));
  }

  lemma AtTheEnd(s: State, ticks: seq<Tick>)
    requires Inv(s) && UpToDate(s, ticks) && forall a :: a != Raise && a != Disconnect ==> Step(s, a).None?
    ensures s.sent == Owed(ticks) && s.point == Ended && !s.relaying && !s.tracing
  {
    if s.point != Ended { WorkerNeverStuck(s); }
    assert Step(s, Relay).None?;
    assert s.seen + [] == s.seen && s.emitted + [] == s.emitted && s.sent + [] == s.sent;
  }

  /** The steps that take one line through the worker. */
  lemma OneLineRuns(s: State, t: Tick) returns (acts: seq<Action>)
    requires Inv(s) && s.point == AwaitingLine && !s.stop
    ensures Raise !in acts && Disconnect !in acts && EndOfLines !in acts && TicksIn(acts) == [t]
    ensures var r := Exec(Step, s, acts); r.Some? && r.value.point == AwaitingLine && !r.value.stop
  {
    var s1 := s.(point := GotLine(t));
    var s2 := s.(point := Passed(t));
    var s3 := Step(s2, Process).value;
    Exec3(Step, s, s1, s2, s3, Line(t), CheckStop, Process);
    var first := [Line(t), CheckStop, Process];
    TicksOfOneLine(t);
    if s3.point.Emitting? {
      acts := first + [PutMetric];
      ExecConcat(Step, s, first, [PutMetric]);
      TicksInConcat(first, [PutMetric]);
      assert [PutMetric][1..] == [];
      assert Exec(Step, s3, [PutMetric]) == Step(s3, PutMetric);
    } else {
      acts := first;
    }
  }

  lemma TicksOfOneLine(t: Tick)
    ensures TicksIn([Line(t), CheckStop, Process]) == [t] && TicksIn([PutMetric]) == []
  {
    assert [Line(t), CheckStop, Process][1..] == [CheckStop, Process] && [CheckStop, Process][1..] == [Process];
    assert [Process][1..] == [] && [PutMetric][1..] == [];
  }

  lemma {:induction false} TicksInConcat(a: seq<Action>, b: seq<Action>)
    ensures TicksIn(a + b) == TicksIn(a) + TicksIn(b)
  {
    if a == [] {
      assert a + b == b;
    } else {
      assert (a + b)[1..] == a[1..] + b;
      TicksInConcat(a[1..], b);
    }
  }

  /** An undisturbed run that has taken these lines and waits for the next. */
  predicate HasTaken(acts: seq<Action>, ticks: seq<Tick>) {
    && Raise !in acts && Disconnect !in acts && EndOfLines !in acts && TicksIn(acts) == ticks
    && Exec(Step, INITIAL, acts).Some?
    && Exec(Step, INITIAL, acts).value.point == AwaitingLine && !Exec(Step, INITIAL, acts).value.stop
  }

  lemma NoLinesTaken()
    ensures HasTaken([Launch, FirstReading], [])
  {
    var acts := [Launch, FirstReading];
    var s := Step(INITIAL, Launch).value;
    assert acts[1..] == [FirstReading] && [FirstReading][1..] == [];
    assert Exec(Step, s, [FirstReading]) == Step(s, FirstReading);
  }

  lemma OneMoreTaken(before: seq<Action>, ticks: seq<Tick>, t: Tick) returns (acts: seq<Action>)
    requires HasTaken(before, ticks)
    ensures HasTaken(acts, ticks + [t])
  {
    RunKeepsInv(before);
    var more := OneLineRuns(Exec(Step, INITIAL, before).value, t);
    acts := before + more;
    ExecConcat(Step, INITIAL, before, more);
    TicksInConcat(before, more);
  }

  /** Any stream of lines can arrive and be processed, so the results above speak of every stream. */
  lemma {:induction false} AnyStreamRuns(ticks: seq<Tick>) returns (acts: seq<Action>)
    ensures HasTaken(acts, ticks)
  {
    if ticks == [] {
      acts := [Launch, FirstReading];
      NoLinesTaken();
    } else {
      var n := |ticks| - 1;
      var before := AnyStreamRuns(ticks[..n]);
      acts := OneMoreTaken(before, ticks[..n], ticks[n]);
      assert ticks[..n] + [ticks[n]] == ticks;
    }
  }

  /** Still at its stream: neither told to stop nor at its end. */
  predicate Going(s: State) {
    !s.stop && s.relaying && !s.done.raised && s.point !in {Killing, Closing, Ended}
  }

  lemma StepKeepsGoing(s: State, a: Action)
    requires Inv(s) && Going(s) && Step(s, a).Some? && a !in {EndOfLines, Raise, Disconnect}
    ensures Going(Step(s, a).value)
  {
  }

  lemma {:induction false} RunKeepsGoing(s: State, acts: seq<Action>)
    requires Inv(s) && Going(s) && Exec(Step, s, acts).Some?
    requires EndOfLines !in acts && Raise !in acts && Disconnect !in acts
    ensures Going(Exec(Step, s, acts).value)
    decreases |acts|
  {
    if acts != [] {
      StepKeepsInv(s, acts[0]);
      StepKeepsGoing(s, acts[0]);
      RunKeepsGoing(Step(s, acts[0]).value, acts[1..]);
    }
  }

  /** The worker leaves its stream only for a reason: the lines end, something raises, or the client is gone. */
  lemma WorkerStaysAtStream(acts: seq<Action>)
    requires Exec(Step, INITIAL, acts).Some? && EndOfLines !in acts && Raise !in acts && Disconnect !in acts
    ensures Exec(Step, INITIAL, acts).value.point !in {Killing, Closing, Ended}
  {
    RunKeepsGoing(INITIAL, acts);
  }

  /** And step by step: it turns to `finally` only at the end of the lines, by an exception, or from a check
      that found the flag set; a check that finds it clear goes on with the line. */
  lemma CheckFollowsFlag(s: State, a: Action)
    requires Step(s, a).Some? && s.point != Killing
    ensures Step(s, a).value.point == Killing ==> a == EndOfLines || a == Raise || (a == CheckStop && s.stop)
    ensures a == CheckStop && !s.stop ==> s.point.GotLine? && Step(s, a).value == s.(point := Passed(s.point.tick))
  {
  }

  lemma {:induction false} NothingSentAfter(s: State, acts: seq<Action>)
    requires !s.relaying && Exec(Step, s, acts).Some?
    ensures Exec(Step, s, acts).value.sent == s.sent && !Exec(Step, s, acts).value.relaying
    decreases |acts|
  {
    if acts != [] {
      assert Step(s, acts[0]).value.sent == s.sent && !Step(s, acts[0]).value.relaying;
      NothingSentAfter(Step(s, acts[0]).value, acts[1..]);
    }
  }

  /** A handler that relays can be left by its client at any moment; from then on the flag is set and nothing
      more is sent. */
  lemma DisconnectStopsRelay(s: State, acts: seq<Action>)
    requires s.relaying
    ensures Step(s, Disconnect).Some? && Step(s, Disconnect).value.stop
    ensures Exec(Step, Step(s, Disconnect).value, acts).Some? ==>
              Exec(Step, Step(s, Disconnect).value, acts).value.sent == s.sent
  {
    if Exec(Step, Step(s, Disconnect).value, acts).Some? { NothingSentAfter(Step(s, Disconnect).value, acts); }
  }

  /** Where something can raise: starting the tracer, at the first reading, waiting for a line, or making a metric.
      Only after the first reading does the exception pass through `finally`. */
  lemma RaisesAnywhere(s: State)
    ensures Step(s, Raise).Some? <==> s.point in {Launching, Starting, AwaitingLine} || s.point.Emitting?
    ensures Step(s, Raise).Some? ==>
              var t := Step(s, Raise).value;
              t.tracing == s.tracing && t.point == (if s.point in {Launching, Starting} then Ended else Killing)
  {
  }

  /** Each failed ending there is: with the tracer left running... */
  lemma TracerLeftRunning()
    ensures var s := Exec(Step, INITIAL, [Launch, Raise]); s.Some? && s.value.point == Ended && s.value.tracing
  {
    var s1 := Step(INITIAL, Launch).value;
    assert [Launch, Raise][1..] == [Raise] && [Raise][1..] == [];
    assert Exec(Step, s1, [Raise]) == Step(s1, Raise);
  }

  /** ...and killed but without a sentinel. */
  lemma KilledWithoutSentinel()
    ensures var s := Exec(Step, INITIAL, [Launch, FirstReading] + [Raise, Kill]);
            s.Some? && s.value.point == Ended && !s.value.tracing && Sentinel !in s.value.queue
  {
    NoLinesTaken();
    var s := Exec(Step, INITIAL, [Launch, FirstReading]).value;
    RunKeepsInv([Launch, FirstReading]);
    RaisedIsKilled(s);
    ExecConcat(Step, INITIAL, [Launch, FirstReading], [Raise, Kill]);
  }

  lemma RaisedIsKilled(s: State)
    requires s.point == AwaitingLine
    ensures var r := Exec(Step, s, [Raise, Kill]);
            r.Some? && r.value.point == Ended && !r.value.tracing && r.value.queue == s.queue
  {
    var t := Step(s, Raise).value;
    assert [Raise, Kill][1..] == [Kill];
    assert Exec(Step, t, [Kill]) == Step(t, Kill);
  }
}
