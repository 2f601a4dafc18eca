/** The network-delay action of the chaos agent: add a root qdisc, sleep, and delete it in `finally`.

    There is one root qdisc and any number of requests at once.  `tc qdisc add` fails when a root
    qdisc is there, so a successful add acts as a lock; `tc qdisc del` removes whatever is there, no
    matter who added it.  The command runner can also raise on its own timeout, and then the command may
    or may not have taken effect; and what `tc qdisc del` returned is never looked at. */
module NetworkDelay {
  import opened Runs

  datatype Qdisc = Qdisc(addedBy: nat, delayMs: nat)

  datatype Phase = Fresh | Sleeping | Over | Leaked

  datatype DelayRun = DelayRun(delayMs: nat, phase: Phase)

  datatype State = State(root: Option<Qdisc>, runs: seq<DelayRun>)

  datatype Action =
    | Adds(r: nat)                            // `tc qdisc add` returns 0
    | Refused(r: nat)                         // it returns an error: always so when a qdisc is there
    | AddTimesOut(r: nat, applied: bool)      // the runner raises, outside the `try`
    | Deletes(r: nat)                         // the sleep ended or was interrupted: the `finally`
    | DeleteFails(r: nat)                     // the same, but the command fails or times out without effect
    | Abandoned(r: nat)                       // closed before the add

  function Initial(delays: seq<nat>): State {
    State(None, seq(|delays|, i requires 0 <= i < |delays| => DelayRun(delays[i], Fresh)))
  }

  function Moved(s: State, r: nat, phase: Phase): seq<DelayRun>
    requires r < |s.runs|
  {
    s.runs[r := s.runs[r].(phase := phase)]
  }

  function Step(s: State, a: Action): Option<State> {
    if a.r >= |s.runs| then None
    else
      var me := s.runs[a.r];
      match a
      case Adds(r) =>
        if me.phase == Fresh && s.root.None?
        then Some(State(Some(Qdisc(r, me.delayMs)), Moved(s, r, Sleeping))) else None
      case Refused(r) =>
        if me.phase == Fresh then Some(State(s.root, Moved(s, r, Over))) else None
      case AddTimesOut(r, applied) =>
        if me.phase != Fresh || (applied && s.root.Some?) then None
        else if applied then Some(State(Some(Qdisc(r, me.delayMs)), Moved(s, r, Leaked)))
        else Some(State(s.root, Moved(s, r, Over)))
      case Deletes(r) =>
        if me.phase == Sleeping then Some(State(None, Moved(s, r, Over))) else None
      case DeleteFails(r) =>
        if me.phase == Sleeping then Some(State(s.root, Moved(s, r, Leaked))) else None
      case Abandoned(r) =>
        if me.phase == Fresh then Some(State(s.root, Moved(s, r, Over))) else None
  }

  predicate Occupies(run: DelayRun) { run.phase in {Sleeping, Leaked} }

  /** The root qdisc is there exactly while one run occupies it, and it is that run's own. */
  predicate Inv(s: State) {
    forall r :: 0 <= r < |s.runs| ==> (Occupies(s.runs[r]) <==> s.root == Some(Qdisc(r, s.runs[r].delayMs)))
  }

  predicate Owned(s: State) {
    s.root.Some? ==> s.root.value.addedBy < |s.runs| && s.root.value.delayMs == s.runs[s.root.value.addedBy].delayMs
  }

  lemma StepKeepsInv(s: State, a: Action)
    requires Inv(s) && Owned(s) && Step(s, a).Some?
    ensures Inv(Step(s, a).value) && Owned(Step(s, a).value)
  {
    var t := Step(s, a).value;
    forall r | 0 <= r < |t.runs|
      ensures Occupies(t.runs[r]) <==> t.root == Some(Qdisc(r, t.runs[r].delayMs))
    {
      assert Occupies(s.runs[r]) <==> s.root == Some(Qdisc(r, s.runs[r].delayMs));
      assert Occupies(s.runs[a.r]) <==> s.root == Some(Qdisc(a.r, s.runs[a.r].delayMs));
    }
  }

  lemma RunKeepsInv(delays: seq<nat>, acts: seq<Action>)
    ensures var e := Exec(Step, Initial(delays), acts); e.Some? ==> Inv(e.value) && Owned(e.value)
  {
    var inv := (s: State) => Inv(s) && Owned(s);
    forall s, a | inv(s) && Step(s, a).Some? ensures inv(Step(s, a).value) { StepKeepsInv(s, a); }
    Preserved(Step, inv, Initial(delays), acts);
  }

  /** Mutual exclusion: in every reachable state a qdisc is installed exactly when some run occupies it,
      never two of them, and while a run sleeps the delay installed is its own. */
  lemma DelaysExcludeEachOther(delays: seq<nat>, acts: seq<Action>)
    requires Exec(Step, Initial(delays), acts).Some?
    ensures var s := Exec(Step, Initial(delays), acts).value;
            && (s.root.Some? <==> exists r :: 0 <= r < |s.runs| && Occupies(s.runs[r]))
            && (forall q, r | 0 <= q < |s.runs| && 0 <= r < |s.runs| ::
                  Occupies(s.runs[q]) && Occupies(s.runs[r]) ==> q == r)
            && (forall r :: 0 <= r < |s.runs| && s.runs[r].phase == Sleeping ==>
                  s.root == Some(Qdisc(r, s.runs[r].delayMs)))
  {
    RunKeepsInv(delays, acts);
    var s := Exec(Step, Initial(delays), acts).value;
    if s.root.Some? { assert Occupies(s.runs[s.root.value.addedBy]); }
  }

  /** No run deletes another's qdisc: what the `finally` removes is what the run itself added. */
  lemma DeletesItsOwn(delays: seq<nat>, acts: seq<Action>, r: nat)
    requires Exec(Step, Initial(delays), acts).Some?
    requires Step(Exec(Step, Initial(delays), acts).value, Deletes(r)).Some?
    ensures var s := Exec(Step, Initial(delays), acts).value;
            s.root == Some(Qdisc(r, s.runs[r].delayMs)) && Step(s, Deletes(r)).value.root.None?
  {
    RunKeepsInv(delays, acts);
  }

  predicate HasLeak(s: State) { exists r :: 0 <= r < |s.runs| && s.runs[r].phase == Leaked }

  /** The two ways a run can end with its qdisc installed. */
  predicate LeakAction(a: Action) { (a.AddTimesOut? && a.applied) || a.DeleteFails? }

  lemma StepLeaks(s: State, a: Action)
    requires Step(s, a).Some?
    ensures HasLeak(Step(s, a).value) <==> HasLeak(s) || LeakAction(a)
  {
    var t := Step(s, a).value;
    if HasLeak(s) {
      var r :| 0 <= r < |s.runs| && s.runs[r].phase == Leaked;
      assert t.runs[r].phase == Leaked;
    }
    if LeakAction(a) { assert t.runs[a.r].phase == Leaked; }
    if HasLeak(t) {
      var r :| 0 <= r < |t.runs| && t.runs[r].phase == Leaked;
      assert r != a.r ==> s.runs[r].phase == Leaked;
    }
  }

  lemma {:induction false} LeaksComeFromCommands(s: State, acts: seq<Action>)
    requires Exec(Step, s, acts).Some?
    ensures HasLeak(Exec(Step, s, acts).value) <==> HasLeak(s) || exists i :: 0 <= i < |acts| && LeakAction(acts[i])
    decreases |acts|
  {
    if acts != [] {
      var t := Step(s, acts[0]).value;
      StepLeaks(s, acts[0]);
      LeaksComeFromCommands(t, acts[1..]);
      if exists i :: 0 < i < |acts| && LeakAction(acts[i]) {
        var i :| 0 < i < |acts| && LeakAction(acts[i]);
        assert LeakAction(acts[1..][i - 1]);
      }
      if exists i :: 0 <= i < |acts[1..]| && LeakAction(acts[1..][i]) {
        var i :| 0 <= i < |acts[1..]| && LeakAction(acts[1..][i]);
        assert LeakAction(acts[i + 1]);
      }
    }
  }

  predicate NoneAsleep(s: State) { forall r :: 0 <= r < |s.runs| ==> s.runs[r].phase != Sleeping }

  /** When no run is asleep any more, the interface is clean if and only if no add took effect and then
      timed out and no delete failed: every other ending, interrupted sleeps included, removes the delay. */
  lemma {:induction false} CleanExactlyWithoutLeak(delays: seq<nat>, acts: seq<Action>)
    requires Exec(Step, Initial(delays), acts).Some?
    requires NoneAsleep(Exec(Step, Initial(delays), acts).value)
    ensures Exec(Step, Initial(delays), acts).value.root.None? <==> forall i :: 0 <= i < |acts| ==> !LeakAction(acts[i])
  {
    RunKeepsInv(delays, acts);
    LeaksComeFromCommands(Initial(delays), acts);
    var s := Exec(Step, Initial(delays), acts).value;
    if s.root.Some? { assert Occupies(s.runs[s.root.value.addedBy]); }
    if HasLeak(s) {
      var r :| 0 <= r < |s.runs| && s.runs[r].phase == Leaked;
      assert Occupies(s.runs[r]);
    }
  }

  /** After such a leak no later request can apply a delay. */
  lemma {:induction false} LeakBlocksForGood(delays: seq<nat>, acts: seq<Action>, r: nat)
    requires Exec(Step, Initial(delays), acts).Some?
    requires exists i :: 0 <= i < |acts| && LeakAction(acts[i])
    ensures Step(Exec(Step, Initial(delays), acts).value, Adds(r)).None?
  {
    RunKeepsInv(delays, acts);
    LeaksComeFromCommands(Initial(delays), acts);
    var s := Exec(Step, Initial(delays), acts).value;
    var q :| 0 <= q < |s.runs| && s.runs[q].phase == Leaked;
    assert Occupies(s.runs[q]);
  }

  /** Either leak happens to a single request that is alone. */
  lemma EachLeakHappens(delayMs: nat)
    ensures var s := Exec(Step, Initial([delayMs]), [AddTimesOut(0, true)]);
            s.Some? && NoneAsleep(s.value) && s.value.root == Some(Qdisc(0, delayMs))
    ensures var s := Exec(Step, Initial([delayMs]), [Adds(0), DeleteFails(0)]);
            s.Some? && NoneAsleep(s.value) && s.value.root == Some(Qdisc(0, delayMs))
  {
    var s0 := Initial([delayMs]);
    var s1 := Step(s0, Adds(0)).value;
    var last := [DeleteFails(0)];
    assert Exec(Step, s1, last) == Step(s1, DeleteFails(0));
    assert [Adds(0), DeleteFails(0)][1..] == last;
    assert Exec(Step, s0, [AddTimesOut(0, true)]) == Step(s0, AddTimesOut(0, true));
  }

  // ----- What a request can do -----

  /** The lock: in any reachable state a request that has not begun can apply its delay if and only if no run
      occupies the interface, and then the delay installed is its own. */
  lemma AddSucceedsExactlyWhenFree(delays: seq<nat>, acts: seq<Action>, r: nat)
    requires Exec(Step, Initial(delays), acts).Some?
    requires r < |Exec(Step, Initial(delays), acts).value.runs|
    requires Exec(Step, Initial(delays), acts).value.runs[r].phase == Fresh
    ensures var s := Exec(Step, Initial(delays), acts).value;
            && (Step(s, Adds(r)).Some? <==> forall q :: 0 <= q < |s.runs| ==> !Occupies(s.runs[q]))
            && (Step(s, Adds(r)).Some? ==> Step(s, Adds(r)).value.root == Some(Qdisc(r, s.runs[r].delayMs))
                                           && Step(s, Adds(r)).value.runs[r].phase == Sleeping)
  {
    DelaysExcludeEachOther(delays, acts);
  }

  /** A run that sleeps can always go on to its delete, which gives the interface back and touches no other run. */
  lemma SleepingCanDelete(s: State, r: nat)
    requires r < |s.runs| && s.runs[r].phase == Sleeping
    ensures Step(s, Deletes(r)).Some?
    ensures var t := Step(s, Deletes(r)).value;
            && t.root.None? && |t.runs| == |s.runs| && t.runs[r] == s.runs[r].(phase := Over)
            && forall q :: 0 <= q < |s.runs| && q != r ==> t.runs[q] == s.runs[q]
  {
  }

  /** A request alone on a clean interface runs through and leaves it clean. */
  lemma DelayRunsThrough(s: State, r: nat)
    requires r < |s.runs| && s.runs[r].phase == Fresh && s.root.None?
    ensures Exec(Step, s, [Adds(r), Deletes(r)]) == Some(State(None, s.runs[r := s.runs[r].(phase := Over)]))
  {
    var t := Step(s, Adds(r)).value;
    var last := [Deletes(r)];
    assert [Adds(r), Deletes(r)][1..] == last;
    assert Exec(Step, t, last) == Step(t, Deletes(r));
    assert t.runs[r := t.runs[r].(phase := Over)] == s.runs[r := s.runs[r].(phase := Over)];
  }

  /** A request that has not begun can always be refused, time out without effect or be given up; it is then over
      and the interface and the other runs are as they were.  It can time out with effect exactly when the
      interface is free. */
  lemma EndsWithoutDelay(s: State, r: nat, a: Action)
    requires r < |s.runs| && s.runs[r].phase == Fresh && a in {Refused(r), AddTimesOut(r, false), Abandoned(r)}
    ensures Step(s, a) == Some(State(s.root, s.runs[r := DelayRun(s.runs[r].delayMs, Over)]))
    ensures Step(s, AddTimesOut(r, true)).Some? <==> s.root.None?
  {
  }
}
