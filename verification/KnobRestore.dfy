/** The scheduler experiment: read the live `base_slice_ns`, write a third of it, and write the value
    read back in `finally`.  Experiments of different connections may overlap on the one knob.

    The result of a write is never looked at, and the command runner can time out, so a write may also
    leave the knob as it is.  A reduction that does nothing is a run that does not reduce. */
module KnobRestore {
  import opened Runs

  datatype Phase = Fresh | Saved(original: nat, reduced: bool) | Over

  /** `first` is the run that began the group of overlapping runs going on. */
  datatype State = State(knob: nat, runs: seq<Phase>, first: Option<nat>)

  datatype Action = Reads(r: nat) | Reduces(r: nat) | Restores(r: nat) | RestoreFails(r: nat) | Abandoned(r: nat)

  function Initial(knob: nat, n: nat): State {
    State(knob, seq(n, i => Fresh), None)
  }

  predicate Quiet(s: State) { forall r :: 0 <= r < |s.runs| ==> !s.runs[r].Saved? }

  /** A run may be aborted at any point after its read, and then restores; before it, nothing happens. */
  function Step(s: State, a: Action): Option<State> {
    if a.r >= |s.runs| then None
    else match a
      case Reads(r) =>
        if s.runs[r] != Fresh then None
        else Some(s.(runs := s.runs[r := Saved(s.knob, false)], first := if Quiet(s) then Some(r) else s.first))
      case Reduces(r) =>
        if !s.runs[r].Saved? || s.runs[r].reduced then None
        else Some(s.(knob := s.runs[r].original / 3, runs := s.runs[r := s.runs[r].(reduced := true)]))
      case Restores(r) =>
        if !s.runs[r].Saved? then None else Some(s.(knob := s.runs[r].original, runs := s.runs[r := Over]))
      case RestoreFails(r) =>
        if !s.runs[r].Saved? then None else Some(s.(runs := s.runs[r := Over]))
      case Abandoned(r) =>
        if s.runs[r] != Fresh then None else Some(s.(runs := s.runs[r := Over]))
  }

  // ----- The knob's value, from the schedule alone -----

  /** `x // 3`, `k` times. */
  function Thirds(x: nat, k: nat): nat {
    if k == 0 then x else Thirds(x, k - 1) / 3
  }

  /** How many reductions the knob is down, and was at each run's read. */
  datatype Depths = Depths(now: nat, atRead: map<nat, nat>)

  /** What an action does to the depth, whatever the values are. */
  function Track(d: Depths, a: Action): Depths {
    match a
    case Reads(r) => d.(atRead := d.atRead[r := d.now])
    case Reduces(r) => if r in d.atRead then d.(now := d.atRead[r] + 1) else d
    case Restores(r) => if r in d.atRead then d.(now := d.atRead[r]) else d
    case RestoreFails(_) => d
    case Abandoned(_) => d
  }

  function TrackAll(d: Depths, acts: seq<Action>): Depths
    decreases |acts|
  {
    if acts == [] then d else TrackAll(Track(d, acts[0]), acts[1..])
  }

  /** The depth a schedule ends at. */
  function DepthOf(acts: seq<Action>): nat { TrackAll(Depths(0, map[]), acts).now }

  /** The values in the state are those the depths say. */
  predicate AtDepths(knob: nat, s: State, d: Depths) {
    && s.knob == Thirds(knob, d.now)
    && (forall r :: 0 <= r < |s.runs| && s.runs[r].Saved? ==>
          r in d.atRead && s.runs[r].original == Thirds(knob, d.atRead[r]))
  }

  lemma {:induction false} RunKeepsDepths(knob: nat, s: State, d: Depths, acts: seq<Action>)
    requires AtDepths(knob, s, d) && Exec(Step, s, acts).Some?
    ensures AtDepths(knob, Exec(Step, s, acts).value, TrackAll(d, acts))
    decreases |acts|
  {
    if acts != [] {
      assert AtDepths(knob, Step(s, acts[0]).value, Track(d, acts[0]));
      RunKeepsDepths(knob, Step(s, acts[0]).value, Track(d, acts[0]), acts[1..]);
    }
  }

  lemma {:induction false} ThirdsFixpoint(x: nat, k: nat)
    ensures Thirds(x, k) <= x && (Thirds(x, k) == x <==> x == 0 || k == 0)
  {
    if k > 0 { ThirdsFixpoint(x, k - 1); }
  }

  /** The exact condition: whatever the schedule, and in every state of it, the knob is the initial value
      divided by three as many times as the order of the actions says, and it is the initial value if and
      only if that is no time at all (or it was 0). */
  lemma RestoredExactlyAtDepthZero(knob: nat, n: nat, acts: seq<Action>)
    requires Exec(Step, Initial(knob, n), acts).Some?
    ensures var s := Exec(Step, Initial(knob, n), acts).value;
            && s.knob == Thirds(knob, DepthOf(acts))
            && (s.knob == knob <==> knob == 0 || DepthOf(acts) == 0)
  {
    RunKeepsDepths(knob, Initial(knob, n), Depths(0, map[]), acts);
    ThirdsFixpoint(knob, DepthOf(acts));
  }

  // ----- When the promise is kept -----

  /** The action that ends a group of overlapping runs is the restore of the run that began the group. */
  predicate EndsByFirst(s: State, a: Action) {
    (a.Restores? || a.RestoreFails?) && Step(s, a).Some? && Quiet(Step(s, a).value) ==>
      a.Restores? && s.first == Some(a.r)
  }

  /** Along the whole schedule, the first reader of every group is its last restorer. */
  predicate FirstIsLast(s: State, acts: seq<Action>)
    decreases |acts|
  {
    acts == [] ||
    (EndsByFirst(s, acts[0]) && (Step(s, acts[0]).Some? ==> FirstIsLast(Step(s, acts[0]).value, acts[1..])))
  }

  /** The group's first reader, while it runs, holds the initial value. */
  predicate GroupInv(knob: nat, s: State) {
    if Quiet(s) then s.knob == knob
    else s.first.Some? && s.first.value < |s.runs| && s.runs[s.first.value] != Fresh
         && (s.runs[s.first.value].Saved? ==> s.runs[s.first.value].original == knob)
  }

  lemma StepKeepsGroup(knob: nat, s: State, a: Action)
    requires GroupInv(knob, s) && Step(s, a).Some? && EndsByFirst(s, a)
    ensures GroupInv(knob, Step(s, a).value)
  {
    var t := Step(s, a).value;
    assert forall r :: 0 <= r < |s.runs| && r != a.r ==> t.runs[r] == s.runs[r];
    if a.Reads? || a.Reduces? {
      assert t.runs[a.r].Saved?;
      assert a.Reduces? ==> s.runs[a.r].Saved?;
    } else if a.Restores? || a.RestoreFails? {
      assert s.runs[a.r].Saved?;
    } else {
      assert Quiet(t) <==> Quiet(s);
    }
  }

  lemma {:induction false} RunKeepsGroup(knob: nat, s: State, acts: seq<Action>)
    requires GroupInv(knob, s) && FirstIsLast(s, acts) && Exec(Step, s, acts).Some?
    ensures GroupInv(knob, Exec(Step, s, acts).value)
    decreases |acts|
  {
    if acts != [] {
      StepKeepsGroup(knob, s, acts[0]);
      RunKeepsGroup(knob, Step(s, acts[0]).value, acts[1..]);
    }
  }

  /** Overlapping runs leave no trace when in every group the first reader is the last to restore: then
      every quiet state is at depth 0. */
  lemma RestoredWhenFirstIsLast(knob: nat, n: nat, acts: seq<Action>)
    requires Exec(Step, Initial(knob, n), acts).Some? && FirstIsLast(Initial(knob, n), acts)
    ensures var s := Exec(Step, Initial(knob, n), acts).value;
            Quiet(s) ==> s.knob == knob && (knob > 0 ==> DepthOf(acts) == 0)
  {
    RunKeepsGroup(knob, Initial(knob, n), acts);
    RestoredExactlyAtDepthZero(knob, n, acts);
  }

  /** Runs one after the other, no read while another run is under way, and every restore takes effect. */
  predicate NoOverlap(s: State, acts: seq<Action>)
    decreases |acts|
  {
    acts == [] ||
    (&& (acts[0].Reads? ==> Quiet(s)) && !acts[0].RestoreFails?
     && (Step(s, acts[0]).Some? ==> NoOverlap(Step(s, acts[0]).value, acts[1..])))
  }

  predicate OnlyFirst(s: State) {
    forall r :: 0 <= r < |s.runs| && s.runs[r].Saved? ==> s.first == Some(r)
  }

  lemma {:induction false} NoOverlapIsFirstIsLast(s: State, acts: seq<Action>)
    requires OnlyFirst(s) && NoOverlap(s, acts)
    ensures FirstIsLast(s, acts)
    decreases |acts|
  {
    if acts != [] && Step(s, acts[0]).Some? {
      var t := Step(s, acts[0]).value;
      assert OnlyFirst(t);
      NoOverlapIsFirstIsLast(t, acts[1..]);
    }
  }

  /** Non-overlapping runs, each ended anywhere after its read, always put the initial value back. */
  lemma SequentialRunsRestore(knob: nat, n: nat, acts: seq<Action>)
    requires NoOverlap(Initial(knob, n), acts) && Exec(Step, Initial(knob, n), acts).Some?
    ensures var s := Exec(Step, Initial(knob, n), acts).value; Quiet(s) ==> s.knob == knob
  {
    NoOverlapIsFirstIsLast(Initial(knob, n), acts);
    RestoredWhenFirstIsLast(knob, n, acts);
  }

  /** Without that, the promise "always restore" fails: a second run that reads while the first has the
      knob reduced, and restores after it, leaves the knob at a third of its value. */
  lemma {:induction false} OverlapLosesTheKnob(knob: nat)
    requires knob > 0
    ensures var acts := [Reads(0), Reduces(0), Reads(1), Restores(0), Restores(1)];
            var s := Exec(Step, Initial(knob, 2), acts);
            s.Some? && Quiet(s.value) && s.value.knob == knob / 3 != knob
  {
    var s0 := Initial(knob, 2);
    var s1 := Step(s0, Reads(0)).value;
    var s2 := Step(s1, Reduces(0)).value;
    var s3 := Step(s2, Reads(1)).value;
    var s4 := Step(s3, Restores(0)).value;
    var s5 := Step(s4, Restores(1)).value;
    var a5 := [Restores(1)];
    var a4 := [Restores(0)] + a5;
    var a3 := [Reads(1)] + a4;
    var a2 := [Reduces(0)] + a3;
    var a1 := [Reads(0)] + a2;
    assert a1 == [Reads(0), Reduces(0), Reads(1), Restores(0), Restores(1)];
    assert a1[1..] == a2 && a2[1..] == a3 && a3[1..] == a4 && a4[1..] == a5 && a5[1..] == [];
    assert Exec(Step, s5, []) == Some(s5);
    assert Exec(Step, s4, a5) == Some(s5);
    assert Exec(Step, s3, a4) == Some(s5);
    assert Exec(Step, s2, a3) == Some(s5);
    assert Exec(Step, s1, a2) == Some(s5);
  }

  // ----- Which schedules there are -----

  /** The actions of one run. */
  function Of(acts: seq<Action>, r: nat): seq<Action> {
    if acts == [] then []
    else Of(acts[..|acts| - 1], r) + (if acts[|acts| - 1].r == r then [acts[|acts| - 1]] else [])
  }

  predicate Ends(a: Action) { a.Restores? || a.RestoreFails? }

  /** What one run may have done: nothing, given up before the read, or read, then at most one reduction, then
      at most one attempt to restore. */
  predicate Program(p: seq<Action>) {
    || p == []
    || (|p| == 1 && (p[0].Abandoned? || p[0].Reads?))
    || (|p| == 2 && p[0].Reads? && (p[1].Reduces? || Ends(p[1])))
    || (|p| == 3 && p[0].Reads? && p[1].Reduces? && Ends(p[2]))
  }

  /** The phase a run is in after its actions. */
  predicate PhaseAfter(phase: Phase, p: seq<Action>) {
    match phase
    case Fresh => p == []
    case Saved(_, false) => |p| == 1 && p[0].Reads?
    case Saved(_, true) => |p| == 2 && p[0].Reads? && p[1].Reduces?
    case Over => p != [] && (p[0].Abandoned? || Ends(p[|p| - 1]))
  }

  predicate Programs(acts: seq<Action>, n: nat) {
    && (forall i :: 0 <= i < |acts| ==> acts[i].r < n)
    && (forall r :: 0 <= r < n ==> Program(Of(acts, r)))
  }

  predicate Phases(s: State, acts: seq<Action>) {
    forall r :: 0 <= r < |s.runs| ==> Program(Of(acts, r)) && PhaseAfter(s.runs[r], Of(acts, r))
  }

  /** One more action can be taken exactly when its run's program allows it. */
  lemma NextAction(s: State, acts: seq<Action>, a: Action)
    requires Phases(s, acts)
    ensures Step(s, a).Some? <==> a.r < |s.runs| && Program(Of(acts, a.r) + [a])
    ensures Step(s, a).Some? ==> |Step(s, a).value.runs| == |s.runs| && Phases(Step(s, a).value, acts + [a])
  {
    assert (acts + [a])[..|acts|] == acts;
    if Step(s, a).Some? {
      var t := Step(s, a).value;
      forall r | 0 <= r < |t.runs| ensures Program(Of(acts + [a], r)) && PhaseAfter(t.runs[r], Of(acts + [a], r)) {
        if r != a.r { assert Of(acts + [a], r) == Of(acts, r) && t.runs[r] == s.runs[r]; }
      }
    }
  }

  lemma ProgramsOfPrefix(acts: seq<Action>, n: nat)
    requires acts != [] && Programs(acts, n)
    ensures Programs(acts[..|acts| - 1], n)
  {
    var before := acts[..|acts| - 1];
    forall r | 0 <= r < n ensures Program(Of(before, r)) {
      var p := Of(before, r);
      if acts[|acts| - 1].r == r { assert p == Of(acts, r)[..|p|]; } else { assert p == Of(acts, r); }
    }
  }

  /** Nothing blocks: a schedule can be executed if and only if each run's own actions are in the order of its
      program, however the runs are interleaved. */
  lemma {:induction false} SchedulesAreInterleavings(knob: nat, n: nat, acts: seq<Action>)
    ensures Exec(Step, Initial(knob, n), acts).Some? <==> Programs(acts, n)
    ensures Exec(Step, Initial(knob, n), acts).Some? ==>
              var s := Exec(Step, Initial(knob, n), acts).value; |s.runs| == n && Phases(s, acts)
  {
    if acts != [] {
      var before, a := acts[..|acts| - 1], acts[|acts| - 1];
      SchedulesAreInterleavings(knob, n, before);
      OneMoreAction(knob, n, before, a);
      assert before + [a] == acts;
    }
  }

  lemma OneMoreAction(knob: nat, n: nat, before: seq<Action>, a: Action)
    requires Exec(Step, Initial(knob, n), before).Some? <==> Programs(before, n)
    requires Exec(Step, Initial(knob, n), before).Some? ==>
               |Exec(Step, Initial(knob, n), before).value.runs| == n
               && Phases(Exec(Step, Initial(knob, n), before).value, before)
    ensures var r := Exec(Step, Initial(knob, n), before + [a]);
            && (r.Some? <==> Programs(before + [a], n))
            && (r.Some? ==> |r.value.runs| == n && Phases(r.value, before + [a]))
  {
    var acts := before + [a];
    ExecConcat(Step, Initial(knob, n), before, [a]);
    assert acts[..|before|] == before;
    if Programs(acts, n) { ProgramsOfPrefix(acts, n); }
    if Programs(before, n) {
      var s := Exec(Step, Initial(knob, n), before).value;
      NextAction(s, before, a);
      assert Exec(Step, s, [a]) == Step(s, a);
      AppendedPrograms(before, a, n);
    }
  }

  lemma AppendedPrograms(before: seq<Action>, a: Action, n: nat)
    requires Programs(before, n)
    ensures Programs(before + [a], n) <==> a.r < n && Program(Of(before, a.r) + [a])
  {
    var acts := before + [a];
    assert acts[..|before|] == before;
    assert forall r: nat :: Of(acts, r) == Of(before, r) + (if a.r == r then [a] else []);
    assert forall r: nat :: a.r != r ==> Of(acts, r) == Of(before, r);
    assert Programs(acts, n) ==> acts[|before|].r < n;
  }
}
