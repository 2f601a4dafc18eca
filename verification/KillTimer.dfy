/** `stream_command`: a reader thread relays a command's output and reports how it ended, while a timer
    thread may set a flag and kill the command.  The flag is set before the kill.

    A `threading.Timer` first checks that it was not cancelled and then calls its function, so a
    cancellation between the two comes too late. */
module KillTimer {
  import opened Runs

  datatype Command = Executing | ExitedWith(code: int) | KilledByTimer

  datatype Timer = Armed | Due | FlagSet | Fired | Cancelled

  datatype Reader = Reading | Waiting | Cancelling | Checking | Over

  datatype Output = Line(text: string) | KilledTrailer | ExitTrailer(code: int)

  /** `open`: somebody still holds the write end of the output pipe; `printed`: every line written. */
  datatype State = State(
    command: Command, open: bool, pipe: seq<string>, printed: seq<string>,
    timer: Timer, timedOut: bool, reader: Reader, yielded: seq<Output>)

  datatype Action =
    | Prints(text: string) | ClosesOutput | Exits(code: int)
    | TimerChecks | TimerSetsFlag | TimerKills
    | ReaderLine | ReaderSeesEnd | ReaderReaps | ReaderCancels | ReaderReports

  const INITIAL := State(Executing, true, [], [], Armed, false, Reading, [])

  function Step(s: State, a: Action): Option<State> {
    match a
    case Prints(text) =>
      if s.open then Some(s.(pipe := s.pipe + [text], printed := s.printed + [text])) else None
    case ClosesOutput => if s.open then Some(s.(open := false)) else None
    case Exits(code) => if s.command == Executing then Some(s.(command := ExitedWith(code))) else None
    case TimerChecks => if s.timer == Armed then Some(s.(timer := Due)) else None
    case TimerSetsFlag => if s.timer == Due then Some(s.(timer := FlagSet, timedOut := true)) else None
    case TimerKills =>
      if s.timer != FlagSet then None
      else Some(s.(timer := Fired, command := if s.command == Executing then KilledByTimer else s.command))
    case ReaderLine =>
      if s.reader == Reading && s.pipe != []
      then Some(s.(pipe := s.pipe[1..], yielded := s.yielded + [Line(s.pipe[0])])) else None
    case ReaderSeesEnd =>
      if s.reader == Reading && s.pipe == [] && !s.open then Some(s.(reader := Waiting)) else None
    case ReaderReaps =>
      if s.reader == Waiting && s.command != Executing then Some(s.(reader := Cancelling)) else None
    case ReaderCancels =>
      if s.reader != Cancelling then None
      else Some(s.(reader := Checking, timer := if s.timer == Armed then Cancelled else s.timer))
    case ReaderReports =>
      if s.reader != Checking then None
      else
        var trailer := if s.timedOut then KilledTrailer
                       else if s.command.ExitedWith? then ExitTrailer(s.command.code) else ExitTrailer(-9);
        Some(s.(reader := Over, yielded := s.yielded + [trailer]))
  }

  function AsLines(texts: seq<string>): (lines: seq<Output>)
    ensures |lines| == |texts| && forall i :: 0 <= i < |texts| ==> lines[i] == Line(texts[i])
  {
    seq(|texts|, i requires 0 <= i < |texts| => Line(texts[i]))
  }

  /** The flag may still be set after the report, but the command has ended by then. */
  predicate FinalTrailer(s: State, trailer: Output) {
    || (trailer == KilledTrailer && s.timedOut)
    || (s.command.ExitedWith? && trailer == ExitTrailer(s.command.code))
  }

  predicate Inv(s: State) {
    && (s.timedOut <==> s.timer in {FlagSet, Fired})
    && (s.command == KilledByTimer ==> s.timer == Fired)
    && (s.reader != Reading ==> !s.open && s.pipe == [])
    && (s.reader in {Cancelling, Checking, Over} ==> s.command != Executing)
    && (s.reader in {Checking, Over} ==> s.timer != Armed)
    && |s.pipe| <= |s.printed| && s.pipe == s.printed[|s.printed| - |s.pipe|..]
    && (if s.reader != Over then s.yielded == AsLines(s.printed[..|s.printed| - |s.pipe|])
        else |s.yielded| == |s.printed| + 1
             && s.yielded[..|s.printed|] == AsLines(s.printed)
             && FinalTrailer(s, s.yielded[|s.printed|]))
  }

  lemma LineKeepsInv(s: State)
    requires Inv(s) && s.reader == Reading && s.pipe != []
    ensures Inv(Step(s, ReaderLine).value)
  {
    var n := |s.printed| - |s.pipe|;
    assert s.printed[n] == s.pipe[0];
    assert s.printed[..n] + [s.pipe[0]] == s.printed[..n + 1];
    assert AsLines(s.printed[..n + 1]) == AsLines(s.printed[..n]) + [Line(s.pipe[0])];
  }

  lemma PrintKeepsInv(s: State, text: string)
    requires Inv(s) && s.open
    ensures Inv(Step(s, Prints(text)).value)
  {
    var n := |s.printed| - |s.pipe|;
    assert (s.printed + [text])[..n] == s.printed[..n];
    assert (s.printed + [text])[n..] == s.printed[n..] + [text];
  }

  lemma ReportKeepsInv(s: State)
    requires Inv(s) && s.reader == Checking
    ensures Inv(Step(s, ReaderReports).value)
  {
    assert s.printed[..|s.printed|] == s.printed;
    assert s.yielded == AsLines(s.printed);
  }

  /** The steps that move no line. */
  lemma SilentStepKeepsInv(s: State, a: Action)
    requires Inv(s) && Step(s, a).Some? && !a.Prints? && !a.ReaderLine? && !a.ReaderReports?
    ensures Inv(Step(s, a).value)
  {
    var t := Step(s, a).value;
    assert t.pipe == s.pipe && t.printed == s.printed && t.yielded == s.yielded;
    assert t.reader == Over <==> s.reader == Over;
    if s.reader == Over { assert t.command == s.command && (s.timedOut ==> t.timedOut); }
  }

  lemma StepKeepsInv(s: State, a: Action)
    requires Inv(s) && Step(s, a).Some?
    ensures Inv(Step(s, a).value)
  {
    match a {
      case Prints(text) => PrintKeepsInv(s, text);
      case ReaderLine => LineKeepsInv(s);
      case ReaderReports => ReportKeepsInv(s);
      case _ => SilentStepKeepsInv(s, a);
    }
  }

  lemma RunKeepsInv(acts: seq<Action>)
    ensures var r := Exec(Step, INITIAL, acts); r.Some? ==> Inv(r.value)
  {
    assert Inv(INITIAL);
    forall s, a | Inv(s) && Step(s, a).Some? ensures Inv(Step(s, a).value) { StepKeepsInv(s, a); }
    Preserved(Step, Inv, INITIAL, acts);
  }

  /** In every interleaving that reaches the end: every line printed comes first, in order, then exactly
      one trailer, which says killed whenever the timer's kill ended the command, and otherwise never gives
      an exit code that is not the command's own. */
  lemma TrailerTellsTheTruth(acts: seq<Action>)
    requires Exec(Step, INITIAL, acts).Some? && Exec(Step, INITIAL, acts).value.reader == Over
    ensures var s := Exec(Step, INITIAL, acts).value;
            && |s.yielded| == |s.printed| + 1
            && s.yielded[..|s.printed|] == AsLines(s.printed)
            && var trailer := s.yielded[|s.printed|];
               && (s.command == KilledByTimer ==> trailer == KilledTrailer)
               && (trailer != KilledTrailer ==> s.command.ExitedWith? && trailer == ExitTrailer(s.command.code))
  {
    RunKeepsInv(acts);
  }

  lemma {:induction false} FlagIsInSchedule(s: State, acts: seq<Action>)
    requires Exec(Step, s, acts).Some?
    ensures Exec(Step, s, acts).value.timedOut <==> s.timedOut || TimerSetsFlag in acts
    decreases |acts|
  {
    if acts != [] { FlagIsInSchedule(Step(s, acts[0]).value, acts[1..]); }
  }

  /** When the trailer says killed, exactly: the timer set its flag before the reader looked at it, which may
      be after the cancellation has returned. */
  lemma KilledExactlyWhenFlagged(acts: seq<Action>)
    requires Exec(Step, INITIAL, acts + [ReaderReports]).Some?
    ensures Exec(Step, INITIAL, acts).Some?
    ensures var s, t := Exec(Step, INITIAL, acts).value, Exec(Step, INITIAL, acts + [ReaderReports]).value;
            (t.yielded == s.yielded + [KilledTrailer]) <==> TimerSetsFlag in acts
  {
    ExecConcat(Step, INITIAL, acts, [ReaderReports]);
    FlagIsInSchedule(INITIAL, acts);
    var s := Exec(Step, INITIAL, acts).value;
    assert Exec(Step, s, [ReaderReports]) == Step(s, ReaderReports);
    var t := Step(s, ReaderReports).value;
    assert t.yielded[|s.yielded|] == KilledTrailer <==> s.timedOut;
  }

  /** The timer is cancelled after it has checked, of a command that has exited; the reader has not looked. */
  function TooLate(code: int): State { State(ExitedWith(code), false, [], [], Due, false, Checking, []) }

  lemma CancelledTooLate(code: int)
    ensures Exec(Step, INITIAL, [Exits(code), ClosesOutput, TimerChecks] + [ReaderSeesEnd, ReaderReaps, ReaderCancels])
         == Some(TooLate(code))
  {
    var s1 := State(ExitedWith(code), true, [], [], Armed, false, Reading, []);
    var s2 := s1.(open := false);
    var s3 := s2.(timer := Due);
    Exec3(Step, INITIAL, s1, s2, s3, Exits(code), ClosesOutput, TimerChecks);
    Exec3(Step, s3, s3.(reader := Waiting), s3.(reader := Cancelling), TooLate(code),
          ReaderSeesEnd, ReaderReaps, ReaderCancels);
    ExecConcat(Step, INITIAL, [Exits(code), ClosesOutput, TimerChecks], [ReaderSeesEnd, ReaderReaps, ReaderCancels]);
  }

  /** So the trailer can say killed of a command that exited by itself, even when the cancellation has
      returned before the flag was set. */
  lemma KilledTrailerAfterOwnExit(code: int)
    ensures var start := [Exits(code), ClosesOutput, TimerChecks] + [ReaderSeesEnd, ReaderReaps, ReaderCancels];
            var s := Exec(Step, INITIAL, start + [TimerSetsFlag, ReaderReports]);
            s.Some? && s.value.command == ExitedWith(code) && s.value.yielded == [KilledTrailer]
  {
    var start := [Exits(code), ClosesOutput, TimerChecks] + [ReaderSeesEnd, ReaderReaps, ReaderCancels];
    var s, last := TooLate(code), [TimerSetsFlag, ReaderReports];
    CancelledTooLate(code);
    ExecConcat(Step, INITIAL, start, last);
    var s1 := Step(s, TimerSetsFlag).value;
    assert last[1..] == [ReaderReports];
    assert Exec(Step, s1, [ReaderReports]) == Step(s1, ReaderReports);
  }

  // ----- The timer's effect, and the ordinary runs -----

  predicate FiredEnds(s: State) { s.timer == Fired ==> s.command != Executing }

  /** Once the timer has killed, the command is over. */
  lemma FiredTimerHasEnded(acts: seq<Action>)
    requires Exec(Step, INITIAL, acts).Some?
    ensures var s := Exec(Step, INITIAL, acts).value; s.timer == Fired ==> s.command != Executing
  {
    Preserved(Step, FiredEnds, INITIAL, acts);
  }

  /** A kill ends a command that is still executing, and changes nothing about one that has exited. */
  lemma KillEndsCommand(s: State)
    requires s.timer == FlagSet
    ensures Step(s, TimerKills).Some?
    ensures Step(s, TimerKills).value.command == if s.command.ExitedWith? then s.command else KilledByTimer
  {
  }

  predicate ByReader(a: Action) { a in {ReaderLine, ReaderSeesEnd, ReaderReaps, ReaderCancels, ReaderReports} }

  /** Once the command is over and its output closed, the reader can always go on to its report. */
  lemma ReaderCanEnd(s: State)
    requires Inv(s) && s.command != Executing && !s.open && s.reader != Over
    ensures exists a :: ByReader(a) && Step(s, a).Some?
  {
    match s.reader
    case Reading => if s.pipe != [] { assert Step(s, ReaderLine).Some?; } else { assert Step(s, ReaderSeesEnd).Some?; }
    case Waiting => assert Step(s, ReaderReaps).Some?;
    case Cancelling => assert Step(s, ReaderCancels).Some?;
    case Checking => assert Step(s, ReaderReports).Some?;
  }

  /** Each line printed and read in turn. */
  function Relaying(texts: seq<string>): seq<Action> {
    if texts == [] then [] else Relaying(texts[..|texts| - 1]) + [Prints(texts[|texts| - 1]), ReaderLine]
  }

  lemma {:induction false} LinesAreRelayed(texts: seq<string>)
    ensures Exec(Step, INITIAL, Relaying(texts)) == Some(INITIAL.(printed := texts, yielded := AsLines(texts)))
  {
    if texts == [] {
      assert AsLines(texts) == [];
    } else {
      var n := |texts| - 1;
      LinesAreRelayed(texts[..n]);
      OneLineRelayed(texts[..n], texts[n]);
      ExecConcat(Step, INITIAL, Relaying(texts[..n]), [Prints(texts[n]), ReaderLine]);
      assert texts[..n] + [texts[n]] == texts;
    }
  }

  lemma OneLineRelayed(before: seq<string>, text: string)
    ensures var s := INITIAL.(printed := before, yielded := AsLines(before));
            Exec(Step, s, [Prints(text), ReaderLine])
            == Some(INITIAL.(printed := before + [text], yielded := AsLines(before + [text])))
  {
    var s := INITIAL.(printed := before, yielded := AsLines(before));
    var t := Step(s, Prints(text)).value;
    assert [] + [text] == [text] && [text][1..] == [];
    assert AsLines(before) + [Line(text)] == AsLines(before + [text]);
    assert [Prints(text), ReaderLine][1..] == [ReaderLine];
    assert Exec(Step, t, [ReaderLine]) == Step(t, ReaderLine);
  }

  /** Any command that exits in time: all it printed, then its own exit code. */
  lemma OrdinaryRun(texts: seq<string>, code: int)
    ensures var acts := Relaying(texts) + ([Exits(code), ClosesOutput, ReaderSeesEnd]
                                           + [ReaderReaps, ReaderCancels, ReaderReports]);
            var s := Exec(Step, INITIAL, acts);
            s.Some? && s.value.yielded == AsLines(texts) + [ExitTrailer(code)]
  {
    var s := INITIAL.(printed := texts, yielded := AsLines(texts));
    LinesAreRelayed(texts);
    var first, second := [Exits(code), ClosesOutput, ReaderSeesEnd], [ReaderReaps, ReaderCancels, ReaderReports];
    var s1 := s.(command := ExitedWith(code));
    var s2 := s1.(open := false);
    var s3 := s2.(reader := Waiting);
    Exec3(Step, s, s1, s2, s3, Exits(code), ClosesOutput, ReaderSeesEnd);
    var s4 := s3.(reader := Cancelling);
    var s5 := s4.(reader := Checking, timer := Cancelled);
    Exec3(Step, s3, s4, s5, s5.(reader := Over, yielded := s5.yielded + [ExitTrailer(code)]),
          ReaderReaps, ReaderCancels, ReaderReports);
    ExecConcat(Step, s, first, second);
    ExecConcat(Step, INITIAL, Relaying(texts), first + second);
  }

  const STRIKE := [TimerChecks, TimerSetsFlag, TimerKills]
  const CLOSING := [ClosesOutput, ReaderSeesEnd, ReaderReaps]
  const REPORTING := [ReaderCancels, ReaderReports]

  /** After some lines, and then after the timer has struck. */
  function After(texts: seq<string>): State { INITIAL.(printed := texts, yielded := AsLines(texts)) }
  function Struck(texts: seq<string>): State {
    After(texts).(timer := Fired, timedOut := true, command := KilledByTimer)
  }

  lemma TimerStrikes(texts: seq<string>)
    ensures Exec(Step, After(texts), STRIKE) == Some(Struck(texts))
  {
    var s1 := After(texts).(timer := Due);
    var s2 := s1.(timer := FlagSet, timedOut := true);
    Exec3(Step, After(texts), s1, s2, Struck(texts), TimerChecks, TimerSetsFlag, TimerKills);
  }

  lemma StruckCloses(texts: seq<string>)
    ensures Exec(Step, Struck(texts), CLOSING) == Some(Struck(texts).(open := false, reader := Cancelling))
  {
    var s1 := Struck(texts).(open := false);
    var s2 := s1.(reader := Waiting);
    Exec3(Step, Struck(texts), s1, s2, s2.(reader := Cancelling), ClosesOutput, ReaderSeesEnd, ReaderReaps);
  }

  lemma StruckReports(texts: seq<string>)
    ensures Exec(Step, Struck(texts).(open := false, reader := Cancelling), REPORTING)
         == Some(Struck(texts).(open := false, reader := Over, yielded := AsLines(texts) + [KilledTrailer]))
  {
    var s := Struck(texts).(open := false, reader := Cancelling);
    var t := Step(s, ReaderCancels).value;
    assert REPORTING[1..] == [ReaderReports];
    assert Exec(Step, t, [ReaderReports]) == Step(t, ReaderReports);
  }

  /** Any command that does not: all it printed, then that it was killed. */
  lemma KilledRun(texts: seq<string>)
    ensures var s := Exec(Step, INITIAL, Relaying(texts) + (STRIKE + (CLOSING + REPORTING)));
            s.Some? && s.value.command == KilledByTimer && s.value.yielded == AsLines(texts) + [KilledTrailer]
  {
    LinesAreRelayed(texts);
    TimerStrikes(texts);
    StruckCloses(texts);
    StruckReports(texts);
    ExecConcat(Step, Struck(texts), CLOSING, REPORTING);
    ExecConcat(Step, After(texts), STRIKE, CLOSING + REPORTING);
    ExecConcat(Step, INITIAL, Relaying(texts), STRIKE + (CLOSING + REPORTING));
  }
}
