/** `context_switch`: two processes bounce one byte over two pipes, and the program divides the round
    trip by two to get the cost of one context switch.

    The pipes keep the contract of POSIX.1-2017 (System Interfaces, `read()` and `write()`): a read on
    an empty pipe blocks while some write end is open and returns 0 when none is; a write blocks while
    the pipe is full and fails when no read end is open.  After `fork` each process first closes the
    two ends it does not use, in its own time. */
module PingPong {
  import opened Runs

  datatype Process = Parent | Child

  datatype Life = Alive | Exited | Failed

  datatype State = State(
    rounds: int, capacity: nat,                          // fixed for a run
    ping: nat, pong: nat,                                // bytes in the pipes
    parent: Life, parentCloses: nat, i: nat, awaiting: bool,
    child: Life, childCloses: nat, j: nat, holding: bool,
    log: seq<Process>)                                   // who did each read and write

  datatype Action =
    | Closes(who: Process) | ParentWrites | ParentReads | ChildReads | ChildWrites | Errs(who: Process)
    | ChildExits | ParentReaps

  function Initial(rounds: int, capacity: nat): State {
    State(rounds, capacity, 0, 0, Alive, 0, 0, false, Alive, 0, 0, false, [])
  }

  /** The descriptors still open: the parent closes ping's read end and then pong's write end, the
      child ping's write end and then pong's read end; exiting closes the rest. */
  function PingReadEnds(s: State): nat {
    (if s.child == Alive then 1 else 0) + (if s.parent == Alive && s.parentCloses == 0 then 1 else 0)
  }
  function PingWriteEnds(s: State): nat {
    (if s.parent == Alive then 1 else 0) + (if s.child == Alive && s.childCloses == 0 then 1 else 0)
  }
  function PongReadEnds(s: State): nat {
    (if s.parent == Alive then 1 else 0) + (if s.child == Alive && s.childCloses <= 1 then 1 else 0)
  }
  function PongWriteEnds(s: State): nat {
    (if s.child == Alive then 1 else 0) + (if s.parent == Alive && s.parentCloses <= 1 then 1 else 0)
  }

  predicate InLoop(s: State, who: Process) {
    match who
    case Parent => s.parent == Alive && s.parentCloses == 2 && s.i < s.rounds
    case Child => s.child == Alive && s.childCloses == 2 && s.j < s.rounds
  }

  /** The call a process is at returns an error or an end of file instead of moving a byte. */
  predicate CallFails(s: State, who: Process) {
    match who
    case Parent => if s.awaiting then s.pong == 0 && PongWriteEnds(s) == 0 else PingReadEnds(s) == 0
    case Child => if s.holding then PongReadEnds(s) == 0 else s.ping == 0 && PingWriteEnds(s) == 0
  }

  function Step(s: State, a: Action): Option<State> {
    match a
    case Closes(Parent) =>
      if s.parent == Alive && s.parentCloses < 2 then Some(s.(parentCloses := s.parentCloses + 1)) else None
    case Closes(Child) =>
      if s.child == Alive && s.childCloses < 2 then Some(s.(childCloses := s.childCloses + 1)) else None
    case ParentWrites =>
      if InLoop(s, Parent) && !s.awaiting && PingReadEnds(s) > 0 && s.ping < s.capacity
      then Some(s.(ping := s.ping + 1, awaiting := true, log := s.log + [Parent])) else None
    case ParentReads =>
      if InLoop(s, Parent) && s.awaiting && s.pong > 0
      then Some(s.(pong := s.pong - 1, awaiting := false, i := s.i + 1, log := s.log + [Parent])) else None
    case ChildReads =>
      if InLoop(s, Child) && !s.holding && s.ping > 0
      then Some(s.(ping := s.ping - 1, holding := true, log := s.log + [Child])) else None
    case ChildWrites =>
      if InLoop(s, Child) && s.holding && PongReadEnds(s) > 0 && s.pong < s.capacity
      then Some(s.(pong := s.pong + 1, holding := false, j := s.j + 1, log := s.log + [Child])) else None
    case Errs(Parent) =>
      if InLoop(s, Parent) && CallFails(s, Parent) then Some(s.(parent := Failed)) else None
    case Errs(Child) =>
      if InLoop(s, Child) && CallFails(s, Child) then Some(s.(child := Failed)) else None
    case ChildExits =>
      if s.child == Alive && s.childCloses == 2 && s.j >= s.rounds then Some(s.(child := Exited)) else None
    case ParentReaps =>
      if s.parent == Alive && s.parentCloses == 2 && s.i >= s.rounds && s.child != Alive
      then Some(s.(parent := Exited)) else None
  }

  function Rounds(s: State): nat { if s.rounds > 0 then s.rounds else 0 }

  /** Whose turn the k-th read or write is: parent, child, child, parent, over and over. */
  function Turn(k: nat): Process {
    if k >= 4 then Turn(k - 4) else if k == 0 || k == 3 then Parent else Child
  }

  /** The reads and writes so far were made in turn. */
  predicate InTurn(log: seq<Process>) { forall k :: 0 <= k < |log| ==> log[k] == Turn(k) }

  predicate Control(s: State) {
    && s.capacity >= 1 && s.parentCloses <= 2 && s.childCloses <= 2
    && s.parent != Failed && s.child != Failed
    && s.i <= Rounds(s) && s.j <= Rounds(s)
    && (s.awaiting ==> s.i < Rounds(s)) && (s.holding ==> s.j < Rounds(s))
    && (s.child == Exited ==> s.j == Rounds(s) && s.childCloses == 2)
    && (s.parent == Exited ==> s.i == Rounds(s) && s.child == Exited && s.parentCloses == 2)
    && (s.parentCloses < 2 ==> s.i == 0 && !s.awaiting)
    // where the byte is
    && (if !s.awaiting then !s.holding && s.j == s.i && s.ping == 0 && s.pong == 0 && |s.log| == 4 * s.i
        else if s.j == s.i + 1 then !s.holding && s.ping == 0 && s.pong == 1 && |s.log| == 4 * s.i + 3
        else s.j == s.i && s.pong == 0 && s.ping == (if s.holding then 0 else 1)
             && |s.log| == 4 * s.i + (if s.holding then 2 else 1))
  }

  predicate Inv(s: State) { Control(s) && InTurn(s.log) }

  lemma StepKeepsControl(s: State, a: Action)
    requires Control(s) && Step(s, a).Some?
    ensures Control(Step(s, a).value)
  {
  }

  lemma StepKeepsTurn(s: State, a: Action)
    requires Inv(s) && Step(s, a).Some?
    ensures InTurn(Step(s, a).value.log)
  {
    TurnInRound(s.i);
  }

  lemma StepKeepsInv(s: State, a: Action)
    requires Inv(s) && Step(s, a).Some?
    ensures Inv(Step(s, a).value)
  {
    StepKeepsControl(s, a);
    StepKeepsTurn(s, a);
  }

  lemma {:induction false} TurnInRound(i: nat)
    ensures Turn(4 * i) == Parent && Turn(4 * i + 1) == Child && Turn(4 * i + 2) == Child && Turn(4 * i + 3) == Parent
  {
    if i > 0 { TurnInRound(i - 1); }
  }

  function LifeRank(l: Life): nat { if l == Alive then 1 else 0 }

  function Measure(s: State): int {
    (4 * Rounds(s) - |s.log|) + (2 - s.parentCloses) + (2 - s.childCloses) + LifeRank(s.parent) + LifeRank(s.child)
  }

  /** The next read or write of the process's loop would not block. */
  predicate CanTransfer(s: State, who: Process) {
    match who
    case Parent => s.i < s.rounds && (if s.awaiting then s.pong > 0 else s.ping < s.capacity)
    case Child => s.j < s.rounds && (if s.holding then s.pong < s.capacity else s.ping > 0)
  }

  predicate Final(s: State) { s.parent == Exited && s.child == Exited }

  /** Number of times consecutive reads and writes are by different processes. */
  function Handoffs(log: seq<Process>): nat {
    if |log| < 2 then 0
    else Handoffs(log[..|log| - 1]) + (if log[|log| - 2] != log[|log| - 1] then 1 else 0)
  }

  lemma {:induction false} TurnChanges(k: nat)
    requires k > 0
    ensures Turn(k - 1) != Turn(k) <==> k % 2 == 1
  {
    if k > 4 { TurnChanges(k - 4); }
  }

  lemma HalfStep(n: nat)
    requires n > 0
    ensures n / 2 == (n - 1) / 2 + (if (n - 1) % 2 == 1 then 1 else 0)
  {
  }

  /** Control changes hands at every second read or write. */
  lemma {:induction false} HandoffsOfTurns(log: seq<Process>)
    requires InTurn(log)
    ensures Handoffs(log) == |log| / 2
  {
    if |log| >= 2 {
      var k := |log| - 1;
      HandoffsOfTurns(log[..k]);
      TurnChanges(k);
      HalfStep(|log|);
      assert log[k - 1] == Turn(k - 1) && log[k] == Turn(k);
    }
  }

  lemma StepLowersMeasure(s: State, a: Action)
    requires Inv(s) && Step(s, a).Some?
    ensures Measure(Step(s, a).value) == Measure(s) - 1
  {
  }

  lemma RunKeepsInv(rounds: int, capacity: nat, acts: seq<Action>)
    requires capacity >= 1
    ensures var r := Exec(Step, Initial(rounds, capacity), acts);
            r.Some? ==> Inv(r.value) && r.value.rounds == rounds
  {
    var inv := (s: State) => Inv(s) && s.rounds == rounds;
    forall s, a | inv(s) && Step(s, a).Some? ensures inv(Step(s, a).value) { StepKeepsInv(s, a); }
    Preserved(Step, inv, Initial(rounds, capacity), acts);
  }

  lemma RunIsCounted(rounds: int, capacity: nat, acts: seq<Action>)
    requires capacity >= 1
    ensures var r := Exec(Step, Initial(rounds, capacity), acts);
            r.Some? ==> |acts| + Measure(r.value) == Measure(Initial(rounds, capacity))
  {
    forall s, a | Inv(s) && Step(s, a).Some?
      ensures Inv(Step(s, a).value) && Measure(Step(s, a).value) == Measure(s) - 1
    {
      StepKeepsInv(s, a);
      StepLowersMeasure(s, a);
    }
    Counted(Step, Inv, Measure, Initial(rounds, capacity), acts);
  }

  /** In every reachable state at most one byte is under way, no call fails, and until the loops are
      over exactly one of the two processes can make its next read or write. */
  lemma OneProcessCanGo(rounds: int, capacity: nat, acts: seq<Action>)
    requires capacity >= 1 && Exec(Step, Initial(rounds, capacity), acts).Some?
    ensures var s := Exec(Step, Initial(rounds, capacity), acts).value;
            && s.ping + s.pong <= 1
            && s.parent != Failed && s.child != Failed
            && (s.i < rounds && s.child != Alive ==> s.awaiting && s.pong == 1) && (s.j < rounds ==> s.parent == Alive)
            && (s.i < rounds || s.j < rounds ==> (CanTransfer(s, Parent) <==> !CanTransfer(s, Child)))
  {
    RunKeepsInv(rounds, capacity, acts);
  }

  /** What a pipe does when the other side is gone: a call fails exactly when its process is in its loop and the
      pipe it is at has lost its other end, which the result above says never happens. */
  lemma CallsFailWithoutPeer(s: State)
    ensures Step(s, Errs(Parent)).Some? <==>
              && s.parent == Alive && s.parentCloses == 2 && s.i < s.rounds
              && s.child != Alive && (s.awaiting ==> s.pong == 0)
    ensures Step(s, Errs(Child)).Some? <==>
              && s.child == Alive && s.childCloses == 2 && s.j < s.rounds
              && s.parent != Alive && (!s.holding ==> s.ping == 0)
  {
  }

  /** The order of the reads and writes does not depend on the schedule. */
  lemma TurnsAreFixed(rounds: int, capacity: nat, acts: seq<Action>, k: nat)
    requires capacity >= 1 && Exec(Step, Initial(rounds, capacity), acts).Some?
    requires k < |Exec(Step, Initial(rounds, capacity), acts).value.log|
    ensures Exec(Step, Initial(rounds, capacity), acts).value.log[k] == Turn(k)
  {
    RunKeepsInv(rounds, capacity, acts);
  }

  lemma NeverStuck(s: State)
    requires Inv(s) && !Final(s)
    ensures exists a :: Step(s, a).Some?
  {
    if s.parent == Alive && s.parentCloses < 2 {
      assert Step(s, Closes(Parent)).Some?;
    } else if s.child == Alive && s.childCloses < 2 {
      assert Step(s, Closes(Child)).Some?;
    } else if s.j >= s.rounds && s.child == Alive {
      assert Step(s, ChildExits).Some?;
    } else if s.awaiting && s.pong == 1 {
      assert Step(s, ParentReads).Some?;
    } else if s.holding {
      assert Step(s, ChildWrites).Some?;
    } else if s.awaiting {
      assert Step(s, ChildReads).Some?;
    } else if s.i < s.rounds {
      assert Step(s, ParentWrites).Some?;
    } else {
      assert Step(s, ParentReaps).Some?;
    }
  }

  /** No run is longer than four reads and writes a round, four closes and two exits, and a run that
      cannot go on has made them all: both pipes are empty, and control passed between the processes
      exactly twice a round, which is what justifies halving the round trip. */
  lemma PingPongCompletes(rounds: int, capacity: nat, acts: seq<Action>)
    requires capacity >= 1 && Exec(Step, Initial(rounds, capacity), acts).Some?
    ensures var s := Exec(Step, Initial(rounds, capacity), acts).value;
            && |acts| <= 4 * Rounds(s) + 6
            && ((forall a :: Step(s, a).None?) ==>
                  && Final(s) && |acts| == 4 * Rounds(s) + 6 && s.ping == 0 && s.pong == 0
                  && |s.log| == 4 * Rounds(s) && Handoffs(s.log) == 2 * Rounds(s))
  {
    RunKeepsInv(rounds, capacity, acts);
    RunIsCounted(rounds, capacity, acts);
    var s := Exec(Step, Initial(rounds, capacity), acts).value;
    if !Final(s) { NeverStuck(s); }
    HandoffsOfTurns(s.log);
  }
}
