/** The thread part of `stress_test`: rounds of N threads that each increment a shared counter under a
    mutex, after which the main thread joins them and compares the counter with N.

    The increment is a load and a store, as it is on the machine, and every thread runs at its own pace.
    When a thread cannot be created the round is given up and the threads already made are not joined. */
module MutexRounds {
  import opened Runs

  datatype Thread = Ready | Holding | Loaded(value: int) | Stored | Done

  datatype Main = Starting | Creating | Joining(joined: nat)

  /** `threads` are all threads ever created, those of the current round from `base` on. */
  datatype State = State(
    n: nat, threads: seq<Thread>, base: nat, owner: Option<nat>, counter: int,
    main: Main, rounds: nat, failures: nat)

  datatype Action =
    | Lock(t: nat) | Load(t: nat) | Store(t: nat) | Unlock(t: nat)
    | StartRound | Create | CreateFails | BeginJoin | Join | Compare

  function Initial(n: nat): State { State(n, [], 0, None, 0, Starting, 0, 0) }

  function Size(s: State): int { |s.threads| - s.base }

  function Moved(s: State, t: nat, to: Thread): State
    requires t < |s.threads|
  {
    s.(threads := s.threads[t := to])
  }

  function Step(s: State, a: Action): Option<State> {
    match a
    case Lock(t) =>
      if t < |s.threads| && s.threads[t] == Ready && s.owner.None?
      then Some(Moved(s, t, Holding).(owner := Some(t))) else None
    case Load(t) =>
      if t < |s.threads| && s.threads[t] == Holding then Some(Moved(s, t, Loaded(s.counter))) else None
    case Store(t) =>
      if t < |s.threads| && s.threads[t].Loaded?
      then Some(Moved(s, t, Stored).(counter := s.threads[t].value + 1)) else None
    case Unlock(t) =>
      if t < |s.threads| && s.threads[t] == Stored then Some(Moved(s, t, Done).(owner := None)) else None
    case StartRound =>
      if s.main == Starting then Some(s.(counter := 0, base := |s.threads|, main := Creating)) else None
    case Create =>
      if s.main == Creating && Size(s) < s.n then Some(s.(threads := s.threads + [Ready])) else None
    case CreateFails =>
      if s.main == Creating && Size(s) < s.n
      then Some(s.(main := Starting, rounds := s.rounds + 1, failures := s.failures + 1)) else None
    case BeginJoin =>
      if s.main == Creating && Size(s) >= s.n then Some(s.(main := Joining(0))) else None
    case Join =>
      if s.main.Joining? && s.main.joined < s.n
         && s.base + s.main.joined < |s.threads| && s.threads[s.base + s.main.joined] == Done
      then Some(s.(main := Joining(s.main.joined + 1))) else None
    case Compare =>
      if s.main == Joining(s.n)
      then Some(s.(main := Starting, rounds := s.rounds + 1,
                   failures := s.failures + if s.counter == s.n then 0 else 1)) else None
  }

  predicate InSection(t: Thread) { t == Holding || t.Loaded? || t == Stored }

  predicate HasStored(t: Thread) { t in {Stored, Done} }

  /** The mutex: exactly its owner is inside. */
  predicate Exclusive(s: State) {
    && (s.owner.Some? ==> s.owner.value < |s.threads|)
    && (forall t :: 0 <= t < |s.threads| ==> (InSection(s.threads[t]) <==> s.owner == Some(t)))
  }

  /** Number of completed stores among some threads. */
  function Stores(threads: seq<Thread>): nat {
    if threads == [] then 0 else Stores(threads[..|threads| - 1]) + (if HasStored(threads[|threads| - 1]) then 1 else 0)
  }

  lemma {:induction false} StoresUpdate(threads: seq<Thread>, i: nat, t: Thread)
    requires i < |threads|
    ensures Stores(threads[i := t])
         == Stores(threads) - (if HasStored(threads[i]) then 1 else 0) + (if HasStored(t) then 1 else 0)
  {
    var n := |threads| - 1;
    if i < n {
      StoresUpdate(threads[..n], i, t);
      assert threads[i := t][..n] == threads[..n][i := t];
    } else {
      assert threads[i := t][..n] == threads[..n];
    }
  }

  lemma {:induction false} StoresOfDone(threads: seq<Thread>)
    requires forall i :: 0 <= i < |threads| ==> threads[i] == Done
    ensures Stores(threads) == |threads|
  {
    if threads != [] { StoresOfDone(threads[..|threads| - 1]); }
  }

  predicate AllDone(threads: seq<Thread>) { forall i :: 0 <= i < |threads| ==> threads[i] == Done }

  /** What holds as long as every thread could be created. */
  predicate Inv(s: State) {
    && Exclusive(s)
    && s.base <= |s.threads| && Size(s) <= s.n
    && AllDone(s.threads[..s.base])
    && s.failures == 0
    && (s.main == Starting ==> AllDone(s.threads))
    && (s.main != Starting ==> s.counter == Stores(s.threads[s.base..]))
    && (forall t :: 0 <= t < |s.threads| && s.threads[t].Loaded? ==> s.threads[t].value == s.counter)
    && (s.main.Joining? ==> Size(s) == s.n && s.main.joined <= s.n
                            && AllDone(s.threads[..s.base + s.main.joined]))
  }

  predicate ByThread(a: Action) { a.Lock? || a.Load? || a.Store? || a.Unlock? }

  lemma StepKeepsExclusive(s: State, a: Action)
    requires Exclusive(s) && Step(s, a).Some?
    ensures Exclusive(Step(s, a).value)
  {
  }

  lemma DonePrefix(threads: seq<Thread>, k: nat)
    requires k <= |threads| && AllDone(threads[..k])
    ensures forall i :: 0 <= i < k ==> threads[i] == Done
  {
    assert forall i :: 0 <= i < k ==> threads[..k][i] == threads[i];
  }

  /** A thread that moves is one of the current round. */
  lemma MoverIsOfRound(s: State, a: Action)
    requires Inv(s) && ByThread(a) && Step(s, a).Some?
    ensures s.base <= a.t < |s.threads| && s.main != Starting
    ensures s.main.Joining? ==> a.t >= s.base + s.main.joined
  {
    DonePrefix(s.threads, s.base);
    if s.main.Joining? { DonePrefix(s.threads, s.base + s.main.joined); }
  }

  lemma ThreadStepCounts(s: State, a: Action)
    requires Inv(s) && ByThread(a) && Step(s, a).Some?
    requires s.base <= a.t < |s.threads| && s.main != Starting
    ensures var u := Step(s, a).value; u.counter == Stores(u.threads[u.base..])
  {
    OwnStoresAfter(s, a);
  }

  lemma ThreadStepKeepsDone(s: State, a: Action)
    requires Inv(s) && ByThread(a) && Step(s, a).Some?
    ensures var u := Step(s, a).value;
            && AllDone(u.threads[..u.base])
            && (u.main.Joining? ==> AllDone(u.threads[..u.base + u.main.joined]))
  {
    var u := Step(s, a).value;
    MoverIsOfRound(s, a);
    assert u.threads[..s.base] == s.threads[..s.base];
    if s.main.Joining? {
      var k := s.base + s.main.joined;
      assert u.threads[..k] == s.threads[..k];
    }
  }

  lemma ThreadStepKeepsValues(s: State, a: Action)
    requires Inv(s) && ByThread(a) && Step(s, a).Some?
    ensures var u := Step(s, a).value;
            forall t :: 0 <= t < |u.threads| && u.threads[t].Loaded? ==> u.threads[t].value == u.counter
  {
    assert InSection(s.threads[a.t]) || a.Lock?;
  }

  lemma ThreadStepKeepsInv(s: State, a: Action)
    requires Inv(s) && ByThread(a) && Step(s, a).Some?
    ensures Inv(Step(s, a).value)
  {
    MoverIsOfRound(s, a);
    ThreadStepCounts(s, a);
    StepKeepsExclusive(s, a);
    ThreadStepKeepsDone(s, a);
    ThreadStepKeepsValues(s, a);
  }

  lemma StartKeepsInv(s: State)
    requires Inv(s) && s.main == Starting
    ensures Inv(Step(s, StartRound).value)
  {
    var u := Step(s, StartRound).value;
    assert u.threads[u.base..] == [];
    assert u.threads[..u.base] == s.threads;
  }

  lemma OneMoreReady(threads: seq<Thread>, base: nat)
    requires base <= |threads|
    ensures (threads + [Ready])[..base] == threads[..base]
    ensures Stores((threads + [Ready])[base..]) == Stores(threads[base..])
  {
    assert (threads + [Ready])[base..] == threads[base..] + [Ready];
    assert (threads[base..] + [Ready])[..|threads| - base] == threads[base..];
  }

  lemma CreateKeepsInv(s: State)
    requires Inv(s) && s.main == Creating && Size(s) < s.n
    ensures Inv(Step(s, Create).value)
  {
    OneMoreReady(s.threads, s.base);
    StepKeepsExclusive(s, Create);
  }

  lemma JoinKeepsInv(s: State)
    requires Inv(s) && Step(s, Join).Some?
    ensures Inv(Step(s, Join).value)
  {
    var k := s.base + s.main.joined;
    assert s.threads[..k + 1] == s.threads[..k] + [Done];
  }

  lemma CompareKeepsInv(s: State)
    requires Inv(s) && s.main == Joining(s.n)
    ensures s.counter == s.n && Inv(Step(s, Compare).value)
  {
    assert s.threads[..s.base + s.n] == s.threads;
    StoresOfDone(s.threads[s.base..]);
  }

  lemma MainStepKeepsInv(s: State, a: Action)
    requires Inv(s) && Step(s, a).Some? && !ByThread(a) && a != CreateFails
    ensures Inv(Step(s, a).value)
  {
    match a {
      case StartRound => StartKeepsInv(s);
      case Create => CreateKeepsInv(s);
      case BeginJoin =>
      case Join => JoinKeepsInv(s);
      case Compare => CompareKeepsInv(s);
    }
  }

  lemma StepKeepsInv(s: State, a: Action)
    requires Inv(s) && Step(s, a).Some? && a != CreateFails
    ensures Inv(Step(s, a).value)
  {
    if ByThread(a) { ThreadStepKeepsInv(s, a); } else { MainStepKeepsInv(s, a); }
  }

  /** At most one thread is ever inside the critical section, creation failures or not. */
  lemma MutexExcludes(n: nat, acts: seq<Action>)
    requires Exec(Step, Initial(n), acts).Some?
    ensures var s := Exec(Step, Initial(n), acts).value;
            forall t, u | 0 <= t < |s.threads| && 0 <= u < |s.threads| ::
              InSection(s.threads[t]) && InSection(s.threads[u]) ==> t == u
  {
    forall s, a | Exclusive(s) && Step(s, a).Some? ensures Exclusive(Step(s, a).value) { StepKeepsExclusive(s, a); }
    Preserved(Step, Exclusive, Initial(n), acts);
  }

  lemma {:induction false} RunKeepsInv(s: State, acts: seq<Action>)
    requires Inv(s) && Exec(Step, s, acts).Some? && forall i :: 0 <= i < |acts| ==> acts[i] != CreateFails
    ensures Inv(Exec(Step, s, acts).value) && Exec(Step, s, acts).value.n == s.n
    decreases |acts|
  {
    if acts != [] {
      StepKeepsInv(s, acts[0]);
      RunKeepsInv(Step(s, acts[0]).value, acts[1..]);
    }
  }

  /** While every creation succeeds, under every schedule and in every round: the counter is the number
      of completed stores of the round, it is N when all its threads are joined, and no round fails. */
  lemma RoundsAreExact(n: nat, acts: seq<Action>)
    requires Exec(Step, Initial(n), acts).Some? && forall i :: 0 <= i < |acts| ==> acts[i] != CreateFails
    ensures var s := Exec(Step, Initial(n), acts).value;
            && s.base <= |s.threads|
            && (s.main != Starting ==> s.counter == Stores(s.threads[s.base..]))
            && (s.main == Joining(n) ==> s.counter == n)
            && s.failures == 0
  {
    RunKeepsInv(Initial(n), acts);
    var s := Exec(Step, Initial(n), acts).value;
    if s.main == Joining(n) {
      assert s.threads[..s.base + n] == s.threads;
      StoresOfDone(s.threads[s.base..]);
    }
  }

  // ----- Which rounds pass, with failed creations -----

  /** What holds in every reachable state. */
  predicate Sound(s: State) {
    && Exclusive(s)
    && s.base <= |s.threads| && s.counter >= 0
    && (forall t :: 0 <= t < |s.threads| && s.threads[t].Loaded? ==> s.threads[t].value >= 0)
  }

  lemma StepKeepsSound(s: State, a: Action)
    requires Sound(s) && Step(s, a).Some?
    ensures Sound(Step(s, a).value)
  {
  }

  /** Stores made by threads of earlier rounds. */
  function Strays(acts: seq<Action>, base: nat): nat {
    if acts == [] then 0 else (if acts[0].Store? && acts[0].t < base then 1 else 0) + Strays(acts[1..], base)
  }

  /** The counter during a round that `strays` stores of earlier threads have reached.  One of them may have
      loaded before the counter was reset; it holds the mutex, so nothing else has been stored yet. */
  predicate Counted(s: State, strays: nat) {
    && s.base <= |s.threads|
    && var own := Stores(s.threads[s.base..]);
    && s.counter >= own + strays
    && (strays == 0 ==> s.counter == own)
    && (forall t :: 0 <= t < |s.threads| && s.threads[t].Loaded? ==>
          s.threads[t].value == s.counter || (t < s.base && own == 0 && strays == 0))
  }

  predicate InRound(s: State, strays: nat) {
    && Sound(s) && Counted(s, strays)
    && s.main != Starting && Size(s) <= s.n
    && (s.main.Joining? ==> Size(s) == s.n && s.main.joined <= s.n
                            && forall i :: s.base <= i < s.base + s.main.joined ==> s.threads[i] == Done)
  }

  /** How a thread's step changes the stores of the round. */
  lemma OwnStoresAfter(s: State, a: Action)
    requires ByThread(a) && Step(s, a).Some? && s.base <= |s.threads|
    ensures var u := Step(s, a).value;
            Stores(u.threads[s.base..]) == Stores(s.threads[s.base..]) + (if a.Store? && a.t >= s.base then 1 else 0)
  {
    var u := Step(s, a).value;
    if a.t >= s.base {
      StoresUpdate(s.threads[s.base..], a.t - s.base, u.threads[a.t]);
      assert u.threads[s.base..] == s.threads[s.base..][a.t - s.base := u.threads[a.t]];
    } else {
      assert u.threads[s.base..] == s.threads[s.base..];
    }
  }

  lemma StoreKeepsCounted(s: State, strays: nat, t: nat)
    requires Sound(s) && Counted(s, strays) && Step(s, Store(t)).Some?
    ensures Counted(Step(s, Store(t)).value, strays + if t < s.base then 1 else 0)
  {
    OwnStoresAfter(s, Store(t));
    assert InSection(s.threads[t]);
  }

  lemma ThreadStepKeepsCounted(s: State, strays: nat, a: Action)
    requires Sound(s) && Counted(s, strays) && ByThread(a) && Step(s, a).Some?
    ensures Counted(Step(s, a).value, strays + if a.Store? && a.t < s.base then 1 else 0)
  {
    if a.Store? {
      StoreKeepsCounted(s, strays, a.t);
    } else {
      OwnStoresAfter(s, a);
      assert InSection(s.threads[a.t]) || a.Lock?;
    }
  }

  lemma ThreadStepKeepsInRound(s: State, strays: nat, a: Action)
    requires InRound(s, strays) && ByThread(a) && Step(s, a).Some?
    ensures InRound(Step(s, a).value, strays + if a.Store? && a.t < s.base then 1 else 0)
    ensures Step(s, a).value.base == s.base && Step(s, a).value.n == s.n
  {
    StepKeepsSound(s, a);
    ThreadStepKeepsCounted(s, strays, a);
    assert s.threads[a.t] != Done;
  }

  lemma CreateKeepsInRound(s: State, strays: nat)
    requires InRound(s, strays) && Step(s, Create).Some?
    ensures InRound(Step(s, Create).value, strays)
  {
    StepKeepsSound(s, Create);
    OneMoreReady(s.threads, s.base);
  }

  lemma JoinKeepsInRound(s: State, strays: nat, a: Action)
    requires InRound(s, strays) && Step(s, a).Some? && a in {BeginJoin, Join}
    ensures InRound(Step(s, a).value, strays)
  {
    var u := Step(s, a).value;
    assert u == s.(main := u.main);
    assert Sound(u) && Counted(u, strays);
  }

  lemma StepKeepsInRound(s: State, strays: nat, a: Action)
    requires InRound(s, strays) && Step(s, a).Some? && a != Compare && a != CreateFails
    ensures InRound(Step(s, a).value, strays + if a.Store? && a.t < s.base then 1 else 0)
    ensures Step(s, a).value.base == s.base && Step(s, a).value.n == s.n
  {
    if ByThread(a) { ThreadStepKeepsInRound(s, strays, a); } else {
      if a == Create { CreateKeepsInRound(s, strays); } else { JoinKeepsInRound(s, strays, a); }
    }
  }

  lemma {:induction false} RunKeepsInRound(s: State, strays: nat, acts: seq<Action>)
    requires InRound(s, strays) && Exec(Step, s, acts).Some? && Compare !in acts && CreateFails !in acts
    ensures var t := Exec(Step, s, acts).value;
            InRound(t, strays + Strays(acts, s.base)) && t.base == s.base && t.n == s.n
    decreases |acts|
  {
    if acts != [] {
      var a := acts[0];
      StepKeepsInRound(s, strays, a);
      RunKeepsInRound(Step(s, a).value, strays + (if a.Store? && a.t < s.base then 1 else 0), acts[1..]);
    }
  }

  lemma StartBeginsRound(s: State)
    requires Sound(s) && s.main == Starting
    ensures InRound(Step(s, StartRound).value, 0)
  {
    var u := Step(s, StartRound).value;
    assert u.threads[u.base..] == [];
  }

  /** At the comparison the counter is N exactly when no stray store was made. */
  lemma CounterAtCompare(s: State, strays: nat)
    requires InRound(s, strays) && s.main == Joining(s.n)
    ensures s.counter == s.n <==> strays == 0
  {
    StoresOfDone(s.threads[s.base..]);
  }

  lemma {:induction false} NoStrays(acts: seq<Action>, base: nat)
    ensures Strays(acts, base) == 0 <==> forall i :: 0 <= i < |acts| && acts[i].Store? ==> acts[i].t >= base
  {
    if acts != [] {
      NoStrays(acts[1..], base);
      assert forall i :: 0 <= i < |acts[1..]| ==> acts[1..][i] == acts[i + 1];
      if Strays(acts, base) == 0 {
        forall i | 0 <= i < |acts| && acts[i].Store? ensures acts[i].t >= base {
          if i > 0 { assert acts[1..][i - 1] == acts[i]; }
        }
      }
    }
  }

  lemma SoundRun(n: nat, acts: seq<Action>)
    requires Exec(Step, Initial(n), acts).Some?
    ensures Sound(Exec(Step, Initial(n), acts).value) && Exec(Step, Initial(n), acts).value.n == n
  {
    var inv := (s: State) => Sound(s) && s.n == n;
    forall s, a | inv(s) && Step(s, a).Some? ensures inv(Step(s, a).value) { StepKeepsSound(s, a); }
    Preserved(Step, inv, Initial(n), acts);
  }

  lemma VerdictOfRound(t: State, strays: nat)
    requires InRound(t, strays) && Step(t, Compare).Some?
    ensures Step(t, Compare).value.failures == t.failures <==> strays == 0
  {
    CounterAtCompare(t, strays);
  }

  /** A round begun in any sound state. */
  lemma RoundOutcome(s: State, u: State, t: State, during: seq<Action>)
    requires Sound(s) && Compare !in during && CreateFails !in during
    requires Step(s, StartRound) == Some(u) && Exec(Step, u, during) == Some(t) && Step(t, Compare).Some?
    ensures Step(t, Compare).value.failures == t.failures
            <==> forall i :: 0 <= i < |during| && during[i].Store? ==> during[i].t >= |s.threads|
  {
    StartBeginsRound(s);
    RunKeepsInRound(u, 0, during);
    VerdictOfRound(t, Strays(during, |s.threads|));
    NoStrays(during, |s.threads|);
  }

  /** The exact condition, for every N and every schedule, failed creations in the past or not: a round that
      reaches its comparison passes if and only if no thread created before the round stores during it. */
  lemma RoundPassesExactly(n: nat, before: seq<Action>, during: seq<Action>)
    requires Compare !in during && CreateFails !in during
    requires Exec(Step, Initial(n), before + ([StartRound] + during)).Some?
    requires Step(Exec(Step, Initial(n), before + ([StartRound] + during)).value, Compare).Some?
    ensures Exec(Step, Initial(n), before).Some?
    ensures var earlier := |Exec(Step, Initial(n), before).value.threads|;
            var t := Exec(Step, Initial(n), before + ([StartRound] + during)).value;
            Step(t, Compare).value.failures == t.failures
            <==> forall i :: 0 <= i < |during| && during[i].Store? ==> during[i].t >= earlier
  {
    ExecConcat(Step, Initial(n), before, [StartRound] + during);
    SoundRun(n, before);
    var s := Exec(Step, Initial(n), before).value;
    assert ([StartRound] + during)[1..] == during;
    var u := Step(s, StartRound).value;
    RoundOutcome(s, u, Exec(Step, u, during).value, during);
  }

  lemma {:induction false} FailuresOnlyGrow(s: State, acts: seq<Action>)
    requires Exec(Step, s, acts).Some?
    ensures Exec(Step, s, acts).value.failures >= s.failures + if CreateFails in acts then 1 else 0
    decreases |acts|
  {
    if acts != [] { FailuresOnlyGrow(Step(s, acts[0]).value, acts[1..]); }
  }

  /** The whole test reports no failure if and only if every creation succeeded. */
  lemma TestPassesExactly(n: nat, acts: seq<Action>)
    requires Exec(Step, Initial(n), acts).Some?
    ensures Exec(Step, Initial(n), acts).value.failures == 0 <==> CreateFails !in acts
  {
    if CreateFails in acts { FailuresOnlyGrow(Initial(n), acts); } else { RoundsAreExact(n, acts); }
  }

  // ----- Progress -----

  /** Whoever holds the mutex can go on; when nobody does, a thread that waits can take it. */
  lemma ThreadCanGo(s: State, t: nat)
    requires Exclusive(s) && t < |s.threads| && s.threads[t] != Done
    ensures exists a :: ByThread(a) && Step(s, a).Some?
  {
    if s.owner.None? {
      assert Step(s, Lock(t)).Some?;
    } else {
      var o := s.owner.value;
      match s.threads[o]
      case Holding => assert Step(s, Load(o)).Some?;
      case Loaded(_) => assert Step(s, Store(o)).Some?;
      case Stored => assert Step(s, Unlock(o)).Some?;
    }
  }

  /** No deadlock, threads of abandoned rounds included: a round under way can always go on, by a thread or by
      the main thread, to its comparison. */
  lemma RoundNeverStuck(s: State, strays: nat)
    requires InRound(s, strays)
    ensures exists a :: a != CreateFails && Step(s, a).Some?
  {
    match s.main
    case Creating => if Size(s) < s.n { assert Step(s, Create).Some?; } else { assert Step(s, BeginJoin).Some?; }
    case Joining(k) =>
      if k == s.n {
        assert Step(s, Compare).Some?;
      } else if s.threads[s.base + k] == Done {
        assert Step(s, Join).Some?;
      } else {
        ThreadCanGo(s, s.base + k);
      }
  }

  /** Steps a thread has still to take. */
  function Ahead(t: Thread): nat {
    match t case Ready => 4 case Holding => 3 case Loaded(_) => 2 case Stored => 1 case Done => 0
  }

  function AllAhead(threads: seq<Thread>): nat {
    if threads == [] then 0 else AllAhead(threads[..|threads| - 1]) + Ahead(threads[|threads| - 1])
  }

  lemma {:induction false} AheadUpdate(threads: seq<Thread>, i: nat, t: Thread)
    requires i < |threads|
    ensures AllAhead(threads[i := t]) == AllAhead(threads) - Ahead(threads[i]) + Ahead(t)
  {
    var n := |threads| - 1;
    if i < n {
      AheadUpdate(threads[..n], i, t);
      assert threads[i := t][..n] == threads[..n][i := t];
    } else {
      assert threads[i := t][..n] == threads[..n];
    }
  }

  /** What is left of a round: four steps a thread, made or still to be made, its creation and its join. */
  function Left(s: State): int {
    match s.main
    case Starting => AllAhead(s.threads)
    case Creating => AllAhead(s.threads) + 5 * (s.n - Size(s)) + s.n + 2
    case Joining(k) => AllAhead(s.threads) + (s.n - k) + 1
  }

  lemma ThreadStepLowersLeft(s: State, a: Action)
    requires ByThread(a) && Step(s, a).Some? && s.main != Starting
    ensures Left(Step(s, a).value) == Left(s) - 1
  {
    AheadUpdate(s.threads, a.t, Step(s, a).value.threads[a.t]);
  }

  lemma StepLowersLeft(s: State, strays: nat, a: Action)
    requires InRound(s, strays) && Step(s, a).Some? && a != CreateFails && a != Compare
    ensures Left(Step(s, a).value) == Left(s) - 1
  {
    if ByThread(a) {
      ThreadStepLowersLeft(s, a);
    } else if a == Create {
      assert Step(s, a).value.threads[..|s.threads|] == s.threads;
    }
  }

  lemma {:induction false} AheadNonNegative(threads: seq<Thread>)
    ensures AllAhead(threads) <= 4 * |threads|
  {
    if threads != [] { AheadNonNegative(threads[..|threads| - 1]); }
  }

  lemma {:induction false} RunLowersLeft(s: State, strays: nat, acts: seq<Action>)
    requires InRound(s, strays) && Exec(Step, s, acts).Some? && Compare !in acts && CreateFails !in acts
    ensures |acts| + Left(Exec(Step, s, acts).value) == Left(s)
    decreases |acts|
  {
    if acts != [] {
      var a := acts[0];
      StepKeepsInRound(s, strays, a);
      StepLowersLeft(s, strays, a);
      RunLowersLeft(Step(s, a).value, strays + (if a.Store? && a.t < s.base then 1 else 0), acts[1..]);
    }
  }

  lemma LeftInRound(s: State, strays: nat)
    requires InRound(s, strays)
    ensures Left(s) >= 1
  {
  }

  /** Every round whose creations succeed ends: it takes at most six steps for each of its own threads and four
      for each thread left over, under any schedule, and it cannot stop before its comparison. */
  lemma RoundIsFinite(s: State, u: State, t: State, during: seq<Action>)
    requires Sound(s) && Compare !in during && CreateFails !in during
    requires Step(s, StartRound) == Some(u) && Exec(Step, u, during) == Some(t)
    ensures |during| <= 4 * |s.threads| + 6 * s.n + 1
    ensures exists a :: a != CreateFails && Step(t, a).Some?
  {
    StartBeginsRound(s);
    RunKeepsInRound(u, 0, during);
    RunLowersLeft(u, 0, during);
    AheadNonNegative(s.threads);
    LeftInRound(t, Strays(during, u.base));
    RoundNeverStuck(t, Strays(during, u.base));
  }

  // ----- A failed creation can spoil the next round -----

  function WholeRun(t: nat): seq<Action> { [Lock(t), Load(t), Store(t), Unlock(t)] }

  /** A thread that runs through alone. */
  lemma ThreadRunsThrough(s: State, t: nat)
    requires t < |s.threads| && s.threads[t] == Ready && s.owner.None?
    ensures Exec(Step, s, WholeRun(t)) == Some(s.(threads := s.threads[t := Done], counter := s.counter + 1))
  {
    var s1 := Step(s, Lock(t)).value;
    var s2 := Step(s1, Load(t)).value;
    var s3 := Step(s2, Store(t)).value;
    var s4 := Step(s3, Unlock(t)).value;
    assert s4.threads == s.threads[t := Done];
    var a4 := [Unlock(t)];
    var a3 := [Store(t)] + a4;
    var a2 := [Load(t)] + a3;
    assert WholeRun(t) == [Lock(t)] + a2;
    assert WholeRun(t)[1..] == a2 && a2[1..] == a3 && a3[1..] == a4 && a4[1..] == [];
    assert Exec(Step, s4, []) == Some(s4);
    assert Exec(Step, s3, a4) == Some(s4);
    assert Exec(Step, s2, a3) == Some(s4);
    assert Exec(Step, s1, a2) == Some(s4);
  }

  const FAILED_ROUND := [StartRound, Create, CreateFails]
  const SECOND_ROUND := [StartRound, Create, Create]
  const VERDICT := [BeginJoin, Join, Join, Compare]

  lemma FailedRound()
    ensures Exec(Step, Initial(2), FAILED_ROUND) == Some(State(2, [Ready], 0, None, 0, Starting, 1, 1))
  {
    var s1 := State(2, [], 0, None, 0, Creating, 0, 0);
    var s2 := State(2, [Ready], 0, None, 0, Creating, 0, 0);
    var s3 := State(2, [Ready], 0, None, 0, Starting, 1, 1);
    assert [] + [Ready] == [Ready];
    assert Step(Initial(2), StartRound) == Some(s1) && Step(s1, Create) == Some(s2);
    assert Step(s2, CreateFails) == Some(s3);
    Exec3(Step, Initial(2), s1, s2, s3, StartRound, Create, CreateFails);
  }

  lemma SecondRound()
    ensures Exec(Step, State(2, [Ready], 0, None, 0, Starting, 1, 1), SECOND_ROUND)
         == Some(State(2, [Ready, Ready, Ready], 1, None, 0, Creating, 1, 1))
  {
    var s0 := State(2, [Ready], 0, None, 0, Starting, 1, 1);
    var s1 := State(2, [Ready], 1, None, 0, Creating, 1, 1);
    var s2 := State(2, [Ready, Ready], 1, None, 0, Creating, 1, 1);
    var s3 := State(2, [Ready, Ready, Ready], 1, None, 0, Creating, 1, 1);
    assert [Ready] + [Ready] == [Ready, Ready] && [Ready, Ready] + [Ready] == [Ready, Ready, Ready];
    assert Step(s0, StartRound) == Some(s1) && Step(s1, Create) == Some(s2) && Step(s2, Create) == Some(s3);
    Exec3(Step, s0, s1, s2, s3, StartRound, Create, Create);
  }

  lemma Verdict()
    ensures Exec(Step, State(2, [Done, Done, Done], 1, None, 3, Creating, 1, 1), VERDICT)
         == Some(State(2, [Done, Done, Done], 1, None, 3, Starting, 2, 2))
  {
    var threads := [Done, Done, Done];
    var s0 := State(2, threads, 1, None, 3, Creating, 1, 1);
    var s1 := State(2, threads, 1, None, 3, Joining(0), 1, 1);
    var s2 := State(2, threads, 1, None, 3, Joining(1), 1, 1);
    var s3 := State(2, threads, 1, None, 3, Joining(2), 1, 1);
    var s4 := State(2, threads, 1, None, 3, Starting, 2, 2);
    assert Step(s0, BeginJoin) == Some(s1) && Step(s1, Join) == Some(s2) && Step(s2, Join) == Some(s3);
    assert Step(s3, Compare) == Some(s4);
    Exec3(Step, s1, s2, s3, s4, Join, Join, Compare);
    assert VERDICT[1..] == [Join, Join, Compare];
  }

  /** The condition is needed: a thread left over from a round that was given up increments the counter of
      the next round, which is then reported as failed although all its own creations succeeded. */
  lemma FailedCreationSpoilsNextRound()
    ensures var acts := FAILED_ROUND + (SECOND_ROUND + (WholeRun(0) + (WholeRun(1) + (WholeRun(2) + VERDICT))));
            var s := Exec(Step, Initial(2), acts);
            s.Some? && s.value.rounds == 2 && s.value.failures == 2
  {
    FailedRound();
    SecondRound();
    var s2 := State(2, [Ready, Ready, Ready], 1, None, 0, Creating, 1, 1);
    ThreadRunsThrough(s2, 0);
    var s3 := State(2, [Done, Ready, Ready], 1, None, 1, Creating, 1, 1);
    assert [Ready, Ready, Ready][0 := Done] == s3.threads;
    ThreadRunsThrough(s3, 1);
    var s4 := State(2, [Done, Done, Ready], 1, None, 2, Creating, 1, 1);
    assert s3.threads[1 := Done] == s4.threads;
    ThreadRunsThrough(s4, 2);
    var s5 := State(2, [Done, Done, Done], 1, None, 3, Creating, 1, 1);
    assert s4.threads[2 := Done] == s5.threads;
    Verdict();
    ExecConcat(Step, s4, WholeRun(2), VERDICT);
    ExecConcat(Step, s3, WholeRun(1), WholeRun(2) + VERDICT);
    ExecConcat(Step, s2, WholeRun(0), WholeRun(1) + (WholeRun(2) + VERDICT));
    ExecConcat(Step, State(2, [Ready], 0, None, 0, Starting, 1, 1), SECOND_ROUND,
               WholeRun(0) + (WholeRun(1) + (WholeRun(2) + VERDICT)));
    ExecConcat(Step, Initial(2), FAILED_ROUND, SECOND_ROUND + (WholeRun(0) + (WholeRun(1) + (WholeRun(2) + VERDICT))));
  }
}
