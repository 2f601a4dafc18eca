/** `ipc_throughput`: a writer streams chunks to a reader over a bounded pipe.

    The pipe keeps the contract of POSIX.1-2017 (System Interfaces, `read()` and `write()`): a write
    blocks while the pipe is full and may put its bytes in piece by piece; a read takes any number of
    the bytes present; a read on an empty pipe blocks while some process still holds a write end and
    returns 0 when none does; a write with no read end left fails.  `fork` leaves both ends open in
    both processes, so each has to close one before the counts are what the program relies on. */
module PipeStream {
  import opened Runs

  datatype Reader = ReaderForked | Reading | ReaderExited
  datatype Writer = WriterForked | Writing | Waiting | WriterDone | WriterBroken

  datatype Stream = Stream(
    capacity: nat, chunk: nat, total: int,         // fixed for a run
    inPipe: nat, readEnds: int, writeEnds: int,    // the pipe
    reader: Reader, received: nat,
    writer: Writer, i: nat, pending: nat,          // loop index, bytes of the current write still to go
    written: nat)                                  // bytes ever put into the pipe

  datatype Action =
    | ReaderCloses | ReaderReads(n: nat) | ReaderSeesEnd | ReaderHasAll
    | WriterCloses | WriterBegins | WriterPushes(n: nat) | WriterBreaks | WriterCloseEnd | WriterReaps

  /** C division truncates toward zero. */
  function CDiv(a: int, b: int): int
    requires b > 0
  {
    if a >= 0 then a / b else -((-a) / b)
  }

  function Chunks(s: Stream): int
    requires s.chunk > 0
  {
    CDiv(s.total, s.chunk)
  }

  function Initial(capacity: nat, chunk: nat, total: int): Stream {
    Stream(capacity, chunk, total, 0, 2, 2, ReaderForked, 0, WriterForked, 0, 0, 0)
  }

  function Min(a: int, b: int): int { if a <= b then a else b }

  /** One step of one process, or `None` when it cannot be taken. */
  function Step(s: Stream, a: Action): Option<Stream> {
    if s.chunk == 0 then None
    else match a
      case ReaderCloses =>
        if s.reader == ReaderForked then Some(s.(reader := Reading, writeEnds := s.writeEnds - 1)) else None
      case ReaderReads(n) =>
        if s.reader == Reading && s.received < s.total && 1 <= n <= Min(s.chunk, s.inPipe)
        then Some(s.(received := s.received + n, inPipe := s.inPipe - n)) else None
      case ReaderSeesEnd =>
        if s.reader == Reading && s.received < s.total && s.inPipe == 0 && s.writeEnds == 0
        then Some(s.(reader := ReaderExited, readEnds := s.readEnds - 1)) else None
      case ReaderHasAll =>
        if s.reader == Reading && s.received >= s.total
        then Some(s.(reader := ReaderExited, readEnds := s.readEnds - 1)) else None
      case WriterCloses =>
        if s.writer == WriterForked then Some(s.(writer := Writing, readEnds := s.readEnds - 1)) else None
      case WriterBegins =>
        if s.writer == Writing && s.pending == 0 && s.i < Chunks(s) then Some(s.(pending := s.chunk)) else None
      case WriterPushes(n) =>
        if s.writer == Writing && s.readEnds > 0 && 1 <= n <= Min(s.pending, s.capacity - s.inPipe)
        then Some(s.(pending := s.pending - n, inPipe := s.inPipe + n, written := s.written + n,
                     i := if s.pending == n then s.i + 1 else s.i)) else None
      case WriterBreaks =>
        if s.writer == Writing && s.pending > 0 && s.readEnds == 0 then Some(s.(writer := WriterBroken)) else None
      case WriterCloseEnd =>
        if s.writer == Writing && s.pending == 0 && s.i >= Chunks(s)
        then Some(s.(writer := Waiting, writeEnds := s.writeEnds - 1)) else None
      case WriterReaps =>
        if s.writer == Waiting && s.reader == ReaderExited then Some(s.(writer := WriterDone)) else None
  }

  /** Number of writes the loop makes. */
  function Writes(s: Stream): nat
    requires s.chunk > 0
  {
    if Chunks(s) > 0 then Chunks(s) else 0
  }

  /** Bytes of `n` whole chunks. */
  function Bytes(n: nat, chunk: nat): nat { n * chunk }

  lemma BytesStep(n: nat, chunk: nat)
    ensures Bytes(n + 1, chunk) == Bytes(n, chunk) + chunk
  {
  }

  lemma {:induction false} BytesMonotone(m: nat, n: nat, chunk: nat)
    requires m <= n
    ensures Bytes(m, chunk) <= Bytes(n, chunk)
    ensures m < n ==> Bytes(m, chunk) + chunk <= Bytes(n, chunk)
  {
    if m < n {
      BytesStep(n - 1, chunk);
      BytesMonotone(m, n - 1, chunk);
    }
  }

  predicate Final(s: Stream) { s.reader == ReaderExited && s.writer == WriterDone }

  predicate Inv(s: Stream) {
    && s.capacity >= 1 && s.chunk >= 1
    && s.written == s.received + s.inPipe && s.inPipe <= s.capacity
    && s.i <= Writes(s) && s.pending <= s.chunk && (s.pending > 0 ==> s.i < Writes(s) && s.writer == Writing)
    && s.written == Bytes(s.i, s.chunk) + (if s.pending > 0 then s.chunk - s.pending else 0)
    && s.writer != WriterBroken
    && s.writeEnds == (if s.reader == ReaderForked then 1 else 0)
                      + (if s.writer in {WriterForked, Writing} then 1 else 0)
    && s.readEnds == (if s.reader == ReaderExited then 0 else 1) + (if s.writer == WriterForked then 1 else 0)
    && (s.writer == WriterForked ==> s.i == 0)
    && (s.writer in {Waiting, WriterDone} ==> s.i == Writes(s))
    && (s.writer == WriterDone ==> s.reader == ReaderExited)
    && (s.reader == ReaderExited ==> s.i == Writes(s) && s.inPipe == 0 && s.pending == 0)
  }

  lemma WholeBytes(a: nat, b: nat)
    requires b > 0
    ensures Bytes(a / b, b) <= a < Bytes(a / b, b) + b
  {
  }

  lemma QuotientSign(a: nat, b: nat)
    requires b > 0
    ensures a / b >= 0
  {
  }

  /** What the writer will have sent in the end, and how it compares with the volume asked for. */
  lemma VolumeSent(s: Stream)
    requires s.chunk > 0
    ensures Writes(s) == if s.total > 0 then s.total / s.chunk else 0
    ensures s.total > 0 ==> Bytes(Writes(s), s.chunk) <= s.total < Bytes(Writes(s), s.chunk) + s.chunk
  {
    if s.total >= 0 {
      QuotientSign(s.total, s.chunk);
      WholeBytes(s.total, s.chunk);
    } else {
      QuotientSign(-s.total, s.chunk);
    }
  }

  lemma ReaderHasAllKeepsInv(s: Stream)
    requires Inv(s) && s.received >= s.total
    ensures s.i == Writes(s) && s.pending == 0 && s.inPipe == 0
  {
    VolumeSent(s);
    BytesMonotone(s.i, Writes(s), s.chunk);
  }

  lemma StepKeepsInv(s: Stream, a: Action)
    requires Inv(s) && Step(s, a).Some?
    ensures Inv(Step(s, a).value)
  {
    match a {
      case ReaderHasAll => ReaderHasAllKeepsInv(s);
      case WriterPushes(n) => BytesStep(s.i, s.chunk);
      case _ =>
    }
  }

  function ReaderRank(r: Reader): nat {
    match r case ReaderForked => 2 case Reading => 1 case ReaderExited => 0
  }

  function WriterRank(w: Writer): nat {
    match w case WriterForked => 3 case Writing => 2 case Waiting => 1 case WriterDone => 0 case WriterBroken => 0
  }

  /** Bytes still to be written and to be read, loop rounds, and program points still ahead. */
  function Measure(s: Stream): int {
    if s.chunk == 0 then 0
    else
      var all := Bytes(Writes(s), s.chunk);
      (all - s.written) + (all - s.received) + 2 * (Writes(s) - s.i) - (if s.pending > 0 then 1 else 0)
      + ReaderRank(s.reader) + WriterRank(s.writer)
  }

  lemma StepLowersMeasure(s: Stream, a: Action)
    requires Inv(s) && Step(s, a).Some?
    ensures Measure(Step(s, a).value) < Measure(s)
  {
  }

  lemma MeasureNonNegative(s: Stream)
    requires Inv(s)
    ensures Measure(s) >= 0
  {
    BytesMonotone(s.i, Writes(s), s.chunk);
  }

  /** Some process can always go on until both have ended: there is no deadlock. */
  lemma NeverStuck(s: Stream)
    requires Inv(s) && !Final(s)
    ensures exists a :: Step(s, a).Some?
  {
    if s.reader == ReaderForked {
      assert Step(s, ReaderCloses).Some?;
    } else if s.writer == WriterForked {
      assert Step(s, WriterCloses).Some?;
    } else if s.reader == Reading && s.received >= s.total {
      assert Step(s, ReaderHasAll).Some?;
    } else if s.reader == Reading && s.inPipe > 0 {
      assert Step(s, ReaderReads(1)).Some?;
    } else if s.writer == Writing && s.pending > 0 {
      assert Step(s, WriterPushes(1)).Some?;
    } else if s.writer == Writing && s.i < Chunks(s) {
      assert Step(s, WriterBegins).Some?;
    } else if s.writer == Writing {
      assert Step(s, WriterCloseEnd).Some?;
    } else if s.reader == Reading {
      assert Step(s, ReaderSeesEnd).Some?;
    } else {
      assert Step(s, WriterReaps).Some?;
    }
  }

  lemma RunKeepsInv(capacity: nat, chunk: nat, total: int, acts: seq<Action>)
    requires capacity >= 1 && chunk >= 1
    ensures var r := Exec(Step, Initial(capacity, chunk, total), acts);
            r.Some? ==> Inv(r.value) && r.value.capacity == capacity && r.value.chunk == chunk && r.value.total == total
  {
    var inv := (s: Stream) => Inv(s) && s.capacity == capacity && s.chunk == chunk && s.total == total;
    forall s, a | inv(s) && Step(s, a).Some? ensures inv(Step(s, a).value) { StepKeepsInv(s, a); }
    Preserved(Step, inv, Initial(capacity, chunk, total), acts);
  }

  /** The pipe's side of a read: it takes any number of the bytes present, at least one and at most the chunk
      asked for; it waits when there is none and somebody can still write, and it sees the end exactly when there
      is none and nobody can. */
  lemma ReadsAreChunked(s: Stream)
    requires s.chunk >= 1 && s.reader == Reading && s.received < s.total
    ensures forall n: nat :: Step(s, ReaderReads(n)).Some? <==> 1 <= n <= s.chunk && n <= s.inPipe
    ensures forall n: nat :: Step(s, ReaderReads(n)).Some? ==>
              var t := Step(s, ReaderReads(n)).value; t.received == s.received + n && t.inPipe == s.inPipe - n
    ensures Step(s, ReaderSeesEnd).Some? <==> s.inPipe == 0 && s.writeEnds == 0
  {
  }

  /** The pipe's side of a write: it takes any number of the bytes left, as far as there is room, and it fails
      exactly when nobody can read any more. */
  lemma WritesArePartial(s: Stream)
    requires s.chunk >= 1 && s.writer == Writing && s.pending > 0
    ensures forall n: nat :: Step(s, WriterPushes(n)).Some? <==>
              s.readEnds > 0 && 1 <= n <= s.pending && n <= s.capacity - s.inPipe
    ensures forall n: nat :: Step(s, WriterPushes(n)).Some? ==>
              var t := Step(s, WriterPushes(n)).value; t.written == s.written + n && t.inPipe == s.inPipe + n
    ensures Step(s, WriterBreaks).Some? <==> s.readEnds == 0
  {
  }

  /** At every moment of every run: what was written is what was received and what is in the pipe;
      the writer never meets a closed pipe, and once the reader has exited it has nothing to write. */
  lemma StreamIsConserved(capacity: nat, chunk: nat, total: int, acts: seq<Action>)
    requires capacity >= 1 && chunk >= 1
    requires Exec(Step, Initial(capacity, chunk, total), acts).Some?
    ensures var s := Exec(Step, Initial(capacity, chunk, total), acts).value;
            && s.written == s.received + s.inPipe && s.inPipe <= capacity
            && s.writer != WriterBroken && (s.pending > 0 ==> s.readEnds > 0)
            && (s.reader == ReaderExited ==> forall a :: Step(s, a).Some? ==> Step(s, a).value.written == s.written)
  {
    RunKeepsInv(capacity, chunk, total, acts);
  }

  /** Every run is finite, whatever the schedule and the sizes of the partial reads and writes. */
  lemma StreamIsFinite(capacity: nat, chunk: nat, total: int, acts: seq<Action>)
    requires capacity >= 1 && chunk >= 1
    requires Exec(Step, Initial(capacity, chunk, total), acts).Some?
    ensures |acts| <= Measure(Initial(capacity, chunk, total))
  {
    forall s, a | Inv(s) && Step(s, a).Some?
      ensures Inv(Step(s, a).value) && Measure(Step(s, a).value) < Measure(s)
    {
      StepKeepsInv(s, a);
      StepLowersMeasure(s, a);
    }
    Bounded(Step, Inv, Measure, Initial(capacity, chunk, total), acts);
    RunKeepsInv(capacity, chunk, total, acts);
    MeasureNonNegative(Exec(Step, Initial(capacity, chunk, total), acts).value);
  }

  lemma WhenFinal(s: Stream)
    requires Inv(s) && Final(s)
    ensures s.received == (if s.total > 0 then Bytes(s.total / s.chunk, s.chunk) else 0) && s.inPipe == 0
    ensures s.total > 0 ==> s.total - s.chunk < s.received <= s.total
  {
    VolumeSent(s);
  }

  /** A run that cannot go on has ended: all whole chunks received, an empty pipe, and less than one
      chunk missing from the volume asked for. */
  lemma StreamCompletes(capacity: nat, chunk: nat, total: int, acts: seq<Action>)
    requires capacity >= 1 && chunk >= 1
    requires Exec(Step, Initial(capacity, chunk, total), acts).Some?
    requires forall a :: Step(Exec(Step, Initial(capacity, chunk, total), acts).value, a).None?
    ensures var s := Exec(Step, Initial(capacity, chunk, total), acts).value;
            && Final(s)
            && s.received == (if total > 0 then Bytes(total / chunk, chunk) else 0) && s.inPipe == 0
            && (total > 0 ==> total - chunk < s.received <= total)
  {
    RunKeepsInv(capacity, chunk, total, acts);
    var s := Exec(Step, Initial(capacity, chunk, total), acts).value;
    if !Final(s) { NeverStuck(s); }
    WhenFinal(s);
  }
}
