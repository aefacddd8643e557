/** The boundary between the thread that dumps a tree and the thread that restores it:
    a bounded ring of byte buffers, written as a sink and read as a source. */
module SourceChannel {
  import opened Results
  import opened Wire
  import opened NarStream

  const QUEUED: nat := 64

  type chunk = c: bytes | |c| > 0 witness [0]

  /** Idle: outside `writeUnbuffered`. Wants: at the wait's predicate. SeesQuit: found
      the reader gone. Done: stopped, with the reader's failure rethrown or not. */
  datatype Writer =
    | Idle
    | Wants(x: chunk)
    | Sleeps(x: chunk)
    | Notifies
    | SeesQuit
    | NotifiesClosed
    | Joining
    | Done(rethrown: bool)

  /** Busy: in the callback, between two reads. Refills: at the wait's predicate. */
  datatype Reader =
    | NotStarted
    | Busy
    | Refills(want: nat)
    | Rests(want: nat)
    | Copies(want: nat)
    | Quits
    | NotifiesQuit
    | Exited

  datatype Answer = Got(want: nat, data: bytes) | Eof

  /** `written` and `answers` are the history: every chunk that entered the ring, and
      every answer a read gave. */
  datatype State = State(
    full: seq<chunk>, free: nat, consuming: bytes, consumed: nat,
    closed: bool, quit: bool, failure: bool,
    writer: Writer, reader: Reader, written: seq<chunk>, answers: seq<Answer>)

  datatype Step =
    | Write(x: chunk) | TryPush | NotifyFull | Stop | NotifyClosed | Join
    | Read(want: nat) | Refill | Copy | Return(ok: bool) | Quit | NotifyQuit
    | WriterWakes | ReaderWakes

  function Init(): State {
    State([], 0, [], 0, false, false, false, Idle, NotStarted, [], [])
  }

  function WakeWriter(w: Writer): Writer {
    if w.Sleeps? then Wants(w.x) else w
  }

  function WakeReader(r: Reader): Reader {
    if r.Rests? then Refills(r.want) else r
  }

  /** pull, under the mutex: hand back the spent buffer, then take a chunk, sleep, or
      throw EndOfFile. */
  function Refilled(s: State, want: nat): State {
    var t := s.(free := if s.consuming != [] then s.free + 1 else s.free, consuming := [], consumed := 0);
    if t.full == [] then
      if t.closed then t.(reader := Busy, answers := t.answers + [Eof]) else t.(reader := Rests(want))
    else
      t.(consuming := t.full[0], full := t.full[1..], reader := Copies(want),
         writer := if |t.full| == QUEUED then WakeWriter(t.writer) else t.writer)
  }

  function Min(a: nat, b: nat): nat {
    if a < b then a else b
  }

  /** The state after a step, or None where the step cannot happen. */
  function Next(s: State, step: Step): Option<State> {
    match step
    case Write(x) =>
      if !s.writer.Idle? then None
      else Some(s.(writer := Wants(x), reader := if s.reader.NotStarted? then Busy else s.reader))
    case TryPush =>
      if !s.writer.Wants? then None
      else if s.quit then Some(s.(writer := SeesQuit))
      else if |s.full| >= QUEUED then Some(s.(writer := Sleeps(s.writer.x)))
      else Some(s.(full := s.full + [s.writer.x], written := s.written + [s.writer.x],
                   free := if s.free > 0 then s.free - 1 else 0,
                   writer := if |s.full| == 0 then Notifies else Idle))
    case NotifyFull =>
      if !s.writer.Notifies? then None else Some(s.(writer := Idle, reader := WakeReader(s.reader)))
    case Stop =>
      if !s.writer.Idle? && !s.writer.SeesQuit? then None
      else if s.reader.NotStarted? then Some(s.(writer := Done(false)))
      else Some(s.(closed := true, writer := NotifiesClosed))
    case NotifyClosed =>
      if !s.writer.NotifiesClosed? then None else Some(s.(writer := Joining, reader := WakeReader(s.reader)))
    case Join =>
      if s.writer.Joining? && s.reader.Exited? then Some(s.(writer := Done(s.failure), failure := false)) else None
    case Read(want) =>
      if !s.reader.Busy? then None
      else Some(s.(reader := if s.consumed == |s.consuming| then Refills(want) else Copies(want)))
    case Refill => if !s.reader.Refills? then None else Some(Refilled(s, s.reader.want))
    case Copy =>
      if !s.reader.Copies? || s.consumed > |s.consuming| then None else
      var n := Min(s.reader.want, |s.consuming| - s.consumed);
      Some(s.(consumed := s.consumed + n, reader := Busy,
              answers := s.answers + [Got(s.reader.want, s.consuming[s.consumed..s.consumed + n])]))
    case Return(ok) => if !s.reader.Busy? then None else Some(s.(reader := Quits, failure := !ok))
    case Quit => if !s.reader.Quits? then None else Some(s.(quit := true, reader := NotifiesQuit))
    case NotifyQuit =>
      if !s.reader.NotifiesQuit? then None else Some(s.(reader := Exited, writer := WakeWriter(s.writer)))
    case WriterWakes => if s.writer.Sleeps? then Some(s.(writer := Wants(s.writer.x))) else None
    case ReaderWakes => if s.reader.Rests? then Some(s.(reader := Refills(s.reader.want))) else None
  }

  // --------------------------------------------------------------- invariants

  /** The bytes the reads delivered. */
  function Pulled(answers: seq<Answer>): bytes {
    if answers == [] then [] else
    Pulled(answers[..|answers| - 1]) +
    (match answers[|answers| - 1] case Got(_, data) => data case Eof => [])
  }

  /** Bytes pulled, the unread part of the current buffer, and the ring: that is what
      was written. */
  predicate InOrder(s: State) {
    s.consumed <= |s.consuming| &&
    Flatten(s.written) == Pulled(s.answers) + s.consuming[s.consumed..] + Flatten(s.full)
  }

  predicate GoodRead(a: Answer) {
    a.Got? ==> |a.data| <= a.want && (a.want > 0 ==> |a.data| > 0)
  }

  /** Successful reads make progress, and end of file repeats: once a read ended at
      end of file, nothing is left and nothing more can come. */
  predicate GoodReads(s: State) {
    (forall i :: 0 <= i < |s.answers| ==> GoodRead(s.answers[i])) &&
    (forall i, j :: 0 <= i < j < |s.answers| && s.answers[i].Eof? ==> s.answers[j].Eof?) &&
    (forall i :: 0 <= i < |s.answers| && s.answers[i].Eof? ==> s.closed && s.full == [] && s.consuming == [])
  }

  predicate NoLostWakeup(s: State) {
    (s.reader.Rests? && (s.full != [] || s.closed) ==> s.writer.Notifies? || s.writer.NotifiesClosed?) &&
    (s.writer.Sleeps? && (|s.full| < QUEUED || s.quit) ==> s.reader.NotifiesQuit?)
  }

  predicate Bounded(s: State) {
    |s.full| <= QUEUED && s.free + |s.full| + (if s.consuming != [] then 1 else 0) <= QUEUED + 1
  }

  predicate Stages(s: State) {
    (s.closed ==> s.writer.NotifiesClosed? || s.writer.Joining? || s.writer.Done?) &&
    (s.writer.NotifiesClosed? || s.writer.Joining? ==> s.closed && !s.reader.NotStarted?) &&
    (s.quit <==> s.reader.NotifiesQuit? || s.reader.Exited?) &&
    (s.reader.Rests? ==> s.consuming == []) &&
    (s.reader.Copies? ==> s.consumed < |s.consuming|) &&
    (s.reader.Refills? ==> s.consumed == |s.consuming|) &&
    (s.writer.SeesQuit? ==> s.quit) &&
    (s.writer.Done? ==> s.reader.Exited? || (s.reader.NotStarted? && s.written == [])) &&
    (s.reader.NotStarted? ==> s.written == [] && s.answers == [] && (s.writer.Idle? || s.writer.Done?)) &&
    (s.failure ==> s.reader.Quits? || s.reader.NotifiesQuit? || s.reader.Exited?)
  }

  predicate Inv(s: State) {
    InOrder(s) && GoodReads(s) && NoLostWakeup(s) && Bounded(s) && Stages(s)
  }

  lemma FlattenOne(a: seq<bytes>, x: bytes)
    ensures Flatten(a + [x]) == Flatten(a) + x
  {
    assert (a + [x])[..|a|] == a;
  }

  lemma {:induction false} FlattenFirst(a: seq<bytes>)
    requires a != []
    ensures Flatten(a) == a[0] + Flatten(a[1..])
    decreases |a|
  {
    if |a| > 1 {
      FlattenFirst(a[..|a| - 1]);
      assert a[..|a| - 1][1..] == a[1..][..|a| - 2];
    } else {
      assert a[..0] == [] && a[1..] == [];
    }
  }

  lemma PulledOne(answers: seq<Answer>, a: Answer)
    ensures Pulled(answers + [a]) == Pulled(answers) + (if a.Got? then a.data else [])
  {
    assert (answers + [a])[..|answers|] == answers;
  }

  lemma OrderIgnores(s: State, t: State)
    requires InOrder(s)
    requires t.consumed == s.consumed && t.consuming == s.consuming && t.written == s.written
    requires t.answers == s.answers && t.full == s.full
    ensures InOrder(t)
  {
  }

  lemma PushKeepsOrder(s: State, x: chunk, t: State)
    requires InOrder(s) && t.consumed == s.consumed && t.consuming == s.consuming && t.answers == s.answers
    requires t.full == s.full + [x] && t.written == s.written + [x]
    ensures InOrder(t)
  {
    hide Flatten, Pulled;
    FlattenOne(s.written, x);
    FlattenOne(s.full, x);
  }

  lemma RefillKeepsOrder(s: State, want: nat)
    requires InOrder(s) && s.consumed == |s.consuming|
    ensures InOrder(Refilled(s, want))
  {
    hide Flatten, Pulled;
    assert s.consuming[s.consumed..] == [];
    PulledOne(s.answers, Eof);
    if s.full != [] {
      FlattenFirst(s.full);
    }
  }

  lemma CopyKeepsOrder(s: State, want: nat, n: nat, t: State)
    requires InOrder(s) && n <= |s.consuming| - s.consumed
    requires t.full == s.full && t.written == s.written && t.consuming == s.consuming && t.consumed == s.consumed + n
    requires t.answers == s.answers + [Got(want, s.consuming[s.consumed..s.consumed + n])]
    ensures InOrder(t)
  {
    hide Flatten, Pulled;
    var out := s.consuming[s.consumed..s.consumed + n];
    PulledOne(s.answers, Got(want, out));
    assert s.consuming[s.consumed..] == out + s.consuming[s.consumed + n..];
  }

  lemma StepKeepsOrder(s: State, step: Step)
    requires Inv(s) && Next(s, step).Some?
    ensures InOrder(Next(s, step).value)
  {
    hide InOrder, GoodReads, NoLostWakeup, Bounded, Refilled;
    var t := Next(s, step).value;
    match step
    case TryPush =>
      if s.quit || |s.full| >= QUEUED {
        OrderIgnores(s, t);
      } else {
        PushKeepsOrder(s, s.writer.x, t);
      }
    case Refill => RefillKeepsOrder(s, s.reader.want);
    case Copy =>
      CopyKeepsOrder(s, s.reader.want, Min(s.reader.want, |s.consuming| - s.consumed), t);
    case _ => OrderIgnores(s, t);
  }

  lemma StepKeepsReads(s: State, step: Step)
    requires Inv(s) && Next(s, step).Some?
    ensures GoodReads(Next(s, step).value)
  {
    hide InOrder, NoLostWakeup, Bounded;
    if s.reader.Copies? && s.answers != [] {
      assert !s.answers[|s.answers| - 1].Eof?;
    }
  }

  lemma StepKeepsRest(s: State, step: Step)
    requires Inv(s) && Next(s, step).Some?
    ensures NoLostWakeup(Next(s, step).value) && Bounded(Next(s, step).value) && Stages(Next(s, step).value)
  {
    hide Flatten, Pulled, GoodReads;
  }

  lemma StepKeepsInv(s: State, step: Step)
    requires Inv(s) && Next(s, step).Some?
    ensures Inv(Next(s, step).value)
  {
    StepKeepsOrder(s, step);
    StepKeepsReads(s, step);
    StepKeepsRest(s, step);
  }

  /** The state after a whole run, or None when some step of it cannot happen. */
  function After(s: State, steps: seq<Step>): Option<State>
    decreases |steps|
  {
    if steps == [] then Some(s) else
    match Next(s, steps[0])
    case Some(t) => After(t, steps[1..])
    case None => None
  }

  lemma {:induction false} RunKeepsInv(s: State, steps: seq<Step>)
    requires Inv(s) && After(s, steps).Some?
    ensures Inv(After(s, steps).value)
    decreases |steps|
  {
    hide Inv, Next;
    if steps != [] {
      StepKeepsInv(s, steps[0]);
      RunKeepsInv(Next(s, steps[0]).value, steps[1..]);
    }
  }

  /** Every reachable state of every run. */
  lemma Reachable(steps: seq<Step>)
    requires After(Init(), steps).Some?
    ensures Inv(After(Init(), steps).value)
  {
    RunKeepsInv(Init(), steps);
  }

  /** Every read gets what it asks for or less, in order and without a gap: the bytes
      delivered so far are a prefix of the bytes written, and at end of file all of
      them. */
  lemma ChannelIsFifo(steps: seq<Step>, s: State)
    requires After(Init(), steps) == Some(s)
    ensures Pulled(s.answers) <= Flatten(s.written)
    ensures (exists i :: 0 <= i < |s.answers| && s.answers[i].Eof?) ==> Pulled(s.answers) == Flatten(s.written) && s.closed
  {
    hide After, NoLostWakeup, Bounded, Stages, Pulled;
    Reachable(steps);
    assert Flatten(s.written)[..|Pulled(s.answers)|] == Pulled(s.answers);
  }

  /** The reader's callback has thrown. */
  predicate Threw(steps: seq<Step>) {
    exists k :: 0 <= k < |steps| && steps[k] == Return(false)
  }

  /** The callback's failure, from its throw until stop has taken it. */
  predicate Recorded(s: State, threw: bool) {
    (if s.writer.Done? then s.writer.rethrown == threw && !s.failure else s.failure == threw) &&
    (s.reader.Quits? || s.reader.NotifiesQuit? || s.reader.Exited? || !threw)
  }

  lemma StepRecords(s: State, step: Step, threw: bool)
    requires Inv(s) && Recorded(s, threw) && Next(s, step).Some?
    ensures Recorded(Next(s, step).value, threw || step == Return(false))
  {
    hide InOrder, GoodReads, NoLostWakeup, Bounded;
  }

  lemma {:induction false} RunRecords(s: State, steps: seq<Step>, threw: bool)
    requires Inv(s) && Recorded(s, threw) && After(s, steps).Some?
    ensures Recorded(After(s, steps).value, threw || Threw(steps))
    decreases |steps|
  {
    hide Inv, Next, Recorded;
    if steps != [] {
      StepKeepsInv(s, steps[0]);
      StepRecords(s, steps[0], threw);
      RunRecords(Next(s, steps[0]).value, steps[1..], threw || steps[0] == Return(false));
      ThrewFirst(steps);
    }
  }

  lemma ThrewFirst(steps: seq<Step>)
    requires steps != []
    ensures Threw(steps) <==> steps[0] == Return(false) || Threw(steps[1..])
  {
    var rest := steps[1..];
    assert forall k :: 0 <= k < |rest| ==> rest[k] == steps[k + 1];
    assert forall k :: 0 < k < |steps| ==> steps[k] == rest[k - 1];
  }

  /** When stop is over it has raised a failure exactly if the reader's callback threw, and
      will not raise it again. */
  lemma RethrownExactly(steps: seq<Step>, s: State)
    requires After(Init(), steps) == Some(s) && s.writer.Done?
    ensures s.writer.rethrown <==> exists k :: 0 <= k < |steps| && steps[k] == Return(false)
    ensures !s.failure
  {
    hide After, Inv;
    InitIsSound();
    RunRecords(Init(), steps, false);
  }

  lemma InitIsSound()
    ensures Inv(Init()) && Recorded(Init(), false)
  {
  }

  // ------------------------------------------------- what was written, and buffers

  /** The chunks the writer's caller hands over in a run. */
  function Writes(steps: seq<Step>): seq<chunk> {
    if steps == [] then [] else (if steps[0].Write? then [steps[0].x] else []) + Writes(steps[1..])
  }

  function Offered(w: Writer): seq<chunk> {
    if w.Wants? || w.Sleeps? then [w.x] else []
  }

  /** Everything handed over is in the ring's history or about to be, but for the last
      chunk where the writer found the reader gone. */
  predicate TakenUp(s: State, writes: seq<chunk>) {
    s.written + Offered(s.writer) == writes ||
    (s.quit && writes != [] && s.written == writes[..|writes| - 1] &&
     (s.writer.SeesQuit? || s.writer.NotifiesClosed? || s.writer.Joining? || s.writer.Done?))
  }

  lemma StepTakesUp(s: State, step: Step, writes: seq<chunk>)
    requires Inv(s) && TakenUp(s, writes) && Next(s, step).Some?
    ensures TakenUp(Next(s, step).value, writes + if step.Write? then [step.x] else [])
  {
    hide InOrder, GoodReads, NoLostWakeup, Bounded;
  }

  lemma {:induction false} RunTakesUp(s: State, steps: seq<Step>, writes: seq<chunk>)
    requires Inv(s) && TakenUp(s, writes) && After(s, steps).Some?
    ensures TakenUp(After(s, steps).value, writes + Writes(steps))
    decreases |steps|
  {
    hide Inv, Next, TakenUp;
    if steps != [] {
      var more := writes + if steps[0].Write? then [steps[0].x] else [];
      StepKeepsInv(s, steps[0]);
      StepTakesUp(s, steps[0], writes);
      RunTakesUp(Next(s, steps[0]).value, steps[1..], more);
      assert more + Writes(steps[1..]) == writes + Writes(steps);
    } else {
      assert writes + [] == writes;
    }
  }

  /** A reader that has reached end of file has been given exactly the bytes the writer's
      caller wrote, and before that a prefix of them. */
  lemma ReadsWhatWasWritten(steps: seq<Step>, s: State)
    requires After(Init(), steps) == Some(s)
    ensures s.written <= Writes(steps)
    ensures !s.quit && (exists i :: 0 <= i < |s.answers| && s.answers[i].Eof?) ==> Pulled(s.answers) == Flatten(Writes(steps))
  {
    hide After, InOrder, NoLostWakeup, Bounded, Pulled, Flatten;
    Reachable(steps);
    ChannelIsFifo(steps, s);
    InitIsSound();
    RunTakesUp(Init(), steps, []);
    assert [] + Writes(steps) == Writes(steps) && s.written + [] == s.written;
  }

  /** Whoever waits may wake up for no reason and then looks again. */
  lemma SleepersMayWake(s: State)
    ensures s.writer.Sleeps? ==> Next(s, WriterWakes) == Some(s.(writer := Wants(s.writer.x)))
    ensures s.reader.Rests? ==> Next(s, ReaderWakes) == Some(s.(reader := Refills(s.reader.want)))
  {
  }

  function ReadsMade(steps: seq<Step>): nat {
    if steps == [] then 0 else (if steps[0].Read? then 1 else 0) + ReadsMade(steps[1..])
  }

  function Pending(r: Reader): nat {
    if r.Refills? || r.Rests? || r.Copies? then 1 else 0
  }

  /** Every read the callback makes gets one answer, and nothing else does. */
  lemma {:induction false} EachReadIsAnswered(s: State, steps: seq<Step>)
    requires Inv(s) && After(s, steps).Some?
    ensures var t := After(s, steps).value;
      |t.answers| + Pending(t.reader) == |s.answers| + Pending(s.reader) + ReadsMade(steps)
    decreases |steps|
  {
    hide Inv, Next, Pending;
    if steps != [] {
      StepKeepsInv(s, steps[0]);
      StepAnswers(s, steps[0]);
      EachReadIsAnswered(Next(s, steps[0]).value, steps[1..]);
    }
  }

  lemma StepAnswers(s: State, step: Step)
    requires Inv(s) && Next(s, step).Some?
    ensures var t := Next(s, step).value;
      |t.answers| + Pending(t.reader) == |s.answers| + Pending(s.reader) + if step.Read? then 1 else 0
  {
    hide InOrder, GoodReads, NoLostWakeup, Bounded;
  }

  /** Spare, queued and being read. */
  function Buffers(s: State): nat {
    s.free + |s.full| + if s.consuming != [] then 1 else 0
  }

  /** Pushes that found no spare to take the place of the buffer they carried off. */
  function Made(s: State, steps: seq<Step>): nat
    decreases |steps|
  {
    if steps == [] || Next(s, steps[0]).None? then 0
    else (if Unspared(s, steps[0]) then 1 else 0) + Made(Next(s, steps[0]).value, steps[1..])
  }

  predicate Unspared(s: State, step: Step) {
    step.TryPush? && s.writer.Wants? && !s.quit && |s.full| < QUEUED && s.free == 0
  }

  lemma StepKeepsBuffers(s: State, step: Step)
    requires Next(s, step).Some?
    ensures Buffers(Next(s, step).value) == Buffers(s) + if Unspared(s, step) then 1 else 0
  {
  }

  /** No buffer is ever lost: they come into being only where a push finds no spare. */
  lemma {:induction false} BuffersAccounted(s: State, steps: seq<Step>)
    requires After(s, steps).Some?
    ensures Buffers(After(s, steps).value) == Buffers(s) + Made(s, steps)
    decreases |steps|
  {
    hide Next, Buffers, Unspared;
    if steps != [] {
      StepKeepsBuffers(s, steps[0]);
      BuffersAccounted(Next(s, steps[0]).value, steps[1..]);
    }
  }

  // ----------------------------------------------------------------- progress

  /** Steps the channel takes by itself; when to write, stop, read and return is up to
      the two callers. */
  predicate Own(s: State, step: Step) {
    !step.Write? && !step.Read? && !step.Return? && !step.WriterWakes? && !step.ReaderWakes? &&
    (step.Stop? ==> s.writer.SeesQuit?)
  }

  function Work(s: State): nat {
    2 * |s.full| +
    (match s.writer case Wants(_) => 6 case Sleeps(_) => 5 case Notifies => 3 case SeesQuit => 5
                    case NotifiesClosed => 4 case Joining => 2 case _ => 0) +
    (match s.reader case Refills(_) => 2 case Rests(_) => 1 case Copies(_) => 2 case Quits => 5
                    case NotifiesQuit => 3 case _ => 0)
  }

  lemma OwnStepsTerminate(s: State, step: Step)
    requires Own(s, step) && Next(s, step).Some?
    ensures Work(Next(s, step).value) < Work(s)
  {
  }

  ghost predicate Stuck(s: State) {
    forall step :: Own(s, step) ==> Next(s, step).None?
  }

  /** Nothing deadlocks: a writer is held up only by a reader that is in its callback,
      and a reader only by a writer that is not writing, with everything read. */
  lemma HeldUpOnlyByTheOtherCaller(s: State)
    requires Inv(s)
    ensures Stuck(s) <==>
              (s.writer.Idle? && (s.reader.NotStarted? || s.reader.Busy? || s.reader.Rests? || s.reader.Exited?)) ||
              s.writer.Done? ||
              ((s.writer.Sleeps? || s.writer.Joining?) && s.reader.Busy?)
    ensures Stuck(s) && s.reader.Rests? ==> Pulled(s.answers) == Flatten(s.written)
  {
    hide GoodReads, Flatten, Pulled;
    assert Own(s, TryPush) && Own(s, NotifyFull) && Own(s, NotifyClosed) && Own(s, Join);
    assert Own(s, Refill) && Own(s, Copy) && Own(s, Quit) && Own(s, NotifyQuit);
    assert s.writer.SeesQuit? ==> Own(s, Stop);
    if !Stuck(s) {
      var step :| Own(s, step) && Next(s, step).Some?;
    } else if s.reader.Rests? {
      NothingInRing();
      assert s.full == [];
    }
  }

  lemma NothingInRing()
    ensures Flatten([]) == []
  {
  }

  // --------------------------------------------------------- the channel itself

  /** One method for each stretch of code under the mutex and each action outside it;
      the ghost fields say where the threads are and what happened so far. */
  class SourceToSink {
    var full: seq<chunk>
    var free: nat
    var consuming: bytes
    var consumed: nat
    var closed: bool
    var quit: bool
    var failure: bool
    ghost var writer: Writer
    ghost var reader: Reader
    ghost var written: seq<chunk>
    ghost var answers: seq<Answer>

    ghost function Now(): State
      reads this
    {
      State(full, free, consuming, consumed, closed, quit, failure, writer, reader, written, answers)
    }

    constructor ()
      ensures Now() == Init()
    {
      full, free, consuming, consumed, closed, quit, failure := [], 0, [], 0, false, false, false;
      writer, reader, written, answers := Writer.Idle, NotStarted, [], [];
    }

    /** writeUnbuffered, up to the unlock: false when it went to sleep or saw `quit`. */
    method TryPush(x: chunk) returns (done: bool, wake: bool)
      requires writer == Wants(x)
      modifies this
      ensures Some(Now()) == Next(old(Now()), Step.TryPush)
      ensures done == (writer.Idle? || writer.Notifies?) && wake == writer.Notifies?
    {
      if quit {
        writer := SeesQuit;
        return false, false;
      }
      if |full| >= QUEUED {
        writer := Sleeps(x);
        return false, false;
      }
      full := full + [x];
      written := written + [x];
      if free > 0 {
        free := free - 1;
      }
      wake := |full| == 1;
      writer := if wake then Notifies else Writer.Idle;
      done := true;
    }

    method NotifyFull()
      requires writer.Notifies?
      modifies this
      ensures Some(Now()) == Next(old(Now()), Step.NotifyFull)
    {
      writer, reader := Writer.Idle, WakeReader(reader);
    }

    /** stop, under the mutex; nothing to do when no reader was ever started. */
    method Stop(joinable: bool)
      requires writer.Idle? || writer.SeesQuit?
      requires joinable == !reader.NotStarted?
      modifies this
      ensures Some(Now()) == Next(old(Now()), Step.Stop)
    {
      if !joinable {
        writer := Done(false);
      } else {
        closed := true;
        writer := NotifiesClosed;
      }
    }

    /** The end of stop: the reader has exited, and its failure is raised once. */
    method Join() returns (rethrown: bool)
      requires writer.Joining? && reader.Exited?
      modifies this
      ensures Some(Now()) == Next(old(Now()), Step.Join) && writer == Done(rethrown)
    {
      rethrown := failure;
      failure := false;
      writer := Done(rethrown);
    }

    /** pull with a spent buffer, under the mutex: None when it went to sleep, false at
        end of file, true with a chunk to read. */
    method Refill(want: nat) returns (some: Option<bool>)
      requires reader == Refills(want)
      modifies this
      ensures Some(Now()) == Next(old(Now()), Step.Refill)
      ensures some == if reader.Rests? then None else Some(reader.Copies?)
    {
      if consuming != [] {
        consuming := [];
        free := free + 1;
      }
      consumed := 0;
      if full == [] && !closed {
        reader := Rests(want);
        return None;
      }
      if full == [] {
        reader, answers := Busy, answers + [Eof];
        return Some(false);
      }
      consuming := full[0];
      full := full[1..];
      if |full| == QUEUED - 1 {
        writer := WakeWriter(writer);
      }
      reader := Copies(want);
      return Some(true);
    }

    /** The end of pull, outside the mutex. */
    method Copy(want: nat) returns (out: bytes)
      requires reader == Copies(want) && consumed <= |consuming|
      modifies this
      ensures Some(Now()) == Next(old(Now()), Step.Copy)
      ensures answers == old(answers) + [Got(want, out)]
    {
      var n := Min(want, |consuming| - consumed);
      out := consuming[consumed..consumed + n];
      consumed := consumed + n;
      reader, answers := Busy, answers + [Got(want, out)];
    }

    /** The reader's thread, its callback over: what was thrown is kept for stop. */
    method Return(threw: bool)
      requires reader.Busy?
      modifies this
      ensures Some(Now()) == Next(old(Now()), Step.Return(!threw))
      ensures failure == threw
    {
      failure := threw;
      reader := Quits;
    }

    /** The reader's thread after its callback, and its last notify. */
    method Finish()
      requires reader.Quits?
      modifies this
      ensures Some(Now()) == Next(old(Now()), Quit)
    {
      quit := true;
      reader := NotifiesQuit;
    }

    method NotifyQuit()
      requires reader.NotifiesQuit?
      modifies this
      ensures Some(Now()) == Next(old(Now()), Step.NotifyQuit)
    {
      reader, writer := Exited, WakeWriter(writer);
    }
  }
}
