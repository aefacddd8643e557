/** The bounded queue between an import and its hashing threads: one producer, one
    worker, spent buffers handed back, and a condition variable notified only when the
    queue stops being empty or stops being full.

    A state says where both threads are. Between two steps anything can happen: a step
    is either one stretch of code under the mutex or one action outside it. A notify
    that finds nobody asleep is lost, and a sleeper may wake up for no reason. */
module HashRing {
  import opened Results
  import opened Wire
  import opened NarStream
  import opened Hashes
  import opened Nar
  import Capture

  const MAX_QUEUED: nat := 64

  /** Idle: outside `push`. Wants: at the wait's predicate, needing the mutex. Notifies:
      past the mutex with `wake` set. */
  datatype Producer<T> =
    | Idle
    | Wants(x: T)
    | Sleeps(x: T)
    | Notifies
    | NotifiesClosed
    | Joining
    | Joined

  datatype Worker<T> =
    | Looks
    | Rests
    | Releases(y: T)
    | Handles(y: T)
    | Recycles(y: T)
    | Exited

  /** `pushed` and `handled` are the history: everything that entered the queue and
      everything the worker is done with. */
  datatype State<S, T> = State(
    queue: seq<T>, free: nat, closed: bool, failed: bool, inner: S,
    producer: Producer<T>, worker: Worker<T>, pushed: seq<T>, handled: seq<T>)

  datatype Step<T> =
    | Offer(x: T) | TryPush | NotifyWorker
    | Close | NotifyClosed | Join
    | TryPop | NotifyProducer | Handle | Recycle
    | ProducerWakes | WorkerWakes

  /** What the worker does with one element: None when it throws. */
  type Handler<!S, !T> = (S, T) -> Option<S>

  function Init<S, T>(s0: S): State<S, T> {
    State([], 0, false, false, s0, Idle, Looks, [], [])
  }

  function WakeProducer<T>(p: Producer<T>): Producer<T> {
    if p.Sleeps? then Wants(p.x) else p
  }

  function WakeWorker<T>(w: Worker<T>): Worker<T> {
    if w.Rests? then Looks else w
  }

  /** The state after a step, or None where the step cannot happen. `pooled` says which
      elements own a buffer worth handing back. */
  function Next<S, T>(s: State<S, T>, step: Step<T>, f: Handler<S, T>, pooled: T -> bool): Option<State<S, T>> {
    match step
    case Offer(x) => if s.producer.Idle? then Some(s.(producer := Wants(x))) else None
    case TryPush =>
      if !s.producer.Wants? then None
      else if |s.queue| >= MAX_QUEUED then Some(s.(producer := Sleeps(s.producer.x)))
      else Some(s.(queue := s.queue + [s.producer.x], pushed := s.pushed + [s.producer.x],
                   free := if s.free > 0 then s.free - 1 else 0,
                   producer := if |s.queue| == 0 then Notifies else Idle))
    case NotifyWorker =>
      if !s.producer.Notifies? then None else Some(s.(producer := Idle, worker := WakeWorker(s.worker)))
    case Close => if !s.producer.Idle? then None else Some(s.(closed := true, producer := NotifiesClosed))
    case NotifyClosed =>
      if !s.producer.NotifiesClosed? then None else Some(s.(producer := Joining, worker := WakeWorker(s.worker)))
    case Join => if s.producer.Joining? && s.worker.Exited? then Some(s.(producer := Joined)) else None
    case TryPop =>
      if !s.worker.Looks? then None
      else if |s.queue| == 0 then Some(s.(worker := if s.closed then Exited else Rests))
      else Some(s.(queue := s.queue[1..],
                   worker := if |s.queue| == MAX_QUEUED then Releases(s.queue[0]) else Handles(s.queue[0])))
    case NotifyProducer =>
      if !s.worker.Releases? then None
      else Some(s.(producer := WakeProducer(s.producer), worker := Handles(s.worker.y)))
    case Handle =>
      if !s.worker.Handles? then None else
      var r := if s.failed then None else f(s.inner, s.worker.y);
      Some(s.(inner := if r.Some? then r.value else s.inner, failed := r.None?,
              handled := s.handled + [s.worker.y], worker := Recycles(s.worker.y)))
    case Recycle =>
      if !s.worker.Recycles? then None
      else Some(s.(free := if pooled(s.worker.y) then s.free + 1 else s.free, worker := Looks))
    case ProducerWakes => if s.producer.Sleeps? then Some(s.(producer := Wants(s.producer.x))) else None
    case WorkerWakes => if s.worker.Rests? then Some(s.(worker := Looks)) else None
  }

  // --------------------------------------------------------------- invariants

  function InHand<T>(w: Worker<T>): seq<T> {
    if w.Releases? || w.Handles? then [w.y] else []
  }

  function Fold<S, T>(s0: S, xs: seq<T>, f: Handler<S, T>): Option<S> {
    if xs == [] then Some(s0) else
    match Fold(s0, xs[..|xs| - 1], f)
    case Some(s) => f(s, xs[|xs| - 1])
    case None => None
  }

  /** First in, first out, each once; the inner state is what the elements handled so
      far make of it, and a failure is never forgotten. */
  ghost predicate InOrder<S, T>(s: State<S, T>, s0: S, f: Handler<S, T>) {
    s.pushed == s.handled + InHand(s.worker) + s.queue &&
    Fold(s0, s.handled, f) == if s.failed then None else Some(s.inner)
  }

  /** A sleeper whose condition holds always has a notify on its way. */
  predicate NoLostWakeup<S, T>(s: State<S, T>) {
    (s.worker.Rests? && (|s.queue| > 0 || s.closed) ==> s.producer.Notifies? || s.producer.NotifiesClosed?) &&
    (s.producer.Sleeps? && |s.queue| < MAX_QUEUED ==> s.worker.Releases?)
  }

  /** No more buffers exist than the queue and the worker's hand can hold. */
  predicate Bounded<S, T>(s: State<S, T>) {
    |s.queue| <= MAX_QUEUED &&
    s.free + |s.queue| + (if s.worker.Looks? || s.worker.Rests? || s.worker.Exited? then 0 else 1) <= MAX_QUEUED + 1
  }

  predicate ClosedLast<S, T>(s: State<S, T>) {
    (s.closed <==> s.producer.NotifiesClosed? || s.producer.Joining? || s.producer.Joined?) &&
    (s.producer.Joined? ==> s.worker.Exited?) &&
    (s.worker.Exited? ==> s.closed && |s.queue| == 0)
  }

  ghost predicate Inv<S, T>(s: State<S, T>, s0: S, f: Handler<S, T>) {
    InOrder(s, s0, f) && NoLostWakeup(s) && Bounded(s) && ClosedLast(s)
  }

  lemma StepKeepsOrder<S, T>(s: State<S, T>, step: Step<T>, s0: S, f: Handler<S, T>, pooled: T -> bool)
    requires InOrder(s, s0, f) && Next(s, step, f, pooled).Some?
    ensures InOrder(Next(s, step, f, pooled).value, s0, f)
  {
    hide Fold;
    if step.Handle? {
      FoldOne(s0, s.handled, s.worker.y, f);
      assert s.handled + [s.worker.y] + s.queue == s.handled + [s.worker.y] + [] + s.queue;
    } else if step.TryPop? && |s.queue| > 0 {
      Regroup(s.handled, s.queue[0], s.queue[1..], s.queue);
    } else if step.TryPush? {
      Grow(s.handled + InHand(s.worker), s.queue, s.producer.x);
    }
  }

  lemma FoldOne<S, T>(s0: S, xs: seq<T>, x: T, f: Handler<S, T>)
    ensures Fold(s0, xs + [x], f) == match Fold(s0, xs, f) { case Some(s) => f(s, x) case None => None }
  {
    assert (xs + [x])[..|xs|] == xs;
  }

  lemma Regroup<T>(a: seq<T>, x: T, b: seq<T>, q: seq<T>)
    requires |q| > 0 && x == q[0] && b == q[1..]
    ensures a + [] + q == a + [x] + b
  {
  }

  lemma Grow<T>(a: seq<T>, b: seq<T>, x: T)
    ensures a + b + [x] == a + (b + [x])
  {
  }

  lemma StepKeepsInv<S, T>(s: State<S, T>, step: Step<T>, s0: S, f: Handler<S, T>, pooled: T -> bool)
    requires Inv(s, s0, f) && Next(s, step, f, pooled).Some?
    ensures Inv(Next(s, step, f, pooled).value, s0, f)
  {
    StepKeepsOrder(s, step, s0, f, pooled);
  }

  /** The state after a whole run, or None when some step of it cannot happen. */
  function After<S, T>(s: State<S, T>, steps: seq<Step<T>>, f: Handler<S, T>, pooled: T -> bool): Option<State<S, T>>
    decreases |steps|
  {
    if steps == [] then Some(s) else
    match Next(s, steps[0], f, pooled)
    case Some(t) => After(t, steps[1..], f, pooled)
    case None => None
  }

  lemma {:induction false} RunKeepsInv<S, T>(s: State<S, T>, steps: seq<Step<T>>, s0: S, f: Handler<S, T>, pooled: T -> bool)
    requires Inv(s, s0, f) && After(s, steps, f, pooled).Some?
    ensures Inv(After(s, steps, f, pooled).value, s0, f)
    decreases |steps|
  {
    if steps != [] {
      StepKeepsInv(s, steps[0], s0, f, pooled);
      RunKeepsInv(Next(s, steps[0], f, pooled).value, steps[1..], s0, f, pooled);
    }
  }

  /** Every reachable state of every run. */
  lemma Reachable<S, T>(s0: S, steps: seq<Step<T>>, f: Handler<S, T>, pooled: T -> bool)
    requires After(Init(s0), steps, f, pooled).Some?
    ensures Inv(After(Init(s0), steps, f, pooled).value, s0, f)
  {
    RunKeepsInv(Init(s0), steps, s0, f, pooled);
  }

  // ----------------------------------------------------------------- progress

  /** Steps the two threads take by themselves; the others are up to the caller and to
      the scheduler's whims. */
  predicate Own<T>(step: Step<T>) {
    !step.Offer? && !step.Close? && !step.ProducerWakes? && !step.WorkerWakes?
  }

  function Work<S, T>(s: State<S, T>): nat {
    8 * |s.queue| +
    (match s.producer case Wants(_) => 12 case Sleeps(_) => 11 case Notifies => 3
                      case NotifiesClosed => 3 case Joining => 1 case _ => 0) +
    (match s.worker case Releases(_) => 7 case Handles(_) => 4 case Recycles(_) => 3
                    case Looks => 1 case _ => 0)
  }

  lemma OwnStepsTerminate<S, T>(s: State<S, T>, step: Step<T>, f: Handler<S, T>, pooled: T -> bool)
    requires Own(step) && Next(s, step, f, pooled).Some?
    ensures Work(Next(s, step, f, pooled).value) < Work(s)
  {
  }

  ghost predicate Stuck<S, T(!new)>(s: State<S, T>, f: Handler<S, T>, pooled: T -> bool) {
    forall step: Step<T> :: Own(step) ==> Next(s, step, f, pooled).None?
  }

  /** Nothing deadlocks: the threads stop by themselves only when no push is under way
      and everything pushed has been handled. With OwnStepsTerminate, every push and
      every close completes without relying on a spurious wake-up. */
  lemma StopsOnlyWhenDone<S, T(!new)>(s: State<S, T>, s0: S, f: Handler<S, T>, pooled: T -> bool)
    requires Inv(s, s0, f)
    ensures Stuck(s, f, pooled) <==>
            (s.producer.Idle? && s.worker.Rests? && |s.queue| == 0) || s.producer.Joined?
    ensures Stuck(s, f, pooled) ==> s.handled == s.pushed
  {
    assert Own<T>(TryPush) && Own<T>(NotifyWorker) && Own<T>(NotifyClosed) && Own<T>(Join);
    assert Own<T>(TryPop) && Own<T>(NotifyProducer) && Own<T>(Handle) && Own<T>(Recycle);
    if !Stuck(s, f, pooled) {
      var step :| Own(step) && Next(s, step, f, pooled).Some?;
    }
  }

  /** Once the producer has joined the worker, the result is what handling everything
      pushed, in order, gives; or the failure that handling it raises. */
  lemma JoinedMeansAllHandled<S, T>(s: State<S, T>, s0: S, f: Handler<S, T>)
    requires Inv(s, s0, f) && s.producer.Joined?
    ensures s.handled == s.pushed
    ensures Fold(s0, s.pushed, f) == if s.failed then None else Some(s.inner)
  {
  }

  /** Whoever waits may wake up for no reason and then looks again. */
  lemma SleepersMayWake<S, T>(s: State<S, T>, f: Handler<S, T>, pooled: T -> bool)
    ensures s.producer.Sleeps? ==> Next(s, ProducerWakes, f, pooled) == Some(s.(producer := Wants(s.producer.x)))
    ensures s.worker.Rests? ==> Next(s, WorkerWakes, f, pooled) == Some(s.(worker := Looks))
  {
  }

  // ------------------------------------------------------------------ buffers

  function Carries<T>(x: T, pooled: T -> bool): nat {
    if pooled(x) then 1 else 0
  }

  /** Buffers in the queue. */
  function Carried<T>(xs: seq<T>, pooled: T -> bool): nat {
    if xs == [] then 0 else Carried(xs[..|xs| - 1], pooled) + Carries(xs[|xs| - 1], pooled)
  }

  /** All buffers there are beside the producer's own: spare, queued, and in the worker's
      hand until it has handed them back. */
  function Buffers<S, T>(s: State<S, T>, pooled: T -> bool): nat {
    s.free + Carried(s.queue, pooled) +
    if s.worker.Releases? || s.worker.Handles? || s.worker.Recycles? then Carries(s.worker.y, pooled) else 0
  }

  predicate Pushes<S, T>(s: State<S, T>, step: Step<T>) {
    step.TryPush? && s.producer.Wants? && |s.queue| < MAX_QUEUED
  }

  /** Pushes that carry the producer's buffer off and find no spare to take its place. */
  function Made<S, T>(s: State<S, T>, steps: seq<Step<T>>, f: Handler<S, T>, pooled: T -> bool): nat
    decreases |steps|
  {
    if steps == [] || Next(s, steps[0], f, pooled).None? then 0
    else
      (if Pushes(s, steps[0]) && pooled(s.producer.x) && s.free == 0 then 1 else 0) +
      Made(Next(s, steps[0], f, pooled).value, steps[1..], f, pooled)
  }

  /** Pushes that carry no buffer off and replace the producer's all the same. */
  function Lost<S, T>(s: State<S, T>, steps: seq<Step<T>>, f: Handler<S, T>, pooled: T -> bool): nat
    decreases |steps|
  {
    if steps == [] || Next(s, steps[0], f, pooled).None? then 0
    else
      (if Pushes(s, steps[0]) && !pooled(s.producer.x) && s.free > 0 then 1 else 0) +
      Lost(Next(s, steps[0], f, pooled).value, steps[1..], f, pooled)
  }

  lemma {:induction false} CarriedFirst<T>(xs: seq<T>, pooled: T -> bool)
    requires xs != []
    ensures Carried(xs, pooled) == Carries(xs[0], pooled) + Carried(xs[1..], pooled)
  {
    if |xs| > 1 {
      var front := xs[..|xs| - 1];
      CarriedFirst(front, pooled);
      assert xs[1..][..|xs| - 2] == front[1..];
    }
  }

  lemma StepKeepsBuffers<S, T>(s: State<S, T>, step: Step<T>, f: Handler<S, T>, pooled: T -> bool)
    requires Next(s, step, f, pooled).Some?
    ensures var t := Next(s, step, f, pooled).value;
      Buffers(t, pooled) + (if Pushes(s, step) && !pooled(s.producer.x) && s.free > 0 then 1 else 0) ==
      Buffers(s, pooled) + (if Pushes(s, step) && pooled(s.producer.x) && s.free == 0 then 1 else 0)
  {
    hide Carried;
    if Pushes(s, step) {
      CarriedLast(s.queue, s.producer.x, pooled);
    } else if step.TryPop? && s.queue != [] {
      CarriedFirst(s.queue, pooled);
    }
  }

  lemma CarriedLast<T>(xs: seq<T>, x: T, pooled: T -> bool)
    ensures Carried(xs + [x], pooled) == Carried(xs, pooled) + Carries(x, pooled)
  {
    assert (xs + [x])[..|xs|] == xs;
  }

  /** In any run buffers come into being only where a push finds no spare, and are lost only
      where a push that carries none away finds one. */
  lemma {:induction false} BuffersAccounted<S, T>(s: State<S, T>, steps: seq<Step<T>>, f: Handler<S, T>, pooled: T -> bool)
    requires After(s, steps, f, pooled).Some?
    ensures Buffers(After(s, steps, f, pooled).value, pooled) + Lost(s, steps, f, pooled) ==
            Buffers(s, pooled) + Made(s, steps, f, pooled)
    decreases |steps|
  {
    hide Next, Buffers;
    if steps != [] {
      StepKeepsBuffers(s, steps[0], f, pooled);
      BuffersAccounted(Next(s, steps[0], f, pooled).value, steps[1..], f, pooled);
    }
  }

  /** Where every element carries one, as the chunks of a hashed stream do, none is lost. */
  lemma {:induction false} ChunksLoseNoBuffer<S, T>(s: State<S, T>, steps: seq<Step<T>>, f: Handler<S, T>, pooled: T -> bool)
    requires After(s, steps, f, pooled).Some? && forall x :: pooled(x)
    ensures Lost(s, steps, f, pooled) == 0
    decreases |steps|
  {
    hide Next;
    if steps != [] {
      ChunksLoseNoBuffer(Next(s, steps[0], f, pooled).value, steps[1..], f, pooled);
    }
  }

  // ------------------------------------------------------- what was handed over

  function Offered<T>(p: Producer<T>): seq<T> {
    if p.Wants? || p.Sleeps? then [p.x] else []
  }

  /** What the producer's caller hands over in a run. */
  function Offers<T>(steps: seq<Step<T>>): seq<T> {
    if steps == [] then [] else (if steps[0].Offer? then [steps[0].x] else []) + Offers(steps[1..])
  }

  /** In any run what has been pushed, and what is about to be, is what was handed over. */
  lemma {:induction false} PushesExactly<S, T>(s: State<S, T>, steps: seq<Step<T>>, f: Handler<S, T>, pooled: T -> bool)
    requires After(s, steps, f, pooled).Some?
    ensures var t := After(s, steps, f, pooled).value;
      t.pushed + Offered(t.producer) == s.pushed + Offered(s.producer) + Offers(steps)
    decreases |steps|
  {
    hide Next, Offered;
    if steps != [] {
      StepPushes(s, steps[0], f, pooled);
      PushesExactly(Next(s, steps[0], f, pooled).value, steps[1..], f, pooled);
    }
  }

  lemma StepPushes<S, T>(s: State<S, T>, step: Step<T>, f: Handler<S, T>, pooled: T -> bool)
    requires Next(s, step, f, pooled).Some?
    ensures var t := Next(s, step, f, pooled).value;
      t.pushed + Offered(t.producer) == s.pushed + Offered(s.producer) + if step.Offer? then [step.x] else []
  {
  }

  /** Once joined, the worker has handled everything its caller handed over, in order. */
  lemma JoinedMeansAllOffered<S, T>(s0: S, steps: seq<Step<T>>, s: State<S, T>, f: Handler<S, T>, pooled: T -> bool)
    requires After(Init(s0), steps, f, pooled) == Some(s) && s.producer.Joined?
    ensures Inv(s, s0, f) && s.handled == s.pushed == Offers(steps)
    ensures Fold(s0, Offers(steps), f) == if s.failed then None else Some(s.inner)
  {
    hide After, Fold;
    Reachable(s0, steps, f, pooled);
    JoinedMeansAllHandled(s, s0, f);
    PushesExactly(Init(s0), steps, f, pooled);
  }

  // ----------------------------------------------------------- the queue itself

  /** One method for each stretch of code under the mutex and each action outside it;
      the ghost fields say where the threads are and what happened so far. */
  class Ring<S, T> {
    const f: Handler<S, T>
    const pooled: T -> bool
    var queue: seq<T>
    var free: nat
    var closed: bool
    var failed: bool
    var inner: S
    ghost var producer: Producer<T>
    ghost var worker: Worker<T>
    ghost var pushed: seq<T>
    ghost var handled: seq<T>

    ghost function Now(): State<S, T>
      reads this
    {
      State(queue, free, closed, failed, inner, producer, worker, pushed, handled)
    }

    constructor (s0: S, f: Handler<S, T>, pooled: T -> bool)
      ensures Now() == Init(s0) && this.f == f && this.pooled == pooled
    {
      this.f, this.pooled := f, pooled;
      queue, free, closed, failed, inner := [], 0, false, false, s0;
      producer, worker, pushed, handled := Idle, Looks, [], [];
    }

    /** push, up to the unlock: false when it went to sleep instead. */
    method TryPush(x: T) returns (done: bool, wake: bool)
      requires producer == Wants(x)
      modifies this
      ensures Some(Now()) == Next(old(Now()), Step.TryPush, f, pooled)
      ensures done == !producer.Sleeps? && wake == producer.Notifies?
    {
      if |queue| >= MAX_QUEUED {
        producer := Sleeps(x);
        return false, false;
      }
      queue := queue + [x];
      pushed := pushed + [x];
      if free > 0 {
        free := free - 1;
      }
      wake := |queue| == 1;
      producer := if wake then Notifies else Idle;
      done := true;
    }

    method NotifyWorker()
      requires producer.Notifies?
      modifies this
      ensures Some(Now()) == Next(old(Now()), Step.NotifyWorker, f, pooled)
    {
      producer, worker := Idle, WakeWorker(worker);
    }

    method Close()
      requires producer.Idle?
      modifies this
      ensures Some(Now()) == Next(old(Now()), Step.Close, f, pooled)
    {
      closed := true;
      producer := NotifiesClosed;
    }

    /** The worker's loop up to the unlock: None when it went to sleep or returned. */
    method TryPop() returns (y: Option<T>, wake: bool)
      requires worker.Looks?
      modifies this
      ensures Some(Now()) == Next(old(Now()), Step.TryPop, f, pooled)
      ensures y == (if worker.Handles? || worker.Releases? then Some(worker.y) else None)
      ensures wake == worker.Releases?
    {
      if |queue| == 0 {
        worker := if closed then Exited else Rests;
        return None, false;
      }
      y := Some(queue[0]);
      queue := queue[1..];
      wake := |queue| == MAX_QUEUED - 1;
      worker := if wake then Releases(y.value) else Handles(y.value);
    }

    method NotifyProducer()
      requires worker.Releases?
      modifies this
      ensures Some(Now()) == Next(old(Now()), Step.NotifyProducer, f, pooled)
    {
      producer, worker := WakeProducer(producer), Handles(worker.y);
    }

    /** Outside the mutex; after a failure elements are only drained. */
    method Handle(y: T)
      requires worker == Handles(y)
      modifies this
      ensures Some(Now()) == Next(old(Now()), Step.Handle, f, pooled)
    {
      if !failed {
        var r := f(inner, y);
        if r.Some? {
          inner := r.value;
        } else {
          failed := true;
        }
      }
      handled, worker := handled + [y], Recycles(y);
    }

    method Recycle(y: T)
      requires worker == Recycles(y)
      modifies this
      ensures Some(Now()) == Next(old(Now()), Step.Recycle, f, pooled)
    {
      if pooled(y) {
        free := free + 1;
      }
      worker := Looks;
    }
  }

  // ------------------------------------------------- the two queues of an import

  function Digest(fed: bytes, chunk: bytes): Option<bytes> {
    Some(fed + chunk)
  }

  lemma {:induction false} DigestsConcatenation(chunks: seq<bytes>)
    ensures Fold([], chunks, Digest) == Some(Flatten(chunks))
  {
    if chunks != [] {
      DigestsConcatenation(chunks[..|chunks| - 1]);
    }
  }

  /** AsyncHashSink: whatever the interleaving, `finish` returns the digest of the
      stream and its length, as an unthreaded sink would. */
  lemma StreamHashed(steps: seq<Step<bytes>>, s: State<bytes, bytes>)
    requires After(Init([]), steps, Digest, _ => true) == Some(s) && s.producer.Joined?
    ensures !s.failed && s.inner == Flatten(Offers(steps))
  {
    JoinedMeansAllOffered([], steps, s, Digest, _ => true);
    DigestsConcatenation(Offers(steps));
  }

  function HashEvent(sha: Sha): Handler<Capture.Hashing, Event> {
    (h, e) => Some(Capture.Step(h, e, sha))
  }

  lemma {:induction false} FoldIsRun(h: Capture.Hashing, events: seq<Event>, sha: Sha)
    ensures Fold(h, events, HashEvent(sha)) == Some(Capture.Run(h, events, sha))
  {
    hide Capture.Step;
    if events != [] {
      var n := |events| - 1;
      FoldIsRun(h, events[..n], sha);
      assert events == events[..n] + [events[n]];
      Capture.RunThenOne(h, events[..n], events[n], sha);
    }
  }

  /** AsyncFileHasher: whatever the interleaving, once the worker is joined the map
      holds exactly the digest of each leaf of the tree that was restored. */
  lemma TreeHashed(steps: seq<Step<Event>>, s: State<Capture.Hashing, Event>, ct: ChunkedTree, t: Tree, sha: Sha)
    requires After(Init(Capture.Hashing(map[], None)), steps, HashEvent(sha), (e: Event) => e.Data?) == Some(s)
    requires s.producer.Joined? && Offers(steps) == EventsOf(ct, []) && Splits(ct, t)
    ensures !s.failed && s.inner.files == Capture.Captured(t, [], sha)
  {
    hide Fold, Capture.Run, Capture.Captured, Inv, After;
    var h0 := Capture.Hashing(map[], None);
    JoinedMeansAllOffered(h0, steps, s, HashEvent(sha), (e: Event) => e.Data?);
    FoldIsRun(h0, Offers(steps), sha);
    Capture.RunTree(h0, ct, t, [], sha);
    assert map[] + Capture.Captured(t, [], sha) == Capture.Captured(t, [], sha);
  }
}
