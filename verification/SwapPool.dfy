/** The pool of threads that swap freshly restored files for links into the farm: one
    producer, any number of workers, and totals collected when the pool is drained. */
module SwapPool {
  import opened Results

  const MAX_QUEUED: nat := 64

  datatype Job = Job(link: string, key: string, size: nat)

  datatype Producer =
    | Idle
    | Wants(x: Job)
    | Sleeps(x: Job)
    | Notifies
    | NotifiesClosed
    | Joining
    | Finished

  /** AddsFile and AddsBytes: the swap succeeded and the two counters are added to, one
      after the other. */
  datatype Worker =
    | Looks
    | Rests
    | Releases(y: Job)
    | Swaps(y: Job)
    | AddsFile(y: Job)
    | AddsBytes(y: Job)
    | Exited

  datatype Outcome = Outcome(job: Job, swapped: bool)

  /** `posted`, `taken` and `outcomes` are the history: jobs that entered the queue, jobs
      that left it, and what became of each. */
  datatype State = State(
    jobs: seq<Job>, closed: bool, files: nat, sizes: nat,
    totalFiles: nat, totalSizes: nat,
    producer: Producer, workers: seq<Worker>,
    posted: seq<Job>, taken: seq<Job>, outcomes: seq<Outcome>)

  datatype Step =
    | Post(x: Job) | TryPush | NotifyAll
    | Close | NotifyClosed | Join
    | TryPop(i: nat) | NotifyProducer(i: nat) | Swap(i: nat, ok: bool) | AddFile(i: nat) | AddBytes(i: nat)
    | ProducerWakes | WorkerWakes(i: nat)

  function Init(threads: nat, totalFiles: nat, totalSizes: nat): State {
    State([], false, 0, 0, totalFiles, totalSizes, Idle, seq(threads, _ => Looks), [], [], [])
  }

  function WakeProducer(p: Producer): Producer {
    if p.Sleeps? then Wants(p.x) else p
  }

  function WakeAll(ws: seq<Worker>): (r: seq<Worker>)
    ensures |r| == |ws|
    ensures forall i :: 0 <= i < |ws| ==> r[i] == if ws[i].Rests? then Looks else ws[i]
  {
    seq(|ws|, i requires 0 <= i < |ws| => if ws[i].Rests? then Looks else ws[i])
  }

  predicate AllExited(ws: seq<Worker>) {
    forall i :: 0 <= i < |ws| ==> ws[i].Exited?
  }

  /** A step of worker `i`. */
  function WorkerNext(s: State, i: nat, step: Step): Option<State>
    requires i < |s.workers|
  {
    var w := s.workers[i];
    match (step, w)
    case (TryPop(_), Looks) =>
      if s.jobs == [] then Some(s.(workers := s.workers[i := if s.closed then Exited else Rests]))
      else Some(s.(jobs := s.jobs[1..], taken := s.taken + [s.jobs[0]],
                   workers := s.workers[i := if |s.jobs| == MAX_QUEUED then Releases(s.jobs[0]) else Swaps(s.jobs[0])]))
    case (NotifyProducer(_), Releases(y)) =>
      Some(s.(producer := WakeProducer(s.producer), workers := s.workers[i := Swaps(y)]))
    case (Swap(_, ok), Swaps(y)) =>
      if ok then Some(s.(workers := s.workers[i := AddsFile(y)]))
      else Some(s.(workers := s.workers[i := Looks], outcomes := s.outcomes + [Outcome(y, false)]))
    case (AddFile(_), AddsFile(y)) => Some(s.(files := s.files + 1, workers := s.workers[i := AddsBytes(y)]))
    case (AddBytes(_), AddsBytes(y)) =>
      Some(s.(sizes := s.sizes + y.size, workers := s.workers[i := Looks],
              outcomes := s.outcomes + [Outcome(y, true)]))
    case (WorkerWakes(_), Rests) => Some(s.(workers := s.workers[i := Looks]))
    case _ => None
  }

  /** The state after a step, or None where the step cannot happen. */
  function Next(s: State, step: Step): Option<State> {
    match step
    case Post(x) => if s.producer.Idle? then Some(s.(producer := Wants(x))) else None
    case TryPush =>
      if !s.producer.Wants? then None
      else if |s.jobs| >= MAX_QUEUED then Some(s.(producer := Sleeps(s.producer.x)))
      else Some(s.(jobs := s.jobs + [s.producer.x], posted := s.posted + [s.producer.x],
                   producer := if |s.jobs| + 1 <= |s.workers| then Notifies else Idle))
    case NotifyAll =>
      if !s.producer.Notifies? then None else Some(s.(producer := Idle, workers := WakeAll(s.workers)))
    case Close =>
      if s.producer.Idle? || s.producer.Finished? then Some(s.(closed := true, producer := NotifiesClosed)) else None
    case NotifyClosed =>
      if !s.producer.NotifiesClosed? then None else Some(s.(producer := Joining, workers := WakeAll(s.workers)))
    case Join =>
      if !s.producer.Joining? || !AllExited(s.workers) then None
      else Some(s.(totalFiles := s.totalFiles + s.files, totalSizes := s.totalSizes + s.sizes,
                   files := 0, sizes := 0, producer := Finished))
    case ProducerWakes => if s.producer.Sleeps? then Some(s.(producer := Wants(s.producer.x))) else None
    case TryPop(i) => if i < |s.workers| then WorkerNext(s, i, step) else None
    case NotifyProducer(i) => if i < |s.workers| then WorkerNext(s, i, step) else None
    case Swap(i, _) => if i < |s.workers| then WorkerNext(s, i, step) else None
    case AddFile(i) => if i < |s.workers| then WorkerNext(s, i, step) else None
    case AddBytes(i) => if i < |s.workers| then WorkerNext(s, i, step) else None
    case WorkerWakes(i) => if i < |s.workers| then WorkerNext(s, i, step) else None
  }

  // ------------------------------------------------------ sums over the workers

  function Hand(w: Worker): multiset<Job> {
    if w.Looks? || w.Rests? || w.Exited? then multiset{} else multiset{w.y}
  }

  function Hands(ws: seq<Worker>): multiset<Job> {
    if ws == [] then multiset{} else Hand(ws[0]) + Hands(ws[1..])
  }

  /** Workers that have counted their file and not yet its bytes. */
  function Half(w: Worker): nat {
    if w.AddsBytes? then 1 else 0
  }

  function Halves(ws: seq<Worker>): nat {
    if ws == [] then 0 else Half(ws[0]) + Halves(ws[1..])
  }

  function Rank(w: Worker): nat {
    match w
    case Looks => 1
    case Releases(_) => 7
    case Swaps(_) => 5
    case AddsFile(_) => 4
    case AddsBytes(_) => 3
    case _ => 0
  }

  function Ranks(ws: seq<Worker>): nat {
    if ws == [] then 0 else Rank(ws[0]) + Ranks(ws[1..])
  }

  lemma {:induction false} SumsUpdate(ws: seq<Worker>, i: nat, w: Worker)
    requires i < |ws|
    ensures Hands(ws[i := w]) + Hand(ws[i]) == Hands(ws) + Hand(w)
    ensures Halves(ws[i := w]) + Half(ws[i]) == Halves(ws) + Half(w)
    ensures Ranks(ws[i := w]) + Rank(ws[i]) == Ranks(ws) + Rank(w)
  {
    hide Hand, Half, Rank;
    if i == 0 {
      assert ws[0 := w][1..] == ws[1..];
    } else {
      SumsUpdate(ws[1..], i - 1, w);
      assert ws[i := w][1..] == ws[1..][i - 1 := w];
      Shift(Hand(ws[0]), Hands(ws[1..]), Hand(ws[i]), Hands(ws[1..][i - 1 := w]), Hand(w));
    }
  }

  lemma Shift(h: multiset<Job>, a: multiset<Job>, x: multiset<Job>, b: multiset<Job>, y: multiset<Job>)
    requires b + x == a + y
    ensures h + b + x == h + a + y
  {
    assert h + b + x == h + (b + x) && h + a + y == h + (a + y);
  }

  lemma WakeAllFirst(ws: seq<Worker>)
    requires ws != []
    ensures WakeAll(ws)[0] == if ws[0].Rests? then Looks else ws[0]
    ensures WakeAll(ws)[1..] == WakeAll(ws[1..])
  {
  }

  lemma SumsFirst(ws: seq<Worker>)
    requires ws != []
    ensures Hands(ws) == Hand(ws[0]) + Hands(ws[1..])
    ensures Halves(ws) == Half(ws[0]) + Halves(ws[1..])
    ensures Ranks(ws) == Rank(ws[0]) + Ranks(ws[1..])
  {
  }

  lemma {:induction false} SumsWake(ws: seq<Worker>)
    ensures Hands(WakeAll(ws)) == Hands(ws) && Halves(WakeAll(ws)) == Halves(ws)
    ensures Ranks(WakeAll(ws)) <= Ranks(ws) + |ws|
  {
    hide Hands, Halves, Ranks, WakeAll;
    if ws == [] {
      assert WakeAll(ws) == ws;
    } else {
      SumsWake(ws[1..]);
      WakeAllFirst(ws);
      SumsFirst(ws);
      SumsFirst(WakeAll(ws));
    }
  }

  lemma {:induction false} SumsExited(ws: seq<Worker>)
    requires AllExited(ws)
    ensures Hands(ws) == multiset{} && Halves(ws) == 0
  {
    if ws != [] {
      SumsExited(ws[1..]);
    }
  }

  lemma {:induction false} SumsInit(n: nat)
    ensures Hands(seq(n, _ => Looks)) == multiset{} && Halves(seq(n, _ => Looks)) == 0
  {
    if n > 0 {
      SumsInit(n - 1);
      assert seq(n, _ => Looks)[1..] == seq(n - 1, _ => Looks);
    }
  }

  // --------------------------------------------------------------- invariants

  function Jobs(outcomes: seq<Outcome>): multiset<Job> {
    if outcomes == [] then multiset{} else
    Jobs(outcomes[..|outcomes| - 1]) + multiset{outcomes[|outcomes| - 1].job}
  }

  function Successes(outcomes: seq<Outcome>): nat {
    if outcomes == [] then 0 else
    Successes(outcomes[..|outcomes| - 1]) + (if outcomes[|outcomes| - 1].swapped then 1 else 0)
  }

  function SuccessBytes(outcomes: seq<Outcome>): nat {
    if outcomes == [] then 0 else
    SuccessBytes(outcomes[..|outcomes| - 1]) +
    (if outcomes[|outcomes| - 1].swapped then outcomes[|outcomes| - 1].job.size else 0)
  }

  /** Every posted job leaves the queue once, in order, and every job taken is in one
      worker's hand or has one outcome. */
  predicate ExactlyOnce(s: State) {
    s.posted == s.taken + s.jobs && multiset(s.taken) == Hands(s.workers) + Jobs(s.outcomes)
  }

  /** Counters and totals together hold what succeeded, beyond what the caller's totals
      started from. */
  predicate Counted(s: State, files0: nat, sizes0: nat) {
    s.totalFiles + s.files == files0 + Successes(s.outcomes) + Halves(s.workers) &&
    s.totalSizes + s.sizes == sizes0 + SuccessBytes(s.outcomes)
  }

  predicate AnyReleases(ws: seq<Worker>) {
    exists i :: 0 <= i < |ws| && ws[i].Releases?
  }

  /** A sleeper whose condition holds always has a notify on its way. */
  predicate NoLostWakeup(s: State) {
    ((exists i :: 0 <= i < |s.workers| && s.workers[i].Rests?) && (s.jobs != [] || s.closed) ==>
      s.producer.Notifies? || s.producer.NotifiesClosed?) &&
    (s.producer.Sleeps? && |s.jobs| < MAX_QUEUED ==> AnyReleases(s.workers))
  }

  predicate Stages(s: State) {
    |s.jobs| <= MAX_QUEUED &&
    (s.closed <==> s.producer.NotifiesClosed? || s.producer.Joining? || s.producer.Finished?) &&
    (forall i :: 0 <= i < |s.workers| && s.workers[i].Exited? ==> s.closed && s.jobs == []) &&
    (s.producer.Finished? ==> AllExited(s.workers) && s.files == 0 && s.sizes == 0)
  }

  predicate Inv(s: State, files0: nat, sizes0: nat) {
    ExactlyOnce(s) && Counted(s, files0, sizes0) && NoLostWakeup(s) && Stages(s)
  }

  lemma OneMore(outcomes: seq<Outcome>, o: Outcome)
    ensures Jobs(outcomes + [o]) == Jobs(outcomes) + multiset{o.job}
    ensures Successes(outcomes + [o]) == Successes(outcomes) + (if o.swapped then 1 else 0)
    ensures SuccessBytes(outcomes + [o]) == SuccessBytes(outcomes) + (if o.swapped then o.job.size else 0)
  {
    assert (outcomes + [o])[..|outcomes|] == outcomes;
  }

  /** Which worker a step moves. */
  function Mover(step: Step): Option<nat> {
    match step
    case TryPop(i) => Some(i)
    case NotifyProducer(i) => Some(i)
    case Swap(i, _) => Some(i)
    case AddFile(i) => Some(i)
    case AddBytes(i) => Some(i)
    case WorkerWakes(i) => Some(i)
    case _ => None
  }

  lemma PopKeepsOnce(s: State, i: nat, w: Worker)
    requires ExactlyOnce(s) && i < |s.workers| && s.workers[i].Looks? && s.jobs != []
    requires w == Releases(s.jobs[0]) || w == Swaps(s.jobs[0])
    ensures ExactlyOnce(s.(jobs := s.jobs[1..], taken := s.taken + [s.jobs[0]], workers := s.workers[i := w]))
  {
    hide Hands, Jobs;
    SumsUpdate(s.workers, i, w);
    Cancel(Hands(s.workers) + Hand(w), Hands(s.workers[i := w]), multiset{});
    assert s.taken + s.jobs == s.taken + [s.jobs[0]] + s.jobs[1..];
    Rebalance(multiset(s.taken), multiset(s.taken + [s.jobs[0]]), Hand(w), Hands(s.workers), Hands(s.workers[i := w]), Jobs(s.outcomes));
  }

  lemma OutcomeKeepsOnce(s: State, i: nat, ok: bool)
    requires ExactlyOnce(s) && i < |s.workers| && (s.workers[i].Swaps? || s.workers[i].AddsBytes?)
    ensures ExactlyOnce(s.(workers := s.workers[i := Looks], outcomes := s.outcomes + [Outcome(s.workers[i].y, ok)]))
  {
    hide Hands, Jobs;
    var o := Outcome(s.workers[i].y, ok);
    SumsUpdate(s.workers, i, Looks);
    OneMore(s.outcomes, o);
    Cancel(Hands(s.workers), Hands(s.workers[i := Looks]) + Hand(s.workers[i]), multiset{});
    Settle(multiset(s.taken), Hand(s.workers[i]), Hands(s.workers), Hands(s.workers[i := Looks]), Jobs(s.outcomes), Jobs(s.outcomes + [o]));
  }

  lemma MoveKeepsOnce(s: State, i: nat, w: Worker)
    requires ExactlyOnce(s) && i < |s.workers| && Hand(w) == Hand(s.workers[i])
    ensures ExactlyOnce(s.(workers := s.workers[i := w]))
  {
    hide Hands, Jobs;
    SumsUpdate(s.workers, i, w);
    Cancel(Hands(s.workers), Hands(s.workers[i := w]), Hand(w));
  }

  lemma WorkerKeepsOnce(s: State, step: Step)
    requires ExactlyOnce(s) && Mover(step).Some? && Next(s, step).Some?
    ensures ExactlyOnce(Next(s, step).value)
  {
    var t, i := Next(s, step).value, Mover(step).value;
    if step.TryPop? && s.jobs != [] {
      PopKeepsOnce(s, i, if |s.jobs| == MAX_QUEUED then Releases(s.jobs[0]) else Swaps(s.jobs[0]));
    } else if step.AddBytes? || (step.Swap? && !step.ok) {
      OutcomeKeepsOnce(s, i, step.AddBytes?);
    } else {
      var w := match step
        case TryPop(_) => if s.closed then Exited else Rests
        case NotifyProducer(_) => Swaps(s.workers[i].y)
        case Swap(_, _) => AddsFile(s.workers[i].y)
        case AddFile(_) => AddsBytes(s.workers[i].y)
        case _ => Looks;
      MoveKeepsOnce(s, i, w);
      OnceIgnores(s.(workers := s.workers[i := w]), t);
    }
  }

  lemma OnceIgnores(s: State, t: State)
    requires ExactlyOnce(s)
    requires t.posted == s.posted && t.taken == s.taken && t.jobs == s.jobs && t.workers == s.workers && t.outcomes == s.outcomes
    ensures ExactlyOnce(t)
  {
  }

  lemma WorkerKeepsCounts(s: State, step: Step, files0: nat, sizes0: nat)
    requires Counted(s, files0, sizes0) && Mover(step).Some? && Next(s, step).Some?
    ensures Counted(Next(s, step).value, files0, sizes0)
  {
    hide Hands, Halves, Ranks, Jobs, Successes, SuccessBytes, Hand, Rank;
    var t, i := Next(s, step).value, Mover(step).value;
    SumsUpdate(s.workers, i, t.workers[i]);
    assert t.workers == s.workers[i := t.workers[i]];
    if step.AddBytes? || (step.Swap? && !step.ok) {
      OneMore(s.outcomes, Outcome(s.workers[i].y, step.AddBytes?));
    }
  }

  lemma Cancel(a: multiset<Job>, b: multiset<Job>, x: multiset<Job>)
    requires b + x == a + x
    ensures a == b
  {
    forall j ensures a[j] == b[j] {
      assert (a + x)[j] == (b + x)[j];
    }
  }

  lemma Rebalance(taken: multiset<Job>, taken': multiset<Job>, x: multiset<Job>,
                  hands: multiset<Job>, hands': multiset<Job>, jobs: multiset<Job>)
    requires taken == hands + jobs && taken' == taken + x && hands' == hands + x
    ensures taken' == hands' + jobs
  {
  }

  lemma Settle(taken: multiset<Job>, x: multiset<Job>, hands: multiset<Job>, hands': multiset<Job>,
               jobs: multiset<Job>, jobs': multiset<Job>)
    requires taken == hands + jobs && hands' + x == hands && jobs' == jobs + x
    ensures taken == hands' + jobs'
  {
  }

  lemma StepKeepsSums(s: State, step: Step, files0: nat, sizes0: nat)
    requires ExactlyOnce(s) && Counted(s, files0, sizes0) && Next(s, step).Some?
    ensures ExactlyOnce(Next(s, step).value) && Counted(Next(s, step).value, files0, sizes0)
  {
    hide Hands, Halves, Ranks, Jobs, Successes, SuccessBytes, WorkerNext;
    if Mover(step).Some? {
      WorkerKeepsOnce(s, step);
      WorkerKeepsCounts(s, step, files0, sizes0);
    } else {
      SumsWake(s.workers);
      if step.TryPush? {
        assert s.taken + s.jobs + [s.producer.x] == s.taken + (s.jobs + [s.producer.x]);
      }
    }
  }

  lemma WorkerKeepsWakeups(s: State, step: Step)
    requires NoLostWakeup(s) && Stages(s) && Mover(step).Some? && Next(s, step).Some?
    ensures NoLostWakeup(Next(s, step).value) && Stages(Next(s, step).value)
  {
    var t, i := Next(s, step).value, Mover(step).value;
    assert forall j :: 0 <= j < |s.workers| && j != i ==> t.workers[j] == s.workers[j];
    if t.workers[i].Releases? {
      assert AnyReleases(t.workers);
    } else if s.producer.Sleeps? && |s.jobs| < MAX_QUEUED {
      var k :| 0 <= k < |s.workers| && s.workers[k].Releases?;
      assert k != i ==> t.workers[k].Releases?;
    }
  }

  lemma WakeKeepsReleases(ws: seq<Worker>)
    ensures AnyReleases(WakeAll(ws)) <==> AnyReleases(ws)
    ensures forall i :: 0 <= i < |ws| ==> !WakeAll(ws)[i].Rests?
    ensures forall i :: 0 <= i < |ws| ==> (WakeAll(ws)[i].Exited? <==> ws[i].Exited?)
  {
    if AnyReleases(ws) {
      var i :| 0 <= i < |ws| && ws[i].Releases?;
      assert WakeAll(ws)[i].Releases?;
    }
  }

  lemma StepKeepsWakeups(s: State, step: Step)
    requires NoLostWakeup(s) && Stages(s) && Next(s, step).Some? && s.workers != []
    ensures NoLostWakeup(Next(s, step).value) && Stages(Next(s, step).value)
  {
    hide WorkerNext, WakeAll;
    if Mover(step).Some? {
      WorkerKeepsWakeups(s, step);
    } else {
      WakeKeepsReleases(s.workers);
    }
  }

  lemma StepKeepsInv(s: State, step: Step, files0: nat, sizes0: nat)
    requires Inv(s, files0, sizes0) && Next(s, step).Some? && s.workers != []
    ensures Inv(Next(s, step).value, files0, sizes0)
    ensures |Next(s, step).value.workers| == |s.workers|
  {
    hide ExactlyOnce, Counted, NoLostWakeup, Stages;
    StepKeepsSums(s, step, files0, sizes0);
    StepKeepsWakeups(s, step);
  }

  /** The state after a whole run, or None when some step of it cannot happen. */
  function After(s: State, steps: seq<Step>): Option<State>
    decreases |steps|
  {
    if steps == [] then Some(s) else
    match Next(s, steps[0])
    case Some(t) => After(t, steps[1..])
    case None => None
  }

  lemma {:induction false} RunKeepsInv(s: State, steps: seq<Step>, files0: nat, sizes0: nat)
    requires Inv(s, files0, sizes0) && After(s, steps).Some? && s.workers != []
    ensures Inv(After(s, steps).value, files0, sizes0)
    decreases |steps|
  {
    hide Inv, Next;
    if steps != [] {
      StepKeepsInv(s, steps[0], files0, sizes0);
      RunKeepsInv(Next(s, steps[0]).value, steps[1..], files0, sizes0);
    }
  }

  /** Every reachable state of every run, for any number of threads. */
  lemma Reachable(threads: nat, files0: nat, sizes0: nat, steps: seq<Step>)
    requires threads > 0 && After(Init(threads, files0, sizes0), steps).Some?
    ensures Inv(After(Init(threads, files0, sizes0), steps).value, files0, sizes0)
  {
    SumsInit(threads);
    RunKeepsInv(Init(threads, files0, sizes0), steps, files0, sizes0);
  }

  /** After `finish` every job posted was swapped or failed exactly once, and the
      caller's totals have grown by exactly the successes, however often it was called. */
  lemma FinishCountsOnce(s: State, files0: nat, sizes0: nat)
    requires Inv(s, files0, sizes0) && s.producer.Finished? && s.workers != []
    ensures Jobs(s.outcomes) == multiset(s.posted)
    ensures s.totalFiles == files0 + Successes(s.outcomes)
    ensures s.totalSizes == sizes0 + SuccessBytes(s.outcomes)
    ensures AllExited(s.workers)
  {
    SumsExited(s.workers);
    assert s.workers[0].Exited?;
    assert s.posted == s.taken;
  }

  /** A second `finish` changes nothing. */
  lemma SecondFinishAddsNothing(s: State, files0: nat, sizes0: nat)
    requires Inv(s, files0, sizes0) && s.producer.Finished?
    ensures After(s, [Close, NotifyClosed, Join]) == Some(s)
  {
    hide ExactlyOnce, Counted, NoLostWakeup, WorkerNext;
    assert WakeAll(s.workers) == s.workers;
    assert [Close, NotifyClosed, Join][1..] == [NotifyClosed, Join];
    assert [NotifyClosed, Join][1..] == [Join];
  }

  // ----------------------------------------------------------------- progress

  /** Steps the threads take by themselves. */
  predicate Own(step: Step) {
    !step.Post? && !step.Close? && !step.ProducerWakes? && !step.WorkerWakes?
  }

  function Work(s: State): nat {
    8 * |s.jobs| + Ranks(s.workers) +
    (match s.producer case Wants(_) => |s.workers| + 11 case Sleeps(_) => |s.workers| + 10
                      case Notifies => |s.workers| + 1 case NotifiesClosed => |s.workers| + 2
                      case Joining => 1 case _ => 0)
  }

  lemma OwnStepsTerminate(s: State, step: Step)
    requires Own(step) && Next(s, step).Some?
    ensures Work(Next(s, step).value) < Work(s)
  {
    hide Ranks, Hands, Halves, Hand, Half;
    var t := Next(s, step).value;
    if Mover(step).Some? {
      var i := Mover(step).value;
      SumsUpdate(s.workers, i, t.workers[i]);
      assert t.workers == s.workers[i := t.workers[i]];
    } else {
      SumsWake(s.workers);
    }
  }

  ghost predicate Stuck(s: State) {
    forall step :: Own(step) ==> Next(s, step).None?
  }

  lemma StuckWorkersRest(s: State)
    requires Stuck(s)
    ensures forall i :: 0 <= i < |s.workers| ==> s.workers[i].Rests? || s.workers[i].Exited?
  {
    forall i | 0 <= i < |s.workers| ensures s.workers[i].Rests? || s.workers[i].Exited? {
      assert Own(TryPop(i)) && Own(NotifyProducer(i)) && Own(Swap(i, true)) && Own(AddFile(i)) && Own(AddBytes(i));
      assert Next(s, TryPop(i)).None? && Next(s, NotifyProducer(i)).None? && Next(s, Swap(i, true)).None?;
      assert Next(s, AddFile(i)).None? && Next(s, AddBytes(i)).None?;
    }
  }

  lemma StuckProducer(s: State)
    requires Stuck(s)
    ensures Next(s, TryPush).None? && Next(s, NotifyAll).None? && Next(s, NotifyClosed).None? && Next(s, Join).None?
  {
    hide WorkerNext;
    assert Own(TryPush) && Own(NotifyAll) && Own(NotifyClosed) && Own(Join);
  }

  /** Nothing deadlocks: the threads stop by themselves only with every posted job
      processed, and with no call under way. */
  lemma StopsOnlyWhenDone(s: State, files0: nat, sizes0: nat)
    requires Inv(s, files0, sizes0) && Stuck(s) && s.workers != []
    ensures s.producer.Idle? || s.producer.Finished?
    ensures Jobs(s.outcomes) == multiset(s.posted)
  {
    hide Jobs, Hands, Stuck, Counted, WorkerNext;
    StuckWorkersRest(s);
    StuckProducer(s);
    assert s.workers[0].Rests? || s.workers[0].Exited?;
    assert s.jobs == [];
    RestingHoldNothing(s.workers);
    assert s.posted == s.taken;
  }

  lemma {:induction false} RestingHoldNothing(ws: seq<Worker>)
    requires forall i :: 0 <= i < |ws| ==> ws[i].Rests? || ws[i].Exited?
    ensures Hands(ws) == multiset{}
  {
    if ws != [] {
      RestingHoldNothing(ws[1..]);
    }
  }

  /** Whoever waits may wake up for no reason and then looks again. */
  lemma SleepersMayWake(s: State, i: nat)
    ensures s.producer.Sleeps? ==> Next(s, ProducerWakes) == Some(s.(producer := Wants(s.producer.x)))
    ensures i < |s.workers| && s.workers[i].Rests? ==> Next(s, WorkerWakes(i)) == Some(s.(workers := s.workers[i := Looks]))
  {
  }

  /** A post that found room wakes the workers exactly if there is one for each job queued,
      and one that found none goes to sleep. */
  lemma PostWakesEnough(s: State)
    requires Next(s, TryPush).Some?
    ensures var t := Next(s, TryPush).value;
      (t.producer.Sleeps? <==> |s.jobs| >= MAX_QUEUED) &&
      (t.producer.Notifies? <==> t.posted != s.posted && |t.jobs| <= |t.workers|)
  {
  }

  // ------------------------------------------------- what callers and swaps did

  function Offered(p: Producer): seq<Job> {
    if p.Wants? || p.Sleeps? then [p.x] else []
  }

  /** The jobs handed over in a run. */
  function Posts(steps: seq<Step>): seq<Job> {
    if steps == [] then [] else (if steps[0].Post? then [steps[0].x] else []) + Posts(steps[1..])
  }

  /** The files and bytes a call of swapForFarmLink replaced. */
  function Won(s: State, step: Step): (nat, nat) {
    if step.Swap? && step.ok && step.i < |s.workers| && s.workers[step.i].Swaps?
    then (1, s.workers[step.i].y.size) else (0, 0)
  }

  function Wins(s: State, steps: seq<Step>): (nat, nat)
    decreases |steps|
  {
    if steps == [] || Next(s, steps[0]).None? then (0, 0) else
    var rest := Wins(Next(s, steps[0]).value, steps[1..]);
    (Won(s, steps[0]).0 + rest.0, Won(s, steps[0]).1 + rest.1)
  }

  /** What a worker has won and not yet added to the counters. */
  function Due(w: Worker): (nat, nat) {
    match w
    case AddsFile(y) => (1, y.size)
    case AddsBytes(y) => (0, y.size)
    case _ => (0, 0)
  }

  function Dues(ws: seq<Worker>): (nat, nat) {
    if ws == [] then (0, 0) else (Due(ws[0]).0 + Dues(ws[1..]).0, Due(ws[0]).1 + Dues(ws[1..]).1)
  }

  lemma {:induction false} DuesUpdate(ws: seq<Worker>, i: nat, w: Worker)
    requires i < |ws|
    ensures Dues(ws[i := w]).0 + Due(ws[i]).0 == Dues(ws).0 + Due(w).0
    ensures Dues(ws[i := w]).1 + Due(ws[i]).1 == Dues(ws).1 + Due(w).1
  {
    hide Due;
    if i == 0 {
      assert ws[0 := w][1..] == ws[1..];
    } else {
      DuesUpdate(ws[1..], i - 1, w);
      assert ws[i := w][1..] == ws[1..][i - 1 := w];
    }
  }

  lemma {:induction false} DuesWake(ws: seq<Worker>)
    ensures Dues(WakeAll(ws)) == Dues(ws)
  {
    hide WakeAll;
    if ws == [] {
      assert WakeAll(ws) == ws;
    } else {
      DuesWake(ws[1..]);
      WakeAllFirst(ws);
    }
  }

  lemma {:induction false} NothingDue(ws: seq<Worker>)
    requires forall i :: 0 <= i < |ws| ==> Due(ws[i]) == (0, 0)
    ensures Dues(ws) == (0, 0)
  {
    if ws != [] {
      NothingDue(ws[1..]);
    }
  }

  /** Replaced so far: in the totals, in the counters, and on the way there. */
  function Replaced(s: State): (nat, nat) {
    (s.totalFiles + s.files + Dues(s.workers).0, s.totalSizes + s.sizes + Dues(s.workers).1)
  }

  lemma WorkerReplaces(s: State, step: Step)
    requires Mover(step).Some? && Next(s, step).Some?
    ensures var t := Next(s, step).value;
      Replaced(t) == (Replaced(s).0 + Won(s, step).0, Replaced(s).1 + Won(s, step).1)
  {
    hide Dues;
    var (i, t) := (Mover(step).value, Next(s, step).value);
    assert t.workers == s.workers[i := t.workers[i]];
    DuesUpdate(s.workers, i, t.workers[i]);
  }

  lemma StepReplaces(s: State, step: Step)
    requires Next(s, step).Some?
    ensures var t := Next(s, step).value;
      Replaced(t) == (Replaced(s).0 + Won(s, step).0, Replaced(s).1 + Won(s, step).1)
  {
    hide Dues, WorkerNext;
    if Mover(step).Some? {
      WorkerReplaces(s, step);
    } else {
      DuesWake(s.workers);
    }
  }

  lemma StepPosts(s: State, step: Step)
    requires Next(s, step).Some?
    ensures var t := Next(s, step).value;
      t.posted + Offered(t.producer) == s.posted + Offered(s.producer) + if step.Post? then [step.x] else []
  {
  }

  /** In any run the pool takes up exactly the jobs handed to it, in order, and accounts for
      exactly the files its swaps replaced, whichever worker made them. */
  lemma {:induction false} RunsAccount(s: State, steps: seq<Step>)
    requires After(s, steps).Some?
    ensures var t := After(s, steps).value;
      t.posted + Offered(t.producer) == s.posted + Offered(s.producer) + Posts(steps) &&
      Replaced(t) == (Replaced(s).0 + Wins(s, steps).0, Replaced(s).1 + Wins(s, steps).1)
    decreases |steps|
  {
    hide Next, Replaced, Won, Offered;
    if steps != [] {
      StepPosts(s, steps[0]);
      StepReplaces(s, steps[0]);
      RunsAccount(Next(s, steps[0]).value, steps[1..]);
    }
  }

  /** What finish adds to its caller's totals is exactly what the swaps of the run
      replaced, and every job handed over has been tried. */
  lemma FinishTellsTheTruth(threads: nat, files0: nat, sizes0: nat, steps: seq<Step>)
    requires threads > 0 && After(Init(threads, files0, sizes0), steps).Some?
    requires After(Init(threads, files0, sizes0), steps).value.producer.Finished?
    ensures var (s, t) := (Init(threads, files0, sizes0), After(Init(threads, files0, sizes0), steps).value);
      t.totalFiles == files0 + Wins(s, steps).0 && t.totalSizes == sizes0 + Wins(s, steps).1 &&
      Jobs(t.outcomes) == multiset(Posts(steps))
  {
    hide After, Wins, Posts, Jobs, ExactlyOnce, Counted, NoLostWakeup;
    var s := Init(threads, files0, sizes0);
    var t := After(s, steps).value;
    Reachable(threads, files0, sizes0, steps);
    RunsAccount(s, steps);
    NothingDue(s.workers);
    NothingDue(t.workers);
    SameWorkers(s, steps);
    FinishCountsOnce(t, files0, sizes0);
    assert t.posted + [] == [] + [] + Posts(steps) && t.posted + [] == t.posted && [] + [] + Posts(steps) == Posts(steps);
  }

  lemma {:induction false} SameWorkers(s: State, steps: seq<Step>)
    requires After(s, steps).Some?
    ensures |After(s, steps).value.workers| == |s.workers|
    decreases |steps|
  {
    if steps != [] {
      SameWorkers(Next(s, steps[0]).value, steps[1..]);
    }
  }

  // ------------------------------------------------------------ the pool itself

  /** One method for each stretch of code under the mutex and each action outside it;
      the ghost fields say where the threads are and what happened so far. */
  class DedupSwapPool {
    const threads: nat
    var jobs: seq<Job>
    var closed: bool
    var swappedFiles: nat
    var swappedBytes: nat
    ghost var totalFiles: nat
    ghost var totalSizes: nat
    ghost var producer: Producer
    ghost var workers: seq<Worker>
    ghost var posted: seq<Job>
    ghost var taken: seq<Job>
    ghost var outcomes: seq<Outcome>

    ghost function Now(): State
      reads this
    {
      State(jobs, closed, swappedFiles, swappedBytes, totalFiles, totalSizes, producer, workers,
            posted, taken, outcomes)
    }

    constructor (threads: nat, files: nat, sizes: nat)
      ensures Now() == Init(threads, files, sizes) && this.threads == threads
    {
      this.threads := threads;
      jobs, closed, swappedFiles, swappedBytes := [], false, 0, 0;
      totalFiles, totalSizes := files, sizes;
      producer, workers := Idle, seq(threads, _ => Looks);
      posted, taken, outcomes := [], [], [];
    }

    /** post, up to the unlock: false when it went to sleep instead. */
    method TryPush(x: Job) returns (done: bool, wake: bool)
      requires producer == Wants(x) && |workers| == threads
      modifies this
      ensures Some(Now()) == Next(old(Now()), Step.TryPush)
      ensures done == !producer.Sleeps? && wake == producer.Notifies?
    {
      if |jobs| >= MAX_QUEUED {
        producer := Sleeps(x);
        return false, false;
      }
      jobs := jobs + [x];
      posted := posted + [x];
      wake := |jobs| <= threads;
      producer := if wake then Notifies else Idle;
      done := true;
    }

    method NotifyAll()
      requires producer.Notifies?
      modifies this
      ensures Some(Now()) == Next(old(Now()), Step.NotifyAll)
    {
      producer, workers := Idle, WakeAll(workers);
    }

    /** run up to the unlock: None when the worker went to sleep or returned. */
    method TryPop(i: nat) returns (y: Option<Job>, wake: bool)
      requires i < |workers| && workers[i].Looks?
      modifies this
      ensures Some(Now()) == Next(old(Now()), Step.TryPop(i))
      ensures y == if workers[i].Swaps? || workers[i].Releases? then Some(workers[i].y) else None
      ensures wake == workers[i].Releases?
    {
      if jobs == [] {
        workers := workers[i := if closed then Exited else Rests];
        return None, false;
      }
      y := Some(jobs[0]);
      taken, jobs := taken + [jobs[0]], jobs[1..];
      wake := |jobs| == MAX_QUEUED - 1;
      workers := workers[i := if wake then Releases(y.value) else Swaps(y.value)];
    }

    method NotifyProducer(i: nat)
      requires i < |workers| && workers[i].Releases?
      modifies this
      ensures Some(Now()) == Next(old(Now()), Step.NotifyProducer(i))
    {
      producer, workers := WakeProducer(producer), workers[i := Swaps(workers[i].y)];
    }

    /** The swap came back; its job is over when it failed. */
    method Swapped(i: nat, y: Job, ok: bool)
      requires i < |workers| && workers[i] == Swaps(y)
      modifies this
      ensures Some(Now()) == Next(old(Now()), Swap(i, ok))
    {
      if ok {
        workers := workers[i := Worker.AddsFile(y)];
      } else {
        workers, outcomes := workers[i := Looks], outcomes + [Outcome(y, false)];
      }
    }

    method AddFile(i: nat, y: Job)
      requires i < |workers| && workers[i] == AddsFile(y)
      modifies this
      ensures Some(Now()) == Next(old(Now()), Step.AddFile(i))
    {
      swappedFiles := swappedFiles + 1;
      workers := workers[i := Worker.AddsBytes(y)];
    }

    method AddBytes(i: nat, y: Job)
      requires i < |workers| && workers[i] == AddsBytes(y)
      modifies this
      ensures Some(Now()) == Next(old(Now()), Step.AddBytes(i))
    {
      swappedBytes := swappedBytes + y.size;
      workers, outcomes := workers[i := Looks], outcomes + [Outcome(y, true)];
    }

    method Close()
      requires producer.Idle? || producer.Finished?
      modifies this
      ensures Some(Now()) == Next(old(Now()), Step.Close)
    {
      closed := true;
      producer := NotifiesClosed;
    }

    /** The end of finish: every worker is joined, and the counters move to the caller. */
    method Collect(files: nat, sizes: nat) returns (files': nat, sizes': nat)
      requires producer.Joining? && AllExited(workers)
      requires files == totalFiles && sizes == totalSizes
      modifies this
      ensures Some(Now()) == Next(old(Now()), Join)
      ensures files' == totalFiles && sizes' == totalSizes
    {
      files', sizes' := files + swappedFiles, sizes + swappedBytes;
      swappedFiles, swappedBytes := 0, 0;
      totalFiles, totalSizes, producer := files', sizes', Finished;
    }
  }
}
