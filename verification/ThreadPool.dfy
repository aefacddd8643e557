/** The general thread pool: workers spawned on demand, the caller of `process` working
    along, items that may enqueue more items, and a stop on the first exception. */
module ThreadPool {
  import opened Results

  type Item = nat

  /** Outside: the main thread before `process`. Looks: needs the mutex to look for work.
      Ends: the item is over, and the mutex is needed to say so. */
  datatype Thread =
    | Outside
    | Looks
    | Sleeps
    | Runs(x: Item)
    | Ends(x: Item, threw: bool)
    | Exited

  /** How far the main thread is outside `doWork`. Failing: process found an exception.
      The destructor's shutdown ends in Gone, the one in process in Thrown. */
  datatype Phase =
    | Before
    | Working
    | Failing
    | Notifying(thrown: bool)
    | Joining(thrown: bool)
    | Returned
    | Thrown
    | Gone

  datatype Outcome = Outcome(item: Item, threw: bool)

  /** Thread 0 is the caller of process. `accepted`, `begun` and `outcomes` are the
      history: items enqueued, items started, and how each ended. */
  datatype State = State(
    maxThreads: nat,
    pending: seq<Item>, active: nat, exception: Option<Item>, quit: bool, draining: bool, reaped: bool,
    threads: seq<Thread>, phase: Phase,
    accepted: seq<Item>, begun: seq<Item>, outcomes: seq<Outcome>)

  datatype Step =
    | Enqueue(x: Item, woken: Option<nat>)
    | Process
    | Turn(i: nat)
    | Finish(i: nat, threw: bool)
    | Wakes(i: nat)
    | Decide
    | BeginShutdown
    | NotifyQuit
    | Join

  function Init(maxThreads: nat): State {
    State(maxThreads, [], 0, None, false, false, false, [Outside], Before, [], [], [])
  }

  function WakeAll(ts: seq<Thread>): (r: seq<Thread>)
    ensures |r| == |ts|
    ensures forall i :: 0 <= i < |ts| ==> r[i] == if ts[i].Sleeps? then Looks else ts[i]
  {
    seq(|ts|, i requires 0 <= i < |ts| => if ts[i].Sleeps? then Looks else ts[i])
  }

  predicate NobodySleeps(ts: seq<Thread>) {
    forall i :: 0 <= i < |ts| ==> !ts[i].Sleeps?
  }

  predicate WorkersExited(ts: seq<Thread>) {
    forall i :: 1 <= i < |ts| ==> ts[i].Exited?
  }

  /** enqueue, when the pool is not quitting. The main thread counts as a worker. A
      notify wakes some sleeper, if there is one. */
  function Enqueued(s: State, x: Item, woken: Option<nat>): State
    requires woken.Some? ==> woken.value < |s.threads|
  {
    var pending := s.pending + [x];
    var threads := if |pending| > |s.threads| && |s.threads| < s.maxThreads then s.threads + [Looks] else s.threads;
    s.(pending := pending, accepted := s.accepted + [x],
       threads := if woken.Some? then threads[woken.value := Looks] else threads)
  }

  /** doWork, first half of the critical section: account for the item that ended. */
  function Ended(s: State, i: nat): State
    requires i < |s.threads|
  {
    if !s.threads[i].Ends? || s.active == 0 then s else
    var t := s.(active := s.active - 1, threads := s.threads[i := Looks],
                outcomes := s.outcomes + [Outcome(s.threads[i].x, s.threads[i].threw)]);
    if s.threads[i].threw && s.exception.None?
    then t.(exception := Some(s.threads[i].x), quit := true, threads := WakeAll(t.threads))
    else t
  }

  /** doWork, second half: leave, take an item, end the run, or sleep. */
  function Looked(s: State, i: nat): State
    requires i < |s.threads|
  {
    if s.quit then s.(threads := s.threads[i := Exited])
    else if s.pending != [] then
      s.(pending := s.pending[1..], begun := s.begun + [s.pending[0]], active := s.active + 1,
         threads := s.threads[i := Runs(s.pending[0])])
    else if s.active == 0 && s.draining then s.(quit := true, threads := WakeAll(s.threads)[i := Exited])
    else s.(threads := s.threads[i := Sleeps])
  }

  /** The state after a step, or None where the step cannot happen. Enqueueing while the
      pool quits throws and changes nothing. */
  function Next(s: State, step: Step): Option<State> {
    match step
    case Enqueue(x, woken) =>
      if (match woken case Some(j) => j < |s.threads| && s.threads[j].Sleeps? case None => NobodySleeps(s.threads))
      then Some(if s.quit then s else Enqueued(s, x, woken)) else None
    case Process =>
      if s.phase.Before? && s.threads != [] then
        Some(s.(draining := true, phase := Working, threads := s.threads[0 := Looks]))
      else None
    case Turn(i) =>
      if i < |s.threads| && (s.threads[i].Looks? || s.threads[i].Ends?) then Some(Looked(Ended(s, i), i)) else None
    case Finish(i, threw) =>
      if i < |s.threads| && s.threads[i].Runs? then Some(s.(threads := s.threads[i := Ends(s.threads[i].x, threw)]))
      else None
    case Wakes(i) =>
      if i < |s.threads| && s.threads[i].Sleeps? then Some(s.(threads := s.threads[i := Looks])) else None
    case Decide =>
      if s.phase.Working? && s.threads != [] && s.threads[0].Exited?
      then Some(s.(phase := if s.exception.Some? then Failing else Returned)) else None
    case BeginShutdown =>
      if !s.phase.Failing? && !s.phase.Before? && !s.phase.Returned? && !s.phase.Thrown? then None else
      var none := s.reaped || |s.threads| <= 1;
      Some(s.(quit := true, reaped := true,
              phase := if !none then Notifying(s.phase.Failing?) else if s.phase.Failing? then Thrown else Gone))
    case NotifyQuit =>
      if s.phase.Notifying? then Some(s.(threads := WakeAll(s.threads), phase := Joining(s.phase.thrown))) else None
    case Join =>
      if s.phase.Joining? && WorkersExited(s.threads)
      then Some(s.(phase := if s.phase.thrown then Thrown else Gone)) else None
  }

  // ------------------------------------------------------ sums over the threads

  function Hand(t: Thread): multiset<Item> {
    if t.Runs? || t.Ends? then multiset{t.x} else multiset{}
  }

  function Hands(ts: seq<Thread>): multiset<Item> {
    if ts == [] then multiset{} else Hand(ts[0]) + Hands(ts[1..])
  }

  predicate Awake(t: Thread) {
    t.Looks? || t.Runs? || t.Ends?
  }

  function AwakeCount(ts: seq<Thread>): nat {
    if ts == [] then 0 else (if Awake(ts[0]) then 1 else 0) + AwakeCount(ts[1..])
  }

  lemma {:induction false} HandsUpdate(ts: seq<Thread>, i: nat, t: Thread)
    requires i < |ts|
    ensures Hands(ts[i := t]) + Hand(ts[i]) == Hands(ts) + Hand(t)
  {
    hide Hand;
    if i == 0 {
      assert ts[0 := t][1..] == ts[1..];
    } else {
      HandsUpdate(ts[1..], i - 1, t);
      assert ts[i := t][1..] == ts[1..][i - 1 := t];
      Shift(Hand(ts[0]), Hands(ts[1..]), Hand(ts[i]), Hands(ts[1..][i - 1 := t]), Hand(t));
    }
  }

  lemma Shift<T>(h: multiset<T>, a: multiset<T>, x: multiset<T>, b: multiset<T>, y: multiset<T>)
    requires b + x == a + y
    ensures h + b + x == h + a + y
  {
    assert h + b + x == h + (b + x) && h + a + y == h + (a + y);
  }

  lemma Cancel<T>(a: multiset<T>, b: multiset<T>, x: multiset<T>)
    requires b + x == a + x
    ensures a == b
  {
    forall j ensures a[j] == b[j] {
      assert (a + x)[j] == (b + x)[j];
    }
  }

  lemma HandsSame(ts: seq<Thread>, i: nat, t: Thread)
    requires i < |ts| && Hand(t) == Hand(ts[i])
    ensures Hands(ts[i := t]) == Hands(ts)
  {
    HandsUpdate(ts, i, t);
    Cancel(Hands(ts), Hands(ts[i := t]), Hand(t));
  }

  lemma {:induction false} AwakeUpdate(ts: seq<Thread>, i: nat, t: Thread)
    requires i < |ts|
    ensures AwakeCount(ts[i := t]) + (if Awake(ts[i]) then 1 else 0) ==
            AwakeCount(ts) + (if Awake(t) then 1 else 0)
  {
    hide Awake;
    if i == 0 {
      assert ts[0 := t][1..] == ts[1..];
    } else {
      AwakeUpdate(ts[1..], i - 1, t);
      assert ts[i := t][1..] == ts[1..][i - 1 := t];
    }
  }

  lemma {:induction false} SumsSpawn(ts: seq<Thread>)
    ensures Hands(ts + [Looks]) == Hands(ts) && AwakeCount(ts + [Looks]) == AwakeCount(ts) + 1
  {
    if ts != [] {
      SumsSpawn(ts[1..]);
      assert (ts + [Looks])[1..] == ts[1..] + [Looks];
    }
  }

  lemma WakeAllFirst(ts: seq<Thread>)
    requires ts != []
    ensures WakeAll(ts)[0] == if ts[0].Sleeps? then Looks else ts[0]
    ensures WakeAll(ts)[1..] == WakeAll(ts[1..])
  {
  }

  lemma HandsFirst(ts: seq<Thread>)
    requires ts != []
    ensures Hands(ts) == Hand(ts[0]) + Hands(ts[1..])
  {
  }

  lemma {:induction false} HandsWake(ts: seq<Thread>)
    ensures Hands(WakeAll(ts)) == Hands(ts)
  {
    hide Hands, WakeAll;
    if ts == [] {
      assert WakeAll(ts) == ts;
    } else {
      HandsWake(ts[1..]);
      WakeAllFirst(ts);
      HandsFirst(ts);
      HandsFirst(WakeAll(ts));
    }
  }

  /** Without an item in hand nobody runs, and the other way round. */
  lemma {:induction false} HandsEmpty(ts: seq<Thread>)
    ensures |Hands(ts)| == 0 <==> forall i :: 0 <= i < |ts| ==> !ts[i].Runs? && !ts[i].Ends?
  {
    if ts != [] {
      HandsEmpty(ts[1..]);
      assert forall i :: 1 <= i < |ts| ==> ts[i] == ts[1..][i - 1];
      if forall i :: 0 <= i < |ts| ==> !ts[i].Runs? && !ts[i].Ends? {
        assert forall i :: 0 <= i < |ts[1..]| ==> ts[1..][i] == ts[i + 1];
      }
    }
  }

  // --------------------------------------------------------------- invariants

  function Items(outcomes: seq<Outcome>): multiset<Item> {
    if outcomes == [] then multiset{} else
    Items(outcomes[..|outcomes| - 1]) + multiset{outcomes[|outcomes| - 1].item}
  }

  function FirstThrown(outcomes: seq<Outcome>): Option<Item> {
    if outcomes == [] then None else
    var first := FirstThrown(outcomes[..|outcomes| - 1]);
    var last := outcomes[|outcomes| - 1];
    if first.None? && last.threw then Some(last.item) else first
  }

  /** Every accepted item leaves the queue once, in order, and every item begun is in one
      thread's hand or has one outcome; `active` counts the hands. */
  predicate ExactlyOnce(s: State) {
    s.accepted == s.begun + s.pending &&
    multiset(s.begun) == Hands(s.threads) + Items(s.outcomes) &&
    s.active == |Hands(s.threads)|
  }

  predicate Sleeper(s: State) {
    exists i :: 0 <= i < |s.threads| && s.threads[i].Sleeps?
  }

  predicate Looker(s: State) {
    exists i :: 0 <= i < |s.threads| && s.threads[i].Looks?
  }

  /** While anyone sleeps, each pending item has a thread that is awake to come for it;
      once `process` has nothing left to wait for, a thread is on its way to notice; and
      nobody sleeps through a quit, except until its notify arrives. */
  predicate NoLostWakeup(s: State) {
    (!s.quit && Sleeper(s) ==> |s.pending| <= AwakeCount(s.threads)) &&
    (!s.quit && s.draining && s.active == 0 ==> Looker(s)) &&
    (s.quit && Sleeper(s) ==> s.phase.Notifying?)
  }

  predicate Stages(s: State) {
    1 <= |s.threads| && (|s.threads| == 1 || |s.threads| <= s.maxThreads) &&
    (s.phase.Before? ==> s.threads[0].Outside? && !s.draining && !s.reaped) &&
    (forall i :: 1 <= i < |s.threads| ==> !s.threads[i].Outside?) &&
    (forall i :: 0 <= i < |s.threads| && s.threads[i].Exited? ==> s.quit) &&
    (s.phase.Working? ==> s.draining && !s.threads[0].Outside? && !s.reaped) &&
    (s.draining ==> !s.threads[0].Outside?) &&
    (s.phase.Failing? ==> s.exception.Some? && s.threads[0].Exited? && !s.reaped) &&
    (s.phase.Returned? ==> s.threads[0].Exited? && s.exception.None? && !s.reaped) &&
    (s.phase.Notifying? || s.phase.Joining? || s.phase.Thrown? || s.phase.Gone? ==>
      s.quit && s.reaped && (s.threads[0].Exited? || s.threads[0].Outside?)) &&
    (s.phase.Thrown? || s.phase.Gone? ==> WorkersExited(s.threads)) &&
    (s.phase.Thrown? ==> s.threads[0].Exited?) &&
    (s.phase.Notifying? || s.phase.Joining? ==> (s.phase.thrown ==> s.exception.Some? && s.threads[0].Exited?)) &&
    (s.phase.Thrown? ==> s.exception.Some?)
  }

  /** The recorded exception is the first one; without one, quitting means drained. */
  predicate Verdict(s: State) {
    s.exception == FirstThrown(s.outcomes) &&
    (s.exception.Some? ==> s.quit) &&
    (s.quit && s.exception.None? && !s.reaped ==> s.pending == [] && s.active == 0 && s.draining)
  }

  predicate Inv(s: State) {
    ExactlyOnce(s) && NoLostWakeup(s) && Stages(s) && Verdict(s)
  }

  lemma OneMore(outcomes: seq<Outcome>, o: Outcome)
    ensures Items(outcomes + [o]) == Items(outcomes) + multiset{o.item}
    ensures FirstThrown(outcomes + [o]) ==
            if FirstThrown(outcomes).None? && o.threw then Some(o.item) else FirstThrown(outcomes)
  {
    assert (outcomes + [o])[..|outcomes|] == outcomes;
  }

  lemma Rebalance(begun: multiset<Item>, begun': multiset<Item>, x: multiset<Item>,
                  hands: multiset<Item>, hands': multiset<Item>, done: multiset<Item>)
    requires begun == hands + done && begun' == begun + x && hands' == hands + x
    ensures begun' == hands' + done && |hands'| == |hands| + |x|
  {
  }

  lemma Settle(begun: multiset<Item>, x: multiset<Item>, hands: multiset<Item>, hands': multiset<Item>,
               done: multiset<Item>, done': multiset<Item>)
    requires begun == hands + done && hands' + x == hands && done' == done + x
    ensures begun == hands' + done' && |hands| == |hands'| + |x|
  {
  }

  lemma EndedKeepsOnce(s: State, i: nat)
    requires ExactlyOnce(s) && i < |s.threads|
    ensures ExactlyOnce(Ended(s, i))
    ensures !Ended(s, i).threads[i].Ends?
    ensures Ended(s, i).exception == FirstThrown(Ended(s, i).outcomes) || s.exception != FirstThrown(s.outcomes)
  {
    hide Hands, Items, FirstThrown;
    if s.threads[i].Ends? {
      HandsUpdate(s.threads, i, Looks);
      HandPositive(s.threads, i);
      var t := s.threads[i := Looks];
      HandsWake(t);
      var o := Outcome(s.threads[i].x, s.threads[i].threw);
      OneMore(s.outcomes, o);
      Settle(multiset(s.begun), Hand(s.threads[i]), Hands(s.threads), Hands(t), Items(s.outcomes), Items(s.outcomes + [o]));
    }
  }

  lemma HandPositive(ts: seq<Thread>, i: nat)
    requires i < |ts| && (ts[i].Runs? || ts[i].Ends?)
    ensures |Hands(ts)| > 0
  {
    HandsEmpty(ts);
  }

  lemma TakenKeepsOnce(s: State, i: nat)
    requires ExactlyOnce(s) && i < |s.threads| && s.threads[i].Looks? && s.pending != []
    ensures ExactlyOnce(s.(pending := s.pending[1..], begun := s.begun + [s.pending[0]], active := s.active + 1,
                           threads := s.threads[i := Runs(s.pending[0])]))
  {
    hide Hands, Items;
    var w := Runs(s.pending[0]);
    HandsUpdate(s.threads, i, w);
    Cancel(Hands(s.threads) + Hand(w), Hands(s.threads[i := w]), multiset{});
    assert s.begun + s.pending == s.begun + [s.pending[0]] + s.pending[1..];
    Rebalance(multiset(s.begun), multiset(s.begun + [s.pending[0]]), Hand(w), Hands(s.threads), Hands(s.threads[i := w]), Items(s.outcomes));
  }

  lemma OnceIgnores(s: State, t: State)
    requires ExactlyOnce(s) && Hands(t.threads) == Hands(s.threads)
    requires t.accepted == s.accepted && t.begun == s.begun && t.pending == s.pending
    requires t.outcomes == s.outcomes && t.active == s.active
    ensures ExactlyOnce(t)
  {
  }

  lemma LookedKeepsOnce(s: State, i: nat)
    requires ExactlyOnce(s) && i < |s.threads| && s.threads[i].Looks?
    ensures ExactlyOnce(Looked(s, i))
  {
    hide Hands, Items, ExactlyOnce, WakeAll;
    if !s.quit && s.pending != [] {
      TakenKeepsOnce(s, i);
    } else {
      var t := Looked(s, i);
      WokenLooks(s.threads, i);
      HandsWake(s.threads);
      HandsSame(WakeAll(s.threads), i, Exited);
      HandsSame(s.threads, i, Exited);
      HandsSame(s.threads, i, Sleeps);
      OnceIgnores(s, t);
    }
  }

  lemma WokenLooks(ts: seq<Thread>, i: nat)
    requires i < |ts| && ts[i].Looks?
    ensures WakeAll(ts)[i].Looks?
  {
  }

  lemma EnqueuedKeepsOnce(s: State, x: Item, woken: Option<nat>)
    requires ExactlyOnce(s)
    requires woken.Some? ==> woken.value < |s.threads| && s.threads[woken.value].Sleeps?
    ensures ExactlyOnce(Enqueued(s, x, woken))
  {
    hide Hands, Items;
    SumsSpawn(s.threads);
    assert s.begun + s.pending + [x] == s.begun + (s.pending + [x]);
    if woken.Some? {
      HandsSame(s.threads, woken.value, Looks);
      HandsSame(s.threads + [Looks], woken.value, Looks);
    }
  }

  lemma TurnKeepsOnce(s: State, i: nat)
    requires ExactlyOnce(s) && i < |s.threads| && (s.threads[i].Looks? || s.threads[i].Ends?)
    ensures i < |Ended(s, i).threads| && ExactlyOnce(Looked(Ended(s, i), i))
  {
    hide Looked, Ended, ExactlyOnce;
    EndedKeepsOnce(s, i);
    EndedLooks(s, i);
    LookedKeepsOnce(Ended(s, i), i);
  }

  /** Moving one thread without giving it an item or taking one. */
  lemma MoveKeepsOnce(s: State, t: State, i: nat, w: Thread)
    requires ExactlyOnce(s) && i < |s.threads| && Hand(w) == Hand(s.threads[i]) && t.threads == s.threads[i := w]
    requires t.accepted == s.accepted && t.begun == s.begun && t.pending == s.pending
    requires t.outcomes == s.outcomes && t.active == s.active
    ensures ExactlyOnce(t)
  {
    hide Hands, Items, ExactlyOnce;
    HandsSame(s.threads, i, w);
    OnceIgnores(s, t);
  }

  lemma NotifyKeepsOnce(s: State)
    requires ExactlyOnce(s) && Next(s, NotifyQuit).Some?
    ensures ExactlyOnce(Next(s, NotifyQuit).value)
  {
    hide Hands, Items, ExactlyOnce, WakeAll;
    HandsWake(s.threads);
    OnceIgnores(s, Next(s, NotifyQuit).value);
  }

  lemma PhaseKeepsOnce(s: State, step: Step)
    requires ExactlyOnce(s) && Next(s, step).Some? && (step.Decide? || step.BeginShutdown? || step.Join?)
    ensures ExactlyOnce(Next(s, step).value)
  {
    hide Hands, Items, ExactlyOnce, WorkersExited;
    OnceIgnores(s, Next(s, step).value);
  }

  lemma StepKeepsOnce(s: State, step: Step)
    requires ExactlyOnce(s) && Stages(s) && Next(s, step).Some?
    ensures ExactlyOnce(Next(s, step).value)
  {
    hide Looked, Ended, Enqueued, ExactlyOnce, Stages, NobodySleeps, WorkersExited, WakeAll;
    match step
    case Enqueue(x, woken) =>
      if !s.quit {
        EnqueuedKeepsOnce(s, x, woken);
      }
    case Turn(i) => TurnKeepsOnce(s, i);
    case Process =>
      OutsideAtFirst(s);
      MoveKeepsOnce(s, Next(s, step).value, 0, Looks);
    case Finish(i, threw) => MoveKeepsOnce(s, Next(s, step).value, i, Ends(s.threads[i].x, threw));
    case Wakes(i) => MoveKeepsOnce(s, Next(s, step).value, i, Looks);
    case NotifyQuit => NotifyKeepsOnce(s);
    case _ => PhaseKeepsOnce(s, step);
  }

  lemma OutsideAtFirst(s: State)
    requires Stages(s) && s.phase.Before?
    ensures s.threads != [] && s.threads[0].Outside?
  {
  }

  lemma EndedLooks(s: State, i: nat)
    requires ExactlyOnce(s) && i < |s.threads| && (s.threads[i].Looks? || s.threads[i].Ends?)
    ensures i < |Ended(s, i).threads| && Ended(s, i).threads[i].Looks?
  {
    hide Hands, Items;
    if s.threads[i].Ends? {
      HandPositive(s.threads, i);
    }
  }

  lemma TurnKeepsVerdict(s: State, i: nat)
    requires ExactlyOnce(s) && Verdict(s) && i < |s.threads| && (s.threads[i].Looks? || s.threads[i].Ends?)
    ensures Verdict(Looked(Ended(s, i), i))
  {
    hide Items, FirstThrown, Hands;
    if s.threads[i].Ends? {
      HandPositive(s.threads, i);
      OneMore(s.outcomes, Outcome(s.threads[i].x, s.threads[i].threw));
    }
  }

  lemma EndedKeepsStages(s: State, i: nat)
    requires ExactlyOnce(s) && Stages(s) && Verdict(s) && i < |s.threads| && (s.threads[i].Looks? || s.threads[i].Ends?)
    ensures i < |Ended(s, i).threads| && Ended(s, i).threads[i].Looks? && Stages(Ended(s, i))
  {
    hide Items, FirstThrown, Hands;
    if s.threads[i].Ends? {
      HandPositive(s.threads, i);
    }
  }

  lemma LookedKeepsStages(s: State, i: nat)
    requires Stages(s) && i < |s.threads| && s.threads[i].Looks?
    ensures Stages(Looked(s, i))
  {
    hide Items, FirstThrown, Hands;
  }

  lemma TurnKeepsStages(s: State, i: nat)
    requires ExactlyOnce(s) && Stages(s) && Verdict(s) && i < |s.threads| && (s.threads[i].Looks? || s.threads[i].Ends?)
    ensures i < |Ended(s, i).threads| && Stages(Looked(Ended(s, i), i))
  {
    hide Stages, Looked, Ended, ExactlyOnce;
    EndedKeepsStages(s, i);
    LookedKeepsStages(Ended(s, i), i);
  }

  lemma TurnKeepsWakeups(s: State, i: nat)
    requires Inv(s) && i < |s.threads| && (s.threads[i].Looks? || s.threads[i].Ends?)
    ensures NoLostWakeup(Looked(Ended(s, i), i))
  {
    hide Items, FirstThrown, Hands, AwakeCount, Stages;
    if s.threads[i].Ends? {
      HandPositive(s.threads, i);
    }
    var t := Ended(s, i);
    var u := Looked(t, i);
    if !u.quit {
      assert t.threads == s.threads[i := Looks];
      AwakeUpdate(s.threads, i, Looks);
      AwakeUpdate(t.threads, i, u.threads[i]);
      assert u.threads == t.threads[i := u.threads[i]];
    }
  }

  lemma StepKeepsWakeups(s: State, step: Step)
    requires Inv(s) && Next(s, step).Some? && !step.Turn?
    ensures NoLostWakeup(Next(s, step).value)
  {
    hide Items, FirstThrown, Hands, AwakeCount, Looked, Ended, ExactlyOnce, Verdict;
    var t := Next(s, step).value;
    match step
    case Enqueue(x, woken) =>
      SumsSpawn(s.threads);
      if woken.Some? {
        AwakeUpdate(s.threads, woken.value, Looks);
        AwakeUpdate(s.threads + [Looks], woken.value, Looks);
      }
      if !s.quit && Looker(s) {
        var j :| 0 <= j < |s.threads| && s.threads[j].Looks?;
        assert t.threads[j].Looks?;
      }
    case Process =>
      AwakeUpdate(s.threads, 0, Looks);
      assert t.threads[0].Looks?;
    case Finish(i, threw) =>
      AwakeUpdate(s.threads, i, Ends(s.threads[i].x, threw));
      SameLookers(s, t, i);
    case Wakes(i) =>
      AwakeUpdate(s.threads, i, Looks);
      assert t.threads[i].Looks?;
    case _ =>
  }

  lemma SameLookers(s: State, t: State, i: nat)
    requires i < |s.threads| && !s.threads[i].Looks? && |t.threads| == |s.threads|
    requires forall j :: 0 <= j < |s.threads| && j != i ==> t.threads[j] == s.threads[j]
    ensures Looker(s) ==> Looker(t)
  {
    if Looker(s) {
      var j :| 0 <= j < |s.threads| && s.threads[j].Looks?;
      assert t.threads[j].Looks?;
    }
  }

  lemma StepKeepsStages(s: State, step: Step)
    requires Inv(s) && Next(s, step).Some? && !step.Turn?
    ensures Stages(Next(s, step).value)
  {
    hide Items, FirstThrown, Hands, AwakeCount, Looked, Ended, ExactlyOnce, NoLostWakeup;
  }

  lemma StepKeepsVerdict(s: State, step: Step)
    requires Inv(s) && Next(s, step).Some? && !step.Turn?
    ensures Verdict(Next(s, step).value)
  {
    hide Items, FirstThrown, Hands, AwakeCount, Looked, Ended, ExactlyOnce, NoLostWakeup;
  }

  lemma StepKeepsInv(s: State, step: Step)
    requires Inv(s) && Next(s, step).Some?
    ensures Inv(Next(s, step).value)
  {
    hide ExactlyOnce, NoLostWakeup, Stages, Verdict;
    StepKeepsOnce(s, step);
    if step.Turn? {
      TurnKeepsVerdict(s, step.i);
      TurnKeepsStages(s, step.i);
      TurnKeepsWakeups(s, step.i);
    } else {
      StepKeepsWakeups(s, step);
      StepKeepsStages(s, step);
      StepKeepsVerdict(s, step);
    }
  }

  /** The state after a whole run, or None when some step of it cannot happen. */
  function After(s: State, steps: seq<Step>): Option<State>
    decreases |steps|
  {
    if steps == [] then Some(s) else
    match Next(s, steps[0])
    case Some(t) => After(t, steps[1..])
    case None => None
  }

  lemma {:induction false} RunKeepsInv(s: State, steps: seq<Step>)
    requires Inv(s) && After(s, steps).Some?
    ensures Inv(After(s, steps).value)
    decreases |steps|
  {
    hide Inv, Next;
    if steps != [] {
      StepKeepsInv(s, steps[0]);
      RunKeepsInv(Next(s, steps[0]).value, steps[1..]);
    }
  }

  /** Every reachable state of every run, for every thread limit; the caller of process
      and the workers together never exceed it. */
  lemma Reachable(maxThreads: nat, steps: seq<Step>)
    requires maxThreads > 0 && After(Init(maxThreads), steps).Some?
    ensures Inv(After(Init(maxThreads), steps).value)
  {
    InitInv(maxThreads);
    RunKeepsInv(Init(maxThreads), steps);
  }

  lemma InitInv(maxThreads: nat)
    ensures Inv(Init(maxThreads))
  {
    assert [Outside][1..] == [];
  }

  /** process returns normally only when every item that was ever accepted, items
      enqueued by items included, ran exactly once, none threw and none is running. */
  lemma ReturnMeansAllRan(s: State)
    requires Inv(s) && s.phase.Returned?
    ensures Items(s.outcomes) == multiset(s.accepted)
    ensures forall i :: 0 <= i < |s.outcomes| ==> !s.outcomes[i].threw
    ensures forall i :: 0 <= i < |s.threads| ==> !s.threads[i].Runs? && !s.threads[i].Ends?
  {
    hide Items, Hands;
    HandsEmpty(s.threads);
    assert s.accepted == s.begun;
    NobodyThrew(s.outcomes);
  }

  lemma {:induction false} NobodyThrew(outcomes: seq<Outcome>)
    requires FirstThrown(outcomes).None?
    ensures forall i :: 0 <= i < |outcomes| ==> !outcomes[i].threw
  {
    if outcomes != [] {
      NobodyThrew(outcomes[..|outcomes| - 1]);
    }
  }

  /** When process rethrows, it is the first exception any item threw, and every worker
      has exited. */
  lemma ThrowMeansJoined(s: State)
    requires Inv(s) && s.phase.Thrown?
    ensures s.exception.Some? && s.exception == FirstThrown(s.outcomes)
    ensures forall i :: 0 <= i < |s.threads| ==> s.threads[i].Exited?
  {
  }

  /** The assertion in process: doWork has returned only because of a quit. */
  lemma QuitWhenDeciding(s: State)
    requires Inv(s) && Next(s, Decide).Some?
    ensures s.quit
    ensures s.exception.None? ==> s.pending == [] && s.active == 0
  {
  }

  // ----------------------------------------------------------------- progress

  /** Steps the threads take by themselves; how long an item runs, and when the caller
      enqueues, starts or destroys, is not theirs. */
  predicate Own(s: State, step: Step) {
    step.Turn? || step.Decide? || step.NotifyQuit? || step.Join? || (step.BeginShutdown? && s.phase.Failing?)
  }

  ghost predicate Stuck(s: State) {
    forall step :: Own(s, step) ==> Next(s, step).None?
  }

  function Busy(ts: seq<Thread>): (n: nat)
    ensures n <= |ts|
  {
    if ts == [] then 0 else (if ts[0].Looks? || ts[0].Ends? then 1 else 0) + Busy(ts[1..])
  }

  lemma {:induction false} BusyUpdate(ts: seq<Thread>, i: nat, t: Thread)
    requires i < |ts|
    ensures Busy(ts[i := t]) + (if ts[i].Looks? || ts[i].Ends? then 1 else 0) ==
            Busy(ts) + (if t.Looks? || t.Ends? then 1 else 0)
  {
    if i == 0 {
      assert ts[0 := t][1..] == ts[1..];
    } else {
      BusyUpdate(ts[1..], i - 1, t);
      assert ts[i := t][1..] == ts[1..][i - 1 := t];
    }
  }

  function PhaseWork(phase: Phase, n: nat): nat {
    match phase
    case Working => n + 4
    case Failing => n + 3
    case Notifying(_) => n + 2
    case Joining(_) => 1
    case _ => 0
  }

  /** What the threads have left to do by themselves: each wakes all sleepers at most once
      for an exception, once for a drained queue and once for a shutdown. */
  function Work(s: State): nat {
    Busy(s.threads) + (if s.quit then 0 else |s.threads|) + (if s.exception.Some? then 0 else |s.threads|) +
    PhaseWork(s.phase, |s.threads|)
  }

  lemma EndedWork(s: State, i: nat)
    requires i < |s.threads| && s.threads[i].Ends? && s.active > 0
    ensures Work(Ended(s, i)) <= Work(s) && |Ended(s, i).threads| == |s.threads| && Ended(s, i).threads[i].Looks?
  {
    hide Busy;
    BusyUpdate(s.threads, i, Looks);
  }

  lemma LookedWork(s: State, i: nat)
    requires i < |s.threads| && (s.threads[i].Looks? || s.threads[i].Ends?)
    ensures Work(Looked(s, i)) < Work(s) && |Looked(s, i).threads| == |s.threads|
  {
    hide Busy;
    var t := Looked(s, i).threads[i];
    BusyUpdate(s.threads, i, t);
    BusyUpdate(WakeAll(s.threads), i, Exited);
    BusyWoken(s.threads, i);
  }

  lemma {:induction false} BusyWoken(ts: seq<Thread>, i: nat)
    requires i < |ts| && (ts[i].Looks? || ts[i].Ends?)
    ensures WakeAll(ts)[i] == ts[i] && Busy(ts) >= 1
  {
    BusyUpdate(ts, i, Exited);
  }

  /** Between what callers do and items ending, the threads' own steps come to an end. */
  lemma OwnStepsTerminate(s: State, step: Step)
    requires Own(s, step) && Next(s, step).Some?
    ensures Work(Next(s, step).value) < Work(s)
  {
    hide Busy, Looked, Ended, WorkersExited, WakeAll;
    match step
    case Turn(i) =>
      if s.threads[i].Ends? && s.active > 0 {
        EndedWork(s, i);
        LookedWork(Ended(s, i), i);
      } else {
        EndedIdle(s, i);
        LookedWork(s, i);
      }
    case _ =>
  }

  lemma EndedIdle(s: State, i: nat)
    requires i < |s.threads| && !(s.threads[i].Ends? && s.active > 0)
    ensures Ended(s, i) == s
  {
  }

  /** Nothing deadlocks: while process or a shutdown is under way, the threads stop by
      themselves only to wait for a running item. */
  lemma WaitsOnlyForItems(s: State)
    requires Inv(s) && Stuck(s)
    requires s.phase.Working? || s.phase.Failing? || s.phase.Notifying? || s.phase.Joining?
    ensures exists i :: 0 <= i < |s.threads| && s.threads[i].Runs?
  {
    hide Items, Hands, AwakeCount, Looked, Ended;
    assert Own(s, Decide) && Own(s, NotifyQuit) && Own(s, Join) && (s.phase.Failing? ==> Own(s, BeginShutdown));
    assert Next(s, Decide).None? && Next(s, NotifyQuit).None? && Next(s, Join).None?;
    assert s.phase.Failing? ==> Next(s, BeginShutdown).None?;
    NobodyTurns(s);
    HandsEmpty(s.threads);
    EmptyHands(Hands(s.threads));
    assert !Looker(s);
  }

  lemma EmptyHands(h: multiset<Item>)
    ensures |h| == 0 <==> h == multiset{}
  {
  }

  lemma NobodyTurns(s: State)
    requires Stuck(s)
    ensures forall i :: 0 <= i < |s.threads| ==> !s.threads[i].Looks? && !s.threads[i].Ends?
  {
    forall i | 0 <= i < |s.threads| ensures !s.threads[i].Looks? && !s.threads[i].Ends? {
      assert Own(s, Turn(i)) && Next(s, Turn(i)).None?;
    }
  }

  /** Pending work never sits beside sleeping threads alone: if nothing moves by itself
      and somebody sleeps, at least as many items are running as are pending. */
  lemma {:induction false} PendingWorkIsAwaited(s: State)
    requires Inv(s) && Stuck(s) && !s.quit && Sleeper(s)
    ensures |s.pending| <= s.active
  {
    hide Hands, Items;
    NobodyTurns(s);
    AwakeAreHands(s.threads);
  }

  lemma {:induction false} AwakeAreHands(ts: seq<Thread>)
    requires forall i :: 0 <= i < |ts| ==> !ts[i].Looks?
    ensures AwakeCount(ts) == |Hands(ts)|
  {
    if ts != [] {
      AwakeAreHands(ts[1..]);
    }
  }

  // ------------------------------------------------- what callers and items did

  /** What a caller hands to the pool, unless it quits, and how an item ends. */
  function Hand1(s: State, step: Step): seq<Item> {
    if step.Enqueue? && !s.quit then [step.x] else []
  }

  function Report1(s: State, step: Step): multiset<Outcome> {
    if step.Finish? && step.i < |s.threads| && s.threads[step.i].Runs?
    then multiset{Outcome(s.threads[step.i].x, step.threw)} else multiset{}
  }

  function Handed(s: State, steps: seq<Step>): seq<Item>
    decreases |steps|
  {
    if steps == [] || Next(s, steps[0]).None? then []
    else Hand1(s, steps[0]) + Handed(Next(s, steps[0]).value, steps[1..])
  }

  function Reports(s: State, steps: seq<Step>): multiset<Outcome>
    decreases |steps|
  {
    if steps == [] || Next(s, steps[0]).None? then multiset{}
    else Report1(s, steps[0]) + Reports(Next(s, steps[0]).value, steps[1..])
  }

  function Due(t: Thread): multiset<Outcome> {
    if t.Ends? then multiset{Outcome(t.x, t.threw)} else multiset{}
  }

  /** Ended, and not yet reported under the mutex. */
  function Dues(ts: seq<Thread>): multiset<Outcome> {
    if ts == [] then multiset{} else Due(ts[0]) + Dues(ts[1..])
  }

  lemma {:induction false} DuesUpdate(ts: seq<Thread>, i: nat, t: Thread)
    requires i < |ts|
    ensures Dues(ts[i := t]) + Due(ts[i]) == Dues(ts) + Due(t)
  {
    hide Due;
    if i == 0 {
      assert ts[0 := t][1..] == ts[1..];
    } else {
      DuesUpdate(ts[1..], i - 1, t);
      assert ts[i := t][1..] == ts[1..][i - 1 := t];
      Shift(Due(ts[0]), Dues(ts[1..]), Due(ts[i]), Dues(ts[1..][i - 1 := t]), Due(t));
    }
  }

  lemma DuesSame(ts: seq<Thread>, i: nat, t: Thread)
    requires i < |ts| && Due(t) == Due(ts[i])
    ensures Dues(ts[i := t]) == Dues(ts)
  {
    DuesUpdate(ts, i, t);
    Cancel(Dues(ts), Dues(ts[i := t]), Due(t));
  }

  lemma {:induction false} DuesSpawn(ts: seq<Thread>)
    ensures Dues(ts + [Looks]) == Dues(ts)
  {
    if ts != [] {
      DuesSpawn(ts[1..]);
      assert (ts + [Looks])[1..] == ts[1..] + [Looks];
    }
  }

  lemma {:induction false} DuesWake(ts: seq<Thread>)
    ensures Dues(WakeAll(ts)) == Dues(ts)
  {
    hide WakeAll;
    if ts == [] {
      assert WakeAll(ts) == ts;
    } else {
      DuesWake(ts[1..]);
      WakeAllFirst(ts);
    }
  }

  /** Reported and due together. */
  function Told(s: State): multiset<Outcome> {
    multiset(s.outcomes) + Dues(s.threads)
  }

  lemma SameTold(s: State, t: State)
    requires t.outcomes == s.outcomes && Dues(t.threads) == Dues(s.threads)
    ensures Told(t) == Told(s)
  {
  }

  lemma EndedTells(s: State, i: nat)
    requires i < |s.threads| && (s.threads[i].Ends? ==> s.active > 0)
    ensures Told(Ended(s, i)) == Told(s)
  {
    hide WakeAll, Dues;
    if s.threads[i].Ends? {
      var o := Outcome(s.threads[i].x, s.threads[i].threw);
      DuesUpdate(s.threads, i, Looks);
      DuesWake(s.threads[i := Looks]);
      assert multiset(s.outcomes + [o]) == multiset(s.outcomes) + multiset{o};
      assert Told(Ended(s, i)) == multiset(s.outcomes) + (Dues(s.threads[i := Looks]) + multiset{o});
    }
  }

  lemma LookedTells(s: State, i: nat)
    requires i < |s.threads| && s.threads[i].Looks?
    ensures Told(Looked(s, i)) == Told(s)
  {
    WokenLooks(s.threads, i);
    hide WakeAll, Dues, Told;
    if s.quit {
      DuesSame(s.threads, i, Exited);
    } else if s.pending != [] {
      DuesSame(s.threads, i, Runs(s.pending[0]));
    } else if s.active == 0 && s.draining {
      DuesWake(s.threads);
      DuesSame(WakeAll(s.threads), i, Exited);
    } else {
      DuesSame(s.threads, i, Sleeps);
    }
    SameTold(s, Looked(s, i));
  }

  lemma FinishTells(s: State, i: nat, threw: bool)
    requires Next(s, Finish(i, threw)).Some?
    ensures Told(Next(s, Finish(i, threw)).value) == Told(s) + Report1(s, Finish(i, threw))
  {
    hide Dues;
    DuesUpdate(s.threads, i, Ends(s.threads[i].x, threw));
    var t := Next(s, Finish(i, threw)).value;
    var o := Outcome(s.threads[i].x, threw);
    assert Dues(t.threads) + multiset{} == Dues(s.threads) + multiset{o};
    Assoc(multiset(s.outcomes), Dues(s.threads), multiset{o});
  }

  lemma Assoc<T>(a: multiset<T>, b: multiset<T>, c: multiset<T>)
    ensures a + b + c == a + (b + c)
  {
  }

  lemma EnqueueTells(s: State, x: Item, woken: Option<nat>)
    requires Next(s, Enqueue(x, woken)).Some?
    ensures Told(Next(s, Enqueue(x, woken)).value) == Told(s)
    ensures Next(s, Enqueue(x, woken)).value.accepted == s.accepted + Hand1(s, Enqueue(x, woken))
  {
    hide Dues, Told;
    DuesSpawn(s.threads);
    if woken.Some? {
      DuesSame(s.threads, woken.value, Looks);
      DuesSame(s.threads + [Looks], woken.value, Looks);
    }
    SameTold(s, Next(s, Enqueue(x, woken)).value);
  }

  lemma StepTells(s: State, step: Step)
    requires ExactlyOnce(s) && Stages(s) && Next(s, step).Some?
    ensures Told(Next(s, step).value) == Told(s) + Report1(s, step)
    ensures Next(s, step).value.accepted == s.accepted + Hand1(s, step)
  {
    hide Dues, Told, ExactlyOnce, Stages, Ended, Looked, Enqueued, WakeAll;
    var t := Next(s, step).value;
    match step
    case Turn(i) => TurnTells(s, i);
    case Finish(i, threw) => FinishTells(s, i, threw);
    case Enqueue(x, woken) => EnqueueTells(s, x, woken);
    case Wakes(i) =>
      DuesSame(s.threads, i, Looks);
      SameTold(s, t);
    case Process =>
      OutsideAtFirst(s);
      DuesSame(s.threads, 0, Looks);
      SameTold(s, t);
    case NotifyQuit =>
      DuesWake(s.threads);
      SameTold(s, t);
    case _ => SameTold(s, t);
  }

  lemma TurnTells(s: State, i: nat)
    requires ExactlyOnce(s) && i < |s.threads| && (s.threads[i].Looks? || s.threads[i].Ends?)
    ensures i < |Ended(s, i).threads| && Told(Looked(Ended(s, i), i)) == Told(s)
    ensures Looked(Ended(s, i), i).accepted == s.accepted
  {
    EndedLooks(s, i);
    if s.threads[i].Ends? {
      HandPositive(s.threads, i);
    }
    EndedTells(s, i);
    LookedTells(Ended(s, i), i);
  }

  /** Over whole runs: the pool accepts exactly the items handed to it before it quits, in
      that order, and what it knows of how items ended is exactly how they ended. */
  lemma {:induction false} RunsTellExactly(s: State, steps: seq<Step>)
    requires Inv(s) && After(s, steps).Some?
    ensures var t := After(s, steps).value;
      t.accepted == s.accepted + Handed(s, steps) && Told(t) == Told(s) + Reports(s, steps)
    decreases |steps|
  {
    FirstTells(s, steps);
    hide Inv, Next, Told, Handed, Reports, Hand1, Report1, ExactlyOnce, Stages;
    if steps != [] {
      var t := Next(s, steps[0]).value;
      StepKeepsInv(s, steps[0]);
      RunsTellExactly(t, steps[1..]);
      InvParts(s);
      StepTells(s, steps[0]);
      Assoc(Told(s), Report1(s, steps[0]), Reports(t, steps[1..]));
    } else {
      assert Told(s) + multiset{} == Told(s);
    }
  }

  lemma FirstTells(s: State, steps: seq<Step>)
    ensures steps == [] ==> Handed(s, steps) == [] && Reports(s, steps) == multiset{}
    ensures steps != [] && Next(s, steps[0]).Some? ==>
      Handed(s, steps) == Hand1(s, steps[0]) + Handed(Next(s, steps[0]).value, steps[1..]) &&
      Reports(s, steps) == Report1(s, steps[0]) + Reports(Next(s, steps[0]).value, steps[1..])
  {
    hide Next;
  }

  lemma InvParts(s: State)
    requires Inv(s)
    ensures ExactlyOnce(s) && Stages(s)
  {
    hide ExactlyOnce, Stages;
  }

  lemma {:induction false} FirstThrownThrew(outcomes: seq<Outcome>)
    requires FirstThrown(outcomes).Some?
    ensures Outcome(FirstThrown(outcomes).value, true) in multiset(outcomes)
  {
    var n := |outcomes| - 1;
    assert outcomes == outcomes[..n] + [outcomes[n]];
    if FirstThrown(outcomes[..n]).Some? {
      FirstThrownThrew(outcomes[..n]);
      assert Outcome(FirstThrown(outcomes).value, true) in multiset(outcomes[..n]);
    }
  }

  /** process returns normally only if everything handed to the pool ran and nothing threw,
      and what it rethrows is an exception some item threw in this run. */
  lemma ProcessTellsTheTruth(maxThreads: nat, steps: seq<Step>)
    requires After(Init(maxThreads), steps).Some?
    ensures var t := After(Init(maxThreads), steps).value;
      (t.phase.Returned? ==>
        (forall o :: o in Reports(Init(maxThreads), steps) ==> !o.threw) &&
        Items(t.outcomes) == multiset(Handed(Init(maxThreads), steps))) &&
      (t.phase.Thrown? ==>
        t.exception.Some? && Outcome(t.exception.value, true) in Reports(Init(maxThreads), steps))
  {
    hide Inv, After, Next, Reports, Handed, Dues, Items;
    InitInv(maxThreads);
    RunKeepsInv(Init(maxThreads), steps);
    RunsTellExactly(Init(maxThreads), steps);
    NothingTold(maxThreads);
    var t := After(Init(maxThreads), steps).value;
    assert multiset(t.outcomes) + Dues(t.threads) == Reports(Init(maxThreads), steps);
    if t.phase.Returned? {
      ReturnMeansAllRan(t);
      NothingDue(t.threads);
      assert forall o :: o in Reports(Init(maxThreads), steps) ==> o in t.outcomes;
    } else if t.phase.Thrown? {
      ThrowMeansJoined(t);
      FirstThrownThrew(t.outcomes);
    }
  }

  lemma NothingTold(maxThreads: nat)
    ensures Told(Init(maxThreads)) == multiset{}
  {
  }

  lemma {:induction false} NothingDue(ts: seq<Thread>)
    requires forall i :: 0 <= i < |ts| ==> !ts[i].Ends?
    ensures Dues(ts) == multiset{}
  {
    if ts != [] {
      NothingDue(ts[1..]);
    }
  }

  // ------------------------------------------------------------ enough threads

  /** Work is spread: there are as many threads as pending items or as many as allowed, and
      none is started that never had an item to come for. */
  predicate Spread(s: State) {
    (|s.pending| <= |s.threads| || |s.threads| >= s.maxThreads) &&
    (|s.threads| <= 1 || |s.threads| <= |s.accepted|)
  }

  lemma TurnSpreads(s: State, i: nat)
    requires Spread(s) && i < |s.threads|
    ensures |Ended(s, i).threads| == |s.threads| && Spread(Ended(s, i)) && Spread(Looked(Ended(s, i), i))
  {
  }

  lemma EnqueueSpreads(s: State, x: Item, woken: Option<nat>)
    requires Spread(s) && |s.pending| <= |s.accepted| && (woken.Some? ==> woken.value < |s.threads|)
    ensures Spread(Enqueued(s, x, woken))
  {
  }

  lemma PendingWereAccepted(s: State)
    requires ExactlyOnce(s)
    ensures |s.pending| <= |s.accepted|
  {
    hide Hands, Items;
  }

  lemma StepSpreads(s: State, step: Step)
    requires ExactlyOnce(s) && Spread(s) && Next(s, step).Some?
    ensures Spread(Next(s, step).value)
  {
    hide ExactlyOnce, WakeAll, Enqueued, Ended, Looked;
    PendingWereAccepted(s);
    match step
    case Turn(i) => TurnSpreads(s, i);
    case Enqueue(x, woken) =>
      if !s.quit {
        EnqueueSpreads(s, x, woken);
      }
    case NotifyQuit => WokenCount(s.threads);
    case _ =>
  }

  lemma WokenCount(ts: seq<Thread>)
    ensures |WakeAll(ts)| == |ts|
  {
  }

  lemma {:induction false} RunSpreads(s: State, steps: seq<Step>)
    requires Inv(s) && Spread(s) && After(s, steps).Some?
    ensures Spread(After(s, steps).value)
    decreases |steps|
  {
    hide Inv, Next, Spread;
    if steps != [] {
      InvParts(s);
      StepSpreads(s, steps[0]);
      StepKeepsInv(s, steps[0]);
      RunSpreads(Next(s, steps[0]).value, steps[1..]);
    }
  }

  /** In every run the pool has as many threads as it may while items wait for one. */
  lemma EnoughThreads(maxThreads: nat, steps: seq<Step>)
    requires After(Init(maxThreads), steps).Some?
    ensures Spread(After(Init(maxThreads), steps).value)
  {
    InitInv(maxThreads);
    RunSpreads(Init(maxThreads), steps);
  }

  /** Once the pool quits, for an exception or because it is drained or destroyed, no item
      begins and none is accepted. */
  lemma QuitIsFinal(s: State, step: Step)
    requires s.quit && Next(s, step).Some?
    ensures var t := Next(s, step).value;
      t.quit && t.begun == s.begun && t.accepted == s.accepted && t.pending == s.pending
  {
    hide WakeAll;
  }

  /** A shutdown notifies exactly if there are workers nobody has reaped, and one that finds
      none is over at once and leaves nobody behind: a second one does nothing. */
  lemma ShutdownReapsOnce(s: State)
    requires Inv(s) && Next(s, BeginShutdown).Some?
    ensures var t := Next(s, BeginShutdown).value;
      (t.phase.Notifying? <==> |s.threads| > 1 && !s.reaped) &&
      (!t.phase.Notifying? ==> WorkersExited(t.threads) && (t.phase.Thrown? || t.phase.Gone?)) &&
      (s.phase.Thrown? ==> t == s.(phase := Gone))
  {
    hide ExactlyOnce, NoLostWakeup, Verdict;
  }

  /** Callers are served: an item can always be handed in, and an item that runs can end
      either way. */
  lemma CallersAreServed(s: State, x: Item, i: nat, threw: bool) returns (woken: Option<nat>)
    ensures Next(s, Enqueue(x, woken)).Some?
    ensures i < |s.threads| && s.threads[i].Runs? ==> Next(s, Finish(i, threw)).Some?
  {
    woken := None;
    if !NobodySleeps(s.threads) {
      var j :| 0 <= j < |s.threads| && s.threads[j].Sleeps?;
      woken := Some(j);
    }
  }

  // ------------------------------------------------------------ the pool itself

  /** The fields behind the pool's mutex, one method for each stretch of code under it;
      the ghost fields say where the threads are and what happened so far. */
  class Pool {
    const maxThreads: nat
    var pending: seq<Item>
    var active: nat
    var exception: Option<Item>
    var quit: bool
    var draining: bool
    var reaped: bool
    var workers: nat
    ghost var threads: seq<Thread>
    ghost var phase: Phase
    ghost var accepted: seq<Item>
    ghost var begun: seq<Item>
    ghost var outcomes: seq<Outcome>

    ghost predicate Valid()
      reads this
    {
      workers + 1 == |threads|
    }

    ghost function Now(): State
      reads this
    {
      State(maxThreads, pending, active, exception, quit, draining, reaped, threads, phase, accepted, begun, outcomes)
    }

    constructor (maxThreads: nat)
      ensures Valid() && Now() == Init(maxThreads)
    {
      this.maxThreads := maxThreads;
      pending, active, exception, quit, draining, reaped, workers := [], 0, None, false, false, false, 0;
      threads, phase, accepted, begun, outcomes := [Outside], Before, [], [], [];
    }

    /** False where the source throws ThreadPoolShutDown. `woken` is whom the notify hits. */
    method Enqueue(x: Item, ghost woken: Option<nat>) returns (ok: bool)
      requires Valid() && Next(Now(), Step.Enqueue(x, woken)).Some?
      modifies this
      ensures Valid() && Some(Now()) == Next(old(Now()), Step.Enqueue(x, woken))
      ensures ok == !old(quit)
    {
      if quit {
        return false;
      }
      pending := pending + [x];
      accepted := accepted + [x];
      if |pending| > workers + 1 && workers + 1 < maxThreads {
        workers := workers + 1;
        threads := threads + [Looks];
      }
      if woken.Some? {
        threads := threads[woken.value := Looks];
      }
      return true;
    }

    method StartDraining()
      requires Valid() && phase.Before?
      modifies this
      ensures Valid() && Some(Now()) == Next(old(Now()), Process)
    {
      draining := true;
      phase, threads := Working, threads[0 := Looks];
    }

    /** The first half of doWork's critical section, after an item. */
    method Settle(i: nat, ended: Outcome)
      requires Valid() && i < |threads| && threads[i] == Ends(ended.item, ended.threw) && active > 0
      modifies this
      ensures Valid() && Now() == Ended(old(Now()), i)
    {
      active := active - 1;
      threads, outcomes := threads[i := Looks], outcomes + [ended];
      if ended.threw && exception.None? {
        exception := Some(ended.item);
        quit := true;
        threads := WakeAll(threads);
      }
    }

    /** The second half: None when the thread went to sleep or left. */
    method Look(i: nat) returns (w: Option<Item>)
      requires Valid() && i < |threads|
      modifies this
      ensures Valid() && Now() == Looked(old(Now()), i)
      ensures i < |threads| && w == if threads[i].Runs? then Some(threads[i].x) else None
    {
      if quit {
        threads := threads[i := Exited];
        return None;
      }
      if pending != [] {
        w := Some(pending[0]);
        begun, pending := begun + [pending[0]], pending[1..];
        active := active + 1;
        threads := threads[i := Runs(w.value)];
        return;
      }
      if active == 0 && draining {
        quit := true;
        threads := WakeAll(threads)[i := Exited];
        return None;
      }
      threads := threads[i := Sleeps];
      return None;
    }

    /** doWork's critical section: settle the item that ended, if any, then take the next
        one. */
    method Turn(i: nat, ended: Option<Outcome>) returns (w: Option<Item>)
      requires Valid() && i < |threads| && (threads[i].Looks? || threads[i].Ends?)
      requires ended == if threads[i].Ends? then Some(Outcome(threads[i].x, threads[i].threw)) else None
      requires ended.Some? ==> active > 0
      modifies this
      ensures Valid() && Some(Now()) == Next(old(Now()), Step.Turn(i))
      ensures i < |threads| && w == if threads[i].Runs? then Some(threads[i].x) else None
    {
      hide Looked;
      if ended.Some? {
        Settle(i, ended.value);
      }
      w := Look(i);
    }

    /** process after doWork: whether there is an exception to rethrow. */
    method Decide() returns (failing: bool)
      requires Valid() && Next(Now(), Step.Decide).Some?
      modifies this
      ensures Valid() && Some(Now()) == Next(old(Now()), Step.Decide)
      ensures failing == phase.Failing?
    {
      failing := exception.Some?;
      phase := if failing then Failing else Returned;
    }

    /** shutdown up to the notify: false when there are no workers to reap. */
    method BeginShutdown() returns (reap: bool)
      requires Valid() && Next(Now(), Step.BeginShutdown).Some?
      modifies this
      ensures Valid() && Some(Now()) == Next(old(Now()), Step.BeginShutdown)
      ensures reap == phase.Notifying?
    {
      reap := !reaped && workers > 0;
      quit, reaped := true, true;
      phase := if reap then Notifying(phase.Failing?) else if phase.Failing? then Thrown else Gone;
    }

    method NotifyQuit()
      requires Valid() && phase.Notifying?
      modifies this
      ensures Valid() && Some(Now()) == Next(old(Now()), Step.NotifyQuit)
    {
      threads, phase := WakeAll(threads), Joining(phase.thrown);
    }
  }
}
