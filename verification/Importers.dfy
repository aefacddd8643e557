/** Any number of concurrent imports into one store, each through PathLocks: streams
    restored in place after their digest was announced, and streams restored aside and
    moved once their digest names them. */
module Importers {
  import opened Results
  import opened Wire
  import opened Nar
  import opened Hashes
  import opened PathLocks
  import Locks = PathLocks

  /** What a name in the store directory leads to: something unfinished, or all of a tree. */
  datatype Node = Partial | Complete(tree: Tree)

  /** A row of the database: the name part of the path and the digest of its archive. */
  datatype Info = Info(name: bytes, narHash: Hash)

  /** How name and digest make a store path. */
  type PathOf = (bytes, Hash) -> Path

  /** Announced: addToStore, with the digest, the size and so the path known before.
      FromDump: addToStoreFromDump, which learns them from the stream. */
  datatype Job =
    | Announced(name: bytes, narHash: Hash, narSize: nat)
    | FromDump(name: bytes)

  datatype Stage =
    | Start
    | FirstCheck
    | Locking
    | SecondCheck
    | Clearing
    | Cleared
    | Filling
    | Filled(tree: Tree)
    | Registering(tree: Tree)
    | Marking
    | Failing
    | Unlocking(threw: bool)
    | Done
    | Threw

  /** `given` and `registered` are the history: the tree a FromDump import found in its
      stream, and the tree an import has registered. */
  datatype Import = Import(
    job: Job, stage: Stage, path: Path, temp: Option<Tree>, given: Option<Tree>, registered: Option<Tree>)

  datatype Store = Store(locks: Sys, disk: map<Path, Node>, valid: map<Path, Info>, imports: seq<Import>)

  datatype Act =
    | Begin(streamed: Option<Tree>)
    | CheckValid
    | LockStep(x: Step)
    | Enter
    | CheckAgain
    | StartClearing
    | EndClearing
    | StartFilling
    | EndFilling(streamed: Option<Tree>)
    | Move
    | Verify
    | Register
    | Mark
    | Fail
    | UnlockStep(x: Step)
    | Leave
    | Die

  predicate IsLockStep(x: Step, i: nat, path: Path) {
    x.i == i &&
    match x
    case Lock(_, paths, wait) => paths == [path] && wait
    case Open(_, _) => true
    case Try(_) => true
    case Block(_) => true
    case Interrupt(_) => true
    case Check(_) => true
    case CloseOld(_) => true
    case _ => false
  }

  predicate IsUnlockStep(x: Step, i: nat) {
    x.i == i && (x.Unlock? || x.UnlinkFile? || x.WriteToken? || x.Release?)
  }

  function With(s: Store, i: nat, m: Import): Store
    requires i < |s.imports|
  {
    s.(imports := s.imports[i := m])
  }

  function WithLocks(s: Store, x: Step): Option<Store> {
    match Next(s.locks, x)
    case Some(l) => Some(s.(locks := l))
    case None => None
  }

  /** Import `i` takes its next step, or None where it cannot. */
  function Step1(s: Store, i: nat, a: Act, sha: Sha, pathOf: PathOf): Option<Store>
    requires i < |s.imports| == |s.locks.lockers|
  {
    var m := s.imports[i];
    var l := s.locks.lockers[i];
    match (m.stage, a)
    case (Start, Begin(streamed)) =>
      (match m.job
       case Announced(name, narHash, _) => Some(With(s, i, m.(path := pathOf(name, narHash), stage := FirstCheck)))
       case FromDump(name) =>
         if streamed.None? then Some(With(s, i, m.(stage := Threw)))
         else Some(With(s, i, m.(temp := streamed, given := streamed, path := pathOf(name, sha(Dump(streamed.value))),
                                 stage := FirstCheck))))
    case (FirstCheck, CheckValid) => Some(With(s, i, m.(stage := if m.path in s.valid then Done else Locking)))
    case (Locking, LockStep(x)) =>
      if IsLockStep(x, i, m.path) && !CutShort(s.locks, x) then WithLocks(s, x) else None
    case (Locking, Enter) => if l.pc.Locked? then Some(With(s, i, m.(stage := SecondCheck))) else None
    case (SecondCheck, CheckAgain) => Some(With(s, i, m.(stage := if m.path in s.valid then Marking else Clearing)))
    case (Clearing, StartClearing) =>
      if m.path in s.disk then Some(s.(disk := s.disk[m.path := Partial])) else None
    case (Clearing, EndClearing) => Some(With(s, i, m.(stage := Cleared)).(disk := s.disk - {m.path}))
    case (Cleared, StartFilling) =>
      if m.job.FromDump? then None else Some(With(s, i, m.(stage := Filling)).(disk := s.disk[m.path := Partial]))
    case (Filling, EndFilling(streamed)) =>
      if streamed.None? then Some(With(s, i, m.(stage := Failing)))
      else Some(With(s, i, m.(stage := Filled(streamed.value))).(disk := s.disk[m.path := Complete(streamed.value)]))
    case (Filled(t), Verify) =>
      if m.job.FromDump? then None else
      var good := sha(Dump(t)) == m.job.narHash && |Dump(t)| == m.job.narSize;
      Some(With(s, i, m.(stage := if good then Registering(t) else Failing)))
    case (Cleared, Move) =>
      if !m.job.FromDump? || m.temp.None? then None
      else Some(With(s, i, m.(stage := Registering(m.temp.value), temp := None)).
                  (disk := s.disk[m.path := Complete(m.temp.value)]))
    case (Registering(t), Register) =>
      Some(With(s, i, m.(stage := Marking, registered := Some(t))).
             (valid := s.valid[m.path := Info(m.job.name, sha(Dump(t)))]))
    case (Marking, Mark) =>
      (match WithLocks(s, SetDeletion(i, true))
       case Some(t) => Some(With(t, i, m.(stage := Unlocking(false))))
       case None => None)
    case (_, Fail) =>
      if Critical(m.stage) then Some(With(s, i, m.(stage := Unlocking(true))))
      else if m.stage.Start? || m.stage.FirstCheck? then Some(With(s, i, m.(stage := Threw)))
      else None
    case (Unlocking(_), UnlockStep(x)) => if IsUnlockStep(x, i) then WithLocks(s, x) else None
    case (Unlocking(threw), Leave) =>
      if l.pc.Idle? then Some(With(s, i, m.(stage := if threw then Threw else Done))) else None
    case (_, Die) =>
      if Exposes(s.locks, i, false) then None else
      (match WithLocks(s, Crash(i))
       case Some(t) => Some(With(t, i, m.(stage := Threw)))
       case None => None)
    case _ => None
  }

  function After(s: Store, steps: seq<(nat, Act)>, sha: Sha, pathOf: PathOf): Option<Store>
    decreases |steps|
  {
    if steps == [] then Some(s)
    else if steps[0].0 >= |s.imports| || |s.imports| != |s.locks.lockers| then None
    else match Step1(s, steps[0].0, steps[0].1, sha, pathOf)
      case Some(t) => After(t, steps[1..], sha, pathOf)
      case None => None
  }

  /** Why the digest of a stream is taken from its tree: the bytes a parse consumed are
      the dump of the tree it returned, so hashing either comes to the same. */
  lemma StreamDigest(s: bytes, sha: Sha)
    requires ParseDump(s, false).Success?
    ensures var (t, rest) := ParseDump(s, false).value;
      |rest| <= |s| && Valid(t, 0) &&
      sha(s[..|s| - |rest|]) == sha(Dump(t)) && |s| - |rest| == |Dump(t)|
  {
    hide ParseDump, Dump, Valid;
    Canonicity(s);
    var (t, rest) := ParseDump(s, false).value;
    assert s[..|s| - |rest|] == Dump(t);
  }

  // --------------------------------------------------------------- invariants

  predicate Critical(stage: Stage) {
    stage.SecondCheck? || Changing(stage) || stage.Marking?
  }

  /** Between finding the path not valid and registering it. */
  predicate Changing(stage: Stage) {
    stage.Clearing? || stage.Cleared? || stage.Filling? || stage.Filled? || stage.Registering? || stage.Failing?
  }

  predicate BeforeLock(stage: Stage) {
    stage.FirstCheck? || stage.Locking?
  }

  predicate HoldsLock(l: Locker, path: Path) {
    l.pc.Locked? && |l.fds| == 1 && l.fds[0].path == path
  }

  predicate LockingOk(l: Locker, path: Path) {
    (l.pc.Idle? && l.fds == []) ||
    (l.paths == [path] && l.wait && ((Locks.Locking(l.pc) && l.fds == []) || HoldsLock(l, path)))
  }

  /** A valid path is on disk, whole, and its tree's digest gives it its name. */
  ghost predicate ValidOk(s: Store, sha: Sha, pathOf: PathOf) {
    forall p :: p in s.valid ==>
      p in s.disk && s.disk[p].Complete? && s.valid[p].narHash == sha(Dump(s.disk[p].tree)) &&
      p == pathOf(s.valid[p].name, s.valid[p].narHash)
  }

  predicate Ended(stage: Stage) {
    stage.Done? || stage.Threw?
  }

  /** On the way to reporting success. */
  predicate Succeeding(stage: Stage) {
    stage.Marking? || stage.Done? || (stage.Unlocking? && !stage.threw)
  }

  /** What an import has registered: under its own name, with the digest it was announced
      with or the one of the tree it was given, and that tree is on disk. */
  predicate RegisteredOk(s: Store, m: Import, sha: Sha) {
    m.registered.Some? ==>
      var t := m.registered.value;
      m.path in s.valid && s.valid[m.path] == Info(m.job.name, sha(Dump(t))) &&
      m.path in s.disk && s.disk[m.path] == Complete(t) && RightTree(m, t, sha)
  }

  predicate RightTree(m: Import, t: Tree, sha: Sha) {
    match m.job
    case Announced(_, narHash, narSize) => sha(Dump(t)) == narHash && |Dump(t)| == narSize
    case FromDump(_) => m.given == Some(t)
  }

  /** Which locks an import holds where. */
  predicate LocksOk(m: Import, l: Locker) {
    (Critical(m.stage) ==> HoldsLock(l, m.path)) &&
    (m.stage.Locking? ==> LockingOk(l, m.path)) &&
    (m.stage.Start? || m.stage.FirstCheck? || Ended(m.stage) ==> l.pc.Idle? && l.fds == []) &&
    (m.stage.Unlocking? ==> Locks.Unlocking(l.pc) || l.pc.Locked? || l.pc.Idle?) &&
    (m.stage.Unlocking? && !m.stage.threw ==> l.deletePaths)
  }

  /** What an import has made of disk and database: the path is not valid while it is being
      changed, and valid whenever success is reported. */
  predicate DiskOk(s: Store, m: Import, sha: Sha) {
    (Changing(m.stage) ==> m.path !in s.valid) &&
    (m.stage.Cleared? ==> m.path !in s.disk) &&
    (m.stage.Filled? || m.stage.Registering? ==> m.path in s.disk && s.disk[m.path] == Complete(m.stage.tree)) &&
    (Succeeding(m.stage) ==> m.path in s.valid) && RegisteredOk(s, m, sha)
  }

  /** What an import knows: its path is the one its job or its stream gives. */
  predicate JobOk(m: Import, sha: Sha, pathOf: PathOf) {
    (m.stage.Registering? ==> m.path == pathOf(m.job.name, sha(Dump(m.stage.tree))) && RightTree(m, m.stage.tree, sha)) &&
    (m.job.Announced? && !m.stage.Start? && !m.stage.Threw? ==> m.path == pathOf(m.job.name, m.job.narHash)) &&
    (m.job.FromDump? && !m.stage.Start? && !m.stage.Threw? ==>
      m.given.Some? && m.path == pathOf(m.job.name, sha(Dump(m.given.value)))) &&
    (m.temp.Some? ==> m.temp == m.given && m.job.FromDump? && m.path == pathOf(m.job.name, sha(Dump(m.temp.value)))) &&
    (m.stage.Filled? || m.stage.Filling? ==> m.job.Announced?) &&
    (m.stage.Start? || m.stage.Registering? || m.registered.Some? ==> m.temp.None?) &&
    (m.job.FromDump? && (BeforeLock(m.stage) || m.stage.SecondCheck? || m.stage.Clearing? || m.stage.Cleared?) ==>
      m.temp.Some?) &&
    (m.stage.Start? || m.stage.FirstCheck? || m.stage.Locking? || m.stage.SecondCheck? || Changing(m.stage) ==>
      m.registered.None?)
  }

  ghost predicate ImportOk(s: Store, i: nat, sha: Sha, pathOf: PathOf)
    requires i < |s.imports| == |s.locks.lockers|
  {
    LocksOk(s.imports[i], s.locks.lockers[i]) && DiskOk(s, s.imports[i], sha) && JobOk(s.imports[i], sha, pathOf)
  }

  ghost predicate Inv(s: Store, sha: Sha, pathOf: PathOf) {
    Locks.Inv(s.locks, false) && |s.imports| == |s.locks.lockers| && ValidOk(s, sha, pathOf) &&
    forall i :: 0 <= i < |s.imports| ==> ImportOk(s, i, sha, pathOf)
  }

  /** Two imports are never at work on one path. */
  lemma OneWorker(s: Store, i: nat, k: nat, sha: Sha, pathOf: PathOf)
    requires Inv(s, sha, pathOf) && i < |s.imports| && k < |s.imports|
    requires Critical(s.imports[i].stage) && Critical(s.imports[k].stage) && s.imports[i].path == s.imports[k].path
    ensures i == k
  {
    hide Locks.Inv, ValidOk;
    assert ImportOk(s, i, sha, pathOf) && ImportOk(s, k, sha, pathOf);
    MutualExclusion(s.locks, i, k, 0, 0, false);
  }

  // --------------------------------------------- a step seen by the other imports

  /** What a step of import `i` leaves to everybody else. */
  ghost predicate Polite1(s: Store, t: Store, i: nat) {
    i < |s.imports| == |t.imports| && |t.locks.lockers| == |s.locks.lockers| == |s.imports| &&
    (forall k :: 0 <= k < |s.imports| && k != i ==> t.imports[k] == s.imports[k] && t.locks.lockers[k] == s.locks.lockers[k]) &&
    (forall p :: p != s.imports[i].path || !Critical(s.imports[i].stage) ==>
      (p in s.disk <==> p in t.disk) && (p in s.disk ==> t.disk[p] == s.disk[p]) &&
      (p in s.valid <==> p in t.valid) && (p in s.valid ==> t.valid[p] == s.valid[p])) &&
    (forall p :: p in s.valid ==>
      p in t.valid && t.valid[p] == s.valid[p] && p in s.disk && p in t.disk && t.disk[p] == s.disk[p])
  }

  lemma OthersKeep(s: Store, t: Store, i: nat, k: nat, sha: Sha, pathOf: PathOf)
    requires Inv(s, sha, pathOf) && Polite1(s, t, i) && k < |s.imports| && k != i
    ensures ImportOk(t, k, sha, pathOf)
  {
    hide Locks.Inv, Dump, ValidOk;
    assert ImportOk(s, k, sha, pathOf);
    if Critical(s.imports[i].stage) && Critical(s.imports[k].stage) && s.imports[i].path == s.imports[k].path {
      OneWorker(s, i, k, sha, pathOf);
    }
  }

  lemma LocksMove(s: Sys, x: Step)
    requires Locks.Inv(s, false) && Next(s, x).Some? && Harmless(s, x, false)
    ensures var t := Next(s, x).value;
      Locks.Inv(t, false) && |t.lockers| == |s.lockers| &&
      forall k :: 0 <= k < |s.lockers| && k != x.i ==> t.lockers[k] == s.lockers[k]
  {
    hide Next, Locks.Inv, Exposes;
    StepKeepsInv(s, x, false);
  }

  /** The step of the lock protocol inside a step of an import. */
  function Inner(i: nat, a: Act): Option<Step> {
    match a
    case LockStep(x) => Some(x)
    case UnlockStep(x) => Some(x)
    case Mark => Some(SetDeletion(i, true))
    case Die => Some(Crash(i))
    case _ => None
  }

  lemma StepMovesLocks(s: Store, i: nat, a: Act, sha: Sha, pathOf: PathOf)
    requires Inv(s, sha, pathOf) && i < |s.imports| && Step1(s, i, a, sha, pathOf).Some?
    ensures var t := Step1(s, i, a, sha, pathOf).value;
      Locks.Inv(t.locks, false) && |t.locks.lockers| == |s.locks.lockers| &&
      forall k :: 0 <= k < |s.locks.lockers| && k != i ==> t.locks.lockers[k] == s.locks.lockers[k]
  {
    hide Next, Locks.Inv, Dump, ValidOk, ImportOk;
    if Inner(i, a).Some? {
      LocksMove(s.locks, Inner(i, a).value);
    }
  }

  lemma StepMovesOne(s: Store, i: nat, a: Act, sha: Sha, pathOf: PathOf)
    requires i < |s.imports| == |s.locks.lockers| && Step1(s, i, a, sha, pathOf).Some?
    ensures var t := Step1(s, i, a, sha, pathOf).value;
      |t.imports| == |s.imports| && forall k :: 0 <= k < |s.imports| && k != i ==> t.imports[k] == s.imports[k]
  {
    hide IsLockStep, IsUnlockStep, CutShort, Exposes, Next, Dump;
  }

  lemma StepIsPolite(s: Store, i: nat, a: Act, sha: Sha, pathOf: PathOf)
    requires Inv(s, sha, pathOf) && i < |s.imports| && Step1(s, i, a, sha, pathOf).Some?
    ensures Polite1(s, Step1(s, i, a, sha, pathOf).value, i)
  {
    hide Step1, Inv, Dump;
    SameLength(s, sha, pathOf);
    StepMovesLocks(s, i, a, sha, pathOf);
    StepMovesOne(s, i, a, sha, pathOf);
    StepEffect(s, i, a, sha, pathOf);
    forall p | p in s.valid
      ensures var t := Step1(s, i, a, sha, pathOf).value;
        p in t.valid && t.valid[p] == s.valid[p] && p in s.disk && p in t.disk && t.disk[p] == s.disk[p]
    {
      ValidPathsUntouched(s, i, a, sha, pathOf, p);
    }
  }

  lemma SameLength(s: Store, sha: Sha, pathOf: PathOf)
    requires Inv(s, sha, pathOf)
    ensures |s.imports| == |s.locks.lockers|
  {
  }

  lemma LocksOnly(s: Store, x: Step)
    requires WithLocks(s, x).Some?
    ensures Next(s.locks, x).Some?
    ensures WithLocks(s, x).value == s.(locks := Next(s.locks, x).value)
  {
    hide Next;
  }

  // ------------------------------------------------------- a step's own import

  lemma LockingMoves(s: Sys, x: Step, i: nat, path: Path)
    requires Locks.Inv(s, false) && i < |s.lockers| && IsLockStep(x, i, path) && Next(s, x).Some?
    requires LockingOk(s.lockers[i], path)
    ensures i < |Next(s, x).value.lockers| && LockingOk(Next(s, x).value.lockers[i], path)
  {
    hide Locks.Inv, Less;
  }

  predicate OnDisk(a: Act) {
    a.Begin? || a.CheckValid? || a.CheckAgain? || a.StartClearing? || a.EndClearing? || a.StartFilling? ||
    a.EndFilling? || a.Move? || a.Verify? || a.Register?
  }

  /** Steps on disk and database up to the restore, and from there on. */
  predicate Preparing(a: Act) {
    a.Begin? || a.CheckValid? || a.CheckAgain? || a.StartClearing? || a.EndClearing? || a.StartFilling?
  }

  lemma PreparingKeepsJob(s: Store, i: nat, a: Act, sha: Sha, pathOf: PathOf)
    requires i < |s.imports| == |s.locks.lockers| && Step1(s, i, a, sha, pathOf).Some? && Preparing(a)
    requires JobOk(s.imports[i], sha, pathOf)
    ensures |Step1(s, i, a, sha, pathOf).value.imports| == |s.imports|
    ensures JobOk(Step1(s, i, a, sha, pathOf).value.imports[i], sha, pathOf)
  {
    hide IsLockStep, IsUnlockStep, CutShort, Exposes, WithLocks, Dump, RightTree;
  }

  lemma RestoringKeepsJob(s: Store, i: nat, a: Act, sha: Sha, pathOf: PathOf)
    requires i < |s.imports| == |s.locks.lockers| && Step1(s, i, a, sha, pathOf).Some? && OnDisk(a) && !Preparing(a)
    requires JobOk(s.imports[i], sha, pathOf)
    ensures |Step1(s, i, a, sha, pathOf).value.imports| == |s.imports|
    ensures JobOk(Step1(s, i, a, sha, pathOf).value.imports[i], sha, pathOf)
  {
    hide IsLockStep, IsUnlockStep, CutShort, Exposes, WithLocks, Dump;
  }

  lemma PreparingIsEarly(s: Store, i: nat, a: Act, sha: Sha, pathOf: PathOf)
    requires i < |s.imports| == |s.locks.lockers| && Step1(s, i, a, sha, pathOf).Some? && Preparing(a)
    requires JobOk(s.imports[i], sha, pathOf)
    ensures s.imports[i].registered.None?
  {
    hide IsLockStep, IsUnlockStep, CutShort, Exposes, WithLocks, Dump, RightTree;
  }

  lemma PreparingKeepsDisk(s: Store, i: nat, a: Act, sha: Sha, pathOf: PathOf)
    requires i < |s.imports| == |s.locks.lockers| && Step1(s, i, a, sha, pathOf).Some? && Preparing(a)
    requires DiskOk(s, s.imports[i], sha) && s.imports[i].registered.None?
    ensures var t := Step1(s, i, a, sha, pathOf).value;
      |t.imports| == |s.imports| && t.locks == s.locks && DiskOk(t, t.imports[i], sha)
  {
    hide IsLockStep, IsUnlockStep, CutShort, Exposes, WithLocks, Dump, RightTree;
  }

  lemma RestoringKeepsDisk(s: Store, i: nat, a: Act, sha: Sha, pathOf: PathOf)
    requires i < |s.imports| == |s.locks.lockers| && Step1(s, i, a, sha, pathOf).Some? && OnDisk(a) && !Preparing(a)
    requires DiskOk(s, s.imports[i], sha) && JobOk(s.imports[i], sha, pathOf)
    ensures var t := Step1(s, i, a, sha, pathOf).value;
      |t.imports| == |s.imports| && t.locks == s.locks && DiskOk(t, t.imports[i], sha)
  {
    hide IsLockStep, IsUnlockStep, CutShort, Exposes, WithLocks, Dump, RightTree;
    RightTreeKept(s.imports[i], sha);
  }

  lemma RightTreeKept(m: Import, sha: Sha)
    ensures forall t, stage, temp, registered ::
              RightTree(m.(stage := stage, temp := temp, registered := registered), t, sha) == RightTree(m, t, sha)
  {
  }

  lemma DiskStepKeepsLocks(s: Store, i: nat, a: Act, sha: Sha, pathOf: PathOf)
    requires i < |s.imports| == |s.locks.lockers| && Step1(s, i, a, sha, pathOf).Some? && OnDisk(a)
    requires ImportOk(s, i, sha, pathOf)
    ensures var t := Step1(s, i, a, sha, pathOf).value;
      |t.imports| == |s.imports| && t.locks == s.locks && LocksOk(t.imports[i], t.locks.lockers[i])
  {
    hide IsLockStep, IsUnlockStep, CutShort, Exposes, WithLocks, Dump, LockingOk, HoldsLock, DiskOk, JobOk;
    IdleIsLocking(s.locks.lockers[i], s.imports[i].path);
  }

  lemma DiskStepKeepsImport(s: Store, i: nat, a: Act, sha: Sha, pathOf: PathOf)
    requires Inv(s, sha, pathOf) && i < |s.imports| && Step1(s, i, a, sha, pathOf).Some? && OnDisk(a)
    ensures var t := Step1(s, i, a, sha, pathOf).value;
      |t.imports| == |s.imports| == |t.locks.lockers| && ImportOk(t, i, sha, pathOf)
  {
    hide Inv, Step1, LocksOk, DiskOk, JobOk;
    ImportAt(s, i, sha, pathOf);
    DiskStepKeepsLocks(s, i, a, sha, pathOf);
    if Preparing(a) {
      PreparingKeepsJob(s, i, a, sha, pathOf);
      PreparingIsEarly(s, i, a, sha, pathOf);
      PreparingKeepsDisk(s, i, a, sha, pathOf);
    } else {
      RestoringKeepsJob(s, i, a, sha, pathOf);
      RestoringKeepsDisk(s, i, a, sha, pathOf);
    }
  }

  lemma IdleIsLocking(l: Locker, path: Path)
    ensures l.pc.Idle? && l.fds == [] ==> LockingOk(l, path)
    ensures LockingOk(l, path) && l.pc.Locked? ==> HoldsLock(l, path)
    ensures HoldsLock(l, path) ==> l.pc.Locked?
  {
  }

  lemma ImportAt(s: Store, i: nat, sha: Sha, pathOf: PathOf)
    requires Inv(s, sha, pathOf) && i < |s.imports|
    ensures |s.imports| == |s.locks.lockers| && ImportOk(s, i, sha, pathOf) && Locks.Inv(s.locks, false)
  {
    hide Locks.Inv, ImportOk;
  }

  lemma PlainStepIs(s: Store, i: nat, a: Act, sha: Sha, pathOf: PathOf)
    requires i < |s.imports| == |s.locks.lockers| && Step1(s, i, a, sha, pathOf).Some?
    requires a.Enter? || a.Fail? || a.Leave?
    ensures var (m, t) := (s.imports[i], Step1(s, i, a, sha, pathOf).value);
      |t.imports| == |s.imports| && t == With(s, i, m.(stage := t.imports[i].stage)) &&
      match t.imports[i].stage
      case SecondCheck => a.Enter? && m.stage.Locking? && s.locks.lockers[i].pc.Locked?
      case Unlocking(threw) => a.Fail? && threw && Critical(m.stage)
      case Threw =>
        (a.Fail? && (m.stage.Start? || m.stage.FirstCheck?)) ||
        (a.Leave? && m.stage == Unlocking(true) && s.locks.lockers[i].pc.Idle?)
      case Done => a.Leave? && m.stage == Unlocking(false) && s.locks.lockers[i].pc.Idle?
      case _ => false
  {
    hide Next, WithLocks, IsLockStep, IsUnlockStep, CutShort, Exposes, Dump;
  }

  /** Moves that change neither locks nor disk nor database. */
  lemma PlainStepKeepsImport(s: Store, i: nat, a: Act, sha: Sha, pathOf: PathOf)
    requires Inv(s, sha, pathOf) && i < |s.imports| && Step1(s, i, a, sha, pathOf).Some?
    requires a.Enter? || a.Fail? || a.Leave?
    ensures var t := Step1(s, i, a, sha, pathOf).value;
      |t.imports| == |s.imports| == |t.locks.lockers| && ImportOk(t, i, sha, pathOf)
  {
    hide Step1, Inv, Locks.Inv, Dump, LockingOk, HoldsLock;
    ImportAt(s, i, sha, pathOf);
    PlainStepIs(s, i, a, sha, pathOf);
    IdleIsLocking(s.locks.lockers[i], s.imports[i].path);
    IdleHoldsNothing(s.locks, i);
  }

  lemma IdleHoldsNothing(s: Sys, i: nat)
    requires Locks.Inv(s, false) && i < |s.lockers|
    ensures s.lockers[i].pc.Idle? ==> s.lockers[i].fds == []
  {
    PcAt(s, i);
  }

  /** Unlocking leaves alone whether lock files are to be deleted. */
  lemma UnlockMoves(s: Sys, x: Step, i: nat)
    requires i < |s.lockers| && x.i == i && Next(s, x).Some?
    ensures |Next(s, x).value.lockers| == |s.lockers|
    ensures var (l, m) := (s.lockers[i], Next(s, x).value.lockers[i]);
      (IsUnlockStep(x, i) ==> m.deletePaths == l.deletePaths && (Locks.Unlocking(m.pc) || m.pc.Idle?)) &&
      (x.SetDeletion? ==> m.deletePaths == x.deletePaths && m.pc == l.pc) &&
      (x.Crash? ==> m.pc.Idle? && m.fds == [])
  {
    hide Sorted, Unflock;
  }

  lemma LockStepIs(s: Store, i: nat, a: Act, sha: Sha, pathOf: PathOf)
    requires i < |s.imports| == |s.locks.lockers| && Step1(s, i, a, sha, pathOf).Some? && Inner(i, a).Some?
    ensures var (m, t) := (s.imports[i], Step1(s, i, a, sha, pathOf).value);
      Next(s.locks, Inner(i, a).value).Some? && t.locks == Next(s.locks, Inner(i, a).value).value &&
      t.disk == s.disk && t.valid == s.valid && |t.imports| == |s.imports| &&
      match a
      case LockStep(x) => t.imports[i] == m && m.stage.Locking? && IsLockStep(x, i, m.path)
      case UnlockStep(x) => t.imports[i] == m && m.stage.Unlocking? && IsUnlockStep(x, i)
      case Mark => m.stage.Marking? && t.imports[i] == m.(stage := Unlocking(false))
      case _ => t.imports[i] == m.(stage := Threw)
  {
    hide Next, Dump, CutShort, Exposes;
  }

  lemma LockStepKeepsImport(s: Store, i: nat, a: Act, sha: Sha, pathOf: PathOf)
    requires Inv(s, sha, pathOf) && i < |s.imports| && Step1(s, i, a, sha, pathOf).Some? && Inner(i, a).Some?
    requires |Step1(s, i, a, sha, pathOf).value.locks.lockers| == |s.locks.lockers|
    ensures var t := Step1(s, i, a, sha, pathOf).value;
      |t.imports| == |s.imports| == |t.locks.lockers| && ImportOk(t, i, sha, pathOf)
  {
    hide Step1, Next, Inv, Locks.Inv, Dump, LockingOk, HoldsLock, IsLockStep, IsUnlockStep, RightTree;
    ImportAt(s, i, sha, pathOf);
    LockStepIs(s, i, a, sha, pathOf);
    RightTreeKept(s.imports[i], sha);
    LockStepAt(i, a, s.imports[i].path);
    UnlockMoves(s.locks, Inner(i, a).value, i);
    IdleIsLocking(s.locks.lockers[i], s.imports[i].path);
    if a.LockStep? {
      LockingMoves(s.locks, a.x, i, s.imports[i].path);
    }
  }

  lemma LockStepAt(i: nat, a: Act, path: Path)
    requires Inner(i, a).Some? && (a.LockStep? ==> IsLockStep(a.x, i, path)) && (a.UnlockStep? ==> IsUnlockStep(a.x, i))
    ensures Inner(i, a).value.i == i
  {
  }

  lemma StepKeepsImport(s: Store, i: nat, a: Act, sha: Sha, pathOf: PathOf)
    requires Inv(s, sha, pathOf) && i < |s.imports| && Step1(s, i, a, sha, pathOf).Some?
    ensures var t := Step1(s, i, a, sha, pathOf).value;
      |t.imports| == |s.imports| == |t.locks.lockers| && ImportOk(t, i, sha, pathOf)
  {
    hide Inv, ImportOk, Step1;
    StepMovesLocks(s, i, a, sha, pathOf);
    SameLength(s, sha, pathOf);
    if OnDisk(a) {
      DiskStepKeepsImport(s, i, a, sha, pathOf);
    } else if Inner(i, a).Some? {
      LockStepKeepsImport(s, i, a, sha, pathOf);
    } else {
      PlainStepKeepsImport(s, i, a, sha, pathOf);
    }
  }

  /** What a step can do to disk and database: at most one path, and only between finding
      it not valid and registering it. */
  lemma StepEffect(s: Store, i: nat, a: Act, sha: Sha, pathOf: PathOf)
    requires i < |s.imports| == |s.locks.lockers| && Step1(s, i, a, sha, pathOf).Some?
    ensures var (m, t) := (s.imports[i], Step1(s, i, a, sha, pathOf).value);
      (t.valid == s.valid ||
       (m.stage.Registering? && t.disk == s.disk &&
        t.valid == s.valid[m.path := Info(m.job.name, sha(Dump(m.stage.tree)))])) &&
      (forall p :: p != m.path || !Changing(m.stage) ==>
        (p in s.disk <==> p in t.disk) && (p in s.disk ==> t.disk[p] == s.disk[p]))
  {
    hide IsLockStep, IsUnlockStep, CutShort, Exposes, Next, Dump;
  }

  lemma StepKeepsValid(s: Store, i: nat, a: Act, sha: Sha, pathOf: PathOf)
    requires Inv(s, sha, pathOf) && i < |s.imports| && Step1(s, i, a, sha, pathOf).Some?
    ensures ValidOk(Step1(s, i, a, sha, pathOf).value, sha, pathOf)
  {
    hide Step1, Next, Locks.Inv, Dump, LockingOk, HoldsLock;
    assert ImportOk(s, i, sha, pathOf);
    StepEffect(s, i, a, sha, pathOf);
  }

  lemma StepKeepsStore(s: Store, i: nat, a: Act, sha: Sha, pathOf: PathOf)
    requires Inv(s, sha, pathOf) && i < |s.imports| && Step1(s, i, a, sha, pathOf).Some?
    ensures Inv(Step1(s, i, a, sha, pathOf).value, sha, pathOf)
  {
    hide Step1, ImportOk, ValidOk, Locks.Inv;
    StepMovesLocks(s, i, a, sha, pathOf);
    StepIsPolite(s, i, a, sha, pathOf);
    StepKeepsImport(s, i, a, sha, pathOf);
    StepKeepsValid(s, i, a, sha, pathOf);
    var t := Step1(s, i, a, sha, pathOf).value;
    forall k | 0 <= k < |t.imports| ensures ImportOk(t, k, sha, pathOf) {
      if k != i {
        OthersKeep(s, t, i, k, sha, pathOf);
      }
    }
  }

  /** In every reachable state of any number of concurrent imports, every crash that exposes
      no lock file included, every valid path is on disk as a whole tree whose digest gives
      it its name. */
  lemma {:induction false} RunsKeepStore(s: Store, steps: seq<(nat, Act)>, sha: Sha, pathOf: PathOf)
    requires Inv(s, sha, pathOf) && After(s, steps, sha, pathOf).Some?
    ensures Inv(After(s, steps, sha, pathOf).value, sha, pathOf)
    decreases |steps|
  {
    hide Inv, Step1;
    if steps != [] {
      var (i, a) := steps[0];
      StepKeepsStore(s, i, a, sha, pathOf);
      RunsKeepStore(Step1(s, i, a, sha, pathOf).value, steps[1..], sha, pathOf);
    }
  }

  // ------------------------------------------------------------ how imports end

  /** What an import was asked to make valid: the digest announced, or the one of the tree
      found in the stream. */
  function Asked(m: Import, sha: Sha): Option<Info> {
    match m.job
    case Announced(name, narHash, _) => Some(Info(name, narHash))
    case FromDump(name) =>
      match m.given
      case Some(t) => Some(Info(name, sha(Dump(t))))
      case None => None
  }

  /** No other name and digest give the same store path. */
  ghost predicate OnlyName(info: Info, pathOf: PathOf) {
    forall name, narHash :: pathOf(name, narHash) == pathOf(info.name, info.narHash) ==> Info(name, narHash) == info
  }

  /** An import that reports success, or is about to, has made its path valid or found it
      valid: the path of what it was asked for is on disk as a whole tree, and unless two
      names share that path, the tree has the digest asked for. */
  lemma SuccessMeansStored(s: Store, i: nat, sha: Sha, pathOf: PathOf)
    requires Inv(s, sha, pathOf) && i < |s.imports| && Succeeding(s.imports[i].stage)
    ensures var m := s.imports[i];
      Asked(m, sha).Some? && m.path == pathOf(Asked(m, sha).value.name, Asked(m, sha).value.narHash) &&
      m.path in s.valid && m.path in s.disk && s.disk[m.path].Complete?
    ensures var m := s.imports[i];
      OnlyName(Asked(m, sha).value, pathOf) ==>
        s.valid[m.path] == Asked(m, sha).value && sha(Dump(s.disk[m.path].tree)) == Asked(m, sha).value.narHash
  {
    hide Locks.Inv, Dump, LocksOk, RegisteredOk;
    assert ImportOk(s, i, sha, pathOf);
  }

  /** What an import has registered stays registered as it was asked for, and that very
      tree stays on disk. */
  lemma RegisteredIsAsked(s: Store, i: nat, sha: Sha, pathOf: PathOf)
    requires Inv(s, sha, pathOf) && i < |s.imports| && s.imports[i].registered.Some?
    ensures var (m, t) := (s.imports[i], s.imports[i].registered.value);
      m.path in s.valid && Some(s.valid[m.path]) == Asked(m, sha) && s.valid[m.path].narHash == sha(Dump(t)) &&
      m.path in s.disk && s.disk[m.path] == Complete(t) && RightTree(m, t, sha)
  {
    hide Locks.Inv, Dump, LocksOk;
    assert ImportOk(s, i, sha, pathOf);
  }

  /** The events an import does not survive: an exception, a death, a stream that is no
      archive, and an archive that is not the one announced. */
  predicate Fatal(m: Import, a: Act, sha: Sha) {
    match a
    case Fail => true
    case Die => true
    case Begin(streamed) => m.job.FromDump? && streamed.None?
    case EndFilling(streamed) => streamed.None? || !RightTree(m, streamed.value, sha)
    case _ => false
  }

  /** Bound to throw, or done throwing. */
  predicate Doomed(m: Import, sha: Sha) {
    match m.stage
    case Threw => true
    case Failing => true
    case Unlocking(threw) => threw
    case Filled(t) => !RightTree(m, t, sha)
    case _ => false
  }

  lemma DiskStepDooms(s: Store, i: nat, a: Act, sha: Sha, pathOf: PathOf)
    requires i < |s.imports| == |s.locks.lockers| && Step1(s, i, a, sha, pathOf).Some? && OnDisk(a)
    requires JobOk(s.imports[i], sha, pathOf)
    ensures var t := Step1(s, i, a, sha, pathOf).value;
      |t.imports| == |s.imports| && t.imports[i].job == s.imports[i].job &&
      (Doomed(t.imports[i], sha) <==> Doomed(s.imports[i], sha) || Fatal(s.imports[i], a, sha))
  {
    hide WithLocks, IsLockStep, IsUnlockStep, CutShort, Exposes, Next, Dump;
  }

  lemma StepDooms(s: Store, i: nat, a: Act, sha: Sha, pathOf: PathOf)
    requires i < |s.imports| == |s.locks.lockers| && Step1(s, i, a, sha, pathOf).Some?
    requires JobOk(s.imports[i], sha, pathOf)
    ensures var t := Step1(s, i, a, sha, pathOf).value;
      |t.imports| == |s.imports| && t.imports[i].job == s.imports[i].job &&
      (Doomed(t.imports[i], sha) <==> Doomed(s.imports[i], sha) || Fatal(s.imports[i], a, sha))
  {
    hide Step1, JobOk, Next, IsLockStep, IsUnlockStep, Dump;
    if OnDisk(a) {
      DiskStepDooms(s, i, a, sha, pathOf);
    } else if Inner(i, a).Some? {
      LockStepIs(s, i, a, sha, pathOf);
    } else {
      PlainStepIs(s, i, a, sha, pathOf);
    }
  }

  predicate FatalEver(s: Store, steps: seq<(nat, Act)>, i: nat, sha: Sha, pathOf: PathOf)
    decreases |steps|
  {
    steps != [] && i < |s.imports| == |s.locks.lockers| && steps[0].0 < |s.imports| &&
    ((steps[0].0 == i && Fatal(s.imports[i], steps[0].1, sha)) ||
     (Step1(s, steps[0].0, steps[0].1, sha, pathOf).Some? &&
      FatalEver(Step1(s, steps[0].0, steps[0].1, sha, pathOf).value, steps[1..], i, sha, pathOf)))
  }

  /** Whatever the other imports do, an import throws exactly if one of these events befell
      it: none is refused for anything else, and no success is reported after one. */
  lemma {:induction false} ThrowsExactly(s: Store, steps: seq<(nat, Act)>, i: nat, sha: Sha, pathOf: PathOf)
    requires Inv(s, sha, pathOf) && After(s, steps, sha, pathOf).Some? && i < |s.imports|
    ensures i < |After(s, steps, sha, pathOf).value.imports|
    ensures Doomed(After(s, steps, sha, pathOf).value.imports[i], sha) <==>
            Doomed(s.imports[i], sha) || FatalEver(s, steps, i, sha, pathOf)
    decreases |steps|
  {
    hide Inv, Step1, Fatal, Doomed, ImportOk;
    ImportAt(s, i, sha, pathOf);
    if steps != [] {
      var (k, a) := steps[0];
      ImportAt(s, k, sha, pathOf);
      StepKeepsStore(s, k, a, sha, pathOf);
      StepMovesOne(s, k, a, sha, pathOf);
      ThrowsExactly(Step1(s, k, a, sha, pathOf).value, steps[1..], i, sha, pathOf);
      if k == i {
        JobAt(s, i, sha, pathOf);
        StepDooms(s, i, a, sha, pathOf);
      }
    }
  }

  lemma JobAt(s: Store, i: nat, sha: Sha, pathOf: PathOf)
    requires i < |s.imports| == |s.locks.lockers| && ImportOk(s, i, sha, pathOf)
    ensures JobOk(s.imports[i], sha, pathOf) && LocksOk(s.imports[i], s.locks.lockers[i])
  {
    hide JobOk, LocksOk, DiskOk;
  }

  /** About to find its path valid already, or over. */
  predicate NeedsNothing(s: Store, i: nat, pathOf: PathOf)
    requires i < |s.imports|
  {
    var m := s.imports[i];
    match m.stage
    case Start => m.job.Announced? && pathOf(m.job.name, m.job.narHash) in s.valid
    case FirstCheck => m.path in s.valid
    case Done => true
    case Threw => true
    case _ => false
  }

  lemma StepNeedsNothing(s: Store, k: nat, a: Act, i: nat, sha: Sha, pathOf: PathOf)
    requires Inv(s, sha, pathOf) && k < |s.imports| && Step1(s, k, a, sha, pathOf).Some?
    requires i < |s.imports| && NeedsNothing(s, i, pathOf)
    ensures |Step1(s, k, a, sha, pathOf).value.imports| == |s.imports|
    ensures NeedsNothing(Step1(s, k, a, sha, pathOf).value, i, pathOf)
  {
    hide Inv, Next, Exposes, CutShort, IsLockStep, IsUnlockStep, Dump;
    StepIsPolite(s, k, a, sha, pathOf);
  }

  /** An import whose path is valid when it first looks takes no lock, whatever the others
      do before it looks. */
  lemma {:induction false} ValidNeverLocks(s: Store, steps: seq<(nat, Act)>, i: nat, sha: Sha, pathOf: PathOf)
    requires Inv(s, sha, pathOf) && After(s, steps, sha, pathOf).Some?
    requires i < |s.imports| && NeedsNothing(s, i, pathOf)
    ensures var t := After(s, steps, sha, pathOf).value;
      i < |t.imports| == |t.locks.lockers| && NeedsNothing(t, i, pathOf) &&
      t.locks.lockers[i].pc.Idle? && t.locks.lockers[i].fds == []
    decreases |steps|
  {
    hide Inv, Step1, ImportOk;
    if steps == [] {
      ImportAt(s, i, sha, pathOf);
      JobAt(s, i, sha, pathOf);
    } else {
      var (k, a) := steps[0];
      StepKeepsStore(s, k, a, sha, pathOf);
      StepNeedsNothing(s, k, a, i, sha, pathOf);
      ValidNeverLocks(Step1(s, k, a, sha, pathOf).value, steps[1..], i, sha, pathOf);
    }
  }

  /** Some import of the path has registered it. */
  ghost predicate Registered(s: Store, p: Path) {
    exists i :: 0 <= i < |s.imports| && s.imports[i].registered.Some? && s.imports[i].path == p
  }

  ghost predicate Accounted(s: Store, valid: map<Path, Info>) {
    forall p :: p in s.valid ==> p in valid || Registered(s, p)
  }

  lemma StepRegisters(s: Store, i: nat, a: Act, sha: Sha, pathOf: PathOf)
    requires i < |s.imports| == |s.locks.lockers| && Step1(s, i, a, sha, pathOf).Some? && JobOk(s.imports[i], sha, pathOf)
    ensures var (m, t) := (s.imports[i], Step1(s, i, a, sha, pathOf).value);
      |t.imports| == |s.imports| &&
      (m.registered.Some? ==> t.imports[i].registered == m.registered && t.imports[i].path == m.path) &&
      forall p :: p in t.valid && p !in s.valid ==> p == m.path == t.imports[i].path && t.imports[i].registered.Some?
  {
    hide WithLocks, IsLockStep, IsUnlockStep, CutShort, Exposes, Dump, RightTree;
    if Inner(i, a).Some? {
      LockStepIs(s, i, a, sha, pathOf);
    }
  }

  lemma StepAccounts(s: Store, i: nat, a: Act, valid: map<Path, Info>, sha: Sha, pathOf: PathOf)
    requires Inv(s, sha, pathOf) && i < |s.imports| && Step1(s, i, a, sha, pathOf).Some? && Accounted(s, valid)
    ensures Accounted(Step1(s, i, a, sha, pathOf).value, valid)
  {
    hide Inv, Step1, ImportOk, JobOk;
    ImportAt(s, i, sha, pathOf);
    JobAt(s, i, sha, pathOf);
    StepRegisters(s, i, a, sha, pathOf);
    StepMovesOne(s, i, a, sha, pathOf);
    var t := Step1(s, i, a, sha, pathOf).value;
    forall p | p in t.valid && p !in valid ensures Registered(t, p) {
      if p in s.valid {
        var k :| 0 <= k < |s.imports| && s.imports[k].registered.Some? && s.imports[k].path == p;
        assert t.imports[k].registered.Some? && t.imports[k].path == p;
      } else {
        assert t.imports[i].registered.Some? && t.imports[i].path == p;
      }
    }
  }

  /** In every run, whatever becomes valid was registered by an import of that path. */
  lemma {:induction false} OnlyImportsRegister(s: Store, steps: seq<(nat, Act)>, valid: map<Path, Info>, sha: Sha, pathOf: PathOf)
    requires Inv(s, sha, pathOf) && After(s, steps, sha, pathOf).Some? && Accounted(s, valid)
    ensures Accounted(After(s, steps, sha, pathOf).value, valid)
    decreases |steps|
  {
    hide Inv, Step1, Accounted;
    if steps != [] {
      var (k, a) := steps[0];
      StepKeepsStore(s, k, a, sha, pathOf);
      StepAccounts(s, k, a, valid, sha, pathOf);
      OnlyImportsRegister(Step1(s, k, a, sha, pathOf).value, steps[1..], valid, sha, pathOf);
    }
  }

  // ------------------------------------------------------------- and that they end

  /** Asleep in flock until the file's holder lets go. */
  predicate Asleep(s: Store, i: nat)
    requires i < |s.imports| == |s.locks.lockers|
  {
    s.imports[i].stage.Locking? && s.locks.lockers[i].pc.Waiting? && s.locks.lockers[i].pc.ino in s.locks.flocks
  }

  function LockingStep(s: Store, i: nat, unused: Ino): Act
    requires i < |s.imports| == |s.locks.lockers|
  {
    match s.locks.lockers[i].pc
    case Idle => LockStep(Lock(i, [s.imports[i].path], true))
    case Opening => LockStep(Open(i, unused))
    case Trying(_) => LockStep(Try(i))
    case Waiting(_) => LockStep(Block(i))
    case Checking(_) => LockStep(Check(i))
    case Reopening(_) => LockStep(Open(i, unused))
    case ClosingOld(_, _) => LockStep(CloseOld(i))
    case _ => Enter
  }

  function UnlockingStep(s: Store, i: nat): Act
    requires i < |s.imports| == |s.locks.lockers|
  {
    match s.locks.lockers[i].pc
    case Locked => UnlockStep(Unlock(i))
    case Unlinking => UnlockStep(UnlinkFile(i, true))
    case Writing => UnlockStep(WriteToken(i))
    case Releasing => UnlockStep(Release(i))
    case _ => Leave
  }

  /** The step an import takes next if nothing goes wrong. */
  function OwnStep(s: Store, i: nat, unused: Ino, streamed: Tree): Act
    requires i < |s.imports| == |s.locks.lockers|
  {
    match s.imports[i].stage
    case Start => Begin(Some(streamed))
    case FirstCheck => CheckValid
    case Locking => LockingStep(s, i, unused)
    case SecondCheck => CheckAgain
    case Clearing => EndClearing
    case Cleared => if s.imports[i].job.FromDump? then Move else StartFilling
    case Filling => EndFilling(Some(streamed))
    case Filled(_) => Verify
    case Registering(_) => Register
    case Marking => Mark
    case Unlocking(_) => UnlockingStep(s, i)
    case _ => Fail
  }

  lemma CanLock(s: Store, i: nat, unused: Ino, sha: Sha, pathOf: PathOf)
    requires i < |s.imports| == |s.locks.lockers| && unused !in s.locks.home && s.imports[i].stage.Locking?
    requires LocksOk(s.imports[i], s.locks.lockers[i]) && PcOk(s.locks, i) && !Asleep(s, i)
    ensures Step1(s, i, LockingStep(s, i, unused), sha, pathOf).Some?
  {
    hide Less, Dump, NextRelease, Exposes;
  }

  lemma CanUnlock(s: Store, i: nat, sha: Sha, pathOf: PathOf)
    requires i < |s.imports| == |s.locks.lockers| && s.imports[i].stage.Unlocking?
    requires LocksOk(s.imports[i], s.locks.lockers[i]) && PcOk(s.locks, i)
    ensures Step1(s, i, UnlockingStep(s, i), sha, pathOf).Some?
  {
    hide Less, Dump, NextRelease, Exposes;
  }

  /** An import that is not over can take its own next step unless it is asleep. */
  lemma CanMove(s: Store, i: nat, unused: Ino, streamed: Tree, sha: Sha, pathOf: PathOf)
    requires Inv(s, sha, pathOf) && i < |s.imports| && unused !in s.locks.home && !Ended(s.imports[i].stage)
    requires |s.imports| == |s.locks.lockers| && !Asleep(s, i)
    ensures Step1(s, i, OwnStep(s, i, unused, streamed), sha, pathOf).Some?
  {
    hide Inv, Locks.Inv, Dump, RightTree, PcOk, LockingOk, Asleep, IsLockStep, IsUnlockStep, CutShort, Exposes, LockingStep,
      UnlockingStep;
    ImportAt(s, i, sha, pathOf);
    PcAtInv(s.locks, i);
    if s.imports[i].stage.Locking? {
      CanLock(s, i, unused, sha, pathOf);
    } else if s.imports[i].stage.Unlocking? {
      CanUnlock(s, i, sha, pathOf);
    }
  }

  lemma PcAtInv(s: Sys, i: nat)
    requires Locks.Inv(s, false) && i < |s.lockers|
    ensures PcOk(s, i)
  {
    hide PcOk;
    PcAt(s, i);
  }

  /** Whoever an import sleeps for is itself an import that is not over, and awake. */
  lemma AwaitedIsAwake(s: Store, i: nat, sha: Sha, pathOf: PathOf) returns (k: nat)
    requires Inv(s, sha, pathOf) && i < |s.imports| == |s.locks.lockers| && Asleep(s, i)
    ensures k < |s.imports| && k != i && s.locks.flocks[s.locks.lockers[i].pc.ino] == k
    ensures !Ended(s.imports[k].stage) && !Asleep(s, k)
  {
    hide Dump, ValidOk, DiskOk, JobOk, LockerOk, PcOk, LiveOk;
    k := s.locks.flocks[s.locks.lockers[i].pc.ino];
    assert FilesOk(s.locks);
    assert Owns(s.locks.lockers[k], s.locks.lockers[i].pc.ino);
    assert ImportOk(s, k, sha, pathOf) && ImportOk(s, i, sha, pathOf);
  }

  /** As long as an import is not over, some import can take a step of its own: however many
      there are and whatever they sleep for, they never all wait for each other. */
  lemma NeverStuck(s: Store, i: nat, unused: Ino, streamed: Tree, sha: Sha, pathOf: PathOf) returns (k: nat)
    requires Inv(s, sha, pathOf) && i < |s.imports| && unused !in s.locks.home && !Ended(s.imports[i].stage)
    ensures k < |s.imports| == |s.locks.lockers| && !Ended(s.imports[k].stage)
    ensures Step1(s, k, OwnStep(s, k, unused, streamed), sha, pathOf).Some?
  {
    hide Inv, Step1, Asleep, OwnStep;
    SameLength(s, sha, pathOf);
    k := i;
    if Asleep(s, i) {
      k := AwaitedIsAwake(s, i, sha, pathOf);
    }
    CanMove(s, k, unused, streamed, sha, pathOf);
  }

  /** What may come between: a deletion leaves something unfinished until it is through, a
      restore until its stream ends, and a signal may end a wait for a deleted lock file. */
  lemma UnfinishedInBetween(s: Store, i: nat, sha: Sha, pathOf: PathOf)
    requires i < |s.imports| == |s.locks.lockers|
    ensures var (m, t) := (s.imports[i], Step1(s, i, StartClearing, sha, pathOf));
      m.stage.Clearing? ==> if m.path in s.disk then t == Some(s.(disk := s.disk[m.path := Partial])) else t.None?
    ensures var (m, t) := (s.imports[i], Step1(s, i, StartFilling, sha, pathOf));
      t.Some? ==> m.path in t.value.disk && t.value.disk[m.path].Partial?
    ensures var (m, l) := (s.imports[i], s.locks.lockers[i]);
      m.stage.Locking? && l.pc.Waiting? && l.pc.ino in s.locks.flocks && l.pc.ino in s.locks.stale ==>
        Step1(s, i, LockStep(Interrupt(i)), sha, pathOf).Some?
  {
    hide Dump, Exposes;
  }

  /** An exception may come before the lock is asked for and all the while it is held, and a
      death at any time, except where it would expose a lock file. */
  lemma FailuresAnywhere(s: Store, i: nat, sha: Sha, pathOf: PathOf)
    requires i < |s.imports| == |s.locks.lockers|
    ensures var m := s.imports[i];
      Step1(s, i, Fail, sha, pathOf).Some? <==> m.stage.Start? || m.stage.FirstCheck? || Critical(m.stage)
    ensures Step1(s, i, Die, sha, pathOf).Some? <==> !Exposes(s.locks, i, false)
  {
    hide Dump, Exposes;
  }

  function Rank(stage: Stage): nat {
    match stage
    case Start => 0
    case FirstCheck => 1
    case Locking => 2
    case SecondCheck => 3
    case Clearing => 4
    case Cleared => 5
    case Filling => 6
    case Filled(_) => 7
    case Registering(_) => 8
    case Marking => 9
    case Failing => 9
    case Unlocking(_) => 10
    case Done => 11
    case Threw => 12
  }

  /** An import never goes back: but for the lock protocol's own steps and the names a
      deletion removes one by one, each of its steps takes it to a later stage. */
  lemma StagesAscend(s: Store, i: nat, a: Act, sha: Sha, pathOf: PathOf)
    requires i < |s.imports| == |s.locks.lockers| && Step1(s, i, a, sha, pathOf).Some?
    ensures var t := Step1(s, i, a, sha, pathOf).value;
      |t.imports| == |s.imports| &&
      if a.LockStep? || a.UnlockStep? || a.StartClearing? then t.imports[i] == s.imports[i]
      else Rank(t.imports[i].stage) > Rank(s.imports[i].stage) || (a.Die? && s.imports[i].stage.Threw?)
  {
    hide Step1, Next, IsLockStep, IsUnlockStep, Dump;
    if OnDisk(a) {
      DiskStepAscends(s, i, a, sha, pathOf);
    } else if Inner(i, a).Some? {
      LockStepIs(s, i, a, sha, pathOf);
    } else {
      PlainStepIs(s, i, a, sha, pathOf);
    }
  }

  lemma DiskStepAscends(s: Store, i: nat, a: Act, sha: Sha, pathOf: PathOf)
    requires i < |s.imports| == |s.locks.lockers| && Step1(s, i, a, sha, pathOf).Some? && OnDisk(a)
    ensures var t := Step1(s, i, a, sha, pathOf).value;
      |t.imports| == |s.imports| &&
      if a.StartClearing? then t.imports[i] == s.imports[i]
      else Rank(t.imports[i].stage) > Rank(s.imports[i].stage)
  {
    hide WithLocks, IsLockStep, IsUnlockStep, CutShort, Exposes, Next, Dump;
  }

  /** No step, and so no deletePath of any importer, changes what a valid path leads to,
      and no valid path becomes invalid or changes its digest. */
  lemma ValidPathsUntouched(s: Store, i: nat, a: Act, sha: Sha, pathOf: PathOf, p: Path)
    requires Inv(s, sha, pathOf) && i < |s.imports| && Step1(s, i, a, sha, pathOf).Some? && p in s.valid
    ensures var t := Step1(s, i, a, sha, pathOf).value;
      p in t.valid && t.valid[p] == s.valid[p] && p in s.disk && p in t.disk && t.disk[p] == s.disk[p]
  {
    hide Step1, Next, Locks.Inv, Dump, LockingOk, HoldsLock;
    assert ImportOk(s, i, sha, pathOf);
    StepEffect(s, i, a, sha, pathOf);
  }

  /** A store to start from: nobody importing yet. */
  lemma FreshStore(n: nat, jobs: seq<Job>, disk: map<Path, Node>, valid: map<Path, Info>, sha: Sha, pathOf: PathOf)
    requires n == |jobs|
    requires var s := Store(Init(n), disk, valid, seq(n, k requires 0 <= k < n => Import(jobs[k], Start, [], None, None, None)));
      ValidOk(s, sha, pathOf)
    ensures var s := Store(Init(n), disk, valid, seq(n, k requires 0 <= k < n => Import(jobs[k], Start, [], None, None, None)));
      Inv(s, sha, pathOf)
  {
    hide Dump;
  }
}
