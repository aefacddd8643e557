/** Locks on store paths, shared by any number of lockers: one lock file per path, taken
    in order with flock, and deleted by its last user behind a staleness token. */
module PathLocks {
  import opened Results
  import opened Wire
  import opened Nar

  type Ino = nat
  type Path = bytes

  datatype Fd = Fd(path: Path, ino: Ino)

  /** Where a locker is. While it locks, the next path is the one after those in `fds`;
      while it unlocks, the file being released is the first in `fds`. */
  datatype Pc =
    | Idle
    | Opening
    | Trying(ino: Ino)
    | Waiting(ino: Ino)
    | Checking(ino: Ino)
    | Reopening(ino: Ino)
    | ClosingOld(ino: Ino, next: Ino)
    | Locked
    | Unlinking
    | Writing
    | Releasing

  datatype Locker = Locker(paths: seq<Path>, wait: bool, deletePaths: bool, fds: seq<Fd>, pc: Pc)

  /** `names` are the lock files in the directory, `stale` those holding a token, and
      `flocks` who holds the exclusive lock of which. `home` is the history: the path
      each lock file was created for. */
  datatype Sys = Sys(
    lockers: seq<Locker>, names: map<Path, Ino>, stale: set<Ino>, flocks: map<Ino, nat>, home: map<Ino, Path>)

  datatype Step =
    | Lock(i: nat, paths: seq<Path>, wait: bool)
    | Open(i: nat, unused: Ino)
    | Try(i: nat)
    | Block(i: nat)
    | Interrupt(i: nat)
    | Check(i: nat)
    | CloseOld(i: nat)
    | SetDeletion(i: nat, deletePaths: bool)
    | Unlock(i: nat)
    | UnlinkFile(i: nat, ok: bool)
    | WriteToken(i: nat)
    | Release(i: nat)
    | Crash(i: nat)

  function Init(n: nat): Sys {
    Sys(seq(n, _ => Locker([], false, false, [], Idle)), map[], {}, map[], map[])
  }

  predicate Sorted(paths: seq<Path>) {
    forall j, k :: 0 <= j < k < |paths| ==> Less(paths[j], paths[k])
  }

  /** unlock, before its next file. */
  function NextRelease(l: Locker): Pc {
    if l.fds == [] then Idle else if l.deletePaths then Unlinking else Releasing
  }

  lemma ReleaseStarts(l: Locker)
    ensures NextRelease(l) == if l.fds == [] then Idle else if l.deletePaths then Unlinking else Releasing
  {
  }

  predicate Locking(pc: Pc) {
    pc.Opening? || pc.Trying? || pc.Waiting? || pc.Checking? || pc.Reopening? || pc.ClosingOld?
  }

  predicate Unlocking(pc: Pc) {
    pc.Unlinking? || pc.Writing? || pc.Releasing?
  }

  /** Which lock file O_CREAT opens: the one there, or an unused one. */
  function Opened(s: Sys, p: Path, unused: Ino): Ino {
    if p in s.names then s.names[p] else unused
  }

  function WithFile(s: Sys, p: Path, unused: Ino): Sys {
    if p in s.names then s else s.(names := s.names[p := unused], home := s.home[unused := p])
  }

  /** Closing a file ends the lock its closer has on it, and nobody else's. */
  function Unflock(flocks: map<Ino, nat>, ino: Ino, i: nat): map<Ino, nat> {
    if ino in flocks && flocks[ino] == i then flocks - {ino} else flocks
  }

  function Put(s: Sys, i: nat, l: Locker): Sys
    requires i < |s.lockers|
  {
    s.(lockers := s.lockers[i := l])
  }

  /** The file the locker asked for is locked. */
  function Grabbed(s: Sys, i: nat, ino: Ino): Sys
    requires i < |s.lockers|
  {
    Put(s, i, s.lockers[i].(pc := Checking(ino))).(flocks := s.flocks[ino := i])
  }

  /** The file without a token is kept, and the next path is next. */
  function Pushed(s: Sys, i: nat): Sys
    requires i < |s.lockers| && s.lockers[i].pc.Checking? && |s.lockers[i].fds| < |s.lockers[i].paths|
  {
    var l := s.lockers[i];
    Put(s, i, l.(fds := l.fds + [Fd(l.paths[|l.fds|], l.pc.ino)],
                 pc := if |l.fds| + 1 == |l.paths| then Locked else Opening))
  }

  /** The stale file is closed, the newly opened one comes next. */
  function Dropped(s: Sys, i: nat): Sys
    requires i < |s.lockers| && s.lockers[i].pc.ClosingOld?
  {
    var l := s.lockers[i];
    Put(s, i, l.(pc := Trying(l.pc.next))).(flocks := Unflock(s.flocks, l.pc.ino, i))
  }

  function Unlinked(s: Sys, i: nat, ok: bool): Sys
    requires i < |s.lockers| && s.lockers[i].fds != []
  {
    var l := s.lockers[i];
    Put(s, i, l.(pc := Writing)).(names := if ok then s.names - {l.fds[0].path} else s.names)
  }

  function Marked(s: Sys, i: nat): Sys
    requires i < |s.lockers| && s.lockers[i].fds != []
  {
    var l := s.lockers[i];
    Put(s, i, l.(pc := Releasing)).(stale := s.stale + {l.fds[0].ino})
  }

  function Released(s: Sys, i: nat): Sys
    requires i < |s.lockers| && s.lockers[i].fds != []
  {
    var l := s.lockers[i];
    var rest := l.(fds := l.fds[1..]);
    Put(s, i, rest.(pc := NextRelease(rest))).(flocks := Unflock(s.flocks, l.fds[0].ino, i))
  }

  /** The locker's process dies, and the kernel closes its files. */
  function Crashed(s: Sys, i: nat): Sys
    requires i < |s.lockers|
  {
    Put(s, i, s.lockers[i].(fds := [], pc := Idle)).(flocks := map n | n in s.flocks && s.flocks[n] != i :: s.flocks[n])
  }

  /** One step of locker `i`, or None where it cannot happen. */
  function LockerNext(s: Sys, i: nat, step: Step): Option<Sys>
    requires i < |s.lockers|
  {
    var l := s.lockers[i];
    match (step, l.pc)
    case (Lock(_, paths, wait), Idle) =>
      if !Sorted(paths) then None
      else Some(Put(s, i, l.(paths := paths, wait := wait, pc := if paths == [] then Locked else Opening)))
    case (Open(_, unused), Opening) =>
      if unused in s.home || |l.fds| >= |l.paths| then None else
      var p := l.paths[|l.fds|];
      Some(Put(WithFile(s, p, unused), i, l.(pc := Trying(Opened(s, p, unused)))))
    case (Try(_), Trying(ino)) =>
      if ino !in s.flocks then Some(Grabbed(s, i, ino))
      else if l.wait then Some(Put(s, i, l.(pc := Waiting(ino))))
      else Some(Put(s, i, l.(pc := NextRelease(l))))
    case (Block(_), Waiting(ino)) => if ino in s.flocks then None else Some(Grabbed(s, i, ino))
    case (Interrupt(_), Waiting(ino)) => if ino in s.flocks then Some(Put(s, i, l.(pc := Checking(ino)))) else None
    case (Check(_), Checking(ino)) =>
      if |l.fds| >= |l.paths| then None
      else if ino in s.stale then Some(Put(s, i, l.(pc := Reopening(ino))))
      else Some(Pushed(s, i))
    case (Open(_, unused), Reopening(was)) =>
      if unused in s.home || |l.fds| >= |l.paths| then None else
      var p := l.paths[|l.fds|];
      Some(Put(WithFile(s, p, unused), i, l.(pc := ClosingOld(was, Opened(s, p, unused)))))
    case (CloseOld(_), ClosingOld(_, _)) => Some(Dropped(s, i))
    case (SetDeletion(_, d), Locked) => Some(Put(s, i, l.(deletePaths := d)))
    case (Unlock(_), Locked) => Some(Put(s, i, l.(pc := NextRelease(l))))
    case (UnlinkFile(_, ok), Unlinking) => if l.fds == [] then None else Some(Unlinked(s, i, ok))
    case (WriteToken(_), Writing) => if l.fds == [] then None else Some(Marked(s, i))
    case (Release(_), Releasing) => if l.fds == [] then None else Some(Released(s, i))
    case (Crash(_), _) => Some(Crashed(s, i))
    case _ => None
  }

  function Next(s: Sys, step: Step): Option<Sys> {
    if step.i < |s.lockers| then LockerNext(s, step.i, step) else None
  }

  // --------------------------------------------------- what every locker knows

  /** Locker `i` is inside its critical section for its `j`-th file: locked and checked,
      and not yet given up. */
  predicate Guards(l: Locker, j: nat) {
    j < |l.fds| && (j == 0 ==> !l.pc.Writing? && !l.pc.Releasing?)
  }

  /** What a locker holds outside `fds`. */
  predicate Grips(pc: Pc, ino: Ino) {
    (pc.Checking? || pc.Reopening? || pc.ClosingOld?) && pc.ino == ino
  }

  predicate Owns(l: Locker, ino: Ino) {
    Grips(l.pc, ino) || exists j :: 0 <= j < |l.fds| && l.fds[j].ino == ino
  }

  /** Every file a locker holds is locked by it and was made for its path. */
  ghost predicate FdsOk(s: Sys, i: nat)
    requires i < |s.lockers|
  {
    var l := s.lockers[i];
    (forall j :: 0 <= j < |l.fds| ==>
      l.fds[j].ino in s.home && s.home[l.fds[j].ino] == l.fds[j].path &&
      l.fds[j].ino in s.flocks && s.flocks[l.fds[j].ino] == i) &&
    (l.pc.Checking? && l.pc.ino !in s.stale ==> l.pc.ino in s.flocks && s.flocks[l.pc.ino] == i)
  }

  ghost predicate Ordered(l: Locker) {
    forall j, k :: 0 <= j < k < |l.fds| ==> Less(l.fds[j].path, l.fds[k].path)
  }

  /** No file guarded carries a token. */
  ghost predicate GuardsOk(s: Sys, i: nat)
    requires i < |s.lockers|
  {
    var l := s.lockers[i];
    forall j :: 0 <= j < |l.fds| && Guards(l, j) ==> l.fds[j].ino !in s.stale
  }

  ghost predicate PcOk(s: Sys, i: nat)
    requires i < |s.lockers|
  {
    var l := s.lockers[i];
    (Locking(l.pc) ==> Sorted(l.paths) && |l.fds| < |l.paths|) &&
    (Locking(l.pc) ==> forall j :: 0 <= j < |l.fds| && j < |l.paths| ==> l.fds[j].path == l.paths[j]) &&
    (Locking(l.pc) && !l.pc.Opening? && |l.fds| < |l.paths| ==>
      l.pc.ino in s.home && s.home[l.pc.ino] == l.paths[|l.fds|]) &&
    (l.pc.ClosingOld? && |l.fds| < |l.paths| ==> l.pc.next in s.home && s.home[l.pc.next] == l.paths[|l.fds|]) &&
    (l.pc.Reopening? || l.pc.ClosingOld? ==> l.pc.ino in s.stale) &&
    (l.pc.Idle? ==> l.fds == []) &&
    (l.pc.Unlinking? || l.pc.Writing? || l.pc.Releasing? ==> l.fds != []) &&
    (l.pc.Writing? && l.fds != [] ==> l.fds[0].ino !in s.stale) &&
    (l.pc.Unlinking? || l.pc.Writing? ==> l.deletePaths) &&
    (l.pc.Releasing? && l.fds != [] ==> (l.fds[0].ino in s.stale <==> l.deletePaths))
  }

  ghost predicate LockerOk(s: Sys, i: nat)
    requires i < |s.lockers|
  {
    FdsOk(s, i) && Ordered(s.lockers[i]) && GuardsOk(s, i) && PcOk(s, i)
  }

  ghost predicate FilesOk(s: Sys) {
    (forall p :: p in s.names ==> s.names[p] in s.home && s.home[s.names[p]] == p) &&
    s.stale <= s.home.Keys && s.flocks.Keys <= s.home.Keys &&
    (forall ino :: ino in s.flocks ==> s.flocks[ino] < |s.lockers| && Owns(s.lockers[s.flocks[ino]], ino))
  }

  /** What holds whatever the lockers do and whenever they die, unless a wait for a file
      without a token is cut short. */
  ghost predicate Base(s: Sys) {
    FilesOk(s) && forall i :: 0 <= i < |s.lockers| ==> LockerOk(s, i)
  }

  /** What a step of locker `i` leaves to everybody else. */
  ghost predicate Polite(s: Sys, t: Sys, i: nat) {
    |t.lockers| == |s.lockers| && i < |s.lockers| &&
    (forall k :: 0 <= k < |s.lockers| && k != i ==> t.lockers[k] == s.lockers[k]) &&
    (forall ino :: ino in s.home ==> ino in t.home && t.home[ino] == s.home[ino]) &&
    (forall ino :: ino in s.flocks && s.flocks[ino] != i ==> ino in t.flocks && t.flocks[ino] == s.flocks[ino]) &&
    s.stale <= t.stale &&
    (forall ino :: ino in s.flocks && s.flocks[ino] != i && ino in t.stale ==> ino in s.stale)
  }

  lemma PoliteKeepsOthers(s: Sys, t: Sys, i: nat, k: nat)
    requires Polite(s, t, i) && k < |s.lockers| && k != i && LockerOk(s, k)
    ensures LockerOk(t, k)
  {
    hide Less, Sorted;
    var l := s.lockers[k];
    forall j | 0 <= j < |l.fds| && Guards(l, j) ensures l.fds[j].ino !in t.stale {
      assert s.flocks[l.fds[j].ino] == k;
    }
  }

  /** Everything a step must show: its own locker, the files, and the others. */
  ghost predicate Keeps(s: Sys, t: Sys, i: nat) {
    Polite(s, t, i) && LockerOk(t, i) && FilesOk(t)
  }

  lemma LockerAt(s: Sys, i: nat)
    requires Base(s) && i < |s.lockers|
    ensures LockerOk(s, i) && FilesOk(s)
  {
    hide LockerOk, FilesOk;
  }

  lemma PcAt(s: Sys, i: nat)
    requires Base(s) && i < |s.lockers|
    ensures PcOk(s, i)
  {
    hide PcOk;
    LockerAt(s, i);
  }

  lemma FilesAt(s: Sys)
    requires Base(s)
    ensures FilesOk(s)
  {
    hide LockerOk, FilesOk;
  }

  lemma BoundHome(s: Sys, p: Path)
    requires FilesOk(s) && p in s.names
    ensures s.names[p] in s.home && s.home[s.names[p]] == p
  {
  }

  lemma FirstIsLocked(s: Sys, i: nat)
    requires Base(s) && i < |s.lockers| && s.lockers[i].fds != []
    ensures s.lockers[i].fds[0].ino in s.home && s.home[s.lockers[i].fds[0].ino] == s.lockers[i].fds[0].path
    ensures s.lockers[i].fds[0].ino in s.flocks && s.flocks[s.lockers[i].fds[0].ino] == i
  {
    hide FilesOk, PcOk, GuardsOk, Ordered;
    assert LockerOk(s, i);
  }

  /** What a locker is about to lock is not among what it holds. */
  lemma NextIsNew(s: Sys, i: nat, j: nat)
    requires i < |s.lockers| && LockerOk(s, i) && Locking(s.lockers[i].pc) && !s.lockers[i].pc.Opening?
    requires j < |s.lockers[i].fds|
    ensures s.lockers[i].fds[j].ino != s.lockers[i].pc.ino
  {
    var l := s.lockers[i];
    assert Less(l.paths[j], l.paths[|l.fds|]);
    LessIsStrictTotalOrder(l.paths[j], l.paths[j], l.paths[j]);
  }

  /** A locker never holds one file twice. */
  lemma FdsDistinct(s: Sys, i: nat, j: nat, k: nat)
    requires i < |s.lockers| && FdsOk(s, i) && Ordered(s.lockers[i]) && j < k < |s.lockers[i].fds|
    ensures s.lockers[i].fds[j].ino != s.lockers[i].fds[k].ino && s.lockers[i].fds[j].path != s.lockers[i].fds[k].path
  {
    LessIsStrictTotalOrder(s.lockers[i].fds[j].path, s.lockers[i].fds[j].path, s.lockers[i].fds[j].path);
  }

  // ----------------------------------------------------- every step, one by one

  /** Steps that only move their locker along. */
  lemma MoveKeeps(s: Sys, i: nat, l: Locker)
    requires Base(s) && i < |s.lockers| && l.fds == s.lockers[i].fds
    requires !s.lockers[i].pc.Writing? && !s.lockers[i].pc.Releasing?
    requires forall ino :: Grips(s.lockers[i].pc, ino) ==> Grips(l.pc, ino)
    requires l.pc.Checking? ==> l.pc.ino in s.stale
    requires PcOk(Put(s, i, l), i)
    ensures Keeps(s, Put(s, i, l), i)
  {
    hide Less, PcOk, Sorted;
    assert LockerOk(s, i);
  }

  /** What an open does to its locker: `l` is the locker after it. */
  predicate AfterOpen(s: Sys, i: nat, unused: Ino, l: Locker) {
    i < |s.lockers| && unused !in s.home && l.fds == s.lockers[i].fds &&
    ((s.lockers[i].pc.Opening? && l.pc.Trying?) ||
     (s.lockers[i].pc.Reopening? && l.pc.ClosingOld? && l.pc.ino == s.lockers[i].pc.ino)) &&
    |l.fds| < |l.paths| && l.paths == s.lockers[i].paths &&
    Opened(s, l.paths[|l.fds|], unused) == if l.pc.Trying? then l.pc.ino else l.pc.next
  }

  lemma OpenKeepsOthers(s: Sys, i: nat, unused: Ino, l: Locker)
    requires Base(s) && AfterOpen(s, i, unused, l)
    ensures Polite(s, Put(WithFile(s, l.paths[|l.fds|], unused), i, l), i)
  {
    hide Less, Sorted, Ordered, PcOk, FilesOk;
  }

  lemma OpenKeepsOwn(s: Sys, i: nat, unused: Ino, l: Locker)
    requires Base(s) && AfterOpen(s, i, unused, l)
    ensures LockerOk(Put(WithFile(s, l.paths[|l.fds|], unused), i, l), i)
  {
    hide Less, Sorted, FilesOk;
    var p := l.paths[|l.fds|];
    assert LockerOk(s, i);
    if p in s.names {
      BoundHome(s, p);
    }
  }

  lemma OpenKeepsFiles(s: Sys, i: nat, unused: Ino, l: Locker)
    requires Base(s) && AfterOpen(s, i, unused, l)
    ensures FilesOk(Put(WithFile(s, l.paths[|l.fds|], unused), i, l))
  {
    hide LockerOk;
  }

  lemma OpenKeeps(s: Sys, i: nat, unused: Ino, l: Locker)
    requires Base(s) && AfterOpen(s, i, unused, l)
    ensures Keeps(s, Put(WithFile(s, l.paths[|l.fds|], unused), i, l), i)
  {
    hide Polite, LockerOk, FilesOk;
    OpenKeepsOthers(s, i, unused, l);
    OpenKeepsOwn(s, i, unused, l);
    OpenKeepsFiles(s, i, unused, l);
  }

  lemma GrabKeeps(s: Sys, i: nat, ino: Ino)
    requires Base(s) && i < |s.lockers| && ino !in s.flocks
    requires (s.lockers[i].pc.Trying? || s.lockers[i].pc.Waiting?) && s.lockers[i].pc.ino == ino
    ensures Keeps(s, Grabbed(s, i, ino), i)
  {
    hide Less, Sorted;
    assert LockerOk(s, i);
  }

  lemma PushKeepsOwn(s: Sys, i: nat)
    requires Base(s) && i < |s.lockers| && s.lockers[i].pc.Checking? && |s.lockers[i].fds| < |s.lockers[i].paths|
    requires s.lockers[i].pc.ino !in s.stale
    ensures LockerOk(Pushed(s, i), i)
  {
    hide Less, FilesOk;
    var l := s.lockers[i];
    var more := l.fds + [Fd(l.paths[|l.fds|], l.pc.ino)];
    assert LockerOk(s, i);
    assert more[|l.fds|].ino == l.pc.ino;
    assert forall j :: 0 <= j < |l.fds| ==> more[j] == l.fds[j];
  }

  lemma PushKeepsFiles(s: Sys, i: nat)
    requires Base(s) && i < |s.lockers| && s.lockers[i].pc.Checking? && |s.lockers[i].fds| < |s.lockers[i].paths|
    requires s.lockers[i].pc.ino !in s.stale
    ensures FilesOk(Pushed(s, i))
  {
    hide Less, GuardsOk, Ordered, PcOk;
    var l := s.lockers[i];
    var more := l.fds + [Fd(l.paths[|l.fds|], l.pc.ino)];
    assert more[|l.fds|].ino == l.pc.ino;
    assert forall j :: 0 <= j < |l.fds| ==> more[j] == l.fds[j];
  }

  lemma PushKeeps(s: Sys, i: nat)
    requires Base(s) && i < |s.lockers| && s.lockers[i].pc.Checking? && |s.lockers[i].fds| < |s.lockers[i].paths|
    requires s.lockers[i].pc.ino !in s.stale
    ensures Keeps(s, Pushed(s, i), i)
  {
    hide LockerOk, FilesOk;
    PushKeepsOwn(s, i);
    PushKeepsFiles(s, i);
  }

  lemma DropKeepsOwn(s: Sys, i: nat)
    requires Base(s) && i < |s.lockers| && s.lockers[i].pc.ClosingOld?
    ensures LockerOk(Dropped(s, i), i)
  {
    hide Less, Sorted, FilesOk;
    var l := s.lockers[i];
    assert LockerOk(s, i);
    forall j | 0 <= j < |l.fds| ensures l.fds[j].ino != l.pc.ino {
      NextIsNew(s, i, j);
    }
  }

  lemma DropKeepsFiles(s: Sys, i: nat)
    requires Base(s) && i < |s.lockers| && s.lockers[i].pc.ClosingOld?
    ensures FilesOk(Dropped(s, i))
  {
    hide Less, Sorted, GuardsOk, Ordered, PcOk, LockerOk;
    LockerAt(s, i);
    var l := s.lockers[i];
    forall j | 0 <= j < |l.fds| ensures l.fds[j].ino != l.pc.ino {
      NextIsNew(s, i, j);
    }
  }

  lemma DropKeeps(s: Sys, i: nat)
    requires Base(s) && i < |s.lockers| && s.lockers[i].pc.ClosingOld?
    ensures Keeps(s, Dropped(s, i), i)
  {
    hide LockerOk, FilesOk;
    DropKeepsOwn(s, i);
    DropKeepsFiles(s, i);
  }

  lemma UnlinkKeeps(s: Sys, i: nat, ok: bool)
    requires Base(s) && i < |s.lockers| && s.lockers[i].pc.Unlinking? && s.lockers[i].fds != []
    ensures Keeps(s, Unlinked(s, i, ok), i)
  {
    hide Less, Sorted;
    var l := s.lockers[i];
    assert LockerOk(s, i) && Guards(l, 0);
  }

  lemma MarkKeepsOthers(s: Sys, i: nat)
    requires Base(s) && i < |s.lockers| && s.lockers[i].pc.Writing? && s.lockers[i].fds != []
    ensures Polite(s, Marked(s, i), i)
  {
    hide LockerOk, FilesOk;
    FirstIsLocked(s, i);
  }

  lemma MarkKeepsOwn(s: Sys, i: nat)
    requires Base(s) && i < |s.lockers| && s.lockers[i].pc.Writing? && s.lockers[i].fds != []
    ensures LockerOk(Marked(s, i), i)
  {
    hide Less, Sorted, FilesOk;
    var l := s.lockers[i];
    assert LockerOk(s, i);
    forall j | 1 <= j < |l.fds| ensures l.fds[j].ino != l.fds[0].ino {
      FdsDistinct(s, i, 0, j);
    }
  }

  lemma MarkKeepsFiles(s: Sys, i: nat)
    requires Base(s) && i < |s.lockers| && s.lockers[i].pc.Writing? && s.lockers[i].fds != []
    ensures FilesOk(Marked(s, i))
  {
    hide LockerOk;
    FirstIsLocked(s, i);
  }

  lemma MarkKeeps(s: Sys, i: nat)
    requires Base(s) && i < |s.lockers| && s.lockers[i].pc.Writing? && s.lockers[i].fds != []
    ensures Keeps(s, Marked(s, i), i)
  {
    hide Polite, LockerOk, FilesOk;
    MarkKeepsOthers(s, i);
    MarkKeepsOwn(s, i);
    MarkKeepsFiles(s, i);
  }

  lemma ReleaseKeepsOwn(s: Sys, i: nat)
    requires Base(s) && i < |s.lockers| && s.lockers[i].pc.Releasing? && s.lockers[i].fds != []
    ensures LockerOk(Released(s, i), i)
  {
    hide Less, Sorted, FilesOk;
    var l := s.lockers[i];
    var rest := l.fds[1..];
    assert LockerOk(s, i);
    forall j | 1 <= j < |l.fds| ensures l.fds[j].ino != l.fds[0].ino {
      FdsDistinct(s, i, 0, j);
    }
    assert forall j :: 0 <= j < |rest| ==> rest[j] == l.fds[j + 1];
  }

  lemma ReleaseKeepsFiles(s: Sys, i: nat)
    requires Base(s) && i < |s.lockers| && s.lockers[i].pc.Releasing? && s.lockers[i].fds != []
    ensures FilesOk(Released(s, i))
  {
    hide LockerOk, Less;
    LockerAt(s, i);
    FirstIsLocked(s, i);
    var l := s.lockers[i];
    var rest := l.fds[1..];
    assert forall j :: 1 <= j < |l.fds| ==> l.fds[j] == rest[j - 1];
  }

  lemma ReleaseKeeps(s: Sys, i: nat)
    requires Base(s) && i < |s.lockers| && s.lockers[i].pc.Releasing? && s.lockers[i].fds != []
    ensures Keeps(s, Released(s, i), i)
  {
    hide LockerOk, FilesOk;
    ReleaseKeepsOwn(s, i);
    ReleaseKeepsFiles(s, i);
  }

  lemma CrashKeepsOwn(s: Sys, i: nat)
    requires Base(s) && i < |s.lockers|
    ensures LockerOk(Crashed(s, i), i)
  {
    hide Less, Sorted, FilesOk;
  }

  lemma CrashKeeps(s: Sys, i: nat)
    requires Base(s) && i < |s.lockers|
    ensures Keeps(s, Crashed(s, i), i)
  {
    hide LockerOk;
    CrashKeepsOwn(s, i);
  }

  /** flock returns without the lock to a waiter of a file without a token. */
  predicate CutShort(s: Sys, step: Step) {
    step.Interrupt? && step.i < |s.lockers| && s.lockers[step.i].pc.Waiting? && s.lockers[step.i].pc.ino !in s.stale
  }

  lemma FirstIsGuarded(s: Sys, i: nat)
    requires i < |s.lockers| && LockerOk(s, i)
    ensures s.lockers[i].fds != [] && !s.lockers[i].pc.Writing? && !s.lockers[i].pc.Releasing? ==>
              s.lockers[i].fds[0].ino !in s.stale
  {
    hide PcOk, FdsOk, Ordered;
    if s.lockers[i].fds != [] && !s.lockers[i].pc.Writing? && !s.lockers[i].pc.Releasing? {
      assert Guards(s.lockers[i], 0);
    }
  }

  lemma MoveStepKeeps(s: Sys, step: Step)
    requires Base(s) && Next(s, step).Some? && !CutShort(s, step)
    requires step.Lock? || step.SetDeletion? || step.Unlock? || step.Interrupt? ||
             (step.Try? && s.lockers[step.i].pc.ino in s.flocks) || (step.Check? && s.lockers[step.i].pc.ino in s.stale)
    ensures Keeps(s, Next(s, step).value, step.i)
  {
    hide Base, Keeps, Less, Sorted, FilesOk;
    LockerAt(s, step.i);
    FirstIsGuarded(s, step.i);
    MoveKeeps(s, step.i, Next(s, step).value.lockers[step.i]);
  }

  lemma StepKeeps(s: Sys, step: Step)
    requires Base(s) && Next(s, step).Some? && !CutShort(s, step)
    ensures Keeps(s, Next(s, step).value, step.i)
  {
    hide Base, Keeps, Less, Sorted, PcOk;
    var i := step.i;
    var l := s.lockers[i];
    match step
    case Open(_, unused) =>
      var ino := Opened(s, l.paths[|l.fds|], unused);
      OpenKeeps(s, i, unused, l.(pc := if l.pc.Opening? then Trying(ino) else ClosingOld(l.pc.ino, ino)));
    case Try(_) =>
      if l.pc.ino !in s.flocks {
        GrabKeeps(s, i, l.pc.ino);
      } else {
        MoveStepKeeps(s, step);
      }
    case Block(_) => GrabKeeps(s, i, l.pc.ino);
    case Check(_) =>
      if l.pc.ino in s.stale {
        MoveStepKeeps(s, step);
      } else {
        PushKeeps(s, i);
      }
    case CloseOld(_) => DropKeeps(s, i);
    case UnlinkFile(_, ok) => UnlinkKeeps(s, i, ok);
    case WriteToken(_) => MarkKeeps(s, i);
    case Release(_) => ReleaseKeeps(s, i);
    case Crash(_) => CrashKeeps(s, i);
    case _ => MoveStepKeeps(s, step);
  }

  lemma StepKeepsBase(s: Sys, step: Step)
    requires Base(s) && Next(s, step).Some? && !CutShort(s, step)
    ensures step.i < |s.lockers| && Base(Next(s, step).value) && |Next(s, step).value.lockers| == |s.lockers|
    ensures forall k :: 0 <= k < |s.lockers| && k != step.i ==> Next(s, step).value.lockers[k] == s.lockers[k]
  {
    hide Next, LockerOk, FilesOk;
    StepKeeps(s, step);
    var t := Next(s, step).value;
    forall k | 0 <= k < |t.lockers| ensures LockerOk(t, k) {
      if k != step.i {
        PoliteKeepsOthers(s, t, step.i, k);
      }
    }
  }

  // ------------------------------------------------ which lock files are in play

  /** The lock name of its path leads to this file. */
  predicate Bound(s: Sys, ino: Ino) {
    ino in s.home && s.home[ino] in s.names && s.names[s.home[ino]] == ino
  }

  /** A locker that has opened this file and has yet to lock it or to look at it. */
  predicate OnTheWay(pc: Pc, ino: Ino) {
    ((pc.Trying? || pc.Waiting? || pc.Checking?) && pc.ino == ino) || (pc.ClosingOld? && pc.next == ino)
  }

  predicate GuardsFile(l: Locker, ino: Ino) {
    exists j :: 0 <= j < |l.fds| && Guards(l, j) && l.fds[j].ino == ino
  }

  /** A locker that relies on this file, or is about to. */
  predicate Opens(l: Locker, ino: Ino) {
    OnTheWay(l.pc, ino) || GuardsFile(l, ino)
  }

  predicate InUse(s: Sys, ino: Ino) {
    exists i :: 0 <= i < |s.lockers| && Opens(s.lockers[i], ino)
  }

  predicate DeletedBy(l: Locker, ino: Ino) {
    l.pc.Writing? && l.fds != [] && l.fds[0].ino == ino
  }

  /** Somebody has unlinked this file, or tried to, and not yet marked it. */
  predicate BeingDeleted(s: Sys, ino: Ino) {
    exists i :: 0 <= i < |s.lockers| && DeletedBy(s.lockers[i], ino)
  }

  /** A file that somebody guards or may come to guard. */
  predicate Live(s: Sys, ino: Ino) {
    ino in s.home && ino !in s.stale && !BeingDeleted(s, ino) && (Bound(s, ino) || InUse(s, ino))
  }

  /** The lock name leads to this file or, unless `strict`, to one that has its token and
      could not be unlinked, so that nobody new gets a lock there. */
  predicate Reached(s: Sys, ino: Ino, strict: bool)
    requires ino in s.home
  {
    s.home[ino] in s.names && (s.names[s.home[ino]] == ino || (!strict && s.names[s.home[ino]] in s.stale))
  }

  /** At most one file of a path is live, and it is the one the lock name leads to. */
  ghost predicate LiveOk(s: Sys, strict: bool) {
    (forall x :: Live(s, x) ==> Reached(s, x, strict)) &&
    (forall x, y :: Live(s, x) && Live(s, y) && s.home[x] == s.home[y] ==> x == y)
  }

  ghost predicate Inv(s: Sys, strict: bool) {
    Base(s) && LiveOk(s, strict)
  }

  /** The lock name of this path leads to a file with a token. */
  predicate Leftover(s: Sys, p: Path) {
    p in s.names && s.names[p] in s.stale
  }

  predicate OtherLive(s: Sys, x: Ino, p: Path) {
    exists y :: y in s.home && y != x && Live(s, y) && s.home[y] == p
  }

  /** What makes a crash between the unlink and the token do harm: the file is nameless,
      somebody else relies on it or is about to, and, where the question is exclusion,
      somebody can come to rely on another file of the same path. */
  predicate Exposes(s: Sys, i: nat, strict: bool)
    requires i < |s.lockers|
  {
    var l := s.lockers[i];
    l.pc.Writing? && l.fds != [] && !Bound(s, l.fds[0].ino) && InUse(s, l.fds[0].ino) &&
    (strict || !Leftover(s, l.fds[0].path) || OtherLive(s, l.fds[0].ino, l.fds[0].path))
  }

  /** Steps after which all is well: all of them but a crash that exposes a file, and a
      wait cut short. */
  predicate Harmless(s: Sys, step: Step, strict: bool) {
    !CutShort(s, step) && (step.Crash? && step.i < |s.lockers| ==> !Exposes(s, step.i, strict))
  }

  lemma DeletionStays(s: Sys, t: Sys, i: nat, x: Ino)
    requires i < |s.lockers| == |t.lockers|
    requires forall k :: 0 <= k < |s.lockers| && k != i ==> t.lockers[k] == s.lockers[k]
    requires DeletedBy(s.lockers[i], x) ==> DeletedBy(t.lockers[i], x)
    requires BeingDeleted(s, x)
    ensures BeingDeleted(t, x)
  {
    hide DeletedBy;
    var b :| 0 <= b < |s.lockers| && DeletedBy(s.lockers[b], x);
    assert DeletedBy(t.lockers[b], x);
  }

  /** Steps of locker `i` after which no file is live that was not before. */
  lemma LiveShrinks(s: Sys, t: Sys, i: nat, x: Ino)
    requires i < |s.lockers| == |t.lockers|
    requires forall k :: 0 <= k < |s.lockers| && k != i ==> t.lockers[k] == s.lockers[k]
    requires x in s.home && (x in s.stale ==> x in t.stale) && (Bound(t, x) ==> Bound(s, x))
    requires Opens(t.lockers[i], x) ==> Opens(s.lockers[i], x) || Bound(s, x)
    requires DeletedBy(s.lockers[i], x) ==> DeletedBy(t.lockers[i], x)
    requires Live(t, x)
    ensures Live(s, x)
  {
    hide Opens, DeletedBy, Bound;
    if BeingDeleted(s, x) {
      DeletionStays(s, t, i, x);
    }
    if InUse(t, x) {
      var b :| 0 <= b < |t.lockers| && Opens(t.lockers[b], x);
      assert b != i ==> Opens(s.lockers[b], x);
    }
  }

  lemma LiveFrame(s: Sys, t: Sys, strict: bool)
    requires LiveOk(s, strict) && s.stale <= t.stale
    requires forall x :: Live(t, x) ==> Live(s, x) && t.home[x] == s.home[x]
    requires forall x :: Live(t, x) && s.home[x] in s.names ==>
      s.home[x] in t.names && t.names[s.home[x]] == s.names[s.home[x]]
    ensures LiveOk(t, strict)
  {
    hide Live;
    forall x | Live(t, x) ensures x in s.home && x in t.home {
      LiveHome(s, x);
      LiveHome(t, x);
    }
    forall x | Live(t, x) ensures Reached(t, x, strict) {
      assert Live(s, x) && Reached(s, x, strict);
    }
    forall x, y | Live(t, x) && Live(t, y) && t.home[x] == t.home[y] ensures x == y {
      assert Live(s, x) && Live(s, y) && s.home[x] == s.home[y];
    }
  }

  lemma LiveHome(s: Sys, x: Ino)
    requires Live(s, x)
    ensures x in s.home && x !in s.stale
  {
  }

  /** Steps that open nothing and delete nothing. */
  predicate Quiet(s: Sys, step: Step) {
    !step.Open? && !step.UnlinkFile? && !step.WriteToken? &&
    (step.Crash? && step.i < |s.lockers| ==> !s.lockers[step.i].pc.Writing?)
  }

  lemma PushOpens(s: Sys, i: nat, x: Ino)
    requires i < |s.lockers| && s.lockers[i].pc.Checking? && |s.lockers[i].fds| < |s.lockers[i].paths|
    ensures Opens(Pushed(s, i).lockers[i], x) ==> Opens(s.lockers[i], x)
  {
    var l, m := s.lockers[i], Pushed(s, i).lockers[i];
    if GuardsFile(m, x) {
      var j :| 0 <= j < |m.fds| && Guards(m, j) && m.fds[j].ino == x;
      if j < |l.fds| {
        assert m.fds[j] == l.fds[j] && Guards(l, j);
      }
    }
  }

  lemma ReleaseOpens(s: Sys, i: nat, x: Ino)
    requires i < |s.lockers| && s.lockers[i].fds != [] && s.lockers[i].pc.Releasing?
    ensures Opens(Released(s, i).lockers[i], x) ==> Opens(s.lockers[i], x)
  {
    var l, m := s.lockers[i], Released(s, i).lockers[i];
    if GuardsFile(m, x) {
      var j :| 0 <= j < |m.fds| && Guards(m, j) && m.fds[j].ino == x;
      assert m.fds[j] == l.fds[j + 1] && Guards(l, j + 1);
    }
  }

  /** The same files, held by a locker that has at most given up its hold on the first. */
  lemma SameFdsOpens(l: Locker, m: Locker, x: Ino)
    requires m.fds == l.fds && !l.pc.Writing? && !l.pc.Releasing?
    requires OnTheWay(m.pc, x) ==> OnTheWay(l.pc, x)
    ensures Opens(m, x) ==> Opens(l, x)
  {
    if GuardsFile(m, x) {
      var j :| 0 <= j < |m.fds| && Guards(m, j) && m.fds[j].ino == x;
      assert Guards(l, j);
    }
  }

  lemma QuietOpens(s: Sys, step: Step, x: Ino)
    requires Next(s, step).Some? && Quiet(s, step)
    ensures var (l, m) := (s.lockers[step.i], Next(s, step).value.lockers[step.i]);
      (Opens(m, x) ==> Opens(l, x)) && !DeletedBy(l, x)
    ensures Next(s, step).value.names == s.names && Next(s, step).value.stale == s.stale
    ensures Next(s, step).value.home == s.home
  {
    hide Opens, Sorted;
    var l := s.lockers[step.i];
    if step.Release? {
      ReleaseOpens(s, step.i, x);
    } else if step.Check? && l.pc.ino !in s.stale {
      PushOpens(s, step.i, x);
    } else if step.Crash? {
      NoFdsOpens(Next(s, step).value.lockers[step.i], x);
    } else {
      SameFdsOpens(l, Next(s, step).value.lockers[step.i], x);
    }
  }

  lemma NoFdsOpens(l: Locker, x: Ino)
    requires l.fds == [] && (l.pc.Idle? || l.pc.Opening?)
    ensures !Opens(l, x)
  {
  }

  lemma QuietKeepsLive(s: Sys, step: Step, strict: bool)
    requires Inv(s, strict) && Next(s, step).Some? && Quiet(s, step) && !CutShort(s, step)
    ensures LiveOk(Next(s, step).value, strict)
  {
    hide Next, Base, LiveOk, Live, Opens, DeletedBy;
    StepKeepsBase(s, step);
    var t := Next(s, step).value;
    QuietOpens(s, step, 0);
    forall x | Live(t, x) ensures Live(s, x) {
      QuietOpens(s, step, x);
      LiveHome(t, x);
      LiveShrinks(s, t, step.i, x);
    }
    forall x | Live(t, x) ensures x in t.home {
      LiveHome(t, x);
    }
    LiveFrame(s, t, strict);
  }

  /** Opening a file that has a name: the file was live already, or is not yet. */
  lemma OpenBoundKeepsLive(s: Sys, i: nat, unused: Ino, l: Locker, strict: bool)
    requires Inv(s, strict) && AfterOpen(s, i, unused, l) && l.paths[|l.fds|] in s.names
    ensures LiveOk(Put(s, i, l), strict)
  {
    hide Base, LiveOk, Live, Opens, FilesOk;
    var t := Put(s, i, l);
    FilesAt(s);
    BoundHome(s, l.paths[|l.fds|]);
    forall x | Live(t, x) ensures x in t.home && Live(s, x) {
      LiveHome(t, x);
      OpenOpens(s, i, unused, l, x);
      LiveShrinks(s, t, i, x);
    }
    LiveFrame(s, t, strict);
  }

  lemma OpenOpens(s: Sys, i: nat, unused: Ino, l: Locker, x: Ino)
    requires AfterOpen(s, i, unused, l)
    ensures Opens(l, x) ==> Opens(s.lockers[i], x) || x == Opened(s, l.paths[|l.fds|], unused)
    ensures !DeletedBy(s.lockers[i], x) && !DeletedBy(l, x)
  {
    if GuardsFile(l, x) {
      var j :| 0 <= j < |l.fds| && Guards(l, j) && l.fds[j].ino == x;
      assert Guards(s.lockers[i], j);
    }
  }

  /** Creating a file: its path had none that was live. */
  lemma CreateKeepsLive(s: Sys, i: nat, unused: Ino, l: Locker, strict: bool)
    requires Inv(s, strict) && AfterOpen(s, i, unused, l) && l.paths[|l.fds|] !in s.names
    ensures LiveOk(Put(WithFile(s, l.paths[|l.fds|], unused), i, l), strict)
  {
    hide Base, Live, Opens, FilesOk, Bound, DeletedBy;
    var p := l.paths[|l.fds|];
    var t := Put(WithFile(s, p, unused), i, l);
    FilesAt(s);
    forall x | Live(t, x) && x != unused
      ensures x in t.home && x in s.home && t.home[x] == s.home[x] && Live(s, x) && t.home[x] != p
    {
      LiveHome(t, x);
      OpenOpens(s, i, unused, l, x);
      CreateBound(s, t, p, unused, x);
      LiveShrinks(s, t, i, x);
      assert Reached(s, x, strict);
    }
    forall x | Live(t, x) ensures x in t.home && Reached(t, x, strict) {
      LiveHome(t, x);
      if x != unused {
        assert Live(s, x) && Reached(s, x, strict);
      }
    }
  }

  lemma CreateBound(s: Sys, t: Sys, p: Path, unused: Ino, x: Ino)
    requires p !in s.names && t.names == s.names[p := unused] && t.home == s.home[unused := p] && unused !in s.home
    requires x != unused
    ensures Bound(t, x) ==> Bound(s, x)
  {
  }

  lemma OpenKeepsLive(s: Sys, step: Step, strict: bool)
    requires Inv(s, strict) && step.Open? && Next(s, step).Some?
    ensures LiveOk(Next(s, step).value, strict)
  {
    hide Inv, LiveOk;
    var i, l := step.i, s.lockers[step.i];
    var p := l.paths[|l.fds|];
    var ino := Opened(s, p, step.unused);
    var m := l.(pc := if l.pc.Opening? then Trying(ino) else ClosingOld(l.pc.ino, ino));
    if p in s.names {
      OpenBoundKeepsLive(s, i, step.unused, m, strict);
    } else {
      CreateKeepsLive(s, i, step.unused, m, strict);
    }
  }

  /** A file guarded by somebody is live. */
  lemma GuardedIsLive(s: Sys, i: nat, j: nat)
    requires Base(s) && i < |s.lockers| && Guards(s.lockers[i], j)
    ensures Live(s, s.lockers[i].fds[j].ino)
    ensures s.home[s.lockers[i].fds[j].ino] == s.lockers[i].fds[j].path
  {
    hide FilesOk, PcOk, Less;
    var l, x := s.lockers[i], s.lockers[i].fds[j].ino;
    assert LockerOk(s, i);
    assert GuardsFile(l, x) && Opens(l, x);
    if BeingDeleted(s, x) {
      var b :| 0 <= b < |s.lockers| && DeletedBy(s.lockers[b], x);
      FirstIsLocked(s, b);
      if j != 0 {
        FdsDistinct(s, i, 0, j);
      }
    }
  }

  lemma UnlinkOpens(s: Sys, i: nat, ok: bool, x: Ino)
    requires i < |s.lockers| && s.lockers[i].pc.Unlinking? && s.lockers[i].fds != []
    ensures Opens(Unlinked(s, i, ok).lockers[i], x) ==> Opens(s.lockers[i], x)
    ensures !DeletedBy(s.lockers[i], x)
    ensures DeletedBy(Unlinked(s, i, ok).lockers[i], x) <==> x == s.lockers[i].fds[0].ino
  {
    SameFdsOpens(s.lockers[i], Unlinked(s, i, ok).lockers[i], x);
  }

  lemma UnlinkKeepsLive(s: Sys, i: nat, ok: bool, strict: bool)
    requires Inv(s, strict) && i < |s.lockers| && s.lockers[i].pc.Unlinking? && s.lockers[i].fds != []
    ensures LiveOk(Unlinked(s, i, ok), strict)
  {
    hide Base, Live, Opens, DeletedBy, Reached;
    var t, mine := Unlinked(s, i, ok), s.lockers[i].fds[0];
    GuardedIsLive(s, i, 0);
    UnlinkOpens(s, i, ok, mine.ino);
    assert DeletedBy(t.lockers[i], mine.ino) && BeingDeleted(t, mine.ino);
    forall x | Live(t, x) ensures Live(s, x) && x in t.home && s.home[x] != mine.path {
      LiveHome(t, x);
      UnlinkOpens(s, i, ok, x);
      LiveShrinks(s, t, i, x);
      NotDeleted(t, x);
    }
    LiveFrame(s, t, strict);
  }

  lemma NotDeleted(s: Sys, x: Ino)
    requires Live(s, x)
    ensures !BeingDeleted(s, x)
  {
  }

  lemma MarkOpens(s: Sys, i: nat, x: Ino)
    requires i < |s.lockers| && s.lockers[i].pc.Writing? && s.lockers[i].fds != []
    ensures Opens(Marked(s, i).lockers[i], x) ==> Opens(s.lockers[i], x)
    ensures DeletedBy(s.lockers[i], x) <==> x == s.lockers[i].fds[0].ino
  {
    var l, m := s.lockers[i], Marked(s, i).lockers[i];
    if GuardsFile(m, x) {
      var j :| 0 <= j < |m.fds| && Guards(m, j) && m.fds[j].ino == x;
      assert Guards(l, j);
    }
  }

  lemma MarkKeepsLive(s: Sys, i: nat, strict: bool)
    requires Inv(s, strict) && i < |s.lockers| && s.lockers[i].pc.Writing? && s.lockers[i].fds != []
    ensures LiveOk(Marked(s, i), strict)
  {
    hide Base, Live, Opens, DeletedBy, LiveOk;
    var t := Marked(s, i);
    forall x | Live(t, x) ensures Live(s, x) && x in t.home {
      LiveHome(t, x);
      MarkOpens(s, i, x);
      LiveShrinks(s, t, i, x);
    }
    LiveFrame(s, t, strict);
  }

  /** Everything but the file a crashed locker had not marked yet. */
  lemma CrashedLive(s: Sys, i: nat, x: Ino)
    requires i < |s.lockers| && Live(Crashed(s, i), x)
    requires !DeletedBy(s.lockers[i], x)
    ensures Live(s, x)
  {
    hide Live, Opens, DeletedBy;
    var t := Crashed(s, i);
    NoFdsOpens(t.lockers[i], x);
    LiveHome(t, x);
    LiveShrinks(s, t, i, x);
  }

  lemma CrashedUse(s: Sys, i: nat, x: Ino)
    requires i < |s.lockers| && InUse(Crashed(s, i), x)
    ensures InUse(s, x)
  {
    hide Opens;
    var t := Crashed(s, i);
    NoFdsOpens(t.lockers[i], x);
    var b :| 0 <= b < |t.lockers| && Opens(t.lockers[b], x);
    assert Opens(s.lockers[b], x);
  }

  lemma CrashKeepsLive(s: Sys, i: nat, strict: bool)
    requires Inv(s, strict) && i < |s.lockers| && s.lockers[i].pc.Writing? && !Exposes(s, i, strict)
    ensures LiveOk(Crashed(s, i), strict)
  {
    hide Base, Live, InUse;
    var l, t := s.lockers[i], Crashed(s, i);
    PcAt(s, i);
    FirstIsLocked(s, i);
    var x, p := l.fds[0].ino, l.fds[0].path;
    forall y | Live(t, y) ensures y in t.home && (y != x ==> Live(s, y)) {
      LiveHome(t, y);
      if y != x {
        CrashedLive(s, i, y);
      }
    }
    if Live(t, x) {
      LiveUsed(t, x);
      if InUse(t, x) {
        CrashedUse(s, i, x);
      }
      assert Reached(t, x, strict);
      forall y | Live(t, y) && y != x ensures t.home[y] != p {
        assert Live(s, y) && Reached(s, y, strict);
      }
    }
  }

  lemma LiveUsed(s: Sys, x: Ino)
    requires Live(s, x)
    ensures Bound(s, x) || InUse(s, x)
  {
  }

  lemma StepKeepsLive(s: Sys, step: Step, strict: bool)
    requires Inv(s, strict) && Next(s, step).Some? && Harmless(s, step, strict)
    ensures LiveOk(Next(s, step).value, strict)
  {
    hide Inv, LiveOk, Exposes;
    if Quiet(s, step) {
      QuietKeepsLive(s, step, strict);
    } else if step.Open? {
      OpenKeepsLive(s, step, strict);
    } else if step.UnlinkFile? {
      UnlinkKeepsLive(s, step.i, step.ok, strict);
    } else if step.WriteToken? {
      MarkKeepsLive(s, step.i, strict);
    } else {
      CrashKeepsLive(s, step.i, strict);
    }
  }

  lemma StepKeepsInv(s: Sys, step: Step, strict: bool)
    requires Inv(s, strict) && Next(s, step).Some? && Harmless(s, step, strict)
    ensures Inv(Next(s, step).value, strict) && |Next(s, step).value.lockers| == |s.lockers|
    ensures forall k :: 0 <= k < |s.lockers| && k != step.i ==> Next(s, step).value.lockers[k] == s.lockers[k]
  {
    hide Next, Base, LiveOk, Exposes;
    StepKeepsBase(s, step);
    StepKeepsLive(s, step, strict);
  }

  /** The state after a whole run, or None when some step of it cannot happen. */
  function After(s: Sys, steps: seq<Step>): Option<Sys>
    decreases |steps|
  {
    if steps == [] then Some(s) else
    match Next(s, steps[0])
    case Some(t) => After(t, steps[1..])
    case None => None
  }

  predicate HarmlessRun(s: Sys, steps: seq<Step>, strict: bool)
    decreases |steps|
  {
    steps == [] ||
    (Harmless(s, steps[0], strict) &&
     (Next(s, steps[0]).Some? ==> HarmlessRun(Next(s, steps[0]).value, steps[1..], strict)))
  }

  lemma {:induction false} RunKeepsInv(s: Sys, steps: seq<Step>, strict: bool)
    requires Inv(s, strict) && After(s, steps).Some? && HarmlessRun(s, steps, strict)
    ensures Inv(After(s, steps).value, strict)
    decreases |steps|
  {
    hide Inv, Next, Harmless;
    if steps != [] {
      StepKeepsInv(s, steps[0], strict);
      RunKeepsInv(Next(s, steps[0]).value, steps[1..], strict);
    }
  }

  lemma InitInv(n: nat, strict: bool)
    ensures Inv(Init(n), strict)
  {
  }

  /** Every reachable state of every run of any number of lockers. */
  lemma Reachable(n: nat, steps: seq<Step>, strict: bool)
    requires After(Init(n), steps).Some? && HarmlessRun(Init(n), steps, strict)
    ensures Inv(After(Init(n), steps).value, strict)
  {
    hide Inv;
    InitInv(n, strict);
    RunKeepsInv(Init(n), steps, strict);
  }

  // --------------------------------------------------------- what locks are for

  /** Two lockers are never inside the critical section of one path, even while a third
      has unlinked that path's lock file and not yet closed it. */
  lemma MutualExclusion(s: Sys, a: nat, b: nat, j: nat, k: nat, strict: bool)
    requires Inv(s, strict) && a < |s.lockers| && b < |s.lockers|
    requires Guards(s.lockers[a], j) && Guards(s.lockers[b], k)
    requires s.lockers[a].fds[j].path == s.lockers[b].fds[k].path
    ensures a == b && j == k
  {
    hide Less, Sorted, Live, FilesOk, PcOk, Reached;
    assert LockerOk(s, a) && LockerOk(s, b);
    GuardedIsLive(s, a, j);
    GuardedIsLive(s, b, k);
    if a == b && j < k {
      FdsDistinct(s, a, j, k);
    } else if a == b && k < j {
      FdsDistinct(s, a, k, j);
    }
  }

  /** One try for the next file: taken exactly if nobody holds it; otherwise the locker goes to
      sleep if it was asked to wait and gives up what it has if not. */
  lemma TryDecides(s: Sys, i: nat)
    requires i < |s.lockers| && s.lockers[i].pc.Trying?
    ensures Next(s, Try(i)).Some? && |Next(s, Try(i)).value.lockers| == |s.lockers|
    ensures var (l, t) := (s.lockers[i], Next(s, Try(i)).value);
      var m := t.lockers[i];
      if l.pc.ino !in s.flocks then m.pc == Checking(l.pc.ino) && l.pc.ino in t.flocks && t.flocks[l.pc.ino] == i
      else
        t.flocks == s.flocks && m.fds == l.fds &&
        if l.wait then m.pc == Waiting(l.pc.ino)
        else if l.fds == [] then m.pc.Idle? else m.pc == if l.deletePaths then Unlinking else Releasing
  {
  }

  /** A file its holder lets go of, crashes aside, is unlocked then, and it carries a token
      exactly if the holder was asked to delete it. */
  lemma LetGoMarked(s: Sys, i: nat)
    requires Base(s) && Next(s, Release(i)).Some?
    ensures var (fd, t) := (s.lockers[i].fds[0], Next(s, Release(i)).value);
      fd.ino in s.flocks && t.flocks == s.flocks - {fd.ino} &&
      (fd.ino in t.stale <==> s.lockers[i].deletePaths) && t.lockers[i].fds == s.lockers[i].fds[1..]
  {
    hide Base, FilesOk, Less;
    PcAt(s, i);
    FirstIsLocked(s, i);
  }

  /** A file somebody guards is the one its path's lock name leads to; after a crash past
      the unlink, that name may also lead to a file with a token. */
  lemma GuardedIsReached(s: Sys, i: nat, j: nat, strict: bool)
    requires Inv(s, strict) && i < |s.lockers| && Guards(s.lockers[i], j)
    ensures var fd := s.lockers[i].fds[j];
      fd.path in s.names && (s.names[fd.path] == fd.ino || (!strict && s.names[fd.path] in s.stale))
  {
    hide Base, Live;
    GuardedIsLive(s, i, j);
    LiveHome(s, s.lockers[i].fds[j].ino);
    assert Reached(s, s.lockers[i].fds[j].ino, strict);
  }

  /** A locked file without a token is the one its path's lock name leads to. */
  lemma CheckedIsBound(s: Sys, i: nat, ino: Ino)
    requires Inv(s, true) && i < |s.lockers| && ino in s.home && ino !in s.stale
    requires s.lockers[i].pc == Checking(ino)
    ensures s.home[ino] in s.names && s.names[s.home[ino]] == ino
  {
    hide FilesOk, PcOk, Less;
    assert LockerOk(s, i) && Opens(s.lockers[i], ino);
    if BeingDeleted(s, ino) {
      var b :| 0 <= b < |s.lockers| && DeletedBy(s.lockers[b], ino);
      FirstIsLocked(s, b);
    }
    assert Live(s, ino) && Reached(s, ino, true);
  }

  /** Deleting a lock file only ever removes the deleter's own, or the name of one that
      somebody else has deleted already. */
  lemma UnlinksItsOwn(s: Sys, i: nat, strict: bool)
    requires Inv(s, strict) && i < |s.lockers| && s.lockers[i].pc.Unlinking?
    ensures s.lockers[i].fds != [] && Guards(s.lockers[i], 0)
    ensures var fd := s.lockers[i].fds[0];
      fd.path in s.names && (s.names[fd.path] == fd.ino || (!strict && s.names[fd.path] in s.stale))
  {
    hide LockerOk, FilesOk, LiveOk;
    PcAt(s, i);
    GuardedIsReached(s, i, 0, strict);
  }

  /** `a` sleeps in flock on a file `b` has locked. */
  predicate WaitsFor(s: Sys, a: nat, b: nat) {
    a < |s.lockers| && b < |s.lockers| && s.lockers[a].pc.Waiting? &&
    s.lockers[a].pc.ino in s.flocks && s.flocks[s.lockers[a].pc.ino] == b
  }

  /** `a` and `b` are both in the middle of locking, `b` at a later path. */
  predicate Ahead(s: Sys, a: nat, b: nat) {
    a < |s.lockers| && b < |s.lockers| &&
    |s.lockers[a].fds| < |s.lockers[a].paths| && |s.lockers[b].fds| < |s.lockers[b].paths| &&
    Less(s.lockers[a].paths[|s.lockers[a].fds|], s.lockers[b].paths[|s.lockers[b].fds|])
  }

  lemma AheadIsStrictOrder(s: Sys, a: nat, b: nat, c: nat)
    ensures !Ahead(s, a, a)
    ensures Ahead(s, a, b) && Ahead(s, b, c) ==> Ahead(s, a, c)
  {
    hide Less;
    forall p, q, r ensures !Less(p, p) && (Less(p, q) && Less(q, r) ==> Less(p, r)) {
      LessIsStrictTotalOrder(p, q, r);
    }
  }

  /** Whoever is waited for waits, if at all, for a later path. */
  lemma WaitsAscend(s: Sys, a: nat, b: nat, c: nat)
    requires Base(s) && WaitsFor(s, a, b) && WaitsFor(s, b, c)
    ensures Ahead(s, a, b)
  {
    hide Less;
    PcAt(s, a);
    PcAt(s, b);
    var ino, l := s.lockers[a].pc.ino, s.lockers[b];
    assert LockerOk(s, b) && Owns(l, ino);
    var j :| 0 <= j < |l.fds| && l.fds[j].ino == ino;
    assert l.fds[j].path == l.paths[j] && Less(l.paths[j], l.paths[|l.fds|]);
  }

  predicate WaitChain(s: Sys, chain: seq<nat>) {
    forall k :: 0 <= k < |chain| - 1 ==> WaitsFor(s, chain[k], chain[k + 1])
  }

  lemma {:induction false} ChainAscends(s: Sys, chain: seq<nat>, last: nat)
    requires Base(s) && |chain| >= 2 && WaitChain(s, chain) && WaitsFor(s, chain[|chain| - 1], last)
    ensures Ahead(s, chain[0], chain[|chain| - 1])
  {
    hide Base, Ahead, WaitsFor;
    var n := |chain|;
    assert WaitsFor(s, chain[n - 2], chain[n - 2 + 1]);
    WaitsAscend(s, chain[n - 2], chain[n - 1], last);
    if n > 2 {
      var few := chain[..n - 1];
      forall k | 0 <= k < |few| - 1 ensures WaitsFor(s, few[k], few[k + 1]) {
        assert WaitsFor(s, chain[k], chain[k + 1]);
      }
      ChainAscends(s, few, chain[n - 1]);
      AheadIsStrictOrder(s, chain[0], chain[n - 2], chain[n - 1]);
    }
  }

  /** Taking locks in path order leaves no cycle of lockers waiting for each other. */
  lemma NoWaitCycle(s: Sys, chain: seq<nat>)
    requires Base(s) && |chain| >= 1 && WaitChain(s, chain)
    ensures !WaitsFor(s, chain[|chain| - 1], chain[0])
  {
    hide Base, Ahead, WaitsFor;
    if WaitsFor(s, chain[|chain| - 1], chain[0]) {
      var round := chain + [chain[0]];
      forall k | 0 <= k < |round| - 1 ensures WaitsFor(s, round[k], round[k + 1]) {
        if k < |chain| - 1 {
          assert WaitsFor(s, chain[k], chain[k + 1]);
        }
      }
      assert WaitsFor(s, round[0], round[1]);
      ChainAscends(s, round, round[1]);
      AheadIsStrictOrder(s, chain[0], chain[0], chain[0]);
    }
  }


  // -------------------------------------------------------- the locker itself

  /** What becomes of a locker that nobody else interferes with: it has its locks, it gave
      them up because one was taken, or it is in flock on a locked file, or it opens a file
      with a token over and over. */
  datatype Outcome = Acquired | GaveUp | WouldWait(ino: Ino) | WouldSpin(ino: Ino)

  /** No lock file, or one that nobody has locked and nobody has deleted. */
  predicate Free(names: map<Path, Ino>, stale: set<Ino>, flocks: map<Ino, nat>, p: Path) {
    p in names ==> names[p] !in stale && names[p] !in flocks
  }

  function Inos(fds: seq<Fd>): set<Ino> {
    set fd | fd in fds :: fd.ino
  }

  function Paths(fds: seq<Fd>): set<Path> {
    set fd | fd in fds :: fd.path
  }

  /** The lock directory `n1`, `s1`, `f1` after these files of `n0`, `s0`, `f0` are let go:
      unlocked, and if asked for without their names and with a token each. */
  predicate LetGo(fds: seq<Fd>, deletePaths: bool, refuses: set<Path>, n0: map<Path, Ino>, s0: set<Ino>, f0: map<Ino, nat>,
                  n1: map<Path, Ino>, s1: set<Ino>, f1: map<Ino, nat>)
  {
    f1 == f0 - Inos(fds) &&
    n1 == (if deletePaths then n0 - (Paths(fds) - refuses) else n0) &&
    s1 == (if deletePaths then s0 + Inos(fds) else s0)
  }

  lemma LetGoOne(fds: seq<Fd>, fd: Fd, d: bool, refuses: set<Path>, n0: map<Path, Ino>, s0: set<Ino>, f0: map<Ino, nat>,
                 n1: map<Path, Ino>, s1: set<Ino>, f1: map<Ino, nat>, n2: map<Path, Ino>, s2: set<Ino>, f2: map<Ino, nat>)
    requires LetGo(fds, d, refuses, n0, s0, f0, n1, s1, f1)
    requires f2 == f1 - {fd.ino} && n2 == (if d then n1 - ({fd.path} - refuses) else n1)
    requires s2 == if d then s1 + {fd.ino} else s1
    ensures LetGo(fds + [fd], d, refuses, n0, s0, f0, n2, s2, f2)
  {
    assert Inos(fds + [fd]) == Inos(fds) + {fd.ino};
    assert Paths(fds + [fd]) == Paths(fds) + {fd.path};
    assert Paths(fds + [fd]) - refuses == (Paths(fds) - refuses) + ({fd.path} - refuses);
    hide Inos, Paths;
  }

  lemma LockedOne(fds: seq<Fd>, fd: Fd, flocks: map<Ino, nat>, id: nat)
    requires fd.ino !in flocks
    ensures flocks[fd.ino := id] - Inos(fds + [fd]) == flocks - Inos(fds)
  {
    assert Inos(fds + [fd]) == Inos(fds) + {fd.ino};
  }

  lemma LockedNone(flocks: map<Ino, nat>)
    ensures flocks - Inos([]) == flocks
  {
  }

  lemma LetGoNone(d: bool, refuses: set<Path>, names: map<Path, Ino>, stale: set<Ino>, flocks: map<Ino, nat>)
    ensures LetGo([], d, refuses, names, stale, flocks, names, stale, flocks)
  {
    assert Inos([]) == {} && Paths([]) == {};
  }

  /** One locker and the lock directory it shares. Its methods follow the machine above
      step by step, for as long as nobody else moves. */
  class PathLocks {
    const id: nat
    var names: map<Path, Ino>
    var stale: set<Ino>
    var flocks: map<Ino, nat>
    var unused: Ino
    var fds: seq<Fd>
    var deletePaths: bool
    ghost var sys: Sys

    ghost predicate Valid()
      reads this
    {
      Inv(sys, false) && id < |sys.lockers| &&
      sys.names == names && sys.stale == stale && sys.flocks == flocks &&
      sys.lockers[id].fds == fds && sys.lockers[id].deletePaths == deletePaths &&
      (forall ino :: ino in sys.home ==> ino < unused)
    }

    ghost function Me(): Locker
      reads this
      requires id < |sys.lockers|
    {
      sys.lockers[id]
    }

    /** Another locker over the same directory, joining as number `n`. */
    constructor (n: nat)
      ensures Valid() && id == n && Me().pc.Idle? && fds == [] && names == map[]
    {
      id, names, stale, flocks, unused, fds, deletePaths := n, map[], {}, map[], 0, [], false;
      sys := Init(n + 1);
      new;
      InitInv(n + 1, false);
    }

    /** open with O_CREAT. */
    method OpenLockFile(p: Path) returns (ino: Ino)
      requires Valid() && Me().pc.Opening? && |fds| < |Me().paths| && p == Me().paths[|fds|]
      modifies this
      ensures Valid() && Next(old(sys), Open(id, old(unused))) == Some(sys)
      ensures fds == old(fds) && stale == old(stale) && flocks == old(flocks)
      ensures Me() == old(Me()).(pc := Trying(ino)) && p in names && names[p] == ino
      ensures ino == if p in old(names) then old(names)[p] else old(unused)
      ensures forall q :: q != p ==> (q in names <==> q in old(names)) && (q in names ==> names[q] == old(names)[q])
    {
      hide Inv, Less, Exposes;
      StepKeepsInv(sys, Open(id, unused), false);
      if p in names {
        ino := names[p];
      } else {
        ino := unused;
        names := names[p := ino];
      }
      sys := Next(sys, Open(id, unused)).value;
      unused := unused + 1;
    }

    /** The same for a file that turned out stale, which is closed once the new one is
        open. */
    method ReopenLockFile(p: Path, was: Ino) returns (ino: Ino)
      requires Valid() && Me().pc == Reopening(was) && |fds| < |Me().paths| && p == Me().paths[|fds|]
      requires p in names
      modifies this
      ensures Valid() && fds == old(fds) && stale == old(stale) && names == old(names)
      ensures Me() == old(Me()).(pc := Trying(ino)) && ino == names[p]
      ensures flocks == Unflock(old(flocks), was, id)
    {
      hide Inv, Less, Exposes;
      StepKeepsInv(sys, Open(id, unused), false);
      ino := names[p];
      sys := Next(sys, Open(id, unused)).value;
      StepKeepsInv(sys, CloseOld(id), false);
      sys := Next(sys, CloseOld(id)).value;
      flocks := Unflock(flocks, was, id);
    }

    /** flock, first with LOCK_NB and then, for a caller that wants to wait, without. */
    method LockFile(ino: Ino) returns (ok: bool)
      requires Valid() && Me().pc == Trying(ino)
      modifies this
      ensures Valid() && Next(old(sys), Try(id)) == Some(sys)
      ensures fds == old(fds) && stale == old(stale) && names == old(names)
      ensures flocks == if ok then old(flocks)[ino := id] else old(flocks)
      ensures Me() == old(Me()).(pc := if ok then Checking(ino) else if old(Me().wait) then Waiting(ino) else NextRelease(old(Me())))
      ensures ok == (ino !in old(flocks))
    {
      hide Inv, Less, Exposes;
      StepKeepsInv(sys, Try(id), false);
      sys := Next(sys, Try(id)).value;
      ok := ino !in flocks;
      if ok {
        flocks := flocks[ino := id];
      }
    }

    /** fstat on a locked file: kept if it has no token. */
    method KeepUnlessStale(p: Path, ino: Ino) returns (isStale: bool)
      requires Valid() && Me().pc == Checking(ino) && |fds| < |Me().paths| && p == Me().paths[|fds|]
      modifies this
      ensures Valid() && Next(old(sys), Check(id)) == Some(sys)
      ensures isStale == (ino in stale) && stale == old(stale) && names == old(names) && flocks == old(flocks)
      ensures fds == if isStale then old(fds) else old(fds) + [Fd(p, ino)]
      ensures Me().paths == old(Me().paths) && Me().wait == old(Me().wait)
      ensures Me().pc == if isStale then Reopening(ino) else if |fds| == |Me().paths| then Locked else Opening
    {
      hide Inv, Less, Exposes;
      StepKeepsInv(sys, Check(id), false);
      sys := Next(sys, Check(id)).value;
      isStale := ino in stale;
      if !isStale {
        fds := fds + [Fd(p, ino)];
      }
    }

    /** deleteLockFile: the name goes first, unless the system refuses, then the token is
        written all the same. */
    method DeleteLockFile(refuses: set<Path>)
      requires Valid() && fds != [] && Me().pc.Unlinking?
      modifies this
      ensures Valid() && fds == old(fds) && deletePaths == old(deletePaths) && Me().pc.Releasing?
      ensures names == old(names) - ({fds[0].path} - refuses) && stale == old(stale) + {fds[0].ino}
      ensures flocks == old(flocks)
    {
      hide Inv, Less, Sorted, Exposes, NextRelease, Unflock, WithFile, Opened;
      var ok := fds[0].path !in refuses;
      StepKeepsInv(sys, UnlinkFile(id, ok), false);
      sys := Next(sys, UnlinkFile(id, ok)).value;
      if ok {
        names := names - {fds[0].path};
      }
      StepKeepsInv(sys, WriteToken(id), false);
      sys := Next(sys, WriteToken(id)).value;
      stale := stale + {fds[0].ino};
    }

    /** close, which ends the lock. */
    method CloseFirst()
      requires Valid() && fds != [] && Me().pc.Releasing?
      modifies this
      ensures Valid() && fds == old(fds)[1..] && deletePaths == old(deletePaths) && Me().pc == NextRelease(Me())
      ensures names == old(names) && stale == old(stale) && flocks == old(flocks) - {old(fds)[0].ino}
    {
      hide Inv, Less, Exposes, Base, LiveOk;
      FirstIsMine();
      StepKeepsInv(sys, Step.Release(id), false);
      sys := Next(sys, Step.Release(id)).value;
      flocks := Unflock(flocks, fds[0].ino, id);
      fds := fds[1..];
    }

    lemma FirstIsMine()
      requires Valid() && fds != []
      ensures fds[0].ino in flocks && flocks[fds[0].ino] == id
    {
      hide Base, LiveOk;
      FirstIsLocked(sys, id);
    }

    /** setDeletion. */
    method SetDeletion(d: bool)
      requires Valid() && Me().pc.Locked?
      modifies this
      ensures Valid() && deletePaths == d && Me() == old(Me()).(deletePaths := d)
      ensures fds == old(fds) && names == old(names) && stale == old(stale) && flocks == old(flocks)
    {
      hide Inv, Less, Exposes;
      StepKeepsInv(sys, Step.SetDeletion(id, d), false);
      sys := Next(sys, Step.SetDeletion(id, d)).value;
      deletePaths := d;
    }

    /** unlock: every file is released, and if that was asked for each is deleted before,
        its name as far as the system lets it go. */
    method Unlock(refuses: set<Path>)
      requires Valid() && Me().pc == NextRelease(Me())
      modifies this
      ensures Valid() && fds == [] && Me().pc.Idle?
      ensures deletePaths == old(deletePaths)
      ensures LetGo(old(fds), old(deletePaths), refuses, old(names), old(stale), old(flocks), names, stale, flocks)
    {
      hide LetGo, Inv, NextRelease;
      ghost var n := 0;
      LetGoNone(deletePaths, refuses, names, stale, flocks);
      while fds != []
        invariant Valid() && Me().pc == NextRelease(Me()) && deletePaths == old(deletePaths)
        invariant 0 <= n <= |old(fds)| && fds == old(fds)[n..]
        invariant LetGo(old(fds)[..n], deletePaths, refuses, old(names), old(stale), old(flocks), names, stale, flocks)
        decreases |fds|
      {
        ghost var n1, s1, f1 := names, stale, flocks;
        assert Me().pc == if deletePaths then Unlinking else Releasing by { ReleaseStarts(Me()); }
        if deletePaths {
          DeleteLockFile(refuses);
        }
        CloseFirst();
        LetGoOne(old(fds)[..n], old(fds)[n], deletePaths, refuses, old(names), old(stale), old(flocks),
                 n1, s1, f1, names, stale, flocks);
        assert old(fds)[..n + 1] == old(fds)[..n] + [old(fds)[n]];
        n := n + 1;
      }
      assert old(fds)[..n] == old(fds);
      ReleaseStarts(Me());
    }

    method BeginLocking(paths: seq<Path>, wait: bool)
      requires Valid() && Me().pc.Idle? && Sorted(paths)
      modifies this
      ensures Valid() && fds == [] && names == old(names) && stale == old(stale) && flocks == old(flocks)
      ensures Me().paths == paths && Me().wait == wait && Me().pc == if paths == [] then Locked else Opening
    {
      hide Inv, Less, Exposes, Base, LiveOk;
      IdleHasNoFiles();
      StepKeepsInv(sys, Lock(id, paths, wait), false);
      sys := Next(sys, Lock(id, paths, wait)).value;
    }

    lemma IdleHasNoFiles()
      requires Valid() && Me().pc.Idle?
      ensures fds == []
    {
      hide Base, LiveOk;
      PcAt(sys, id);
    }

    /** A locked or deleted file belongs to one path only. */
    lemma OtherPathsAsFree(p: Path, ino: Ino, q: Path)
      requires Valid() && p in names && names[p] == ino && q != p
      ensures Free(names, stale, flocks[ino := id], q) == Free(names, stale, flocks, q)
    {
      hide Base, LiveOk;
      FilesAt(sys);
      if q in names {
        BoundHome(sys, p);
        BoundHome(sys, q);
      }
    }

    lemma UnusedIsFree()
      requires Valid()
      ensures unused !in stale && unused !in flocks
    {
      hide Base, LiveOk;
      FilesAt(sys);
    }

    /** The loop in lockPaths for one path: open, lock, and check for a token. Alone, it
        would find the same file each time it opened it again. */
    method LockNext(p: Path, wait: bool) returns (r: Outcome)
      requires Valid() && Me().pc.Opening? && Me().wait == wait && |fds| < |Me().paths| && p == Me().paths[|fds|]
      modifies this
      ensures Valid() && Me().paths == old(Me().paths) && Me().wait == wait && stale == old(stale)
      ensures r.Acquired? <==> Free(old(names), old(stale), old(flocks), p)
      ensures r.Acquired? ==>
        (exists ino :: fds == old(fds) + [Fd(p, ino)] && ino !in old(flocks) && flocks == old(flocks)[ino := id]) &&
        Me().pc == (if |fds| == |Me().paths| then Locked else Opening) &&
        forall q :: q != p ==> Free(names, stale, flocks, q) == Free(old(names), old(stale), old(flocks), q)
      ensures !r.Acquired? ==> fds == old(fds) && names == old(names)
      ensures forall q :: q != p ==> (q in names <==> q in old(names)) && (q in names ==> names[q] == old(names)[q])
      ensures r.GaveUp? ==> !wait && Me().pc == NextRelease(Me()) && names[p] in old(flocks) && flocks == old(flocks)
      ensures r.WouldWait? ==>
        wait && Me().pc == Waiting(r.ino) && p in names && names[p] == r.ino && r.ino in old(flocks) && r.ino in flocks
      ensures r.WouldSpin? ==>
        Me().pc == Trying(r.ino) && p in names && names[p] == r.ino && r.ino in stale && r.ino !in old(flocks)
    {
      hide Inv, Less, Next, Exposes;
      UnusedIsFree();
      var ino := OpenLockFile(p);
      forall q | q != p ensures Free(names, stale, flocks[ino := id], q) == Free(old(names), stale, flocks, q) {
        OtherPathsAsFree(p, ino, q);
      }
      var ok := LockFile(ino);
      if !ok {
        return if wait then WouldWait(ino) else GaveUp;
      }
      var isStale := KeepUnlessStale(p, ino);
      if isStale {
        var same := ReopenLockFile(p, ino);
        return WouldSpin(same);
      }
      assert fds == old(fds) + [Fd(p, ino)];
      return Acquired;
    }

    lemma LaterPathDiffers(paths: seq<Path>, k: nat, j: nat)
      requires Sorted(paths) && k < j < |paths|
      ensures paths[k] != paths[j]
    {
      LessIsStrictTotalOrder(paths[k], paths[k], paths[k]);
    }

    /** lockPaths, as far as it gets by itself: it has all the locks exactly if each path
        was free, and stops at the first that was not. */
    method LockPaths(paths: seq<Path>, wait: bool, refuses: set<Path>) returns (r: Outcome)
      requires Valid() && Me().pc.Idle? && Sorted(paths)
      modifies this
      ensures Valid()
      ensures r.Acquired? <==> forall p :: p in paths ==> Free(old(names), old(stale), old(flocks), p)
      ensures r.Acquired? ==>
        Me().pc.Locked? && |fds| == |paths| && forall j :: 0 <= j < |paths| ==> fds[j].path == paths[j] && Guards(Me(), j)
      ensures r.GaveUp? ==> !wait && Me().pc.Idle? && fds == [] && flocks == old(flocks)
      ensures r.WouldWait? || r.WouldSpin? ==>
        |fds| < |paths| && (forall j :: 0 <= j < |fds| ==> fds[j].path == paths[j]) &&
        paths[|fds|] in names && names[paths[|fds|]] == r.ino
      ensures r.WouldWait? ==> wait && Me().pc == Waiting(r.ino) && r.ino in flocks
      ensures r.WouldSpin? ==> Me().pc == Trying(r.ino) && r.ino in stale
    {
      hide Inv, Less, Sorted, Next, NextRelease, Exposes, Free, Inos;
      LockedNone(flocks);
      BeginLocking(paths, wait);
      while |fds| < |paths|
        invariant Valid() && |fds| <= |paths| && Me().paths == paths && Me().wait == wait
        invariant Me().pc == if |fds| == |paths| then Locked else Opening
        invariant forall j :: 0 <= j < |fds| ==> fds[j].path == paths[j]
        invariant forall j :: 0 <= j < |fds| ==> Free(old(names), old(stale), old(flocks), paths[j])
        invariant flocks - Inos(fds) == old(flocks) && stale == old(stale)
        invariant forall q :: q !in paths ==> (q in names <==> q in old(names)) && (q in names ==> names[q] == old(names)[q])
        invariant forall j :: |fds| <= j < |paths| ==>
          Free(names, stale, flocks, paths[j]) == Free(old(names), old(stale), old(flocks), paths[j])
        decreases |paths| - |fds|
      {
        ghost var n, fds0, flocks0 := |fds|, fds, flocks;
        forall j | n < j < |paths| ensures paths[j] != paths[n] {
          LaterPathDiffers(paths, n, j);
        }
        assert paths[n] in paths;
        r := LockNext(paths[|fds|], wait);
        if !r.Acquired? {
          if r.GaveUp? {
            Unlock(refuses);
          }
          return;
        }
        ghost var ino :| fds == fds0 + [Fd(paths[n], ino)] && ino !in flocks0 && flocks == flocks0[ino := id];
        LockedOne(fds0, Fd(paths[n], ino), flocks0, id);
      }
      r := Acquired;
    }
  }
}
