/** Exactly when a signal breaks mutual exclusion: a wait in flock that it cuts short
    counts as a lock. */
module LockSignals {
  import opened Results
  import opened Wire
  import Nar
  import opened PathLocks
  import opened LockCrashes

  // ------------------------------------------- guarding without a lock

  /** A locker that guards a file without having it locked. */
  predicate Unlocked(s: Sys, k: nat, j: nat) {
    k < |s.lockers| && Guards(s.lockers[k], j) &&
    !(s.lockers[k].fds[j].ino in s.flocks && s.flocks[s.lockers[k].fds[j].ino] == k)
  }

  ghost predicate MayGoUnlocked(s: Sys) {
    exists steps, t, k: nat, j: nat :: Ran(s, steps, t, false) && Unlocked(t, k, j)
  }

  lemma RunStaysLocked(s: Sys)
    requires Inv(s, false)
    ensures !MayGoUnlocked(s)
  {
    hide LiveOk, Guards, FilesOk, PcOk, GuardsOk, Ordered;
    forall steps, t, k: nat, j: nat | Ran(s, steps, t, false) ensures !Unlocked(t, k, j) {
      RunKeepsInv(s, steps, false);
      if k < |t.lockers| && Guards(t.lockers[k], j) {
        assert LockerOk(t, k);
        GuardsIsIndex(t.lockers[k], j);
      }
    }
  }

  lemma GuardsIsIndex(l: Locker, j: nat)
    requires Guards(l, j)
    ensures j < |l.fds|
  {
  }

  /** A wait cut short by a signal counts as a lock. It leads to a file guarded without
      its lock exactly if the file has no token: with one, the check makes up for it. */
  lemma CutShortExactly(s: Sys, i: nat)
    requires Inv(s, false) && Next(s, Interrupt(i)).Some?
    ensures MayGoUnlocked(Next(s, Interrupt(i)).value) <==> s.lockers[i].pc.ino !in s.stale
  {
    hide LiveOk, Base, Ran, Nar.Less, Sorted, MayGoUnlocked, Exposes;
    var t := Next(s, Interrupt(i)).value;
    if s.lockers[i].pc.ino in s.stale {
      StepKeepsInv(s, Interrupt(i), false);
      RunStaysLocked(t);
    } else {
      ChecksUnlocked(s, i);
    }
  }

  lemma WaiterIsNotHolder(s: Sys, i: nat)
    requires Base(s) && i < |s.lockers| && s.lockers[i].pc.Waiting? && s.lockers[i].pc.ino in s.flocks
    ensures s.flocks[s.lockers[i].pc.ino] != i && |s.lockers[i].fds| < |s.lockers[i].paths|
    ensures s.lockers[i].pc.ino in s.home && s.home[s.lockers[i].pc.ino] == s.lockers[i].paths[|s.lockers[i].fds|]
  {
    hide FilesOk, Base, Nar.Less;
    LockerAt(s, i);
    Holder(s, s.lockers[i].pc.ino);
    forall j | 0 <= j < |s.lockers[i].fds| ensures s.lockers[i].fds[j].ino != s.lockers[i].pc.ino {
      NextIsNew(s, i, j);
    }
  }

  lemma ChecksUnlocked(s: Sys, i: nat)
    requires Base(s) && Next(s, Interrupt(i)).Some? && s.lockers[i].pc.ino !in s.stale
    ensures MayGoUnlocked(Next(s, Interrupt(i)).value)
  {
    hide Ran, Spares, Nar.Less, Sorted, Base;
    var t := Next(s, Interrupt(i)).value;
    WaiterIsNotHolder(s, i);
    NoSteps(t, false);
    var steps, u := Extend(t, [], t, Check(i), false);
    assert Unlocked(u, i, |s.lockers[i].fds|);
  }

  // -------------------------------------- steps that do not notice locker `i`

  /** Two states of a locker that the others cannot tell apart by the files it relies on. */
  ghost predicate SameUse(l: Locker, m: Locker) {
    !l.pc.Writing? && !m.pc.Writing? && forall x :: Opens(l, x) <==> Opens(m, x)
  }

  lemma ShadowUse(s: Sys, i: nat, l: Locker, x: Ino)
    requires i < |s.lockers| && SameUse(s.lockers[i], l)
    ensures InUse(Put(s, i, l), x) <==> InUse(s, x)
    ensures BeingDeleted(Put(s, i, l), x) <==> BeingDeleted(s, x)
  {
    hide Opens;
    var t := Put(s, i, l);
    forall k | 0 <= k < |s.lockers|
      ensures Opens(t.lockers[k], x) <==> Opens(s.lockers[k], x)
      ensures DeletedBy(t.lockers[k], x) <==> DeletedBy(s.lockers[k], x)
    {
    }
  }

  lemma ShadowLive(s: Sys, i: nat, l: Locker, x: Ino)
    requires i < |s.lockers| && SameUse(s.lockers[i], l)
    ensures Live(Put(s, i, l), x) <==> Live(s, x)
  {
    hide InUse, BeingDeleted;
    ShadowUse(s, i, l, x);
  }

  lemma ShadowExposes(s: Sys, i: nat, l: Locker, k: nat)
    requires i < |s.lockers| && SameUse(s.lockers[i], l) && k < |s.lockers| && k != i
    ensures Exposes(Put(s, i, l), k, false) <==> Exposes(s, k, false)
  {
    hide InUse, Live, SameUse;
    var t := Put(s, i, l);
    forall x ensures (InUse(t, x) <==> InUse(s, x)) && (Live(t, x) <==> Live(s, x)) {
      ShadowUse(s, i, l, x);
      ShadowLive(s, i, l, x);
    }
  }

  lemma ShadowPut(s: Sys, i: nat, l: Locker, k: nat, m: Locker)
    requires i < |s.lockers| && k < |s.lockers| && k != i
    ensures Put(Put(s, i, l), k, m) == Put(Put(s, k, m), i, l)
  {
    assert s.lockers[i := l][k := m] == s.lockers[k := m][i := l];
  }

  lemma ShadowNext(s: Sys, i: nat, l: Locker, z: Step)
    requires i < |s.lockers| && z.i != i && Next(s, z).Some?
    ensures Next(Put(s, i, l), z) == Some(Put(Next(s, z).value, i, l))
    ensures |Next(s, z).value.lockers| == |s.lockers| && Next(s, z).value.lockers[i] == s.lockers[i]
  {
    hide Sorted, NextRelease, Unflock, Opened, WithFile;
    ShadowFile(s, i, l, z);
    ShadowPut(s, i, l, z.i, Next(s, z).value.lockers[z.i]);
  }

  lemma ShadowFile(s: Sys, i: nat, l: Locker, z: Step)
    requires i < |s.lockers|
    ensures z.Open? ==> forall p :: Opened(Put(s, i, l), p, z.unused) == Opened(s, p, z.unused)
    ensures z.Open? ==> forall p :: WithFile(Put(s, i, l), p, z.unused) == Put(WithFile(s, p, z.unused), i, l)
    ensures z.Open? ==> forall p :: WithFile(s, p, z.unused).lockers == s.lockers
  {
  }

  lemma ShadowHarmless(s: Sys, i: nat, l: Locker, z: Step)
    requires i < |s.lockers| && SameUse(s.lockers[i], l) && z.i != i && Harmless(s, z, false)
    ensures Harmless(Put(s, i, l), z, false)
  {
    hide SameUse, Exposes;
    if z.Crash? && z.i < |s.lockers| {
      ShadowExposes(s, i, l, z.i);
    }
  }

  /** A run in which `i` does nothing is as well a run beside another state of `i`. */
  lemma {:induction false} Shadow(s: Sys, steps: seq<Step>, u: Sys, i: nat, l: Locker)
    requires Ran(s, steps, u, false) && Spares(steps, i) && i < |s.lockers| && SameUse(s.lockers[i], l)
    ensures |u.lockers| == |s.lockers| && u.lockers[i] == s.lockers[i]
    ensures Ran(Put(s, i, l), steps, Put(u, i, l), false)
    decreases |steps|
  {
    hide Next, Harmless, SameUse;
    if steps != [] {
      var t := Next(s, steps[0]).value;
      ShadowNext(s, i, l, steps[0]);
      ShadowHarmless(s, i, l, steps[0]);
      assert forall k :: 0 <= k < |steps[1..]| ==> steps[1..][k] == steps[k + 1];
      Shadow(t, steps[1..], u, i, l);
    }
  }

  // ----------------------------------------------------- when exclusion breaks

  predicate Rival(s: Sys, i: nat, x: Ino, m: nat, y: Ino) {
    m < |s.lockers| && m != i && Opens(s.lockers[m], y) && x in s.home && y in s.home && s.home[y] == s.home[x] &&
    y !in s.stale && (BeingDeleted(s, y) ==> BeingDeleted(s, x))
  }

  /** Somebody else relies on a file of the same path, or is about to. */
  ghost predicate HasRival(s: Sys, i: nat, x: Ino) {
    exists m: nat, y :: Rival(s, i, x, m, y)
  }

  lemma NothingElseOfPath(s: Sys, i: nat, y: Ino)
    requires Base(s) && i < |s.lockers| && s.lockers[i].pc.Waiting? && y in s.home && s.lockers[i].pc.ino in s.home
    requires s.home[y] == s.home[s.lockers[i].pc.ino]
    ensures !GuardsFile(s.lockers[i], y) && (y in s.flocks ==> s.flocks[y] != i)
    ensures Opens(s.lockers[i], y) <==> y == s.lockers[i].pc.ino
  {
    hide Base, FilesOk, Nar.Less;
    LockerAt(s, i);
    var l := s.lockers[i];
    forall j | 0 <= j < |l.fds| ensures l.fds[j].ino != y {
      assert Nar.Less(l.paths[j], l.paths[|l.fds|]);
      Nar.LessIsStrictTotalOrder(l.paths[j], l.paths[j], l.paths[j]);
    }
    if y in s.flocks {
      Holder(s, y);
    }
  }

  /** A holder that is done with the file's lock makes way for newcomers. */
  lemma HolderLeaves(s: Sys, h: nat) returns (steps: seq<Step>, u: Sys)
    requires Base(s) && h < |s.lockers| && s.lockers[h].fds != []
    requires s.lockers[h].pc.Writing? || s.lockers[h].pc.Releasing?
    requires !Leftover(s, s.lockers[h].fds[0].path)
    ensures Ran(s, steps, u, false) && Base(u) && |u.lockers| == |s.lockers| && u.lockers[h].pc.Idle?
    ensures forall k :: 0 <= k < |s.lockers| && k != h ==> u.lockers[k] == s.lockers[k]
    ensures forall k :: k != h ==> Spares(steps, k)
    ensures u.names == s.names && u.home == s.home && !Leftover(u, s.lockers[h].fds[0].path)
  {
    hide Ran, Base, FilesOk, InUse, Live;
    FirstIsLocked(s, h);
    NoSteps(s, false);
    steps, u := [], s;
    if s.lockers[h].pc.Writing? && !Bound(s, s.lockers[h].fds[0].ino) {
      StepKeepsBase(u, WriteToken(h));
      steps, u := Extend(s, steps, u, WriteToken(h), false);
    }
    StepKeepsBase(u, Crash(h));
    steps, u := Extend(s, steps, u, Crash(h), false);
  }

  lemma OwnerDoes(s: Sys, h: nat, x: Ino)
    requires Base(s) && x in s.flocks && s.flocks[x] == h && x !in s.stale
    ensures h < |s.lockers| && x in s.home
    ensures s.lockers[h].pc == Checking(x) || GuardsFile(s.lockers[h], x) ||
            (s.lockers[h].fds != [] && s.lockers[h].fds[0].ino == x && (s.lockers[h].pc.Writing? || s.lockers[h].pc.Releasing?))
    ensures s.lockers[h].pc == Checking(x) ==>
      |s.lockers[h].fds| < |s.lockers[h].paths| && s.lockers[h].paths[|s.lockers[h].fds|] == s.home[x]
  {
    hide Base, FilesOk, Nar.Less;
    Holder(s, x);
    LockerAt(s, h);
    FilesAt(s);
    HomeOfLocked(s, x);
    if !Grips(s.lockers[h].pc, x) {
      var j :| 0 <= j < |s.lockers[h].fds| && s.lockers[h].fds[j].ino == x;
      assert !Guards(s.lockers[h], j) ==> j == 0;
    }
  }

  lemma HomeOfLocked(s: Sys, x: Ino)
    requires FilesOk(s) && x in s.flocks
    ensures x in s.home
  {
  }

  /** Somebody but `i` comes to guard a file of the path `i` waits for. */
  ghost predicate OtherGuards(s: Sys, i: nat, p: Path, steps: seq<Step>, w: Sys, g: nat, n: nat) {
    Ran(s, steps, w, false) && Spares(steps, i) && g != i && g < |w.lockers| && Guards(w.lockers[g], n) &&
    w.lockers[g].fds[n].path == p
  }

  lemma NewcomerEnters(s: Sys, i: nat) returns (steps: seq<Step>, w: Sys, g: nat, n: nat)
    requires Base(s) && i < |s.lockers| && s.lockers[i].pc.Waiting? && s.lockers[i].pc.ino in s.flocks
    requires s.lockers[i].pc.ino !in s.stale && s.lockers[i].pc.ino in s.home
    requires !Leftover(s, s.home[s.lockers[i].pc.ino])
    ensures OtherGuards(s, i, s.home[s.lockers[i].pc.ino], steps, w, g, n)
  {
    hide Ran, Spares, Base, FilesOk, GuardsFile, Leftover, Exposes;
    var x := s.lockers[i].pc.ino;
    var h, p := s.flocks[x], s.home[x];
    NothingElseOfPath(s, i, x);
    OwnerDoes(s, h, x);
    NoSteps(s, false);
    assert Spares([], i) by { NoStepSpares(i); }
    if s.lockers[h].pc == Checking(x) {
      steps, w := Extend(s, [], s, Check(h), false);
      g, n := h, |s.lockers[h].fds|;
    } else if GuardsFile(s.lockers[h], x) {
      GuardsPath(s, h, x);
      n :| 0 <= n < |s.lockers[h].fds| && Guards(s.lockers[h], n) && s.lockers[h].fds[n].ino == x &&
           s.lockers[h].fds[n].path == p;
      steps, w, g := [], s, h;
    } else {
      FirstIsLocked(s, h);
      steps, w := HolderLeaves(s, h);
      NoneOfPathLocked(w, i, p);
      steps, w, g, n := NewcomerGuards(s, steps, w, h, p);
    }
  }

  lemma NoStepSpares(n: nat)
    ensures Spares([], n)
  {
  }

  lemma NoneOfPathLocked(u: Sys, i: nat, p: Path)
    requires Base(u) && i < |u.lockers| && u.lockers[i].pc.Waiting?
    requires u.lockers[i].pc.ino in u.home && u.home[u.lockers[i].pc.ino] == p
    ensures !HoldsNamed(u, i, p)
  {
    hide Base;
    FilesAt(u);
    if p in u.names {
      NothingElseOfPath(u, i, u.names[p]);
    }
  }

  /** A rival on its way, where the holder of its file may go on or die without harm. */
  lemma RivalEnters(s: Sys, i: nat, m: nat, y: Ino) returns (steps: seq<Step>, w: Sys, g: nat, n: nat)
    requires Base(s) && i < |s.lockers| && s.lockers[i].pc.Waiting? && s.lockers[i].pc.ino in s.home
    requires m < |s.lockers| && m != i && Opens(s.lockers[m], y) && y in s.home && y !in s.stale
    requires s.home[y] == s.home[s.lockers[i].pc.ino]
    requires y in s.flocks && s.flocks[y] < |s.lockers| && DeletedBy(s.lockers[s.flocks[y]], y) ==>
               !Exposes(s, s.flocks[y], false)
    ensures OtherGuards(s, i, s.home[y], steps, w, g, n)
  {
    hide Ran, Spares, Base, FilesOk, GuardsFile, Exposes, DeletedBy, OnTheWay;
    NothingElseOfPath(s, i, y);
    NoSteps(s, false);
    NoStepSpares(i);
    if GuardsFile(s.lockers[m], y) {
      GuardsPath(s, m, y);
      n :| 0 <= n < |s.lockers[m].fds| && Guards(s.lockers[m], n) && s.lockers[m].fds[n].ino == y &&
           s.lockers[m].fds[n].path == s.home[y];
      steps, w, g := [], s, m;
    } else {
      steps, w, g, n := Comes(s, [], s, m, y);
    }
  }

  lemma NotDeletedByHolder(s: Sys, y: Ino, h: nat)
    requires h < |s.lockers| && DeletedBy(s.lockers[h], y)
    ensures BeingDeleted(s, y)
  {
  }

  lemma RivalGuards(s: Sys, i: nat, m: nat, y: Ino) returns (steps: seq<Step>, w: Sys, g: nat, n: nat)
    requires Base(s) && i < |s.lockers| && s.lockers[i].pc.Waiting? && Rival(s, i, s.lockers[i].pc.ino, m, y)
    requires Leftover(s, s.home[y])
    ensures OtherGuards(s, i, s.home[y], steps, w, g, n)
  {
    hide Ran, Spares, Base, FilesOk, GuardsFile, OnTheWay, BeingDeleted, InUse, OtherGuards;
    var x := s.lockers[i].pc.ino;
    if y in s.flocks && s.flocks[y] < |s.lockers| && DeletedBy(s.lockers[s.flocks[y]], y) && Exposes(s, s.flocks[y], false) {
      NotDeletedByHolder(s, y, s.flocks[y]);
      FirstIsLocked(s, s.flocks[y]);
      var z :| z in s.home && z != y && Live(s, z) && s.home[z] == s.home[y];
      var k := UserOf(s, z);
      NothingElseOfPath(s, i, z);
      if z in s.flocks && s.flocks[z] < |s.lockers| && DeletedBy(s.lockers[s.flocks[z]], z) {
        NotDeletedByHolder(s, z, s.flocks[z]);
      }
      steps, w, g, n := RivalEnters(s, i, k, z);
    } else {
      steps, w, g, n := RivalEnters(s, i, m, y);
    }
  }

  lemma UserOf(s: Sys, z: Ino) returns (k: nat)
    requires InUse(s, z)
    ensures k < |s.lockers| && Opens(s.lockers[k], z)
  {
    k :| 0 <= k < |s.lockers| && Opens(s.lockers[k], z);
  }

  /** The waiter, let in by the signal and the check. */
  function LetIn(l: Locker): Locker
    requires l.pc.Waiting? && |l.fds| < |l.paths|
  {
    l.(fds := l.fds + [Fd(l.paths[|l.fds|], l.pc.ino)], pc := if |l.fds| + 1 == |l.paths| then Locked else Opening)
  }

  lemma LetInUse(l: Locker)
    requires l.pc.Waiting? && |l.fds| < |l.paths|
    ensures SameUse(l, LetIn(l)) && Guards(LetIn(l), |l.fds|)
  {
    var m := LetIn(l);
    forall x ensures Opens(l, x) <==> Opens(m, x) {
      if GuardsFile(l, x) {
        var j :| 0 <= j < |l.fds| && Guards(l, j) && l.fds[j].ino == x;
        assert m.fds[j] == l.fds[j] && Guards(m, j);
      }
      if x == l.pc.ino {
        assert Guards(m, |l.fds|) && m.fds[|l.fds|].ino == x;
      }
      if GuardsFile(m, x) {
        var j :| 0 <= j < |m.fds| && Guards(m, j) && m.fds[j].ino == x;
        assert j < |l.fds| ==> m.fds[j] == l.fds[j] && Guards(l, j);
      }
    }
  }

  lemma StepFirst(s: Sys, z: Step, t: Sys, steps: seq<Step>, u: Sys)
    requires Next(s, z) == Some(t) && Harmless(s, z, false) && Ran(t, steps, u, false)
    ensures Ran(s, [z] + steps, u, false)
  {
    hide Next, Harmless;
    assert ([z] + steps)[1..] == steps;
  }

  lemma ChecksIn(s: Sys, i: nat)
    requires Base(s) && Next(s, Interrupt(i)).Some? && s.lockers[i].pc.ino !in s.stale
    ensures var t := Next(s, Interrupt(i)).value;
      |s.lockers[i].fds| < |s.lockers[i].paths| &&
      Next(t, Check(i)) == Some(Put(s, i, LetIn(s.lockers[i])))
  {
    hide Nar.Less, Sorted, Base;
    WaiterIsNotHolder(s, i);
    var l := s.lockers[i];
    assert s.lockers[i := l.(pc := Checking(l.pc.ino))][i := LetIn(l)] == s.lockers[i := LetIn(l)];
  }

  /** The harmful direction: the signal lets the waiter in, and a newcomer or a rival joins
      it. */
  lemma CutShortLetsIn(s: Sys, i: nat)
    requires Base(s) && Next(s, Interrupt(i)).Some? && s.lockers[i].pc.ino !in s.stale
    requires s.lockers[i].pc.ino in s.home
    requires !Leftover(s, s.home[s.lockers[i].pc.ino]) || HasRival(s, i, s.lockers[i].pc.ino)
    ensures MayBreak(Next(s, Interrupt(i)).value)
  {
    hide Ran, Spares, Base, Leftover, Rival, SameUse;
    var x := s.lockers[i].pc.ino;
    var t, p, l := Next(s, Interrupt(i)).value, s.home[x], s.lockers[i];
    WaiterIsNotHolder(s, i);
    var steps, w, g, n;
    if !Leftover(s, p) {
      steps, w, g, n := NewcomerEnters(s, i);
    } else {
      var m: nat, y :| Rival(s, i, x, m, y);
      RivalPath(s, i, x, m, y);
      steps, w, g, n := RivalGuards(s, i, m, y);
    }
    ChecksIn(s, i);
    LetInUse(l);
    Shadow(s, steps, w, i, LetIn(l));
    StepFirst(t, Check(i), Put(s, i, LetIn(l)), steps, Put(w, i, LetIn(l)));
    assert Clash(Put(w, i, LetIn(l)), i, |l.fds|, g, n);
    assert Broken(Put(w, i, LetIn(l)));
  }

  lemma RivalPath(s: Sys, i: nat, x: Ino, m: nat, y: Ino)
    requires Rival(s, i, x, m, y)
    ensures y in s.home && x in s.home && s.home[y] == s.home[x]
  {
  }

  // ------------------------------------- and when nothing else goes wrong

  function FoldIno(o: Ino, own: Ino, x: Ino): Ino {
    if o == own then x else o
  }

  function FoldFds(fds: seq<Fd>, own: Ino, x: Ino): seq<Fd> {
    seq(|fds|, j requires 0 <= j < |fds| => Fd(fds[j].path, FoldIno(fds[j].ino, own, x)))
  }

  function FoldLocker(l: Locker, own: Ino, x: Ino): Locker {
    l.(fds := FoldFds(l.fds, own, x), pc := if l.pc == Checking(own) then Checking(x) else l.pc)
  }

  function FoldStale(stale: set<Ino>, own: Ino, x: Ino): set<Ino> {
    if own in stale then stale - {own} + {x} else stale
  }

  /** The state in which locker `i` has `x` open where in `u` it has a file of its own. */
  function Fold(u: Sys, i: nat, own: Ino, x: Ino): Sys
    requires i < |u.lockers|
  {
    Sys(u.lockers[i := FoldLocker(u.lockers[i], own, x)], u.names,
        FoldStale(u.stale, own, x), u.flocks - {own}, u.home - {own})
  }

  predicate Mentions(pc: Pc, o: Ino) {
    ((pc.Trying? || pc.Waiting? || pc.Checking? || pc.Reopening? || pc.ClosingOld?) && pc.ino == o) ||
    (pc.ClosingOld? && pc.next == o)
  }

  predicate Lacks(l: Locker, o: Ino) {
    !Mentions(l.pc, o) && forall j :: 0 <= j < |l.fds| ==> l.fds[j].ino != o
  }

  /** Of `x` a locker has no more than what it is about to close. */
  predicate MerelyCloses(l: Locker, x: Ino) {
    !Mentions(l.pc, x) && forall j :: 0 <= j < |l.fds| && l.fds[j].ino == x ==> j == 0 && (l.pc.Writing? || l.pc.Releasing?)
  }

  /** Nobody but `i` has its own file, nobody relies on `x`, and neither has a name. */
  ghost predicate Apart(u: Sys, i: nat, own: Ino, x: Ino) {
    i < |u.lockers| && own != x && own in u.home && x in u.home && u.home[own] == u.home[x] &&
    (forall p :: p in u.names ==> u.names[p] != own && u.names[p] != x) &&
    (forall k :: 0 <= k < |u.lockers| && k != i ==> Lacks(u.lockers[k], own) && MerelyCloses(u.lockers[k], x)) &&
    Lacks(u.lockers[i], x) && (Mentions(u.lockers[i].pc, own) ==> u.lockers[i].pc == Checking(own))
  }

  predicate SecondFile(u: Sys, k: nat, y: Ino, own: Ino, x: Ino)
    requires k < |u.lockers| && x in u.home
  {
    y != own && y in u.home && y !in u.stale && u.home[y] == u.home[x] && Opens(u.lockers[k], y)
  }

  /** While `i` relies on its own file, whoever opens another of the path finds it deleted,
      and then `x` is in use still. */
  ghost predicate Alone(u: Sys, i: nat, own: Ino, x: Ino)
    requires i < |u.lockers| && x in u.home
  {
    Opens(u.lockers[i], own) && own !in u.stale ==>
      (forall k, y :: 0 <= k < |u.lockers| && SecondFile(u, k, y, own, x) ==> x !in u.stale && !BeingDeleted(u, x))
  }

  predicate Unchecked(u: Sys, i: nat, own: Ino, x: Ino)
    requires i < |u.lockers|
  {
    u.lockers[i].pc == Checking(own) ==> own !in u.stale && x !in u.stale
  }

  ghost predicate Sim(u: Sys, i: nat, own: Ino, x: Ino) {
    Inv(u, false) && Apart(u, i, own, x) && Alone(u, i, own, x) && Unchecked(u, i, own, x)
  }

  // ---- the same steps

  lemma FoldPut(u: Sys, i: nat, own: Ino, x: Ino, k: nat, l: Locker)
    requires i < |u.lockers| && k < |u.lockers| && k != i
    ensures Fold(Put(u, k, l), i, own, x) == Put(Fold(u, i, own, x), k, l)
    ensures Fold(u, i, own, x).lockers[k] == u.lockers[k]
  {
    hide FoldLocker;
    assert Fold(u, i, own, x).lockers[k := l] == u.lockers[k := l][i := FoldLocker(u.lockers[i], own, x)];
  }

  /** What a step of another locker asks of the files is answered alike. */
  lemma OthersLook(u: Sys, i: nat, own: Ino, x: Ino, k: nat)
    requires Sim(u, i, own, x) && k < |u.lockers| && k != i
    ensures Fold(u, i, own, x).lockers[k] == u.lockers[k] && Lacks(u.lockers[k], own)
    ensures forall o :: Mentions(u.lockers[k].pc, o) ==>
              o != own && o != x && (o in Fold(u, i, own, x).stale <==> o in u.stale) &&
              (o in Fold(u, i, own, x).flocks <==> o in u.flocks)
  {
    hide Inv, Alone, Unchecked;
    FoldPut(u, i, own, x, k, u.lockers[k]);
  }

  /** Steps of the others, which have nothing of the file of `i`'s own. */
  lemma OtherMoves(u: Sys, i: nat, own: Ino, x: Ino, z: Step)
    requires i < |u.lockers| && Sim(u, i, own, x) && z.i != i && Next(Fold(u, i, own, x), z).Some?
    requires z.Lock? || z.SetDeletion? || z.Unlock? || z.Interrupt? || z.Check? || z.UnlinkFile?
    ensures Next(u, z).Some? && |Next(u, z).value.lockers| == |u.lockers|
    ensures Next(Fold(u, i, own, x), z) == Some(Fold(Next(u, z).value, i, own, x))
  {
    hide Sim, Sorted, NextRelease, Fold;
    FoldFields(u, i, own, x);
    OthersLook(u, i, own, x, z.i);
    var v := Next(u, z).value;
    FoldPut(u, i, own, x, z.i, v.lockers[z.i]);
    FoldNames(Put(u, z.i, v.lockers[z.i]), i, own, x, v.names);
  }

  lemma FoldNames(u: Sys, i: nat, own: Ino, x: Ino, names: map<Path, Ino>)
    requires i < |u.lockers|
    ensures Fold(u.(names := names), i, own, x) == Fold(u, i, own, x).(names := names)
  {
  }

  lemma FoldFields(u: Sys, i: nat, own: Ino, x: Ino)
    requires i < |u.lockers|
    ensures var f := Fold(u, i, own, x);
      |f.lockers| == |u.lockers| && f.names == u.names && f.flocks == u.flocks - {own} && f.home == u.home - {own}
  {
  }

  lemma FoldFlocks(u: Sys, i: nat, own: Ino, x: Ino, flocks: map<Ino, nat>)
    requires i < |u.lockers|
    ensures Fold(u.(flocks := flocks), i, own, x) == Fold(u, i, own, x).(flocks := flocks - {own})
  {
  }

  lemma FlocksWithout(flocks: map<Ino, nat>, own: Ino, o: Ino, k: nat)
    ensures o != own ==> (flocks - {own})[o := k] == flocks[o := k] - {own}
    ensures o != own ==> Unflock(flocks - {own}, o, k) == Unflock(flocks, o, k) - {own}
    ensures (map n | n in flocks - {own} && (flocks - {own})[n] != k :: (flocks - {own})[n]) ==
            (map n | n in flocks && flocks[n] != k :: flocks[n]) - {own}
  {
  }

  lemma OtherLocks(u: Sys, i: nat, own: Ino, x: Ino, z: Step)
    requires i < |u.lockers| && Sim(u, i, own, x) && z.i != i && Next(Fold(u, i, own, x), z).Some?
    requires z.Try? || z.Block? || z.CloseOld? || z.Release? || z.Crash?
    ensures Next(u, z).Some? && |Next(u, z).value.lockers| == |u.lockers|
    ensures Next(Fold(u, i, own, x), z) == Some(Fold(Next(u, z).value, i, own, x))
  {
    hide Sim, Sorted, NextRelease, Fold, Unflock;
    FoldFields(u, i, own, x);
    OthersLook(u, i, own, x, z.i);
    var l, v := u.lockers[z.i], Next(u, z).value;
    FoldPut(u, i, own, x, z.i, v.lockers[z.i]);
    FoldFlocks(Put(u, z.i, v.lockers[z.i]), i, own, x, v.flocks);
    var o := if z.Release? then l.fds[0].ino else if z.Crash? then 0 else l.pc.ino;
    FlocksWithout(u.flocks, own, o, z.i);
  }

  lemma OtherOpens(u: Sys, i: nat, own: Ino, x: Ino, z: Step)
    requires i < |u.lockers| && Sim(u, i, own, x) && z.i != i && Next(Fold(u, i, own, x), z).Some? && z.Open? && z.unused != own
    ensures Next(u, z).Some? && |Next(u, z).value.lockers| == |u.lockers|
    ensures Next(Fold(u, i, own, x), z) == Some(Fold(Next(u, z).value, i, own, x))
  {
    hide Sim, Fold;
    FoldFields(u, i, own, x);
    OthersLook(u, i, own, x, z.i);
    var v := Next(u, z).value;
    FoldPut(u, i, own, x, z.i, v.lockers[z.i]);
    FoldFile(Put(u, z.i, v.lockers[z.i]), i, own, x, v.names, v.home);
    if |u.lockers[z.i].fds| < |u.lockers[z.i].paths| {
      HomeWithout(u.home, own, z.unused, u.lockers[z.i].paths[|u.lockers[z.i].fds|]);
    }
  }

  lemma HomeWithout(home: map<Ino, Path>, own: Ino, o: Ino, p: Path)
    requires o != own
    ensures (home - {own})[o := p] == home[o := p] - {own}
  {
  }

  lemma StaleWith(stale: set<Ino>, own: Ino, x: Ino, o: Ino)
    requires own != x
    ensures FoldStale(stale + {o}, own, x) == FoldStale(stale, own, x) + {FoldIno(o, own, x)}
  {
  }

  lemma FoldMarks(u: Sys, i: nat, own: Ino, x: Ino, stale: set<Ino>)
    requires i < |u.lockers|
    ensures Fold(u.(stale := stale), i, own, x) == Fold(u, i, own, x).(stale := FoldStale(stale, own, x))
    ensures Fold(u, i, own, x).stale == FoldStale(u.stale, own, x)
  {
  }

  lemma FoldFile(u: Sys, i: nat, own: Ino, x: Ino, names: map<Path, Ino>, home: map<Ino, Path>)
    requires i < |u.lockers|
    ensures Fold(u.(names := names, home := home), i, own, x) == Fold(u, i, own, x).(names := names, home := home - {own})
  {
  }

  lemma OtherMarks(u: Sys, i: nat, own: Ino, x: Ino, z: Step)
    requires i < |u.lockers| && Sim(u, i, own, x) && z.i != i && Next(Fold(u, i, own, x), z).Some? && z.WriteToken?
    ensures Next(u, z).Some? && |Next(u, z).value.lockers| == |u.lockers|
    ensures Next(Fold(u, i, own, x), z) == Some(Fold(Next(u, z).value, i, own, x))
  {
    hide Sim, Fold, FoldStale;
    FoldFields(u, i, own, x);
    OthersLook(u, i, own, x, z.i);
    OwnLook(u, i, own, x);
    var l, v := u.lockers[z.i], Next(u, z).value;
    FoldPut(u, i, own, x, z.i, v.lockers[z.i]);
    FoldMarks(Put(u, z.i, v.lockers[z.i]), i, own, x, v.stale);
    FoldMarks(u, i, own, x, u.stale);
    StaleWith(u.stale, own, x, l.fds[0].ino);
  }

  // ---- the same steps of locker `i` itself

  lemma OwnLook(u: Sys, i: nat, own: Ino, x: Ino)
    requires i < |u.lockers| && Sim(u, i, own, x)
    ensures var (l, m) := (u.lockers[i], FoldLocker(u.lockers[i], own, x));
      Fold(u, i, own, x).lockers[i] == m && |m.fds| == |l.fds| && m.pc == (if l.pc == Checking(own) then Checking(x) else l.pc) &&
      (forall j :: 0 <= j < |l.fds| ==> m.fds[j] == Fd(l.fds[j].path, FoldIno(l.fds[j].ino, own, x)))
    ensures own != x && Lacks(u.lockers[i], x) && (Mentions(u.lockers[i].pc, own) ==> u.lockers[i].pc == Checking(own))
    ensures u.lockers[i].pc == Checking(own) ==> own !in u.stale && x !in u.stale
    ensures x in u.flocks ==> u.flocks[x] != i
    ensures forall j :: 0 <= j < |u.lockers[i].fds| && u.lockers[i].fds[j].ino == own ==> own in u.flocks && u.flocks[own] == i
  {
    hide LiveOk, Alone, FilesOk, PcOk, Ordered, GuardsOk;
    assert LockerOk(u, i);
    if x in u.flocks && u.flocks[x] == i {
      Holder(u, x);
    }
  }

  lemma FoldOwn(u: Sys, i: nat, own: Ino, x: Ino, l: Locker)
    requires i < |u.lockers|
    ensures Fold(Put(u, i, l), i, own, x) == Put(Fold(u, i, own, x), i, FoldLocker(l, own, x))
  {
    hide FoldLocker;
    assert u.lockers[i := l][i := FoldLocker(l, own, x)] ==
           Fold(u, i, own, x).lockers[i := FoldLocker(l, own, x)];
  }

  lemma FoldFdsMore(fds: seq<Fd>, fd: Fd, own: Ino, x: Ino)
    ensures FoldFds(fds + [fd], own, x) == FoldFds(fds, own, x) + [Fd(fd.path, FoldIno(fd.ino, own, x))]
    ensures fds != [] ==> FoldFds(fds[1..], own, x) == FoldFds(fds, own, x)[1..]
    ensures FoldFds([], own, x) == []
  {
  }

  lemma OwnMoves(u: Sys, i: nat, own: Ino, x: Ino, z: Step)
    requires i < |u.lockers| && Sim(u, i, own, x) && z.i == i && Next(Fold(u, i, own, x), z).Some?
    requires z.Lock? || z.SetDeletion? || z.Unlock? || z.Interrupt? || z.UnlinkFile?
    ensures Next(u, z).Some? && |Next(u, z).value.lockers| == |u.lockers|
    ensures Next(Fold(u, i, own, x), z) == Some(Fold(Next(u, z).value, i, own, x))
  {
    hide Sim, Sorted, Fold;
    FoldFields(u, i, own, x);
    OwnLook(u, i, own, x);
    var v := Next(u, z).value;
    FoldOwn(u, i, own, x, v.lockers[i]);
    FoldNames(Put(u, i, v.lockers[i]), i, own, x, v.names);
  }

  lemma OwnChecks(u: Sys, i: nat, own: Ino, x: Ino, z: Step)
    requires i < |u.lockers| && Sim(u, i, own, x) && z == Check(i) && Next(Fold(u, i, own, x), z).Some?
    ensures Next(u, z).Some? && |Next(u, z).value.lockers| == |u.lockers|
    ensures Next(Fold(u, i, own, x), z) == Some(Fold(Next(u, z).value, i, own, x))
  {
    hide Sim, Sorted, Fold;
    FoldFields(u, i, own, x);
    OwnLook(u, i, own, x);
    FoldMarks(u, i, own, x, u.stale);
    var l, v := u.lockers[i], Next(u, z).value;
    FoldOwn(u, i, own, x, v.lockers[i]);
    FoldFdsMore(l.fds, Fd(l.paths[|l.fds|], l.pc.ino), own, x);
  }

  lemma OwnLocks(u: Sys, i: nat, own: Ino, x: Ino, z: Step)
    requires i < |u.lockers| && Sim(u, i, own, x) && z.i == i && Next(Fold(u, i, own, x), z).Some?
    requires z.Try? || z.Block? || z.CloseOld? || z.Crash?
    ensures Next(u, z).Some? && |Next(u, z).value.lockers| == |u.lockers|
    ensures Next(Fold(u, i, own, x), z) == Some(Fold(Next(u, z).value, i, own, x))
  {
    hide Sim, Fold, Unflock;
    FoldFields(u, i, own, x);
    OwnLook(u, i, own, x);
    var l, v := u.lockers[i], Next(u, z).value;
    FoldOwn(u, i, own, x, v.lockers[i]);
    FoldFlocks(Put(u, i, v.lockers[i]), i, own, x, v.flocks);
    FoldFdsMore(l.fds, Fd([], 0), own, x);
    FlocksWithout(u.flocks, own, if z.Crash? then 0 else l.pc.ino, i);
  }

  lemma OwnReleases(u: Sys, i: nat, own: Ino, x: Ino, z: Step)
    requires i < |u.lockers| && Sim(u, i, own, x) && z == Step.Release(i) && Next(Fold(u, i, own, x), z).Some?
    ensures Next(u, z).Some? && |Next(u, z).value.lockers| == |u.lockers|
    ensures Next(Fold(u, i, own, x), z) == Some(Fold(Next(u, z).value, i, own, x))
  {
    hide Sim, Fold, Unflock;
    FoldFields(u, i, own, x);
    OwnLook(u, i, own, x);
    var l, v := u.lockers[i], Next(u, z).value;
    FoldOwn(u, i, own, x, v.lockers[i]);
    FoldFlocks(Put(u, i, v.lockers[i]), i, own, x, v.flocks);
    FoldFdsMore(l.fds, Fd([], 0), own, x);
    FlocksWithout(u.flocks, own, l.fds[0].ino, i);
    OwnUnflocks(u.flocks, own, x, i);
  }

  lemma OwnUnflocks(flocks: map<Ino, nat>, own: Ino, x: Ino, i: nat)
    requires x in flocks ==> flocks[x] != i
    ensures Unflock(flocks - {own}, x, i) == flocks - {own}
    ensures own in flocks && flocks[own] == i ==> Unflock(flocks, own, i) - {own} == flocks - {own}
  {
  }

  lemma OwnMarks(u: Sys, i: nat, own: Ino, x: Ino, z: Step)
    requires i < |u.lockers| && Sim(u, i, own, x) && z == WriteToken(i) && Next(Fold(u, i, own, x), z).Some?
    ensures Next(u, z).Some? && |Next(u, z).value.lockers| == |u.lockers|
    ensures Next(Fold(u, i, own, x), z) == Some(Fold(Next(u, z).value, i, own, x))
  {
    hide Sim, Fold, FoldStale;
    FoldFields(u, i, own, x);
    OwnLook(u, i, own, x);
    var l, v := u.lockers[i], Next(u, z).value;
    FoldOwn(u, i, own, x, v.lockers[i]);
    FoldMarks(Put(u, i, v.lockers[i]), i, own, x, v.stale);
    FoldMarks(u, i, own, x, u.stale);
    StaleWith(u.stale, own, x, l.fds[0].ino);
  }

  lemma OwnOpens(u: Sys, i: nat, own: Ino, x: Ino, z: Step)
    requires i < |u.lockers| && Sim(u, i, own, x) && z.i == i && z.Open? && z.unused != own
    requires Next(Fold(u, i, own, x), z).Some?
    ensures Next(u, z).Some? && |Next(u, z).value.lockers| == |u.lockers|
    ensures Next(Fold(u, i, own, x), z) == Some(Fold(Next(u, z).value, i, own, x))
  {
    hide Sim, Fold;
    FoldFields(u, i, own, x);
    OwnLook(u, i, own, x);
    var l, v := u.lockers[i], Next(u, z).value;
    FoldOwn(u, i, own, x, v.lockers[i]);
    FoldFile(Put(u, i, v.lockers[i]), i, own, x, v.names, v.home);
    HomeWithout(u.home, own, z.unused, l.paths[|l.fds|]);
  }

  /** Whatever steps are taken beside the waiter's borrowed lock are the same steps where
      it has a file of its own. */
  lemma SameStep(u: Sys, i: nat, own: Ino, x: Ino, z: Step)
    requires i < |u.lockers| && Sim(u, i, own, x) && Next(Fold(u, i, own, x), z).Some? && (z.Open? ==> z.unused != own)
    ensures Next(u, z).Some? && |Next(u, z).value.lockers| == |u.lockers|
    ensures Next(Fold(u, i, own, x), z) == Some(Fold(Next(u, z).value, i, own, x))
  {
    hide Sim, Fold, Next;
    match z
    case Open(_, _) => if z.i == i { OwnOpens(u, i, own, x, z); } else { OtherOpens(u, i, own, x, z); }
    case WriteToken(_) => if z.i == i { OwnMarks(u, i, own, x, z); } else { OtherMarks(u, i, own, x, z); }
    case Release(_) => if z.i == i { OwnReleases(u, i, own, x, z); } else { OtherLocks(u, i, own, x, z); }
    case Check(_) => if z.i == i { OwnChecks(u, i, own, x, z); } else { OtherMoves(u, i, own, x, z); }
    case _ =>
      if z.Try? || z.Block? || z.CloseOld? || z.Crash? {
        if z.i == i { OwnLocks(u, i, own, x, z); } else { OtherLocks(u, i, own, x, z); }
      } else {
        if z.i == i { OwnMoves(u, i, own, x, z); } else { OtherMoves(u, i, own, x, z); }
      }
  }

  // ---- and they are as harmless

  lemma FoldOpens(l: Locker, own: Ino, x: Ino, o: Ino)
    requires own != x && Lacks(l, x) && (Mentions(l.pc, own) ==> l.pc == Checking(own))
    ensures o != own && o != x ==> (Opens(FoldLocker(l, own, x), o) <==> Opens(l, o))
    ensures Opens(FoldLocker(l, own, x), x) <==> Opens(l, own)
    ensures o != own && o != x ==> (DeletedBy(FoldLocker(l, own, x), o) <==> DeletedBy(l, o))
    ensures DeletedBy(FoldLocker(l, own, x), x) <==> DeletedBy(l, own)
  {
    var m := FoldLocker(l, own, x);
    FoldGuards(l, own, x, o);
    FoldGuards(l, own, x, x);
    FoldGuards(l, own, x, own);
  }

  lemma FoldGuards(l: Locker, own: Ino, x: Ino, o: Ino)
    requires own != x && Lacks(l, x)
    ensures o != own && o != x ==> (GuardsFile(FoldLocker(l, own, x), o) <==> GuardsFile(l, o))
    ensures GuardsFile(FoldLocker(l, own, x), x) <==> GuardsFile(l, own)
  {
    var m := FoldLocker(l, own, x);
    assert forall j :: 0 <= j < |l.fds| ==> m.fds[j].ino == FoldIno(l.fds[j].ino, own, x);
    forall j: nat ensures Guards(m, j) <==> Guards(l, j) {
    }
    if GuardsFile(l, own) {
      var j :| 0 <= j < |l.fds| && Guards(l, j) && l.fds[j].ino == own;
      assert Guards(m, j) && m.fds[j].ino == x;
    }
    if GuardsFile(m, x) {
      var j :| 0 <= j < |m.fds| && Guards(m, j) && m.fds[j].ino == x;
      assert Guards(l, j) && l.fds[j].ino == own;
    }
    if GuardsFile(l, o) && o != own && o != x {
      var j :| 0 <= j < |l.fds| && Guards(l, j) && l.fds[j].ino == o;
      assert Guards(m, j) && m.fds[j].ino == o;
    }
    if GuardsFile(m, o) && o != own && o != x {
      var j :| 0 <= j < |m.fds| && Guards(m, j) && m.fds[j].ino == o;
      assert Guards(l, j) && l.fds[j].ino == o;
    }
  }

  lemma FoldUse(u: Sys, i: nat, own: Ino, x: Ino, o: Ino)
    requires Apart(u, i, own, x) && o != own && o != x
    ensures InUse(Fold(u, i, own, x), o) <==> InUse(u, o)
    ensures BeingDeleted(Fold(u, i, own, x), o) <==> BeingDeleted(u, o)
  {
    hide Opens, DeletedBy, FoldLocker, FoldStale;
    FoldOpens(u.lockers[i], own, x, o);
    var f := Fold(u, i, own, x);
    forall k | 0 <= k < |u.lockers|
      ensures Opens(f.lockers[k], o) <==> Opens(u.lockers[k], o)
      ensures DeletedBy(f.lockers[k], o) <==> DeletedBy(u.lockers[k], o)
    {
      assert k != i ==> f.lockers[k] == u.lockers[k];
    }
  }

  lemma FoldLive(u: Sys, i: nat, own: Ino, x: Ino, o: Ino)
    requires Apart(u, i, own, x) && o != own && o != x
    ensures Live(Fold(u, i, own, x), o) <==> Live(u, o)
    ensures Bound(Fold(u, i, own, x), o) <==> Bound(u, o)
  {
    hide InUse, BeingDeleted, FoldLocker;
    FoldUse(u, i, own, x, o);
  }

  lemma ClosersRelyOnNothing(l: Locker, x: Ino)
    requires MerelyCloses(l, x)
    ensures !Opens(l, x)
  {
  }

  lemma NobodyUses(u: Sys, i: nat, own: Ino, x: Ino)
    requires Apart(u, i, own, x)
    ensures !InUse(u, x) && !Live(u, x)
    ensures InUse(u, own) ==> Opens(u.lockers[i], own)
  {
    hide Opens;
    forall k | 0 <= k < |u.lockers|
      ensures !Opens(u.lockers[k], x)
      ensures k != i ==> !Opens(u.lockers[k], own)
    {
      ClosersRelyOnNothing(u.lockers[k], x);
      if k != i {
        ClosersRelyOnNothing(u.lockers[k], own);
      }
    }
  }

  /** While `i`'s own file is live in the one state, and another of its path is open, `x`
      is in the other. */
  lemma SharedIsLive(u: Sys, i: nat, own: Ino, x: Ino, k: nat, y: Ino)
    requires i < |u.lockers| && Sim(u, i, own, x) && Live(u, own) && k < |u.lockers| && SecondFile(u, k, y, own, x)
    ensures Live(Fold(u, i, own, x), x) && x in u.home
  {
    hide Opens, DeletedBy, FoldLocker, Inv, MerelyCloses;
    var f := Fold(u, i, own, x);
    NobodyUses(u, i, own, x);
    FoldOpens(u.lockers[i], own, x, x);
    assert Opens(f.lockers[i], x);
    assert own !in u.stale && x !in u.stale && !BeingDeleted(u, x) && !BeingDeleted(u, own);
    forall b | 0 <= b < |f.lockers| ensures !DeletedBy(f.lockers[b], x) {
      assert !DeletedBy(u.lockers[b], x) && !DeletedBy(u.lockers[b], own);
    }
  }

  lemma ExposesSame(u: Sys, i: nat, own: Ino, x: Ino, k: nat)
    requires i < |u.lockers| && Sim(u, i, own, x) && k < |u.lockers| && Exposes(u, k, false)
    requires u.lockers[k].fds[0].ino != own && u.lockers[k].fds[0].ino != x
    ensures Exposes(Fold(u, i, own, x), k, false)
  {
    hide InUse, Live, BeingDeleted, FoldLocker, Apart, Alone, Unchecked, Inv, Bound, FoldStale;
    var f, o, p := Fold(u, i, own, x), u.lockers[k].fds[0].ino, u.lockers[k].fds[0].path;
    FoldUse(u, i, own, x, o);
    FoldLive(u, i, own, x, o);
    FirstStays(u, i, own, x, k);
    LeftoverSame(u, i, own, x, p);
    if OtherLive(u, o, p) {
      var y :| y in u.home && y != o && Live(u, y) && u.home[y] == p;
      NobodyUses(u, i, own, x);
      if y == own {
        var b := UserOf(u, o);
        DeletedHome(u, k);
        ApartHome(u, i, own, x);
        assert SecondFile(u, b, o, own, x);
        SharedIsLive(u, i, own, x, b, o);
        LiveHome(f, x);
        assert x in f.home && x != o && Live(f, x) && f.home[x] == p;
      } else {
        FoldLive(u, i, own, x, y);
        LiveHome(f, y);
        assert y in f.home && y != o && Live(f, y) && f.home[y] == p;
      }
    }
  }

  lemma ApartHome(u: Sys, i: nat, own: Ino, x: Ino)
    requires Apart(u, i, own, x)
    ensures own in u.home && x in u.home && u.home[own] == u.home[x]
  {
  }

  lemma DeletedHome(u: Sys, k: nat)
    requires Inv(u, false) && k < |u.lockers| && u.lockers[k].pc.Writing? && u.lockers[k].fds != []
    ensures u.lockers[k].fds[0].ino in u.home && u.home[u.lockers[k].fds[0].ino] == u.lockers[k].fds[0].path
    ensures u.lockers[k].fds[0].ino !in u.stale
  {
    hide Base, LiveOk;
    FirstIsLocked(u, k);
    PcAt(u, k);
  }

  lemma FirstStays(u: Sys, i: nat, own: Ino, x: Ino, k: nat)
    requires i < |u.lockers| && k < |u.lockers| && u.lockers[k].fds != [] && u.lockers[k].fds[0].ino != own
    requires Apart(u, i, own, x)
    ensures var f := Fold(u, i, own, x);
      |f.lockers| == |u.lockers| && f.lockers[k].fds != [] && f.lockers[k].fds[0] == u.lockers[k].fds[0] &&
      (u.lockers[k].pc.Writing? ==> f.lockers[k].pc.Writing?)
  {
  }

  lemma LeftoverSame(u: Sys, i: nat, own: Ino, x: Ino, p: Path)
    requires Apart(u, i, own, x)
    ensures Leftover(Fold(u, i, own, x), p) <==> Leftover(u, p)
  {
  }

  /** Neither the file of `i`'s own nor `x` is open to anybody else, so no death exposes
      either. */
  lemma OwnIsNotExposed(u: Sys, i: nat, own: Ino, x: Ino, k: nat)
    requires i < |u.lockers| && Sim(u, i, own, x) && k < |u.lockers| && Exposes(u, k, false)
    ensures u.lockers[k].fds[0].ino != own && u.lockers[k].fds[0].ino != x
  {
    hide LiveOk, Nar.Less, FilesOk;
    NobodyUses(u, i, own, x);
    if u.lockers[k].fds[0].ino == own {
      OtherIsOnTheWay(u, k, i);
    }
  }

  lemma HarmlessSame(u: Sys, i: nat, own: Ino, x: Ino, z: Step)
    requires i < |u.lockers| && Sim(u, i, own, x) && Harmless(Fold(u, i, own, x), z, false)
    ensures Harmless(u, z, false)
  {
    hide Sim, Exposes, Fold;
    FoldFields(u, i, own, x);
    if z.Crash? && z.i < |u.lockers| && Exposes(u, z.i, false) {
      OwnIsNotExposed(u, i, own, x, z.i);
      ExposesSame(u, i, own, x, z.i);
    }
    if CutShort(u, z) {
      WaitersStale(u, i, own, x, z);
    }
  }

  lemma WaitersStale(u: Sys, i: nat, own: Ino, x: Ino, z: Step)
    requires i < |u.lockers| && Sim(u, i, own, x) && CutShort(u, z)
    ensures CutShort(Fold(u, i, own, x), z)
  {
    hide Inv, Alone, Unchecked;
  }

  // ---- and the waiter stays apart

  lemma StepOpens(u: Sys, z: Step, y: Ino)
    requires Next(u, z).Some?
    ensures var (l, m) := (u.lockers[z.i], Next(u, z).value.lockers[z.i]);
      Opens(m, y) ==> Opens(l, y) || (z.Open? && |l.fds| < |l.paths| && y == Opened(u, l.paths[|l.fds|], z.unused))
  {
    hide Opens, Sorted;
    var l, m := u.lockers[z.i], Next(u, z).value.lockers[z.i];
    if Quiet(u, z) {
      QuietOpens(u, z, y);
    } else if z.Open? {
      OpenOpens(u, z.i, z.unused, m, y);
    } else if z.UnlinkFile? {
      UnlinkOpens(u, z.i, z.ok, y);
    } else if z.WriteToken? {
      MarkOpens(u, z.i, y);
    } else {
      NoFdsOpens(m, y);
    }
  }

  /** The steps of locking, as opposed to those of unlocking and dying. */
  predicate Taking(z: Step) {
    z.Lock? || z.Open? || z.Try? || z.Block? || z.Interrupt? || z.Check?
  }

  lemma NextReleaseMentions(l: Locker, o: Ino)
    ensures !Mentions(NextRelease(l), o)
  {
  }

  lemma TakingMentions(u: Sys, z: Step, o: Ino)
    requires Next(u, z).Some? && Taking(z) && (z.Open? ==> z.unused != o)
    requires forall p :: p in u.names ==> u.names[p] != o
    ensures Mentions(Next(u, z).value.lockers[z.i].pc, o) ==> Mentions(u.lockers[z.i].pc, o)
  {
    hide Sorted, NextRelease;
    NextReleaseMentions(u.lockers[z.i], o);
  }

  lemma LeavingMentions(u: Sys, z: Step, o: Ino)
    requires Next(u, z).Some? && !Taking(z)
    ensures Mentions(Next(u, z).value.lockers[z.i].pc, o) ==> Mentions(u.lockers[z.i].pc, o)
  {
    hide Sorted, Unflock;
  }

  lemma StepMentions(u: Sys, z: Step, o: Ino)
    requires Next(u, z).Some? && (z.Open? ==> z.unused != o)
    requires forall p :: p in u.names ==> u.names[p] != o
    ensures Mentions(Next(u, z).value.lockers[z.i].pc, o) ==> Mentions(u.lockers[z.i].pc, o)
  {
    hide Next, Mentions;
    if Taking(z) {
      TakingMentions(u, z, o);
    } else {
      LeavingMentions(u, z, o);
    }
  }

  /** What a step does to the files a locker holds. */
  predicate FdsMove(l: Locker, m: Locker) {
    (m.fds == l.fds && (l.pc.Writing? || l.pc.Releasing? ==> m.pc.Writing? || m.pc.Releasing?)) || m.fds == [] ||
    (l.fds != [] && m.fds == l.fds[1..]) ||
    (l.pc.Checking? && |l.fds| < |l.paths| && m.fds == l.fds + [Fd(l.paths[|l.fds|], l.pc.ino)])
  }

  lemma TakingFds(u: Sys, z: Step)
    requires Next(u, z).Some? && Taking(z)
    ensures FdsMove(u.lockers[z.i], Next(u, z).value.lockers[z.i])
  {
    hide Sorted, NextRelease;
  }

  lemma LeavingFds(u: Sys, z: Step)
    requires Next(u, z).Some? && !Taking(z)
    ensures FdsMove(u.lockers[z.i], Next(u, z).value.lockers[z.i])
  {
    hide Sorted, Unflock, NextRelease;
  }

  lemma StepFds(u: Sys, z: Step)
    requires Next(u, z).Some?
    ensures FdsMove(u.lockers[z.i], Next(u, z).value.lockers[z.i])
  {
    hide Next, FdsMove;
    if Taking(z) {
      TakingFds(u, z);
    } else {
      LeavingFds(u, z);
    }
  }

  /** A file nobody can find by name stays with whoever has it. */
  lemma LacksStays(u: Sys, z: Step, o: Ino)
    requires Next(u, z).Some? && Lacks(u.lockers[z.i], o) && (z.Open? ==> z.unused != o)
    requires forall p :: p in u.names ==> u.names[p] != o
    ensures Lacks(Next(u, z).value.lockers[z.i], o)
  {
    StepMentions(u, z, o);
    StepFds(u, z);
    hide Next;
  }

  lemma ClosesStays(u: Sys, z: Step, x: Ino)
    requires Next(u, z).Some? && MerelyCloses(u.lockers[z.i], x) && (z.Open? ==> z.unused != x)
    requires forall p :: p in u.names ==> u.names[p] != x
    ensures MerelyCloses(Next(u, z).value.lockers[z.i], x)
  {
    StepMentions(u, z, x);
    StepFds(u, z);
    hide Next;
  }

  lemma OpenNames(u: Sys, z: Step, o: Ino)
    requires Next(u, z).Some? && z.Open? && z.unused != o
    requires forall p :: p in u.names ==> u.names[p] != o
    ensures forall p :: p in Next(u, z).value.names ==> Next(u, z).value.names[p] != o
    ensures forall n :: n in u.home ==> n in Next(u, z).value.home && Next(u, z).value.home[n] == u.home[n]
  {
  }

  lemma OtherNames(u: Sys, z: Step)
    requires Next(u, z).Some? && !z.Open?
    ensures Next(u, z).value.home == u.home
    ensures forall p :: p in Next(u, z).value.names ==> p in u.names && Next(u, z).value.names[p] == u.names[p]
  {
    hide Sorted, Unflock, NextRelease;
  }

  lemma NamesStay(u: Sys, z: Step, o: Ino)
    requires Next(u, z).Some? && (z.Open? ==> z.unused != o)
    requires forall p :: p in u.names ==> u.names[p] != o
    ensures forall p :: p in Next(u, z).value.names ==> Next(u, z).value.names[p] != o
    ensures forall n :: n in u.home ==> n in Next(u, z).value.home && Next(u, z).value.home[n] == u.home[n]
  {
    hide Next;
    if z.Open? {
      OpenNames(u, z, o);
    } else {
      OtherNames(u, z);
    }
  }

  lemma OwnMentionStays(u: Sys, i: nat, own: Ino, x: Ino, z: Step)
    requires Sim(u, i, own, x) && Next(u, z).Some? && z.i == i && (z.Open? ==> z.unused != own)
    ensures var m := Next(u, z).value.lockers[i]; Mentions(m.pc, own) ==> m.pc == Checking(own)
  {
    hide Inv, Alone, Sorted, Unflock;
  }

  lemma NotUnused(u: Sys, z: Step, o: Ino)
    requires Next(u, z).Some? && z.Open? && o in u.home
    ensures z.unused != o
  {
  }

  lemma ApartStays(u: Sys, i: nat, own: Ino, x: Ino, z: Step)
    requires Sim(u, i, own, x) && Next(u, z).Some? && (z.Open? ==> z.unused != own)
    requires |Next(u, z).value.lockers| == |u.lockers|
    requires forall k :: 0 <= k < |u.lockers| && k != z.i ==> Next(u, z).value.lockers[k] == u.lockers[k]
    ensures Apart(Next(u, z).value, i, own, x)
  {
    hide Inv, Alone, Unchecked, Next, Lacks, MerelyCloses;
    if z.Open? {
      NotUnused(u, z, x);
    }
    NamesStay(u, z, own);
    NamesStay(u, z, x);
    if z.i == i {
      LacksStays(u, z, x);
      OwnMentionStays(u, i, own, x, z);
    } else if z.i < |u.lockers| {
      LacksStays(u, z, own);
      ClosesStays(u, z, x);
    }
  }

  lemma UserIsLive(u: Sys, i: nat, own: Ino, x: Ino)
    requires Sim(u, i, own, x) && Opens(u.lockers[i], own) && own !in u.stale
    ensures Live(u, own) && Leftover(u, u.home[x])
  {
    hide LiveOk, FilesOk, Alone, MerelyCloses, Nar.Less, Lacks;
    assert LockerOk(u, i);
    if BeingDeleted(u, own) {
      var b :| 0 <= b < |u.lockers| && DeletedBy(u.lockers[b], own);
      FirstIsLocked(u, b);
      OwnDeleter(u, i, own, x, b);
    }
    LiveReached(u, own);
  }

  lemma OwnDeleter(u: Sys, i: nat, own: Ino, x: Ino, b: nat)
    requires Sim(u, i, own, x) && Opens(u.lockers[i], own) && b < |u.lockers|
    ensures !DeletedBy(u.lockers[b], own)
  {
    hide LiveOk, FilesOk, Alone, Unchecked, Nar.Less;
    if DeletedBy(u.lockers[b], own) && b == i {
      assert LockerOk(u, i);
      OtherIsOnTheWay(u, i, i);
    }
  }

  lemma LiveReached(u: Sys, o: Ino)
    requires Inv(u, false)
    ensures Live(u, o) ==> o in u.home && Reached(u, o, false)
  {
    hide Base, Live, Reached;
    if Live(u, o) {
      LiveHome(u, o);
    }
  }

  lemma StepDeletes(u: Sys, z: Step, x: Ino)
    requires Next(u, z).Some? && x in u.home
    ensures DeletedBy(Next(u, z).value.lockers[z.i], x) ==>
      DeletedBy(u.lockers[z.i], x) || (u.lockers[z.i].pc.Unlinking? && u.lockers[z.i].fds != [] && u.lockers[z.i].fds[0].ino == x)
    ensures x in Next(u, z).value.stale ==> x in u.stale || DeletedBy(u.lockers[z.i], x)
    ensures u.stale <= Next(u, z).value.stale && z.i < |u.lockers|
  {
    hide Sorted, Unflock;
  }

  /** What is opened by name on `x`'s path while `i` relies on its own file is stale. */
  lemma OpenedIsStale(u: Sys, i: nat, own: Ino, x: Ino, z: Step)
    requires Sim(u, i, own, x) && Opens(u.lockers[i], own) && own !in u.stale && Next(u, z).Some? && z.Open?
    ensures var l := u.lockers[z.i];
      |l.fds| < |l.paths| && Opened(u, l.paths[|l.fds|], z.unused) in Next(u, z).value.home &&
      (Next(u, z).value.home[Opened(u, l.paths[|l.fds|], z.unused)] == u.home[x] ==>
        Opened(u, l.paths[|l.fds|], z.unused) in u.stale)
  {
    hide Inv, Alone, MerelyCloses, Lacks, Unchecked, Live, Opens, Sorted;
    UserIsLive(u, i, own, x);
    BaseFiles(u);
    var l := u.lockers[z.i];
    var p := l.paths[|l.fds|];
    if p in u.names {
      BoundHome(u, p);
    }
  }

  lemma BaseFiles(u: Sys)
    requires Inv(u, false)
    ensures FilesOk(u)
  {
    hide Base, LiveOk, FilesOk;
    FilesAt(u);
  }

  lemma AloneStays(u: Sys, i: nat, own: Ino, x: Ino, z: Step)
    requires Sim(u, i, own, x) && Next(u, z).Some? && (z.Open? ==> z.unused != own)
    requires Apart(Next(u, z).value, i, own, x) && |Next(u, z).value.lockers| == |u.lockers|
    requires forall k :: 0 <= k < |u.lockers| && k != z.i ==> Next(u, z).value.lockers[k] == u.lockers[k]
    ensures Alone(Next(u, z).value, i, own, x)
  {
    hide Inv, Next, Opens, DeletedBy, Lacks, MerelyCloses, Unchecked, Opened;
    var v := Next(u, z).value;
    StepDeletes(u, z, x);
    NamesStay(u, z, own);
    if Opens(v.lockers[i], own) && own !in v.stale {
      StillOwn(u, i, own, x, z);
      forall k, y | 0 <= k < |v.lockers| && SecondFile(v, k, y, own, x)
        ensures x !in v.stale && !BeingDeleted(v, x)
      {
        SecondBefore(u, i, own, x, z, k, y);
        assert SecondFile(u, k, y, own, x);
        NoDeleterYet(u, i, own, x, z);
      }
    }
  }

  lemma StillOwn(u: Sys, i: nat, own: Ino, x: Ino, z: Step)
    requires Sim(u, i, own, x) && Next(u, z).Some? && (z.Open? ==> z.unused != own)
    requires i < |Next(u, z).value.lockers| && (z.i != i ==> Next(u, z).value.lockers[i] == u.lockers[i])
    requires Opens(Next(u, z).value.lockers[i], own) && own !in Next(u, z).value.stale
    ensures Opens(u.lockers[i], own) && own !in u.stale
  {
    hide Inv, Alone, Next, Opens, Lacks, MerelyCloses, Unchecked;
    StepDeletes(u, z, own);
    if z.i == i {
      StepOpens(u, z, own);
    }
  }

  lemma SecondBefore(u: Sys, i: nat, own: Ino, x: Ino, z: Step, k: nat, y: Ino)
    requires Sim(u, i, own, x) && Next(u, z).Some? && Opens(u.lockers[i], own) && own !in u.stale
    requires var v := Next(u, z).value;
      |v.lockers| == |u.lockers| && k < |v.lockers| && x in v.home && v.home[x] == u.home[x] &&
      SecondFile(v, k, y, own, x) && (k != z.i ==> v.lockers[k] == u.lockers[k])
    requires forall n :: n in u.home ==> n in Next(u, z).value.home && Next(u, z).value.home[n] == u.home[n]
    ensures SecondFile(u, k, y, own, x)
  {
    hide Inv, Alone, Next, Opens, Lacks, MerelyCloses, Unchecked, Opened;
    StepDeletes(u, z, x);
    if k == z.i {
      StepOpens(u, z, y);
      if z.Open? {
        OpenedIsStale(u, i, own, x, z);
      }
    }
    OpenIsKnown(u, k, y);
  }

  /** Files that are open were created once. */
  lemma OpenIsKnown(u: Sys, k: nat, y: Ino)
    requires Inv(u, false) && k < |u.lockers|
    ensures Opens(u.lockers[k], y) ==> y in u.home
  {
    hide LiveOk, FilesOk, Nar.Less;
    assert LockerOk(u, k);
  }

  lemma NoDeleterYet(u: Sys, i: nat, own: Ino, x: Ino, z: Step)
    requires Sim(u, i, own, x) && Next(u, z).Some? && x !in u.stale && !BeingDeleted(u, x)
    requires var v := Next(u, z).value;
      |v.lockers| == |u.lockers| && forall k :: 0 <= k < |u.lockers| && k != z.i ==> v.lockers[k] == u.lockers[k]
    ensures x !in Next(u, z).value.stale && !BeingDeleted(Next(u, z).value, x)
  {
    hide Inv, Alone, Next, Opens, Unchecked, DeletedBy;
    StepDeletes(u, z, x);
    var v := Next(u, z).value;
    assert !DeletedBy(u.lockers[z.i], x);
    forall k | 0 <= k < |v.lockers| ensures !DeletedBy(v.lockers[k], x) {
      if k != z.i {
        assert !DeletedBy(u.lockers[k], x);
      }
    }
  }

  /** Until it checks, the waiter's own file has no token, in either state; a token on `x`
      comes from whoever is closing it. */
  lemma CheckingStays(u: Sys, i: nat, own: Ino, x: Ino, z: Step)
    requires Sim(u, i, own, x) && Next(u, z).Some? && (z.Open? ==> z.unused != own)
    requires i < |Next(u, z).value.lockers| && (z.i != i ==> Next(u, z).value.lockers[i] == u.lockers[i])
    ensures Next(u, z).value.lockers[i].pc == Checking(own) ==> own !in Next(u, z).value.stale
  {
    hide Inv, Alone, Next, MerelyCloses;
    StepDeletes(u, z, own);
    if z.i == i {
      ChecksOnce(u, i, own, x, z);
    }
  }

  lemma ChecksOnce(u: Sys, i: nat, own: Ino, x: Ino, z: Step)
    requires Sim(u, i, own, x) && Next(u, z).Some? && z.i == i && (z.Open? ==> z.unused != own)
    ensures Next(u, z).value.lockers[i].pc != Checking(own)
  {
    hide Inv, Alone, Sorted, Unflock;
  }

  // ---- until a token makes the check go the other way

  lemma SwitchBase(u: Sys, i: nat, own: Ino, x: Ino)
    requires Inv(u, false) && Apart(u, i, own, x) && u.lockers[i].pc == Checking(own)
    requires own !in u.stale && x in u.stale
    ensures Base(Fold(u, i, own, x))
  {
    hide LiveOk, Nar.Less, FilesOk, LockerOk, Base;
    SwitchFiles(u, i, own, x);
    var f := Fold(u, i, own, x);
    forall k | 0 <= k < |f.lockers| ensures LockerOk(f, k) {
      if k == i {
        SwitchOwn(u, i, own, x);
      } else {
        SwitchOther(u, i, own, x, k);
      }
    }
    BaseIs(f);
  }

  lemma BaseIs(f: Sys)
    requires FilesOk(f) && forall k :: 0 <= k < |f.lockers| ==> LockerOk(f, k)
    ensures Base(f)
  {
  }

  lemma SwitchOther(u: Sys, i: nat, own: Ino, x: Ino, k: nat)
    requires Inv(u, false) && Apart(u, i, own, x) && own !in u.stale && k < |u.lockers| && k != i
    ensures LockerOk(Fold(u, i, own, x), k)
  {
    hide LiveOk, Nar.Less, FilesOk, FoldLocker, MerelyCloses;
    assert LockerOk(u, k) && Lacks(u.lockers[k], own);
  }

  /** What the waiter holds besides: none of it is its own file or `x`. */
  lemma CheckerHolds(u: Sys, i: nat, own: Ino, x: Ino)
    requires Inv(u, false) && Apart(u, i, own, x) && u.lockers[i].pc == Checking(own)
    ensures LockerOk(u, i) && FoldLocker(u.lockers[i], own, x) == u.lockers[i].(pc := Checking(x))
    ensures forall j :: 0 <= j < |u.lockers[i].fds| ==> u.lockers[i].fds[j].ino != own
  {
    hide LiveOk, Nar.Less, FilesOk, MerelyCloses;
    assert LockerOk(u, i);
    forall j | 0 <= j < |u.lockers[i].fds| ensures u.lockers[i].fds[j].ino != own {
      NextIsNew(u, i, j);
    }
    assert FoldFds(u.lockers[i].fds, own, x) == u.lockers[i].fds;
  }

  lemma SwitchOwn(u: Sys, i: nat, own: Ino, x: Ino)
    requires Inv(u, false) && Apart(u, i, own, x) && u.lockers[i].pc == Checking(own)
    requires own !in u.stale && x in u.stale
    ensures LockerOk(Fold(u, i, own, x), i)
  {
    hide LiveOk, Nar.Less, FilesOk, FoldLocker, MerelyCloses, Lacks;
    CheckerHolds(u, i, own, x);
  }

  lemma SwitchFiles(u: Sys, i: nat, own: Ino, x: Ino)
    requires Inv(u, false) && Apart(u, i, own, x) && u.lockers[i].pc == Checking(own)
    requires own !in u.stale && x in u.stale
    ensures FilesOk(Fold(u, i, own, x))
  {
    hide LiveOk, Nar.Less, FoldLocker, MerelyCloses, Lacks, LockerOk;
    CheckerHolds(u, i, own, x);
  }

  lemma SwitchLive(u: Sys, i: nat, own: Ino, x: Ino)
    requires Inv(u, false) && Apart(u, i, own, x) && own !in u.stale && x in u.stale
    ensures LiveOk(Fold(u, i, own, x), false)
  {
    hide Base, Live, FoldLocker, MerelyCloses, Lacks;
    var f := Fold(u, i, own, x);
    forall y | Live(f, y) ensures y in f.home && Live(u, y) {
      LiveHome(f, y);
      FoldLive(u, i, own, x, y);
    }
    FewerLive(u, f);
  }

  /** The same files by the same names, and no more of them live. */
  lemma FewerLive(s: Sys, t: Sys)
    requires LiveOk(s, false) && t.stale == s.stale && t.names == s.names
    requires forall y :: Live(t, y) ==> y in t.home && y in s.home && Live(s, y) && t.home[y] == s.home[y]
    ensures LiveOk(t, false)
  {
    hide Live;
    forall y | Live(t, y) ensures Reached(t, y, false) {
      assert Live(s, y) && Reached(s, y, false);
    }
  }

  lemma SwitchIsSound(u: Sys, i: nat, own: Ino, x: Ino)
    requires Inv(u, false) && Apart(u, i, own, x) && u.lockers[i].pc == Checking(own)
    requires own !in u.stale && x in u.stale
    ensures Inv(Fold(u, i, own, x), false)
  {
    hide Base, LiveOk, Fold, Apart;
    SwitchBase(u, i, own, x);
    SwitchLive(u, i, own, x);
  }

  // ---- so nothing breaks

  predicate Avoids(steps: seq<Step>, own: Ino) {
    forall k :: 0 <= k < |steps| ==> (steps[k].Open? ==> steps[k].unused != own)
  }

  lemma ClashSame(u: Sys, i: nat, own: Ino, x: Ino, a: nat, j: nat, b: nat, k: nat)
    requires i < |u.lockers|
    ensures Clash(Fold(u, i, own, x), a, j, b, k) ==> Clash(u, a, j, b, k)
  {
  }

  lemma BrokenSame(u: Sys, i: nat, own: Ino, x: Ino)
    requires i < |u.lockers| && Inv(u, false)
    ensures !Broken(Fold(u, i, own, x))
  {
    hide Inv, Clash, Fold;
    forall a: nat, j: nat, b: nat, k: nat ensures !Clash(Fold(u, i, own, x), a, j, b, k) {
      ClashSame(u, i, own, x, a, j, b, k);
      ClashIsImpossible(u, a, j, b, k);
    }
  }

  lemma {:induction false} NothingBreaks(u: Sys, i: nat, own: Ino, x: Ino, steps: seq<Step>, w: Sys)
    requires i < |u.lockers| && Sim(u, i, own, x) && Avoids(steps, own)
    requires Ran(Fold(u, i, own, x), steps, w, false)
    ensures !Broken(w)
    decreases |steps|
  {
    hide Inv, Apart, Alone, Fold, Next, Harmless, Broken, MayBreak;
    if steps == [] {
      BrokenSame(u, i, own, x);
    } else {
      var z, f := steps[0], Fold(u, i, own, x);
      SameStep(u, i, own, x, z);
      HarmlessSame(u, i, own, x, z);
      StepKeepsInv(u, z, false);
      var v := Next(u, z).value;
      ApartStays(u, i, own, x, z);
      AloneStays(u, i, own, x, z);
      CheckingStays(u, i, own, x, z);
      assert Ran(Fold(v, i, own, x), steps[1..], w, false);
      assert forall k :: 0 <= k < |steps[1..]| ==> steps[1..][k] == steps[k + 1];
      if Unchecked(v, i, own, x) {
        NothingBreaks(v, i, own, x, steps[1..], w);
      } else {
        SwitchIsSound(v, i, own, x);
        RunStaysSound(Fold(v, i, own, x));
        NotBroken(Fold(v, i, own, x), steps[1..], w);
      }
    }
  }

  lemma NotBroken(s: Sys, steps: seq<Step>, w: Sys)
    requires !MayBreak(s) && Ran(s, steps, w, false)
    ensures !Broken(w)
  {
  }

  // ---- from the start

  /** The waiter given a locked file of its own instead. */
  function OwnFile(s: Sys, i: nat, own: Ino): Sys
    requires i < |s.lockers| && s.lockers[i].pc.Waiting? && s.lockers[i].pc.ino in s.home
  {
    var l := s.lockers[i];
    Sys(s.lockers[i := l.(pc := Checking(own))], s.names, s.stale, s.flocks[own := i], s.home[own := s.home[l.pc.ino]])
  }

  /** A waiter for a file without a token that nobody newly comes to, and whose path nobody
      else is about to enter. */
  ghost predicate Lonely(s: Sys, i: nat, own: Ino) {
    Inv(s, false) && Next(s, Interrupt(i)).Some? && s.lockers[i].pc.ino in s.home && s.lockers[i].pc.ino !in s.stale &&
    Leftover(s, s.home[s.lockers[i].pc.ino]) && !HasRival(s, i, s.lockers[i].pc.ino) && own !in s.home
  }

  lemma LonelyIs(s: Sys, i: nat, own: Ino)
    requires Lonely(s, i, own)
    ensures i < |s.lockers| && s.lockers[i].pc.Waiting? && s.lockers[i].pc.ino in s.home && s.lockers[i].pc.ino in s.flocks
    ensures Base(s) && own != s.lockers[i].pc.ino && own !in s.stale && own !in s.flocks && LockerOk(s, i) && FilesOk(s)
    ensures |s.lockers[i].fds| < |s.lockers[i].paths| && own !in s.home && s.lockers[i].pc.ino !in s.stale
  {
    hide LiveOk, LockerOk, FilesOk, Base, HasRival;
    LockerAt(s, i);
    FilesOnly(s, own);
    WaiterIsNotHolder(s, i);
  }

  lemma FilesOnly(s: Sys, own: Ino)
    requires FilesOk(s) && own !in s.home
    ensures own !in s.stale && own !in s.flocks
  {
  }

  lemma FoldsBack(s: Sys, i: nat, own: Ino)
    requires Lonely(s, i, own)
    ensures i < |s.lockers| && s.lockers[i].pc.Waiting? && s.lockers[i].pc.ino in s.home
    ensures Fold(OwnFile(s, i, own), i, own, s.lockers[i].pc.ino) == Next(s, Interrupt(i)).value
  {
    hide Lonely, LockerOk, FilesOk, Base;
    LonelyIs(s, i, own);
    hide FdsOk, PcOk;
    LacksNew(s, i, own);
    var l, x := s.lockers[i], s.lockers[i].pc.ino;
    assert FoldFds(l.fds, own, x) == l.fds;
    assert s.flocks[own := i] - {own} == s.flocks;
    assert s.home[own := s.home[x]] - {own} == s.home;
    assert s.lockers[i := l.(pc := Checking(own))][i := l.(pc := Checking(x))] == s.lockers[i := l.(pc := Checking(x))];
    InterruptIs(s, i, own);
  }

  lemma InterruptIs(s: Sys, i: nat, own: Ino)
    requires Lonely(s, i, own)
    ensures Next(s, Interrupt(i)).Some? && i < |s.lockers| && s.lockers[i].pc.Waiting? &&
            Next(s, Interrupt(i)).value == Put(s, i, s.lockers[i].(pc := Checking(s.lockers[i].pc.ino)))
  {
    hide Inv, HasRival;
  }

  lemma LacksNew(s: Sys, k: nat, own: Ino)
    requires Base(s) && k < |s.lockers| && own !in s.home
    ensures Lacks(s.lockers[k], own)
  {
    hide Base, FilesOk, Nar.Less;
    LockerAt(s, k);
  }

  lemma OwnFileBase(s: Sys, i: nat, own: Ino)
    requires Lonely(s, i, own)
    ensures i < |s.lockers| && s.lockers[i].pc.Waiting? && s.lockers[i].pc.ino in s.home
    ensures Base(OwnFile(s, i, own))
  {
    hide Lonely, LockerOk, FilesOk, Base, Nar.Less;
    LonelyIs(s, i, own);
    var u := OwnFile(s, i, own);
    OwnFileOwn(s, i, own);
    OwnFileFiles(s, i, own);
    forall k | 0 <= k < |u.lockers| ensures LockerOk(u, k) {
      if k != i {
        LockerAt(s, k);
        PoliteKeepsOthers(s, u, i, k);
      }
    }
    BaseIs(u);
  }

  lemma OwnFileOwn(s: Sys, i: nat, own: Ino)
    requires Lonely(s, i, own)
    ensures i < |s.lockers| && s.lockers[i].pc.Waiting? && s.lockers[i].pc.ino in s.home
    ensures LockerOk(OwnFile(s, i, own), i)
  {
    hide Lonely, FilesOk, Base, Nar.Less, Sorted;
    LonelyIs(s, i, own);
  }

  lemma OwnFileFiles(s: Sys, i: nat, own: Ino)
    requires Lonely(s, i, own)
    ensures i < |s.lockers| && s.lockers[i].pc.Waiting? && s.lockers[i].pc.ino in s.home
    ensures FilesOk(OwnFile(s, i, own))
  {
    hide Lonely, LockerOk, Base, Nar.Less;
    LonelyIs(s, i, own);
  }

  /** The others have nothing of the file but what its holder is about to close. */
  lemma OthersClose(s: Sys, i: nat, own: Ino, k: nat)
    requires Lonely(s, i, own) && k < |s.lockers| && k != i
    ensures MerelyCloses(s.lockers[k], s.lockers[i].pc.ino)
  {
    hide Lonely, FilesOk, Base, Nar.Less, MerelyCloses, LockerOk;
    LonelyIs(s, i, own);
    var x, l := s.lockers[i].pc.ino, s.lockers[k];
    LockerAt(s, k);
    NoRivalFor(s, i, own, k, x);
    NotOpenCloses(s, k, x);
  }

  /** Whoever has a file without a token and does not rely on it is about to close it. */
  lemma NotOpenCloses(s: Sys, k: nat, x: Ino)
    requires k < |s.lockers| && LockerOk(s, k) && x !in s.stale && !Opens(s.lockers[k], x)
    ensures MerelyCloses(s.lockers[k], x)
  {
    hide Nar.Less, Sorted;
    var l := s.lockers[k];
    forall j | 0 <= j < |l.fds| && l.fds[j].ino == x ensures j == 0 && (l.pc.Writing? || l.pc.Releasing?) {
      assert !Guards(l, j);
    }
  }

  lemma NoRivalFor(s: Sys, i: nat, own: Ino, k: nat, y: Ino)
    requires Lonely(s, i, own) && k < |s.lockers| && k != i
    ensures y in s.home && s.home[y] == s.home[s.lockers[i].pc.ino] && y !in s.stale && Opens(s.lockers[k], y) ==>
              BeingDeleted(s, y) && !BeingDeleted(s, s.lockers[i].pc.ino)
  {
    hide Inv, Opens, BeingDeleted;
    var x := s.lockers[i].pc.ino;
    assert !Rival(s, i, x, k, y);
  }

  lemma StartApart(s: Sys, i: nat, own: Ino)
    requires Lonely(s, i, own)
    ensures i < |s.lockers| && s.lockers[i].pc.Waiting? && s.lockers[i].pc.ino in s.home
    ensures Apart(OwnFile(s, i, own), i, own, s.lockers[i].pc.ino)
  {
    hide Lonely, Base, Nar.Less, LockerOk, MerelyCloses;
    LonelyIs(s, i, own);
    NoNameLeads(s, i, own);
    WaiterLacks(s, i);
    forall k | 0 <= k < |s.lockers| ensures Lacks(s.lockers[k], own) && (k != i ==> MerelyCloses(s.lockers[k], s.lockers[i].pc.ino)) {
      LacksNew(s, k, own);
      if k != i {
        OthersClose(s, i, own, k);
      }
    }
  }

  lemma NoNameLeads(s: Sys, i: nat, own: Ino)
    requires Lonely(s, i, own)
    ensures forall p :: p in s.names ==> s.names[p] != s.lockers[i].pc.ino && s.names[p] != own
  {
    hide LiveOk, LockerOk, HasRival;
  }

  lemma WaiterLacks(s: Sys, i: nat)
    requires i < |s.lockers| && LockerOk(s, i) && s.lockers[i].pc.Waiting?
    ensures forall j :: 0 <= j < |s.lockers[i].fds| ==> s.lockers[i].fds[j].ino != s.lockers[i].pc.ino
  {
    hide LockerOk;
    forall j | 0 <= j < |s.lockers[i].fds| ensures s.lockers[i].fds[j].ino != s.lockers[i].pc.ino {
      NextIsNew(s, i, j);
    }
  }

  /** Files in use in the one state but the waiter's own are in the other. */
  lemma StartOpens(s: Sys, i: nat, own: Ino, k: nat, y: Ino)
    requires Lonely(s, i, own) && k < |s.lockers| && y != own
    ensures i < |s.lockers| && s.lockers[i].pc.Waiting? && s.lockers[i].pc.ino in s.home
    ensures Opens(OwnFile(s, i, own).lockers[k], y) ==> Opens(s.lockers[k], y) && (k == i ==> y != s.lockers[i].pc.ino)
    ensures DeletedBy(OwnFile(s, i, own).lockers[k], y) <==> DeletedBy(s.lockers[k], y)
  {
    hide Lonely, Base, Nar.Less, LockerOk, FilesOk;
    LonelyIs(s, i, own);
    WaiterLacks(s, i);
    if k == i {
      SameFdsGuards(s.lockers[i], OwnFile(s, i, own).lockers[i], y);
      LacksNotGuards(s.lockers[i], s.lockers[i].pc.ino);
    }
  }

  lemma SameFdsGuards(l: Locker, m: Locker, y: Ino)
    requires m.fds == l.fds && !l.pc.Writing? && !l.pc.Releasing? && !m.pc.Writing? && !m.pc.Releasing?
    ensures GuardsFile(m, y) <==> GuardsFile(l, y)
  {
    assert forall j: nat :: Guards(m, j) <==> Guards(l, j);
  }

  lemma LacksNotGuards(l: Locker, x: Ino)
    requires forall j :: 0 <= j < |l.fds| ==> l.fds[j].ino != x
    ensures !GuardsFile(l, x)
  {
  }

  lemma StartDeleted(s: Sys, i: nat, own: Ino, y: Ino)
    requires Lonely(s, i, own) && y != own
    ensures i < |s.lockers| && s.lockers[i].pc.Waiting? && s.lockers[i].pc.ino in s.home
    ensures BeingDeleted(OwnFile(s, i, own), y) <==> BeingDeleted(s, y)
  {
    hide Lonely, DeletedBy, Opens;
    LonelyIs(s, i, own);
    forall k | 0 <= k < |s.lockers| ensures DeletedBy(OwnFile(s, i, own).lockers[k], y) <==> DeletedBy(s.lockers[k], y) {
      StartOpens(s, i, own, k, y);
    }
  }

  /** Nobody else has a second file of the path but for one being deleted. */
  lemma StartSecond(s: Sys, i: nat, own: Ino, k: nat, y: Ino)
    requires Lonely(s, i, own) && k < |s.lockers|
    ensures i < |s.lockers| && s.lockers[i].pc.Waiting? && s.lockers[i].pc.ino in s.home
    ensures SecondFile(OwnFile(s, i, own), k, y, own, s.lockers[i].pc.ino) ==>
              BeingDeleted(s, y) && !BeingDeleted(s, s.lockers[i].pc.ino)
  {
    hide Lonely, Opens, BeingDeleted, Base, FilesOk, LockerOk;
    LonelyIs(s, i, own);
    var u, x := OwnFile(s, i, own), s.lockers[i].pc.ino;
    if SecondFile(u, k, y, own, x) {
      StartOpens(s, i, own, k, y);
      if k == i {
        NothingElseOfPath(s, i, y);
      } else {
        NoRivalFor(s, i, own, k, y);
      }
    }
  }

  lemma StartAlone(s: Sys, i: nat, own: Ino)
    requires Lonely(s, i, own)
    ensures i < |s.lockers| && s.lockers[i].pc.Waiting? && s.lockers[i].pc.ino in s.home
    ensures Alone(OwnFile(s, i, own), i, own, s.lockers[i].pc.ino)
    ensures Unchecked(OwnFile(s, i, own), i, own, s.lockers[i].pc.ino)
  {
    hide Opens, BeingDeleted, SecondFile, Inv, HasRival;
    LonelyIs(s, i, own);
    var u, x := OwnFile(s, i, own), s.lockers[i].pc.ino;
    StartDeleted(s, i, own, x);
    forall k, y | 0 <= k < |u.lockers| && SecondFile(u, k, y, own, x) ensures !BeingDeleted(u, x) {
      StartSecond(s, i, own, k, y);
    }
  }

  lemma StartLive(s: Sys, i: nat, own: Ino, y: Ino)
    requires Lonely(s, i, own) && y != own
    ensures i < |s.lockers| && s.lockers[i].pc.Waiting? && s.lockers[i].pc.ino in s.home
    ensures Live(OwnFile(s, i, own), y) ==> Live(s, y) && s.home[y] != s.home[s.lockers[i].pc.ino]
  {
    hide Opens, BeingDeleted, Inv, HasRival;
    LonelyIs(s, i, own);
    var u, x := OwnFile(s, i, own), s.lockers[i].pc.ino;
    if Live(u, y) {
      StartDeleted(s, i, own, y);
      if InUse(u, y) {
        var k := UserOf(u, y);
        StartOpens(s, i, own, k, y);
        StartSecond(s, i, own, k, y);
      }
    }
  }

  lemma StartInv(s: Sys, i: nat, own: Ino)
    requires Lonely(s, i, own)
    ensures i < |s.lockers| && s.lockers[i].pc.Waiting? && s.lockers[i].pc.ino in s.home
    ensures LiveOk(OwnFile(s, i, own), false)
  {
    hide Live, HasRival, Base;
    LonelyIs(s, i, own);
    hide LockerOk, FilesOk;
    var u, x := OwnFile(s, i, own), s.lockers[i].pc.ino;
    forall y | Live(u, y) ensures y in u.home && Reached(u, y, false) && (y != own ==> Live(s, y) && u.home[y] != s.home[x]) {
      LiveHome(u, y);
      if y != own {
        StartLive(s, i, own, y);
        assert Live(s, y) && Reached(s, y, false);
      }
    }
  }

  /** Where nobody can come to rely on another file of the path, letting the waiter in
      without the lock is as good as giving it a file of its own. */
  lemma StartsApart(s: Sys, i: nat, own: Ino)
    requires Lonely(s, i, own)
    ensures i < |s.lockers| && s.lockers[i].pc.Waiting? && s.lockers[i].pc.ino in s.home
    ensures Sim(OwnFile(s, i, own), i, own, s.lockers[i].pc.ino)
    ensures Fold(OwnFile(s, i, own), i, own, s.lockers[i].pc.ino) == Next(s, Interrupt(i)).value
  {
    hide Lonely, Base, LiveOk, Apart, Alone, Unchecked;
    OwnFileBase(s, i, own);
    StartInv(s, i, own);
    StartApart(s, i, own);
    StartAlone(s, i, own);
    FoldsBack(s, i, own);
  }

  function Created(steps: seq<Step>): set<Ino> {
    set k | 0 <= k < |steps| && steps[k].Open? :: steps[k].unused
  }

  lemma CreatedAll(steps: seq<Step>, own: Ino)
    requires own !in Created(steps)
    ensures Avoids(steps, own)
  {
    forall k | 0 <= k < |steps| && steps[k].Open? ensures steps[k].unused != own {
      assert steps[k].unused in Created(steps);
    }
  }

  lemma LonelyIsSound(s: Sys, i: nat)
    requires Inv(s, false) && Next(s, Interrupt(i)).Some? && s.lockers[i].pc.ino in s.home && s.lockers[i].pc.ino !in s.stale
    requires Leftover(s, s.home[s.lockers[i].pc.ino]) && !HasRival(s, i, s.lockers[i].pc.ino)
    ensures !MayBreak(Next(s, Interrupt(i)).value)
  {
    hide Inv, Ran, HasRival, Sim, Fold, Broken, Leftover;
    var t := Next(s, Interrupt(i)).value;
    forall steps, w | Ran(t, steps, w, false) ensures !Broken(w) {
      var own := Above(s.home.Keys + Created(steps));
      CreatedAll(steps, own);
      StartsApart(s, i, own);
      NothingBreaks(OwnFile(s, i, own), i, own, s.lockers[i].pc.ino, steps, w);
    }
  }

  /** A wait cut short can lead to two lockers in one critical section exactly if the file
      carries no token and somebody else can come to rely on a file of its path: a newcomer,
      because the lock name is free or leads to a file without a token, or whoever has such
      a file open already, as long as it is not being deleted while the waiter's is not. */
  lemma CutShortBreaksExactly(s: Sys, i: nat)
    requires Inv(s, false) && Next(s, Interrupt(i)).Some?
    ensures s.lockers[i].pc.ino in s.home
    ensures MayBreak(Next(s, Interrupt(i)).value) <==>
            s.lockers[i].pc.ino !in s.stale &&
            (!Leftover(s, s.home[s.lockers[i].pc.ino]) || HasRival(s, i, s.lockers[i].pc.ino))
  {
    hide LiveOk, Base, MayBreak, HasRival, Leftover, Exposes, Nar.Less, Sorted;
    WaiterIsNotHolder(s, i);
    var x := s.lockers[i].pc.ino;
    if x in s.stale {
      StepKeepsInv(s, Interrupt(i), false);
      RunStaysSound(Next(s, Interrupt(i)).value);
    } else if !Leftover(s, s.home[x]) || HasRival(s, i, x) {
      CutShortLetsIn(s, i);
    } else {
      LonelyIsSound(s, i);
    }
  }

  // ---------------------------------------------------------- it can happen

  /** Two lockers are enough: one is woken by a signal while the other holds the lock. */
  lemma CutShortBreaksExclusion(p: Path) returns (steps: seq<Step>, s: Sys)
    ensures Ran(Init(2), steps, s, true) && Next(s, Interrupt(1)).Some? && MayBreak(Next(s, Interrupt(1)).value)
  {
    hide Ran, Nar.Less, Exposes, MayBreak, Init, HasRival, Base;
    steps, s := WaiterArrives(p);
    RanKeepsBase(2, steps, s);
    CutShortLetsIn(s, 1);
  }
}
