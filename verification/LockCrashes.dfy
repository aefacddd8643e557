/** Exactly when a dying locker breaks mutual exclusion: one that dies between the unlink
    and the token can leave others with locks on two files of one path. */
module LockCrashes {
  import opened Results
  import opened Wire
  import opened Nar
  import opened PathLocks

  // ------------------------------------------------------------- runs, step by step

  /** Harmless steps lead from `s` to `t`. */
  predicate Ran(s: Sys, steps: seq<Step>, t: Sys, strict: bool) {
    After(s, steps) == Some(t) && HarmlessRun(s, steps, strict)
  }

  /** Locker `n` does nothing in between. */
  predicate Spares(steps: seq<Step>, n: nat) {
    forall k :: 0 <= k < |steps| ==> steps[k].i != n
  }

  lemma {:induction false} OneMore(s: Sys, steps: seq<Step>, x: Step, strict: bool)
    requires After(s, steps).Some? && HarmlessRun(s, steps, strict) && Harmless(After(s, steps).value, x, strict)
    ensures After(s, steps + [x]) == Next(After(s, steps).value, x) && HarmlessRun(s, steps + [x], strict)
    decreases |steps|
  {
    hide Next, Harmless;
    if steps != [] {
      assert (steps + [x])[1..] == steps[1..] + [x];
      OneMore(Next(s, steps[0]).value, steps[1..], x, strict);
    } else {
      assert steps + [x] == [x] && [x][1..] == [];
    }
  }

  /** One more step of a run from `s` that has reached `t`. */
  lemma Extend(s: Sys, steps: seq<Step>, t: Sys, x: Step, strict: bool) returns (more: seq<Step>, u: Sys)
    requires Ran(s, steps, t, strict) && Next(t, x).Some? && Harmless(t, x, strict)
    ensures Ran(s, more, u, strict) && Next(t, x) == Some(u)
    ensures forall n :: n != x.i && Spares(steps, n) ==> Spares(more, n)
  {
    more, u := steps + [x], Next(t, x).value;
    OneMore(s, steps, x, strict);
  }

  lemma NoSteps(s: Sys, strict: bool)
    ensures Ran(s, [], s, strict)
  {
  }

  /** Some number no lock file has. */
  lemma {:induction false} Above(used: set<Ino>) returns (n: Ino)
    ensures forall x :: x in used ==> x < n
    decreases used
  {
    if used == {} {
      n := 0;
    } else {
      var x :| x in used;
      var m := Above(used - {x});
      n := if m <= x then x + 1 else m;
      forall y | y in used ensures y < n {
        assert y != x ==> y in used - {x};
      }
    }
  }

  // --------------------------------------------------- getting to guard a file

  /** All but lockers `a` and `b` are where they were, and so are the files. */
  predicate OnlyMoved(s: Sys, t: Sys, a: nat, b: nat) {
    |t.lockers| == |s.lockers| && t.names == s.names && t.stale == s.stale && t.home == s.home &&
    forall k :: 0 <= k < |s.lockers| && k != a && k != b ==> t.lockers[k] == s.lockers[k]
  }

  /** What getting there comes to. */
  predicate Got(u: Sys, v: Sys, m: nat, y: Ino)
    requires m < |u.lockers| && y in u.home
  {
    OnlyMoved(u, v, m, m) && y in u.home &&
    v.lockers[m].fds == u.lockers[m].fds + [Fd(u.home[y], y)] &&
    (v.lockers[m].pc.Locked? || v.lockers[m].pc.Opening?)
  }

  lemma Takes(s: Sys, steps: seq<Step>, u: Sys, m: nat, y: Ino, strict: bool) returns (more: seq<Step>, v: Sys)
    requires Ran(s, steps, u, strict) && Base(u) && m < |u.lockers|
    requires (u.lockers[m].pc.Trying? || u.lockers[m].pc.Waiting?) && u.lockers[m].pc.ino == y
    requires y in u.home && y !in u.stale && y !in u.flocks
    ensures Ran(s, more, v, strict) && Base(v) && Got(u, v, m, y)
    ensures forall n :: n != m && Spares(steps, n) ==> Spares(more, n)
  {
    hide Ran, Spares, Base, Less, Sorted, Exposes;
    PcAt(u, m);
    var x := if u.lockers[m].pc.Trying? then Try(m) else Block(m);
    StepKeepsBase(u, x);
    var w;
    more, w := Extend(s, steps, u, x, strict);
    assert w == Grabbed(u, m, y);
    StepKeepsBase(w, Check(m));
    more, v := Extend(s, more, w, Check(m), strict);
    assert v == Pushed(w, m);
  }

  lemma Closes(s: Sys, steps: seq<Step>, u: Sys, m: nat, strict: bool) returns (more: seq<Step>, v: Sys)
    requires Ran(s, steps, u, strict) && Base(u) && m < |u.lockers| && u.lockers[m].pc.ClosingOld?
    ensures Ran(s, more, v, strict) && Base(v) && OnlyMoved(u, v, m, m)
    ensures v.lockers[m] == u.lockers[m].(pc := Trying(u.lockers[m].pc.next))
    ensures forall x :: x in v.flocks ==> x in u.flocks && v.flocks[x] == u.flocks[x]
    ensures forall n :: n != m && Spares(steps, n) ==> Spares(more, n)
  {
    hide Ran, Spares, Base, Less, Sorted, Exposes;
    StepKeepsBase(u, CloseOld(m));
    more, v := Extend(s, steps, u, CloseOld(m), strict);
  }

  /** A locker on its way to a file without a token that nobody has locked gets there. */
  lemma Arrives(s: Sys, steps: seq<Step>, u: Sys, m: nat, y: Ino, strict: bool) returns (more: seq<Step>, v: Sys)
    requires Ran(s, steps, u, strict) && Base(u) && m < |u.lockers| && OnTheWay(u.lockers[m].pc, y)
    requires y in u.home && y !in u.stale && y !in u.flocks
    ensures Ran(s, more, v, strict) && Base(v) && Got(u, v, m, y)
    ensures forall n :: n != m && Spares(steps, n) ==> Spares(more, n)
  {
    hide Ran, Spares, Base, Less, Sorted, FilesOk, Next, PcOk;
    LockerAt(u, m);
    more, v := steps, u;
    if u.lockers[m].pc.ClosingOld? {
      more, v := Closes(s, steps, u, m, strict);
    }
    more, v := Takes(s, more, v, m, y, strict);
  }

  /** A locker on its way to a file without a token: it comes to guard that file, or the
      one that has it locked does. */
  lemma Comes(s: Sys, steps: seq<Step>, u: Sys, m: nat, y: Ino) returns (more: seq<Step>, v: Sys, g: nat, j: nat)
    requires Ran(s, steps, u, false) && Base(u) && m < |u.lockers| && OnTheWay(u.lockers[m].pc, y)
    requires y in u.home && y !in u.stale
    requires y in u.flocks && u.flocks[y] < |u.lockers| && DeletedBy(u.lockers[u.flocks[y]], y) ==>
               !Exposes(u, u.flocks[y], false)
    ensures Ran(s, more, v, false) && g < |u.lockers| && (g == m || (y in u.flocks && g == u.flocks[y]))
    ensures OnlyMoved(u, v, m, if y in u.flocks then u.flocks[y] else m)
    ensures forall n :: n != m && (y in u.flocks ==> n != u.flocks[y]) && Spares(steps, n) ==> Spares(more, n)
    ensures Guards(v.lockers[g], j) && v.lockers[g].fds[j].path == u.home[y]
  {
    hide Ran, Spares, Base, Less, Sorted, FilesOk;
    if y !in u.flocks {
      more, v := Arrives(s, steps, u, m, y, false);
      g, j := m, |u.lockers[m].fds|;
    } else {
      Holder(u, y);
      more, v, g, j := HolderGuards(s, steps, u, m, y);
    }
  }

  lemma Holder(u: Sys, y: Ino)
    requires Base(u) && y in u.flocks
    ensures u.flocks[y] < |u.lockers| && Owns(u.lockers[u.flocks[y]], y)
  {
    hide LockerOk;
  }

  lemma HolderGuards(s: Sys, steps: seq<Step>, u: Sys, m: nat, y: Ino) returns (more: seq<Step>, v: Sys, g: nat, j: nat)
    requires Ran(s, steps, u, false) && Base(u) && m < |u.lockers| && OnTheWay(u.lockers[m].pc, y)
    requires y in u.home && y !in u.stale && y in u.flocks && u.flocks[y] < |u.lockers|
    requires DeletedBy(u.lockers[u.flocks[y]], y) ==> !Exposes(u, u.flocks[y], false)
    ensures Ran(s, more, v, false) && g < |u.lockers| && (g == m || g == u.flocks[y])
    ensures OnlyMoved(u, v, m, u.flocks[y])
    ensures forall n :: n != m && n != u.flocks[y] && Spares(steps, n) ==> Spares(more, n)
    ensures Guards(v.lockers[g], j) && v.lockers[g].fds[j].path == u.home[y]
  {
    hide Ran, Spares, Base, Less, Sorted, FilesOk;
    var h := u.flocks[y];
    Holder(u, y);
    LockerAt(u, h);
    var l := u.lockers[h];
    more, v, g := steps, u, h;
    if l.pc.Checking? && l.pc.ino == y {
      j := |l.fds|;
      more, v := Extend(s, more, v, Check(h), false);
    } else {
      j :| 0 <= j < |l.fds| && l.fds[j].ino == y;
      if !Guards(l, j) {
        StepKeepsBase(v, Crash(h));
        more, v := Extend(s, more, v, Crash(h), false);
        more, v := Arrives(s, more, v, m, y, false);
        g, j := m, |u.lockers[m].fds|;
      }
    }
  }

  /** An idle locker sets out for one path. */
  lemma SetsOut(s: Sys, steps: seq<Step>, u: Sys, i: nat, p: Path, unused: Ino)
    returns (more: seq<Step>, v: Sys)
    requires Ran(s, steps, u, false) && Base(u) && i < |u.lockers| && u.lockers[i].pc.Idle? && unused !in u.home
    ensures Ran(s, more, v, false) && Base(v) && v.flocks == u.flocks && v.stale == u.stale
    ensures |v.lockers| == |u.lockers| && forall k :: 0 <= k < |u.lockers| && k != i ==> v.lockers[k] == u.lockers[k]
    ensures v.lockers[i].pc == Trying(Opened(u, p, unused)) && v.lockers[i].fds == []
    ensures v.names == WithFile(u, p, unused).names && v.home == WithFile(u, p, unused).home
    ensures forall n :: n != i && Spares(steps, n) ==> Spares(more, n)
  {
    hide Ran, Spares, Base, Less, FilesOk;
    PcAt(u, i);
    StepKeepsBase(u, Lock(i, [p], true));
    more, v := Extend(s, steps, u, Lock(i, [p], true), false);
    StepKeepsBase(v, Open(i, unused));
    more, v := Extend(s, more, v, Open(i, unused), false);
  }

  // ------------------------------------------------ dying before the token

  /** Two lockers in the critical section of one path. */
  predicate Clash(s: Sys, a: nat, j: nat, b: nat, k: nat) {
    a < |s.lockers| && b < |s.lockers| && a != b && Guards(s.lockers[a], j) && Guards(s.lockers[b], k) &&
    s.lockers[a].fds[j].path == s.lockers[b].fds[k].path
  }

  ghost predicate Broken(s: Sys) {
    exists a: nat, j: nat, b: nat, k: nat :: Clash(s, a, j, b, k)
  }

  ghost predicate MayBreak(s: Sys) {
    exists steps, t :: Ran(s, steps, t, false) && Broken(t)
  }

  /** Who else has the file open that `i` is deleting is still on the way to locking it. */
  lemma OtherIsOnTheWay(s: Sys, i: nat, k: nat)
    requires Base(s) && i < |s.lockers| && s.lockers[i].pc.Writing? && s.lockers[i].fds != []
    requires k < |s.lockers| && Opens(s.lockers[k], s.lockers[i].fds[0].ino)
    ensures k != i && OnTheWay(s.lockers[k].pc, s.lockers[i].fds[0].ino) && !s.lockers[k].pc.Checking?
    ensures s.lockers[i].fds[0].ino in s.home && s.lockers[i].fds[0].ino !in s.stale
    ensures s.home[s.lockers[i].fds[0].ino] == s.lockers[i].fds[0].path
  {
    hide Base, Less, FilesOk;
    LockerAt(s, i);
    LockerAt(s, k);
    var l, x := s.lockers[k], s.lockers[i].fds[0].ino;
    if GuardsFile(l, x) {
      var j :| 0 <= j < |l.fds| && Guards(l, j) && l.fds[j].ino == x;
      assert j != 0;
      FdsDistinct(s, i, 0, j);
    }
  }

  /** After the crash of `i`, whoever is on the way to its file guards it. */
  lemma ExposedIsEntered(s: Sys, i: nat, strict: bool) returns (steps: seq<Step>, u: Sys, k: nat)
    requires Base(s) && i < |s.lockers| && s.lockers[i].pc.Writing? && s.lockers[i].fds != []
    requires InUse(s, s.lockers[i].fds[0].ino)
    ensures Ran(Crashed(s, i), steps, u, strict) && Base(u) && OnlyMoved(Crashed(s, i), u, k, k)
    ensures var x := s.lockers[i].fds[0].ino;
      k < |s.lockers| && k != i && OnTheWay(s.lockers[k].pc, x) && Guards(u.lockers[k], |s.lockers[k].fds|) &&
      u.lockers[k].fds == s.lockers[k].fds + [Fd(s.lockers[i].fds[0].path, x)] &&
      (u.lockers[k].pc.Locked? || u.lockers[k].pc.Opening?)
  {
    hide Ran, Spares, Base, Less, FilesOk, OnTheWay;
    var x, t := s.lockers[i].fds[0].ino, Crashed(s, i);
    k :| 0 <= k < |s.lockers| && Opens(s.lockers[k], x);
    OtherIsOnTheWay(s, i, k);
    FirstIsLocked(s, i);
    StepKeepsBase(s, Crash(i));
    NoSteps(t, strict);
    steps, u := Arrives(t, [], t, k, x, strict);
  }

  /** A locker that is not in between has one file of a path. */
  lemma OneFilePerPath(u: Sys, k: nat, j: nat, y: Ino)
    requires Base(u) && k < |u.lockers| && j < |u.lockers[k].fds| && (u.lockers[k].pc.Locked? || u.lockers[k].pc.Opening?)
    requires y in u.home && u.lockers[k].fds[j].path == u.home[y] && u.lockers[k].fds[j].ino != y
    ensures y in u.flocks ==> u.flocks[y] != k
  {
    hide Base, Less, FilesOk;
    LockerAt(u, k);
    if y in u.flocks && u.flocks[y] == k {
      Holder(u, y);
      var n :| 0 <= n < |u.lockers[k].fds| && u.lockers[k].fds[n].ino == y;
      if n < j {
        FdsDistinct(u, k, n, j);
      } else {
        FdsDistinct(u, k, j, n);
      }
    }
  }

  /** `k` has the file locked that the lock name of `p` leads to. */
  predicate HoldsNamed(u: Sys, k: nat, p: Path) {
    p in u.names && u.names[p] in u.flocks && u.flocks[u.names[p]] == k
  }

  /** Where the lock name is free, or leads to a file without a token, a newcomer comes to
      guard a file of the path, or whoever has that file does. */
  lemma NewcomerGuards(s: Sys, steps: seq<Step>, u: Sys, i: nat, p: Path)
    returns (more: seq<Step>, w: Sys, g: nat, n: nat)
    requires Ran(s, steps, u, false) && Base(u) && i < |u.lockers| && u.lockers[i].pc.Idle? && !Leftover(u, p)
    ensures Ran(s, more, w, false) && g < |u.lockers| == |w.lockers| && (g == i || HoldsNamed(u, g, p))
    ensures Guards(w.lockers[g], n) && w.lockers[g].fds[n].path == p
    ensures forall k :: 0 <= k < |u.lockers| && k != i && !HoldsNamed(u, k, p) ==> w.lockers[k] == u.lockers[k]
    ensures forall k :: k != i && !HoldsNamed(u, k, p) && Spares(steps, k) ==> Spares(more, k)
  {
    hide Ran, Spares, Base, Less, OnTheWay, DeletedBy, Exposes;
    FilesAt(u);
    var unused := Above(u.home.Keys);
    var o := Opened(u, p, unused);
    var v;
    more, v := SetsOut(s, steps, u, i, p, unused);
    TryingIsOnTheWay(v.lockers[i].pc, o);
    if o in v.flocks {
      BoundIsNotExposed(v, v.flocks[o], o);
    }
    more, w, g, n := Comes(s, more, v, i, o);
  }

  lemma BoundIsNotExposed(u: Sys, h: nat, o: Ino)
    requires Bound(u, o) && h < |u.lockers|
    ensures DeletedBy(u.lockers[h], o) ==> !Exposes(u, h, false)
  {
  }

  lemma NewcomerClashes(s: Sys, steps: seq<Step>, u: Sys, i: nat, k: nat, j: nat)
    requires Ran(s, steps, u, false) && Base(u) && i < |u.lockers| && k < |u.lockers| && k != i
    requires u.lockers[i].pc.Idle? && Guards(u.lockers[k], j) && (u.lockers[k].pc.Locked? || u.lockers[k].pc.Opening?)
    requires !Bound(u, u.lockers[k].fds[j].ino) && !Leftover(u, u.lockers[k].fds[j].path)
    ensures MayBreak(s)
  {
    hide Ran, Spares, Base, Less;
    FilesAt(u);
    LockerAt(u, k);
    var p := u.lockers[k].fds[j].path;
    if p in u.names {
      OneFilePerPath(u, k, j, u.names[p]);
    }
    var more, w, g, n := NewcomerGuards(s, steps, u, i, p);
    assert w.lockers[k] == u.lockers[k];
    assert Clash(w, g, n, k, j);
    assert Broken(w);
  }

  lemma TryingIsOnTheWay(pc: Pc, o: Ino)
    requires pc == Trying(o)
    ensures OnTheWay(pc, o)
  {
  }

  /** Somebody else's file of the same path, that is neither `i`'s nor `k`'s. */
  lemma SecondUser(s: Sys, i: nat, k: nat, y: Ino, m: nat)
    requires Base(s) && i < |s.lockers| && s.lockers[i].pc.Writing? && s.lockers[i].fds != []
    requires k < |s.lockers| && OnTheWay(s.lockers[k].pc, s.lockers[i].fds[0].ino)
    requires y in s.home && s.home[y] == s.lockers[i].fds[0].path && y != s.lockers[i].fds[0].ino
    requires m < |s.lockers| && Opens(s.lockers[m], y)
    ensures m != i && m != k
  {
    hide Base, FilesOk, Less;
    LockerAt(s, i);
    LockerAt(s, k);
    var l := s.lockers[m];
    if m == k && GuardsFile(l, y) {
      var j :| 0 <= j < |l.fds| && Guards(l, j) && l.fds[j].ino == y;
      assert Less(l.paths[j], l.paths[|l.fds|]);
      LessIsStrictTotalOrder(l.paths[j], l.paths[j], l.paths[j]);
    } else if m == i {
      var j :| 0 <= j < |l.fds| && Guards(l, j) && l.fds[j].ino == y;
      FdsDistinct(s, i, 0, j);
    }
  }

  lemma SecondUserClashes(s: Sys, i: nat, steps: seq<Step>, u: Sys, k: nat, y: Ino)
    requires Base(s) && i < |s.lockers| && s.lockers[i].pc.Writing? && s.lockers[i].fds != []
    requires var x := s.lockers[i].fds[0].ino;
      Ran(Crashed(s, i), steps, u, false) && Base(u) && OnlyMoved(Crashed(s, i), u, k, k) &&
      k < |s.lockers| && k != i && OnTheWay(s.lockers[k].pc, x) && Guards(u.lockers[k], |s.lockers[k].fds|) &&
      u.lockers[k].fds == s.lockers[k].fds + [Fd(s.lockers[i].fds[0].path, x)] &&
      (u.lockers[k].pc.Locked? || u.lockers[k].pc.Opening?) &&
      y in s.home && s.home[y] == s.lockers[i].fds[0].path && y != x && Live(s, y) && InUse(s, y)
    ensures MayBreak(Crashed(s, i))
  {
    hide Ran, Spares, Base, Less, OnTheWay, FilesOk, Guards, GuardsFile;
    LiveHome(s, y);
    var n := |s.lockers[k].fds|;
    var m :| 0 <= m < |s.lockers| && Opens(s.lockers[m], y);
    SecondUser(s, i, k, y, m);
    assert u.lockers[m] == s.lockers[m];
    OneFilePerPath(u, k, n, y);
    if GuardsFile(s.lockers[m], y) {
      GuardsPath(s, m, y);
      var j :| 0 <= j < |s.lockers[m].fds| && Guards(s.lockers[m], j) && s.lockers[m].fds[j].ino == y &&
               s.lockers[m].fds[j].path == s.home[y];
      assert Clash(u, m, j, k, n);
      assert Broken(u);
    } else {
      NotBeingDeleted(s, i, u, k, y);
      var more, w, g, j := Comes(Crashed(s, i), steps, u, m, y);
      assert w.lockers[k] == u.lockers[k];
      assert Clash(w, g, j, k, n);
      assert Broken(w);
    }
  }

  lemma GuardsPath(s: Sys, m: nat, y: Ino)
    requires Base(s) && m < |s.lockers| && GuardsFile(s.lockers[m], y)
    ensures y in s.home
    ensures exists j :: 0 <= j < |s.lockers[m].fds| && Guards(s.lockers[m], j) && s.lockers[m].fds[j].ino == y &&
              s.lockers[m].fds[j].path == s.home[y]
  {
    hide Base, FilesOk, PcOk, Less;
    LockerAt(s, m);
  }

  lemma NotBeingDeleted(s: Sys, i: nat, u: Sys, k: nat, y: Ino)
    requires i < |s.lockers| && k < |s.lockers| && OnlyMoved(Crashed(s, i), u, k, k) && Live(s, y) && k != i
    requires u.lockers[k].pc.Locked? || u.lockers[k].pc.Opening?
    ensures forall h :: 0 <= h < |u.lockers| ==> !DeletedBy(u.lockers[h], y)
  {
    forall h | 0 <= h < |u.lockers| ensures !DeletedBy(u.lockers[h], y) {
      if h != i && h != k {
        assert u.lockers[h] == s.lockers[h];
        NotDeleted(s, y);
        assert !DeletedBy(s.lockers[h], y);
      }
    }
  }

  lemma ExposedBreaks(s: Sys, i: nat)
    requires Base(s) && i < |s.lockers| && Exposes(s, i, false)
    ensures MayBreak(Crashed(s, i))
  {
    hide Ran, Spares, Base, Less, OnTheWay, Live, InUse, MayBreak;
    var x, p := s.lockers[i].fds[0].ino, s.lockers[i].fds[0].path;
    var steps, u, k := ExposedIsEntered(s, i, false);
    if !Leftover(s, p) {
      FirstIsLocked(s, i);
      NewcomerClashes(Crashed(s, i), steps, u, i, k, |s.lockers[k].fds|);
    } else {
      var y :| y in s.home && y != x && Live(s, y) && s.home[y] == p;
      LiveHome(s, y);
      LiveUsed(s, y);
      SecondUserClashes(s, i, steps, u, k, y);
    }
  }

  lemma ClashIsImpossible(s: Sys, a: nat, j: nat, b: nat, k: nat)
    requires Inv(s, false)
    ensures !Clash(s, a, j, b, k)
  {
    hide Inv;
    if Clash(s, a, j, b, k) {
      MutualExclusion(s, a, b, j, k, false);
    }
  }

  lemma RunStaysSound(s: Sys)
    requires Inv(s, false)
    ensures !MayBreak(s)
  {
    hide Inv, Clash;
    forall steps, t | Ran(s, steps, t, false) ensures !Broken(t) {
      RunKeepsInv(s, steps, false);
      forall a: nat, j: nat, b: nat, k: nat ensures !Clash(t, a, j, b, k) {
        ClashIsImpossible(t, a, j, b, k);
      }
    }
  }

  /** A locker's death can lead to two lockers in one critical section exactly if it
      exposes a file: it died past the unlink and before the token, somebody else has that
      nameless file open, and a second file of the path can still be locked. */
  lemma CrashBreaksExactly(s: Sys, i: nat)
    requires Inv(s, false) && i < |s.lockers|
    ensures MayBreak(Next(s, Crash(i)).value) <==> Exposes(s, i, false)
  {
    hide LiveOk, Base, MayBreak, Exposes;
    if Exposes(s, i, false) {
      ExposedBreaks(s, i);
    } else {
      StepKeepsInv(s, Crash(i), false);
      RunStaysSound(Next(s, Crash(i)).value);
    }
  }

  /** A locker that guards a file no lock name leads to. */
  predicate Adrift(s: Sys, k: nat, j: nat) {
    k < |s.lockers| && Guards(s.lockers[k], j) && !Bound(s, s.lockers[k].fds[j].ino)
  }

  ghost predicate MayDrift(s: Sys) {
    exists steps, t, k: nat, j: nat :: Ran(s, steps, t, true) && Adrift(t, k, j)
  }

  lemma RunStaysBound(s: Sys)
    requires Inv(s, true)
    ensures !MayDrift(s)
  {
    hide Inv, Guards;
    forall steps, t, k: nat, j: nat | Ran(s, steps, t, true) ensures !Adrift(t, k, j) {
      RunKeepsInv(s, steps, true);
      if k < |t.lockers| && Guards(t.lockers[k], j) {
        GuardedIsBound(t, k, j);
      }
    }
  }

  lemma GuardedIsBound(s: Sys, k: nat, j: nat)
    requires Inv(s, true) && k < |s.lockers| && Guards(s.lockers[k], j)
    ensures Bound(s, s.lockers[k].fds[j].ino)
  {
    hide LockerOk, FilesOk, LiveOk, Live;
    GuardedIsReached(s, k, j, true);
    GuardedIsLive(s, k, j);
    LiveHome(s, s.lockers[k].fds[j].ino);
  }

  /** A locker's death can lead to a guarded file that its lock name does not lead to
      exactly if it died past the unlink and before the token, the unlink succeeded, and
      somebody else has the file open. */
  lemma CrashUnbindsExactly(s: Sys, i: nat)
    requires Inv(s, true) && i < |s.lockers|
    ensures MayDrift(Next(s, Crash(i)).value) <==> Exposes(s, i, true)
  {
    hide LiveOk, Base, InUse, Ran, Guards;
    if Exposes(s, i, true) {
      var steps, u, k := ExposedIsEntered(s, i, true);
      assert Adrift(u, k, |s.lockers[k].fds|);
    } else {
      StepKeepsInv(s, Crash(i), true);
      RunStaysBound(Next(s, Crash(i)).value);
    }
  }

  // ---------------------------------------------------------- it can happen

  lemma FirstOpens(p: Path) returns (steps: seq<Step>, s: Sys)
    ensures Ran(Init(2), steps, s, true) && |s.lockers| == 2
    ensures s.lockers[0] == Locker([p], true, false, [], Trying(0))
    ensures s.lockers[1] == Locker([], false, false, [], Idle)
    ensures s.names == map[p := 0] && s.stale == {} && s.flocks == map[] && s.home == map[0 := p]
  {
    hide Ran, Spares, Less, Exposes;
    NoSteps(Init(2), true);
    steps, s := Extend(Init(2), [], Init(2), Lock(0, [p], true), true);
    steps, s := Extend(Init(2), steps, s, Open(0, 0), true);
  }

  lemma FirstLocks(p: Path) returns (steps: seq<Step>, s: Sys)
    ensures Ran(Init(2), steps, s, true) && |s.lockers| == 2
    ensures s.lockers[0] == Locker([p], true, true, [Fd(p, 0)], Locked)
    ensures s.lockers[1] == Locker([], false, false, [], Idle)
    ensures s.names == map[p := 0] && s.stale == {} && s.flocks == map[0 := 0] && s.home == map[0 := p]
  {
    hide Ran, Spares, Less, Exposes, Init, Sorted;
    steps, s := FirstOpens(p);
    steps, s := Extend(Init(2), steps, s, Try(0), true);
    steps, s := Extend(Init(2), steps, s, Check(0), true);
    steps, s := Extend(Init(2), steps, s, SetDeletion(0, true), true);
  }

  /** One locker holds `p` and will delete its lock file; another waits for it. */
  lemma WaiterArrives(p: Path) returns (steps: seq<Step>, s: Sys)
    ensures Ran(Init(2), steps, s, true) && |s.lockers| == 2
    ensures s.lockers[0] == Locker([p], true, true, [Fd(p, 0)], Locked)
    ensures s.lockers[1] == Locker([p], true, false, [], Waiting(0))
    ensures s.names == map[p := 0] && s.stale == {} && s.flocks == map[0 := 0] && s.home == map[0 := p]
  {
    hide Ran, Spares, Less, Exposes, Init;
    steps, s := FirstLocks(p);
    steps, s := Extend(Init(2), steps, s, Lock(1, [p], true), true);
    steps, s := Extend(Init(2), steps, s, Open(1, 1), true);
    steps, s := Extend(Init(2), steps, s, Try(1), true);
  }

  lemma RanKeepsBase(n: nat, steps: seq<Step>, s: Sys)
    requires Ran(Init(n), steps, s, true)
    ensures Base(s)
  {
    hide Base, LiveOk, After, HarmlessRun;
    Reachable(n, steps, true);
  }

  /** The one that holds the lock unlinks its file while the other waits. */
  lemma UnlinkedWithWaiter(p: Path) returns (steps: seq<Step>, s: Sys)
    ensures Ran(Init(2), steps, s, true) && |s.lockers| == 2
    ensures s.lockers[0].pc.Writing? && s.lockers[0].fds == [Fd(p, 0)] && s.lockers[1].pc == Waiting(0)
    ensures p !in s.names && s.home == map[0 := p]
  {
    hide Ran, Spares, Less, Exposes, Init;
    steps, s := WaiterArrives(p);
    steps, s := Extend(Init(2), steps, s, Unlock(0), true);
    steps, s := Extend(Init(2), steps, s, UnlinkFile(0, true), true);
  }

  /** Two lockers are enough: one dies after it has unlinked its lock file, while the other
      waits for it. */
  lemma CrashBeforeTokenBreaksExclusion(p: Path) returns (steps: seq<Step>, s: Sys)
    ensures Ran(Init(2), steps, s, true) && Next(s, Crash(0)).Some? && MayBreak(Next(s, Crash(0)).value)
  {
    hide Ran, Spares, Less, Exposes, MayBreak, Base;
    steps, s := UnlinkedWithWaiter(p);
    IsExposed(s, p);
    RanKeepsBase(2, steps, s);
    ExposedBreaks(s, 0);
  }

  lemma IsExposed(s: Sys, p: Path)
    requires |s.lockers| == 2 && s.lockers[0].pc.Writing? && s.lockers[0].fds == [Fd(p, 0)]
    requires s.lockers[1].pc == Waiting(0) && p !in s.names && s.home == map[0 := p]
    ensures Exposes(s, 0, false)
  {
    assert Opens(s.lockers[1], 0);
  }
}
