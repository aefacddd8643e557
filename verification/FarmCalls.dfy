/** Why a task of the link farm does what it does, told by names: what led to each of its
    calls in any run, and where its calls lead when nobody else makes one in between. */
module FarmCalls {
  import opened Results
  import opened Wire
  import opened Nar
  import opened Hashes
  import opened FileTable
  import opened LinkFarm
  import Nix32

  // ------------------------------------------------------------- why, call by call

  predicate LeadsTo(f: Files, n: Name, ino: Ino) {
    n in f.names && f.names[n] == ino
  }

  predicate Sized(f: Files, n: Name, size: nat) {
    NodeAt(f, n).Some? && Size(NodeAt(f, n).value) == size
  }

  /** What was found at a store path. */
  predicate Looks(f: Files, path: Path, st: Stat) {
    LeadsTo(f, Store(path), st.ino) && Sized(f, Store(path), st.size) &&
    st.regular == NodeAt(f, Store(path)).value.Regular?
  }

  predicate EmptyFile(t: Leaf) {
    t.Regular? && t.contents == []
  }

  /** An optimise task goes on with a node that is no empty file and not known to be
      linked: the set of farmed inodes counts only where another name leads there too. */
  ghost predicate Worthwhile(f: Files, inodes: set<Ino>, path: Path) {
    NodeAt(f, Store(path)).Some? && !EmptyFile(NodeAt(f, Store(path)).value) &&
    !(UsedElsewhere(f, Store(path)) && f.names[Store(path)] in inodes)
  }

  ghost predicate WhyHash(f: Files, inodes: set<Ino>, was: Task, path: Path, hash: Hash, st: Stat, sha: Sha) {
    match was
    case Inspect(p, captured) =>
      p == path && captured == Some(hash) && Looks(f, path, st) && Worthwhile(f, inodes, path)
    case Digest(p, was) =>
      p == path && was == st && NodeAt(f, Store(path)).Some? && hash == sha(Dump(NodeAt(f, Store(path)).value))
    case _ => false
  }

  /** A swap found an entry of the very size it asked for, and an optimise task one that is
      not the inode it started from. */
  predicate WhyFetch(f: Files, was: Task, path: Path, hash: Hash, swap: bool) {
    FarmOf(hash) in f.names &&
    match was
    case SwapProbe(p, h, size) => p == path && h == hash && swap && Sized(f, FarmOf(hash), size)
    case Probe(p, h, st) =>
      p == path && h == hash && !swap && Sized(f, FarmOf(hash), st.size) && !LeadsTo(f, FarmOf(hash), st.ino)
    case ProbeAgain(p, h, st) => p == path && h == hash && !swap && !LeadsTo(f, FarmOf(hash), st.ino)
    case _ => false
  }

  predicate WhyCleanUp(f: Files, was: Task, path: Path, throws: bool, i: nat, fault: Fault) {
    was.Replace? && was.path == path && (fault.NoFault? ==> Temp(i) !in f.names) &&
    (throws <==> !was.swap && !fault.TooManyLinks?)
  }

  /** Why a task ends without a link to show for it, where nothing failed. */
  ghost predicate WhyEnd(f: Files, inodes: set<Ino>, was: Task, i: nat) {
    match was
    case Inspect(path, _) => Store(path) in f.names && !Worthwhile(f, inodes, path)
    case Probe(_, hash, st) => Sized(f, FarmOf(hash), st.size) && LeadsTo(f, FarmOf(hash), st.ino)
    case Publish(path, hash, _) => Store(path) in f.names && FarmOf(hash) !in f.names
    case ProbeAgain(_, hash, st) => FarmOf(hash) in f.names ==> LeadsTo(f, FarmOf(hash), st.ino)
    case SwapProbe(_, hash, size) => !Sized(f, FarmOf(hash), size)
    case Fetch(_, hash, swap) => FarmOf(hash) !in f.names || (swap && Temp(i) in f.names)
    case CleanUp(_, throws) => !throws
    case PruneStat(key) => Farm(key) in f.names && UsedElsewhere(f, Farm(key))
    case PruneUnlink(key) => Farm(key) in f.names
    case Ended(linked) => !linked
    case _ => false
  }

  /** Why a task throws, where nothing failed: what it works on is gone, or its temporary
      name taken. */
  predicate WhyThrow(f: Files, was: Task, i: nat) {
    match was
    case Inspect(path, _) => Store(path) !in f.names
    case Digest(path, _) => Store(path) !in f.names
    case Publish(path, _, _) => Store(path) !in f.names
    case Fetch(_, hash, swap) => !swap && FarmOf(hash) in f.names && Temp(i) in f.names
    case CleanUp(_, throws) => throws
    case PruneStat(key) => Farm(key) !in f.names
    case PruneUnlink(key) => Farm(key) !in f.names
    case Threw => true
    case _ => false
  }

  /** The failures a task shrugs off: all of them for a swap, else a full directory where an
      entry is created and an entry with too many links where one is used. */
  predicate Shrugs(was: Task, fault: Fault) {
    match was
    case SwapProbe(_, _, _) => true
    case Publish(_, _, _) => fault.NoSpace?
    case Fetch(_, _, swap) => swap || fault.TooManyLinks?
    case CleanUp(_, throws) => !throws
    case Ended(linked) => !linked
    case _ => false
  }

  /** Why task `i`, at `was` when the file system was `f`, is at `now` after one call. */
  ghost predicate Because(f: Files, inodes: set<Ino>, was: Task, now: Task, i: nat, fault: Fault, sha: Sha) {
    match now
    case CleanUp(path, throws) => WhyCleanUp(f, was, path, throws, i, fault)
    case Ended(linked) =>
      if linked then was == Ended(true) || (was.Replace? && fault.NoFault? && Temp(i) in f.names)
      else if fault.NoFault? then WhyEnd(f, inodes, was, i)
      else Shrugs(was, fault)
    case Threw =>
      if fault.NoFault? then WhyThrow(f, was, i) else !Shrugs(was, fault) && !was.Replace? && !was.Ended?
    case _ => fault.NoFault? && WhyGoOn(f, inodes, was, now, i, sha)
  }

  /** The same for a task that goes on, which it only does where its call did not fail. */
  ghost predicate WhyGoOn(f: Files, inodes: set<Ino>, was: Task, now: Task, i: nat, sha: Sha) {
    match now
    case Digest(path, st) => was == Inspect(path, None) && Looks(f, path, st) && Worthwhile(f, inodes, path)
    case Probe(path, hash, st) => WhyHash(f, inodes, was, path, hash, st, sha)
    case RemoveBad(path, hash, st) =>
      was == Probe(path, hash, st) && FarmOf(hash) in f.names && !Sized(f, FarmOf(hash), st.size)
    case Publish(path, hash, st) =>
      (was == Probe(path, hash, st) && FarmOf(hash) !in f.names) || was == RemoveBad(path, hash, st)
    case ProbeAgain(path, hash, st) =>
      was == Publish(path, hash, st) && FarmOf(hash) in f.names && Store(path) in f.names
    case Fetch(path, hash, swap) => WhyFetch(f, was, path, hash, swap)
    case Replace(path, hash, swap) =>
      was == Fetch(path, hash, swap) && FarmOf(hash) in f.names && Temp(i) !in f.names
    case PruneUnlink(key) => was == PruneStat(key) && Farm(key) in f.names && !UsedElsewhere(f, Farm(key))
    case _ => false
  }

  /** What a stat says, by names. */
  lemma StatSays(f: Files, n: Name)
    requires Counted(f)
    ensures Lstat(f, n).Some? <==> n in f.names
    ensures NodeAt(f, n).Some? <==> n in f.names
    ensures Lstat(f, n).Some? ==>
      var st := Lstat(f, n).value;
      LeadsTo(f, n, st.ino) && Sized(f, n, st.size) && st.regular == NodeAt(f, n).value.Regular? &&
      (st.nlink > 1 <==> UsedElsewhere(f, n)) && (st.nlink != 1 <==> UsedElsewhere(f, n))
  {
    hide UsedElsewhere;
    if n in f.names {
      OneLinkMeansNoOtherUse(f, n);
      SomeUse(f, n);
    }
  }

  lemma SomeUse(f: Files, n: Name)
    requires Counted(f) && n in f.names
    ensures f.names[n] in f.links && f.links[f.names[n]] > 0
  {
    assert n in Uses(f.names, f.names[n]);
  }

  lemma StoreCallBecause(f: Files, inodes: set<Ino>, t: Task, i: nat, sha: Sha)
    requires Counted(f) && (t.Inspect? || t.Digest?)
    ensures Because(f, inodes, t, Act(f, inodes, t, i, NoFault, sha).2, i, NoFault, sha)
  {
    hide Counted, Dump, Nix32.Encoded, Lstat, NodeAt, UsedElsewhere, FarmOf;
    StatSays(f, Store(t.path));
  }

  lemma FarmCallBecause(f: Files, inodes: set<Ino>, t: Task, i: nat, sha: Sha)
    requires Counted(f) && (t.Probe? || t.ProbeAgain? || t.SwapProbe?)
    ensures Because(f, inodes, t, Act(f, inodes, t, i, NoFault, sha).2, i, NoFault, sha)
  {
    hide Counted, Dump, Nix32.Encoded, Lstat, NodeAt, UsedElsewhere, FarmOf;
    StatSays(f, FarmOf(t.hash));
  }

  lemma OtherCallBecause(f: Files, inodes: set<Ino>, t: Task, i: nat, sha: Sha)
    requires Counted(f) && !(t.Inspect? || t.Digest? || t.Probe? || t.ProbeAgain? || t.SwapProbe?)
    ensures Because(f, inodes, t, Act(f, inodes, t, i, NoFault, sha).2, i, NoFault, sha)
  {
    hide Counted, Dump, Nix32.Encoded, Lstat, NodeAt, UsedElsewhere, FarmOf;
    if t.PruneStat? {
      StatSays(f, Farm(t.key));
    }
  }

  lemma CallBecause(f: Files, inodes: set<Ino>, t: Task, i: nat, fault: Fault, sha: Sha)
    requires Counted(f)
    ensures Because(f, inodes, t, Act(f, inodes, t, i, fault, sha).2, i, fault, sha)
  {
    if fault.NoFault? {
      hide Act, Because;
      if t.Inspect? || t.Digest? {
        StoreCallBecause(f, inodes, t, i, sha);
      } else if t.Probe? || t.ProbeAgain? || t.SwapProbe? {
        FarmCallBecause(f, inodes, t, i, sha);
      } else {
        OtherCallBecause(f, inodes, t, i, sha);
      }
    } else {
      hide Counted, WhyGoOn, WhyEnd, WhyThrow;
    }
  }

  // --------------------------------------------------------------- why, over runs

  /** Where tasks start. */
  predicate Starting(t: Task) {
    t.Inspect? || t.SwapProbe? || t.PruneStat?
  }

  lemma PrefixRuns(s: Sys, steps: seq<Step>, n: nat, sha: Sha)
    requires n <= |steps| && After(s, steps, sha).Some?
    ensures After(s, steps[..n], sha).Some?
    decreases |steps|
  {
    hide Next;
    if n > 0 {
      assert steps[..n][1..] == steps[1..][..n - 1];
      PrefixRuns(Next(s, steps[0], sha).value, steps[1..], n - 1, sha);
    }
  }

  lemma LastStep(s: Sys, steps: seq<Step>, sha: Sha)
    requires steps != [] && After(s, steps, sha).Some?
    ensures After(s, steps[..|steps| - 1], sha).Some?
    ensures Next(After(s, steps[..|steps| - 1], sha).value, steps[|steps| - 1], sha) == After(s, steps, sha)
  {
    hide Next, After;
    PrefixRuns(s, steps, |steps| - 1, sha);
    assert steps[..|steps| - 1] + [steps[|steps| - 1]] == steps;
    AfterOneMore(s, steps[..|steps| - 1], steps[|steps| - 1], sha);
  }

  /** Only its own calls move a task, and a new one is where tasks start. */
  lemma OnlyOwnCalls(s: Sys, x: Step, i: nat, sha: Sha)
    requires Next(s, x, sha).Some? && i < |Next(s, x, sha).value.tasks|
    ensures |s.tasks| <= |Next(s, x, sha).value.tasks|
    ensures var now := Next(s, x, sha).value.tasks[i];
      (i < |s.tasks| && now == s.tasks[i]) || (i >= |s.tasks| && Starting(now)) ||
      (i < |s.tasks| && x.Run? && x.i == i && now == Act(s.f, s.inodes, s.tasks[i], i, x.fault, sha).2)
  {
    hide Act;
  }

  /** In any run: whatever call task `i` is at, its own last call brought it there, and the
      file system as it was at that call says why. So a prune unlinks only an entry that no
      other name led to when it looked, an entry is removed as bad only if its size was not
      the file's, and a swap links only an entry of the size it asked for. */
  lemma {:induction false} WhyItIsThere(s: Sys, steps: seq<Step>, i: nat, sha: Sha) returns (k: nat)
    requires Inv(s, sha) && |s.tasks| <= i && After(s, steps, sha).Some?
    requires i < |After(s, steps, sha).value.tasks| && !Starting(After(s, steps, sha).value.tasks[i])
    ensures k < |steps| && steps[k].Run? && steps[k].i == i && After(s, steps[..k], sha).Some?
    ensures var (u, now) := (After(s, steps[..k], sha).value, After(s, steps, sha).value.tasks[i]);
      Inv(u, sha) && i < |u.tasks| &&
      Because(u.f, u.inodes, u.tasks[i], now, i, steps[k].fault, sha)
    ensures forall j :: k < j < |steps| ==> steps[j].Run? && steps[j].i == i ==>
      After(s, steps[..j], sha).Some? && i < |After(s, steps[..j], sha).value.tasks| &&
      After(s, steps[..j], sha).value.tasks[i] == After(s, steps, sha).value.tasks[i]
    decreases |steps|
  {
    hide Inv, Next, Act, Because, After, MayStart, Starting;
    AfterNone(s, sha);
    var n := |steps| - 1;
    LastStep(s, steps, sha);
    RunsKeepInv(s, steps[..n], sha);
    var (u, x, now) := (After(s, steps[..n], sha).value, steps[n], After(s, steps, sha).value.tasks[i]);
    OnlyOwnCalls(u, x, i, sha);
    if u.tasks[i] == now {
      k := WhyItIsThere(s, steps[..n], i, sha);
      assert steps[..n][..k] == steps[..k];
      forall j | k < j < |steps| && steps[j].Run? && steps[j].i == i
        ensures After(s, steps[..j], sha).Some? && i < |After(s, steps[..j], sha).value.tasks| &&
                After(s, steps[..j], sha).value.tasks[i] == now
      {
        if j < n {
          assert steps[..n][..j] == steps[..j];
        }
      }
    } else {
      k := n;
      CountedAt(u, sha);
      CallBecause(u.f, u.inodes, u.tasks[i], i, x.fault, sha);
    }
  }

  lemma CountedAt(s: Sys, sha: Sha)
    requires Inv(s, sha)
    ensures Counted(s.f)
  {
    hide Counted;
  }

  lemma {:induction false} ProbesAreForSomething(s: Sys, steps: seq<Step>, i: nat, sha: Sha)
    requires After(s, steps, sha).Some?
    requires i < |s.tasks| && s.tasks[i].SwapProbe? ==> s.tasks[i].size > 0
    ensures var t := After(s, steps, sha).value;
      i < |t.tasks| && t.tasks[i].SwapProbe? ==> t.tasks[i].size > 0
    decreases |steps|
  {
    if steps != [] {
      ProbeStays(s, steps[0], i, sha);
      hide Next;
      ProbesAreForSomething(Next(s, steps[0], sha).value, steps[1..], i, sha);
    }
  }

  lemma ProbeStays(s: Sys, x: Step, i: nat, sha: Sha)
    requires Next(s, x, sha).Some?
    requires i < |s.tasks| && s.tasks[i].SwapProbe? ==> s.tasks[i].size > 0
    ensures var t := Next(s, x, sha).value;
      i < |t.tasks| && t.tasks[i].SwapProbe? ==> t.tasks[i].size > 0
  {
    hide Dump, Nix32.Encoded;
  }

  /** Every kind of task can start: on any file of the store, with a digest captured for it or
      without, and on any entry. */
  lemma TasksStart(s: Sys, path: Path, size: nat, key: string, sha: Sha)
    requires path in s.original && size > 0
    ensures Next(s, Spawn(Inspect(path, None)), sha).Some?
    ensures Next(s, Spawn(Inspect(path, Some(sha(Dump(s.original[path]))))), sha).Some?
    ensures Next(s, Spawn(SwapProbe(path, sha(Dump(s.original[path])), size)), sha).Some?
    ensures Next(s, Spawn(PruneStat(key)), sha).Some?
  {
  }

  /** The grounds spelled out for the calls that take something away or replace it: the
      only name of its inode, another size than the file's, an entry of the size asked for
      and not empty. */
  lemma GroundsForCalls(s: Sys, steps: seq<Step>, i: nat, sha: Sha) returns (k: nat)
    requires Inv(s, sha) && |s.tasks| <= i && After(s, steps, sha).Some?
    requires i < |After(s, steps, sha).value.tasks| && !Starting(After(s, steps, sha).value.tasks[i])
    ensures k < |steps| && steps[k].Run? && steps[k].i == i && After(s, steps[..k], sha).Some?
    ensures var (u, now) := (After(s, steps[..k], sha).value, After(s, steps, sha).value.tasks[i]);
      i < |u.tasks| &&
      (now.PruneUnlink? ==>
        u.tasks[i] == PruneStat(now.key) && Farm(now.key) in u.f.names &&
        forall n :: n in u.f.names && u.f.names[n] == u.f.names[Farm(now.key)] ==> n == Farm(now.key)) &&
      (now.RemoveBad? ==>
        u.tasks[i] == Probe(now.path, now.hash, now.st) && NodeAt(u.f, FarmOf(now.hash)).Some? &&
        Size(NodeAt(u.f, FarmOf(now.hash)).value) != now.st.size) &&
      (now.Fetch? && now.swap ==>
        NodeAt(u.f, FarmOf(now.hash)).Some? && Size(NodeAt(u.f, FarmOf(now.hash)).value) > 0 &&
        u.tasks[i] == SwapProbe(now.path, now.hash, Size(NodeAt(u.f, FarmOf(now.hash)).value)))
  {
    hide Inv, After, Next, Act, Starting, NodeAt, Nix32.Encoded;
    k := WhyItIsThere(s, steps, i, sha);
    CountedAt(After(s, steps[..k], sha).value, sha);
    NodesThere(After(s, steps[..k], sha).value.f);
    ProbesAreForSomething(s, steps[..k], i, sha);
  }

  lemma NodesThere(f: Files)
    requires Counted(f)
    ensures forall n :: n in f.names <==> NodeAt(f, n).Some?
  {
  }

  // -------------------------------------------------- swaps are opportunistic

  /** A streamed swap, wherever it is. */
  predicate Swapping(t: Task) {
    match t
    case SwapProbe(_, _, _) => true
    case Fetch(_, _, swap) => swap
    case Replace(_, _, swap) => swap
    case CleanUp(_, throws) => !throws
    case Ended(_) => true
    case _ => false
  }

  /** Streamed swaps are opportunistic: whatever fails under one, it never throws. */
  lemma {:induction false} SwapsNeverThrow(s: Sys, steps: seq<Step>, i: nat, sha: Sha)
    requires i < |s.tasks| && Swapping(s.tasks[i]) && After(s, steps, sha).Some?
    ensures i < |After(s, steps, sha).value.tasks| && Swapping(After(s, steps, sha).value.tasks[i])
    decreases |steps|
  {
    hide Act, Swapping;
    if steps != [] {
      SwapStaysSwap(s, steps[0], i, sha);
      SwapsNeverThrow(Next(s, steps[0], sha).value, steps[1..], i, sha);
    }
  }

  lemma SwapStaysSwap(s: Sys, x: Step, i: nat, sha: Sha)
    requires i < |s.tasks| && Swapping(s.tasks[i]) && Next(s, x, sha).Some?
    ensures i < |Next(s, x, sha).value.tasks| && Swapping(Next(s, x, sha).value.tasks[i])
  {
    hide Dump, Nix32.Encoded;
  }

  // ------------------------------------------------------- undisturbed calls

  /** Task `i` makes `n` calls, none of which fails and between which nobody else calls. */
  function Calls(s: Sys, i: nat, n: nat, sha: Sha): (t: Sys)
    requires i < |s.tasks|
    ensures i < |t.tasks|
    decreases n
  {
    if n == 0 then s else Calls(Next(s, Run(i, NoFault), sha).value, i, n - 1, sha)
  }

  /** Where a state goes on from: same history, other names, and task `i` over. */
  predicate Settles(s: Sys, t: Sys, i: nat, names: map<Name, Ino>, inodes: set<Ino>, now: Task)
    requires i < |s.tasks|
  {
    t.f.nodes == s.f.nodes && t.f.names == names && t.inodes == inodes && t.original == s.original &&
    t.tasks == s.tasks[i := now]
  }

  /** A prune takes an entry away if and only if no other name leads to its inode, and
      nothing else. */
  lemma PruneExactly(s: Sys, i: nat, key: string, sha: Sha)
    requires Inv(s, sha) && i < |s.tasks| && s.tasks[i] == PruneStat(key)
    ensures Farm(key) !in s.f.names ==> Settles(s, Calls(s, i, 2, sha), i, s.f.names, s.inodes, Threw)
    ensures Farm(key) in s.f.names ==>
      Settles(s, Calls(s, i, 2, sha), i,
              if exists n :: n in s.f.names && n != Farm(key) && s.f.names[n] == s.f.names[Farm(key)] then s.f.names
              else s.f.names - {Farm(key)},
              s.inodes, Ended(false))
  {
    hide Next, Inv;
    PruneLooks(s, i, key, sha);
    var t := Next(s, Run(i, NoFault), sha).value;
    if t.tasks[i] == PruneUnlink(key) {
      PruneTakes(t, i, key, sha);
      EndedStays(Next(t, Run(i, NoFault), sha).value, i, 0, sha);
    } else {
      EndedStays(t, i, 1, sha);
    }
  }

  lemma PruneLooks(s: Sys, i: nat, key: string, sha: Sha)
    requires Inv(s, sha) && i < |s.tasks| && s.tasks[i] == PruneStat(key)
    ensures Next(s, Run(i, NoFault), sha).Some?
    ensures Settles(s, Next(s, Run(i, NoFault), sha).value, i, s.f.names, s.inodes,
                    if Farm(key) !in s.f.names then Threw
                    else if UsedElsewhere(s.f, Farm(key)) then Ended(false)
                    else PruneUnlink(key))
  {
    hide Lstat, NodeAt, Dump, UsedElsewhere;
    CountedAt(s, sha);
    hide Counted, Inv;
    StatSays(s.f, Farm(key));
  }

  lemma PruneTakes(s: Sys, i: nat, key: string, sha: Sha)
    requires i < |s.tasks| && s.tasks[i] == PruneUnlink(key) && Farm(key) in s.f.names
    ensures Next(s, Run(i, NoFault), sha).Some?
    ensures Settles(s, Next(s, Run(i, NoFault), sha).value, i, s.f.names - {Farm(key)}, s.inodes, Ended(false))
  {
  }

  /** What linking a store path to a farm entry comes to: its name rebound, or where it was
      bound to that inode already, the temporary link left over. */
  function Relinked(names: map<Name, Ino>, path: Path, ino: Ino, i: nat): map<Name, Ino> {
    if Store(path) in names && names[Store(path)] == ino then names[Temp(i) := ino] else names[Store(path) := ino]
  }

  lemma FetchAlone(s: Sys, i: nat, path: Path, hash: Hash, swap: bool, sha: Sha)
    requires i < |s.tasks| && s.tasks[i] == Fetch(path, hash, swap)
    requires FarmOf(hash) in s.f.names && Temp(i) !in s.f.names
    ensures Settles(s, Calls(s, i, 2, sha), i, Relinked(s.f.names, path, s.f.names[FarmOf(hash)], i), s.inodes, Ended(true))
  {
    hide Nix32.Encoded, Next;
    FetchTakes(s, i, path, hash, swap, sha);
    var t := Next(s, Run(i, NoFault), sha).value;
    ReplaceTakes(t, i, path, hash, swap, sha);
    var u := Next(t, Run(i, NoFault), sha).value;
    assert u.f.names == Relinked(s.f.names, path, s.f.names[FarmOf(hash)], i);
    EndedStays(u, i, 0, sha);
  }

  lemma FetchTakes(s: Sys, i: nat, path: Path, hash: Hash, swap: bool, sha: Sha)
    requires i < |s.tasks| && s.tasks[i] == Fetch(path, hash, swap)
    requires FarmOf(hash) in s.f.names && Temp(i) !in s.f.names
    ensures Next(s, Run(i, NoFault), sha).Some?
    ensures Settles(s, Next(s, Run(i, NoFault), sha).value, i, s.f.names[Temp(i) := s.f.names[FarmOf(hash)]], s.inodes,
                    Replace(path, hash, swap))
  {
    hide Nix32.Encoded;
  }

  lemma ReplaceTakes(s: Sys, i: nat, path: Path, hash: Hash, swap: bool, sha: Sha)
    requires i < |s.tasks| && s.tasks[i] == Replace(path, hash, swap) && Temp(i) in s.f.names
    ensures Next(s, Run(i, NoFault), sha).Some?
    ensures Settles(s, Next(s, Run(i, NoFault), sha).value, i,
                    if LeadsTo(s.f, Store(path), s.f.names[Temp(i)]) then s.f.names
                    else s.f.names[Store(path) := s.f.names[Temp(i)]] - {Temp(i)},
                    s.inodes, Ended(true))
  {
    hide Nix32.Encoded;
  }

  /** A streamed swap replaces the file if and only if the farm has an entry of exactly its
      size. */
  lemma SwapExactly(s: Sys, i: nat, path: Path, hash: Hash, size: nat, sha: Sha)
    requires Inv(s, sha) && i < |s.tasks| && s.tasks[i] == SwapProbe(path, hash, size) && Temp(i) !in s.f.names
    ensures Settles(s, Calls(s, i, 3, sha), i,
      if Sized(s.f, FarmOf(hash), size) then Relinked(s.f.names, path, s.f.names[FarmOf(hash)], i) else s.f.names,
      s.inodes, Ended(Sized(s.f, FarmOf(hash), size)))
  {
    hide Nix32.Encoded, FarmOf, Relinked, Next, Inv, Sized, NodeAt;
    SwapLooks(s, i, path, hash, size, sha);
    var t := Next(s, Run(i, NoFault), sha).value;
    if Sized(s.f, FarmOf(hash), size) {
      FetchAlone(t, i, path, hash, true, sha);
    } else {
      EndedStays(t, i, 2, sha);
    }
  }

  lemma SwapLooks(s: Sys, i: nat, path: Path, hash: Hash, size: nat, sha: Sha)
    requires Inv(s, sha) && i < |s.tasks| && s.tasks[i] == SwapProbe(path, hash, size)
    ensures Next(s, Run(i, NoFault), sha).Some?
    ensures Sized(s.f, FarmOf(hash), size) ==> FarmOf(hash) in s.f.names
    ensures Settles(s, Next(s, Run(i, NoFault), sha).value, i, s.f.names, s.inodes,
                    if Sized(s.f, FarmOf(hash), size) then Fetch(path, hash, true) else Ended(false))
  {
    hide Lstat, Nix32.Encoded, Dump, FarmOf, NodeAt;
    CountedAt(s, sha);
    hide Counted, Inv;
    StatSays(s.f, FarmOf(hash));
  }

  lemma {:induction false} EndedStays(s: Sys, i: nat, n: nat, sha: Sha)
    requires i < |s.tasks| && (s.tasks[i].Ended? || s.tasks[i].Threw?)
    ensures Calls(s, i, n, sha) == s
  {
    if n > 0 {
      EndedKeeps(s, i, sha);
      hide Next;
      EndedStays(s, i, n - 1, sha);
    }
  }

  /** An entry that is missing, or of another size than the file, makes way for the file's
      own inode. */
  lemma BadEntryReplaced(s: Sys, i: nat, path: Path, hash: Hash, st: Stat, sha: Sha)
    requires Inv(s, sha) && i < |s.tasks| && s.tasks[i] == Probe(path, hash, st)
    requires !Sized(s.f, FarmOf(hash), st.size)
    ensures Store(path) in s.f.names
    ensures Settles(s, Calls(s, i, 3, sha), i, s.f.names[FarmOf(hash) := s.f.names[Store(path)]], s.inodes + {st.ino},
                    Ended(false))
  {
    hide Lstat, Nix32.Encoded, Dump, NodeAt, Next, Act, Inv, Sized;
    PathAt(s, i, path, sha);
    BadProbeAlone(s, i, path, hash, st, sha);
    var t := Next(s, Run(i, NoFault), sha).value;
    if FarmOf(hash) !in s.f.names {
      PublishAlone(t, i, path, hash, st, sha);
      EndedStays(Next(t, Run(i, NoFault), sha).value, i, 1, sha);
    } else {
      RemoveAlone(t, i, path, hash, st, sha);
      var u := Next(t, Run(i, NoFault), sha).value;
      PublishAlone(u, i, path, hash, st, sha);
      EndedStays(Next(u, Run(i, NoFault), sha).value, i, 0, sha);
      assert (s.f.names - {FarmOf(hash)})[FarmOf(hash) := s.f.names[Store(path)]] ==
        s.f.names[FarmOf(hash) := s.f.names[Store(path)]];
    }
  }

  lemma BadProbeAlone(s: Sys, i: nat, path: Path, hash: Hash, st: Stat, sha: Sha)
    requires Inv(s, sha) && i < |s.tasks| && s.tasks[i] == Probe(path, hash, st)
    requires !Sized(s.f, FarmOf(hash), st.size)
    ensures Next(s, Run(i, NoFault), sha).Some?
    ensures Settles(s, Next(s, Run(i, NoFault), sha).value, i, s.f.names, s.inodes,
                    if FarmOf(hash) in s.f.names then RemoveBad(path, hash, st) else Publish(path, hash, st))
  {
    hide Lstat, Nix32.Encoded, Dump, FarmOf, NodeAt;
    CountedAt(s, sha);
    hide Counted, Inv;
    StatSays(s.f, FarmOf(hash));
  }

  lemma RemoveAlone(s: Sys, i: nat, path: Path, hash: Hash, st: Stat, sha: Sha)
    requires i < |s.tasks| && s.tasks[i] == RemoveBad(path, hash, st) && FarmOf(hash) in s.f.names
    ensures Next(s, Run(i, NoFault), sha).Some?
    ensures Settles(s, Next(s, Run(i, NoFault), sha).value, i, s.f.names - {FarmOf(hash)}, s.inodes,
                    Publish(path, hash, st))
  {
    hide Nix32.Encoded;
  }

  /** An entry of the file's size takes the file's place unless it is the file's own inode. */
  lemma GoodEntryUsed(s: Sys, i: nat, path: Path, hash: Hash, st: Stat, sha: Sha)
    requires Inv(s, sha) && i < |s.tasks| && s.tasks[i] == Probe(path, hash, st) && Temp(i) !in s.f.names
    requires Sized(s.f, FarmOf(hash), st.size)
    ensures
      if LeadsTo(s.f, FarmOf(hash), st.ino) then Settles(s, Calls(s, i, 3, sha), i, s.f.names, s.inodes, Ended(false))
      else Settles(s, Calls(s, i, 3, sha), i, Relinked(s.f.names, path, s.f.names[FarmOf(hash)], i), s.inodes, Ended(true))
  {
    hide Nix32.Encoded, FarmOf, Relinked, Next, Inv, Sized, NodeAt, LeadsTo;
    GoodProbeAlone(s, i, path, hash, st, sha);
    var t := Next(s, Run(i, NoFault), sha).value;
    if LeadsTo(s.f, FarmOf(hash), st.ino) {
      EndedStays(t, i, 2, sha);
    } else {
      FetchAlone(t, i, path, hash, false, sha);
    }
  }

  lemma GoodProbeAlone(s: Sys, i: nat, path: Path, hash: Hash, st: Stat, sha: Sha)
    requires Inv(s, sha) && i < |s.tasks| && s.tasks[i] == Probe(path, hash, st) && Sized(s.f, FarmOf(hash), st.size)
    ensures FarmOf(hash) in s.f.names && Next(s, Run(i, NoFault), sha).Some?
    ensures Settles(s, Next(s, Run(i, NoFault), sha).value, i, s.f.names, s.inodes,
                    if LeadsTo(s.f, FarmOf(hash), st.ino) then Ended(false) else Fetch(path, hash, false))
  {
    hide Lstat, Nix32.Encoded, Dump, FarmOf, NodeAt;
    CountedAt(s, sha);
    hide Counted, Inv;
    StatSays(s.f, FarmOf(hash));
  }

  lemma PathAt(s: Sys, i: nat, path: Path, sha: Sha)
    requires Inv(s, sha) && i < |s.tasks| && (s.tasks[i].Probe? || s.tasks[i].ProbeAgain?) && s.tasks[i].path == path
    ensures Store(path) in s.f.names
  {
    hide Dump, Nix32.Encoded;
    KnowsAt(s, i, sha);
    OriginalKey(s, path, sha);
  }

  lemma PublishAlone(s: Sys, i: nat, path: Path, hash: Hash, st: Stat, sha: Sha)
    requires i < |s.tasks| && s.tasks[i] == Publish(path, hash, st)
    requires Store(path) in s.f.names && FarmOf(hash) !in s.f.names
    ensures Next(s, Run(i, NoFault), sha).Some?
    ensures Settles(s, Next(s, Run(i, NoFault), sha).value, i, s.f.names[FarmOf(hash) := s.f.names[Store(path)]],
                    s.inodes + {st.ino}, Ended(false))
  {
    hide Nix32.Encoded;
  }

  /** After somebody else published the entry first. */
  lemma ProbeAgainExactly(s: Sys, i: nat, path: Path, hash: Hash, st: Stat, sha: Sha)
    requires Inv(s, sha) && i < |s.tasks| && s.tasks[i] == ProbeAgain(path, hash, st) && Temp(i) !in s.f.names
    ensures FarmOf(hash) !in s.f.names || LeadsTo(s.f, FarmOf(hash), st.ino) ==>
      Settles(s, Calls(s, i, 3, sha), i, s.f.names, s.inodes, Ended(false))
    ensures FarmOf(hash) in s.f.names && !LeadsTo(s.f, FarmOf(hash), st.ino) ==>
      Settles(s, Calls(s, i, 3, sha), i, Relinked(s.f.names, path, s.f.names[FarmOf(hash)], i), s.inodes, Ended(true))
  {
    hide Nix32.Encoded, FarmOf, Relinked, Next, Inv, LeadsTo;
    ProbesAgain(s, i, path, hash, st, sha);
    var t := Next(s, Run(i, NoFault), sha).value;
    if FarmOf(hash) !in s.f.names || LeadsTo(s.f, FarmOf(hash), st.ino) {
      EndedStays(t, i, 2, sha);
    } else {
      FetchAlone(t, i, path, hash, false, sha);
    }
  }

  lemma ProbesAgain(s: Sys, i: nat, path: Path, hash: Hash, st: Stat, sha: Sha)
    requires Inv(s, sha) && i < |s.tasks| && s.tasks[i] == ProbeAgain(path, hash, st)
    ensures Next(s, Run(i, NoFault), sha).Some?
    ensures Settles(s, Next(s, Run(i, NoFault), sha).value, i, s.f.names, s.inodes,
                    if FarmOf(hash) !in s.f.names || LeadsTo(s.f, FarmOf(hash), st.ino) then Ended(false)
                    else Fetch(path, hash, false))
  {
    hide Lstat, Nix32.Encoded, Dump, FarmOf, NodeAt;
    CountedAt(s, sha);
    hide Counted, Inv;
    StatSays(s.f, FarmOf(hash));
  }

  /** A task whose link or rename failed leaves every name as it was before its link. */
  lemma CleanUpRestores(s: Sys, i: nat, path: Path, hash: Hash, swap: bool, fault: Fault, sha: Sha)
    requires i < |s.tasks| && s.tasks[i] == Fetch(path, hash, swap) && fault != NoFault && Temp(i) !in s.f.names
    requires FarmOf(hash) in s.f.names
    ensures var t := Next(s, Run(i, NoFault), sha).value;
      var u := Next(t, Run(i, fault), sha).value;
      Settles(s, Next(u, Run(i, NoFault), sha).value, i, s.f.names, s.inodes,
              if swap || fault.TooManyLinks? then Ended(false) else Threw)
  {
    hide Nix32.Encoded;
  }

  lemma EndedKeeps(s: Sys, i: nat, sha: Sha)
    requires i < |s.tasks| && (s.tasks[i].Ended? || s.tasks[i].Threw?)
    ensures Next(s, Run(i, NoFault), sha) == Some(s)
  {
    assert s.tasks[i := s.tasks[i]] == s.tasks;
  }

  // ------------------------------------------------------- empty files stay alone

  function EmptyOf(executable: bool): Leaf {
    var none: blob := [];
    Regular(executable, none)
  }

  /** Nothing in play collides, not even with an empty file. */
  ghost predicate Distinct(s: Sys, nodes: set<Leaf>, sha: Sha) {
    s.f.nodes.Values <= nodes && s.original.Values <= nodes && {EmptyOf(true), EmptyOf(false)} <= nodes &&
    CollisionFree(nodes, sha)
  }

  /** An optimise task at work has a file that is not empty and stat it rightly, and one
      about to replace a file has one that is not empty. */
  predicate TaskFull(original: map<Path, Leaf>, t: Task) {
    match t
    case Digest(path, st) => path in original && !EmptyFile(original[path]) && st.size == Size(original[path])
    case Probe(path, _, st) => path in original && !EmptyFile(original[path]) && st.size == Size(original[path])
    case RemoveBad(_, _, _) => false
    case Publish(path, _, st) => path in original && !EmptyFile(original[path]) && st.size == Size(original[path])
    case ProbeAgain(path, _, st) => path in original && !EmptyFile(original[path]) && st.size == Size(original[path])
    case Replace(path, _, _) => path in original && !EmptyFile(original[path])
    case _ => true
  }

  ghost predicate NoEmptyEntry(s: Sys) {
    forall n: Name :: n.Farm? && NodeAt(s.f, n).Some? ==> !EmptyFile(NodeAt(s.f, n).value)
  }

  ghost predicate EmptyAlone(s: Sys) {
    forall p, n | p in s.original && EmptyFile(s.original[p]) && n in s.f.names ::
      LeadsTo(s.f, Store(p), s.f.names[n]) ==> n == Store(p)
  }

  ghost predicate EmptyOk(s: Sys) {
    NoEmptyEntry(s) && EmptyAlone(s) && forall i :: 0 <= i < |s.tasks| ==> TaskFull(s.original, s.tasks[i])
  }

  lemma ContentIs(s: Sys, nodes: set<Leaf>, path: Path, sha: Sha)
    requires Inv(s, sha) && Distinct(s, nodes, sha) && path in s.original
    ensures NodeAt(s.f, Store(path)) == Some(s.original[path])
  {
    hide Inv, Dump;
    ContentKept(s, sha, path);
  }

  /** Where nothing collides, an entry under a store file's digest is that file's node. */
  lemma EntryIs(s: Sys, nodes: set<Leaf>, path: Path, sha: Sha)
    requires Inv(s, sha) && Distinct(s, nodes, sha) && path in s.original
    ensures FarmOf(sha(Dump(s.original[path]))) in s.f.names ==>
      NodeAt(s.f, FarmOf(sha(Dump(s.original[path])))) == Some(s.original[path])
  {
    hide Dump, Nix32.Encoded, Counted, CollisionFree, StoreOk;
    var n := FarmOf(sha(Dump(s.original[path])));
    if n in s.f.names {
      FarmKey(s.f, sha(Dump(s.original[path])), sha);
      var node := NodeAt(s.f, n).value;
      assert node in s.f.nodes.Values;
      SameDigestSameNode(node, s.original[path], nodes, sha);
    }
  }

  /** What led to a task's present call, as far as its file goes. */
  lemma Led(f: Files, inodes: set<Ino>, was: Task, now: Task, i: nat, fault: Fault, sha: Sha)
    requires Because(f, inodes, was, now, i, fault, sha)
    ensures now.Digest? || (now.Probe? && was.Inspect?) ==>
      was.Inspect? && was.path == now.path && Looks(f, now.path, now.st) && Worthwhile(f, inodes, now.path)
    ensures now.Probe? && !was.Inspect? ==> was == Digest(now.path, now.st)
    ensures now.RemoveBad? ==>
      was == Probe(now.path, now.hash, now.st) && FarmOf(now.hash) in f.names && !Sized(f, FarmOf(now.hash), now.st.size)
    ensures now.Publish? ==> was == Probe(now.path, now.hash, now.st) || was == RemoveBad(now.path, now.hash, now.st)
    ensures now.ProbeAgain? ==> was == Publish(now.path, now.hash, now.st)
    ensures now.Replace? ==> was == Fetch(now.path, now.hash, now.swap) && FarmOf(now.hash) in f.names
  {
    hide Looks, Worthwhile, Dump, FarmOf, Sized, WhyFetch, WhyEnd, WhyThrow;
  }

  lemma TaskStaysFull(s: Sys, nodes: set<Leaf>, i: nat, fault: Fault, sha: Sha)
    requires Inv(s, sha) && Distinct(s, nodes, sha) && EmptyOk(s) && i < |s.tasks|
    ensures TaskFull(s.original, Act(s.f, s.inodes, s.tasks[i], i, fault, sha).2)
  {
    var (t, now) := (s.tasks[i], Act(s.f, s.inodes, s.tasks[i], i, fault, sha).2);
    KnowsAt(s, i, sha);
    CountedAt(s, sha);
    hide Act, Inv, Dump, Nix32.Encoded, FarmOf, Distinct, Counted, EmptyAlone, Because, UsedElsewhere;
    CallBecause(s.f, s.inodes, t, i, fault, sha);
    Led(s.f, s.inodes, t, now, i, fault, sha);
    assert TaskFull(s.original, t);
    if now.Digest? || now.Probe? {
      ContentIs(s, nodes, now.path, sha);
    } else if now.RemoveBad? || now.Replace? {
      EntryIs(s, nodes, now.path, sha);
    }
  }

  /** A link to a node that is no empty file. */
  lemma LinkKeepsAlone(s: Sys, t: Sys, from: Name, to: Name)
    requires NoEmptyEntry(s) && EmptyAlone(s) && t.original == s.original && Link(s.f, from, to) == Success(t.f)
    requires !to.Store? && from.Store? ==> from.path in s.original && !EmptyFile(s.original[from.path])
    requires !to.Store? && (to.Farm? ==> NodeAt(s.f, from).Some? && !EmptyFile(NodeAt(s.f, from).value))
    ensures NoEmptyEntry(t) && EmptyAlone(t)
  {
  }

  lemma UnlinkKeepsAlone(s: Sys, t: Sys, n: Name)
    requires NoEmptyEntry(s) && EmptyAlone(s) && t.original == s.original && Unlink(s.f, n) == Success(t.f)
    ensures NoEmptyEntry(t) && EmptyAlone(t)
  {
  }

  lemma RenameKeepsAlone(s: Sys, t: Sys, from: Name, path: Path)
    requires NoEmptyEntry(s) && EmptyAlone(s) && t.original == s.original && Rename(s.f, from, Store(path)) == Success(t.f)
    requires from.Temp? && path in s.original && !EmptyFile(s.original[path])
    ensures NoEmptyEntry(t) && EmptyAlone(t)
  {
  }

  /** The call a task makes, if it changes anything. */
  lemma CallMade(f: Files, inodes: set<Ino>, t: Task, i: nat, fault: Fault, sha: Sha)
    ensures var g := Act(f, inodes, t, i, fault, sha).0;
      g == f ||
      match t
      case RemoveBad(_, hash, _) => Unlink(f, FarmOf(hash)) == Success(g)
      case Publish(path, hash, _) => Link(f, Store(path), FarmOf(hash)) == Success(g)
      case Fetch(_, hash, _) => Link(f, FarmOf(hash), Temp(i)) == Success(g)
      case Replace(path, _, _) => Rename(f, Temp(i), Store(path)) == Success(g)
      case CleanUp(_, _) => Unlink(f, Temp(i)) == Success(g)
      case PruneUnlink(key) => Unlink(f, Farm(key)) == Success(g)
      case _ => false
  {
    hide Dump, Nix32.Encoded, Lstat, Link, Unlink, Rename, NodeAt, Inspected, Compared;
  }

  lemma CallKeepsAlone(s: Sys, t: Sys, nodes: set<Leaf>, i: nat, fault: Fault, sha: Sha)
    requires Inv(s, sha) && Distinct(s, nodes, sha) && EmptyOk(s) && i < |s.tasks|
    requires t.f == Act(s.f, s.inodes, s.tasks[i], i, fault, sha).0 && t.original == s.original
    ensures NoEmptyEntry(t) && EmptyAlone(t)
  {
    CallMade(s.f, s.inodes, s.tasks[i], i, fault, sha);
    assert TaskFull(s.original, s.tasks[i]);
    SameIsAlone(s, t);
    hide Inv, Dump, Nix32.Encoded, Distinct, Link, Unlink, Rename, NoEmptyEntry, EmptyAlone, NodeAt, Act, EmptyFile, Size;
    match s.tasks[i]
    case RemoveBad(_, hash, _) => assert false;
    case Publish(path, hash, _) =>
      ContentIs(s, nodes, path, sha);
      if t.f != s.f {
        LinkKeepsAlone(s, t, Store(path), FarmOf(hash));
      }
    case Fetch(_, hash, _) =>
      if t.f != s.f {
        LinkKeepsAlone(s, t, FarmOf(hash), Temp(i));
      }
    case Replace(path, _, _) =>
      if t.f != s.f {
        RenameKeepsAlone(s, t, Temp(i), path);
      }
    case CleanUp(_, _) =>
      if t.f != s.f {
        UnlinkKeepsAlone(s, t, Temp(i));
      }
    case PruneUnlink(key) =>
      if t.f != s.f {
        UnlinkKeepsAlone(s, t, Farm(key));
      }
    case _ =>
  }

  lemma SameIsAlone(s: Sys, t: Sys)
    requires t.original == s.original && NoEmptyEntry(s) && EmptyAlone(s)
    ensures t.f == s.f ==> NoEmptyEntry(t) && EmptyAlone(t)
  {
  }

  lemma RunKeepsEmptyOk(s: Sys, t: Sys, nodes: set<Leaf>, i: nat, fault: Fault, sha: Sha)
    requires Inv(s, sha) && Distinct(s, nodes, sha) && EmptyOk(s) && Next(s, Run(i, fault), sha) == Some(t)
    ensures EmptyOk(t)
  {
    hide Inv, Distinct, Act, NoEmptyEntry, EmptyAlone, TaskFull;
    TaskStaysFull(s, nodes, i, fault, sha);
    CallKeepsAlone(s, t, nodes, i, fault, sha);
  }

  lemma RestoreKeepsEmptyOk(s: Sys, t: Sys, path: Path, ino: Ino, node: Leaf, sha: Sha)
    requires Inv(s, sha) && EmptyOk(s) && Next(s, Step.Restore(path, ino, node), sha) == Some(t)
    ensures EmptyOk(t)
  {
    hide Dump, Key, Knows, Nix32.Encoded;
    assert path !in s.original by {
      if path in s.original {
        OriginalKey(s, path, sha);
      }
    }
    hide StoreOk, FarmOk;
  }

  lemma StepKeepsEmptyOk(s: Sys, t: Sys, x: Step, nodes: set<Leaf>, sha: Sha)
    requires Inv(s, sha) && Distinct(s, nodes, sha) && EmptyOk(s) && Next(s, x, sha) == Some(t)
    ensures EmptyOk(t)
  {
    match x
    case Run(i, fault) => RunKeepsEmptyOk(s, t, nodes, i, fault, sha);
    case Spawn(_) => hide NoEmptyEntry, EmptyAlone, Inv, Distinct;
    case Restore(path, ino, node) => RestoreKeepsEmptyOk(s, t, path, ino, node, sha);
  }

  lemma StepGrows(s: Sys, t: Sys, x: Step, sha: Sha)
    requires Inv(s, sha) && Next(s, x, sha) == Some(t)
    ensures forall ino :: ino in s.f.nodes ==> ino in t.f.nodes && t.f.nodes[ino] == s.f.nodes[ino]
    ensures forall p :: p in s.original ==> p in t.original && t.original[p] == s.original[p]
  {
    hide Dump, Nix32.Encoded, Act, Knows, FarmOk;
    if x.Run? {
      CallMade(s.f, s.inodes, s.tasks[x.i], x.i, x.fault, sha);
    }
    if x.Restore? && x.path in s.original {
      OriginalKey(s, x.path, sha);
    }
  }

  lemma {:induction false} RunGrows(s: Sys, steps: seq<Step>, nodes: set<Leaf>, sha: Sha)
    requires Inv(s, sha) && After(s, steps, sha).Some? && Distinct(After(s, steps, sha).value, nodes, sha)
    ensures Distinct(s, nodes, sha)
    decreases |steps|
  {
    hide Inv, Next, CollisionFree;
    if steps != [] {
      var t := Next(s, steps[0], sha).value;
      StepKeepsInv(s, steps[0], sha);
      RunGrows(t, steps[1..], nodes, sha);
      StepGrows(s, t, steps[0], sha);
    }
  }

  /** Where no node in play collides with another: in every run no entry is ever taken for
      a bad one, no entry is an empty file, and no second name ever leads to an empty file's
      inode, whatever tasks and swaps there are. */
  lemma {:induction false} EmptyFilesStayAlone(s: Sys, steps: seq<Step>, nodes: set<Leaf>, sha: Sha)
    requires Inv(s, sha) && EmptyOk(s) && After(s, steps, sha).Some? && Distinct(After(s, steps, sha).value, nodes, sha)
    ensures EmptyOk(After(s, steps, sha).value)
    decreases |steps|
  {
    hide Inv, Next, Distinct, EmptyOk;
    if steps != [] {
      var t := Next(s, steps[0], sha).value;
      StepKeepsInv(s, steps[0], sha);
      RunGrows(s, steps, nodes, sha);
      StepKeepsEmptyOk(s, t, steps[0], nodes, sha);
      EmptyFilesStayAlone(t, steps[1..], nodes, sha);
    }
  }

  lemma NothingIsEmptyOk()
    ensures EmptyOk(Nothing())
  {
  }
}
