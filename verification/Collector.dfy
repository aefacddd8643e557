/** Deleting named store paths: roots, the database, the files, and the farm entries
    nothing else uses any more. */
module Collector {
  import opened Results
  import opened Wire
  import opened Nar
  import opened FileTable

  /** The last component of a store path. */
  type Base = bytes

  datatype Refused =
    | StillRooted(path: Base)
    | CannotUnlink

  /** The store path a symlink target leads into, if it leads into the store. */
  type Resolve = bytes -> Option<Base>

  /** Everything under the roots directory that points at a valid path. */
  function FindRoots(t: Tree, valid: set<Base>, resolve: Resolve): set<Base>
    decreases t, 1
  {
    match t
    case Regular(_, _) => {}
    case Symlink(target) =>
      var p := resolve(target);
      if p.Some? && p.value in valid then {p.value} else {}
    case Directory(entries) => FindEntryRoots(entries, valid, resolve)
  }

  function FindEntryRoots(entries: seq<Entry<blob>>, valid: set<Base>, resolve: Resolve): set<Base>
    decreases entries, 0
  {
    if entries == [] then {}
    else FindRoots(entries[0].node, valid, resolve) + FindEntryRoots(entries[1..], valid, resolve)
  }

  /** Some symlink in the tree leads to `p`. */
  ghost predicate PointsAt(t: Tree, p: Base, resolve: Resolve) {
    match t
    case Regular(_, _) => false
    case Symlink(target) => resolve(target) == Some(p)
    case Directory(entries) => exists i :: 0 <= i < |entries| && PointsAt(entries[i].node, p, resolve)
  }

  lemma {:induction false} RootsArePointedAt(t: Tree, valid: set<Base>, resolve: Resolve, p: Base)
    ensures p in FindRoots(t, valid, resolve) <==> p in valid && PointsAt(t, p, resolve)
    decreases t, 1
  {
    if t.Directory? {
      EntryRootsArePointedAt(t.entries, valid, resolve, p);
    }
  }

  lemma {:induction false} EntryRootsArePointedAt(entries: seq<Entry<blob>>, valid: set<Base>, resolve: Resolve, p: Base)
    ensures p in FindEntryRoots(entries, valid, resolve) <==>
            p in valid && exists i :: 0 <= i < |entries| && PointsAt(entries[i].node, p, resolve)
    decreases entries, 0
  {
    if entries != [] {
      RootsArePointedAt(entries[0].node, valid, resolve, p);
      EntryRootsArePointedAt(entries[1..], valid, resolve, p);
      assert forall i :: 0 <= i < |entries| - 1 ==> entries[1..][i] == entries[i + 1];
      assert forall i :: 1 <= i < |entries| ==> entries[i] == entries[1..][i - 1];
    }
  }

  method CollectRoots(t: Tree, valid: set<Base>, resolve: Resolve) returns (roots: set<Base>)
    ensures roots == FindRoots(t, valid, resolve)
    decreases t
  {
    roots := {};
    match t {
      case Regular(_, _) =>
      case Symlink(target) =>
        var p := resolve(target);
        if p.Some? && p.value in valid {
          roots := {p.value};
        }
      case Directory(entries) =>
        for i := 0 to |entries|
          invariant roots + FindEntryRoots(entries[i..], valid, resolve) == FindRoots(t, valid, resolve)
        {
          var more := CollectRoots(entries[i].node, valid, resolve);
          roots := roots + more;
          assert entries[i..][1..] == entries[i + 1..];
        }
    }
  }

  // ---------------------------------------------------------------- the files

  predicate Under(n: Name, base: Base) {
    n.Store? && n.path != [] && n.path[0] == base
  }

  /** The files of `base` are the same in both. */
  ghost predicate Untouched(f: Files, g: Files, base: Base) {
    forall n :: Under(n, base) ==> (n in f.names <==> n in g.names) && (n in f.names ==> g.names[n] == f.names[n])
  }

  /** `g` is `f` without the names of `d`, except those that could not be removed. */
  ghost predicate Removed(f: Files, g: Files, d: Dir, stuck: set<Path>) {
    g.nodes == f.nodes &&
    (forall n :: n in g.names <==> n in f.names && !(n.Store? && Holds(d, n.path) && n.path !in stuck)) &&
    (forall n :: n in g.names ==> g.names[n] == f.names[n])
  }

  /** `g` is `f` after the first `n` children are removed. */
  ghost predicate RemovedUpTo(f: Files, g: Files, children: seq<Dir>, n: nat, stuck: set<Path>) {
    Removed(f, g, Folder(children[..if n <= |children| then n else |children|]), stuck)
  }

  lemma RemovedNone(f: Files, children: seq<Dir>, stuck: set<Path>)
    ensures RemovedUpTo(f, f, children, 0, stuck)
  {
    assert children[..0] == [];
  }

  lemma RemovedOne(f: Files, g: Files, h: Files, children: seq<Dir>, n: nat, stuck: set<Path>)
    requires n < |children| && RemovedUpTo(f, g, children, n, stuck) && Removed(g, h, children[n], stuck)
    ensures RemovedUpTo(f, h, children, n + 1, stuck)
  {
    var few, more := Folder(children[..n]), Folder(children[..n + 1]);
    forall p: Path ensures Holds(more, p) <==> Holds(few, p) || Holds(children[n], p) {
      HoldsGrows(children, n, p);
    }
  }

  lemma HoldsGrows(children: seq<Dir>, n: nat, p: Path)
    requires n < |children|
    ensures Holds(Folder(children[..n + 1]), p) <==> Holds(Folder(children[..n]), p) || Holds(children[n], p)
  {
    var few, more := children[..n], children[..n + 1];
    assert forall i :: 0 <= i < n ==> more[i] == few[i];
    if Holds(Folder(few), p) {
      var i :| 0 <= i < |few| && Holds(few[i], p);
      assert Holds(more[i], p);
    } else if Holds(children[n], p) {
      assert Holds(more[n], p);
    }
  }

  /** Something that must go cannot. */
  ghost predicate Resists(f: Files, d: Dir, stuck: set<Path>) {
    exists p: Path :: Holds(d, p) && Store(p) in f.names && p in stuck
  }

  /** _deletePath: every removable name goes even when others fail, and any failure is
      reported at the end. `stuck` are the names the system refuses to unlink. */
  method DeleteTree(fs: FileSystem, d: Dir, stuck: set<Path>) returns (failed: bool)
    requires Counted(fs.Now())
    modifies fs
    ensures Counted(fs.Now())
    ensures Removed(old(fs.Now()), fs.Now(), d, stuck)
    ensures failed <==> Resists(old(fs.Now()), d, stuck)
    decreases d
  {
    hide Counted;
    failed := false;
    match d {
      case File(p) =>
        StatFindsNames(fs.Now(), Store(p));
        var st := fs.ReadStat(Store(p));
        if st.None? {
          return;
        }
        if p in stuck {
          assert Holds(d, p);
          return true;
        }
        var err := fs.RemoveName(Store(p));
      case Folder(children) =>
        ghost var f := fs.Now();
        RemovedNone(f, children, stuck);
        for i := 0 to |children|
          invariant Counted(fs.Now()) && RemovedUpTo(f, fs.Now(), children, i, stuck)
          invariant failed <==> Resists(f, Folder(children[..i]), stuck)
        {
          ghost var g := fs.Now();
          var one := DeleteTree(fs, children[i], stuck);
          ResistsGrows(f, g, children, i, stuck);
          RemovedOne(f, g, fs.Now(), children, i, stuck);
          failed := failed || one;
        }
        assert children[..|children|] == children;
    }
  }

  lemma ResistsGrows(f: Files, g: Files, children: seq<Dir>, n: nat, stuck: set<Path>)
    requires n < |children| && RemovedUpTo(f, g, children, n, stuck)
    ensures Resists(f, Folder(children[..n + 1]), stuck) <==>
            Resists(f, Folder(children[..n]), stuck) || Resists(g, children[n], stuck)
  {
    forall p: Path
      ensures Holds(Folder(children[..n + 1]), p) <==> Holds(Folder(children[..n]), p) || Holds(children[n], p)
    {
      HoldsGrows(children, n, p);
    }
    if Resists(g, children[n], stuck) {
      var p: Path :| Holds(children[n], p) && Store(p) in g.names && p in stuck;
      assert Holds(Folder(children[..n + 1]), p);
    } else if Resists(f, Folder(children[..n]), stuck) {
      var p: Path :| Holds(Folder(children[..n]), p) && Store(p) in f.names && p in stuck;
      assert Holds(Folder(children[..n + 1]), p);
    }
  }

  // ----------------------------------------------------------- pruning the farm

  ghost predicate Pruned(f: Files, g: Files, left: set<Name>) {
    g.nodes == f.nodes &&
    (forall n :: n in g.names <==> n in f.names && (n.Farm? && n !in left ==> UsedElsewhere(f, n))) &&
    (forall n :: n in g.names ==> g.names[n] == f.names[n])
  }

  /** The loop over the links directory: afterwards an entry is there exactly if another
      name used its inode. */
  method PruneFarm(fs: FileSystem)
    requires Counted(fs.Now())
    modifies fs
    ensures Counted(fs.Now())
    ensures Pruned(old(fs.Now()), fs.Now(), {})
  {
    hide Counted, Pruned, Unlink, Lstat;
    ghost var f := fs.Now();
    PrunedNone(f);
    var left := set n | n in fs.names && n.Farm?;
    while left != {}
      invariant Counted(fs.Now()) && left <= f.names.Keys && (forall n :: n in left ==> n.Farm?)
      invariant Pruned(f, fs.Now(), left)
      decreases |left|
    {
      var n :| n in left;
      assert left == left - {n} + {n};
      left := left - {n};
      ghost var g := fs.Now();
      PruneStep(f, g, n, left);
      var st := fs.ReadStat(n);
      if st.value.nlink != 1 {
        continue;
      }
      var err := fs.RemoveName(n);
    }
  }

  lemma PrunedNone(f: Files)
    ensures Pruned(f, f, set n | n in f.names && n.Farm?)
  {
  }

  lemma PruneStep(f: Files, g: Files, n: Name, left: set<Name>)
    requires Counted(g) && n in f.names && n.Farm? && n !in left && Pruned(f, g, left + {n})
    ensures Lstat(g, n).Some? && Unlink(g, n).Success?
    ensures Pruned(f, if Lstat(g, n).value.nlink != 1 then g else Unlink(g, n).value, left)
  {
    UseIsSeen(f, g, n, left);
    OneLinkMeansNoOtherUse(g, n);
    KnownInode(g, n);
    hide Counted;
  }

  lemma KnownInode(g: Files, n: Name)
    requires Counted(g) && n in g.names
    ensures Lstat(g, n).Some?
  {
  }

  /** Entries pruned before take no use of this inode with them. */
  lemma UseIsSeen(f: Files, g: Files, n: Name, left: set<Name>)
    requires n in f.names && n.Farm? && n !in left && Pruned(f, g, left + {n})
    ensures n in g.names && (UsedElsewhere(f, n) <==> UsedElsewhere(g, n))
  {
    if UsedElsewhere(f, n) {
      var m :| m in f.names && m != n && f.names[m] == f.names[n];
      assert UsedElsewhere(f, m);
      assert m in g.names;
    }
  }

  // ------------------------------------------------------------- the collector

  /** The database: valid paths and who refers to whom. */
  datatype Db = Db(valid: set<Base>, refs: set<(Base, Base)>)

  /** Somebody other than `p` refers to it. */
  predicate InUse(db: Db, p: Base) {
    exists r :: r in db.refs && r.1 == p && r.0 != p
  }

  /** invalidatePathChecked: None for PathInUse. */
  function Invalidate(db: Db, p: Base): Option<Db> {
    if p !in db.valid then Some(db)
    else if InUse(db, p) then None
    else Some(Db(db.valid - {p}, set r | r in db.refs && r.0 != p))
  }

  /** Every reference is between valid paths, as the foreign keys of the database demand. */
  ghost predicate Closed(db: Db) {
    forall r :: r in db.refs ==> r.0 in db.valid && r.1 in db.valid
  }

  /** The references of the paths still valid, all of them and no others. */
  ghost predicate SameRefs(db0: Db, db: Db) {
    forall r :: r in db.refs <==> r in db0.refs && r.0 in db.valid
  }

  /** A path goes from the database exactly if nobody else refers to it, and its own
      references go with it. */
  lemma InvalidateKeepsRefs(db0: Db, db: Db, b: Base)
    requires Closed(db0) && Closed(db) && SameRefs(db0, db) && db.valid <= db0.valid
    ensures Invalidate(db, b).None? <==> b in db.valid && exists r :: r in db0.refs && r.0 in db.valid && r.0 != b && r.1 == b
    ensures Invalidate(db, b).Some? ==>
              Closed(Invalidate(db, b).value) && SameRefs(db0, Invalidate(db, b).value) &&
              Invalidate(db, b).value.valid == db.valid - {b}
  {
  }

  /** What the store directory holds, path by path. */
  ghost predicate OnDisk(f: Files, shapes: map<Base, Dir>) {
    (forall n, b :: Under(n, b) && n in f.names ==> b in shapes && Holds(shapes[b], n.path)) &&
    (forall b, p: Path :: b in shapes && Holds(shapes[b], p) ==> Under(Store(p), b))
  }

  /** The state while a collection runs: `f0` and `db0` are those at its start. Valid
      paths are untouched, as is everything that was not named; what is no longer valid
      was named and not rooted. */
  ghost predicate Collecting(f0: Files, db0: Db, f: Files, db: Db, named: set<Base>, roots: set<Base>) {
    Counted(f) && f.nodes == f0.nodes && db.valid <= db0.valid && db.refs <= db0.refs &&
    (forall n :: n in f.names ==> n in f0.names && f.names[n] == f0.names[n]) &&
    (forall n: Name :: n.Farm? ==> (n in f.names <==> n in f0.names)) &&
    (forall b :: b in db.valid || b !in named || b in roots ==> Untouched(f0, f, b)) &&
    (forall b :: b in db0.valid && (b !in named || b in roots) ==> b in db.valid)
  }

  /** Gone: not valid, and no file left. */
  ghost predicate Gone(f: Files, db: Db, b: Base) {
    b !in db.valid && forall n :: Under(n, b) ==> n !in f.names
  }

  /** Each of these paths is gone, unless somebody referred to it from the start. */
  ghost predicate Collected(paths: seq<Base>, f: Files, db: Db, db0: Db) {
    forall b :: b in paths ==> Gone(f, db, b) || InUse(db0, b)
  }

  class GarbageCollector {
    const fs: FileSystem
    var db: Db
    var results: set<Base>

    constructor (fs: FileSystem, db: Db)
      ensures this.fs == fs && this.db == db && results == {}
    {
      this.fs, this.db, results := fs, db, {};
    }

    /** deleteFromStore. That the path is not valid any more is what makes a crash at any
        unlink harmless. */
    method DeleteFromStore(b: Base, shapes: map<Base, Dir>, stuck: set<Path>) returns (failed: bool)
      requires b !in db.valid && Counted(fs.Now()) && fs as object != this
      modifies this`results, fs
      ensures Counted(fs.Now()) && results == old(results) + {b}
      ensures b !in shapes ==> fs.Now() == old(fs.Now()) && !failed
      ensures b in shapes ==> Removed(old(fs.Now()), fs.Now(), shapes[b], stuck)
      ensures b in shapes ==> (failed <==> Resists(old(fs.Now()), shapes[b], stuck))
    {
      results := results + {b};
      failed := false;
      if b in shapes {
        failed := DeleteTree(fs, shapes[b], stuck);
      }
    }

    /** collectGarbage: None on a normal return. Whatever it returns, no rooted path and
        no path that was not named lost anything; on a normal return each named path is
        gone or was in use, and the farm keeps just the entries somebody else uses. */
    method CollectGarbage(paths: seq<Base>, gcRoots: Tree, resolve: Resolve, shapes: map<Base, Dir>, stuck: set<Path>)
      returns (refused: Option<Refused>, ghost mid: Files)
      requires Counted(fs.Now()) && OnDisk(fs.Now(), shapes) && fs as object != this
      modifies this, fs
      ensures Collecting(old(fs.Now()), old(db), mid, db, (set b | b in paths), FindRoots(gcRoots, old(db).valid, resolve))
      ensures forall b :: b in FindRoots(gcRoots, old(db).valid, resolve) ==> b in db.valid
      ensures refused.Some? ==> fs.Now() == mid
      ensures paths == [] ==> refused.None? && fs.Now() == old(fs.Now()) && db == old(db)
      ensures forall b :: refused == Some(StillRooted(b)) ==>
                b in old(db).valid && PointsAt(gcRoots, b, resolve) &&
                exists i :: 0 <= i < |paths| && paths[i] == b && Collected(paths[..i], mid, db, old(db))
      ensures refused == Some(CannotUnlink) ==>
                exists b :: b in paths && b in shapes && Resists(old(fs.Now()), shapes[b], stuck)
      ensures Closed(old(db)) ==> Closed(db) && SameRefs(old(db), db)
      ensures refused.None? ==> results == old(results) + set b | b in paths && b !in db.valid
      ensures refused.None? && paths != [] ==> Pruned(mid, fs.Now(), {})
      ensures refused.None? ==> Collected(paths, mid, db, old(db))
      ensures refused.None? ==> forall b :: b in paths && b in old(db).valid ==> !PointsAt(gcRoots, b, resolve)
    {
      hide Counted, OnDisk, Collecting, Untouched, Removed, Resists, FindRoots, Gone, Invalidate, InUse, Closed, SameRefs;
      mid := fs.Now();
      refused := None;
      ghost var f0, db0, named := fs.Now(), db, set b | b in paths;
      ghost var rooted := FindRoots(gcRoots, db.valid, resolve);
      CollectingStarts(f0, db0, named, rooted, gcRoots, resolve);
      RefsStart(db0);
      if paths == [] {
        return;
      }
      var roots := CollectRoots(gcRoots, db.valid, resolve);
      for i := 0 to |paths|
        invariant Counted(fs.Now()) && Collecting(f0, db0, fs.Now(), db, named, rooted)
        invariant Collected(paths[..i], fs.Now(), db, db0) && forall b :: b in paths[..i] ==> b !in rooted
        invariant forall b :: b in rooted ==> b in db.valid
        invariant Closed(db0) ==> Closed(db) && SameRefs(db0, db) && db.valid <= db0.valid
        invariant results == old(results) + set b | b in paths[..i] && b !in db.valid
      {
        assert paths[..i + 1] == paths[..i] + [paths[i]];
        mid := fs.Now();
        var b := paths[i];
        if b in roots {
          RootsArePointedAt(gcRoots, db0.valid, resolve, b);
          return Some(StillRooted(b)), mid;
        }
        var next := Invalidate(db, b);
        if next.None? {
          UseWasThere(f0, db0, fs.Now(), db, b, named, rooted);
          continue;
        }
        ghost var f, was := fs.Now(), db;
        InvalidateRemoves(db, b);
        if Closed(db0) {
          InvalidateKeepsRefs(db0, db, b);
        }
        db := next.value;
        var failed := DeleteFromStore(b, shapes, stuck);
        DeletionKeeps(f0, db0, f, was, fs.Now(), db, b, named, rooted, shapes, stuck);
        if failed {
          ResistedBefore(f0, db0, f, was, named, rooted, shapes[b], stuck);
          mid := fs.Now();
          return Some(CannotUnlink), mid;
        }
      }
      assert paths[..|paths|] == paths;
      forall b | b in paths && b in db0.valid ensures !PointsAt(gcRoots, b, resolve) {
        RootsArePointedAt(gcRoots, db0.valid, resolve, b);
      }
      mid := fs.Now();
      PruneFarm(fs);
    }
  }

  lemma CollectingStarts(f: Files, db: Db, named: set<Base>, roots: set<Base>, gcRoots: Tree, resolve: Resolve)
    requires Counted(f) && roots == FindRoots(gcRoots, db.valid, resolve)
    ensures Collecting(f, db, f, db, named, roots)
    ensures forall b :: b in roots ==> b in db.valid
  {
    hide Counted;
    forall b | b in roots ensures b in db.valid {
      RootsArePointedAt(gcRoots, db.valid, resolve, b);
    }
  }

  lemma RefsStart(db: Db)
    ensures Closed(db) ==> SameRefs(db, db)
  {
  }

  /** What cannot be unlinked now could not be at the start. */
  lemma ResistedBefore(f0: Files, db0: Db, f: Files, db: Db, named: set<Base>, roots: set<Base>, d: Dir, stuck: set<Path>)
    requires Collecting(f0, db0, f, db, named, roots) && Resists(f, d, stuck)
    ensures Resists(f0, d, stuck)
  {
    hide Counted;
    var p: Path :| Holds(d, p) && Store(p) in f.names && p in stuck;
    assert Store(p) in f0.names;
  }

  lemma UseWasThere(f0: Files, db0: Db, f: Files, db: Db, b: Base, named: set<Base>, roots: set<Base>)
    requires Collecting(f0, db0, f, db, named, roots) && Invalidate(db, b).None?
    ensures InUse(db0, b) && b in db.valid
  {
    hide Counted;
  }

  lemma InvalidateRemoves(db: Db, b: Base)
    requires Invalidate(db, b).Some?
    ensures b !in Invalidate(db, b).value.valid && Invalidate(db, b).value.valid == db.valid - {b}
  {
  }

  /** What deleting one named path comes to. */
  lemma DeletionKeeps(f0: Files, db0: Db, f: Files, db: Db, g: Files, db': Db, b: Base, named: set<Base>, roots: set<Base>,
                      shapes: map<Base, Dir>, stuck: set<Path>)
    requires Collecting(f0, db0, f, db, named, roots) && OnDisk(f0, shapes) && Counted(g)
    requires b in named && b !in roots && Invalidate(db, b) == Some(db')
    requires if b in shapes then Removed(f, g, shapes[b], stuck) else g == f
    ensures Collecting(f0, db0, g, db', named, roots)
    ensures b in shapes && !Resists(f, shapes[b], stuck) ==> Gone(g, db', b)
    ensures b !in shapes ==> Gone(g, db', b)
    ensures forall c :: Gone(f, db, c) ==> Gone(g, db', c)
  {
    hide Counted;
    forall c | c in db'.valid || c !in named || c in roots ensures Untouched(f0, g, c) {
      assert c != b && Untouched(f0, f, c);
      forall n | Under(n, c)
        ensures (n in f0.names <==> n in g.names) && (n in f0.names ==> g.names[n] == f0.names[n])
      {
        assert b in shapes && Holds(shapes[b], n.path) ==> Under(Store(n.path), b);
      }
    }
  }
}
