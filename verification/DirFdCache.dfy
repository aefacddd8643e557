/** Opening the parent directory of a path without following symlinks, with and without
    the cache of directory descriptors, over a tree that does not change meanwhile. */
module DirFdCache {
  import opened Results
  import opened Wire
  import opened Nar
  import opened LruCache
  import opened NarStream
  import Capture

  datatype Errno = ENOENT | ENOTDIR

  /** A descriptor is known by the directory it refers to: the path from the root. The
      symlink reported is the path handed to the caller. */
  datatype Opened = Fd(dir: Path) | Failed(errno: Errno) | SymlinkNotAllowed(path: Path)

  // ---------------------------------------------------------- the walk, directly

  /** Component by component from directory `at`; a symlink is where the walk stops. */
  function Walk(t: Tree, at: Path, rel: Path): Opened
    decreases |rel|
  {
    if rel == [] then Fd(at) else
    var next := at + [rel[0]];
    match Capture.At(t, next)
    case None => Failed(ENOENT)
    case Some(Directory(_)) => Walk(t, next, rel[1..])
    case Some(Symlink(_)) => SymlinkNotAllowed(next)
    case Some(Regular(_, _)) => Failed(ENOTDIR)
  }

  /** What openParent has to return. The kernel's own no-symlinks lookup names the whole
      path in its error, the walk in user space the symlink it met. */
  function Direct(t: Tree, path: Path, openat2: bool): Opened
    requires path != []
  {
    var parent := path[..|path| - 1];
    match Walk(t, [], parent)
    case SymlinkNotAllowed(p) => SymlinkNotAllowed(if openat2 then parent else p)
    case r => r
  }

  predicate IsDir(n: Option<Tree>) {
    n.Some? && n.value.Directory?
  }

  /** What opening a path step by step comes to, by what its prefixes lead to: `k` is the
      length of the first that is no directory, if there is one. */
  ghost predicate StopsAt(t: Tree, path: Path, k: nat) {
    0 < k <= |path| && !IsDir(Capture.At(t, path[..k])) && forall j :: 0 < j < k ==> IsDir(Capture.At(t, path[..j]))
  }

  ghost predicate Passes(t: Tree, path: Path) {
    forall j :: 0 < j <= |path| ==> IsDir(Capture.At(t, path[..j]))
  }

  lemma {:induction false} WalkExactly(t: Tree, path: Path, i: nat)
    requires i <= |path|
    ensures Passes(t, path) ==> Walk(t, path[..i], path[i..]) == Fd(path)
    ensures forall k: nat :: StopsAt(t, path, k) && i < k ==>
      Walk(t, path[..i], path[i..]) ==
      match Capture.At(t, path[..k])
      case None => Failed(ENOENT)
      case Some(Symlink(_)) => SymlinkNotAllowed(path[..k])
      case Some(_) => Failed(ENOTDIR)
    decreases |path| - i
  {
    if i < |path| {
      WalkExactly(t, path, i + 1);
      assert path[..i] + [path[i..][0]] == path[..i + 1] && path[i..][1..] == path[i + 1..];
      assert StopsAt(t, path, i + 1) <==> !IsDir(Capture.At(t, path[..i + 1])) && forall j :: 0 < j <= i ==> IsDir(Capture.At(t, path[..j]));
    } else {
      assert path[..i] == path && path[i..] == [];
    }
  }

  /** The parent of a name is opened exactly if it and all its ancestors are directories.
      Otherwise the first that is not decides: missing, no directory, or a symlink, which is
      named as the kernel or the walk would. */
  lemma ParentOpens(t: Tree, parent: Path, name: blob, openat2: bool, k: nat)
    ensures Passes(t, parent) ==> Direct(t, parent + [name], openat2) == Fd(parent)
    ensures StopsAt(t, parent, k) ==>
      Direct(t, parent + [name], openat2) ==
      match Capture.At(t, parent[..k])
      case None => Failed(ENOENT)
      case Some(Symlink(_)) => SymlinkNotAllowed(if openat2 then parent else parent[..k])
      case Some(_) => Failed(ENOTDIR)
  {
    hide Walk;
    assert (parent + [name])[..|parent|] == parent;
    WalkExactly(t, parent, 0);
    assert parent[..0] == [] && parent[0..] == parent;
  }

  lemma {:induction false} WalkInTwo(t: Tree, at: Path, a: Path, b: Path)
    requires Walk(t, at, a).Fd?
    ensures Walk(t, at, a) == Fd(at + a)
    ensures Walk(t, at, a + b) == Walk(t, at + a, b)
    decreases |a|
  {
    if a == [] {
      assert at + a == at && a + b == b;
    } else {
      WalkInTwo(t, at + [a[0]], a[1..], b);
      assert (a + b)[1..] == a[1..] + b && (a + b)[0] == a[0];
      assert at + [a[0]] + a[1..] == at + a;
    }
  }

  lemma WalkOneMore(t: Tree, at: Path, a: Path, name: blob)
    requires Walk(t, at, a).Fd?
    ensures Walk(t, at, a + [name]) == Walk(t, at + a, [name])
  {
    WalkInTwo(t, at, a, [name]);
  }

  /** A walk that fails fails the same way however much further it should have gone. */
  lemma {:induction false} WalkFails(t: Tree, at: Path, a: Path, b: Path)
    requires !Walk(t, at, a).Fd?
    ensures Walk(t, at, a + b) == Walk(t, at, a)
    decreases |a|
  {
    assert (a + b)[0] == a[0] && (a + b)[1..] == a[1..] + b;
    if Walk(t, at, a) == Walk(t, at + [a[0]], a[1..]) && Capture.At(t, at + [a[0]]).Some? && Capture.At(t, at + [a[0]]).value.Directory? {
      WalkFails(t, at + [a[0]], a[1..], b);
    }
  }

  // ------------------------------------------------------------------- caches

  type Cache = Recency<Path, Path>

  /** Every entry is the descriptor a walk from the root would open. */
  ghost predicate CacheOk(t: Tree, c: Cache) {
    Bounded(c) && forall s :: s in c.slots ==> s.key != [] && s.value == s.key && Walk(t, [], s.key) == Fd(s.key)
  }

  lemma UpsertOk(t: Tree, c: Cache, key: Path)
    requires CacheOk(t, c) && key != [] && Walk(t, [], key) == Fd(key)
    ensures CacheOk(t, Upserted(c, key, key))
    ensures |Upserted(c, key, key).slots| >= |c.slots|
  {
    hide Walk;
    StaysBounded(c, key, key);
    WithoutKeepsDistinct(c.slots, key);
  }

  lemma TouchOk(t: Tree, c: Cache, key: Path)
    requires CacheOk(t, c)
    ensures CacheOk(t, Touched(c, key)) && |Touched(c, key).slots| == |c.slots|
    ensures Lookup(c.slots, key).Some? ==> Lookup(c.slots, key).value == key && Walk(t, [], key) == Fd(key) && key != []
  {
    hide Walk;
    var v := Lookup(c.slots, key);
    if v.Some? {
      assert Slot(key, v.value) in c.slots;
      StaysBounded(c, key, v.value);
    }
  }

  function Total(caches: seq<Cache>): nat {
    if caches == [] then 0 else |caches[0].slots| + Total(caches[1..])
  }

  lemma {:induction false} TotalUpdate(caches: seq<Cache>, i: nat, c: Cache)
    requires i < |caches|
    ensures Total(caches[i := c]) + |caches[i].slots| == Total(caches) + |c.slots|
  {
    if i == 0 {
      assert caches[0 := c][1..] == caches[1..];
    } else {
      TotalUpdate(caches[1..], i - 1, c);
      assert caches[i := c][1..] == caches[1..][i - 1 := c];
    }
  }

  lemma {:induction false} TotalEmpty(caches: seq<Cache>)
    requires forall i :: 0 <= i < |caches| ==> caches[i].slots == []
    ensures Total(caches) == 0
  {
    if caches != [] {
      TotalEmpty(caches[1..]);
    }
  }

  lemma {:induction false} TotalAppend(caches: seq<Cache>, c: Cache)
    ensures Total(caches + [c]) == Total(caches) + |c.slots|
  {
    if caches != [] {
      assert (caches + [c])[1..] == caches[1..] + [c];
      TotalAppend(caches[1..], c);
    } else {
      assert (caches + [c])[1..] == [];
    }
  }

  /** Clearing caches in turn, from number `i` on, until few enough descriptors are held. */
  function Evicted(caches: seq<Cache>, limit: nat, i: nat): (r: seq<Cache>)
    requires i <= |caches|
    ensures |r| == |caches|
    decreases |caches| - i
  {
    if i == |caches| || Total(caches) < limit then caches
    else Evicted(caches[i := caches[i].(slots := [])], limit, i + 1)
  }

  function Cleared(caches: seq<Cache>, k: nat): (r: seq<Cache>)
    ensures |r| == |caches|
  {
    seq(|caches|, i requires 0 <= i < |caches| => if i < k then caches[i].(slots := []) else caches[i])
  }

  /** No cache is cleared that need not be: the first few are, each because the ones before
      it were not enough, and the rest are left alone. */
  lemma {:induction false} EvictsNoMore(caches: seq<Cache>, limit: nat, i: nat) returns (k: nat)
    requires i <= |caches|
    ensures i <= k <= |caches|
    ensures Evicted(Cleared(caches, i), limit, i) == Cleared(caches, k)
    ensures k == |caches| || Total(Cleared(caches, k)) < limit
    ensures forall j :: i <= j < k ==> Total(Cleared(caches, j)) >= limit
    decreases |caches| - i
  {
    if i == |caches| || Total(Cleared(caches, i)) < limit {
      k := i;
    } else {
      assert Cleared(caches, i)[i := caches[i].(slots := [])] == Cleared(caches, i + 1);
      k := EvictsNoMore(caches, limit, i + 1);
    }
  }

  /** Looking for a path and then its ancestors: the first hit is touched. */
  function Searched(c: Cache, p: Path): Cache
    decreases |p|
  {
    if Lookup(c.slots, p).Some? then Touched(c, p) else if p == [] then c else Searched(c, p[..|p| - 1])
  }

  function Nearest(c: Cache, p: Path): (q: Path)
    ensures q <= p
    decreases |p|
  {
    if p == [] || Lookup(c.slots, p).Some? then p else Nearest(c, p[..|p| - 1])
  }

  /** No longer prefix is in the cache. */
  lemma {:induction false} NearestIsDeepest(c: Cache, p: Path, q: Path)
    requires q <= p && Lookup(c.slots, q).Some?
    ensures q <= Nearest(c, p) && (Nearest(c, p) != [] ==> Lookup(c.slots, Nearest(c, p)).Some?)
    decreases |p|
  {
    if p != [] && Lookup(c.slots, p).None? {
      assert |q| == |p| ==> q == p;
      NearestIsDeepest(c, p[..|p| - 1], q);
    }
  }

  /** How many components of `rel` before the last are directories, one inside the other. */
  function Reach(t: Tree, at: Path, rel: Path): (n: nat)
    ensures n <= |rel|
    decreases |rel|
  {
    if |rel| <= 1 || !IsDir(Capture.At(t, at + [rel[0]])) then 0 else 1 + Reach(t, at + [rel[0]], rel[1..])
  }

  /** The first `n` directories below `start` on the way along `rel`, cached one by one. */
  function Noted(c: Cache, start: Path, rel: Path, n: nat): Cache
    requires n <= |rel|
  {
    if n == 0 then c else Upserted(Noted(c, start, rel, n - 1), start + rel[..n], start + rel[..n])
  }

  function Passed(t: Tree, c: Cache, start: Path, rel: Path): Cache {
    Noted(c, start, rel, if Reach(t, start, rel) == 0 then 0 else Reach(t, start, rel) - 1)
  }

  lemma ReachStep(t: Tree, at: Path, rel: Path, i: nat)
    requires i < |rel|
    ensures Reach(t, at + rel[..i], rel[i..]) ==
            if i == |rel| - 1 || !IsDir(Capture.At(t, at + rel[..i + 1])) then 0
            else 1 + Reach(t, at + rel[..i + 1], rel[i + 1..])
  {
    assert at + rel[..i] + [rel[i..][0]] == at + rel[..i + 1];
    assert rel[i..][1..] == rel[i + 1..];
  }

  /** What opening the parent of a name leaves cached: a hit is only touched, a walk in user
      space caches the directories it has passed but the last, and openat2 caches none. */
  function AfterOpen(t: Tree, c: Cache, parent: Path, openat2: bool): Cache {
    var (anchor, touched) := (Nearest(c, parent), Searched(c, parent));
    if anchor == parent || openat2 then touched else Passed(t, touched, anchor, parent[|anchor|..])
  }

  /** A parent that was kept is found the next time, without a walk. */
  lemma KeptIsFound(c: Cache, parent: Path)
    requires Bounded(c) && c.capacity > 0
    ensures Nearest(Upserted(c, parent, parent), parent) == parent
  {
    StaysBounded(c, parent, parent);
    LookupFinds(Upserted(c, parent, parent).slots, Slot(parent, parent));
  }

  // ---------------------------------------------------------------- accessors

  /** All directory accessors of a process, by number, with their caches and the count
      of descriptors all caches hold together. */
  class Accessors {
    const limit: nat
    const openat2: bool
    var trees: seq<Tree>
    var caches: seq<Cache>
    var count: nat

    ghost predicate Valid()
      reads this
    {
      |trees| == |caches| && (forall i :: 0 <= i < |trees| ==> CacheOk(trees[i], caches[i])) && count == Total(caches)
    }

    constructor (limit: nat, openat2: bool)
      ensures Valid() && trees == [] && this.limit == limit && this.openat2 == openat2
    {
      this.limit, this.openat2 := limit, openat2;
      trees, caches, count := [], [], 0;
    }

    /** A capacity of 0 means no cache. */
    method RegisterAccessor(t: Tree, capacity: nat) returns (a: nat)
      requires Valid()
      modifies this
      ensures Valid() && a == |old(trees)| && trees == old(trees) + [t]
      ensures caches == old(caches) + [Recency(capacity, [])] && count == old(count)
    {
      a := |trees|;
      TotalAppend(caches, Recency(capacity, []));
      trees, caches := trees + [t], caches + [Recency(capacity, [])];
    }

    method InvalidateCache(a: nat)
      requires Valid() && a < |trees|
      modifies this
      ensures Valid() && trees == old(trees)
      ensures caches == old(caches)[a := old(caches)[a].(slots := [])]
      ensures count + |old(caches)[a].slots| == old(count)
    {
      TotalUpdate(caches, a, caches[a].(slots := []));
      count := count - |caches[a].slots|;
      caches := caches[a := caches[a].(slots := [])];
    }

    /** Clears caches one after the other until the count is below the limit. */
    method MaybeEvictFromGlobalCaches()
      requires Valid()
      modifies this
      ensures Valid() && trees == old(trees) && count <= old(count)
      ensures count < limit || count == 0
      ensures caches == Evicted(old(caches), limit, 0)
    {
      if count < limit {
        return;
      }
      var i := 0;
      while i < |caches|
        invariant 0 <= i <= |caches| && Valid() && trees == old(trees) && count <= old(count)
        invariant Evicted(caches, limit, i) == Evicted(old(caches), limit, 0)
        invariant forall j :: 0 <= j < i ==> caches[j].slots == []
      {
        if count < limit {
          break;
        }
        InvalidateCache(i);
        i := i + 1;
      }
      if i == |caches| {
        TotalEmpty(caches);
      }
    }

    /** Descriptors that already refer to the directory of their key. */
    method InsertIntoDirFdCache(a: nat, key: Path)
      requires Valid() && a < |trees| && key != [] && Walk(trees[a], [], key) == Fd(key)
      modifies this
      ensures Valid() && trees == old(trees)
      ensures caches == old(caches)[a := Upserted(old(caches)[a], key, key)]
    {
      hide Walk;
      UpsertOk(trees[a], caches[a], key);
      TotalUpdate(caches, a, Upserted(caches[a], key, key));
      var before := |caches[a].slots|;
      caches := caches[a := Upserted(caches[a], key, key)];
      count := count + (|caches[a].slots| - before);
    }

    /** The deepest cached ancestor of `parent`, or the root. */
    method FindAnchor(a: nat, parent: Path) returns (anchor: Path)
      requires Valid() && a < |trees|
      modifies this
      ensures Valid() && trees == old(trees)
      ensures anchor == Nearest(old(caches)[a], parent) && Walk(trees[a], [], anchor) == Fd(anchor)
      ensures caches == old(caches)[a := Searched(old(caches)[a], parent)]
    {
      hide Walk;
      var p := parent;
      while true
        invariant Valid() && trees == old(trees) && p <= parent && caches == old(caches)
        invariant Nearest(caches[a], p) == Nearest(caches[a], parent)
        invariant Searched(caches[a], p) == Searched(caches[a], parent)
        decreases |p|
      {
        var hit := Lookup(caches[a].slots, p);
        TouchOk(trees[a], caches[a], p);
        TotalUpdate(caches, a, Touched(caches[a], p));
        caches := caches[a := Touched(caches[a], p)];
        if hit.Some? {
          return p;
        }
        if p == [] {
          WalkNowhere(trees[a]);
          return [];
        }
        p := p[..|p| - 1];
      }
    }

    /** openFileEnsureBeneathNoSymlinksIterative from the directory `start`. Every
        directory passed on the way is handed to the cache once the next is open, the
        last of them excepted. Error paths are relative to `start`. */
    method OpenIterative(a: nat, start: Path, rel: Path) returns (r: Opened)
      requires Valid() && a < |trees| && rel != [] && Walk(trees[a], [], start) == Fd(start)
      modifies this
      ensures Valid() && trees == old(trees)
      ensures match Walk(trees[a], start, rel)
              case SymlinkNotAllowed(p) => r.SymlinkNotAllowed? && start + r.path == p
              case w => r == w
      ensures caches == old(caches)[a := Passed(trees[a], old(caches)[a], start, rel)]
    {
      hide Walk, CacheOk, Reach, Upserted;
      var current: Path := [];
      var i := 0;
      assert start + [] == start && rel[..0] == [] && rel[0..] == rel;
      WalkHere(trees[a], start);
      while i < |rel| - 1
        invariant 0 <= i <= |rel| - 1 && current == rel[..i]
        invariant Valid() && trees == old(trees)
        invariant Walk(trees[a], start, current) == Fd(start + current)
        invariant Reach(trees[a], start, rel) == i + Reach(trees[a], start + current, rel[i..])
        invariant caches == old(caches)[a := Noted(old(caches)[a], start, rel, if i == 0 then 0 else i - 1)]
      {
        var previous := current;
        current := current + [rel[i]];
        assert rel[..i + 1] == current;
        ReachStep(trees[a], start, rel, i);
        WalkStep(trees[a], start, previous, rel[i]);
        var node := Capture.At(trees[a], start + current);
        if node.None? || !node.value.Directory? {
          WalkFails(trees[a], start, current, rel[i + 1..]);
          assert current + rel[i + 1..] == rel;
          return if node.None? then Failed(ENOENT) else if node.value.Symlink? then SymlinkNotAllowed(current) else Failed(ENOTDIR);
        }
        if i > 0 {
          WalkInTwo(trees[a], [], start, previous);
          assert [] + start == start;
          InsertIntoDirFdCache(a, start + previous);
        }
        i := i + 1;
      }
      ReachStep(trees[a], start, rel, i);
      var last := rel[|rel| - 1];
      assert current + [last] == rel;
      WalkStep(trees[a], start, current, last);
      var node := Capture.At(trees[a], start + rel);
      if node.None? {
        return Failed(ENOENT);
      } else if node.value.Symlink? {
        return SymlinkNotAllowed(rel);
      } else if node.value.Regular? {
        return Failed(ENOTDIR);
      }
      return Fd(start + rel);
    }

    /** openat2 refusing symlinks: one lookup, and no directory to cache on the way. */
    method OpenAt2(a: nat, start: Path, rel: Path) returns (r: Opened)
      requires a < |trees|
      ensures match Walk(trees[a], start, rel)
              case SymlinkNotAllowed(_) => r == SymlinkNotAllowed(rel)
              case w => r == w
    {
      r := Walk(trees[a], start, rel);
      if r.SymlinkNotAllowed? {
        r := SymlinkNotAllowed(rel);
      }
    }

    /** Whatever the cache holds, the parent opened is the one a walk from the root opens,
        and an error is the error of that walk. */
    method OpenParent(a: nat, path: Path) returns (r: Opened)
      requires Valid() && a < |trees| && path != []
      modifies this
      ensures Valid() && trees == old(trees)
      ensures r == Direct(trees[a], path, openat2)
      ensures var (parent, kept) := (path[..|path| - 1], Evicted(old(caches), limit, 0));
        caches == if parent == [] then old(caches) else kept[a := AfterOpen(trees[a], kept[a], parent, openat2)]
    {
      hide Walk, CacheOk, Evicted, Nearest, Searched, Passed;
      var parent := path[..|path| - 1];
      if parent == [] {
        WalkNowhere(trees[a]);
        return Fd([]);
      }
      MaybeEvictFromGlobalCaches();
      var anchor := FindAnchor(a, parent);
      if anchor == parent {
        return Fd(parent);
      }
      var rel := parent[|anchor|..];
      assert parent == anchor + rel && [] + anchor == anchor;
      WalkInTwo(trees[a], [], anchor, rel);
      if openat2 {
        r := OpenAt2(a, anchor, rel);
      } else {
        r := OpenIterative(a, anchor, rel);
      }
      if r.SymlinkNotAllowed? {
        r := SymlinkNotAllowed(anchor + r.path);
      }
    }

    /** The same, and the descriptor is kept. */
    method OpenParentAndUpsert(a: nat, path: Path) returns (r: Opened)
      requires Valid() && a < |trees| && path != []
      modifies this
      ensures Valid() && trees == old(trees)
      ensures r == Direct(trees[a], path, openat2)
      ensures var (parent, kept) := (path[..|path| - 1], Evicted(old(caches), limit, 0));
        caches == if parent == [] then old(caches) else
          var after := AfterOpen(trees[a], kept[a], parent, openat2);
          kept[a := if r.Fd? then Upserted(after, parent, parent) else after]
    {
      hide Walk, CacheOk, Evicted, AfterOpen;
      var parent := path[..|path| - 1];
      r := OpenParent(a, path);
      if r.Fd? && parent != [] {
        WalkGoesThere(trees[a], parent);
        InsertIntoDirFdCache(a, parent);
      }
    }
  }

  lemma WalkNowhere(t: Tree)
    ensures Walk(t, [], []) == Fd([])
  {
  }

  lemma WalkHere(t: Tree, at: Path)
    ensures Walk(t, at, []) == Fd(at)
  {
  }

  lemma WalkGoesThere(t: Tree, a: Path)
    requires Walk(t, [], a).Fd?
    ensures Walk(t, [], a) == Fd(a)
  {
    WalkInTwo(t, [], a, []);
    assert [] + a == a;
  }

  lemma WalkStep(t: Tree, at: Path, a: Path, name: blob)
    requires Walk(t, at, a) == Fd(at + a)
    ensures Walk(t, at, a + [name]) ==
      match Capture.At(t, at + (a + [name]))
      case None => Failed(ENOENT)
      case Some(Directory(_)) => Fd(at + (a + [name]))
      case Some(Symlink(_)) => SymlinkNotAllowed(at + (a + [name]))
      case Some(Regular(_, _)) => Failed(ENOTDIR)
  {
    WalkOneMore(t, at, a, name);
    assert at + a + [name] == at + (a + [name]);
    assert [name][1..] == [];
  }
}
