/** A file system as the store's link farm sees it: names bound to inodes, inodes with
    an immutable node and a stored link count, and the system calls that rebind names. */
module FileTable {
  import opened Results
  import opened Wire
  import opened Nar
  import opened Hashes
  import Nix32

  type Ino = nat
  type Path = seq<bytes>

  /** Regular files and symlinks: what can be hard-linked. */
  predicate IsLeaf(t: Tree) {
    !t.Directory? && (t.Symlink? ==> ValidTarget(t.target) && |t.target| <= NAR_MAX_TARGET)
  }

  /** These are the trees of one node that the archive format carries. */
  lemma LeavesAreValid(t: Tree)
    ensures IsLeaf(t) <==> Valid(t, 0) && !t.Directory?
  {
  }

  type Leaf = t: Tree | IsLeaf(t) witness (var none: blob := []; Regular(false, none))

  /** Farm: in the links directory, under a printed digest. Temp: a temporary link in the
      store's own directory. Store: a node of some store path. */
  datatype Name = Farm(key: string) | Temp(id: nat) | Store(path: Path)

  datatype Errno = ENOENT | EEXIST | OtherError

  datatype Files = Files(nodes: map<Ino, Leaf>, links: map<Ino, nat>, names: map<Name, Ino>)

  datatype Stat = Stat(ino: Ino, nlink: nat, size: nat, regular: bool)

  function Size(t: Leaf): nat {
    if t.Regular? then |t.contents| else |t.target|
  }

  /** The key a node is farmed under. */
  function Key(t: Leaf, sha: Sha): string {
    Nix32.Encoded(sha(Dump(t)))
  }

  lemma KeyIsDigest(a: Hash, b: Hash)
    ensures Nix32.Encoded(a) == Nix32.Encoded(b) <==> a == b
  {
    Nix32.RoundTrip(a);
    Nix32.RoundTrip(b);
  }

  /** What a recursive walk finds in a store path. */
  datatype Dir = File(path: Path) | Folder(children: seq<Dir>)

  ghost predicate Holds(d: Dir, p: Path) {
    match d
    case File(path) => path == p
    case Folder(children) => exists i :: 0 <= i < |children| && Holds(children[i], p)
  }

  // ------------------------------------------------------------- consistency

  ghost function Uses(names: map<Name, Ino>, ino: Ino): set<Name> {
    set n | n in names && names[n] == ino
  }

  /** Every name leads to an inode, and every link count is the number of names. */
  ghost predicate Counted(f: Files) {
    f.nodes.Keys == f.links.Keys &&
    (forall n :: n in f.names ==> f.names[n] in f.nodes) &&
    (forall ino :: ino in f.links ==> f.links[ino] == |Uses(f.names, ino)|)
  }

  function NodeAt(f: Files, n: Name): Option<Leaf> {
    if n in f.names && f.names[n] in f.nodes then Some(f.nodes[f.names[n]]) else None
  }

  // ------------------------------------------------------------ system calls

  function Lstat(f: Files, n: Name): Option<Stat> {
    if n !in f.names || f.names[n] !in f.nodes || f.names[n] !in f.links then None else
    var ino := f.names[n];
    Some(Stat(ino, f.links[ino], Size(f.nodes[ino]), f.nodes[ino].Regular?))
  }

  function Bump(links: map<Ino, nat>, ino: Ino, delta: int): map<Ino, nat> {
    if ino in links && links[ino] + delta >= 0 then links[ino := links[ino] + delta] else links
  }

  function Link(f: Files, from: Name, to: Name): Result<Files, Errno> {
    if from !in f.names then Failure(ENOENT)
    else if to in f.names then Failure(EEXIST)
    else Success(f.(names := f.names[to := f.names[from]], links := Bump(f.links, f.names[from], 1)))
  }

  function Unlink(f: Files, n: Name): Result<Files, Errno> {
    if n !in f.names then Failure(ENOENT)
    else Success(f.(names := f.names - {n}, links := Bump(f.links, f.names[n], -1)))
  }

  /** Renaming one link of an inode onto another does nothing at all. */
  function Rename(f: Files, from: Name, to: Name): Result<Files, Errno> {
    if from !in f.names then Failure(ENOENT)
    else if to in f.names && f.names[to] == f.names[from] then Success(f)
    else Success(f.(names := Moved(f.names, from, to),
                    links := if to in f.names then Bump(f.links, f.names[to], -1) else f.links))
  }

  function Create(f: Files, n: Name, ino: Ino, t: Leaf): Result<Files, Errno>
    requires ino !in f.nodes
  {
    if n in f.names then Failure(EEXIST)
    else Success(Files(f.nodes[ino := t], f.links[ino := 1], f.names[n := ino]))
  }

  lemma BoundUses(names: map<Name, Ino>, to: Name, target: Ino, ino: Ino)
    requires to !in names
    ensures |Uses(names[to := target], ino)| == |Uses(names, ino)| + (if ino == target then 1 else 0)
  {
    assert Uses(names[to := target], ino) == Uses(names, ino) + (if ino == target then {to} else {});
  }

  lemma LinkCounts(f: Files, from: Name, to: Name)
    requires Counted(f) && Link(f, from, to).Success?
    ensures Counted(Link(f, from, to).value)
  {
    hide Uses;
    var g := Link(f, from, to).value;
    forall ino | ino in g.links ensures g.links[ino] == |Uses(g.names, ino)| {
      BoundUses(f.names, to, f.names[from], ino);
    }
  }

  lemma UnlinkCounts(f: Files, n: Name)
    requires Counted(f) && Unlink(f, n).Success?
    ensures Counted(Unlink(f, n).value)
  {
    var g := Unlink(f, n).value;
    assert n in Uses(f.names, f.names[n]);
    forall ino | ino in g.links ensures g.links[ino] == |Uses(g.names, ino)| {
      assert Uses(g.names, ino) == Uses(f.names, ino) - (if ino == f.names[n] then {n} else {});
    }
  }

  function Moved(names: map<Name, Ino>, from: Name, to: Name): map<Name, Ino>
    requires from in names
  {
    names[to := names[from]] - {from}
  }

  lemma MovedUses(names: map<Name, Ino>, from: Name, to: Name, ino: Ino)
    requires from in names && from != to
    ensures Uses(Moved(names, from, to), ino) ==
            Uses(names, ino) - {from, to} + (if ino == names[from] then {to} else {})
  {
    forall n ensures n in Uses(Moved(names, from, to), ino) <==>
                     n in Uses(names, ino) - {from, to} + (if ino == names[from] then {to} else {}) {
    }
  }

  lemma RenameUses(names: map<Name, Ino>, from: Name, to: Name, ino: Ino)
    requires from in names && !(to in names && names[to] == names[from])
    ensures |Uses(names, ino)| ==
            |Uses(Moved(names, from, to), ino)| + (if to in names && ino == names[to] then 1 else 0)
  {
    MovedUses(names, from, to, ino);
    InUses(names, from, ino);
    InUses(names, to, ino);
    hide Uses, Moved;
    var was := Uses(names, ino);
    if ino == names[from] {
      assert was - {from, to} + {to} == was - {from} + {to};
    } else if to in names && ino == names[to] {
      assert was - {from, to} == was - {to};
    } else {
      assert was - {from, to} == was;
    }
  }

  lemma InUses(names: map<Name, Ino>, n: Name, ino: Ino)
    ensures n in Uses(names, ino) <==> n in names && names[n] == ino
  {
  }

  lemma RenameCounts(f: Files, from: Name, to: Name)
    requires Counted(f) && Rename(f, from, to).Success?
    ensures Counted(Rename(f, from, to).value)
  {
    var g := Rename(f, from, to).value;
    if !(to in f.names && f.names[to] == f.names[from]) {
      hide Uses;
      forall ino | ino in g.links ensures g.links[ino] == |Uses(g.names, ino)| {
        RenameUses(f.names, from, to, ino);
      }
    }
  }

  lemma CreateCounts(f: Files, n: Name, ino: Ino, t: Leaf)
    requires Counted(f) && ino !in f.nodes && Create(f, n, ino, t).Success?
    ensures Counted(Create(f, n, ino, t).value)
  {
    var g := Create(f, n, ino, t).value;
    assert Uses(g.names, ino) == {n};
    forall i | i in f.links ensures g.links[i] == |Uses(g.names, i)| {
      assert Uses(g.names, i) == Uses(f.names, i);
    }
  }

  /** Some other name leads to the same inode. */
  ghost predicate UsedElsewhere(f: Files, n: Name)
    requires n in f.names
  {
    exists m :: m in f.names && m != n && f.names[m] == f.names[n]
  }

  /** A link count of 1 means that no other name uses the inode, and a higher one that
      some other name does. */
  lemma OneLinkMeansNoOtherUse(f: Files, n: Name)
    requires Counted(f) && n in f.names
    ensures f.names[n] in f.links
    ensures f.links[f.names[n]] == 1 <==> forall m :: m in f.names && f.names[m] == f.names[n] ==> m == n
    ensures f.links[f.names[n]] > 1 <==> UsedElsewhere(f, n)
  {
    var uses := Uses(f.names, f.names[n]);
    assert n in uses && f.names[n] in f.nodes;
    assert (forall m :: m in f.names && f.names[m] == f.names[n] ==> m == n) ==> uses == {n};
    assert |uses| > 0;
    if f.links[f.names[n]] == 1 {
      forall m | m in f.names && f.names[m] == f.names[n] ensures m == n {
        assert m in uses;
        Singleton(uses, n, m);
      }
    }
  }

  lemma StatFindsNames(f: Files, n: Name)
    requires Counted(f)
    ensures Lstat(f, n).Some? <==> n in f.names
  {
  }

  lemma Singleton<T>(s: set<T>, a: T, b: T)
    requires |s| == 1 && a in s && b in s
    ensures a == b
  {
    assert a != b ==> {a, b} <= s;
    if a != b {
      SubsetCard({a, b}, s);
    }
  }

  lemma {:induction false} SubsetCard<T>(a: set<T>, b: set<T>)
    requires a <= b
    ensures |a| <= |b|
  {
    if a != {} {
      var x :| x in a;
      SubsetCard(a - {x}, b - {x});
    }
  }

  // --------------------------------------------------------- the file system

  class FileSystem {
    var nodes: map<Ino, Leaf>
    var links: map<Ino, nat>
    var names: map<Name, Ino>

    function Now(): Files
      reads this
    {
      Files(nodes, links, names)
    }

    constructor ()
      ensures Now() == Files(map[], map[], map[]) && Counted(Now())
    {
      nodes, links, names := map[], map[], map[];
    }

    method ReadStat(n: Name) returns (st: Option<Stat>)
      ensures st == Lstat(Now(), n)
    {
      if n in names && names[n] in nodes && names[n] in links {
        var ino := names[n];
        return Some(Stat(ino, links[ino], Size(nodes[ino]), nodes[ino].Regular?));
      }
      return None;
    }

    method MakeLink(from: Name, to: Name) returns (err: Option<Errno>)
      requires Counted(Now())
      modifies this
      ensures Counted(Now())
      ensures match Link(old(Now()), from, to)
              case Success(f) => err == None && Now() == f
              case Failure(e) => err == Some(e) && Now() == old(Now())
    {
      if from !in names {
        return Some(ENOENT);
      } else if to in names {
        return Some(EEXIST);
      }
      LinkCounts(Now(), from, to);
      names, links := names[to := names[from]], Bump(links, names[from], 1);
      return None;
    }

    method RemoveName(n: Name) returns (err: Option<Errno>)
      requires Counted(Now())
      modifies this
      ensures Counted(Now())
      ensures match Unlink(old(Now()), n)
              case Success(f) => err == None && Now() == f
              case Failure(e) => err == Some(e) && Now() == old(Now())
    {
      if n !in names {
        return Some(ENOENT);
      }
      UnlinkCounts(Now(), n);
      names, links := names - {n}, Bump(links, names[n], -1);
      return None;
    }

    method MoveName(from: Name, to: Name) returns (err: Option<Errno>)
      requires Counted(Now())
      modifies this
      ensures Counted(Now())
      ensures match Rename(old(Now()), from, to)
              case Success(f) => err == None && Now() == f
              case Failure(e) => err == Some(e) && Now() == old(Now())
    {
      if from !in names {
        return Some(ENOENT);
      }
      RenameCounts(Now(), from, to);
      if to in names && names[to] == names[from] {
        return None;
      }
      if to in names {
        links := Bump(links, names[to], -1);
      }
      names := Moved(names, from, to);
      return None;
    }

    method CreateFile(n: Name, ino: Ino, t: Leaf) returns (err: Option<Errno>)
      requires Counted(Now()) && ino !in nodes
      modifies this
      ensures Counted(Now())
      ensures match Create(old(Now()), n, ino, t)
              case Success(f) => err == None && Now() == f
              case Failure(e) => err == Some(e) && Now() == old(Now())
    {
      if n in names {
        return Some(EEXIST);
      }
      CreateCounts(Now(), n, ino, t);
      nodes, links, names := nodes[ino := t], links[ino := 1], names[n := ino];
      return None;
    }
  }
}
