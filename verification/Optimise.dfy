/** One undisturbed optimise pass over store paths: the walk, a LinkFarm task run
    alone for each file, and what the pass leaves behind. */
module Optimise {
  import opened Results
  import opened Wire
  import opened Nar
  import opened Hashes
  import opened FileTable
  import opened LinkFarm
  import Nix32

  // ----------------------------------------------------- a task running alone

  function Rank(t: Task): nat {
    match t
    case Inspect(_, _) => 9
    case Digest(_, _) => 8
    case Probe(_, _, _) => 7
    case RemoveBad(_, _, _) => 6
    case Publish(_, _, _) => 5
    case ProbeAgain(_, _, _) => 4
    case SwapProbe(_, _, _) => 4
    case Fetch(_, _, _) => 3
    case Replace(_, _, _) => 2
    case PruneStat(_) => 2
    case CleanUp(_, _) => 1
    case PruneUnlink(_) => 1
    case _ => 0
  }

  lemma ActDescends(f: Files, inodes: set<Ino>, t: Task, id: nat, sha: Sha)
    requires Rank(t) > 0
    ensures Rank(Act(f, inodes, t, id, NoFault, sha).2) < Rank(t)
  {
    hide Lstat, Link, Unlink, Rename, Dump, Nix32.Encoded, NodeAt;
  }

  /** The outcome of a task that nothing interrupts. */
  function Alone(f: Files, inodes: set<Ino>, t: Task, id: nat, sha: Sha): Outcome
    decreases Rank(t)
  {
    if Rank(t) == 0 then (f, inodes, t) else
    ActDescends(f, inodes, t, id, sha);
    var (g, more, u) := Act(f, inodes, t, id, NoFault, sha);
    Alone(g, more, u, id, sha)
  }

  // ------------------------------------------------------------------ the walk

  /** The pass so far: `next` numbers temporary links, `linked` counts replacements. */
  datatype Pass = Pass(f: Files, inodes: set<Ino>, next: nat, linked: nat, threw: bool)

  type Captures = Path -> Option<Hash>

  function VisitFile(s: Pass, path: Path, captured: Captures, sha: Sha): Pass {
    var (f, inodes, t) := Alone(s.f, s.inodes, Inspect(path, captured(path)), s.next, sha);
    Pass(f, inodes, s.next + 1, if t == Ended(true) then s.linked + 1 else s.linked, t == Threw)
  }

  /** readDirectoryIgnoringInodes: the children not already on a farm inode. */
  predicate Skips(d: Dir, f: Files, inodes: set<Ino>) {
    d.File? && Store(d.path) in f.names && f.names[Store(d.path)] in inodes
  }

  function Listing(children: seq<Dir>, f: Files, inodes: set<Ino>): (r: seq<Dir>)
    ensures |r| <= |children|
    ensures forall d :: d in r ==> d in children
  {
    if children == [] then []
    else (if Skips(children[0], f, inodes) then [] else [children[0]]) + Listing(children[1..], f, inodes)
  }

  lemma ListingStep(children: seq<Dir>, i: nat, f: Files, inodes: set<Ino>)
    requires i < |children|
    ensures Listing(children[i..], f, inodes) ==
            (if Skips(children[i], f, inodes) then [] else [children[i]]) + Listing(children[i + 1..], f, inodes)
  {
    assert children[i..][1..] == children[i + 1..];
  }

  lemma ListingNothing(children: seq<Dir>, f: Files, inodes: set<Ino>)
    ensures Listing(children[|children|..], f, inodes) == []
  {
  }

  function Visit(s: Pass, d: Dir, captured: Captures, sha: Sha): Pass
    decreases d, if d.Folder? then |d.children| + 2 else 0
  {
    match d
    case File(path) => VisitFile(s, path, captured, sha)
    case Folder(children) =>
      var names := Listing(children, s.f, s.inodes);
      VisitAll(s, d, names, captured, sha)
  }

  /** The children of `parent` in order, stopping at the first exception. */
  function VisitAll(s: Pass, parent: Dir, names: seq<Dir>, captured: Captures, sha: Sha): Pass
    requires parent.Folder? && forall d :: d in names ==> d in parent.children
    decreases parent, |names| + 1
  {
    if names == [] || s.threw then s
    else
      assert names[0] in names && names[0] in parent.children;
      VisitAll(Visit(s, names[0], captured, sha), parent, names[1..], captured, sha)
  }

  // --------------------------------------------------------- what a pass keeps

  predicate Eligible(t: Leaf) {
    t.Regular? ==> |t.contents| > 0
  }

  /** A name shares the inode its content is farmed under. */
  predicate Shares(f: Files, path: Path, sha: Sha) {
    var node := NodeAt(f, Store(path));
    node.Some? && Farm(Key(node.value, sha)) in f.names &&
    f.names[Store(path)] == f.names[Farm(Key(node.value, sha))]
  }

  ghost predicate Tidy(s: Pass, sha: Sha) {
    Counted(s.f) && FarmOk(s.f, sha) && CollisionFree(s.f.nodes.Values, sha) && !s.threw &&
    (forall ino :: ino in s.inodes && ino in s.f.nodes ==> exists k :: Farm(k) in s.f.names && s.f.names[Farm(k)] == ino) &&
    (forall id: nat :: id >= s.next ==> Temp(id) !in s.f.names)
  }

  /** The store names that lead elsewhere afterwards. */
  ghost function Relocated(f: Files, g: Files): set<Name> {
    set n | n in f.names && n.Store? && n in g.names && g.names[n] != f.names[n]
  }

  /** The counter of replacements grew by the names replaced. */
  ghost predicate Tallied(s: Pass, t: Pass) {
    t.linked == s.linked + |Relocated(s.f, t.f)|
  }

  /** From one state of the pass to a later one: no node changes behind any name, the
      farm only gains entries, a name that moves moves onto its farm inode, and each such
      move is counted once. */
  ghost predicate Progress(s: Pass, t: Pass, sha: Sha) {
    s.f.nodes == t.f.nodes && s.inodes <= t.inodes && Tallied(s, t) &&
    (forall p: Path :: NodeAt(t.f, Store(p)) == NodeAt(s.f, Store(p))) &&
    (forall p: Path :: (Store(p) in s.f.names <==> Store(p) in t.f.names)) &&
    (forall k :: Farm(k) in s.f.names ==> Farm(k) in t.f.names && t.f.names[Farm(k)] == s.f.names[Farm(k)]) &&
    (forall p: Path :: Store(p) in s.f.names && t.f.names[Store(p)] != s.f.names[Store(p)] ==>
      Shares(t.f, p, sha) && Eligible(NodeAt(s.f, Store(p)).value))
  }

  /** A name on its farm inode does not move again. */
  lemma MovesOnce(s: Pass, t: Pass, u: Pass, n: Name, sha: Sha)
    requires Progress(s, t, sha) && Progress(t, u, sha)
    ensures n in Relocated(s.f, u.f) <==> n in Relocated(s.f, t.f) || n in Relocated(t.f, u.f)
    ensures !(n in Relocated(s.f, t.f) && n in Relocated(t.f, u.f))
  {
    hide Key, Tallied;
    if n.Store? {
      assert n == Store(n.path);
      hide Relocated;
      RelocatedIs(s.f, t.f, n);
      RelocatedIs(t.f, u.f, n);
      RelocatedIs(s.f, u.f, n);
    }
  }

  lemma RelocatedIs(f: Files, g: Files, n: Name)
    ensures n in Relocated(f, g) <==> n in f.names && n.Store? && n in g.names && g.names[n] != f.names[n]
  {
  }

  lemma DisjointSum<T>(a: set<T>, b: set<T>, c: set<T>)
    requires forall x :: x in c <==> x in a || x in b
    requires forall x :: !(x in a && x in b)
    ensures |c| == |a| + |b|
  {
    assert c == a + b && a !! b;
  }

  lemma TalliesAdd(s: Pass, t: Pass, u: Pass, sha: Sha)
    requires Progress(s, t, sha) && Progress(t, u, sha)
    ensures Tallied(s, u)
  {
    assert Tallied(s, t) && Tallied(t, u);
    hide Progress, Relocated;
    forall n
      ensures n in Relocated(s.f, u.f) <==> n in Relocated(s.f, t.f) || n in Relocated(t.f, u.f)
      ensures !(n in Relocated(s.f, t.f) && n in Relocated(t.f, u.f))
    {
      MovesOnce(s, t, u, n, sha);
    }
    DisjointSum(Relocated(s.f, t.f), Relocated(t.f, u.f), Relocated(s.f, u.f));
  }

  lemma ProgressChains(s: Pass, t: Pass, u: Pass, sha: Sha)
    requires Progress(s, t, sha) && Progress(t, u, sha)
    ensures Progress(s, u, sha)
  {
    hide Key;
    TalliesAdd(s, t, u, sha);
    hide Tallied;
    forall p: Path | Store(p) in s.f.names && u.f.names[Store(p)] != s.f.names[Store(p)]
      ensures Shares(u.f, p, sha) && Eligible(NodeAt(s.f, Store(p)).value)
    {
      if t.f.names[Store(p)] == u.f.names[Store(p)] {
        assert Shares(t.f, p, sha);
      }
    }
  }

  lemma SharesStays(s: Pass, t: Pass, p: Path, sha: Sha)
    requires Progress(s, t, sha) && Shares(s.f, p, sha)
    ensures Shares(t.f, p, sha)
  {
    hide Key;
  }

  /** A farm inode has one key: its node's. */
  lemma FarmedShares(s: Pass, p: Path, sha: Sha)
    requires Tidy(s, sha) && Store(p) in s.f.names && s.f.names[Store(p)] in s.inodes
    ensures Shares(s.f, p, sha)
  {
    hide Key;
    var ino := s.f.names[Store(p)];
    var k :| Farm(k) in s.f.names && s.f.names[Farm(k)] == ino;
    assert KeyAt(s.f, Farm(k), sha) == Some(k);
  }

  // ---------------------------------------------------------------- one file

  lemma AloneStep(f: Files, inodes: set<Ino>, t: Task, id: nat, sha: Sha)
    requires Rank(t) > 0
    ensures var (g, more, u) := Act(f, inodes, t, id, NoFault, sha);
      Alone(f, inodes, t, id, sha) == Alone(g, more, u, id, sha)
  {
    hide Act;
  }

  /** Captured digests are those of the nodes still there. */
  ghost predicate CapturedOk(f: Files, captured: Captures, sha: Sha) {
    forall p: Path :: captured(p).Some? && NodeAt(f, Store(p)).Some? ==>
      captured(p).value == sha(Dump(NodeAt(f, Store(p)).value))
  }

  /** `p` taken over by the inode its content is farmed under. */
  function Relinked(f: Files, p: Path, k: string, id: nat): Files {
    match Link(f, Farm(k), Temp(id))
    case Failure(_) => f
    case Success(g) =>
      match Rename(g, Temp(id), Store(p))
      case Success(h) => h
      case Failure(_) => g
  }

  /** What an undisturbed task comes to: publish the first of its content, replace any
      other, leave alone what is empty or shares already. */
  function Settled(f: Files, inodes: set<Ino>, p: Path, id: nat, sha: Sha): Outcome
    requires NodeAt(f, Store(p)).Some?
  {
    var node := NodeAt(f, Store(p)).value;
    var k := Key(node, sha);
    if !Eligible(node) || Shares(f, p, sha) then (f, inodes, Ended(false))
    else if Farm(k) !in f.names then
      (Link(f, Store(p), Farm(k)).value, inodes + {f.names[Store(p)]}, Ended(false))
    else (Relinked(f, p, k, id), inodes, Ended(true))
  }

  lemma PublishAlone(s: Pass, p: Path, hash: Hash, st: Stat, sha: Sha)
    requires Lstat(s.f, Store(p)) == Some(st) && Farm(Nix32.Encoded(hash)) !in s.f.names
    ensures Alone(s.f, s.inodes, Probe(p, hash, st), s.next, sha) ==
            (Link(s.f, Store(p), Farm(Nix32.Encoded(hash))).value, s.inodes + {st.ino}, Ended(false))
  {
    hide Dump, Nix32.Encoded, Alone, Bump;
    var g := Link(s.f, Store(p), Farm(Nix32.Encoded(hash))).value;
    AloneStep(s.f, s.inodes, Probe(p, hash, st), s.next, sha);
    AloneStep(s.f, s.inodes, Publish(p, hash, st), s.next, sha);
    AloneEnds(g, s.inodes + {st.ino}, Ended(false), s.next, sha);
  }

  lemma SwapAlone(s: Pass, p: Path, hash: Hash, sha: Sha)
    requires Farm(Nix32.Encoded(hash)) in s.f.names && Temp(s.next) !in s.f.names
    ensures Alone(s.f, s.inodes, Fetch(p, hash, false), s.next, sha) ==
            (Relinked(s.f, p, Nix32.Encoded(hash), s.next), s.inodes, Ended(true))
  {
    hide Dump, Nix32.Encoded, Alone, Bump, Moved;
    var g := Link(s.f, Farm(Nix32.Encoded(hash)), Temp(s.next)).value;
    AloneStep(s.f, s.inodes, Fetch(p, hash, false), s.next, sha);
    AloneStep(g, s.inodes, Replace(p, hash, false), s.next, sha);
    AloneEnds(Relinked(s.f, p, Nix32.Encoded(hash), s.next), s.inodes, Ended(true), s.next, sha);
  }

  lemma CompareAlone(s: Pass, p: Path, hash: Hash, st: Stat, sha: Sha)
    requires Lstat(s.f, FarmOf(hash)).Some? && Lstat(s.f, FarmOf(hash)).value.size == st.size
    ensures Alone(s.f, s.inodes, Probe(p, hash, st), s.next, sha) ==
            if Lstat(s.f, FarmOf(hash)).value.ino == st.ino then (s.f, s.inodes, Ended(false))
            else Alone(s.f, s.inodes, Fetch(p, hash, false), s.next, sha)
  {
    hide Dump, Nix32.Encoded, Alone, Lstat;
    AloneStep(s.f, s.inodes, Probe(p, hash, st), s.next, sha);
    AloneEnds(s.f, s.inodes, Ended(false), s.next, sha);
  }

  lemma ProbeAlone(s: Pass, p: Path, sha: Sha)
    requires Tidy(s, sha) && NodeAt(s.f, Store(p)).Some? && Eligible(NodeAt(s.f, Store(p)).value)
    ensures Lstat(s.f, Store(p)).Some?
    ensures var hash, st := sha(Dump(NodeAt(s.f, Store(p)).value)), Lstat(s.f, Store(p)).value;
      Alone(s.f, s.inodes, Probe(p, hash, st), s.next, sha) == Settled(s.f, s.inodes, p, s.next, sha)
  {
    hide Dump, Nix32.Encoded, Alone, Relinked, Link, FarmOk, CollisionFree;
    var node, st := NodeAt(s.f, Store(p)).value, Lstat(s.f, Store(p)).value;
    var hash := sha(Dump(node));
    var k := Nix32.Encoded(hash);
    if Farm(k) !in s.f.names {
      PublishAlone(s, p, hash, st, sha);
    } else {
      FarmNode(s, p, k, sha);
      CompareAlone(s, p, hash, st, sha);
      SwapAlone(s, p, hash, sha);
    }
  }

  lemma AloneEnds(f: Files, inodes: set<Ino>, t: Task, id: nat, sha: Sha)
    requires Rank(t) == 0
    ensures Alone(f, inodes, t, id, sha) == (f, inodes, t)
  {
  }

  /** A farm entry under a node's key leads to that very node. */
  lemma FarmNode(s: Pass, p: Path, k: string, sha: Sha)
    requires Tidy(s, sha) && NodeAt(s.f, Store(p)).Some? && Farm(k) in s.f.names
    requires k == Key(NodeAt(s.f, Store(p)).value, sha)
    ensures NodeAt(s.f, Farm(k)) == NodeAt(s.f, Store(p))
    ensures Lstat(s.f, Farm(k)).Some? && Lstat(s.f, Farm(k)).value.ino == s.f.names[Farm(k)]
    ensures Lstat(s.f, Farm(k)).value.size == Size(NodeAt(s.f, Store(p)).value)
  {
    hide Key, CollisionFree, Dump;
    assert KeyAt(s.f, Farm(k), sha) == Some(k);
    SameDigestSameNode(NodeAt(s.f, Farm(k)).value, NodeAt(s.f, Store(p)).value, s.f.nodes.Values, sha);
  }

  lemma FileAlone(s: Pass, p: Path, captured: Captures, sha: Sha)
    requires Tidy(s, sha) && Store(p) in s.f.names && CapturedOk(s.f, captured, sha)
    ensures NodeAt(s.f, Store(p)).Some?
    ensures Alone(s.f, s.inodes, Inspect(p, captured(p)), s.next, sha) == Settled(s.f, s.inodes, p, s.next, sha)
  {
    hide Dump, Nix32.Encoded, Alone, CapturedOk, Key, Settled, Shares;
    var node, st := NodeAt(s.f, Store(p)).value, Lstat(s.f, Store(p)).value;
    AloneStep(s.f, s.inodes, Inspect(p, captured(p)), s.next, sha);
    if !Eligible(node) {
      SettledIdle(s, p, sha);
      AloneEnds(s.f, s.inodes, Ended(false), s.next, sha);
    } else if st.nlink > 1 && st.ino in s.inodes {
      FarmedShares(s, p, sha);
      SettledIdle(s, p, sha);
      AloneEnds(s.f, s.inodes, Ended(false), s.next, sha);
    } else {
      ProbeAlone(s, p, sha);
      if captured(p).Some? {
        CapturedAt(s.f, captured, p, sha);
      } else {
        AloneStep(s.f, s.inodes, Digest(p, st), s.next, sha);
      }
    }
  }

  lemma CapturedAt(f: Files, captured: Captures, p: Path, sha: Sha)
    requires CapturedOk(f, captured, sha) && captured(p).Some? && NodeAt(f, Store(p)).Some?
    ensures captured(p).value == sha(Dump(NodeAt(f, Store(p)).value))
  {
  }

  lemma SettledIdle(s: Pass, p: Path, sha: Sha)
    requires NodeAt(s.f, Store(p)).Some?
    requires !Eligible(NodeAt(s.f, Store(p)).value) || Shares(s.f, p, sha)
    ensures Settled(s.f, s.inodes, p, s.next, sha) == (s.f, s.inodes, Ended(false))
  {
  }

  // ------------------------------------------------- what one file comes to

  lemma FarmedStays(f: Files, g: Files, inodes: set<Ino>, ino: Ino, k: string)
    requires forall i :: i in inodes && i in f.nodes ==> exists k' :: Farm(k') in f.names && f.names[Farm(k')] == i
    requires g.names == f.names[Farm(k) := ino] && g.nodes == f.nodes && Farm(k) !in f.names
    ensures forall i :: i in inodes + {ino} && i in g.nodes ==> exists k' :: Farm(k') in g.names && g.names[Farm(k')] == i
  {
    forall i | i in inodes + {ino} && i in g.nodes ensures exists k' :: Farm(k') in g.names && g.names[Farm(k')] == i {
      if i == ino {
        assert g.names[Farm(k)] == i;
      } else {
        var k' :| Farm(k') in f.names && f.names[Farm(k')] == i;
        assert g.names[Farm(k')] == i;
      }
    }
  }

  lemma PublishTidy(s: Pass, p: Path, k: string, sha: Sha)
    requires Tidy(s, sha) && Store(p) in s.f.names && k == Key(s.f.nodes[s.f.names[Store(p)]], sha)
    requires Farm(k) !in s.f.names
    ensures Tidy(Pass(Link(s.f, Store(p), Farm(k)).value, s.inodes + {s.f.names[Store(p)]}, s.next + 1, s.linked, false), sha)
  {
    hide Key, CollisionFree, Counted, FarmOk;
    var g := Link(s.f, Store(p), Farm(k)).value;
    LinkCounts(s.f, Store(p), Farm(k));
    NodeKey(s.f, Store(p), sha);
    GentleLink(s.f, s.next, Store(p), Farm(k), sha);
    FarmedStays(s.f, g, s.inodes, s.f.names[Store(p)], k);
  }

  lemma NodeKey(f: Files, n: Name, sha: Sha)
    requires Counted(f) && n in f.names
    ensures f.names[n] in f.nodes && KeyAt(f, n, sha) == Some(Key(f.nodes[f.names[n]], sha))
  {
  }

  lemma LinkShares(f: Files, g: Files, p: Path, k: string, sha: Sha)
    requires NodeAt(f, Store(p)).Some? && k == Key(NodeAt(f, Store(p)).value, sha)
    requires g.nodes == f.nodes && g.names == f.names[Farm(k) := f.names[Store(p)]]
    ensures Shares(g, p, sha)
    ensures forall q: Path :: NodeAt(g, Store(q)) == NodeAt(f, Store(q))
  {
    hide Key;
    assert NodeAt(g, Store(p)) == NodeAt(f, Store(p));
  }

  lemma PublishProgress(s: Pass, p: Path, k: string, sha: Sha)
    requires Tidy(s, sha) && Store(p) in s.f.names && k == Key(s.f.nodes[s.f.names[Store(p)]], sha)
    requires Farm(k) !in s.f.names
    ensures var t := Pass(Link(s.f, Store(p), Farm(k)).value, s.inodes + {s.f.names[Store(p)]}, s.next + 1, s.linked, false);
      Tidy(t, sha) && Progress(s, t, sha) && Shares(t.f, p, sha)
  {
    hide Key, CollisionFree, FarmOk, Tidy, Counted, Shares, NodeAt;
    PublishTidy(s, p, k, sha);
    TidyNode(s, p, sha);
    NodeAtIs(s.f, Store(p));
    LinkShares(s.f, Link(s.f, Store(p), Farm(k)).value, p, k, sha);
    assert Relocated(s.f, Link(s.f, Store(p), Farm(k)).value) == {};
  }

  lemma NodeAtIs(f: Files, n: Name)
    requires n in f.names && f.names[n] in f.nodes
    ensures NodeAt(f, n) == Some(f.nodes[f.names[n]])
  {
  }

  lemma TidyTable(s: Pass, sha: Sha)
    requires Tidy(s, sha)
    ensures Counted(s.f) && Temp(s.next) !in s.f.names
  {
  }

  lemma MovedIsUpdate(names: map<Name, Ino>, temp: Name, to: Name, ino: Ino)
    requires temp !in names && temp != to
    ensures Moved(names[temp := ino], temp, to) == names[to := ino]
  {
  }

  lemma RelinkedNames(s: Pass, p: Path, k: string, sha: Sha)
    requires Tidy(s, sha) && Store(p) in s.f.names && Farm(k) in s.f.names
    requires s.f.names[Store(p)] != s.f.names[Farm(k)]
    ensures var g := Relinked(s.f, p, k, s.next);
      Counted(g) && g.nodes == s.f.nodes && g.names == s.f.names[Store(p) := s.f.names[Farm(k)]]
  {
    hide Counted, FarmOk, CollisionFree, Tidy, Moved, Bump;
    TidyTable(s, sha);
    var g := Link(s.f, Farm(k), Temp(s.next)).value;
    LinkCounts(s.f, Farm(k), Temp(s.next));
    RenameCounts(g, Temp(s.next), Store(p));
    MovedIsUpdate(s.f.names, Temp(s.next), Store(p), s.f.names[Farm(k)]);
  }

  lemma RelinkTidy(s: Pass, t: Pass, p: Path, k: string, sha: Sha)
    requires Tidy(s, sha) && Farm(k) in s.f.names
    requires Counted(t.f) && t.f.nodes == s.f.nodes && t.f.names == s.f.names[Store(p) := s.f.names[Farm(k)]]
    requires t.inodes == s.inodes && t.next == s.next + 1 && !t.threw
    ensures Tidy(t, sha)
  {
    hide Key, CollisionFree, Counted;
    forall i | i in t.inodes && i in t.f.nodes ensures exists k' :: Farm(k') in t.f.names && t.f.names[Farm(k')] == i {
      var k' :| Farm(k') in s.f.names && s.f.names[Farm(k')] == i;
      assert t.f.names[Farm(k')] == i;
    }
    forall k' | Farm(k') in t.f.names ensures KeyAt(t.f, Farm(k'), sha) == Some(k') {
      assert KeyAt(s.f, Farm(k'), sha) == Some(k');
    }
  }

  lemma RelinkShares(s: Pass, t: Pass, p: Path, k: string, sha: Sha)
    requires Store(p) in s.f.names && Farm(k) in s.f.names && NodeAt(s.f, Store(p)).Some?
    requires k == Key(NodeAt(s.f, Store(p)).value, sha) && NodeAt(s.f, Farm(k)) == NodeAt(s.f, Store(p))
    requires t.f.nodes == s.f.nodes && t.f.names == s.f.names[Store(p) := s.f.names[Farm(k)]]
    requires Eligible(NodeAt(s.f, Store(p)).value) && t.inodes == s.inodes && t.linked == s.linked + 1
    requires s.f.names[Store(p)] != s.f.names[Farm(k)]
    ensures Progress(s, t, sha) && Shares(t.f, p, sha)
  {
    hide Key;
    assert Relocated(s.f, t.f) == {Store(p)};
    assert NodeAt(t.f, Store(p)) == NodeAt(s.f, Store(p));
  }

  lemma RelinkProgress(s: Pass, p: Path, k: string, sha: Sha)
    requires Tidy(s, sha) && Store(p) in s.f.names && k == Key(s.f.nodes[s.f.names[Store(p)]], sha)
    requires Farm(k) in s.f.names && s.f.names[Store(p)] != s.f.names[Farm(k)]
    requires Eligible(s.f.nodes[s.f.names[Store(p)]])
    ensures var t := Pass(Relinked(s.f, p, k, s.next), s.inodes, s.next + 1, s.linked + 1, false);
      Tidy(t, sha) && Progress(s, t, sha) && Shares(t.f, p, sha)
  {
    hide Key, CollisionFree, Relinked, Progress, Shares, FarmOk;
    var t := Pass(Relinked(s.f, p, k, s.next), s.inodes, s.next + 1, s.linked + 1, false);
    FarmNode(s, p, k, sha);
    RelinkedNames(s, p, k, sha);
    RelinkTidy(s, t, p, k, sha);
    RelinkShares(s, t, p, k, sha);
  }

  /** One file: nothing is lost, and the file ends on its farm inode unless it is empty. */
  lemma FileConverges(s: Pass, p: Path, captured: Captures, sha: Sha)
    requires Tidy(s, sha) && Store(p) in s.f.names && CapturedOk(s.f, captured, sha)
    ensures var t := VisitFile(s, p, captured, sha);
      Tidy(t, sha) && Progress(s, t, sha) && (Eligible(s.f.nodes[s.f.names[Store(p)]]) ==> Shares(t.f, p, sha))
  {
    hide Key, Alone, Relinked, Shares, Progress, Tidy, CapturedOk;
    FileAlone(s, p, captured, sha);
    var node := NodeAt(s.f, Store(p)).value;
    if !Eligible(node) || Shares(s.f, p, sha) {
      SettledIdle(s, p, sha);
      ProgressIdle(s, VisitFile(s, p, captured, sha), sha);
    } else {
      NotShared(s, p, sha);
      if Farm(Key(node, sha)) !in s.f.names {
        PublishProgress(s, p, Key(node, sha), sha);
      } else {
        RelinkProgress(s, p, Key(node, sha), sha);
      }
    }
  }

  lemma NotShared(s: Pass, p: Path, sha: Sha)
    requires NodeAt(s.f, Store(p)).Some? && !Shares(s.f, p, sha)
    ensures Farm(Key(NodeAt(s.f, Store(p)).value, sha)) in s.f.names ==>
              s.f.names[Store(p)] != s.f.names[Farm(Key(NodeAt(s.f, Store(p)).value, sha))]
  {
    hide Key;
  }

  lemma CapturedStays(s: Pass, t: Pass, captured: Captures, sha: Sha)
    requires Progress(s, t, sha) && CapturedOk(s.f, captured, sha)
    ensures CapturedOk(t.f, captured, sha)
  {
    hide Dump, Shares;
  }

  // ---------------------------------------------------------- the whole walk

  ghost predicate Present(d: Dir, f: Files) {
    match d
    case File(path) => Store(path) in f.names
    case Folder(children) => forall i :: 0 <= i < |children| ==> Present(children[i], f)
  }

  /** Every file with something in it is on its farm inode. */
  ghost predicate Converged(d: Dir, f: Files, sha: Sha) {
    match d
    case File(path) => NodeAt(f, Store(path)).Some? && (Eligible(NodeAt(f, Store(path)).value) ==> Shares(f, path, sha))
    case Folder(children) => forall i :: 0 <= i < |children| ==> Converged(children[i], f, sha)
  }

  lemma {:induction false} PresentStays(d: Dir, s: Pass, t: Pass, sha: Sha)
    requires Progress(s, t, sha) && Present(d, s.f)
    ensures Present(d, t.f)
  {
    hide Progress;
    match d
    case File(path) => StoreNamesStay(s, t, path, sha);
    case Folder(children) =>
      forall i | 0 <= i < |children| ensures Present(children[i], t.f) {
        PresentStays(children[i], s, t, sha);
      }
  }

  lemma StoreNamesStay(s: Pass, t: Pass, p: Path, sha: Sha)
    requires Progress(s, t, sha)
    ensures Store(p) in s.f.names <==> Store(p) in t.f.names
    ensures NodeAt(t.f, Store(p)) == NodeAt(s.f, Store(p))
  {
    hide Shares;
  }

  lemma {:induction false} ConvergedStays(d: Dir, s: Pass, t: Pass, sha: Sha)
    requires Progress(s, t, sha) && Converged(d, s.f, sha)
    ensures Converged(d, t.f, sha)
  {
    hide Progress, Shares;
    match d
    case File(path) =>
      StoreNamesStay(s, t, path, sha);
      if Shares(s.f, path, sha) {
        SharesStays(s, t, path, sha);
      }
    case Folder(children) =>
      forall i | 0 <= i < |children| ensures Converged(children[i], t.f, sha) {
        ConvergedStays(children[i], s, t, sha);
      }
  }

  /** A child the listing leaves out is on a farm inode already. */
  lemma {:induction false} SkippedConverged(children: seq<Dir>, s: Pass, sha: Sha, i: nat)
    requires Tidy(s, sha) && i < |children| && Present(children[i], s.f)
    ensures children[i] in Listing(children, s.f, s.inodes) || Converged(children[i], s.f, sha)
  {
    hide Shares, CollisionFree, FarmOk;
    if i > 0 {
      SkippedConverged(children[1..], s, sha, i - 1);
    } else if Skips(children[0], s.f, s.inodes) {
      FarmedShares(s, children[0].path, sha);
      SharesNode(s, children[0].path, sha);
    }
  }

  lemma SharesNode(s: Pass, p: Path, sha: Sha)
    requires Shares(s.f, p, sha)
    ensures NodeAt(s.f, Store(p)).Some?
  {
  }

  lemma {:induction false} VisitConverges(s: Pass, d: Dir, captured: Captures, sha: Sha)
    requires Tidy(s, sha) && Present(d, s.f) && CapturedOk(s.f, captured, sha)
    ensures var t := Visit(s, d, captured, sha);
      Tidy(t, sha) && Progress(s, t, sha) && Converged(d, t.f, sha)
    decreases d, if d.Folder? then |d.children| + 2 else 0
  {
    hide Tidy, Progress, Shares, VisitFile, CapturedOk, Listing;
    var t := Visit(s, d, captured, sha);
    match d
    case File(path) =>
      TidyNode(s, path, sha);
      FileConverges(s, path, captured, sha);
      StoreNamesStay(s, t, path, sha);
    case Folder(children) =>
      var names := Listing(children, s.f, s.inodes);
      VisitAllConverges(s, d, names, captured, sha);
      forall i | 0 <= i < |children| ensures Converged(children[i], t.f, sha) {
        SkippedConverged(children, s, sha, i);
        if Converged(children[i], s.f, sha) {
          ConvergedStays(children[i], s, t, sha);
        }
      }
  }

  lemma TidyNode(s: Pass, p: Path, sha: Sha)
    requires Tidy(s, sha) && Store(p) in s.f.names
    ensures s.f.names[Store(p)] in s.f.nodes && NodeAt(s.f, Store(p)).Some?
  {
  }

  lemma {:induction false} VisitAllConverges(s: Pass, parent: Dir, names: seq<Dir>, captured: Captures, sha: Sha)
    requires parent.Folder? && (forall d :: d in names ==> d in parent.children)
    requires Tidy(s, sha) && Present(parent, s.f) && CapturedOk(s.f, captured, sha)
    ensures var t := VisitAll(s, parent, names, captured, sha);
      Tidy(t, sha) && Progress(s, t, sha) && forall d :: d in names ==> Converged(d, t.f, sha)
    decreases parent, |names| + 1
  {
    hide Tidy, Progress, Shares, VisitFile, Visit, CapturedOk, Converged;
    NotThrown(s, sha);
    if names == [] {
      ProgressNone(s, sha);
    } else {
      assert names[0] in names && names[0] in parent.children;
      var t := Visit(s, names[0], captured, sha);
      VisitConverges(s, names[0], captured, sha);
      PresentStays(parent, s, t, sha);
      CapturedStays(s, t, captured, sha);
      VisitAllConverges(t, parent, names[1..], captured, sha);
      var u := VisitAll(t, parent, names[1..], captured, sha);
      ProgressChains(s, t, u, sha);
      ConvergedStays(names[0], t, u, sha);
      forall d | d in names ensures Converged(d, u.f, sha) {
        assert d == names[0] || d in names[1..];
      }
    }
  }

  lemma NotThrown(s: Pass, sha: Sha)
    requires Tidy(s, sha)
    ensures !s.threw
  {
  }

  lemma ProgressIdle(s: Pass, t: Pass, sha: Sha)
    requires t.f == s.f && t.inodes == s.inodes && t.linked == s.linked
    ensures Progress(s, t, sha)
    ensures Tidy(s, sha) && t.next >= s.next && !t.threw ==> Tidy(t, sha)
  {
    hide Counted, FarmOk, CollisionFree;
    assert Relocated(s.f, t.f) == {};
  }

  lemma ProgressNone(s: Pass, sha: Sha)
    ensures Progress(s, s, sha)
  {
    assert Relocated(s.f, s.f) == {};
  }

  // --------------------------------------------------------- the whole store

  /** Store paths one after the other, stopping at the first exception. */
  function VisitRoots(s: Pass, roots: seq<Dir>, captured: Captures, sha: Sha): Pass
    decreases |roots|
  {
    if roots == [] || s.threw then s
    else VisitRoots(Visit(s, roots[0], captured, sha), roots[1..], captured, sha)
  }

  /** loadInodeHash: whatever inode any farm name leads to. */
  function FarmInodes(f: Files): set<Ino> {
    set n | n in f.names && n.Farm? :: f.names[n]
  }

  /** Where a pass may start. `others` are the inodes of what else is in the links
      directory: its own, its parent's, and whatever somebody put there. None of them is
      a file of the store or of the farm. */
  ghost predicate Ready(f: Files, next: nat, others: set<Ino>, sha: Sha) {
    Counted(f) && FarmOk(f, sha) && CollisionFree(f.nodes.Values, sha) && others !! f.nodes.Keys &&
    forall id: nat :: id >= next ==> Temp(id) !in f.names
  }

  lemma LoadedIsTidy(f: Files, next: nat, others: set<Ino>, sha: Sha)
    requires Ready(f, next, others, sha)
    ensures Tidy(Pass(f, FarmInodes(f) + others, next, 0, false), sha)
  {
    hide Counted, FarmOk, CollisionFree;
  }

  /** The protocol keeps the store ready for a pass, whenever its tasks stop. */
  lemma SoundIsReady(s: Sys, next: nat, others: set<Ino>, sha: Sha)
    requires LinkFarm.Inv(s, sha) && CollisionFree(s.f.nodes.Values, sha)
    requires others !! s.f.nodes.Keys && next >= |s.tasks|
    ensures Ready(s.f, next, others, sha)
  {
    hide FarmOk, StoreOk, CollisionFree, Counted;
  }

  /** And a pass may hand over to the protocol again. */
  lemma TidyIsSound(s: Pass, sha: Sha)
    requires Tidy(s, sha) && forall id: nat :: Temp(id) !in s.f.names
    ensures LinkFarm.Inv(Quiet(s.f, s.inodes), sha)
  {
    hide CollisionFree, LinkFarm.Inv, FarmOk;
    QuietIsSound(s.f, s.inodes, sha);
  }

  /** A pass over the store converges: no node behind a store name changes, and every
      non-empty file of every path ends on its farm inode. */
  lemma {:induction false} PassConverges(s: Pass, roots: seq<Dir>, captured: Captures, sha: Sha)
    requires Tidy(s, sha) && CapturedOk(s.f, captured, sha)
    requires forall i :: 0 <= i < |roots| ==> Present(roots[i], s.f)
    ensures var t := VisitRoots(s, roots, captured, sha);
      Tidy(t, sha) && Progress(s, t, sha) && forall i :: 0 <= i < |roots| ==> Converged(roots[i], t.f, sha)
    decreases |roots|
  {
    hide Tidy, Progress, Present, Converged, Visit, CapturedOk;
    NotThrown(s, sha);
    if roots == [] {
      ProgressNone(s, sha);
    } else {
      var t := Visit(s, roots[0], captured, sha);
      VisitConverges(s, roots[0], captured, sha);
      CapturedStays(s, t, captured, sha);
      forall i | 0 <= i < |roots[1..]| ensures Present(roots[1..][i], t.f) {
        PresentStays(roots[i + 1], s, t, sha);
      }
      PassConverges(t, roots[1..], captured, sha);
      var u := VisitRoots(t, roots[1..], captured, sha);
      ProgressChains(s, t, u, sha);
      ConvergedStays(roots[0], t, u, sha);
      forall i | 0 <= i < |roots| ensures Converged(roots[i], u.f, sha) {
        if i > 0 {
          assert roots[i] == roots[1..][i - 1];
        }
      }
    }
  }

  lemma {:induction false} HeldShares(d: Dir, p: Path, f: Files, sha: Sha)
    requires Converged(d, f, sha) && Holds(d, p)
    ensures NodeAt(f, Store(p)).Some?
    ensures Eligible(NodeAt(f, Store(p)).value) ==> Shares(f, p, sha)
  {
    hide Shares;
    if d.Folder? {
      var i :| 0 <= i < |d.children| && Holds(d.children[i], p);
      HeldShares(d.children[i], p, f, sha);
    }
  }

  /** After the pass, nodes of equal digest share one inode, the farm's, wherever in the
      store they are. */
  lemma EqualDigestsShareOneInode(d: Dir, e: Dir, p: Path, q: Path, f: Files, sha: Sha)
    requires Converged(d, f, sha) && Converged(e, f, sha) && Holds(d, p) && Holds(e, q)
    requires NodeAt(f, Store(p)).Some? && NodeAt(f, Store(q)).Some?
    requires Eligible(NodeAt(f, Store(p)).value) && Eligible(NodeAt(f, Store(q)).value)
    requires sha(Dump(NodeAt(f, Store(p)).value)) == sha(Dump(NodeAt(f, Store(q)).value))
    ensures f.names[Store(p)] == f.names[Store(q)]
    ensures var k := Key(NodeAt(f, Store(p)).value, sha);
      Farm(k) in f.names && f.names[Farm(k)] == f.names[Store(p)]
  {
    hide Converged, Holds, Dump, Nix32.Encoded;
    HeldShares(d, p, f, sha);
    HeldShares(e, q, f, sha);
  }

  /** The inode set never contains an inode the pass replaced, so later files on that
      inode are still deduplicated. */
  lemma ReplacedNotInSet(s: Pass, t: Pass, p: Path, sha: Sha)
    requires Tidy(t, sha) && Progress(s, t, sha) && Counted(s.f)
    requires Store(p) in s.f.names && t.f.names[Store(p)] != s.f.names[Store(p)]
    ensures s.f.names[Store(p)] !in t.inodes
  {
    hide Key, CollisionFree;
    var ino := s.f.names[Store(p)];
    assert Shares(t.f, p, sha) && NodeAt(t.f, Store(p)) == NodeAt(s.f, Store(p));
    forall k | Farm(k) in t.f.names ensures t.f.names[Farm(k)] != ino {
      assert KeyAt(t.f, Farm(k), sha) == Some(k);
    }
  }

  lemma FileIdle(s: Pass, p: Path, captured: Captures, sha: Sha)
    requires Tidy(s, sha) && Store(p) in s.f.names && CapturedOk(s.f, captured, sha)
    requires Converged(File(p), s.f, sha)
    ensures VisitFile(s, p, captured, sha) == s.(next := s.next + 1)
  {
    hide Key, Alone, Relinked, Shares, CollisionFree;
    FileAlone(s, p, captured, sha);
    SettledIdle(s, p, sha);
  }

  lemma NextTidy(s: Pass, n: nat, sha: Sha)
    requires Tidy(s, sha) && n >= s.next
    ensures Tidy(s.(next := n), sha)
  {
    hide Counted, FarmOk, CollisionFree;
  }

  lemma {:induction false} VisitIdle(s: Pass, d: Dir, captured: Captures, sha: Sha)
    requires Tidy(s, sha) && Present(d, s.f) && CapturedOk(s.f, captured, sha) && Converged(d, s.f, sha)
    ensures var t := Visit(s, d, captured, sha); t.next >= s.next && t == s.(next := t.next)
    decreases d, if d.Folder? then |d.children| + 2 else 0
  {
    hide Tidy, VisitFile, CapturedOk, Listing, Shares;
    match d
    case File(path) => FileIdle(s, path, captured, sha);
    case Folder(children) => VisitAllIdle(s, d, Listing(children, s.f, s.inodes), captured, sha);
  }

  lemma {:induction false} VisitAllIdle(s: Pass, parent: Dir, names: seq<Dir>, captured: Captures, sha: Sha)
    requires parent.Folder? && (forall d :: d in names ==> d in parent.children)
    requires Tidy(s, sha) && Present(parent, s.f) && CapturedOk(s.f, captured, sha) && Converged(parent, s.f, sha)
    ensures var t := VisitAll(s, parent, names, captured, sha); t.next >= s.next && t == s.(next := t.next)
    decreases parent, |names| + 1
  {
    hide Tidy, Shares, VisitFile, Visit, CapturedOk;
    NotThrown(s, sha);
    if names != [] {
      assert names[0] in names && names[0] in parent.children;
      var t := Visit(s, names[0], captured, sha);
      VisitIdle(s, names[0], captured, sha);
      NextTidy(s, t.next, sha);
      VisitAllIdle(t, parent, names[1..], captured, sha);
    }
  }

  /** A pass over a converged store links nothing and touches nothing. */
  lemma {:induction false} SecondPassIdle(s: Pass, roots: seq<Dir>, captured: Captures, sha: Sha)
    requires Tidy(s, sha) && CapturedOk(s.f, captured, sha)
    requires forall i :: 0 <= i < |roots| ==> Present(roots[i], s.f) && Converged(roots[i], s.f, sha)
    ensures var t := VisitRoots(s, roots, captured, sha); t.next >= s.next && t == s.(next := t.next)
    decreases |roots|
  {
    hide Tidy, Present, Converged, Visit, CapturedOk;
    NotThrown(s, sha);
    if roots != [] {
      var t := Visit(s, roots[0], captured, sha);
      VisitIdle(s, roots[0], captured, sha);
      NextTidy(s, t.next, sha);
      SecondPassIdle(t, roots[1..], captured, sha);
    }
  }

  // ------------------------------------------------------------ the pass itself

  class Optimiser {
    const fs: FileSystem
    const captured: Captures
    const others: set<Ino>
    const sha: Sha
    var inodeHash: set<Ino>
    var counter: nat
    var filesLinked: nat

    ghost function Now(threw: bool): Pass
      reads this, fs
    {
      Pass(fs.Now(), inodeHash, counter, filesLinked, threw)
    }

    /** Fresh context over a file system, `counter` being the next temporary name and
        `others` the inodes of what is in the links directory besides the farm. */
    constructor (fs: FileSystem, captured: Captures, others: set<Ino>, counter: nat, sha: Sha)
      ensures this.fs == fs && this.captured == captured && this.others == others && this.sha == sha
      ensures inodeHash == {} && this.counter == counter && filesLinked == 0
    {
      this.fs, this.captured, this.others, this.sha, this.counter := fs, captured, others, sha, counter;
      inodeHash, filesLinked := {}, 0;
    }

    method LoadInodeHash()
      modifies this
      ensures inodeHash == FarmInodes(fs.Now()) + others
      ensures counter == old(counter) && filesLinked == old(filesLinked)
    {
      inodeHash := others;
      var left := fs.names.Keys;
      while left != {}
        invariant left <= fs.names.Keys
        invariant inodeHash == (set n | n in fs.names && n !in left && n.Farm? :: fs.names[n]) + others
        invariant counter == old(counter) && filesLinked == old(filesLinked)
        decreases |left|
      {
        var n :| n in left;
        left := left - {n};
        if n.Farm? {
          inodeHash := inodeHash + {fs.names[n]};
        }
      }
    }

    /** optimisePath_ on a file. */
    method OptimiseFile(path: Path) returns (threw: bool)
      requires Counted(fs.Now()) && fs as object != this
      modifies this, fs
      ensures Counted(fs.Now())
      ensures Now(threw) == VisitFile(old(Now(false)), path, captured, sha)
    {
      hide Alone, Act, Nix32.Encoded, Dump, Counted, Rename, Link, Unlink, Lstat;
      ghost var f0, inodes0, id := fs.Now(), inodeHash, counter;
      var outcome := Attempt(path, id);
      counter := counter + 1;
      if outcome == Some(true) {
        filesLinked := filesLinked + 1;
      }
      threw := outcome.None?;
    }

    /** Whether the file was replaced, or None for an exception. */
    method Attempt(path: Path, ghost id: nat) returns (outcome: Option<bool>)
      requires Counted(fs.Now()) && id == counter && fs as object != this
      modifies this`inodeHash, fs
      ensures Counted(fs.Now())
      ensures Alone(old(fs.Now()), old(inodeHash), Inspect(path, captured(path)), id, sha) ==
              (fs.Now(), inodeHash, if outcome.Some? then Ended(outcome.value) else Threw)
    {
      hide Alone, Nix32.Encoded, Dump, Counted, Rename, Link, Unlink, Lstat;
      AloneStep(fs.Now(), inodeHash, Inspect(path, captured(path)), id, sha);
      var st := fs.ReadStat(Store(path));
      if st.None? {
        AloneEnds(fs.Now(), inodeHash, Threw, id, sha);
        return None;
      }
      var stat := st.value;
      if (stat.regular && stat.size == 0) || (stat.nlink > 1 && stat.ino in inodeHash) {
        AloneEnds(fs.Now(), inodeHash, Ended(false), id, sha);
        return Some(false);
      }
      var hash := captured(path);
      if hash.None? {
        AloneStep(fs.Now(), inodeHash, Digest(path, stat), id, sha);
        var node := NodeAt(fs.Now(), Store(path));
        if node.None? {
          AloneEnds(fs.Now(), inodeHash, Threw, id, sha);
          return None;
        }
        hash := Some(sha(Dump(node.value)));
      }
      outcome := Place(path, hash.value, stat, id);
    }

    /** From the digest on. */
    method Place(path: Path, hash: Hash, st: Stat, ghost id: nat) returns (outcome: Option<bool>)
      requires Counted(fs.Now()) && id == counter && fs as object != this
      modifies this`inodeHash, fs
      ensures Counted(fs.Now())
      ensures Alone(old(fs.Now()), old(inodeHash), Probe(path, hash, st), id, sha) ==
              (fs.Now(), inodeHash, if outcome.Some? then Ended(outcome.value) else Threw)
    {
      hide Alone, Nix32.Encoded, Dump, Counted, Rename, Link, Unlink, Lstat;
      var key := Nix32.Encode(hash);
      var linkPath := Farm(key);
      AloneStep(fs.Now(), inodeHash, Probe(path, hash, st), id, sha);
      var stLink := fs.ReadStat(linkPath);
      if stLink.Some? && st.size != stLink.value.size {
        AloneStep(fs.Now(), inodeHash, RemoveBad(path, hash, st), id, sha);
        var _ := fs.RemoveName(linkPath);
        stLink := None;
      }
      if stLink.None? {
        AloneStep(fs.Now(), inodeHash, Publish(path, hash, st), id, sha);
        var err := fs.MakeLink(Store(path), linkPath);
        if err.None? {
          inodeHash := inodeHash + {st.ino};
          AloneEnds(fs.Now(), inodeHash, Ended(false), id, sha);
          return Some(false);
        }
        if err.value != EEXIST {
          AloneEnds(fs.Now(), inodeHash, Threw, id, sha);
          return None;
        }
        AloneStep(fs.Now(), inodeHash, ProbeAgain(path, hash, st), id, sha);
        stLink := fs.ReadStat(linkPath);
        if stLink.None? {
          AloneEnds(fs.Now(), inodeHash, Ended(false), id, sha);
          return Some(false);
        }
      }
      if st.ino == stLink.value.ino {
        AloneEnds(fs.Now(), inodeHash, Ended(false), id, sha);
        return Some(false);
      }
      outcome := Swap(path, hash, linkPath, id);
    }

    /** Link the farm entry to a temporary name, and rename that over the file. */
    method Swap(path: Path, hash: Hash, linkPath: Name, ghost id: nat) returns (outcome: Option<bool>)
      requires Counted(fs.Now()) && id == counter && linkPath == FarmOf(hash) && fs as object != this
      modifies fs
      ensures Counted(fs.Now())
      ensures Alone(old(fs.Now()), inodeHash, Fetch(path, hash, false), id, sha) ==
              (fs.Now(), inodeHash, if outcome.Some? then Ended(outcome.value) else Threw)
    {
      hide Alone, Nix32.Encoded, Dump, Counted, Rename, Link, Unlink, Lstat;
      var temp := Temp(counter);
      AloneStep(fs.Now(), inodeHash, Fetch(path, hash, false), id, sha);
      var err := fs.MakeLink(linkPath, temp);
      if err.Some? {
        var t := if err.value == ENOENT then Ended(false) else Threw;
        AloneEnds(fs.Now(), inodeHash, t, id, sha);
        return if err.value == ENOENT then Some(false) else None;
      }
      AloneStep(fs.Now(), inodeHash, Replace(path, hash, false), id, sha);
      err := fs.MoveName(temp, Store(path));
      if err.Some? {
        AloneStep(fs.Now(), inodeHash, CleanUp(path, true), id, sha);
        var _ := fs.RemoveName(temp);
        AloneEnds(fs.Now(), inodeHash, Threw, id, sha);
        return None;
      }
      AloneEnds(fs.Now(), inodeHash, Ended(true), id, sha);
      return Some(true);
    }

    method ReadDirectoryIgnoringInodes(children: seq<Dir>) returns (names: seq<Dir>)
      ensures names == Listing(children, fs.Now(), inodeHash)
    {
      hide Listing, Skips;
      names := [];
      assert children[0..] == children;
      for i := 0 to |children|
        invariant names + Listing(children[i..], fs.Now(), inodeHash) == Listing(children, fs.Now(), inodeHash)
      {
        ListingStep(children, i, fs.Now(), inodeHash);
        ghost var rest := Listing(children[i + 1..], fs.Now(), inodeHash);
        if !Skips(children[i], fs.Now(), inodeHash) {
          assert names + ([children[i]] + rest) == names + [children[i]] + rest;
          names := names + [children[i]];
        } else {
          assert [] + rest == rest;
        }
      }
      ListingNothing(children, fs.Now(), inodeHash);
    }

    /** optimisePath_ on anything. */
    method OptimisePath(d: Dir) returns (threw: bool)
      requires Counted(fs.Now()) && fs as object != this
      modifies this, fs
      ensures Counted(fs.Now())
      ensures Now(threw) == Visit(old(Now(false)), d, captured, sha)
      decreases d
    {
      hide VisitFile, Counted, Listing;
      match d {
        case File(path) => threw := OptimiseFile(path);
        case Folder(children) =>
          var names := ReadDirectoryIgnoringInodes(children);
          threw := false;
          var i := 0;
          while i < |names| && !threw
            invariant 0 <= i <= |names| && Counted(fs.Now())
            invariant VisitAll(Now(threw), d, names[i..], captured, sha) ==
                      VisitAll(old(Now(false)), d, names, captured, sha)
          {
            assert names[i] in names;
            assert names[i..][0] == names[i] && names[i..][1..] == names[i + 1..];
            threw := OptimisePath(names[i]);
            i := i + 1;
          }
      }
    }

    /** optimiseStore, its tasks one after the other. */
    method OptimiseStore(roots: seq<Dir>) returns (threw: bool)
      requires Counted(fs.Now()) && fs as object != this
      modifies this, fs
      ensures Counted(fs.Now())
      ensures Now(threw) == VisitRoots(old(Now(false)).(inodes := FarmInodes(old(fs.Now())) + others), roots, captured, sha)
    {
      hide Visit, Counted;
      LoadInodeHash();
      ghost var loaded := Now(false);
      threw := false;
      var i := 0;
      while i < |roots| && !threw
        invariant 0 <= i <= |roots| && Counted(fs.Now())
        invariant VisitRoots(Now(threw), roots[i..], captured, sha) == VisitRoots(loaded, roots, captured, sha)
      {
        assert roots[i..][1..] == roots[i + 1..];
        threw := OptimisePath(roots[i]);
        i := i + 1;
      }
    }
  }
}
