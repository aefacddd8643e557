/** The link farm as a concurrent protocol: any number of optimise tasks, streamed swaps
    and farm prunes over one file system, interleaved between any two system calls. */
module LinkFarm {
  import opened Results
  import opened Wire
  import opened Nar
  import opened Hashes
  import opened FileTable
  import Nix32

  /** Where a task is, named after the system call it makes next. `captured` is a digest
      the import took while restoring. A task's temporary name is its own number. */
  datatype Task =
    | Inspect(path: Path, captured: Option<Hash>)
    | Digest(path: Path, st: Stat)
    | Probe(path: Path, hash: Hash, st: Stat)
    | RemoveBad(path: Path, hash: Hash, st: Stat)
    | Publish(path: Path, hash: Hash, st: Stat)
    | ProbeAgain(path: Path, hash: Hash, st: Stat)
    | SwapProbe(path: Path, hash: Hash, size: nat)
    | Fetch(path: Path, hash: Hash, swap: bool)
    | Replace(path: Path, hash: Hash, swap: bool)
    | CleanUp(path: Path, throws: bool)
    | PruneStat(key: string)
    | PruneUnlink(key: string)
    | Ended(linked: bool)
    | Threw

  /** An error a system call can raise for reasons outside the name table. */
  datatype Fault = NoFault | NoSpace | TooManyLinks | Broken

  type Outcome = (Files, set<Ino>, Task)

  function FarmOf(hash: Hash): Name {
    Farm(Nix32.Encoded(hash))
  }

  /** What an optimise task does once it knows the farm entry: nothing when the node
      already is that inode. */
  function Compared(path: Path, hash: Hash, st: Stat, link: Stat): Task {
    if st.ino == link.ino then Ended(false) else Fetch(path, hash, false)
  }

  function Inspected(t: Task, f: Files, inodes: set<Ino>): Task
    requires t.Inspect?
  {
    match Lstat(f, Store(t.path))
    case None => Threw
    case Some(st) =>
      if st.regular && st.size == 0 then Ended(false)
      else if st.nlink > 1 && st.ino in inodes then Ended(false)
      else if t.captured.Some? then Probe(t.path, t.captured.value, st)
      else Digest(t.path, st)
  }

  /** Where a call that fails for such a reason leaves its task. A swap is opportunistic; an
      optimise task shrugs off a full directory and a file with too many links, and cleans
      up before it throws. */
  function Failed(t: Task, fault: Fault): Task {
    match t
    case Publish(_, _, _) => if fault.NoSpace? then Ended(false) else Threw
    case SwapProbe(_, _, _) => Ended(false)
    case Fetch(_, _, swap) => if swap || fault.TooManyLinks? then Ended(false) else Threw
    case Replace(path, _, swap) => CleanUp(path, !swap && !fault.TooManyLinks?)
    case CleanUp(_, throws) => if throws then Threw else Ended(false)
    case Ended(_) => t
    case _ => Threw
  }

  /** One system call of task number `id`, and what it does until the next. */
  function Act(f: Files, inodes: set<Ino>, t: Task, id: nat, fault: Fault, sha: Sha): Outcome {
    if fault != NoFault then (f, inodes, Failed(t, fault)) else
    match t
    case Inspect(_, _) => (f, inodes, Inspected(t, f, inodes))
    case Digest(path, st) =>
      var node := NodeAt(f, Store(path));
      (f, inodes, if node.None? then Threw else Probe(path, sha(Dump(node.value)), st))
    case Probe(path, hash, st) =>
      (f, inodes,
       match Lstat(f, FarmOf(hash))
       case None => Publish(path, hash, st)
       case Some(link) => if st.size != link.size then RemoveBad(path, hash, st) else Compared(path, hash, st, link))
    case RemoveBad(path, hash, st) =>
      var r := Unlink(f, FarmOf(hash));
      (if r.Success? then r.value else f, inodes, Publish(path, hash, st))
    case Publish(path, hash, st) =>
      (match Link(f, Store(path), FarmOf(hash))
       case Success(g) => (g, inodes + {st.ino}, Ended(false))
       case Failure(e) => (f, inodes, if e == EEXIST then ProbeAgain(path, hash, st) else Threw))
    case ProbeAgain(path, hash, st) =>
      (f, inodes,
       match Lstat(f, FarmOf(hash))
       case None => Ended(false)
       case Some(link) => Compared(path, hash, st, link))
    case SwapProbe(path, hash, size) =>
      (f, inodes,
       match Lstat(f, FarmOf(hash))
       case None => Ended(false)
       case Some(link) => if link.size != size then Ended(false) else Fetch(path, hash, true))
    case Fetch(path, hash, swap) =>
      (match Link(f, FarmOf(hash), Temp(id))
       case Success(g) => (g, inodes, Replace(path, hash, swap))
       case Failure(e) => (f, inodes, if swap || e == ENOENT then Ended(false) else Threw))
    case Replace(path, hash, swap) =>
      (match Rename(f, Temp(id), Store(path))
       case Success(g) => (g, inodes, Ended(true))
       case Failure(e) => (f, inodes, CleanUp(path, !swap)))
    case CleanUp(_, throws) =>
      var r := Unlink(f, Temp(id));
      (if r.Success? then r.value else f, inodes, if throws then Threw else Ended(false))
    case PruneStat(key) =>
      (f, inodes,
       match Lstat(f, Farm(key))
       case None => Threw
       case Some(st) => if st.nlink != 1 then Ended(false) else PruneUnlink(key))
    case PruneUnlink(key) =>
      (match Unlink(f, Farm(key))
       case Success(g) => (g, inodes, Ended(false))
       case Failure(_) => (f, inodes, Threw))
    case Ended(_) => (f, inodes, t)
    case Threw => (f, inodes, t)
  }

  // ------------------------------------------------------------- whole system

  /** `original` is the history: the node each store name was created with. */
  datatype Sys = Sys(f: Files, inodes: set<Ino>, tasks: seq<Task>, original: map<Path, Leaf>)

  datatype Step =
    | Run(i: nat, fault: Fault)
    | Spawn(t: Task)
    | Restore(path: Path, ino: Ino, node: Leaf)

  /** Tasks start with a digest only where one was taken of that very node, and swaps of
      empty files are not asked for. */
  predicate MayStart(s: Sys, t: Task, sha: Sha) {
    match t
    case Inspect(path, captured) =>
      path in s.original && (captured.Some? ==> captured.value == sha(Dump(s.original[path])))
    case SwapProbe(path, hash, size) => path in s.original && hash == sha(Dump(s.original[path])) && size > 0
    case PruneStat(_) => true
    case _ => false
  }

  function Next(s: Sys, step: Step, sha: Sha): Option<Sys> {
    match step
    case Run(i, fault) =>
      if i >= |s.tasks| then None else
      var (f, inodes, t) := Act(s.f, s.inodes, s.tasks[i], i, fault, sha);
      Some(s.(f := f, inodes := inodes, tasks := s.tasks[i := t]))
    case Spawn(t) => if MayStart(s, t, sha) then Some(s.(tasks := s.tasks + [t])) else None
    case Restore(path, ino, node) =>
      if Store(path) in s.f.names || ino in s.f.nodes then None
      else Some(s.(f := Create(s.f, Store(path), ino, node).value, original := s.original[path := node]))
  }

  // --------------------------------------------------------------- invariants

  function KeyAt(f: Files, n: Name, sha: Sha): Option<string> {
    match NodeAt(f, n)
    case Some(t) => Some(Key(t, sha))
    case None => None
  }

  /** Every farm entry is filed under the digest of its node. */
  ghost predicate FarmOk(f: Files, sha: Sha) {
    forall k :: Farm(k) in f.names ==> KeyAt(f, Farm(k), sha) == Some(k)
  }

  /** Every store name still leads to a node with the digest of the one created there. */
  ghost predicate StoreOk(s: Sys, sha: Sha) {
    forall p :: p in s.original ==> KeyAt(s.f, Store(p), sha) == Some(Key(s.original[p], sha))
  }

  ghost predicate NamesOk(s: Sys) {
    (forall id: nat :: Temp(id) in s.f.names ==> id < |s.tasks|) &&
    (forall p :: Store(p) in s.f.names ==> p in s.original)
  }

  /** What a task knows: the digest is the one of its store name's node, and once it
      holds a temporary link, that leads to a node with the same digest. */
  predicate Knows(f: Files, original: map<Path, Leaf>, t: Task, i: nat, sha: Sha) {
    match t
    case Inspect(path, captured) =>
      path in original && (captured.Some? ==> captured.value == sha(Dump(original[path])))
    case Digest(path, _) => path in original
    case Probe(path, hash, _) => path in original && hash == sha(Dump(original[path]))
    case RemoveBad(path, hash, _) => path in original && hash == sha(Dump(original[path]))
    case Publish(path, hash, _) => path in original && hash == sha(Dump(original[path]))
    case ProbeAgain(path, hash, _) => path in original && hash == sha(Dump(original[path]))
    case SwapProbe(path, hash, _) => path in original && hash == sha(Dump(original[path]))
    case Fetch(path, hash, _) => path in original && hash == sha(Dump(original[path]))
    case Replace(path, hash, _) =>
      path in original && hash == sha(Dump(original[path])) &&
      KeyAt(f, Temp(i), sha) == Some(Nix32.Encoded(hash))
    case _ => true
  }

  ghost predicate Inv(s: Sys, sha: Sha) {
    Counted(s.f) && FarmOk(s.f, sha) && StoreOk(s, sha) && NamesOk(s) &&
    forall i :: 0 <= i < |s.tasks| ==> Knows(s.f, s.original, s.tasks[i], i, sha)
  }

  /** One rebinding seen through keys: `to` takes the key `from` had, `gone` loses its
      own, and nothing else changes. */
  ghost predicate Rebound(f: Files, g: Files, to: Option<Name>, key: Option<string>, gone: Option<Name>, sha: Sha) {
    forall n :: KeyAt(g, n, sha) ==
      if gone == Some(n) then None else if to == Some(n) then key else KeyAt(f, n, sha)
  }

  lemma LinkRebinds(f: Files, from: Name, to: Name, sha: Sha)
    requires Counted(f) && Link(f, from, to).Success?
    ensures Rebound(f, Link(f, from, to).value, Some(to), KeyAt(f, from, sha), None, sha)
  {
    hide Key;
  }

  lemma UnlinkRebinds(f: Files, n: Name, sha: Sha)
    requires Counted(f) && Unlink(f, n).Success?
    ensures Rebound(f, Unlink(f, n).value, None, None, Some(n), sha)
  {
    hide Key;
  }

  /** Renaming, where nothing is left behind under the old name unless both were links
      to one inode. */
  lemma RenameRebinds(f: Files, from: Name, to: Name, sha: Sha)
    requires Counted(f) && Rename(f, from, to).Success?
    ensures var g := Rename(f, from, to).value;
      g == f || Rebound(f, g, Some(to), KeyAt(f, from, sha), Some(from), sha)
  {
    hide Key;
  }

  /** What a step of task `i` leaves alone: nodes, counts, farm keys, and every key
      outside the farm but its own temporary link's. */
  ghost predicate Gentle(f: Files, g: Files, i: nat, sha: Sha) {
    Counted(g) && FarmOk(g, sha) &&
    (forall n: Name :: n in g.names ==> n in f.names || n.Farm? || n == Temp(i)) &&
    (forall n: Name :: !n.Farm? && n != Temp(i) ==> KeyAt(g, n, sha) == KeyAt(f, n, sha))
  }

  lemma GentleUnlink(f: Files, i: nat, n: Name, sha: Sha)
    requires Counted(f) && FarmOk(f, sha) && (n.Farm? || n == Temp(i)) && Unlink(f, n).Success?
    ensures Gentle(f, Unlink(f, n).value, i, sha)
  {
    UnlinkCounts(f, n);
    UnlinkRebinds(f, n, sha);
    hide Key, KeyAt, Counted;
  }

  lemma GentleLink(f: Files, i: nat, from: Name, to: Name, sha: Sha)
    requires Counted(f) && FarmOk(f, sha) && Link(f, from, to).Success?
    requires to == Temp(i) || (to.Farm? && KeyAt(f, from, sha) == Some(to.key))
    ensures Gentle(f, Link(f, from, to).value, i, sha)
    ensures KeyAt(Link(f, from, to).value, to, sha) == KeyAt(f, from, sha)
  {
    LinkCounts(f, from, to);
    LinkRebinds(f, from, to, sha);
    hide Key, KeyAt, Counted;
  }

  lemma GentleRename(f: Files, i: nat, path: Path, sha: Sha)
    requires Counted(f) && FarmOk(f, sha) && Rename(f, Temp(i), Store(path)).Success?
    requires KeyAt(f, Temp(i), sha) == KeyAt(f, Store(path), sha) && Store(path) in f.names
    ensures Gentle(f, Rename(f, Temp(i), Store(path)).value, i, sha)
  {
    RenameCounts(f, Temp(i), Store(path));
    RenameRebinds(f, Temp(i), Store(path), sha);
    hide Key, KeyAt, Counted;
  }

  lemma GentleNothing(f: Files, i: nat, sha: Sha)
    requires Counted(f) && FarmOk(f, sha)
    ensures Gentle(f, f, i, sha)
  {
  }

  lemma ActIsGentle(s: Sys, i: nat, fault: Fault, sha: Sha)
    requires Inv(s, sha) && i < |s.tasks|
    ensures Gentle(s.f, Act(s.f, s.inodes, s.tasks[i], i, fault, sha).0, i, sha)
  {
    hide Key, KeyAt, Nix32.Encoded, Dump, Gentle, Counted, FarmOk, StoreOk, NamesOk, Link, Unlink, Rename, Lstat, NodeAt, Inspected, Compared;
    var t, f := s.tasks[i], s.f;
    assert Knows(s.f, s.original, s.tasks[i], i, sha);
    GentleNothing(f, i, sha);
    match t
    case RemoveBad(path, hash, st) =>
      if Unlink(f, FarmOf(hash)).Success? {
        GentleUnlink(f, i, FarmOf(hash), sha);
      }
    case Publish(path, hash, st) =>
      OriginalKey(s, path, sha);
      if Link(f, Store(path), FarmOf(hash)).Success? {
        GentleLink(f, i, Store(path), FarmOf(hash), sha);
      }
    case Fetch(path, hash, swap) =>
      if Link(f, FarmOf(hash), Temp(i)).Success? {
        GentleLink(f, i, FarmOf(hash), Temp(i), sha);
      }
    case Replace(path, hash, swap) =>
      OriginalKey(s, path, sha);
      if Rename(f, Temp(i), Store(path)).Success? {
        GentleRename(f, i, path, sha);
      }
    case CleanUp(_, _) =>
      if Unlink(f, Temp(i)).Success? {
        GentleUnlink(f, i, Temp(i), sha);
      }
    case PruneUnlink(key) =>
      if Unlink(f, Farm(key)).Success? {
        GentleUnlink(f, i, Farm(key), sha);
      }
    case _ =>
  }

  lemma OriginalKey(s: Sys, path: Path, sha: Sha)
    requires StoreOk(s, sha) && path in s.original
    ensures Store(path) in s.f.names
    ensures KeyAt(s.f, Store(path), sha) == Some(Nix32.Encoded(sha(Dump(s.original[path]))))
  {
  }

  /** What the moved task knows afterwards. */
  lemma ActKeepsKnowledge(s: Sys, i: nat, fault: Fault, sha: Sha)
    requires Inv(s, sha) && i < |s.tasks|
    ensures var (g, _, t') := Act(s.f, s.inodes, s.tasks[i], i, fault, sha);
      Knows(g, s.original, t', i, sha)
  {
    hide Key, KeyAt, Nix32.Encoded, Dump, Inv, Link, Unlink, Rename, Lstat, NodeAt;
    var t, f := s.tasks[i], s.f;
    KnowsAt(s, i, sha);
    match t
    case Digest(path, _) => DigestIsOriginal(s, path, sha);
    case Fetch(path, hash, swap) =>
      if Link(f, FarmOf(hash), Temp(i)).Success? {
        FetchedKey(s, i, hash, sha);
      }
    case _ =>
  }

  lemma KnowsAt(s: Sys, i: nat, sha: Sha)
    requires Inv(s, sha) && i < |s.tasks|
    ensures Knows(s.f, s.original, s.tasks[i], i, sha)
  {
  }

  lemma FetchedKey(s: Sys, i: nat, hash: Hash, sha: Sha)
    requires Inv(s, sha) && Link(s.f, FarmOf(hash), Temp(i)).Success?
    ensures KeyAt(Link(s.f, FarmOf(hash), Temp(i)).value, Temp(i), sha) == Some(Nix32.Encoded(hash))
  {
    GentleLink(s.f, i, FarmOf(hash), Temp(i), sha);
    LinkedFrom(s.f, FarmOf(hash), Temp(i));
    FarmKey(s.f, hash, sha);
  }

  lemma DigestIsOriginal(s: Sys, path: Path, sha: Sha)
    requires Inv(s, sha) && path in s.original
    ensures NodeAt(s.f, Store(path)).Some?
    ensures sha(Dump(NodeAt(s.f, Store(path)).value)) == sha(Dump(s.original[path]))
  {
    OriginalKey(s, path, sha);
    KeyOfNode(s.f, Store(path), sha);
    KeyIsDigest(sha(Dump(NodeAt(s.f, Store(path)).value)), sha(Dump(s.original[path])));
  }

  lemma LinkedFrom(f: Files, from: Name, to: Name)
    requires Link(f, from, to).Success?
    ensures from in f.names
  {
  }

  lemma FarmKey(f: Files, hash: Hash, sha: Sha)
    requires FarmOk(f, sha) && FarmOf(hash) in f.names
    ensures KeyAt(f, FarmOf(hash), sha) == Some(Nix32.Encoded(hash))
  {
    hide Nix32.Encoded;
  }

  lemma KeyOfNode(f: Files, n: Name, sha: Sha)
    requires NodeAt(f, n).Some?
    ensures KeyAt(f, n, sha) == Some(Nix32.Encoded(sha(Dump(NodeAt(f, n).value))))
  {
  }

  lemma StillKnows(f: Files, g: Files, original: map<Path, Leaf>, t: Task, i: nat, j: nat, sha: Sha)
    requires Gentle(f, g, i, sha) && i != j && Knows(f, original, t, j, sha)
    ensures Knows(g, original, t, j, sha)
  {
    hide Key, KeyAt, Nix32.Encoded, Counted, FarmOk;
  }

  lemma RunKeepsInv(s: Sys, i: nat, fault: Fault, sha: Sha)
    requires Inv(s, sha) && i < |s.tasks|
    ensures Inv(Next(s, Run(i, fault), sha).value, sha)
  {
    hide Act, Knows, Key, KeyAt, Nix32.Encoded, Counted, FarmOk;
    ActIsGentle(s, i, fault, sha);
    ActKeepsKnowledge(s, i, fault, sha);
    var (g, _, t') := Act(s.f, s.inodes, s.tasks[i], i, fault, sha);
    var tasks := s.tasks[i := t'];
    forall j | 0 <= j < |tasks| ensures Knows(g, s.original, tasks[j], j, sha) {
      if j != i {
        StillKnows(s.f, g, s.original, s.tasks[j], i, j, sha);
      }
    }
  }

  lemma CreateRebinds(f: Files, n: Name, ino: Ino, node: Leaf, sha: Sha)
    requires Counted(f) && ino !in f.nodes && n !in f.names
    ensures Rebound(f, Create(f, n, ino, node).value, Some(n), Some(Key(node, sha)), None, sha)
  {
    hide Key;
  }

  lemma CreateIsGentle(f: Files, path: Path, ino: Ino, node: Leaf, original: map<Path, Leaf>, t: Task, j: nat, sha: Sha)
    requires Counted(f) && ino !in f.nodes && Store(path) !in f.names && path !in original
    requires Knows(f, original, t, j, sha)
    ensures var g := Create(f, Store(path), ino, node).value;
      Knows(g, original[path := node], t, j, sha)
  {
    hide Key, KeyAt, Nix32.Encoded, Counted, Dump, Create;
    CreateRebinds(f, Store(path), ino, node, sha);
  }

  lemma RestoreKeepsInv(s: Sys, path: Path, ino: Ino, node: Leaf, sha: Sha)
    requires Inv(s, sha) && Next(s, Step.Restore(path, ino, node), sha).Some?
    ensures Inv(Next(s, Step.Restore(path, ino, node), sha).value, sha)
  {
    hide Key, KeyAt, Nix32.Encoded, Counted, Knows;
    assert path !in s.original by {
      if path in s.original {
        OriginalKey(s, path, sha);
      }
    }
    CreateCounts(s.f, Store(path), ino, node);
    CreateRebinds(s.f, Store(path), ino, node, sha);
    forall j | 0 <= j < |s.tasks|
      ensures Knows(Create(s.f, Store(path), ino, node).value, s.original[path := node], s.tasks[j], j, sha)
    {
      CreateIsGentle(s.f, path, ino, node, s.original, s.tasks[j], j, sha);
    }
  }

  lemma SpawnKeepsInv(s: Sys, t: Task, sha: Sha)
    requires Inv(s, sha) && MayStart(s, t, sha)
    ensures Inv(Next(s, Spawn(t), sha).value, sha)
  {
    hide Key, KeyAt, Nix32.Encoded;
    var s' := Next(s, Spawn(t), sha).value;
    forall j | 0 <= j < |s'.tasks| ensures Knows(s'.f, s'.original, s'.tasks[j], j, sha) {
      if j < |s.tasks| {
        assert Knows(s.f, s.original, s.tasks[j], j, sha);
      }
    }
  }

  lemma StepKeepsInv(s: Sys, step: Step, sha: Sha)
    requires Inv(s, sha) && Next(s, step, sha).Some?
    ensures Inv(Next(s, step, sha).value, sha)
  {
    match step
    case Run(i, fault) => RunKeepsInv(s, i, fault, sha);
    case Spawn(t) => SpawnKeepsInv(s, t, sha);
    case Restore(path, ino, node) => RestoreKeepsInv(s, path, ino, node, sha);
  }

  /** The state after a whole run, or None when some step of it cannot happen. */
  function After(s: Sys, steps: seq<Step>, sha: Sha): Option<Sys>
    decreases |steps|
  {
    if steps == [] then Some(s) else
    match Next(s, steps[0], sha)
    case Some(t) => After(t, steps[1..], sha)
    case None => None
  }

  /** Every interleaving of every system calls of any number of tasks keeps the farm
      filed under its digests, the store's digests as they were, and the link counts. */
  lemma {:induction false} RunsKeepInv(s: Sys, steps: seq<Step>, sha: Sha)
    requires Inv(s, sha) && After(s, steps, sha).Some?
    ensures Inv(After(s, steps, sha).value, sha)
    decreases |steps|
  {
    hide Inv, Next;
    if steps != [] {
      StepKeepsInv(s, steps[0], sha);
      RunsKeepInv(Next(s, steps[0], sha).value, steps[1..], sha);
    }
  }

  // ------------------------------------------------------ what the digests mean

  /** No two of these nodes collide. */
  ghost predicate CollisionFree(nodes: set<Leaf>, sha: Sha) {
    forall a, b :: a in nodes && b in nodes && sha(Dump(a)) == sha(Dump(b)) ==> Dump(a) == Dump(b)
  }

  lemma SameDigestSameNode(a: Leaf, b: Leaf, nodes: set<Leaf>, sha: Sha)
    requires CollisionFree(nodes, sha) && a in nodes && b in nodes
    requires Key(a, sha) == Key(b, sha)
    ensures a == b
  {
    KeyIsDigest(sha(Dump(a)), sha(Dump(b)));
    RoundTrip(a, []);
    RoundTrip(b, []);
  }

  /** Where nothing collides, every store file keeps its type, its contents and its
      executable bit, and every farm entry still leads to a node of its key. */
  lemma ContentKept(s: Sys, sha: Sha, path: Path)
    requires Inv(s, sha) && path in s.original
    requires CollisionFree(s.f.nodes.Values + {s.original[path]}, sha)
    ensures NodeAt(s.f, Store(path)) == Some(s.original[path])
  {
    hide Key, Dump, CollisionFree;
    assert KeyAt(s.f, Store(path), sha).Some?;
    var node := NodeAt(s.f, Store(path)).value;
    assert node in s.f.nodes.Values;
    SameDigestSameNode(node, s.original[path], s.f.nodes.Values + {s.original[path]}, sha);
  }

  // ------------------------------------------------------------ where runs start

  function StorePaths(f: Files): set<Path> {
    set n | n in f.names && n.Store? :: n.path
  }

  /** A store nobody is working on. */
  function Quiet(f: Files, inodes: set<Ino>): Sys
    requires Counted(f)
  {
    Sys(f, inodes, [], map p | p in StorePaths(f) :: f.nodes[f.names[Store(p)]])
  }

  lemma QuietOriginal(f: Files, inodes: set<Ino>)
    requires Counted(f)
    ensures forall p :: p in Quiet(f, inodes).original <==> Store(p) in f.names
    ensures forall p :: Store(p) in f.names ==> NodeAt(f, Store(p)) == Some(Quiet(f, inodes).original[p])
  {
    var s := Quiet(f, inodes);
    forall p ensures p in s.original <==> Store(p) in f.names {
      if Store(p) in f.names {
        assert Store(p).path in StorePaths(f);
      }
    }
  }

  lemma QuietIsSound(f: Files, inodes: set<Ino>, sha: Sha)
    requires Counted(f) && FarmOk(f, sha) && forall id: nat :: Temp(id) !in f.names
    ensures Inv(Quiet(f, inodes), sha)
  {
    QuietParts(f, inodes);
    QuietStoreOk(f, inodes, sha);
    QuietNamesOk(f, inodes);
    hide Counted, FarmOk, StoreOk, NamesOk, Quiet;
  }

  lemma QuietStoreOk(f: Files, inodes: set<Ino>, sha: Sha)
    requires Counted(f)
    ensures StoreOk(Quiet(f, inodes), sha)
  {
    QuietOriginal(f, inodes);
    QuietParts(f, inodes);
    hide Key, Counted, NodeAt, Quiet;
  }

  lemma QuietNamesOk(f: Files, inodes: set<Ino>)
    requires Counted(f) && forall id: nat :: Temp(id) !in f.names
    ensures NamesOk(Quiet(f, inodes))
  {
    QuietOriginal(f, inodes);
    QuietParts(f, inodes);
    hide Counted, NodeAt, Quiet;
  }

  lemma QuietParts(f: Files, inodes: set<Ino>)
    requires Counted(f)
    ensures Quiet(f, inodes).f == f && Quiet(f, inodes).tasks == []
  {
  }

  function Nothing(): Sys {
    Sys(Files(map[], map[], map[]), {}, [], map[])
  }

  /** Nothing in the store yet. */
  lemma NothingIsSound(sha: Sha)
    ensures Inv(Nothing(), sha)
  {
  }

  // ------------------------------------------------------- what is left behind

  predicate Done(t: Task) {
    t.Ended? || t.Threw?
  }

  predicate Finished(s: Sys, i: nat) {
    i < |s.tasks| && Done(s.tasks[i])
  }

  /** A temporary link is there from its task's link to its rename or unlink. */
  ghost predicate TempsOk(s: Sys) {
    (forall i: nat :: Temp(i) in s.f.names ==> i < |s.tasks|) &&
    (forall i :: 0 <= i < |s.tasks| ==>
      ((s.tasks[i].Replace? || s.tasks[i].CleanUp?) ==> Temp(i) in s.f.names) &&
      (Temp(i) in s.f.names ==> s.tasks[i].Replace? || s.tasks[i].CleanUp? || Done(s.tasks[i])))
  }

  /** The calls after which a task is over and its temporary link still there: the rename
      of one link of an inode onto another, and a failed clean-up. */
  predicate Forgets(f: Files, t: Task, i: nat, fault: Fault) {
    match t
    case Replace(path, _, _) =>
      fault.NoFault? && Temp(i) in f.names && Store(path) in f.names && f.names[Store(path)] == f.names[Temp(i)]
    case CleanUp(_, _) => fault != NoFault
    case _ => false
  }

  /** After a rename that reports success the temporary link is still there exactly if
      the store name led to the farm's inode already. */
  lemma RenameForgetsExactly(f: Files, inodes: set<Ino>, t: Task, i: nat, sha: Sha)
    requires t.Replace? && Temp(i) in f.names
    ensures var (g, _, after) := Act(f, inodes, t, i, NoFault, sha);
      after == Ended(true) &&
      (Temp(i) in g.names <==> Store(t.path) in f.names && f.names[Store(t.path)] == f.names[Temp(i)])
  {
  }

  lemma ActOnTemps(f: Files, inodes: set<Ino>, t: Task, i: nat, fault: Fault, sha: Sha)
    requires (t.Replace? || t.CleanUp? ==> Temp(i) in f.names) &&
             (Temp(i) in f.names ==> t.Replace? || t.CleanUp? || Done(t))
    ensures var (g, _, u) := Act(f, inodes, t, i, fault, sha);
      (forall j: nat :: j != i ==> (Temp(j) in g.names <==> Temp(j) in f.names)) &&
      (u.Replace? || u.CleanUp? ==> Temp(i) in g.names) &&
      (Temp(i) in g.names ==> u.Replace? || u.CleanUp? || Done(u)) &&
      (Done(t) ==> Done(u) && (Temp(i) in g.names <==> Temp(i) in f.names)) &&
      (Done(u) && !Done(t) ==> (Temp(i) in g.names <==> Forgets(f, t, i, fault))) &&
      (Forgets(f, t, i, fault) ==> Done(u) && !Done(t))
  {
    hide Dump, Nix32.Encoded, NodeAt;
  }

  predicate ForgetsIn(s: Sys, step: Step, i: nat) {
    step.Run? && step.i == i && i < |s.tasks| && Forgets(s.f, s.tasks[i], i, step.fault)
  }

  lemma StepForgets(s: Sys, step: Step, i: nat, sha: Sha)
    requires TempsOk(s) && Next(s, step, sha).Some?
    ensures var t := Next(s, step, sha).value;
      TempsOk(t) && (Finished(s, i) ==> Finished(t, i)) &&
      (Finished(t, i) && Temp(i) in t.f.names <==>
        (Finished(s, i) && Temp(i) in s.f.names) || ForgetsIn(s, step, i))
  {
    hide Act, Forgets, Dump;
    if step.Run? {
      ActOnTemps(s.f, s.inodes, s.tasks[step.i], step.i, step.fault, sha);
    }
  }

  predicate ForgetsEver(s: Sys, steps: seq<Step>, i: nat, sha: Sha)
    decreases |steps|
  {
    steps != [] &&
    (ForgetsIn(s, steps[0], i) ||
     (Next(s, steps[0], sha).Some? && ForgetsEver(Next(s, steps[0], sha).value, steps[1..], i, sha)))
  }

  lemma {:induction false} RunForgets(s: Sys, steps: seq<Step>, i: nat, sha: Sha)
    requires TempsOk(s) && After(s, steps, sha).Some?
    ensures var t := After(s, steps, sha).value;
      TempsOk(t) &&
      (Finished(t, i) && Temp(i) in t.f.names <==>
        (Finished(s, i) && Temp(i) in s.f.names) || ForgetsEver(s, steps, i, sha))
    decreases |steps|
  {
    hide Next, TempsOk, ForgetsIn, Finished;
    if steps != [] {
      StepForgets(s, steps[0], i, sha);
      RunForgets(Next(s, steps[0], sha).value, steps[1..], i, sha);
    }
  }

  /** In every run from a store nobody is working on, a task that is over has left its
      temporary link behind exactly if its rename found the store name at the farm's inode
      already, or its clean-up failed. */
  lemma LeftBehindExactly(f: Files, inodes: set<Ino>, steps: seq<Step>, i: nat, sha: Sha)
    requires Counted(f) && (forall id: nat :: Temp(id) !in f.names) && After(Quiet(f, inodes), steps, sha).Some?
    requires Finished(After(Quiet(f, inodes), steps, sha).value, i)
    ensures Temp(i) in After(Quiet(f, inodes), steps, sha).value.f.names <==>
            ForgetsEver(Quiet(f, inodes), steps, i, sha)
  {
    hide After, ForgetsEver, Quiet, Counted;
    QuietParts(f, inodes);
    RunForgets(Quiet(f, inodes), steps, i, sha);
  }

  // ------------------------------------------------------------- and it happens

  lemma {:induction false} AfterOneMore(s: Sys, steps: seq<Step>, x: Step, sha: Sha)
    requires After(s, steps, sha).Some?
    ensures After(s, steps + [x], sha) == Next(After(s, steps, sha).value, x, sha)
    decreases |steps|
  {
    hide Next;
    if steps != [] {
      assert (steps + [x])[1..] == steps[1..] + [x];
      AfterOneMore(Next(s, steps[0], sha).value, steps[1..], x, sha);
    } else {
      assert steps + [x] == [x] && [x][1..] == [];
    }
  }

  lemma Extend(s: Sys, steps: seq<Step>, t: Sys, x: Step, sha: Sha) returns (more: seq<Step>, u: Sys)
    requires After(s, steps, sha) == Some(t) && Next(t, x, sha).Some?
    ensures After(s, more, sha) == Some(u) && Next(t, x, sha) == Some(u)
  {
    more, u := steps + [x], Next(t, x, sha).value;
    AfterOneMore(s, steps, x, sha);
  }

  lemma AfterNone(s: Sys, sha: Sha)
    ensures After(s, [], sha) == Some(s)
  {
  }

  lemma TwoAreRestored(p: Path, q: Path, node: Leaf, sha: Sha) returns (steps: seq<Step>, s: Sys)
    requires p != q
    ensures After(Nothing(), steps, sha) == Some(s)
    ensures s == Sys(Files(map[0 := node, 1 := node], map[0 := 1, 1 := 1], map[Store(q) := 0, Store(p) := 1]), {}, [],
                     map[q := node, p := node])
  {
    hide After, Dump, Nix32.Encoded;
    AfterNone(Nothing(), sha);
    steps, s := Extend(Nothing(), [], Nothing(), Step.Restore(q, 0, node), sha);
    steps, s := Extend(Nothing(), steps, s, Step.Restore(p, 1, node), sha);
  }

  /** Two paths with the same node, one of them in the farm. */
  lemma OneIsFarmed(p: Path, q: Path, node: Leaf, sha: Sha) returns (steps: seq<Step>, s: Sys)
    requires p != q && Size(node) > 0
    ensures After(Nothing(), steps, sha) == Some(s)
    ensures s == Sys(Files(map[0 := node, 1 := node], map[0 := 2, 1 := 1],
                           map[Store(q) := 0, Store(p) := 1, FarmOf(sha(Dump(node))) := 0]),
                     {0}, [Ended(false)], map[q := node, p := node])
  {
    hide After, Dump, Nix32.Encoded, Nothing;
    var h := sha(Dump(node));
    steps, s := TwoAreRestored(p, q, node, sha);
    steps, s := Extend(Nothing(), steps, s, Spawn(Inspect(q, Some(h))), sha);
    steps, s := Extend(Nothing(), steps, s, Run(0, NoFault), sha);
    steps, s := Extend(Nothing(), steps, s, Run(0, NoFault), sha);
    steps, s := Extend(Nothing(), steps, s, Run(0, NoFault), sha);
  }

  /** An optimise task is about to rename. */
  lemma FirstFetches(p: Path, q: Path, node: Leaf, sha: Sha) returns (steps: seq<Step>, s: Sys)
    requires p != q && Size(node) > 0
    ensures After(Nothing(), steps, sha) == Some(s)
    ensures s == Sys(Files(map[0 := node, 1 := node], map[0 := 3, 1 := 1],
                           map[Store(q) := 0, Store(p) := 1, FarmOf(sha(Dump(node))) := 0, Temp(1) := 0]),
                     {0}, [Ended(false), Replace(p, sha(Dump(node)), false)], map[q := node, p := node])
  {
    hide After, Dump, Nix32.Encoded, Nothing;
    var h := sha(Dump(node));
    steps, s := OneIsFarmed(p, q, node, sha);
    steps, s := Extend(Nothing(), steps, s, Spawn(Inspect(p, Some(h))), sha);
    steps, s := Extend(Nothing(), steps, s, Run(1, NoFault), sha);
    steps, s := Extend(Nothing(), steps, s, Run(1, NoFault), sha);
    steps, s := Extend(Nothing(), steps, s, Run(1, NoFault), sha);
  }

  /** So is a streamed swap of the same file. */
  lemma BothFetch(p: Path, q: Path, node: Leaf, sha: Sha) returns (steps: seq<Step>, s: Sys)
    requires p != q && Size(node) > 0
    ensures After(Nothing(), steps, sha) == Some(s)
    ensures s.tasks == [Ended(false), Replace(p, sha(Dump(node)), false), Replace(p, sha(Dump(node)), true)]
    ensures s.f.names ==
      map[Store(q) := 0, Store(p) := 1, FarmOf(sha(Dump(node))) := 0, Temp(1) := 0, Temp(2) := 0]
  {
    hide After, Dump, Nix32.Encoded, Nothing;
    steps, s := FirstFetches(p, q, node, sha);
    steps, s := Extend(Nothing(), steps, s, Spawn(SwapProbe(p, sha(Dump(node)), Size(node))), sha);
    steps, s := Extend(Nothing(), steps, s, Run(2, NoFault), sha);
    steps, s := Extend(Nothing(), steps, s, Run(2, NoFault), sha);
  }

  /** Both report a file linked; the second one's temporary link stays in the store. */
  lemma LinkIsLeftBehind(p: Path, q: Path, node: Leaf, sha: Sha) returns (steps: seq<Step>, s: Sys)
    requires p != q && Size(node) > 0
    ensures After(Nothing(), steps, sha) == Some(s) && |s.tasks| == 3
    ensures s.tasks[1] == Ended(true) && s.tasks[2] == Ended(true)
    ensures Temp(1) !in s.f.names && Temp(2) in s.f.names
  {
    hide After, Dump, Nix32.Encoded, Nothing;
    steps, s := BothFetch(p, q, node, sha);
    steps, s := Extend(Nothing(), steps, s, Run(1, NoFault), sha);
    steps, s := Extend(Nothing(), steps, s, Run(2, NoFault), sha);
  }
}
