/** The metadata side of an import: files stamped as they are finished, directories
    deferred, and streamed swaps that touch directories behind the restore's back. */
module CanonicalRestore {
  import opened Results
  import opened Wire
  import opened Nar
  import opened NarStream
  import Bits

  datatype Kind = DirKind | FileKind | LinkKind

  /** `stamped`: the modification time is the store's, not some other. */
  datatype Meta = Meta(kind: Kind, mode: nat, stamped: bool)

  const FILE_MODE: nat := 292 // 0444
  const EXEC_MODE: nat := 365 // 0555
  const DIR_MODE: nat := 493 // 0755
  const FRESH_DIR_MODE: nat := 511 // 0777
  const MODE_BITS: nat := 9

  // --------------------------------------------------------------------- umask

  function AndNot(mode: nat, umask: nat, w: nat): nat {
    if w == 0 then 0
    else (if mode % 2 == 1 && umask % 2 == 0 then 1 else 0) + 2 * AndNot(mode / 2, umask / 2, w - 1)
  }

  predicate Disjoint(a: nat, b: nat, w: nat) {
    w == 0 || ((a % 2 == 0 || b % 2 == 0) && Disjoint(a / 2, b / 2, w - 1))
  }

  /** umaskPreservesCanonicalModes. */
  predicate Preserves(umask: nat) {
    Disjoint(umask, EXEC_MODE, MODE_BITS)
  }

  predicate Within(a: nat, b: nat, w: nat) {
    w == 0 || ((a % 2 == 0 || b % 2 == 1) && Within(a / 2, b / 2, w - 1))
  }

  lemma {:induction false} DisjointKeeps(umask: nat, b: nat, a: nat, w: nat)
    requires Disjoint(umask, b, w) && Within(a, b, w) && a < Bits.Pow2(w)
    ensures AndNot(a, umask, w) == a
  {
    if w > 0 {
      DisjointKeeps(umask / 2, b / 2, a / 2, w - 1);
    }
  }

  lemma PreservedFileMode(umask: nat)
    requires Preserves(umask)
    ensures AndNot(FILE_MODE, umask, MODE_BITS) == FILE_MODE
  {
    assert Within(36, 45, 6) by {
      assert Within(4, 5, 3);
    }
    assert Within(FILE_MODE, EXEC_MODE, MODE_BITS);
    assert Bits.Pow2(4) == 16 && Bits.Pow2(8) == 256;
    DisjointKeeps(umask, EXEC_MODE, FILE_MODE, MODE_BITS);
  }

  /** The bits a new node gets: those asked for that the umask does not take. */
  lemma {:induction false} AndNotBits(mode: nat, umask: nat, w: nat, k: nat)
    ensures Bits.Bit(AndNot(mode, umask, w), k) <==> k < w && Bits.Bit(mode, k) && !Bits.Bit(umask, k)
    decreases w
  {
    if w == 0 {
      Bits.BitZero(k);
    } else if k > 0 {
      AndNotBits(mode / 2, umask / 2, w - 1, k - 1);
    }
  }

  lemma {:induction false} DisjointBits(a: nat, b: nat, w: nat)
    requires b < Bits.Pow2(w)
    ensures Disjoint(a, b, w) <==> AndNot(b, a, w) == b
  {
    if w > 0 {
      DisjointBits(a / 2, b / 2, w - 1);
    }
  }

  /** The umasks under which nothing has to be put right are exactly those that leave an
      executable file its mode, and those leave a plain file its own. */
  lemma PreservesExactly(umask: nat)
    ensures Preserves(umask) <==> AndNot(EXEC_MODE, umask, MODE_BITS) == EXEC_MODE
    ensures Preserves(umask) ==> AndNot(FILE_MODE, umask, MODE_BITS) == FILE_MODE
  {
    hide AndNot, Disjoint;
    assert Bits.Pow2(9) == 512 by {
      assert Bits.Pow2(4) == 16 && Bits.Pow2(8) == 256;
    }
    DisjointBits(umask, EXEC_MODE, MODE_BITS);
    if Preserves(umask) {
      PreservedFileMode(umask);
    }
  }

  // ------------------------------------------------------------------ the steps

  /** `open` is the file being written and whether it was made executable; `finished`
      are the files the hasher has been told are complete. `swapped` is the history: what
      the farm inode last swapped in for a file looked like. */
  datatype Restoring = Restoring(
    disk: map<Path, Meta>, deferred: seq<Path>, open: Option<(Path, bool)>, finished: set<Path>,
    swapped: map<Path, Meta>)

  /** Creating or replacing an entry moves its directory's modification time. */
  function Bump(disk: map<Path, Meta>, path: Path): map<Path, Meta> {
    if path == [] then disk else
    var parent := path[..|path| - 1];
    if parent in disk && disk[parent].kind.DirKind? then disk[parent := disk[parent].(stamped := false)] else disk
  }

  /** RestoreSink with canonical set and directories deferred, one call of its. */
  function Restore(s: Restoring, e: Event, umask: nat): Restoring {
    match e
    case DirBegin(path) =>
      s.(disk := Bump(s.disk, path)[path := Meta(DirKind, AndNot(FRESH_DIR_MODE, umask, MODE_BITS), false)],
         open := None, finished := s.finished - {path}, swapped := s.swapped - {path})
    case DirEnd(path) => if path == [] then s else s.(deferred := s.deferred + [path])
    case FileBegin(path) =>
      s.(disk := Bump(s.disk, path)[path := Meta(FileKind, AndNot(FILE_MODE, umask, MODE_BITS), false)],
         open := Some((path, false)), finished := s.finished - {path}, swapped := s.swapped - {path})
    case Exec =>
      if s.open.None? || s.open.value.0 !in s.disk then s else
      var path := s.open.value.0;
      s.(disk := s.disk[path := s.disk[path].(mode := EXEC_MODE)], open := Some((path, true)))
    case Size(_) => s
    case Data(_) =>
      if s.open.None? || s.open.value.0 !in s.disk then s else
      var path := s.open.value.0;
      s.(disk := s.disk[path := s.disk[path].(stamped := false)])
    case FileEnd(_) =>
      if s.open.None? || s.open.value.0 !in s.disk then s else
      var path := s.open.value.0;
      var meta := s.disk[path];
      var mode := if !Preserves(umask) && !s.open.value.1 then FILE_MODE else meta.mode;
      s.(disk := s.disk[path := Meta(meta.kind, mode, true)], open := None, finished := s.finished + {path})
    case Link(path, _) =>
      s.(disk := Bump(s.disk, path)[path := Meta(LinkKind, FRESH_DIR_MODE, true)],
         open := None, finished := s.finished - {path}, swapped := s.swapped - {path})
  }

  predicate Executable(m: Meta) {
    m.mode / 64 % 2 == 1
  }

  /** All that a digest in common says of two nodes' metadata. */
  predicate SameDump(m: Meta, n: Meta) {
    m.kind.FileKind? && n.kind.FileKind? && Executable(m) == Executable(n)
  }

  /** link and rename over a finished file, from whichever thread: what is there then is
      the farm's inode, whose metadata `m` nobody looks at. */
  function Swap(s: Restoring, path: Path, m: Meta): Restoring {
    if path !in s.finished || path !in s.disk || !SameDump(m, s.disk[path]) then s
    else s.(disk := Bump(s.disk, path)[path := m], swapped := s.swapped[path := m])
  }

  datatype Act = Ev(e: Event) | SwapFile(path: Path, m: Meta)

  function Step(s: Restoring, a: Act, umask: nat): Restoring {
    match a
    case Ev(e) => Restore(s, e, umask)
    case SwapFile(path, m) => Swap(s, path, m)
  }

  function Run(s: Restoring, acts: seq<Act>, umask: nat): Restoring {
    if acts == [] then s else Step(Run(s, acts[..|acts| - 1], umask), acts[|acts| - 1], umask)
  }

  /** The restore's own calls, without the swaps in between. */
  function Calls(acts: seq<Act>): seq<Event> {
    if acts == [] then [] else
    var last := acts[|acts| - 1];
    Calls(acts[..|acts| - 1]) + (if last.Ev? then [last.e] else [])
  }

  /** canonicaliseTimestampAndPermissions. */
  function Canonicalised(m: Meta): Meta {
    match m.kind
    case DirKind => Meta(DirKind, DIR_MODE, true)
    case FileKind => Meta(FileKind, if Executable(m) then EXEC_MODE else FILE_MODE, true)
    case LinkKind => m.(stamped := true)
  }

  /** One deferred directory: mode and time through the root's descriptor. */
  function Stamp(disk: map<Path, Meta>, path: Path): map<Path, Meta> {
    if path in disk then disk[path := disk[path].(mode := DIR_MODE, stamped := true)] else disk
  }

  function StampAll(disk: map<Path, Meta>, dirs: seq<Path>): map<Path, Meta> {
    if dirs == [] then disk else Stamp(StampAll(disk, dirs[..|dirs| - 1]), dirs[|dirs| - 1])
  }

  /** Once hasher and pool are drained: the deferred directories, then the root. */
  function Finished(disk: map<Path, Meta>, deferred: seq<Path>): map<Path, Meta> {
    var stamped := StampAll(disk, deferred);
    if [] in stamped then stamped[[] := Canonicalised(stamped[[]])] else stamped
  }

  // -------------------------------------------------- what it has to come to

  /** Canonical metadata for every node, path by path. */
  function Canonical(ct: ChunkedTree, path: Path): map<Path, Meta>
    decreases ct, 1
  {
    match ct
    case Regular(executable, _) => map[path := Meta(FileKind, if executable then EXEC_MODE else FILE_MODE, true)]
    case Symlink(_) => map[path := Meta(LinkKind, FRESH_DIR_MODE, true)]
    case Directory(entries) => map[path := Meta(DirKind, DIR_MODE, true)] + CanonicalEntries(entries, path)
  }

  function CanonicalEntries(entries: seq<Entry<seq<bytes>>>, path: Path): map<Path, Meta>
    decreases entries, 0
  {
    if entries == [] then map[] else
    CanonicalEntries(entries[..|entries| - 1], path) +
    Canonical(entries[|entries| - 1].node, path + [entries[|entries| - 1].name])
  }

  /** The directories of a tree in post-order. */
  function Dirs(ct: ChunkedTree, path: Path): seq<Path>
    decreases ct, 1
  {
    if ct.Directory? then EntryDirs(ct.entries, path) + [path] else []
  }

  function EntryDirs(entries: seq<Entry<seq<bytes>>>, path: Path): seq<Path>
    decreases entries, 0
  {
    if entries == [] then [] else
    EntryDirs(entries[..|entries| - 1], path) +
    Dirs(entries[|entries| - 1].node, path + [entries[|entries| - 1].name])
  }

  // --------------------------------------------------- swaps change nothing else

  /** The disk with its directories as they will be in the end. */
  function Settled(disk: map<Path, Meta>): map<Path, Meta> {
    map p | p in disk :: if disk[p].kind.DirKind? then Meta(DirKind, DIR_MODE, true) else disk[p]
  }

  function Abs(s: Restoring): Restoring {
    s.(disk := Settled(s.disk), finished := {}, swapped := map[])
  }

  predicate IsCanonicalFile(m: Meta) {
    m.kind.FileKind? && (m.mode == FILE_MODE || m.mode == EXEC_MODE) && m.stamped
  }

  /** Finished files are canonical but for what was swapped in, and nobody writes to them
      any more. */
  ghost predicate Inv(s: Restoring, umask: nat) {
    (forall p :: p in s.finished && p !in s.swapped ==> p in s.disk && IsCanonicalFile(s.disk[p])) &&
    (forall p :: p in s.swapped ==> p in s.finished && p in s.disk && s.disk[p] == s.swapped[p] && s.disk[p].kind.FileKind?) &&
    (s.open.Some? ==>
      var (p, made) := s.open.value;
      p in s.disk && p !in s.finished && s.disk[p].kind.FileKind? &&
      s.disk[p].mode == if made then EXEC_MODE else AndNot(FILE_MODE, umask, MODE_BITS))
  }

  lemma BumpSettles(disk: map<Path, Meta>, path: Path)
    ensures Settled(Bump(disk, path)) == Settled(disk)
    ensures Bump(disk, path).Keys == disk.Keys
    ensures forall p :: p in disk && !disk[p].kind.DirKind? ==> Bump(disk, path)[p] == disk[p]
  {
  }

  lemma SettledUpdate(disk: map<Path, Meta>, path: Path, m: Meta)
    ensures Settled(disk[path := m]) == Settled(disk)[path := if m.kind.DirKind? then Meta(DirKind, DIR_MODE, true) else m]
  {
  }

  lemma SettledTwice(disk: map<Path, Meta>)
    ensures Settled(Settled(disk)) == Settled(disk)
  {
  }

  lemma RestoreKeepsInv(s: Restoring, e: Event, umask: nat)
    requires Inv(s, umask)
    ensures Inv(Restore(s, e, umask), umask)
  {
    hide AndNot, Bump;
    match e
    case DirBegin(path) => BumpSettles(s.disk, path);
    case FileBegin(path) => BumpSettles(s.disk, path);
    case Link(path, _) => BumpSettles(s.disk, path);
    case FileEnd(_) =>
      if Preserves(umask) {
        PreservedFileMode(umask);
      }
    case _ =>
  }

  /** The disk as if what was swapped in had been canonical. */
  function Undone(disk: map<Path, Meta>, swapped: map<Path, Meta>): map<Path, Meta> {
    map p | p in disk :: if p in swapped then Canonicalised(disk[p]) else disk[p]
  }

  function Clean(s: Restoring): Restoring {
    s.(disk := Undone(s.disk, s.swapped), swapped := map[])
  }

  lemma CleanIsSound(s: Restoring, umask: nat)
    requires Inv(s, umask)
    ensures Inv(Clean(s), umask)
  {
    hide AndNot;
  }

  /** A new entry, seen through what was swapped in: directories never are. */
  lemma CreateUndone(disk: map<Path, Meta>, swapped: map<Path, Meta>, path: Path, m: Meta)
    requires forall p :: p in swapped && p in disk ==> !disk[p].kind.DirKind?
    ensures Undone(Bump(disk, path)[path := m], swapped - {path}) == Bump(Undone(disk, swapped), path)[path := m]
  {
    hide Canonicalised;
    CanonicalisedKind(disk, swapped);
  }

  lemma CanonicalisedKind(disk: map<Path, Meta>, swapped: map<Path, Meta>)
    ensures Undone(disk, swapped).Keys == disk.Keys
    ensures forall p :: p in disk ==> Undone(disk, swapped)[p].kind == disk[p].kind
  {
  }

  lemma UpdateUndone(disk: map<Path, Meta>, swapped: map<Path, Meta>, path: Path, m: Meta)
    requires path !in swapped
    ensures Undone(disk[path := m], swapped) == Undone(disk, swapped)[path := m]
    ensures path in disk ==> path in Undone(disk, swapped) && Undone(disk, swapped)[path] == disk[path]
  {
  }

  /** The restore's own calls neither see nor change what was swapped in. */
  lemma RestoreCleans(s: Restoring, e: Event, umask: nat)
    requires Inv(s, umask)
    ensures Clean(Restore(s, e, umask)) == Restore(Clean(s), e, umask)
  {
    hide AndNot, Bump, Undone, Preserves;
    match e
    case DirBegin(path) =>
      CreateUndone(s.disk, s.swapped, path, Meta(DirKind, AndNot(FRESH_DIR_MODE, umask, MODE_BITS), false));
      NoneLeft(map[], path);
    case FileBegin(path) =>
      CreateUndone(s.disk, s.swapped, path, Meta(FileKind, AndNot(FILE_MODE, umask, MODE_BITS), false));
      NoneLeft(map[], path);
    case Link(path, _) =>
      CreateUndone(s.disk, s.swapped, path, Meta(LinkKind, FRESH_DIR_MODE, true));
      NoneLeft(map[], path);
    case _ =>
      if s.open.Some? {
        var (path, made) := s.open.value;
        var m := s.disk[path];
        UpdateUndone(s.disk, s.swapped, path, m.(mode := EXEC_MODE));
        UpdateUndone(s.disk, s.swapped, path, m.(stamped := false));
        UpdateUndone(s.disk, s.swapped, path, Meta(m.kind, if !Preserves(umask) && !made then FILE_MODE else m.mode, true));
      }
  }

  lemma NoneLeft(none: map<Path, Meta>, path: Path)
    requires none == map[]
    ensures none - {path} == none
  {
  }

  lemma SwapKeepsInv(s: Restoring, path: Path, m: Meta, umask: nat)
    requires Inv(s, umask)
    ensures Inv(Swap(s, path, m), umask)
  {
    hide AndNot, Bump;
    BumpSettles(s.disk, path);
  }

  /** A swap shows in its file and nowhere else. */
  lemma SwapShowsInItsFile(s: Restoring, path: Path, m: Meta, umask: nat)
    requires Inv(s, umask)
    ensures Abs(Clean(Swap(s, path, m))) == Abs(Clean(s))
  {
    hide AndNot, Bump, Settled;
    if path in s.finished && path in s.disk && SameDump(m, s.disk[path]) {
      var clean := Undone(s.disk, s.swapped);
      BumpUndone(s.disk, s.swapped, path);
      BumpSettles(clean, path);
      assert Canonicalised(m) == clean[path];
      assert Undone(Bump(s.disk, path)[path := m], s.swapped[path := m]) == Bump(clean, path)[path := clean[path]];
      SettledUpdate(Bump(clean, path), path, clean[path]);
      SettledUpdate(clean, path, clean[path]);
      assert clean[path := clean[path]] == clean;
    }
  }

  lemma BumpUndone(disk: map<Path, Meta>, swapped: map<Path, Meta>, path: Path)
    requires forall p :: p in swapped && p in disk ==> !disk[p].kind.DirKind?
    ensures Undone(Bump(disk, path), swapped) == Bump(Undone(disk, swapped), path)
    ensures Bump(disk, path).Keys == disk.Keys
  {
    hide Canonicalised;
    CanonicalisedKind(disk, swapped);
  }

  /** A call of the restore sees nothing of the directories' times and modes. */
  function Quiet(a: Restoring, e: Event, umask: nat): Restoring {
    Abs(Restore(a, e, umask))
  }

  lemma CreateSettles(disk: map<Path, Meta>, path: Path, m: Meta)
    ensures Settled(Bump(disk, path)[path := m]) == Settled(Bump(Settled(disk), path)[path := m])
  {
    hide Settled, Bump;
    BumpSettles(disk, path);
    BumpSettles(Settled(disk), path);
    SettledUpdate(Bump(disk, path), path, m);
    SettledUpdate(Bump(Settled(disk), path), path, m);
    SettledTwice(disk);
  }

  lemma UpdateSettles(disk: map<Path, Meta>, path: Path, m: Meta)
    ensures Settled(disk[path := m]) == Settled(Settled(disk)[path := m])
    ensures path in disk <==> path in Settled(disk)
    ensures path in disk && !disk[path].kind.DirKind? ==> Settled(disk)[path] == disk[path]
  {
    SettledUpdate(disk, path, m);
    SettledUpdate(Settled(disk), path, m);
    SettledTwice(disk);
  }

  lemma RestoreIsQuiet(s: Restoring, e: Event, umask: nat)
    requires Inv(s, umask)
    ensures Abs(Restore(s, e, umask)) == Quiet(Abs(s), e, umask)
  {
    hide AndNot, Bump, Settled, Preserves;
    SettledTwice(s.disk);
    match e
    case DirBegin(path) => CreateSettles(s.disk, path, Meta(DirKind, AndNot(FRESH_DIR_MODE, umask, MODE_BITS), false));
    case FileBegin(path) => CreateSettles(s.disk, path, Meta(FileKind, AndNot(FILE_MODE, umask, MODE_BITS), false));
    case Link(path, _) => CreateSettles(s.disk, path, Meta(LinkKind, FRESH_DIR_MODE, true));
    case _ =>
      if s.open.Some? {
        var (path, made) := s.open.value;
        var m := s.disk[path];
        UpdateSettles(s.disk, path, m.(mode := EXEC_MODE));
        UpdateSettles(s.disk, path, m.(stamped := false));
        UpdateSettles(s.disk, path, Meta(m.kind, if !Preserves(umask) && !made then FILE_MODE else m.mode, true));
      }
  }

  function QuietRun(a: Restoring, events: seq<Event>, umask: nat): Restoring {
    if events == [] then a
    else Quiet(QuietRun(a, events[..|events| - 1], umask), events[|events| - 1], umask)
  }

  /** However the swaps fall between the restore's calls, up to the directories' own
      metadata and the files swapped in the outcome is that of the calls alone. */
  lemma {:induction false} SwapsAreInvisible(s: Restoring, acts: seq<Act>, umask: nat)
    requires Inv(s, umask)
    ensures Inv(Run(s, acts, umask), umask)
    ensures Abs(Clean(Run(s, acts, umask))) == QuietRun(Abs(Clean(s)), Calls(acts), umask)
  {
    hide Restore, Swap, Abs, Clean, Inv, Quiet;
    if acts != [] {
      var few, last := acts[..|acts| - 1], acts[|acts| - 1];
      SwapsAreInvisible(s, few, umask);
      var u := Run(s, few, umask);
      match last
      case Ev(e) =>
        RestoreKeepsInv(u, e, umask);
        RestoreCleans(u, e, umask);
        CleanIsSound(u, umask);
        RestoreIsQuiet(Clean(u), e, umask);
        assert (Calls(few) + [e])[..|Calls(few)|] == Calls(few);
      case SwapFile(path, m) =>
        SwapKeepsInv(u, path, m, umask);
        SwapShowsInItsFile(u, path, m, umask);
        assert Calls(few) + [] == Calls(few);
    }
  }

  // --------------------------------------------------- the calls of a whole tree

  lemma {:induction false} QuietAppend(a: Restoring, x: seq<Event>, y: seq<Event>, umask: nat)
    ensures QuietRun(a, x + y, umask) == QuietRun(QuietRun(a, x, umask), y, umask)
  {
    hide Quiet;
    if y == [] {
      assert x + y == x;
    } else {
      var n := |y| - 1;
      assert (x + y)[..|x| + n] == x + y[..n];
      QuietAppend(a, x, y[..n], umask);
    }
  }

  lemma QuietOne(a: Restoring, x: seq<Event>, e: Event, umask: nat)
    ensures QuietRun(a, x + [e], umask) == Quiet(QuietRun(a, x, umask), e, umask)
    ensures QuietRun(a, [e], umask) == Quiet(a, e, umask)
  {
    assert (x + [e])[..|x|] == x && [e][..0] == [];
  }

  /** A state in which only files' own calls matter: nothing open, directories settled. */
  predicate Calm(a: Restoring) {
    a.open.None? && a.finished == {} && a.swapped == map[] && Settled(a.disk) == a.disk
  }

  function With(a: Restoring, more: map<Path, Meta>, dirs: seq<Path>): Restoring {
    a.(disk := a.disk + more, deferred := a.deferred + dirs)
  }

  lemma {:induction false} QuietData(a: Restoring, chunks: seq<bytes>, umask: nat)
    requires a.open.Some? && a.open.value.0 in a.disk && !a.disk[a.open.value.0].stamped && Settled(a.disk) == a.disk
    requires a.finished == {} && a.swapped == map[]
    ensures QuietRun(a, DataEvents(chunks), umask) == a
  {
    if chunks != [] {
      var n := |chunks| - 1;
      QuietData(a, chunks[..n], umask);
      assert DataEvents(chunks) == DataEvents(chunks[..n]) + [Data(chunks[n])];
      QuietOne(a, DataEvents(chunks[..n]), Data(chunks[n]), umask);
      var p := a.open.value.0;
      assert a.disk[p].(stamped := false) == a.disk[p] && a.disk[p := a.disk[p]] == a.disk;
    }
  }

  lemma QuietFile(a: Restoring, executable: bool, chunks: seq<bytes>, path: Path, umask: nat)
    requires Calm(a)
    ensures QuietRun(a, RegularEvents(path, executable, chunks), umask) ==
            With(a, map[path := Meta(FileKind, if executable then EXEC_MODE else FILE_MODE, true)], [])
  {
    hide QuietRun, Quiet, Flatten;
    var e1 := [FileBegin(path)];
    var e2 := e1 + (if executable then [Exec] else []);
    var e3 := e2 + [Size(|Flatten(chunks)|)];
    var e4 := e3 + DataEvents(chunks);
    QuietOne(a, [], FileBegin(path), umask);
    QuietOne(a, e1, Exec, umask);
    assert e1 + [] == e1;
    QuietOne(a, e2, Size(|Flatten(chunks)|), umask);
    QuietAppend(a, e3, DataEvents(chunks), umask);
    QuietOne(a, e4, FileEnd(path), umask);
    QuietWritten(a, path, executable, umask, |Flatten(chunks)|);
    var w := Written(a, path, executable, umask);
    assert QuietRun(a, e3, umask) == w;
    QuietData(w, chunks, umask);
    QuietEnd(a, path, executable, umask);
  }

  /** A file between its first and its last call. */
  function Written(a: Restoring, path: Path, executable: bool, umask: nat): Restoring {
    a.(disk := a.disk[path := Meta(FileKind, if executable then EXEC_MODE else AndNot(FILE_MODE, umask, MODE_BITS), false)],
       open := Some((path, executable)))
  }

  lemma QuietWritten(a: Restoring, path: Path, executable: bool, umask: nat, size: nat)
    requires Calm(a)
    ensures Quiet(a, FileBegin(path), umask) == Written(a, path, false, umask)
    ensures Quiet(Written(a, path, false, umask), Exec, umask) == Written(a, path, true, umask)
    ensures Quiet(Written(a, path, executable, umask), Size(size), umask) == Written(a, path, executable, umask)
    ensures Settled(Written(a, path, executable, umask).disk) == Written(a, path, executable, umask).disk
  {
    hide AndNot, Bump, Settled, Preserves;
    BumpSettles(a.disk, path);
    var plain, exec := Written(a, path, false, umask), Written(a, path, true, umask);
    SettledUpdate(Bump(a.disk, path), path, plain.disk[path]);
    SettledUpdate(a.disk, path, plain.disk[path]);
    SettledUpdate(a.disk, path, exec.disk[path]);
    assert plain.disk[path := exec.disk[path]] == exec.disk;
  }

  lemma QuietEnd(a: Restoring, path: Path, executable: bool, umask: nat)
    requires Calm(a)
    ensures Quiet(Written(a, path, executable, umask), FileEnd(path), umask) ==
            With(a, map[path := Meta(FileKind, if executable then EXEC_MODE else FILE_MODE, true)], [])
  {
    hide AndNot, Settled, Preserves;
    var w := Written(a, path, executable, umask);
    var m := Meta(FileKind, if executable then EXEC_MODE else FILE_MODE, true);
    if Preserves(umask) {
      PreservedFileMode(umask);
    }
    assert w.disk[path := m] == a.disk[path := m] == a.disk + map[path := m];
    SettledUpdate(a.disk, path, m);
    assert a.deferred + [] == a.deferred;
  }

  lemma SettledMerge(disk: map<Path, Meta>, more: map<Path, Meta>)
    requires Settled(disk) == disk && Settled(more) == more
    ensures Settled(disk + more) == disk + more
  {
    forall p | p in disk + more ensures Settled(disk + more)[p] == (disk + more)[p] {
      assert p in more ==> Settled(more)[p] == more[p];
      assert p in disk ==> Settled(disk)[p] == disk[p];
    }
  }

  lemma {:induction false} CanonicalIsSettled(ct: ChunkedTree, path: Path)
    ensures Settled(Canonical(ct, path)) == Canonical(ct, path)
    decreases ct, 1
  {
    if ct.Directory? {
      var top: map<Path, Meta> := map[path := Meta(DirKind, DIR_MODE, true)];
      EntriesAreSettled(ct.entries, path);
      SettledMerge(top, CanonicalEntries(ct.entries, path));
    }
  }

  lemma {:induction false} EntriesAreSettled(entries: seq<Entry<seq<bytes>>>, path: Path)
    ensures Settled(CanonicalEntries(entries, path)) == CanonicalEntries(entries, path)
    decreases entries, 0
  {
    if entries != [] {
      var n := |entries| - 1;
      EntriesAreSettled(entries[..n], path);
      CanonicalIsSettled(entries[n].node, path + [entries[n].name]);
      SettledMerge(CanonicalEntries(entries[..n], path), Canonical(entries[n].node, path + [entries[n].name]));
    }
  }

  lemma QuietDir(a: Restoring, path: Path, umask: nat)
    requires Calm(a)
    ensures Quiet(a, DirBegin(path), umask) == With(a, map[path := Meta(DirKind, DIR_MODE, true)], [])
    ensures Quiet(a, DirEnd(path), umask) == With(a, map[], if path == [] then [] else [path])
    ensures Calm(Quiet(a, DirBegin(path), umask))
  {
    hide AndNot, Bump, Settled;
    BumpSettles(a.disk, path);
    SettledUpdate(Bump(a.disk, path), path, Meta(DirKind, AndNot(FRESH_DIR_MODE, umask, MODE_BITS), false));
    SettledUpdate(a.disk, path, Meta(DirKind, DIR_MODE, true));
    assert a.disk[path := Meta(DirKind, DIR_MODE, true)] == a.disk + map[path := Meta(DirKind, DIR_MODE, true)];
    assert a.disk + map[] == a.disk && a.deferred + [] == a.deferred;
  }

  lemma QuietLink(a: Restoring, path: Path, target: blob, umask: nat)
    requires Calm(a)
    ensures Quiet(a, Link(path, target), umask) == With(a, map[path := Meta(LinkKind, FRESH_DIR_MODE, true)], [])
  {
    hide AndNot, Bump, Settled;
    BumpSettles(a.disk, path);
    SettledUpdate(Bump(a.disk, path), path, Meta(LinkKind, FRESH_DIR_MODE, true));
    assert a.disk[path := Meta(LinkKind, FRESH_DIR_MODE, true)] == a.disk + map[path := Meta(LinkKind, FRESH_DIR_MODE, true)];
    assert a.deferred + [] == a.deferred;
  }

  lemma WithTwice(a: Restoring, m: map<Path, Meta>, n: map<Path, Meta>, d: seq<Path>, e: seq<Path>)
    ensures With(With(a, m, d), n, e) == With(a, m + n, d + e)
  {
    assert a.disk + m + n == a.disk + (m + n);
    assert a.deferred + d + e == a.deferred + (d + e);
  }

  lemma WithIsCalm(a: Restoring, m: map<Path, Meta>, d: seq<Path>)
    requires Calm(a) && Settled(m) == m
    ensures Calm(With(a, m, d))
  {
    SettledMerge(a.disk, m);
  }

  /** Directories below the root of the import. */
  function NonRoot(ct: ChunkedTree, path: Path): seq<Path> {
    if path == [] && ct.Directory? then EntryDirs(ct.entries, path) else Dirs(ct, path)
  }

  /** Restoring a tree makes its nodes and defers its directories in post-order. */
  lemma {:induction false} QuietTree(a: Restoring, ct: ChunkedTree, path: Path, umask: nat)
    requires Calm(a)
    ensures QuietRun(a, EventsOf(ct, path), umask) == With(a, Canonical(ct, path), NonRoot(ct, path))
    decreases ct, 1
  {
    hide Calm, Quiet, QuietRun, With;
    match ct
    case Regular(executable, chunks) => QuietFile(a, executable, chunks, path, umask);
    case Symlink(target) =>
      QuietLink(a, path, target, umask);
      QuietOne(a, [], Link(path, target), umask);
    case Directory(entries) =>
      var top: map<Path, Meta> := map[path := Meta(DirKind, DIR_MODE, true)];
      var inner := EntriesEvents(entries, path);
      var below := CanonicalEntries(entries, path);
      QuietOne(a, [], DirBegin(path), umask);
      QuietDir(a, path, umask);
      var b := Quiet(a, DirBegin(path), umask);
      QuietAppend(a, [DirBegin(path)], inner, umask);
      QuietEntries(b, entries, path, umask);
      QuietOne(a, [DirBegin(path)] + inner, DirEnd(path), umask);
      var c := With(b, below, EntryDirs(entries, path));
      EntriesAreSettled(entries, path);
      WithIsCalm(b, below, EntryDirs(entries, path));
      QuietDir(c, path, umask);
      WithTwice(a, top, below, [], EntryDirs(entries, path));
      WithTwice(a, top + below, map[], [] + EntryDirs(entries, path), if path == [] then [] else [path]);
      assert top + below + map[] == top + below;
      assert [] + EntryDirs(entries, path) + [] == EntryDirs(entries, path);
      assert [] + EntryDirs(entries, path) + [path] == EntryDirs(entries, path) + [path];
  }

  lemma {:induction false} QuietEntries(a: Restoring, entries: seq<Entry<seq<bytes>>>, path: Path, umask: nat)
    requires Calm(a)
    ensures QuietRun(a, EntriesEvents(entries, path), umask) ==
            With(a, CanonicalEntries(entries, path), EntryDirs(entries, path))
    decreases entries, 0
  {
    hide Calm, Quiet, With, EventsOf, Canonical, Dirs;
    if entries == [] {
      WithNothing(a);
    } else {
      hide QuietRun;
      var n := |entries| - 1;
      var sub := path + [entries[n].name];
      var before, last := CanonicalEntries(entries[..n], path), Canonical(entries[n].node, sub);
      QuietEntries(a, entries[..n], path, umask);
      QuietAppend(a, EntriesEvents(entries[..n], path), EventsOf(entries[n].node, sub), umask);
      EntriesAreSettled(entries[..n], path);
      WithIsCalm(a, before, EntryDirs(entries[..n], path));
      QuietTree(With(a, before, EntryDirs(entries[..n], path)), entries[n].node, sub, umask);
      WithTwice(a, before, last, EntryDirs(entries[..n], path), Dirs(entries[n].node, sub));
    }
  }

  lemma WithNothing(a: Restoring)
    ensures With(a, map[], []) == a
  {
    assert a.disk + map[] == a.disk && a.deferred + [] == a.deferred;
  }

  // ------------------------------------------------------------------ stamping

  lemma {:induction false} DirsAreListed(ct: ChunkedTree, path: Path, p: Path)
    requires p in Canonical(ct, path) && Canonical(ct, path)[p].kind.DirKind?
    ensures p in Dirs(ct, path)
    decreases ct, 1
  {
    if ct.Directory? && p in CanonicalEntries(ct.entries, path) {
      EntryDirsAreListed(ct.entries, path, p);
    }
  }

  lemma {:induction false} EntryDirsAreListed(entries: seq<Entry<seq<bytes>>>, path: Path, p: Path)
    requires p in CanonicalEntries(entries, path) && CanonicalEntries(entries, path)[p].kind.DirKind?
    ensures p in EntryDirs(entries, path)
    decreases entries, 0
  {
    var n := |entries| - 1;
    var sub := path + [entries[n].name];
    if p in Canonical(entries[n].node, sub) {
      DirsAreListed(entries[n].node, sub, p);
    } else {
      EntryDirsAreListed(entries[..n], path, p);
    }
  }

  /** Every deferred path is a directory of the tree, unless a later node of the same
      name replaced it. */
  lemma {:induction false} StampAllIs(disk: map<Path, Meta>, dirs: seq<Path>)
    requires forall p :: p in dirs && p in disk ==> disk[p].kind.DirKind?
    ensures StampAll(disk, dirs).Keys == disk.Keys
    ensures forall p :: p in disk ==>
              StampAll(disk, dirs)[p] == if p in dirs then Meta(DirKind, DIR_MODE, true) else disk[p]
  {
    if dirs != [] {
      var few := dirs[..|dirs| - 1];
      assert forall p :: p in few ==> p in dirs;
      StampAllIs(disk, few);
      assert forall p :: p in dirs <==> p in few || p == dirs[|dirs| - 1];
    }
  }

  /** Names of one directory differ. */
  ghost predicate Distinct(ct: ChunkedTree) {
    match ct
    case Directory(entries) =>
      (forall i :: 0 <= i < |entries| ==> Distinct(entries[i].node)) &&
      (forall i, j :: 0 <= i < j < |entries| ==> entries[i].name != entries[j].name)
    case _ => true
  }

  lemma {:induction false} ValidIsDistinct(ct: ChunkedTree, t: Tree, depth: nat)
    requires Splits(ct, t) && Valid(t, depth)
    ensures Distinct(ct)
    decreases t
  {
    hide Less;
    if t.Directory? {
      ValidEntriesPointwise(t.entries, depth, []);
      forall i | 0 <= i < |t.entries| ensures Distinct(ct.entries[i].node) {
        ValidIsDistinct(ct.entries[i].node, t.entries[i].node, depth + 1);
      }
      forall i, j | 0 <= i < j < |t.entries| ensures ct.entries[i].name != ct.entries[j].name {
        LessIsStrictTotalOrder(t.entries[i].name, t.entries[i].name, t.entries[i].name);
      }
    }
  }

  lemma {:induction false} NodesBelow(ct: ChunkedTree, path: Path, p: Path)
    requires p in Canonical(ct, path) || p in Dirs(ct, path)
    ensures path <= p
    decreases ct, 1
  {
    if ct.Directory? && p != path {
      var i := EntryNodesBelow(ct.entries, path, p);
    }
  }

  lemma {:induction false} EntryNodesBelow(entries: seq<Entry<seq<bytes>>>, path: Path, p: Path) returns (i: nat)
    requires p in CanonicalEntries(entries, path) || p in EntryDirs(entries, path)
    ensures i < |entries| && path + [entries[i].name] <= p
    decreases entries, 0
  {
    var n := |entries| - 1;
    var sub := path + [entries[n].name];
    if p in Canonical(entries[n].node, sub) || p in Dirs(entries[n].node, sub) {
      NodesBelow(entries[n].node, sub, p);
      i := n;
    } else {
      i := EntryNodesBelow(entries[..n], path, p);
    }
  }

  /** What a path leads to is unambiguous: every listed directory is one in the end. */
  lemma {:induction false} DirsAreDirs(ct: ChunkedTree, path: Path, p: Path)
    requires Distinct(ct) && p in Dirs(ct, path)
    ensures p in Canonical(ct, path) && Canonical(ct, path)[p].kind.DirKind?
    decreases ct, 1
  {
    if p in EntryDirs(ct.entries, path) {
      EntryDirsAreDirs(ct.entries, path, p);
    } else if p in CanonicalEntries(ct.entries, path) {
      var i := EntryNodesBelow(ct.entries, path, p);
    }
  }

  lemma {:induction false} EntryDirsAreDirs(entries: seq<Entry<seq<bytes>>>, path: Path, p: Path)
    requires p in EntryDirs(entries, path)
    requires forall i :: 0 <= i < |entries| ==> Distinct(entries[i].node)
    requires forall i, j :: 0 <= i < j < |entries| ==> entries[i].name != entries[j].name
    ensures p in CanonicalEntries(entries, path) && CanonicalEntries(entries, path)[p].kind.DirKind?
    decreases entries, 0
  {
    var n := |entries| - 1;
    var sub := path + [entries[n].name];
    if p in Dirs(entries[n].node, sub) {
      DirsAreDirs(entries[n].node, sub, p);
    } else {
      EntryDirsAreDirs(entries[..n], path, p);
      var i := EntryNodesBelow(entries[..n], path, p);
      if p in Canonical(entries[n].node, sub) {
        NodesBelow(entries[n].node, sub, p);
        SamePlace(path, entries[i].name, entries[n].name, p);
      }
    }
  }

  lemma SamePlace(path: Path, a: blob, b: blob, p: Path)
    requires path + [a] <= p && path + [b] <= p
    ensures a == b
  {
    assert p[|path|] == (path + [a])[|path|] == (path + [b])[|path|];
  }

  /** Where what was swapped in stays as it is: everywhere but at the root, which is made
      canonical in its final place. */
  function Kept(swapped: map<Path, Meta>): map<Path, Meta> {
    map p | p in swapped && p != [] :: swapped[p]
  }

  predicate AllCanonical(metas: map<Path, Meta>) {
    forall p :: p in metas ==> metas[p] == Canonicalised(metas[p])
  }

  /** A canonical capturing import, whatever its swaps do and whenever: the deferred
      list is the non-root directories in post-order, and once they and the root are
      stamped every node has its canonical mode and time, but for files for which a farm
      inode was swapped in, and those have that inode's. So all is canonical exactly if
      every inode swapped in last was. */
  lemma EverythingCanonical(acts: seq<Act>, ct: ChunkedTree, t: Tree, umask: nat)
    requires Calls(acts) == EventsOf(ct, []) && Splits(ct, t) && Valid(t, 0)
    ensures var s := Run(Restoring(map[], [], None, {}, map[]), acts, umask);
      s.deferred == NonRoot(ct, []) &&
      Finished(s.disk, s.deferred) == Canonical(ct, []) + Kept(s.swapped) &&
      (forall p :: p in s.swapped ==> p in Canonical(ct, []) && Canonical(ct, [])[p] == Canonicalised(s.swapped[p])) &&
      (Finished(s.disk, s.deferred) == Canonical(ct, []) <==> AllCanonical(Kept(s.swapped)))
  {
    hide Run, QuietRun, Quiet, Canonical, Dirs, EventsOf, AndNot, Finished;
    var s0 := Restoring(map[], [], None, {}, map[]);
    var s := Run(s0, acts, umask);
    assert Settled(Undone(s0.disk, s0.swapped)) == map[];
    SwapsAreInvisible(s0, acts, umask);
    QuietTree(s0, ct, [], umask);
    assert map[] + Canonical(ct, []) == Canonical(ct, []);
    assert [] + NonRoot(ct, []) == NonRoot(ct, []);
    ValidIsDistinct(ct, t, 0);
    FinishedIs(s, ct, umask);
    KeptShows(Canonical(ct, []), s.swapped);
  }

  lemma KeptShows(canonical: map<Path, Meta>, swapped: map<Path, Meta>)
    requires forall p :: p in swapped ==> p in canonical && canonical[p] == Canonicalised(swapped[p])
    ensures canonical + Kept(swapped) == canonical <==> AllCanonical(Kept(swapped))
  {
    hide Canonicalised;
    if canonical + Kept(swapped) == canonical {
      forall p | p in Kept(swapped) ensures Kept(swapped)[p] == Canonicalised(Kept(swapped)[p]) {
        assert (canonical + Kept(swapped))[p] == Kept(swapped)[p];
      }
    }
  }

  lemma RootIsLast(ct: ChunkedTree)
    ensures forall p :: p in Dirs(ct, []) <==> p in NonRoot(ct, []) || (ct.Directory? && p == [])
    ensures [] in Canonical(ct, [])
  {
  }

  lemma {:induction false} FilesAreCanonical(ct: ChunkedTree, path: Path, p: Path)
    requires p in Canonical(ct, path)
    ensures Canonicalised(Canonical(ct, path)[p]) == Canonical(ct, path)[p]
    decreases ct, 1
  {
    if ct.Directory? && p in CanonicalEntries(ct.entries, path) {
      EntriesAreCanonical(ct.entries, path, p);
    }
  }

  lemma {:induction false} EntriesAreCanonical(entries: seq<Entry<seq<bytes>>>, path: Path, p: Path)
    requires p in CanonicalEntries(entries, path)
    ensures Canonicalised(CanonicalEntries(entries, path)[p]) == CanonicalEntries(entries, path)[p]
    decreases entries, 0
  {
    var n := |entries| - 1;
    var sub := path + [entries[n].name];
    if p in Canonical(entries[n].node, sub) {
      FilesAreCanonical(entries[n].node, sub, p);
    } else {
      EntriesAreCanonical(entries[..n], path, p);
    }
  }

  lemma StampedIsCanonical(disk: map<Path, Meta>, deferred: seq<Path>, ct: ChunkedTree)
    requires Settled(disk) == Canonical(ct, []) && deferred == NonRoot(ct, []) && Distinct(ct)
    ensures Finished(disk, deferred) == Canonical(ct, [])
  {
    hide Canonical, Dirs, NonRoot;
    RootIsLast(ct);
    assert forall p :: p in disk <==> p in Settled(disk);
    assert forall p :: p in disk ==> disk[p].kind == Settled(disk)[p].kind;
    forall p | p in deferred && p in disk ensures disk[p].kind.DirKind? {
      DirsAreDirs(ct, [], p);
    }
    StampAllIs(disk, deferred);
    var stamped := StampAll(disk, deferred);
    forall p | p in disk ensures Finished(disk, deferred)[p] == Canonical(ct, [])[p] {
      FilesAreCanonical(ct, [], p);
      if disk[p].kind.DirKind? {
        DirsAreListed(ct, [], p);
      }
    }
  }

  lemma DeferredAreDirs(disk: map<Path, Meta>, deferred: seq<Path>, ct: ChunkedTree)
    requires Settled(disk) == Canonical(ct, []) && deferred == NonRoot(ct, []) && Distinct(ct)
    ensures forall p :: p in deferred && p in disk ==> disk[p].kind.DirKind?
  {
    hide Canonical, Dirs, NonRoot;
    RootIsLast(ct);
    assert forall p :: p in disk <==> p in Settled(disk);
    assert forall p :: p in disk ==> disk[p].kind == Settled(disk)[p].kind;
    forall p | p in deferred && p in disk ensures disk[p].kind.DirKind? {
      DirsAreDirs(ct, [], p);
    }
  }

  lemma FinishedAt(disk: map<Path, Meta>, deferred: seq<Path>)
    requires forall p :: p in deferred && p in disk ==> disk[p].kind.DirKind?
    ensures Finished(disk, deferred).Keys == disk.Keys
    ensures forall p :: p in disk && p !in deferred ==>
              Finished(disk, deferred)[p] == if p == [] then Canonicalised(disk[p]) else disk[p]
    ensures forall p :: p in disk && p in deferred ==> Finished(disk, deferred)[p] == Meta(DirKind, DIR_MODE, true)
  {
    StampAllIs(disk, deferred);
  }

  /** Stamping reaches the swapped files at the root only. */
  lemma FinishedUndone(disk: map<Path, Meta>, deferred: seq<Path>, swapped: map<Path, Meta>)
    requires forall p :: p in deferred && p in disk ==> disk[p].kind.DirKind?
    requires forall p :: p in swapped ==> p in disk && disk[p] == swapped[p] && disk[p].kind.FileKind?
    ensures Finished(disk, deferred) == Finished(Undone(disk, swapped), deferred) + Kept(swapped)
  {
    hide Canonicalised, Finished;
    CanonicalisedKind(disk, swapped);
    var clean := Undone(disk, swapped);
    FinishedAt(disk, deferred);
    FinishedAt(clean, deferred);
    forall p | p in disk ensures Finished(disk, deferred)[p] == (Finished(clean, deferred) + Kept(swapped))[p] {
      CanonicalisedTwice(disk[p]);
      assert p in swapped ==> clean[p] == Canonicalised(disk[p]);
    }
  }

  lemma CanonicalisedTwice(m: Meta)
    ensures Canonicalised(Canonicalised(m)) == Canonicalised(m)
  {
  }

  lemma FinishedIs(s: Restoring, ct: ChunkedTree, umask: nat)
    requires Inv(s, umask) && Settled(Undone(s.disk, s.swapped)) == Canonical(ct, [])
    requires s.deferred == NonRoot(ct, []) && Distinct(ct)
    ensures Finished(s.disk, s.deferred) == Canonical(ct, []) + Kept(s.swapped)
    ensures forall p :: p in s.swapped ==> p in Canonical(ct, []) && Canonical(ct, [])[p] == Canonicalised(s.swapped[p])
  {
    hide Canonical, Dirs, NonRoot, Finished, Canonicalised, AndNot;
    var clean := Undone(s.disk, s.swapped);
    CanonicalisedKind(s.disk, s.swapped);
    StampedIsCanonical(clean, s.deferred, ct);
    DeferredAreDirs(clean, s.deferred, ct);
    FinishedUndone(s.disk, s.deferred, s.swapped);
    forall p | p in s.swapped
      ensures p in Canonical(ct, []) && Canonical(ct, [])[p] == Canonicalised(s.swapped[p])
    {
      assert p in clean && clean[p] == Canonicalised(s.swapped[p]);
      assert Settled(clean)[p] == clean[p];
    }
  }

  /** What a run's swaps bring in is what they say. */
  lemma {:induction false} SwappedWereGiven(s: Restoring, acts: seq<Act>, umask: nat, p: Path)
    requires p in Run(s, acts, umask).swapped
    ensures (p in s.swapped && Run(s, acts, umask).swapped[p] == s.swapped[p]) ||
            SwapFile(p, Run(s, acts, umask).swapped[p]) in acts
  {
    hide Bump, AndNot, Preserves;
    if acts != [] {
      var few, last := acts[..|acts| - 1], acts[|acts| - 1];
      var u := Run(s, few, umask);
      if !(last.SwapFile? && last.path == p && last == SwapFile(p, Run(s, acts, umask).swapped[p])) {
        SwappedWereGiven(s, few, umask, p);
      }
    }
  }

  /** Canonical farm inodes are enough. */
  lemma CanonicalFarmIsEnough(acts: seq<Act>, ct: ChunkedTree, t: Tree, umask: nat)
    requires Calls(acts) == EventsOf(ct, []) && Splits(ct, t) && Valid(t, 0)
    requires forall a :: a in acts && a.SwapFile? ==> a.m == Canonicalised(a.m)
    ensures var s := Run(Restoring(map[], [], None, {}, map[]), acts, umask);
      Finished(s.disk, s.deferred) == Canonical(ct, [])
  {
    hide Run, Canonical, EventsOf, Finished, NonRoot, Canonicalised;
    EverythingCanonical(acts, ct, t, umask);
    var s := Run(Restoring(map[], [], None, {}, map[]), acts, umask);
    forall p | p in s.swapped ensures s.swapped[p] == Canonicalised(s.swapped[p]) {
      SwappedWereGiven(Restoring(map[], [], None, {}, map[]), acts, umask, p);
    }
  }

  /** And needed: one more swap, of a farm inode that was touched, leaves any finished file
      below the root with a time that is not the store's. */
  lemma TouchedInodeStays(acts: seq<Act>, ct: ChunkedTree, t: Tree, umask: nat, p: Path, m: Meta)
    requires Calls(acts) == EventsOf(ct, []) && Splits(ct, t) && Valid(t, 0)
    requires var s := Run(Restoring(map[], [], None, {}, map[]), acts, umask);
      p != [] && p in s.finished && p in s.disk && SameDump(m, s.disk[p]) && !m.stamped
    ensures var s := Run(Restoring(map[], [], None, {}, map[]), acts + [SwapFile(p, m)], umask);
      Finished(s.disk, s.deferred) != Canonical(ct, [])
  {
    hide Canonical, EventsOf, Finished, NonRoot, AndNot, Bump, Restore;
    var more := acts + [SwapFile(p, m)];
    assert more[..|acts|] == acts;
    assert Calls(more) == Calls(acts) + [] == Calls(acts);
    EverythingCanonical(more, ct, t, umask);
    var s := Run(Restoring(map[], [], None, {}, map[]), more, umask);
    assert s.swapped[p] == m && p in Kept(s.swapped) && Kept(s.swapped)[p] == m;
  }

  lemma RunOne(s: Restoring, acts: seq<Act>, a: Act, umask: nat)
    ensures Run(s, acts + [a], umask) == Step(Run(s, acts, umask), a, umask)
    ensures Calls(acts + [a]) == Calls(acts) + (if a.Ev? then [a.e] else [])
  {
    assert (acts + [a])[..|acts|] == acts;
  }

  /** The calls that restore a directory holding one file. */
  function OneFile(name: blob, contents: blob): seq<Act> {
    [Ev(DirBegin([])), Ev(FileBegin([name])), Ev(Size(|contents|)), Ev(Data(contents)), Ev(FileEnd([name])),
     Ev(DirEnd([]))]
  }

  lemma OneFileBegins(name: blob, contents: blob, umask: nat)
    ensures var s := Run(Restoring(map[], [], None, {}, map[]), OneFile(name, contents)[..3], umask);
      s.open == Some(([name], false)) && [name] in s.disk && s.disk[[name]].kind.FileKind? &&
      s.disk[[name]].mode == AndNot(FILE_MODE, umask, MODE_BITS)
  {
    hide Bump, AndNot, Preserves, Run;
    var s0 := Restoring(map[], [], None, {}, map[]);
    var acts := OneFile(name, contents);
    RunOne(s0, acts[..1], acts[1], umask);
    RunOne(s0, acts[..2], acts[2], umask);
    assert acts[..1] + [acts[1]] == acts[..2] && acts[..2] + [acts[2]] == acts[..3];
  }

  lemma OneFileEnds(name: blob, contents: blob, umask: nat)
    ensures var s := Run(Restoring(map[], [], None, {}, map[]), OneFile(name, contents), umask);
      [name] in s.finished && [name] in s.disk && s.disk[[name]].kind.FileKind? && !Executable(s.disk[[name]])
  {
    hide Bump, AndNot, Preserves, Run, Inv;
    var s0 := Restoring(map[], [], None, {}, map[]);
    var acts := OneFile(name, contents);
    OneFileBegins(name, contents, umask);
    RunOne(s0, acts[..3], acts[3], umask);
    RunOne(s0, acts[..4], acts[4], umask);
    RunOne(s0, acts[..5], acts[5], umask);
    assert acts[..3] + [acts[3]] == acts[..4] && acts[..4] + [acts[4]] == acts[..5] && acts[..5] + [acts[5]] == acts;
    if Preserves(umask) {
      PreservedFileMode(umask);
    }
  }

  lemma OneFileCalls(name: blob, contents: blob)
    ensures Calls(OneFile(name, contents)) == EventsOf(Directory([Entry(name, Regular(false, [contents]))]), [])
  {
    var ct: ChunkedTree := Regular(false, [contents]);
    var entries := [Entry(name, ct)];
    assert entries[..0] == [];
    assert EntriesEvents(entries, []) == [] + EventsOf(ct, [] + [name]);
    assert [] + [name] == [name] && DataEvents([contents]) == [Data(contents)];
    assert Flatten([contents]) == contents;
    CallsOfPlain(OneFile(name, contents));
    assert EventsOf(Directory(entries), []) ==
      [DirBegin([]), FileBegin([name]), Size(|contents|), Data(contents), FileEnd([name]), DirEnd([])];
  }

  lemma {:induction false} CallsOfPlain(acts: seq<Act>)
    requires forall a :: a in acts ==> a.Ev?
    ensures |Calls(acts)| == |acts| && forall i :: 0 <= i < |acts| ==> Calls(acts)[i] == acts[i].e
  {
    if acts != [] {
      CallsOfPlain(acts[..|acts| - 1]);
    }
  }

  /** A run that fails: a directory with one file, for which a farm inode is swapped in
      whose time is not the store's. */
  lemma TouchedInodeExample(name: blob, contents: blob, umask: nat)
    requires Valid(Directory([Entry(name, Regular(false, contents))]), 0)
    ensures var acts := OneFile(name, contents) + [SwapFile([name], Meta(FileKind, FILE_MODE, false))];
      var ct := Directory([Entry(name, Regular(false, [contents]))]);
      var s := Run(Restoring(map[], [], None, {}, map[]), acts, umask);
      Calls(acts) == EventsOf(ct, []) && Finished(s.disk, s.deferred) != Canonical(ct, [])
  {
    hide Run, EventsOf, Canonical, Finished, Valid;
    OneFileEnds(name, contents, umask);
    OneFileCalls(name, contents);
    RunOne(Restoring(map[], [], None, {}, map[]), OneFile(name, contents), SwapFile([name], Meta(FileKind, FILE_MODE, false)), umask);
    var ct: ChunkedTree := Directory([Entry(name, Regular(false, [contents]))]);
    var t := Directory([Entry(name, Regular(false, contents))]);
    assert Flatten([contents]) == contents;
    assert Splits(Regular(false, [contents]), Regular(false, contents));
    assert Splits(ct, t);
    assert Calls(OneFile(name, contents)) + [] == Calls(OneFile(name, contents));
    TouchedInodeStays(OneFile(name, contents), ct, t, umask, [name], Meta(FileKind, FILE_MODE, false));
  }

  /** Where a call or a swap puts a name. */
  function NewName(s: Restoring, a: Act): Option<Path> {
    match a
    case Ev(DirBegin(path)) => Some(path)
    case Ev(FileBegin(path)) => Some(path)
    case Ev(Link(path, _)) => Some(path)
    case SwapFile(path, m) =>
      if path in s.finished && path in s.disk && SameDump(m, s.disk[path]) then Some(path) else None
    case _ => None
  }

  /** What moves a path's time: a new name in a directory, and data written to a file. */
  predicate Touches(s: Restoring, a: Act, p: Path) {
    (p in s.disk && s.disk[p].kind.DirKind? && NewName(s, a).Some? && NewName(s, a).value != [] &&
     NewName(s, a).value[..|NewName(s, a).value| - 1] == p) ||
    (a.Ev? && a.e.Data? && s.open.Some? && s.open.value.0 == p)
  }

  /** Why files are stamped when they are finished and directories last: each new entry and
      each swap in a directory undoes an earlier stamp of it, as writing does for a file, and
      of no other path. */
  lemma EarlyStampIsLost(s: Restoring, a: Act, umask: nat, p: Path)
    requires p in s.disk && s.disk[p].stamped && NewName(s, a) != Some(p)
    ensures p in Step(s, a, umask).disk && (Step(s, a, umask).disk[p].stamped <==> !Touches(s, a, p))
  {
    hide AndNot;
  }

  /** Making a node canonical stamps it, changes neither its kind nor whether it can be
      executed, and need not be done twice. */
  lemma CanonicalisedStays(m: Meta)
    ensures var c := Canonicalised(m);
      c.stamped && c.kind == m.kind && Canonicalised(c) == c && (m.kind.FileKind? ==> Executable(c) == Executable(m))
  {
  }

  // -------------------------------------------------------------- the sink itself

  /** The restore to disk, with the swaps that overtake it. */
  class RestoreSink {
    const umask: nat
    var disk: map<Path, Meta>
    var deferCanonicalDirs: seq<Path>
    var file: Option<Path>
    var madeExecutable: bool
    var finished: set<Path>
    var swapped: map<Path, Meta>

    function Now(): Restoring
      reads this
    {
      Restoring(disk, deferCanonicalDirs, if file.None? then None else Some((file.value, madeExecutable)), finished,
                swapped)
    }

    constructor (umask: nat)
      ensures Now() == Restoring(map[], [], None, {}, map[]) && this.umask == umask
    {
      this.umask := umask;
      disk, deferCanonicalDirs, file, madeExecutable, finished, swapped := map[], [], None, false, {}, map[];
    }

    /** mkdirat, open or symlinkat: the new entry, and its directory's new time. */
    method Create(path: Path, m: Meta)
      modifies this`disk, this`finished, this`swapped
      ensures disk == Bump(old(disk), path)[path := m]
      ensures finished == old(finished) - {path} && swapped == old(swapped) - {path}
    {
      if path != [] {
        var parent := path[..|path| - 1];
        if parent in disk && disk[parent].kind.DirKind? {
          disk := disk[parent := disk[parent].(stamped := false)];
        }
      }
      disk := disk[path := m];
      finished, swapped := finished - {path}, swapped - {path};
    }

    method Handle(e: Event)
      modifies this
      ensures Now() == Restore(old(Now()), e, umask)
    {
      hide AndNot, Preserves, Bump;
      match e
      case DirBegin(path) =>
        Create(path, Meta(DirKind, AndNot(FRESH_DIR_MODE, umask, MODE_BITS), false));
        file := None;
      case DirEnd(path) =>
        if path != [] {
          deferCanonicalDirs := deferCanonicalDirs + [path];
        }
      case FileBegin(path) =>
        Create(path, Meta(FileKind, AndNot(FILE_MODE, umask, MODE_BITS), false));
        file, madeExecutable := Some(path), false;
      case Exec =>
        if file.Some? && file.value in disk {
          madeExecutable := true;
          disk := disk[file.value := disk[file.value].(mode := EXEC_MODE)];
        }
      case Size(_) =>
      case Data(_) =>
        if file.Some? && file.value in disk {
          disk := disk[file.value := disk[file.value].(stamped := false)];
        }
      case FileEnd(_) =>
        if file.Some? && file.value in disk {
          var path := file.value;
          if !Preserves(umask) && !madeExecutable {
            disk := disk[path := disk[path].(mode := FILE_MODE)];
          }
          disk := disk[path := disk[path].(stamped := true)];
          file, finished := None, finished + {path};
        }
      case Link(path, _) =>
        Create(path, Meta(LinkKind, FRESH_DIR_MODE, true));
        file := None;
    }

    /** tryDedup: the farm's inode `m` takes the file's place as it is. */
    method SwapForFarmLink(path: Path, m: Meta)
      modifies this
      ensures Now() == Swap(old(Now()), path, m)
    {
      hide Bump;
      if path in finished && path in disk && SameDump(m, disk[path]) {
        var (files, metas) := (finished, swapped);
        Create(path, m);
        finished, swapped := files, metas[path := m];
      }
    }

    /** The loop over the deferred directories, and the root in its final place. */
    method FinishDirs()
      modifies this
      ensures disk == Finished(old(disk), old(deferCanonicalDirs))
    {
      var was := disk;
      for i := 0 to |deferCanonicalDirs|
        invariant deferCanonicalDirs == old(deferCanonicalDirs)
        invariant disk == StampAll(was, deferCanonicalDirs[..i])
      {
        var dir := deferCanonicalDirs[i];
        assert deferCanonicalDirs[..i + 1][..i] == deferCanonicalDirs[..i];
        if dir in disk {
          disk := disk[dir := disk[dir].(mode := DIR_MODE, stamped := true)];
        }
      }
      assert deferCanonicalDirs[..|deferCanonicalDirs|] == deferCanonicalDirs;
      if [] in disk {
        disk := disk[[] := Canonicalised(disk[[]])];
      }
    }
  }

  /** A whole canonical import: any order of calls and swaps ends with the metadata the
      store wants, for every node of the tree and for nothing else, but for the farm's
      inodes that took files' places. */
  method ImportCanonical(acts: seq<Act>, umask: nat, ghost ct: ChunkedTree, ghost t: Tree)
    returns (disk: map<Path, Meta>, deferred: seq<Path>, swapped: map<Path, Meta>)
    requires Calls(acts) == EventsOf(ct, []) && Splits(ct, t) && Valid(t, 0)
    ensures disk == Canonical(ct, []) + Kept(swapped) && deferred == NonRoot(ct, [])
    ensures disk == Canonical(ct, []) <==> AllCanonical(Kept(swapped))
    ensures forall p :: p in swapped ==>
              SwapFile(p, swapped[p]) in acts && p in Canonical(ct, []) && Canonical(ct, [])[p] == Canonicalised(swapped[p])
  {
    hide Restore, Swap, Finished, Canonical, NonRoot, Canonicalised, Kept;
    var sink := new RestoreSink(umask);
    ghost var s0 := sink.Now();
    for i := 0 to |acts|
      invariant sink.umask == umask && sink.Now() == Run(s0, acts[..i], umask)
      modifies sink
    {
      assert acts[..i + 1][..i] == acts[..i];
      match acts[i] {
        case Ev(e) => sink.Handle(e);
        case SwapFile(path, m) => sink.SwapForFarmLink(path, m);
      }
    }
    assert acts[..|acts|] == acts;
    deferred, swapped := sink.deferCanonicalDirs, sink.swapped;
    EverythingCanonical(acts, ct, t, umask);
    forall p | p in swapped ensures SwapFile(p, swapped[p]) in acts {
      SwappedWereGiven(s0, acts, umask, p);
    }
    sink.FinishDirs();
    disk := sink.disk;
  }
}
