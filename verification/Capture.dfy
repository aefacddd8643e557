/** Per-file digests captured while an archive streams past: the hashing thread of an
    import as a consumer of restore events, for every way contents can be chunked. */
module Capture {
  import opened Results
  import opened Wire
  import opened Nar
  import opened NarStream
  import opened Hashes

  /** The file being hashed: its map key, the bytes fed to the digest so far, and the
      size announced for it. */
  datatype OpenFile = OpenFile(key: Path, fed: bytes, size: nat)

  datatype Hashing = Hashing(files: map<Path, Hash>, open: Option<OpenFile>)

  // ------------------------------------------------------- the event handlers

  function FileFraming(): bytes {
    Encode(MAGIC) + Encode(TAG_OPEN) + Encode(TAG_TYPE) + Encode(TAG_REGULAR)
  }

  function LinkFraming(target: blob): bytes {
    Encode(MAGIC) + Encode(TAG_OPEN) + Encode(TAG_TYPE) + Encode(TAG_SYMLINK) + Encode(TAG_TARGET) +
    Encode(target) + Encode(TAG_CLOSE)
  }

  function Feed(h: Hashing, data: bytes): Hashing {
    if h.open.None? then h else h.(open := Some(h.open.value.(fed := h.open.value.fed + data)))
  }

  function Step(h: Hashing, e: Event, sha: Sha): Hashing {
    match e
    case FileBegin(path) => h.(open := Some(OpenFile(path, FileFraming(), 0)))
    case Exec => Feed(h, Encode(TAG_EXECUTABLE) + Encode([]))
    case Size(size) =>
      if h.open.None? then h
      else Feed(h.(open := Some(h.open.value.(size := size))), Encode(TAG_CONTENTS) + LittleEndian(size, 8))
    case Data(chunk) => Feed(h, chunk)
    case FileEnd(_) =>
      if h.open.None? then h
      else
        var f := h.open.value;
        Hashing(h.files[f.key := sha(f.fed + Zeros(PadLen(f.size)) + Encode(TAG_CLOSE))], None)
    case Link(path, target) => h.(files := h.files[path := sha(LinkFraming(target))])
    case DirBegin(_) => h
    case DirEnd(_) => h
  }

  function Run(h: Hashing, events: seq<Event>, sha: Sha): Hashing
    decreases |events|
  {
    if events == [] then h else Run(Step(h, events[0], sha), events[1..], sha)
  }

  lemma {:induction false} RunAppend(h: Hashing, a: seq<Event>, b: seq<Event>, sha: Sha)
    ensures Run(h, a + b, sha) == Run(Run(h, a, sha), b, sha)
    decreases |a|
  {
    hide Step;
    if a == [] {
      assert a + b == b;
    } else {
      RunAppend(Step(h, a[0], sha), a[1..], b, sha);
      assert (a + b)[1..] == a[1..] + b;
    }
  }

  lemma RunNothing(h: Hashing, sha: Sha)
    ensures Run(h, [], sha) == h
  {
  }

  lemma RunThenOne(h: Hashing, a: seq<Event>, e: Event, sha: Sha)
    ensures Run(h, a + [e], sha) == Step(Run(h, a, sha), e, sha)
    ensures Run(h, [e], sha) == Step(h, e, sha)
  {
    hide Step;
    RunAppend(h, a, [e], sha);
  }

  // ------------------------------------------------------- what is captured

  /** One entry per file and symlink, keyed by its path; each the digest of the
      archive of that node alone. */
  function Captured(t: Tree, path: Path, sha: Sha): map<Path, Hash>
    decreases t, 1
  {
    if t.Directory? then CapturedEntries(t.entries, path, sha) else map[path := sha(Dump(t))]
  }

  function CapturedEntries(entries: seq<Entry<blob>>, path: Path, sha: Sha): map<Path, Hash>
    decreases entries, 0
  {
    if entries == [] then map[]
    else
      var e := entries[|entries| - 1];
      CapturedEntries(entries[..|entries| - 1], path, sha) + Captured(e.node, path + [e.name], sha)
  }

  lemma {:induction false} RunData(h: Hashing, chunks: seq<bytes>, sha: Sha)
    requires h.open.Some?
    ensures Run(h, DataEvents(chunks), sha) == Feed(h, Flatten(chunks))
  {
    hide Run, FileFraming, LinkFraming, Encode;
    RunNothing(h, sha);
    if chunks == [] {
      assert h.open.value.fed + [] == h.open.value.fed;
    } else {
      var n := |chunks| - 1;
      var before := DataEvents(chunks[..n]);
      RunData(h, chunks[..n], sha);
      assert DataEvents(chunks) == before + [Data(chunks[n])];
      RunThenOne(h, before, Data(chunks[n]), sha);
      assert h.open.value.fed + Flatten(chunks[..n]) + chunks[n] == h.open.value.fed + Flatten(chunks);
    }
  }

  lemma FileFramingThen(rest: bytes)
    ensures FileFraming() + rest == Put(MAGIC, Put(TAG_OPEN, Put(TAG_TYPE, Put(TAG_REGULAR, rest))))
  {
    hide Encode;
    var a, b, c, d := Encode(MAGIC), Encode(TAG_OPEN), Encode(TAG_TYPE), Encode(TAG_REGULAR);
    assert a + b + c + d + rest == a + (b + (c + (d + rest)));
  }

  lemma EncodeParts(x: blob)
    ensures Encode(x) == LittleEndian(|x|, 8) + x + Zeros(PadLen(|x|))
  {
  }

  lemma FileBodyIsPrinted(contents: blob)
    ensures Put(TAG_CONTENTS, Put(contents, Put(TAG_CLOSE, [])))
         == Encode(TAG_CONTENTS) + (LittleEndian(|contents|, 8) + contents + Zeros(PadLen(|contents|)) +
                                   (Encode(TAG_CLOSE) + []))
  {
    hide Encode;
    EncodeParts(contents);
  }

  lemma MarkerIsPrinted(executable: bool, rest: bytes)
    ensures ExecMarker(executable) + rest == PrintExecutable(executable, rest)
  {
    hide Encode;
    assert Encode(TAG_EXECUTABLE) + Encode([]) + rest == Encode(TAG_EXECUTABLE) + (Encode([]) + rest);
    assert !executable ==> [] + rest == rest;
  }

  lemma Regroup(f: bytes, m: bytes, c: bytes, l: bytes, x: bytes, z: bytes, e: bytes)
    ensures f + m + (c + l) + x + z + e == f + (m + (c + (l + x + z + (e + []))))
  {
  }

  function ExecMarker(executable: bool): bytes {
    if executable then Encode(TAG_EXECUTABLE) + Encode([]) else []
  }

  /** The framing written by hand around a file's chunks is the file's archive. */
  lemma FramingIsDump(executable: bool, contents: blob)
    ensures FileFraming() + ExecMarker(executable) + (Encode(TAG_CONTENTS) + LittleEndian(|contents|, 8)) +
            contents + Zeros(PadLen(|contents|)) + Encode(TAG_CLOSE)
         == Dump(Regular(executable, contents))
  {
    hide Encode, Put, FileFraming, ExecMarker, LittleEndian, Zeros, PrintExecutable;
    var body := Put(TAG_CONTENTS, Put(contents, Put(TAG_CLOSE, [])));
    Regroup(FileFraming(), ExecMarker(executable), Encode(TAG_CONTENTS), LittleEndian(|contents|, 8), contents,
            Zeros(PadLen(|contents|)), Encode(TAG_CLOSE));
    FileBodyIsPrinted(contents);
    MarkerIsPrinted(executable, body);
    FileFramingThen(ExecMarker(executable) + body);
  }

  lemma LinkFramingIsDump(target: blob)
    ensures LinkFraming(target) == Dump(Symlink(target))
  {
    hide Encode;
    var a, b, c, d, e := Encode(MAGIC), Encode(TAG_OPEN), Encode(TAG_TYPE), Encode(TAG_SYMLINK), Encode(TAG_TARGET);
    var t, z := Encode(target), Encode(TAG_CLOSE);
    assert z + [] == z;
    assert a + b + c + d + e + t + z == a + (b + (c + (d + (e + (t + z)))));
  }

  lemma RunFile(h: Hashing, executable: bool, chunks: seq<bytes>, contents: blob, path: Path, sha: Sha)
    requires Flatten(chunks) == contents
    ensures Run(h, RegularEvents(path, executable, chunks), sha)
         == Hashing(h.files[path := sha(Dump(Regular(executable, contents)))], None)
  {
    hide Run, Encode, FileFraming, LittleEndian, Zeros, Dump, Flatten;
    var e1 := [FileBegin(path)];
    var e2 := e1 + (if executable then [Exec] else []);
    var e3 := e2 + [Size(|contents|)];
    var e4 := e3 + DataEvents(chunks);
    RunThenOne(h, [], FileBegin(path), sha);
    var fed2 := FileFraming() + ExecMarker(executable);
    RunThenOne(h, e1, Exec, sha);
    assert Run(h, e2, sha) == h.(open := Some(OpenFile(path, fed2, 0))) by {
      assert e1 + [] == e1 && FileFraming() + [] == FileFraming();
    }
    RunThenOne(h, e2, Size(|contents|), sha);
    RunAppend(h, e3, DataEvents(chunks), sha);
    RunData(Run(h, e3, sha), chunks, sha);
    RunThenOne(h, e4, FileEnd(path), sha);
    FramingIsDump(executable, contents);
  }

  /** However its files were chunked, streaming a tree past the hasher adds exactly
      the captured digests and leaves no file open. */
  lemma {:induction false} RunTree(h: Hashing, ct: ChunkedTree, t: Tree, path: Path, sha: Sha)
    requires Splits(ct, t) && h.open.None?
    ensures Run(h, EventsOf(ct, path), sha) == Hashing(h.files + Captured(t, path, sha), None)
    decreases t, 1
  {
    hide Run, Dump, LinkFraming;
    match t
    case Regular(executable, contents) =>
      RunFile(h, executable, ct.contents, contents, path, sha);
    case Symlink(target) =>
      LinkFramingIsDump(target);
      RunThenOne(h, [], Link(path, target), sha);
    case Directory(entries) =>
      var inner := EntriesEvents(ct.entries, path);
      RunThenOne(h, [], DirBegin(path), sha);
      RunAppend(h, [DirBegin(path)], inner, sha);
      RunEntries(h, ct.entries, entries, path, sha);
      RunThenOne(h, [DirBegin(path)] + inner, DirEnd(path), sha);
  }

  /** Everything about entries is about the earlier ones and the last. */
  lemma LastEntry(ces: seq<Entry<seq<bytes>>>, entries: seq<Entry<blob>>, path: Path, sha: Sha)
    requires SplitsEntries(ces, entries) && entries != []
    ensures |ces| == |entries|
    ensures var n := |entries| - 1;
      var sub := path + [entries[n].name];
      SplitsEntries(ces[..n], entries[..n]) && Splits(ces[n].node, entries[n].node) &&
      EntriesEvents(ces, path) == EntriesEvents(ces[..n], path) + EventsOf(ces[n].node, sub) &&
      CapturedEntries(entries, path, sha) == CapturedEntries(entries[..n], path, sha) + Captured(entries[n].node, sub, sha)
  {
    hide Splits, EventsOf, Captured;
  }

  lemma NoEntries(path: Path, sha: Sha)
    ensures EntriesEvents([], path) == [] && CapturedEntries([], path, sha) == map[]
  {
  }

  lemma {:induction false} RunEntries(h: Hashing, ces: seq<Entry<seq<bytes>>>, entries: seq<Entry<blob>>,
                                      path: Path, sha: Sha)
    requires SplitsEntries(ces, entries) && h.open.None?
    ensures Run(h, EntriesEvents(ces, path), sha) == Hashing(h.files + CapturedEntries(entries, path, sha), None)
    decreases entries, 0
  {
    hide Run, Step, EventsOf, Captured, Splits, EntriesEvents, CapturedEntries;
    if entries == [] {
      RunNothing(h, sha);
      NoEntries(path, sha);
      assert h.files + map[] == h.files;
    } else {
      LastEntry(ces, entries, path, sha);
      var n := |entries| - 1;
      var sub := path + [entries[n].name];
      var done := CapturedEntries(entries[..n], path, sha);
      var last := Captured(entries[n].node, sub, sha);
      RunEntries(h, ces[..n], entries[..n], path, sha);
      RunAppend(h, EntriesEvents(ces[..n], path), EventsOf(ces[n].node, sub), sha);
      RunTree(Hashing(h.files + done, None), ces[n].node, entries[n].node, sub, sha);
      assert h.files + done + last == h.files + (done + last);
    }
  }

  // ---------------------------------------------------- what that map means

  /** The node at a path below `t`, if there is one. */
  function At(t: Tree, path: Path): Option<Tree>
    decreases t, 1
  {
    if path == [] then Some(t)
    else if t.Directory? then AtEntry(t.entries, path[0], path[1..])
    else None
  }

  function AtEntry(entries: seq<Entry<blob>>, name: blob, path: Path): Option<Tree>
    decreases entries, 0
  {
    if entries == [] then None
    else
      var e := entries[|entries| - 1];
      if e.name == name then At(e.node, path) else AtEntry(entries[..|entries| - 1], name, path)
  }

  ghost predicate IsLeaf(n: Option<Tree>) {
    n.Some? && !n.value.Directory?
  }

  lemma {:induction false} KeysBelow(t: Tree, path: Path, sha: Sha, key: Path)
    requires key in Captured(t, path, sha)
    ensures path <= key
    decreases t, 1
  {
    if t.Directory? {
      var i := KeysBelowEntry(t.entries, path, sha, key);
    }
  }

  lemma {:induction false} KeysBelowEntry(entries: seq<Entry<blob>>, path: Path, sha: Sha, key: Path) returns (i: nat)
    requires key in CapturedEntries(entries, path, sha)
    ensures i < |entries| && path + [entries[i].name] <= key
    ensures path <= key && |path| < |key| && key[|path|] == entries[i].name
    decreases entries, 0
  {
    var n := |entries| - 1;
    var at := path + [entries[n].name];
    if key in Captured(entries[n].node, at, sha) {
      KeysBelow(entries[n].node, at, sha, key);
      i := n;
      assert key[..|at|][..|path|] == path && at[|path|] == key[|path|];
    } else {
      i := KeysBelowEntry(entries[..n], path, sha, key);
    }
  }

  /** The keys are exactly the paths of the regular files and symlinks, and each value
      digests the bytes the printer would emit for that node alone. */
  lemma {:induction false} CapturedIsPerNode(t: Tree, depth: nat, path: Path, below: Path, sha: Sha)
    requires Valid(t, depth)
    ensures path + below in Captured(t, path, sha) <==> IsLeaf(At(t, below))
    ensures IsLeaf(At(t, below)) ==> Captured(t, path, sha)[path + below] == sha(Dump(At(t, below).value))
    decreases t, 1
  {
    hide Dump;
    if t.Directory? {
      ValidEntriesPointwise(t.entries, depth, []);
      if below == [] {
        if path + below in Captured(t, path, sha) {
          var i := KeysBelowEntry(t.entries, path, sha, path + below);
        }
      } else {
        assert path + below == path + [below[0]] + below[1..];
        forall i, j | 0 <= i < j < |t.entries| ensures t.entries[i].name != t.entries[j].name {
          LessIsStrictTotalOrder(t.entries[i].name, t.entries[j].name, []);
        }
        CapturedIsPerEntry(t.entries, depth, path, below[0], below[1..], sha);
      }
    } else if below != [] {
      assert (path + below)[|path|..] == below;
      assert path + below != path;
    } else {
      assert path + below == path;
    }
  }

  lemma {:induction false} CapturedIsPerEntry(entries: seq<Entry<blob>>, depth: nat, path: Path, name: blob,
                                              below: Path, sha: Sha)
    requires forall i :: 0 <= i < |entries| ==> Valid(entries[i].node, depth + 1)
    requires forall i, j :: 0 <= i < j < |entries| ==> entries[i].name != entries[j].name
    ensures var key := path + [name] + below;
            (key in CapturedEntries(entries, path, sha) <==> IsLeaf(AtEntry(entries, name, below))) &&
            (IsLeaf(AtEntry(entries, name, below)) ==>
              CapturedEntries(entries, path, sha)[key] == sha(Dump(AtEntry(entries, name, below).value)))
    decreases entries, 0
  {
    hide Dump, Valid;
    if entries != [] {
      var n, key := |entries| - 1, path + [name] + below;
      var e := entries[n];
      assert key[|path|] == name && (path + [e.name])[|path|] == e.name;
      if e.name == name {
        CapturedIsPerNode(e.node, depth + 1, path + [name], below, sha);
        if key in CapturedEntries(entries[..n], path, sha) {
          var i := KeysBelowEntry(entries[..n], path, sha, key);
          assert false;
        }
      } else {
        if key in Captured(e.node, path + [e.name], sha) {
          KeysBelow(e.node, path + [e.name], sha, key);
          assert false;
        }
        CapturedIsPerEntry(entries[..n], depth, path, name, below, sha);
      }
    }
  }

  /** Restoring a stream and hashing its files on the side captures, whatever the
      chunking, exactly the digests of the tree the stream encodes. */
  lemma CaptureIsExact(ct: ChunkedTree, t: Tree, key: Path, sha: Sha)
    requires Splits(ct, t) && Valid(t, 0)
    ensures var files := Run(Hashing(map[], None), EventsOf(ct, []), sha).files;
            (key in files <==> IsLeaf(At(t, key))) && (key in files ==> files[key] == sha(Dump(At(t, key).value)))
  {
    hide Run, Dump, Captured;
    RunTree(Hashing(map[], None), ct, t, [], sha);
    assert map[] + Captured(t, [], sha) == Captured(t, [], sha);
    CapturedIsPerNode(t, 0, [], key, sha);
    assert [] + key == key;
  }

  // --------------------------------------------------------- the hasher itself

  /** The per-file state machine and the queue in front of it. */
  class FileHasher {
    const sha: Sha
    var events: seq<Event>
    var files: map<Path, Hash>
    var key: Path
    var hash: Option<bytes>
    var size: nat

    ghost function State(): Hashing
      reads this
    {
      Hashing(files, if hash.None? then None else Some(OpenFile(key, hash.value, size)))
    }

    constructor (sha: Sha)
      ensures State() == Hashing(map[], None) && events == [] && this.sha == sha
    {
      this.sha := sha;
      events, files, key, hash, size := [], map[], [], None, 0;
    }

    method Update(data: bytes)
      modifies this
      ensures State() == Feed(old(State()), data) && events == old(events)
    {
      if hash.Some? {
        hash := Some(hash.value + data);
      }
    }

    /** One event, as the worker's switch handles it. */
    method Handle(e: Event)
      modifies this
      ensures State() == Step(old(State()), e, sha) && events == old(events)
    {
      match e
      case FileBegin(path) =>
        key, hash, size := path, Some(FileFraming()), 0;
      case Exec => Update(Encode(TAG_EXECUTABLE) + Encode([]));
      case Size(s) =>
        if hash.Some? {
          size := s;
          Update(Encode(TAG_CONTENTS) + LittleEndian(s, 8));
        }
      case Data(chunk) => Update(chunk);
      case FileEnd(_) =>
        if hash.Some? {
          files := files[key := sha(hash.value + Zeros(PadLen(size)) + Encode(TAG_CLOSE))];
          hash := None;
        }
      case Link(path, target) =>
        files := files[path := sha(LinkFraming(target))];
      case DirBegin(_) =>
      case DirEnd(_) =>
    }

    method Push(e: Event)
      modifies this
      ensures events == old(events) + [e] && State() == old(State())
    {
      events := events + [e];
    }

    /** The worker: first in, first out, until the queue is drained. */
    method Drain()
      modifies this
      ensures State() == Run(old(State()), old(events), sha) && events == []
    {
      while events != []
        invariant Run(State(), events, sha) == Run(old(State()), old(events), sha)
        decreases |events|
      {
        var e := events[0];
        events := events[1..];
        Handle(e);
      }
    }
  }

  method HashEvents(events: seq<Event>, sha: Sha) returns (files: map<Path, Hash>)
    ensures files == Run(Hashing(map[], None), events, sha).files
  {
    hide Run, Step;
    var hasher := new FileHasher(sha);
    for i := 0 to |events|
      invariant hasher.events == events[..i] && hasher.State() == Hashing(map[], None) && hasher.sha == sha
      modifies hasher
    {
      hasher.Push(events[i]);
    }
    hasher.Drain();
    assert events[..|events|] == events;
    files := hasher.files;
  }

  /** An import's view: parse the archive, hash every file while it streams, and end
      with the digest of each leaf of the tree that was parsed. */
  method ImportCapturing(source: Source, sha: Sha) returns (r: Result<map<Path, Hash>, ReadError>)
    requires source.Valid()
    modifies source
    ensures source.Valid()
    ensures match ParseDump(old(source.Remaining()), false)
            case Success((t, rest)) =>
              r.Success? && source.Remaining() == rest && r.value == Captured(t, [], sha)
            case Failure(e) => r == Failure(e)
  {
    hide ParseDump, Captured, Run, Step;
    var sink := new FileSystemObjectSink(false, true);
    ghost var ct;
    var parsed;
    parsed, ct := ParseArchive(sink, source);
    if parsed.Failure? {
      return Failure(parsed.error);
    }
    var files := HashEvents(sink.events, sha);
    ghost var t := ParseDump(old(source.Remaining()), false).value.0;
    assert sink.events == EventsOf(ct, []);
    RunTree(Hashing(map[], None), ct, t, [], sha);
    assert map[] + Captured(t, [], sha) == Captured(t, [], sha);
    return Success(files);
  }
}
