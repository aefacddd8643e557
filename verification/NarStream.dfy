/** The archive code as it runs: a printer that appends to a sink, and a parser that
    advances a source in reads of any size while driving a file-system-object sink.
    Both are proved against the functions of `Nar`. */
module NarStream {
  import opened Results
  import opened Wire
  import opened Nar

  type Path = seq<blob>

  // ------------------------------------------------------------------ sinks

  /** Collects everything written to it. */
  class StringSink {
    var s: bytes

    constructor ()
      ensures s == []
    {
      s := [];
    }

    method Write(data: bytes)
      modifies this
      ensures s == old(s) + data
    {
      s := s + data;
    }

    method WriteNum(n: u64)
      modifies this
      ensures s == old(s) + LittleEndian(n, 8)
    {
      Write(LittleEndian(n, 8));
    }

    method WritePadding(len: nat)
      modifies this
      ensures s == old(s) + Zeros(PadLen(len))
    {
      if len % 8 != 0 {
        Write(Zeros(8 - len % 8));
      }
    }

    method WriteString(x: blob)
      modifies this
      ensures s == old(s) + Encode(x)
      ensures forall rest :: s + rest == old(s) + Put(x, rest)
    {
      WriteNum(|x|);
      Write(x);
      WritePadding(|x|);
      assert s == old(s) + Encode(x);
      forall rest ensures s + rest == old(s) + Put(x, rest) {
        assert old(s) + Encode(x) + rest == old(s) + (Encode(x) + rest);
      }
    }
  }

  // ---------------------------------------------------------------- printer

  /** Shallow enough for the printer, which checks nothing else about a tree. */
  predicate Fits(t: Tree, depth: nat)
    decreases t, 1
  {
    depth < NAR_MAX_DEPTH && (t.Directory? ==> EntriesFit(t.entries, depth + 1))
  }

  predicate EntriesFit(entries: seq<Entry<blob>>, depth: nat)
    decreases entries, 0
  {
    entries == [] || (Fits(entries[0].node, depth) && EntriesFit(entries[1..], depth))
  }

  datatype DumpError = DepthExceeded

  /** Appends the printed form of `t`, or fails when `t` nests too deeply. */
  method DumpNode(t: Tree, sink: StringSink, depth: nat) returns (r: Result<(), DumpError>)
    modifies sink
    ensures r.Success? <==> Fits(t, depth)
    ensures r.Success? ==> forall rest :: sink.s + rest == old(sink.s) + PrintNode(t, rest)
    decreases t, 1
  {
    if depth >= NAR_MAX_DEPTH {
      return Failure(DepthExceeded);
    }
    sink.WriteString(TAG_OPEN);
    sink.WriteString(TAG_TYPE);
    match t {
      case Regular(executable, contents) =>
        DumpRegular(executable, contents, sink);
      case Symlink(target) =>
        sink.WriteString(TAG_SYMLINK);
        sink.WriteString(TAG_TARGET);
        sink.WriteString(target);
      case Directory(entries) =>
        sink.WriteString(TAG_DIRECTORY);
        r := DumpEntries(entries, sink, depth + 1);
        if r.Failure? {
          return r;
        }
    }
    sink.WriteString(TAG_CLOSE);
    return Success(());
  }

  function PrintRegular(executable: bool, contents: blob, rest: bytes): bytes {
    Put(TAG_REGULAR, PrintExecutable(executable, Put(TAG_CONTENTS, Put(contents, rest))))
  }

  method DumpRegular(executable: bool, contents: blob, sink: StringSink)
    modifies sink
    ensures forall rest :: sink.s + rest == old(sink.s) + PrintRegular(executable, contents, rest)
  {
    sink.WriteString(TAG_REGULAR);
    if executable {
      sink.WriteString(TAG_EXECUTABLE);
      sink.WriteString([]);
    }
    sink.WriteString(TAG_CONTENTS);
    DumpContents(contents, sink);
  }

  method DumpEntries(entries: seq<Entry<blob>>, sink: StringSink, depth: nat) returns (r: Result<(), DumpError>)
    modifies sink
    ensures r.Success? <==> EntriesFit(entries, depth)
    ensures r.Success? ==> forall rest :: sink.s + rest == old(sink.s) + PrintEntries(entries, rest)
    decreases entries, 0
  {
    for i := 0 to |entries|
      invariant EntriesFit(entries, depth) <==> EntriesFit(entries[i..], depth)
      invariant forall rest :: sink.s + PrintEntries(entries[i..], rest) == old(sink.s) + PrintEntries(entries, rest)
    {
      var e := entries[i];
      assert entries[i..][0] == e && entries[i..][1..] == entries[i + 1..];
      sink.WriteString(TAG_ENTRY);
      sink.WriteString(TAG_OPEN);
      sink.WriteString(TAG_NAME);
      sink.WriteString(e.name);
      sink.WriteString(TAG_NODE);
      r := DumpNode(e.node, sink, depth);
      if r.Failure? {
        return r;
      }
      sink.WriteString(TAG_CLOSE);
    }
    assert entries[|entries|..] == [];
    return Success(());
  }

  /** A file's contents after their tag: size, bytes and padding, like a string. */
  method DumpContents(contents: blob, sink: StringSink)
    modifies sink
    ensures forall rest :: sink.s + rest == old(sink.s) + Put(contents, rest)
  {
    sink.WriteNum(|contents|);
    sink.Write(contents);
    sink.WritePadding(|contents|);
    forall rest ensures sink.s + rest == old(sink.s) + Put(contents, rest) {
      assert sink.s == old(sink.s) + Encode(contents);
      assert old(sink.s) + Encode(contents) + rest == old(sink.s) + (Encode(contents) + rest);
    }
  }

  method DumpPath(t: Tree, sink: StringSink) returns (r: Result<(), DumpError>)
    modifies sink
    ensures r.Success? <==> Fits(t, 0)
    ensures r.Success? ==> sink.s == old(sink.s) + Dump(t)
  {
    sink.WriteString(MAGIC);
    r := DumpNode(t, sink, 0);
    if r.Success? {
      assert sink.s + [] == old(sink.s) + Put(MAGIC, PrintNode(t, []));
      assert sink.s + [] == sink.s;
    }
  }

  // ---------------------------------------------------------------- sources

  /** What reading `spec` off a source must have done: the same value or the same
      error, and on success exactly the specified bytes consumed. */
  ghost predicate Follows<T>(r: Result<T, ReadError>, after: bytes, spec: Read<T>) {
    match spec
    case Success((x, rest)) => r == Success(x) && after == rest
    case Failure(e) => r == Failure(e)
  }

  const DRAIN_CHUNK: nat := 65536
  const SKIP_CHUNK: nat := 8192

  /** A byte source. `Read` may return any non-empty part of what was asked for. */
  class Source {
    const s: bytes
    var pos: nat

    constructor (s: bytes)
      ensures this.s == s && pos == 0
    {
      this.s := s;
      pos := 0;
    }

    ghost predicate Valid()
      reads this
    {
      pos <= |s|
    }

    function Remaining(): bytes
      reads this
      requires Valid()
    {
      s[pos..]
    }

    method Read(len: nat) returns (r: Result<bytes, ReadError>)
      requires Valid() && len > 0
      modifies this
      ensures Valid()
      ensures r.Failure? ==> r == Failure(EndOfFile) && old(Remaining()) == [] && Remaining() == []
      ensures r.Success? ==> 1 <= |r.value| <= len && old(Remaining()) == r.value + Remaining()
    {
      if pos == |s| {
        return Failure(EndOfFile);
      }
      var n :| 1 <= n <= len && n <= |s| - pos;
      r := Success(s[pos..pos + n]);
      pos := pos + n;
    }

    /** Exactly `len` bytes. */
    method Fill(len: nat) returns (r: Result<bytes, ReadError>)
      requires Valid()
      modifies this
      ensures Valid()
      ensures Follows(r, Remaining(), Take(old(Remaining()), len))
    {
      var data: bytes := [];
      while |data| < len
        invariant Valid() && |data| <= len
        invariant old(Remaining()) == data + Remaining()
        decreases len - |data|
      {
        var chunk := Read(len - |data|);
        if chunk.Failure? {
          return Failure(EndOfFile);
        }
        data := data + chunk.value;
      }
      return Success(data);
    }

    method Skip(len: nat) returns (r: Result<(), ReadError>)
      requires Valid()
      modifies this
      ensures Valid()
      ensures r.Failure? ==> r.error == EndOfFile && len > |old(Remaining())|
      ensures r.Success? ==> len <= |old(Remaining())| && Remaining() == old(Remaining())[len..]
    {
      var left := len;
      while left > 0
        invariant Valid() && 0 <= left <= len
        invariant len - left <= |old(Remaining())| && Remaining() == old(Remaining())[len - left..]
      {
        var chunk := Read(if left < SKIP_CHUNK then left else SKIP_CHUNK);
        if chunk.Failure? {
          return Failure(EndOfFile);
        }
        left := left - |chunk.value|;
      }
      return Success(());
    }

    method ReadNum() returns (r: Result<u64, ReadError>)
      requires Valid()
      modifies this
      ensures Valid()
      ensures Follows(r, Remaining(), ReadU64(old(Remaining())))
    {
      var b :- Fill(8);
      FromLittleEndianRoundTrip(b);
      EightBytesHoldU64();
      return Success(FromLittleEndian(b));
    }

    method ReadPad(len: nat) returns (r: Result<(), ReadError>)
      requires Valid()
      modifies this
      ensures Valid()
      ensures r.Success? <==> PadLen(len) <= |old(Remaining())| &&
                              old(Remaining())[..PadLen(len)] == Zeros(PadLen(len))
      ensures r.Success? ==> Remaining() == old(Remaining())[PadLen(len)..]
      ensures r.Failure? ==> r.error == if |old(Remaining())| < PadLen(len) then EndOfFile else NonZeroPadding
    {
      if len % 8 != 0 {
        var pad :- Fill(8 - len % 8);
        if pad != Zeros(|pad|) {
          return Failure(NonZeroPadding);
        }
      }
      return Success(());
    }

    method ReadStr(max: nat) returns (r: Result<blob, ReadError>)
      requires Valid()
      modifies this
      ensures Valid()
      ensures Follows(r, Remaining(), ReadString(old(Remaining()), max))
    {
      ghost var was := Remaining();
      var len :- ReadNum();
      if len > max {
        return Failure(StringTooLong);
      }
      ghost var s1 := Remaining();
      var x :- Fill(len);
      ghost var mid, end := 8 + len, 8 + len + PadLen(len);
      assert x == was[8..mid] && Remaining() == was[mid..];
      var _ :- ReadPad(len);
      assert was[mid..][..PadLen(len)] == was[mid..end];
      return Success(x);
    }

    method Expect(tag: blob) returns (r: Result<(), ReadError>)
      requires Valid()
      modifies this
      ensures Valid()
      ensures match ExpectTag(old(Remaining()), tag)
              case Success(rest) => r.Success? && Remaining() == rest
              case Failure(e) => r == Failure(e)
    {
      var x :- ReadStr(NAR_MAX_TAG);
      if x != tag {
        return Failure(BadArchive(BadTag));
      }
      return Success(());
    }
  }

  // ----------------------------------------------------------------- events

  /** The calls a restore makes on its file-system-object sink, in order. Paths are
      from the root of the restore. */
  datatype Event =
    | DirBegin(path: Path)
    | DirEnd(path: Path)
    | FileBegin(path: Path)
    | Exec
    | Size(size: nat)
    | Data(chunk: bytes)
    | FileEnd(path: Path)
    | Link(path: Path, target: blob)

  /** A tree whose file contents are the chunks they were read in. */
  type ChunkedTree = Node<seq<bytes>>

  function Flatten(chunks: seq<bytes>): bytes {
    if chunks == [] then [] else Flatten(chunks[..|chunks| - 1]) + chunks[|chunks| - 1]
  }

  /** `ct` is `t` with the contents of its files cut up somehow. */
  ghost predicate Splits(ct: ChunkedTree, t: Tree)
    decreases t, 1
  {
    match t
    case Regular(executable, contents) =>
      ct.Regular? && ct.executable == executable && Flatten(ct.contents) == contents
    case Symlink(target) => ct == Symlink(target)
    case Directory(entries) => ct.Directory? && SplitsEntries(ct.entries, entries)
  }

  ghost predicate SplitsEntries(centries: seq<Entry<seq<bytes>>>, entries: seq<Entry<blob>>)
    decreases entries, 0
  {
    |centries| == |entries| &&
    forall i :: 0 <= i < |entries| ==>
      centries[i].name == entries[i].name && Splits(centries[i].node, entries[i].node)
  }

  function DataEvents(chunks: seq<bytes>): seq<Event> {
    seq(|chunks|, i requires 0 <= i < |chunks| => Data(chunks[i]))
  }

  /** What a sink is told about a tree restored at `path`. */
  function EventsOf(ct: ChunkedTree, path: Path): seq<Event>
    decreases ct, 1
  {
    match ct
    case Regular(executable, chunks) => RegularEvents(path, executable, chunks)
    case Symlink(target) => [Link(path, target)]
    case Directory(entries) => [DirBegin(path)] + EntriesEvents(entries, path) + [DirEnd(path)]
  }

  function RegularEvents(path: Path, executable: bool, chunks: seq<bytes>): seq<Event> {
    [FileBegin(path)] + (if executable then [Exec] else []) +
    [Size(|Flatten(chunks)|)] + DataEvents(chunks) + [FileEnd(path)]
  }

  function EntriesEvents(entries: seq<Entry<seq<bytes>>>, path: Path): seq<Event>
    decreases entries, 0
  {
    if entries == [] then []
    else EntriesEvents(entries[..|entries| - 1], path) +
         EventsOf(entries[|entries| - 1].node, path + [entries[|entries| - 1].name])
  }

  class FileSystemObjectSink {
    var events: seq<Event>
    const skipContents: bool
    /** Whether creating a directory hands back a sink rooted at it, as a restore to
        disk does, or the same sink. */
    const reroots: bool

    constructor (skipContents: bool, reroots: bool)
      ensures events == [] && this.skipContents == skipContents && this.reroots == reroots
    {
      events := [];
      this.skipContents := skipContents;
      this.reroots := reroots;
    }

    method Emit(e: Event)
      modifies this
      ensures events == old(events) + [e]
    {
      events := events + [e];
    }
  }

  // ----------------------------------------------------------------- parser

  method DrainInto(sink: FileSystemObjectSink, source: Source, len: nat)
    returns (r: Result<(), ReadError>, ghost chunks: seq<bytes>)
    requires source.Valid()
    modifies source, sink
    ensures source.Valid()
    ensures r.Failure? ==> r.error == EndOfFile && len > |old(source.Remaining())|
    ensures r.Success? ==> len <= |old(source.Remaining())|
    ensures r.Success? ==> Flatten(chunks) == old(source.Remaining())[..len]
    ensures r.Success? ==> source.Remaining() == old(source.Remaining())[len..]
    ensures r.Success? ==> sink.events == old(sink.events) + DataEvents(chunks)
  {
    hide Flatten, DataEvents;
    chunks := [];
    ghost var was := source.Remaining();
    var left := len;
    NoChunks();
    assert sink.events + [] == sink.events && [] + was == was;
    while left > 0
      invariant source.Valid() && 0 <= left <= len
      invariant was == Flatten(chunks) + source.Remaining() && |Flatten(chunks)| == len - left
      invariant sink.events == old(sink.events) + DataEvents(chunks)
    {
      var chunk := source.Read(if left < DRAIN_CHUNK then left else DRAIN_CHUNK);
      if chunk.Failure? {
        r := Failure(EndOfFile);
        return;
      }
      sink.Emit(Data(chunk.value));
      OneChunk(chunks, chunk.value);
      assert was == Flatten(chunks) + chunk.value + source.Remaining();
      assert old(sink.events) + DataEvents(chunks) + [Data(chunk.value)] == old(sink.events) + (DataEvents(chunks) + [Data(chunk.value)]);
      chunks := chunks + [chunk.value];
      left := left - |chunk.value|;
    }
    r := Success(());
  }

  lemma NoChunks()
    ensures Flatten([]) == [] && DataEvents([]) == []
  {
  }

  lemma OneChunk(chunks: seq<bytes>, chunk: bytes)
    ensures Flatten(chunks + [chunk]) == Flatten(chunks) + chunk
    ensures DataEvents(chunks + [chunk]) == DataEvents(chunks) + [Data(chunk)]
  {
    assert (chunks + [chunk])[..|chunks|] == chunks;
  }

  /** What reading contents comes to, the size read. */
  function AfterSize(s1: bytes, n: u64): Read<blob> {
    if |s1| < n + PadLen(n) then Failure(EndOfFile)
    else if s1[n..n + PadLen(n)] != Zeros(PadLen(n)) then Failure(NonZeroPadding)
    else Success((s1[..n], s1[n + PadLen(n)..]))
  }

  lemma ContentsAfterSize(s: bytes)
    ensures ReadContents(s, false) ==
      match ReadU64(s)
      case Failure(e) => Failure(e)
      case Success((n, s1)) => AfterSize(s1, n)
  {
    hide FromLittleEndian, Zeros;
    if |s| >= 8 {
      var n := FromLittleEndian(s[..8]);
      FromLittleEndianRoundTrip(s[..8]);
      EightBytesHoldU64();
      if |s| >= 8 + n + PadLen(n) {
        assert s[8..][..n] == s[8..8 + n] && s[8..][n..n + PadLen(n)] == s[8 + n..8 + n + PadLen(n)];
        assert s[8..][n + PadLen(n)..] == s[8 + n + PadLen(n)..];
      }
    }
  }

  method DrainContents(sink: FileSystemObjectSink, source: Source)
    returns (r: Result<(), ReadError>, ghost chunks: seq<bytes>)
    requires source.Valid()
    modifies source, sink
    ensures source.Valid()
    ensures match ReadContents(old(source.Remaining()), false)
            case Success((contents, rest)) =>
              r.Success? && source.Remaining() == rest && Flatten(chunks) == contents &&
              sink.events == old(sink.events) + [Size(|contents|)] + DataEvents(chunks)
            case Failure(e) => r == Failure(e)
  {
    hide ReadContents, ReadU64, Flatten, DataEvents, Zeros;
    chunks := [];
    ContentsAfterSize(source.Remaining());
    var size := source.ReadNum();
    if size.Failure? {
      r := Failure(size.error);
      return;
    }
    ghost var s1, n := source.Remaining(), size.value;
    sink.Emit(Size(size.value));
    r, chunks := DrainInto(sink, source, size.value);
    if r.Failure? {
      return;
    }
    assert |s1| >= n + PadLen(n) ==> s1[n..][..PadLen(n)] == s1[n..n + PadLen(n)] && s1[n..][PadLen(n)..] == s1[n + PadLen(n)..];
    r := source.ReadPad(size.value);
  }

  method SkipContents(sink: FileSystemObjectSink, source: Source) returns (r: Result<(), ReadError>)
    requires source.Valid()
    modifies source, sink
    ensures source.Valid()
    ensures match ReadContents(old(source.Remaining()), true)
            case Success((_, rest)) => r.Success? && source.Remaining() == rest
            case Failure(e) => r == Failure(e)
  {
    var size :- source.ReadNum();
    sink.Emit(Size(size));
    if size > TWO_64 - 8 {
      return Failure(TooLarge);
    }
    r := source.Skip(size + PadLen(size));
  }

  method ParseFileContents(sink: FileSystemObjectSink, source: Source)
    returns (r: Result<(), ReadError>, ghost chunks: seq<bytes>)
    requires source.Valid()
    modifies source, sink
    ensures source.Valid()
    ensures match ReadContents(old(source.Remaining()), sink.skipContents)
            case Success((contents, rest)) =>
              r.Success? && source.Remaining() == rest && Flatten(chunks) == contents
            case Failure(e) => r == Failure(e)
    ensures r.Success? && !sink.skipContents ==>
              sink.events == old(sink.events) + [Size(|Flatten(chunks)|)] + DataEvents(chunks)
  {
    if sink.skipContents {
      r := SkipContents(sink, source);
      chunks := [];
    } else {
      r, chunks := DrainContents(sink, source);
    }
  }

  method ParseFileHead(sink: FileSystemObjectSink, source: Source) returns (r: Result<bool, ReadError>)
    requires source.Valid()
    modifies source, sink
    ensures source.Valid()
    ensures Follows(r, source.Remaining(), ParseRegularHead(old(source.Remaining())))
    ensures r.Success? ==> sink.events == old(sink.events) + (if r.value then [Exec] else [])
  {
    var tag :- source.ReadStr(NAR_MAX_TAG);
    if tag == TAG_EXECUTABLE {
      var _ :- source.ReadStr(0);
      sink.Emit(Exec);
      var _ :- source.Expect(TAG_CONTENTS);
      return Success(true);
    }
    if tag != TAG_CONTENTS {
      return Failure(BadArchive(BadTag));
    }
    return Success(false);
  }

  method ParseFile(sink: FileSystemObjectSink, source: Source, path: Path)
    returns (r: Result<(), ReadError>, ghost ct: ChunkedTree)
    requires source.Valid()
    modifies source, sink
    ensures source.Valid()
    ensures match ParseRegular(old(source.Remaining()), sink.skipContents)
            case Success((t, rest)) => r.Success? && source.Remaining() == rest && Splits(ct, t)
            case Failure(e) => r == Failure(e)
    ensures r.Success? && !sink.skipContents ==> sink.events == old(sink.events) + EventsOf(ct, path)
  {
    hide ParseRegularHead, ReadContents, ExpectTag;
    ct := Symlink([]);
    sink.Emit(FileBegin(path));
    var executable := ParseFileHead(sink, source);
    if executable.Failure? {
      r := Failure(executable.error);
      return;
    }
    ghost var chunks;
    r, chunks := ParseFileContents(sink, source);
    if r.Failure? {
      return;
    }
    r := source.Expect(TAG_CLOSE);
    sink.Emit(FileEnd(path));
    ct := Regular(executable.value, chunks);
  }

  method ParseLink(sink: FileSystemObjectSink, source: Source, path: Path)
    returns (r: Result<(), ReadError>, ghost ct: ChunkedTree)
    requires source.Valid()
    modifies source, sink
    ensures source.Valid()
    ensures match ParseSymlink(old(source.Remaining()))
            case Success((t, rest)) => r.Success? && source.Remaining() == rest && Splits(ct, t)
            case Failure(e) => r == Failure(e)
    ensures r.Success? ==> sink.events == old(sink.events) + EventsOf(ct, path)
  {
    ct := Symlink([]);
    r := source.Expect(TAG_TARGET);
    if r.Failure? {
      return;
    }
    var target := source.ReadStr(NAR_MAX_TARGET);
    if target.Failure? {
      r := Failure(target.error);
      return;
    }
    if !ValidTarget(target.value) {
      r := Failure(BadArchive(BadTarget));
      return;
    }
    sink.Emit(Link(path, target.value));
    ct := Symlink(target.value);
    r := source.Expect(TAG_CLOSE);
  }

  method ParseHead(source: Source, depth: nat) returns (r: Result<blob, ReadError>)
    requires source.Valid()
    modifies source
    ensures source.Valid()
    ensures Follows(r, source.Remaining(), ParseNodeHead(old(source.Remaining()), depth))
    ensures r.Success? ==> depth < NAR_MAX_DEPTH
  {
    if depth >= NAR_MAX_DEPTH {
      return Failure(BadArchive(TooDeep));
    }
    var _ :- source.Expect(TAG_OPEN);
    var _ :- source.Expect(TAG_TYPE);
    r := source.ReadStr(NAR_MAX_TAG);
  }

  method ParseEntryName(source: Source, prev: bytes) returns (r: Result<blob, ReadError>)
    requires source.Valid()
    modifies source
    ensures source.Valid()
    ensures Follows(r, source.Remaining(), ParseEntryHead(old(source.Remaining()), prev))
  {
    var _ :- source.Expect(TAG_OPEN);
    var _ :- source.Expect(TAG_NAME);
    var name :- source.ReadStr(NAR_MAX_NAME);
    if !ValidName(name) {
      return Failure(BadArchive(BadFileName));
    }
    if !Less(prev, name) {
      return Failure(BadArchive(NotSorted));
    }
    var _ :- source.Expect(TAG_NODE);
    return Success(name);
  }

  function PrependAll(done: seq<Entry<blob>>, tail: Read<seq<Entry<blob>>>): Read<seq<Entry<blob>>> {
    var (entries, rest) :- tail;
    Success((done + entries, rest))
  }

  lemma PrependNothing(tail: Read<seq<Entry<blob>>>)
    ensures PrependAll([], tail) == tail
  {
    if tail.Success? {
      assert [] + tail.value.0 == tail.value.0;
    }
  }

  lemma PrependAllStep(done: seq<Entry<blob>>, e: Entry<blob>, tail: Read<seq<Entry<blob>>>)
    ensures PrependAll(done, PrependEntry(e, tail)) == PrependAll(done + [e], tail)
  {
    if tail.Success? {
      assert done + ([e] + tail.value.0) == done + [e] + tail.value.0;
    }
  }

  /** One turn of the directory loop: the closing tag, or a whole entry. */
  method ParseEntry(sink: FileSystemObjectSink, source: Source, prefix: Path, path: Path, depth: nat, prev: bytes)
    returns (r: Result<Option<blob>, ReadError>, ghost e: Entry<blob>, ghost ce: Entry<seq<bytes>>)
    requires source.Valid() && depth < NAR_MAX_DEPTH
    modifies source, sink
    ensures source.Valid()
    ensures match r
            case Failure(error) =>
              ParseEntries(old(source.Remaining()), depth, prev, sink.skipContents) == Failure(error)
            case Success(None) =>
              ParseEntries(old(source.Remaining()), depth, prev, sink.skipContents)
                == Success(([], source.Remaining())) &&
              sink.events == old(sink.events)
            case Success(Some(name)) =>
              |source.Remaining()| < |old(source.Remaining())| &&
              e.name == ce.name == name && Splits(ce.node, e.node) &&
              ParseEntries(old(source.Remaining()), depth, prev, sink.skipContents)
                == PrependEntry(e, ParseEntries(source.Remaining(), depth, name, sink.skipContents))
    ensures r.Success? && r.value.Some? && !sink.skipContents ==>
              sink.events == old(sink.events) + EventsOf(ce.node, prefix + path + [ce.name])
    decreases NAR_MAX_DEPTH - depth, 0
  {
    hide ParseEntryHead, ParseNode, ExpectTag;
    e, ce := Entry([], Symlink([])), Entry([], Symlink([]));
    ghost var was := source.Remaining();
    var tag := source.ReadStr(NAR_MAX_TAG);
    if tag.Failure? {
      r := Failure(tag.error);
      return;
    }
    if tag.value == TAG_CLOSE {
      r := Success(None);
      return;
    }
    if tag.value != TAG_ENTRY {
      r := Failure(BadArchive(BadTag));
      return;
    }
    ghost var s1 := source.Remaining();
    var name := ParseEntryName(source, prev);
    if name.Failure? {
      r := Failure(name.error);
      return;
    }
    ghost var s2 := source.Remaining();
    ghost var ct;
    var node;
    node, ct := Parse(sink, source, prefix, path + [name.value], depth + 1);
    assert prefix + (path + [name.value]) == prefix + path + [name.value];
    if node.Failure? {
      r := Failure(node.error);
      return;
    }
    ghost var t := ParseNode(s2, depth + 1, sink.skipContents).value.0;
    ghost var s3 := source.Remaining();
    var closed := source.Expect(TAG_CLOSE);
    if closed.Failure? {
      r := Failure(closed.error);
      return;
    }
    ParseEntriesStep(was, s1, name.value, s2, t, s3, source.Remaining(), depth, prev, sink.skipContents);
    e, ce := Entry(name.value, t), Entry(name.value, ct);
    r := Success(Some(name.value));
  }

  method ParseDirectory(sink: FileSystemObjectSink, source: Source, prefix: Path, path: Path, depth: nat)
    returns (r: Result<(), ReadError>, ghost ces: seq<Entry<seq<bytes>>>)
    requires source.Valid() && depth < NAR_MAX_DEPTH
    modifies source, sink
    ensures source.Valid()
    ensures match ParseEntries(old(source.Remaining()), depth, [], sink.skipContents)
            case Success((es, rest)) => r.Success? && source.Remaining() == rest && SplitsEntries(ces, es)
            case Failure(e) => r == Failure(e)
    ensures r.Success? && !sink.skipContents ==>
              sink.events == old(sink.events) + EntriesEvents(ces, prefix + path)
    decreases NAR_MAX_DEPTH - depth, 1
  {
    hide ParseEntries;
    ces := [];
    ghost var was, es := source.Remaining(), [];
    var prevName: bytes := [];
    PrependNothing(ParseEntries(was, depth, [], sink.skipContents));
    while true
      invariant source.Valid() && SplitsEntries(ces, es)
      invariant ParseEntries(was, depth, [], sink.skipContents)
             == PrependAll(es, ParseEntries(source.Remaining(), depth, prevName, sink.skipContents))
      invariant !sink.skipContents ==> sink.events == old(sink.events) + EntriesEvents(ces, prefix + path)
      decreases |source.Remaining()|
    {
      ghost var e, ce;
      var turn;
      ghost var before := source.Remaining();
      turn, e, ce := ParseEntry(sink, source, prefix, path, depth, prevName);
      if turn.Failure? {
        r := Failure(turn.error);
        return;
      }
      if turn.value.None? {
        assert es + [] == es;
        r := Success(());
        return;
      }
      PrependAllStep(es, e, ParseEntries(source.Remaining(), depth, turn.value.value, sink.skipContents));
      ghost var more := ces + [ce];
      assert more[..|more| - 1] == ces;
      ces, es := more, es + [e];
      prevName := turn.value.value;
    }
  }

  /** Parses one node at `prefix / path`, telling the sink about it as it goes. */
  method Parse(sink: FileSystemObjectSink, source: Source, prefix: Path, path: Path, depth: nat)
    returns (r: Result<(), ReadError>, ghost ct: ChunkedTree)
    requires source.Valid() && depth <= NAR_MAX_DEPTH
    modifies source, sink
    ensures source.Valid()
    ensures match ParseNode(old(source.Remaining()), depth, sink.skipContents)
            case Success((t, rest)) => r.Success? && source.Remaining() == rest && Splits(ct, t)
            case Failure(e) => r == Failure(e)
    ensures r.Success? && !sink.skipContents ==> sink.events == old(sink.events) + EventsOf(ct, prefix + path)
    decreases NAR_MAX_DEPTH - depth, 2
  {
    hide ParseNodeHead, ParseRegular, ParseSymlink, ParseEntries;
    ct := Symlink([]);
    var kind := ParseHead(source, depth);
    if kind.Failure? {
      r := Failure(kind.error);
      return;
    }
    if kind.value == TAG_REGULAR {
      r, ct := ParseFile(sink, source, prefix + path);
    } else if kind.value == TAG_DIRECTORY {
      sink.Emit(DirBegin(prefix + path));
      var sub := if sink.reroots then prefix + path else prefix;
      var rel := if sink.reroots then [] else path;
      assert sub + rel == prefix + path;
      ghost var ces;
      r, ces := ParseDirectory(sink, source, sub, rel, depth);
      if r.Failure? {
        return;
      }
      sink.Emit(DirEnd(prefix + path));
      ct := Directory(ces);
    } else if kind.value == TAG_SYMLINK {
      r, ct := ParseLink(sink, source, prefix + path);
    } else {
      r := Failure(BadArchive(UnknownType));
    }
  }

  /** The whole archive, restored at the root of the sink. */
  method ParseArchive(sink: FileSystemObjectSink, source: Source)
    returns (r: Result<(), ReadError>, ghost ct: ChunkedTree)
    requires source.Valid()
    modifies source, sink
    ensures source.Valid()
    ensures match ParseDump(old(source.Remaining()), sink.skipContents)
            case Success((t, rest)) => r.Success? && source.Remaining() == rest && Splits(ct, t)
            case Failure(e) => r == Failure(e)
    ensures r.Success? && !sink.skipContents ==> sink.events == old(sink.events) + EventsOf(ct, [])
  {
    hide ParseNode;
    ct := Symlink([]);
    var version := source.ReadStr(|MAGIC|);
    if version == Failure(EndOfFile) {
      r := Failure(EndOfFile);
      return;
    }
    if version.Failure? || version.value != MAGIC {
      r := Failure(BadArchive(NotAnArchive));
      return;
    }
    var root: Path := [];
    assert root + root == root;
    r, ct := Parse(sink, source, root, root, 0);
  }
}
