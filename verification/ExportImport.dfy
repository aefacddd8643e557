/** Moving store paths between machines: the bundle an export writes, and the import that
    believes nothing but the digest it computes itself. */
module ExportImport {
  import opened Results
  import opened Wire
  import opened Nar
  import opened NarStream
  import opened Hashes
  import opened CanonPath
  import opened StorePath
  import MemoryTree

  const EXPORT_MAGIC: u64 := 0x4558494f

  /** A valid path of the exporting store: its tree, and the digest and the references in
      its database, in the order of their set. */
  datatype Row = Row(tree: Tree, narHash: Hash, references: seq<Base>)

  /** A store being imported into: what each valid path leads to. */
  type Store = map<Base, Tree>

  datatype ImportError =
    | Stream(error: ReadError)
    | NotAnExport
    | IntTooLarge
    | BadMagic
    | BadStorePath(path: BadPath)
    | Misnamed
    | HasReferences
    | HashMismatch

  datatype Config = Config(storeDir: Parts, sha: Sha)

  // ------------------------------------------------------------------ reading

  /** The length prefix of a bundle's strings is the only limit on them. */
  const MAX_STRING: nat := TWO_64 - 1

  function ReadPath(s: bytes, c: Config): Result<(Base, bytes), ImportError> {
    match ReadString(s, MAX_STRING)
    case Failure(e) => Failure(Stream(e))
    case Success((text, rest)) =>
      match ParsePath(text, c.storeDir)
      case Failure(e) => Failure(BadStorePath(e))
      case Success(b) => Success((b, rest))
  }

  function ReadPaths(s: bytes, n: nat, c: Config): (r: Result<(set<Base>, bytes), ImportError>)
    ensures r.Success? ==> |r.value.1| <= |s|
    decreases n
  {
    if n == 0 then Success(({}, s)) else
    match ReadPath(s, c)
    case Failure(e) => Failure(e)
    case Success((b, rest)) =>
      match ReadPaths(rest, n - 1, c)
      case Failure(e) => Failure(e)
      case Success((more, end)) => Success(({b} + more, end))
  }

  /** What stands behind the archive: magic number, path and references. */
  function ReadTrailer(s: bytes, c: Config): (r: Result<(Base, set<Base>, bytes), ImportError>)
    ensures r.Success? ==> |r.value.2| <= |s| && IsStorePath(r.value.0)
  {
    match ReadU64(s)
    case Failure(e) => Failure(Stream(e))
    case Success((magic, s1)) =>
      if magic >= 0x1_0000_0000 then Failure(IntTooLarge)
      else if magic != EXPORT_MAGIC then Failure(BadMagic)
      else match ReadPath(s1, c)
        case Failure(e) => Failure(e)
        case Success((b, s2)) =>
          match ReadU64(s2)
          case Failure(e) => Failure(Stream(e))
          case Success((n, s3)) =>
            match ReadPaths(s3, n, c)
            case Failure(e) => Failure(e)
            case Success((refs, rest)) => Success((b, refs, rest))
  }

  /** The checks on one path, once its archive has streamed past as `saved`. */
  function Check(saved: bytes, b: Base, refs: set<Base>, c: Config): Option<ImportError>
    requires |b| > HASH_LEN
  {
    if Address(NameOf(b), c.sha(saved), c.storeDir, c.sha) != Some(b) then Some(Misnamed)
    else if refs != {} then Some(HasReferences)
    else None
  }

  /** addToStore with the digest of `saved`: a path already valid is left alone. */
  function Add(store: Store, b: Base, saved: bytes): Result<Store, ImportError> {
    if b in store then Success(store) else
    match ParseDump(saved, false)
    case Failure(e) => Failure(Stream(e))
    case Success((t, rest)) => if rest == [] then Success(store[b := t]) else Failure(HashMismatch)
  }

  lemma ArchiveIsPrefix(s: bytes, skip: bool)
    requires ParseDump(s, skip).Success?
    ensures |ParseDump(s, skip).value.1| <= |s|
  {
    hide ParseNode;
  }

  /** One path of a bundle, its marker already read. */
  function ImportOne(s: bytes, store: Store, c: Config): (r: Result<(Base, Store, bytes), ImportError>)
    ensures r.Success? ==> |r.value.2| <= |s|
  {
    match ParseDump(s, true)
    case Failure(e) => Failure(Stream(e))
    case Success((_, s1)) =>
      ArchiveIsPrefix(s, true);
      var saved := s[..|s| - |s1|];
      match ReadTrailer(s1, c)
      case Failure(e) => Failure(e)
      case Success((b, refs, rest)) =>
        match Check(saved, b, refs, c)
        case Some(e) => Failure(e)
        case None =>
          match Add(store, b, saved)
          case Failure(e) => Failure(e)
          case Success(after) => Success((b, after, rest))
  }

  /** The whole loop: the store it leaves behind, however it ends, and either the paths
      it saw and the unread bytes, or the error. */
  function ImportAll(s: bytes, store: Store, seen: seq<Base>, c: Config)
    : (Store, Result<(seq<Base>, bytes), ImportError>)
    decreases |s|
  {
    match ReadU64(s)
    case Failure(e) => (store, Failure(Stream(e)))
    case Success((n, s1)) =>
      if n == 0 then (store, Success((seen, s1)))
      else if n != 1 then (store, Failure(NotAnExport))
      else match ImportOne(s1, store, c)
        case Failure(e) => (store, Failure(e))
        case Success((b, after, rest)) => ImportAll(rest, after, seen + [b], c)
  }

  // ----------------------------------------- what an import can ever register

  /** Every path is named by the digest of its tree. */
  ghost predicate NamedByContent(store: Store, c: Config) {
    forall b :: b in store ==>
      IsStorePath(b) && Valid(store[b], 0) && Address(NameOf(b), c.sha(Dump(store[b])), c.storeDir, c.sha) == Some(b)
  }

  lemma AddKeepsNames(store: Store, b: Base, refs: set<Base>, saved: bytes, c: Config)
    requires NamedByContent(store, c) && IsStorePath(b) && Check(saved, b, refs, c).None? && Add(store, b, saved).Success?
    ensures NamedByContent(Add(store, b, saved).value, c)
  {
    hide ParseDump, Dump, Address, IsStorePath;
    if b !in store {
      Canonicity(saved);
      var t := ParseDump(saved, false).value.0;
      assert Dump(t) + [] == Dump(t);
    }
  }

  lemma ImportOneKeepsNames(s: bytes, store: Store, c: Config)
    requires NamedByContent(store, c) && ImportOne(s, store, c).Success?
    ensures NamedByContent(ImportOne(s, store, c).value.1, c)
  {
    hide ParseDump, Check, Add, ReadTrailer, IsStorePath, NamedByContent;
    var s1 := ParseDump(s, true).value.1;
    ArchiveIsPrefix(s, true);
    var saved := s[..|s| - |s1|];
    var (b, refs, rest) := ReadTrailer(s1, c).value;
    AddKeepsNames(store, b, refs, saved, c);
  }

  /** Whatever the stream claims, and even when the import fails half-way, the store
      holds nothing but paths equal to the name recomputed from their trees. */
  lemma {:induction false} ImportKeepsNames(s: bytes, store: Store, seen: seq<Base>, c: Config)
    requires NamedByContent(store, c)
    ensures NamedByContent(ImportAll(s, store, seen, c).0, c)
    decreases |s|
  {
    hide ImportOne, NamedByContent;
    if ReadU64(s).Success? {
      var (n, s1) := ReadU64(s).value;
      if n == 1 && ImportOne(s1, store, c).Success? {
        var (b, after, rest) := ImportOne(s1, store, c).value;
        ImportOneKeepsNames(s1, store, c);
        ImportKeepsNames(rest, after, seen + [b], c);
      }
    }
  }

  /** No path that was valid before is touched, and only paths the import reports are
      added; on success each reported path is valid. */
  lemma {:induction false} ImportOnlyAdds(s: bytes, store: Store, seen: seq<Base>, c: Config)
    ensures var (after, r) := ImportAll(s, store, seen, c);
      (forall b :: b in store ==> b in after && after[b] == store[b]) &&
      (r.Success? ==> |seen| <= |r.value.0| && r.value.0[..|seen|] == seen) &&
      (r.Success? ==> forall b :: b in after ==> b in store || b in r.value.0[|seen|..]) &&
      (r.Success? ==> forall i :: |seen| <= i < |r.value.0| ==> r.value.0[i] in after)
    decreases |s|
  {
    hide ImportOne;
    if ReadU64(s).Success? {
      var (n, s1) := ReadU64(s).value;
      if n == 1 && ImportOne(s1, store, c).Success? {
        var (b, after, rest) := ImportOne(s1, store, c).value;
        ImportOneAdds(s1, store, c);
        ImportOnlyAdds(rest, after, seen + [b], c);
        var r := ImportAll(rest, after, seen + [b], c).1;
        if r.Success? {
          assert r.value.0[|seen|] == r.value.0[..|seen| + 1][|seen|] == b;
          assert r.value.0[|seen|..] == [b] + r.value.0[|seen| + 1..];
          assert seen == (seen + [b])[..|seen|] == r.value.0[..|seen|];
        }
      }
    }
  }

  lemma ImportOneAdds(s: bytes, store: Store, c: Config)
    requires ImportOne(s, store, c).Success?
    ensures var (b, after, _) := ImportOne(s, store, c).value;
      b in after && (forall p :: p in store ==> p in after && after[p] == store[p]) &&
      (forall p :: p in after ==> p in store || p == b)
  {
    hide ParseDump, Check, ReadTrailer;
  }

  // ------------------------------------------------ only bundles are accepted

  lemma PathRead(s: bytes, c: Config) returns (text: blob)
    requires ReadPath(s, c).Success?
    ensures ParsePath(text, c.storeDir) == Success(ReadPath(s, c).value.0) && s == Put(text, ReadPath(s, c).value.1)
  {
    hide ParsePath;
    ReadStringCanonical(s, MAX_STRING);
    text := ReadString(s, MAX_STRING).value.0;
  }

  lemma SomePathIsRead(s: bytes, n: nat, c: Config)
    requires ReadPaths(s, n, c).Success?
    ensures n > 0 ==> ReadPaths(s, n, c).value.0 != {}
    ensures n == 0 ==> ReadPaths(s, n, c) == Success(({}, s))
  {
    hide ReadPath;
    if n > 0 {
      assert ReadPath(s, c).value.0 in ReadPaths(s, n, c).value.0;
    }
  }

  /** An accepted trailer without references, byte for byte. */
  lemma TrailerRead(s: bytes, c: Config) returns (text: blob)
    requires ReadTrailer(s, c).Success? && ReadTrailer(s, c).value.1 == {}
    ensures var (b, _, rest) := ReadTrailer(s, c).value;
      ParsePath(text, c.storeDir) == Success(b) &&
      s == LittleEndian(EXPORT_MAGIC, 8) + Put(text, LittleEndian(0, 8) + rest)
  {
    hide ReadPath, ReadPaths, ParsePath, ReadU64, LittleEndian, Put;
    ReadU64Canonical(s);
    var s1 := ReadU64(s).value.1;
    text := PathRead(s1, c);
    var s2 := ReadPath(s1, c).value.1;
    ReadU64Canonical(s2);
    SomePathIsRead(ReadU64(s2).value.1, ReadU64(s2).value.0, c);
  }

  /** One path as it stood in the stream: its archive and its name's text. */
  datatype Piece = Piece(saved: bytes, text: blob)

  ghost function OnePiece(p: Piece, rest: bytes): bytes {
    p.saved + (LittleEndian(EXPORT_MAGIC, 8) + Put(p.text, LittleEndian(0, 8) + rest))
  }

  ghost function Bundle(ps: seq<Piece>, rest: bytes): bytes {
    if ps == [] then LittleEndian(0, 8) + rest else LittleEndian(1, 8) + OnePiece(ps[0], Bundle(ps[1..], rest))
  }

  /** The text names the path, and the path is the address of the archive. */
  ghost predicate Names(p: Piece, b: Base, c: Config) {
    ParsePath(p.text, c.storeDir) == Success(b) && IsStorePath(b) &&
    Address(NameOf(b), c.sha(p.saved), c.storeDir, c.sha) == Some(b)
  }

  lemma OneAccepted(s: bytes, store: Store, c: Config) returns (p: Piece)
    requires ImportOne(s, store, c).Success?
    ensures var (b, after, rest) := ImportOne(s, store, c).value;
      s == OnePiece(p, rest) && Names(p, b, c) && b in after &&
      (b !in store ==> Valid(after[b], 0) && Dump(after[b]) == p.saved)
  {
    hide ParseDump, ReadTrailer, Address, ParsePath, LittleEndian, Put, Dump, Valid;
    var s1 := ParseDump(s, true).value.1;
    ArchiveIsPrefix(s, true);
    var saved := s[..|s| - |s1|];
    SkippedIsSuffix(s);
    var (b, _, rest) := ReadTrailer(s1, c).value;
    var text := TrailerRead(s1, c);
    p := Piece(saved, text);
    if b !in store {
      Canonicity(saved);
      assert Dump(ParseDump(saved, false).value.0) + [] == saved;
    }
  }

  lemma SkippedIsSuffix(s: bytes)
    requires ParseDump(s, true).Success?
    ensures |ParseDump(s, true).value.1| <= |s|
    ensures s == s[..|s| - |ParseDump(s, true).value.1|] + ParseDump(s, true).value.1
  {
    ArchiveIsPrefix(s, true);
    UnreadIsEnd(s, true);
  }

  /** Nothing but a bundle is imported: an import that succeeds has read its markers, and for
      each path an archive, the magic number, the text of its name and no references, byte
      for byte, and each path is the address of its own archive. */
  lemma {:induction false} OnlyBundlesImport(s: bytes, store: Store, seen: seq<Base>, c: Config) returns (ps: seq<Piece>)
    requires ImportAll(s, store, seen, c).1.Success?
    ensures var (after, r) := ImportAll(s, store, seen, c);
      |r.value.0| == |seen| + |ps| && s == Bundle(ps, r.value.1) &&
      (forall i :: 0 <= i < |ps| ==> Names(ps[i], r.value.0[|seen| + i], c)) &&
      (forall b :: b in after && b !in store ==> Sourced(b, after[b], ps, r.value.0[|seen|..]))
    decreases |s|
  {
    hide ImportOne, ImportAll, Names, OnePiece, LittleEndian, ReadU64, Dump, Sourced;
    ImportStarts(s, store, seen, c);
    ReadU64Canonical(s);
    var (n, s1) := ReadU64(s).value;
    if n == 0 {
      ps := [];
    } else {
      var p := OneAccepted(s1, store, c);
      var (b, after, rest) := ImportOne(s1, store, c).value;
      ImportOneAdds(s1, store, c);
      ImportOnlyAdds(rest, after, seen + [b], c);
      var qs := OnlyBundlesImport(rest, after, seen + [b], c);
      ps := [p] + qs;
      assert ps[1..] == qs;
      var (end, r) := ImportAll(rest, after, seen + [b], c);
      assert r.value.0[|seen|] == r.value.0[..|seen| + 1][|seen|] == b;
      assert r.value.0[|seen|..] == [b] + r.value.0[|seen| + 1..];
      forall i | 0 <= i < |ps| ensures Names(ps[i], r.value.0[|seen| + i], c) {
        if i > 0 {
          assert ps[i] == qs[i - 1];
        }
      }
      forall x | x in end && x !in store ensures Sourced(x, end[x], ps, r.value.0[|seen|..]) {
        if x in after {
          FirstIsSource(x, end[x], p, qs, r.value.0[|seen| + 1..]);
        } else {
          LaterIsSource(x, end[x], p, qs, b, r.value.0[|seen| + 1..]);
        }
      }
    }
  }

  /** The tree dumps to the archive one of the pieces has for that path. */
  ghost predicate Sourced(x: Base, t: Tree, ps: seq<Piece>, bases: seq<Base>) {
    exists i :: 0 <= i < |ps| && i < |bases| && bases[i] == x && Dump(t) == ps[i].saved
  }

  lemma FirstIsSource(x: Base, t: Tree, p: Piece, qs: seq<Piece>, bases: seq<Base>)
    requires Dump(t) == p.saved
    ensures Sourced(x, t, [p] + qs, [x] + bases)
  {
    hide Dump;
    assert ([p] + qs)[0] == p && ([x] + bases)[0] == x;
  }

  lemma LaterIsSource(x: Base, t: Tree, p: Piece, qs: seq<Piece>, b: Base, bases: seq<Base>)
    requires Sourced(x, t, qs, bases)
    ensures Sourced(x, t, [p] + qs, [b] + bases)
  {
    hide Dump;
    var i :| 0 <= i < |qs| && i < |bases| && bases[i] == x && Dump(t) == qs[i].saved;
    assert ([p] + qs)[i + 1] == qs[i] && ([b] + bases)[i + 1] == bases[i];
  }

  lemma ImportStarts(s: bytes, store: Store, seen: seq<Base>, c: Config)
    requires ImportAll(s, store, seen, c).1.Success?
    ensures ReadU64(s).Success? && ReadU64(s).value.0 <= 1
    ensures var (n, s1) := ReadU64(s).value;
      if n == 0 then ImportAll(s, store, seen, c) == (store, Success((seen, s1)))
      else
        ImportOne(s1, store, c).Success? &&
        var (b, after, rest) := ImportOne(s1, store, c).value;
        |rest| < |s| && ImportAll(s, store, seen, c) == ImportAll(rest, after, seen + [b], c)
  {
    hide ImportOne;
  }

  /** What the refusals mean, whatever follows in the stream. */
  lemma MarkersRefused(n: u64, rest: bytes, store: Store, seen: seq<Base>, c: Config)
    ensures n > 1 ==> ImportAll(LittleEndian(n, 8) + rest, store, seen, c) == (store, Failure(NotAnExport))
    ensures ReadTrailer(LittleEndian(n, 8) + rest, c) == Failure(IntTooLarge) <==> n >= 0x1_0000_0000
    ensures ReadTrailer(LittleEndian(n, 8) + rest, c) == Failure(BadMagic) <==> n < 0x1_0000_0000 && n != EXPORT_MAGIC
  {
    hide LittleEndian, ReadU64, ImportOne;
    ReadU64Inverse(n, rest);
    PathErrors(rest, c);
    if ReadPath(rest, c).Success? {
      var s2 := ReadPath(rest, c).value.1;
      if ReadU64(s2).Success? {
        PathsErrors(ReadU64(s2).value.1, ReadU64(s2).value.0, c);
      }
    }
  }

  lemma PathErrors(s: bytes, c: Config)
    ensures ReadPath(s, c).Failure? ==> ReadPath(s, c).error.Stream? || ReadPath(s, c).error.BadStorePath?
  {
    hide ReadString, ParsePath;
  }

  lemma {:induction false} PathsErrors(s: bytes, n: nat, c: Config)
    ensures ReadPaths(s, n, c).Failure? ==> ReadPaths(s, n, c).error.Stream? || ReadPaths(s, n, c).error.BadStorePath?
    decreases n
  {
    hide ReadPath;
    if n > 0 {
      PathErrors(s, c);
      if ReadPath(s, c).Success? {
        PathsErrors(ReadPath(s, c).value.1, n - 1, c);
      }
    }
  }

  // ---------------------------------------------------------------- exporting

  datatype Item = Item(base: Base, tree: Tree, references: seq<Base>)

  /** Lengths the stream can carry. */
  ghost predicate Printable(x: Item, c: Config) {
    |x.references| < TWO_64 && |PrintPath(x.base, c.storeDir)| < TWO_64 &&
    forall i :: 0 <= i < |x.references| ==> |PrintPath(x.references[i], c.storeDir)| < TWO_64
  }

  /** writeStorePathSet, its count already written. */
  ghost function PrintPaths(refs: seq<Base>, c: Config, rest: bytes): bytes
    requires forall i :: 0 <= i < |refs| ==> |PrintPath(refs[i], c.storeDir)| < TWO_64
  {
    if refs == [] then rest else Put(PrintPath(refs[0], c.storeDir), PrintPaths(refs[1..], c, rest))
  }

  /** exportPath. */
  ghost function PrintOne(x: Item, c: Config, rest: bytes): bytes
    requires Printable(x, c)
  {
    Dump(x.tree) + (LittleEndian(EXPORT_MAGIC, 8) + Put(PrintPath(x.base, c.storeDir),
      LittleEndian(|x.references|, 8) + PrintPaths(x.references, c, rest)))
  }

  /** What can be exported and read back but for its references: a tree the format carries,
      whose files the skipping parse can step over, under its own content address. */
  ghost predicate Portable(x: Item, c: Config) {
    Printable(x, c) && Valid(x.tree, 0) && Skippable(x.tree) && AllValid(c.storeDir) && |x.base| > HASH_LEN &&
    Address(NameOf(x.base), c.sha(Dump(x.tree)), c.storeDir, c.sha) == Some(x.base) &&
    forall i :: 0 <= i < |x.references| ==> IsStorePath(x.references[i]) && ValidName(x.references[i])
  }

  ghost predicate Exportable(x: Item, c: Config) {
    Portable(x, c) && x.references == []
  }

  function RefSet(refs: seq<Base>): set<Base> {
    set r | r in refs
  }

  lemma {:induction false} PathsReadBack(refs: seq<Base>, c: Config, rest: bytes)
    requires AllValid(c.storeDir)
    requires forall i :: 0 <= i < |refs| ==>
               |PrintPath(refs[i], c.storeDir)| < TWO_64 && IsStorePath(refs[i]) && ValidName(refs[i])
    ensures ReadPaths(PrintPaths(refs, c, rest), |refs|, c) == Success((RefSet(refs), rest))
    decreases |refs|
  {
    hide ReadString, IsStorePath, ValidName, ParsePath, PrintPath, Encode;
    if refs == [] {
      assert RefSet(refs) == {};
    } else {
      PathsReadBack(refs[1..], c, rest);
      ReadStringInverse(PrintPath(refs[0], c.storeDir), PrintPaths(refs[1..], c, rest), MAX_STRING);
      PrintedPathParses(refs[0], c.storeDir);
      assert refs == [refs[0]] + refs[1..];
      assert RefSet(refs) == {refs[0]} + RefSet(refs[1..]);
    }
  }

  lemma PortableBase(x: Item, c: Config)
    requires Portable(x, c)
    ensures IsStorePath(x.base) && ValidName(x.base)
  {
    hide Address, Dump, Valid, Skippable, IsStorePath, ValidName;
    AddressNeedsName(NameOf(x.base), c.sha(Dump(x.tree)), c);
    AddressIsStorePath(NameOf(x.base), c.sha(Dump(x.tree)), c.storeDir, c.sha);
  }

  lemma AddressNeedsName(name: bytes, narHash: Hash, c: Config)
    ensures Address(name, narHash, c.storeDir, c.sha).Some? ==> CheckName(name)
  {
  }

  /** Names and references that can be printed and read back. */
  ghost predicate Legible(x: Item, c: Config) {
    Printable(x, c) && AllValid(c.storeDir) && IsStorePath(x.base) && ValidName(x.base) &&
    forall i :: 0 <= i < |x.references| ==> IsStorePath(x.references[i]) && ValidName(x.references[i])
  }

  lemma TrailerReadsBack(x: Item, c: Config, rest: bytes)
    requires Legible(x, c)
    ensures ReadTrailer(LittleEndian(EXPORT_MAGIC, 8) + Put(PrintPath(x.base, c.storeDir),
              LittleEndian(|x.references|, 8) + PrintPaths(x.references, c, rest)), c)
            == Success((x.base, RefSet(x.references), rest))
  {
    hide ReadString, ReadU64, ReadPaths, ParsePath, PrintPath, IsStorePath, LittleEndian;
    var more := LittleEndian(|x.references|, 8) + PrintPaths(x.references, c, rest);
    ReadU64Inverse(EXPORT_MAGIC, Put(PrintPath(x.base, c.storeDir), more));
    ReadStringInverse(PrintPath(x.base, c.storeDir), more, MAX_STRING);
    ReadU64Inverse(|x.references|, PrintPaths(x.references, c, rest));
    PrintedPathParses(x.base, c.storeDir);
    PathsReadBack(x.references, c, rest);
  }

  /** What an import makes of an archive it can step over: the tree's own bytes are saved,
      and the trailer is read behind them. */
  lemma ArchiveReadsBack(x: Item, c: Config, rest: bytes)
    requires Legible(x, c) && Valid(x.tree, 0) && Skippable(x.tree)
    ensures var s1 := LittleEndian(EXPORT_MAGIC, 8) + Put(PrintPath(x.base, c.storeDir),
        LittleEndian(|x.references|, 8) + PrintPaths(x.references, c, rest));
      var s := PrintOne(x, c, rest);
      ParseDump(s, true) == Success((Hollow(x.tree), s1)) && |s1| <= |s| && s[..|s| - |s1|] == Dump(x.tree)
  {
    hide ParseDump, LittleEndian, Put, PrintPath, PrintPaths, Valid, Skippable, IsStorePath;
    var s1 := LittleEndian(EXPORT_MAGIC, 8) + Put(PrintPath(x.base, c.storeDir),
      LittleEndian(|x.references|, 8) + PrintPaths(x.references, c, rest));
    RoundTrip(x.tree, s1);
    SkipAgrees(PrintOne(x, c, rest));
  }

  /** A path that is not the address of its own tree is refused, however well-formed the
      rest, and one that is but has references is refused for them. */
  lemma MisnamedIsRefused(x: Item, store: Store, c: Config, rest: bytes)
    requires Legible(x, c) && Valid(x.tree, 0) && Skippable(x.tree)
    ensures ImportOne(PrintOne(x, c, rest), store, c) == Failure(Misnamed) <==>
            Address(NameOf(x.base), c.sha(Dump(x.tree)), c.storeDir, c.sha) != Some(x.base)
  {
    hide ParseDump, ReadTrailer, LittleEndian, Put, PrintPath, PrintPaths, Valid, Skippable, Address;
    TrailerReadsBack(x, c, rest);
    ArchiveReadsBack(x, c, rest);
  }

  /** One exported path lands as it was, whatever follows it in the bundle, unless it has
      references: then it is refused. */
  lemma OneReadsBack(x: Item, store: Store, c: Config, rest: bytes)
    requires Portable(x, c)
    ensures ImportOne(PrintOne(x, c, rest), store, c) ==
            if x.references != [] then Failure(HasReferences)
            else Success((x.base, if x.base in store then store else store[x.base := x.tree], rest))
  {
    hide ParseDump, Dump, ReadTrailer, IsStorePath, ValidName, Address, AllValid, PrintPath, Skippable, PrintPaths, Encode;
    var s1 := LittleEndian(EXPORT_MAGIC, 8) + Put(PrintPath(x.base, c.storeDir),
      LittleEndian(|x.references|, 8) + PrintPaths(x.references, c, rest));
    var s := PrintOne(x, c, rest);
    RoundTrip(x.tree, s1);
    SkipAgrees(s);
    assert s[..|s| - |s1|] == Dump(x.tree);
    PortableBase(x, c);
    TrailerReadsBack(x, c, rest);
    RoundTrip(x.tree, []);
    assert Dump(x.tree) + [] == Dump(x.tree);
    assert x.references != [] ==> x.references[0] in RefSet(x.references);
  }

  ghost predicate AllPrintable(items: seq<Item>, c: Config) {
    forall i :: 0 <= i < |items| ==> Printable(items[i], c)
  }

  ghost predicate AllPortable(items: seq<Item>, c: Config) {
    forall i :: 0 <= i < |items| ==> Portable(items[i], c)
  }

  ghost predicate AllExportable(items: seq<Item>, c: Config) {
    forall i :: 0 <= i < |items| ==> Exportable(items[i], c)
  }

  /** exportPaths. */
  ghost function PrintAll(items: seq<Item>, c: Config, rest: bytes): bytes
    requires AllPrintable(items, c)
  {
    if items == [] then LittleEndian(0, 8) + rest
    else LittleEndian(1, 8) + PrintOne(items[0], c, PrintAll(items[1..], c, rest))
  }

  function Bases(items: seq<Item>): seq<Base> {
    seq(|items|, i requires 0 <= i < |items| => items[i].base)
  }

  /** A store after the items have landed: what was valid stays, the rest is added. */
  function Landed(store: Store, items: seq<Item>): Store
    decreases |items|
  {
    if items == [] then store
    else Landed(if items[0].base in store then store else store[items[0].base := items[0].tree], items[1..])
  }

  /** How many items come before the first with references. */
  function Free(items: seq<Item>): (n: nat)
    ensures n <= |items|
    ensures forall i :: 0 <= i < n ==> items[i].references == []
    ensures n < |items| ==> items[n].references != []
  {
    if items == [] || items[0].references != [] then 0 else 1 + Free(items[1..])
  }

  /** A bundle lands in order up to the first path with references. Without one, the whole
      of it lands and what follows it is left unread; with one, the import fails there. */
  lemma {:induction false} BundleReadsBack(items: seq<Item>, store: Store, seen: seq<Base>, c: Config, rest: bytes)
    requires AllPortable(items, c)
    ensures ImportAll(PrintAll(items, c, rest), store, seen, c) ==
            (Landed(store, items[..Free(items)]),
             if Free(items) == |items| then Success((seen + Bases(items), rest)) else Failure(HasReferences))
    decreases |items|
  {
    hide Portable, Printable, ImportOne, PrintOne, ReadU64;
    if items == [] {
      ReadU64Inverse(0, rest);
      assert seen + Bases(items) == seen;
    } else {
      var x := items[0];
      PrintableAll(items, c);
      var more := PrintAll(items[1..], c, rest);
      ReadU64Inverse(1, PrintOne(x, c, more));
      OneReadsBack(x, store, c, more);
      if x.references == [] {
        BundleReadsBack(items[1..], if x.base in store then store else store[x.base := x.tree], seen + [x.base], c, rest);
        assert seen + Bases(items) == seen + [x.base] + Bases(items[1..]);
        assert items[..Free(items)][1..] == items[1..][..Free(items[1..])];
      }
    }
  }

  lemma PrintableAll(items: seq<Item>, c: Config)
    requires AllPortable(items, c)
    ensures AllPrintable(items, c)
  {
  }

  lemma {:induction false} LandedAll(store: Store, items: seq<Item>, b: Base)
    ensures b in Landed(store, items) <==> b in store || b in Bases(items)
    ensures b in store ==> Landed(store, items)[b] == store[b]
    ensures b in Landed(store, items) && b !in store ==>
              exists i :: 0 <= i < |items| && items[i].base == b && items[i].tree == Landed(store, items)[b]
    decreases |items|
  {
    if items != [] {
      var first, rest := items[0], items[1..];
      LandedAll(if first.base in store then store else store[first.base := first.tree], rest, b);
      assert Bases(items) == [first.base] + Bases(rest);
      assert forall i :: 0 <= i < |rest| ==> rest[i] == items[i + 1];
    }
  }

  /** Importing an export into an empty store lands exactly the exported paths, each
      with its own tree, and reports them in order. */
  lemma ImportUndoesExport(items: seq<Item>, c: Config, rest: bytes)
    requires AllExportable(items, c)
    requires forall i, j :: 0 <= i < j < |items| ==> items[i].base != items[j].base
    ensures AllPrintable(items, c)
    ensures var (store, r) := ImportAll(PrintAll(items, c, rest), map[], [], c);
      r == Success((Bases(items), rest)) &&
      (forall b :: b in store <==> b in Bases(items)) &&
      (forall i :: 0 <= i < |items| ==> items[i].base in store && store[items[i].base] == items[i].tree)
  {
    hide Portable, ImportAll, PrintAll, Landed;
    PrintableAll(items, c);
    BundleReadsBack(items, map[], [], c, rest);
    assert [] + Bases(items) == Bases(items);
    assert items[..|items|] == items;
    LandedInEmpty(items);
  }

  lemma BaseIn(items: seq<Item>, i: nat)
    requires i < |items|
    ensures items[i].base in Bases(items)
  {
    assert Bases(items)[i] == items[i].base;
  }

  lemma LandedOwn(items: seq<Item>, i: nat)
    requires i < |items|
    requires forall i, j :: 0 <= i < j < |items| ==> items[i].base != items[j].base
    ensures items[i].base in Landed(map[], items) && Landed(map[], items)[items[i].base] == items[i].tree
  {
    hide Landed, Bases;
    var b := items[i].base;
    LandedAll(map[], items, b);
    BaseIn(items, i);
    var k :| 0 <= k < |items| && items[k].base == b && items[k].tree == Landed(map[], items)[b];
    assert k == i;
  }

  lemma LandedInEmpty(items: seq<Item>)
    requires forall i, j :: 0 <= i < j < |items| ==> items[i].base != items[j].base
    ensures var store := Landed(map[], items);
      (forall b :: b in store <==> b in Bases(items)) &&
      (forall i :: 0 <= i < |items| ==> items[i].base in store && store[items[i].base] == items[i].tree)
  {
    hide Landed, Bases;
    var store := Landed(map[], items);
    forall b ensures b in store <==> b in Bases(items) {
      LandedAll(map[], items, b);
    }
    forall i | 0 <= i < |items| ensures items[i].base in store && store[items[i].base] == items[i].tree {
      LandedOwn(items, i);
    }
  }

  // -------------------------------------------------------------- the programs

  datatype ExportError = NotValid | Dumping(error: DumpError) | HasChanged

  function ItemOf(rows: map<Base, Row>, b: Base): Item
    requires b in rows
  {
    Item(b, rows[b].tree, rows[b].references)
  }

  /** A tree whose digest is the recorded one, or whose digest is not known. */
  predicate Unchanged(row: Row, sha: Sha) {
    sha(Dump(row.tree)) == row.narHash || row.narHash == Zeros(32)
  }

  predicate CanExport(rows: map<Base, Row>, b: Base, c: Config) {
    b in rows && Fits(rows[b].tree, 0) && Unchanged(rows[b], c.sha)
  }

  /** A path whose name is the address of its recorded digest, exported successfully, can
      be imported: its references are all that an import may still object to. */
  lemma ExportedIsPortable(rows: map<Base, Row>, b: Base, name: bytes, c: Config)
    requires CanExport(rows, b, c) && Printable(ItemOf(rows, b), c) && AllValid(c.storeDir)
    requires rows[b].narHash != Zeros(32) && Address(name, rows[b].narHash, c.storeDir, c.sha) == Some(b)
    requires Valid(rows[b].tree, 0) && Skippable(rows[b].tree)
    requires forall r :: r in rows[b].references ==> IsStorePath(r) && ValidName(r)
    ensures Portable(ItemOf(rows, b), c)
    ensures rows[b].references == [] ==> Exportable(ItemOf(rows, b), c)
  {
    hide Address, Dump, Valid, Skippable, ValidName, Fits, Printable;
    AddressNeedsName(name, rows[b].narHash, c);
    AddressIsStorePath(name, rows[b].narHash, c.storeDir, c.sha);
  }

  method WriteStorePathSet(refs: seq<Base>, c: Config, sink: StringSink)
    requires |refs| < TWO_64 && forall i :: 0 <= i < |refs| ==> |PrintPath(refs[i], c.storeDir)| < TWO_64
    modifies sink
    ensures forall rest :: sink.s + rest == old(sink.s) + (LittleEndian(|refs|, 8) + PrintPaths(refs, c, rest))
  {
    hide PrintPath, LittleEndian, Encode;
    sink.WriteNum(|refs|);
    ghost var start := sink.s;
    assert refs[0..] == refs;
    for i := 0 to |refs|
      invariant forall rest :: sink.s + PrintPaths(refs[i..], c, rest) == start + PrintPaths(refs, c, rest)
    {
      ghost var mid := sink.s;
      sink.WriteString(PrintPath(refs[i], c.storeDir));
      assert refs[i..][1..] == refs[i + 1..];
      forall rest ensures sink.s + PrintPaths(refs[i + 1..], c, rest) == start + PrintPaths(refs, c, rest) {
        assert sink.s + PrintPaths(refs[i + 1..], c, rest) ==
               mid + Put(PrintPath(refs[i], c.storeDir), PrintPaths(refs[i + 1..], c, rest));
        assert mid + PrintPaths(refs[i..], c, rest) == start + PrintPaths(refs, c, rest);
      }
    }
    forall rest ensures sink.s + rest == old(sink.s) + (LittleEndian(|refs|, 8) + PrintPaths(refs, c, rest)) {
      assert PrintPaths(refs[|refs|..], c, rest) == rest;
      Associative(old(sink.s), LittleEndian(|refs|, 8), PrintPaths(refs, c, rest));
    }
  }

  lemma Associative(a: bytes, b: bytes, d: bytes)
    ensures a + b + d == a + (b + d)
  {
  }

  /** exportPath: what is printed is the tree, unless its digest is not the recorded one. */
  method ExportPath(rows: map<Base, Row>, b: Base, c: Config, sink: StringSink) returns (r: Result<(), ExportError>)
    requires b in rows ==> Printable(ItemOf(rows, b), c)
    modifies sink
    ensures r.Success? <==> CanExport(rows, b, c)
    ensures r.Success? ==> forall rest :: sink.s + rest == old(sink.s) + PrintOne(ItemOf(rows, b), c, rest)
    ensures r == Failure(NotValid) <==> b !in rows
    ensures r == Failure(HasChanged) <==> b in rows && Fits(rows[b].tree, 0) && !Unchanged(rows[b], c.sha)
  {
    hide Dump, PrintPath, Fits, PrintPaths, LittleEndian, Encode;
    if b !in rows {
      return Failure(NotValid);
    }
    ghost var before := sink.s;
    var t := rows[b].tree;
    var start := |sink.s|;
    var dumped := DumpPath(t, sink);
    if dumped.Failure? {
      return Failure(Dumping(dumped.error));
    }
    var hash := c.sha(sink.s[start..]);
    assert sink.s[start..] == Dump(t);
    if hash != rows[b].narHash && rows[b].narHash != Zeros(32) {
      return Failure(HasChanged);
    }
    ghost var dumped1 := sink.s;
    sink.WriteNum(EXPORT_MAGIC);
    ghost var marked := sink.s;
    sink.WriteString(PrintPath(b, c.storeDir));
    ghost var named := sink.s;
    WriteStorePathSet(rows[b].references, c, sink);
    forall rest ensures sink.s + rest == before + PrintOne(ItemOf(rows, b), c, rest) {
      var refs := LittleEndian(|rows[b].references|, 8) + PrintPaths(rows[b].references, c, rest);
      assert sink.s + rest == named + refs;
      assert named + refs == marked + Put(PrintPath(b, c.storeDir), refs);
      Associative(dumped1, LittleEndian(EXPORT_MAGIC, 8), Put(PrintPath(b, c.storeDir), refs));
      Associative(before, Dump(t), LittleEndian(EXPORT_MAGIC, 8) + Put(PrintPath(b, c.storeDir), refs));
    }
    return Success(());
  }

  ghost function ItemsOf(rows: map<Base, Row>, paths: seq<Base>): (items: seq<Item>)
    requires forall b :: b in paths ==> b in rows
    ensures |items| == |paths| && forall i :: 0 <= i < |paths| ==> items[i] == ItemOf(rows, paths[i])
  {
    seq(|paths|, i requires 0 <= i < |paths| => ItemOf(rows, paths[i]))
  }

  ghost predicate RowsPrintable(rows: map<Base, Row>, c: Config) {
    forall b :: b in rows ==> Printable(ItemOf(rows, b), c)
  }

  /** exportPaths: every path with its marker, or the first failure. */
  method ExportPaths(rows: map<Base, Row>, paths: seq<Base>, c: Config, sink: StringSink)
    returns (r: Result<(), ExportError>)
    requires RowsPrintable(rows, c)
    modifies sink
    ensures r.Success? <==> forall b :: b in paths ==> CanExport(rows, b, c)
    ensures r.Success? ==> AllPrintable(ItemsOf(rows, paths), c)
    ensures r.Success? ==> forall rest :: sink.s + rest == old(sink.s) + PrintAll(ItemsOf(rows, paths), c, rest)
  {
    hide CanExport, PrintOne, LittleEndian, Printable;
    ghost var before := sink.s;
    var i := 0;
    assert paths[..0] == [];
    while i < |paths|
      invariant 0 <= i <= |paths|
      invariant forall b :: b in paths[..i] ==> b in rows && CanExport(rows, b, c)
      invariant forall tail :: sink.s + tail == before + PrintMarked(ItemsOf(rows, paths[..i]), c, tail)
    {
      ghost var s0 := sink.s;
      sink.WriteNum(1);
      ghost var s1 := sink.s;
      r := ExportPath(rows, paths[i], c, sink);
      if r.Failure? {
        assert paths[i] in paths;
        return;
      }
      CanExportIsRow(rows, paths[i], c);
      assert paths[..i + 1] == paths[..i] + [paths[i]];
      ghost var x := ItemOf(rows, paths[i]);
      assert ItemsOf(rows, paths[..i + 1]) == ItemsOf(rows, paths[..i]) + [x];
      forall tail ensures sink.s + tail == before + PrintMarked(ItemsOf(rows, paths[..i + 1]), c, tail) {
        Associative(s0, LittleEndian(1, 8), PrintOne(x, c, tail));
        PrintMarkedMore(ItemsOf(rows, paths[..i]), x, c, tail);
      }
      i := i + 1;
    }
    assert paths[..i] == paths;
    ghost var s2 := sink.s;
    sink.WriteNum(0);
    forall rest ensures sink.s + rest == before + PrintAll(ItemsOf(rows, paths), c, rest) {
      Associative(s2, LittleEndian(0, 8), rest);
      PrintAllMarked(ItemsOf(rows, paths), c, rest);
    }
    r := Success(());
  }

  lemma CanExportIsRow(rows: map<Base, Row>, b: Base, c: Config)
    requires CanExport(rows, b, c)
    ensures b in rows
  {
  }

  /** The paths of a bundle, each behind its marker, without the end. */
  ghost function PrintMarked(items: seq<Item>, c: Config, tail: bytes): bytes
    requires AllPrintable(items, c)
  {
    if items == [] then tail else LittleEndian(1, 8) + PrintOne(items[0], c, PrintMarked(items[1..], c, tail))
  }

  lemma {:induction false} PrintMarkedMore(items: seq<Item>, x: Item, c: Config, tail: bytes)
    requires AllPrintable(items, c) && Printable(x, c)
    ensures AllPrintable(items + [x], c)
    ensures PrintMarked(items + [x], c, tail) == PrintMarked(items, c, LittleEndian(1, 8) + PrintOne(x, c, tail))
    decreases |items|
  {
    hide PrintOne, Printable, LittleEndian;
    if items == [] {
      assert items + [x] == [x] && [x][1..] == [];
    } else {
      assert (items + [x])[1..] == items[1..] + [x];
      PrintMarkedMore(items[1..], x, c, tail);
    }
  }

  lemma {:induction false} PrintAllMarked(items: seq<Item>, c: Config, rest: bytes)
    requires AllPrintable(items, c)
    ensures PrintAll(items, c, rest) == PrintMarked(items, c, LittleEndian(0, 8) + rest)
    decreases |items|
  {
    hide PrintOne, Printable, LittleEndian;
    if items != [] {
      PrintAllMarked(items[1..], c, rest);
    }
  }

  /** Every file's contents have a 64-bit length. */
  predicate Sized(n: Node<bytes>)
    decreases n, 1
  {
    match n
    case Regular(_, contents) => |contents| < TWO_64
    case Symlink(_) => true
    case Directory(entries) => EntriesSized(entries)
  }

  predicate EntriesSized(entries: seq<Entry<bytes>>)
    decreases entries, 0
  {
    entries == [] || (Sized(entries[0].node) && EntriesSized(entries[1..]))
  }

  lemma {:induction false} TreeIsSized(t: Tree)
    ensures Sized(t)
    decreases t, 1
  {
    if t.Directory? {
      EntriesAreSized(t.entries);
    }
  }

  lemma {:induction false} EntriesAreSized(entries: seq<Entry<blob>>)
    ensures EntriesSized(entries)
    decreases entries, 0
  {
    if entries != [] {
      TreeIsSized(entries[0].node);
      EntriesAreSized(entries[1..]);
    }
  }

  /** The same tree, known to fit the format. */
  function AsTree(n: Node<bytes>): (t: Tree)
    requires Sized(n)
    ensures t == n
    decreases n, 1
  {
    match n
    case Regular(executable, contents) => Regular(executable, contents)
    case Symlink(target) => Symlink(target)
    case Directory(entries) => Directory(AsEntries(entries))
  }

  function AsEntries(entries: seq<Entry<bytes>>): (r: seq<Entry<blob>>)
    requires EntriesSized(entries)
    ensures r == entries
    decreases entries, 0
  {
    if entries == [] then []
    else [Entry(entries[0].name, AsTree(entries[0].node))] + AsEntries(entries[1..])
  }

  /** importVerified over one store. */
  class Importer {
    const c: Config
    var store: Store

    constructor (store: Store, c: Config)
      ensures this.store == store && this.c == c
    {
      this.store, this.c := store, c;
    }

    method ReadRef(source: Source) returns (r: Result<Base, ImportError>)
      requires source.Valid()
      modifies source
      ensures source.Valid()
      ensures match ReadPath(old(source.Remaining()), c)
              case Success((b, rest)) => r == Success(b) && source.Remaining() == rest
              case Failure(e) => r == Failure(e)
    {
      hide ReadString, ParsePath;
      var text := source.ReadStr(MAX_STRING);
      if text.Failure? {
        return Failure(Stream(text.error));
      }
      var b := ParsePath(text.value, c.storeDir);
      return if b.Success? then Success(b.value) else Failure(BadStorePath(b.error));
    }

    method ReadStorePathSet(source: Source, n: nat) returns (r: Result<set<Base>, ImportError>)
      requires source.Valid()
      modifies source
      ensures source.Valid()
      ensures match ReadPaths(old(source.Remaining()), n, c)
              case Success((refs, rest)) => r == Success(refs) && source.Remaining() == rest
              case Failure(e) => r == Failure(e)
    {
      hide ReadPath;
      var refs: set<Base> := {};
      var left := n;
      ghost var s0 := source.Remaining();
      AddingNothing(ReadPaths(s0, n, c));
      while left > 0
        invariant source.Valid() && 0 <= left <= n
        invariant ReadPaths(s0, n, c) == Adding(refs, ReadPaths(source.Remaining(), left, c))
      {
        ghost var s := source.Remaining();
        var b := ReadRef(source);
        if b.Failure? {
          return Failure(b.error);
        }
        AddingOne(refs, b.value, ReadPaths(source.Remaining(), left - 1, c));
        refs := refs + {b.value};
        left := left - 1;
      }
      return Success(refs);
    }

    method ReadTail(source: Source) returns (r: Result<(Base, set<Base>), ImportError>)
      requires source.Valid()
      modifies source
      ensures source.Valid()
      ensures match ReadTrailer(old(source.Remaining()), c)
              case Success((b, refs, rest)) => r == Success((b, refs)) && source.Remaining() == rest
              case Failure(e) => r == Failure(e)
    {
      hide ReadU64, ReadPath, ReadPaths;
      var magic := source.ReadNum();
      if magic.Failure? {
        return Failure(Stream(magic.error));
      } else if magic.value >= 0x1_0000_0000 {
        return Failure(IntTooLarge);
      } else if magic.value != EXPORT_MAGIC {
        return Failure(BadMagic);
      }
      var b := ReadRef(source);
      if b.Failure? {
        return Failure(b.error);
      }
      var n := source.ReadNum();
      if n.Failure? {
        return Failure(Stream(n.error));
      }
      var refs := ReadStorePathSet(source, n.value);
      if refs.Failure? {
        return Failure(refs.error);
      }
      return Success((b.value, refs.value));
    }

    /** addToStore with the digest and size of `saved`. */
    method AddToStore(b: Base, saved: bytes) returns (r: Result<(), ImportError>)
      modifies this
      ensures match Add(old(store), b, saved)
              case Success(after) => r.Success? && store == after
              case Failure(e) => r == Failure(e) && store == old(store)
    {
      hide ParseDump;
      if b in store {
        return Success(());
      }
      var body := new Source(saved);
      assert body.Remaining() == saved;
      var t := MemoryTree.RestoreToMemory(body);
      if t.Failure? {
        return Failure(Stream(t.error.read));
      }
      if body.pos != |saved| {
        return Failure(HashMismatch);
      }
      TreeIsSized(ParseDump(saved, false).value.0);
      store := store[b := AsTree(t.value)];
      return Success(());
    }

    method ImportPath(source: Source) returns (r: Result<Base, ImportError>)
      requires source.Valid()
      modifies this, source
      ensures source.Valid()
      ensures match ImportOne(old(source.Remaining()), old(store), c)
              case Success((b, after, rest)) => r == Success(b) && store == after && source.Remaining() == rest
              case Failure(e) => r == Failure(e) && store == old(store)
    {
      hide ParseDump, ReadTrailer, Check, Add;
      ghost var s := source.Remaining();
      var start := source.pos;
      var ether := new FileSystemObjectSink(true, false);
      var parsed, _ := ParseArchive(ether, source);
      if parsed.Failure? {
        return Failure(Stream(parsed.error));
      }
      ArchiveIsPrefix(s, true);
      var saved := source.s[start..source.pos];
      assert saved == s[..|s| - |source.Remaining()|];
      var tail := ReadTail(source);
      if tail.Failure? {
        return Failure(tail.error);
      }
      var (b, refs) := tail.value;
      var bad := Check(saved, b, refs, c);
      if bad.Some? {
        return Failure(bad.value);
      }
      var added := AddToStore(b, saved);
      if added.Failure? {
        return Failure(added.error);
      }
      return Success(b);
    }

    method ImportVerified(source: Source) returns (r: Result<seq<Base>, ImportError>)
      requires source.Valid()
      modifies this, source
      ensures source.Valid()
      ensures var (after, spec) := ImportAll(old(source.Remaining()), old(store), [], c);
        store == after &&
        match spec
        case Success((seen, rest)) => r == Success(seen) && source.Remaining() == rest
        case Failure(e) => r == Failure(e)
    {
      hide ImportOne, ReadU64;
      var res: seq<Base> := [];
      while true
        invariant source.Valid()
        invariant ImportAll(source.Remaining(), store, res, c) == ImportAll(old(source.Remaining()), old(store), [], c)
        decreases |source.Remaining()|
      {
        var n := source.ReadNum();
        if n.Failure? {
          return Failure(Stream(n.error));
        } else if n.value == 0 {
          return Success(res);
        } else if n.value != 1 {
          return Failure(NotAnExport);
        }
        var b := ImportPath(source);
        if b.Failure? {
          return Failure(b.error);
        }
        res := res + [b.value];
      }
    }
  }

  ghost function Adding(refs: set<Base>, r: Result<(set<Base>, bytes), ImportError>): Result<(set<Base>, bytes), ImportError> {
    match r
    case Success((more, rest)) => Success((refs + more, rest))
    case Failure(e) => Failure(e)
  }

  lemma AddingNothing(r: Result<(set<Base>, bytes), ImportError>)
    ensures Adding({}, r) == r
  {
    if r.Success? {
      assert {} + r.value.0 == r.value.0;
    }
  }

  lemma AddingOne(refs: set<Base>, b: Base, r: Result<(set<Base>, bytes), ImportError>)
    ensures Adding(refs + {b}, r) == Adding(refs, Adding({b}, r))
  {
    if r.Success? {
      assert refs + {b} + r.value.0 == refs + ({b} + r.value.0);
    }
  }
}
