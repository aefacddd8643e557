/** The archive format: trees, the printer and the parser as functions on bytes,
    and the theorems that make each the exact inverse of the other. */
module Nar {
  import opened Results
  import opened Wire

  const NAR_MAX_DEPTH: nat := 64
  const NAR_MAX_TAG: nat := 32
  const NAR_MAX_NAME: nat := 255
  const NAR_MAX_TARGET: nat := 4095

  /** A file system object. `C` is how the contents of a regular file are
      represented: one byte string in a tree, or the chunks they arrived in. */
  datatype Node<+C> =
    | Regular(executable: bool, contents: C)
    | Directory(entries: seq<Entry<C>>)
    | Symlink(target: blob)

  datatype Entry<+C> = Entry(name: blob, node: Node<C>)

  type Tree = Node<blob>

  // -------------------------------------------------------------- keywords

  const MAGIC: blob := [110, 105, 120, 45, 97, 114, 99, 104, 105, 118, 101, 45, 49] // nix-archive-1
  const TAG_OPEN: blob := [40]                                                      // (
  const TAG_CLOSE: blob := [41]                                                     // )
  const TAG_TYPE: blob := [116, 121, 112, 101]                                      // type
  const TAG_REGULAR: blob := [114, 101, 103, 117, 108, 97, 114]                     // regular
  const TAG_DIRECTORY: blob := [100, 105, 114, 101, 99, 116, 111, 114, 121]         // directory
  const TAG_SYMLINK: blob := [115, 121, 109, 108, 105, 110, 107]                    // symlink
  const TAG_EXECUTABLE: blob := [101, 120, 101, 99, 117, 116, 97, 98, 108, 101]     // executable
  const TAG_CONTENTS: blob := [99, 111, 110, 116, 101, 110, 116, 115]               // contents
  const TAG_ENTRY: blob := [101, 110, 116, 114, 121]                                // entry
  const TAG_NAME: blob := [110, 97, 109, 101]                                       // name
  const TAG_NODE: blob := [110, 111, 100, 101]                                      // node
  const TAG_TARGET: blob := [116, 97, 114, 103, 101, 116]                           // target

  // ------------------------------------------------------------ well-formed

  /** Byte-wise lexicographic order, as std::string compares. */
  predicate Less(a: bytes, b: bytes) {
    b != [] && (a == [] || a[0] < b[0] || (a[0] == b[0] && Less(a[1..], b[1..])))
  }

  lemma {:induction false} LessIsStrictTotalOrder(a: bytes, b: bytes, c: bytes)
    ensures !Less(a, a)
    ensures Less(a, b) && Less(b, c) ==> Less(a, c)
    ensures Less(a, b) || a == b || Less(b, a)
    decreases |a| + |b| + |c|
  {
    if a != [] {
      LessIsStrictTotalOrder(a[1..], if b == [] then b else b[1..], if c == [] then c else c[1..]);
      if b != [] {
        assert a == [a[0]] + a[1..] && b == [b[0]] + b[1..];
      }
    }
  }

  /** `a` and `b` agree up to `k`, where `a` ends or has the smaller byte. */
  predicate SmallerAt(a: bytes, b: bytes, k: nat) {
    k < |b| && k <= |a| && a[..k] == b[..k] && (k == |a| || a[k] < b[k])
  }

  lemma SmallerStarts(a: bytes, b: bytes, k: nat)
    requires SmallerAt(a, b, k)
    ensures k > 0 ==> a != [] && b != [] && a[0] == b[0]
  {
    if k > 0 {
      assert a[..k][0] == a[0] && b[..k][0] == b[0];
    }
  }

  /** One string is less than another exactly if it has the smaller byte where they first
      differ, or ends there. */
  lemma {:induction false} LessIsFirstDifference(a: bytes, b: bytes)
    ensures Less(a, b) <==> exists k :: SmallerAt(a, b, k)
    decreases |a|
  {
    if b != [] && a != [] && a[0] == b[0] {
      LessIsFirstDifference(a[1..], b[1..]);
      if k: nat :| SmallerAt(a[1..], b[1..], k) {
        assert a[..k + 1] == [a[0]] + a[1..][..k] && b[..k + 1] == [b[0]] + b[1..][..k];
        assert SmallerAt(a, b, k + 1);
      }
      if k: nat :| SmallerAt(a, b, k) {
        assert k > 0;
        assert a[1..][..k - 1] == a[..k][1..] && b[1..][..k - 1] == b[..k][1..];
        assert SmallerAt(a[1..], b[1..], k - 1);
      }
    } else {
      if k: nat :| SmallerAt(a, b, k) {
        SmallerStarts(a, b, k);
      }
      if Less(a, b) {
        assert SmallerAt(a, b, 0);
      }
    }
  }

  const SLASH: byte := 47
  const NUL: byte := 0

  predicate ValidName(name: bytes) {
    name != [] && name != [46] && name != [46, 46] && SLASH !in name && NUL !in name
  }

  predicate ValidTarget(target: bytes) {
    target != [] && NUL !in target
  }

  /** The trees the format can carry below `depth` enclosing directories. */
  ghost predicate Valid<C>(t: Node<C>, depth: nat)
    decreases t, 1
  {
    depth < NAR_MAX_DEPTH &&
    match t
    case Regular(_, _) => true
    case Symlink(target) => ValidTarget(target) && |target| <= NAR_MAX_TARGET
    case Directory(entries) => ValidEntries(entries, depth, [])
  }

  /** Names valid and strictly increasing from above `prev`. */
  ghost predicate ValidEntries<C>(entries: seq<Entry<C>>, depth: nat, prev: bytes)
    decreases entries, 0
  {
    entries == [] ||
    (ValidName(entries[0].name) && |entries[0].name| <= NAR_MAX_NAME && Less(prev, entries[0].name) &&
     Valid(entries[0].node, depth + 1) && ValidEntries(entries[1..], depth, entries[0].name))
  }

  /** Entries one by one: each is valid, and their names are in order, so distinct. */
  lemma {:induction false} ValidEntriesPointwise<C>(entries: seq<Entry<C>>, depth: nat, prev: bytes)
    requires ValidEntries(entries, depth, prev)
    ensures forall i :: 0 <= i < |entries| ==> Valid(entries[i].node, depth + 1) && Less(prev, entries[i].name)
    ensures forall i, j :: 0 <= i < j < |entries| ==> Less(entries[i].name, entries[j].name)
  {
    hide Less, Valid;
    if entries != [] {
      var first, tail := entries[0].name, entries[1..];
      ValidEntriesPointwise(tail, depth, first);
      assert forall i :: 0 < i < |entries| ==> entries[i] == tail[i - 1];
      forall i | 0 < i < |entries| ensures Less(prev, entries[i].name) {
        LessIsStrictTotalOrder(prev, first, entries[i].name);
      }
    }
  }

  // ---------------------------------------------------------------- printer

  function Put(x: blob, rest: bytes): bytes {
    Encode(x) + rest
  }

  /** The printed form of `t` followed by `rest`. */
  function PrintNode(t: Tree, rest: bytes): bytes
    decreases t, 1
  {
    match t
    case Regular(executable, contents) =>
      Put(TAG_OPEN, Put(TAG_TYPE, Put(TAG_REGULAR,
        PrintExecutable(executable, Put(TAG_CONTENTS, Put(contents, Put(TAG_CLOSE, rest)))))))
    case Symlink(target) =>
      Put(TAG_OPEN, Put(TAG_TYPE, Put(TAG_SYMLINK, Put(TAG_TARGET, Put(target, Put(TAG_CLOSE, rest))))))
    case Directory(entries) =>
      Put(TAG_OPEN, Put(TAG_TYPE, Put(TAG_DIRECTORY, PrintEntries(entries, Put(TAG_CLOSE, rest)))))
  }

  function PrintExecutable(executable: bool, rest: bytes): bytes {
    if executable then Put(TAG_EXECUTABLE, Put([], rest)) else rest
  }

  function PrintEntries(entries: seq<Entry<blob>>, rest: bytes): bytes
    decreases entries, 0
  {
    if entries == [] then rest else PrintEntry(entries[0], PrintEntries(entries[1..], rest))
  }

  function PrintEntry(e: Entry<blob>, rest: bytes): bytes
    decreases e, 2
  {
    Put(TAG_ENTRY, Put(TAG_OPEN, Put(TAG_NAME, Put(e.name, Put(TAG_NODE, PrintNode(e.node, Put(TAG_CLOSE, rest)))))))
  }

  /** The archive of a tree. */
  function Dump(t: Tree): bytes {
    Put(MAGIC, PrintNode(t, []))
  }

  lemma PutAppend(x: blob, a: bytes, b: bytes)
    ensures Put(x, a) + b == Put(x, a + b)
  {
    assert Encode(x) + a + b == Encode(x) + (a + b);
  }

  /** What follows a printed node does not change how the node prints. */
  lemma {:induction false} PrintNodeAppend(t: Tree, a: bytes, b: bytes)
    ensures PrintNode(t, a) + b == PrintNode(t, a + b)
    decreases t, 1
  {
    forall x: blob, r: bytes ensures Put(x, r) + b == Put(x, r + b) {
      PutAppend(x, r, b);
    }
    if t.Directory? {
      PrintEntriesAppend(t.entries, Put(TAG_CLOSE, a), b);
    }
  }

  lemma {:induction false} PrintEntriesAppend(entries: seq<Entry<blob>>, a: bytes, b: bytes)
    ensures PrintEntries(entries, a) + b == PrintEntries(entries, a + b)
    decreases entries, 0
  {
    if entries != [] {
      forall x: blob, r: bytes ensures Put(x, r) + b == Put(x, r + b) {
        PutAppend(x, r, b);
      }
      var tail := PrintEntries(entries[1..], a);
      PrintEntriesAppend(entries[1..], a, b);
      PrintNodeAppend(entries[0].node, Put(TAG_CLOSE, tail), b);
    }
  }

  lemma DumpAppend(t: Tree, rest: bytes)
    ensures Dump(t) + rest == Put(MAGIC, PrintNode(t, rest))
  {
    PutAppend(MAGIC, PrintNode(t, []), rest);
    PrintNodeAppend(t, [], rest);
    assert [] + rest == rest;
  }

  // ----------------------------------------------------------------- parser

  function ExpectTag(s: bytes, expected: blob): (r: Result<bytes, ReadError>)
    ensures r.Success? ==> |r.value| + 8 <= |s|
  {
    match ReadString(s, NAR_MAX_TAG)
    case Success((tag, rest)) => if tag == expected then Success(rest) else Failure(BadArchive(BadTag))
    case Failure(e) => Failure(e)
  }

  /** The contents of a regular file: like a string, but of any 64-bit length. A sink
      that skips contents only advances over them and their padding, unread. */
  function ReadContents(s: bytes, skip: bool): (r: Read<blob>)
    ensures r.Success? ==> |r.value.1| + 8 <= |s|
  {
    if skip then
      var (size, s1) :- ReadU64(s);
      if size > TWO_64 - 8 then Failure(TooLarge) else
      var (_, rest) :- Take(s1, size + PadLen(size));
      Success(([], rest))
    else
      ReadString(s, TWO_64)
  }

  /** Up to the contents tag of a regular file; says whether it is executable. */
  function ParseRegularHead(s: bytes): (r: Read<bool>)
    ensures r.Success? ==> |r.value.1| < |s|
  {
    var (tag, s1) :- ReadString(s, NAR_MAX_TAG);
    if tag == TAG_EXECUTABLE then
      var (_, s2) :- ReadString(s1, 0);
      var s3 :- ExpectTag(s2, TAG_CONTENTS);
      Success((true, s3))
    else if tag == TAG_CONTENTS then
      Success((false, s1))
    else
      Failure(BadArchive(BadTag))
  }

  function ParseRegular(s: bytes, skip: bool): (r: Read<Tree>)
    ensures r.Success? ==> |r.value.1| < |s|
  {
    var (executable, s1) :- ParseRegularHead(s);
    var (contents, s2) :- ReadContents(s1, skip);
    var rest :- ExpectTag(s2, TAG_CLOSE);
    Success((Regular(executable, contents), rest))
  }

  function ParseSymlink(s: bytes): (r: Read<Tree>)
    ensures r.Success? ==> |r.value.1| < |s|
  {
    var s1 :- ExpectTag(s, TAG_TARGET);
    var (target, s2) :- ReadString(s1, NAR_MAX_TARGET);
    if !ValidTarget(target) then Failure(BadArchive(BadTarget)) else
    var rest :- ExpectTag(s2, TAG_CLOSE);
    Success((Symlink(target), rest))
  }

  /** The `( name <name> node` that opens a directory entry, after its tag. */
  function ParseEntryHead(s: bytes, prev: bytes): (r: Read<blob>)
    ensures r.Success? ==> |r.value.1| < |s|
  {
    var s1 :- ExpectTag(s, TAG_OPEN);
    var s2 :- ExpectTag(s1, TAG_NAME);
    var (name, s3) :- ReadString(s2, NAR_MAX_NAME);
    if !ValidName(name) then Failure(BadArchive(BadFileName)) else
    if !Less(prev, name) then Failure(BadArchive(NotSorted)) else
    var rest :- ExpectTag(s3, TAG_NODE);
    Success((name, rest))
  }

  /** The `( type <type>` that opens every node. */
  function ParseNodeHead(s: bytes, depth: nat): (r: Read<blob>)
    ensures r.Success? ==> |r.value.1| < |s|
  {
    if depth >= NAR_MAX_DEPTH then Failure(BadArchive(TooDeep)) else
    var s1 :- ExpectTag(s, TAG_OPEN);
    var s2 :- ExpectTag(s1, TAG_TYPE);
    ReadString(s2, NAR_MAX_TAG)
  }

  function ParseNode(s: bytes, depth: nat, skip: bool): (r: Read<Tree>)
    ensures r.Success? ==> |r.value.1| < |s|
    decreases |s|, 1
  {
    var (kind, s1) :- ParseNodeHead(s, depth);
    if kind == TAG_REGULAR then ParseRegular(s1, skip)
    else if kind == TAG_DIRECTORY then
      var (entries, rest) :- ParseEntries(s1, depth, [], skip);
      Success((Directory(entries), rest))
    else if kind == TAG_SYMLINK then ParseSymlink(s1)
    else Failure(BadArchive(UnknownType))
  }

  function ParseEntries(s: bytes, depth: nat, prev: bytes, skip: bool): (r: Read<seq<Entry<blob>>>)
    ensures r.Success? ==> |r.value.1| < |s|
    decreases |s|, 0
  {
    var (tag, s1) :- ReadString(s, NAR_MAX_TAG);
    if tag == TAG_CLOSE then Success(([], s1))
    else if tag != TAG_ENTRY then Failure(BadArchive(BadTag)) else
    var (name, s2) :- ParseEntryHead(s1, prev);
    var (node, s3) :- ParseNode(s2, depth + 1, skip);
    var s4 :- ExpectTag(s3, TAG_CLOSE);
    var (entries, rest) :- ParseEntries(s4, depth, name, skip);
    Success(([Entry(name, node)] + entries, rest))
  }

  /** A serialisation fault in the version string only means "not an archive". */
  function ParseMagic(s: bytes): Result<bytes, ReadError> {
    match ReadString(s, |MAGIC|)
    case Success((version, rest)) =>
      if version == MAGIC then Success(rest) else Failure(BadArchive(NotAnArchive))
    case Failure(EndOfFile) => Failure(EndOfFile)
    case Failure(_) => Failure(BadArchive(NotAnArchive))
  }

  function ParseDump(s: bytes, skip: bool): Read<Tree> {
    var s1 :- ParseMagic(s);
    ParseNode(s1, 0, skip)
  }

  // --------------------------------------------------- parsing what was printed

  lemma ReadPut(x: blob, rest: bytes, max: nat)
    requires |x| <= max
    ensures ReadString(Put(x, rest), max) == Success((x, rest))
  {
    ReadStringInverse(x, rest, max);
  }

  lemma ExpectPut(tag: blob, rest: bytes)
    requires |tag| <= NAR_MAX_TAG
    ensures ExpectTag(Put(tag, rest), tag) == Success(rest)
  {
    ReadPut(tag, rest, NAR_MAX_TAG);
  }

  lemma ParsePrintedHead(kind: blob, rest: bytes, depth: nat)
    requires |kind| <= NAR_MAX_TAG && depth < NAR_MAX_DEPTH
    ensures ParseNodeHead(Put(TAG_OPEN, Put(TAG_TYPE, Put(kind, rest))), depth) == Success((kind, rest))
  {
    ExpectPut(TAG_OPEN, Put(TAG_TYPE, Put(kind, rest)));
    ExpectPut(TAG_TYPE, Put(kind, rest));
    ReadPut(kind, rest, NAR_MAX_TAG);
  }

  lemma ParsePrintedRegularHead(executable: bool, s3: bytes)
    ensures ParseRegularHead(PrintExecutable(executable, Put(TAG_CONTENTS, s3))) == Success((executable, s3))
  {
    hide Put;
    ExpectPut(TAG_CONTENTS, s3);
    ReadPut(TAG_CONTENTS, s3, NAR_MAX_TAG);
    ReadPut([], Put(TAG_CONTENTS, s3), 0);
    ReadPut(TAG_EXECUTABLE, Put([], Put(TAG_CONTENTS, s3)), NAR_MAX_TAG);
    assert TAG_CONTENTS[0] != TAG_EXECUTABLE[0];
  }

  lemma ParsePrintedRegular(executable: bool, contents: blob, rest: bytes)
    ensures ParseRegular(PrintExecutable(executable, Put(TAG_CONTENTS, Put(contents, Put(TAG_CLOSE, rest)))), false)
         == Success((Regular(executable, contents), rest))
  {
    hide Put, PrintExecutable, ParseRegularHead;
    ParsePrintedRegularHead(executable, Put(contents, Put(TAG_CLOSE, rest)));
    ReadPut(contents, Put(TAG_CLOSE, rest), TWO_64);
    ExpectPut(TAG_CLOSE, rest);
  }

  lemma ParsePrintedSymlink(target: blob, rest: bytes)
    requires ValidTarget(target) && |target| <= NAR_MAX_TARGET
    ensures ParseSymlink(Put(TAG_TARGET, Put(target, Put(TAG_CLOSE, rest)))) == Success((Symlink(target), rest))
  {
    ExpectPut(TAG_TARGET, Put(target, Put(TAG_CLOSE, rest)));
    ReadPut(target, Put(TAG_CLOSE, rest), NAR_MAX_TARGET);
    ExpectPut(TAG_CLOSE, rest);
  }

  lemma ParsePrintedEntryHead(name: blob, prev: bytes, rest: bytes)
    requires ValidName(name) && |name| <= NAR_MAX_NAME && Less(prev, name)
    ensures ParseEntryHead(Put(TAG_OPEN, Put(TAG_NAME, Put(name, Put(TAG_NODE, rest)))), prev) == Success((name, rest))
  {
    ExpectPut(TAG_OPEN, Put(TAG_NAME, Put(name, Put(TAG_NODE, rest))));
    ExpectPut(TAG_NAME, Put(name, Put(TAG_NODE, rest)));
    ReadPut(name, Put(TAG_NODE, rest), NAR_MAX_NAME);
    ExpectPut(TAG_NODE, rest);
  }

  lemma {:induction false} ParsePrintedNode(t: Tree, rest: bytes, depth: nat)
    requires Valid(t, depth)
    ensures ParseNode(PrintNode(t, rest), depth, false) == Success((t, rest))
    decreases t, 1
  {
    match t
    case Regular(executable, contents) =>
      var body := PrintExecutable(executable, Put(TAG_CONTENTS, Put(contents, Put(TAG_CLOSE, rest))));
      ParsePrintedHead(TAG_REGULAR, body, depth);
      ParsePrintedRegular(executable, contents, rest);
    case Symlink(target) =>
      ParsePrintedHead(TAG_SYMLINK, Put(TAG_TARGET, Put(target, Put(TAG_CLOSE, rest))), depth);
      ParsePrintedSymlink(target, rest);
    case Directory(entries) =>
      ParsePrintedHead(TAG_DIRECTORY, PrintEntries(entries, Put(TAG_CLOSE, rest)), depth);
      ParsePrintedEntries(entries, rest, depth, []);
  }

  function PrependEntry(e: Entry<blob>, tail: Read<seq<Entry<blob>>>): Read<seq<Entry<blob>>> {
    var (entries, rest) :- tail;
    Success(([e] + entries, rest))
  }

  /** One turn of the entry loop. */
  lemma ParseEntriesStep(s: bytes, s1: bytes, name: blob, s2: bytes, node: Tree, s3: bytes, s4: bytes,
                         depth: nat, prev: bytes, skip: bool)
    requires ReadString(s, NAR_MAX_TAG) == Success((TAG_ENTRY, s1))
    requires ParseEntryHead(s1, prev) == Success((name, s2))
    requires ParseNode(s2, depth + 1, skip) == Success((node, s3))
    requires ExpectTag(s3, TAG_CLOSE) == Success(s4)
    ensures ParseEntries(s, depth, prev, skip) == PrependEntry(Entry(name, node), ParseEntries(s4, depth, name, skip))
  {
    assert TAG_ENTRY[0] != TAG_CLOSE[0];
  }

  lemma ParsePrintedEntry(e: Entry<blob>, rest: bytes, depth: nat, prev: bytes)
    requires ValidName(e.name) && |e.name| <= NAR_MAX_NAME && Less(prev, e.name)
    requires ParseNode(PrintNode(e.node, Put(TAG_CLOSE, rest)), depth + 1, false) == Success((e.node, Put(TAG_CLOSE, rest)))
    ensures ParseEntries(PrintEntry(e, rest), depth, prev, false) == PrependEntry(e, ParseEntries(rest, depth, e.name, false))
  {
    var s2 := PrintNode(e.node, Put(TAG_CLOSE, rest));
    var s1 := Put(TAG_OPEN, Put(TAG_NAME, Put(e.name, Put(TAG_NODE, s2))));
    ReadPut(TAG_ENTRY, s1, NAR_MAX_TAG);
    ParsePrintedEntryHead(e.name, prev, s2);
    ExpectPut(TAG_CLOSE, rest);
    ParseEntriesStep(PrintEntry(e, rest), s1, e.name, s2, e.node, Put(TAG_CLOSE, rest), rest, depth, prev, false);
  }

  lemma ValidFirst(entries: seq<Entry<blob>>, depth: nat, prev: bytes)
    requires ValidEntries(entries, depth, prev) && entries != []
    ensures ValidName(entries[0].name) && |entries[0].name| <= NAR_MAX_NAME && Less(prev, entries[0].name)
    ensures Valid(entries[0].node, depth + 1) && ValidEntries(entries[1..], depth, entries[0].name)
  {
  }

  lemma ParseNoEntries(rest: bytes, depth: nat, prev: bytes)
    ensures ParseEntries(PrintEntries([], Put(TAG_CLOSE, rest)), depth, prev, false) == Success(([], rest))
  {
    ReadPut(TAG_CLOSE, rest, NAR_MAX_TAG);
  }

  lemma PrintFirst(entries: seq<Entry<blob>>, rest: bytes)
    requires entries != []
    ensures PrintEntries(entries, rest) == PrintEntry(entries[0], PrintEntries(entries[1..], rest))
  {
  }

  lemma PrependFirst(entries: seq<Entry<blob>>, rest: bytes)
    requires entries != []
    ensures PrependEntry(entries[0], Success((entries[1..], rest))) == Success((entries, rest))
  {
    assert [entries[0]] + entries[1..] == entries;
  }

  lemma {:induction false} ParsePrintedEntries(entries: seq<Entry<blob>>, rest: bytes, depth: nat, prev: bytes)
    requires ValidEntries(entries, depth, prev)
    ensures ParseEntries(PrintEntries(entries, Put(TAG_CLOSE, rest)), depth, prev, false) == Success((entries, rest))
    decreases entries, 0
  {
    hide ParseEntries, ParseNode, Put, PrintEntry, PrintEntries, PrintNode, ValidEntries, Valid, ValidName, Less, PrependEntry;
    if entries == [] {
      ParseNoEntries(rest, depth, prev);
    } else {
      var after := PrintEntries(entries[1..], Put(TAG_CLOSE, rest));
      ValidFirst(entries, depth, prev);
      PrintFirst(entries, Put(TAG_CLOSE, rest));
      ParsePrintedNode(entries[0].node, Put(TAG_CLOSE, after), depth + 1);
      ParsePrintedEntry(entries[0], after, depth, prev);
      ParsePrintedEntries(entries[1..], rest, depth, entries[0].name);
      PrependFirst(entries, rest);
    }
  }

  /** Round trip: the parser rebuilds a dumped tree and stops exactly at its end,
      whatever bytes follow. */
  lemma RoundTrip(t: Tree, rest: bytes)
    requires Valid(t, 0)
    ensures ParseDump(Dump(t) + rest, false) == Success((t, rest))
  {
    DumpAppend(t, rest);
    ReadPut(MAGIC, PrintNode(t, rest), |MAGIC|);
    ParsePrintedNode(t, rest, 0);
  }

  // ------------------------------------------------- printing what was parsed

  lemma ReadIsPut(s: bytes, max: nat)
    requires ReadString(s, max).Success?
    ensures s == Put(ReadString(s, max).value.0, ReadString(s, max).value.1)
  {
    ReadStringCanonical(s, max);
  }

  lemma ExpectIsPut(s: bytes, tag: blob)
    requires ExpectTag(s, tag).Success?
    ensures s == Put(tag, ExpectTag(s, tag).value)
  {
    ReadIsPut(s, NAR_MAX_TAG);
  }

  lemma ParsedHeadIsPrinted(s: bytes, depth: nat)
    requires ParseNodeHead(s, depth).Success?
    ensures var (kind, rest) := ParseNodeHead(s, depth).value;
            depth < NAR_MAX_DEPTH && s == Put(TAG_OPEN, Put(TAG_TYPE, Put(kind, rest)))
  {
    ExpectIsPut(s, TAG_OPEN);
    var s1 := ExpectTag(s, TAG_OPEN).value;
    ExpectIsPut(s1, TAG_TYPE);
    ReadIsPut(ExpectTag(s1, TAG_TYPE).value, NAR_MAX_TAG);
  }

  lemma ParsedRegularIsPrinted(s: bytes)
    requires ParseRegular(s, false).Success?
    ensures var (t, rest) := ParseRegular(s, false).value;
            t.Regular? &&
            s == PrintExecutable(t.executable, Put(TAG_CONTENTS, Put(t.contents, Put(TAG_CLOSE, rest))))
  {
    ReadIsPut(s, NAR_MAX_TAG);
    var (tag, s1) := ReadString(s, NAR_MAX_TAG).value;
    if tag == TAG_EXECUTABLE {
      ReadIsPut(s1, 0);
      ExpectIsPut(ReadString(s1, 0).value.1, TAG_CONTENTS);
    }
    var s3 := ParseRegularHead(s).value.1;
    ReadIsPut(s3, TWO_64);
    ExpectIsPut(ReadString(s3, TWO_64).value.1, TAG_CLOSE);
  }

  lemma ParsedSymlinkIsPrinted(s: bytes)
    requires ParseSymlink(s).Success?
    ensures var (t, rest) := ParseSymlink(s).value;
            t.Symlink? && ValidTarget(t.target) && |t.target| <= NAR_MAX_TARGET &&
            s == Put(TAG_TARGET, Put(t.target, Put(TAG_CLOSE, rest)))
  {
    ExpectIsPut(s, TAG_TARGET);
    var s1 := ExpectTag(s, TAG_TARGET).value;
    ReadIsPut(s1, NAR_MAX_TARGET);
    ExpectIsPut(ReadString(s1, NAR_MAX_TARGET).value.1, TAG_CLOSE);
  }

  lemma ParsedEntryHeadIsPrinted(s: bytes, prev: bytes)
    requires ParseEntryHead(s, prev).Success?
    ensures var (name, rest) := ParseEntryHead(s, prev).value;
            ValidName(name) && |name| <= NAR_MAX_NAME && Less(prev, name) &&
            s == Put(TAG_OPEN, Put(TAG_NAME, Put(name, Put(TAG_NODE, rest))))
  {
    ExpectIsPut(s, TAG_OPEN);
    var s1 := ExpectTag(s, TAG_OPEN).value;
    ExpectIsPut(s1, TAG_NAME);
    var s2 := ExpectTag(s1, TAG_NAME).value;
    ReadIsPut(s2, NAR_MAX_NAME);
    ExpectIsPut(ReadString(s2, NAR_MAX_NAME).value.1, TAG_NODE);
  }

  lemma {:induction false} ParsedNodeIsPrinted(s: bytes, depth: nat)
    requires ParseNode(s, depth, false).Success?
    ensures var (t, rest) := ParseNode(s, depth, false).value;
            Valid(t, depth) && s == PrintNode(t, rest)
    decreases |s|, 1
  {
    ParsedHeadIsPrinted(s, depth);
    var (kind, s1) := ParseNodeHead(s, depth).value;
    if kind == TAG_REGULAR {
      ParsedRegularIsPrinted(s1);
    } else if kind == TAG_DIRECTORY {
      ParsedEntriesArePrinted(s1, depth, []);
    } else {
      ParsedSymlinkIsPrinted(s1);
    }
  }

  lemma {:induction false} ParsedEntriesArePrinted(s: bytes, depth: nat, prev: bytes)
    requires ParseEntries(s, depth, prev, false).Success?
    ensures var (entries, rest) := ParseEntries(s, depth, prev, false).value;
            ValidEntries(entries, depth, prev) && s == PrintEntries(entries, Put(TAG_CLOSE, rest))
    decreases |s|, 0
  {
    ReadIsPut(s, NAR_MAX_TAG);
    var (tag, s1) := ReadString(s, NAR_MAX_TAG).value;
    if tag != TAG_CLOSE {
      ParsedEntryHeadIsPrinted(s1, prev);
      var (name, s2) := ParseEntryHead(s1, prev).value;
      ParsedNodeIsPrinted(s2, depth + 1);
      var (node, s3) := ParseNode(s2, depth + 1, false).value;
      ExpectIsPut(s3, TAG_CLOSE);
      var s4 := ExpectTag(s3, TAG_CLOSE).value;
      ParsedEntriesArePrinted(s4, depth, name);
      var (tail, rest) := ParseEntries(s4, depth, name, false).value;
      var entries := [Entry(name, node)] + tail;
      assert entries[1..] == tail;
    }
  }

  /** Canonicity: whatever the parser accepts is, on the bytes it consumed, the
      dump of the tree it returned, and that tree is one the format can carry. */
  lemma Canonicity(s: bytes)
    requires ParseDump(s, false).Success?
    ensures var (t, rest) := ParseDump(s, false).value;
            Valid(t, 0) && s == Dump(t) + rest
  {
    var (t, rest) := ParseDump(s, false).value;
    ReadIsPut(s, |MAGIC|);
    ParsedNodeIsPrinted(ParseMagic(s).value, 0);
    DumpAppend(t, rest);
  }

  /** The language accepted is exactly the set of dumps of valid trees, and the
      reading of a stream is unique: the encoding is injective and prefix-free. */
  lemma AcceptsExactlyDumps(s: bytes, t: Tree, rest: bytes)
    ensures ParseDump(s, false) == Success((t, rest)) <==> Valid(t, 0) && s == Dump(t) + rest
  {
    if ParseDump(s, false) == Success((t, rest)) {
      Canonicity(s);
    }
    if Valid(t, 0) {
      RoundTrip(t, rest);
    }
  }

  lemma DumpIsPrefixFree(t1: Tree, t2: Tree, a: bytes, b: bytes)
    requires Valid(t1, 0) && Valid(t2, 0)
    requires Dump(t1) + a == Dump(t2) + b
    ensures t1 == t2 && a == b
  {
    RoundTrip(t1, a);
    RoundTrip(t2, b);
  }

  // ---------------------------------------------------- skipping the contents

  /** A tree without its file contents: all a skipping sink gets to see. */
  function Hollow(t: Tree): Tree
    decreases t, 1
  {
    match t
    case Regular(executable, _) => Regular(executable, [])
    case Symlink(_) => t
    case Directory(entries) => Directory(HollowEntries(entries))
  }

  function HollowEntries(entries: seq<Entry<blob>>): seq<Entry<blob>>
    decreases entries, 0
  {
    if entries == [] then []
    else [Entry(entries[0].name, Hollow(entries[0].node))] + HollowEntries(entries[1..])
  }

  /** Every file can be rounded up to its padding without leaving 64 bits. */
  predicate Skippable(t: Tree)
    decreases t, 1
  {
    match t
    case Regular(_, contents) => |contents| <= TWO_64 - 8
    case Symlink(_) => true
    case Directory(entries) => SkippableEntries(entries)
  }

  predicate SkippableEntries(entries: seq<Entry<blob>>)
    decreases entries, 0
  {
    entries == [] || (Skippable(entries[0].node) && SkippableEntries(entries[1..]))
  }

  lemma SkipContentsAgrees(s: bytes)
    requires ReadContents(s, false).Success?
    ensures var (contents, rest) := ReadContents(s, false).value;
            ReadContents(s, true) == if |contents| <= TWO_64 - 8 then Success(([], rest)) else Failure(TooLarge)
  {
    var (size, s1) := ReadU64(s).value;
    assert size + PadLen(size) <= |s1|;
    assert s1[size..][PadLen(size)..] == s1[size + PadLen(size)..];
  }

  function HollowRead(t: Tree, rest: bytes): Read<Tree> {
    if Skippable(t) then Success((Hollow(t), rest)) else Failure(TooLarge)
  }

  lemma {:induction false} SkipAgreesOnNode(s: bytes, depth: nat)
    requires ParseNode(s, depth, false).Success?
    ensures var (t, rest) := ParseNode(s, depth, false).value;
            ParseNode(s, depth, true) == HollowRead(t, rest)
    decreases |s|, 1
  {
    var (kind, s1) := ParseNodeHead(s, depth).value;
    if kind == TAG_REGULAR {
      SkipContentsAgrees(ParseRegularHead(s1).value.1);
    } else if kind == TAG_DIRECTORY {
      SkipAgreesOnEntries(s1, depth, []);
    }
  }

  lemma {:induction false} SkipAgreesOnEntries(s: bytes, depth: nat, prev: bytes)
    requires ParseEntries(s, depth, prev, false).Success?
    ensures var (entries, rest) := ParseEntries(s, depth, prev, false).value;
            ParseEntries(s, depth, prev, true) ==
            if SkippableEntries(entries) then Success((HollowEntries(entries), rest)) else Failure(TooLarge)
    decreases |s|, 0
  {
    var (tag, s1) := ReadString(s, NAR_MAX_TAG).value;
    if tag != TAG_CLOSE {
      var (name, s2) := ParseEntryHead(s1, prev).value;
      var (node, s3) := ParseNode(s2, depth + 1, false).value;
      var s4 := ExpectTag(s3, TAG_CLOSE).value;
      SkipAgreesOnNode(s2, depth + 1);
      SkipAgreesOnEntries(s4, depth, name);
      ParseEntriesStep(s, s1, name, s2, node, s3, s4, depth, prev, false);
      if Skippable(node) {
        ParseEntriesStep(s, s1, name, s2, Hollow(node), s3, s4, depth, prev, true);
      }
    }
  }

  /** A stream the content-reading parse accepts is accepted by the skipping one
      exactly when every file size can be rounded up, and then it consumes the
      same bytes and sees the same tree without contents. */
  lemma SkipAgrees(s: bytes)
    requires ParseDump(s, false).Success?
    ensures var (t, rest) := ParseDump(s, false).value;
            (ParseDump(s, true).Success? <==> Skippable(t)) &&
            (Skippable(t) ==> ParseDump(s, true) == Success((Hollow(t), rest)))
  {
    SkipAgreesOnNode(ParseMagic(s).value, 0);
  }

  lemma PaddedSlices(head: bytes, contents: bytes, pad: bytes, rest: bytes)
    ensures var (s, n, m) := (head + (contents + (pad + rest)), |head| + |contents|, |head| + |contents| + |pad|);
      s[..|head|] == head && s[|head|..n] == contents && s[n..m] == pad && s[m..] == rest &&
      (contents + (pad + rest))[|contents| + |pad|..] == rest
  {
  }

  lemma SkipPaddedContents(contents: blob, pad: bytes, rest: bytes)
    requires |pad| == PadLen(|contents|) && |contents| <= TWO_64 - 8
    ensures ReadContents(LittleEndian(|contents|, 8) + (contents + (pad + rest)), true) == Success(([], rest))
  {
    hide LittleEndian, FromLittleEndian, ReadU64;
    ReadU64Inverse(|contents|, contents + (pad + rest));
    PaddedSlices(LittleEndian(|contents|, 8), contents, pad, rest);
  }

  lemma PaddedParts(head: bytes, contents: bytes, pad: bytes, rest: bytes, n: nat, m: nat)
    requires |head| == 8 && |contents| == n && |pad| == m
    ensures var s := head + (contents + (pad + rest));
      |s| >= 8 + n + m && s[..8] == head && s[8..8 + n] == contents && s[8 + n..8 + n + m] == pad && s[8 + n + m..] == rest
  {
    PaddedSlices(head, contents, pad, rest);
  }

  lemma ReadPadded(contents: blob, pad: bytes, rest: bytes)
    requires |pad| == PadLen(|contents|) && |contents| <= TWO_64 - 8
    ensures ReadContents(LittleEndian(|contents|, 8) + (contents + (pad + rest)), false) ==
      if pad == Zeros(|pad|) then Success((contents, rest)) else Failure(NonZeroPadding)
  {
    hide LittleEndian, FromLittleEndian, Zeros, PadLen, ReadContents;
    SizeReadsBack(|contents|);
    PaddedParts(LittleEndian(|contents|, 8), contents, pad, rest, |contents|, PadLen(|contents|));
    ReadSlices(LittleEndian(|contents|, 8) + (contents + (pad + rest)), |contents|);
  }

  lemma ReadPaddedContents(contents: blob, pad: bytes, rest: bytes)
    requires |pad| == PadLen(|contents|) && |contents| <= TWO_64 - 8
    ensures var s := LittleEndian(|contents|, 8) + (contents + (pad + rest));
            ReadContents(s, true) == Success(([], rest)) &&
            ReadContents(s, false) ==
              if pad == Zeros(|pad|) then Success((contents, rest)) else Failure(NonZeroPadding)
  {
    hide LittleEndian, Zeros, ReadContents;
    SkipPaddedContents(contents, pad, rest);
    ReadPadded(contents, pad, rest);
  }

  lemma ReadSlices(s: bytes, n: u64)
    requires |s| >= 8 + n + PadLen(n) && FromLittleEndian(s[..8]) == n
    ensures ReadContents(s, false) ==
      if s[8 + n..8 + n + PadLen(n)] == Zeros(PadLen(n)) then Success((s[8..8 + n], s[8 + n + PadLen(n)..]))
      else Failure(NonZeroPadding)
  {
    hide FromLittleEndian, Zeros;
  }

  lemma SizeReadsBack(n: u64)
    ensures FromLittleEndian(LittleEndian(n, 8)) == n
  {
    EightBytesHoldU64();
    LittleEndianRoundTrip(n, 8);
  }

  /** The archive of one plain file, with `pad` where its padding belongs. */
  function DumpPaddedWith(contents: blob, pad: bytes, rest: bytes): bytes {
    Put(MAGIC, Put(TAG_OPEN, Put(TAG_TYPE, Put(TAG_REGULAR, Put(TAG_CONTENTS,
      LittleEndian(|contents|, 8) + (contents + (pad + Put(TAG_CLOSE, rest))))))))
  }

  /** The converse fails: a skipping sink never looks at content padding. The archive
      of one file, padded with arbitrary bytes, is always skipped over, and it is
      read exactly when those bytes are zero. */
  lemma SkipToleratesContentPadding(contents: blob, pad: bytes, rest: bytes)
    requires |pad| == PadLen(|contents|) && |contents| <= TWO_64 - 8
    ensures ParseDump(DumpPaddedWith(contents, pad, rest), true) == Success((Regular(false, []), rest))
    ensures ParseDump(DumpPaddedWith(contents, pad, rest), false).Success? <==> pad == Zeros(|pad|)
  {
    var s2 := LittleEndian(|contents|, 8) + (contents + (pad + Put(TAG_CLOSE, rest)));
    var s1 := Put(TAG_CONTENTS, s2);
    var s0 := Put(TAG_OPEN, Put(TAG_TYPE, Put(TAG_REGULAR, s1)));
    ReadPut(MAGIC, s0, |MAGIC|);
    ParsePrintedHead(TAG_REGULAR, s1, 0);
    ParseRegularPadded(contents, pad, rest);
  }

  lemma ParseRegularPadded(contents: blob, pad: bytes, rest: bytes)
    requires |pad| == PadLen(|contents|) && |contents| <= TWO_64 - 8
    ensures var s := Put(TAG_CONTENTS, LittleEndian(|contents|, 8) + (contents + (pad + Put(TAG_CLOSE, rest))));
            ParseRegular(s, true) == Success((Regular(false, []), rest)) &&
            (ParseRegular(s, false).Success? <==> pad == Zeros(|pad|))
  {
    var s2 := LittleEndian(|contents|, 8) + (contents + (pad + Put(TAG_CLOSE, rest)));
    ParsePrintedRegularHead(false, s2);
    hide Put, ParseRegularHead, ReadContents, LittleEndian, Zeros;
    ReadPaddedContents(contents, pad, Put(TAG_CLOSE, rest));
    ExpectPut(TAG_CLOSE, rest);
  }

  // ------------------------------------------------------- what is left unread

  predicate EndOf(rest: bytes, s: bytes) {
    |rest| <= |s| && s[|s| - |rest|..] == rest
  }

  lemma EndOfEnd(a: bytes, b: bytes, c: bytes)
    requires EndOf(b, a) && EndOf(c, b)
    ensures EndOf(c, a)
  {
    assert a[|a| - |b|..][|b| - |c|..] == a[|a| - |c|..];
  }

  lemma StringLeaves(s: bytes, max: nat)
    requires ReadString(s, max).Success?
    ensures EndOf(ReadString(s, max).value.1, s)
  {
    ReadStringCanonical(s, max);
  }

  lemma TagLeaves(s: bytes, tag: blob)
    requires ExpectTag(s, tag).Success?
    ensures EndOf(ExpectTag(s, tag).value, s)
  {
    StringLeaves(s, NAR_MAX_TAG);
  }

  lemma ContentsLeave(s: bytes, skip: bool)
    requires ReadContents(s, skip).Success?
    ensures EndOf(ReadContents(s, skip).value.1, s)
  {
    if !skip {
      StringLeaves(s, TWO_64);
    }
  }

  lemma RegularLeaves(s: bytes, skip: bool)
    requires ParseRegular(s, skip).Success?
    ensures EndOf(ParseRegular(s, skip).value.1, s)
  {
    hide ReadString, ReadContents, ExpectTag, EndOf;
    StringLeaves(s, NAR_MAX_TAG);
    var (tag, s1) := ReadString(s, NAR_MAX_TAG).value;
    var s3 := ParseRegularHead(s).value.1;
    if tag == TAG_EXECUTABLE {
      StringLeaves(s1, 0);
      var s2 := ReadString(s1, 0).value.1;
      TagLeaves(s2, TAG_CONTENTS);
      EndOfEnd(s, s1, s2);
      EndOfEnd(s, s2, s3);
    }
    ContentsLeave(s3, skip);
    var s4 := ReadContents(s3, skip).value.1;
    TagLeaves(s4, TAG_CLOSE);
    EndOfEnd(s, s3, s4);
    EndOfEnd(s, s4, ExpectTag(s4, TAG_CLOSE).value);
  }

  lemma SymlinkLeaves(s: bytes)
    requires ParseSymlink(s).Success?
    ensures EndOf(ParseSymlink(s).value.1, s)
  {
    hide ReadString, ExpectTag, EndOf, ValidTarget;
    TagLeaves(s, TAG_TARGET);
    var s1 := ExpectTag(s, TAG_TARGET).value;
    StringLeaves(s1, NAR_MAX_TARGET);
    var s2 := ReadString(s1, NAR_MAX_TARGET).value.1;
    TagLeaves(s2, TAG_CLOSE);
    EndOfEnd(s, s1, s2);
    EndOfEnd(s, s2, ExpectTag(s2, TAG_CLOSE).value);
  }

  lemma EntryHeadLeaves(s: bytes, prev: bytes)
    requires ParseEntryHead(s, prev).Success?
    ensures EndOf(ParseEntryHead(s, prev).value.1, s)
  {
    hide ReadString, ExpectTag, EndOf, ValidName, Less;
    TagLeaves(s, TAG_OPEN);
    var s1 := ExpectTag(s, TAG_OPEN).value;
    TagLeaves(s1, TAG_NAME);
    var s2 := ExpectTag(s1, TAG_NAME).value;
    StringLeaves(s2, NAR_MAX_NAME);
    var s3 := ReadString(s2, NAR_MAX_NAME).value.1;
    TagLeaves(s3, TAG_NODE);
    EndOfEnd(s, s1, s2);
    EndOfEnd(s, s2, s3);
    EndOfEnd(s, s3, ExpectTag(s3, TAG_NODE).value);
  }

  lemma HeadLeaves(s: bytes, depth: nat)
    requires ParseNodeHead(s, depth).Success?
    ensures EndOf(ParseNodeHead(s, depth).value.1, s)
  {
    hide ReadString, ExpectTag, EndOf;
    TagLeaves(s, TAG_OPEN);
    var s1 := ExpectTag(s, TAG_OPEN).value;
    TagLeaves(s1, TAG_TYPE);
    var s2 := ExpectTag(s1, TAG_TYPE).value;
    StringLeaves(s2, NAR_MAX_TAG);
    EndOfEnd(s, s1, s2);
    EndOfEnd(s, s2, ReadString(s2, NAR_MAX_TAG).value.1);
  }

  lemma {:induction false} NodeLeaves(s: bytes, depth: nat, skip: bool)
    requires ParseNode(s, depth, skip).Success?
    ensures EndOf(ParseNode(s, depth, skip).value.1, s)
    decreases |s|, 1
  {
    hide ParseNodeHead, ParseRegular, ParseSymlink, ParseEntries, EndOf;
    HeadLeaves(s, depth);
    var (kind, s1) := ParseNodeHead(s, depth).value;
    if kind == TAG_REGULAR {
      RegularLeaves(s1, skip);
    } else if kind == TAG_DIRECTORY {
      EntriesLeave(s1, depth, [], skip);
    } else {
      SymlinkLeaves(s1);
    }
    EndOfEnd(s, s1, ParseNode(s, depth, skip).value.1);
  }

  lemma {:induction false} EntriesLeave(s: bytes, depth: nat, prev: bytes, skip: bool)
    requires ParseEntries(s, depth, prev, skip).Success?
    ensures EndOf(ParseEntries(s, depth, prev, skip).value.1, s)
    decreases |s|, 0
  {
    hide ReadString, ExpectTag, ParseEntryHead, ParseNode, EndOf;
    StringLeaves(s, NAR_MAX_TAG);
    var (tag, s1) := ReadString(s, NAR_MAX_TAG).value;
    if tag != TAG_CLOSE {
      EntryHeadLeaves(s1, prev);
      var (name, s2) := ParseEntryHead(s1, prev).value;
      NodeLeaves(s2, depth + 1, skip);
      var s3 := ParseNode(s2, depth + 1, skip).value.1;
      TagLeaves(s3, TAG_CLOSE);
      var s4 := ExpectTag(s3, TAG_CLOSE).value;
      EntriesLeave(s4, depth, name, skip);
      EndOfEnd(s, s1, s2);
      EndOfEnd(s, s2, s3);
      EndOfEnd(s, s3, s4);
      EndOfEnd(s, s4, ParseEntries(s4, depth, name, skip).value.1);
    }
  }

  /** A parse, skipping or not, leaves the end of the stream unread and nothing else. */
  lemma UnreadIsEnd(s: bytes, skip: bool)
    requires ParseDump(s, skip).Success?
    ensures EndOf(ParseDump(s, skip).value.1, s)
  {
    hide ReadString, ParseNode, EndOf;
    StringLeaves(s, |MAGIC|);
    var s1 := ParseMagic(s).value;
    NodeLeaves(s1, 0, skip);
    EndOfEnd(s, s1, ParseNode(s1, 0, skip).value.1);
  }
}
