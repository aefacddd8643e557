/** The in-memory file system and the sink that writes a restore into it: the tree that
    comes out is the tree that was parsed. */
module MemoryTree {
  import opened Results
  import opened Wire
  import opened Nar
  import opened NarStream

  type MemNode = Node<bytes>
  type MemEntries = seq<Entry<bytes>>

  datatype MemError = MissingParent | SymlinkNotAllowed | NotADirectory | NotARegularFile | NotASymlink

  // --------------------------------------------------- directories as sorted maps

  /** Index of the entry called `name`, or the number of entries. */
  function Find(entries: MemEntries, name: blob): (i: nat)
    ensures i <= |entries|
    ensures i < |entries| ==> entries[i].name == name
  {
    if entries == [] || entries[0].name == name then 0 else 1 + Find(entries[1..], name)
  }

  function Insert(entries: MemEntries, e: Entry<bytes>): MemEntries {
    if entries == [] || Less(e.name, entries[0].name) then [e] + entries
    else [entries[0]] + Insert(entries[1..], e)
  }

  // --------------------------------------------------------------- operations

  /** The file system after opening `path` below `n`, creating `create` there, and any
      directories on the way, if nothing is. */
  function Open(n: MemNode, path: Path, create: MemNode): Result<MemNode, MemError>
    decreases |path|
  {
    if path == [] then Success(n) else
    match n
    case Symlink(_) => Failure(SymlinkNotAllowed)
    case Regular(_, _) => Failure(NotADirectory)
    case Directory(entries) =>
      var i := Find(entries, path[0]);
      if i < |entries| then
        var child :- Open(entries[i].node, path[1..], create);
        Success(Directory(entries[i := Entry(path[0], child)]))
      else
        var child :- if |path| == 1 then Success(create) else Open(Directory([]), path[1..], create);
        Success(Directory(Insert(entries, Entry(path[0], child))))
  }

  function OpenRoot(root: Option<MemNode>, path: Path, create: MemNode): Result<MemNode, MemError> {
    match root
    case Some(n) => Open(n, path, create)
    case None => if path == [] then Success(create) else Failure(MissingParent)
  }

  /** The node at `path`, if it exists. */
  function Get(n: MemNode, path: Path): Option<MemNode>
    decreases |path|
  {
    if path == [] then Some(n)
    else if !n.Directory? then None
    else
      var i := Find(n.entries, path[0]);
      if i < |n.entries| then Get(n.entries[i].node, path[1..]) else None
  }

  datatype Edit = MarkExecutable | Append(data: bytes) | SetTarget(target: blob)

  function Apply(edit: Edit, n: MemNode): MemNode {
    match edit
    case MarkExecutable => if n.Regular? then n.(executable := true) else n
    case Append(data) => if n.Regular? then n.(contents := n.contents + data) else n
    case SetTarget(target) => if n.Symlink? then Symlink(target) else n
  }

  /** The tree with the node at `path` edited. */
  function Update(n: MemNode, path: Path, edit: Edit): MemNode
    decreases |path|
  {
    if path == [] then Apply(edit, n)
    else if !n.Directory? then n
    else
      var i := Find(n.entries, path[0]);
      if i < |n.entries| then
        Directory(n.entries[i := Entry(path[0], Update(n.entries[i].node, path[1..], edit))])
      else n
  }

  // --------------------------------------------------------------------- sink

  /** The file system, and the path of the file being written, if one is. */
  datatype Mem = Mem(root: Option<MemNode>, current: Option<Path>)

  function Create(m: Mem, path: Path, create: MemNode, wrongKind: MemError, current: Option<Path>): Result<Mem, MemError> {
    var root :- OpenRoot(m.root, path, create);
    match Get(root, path)
    case Some(n) =>
      if n.Regular? == create.Regular? && n.Directory? == create.Directory? then Success(Mem(Some(root), current))
      else Failure(wrongKind)
    case None => Failure(MissingParent)
  }

  function Touch(m: Mem, path: Option<Path>, edit: Edit): Mem {
    if m.root.None? || path.None? then m else m.(root := Some(Update(m.root.value, path.value, edit)))
  }

  function Step(m: Mem, e: Event): Result<Mem, MemError> {
    match e
    case DirBegin(path) => Create(m, path, Directory([]), NotADirectory, m.current)
    case FileBegin(path) => Create(m, path, Regular(false, []), NotARegularFile, Some(path))
    case Exec => Success(Touch(m, m.current, MarkExecutable))
    case Data(chunk) => Success(Touch(m, m.current, Append(chunk)))
    case Link(path, target) =>
      var made :- Create(m, path, Symlink([]), NotASymlink, m.current);
      Success(Touch(made, Some(path), SetTarget(target)))
    case Size(_) => Success(m)
    case FileEnd(_) => Success(m.(current := None))
    case DirEnd(_) => Success(m)
  }

  function Run(m: Mem, events: seq<Event>): Result<Mem, MemError>
    decreases |events|
  {
    if events == [] then Success(m) else
    var m' :- Step(m, events[0]);
    Run(m', events[1..])
  }

  lemma {:induction false} RunAppend(m: Mem, a: seq<Event>, b: seq<Event>)
    requires Run(m, a).Success?
    ensures Run(m, a + b) == Run(Run(m, a).value, b)
    decreases |a|
  {
    hide Step;
    if a == [] {
      assert a + b == b;
    } else {
      RunAppend(Step(m, a[0]).value, a[1..], b);
      assert (a + b)[1..] == a[1..] + b;
    }
  }

  lemma RunOne(m: Mem, e: Event)
    ensures Run(m, [e]) == Step(m, e)
  {
    hide Step;
    if Step(m, e).Success? {
      assert [e][1..] == [];
    }
  }

  // ---------------------------------------- a restore below an existing directory

  /** The same event for a node one directory further down. */
  function Below(name: blob, e: Event): Event {
    match e
    case DirBegin(path) => DirBegin([name] + path)
    case DirEnd(path) => DirEnd([name] + path)
    case FileBegin(path) => FileBegin([name] + path)
    case FileEnd(path) => FileEnd([name] + path)
    case Link(path, target) => Link([name] + path, target)
    case _ => e
  }

  function AllBelow(name: blob, events: seq<Event>): seq<Event> {
    seq(|events|, i requires 0 <= i < |events| => Below(name, events[i]))
  }

  /** A directory whose last entry is `child`, if that exists yet. */
  function Hang(entries: MemEntries, name: blob, child: Option<MemNode>): MemNode {
    Directory(if child.Some? then entries + [Entry(name, child.value)] else entries)
  }

  function BelowPath(name: blob, current: Option<Path>): Option<Path> {
    if current.None? then None else Some([name] + current.value)
  }

  function HangMem(entries: MemEntries, name: blob, m: Mem): Mem {
    Mem(Some(Hang(entries, name, m.root)), BelowPath(name, m.current))
  }

  ghost predicate AllLess(entries: MemEntries, name: blob) {
    forall i :: 0 <= i < |entries| ==> Less(entries[i].name, name)
  }

  lemma {:induction false} FindLast(entries: MemEntries, name: blob, n: MemNode)
    requires AllLess(entries, name)
    ensures Find(entries, name) == |entries|
    ensures Find(entries + [Entry(name, n)], name) == |entries|
    ensures Insert(entries, Entry(name, n)) == entries + [Entry(name, n)]
  {
    LessIsStrictTotalOrder(name, name, name);
    if entries != [] {
      FindLast(entries[1..], name, n);
      assert (entries + [Entry(name, n)])[1..] == entries[1..] + [Entry(name, n)];
      LessIsStrictTotalOrder(name, entries[0].name, name);
      assert entries == [entries[0]] + entries[1..];
    }
  }

  lemma HangUpdate(entries: MemEntries, name: blob, child: MemNode, path: Path, edit: Edit)
    requires AllLess(entries, name)
    ensures Update(Hang(entries, name, Some(child)), [name] + path, edit)
         == Hang(entries, name, Some(Update(child, path, edit)))
  {
    FindLast(entries, name, child);
    assert ([name] + path)[1..] == path;
    var es, i := entries + [Entry(name, child)], |entries|;
    assert es[i := Entry(name, Update(child, path, edit))] == entries + [Entry(name, Update(child, path, edit))];
  }

  lemma HangOpen(entries: MemEntries, name: blob, child: Option<MemNode>, path: Path, create: MemNode)
    requires AllLess(entries, name) && OpenRoot(child, path, create).Success?
    ensures OpenRoot(Some(Hang(entries, name, child)), [name] + path, create)
         == Success(Hang(entries, name, Some(OpenRoot(child, path, create).value)))
  {
    assert ([name] + path)[1..] == path;
    var n := OpenRoot(child, path, create).value;
    FindLast(entries, name, n);
    if child.Some? {
      FindLast(entries, name, child.value);
      var es, i := entries + [Entry(name, child.value)], |entries|;
      assert es[i := Entry(name, n)] == entries + [Entry(name, n)];
    }
  }

  lemma HangGet(entries: MemEntries, name: blob, child: MemNode, path: Path)
    requires AllLess(entries, name)
    ensures Get(Hang(entries, name, Some(child)), [name] + path) == Get(child, path)
  {
    FindLast(entries, name, child);
    assert ([name] + path)[1..] == path;
  }

  lemma HangCreate(entries: MemEntries, name: blob, m: Mem, path: Path, create: MemNode, e: MemError,
                   current: Option<Path>)
    requires AllLess(entries, name) && Create(m, path, create, e, current).Success?
    ensures Create(HangMem(entries, name, m), [name] + path, create, e, BelowPath(name, current))
         == Success(HangMem(entries, name, Create(m, path, create, e, current).value))
  {
    HangOpen(entries, name, m.root, path, create);
    HangGet(entries, name, OpenRoot(m.root, path, create).value, path);
  }

  lemma HangTouch(entries: MemEntries, name: blob, m: Mem, path: Option<Path>, edit: Edit)
    requires AllLess(entries, name)
    ensures Touch(HangMem(entries, name, m), BelowPath(name, path), edit) == HangMem(entries, name, Touch(m, path, edit))
  {
    if m.root.Some? && path.Some? {
      HangUpdate(entries, name, m.root.value, path.value, edit);
    } else {
      FindLast(entries, name, Directory([]));
    }
  }

  /** A sink does to the last entry of a directory what it would do to a file system
      of its own. */
  lemma HangStep(entries: MemEntries, name: blob, m: Mem, e: Event)
    requires AllLess(entries, name) && Step(m, e).Success?
    ensures Step(HangMem(entries, name, m), Below(name, e)) == Success(HangMem(entries, name, Step(m, e).value))
  {
    hide Create, Touch, Hang;
    match e
    case DirBegin(path) => HangCreate(entries, name, m, path, Directory([]), NotADirectory, m.current);
    case FileBegin(path) => HangCreate(entries, name, m, path, Regular(false, []), NotARegularFile, Some(path));
    case Link(path, target) =>
      HangCreate(entries, name, m, path, Symlink([]), NotASymlink, m.current);
      var made := Create(m, path, Symlink([]), NotASymlink, m.current).value;
      HangTouch(entries, name, made, Some(path), SetTarget(target));
    case Exec => HangTouch(entries, name, m, m.current, MarkExecutable);
    case Data(chunk) => HangTouch(entries, name, m, m.current, Append(chunk));
    case _ =>
  }

  lemma {:induction false} HangRun(entries: MemEntries, name: blob, m: Mem, events: seq<Event>)
    requires AllLess(entries, name) && Run(m, events).Success?
    ensures Run(HangMem(entries, name, m), AllBelow(name, events)) == Success(HangMem(entries, name, Run(m, events).value))
    decreases |events|
  {
    hide Step, HangMem, Below;
    if events != [] {
      HangStep(entries, name, m, events[0]);
      HangRun(entries, name, Step(m, events[0]).value, events[1..]);
      assert AllBelow(name, events)[1..] == AllBelow(name, events[1..]);
    }
  }

  // -------------------------------------------------------- the tree that is built

  lemma {:induction false} EventsBelow(ct: ChunkedTree, name: blob, path: Path)
    ensures EventsOf(ct, [name] + path) == AllBelow(name, EventsOf(ct, path))
    decreases ct, 1
  {
    if ct.Directory? {
      EntriesEventsBelow(ct.entries, name, path);
    }
  }

  lemma AllBelowConcat(name: blob, a: seq<Event>, b: seq<Event>)
    ensures AllBelow(name, a + b) == AllBelow(name, a) + AllBelow(name, b)
    ensures AllBelow(name, []) == []
  {
    hide Below;
  }

  lemma {:induction false} EntriesEventsBelow(ces: seq<Entry<seq<bytes>>>, name: blob, path: Path)
    ensures EntriesEvents(ces, [name] + path) == AllBelow(name, EntriesEvents(ces, path))
    decreases ces, 0
  {
    hide EventsOf, AllBelow;
    AllBelowConcat(name, [], []);
    if ces != [] {
      var n := |ces| - 1;
      EntriesEventsBelow(ces[..n], name, path);
      EventsBelow(ces[n].node, name, path + [ces[n].name]);
      assert [name] + path + [ces[n].name] == [name] + (path + [ces[n].name]);
      AllBelowConcat(name, EntriesEvents(ces[..n], path), EventsOf(ces[n].node, path + [ces[n].name]));
    }
  }

  lemma {:induction false} BuildContents(executable: bool, chunks: seq<bytes>)
    ensures Run(Mem(Some(Regular(executable, [])), Some([])), DataEvents(chunks))
         == Success(Mem(Some(Regular(executable, Flatten(chunks))), Some([])))
  {
    if chunks != [] {
      var n := |chunks| - 1;
      var start := Mem(Some(Regular(executable, [])), Some([]));
      BuildContents(executable, chunks[..n]);
      assert DataEvents(chunks) == DataEvents(chunks[..n]) + [Data(chunks[n])];
      RunAppend(start, DataEvents(chunks[..n]), [Data(chunks[n])]);
      RunOne(Run(start, DataEvents(chunks[..n])).value, Data(chunks[n]));
    }
  }

  lemma BuildFile(path: Path, executable: bool, chunks: seq<bytes>)
    ensures Run(Mem(None, None), RegularEvents([], executable, chunks))
         == Success(Mem(Some(Regular(executable, Flatten(chunks))), None))
  {
    hide Run;
    var m0: Mem := Mem(None, None);
    var e1 := [FileBegin([])];
    var e2 := e1 + (if executable then [Exec] else []);
    var e3 := e2 + [Size(|Flatten(chunks)|)];
    var e4 := e3 + DataEvents(chunks);
    RunOne(m0, FileBegin([]));
    var m1 := Mem(Some(Regular(false, [])), Some([]));
    var m2 := Mem(Some(Regular(executable, [])), Some([]));
    RunAppend(m0, e1, [Exec]);
    RunOne(m1, Exec);
    assert !executable ==> e2 == e1;
    assert Run(m0, e2) == Success(m2);
    RunAppend(m0, e2, [Size(|Flatten(chunks)|)]);
    RunOne(m2, Size(|Flatten(chunks)|));
    RunAppend(m0, e3, DataEvents(chunks));
    BuildContents(executable, chunks);
    RunAppend(m0, e4, [FileEnd([])]);
    RunOne(Run(m0, e4).value, FileEnd([]));
  }

  lemma {:induction false} BuildNode(ct: ChunkedTree, t: Tree, depth: nat)
    requires Splits(ct, t) && Valid(t, depth)
    ensures Run(Mem(None, None), EventsOf(ct, [])) == Success(Mem(Some(t), None))
    decreases t, 1
  {
    hide Run;
    match t
    case Regular(executable, contents) => BuildFile([], executable, ct.contents);
    case Symlink(target) => RunOne(Mem(None, None), Link([], target));
    case Directory(entries) =>
      var inner := EntriesEvents(ct.entries, []);
      var m0: Mem := Mem(None, None);
      RunOne(m0, DirBegin([]));
      RunAppend(m0, [DirBegin([])], inner);
      BuildEntries(ct.entries, entries, depth);
      RunAppend(m0, [DirBegin([])] + inner, [DirEnd([])]);
      RunOne(Mem(Some(t), None), DirEnd([]));
  }

  lemma {:induction false} BuildEntries(ces: seq<Entry<seq<bytes>>>, entries: seq<Entry<blob>>, depth: nat)
    requires SplitsEntries(ces, entries) && ValidEntries(entries, depth, [])
    ensures Run(Mem(Some(Directory([])), None), EntriesEvents(ces, [])) == Success(Mem(Some(Directory(entries)), None))
    decreases entries, 0
  {
    BuildFirst(ces, entries, |entries|, depth);
    assert ces[..|entries|] == ces && entries[..|entries|] == entries;
  }

  lemma {:induction false} BuildFirst(ces: seq<Entry<seq<bytes>>>, entries: seq<Entry<blob>>, n: nat, depth: nat)
    requires SplitsEntries(ces, entries) && ValidEntries(entries, depth, []) && n <= |entries|
    ensures Run(Mem(Some(Directory([])), None), EntriesEvents(ces[..n], []))
         == Success(Mem(Some(Directory(entries[..n])), None))
    decreases entries, 0, n
  {
    hide Run, EventsOf;
    var m0 := Mem(Some(Directory([])), None);
    if n == 0 {
      assert entries[..0] == [];
      RunNothing(m0);
    } else {
      var e, done := entries[n - 1], entries[..n - 1];
      var events := EventsOf(ces[n - 1].node, []);
      BuildFirst(ces, entries, n - 1, depth);
      assert ces[..n][..n - 1] == ces[..n - 1];
      RunAppend(m0, EntriesEvents(ces[..n - 1], []), EventsOf(ces[n - 1].node, [] + [e.name]));
      ValidEntriesPointwise(entries, depth, []);
      BuildNode(ces[n - 1].node, e.node, depth + 1);
      HangRun(done, e.name, Mem(None, None), events);
      EventsBelow(ces[n - 1].node, e.name, []);
      assert [e.name] + [] == [] + [e.name];
      assert entries[..n] == done + [e];
    }
  }

  lemma RunNothing(m: Mem)
    ensures Run(m, []) == Success(m)
  {
  }

  /** Opening what is there changes nothing. */
  lemma {:induction false} OpenFinds(n: MemNode, path: Path, create: MemNode)
    requires Get(n, path).Some?
    ensures Open(n, path, create) == Success(n)
    decreases |path|
  {
    if path != [] {
      var i := Find(n.entries, path[0]);
      OpenFinds(n.entries[i].node, path[1..], create);
      assert n.entries[i := Entry(path[0], n.entries[i].node)] == n.entries;
    }
  }

  /** Creating where something stands keeps it if it is of the kind asked for, and otherwise
      fails for that reason: nothing is ever replaced by something of another kind. */
  lemma CreatingWhatIsThere(m: Mem, path: Path, target: blob)
    requires m.root.Some? && Get(m.root.value, path).Some?
    ensures var n := Get(m.root.value, path).value;
      Step(m, DirBegin(path)) == (if n.Directory? then Success(m) else Failure(NotADirectory)) &&
      Step(m, FileBegin(path)) == (if n.Regular? then Success(m.(current := Some(path))) else Failure(NotARegularFile)) &&
      (Step(m, Link(path, target)).Failure? <==> !n.Symlink?) &&
      (!n.Symlink? ==> Step(m, Link(path, target)) == Failure(NotASymlink))
  {
    var n := m.root.value;
    OpenFinds(n, path, Directory([]));
    OpenFinds(n, path, Regular(false, []));
    OpenFinds(n, path, Symlink([]));
  }

  // ---------------------------------------------------------------- the sink itself

  class MemorySink {
    var root: Option<MemNode>
    var current: Option<Path>

    function State(): Mem
      reads this
    {
      Mem(root, current)
    }

    constructor ()
      ensures State() == Mem(None, None)
    {
      root, current := None, None;
    }

    /** Opens `path`, creating `create` if nothing is there; fails on another kind. */
    method CreateNode(path: Path, create: MemNode, wrongKind: MemError) returns (r: Result<(), MemError>)
      modifies this`root
      ensures match Create(old(State()), path, create, wrongKind, current)
              case Success(m) => r.Success? && State() == m
              case Failure(e) => r == Failure(e)
    {
      var made :- OpenRoot(root, path, create);
      var found := Get(made, path);
      if found.None? {
        return Failure(MissingParent);
      }
      var n := found.value;
      if n.Regular? != create.Regular? || n.Directory? != create.Directory? {
        return Failure(wrongKind);
      }
      root := Some(made);
      return Success(());
    }

    method EditNode(path: Option<Path>, edit: Edit)
      modifies this`root
      ensures State() == Touch(old(State()), path, edit)
    {
      if root.Some? && path.Some? {
        root := Some(Update(root.value, path.value, edit));
      }
    }

    method Handle(e: Event) returns (r: Result<(), MemError>)
      modifies this
      ensures match Step(old(State()), e)
              case Success(m) => r.Success? && State() == m
              case Failure(error) => r == Failure(error)
    {
      match e {
        case DirBegin(path) => r := CreateNode(path, Directory([]), NotADirectory);
        case FileBegin(path) =>
          r := CreateNode(path, Regular(false, []), NotARegularFile);
          if r.Success? {
            current := Some(path);
          }
        case Exec => EditNode(current, MarkExecutable); r := Success(());
        case Data(chunk) => EditNode(current, Append(chunk)); r := Success(());
        case Link(path, target) =>
          r := CreateNode(path, Symlink([]), NotASymlink);
          if r.Success? {
            EditNode(Some(path), SetTarget(target));
          }
        case Size(_) => r := Success(());
        case FileEnd(_) => current := None; r := Success(());
        case DirEnd(_) => r := Success(());
      }
    }

    method HandleAll(events: seq<Event>) returns (r: Result<(), MemError>)
      modifies this
      ensures match Run(old(State()), events)
              case Success(m) => r.Success? && State() == m
              case Failure(error) => r == Failure(error)
    {
      hide Step;
      for i := 0 to |events|
        invariant Run(State(), events[i..]) == Run(old(State()), events)
      {
        assert events[i..][1..] == events[i + 1..];
        var _ :- Handle(events[i]);
      }
      return Success(());
    }
  }

  datatype RestoreError = Stream(read: ReadError) | Memory(memory: MemError)

  /** Parsing into memory never fails on the memory side, and what it builds is the
      tree the stream encodes. */
  method RestoreToMemory(source: Source) returns (r: Result<MemNode, RestoreError>)
    requires source.Valid()
    modifies source
    ensures source.Valid()
    ensures match ParseDump(old(source.Remaining()), false)
            case Success((t, rest)) => r == Success(t) && source.Remaining() == rest
            case Failure(e) => r == Failure(Stream(e))
  {
    hide ParseDump, Run, Step;
    var sink := new FileSystemObjectSink(false, false);
    ghost var before := source.Remaining();
    ghost var ct;
    var parsed;
    parsed, ct := ParseArchive(sink, source);
    if parsed.Failure? {
      return Failure(Stream(parsed.error));
    }
    ghost var t := ParseDump(before, false).value.0;
    Canonicity(before);
    BuildNode(ct, t, 0);
    assert sink.events == EventsOf(ct, []);
    var memory := new MemorySink();
    var handled := memory.HandleAll(sink.events);
    return Success(memory.root.value);
  }
}
