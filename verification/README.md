# A verified model of the local store's import pipeline

A store path enters the local store as an archive stream. The stream is parsed,
restored to disk, hashed as a whole and file by file while it passes, deduplicated
against a farm of hard links, registered in a database under a name made from its
digest, and later collected. These Dafny modules model that pipeline and what it
stands on, and prove what it is relied on for.

| module | models |
|---|---|
| `Results` | optional values and results that carry an error |
| `Wire`, `Nar`, `NarStream` | numbers and strings on the wire; the archive format as functions on bytes; printer and parser as methods over streams and sinks |
| `MemoryTree`, `Capture`, `CanonicalRestore` | three consumers of a parse: the tree in memory, the per-file digests, the modes and times on disk |
| `HashRing`, `SourceChannel`, `SwapPool`, `ThreadPool` | the threads: the hashers' queues, the channel between dump and restore, the pool of streamed swaps, the general thread pool |
| `FileTable`, `LinkFarm`, `FarmCalls`, `Optimise`, `Collector` | names, inodes and link counts; the farm as a concurrent protocol, and why each of its calls is made; an undisturbed optimise pass; deleting paths and pruning the farm |
| `PathLocks`, `LockCrashes`, `LockSignals`, `Importers` | lock files with a staleness token; exactly when a dying locker or a signal breaks them; any number of concurrent imports over them |
| `Bits`, `Nix32`, `Base16`, `Base64`, `Hashes`, `StorePath`, `ExportImport` | encodings bit by bit, printed digests, store path names, bundles |
| `CanonPath`, `LruCache`, `DirFdCache`, `Buffers` | canonical paths, the recency cache, opening directories through it, buffered sinks and sources |

How things are represented:

* A thread or a process is a program counter in a state. One step is one stretch of
  code under a mutex, one action outside it, or one system call; a run is any sequence
  of steps, so a statement about every run covers every interleaving. Waiting on a
  condition variable may end for no reason, and a notify with nobody waiting is lost.
* Beside each state machine stands a class with the source's own fields, one method
  for each stretch of code, proved to make exactly the machine's step. Its ghost fields
  are the program counters and the history. Where the source runs alone, its loops are
  methods with invariants, proved against functions whose properties are then proved.
* SHA-256 is a function parameter everywhere. Nothing assumes it injective; the results
  about shared contents assume that no two nodes of the store in question collide.
* Inodes keep their node for good and inode numbers are not used twice. An inode's mode
  and time are its own: what a streamed swap puts in a file's place is known to have the
  same dump, so the same kind and executable bit, and nothing else.
* Clocks, random numbers, the kernel's choice of how much a read returns, and which
  system calls fail for reasons of their own are arbitrary.

Where the code does more or less than one would expect, the code is followed:

* The parser checks content padding only when it reads contents. Skipping accepts any
  padding (`Nar.SkipToleratesContentPadding`).
* Base-64 decoding ignores the bits left over in the last digit
  (`Base64.SecondText`), so every digest has a second base-64 text
  (`Hashes.SriTextIsNotUnique`), while its base-32 text is the only one of its length
  (`Hashes.Nix32TextIsUnique`).
* Nothing checks the byte between the hash and the name of a store path
  (`StorePath.StorePathIsComponent`); the import check on the recomputed name makes up
  for it.
* `CanonPath::push` accepts an empty component and then leaves a trailing slash, except
  at the root (`CanonPath.CanonPath.Push`).
* Skipping on a file that can seek does not notice the end of the file
  (`Buffers.BufferedSource.SkipSeeking`).
* Renaming one link of an inode over another does nothing, reports success, and leaves the
  temporary link behind. `LinkFarm.LeftBehindExactly` says exactly when a task that is over
  has left one, and `LinkFarm.LinkIsLeftBehind` is a run in which it happens; contents are
  safe all the same (`LinkFarm.ContentKept`).
* The comment on the streamed swaps takes the farm's inodes to be canonical, and nothing
  checks it: the digest fixes the executable bit only, and a store file that was touched is
  still linked into the farm as it is. An import ends with every node canonical exactly if
  the inodes it swapped in were (`CanonicalRestore.EverythingCanonical`);
  `CanonicalRestore.TouchedInodeExample` is an import that does not.
* A locker that dies between unlinking its lock file and marking it can let two lockers
  into one critical section, exactly if somebody else has the nameless file open by then
  and a second file of the path can still be locked (`LockCrashes.CrashBreaksExactly`).
  Every other death is harmless, and the runs in `PathLocks` and `Importers` include them.
* A wait in flock that a signal cuts short counts as a lock. That does harm exactly if the
  file carries no token by then and somebody else can still come to rely on a file of the
  same path (`LockSignals.CutShortBreaksExactly`); otherwise the check that follows, or the
  state of the lock directory, makes up for it.
* The per-file hasher's queue refills the producer's buffer on every push, also where the
  event pushed carries none away; a spare found then replaces a buffer that is still
  there, which is lost (`HashRing.BuffersAccounted`). The whole-stream hasher and the
  channel between dump and restore lose none (`HashRing.ChunksLoseNoBuffer`,
  `SourceChannel.BuffersAccounted`).

## Model

| member | source | states |
|---|---|---|
| LinkFarm.RunsKeepInv | src/libstore/optimise-store.cc:124-410 | over every interleaving, call by call, of any number of optimise tasks, streamed swaps, farm prunes and restores: every farm entry is filed under the digest of its node, every store name keeps the digest it was created with, link counts stay exact, and each task's knowledge stays true |
| LinkFarm.StepKeepsInv | src/libstore/optimise-store.cc:278-398 | each single system call of each task keeps all of that, errors and vanished or recreated farm entries included |
| LinkFarm.ActIsGentle | src/libstore/local-store.cc:826-849 | whatever call a task makes, link, rename or unlink, it leaves the keys of all names alone but the farm's and its own temporary link's |
| LinkFarm.ActKeepsKnowledge | src/libstore/optimise-store.cc:219-237 | a digest read from disk mid-run is still the digest the name was created with, and a link fetched from the farm has the digest asked for |
| LinkFarm.ContentKept | src/libstore/optimise-store.cc:211-215 | among nodes that do not collide under the digest, every store file keeps its type, its contents and its executable bit |
| LinkFarm.SameDigestSameNode | src/libstore/optimise-store.cc:203-209 | equal farm keys mean equal nodes, executable bit included, where nothing collides |
| LinkFarm.QuietIsSound | src/libstore/local-store.cc:587-594 | a store nobody is working on, counted exactly, filed right and free of temporary links, is a state to start from |
| LinkFarm.NothingIsSound | src/libstore/local-store.cc:587-594 | so is the empty store |
| LinkFarm.RenameForgetsExactly | src/libstore/optimise-store.cc:368-398 | after a rename that reports success the temporary link is still there exactly if the store name led to the farm inode before it |
| LinkFarm.LeftBehindExactly | src/libstore/optimise-store.cc:352-398 | in every run of any number of tasks from such a store, a task that is over has left its temporary link behind exactly if its rename found the store name on the farm inode already, or its clean-up failed |
| LinkFarm.RunForgets | src/libstore/local-store.cc:826-849 | the same from any state, run by run, with the temporary links there before |
| LinkFarm.LinkIsLeftBehind | src/libstore/optimise-store.cc:368-372 | a run that reaches it: an optimise task and a streamed swap of one file both report it linked, and the second leaves its temporary link in the store |
| FarmCalls.WhyItIsThere | src/libstore/optimise-store.cc:131-398 | in every run: whatever call a task is at, one call of its own brought it there and none since moved it, and the names and nodes as they were at that call say why |
| FarmCalls.GroundsForCalls | src/libstore/gc.cc:193-200 | so a prune is about to unlink only an entry that was the only name of its inode when it looked; an entry is about to be removed as bad only if its node's size was not the file's; a swap links only an entry of exactly the size it asked for, never an empty one |
| FarmCalls.CallBecause | src/libstore/optimise-store.cc:180-322 | for each call, failing or not, the condition in names and nodes under which it leads to each next call, to an end with or without a link, or to an exception; the conditions are exclusive, so each branch is taken exactly where it should be |
| FarmCalls.PruneExactly | src/libstore/gc.cc:193-200 | undisturbed, a prune unlinks its entry if and only if no other name leads to the inode, throws if there is none, and changes nothing else |
| FarmCalls.SwapExactly | src/libstore/local-store.cc:1102-1130 | undisturbed, a streamed swap rebinds the file's name to the entry's inode if and only if the farm has an entry of exactly its size, and otherwise changes nothing |
| FarmCalls.BadEntryReplaced | src/libstore/optimise-store.cc:251-272 | undisturbed, an entry that is missing or of another size than the file ends bound to the file's own inode, and nothing else changes |
| FarmCalls.GoodEntryUsed | src/libstore/optimise-store.cc:318-398 | undisturbed, an entry of the file's size takes the file's place unless it is the file's own inode |
| FarmCalls.ProbeAgainExactly | src/libstore/optimise-store.cc:284-322 | undisturbed after somebody else published first: the entry is used unless it is gone again or the file's own inode |
| FarmCalls.CleanUpRestores | src/libstore/optimise-store.cc:374-398 | a rename that fails leaves every name as it was before the temporary link, and throws exactly for an optimise task and an error other than too many links |
| FarmCalls.SwapsNeverThrow | src/libstore/local-store.cc:1102-1130 | in every run a streamed swap never throws, whatever fails under it |
| FarmCalls.EmptyFilesStayAlone | src/libstore/optimise-store.cc:180-189 | in every run where nothing collides: no entry is ever taken for a bad one, no farm entry is an empty file, and no second name ever leads to an empty file's inode |
| FileTable.KeyIsDigest | src/libstore/optimise-store.cc:241-247 | two digests print to the same farm name only if they are equal |
| FileTable.LinkCounts | src/libstore/optimise-store.cc:278-283 | a new hard link keeps every stored link count equal to the number of names of its inode |
| FileTable.UnlinkCounts | src/libstore/gc.cc:195-200 | so does an unlink |
| FileTable.RenameCounts | src/libstore/optimise-store.cc:370-373 | so does a rename, also onto an existing name, and onto another link of the same inode, where it does nothing |
| FileTable.CreateCounts | src/libutil/fs-sink.cc:239-258 | so does creating a file |
| FileTable.OneLinkMeansNoOtherUse | src/libstore/gc.cc:195-200 | a link count of 1 holds exactly if no other name leads to the inode |
| FileTable.FileSystem.MakeLink | src/libstore/optimise-store.cc:280-281 | the system call: new state, or the error and no change |
| FileTable.FileSystem.RemoveName | src/libutil/file-system.cc:476-493 | the system call: new state, or the error and no change |
| FileTable.FileSystem.MoveName | src/libstore/optimise-store.cc:371-372 | the system call: new state, or the error and no change |
| FileTable.FileSystem.CreateFile | src/libutil/fs-sink.cc:239-258 | the system call: new state, or the error and no change |
| FileTable.FileSystem.ReadStat | src/libstore/optimise-store.cc:131-132 | inode, link count and size of the node a name leads to |
| Optimise.PassConverges | src/libstore/optimise-store.cc:412-439 | an undisturbed pass keeps every node behind its name, throws nothing, and leaves every non-empty file on the inode its content is farmed under; names that moved were neither empty nor anywhere but on that inode afterwards, and the counter of replacements grew by exactly their number |
| Optimise.VisitConverges | src/libstore/optimise-store.cc:134-174 | the same for one directory tree, including the children its listing leaves out |
| Optimise.EqualDigestsShareOneInode | src/libstore/optimise-store.cc:203-215 | after a pass any two non-empty files of equal digest, anywhere in the store, share one inode, the farm's |
| Optimise.ReplacedNotInSet | src/libstore/optimise-store.cc:345-347 | an inode a pass replaced is never in the set of inodes to pass over |
| Optimise.SecondPassIdle | src/libstore/optimise-store.cc:318-322 | a pass over a converged store links nothing and changes nothing |
| Optimise.FileConverges | src/libstore/optimise-store.cc:176-398 | one file: it ends on its farm inode unless it is empty, and nothing else moves |
| Optimise.FileAlone | src/libstore/optimise-store.cc:124-410 | running an optimise task's calls one after the other publishes the first of its content, replaces any other, and leaves alone what is empty or shares already |
| Optimise.SkippedConverged | src/libstore/optimise-store.cc:104-107 | a child left out of a directory listing because of its inode already is on its farm inode |
| Optimise.LoadedIsTidy | src/libstore/optimise-store.cc:68-89 | what is loaded from the links directory holds farm inodes and inodes of no file of the store, foreign names and the directories' own entries included, so a pass may start from it |
| Optimise.SoundIsReady | src/libstore/optimise-store.cc:412-425 | wherever the concurrent tasks stop, the store is ready for a pass |
| Optimise.TidyIsSound | src/libstore/optimise-store.cc:412-425 | where a pass stops, the concurrent tasks may go on |
| Optimise.Optimiser.LoadInodeHash | src/libstore/optimise-store.cc:68-89 | the loop over the links directory collects exactly the inodes of its names, its own and its parent's included |
| Optimise.Optimiser.ReadDirectoryIgnoringInodes | src/libstore/optimise-store.cc:92-122 | the loop keeps exactly the children not on a listed inode, in order |
| Optimise.Optimiser.OptimiseFile | src/libstore/optimise-store.cc:124-410 | file system, inode set, counters and exception are those of the protocol's own task run alone |
| Optimise.Optimiser.Place | src/libstore/optimise-store.cc:247-322 | the branch on the farm entry: corrupted, missing, created meanwhile, vanished again, or present |
| Optimise.Optimiser.Swap | src/libstore/optimise-store.cc:358-396 | temporary link and rename, and what each failure leaves behind |
| Optimise.Optimiser.OptimisePath | src/libstore/optimise-store.cc:124-174 | the recursive walk is the specified walk, stopping at the first exception |
| Optimise.Optimiser.OptimiseStore | src/libstore/optimise-store.cc:412-439 | the whole pass over all paths with a freshly loaded inode set |
| Collector.GarbageCollector.CollectGarbage | src/libstore/gc.cc:108-211 | a refusal as still rooted names a path that was valid, is pointed at from the roots, and comes after only collected ones; a deletion failure means that a named path has a name that resists; with neither, every named path was collected or was in use by another, and a farm entry is left exactly if another name used its inode. Whatever is returned, no rooted path is invalidated, neither rooted nor unnamed nor still valid paths lose or change a file, and references stay between valid paths |
| Collector.GarbageCollector.DeleteFromStore | src/libstore/gc.cc:126-150 | deletes only what is no longer valid; all removable names go, and failure means exactly that some name resisted |
| Collector.DeleteTree | src/libutil/file-system.cc:593-677 | the recursive delete removes every name it can even when others fail, reports a failure exactly if one did, and keeps link counts exact |
| Collector.PruneFarm | src/libstore/gc.cc:180-204 | the loop over the links directory keeps a farm entry exactly if another name uses its inode |
| Collector.DeletionKeeps | src/libstore/gc.cc:161-178 | deleting one named path leaves valid, rooted and unnamed paths untouched and everything already gone gone |
| Collector.CollectRoots | src/libstore/gc.cc:58-103 | the recursive walk collects exactly the specified roots |
| Collector.RootsArePointedAt | src/libstore/gc.cc:64-82 | a path is a root exactly if it is valid and some link below the roots directory leads to it |
| Collector.InvalidateRemoves | src/libstore/local-store.cc:1609-1630 | a path nobody else refers to is removed from the database, and only it |
| Collector.InvalidateKeepsRefs | src/libstore/local-store.cc:1609-1630 | invalidating a path nobody refers to leaves the references among the others as they were, and none to what is gone |
| Collector.UseWasThere | src/libstore/local-store.cc:1617-1626 | a path refused as in use was referred to by another path from the start |
| PathLocks.MutualExclusion | src/libstore/pathlocks.cc:98-156 | for any number of lockers, two are never inside the critical section of one path, even while a third has unlinked that lock file and not yet closed it |
| PathLocks.Reachable | src/libstore/pathlocks.cc:98-171 | every reachable state of every run of any number of lockers, crashes that expose no file included: at most one lock file of a path is live, its path's name leads to it or to a file already deleted, and whoever guards a file has it locked |
| PathLocks.StepKeepsInv | src/libstore/pathlocks.cc:98-171 | each open, lock attempt, wait, signal, check, retry, unlink, failed unlink, token, close and harmless crash keeps that |
| PathLocks.CheckedIsBound | src/libstore/pathlocks.cc:135-147 | where no crash exposed a file to anybody, a locked file without a token is the one the lock name leads to |
| PathLocks.UnlinksItsOwn | src/libstore/pathlocks.cc:53-63 | deleting a lock file only ever removes the deleter's own name, or that of one somebody else has deleted already |
| PathLocks.TryDecides | src/libstore/pathlocks.cc:117-133 | a try takes the next file exactly if nobody holds it; otherwise the locker sleeps if it was asked to wait, and gives up what it has if not |
| PathLocks.LetGoMarked | src/libstore/pathlocks.cc:158-171 | in every reachable state a file about to be closed carries a token exactly if its locker deletes lock files |
| PathLocks.GuardedIsReached | src/libstore/pathlocks.cc:135-152 | whoever guards a file: its path's lock name leads to it, or after such a crash to one that has its token |
| PathLocks.NoWaitCycle | src/libstore/pathlocks.cc:105-108 | locking in path order leaves no cycle of lockers waiting for each other |
| PathLocks.WaitsAscend | src/libstore/pathlocks.cc:105-108 | whoever is waited for waits, if at all, for a later path |
| PathLocks.PathLocks.LockPaths | src/libstore/pathlocks.cc:98-156 | for a caller that waits or not, over any lock directory: all paths are held and guarded, in order, exactly if each was free; otherwise it stops at the first that was not, gives everything up, sleeps in flock, or opens a deleted file again and again |
| PathLocks.PathLocks.LockNext | src/libstore/pathlocks.cc:117-149 | one path: taken exactly if its lock file is missing or neither locked nor deleted, and the other paths are as free as before |
| PathLocks.PathLocks.ReopenLockFile | src/libstore/pathlocks.cc:117-120 | opens the file the name leads to and only then closes the stale one |
| PathLocks.PathLocks.OpenLockFile | src/libstore/pathlocks.cc:42-51 | opens the file the name leads to, or creates it |
| PathLocks.PathLocks.LockFile | src/libstore/pathlocks.cc:65-96 | succeeds exactly if nobody holds the file; otherwise the caller sleeps or gives up, as it asked |
| PathLocks.PathLocks.KeepUnlessStale | src/libstore/pathlocks.cc:135-153 | a file with a token is not kept, one without is |
| PathLocks.PathLocks.DeleteLockFile | src/libstore/pathlocks.cc:53-63 | unlinks the first file if the system lets it and marks it stale, and nothing else |
| PathLocks.PathLocks.Unlock | src/libstore/pathlocks.cc:158-171 | gives everything up: the locks held are free and nobody else's are; if lock files are to be deleted, their names are gone and their files carry tokens, unlinks the system refuses aside, and if not, names and tokens are as before |
| PathLocks.PathLocks.SetDeletion | src/libstore/include/nix/store/pathlocks.hh:55-55 | stores whether lock files are deleted, and nothing else |
| LockCrashes.CrashBreaksExactly | src/libstore/pathlocks.cc:53-63 | from every state of every run, a locker's death can lead to two lockers in one critical section exactly if it died past the unlink and before the token, its file is nameless, somebody else has it open on the way to the lock, and a second file of the path can still be locked |
| LockCrashes.CrashUnbindsExactly | src/libstore/pathlocks.cc:53-63 | where only such deaths were excluded, one can lead to a guarded file its lock name does not lead to exactly if the unlink succeeded and somebody else has the file open |
| LockCrashes.ExposedBreaks | src/libstore/pathlocks.cc:119-149 | the harmful direction, built step by step from any such state: the other locker takes the nameless file, and a newcomer or the holder of another file of the path joins it |
| LockCrashes.CrashBeforeTokenBreaksExclusion | src/libstore/pathlocks.cc:53-63 | two lockers are enough: a run that reaches such a death |
| LockSignals.CutShortBreaksExactly | src/libstore/pathlocks.cc:77-84 | a wait in flock cut short by a signal counts as a lock; from every state of every run it can lead to two lockers in one critical section exactly if the file carries no token and somebody else can come to rely on a file of its path, as a newcomer or with a file open already |
| LockSignals.CutShortExactly | src/libstore/pathlocks.cc:77-84 | and it can lead to a file guarded without its lock exactly if the file carries no token: with one, the check that follows makes up for it |
| LockSignals.CutShortLetsIn | src/libstore/pathlocks.cc:119-147 | the harmful direction, step by step: the signal lets the waiter in, and a newcomer, the holder or a rival joins it |
| LockSignals.NothingBreaks | src/libstore/pathlocks.cc:98-171 | the harmless direction: every run on from there is, step for step, a run in which the waiter has a locked file of its own |
| LockSignals.SameStep | src/libstore/pathlocks.cc:98-171 | one step of any locker there and here |
| LockSignals.HarmlessSame | src/libstore/pathlocks.cc:53-63 | and a death that exposes nothing there exposes nothing here |
| LockSignals.CutShortBreaksExclusion | src/libstore/pathlocks.cc:77-84 | two lockers are enough: a run that reaches such a wait |
| Importers.RunsKeepStore | src/libstore/local-store.cc:587-658 | in every reachable state of any number of concurrent imports of both kinds, crashes that expose no lock file included, each valid path is on disk as a whole tree whose digest is the recorded one and gives the path its name |
| Importers.StepKeepsStore | src/libstore/local-store.cc:1530-1574 | each step of each import keeps that and every import's own knowledge |
| Importers.ValidPathsUntouched | src/libstore/local-store.cc:596-603 | no step, no importer's delete included, changes what a valid path leads to or makes it invalid |
| Importers.SuccessMeansStored | src/libstore/local-store.cc:1528-1577 | in every reachable state an import that reports success, or is about to, has its path valid and on disk as a whole tree, and the path is that of the name and digest it was announced with or that its stream turned out to have; unless two names share that path, tree and record have that very digest |
| Importers.RegisteredIsAsked | src/libstore/local-store.cc:640-652 | what an import has registered stays registered under the name and digest it was asked for, with that very tree on disk |
| Importers.ThrowsExactly | src/libstore/local-store.cc:587-658 | in every run, whatever the other imports do, an import throws exactly if an exception or a death befell it, its stream was no archive, or the archive was not the one announced |
| Importers.OnlyImportsRegister | src/libstore/local-store.cc:541-572 | over every run whatever becomes valid was registered by an import of that path |
| Importers.ValidNeverLocks | src/libstore/local-store.cc:590-590 | an import whose path is valid when it first looks takes no lock and changes nothing |
| Importers.NeverStuck | src/libstore/local-store.cc:592-600 | while any import is not over, some import can take a step of its own: however many there are, they never all wait for each other |
| Importers.AwaitedIsAwake | src/libstore/pathlocks.cc:93-126 | whoever an import sleeps for is an import that is not over and not asleep |
| Importers.StagesAscend | src/libstore/local-store.cc:587-658 | an import never goes back: every step but those of the lock protocol and of a deletion takes it to a later stage |
| Importers.OneWorker | src/libstore/local-store.cc:595-600 | two imports are never at work on one path |
| Importers.StepKeepsImport | src/libstore/local-store.cc:541-572 | an import that is about to register holds the lock, found the path not valid, and has its whole tree on disk under the name its digest gives |
| Importers.StreamDigest | src/libstore/local-store.cc:604-640 | the bytes a restore consumed are the dump of the tree it restored, so digest and size of the stream are those of the tree |
| Importers.FreshStore | src/libstore/local-store.cc:587-594 | the invariant holds where nobody imports yet |
| ThreadPool.ReturnMeansAllRan | src/libutil/thread-pool.cc:58-82 | process returns normally only if every item ever accepted, items enqueued by items included, ran exactly once, none threw and none is running |
| ThreadPool.ThrowMeansJoined | src/libutil/thread-pool.cc:66-82 | when process throws, it is the first exception any item threw, and every thread has exited |
| ThreadPool.ProcessTellsTheTruth | src/libutil/thread-pool.cc:58-82 | over every run: process returns normally only if every item handed to the pool before it quit ran and none threw in the run, and what it rethrows is what some item threw in the run |
| ThreadPool.RunsTellExactly | src/libutil/thread-pool.cc:46-163 | over every run: the items accepted are exactly those handed over before the pool quit, in order, and the outcomes recorded or about to be are exactly the ends of items in the run |
| ThreadPool.EnoughThreads | src/libutil/thread-pool.cc:46-56 | over every run: there are as many threads as pending items or as many as allowed, and never more than items accepted |
| ThreadPool.QuitIsFinal | src/libutil/thread-pool.cc:119-120 | once the pool quits, no item begins and none is accepted |
| ThreadPool.ShutdownReapsOnce | src/libutil/thread-pool.cc:26-44 | a shutdown notifies exactly if there are workers nobody has reaped; one that finds none is over at once, and a second one does nothing |
| ThreadPool.Reachable | src/libutil/thread-pool.cc:26-163 | the invariant of every reachable state for every thread limit: exactly-once, exact count of active items, no lost wake-up, never more threads than the limit |
| ThreadPool.WaitsOnlyForItems | src/libutil/thread-pool.cc:131-148 | while process or shutdown is under way the threads stop by themselves only to wait for a running item |
| ThreadPool.PendingWorkIsAwaited | src/libutil/thread-pool.cc:46-56 | pending items never sit beside sleeping threads unless at least as many items are running |
| ThreadPool.OwnStepsTerminate | src/libutil/thread-pool.cc:95-153 | between what callers do and items ending, the threads' own steps come to an end |
| ThreadPool.QuitWhenDeciding | src/libutil/thread-pool.cc:64-71 | the assertion after doWork holds, and without an exception nothing is pending or active |
| ThreadPool.StepKeepsInv | src/libutil/thread-pool.cc:84-163 | every critical section keeps the invariant |
| ThreadPool.Pool.Enqueue | src/libutil/thread-pool.cc:46-56 | queued and a sleeper woken, a thread spawned only below the limit; refused while quitting |
| ThreadPool.Pool.Turn | src/libutil/thread-pool.cc:95-153 | one critical section of doWork: settle the item that ended, then leave, take the next, end the run, or sleep |
| ThreadPool.Pool.Decide | src/libutil/thread-pool.cc:66-71 | whether process has an exception to rethrow |
| ThreadPool.Pool.BeginShutdown | src/libutil/thread-pool.cc:26-44 | sets quit and takes the workers, or finds none to reap |
| ThreadPool.Pool.StartDraining | src/libutil/thread-pool.cc:58-63 | process sets draining, and its caller starts to work |
| SourceChannel.ChannelIsFifo | src/libutil/serialise.cc:255-399 | over every run: the bytes delivered are a prefix of the bytes written, and all of them once end of file was reported |
| SourceChannel.ReadsWhatWasWritten | src/libutil/serialise.cc:344-372 | over every run: what has entered the ring is a prefix of what the writer's caller wrote, and a reader at end of file has been given exactly all of that |
| SourceChannel.RethrownExactly | src/libutil/serialise.cc:319-391 | over every run: when stop is over it has raised a failure exactly if the reader's callback threw, and will not raise it again |
| SourceChannel.EachReadIsAnswered | src/libutil/serialise.cc:285-317 | over every run each read the callback makes gets exactly one answer, end of file included |
| SourceChannel.BuffersAccounted | src/libutil/serialise.cc:287-370 | over every run no buffer is lost: they come into being only where a push finds no spare |
| SourceChannel.Reachable | src/libutil/serialise.cc:285-372 | every reachable state: bytes pulled, unread part of the current buffer and ring make up the bytes written; reads that succeed make progress; end of file repeats; no lost wake-up; at most 65 spare buffers |
| SourceChannel.StepKeepsOrder | src/libutil/serialise.cc:285-317 | each step keeps the byte-for-byte accounting, and the read position within the current buffer |
| SourceChannel.StepKeepsReads | src/libutil/serialise.cc:302-311 | each read returns at least one byte unless none was asked for, and nothing but end of file follows end of file |
| SourceChannel.StepKeepsRest | src/libutil/serialise.cc:335-372 | each step keeps the notify discipline and the bound on buffers |
| SourceChannel.HeldUpOnlyByTheOtherCaller | src/libutil/serialise.cc:344-391 | the threads stop by themselves exactly where one waits for the other's caller; a resting reader has been given every byte |
| SourceChannel.OwnStepsTerminate | src/libutil/serialise.cc:344-391 | with no new write or read, the threads' own steps come to an end |
| SourceChannel.SourceToSink.TryPush | src/libutil/serialise.cc:344-372 | one pass of writeUnbuffered under the mutex |
| SourceChannel.SourceToSink.Refill | src/libutil/serialise.cc:285-312 | pull with a spent buffer: recycle, then sleep, report end of file, or take the next chunk |
| SourceChannel.SourceToSink.Copy | src/libutil/serialise.cc:313-317 | hands out the next bytes of the current chunk |
| SourceChannel.SourceToSink.Stop | src/libutil/serialise.cc:376-385 | closes the ring, or has nothing to do when no reader ran |
| SourceChannel.SourceToSink.Join | src/libutil/serialise.cc:385-391 | rethrows the reader's failure once |
| SourceChannel.SourceToSink.Return | src/libutil/serialise.cc:328-333 | the callback is over, and its exception recorded if it threw |
| HashRing.Reachable | src/libstore/local-store.cc:686-802 | every reachable state of the producer/worker ring of both hashers: first in first out and each element once, a failure never forgotten, no lost wake-up, at most 65 spare buffers |
| HashRing.StepKeepsInv | src/libstore/local-store.cc:1151-1223 | each step keeps that, the edge-only notifications included |
| HashRing.StopsOnlyWhenDone | src/libstore/local-store.cc:704-767 | the two threads stop by themselves exactly when idle with an empty queue or joined; then everything pushed has been handled |
| HashRing.OwnStepsTerminate | src/libstore/local-store.cc:704-767 | every push and every close completes without a spurious wake-up |
| HashRing.JoinedMeansAllHandled | src/libstore/local-store.cc:769-788 | after close, the worker's state is the fold over everything pushed, or the failure that fold raises |
| HashRing.JoinedMeansAllOffered | src/libstore/local-store.cc:742-788 | over every run: once joined, the worker has handled exactly what its caller handed over, in order |
| HashRing.BuffersAccounted | src/libstore/local-store.cc:1151-1223 | over every run: buffers come into being only where a push finds no spare, and one is lost exactly where a push that carries none away finds one |
| HashRing.ChunksLoseNoBuffer | src/libstore/local-store.cc:742-760 | so the whole-stream hasher, whose elements all carry one, loses none |
| HashRing.StreamHashed | src/libstore/local-store.cc:686-802 | over every run the whole-stream hasher digests exactly the concatenation of what its caller wrote |
| HashRing.TreeHashed | src/libstore/local-store.cc:982-1328 | the per-file hasher, behind its queue and for every interleaving, ends with exactly the captured digests of the tree whose calls it was handed |
| HashRing.Ring.TryPush | src/libstore/local-store.cc:1151-1171 | one pass of push under the mutex, and whether to wake the worker |
| HashRing.Ring.TryPop | src/libstore/local-store.cc:1173-1190 | one pass of the worker's wait, and whether to wake the producer |
| HashRing.Ring.Handle | src/libstore/local-store.cc:1190-1213 | handles an element, or only drains it after a failure |
| HashRing.Ring.Recycle | src/libstore/local-store.cc:1214-1222 | hands a data buffer back |
| SwapPool.Reachable | src/libstore/local-store.cc:874-973 | every reachable state for any number of workers: each job leaves the queue once and has one outcome, counters hold exactly the successes, no worker sleeps un-notified beside queued jobs |
| SwapPool.FinishCountsOnce | src/libstore/local-store.cc:950-962 | after finish every job posted has one outcome and the caller's totals grew by exactly the successes' number and bytes |
| SwapPool.FinishTellsTheTruth | src/libstore/local-store.cc:907-962 | over every run: what finish adds to its caller's totals is the number and size of the files the swaps of the run replaced, and every job handed over has been tried |
| SwapPool.SecondFinishAddsNothing | src/libstore/local-store.cc:946-962 | a second finish changes nothing |
| SwapPool.StopsOnlyWhenDone | src/libstore/local-store.cc:895-944 | the threads stop by themselves only with no call under way and every posted job processed |
| SwapPool.OwnStepsTerminate | src/libstore/local-store.cc:895-944 | the threads' own steps come to an end |
| SwapPool.StepKeepsInv | src/libstore/local-store.cc:895-962 | each step keeps the invariant, waking all workers per edge included |
| SwapPool.DedupSwapPool.TryPush | src/libstore/local-store.cc:930-944 | one pass of post under the mutex |
| SwapPool.DedupSwapPool.TryPop | src/libstore/local-store.cc:895-906 | one pass of a worker under the mutex |
| SwapPool.DedupSwapPool.Swapped | src/libstore/local-store.cc:907-914 | a swap that came back goes on to be counted, or is over if it failed |
| SwapPool.DedupSwapPool.Collect | src/libstore/local-store.cc:957-962 | moves the counters to the caller's totals |
| Nar.RoundTrip | src/libutil/archive.cc:20-96 | parsing a dumped tree, whatever bytes follow, rebuilds the tree and stops exactly at its end |
| Nar.Canonicity | src/libutil/archive.cc:134-246 | whatever a content-reading parse accepts is, on the bytes consumed, the dump of a valid tree, the one it returned |
| Nar.AcceptsExactlyDumps | src/libutil/archive.cc:134-246 | the streams accepted are exactly the dumps of valid trees, each read in one way |
| Nar.DumpIsPrefixFree | src/libutil/archive.cc:20-96 | dumps are injective and prefix-free |
| Nar.SkipAgrees | src/libutil/archive.cc:111-132 | a stream the reading parse accepts is accepted by the skipping one exactly if every file size can be rounded up in 64 bits, and then the same bytes are consumed |
| Nar.SkipToleratesContentPadding | src/libutil/archive.cc:117-127 | skipping never looks at content padding: one file with any padding is skipped over, and read exactly if the padding is zero |
| Nar.LessIsStrictTotalOrder | src/libutil/archive.cc:207-209 | the order entries are checked against is a strict total order |
| Nar.LessIsFirstDifference | src/libutil/archive.cc:207-209 | it is decided at the first place where two names differ, a proper prefix coming first |
| Nar.UnreadIsEnd | src/libutil/archive.cc:150-260 | a parse, skipping or not, leaves exactly an end of the stream unread |
| Nar.ValidEntriesPointwise | src/libutil/archive.cc:203-209 | sorted entries have pairwise different names |
| Wire.ReadStringInverse | src/libutil/serialise.cc:423-464 | a printed string is read back whatever follows |
| Wire.ReadStringCanonical | src/libutil/serialise.cc:444-464 | only a printed string is accepted, padding included |
| Wire.ReadU64Inverse | src/libutil/include/nix/util/serialise.hh:408-438 | a printed number is read back |
| Wire.ReadU64Canonical | src/libutil/include/nix/util/serialise.hh:426-438 | eight bytes are the printed form of the number read |
| Wire.LittleEndianRoundTrip | src/libutil/include/nix/util/serialise.hh:408-421 | byte order round trip of numbers that fit |
| Wire.FromLittleEndianRoundTrip | src/libutil/include/nix/util/serialise.hh:426-438 | byte order round trip of bytes |
| NarStream.DumpPath | src/libutil/archive.cc:20-96 | appends exactly the printed tree, or fails exactly if it nests too deeply |
| NarStream.DumpNode | src/libutil/archive.cc:35-95 | the recursion does so for every node, whatever is printed afterwards |
| NarStream.DumpContents | src/libutil/archive.cc:22-31 | size, bytes and padding of a file |
| NarStream.StringSink.WriteString | src/libutil/serialise.cc:423-435 | a string as the wire has it |
| NarStream.Source.Fill | src/libutil/serialise.cc:100-107 | exactly the bytes asked for, or end of file, however few each read returns |
| NarStream.Source.Skip | src/libutil/serialise.cc:136-144 | passes over exactly the bytes asked for, or fails at end of file |
| NarStream.Source.ReadNum | src/libutil/include/nix/util/serialise.hh:426-438 | the number the specification reads, consuming the same bytes |
| NarStream.Source.ReadStr | src/libutil/serialise.cc:455-464 | the string the specification reads, or the same error |
| NarStream.Source.ReadPad | src/libutil/serialise.cc:444-453 | accepts zeros only |
| NarStream.DrainInto | src/libutil/serialise.cc:122-134 | hands the sink exactly the next bytes, in chunks of any size |
| NarStream.ParseFileContents | src/libutil/archive.cc:111-132 | contents read and checked, or skipped |
| NarStream.ParseDirectory | src/libutil/archive.cc:186-217 | the entry loop, its order check and its recursion, against the specification |
| NarStream.Parse | src/libutil/archive.cc:134-232 | one node: same result, same error, same bytes consumed, and the sink told exactly the events of that tree |
| NarStream.ParseArchive | src/libutil/archive.cc:234-246 | the whole archive, with the magic string's errors folded into one |
| MemoryTree.BuildNode | src/libutil/memory-source-accessor.cc:182-263 | the calls a parse makes build exactly the parsed tree in memory, however contents are chunked |
| MemoryTree.HangRun | src/libutil/memory-source-accessor.cc:9-68 | building below a directory entry leaves everything else of the tree alone |
| MemoryTree.HangOpen | src/libutil/memory-source-accessor.cc:26-67 | opening below an entry is opening in the subtree |
| MemoryTree.CreatingWhatIsThere | src/libutil/memory-source-accessor.cc:182-263 | creating where something stands keeps it if it is of the kind asked for and otherwise fails for that reason; nothing is replaced by another kind |
| MemoryTree.MemorySink.CreateNode | src/libutil/memory-source-accessor.cc:182-196 | creates or finds the node of the kind asked for, with the source's errors |
| MemoryTree.MemorySink.Handle | src/libutil/memory-source-accessor.cc:198-263 | one call on the sink has the specified effect on the tree |
| MemoryTree.RestoreToMemory | src/libutil/archive.cc:234-246 | parsing into memory returns the tree, consuming exactly its dump, or the parse's error |
| Capture.CaptureIsExact | src/libstore/local-store.cc:1042-1149 | the captured map has exactly the regular files and symlinks as keys, each with the digest of that node's own dump, for every chunking |
| Capture.RunTree | src/libstore/local-store.cc:1343-1426 | streaming a tree past the hasher adds exactly the specified digests and leaves no file open |
| Capture.FramingIsDump | src/libstore/local-store.cc:1042-1076 | the framing fed around a file's contents is its dump |
| Capture.LinkFramingIsDump | src/libstore/local-store.cc:1143-1149 | the framing of a symlink is its dump |
| Capture.CapturedIsPerNode | src/libstore/local-store.cc:1343-1426 | what is captured for a path depends on the node there alone |
| Capture.FileHasher.Handle | src/libstore/local-store.cc:1042-1149 | one event changes the per-file state as specified |
| Capture.FileHasher.Drain | src/libstore/local-store.cc:1173-1223 | events are handled in order until the queue is empty |
| Capture.ImportCapturing | src/libstore/local-store.cc:1431-1470 | parse and capture together: the tree's digests, or the parse's error |
| CanonicalRestore.EverythingCanonical | src/libstore/local-store.cc:1431-1470 | whatever the umask and however swaps fall between the restore's calls: the deferred list is the non-root directories in post-order, and stamping them and the root leaves every node canonical but the files a farm inode was swapped in for, which have that inode's metadata; so all is canonical exactly if every inode swapped in last below the root was |
| CanonicalRestore.CanonicalFarmIsEnough | src/libstore/local-store.cc:1083-1089 | with canonical inodes in the farm everything ends canonical, as the source expects |
| CanonicalRestore.TouchedInodeStays | src/libstore/local-store.cc:1083-1089 | and only then: for any import, one more swap of an inode whose time is not the store's leaves any finished file below the root like that |
| CanonicalRestore.TouchedInodeExample | src/libstore/optimise-store.cc:219-237 | a run that fails: a directory with one file, for which a touched farm inode is swapped in |
| CanonicalRestore.SwapsAreInvisible | src/libstore/local-store.cc:826-849 | up to the metadata of directories and of files swapped in, the outcome is that of the restore's calls alone |
| CanonicalRestore.SwapShowsInItsFile | src/libstore/local-store.cc:1083-1101 | whatever inode of the same kind and executable bit is swapped in over a finished file, only that file and its directory's time change |
| CanonicalRestore.RestoreCleans | src/libutil/fs-sink.cc:239-283 | the restore's own calls neither see nor change what was swapped in |
| CanonicalRestore.RestoreKeepsInv | src/libutil/fs-sink.cc:239-283 | finished files are canonical but for what was swapped in, and nobody writes to them any more |
| CanonicalRestore.QuietTree | src/libutil/fs-sink.cc:114-182 | restoring a tree makes exactly its nodes and defers its directories in post-order |
| CanonicalRestore.QuietFile | src/libutil/fs-sink.cc:239-283 | a file ends read-only, executable exactly if it was announced so, and stamped, under every umask |
| CanonicalRestore.PreservedFileMode | src/libutil/fs-sink.cc:43-51 | a umask that leaves the canonical bits alone creates files with their canonical mode |
| CanonicalRestore.PreservesExactly | src/libutil/fs-sink.cc:43-51 | the umasks under which nothing has to be put right are exactly those that leave an executable file its mode |
| CanonicalRestore.AndNotBits | src/libutil/fs-sink.cc:239-258 | a new node gets, bit by bit, what was asked for and the umask does not take |
| CanonicalRestore.EarlyStampIsLost | src/libstore/local-store.cc:869-873 | why directories are stamped last: each new entry and each swap in a directory undoes an earlier stamp of it, as writing does for a file, and of no other path |
| CanonicalRestore.DirsAreDirs | src/libstore/local-store.cc:1456-1469 | every deferred path is a directory of the tree in the end |
| CanonicalRestore.CanonicalisedStays | src/libstore/posix-fs-canonicalise.cc:14-40 | making a node canonical stamps it, changes neither its kind nor whether it can be executed, and need not be done twice |
| CanonicalRestore.StampedIsCanonical | src/libstore/posix-fs-canonicalise.cc:14-40 | stamping the deferred list and the root reaches every directory |
| CanonicalRestore.RestoreSink.Handle | src/libutil/fs-sink.cc:114-316 | one call of the restore has the specified effect on modes and times |
| CanonicalRestore.RestoreSink.SwapForFarmLink | src/libstore/local-store.cc:826-849 | link and rename over a finished file: the farm's inode, with whatever mode and time it has, takes its place |
| CanonicalRestore.RestoreSink.FinishDirs | src/libstore/local-store.cc:1463-1469 | the loop over the deferred directories, then the root |
| CanonicalRestore.ImportCanonical | src/libstore/local-store.cc:1431-1470 | a whole import, calls and swaps in any order: the canonical metadata with the inodes swapped in on top, and canonical exactly if those are |
| ExportImport.ImportUndoesExport | arch/import-path.cc:32-82 | importing an export into an empty store lands exactly the exported paths with their trees and reports them in order |
| ExportImport.BundleReadsBack | src/libstore/export-import.cc:54-64 | the same into any store, where paths already valid are left alone, whatever follows the bundle; a bundle with a path that has references lands up to that path and is refused there |
| ExportImport.ImportKeepsNames | arch/import-path.cc:51-76 | whatever a stream claims, and even if the import fails half-way, the store holds only paths equal to the name recomputed from their trees |
| ExportImport.ImportOnlyAdds | arch/import-path.cc:32-82 | no path valid before is touched, only reported paths are added, and every reported path is valid |
| ExportImport.OnlyBundlesImport | arch/import-path.cc:36-82 | nothing but a bundle is imported: an import that succeeds has read, byte for byte, its markers and for each path an archive, the magic number, the text of its name and no references; each path is the address of its own archive, and what is new in the store dumps to that archive |
| ExportImport.MarkersRefused | arch/import-path.cc:36-48 | any other marker is refused as no bundle, and any other magic number as too large or bad, whatever follows |
| ExportImport.MisnamedIsRefused | arch/import-path.cc:50-59 | a well-formed path is refused as misnamed exactly if it is not the address of its own tree |
| ExportImport.OneReadsBack | src/libstore/export-import.cc:25-52 | one exported path lands as it was, or is refused if it has references |
| ExportImport.ExportPath | src/libstore/export-import.cc:25-52 | prints the tree, its magic number, path and references, exactly if the path is valid, nests no deeper than the format allows, and has the recorded digest or none |
| ExportImport.ExportPaths | src/libstore/export-import.cc:54-64 | the loop prints the whole bundle exactly if every path can be exported |
| ExportImport.WriteStorePathSet | src/libstore/export-import.cc:18-23 | count and paths of the references |
| ExportImport.ExportedIsPortable | src/libstore/export-import.cc:25-52 | a path named by its recorded digest and exported successfully can be imported, its references aside |
| ExportImport.PathsReadBack | src/libstore/export-import.cc:9-23 | a printed reference set is read back as a set |
| ExportImport.Importer.ImportVerified | arch/import-path.cc:32-82 | the loop: store, paths, bytes consumed and error as specified |
| ExportImport.Importer.ImportPath | arch/import-path.cc:41-78 | one path: skipping parse, trailer, recomputed name, refusal of references, addition |
| ExportImport.Importer.AddToStore | src/libstore/local-store.cc:587-640 | a path already valid is left alone; otherwise the saved archive is parsed in full |
| ExportImport.Importer.ReadStorePathSet | src/libstore/export-import.cc:9-16 | the reference set |
| StorePath.PrintedPathParses | src/libstore/store-dir-config.cc:8-32 | printing and parsing a store path gives it back |
| StorePath.ParsedIsStorePath | src/libstore/path.cc:47-56 | whatever parses has an allowed base name |
| StorePath.ParsesExactly | src/libstore/store-dir-config.cc:8-32 | a string parses to a store path exactly if it is absolute and its canonical form is that path's printed form |
| StorePath.DotRuleSays | src/libstore/path.cc:15-32 | the rule on leading dots: the first dash-separated component is neither a dot nor a double dot |
| StorePath.HashCharsAreDigits | src/libstore/path.cc:51-53 | the characters allowed in the hash part are exactly the digits of base 32 |
| StorePath.StorePathIsComponent | src/libstore/path.cc:47-56 | an allowed base name is one path component exactly if the byte between hash and name, which nothing checks, is neither slash nor NUL |
| StorePath.AddressIsStorePath | src/libstore/store-dir-config.cc:43-63 | a content address is an allowed base name carrying its name |
| StorePath.FingerprintIsInjective | src/libstore/store-dir-config.cc:43-47 | the string whose digest names a path says name, digest and store directory without ambiguity |
| StorePath.MakeContentAddressedPath | src/libstore/store-dir-config.cc:43-63 | computes that address, or refuses the name |
| StorePath.CompressHash | src/libutil/hash.cc:184-191 | folds a digest byte by byte |
| StorePath.FoldedBit | src/libutil/hash.cc:184-191 | every bit of a folded digest is the parity of that bit over the bytes folded in |
| Hashes.PrintedParses | src/libutil/hash.cc:32-125 | every printed digest that names its algorithm parses back, in all three formats |
| Hashes.ParsesExactly | src/libutil/hash.cc:71-125 | only texts that name the algorithm parse: behind a colon by their length in one of three encodings, behind a dash in base 64, each to the digest its digits say |
| Hashes.RefusedBecause | src/libutil/hash.cc:106-121 | a missing type is reported exactly if there is no separator, and a wrong algorithm exactly if another name stands before the first one |
| Hashes.Nix32TextIsUnique | src/libutil/hash.cc:71-125 | a prefixed 52-character string parses to a digest exactly if it is that digest's printed form |
| Hashes.SriTextIsNotUnique | src/libutil/hash.cc:89-125 | every digest has a second prefixed 44-character base-64 text that parses to it |
| Hashes.LengthTellsBase | src/libutil/hash.cc:71-83 | the three encodings of a digest have different lengths and are told apart by them |
| Hashes.ToString | src/libutil/hash.cc:32-53 | the printed form, prefix and separator included |
| Hashes.ParseAnyPrefixed | src/libutil/hash.cc:89-125 | the digest or the reason it is refused, undecodable digits counting as a wrong length |
| Nix32.RoundTrip | src/libutil/base-nix-32.cc:20-71 | decoding undoes encoding for byte strings of every length |
| Nix32.DecodeIsInjective | src/libutil/base-nix-32.cc:42-71 | strings of one length that decode to the same bytes are equal |
| Nix32.DecodedBits | src/libutil/base-nix-32.cc:56-68 | every decoded bit is the digit's bit at its place, and resizing never cuts off a byte already written |
| Nix32.StepBits | src/libutil/base-nix-32.cc:56-68 | one step adds exactly one digit's bits |
| Nix32.DigitBits | src/libutil/base-nix-32.cc:31-37 | each digit holds the five bits from its position on, across the byte border |
| Nix32.LookupSymbol | src/libutil/base-nix-32.cc:8-18 | a symbol is looked up as the digit it stands for |
| Nix32.Encode | src/libutil/base-nix-32.cc:20-40 | the loop produces the specified digits, last first |
| Nix32.Decode | src/libutil/base-nix-32.cc:42-71 | the loop produces the specified bytes, or refuses the first bad character |
| Base64.RoundTrip | src/libutil/base-n.cc:52-112 | decoding undoes encoding for byte strings of every length |
| Base64.DecodesAlike | src/libutil/base-n.cc:93-109 | equally many digits decode alike exactly if they agree on the bits of whole bytes |
| Base64.DecodingIsNotInjective | src/libutil/base-n.cc:93-109 | so two different strings can decode to the same bytes |
| Base64.SecondText | src/libutil/base-n.cc:93-109 | every byte string whose length is no multiple of three has a second text of the same length and alphabet that decodes to it |
| Base64.Encode | src/libutil/base-n.cc:52-73 | the accumulator loop produces the digits of section 4 of RFC 4648, with padding |
| Base64.Decode | src/libutil/base-n.cc:75-112 | the accumulator loop produces all whole bytes up to the first '=', line feeds passed over |
| Base64.TakeIn | src/libutil/base-n.cc:58-60 | the accumulator holds the next bits after a byte or digit is shifted in, in 32 bits |
| Base64.GiveOut | src/libutil/base-n.cc:61-64 | the oldest bits come out, and the rest stays |
| Base16.RoundTrip | src/libutil/base-n.cc:13-47 | decoding undoes encoding |
| Base16.DecodesExactly | src/libutil/base-n.cc:24-47 | a text decodes to a byte string exactly if it is that string's encoding but for the case of its letters |
| Base16.Encode | src/libutil/base-n.cc:13-22 | two digits a byte |
| Base16.Decode | src/libutil/base-n.cc:24-47 | both cases accepted, anything else refused |
| CanonPath.CanonicalIsFixed | src/libutil/include/nix/util/file-path-impl.hh:71-127 | canonicalising a canonical path changes nothing |
| CanonPath.AbsIsInjective | src/libutil/include/nix/util/canon-path.hh:21-34 | a canonical string determines its components |
| CanonPath.ResolvedIsValid | src/libutil/include/nix/util/file-path-impl.hh:84-120 | whatever goes in, only proper components come out |
| CanonPath.PathRules | src/libutil/include/nix/util/file-path-impl.hh:84-120 | anywhere in a path an empty component and a dot mean nothing, a double dot takes back the proper component before it, and nothing at the root, and proper components are kept; this determines what any path comes to |
| CanonPath.FieldsJoin | src/libutil/include/nix/util/file-path-impl.hh:84-100 | a path's fields, joined by slashes, are the path, and none has a slash in it |
| CanonPath.IsWithinIsPrefix | src/libutil/canon-path.cc:75-80 | the string test decides containment of component sequences |
| CanonPath.RemovePrefixIsRest | src/libutil/canon-path.cc:82-90 | removing a prefix leaves the remaining components |
| CanonPath.AbsPathPure | src/libutil/include/nix/util/file-path-impl.hh:71-127 | the canonicalisation loop, dots and double dots included |
| CanonPath.CanonPath.Pop | src/libutil/canon-path.cc:69-73 | drops the last component |
| CanonPath.CanonPath.Push | src/libutil/canon-path.cc:109-117 | appends a component; the result is canonical exactly if the component is not empty or the path was the root, which the source does not check |
| CanonPath.CanonPath.Extend | src/libutil/canon-path.cc:92-100 | concatenates component sequences |
| CanonPath.CanonPath.Parent | src/libutil/canon-path.cc:62-67 | all but the last component, or nothing for the root |
| LruCache.UpsertEvictsTheOldest | src/libutil/include/nix/util/lru-cache.hh:73-96 | an insertion is found afterwards and removes at most one other key, the least recently used, exactly if all slots are taken by others |
| LruCache.TouchProtects | src/libutil/include/nix/util/lru-cache.hh:105-114 | a lookup changes only the order, and what it finds is not the next to go |
| LruCache.StaysBounded | src/libutil/include/nix/util/lru-cache.hh:73-96 | capacity and distinct keys are kept |
| LruCache.OrderedByLastUse | src/libutil/include/nix/util/lru-cache.hh:30-120 | after any run of stores, lookups, erasures and clearings the entries stand in the order of their last use, each with the value last stored, so what is evicted is what was used least recently |
| LruCache.LRUCache.Upsert | src/libutil/include/nix/util/lru-cache.hh:73-96 | map and list together are the bounded recency list after the insertion |
| LruCache.LRUCache.Get | src/libutil/include/nix/util/lru-cache.hh:105-114 | map and list together are the recency list after the lookup |
| LruCache.LRUCache.Erase | src/libutil/include/nix/util/lru-cache.hh:52-60 | the key is gone from map and list, and nothing else |
| LruCache.LRUCache.Clear | src/libutil/include/nix/util/lru-cache.hh:121-125 | empties both |
| DirFdCache.Accessors.OpenParent | src/libutil/posix-source-accessor.cc:278-329 | whatever the cache holds, the parent directory opened is the one a walk from the root opens, and an error is the error of that walk; afterwards a hit is touched, a walk in user space has cached the directories it passed but the last, openat2 none, and other accessors' caches are as eviction left them |
| DirFdCache.Accessors.RegisterAccessor | src/libutil/posix-source-accessor.cc:138-143 | a new accessor with an empty cache, the others and the count as before |
| DirFdCache.Accessors.OpenParentAndUpsert | src/libutil/posix-source-accessor.cc:331-351 | the same, and the parent itself is cached if it was opened |
| DirFdCache.Accessors.OpenIterative | src/libutil/file-system-at.cc:137-221 | the component loop opens what the walk opens, reports the symlink where it meets it, and caches exactly the directories passed but the last |
| DirFdCache.Accessors.FindAnchor | src/libutil/posix-source-accessor.cc:290-305 | the search ends at the deepest cached ancestor, or the root, with the right descriptor, and touches only that entry |
| DirFdCache.Accessors.MaybeEvictFromGlobalCaches | src/libutil/posix-source-accessor.cc:155-181 | afterwards the count is below the limit or no descriptor is cached, and it still is exact; caches are cleared in turn and none that need not be |
| DirFdCache.Accessors.InsertIntoDirFdCache | src/libutil/posix-source-accessor.cc:183-190 | count and caches grow together |
| DirFdCache.Accessors.InvalidateCache | src/libutil/posix-source-accessor.cc:232-239 | count and caches shrink together |
| DirFdCache.ParentOpens | src/libutil/file-system-at.cc:137-221 | the parent of a name opens exactly if it and all its ancestors are directories; otherwise the first that is not decides: missing, no directory, or a symlink, named as the kernel or the walk in user space would |
| DirFdCache.EvictsNoMore | src/libutil/posix-source-accessor.cc:155-181 | eviction clears the first few caches, each because the ones before it were not enough, and leaves the rest alone |
| DirFdCache.NearestIsDeepest | src/libutil/posix-source-accessor.cc:290-305 | no longer prefix of the path is cached than the one the search ends at |
| DirFdCache.KeptIsFound | src/libutil/posix-source-accessor.cc:331-351 | a parent that was kept is found the next time without a walk |
| DirFdCache.WalkInTwo | src/libutil/posix-source-accessor.cc:307-324 | a walk can be resumed from any directory it passes |
| Buffers.BufferedSink.Write | src/libutil/serialise.cc:52-74 | bytes delivered and bytes buffered are the bytes accepted, in order, and no empty chunk is ever delivered |
| Buffers.BufferedSink.Flush | src/libutil/serialise.cc:76-83 | everything buffered is delivered |
| Buffers.BufferedSource.Read | src/libutil/serialise.cc:146-161 | a read takes the next bytes, at least one if any was asked for, and fails exactly at end of file |
| Buffers.BufferedSource.SkipSeeking | src/libutil/serialise.cc:172-203 | seeking skips the next bytes, the buffer first, and unlike reading does not fail past the end |

## Left out

- Importers.RunsKeepStore: does not model the collector running at the same time, because it takes no path lock and the code does not exclude that race.
- Importers.RunsKeepStore: models a restore as one step from unfinished to whole, because what happens in between is only ever found unfinished; streams and their digests are in the archive and capture modules.
- PathLocks.Reachable: does not cover a crash that exposes a file, nor a wait cut short on a file without a token, neither of which the code survives; the modules on lock crashes and signals say exactly what they lead to.
- PathLocks.PathLocks.LockPaths: runs alone, so where the source would wait for another locker or retry for ever it returns and says so; waiting and retrying beside others are steps of the machine.
- LinkFarm.ContentKept: assumes that no two of the nodes in question collide under the digest.
- FarmCalls.EmptyFilesStayAlone: assumes the same of all nodes of the run and of the empty files.
- FarmCalls.BadEntryReplaced: nodes never change here, so an entry of another size than the file's only comes of colliding digests; files modified under the store are not modelled.
- LinkFarm.RunsKeepInv: leaves out the chmod of directories around a relink and the skipping of writable files, which move no name.
- Optimise.PassConverges: does not cover a store file that is linked into the links directory under a foreign name, which the pass leaves where it is, and covers a pass in which no system call fails for reasons of its own, so not a full disk and not too many links; the concurrent protocol covers those.
- Optimise.Optimiser.OptimiseStore: visits paths one after the other; the threads that share this work are in the link farm and thread pool modules.
- Collector.GarbageCollector.CollectGarbage: takes where a root link leads as a parameter, because resolving it is string handling; reserved space, progress and locking of temporary directories are not modelled.
- Collector.DeleteTree: does not model the estimate of bytes freed, nor making directories accessible first.
- ThreadPool.Reachable: takes the thread limit as given rather than from the hardware, and takes shutdown to be called by process and by the destructor only.
- SourceChannel.Reachable: covers one reader from its first start to stop; a write after that would start a second one.
- HashRing.Reachable: covers the threaded mode; without threads the handler is called directly.
- SwapPool.Reachable: takes a swap's success as given; what a swap does to the farm is in the link farm module.
- NarStream.DumpPath: sockets and fifos, which the printer leaves out, are not part of a tree here.
- MemoryTree.RestoreToMemory: contents are not limited by memory.
- CanonicalRestore.EverythingCanonical: takes a swapped inode's metadata as it was at the swap, so not as other users of the inode change it afterwards, and covers the restore that stamps as it goes; the walk for stores with default access lists, extended attributes, owners and fsync are not modelled.
- ExportImport.ImportUndoesExport: covers files whose size can be rounded up to a multiple of 8 in 64 bits, beyond which a skipping parse fails.
- DirFdCache.Accessors.OpenParent: over a tree that does not change; descriptors are known by their directory, and accessors are used by one thread.
- CanonPath.AbsIsInjective: the order of paths is not modelled; nothing here needs more than that names are ordered.
- Base64.Decode: error texts are not modelled, here and everywhere else.
- The database: a map of valid paths and a set of references, changed atomically; retries, statements and settings are left out.
- Verification of the store, permanent roots, temporary directories, settings, progress, logging, scheduling priority and the command-line programs around the pipeline.
