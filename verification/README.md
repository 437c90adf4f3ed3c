# Charliecloud in Dafny

Charliecloud builds and runs unprivileged containers. This project models five of
its mechanisms, and three small companions, and proves what they are for. Git, the
kernel, tar and the shell appear only as small abstract state machines.

| files | mechanism |
|---|---|
| `FileMetadata`, `RoundTrip`, `Worktree` | `git_prepare` and `git_restore`: making an image tree fit for Git and undoing that |
| `GitTree` | what Git stores, checks out, resets and cleans; commit, checkout, switching and rollback of image trees |
| `Records`, `FileListCommit`, `ListedTree` | the metadata record: what it says, when it can be updated instead of rebuilt, and what commits that are given a list of files store |
| `PlainNames`, `FitForGit` | the same in terms of names, modes and sizes alone; what preparing does to any tree at all |
| `RpmFiles`, `RpmStrip`, `PrepareEdges` | images with RPM database files, and other inputs on which restoring fails or gives something else |
| `BuildCache`, `MainLoop`, `Builds`, `CacheMachine` | the build cache over commits, branches and reflogs, and the Dockerfile main loop in its three cache modes |
| `Lasting`, `Again` | which commits can be found after each operation; the second build of a program executes nothing |
| `BaseImages`, `Histories` | FROM on images of which directory and branch differ, and histories that lead there |
| `Join` | the `--join` protocol: a semaphore, exclusive shared memory, a countdown |
| `Seccomp` | the generator of the seccomp BPF program, with a BPF interpreter |
| `Whiteouts` | layer flattening against the OCI Image Format Specification, "Image Layer Filesystem Changeset" |
| `CopyDir`, `Argv`, `Warnings` | COPY of a directory, the argument serialiser, the warnings buffer |

`dafny verify dfyconfig.toml` checks everything.

Where the original works in place, the model does: `Worktree` and `CacheMachine` hold
classes whose fields the methods reassign, `Whiteouts`, `Seccomp`, `Argv` and `Warnings`
work on arrays. Each method is proved equal to a function of the old state, and the
theorems are about those functions.

## What the code does not do

Each of these departs from what the documentation promises or a reader expects. The
model follows the code, and a lemma says exactly when.

- Hard links. A file whose first link `git_prepare` deletes (a FIFO, or a large file
  already in the large file store) has one link fewer, so its last link is not
  recognised as one. Groups come back exactly if no group that lies entirely in the
  tree loses its first link (`LinksRoundTrip`; `FifoPair` is an instance).
- Commits that are given a list of files update the record that is held. That gives the
  record of a full walk if and only if a walk of the unchanged tree gives the held one
  again (`CommitListed`): exactly if no FIFO or large file has more names than the record
  can stand (`ReproducesExactly`; `LargePair` is an instance), and after a checkout,
  besides, if symbolic links have kept their times (`Reproduces`). Restoring such a commit
  gives the image either way (`ListedRestores`).
- A large file whose name starts with `.git` is moved away and then renamed, which fails;
  preparing fails exactly if there is such a file that is not recorded as a link
  (`PreparedIsClean`).
- The last link to a FIFO or a large file is no link when the restored image is prepared
  again: it has all of its names in the image, and the first of them is deleted. If it is
  large and its name is special to Git, then preparing fails, although the first commit has
  succeeded (`PreparesAgain`). If it is a regular file called git.pickle, then it is stored
  the second time and was not the first time (`CommittedAgain`). `LargePairAgain` is an
  instance of both.
- Commits that are given a list of files add them under their own paths. A listed file in a
  directory whose name starts with `.git` is stored elsewhere, so its change is not
  (`CommitListedTree`; `ListedBelowGit` is an instance).
- Names that contain `.weirdal_`: `.gitX` beside `.weirdal_X` is renamed to the other's name
  (`EscapeCollides`). Other names stay apart (`EscapeInjective`).
- A directory that holds an RPM database file and nothing that Git stores is not there
  after a checkout, and restoring it fails: exactly then (`RpmRestore`, `HollowMeans`).
- A FROM that fails deletes the directories of its base image and of its target, whatever
  they held, and keeps their branches (`SurvivesFrom`). The next FROM on such an image
  takes its files from the branch and silently uses initial metadata
  (`AfterFailedFrom`).
- FROM reads the base image's metadata from its directory and its files from its branch.
  After a build that failed in the middle, the two can be different images
  (`AfterFailedBuild`). Variables merged at FROM (the ARG defaults and ARGs before
  FROM) are in no state ID. A stage agrees with plain execution on the branch's image
  exactly if what FROM loads and merges are the branch's own variables (`TornBase` when
  everything is executed, `BaseExactly` with hits). The model calls an image torn whose
  directory and branch may differ; `Transparency` does not build on torn images and says
  which ones a failed build tears.
- `branch_delete` keeps the tips of the branches that it deletes, not what is in those
  branches' reflogs only (`DeleteFindable`, both directions; `DeleteLoses` is a history
  in which a commit is lost, `NamedFindable` says what never is).
- `--join`: when the winner's command has ended, the other peers cannot join, as the manual
  warns: they fail exactly then (`JoinStep`), and both names stay (`OrphansLeak`).
- Whiteouts at the image root match nothing (`RootWhiteout`, `ObeyedExactly`).
- A system call number NR_NON in the mknod tables is emitted as the word 0xFFFFFFFF
  (`AbsentMknod`).
- `string_append` returns the length even when it writes nothing, unlike its comment; as
  a result nothing fits after the first message that does not (`Warn`). When the buffer
  is full to the last byte, the reprinting loop looks one byte too far (`Reprint`).

## Model

| member | source | states |
|---|---|---|
| GitTree.CheckoutRestores | lib/build_cache.py:787-825 | for every admissible tree on which preparing succeeds: commit it, check it out into a new work tree and restore in full, and it is the same tree, names, types, contents, modes, times, empty directories, FIFOs, large files, `.git*` names; hard link groups just when none is at risk |
| GitTree.SwitchRestores | lib/build_cache.py:1252-1262 | the same after switching a prepared work tree from any image to any other: nothing of the first stays |
| GitTree.RollbackRestores | lib/build_cache.py:1134-1143 | rollback of any directory that can be prepared, whatever an instruction left in it, gives the image of the last commit; the store gains exactly the large files of what was there |
| GitTree.CommittedAgain | lib/build_cache.py:1254-1257 | a restored image that is prepared again gives Git the tree of its own commit, whatever the new record says, if and only if no last link to a large file is called git.pickle |
| GitTree.RestoreThenSwitch | lib/build_cache.py:1252-1262 | build after build: restore any image, prepare it again, switch from its commit to any other and restore in full, and it is the other image, unless a last link to a large file is called git.pickle or `.git*` |
| RoundTrip.RoundTrip | lib/build_cache.py:465-506 | restoring, in full from any checkout that matches what was left, or quickly, gives the tree back |
| PlainNames.PlainRoundTrip | lib/build_cache.py:465-506 | the same for every tree whose siblings differ and whose names do not contain `.weirdal_`, whatever they are escaped to: afterwards every file has its type, content, time and mode with the owner's read bit, every directory its time and mode with the owner's three bits |
| PlainNames.PlainCheckout | lib/build_cache.py:787-825 | so does commit, checkout and full restore |
| RoundTrip.LinksRoundTrip | lib/build_cache.py:386-397 | hard link groups come back if and only if no group that is entirely in the tree has its first link deleted |
| RoundTrip.PreparedIsClean | lib/build_cache.py:398-422 | preparing succeeds if and only if no large file with a name special to Git has to be stored; then nothing is left that Git ignores or alters, no inode twice, and the files left are unchanged up to minimum permissions |
| RoundTrip.CommitKeepsTree | lib/build_cache.py:798-825 | preparing and then restoring quickly leaves the image as it was, symbolic links included, and its hard link groups just when none is at risk |
| Records.LargesStored | lib/build_cache.py:528-541 | preparing any tree adds to the store exactly the large names in its record, and changes nothing there |
| Records.RecordIs | lib/build_cache.py:338-422 | the record, file by file and without the walk: which files are links and to what, which are large and under what name |
| Records.PreparesAgain | lib/build_cache.py:401-420 | a restored image can be prepared, and so committed or switched, again if and only if no last link to a large file has a name special to Git |
| Records.Reproduces | lib/build_cache.py:1015-1029 | a walk of the restored tree gives the record that is held if and only if no link leads to a FIFO or a large file and symbolic links have kept their modes and times |
| Records.ReproducesExactly | lib/build_cache.py:386-416 | after a commit: if and only if each FIFO or large file has one name in the tree, or two that are all it has and the first of which is deleted |
| FileListCommit.CommitListed | lib/build_cache.py:1021-1027 | updating the held record for a list of files gives the record of a full walk if and only if that condition holds |
| ListedTree.CommitListedTree | lib/build_cache.py:812-817 | the tree of HEAD with the listed files added is the tree of a full commit of the changed image, if and only if each listed file is one that Git sees, or has the content and executable bit that it had |
| ListedTree.ListedBelowGit | lib/build_cache.py:812-817 | an instance: the change to a file in a directory called `.git*` is not in the tree of a listed commit |
| ListedTree.ListedRestores | lib/build_cache.py:798-825 | a commit that is given a list, checked out and restored in full, gives the changed image with its hard links, for every restored image, also when its record is not that of a full walk |
| FileListCommit.UpdatesArePrepare | lib/build_cache.py:1023-1025 | the same for two walks, any list of ordinary files |
| FileMetadata.EscapeCompatible | lib/filesystem.py:591-616 | an escaped name is one that Git can store |
| PlainNames.EscapeInjective | lib/filesystem.py:602-616 | names that differ and do not contain `.weirdal_` have escaped names that differ |
| PlainNames.EscapeCollides | lib/filesystem.py:602-616 | `.git` and `.weirdal_` before the same rest are escaped to one name |
| PlainNames.ReplaceFirst | lib/filesystem.py:613 | the first `.git` becomes `.weirdal_`, what is before it stays, and what is after it is treated likewise |
| PlainNames.RpmDbGlob | lib/build_cache.py:364 | a path is that of an RPM database file if and only if, written with slashes, it starts with `var/lib/rpm/__db.` |
| PlainNames.LargeNames | lib/build_cache.py:508-517 | large files have the same name in the store if and only if time, mode, size and path are the same |
| FitForGit.FitForGit | lib/build_cache.py:356-416 | whatever tree is prepared, if that succeeds it had no device files, and what is left on disk outside `ch/git` is regular files and symbolic links only |
| FitForGit.SocketDirectory | lib/build_cache.py:369-373 | a directory of sockets only is removed, and comes back empty with its time and mode |
| RoundTrip.EscapeKeepsPickle | lib/filesystem.py:602-616 | escaping neither makes nor hides the name of the metadata pickle |
| Worktree.Preparation.Prepare | lib/build_cache.py:287-422 | the recursive method that unlinks, moves and renames, with its loop over the entries, leaves exactly the tree, inodes, `hardlinks` and store that `PrepKid` says, errors included |
| Worktree.Preparation.PrepareFile | lib/build_cache.py:356-422 | the same for everything but directories |
| Worktree.Preparation.PrepareStored | lib/build_cache.py:398-422 | large files, FIFOs and names, and the state they leave |
| Worktree.Restoration.Restore | lib/build_cache.py:465-506 | the recursive method that links, copies, makes and renames leaves exactly what `RestoreKid` says, errors included |
| Worktree.Restoration.Make | lib/build_cache.py:473-490 | existence and name of one file |
| PrepareEdges.LargeSpecialName | lib/build_cache.py:401-420 | preparing a regular file, in any state of the walk, fails exactly if it is large, has a name special to Git and is not recorded as a link |
| PrepareEdges.LargePair | lib/build_cache.py:386-407 | two names of a large file: a link as long as the store lacks the file, a second large file after the first commit |
| PrepareEdges.LargePairAgain | lib/build_cache.py:386-420 | such a pair whose second name starts with `.git` can be committed once, and one whose second name is git.pickle stores another tree the second time |
| RpmFiles.RpmRestore | lib/build_cache.py:436-454 | for every otherwise admissible tree with RPM database files, the full restore after a checkout fails if and only if some directory is hollow |
| RpmStrip.RpmRestored | lib/build_cache.py:363-368 | and otherwise gives the image without these files: names, types, contents, modes, times, empty directories, FIFOs and large files, and hard links just when no group of the remaining names is at risk |
| RpmFiles.HollowMeans | lib/build_cache.py:436-454 | a directory is hollow if and only if it holds an RPM database file other than a FIFO and every other file below is a FIFO, a large file or a further link |
| RpmFiles.Ignored | lib/build_cache.py:363-368 | the files that are recorded as not to be restored are the RPM database files |
| PrepareEdges.RpmDirectory | lib/build_cache.py:363-368 | an instance: a directory of RPM database files is emptied and yet neither recorded as empty nor removed |
| PrepareEdges.RpmDirectoryFails | lib/build_cache.py:436-447 | so restoring that one after a checkout fails |
| PrepareEdges.FifoPair | lib/build_cache.py:413-416 | two names of a FIFO are an admissible tree whose links do not come back |
| FileListCommit.UpdateIsPrepare | lib/build_cache.py:598-607 | one file, anywhere in the tree: replacing its record is walking the changed tree |
| FileListCommit.ElsewhereKids | lib/build_cache.py:1021-1029 | a change in one inode does not show in the records of other files |
| BuildCache.FindSidExact | lib/build_cache.py:940-966 | a state is found at a findable commit that has it, and missed only if none has it; if the image's branch has it, the answer is a commit of the branch and the branch's other commits with it are below, and otherwise it is the youngest one |
| BuildCache.ParentFindable | lib/build_cache.py:619-627 | the findable commits are closed under parents, and a commit's parent carries the parent state ID |
| BuildCache.CommitInv | lib/build_cache.py:807-825 | a commit keeps the repository's invariant: ancestry, refs, work trees at their heads, large files in the store |
| BuildCache.CheckoutInv | lib/build_cache.py:1252-1275 | so does a checkout |
| BuildCache.ReadyInv | lib/build_cache.py:1088-1094 | so does ready() |
| BuildCache.CheckoutHead | lib/build_cache.py:1252-1275 | after a checkout the work tree is at the commit with its image; HEAD stays on its branch if it was there already, and is on the unready branch otherwise; other images are untouched |
| Lasting.CheckoutExactly | lib/build_cache.py:1252-1275 | checking out makes no commit findable or unfindable |
| Lasting.CommitExactly | lib/build_cache.py:807-825 | a commit makes itself findable and nothing unfindable |
| Lasting.ReadyExactly | lib/build_cache.py:1088-1094 | a commit stays findable through ready() if and only if it is reachable from something other than the image's tag and its unready branch's reflog |
| BuildCache.ReadyCleans | lib/build_cache.py:1088-1094 | after ready() neither the unready branch nor the tag of that name remains, and the branch is at HEAD |
| BuildCache.DeleteInv | lib/misc.py:59-74 | so does deleting an image |
| BuildCache.UndeleteInv | lib/misc.py:207-216 | so does undeleting one |
| BuildCache.DeleteUndelete | lib/misc.py:59-74 | delete and then undelete gives the branch back at the same commit, checked out, with the tag gone, and no commit or large file changed |
| BuildCache.DeleteFindable | lib/build_cache.py:742-768 | a commit stays findable through branch_delete if and only if it is reachable from something other than the deleted branches' reflogs and the overwritten tag |
| BuildCache.NamedFindable | lib/build_cache.py:742-768 | deleting an image loses nothing reachable from a branch, another image's tag or work tree HEAD, or HEAD's reflog |
| Histories.DeleteLoses | lib/build_cache.py:742-768 | a history from an empty cache after which deleting an image makes a commit unfindable |
| BuildCache.GcExact | lib/build_cache.py:968-996 | after garbage collection the commits are those at and below the root, branches, tags and HEADs, unchanged; the store holds exactly the large files that they name; branches, tags, images and HEADs are as they were, and no reflog entry is left |
| CacheMachine.EnabledCache.FindSid | lib/build_cache.py:940-966 | the search as loops, first over the branch and then over all commits: the answer is as in `FindSidExact` |
| CacheMachine.EnabledCache.Checkout | lib/build_cache.py:787-790 | worktree_add and restore in place: a work tree already at the commit keeps HEAD on its branch |
| CacheMachine.EnabledCache.Commit | lib/build_cache.py:798-825 | the new commit's parent is HEAD, the branch that HEAD is on follows, large files enter the store, nothing else changes |
| CacheMachine.EnabledCache.Ready | lib/build_cache.py:1088-1094 | ready() in place |
| CacheMachine.EnabledCache.BranchDelete | lib/build_cache.py:742-768 | branch_delete in place |
| CacheMachine.EnabledCache.Garbageinate | lib/build_cache.py:968-996 | enumerating the large files in use and deleting the others leaves what `GcExact` says |
| CacheMachine.EnabledCache.Delete | lib/misc.py:59-74 | delete for one image |
| CacheMachine.EnabledCache.Undelete | lib/misc.py:207-216 | undelete, or nothing and failure |
| CacheMachine.EnabledCache.UnpackDelete | lib/build_cache.py:1232-1245 | the directory goes, the branch stays |
| MainLoop.Transparency | lib/build.py:89-123 | from any sound cache a build, enabled or rebuilding, over any stages, succeeds if and only if plain execution does, leaves the same images (files and metadata without history) in storage and a sound cache; a failed one tears the image of its stage, and a failed FROM deletes the directories of base and target and tears those of them that have branches |
| Again.NothingAgain | lib/build.py:528-557 | after a successful build, in either mode and from any sound cache, building the same program again succeeds, makes no commit, ends without a miss and leaves the same images; no stage may build what is a base or a result before it |
| Again.FoundAgain | lib/build_cache.py:940-948 | a state at or below the tip of a branch, however deep, is found |
| MainLoop.SurvivesFrom | lib/build.py:1206-1222 | when a FROM fails, said before it runs; an image's directory survives it if and only if it succeeds or the image is neither base nor target; branches always stay |
| MainLoop.SurvivesRefused | lib/build.py:1206-1222 | when a FROM is refused before its base is sought, the directories of the base, if known, and of the stage before it go, and nothing else |
| MainLoop.StageDefaults | lib/image.py:41-50 | a stage starts with the variables set so far, under them the three defaults, and under those the base image's |
| MainLoop.HitRel | lib/build.py:555-557 | a hit happens only if nothing has missed in the stage, and at a commit of the image that execution would have made |
| MainLoop.NewHasNoChild | lib/build_cache.py:742-768 | a state that was not findable has no findable child once it is committed, so nothing hits after a miss |
| MainLoop.StartsFromParent | lib/build.py:111-117 | whenever an instruction executes, the directory holds exactly the previous instruction's image at its commit, through the one checkout at the first miss |
| MainLoop.FailedExecution | lib/build.py:114-118 | after a failed execution the cache is as it was but for large files in the store |
| MainLoop.FromRel | lib/build.py:1129-1222 | FROM closes the previous stage, finds, adopts or pulls its base and opens the same stage as the reference, or fails with it and deletes two directories |
| MainLoop.CloseRel | lib/build.py:299-302 | closing a stage checks out and makes ready the image that the reference has |
| MainLoop.AddBaseRel | lib/build_cache.py:1068-1086 | an adopted or pulled image becomes a commit below the root whose state ID stands for it |
| Builds.DisabledIsPlain | lib/build_cache.py:1374-1437 | building with the cache disabled is plain execution, also in what a failure leaves in storage |
| Builds.ModesAgree | lib/build_cache.py:1365-1437 | the enabled, rebuild and disabled modes succeed together and leave the same images |
| Builds.HistoryInStep | lib/build_cache.py:660-1143 | after any history of builds, failed builds, deletions, undeletions and garbage collections from an empty cache, the cache is sound and storage holds what plain execution of that history makes, torn images apart |
| BaseImages.PreFromVariables | lib/build.py:1199-1201 | one instruction on a known state: the result does not depend on the variables merged at FROM, and is plain execution's exactly if those make no difference |
| BaseImages.TornBase | lib/build.py:1182-1201 | a stage that executes its instructions agrees with plain execution on the branch's image, for all instructions, if and only if the directory, or the initial metadata, has that image's variables up to those merged at FROM |
| BaseImages.BaseExactly | lib/build.py:1182-1201 | with the cache, for all sound caches and all stages: if and only if the variables loaded and merged are the branch's own |
| Histories.AfterFailedFrom | lib/image.py:340-345 | a history from an empty cache: after FROM of an image on itself, the next build on it succeeds with another result |
| Histories.AfterFailedBuild | lib/build.py:114-118 | the same after a build that fails in the middle |
| Builds.GcKeeps | lib/build_cache.py:968-996 | garbage collection keeps cache and storage in step |
| CacheMachine.MainLoop.Visit | lib/build.py:89-123 | the loop body with its counters and prepare_rollback, on the cache object, does what `Visit` says |
| CacheMachine.MainLoop.PrepareRollback | lib/build.py:1206-1222 | the directories of base and image go, if they are known |
| CacheMachine.MainLoop.VisitStep | lib/build.py:528-557 | prepare, and on a miss the checkout at the first one, execution, metadata and commit |
| CacheMachine.MainLoop.Execute | lib/build.py:114-121 | execute, then metadata and commit, or rollback |
| CacheMachine.MainLoop.VisitFrom | lib/build.py:1129-1204 | FROM's preparation on the cache object |
| CacheMachine.MainLoop.Traverse | lib/build.py:289-302 | a whole traversal is `Build` |
| Join.SemaphoreExcludes | bin/ch_core.c:716-730 | in every run, with peers stopping anywhere, semaphore value plus holders is 1 |
| Join.OneWinner | bin/ch_core.c:464-477 | at most one peer wins |
| Join.LosersJoinTheWinner | bin/ch_core.c:276-291 | a loser that has read winner_pid, outside the lock, has read the winner's real PID; from then on it is about to join, or in the winner's namespaces, or has failed because the winner's command has ended |
| Join.WinnerIsSetUp | bin/ch_core.c:276-287 | before its PID is written, the winner is in namespaces of its own, and these can be joined until its command ends |
| Join.JoinStep | doc/ch-run.rst:333-338 | a loser's joining finds the winner's namespaces and puts it there, if and only if the winner's command has not ended |
| Join.DoneIsInside | bin/ch_core.c:268-293 | every peer that is done is in the winner's namespaces |
| Join.OrphansLeak | doc/ch-run.rst:340-343 | if a peer comes too late to join, both names stay |
| Join.NothingFails | bin/ch_core.c:502-508 | the check for 0 peers left and both unlinks never fail, nor does opening the shared memory |
| Join.Accounting | bin/ch_core.c:492-500 | once initialised, proc_left_ct is join_ct minus the peers that have decremented |
| Join.OnlyTheLastUnlinks | bin/ch_core.c:502-508 | each name is removed at most once, and only when join_ct peers have decremented |
| Join.Cleanup | doc/ch-run.rst:340-343 | a group that is done leaves no names behind if and only if join_ct was its size |
| Join.TagReusable | doc/ch-run.rst:321-325 | then the next group with the tag starts from the initial state |
| Join.NoDeadlock | bin/ch_core.c:490-516 | while nobody has stopped and somebody has something to do, some peer can step |
| Join.EveryoneFinishes | bin/ch_core.c:268-293 | if nobody stops, a run has at most 14 steps per peer and the ends of their commands, and can only end with all done and in the winner's namespaces, but for those that came after its end |
| Join.RunInv | bin/ch_core.c:452-516 | the protocol's invariant holds in every state of every run |
| Seccomp.Install | bin/ch_core.c:582-701 | the array-filling generator: no position assertion fails unless there are no architectures, a jump check fails exactly if the tables do not fit, and otherwise the program has the specified layout and precomputed length |
| Seccomp.EmitBlock | bin/ch_core.c:631-665 | one architecture's instructions, at the positions given by the counts |
| Seccomp.EmitJumpTable | bin/ch_core.c:645-652 | one entry per faked call that exists, with its jump |
| Seccomp.CountSyscalls | bin/ch_core.c:597-615 | the counts per architecture and the program's length |
| Seccomp.ProgramMeaning | bin/ch_core.c:626-696 | for all tables that fit and every call, the program returns fake success, the action 5 with error number 0, if and only if the first matching architecture fakes the number, or it is mknod or mknodat with a device mode; else allow |
| Seccomp.BlockMeaning | bin/ch_core.c:633-664 | one block decides the call if its architecture matches and else falls to the next |
| Seccomp.TailMeaning | bin/ch_core.c:671-696 | the shared handlers, from each of their entry points |
| Seccomp.FileType | bin/ch_core.c:691-693 | masking with S_IFMT and comparing is testing the file type bits |
| Seccomp.JumpsInRange | bin/ch_core.c:636-664 | every jump of the blocks is forward and lands in the program |
| Seccomp.FitsExactly | bin/ch_core.c:128-130 | the limit that the source leaves uncomputed: the tables compile if and only if the sum of (calls + 6) is at most 258 (256 or 257 with fewer than two calls or architectures) |
| Seccomp.AbsentMknod | bin/ch_core.c:653-661 | where NR_NON in the mknod tables departs from "no such call", exactly |
| Whiteouts.WhiteoutRmPrefix | lib/image.py:625-642 | pruning in place, and the count of ignored members |
| Whiteouts.ResolveLayer | lib/image.py:648-666 | one layer's whiteouts leave the layer and prune the ones below |
| Whiteouts.WhiteoutsResolve | lib/image.py:644-669 | all of them |
| Whiteouts.UnpackLayers | lib/image.py:525-540 | resolving and then extracting everything gives what applying the layers one at a time gives, and at every path what the topmost layer with something to say about it says |
| Whiteouts.FlattenIsSequential | lib/image.py:525-540 | the same about the functions, for every number of layers |
| Whiteouts.SequentialAt | lib/image.py:525-540 | at every path there is the file of the topmost layer that lists it, unless something above whites it out or replaces a directory on the way; no extraction in the statement |
| Whiteouts.MemberExtracted | lib/filesystem.py:1391-1431 | a member is extracted whole to its path, if nothing later in its layer and no layer above lists the path, lists a non-directory above it, or whites it out |
| Whiteouts.OnlyMembersExtracted | lib/image.py:525-540 | nothing is at a path that no layer lists |
| Whiteouts.ApplyAt | lib/filesystem.py:1391-1431 | one member, path by path: its own, those below it unless it is a directory, and all others |
| Whiteouts.WhiteoutNames | lib/image.py:653-666 | which path and which string prefix a whiteout is about, by its name |
| Whiteouts.DelExtract | lib/image.py:636-641 | extracting what is not under a path is extracting everything and deleting the path |
| Whiteouts.LayerPutsBack | lib/image.py:658-661 | the opaque directory itself, pruned too, is put back by its own layer |
| Whiteouts.DelApply | lib/filesystem.py:1391-1431 | extraction with its clobbering and deletion of a path commute, or deletion absorbs the member |
| Whiteouts.ParentsPresent | lib/filesystem.py:1416-1421 | whenever a member is extracted, everything so far is in a directory, and the member's parent is there and a real directory: pruning never takes the parent of a member that it spares |
| Whiteouts.SequentialPresent | lib/filesystem.py:1416-1421 | the same of the reference, at every member of every layer |
| Whiteouts.RelistedLink | lib/filesystem.py:1416-1431 | a layer that lists something below what it has made a link is no valid layer: the model would have a file below a file |
| Whiteouts.PrefixPathIsPrefix | lib/charliecloud.py:825-828 | on normalised names the string test is the test on path components |
| Whiteouts.RootWhiteout | lib/image.py:653-666 | a whiteout at the image root is obeyed if and only if it had nothing to hide |
| Whiteouts.ObeyedExactly | lib/image.py:653-666 | pruning obeys a whiteout for all lower members if and only if it is not at the image root |
| Whiteouts.RemoveAt | lib/charliecloud.py:268-300 | removing a member from an ordered set keeps the others in order |
| CopyDir.Destination.CopySrcDir | lib/build.py:856-917 | the walk that edits dirnames and removes what is in the way gives, path by path, the overlay of source on destination, and fails exactly if the source has a file of another kind |
| CopyDir.Destination.MakeDirs | lib/build.py:877-903 | directories of one level, symbolic links to directories handled as files |
| CopyDir.Destination.CopyFiles | lib/build.py:904-917 | files of one level |
| CopyDir.CopyTwice | lib/build.py:856-917 | copying the same directory again changes nothing |
| Argv.CopyArgument | bin/ch_misc.c:80-122 | the copy loop writes the escaped argument, terminated, within 2 * strlen + 3 bytes, and decides on quotes |
| Argv.ArgvToString | bin/ch_misc.c:72-143 | the whole serialiser |
| Argv.Recovered | doc/ch-run.rst:726-742 | a reader that splits at unquoted single spaces and drops quotes and backslashes recovers every non-empty list of arguments |
| Argv.Unchanged | doc/ch-run.rst:734-736 | an argument is logged unchanged if and only if all its bytes are letters, digits or one of + , - . / : @ _, which are the printable ones neither white space nor special to the shell; any other is escaped and quoted |
| Argv.EscapeByte | doc/ch-run.rst:726-742 | exactly the five bytes special within double quotes get a backslash |
| Warnings.Buffer.Warn | bin/ch_misc.c:653-656 | after any messages the buffer holds the longest prefix of them that fits, each terminated, and zeros |
| Warnings.Buffer.StringAppend | bin/ch_misc.c:839-851 | what is written, and the length returned either way |
| Warnings.Buffer.StringsCount | bin/ch_misc.c:160-174 | the count is the number of messages kept |
| Warnings.Buffer.Reprint | bin/ch_misc.c:853-872 | exactly the kept messages in order, and a look past the end exactly if the buffer is full to the last byte |
| Warnings.FittingPrefix | bin/ch_misc.c:843-851 | the kept messages are the longest prefix that fits |

## Left out

- RoundTrip: no devices, sockets or RPM database files (for these see `RpmFiles` and `RpmStrip`); no siblings with the same escaped name, for which `PlainRoundTrip` and `PlainCheckout` have a condition on the names themselves. Of sockets only `FitForGit` and `SocketDirectory` speak. `ch/git` and `ch/git.pickle` are outside the tree.
- GitTree: of permissions Git keeps the owner's executable bit; names starting with `.git` are all ignored, also when they are listed, where Git ignores only `.git` and would add others beside the names they are stored under; checkout has no local changes to refuse; index, attributes and ignore files are not modelled.
- GitTree.RollbackRestores: what cannot be prepared cannot be rolled back; a preparation that fails leaves the directory partly prepared.
- RoundTrip: the large file name is taken to determine the content, which it does not (it hashes mtime, mode, size and path).
- RoundTrip: symbolic links keep their target; their modes and times are not restored after a checkout. Extended attributes, atime, ctime and owners are not modelled.
- Worktree.Preparation.Prepare: the directory tree is passed and returned as a value, in listing order, so renaming onto an existing sibling is not modelled; inodes, `hardlinks` and the store change in place.
- Worktree.Restoration.Restore: link(2) targets are looked up in a table of restored paths, which `RoundTrip` proves to be the tree's own.
- FileListCommit.UpdateIsPrepare: the file exists before, has one link and is readable by its owner; `update` does not widen permissions as a full walk does.
- RpmFiles.RpmRestore: preparing succeeds.
- RpmStrip.RpmRestored: every name in the tree is counted in its file's link count, as in any real tree.
- ListedTree: HEAD is the commit of the image that was restored, and the index is that of HEAD; ch/git.pickle is outside the tree.
- Again.NothingAgain: a program that builds an image after having used it as a base; the second build then has another base.
- BuildCache: the order in which one Git search reports several commits of one state (newest first here), short hashes, automatic garbage collection, HEAD of the bare repository, storage locking and concurrent ch-image processes.
- MainLoop: parsing, variable substitution, magic ARGs, --force-cmd and bind options; what an instruction does is a parameter, a function of its state ID input and the parent image, which for COPY leaves out file contents as the code's hash does.
- MainLoop: preparing, committing and Git's own commands succeed, among them the checkout in unpack_delete; `PreparedIsClean` says when preparing does.
- MainLoop: history, which is appended on misses only, is carried along but not compared.
- MainLoop: an image that is imported must be what its state ID stands for; that state ID names the reference only.
- Builds.DisabledIsPlain: what a failed instruction leaves in its own image's directory, which the disabled cache does not roll back.
- Pulling eagerly (`ch-image pull`), resetting the cache and branches made without a checkout are not commands of `HistoryInStep`.
- Join: at most join_ct peers, at least one; timeouts are peers that stop; a peer that stops keeps what it holds. Setting up and joining the namespaces are single steps, namespaces are known by the PID of their creator, and PIDs are not reused. The retries of setns(2) are not modelled.
- Seccomp: the program length is below 65,536, as the kernel's 16-bit field needs; the mode is the 32-bit word at the given offset; loading the filter and trying it out are not modelled.
- Whiteouts: distinct layers, normalised plain names, each layer lists the directories on the way to its members and whiteouts before them and has not listed them as anything else since (extraction through a link within one layer is not modelled, see `RelistedLink`), the root only as a directory, no hard links or devices, no `--last-layer`. Times of directories that change by deletion in the sequential reading are not compared.
- CopyDir: times are not modelled; symbolic links in the destination do not dangle; resolving the destination path and copying single named files are left out.
- Argv: an empty list of arguments, for which the code returns a null pointer.
- Warnings: messages are not empty; formatting and shared memory between processes are left out.
- Registry access, authentication, push, tarball validation, namespaces, mounts, FUSE, fakeroot configuration and the command line: no provable logic of their own here.
