# A verified model of mariabackup-keeper

mariabackup-keeper takes database backups, places each generation at several destinations, keeps the newest
`keep` of them at each one and deletes the rest. It has no ledger: what a destination holds is read off its
directory names and the presence of `meta.json`. Every guarantee therefore follows from the order in which
`store`, `list_backups`, `select_purge` and `delete` change directories, and from what a failure or a crash
between two of those changes can leave behind. This project models that, and proves it.

## How the model is built

- `Order`, `Retention`: the order of backup ids, "the newest k", and `select_purge` as a loop proved equal to a
  plan whose meaning is proved separately.
- `Layout`, `Purging`: a destination directory as a map from names to file maps; which names a delete reaches;
  what carrying out a plan spares, leaves and destroys.
- `Placement`: the placement protocol as a labelled transition system with one step per file-system effect. `Stop`
  is an error return or a crash. Its invariant is proved for every step and every behaviour.
- `Recording`: the node as a whole, and the ghost `Past` that holds every state it has been in. A crash point is one
  of its moments. Every stretch of a past made by the code is proved to consist of single protocol steps.
- `Destinations`: class `Host`, the node with its work directory and its destination directories. Its methods are
  the real loops of the local backend. Every effect goes through `Do`, which demands a step of the protocol, and
  extends the ghost `past`. `faults` logs the errors that operations report. `hitches` counts file-system calls that
  fail, each of which may fail at any time; clauses of the form "fails only if `hitches` grew or ..." say exactly when
  an operation must succeed.
- `Purger`, `Runner`, `Pipeline`: `purge`, the storing and purging loops of `run`, and `run` itself with its exit code.
  Promises about every moment are recursive predicates over a past (`SafeSince`, `RetainSince`); `SafeAt` and
  `RetainAt` read them off at any single moment.
- `History`: any number of runs and purges one after another, each perhaps cut short at any moment.
- `Locking`: any number of processes contending for the lock file, whose joint doings are one past of the node; and
  two writers without the lock, which break the invariant.
- `Manifest`: civil dates, UTC normalisation and the fixed-width text of a backup id.
- `Paths`: paths as pathlib reads and joins them, and the places they lead to when `..` is walked.
- `FileTree`, `TreeStore`, `Addresses`: the node's files by absolute place, and where the generation of every possible
  id ends up. This is where ids count that lead out of the directory they are joined to; `StoreAtBase` ties it to the
  protocol wherever they do not.
- `Text`, `SshOutput`, `SshListing`: the text of the remote listing, what is read back from it, and how that compares
  with the local listing of the same directory.
- `SshStore`: class `Remote`, the rsync transfers with retries and the remote `mv` and `rm`. What the network does
  is a parameter (`Session`), so that success is stated with an if and only if.
- `SshPurging`: retention by the remote listing, and runs of the ssh code after which it takes a good generation.
- `Config`: validation of the destination list, what the pipeline relies on, and which clashes with the work directory
  are caught.

What the code computes with is also stated without the functions it is computed by: which files a stored generation
holds (`Copied`, `Delivered`), which generations a plan deletes (`ByGrace`, `ByRank`, `GraceKept`), what a listing says
(`ListsDirs`, `SshListedAs`), what the text of an id says (`Says`) and what a destination is configured to
(`SaysTheSame`) are spelled out in plain names and numbers and proved of the operations.

`past`, `trace`, `faults` and `hitches` are ghost: they record what happens and influence nothing.

## What the code does where it differs from its documentation

- `docs/design.md` says that a generation is complete if and only if its directory does not end in `.partial` and
  holds `meta.json`, on both backends. The remote script tests for `meta.json` first, so an ssh destination reports
  a `.partial` directory that already holds `meta.json` as complete, under its suffixed name. `SshCompleteIff` gives
  the exact condition, `SshLosesIff` exactly which complete generations a purge over ssh therefore takes, and
  `FailedMove` a run of the code that ends there: one failing `mv`, and the next purge that keeps one generation
  deletes the only complete one.
- `docs/design.md` calls the final rename atomic on both backends. A remote `mv` onto an existing directory moves
  the partial directory into it; `store` then returns normally, and `StoredIsCompleteIff` says when the result is a
  complete generation. `MoveIntoDirectory` is a run in which it is not.
- `docs/design.md` calls `store` a no-op when the generation is complete. Over ssh any failure of the probing command
  itself reads as "not there", and the transfer starts beside the complete generation (`SshStoreCoexistsIff`);
  `UnansweredProbe` is a run in which that costs the complete generation at the next purge.
- The remote listing is text, one line per directory. A directory name with a line break is lost or read as another
  id: `BrokenNameIsLost`, and `BrokenNameIsHazard`, in which the id read is empty and its deletion takes everything.
  `ListingsAgreeIff` is the exact condition under which both backends list a directory alike.
- The prefix of backup ids may hold any character, and ids are joined to directories as paths. `PrefixDecides` says for
  which prefixes a run that raises nothing leaves its generation listed: relative ones with nothing but dots before the
  last slash. With a leading slash an id leads to the same place from everywhere, every local store takes the run's own
  directory for a finished copy, and the run ends with code 0 and the generation nowhere
  (`AbsolutePrefixLosesAll`). With another directory part it is put below a name that the listing takes for something
  else, and that a purge removes once it has expired (`SlashedIdIsBelow`, `SlashedIdIsLost`). `ListedIff` covers ids
  with `..` as well.
- A new generation whose id is older than what a destination holds is purged at once. `SurvivesIff` says exactly when it
  is still somewhere at the end of a run that returned 0.
- A directory named `.partial`, `..partial` or `...partial` is listed with an id that is empty or made of dots; deleting
  that id removes the whole destination. `SparesKeptIff` is the exact condition under which a plan leaves every kept
  generation alone; `DotPartialIsHazard` is a concrete directory for which it fails, although the invariant that the
  protocol keeps holds of it.
- The check that a local destination is not the work directory compares the normal form of one path with the text of
  the other. `WorkDirCaughtIff` says exactly when it strikes, `SamePlaceCaughtIff` which paths to the work directory
  it catches, and `DetoursSlipThrough` that `/w/`, `/a/../w` and a relative `w` get past it. What that costs is
  `WorkDirLosesAll`: a run over that one destination returns 0 and leaves no generation at all.
- `run` with no destinations would return 0 and drop the only copy. The configuration guarantees at least one
  (`AcceptedConfigServesPipeline`), which is why the safety of the new generation asks for it.

## Model

| member | source | states |
|---|---|---|
| Order.NewestCount | src/mariabackup_keeper/retention.py:40-41 | the newest k of a set number exactly min(k, size) |
| Order.NewestCompose | src/mariabackup_keeper/retention.py:37-41 | trimming to the newest k before adding more ids gives the same newest k in the end: the step that lets runs compose |
| Order.LessMeans | src/mariabackup_keeper/retention.py:37 | ids compare as text does: by the first place where they part, or by which one ends there |
| Retention.NewestFirstSorts | src/mariabackup_keeper/retention.py:37 | the sort is a descending permutation of its input |
| Retention.SelectPurge | src/mariabackup_keeper/retention.py:22-50 | the loop computes the plan of the lemmas below; in plain numbers: an incomplete generation is deleted iff it is not in progress and was last touched at least `graceHours` times 3600 seconds ago, a complete one iff at least `keep` complete ones have greater ids, and what is not deleted is kept |
| Retention.PlanPartitions | src/mariabackup_keeper/retention.py:37-50 | keep and delete split the multiset of listed ids exactly |
| Retention.PlanKeepsNewest | src/mariabackup_keeper/retention.py:40-41 | kept complete rows number min(keep, all) and none is older than a dropped one, even with repeated ids |
| Retention.KeptAreNewest | src/mariabackup_keeper/retention.py:40-41 | with distinct complete ids the kept ones are exactly the newest `keep` |
| Retention.PlanDeletes | src/mariabackup_keeper/retention.py:41-48 | an id is deleted iff it is complete and not among the newest `keep`, or incomplete, out of its grace period and not in progress |
| Retention.PlanIgnoresListingOrder | src/mariabackup_keeper/retention.py:37-50 | permuting the listing changes neither side of the plan as a multiset |
| Retention.PlanMonotone | src/mariabackup_keeper/retention.py:22-50 | a larger `keep`, a longer grace period or an earlier clock can only shrink the deleted multiset |
| Layout.RowsMember | src/mariabackup_keeper/destinations/local.py:58-72 | a row is listed iff some directory has it as its row |
| Layout.RowsComplete | src/mariabackup_keeper/destinations/local.py:58-72 | the complete rows are the unsuffixed directories holding meta.json, each once |
| Layout.RowsListDirs | src/mariabackup_keeper/destinations/local.py:58-72 | one row for each directory and for nothing else: the name less eight characters and incomplete when it ends in `.partial`, else the name and complete iff `meta.json` is there, always with the directory's own time |
| Layout.PlacedIsCopied | src/mariabackup_keeper/destinations/local.py:46-49 | what is placed is, path by path, the source without everything named meta.json but the one at the top, contents unchanged |
| Purging.DeletedIds | src/mariabackup_keeper/orchestrator.py:264-277 | which ids a plan deletes, read off the directory itself |
| Purging.SparesKeptIff | src/mariabackup_keeper/orchestrator.py:281-287 | carrying out the plan leaves every kept generation alone iff no expired suffixed directory names one of them or names the destination itself |
| Purging.PlanIsSafe | src/mariabackup_keeper/destinations/local.py:74-83 | although `delete(id)` removes `id` and `id.partial`, the invariants of the store make every plan safe |
| Purging.HazardDestroys | src/mariabackup_keeper/destinations/local.py:74-83 | what the hazard costs: its generation, or everything at the destination |
| Purging.DotPartialIsHazard | src/mariabackup_keeper/destinations/local.py:62-64 | a concrete directory on which the hazard is real |
| Purging.AfterPurge | src/mariabackup_keeper/orchestrator.py:279-291 | after all planned deletions the complete generations are exactly the newest `keep` when the plan is safe, never more, and nothing expired is left |
| Purging.PurgeConverges | src/mariabackup_keeper/orchestrator.py:264-291 | planning again at the same time after a failure-free purge deletes nothing |
| Placement.StepKeepsInv | src/mariabackup_keeper/destinations/local.py:35-83 | every effect of `store` and `delete`, and stopping anywhere, keeps: no complete `id` beside `id.partial`, faithful contents, what the writer has done so far |
| Placement.BehaviourKeepsInv | src/mariabackup_keeper/destinations/local.py:35-83 | the same in every state of every behaviour of one writer |
| Placement.PromisesAreGiven | src/mariabackup_keeper/destinations/local.py:46-50 | what a generation is recorded to hold is what it held at first or a copy, file by file, of what some earlier `store` was given |
| Placement.EveryObservation | src/mariabackup_keeper/destinations/local.py:40-50 | whatever an unlocked reader sees listed complete has no partial sibling and, unless a deletion that reaches it has begun since it was placed, is a copy, file by file, of what was given to some `store` of it, or what it was at first |
| Recording.PastRefinesPlacement | src/mariabackup_keeper/destinations/local.py:35-83 | each destination's view of what the imperative code does is a behaviour of the protocol |
| Recording.SoundThroughout | src/mariabackup_keeper/destinations/local.py:35-83 | the invariants hold at every moment of what the code does |
| Recording.CrashLeavesSound | src/mariabackup_keeper/destinations/local.py:35-83 | wherever a crash falls, the directories it leaves are ones the next run can start from |
| Destinations.Host.Store | src/mariabackup_keeper/destinations/local.py:35-52 | for an id that leads to one entry: a complete generation is left untouched; otherwise success commits exactly the placed files and removes the partial directory, failure leaves the final name as it was, in between only the partial directory changes; it fails only on a failing call, a non-empty final directory or a file in the partial's place, and always on the last two; what it commits has exactly the files of the source outside nested meta.json, with their contents, and all other entries are untouched |
| Destinations.Host.FillPartial | src/mariabackup_keeper/destinations/local.py:40-49 | success means that the data and then meta.json are in the partial directory; no other name is touched |
| Destinations.Host.CopyTree | src/mariabackup_keeper/destinations/local.py:46 | files are copied in any order, a failed file does not stop the others and makes the copy fail |
| Destinations.Host.Rename | src/mariabackup_keeper/destinations/local.py:50-52 | the rename happens only onto an absent or empty directory; otherwise the store fails and the final name is unchanged |
| Destinations.Host.Delete | src/mariabackup_keeper/destinations/local.py:74-83 | success removes both names and nothing else; at every moment entries only lose files and only under those names; fails only on a failing call, on a plain file with one of the names, or because the id is `..`, and always on the last two |
| Destinations.Host.RemoveTree | src/mariabackup_keeper/destinations/local.py:77-83 | file by file in any order; success removes exactly that entry |
| Destinations.Host.ListBackups | src/mariabackup_keeper/destinations/local.py:54-72 | the loop lists every directory once with its stripped id, completeness and time, and fails on a missing destination; in plain terms as `RowsListDirs` says |
| Purger.DeleteChangeTrims | src/mariabackup_keeper/orchestrator.py:281-291 | any partial execution of a safe plan leaves the newest `keep` generations untouched and creates no complete one |
| Purger.DeletePlanned | src/mariabackup_keeper/orchestrator.py:279-291 | every planned id is attempted once and is either reported deleted, and gone, or logged as failed; reports are a subsequence of the plan; a failure does not stop the rest |
| Purger.PurgeOneDestination | src/mariabackup_keeper/orchestrator.py:253-296 | follows the plan for the listing it saw, touches no other destination, trims at every moment, ends with exactly the newest `keep` when nothing failed; a dry run changes nothing and reports the ids a failure-free purge deletes |
| Purger.Purge | src/mariabackup_keeper/orchestrator.py:195-217 | one truthful result per destination asked for, by name and in order, others untouched, PURGE_FAILED iff some listing or delete failed, each clean destination exact, success when no call fails; partial directories within their grace period stay as they are and older ones go |
| Purger.PurgedKeepsGrace | src/mariabackup_keeper/retention.py:43-48 | a purge leaves a partial directory in progress or touched within the grace period as it is, and a clean one removes it otherwise, when nothing else goes by its name |
| Runner.StoreToDestinations | src/mariabackup_keeper/orchestrator.py:325-344 | outcomes in configuration order, stopping early only under abort right after the first failure; stored iff no store fault; failed destinations keep the final name as it was; with none in the way every store succeeds unless a call fails |
| Runner.PurgeStoredDestinations | src/mariabackup_keeper/orchestrator.py:299-322 | purges exactly the destinations that stored, found by their unique names, and leaves the others untouched |
| Runner.RemoveWorkTree | src/mariabackup_keeper/orchestrator.py:146 | removes one work directory and touches no other; it stays, without an error, iff some call failed |
| Runner.CleanupStaleWorkDir | src/mariabackup_keeper/orchestrator.py:347-353 | keeps this run's directory as it is and, unless a call fails, removes all others; no destination changes |
| Runner.TakeBackup | src/mariabackup_keeper/orchestrator.py:88-123 | after cleanup the run's directory holds the files of the tool, byte for byte, and meta.json with its text, and nothing else; no destination changes |
| Pipeline.StoringIsSafe | src/mariabackup_keeper/orchestrator.py:127-129 | at every moment of the storing loop the new generation is in the work directory and every destination keeps what it is due |
| Pipeline.PurgingIsSafe | src/mariabackup_keeper/orchestrator.py:146-149 | once some destination stored, the same holds at every moment of the purges, whatever part of them happens |
| Pipeline.SurvivesPurge | src/mariabackup_keeper/orchestrator.py:146-149 | a generation newer than all others at its destination outlives the purge there, so dropping the work copy is safe |
| Pipeline.ExitDecided | src/mariabackup_keeper/orchestrator.py:128-156 | the decision yields 7 iff nothing stored, 8 iff some stored and some failed, 9 iff all stored and a listing or delete failed, 0 iff every configured destination stored and nothing failed |
| Pipeline.Conclude | src/mariabackup_keeper/orchestrator.py:128-165 | the rest of the run: nothing happens after a total failure, the exit code is exact, every moment is safe, and what each destination ends with |
| Pipeline.Run | src/mariabackup_keeper/orchestrator.py:77-165 | from meta.json to the return, at any crash point and under both policies, the new generation, when its id is newer than all stored (`LaterRunIsFresh`), exists in full somewhere; no destination ever loses a generation it is due; exit codes are exact; 0 leaves exactly the newest `keep` everywhere; 7 leaves the work copy; a failed backup changes no destination; with nothing in the way and no failing call the code is 0 and the work directory is empty; at 0, a name not there before is somewhere in the end iff some destination wants it among the newest `keep`; for ids that lead to one entry, which `PrefixDecides` shows to be the ones that can be listed; a destination that wants the new generation and had none of its name ends with every file of the tool, byte for byte, with meta.json, and nothing else under that name |
| Pipeline.SuccessIsFinal | src/mariabackup_keeper/orchestrator.py:151-156 | exit code 0 means exactly the newest `keep` of what was there and the new id, at every configured destination |
| Pipeline.SurvivesIff | src/mariabackup_keeper/orchestrator.py:146-165 | once the work copy is gone and all purges went well, the new generation is still somewhere iff it is among the newest `keep` at a destination that stored it |
| Pipeline.WantedIsDelivered | src/mariabackup_keeper/orchestrator.py:127-165 | a destination that stored the generation and has it among the newest `keep` holds all of it at the end, whatever its purge met |
| Pipeline.PurgeRetains | src/mariabackup_keeper/orchestrator.py:195-217 | every moment of a standalone purge satisfies the same retention promise as a run |
| History.RetainsCount | src/mariabackup_keeper/orchestrator.py:299-322 | a destination that had n complete generations has at least min(keep, n) at every moment |
| History.HistoryRetainsNewest | src/mariabackup_keeper/orchestrator.py:77-217 | over any history of failing or crashing runs and purges, the newest `keep` of all generations ever complete are still there, and all that is there was there at first or stored |
| History.EveryHistoryRetains | src/mariabackup_keeper/orchestrator.py:77-217 | the same for every destination of a history of whole runs and purges, with the count that is never undercut |
| History.HistoryIsExact | src/mariabackup_keeper/orchestrator.py:77-217 | when every run and purge returns 0 each destination holds exactly the newest `keep` of all it held at first and all ids ever stored |
| History.CrashesAreHistory | src/mariabackup_keeper/orchestrator.py:77-217 | runs and purges cut short at any moment, each started on what the one before it left, are such a history, and each leaves directories that the next can start from |
| History.RunAll | src/mariabackup_keeper/orchestrator.py:77-217 | any list of runs and purges: at every destination never less than the newest `keep` of all ever complete, and exactly the newest `keep` whenever all exit codes were 0 and something was stored |
| Locking.LockFile.Acquire | src/mariabackup_keeper/locking.py:16-30 | one contender's calls as steps of the system: enters iff the lock is free and flock works, and is then alone inside; a refused one, finally clause included, leaves the whole system as it was |
| Locking.MutualExclusion | src/mariabackup_keeper/locking.py:16-30 | in every execution of any number of contending and dying processes at most one is inside the pipeline |
| Locking.OthersChangeNothing | src/mariabackup_keeper/locking.py:16-30 | a process that does not hold the lock changes neither the node nor the standing of any other |
| Locking.RefusedUnlockIsHarmless | src/mariabackup_keeper/locking.py:25-30 | in every execution the unlock in a refused contender's finally clause changes nothing |
| Locking.LockedSystemIsSingleWriter | src/mariabackup_keeper/locking.py:16-30 | all that any number of contending and dying processes do to the work directory and the destinations is one past made of single effects, as one writer makes it |
| Locking.SystemKeepsInv | src/mariabackup_keeper/locking.py:16-30 | so every destination is sound in every state of the system, whoever has died where |
| Locking.UnlockedWritersCoexist | src/mariabackup_keeper/locking.py:16-30 | without the lock two writers of one id, whichever it is, reach a complete generation beside its partial directory |
| Manifest.CivilOf | src/mariabackup_keeper/manifest.py:24 | the UTC reading of an instant is a valid date and time that denotes that instant |
| Manifest.YearsInDays | src/mariabackup_keeper/manifest.py:24 | the calendar has a day more every fourth year, but of the full hundreds only every fourth one |
| Manifest.MonthsInDays | src/mariabackup_keeper/manifest.py:24 | the months start where the calendar's table says |
| Manifest.MicrosMeans | src/mariabackup_keeper/manifest.py:24 | an instant in the numbers of its fields |
| Manifest.IdSaysWhen | src/mariabackup_keeper/manifest.py:18-24 | an id is the prefix, a dash and sixteen characters whose digits say the UTC year, month, day, hour, minute and second, with a T between and a Z at the end |
| Manifest.ZonesGiveOneId | src/mariabackup_keeper/manifest.py:24 | readings of one instant in any two zones give one id |
| Manifest.StampOrder | src/mariabackup_keeper/manifest.py:18-24 | timestamps as fixed-width text compare as their whole seconds |
| Manifest.IdsOrderAsTime | src/mariabackup_keeper/manifest.py:21-24 | for one prefix and any zone offsets, ids compare as the UTC instants truncated to the second, and are equal iff those are |
| Manifest.IdsLeadBelowPrefix | src/mariabackup_keeper/manifest.py:21-24 | for every prefix: the last component of an id is an ordinary name, the tail of the prefix with the timestamp, and the rest is that of the prefix; so the id leads to an entry of the directory it is joined to iff the prefix is relative with nothing but dots before its last slash |
| Manifest.LaterRunIsFresh | src/mariabackup_keeper/manifest.py:1-5 | a run at least a second after all earlier ones brings an entry newer than everything stored, as the safety of a run asks |
| Paths.JoinedLeads | src/mariabackup_keeper/orchestrator.py:89-90 | joining an id to a directory leads where the id leads from there; a leading slash discards the directory |
| Paths.PartsMean | src/mariabackup_keeper/orchestrator.py:89-90 | the components of a path are the stretches between slashes without empty ones and single dots |
| Paths.RootMeans | src/mariabackup_keeper/orchestrator.py:89-90 | two leading slashes are a root of their own, any other number of them is one |
| Paths.WalkMeans | src/mariabackup_keeper/orchestrator.py:89-90 | `..` goes to the parent of wherever the walk has come, and from the top nowhere |
| Paths.TailMeans | src/mariabackup_keeper/orchestrator.py:89-90 | the tail is what follows the last slash, the front what precedes it |
| Paths.NormalPathOfMore | src/mariabackup_keeper/config.py:184-187 | the text of a path has its components behind single slashes |
| FileTree.DirOfLeads | src/mariabackup_keeper/destinations/local.py:36-42 | the final and the partial directory of an id are two entries of one directory |
| FileTree.CleanedMeans | src/mariabackup_keeper/orchestrator.py:347-353 | the cleaning removes what is below the work directory's entries of other names, and no other file |
| FileTree.StoreRaisesIff | src/mariabackup_keeper/destinations/local.py:35-52 | when no call fails on its own a store raises iff a plain file is on its way, there is nothing to copy or the final name is taken |
| TreeStore.StoreAtBase | src/mariabackup_keeper/destinations/local.py:35-52 | where an id leads to an entry of the destination, the store on the file tree is the store of that entry in the protocol, committed whole |
| TreeStore.StoreStrays | src/mariabackup_keeper/destinations/local.py:35-72 | where it leads elsewhere, the destination lists the complete generations it listed before |
| Addresses.SamePlaceLosesAll | src/mariabackup_keeper/orchestrator.py:88-146 | when an id leads from every destination to where it leads from the work directory, the run raises nothing and leaves no file of the generation |
| Addresses.AbsolutePrefixLosesAll | src/mariabackup_keeper/config.py:247-249 | every prefix with a leading slash is such a case, whatever the destinations |
| Addresses.WorkDirLosesAll | src/mariabackup_keeper/orchestrator.py:347-353 | so is a destination that is the work directory, and there no earlier generation survives either |
| Addresses.ListedIff | src/mariabackup_keeper/destinations/local.py:35-72 | for any id, `..` included: a run that raised nothing leaves the generation listed as complete, and whole, iff the id leads to an entry of the destination that is not the run's own directory |
| Addresses.PrefixDecides | src/mariabackup_keeper/config.py:247-249 | for prefixes without `..` and a destination apart from the work directory: listed iff the prefix is relative with nothing but dots before its last slash |
| Addresses.StraightRunSucceeds | src/mariabackup_keeper/orchestrator.py:88-146 | a run over an empty destination raises nothing, however many components its relative id has |
| Addresses.SlashedIdAddsNothing | src/mariabackup_keeper/destinations/local.py:54-72 | a relative id with a directory part adds no complete generation |
| Addresses.SlashedIdIsBelow | src/mariabackup_keeper/destinations/local.py:41-50 | all of its files are below the entry that its first component names |
| Addresses.SlashedIdIsLost | src/mariabackup_keeper/destinations/local.py:74-83 | and once that entry has expired, unless it is complete by itself, a purge removes it |
| SshOutput.ParseListOutput | src/mariabackup_keeper/destinations/ssh.py:68-82 | the loop reads the lines in order, skips those without three parts and raises on a bad number |
| SshOutput.ListingRoundTrip | src/mariabackup_keeper/destinations/ssh.py:68-82 | parsing what the script prints returns every entry whose id has no space, unchanged and in order, when no id breaks a line |
| SshOutput.BreaksMean | src/mariabackup_keeper/destinations/ssh.py:70 | each of the ten line breaks of splitlines ends a line |
| SshOutput.LineMeans | src/mariabackup_keeper/destinations/ssh.py:71-81 | a line of three words gives its second as the id, its third as a time in seconds, and is complete iff its first is COMPLETE |
| SshOutput.IntMeans | src/mariabackup_keeper/destinations/ssh.py:79 | digits give their number, digits behind a minus its negative, and all else raises |
| SshOutput.DecimalRead | src/mariabackup_keeper/destinations/ssh.py:31 | times are printed in decimal without leading zeros |
| SshListing.SshRowsMember | src/mariabackup_keeper/destinations/ssh.py:27-37 | which directories the remote listing, printed and read back, reports and as what, when no printed name breaks a line |
| SshListing.SshRowsMean | src/mariabackup_keeper/destinations/ssh.py:27-82 | when no name breaks a line: a directory is reported iff its name is not empty, has no leading dot and no space, and it holds meta.json, then as complete under its full name, or ends in `.partial`, then as incomplete under the rest; always with its time in whole seconds, 0 after a leading dash |
| SshListing.ListingsAgreeIff | src/mariabackup_keeper/destinations/ssh.py:27-37 | with times cut to seconds the remote and the local listing of one directory agree as multisets iff every directory has a visible name without spaces and line breaks, every unsuffixed one holds meta.json and no suffixed one does, and a leading dash, which hides the time from stat, goes with time 0 |
| SshPurging.SshCompleteIff | src/mariabackup_keeper/destinations/ssh.py:32-34 | unless a name breaks a line, the remote listing's complete ids are the complete generations iff of the directories with meta.json exactly the unsuffixed ones have names that get through |
| SshPurging.SshDeletedIds | src/mariabackup_keeper/orchestrator.py:264-277 | which ids a purge over ssh deletes, read off the remote directory |
| SshPurging.SshLosesIff | src/mariabackup_keeper/destinations/ssh.py:143-154 | a purge over ssh takes a complete generation iff it is not among the newest `keep` of all shown directories with meta.json, renamed or not, or an expired directory without meta.json bears its name and the suffix |
| SshPurging.SshPlanIsSafe | src/mariabackup_keeper/destinations/ssh.py:143-154 | without coexisting siblings only the first reason remains; hidden names make this hold even with a `.partial` directory present |
| SshPurging.PurgeOverSsh | src/mariabackup_keeper/orchestrator.py:253-296 | the listing, the plan and its deletions at an ssh destination: at every moment only names the plan reaches have lost anything, a clean purge leaves exactly the survivors, an unreadable listing deletes nothing |
| SshPurging.SshAfterPurge | src/mariabackup_keeper/orchestrator.py:279-291 | the complete generations a clean purge over ssh leaves are exactly those that `SshLosesIff` spares |
| SshPurging.SshPurgeKeeps | src/mariabackup_keeper/orchestrator.py:279-291 | and at every moment of a failing one those are untouched |
| SshPurging.UnrenamedPartialsDisplace | src/mariabackup_keeper/destinations/ssh.py:32-34 | `keep` newer unrenamed partial directories with meta.json make the plan delete a real generation |
| SshPurging.FailedMove | src/mariabackup_keeper/destinations/ssh.py:141 | a run that ends so, for any two ids: the `mv` fails, and any purge that keeps one generation takes the only complete one |
| SshPurging.UnansweredProbe | src/mariabackup_keeper/destinations/ssh.py:130-141 | a run in which the probe goes unanswered and the `mv` fails: a complete generation with a partial sibling, which the next purge that keeps one takes |
| SshPurging.MoveIntoDirectory | src/mariabackup_keeper/destinations/ssh.py:141 | a run that returns normally after moving the generation into a directory of its name: nothing is complete |
| SshPurging.BrokenNameIsLost | src/mariabackup_keeper/destinations/ssh.py:68-74 | a complete generation whose name holds a line break between two words is not listed |
| SshPurging.BrokenNameIsHazard | src/mariabackup_keeper/destinations/ssh.py:68-74 | a complete generation, though the newest, whose name makes the listing report an empty id, with which the purge reaches everything |
| SshStore.SentIsPlacedIff | src/mariabackup_keeper/destinations/ssh.py:135-139 | the remote copy equals what the local backend places iff no excluded file was left over at the receiver |
| SshStore.SentMeans | src/mariabackup_keeper/destinations/ssh.py:134-139 | file by file: what the source has outside nested meta.json, and besides what was left over and protected by the exclusion |
| SshStore.RetriesSucceedIff | src/mariabackup_keeper/destinations/ssh.py:211-224 | at most retries + 1 attempts, and success iff one of them succeeds |
| SshStore.Remote.RsyncDirectory | src/mariabackup_keeper/destinations/ssh.py:191-200 | success mirrors the data and keeps excluded receiver files; failed attempts touch only the partial directory |
| SshStore.Remote.RsyncMetaFile | src/mariabackup_keeper/destinations/ssh.py:202-209 | success adds exactly meta.json; failed attempts touch only the partial directory |
| SshStore.Remote.Transfer | src/mariabackup_keeper/destinations/ssh.py:134-139 | both transfers succeed iff each has a succeeding attempt and no plain file is in the way |
| SshStore.Remote.Store | src/mariabackup_keeper/destinations/ssh.py:129-141 | the exact condition for returning normally and exactly what is then at the remote; before the last effect and after any failure only the partial directory has changed, and when only the `mv` fails that directory holds the whole generation with meta.json; an id whose directory part is not there fails and changes nothing; under an absent name with nothing protected left over that is a copy of the source, file by file; it never returns normally onto a file or a directory that holds a partial directory of that name |
| SshStore.Remote.Move | src/mariabackup_keeper/destinations/ssh.py:141 | a rename onto an absent name, a move into an existing directory |
| SshStore.Remote.Delete | src/mariabackup_keeper/destinations/ssh.py:150-154 | success removes both names and nothing else; a failing removal does not stop the others; at every moment entries only lose files under those names; the empty id takes everything, and for `.` and `..` rm fails and takes the suffixed name only |
| SshStore.SshStoreCoexistsIff | src/mariabackup_keeper/destinations/ssh.py:130-139 | once its partial directory exists, a store over ssh puts it beside a complete generation iff that generation was complete before, which takes an unanswered probe |
| SshStore.SshStoreKeepsNoCoexistence | src/mariabackup_keeper/destinations/ssh.py:141 | a store that returned normally leaves no partial sibling of a complete generation |
| SshStore.StoredIsCompleteIff | src/mariabackup_keeper/destinations/ssh.py:129-141 | after a normal return the generation is complete iff nothing bore its name before or it already was, and then equals the local copy iff no excluded file was left over |
| Config.RejectUnknownKeys | src/mariabackup_keeper/config.py:205-210 | a problem is recorded iff some key is unknown |
| Config.CheckSshFields | src/mariabackup_keeper/config.py:426-447 | a problem is recorded iff some ssh field is unusable |
| Config.ParseDestination | src/mariabackup_keeper/config.py:389-465 | a skipped table has recorded a problem; no problem iff the table is valid and its name new, and then the destination says what the table says under each key, and the defaults where it is silent |
| Config.ParseTables | src/mariabackup_keeper/config.py:385-467 | no problem iff the list is valid; dropped tables never outnumber recorded problems; an accepted list is taken over whole and in order |
| Config.ParseDestinations | src/mariabackup_keeper/config.py:377-467 | no problem iff there is a non-empty valid list, and then every table is kept, in order |
| Config.CheckWorkDir | src/mariabackup_keeper/config.py:184-187 | a problem is recorded iff some local path equals the work directory's text |
| Config.ParseConfig | src/mariabackup_keeper/config.py:150-202 | success means no earlier problem, every table acceptable key by key, one destination for each in order saying what its table says with the defaults where it is silent, distinct names, and no clash with the work directory; a failure over valid tables with no earlier problem is such a clash |
| Config.ValidIsAcceptable | src/mariabackup_keeper/config.py:389-447 | which tables are valid, key by key and number by number |
| Config.AcceptedConfigServesPipeline | src/mariabackup_keeper/config.py:401-465 | an accepted list gives the pipeline the name and `keep` of each table in order, with unique names, `keep` at least 1 and at least one destination |
| Config.WorkDirCaughtIff | src/mariabackup_keeper/config.py:184-187 | a local path is caught iff it is in normal form and has the root and components, `..` included, of the work directory |
| Config.SamePlaceCaughtIff | src/mariabackup_keeper/config.py:184-187 | a path that leads to a work directory given absolutely and without `..` is caught iff it is itself absolute, without `..` and in normal form |
| Config.DetoursSlipThrough | src/mariabackup_keeper/config.py:184-187 | a trailing slash, a way up and back, or a relative path from the root lead to the work directory and are not caught |

## Left out

- GenerateBackupId: years before 1000, where the width of `%Y` depends on the platform, and instants outside the range of Python's datetime, which raise OverflowError.
- Host.Store: ids are required to lead to one entry of the destination; what becomes of all other ids is said in `Addresses`, where no call fails on its own.
- Host.Delete: for the id `..` the code also removes what lies beside the destination; the model removes the destination only.
- Run: every destination behaves like the local backend, whose listing may also fail for any reason; the ssh backend is modelled on its own in `SshListing` and `SshStore` and not run through the pipeline, because its listing breaks the rule of completeness that the pipeline proofs rest on. Ids are required to lead to one entry, as for `Host.Store`.
- Remote.RsyncDirectory: rsync's own temporary files, and a directory named meta.json at the receiver.
- ParseDestination: a local table whose ssh_options cannot be turned into a tuple, on which the code raises.
- ParseInt: spellings of integers other than plain decimals that Python's int() accepts, and times beyond the range of fromtimestamp.
- Seconds: directories named `-` or with an abbreviation of `--help` or `--version`, which stat does not refuse.
- Remote.Store: ids with a directory part that is there already, and characters that the remote shell expands inside double quotes.
- RunOn: stores beyond the first failing one, and destinations that lie inside the run's directory or contain it.
- ListedIff: `..` is walked by name, and the directories on its way, which the store leaves behind empty, are taken to be there.
- SamePlaceCaughtIff: work directories given relatively or with `..`, for which `WorkDirCaughtIff` is the exact condition, and symbolic links.
- Line: the echo of some shells interprets backslashes in an id.
- LockFile.Acquire: one descriptor per process and one lock file; creating its directory and opening it are not modelled to fail.
- TakeBackup: the tool's own progress inside the run's directory; it is an oracle that finishes with some files or leaves some files behind.
- Exceptions other than destination and backup errors end a run like a crash: after any moment of the past.
- Remote commands that go on after ssh has timed out.
- Symbolic links, permissions, ownership, disk space, and empty directories below a generation.
- Plain files in the work directory, and destinations that overlap each other or the work directory.
- `backup.py`, `hooks.py` and `replication.py`: processes, timeouts and thresholds; a failing precondition or pre-backup hook is one early exit, other hooks change nothing.
- `cli.py`, `check`, `logging_setup.py`, `errors.py`: argument parsing, probing and printing.
- The JSON of meta.json and the TOML of the configuration file; the configuration sections other than the destinations.
