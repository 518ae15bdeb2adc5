# Verified model of autotier

autotier is a FUSE file system that spreads one directory tree over several storage tiers, fastest
first. A tiering pass crawls all tiers, updates each file's popularity, sorts the files, assigns them
to tiers by first fit against the tiers' quotas, moves them with one thread per tier, and rewrites an
index (a RocksDB database from relative path to metadata) that tells every later operation in which
tier a file lives. Between passes the FUSE operations change files and index, count open handles, and
ask for further passes through a work queue.

This project models those parts in Dafny 4.11 and proves what they keep. `dafny verify dfyconfig.toml`
checks all of it.

## The modules

- `Sums`, `Placement`, `FileOrder`: first-fit placement and the sort, as functions of sizes, quotas and
  ranks. `std::sort` is unstable, so every theorem holds for any arrangement the comparator allows.
- `Transfer`, `PassResult`: `move_files` as a machine in which any tier's thread may take its next
  action (copy, debit, repoint, credit, record), and what a finished pass leaves.
- `TransferSpace`: the same machine when a copy needs free space, and may have to wait for it.
- `Crawl`, `PassPlan`, `PassTheorem`: from a directory listing to the starting state of the transfers,
  and the theorems about a whole pass told from the listing alone.
- `TieringPass`: the classes `Tier`, `File`, `Database` and `TierEngine` with their loops, each method
  proved against the functions above; `RunPass` is `tier()`.
- `SortTies`: when the order that an unstable sort leaves among equal files matters.
- `WholePass`: `tier()` on the objects, ending in statements about database and disks.
- `FileCopy`, `MoveFile`: `Tier::move_file`, a copy loop over descriptors with file positions, against a
  kernel that may shorten or fail reads, writes and seeks, with the backend recorded after every change.
- `PassContents`: the bytes of the files over a pass, with `MoveFile`'s relation as the disk action.
- `PathOrder`, `PathIndex`, `Namespace`: the database as a sorted map with batches, the prefix scan of a
  directory rename, and create, open, rename, unlink and transfer against the backends.
- `WorkQueue`, `WorkProtocol`, `WorkBound`: the one-shot work queue, first with whole calls atomic, then
  line by line for any number of requesting threads and the one tiering thread.
- `Popularity`: the moving average over reals, for one pass and for whole histories.
- `OpenHandles`, `FuseHandles`: open counts and descriptor maps, line by line for any number of calls
  under way, and the whole calls over the shared maps. `OpenRenames` adds renames and removals.
- `StatFs`: block totals in 64-bit arithmetic.

## What the code demands without checking

- Relative paths are distinct over all tiers. Two tiers holding the same path share one index key.
- No namespace operation runs during a pass: `update_db` writes back metadata read by the crawl.
- An existing index entry names the tier its file is found in. The constructor at
  src/impl/autotierfs/metadata.cpp:79-84 trusts the stored value.
- File ages are not negative, that is, no change time lies in the future.
- The source of a move is not written to while it is copied.
- No listed file bears the hidden name of another one.
- The credential calls around open and create do not fail.

## Where the model found a promise to fail

The code is modelled as it is. The lemma named shows the failure or gives the exact condition under
which the promise holds.

- The header comment at src/incl/TierEngine/components/tiering.hpp:113-126 describes next fit that also
  counts pinned bytes. The code, which the model follows, tries every tier from the first for each file
  and ignores pinned bytes, so a tier filled to its quota ends over it by its pinned bytes
  (`PinnedOverQuota`; `UsageFromListing` has the exact condition).
- Files of equal rank may be sorted either way, and a second pass may then swap them (`TiesCanSwap`).
  `TiesHarmlessIff` and `FixedPointIff` say exactly when ties do not matter.
- The copy buffer size is not validated. One that converts to 0 makes every copy succeed with an empty
  file (`MoveLosesNothingIff`, `FourGiBLosesData`).
- A conflict name that is taken is overwritten (`MoveLosesNothingIff`).
- At src/impl/autotierfs/tier.cpp:169 a result of -1 is below the bytes read for every error, so every
  write error is retried and line 182 is never reached (`CopyTurn`). Each failing write is one more turn
  without progress (`FailedWritesAreRetried`); the loop ends because the model's kernel has finitely
  many faults.
- At src/impl/autotierfs/tier.cpp:173-177 the result of lseek is stored in an int. Seeking back to offset
  2^32 - 1 gives -1 and is taken for a failure, so the retry protects exactly the files below 4 GiB
  (`GentleCopyIff`).
- A failed copy leaves its hidden file, which blocks its path. Of all moves only one that takes the hidden
  file itself away frees it (`HiddenFileBlocksIff`). A pass may do that, since the filter at
  src/impl/autotierfs/TierEngine/components/tiering.cpp:108-113 is matched against full paths
  (`HiddenFileFreed`).
- Transfers into full tiers wait for space without limit, and may wait for each other
  (`FullTiersCannotSwap`, `StuckIff`). Whether they do does not depend on the schedule
  (`SchedulesHaltAlike`).
- A directory rename that fails in a later tier has renamed the earlier ones without their keys
  (`PartialRenameDanglesIff`, `NoDanglingAlwaysIff`), and a rename over a name of another tier hides a
  file (`ExactKeptIff`).
- Popularity turns negative when the period exceeds the damping (`UnusedDecay`), and its result depends
  on how time is cut into periods (`SplitPeriod`, `SplitHarmless`, `SplitAtConstantRate`), against
  packaging/focal/changelog:117.
- average_period_age at src/impl/autotierfs/file.cpp:88 adds half the period to the age at the end of it.
  The age in the middle of the period would subtract it (`DampingRunsAhead`).
- The flag that should keep one-shots from piling up bounds nothing when its lines interleave
  (`CoalescingIsUnbounded`). Without direct pushes more than one is held exactly when some thread sets
  the flag while it is set (`AtMostOneIff`, `HeldBound`). No request is ever lost (`NoRequestLost`).
- A release whose fstat fails leaves the path it was opened under counted for good, so passes skip a file
  at that path (`StuckKeepsOpen`). The counts go by that path only: after a rename an open file is no
  longer seen as open (`RenameHides`; `SeenOpenNowIff` has the exact condition). pin_files moves files
  without asking.
- statfs reports almost 2^64 free blocks when the pool is over its quotas (`FreeIsExactIff`), and its
  block counts are in units of the block size it reports exactly when all tiers have that size
  (`BlockSizesIff`).

## Model

| member | source | states |
|---|---|---|
| Placement.FirstFit | src/impl/autotierfs/TierEngine/components/tiering.cpp:171-180 | The tier found is not full, and every earlier tier is; the number of tiers when all are full |
| Placement.WithinQuota | src/impl/autotierfs/tier.cpp:96-98 | Simulated usage never exceeds any tier's quota, after any number of files |
| Placement.SimIsShare | src/impl/autotierfs/TierEngine/components/tiering.cpp:165-186 | Simulated usage of a tier is exactly the sizes of the files assigned to it |
| Placement.NoEarlierRoomAtEnd | src/impl/autotierfs/TierEngine/components/tiering.cpp:169-185 | A file in tier k does not fit any earlier tier even with that tier's final simulated usage; an unplaced file fits none |
| Placement.LaterTierMeansLarger | src/impl/autotierfs/TierEngine/components/tiering.cpp:169-180 | If a later file in the order gets a better tier, it is strictly smaller |
| Placement.TopFilesShareTopTier | src/impl/autotierfs/TierEngine/components/tiering.cpp:169-180 | The first k files are all assigned to tier 0 if and only if together they fit its quota |
| Placement.QueuedAtMostOnce | src/impl/autotierfs/TierEngine/components/tiering.cpp:176-177 | Over all tiers a file is queued at most once |
| Placement.Queue | src/impl/autotierfs/TierEngine/components/tiering.cpp:176-177 | A tier's queue holds exactly the files assigned to it and not in it already, in sorted order |
| Placement.SecondPassQueuesNothing | src/impl/autotierfs/TierEngine/components/tiering.cpp:165-186 | Fixed point: with every queued file moved, simulating again on the same order queues nothing in any tier |
| FileOrder.StrictWeakOrder | src/impl/autotierfs/TierEngine/components/tiering.cpp:151-162 | The comparator is a strict weak ordering, as std::sort demands, and only equal ranks tie; SortedByPopularityThenTime says which way it points |
| FileOrder.SortedByPopularityThenTime | src/impl/autotierfs/TierEngine/components/tiering.cpp:151-162 | In any result of the sort a file of higher popularity comes first; at equal popularity one of the later time in seconds does, and then in microseconds |
| FileOrder.SortUnique | src/impl/autotierfs/TierEngine/components/tiering.cpp:143-163 | With no two equal ranks any two results of the unstable sort are the same |
| FileOrder.SortedOrder | src/impl/autotierfs/TierEngine/components/tiering.cpp:143-163 | An arrangement of the kind demanded of the sort exists for every list of ranks |
| FileOrder.ShareArranged | src/impl/autotierfs/TierEngine/components/tiering.cpp:143-163 | Sorting leaves the bytes of every tier's files as they were |
| FileOrder.WorseTierOnlyIfLarger | src/impl/autotierfs/TierEngine/components/tiering.cpp:143-186 | Priority through sort and placement: a file more popular than another, or as popular and used later, that still gets a worse tier, or none, is strictly larger |
| FileOrder.TiesCanSwap | src/impl/autotierfs/TierEngine/components/tiering.cpp:151-162 | Two files of equal rank: after one legal sort has been carried out, another legal sort queues each for the other's tier |
| SortTies.TiesHarmlessIff | src/impl/autotierfs/TierEngine/components/tiering.cpp:143-186 | Every result of the unstable sort gives every file the same tier if and only if, in one of them, each file gets the tier it would get first among its ties |
| SortTies.FixedPointIff | src/impl/autotierfs/TierEngine/components/tiering.cpp:143-197 | Once every file is placed and moved, a second pass queues nothing for every result of its sort if and only if the first order had that property |
| SortTies.SettledQueuesNothing | src/impl/autotierfs/TierEngine/components/tiering.cpp:143-197 | With that property a second pass queues nothing, also when files were left unplaced |
| SortTies.DistinctRanksFixedPoint | src/impl/autotierfs/TierEngine/components/tiering.cpp:143-197 | Files of distinct ranks have it: sorting and placing again queues nothing |
| SortTies.AllFitSettled | src/impl/autotierfs/TierEngine/components/tiering.cpp:169-180 | So do files that all fit the first tier, however many tie |
| SortTies.FirstIsBest | src/impl/autotierfs/TierEngine/components/tiering.cpp:169-180 | Coming first among its ties never gives a file a worse tier |
| Transfer.InitialInv | src/impl/autotierfs/TierEngine/components/tiering.cpp:188-193 | Right after crawl and simulation every counter is pinned bytes plus the sizes of the tier's files |
| Transfer.NoUnderflow | src/impl/autotierfs/tier.cpp:66-69 | At every step of every interleaving the debit is covered, and no counter is below the tier's pinned bytes |
| Transfer.StepUsage | src/impl/autotierfs/file.cpp:130-136 | Each statement of a transfer keeps usage_ equal to pinned bytes plus the sizes of the files counted in the tier |
| Transfer.StepFile | src/impl/autotierfs/file.cpp:130-136 | After each statement every file has exactly the memory, disk and index contents its stage prescribes |
| Transfer.StepOutside | src/impl/autotierfs/tier.cpp:112-135 | No step touches a key or backend file that is not of the pass |
| Transfer.StepInv | src/impl/autotierfs/tier.cpp:112-135 | Any thread's next action keeps the whole transfer invariant |
| Transfer.RunInv | src/impl/autotierfs/TierEngine/components/tiering.cpp:188-197 | The invariant, and so exact counters, after any schedule of the threads |
| Transfer.DoneIsFinished | src/impl/autotierfs/TierEngine/components/tiering.cpp:194-197 | When all threads have joined, placement, counters, disk and index are those computed from the plan alone |
| Transfer.SchedulesAgree | src/impl/autotierfs/TierEngine/components/tiering.cpp:188-197 | Confluence: for fixed outcomes every complete schedule ends in the same state |
| Transfer.SchedulesEnd | src/impl/autotierfs/TierEngine/components/tiering.cpp:188-197 | With every copy assumed to end: a schedule is never longer than the work of the plan, is complete exactly when it has done all of it, and can go on otherwise |
| TransferSpace.SpaceRunIsRun | src/impl/autotierfs/tier.cpp:166-189 | A run in which a copy needs free space is a run of the transfer machine |
| TransferSpace.SpaceRunBalanced | src/impl/autotierfs/tier.cpp:194-207 | Over any run each tier's free space and the sizes of the files on it add up to the same |
| TransferSpace.StuckIff | src/impl/autotierfs/tier.cpp:169-181 | An unfinished pass is stuck if and only if each unfinished thread is at a copy that does not fit its tier |
| TransferSpace.SchedulesHaltAlike | src/impl/autotierfs/TierEngine/components/tiering.cpp:188-197 | Whether a pass finishes or gets stuck, and the state it halts in, is the same for every schedule |
| TransferSpace.EnoughRoomNeverStuck | src/impl/autotierfs/tier.cpp:169-181 | A pass in which every tier has free space for all it is to receive never gets stuck |
| TransferSpace.FullTiersCannotSwap | src/impl/autotierfs/tier.cpp:169-181 | Two tiers that exchange files neither has space for are stuck from the start, for any size |
| Transfer.RunLength | src/impl/autotierfs/TierEngine/components/tiering.cpp:188-197 | A schedule's length is the difference of the work left before and after |
| PassResult.UsageAfterPass | src/impl/autotierfs/TierEngine/components/tiering.cpp:165-197 | Final usage is simulated usage plus pinned bytes plus strays minus absentees, so at most quota + pinned + files left there unassigned |
| PassResult.BytesConserved | src/impl/autotierfs/file.cpp:130-136 | At every moment of every schedule the counters hold all crawled bytes except those of files between debit and credit |
| PassResult.TotalAfterPass | src/impl/autotierfs/TierEngine/components/tiering.cpp:188-197 | Total usage after the transfers is the plan's pinned bytes and file sizes |
| PassResult.UpdateAllAt | src/impl/autotierfs/TierEngine/components/tiering.cpp:199-203 | update_db leaves every selected file's own metadata under its path |
| PassResult.EntriesNameHolders | src/impl/autotierfs/TierEngine/components/tiering.cpp:188-203 | After the pass each selected file's entry names the one tier that holds it, moved or not, and nothing else in it has changed |
| PassResult.OutsidersKept | src/impl/autotierfs/TierEngine/components/tiering.cpp:188-203 | Entries and backend files outside the pass are as they were |
| PassResult.CorrectIndexStaysCorrect | src/impl/autotierfs/TierEngine/components/tiering.cpp:188-203 | If no entry dangles before the pass none does after it |
| Crawl.CrawlUsage | src/impl/autotierfs/TierEngine/components/tiering.cpp:89-98 | Usage after the crawl is the pinned bytes plus the sizes of the tier's collected files |
| Crawl.EveryEntryCounts | src/impl/autotierfs/TierEngine/components/tiering.cpp:119-124 | The bytes seen are the sum over every listed file, pinned or not |
| Crawl.Lookup | src/impl/autotierfs/metadata.cpp:72-88 | A stored entry is used as it is; a new one names the tier, is unpinned, and has no accesses and popularity 856.8 |
| Crawl.CrawledAre | src/impl/autotierfs/TierEngine/components/tiering.cpp:119-127 | Only listed, unpinned files are collected, and no path twice |
| Crawl.CrawledHolds | src/impl/autotierfs/TierEngine/components/tiering.cpp:119-127 | Every listed, unpinned file is collected |
| PassPlan.StartIsInitial | src/impl/autotierfs/TierEngine/components/tiering.cpp:73-79 | Crawl, aging, sort and simulation deliver the state the transfers need, whatever the listing |
| PassPlan.AgedMeans | src/impl/autotierfs/file.cpp:83-93 | Over a positive period the count becomes 0 and the popularity the weighted mean of old value and hourly rate, tier and pin staying; over no period nothing changes |
| PassPlan.ArrangedShare | src/impl/autotierfs/TierEngine/components/tiering.cpp:73-77 | Aging and sorting change no tier's share of the bytes |
| PassPlan.SelectedDistinct | src/impl/autotierfs/TierEngine/components/tiering.cpp:73-77 | The sorted files have distinct paths, each listed in its tier, and metadata naming that tier when the index does |
| PassTheorem.EveryFileIndexed | src/impl/autotierfs/TierEngine/components/tiering.cpp:66-87 | After a whole pass every listed file has an entry naming the one tier that holds it; a pinned file keeps place and entry |
| PassTheorem.EveryFilePlaced | src/impl/autotierfs/TierEngine/components/tiering.cpp:66-87 | An unpinned file ends in the tier first fit chose unless it fits nowhere, is open or fails to copy; then it stays |
| PassTheorem.EveryFileAged | src/impl/autotierfs/TierEngine/components/tiering.cpp:129-141 | After a whole pass the entry of every unpinned listed file has its access count cleared and the popularity due for the period and its age |
| PassTheorem.PriorityInPass | src/impl/autotierfs/TierEngine/components/tiering.cpp:66-186 | Of two files in a pass, told by their popularities and times after aging, the more wanted gets no worse a tier unless it is larger |
| PassTheorem.TotalFromListing | src/impl/autotierfs/TierEngine/components/tiering.cpp:66-98 | After a whole pass the usages of all tiers add up to the bytes the crawl saw |
| PassTheorem.UsageFromListing | src/impl/autotierfs/TierEngine/components/tiering.cpp:66-186 | Each usage is at most quota + pinned bytes + strays, and exceeds the quota if and only if pinned bytes and strays exceed the room left by the placement and the bytes that did not arrive |
| PassTheorem.PinnedOverQuota | src/impl/autotierfs/TierEngine/components/tiering.cpp:119-127 | A tier that a file fills to its quota ends over it by all its pinned bytes, for any sizes |
| WholePass.TierOnce | src/impl/autotierfs/TierEngine/components/tiering.cpp:66-87 | On the objects: after tier() every listed file has an entry naming its one holder, unpinned ones have popularity and count updated over the time since the last pass, pinned files and everything unlisted are as before, and usages add up to the listed bytes |
| PassContents.SplitAtLastSlash | src/impl/autotierfs/tier.cpp:144-145 | The directory and the file name that a hidden name is made of are the path split at its last / |
| PassContents.RunHoldsBytes | src/impl/autotierfs/tier.cpp:112-135 | With move_file as the disk action, after any schedule the bytes each file began with are in the one tier the pass has it in |
| PassContents.BytesFollowFiles | src/impl/autotierfs/TierEngine/components/tiering.cpp:188-197 | Once all threads have joined each file's bytes are under its path in its final tier and no other, and paths outside the pass are as before |
| PassContents.EntriesLeadToBytes | src/impl/autotierfs/TierEngine/components/tiering.cpp:66-87 | After a whole pass the entry of every listed file, pinned, moved, open or failed, leads to exactly the bytes the file had |
| PassTheorem.PinnedNotSelected | src/impl/autotierfs/TierEngine/components/tiering.cpp:124-126 | A pinned file is never among the files placed |
| TieringPass.TierEngine.CrawlTier | src/impl/autotierfs/TierEngine/components/tiering.cpp:100-127 | One tier's crawl appends exactly its unpinned files, as fresh distinct objects, and returns all bytes seen |
| TieringPass.TierEngine.LaunchCrawlers | src/impl/autotierfs/TierEngine/components/tiering.cpp:89-98 | files_ becomes the crawl of all tiers; every usage_ is set to the bytes seen |
| TieringPass.File.CalcPopularity | src/impl/autotierfs/file.cpp:83-93 | The count is cleared and the popularity becomes the weighted mean over the period; nothing happens over no period |
| TieringPass.TierEngine.CalcPopularity | src/impl/autotierfs/TierEngine/components/tiering.cpp:129-141 | Every file is aged by the time since the last pass |
| TieringPass.TierEngine.Sort | src/impl/autotierfs/TierEngine/components/tiering.cpp:143-163 | files_ is rearranged into an order with the popular first, and among those as popular the later used |
| TieringPass.TierEngine.PlaceFile | src/impl/autotierfs/TierEngine/components/tiering.cpp:169-185 | Charges the first tier with room and queues the file unless it is there already |
| TieringPass.TierEngine.SimulateTier | src/impl/autotierfs/TierEngine/components/tiering.cpp:165-186 | Simulated usage and all queues are those of first fit over the sorted sizes; usage_ is untouched |
| TieringPass.TierEngine.Advance | src/impl/autotierfs/tier.cpp:113-132 | One action of one tier's thread on the objects is one step of the transfer machine |
| TieringPass.TierEngine.MoveFiles | src/impl/autotierfs/TierEngine/components/tiering.cpp:188-197 | Whatever the interleaving, the objects end in the finished state |
| TieringPass.TierEngine.UpdateDb | src/impl/autotierfs/TierEngine/components/tiering.cpp:199-203 | Every file's metadata is written back under its path |
| TieringPass.TierEngine.ClearQueues | src/impl/autotierfs/tier.cpp:133-134 | Queues and simulated usage are emptied, usage_ kept |
| TieringPass.TierEngine.RunPass | src/impl/autotierfs/TierEngine/components/tiering.cpp:66-87 | A whole pass on the objects: selection, plan, finished transfers, and index written back, from any listing of distinct paths |
| FileCopy.ToInt | src/impl/autotierfs/tier.cpp:137-176 | Conversion to int: in 32-bit range and congruent modulo 2^32 |
| FileCopy.Kernel.CopyTurn | src/impl/autotierfs/tier.cpp:167-185 | After a full, short or failed write source position, destination position and length of the copy are the offset again, unless a seek is taken for failed; line 182 is never reached |
| FileCopy.Kernel.ReadAndWrite | src/impl/autotierfs/tier.cpp:166-186 | Every read is made with both positions and the length of the copy equal to offset, and the turn leaves them so |
| FileCopy.Kernel.CopyUntilRead | src/impl/autotierfs/tier.cpp:166-188 | The inner loop ends exactly as its specification says, the copy being a prefix of the source at every moment |
| FileCopy.Kernel.CopyLoop | src/impl/autotierfs/tier.cpp:165-189 | For any buffer size and faults the outer loop runs once, and a loop that succeeds leaves the copy equal to the source |
| FileCopy.FailedWritesAreRetried | src/impl/autotierfs/tier.cpp:169-181 | n failed writes, whatever their errno, add n turns without progress and change nothing else |
| FileCopy.GentleCopyIff | src/impl/autotierfs/tier.cpp:173-178 | Copying survives all short and failed writes if and only if the file is smaller than 4 GiB: the seek back to the last byte before is taken for an error |
| MoveFile.MoveFile | src/impl/autotierfs/tier.cpp:137-217 | Moves exactly when nothing stands in the way and the copy succeeds; exact result; at every moment only its own names change and the contents are under one of three names |
| MoveFile.NamesDiffer | src/impl/autotierfs/tier.cpp:144-145 | Target, hidden and conflict name are three different names for every file name |
| MoveFile.ConflictsApart | src/impl/autotierfs/tier.cpp:144-205 | Files that conflict at one path get different names if and only if they come from different tiers; what hidden and conflict names look like |
| MoveFile.TargetLeftAlone | src/impl/autotierfs/tier.cpp:197-205 | A file already at the target path is unchanged at every moment of the move |
| MoveFile.MoveLosesNothingIff | src/impl/autotierfs/tier.cpp:194-207 | A successful move loses no contents if and only if the converted buffer size is not 0 or the file is empty, and the final name held nothing different |
| MoveFile.HiddenFileStaysIff | src/impl/autotierfs/tier.cpp:144-162 | Over any move, from anywhere to anywhere, a hidden file stays if and only if it is not itself the file moved away; a move to its path fails and changes nothing |
| MoveFile.HiddenFileBlocksIff | src/impl/autotierfs/tier.cpp:160-162 | Over any run of moves the hidden file stays, and its path is blocked, exactly until a successful move takes the hidden file |
| MoveFile.HiddenFileFreed | src/impl/autotierfs/TierEngine/components/tiering.cpp:108-114 | A run that frees the path: the hidden file, crawled like any other, is moved to another tier, and then the file moves in |
| MoveFile.FourGiBLosesData | src/impl/autotierfs/tier.cpp:152-166 | A configured buffer of 4 GiB converts to 0 and a move then replaces a file by an empty one |
| PathOrder.PrefixConvex | src/impl/autotierfs/fuseOps/helpers.cpp:92-93 | Whatever sorts between a prefix and a key with that prefix has the prefix |
| PathOrder.FirstDifferenceDecides | src/impl/autotierfs/fuseOps/helpers.cpp:91-93 | Keys are ordered by the first byte that differs, a prefix first |
| PathOrder.PrefixBlock | src/impl/autotierfs/fuseOps/helpers.cpp:92-93 | Up to the last key with the prefix, a key has it exactly when it is not below it |
| PathOrder.SeekLoopVisitsPrefix | src/impl/autotierfs/fuseOps/helpers.cpp:92-98 | For any sorted keys, seek and stop at the first mismatch visits exactly the keys with the prefix |
| PathIndex.Relabel | src/impl/autotierfs/fuseOps/helpers.cpp:69-71 | The simultaneous renaming: which keys it has and what each holds |
| PathIndex.BatchRelabelsIff | src/impl/autotierfs/fuseOps/helpers.cpp:88-103 | The batch applied operation by operation is the simultaneous renaming if and only if no key gets a name deleted later in the batch |
| PathIndex.ApartNeverClashes | src/impl/autotierfs/fuseOps/helpers.cpp:78-85 | That holds whenever neither directory lies under the other |
| PathIndex.NestedRenameLosesEntry | src/impl/autotierfs/fuseOps/helpers.cpp:92-98 | It fails for a directory moved under itself: an entry is lost |
| PathIndex.RelabelMeans | src/impl/autotierfs/fuseOps/helpers.cpp:92-98 | Into an unused directory every moved entry keeps its value, its old key is gone, and other keys are untouched |
| PathIndex.RelabelBack | src/impl/autotierfs/fuseOps/helpers.cpp:69-104 | Renaming back restores the original map |
| PathIndex.RelabelCount | src/impl/autotierfs/fuseOps/helpers.cpp:69-104 | The number of entries is kept |
| PathIndex.SiblingsKept | src/impl/autotierfs/fuseOps/helpers.cpp:78-85 | A sibling whose name only begins with the directory's name keeps its entry |
| PathIndex.NamedScans | src/impl/autotierfs/fuseOps/helpers.cpp:73-85 | A / before or after the argument makes no difference: the scan is for the name and one / after it |
| PathIndex.RelabelMovesDirectory | src/impl/autotierfs/fuseOps/helpers.cpp:92-98 | For two directories outside one another, every entry d/rest is at e/rest afterwards and its old key gone, and every other entry is as it was |
| PathIndex.Store.NewIterator | src/impl/autotierfs/fuseOps/helpers.cpp:91-92 | The iterator meets every key once, in key order |
| PathIndex.Store.CollectBatch | src/impl/autotierfs/fuseOps/helpers.cpp:92-98 | The loop collects one delete and one put for exactly the keys under the directory |
| PathIndex.Store.UpdateKeysInDirectory | src/impl/autotierfs/fuseOps/helpers.cpp:69-104 | The store becomes the batch applied, which is the simultaneous renaming when the directories are apart: every entry d/rest is at e/rest with its value and gone from d/rest, whatever / the arguments begin or end with |
| Namespace.NoDanglingAlwaysIff | src/impl/autotierfs/fuseOps/rename.cpp:54-76 | A run of creates, opens, renames, unlinks and transfers never has a dangling entry if and only if no directory rename fails after a tier its entries name |
| Namespace.StepKeepsIff | src/impl/autotierfs/metadata.cpp:90-109 | Each single operation leaves none under exactly that condition |
| Namespace.DirRenameKeeps | src/impl/autotierfs/fuseOps/rename.cpp:54-61 | A directory rename over all tiers followed by the key update keeps index and backends in agreement |
| Namespace.PartialRenameDanglesIff | src/impl/autotierfs/fuseOps/rename.cpp:56-60 | A directory rename that fails part-way leaves a dangling entry if and only if an entry under it names a tier already renamed |
| Namespace.ExactKeptIff | src/impl/autotierfs/fuseOps/rename.cpp:63-73 | A successful operation keeps index and backend in exact agreement if and only if the new name is not recorded in another tier |
| Namespace.TransferEffect | src/impl/autotierfs/tier.cpp:122-131 | A transfer takes the file out of one tier into the other and its entry names that one; no other entry or file changes |
| Namespace.UntouchedKept | src/impl/autotierfs/metadata.cpp:90-109 | Over any run, failures included, a name that no operation is about keeps its entry and its files |
| Namespace.ExecMovesDirectory | src/impl/autotierfs/fuseOps/rename.cpp:54-61 | Exact effect of a directory rename, complete or cut short at any tier |
| Namespace.RenameOverHidesFile | src/impl/autotierfs/fuseOps/rename.cpp:66-73 | A file renamed over one recorded in another tier leaves that one on disk without an entry |
| Namespace.NamedFiles.Create | src/impl/autotierfs/fuseOps/create.cpp:69-80 | On success the file is in the top tier and has an entry, a new one naming that tier and an existing one kept; nothing else changes, and nothing at all on failure |
| Namespace.NamedFiles.Open | src/impl/autotierfs/fuseOps/open.cpp:69-96 | Succeeds exactly if there is an entry and a file or the call creates one; the entry is written back with its tier unchanged, and the file is there |
| Namespace.NamedFiles.Unlink | src/impl/autotierfs/fuseOps/unlink.cpp:53-77 | On success the key has no entry and its tier no file, and every other entry and file is as it was; on failure nothing changes |
| Namespace.NamedFiles.RenameFile | src/impl/autotierfs/fuseOps/rename.cpp:63-73 | On success the new key has the old tier and the file is there, the old key and file are gone, and all else is as it was; on failure nothing changes |
| Namespace.NamedFiles.RenameDir | src/impl/autotierfs/fuseOps/rename.cpp:54-61 | Goes through the tiers up to the first that refuses; in those every file d/rest is at e/rest, and if none refuses so is every entry; all else is as it was |
| WorkQueue.AtomicBound | src/incl/TierEngine/components/adhoc.hpp:105-114 | With whole calls atomic, queued one-shots never exceed direct pushes so far plus one if the flag is set |
| WorkQueue.FlagStaysHonest | src/impl/autotierfs/TierEngine/components/adhoc.cpp:488-507 | Executing a job keeps "flag set means a one-shot is queued" |
| WorkQueue.DrainIsFifo | src/impl/autotierfs/TierEngine/components/adhoc.cpp:488-507 | Queued jobs run in the order queued |
| WorkQueue.PinThenTier | src/impl/autotierfs/TierEngine/components/adhoc.cpp:553-554 | Every pin batch that reaches its end is followed by a tiering run, coalesced or not |
| WorkQueue.StrictRunsQueued | src/impl/autotierfs/TierEngine/components/adhoc.cpp:553-554 | In strict mode exactly the queued jobs are run: a pin batch queues no pass |
| WorkQueue.DrainAdds | src/impl/autotierfs/TierEngine/components/adhoc.cpp:488-507 | What is run beyond the queued jobs are tiering runs, at most one for each pin batch that gets to its end |
| WorkQueue.AdhocEngine.EnqueueWork | src/incl/TierEngine/components/adhoc.hpp:105-114 | A one-shot is coalesced if the flag is set, otherwise queued with the flag |
| WorkQueue.AdhocEngine.ProcessOneshot | src/impl/autotierfs/TierEngine/components/adhoc.cpp:130-151 | Queues past the flag unless given arguments or during a pass |
| WorkQueue.AdhocEngine.ExecuteQueuedWork | src/impl/autotierfs/TierEngine/components/adhoc.cpp:488-507 | Drains the queue completely, clears the flag, and runs exactly the jobs of the specification in order |
| WorkProtocol.ProducerKeeps | src/incl/TierEngine/components/adhoc.hpp:105-114 | Any line of a requesting thread keeps the flag invariant and any pending pass |
| WorkProtocol.ConsumerKeeps | src/impl/autotierfs/TierEngine/components/adhoc.cpp:488-507 | Any line of the tiering thread keeps the flag invariant, and a pending pass until one starts |
| WorkProtocol.RunInv | src/impl/autotierfs/TierEngine/components/adhoc.cpp:488-507 | At every state of every interleaving a set flag has its one-shot queued, popped or about to be queued, and pop never meets an empty queue |
| WorkProtocol.PendingUntilStart | src/impl/autotierfs/TierEngine/components/adhoc.cpp:492-495 | A pass that is owed stays owed until one starts |
| WorkProtocol.NoRequestLost | src/incl/TierEngine/components/adhoc.hpp:105-114 | Line by line, for any number of threads: once all is drained a pass has started after each answered request, and the flag is clear |
| WorkProtocol.TakenInOrder | src/incl/concurrentQueue.hpp:40-78 | Over any interleaving the jobs taken, followed by those still queued, are the jobs queued, in order |
| WorkProtocol.PinBringsPass | src/impl/autotierfs/TierEngine/components/adhoc.cpp:553-554 | Line by line, outside strict mode: once all is drained a pass has started after each pin batch that got to its end |
| WorkProtocol.StrictNeverAsks | src/impl/autotierfs/TierEngine/components/adhoc.cpp:553-554 | Line by line, in strict mode the tiering thread never requests a pass itself |
| WorkProtocol.CoalescingIsUnbounded | src/incl/TierEngine/components/adhoc.hpp:107-111 | The atomic bound fails line by line: for every k a run of two threads without direct pushes leaves k one-shots queued |
| WorkBound.HeldBound | src/incl/TierEngine/components/adhoc.hpp:105-114 | Line by line, at every state of every run: one-shots held are at most direct pushes, plus times the flag was set while set, plus one if it is set |
| WorkBound.AtMostOneIff | src/incl/TierEngine/components/adhoc.hpp:105-114 | Without direct pushes at most one one-shot is ever held if and only if no thread sets the flag while it is set |
| Popularity.NextIsWeightedMean | src/impl/autotierfs/file.cpp:83-93 | The formula is the mean of old popularity and hourly rate with weight period / raw damping |
| Popularity.Units | src/incl/popularityCalc.hpp:28-40 | What the constants amount to: accesses per hour, a damping of a week at most, and the initial popularity |
| Popularity.SafePeriods | src/incl/popularityCalc.hpp:36-40 | The weight is at most one for every age if and only if the period is at most LONGEST_PERIOD |
| Popularity.LongestPeriod | src/incl/popularityCalc.hpp:36-40 | That bound lies between 232973 s and 232974 s |
| Popularity.UnusedDecay | src/impl/autotierfs/file.cpp:86-91 | An unused file's popularity falls, and stays non-negative if and only if the period is at most the raw damping |
| Popularity.NextMonotone | src/impl/autotierfs/file.cpp:83-93 | More accesses or more prior popularity never give less |
| Popularity.HistoryBounded | src/impl/autotierfs/file.cpp:83-93 | Over any history popularity stays between 0 and the larger of start and top hourly rate |
| Popularity.HistoryMonotone | src/impl/autotierfs/file.cpp:83-93 | Over any history it is monotone in start value and access counts |
| Popularity.ConstantRateConverges | src/impl/autotierfs/file.cpp:83-93 | At a constant rate each pass multiplies the distance to it by one minus that pass's weight |
| Popularity.RemainsWithin | src/impl/autotierfs/file.cpp:83-93 | That distance never grows and never changes sign |
| Popularity.SplitPeriod | packaging/focal/changelog:117 | At full damping, splitting a period changes the result by exactly (p q / D^2)(y - hourly rate of the first part) |
| Popularity.SplitHarmless | packaging/focal/changelog:117 | So one period and its two parts give the same popularity if and only if the first part was used at the current popularity |
| Popularity.SplitAtConstantRate | src/impl/autotierfs/file.cpp:83-93 | At any ages and a constant rate the split changes the result by the distance to that rate times the difference of what parts and whole keep of it; by nothing if and only if one of the two is zero |
| Popularity.FullDampingAge | src/impl/autotierfs/file.cpp:88-89 | Full damping applies if and only if age plus half the period is a week or more |
| Popularity.DampingRunsAhead | src/impl/autotierfs/file.cpp:88-89 | average_period_age lies half a period after the pass: the damping is never below that for the middle of the period, and equals it if and only if that middle is a week old |
| OpenHandles.BeginInv | src/impl/autotierfs/openFiles.cpp:30-38 | Registration, the first line of every handle, keeps the invariant |
| OpenHandles.StepCounts | src/impl/autotierfs/openFiles.cpp:40-48 | After any line every stored count is positive and is the number of handles registered for its path |
| OpenHandles.StepPaths | src/incl/fuseOps.hpp:68-93 | After any line the path map holds exactly the handles between insertion and removal, with their own paths |
| OpenHandles.StepSizes | src/incl/fuseOps.hpp:109-121 | The same for the size map, each entry being the size found before the open, or 0 for a create |
| OpenHandles.StepDistinct | src/impl/autotierfs/fuseOps/release.cpp:94-94 | Handles hold distinct descriptors, all open: closing is the last line of release |
| OpenHandles.NoStaleEntry | src/incl/fuseOps.hpp:71-78 | A new descriptor has no entry in either map, so the already-defined branch is not reached |
| OpenHandles.HandleEntries | src/impl/autotierfs/fuseOps/release.cpp:57-94 | In every interleaving of open, create and release a handle's descriptor has exactly the entries its own call has stored, with its own path and the size its own open found |
| OpenHandles.StoredSizeIsFound | src/impl/autotierfs/fuseOps/open.cpp:79-94 | From registration to release, whatever is interleaved, the size stored for a handle is the one found when it was opened |
| OpenHandles.SeenOpenIff | src/impl/autotierfs/openFiles.cpp:50-52 | A path is seen as open if and only if some call on it is registered, which covers the whole life of its descriptor |
| OpenHandles.StuckKeepsOpen | src/impl/autotierfs/fuseOps/release.cpp:69-71 | A release that returns early on a failing fstat leaves the path it was opened under counted in every later state |
| OpenRenames.SeenOpenNowIff | src/impl/autotierfs/tier.cpp:114-115 | Over any history of calls, renames and removals the file behind a live or stuck handle is seen as open if and only if it still has a name, and that is the path it was opened under or one another handle is counted for |
| OpenRenames.UntouchedStaysSeen | src/impl/autotierfs/fuseOps/open.cpp:86-109 | A file opened and neither renamed, replaced nor removed since keeps its path and is seen as open all along |
| OpenRenames.RenameHides | src/impl/autotierfs/fuseOps/rename.cpp:63-73 | Renaming an open file to a path nobody is counted for hides it from a pass, while its old path stays counted |
| OpenHandles.QuietCounts | src/impl/autotierfs/openFiles.cpp:30-48 | Between whole calls the count of a path is the number of descriptors mapped to it |
| OpenHandles.NothingLeftBehind | src/impl/autotierfs/fuseOps/release.cpp:82-94 | When every handle is closed all three maps are empty |
| FuseHandles.OpenFiles.ReleaseOpenFile | src/impl/autotierfs/openFiles.cpp:40-48 | The count goes down by one and is erased at zero; an unknown path changes nothing |
| FuseHandles.OpenSteps | src/impl/autotierfs/fuseOps/open.cpp:86-109 | A successful open or create is four lines of the machine, through the stages named and each with the invariant; the descriptor had no entry before |
| FuseHandles.ReleaseSteps | src/impl/autotierfs/fuseOps/release.cpp:57-94 | A successful release is five lines of the machine, through the stages named and each with the invariant |
| FuseHandles.RefusedSteps | src/impl/autotierfs/fuseOps/open.cpp:86-89 | A refused open gives its count back exactly |
| FuseHandles.HandleTable.Open | src/impl/autotierfs/fuseOps/open.cpp:69-109 | Exact new maps on success, the size stored being the one found before the open; nothing changed on any failure |
| FuseHandles.HandleTable.Create | src/impl/autotierfs/fuseOps/create.cpp:69-80 | The same for create, with size 0 |
| FuseHandles.HandleTable.Release | src/impl/autotierfs/fuseOps/release.cpp:57-95 | Undoes the open exactly; a failing fstat changes nothing and leaves the handle; an unknown descriptor is only closed |
| FuseHandles.UseThenRelease | src/impl/autotierfs/fuseOps/release.cpp:57-94 | Whatever others open, create and release in between, releasing a handle reports the size its own open found and the size now |
| FuseHandles.OpenUseRelease | src/impl/autotierfs/fuseOps/open.cpp:79-94 | Round trip: open at size b, any other calls, release at size n reports (b, n) |
| FuseHandles.CreateUseRelease | src/impl/autotierfs/fuseOps/create.cpp:69-80 | The same for a created file, from 0 |
| StatFs.WrapAdd | src/impl/autotierfs/fuseOps/statfs.cpp:63-70 | Wrapping after every addition is wrapping once at the end |
| StatFs.Statfs | src/impl/autotierfs/fuseOps/statfs.cpp:53-73 | Error of the first failing tier, or totals accumulated modulo 2^64 |
| StatFs.FreeIsExactIff | src/impl/autotierfs/fuseOps/statfs.cpp:63-70 | Reported free blocks are the true difference if and only if it is between 0 and 2^64; over quota it is short of 2^64 by the excess |
| StatFs.WithinQuotasFits | src/impl/autotierfs/fuseOps/statfs.cpp:62-63 | Tiers each within quota never make the difference negative |
| StatFs.RoundingError | src/impl/autotierfs/fuseOps/statfs.cpp:62-70 | With one block size and a count that is not wrapped, the free bytes reported are less than n blocks away from the exact figure |
| StatFs.ReportedBlockSize | src/impl/autotierfs/fuseOps/statfs.cpp:58-59 | The block size reported is the first tier's |
| StatFs.MixedBlockSizes | src/impl/autotierfs/fuseOps/statfs.cpp:58-63 | For any tier whose block size is not the one reported there is a pool with a quota on that tier alone that breaks the bound |
| StatFs.BlockSizesIff | src/impl/autotierfs/fuseOps/statfs.cpp:58-70 | The bound holds for every pool within quota over given file systems if and only if all their block sizes are the one reported |

## Left out

- TieringPass.TierEngine.RunPass: the listing is given; the directory recursion, symbolic links and the hidden-file filter of the crawler, which is matched against a full path, are not modelled.
- TieringPass.TierEngine.RunPass: simulated usage and queues are cleared after all threads have joined rather than at the end of each thread; no thread reads another's.
- TieringPass.TierEngine.Sort: std::sort itself is not modelled; only that its result is sorted by the comparator and a permutation.
- TieringPass.TierEngine.MoveFiles: whether each file is open and whether its copy succeeds are fixed per file in advance, without name conflicts; Tier::move_file itself is MoveFile.MoveFile.
- Transfer.StepInv: the open test and the copy are one action, so nothing is said about a file opened during its copy.
- TransferSpace.StuckIff: tiers share no file system, nothing else writes to them during a pass, and a copy that fits only in part is not shown filling the rest.
- PassContents.EntriesLeadToBytes: each move is one action on the disks, so the interleaving of the single reads and writes of different threads is not modelled; it needs a buffer size that does not convert to 0 and no listed file with the hidden name of another.
- OpenRenames.SeenOpenNowIff: a rename is one event, and the race between the open test of a pass and a rename is not modelled.
- Namespace.NamedFiles.Open: an entry is its tier; the access count that open raises is not modelled.
- MoveFile.MoveFile: directories, ownership and permissions of the copy, the time stamps set afterwards, and exceptions of remove and rename are not modelled; a crash at any point is.
- FileCopy.Kernel.CopyLoop: ends because the fault script is finite; the code would retry a write that fails for ever. Writing beyond the end of a file is not modelled, as the loop never does it.
- Name conflicts during a whole pass: change_path moves the index key of the file already at the path, so the index theorems exclude them.
- Namespace.NoDanglingAlwaysIff: whole calls are atomic, and a transfer goes to a path that is free in its new tier.
- Namespace.NamedFiles.Create: the calls mknod, symlink and link, which build metadata without storing it, are not modelled.
- Namespace.NamedFiles.Unlink: the subtraction from usage_ and live usage under overlapping handles are not modelled; the next crawl recomputes usage.
- WorkProtocol.NoRequestLost: says that a pass has started once all is drained, not that the queue will be drained; sleeping and wake-ups are not modelled.
- WorkQueue.PinThenTier: pin_files is only whether its batch reaches the final request; the moves it makes and its early return are not modelled.
- Popularity.HistoryBounded: real arithmetic stands for double; rounding, infinities and NaN are not modelled.
- FuseHandles.HandleTable.Open: opening a directory, and failures of setfsuid and setfsgid, are not modelled.
- FuseHandles.UseThenRelease: the calls in between are whole calls, and release only descriptors of their own callers; OpenHandles.StoredSizeIsFound has the lines interleaved.
- FuseHandles.HandleTable.Release: the size change is returned; the tier lookup by path prefix, the usage update and the request for a pass are not modelled there.
- SortTies.FixedPointIff: asks that every file be placed; for files that fit nowhere only SettledQueuesNothing is proved, since such a file is not queued wherever it is.
- StatFs.BlockSizesIff: asks for n b0 bj below 2^64, so that the pool that breaks the bound can be counted in 64 bits.
- StatFs.Statfs: a backend file system that reports a block size of 0, on which the code divides by zero, is excluded.
- PathIndex.Store.UpdateKeysInDirectory: RocksDB is a sorted map with atomic batches; its prefix extractor, locking and failures are not modelled, nor is the root directory as an argument.
- Pass-through FUSE calls (chmod, chown, read, truncate, xattr, flock, lseek, fsync, utimens): thin wrappers over one system call.
- Writes through the mount: their retry on a full tier only asks for a pass, through the same enqueue_work.
- Command line, sockets, status tables, logging, configuration parsing and the quota fractions: input and output.
- Tier quotas and sizes are natural numbers, not the Bytes and Quota classes of lib45d, which are not part of this model.
