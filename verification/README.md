# Ciruela: model and proofs

Ciruela keeps directory images in step on a set of servers. This project models the six pieces of state
behind its network plumbing and proves what they promise over every run.

- **Upload transactions and the index collector.** `Metadata` gives each metadata operation as one state
  change on the in-memory `writing` table, the `.state` and `.new.state` records, the stored indexes and the
  collector's mark set; a restart empties the memory and keeps the records. `MetadataServer.Server` carries the
  same operations out on an object, with the loops and branches of the source, and every method is proved to
  make exactly the specified change. `Answers` says, on state and request alone, what each request is answered and
  leaves on record, and `Provenance` that whatever is on record was asked for. `Transactions`, `Uploads`,
  `Collector`, `Scanning` and `Pipelines` hold what is true in every reachable state and over every upload, and
  `PipelineOutcomes` how a download ends.
- **The block download scheduler.** `Scheduler` is the state machine of slices, queue, mask and disk;
  `Fetcher.FetchBlocks` is the poll loop of the source over mutable deques, proved to be a run of that machine;
  `FillBlocks` cuts an index into slices. `SchedulerConservation`, `SchedulerReconstruction`,
  `SchedulerProgress`, `Downloads` and `Fetching` hold conservation, reconstruction, absence of dead ends, and
  the theorem for a whole download.
- **Retention and reconciliation.** `Retention` is `sort_out`, `RetentionProperties` its algebra and an
  order-free account of who is kept, `Merit` the same by names and ages, `Reconciliation` the merge closure,
  `ReconciliationProperties` its relation to cleanup and the proof that it comes to an end, `Agreement` the
  state in which it ends, and `Replication` its commands carried out on the metadata.
- **The mutable index tree**: `IndexTree`, `IndexRoundTrip`, `IndexUpdates`, and for any entry list and any
  emission `IndexParsing` and `IndexOrder`.
- **Request correlation**: `Requests`.
- **The two-way configuration map**: `ConfigMaps`.

`Signatures`, `Names`, `Mask`, `Seqs` and `Wrappers` are shared vocabulary.

Single steps. The source releases a lock inside some operations that are one step here: starting a collection
(`src/daemon/metadata/mod.rs:307-310`), collecting one directory (`src/daemon/metadata/index_gc.rs:22-32`),
checking and deleting one index (`src/daemon/metadata/index_gc.rs:86-91`), and the whole of `start_append`,
`start_replace` and `all_states`.

The environment is a parameter or an arbitrary choice: which signatures verify (`trusted`), whether a record was
modified lately (`fresher`), the clock (`minTime`), what a peer answers and when a write reaches the disk
(`Fetcher.Env`), the order in which a hash map is listed, the numbers drawn by a shuffle.

Where the code differs from its names or from what one would expect, the model follows the code:

- `biggest_timestamp` takes the smallest timestamp (`src/daemon/cleanup/calc.rs:17-22`).
- Directory listings pass over names that start with a dot (`src/daemon/metadata/dir.rs:230-232`). For a path
  whose final name does, the collector deletes the index of a committed image, and a stale `.new.state` stays:
  `Collector.SafeExactlyForListedNames` and `Scanning.UnlistedStaleRecordStays`.
- Two record files of different paths are the same exactly when a final name ends in `.new`
  (`Names.RecordNamesApart`). Besides, a record is written as a temporary named `.tmp.` and the record's name, and
  renamed (`src/daemon/metadata/dir.rs:115-138`), so writing a record of `x` takes away the records of `.tmp.x`, and
  writing that of `new` the in-flight one of `.tmp` (`Names.TemporariesApart`, `Uploads.TemporaryTakesTheUpload`).
  `Names.Plain` rules just these names out of the runs of the metadata: no `.new` at the end, no `.tmp.` at the
  front, not `.tmp`; each of them does clash (`Names.OthersClash`).
- Resuming renames the committed record away, so an abort after it leaves no record
  (`Uploads.AbortedResumeLosesTheRecord`); an abort of a new upload restores what was there.
- A restart cuts uploads off, and resuming one that was replacing an image takes up the old image and overwrites the
  record of the upload (`Uploads.RestartedUpload`); any other is taken up as it was.
- The check against recent deletions guards only the overlay that feeds the retention check
  (`src/daemon/tracking/reconciliation.rs:130-134`). A recently deleted image is never appended, yet it still
  replaces an older local one (`ReconciliationProperties.DeletedImagesStillReplace`), and when that one was kept for
  the sake of the keep list alone, cleanup may then drop another image just fetched
  (`ReconciliationProperties.KeepListedDeletionCrowdsOut`).
- `insert_file` with a `..` in the middle fails only after it has made the directories before it
  (`IndexUpdates.FailedInsert`), and `get_file` does not find an inserted file until the index has been written
  out and read again (`IndexUpdates.NotFoundBeforeEmission`).
- A signature list is free of duplicates exactly when the request that opened the upload was
  (`Signatures.StrictExactlyWhenFirstDistinct`).

## Model

| member | source | states |
|---|---|---|
| Signatures.AppendSignatures | src/daemon/metadata/upload.rs:38-47 | The merged list is sorted, holds exactly the old and new entries, and adds no duplicate |
| Signatures.SortedAscends | src/daemon/metadata/upload.rs:34-36 | A sorted list starts with the earliest signatures, and those of one moment are in numeric order |
| Signatures.AcceptAllMembers | src/daemon/metadata/upload.rs:87-139 | Over any series of accepted requests the list holds exactly the entries of all of them and stays sorted; later requests bring in no duplicate |
| Signatures.StrictExactlyWhenFirstDistinct | src/daemon/metadata/upload.rs:87-130 | The stored list is strictly sorted if and only if the first request had no duplicate |
| Signatures.AcceptanceIsOrderFree | src/daemon/metadata/upload.rs:34-47 | Any orders or regroupings of the same accepted entries give the identical list |
| Names.RecordNamesApart | src/daemon/metadata/upload.rs:94-95 | When two record files of any two paths are the same file, as an if-and-only-if, including the `.new` clash |
| Names.TemporariesApart | src/daemon/metadata/dir.rs:115-138 | When the temporary of one path's record is a record of another path, as an if-and-only-if |
| Names.PlainNamesApart | src/daemon/metadata/upload.rs:94-95 | On admissible paths no record file is another's, or the temporary of any |
| Names.OthersClash | src/daemon/metadata/dir.rs:115-138 | Every path that is ruled out clashes with a sibling |
| Names.ListedTogether | src/daemon/metadata/dir.rs:215-235 | Both records of a path are listed, or neither, according to the leading dot of the final name |
| MetadataServer.Server.RewriteFile | src/daemon/metadata/dir.rs:115-138 | A record is replaced through its temporary, and a file of the temporary's name is lost |
| MetadataServer.Server.StartAppend | src/daemon/metadata/upload.rs:65-146 | The new state and answer are those of the specified append, with all its branches |
| MetadataServer.Server.StartReplace | src/daemon/metadata/upload.rs:148-252 | The same for replace, with compare-and-swap on the old image |
| MetadataServer.Server.ResumeUpload | src/daemon/metadata/upload.rs:254-294 | Resuming takes the committed record, else the in-flight one, else fails |
| MetadataServer.Server.DirAborted | src/daemon/metadata/mod.rs:124-144 | The upload and its in-flight record go; the call is spurious exactly when there was no upload |
| MetadataServer.Server.DirCommitted | src/daemon/metadata/mod.rs:145-164 | The in-flight record replaces the committed one; spurious exactly when there was no upload |
| MetadataServer.Server.RemoveStateFile | src/daemon/metadata/mod.rs:168-191 | A record goes only when no upload is in flight and it is not fresher |
| MetadataServer.Server.StoreIndex | src/daemon/metadata/mod.rs:227-239 | An index is marked before it is stored |
| MetadataServer.Server.AllStates | src/daemon/metadata/scan.rs:11-65 | For every order of the listing the scan returns the one specified map and removes the stale and broken records |
| MetadataServer.Server.CollectStart | src/daemon/metadata/mod.rs:302-313 | The marks start as the images in flight |
| MetadataServer.Server.CollectDir | src/daemon/metadata/index_gc.rs:22-32 | The images of all listed records of a directory are marked |
| MetadataServer.Server.ScanDir | src/daemon/metadata/index_gc.rs:34-56 | The directories of `Walk` are collected, in any order |
| MetadataServer.Server.Scan | src/daemon/metadata/index_gc.rs:58-68 | Every configured key is walked to its depth |
| MetadataServer.Server.FullCollection | src/daemon/metadata/index_gc.rs:70-107 | An undisturbed collection keeps exactly the indexes of uploads in flight and of listed records |
| MetadataServer.ReachedMarksTheNeeded | src/daemon/metadata/index_gc.rs:34-68 | The marks after a whole scan are exactly the images still needed |
| Answers.AppendAnswer | src/daemon/metadata/upload.rs:65-146 | When an append is new, joins an upload, joins a record, or is rejected, each as an if-and-only-if on state and request, and which image a rejection reports |
| Answers.ReplaceAnswer | src/daemon/metadata/upload.rs:148-252 | The same for a replace, with the comparison of the old image it names |
| Answers.AppendIsRecorded | src/daemon/metadata/upload.rs:87-145 | An accepted append leaves its image on disk with exactly its signatures and those the image had there; any other changes nothing but marks |
| Answers.ReplaceIsRecorded | src/daemon/metadata/upload.rs:170-251 | The same for a replace |
| Answers.ResumeAnswer | src/daemon/metadata/upload.rs:254-294 | A resume succeeds if and only if the path is in no upload and has either record, takes that record up unchanged, and fails with which error otherwise |
| Answers.RemoveAnswer | src/daemon/metadata/mod.rs:168-191 | A record is removed if and only if it is there, in no upload and not fresher; each other answer as an if-and-only-if |
| Answers.SpuriousEndingsChangeNothing | src/daemon/metadata/mod.rs:124-164 | A commit or abort without an upload changes nothing |
| Provenance.RunIsSourced | src/daemon/metadata/upload.rs:49-146 | In every run each signature in the table or on disk was brought by a request of that run for that path and exactly that image which passed the checks |
| Provenance.HeldImageWasAskedFor | src/daemon/metadata/upload.rs:65-252 | No path holds an image that no request asked for there |
| Transactions.LocalChangeKeepsInv | src/daemon/metadata/upload.rs:97-144 | A change confined to one path, its two records and their temporaries keeps the invariant of all others |
| Transactions.AppendKeepsInv | src/daemon/metadata/upload.rs:65-146 | Append keeps the transaction and collector invariant |
| Transactions.ReplaceKeepsInv | src/daemon/metadata/upload.rs:148-252 | Replace keeps it; a replacing upload differs from the committed image |
| Transactions.ResumeKeepsInv | src/daemon/metadata/upload.rs:254-294 | Resume keeps it |
| Transactions.CommitKeepsInv | src/daemon/metadata/upload.rs:306-315 | Commit keeps it |
| Transactions.AbortKeepsInv | src/daemon/metadata/upload.rs:296-304 | Abort keeps it |
| Transactions.ScanKeepsInv | src/daemon/metadata/scan.rs:11-65 | A scan takes no live record away |
| Transactions.CollectorKeepsInv | src/daemon/metadata/index_gc.rs:22-107 | Collector steps, storing an index and restarts keep "marked, or its directory is still unscanned" |
| Transactions.RunKeepsInv | src/daemon/metadata/mod.rs:124-239 | In every reachable state each upload has its exact `.new.state`, `replacing` holds exactly when a `.state` exists, and that one names another image |
| Uploads.UploadSurvivesStep | src/daemon/metadata/upload.rs:97-144 | One foreign step leaves an upload and its committed record alone, apart from signatures it adds |
| Uploads.UploadSurvivesRun | src/daemon/metadata/upload.rs:87-144 | From acceptance to commit or abort the committed record and the image do not change, and the signatures are the first request's merged with those of every request for that very image that passed the checks |
| Uploads.ReplaceOverwritesWhatItChecked | src/daemon/metadata/upload.rs:184-208 | An accepted replace overwrites exactly the image it was checked against, or none, and commits every signature accepted on the way |
| Uploads.AppendCommitsItsImage | src/daemon/metadata/upload.rs:97-146 | An accepted append finds no record and commits its image with all accepted signatures |
| Uploads.AbortRestoresTheRecord | src/daemon/metadata/upload.rs:296-304 | An aborted append or replace leaves the committed record of before |
| Uploads.AbortedResumeLosesTheRecord | src/daemon/metadata/upload.rs:271-304 | However long a resumed upload runs, an abort leaves no record, so it restores what was there if and only if there was no committed record |
| Uploads.CommittedResumeKeepsTheImage | src/daemon/metadata/upload.rs:271-315 | A resumed upload that commits leaves the image it was resumed with |
| Uploads.RestartedUpload | src/daemon/metadata/upload.rs:271-287 | An upload cut off by a restart is resumed as it was if and only if it was replacing nothing; otherwise the committed image is resumed in its stead |
| Uploads.AppendOnlyImageIsFinal | src/daemon/metadata/upload.rs:161-163 | In an append-only directory a committed image does not change while its record exists |
| Uploads.UploadSparesExactly | src/daemon/metadata/dir.rs:115-138 | Writing an in-flight record takes a record of another path away if and only if that has the temporary's name |
| Uploads.ResignSparesExactly | src/daemon/metadata/dir.rs:115-138 | The same for a committed record that is signed again |
| Uploads.TemporaryTakesTheUpload | src/daemon/metadata/upload.rs:142-145 | Two accepted appends after which the first upload has lost its in-flight record |
| Collector.DeletionSparesHeldImages | src/daemon/metadata/index_gc.rs:86-101 | No step in a state satisfying the invariant deletes an index a listed path still needs |
| Collector.SafeExactlyForListedNames | src/daemon/metadata/index_gc.rs:22-107 | Over all interleavings the collector is safe for a path if and only if its final name is not empty and does not start with a dot |
| Collector.MentionedIndexStays | src/daemon/metadata/mod.rs:227-239 | In no run is an index deleted between being stored, or named by a request even if rejected, and the start of another collection |
| Collector.UnlistedNameLosesItsIndex | src/daemon/metadata/dir.rs:230-232 | The run in which a committed image under a dot name loses its index |
| Collector.ScanReachesEveryRecord | src/daemon/metadata/index_gc.rs:34-68 | The walk visits the directory of every record |
| Scanning.ReportedNames | src/daemon/metadata/scan.rs:15-63 | A name is reported exactly when one of its records is kept |
| Scanning.ScanLeaves | src/daemon/metadata/scan.rs:22-60 | Which records a scan takes away, as an if-and-only-if, from any state |
| Scanning.ScanReportsWhatStays | src/daemon/metadata/scan.rs:22-60 | What a scan reports carries signatures and is on disk afterwards |
| Scanning.ScanPrefersTheUpload | src/daemon/metadata/scan.rs:36-49 | The scan reports the upload in flight, else the committed record, else nothing |
| Scanning.CrashThenScan | src/daemon/metadata/scan.rs:11-65 | After a restart at any point a scan reports exactly the committed records and leaves no listed in-flight one |
| Scanning.UnlistedStaleRecordStays | src/daemon/metadata/dir.rs:230-232 | A stale record under a dot name outlives restart and scan |
| Pipelines.HistoryIsSound | src/daemon/tracking/fetch_dir.rs:18-144 | In every history each upload has one live download, each download is live, ended once, or cut off by a restart, and no ack or abort is spurious |
| Pipelines.EveryDownloadEnds | src/daemon/tracking/fetch_dir.rs:18-144 | After seven of its outcomes, whatever happens in between, a download has ended with its commit or abort, unless a restart came first |
| PipelineOutcomes.EndingTellsTheOutcomes | src/daemon/tracking/fetch_dir.rs:36-144 | In every history a download is committed if and only if all of its five stages succeeded, and otherwise aborted right after the first that failed, with its reason |
| Pipelines.AcknowledgementCommitsItsImage | src/daemon/tracking/fetch_dir.rs:127-143 | An acknowledged download leaves its own image committed |
| Mask.BitsOfUnfetched | src/daemon/mask.rs:26-28 | Clearing a slice removes that bit and no other |
| Mask.BitsOfFetched | src/daemon/mask.rs:41-43 | Reporting a slice adds that bit and no other |
| Mask.FullIsEverything | src/daemon/mask.rs:17-19 | A mask is full exactly when every bit is set |
| Mask.SupersetIsInclusion | src/daemon/mask.rs:29-31 | The word test is inclusion of the sets of bits |
| FillBlocks.CollectBlocks | src/daemon/tracking/progress.rs:130-153 | The blocks are those of all files not hardlinked, in order, at multiples of the block size |
| FillBlocks.Deal | src/daemon/tracking/progress.rs:155-166 | After the loop each slice has its share of the chunks and the mask has exactly their bits clear |
| FillBlocks.Shuffle | src/daemon/tracking/progress.rs:167 | The shuffle permutes |
| FillBlocks.Fill | src/daemon/tracking/progress.rs:129-170 | Slices, shares and mask, whatever the shuffle did |
| FillBlocks.SharesAreTheBlocks | src/daemon/tracking/progress.rs:155-166 | The shares of the fifteen slices together are the blocks of the index, each as often as it occurs |
| FillBlocks.ShareByPosition | src/daemon/tracking/progress.rs:156-166 | Which slice each block of the index goes to and where in it: hundred by hundred, fifteen slices in turn |
| SchedulerConservation.OwnerPresent | src/daemon/tracking/fetch_blocks.rs:76-114 | The slice of a requested block is always in the deque, with a counter above zero |
| SchedulerConservation.CreditKeepsConserved | src/daemon/tracking/fetch_blocks.rs:76-90 | A verified reply moves its block from in flight to received |
| SchedulerConservation.RequeueKeepsConserved | src/daemon/tracking/fetch_blocks.rs:91-117 | A failed or corrupt reply moves its block back to the queue |
| SchedulerConservation.RequestKeepsConserved | src/daemon/tracking/fetch_blocks.rs:196-219 | A request moves a block from the queue to in flight, within the bound on futures |
| SchedulerConservation.RetainKeepsConserved | src/daemon/tracking/fetch_blocks.rs:171-182 | A slice leaves the deque only with all its blocks received |
| SchedulerConservation.NextKeepsConserved | src/daemon/tracking/fetch_blocks.rs:61-225 | Every event keeps queued, in flight and received equal to what was planned, the counters exact, and at most eleven futures |
| SchedulerConservation.NextKeepsAnnounced | src/daemon/tracking/fetch_blocks.rs:171-182 | Every event keeps: a bit is clear exactly while its slice is in the deque, and each slice is reported once |
| SchedulerReconstruction.WriteAtBytes | src/daemon/disk/public.rs:348-355 | What a write at an offset does to every byte of a file that is not truncated |
| SchedulerReconstruction.WriteKeepsParts | src/daemon/disk/public.rs:348-355 | Writing one right part spoils no other part of any file |
| SchedulerReconstruction.NextKeepsStored | src/daemon/tracking/fetch_blocks.rs:76-137 | Every event keeps: a received block is on disk or its write is under way, and nothing else is written |
| SchedulerReconstruction.RunKeepsInv | src/daemon/tracking/fetch_blocks.rs:61-263 | The whole invariant holds after any run |
| SchedulerProgress.CanFinish | src/daemon/tracking/fetch_blocks.rs:160-225 | From every state that satisfies the invariant some run completes the download |
| SchedulerProgress.NobodyToAskRotates | src/daemon/tracking/fetch_blocks.rs:219-222 | While nobody can be asked, the blocks of a slice are tried in turn, none twice before all were |
| Downloads.InitialInv | src/daemon/tracking/progress.rs:129-170 | What `fill_blocks` leaves behind satisfies the invariant |
| Downloads.DownloadReconstructs | src/daemon/tracking/fetch_blocks.rs:183-186 | When the scheduler is done every file not hardlinked is the source file, other files are untouched, the mask is full, and each slice was reported once |
| Downloads.MaskIsHonest | src/daemon/tracking/progress.rs:176-178 | In every run a set bit means that all blocks of the slice were received and checked; bit 15 stays set |
| Downloads.MaskOnlyGrows | src/daemon/mask.rs:41-43 | Bits are only gained and reports only added |
| Fetcher.FetchBlocks.PollOne | src/daemon/tracking/fetch_blocks.rs:61-142 | Polling one future is the poll event of the state machine |
| Fetcher.RequeuedAt | src/daemon/tracking/fetch_blocks.rs:94-114 | A failed block goes to the end of the first slice of its number and changes nothing else |
| Fetcher.FetchBlocks.RetainAndReport | src/daemon/tracking/fetch_blocks.rs:171-182 | The retain loop is the announcement event, and never shifts by more than the word holds |
| Fetcher.FetchBlocks.DispatchAll | src/daemon/tracking/fetch_blocks.rs:195-225 | Dispatching is a run of requests; unless the queue is full, only slices with nobody to ask keep blocks |
| Fetcher.FetchBlocks.DispatchOrWait | src/daemon/tracking/fetch_blocks.rs:195-260 | When the second half of a pass goes round again, waits, or fails by a stalled cluster |
| Fetcher.FetchBlocks.Pass | src/daemon/tracking/fetch_blocks.rs:160-260 | A pass is ready exactly when nothing is left; with something left it fails if the deadline has passed when asked, and otherwise only by a stalled cluster |
| Fetcher.FetchBlocks.Poll | src/daemon/tracking/fetch_blocks.rs:148-262 | A poll is a run of what the environment gave; it is ready exactly when it leaves nothing, fails only when the deadline has passed or the cluster is stalled with nobody to ask, ends once the deadline has passed, and goes idle only with every future polled since its request, something to wake it, and nothing it could request |
| Fetcher.RunConcat | src/daemon/tracking/fetch_blocks.rs:148-262 | Successive polls make up one run |
| Fetching.Download | src/daemon/tracking/fetch_dir.rs:102-118 | When filling and polling end ready the source files are on disk and the mask is full; they fail only by a deadline or a stalled cluster |
| Retention.SortOutItems | src/daemon/cleanup/calc.rs:24-74 | The loops, sorts and drains compute the specified split |
| ReconciliationProperties.EarliestIsLeast | src/daemon/cleanup/calc.rs:17-22 | The sort key is the smallest timestamp |
| RetentionProperties.SortOutPartitions | src/daemon/cleanup/calc.rs:24-74 | Used and unused are the items, each with its multiplicity |
| RetentionProperties.KeepListedAreUsed | src/daemon/cleanup/calc.rs:55-61 | Every keep-listed item is used |
| RetentionProperties.UsedBounds | src/daemon/cleanup/calc.rs:32-69 | At least the smaller of all and `keep_min` are used, at most the larger of `keep_min` and `keep_max` plus the keep-listed |
| RetentionProperties.UsedAreNewest | src/daemon/cleanup/calc.rs:47-69 | Every used item not keep-listed is at least as new as every unused one |
| RetentionProperties.UnusedIsOutnumbered | src/daemon/cleanup/calc.rs:24-74 | An item given up is outnumbered on every count, with ties counted against it, for any ages |
| Seqs.SortIsStable | src/daemon/cleanup/calc.rs:48-65 | Items of equal age keep their order in both sorts |
| RetentionProperties.SortOutIsIdempotent | src/daemon/cleanup/calc.rs:24-74 | Run again on its own choice it returns that list, in order, with nothing unused |
| RetentionProperties.SortOutByMerit | src/daemon/cleanup/calc.rs:24-74 | An item is kept if and only if it is keep-listed, or recent and among the newest, or fewer than the minimum go before it |
| RetentionProperties.KeptOnEveryPart | src/daemon/cleanup/calc.rs:24-74 | An item kept on a list is kept on every part of it |
| RetentionProperties.DeservedWhenOthersAge | src/daemon/cleanup/calc.rs:24-74 | Kept items stay kept when others go or are replaced by older ones |
| RetentionProperties.ChoiceIsOrderFree | src/daemon/cleanup/calc.rs:24-74 | The choice does not depend on the order of the items |
| Reconciliation.Overlay | src/daemon/tracking/reconciliation.rs:124-156 | The overlay of newer, not deleted, signed remote images |
| Reconciliation.Consider | src/daemon/tracking/reconciliation.rs:180-199 | A remote image is asked for exactly when its first signature is newer than every local one; the command carries that image and signature, and the local image to be replaced, or none exactly when there is none |
| Reconciliation.Issue | src/daemon/tracking/reconciliation.rs:164-298 | The commands are the first wanted ones that fit under the throttle; with those running they are never more than three, and the round is cut short only at three |
| Reconciliation.Reconcile | src/daemon/tracking/reconciliation.rs:120-300 | The closure as a whole |
| ReconciliationProperties.WeighedUnder | src/daemon/tracking/reconciliation.rs:124-156 | Under each name the retention check weighs the remote image if that is not recently deleted, signed, and newer than every local signature, and else the local one |
| ReconciliationProperties.JudgedUnlessDeleted | src/daemon/tracking/reconciliation.rs:128-163 | The retention check weighs the very image asked for exactly when that was not recently deleted |
| ReconciliationProperties.WantedIsFetchable | src/daemon/tracking/reconciliation.rs:128-199 | An image is asked for if and only if it is newer than the local one and what is weighed in its place deserves to be kept, whatever the listing order |
| ReconciliationProperties.DeletedImagesStillReplace | src/daemon/tracking/reconciliation.rs:130-163 | A recently deleted image is asked for again if and only if there is an older local image that itself deserves to be kept |
| ReconciliationProperties.DeletedImageSample | src/daemon/tracking/reconciliation.rs:130-134 | An input on which it is |
| ReconciliationProperties.FetchedImagesSurviveCleanup | src/daemon/tracking/reconciliation.rs:157-178 | Whatever part of the commands is carried out, cleanup at the same clock keeps every fetched image, recently deleted or not, as long as no recently deleted image in that part is kept by the keep list alone |
| ReconciliationProperties.KeepListedDeletionCrowdsOut | src/daemon/tracking/reconciliation.rs:130-178 | An input on which a deleted image kept by the keep list alone makes cleanup drop another fetched image |
| ReconciliationProperties.EveryPartSparesExactly | src/daemon/tracking/reconciliation.rs:128-199 | Where the ages after the commands are distinct, cleanup keeps a fetched image after every part of the commands if and only if there is room for it beside the images weighed above it and the deleted ones that leap over it |
| ReconciliationProperties.IssuedCommands | src/daemon/tracking/reconciliation.rs:171-298 | Commands are for wanted names, each once, within the throttle, and each carries the remote image, its first signature and the local image to be replaced, if any |
| ReconciliationProperties.FullIssuesAll | src/daemon/tracking/reconciliation.rs:166-299 | A round counts as full if and only if every wanted name got its command |
| Replication.CommandAnswer | src/daemon/tracking/reconciliation.rs:215-277 | On a path as the reconciliation found it a command is accepted if and only if its signature verifies and the directory allows it |
| Replication.CommandOverwritesOnlyWhatItWeighed | src/daemon/tracking/reconciliation.rs:215-277 | Whatever has happened since, an accepted command overwrites only the local image it was weighed against, and an append nothing |
| Replication.CommandCarriesItsImage | src/daemon/tracking/reconciliation.rs:215-277 | When its download commits, the record is the one the reconciliation reckoned with, and whatever signatures joined meanwhile |
| ReconciliationProperties.NewestAreIssued | src/daemon/tracking/reconciliation.rs:167-171 | The throttle never prefers an image signed earlier |
| ReconciliationProperties.ReplacementRaises | src/daemon/tracking/reconciliation.rs:194-199 | A replacement strictly raises the timestamps of its path |
| ReconciliationProperties.RoundUsesHeadroom | src/daemon/tracking/reconciliation.rs:137-155 | Every fetched image uses up a finite supply |
| ReconciliationProperties.ReconciliationIsFinite | src/daemon/tracking/reconciliation.rs:181-199 | Without new uploads or deletions any set of nodes fetches only finitely often |
| Agreement.LastSignedIsLatest | src/daemon/tracking/reconciliation.rs:167-169 | The sort key is the largest timestamp |
| Agreement.AtRestExactly | src/daemon/tracking/reconciliation.rs:144-154 | Nothing is left to fetch if and only if no node lacks a signed image or holds a different one last signed before that was first signed |
| Agreement.AgreementAtRest | src/daemon/tracking/reconciliation.rs:188-199 | At rest every signed name is everywhere, and two nodes settled on a name hold the same image or images whose signatures overlap in time |
| Agreement.SignedOnceAgree | src/daemon/tracking/reconciliation.rs:188-199 | Images signed once, at different times, are the same everywhere at rest |
| Agreement.ApartForGood | src/daemon/tracking/reconciliation.rs:188-199 | Two nodes at rest with different images |
| IndexTree.FillDirs | src/cluster/download.rs:108-167 | The loop with its borrowed directory computes the specified parse, with the same errors |
| IndexParsing.OneMoreEntry | src/cluster/download.rs:108-167 | What one more entry changes in the tree, for every file, link and directory, or with which error it stops the reading |
| IndexParsing.FirstRefusal | src/cluster/download.rs:108-167 | A list is read if and only if no entry is refused, and fails with the error of the first that is |
| IndexTree.InsertInPlace | src/cluster/download.rs:321-346 | The descent, with its borrowed directory, makes of the tree exactly what the recursive specification says, also where it fails |
| IndexTree.MutableIndex.Insert | src/cluster/download.rs:243-264 | The new tree and error are those of the specified insertion |
| IndexRoundTrip.ReplayDir | src/cluster/download.rs:287-319 | The entries of a directory, read where it is missing, put it there |
| IndexRoundTrip.EmitThenParse | src/cluster/download.rs:265-319 | Parsing the emitted list of any tree gives the tree with its files remote and its empty directories gone |
| IndexRoundTrip.EmittedAlike | src/cluster/download.rs:299-303 | Local and remote files are emitted alike |
| IndexRoundTrip.RoundTrip | src/cluster/download.rs:369-381 | Without empty directories the same tree comes back, and emitting it again gives the same list |
| IndexOrder.EmissionAscends | src/cluster/download.rs:287-319 | The entries of each directory, and its subdirectories, are written in ascending order of their names |
| IndexUpdates.GetFileIsFind | src/cluster/download.rs:212-230 | Looking a path up is finding its names among the remote files, and after writing out and reading back among all files |
| IndexUpdates.InsertThenLookup | src/cluster/download.rs:243-264 | After an insertion the path gives the inserted file, paths below it nothing, every other path what it gave before |
| IndexParsing.InsertKeepsTheRest | src/cluster/download.rs:321-346 | A successful insertion leaves every other file, link and directory as it was |
| IndexUpdates.NotFoundBeforeEmission | src/cluster/download.rs:212-264 | Until the index is written out `get_file` finds nothing at or below an inserted path, however it is spelt, and elsewhere what it found before |
| IndexUpdates.InsertOutcome | src/cluster/download.rs:321-346 | When an insertion succeeds, and with which error it fails |
| IndexUpdates.FailedInsert | src/cluster/download.rs:321-346 | A failed insertion leaves the tree alone, except where a later component stops it after directories were made |
| IndexUpdates.BadPathLeavesDirectory | src/cluster/download.rs:330-340 | An input on which directories are left behind |
| Requests.Registry.Register | src/proto/request.rs:280-291 | The search ends on a free identifier, with wraparound, and overwrites nothing |
| Requests.Registry.Respond | src/proto/request.rs:123-158 | A reply takes its request out of the registry and is delivered, mistyped or unsolicited |
| Requests.NextIdIsFree | src/proto/request.rs:282-287 | With fewer than 2^64 requests outstanding the identifier chosen is free |
| Requests.NextIdIsNext | src/proto/request.rs:280-287 | It is the first free one after the last used, all those between being taken |
| Requests.ReplyFindsItsRequest | src/proto/request.rs:123-143 | A reply is delivered to the request it answers |
| Requests.RepliesAreMatched | doc/protocols/websocket.rst:19-23 | If the peer answers each request once in any order, no reply is unsolicited or mistyped, each wakes the request it answers, none twice, and in the end all |
| Requests.RepliesSettleRequests | src/proto/request.rs:123-158 | Whatever replies arrive, each request is settled at most once, by a reply under its own identifier, is woken up if and only if that is an error or of its type, and none is lost |
| ConfigMaps.ConfigMap.Set | src/daemon/peers/two_way_map.rs:29-65 | One machine's configuration is replaced, the index stays the exact inverse, and the unreachable branch is not taken |
| ConfigMaps.ConfigMap.Get | src/daemon/peers/two_way_map.rs:66-68 | The configuration last set, with its hash |
| ConfigMaps.ConfigMap.ByDir | src/daemon/peers/two_way_map.rs:69-71 | Exactly the machines configured for a directory, and none stands for no entry |
| ConfigMaps.InverseIsUnique | src/daemon/peers/two_way_map.rs:15-19 | The index maintained step by step is the one built from scratch |
| ConfigMaps.LatestIsLast | src/daemon/peers/two_way_map.rs:29-65 | The configuration of a machine is that of the last call naming it |
| ConfigMaps.LatestWasSet | src/daemon/peers/two_way_map.rs:29-65 | Only machines that some call names have a configuration |
| ConfigMaps.Replay | src/daemon/peers/two_way_map.rs:29-71 | After any calls `by_dir` answers for the last configuration of every machine |

## Left out

- Sockets, websockets, gossip, DNS and timers: environment steps stand for them.
- File and directory I/O errors, permissions, hardlinking and directory exchange: file operations succeed and are atomic; a record renamed as broken counts as removed, and a record that does not decode does not occur.
- Interleavings finer than the single steps named above.
- Configuration changes across restarts: one configuration holds throughout a run.
- Hashes, CBOR, signature verification and the text of the index format: a hash is an injective function, an index a list of entries.
- `src/daemon/tracking/fetch_index.rs`: its meaning lies in weak references and drop hooks of libraries.
- The counters of blocks, bytes and downloads, the stalled flag, and failure tracking of hosts: they do not feed back into the modelled state except through whether a peer can be asked.
- Masks of different hosts: slices depend on each host's hardlinked files, so bits of two hosts need not mean the same blocks.
- `src/cluster/set.rs` and `src/cluster/upload.rs`: connection bookkeeping.
- The 64-bit width of block offsets: files are shorter than that.
- Notifications and responses sent by this side of a connection: they take no identifier.
- Mask: a word is written as its sixteen positions instead of an integer, and the atomic operations are single steps.
- Fetcher.FetchBlocks.Poll: does not model an unbounded number of passes in one poll; after `passes` of them it answers `Running`, and the next call goes on.
- Fetching.Download: does not promise that the download gets ready, which depends on the peers; `SchedulerProgress.CanFinish` says that it always can.
- Names.Plain: final names ending in `.new`, starting with `.tmp.`, or equal to `.tmp` are outside the runs of the metadata, because their records clash with those of siblings or with their temporaries.
- ReconciliationProperties.FetchedImagesSurviveCleanup: assumes the signature lists a peer sends sorted, as every list stored by this code is, and images of distinct ages before the commands. Where a recently deleted image is kept by the keep list alone the promise can fail, as `ReconciliationProperties.KeepListedDeletionCrowdsOut` shows; `ReconciliationProperties.EveryPartSparesExactly` says exactly when it holds for every part of the commands, the throttle aside.
- RetentionProperties.SortOutByMerit: assumes distinct ages, since equal ones are told apart only by the order of the list; the same holds for `ReconciliationProperties.DeletedImagesStillReplace`.
- ReconciliationProperties.ReconciliationIsFinite: takes scan, decision and committed replacement as one step.
- Agreement.AtRestExactly: speaks of clusters without automatic cleanup and recent deletions.
- A directory configured with `num_levels` 0: for a path of level 0 the source panics in `parent_rel`, where the model answers a level mismatch.
- IndexTree.FillDirs: paths are lists of components; the normalization of path text is that of the standard library.
- IndexTree.MutableIndex: holds the tree only; header, location, block size and hash type are not changed by any operation.
- Requests.Registry.Register: wraps around at 2^64; a build with overflow checks would stop instead.
