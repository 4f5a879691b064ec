# OmniBlob storage, verified model

A Dafny model of OmniBlob: a file service that keeps uploads in a content-addressed store beside an
SQL metadata table, migrates files of an older layout in checkpointed batches, lists a virtual
directory tree, keeps a hash-chained audit log, throttles clients, signs URLs and quarantines orphans.

The disk is a map from paths to bytes and a table is a map from keys to rows. Protocols (saving,
the upload service, migration, racing failure counts, the audit log) are state machines whose events are
single file-system or table actions, failures and crashes; a theorem over all runs is a theorem over
all interleavings. Code that changes state is also written as classes with methods (`SaveCas`,
`Handler`, `MigrationBatch`, `Watermark`, `AuditLog`, `RateLimit`, `Blocklist`, `Quarantine`), each
proved against the functions or the machine the theorems are about. Digests and MACs are arbitrary
functions; where a result needs them not to collide, it says on which inputs.

| file | about |
|---|---|
| `Content.dfy`, `Collections.dfy` | bytes and digests; sums and small facts about sets |
| `Paths.dfy`, `PathTree.dfy` | cleaning and joining paths, destination names of migrated files; when a joined path stays below its root |
| `CasStore.dfy`, `SaveCas.dfy` | the publish protocol over all interleavings; one call of it |
| `BlobService.dfy`, `Handler.dfy` | upload, serve and delete refining a plain map; the handlers |
| `DataQuality.dfy` | the duplicate report |
| `Migration.dfy`, `MigrationRuns.dfy` | the batch machine and its invariant; what whole runs guarantee |
| `Planning.dfy`, `MigrationBatch.dfy` | where a row's file is found and goes; one batch as a loop |
| `MigrationOpens.dfy`, `LegacyMigration.dfy` | what failed opens cost; runs with the code's own lookup: stored paths, places below the root |
| `VirtualDirectory.dfy` | the group-by listing and the tree |
| `Watermark.dfy`, `AuditLog.dfy` | the clock and the hash chain |
| `RateLimit.dfy`, `Blocklist.dfy` | the two throttles |
| `BlocklistRaces.dfy`, `BlocklistCounts.dfy`, `BlocklistSchedules.dfy` | recording failures when requests race: what bans count; which failures count, and how often; schedules that go wrong |
| `UrlQuery.dfy`, `Presign.dfy` | query strings and presigned URLs |
| `Quarantine.dfy`, `LiveObjects.dfy` | orphan detection; what it does to objects in use and to serving them |

## What is false of the code

Each of these is a lemma with a concrete input or an exact condition; the code is modelled as it is.

- A stat that fails for any reason but absence counts as "exists", so `SaveCAS` may report success
  with nothing stored (`CasStore.MisreadLosesTheStream`; exact condition for one call in
  `SaveCas.StorageService.SaveCAS`, over runs in `CasStore.ReceiptIsHonouredIff`).
- An upload whose `physical_objects` insert failed is answered with an id that serves 404
  (`BlobService.UnindexedUploadIs404`; exact condition, over runs, in `BlobService.UnindexedUntilRecorded`).
- A failed open of a stored object makes serving go on: the id may answer with the bytes of a file at the
  row's names below the legacy root (`BlobService.FailedOpenServesAnother`; exact condition in
  `BlobService.ServeIsRightIff`).
- An underscore in a folder name is a `LIKE` wildcard: the folder's listing counts files of others
  (`VirtualDirectory.UnderscoreLeaks`), and a backslash is its escape: the folder lists nothing
  (`VirtualDirectory.BackslashHides`). Exact condition in `VirtualDirectory.ListingAddsUpIff`.
- The root listing names "objects" twice when a path begins with it (`VirtualDirectory.ListDirectory`).
- "Already under the storage root" is a string test: with roots /data and /data_old nothing is copied
  (`Planning.DataOldIsNotCopied`; exact conditions in `Planning.LegacyFileIsCopiedIff` and
  `Planning.BaseNameIsCopiedIff`), and rows stay whose files are outside the root
  (`LegacyMigration.KeptFileIsUnderRootIff`).
- A failed open of a row's file makes the lookup go on: with /legacy/d/a and /legacy/a, the row d/a is
  marked with the bytes of the second (`Planning.TwoFilesOneRow`, `LegacyMigration.FailedOpenMarksAnother`;
  exact condition in `LegacyMigration.OneContentIffRunsStayRight`).
- A module named ".." puts migrated files outside the storage root (`LegacyMigration.DotDotModuleEscapes`;
  exact condition in `LegacyMigration.CopiedFileIsUnderRootIff`).
- A failed read-back of a migrated file is stored as an empty checksum (`MigrationRuns.MarkedRowsAreTrue`).
- A failed audit write, or a line of 64 KiB before a restart, forks the chain
  (`AuditLog.FailedWriteForksTheLog`, `AuditLog.LongLineForksTheLog`; exact conditions in
  `AuditLog.VerifiesIffInStep` and `AuditLog.LogVerifiesIff`).
- A watermark that cannot be written or read lets time go back (`Watermark.ClockCanGoBack`; exact
  condition in `Watermark.StampDecreasesIff`).
- The limiter and the blocklist cut an address at its first colon, so all IPv6 clients of a group are one
  (`RateLimit.IPv6ClientsShare`).
- The request limit is not a rate: a client at one request a minute is refused after as many as the
  limit (`RateLimit.SteadyClientIsRefused`).
- Racing failures may count as one (`BlocklistSchedules.RacingFailuresCountAsOne`) or in two bans
  (`BlocklistSchedules.FourFailuresInTwoBans`; exact condition for both in `BlocklistCounts.FailuresCountOnceIff`).
- A call that stalls between clock and tracker may be counted with much later failures
  (`BlocklistSchedules.StalledCallSpoilsABan`; exact condition in `BlocklistRaces.BanIsEarnedIff`).
- A presigned URL made from one that already has a signature is not accepted
  (`Presign.GeneratedIsAcceptedIff`); a method with a newline is ambiguous (`Presign.NewlineInMethodIsAmbiguous`).
- Quarantine loses the file at an occupied target (`Quarantine.RunConserves`), moves live stored objects
  past the grace period (`LiveObjects.LiveObjectIsMovedIff`) and never scans siblings whose name begins
  with the quarantine directory's (`Quarantine.SiblingIsSkipped`).

## Model

| member | source | states |
|---|---|---|
| CasStore.ObjectsAreWholeStreams | internal/storage/storage.go:162-210 | in every run of any number of saves, with every fault and crash, a published object hashes to its name and is a whole stream some caller sent |
| CasStore.ObjectsArePermanent | internal/storage/storage.go:191-209 | once published an object never changes or disappears, whatever later calls, races and crashes do, while streams do not collide |
| CasStore.ReceiptsAreHonoured | internal/storage/storage.go:187-209 | every success ever returned names an object equal to that caller's stream and size, in runs where no failed stat of a missing object is taken for its presence |
| CasStore.ObjectsAreRenames | internal/storage/storage.go:191-209 | over any run, from any disk, an object exists at the end exactly when it did before or some call of its checksum renamed its file there |
| CasStore.ReceiptIsHonouredIff | internal/storage/storage.go:187-209 | over every run with any faults and misread stats, a success names an object with its stream exactly when some call of that checksum got as far as a successful rename |
| CasStore.MisreadLosesTheStream | pkg/fileutil/file.go:11-14 | for every hash and stream a run returns success with nothing stored, because the stat failed |
| SaveCas.StorageService.SaveCAS | internal/storage/storage.go:162-210 | the outcome and the new disk of one call for every combination of faults, when a success leaves the object missing, that the temporary file stays behind exactly when it was neither renamed nor removed, and that the call is a run of the protocol |
| SaveCas.StorageService.Publish | internal/storage/storage.go:187-209 | check, rename, second look and discard: new disk and result, temporary file included, as a run of the protocol |
| SaveCas.StorageService.CopyToTemp | internal/storage/storage.go:163-180 | the temporary file holds exactly what the reader delivered |
| SaveCas.FlattenPrefix | internal/storage/storage.go:176-179 | what is written after some chunks is the beginning of the whole stream |
| BlobService.StepRefinesMap | internal/api/handler.go:243-308 | each step of the service in which no failed stat hides a missing object is one step of a plain map from id to bytes; an insert puts its caller's own stream under a free id |
| BlobService.RunRefinesMap | internal/api/handler.go:243-308 | a whole run without such a misread stat ends in the map its puts and drops describe |
| BlobService.EveryRunRefinesMap | internal/api/handler.go:243-308 | every run, misread stats included: the table has exactly the ids of that map, with the checksums and sizes of its bytes, and those bytes are stored exactly when some upload of them was renamed into place |
| BlobService.NextIdIs | internal/repository/binary_file_repository.go:179-187 | for any table: the id an upload tries is above every id, and the one below it is taken or there is none; without an answer, or past only negative ids, it is the clock |
| BlobService.PickThenInsert | internal/repository/binary_file_repository.go:168-206 | an upload that picks its id and inserts at once gets in, on any table of positive ids, exactly unless the query failed and the clock is taken; under one past the largest id, with its own names, its path without a leading slash, its size and checksum, and no other row changed |
| BlobService.StoredIffPublished | internal/storage/storage.go:187-209 | over any run of the service an object exists exactly when it did or an upload of its checksum was renamed into place |
| BlobService.OpenFindsObject | internal/storage/storage.go:213-227 | the object's place is the first one tried, so an indexed object that opens is served, whatever other files exist |
| BlobService.NameSpots | internal/api/handler.go:379-386 | the four places of a row's names, in order: below its directory, or its module if it has none |
| BlobService.AbsoluteSpots | internal/storage/storage.go:214-256 | the four places of an absolute path, in order: its slash counts only where it is tried as given |
| BlobService.DirectoryGoesFirst | internal/api/handler.go:379-386 | with files at both names, a row with a directory is served the one there and not the one at its module |
| BlobService.ServeTakesFirst | internal/storage/storage.go:213-270 | serving answers with the first of eight named places that is occupied and opens, and 404 exactly when none does, for any set of attempts that fail |
| BlobService.ServeIsRightIff | internal/api/handler.go:348-396 | for any failing lookups and opens, in any reachable state: right exactly when the row can be read and its indexed, stored object opens or the first place that does open holds its bytes; 404 exactly when the row cannot be read or none opens |
| BlobService.UploadedBytesAreServed | internal/api/handler.go:243-308 | for an upload indexed before its insert, after any continuation without a delete of that id, misread stats included: served exactly as uploaded if some upload of that content was ever renamed into place and the object can be looked up and opens; otherwise right and 404 exactly as the first place that opens decides |
| BlobService.SightedUploadIsPublished | internal/storage/storage.go:187-209 | such a rename took place if no stat was misread before the insert |
| BlobService.UnindexedUploadIs404 | internal/api/handler.go:260-263 | for every hash and stream, a run in which the index insert fails answers an id that serves 404 |
| BlobService.FailedOpenServesAnother | internal/storage/storage.go:213-270 | for every stream: a run after which one failed open of a stored, indexed object serves any given file at the row's names below the legacy root |
| BlobService.IndexedIffRecorded | internal/repository/physical_object_repo.go:40-51 | over any run a checksum is in the index exactly when it was, or an upload of it recorded it |
| BlobService.UnindexedUntilRecorded | internal/api/handler.go:254-263 | after a failed index insert, over any continuation: served as above once an upload of the same content is recorded; until then the first place of the row's own path and names that opens decides |
| Handler.UploadShowsIff | internal/api/handler.go:243-308 | an upload answered with an id shows exactly its stream under that id, which was free, and one answered with an error changes nothing that shows; exactly unless a failed stat hid a missing object |
| Handler.UploadIsAnswered | internal/repository/binary_file_repository.go:168-206 | on a table of positive ids, an upload whose save and insert work is answered with one past the largest id; with the clock if the query failed, or an error if that is taken; its row holds what was uploaded and no other changes |
| Handler.UploadIsIndexed | internal/api/handler.go:254-263 | the index has a checksum after an upload exactly when it had it, or it is the file's own, the save worked and so did the insert; entries never change |
| Handler.DistinguishedByHash | internal/storage/storage.go:187-195 | an object already present under the stream's checksum is that stream, if the checksum does not collide on the stored objects and it |
| Handler.DeleteShows | internal/api/handler.go:617-626 | a delete removes one id from what shows and keeps every other, shared content included |
| Handler.BulkFilesEach | internal/api/handler.go:500-581 | results line up with files; each success names a distinct new row with its own file; no other row is written or changed |
| Handler.BulkShowsEach | internal/api/handler.go:500-581 | the object of each success is there exactly when it was before or some file of its content was stored for certain, and then it is that file's own stream |
| Handler.BulkIdsAreConsecutive | internal/api/handler.go:500-581 | a bulk upload in which nothing fails is answered with consecutive ids from one past the largest, in the order of the files |
| Handler.Server.InsertBinaryFile | internal/repository/binary_file_repository.go:168-206 | with an answer to the query and an insert that works, on a table of positive ids: Created, with one past the largest; without one: the clock, unless taken; otherwise nothing changes |
| Handler.MaxKey | internal/repository/binary_file_repository.go:182 | the largest id, 0 for an empty table |
| Handler.Server.Upload | internal/api/handler.go:243-308 | objects, index, table and answer after one upload, for every combination of failures |
| Handler.Server.BulkUpload | internal/api/handler.go:463-588 | the same for the loop over files, each starting from what the one before left |
| Handler.Server.DeleteFile | internal/api/handler.go:617-626 | only the metadata row goes |
| DataQuality.WasteAccountsForAllBytesIff | internal/repository/binary_file_repository.go:345-357 | stored bytes are one copy of each content plus the reported waste exactly when equal checksums have equal sizes, and never more |
| DataQuality.DuplicateCount | internal/repository/binary_file_repository.go:345-357 | reported duplicates are the rows with a checksum minus the distinct checksums |
| DataQuality.ReportIsExactForUploads | internal/repository/binary_file_repository.go:345-357 | both hold in every state uploads, deletes, failures, misread stats and crashes reach |
| Paths.CleanKeepsLast | internal/storage/storage.go:114-117 | cleaning a path never touches a proper last name, whatever dots come before it |
| Paths.SafeFilenameIs | internal/storage/storage.go:18 | letters, digits, dots, underscores and dashes of a name stay, every other character is an underscore |
| Paths.JoinSkipsEmpty | internal/service/sync_service.go:152-155 | joining skips empty elements |
| Paths.BaseIgnoresSlash | internal/storage/storage.go:256 | slashes at the end of a path do not count for its base |
| Paths.ShardedPathRevealsId | internal/storage/storage.go:81-118 | a migrated path ends in its id (or the clock without one), an underscore and the safe name, so the id can be read back |
| Paths.DestinationsAreDistinct | internal/storage/storage.go:81-118 | distinct positive ids give distinct destinations for all other inputs |
| PathTree.ShardedPathComponents | internal/storage/storage.go:81-118 | the components of a migrated path, for any inputs: those of the bucket (uploads for none or files), then of the directory for a scanned file that has one and of the normalised module (general for none) otherwise, then year, month and name |
| Migration.FirstIsFirst | internal/repository/binary_file_repository.go:142-145 | the pending rows are ascending, above the checkpoint, with none left out, and short only when rows run out |
| Migration.DispatchIffSlotFree | internal/service/sync_service.go:117-145 | a row with work is taken exactly while fewer workers run than the set number, 2 if none is set and 8 at most |
| Migration.StepKeepsInv | internal/service/sync_service.go:133-208 | every event of any worker, any set of failing opens, failed directory, stat, create, write, read-back or update, and crash keeps sources, destinations, rows and worker states consistent |
| MigrationRuns.DestinationsArePrefixes | internal/storage/storage.go:213-329 | at every moment sources are unchanged and a destination is absent or a beginning of a source its row may be given; of the row's own source, so that equal size is equal content, if those have one content or nothing failed |
| MigrationRuns.MarkedRowsAreTrue | internal/service/sync_service.go:162-180 | whatever failed, a row flagged M keeps its module, directory and name and carries the size and checksum (empty if the read-back failed) of the existing file its worker's plan led to; that file has the bytes of the row's own source if its sources have one content or nothing failed. Which file the stored path leads to: LegacyMigration.StoredPathFindsTheFile |
| MigrationOpens.FailedOpensAreHarmlessIff | internal/storage/storage.go:213-270 | all runs, with any opens failing that may, keep marked rows and destinations to each row's own source exactly when the sources each row may be given have one content |
| MigrationOpens.DivertedRun | internal/storage/storage.go:218-267 | for any row with another possible source, a run that marks it with that source's bytes |
| MigrationRuns.BatchAccounts | internal/service/sync_service.go:117-131 | executed plus errors is the batch, nothing counted twice, at most the set number of rows (100 if none is set) and never more workers than set, 2 if none is and 8 at most |
| MigrationRuns.BatchOutcomeIsDetermined | internal/service/sync_service.go:133-208 | without input or output errors the outcome of a batch is the same for every schedule, worker count and earlier crash |
| MigrationRuns.CheckpointNeverDecreases | internal/service/sync_service.go:89-94 | from any reachable state, over any further run, the checkpoint never goes down, even when reading it fails and batches restart from 0 |
| MigrationRuns.CheckpointMeansAttempted | internal/service/sync_service.go:200-208 | every id up to the checkpoint was attempted |
| MigrationRuns.AllRunsAgree | internal/service/sync_service.go:86-216 | two runs, however scheduled, crashed and configured, that have attempted all rows without faults end in the same table and files |
| MigrationRuns.TableDrains | internal/service/sync_service.go:96-110 | n rows are drained by any ceil(n / batch) batches that read and write their checkpoint, whatever comes between |
| Planning.PlanShape | internal/storage/storage.go:283-329 | a copied or kept row has an existing source and the path its decision gives |
| Planning.CopiedPathComponents | internal/storage/storage.go:283-284 | the same for the path a copied row gets, with the year and month of its source |
| Planning.CopiedPathSpelled | internal/storage/storage.go:111-117 | spelled out with slashes: a scanned file keeps its directory; one of any other module is filed under its module twice, whatever its directory |
| Planning.LegacyPathIs | internal/service/sync_service.go:149-160 | a row is looked for by its path, or its name below its directory, or below its module if it has none |
| Planning.CandidatesAre | internal/storage/storage.go:214-267 | the places it is looked for under two roots, in order, with and without a leading slash and a legacy root |
| Planning.FoundUnderRootIsKept | internal/storage/storage.go:286-297 | a file found below the storage root is kept there under the row's path, or under the generated one if it is there already |
| Planning.FoundAtDestinationIsKept | internal/storage/storage.go:286-290 | a file found at its destination by its absolute path is kept, and the row gets the relative path |
| Planning.CodeFitsSetting | internal/storage/storage.go:213-301 | the decisions of the code meet what the theorems on runs assume, on tables where no lookup hits a destination |
| Planning.AgreesIff | internal/storage/storage.go:213-270 | a row's sources agree exactly when no occupied place behind places that may fail to open holds other content |
| Planning.FailedOpenCopiesAnother | internal/storage/storage.go:241-267 | with files at a row's own legacy place and at its base name, one failed open copies the second to the same destination |
| Planning.TwoFilesOneRow | internal/storage/storage.go:241-267 | the same for the row d/a with /legacy/d/a and /legacy/a, for any such names |
| Planning.LegacyFileIsCopiedIff | internal/storage/storage.go:292-297 | for any roots, rows and disks: a file found at its legacy place is copied exactly when the storage root's spelling does not begin that place's |
| Planning.BaseNameIsCopiedIff | internal/storage/storage.go:292-297 | the same for a file found only at its base name below the legacy root |
| Planning.RootsDecide | internal/storage/storage.go:292-297 | for paths that do not climb and a legacy root spelled at least as long, the two roots alone decide |
| Planning.DataOldIsNotCopied | internal/storage/storage.go:292-297 | with /data and /data_old no file of the legacy root is copied, and none of them lies below /data |
| Planning.DefaultRootsAreCopied | internal/storage/storage.go:292-297 | with the default roots every one is |
| PathTree.ComponentsOfJoin | internal/storage/storage.go:284 | joining takes the clean steps of the second path from the place of the first |
| PathTree.JoinStaysInsideIff | internal/storage/storage.go:284 | a joined path stays below its root exactly when its clean form has no leading "..", or names again the components those drop |
| PathTree.InsideIffSpelledBelow | internal/storage/storage.go:292-297 | a path lies below a root without ".." exactly when its clean spelling goes on from the root's at a slash |
| LegacyMigration.OneContentIffRunsStayRight | internal/storage/storage.go:213-270 | every run keeps every row's own bytes exactly when no row has a later occupied place with other content behind places that may fail to open |
| LegacyMigration.FailedOpenMarksAnother | internal/storage/storage.go:213-329 | a run that ends with the row marked and its destination holding the other file |
| LegacyMigration.StoredPathFindsTheFile | internal/service/sync_service.go:162-180 | looking up the path stored in a marked row finds a file: the row's own bytes unless a failed open could lead elsewhere, of the stored size and checksum also if it was copied, and otherwise exactly if it has the content of the file the worker read |
| LegacyMigration.CopiedFileIsUnderRootIff | internal/storage/storage.go:283-284 | the file a copied row names lies below the storage root exactly when its stored path has no leading "..", or names again the root's components those drop |
| LegacyMigration.KeptFileIsUnderRootIff | internal/storage/storage.go:285-297 | the file a kept row names is the row's destination or one whose name begins with the root's; it lies below the root exactly when the name goes on at a slash |
| LegacyMigration.DotDotModuleEscapes | internal/storage/storage.go:81-118 | with ".." for a module the destination below /data is /2024/01/<id>_<name> |
| MigrationBatch.MigrationService.CopyFile | internal/storage/storage.go:310-329 | a copy ends with the whole source, or is removed, or is left as a beginning when the removal fails |
| MigrationBatch.MigrationService.MigrateLegacyFile | internal/storage/storage.go:273-330 | directory, existing destination, create and copy in turn, each of which may fail: what it returns is what the worker of the machine goes on to store |
| MigrationBatch.MigrationService.Work | internal/service/sync_service.go:149-193 | a worker's turn ends as executed or as an error, and is a run of the machine |
| MigrationBatch.MigrationService.RunMigrationBatch | internal/service/sync_service.go:86-216 | a batch run in sequence stays within the machine, adds up, logs the last id, and without failures leaves every pending row as planned |
| VirtualDirectory.LikeIsPrefix | internal/repository/binary_file_virtual.go:50 | LIKE prefix with a trailing percent is "starts with" for prefixes without wildcards |
| VirtualDirectory.LikeIs | internal/repository/binary_file_virtual.go:50 | what each wildcard and the escape stand for, over all strings and patterns |
| VirtualDirectory.SelectedIs | internal/repository/binary_file_virtual.go:28-56 | every path but the empty one is listed at the root, and below a prefix without wildcards those that go on from it |
| VirtualDirectory.LTrimIs | internal/repository/binary_file_virtual.go:31 | slashes in front of a path do not count at the root |
| VirtualDirectory.CleanPrefixIs | internal/repository/binary_file_virtual.go:16-24 | a request with or without slashes before and after is the directory's name and one slash; for the root, nothing |
| VirtualDirectory.NodeSizeIsSubtree | internal/repository/binary_file_virtual.go:43-54 | a node shows the total at or below it, plus the rows matched only by a wildcard, less the rows an escape keeps from matching |
| VirtualDirectory.ListingAddsUpIff | internal/repository/binary_file_virtual.go:16-56 | for any prefix: the size of a directory is that of its listing plus the rows that are the directory exactly when both levels are off by the same, strays less missing rows |
| VirtualDirectory.DirectoryShowsSubtree | internal/repository/binary_file_virtual.go:16-56 | for wildcard-free names the size is the whole subtree and the listing adds up to it |
| VirtualDirectory.DirectoryIsSubtree | internal/repository/binary_file_virtual.go:43-54 | a node is a directory exactly when a row lies strictly below it, and its dates are those of its subtree |
| VirtualDirectory.RootShowsEverything | internal/repository/binary_file_virtual.go:28-41 | the root listing adds up to all rows |
| VirtualDirectory.UnderscoreLeaks | internal/repository/binary_file_virtual.go:50 | a two-row table on which the sizes of two levels disagree |
| VirtualDirectory.BackslashHides | internal/repository/binary_file_virtual.go:50 | a folder with a backslash in its name shows a size and lists nothing |
| VirtualDirectory.DescentIsExact | internal/repository/binary_file_virtual.go:16-94 | descending reaches every row by exactly one chain of listed names, its components, and nothing but rows and their directories |
| VirtualDirectory.WildcardFreeTable | internal/repository/binary_file_virtual.go:50 | tables without wildcard characters meet the hypotheses of the descent |
| VirtualDirectory.OutPathListsChildren | internal/api/explorer_handler.go:103-106 | the path handed out for a node, requested next, lists that node's children |
| VirtualDirectory.GetVirtualDirectory | internal/repository/binary_file_virtual.go:63-93 | what the query answered, nameless group skipped, in order, each node with the path, kind, size and latest date of its group; up to 5000 groups these are all children |
| VirtualDirectory.ListDirectory | internal/api/explorer_handler.go:92-125 | every node the query answered, directories first and in order, with the kind, size and latest date of its group and a path ready to be requested; at the root a last node for objects, a directory of size 0 dated now; up to 5000 groups these are the children; names are distinct except at a root that lists a path under objects |
| Watermark.ClockIsMaximum | pkg/license/watermark.go:54-63 | with a legible record the clock is the larger of reading and record |
| Watermark.FallsBehindIff | pkg/license/watermark.go:16-63 | a call returns less than the record exactly when its reading is less and the record is illegible afterwards, or was before and got overwritten |
| Watermark.StampIsMaximum | pkg/license/watermark.go:14-63 | over any readings and failures a call returns the largest of its own reading and what is held: written and not overwritten since, if it can be read |
| Watermark.StampDecreasesIff | pkg/license/watermark.go:14-63 | over any readings and failures a later call returns less exactly when the earlier one knew a value larger than all the later one knows |
| Watermark.UnwrittenPeakIff | pkg/license/watermark.go:14-63 | with legible records, exactly when a peak could not be written and nothing written or read later makes up for it |
| Watermark.ClockIsRunningMaximum | pkg/license/watermark.go:52-63 | with successful writes each call returns the maximum of all readings so far |
| Watermark.ClockCanGoBack | pkg/license/watermark.go:52-63 | two pairs of calls in which time goes back |
| Watermark.ClockFile.UpdateWatermark | pkg/license/watermark.go:16-33 | refuses a reading behind a legible record, else records it if it can |
| Watermark.ClockFile.GetMonotonicTime | pkg/license/watermark.go:54-63 | returns and records the clock of the specification |
| AuditLog.LastHashFixesTheLog | internal/logger/audit.go:91-97 | two verifying logs with the same last hash are the same log, so no earlier edit, drop or reorder goes unnoticed |
| AuditLog.RestartTakesOver | internal/logger/audit.go:43-76 | a restart recovers a beginning of the log, and all of it exactly when no line of the latest file is too long to scan |
| AuditLog.VerifiesIffInStep | internal/logger/audit.go:48-105 | over every run of appends, failures and restarts, for any hash: the log verifies exactly when each write that succeeded found the memory at the last hash of the files |
| AuditLog.LogVerifiesIff | internal/logger/audit.go:48-105 | what that comes to, in runs that hash nothing twice or have no line too long to scan, if the hash does not collide on them: no write succeeded after a failed one, or after a restart stopped at a long line, without a good restart in between |
| AuditLog.GoodLogsAreWhole | internal/logger/audit.go:43-105 | from an empty directory, over any appends and restarts with successful writes, one chain from an entry that points to 64 zeros, with ordered timestamps |
| AuditLog.GoodRunsVerify | internal/logger/audit.go:48-105 | with successful writes and scannable lines the log verifies, with nothing asked of the hash |
| AuditLog.FailedWriteForksTheLog | internal/logger/audit.go:101-104 | a refused write followed by an accepted one breaks verification |
| AuditLog.LongLineForksTheLog | internal/logger/audit.go:54-61 | a 64 KiB line, a restart and a write break verification though no write failed |
| AuditLog.TimestampsAreOrdered | internal/logger/audit.go:82-89 | timestamps never decrease in log order, however the wall clock jumps |
| AuditLog.ScanLast | internal/logger/audit.go:54-69 | the recovery loop finds the last line before one too long to read |
| AuditLog.AuditLogger.constructor | internal/logger/audit.go:43-76 | a started logger is the machine after a restart |
| AuditLog.AuditLogger.LogConnection | internal/logger/audit.go:78-105 | if the write succeeds, appends an entry with its caller's address, forwarded address, action and reason, stamped by the clock and chained to the last hash; the memory moves on either way |
| RateLimit.LimiterIsHistory | internal/api/ratelimit.go:43-74 | a client's record and accepted requests follow from its own history alone |
| RateLimit.ClientIsHost | internal/api/ratelimit.go:35-41 | X-Real-IP decides, else X-Forwarded-For, else the host: without headers two clients are one exactly when their hosts are the same |
| RateLimit.IPv6ClientsShare | internal/api/ratelimit.go:40 | all IPv6 addresses that begin with the same group count as one client |
| RateLimit.VerdictIff | internal/api/ratelimit.go:47-73 | a request is accepted exactly when it is the first, follows a pause longer than the window, or joins a burst below the limit |
| RateLimit.IntervalBound | internal/api/ratelimit.go:27-74 | any interval has at most limit accepts (100 if none is set) per minute begun in it, so at most limit in one of a minute |
| RateLimit.PauseIsEnough | internal/api/ratelimit.go:52-59 | a request more than a window after the last accepted one is accepted |
| RateLimit.SteadyClientIsRefused | internal/api/ratelimit.go:52-59 | after limit accepts without a long pause the next request is refused, however slow the client |
| RateLimit.RateLimiter.Admit | internal/api/ratelimit.go:35-74 | the handler makes the step and gives the verdict of the specification |
| Blocklist.BansAreExact | internal/api/blocklist.go:41-84 | bans fall on the fifth failure within the tracking time, eight failures within it contain a ban, and nothing is recorded during a ban |
| Blocklist.BlockedIff | internal/api/blocklist.go:28-39 | an address is refused exactly while one of its bans is under half an hour old |
| Blocklist.TrackerIsShort | internal/api/blocklist.go:45-84 | counts stay in 1 to 4 and a banned address has no tracker entry |
| Blocklist.SevenMayNotBan | internal/api/blocklist.go:53-57 | seven failures in two seconds need not ban |
| Blocklist.Blocklist.IsIPBlocked | internal/api/blocklist.go:28-39 | answers by expiry and drops a ban that has run out |
| Blocklist.Blocklist.RecordFailedAttempt | internal/api/blocklist.go:41-84 | makes the step of the specification and says whether it banned |
| Blocklist.Blocklist.Handle | internal/api/auth.go:177-191 | a request is checked before its failure is recorded |
| BlocklistRaces.BansCountFive | internal/api/blocklist.go:42-84 | for every schedule of clock, load, store and deletion, a ban counts five distinct failures of its address, the first among them, none later than the tracking time after it |
| BlocklistRaces.BanIsEarnedIff | internal/api/blocklist.go:42-84 | its five failures lie within the tracking time of each other exactly when no counted call that read its clock before the first failure did so more than that before another |
| BlocklistRaces.OrderedLoadsEarnBans | internal/api/blocklist.go:42-84 | when calls load in the order of their clock readings, however stores race, every ban's failures lie within the tracking time |
| BlocklistCounts.StepExactIff | internal/api/blocklist.go:45-83 | from any state in which every stored failure counts once, a step keeps that exactly when its store or deletion works on the record its call saw, or on one that no longer counts |
| BlocklistCounts.FailuresCountOnceIff | internal/api/blocklist.go:45-83 | over every run: each stored failure counts exactly once at every moment (in one ban, in the tracker or in an expired group) exactly when all its steps are such |
| BlocklistCounts.NoFailureInTwoBans | internal/api/blocklist.go:62-69 | where every failure counts once, bans have no failure in common |
| BlocklistCounts.SafeRunsBanExactly | internal/api/blocklist.go:42-84 | such runs promise what requests taken one at a time do, whatever the clock: no failure in two bans, bans on the fifth of five failures within the tracking time, and a ban among any eight stored in a row within it |
| BlocklistCounts.WholeCallIsRecord | internal/api/blocklist.go:42-84 | from any reachable state with no ban awaiting its deletion, a call that runs undisturbed makes the step of Blocklist.Record and is such a run |
| BlocklistCounts.CallsInTurn | internal/api/blocklist.go:42-84 | any failures recorded by calls that do not overlap end in the tracker, bans and log of the one-step specification |
| BlocklistSchedules.StalledCallSpoilsABan | internal/api/blocklist.go:42-84 | a schedule of five calls whose ban counts a failure an hour before the others |
| BlocklistSchedules.FourFailuresInTwoBans | internal/api/blocklist.go:62-69 | four failures counted in two bans, when two calls load before either stores and when one loads between the other's ban and its deletion |
| BlocklistSchedules.RacingFailuresCountAsOne | internal/api/blocklist.go:45-83 | any number of racing failures may count as one |
| UrlQuery.UnescapeOfEscape | internal/auth/presign.go:31 | percent-decoding undoes percent-encoding |
| UrlQuery.EscapedIs | internal/auth/presign.go:31 | which bytes stay, and what the others become |
| UrlQuery.UnescapeReads | internal/auth/presign.go:50 | what escapes read as: digits of either case, and plus for a space |
| UrlQuery.UnescapeFails | internal/auth/presign.go:50 | a percent sign without two hexadecimal digits makes a piece unreadable |
| UrlQuery.PieceCases | internal/auth/presign.go:50 | how any piece of a query is read: cut at the first equals sign, a key alone without one, skipped with a semicolon or if unreadable |
| UrlQuery.KeysAscend | internal/auth/presign.go:31 | an encoded query lists its keys in ascending order, each once |
| UrlQuery.AtMostIff | internal/auth/presign.go:31 | that order is the lexicographic one of bytes |
| UrlQuery.ParseOfEncode | internal/auth/presign.go:24-31 | parsing an encoded query gives it back exactly when every key has a value; the encoding has no newline |
| Presign.ParseOfFormat | internal/auth/presign.go:29 | the expiry is read back as written, over all of 64 bits |
| Presign.ParseIntReads | internal/auth/presign.go:55-58 | numbers with either sign or none are read, exactly those of 64 bits |
| Presign.ParseIntRefuses | internal/auth/presign.go:55-58 | nothing else is |
| Presign.SignedQueryHolds | internal/auth/presign.go:24-29 | the five parameters by name with what they hold, and every other parameter unchanged |
| Presign.LifetimeIsWholeSeconds | internal/auth/presign.go:28 | X-Amz-Expires reads as the expiry cut to whole seconds, for every duration |
| Presign.PresignedReads | internal/auth/presign.go:24-45 | the server reads from a generated URL the signed query and its signature |
| Presign.GeneratedIsAcceptedIff | internal/auth/presign.go:15-78 | given that the URL had no signature of its own, a URL generated at a nanosecond is accepted in a second exactly when that second begins no later than the nanosecond plus the expiry |
| Presign.SignatureCoversIff | internal/auth/presign.go:67-77 | a signature is accepted exactly for its method, path and query before expiry |
| Presign.SignedPartsAreFixed | internal/auth/presign.go:34 | the string to sign determines its parts even when the path has newlines |
| Presign.NewlineInMethodIsAmbiguous | internal/auth/presign.go:34 | with a newline in the method it does not |
| Presign.GeneratePresignedURL | internal/auth/presign.go:15-46 | the statement sequence computes the URL of the specification |
| Presign.ValidatePresignedURL | internal/auth/presign.go:49-78 | the ladder of checks decides the predicate of the specification |
| Quarantine.Defaulted | internal/service/dedup_service.go:33-42 | unset limits and root get their defaults, 1 day, 100 files and /_quarantine below the storage root; set ones stay |
| Quarantine.TargetsAreHidden | internal/service/dedup_service.go:78-84 | no quarantined place is ever scanned, wherever the quarantine root lies |
| Quarantine.ScannedIff | internal/service/dedup_service.go:78-84 | a place is scanned exactly when its directory's name does not begin with the quarantine root's |
| Quarantine.ScannedBesideQuarantine | internal/service/dedup_service.go:78-84 | with a quarantine directory in the storage root: exactly what is not in a directory there whose name begins with its |
| Quarantine.ScannedApart | internal/service/dedup_service.go:78-84 | with a quarantine root elsewhere: everything |
| Quarantine.FoundIsExact | internal/service/dedup_service.go:71-109 | the walk finds each orphan once, whatever its order |
| Quarantine.MoveAllRelocates | internal/service/dedup_service.go:131-173 | moving one after the other relocates exactly those that can be moved |
| Quarantine.MovesAreLogged | internal/service/dedup_service.go:136-172 | the log gains one row for each move, or each orphan of a dry run, with the size the walk's disk had, in order |
| Quarantine.LogOfOne | internal/service/dedup_service.go:136-172 | the row logged for a file: its path, its quarantine path, its size and the kind of run; none if it could not be moved or logged |
| Quarantine.RunConserves | internal/service/dedup_service.go:121-173 | only orphans move, at most the limit, unchanged; others stay; files lost are exactly the occupied targets |
| Quarantine.OldFileIsMoved | internal/service/dedup_service.go:78-155 | a run that nothing stops moves every old file that no row names, wherever it is scanned, to its own place below the quarantine root |
| Quarantine.RepeatFindsTheRest | internal/service/dedup_service.go:52-182 | the orphans of a repeat are those not moved |
| Quarantine.RepeatMovesNothing | internal/service/dedup_service.go:52-182 | a repeat after a run without failures moves nothing |
| Quarantine.ObjectIsOrphanIff | internal/service/dedup_service.go:71-106 | a file under objects is an orphan exactly when the walk comes to it and no call on it fails, it is past the grace period and no row has its own path; the walk comes to objects unless that directory's name begins with the quarantine root's |
| LiveObjects.LiveObjectIsMovedIff | internal/service/dedup_service.go:53-155 | in any reachable state of the service, for any failures: the stored object a row lives on is moved exactly when the run gets as far as moving, no call on the object fails, the walk comes to it, it is past the grace period and no row has its path |
| LiveObjects.MovedObjectIsNotServed | internal/api/handler.go:374-396 | after the run, whatever opens fail: while its object stays a row in the index is served right as ServeIsRightIff says; once it is moved, the answer is what the first other named place that opens holds, and 404 exactly when none does |
| Quarantine.SiblingIsSkipped | internal/service/dedup_service.go:80 | a sibling directory that shares the quarantine root's name as a prefix is not scanned |
| Quarantine.DedupService.Scan | internal/service/dedup_service.go:68-109 | the scan loop collects the orphans in walk order |
| Quarantine.DedupService.Move | internal/service/dedup_service.go:131-173 | the move loop makes the moves, log rows and count of the specification |
| Quarantine.DedupService.FindAndQuarantineOrphans | internal/service/dedup_service.go:53-182 | outcome, files and log of a run: nothing moves when it is dry, trips the breaker or has no quarantine directory |

## Left out

- HTTP parsing, headers, content types, range streaming, authentication credentials and LDAP: library behaviour; what requests carry are parameters.
- Lookup by file name and the bucket check: short guards before the modelled steps; and failures while an opened file is being sent.
- BlobService.StepRefinesMap: for steps and runs without a misread stat; what holds of all runs is `BlobService.EveryRunRefinesMap`.
- `Save`, `SaveMetadataSidecar`, and `Delete` of a physical file: not on the path of the modelled handlers; a sidecar is another file beside the destination.
- Directories: creating them is assumed to succeed except where a fault says otherwise, and no file name is a directory of another.
- Loss of power: a crash stops every call between two file-system actions but keeps what was written.
- Temporary names: concurrent saves are assumed to read distinct nanosecond clocks.
- Cross-component runs: the upload machine runs without the migration worker and without quarantine, and migration without uploads.
- MigrationOpens.FailedOpensAreHarmlessIff: the converse is for tables whose destinations do not exist yet; that rows with one content stay right holds from any start.
- LegacyMigration.CopiedFileIsUnderRootIff: for storage roots spelled without ".."; `KeptFileIsUnderRootIff` likewise.
- Planning.CodeFitsSetting: assumes that no place where a row may be looked up is another row's destination, and that files are named by one path each (no aliasing of relative and absolute paths).
- MigrationBatch.MigrationService.RunMigrationBatch: takes the turns of the workers in sequence; all interleavings are covered by the machine in `Migration`.
- Modification times of migrated files: sources' times are a fixed function, destinations' are not modelled.
- Paths.GenerateShardedPath: lower-casing and trimming of the module name are an arbitrary function, and years have four digits.
- VirtualDirectory.GetVirtualDirectory: the collation is any order the database has; its answer is a parameter that meets the query.
- VirtualDirectory.DescentIsExact: requires that no path matches another's directory prefix through a wildcard, that each matches its own, and that listings are not cut off at 5000.
- DataQuality.ReportIsExactForUploads: the list of the largest groups with example names is left out.
- AuditLog: JSON texts are taken to determine entries and back, a write is all or nothing, and the daily writer (DailyWriter is not part of this model) creates a file with its first line.
- Blocklist.BansAreExact: takes a request as one step; what survives races is in `BlocklistRaces`, and exactly when counting does in `BlocklistCounts`.
- Blocklist races: refusals while other calls record, and the removal of an expired ban by a check, are taken one at a time.
- The copy of a ban in the database table blocked_ip: written and never read.
- Presign.LifetimeIsWholeSeconds: the seconds are exact; the code takes them through a float64, which may round up a duration of over half a year that misses a whole second by nanoseconds.
- Presign: parsing of scheme, host and fragment, and the date text, are parameters.
- Quarantine: calendar arithmetic of the cutoff is a parameter; roots are taken as clean absolute paths other than /.
- Licence checks, dashboard statistics other than duplicates, the scheduler around batches, connection pools and the user interface: easy or not about stored files.
- The repository's own README speaks of MD5 checksums; the code computes SHA-256, and the model follows the code.
