# apack, modelled and proved

apack is a content-addressed store for model images: an OCI index on top of a key-value and an object store, a
resumable downloader, an engine that builds, pulls, pushes and exports images with concurrent workers, and an
asynchronous task manager. This project models those five parts in Dafny and proves what they are for.

Where the source changes things in place (files, the index list, the mark of the collector, task records, byte
counters) the model is a class or a method with a loop, proved against a specification function; where the source runs
concurrent workers the model is a step system over the same functions, and the theorems hold in every state of every
run. `dafny verify dfyconfig.toml` checks everything.

## What each file is about

- `ChunkPlan`, `ProgressWriter`, `Download`, `DownloadRuns`, `DownloadStart`: the downloader. `Download` has the
  sequential procedures (one attempt, the retry loop, the merge), `DownloadRuns` every interleaving of chunk workers with
  failures, crashes and restarts, and `DownloadStart` says which downloads succeed. The central fact is that each file on disk is a prefix of what belongs in it, which is why judging
  completeness by size is enough.
- `Oci`, `LayerIndex`: the index, an ordered list that has to act as a map from names to descriptors.
- `GarbageCollector`: tri-colour marking over shared layers; the collection as the code wires it, and as it was meant,
  with layers and blobs swept apart, as its lists are, or jointly. `Collection` says, for any index and either wiring,
  what stays and what goes; a layer counts as present wherever `Exists` finds it, as an object or as a record in the
  key-value store. `Policies` says what the three policies leave, in terms of the marks that Delete, Snap and Purge
  put on entries.
- `WorkerPool`: the dispatch loop shared by Bundle, Pull, Push and Sink: skip what was seen, take a semaphore, wait for
  all.
- `Bundle`, `BundleFiles`, `Makefile`, `Export`: building an image, the snapshot directory it leaves (as inodes and
  names, so that truncation and rename behave as on a file system), the ids, and the way back out. `BuildRuns` and
  `ExportRuns` show that a build and an export can come to their end.
- `Streaming`: one file into several writers at once, descriptor and digest of what was emitted, and reading back under
  verification.
- `Store`, `StoreIndex`, `StoreRuns`: builds, pulls and tags side by side over one store, what their two-step index
  updates leave of each other, and that each can be done. `Push`: blobs before manifest, and the manifest under its tag. `TagLinks`: tags and their link files.
- `Task`, `TaskManager`: publishing to bounded channels while tasks are created, cancelled, completed and cleaned up,
  as methods called one at a time and as a machine that interleaves their critical sections.
- `Gen`, `FileTypes`, `Packaging`: classifying a directory tree by the names in it, and what of a generated description reaches an image.
  `ManifestDiff`: comparing two manifests.

## Where the code falls short of the property

Each of these is a theorem with its exact condition or a run that shows it.

- A 200 answer to a resumed or partial request is appended as if it were the range; it comes out right exactly when
  the whole object was asked for from offset 0 (`Download.WholeAnswerSound`). The run theorems assume a server that
  honours ranges.
- `MaxChunkCount` is 100, but there can be 101 parts; exactly when is `ChunkPlan.PartCountBound`.
- An object of zero bytes whose file was not there before is downloaded without the counter ever completing
  (`DownloadRuns.CompletedAfterSuccess`, `DownloadRuns.EmptyObjectNeverCompletes`). In single-file mode every attempt
  counts what is on disk again (`Download.Downloader.DownloadPartWithRetry`).
- `Copy` onto a taken name breaks the uniqueness of names, and only then (`LayerIndex.CopyKeepsUnique`): lookups still
  find the old image and the next copy takes the new one (`LayerIndex.TaggedOverDisagrees`). Indexing the name again
  repairs it (`LayerIndex.ReindexRepairs`).
- A copy takes marks along, so tagging an image that is marked deleted makes a tag that the next collection drops
  (`Policies.TagOfDeletedGoes`).
- Looking up an absent name succeeds, with somebody else's image, exactly when the index has one named entry; the
  empty name, where no entry has it, gets the first of any number of them (`LayerIndex.LookupIsExact`).
- `RunGC` drops its swept list and collects names and blobs of kept images too: with its store in place it unlinks
  every name that resolves, whatever the policy (`Collection.AsWrittenKeepsOnlyTheDangling`), and deletes the manifest
  and the config of all of them, and those layers of the kept ones that the object store has
  (`Collection.AsWrittenTakesExactly`). And `NewGC` forgets the store it is given, so the collector it makes stops at a
  nil pointer before any of that (`GarbageCollector.Collector.RunAsWritten`).
- The collector looks for layers in the object store only, where no build, pull or tag ever puts one
  (`Store.ObjectsStay`): a built layer is a record in the key-value store, a pulled tar layer a file in the snapshot
  directory. So even with its lists swept, apart as they are, the records of dropped layers stay for good unless they
  are the config or manifest of a dropped image too, and a kept layer's record goes exactly when it is the config or
  manifest of dropped images only (`Collection.RecordsExactly`, for stores that jobs leave; `Collection.ApartLeavesExactly`
  and `Collection.ApartSparesExactly`, for any). One sweep over all keys and both stores is safe and complete
  (`Collection.JointSparesTheKept`, `Collection.JointTakesTheDead`).
- A collection drops names, not entries: a kept entry goes with a dropped one of its name that resolves
  (`Collection.SurvivesExactly`), which happens when another image is tagged onto a removed name
  (`Collection.TaggedOverIsLost`).
- The intended composition keeps the code's walk: look every name up, skip it on an error. An entry whose manifest is
  missing ends every lookup that has to pass it (`Collection.LookupReaches`), so entries behind it are not seen, kept
  ones included, and lose what they share with dropped ones that are (`Collection.DanglingCostsAKeptLayer`). A
  collection that a failing deletion ends leaves the index alone (`Collection.HaltedTakesExactly`) and so creates such
  entries itself, and no later collection, however many there are, removes them (`Collection.DanglingStays`).
- Two contents that go through one base name, both without a snapshot file yet and not both empty, share a temporary
  file; one path listed in two sections does that too. A build that succeeds is sound all the same, but the directory
  is sound in every reachable state exactly when at most one worker runs at a time or no two contents clash so
  (`BundleFiles.SoundExactlyWithoutClash`).
- Two files with one base name and one content have one layer digest, so an export writes only one of them; that is
  the exact condition of the round trip (`Export.RoundTripExactly`).
- `index` and `Copy` read and write the index in two transactions. One write leaves the names its job had read and its
  own (`StoreIndex.WriteExactly`), so a job that reported success can lose its name (`Store.OvertakenIndexIsLost`);
  which names are there after any run is `StoreIndex.NamesExactly`. When nobody writes between a job's read and its
  write, the index is the sequential one (`StoreIndex.SerialisedIsSequential`) and nothing is lost
  (`StoreIndex.SerialisedLosesNothing`).
- A tar layer with the digest of the config or of the manifest, listed before it, keeps a pull from storing that blob
  (`Store.PulledExactly`).
- Verification of a layer happens at the end of its stream. Extraction reads one tar entry and never asks for what is
  behind it, so the digest counts only for a stream whose end is announced with the entry's last byte; with a trailer,
  as every complete tar stream has one, the outcome is the same for every diff ID (`Streaming.ExtractLayer`).
- `Gen` lists sub-directories of documents or datasets as entries, and a build takes every entry for a file: a generated
  description builds exactly when there is no such sub-directory and what is packed can be read
  (`Packaging.GeneratedBuildsExactly`). Codes are never built, so files of unknown type, code directories and most of
  a mixed directory are listed but reach no image (`Packaging.ReachesTheImageExactly`, `Packaging.SpecialStaysOut`).
- Building a name again under existing tags, or tagging over a built name, makes names and snapshots disagree; exactly
  when is `TagLinks.RebuildExactly` and `TagLinks.TagExactly`. So does a build without a name
  (`TagLinks.NamelessBuildExactly`), and a tag whose link file cannot be created fails after the index has its name
  (`TagLinks.UnlinkedTagExactly`).
- Publications of one task take only a read lock, so two that overlap can reach two subscribers in opposite orders
  (`TaskManager.OverlapReorders`).
- A success after a failure announces the failure's text (`TaskManager.CompleteRuns`).
- Completing a task overwrites "canceled" (`TaskManager.CanceledUntilCompleted`), and a task that is cancelled and never
  completed is never cleaned up (`TaskManager.OnlyCompletedAreDropped`).
- After cleanup, Unsubscribe finds no task and a publication already under way still reaches the channel
  (`TaskManager.UnregisteredStillHears`, and a run that gets there is `TaskManager.UnregisteredIsReached`).
- A digest repeated in manifest B that A has too is listed as shared once and as unique to B after that
  (`ManifestDiff.UniqueBExactly`), so comparing the other way round need not swap the
  unique lists (`ManifestDiff.SwapExactly`).

## Assumptions

- Digests do not collide, and the tar and compression encodings can be undone: they are parameters of the theorems
  (`Bundle.Ideal`).
- A crash ends the process, not the machine: what was written stays. Reading from the network, counting and appending
  is one step. Workers may move in any order, which covers every concurrency limit of the downloader.
- The size announced for a download is the object's size; the pre-check and the choice of slices rest on it.
- The destination of a download is absent or a prefix of the object when the first run begins, and so are the part
  files of theirs.
- No workspace file is named like a digest, and one build at a time writes the snapshot directory. A worker gives its
  semaphore slot back before its error cancels the dispatch loop, so the loop may go on for a while after an error.
- Different spellings of a path that lead to one file have one last element.
- The directory of an export, where a theorem names it, is the one Sink has already written the Apackfile into.
- A remote serves content that matches its digests, since storing a fetched blob does not check it.
- Locks are held by anybody who may have them; no order among waiting goroutines is assumed.

## Model

| member | source | states |
|---|---|---|
| ChunkPlan.CalculateChunkSize | internal/transfer/download.go:329-339 | the least size that is whole mebibytes, at least 10 MiB and at least a hundredth of the total |
| ChunkPlan.PlanCovers | internal/transfer/download.go:132-159 | the slices start at 0, end at the total, follow one another and are all non-empty |
| ChunkPlan.EachByteInSomeSlice | internal/transfer/download.go:153-159 | every byte of the object lies in some slice |
| ChunkPlan.EachByteInOneSlice | internal/transfer/download.go:153-159 | no byte lies in two slices |
| ChunkPlan.PartCountBound | internal/transfer/download.go:19-25 | at most 101 parts, and more than the declared 100 exactly when the chunk is a hundredth of the total and does not divide it |
| ChunkPlan.HundredAndOneParts | internal/transfer/download.go:134 | a size that is cut into 101 parts |
| ChunkPlan.OffsetsFitInt64 | internal/transfer/download.go:155-156 | below 2^53 the range arithmetic does not overflow |
| ProgressWriter.Writer.Write | pkg/progress/writer.go:33-56 | the counter grows by the bytes; completed rises when the total is reached and never falls |
| ProgressWriter.Writer.MarkCompleted | pkg/progress/writer.go:58-68 | completed is up, nothing else changes |
| ProgressWriter.WroteInPieces | pkg/progress/writer.go:33-56 | cutting the bytes into several calls does not show in the counter |
| Download.AttemptExtendsPrefix | internal/transfer/download.go:229-281 | an attempt answered by a range-honouring server extends the prefix, and success means the slice is complete |
| Download.WholeAnswerSound | internal/transfer/download.go:263-280 | a complete 200 answer gives the right slice exactly for a request of the whole object from offset 0 |
| Download.RetryExtendsPrefix | internal/transfer/download.go:184-217 | over all attempts and whatever the server answers the loop only appends and gives up only after all of them; against a server that honours ranges the file stays a prefix, and success means complete |
| Download.RetrySucceeds | internal/transfer/download.go:184-217 | one clean answer within the allowed attempts is enough, whatever failed before it |
| Download.ContextErrorStops | internal/transfer/download.go:208-217 | a request that the context ended is not tried again |
| Download.Downloader.SyncProgress | internal/transfer/download.go:284-303 | feeding the counter in 32 KiB pieces adds exactly the bytes already there |
| Download.Downloader.CopyBody | internal/transfer/download.go:271-280 | the body is appended and counted, and the disk stays resumable after every piece if the body is the right one |
| Download.Downloader.DownloadPart | internal/transfer/download.go:229-281 | file, result and counter of an attempt whatever the server answers, no other file touched: in chunk mode the counter moves with the file, in single-file mode it is fed what was on disk too; an answer that honours the range keeps the disk resumable, and then success is the full slice |
| Download.Downloader.DownloadPartWithRetry | internal/transfer/download.go:184-227 | the loop is the retry function for every server: file, outcome, number of attempts, and what every attempt adds to the counter; with a range-honouring server the disk stays resumable |
| Download.SlicesJoin | internal/transfer/download.go:313-325 | appending a slice to the prefix before it gives the prefix after it |
| Download.Downloader.MergeParts | internal/transfer/download.go:306-327 | the loop is the merge function on any disk, with missing parts, a copy that fails and parts that cannot be removed; with every part there the disk stays resumable after every write |
| Download.MergedMeans | internal/transfer/download.go:306-327 | with every part there the merge succeeds unless a copy fails; then the destination is the object and the copied parts are gone unless they could not be removed, and after a failure it is a prefix that goes as far as the copy got |
| DownloadRuns.CrashSafeResume | internal/transfer/download.go:113-327 | over every run with failures, crashes and restarts: files stay prefixes, the size-only pre-check is sound, and a successful Start left exactly the object |
| DownloadRuns.ProgressConservation | internal/transfer/download.go:138-148 | while chunks are fetched the counter equals the bytes in the part files, then the total; completed is up exactly when the total is reached |
| DownloadRuns.CompletedAfterSuccess | internal/transfer/download.go:113-130 | after success the counter is completed exactly when the file was skipped or the object is not empty |
| DownloadRuns.EmptyObjectNeverCompletes | internal/transfer/download.go:246-248 | a run that shows the exception |
| DownloadRuns.FilesOnlyGrow | internal/transfer/download.go:229-281 | a run without a merge never shrinks a file |
| DownloadRuns.StepInv | internal/transfer/download.go:113-327 | every step of the downloader keeps the invariant behind these theorems |
| DownloadRuns.AttemptRuns | internal/transfer/download.go:229-281 | an attempt answered by a range-honouring server is a run of its worker's events: open, receive, end or fail |
| DownloadRuns.RetryRuns | internal/transfer/download.go:184-227 | the retry loop, whatever fails and whichever wait is interrupted, is a run of the machine with the same file and outcome |
| DownloadStart.MergeRuns | internal/transfer/download.go:306-327 | the merge, with its faults and removals, is a run of the machine |
| DownloadStart.FetchedSucceeds | internal/transfer/download.go:177-181 | from every state with all chunk workers succeeded there is a run to success, with the object at its destination and no part file left but those that cannot be removed |
| DownloadStart.LargeRuns | internal/transfer/download.go:113-182 | a download in chunks, from any resumable disk against range-honouring servers, runs to its return and succeeds exactly when every chunk's retry loop ends well and no copy fails |
| DownloadStart.SmallRuns | internal/transfer/download.go:122-130 | a download in one piece succeeds exactly when its retry loop does, and leaves its file |
| DownloadStart.SkipRuns | internal/transfer/download.go:114-121 | a destination of the right size is taken for the object, rightly, without a request |
| LayerIndex.Db.Index | pkg/layerdb/layerdb.go:192-234 | replaces every entry of the name, or appends one |
| LayerIndex.Db.Copy | pkg/layerdb/layerdb.go:150-190 | appends the last entry of the first name under the second, or fails because there is none |
| LayerIndex.Db.Annotation | pkg/layerdb/layerdb.go:701-727 | changes the first entry of the name and no other |
| LayerIndex.Compact | pkg/layerdb/layerdb.go:745-752 | the two-index loop, in place on an array, is the filter |
| LayerIndex.Db.Unlink | pkg/layerdb/layerdb.go:729-756 | removes exactly the listed names |
| LayerIndex.Db.Manifest | pkg/layerdb/layerdb.go:240-295 | the scan with its early return and its failures |
| LayerIndex.IndexRefines | pkg/layerdb/layerdb.go:192-234 | index is the map update |
| LayerIndex.CopyRefines | pkg/layerdb/layerdb.go:150-190 | copying to a free name is the map update with the renamed value |
| LayerIndex.CopyKeepsUnique | pkg/layerdb/layerdb.go:176-177 | names stay unique exactly when the target name is free |
| LayerIndex.TaggedOverDisagrees | pkg/layerdb/layerdb.go:150-190 | copying onto a taken name succeeds and changes no lookup, while the next copy of that name takes the new entry |
| LayerIndex.AnnotateRefines | pkg/layerdb/layerdb.go:701-727 | annotating is the update of one value |
| LayerIndex.UnlinkRefines | pkg/layerdb/layerdb.go:729-756 | unlinking removes the names from the map |
| LayerIndex.UnlinkedKeeps | pkg/layerdb/layerdb.go:745-752 | an entry stays exactly when its name is not listed |
| LayerIndex.UnlinkedConcat | pkg/layerdb/layerdb.go:745-752 | the filter is stable: it filters any two stretches of the list separately |
| LayerIndex.IndexIsAMap | pkg/layerdb/layerdb.go:101-295 | over every run from the empty index, with Copy to free names, names are unique and every operation is its map operation |
| LayerIndex.LookupIsExact | pkg/layerdb/layerdb.go:240-295 | a present name gets the map's value; an absent one is refused except in an index with one named entry, or with any number of them for the empty name, which gets the first |
| LayerIndex.DanglingBlocksLookups | pkg/layerdb/layerdb.go:273-283 | one entry whose blob is missing fails every lookup that has to pass it |
| LayerIndex.ReindexRepairs | pkg/layerdb/layerdb.go:192-234 | from any list, indexing a name makes first and last match agree on it and changes no other lookup |
| GarbageCollector.TriMark.Sweep | pkg/layerdb/layerdb.go:1064-1080 | the node list becomes the unused candidates, and the colour of every key is known |
| GarbageCollector.WhitesAreTheUnused | pkg/layerdb/layerdb.go:1069-1079 | exactly the candidate keys that no live node uses, each once |
| GarbageCollector.WhiteMeansUnused | pkg/layerdb/layerdb.go:1065-1077 | a live key is never White, and a swept key is White exactly when it was one candidate |
| GarbageCollector.Collector.IdentifyDeletionCandidates | pkg/layerdb/layerdb.go:984-1028 | the four lists, as written, for all three policies (what is in them, by the marks: Policies.IdentifyByMarks) |
| GarbageCollector.Collector.Scaling | pkg/layerdb/layerdb.go:1030-1042 | removes layers, then blobs, then names, up to the deletion that fails, and nothing else |
| GarbageCollector.Collector.RunAsWritten | pkg/layerdb/layerdb.go:963-982 | what the composition of the code removes; without a store, as NewGC leaves it, it panics |
| GarbageCollector.IntendIsIdentify | pkg/layerdb/layerdb.go:984-1028 | the intended walk finds the code's layers; the code's blobs are the intended ones and those of kept entries |
| GarbageCollector.Collector.RunIntended | pkg/layerdb/layerdb.go:969-982 | the intended composition, lookups, wiring and failing deletions included, is the collection function, and it reports success exactly when no deletion failed |
| Collection.IntendFinds | pkg/layerdb/layerdb.go:984-1028 | on any list, each list the intended walk builds holds exactly the keys, or names, of the kept or of the dropped entries that resolve |
| Collection.CollectionTakesWhatIsAtRisk | pkg/layerdb/layerdb.go:969-1080 | a finished collection takes from each store exactly the keys at risk there, on any list; one that a failing deletion ends takes some of them and nothing else |
| Collection.JointSparesTheKept | pkg/layerdb/layerdb.go:969-1080 | one sweep over all keys: no key of an image that a kept name resolves to is touched, manifest, config or layer, object or record, whatever else it is used for and whatever fails |
| Collection.JointTakesTheDead | pkg/layerdb/layerdb.go:969-1080 | one sweep over all keys: what only dropped images use is gone from both stores, any other key is untouched |
| Collection.ApartSparesExactly | pkg/layerdb/layerdb.go:969-1080 | lists swept apart: a kept manifest and config stay, a kept layer stays as an object, and one that is only a record stays exactly when it is not a blob of dropped images only |
| Collection.ApartLeavesExactly | pkg/layerdb/layerdb.go:1030-1042 | lists swept apart: what only dropped images use stays exactly where the collector does not look for it, as the records of layers do |
| Collection.RecordsExactly | internal/repo/local.go:476 | after any run of builds, pulls and tags into a store without objects: which layers of dropped and of kept images are still found after the collection |
| Collection.SurvivesExactly | pkg/layerdb/layerdb.go:1030-1042 | on any list an entry goes exactly when its name resolves and the policy drops some entry of that name |
| Collection.TaggedOverIsLost | pkg/layerdb/layerdb.go:150-190 | a kept image tagged onto a name that was removed is lost with it |
| Collection.LookupReaches | pkg/layerdb/layerdb.go:1000-1004 | a name resolves exactly when no entry up to the first that carries it dangles, and then to that entry |
| Collection.DanglingCostsAKeptLayer | pkg/layerdb/layerdb.go:1000-1004 | a dropped image, a dangling entry and a kept image behind it: the collection takes the layer they share |
| Collection.CollectionKeepsLookups | pkg/layerdb/layerdb.go:969-1042 | on an intact store, however often names repeat, a name that no dropped entry carries resolves to the same image before and after |
| Collection.StillResolves | pkg/layerdb/layerdb.go:969-1042 | a collection of an intact store leaves one |
| Collection.HaltedTakesExactly | pkg/layerdb/layerdb.go:1030-1042 | a collection that a failing deletion ends has taken exactly the swept keys before it, the object store's first, and left the index as it was |
| Collection.DanglingStays | pkg/layerdb/layerdb.go:998-1006 | an entry whose manifest is gone, first of its name, outlasts any number of later collections, whatever their policies and faults |
| Collection.AsWrittenKeepsOnlyTheDangling | pkg/layerdb/layerdb.go:969-982 | as written, on any list, exactly the entries stay that do not resolve |
| Collection.AsWrittenTakesExactly | pkg/layerdb/layerdb.go:969-982 | as written, manifest and config of every image that resolves go, and from the object store the layers of the kept ones |
| Policies.LeftByMarks | pkg/layerdb/layerdb.go:1006-1021 | on an intact index OnlyDelete leaves exactly the entries not marked deleted, ReserveRunning exactly those with a snapshot mark, CleanOut none |
| Policies.DeletedGo | pkg/layerdb/layerdb.go:671-673 | Delete gives up exactly that name for OnlyDelete, and changes nothing for ReserveRunning |
| Policies.SnappedStay | pkg/layerdb/layerdb.go:690-692 | Snap keeps exactly that name for ReserveRunning, and changes nothing for OnlyDelete |
| Policies.PurgedGo | pkg/layerdb/layerdb.go:758-760 | Purge gives it up again |
| Policies.LeftByHistory | pkg/layerdb/layerdb.go:101-295 | over every clean run of operations from the empty index, which names each policy leaves, told from the operations alone |
| Policies.TagOfDeletedGoes | pkg/layerdb/layerdb.go:150-190 | a tag of a name is kept by OnlyDelete exactly when the name is |
| Policies.IdentifyByMarks | pkg/layerdb/layerdb.go:1006-1025 | as written, on any store, which layers are marked and which are candidates under each policy, by the marks |
| WorkerPool.StepInv | internal/repo/local.go:346-371 | launched workers are the first of their keys, and the semaphore's weight is the number running, which the limit bounds |
| WorkerPool.AllFinished | internal/repo/local.go:373-383 | on success a worker has finished exactly for the first item of every key, and none runs |
| WorkerPool.EachKeyOnce | internal/repo/local.go:187-208 | on success every distinct key was handled by exactly one worker |
| Bundle.ListsAligned | internal/repo/local.go:347-371 | under every interleaving layers and diff IDs are equally long outside the mutex, entry k of both is of one content, and on success they hold every content with a path once |
| Bundle.LayerDigests | internal/repo/local.go:434-468 | two contents share a layer digest exactly when base name and bytes agree |
| Bundle.BaseIsLast | internal/repo/local.go:435 | the base name of a path is its last element, whatever directories come before and with or without a slash behind |
| BuildRuns.BuildSucceeds | internal/repo/local.go:314-383 | every build that may run a worker and has something to build has a run that succeeds, whatever the snapshot directory holds |
| BundleFiles.SnapshotsAlwaysSound | internal/repo/local.go:442-463 | with one worker at a time or without a clash of temporary names every digest-named file holds its digest's bytes in every state, with any worker failing anywhere |
| BundleFiles.SuccessfulBuildIsSound | internal/repo/local.go:359-383 | after a successful build, clash or not, every content is found under its digest with its bytes |
| BundleFiles.SoundExactlyWithoutClash | internal/repo/local.go:354-369 | for every concurrency the directory is sound in every reachable state if and only if at most one worker runs at a time or no two contents clash |
| BundleFiles.ClashCorrupts | internal/repo/local.go:444-457 | a run that leaves wrong bytes under a digest, for every clash, with any two workers and any number of contents |
| BundleFiles.DoomedStep | internal/repo/local.go:454-457 | once two writers share a temporary file, some worker is bound to fail |
| Makefile.Builder.Contents | internal/repo/makefile.go:37-138 | fills in ids and sizes of every entry and lists the contents in order, or fails exactly when a listed file is missing or cannot be read |
| Makefile.Builder.Section | internal/repo/makefile.go:39-53 | one section's loop |
| Makefile.FindDiffidIsTheId | internal/spec/spec.go:138-158 | the lookup by path returns the digest of the path's file, whichever sections the path sits in, and "nil" for a path in none |
| Export.SinkWritesFirstOfEachDigest | internal/repo/local.go:517-592 | a successful export leaves the snapshot of the first layer of every digest at its place, also when workers for several digests truncate and write one file; of the directory as it was after the Apackfile was written, the workers touch no other place |
| Export.BuiltLayers | internal/repo/local.go:434-484 | a successful build's layers are those of its contents, all of them |
| Export.SourceIsTheFile | internal/repo/local.go:566-592 | after a successful build the snapshot found for a listed path is the original file |
| Export.BuildThenExport | internal/repo/local.go:314-592 | build, then export: every listed file comes back with its bytes, under every interleaving |
| Export.RoundTripExactly | internal/repo/local.go:314-592 | into a directory without the files, every listed file comes back if and only if no two have one base name and one content |
| Export.FlatHasNoTwins | internal/repo/local.go:435 | a workspace without sub-directories meets the round trip's condition |
| Export.TwinsLoseAFile | internal/repo/local.go:528-535 | with two paths of one base name and one content, one of them stays unwritten |
| ExportRuns.SinkSucceeds | internal/repo/local.go:524-563 | every export of at least one layer whose snapshot files are there has a run that succeeds |
| ExportRuns.ThereAndBack | internal/repo/local.go:314-592 | from any workspace there are a build and an export of it that succeed, and every file comes back if and only if there are no twins |
| Streaming.MultiWriter.Write | pkg/layerdb/layerdb.go:457-464 | one write reaches the writers in order and ends at the first that comes up short |
| Streaming.StreamFile | pkg/layerdb/layerdb.go:502-535 | the copy loop is the pump function, with what the compressor hands on meanwhile counted and hashed |
| Streaming.StreamedWhole | pkg/layerdb/layerdb.go:502-535 | whatever pieces Read returns and the compressor hands on, success exactly for a clean end at the announced size with room everywhere, and then every writer holds just those bytes |
| Streaming.StreamedInOrder | pkg/layerdb/layerdb.go:457-470 | whatever fails, a later writer holds a prefix of an earlier one, and all hold prefixes of what was read |
| Streaming.CountingHash.WriteAll | pkg/layerdb/layerdb.go:491-500 | the count is what the output took even after a failure; on success count, digest and output speak of the same bytes |
| Streaming.CompressLayer | pkg/layerdb/layerdb.go:415-489 | a layer is returned exactly when the header was written, the read was whole and nothing ran out of room; its digest and size are those of the compressed stream, its diff ID is that of the tar stream, and snapshot and progress have the file's bytes |
| Streaming.VerifyingReader.Read | pkg/layerdb/layerdb.go:651-665 | one verified read |
| Streaming.CleanEndIffDigest | pkg/layerdb/layerdb.go:644-665 | bytes pass unchanged, and a clean end is handed on exactly when the digest of all of them is the diff ID |
| Streaming.LayerReadsBack | pkg/layerdb/layerdb.go:481-488 | a verifying reader with a layer's diff ID ends cleanly on every delivery of the layer's own tar stream and on no other stream; digest and size are those of the compressed stream and of no other |
| Streaming.ReadAll | pkg/layerdb/layerdb.go:602-665 | a consumer that reads to the end succeeds exactly on the verified bytes |
| Streaming.ExactlyDelivers | internal/repo/local.go:673-691 | reading a number of bytes from truthful replies gives just that stretch of the stream |
| Streaming.ExactlyWhen | internal/repo/local.go:673-691 | and it works exactly when some reply brings the last byte asked for, those before it ask for more calls, and a reader that looks finds no error with it |
| Streaming.ExtractLayer | internal/repo/local.go:673-697 | the extracted file is the entry's stretch of the stream; the digest counts exactly if the stream's end comes with the entry's last byte, and with a trailer the outcome is the same for every digest function and diff ID |
| Store.NoDanglingReference | internal/repo/local.go:47-166 | over every interleaving of builds, pulls, tags and annotations, failures anywhere, every entry's manifest and config are in the key-value store |
| Store.StepInv | internal/repo/local.go:314-428 | every step keeps that invariant |
| Store.ObjectsStay | internal/repo/local.go:138-166 | no run of builds, pulls and tags changes the object store |
| StoreRuns.BuiltLayersAreFound | internal/repo/local.go:476 | over every interleaving, a build that got as far as its config has every layer where Exists finds it |
| StoreRuns.BuildSucceeds | internal/repo/local.go:314-428 | every build has a run that ends with layers, config and manifest in the store and its name in the index |
| StoreRuns.PullSucceeds | internal/repo/local.go:47-166 | so has every pull that may run a worker |
| StoreRuns.TagSucceeds | internal/repo/local.go:834-861 | and every tag of a name that is there |
| Store.PulledExactly | internal/repo/local.go:138-166 | a pull alone leaves its config and manifest in the store exactly when they were there or their first item is plain and unknown to the object store |
| Store.OvertakenIndexIsLost | pkg/layerdb/layerdb.go:192-234 | two operations that both read before either writes both succeed, and one name is lost |
| StoreIndex.WriteExactly | pkg/layerdb/layerdb.go:150-234 | one write of a build, pull or tag leaves exactly the names its job had read and its own, or changes nothing |
| StoreIndex.HeldIsRead | pkg/layerdb/layerdb.go:192-201 | what a job writes back is based on the index as it stood at its last read |
| StoreIndex.NamesExactly | pkg/layerdb/layerdb.go:150-234 | which names are in the index after any interleaving, told from the events alone |
| StoreIndex.SerialisedIsSequential | pkg/layerdb/layerdb.go:150-234 | without a write between a job's read and its write the index is that of the operations one after the other, in the order of their writes |
| StoreIndex.SerialisedLosesNothing | internal/repo/local.go:422-427 | and every job that reported success has its name in it |
| Push.ManifestsAreComplete | internal/repo/local.go:168-233 | under every interleaving no manifest on the remote lacks its config or a layer, and no push exceeds its concurrency |
| Push.EachBlobOnce | internal/repo/local.go:187-208 | on success exactly one worker handled each distinct digest |
| Push.TagsExactly | internal/repo/local.go:220-232 | over every interleaving a tag holds the manifest of the last PushReference for it, or what it held before, and a push is done exactly when its PushReference happened |
| Push.PushedIsThere | internal/repo/local.go:220-232 | a push that is done has under its tag its own manifest or that of another done push of the tag |
| Push.PushSucceeds | internal/repo/local.go:168-233 | every push that may run a worker has a run that ends with exactly its manifest under its tag and its blobs on the registry |
| TagLinks.Local.Tag | internal/repo/local.go:834-861 | index and link files after a tag, when it fails before and when it fails after the index has changed |
| TagLinks.FreshTag | internal/repo/local.go:834-861 | a tag leads where its source leads |
| TagLinks.LinksStayOneHop | internal/repo/local.go:810-861 | over every run with fresh names links are one hop, and each name leads to the snapshot of the build its manifest is from |
| TagLinks.RebuildExactly | internal/repo/local.go:826-832 | after building a name again all names agree exactly when its tags and its own link target have the new manifest |
| TagLinks.TagExactly | internal/repo/local.go:834-861 | after tagging onto any name all names agree exactly when it was free, was linked already or has the same manifest |
| TagLinks.UnlinkedTagExactly | internal/repo/local.go:843-860 | a tag whose link file cannot be created leaves a name that agrees only by chance |
| TagLinks.NamelessBuildExactly | internal/repo/local.go:422-427 | a build without a name is indexed under its digest and leaves its Apackfile elsewhere |
| TaskManager.Manager.Subscribe | internal/task/manager.go:62-75 | one more subscriber of a registered task, and an error for any other |
| TaskManager.Manager.Unsubscribe | internal/task/manager.go:77-87 | one subscriber fewer, and no other task touched |
| TaskManager.Manager.PublishEvent | internal/task/manager.go:89-109 | every subscriber is offered the event once and no other channel changes, in whatever order the map is walked |
| TaskManager.Manager.CompleteTask | internal/task/manager.go:111-141 | status, end time and error are recorded and the outcome is announced to exactly the subscribers, with the error's text; an unknown task changes nothing |
| TaskManager.Manager.Cleanup | internal/task/manager.go:148-160 | exactly the tasks are dropped that ended more than the retention ago; one that has not ended stays |
| TaskManager.PublishRuns | internal/task/manager.go:89-109 | the method is one run of the interleaved machine |
| TaskManager.CompleteRuns | internal/task/manager.go:111-141 | so is completing a task; a failure announces the error's text, a success the text of an earlier failure if there was one |
| TaskManager.Delivery | internal/task/manager.go:89-109 | a channel receives, in order, the events of the offers it took; every publication is offered once to exactly its subscribers; order is lost only between overlaps; an offer is refused exactly when the channel is full |
| TaskManager.DroppedExactlyWhenFull | internal/task/manager.go:103-106 | in every run an event is dropped for a channel exactly when the events it took before, less the receives of the run before, are as many as it holds |
| TaskManager.NothingLostWithinCapacity | internal/task/manager.go:101-108 | a channel offered no more than it holds loses nothing |
| TaskManager.SendKeepsBuffer | internal/task/manager.go:103-106 | a send keeps history, buffer and occupancy consistent, and is taken exactly when there is room |
| TaskManager.OverlapReorders | internal/task/manager.go:101-108 | two overlapping publications reach two subscribers in opposite orders |
| TaskManager.UnsubscribeSilences | internal/task/manager.go:77-87 | once Unsubscribe held the lock no publication is on its way to the channel |
| TaskManager.UnsubscribedHearsNothing | internal/task/manager.go:77-109 | after that no publication of the task makes an offer to the channel |
| TaskManager.UnregisteredStillHears | internal/task/manager.go:77-82 | for a task no longer registered Unsubscribe does nothing, and the event of a publication under way arrives on a channel with room |
| TaskManager.UnregisteredIsReached | internal/task/manager.go:62-160 | for every retention, event and capacity a run from the start in which the task is cleaned up while a publication that has looked it up is on its way |
| TaskManager.ContextFollowsStatus | internal/task/task.go:58-80 | the context is cancelled exactly when the status is not running |
| TaskManager.NeverRunsAgain | internal/task/manager.go:111-141 | no run takes a task back to running |
| TaskManager.CanceledUntilCompleted | internal/task/manager.go:120-130 | a cancelled task stays cancelled exactly until a completion is recorded |
| TaskManager.OnlyCompletedAreDropped | internal/task/manager.go:149-159 | a task that is never completed stays registered, cancelled or not |
| TaskManager.KeptForRetention | internal/task/manager.go:148-159 | over every run, a registered task that ended is still registered in every state up to the retention after its end, unless it is completed again |
| TaskManager.CleanupExactly | internal/task/manager.go:148-159 | in every reachable state a cleanup of a task is possible exactly from then on, and drops that task alone |
| Gen.Gen | internal/spec/gen.go:64-174 | each of the four lists, entry by entry, is what it was followed by the given files and directories |
| Gen.EveryFileIsCovered | internal/spec/gen.go:64-174 | every file of the tree but a top-level Apackfile is listed by its own path or lies under a listed directory |
| Gen.ConfigsFollowTheModels | internal/spec/gen.go:137-150 | a top-level config file goes to the models exactly when a weight file was found, else to the datasets |
| Gen.WeightsAreModels | internal/spec/gen.go:127-143 | every collected weight file is a model under its own path |
| Gen.CatchAllExactly | internal/spec/gen.go:152-160 | the catch-all is there exactly for a top-level file of unknown type or more than five unclassified sub-directories |
| Gen.NothingInvented | internal/spec/gen.go:64-174 | every new entry of every list is a file or sub-directory of the tree of the fitting kind, or the catch-all |
| Gen.AddDirToArtifact | internal/spec/gen.go:176-237 | which list a sub-directory joins, which files it hands on, and whether it could be classified |
| Gen.OverallMeans | internal/spec/gen.go:207-220 | the scan over the six lists finds one type exactly when the directory holds only that type and config files |
| Gen.ModelsFound | internal/spec/gen.go:127-137 | model files are found exactly when there is a weight file at the top or directly in a sub-directory that is not special |
| Gen.SubDirs | internal/spec/gen.go:127-135 | the loop lists every sub-directory by its verdict, and hands on the files of each |
| Gen.TopFiles | internal/spec/gen.go:78-125 | the loop sorts every top-level file by its name or type |
| Gen.HeldIsUnder | internal/spec/gen.go:408-447 | every file of a tree lies under the tree's path |
| FileTypes.TypeExactly | internal/spec/gen.go:240-254 | a name's type is the kind its suffix is listed under: no name has suffixes of two kinds, so the order of the tables does not matter |
| FileTypes.DirsByContents | internal/spec/gen.go:176-237 | a directory of only datasets, documents or weights joins the list of its kind, named ones go by their names, all others to the codes |
| Packaging.ImageExactly | internal/repo/makefile.go:37-100 | path by path, the image of a generated description: the given entries, the packed files, and the sub-directories listed whole |
| Packaging.GeneratedBuildsExactly | internal/repo/makefile.go:102-138 | its build succeeds exactly when the given entries build, no sub-directory is listed whole and every packed file can be read |
| Packaging.ReachesTheImageExactly | internal/repo/makefile.go:71-81 | a file of the tree reaches the image exactly when it is a notice or of known type at the top, or a weight (or a config in a model directory) directly in a sub-directory that is not special |
| Packaging.SpecialStaysOut | internal/spec/gen.go:176-188 | nothing below docs, src, pkg, lib or build reaches it |
| Packaging.SamePathSameFile | internal/spec/gen.go:408-447 | in a tree as a file system has it, no other file has the path of a packed one |
| ManifestDiff.CompareManifests | cmd/diff/util.go:20-72 | the five results as counts of layers, each list in media-type order |
| ManifestDiff.CompareAnnotations | cmd/diff/util.go:25-40 | the counter loop decides equality of the maps |
| ManifestDiff.LexExactly | cmd/diff/util.go:60-72 | the order of media types is the dictionary order of strings |
| ManifestDiff.SplitKeepsAll | cmd/diff/util.go:47-54 | shared and unique layers of B are together B's layers |
| ManifestDiff.SplitPartitions | cmd/diff/util.go:47-54 | a digest in both is shared exactly once, its repetitions count as unique, and every other digest of B is unique |
| ManifestDiff.UniqueBExactly | cmd/diff/util.go:47-54 | "unique to B" means absent from A exactly when B repeats no digest of A |
| ManifestDiff.SwapExactly | cmd/diff/util.go:42-59 | the other way round the same digests are shared, and the unique ones of a manifest are the same exactly when it repeats no digest it shares |

## Left out

- ChunkPlan.OffsetsFitInt64: everything else is over unbounded integers; sizes are below 2^53, where the float ceiling of
  the part count is the integer ceiling used here.
- DownloadRuns.ProgressConservation: holds for the concurrent mode only; the single-file mode counts the local size again
  on every attempt.
- DownloadStart.LargeRuns: the run it gives takes the chunks one after the other; other orders are in `DownloadRuns`.
- DownloadRuns.CrashSafeResume: the runs have a server that honours ranges (`Download` covers the others, attempt by
  attempt); loss of written data in a power failure and two downloads into one destination are not covered.
- Download.Downloader.DownloadPart: the wait between attempts has no length; an interrupted wait is an input.
- LayerIndex.Db.Annotation: an unnamed entry without an annotation map, which the code would fail on, is treated as one
  with an empty map.
- LayerIndex.Db.Manifest: a value of the store either parses as a manifest or does not; JSON is not modelled.
- GarbageCollector.Collector.RunAsWritten: DryRun, which nothing reads, is absent.
- Collection.RecordsExactly: the files that pulled tar layers leave in the snapshot directory, which no collection
  touches, are not part of the store.
- Store.NoDanglingReference: the garbage collector does not run beside builds and pulls, and the object store is only
  read.
- Export.BuildThenExport: for images built and exported locally; creating sub-directories is not modelled, so it speaks of
  flat workspaces, and of nested ones whose directories exist.
- TaskManager.Manager.Cleanup: one round at one instant; in the interleaved machine a round is one step per task.
- Packaging.GeneratedBuildsExactly: ids and sizes, which the build overwrites, are blank in a generated description.
- Gen.Gen: license detection and the fields other than paths are left out, and lower-casing is ASCII only.
- ManifestDiff.CompareManifests: the sort is some permutation in media-type order, as the library promises no more.
- FindDiffid's "nil" and the FILEPATH key follow the constants of the model-spec module, which is not part of this model.
- HTTP, registries, credentials, TLS, the commands and API handlers: plumbing around these parts.
- gzip, zstd, tar, SHA-256, bbolt and the object store: libraries, taken as functions and maps.
- YAML and JSON serialisation, sizes and durations as text, option precedence.
- The HuggingFace and Ollama importers, which repeat Bundle's pattern over the network.
- Processes, ports and the model runtime: effects of the operating system.
