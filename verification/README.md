# Verified models of OpenList's stateful core

These Dafny files model the parts of OpenList in which state, order or
interleaving decides whether the program is right, and prove what those parts
promise. `dafny verify dfyconfig.toml` checks everything.

Two forms occur. Code whose point is concurrency is a machine: a state, one
label per atomic action, a step function, an invariant, and theorems about
every run. Code that one caller runs step by step is a class or a method that
changes its fields and arrays as the original does, with contracts that fix the
whole new state.

**Concurrent map** (`pkg/generic_sync/map.go`). `ConcurrentMap` takes one step
per atomic load, store, compare-and-swap and access under the mutex (`Act`);
threads keep the snapshots and entry pointers they read earlier, and the
address of a new value is an arbitrary choice, so a compare-and-swap may meet a
re-used address. `ConcurrentMapInvariant`, `ConcurrentMapSteps` and
`ConcurrentMapActions` hold the invariant and one lemma per action,
`ConcurrentMapTheorems` the results on values and `ConcurrentMapProgress` that
calls end. `Cell.key`, the history of plain maps, and a call's `start` and
`eff` are history variables: no branch reads them. `SequentialMap` is the same
structure as classes over shared entry objects, for calls that do not overlap.

**Range downloader** (`internal/net/request.go`). `DownloadPlan` is the
chunk-size arithmetic, `Downloader` the machine (`Step`) of workers, buffers
and the reader; a response body is any prefix of the asked range, in pieces of
any size, and any request may fail, be refused or be cut. The end of a buffer
takes three steps of the reader (the read that meets it, `SendNext` under the
lock, `Switch` after it), and workers may act in between. `DownloadBuffer` is
`Buf` as an object, tied to the machine's functions. `DownloaderProof` and
`DownloaderTheorems` hold the proofs about the bytes, `DownloaderProgress` that
nothing sent is forgotten, and `DownloaderWork` that what workers do is
bounded. The retries of a refused chunk can cost all workers:
`LastWorkerLeaves` is such a run, and `ParkedReaderIsServed` says exactly when
none is left.

**Upload pipeline** (`drivers/115/util.go`). `FileSplit` cuts the file;
`UploadPipeline` (`Step`) is the dispatcher with tokens, the two readers, the
waiters, the scheduler, the writer, the collector and the main loop, with one
step per channel operation, read or upload attempt; `UploadProof` and
`UploadTheorems` prove order, completeness, the memory bound, and that every
run ends; `UploadOutcome` proves which answer it ends with.

**Directory and link cache** (`internal/op/cache.go`, `internal/op/fs.go`).
`StorageTree` says what it means for cached listings and links to agree with
the driver's tree; `DirectoryCaching` has the cache classes, `StorageChanges`
one lemma per kind of change and patch, and `StorageOps` the operations of one
storage. A file's node carries a version that every write may change, and a
cached link remembers the version it was made for, which has to be the tree's.
`Consistent` is required and ensured by each of them, so it holds after any
sequence. The driver is list-only and may fail at any call (`faults` counts
these failures); it also refuses a destination name that is taken, a move into
the object's own subtree and a copy of its root (`CanGraft`, `CanMake`,
`CanPut`). Each contract says when its operation succeeds if no call fails.

**Breakpoint-resumed walk** (`drivers/aliyun_to_115/sync.go`). `PathOrder`
relates byte order on paths to walk order; `BreakpointWalk` is the walk as a
function of the tree, `BreakpointResume` what a resumed walk hands on, and
`BreakpointSync` the recursive methods with the shared flag and the saved
breakpoint, which can stop at any moment (a crash, a failed listing and a
cancelled context look alike). The comment at
`drivers/aliyun_to_115/sync.go:570-572` says that a path greater than the
breakpoint proves the breakpoint gone and that the walk may take over there;
the code can skip files in one case, `LosesAFile`, and `DeletedBreakpoint`
gives the exact condition.

**Peekable and random-access streams** (`pkg/buffer`, `internal/stream`).
`Buffers` has the block list and the peeked file, `Streams` the one-shot upload
stream, `RandomAccess` the seeker over forward-only readers, `Sections` the
three section readers and the part loop of
`drivers/aliyundrive_open/upload.go`. A caller's slice is modelled by its
length `want`, and the bytes copied into it are returned.

**Smaller machines.** `SyncClosers` (counted closers), `SingleFlight`,
`UploadStage` (FTP uploads in progress) and `AliasPairs` (backing objects of a
merged folder).

## Model

| member | source | states |
|---|---|---|
| `ConcurrentMapTheorems.ResultsAreAtomic` | pkg/generic_sync/map.go:103-343 | Under every interleaving of atomic loads, stores, swaps and critical sections, a finished call returned what one plain map would return at a moment between its invocation and its return (for Range: key by key); a call that changes the map did exactly its own operation in one step inside that interval |
| `ConcurrentMapTheorems.RangeStep` | pkg/generic_sync/map.go:334-342 | A step of Range shows its callback nothing, or one pair that the map holds at that moment and that was not shown before, and ends the call early exactly when that callback asks to stop |
| `ConcurrentMapTheorems.RangeEndsEarlyOnlyWhenAsked` | pkg/generic_sync/map.go:334-342 | In every run a Range that ended early did so in a step in which its callback was shown its last pair and asked to stop |
| `ConcurrentMapTheorems.RangeShowsEverything` | pkg/generic_sync/map.go:303-343 | In every run a finished Range whose callback never asked to stop is complete and has shown every key that was in the map throughout the call |
| `ConcurrentMapProgress.CallsFinishAlone` | pkg/generic_sync/map.go:103-412 | Whatever others left half done, a call that runs alone takes no more steps than its work: no retry loop spins without another thread |
| `ConcurrentMapProgress.WorkIsBounded` | pkg/generic_sync/map.go:103-412 | That work is at most three steps for each key of the read map, one for each of the dirty map, and twelve; a call without work is over |
| `ConcurrentMapTheorems.StepsAreOperations` | pkg/generic_sync/map.go:103-412 | Each step either leaves the plain map alone or is the single effect of the acting call, so the history of the plain map is the history of the operations |
| `ConcurrentMapTheorems.DeadEntriesStayDead` | pkg/generic_sync/map.go:76-93 | An entry that is not its key's entry never changes again and never becomes it: a late compare-and-swap through an old snapshot cannot revive it |
| `ConcurrentMapTheorems.DroppedEntriesAreExpunged` | pkg/generic_sync/map.go:379-387 | An entry that leaves the read snapshot in a step is expunged by then and is no longer found |
| `ConcurrentMapTheorems.LiveEntriesAreShared` | pkg/generic_sync/map.go:42-93 | Whenever the mutex is free, `amended` says exactly whether the dirty map exists, and then it shares every live entry of the snapshot and lacks every expunged one; without a dirty map nothing is expunged |
| `ConcurrentMapTheorems.NeverStuck` | pkg/generic_sync/map.go:142-238 | No thread writes to a nil dirty map, the ignored ok of tryLoadOrStore under the mutex is never false, and some thread can act while a call is unfinished |
| `ConcurrentMapTheorems.StepKeepsInv` | pkg/generic_sync/map.go:31-412 | Every labelled step, call and return keeps the invariant that ties threads' stale snapshots and entry pointers to the shared state |
| `ConcurrentMapTheorems.InvAlways` | pkg/generic_sync/map.go:31-412 | The invariant holds in every state of every run from the empty map |
| `ConcurrentMapTheorems.OwnerActOk` | pkg/generic_sync/map.go:103-412 | Each action of the mutex holder keeps the shared invariant, what other threads hold, and moves the plain map by nothing or by its own effect |
| `ConcurrentMapTheorems.FreeActOk` | pkg/generic_sync/map.go:103-343 | The same for each lock-free action: loads, compare-and-swap attempts, iteration and waiting for the mutex |
| `ConcurrentMapInvariant.OtherKept` | pkg/generic_sync/map.go:31-93 | A step of one thread keeps what every other thread has learnt from earlier loads |
| `ConcurrentMapSteps.BuildExpunges` | pkg/generic_sync/map.go:389-412 | Expunging a nil entry while the dirty map is built does not change the plain map and keeps the invariant for the keys not yet copied |
| `ConcurrentMapSteps.PromoteKeeps` | pkg/generic_sync/map.go:379-387 | Promoting the dirty map loses no live entry |
| `SequentialMap.MapOf.Load` | pkg/generic_sync/map.go:103-139 | Without overlap Load answers what the plain map holds and leaves it alone, even when it counts a miss and promotes |
| `SequentialMap.MapOf.Store` | pkg/generic_sync/map.go:142-169 | Store sets exactly its key in the plain map, on the fast path, after unexpunging, in the dirty map, or with a new entry |
| `SequentialMap.MapOf.TryStore` | pkg/generic_sync/map.go:175-185 | The fast path stores exactly when the entry is not expunged, and otherwise changes nothing |
| `SequentialMap.MapOf.ReviveLocked` | pkg/generic_sync/map.go:150-156 | Unexpunging an entry and entering it in the dirty map changes nothing in the plain map and leaves the entry writable |
| `SequentialMap.MapOf.AddLocked` | pkg/generic_sync/map.go:159-167 | A first entry of a key, with the dirty map built when needed, sets exactly that key |
| `SequentialMap.MapOf.DirtyLocked` | pkg/generic_sync/map.go:389-401 | The dirty copy has exactly the live entries of the read map, as the same objects, and the deleted ones become expunged |
| `SequentialMap.MapOf.AmendLocked` | pkg/generic_sync/map.go:160-165 | Building the dirty map and marking `read` as amended keeps the plain map |
| `SequentialMap.MapOf.LoadOrStore` | pkg/generic_sync/map.go:205-238 | LoadOrStore returns the held value and changes nothing, or stores the given one; never both |
| `SequentialMap.MapOf.Delete` | pkg/generic_sync/map.go:273-300 | Delete removes exactly its key |
| `SequentialMap.MapOf.MissLocked` | pkg/generic_sync/map.go:379-387 | A counted miss keeps the plain map, and promotes exactly when the misses have caught up with the dirty map's size |
| `SequentialMap.MapOf.Range` | pkg/generic_sync/map.go:312-343 | Range shows each pair of the map at most once, stops after the first refusal, and otherwise shows all of them |
| `SequentialMap.MapOf.RangeRead` | pkg/generic_sync/map.go:334-342 | The loop over a read map that holds every key does the same |
| `SequentialMap.MapOf.ToMap` | pkg/generic_sync/map.go:363-370 | ToMap is the plain map |
| `SequentialMap.MapOf.Clear` | pkg/generic_sync/map.go:372-377 | Clear leaves the plain map empty |
| `SequentialMap.Entry.TryLoadOrStore` | pkg/generic_sync/map.go:245-270 | None exactly for an expunged entry; otherwise the value now stored and whether it was there |
| `SequentialMap.Entry.TryExpungeLocked` | pkg/generic_sync/map.go:403-412 | Expunges exactly a nil entry and tells whether the entry holds no value |
| `DownloaderTheorems.ReaderSeesTheRange` | internal/net/request.go:623-646 | For every schedule of workers, partial bodies, retries and re-queued chunks the bytes handed to the reader are a prefix of the requested range, and end of file is reported only after all of it |
| `DownloaderTheorems.UnreadChunksStay` | internal/net/request.go:213-316 | No step resets or moves the buffer of a chunk that the reader has not read to its end, or touches a byte of it that has arrived |
| `DownloaderTheorems.ChunksInFlight` | internal/net/request.go:353-472 | A chunk that still has bytes to come sits in bufs[id % len(bufs)], continues exactly where that buffer ends, and none of its writes is cut short |
| `DownloaderTheorems.ParkedReaderIsOwedASignal` | internal/net/request.go:699-772 | A parked reader whose buffer has data has a signal waiting |
| `DownloaderProgress.MissingBytesAreOnTheirWay` | internal/net/request.go:320-472 | In every run that has not failed each chunk that is sent and not all there is in the channel or with a worker, with exactly the bytes from where its buffer ends to its own end still to come: no broken response, refusal or full buffer loses one |
| `DownloaderProgress.ReadMakesProgress` | internal/net/request.go:623-742 | A call of Read with a non-empty slice that comes back has delivered something, gone on to the next chunk, reported the end or met a failed download; and it delivers no more than the slice holds |
| `DownloaderProgress.WorkersAreCounted` | internal/net/request.go:213-231 | Unless the download has failed, the workers that have not left are exactly the configured concurrency less the size of the remaining one, before and after it is negated by a refusal |
| `DownloaderProgress.ParkedReaderIsServed` | internal/net/request.go:699-742 | Unless the download has failed a parked reader has its signal or some worker can act, as long as a worker is left; none is left exactly when the remaining concurrency has come down to the negated configured one |
| `DownloaderProgress.LastWorkerLeaves` | internal/net/request.go:427-443 | That can happen: a refused chunk is queued again with its mark, and takes one more worker with it at each refusal. Here a run with two workers, not failed, in which both have left and a chunk waits |
| `DownloaderProgress.DesertedForGood` | internal/net/request.go:213-231 | Then no worker comes back and nothing but the reader moves any more |
| `DownloaderWork.WorkIsBounded` | internal/net/request.go:320-472 | The steps by which workers get on are at most the bytes of the range, three a chunk, and one for each refused or broken response |
| `DownloaderTheorems.StepKeepsInv` | internal/net/request.go:162-472 | Every step of workers and reader keeps the invariant on the plan, the ring, the chunks in flight and the reader |
| `DownloaderTheorems.InvAlways` | internal/net/request.go:162-472 | The invariant holds in every state of every run from the start of download() |
| `DownloaderProof.SendKeeps` | internal/net/request.go:213-277 | sendChunkTask, from whichever caller, keeps the ring: a new buffer or the one of a chunk that is read, and the next chunk of the plan |
| `DownloaderProof.FinishKeeps` | internal/net/request.go:306-316 | finishBuf reports the end after the last chunk; otherwise it sends a chunk while one is missing and leaves the reader with nothing of the next chunk read |
| `DownloaderProof.SwitchKeeps` | internal/net/request.go:306-316 | The lookup after the lock is given back finds the buffer of exactly the next chunk, whatever the workers did in between |
| `DownloaderProof.WriteHolds` | internal/net/request.go:744-772 | A piece of a response fits in the chunk's buffer and extends its prefix of the chunk |
| `DownloaderProof.RequeueKeeps` | internal/net/request.go:431-443 | Re-queueing a refused chunk, wherever it had got to, keeps everything |
| `DownloadPlan.ChunksTile` | internal/net/request.go:238-259 | Whenever Length > PartSize >= 1 the chunks end exactly at the end of the range after maxPart of them, and each has 1 to PartSize bytes |
| `DownloadPlan.SendsExactlyMaxPart` | internal/net/request.go:167-170 | The test pos < maxPos admits exactly maxPart chunks |
| `DownloadPlan.OffsetIs` | internal/net/request.go:238-259 | Closed form of the chunk offsets after the odd first two sizes |
| `DownloadPlan.OffsetGrows` | internal/net/request.go:268-270 | Offsets strictly increase |
| `DownloadPlan.FirstChunks` | internal/net/request.go:238-259 | The first chunk is what does not fill a part, but at least half a part, and the second makes up for it |
| `DownloadPlan.MaxPartIs` | internal/net/request.go:167-170 | maxPart is the rounded-up number of parts, at least two |
| `DownloadBuffer.Buffer.constructor` | internal/net/request.go:666-682 | A new buffer of the given capacity, empty, with no reader pending |
| `DownloadBuffer.Buffer.Reset` | internal/net/request.go:684-697 | Refuses a size beyond the capacity, otherwise only restarts the offsets: what the machine's Reset does |
| `DownloadBuffer.Buffer.TryRead` | internal/net/request.go:699-742 | One turn of the read loop gives the next bytes, end of the buffer, or records that a reader waits |
| `DownloadBuffer.Buffer.Write` | internal/net/request.go:744-772 | Copies what fits behind the written bytes and wakes a pending reader: what the machine's Write does |
| `FileSplit.SplitFile` | drivers/115/util.go:754-779 | Succeeds exactly for 1000 bytes or more, with 1 to 10000 chunks numbered from one that tile the file, none but the last below 100 KB |
| `FileSplit.SplitFileByPartNum` | drivers/115/util.go:783-807 | Succeeds exactly for 1 <= chunkNum <= 10000 and chunkNum <= fileSize, with chunkNum tiling chunks, all but the last of the same size |
| `FileSplit.SplitFileByPartSize` | drivers/115/util.go:811-838 | Succeeds exactly when fewer than 10000 whole chunks fit, with tiling chunks of the given size but for the last |
| `UploadTheorems.PartsArriveInOrder` | drivers/115/util.go:539-665 | At every moment the object store holds parts 1, 2, ... without a gap, each with the bytes of its own chunk |
| `UploadTheorems.CompletedHasEverything` | drivers/115/util.go:667-716 | CompleteMultipartUpload is reached only with one part per chunk in order, and then the store holds the whole file |
| `UploadOutcome.AnswerIs` | drivers/115/util.go:675-716 | In every run the upload has succeeded exactly when the object store has said yes to completing it, and failed exactly when it said no, an error was received or the loop was stopped |
| `UploadOutcome.HealthyUploadsComplete` | drivers/115/util.go:484-716 | A run that can go no further, in which nobody gave up, nothing was cancelled and the store did not refuse, has completed the upload with one part per chunk |
| `UploadOutcome.FailuresEndTheUpload` | drivers/115/util.go:675-709 | Unless everything is cancelled, the main loop can receive an error exactly when a goroutine has given up |
| `UploadOutcome.GivesUpAfterThree` | drivers/115/util.go:498-650 | A reader and the writer give up on exactly their third failed attempt at a chunk, and until then try the same chunk again |
| `UploadTheorems.JoinedIs` | drivers/115/util.go:496-534 | The parts' bytes joined are the file up to the end of the last chunk |
| `UploadTheorems.MemoryIsBounded` | drivers/115/util.go:466-483 | At most queueMaxLen chunk buffers are alive at once, and never more than tokens are out |
| `UploadTheorems.SendsNeverBlock` | drivers/115/util.go:434-437 | The error channel never fills, a reader's own waiter channel is always free and a token is there to give back |
| `UploadTheorems.NeverStuck` | drivers/115/util.go:466-709 | As long as nothing was cancelled and no retries ran out, an upload whose main loop has not returned has an enabled forward step |
| `UploadTheorems.StepsUseUpWork` | drivers/115/util.go:466-709 | Every step, failing ones included, lowers one measure |
| `UploadTheorems.RunsAreBounded` | drivers/115/util.go:466-709 | So no run is longer than 60 steps per chunk and eight more |
| `UploadProof.StepKeepsInv` | drivers/115/util.go:466-716 | Every step keeps the invariant on tokens, waiters, order, parts and counters |
| `DirectoryCaching.CacheManager.DeleteDirectoryTree` | internal/op/cache.go:46-56 | Leaves no cached directory at or below the key and no cached link below it, and nothing else changes, whenever every cached thing below is announced by its parent's listing |
| `DirectoryCaching.WalkEnd` | internal/op/cache.go:46-56 | The walk over one popped listing, with the recursive drops, covers the whole subtree |
| `DirectoryCaching.WayIsCached` | internal/op/cache.go:46-56 | Every step on the way to a cached descendant is cached and announced |
| `DirectoryCaching.DirectoryCache.RemoveObject` | internal/op/cache.go:178-188 | Removes the first object of that name and no other |
| `DirectoryCaching.DirectoryCache.UpdateObject` | internal/op/cache.go:190-204 | Replaces the first object of the old name, or appends |
| `DirectoryCaching.DirectoryCache.GetSortedObjects` | internal/op/cache.go:206-228 | Returns the cached objects with their multiplicity, whatever the dirty flags |
| `StorageChanges.AgreesAnnounced` | internal/op/cache.go:46-56 | A cache that agrees with the tree meets what deleteDirectoryTree relies on |
| `StorageChanges.WriteKeeps` | internal/op/fs.go:352-364 | After a new or overwritten object the patched listing agrees with the changed tree |
| `StorageChanges.WithoutKeeps` | internal/op/cache.go:69-84 | After a removal the patched caches agree with the changed tree |
| `StorageChanges.MoveKeeps` | internal/op/fs.go:412-433 | After a move both patched listings, the dropped subtree and the dropped links agree with the changed tree |
| `StorageChanges.RenameKeeps` | internal/op/fs.go:476-492 | The same after a rename |
| `StorageChanges.CopyKeeps` | internal/op/fs.go:545-558 | The same after a copy |
| `StorageChanges.DropKeeps` | internal/op/fs.go:110-113 | Dropping a cached subtree keeps the agreement |
| `StorageChanges.GraftBack` | internal/op/fs.go:632-703 | Renaming an object away and back restores the tree |
| `StorageChanges.Replaced` | internal/op/fs.go:605-710 | Making room, uploading and cleaning up together replace exactly one object |
| `StorageOps.ListingPermuted` | internal/op/cache.go:206-228 | Any order of an agreeing listing agrees |
| `StorageOps.Storage.List` | internal/op/fs.go:30-126 | A returned listing has exactly the driver's names and kinds (and real sizes when fetched), the caches agree with the tree afterwards, a cached listing is answered without the driver, and an error means no such directory or a failed driver call |
| `StorageOps.Storage.Get` | internal/op/fs.go:129-215 | A found object is the tree's; not found means it is not there or a driver call failed; with excludeTemp it is never a made-up one |
| `StorageOps.Storage.Link` | internal/op/fs.go:228-282 | A link is for the file as it is now, and cached under a directory that is cached; without driver failures there is one exactly for the files of the tree, and a cached one is given without the driver |
| `StorageOps.Storage.MakeDir` | internal/op/fs.go:306-368 | On success the directory exists and only directories on the way were added; it fails only when a driver call failed, a file is in the way or a name is empty, and never succeeds in the last two cases |
| `StorageOps.Storage.Move` | internal/op/fs.go:370-444 | On success exactly the source subtree stands at its new place, on refusal nothing changed, and the caches agree either way; each refusal has its cause, and without driver failures it succeeds exactly when the driver can move the object there |
| `StorageOps.Storage.PatchMove` | internal/op/fs.go:412-433 | The hand-made patches of Move, in its order, restore the agreement |
| `StorageOps.Storage.Rename` | internal/op/fs.go:446-504 | On success exactly the subtree stands under its new name, on refusal nothing changed, and the caches agree; without driver failures it succeeds exactly when the driver can rename it so |
| `StorageOps.Storage.PatchRename` | internal/op/fs.go:476-492 | The hand-made patches of Rename restore the agreement |
| `StorageOps.Storage.Copy` | internal/op/fs.go:507-569 | On success the subtree also stands at the destination, on refusal nothing changed, and the caches agree; each refusal has its cause, and without driver failures it succeeds exactly when the driver can copy the object there |
| `StorageOps.Storage.Remove` | internal/op/fs.go:571-603 | On success the object and all below is gone (or could not be found because a driver call failed), and the caches agree |
| `StorageOps.Storage.Forget` | internal/op/cache.go:69-84 | Dropping the moved or removed object's subtree leaves nothing cached at or below it, also when its parent is not cached |
| `StorageOps.Storage.Put` | internal/op/fs.go:605-710 | On success the new file is there and, without driver failures, replaces exactly the old object or adds exactly itself and missing directories; without driver failures it succeeds exactly when nothing blocks it; when only the upload fails an existing non-empty object is as before; the caches agree |
| `StorageOps.Storage.PutPrepare` | internal/op/fs.go:625-641 | Before the upload an empty object of that name is removed, or another one steps aside where overwriting is not possible |
| `StorageOps.Storage.PutUpload` | internal/op/fs.go:642-695 | The upload writes exactly the file, after making only missing directories, or changes nothing |
| `StorageOps.Storage.PutReplace` | internal/op/fs.go:642-709 | From the upload on: what is written, and that clean-up follows only an upload that was tried |
| `StorageOps.Storage.PutFinish` | internal/op/fs.go:697-708 | Afterwards the object that stepped aside is put back or removed |
| `BreakpointResume.UnchangedTree` | drivers/aliyun_to_115/sync.go:553-584 | On an unchanged tree a resumed walk hands on exactly the suffix, in walk order, that starts at the saved file |
| `BreakpointResume.DeletedBreakpoint` | drivers/aliyun_to_115/sync.go:569-583 | With any breakpoint, standing or deleted, the resumed walk hands on exactly the files not before it in walk order if and only if it is not misled: no entry with files continues a name on the way with a byte below the separator before anything has woken the walk |
| `BreakpointResume.ResumeLevel` | drivers/aliyun_to_115/sync.go:530-612 | The same for one directory level and any remaining path, with what happens to fullScan, and a loss of files in the misled case |
| `BreakpointResume.NoSuchSiblingIsSafe` | drivers/aliyun_to_115/sync.go:569-583 | When no sibling on the way continues the way's name with a byte below the separator, nothing is lost |
| `BreakpointResume.LosesAFile` | drivers/aliyun_to_115/sync.go:569-583 | A deleted breakpoint /a/f with the next file /a! is a case in which the resumed walk skips a file that lies after it |
| `BreakpointResume.StandingIsFound` | drivers/aliyun_to_115/sync.go:559-568 | A breakpoint that still stands wakes the walk and never misleads it |
| `BreakpointResume.FilesSorted` | drivers/aliyun_to_115/sync.go:525-528 | The walk order is the order of the name sequences, and no file occurs twice |
| `BreakpointWalk.FilesAre` | drivers/aliyun_to_115/sync.go:530-552 | The walk is over exactly the files of the tree that are whitelisted all the way |
| `BreakpointResume.JudgeIs` | drivers/aliyun_to_115/sync.go:554-584 | The trimmed string comparisons and the prefix test on full paths mean what they should on names |
| `PathOrder.TestsOnNames` | drivers/aliyun_to_115/sync.go:555-573 | Equality, prefix and byte order of a name against a joined path, in terms of its first component |
| `PathOrder.NameAgainstPath` | drivers/aliyun_to_115/sync.go:573-573 | Byte order puts a name after a longer path exactly when it is after its first component and does not continue it with a byte below the separator |
| `PathOrder.FollowsFirst` | drivers/aliyun_to_115/sync.go:525-528 | Names that continue a component with such a byte come before all others that are greater |
| `PathOrder.PrefixOfPath` | drivers/aliyun_to_115/sync.go:566-566 | The prefix test with a slash holds exactly for the component's own directory |
| `BreakpointSync.Syncer.WalkAndSync` | drivers/aliyun_to_115/sync.go:506-615 | The recursive loop with the shared flag hands on what the function Walk says, or a prefix of it when stopped, with the breakpoint at the last file or the one to come; it comes to its end unless something stops it |
| `BreakpointSync.Syncer.VisitEntry` | drivers/aliyun_to_115/sync.go:530-612 | The loop body does the same for one entry |
| `BreakpointSync.Syncer.SyncFile` | drivers/aliyun_to_115/sync.go:593-610 | The breakpoint is saved before the file is processed, and a stop at any moment leaves one of the two orders |
| `BreakpointSync.Syncer.SyncDirectory` | drivers/aliyun_to_115/sync.go:317-330 | A run that ends has handed on everything from the breakpoint on and clears it; a stopped one leaves a breakpoint at most one file back |
| `BreakpointSync.Syncer.SyncUntilDone` | drivers/aliyun_to_115/sync.go:117-144 | Over any number of stops and resumes, a run that finally ends has handed on every whitelisted file, and each stop repeated at most one; only a stop in every attempt keeps it from ending |
| `Buffers.Reader.ReadAt` | pkg/buffer/bytes.go:32-59 | The copying loop over the blocks gives the slice of their concatenation, with end of file exactly when the caller's slice is not filled or the offset is outside |
| `Buffers.Reader.Append` | pkg/buffer/bytes.go:19-22 | Appending a block appends its bytes |
| `Buffers.Reader.Read` | pkg/buffer/bytes.go:24-30 | Reads on from the offset |
| `Buffers.Reader.Seek` | pkg/buffer/bytes.go:61-78 | Moves to the offset meant, and fails without effect outside the contents |
| `Buffers.SeeksReach` | pkg/buffer/bytes.go:61-78 | Every place inside the contents is reached from the start, from the current place and from the end, and no other place is |
| `Buffers.Reader.Reset` | pkg/buffer/bytes.go:80-85 | Nothing is left |
| `Buffers.PeekFile.ReadAt` | pkg/buffer/file.go:24-35 | Reads the peeked bytes and the file as one byte string, across the seam |
| `Buffers.PeekFile.Read` | pkg/buffer/file.go:16-22 | Reads on from the offset |
| `Buffers.PeekFile.Seek` | pkg/buffer/file.go:37-76 | Moves to the offset meant, and fails without effect outside |
| `Buffers.PeekFile.constructor` | pkg/buffer/file.go:82-88 | The file's size is that of both parts |
| `Streams.FileStream.RangeRead` | internal/stream/stream.go:206-220 | Any sequence of range reads, in any order, above or below the buffer limit, consumes nothing and returns the bytes asked for; a negative length or one beyond the end means everything from the start on; without a failed read or file it always answers |
| `Streams.FileStream.Cache` | internal/stream/stream.go:227-285 | At least the first maxCacheSize bytes become readable, in memory up to the limit and in a file beyond it, what left the source stays readable, and a waiting writer gets exactly the bytes that leave it; only a failure prevents it |
| `Streams.FileStream.CacheInTemp` | internal/stream/stream.go:228-252 | The rest goes to a temporary file that continues what is peeked |
| `Streams.FileStream.CacheInMemory` | internal/stream/stream.go:254-285 | The missing bytes become one more block |
| `Streams.FileStream.CacheFullAndWriter` | internal/stream/stream.go:72-194 | After any earlier peeking the whole content becomes readable from its start, and a writer gets it exactly once |
| `Streams.FileStream.TeeTo` | internal/stream/stream.go:103-117 | A writer gets what is peeked at once and the rest as it is read |
| `Streams.FileStream.ReadAll` | internal/stream/stream.go:196-201 | A later full read still delivers the whole content |
| `RandomAccess.HeadCache.Head` | internal/stream/stream.go:431-450 | The head cache is always a prefix of the file, and gives the first bytes or end of file, without a read when it has them |
| `RandomAccess.ReadAtSeeker.Nearest` | internal/stream/stream.go:506-521 | Picks the reader at the offset, else the nearest at most 4 MB before it |
| `RandomAccess.ReadAtSeeker.GetReaderAtOffset` | internal/stream/stream.go:505-546 | A reader it gives stands exactly at the offset and is in nobody else's hands, is the one that stood there if there was one, and is missing only after a failure |
| `RandomAccess.ReadAtSeeker.ReadAt` | internal/stream/stream.go:548-571 | Whatever the calls before, the bytes are those of the file at that offset, and as many as there are unless a call failed; a reader stored under key k stands at k |
| `RandomAccess.ReadAtSeeker.Read` | internal/stream/stream.go:590-596 | Reads on from the master offset |
| `RandomAccess.ReadAtSeeker.Seek` | internal/stream/stream.go:573-588 | Moves to the offset meant, and fails without effect outside the file |
| `RandomAccess.ReadAtSeeker.InitHeadCache` | internal/stream/stream.go:458-464 | The reader at the start, and no other, leaves the map and becomes the head cache's |
| `RandomAccess.ReadAtSeeker.Open` | internal/stream/stream.go:466-491 | An offset outside the file gives no reader; otherwise one stands there |
| `Sections.FileSections.GetSectionReader` | internal/stream/util.go:296-308 | A section gets a slot that no section in use has and reads as its part of the stream; what the others hold does not change when it fits in the slot |
| `Sections.FileSections.ReadSection` | internal/stream/util.go:290-307 | A section that is not freed still reads as its part of the stream |
| `Sections.FileSections.FreeSectionReader` | internal/stream/util.go:310-316 | Only the freed slot becomes available |
| `Sections.FileSections.GetSlot` | internal/stream/util.go:207-214 | The pool's slot is apart from every other one |
| `Sections.FileSections.DiscardSection` | internal/stream/util.go:278-288 | Skips exactly the part asked for, at the current offset only |
| `Sections.DirectSections.GetSectionReader` | internal/stream/util.go:343-355 | The same with buffers in memory: other sections keep their bytes |
| `Sections.DirectSections.ReadSection` | internal/stream/util.go:337-355 | A section that is not freed still reads as its part of the stream |
| `Sections.DirectSections.FreeSectionReader` | internal/stream/util.go:356-362 | Only the freed buffer becomes available |
| `Sections.DirectSections.DiscardSection` | internal/stream/util.go:325-335 | Skips exactly the part asked for, at the current offset only |
| `Sections.DirectSections.GetBuffer` | pkg/pool/pool.go:13-22 | The pool's buffer is nobody's |
| `Sections.OverwriteApart` | internal/stream/util.go:301-302 | Writing one slot of the temporary file leaves the others alone |
| `Sections.FittingSectionsSpare` | internal/stream/util.go:208-302 | Slots are maxBufferSize apart and a section's length is not compared with that: exactly the lengths that fit leave every other slot alone |
| `Sections.NewStreamSectionReader` | internal/stream/util.go:185-252 | A cached stream gives its own file, slots beyond the memory limit a temporary file or a full cache, and smaller ones memory; each starts idle at the stream's beginning |
| `Sections.AtMostTenThousandParts` | drivers/aliyundrive_open/upload.go:33-51 | At most 10000 parts exactly for sizes up to 10000 x 5 GB |
| `Sections.PartsCover` | drivers/aliyundrive_open/upload.go:164-164 | All parts but the last are full and the last is not empty |
| `Sections.ProofRangeInside` | drivers/aliyundrive_open/upload.go:108-126 | The proof range starts at the hash modulo the size, lies inside the file, has at most eight bytes, and is cut only at the end |
| `Sections.UploadParts` | drivers/aliyundrive_open/upload.go:219-259 | Over each of the three section readers: when the loop ends well the store has taken every part, and the parts are the announced number, full but for the last, and together the file; it ends badly only when a part was refused or a read failed |
| `Sections.UploadPart` | drivers/aliyundrive_open/upload.go:238-256 | One turn uploads exactly its range and gives its slot back, whichever section reader it is |
| `SyncClosers.ClosersRunOnce` | pkg/utils/io.go:208-234 | With fewer than 2^31 goroutines acquiring and closing, again and again, under every interleaving the closers run at most once, never while a reference is held, and exactly once when all references are back |
| `SyncClosers.AcquireAnswers` | pkg/utils/io.go:196-204 | Before the closers are given over every acquire succeeds, afterwards every one fails |
| `SyncClosers.ExpiredIsClosed` | pkg/utils/io.go:257-259 | Expired answers true exactly from the moment the closers are given over |
| `SyncClosers.ClosedForEver` | pkg/utils/io.go:196-234 | Closed stays closed |
| `SyncClosers.HoldersAreNotDropped` | pkg/utils/io.go:208-213 | A holder's Close never finds the counter negative |
| `SyncClosers.CallsFinishAlone` | pkg/utils/io.go:196-234 | Left alone, a refused acquire and a close need at most four steps, and have one to take until they are over |
| `SyncClosers.StepKeepsInv` | pkg/utils/io.go:196-234 | While open the 32-bit counter is the number of references; once closed it stays so close to its minimum that it cannot become positive |
| `SingleFlight.OneRunPerKey` | pkg/singleflight/singleflight.go:91-141 | A registered call is a running one of its key, and without Forget at most one run per key is under way |
| `SingleFlight.OneThreadPerRun` | pkg/singleflight/singleflight.go:144-205 | Each run is in the hands of one thread |
| `SingleFlight.FinishRemovesItsOwn` | pkg/singleflight/singleflight.go:156-161 | A finishing call removes its own registration and no other |
| `SingleFlight.CallersGetTheirRun` | pkg/singleflight/singleflight.go:96-114 | A caller that asks for key k joins a run of k, stays with it in every later state, and is given that run's result, marked shared exactly when it had another caller |
| `SingleFlight.ChannelsGetTheirRun` | pkg/singleflight/singleflight.go:121-178 | A channel made for key k belongs to a run of k for good and gets exactly one message, that run's result, when it is over |
| `SingleFlight.ResultIsReturned` | pkg/singleflight/singleflight.go:156-161 | What the function returned for a run stays that run's result |
| `SingleFlight.WaitersAreServed` | pkg/singleflight/singleflight.go:96-107 | Nobody waits for a run that nobody is in |
| `SingleFlight.StepsAreBounded` | pkg/singleflight/singleflight.go:91-205 | Each call leads to at most three further steps |
| `SingleFlight.CallsGoOn` | pkg/singleflight/singleflight.go:91-205 | Until a call has returned, it or the owner of its run can take one of them |
| `SingleFlight.StepKeepsInv` | pkg/singleflight/singleflight.go:91-214 | Every step keeps the invariant on registry, runs, threads and channels |
| `UploadStage.Stage.MakeStage` | server/ftp/upload_stage.go:54-76 | A path that is taken is refused; otherwise the file stands there with one handle |
| `UploadStage.Stage.Find` | server/ftp/upload_stage.go:82-92 | A path answers exactly for the file whose latest path it is |
| `UploadStage.Stage.Borrow` | server/ftp/upload_stage.go:78-104 | One more handle exactly when the path answers and the file opens, and no file's latest path or links change beyond that; each error has its cause |
| `UploadStage.Stage.Drop` | server/ftp/upload_stage.go:106-135 | A closed handle's path still leads to its file; the last handle removes the links and that path, and calls mvCallback exactly when the file is neither there nor removed |
| `UploadStage.Stage.MoveStage` | server/ftp/upload_stage.go:186-209 | Succeeds exactly when the source answers and the target is free, and then the file answers at the target; every other file, and all of them on refusal, stay where they are |
| `UploadStage.Stage.RemoveStage` | server/ftp/upload_stage.go:211-231 | Succeeds exactly when the path answers, and then the file answers nowhere; every other file, and all of them on refusal, stay where they are |
| `UploadStage.Stage.StatStage` | server/ftp/upload_stage.go:168-184 | Answers exactly for the latest path of a file that opens |
| `UploadStage.Stage.ListStage` | server/ftp/upload_stage.go:137-166 | Lists exactly the paths directly in the directory that answer |
| `UploadStage.Stage.DirectlyInIs` | server/ftp/upload_stage.go:137-150 | Directly in a directory is the directory, a slash and a name without one |
| `UploadStage.Stage.AnswersAtLatestOnly` | server/ftp/upload_stage.go:33-42 | In every reachable state the handle count is refCount, every link names a file that lists it, and a file answers at no path but its latest |
| `UploadStage.Stage.LastDropClears` | server/ftp/upload_stage.go:119-128 | The last drop leaves nothing of the file if and only if its handle was opened at the origin path; otherwise the origin's entry stays |
| `UploadStage.Stage.CallbackWhenMoved` | server/ftp/upload_stage.go:129-133 | For a handle opened at the origin the callback's test means: moved and not removed, and it is told the latest path |
| `AliasPairs.GetAllObjs` | drivers/alias/util.go:123-173 | Compaction in place keeps the found objects in order (the first of them under that policy), and succeeds exactly when something was found and, for the three strict policies, exactly one object, one or all, or all were |
| `AliasPairs.NotAccepted` | drivers/alias/util.go:195-222 | Each early exit of the filter is taken only when the policy cannot accept any more |
| `AliasPairs.GetMoveObjs` | drivers/alias/util.go:390-445 | Refuses exactly when sources are fewer than destinations; otherwise the destinations are permuted in place, every source is used once, and the same-mount pairs are as many as the shared mounts |
| `AliasPairs.MatchSources` | drivers/alias/util.go:416-437 | The loop pairs sources with waiting destinations of their own mount and leaves only sources whose mount is not wanted |
| `AliasPairs.MovePairs` | drivers/alias/util.go:438-443 | What is left over on both sides shares no mount |
| `AliasPairs.SharedBound` | drivers/alias/util.go:390-445 | No pairing has more same-mount pairs than the mounts both sides share |
| `AliasPairs.MoveIsBest` | drivers/alias/util.go:390-445 | So no other pairing of the same objects keeps more pairs on one mount |
| `AliasPairs.MountsPermuted` | drivers/alias/util.go:405-415 | The mounts depend on the objects and not on their order |
| `AliasPairs.GetCopyObjs` | drivers/alias/util.go:339-388 | Destinations are permuted in place and each gets the first source on its own mount whenever there is one, else the first source of all or a random one |
| `AliasPairs.ServeMount` | drivers/alias/util.go:368-376 | All waiting destinations of a mount get the same source |

## Left out

- Concurrent map: `Count` and `Empty`, which read only the dirty map and are not the map's size, `Values`, and overlapping calls of `ToMap` and `Clear`, which are calls of Range and Delete.
- Downloader: the unsplit download of a range of at most one part, the channel's capacity and blocking sends, `interrupt` and `Close`, retry limits and the size check on the first response.
- DownloaderTheorems.ReaderSeesTheRange: a download may fail at any moment, and then the bytes handed out are still a prefix.
- DownloaderProgress.ParkedReaderIsServed: which of the possible steps is taken is left to the schedule.
- Upload pipeline: panics and their recovery, token refresh and time-out (both are the step `MainStops`), progress logging, and the object store's own checks.
- UploadTheorems.CompletedHasEverything: assumes that the chunks tile the temporary file's real length; a shorter file reads as zeros at its end, because reaching the end counts as success.
- UploadTheorems.NeverStuck: about states in which no retries have run out and nothing was cancelled; that every other run ends too is `RunsAreBounded`.
- Cache: one storage, one caller at a time; expiry, edits behind the cache's back, name mapping, drivers with a getter, storages without cache, status checks, permission masks, hooks, link types and their expiry or references, `PutURL`, and `DeleteDirectory` with archive extraction, which breaks the parent rule by design.
- Cache: the sort order of listings, which a removal after a flushed update does not keep, and the sharing of a returned slice with the cache.
- StorageOps.Storage.Remove: an object that is not found because a listing failed counts as removed, as in the source, so success can leave it in place after a driver failure.
- StorageOps.Storage.Put: after a failed driver call it promises only that nothing away from the destination and its temporary name changed. An object that stepped aside stays under its temporary name when making or finding the directory then fails, as in the source.
- Breakpoint walk: the processing of a file and its result, several source lines in one run, the list of providers (a fixed predicate on paths), and errors of the breakpoint store.
- BreakpointResume.DeletedBreakpoint: one resumed walk over a changed tree; runs over a tree that changes again between stops are not followed.
- Streams: which call fails is left open, and `faults` counts the failures; streams of unknown size, memory mapping, progress callbacks and Close; after a failed read a FileStream promises nothing.
- RandomAccess.ReadAtSeeker.ReadAt: calls do not overlap, every reader comes from a range read of the file, and the raw one-shot stream that NewReadAtSeeker stores for offset zero without forceRange is not modelled.
- Sections: HTTP, retries, memory mapping, and floating-point rounding of the part count, which is taken as the exact ceiling. The bytes that reading the stream delivers are a reader of their own.
- Sections.DirectSections.GetSectionReader: a section in memory is at most maxBufferSize long; slicing the pooled buffer panics otherwise.
- Counted closers: only holders call Close, and closers are not added while references are in use.
- Single-flight: panics and Goexit of the function.
- FTP stage: paths are not empty; the temporary file's contents, the remove callback, and failing file-system calls beyond whether the file opens, which is a parameter; `moved` records the calls of mvCallback.
- UploadStage.Stage.LastDropClears: when the last handle was opened at a moved-to path the origin's entry stays in the stage and blocks that path, as in the source.
- Merged folder: every storage lookup succeeds and destination objects are distinct; quota-based and random selection for Put, the consistency check of file sizes and hashes, and the disabled policies.
- Everything else of the repository: web handlers, authentication, drivers' HTTP calls, databases and configuration.
