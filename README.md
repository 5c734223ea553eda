# Segmented downloader — a Dafny model

This project models the core of a segmented, resumable HTTP downloader written
in C#. The downloader splits a remote file into byte-range chunks. It fetches
the chunks on several threads, each into its own cache file, and resumes a
chunk from the length already on disk. It then stitches the chunk files into
the target file in id order and deletes them. A timer tracks progress.

The model has one Dafny module per core file:

| module | file | what it holds |
|---|---|---|
| `ChunkPlan` | `chunks.dfy` | chunk count, chunk ranges and cache paths (`Chunks.cs`) |
| `ChunkTransfer` | `chunk_downloader.dfy` | resumable transfer of one chunk (`ChunkDownloader.cs`) |
| `ChunkFiles` | `chunk_files.dfy` | stitching the chunk files and deleting them; both engines share these passes |
| `Scheduler` | `download_scheduler.dfy` | the claim-counter worker pool (`DownloadScheduler.cs`) |
| `DownloadJob` | `download.dfy` | the job and its file-name derivation (`Download.cs`) |
| `Engine` | `download_engine.dfy` | the job's state machine and its progress tick (`DownloadEngine.cs`) |
| `LegacyDownloader` | `downloader.dfy` | the older all-in-one downloader (`Downloader.cs`) |
| `Tracker` | `download_tracker.dfy` | the older downloader's sliding-window progress tracker (`DownloadTracker.cs`) |
| `Common` | `common.dfy` | shared vocabulary: bytes, options, sums, decimal ids, the start/join log |

How the model stands in for the outside world:
- The file system is a value, `map<string, seq<byte>>`, passed in and returned.
- Each HTTP exchange is its outcome, given as an input. The range probe is a
  boolean. The size lookup is a value or an exception. A response body is a
  list of buffer reads.
- Threads run to completion in a fixed order. An external `Abort` is an
  input: the join at which the controlling loop observes it.
- The scheduler is the exception. Its interleaving is an input: a schedule of
  atomic steps by thread id.
- Classes keep the source's fields. Each keeps a `history` of every state it
  entered and an `events` log of chunk-thread starts and joins. Contracts
  speak about these.

Behaviour of the code that the model keeps as written:
- Append does not check chunk lengths before copying. Only a missing chunk
  file stops it.
- A failure to delete the chunk directory is not ignored. It sends the engine
  to `Error`, and it escapes the older downloader's thread.
- The scheduler does not wait for every worker before rethrowing. It rethrows
  at the first join that finds an error. A failure can also overwrite an error
  that is already stored.
- The tracker's window start can pass a partly downloaded chunk and can exceed
  the chunk count. See Findings.

## Model

| member | source | states |
|---|---|---|
| `ChunkPlan.ChunkCountFor` | Downloader/Chunks.cs:50-69 | Without range support there is one chunk. With it, there are chunks exactly when the size is positive, and none for an empty file. |
| `ChunkPlan.EffectiveChunkSize` | Downloader/Chunks.cs:35 | The kept chunk size is the whole size when the job is one chunk: no range support, or a positive size that fits one chunk. Otherwise it is the requested size. |
| `ChunkPlan.Chunks.ChunkTarget` | Downloader/Chunks.cs:76 | A chunk's cache file is a ".chunk" file inside the cache directory. |
| `ChunkPlan.Chunks.ChunkStart` | Downloader/Chunks.cs:83 | A chunk starts one chunk size after the start of the chunk before it. For a non-negative id and size, it starts at byte 0 or later. |
| `ChunkPlan.Chunks.ChunkEnd` | Downloader/Chunks.cs:90 | A chunk's inclusive end is the end of its slot unless that passes the total size, where it is clamped. It never passes the total size, and a chunk that starts within the file is not empty. |
| `ChunkPlan.Chunks.constructor` | Downloader/Chunks.cs:28-44 | The count is the probe-dependent chunk count. The kept chunk size is the requested one, or the whole size when there is a single chunk. The progress array is fresh, has one zero per chunk, and is sized by the count. |
| `ChunkPlan.CountIsCeiling` | Downloader/Chunks.cs:60-62 | With range support and a positive size, the count n is the ceiling of size / chunk size: (n-1)·cs < size ≤ n·cs. |
| `ChunkPlan.SingleChunkWithoutRanges` | Downloader/Chunks.cs:60-67 | If the probe answers with status ≥ 302, or without `Accept-Ranges: bytes`, there is exactly one chunk and it spans the whole file. |
| `ChunkPlan.UnknownLengthHasNoChunks` | Downloader/Chunks.cs:62 | A size of -1 (unknown Content-Length) gives zero chunks, because long division truncates toward zero. |
| `ChunkPlan.PlanIsCeiling` | Downloader/Chunks.cs:34-35 | In every plan of a positive size: at least one chunk, a positive kept size, and n chunks of that size cover the file with the last one non-empty. |
| `ChunkPlan.Contiguous` | Downloader/Chunks.cs:83-90 | Chunk id+1 starts one chunk size after chunk id, and exactly one byte after chunk id's inclusive end. |
| `ChunkPlan.ChunkWithinFile` | Downloader/Chunks.cs:83-90 | Every chunk of the plan is a non-empty range starting at 0 or later and ending no later than the total size. |
| `ChunkPlan.Disjoint` | Downloader/Chunks.cs:83-90 | Two different chunks never overlap. |
| `ChunkPlan.Covers` | Downloader/Chunks.cs:83-90 | Every byte of the file lies inside chunk byte / size. |
| `ChunkPlan.LastEnd` | Downloader/Chunks.cs:90 | The last chunk ends at size-1 when the chunk size divides the file size. Otherwise it ends at size, one byte past the file. |
| `ChunkPlan.ChunkPathInjective` | Downloader/Chunks.cs:76 | Two chunk ids with the same cache path are equal, so chunk files never collide. |
| `ChunkPlan.FreshProgressSumsToZero` | Downloader/Chunks.cs:39 | The freshly allocated progress counters sum to zero. |
| `Common.Percent` | Downloader/Download.cs:26 | The progress percentage is undefined exactly for a zero size. It lies in [0, 100] while the completed size is within the total, and it is 100 when they are equal. |
| `Common.DecimalInjective` | Downloader/Chunks.cs:76 | Different chunk ids render to different decimal strings. |
| `Common.ParseNatDecimal` | Downloader/Chunks.cs:76 | Reading a rendered id back gives the id. |
| `ChunkTransfer.CopyLoop` | Downloader/ChunkDownloader.cs:98-109 | The bytes the copy loop appends are a prefix of the body's data. An exception that ends it is one that a read raised. |
| `ChunkTransfer.CopyBody` | Downloader/ChunkDownloader.cs:98-109 | The do-while loop over the response stream appends exactly what CopyLoop describes and ends with CopyLoop's exception. |
| `ChunkTransfer.CopiesWholeBody` | Downloader/ChunkDownloader.cs:98-109 | A body delivered in non-empty buffers and then closed is appended completely and in order, with no exception. |
| `ChunkTransfer.CopiesPrefixBeforeFault` | Downloader/ChunkDownloader.cs:92-116 | A read that throws ends the copy. Exactly the bytes delivered before it are kept, and the exception is returned. |
| `ChunkTransfer.ChunkDownloader.constructor` | Downloader/ChunkDownloader.cs:30-41 | Source, target and range are stored as given, and no exception is recorded. |
| `ChunkTransfer.ChunkDownloader.Download` | Downloader/ChunkDownloader.cs:77-122 | The start advances by the existing file's length. A request for [start, end] is made and released exactly when start < end. The file becomes the old contents plus what the copy loop wrote, and no other path changes. A refused request or a failing read is stored in DwnlException, not raised. |
| `ChunkTransfer.LastByteOfFullChunkNeverFetched` | Downloader/ChunkDownloader.cs:80-83 | As written: a full chunk missing only its last byte is judged complete, so no request is made. |
| `ChunkTransfer.CorrectedFetchesExactlyMissing` | Downloader/ChunkDownloader.cs:80-88 | With the end clamped to size-1 and the test start ≤ end, a chunk holding `have` bytes is fetched if and only if bytes are missing. The request spans exactly the missing bytes. |
| `ChunkFiles.FirstMissing` | Downloader/Downloader.cs:247-248 | Returns the first chunk id whose file is absent, with every lower id present, or n when all are present. |
| `ChunkFiles.StitchedPrefix` | Downloader/Downloader.cs:246-249 | Stitching more chunks only extends the target. The earlier stitched bytes stay as its prefix. |
| `ChunkFiles.StitchedSlice` | Downloader/DownloadEngine.cs:250-253 | In the stitched target, chunk i's file sits unchanged right after the files of chunks 0..i-1. |
| `ChunkFiles.AppendChunks` | Downloader/DownloadEngine.cs:247-254 | The target is recreated and holds the chunk files in id order, up to the first missing one. That missing id is reported. No other path changes. |
| `ChunkFiles.DeleteChunks` | Downloader/DownloadEngine.cs:259-264 | Every chunk path is gone afterwards, and every other file keeps its contents. |
| `Scheduler.DownloadScheduler.constructor` | Downloader/DownloadScheduler.cs:23 | The scheduler holds the given chunk data and nothing has been claimed or downloaded yet. |
| `Scheduler.DownloadScheduler.Claim` | Downloader/DownloadScheduler.cs:90-98 | Under the lock, a ready thread claims the next index, and the counter advances by one. When no index is left, the thread exits. The scheduler invariant is kept. |
| `Scheduler.DownloadScheduler.Check` | Downloader/DownloadScheduler.cs:101-108 | A thread holding a claimed index goes on to download it if and only if no error is stored. Otherwise it exits and abandons the index. |
| `Scheduler.DownloadScheduler.Fetch` | Downloader/DownloadScheduler.cs:103-114 | The claimed index is downloaded once and logged. A failure stores its exception, replacing any error stored by another thread in the meantime, and ends the thread. A success returns the thread to claiming. |
| `Scheduler.DownloadScheduler.Step` | Downloader/DownloadScheduler.cs:84-115 | One atomic step of one thread (claim, check or download) keeps the scheduler invariant. Claimed indices are 0, 1, … in order. An owned index is owned by one thread only and is not downloaded yet. No index is downloaded twice. A stored error is the exception of a failed download. No other thread moves, and the thread's remaining work strictly decreases. |
| `Scheduler.DownloadScheduler.JoinThread` | Downloader/DownloadScheduler.cs:45-48 | Joining a thread runs its steps until it exits. The invariant is kept and no other thread moves. |
| `Scheduler.DownloadScheduler.Start` | Downloader/DownloadScheduler.cs:28-55 | The pool has min(10, count) threads. For any schedule, nothing is raised if and only if no chunk fails. Then every chunk is downloaded, each at most once, and every thread has exited. A raised error is the exception of a download that failed. |
| `Scheduler.ExactlyOnce` | Downloader/DownloadScheduler.cs:91-104 | A complete download log holds every index of [0, n) exactly once. |
| `DownloadJob.LastSegment` | Downloader/Download.cs:78 | `Split(sep).Last()` is the suffix after the last separator, contains no separator, and is the whole string when there is none. |
| `DownloadJob.FindFileName` | Downloader/Downloader.cs:130-141 | The name starts with the path's last segment, contains no '/', and always has a '.'. |
| `DownloadJob.FileNameKeepsExtension` | Downloader/Download.cs:81-84 | A path ending in a segment with an extension yields that segment. |
| `DownloadJob.FileNameFromContentType` | Downloader/Download.cs:85-88 | A segment without an extension gets the content type's subtype as its extension. |
| `DownloadJob.Download.DwnlProgress` | Downloader/Download.cs:26 | The completed share of the size in percent. It is undefined exactly for a zero size, lies in [0, 100] while the completed size is within the size, and is 100 when everything is completed. |
| `DownloadJob.Download.AppendProgress` | Downloader/Download.cs:29-42 | Returns 0 while the target does not exist. It is undefined exactly for a zero size. It is 100 when the target has the full size, and within [0, 100] below it. |
| `DownloadJob.Download.constructor` | Downloader/Download.cs:49-58 | The job keeps source, target and size. Its chunk data is built with the 4 MiB limit, and its counters start at zero. |
| `Engine.AfterDownload` | Downloader/DownloadEngine.cs:125-151 | What follows the joins starts with Append. It ends in Complete exactly when no exception is stored, and otherwise ends with Abort then Error. A failure to create the target stores that exception and leaves the files as they were. |
| `Engine.EndingTouchesOnlyTarget` | Downloader/DownloadEngine.cs:247-267 | Stitching and cleaning up create or change no file other than the target. Chunk files are only deleted. |
| `Engine.SuccessfulEnding` | Downloader/DownloadEngine.cs:129-137 | After all chunks are joined, the run succeeds if and only if the target could be created, every chunk file exists and the directory could be deleted. Then the states are Append, Complete. The target holds every chunk file unchanged at its offset, and no chunk file is left. |
| `Engine.DownloadEngine.constructor` | Downloader/DownloadEngine.cs:38-71 | The engine is Idle if and only if every chunk downloader could be created. Otherwise it is in Error, with the lowest failing chunk's exception. No chunk thread is started and the window is empty. |
| `Engine.DownloadEngine.StartDownloader` | Downloader/DownloadEngine.cs:189-191 | Starting a chunk thread for the first time widens the window by one, logs the start and keeps at most 10 threads outstanding. Starting one already started raises ThreadStateException. |
| `Engine.DownloadEngine.OpenWindow` | Downloader/DownloadEngine.cs:186-192 | Starts downloaders 0..min(10, count)-1 in id order on a fresh log, widening the window by one each time. Restarting a thread raises ThreadStateException and stops the loop. |
| `Engine.DownloadEngine.JoinNext` | Downloader/DownloadEngine.cs:199-200 | Joining the oldest outstanding downloader narrows the window by one, logs the join and keeps the log ordered and bounded. |
| `Engine.DownloadEngine.JoinWindow` | Downloader/DownloadEngine.cs:197-208 | Joins every downloader in id order and starts the next one after each join. The window end never moves back. An abort observed at join j stops after j+1 joins. Otherwise all chunks are joined unless a restart faults. |
| `Engine.DownloadEngine.Downloading` | Downloader/DownloadEngine.cs:182-208 | Threads are started and joined in id order, with at most 10 started and not joined at any time. Without an abort or a fault, every chunk is joined. An abort observed at join j ends the loop after j+1 joins. A fault can only come from restarting a thread, so a first run never faults. |
| `Engine.DownloadEngine.Finishing` | Downloader/DownloadEngine.cs:129-137 | After the joins, the states, the stored error and the files are those of stitching and then cleaning up, as AfterDownload defines them. IsStateCompleted becomes true. |
| `Engine.DownloadEngine.Completing` | Downloader/DownloadEngine.cs:259-267 | Every chunk file is gone afterwards, and other files are untouched. Without a directory fault the states are Complete, and the state is marked completed. A directory fault goes through Abort to Error with that exception. |
| `Engine.DownloadEngine.Worker` | Downloader/DownloadEngine.cs:121-152 | The worker ends in one of three ways. An observed abort ends with Abort, Idle and the files untouched. A restart fault goes through Abort to Error with ThreadStateException. A full pass ends as SuccessfulEnding describes. |
| `Engine.DownloadEngine.Start` | Downloader/DownloadEngine.cs:110-157 | Start acts from Idle only, and from any other state changes nothing. It resets the window and the error and records Start, Download and then the worker's outcome. On a first start without an abort, every chunk is joined. |
| `Engine.DownloadEngine.Fail` | Downloader/DownloadEngine.cs:140-151 | An exception in the worker records Abort then Error, stores the exception and marks the state completed. The window is unchanged. |
| `Engine.DownloadEngine.Abort` | Downloader/DownloadEngine.cs:162-177 | Abort enters Abort at once. The abort thread then enters Idle. Before any Start, it dies on the null worker thread with an unhandled NullReferenceException, which ends the process; the model records that exception and leaves the engine in Abort. |
| `Engine.DownloadEngine.Completed` | Downloader/DownloadEngine.cs:88-97 | The completed size a tick computes. With an empty window, it is the number of joined chunks times the full chunk size. |
| `Engine.DownloadEngine.Tick` | Downloader/DownloadEngine.cs:78-105 | In Download, Append, Idle and Complete, the completed size becomes the joined chunks at full size plus the progress inside the window. The speed becomes its growth, never negative. Other states change nothing. |
| `Engine.CompletedOvershootsFile` | Downloader/DownloadEngine.cs:88-97 | As written: for an engine whose chunks are all joined, Completed() is more than the file holds whenever the chunk size does not divide the file size. |
| `Engine.CompletedCorrectedWithinFile` | Downloader/DownloadEngine.cs:88-97 | When joined chunks count with their declared length, the tick never reports more than the file's size. |
| `Engine.DeclaredLengthsSum` | Downloader/Chunks.cs:83-90 | The declared lengths of chunks lo..hi-1 add up to exactly the bytes those chunks span in the file. |
| `LegacyDownloader.Ordinal` | Downloader/Downloader.cs:36 | `(int)State` is the state's position in the enum, between 0 and 8, with Create first and Idle last. |
| `LegacyDownloader.FindChunkCount` | Downloader/Downloader.cs:94-113 | Returns one chunk without range support. With it, the ceiling of the size over 4 MiB, or no chunk for an empty file. |
| `LegacyDownloader.JobRanges` | Downloader/Downloader.cs:183-189 | With range support, every range Start builds lies within [0, size]. Each range ends exactly where the next begins. |
| `LegacyDownloader.HaltOf` | Downloader/Downloader.cs:216-227 | The joins run to the end exactly when no chunk stored an exception and no abort is observed. A pass cut short has joined between 1 and count chunks, and it stores no exception exactly when it ended Abort, Idle. |
| `LegacyDownloader.AppendOutcome` | Downloader/Downloader.cs:241-269 | Append runs first. The thread ends in Finish without an exception exactly when the target is created, every chunk file is there and the directory is deleted. A failure to create the target escapes with the files unchanged. |
| `LegacyDownloader.PassOutcome` | Downloader/Downloader.cs:201-236 | The files change only once every chunk is joined. A pass cut short begins with Abort and leaves the files and the thread's exception alone. |
| `LegacyDownloader.HaltAtJoin` | Downloader/Downloader.cs:216-227 | If the joins before i let the pass through, then an abort observed at join i ends it in Idle. Otherwise chunk i's stored exception ends it in Error with that exception. |
| `LegacyDownloader.NoHalt` | Downloader/Downloader.cs:216-232 | When no join sees an abort or an exception, the pass is not cut short. |
| `LegacyDownloader.PassFinishes` | Downloader/Downloader.cs:201-236 | A pass reaches Finish if and only if there is no abort, no chunk exception, no failure to create the target, no missing chunk file and no directory fault. Then the states are Append, Complete, Finish, the target is every chunk in order, and no chunk file is left. A failure to create the target after all joins escapes in Append with the files unchanged. |
| `LegacyDownloader.LowestFailureStops` | Downloader/Downloader.cs:216-227 | Without an abort, the lowest failing chunk decides the pass. Its exception is recorded after exactly that many joins, the pass ends Abort, Idle, Error, and Append never runs. |
| `LegacyDownloader.Downloader.constructor` | Downloader/Downloader.cs:44-88 | Stores source and target and runs Create on the fresh object. A size lookup that throws gives Error with that exception, and size and count stay 0. A range probe that throws gives Error with that exception, after the size is set. Otherwise the count is FindChunkCount's, and the state is Idle without a directory fault or Error with it stored. |
| `LegacyDownloader.Downloader.Create` | Downloader/Downloader.cs:65-88 | Create records Create, then Idle or Error. A size lookup that throws sets Error and stores its exception, keeping the old size. A probe that throws does the same after the size is set. Otherwise the count is FindChunkCount, and a directory fault sends it to Error. |
| `LegacyDownloader.Downloader.Start` | Downloader/Downloader.cs:175-196 | Start acts from Idle only. It enters Start and builds one fresh chunk downloader per chunk, chunk i covering [i·4 MiB, min(i·4 MiB + 4 MiB - 1, size)]. A negative count overflows. |
| `LegacyDownloader.Downloader.Abort` | Downloader/Downloader.cs:275-297 | From Download, the abort thread records Abort then Idle. From any other state it does nothing. |
| `LegacyDownloader.Downloader.Complete` | Downloader/Downloader.cs:257-269 | Every chunk file is deleted. Without a directory fault the downloader records Complete then Finish. A directory fault escapes in Complete. |
| `LegacyDownloader.Downloader.Append` | Downloader/Downloader.cs:241-252 | The states, the escaping exception and the files are those of AppendOutcome. A failure to create the target escapes in Append and leaves the files alone. A missing chunk file stops in Append with FileNotFoundException. |
| `LegacyDownloader.Downloader.StartFirst` | Downloader/Downloader.cs:207-212 | Starts chunks 0..min(count, 8)-1 in order on a fresh log, with none joined. |
| `LegacyDownloader.Downloader.JoinOne` | Downloader/Downloader.cs:216-232 | Join i ends the pass if and only if an abort or an exception is seen there, with the outcome HaltOf gives. Otherwise it starts the next chunk and keeps at most 8 outstanding. |
| `LegacyDownloader.Downloader.Joining` | Downloader/Downloader.cs:207-232 | The joins end exactly as HaltOf says. The log starts chunks in order, joins them in order and never has more than 8 started and not joined. |
| `LegacyDownloader.Downloader.Download` | Downloader/Downloader.cs:201-236 | Download acts from Start only. It records Download and then the pass's states, stored exception, escaping exception and files, as PassOutcome defines them. |
| `Tracker.Template` | Downloader/DownloadTracker.cs:14-25 | `PROGRESS_MSGS[(int)State]` is always in bounds: there are nine templates, one per state. |
| `Tracker.Format` | Downloader/DownloadTracker.cs:69-76 | `string.Format` with one argument. A template without a format item gives the template unchanged. |
| `Tracker.FormatItem` | Downloader/DownloadTracker.cs:69-76 | Formatting a template with one format item replaces exactly that item with the argument's text. |
| `Tracker.DownloadMessage` | Downloader/DownloadTracker.cs:67-70 | The download message is "Download " + the percentage + " % complete. . .". |
| `Tracker.AppendMessage` | Downloader/DownloadTracker.cs:71-74 | The append message is "Appending files at " + the speed + " MB/s. . .". |
| `Tracker.ErrorMessage` | Downloader/DownloadTracker.cs:75-77 | The error message is "Error: " + the exception's text + " ☹". |
| `Tracker.ScanFrom` | Downloader/DownloadTracker.cs:105-119 | The window loop keeps one recorded size per chunk. The only exception that cuts it short is IndexOutOfRangeException, raised at an index inside the count but past the size table. |
| `Tracker.ScanSpeedIsGrowth` | Downloader/DownloadTracker.cs:104-120 | The speed a scan adds up equals the growth of the recorded chunk sizes. So the completed size keeps a fixed distance to their sum. |
| `Tracker.ScanRecordsLengths` | Downloader/DownloadTracker.cs:105-119 | A scan records the file length of every existing chunk it passes and leaves other entries alone. The window start never moves back. Unless cut short, it stops at the count or after `active` partial chunks. |
| `Tracker.WindowSkipsPartialChunk` | Downloader/DownloadTracker.cs:111-117 | As written: a full chunk 0 followed by a partial chunk 1 moves the window start to 2. The next scan then never counts chunk 1's growth. |
| `Tracker.WindowPassesChunkCount` | Downloader/DownloadTracker.cs:111-116 | As written: a single full chunk moves the window start to 2, past the chunk count. |
| `Tracker.CorrectedWindowPassesOnlyFullChunks` | Downloader/DownloadTracker.cs:111-117 | With one move per full chunk at the start, the window only passes chunks recorded at full size, and never passes the chunk count. |
| `Tracker.DownloadTracker.constructor` | Downloader/DownloadTracker.cs:45-54 | No size table, window at 0, counters at zero, no message. |
| `Tracker.DownloadTracker.ScanWindow` | Downloader/DownloadTracker.cs:104-119 | The size table, the window start, the speed and the fault are exactly those of the window loop ScanFrom. |
| `Tracker.DownloadTracker.Downloading` | Downloader/DownloadTracker.cs:98-130 | Allocates the table on first use; a negative count overflows. It then scans, and without a fault adds the speed to the completed size, keeping its distance to the table's sum. When the downloader has moved on to Append, it resets the counters. |
| `Tracker.DownloadTracker.Appending` | Downloader/DownloadTracker.cs:135-145 | While appending, with the target present, the completed size becomes the target's length and the speed its growth. Otherwise nothing changes. |
| `Tracker.DownloadTracker.Tick` | Downloader/DownloadTracker.cs:61-88 | Dispatches by state: scan with the formatted percentage, follow the append with the formatted speed, show the error text, or at Finish show 100 % and the target's length. A missing target raises FileNotFoundException. Other states show their own template. |

## Left out

- HTTP is not modelled. Lookups, the range probe and response bodies are inputs. The proxy size server of FindFileSize is part of the size lookup's outcome.
- FindFileSize is not modelled as a function. For the older downloader, its result (a size or an exception) is an input of `LegacyDownloader.Downloader.Create`.
- `DownloadJob.Download.constructor` and `ChunkPlan.Chunks.constructor` take only the successful outcomes: a size and the probe's verdict. The exceptions that can escape these constructors are left out: from the size lookup, from the range probe, and from `Directory.CreateDirectory` (Chunks.cs:42-43).
- Threads are run one after another. Each chunk thread's outcome is an input, and an external abort is the join at which the controlling loop sees it. Interleavings of the tracker's tick with the worker are not modelled.
- `Engine.DownloadEngine.Start`, `Engine.DownloadEngine.Worker` and `LegacyDownloader.Downloader.Download` do not model an abort that races with the worker. In the engine, an `Abort()` after the last join, while the worker is appending or completing (DownloadEngine.cs:129-137), is never seen by the worker. The abort thread's `State = Idle` (line 170) then races with the worker's `State = Complete`, so a run can end Idle after a full completion, or Complete after an abort. In the older downloader, the abort thread can set Idle before the join loop reads State (Downloader.cs:218). The loop then goes on: it starts the next chunk, or ends in Error with the aborted chunk's stored exception. The `abortAtJoin` input expresses only an abort that the loop sees at a join.
- Forced thread aborts are not modelled: `ChunkDownloader.Start`, `Join` and `Abort`, `Thread.Abort` of chunk threads, and `DownloadScheduler.Abort`. This includes a chunk file left half-written by an abort.
- Directory deletion, and the older downloader's directory creation, appear only as an exception they may raise. The cache directory's name is an input, because it comes from `GetHashCode`.
- Values are unbounded integers. 64-bit overflow of sizes and offsets is not modelled, except for the negative array size.
- Floating-point arithmetic is exact: percentages are reals. The tick's speed is not divided by the timer interval. The `{0:f3}` text of a number is a parameter of the tick.
- `DispatcherTimer` and `DownloadTracker.Start` are not modelled. Each tick is a call.
- `Exception.ToString()` is approximated by the exception's message. The null message before the first tick is "".
- `Downloader.DwnlTracker` is not a field. The tracker holds the downloader, and the downloader does not hold its tracker back.
- The older downloader's `Start` spawns a thread that runs `Download`. In the model, that run is a separate, following call of `LegacyDownloader.Downloader.Download`.
- `ChunkDownloader(Chunks, long)` and `Chunks.DownloadChunk` are called but not defined in the code. Whether each one throws is an input of the engine's constructor and of the scheduler's steps.
- `Engine.DownloadEngine.StartDownloader` assumes that the undefined `ChunkDownloader(Chunks, long)` wraps a thread that can be started only once, as the `ChunkDownloader.cs` class does. Under that assumption, restarting a joined downloader raises ThreadStateException, so every resume after an Abort ends in Error.
- `downloader.ChunksActive` and `downloader.ChunkSize` are read by the tracker but not defined by the downloader. They are inputs of each tick.
- `ChunkPlan.Chunks.constructor`: requires a non-negative count. The code would throw OverflowException when allocating the progress array.
- `DownloadJob.Download.constructor`: requires a non-negative count, for the same reason.
- `Engine.DownloadEngine.constructor`: requires a non-negative count, for the same reason.
- `ChunkFiles.AppendChunks`, `LegacyDownloader.Downloader.Append`, `LegacyDownloader.Downloader.Download`, `Engine.DownloadEngine.Finishing`, `Engine.DownloadEngine.Worker` and `Engine.DownloadEngine.Start` require that the target file is not one of the chunk files.
- `Tracker.DownloadTracker.Tick`: for Error, Finish and the other states, the state is read once. The code reads it a second time to index the templates.

## Findings

| source | as written | input that shows it | evidently intended | confidence | as-written member | corrected member |
|---|---|---|---|---|---|---|
| Downloader/ChunkDownloader.cs:83 | The skip test is `chunkStart < chunkEnd` against an inclusive end, so a chunk missing only its last byte is never completed. | A 4 MiB chunk (not the last) whose file holds 4 MiB - 1 bytes: start == end, so no request is made. | Fetch while start ≤ end, with the end clamped to size - 1. | not executed | `ChunkTransfer.LastByteOfFullChunkNeverFetched` | `ChunkTransfer.CorrectedFetchesExactlyMissing` |
| Downloader/DownloadEngine.cs:90 | The completed size counts every joined chunk at the full chunk size, including a shorter last chunk. | A 10-byte file with chunk size 4: after all 3 chunks are joined, the tick reports 12 bytes. | Joined chunks count with their declared length. | not executed | `Engine.CompletedOvershootsFile` | `Engine.CompletedCorrectedWithinFile` |
| Downloader/DownloadTracker.cs:111-116 | A full chunk at the window start moves the start twice. | Chunk size 4, chunk 0 with 4 bytes, chunk 1 with 1 byte: the start goes to 2, and chunk 1's later growth is never counted. With one full chunk, the start becomes 2 > 1 chunk. | Move the start once per full chunk at the start. | not executed | `Tracker.WindowSkipsPartialChunk` | `Tracker.CorrectedWindowPassesOnlyFullChunks` |
