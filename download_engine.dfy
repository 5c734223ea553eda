/**
 * The download engine (Downloader/DownloadEngine.cs): a state machine over
 * DwnlState driving one job through downloading its chunks, stitching them
 * into the target and cleaning up, plus the progress tick.
 *
 * The worker thread is run to its end inside Start. An Abort issued while
 * it runs is an input: the join at which the worker observes State ==
 * Abort. Each chunk downloader is represented by whether its thread has
 * been started; its transfer is modelled in ChunkTransfer.
 */
module Engine {
  import opened Common
  import opened ChunkPlan
  import opened ChunkFiles
  import DownloadJob

  const THREAD_LIMIT: int := 10

  const THREAD_STATE_EXCEPTION: Exception := Exception("ThreadStateException")
  const NULL_REFERENCE_EXCEPTION: Exception := Exception("NullReferenceException")

  datatype DwnlState = Create | Idle | Start | Download | Append | Complete | Error | Abort

  /** The states in which a tick recomputes the completed size. */
  predicate Tracked(s: DwnlState)
  {
    s == Download || s == Append || s == Idle || s == Complete
  }

  /** The engine's worker thread: never created, or run to its end. */
  datatype WorkerThread = NoThread | Finished

  /**
   * What happens around one run of the worker: the join at which an
   * external Abort is observed, and the exceptions raised by creating the
   * target file and by deleting the chunk directory.
   */
  datatype Run = Run(abortAtJoin: Option<int>, targetFault: Option<Exception>, directoryFault: Option<Exception>)

  /** The tail of a run after Downloading completed: states entered, error stored, resulting files. */
  datatype Ending = Ending(states: seq<DwnlState>, error: Option<Exception>, files: Files)

  /**
   * Appending, then Completing, as the worker runs them; the first
   * exception sends the worker through Abort to Error. The run ends in
   * Complete exactly when no exception is stored, and a failure to create
   * the target leaves the files untouched.
   */
  function AfterDownload(files: Files, run: Run, cacheDir: string, n: int, target: string): (e: Ending)
    requires n >= 0 && forall i :: 0 <= i < n ==> ChunkPath(cacheDir, i) != target
    ensures |e.states| >= 2 && e.states[0] == Append
    ensures e.error.None? <==> e.states == [Append, Complete]
    ensures e.error.Some? ==> e.states[|e.states| - 2] == Abort && e.states[|e.states| - 1] == DwnlState.Error
    ensures run.targetFault.Some? ==> e.error == run.targetFault && e.files == files
  {
    if run.targetFault.Some? then Ending([Append, Abort, Error], run.targetFault, files)
    else
      var m := FirstMissing(files, cacheDir, 0, n);
      var stitched := files[target := Stitched(files, cacheDir, m)];
      if m < n then Ending([Append, Abort, Error], Some(MissingFile(ChunkPath(cacheDir, m))), stitched)
      else
        var cleaned := stitched - ChunkPaths(cacheDir, n);
        if run.directoryFault.Some? then Ending([Append, Complete, Abort, Error], run.directoryFault, cleaned)
        else Ending([Append, Complete], None, cleaned)
  }

  /**
   * A finished run succeeds exactly when the target could be created, every
   * chunk file exists and the chunk directory could be deleted; then the
   * target holds every chunk file, in id order, and no chunk file is left.
   */
  lemma SuccessfulEnding(files: Files, run: Run, cacheDir: string, n: int, target: string)
    requires n >= 0 && forall i :: 0 <= i < n ==> ChunkPath(cacheDir, i) != target
    ensures var e := AfterDownload(files, run, cacheDir, n, target);
      e.error.None? <==>
        run.targetFault.None? && run.directoryFault.None? && forall i :: 0 <= i < n ==> ChunkPath(cacheDir, i) in files
    ensures var e := AfterDownload(files, run, cacheDir, n, target);
      e.error.None? ==>
        && e.states == [Append, Complete]
        && target in e.files
        && (forall i :: 0 <= i < n ==> ChunkPath(cacheDir, i) !in e.files)
        && forall i :: 0 <= i < n ==>
             SitsAt(e.files[target], |Stitched(files, cacheDir, i)|, files[ChunkPath(cacheDir, i)])
  {
    EndingSucceedsIff(files, run, cacheDir, n, target);
    EndingCleansUp(files, run, cacheDir, n, target);
    var e := AfterDownload(files, run, cacheDir, n, target);
    if e.error.None? {
      var whole := Stitched(files, cacheDir, n);
      forall i | 0 <= i < n
        ensures SitsAt(whole, |Stitched(files, cacheDir, i)|, files[ChunkPath(cacheDir, i)])
      {
        StitchedSlice(files, cacheDir, i, n);
      }
    }
  }

  /** The ending creates or changes no file other than the target: chunk files are only deleted. */
  lemma EndingTouchesOnlyTarget(files: Files, run: Run, cacheDir: string, n: int, target: string)
    requires n >= 0 && forall i :: 0 <= i < n ==> ChunkPath(cacheDir, i) != target
    ensures var e := AfterDownload(files, run, cacheDir, n, target);
      forall p :: p in e.files && p != target ==> p in files && e.files[p] == files[p]
  {
  }

  lemma EndingSucceedsIff(files: Files, run: Run, cacheDir: string, n: int, target: string)
    requires n >= 0 && forall i :: 0 <= i < n ==> ChunkPath(cacheDir, i) != target
    ensures AfterDownload(files, run, cacheDir, n, target).error.None? <==>
      run.targetFault.None? && run.directoryFault.None? && forall i :: 0 <= i < n ==> ChunkPath(cacheDir, i) in files
  {
    var m := FirstMissing(files, cacheDir, 0, n);
    assert (forall i :: 0 <= i < n ==> ChunkPath(cacheDir, i) in files) ==> m == n;
  }

  lemma EndingCleansUp(files: Files, run: Run, cacheDir: string, n: int, target: string)
    requires n >= 0 && forall i :: 0 <= i < n ==> ChunkPath(cacheDir, i) != target
    ensures var e := AfterDownload(files, run, cacheDir, n, target);
      e.error.None? ==>
        && (forall i :: 0 <= i < n ==> ChunkPath(cacheDir, i) in files)
        && e.states == [Append, Complete]
        && target in e.files && e.files[target] == Stitched(files, cacheDir, n)
        && (forall i :: 0 <= i < n ==> ChunkPath(cacheDir, i) !in e.files)
  {
    if AfterDownload(files, run, cacheDir, n, target).error.None? {
      assert FirstMissing(files, cacheDir, 0, n) == n;
      assert target !in ChunkPaths(cacheDir, n);
    }
  }

  /**
   * Started flags after two rounds of starts: the ones set by the first
   * round (below e1) and by the second (below e2, with e1 <= e2) are those
   * below e2.
   */
  lemma StartedFlags(before: seq<bool>, mid: seq<bool>, after: seq<bool>, e1: int, e2: int)
    requires |before| == |mid| == |after| && e1 <= e2
    requires forall i :: 0 <= i < |mid| ==> mid[i] == (before[i] || i < e1)
    requires forall i :: 0 <= i < |after| ==> after[i] == (mid[i] || i < e2)
    ensures forall i :: 0 <= i < |after| ==> after[i] == (before[i] || i < e2)
  {
  }

  /** A job's engine: its state, the chunk downloader threads and the tracker window. */
  class DownloadEngine {
    const download: DownloadJob.Download
    var State: DwnlState
    var IsStateCompleted: bool
    var Error: Option<Exception>
    /** One chunk downloader per chunk; true once its thread has been started. */
    const chunkDownloaders: array<bool>
    var workerThread: WorkerThread
    /** Joined and started chunk counts of the current run. */
    var trackerWindowStart: int
    var trackerWindowEnd: int
    /** The starts and joins of chunk downloaders in the current run, in order. */
    var events: seq<ChunkEvent>
    /** Every state the engine has entered, in order. */
    var history: seq<DwnlState>

    /** The number of chunks of the job. */
    function Count(): int
    {
      download.DwnlChunks.ChunkCount
    }

    ghost predicate Valid()
      reads this`trackerWindowStart, this`trackerWindowEnd
    {
      && Count() >= 0
      && chunkDownloaders.Length == Count()
      && download.DwnlChunks.ChunkProgress.Length == Count()
      && 0 <= trackerWindowStart <= trackerWindowEnd <= Count()
    }

    /**
     * Creates the engine with one chunk downloader per chunk. Creating the
     * downloader of chunk i raises faults[i] when i is in faults (that
     * constructor is not part of this model); the first such exception
     * leaves the engine in Error.
     */
    constructor (download: DownloadJob.Download, faults: map<int, Exception>)
      requires download.DwnlChunks.ChunkCount >= 0
      requires download.DwnlChunks.ChunkProgress.Length == download.DwnlChunks.ChunkCount
      ensures Valid() && this.download == download && fresh(chunkDownloaders)
      ensures forall i :: 0 <= i < Count() ==> !chunkDownloaders[i]
      ensures workerThread == NoThread && trackerWindowStart == 0 && trackerWindowEnd == 0 && events == []
      ensures (State == Idle) <==> forall i :: 0 <= i < Count() ==> i !in faults
      ensures State == Idle ==> history == [Create, Idle] && !IsStateCompleted && Error == None
      ensures State != Idle ==>
        && State == DwnlState.Error && history == [Create, DwnlState.Error] && IsStateCompleted
        && exists i :: 0 <= i < Count() && i in faults && Error == Some(faults[i]) &&
             forall k :: 0 <= k < i ==> k !in faults
    {
      this.download := download;
      var n := download.DwnlChunks.ChunkCount;
      chunkDownloaders := new bool[n](_ => false);
      workerThread := NoThread;
      trackerWindowStart, trackerWindowEnd := 0, 0;
      events := [];
      Error := None;
      IsStateCompleted, State, history := false, Create, [Create];
      var i := 0;
      while i < n && i !in faults
        invariant 0 <= i <= n
        invariant forall k :: 0 <= k < i ==> k !in faults
      {
        i := i + 1;
      }
      if i < n {
        IsStateCompleted, State, history := false, DwnlState.Error, history + [DwnlState.Error];
        Error := Some(faults[i]);
        IsStateCompleted := true;
      } else {
        IsStateCompleted, State, history := false, Idle, history + [Idle];
      }
    }

    /**
     * Starts the thread of downloader k and widens the window by one;
     * starting a thread that was already started raises ThreadStateException.
     */
    method StartDownloader(k: int) returns (fault: Option<Exception>)
      requires Valid() && 0 <= k < Count() && trackerWindowEnd == k
      requires StartedIds(events) == Range(0, k) && JoinedIds(events) == Range(0, trackerWindowStart)
      requires BoundedOutstanding(events, THREAD_LIMIT) && k - trackerWindowStart < THREAD_LIMIT
      modifies this`events, this`trackerWindowEnd, chunkDownloaders
      ensures Valid()
      ensures fault == (if old(chunkDownloaders[k]) then Some(THREAD_STATE_EXCEPTION) else None)
      ensures trackerWindowEnd == (if fault.Some? then k else k + 1)
      ensures forall i :: 0 <= i < Count() ==> chunkDownloaders[i] == (old(chunkDownloaders[i]) || i == k)
      ensures StartedIds(events) == Range(0, trackerWindowEnd) && JoinedIds(events) == Range(0, trackerWindowStart)
      ensures BoundedOutstanding(events, THREAD_LIMIT)
    {
      if chunkDownloaders[k] {
        return Some(THREAD_STATE_EXCEPTION);
      }
      chunkDownloaders[k] := true;
      LogStart(events, k, trackerWindowStart, THREAD_LIMIT);
      events := events + [Started(k)];
      trackerWindowEnd := trackerWindowEnd + 1;
      fault := None;
    }

    /** Starts the first min(THREAD_LIMIT, ChunkCount) downloaders in id order, on a fresh log. */
    method OpenWindow() returns (fault: Option<Exception>)
      requires Valid() && trackerWindowStart == 0 && trackerWindowEnd == 0
      modifies this`events, this`trackerWindowEnd, chunkDownloaders
      ensures Valid() && trackerWindowStart == 0
      ensures StartedIds(events) == Range(0, trackerWindowEnd) && JoinedIds(events) == Range(0, 0)
      ensures BoundedOutstanding(events, THREAD_LIMIT)
      ensures forall i :: 0 <= i < Count() ==> chunkDownloaders[i] == (old(chunkDownloaders[i]) || i < trackerWindowEnd)
      ensures fault.None? ==> trackerWindowEnd == Min(THREAD_LIMIT, Count())
      ensures fault.Some? ==>
        && fault == Some(THREAD_STATE_EXCEPTION) && trackerWindowEnd < Min(THREAD_LIMIT, Count())
        && (var k := trackerWindowEnd; old(chunkDownloaders[k]))
    {
      events := [];
      fault := None;
      var limit := Min(THREAD_LIMIT, Count());
      var next := 0;
      while next < limit
        invariant 0 <= next <= limit && Valid() && fault.None?
        invariant trackerWindowEnd == next && trackerWindowStart == 0
        invariant StartedIds(events) == Range(0, next) && JoinedIds(events) == Range(0, 0)
        invariant BoundedOutstanding(events, THREAD_LIMIT)
        invariant forall i :: 0 <= i < Count() ==> chunkDownloaders[i] == (old(chunkDownloaders[i]) || i < next)
      {
        assert chunkDownloaders[next] == old(chunkDownloaders[next]);
        fault := StartDownloader(next);
        if fault.Some? {
          return;
        }
        next := next + 1;
      }
    }

    /** Joins the oldest outstanding downloader, narrowing the window by one. */
    method JoinNext()
      requires Valid() && trackerWindowStart < trackerWindowEnd
      requires StartedIds(events) == Range(0, trackerWindowEnd) && JoinedIds(events) == Range(0, trackerWindowStart)
      requires BoundedOutstanding(events, THREAD_LIMIT)
      modifies this`events, this`trackerWindowStart
      ensures Valid() && trackerWindowStart == old(trackerWindowStart) + 1
      ensures StartedIds(events) == Range(0, trackerWindowEnd) && JoinedIds(events) == Range(0, trackerWindowStart)
      ensures BoundedOutstanding(events, THREAD_LIMIT)
    {
      LogJoin(events, trackerWindowEnd, trackerWindowStart, THREAD_LIMIT);
      events := events + [Joined(trackerWindowStart)];
      trackerWindowStart := trackerWindowStart + 1;
    }

    /**
     * Joins the downloaders in id order, starting the next one after each
     * join, until all are joined or an abort is observed.
     */
    method JoinWindow(abortAtJoin: Option<int>) returns (aborted: bool, fault: Option<Exception>)
      requires Valid() && trackerWindowStart == 0 && trackerWindowEnd == Min(THREAD_LIMIT, Count())
      requires StartedIds(events) == Range(0, trackerWindowEnd) && JoinedIds(events) == Range(0, 0)
      requires BoundedOutstanding(events, THREAD_LIMIT)
      requires forall i :: 0 <= i < trackerWindowEnd ==> chunkDownloaders[i]
      modifies this`events, this`trackerWindowStart, this`trackerWindowEnd, chunkDownloaders
      ensures Valid()
      ensures StartedIds(events) == Range(0, trackerWindowEnd) && JoinedIds(events) == Range(0, trackerWindowStart)
      ensures BoundedOutstanding(events, THREAD_LIMIT)
      ensures forall i :: 0 <= i < Count() ==> chunkDownloaders[i] == (old(chunkDownloaders[i]) || i < trackerWindowEnd)
      ensures old(trackerWindowEnd) <= trackerWindowEnd
      ensures !aborted && fault.None? ==> trackerWindowStart == Count()
      ensures aborted ==> fault.None? && trackerWindowStart > 0 && abortAtJoin == Some(trackerWindowStart - 1)
      ensures fault.Some? ==>
        && !aborted && fault == Some(THREAD_STATE_EXCEPTION)
        && old(trackerWindowEnd) <= trackerWindowEnd < Count() && (var k := trackerWindowEnd; old(chunkDownloaders[k]))
        && (trackerWindowStart > 0 ==> abortAtJoin != Some(trackerWindowStart - 1))
      ensures abortAtJoin.Some? && 0 <= abortAtJoin.value < Count() && fault.None? ==> aborted
    {
      var n := Count();
      aborted, fault := false, None;
      var next := trackerWindowEnd;
      var i := 0;
      while i < n
        invariant 0 <= i <= n && Valid() && fault.None? && !aborted
        invariant trackerWindowStart == i && next == i + old(trackerWindowEnd) && trackerWindowEnd == Min(next, n)
        invariant StartedIds(events) == Range(0, trackerWindowEnd) && JoinedIds(events) == Range(0, i)
        invariant BoundedOutstanding(events, THREAD_LIMIT)
        invariant forall k :: 0 <= k < n ==> chunkDownloaders[k] == (old(chunkDownloaders[k]) || k < trackerWindowEnd)
        invariant forall k :: 0 <= k < i ==> abortAtJoin != Some(k)
      {
        JoinNext();
        if abortAtJoin == Some(i) {
          aborted := true;
          return;
        } else if next < n {
          assert trackerWindowEnd == next && chunkDownloaders[next] == old(chunkDownloaders[next]);
          fault := StartDownloader(next);
          if fault.Some? {
            return;
          }
        }
        i, next := i + 1, next + 1;
      }
    }

    /**
     * Starts the first min(THREAD_LIMIT, ChunkCount) downloaders, then joins
     * them in id order, starting the next one after each join, until all
     * are joined or an abort is observed.
     */
    method Downloading(abortAtJoin: Option<int>) returns (aborted: bool, fault: Option<Exception>)
      requires Valid() && trackerWindowStart == 0 && trackerWindowEnd == 0
      modifies this`events, this`trackerWindowStart, this`trackerWindowEnd, chunkDownloaders
      ensures Valid()
      ensures StartedIds(events) == Range(0, trackerWindowEnd) && JoinedIds(events) == Range(0, trackerWindowStart)
      ensures BoundedOutstanding(events, THREAD_LIMIT)
      ensures forall i :: 0 <= i < Count() ==> chunkDownloaders[i] == (old(chunkDownloaders[i]) || i < trackerWindowEnd)
      ensures !aborted && fault.None? ==> trackerWindowStart == Count()
      ensures aborted ==> fault.None? && trackerWindowStart > 0 && abortAtJoin == Some(trackerWindowStart - 1)
      ensures fault.Some? ==>
        && !aborted && fault == Some(THREAD_STATE_EXCEPTION)
        && trackerWindowEnd < Count() && (var k := trackerWindowEnd; old(chunkDownloaders[k]))
        && (trackerWindowStart > 0 ==> abortAtJoin != Some(trackerWindowStart - 1))
      ensures abortAtJoin.Some? && 0 <= abortAtJoin.value < Count() && fault.None? ==> aborted
      ensures (forall i :: 0 <= i < Count() ==> !old(chunkDownloaders[i])) ==> fault.None?
    {
      ghost var before := chunkDownloaders[..];
      aborted := false;
      fault := OpenWindow();
      if fault.Some? {
        return;
      }
      ghost var started, firstEnd := chunkDownloaders[..], trackerWindowEnd;
      aborted, fault := JoinWindow(abortAtJoin);
      StartedFlags(before, started, chunkDownloaders[..], firstEnd, trackerWindowEnd);
      if fault.Some? {
        var k := trackerWindowEnd;
        assert old(chunkDownloaders[k]) == started[k];
      }
    }

    /**
     * Completing: delete every chunk file and the chunk directory; a
     * failure to delete the directory goes through Abort to Error.
     */
    method Completing(run: Run, files: Files) returns (files': Files)
      modifies this`IsStateCompleted, this`State, this`history, this`Error
      ensures files' == files - ChunkPaths(download.DwnlChunks.ChunkCacheDir, Count())
      ensures IsStateCompleted
      ensures run.directoryFault.None? ==>
        history == old(history) + [Complete] && State == Complete && Error == old(Error)
      ensures run.directoryFault.Some? ==>
        history == old(history) + [Complete, DwnlState.Abort, DwnlState.Error] && State == DwnlState.Error &&
        Error == run.directoryFault
    {
      IsStateCompleted, State, history := false, Complete, history + [Complete];
      files' := DeleteChunks(files, download.DwnlChunks.ChunkCacheDir, Count());
      if run.directoryFault.Some? {
        Fail(run.directoryFault.value);
        return;
      }
      IsStateCompleted := true;
    }

    /**
     * Appending and Completing after all chunks were joined: stitch the
     * chunk files into the target, delete them and the chunk directory.
     */
    method Finishing(run: Run, files: Files) returns (files': Files)
      requires Valid()
      requires forall i :: 0 <= i < Count() ==> ChunkPath(download.DwnlChunks.ChunkCacheDir, i) != download.DwnlTarget
      modifies this`IsStateCompleted, this`State, this`history, this`Error
      ensures Valid()
      ensures var e := AfterDownload(files, run, download.DwnlChunks.ChunkCacheDir, Count(), download.DwnlTarget);
        && history == old(history) + e.states && State == e.states[|e.states| - 1]
        && Error == (if e.error.Some? then e.error else old(Error)) && files' == e.files
      ensures IsStateCompleted
    {
      var cacheDir, n, target := download.DwnlChunks.ChunkCacheDir, Count(), download.DwnlTarget;
      IsStateCompleted, State, history := false, Append, history + [Append];
      if run.targetFault.Some? {
        files' := files;
        Fail(run.targetFault.value);
        return;
      }
      var missing;
      files', missing := AppendChunks(files, cacheDir, n, target);
      assert Max(n, 0) == n;
      if missing.Some? {
        Fail(MissingFile(ChunkPath(cacheDir, missing.value)));
        return;
      }
      ghost var appended := history;
      files' := Completing(run, files');
      assert history == old(history) + [Append] + (history[|appended|..]);
    }

    /**
     * How a run of the worker ended, for the history and the error it
     * started from: after an observed abort in Idle with nothing changed,
     * after a failed thread start in Error with ThreadStateException, and
     * after all joins as AfterDownload says.
     */
    ghost predicate Ended(run: Run, files: Files, files': Files, base: seq<DwnlState>, baseError: Option<Exception>)
      requires Valid()
      requires forall i :: 0 <= i < Count() ==> ChunkPath(download.DwnlChunks.ChunkCacheDir, i) != download.DwnlTarget
      reads this, download
    {
      && IsStateCompleted
      && StartedIds(events) == Range(0, trackerWindowEnd) && JoinedIds(events) == Range(0, trackerWindowStart)
      && BoundedOutstanding(events, THREAD_LIMIT)
      && (trackerWindowStart > 0 && run.abortAtJoin == Some(trackerWindowStart - 1) ==>
            State == Idle && Error == baseError && files' == files &&
            history == base + [DwnlState.Abort, Idle])
      && (trackerWindowStart < Count() && !(trackerWindowStart > 0 && run.abortAtJoin == Some(trackerWindowStart - 1)) ==>
            State == DwnlState.Error && Error == Some(THREAD_STATE_EXCEPTION) && files' == files &&
            history == base + [DwnlState.Abort, DwnlState.Error])
      && (trackerWindowStart == Count() && !(Count() > 0 && run.abortAtJoin == Some(Count() - 1)) ==>
            var e := AfterDownload(files, run, download.DwnlChunks.ChunkCacheDir, Count(), download.DwnlTarget);
            && JoinedIds(events) == Range(0, Count())
            && history == base + e.states
            && State == e.states[|e.states| - 1] && Error == (if e.error.Some? then e.error else baseError) && files' == e.files)
    }

    /**
     * The worker thread's body, from Download on: Downloading, Appending,
     * Completing, then IsStateCompleted. An exception goes through Abort to
     * Error; an observed abort ends with the abort thread's Idle.
     */
    method Worker(run: Run, files: Files) returns (files': Files)
      requires Valid() && trackerWindowStart == 0 && trackerWindowEnd == 0
      requires forall i :: 0 <= i < Count() ==> ChunkPath(download.DwnlChunks.ChunkCacheDir, i) != download.DwnlTarget
      modifies this, chunkDownloaders
      ensures Valid() && workerThread == old(workerThread)
      ensures Ended(run, files, files', old(history), old(Error))
      ensures ((forall i :: 0 <= i < Count() ==> !old(chunkDownloaders[i])) &&
               !(run.abortAtJoin.Some? && 0 <= run.abortAtJoin.value < Count())) ==> trackerWindowStart == Count()
    {
      files' := files;
      var aborted, fault := Downloading(run.abortAtJoin);
      if aborted {
        AbortObserved();
        return;
      }
      if fault.Some? {
        Fail(fault.value);
        return;
      }
      files' := Finishing(run, files);
    }

    /**
     * Start: from Idle only, reset the window counters and the error, then
     * run the worker from Download on.
     */
    method Start(run: Run, files: Files) returns (files': Files)
      requires Valid()
      requires forall i :: 0 <= i < Count() ==> ChunkPath(download.DwnlChunks.ChunkCacheDir, i) != download.DwnlTarget
      modifies this, chunkDownloaders
      ensures Valid()
      ensures old(State) != Idle ==> unchanged(this) && unchanged(chunkDownloaders) && files' == files
      ensures old(State) == Idle ==>
        && workerThread == Finished
        && Ended(run, files, files', old(history) + [DwnlState.Start, Download], None)
      ensures (old(State) == Idle && (forall i :: 0 <= i < Count() ==> !old(chunkDownloaders[i])) &&
               !(run.abortAtJoin.Some? && 0 <= run.abortAtJoin.value < Count())) ==> trackerWindowStart == Count()
    {
      files' := files;
      if State != Idle {
        return;
      }
      IsStateCompleted, State, history := false, DwnlState.Start, history + [DwnlState.Start];
      trackerWindowStart, trackerWindowEnd := 0, 0;
      Error := None;
      workerThread := Finished;

      IsStateCompleted, State, history := false, Download, history + [Download];
      assert history == old(history) + [DwnlState.Start, Download];
      files' := Worker(run, files);
    }

    /**
     * Abort while the worker runs: State becomes Abort, the worker sees it
     * and ends, and the abort thread sets Idle.
     */
    method AbortObserved()
      modifies this`IsStateCompleted, this`State, this`history
      ensures State == Idle && IsStateCompleted
      ensures history == old(history) + [DwnlState.Abort, Idle]
    {
      IsStateCompleted, State, history := false, DwnlState.Abort, history + [DwnlState.Abort];
      IsStateCompleted, State, history := true, Idle, history + [Idle];
    }

    /**
     * The worker's handler for an exception other than a thread abort:
     * Abort, Aborting (every chunk downloader has been joined or never
     * started by then, so aborting them changes nothing), then Error.
     */
    method Fail(e: Exception)
      modifies this`IsStateCompleted, this`State, this`history, this`Error
      ensures State == DwnlState.Error && Error == Some(e) && IsStateCompleted
      ensures history == old(history) + [DwnlState.Abort, DwnlState.Error]
      ensures trackerWindowStart == old(trackerWindowStart) && trackerWindowEnd == old(trackerWindowEnd)
      ensures events == old(events) && workerThread == old(workerThread)
    {
      IsStateCompleted, State, history := false, DwnlState.Abort, history + [DwnlState.Abort];
      IsStateCompleted, State, history := false, DwnlState.Error, history + [DwnlState.Error];
      Error := Some(e);
      IsStateCompleted := true;
    }

    /**
     * Abort while no worker is running: State becomes Abort at once; the
     * abort thread then sets Idle. Without a worker thread (Start never
     * ran), Aborting dereferences a null thread and the abort thread dies
     * with its exception, leaving the engine in Abort. That exception is
     * not handled on the abort thread, so it ends the whole process; the
     * model only records it as abortThreadFault.
     */
    method Abort() returns (abortThreadFault: Option<Exception>)
      modifies this
      ensures workerThread == old(workerThread) && Error == old(Error)
      ensures trackerWindowStart == old(trackerWindowStart) && trackerWindowEnd == old(trackerWindowEnd)
      ensures old(workerThread) == NoThread ==>
        State == DwnlState.Abort && !IsStateCompleted && history == old(history) + [DwnlState.Abort] &&
        abortThreadFault == Some(NULL_REFERENCE_EXCEPTION)
      ensures old(workerThread) == Finished ==>
        State == Idle && IsStateCompleted && history == old(history) + [DwnlState.Abort, Idle] && abortThreadFault == None
    {
      IsStateCompleted, State, history := false, DwnlState.Abort, history + [DwnlState.Abort];
      if workerThread == NoThread {
        abortThreadFault := Some(NULL_REFERENCE_EXCEPTION);
        return;
      }
      abortThreadFault := None;
      IsStateCompleted, State, history := true, Idle, history + [Idle];
    }

    /**
     * The completed size a tick computes: the chunks below the window count
     * as full chunks, the ones inside it with their progress, so with an
     * empty window it is a whole number of chunk sizes.
     */
    function Completed(): (completed: int)
      requires Valid()
      reads this, download.DwnlChunks.ChunkProgress
      ensures trackerWindowStart == trackerWindowEnd ==> completed == trackerWindowStart * download.DwnlChunks.ChunkSize
    {
      var progress := download.DwnlChunks.ChunkProgress[..];
      assert progress[trackerWindowStart..trackerWindowStart] == [];
      trackerWindowStart * download.DwnlChunks.ChunkSize + SumRange(progress, trackerWindowStart, trackerWindowEnd)
    }

    /**
     * The tracker tick: in Download, Append, Idle and Complete it sums the
     * window into the job's completed size and records the growth as the
     * speed (never negative); in other states it does nothing.
     */
    method Tick()
      requires Valid()
      modifies download
      ensures Tracked(State) ==>
        download.DwnlSizeCompleted == Completed() &&
        download.DwnlSpeed == Max(0, Completed() - old(download.DwnlSizeCompleted))
      ensures !Tracked(State) ==>
        download.DwnlSizeCompleted == old(download.DwnlSizeCompleted) && download.DwnlSpeed == old(download.DwnlSpeed)
      ensures download.DwnlTarget == old(download.DwnlTarget)
    {
      if Tracked(State) {
        var progress := download.DwnlChunks.ChunkProgress;
        var windowStart, windowEnd := trackerWindowStart, trackerWindowEnd;
        var completed := windowStart * download.DwnlChunks.ChunkSize;
        var i := windowStart;
        while i < windowEnd
          invariant windowStart <= i <= windowEnd
          invariant completed == windowStart * download.DwnlChunks.ChunkSize + SumRange(progress[..], windowStart, i)
        {
          assert progress[..][windowStart..i + 1][..i - windowStart] == progress[..][windowStart..i];
          completed := completed + progress[i];
          i := i + 1;
        }
        download.DwnlSpeed := Max(0, completed - download.DwnlSizeCompleted);
        download.DwnlSizeCompleted := completed;
      }
    }
  }

  // ---------------------------------------------------------------------
  // The completed size at the end of the file
  // ---------------------------------------------------------------------

  /**
   * As written, once every chunk is joined the tick reports count * size
   * bytes completed, more than the file holds whenever the size does not
   * divide it: the last chunk is shorter than a full one.
   */
  lemma CompletedOvershootsFile(engine: DownloadEngine, rangeSupported: bool, chunkSize: int)
    requires engine.Valid()
    requires var c := engine.download.DwnlChunks;
      Planned(rangeSupported, chunkSize, c.TotalSize, c.ChunkCount, c.ChunkSize) && c.TotalSize % c.ChunkSize != 0
    requires engine.trackerWindowStart == engine.Count()
    ensures engine.Completed() > engine.download.DwnlChunks.TotalSize
  {
    var c := engine.download.DwnlChunks;
    var totalSize, n, size := c.TotalSize, c.ChunkCount, c.ChunkSize;
    PlanIsCeiling(rangeSupported, chunkSize, totalSize, n, size);
    var q, r := totalSize / size, totalSize % size;
    assert totalSize == size * q + r && 0 < r < size;
    assert size * n - size * q == size * (n - q);
    if n - q >= 1 {
      MulLeq(size, 1, n - q);
    } else {
      MulLeq(size, n - q, 0);
    }
    assert engine.Completed() == n * size;
  }

  /** The intended sum: joined chunks count with their declared length, so they add up to at most the file. */
  function CompletedCorrected(windowStart: int, windowEnd: int, size: int, totalSize: int, progress: seq<int>): int
    requires 0 <= windowStart <= windowEnd <= |progress|
  {
    Min(windowStart * size, totalSize) + SumRange(progress, windowStart, windowEnd)
  }

  /** Declared lengths of chunks lo, ..., hi - 1. */
  function DeclaredLengths(size: int, totalSize: int, lo: int, hi: int): (r: seq<int>)
    ensures |r| == if lo <= hi then hi - lo else 0
    ensures forall k :: 0 <= k < |r| ==> r[k] == Min(size, totalSize - size * (lo + k))
    decreases hi - lo
  {
    if hi <= lo then [] else DeclaredLengths(size, totalSize, lo, hi - 1) + [Min(size, totalSize - size * (hi - 1))]
  }

  /** The declared lengths of the chunks of [lo, hi) of a plan add up to the bytes those chunks span. */
  lemma DeclaredLengthsSum(rangeSupported: bool, chunkSize: int, totalSize: int, n: int, size: int, lo: int, hi: int)
    requires Planned(rangeSupported, chunkSize, totalSize, n, size)
    requires 0 <= lo <= hi <= n
    ensures Sum(DeclaredLengths(size, totalSize, lo, hi)) == Min(hi * size, totalSize) - Min(lo * size, totalSize)
  {
    PlanIsCeiling(rangeSupported, chunkSize, totalSize, n, size);
    DeclaredLengthsSpan(size, totalSize, n, lo, hi);
  }

  lemma {:induction false} DeclaredLengthsSpan(size: int, totalSize: int, n: int, lo: int, hi: int)
    requires size > 0 && 0 <= lo <= hi <= n && (n - 1) * size < totalSize
    ensures Sum(DeclaredLengths(size, totalSize, lo, hi)) == Min(hi * size, totalSize) - Min(lo * size, totalSize)
    decreases hi - lo
  {
    if lo < hi {
      var k := hi - 1;
      DeclaredLengthsSpan(size, totalSize, n, lo, k);
      var prefix := DeclaredLengths(size, totalSize, lo, k);
      var last := Min(size, totalSize - size * k);
      var r := DeclaredLengths(size, totalSize, lo, hi);
      assert r == prefix + [last];
      assert r[..|r| - 1] == prefix;
      assert Sum(r) == Sum(prefix) + last;
      ChunkOffsets(size, k, n, totalSize);
      DeclaredStep(size, totalSize, size * k);
    }
  }

  /** Chunk k of a plan of n chunks starts before the end of the file. */
  lemma ChunkOffsets(size: int, k: int, n: int, totalSize: int)
    requires size > 0 && 0 <= k < n && (n - 1) * size < totalSize
    ensures size * k < totalSize && k * size == size * k && (k + 1) * size == size * k + size
  {
    MulLeq(size, k, n - 1);
  }

  /** One chunk starting at offset x below the end adds Min(x + size, total) - Min(x, total) bytes. */
  lemma DeclaredStep(size: int, totalSize: int, x: int)
    requires x < totalSize
    ensures Min(size, totalSize - x) == Min(x + size, totalSize) - Min(x, totalSize)
  {
  }

  /**
   * With the corrected sum, a window whose chunks each report at most
   * their declared length never shows more than the file's size.
   */
  lemma CompletedCorrectedWithinFile(rangeSupported: bool, chunkSize: int, totalSize: int, n: int, size: int,
                                     windowStart: int, windowEnd: int, progress: seq<int>)
    requires Planned(rangeSupported, chunkSize, totalSize, n, size)
    requires 0 <= windowStart <= windowEnd <= n == |progress|
    requires forall i :: windowStart <= i < windowEnd ==> progress[i] <= Min(size, totalSize - size * i)
    ensures CompletedCorrected(windowStart, windowEnd, size, totalSize, progress) <= totalSize
  {
    var bounds := DeclaredLengths(size, totalSize, windowStart, windowEnd);
    SumBounded(progress[windowStart..windowEnd], bounds);
    DeclaredLengthsSum(rangeSupported, chunkSize, totalSize, n, size, windowStart, windowEnd);
  }
}
