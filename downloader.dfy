/**
 * The older downloader (Downloader/Downloader.cs): one object per job that
 * looks up the size and range support, builds one chunk downloader per
 * 4 MiB chunk, runs at most eight of them at a time, joins them in order,
 * then appends the chunk files to the target and deletes them. Its state
 * is an explicit enum that the tracker reads.
 *
 * The HTTP lookups and the chunk threads' outcomes are inputs: the size
 * lookup and the range probe each give a value or an exception, each
 * joined chunk downloader holds the exception its thread stored (if any),
 * and an external Abort is observed at one of the joins.
 */
module LegacyDownloader {
  import opened Common
  import opened ChunkPlan
  import opened ChunkFiles
  import ChunkTransfer

  const MB: int := 1024 * 1024
  const CHUNK_SIZE_LIMIT: int := 4 * MB
  const ACTIVE_THREAD_LIMIT: int := 8

  /** new ChunkDownloader[ChunkCount] with a negative count. */
  const OVERFLOW_EXCEPTION: Exception := Exception("OverflowException: Arithmetic operation resulted in an overflow.")

  datatype DownloadState = Create | Start | Download | Append | Abort | Complete | Error | Finish | Idle

  /** (int)State: the position of the state in the enum's declaration. */
  function Ordinal(s: DownloadState): (k: int)
    ensures 0 <= k < 9
    ensures s == Create <==> k == 0
    ensures s == Idle <==> k == 8
  {
    match s
    case Create => 0
    case Start => 1
    case Download => 2
    case Append => 3
    case Abort => 4
    case Complete => 5
    case Error => 6
    case Finish => 7
    case Idle => 8
  }

  /** What a call that may throw delivers: its value or its exception. */
  datatype Outcome<T> = Value(value: T) | Thrown(error: Exception)

  /**
   * What Create learns from outside: the file size (FindFileSize), whether
   * the server accepts ranges (the probe of FindChunkCount), and the
   * exception of creating the chunk directory, if any.
   */
  datatype Lookup = Lookup(size: Outcome<int>, rangeSupported: Outcome<bool>, directory: Option<Exception>)

  /**
   * One run of the download thread as seen from outside: the join at which
   * an Abort is observed (if any), the exceptions the chunk downloaders
   * stored, by chunk id, the exception of creating the target file (an
   * invalid path, a denied access, a locked file) and the exception of
   * deleting the chunk directory.
   */
  datatype Run = Run(abortAtJoin: Option<int>, failures: map<int, Exception>,
                     targetFault: Option<Exception>, directoryFault: Option<Exception>)

  /** FindChunkCount: ceiling of the size over 4 MiB with range support, else one chunk. */
  function FindChunkCount(size: int, rangeSupported: bool): (n: int)
    ensures !rangeSupported ==> n == 1
    ensures rangeSupported && size > 0 ==>
      n >= 1 && (n - 1) * CHUNK_SIZE_LIMIT < size <= n * CHUNK_SIZE_LIMIT
    ensures rangeSupported && size == 0 ==> n == 0
  {
    if rangeSupported && size > 0 then
      CountIsCeiling(CHUNK_SIZE_LIMIT, size);
      ChunkCountFor(rangeSupported, CHUNK_SIZE_LIMIT, size)
    else
      ChunkCountFor(rangeSupported, CHUNK_SIZE_LIMIT, size)
  }

  /** The last byte Start gives chunk i: the end of its 4 MiB slot, clamped to DwnlSize. */
  function JobEnd(size: int, i: int): int
  {
    Min(i * CHUNK_SIZE_LIMIT + CHUNK_SIZE_LIMIT - 1, size)
  }

  /**
   * With range support, the ranges Start builds are contiguous, lie inside
   * [0, size] and end where the next begins.
   */
  lemma JobRanges(size: int, i: int)
    requires size > 0 && 0 <= i < FindChunkCount(size, true)
    ensures 0 <= i * CHUNK_SIZE_LIMIT <= JobEnd(size, i) <= size
    ensures i + 1 < FindChunkCount(size, true) ==> JobEnd(size, i) + 1 == (i + 1) * CHUNK_SIZE_LIMIT
  {
    var n := FindChunkCount(size, true);
    MulLeq(CHUNK_SIZE_LIMIT, i, n - 1);
    MulLeq(CHUNK_SIZE_LIMIT, 0, i);
    if i + 1 < n {
      MulLeq(CHUNK_SIZE_LIMIT, i + 1, n - 1);
    }
  }

  /** The lowest id in [from, n) whose chunk downloader stored an exception, or n. */
  function FirstFailure(failures: map<int, Exception>, from: int, n: int): (f: int)
    requires from <= n
    ensures from <= f <= n
    ensures forall i :: from <= i < f ==> i !in failures
    ensures f < n ==> f in failures
    decreases n - from
  {
    if from == n then n
    else if from in failures then from
    else FirstFailure(failures, from + 1, n)
  }

  /** The states, the unhandled exception and the files of Append (and Complete after it). */
  datatype Wrapup = Wrapup(states: seq<DownloadState>, thrown: Option<Exception>, files: Files)

  /**
   * Append then Complete: create the target, whose exception ends the
   * thread in Append with the files untouched; copy the chunk files into it
   * in id order, a missing one ending the thread with FileNotFoundException;
   * then delete the chunk files and the chunk directory, whose exception
   * ends the thread in Complete; otherwise Finish. The thread finishes
   * without an exception exactly when the target is created, every chunk
   * file is there and the directory is deleted.
   */
  function AppendOutcome(files: Files, cacheDir: string, n: int, target: string,
                         targetFault: Option<Exception>, directoryFault: Option<Exception>): (w: Wrapup)
    ensures |w.states| >= 1 && w.states[0] == Append
    ensures w.thrown.None? <==> w.states[|w.states| - 1] == Finish
    ensures w.thrown.None? <==>
      targetFault.None? && directoryFault.None? && forall i :: 0 <= i < n ==> ChunkPath(cacheDir, i) in files
    ensures targetFault.Some? ==> w.thrown == targetFault && w.files == files
  {
    var m := FirstMissing(files, cacheDir, 0, Max(n, 0));
    var appended := files[target := Stitched(files, cacheDir, m)];
    if targetFault.Some? then
      Wrapup([Append], targetFault, files)
    else if m < n then
      Wrapup([Append], Some(MissingFile(ChunkPath(cacheDir, m))), appended)
    else
      var cleaned := appended - ChunkPaths(cacheDir, n);
      if directoryFault.Some? then Wrapup([Append, Complete], directoryFault, cleaned)
      else Wrapup([Append, Complete, Finish], None, cleaned)
  }

  /**
   * How the joins of one pass end early, if they do: the states after
   * Download, the exception stored in DwnlException, and how many chunks
   * were joined.
   */
  datatype Halt = Halt(states: seq<DownloadState>, error: Option<Exception>, joined: int)

  /**
   * Chunks are joined in id order. At each join an observed Abort ends the
   * pass (the abort thread then leaves Idle); otherwise a stored exception
   * aborts, records the exception and ends in Error. None when every chunk
   * is joined: exactly when no chunk stored an exception and no Abort is
   * observed.
   */
  function HaltOf(run: Run, n: int): (h: Option<Halt>)
    ensures h.None? <==>
      (forall i :: 0 <= i < n ==> i !in run.failures) && !(run.abortAtJoin.Some? && 0 <= run.abortAtJoin.value < n)
    ensures h.Some? ==> 1 <= h.value.joined <= n && (h.value.error.None? <==> h.value.states == [Abort, Idle])
  {
    var f := FirstFailure(run.failures, 0, Max(n, 0));
    if run.abortAtJoin.Some? && 0 <= run.abortAtJoin.value < n && run.abortAtJoin.value <= f then
      Some(Halt([Abort, Idle], None, run.abortAtJoin.value + 1))
    else if f < n then
      Some(Halt([Abort, Idle, Error], Some(run.failures[f]), f + 1))
    else None
  }

  /** The number of chunks a pass joins. */
  function JoinedBy(run: Run, n: int): int
  {
    match HaltOf(run, n)
    case Some(h) => h.joined
    case None => Max(n, 0)
  }

  /** A join that the joins before it let through ends the pass exactly as HaltOf says. */
  lemma HaltAtJoin(run: Run, n: int, i: int)
    requires 0 <= i < n
    requires forall k :: 0 <= k < i ==> k !in run.failures
    requires run.abortAtJoin.Some? && run.abortAtJoin.value >= 0 ==> run.abortAtJoin.value >= i
    ensures run.abortAtJoin == Some(i) ==> HaltOf(run, n) == Some(Halt([Abort, Idle], None, i + 1))
    ensures run.abortAtJoin != Some(i) && i in run.failures ==>
      HaltOf(run, n) == Some(Halt([Abort, Idle, Error], Some(run.failures[i]), i + 1))
  {
    var f := FirstFailure(run.failures, 0, n);
    assert f >= i;
  }

  /** When every join lets the pass through, it does not end early. */
  lemma NoHalt(run: Run, n: int)
    requires forall k :: 0 <= k < n ==> k !in run.failures
    requires run.abortAtJoin.Some? && run.abortAtJoin.value >= 0 ==> run.abortAtJoin.value >= n
    ensures HaltOf(run, n) == None
  {
    assert FirstFailure(run.failures, 0, Max(n, 0)) == Max(n, 0);
  }

  /** Joins that all let the pass through leave it unended, with every chunk started and joined. */
  lemma AllJoined(run: Run, n: int, i: int, nextChunk: int)
    requires 0 <= i <= Max(n, 0) && i >= n && nextChunk == i + Max(Min(n, ACTIVE_THREAD_LIMIT), 0)
    requires forall k :: 0 <= k < i ==> k !in run.failures
    requires run.abortAtJoin.Some? && run.abortAtJoin.value >= 0 ==> run.abortAtJoin.value >= i
    ensures HaltOf(run, n) == None && JoinedBy(run, n) == i
    ensures Range(0, Min(nextChunk, n)) == Range(0, Min(JoinedBy(run, n) + ACTIVE_THREAD_LIMIT - 1, Max(n, 0)))
  {
    NoHalt(run, n);
    if n < 0 {
      assert Range(0, Min(nextChunk, n)) == [];
    }
  }

  /**
   * What one pass of Download leads to after its own Download state: the
   * later states, the exception stored in DwnlException, an exception the
   * thread does not handle, the files, and how many chunks were joined.
   */
  datatype Pass = Pass(states: seq<DownloadState>, error: Option<Exception>, thrown: Option<Exception>, files: Files, joined: int)

  /**
   * A pass: the joins, then, when none ends it early, Append and Complete.
   * The files change only after every chunk is joined; a pass that ends
   * early aborts and leaves them as they were.
   */
  function PassOutcome(run: Run, files: Files, cacheDir: string, n: int, target: string): (p: Pass)
    ensures |p.states| >= 1 && 0 <= p.joined <= Max(n, 0)
    ensures p.states[0] == Append ==> p.joined == Max(n, 0) && p.error.None?
    ensures p.states[0] != Append ==> p.states[0] == Abort && p.files == files && p.thrown.None?
  {
    match HaltOf(run, n)
    case Some(h) => Pass(h.states, h.error, None, files, h.joined)
    case None =>
      var w := AppendOutcome(files, cacheDir, n, target, run.targetFault, run.directoryFault);
      Pass(w.states, None, w.thrown, w.files, Max(n, 0))
  }

  /**
   * A pass reaches Finish exactly when no Abort is observed, no chunk
   * downloader stored an exception, the target is created, every chunk file
   * is there and the chunk directory is deleted; then the target holds the chunks one after
   * another and no chunk file is left.
   */
  lemma PassFinishes(run: Run, files: Files, cacheDir: string, n: int, target: string)
    requires n >= 0
    requires forall i :: 0 <= i < n ==> ChunkPath(cacheDir, i) != target
    ensures var p := PassOutcome(run, files, cacheDir, n, target);
      (p.states[|p.states| - 1] == Finish) <==>
        && !(run.abortAtJoin.Some? && 0 <= run.abortAtJoin.value < n)
        && (forall i :: 0 <= i < n ==> i !in run.failures)
        && run.targetFault.None?
        && (forall i :: 0 <= i < n ==> ChunkPath(cacheDir, i) in files)
        && run.directoryFault.None?
    ensures var p := PassOutcome(run, files, cacheDir, n, target);
      p.states[|p.states| - 1] == Finish ==>
        && p.states == [Append, Complete, Finish] && p.error.None? && p.thrown.None? && p.joined == n
        && target in p.files && p.files[target] == Stitched(files, cacheDir, n)
        && (forall i :: 0 <= i < n ==> ChunkPath(cacheDir, i) !in p.files)
    ensures var p := PassOutcome(run, files, cacheDir, n, target);
      HaltOf(run, n).None? && run.targetFault.Some? ==>
        p.states == [Append] && p.thrown == run.targetFault && p.files == files
  {
    var p := PassOutcome(run, files, cacheDir, n, target);
    var f := FirstFailure(run.failures, 0, n);
    var m := FirstMissing(files, cacheDir, 0, n);
    assert (forall i :: 0 <= i < n ==> i !in run.failures) ==> f == n;
    assert (forall i :: 0 <= i < n ==> ChunkPath(cacheDir, i) in files) ==> m == n;
    if p.states[|p.states| - 1] == Finish {
      assert f == n && m == n;
      var cleaned := files[target := Stitched(files, cacheDir, n)] - ChunkPaths(cacheDir, n);
      assert target !in ChunkPaths(cacheDir, n);
      assert p.files == cleaned;
      forall i | 0 <= i < n
        ensures ChunkPath(cacheDir, i) !in p.files
      {
        assert ChunkPath(cacheDir, i) in ChunkPaths(cacheDir, n);
      }
    }
  }

  /**
   * When some chunk downloader stored an exception and no Abort is
   * observed, the lowest such chunk decides the pass: its exception is
   * recorded, the pass ends in Error after joining exactly up to it, and
   * Append is never reached, so the files are untouched.
   */
  lemma LowestFailureStops(run: Run, files: Files, cacheDir: string, n: int, target: string, c: int)
    requires 0 <= c < n && c in run.failures && run.abortAtJoin.None?
    ensures var p := PassOutcome(run, files, cacheDir, n, target);
      exists f :: 0 <= f <= c && f in run.failures && (forall i :: 0 <= i < f ==> i !in run.failures) &&
        p.error == Some(run.failures[f]) && p.joined == f + 1
    ensures var p := PassOutcome(run, files, cacheDir, n, target);
      p.states == [Abort, Idle, Error] && Append !in p.states && p.thrown.None? && p.files == files
  {
    var f := FirstFailure(run.failures, 0, n);
    assert f <= c;
  }

  /** The downloader of one job. */
  class Downloader {
    const DwnlSource: string
    var DwnlTarget: string
    var DwnlSize: int
    /** The directory of the chunk files, named after a hash of the source. */
    const ChunkDir: string
    var ChunkCount: int
    var ChunkDownloaders: seq<ChunkTransfer.ChunkDownloader>
    var DwnlException: Option<Exception>
    var State: DownloadState
    /** Every state the downloader has entered, in order. */
    var history: seq<DownloadState>
    /** Chunk thread starts and joins of the latest Download, in order. */
    var events: seq<ChunkEvent>

    /** Sets the source and the target, then runs Create. */
    constructor (dwnlSource: string, dwnlTarget: string, chunkDir: string, lookup: Lookup)
      ensures DwnlSource == dwnlSource && DwnlTarget == dwnlTarget && ChunkDir == chunkDir
      ensures ChunkDownloaders == [] && events == []
      ensures history == [DownloadState.Create, State]
      ensures lookup.size.Thrown? ==>
        && DwnlSize == 0 && ChunkCount == 0
        && State == DownloadState.Error && DwnlException == Some(lookup.size.error)
      ensures lookup.size.Value? ==> DwnlSize == lookup.size.value
      ensures lookup.size.Value? && lookup.rangeSupported.Thrown? ==>
        && ChunkCount == 0
        && State == DownloadState.Error && DwnlException == Some(lookup.rangeSupported.error)
      ensures lookup.size.Value? && lookup.rangeSupported.Value? ==>
        && ChunkCount == FindChunkCount(lookup.size.value, lookup.rangeSupported.value)
        && State == (if lookup.directory.Some? then DownloadState.Error else Idle)
        && DwnlException == lookup.directory
    {
      DwnlSource, DwnlTarget, ChunkDir := dwnlSource, dwnlTarget, chunkDir;
      DwnlSize, ChunkCount := 0, 0;
      ChunkDownloaders, events := [], [];
      DwnlException := None;
      State, history := DownloadState.Create, [];
      new;
      Create(lookup);
    }

    /**
     * Create: look up the size, then the chunk count, then make sure the
     * chunk directory exists; Idle on success, otherwise Error with the
     * exception stored. A lookup that throws leaves the fields it would
     * have set as they were.
     */
    method Create(lookup: Lookup)
      modifies this`State, this`history, this`DwnlSize, this`ChunkCount, this`DwnlException
      ensures history == old(history) + [DownloadState.Create, State]
      ensures lookup.size.Thrown? ==>
        && DwnlSize == old(DwnlSize) && ChunkCount == old(ChunkCount)
        && State == DownloadState.Error && DwnlException == Some(lookup.size.error)
      ensures lookup.size.Value? ==> DwnlSize == lookup.size.value
      ensures lookup.size.Value? && lookup.rangeSupported.Thrown? ==>
        && ChunkCount == old(ChunkCount)
        && State == DownloadState.Error && DwnlException == Some(lookup.rangeSupported.error)
      ensures lookup.size.Value? && lookup.rangeSupported.Value? ==>
        && ChunkCount == FindChunkCount(lookup.size.value, lookup.rangeSupported.value)
        && State == (if lookup.directory.Some? then DownloadState.Error else Idle)
        && DwnlException == (if lookup.directory.Some? then lookup.directory else old(DwnlException))
    {
      State, history := DownloadState.Create, history + [DownloadState.Create];
      match lookup.size
      case Thrown(e) =>
        DwnlException := Some(e);
        State, history := DownloadState.Error, history + [DownloadState.Error];
      case Value(size) =>
        DwnlSize := size;
        match lookup.rangeSupported
        case Thrown(e) =>
          DwnlException := Some(e);
          State, history := DownloadState.Error, history + [DownloadState.Error];
        case Value(rangeSupported) =>
          ChunkCount := FindChunkCount(size, rangeSupported);
          if lookup.directory.Some? {
            DwnlException := lookup.directory;
            State, history := DownloadState.Error, history + [DownloadState.Error];
          } else {
            State, history := Idle, history + [Idle];
          }
    }

    /** Chunk downloader d is the one Start builds for chunk i. */
    predicate BuiltFor(d: ChunkTransfer.ChunkDownloader, i: int)
      reads this, d
    {
      && d.chunkSource == DwnlSource && d.chunkTarget == ChunkPath(ChunkDir, i)
      && d.chunkStart == i * CHUNK_SIZE_LIMIT && d.chunkEnd == JobEnd(DwnlSize, i)
      && d.DwnlException.None?
    }

    /**
     * Start: from Idle only, enter Start and build one new chunk downloader
     * per chunk, chunk i covering [i * 4 MiB, min(i * 4 MiB + 4 MiB - 1,
     * DwnlSize)]. A negative chunk count makes the array allocation throw.
     * The thread it then starts runs Download.
     */
    method Start() returns (thrown: Option<Exception>)
      modifies this`State, this`history, this`ChunkDownloaders
      ensures old(State) != Idle ==>
        State == old(State) && history == old(history) && ChunkDownloaders == old(ChunkDownloaders) && thrown.None?
      ensures old(State) == Idle ==> State == DownloadState.Start && history == old(history) + [DownloadState.Start]
      ensures old(State) == Idle && ChunkCount < 0 ==>
        thrown == Some(OVERFLOW_EXCEPTION) && ChunkDownloaders == old(ChunkDownloaders)
      ensures old(State) == Idle && ChunkCount >= 0 ==>
        && thrown.None? && |ChunkDownloaders| == ChunkCount
        && forall i :: 0 <= i < ChunkCount ==> fresh(ChunkDownloaders[i]) && BuiltFor(ChunkDownloaders[i], i)
    {
      thrown := None;
      if State != Idle {
        return;
      }
      State, history := DownloadState.Start, history + [DownloadState.Start];
      if ChunkCount < 0 {
        thrown := Some(OVERFLOW_EXCEPTION);
        return;
      }
      var built: seq<ChunkTransfer.ChunkDownloader> := [];
      var i, chunkStart := 0, 0;
      while i < ChunkCount
        invariant 0 <= i <= ChunkCount && |built| == i && chunkStart == i * CHUNK_SIZE_LIMIT
        invariant forall k :: 0 <= k < i ==> fresh(built[k]) && BuiltFor(built[k], k)
        invariant State == DownloadState.Start && history == old(history) + [DownloadState.Start]
      {
        var d := new ChunkTransfer.ChunkDownloader(DwnlSource, ChunkPath(ChunkDir, i), chunkStart,
          Min(chunkStart + CHUNK_SIZE_LIMIT - 1, DwnlSize));
        built := built + [d];
        i, chunkStart := i + 1, chunkStart + CHUNK_SIZE_LIMIT;
      }
      ChunkDownloaders := built;
    }

    /**
     * The abort thread: from Download only, enter Abort, abort every chunk thread,
     * then enter Idle; from any other state it does nothing.
     */
    method Abort()
      modifies this`State, this`history
      ensures old(State) == DownloadState.Download ==>
        State == Idle && history == old(history) + [DownloadState.Abort, Idle]
      ensures old(State) != DownloadState.Download ==> State == old(State) && history == old(history)
    {
      if State == DownloadState.Download {
        State, history := DownloadState.Abort, history + [DownloadState.Abort];
        State, history := Idle, history + [Idle];
      }
    }

    /**
     * Complete: delete every chunk file, then the chunk directory, whose
     * exception the thread does not handle; then Finish.
     */
    method Complete(files: Files, directoryFault: Option<Exception>) returns (files': Files, thrown: Option<Exception>)
      modifies this`State, this`history
      ensures files' == files - ChunkPaths(ChunkDir, ChunkCount)
      ensures thrown == directoryFault
      ensures history == old(history) + (if directoryFault.Some? then [DownloadState.Complete] else [DownloadState.Complete, Finish])
      ensures State == (if directoryFault.Some? then DownloadState.Complete else Finish)
    {
      State, history := DownloadState.Complete, history + [DownloadState.Complete];
      files' := DeleteChunks(files, ChunkDir, ChunkCount);
      thrown := directoryFault;
      if directoryFault.None? {
        State, history := Finish, history + [Finish];
      }
    }

    /**
     * Append: create the target (its exception escapes, leaving the files
     * as they were) and copy the chunk files into it in id order (a missing
     * one throws FileNotFoundException), then Complete.
     */
    method Append(files: Files, targetFault: Option<Exception>, directoryFault: Option<Exception>)
      returns (files': Files, thrown: Option<Exception>)
      requires forall i :: 0 <= i < ChunkCount ==> ChunkPath(ChunkDir, i) != DwnlTarget
      modifies this`State, this`history
      ensures var w := AppendOutcome(files, ChunkDir, ChunkCount, DwnlTarget, targetFault, directoryFault);
        && history == old(history) + w.states && State == w.states[|w.states| - 1]
        && thrown == w.thrown && files' == w.files
    {
      State, history := DownloadState.Append, history + [DownloadState.Append];
      if targetFault.Some? {
        files', thrown := files, targetFault;
        return;
      }
      var missing;
      files', missing := AppendChunks(files, ChunkDir, ChunkCount, DwnlTarget);
      if missing.Some? {
        thrown := Some(MissingFile(ChunkPath(ChunkDir, missing.value)));
        return;
      }
      ghost var before := history;
      files', thrown := Complete(files', directoryFault);
      assert history == before + (if directoryFault.Some? then [DownloadState.Complete] else [DownloadState.Complete, Finish]);
    }

    /** Starts the first min(ChunkCount, 8) chunk threads, in id order, on a fresh log. */
    method StartFirst()
      modifies this`events
      ensures StartedIds(events) == Range(0, Max(Min(ChunkCount, ACTIVE_THREAD_LIMIT), 0)) && JoinedIds(events) == []
      ensures BoundedOutstanding(events, ACTIVE_THREAD_LIMIT)
    {
      events := [];
      var limit := Min(ChunkCount, ACTIVE_THREAD_LIMIT);
      var nextChunk := 0;
      while nextChunk < limit
        invariant 0 <= nextChunk <= Max(limit, 0)
        invariant StartedIds(events) == Range(0, nextChunk) && JoinedIds(events) == []
        invariant BoundedOutstanding(events, ACTIVE_THREAD_LIMIT)
      {
        LogStart(events, nextChunk, 0, ACTIVE_THREAD_LIMIT);
        events := events + [Started(nextChunk)];
        nextChunk := nextChunk + 1;
      }
    }

    /** The halted joins' effect on the log, for the pass over n chunks. */
    ghost predicate Logged(run: Run, n: int)
      reads this
    {
      && StartedIds(events) == Range(0, Min(JoinedBy(run, n) + ACTIVE_THREAD_LIMIT - 1, Max(n, 0)))
      && JoinedIds(events) == Range(0, JoinedBy(run, n))
      && BoundedOutstanding(events, ACTIVE_THREAD_LIMIT)
    }

    /**
     * Ends the pass at join i: after an observed Abort the abort thread
     * leaves Idle; after a stored exception, the loop runs Abort, records
     * the exception and enters Error.
     */
    method HaltPass(run: Run, i: int)
      requires State == DownloadState.Download
      requires run.abortAtJoin == Some(i) || i in run.failures
      modifies this`State, this`history, this`DwnlException
      ensures run.abortAtJoin == Some(i) ==>
        history == old(history) + [DownloadState.Abort, Idle] && State == Idle && DwnlException == old(DwnlException)
      ensures run.abortAtJoin != Some(i) ==>
        && history == old(history) + [DownloadState.Abort, Idle, DownloadState.Error] && State == DownloadState.Error
        && DwnlException == Some(run.failures[i])
    {
      Abort();
      if run.abortAtJoin != Some(i) {
        DwnlException := Some(run.failures[i]);
        State, history := DownloadState.Error, history + [DownloadState.Error];
      }
    }

    /**
     * Join chunk i (the loop body of the joins): an observed Abort or a
     * stored exception ends the pass; otherwise start the next chunk, if
     * any is left.
     */
    method JoinOne(run: Run, i: int, nextChunk: int) returns (halted: bool)
      requires 0 <= i < ChunkCount && nextChunk == i + Min(ChunkCount, ACTIVE_THREAD_LIMIT)
      requires StartedIds(events) == Range(0, Min(nextChunk, ChunkCount)) && JoinedIds(events) == Range(0, i)
      requires BoundedOutstanding(events, ACTIVE_THREAD_LIMIT)
      requires State == DownloadState.Download
      requires forall k :: 0 <= k < i ==> k !in run.failures
      requires run.abortAtJoin.Some? && run.abortAtJoin.value >= 0 ==> run.abortAtJoin.value >= i
      modifies this`State, this`history, this`events, this`DwnlException
      ensures halted <==> (run.abortAtJoin == Some(i) || i in run.failures)
      ensures halted ==> var h := HaltOf(run, ChunkCount).value;
        && HaltOf(run, ChunkCount).Some?
        && history == old(history) + h.states && State == h.states[|h.states| - 1]
        && DwnlException == (if h.error.Some? then h.error else old(DwnlException))
        && Logged(run, ChunkCount)
      ensures !halted ==>
        && State == old(State) && history == old(history) && DwnlException == old(DwnlException)
        && StartedIds(events) == Range(0, Min(nextChunk + 1, ChunkCount)) && JoinedIds(events) == Range(0, i + 1)
        && BoundedOutstanding(events, ACTIVE_THREAD_LIMIT)
    {
      var n := ChunkCount;
      LogJoin(events, Min(nextChunk, n), i, ACTIVE_THREAD_LIMIT);
      events := events + [Joined(i)];
      HaltAtJoin(run, n, i);
      if run.abortAtJoin == Some(i) || i in run.failures {
        assert JoinedBy(run, n) == i + 1;
        assert Min(nextChunk, n) == Min(JoinedBy(run, n) + ACTIVE_THREAD_LIMIT - 1, Max(n, 0));
        HaltPass(run, i);
        return true;
      }
      if nextChunk < n {
        LogStart(events, nextChunk, i + 1, ACTIVE_THREAD_LIMIT);
        events := events + [Started(nextChunk)];
      }
      return false;
    }

    /**
     * The scheduling part of Download: start the first min(ChunkCount, 8)
     * chunk threads, then join them in id order, starting the next one after
     * each join, so that at most 8 are started and not yet joined. Returns
     * whether a join ended the pass.
     */
    method Joining(run: Run) returns (halted: bool)
      requires State == DownloadState.Download
      modifies this`State, this`history, this`events, this`DwnlException
      ensures var h := HaltOf(run, ChunkCount);
        && halted == h.Some?
        && (h.Some? ==> history == old(history) + h.value.states && State == h.value.states[|h.value.states| - 1]
                        && DwnlException == (if h.value.error.Some? then h.value.error else old(DwnlException)))
        && (h.None? ==> State == old(State) && history == old(history) && DwnlException == old(DwnlException))
      ensures Logged(run, ChunkCount)
    {
      var n := ChunkCount;
      StartFirst();
      var nextChunk := Max(Min(n, ACTIVE_THREAD_LIMIT), 0);
      var i := 0;
      while i < n
        invariant 0 <= i <= Max(n, 0) && nextChunk == i + Max(Min(n, ACTIVE_THREAD_LIMIT), 0)
        invariant StartedIds(events) == Range(0, Min(nextChunk, n)) && JoinedIds(events) == Range(0, i)
        invariant BoundedOutstanding(events, ACTIVE_THREAD_LIMIT)
        invariant State == old(State) && history == old(history) && DwnlException == old(DwnlException)
        invariant forall k :: 0 <= k < i ==> k !in run.failures
        invariant run.abortAtJoin.Some? && run.abortAtJoin.value >= 0 ==> run.abortAtJoin.value >= i
      {
        halted := JoinOne(run, i, nextChunk);
        if halted {
          return;
        }
        i, nextChunk := i + 1, nextChunk + 1;
      }
      AllJoined(run, n, i, nextChunk);
      halted := false;
    }

    /**
     * Download: from Start only. Enter Download, run the joins, and when
     * every chunk is joined go on to Append.
     */
    method Download(run: Run, files: Files) returns (files': Files, thrown: Option<Exception>)
      requires forall i :: 0 <= i < ChunkCount ==> ChunkPath(ChunkDir, i) != DwnlTarget
      modifies this`State, this`history, this`events, this`DwnlException
      ensures old(State) != DownloadState.Start ==>
        && State == old(State) && history == old(history) && events == old(events)
        && DwnlException == old(DwnlException) && files' == files && thrown.None?
      ensures old(State) == DownloadState.Start ==>
        var p := PassOutcome(run, files, ChunkDir, ChunkCount, DwnlTarget);
        && history == old(history) + [DownloadState.Download] + p.states
        && State == p.states[|p.states| - 1]
        && DwnlException == (if p.error.Some? then p.error else old(DwnlException))
        && thrown == p.thrown && files' == p.files
        && Logged(run, ChunkCount)
    {
      files', thrown := files, None;
      if State != DownloadState.Start {
        return;
      }
      State, history := DownloadState.Download, history + [DownloadState.Download];
      var halted := Joining(run);
      if halted {
        return;
      }
      ghost var before := history;
      files', thrown := Append(files, run.targetFault, run.directoryFault);
      assert history == before + AppendOutcome(files, ChunkDir, ChunkCount, DwnlTarget, run.targetFault, run.directoryFault).states;
    }
  }
}
