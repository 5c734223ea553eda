/**
 * The progress tracker of the older downloader (Downloader/DownloadTracker.cs).
 * On every timer tick it reads the downloader's state and, while
 * downloading, scans a sliding window of chunk files, recording each file's
 * length and adding the growth to the completed size; while appending it
 * follows the target file's length; and it sets the progress message from
 * a table indexed by the state.
 *
 * A tick's view of the outside is an input: the file system, the two
 * downloader members the tracker reads but the downloader does not define
 * (the number of active chunks and the chunk size), the state the
 * downloader has reached when the scan re-reads it, and the text of the
 * floating-point number the message shows.
 */
module Tracker {
  import opened Common
  import opened ChunkPlan
  import opened ChunkFiles
  import opened LegacyDownloader

  /** The message templates, one per DownloadState, in the enum's order. */
  const PROGRESS_MSGS: seq<string> := [
    "Creatring the download. . .",
    "Starting the threads. . .",
    "Download {0:f3} % complete. . .",
    "Appending files at {0:f3} MB/s. . .",
    "Aborting. . .",
    "Download Complete. . . Cleaning up",
    "Error: {0} \U{2639}",
    "Finished. . . \U{270C}",
    "Idle. . . Click to Resume / Start. . ."
  ]

  /** Indexing chunksSize past its end. */
  const INDEX_OUT_OF_RANGE_EXCEPTION: Exception := Exception("IndexOutOfRangeException: Index was outside the bounds of the array.")

  /** The template of a state: PROGRESS_MSGS[(int)State], always in bounds. */
  function Template(s: DownloadState): (t: string)
    ensures |PROGRESS_MSGS| == 9 && t == PROGRESS_MSGS[Ordinal(s)]
  {
    PROGRESS_MSGS[Ordinal(s)]
  }

  // ---------------------------------------------------------------------
  // Message formatting
  // ---------------------------------------------------------------------

  /**
   * string.Format with one argument: every format item "{...}" becomes arg,
   * so a template without a format item is its own message.
   */
  function Format(template: string, arg: string): (r: string)
    ensures '{' !in template ==> r == template
    decreases |template|
  {
    if template == [] then []
    else if template[0] == '{' then arg + Format(SkipItem(template[1..]), arg)
    else [template[0]] + Format(template[1..], arg)
  }

  /** The text after the end of a format item. */
  function SkipItem(t: string): (r: string)
    ensures |r| <= |t|
  {
    if t == [] then []
    else if t[0] == '}' then t[1..]
    else SkipItem(t[1..])
  }

  /** A template with one format item yields the text around it with arg in its place. */
  lemma {:induction false} FormatItem(pre: string, item: string, post: string, arg: string)
    requires '{' !in pre && '}' !in item && '{' !in post
    ensures Format(pre + "{" + item + "}" + post, arg) == pre + arg + post
    decreases |pre|
  {
    var t := pre + "{" + item + "}" + post;
    if pre == [] {
      assert t == "{" + item + "}" + post;
      FormatItemAtStart(item, post, arg);
    } else {
      var rest := pre[1..] + "{" + item + "}" + post;
      assert t == [pre[0]] + rest;
      FormatText(pre[0], rest, arg);
      FormatItem(pre[1..], item, post, arg);
      SplitFirst(pre, arg, post);
      calc {
        Format(t, arg);
        Format([pre[0]] + rest, arg);
        [pre[0]] + Format(rest, arg);
        [pre[0]] + (pre[1..] + arg + post);
        pre + arg + post;
      }
    }
  }

  /** A non-empty text followed by more text is its first character, then the rest. */
  lemma SplitFirst(a: string, b: string, c: string)
    requires a != []
    ensures a + b + c == [a[0]] + (a[1..] + b + c)
  {
    assert a == [a[0]] + a[1..];
  }

  /** A character outside a format item is copied as it is. */
  lemma FormatText(c: char, rest: string, arg: string)
    requires c != '{'
    ensures Format([c] + rest, arg) == [c] + Format(rest, arg)
  {
    assert ([c] + rest)[0] == c && ([c] + rest)[1..] == rest;
  }

  /** A template that starts with its one format item yields arg, then the text after the item. */
  lemma FormatItemAtStart(item: string, post: string, arg: string)
    requires '}' !in item && '{' !in post
    ensures Format("{" + item + "}" + post, arg) == arg + post
  {
    var t := "{" + item + "}" + post;
    assert t[0] == '{' && t[1..] == item + "}" + post;
    SkipItemPast(item, post);
  }

  lemma {:induction false} SkipItemPast(item: string, post: string)
    requires '}' !in item
    ensures SkipItem(item + "}" + post) == post
    decreases |item|
  {
    if item == [] {
      assert ("}" + post)[1..] == post;
    } else {
      assert (item + "}" + post)[1..] == item[1..] + "}" + post;
      SkipItemPast(item[1..], post);
    }
  }

  /** The download message shows the percentage's text in place of its format item. */
  lemma DownloadMessage(t: string, x: string)
    requires t == Template(Download)
    ensures Format(t, x) == "Download " + x + " % complete. . ."
  {
    var pre, item, post := "Download ", "0:f3", " % complete. . .";
    assert Ordinal(Download) == 2 && t == "Download {0:f3} % complete. . .";
    assert "Download {0:f3} % complete. . ." == pre + "{" + item + "}" + post;
    FormatItem(pre, item, post, x);
  }

  /** The append message shows the speed's text in place of its format item. */
  lemma AppendMessage(t: string, x: string)
    requires t == Template(Append)
    ensures Format(t, x) == "Appending files at " + x + " MB/s. . ."
  {
    var pre, item, post := "Appending files at ", "0:f3", " MB/s. . .";
    assert Ordinal(Append) == 3 && t == "Appending files at {0:f3} MB/s. . .";
    assert "Appending files at {0:f3} MB/s. . ." == pre + "{" + item + "}" + post;
    FormatItem(pre, item, post, x);
  }

  /** The error message shows the exception's text in place of its format item. */
  lemma ErrorMessage(t: string, x: string)
    requires t == Template(Error)
    ensures Format(t, x) == "Error: " + x + " \U{2639}"
  {
    var pre, item, post := "Error: ", "0", " \U{2639}";
    assert Ordinal(Error) == 6 && t == "Error: {0} \U{2639}";
    assert "Error: {0} \U{2639}" == pre + "{" + item + "}" + post;
    FormatItem(pre, item, post, x);
  }

  /** The text string.Format gives a stored exception (an absent one gives nothing). */
  function ExceptionText(e: Option<Exception>): string
  {
    if e.Some? then e.value.message else ""
  }

  // ---------------------------------------------------------------------
  // The sliding-window scan
  // ---------------------------------------------------------------------

  /**
   * Where a scan ends: the recorded sizes, the window start, the summed
   * growth (DwnlSpeed), the index it stopped at, how many partly downloaded
   * chunks it counted, and the exception that cut it short, if any.
   */
  datatype Scan = Scan(sizes: seq<int>, windowStart: int, speed: int, next: int, partials: int, fault: Option<Exception>)

  /**
   * The window loop of Downloading, from index i with j partial chunks
   * counted: while i < n and j < active, an existing chunk file's length is
   * recorded and its growth added to the speed. A full chunk moves the
   * window start once when it sits at the start, and then once more; a
   * non-empty partial chunk counts towards j.
   */
  function ScanFrom(files: Files, dir: string, n: int, active: int, chunkSize: int,
                    i: int, j: int, ws: int, speed: int, sizes: seq<int>): (r: Scan)
    requires 0 <= i
    ensures |r.sizes| == |sizes|
    ensures r.fault.Some? ==> r.fault == Some(INDEX_OUT_OF_RANGE_EXCEPTION) && |sizes| <= r.next < n
    decreases n - i
  {
    if !(i < n && j < active) then Scan(sizes, ws, speed, i, j, None)
    else if ChunkPath(dir, i) !in files then ScanFrom(files, dir, n, active, chunkSize, i + 1, j, ws, speed, sizes)
    else
      var newSize := |files[ChunkPath(dir, i)]|;
      var ws1 := if newSize == chunkSize && ws == i then ws + 1 else ws;
      if i >= |sizes| then Scan(sizes, ws1, speed, i, j, Some(INDEX_OUT_OF_RANGE_EXCEPTION))
      else
        var ws2 := if newSize == chunkSize then ws1 + 1 else ws1;
        var j1 := if newSize != chunkSize && newSize > 0 then j + 1 else j;
        ScanFrom(files, dir, n, active, chunkSize, i + 1, j1, ws2, speed + newSize - sizes[i], sizes[i := newSize])
  }

  /**
   * The speed a scan adds up is exactly the growth of the recorded sizes:
   * so the completed size, raised by the speed, keeps its distance to the
   * sum of the recorded sizes.
   */
  lemma {:induction false} ScanSpeedIsGrowth(files: Files, dir: string, n: int, active: int, chunkSize: int,
                                             i: int, j: int, ws: int, speed: int, sizes: seq<int>)
    requires 0 <= i
    ensures var r := ScanFrom(files, dir, n, active, chunkSize, i, j, ws, speed, sizes);
      r.speed - speed == Sum(r.sizes) - Sum(sizes)
    decreases n - i
  {
    if i < n && j < active {
      var path := ChunkPath(dir, i);
      if path !in files {
        ScanSpeedIsGrowth(files, dir, n, active, chunkSize, i + 1, j, ws, speed, sizes);
      } else if i < |sizes| {
        var newSize := |files[path]|;
        var ws1 := if newSize == chunkSize && ws == i then ws + 1 else ws;
        var ws2 := if newSize == chunkSize then ws1 + 1 else ws1;
        var j1 := if newSize != chunkSize && newSize > 0 then j + 1 else j;
        ScanSpeedIsGrowth(files, dir, n, active, chunkSize, i + 1, j1, ws2, speed + newSize - sizes[i], sizes[i := newSize]);
        SumUpdate(sizes, i, newSize);
      }
    }
  }

  /**
   * A scan records, for every index it passed whose chunk file exists, the
   * file's length, and leaves every other entry as it was; the window start
   * never moves backwards; and a scan that is not cut short stops at n or
   * once `active` partial chunks are counted.
   */
  lemma {:induction false} ScanRecordsLengths(files: Files, dir: string, n: int, active: int, chunkSize: int,
                                              i: int, j: int, ws: int, speed: int, sizes: seq<int>)
    requires 0 <= i
    ensures var r := ScanFrom(files, dir, n, active, chunkSize, i, j, ws, speed, sizes);
      && i <= r.next && ws <= r.windowStart && j <= r.partials
      && (forall k :: 0 <= k < |sizes| ==>
            r.sizes[k] == if i <= k < r.next && ChunkPath(dir, k) in files then |files[ChunkPath(dir, k)]| else sizes[k])
      && (r.fault.None? ==> r.next >= n || r.partials >= active)
      && (j <= active ==> r.partials <= active)
  {
    ScanBounds(files, dir, n, active, chunkSize, i, j, ws, speed, sizes);
    ScanSizes(files, dir, n, active, chunkSize, i, j, ws, speed, sizes);
  }

  /** The counters of a scan only grow, and a scan that is not cut short stops at n or at `active` partial chunks. */
  lemma {:induction false} ScanBounds(files: Files, dir: string, n: int, active: int, chunkSize: int,
                                      i: int, j: int, ws: int, speed: int, sizes: seq<int>)
    requires 0 <= i
    ensures var r := ScanFrom(files, dir, n, active, chunkSize, i, j, ws, speed, sizes);
      && i <= r.next && ws <= r.windowStart && j <= r.partials
      && (r.fault.None? ==> r.next >= n || r.partials >= active)
      && (j <= active ==> r.partials <= active)
    decreases n - i
  {
    if i < n && j < active {
      var path := ChunkPath(dir, i);
      if path !in files {
        ScanBounds(files, dir, n, active, chunkSize, i + 1, j, ws, speed, sizes);
      } else if i < |sizes| {
        var newSize := |files[path]|;
        var ws1 := if newSize == chunkSize && ws == i then ws + 1 else ws;
        var ws2 := if newSize == chunkSize then ws1 + 1 else ws1;
        var j1 := if newSize != chunkSize && newSize > 0 then j + 1 else j;
        ScanBounds(files, dir, n, active, chunkSize, i + 1, j1, ws2, speed + newSize - sizes[i], sizes[i := newSize]);
      }
    }
  }

  /** A scan records the length of every existing chunk file it passes and keeps every other entry. */
  lemma ScanSizes(files: Files, dir: string, n: int, active: int, chunkSize: int,
                  i: int, j: int, ws: int, speed: int, sizes: seq<int>)
    requires 0 <= i
    ensures var r := ScanFrom(files, dir, n, active, chunkSize, i, j, ws, speed, sizes);
      forall k :: 0 <= k < |sizes| ==>
        r.sizes[k] == if i <= k < r.next && ChunkPath(dir, k) in files then |files[ChunkPath(dir, k)]| else sizes[k]
  {
    forall k | 0 <= k < |sizes| {
      ScanSizeAt(files, dir, n, active, chunkSize, i, j, ws, speed, sizes, k);
    }
  }

  /** The entry for one index k after a scan: the chunk file's length if the scan passed k and the file exists. */
  lemma {:induction false} ScanSizeAt(files: Files, dir: string, n: int, active: int, chunkSize: int,
                                      i: int, j: int, ws: int, speed: int, sizes: seq<int>, k: int)
    requires 0 <= i && 0 <= k < |sizes|
    ensures var r := ScanFrom(files, dir, n, active, chunkSize, i, j, ws, speed, sizes);
      && i <= r.next
      && r.sizes[k] == if i <= k < r.next && ChunkPath(dir, k) in files then |files[ChunkPath(dir, k)]| else sizes[k]
    decreases n - i
  {
    if i < n && j < active {
      var path := ChunkPath(dir, i);
      if path !in files {
        ScanSizeAt(files, dir, n, active, chunkSize, i + 1, j, ws, speed, sizes, k);
      } else if i < |sizes| {
        var newSize := |files[path]|;
        var ws1 := if newSize == chunkSize && ws == i then ws + 1 else ws;
        var ws2 := if newSize == chunkSize then ws1 + 1 else ws1;
        var j1 := if newSize != chunkSize && newSize > 0 then j + 1 else j;
        ScanSizeAt(files, dir, n, active, chunkSize, i + 1, j1, ws2, speed + newSize - sizes[i], sizes[i := newSize], k);
      }
    }
  }

  // ---------------------------------------------------------------------
  // The window start moves twice for a full chunk
  // ---------------------------------------------------------------------

  /**
   * As written, a full chunk at the window start moves the start twice: a
   * full chunk 0 followed by a partial chunk 1 leaves the window start at 2,
   * past the partial chunk, so the next tick never looks at chunk 1 again
   * and its growth is never counted.
   */
  lemma WindowSkipsPartialChunk(dir: string, later: Files)
    requires ChunkPath(dir, 1) in later && |later[ChunkPath(dir, 1)]| == 4
    ensures var files := map[ChunkPath(dir, 0) := [0, 0, 0, 0], ChunkPath(dir, 1) := [0]];
      var r := ScanFrom(files, dir, 2, 10, 4, 0, 0, 0, 0, [0, 0]);
      && r.fault.None? && r.sizes == [4, 1] && r.windowStart == 2
      && var r' := ScanFrom(later, dir, 2, 10, 4, r.windowStart, 0, r.windowStart, 0, r.sizes);
         r'.speed == 0 && r'.sizes[1] == 1 < |later[ChunkPath(dir, 1)]|
  {
    var p0, p1 := ChunkPath(dir, 0), ChunkPath(dir, 1);
    if p0 == p1 {
      ChunkPathInjective(dir, 0, 1);
    }
    var files := map[p0 := [0, 0, 0, 0], p1 := [0]];
    assert |files[p0]| == 4 && |files[p1]| == 1;
    assert ScanFrom(files, dir, 2, 10, 4, 0, 0, 0, 0, [0, 0]) == ScanFrom(files, dir, 2, 10, 4, 1, 0, 2, 4, [4, 0]);
    assert ScanFrom(files, dir, 2, 10, 4, 1, 0, 2, 4, [4, 0]) == ScanFrom(files, dir, 2, 10, 4, 2, 1, 2, 5, [4, 1]);
  }

  /** As written, a single full chunk moves the window start to 2, past the chunk count. */
  lemma WindowPassesChunkCount(dir: string)
    ensures var files := map[ChunkPath(dir, 0) := [0, 0, 0, 0]];
      ScanFrom(files, dir, 1, 10, 4, 0, 0, 0, 0, [0]).windowStart == 2
  {
    var files := map[ChunkPath(dir, 0) := [0, 0, 0, 0]];
    assert |files[ChunkPath(dir, 0)]| == 4;
    assert ScanFrom(files, dir, 1, 10, 4, 0, 0, 0, 0, [0]) == ScanFrom(files, dir, 1, 10, 4, 1, 0, 2, 4, [4]);
  }

  /** The window loop with the start moved once per full chunk at the start. */
  function ScanFromCorrected(files: Files, dir: string, n: int, active: int, chunkSize: int,
                             i: int, j: int, ws: int, speed: int, sizes: seq<int>): (r: Scan)
    requires 0 <= i
    ensures |r.sizes| == |sizes|
    decreases n - i
  {
    if !(i < n && j < active) then Scan(sizes, ws, speed, i, j, None)
    else if ChunkPath(dir, i) !in files then ScanFromCorrected(files, dir, n, active, chunkSize, i + 1, j, ws, speed, sizes)
    else
      var newSize := |files[ChunkPath(dir, i)]|;
      var ws1 := if newSize == chunkSize && ws == i then ws + 1 else ws;
      if i >= |sizes| then Scan(sizes, ws1, speed, i, j, Some(INDEX_OUT_OF_RANGE_EXCEPTION))
      else
        var j1 := if newSize != chunkSize && newSize > 0 then j + 1 else j;
        ScanFromCorrected(files, dir, n, active, chunkSize, i + 1, j1, ws1, speed + newSize - sizes[i], sizes[i := newSize])
  }

  /**
   * With one move per full chunk, the window start only passes chunks whose
   * recorded size is the full chunk size, and never passes the chunk count.
   */
  lemma {:induction false} CorrectedWindowPassesOnlyFullChunks(files: Files, dir: string, n: int, active: int, chunkSize: int,
                                                               i: int, j: int, lo: int, ws: int, speed: int, sizes: seq<int>)
    requires 0 <= lo <= ws <= i
    requires ws <= |sizes| && forall k :: lo <= k < ws ==> sizes[k] == chunkSize
    ensures var r := ScanFromCorrected(files, dir, n, active, chunkSize, i, j, ws, speed, sizes);
      && ws <= r.windowStart <= Max(i, n)
      && (r.fault.None? ==> r.windowStart <= |r.sizes| && forall k :: lo <= k < r.windowStart ==> r.sizes[k] == chunkSize)
    decreases n - i
  {
    if i < n && j < active {
      var path := ChunkPath(dir, i);
      if path !in files {
        CorrectedWindowPassesOnlyFullChunks(files, dir, n, active, chunkSize, i + 1, j, lo, ws, speed, sizes);
      } else if i < |sizes| {
        var newSize := |files[path]|;
        var ws1 := if newSize == chunkSize && ws == i then ws + 1 else ws;
        var j1 := if newSize != chunkSize && newSize > 0 then j + 1 else j;
        var sizes' := sizes[i := newSize];
        CorrectedWindowPassesOnlyFullChunks(files, dir, n, active, chunkSize, i + 1, j1, lo, ws1, speed + newSize - sizes[i], sizes');
      }
    }
  }

  // ---------------------------------------------------------------------
  // The tracker
  // ---------------------------------------------------------------------

  /** A list of zeros: a freshly allocated long[]. */
  function Zeros(n: int): (z: seq<int>)
    ensures |z| == Max(n, 0) && forall k :: 0 <= k < |z| ==> z[k] == 0
  {
    seq(Max(n, 0), _ => 0)
  }

  /**
   * What one tick sees of the outside: the file system, the number of
   * active chunks and the chunk size (which the downloader does not
   * define), the state the downloader is in when the tick reads it again
   * after its scan, and the "f3" text of a double.
   */
  datatype Observation = Observation(files: Files, chunksActive: int, chunkSize: int, recheck: DownloadState,
                                     fixed3: Option<real> -> string)

  class DownloadTracker {
    const downloader: Downloader
    /** The last seen length of every chunk file; null until the first scan. */
    var chunksSize: array?<int>
    /** The lowest chunk the scan still looks at. */
    var chunksWindowStart: int
    var DwnlProgress: Option<real>
    var DwnlCompleted: int
    var DwnlSpeed: int
    /** The message shown; "" stands for the null message before the first tick. */
    var DwnlProgressMsg: string

    constructor (downloader: Downloader)
      ensures this.downloader == downloader && chunksSize == null && chunksWindowStart == 0
      ensures DwnlProgress == Some(0.0) && DwnlCompleted == 0 && DwnlSpeed == 0 && DwnlProgressMsg == ""
      ensures Valid()
    {
      this.downloader := downloader;
      chunksSize := null;
      chunksWindowStart := 0;
      DwnlProgress := Some(0.0);
      DwnlCompleted := 0;
      DwnlSpeed := 0;
      DwnlProgressMsg := "";
    }

    /** The window never starts below chunk 0. */
    ghost predicate Valid()
      reads this
    {
      chunksWindowStart >= 0
    }

    /** The recorded sizes a scan of n chunks starts from. */
    ghost function Recorded(n: int): seq<int>
      reads this, chunksSize
    {
      if chunksSize == null then Zeros(n) else chunksSize[..]
    }

    /**
     * The window loop of Downloading over an allocated size table: DwnlSpeed
     * becomes the growth the loop adds up, and the table and the window
     * start are left as the loop leaves them.
     */
    method ScanWindow(files: Files, n: int, active: int, full: int) returns (fault: Option<Exception>)
      requires Valid() && chunksSize != null
      modifies this`chunksWindowStart, this`DwnlSpeed, chunksSize
      ensures Valid()
      ensures var r := ScanFrom(files, downloader.ChunkDir, n, active, full,
                                old(chunksWindowStart), 0, old(chunksWindowStart), 0, old(chunksSize[..]));
        chunksSize[..] == r.sizes && chunksWindowStart == r.windowStart && DwnlSpeed == r.speed && fault == r.fault
    {
      var a, dir := chunksSize, downloader.ChunkDir;
      ghost var sizes0 := a[..];
      ghost var ws0 := chunksWindowStart;
      DwnlSpeed := 0;
      var i, j := chunksWindowStart, 0;
      while i < n && j < active
        invariant ws0 <= i && ws0 <= chunksWindowStart
        invariant ScanFrom(files, dir, n, active, full, i, j, chunksWindowStart, DwnlSpeed, a[..])
               == ScanFrom(files, dir, n, active, full, ws0, 0, ws0, 0, sizes0)
        decreases n - i
      {
        var path := ChunkPath(dir, i);
        if path in files {
          var newSize := |files[path]|;
          if newSize == full && chunksWindowStart == i {
            chunksWindowStart := chunksWindowStart + 1;
          }
          if i >= a.Length {
            return Some(INDEX_OUT_OF_RANGE_EXCEPTION);
          }
          DwnlSpeed := DwnlSpeed + newSize - a[i];
          a[i] := newSize;
          if a[i] == full {
            chunksWindowStart := chunksWindowStart + 1;
          } else if a[i] > 0 {
            j := j + 1;
          }
        }
        i := i + 1;
      }
      fault := None;
    }

    /**
     * The state a scan leaves (see Downloading): a negative count overflows
     * before anything changes; otherwise the table holds the sizes the
     * window loop recorded, and a scan that is not cut short adds the growth
     * to the completed size, or resets the counters once the downloader has
     * moved on to appending.
     */
    twostate predicate Scanned(obs: Observation, new fault: Option<Exception>)
      reads this, chunksSize, downloader
    {
      old(Valid()) &&
      var n := downloader.ChunkCount;
      if old(chunksSize) == null && n < 0 then
        fault == Some(OVERFLOW_EXCEPTION) && chunksSize == null && chunksWindowStart == old(chunksWindowStart) &&
        DwnlSpeed == old(DwnlSpeed) && DwnlCompleted == old(DwnlCompleted) && DwnlProgress == old(DwnlProgress)
      else
        var r := ScanFrom(obs.files, downloader.ChunkDir, n, obs.chunksActive, obs.chunkSize,
                          old(chunksWindowStart), 0, old(chunksWindowStart), 0, old(Recorded(n)));
        && chunksSize != null && (old(chunksSize) != null ==> chunksSize == old(chunksSize))
        && (old(chunksSize) == null ==> fresh(chunksSize) && chunksSize.Length == n)
        && chunksSize[..] == r.sizes && chunksWindowStart == r.windowStart && fault == r.fault
        && (r.fault.Some? ==>
              DwnlSpeed == r.speed && DwnlCompleted == old(DwnlCompleted) && DwnlProgress == old(DwnlProgress))
        && (r.fault.None? && obs.recheck == DownloadState.Append ==>
              DwnlSpeed == 0 && DwnlCompleted == 0 && DwnlProgress == Some(0.0))
        && (r.fault.None? && obs.recheck != DownloadState.Append ==>
              && DwnlSpeed == r.speed && DwnlCompleted == old(DwnlCompleted) + r.speed
              && DwnlProgress == Percent(DwnlCompleted, downloader.DwnlSize)
              // the completed size moves exactly with the recorded sizes
              && DwnlCompleted - Sum(chunksSize[..]) == old(DwnlCompleted) - Sum(old(Recorded(n))))
    }

    /**
     * One scan of the chunk window (Downloading): allocate the size table on
     * first use (a negative count overflows), run the window loop from the
     * window start, add the growth to the completed size, and reset the
     * counters when the downloader has moved on to appending. An exception
     * in the loop leaves what the loop had done so far.
     */
    method Downloading(obs: Observation) returns (fault: Option<Exception>)
      requires Valid()
      modifies this, chunksSize
      ensures Valid() && DwnlProgressMsg == old(DwnlProgressMsg)
      ensures Scanned(obs, fault)
    {
      var n := downloader.ChunkCount;
      if chunksSize == null {
        if n < 0 {
          return Some(OVERFLOW_EXCEPTION);
        }
        chunksSize := new int[n](_ => 0);
        assert chunksSize[..] == Zeros(n);
      }
      ghost var sizes0 := chunksSize[..];
      var files, dir, active, full := obs.files, downloader.ChunkDir, obs.chunksActive, obs.chunkSize;
      ghost var ws0 := chunksWindowStart;
      fault := ScanWindow(files, n, active, full);
      if fault.Some? {
        return;
      }
      ScanSpeedIsGrowth(files, dir, n, active, full, ws0, 0, ws0, 0, sizes0);
      DwnlCompleted := DwnlCompleted + DwnlSpeed;
      DwnlProgress := Percent(DwnlCompleted, downloader.DwnlSize);
      if obs.recheck == DownloadState.Append {
        DwnlSpeed := 0;
        DwnlCompleted := 0;
        DwnlProgress := Some(0.0);
      }
    }

    /** The chunk table and the window are as they were. */
    twostate predicate TableKept()
      reads this, chunksSize
    {
      && chunksSize == old(chunksSize) && chunksWindowStart == old(chunksWindowStart)
      && (chunksSize != null ==> chunksSize[..] == old(chunksSize[..]))
    }

    /**
     * The state Appending leaves: while the downloader is still appending
     * and the target exists, the completed size is the target's length and
     * the speed is its growth since the last tick; otherwise nothing changes.
     */
    twostate predicate Followed(obs: Observation)
      reads this, downloader
    {
      var target := downloader.DwnlTarget;
      if obs.recheck == DownloadState.Append && target in obs.files then
        && DwnlCompleted == |obs.files[target]| && DwnlCompleted - DwnlSpeed == old(DwnlCompleted)
        && DwnlProgress == Percent(DwnlCompleted, downloader.DwnlSize)
      else
        DwnlSpeed == old(DwnlSpeed) && DwnlCompleted == old(DwnlCompleted) && DwnlProgress == old(DwnlProgress)
    }

    /** Appending: follows the length of the target file being written. */
    method Appending(obs: Observation)
      modifies this`DwnlSpeed, this`DwnlCompleted, this`DwnlProgress
      ensures Followed(obs)
    {
      var target := downloader.DwnlTarget;
      if obs.recheck == DownloadState.Append && target in obs.files {
        var newFileSize := |obs.files[target]|;
        DwnlSpeed := newFileSize - DwnlCompleted;
        DwnlCompleted := newFileSize;
        DwnlProgress := Percent(DwnlCompleted, downloader.DwnlSize);
      }
    }

    /**
     * One timer tick (Tracker_Tick): by the downloader's state, scan the
     * chunk window or follow the append, and set the message. The scanning
     * and appending messages are formatted from the template of the state
     * the tick reads again after its work; the other states show their own
     * template, the error state with the stored exception's text. A
     * finished download shows 100 % and the target's length, and its
     * absence raises FileNotFoundException after the rest is set.
     */
    method Tick(obs: Observation) returns (fault: Option<Exception>)
      requires Valid()
      modifies this, chunksSize
      ensures Valid()
      ensures downloader.State == DownloadState.Download ==>
        && Scanned(obs, fault)
        && DwnlProgressMsg == if fault.None? then Format(Template(obs.recheck), obs.fixed3(DwnlProgress)) else old(DwnlProgressMsg)
      ensures downloader.State == DownloadState.Append ==>
        && fault.None? && TableKept() && Followed(obs)
        && DwnlProgressMsg == Format(Template(obs.recheck), obs.fixed3(Some(DwnlSpeed as real / MB as real)))
      ensures downloader.State == DownloadState.Error ==>
        && fault.None? && TableKept()
        && DwnlSpeed == old(DwnlSpeed) && DwnlCompleted == old(DwnlCompleted) && DwnlProgress == old(DwnlProgress)
        && DwnlProgressMsg == Format(Template(DownloadState.Error), ExceptionText(downloader.DwnlException))
      ensures downloader.State == DownloadState.Finish ==>
        && TableKept() && DwnlProgressMsg == Template(DownloadState.Finish)
        && DwnlSpeed == 0 && DwnlProgress == Some(100.0)
        && var target := downloader.DwnlTarget;
           if target in obs.files then fault.None? && DwnlCompleted == |obs.files[target]|
           else fault == Some(MissingFile(target)) && DwnlCompleted == old(DwnlCompleted)
      ensures downloader.State !in {DownloadState.Download, DownloadState.Append, DownloadState.Error, DownloadState.Finish} ==>
        && fault.None? && TableKept()
        && DwnlSpeed == old(DwnlSpeed) && DwnlCompleted == old(DwnlCompleted) && DwnlProgress == old(DwnlProgress)
        && DwnlProgressMsg == Template(downloader.State)
    {
      fault := None;
      match downloader.State
      case Download =>
        fault := Downloading(obs);
        if fault.None? {
          DwnlProgressMsg := Format(Template(obs.recheck), obs.fixed3(DwnlProgress));
        }
      case Append =>
        Appending(obs);
        DwnlProgressMsg := Format(Template(obs.recheck), obs.fixed3(Some(DwnlSpeed as real / MB as real)));
      case Error =>
        DwnlProgressMsg := Format(Template(DownloadState.Error), ExceptionText(downloader.DwnlException));
      case Finish =>
        DwnlProgressMsg := Template(DownloadState.Finish);
        DwnlSpeed := 0;
        DwnlProgress := Some(100.0);
        var target := downloader.DwnlTarget;
        if target in obs.files {
          DwnlCompleted := |obs.files[target]|;
        } else {
          fault := Some(MissingFile(target));
        }
      case _ =>
        DwnlProgressMsg := Template(downloader.State);
    }
  }
}
