/**
 * The download job (Downloader/Download.cs): its size, its chunk data built
 * with the 4 MiB chunk size limit, its tracking counters, and the file name
 * derived from the response's path and content type.
 */
module DownloadJob {
  import opened Common
  import opened ChunkPlan
  import opened ChunkFiles

  const MB: int := 1024 * 1024

  // ---------------------------------------------------------------------
  // File name derivation
  // ---------------------------------------------------------------------

  /** s ends with r. */
  predicate IsSuffix(r: string, s: string)
  {
    |r| <= |s| && s[|s| - |r|..] == r
  }

  /**
   * s.Split(sep).Last(): the text after the last sep, or all of s when it
   * has none.
   */
  function LastSegment(s: string, sep: char): (r: string)
    ensures IsSuffix(r, s)
    ensures sep !in r
    ensures |r| == |s| || s[|s| - |r| - 1] == sep
  {
    if s == [] then []
    else if s[|s| - 1] == sep then []
    else
      var r' := LastSegment(s[..|s| - 1], sep);
      assert s[..|s| - 1][|s| - 1 - |r'|..] == r';
      assert s[|s| - |r'| - 1..] == r' + [s[|s| - 1]];
      r' + [s[|s| - 1]]
  }

  /**
   * FindFileName: the last segment of the response's absolute path, given
   * an extension from the content type's last '/'-part when it has no '.'.
   */
  function FindFileName(absolutePath: string, contentType: string): (name: string)
    ensures var segment := LastSegment(absolutePath, '/');
      |segment| <= |name| && name[..|segment|] == segment
    ensures '/' !in name
    ensures '.' in name
  {
    var physicalPath := LastSegment(absolutePath, '/');
    if '.' in physicalPath then physicalPath
    else
      var extension := LastSegment(contentType, '/');
      assert (physicalPath + "." + extension)[|physicalPath|] == '.';
      physicalPath + "." + extension
  }

  /** A path whose last segment has an extension yields that segment unchanged. */
  lemma FileNameKeepsExtension(directory: string, name: string, contentType: string)
    requires '/' !in name && '.' in name
    ensures FindFileName(directory + "/" + name, contentType) == name
  {
    LastSegmentAfterSeparator(directory, name);
  }

  /** A bare segment gets the content type's subtype as its extension. */
  lemma FileNameFromContentType(directory: string, name: string, mediaType: string, subtype: string)
    requires '/' !in name && '.' !in name && '/' !in subtype
    ensures FindFileName(directory + "/" + name, mediaType + "/" + subtype) == name + "." + subtype
  {
    LastSegmentAfterSeparator(directory, name);
    LastSegmentAfterSeparator(mediaType, subtype);
  }

  /** The last segment of prefix + "/" + tail is tail when tail holds no '/'. */
  lemma LastSegmentAfterSeparator(prefix: string, tail: string)
    requires '/' !in tail
    ensures LastSegment(prefix + "/" + tail, '/') == tail
  {
    var s := prefix + "/" + tail;
    var seg := LastSegment(s, '/');
    assert s[|s| - |tail| - 1] == '/';
    if |seg| != |tail| {
      assert false;
    }
    assert seg == s[|s| - |seg|..] == tail;
  }

  // ---------------------------------------------------------------------
  // The job
  // ---------------------------------------------------------------------

  /** A download job: source, target, size and its chunk data. */
  class Download {
    const CHUNK_SIZE_LIMIT: int
    const DwnlSource: string
    var DwnlTarget: string
    const DwnlSize: int
    const DwnlChunks: Chunks
    /** Bytes completed and bytes gained per tick, written by the engine's tracker. */
    var DwnlSizeCompleted: int
    var DwnlSpeed: int

    /**
     * DwnlProgress: the completed share of the size, in percent; none for
     * an empty size, 100 when everything is completed.
     */
    function DwnlProgress(): (p: Option<real>)
      reads this
      ensures p.None? <==> DwnlSize == 0
      ensures 0 <= DwnlSizeCompleted <= DwnlSize ==> p.None? || 0.0 <= p.value <= 100.0
      ensures DwnlSizeCompleted == DwnlSize > 0 ==> p == Some(100.0)
    {
      Percent(DwnlSizeCompleted, DwnlSize)
    }

    /**
     * AppendProgress: the target's length as a share of the size while the
     * target exists, and 0 before it does.
     */
    function AppendProgress(files: Files): (p: Option<real>)
      reads this
      ensures DwnlTarget !in files ==> p == Some(0.0)
      ensures DwnlTarget in files ==> (p.None? <==> DwnlSize == 0)
      ensures DwnlTarget in files && |files[DwnlTarget]| == DwnlSize > 0 ==> p == Some(100.0)
      ensures DwnlTarget in files && |files[DwnlTarget]| <= DwnlSize ==> p.None? || 0.0 <= p.value <= 100.0
    {
      if DwnlTarget in files then Percent(|files[DwnlTarget]|, DwnlSize) else Some(0.0)
    }

    /**
     * Creates the job from the size lookup's result and the range probe's
     * verdict; the chunk data is built with the 4 MiB limit.
     */
    constructor (dwnlSource: string, dwnlTarget: string, size: int, rangeSupported: bool, cacheDir: string)
      requires ChunkCountFor(rangeSupported, 4 * MB, size) >= 0
      ensures CHUNK_SIZE_LIMIT == 4 * MB == 4194304
      ensures DwnlSource == dwnlSource && DwnlTarget == dwnlTarget && DwnlSize == size
      ensures fresh(DwnlChunks) && fresh(DwnlChunks.ChunkProgress)
      ensures DwnlChunks.ChunkSource == dwnlSource && DwnlChunks.TotalSize == size
      ensures DwnlChunks.ChunkCount == ChunkCountFor(rangeSupported, CHUNK_SIZE_LIMIT, size)
      ensures DwnlChunks.ChunkSize == EffectiveChunkSize(rangeSupported, CHUNK_SIZE_LIMIT, size)
      ensures DwnlChunks.ChunkProgress.Length == DwnlChunks.ChunkCount
      ensures forall i :: 0 <= i < DwnlChunks.ChunkCount ==> DwnlChunks.ChunkProgress[i] == 0
      ensures DwnlSizeCompleted == 0 && DwnlSpeed == 0
    {
      CHUNK_SIZE_LIMIT := 4 * MB;
      DwnlSource := dwnlSource;
      DwnlTarget := dwnlTarget;
      DwnlSize := size;
      DwnlSizeCompleted, DwnlSpeed := 0, 0;
      DwnlChunks := new Chunks(dwnlSource, 4 * MB, size, rangeSupported, cacheDir);
    }
  }
}
