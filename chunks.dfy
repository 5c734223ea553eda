/**
 * Chunk planning of a download job (Downloader/Chunks.cs): how many chunks
 * there are, which inclusive byte range each covers, and which cache file
 * holds it. The HTTP range probe becomes its outcome, a boolean.
 */
module ChunkPlan {
  import opened Common

  /** HttpStatusCode.Redirect. */
  const REDIRECT_STATUS: int := 302

  /** C#'s long division truncates toward zero. */
  function TruncDiv(a: int, b: int): int
    requires b > 0
  {
    if a >= 0 then a / b else -((-a) / b)
  }

  /** C#'s long remainder takes the sign of the dividend. */
  function TruncRem(a: int, b: int): int
    requires b > 0
  {
    a - b * TruncDiv(a, b)
  }

  /** The probe answers a ranged request with a success status and "Accept-Ranges: bytes". */
  predicate ProbeAcceptsRanges(status: int, acceptRanges: Option<string>)
  {
    status < REDIRECT_STATUS && acceptRanges == Some("bytes")
  }

  /**
   * FindChunkCount: one chunk per started chunkSize bytes with range
   * support, else one chunk. With range support there are chunks exactly
   * when the size is positive (CountIsCeiling gives their number).
   */
  function ChunkCountFor(rangeSupported: bool, chunkSize: int, totalSize: int): (n: int)
    requires chunkSize > 0
    ensures !rangeSupported ==> n == 1
    ensures rangeSupported ==> (n > 0 <==> totalSize > 0)
    ensures rangeSupported && totalSize == 0 ==> n == 0
  {
    if rangeSupported then
      TruncDiv(totalSize, chunkSize) + (if TruncRem(totalSize, chunkSize) > 0 then 1 else 0)
    else 1
  }

  /**
   * The chunk size the constructor keeps: the whole size when the job is a
   * single chunk (no range support, or a positive size that fits one
   * chunk), the requested size otherwise.
   */
  function EffectiveChunkSize(rangeSupported: bool, chunkSize: int, totalSize: int): (size: int)
    requires chunkSize > 0
    ensures !rangeSupported ==> size == totalSize
    ensures rangeSupported && 0 < totalSize <= chunkSize ==> size == totalSize
    ensures rangeSupported && (totalSize <= 0 || totalSize > chunkSize) ==> size == chunkSize
  {
    if rangeSupported && totalSize > 0 then
      CountIsCeiling(chunkSize, totalSize);
      var n := ChunkCountFor(rangeSupported, chunkSize, totalSize);
      MulLeq(chunkSize, Min(1, n - 1), n - 1);
      MulLeq(chunkSize, Min(n, 1), 1);
      if n != 1 then chunkSize else totalSize
    else
      if ChunkCountFor(rangeSupported, chunkSize, totalSize) != 1 then chunkSize else totalSize
  }

  /** First byte of chunk id. */
  function RangeStart(chunkSize: int, id: int): int
  {
    chunkSize * id
  }

  /** Last byte of chunk id as the source computes it (inclusive, clamped to totalSize, not totalSize - 1). */
  function RangeEnd(chunkSize: int, totalSize: int, id: int): int
  {
    Min(chunkSize * id + chunkSize - 1, totalSize)
  }

  /** Cache file of chunk id: the cache directory, then "/file {id}.chunk". */
  function ChunkPath(cacheDir: string, id: int): string
  {
    cacheDir + "/file " + Decimal(id) + ".chunk"
  }

  // ---------------------------------------------------------------------
  // The chunk data of a job
  // ---------------------------------------------------------------------

  /** Chunk meta-data of one job and its per-chunk progress counters. */
  class Chunks {
    const ChunkSize: int
    const ChunkCount: int
    const ChunkSource: string
    /** The cache directory named by the hash of source and chunk size (the hash is an input). */
    const ChunkCacheDir: string
    const ChunkProgress: array<int>
    const TotalSize: int

    /**
     * Builds the chunk data from the range probe's verdict. The count must be
     * non-negative, because the progress array is allocated with it.
     */
    constructor (chunkSource: string, chunkSize: int, totalSize: int, rangeSupported: bool, cacheDir: string)
      requires chunkSize > 0
      requires ChunkCountFor(rangeSupported, chunkSize, totalSize) >= 0
      ensures ChunkSource == chunkSource && TotalSize == totalSize && ChunkCacheDir == cacheDir
      ensures ChunkCount == ChunkCountFor(rangeSupported, chunkSize, totalSize)
      ensures ChunkSize == EffectiveChunkSize(rangeSupported, chunkSize, totalSize)
      ensures fresh(ChunkProgress) && ChunkProgress.Length == ChunkCount
      ensures forall i :: 0 <= i < ChunkCount ==> ChunkProgress[i] == 0
    {
      TotalSize := totalSize;
      ChunkSource := chunkSource;
      var count := ChunkCountFor(rangeSupported, chunkSize, totalSize);
      ChunkCount := count;
      ChunkSize := if count != 1 then chunkSize else totalSize;
      ChunkCacheDir := cacheDir;
      ChunkProgress := new int[count](_ => 0);
    }

    /** The cache file of chunk id: a ".chunk" file inside the cache directory. */
    function ChunkTarget(id: int): (path: string)
      ensures |ChunkCacheDir| < |path| && path[..|ChunkCacheDir|] == ChunkCacheDir && path[|ChunkCacheDir|] == '/'
      ensures |path| >= 6 && path[|path| - 6..] == ".chunk"
    {
      var path := ChunkPath(ChunkCacheDir, id);
      assert path == ChunkCacheDir + ("/file " + Decimal(id)) + ".chunk";
      path
    }

    /** The first byte of chunk id: right after the full chunks before it. */
    function ChunkStart(id: int): (start: int)
      ensures id >= 0 && ChunkSize >= 0 ==> start >= 0
      ensures start == RangeStart(ChunkSize, id - 1) + ChunkSize
    {
      if id >= 0 && ChunkSize >= 0 then
        MulLeq(ChunkSize, 0, id);
        RangeStart(ChunkSize, id)
      else
        RangeStart(ChunkSize, id)
    }

    /**
     * The last byte of chunk id (inclusive): the end of its slot unless
     * that passes the total size, where it is clamped. A chunk that starts
     * within the file is not empty.
     */
    function ChunkEnd(id: int): (end: int)
      ensures end <= TotalSize && end <= ChunkStart(id) + ChunkSize - 1
      ensures end < TotalSize ==> end == ChunkStart(id) + ChunkSize - 1
      ensures ChunkSize > 0 && ChunkStart(id) <= TotalSize ==> ChunkStart(id) <= end
    {
      RangeEnd(ChunkSize, TotalSize, id)
    }
  }

  // ---------------------------------------------------------------------
  // Properties of the plan
  // ---------------------------------------------------------------------

  lemma MulLeq(a: int, b: int, c: int)
    requires a >= 0 && b <= c
    ensures a * b <= a * c
  {
  }

  /** With range support, the count is the ceiling of totalSize / chunkSize. */
  lemma CountIsCeiling(chunkSize: int, totalSize: int)
    requires chunkSize > 0 && totalSize > 0
    ensures var n := ChunkCountFor(true, chunkSize, totalSize);
      n >= 1 && (n - 1) * chunkSize < totalSize <= n * chunkSize
  {
    var q, r := totalSize / chunkSize, totalSize % chunkSize;
    assert totalSize == chunkSize * q + r && 0 <= r < chunkSize;
    var n := ChunkCountFor(true, chunkSize, totalSize);
    if r > 0 {
      assert n == q + 1;
      assert (n - 1) * chunkSize == chunkSize * q;
      assert n * chunkSize == chunkSize * q + chunkSize;
    } else {
      assert n == q;
      assert q >= 1;
      assert (n - 1) * chunkSize == chunkSize * q - chunkSize;
    }
  }

  /** Without range support there is exactly one chunk, and it is as large as the file. */
  lemma SingleChunkWithoutRanges(status: int, acceptRanges: Option<string>, chunkSize: int, totalSize: int)
    requires chunkSize > 0
    requires !ProbeAcceptsRanges(status, acceptRanges)
    ensures ChunkCountFor(ProbeAcceptsRanges(status, acceptRanges), chunkSize, totalSize) == 1
    ensures EffectiveChunkSize(ProbeAcceptsRanges(status, acceptRanges), chunkSize, totalSize) == totalSize
  {
  }

  /** A resource of unknown length (Content-Length -1) gets no chunks at all under range support. */
  lemma UnknownLengthHasNoChunks(chunkSize: int)
    requires chunkSize > 1
    ensures ChunkCountFor(true, chunkSize, -1) == 0
  {
    assert TruncDiv(-1, chunkSize) == 0;
  }

  /** The plan of a job of positive size: count and effective size. */
  ghost predicate Planned(rangeSupported: bool, chunkSize: int, totalSize: int, n: int, size: int)
  {
    chunkSize > 0 && totalSize > 0 &&
    n == ChunkCountFor(rangeSupported, chunkSize, totalSize) &&
    size == EffectiveChunkSize(rangeSupported, chunkSize, totalSize)
  }

  /** In every plan of a positive size: 1 <= n, and (n - 1) * size < totalSize <= n * size. */
  lemma {:induction false} PlanIsCeiling(rangeSupported: bool, chunkSize: int, totalSize: int, n: int, size: int)
    requires Planned(rangeSupported, chunkSize, totalSize, n, size)
    ensures n >= 1 && size > 0 && (n - 1) * size < totalSize <= n * size
  {
    if rangeSupported {
      CountIsCeiling(chunkSize, totalSize);
    }
  }

  /** Consecutive chunks start exactly one chunk size apart, and each ends where the next begins. */
  lemma Contiguous(rangeSupported: bool, chunkSize: int, totalSize: int, n: int, size: int, id: int)
    requires Planned(rangeSupported, chunkSize, totalSize, n, size)
    requires 0 <= id && id + 1 < n
    ensures RangeStart(size, id + 1) == RangeStart(size, id) + size
    ensures RangeEnd(size, totalSize, id) + 1 == RangeStart(size, id + 1)
  {
    PlanIsCeiling(rangeSupported, chunkSize, totalSize, n, size);
    MulLeq(size, id + 1, n - 1);
    assert size * (id + 1) == size * id + size;
  }

  /** Every chunk of the plan is a non-empty range that does not reach past totalSize. */
  lemma ChunkWithinFile(rangeSupported: bool, chunkSize: int, totalSize: int, n: int, size: int, id: int)
    requires Planned(rangeSupported, chunkSize, totalSize, n, size)
    requires 0 <= id < n
    ensures 0 <= RangeStart(size, id) <= RangeEnd(size, totalSize, id) <= totalSize
  {
    PlanIsCeiling(rangeSupported, chunkSize, totalSize, n, size);
    MulLeq(size, id, n - 1);
    MulLeq(size, 0, id);
  }

  /** Chunks of different ids never overlap. */
  lemma Disjoint(rangeSupported: bool, chunkSize: int, totalSize: int, n: int, size: int, a: int, b: int)
    requires Planned(rangeSupported, chunkSize, totalSize, n, size)
    requires 0 <= a < b < n
    ensures RangeEnd(size, totalSize, a) < RangeStart(size, b)
  {
    PlanIsCeiling(rangeSupported, chunkSize, totalSize, n, size);
    MulLeq(size, a + 1, b);
    assert size * (a + 1) == size * a + size;
  }

  /** Every byte of the file lies in the chunk numbered byteIndex / size. */
  lemma Covers(rangeSupported: bool, chunkSize: int, totalSize: int, n: int, size: int, byteIndex: int)
    requires Planned(rangeSupported, chunkSize, totalSize, n, size)
    requires 0 <= byteIndex < totalSize
    ensures size > 0
    ensures var id := byteIndex / size;
      0 <= id < n && RangeStart(size, id) <= byteIndex <= RangeEnd(size, totalSize, id)
  {
    PlanIsCeiling(rangeSupported, chunkSize, totalSize, n, size);
    var id := byteIndex / size;
    assert byteIndex == size * id + byteIndex % size;
    if id >= n {
      MulLeq(size, n, id);
      assert false;
    }
  }

  /** The last chunk ends at totalSize - 1 when the size divides totalSize, and one byte later otherwise. */
  lemma LastEnd(rangeSupported: bool, chunkSize: int, totalSize: int, n: int, size: int)
    requires Planned(rangeSupported, chunkSize, totalSize, n, size)
    ensures size > 0
    ensures RangeEnd(size, totalSize, n - 1) == if totalSize % size == 0 then totalSize - 1 else totalSize
  {
    PlanIsCeiling(rangeSupported, chunkSize, totalSize, n, size);
    var q, r := totalSize / size, totalSize % size;
    assert totalSize == size * q + r;
    assert size * (n - 1) + size - 1 == n * size - 1;
    if r == 0 {
      if n - 1 < q { MulLeq(size, n, q); }
      if n - 1 > q { MulLeq(size, q + 1, n - 1); }
      assert n - 1 == q - 1;
    } else {
      if n - 1 > q { MulLeq(size, q + 1, n - 1); }
      if n - 1 < q { MulLeq(size, n, q); }
      assert n - 1 == q;
    }
  }

  /** ChunkTarget is injective: the id is the only varying part of the path. */
  lemma ChunkPathInjective(cacheDir: string, a: int, b: int)
    requires ChunkPath(cacheDir, a) == ChunkPath(cacheDir, b)
    ensures a == b
  {
    var p := cacheDir + "/file ";
    var sa, sb := ChunkPath(cacheDir, a), ChunkPath(cacheDir, b);
    assert sa == p + Decimal(a) + ".chunk";
    assert |Decimal(a)| == |Decimal(b)|;
    assert Decimal(a) == sa[|p|..|sa| - 6];
    assert Decimal(b) == sb[|p|..|sb| - 6];
    DecimalInjective(a, b);
  }

  /** The constructor's progress counters start at zero, so they sum to nothing downloaded. */
  lemma FreshProgressSumsToZero(c: Chunks)
    requires c.ChunkCount >= 0 && c.ChunkProgress.Length == c.ChunkCount
    requires forall i :: 0 <= i < c.ChunkCount ==> c.ChunkProgress[i] == 0
    ensures Sum(c.ChunkProgress[..]) == 0
  {
    assert c.ChunkProgress[..] == seq(c.ChunkCount, _ => 0);
    SumZeros(c.ChunkCount);
  }
}
