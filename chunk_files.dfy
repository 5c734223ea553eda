/**
 * The chunk cache files of a job and the two passes over them that both
 * engines share (Downloader/DownloadEngine.cs Appending/Completing and
 * Downloader/Downloader.cs Append/Complete): stitching the chunk files into
 * the target in ascending id order, and deleting them afterwards. The file
 * system is a map from path to contents.
 */
module ChunkFiles {
  import opened Common
  import opened ChunkPlan

  type Files = map<string, seq<byte>>

  /** File.OpenRead of an absent path raises FileNotFoundException. */
  function MissingFile(path: string): Exception
  {
    Exception("FileNotFoundException: " + path)
  }

  /** The first id in [from, n) whose chunk file is absent, or n when all are present. */
  function FirstMissing(files: Files, cacheDir: string, from: int, n: int): (m: int)
    requires from <= n
    ensures from <= m <= n
    ensures forall i :: from <= i < m ==> ChunkPath(cacheDir, i) in files
    ensures m < n ==> ChunkPath(cacheDir, m) !in files
    decreases n - from
  {
    if from == n then n
    else if ChunkPath(cacheDir, from) !in files then from
    else FirstMissing(files, cacheDir, from + 1, n)
  }

  /** The contents of chunk files 0, ..., k - 1, one after the other. */
  function Stitched(files: Files, cacheDir: string, k: int): seq<byte>
    requires forall i :: 0 <= i < k ==> ChunkPath(cacheDir, i) in files
  {
    if k <= 0 then [] else Stitched(files, cacheDir, k - 1) + files[ChunkPath(cacheDir, k - 1)]
  }

  /** Stitching more chunks only extends what was stitched before. */
  lemma {:induction false} StitchedPrefix(files: Files, cacheDir: string, i: int, k: int)
    requires 0 <= i <= k
    requires forall c :: 0 <= c < k ==> ChunkPath(cacheDir, c) in files
    ensures |Stitched(files, cacheDir, i)| <= |Stitched(files, cacheDir, k)|
    ensures Stitched(files, cacheDir, k)[..|Stitched(files, cacheDir, i)|] == Stitched(files, cacheDir, i)
    decreases k - i
  {
    if i < k {
      StitchedPrefix(files, cacheDir, i, k - 1);
      var s := Stitched(files, cacheDir, k - 1);
      assert Stitched(files, cacheDir, k)[..|s|] == s;
    }
  }

  /** The bytes of t from offset on begin with chunk, unchanged. */
  predicate SitsAt(t: seq<byte>, offset: int, chunk: seq<byte>)
  {
    0 <= offset && offset + |chunk| <= |t| && t[offset..offset + |chunk|] == chunk
  }

  /**
   * In the stitched target, chunk i's file occupies the bytes right after
   * the files of chunks 0, ..., i - 1, unchanged.
   */
  lemma StitchedSlice(files: Files, cacheDir: string, i: int, k: int)
    requires 0 <= i < k
    requires forall c :: 0 <= c < k ==> ChunkPath(cacheDir, c) in files
    ensures SitsAt(Stitched(files, cacheDir, k), |Stitched(files, cacheDir, i)|, files[ChunkPath(cacheDir, i)])
  {
    StitchedExtends(files, cacheDir, i, k);
    SliceAfterPrefix(Stitched(files, cacheDir, k), Stitched(files, cacheDir, i), files[ChunkPath(cacheDir, i)]);
  }

  /** The stitch of k chunks starts with the stitch of chunks 0, ..., i - 1 followed by chunk i. */
  lemma StitchedExtends(files: Files, cacheDir: string, i: int, k: int)
    requires 0 <= i < k
    requires forall c :: 0 <= c < k ==> ChunkPath(cacheDir, c) in files
    ensures var s := Stitched(files, cacheDir, i) + files[ChunkPath(cacheDir, i)];
      |s| <= |Stitched(files, cacheDir, k)| && Stitched(files, cacheDir, k)[..|s|] == s
  {
    StitchedPrefix(files, cacheDir, i + 1, k);
    assert Stitched(files, cacheDir, i + 1) == Stitched(files, cacheDir, i) + files[ChunkPath(cacheDir, i)];
  }

  /** A sequence that starts with pre + chunk holds chunk right after pre. */
  lemma SliceAfterPrefix(whole: seq<byte>, pre: seq<byte>, chunk: seq<byte>)
    requires |pre + chunk| <= |whole| && whole[..|pre + chunk|] == pre + chunk
    ensures |pre| + |chunk| <= |whole| && whole[|pre|..|pre| + |chunk|] == chunk
  {
    assert whole[|pre|..|pre| + |chunk|] == whole[..|pre + chunk|][|pre|..];
  }

  /** The paths of the chunk files 0, ..., n - 1. */
  function ChunkPaths(cacheDir: string, n: int): set<string>
  {
    set i | 0 <= i < n :: ChunkPath(cacheDir, i)
  }

  /**
   * The append pass: create (truncate) the target, then copy the chunk files
   * into it in ascending id order. An absent chunk file raises
   * FileNotFoundException, leaving the target with the chunks copied so far.
   */
  method AppendChunks(files: Files, cacheDir: string, n: int, target: string)
    returns (files': Files, missing: Option<int>)
    requires forall i :: 0 <= i < n ==> ChunkPath(cacheDir, i) != target
    ensures var m := FirstMissing(files, cacheDir, 0, Max(n, 0));
      && missing == (if m < n then Some(m) else None)
      && files' == files[target := Stitched(files, cacheDir, m)]
  {
    var content: seq<byte> := [];
    files' := files[target := content];
    missing := None;
    var i := 0;
    while i < n
      invariant 0 <= i <= Max(n, 0)
      invariant forall c :: 0 <= c < i ==> ChunkPath(cacheDir, c) in files
      invariant FirstMissing(files, cacheDir, 0, Max(n, 0)) == FirstMissing(files, cacheDir, i, Max(n, 0))
      invariant files' == files[target := content] && content == Stitched(files, cacheDir, i)
    {
      var path := ChunkPath(cacheDir, i);
      assert path in files' <==> path in files;
      if path !in files' {
        missing := Some(i);
        return;
      }
      content := content + files'[path];
      files' := files'[target := content];
      i := i + 1;
    }
  }

  /**
   * The cleanup pass: File.Delete each chunk file (deleting an absent file
   * is not an error). Everything else is left as it was.
   */
  method DeleteChunks(files: Files, cacheDir: string, n: int) returns (files': Files)
    ensures files' == files - ChunkPaths(cacheDir, n)
    ensures forall i :: 0 <= i < n ==> ChunkPath(cacheDir, i) !in files'
    ensures forall p :: p in files && p !in ChunkPaths(cacheDir, n) ==> p in files' && files'[p] == files[p]
  {
    files' := files;
    var i := 0;
    while i < n
      invariant 0 <= i <= Max(n, 0)
      invariant files' == files - ChunkPaths(cacheDir, i)
    {
      files' := files' - {ChunkPath(cacheDir, i)};
      assert ChunkPaths(cacheDir, i + 1) == ChunkPaths(cacheDir, i) + {ChunkPath(cacheDir, i)};
      i := i + 1;
    }
    if n < 0 {
      assert ChunkPaths(cacheDir, n) == {};
    }
  }
}
