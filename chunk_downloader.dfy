/**
 * Resumable transfer of one chunk (Downloader/ChunkDownloader.cs). The chunk
 * file system is a map from path to contents; the HTTP response is the
 * sequence of outcomes of the buffered reads of its body.
 */
module ChunkTransfer {
  import opened Common
  import opened ChunkPlan

  const BUFFER_SIZE: int := 8192

  /** What one ReadAsync into the buffer can deliver: at most BUFFER_SIZE bytes. */
  type Buffer = s: seq<byte> | |s| <= BUFFER_SIZE

  /** One read of the response stream: bytes (none at end of stream) or an exception. */
  datatype Read = Data(bytes: Buffer) | Fault(error: Exception)

  /**
   * The answer to the ranged request: an exception raised before the chunk
   * file is opened (GetResponse, GetResponseStream, opening the file), or
   * the pieces of the body in order. Reads past the end of the list return
   * zero bytes.
   */
  datatype Response = Refused(error: Exception) | Body(pieces: seq<Read>)

  /** The HTTP request of one Download call: not made, or made for [from, to] and released. */
  datatype Request = NoRequest | Released(from: int, to: int)

  /** The bytes the copy loop appends and the exception that ended it, if any. */
  datatype Copy = Copy(written: seq<byte>, error: Option<Exception>)

  /**
   * The do-while copy loop: append each buffer until a zero-length read or
   * an exception. What it writes is a prefix of the body's data, and an
   * exception that ends it is one that a read raised.
   */
  function CopyLoop(pieces: seq<Read>): (c: Copy)
    ensures |c.written| <= |Concat(pieces)| && Concat(pieces)[..|c.written|] == c.written
    ensures c.error.Some? ==> Fault(c.error.value) in pieces
  {
    if pieces == [] then Copy([], None)
    else match pieces[0]
      case Fault(e) => Copy([], Some(e))
      case Data(b) =>
        if |b| == 0 then Copy([], None)
        else var rest := CopyLoop(pieces[1..]); Copy(b + rest.written, rest.error)
  }

  /** The concatenation of the data of a list of pieces. */
  function Concat(pieces: seq<Read>): seq<byte>
  {
    if pieces == [] then []
    else (if pieces[0].Data? then pieces[0].bytes else []) + Concat(pieces[1..])
  }

  /** Reads that all delivered data. */
  predicate AllData(pieces: seq<Read>)
  {
    forall k :: 0 <= k < |pieces| ==> pieces[k].Data? && |pieces[k].bytes| > 0
  }

  /** A body delivered in non-empty buffers and then closed is written completely and in order. */
  lemma {:induction false} CopiesWholeBody(pieces: seq<Read>, tail: seq<Read>)
    requires AllData(pieces)
    requires tail == [] || tail[0] == Data([])
    ensures CopyLoop(pieces + tail) == Copy(Concat(pieces), None)
  {
    if pieces != [] {
      assert (pieces + tail)[1..] == pieces[1..] + tail;
      CopiesWholeBody(pieces[1..], tail);
    } else {
      assert pieces + tail == tail;
    }
  }

  /** A body cut short by an exception leaves exactly the bytes delivered before it. */
  lemma {:induction false} CopiesPrefixBeforeFault(pieces: seq<Read>, e: Exception, tail: seq<Read>)
    requires AllData(pieces)
    ensures CopyLoop(pieces + [Fault(e)] + tail) == Copy(Concat(pieces), Some(e))
  {
    if pieces != [] {
      assert (pieces + [Fault(e)] + tail)[1..] == pieces[1..] + [Fault(e)] + tail;
      CopiesPrefixBeforeFault(pieces[1..], e, tail);
    } else {
      assert pieces + [Fault(e)] + tail == [Fault(e)] + tail;
    }
  }

  /** Length of an existing chunk file, 0 when absent. */
  function ExistingLength(files: map<string, seq<byte>>, path: string): nat
  {
    if path in files then |files[path]| else 0
  }

  /** Contents FileMode.Append starts from: the existing file, or a new empty one. */
  function Existing(files: map<string, seq<byte>>, path: string): seq<byte>
  {
    if path in files then files[path] else []
  }

  /** The source's test for whether anything is left to fetch: start strictly before the inclusive end. */
  predicate NeedsRequest(start: int, end: int)
  {
    start < end
  }

  /** The chunk file after one Download call, as a function of the inputs. */
  function Transferred(files: map<string, seq<byte>>, path: string, start: int, end: int, response: Response): map<string, seq<byte>>
  {
    if !NeedsRequest(start, end) || response.Refused? then files
    else files[path := Existing(files, path) + CopyLoop(response.pieces).written]
  }

  /**
   * The do-while copy loop over the response stream: read a buffer and
   * append it to the file, until a read returns zero bytes (whose empty
   * write changes nothing). A read past the last piece returns zero bytes;
   * a faulting read stops the loop with the bytes appended so far.
   */
  method CopyBody(existing: seq<byte>, pieces: seq<Read>) returns (content: seq<byte>, error: Option<Exception>)
    ensures content == existing + CopyLoop(pieces).written
    ensures error == CopyLoop(pieces).error
  {
    content := existing;
    var k := 0;
    while true
      invariant 0 <= k <= |pieces|
      invariant content + CopyLoop(pieces[k..]).written == existing + CopyLoop(pieces).written
      invariant CopyLoop(pieces[k..]).error == CopyLoop(pieces).error
      decreases |pieces| - k
    {
      var r := if k < |pieces| then pieces[k] else Data([]);
      if r.Fault? {
        assert CopyLoop(pieces[k..]) == Copy([], Some(r.error));
        assert content + [] == content;
        return content, Some(r.error);
      }
      if |r.bytes| == 0 {
        assert k == |pieces| ==> pieces[k..] == [];
        assert CopyLoop(pieces[k..]) == Copy([], None);
        assert content + [] == content;
        return content, None;
      }
      content := content + r.bytes;
      assert pieces[k..][1..] == pieces[k + 1..];
      k := k + 1;
    }
  }

  /** Downloads one chunk into its cache file, resuming after the bytes already there. */
  class ChunkDownloader {
    const chunkSource: string
    const chunkTarget: string
    var chunkStart: int
    const chunkEnd: int
    var DwnlException: Option<Exception>

    constructor (chunkSource: string, chunkTarget: string, chunkStart: int, chunkEnd: int)
      ensures this.chunkSource == chunkSource && this.chunkTarget == chunkTarget
      ensures this.chunkStart == chunkStart && this.chunkEnd == chunkEnd
      ensures DwnlException == None
    {
      this.chunkSource := chunkSource;
      this.chunkTarget := chunkTarget;
      this.chunkStart := chunkStart;
      this.chunkEnd := chunkEnd;
      DwnlException := None;
    }

    /**
     * The download logic: advance the start by the existing file's length,
     * then, if anything is left, request [start, end] and append the body to
     * the file buffer by buffer. Exceptions of the response and of the copy
     * loop are stored, not propagated, and a request that was made is always
     * released. Building the request (WebRequest.CreateHttp, AddRange) runs
     * before the try; it cannot fail for the ranges modelled here
     * (0 <= start < end, on a source already reached), so it is not modelled.
     */
    method Download(files: map<string, seq<byte>>, response: Response)
      returns (files': map<string, seq<byte>>, request: Request)
      modifies this
      ensures chunkStart == old(chunkStart) + ExistingLength(files, chunkTarget)
      ensures request == if NeedsRequest(chunkStart, chunkEnd) then Released(chunkStart, chunkEnd) else NoRequest
      ensures files' == Transferred(files, chunkTarget, chunkStart, chunkEnd, response)
      ensures files'.Keys == files.Keys + (if request.Released? && response.Body? then {chunkTarget} else {})
      ensures DwnlException ==
        if !NeedsRequest(chunkStart, chunkEnd) then old(DwnlException)
        else if response.Refused? then Some(response.error)
        else if CopyLoop(response.pieces).error.Some? then CopyLoop(response.pieces).error
        else old(DwnlException)
    {
      chunkStart := chunkStart + ExistingLength(files, chunkTarget);
      files' := files;
      request := NoRequest;
      if chunkStart < chunkEnd {
        // the request is created for exactly the remaining range
        var from, to := chunkStart, chunkEnd;
        match response {
        case Refused(e) =>
          DwnlException := Some(e);
        case Body(pieces) =>
          var content, error := CopyBody(Existing(files, chunkTarget), pieces);
          if error.Some? {
            DwnlException := error;
          }
          files' := files[chunkTarget := content];
        }
        // finally: the request is released on every path
        request := Released(from, to);
      }
    }
  }

  // ---------------------------------------------------------------------
  // Resuming a chunk of the plan
  // ---------------------------------------------------------------------

  /**
   * As written, the skip test treats a full chunk that misses only its last
   * byte as complete: its resumed start equals its inclusive end.
   */
  lemma LastByteOfFullChunkNeverFetched(rangeSupported: bool, chunkSize: int, totalSize: int, n: int, size: int, id: int)
    requires Planned(rangeSupported, chunkSize, totalSize, n, size)
    requires 0 <= id && id + 1 < n
    ensures var start := RangeStart(size, id);
      var have := size - 1;
      have < RangeEnd(size, totalSize, id) - start + 1 && !NeedsRequest(start + have, RangeEnd(size, totalSize, id))
  {
    Contiguous(rangeSupported, chunkSize, totalSize, n, size, id);
  }

  /** The intended last byte of a chunk: clamped to the last byte of the file. */
  function RangeEndCorrected(chunkSize: int, totalSize: int, id: int): int
  {
    Min(chunkSize * id + chunkSize - 1, totalSize - 1)
  }

  /** The intended skip test for an inclusive end: fetch while the start has not passed the end. */
  predicate NeedsRequestCorrected(start: int, end: int)
  {
    start <= end
  }

  /** Number of bytes chunk id holds when complete. */
  function DeclaredLength(chunkSize: int, totalSize: int, id: int): int
  {
    Min(chunkSize, totalSize - chunkSize * id)
  }

  /**
   * With the corrected end and test, a chunk of the plan holding `have`
   * bytes is fetched exactly when bytes are missing, and the request asks
   * for exactly the missing ones.
   */
  lemma CorrectedFetchesExactlyMissing(rangeSupported: bool, chunkSize: int, totalSize: int, n: int, size: int, id: int, have: int)
    requires Planned(rangeSupported, chunkSize, totalSize, n, size)
    requires 0 <= id < n && 0 <= have
    ensures var start := RangeStart(size, id);
      var end := RangeEndCorrected(size, totalSize, id);
      DeclaredLength(size, totalSize, id) > 0 &&
      (NeedsRequestCorrected(start + have, end) <==> have < DeclaredLength(size, totalSize, id)) &&
      end - (start + have) + 1 == DeclaredLength(size, totalSize, id) - have
  {
    PlanIsCeiling(rangeSupported, chunkSize, totalSize, n, size);
    MulLeq(size, id, n - 1);
    assert size * id + size == size * (id + 1);
  }
}
