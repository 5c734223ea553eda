/**
 * The claim-counter scheduler (Downloader/DownloadScheduler.cs). Worker
 * threads claim chunk indices from a shared counter under a lock, check the
 * shared error and download the claimed index. The claim, the check and the
 * download are separate atomic steps; the order of the steps is an input (the
 * schedule), so every interleaving of the threads is one run of Start.
 * DownloadChunk, which the chunk data does not define, is abstract: its
 * outcome for each index is an input.
 */
module Scheduler {
  import opened Common
  import opened ChunkPlan

  const SCHEDULER_LIMIT: int := 10

  /**
   * Where one scheduler thread is: about to claim, holding a claimed index
   * it has not yet checked the error for, downloading a claimed index, or
   * exited.
   */
  datatype Worker = Ready | Holding(index: int) | Downloading(index: int) | Exited

  /** The thread has claimed an index and not yet finished with it. */
  predicate Owns(w: Worker)
  {
    w.Holding? || w.Downloading?
  }

  /** Steps a thread still has before it can exit with nothing claimed. */
  function Weight(w: Worker): nat
  {
    match w
    case Ready => 1
    case Holding(_) => 3
    case Downloading(_) => 2
    case Exited => 0
  }

  /** Some thread of ws owns index c. */
  ghost predicate OwnedBy(ws: seq<Worker>, c: int)
  {
    exists w :: 0 <= w < |ws| && Owns(ws[w]) && ws[w].index == c
  }

  /** Changing thread w only leaves every index owned by another thread owned. */
  lemma OthersKeepOwning(before: seq<Worker>, w: int, x: Worker, c: int)
    requires 0 <= w < |before|
    requires OwnedBy(before, c) && !(Owns(before[w]) && before[w].index == c)
    ensures OwnedBy(before[w := x], c)
  {
    var v :| 0 <= v < |before| && Owns(before[v]) && before[v].index == c;
    assert v != w && before[w := x][v] == before[v];
  }

  class DownloadScheduler {
    const Chunks: Chunks
    var nextChunk: int
    var Error: Option<Exception>
    /** The scheduler threads of the latest Start. */
    var workers: seq<Worker>
    /** Indices handed out under the lock, in order. */
    var claims: seq<int>
    /** The DownloadChunk calls, in order. */
    var downloads: seq<int>

    constructor (chunks: Chunks)
      ensures Chunks == chunks
      ensures nextChunk == 0 && Error == None && workers == [] && claims == [] && downloads == []
    {
      Chunks := chunks;
      nextChunk := 0;
      Error := None;
      workers, claims, downloads := [], [], [];
    }

    /** Some thread owns index c: it claimed c and has not finished with it. */
    ghost predicate Held(c: int)
      reads this
    {
      OwnedBy(workers, c)
    }

    /**
     * The scheduler's invariant, for DownloadChunk failing exactly on the
     * indices of failures with the exceptions mapped there.
     */
    ghost predicate Valid(failures: map<int, Exception>)
      reads this
    {
      var n := Chunks.ChunkCount;
      && 0 <= nextChunk <= n
      // claims are the indices 0, 1, ... in increasing order
      && claims == Range(0, nextChunk)
      // an owned index was claimed, is not yet downloaded, and no other thread owns it
      && (forall w :: 0 <= w < |workers| && Owns(workers[w]) ==>
            0 <= workers[w].index < nextChunk && workers[w].index !in downloads)
      && (forall w, v :: 0 <= w < v < |workers| && Owns(workers[w]) && Owns(workers[v]) ==>
            workers[w].index != workers[v].index)
      // each download is of a claimed index, and no index is downloaded twice
      && Distinct(downloads)
      && (forall k :: 0 <= k < |downloads| ==> 0 <= downloads[k] < nextChunk)
      // without an error every claimed index is downloaded or about to be, and none failed
      && (Error.None? ==> forall c :: 0 <= c < nextChunk ==> c in downloads || Held(c))
      && (Error.None? ==> forall k :: 0 <= k < |downloads| ==> downloads[k] !in failures)
      // a stored error is the exception of a download that failed
      && (Error.Some? ==> exists k :: 0 <= k < |downloads| && downloads[k] in failures && failures[downloads[k]] == Error.value)
      // a thread exits only when the indices ran out or an error was stored
      && (forall w :: 0 <= w < |workers| && workers[w] == Exited ==> Error.Some? || nextChunk == n)
    }

    /** The claim under the lock: thread w takes the next index, or exits when none is left. */
    method Claim(w: int, failures: map<int, Exception>)
      requires Valid(failures) && 0 <= w < |workers| && workers[w] == Ready
      modifies this`nextChunk, this`claims, this`workers
      ensures Valid(failures) && |workers| == old(|workers|)
      ensures if old(nextChunk) < Chunks.ChunkCount then
          nextChunk == old(nextChunk) + 1 && workers == old(workers)[w := Holding(old(nextChunk))]
        else
          nextChunk == old(nextChunk) && workers == old(workers)[w := Exited]
    {
      if nextChunk < Chunks.ChunkCount {
        var current := nextChunk;
        nextChunk := nextChunk + 1;
        claims := claims + [current];
        workers := workers[w := Holding(current)];
        assert Owns(workers[w]) && workers[w].index == current;
        forall c | 0 <= c < nextChunk && Error.None?
          ensures c in downloads || Held(c)
        {
          if c < current && c !in downloads {
            OthersKeepOwning(old(workers), w, workers[w], c);
          }
        }
      } else {
        workers := workers[w := Exited];
        forall c | 0 <= c < nextChunk && Error.None?
          ensures c in downloads || Held(c)
        {
          if c !in downloads {
            OthersKeepOwning(old(workers), w, workers[w], c);
          }
        }
      }
    }

    /** The check of the shared error before the download: a stored error abandons the claimed index. */
    method Check(w: int, failures: map<int, Exception>)
      requires Valid(failures) && 0 <= w < |workers| && workers[w].Holding?
      modifies this`workers
      ensures Valid(failures) && |workers| == old(|workers|)
      ensures workers == old(workers)[w := if Error.Some? then Exited else Downloading(old(workers[w]).index)]
    {
      var i := workers[w].index;
      if Error.Some? {
        workers := workers[w := Exited];
      } else {
        workers := workers[w := Downloading(i)];
        forall c | 0 <= c < nextChunk
          ensures c in downloads || Held(c)
        {
          if c !in downloads {
            if c == i {
              assert Owns(workers[w]) && workers[w].index == c;
            } else {
              OthersKeepOwning(old(workers), w, workers[w], c);
            }
          }
        }
      }
    }

    /**
     * The download of the claimed index. A failing download stores its
     * exception, replacing any stored before, and ends the thread.
     */
    method Fetch(w: int, failures: map<int, Exception>)
      requires Valid(failures) && 0 <= w < |workers| && workers[w].Downloading?
      modifies this`downloads, this`Error, this`workers
      ensures Valid(failures) && |workers| == old(|workers|)
      ensures var i := old(workers[w]).index;
        downloads == old(downloads) + [i] &&
        if i in failures then Error == Some(failures[i]) && workers == old(workers)[w := Exited]
        else Error == old(Error) && workers == old(workers)[w := Ready]
    {
      var i := workers[w].index;
      downloads := downloads + [i];
      if i in failures {
        Error := Some(failures[i]);
        workers := workers[w := Exited];
        assert downloads[|downloads| - 1] == i;
      } else {
        workers := workers[w := Ready];
        if Error.None? {
          forall c | 0 <= c < nextChunk
            ensures c in downloads || Held(c)
          {
            if c !in downloads {
              OthersKeepOwning(old(workers), w, workers[w], c);
            }
          }
        } else {
          ghost var k :| 0 <= k < |old(downloads)| && old(downloads)[k] in failures && failures[old(downloads)[k]] == Error.value;
          assert downloads[k] == old(downloads)[k];
        }
      }
    }

    /**
     * One atomic step of thread w of the Schedule loop: a claim under the
     * lock, the check of the shared error, or the download of the claimed
     * index; an exited thread does nothing.
     */
    method Step(w: int, failures: map<int, Exception>)
      requires Valid(failures) && 0 <= w < |workers|
      modifies this`nextChunk, this`claims, this`workers, this`downloads, this`Error
      ensures Valid(failures) && |workers| == old(|workers|)
      ensures old(workers[w]) == Ready ==>
        Error == old(Error) && downloads == old(downloads) &&
        if old(nextChunk) < Chunks.ChunkCount then
          nextChunk == old(nextChunk) + 1 && workers == old(workers)[w := Holding(old(nextChunk))]
        else
          nextChunk == old(nextChunk) && workers == old(workers)[w := Exited]
      ensures old(workers[w]).Holding? ==>
        nextChunk == old(nextChunk) && Error == old(Error) && downloads == old(downloads) &&
        workers == old(workers)[w := if old(Error).Some? then Exited else Downloading(old(workers[w]).index)]
      ensures old(workers[w]).Downloading? ==>
        var i := old(workers[w]).index;
        nextChunk == old(nextChunk) && downloads == old(downloads) + [i] &&
        if i in failures then Error == Some(failures[i]) && workers == old(workers)[w := Exited]
        else Error == old(Error) && workers == old(workers)[w := Ready]
      ensures old(workers[w]) == Exited ==>
        nextChunk == old(nextChunk) && Error == old(Error) && workers == old(workers) && downloads == old(downloads)
      ensures forall v :: 0 <= v < |workers| && v != w ==> workers[v] == old(workers[v])
      ensures old(workers[w]) != Exited ==> Progress(w) < old(Progress(w))
    {
      match workers[w]
      case Ready => Claim(w, failures);
      case Holding(_) => Check(w, failures);
      case Downloading(_) => Fetch(w, failures);
      case Exited =>
    }

    /** What thread w still has to do: four steps per index left to claim, and its own remaining steps. */
    ghost function Progress(w: int): int
      requires 0 <= w < |workers|
      reads this
    {
      4 * (Chunks.ChunkCount - nextChunk) + Weight(workers[w])
    }

    /** Join thread w: it runs its steps until it exits; no other thread moves. */
    method JoinThread(w: int, failures: map<int, Exception>)
      requires Valid(failures) && 0 <= w < |workers|
      modifies this`nextChunk, this`claims, this`workers, this`downloads, this`Error
      ensures Valid(failures) && |workers| == old(|workers|) && workers[w] == Exited
      ensures forall v :: 0 <= v < |workers| && v != w ==> workers[v] == old(workers[v])
    {
      while workers[w] != Exited
        invariant Valid(failures) && |workers| == old(|workers|)
        invariant forall v :: 0 <= v < |workers| && v != w ==> workers[v] == old(workers[v])
        decreases Progress(w)
      {
        Step(w, failures);
      }
    }

    /**
     * Start: reset the error and the counter, start min(SCHEDULER_LIMIT,
     * ChunkCount) threads, then join them in order, rethrowing the stored
     * error after the first join that finds one. The threads' steps follow
     * the schedule (entries that name no thread are skipped); a thread
     * being joined runs to its end.
     */
    method Start(schedule: seq<int>, failures: map<int, Exception>) returns (thrown: Option<Exception>)
      requires Chunks.ChunkCount >= 0
      modifies this`nextChunk, this`claims, this`workers, this`downloads, this`Error
      ensures Valid(failures) && thrown == Error
      ensures |workers| == Min(SCHEDULER_LIMIT, Chunks.ChunkCount)
      ensures nextChunk <= Chunks.ChunkCount && claims == Range(0, nextChunk)
      ensures Distinct(downloads) && forall k :: 0 <= k < |downloads| ==> 0 <= downloads[k] < Chunks.ChunkCount
      ensures thrown.None? <==> forall c :: 0 <= c < Chunks.ChunkCount ==> c !in failures
      ensures thrown.None? ==> forall w :: 0 <= w < |workers| ==> workers[w] == Exited
      ensures thrown.None? ==> forall c :: 0 <= c < Chunks.ChunkCount ==> c in downloads
      ensures thrown.Some? ==> exists k :: 0 <= k < |downloads| && downloads[k] in failures && failures[downloads[k]] == thrown.value
    {
      Error := None;
      nextChunk := 0;
      claims, downloads := [], [];
      var n := Min(SCHEDULER_LIMIT, Chunks.ChunkCount);
      workers := seq(n, _ => Ready);

      var k := 0;
      while k < |schedule|
        invariant Valid(failures) && |workers| == n
      {
        var w := schedule[k];
        if 0 <= w < n {
          Step(w, failures);
        }
        k := k + 1;
      }

      var w := 0;
      while w < n
        invariant 0 <= w <= n
        invariant Valid(failures) && |workers| == n && (w > 0 ==> Error.None?)
        invariant forall v :: 0 <= v < w ==> workers[v] == Exited
      {
        JoinThread(w, failures);
        if Error.Some? {
          thrown := Error;
          var j :| 0 <= j < |downloads| && downloads[j] in failures && failures[downloads[j]] == Error.value;
          assert 0 <= downloads[j] < Chunks.ChunkCount && downloads[j] in failures;
          return;
        }
        w := w + 1;
      }

      forall c | 0 <= c < Chunks.ChunkCount
        ensures c in downloads
      {
        // every thread has exited, so nothing is owned and the indices ran out
        assert n > 0 && workers[0] == Exited;
        assert !Held(c);
      }
      forall c | 0 <= c < Chunks.ChunkCount
        ensures c !in failures
      {
        assert c in downloads;
        var k :| 0 <= k < |downloads| && downloads[k] == c;
      }
      thrown := Error;
    }
  }

  /** The indices 0, ..., n - 1 as a set. */
  function IndexSet(n: int): (r: set<int>)
    ensures forall c :: c in r <==> 0 <= c < n
    ensures |r| == if n >= 0 then n else 0
  {
    if n <= 0 then {} else IndexSet(n - 1) + {n - 1}
  }

  /** Every index is downloaded exactly once: a distinct log holding all indices of [0, n) and nothing else. */
  lemma ExactlyOnce(downloads: seq<int>, n: int)
    requires n >= 0 && Distinct(downloads)
    requires forall k :: 0 <= k < |downloads| ==> 0 <= downloads[k] < n
    requires forall c :: 0 <= c < n ==> c in downloads
    ensures |downloads| == n
    ensures forall c :: 0 <= c < n ==> multiset(downloads)[c] == 1
  {
    assert (set x | x in downloads) == IndexSet(n);
    DistinctCard(downloads);
    forall c | 0 <= c < n
      ensures multiset(downloads)[c] == 1
    {
      DistinctMultiplicity(downloads, c);
    }
  }

  lemma {:induction false} DistinctCard(s: seq<int>)
    requires Distinct(s)
    ensures |set x | x in s| == |s|
  {
    if s != [] {
      var t := s[..|s| - 1];
      DistinctCard(t);
      assert s == t + [s[|s| - 1]];
      assert (set x | x in s) == (set x | x in t) + {s[|s| - 1]};
    }
  }

  lemma {:induction false} DistinctMultiplicity(s: seq<int>, c: int)
    requires Distinct(s) && c in s
    ensures multiset(s)[c] == 1
  {
    var t := s[..|s| - 1];
    assert s == t + [s[|s| - 1]];
    if s[|s| - 1] == c {
      assert c !in t;
    } else {
      DistinctMultiplicity(t, c);
    }
  }
}
