/**
 * Vocabulary shared by the modules of the downloader model: bytes, optional
 * values, exceptions, index ranges, sums, decimal rendering of chunk ids and
 * the log of chunk-downloader start/join events.
 */
module Common {

  /** A byte as read from a response stream and written to a chunk file. */
  newtype byte = b: int | 0 <= b < 256

  datatype Option<+T> = None | Some(value: T)

  /** An exception raised by I/O or by a thread; only its identity matters here. */
  datatype Exception = Exception(message: string)

  function Min(a: int, b: int): int { if a <= b then a else b }

  function Max(a: int, b: int): int { if a >= b then a else b }

  /**
   * completed / size * 100 in double arithmetic: a percentage, with None
   * for the non-finite value (NaN or infinity) a zero size gives.
   */
  function Percent(completed: int, size: int): (p: Option<real>)
    ensures p.None? <==> size == 0
    ensures p.Some? && 0 <= completed <= size ==> 0.0 <= p.value <= 100.0
    ensures p.Some? && completed == size ==> p.value == 100.0
  {
    if size == 0 then None else Some(completed as real / size as real * 100.0)
  }

  /** The indices lo, lo + 1, ..., hi - 1, ascending. */
  function Range(lo: int, hi: int): (r: seq<int>)
    ensures |r| == if lo <= hi then hi - lo else 0
    ensures forall k :: 0 <= k < |r| ==> r[k] == lo + k
    decreases hi - lo
  {
    if hi <= lo then [] else Range(lo, hi - 1) + [hi - 1]
  }

  /** No value occurs twice in s. */
  predicate Distinct(s: seq<int>)
  {
    forall i, j :: 0 <= i < j < |s| ==> s[i] != s[j]
  }

  /** The sum of the entries of s. */
  function Sum(s: seq<int>): int
  {
    if s == [] then 0 else Sum(s[..|s| - 1]) + s[|s| - 1]
  }

  /** Sum of s[lo], ..., s[hi - 1]. */
  function SumRange(s: seq<int>, lo: int, hi: int): int
    requires 0 <= lo <= hi <= |s|
  {
    Sum(s[lo..hi])
  }

  lemma {:induction false} SumAppend(s: seq<int>, t: seq<int>)
    ensures Sum(s + t) == Sum(s) + Sum(t)
    decreases |t|
  {
    if t == [] {
      assert s + t == s;
    } else {
      assert (s + t)[..|s + t| - 1] == s + t[..|t| - 1];
      SumAppend(s, t[..|t| - 1]);
    }
  }

  /** Overwriting one entry changes the sum by the difference of the two values. */
  lemma {:induction false} SumUpdate(s: seq<int>, i: int, v: int)
    requires 0 <= i < |s|
    ensures Sum(s[i := v]) == Sum(s) - s[i] + v
  {
    assert s == s[..i] + [s[i]] + s[i + 1..];
    assert s[i := v] == s[..i] + [v] + s[i + 1..];
    SumAppend(s[..i] + [s[i]], s[i + 1..]);
    SumAppend(s[..i] + [v], s[i + 1..]);
    SumAppend(s[..i], [s[i]]);
    SumAppend(s[..i], [v]);
  }

  /** A sum of entries that are each at most their bound is at most the sum of the bounds. */
  lemma {:induction false} SumBounded(s: seq<int>, t: seq<int>)
    requires |s| == |t|
    requires forall k :: 0 <= k < |s| ==> s[k] <= t[k]
    ensures Sum(s) <= Sum(t)
    decreases |s|
  {
    if s != [] {
      SumBounded(s[..|s| - 1], t[..|t| - 1]);
    }
  }

  lemma {:induction false} SumZeros(n: nat)
    ensures Sum(seq(n, _ => 0)) == 0
  {
    if n > 0 {
      assert seq(n, _ => 0)[..n - 1] == seq(n - 1, _ => 0);
      SumZeros(n - 1);
    }
  }

  // ---------------------------------------------------------------------
  // Decimal rendering of chunk ids (string.Format of a long)
  // ---------------------------------------------------------------------

  function DigitChar(d: int): (c: char)
    requires 0 <= d < 10
    ensures '0' <= c <= '9'
  {
    (('0' as int) + d) as char
  }

  function DigitValue(c: char): int
  {
    (c as int) - ('0' as int)
  }

  /** Decimal digits of n, most significant first, without leading zeros. */
  function NatDecimal(n: nat): (s: string)
    ensures |s| > 0 && '0' <= s[0] <= '9'
  {
    if n < 10 then [DigitChar(n)] else NatDecimal(n / 10) + [DigitChar(n % 10)]
  }

  /** Reads a string of decimal digits back as a number. */
  function ParseNat(s: string): int
  {
    if s == [] then 0 else ParseNat(s[..|s| - 1]) * 10 + DigitValue(s[|s| - 1])
  }

  lemma {:induction false} ParseNatDecimal(n: nat)
    ensures ParseNat(NatDecimal(n)) == n
  {
    if n >= 10 {
      var s := NatDecimal(n);
      assert s[..|s| - 1] == NatDecimal(n / 10);
      ParseNatDecimal(n / 10);
    }
  }

  /** How a long is rendered by string.Format: a minus sign, then the digits of its magnitude. */
  function Decimal(i: int): (s: string)
    ensures |s| > 0
    ensures s[0] == '-' <==> i < 0
  {
    if i < 0 then "-" + NatDecimal(-i) else NatDecimal(i)
  }

  /** Different ids are rendered differently. */
  lemma DecimalInjective(a: int, b: int)
    requires Decimal(a) == Decimal(b)
    ensures a == b
  {
    if a < 0 {
      assert NatDecimal(-a) == Decimal(a)[1..] == Decimal(b)[1..] == NatDecimal(-b);
      ParseNatDecimal(-a);
      ParseNatDecimal(-b);
    } else {
      ParseNatDecimal(a);
      ParseNatDecimal(b);
    }
  }

  // ---------------------------------------------------------------------
  // Start/join log of chunk downloader threads
  // ---------------------------------------------------------------------

  /** A chunk downloader thread being started, or being joined by the controlling loop. */
  datatype ChunkEvent = Started(id: int) | Joined(id: int)

  /** The ids of the started downloaders, in start order. */
  function StartedIds(e: seq<ChunkEvent>): seq<int>
  {
    if e == [] then []
    else StartedIds(e[..|e| - 1]) + (if e[|e| - 1].Started? then [e[|e| - 1].id] else [])
  }

  /** The ids of the joined downloaders, in join order. */
  function JoinedIds(e: seq<ChunkEvent>): seq<int>
  {
    if e == [] then []
    else JoinedIds(e[..|e| - 1]) + (if e[|e| - 1].Joined? then [e[|e| - 1].id] else [])
  }

  /** At every point of the log, at most limit downloaders were started and not yet joined. */
  ghost predicate BoundedOutstanding(e: seq<ChunkEvent>, limit: int)
  {
    forall p :: 0 <= p <= |e| ==> |StartedIds(e[..p])| - |JoinedIds(e[..p])| <= limit
  }

  /** Appending one event keeps the bound when the new prefix itself is within it. */
  lemma BoundedOutstandingAppend(e: seq<ChunkEvent>, ev: ChunkEvent, limit: int)
    requires BoundedOutstanding(e, limit)
    requires |StartedIds(e + [ev])| - |JoinedIds(e + [ev])| <= limit
    ensures BoundedOutstanding(e + [ev], limit)
  {
    forall p | 0 <= p <= |e + [ev]|
      ensures |StartedIds((e + [ev])[..p])| - |JoinedIds((e + [ev])[..p])| <= limit
    {
      if p <= |e| {
        assert (e + [ev])[..p] == e[..p];
      } else {
        assert (e + [ev])[..p] == e + [ev];
      }
    }
  }

  lemma EventsAppend(e: seq<ChunkEvent>, ev: ChunkEvent)
    ensures StartedIds(e + [ev]) == StartedIds(e) + (if ev.Started? then [ev.id] else [])
    ensures JoinedIds(e + [ev]) == JoinedIds(e) + (if ev.Joined? then [ev.id] else [])
  {
    assert (e + [ev])[..|e + [ev]| - 1] == e;
  }

  /** Logging the start of the next downloader keeps both id lists ascending and the bound. */
  lemma LogStart(e: seq<ChunkEvent>, next: int, joined: int, limit: int)
    requires StartedIds(e) == Range(0, next) && JoinedIds(e) == Range(0, joined)
    requires BoundedOutstanding(e, limit) && 0 <= joined <= next && next - joined < limit
    ensures StartedIds(e + [Started(next)]) == Range(0, next + 1)
    ensures JoinedIds(e + [Started(next)]) == Range(0, joined)
    ensures BoundedOutstanding(e + [Started(next)], limit)
  {
    EventsAppend(e, Started(next));
    BoundedOutstandingAppend(e, Started(next), limit);
  }

  /** Logging the join of the oldest outstanding downloader keeps both id lists ascending and the bound. */
  lemma LogJoin(e: seq<ChunkEvent>, started: int, joined: int, limit: int)
    requires StartedIds(e) == Range(0, started) && JoinedIds(e) == Range(0, joined)
    requires BoundedOutstanding(e, limit) && 0 <= joined < started
    ensures StartedIds(e + [Joined(joined)]) == Range(0, started)
    ensures JoinedIds(e + [Joined(joined)]) == Range(0, joined + 1)
    ensures BoundedOutstanding(e + [Joined(joined)], limit)
  {
    EventsAppend(e, Joined(joined));
    BoundedOutstandingAppend(e, Joined(joined), limit);
  }
}
