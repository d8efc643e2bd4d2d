/**
 What a `LoggingEventCache` holds after it has been fed the event stream
 1, 2, ..., M, and what `ReplayFrom` returns from such a state.

 The proofs look at the log rotated so that the slot after the head comes
 first: `Rotated(c) = log[head+1..] + log[..head+1]`. In every reachable state
 that sequence is a run of empty slots followed by the retained indices in
 ascending order, ending with the current index; a store drops its first
 element and appends the new index.
 */
module LoggingCacheProofs {
  import opened Primitives
  import opened CacheTypes
  import opened LoggingCache

  /** The log read from the oldest slot to the head. */
  function Rotated(c: Cache): (r: seq<U64>)
    requires Valid(c) && |c.log| > 0
    ensures |r| == |c.log|
  {
    c.log[c.head + 1..] + c.log[..c.head + 1]
  }

  function Zeros(n: nat): (r: seq<U64>)
    ensures |r| == n && forall i :: 0 <= i < n ==> r[i] == 0
  {
    seq(n, _ => 0)
  }

  /** The indices `lo, lo+1, ..., hi-1`. */
  function Range(lo: nat, hi: nat): (r: seq<U64>)
    requires lo <= hi <= U64_LIMIT
    ensures |r| == hi - lo && forall i :: 0 <= i < |r| ==> r[i] == lo + i
  {
    seq(hi - lo, i requires 0 <= i < hi - lo => (lo + i) as U64)
  }

  /** A stream numbered from 1: the event at position i has index i + 1. */
  ghost predicate IsHistory(hist: seq<Event>)
  {
    |hist| < U64_LIMIT && forall i :: 0 <= i < |hist| ==> hist[i].index == i + 1
  }

  /** How many of the first `m` events a log of `n` slots retains. */
  function Kept(m: nat, n: nat): nat
  {
    if m < n then m else n
  }

  /** The oldest retained index after `m` events in `n` slots. */
  function Oldest(m: nat, n: nat): nat
  {
    m - Kept(m, n) + 1
  }

  /** Whether index `k` is among those retained after `m` events in `n` slots. */
  predicate InWindow(k: int, m: nat, n: nat)
  {
    Oldest(m, n) <= k <= m
  }

  /** The events of `hist` a log of `n` slots retains, by index. */
  function Window(hist: seq<Event>, n: nat): (w: map<U64, Event>)
    requires |hist| < U64_LIMIT
    ensures forall k: U64 :: k in w <==> InWindow(k, |hist|, n)
  {
    map k: U64 | InWindow(k, |hist|, n) :: hist[k - 1]
  }

  /** The window maps each retained index to the event of the stream with that index. */
  lemma WindowValue(hist: seq<Event>, n: nat, k: U64)
    requires |hist| < U64_LIMIT && k in Window(hist, n)
    ensures 1 <= k <= |hist| && Window(hist, n)[k] == hist[k - 1]
  {
  }

  /** The rotated log is a run of empty slots followed by the retained indices in order. */
  ghost predicate Shape(c: Cache, m: nat)
    requires Valid(c) && |c.log| > 0 && m < U64_LIMIT
  {
    var n := |c.log|;
    Rotated(c) == Zeros(n - Kept(m, n)) + Range(Oldest(m, n), m + 1)
  }

  /** The cache is exactly the one obtained by storing `hist` into a fresh log of its size. */
  ghost predicate Inv(c: Cache, hist: seq<Event>)
  {
    && Valid(c) && |c.log| > 0 && IsHistory(hist)
    && Shape(c, |hist|)
    && c.events == Window(hist, |c.log|)
    && |c.events| == Kept(|hist|, |c.log|)
  }

  /** Stores `es` in order, each with a callback; `None` as soon as a store is not accepted. */
  function Feed(c: Cache, es: seq<Event>): (r: Option<Cache>)
    requires Valid(c)
    ensures r.Some? ==> Valid(r.value) && |r.value.log| == |c.log|
    decreases |es|
  {
    if es == [] then Some(c)
    else
      match Feed(c, es[..|es| - 1])
      case None => None
      case Some(c') =>
        var s := Store(c', es[|es| - 1], true);
        if s.outcome.Accepted? then Some(s.cache) else None
  }

  /** The head slot is the last element of the rotated log, the next slot its first. */
  lemma RotatedEnds(c: Cache)
    requires Valid(c) && |c.log| > 0
    ensures Rotated(c)[|c.log| - 1] == c.log[c.head]
    ensures Rotated(c)[0] == c.log[NextSlot(c)]
  {
  }

  /** Storing drops the first element of the rotated log and appends the new index. */
  lemma RotatedAdvance(c: Cache, e: Event)
    requires Valid(c) && |c.log| > 0
    ensures Rotated(Advance(c, e)) == Rotated(c)[1..] + [e.index]
  {
    var n, h := |c.log|, c.head;
    var c' := Advance(c, e);
    if h + 1 < n {
      assert c'.log[h + 2..] == c.log[h + 2..];
      assert c'.log[..h + 2] == c.log[..h + 1] + [e.index];
      assert Rotated(c)[1..] == c.log[h + 2..] + c.log[..h + 1];
    } else {
      assert c'.head == 0;
      assert c'.log[1..] == c.log[1..];
      assert Rotated(c) == c.log;
    }
  }

  /** In an invariant state the head holds the length of the stream. */
  lemma HeadIsLast(c: Cache, m: nat)
    requires Valid(c) && |c.log| > 0 && m < U64_LIMIT && Shape(c, m)
    ensures c.log[c.head] == m
  {
    var n := |c.log|;
    var z, lo := n - Kept(m, n), Oldest(m, n);
    RotatedEnds(c);
    if m == 0 {
      assert Rotated(c)[n - 1] == Zeros(z)[n - 1];
    } else {
      assert Rotated(c)[n - 1] == Range(lo, m + 1)[m - lo];
    }
  }

  /** While the log has room, a store consumes one empty slot. */
  lemma ShiftIntoEmpty(z: nat, lo: nat, hi: nat)
    requires z > 0 && lo <= hi < U64_LIMIT
    ensures (Zeros(z) + Range(lo, hi))[1..] + [hi as U64] == Zeros(z - 1) + Range(lo, hi + 1)
  {
    var A, B := (Zeros(z) + Range(lo, hi))[1..] + [hi as U64], Zeros(z - 1) + Range(lo, hi + 1);
    forall i | 0 <= i < |A| ensures A[i] == B[i] {
      if i < z - 1 {
      } else if i < |A| - 1 {
        assert A[i] == Range(lo, hi)[i + 1 - z];
        assert B[i] == Range(lo, hi + 1)[i - (z - 1)];
      }
    }
  }

  /** Once the log is full, a store drops the oldest index. */
  lemma ShiftOutOldest(lo: nat, hi: nat)
    requires lo < hi < U64_LIMIT
    ensures (Zeros(0) + Range(lo, hi))[1..] + [hi as U64] == Zeros(0) + Range(lo + 1, hi + 1)
  {
    var A, B := (Zeros(0) + Range(lo, hi))[1..] + [hi as U64], Zeros(0) + Range(lo + 1, hi + 1);
    forall i | 0 <= i < |A| ensures A[i] == B[i] {
      if i < |A| - 1 {
        assert A[i] == Range(lo, hi)[i + 1];
      }
    }
  }

  /** While the log has room, storing index `m + 1` fills the first empty slot. */
  lemma ShapeStepRoom(c: Cache, m: nat, e: Event)
    requires Valid(c) && |c.log| > 0 && m < |c.log| && m + 1 < U64_LIMIT && Shape(c, m)
    requires e.index == m + 1
    ensures Shape(Advance(c, e), m + 1)
    ensures c.log[NextSlot(c)] == 0
  {
    var z := |c.log| - m;
    assert Kept(m, |c.log|) == m && Oldest(m, |c.log|) == 1;
    assert c.log[NextSlot(c)] == Zeros(z)[0] by {
      RotatedEnds(c);
    }
    assert Rotated(Advance(c, e)) == Zeros(z - 1) + Range(1, m + 2) by {
      RotatedAdvance(c, e);
      ShiftIntoEmpty(z, 1, m + 1);
    }
  }

  /** Once the log is full, storing index `m + 1` overwrites the oldest index. */
  lemma ShapeStepFull(c: Cache, m: nat, e: Event)
    requires Valid(c) && |c.log| > 0 && m >= |c.log| && m + 1 < U64_LIMIT && Shape(c, m)
    requires e.index == m + 1
    ensures Shape(Advance(c, e), m + 1)
    ensures c.log[NextSlot(c)] == Oldest(m, |c.log|)
  {
    var lo := m - |c.log| + 1;
    assert Kept(m, |c.log|) == |c.log| && Oldest(m, |c.log|) == lo;
    assert c.log[NextSlot(c)] == Range(lo, m + 1)[0] by {
      RotatedEnds(c);
      assert Zeros(0) + Range(lo, m + 1) == Range(lo, m + 1);
    }
    assert Rotated(Advance(c, e)) == Zeros(0) + Range(lo + 1, m + 2) by {
      RotatedAdvance(c, e);
      ShiftOutOldest(lo, m + 1);
    }
  }

  /**
   The shape survives storing index `m + 1`; the slot overwritten was empty
   while the log had room, and held the oldest index once it was full.
   */
  lemma ShapeStep(c: Cache, m: nat, e: Event)
    requires Valid(c) && |c.log| > 0 && m + 1 < U64_LIMIT && Shape(c, m)
    requires e.index == m + 1
    ensures Shape(Advance(c, e), m + 1)
    ensures c.log[NextSlot(c)] == if m < |c.log| then 0 else Oldest(m, |c.log|)
  {
    if m < |c.log| {
      ShapeStepRoom(c, m, e);
    } else {
      ShapeStepFull(c, m, e);
    }
  }

  /** The retained window of the longer stream: the oldest event (once the log is full) leaves, the new one enters. */
  lemma WindowStep(hist: seq<Event>, e: Event, n: nat)
    requires n > 0 && IsHistory(hist) && e.index == |hist| + 1 && |hist| + 1 < U64_LIMIT
    ensures var m, w := |hist|, Window(hist, n);
      var prev := if m < n then 0 else Oldest(m, n);
      && (prev != 0 ==> prev in w)
      && e.index !in w
      && Window(hist + [e], n) == (if prev != 0 then w - {prev} else w)[e.index := e]
  {
    var m := |hist|;
    var w, w' := Window(hist, n), Window(hist + [e], n);
    var prev := if m < n then 0 else Oldest(m, n);
    var want := (if prev != 0 then w - {prev} else w)[e.index := e];
    assert forall k: U64 :: k in w' <==> k in want;
    assert forall k: U64 :: k in w' ==> w'[k] == want[k];
  }

  /** A fresh log of `n > 0` slots satisfies the invariant for the empty stream. */
  lemma NewInv(n: nat)
    requires n > 0
    ensures Inv(New(n), [])
  {
    var c := New(n);
    assert Rotated(c) == Zeros(n) + Range(1, 1);
    assert Window([], n) == map[];
  }

  /**
   From an invariant state the next event of the stream is accepted, and the
   invariant holds of the longer stream.
   */
  lemma {:induction false} StoreStep(c: Cache, hist: seq<Event>, e: Event)
    requires Inv(c, hist)
    requires e.index == |hist| + 1
    ensures Store(c, e, true).outcome.Accepted?
    ensures Inv(Store(c, e, true).cache, hist + [e])
  {
    var n, m := |c.log|, |hist|;
    var c' := Advance(c, e);
    assert InOrder(c, e) by {
      HeadIsLast(c, m);
    }
    assert Store(c, e, true) == StoreResult(c', Accepted, [Applied(e.index, e)]);
    assert Shape(c', m + 1) by {
      ShapeStep(c, m, e);
    }
    assert c'.events == Window(hist + [e], n) && |c'.events| == Kept(m + 1, n) by {
      EventsStep(c, hist, e);
    }
    HistorySnoc(hist, e);
  }

  /** The stream extended by its next event is still a stream. */
  lemma HistorySnoc(hist: seq<Event>, e: Event)
    requires IsHistory(hist) && e.index == |hist| + 1
    ensures IsHistory(hist + [e])
  {
  }

  /** The event map follows the window: it evicts what the window drops and adds the new event. */
  lemma EventsStep(c: Cache, hist: seq<Event>, e: Event)
    requires Inv(c, hist)
    requires e.index == |hist| + 1 && |hist| + 1 < U64_LIMIT
    ensures Advance(c, e).events == Window(hist + [e], |c.log|)
    ensures |Advance(c, e).events| == Kept(|hist| + 1, |c.log|)
  {
    var n, m := |c.log|, |hist|;
    ShapeStep(c, m, e);
    WindowStep(hist, e, n);
    var prev := c.log[NextSlot(c)];
    var w := Window(hist, n);
    var kept := if prev != 0 then w - {prev} else w;
    assert Advance(c, e).events == kept[e.index := e];
    assert |kept| == (if prev != 0 then |w| - 1 else |w|);
  }

  /** Feeding the stream 1..M into a fresh log of `n > 0` slots accepts every event and reaches the invariant. */
  lemma {:induction false} FeedReachesInv(n: nat, hist: seq<Event>)
    requires n > 0 && IsHistory(hist)
    ensures Feed(New(n), hist).Some?
    ensures Inv(Feed(New(n), hist).value, hist)
    decreases |hist|
  {
    if hist == [] {
      NewInv(n);
    } else {
      var prefix := hist[..|hist| - 1];
      assert IsHistory(prefix);
      FeedReachesInv(n, prefix);
      FeedOneMore(n, hist);
    }
  }

  /** A non-empty sequence is its front followed by its last element. */
  lemma SplitLast(s: seq<Event>)
    requires |s| > 0
    ensures s[..|s| - 1] + [s[|s| - 1]] == s
  {
  }

  /** One more event of the stream keeps the fed cache in the invariant. */
  lemma FeedOneMore(n: nat, hist: seq<Event>)
    requires n > 0 && IsHistory(hist) && |hist| > 0
    requires Feed(New(n), hist[..|hist| - 1]).Some?
    requires Inv(Feed(New(n), hist[..|hist| - 1]).value, hist[..|hist| - 1])
    ensures Feed(New(n), hist).Some?
    ensures Inv(Feed(New(n), hist).value, hist)
  {
    SplitLast(hist);
    StoreStep(Feed(New(n), hist[..|hist| - 1]).value, hist[..|hist| - 1], hist[|hist| - 1]);
  }

  /**
   The cache after the stream 1..M has been stored, event by event, into a
   fresh log of `n` slots; every one of those stores is accepted.
   */
  function AfterStream(n: nat, hist: seq<Event>): (c: Cache)
    requires n > 0 && IsHistory(hist)
    ensures Feed(New(n), hist) == Some(c)
    ensures Inv(c, hist)
  {
    FeedReachesInv(n, hist);
    Feed(New(n), hist).value
  }

  /**
   After the stream 1..M, the cache reports M as its current index and holds
   exactly the events `max(1, M-n+1) .. M`, each the one that was stored, so
   never more than `n`.
   */
  lemma Retention(n: nat, hist: seq<Event>)
    requires n > 0 && IsHistory(hist)
    ensures var c := AfterStream(n, hist);
      && CurrentIndex(c) == (|hist|, true)
      && (forall k: U64 :: k in c.events <==> (k >= 1 && k >= |hist| - n + 1 && k <= |hist|))
      && (forall k: U64 :: k in c.events ==> c.events[k] == hist[k - 1])
      && |c.events| <= n
  {
    var c := AfterStream(n, hist);
    HeadIsLast(c, |hist|);
    RetainedIndices(c, hist);
    RetainedValues(c, hist);
  }

  /** In an invariant state the event map holds exactly the indices of the window. */
  lemma RetainedIndices(c: Cache, hist: seq<Event>)
    requires Inv(c, hist)
    ensures forall k: U64 :: k in c.events <==> (k >= 1 && k >= |hist| - |c.log| + 1 && k <= |hist|)
  {
    forall k: U64
      ensures k in c.events <==> (k >= 1 && k >= |hist| - |c.log| + 1 && k <= |hist|)
    {
      assert InWindow(k, |hist|, |c.log|) <==> (k >= 1 && k >= |hist| - |c.log| + 1 && k <= |hist|);
    }
  }

  /** In an invariant state each retained index maps to the event stored under it. */
  lemma RetainedValues(c: Cache, hist: seq<Event>)
    requires Inv(c, hist)
    ensures forall k: U64 :: k in c.events ==> 1 <= k <= |hist| && c.events[k] == hist[k - 1]
  {
    forall k: U64 | k in c.events
      ensures 1 <= k <= |hist| && c.events[k] == hist[k - 1]
    {
      WindowValue(hist, |c.log|, k);
    }
  }

  /** The slot that appears at position `p` of the rotated log. */
  function SlotAt(c: Cache, p: nat): (s: nat)
    requires Valid(c) && |c.log| > 0 && p < |c.log|
    ensures s < |c.log| && c.log[s] == Rotated(c)[p]
  {
    if c.head + 1 + p < |c.log| then c.head + 1 + p else c.head + 1 + p - |c.log|
  }

  /** The position of slot `s` in the rotated log. */
  function PositionOf(c: Cache, s: nat): (p: nat)
    requires Valid(c) && |c.log| > 0 && s < |c.log|
    ensures p < |c.log| && SlotAt(c, p) == s
  {
    if s > c.head then s - c.head - 1 else s + |c.log| - c.head - 1
  }

  /** In an invariant state a retained index sits in exactly one slot, at position `z + k - lo` of the rotation. */
  lemma {:induction false} FirstSlotOfRetained(c: Cache, m: nat, k: U64)
    requires Valid(c) && |c.log| > 0 && m < U64_LIMIT && Shape(c, m)
    requires InWindow(k, m, |c.log|)
    ensures var p := |c.log| - Kept(m, |c.log|) + k - Oldest(m, |c.log|);
      p < |c.log| && FirstSlot(c.log, k) == Some(SlotAt(c, p))
  {
    var n := |c.log|;
    var z, lo := n - Kept(m, n), Oldest(m, n);
    var R := Rotated(c);
    var p := z + k - lo;
    assert R[p] == Range(lo, m + 1)[k - lo];
    var s := SlotAt(c, p);
    assert k in c.log by { assert c.log[s] == k; }
    var i := FirstSlot(c.log, k).value;
    var q := PositionOf(c, i);
    assert R[q] == k;
    assert R[q] == (Zeros(z) + Range(lo, m + 1))[q];
    if q >= z {
      assert R[q] == Range(lo, m + 1)[q - z];
    }
    assert q == p;
  }

  /** A slice lying within the second part of a concatenation. */
  lemma SliceOfSecond(a: seq<U64>, b: seq<U64>, i: nat, j: nat)
    requires |a| <= i <= j <= |a| + |b|
    ensures (a + b)[i..j] == b[i - |a|..j - |a|]
  {
  }

  /** A slice running from the first part of a concatenation to the end of it. */
  lemma SliceAcross(a: seq<U64>, b: seq<U64>, i: nat, j: nat)
    requires i <= |a| <= j <= |a| + |b|
    ensures (a + b)[i..j] == a[i..] + b[..j - |a|]
  {
  }

  /** The slots the as-written replay walks, read in rotated order. */
  lemma {:induction false} ReplaySlicesAsWritten(c: Cache, p: nat)
    requires Valid(c) && |c.log| > 0 && p < |c.log|
    ensures var s := SlotAt(c, p);
      && (s == c.head <==> p == |c.log| - 1)
      && (s < c.head ==> c.log[s..c.head] == Rotated(c)[p..|c.log| - 1])
      && (s > c.head ==> c.log[s..] + c.log[..c.head] == Rotated(c)[p..|c.log| - 1])
  {
    var n, h := |c.log|, c.head;
    var s := SlotAt(c, p);
    var a, b := c.log[h + 1..], c.log[..h + 1];
    assert Rotated(c) == a + b && |a| == n - h - 1;
    if s < h {
      assert p == s + (n - h - 1);
      SliceOfSecond(a, b, p, n - 1);
      assert b[s..h] == c.log[s..h];
    } else if s > h {
      assert p == s - h - 1;
      SliceAcross(a, b, p, n - 1);
      assert a[p..] == c.log[s..] && b[..h] == c.log[..h];
    }
  }

  /** The slots the corrected replay walks, read in rotated order. */
  lemma {:induction false} ReplaySlicesAfter(c: Cache, p: nat)
    requires Valid(c) && |c.log| > 0 && p < |c.log|
    ensures var s := SlotAt(c, p);
      && (s == c.head <==> p == |c.log| - 1)
      && (s < c.head ==> c.log[s + 1..c.head + 1] == Rotated(c)[p + 1..|c.log|])
      && (s > c.head ==> c.log[s + 1..] + c.log[..c.head + 1] == Rotated(c)[p + 1..|c.log|])
  {
    var n, h := |c.log|, c.head;
    var s := SlotAt(c, p);
    var a, b := c.log[h + 1..], c.log[..h + 1];
    assert Rotated(c) == a + b && |a| == n - h - 1;
    if s < h {
      assert p == s + (n - h - 1);
      SliceOfSecond(a, b, p + 1, n);
      assert b[s + 1..h + 1] == c.log[s + 1..h + 1];
    } else if s > h {
      assert p == s - h - 1;
      SliceAcross(a, b, p + 1, n);
      assert a[p + 1..] == c.log[s + 1..] && b[..h + 1] == c.log[..h + 1];
    }
  }

  /** Each event of `es` wrapped as a non-nil entry. */
  function Present(es: seq<Event>): (r: seq<Option<Event>>)
    ensures |r| == |es| && forall i :: 0 <= i < |es| ==> r[i] == Some(es[i])
  {
    seq(|es|, i requires 0 <= i < |es| => Some(es[i]))
  }

  /** Looking up a run of retained indices yields the stored events, in order. */
  lemma {:induction false} LookupRetained(c: Cache, hist: seq<Event>, a: nat, b: nat)
    requires Inv(c, hist)
    requires Oldest(|hist|, |c.log|) <= a <= b <= |hist| + 1
    ensures Lookup(c.events, Range(a, b)) == Present(hist[a - 1..b - 1])
  {
    var L, P := Lookup(c.events, Range(a, b)), Present(hist[a - 1..b - 1]);
    forall i | 0 <= i < b - a
      ensures L[i] == P[i]
    {
      assert Range(a, b)[i] == a + i;
      assert InWindow(a + i, |hist|, |c.log|);
    }
  }

  /** Past the empty slots, a stretch of the rotated log is a run of consecutive indices. */
  lemma {:induction false} RotatedRun(c: Cache, m: nat, p: nat, q: nat)
    requires Valid(c) && |c.log| > 0 && m < U64_LIMIT && Shape(c, m)
    requires |c.log| - Kept(m, |c.log|) <= p <= q <= |c.log|
    ensures var d := Oldest(m, |c.log|) - (|c.log| - Kept(m, |c.log|));
      Rotated(c)[p..q] == Range(d + p, d + q)
  {
    var n := |c.log|;
    var z, lo := n - Kept(m, n), Oldest(m, n);
    forall i | 0 <= i < q - p
      ensures Rotated(c)[p..q][i] == Range(lo - z + p, lo - z + q)[i]
    {
      assert Rotated(c)[p + i] == Range(lo, m + 1)[p + i - z];
    }
  }

  /** As-written replay from the index found at rotated position `p` reads positions `p .. n-2`. */
  lemma {:induction false} ReplayFromBySlot(c: Cache, k: U64, p: nat)
    requires Valid(c) && |c.log| > 0 && p < |c.log|
    requires k in c.events && FirstSlot(c.log, k) == Some(SlotAt(c, p))
    ensures ReplayFrom(c, k) == (Lookup(c.events, Rotated(c)[p..|c.log| - 1]), true)
  {
    ReplaySlicesAsWritten(c, p);
  }

  /** Corrected replay from the index found at rotated position `p` reads positions `p+1 .. n-1`. */
  lemma {:induction false} ReplayAfterBySlot(c: Cache, k: U64, p: nat)
    requires Valid(c) && |c.log| > 0 && p < |c.log|
    requires k in c.events && FirstSlot(c.log, k) == Some(SlotAt(c, p))
    ensures ReplayAfter(c, k) == (Lookup(c.events, Rotated(c)[p + 1..|c.log|]), true)
  {
    ReplaySlicesAfter(c, p);
    var s := SlotAt(c, p);
    if s == c.head {
      assert Rotated(c)[p + 1..|c.log|] == [];
    } else if s < c.head {
      assert ReplayAfter(c, k).0 == Lookup(c.events, c.log[s + 1..c.head + 1]);
    } else {
      assert ReplayAfter(c, k).0 == Lookup(c.events, c.log[s + 1..] + c.log[..c.head + 1]);
    }
  }

  /** The rotated positions from `p` up to, but not including, the head hold `k .. m-1`. */
  lemma RunBeforeHead(c: Cache, m: nat, k: nat, p: nat)
    requires Valid(c) && |c.log| > 0 && m < U64_LIMIT && Shape(c, m)
    requires |c.log| - Kept(m, |c.log|) <= p < |c.log|
    requires p == |c.log| - Kept(m, |c.log|) + k - Oldest(m, |c.log|)
    ensures k <= m && Rotated(c)[p..|c.log| - 1] == Range(k, m)
  {
    var n := |c.log|;
    var d := Oldest(m, n) - (n - Kept(m, n));
    assert d + p == k && d + (n - 1) == m;
    RotatedRun(c, m, p, n - 1);
  }

  /** The rotated positions after `p`, through the head, hold `k+1 .. m`. */
  lemma RunAfter(c: Cache, m: nat, k: nat, p: nat)
    requires Valid(c) && |c.log| > 0 && m < U64_LIMIT && Shape(c, m)
    requires |c.log| - Kept(m, |c.log|) <= p < |c.log|
    requires p == |c.log| - Kept(m, |c.log|) + k - Oldest(m, |c.log|)
    ensures k <= m && Rotated(c)[p + 1..|c.log|] == Range(k + 1, m + 1)
  {
    var n := |c.log|;
    var d := Oldest(m, n) - (n - Kept(m, n));
    assert d + (p + 1) == k + 1 && d + n == m + 1;
    RotatedRun(c, m, p + 1, n);
  }

  /** As-written replay from a retained `k` reads the indices `k .. M-1`. */
  lemma {:induction false} ReplayFromRange(c: Cache, hist: seq<Event>, k: U64)
    requires Inv(c, hist) && InWindow(k, |hist|, |c.log|)
    ensures ReplayFrom(c, k) == (Lookup(c.events, Range(k, |hist|)), true)
  {
    var n, m := |c.log|, |hist|;
    var p := n - Kept(m, n) + k - Oldest(m, n);
    FirstSlotOfRetained(c, m, k);
    ReplayFromBySlot(c, k, p);
    RunBeforeHead(c, m, k, p);
  }

  /** Corrected replay from a retained `k` reads the indices `k+1 .. M`. */
  lemma {:induction false} ReplayAfterRange(c: Cache, hist: seq<Event>, k: U64)
    requires Inv(c, hist) && InWindow(k, |hist|, |c.log|)
    ensures ReplayAfter(c, k) == (Lookup(c.events, Range(k + 1, |hist| + 1)), true)
  {
    var n, m := |c.log|, |hist|;
    var p := n - Kept(m, n) + k - Oldest(m, n);
    FirstSlotOfRetained(c, m, k);
    ReplayAfterBySlot(c, k, p);
    RunAfter(c, m, k, p);
  }

  /** In an invariant state, as-written replay from a retained `k` yields the events `k .. M-1`. */
  lemma {:induction false} ReplayFromRetained(c: Cache, hist: seq<Event>, k: U64)
    requires Inv(c, hist) && InWindow(k, |hist|, |c.log|)
    ensures ReplayFrom(c, k) == (Present(hist[k - 1..|hist| - 1]), true)
  {
    ReplayFromRange(c, hist, k);
    LookupRetained(c, hist, k, |hist|);
  }

  /** In an invariant state, corrected replay from a retained `k` yields the events `k+1 .. M`. */
  lemma {:induction false} ReplayAfterRetained(c: Cache, hist: seq<Event>, k: U64)
    requires Inv(c, hist) && InWindow(k, |hist|, |c.log|)
    ensures ReplayAfter(c, k) == (Present(hist[k..|hist|]), true)
  {
    ReplayAfterRange(c, hist, k);
    LookupRetained(c, hist, k + 1, |hist| + 1);
  }

  /**
   `ReplayFrom(k)` after the stream 1..M: for a retained `k` it succeeds with
   the events `k, k+1, ..., M-1` (the start included, the current event left
   out), whether or not the window wraps past slot 0; for any other `k` it
   fails with nothing.
   */
  lemma {:induction false} ReplayFromWindow(n: nat, hist: seq<Event>, k: U64)
    requires n > 0 && IsHistory(hist)
    ensures var c := AfterStream(n, hist);
      && (InWindow(k, |hist|, n) ==> ReplayFrom(c, k) == (Present(hist[k - 1..|hist| - 1]), true))
      && (!InWindow(k, |hist|, n) ==> ReplayFrom(c, k) == ([], false))
  {
    var c := AfterStream(n, hist);
    if InWindow(k, |hist|, n) {
      ReplayFromRetained(c, hist, k);
    }
  }

  /**
   `ReplayAfter(k)` after the stream 1..M: for a retained `k` it succeeds with
   exactly the events `k+1, ..., M` the consumer has not seen.
   */
  lemma {:induction false} ReplayAfterWindow(n: nat, hist: seq<Event>, k: U64)
    requires n > 0 && IsHistory(hist)
    ensures var c := AfterStream(n, hist);
      && (InWindow(k, |hist|, n) ==> ReplayAfter(c, k) == (Present(hist[k..]), true))
      && (!InWindow(k, |hist|, n) ==> ReplayAfter(c, k) == ([], false))
  {
    var c := AfterStream(n, hist);
    if InWindow(k, |hist|, n) {
      ReplayAfterRetained(c, hist, k);
      assert hist[k..] == hist[k..|hist|];
    }
  }

  lemma PresentPair(es: seq<Event>)
    requires |es| == 2
    ensures Present(es) == [Some(es[0]), Some(es[1])]
  {
  }

  /**
   Three slots after the stream 1..5 retain 3, 4, 5. As written, replaying
   from 3 yields the events 3 and 4 and leaves out the current event 5.
   */
  lemma {:induction false} ReplayFromWrappedExample(hist: seq<Event>)
    requires IsHistory(hist) && |hist| == 5
    ensures ReplayFrom(AfterStream(3, hist), 3) == ([Some(hist[2]), Some(hist[3])], true)
  {
    assert InWindow(3, 5, 3);
    ReplayFromWindow(3, hist, 3);
    PresentPair(hist[2..4]);
  }

  /** In the same state the corrected replay from 3 yields 4 and 5. */
  lemma {:induction false} ReplayAfterWrappedExample(hist: seq<Event>)
    requires IsHistory(hist) && |hist| == 5
    ensures ReplayAfter(AfterStream(3, hist), 3) == ([Some(hist[3]), Some(hist[4])], true)
  {
    assert InWindow(3, 5, 3);
    ReplayAfterWindow(3, hist, 3);
    PresentPair(hist[3..]);
  }

  /** In the same state index 2 has been evicted and cannot be replayed from. */
  lemma {:induction false} ReplayEvictedExample(hist: seq<Event>)
    requires IsHistory(hist) && |hist| == 5
    ensures ReplayFrom(AfterStream(3, hist), 2) == ([], false)
  {
    ReplayFromWindow(3, hist, 2);
  }
}
