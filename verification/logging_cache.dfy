/**
 `LoggingEventCache`: a fixed-size circular log of event indices plus a map
 from index to event. The value 0 in a slot means "empty". The slot at `head`
 holds the current index; storing writes the next slot, evicting the event the
 slot held before.

 `LogSize` always equals the length of `Log` in the Go code, so the model keeps
 only the log.
 */
module LoggingCache {
  import opened Primitives
  import opened CacheTypes

  /** `head` is `HeadLogIndex`, `log` is `Log`, `events` is `Events`. */
  datatype Cache = Cache(head: nat, log: seq<U64>, events: map<U64, Event>)

  /** The result of `Store`: the cache afterwards, the outcome, and the callback calls made. */
  datatype StoreResult = StoreResult(cache: Cache, outcome: Outcome, calls: seq<Applied>)

  /** The head points into the log (or is 0 for an empty log). */
  predicate Valid(c: Cache)
  {
    if |c.log| == 0 then c.head == 0 else c.head < |c.log|
  }

  /** `NewLoggingEventCache(logSize)`: every slot empty, head at slot 0, no events. */
  function New(logSize: nat): (c: Cache)
    ensures Valid(c) && |c.log| == logSize && c.events == map[]
    ensures forall i :: 0 <= i < logSize ==> c.log[i] == 0
    ensures logSize > 0 ==> CurrentIndex(c) == (0, true)
    ensures logSize == 0 ==> CurrentIndex(c) == (0, false)
  {
    Cache(0, seq(logSize, _ => 0), map[])
  }

  /**
   `currentIndex()`: the index in the head slot. It is reported as known
   whenever the log has any slot, so a fresh cache reports index 0 as known.
   */
  function CurrentIndex(c: Cache): (r: (U64, bool))
    requires Valid(c)
    ensures r.1 <==> |c.log| > 0
    ensures r.1 ==> r.0 == c.log[c.head]
    ensures !r.1 ==> r.0 == 0
  {
    if |c.log| == 0 then (0, false) else (c.log[c.head], true)
  }

  /** The slot the next stored event goes to. */
  function NextSlot(c: Cache): (t: nat)
    requires Valid(c) && |c.log| > 0
    ensures t < |c.log|
    ensures t == if c.head + 1 == |c.log| then 0 else c.head + 1
  {
    ModStep(c.head + 1, |c.log|);
    (c.head + 1) % |c.log|
  }

  /** The state change of an accepted store: evict the next slot's event, write `e` there, move the head. */
  function Advance(c: Cache, e: Event): (r: Cache)
    requires Valid(c) && |c.log| > 0
    ensures Valid(r) && |r.log| == |c.log|
    ensures r.head == NextSlot(c) && r.log == c.log[NextSlot(c) := e.index]
    ensures e.index in r.events && r.events[e.index] == e
    ensures var prev := c.log[NextSlot(c)];
      (prev != 0 && prev != e.index ==> prev !in r.events)
      && forall k :: k != prev && k != e.index ==> (k in r.events <==> k in c.events)
    ensures forall k :: k in r.events && k != e.index ==> k in c.events && r.events[k] == c.events[k]
  {
    var target := NextSlot(c);
    var prevKey := c.log[target];
    var kept := if prevKey != 0 then c.events - {prevKey} else c.events;
    Cache(target, c.log[target := e.index], kept[e.index := e])
  }

  /** Whether `Store` accepts `e` on ordering grounds. */
  predicate InOrder(c: Cache, e: Event)
    requires Valid(c)
  {
    var (current, ok) := CurrentIndex(c);
    !ok || Inc64(current) == e.index
  }

  /**
   `Store(event, onSuccess)` as written: the ordering check comes first and a
   refused event changes nothing. An accepted event is written and then
   `onSuccess` is called with no nil check, so a nil callback panics after the
   cache has already changed. A zero-length log makes `% LogSize` panic.
   */
  function Store(c: Cache, e: Event, hasCallback: bool): (r: StoreResult)
    requires Valid(c)
    ensures Valid(r.cache) && |r.cache.log| == |c.log|
    ensures r.outcome.OutOfOrder? <==> !InOrder(c, e)
    ensures r.outcome.OutOfOrder? ==>
      r.cache == c && r.calls == [] && r.outcome == OutOfOrder(c.log[c.head], Inc64(c.log[c.head]), e.index)
    ensures r.outcome == Panicked(DivideByZero) <==> |c.log| == 0
    ensures |c.log| == 0 ==> r.cache == c && r.calls == []
    ensures InOrder(c, e) && |c.log| > 0 ==>
      r.cache.head == NextSlot(c) && CurrentIndex(r.cache) == (e.index, true)
      && e.index in r.cache.events && r.cache.events[e.index] == e
    ensures r.outcome == Panicked(NilCallback) <==> InOrder(c, e) && |c.log| > 0 && !hasCallback
    ensures r.outcome.Accepted? <==> InOrder(c, e) && |c.log| > 0 && hasCallback
    ensures r.outcome.Accepted? ==> r.calls == [Applied(e.index, e)]
    ensures !r.outcome.Accepted? ==> r.calls == []
  {
    if !InOrder(c, e) then
      StoreResult(c, OutOfOrder(c.log[c.head], Inc64(c.log[c.head]), e.index), [])
    else if |c.log| == 0 then
      StoreResult(c, Panicked(DivideByZero), [])
    else if !hasCallback then
      StoreResult(Advance(c, e), Panicked(NilCallback), [])
    else
      StoreResult(Advance(c, e), Accepted, [Applied(e.index, e)])
  }

  /**
   `Store` with the nil check the interface documents ("onSuccess may be
   nil"): an accepted event never panics, and the callback runs exactly when
   one is given.
   */
  function StoreNilSafe(c: Cache, e: Event, hasCallback: bool): (r: StoreResult)
    requires Valid(c)
    ensures Valid(r.cache)
    ensures r.outcome.OutOfOrder? <==> !InOrder(c, e)
    ensures r.outcome != Panicked(NilCallback)
    ensures r.outcome.Accepted? <==> InOrder(c, e) && |c.log| > 0
    ensures r.outcome.Accepted? ==> r.cache == Store(c, e, true).cache
    ensures |r.calls| == (if r.outcome.Accepted? && hasCallback then 1 else 0)
    ensures r.outcome.Accepted? && hasCallback ==> r.calls == [Applied(e.index, e)]
  {
    if !InOrder(c, e) then
      StoreResult(c, OutOfOrder(c.log[c.head], Inc64(c.log[c.head]), e.index), [])
    else if |c.log| == 0 then
      StoreResult(c, Panicked(DivideByZero), [])
    else
      StoreResult(Advance(c, e), Accepted, if hasCallback then [Applied(e.index, e)] else [])
  }

  /** The first slot holding `key`, as the `range cache.Log` loop with `break` finds it. */
  function FirstSlot(log: seq<U64>, key: U64): (r: Option<nat>)
    ensures r.Some? ==>
      (r.value < |log| && log[r.value] == key && forall j :: 0 <= j < r.value ==> log[j] != key)
    ensures r.None? <==> key !in log
  {
    ScanFrom(log, key, 0)
  }

  /** The scan from slot `i` on, given that no slot before `i` holds `key`. */
  function ScanFrom(log: seq<U64>, key: U64, i: nat): (r: Option<nat>)
    requires i <= |log| && forall j :: 0 <= j < i ==> log[j] != key
    ensures r.Some? ==>
      (i <= r.value < |log| && log[r.value] == key && forall j :: 0 <= j < r.value ==> log[j] != key)
    ensures r.None? <==> key !in log
    decreases |log| - i
  {
    if i == |log| then None
    else if log[i] == key then Some(i)
    else ScanFrom(log, key, i + 1)
  }

  /** `cache.Events[key]` for each key: a nil entry where the map has none. */
  function Lookup(events: map<U64, Event>, keys: seq<U64>): (r: seq<Option<Event>>)
    ensures |r| == |keys|
    ensures forall i :: 0 <= i < |keys| ==>
      (keys[i] in events ==> r[i] == Some(events[keys[i]])) && (keys[i] !in events ==> r[i] == None)
  {
    seq(|keys|, i requires 0 <= i < |keys| => if keys[i] in events then Some(events[keys[i]]) else None)
  }

  /**
   The slot `k` steps round a ring of `n` slots from slot 0 lands on: `k`
   modulo `n`, by repeated subtraction.
   */
  function RingSlot(k: nat, n: nat): (r: nat)
    requires n > 0
    ensures r < n
    decreases k
  {
    if k < n then k else RingSlot(k - n, n)
  }

  /** What the slot `k` steps round the ring from slot 0 holds: its index's event, or nil when the map has none. */
  function SlotEvent(c: Cache, k: nat): Option<Event>
    requires |c.log| > 0
  {
    var slot := RingSlot(k, |c.log|);
    if c.log[slot] in c.events then Some(c.events[c.log[slot]]) else None
  }

  /** The number of steps round the ring from slot `from` forward to slot `to`. */
  function RingDistance(from: nat, to: nat, n: nat): nat
    requires from < n && to < n
  {
    if from <= to then to - from else to + n - from
  }

  /**
   `ReplayFrom(startIndex)` as written. It fails unless `startIndex` has a
   stored event and a slot; otherwise it walks the slots from the first slot
   holding it up to, but not including, the head (see `ReplayFromRing`).
   */
  function ReplayFrom(c: Cache, start: U64): (r: (seq<Option<Event>>, bool))
    requires Valid(c)
    ensures r.1 <==> start in c.events && start in c.log
    ensures !r.1 ==> r.0 == []
    ensures |r.0| < |c.log| || |c.log| == 0
  {
    if start !in c.events then ([], false)
    else
      match FirstSlot(c.log, start)
      case None => ([], false)
      case Some(i) =>
        if i == c.head then ([], true)
        else if i < c.head then (Lookup(c.events, c.log[i..c.head]), true)
        else (Lookup(c.events, c.log[i..] + c.log[..c.head]), true)
  }

  /**
   The replay the interface and its callers expect: the events strictly after
   `startIndex`, up to and including the current head (see `ReplayAfterRing`).
   */
  function ReplayAfter(c: Cache, start: U64): (r: (seq<Option<Event>>, bool))
    requires Valid(c)
    ensures r.1 <==> start in c.events && start in c.log
    ensures !r.1 ==> r.0 == []
  {
    if start !in c.events then ([], false)
    else
      match FirstSlot(c.log, start)
      case None => ([], false)
      case Some(i) =>
        if i == c.head then ([], true)
        else if i < c.head then (Lookup(c.events, c.log[i + 1..c.head + 1]), true)
        else (Lookup(c.events, c.log[i + 1..] + c.log[..c.head + 1]), true)
  }

  /** `len` steps round the ring starting at slot `from`: what each slot holds. */
  function RingWalk(c: Cache, from: nat, len: nat): (r: seq<Option<Event>>)
    requires |c.log| > 0
    ensures |r| == len
  {
    seq(len, j requires 0 <= j < len => SlotEvent(c, from + j))
  }

  /**
   What `ReplayFrom` returns on success, as a walk round the ring: from the
   first slot `s` holding the start index, one entry per step from `s` to
   the head, the j-th being what slot `s + j` (mod the size) holds.
   */
  lemma ReplayFromRing(c: Cache, start: U64)
    requires Valid(c) && start in c.events && start in c.log
    ensures var s := FirstSlot(c.log, start).value;
      ReplayFrom(c, start).0 == RingWalk(c, s, RingDistance(s, c.head, |c.log|))
  {
    var s := FirstSlot(c.log, start).value;
    var d := RingDistance(s, c.head, |c.log|);
    if s < c.head {
      StraightWalk(c, c.log[s..c.head], s, d);
    } else if s > c.head {
      WrappedWalk(c, c.log[s..] + c.log[..c.head], s, c.head, d);
    }
  }

  /**
   What `ReplayAfter` returns on success: from the first slot `s` holding the
   start index, one entry per step from `s` to the head, the j-th being what
   slot `s + 1 + j` (mod the size) holds, so the walk ends at the head.
   */
  lemma ReplayAfterRing(c: Cache, start: U64)
    requires Valid(c) && start in c.events && start in c.log
    ensures var s := FirstSlot(c.log, start).value;
      ReplayAfter(c, start).0 == RingWalk(c, s + 1, RingDistance(s, c.head, |c.log|))
  {
    var s := FirstSlot(c.log, start).value;
    var d := RingDistance(s, c.head, |c.log|);
    if s < c.head {
      StraightWalk(c, c.log[s + 1..c.head + 1], s + 1, d);
    } else if s > c.head {
      WrappedWalk(c, c.log[s + 1..] + c.log[..c.head + 1], s + 1, c.head + 1, d);
    }
  }

  /** A non-empty `ReplayAfter` ends with what the head slot holds: the current event. */
  lemma ReplayAfterEndsAtHead(c: Cache, start: U64)
    requires Valid(c)
    ensures var r := ReplayAfter(c, start).0;
      r != [] ==> r[|r| - 1] == Lookup(c.events, [c.log[c.head]])[0]
  {
    var r := ReplayAfter(c, start).0;
    if r != [] {
      ReplayAfterRing(c, start);
      var s := FirstSlot(c.log, start).value;
      var d := RingDistance(s, c.head, |c.log|);
      assert r[d - 1] == SlotEvent(c, s + d);
      assert RingSlot(s + d, |c.log|) == c.head;
    }
  }

  /** A replay slice of `len` slots that does not wrap reads the slots from `from` on, in order. */
  lemma StraightWalk(c: Cache, keys: seq<U64>, from: nat, len: nat)
    requires 0 < |c.log| && len == |keys| && from + len <= |c.log| && keys == c.log[from..from + len]
    ensures Lookup(c.events, keys) == RingWalk(c, from, len)
  {
    forall j | 0 <= j < len
      ensures Lookup(c.events, keys)[j] == SlotEvent(c, from + j)
    {
      assert keys[j] == c.log[from + j];
    }
  }

  /** A replay slice of `len` slots that wraps reads the slots from `from` to the end and then from slot 0. */
  lemma WrappedWalk(c: Cache, keys: seq<U64>, from: nat, to: nat, len: nat)
    requires to < from <= |c.log| && keys == c.log[from..] + c.log[..to] && len == |keys|
    ensures Lookup(c.events, keys) == RingWalk(c, from, len)
  {
    var n := |c.log|;
    forall j | 0 <= j < len
      ensures Lookup(c.events, keys)[j] == SlotEvent(c, from + j)
    {
      if from + j < n {
        assert keys[j] == c.log[from + j];
      } else {
        assert RingSlot(from + j, n) == from + j - n;
        assert keys[j] == c.log[from + j - n];
      }
    }
  }

  lemma ModStep(x: nat, n: nat)
    requires 0 < x <= n
    ensures x % n == if x == n then 0 else x
  {
    if x == n { ModWrap(x, n); } else { ModBelow(x, n); }
  }

  lemma ModBelow(x: nat, n: nat)
    requires x < n
    ensures x % n == x
  {
  }

  lemma ModWrap(x: nat, n: nat)
    requires n <= x < 2 * n
    ensures x % n == x - n
  {
  }
}
