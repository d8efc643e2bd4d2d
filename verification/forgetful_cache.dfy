/**
 `ForgetfulEventCache`: tracks only the index of the last applied event and
 refuses any event that does not follow it by exactly one. It keeps no history
 and can never replay.
 */
module ForgetfulCache {
  import opened Primitives
  import opened CacheTypes

  /** `index` is the Go `*uint64`: nil until the first event is stored. */
  datatype Cache = Cache(index: Option<U64>)

  /** The result of `Store`: the cache afterwards, the outcome, and the callback calls made. */
  datatype StoreResult = StoreResult(cache: Cache, outcome: Outcome, calls: seq<Applied>)

  function New(): (c: Cache)
    ensures CurrentIndex(c) == (0, false)
  {
    Cache(None)
  }

  /**
   `Store(event, onSuccess)`; `hasCallback` says whether `onSuccess` is non-nil.
   The first event is taken whatever its index; afterwards only the successor
   (with uint64 wrap-around) is.
   */
  function Store(c: Cache, e: Event, hasCallback: bool): (r: StoreResult)
    ensures r.outcome.Accepted? || r.outcome.OutOfOrder?
    ensures r.outcome.Accepted? <==> (c.index.None? || e.index == Inc64(c.index.value))
    ensures r.outcome.Accepted? ==> CurrentIndex(r.cache) == (e.index, true)
    ensures r.outcome.Accepted? && hasCallback ==> r.calls == [Applied(e.index, e)]
    ensures !(r.outcome.Accepted? && hasCallback) ==> r.calls == []
    ensures r.outcome.OutOfOrder? ==>
      r.cache == c && r.outcome.current == c.index.value && r.outcome.received == e.index &&
      r.outcome.expected == Inc64(c.index.value)
  {
    match c.index
    case Some(cur) =>
      if Inc64(cur) != e.index then
        StoreResult(c, OutOfOrder(cur, Inc64(cur), e.index), [])
      else
        Accept(e, hasCallback)
    case None => Accept(e, hasCallback)
  }

  function Accept(e: Event, hasCallback: bool): StoreResult
  {
    StoreResult(Cache(Some(e.index)), Accepted, if hasCallback then [Applied(e.index, e)] else [])
  }

  /** `CurrentIndex()`: `(0, false)` while no index is set, otherwise the index and `true`. */
  function CurrentIndex(c: Cache): (r: (U64, bool))
    ensures r.1 <==> c.index.Some?
    ensures r.1 ==> r.0 == c.index.value
    ensures !r.1 ==> r.0 == 0
  {
    match c.index
    case None => (0, false)
    case Some(i) => (i, true)
  }

  /** `ReplayFrom(_)`: this cache never holds events to replay. */
  function ReplayFrom(c: Cache, start: U64): (r: (seq<Event>, bool))
    ensures r == ([], false)
  {
    ([], false)
  }

  /** Consecutive indices: each event follows the one before it by one (uint64 arithmetic). */
  ghost predicate Consecutive(es: seq<Event>)
  {
    forall i :: 0 < i < |es| ==> es[i].index == Inc64(es[i - 1].index)
  }

  /** Stores `es` one after the other with a callback; `None` as soon as one is refused. */
  function Feed(c: Cache, es: seq<Event>): Option<Cache>
    decreases |es|
  {
    if es == [] then Some(c)
    else
      var r := Store(c, es[0], true);
      if r.outcome.Accepted? then Feed(r.cache, es[1..]) else None
  }

  /**
   Any consecutive stream is accepted from a fresh cache, whatever index it
   starts at, and afterwards the cache reports the last index as known.
   */
  lemma {:induction false} ConsecutiveStreamAccepted(es: seq<Event>)
    requires |es| > 0 && Consecutive(es)
    ensures Feed(New(), es).Some?
    ensures CurrentIndex(Feed(New(), es).value) == (es[|es| - 1].index, true)
  {
    FeedFromKnown(Store(New(), es[0], true).cache, es[1..], es[0].index);
  }

  lemma {:induction false} FeedFromKnown(c: Cache, es: seq<Event>, last: U64)
    requires c.index == Some(last)
    requires |es| > 0 ==> es[0].index == Inc64(last)
    requires Consecutive(es)
    ensures Feed(c, es).Some?
    ensures CurrentIndex(Feed(c, es).value) == (if es == [] then last else es[|es| - 1].index, true)
    decreases |es|
  {
    if es != [] {
      FeedFromKnown(Store(c, es[0], true).cache, es[1..], es[0].index);
    }
  }
}
