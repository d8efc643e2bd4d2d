/**
 Values shared by the two event caches of common/event_cache.go: the event
 stream entry, the record of one call of the caller's `onSuccess` callback, and
 the outcome of a `Store`.
 */
module CacheTypes {
  import opened Primitives

  /** A data-state event: its position in the controller's stream and an opaque payload. */
  datatype Event = Event(index: U64, payload: seq<bv8>)

  /** One invocation of the caller's `onSuccess(index, event)` callback. */
  datatype Applied = Applied(index: U64, event: Event)

  /** Runtime panics that the Go code can raise inside `Store`. */
  datatype PanicReason =
    | DivideByZero   // `% LogSize` with a zero-length log
    | NilCallback    // calling a nil `onSuccess`

  datatype Outcome =
    | Accepted
    | OutOfOrder(current: U64, expected: U64, received: U64)
    | Panicked(reason: PanicReason)
}
