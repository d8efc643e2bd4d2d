# Router session state, data-state event caches and CLI environment helpers

This project is a Dafny model of three pieces of the OpenZiti code base:

- **The data-state event caches** (`common/event_cache.go`).
  - The controller streams numbered data-state events to routers.
  - A `ForgetfulEventCache` only remembers the index of the last event it applied. It refuses any event that is not that index plus one, with uint64 wrap-around.
  - A `LoggingEventCache` keeps a fixed-size circular log of indices and a map from index to event. This lets it replay the events a reconnecting consumer has missed.
- **The router's session manager** (`router/state/manager.go`).
  - The registry of API sessions by token, with the events each change emits and the per-token removal listeners.
  - Reconciliation against the controller's list.
  - Lookup of a session by token, including the JWT path.
  - The count of open connections per network ("edge") session, with the tombstones of recently removed sessions and their five-minute expiry.
  - The channels carrying each API session, and the rebinding of a channel to a refreshed session.
  - The marker of the data-model sync in progress.
  - The trust keys of the router data model: the certificate cache, JWT key lookup and the client-certificate root pool.
  - The chunked, jittered validation of network sessions with the controller.
  - The bounded wait for an API session that has not arrived yet.
- **The command line's path and environment helpers** (`ziti/cmd/helpers/env_helpers.go`).
  - `NormalizePath`, `getFromEnv`, `HomeDir`, `WorkingDir`, `GetZitiHome` and `HostnameOrNetworkName`.

## How the model works

The manager is one immutable value, `RouterState.Manager`. Each operation returns the new value.

- **Concurrent maps.** Each concurrent map of the Go code is a plain `map`. Every operation is treated as atomic.
- **Events.** What an operation does outside the manager is returned as a trace of `Note`s:
  - the events it emits and the listeners each emit calls;
  - the callbacks it starts on a goroutine;
  - the callbacks it calls directly.
- **Frame.** Each contract states what changes. Everything else is pinned with `r.(field := m.field) == m`, and maps that change at one key are pinned with `AgreeExcept`.
- **Outside the model.** The wall clock, the random jitter, the results of sending to a channel, X.509/PKIX parsing and chain verification are all parameters.
- **Unordered iteration.** Go's iteration over a map has no fixed order. Loops that walk a map pick the next key non-deterministically, so their contracts hold for every order.
- **Machine integers.** `uint32` and `uint64` arithmetic is written out with wrap-around (`Primitives.Inc32`, `Dec32`, `Inc64`).

Where the code does not do what its names, comments or interface promise, the model has both:

- the member as written, with a lemma that shows the discrepancy on a concrete input;
- a corrected member, with the intended property proved about it.

These pairs are listed under "## Findings".

Where the code does something its names or a reader would not expect, the model follows the code:

- **Backoff cap in `GetApiSessionWithTimeout`.** The wait is doubled only while it is below one second. So it ends at 1024 ms, not at one second (`SessionValidation.WaitAtIsCappedDoubling`).
- **Certificate cache on `SetRouterDataModel`.** Installing a new data model does not clear the certificate cache. A key id that was parsed before keeps its old certificate (`TrustKeys.CachedCertSurvivesModelSwap`).
- **`IsSyncInProgress`.** It is modelled as written: it answers true when no sync is running.
- **A fresh `LoggingEventCache`** reports index 0 as known whenever its log has a slot.
- **`ValidateSessions` with a chunk size of 0** sends an empty chunk every round and keeps every token. It stops at the first failed send, and never stops when no send fails (`SpinsForever`).

## Model

| member | source | states |
|---|---|---|
| ForgetfulCache.New | common/event_cache.go:38-40 | a new forgetful cache reports no current index: (0, false) |
| ForgetfulCache.Store | common/event_cache.go:49-63 | an event is accepted iff the cache is empty or the event's index is the current one plus one (uint64 wrap-around); an accepted event becomes the current index and the callback gets it exactly when one is given; a refused event leaves the cache unchanged and reports the current index, the expected one (current plus one, wrapping) and the received one |
| ForgetfulCache.CurrentIndex | common/event_cache.go:85-94 | the index is reported as known iff one was stored, and reads 0 otherwise |
| ForgetfulCache.ReplayFrom | common/event_cache.go:65-67 | the forgetful cache never replays: nothing, and false |
| ForgetfulCache.ConsecutiveStreamAccepted | common/event_cache.go:49-63 | every stream of consecutive indices, from any start, is accepted in full by a fresh cache, which then reports the last index |
| LoggingCache.New | common/event_cache.go:69-76 | a new log has `logSize` empty slots, the head at slot 0 and no events; it reports (0, true) when it has a slot and (0, false) otherwise |
| LoggingCache.CurrentIndex | common/event_cache.go:145-151 | the current index is the head slot's content, known iff the log has a slot |
| LoggingCache.Advance | common/event_cache.go:116-132 | a store moves the head to the next slot (wrapping to 0), writes the event's index there, evicts the event that slot held, and keeps every other event |
| LoggingCache.Store | common/event_cache.go:105-136 | refused iff a current index is known and the event does not follow it, changing nothing; with a zero-length log it panics on `% LogSize`; an accepted event is written and becomes current; with no callback the code panics after the write |
| LoggingCache.StoreNilSafe | common/event_cache.go:11-14 | with the nil check the interface documents, an in-order store never panics on the callback, stores what `Store` stores, and calls the callback exactly once when one is given |
| LoggingCache.FirstSlot | common/event_cache.go:163-175 | the search finds the first slot holding the start index, and none iff no slot holds it |
| LoggingCache.ReplayFrom | common/event_cache.go:153-202 | succeeds iff the start index has an event and a slot, and fails with nothing otherwise; a result has fewer entries than the log has slots |
| LoggingCache.ReplayFromRing | common/event_cache.go:177-201 | on success the result is the ring walk from the first slot holding the start index up to, but not including, the head: one entry per step, each the event of that slot's index, nil when the map has none |
| LoggingCache.ReplayAfter | common/event_cache.go:19-23 | corrected replay: succeeds iff the start index has an event and a slot, and fails with nothing otherwise |
| LoggingCache.ReplayAfterRing | common/event_cache.go:19-23 | on success the result is the ring walk from the slot after the start slot up to and including the head, each entry the event of that slot's index |
| LoggingCache.ReplayAfterEndsAtHead | common/event_cache.go:19-23 | a non-empty corrected replay ends with what the head slot holds: the current event |
| LoggingCacheProofs.NewInv | common/event_cache.go:69-76 | a fresh log of n > 0 slots is in the reachable-state invariant for the empty stream |
| LoggingCacheProofs.StoreStep | common/event_cache.go:105-136 | from a reachable state, the next event of the stream is accepted and the invariant holds for the longer stream |
| LoggingCacheProofs.FeedReachesInv | common/event_cache.go:105-136 | feeding the stream 1..M into a fresh log accepts every event and reaches the invariant |
| LoggingCacheProofs.AfterStream | common/event_cache.go:105-136 | the state after the stream 1..M is the one `Feed` reaches, and it satisfies the invariant |
| LoggingCacheProofs.Retention | common/event_cache.go:118-129 | after the stream 1..M in n slots: the current index is M, the cache holds exactly the events max(1, M-n+1)..M, each the one stored, and never more than n |
| LoggingCacheProofs.ReplayFromWindow | common/event_cache.go:153-202 | after the stream 1..M, as-written replay from a retained k yields events k..M-1, leaving out the current event, whether or not the window wraps past slot 0; an evicted or unknown k fails |
| LoggingCacheProofs.ReplayAfterWindow | common/event_cache.go:19-23 | after the stream 1..M, corrected replay from a retained k yields exactly the events k+1..M; any other k fails |
| LoggingCacheProofs.ReplayFromWrappedExample | common/event_cache.go:182-189 | three slots after events 1..5, once the log has wrapped round: replay from 3 returns events 3 and 4, without the current event 5 |
| LoggingCacheProofs.ReplayAfterWrappedExample | common/event_cache.go:19-23 | in the same state the corrected replay from 3 returns events 4 and 5 |
| LoggingCacheProofs.ReplayEvictedExample | common/event_cache.go:157-161 | in the same state the evicted index 2 cannot be replayed from |
| RouterState.NewManager | router/state/manager.go:113-124 | a new manager has every map empty, no sync marker, no data model and no listeners |
| RouterState.EdgeSessionRemovedEventName | router/state/manager.go:574-577 | the per-token name is `RemovedEdgeSession`, a dash, then the token |
| RouterState.ApiSessionRemovedEventName | router/state/manager.go:579-582 | the per-token name is `RemovedApiSession`, a dash, then the token |
| RouterState.EventNamesDistinct | router/state/manager.go:574-582 | per-token names are equal iff the tokens are, and an edge-session name never equals an API-session name |
| RouterState.PerTokenNamesAreNotGlobal | router/state/manager.go:574-582 | no per-token name is one of the global event names, so global emits never reach per-token listeners |
| RouterState.Emit | router/state/manager.go:368 | an emit of a name carries its payload and calls exactly the listeners registered for that name, each once |
| RouterState.AddListener | router/state/manager.go:529 | the new listener, with a fresh id, is appended to the name's listeners; other names' listeners are unchanged |
| RouterState.RemoveListener | router/state/manager.go:535 | the name keeps exactly its listeners with another id; other names' listeners and the rest of the state are unchanged |
| RouterState.RemoveAllListeners | router/state/manager.go:386-388 | the name is left with no listener; other names' listeners and the rest of the state are unchanged |
| ApiSessions.AddApiSession | router/state/manager.go:361-369 | the record is stored under its token, replacing only that entry, and `AddedApiSession` is emitted with it to that event's listeners |
| ApiSessions.UpdateApiSession | router/state/manager.go:371-379 | stores exactly as `AddApiSession` does, announced as `UpdatedApiSession` |
| ApiSessions.RemoveApiSession | router/state/manager.go:381-392 | an unknown token changes and emits nothing; otherwise the record goes, the token's removal event fires its listeners, which are dropped, then `RemovedApiSession` is emitted with the record; nothing else changes |
| ApiSessions.RemoveApiSessionIdempotent | router/state/manager.go:381-392 | removing a token a second time changes and emits nothing |
| ApiSessions.KnownTokens | router/state/manager.go:398-401 | the valid tokens are exactly the tokens of the controller's list |
| ApiSessions.Missing | router/state/manager.go:403-408 | a token is removed iff it is held, not listed, and either no cutoff is given or its session id sorts at or before the cutoff |
| Primitives.LexLessEq | router/state/manager.go:405 | Go's `<=` on strings: true iff `a` is a prefix of `b` or, at the first position where they differ, `a` has the smaller character |
| Primitives.LexLessEqTotal | router/state/manager.go:405 | any two strings are ordered one way or the other |
| Primitives.LexLessEqAntisymmetric | router/state/manager.go:405 | strings ordered both ways are equal |
| Primitives.LexLessEqTransitive | router/state/manager.go:405 | the order is transitive |
| ApiSessions.KeepsAfterCutoff | router/state/manager.go:403-406 | with a cutoff, an unlisted record is kept iff its session id sorts strictly after the cutoff |
| ApiSessions.KeepsMonotoneInCutoff | router/state/manager.go:403-406 | a record kept under a later cutoff is kept under every earlier one too |
| ApiSessions.RemoveMissingApiSessions | router/state/manager.go:397-413 | afterwards exactly the listed or newer-than-cutoff records remain, unchanged; for each removed token its per-token removal event and `RemovedApiSession` with its record are emitted, two notes per token, and its listeners are dropped; no other listener changes; holds for every iteration order |
| ApiSessions.ParseJwt | router/state/manager.go:279-293 | a parsed token is accepted iff its claims are of the access type |
| ApiSessions.NewApiSessionFromToken | router/state/manager.go:457-467 | the session's record takes its id from the JWT id, its token from the raw JWT and its fingerprints from the claims, and carries the claims |
| ApiSessions.GetApiSession | router/state/manager.go:469-497 | with HA enabled and the JWT prefix, a session is returned iff the token parses with the access type and the OpenZiti audience, built from the token; otherwise iff the registry holds the token, without claims |
| ApiSessions.AddThenGet | router/state/manager.go:361-497 | outside the JWT path, a stored record is found by its token, and is gone after removal |
| ApiSessions.AddApiSessionRemovedListener | router/state/manager.go:562-572 | appends a listener for the token's removal event that calls the callback with the token |
| ApiSessions.RemovalFiresListener | router/state/manager.go:381-392 | a removal listener of a held token is called by the token's removal, and a later removal calls nothing |
| EdgeSessions.RemoveEdgeSession | router/state/manager.go:415-428 | the token's removal event fires its listeners, which are dropped; the token stops being tracked and is tombstoned now iff it was tracked; nothing else changes |
| EdgeSessions.WasSessionRecentlyRemoved | router/state/manager.go:499-501 | true iff the token has a tombstone |
| EdgeSessions.MarkSessionRecentlyRemoved | router/state/manager.go:503-505 | the token is tombstoned at now, replacing only its own entry |
| EdgeSessions.FlushRecentlyRemoved | router/state/manager.go:677-695 | a tombstone is kept iff it is less than five minutes old, with its time unchanged |
| EdgeSessions.FlushIdempotentAndMonotone | router/state/manager.go:677-695 | flushing twice at one time is flushing once; a later flush keeps no more tombstones than an earlier one |
| EdgeSessions.TombstoneLifetime | router/state/manager.go:499-505 | a tombstone set at t0 is reported by `WasSessionRecentlyRemoved` after a flush at now iff now < t0 + 5 min |
| EdgeSessions.AddEdgeSessionRemovedListener | router/state/manager.go:507-538 | a bearer token is ignored; a tombstoned token gets its callback started at once, changing nothing; otherwise the count goes up by one (1 for a new token), a listener that starts the callback is appended, and a once-only remover is returned |
| EdgeSessions.SessionConnectionClosed | router/state/manager.go:540-560 | as written: an untracked token is tombstoned; a tracked count is incremented, and the token is dropped only when the increment wraps to 0 |
| EdgeSessions.SessionConnectionClosedFixed | router/state/manager.go:540-560 | with the decrement: the count drops by one, and at 0 the token is dropped and tombstoned |
| EdgeSessions.InvokeRemoverWith | router/state/manager.go:531-537 | the no-op remover changes nothing; a close-once remover the first time runs the connection-closed step (its sessions and tombstones), drops exactly its own listener of the token's event and marks itself used, leaving other events' listeners and every other field alone; afterwards it changes nothing |
| EdgeSessions.RemoverRunsOnce | router/state/manager.go:531-537 | calling a remover a second time changes nothing |
| EdgeSessions.ConnectionCloseCountsUp | router/state/manager.go:541-546 | as written, one registration then its close leaves the count at 2 and the token not tombstoned |
| EdgeSessions.ConnectionCloseBalanced | router/state/manager.go:540-560 | with the decrement, one registration then its close leaves the token untracked and tombstoned |
| EdgeSessions.RegisterTimesCounts | router/state/manager.go:517-522 | k registrations on a fresh token count k connections |
| EdgeSessions.CloseTimesCounts | router/state/manager.go:540-560 | with the decrement, j closes of a count of k leave k - j, and at j = k the token is gone and tombstoned |
| EdgeSessions.BalancedOpenClose | router/state/manager.go:507-560 | with the decrement, k registrations followed by k closes leave the token untracked and tombstoned, for every k a uint32 can count |
| EdgeSessions.RemovalReachesListeners | router/state/manager.go:507-538 | a registered listener is called by the token's removal, and a registration after the removal starts its callback at once |
| EdgeSessions.ListenersFireOnce | router/state/manager.go:415-428 | two listeners of a token are each called once, in order, by its removal; a second removal calls neither |
| ConnectedSessions.AddConnectedApiSession | router/state/manager.go:607-614 | the token gets an entry, and an existing entry is kept as it is |
| ConnectedSessions.RemoveConnectedApiSession | router/state/manager.go:616-618 | the token's entry is dropped, without running callbacks |
| ConnectedSessions.AddConnectedApiSessionWithChannel | router/state/manager.go:620-634 | the channel is bound to the token with its callback, creating the entry if needed; the token's other channels are kept |
| ConnectedSessions.RemoveConnectedApiSessionWithChannel | router/state/manager.go:636-654 | an unconnected token changes nothing; otherwise the channel's callback runs iff it is bound, the channel goes, and the token stays iff other channels remain |
| ConnectedSessions.AddRemoveChannelRoundTrip | router/state/manager.go:620-654 | binding a new channel and removing it restores the state and runs its callback once, unless the token's entry was empty |
| ConnectedSessions.AddRemoveChannelDropsEmptyEntry | router/state/manager.go:620-654 | a token whose entry was empty loses that entry when a channel is bound and removed |
| ConnectedSessions.VisitChannels | router/state/manager.go:755-762 | visiting a token's channels in any order lists the token once per open channel, and collects exactly the callbacks of the closed ones, one per closed channel |
| ConnectedSessions.CollectTokens | router/state/manager.go:656-672 | the walk lists each token as often as it has open channels, and collects only owed callbacks, every one of them, one per (token, closed channel) entry |
| ConnectedSessions.ActiveApiSessionTokens | router/state/manager.go:656-675 | as written: each token once per open channel, and no collected callback is run |
| ConnectedSessions.ActiveApiSessionTokensClosing | router/state/manager.go:656-675 | corrected: the same tokens; it runs only owed callbacks, every one of them, one run per (token, closed channel) entry |
| ConnectedSessions.ClosedChannelCallbackOwed | router/state/manager.go:664-667 | a token whose only channel is closed is not listed, and its callback is owed a run |
| ChannelBinding.GetApiSessionFromCh | router/state/manager.go:182-186 | the session bound to the channel's id, and nil when the id is unbound |
| ChannelBinding.AddActiveChannel | router/state/manager.go:188-190 | the channel's id is bound to the session; every other channel keeps its binding |
| ChannelBinding.RemoveActiveChannel | router/state/manager.go:192-194 | the channel's id is unbound; every other channel keeps its binding |
| ChannelBinding.AddRemoveActiveChannel | router/state/manager.go:188-194 | binding and then unbinding an unbound channel restores the state |
| ChannelBinding.UpdateChApiSession | router/state/manager.go:150-176 | as written: nil session and nil claims are errors; for an access token, the rebind succeeds iff the channel's current session has claims with the same subject and API session id; it panics iff the channel has no session or its session has no claims |
| ChannelBinding.UpdateChApiSessionChecked | router/state/manager.go:150-176 | with the missing nil checks: never panics, succeeds exactly when the version as written does, and agrees with it wherever that does not panic |
| ChannelBinding.RebindKeepsIdentity | router/state/manager.go:163-173 | a successful rebind binds the new session, keeps the subject and API session id, and changes no other channel |
| ChannelBinding.RefusedRebindKeepsBinding | router/state/manager.go:165-171 | a session of another identity is refused with a subject or API session id mismatch |
| ChannelBinding.UnboundChannelPanics | router/state/manager.go:163-165 | rebinding a never-bound channel panics as written and is refused by the corrected version |
| SyncTracker.MarkSyncInProgress | router/state/manager.go:341-345 | the given id becomes the sync marker; nothing else changes |
| SyncTracker.MarkSyncStopped | router/state/manager.go:347-353 | the marker is cleared iff it holds that id; otherwise nothing changes |
| SyncTracker.IsSyncInProgressFixed | router/state/manager.go:355-359 | corrected: true iff a sync id is set |
| SyncTracker.IsSyncInProgress | router/state/manager.go:355-359 | as written: the negation of the corrected query, true iff no sync id is set |
| SyncTracker.SyncReportInverted | router/state/manager.go:355-359 | as written, a sync just marked is reported not in progress, and once stopped it is reported in progress |
| SyncTracker.SyncLifecycle | router/state/manager.go:341-359 | with the corrected query, a marked sync is in progress until that same id stops it; a stop for another id leaves it running |
| SyncTracker.StopIdempotent | router/state/manager.go:347-353 | stopping the same id twice is stopping it once |
| TrustKeys.Contains | router/state/manager.go:220-228 | the scan is true iff the element occurs in the list |
| TrustKeys.RouterDataModel | router/state/manager.go:324-331 | the stored model is returned; with none, an empty model is created, stored and returned |
| TrustKeys.RouterDataModelStable | router/state/manager.go:324-331 | asking twice gives the same model, and the second ask changes nothing |
| TrustKeys.SetRouterDataModel | router/state/manager.go:333-339 | the model is installed and the certificate cache is kept |
| TrustKeys.GetX509FromData | router/state/manager.go:230-244 | a certificate cached under the key id is returned whatever the data; otherwise the data is parsed and, only on success, cached under the key id |
| TrustKeys.CertCachedUnderKid | router/state/manager.go:230-244 | once a key id has a certificate, later requests return it even with other data |
| TrustKeys.CollectRoots | router/state/manager.go:252-263 | the pool is exactly the cached certificates of the client-validation keys; the cache keeps every entry, gains only ids of client-validation keys, and ends up holding every client-validation key whose data parses; nothing but the cache changes |
| TrustKeys.SettledCollectsNothing | router/state/manager.go:252-263 | when every uncached client-validation key fails to parse, collecting the roots changes nothing |
| TrustKeys.CollectRootsStable | router/state/manager.go:252-263 | with distinct key ids, a second collection from a cache holding the first's results gives the same pool and caches nothing new |
| TrustKeys.VerifyClientCert | router/state/manager.go:246-277 | without a data model it panics and changes nothing; otherwise it collects the roots and the certificate is verified iff `verify` accepts it against exactly the cached certificates of the client-validation keys |
| TrustKeys.VerifyClientCertRepeatable | router/state/manager.go:246-277 | a second verification leaves the state as the first left it and sees the same pool |
| TrustKeys.SharedKidSamePool | router/state/manager.go:252-263 | two client-validation keys sharing an id, the first unparsable and the second parsable: the pool is that one certificate on the first verification and on the second |
| TrustKeys.CachedCertSurvivesModelSwap | router/state/manager.go:333-339 | after a new model is installed, a key id parsed before keeps its old certificate, which is then the whole pool |
| TrustKeys.ParsePublicKey | router/state/manager.go:809-827 | DER data yields the first certificate's key, and an empty list is an error; a PKIX block yields its key; any other format is unsupported; it never panics |
| TrustKeys.FirstSigner | router/state/manager.go:311-319 | finds the first key with the JWT-validation usage and exactly that key id, and none iff no key qualifies |
| TrustKeys.PubKeyLookup | router/state/manager.go:295-322 | a missing or non-string `kid` header is an error; the id is trimmed; without a data model it panics; the first JWT key with that id is parsed; with none it is "public key not found" |
| TrustKeys.KidTrimmed | router/state/manager.go:308 | the `kid` header and its trimmed form find the same key |
| TrustKeys.ClientOnlyKeyNotUsedForJwt | router/state/manager.go:313-315 | a key without the JWT-validation usage is never used to check a signature |
| GoStrings.LeadingSpace | router/state/manager.go:308 | the count of leading white space: all of it is space, and the next character is not |
| GoStrings.TrailingStart | router/state/manager.go:308 | the start of the trailing white space: all after it is space, and the character before it is not |
| GoStrings.TrimSpace | router/state/manager.go:308 | the result is the input with leading and trailing white space removed, and starts and ends with a non-space |
| GoStrings.TrimSpaceUnique | router/state/manager.go:308 | any removal of white space from both ends that leaves non-space at both ends is `TrimSpace` |
| GoStrings.TrimSpaceIdempotent | router/state/manager.go:308 | trimming twice is trimming once |
| SessionValidation.Chunks | router/state/manager.go:767-777 | for a positive chunk size, the chunks joined are the tokens in order; each chunk is non-empty and at most the size, and all but the last are full |
| SessionValidation.JitterInterval | router/state/manager.go:796-803 | as written: with min < max, the pause lies in [2 min, min + max); otherwise it is min |
| SessionValidation.JitterIntervalFixed | router/state/manager.go:796-803 | corrected: with min < max, the pause lies in [min, max); otherwise it is min |
| SessionValidation.JitterExceedsWindow | router/state/manager.go:801 | with a 1 s minimum and a 2 s maximum, every pause as written is at least 2 s, while the corrected one stays in [1 s, 2 s) |
| SessionValidation.RunPass | router/state/manager.go:767-805 | the pass completes iff every remaining send succeeds |
| SessionValidation.RunPassSends | router/state/manager.go:767-805 | a completed pass sends exactly the remaining chunks in order, with a pause between each two; an aborted pass sends a prefix ending with the failed send |
| SessionValidation.SendSucceeds | router/state/manager.go:791-794 | send i succeeds iff no send fails or i comes before the first failing one |
| SessionValidation.EmptyRoundsSend | router/state/manager.go:767-805 | rounds k to j - 1 with chunk size 0 send j - k empty chunks and make j - k pauses, each the jitter of its round |
| SessionValidation.PassPausesBounded | router/state/manager.go:796-803 | every pause of a pass lies in the window of its interval function |
| SessionValidation.ValidateSessions | router/state/manager.go:764-807 | no tracked token means no send; with a positive chunk size the pass completes iff no send fails before the chunks run out, and then sends every token in order; with chunk size 0 every round sends an empty chunk, so the pass aborts at the first failed send after that many pauses, and spins iff no send fails |
| SessionValidation.SessionKeys | router/state/manager.go:765 | the keys list every tracked token exactly once |
| SessionValidation.ValidateTrackedSessions | router/state/manager.go:764-807 | it spins iff sessions are tracked, the chunk size is 0 and no send fails; a completed pass over the tracked sessions sends each tracked token exactly once |
| SessionValidation.WaitAtIsCappedDoubling | router/state/manager.go:436-445 | the wait is 2^k ms for the first ten polls and then stays at 1024 ms |
| SessionValidation.GetApiSessionWithTimeout | router/state/manager.go:430-449 | nil iff the first lookup and every poll before the deadline found nothing; otherwise the first session found, at the first poll that found one |
| SessionValidation.PollsBounded | router/state/manager.go:437-445 | every poll is at least 1 ms after the one before, so at most timeout / 1 ms polls happen before the deadline |
| EnvHelpers.NormalizePath | ziti/cmd/helpers/env_helpers.go:162-165 | same length; every backslash becomes a slash and every other character is kept |
| EnvHelpers.NormalizePathIdempotent | ziti/cmd/helpers/env_helpers.go:162-165 | a normalized path has no backslash, and normalizing it again changes nothing |
| EnvHelpers.NormalizePathKeepsClean | ziti/cmd/helpers/env_helpers.go:162-165 | a path without backslashes is returned unchanged |
| EnvHelpers.GetFromEnv | ziti/cmd/helpers/env_helpers.go:153-160 | a variable set to something non-empty is returned; otherwise the fallback |
| EnvHelpers.GetFromEnvAfterSetenv | ziti/cmd/helpers/env_helpers.go:153-160 | after setting the variable, it is returned unless empty; other variables read as before; a fallback that is the lookup itself changes nothing |
| EnvHelpers.HomeDir | ziti/cmd/helpers/env_helpers.go:29-38 | `HOME` as it is when set; else `USERPROFILE` normalized; else "."; never empty |
| EnvHelpers.HomeDirSlashes | ziti/cmd/helpers/env_helpers.go:29-38 | a home directory not taken from `HOME` has no backslash |
| EnvHelpers.WorkingDir | ziti/cmd/helpers/env_helpers.go:40-47 | an OS error is passed on; an empty directory is "" with no error; otherwise the directory normalized |
| EnvHelpers.GetZitiHome | ziti/cmd/helpers/env_helpers.go:49-70 | the variable normalized when set; otherwise the working directory (or "." on error) is written to the environment and returned normalized, and a failed write is an error |
| EnvHelpers.GetZitiHomeStable | ziti/cmd/helpers/env_helpers.go:49-70 | after a successful call, a second call returns the same path and leaves the environment alone |
| EnvHelpers.HostnameOrNetworkName | ziti/cmd/helpers/env_helpers.go:72-82 | `ZITI_NETWORK_NAME` when set; else the host name; "localhost" when that fails |
| EnvHelpers.NetworkNameIsGetFromEnv | ziti/cmd/helpers/env_helpers.go:72-82 | the lookup is `getFromEnv` of `ZITI_NETWORK_NAME` with the host name, or "localhost" when that fails, as fallback |

## Left out

- Locks, `sync.Once`, goroutines and the concurrent maps' internal locking. Every operation is modelled as atomic, and a spawned callback is a `Spawned` note.
- The emitter's internals. `Emit` calls the listeners of a name in registration order. `RemoveListener` is done at once, not on a goroutine.
- The listener callbacks themselves. They are identified by `CallbackId`, and what they do is not modelled.
- `jwt.ParseWithClaims`, signature checking, `x509.ParseCertificate`, `x509.ParseCertificates`, `x509.ParsePKIXPublicKey` and `cert.Verify`. They are function parameters, and the model states how the manager uses their results. The certificate's not-before time as the verification clock is part of `verify`.
- `xgress_common.IsBearerToken` and `IsHaEnabled` are boolean parameters.
- The real clock. `time.Now()` is a `now` parameter. Sleeps advance the modelled clock by exactly the wait, and lookups take no time.
- `rand.Int63n` is a `deltas` parameter within its range.
- Durations are unbounded integers. int64 overflow of `time.Duration` is not modelled.
- `proto.Marshal` failure in `ValidateSessions` is not modelled: it cannot fail on a list of strings. A failed send is modelled.
- The routine that starts the five-minute flush, the heartbeat, data-model save and load, `DumpApiSessions`, `StartRouterModelSave` and configuration loading are not part of this model. They are timers, files and logging around the modelled operations.
- `WhileLocked` of the event caches is not modelled. It only runs a callback under the lock.
- The `GetCtrl*` and enrollment-duration helpers of env_helpers.go are not part of this model. Each one is `getFromEnv` with a constant name and default.
- Log output of every operation is not modelled.
- `RouterState.Manager` keeps only the public keys of the router data model, in iteration order.
- ValidateSessions: with a chunk size of 0 and no failing send the loop never ends. It is reported as `SpinsForever` instead of an endless trace.
- LoggingCache.ReplayFrom: its contract gives the failure cases and the bound. What it returns on success is stated by `LoggingCache.ReplayFromRing`, and which events that is after the stream 1..M by `LoggingCacheProofs.ReplayFromWindow`.
- LoggingCache.ReplayAfter: its contract gives the failure cases. What it returns on success is stated by `LoggingCache.ReplayAfterRing` and `LoggingCache.ReplayAfterEndsAtHead`, and which events that is after the stream 1..M by `LoggingCacheProofs.ReplayAfterWindow`.
- LoggingCacheProofs.Retention: it is proved for streams numbered from 1, not from an arbitrary start index. A log slot holding 0 means "empty", so a stream through index 0 behaves differently.
- ValidateSessions: the order of `sessions.Keys()` is a parameter (`tokens`). `ValidateTrackedSessions` covers every order.

## Findings

| source | as written | input that shows it | evidently intended | confidence | as-written member | corrected member |
|---|---|---|---|---|---|---|
| router/state/manager.go:541-546 | `SessionConnectionClosed` adds one to the connection count | register one connection on a fresh token, then close it: the count is 2 and the token is never tombstoned | subtract one, and drop and tombstone the token at 0 | not executed | EdgeSessions.ConnectionCloseCountsUp | EdgeSessions.BalancedOpenClose |
| router/state/manager.go:355-359 | `IsSyncInProgress` returns `currentSync == ""` | `MarkSyncInProgress("a")` then `IsSyncInProgress()` is false | true exactly while a sync id is set | not executed | SyncTracker.SyncReportInverted | SyncTracker.SyncLifecycle |
| router/state/manager.go:801 | the pause is `minInterval + minInterval + delta` | min 1 s, max 2 s: every pause is at least 2 s | a pause of `minInterval + delta`, in [min, max) | not executed | SessionValidation.JitterExceedsWindow | SessionValidation.PassPausesBounded |
| router/state/manager.go:656-675 | the callbacks of closed channels are collected in `toClose` and never called | one token with one closed channel: its callback is never run | run every collected callback | not executed | ConnectedSessions.ClosedChannelCallbackOwed | ConnectedSessions.ActiveApiSessionTokensClosing |
| router/state/manager.go:163-165 | the current session is dereferenced without a nil check | `UpdateChApiSession` on a channel with no bound session panics | return an error when the channel has no session or no claims | not executed | ChannelBinding.UnboundChannelPanics | ChannelBinding.UpdateChApiSessionChecked |
| common/event_cache.go:134 | `LoggingEventCache.Store` calls `onSuccess` without a nil check, after the cache has changed | `Store(event, nil)` with an in-order event panics | skip a nil callback, as the interface says "onSuccess may be nil" | not executed | LoggingCache.Store | LoggingCache.StoreNilSafe |
| common/event_cache.go:182-201 | `ReplayFrom` returns the slots from the start slot up to, but not including, the head | three slots after events 1..5: replay from 3 gives 3 and 4, never the current event 5 | the events after the start index up to and including the current one, which is what the empty result at the current index implies | not executed | LoggingCacheProofs.ReplayFromWrappedExample | LoggingCacheProofs.ReplayAfterWindow |
