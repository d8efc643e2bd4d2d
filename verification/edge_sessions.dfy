/**
 Network ("edge") sessions: a per-token count of open connections, the
 tombstones of recently removed tokens, the listeners that learn of a
 removal, and the once-only remover each registration hands out.
 */
module EdgeSessions {
  import opened Primitives
  import opened RouterState

  /**
   `RemoveEdgeSession(token)`: the token's removal event fires and its
   listeners are dropped; the token stops being tracked, and it is
   tombstoned at `now` exactly when it was tracked.
   */
  function RemoveEdgeSession(m: Manager, token: string, now: int): (r: (Manager, seq<Note>))
    ensures token !in r.0.sessions
    ensures AgreeExcept(r.0.sessions, m.sessions, token)
    ensures token in m.sessions ==> token in r.0.recentlyRemovedSessions && r.0.recentlyRemovedSessions[token] == now
    ensures token !in m.sessions ==> r.0.recentlyRemovedSessions == m.recentlyRemovedSessions
    ensures AgreeExcept(r.0.recentlyRemovedSessions, m.recentlyRemovedSessions, token)
    ensures Listeners(r.0, EdgeSessionRemovedEventName(token)) == []
    ensures forall name :: name != EdgeSessionRemovedEventName(token) ==> Listeners(r.0, name) == Listeners(m, name)
    ensures r.0.(sessions := m.sessions, recentlyRemovedSessions := m.recentlyRemovedSessions, listeners := m.listeners) == m
    ensures r.1 == [Emitted(EdgeSessionRemovedEventName(token), NoPayload, Listeners(m, EdgeSessionRemovedEventName(token)))]
  {
    var name := EdgeSessionRemovedEventName(token);
    var note := Emit(m, name, NoPayload);
    var m1 := RemoveAllListeners(m, name);
    var tombstones := if token in m.sessions then m.recentlyRemovedSessions[token := now] else m.recentlyRemovedSessions;
    (m1.(sessions := m.sessions - {token}, recentlyRemovedSessions := tombstones), [note])
  }

  /** `WasSessionRecentlyRemoved(token)`: whether the token has a tombstone. */
  function WasSessionRecentlyRemoved(m: Manager, token: string): (b: bool)
    ensures b <==> token in m.recentlyRemovedSessions.Keys
  {
    token in m.recentlyRemovedSessions
  }

  /** `MarkSessionRecentlyRemoved(token)`: tombstones the token at `now`, replacing an older tombstone. */
  function MarkSessionRecentlyRemoved(m: Manager, token: string, now: int): (r: Manager)
    ensures WasSessionRecentlyRemoved(r, token) && r.recentlyRemovedSessions[token] == now
    ensures AgreeExcept(r.recentlyRemovedSessions, m.recentlyRemovedSessions, token)
    ensures r.(recentlyRemovedSessions := m.recentlyRemovedSessions) == m
  {
    m.(recentlyRemovedSessions := m.recentlyRemovedSessions[token := now])
  }

  /**
   `flushRecentlyRemoved()` at time `now`: drops exactly the tombstones that
   are at least five minutes old.
   */
  function FlushRecentlyRemoved(m: Manager, now: int): (r: Manager)
    ensures forall t :: t in r.recentlyRemovedSessions <==>
      t in m.recentlyRemovedSessions && now - m.recentlyRemovedSessions[t] < FiveMinutes
    ensures forall t :: t in r.recentlyRemovedSessions ==> r.recentlyRemovedSessions[t] == m.recentlyRemovedSessions[t]
    ensures r.(recentlyRemovedSessions := m.recentlyRemovedSessions) == m
  {
    var rr := m.recentlyRemovedSessions;
    m.(recentlyRemovedSessions := map t | t in rr && now - rr[t] < FiveMinutes :: rr[t])
  }

  /** Flushing twice at the same time is flushing once; a later flush keeps no more than an earlier one. */
  lemma FlushIdempotentAndMonotone(m: Manager, now: int, later: int)
    requires now <= later
    ensures FlushRecentlyRemoved(FlushRecentlyRemoved(m, now), now) == FlushRecentlyRemoved(m, now)
    ensures FlushRecentlyRemoved(m, later).recentlyRemovedSessions.Keys <= FlushRecentlyRemoved(m, now).recentlyRemovedSessions.Keys
  {
    var once := FlushRecentlyRemoved(m, now);
    assert FlushRecentlyRemoved(once, now).recentlyRemovedSessions == once.recentlyRemovedSessions;
  }

  /** A tombstone set at `t0` survives every flush before `t0 + 5 min` and no flush from then on. */
  lemma TombstoneLifetime(m: Manager, token: string, t0: int, now: int)
    ensures var marked := MarkSessionRecentlyRemoved(m, token, t0);
      WasSessionRecentlyRemoved(FlushRecentlyRemoved(marked, now), token) <==> now < t0 + FiveMinutes
  {
  }

  /** What `AddEdgeSessionRemovedListener` returns to undo a registration. */
  datatype Remover =
    | NoopRemover                          // `func() {}`
    | CloseOnce(token: string, listener: nat)  // closes one connection and drops the listener, under a `sync.Once`

  /** The result of `AddEdgeSessionRemovedListener`. */
  datatype Registration = Registration(manager: Manager, notes: seq<Note>, remover: Remover)

  /**
   `AddEdgeSessionRemovedListener(token, callBack)`. `isBearer` is
   `xgress_common.IsBearerToken(token)`. A bearer token is ignored. A
   tombstoned token gets its callback started at once and nothing is
   recorded. Otherwise the connection count goes up by one (to 1 for a new
   token) and a listener that starts the callback is registered.
   */
  function AddEdgeSessionRemovedListener(m: Manager, token: string, callback: CallbackId, isBearer: bool): (r: Registration)
    ensures isBearer ==> r == Registration(m, [], NoopRemover)
    ensures !isBearer && WasSessionRecentlyRemoved(m, token) ==> r == Registration(m, [Spawned(callback, token)], NoopRemover)
    ensures !isBearer && !WasSessionRecentlyRemoved(m, token) ==>
      && token in r.manager.sessions
      && r.manager.sessions[token] == (if token in m.sessions then Inc32(m.sessions[token]) else 1)
      && AgreeExcept(r.manager.sessions, m.sessions, token)
      && r.remover == CloseOnce(token, m.nextId)
      && r.notes == []
      && Listeners(r.manager, EdgeSessionRemovedEventName(token))
         == Listeners(m, EdgeSessionRemovedEventName(token)) + [Listener(m.nextId, callback, token, true)]
      && r.manager.(sessions := m.sessions, listeners := m.listeners, nextId := m.nextId) == m
  {
    if isBearer then Registration(m, [], NoopRemover)
    else if WasSessionRecentlyRemoved(m, token) then Registration(m, [Spawned(callback, token)], NoopRemover)
    else
      var count: U32 := if token in m.sessions then Inc32(m.sessions[token]) else 1;
      var (m1, l) := AddListener(m.(sessions := m.sessions[token := count]), EdgeSessionRemovedEventName(token), callback, token, true);
      Registration(m1, [], CloseOnce(token, l.id))
  }

  /**
   `SessionConnectionClosed(token)` as written: an untracked token is
   tombstoned; a tracked count is INCREMENTED, and the token is dropped and
   tombstoned only if that wraps the count round to 0.
   */
  function SessionConnectionClosed(m: Manager, token: string, now: int): (r: Manager)
    ensures token !in m.sessions ==>
      token !in r.sessions && WasSessionRecentlyRemoved(r, token) && r.recentlyRemovedSessions[token] == now
    ensures token in m.sessions && m.sessions[token] < U32_LIMIT - 1 ==>
      token in r.sessions && r.sessions[token] == m.sessions[token] + 1 && r.recentlyRemovedSessions == m.recentlyRemovedSessions
    ensures token in m.sessions && m.sessions[token] == U32_LIMIT - 1 ==>
      token !in r.sessions && WasSessionRecentlyRemoved(r, token)
    ensures AgreeExcept(r.sessions, m.sessions, token)
    ensures AgreeExcept(r.recentlyRemovedSessions, m.recentlyRemovedSessions, token)
    ensures r.(sessions := m.sessions, recentlyRemovedSessions := m.recentlyRemovedSessions) == m
  {
    var v: U32 := if token in m.sessions then Inc32(m.sessions[token]) else 0;
    if v == 0 then
      m.(sessions := m.sessions - {token}, recentlyRemovedSessions := m.recentlyRemovedSessions[token := now])
    else
      m.(sessions := m.sessions[token := v])
  }

  /**
   `SessionConnectionClosed` with the evidently intended decrement: the count
   goes down by one, and the token is dropped and tombstoned when it reaches
   0 (an untracked token is tombstoned, as before).
   */
  function SessionConnectionClosedFixed(m: Manager, token: string, now: int): (r: Manager)
    ensures token !in m.sessions ==>
      token !in r.sessions && WasSessionRecentlyRemoved(r, token) && r.recentlyRemovedSessions[token] == now
    ensures token in m.sessions && m.sessions[token] == 1 ==>
      token !in r.sessions && WasSessionRecentlyRemoved(r, token) && r.recentlyRemovedSessions[token] == now
    ensures token in m.sessions && m.sessions[token] > 1 ==>
      token in r.sessions && r.sessions[token] == m.sessions[token] - 1 && r.recentlyRemovedSessions == m.recentlyRemovedSessions
    ensures AgreeExcept(r.sessions, m.sessions, token)
    ensures AgreeExcept(r.recentlyRemovedSessions, m.recentlyRemovedSessions, token)
    ensures r.(sessions := m.sessions, recentlyRemovedSessions := m.recentlyRemovedSessions) == m
  {
    var v: U32 := if token in m.sessions then Dec32(m.sessions[token]) else 0;
    if v == 0 then
      m.(sessions := m.sessions - {token}, recentlyRemovedSessions := m.recentlyRemovedSessions[token := now])
    else
      m.(sessions := m.sessions[token := v])
  }

  /**
   Calling a remover: a no-op remover does nothing, and a `CloseOnce`
   remover closes one connection and drops its listener the first time only.
   `fixed` selects the corrected connection-closed step over the one as written.
   */
  function InvokeRemoverWith(m: Manager, rem: Remover, now: int, fixed: bool): (r: Manager)
    ensures rem.NoopRemover? ==> r == m
    ensures rem.CloseOnce? && rem.listener in m.usedRemovers ==> r == m
    ensures rem.CloseOnce? && rem.listener !in m.usedRemovers ==>
      var step := if fixed then SessionConnectionClosedFixed(m, rem.token, now) else SessionConnectionClosed(m, rem.token, now);
      && r.usedRemovers == m.usedRemovers + {rem.listener}
      && r.sessions == step.sessions
      && r.recentlyRemovedSessions == step.recentlyRemovedSessions
      && (forall l :: l in Listeners(r, EdgeSessionRemovedEventName(rem.token)) <==>
           l in Listeners(m, EdgeSessionRemovedEventName(rem.token)) && l.id != rem.listener)
      && (forall name :: name != EdgeSessionRemovedEventName(rem.token) ==> Listeners(r, name) == Listeners(m, name))
      && r.(sessions := m.sessions, recentlyRemovedSessions := m.recentlyRemovedSessions,
            listeners := m.listeners, usedRemovers := m.usedRemovers) == m
  {
    match rem
    case NoopRemover => m
    case CloseOnce(token, id) =>
      if id in m.usedRemovers then m
      else
        var m1 := if fixed then SessionConnectionClosedFixed(m, token, now) else SessionConnectionClosed(m, token, now);
        var m2 := RemoveListener(m1, EdgeSessionRemovedEventName(token), id);
        m2.(usedRemovers := m2.usedRemovers + {id})
  }

  /** A remover does its work at most once: calling it again changes nothing. */
  lemma RemoverRunsOnce(m: Manager, rem: Remover, now: int, fixed: bool)
    ensures var r := InvokeRemoverWith(m, rem, now, fixed);
      InvokeRemoverWith(r, rem, now, fixed) == r
  {
  }

  /**
   As written, one connection registered on a fresh token and then closed
   leaves the count at 2 and the token tracked, not tombstoned.
   */
  lemma ConnectionCloseCountsUp(m: Manager, token: string, callback: CallbackId, now: int)
    requires token !in m.sessions && !WasSessionRecentlyRemoved(m, token)
    requires m.nextId !in m.usedRemovers
    ensures var reg := AddEdgeSessionRemovedListener(m, token, callback, false);
      var closed := InvokeRemoverWith(reg.manager, reg.remover, now, false);
      && token in closed.sessions && closed.sessions[token] == 2
      && !WasSessionRecentlyRemoved(closed, token)
  {
  }

  /**
   With the decrement, a token opened once and closed once is no longer
   tracked and is tombstoned.
   */
  lemma ConnectionCloseBalanced(m: Manager, token: string, callback: CallbackId, now: int)
    requires token !in m.sessions && !WasSessionRecentlyRemoved(m, token)
    requires m.nextId !in m.usedRemovers
    ensures var reg := AddEdgeSessionRemovedListener(m, token, callback, false);
      var closed := InvokeRemoverWith(reg.manager, reg.remover, now, true);
      && token !in closed.sessions
      && WasSessionRecentlyRemoved(closed, token)
  {
  }

  /** `k` connection-closed steps with the decrement. */
  function CloseTimes(m: Manager, token: string, now: int, k: nat): (r: Manager)
    ensures r.(sessions := m.sessions, recentlyRemovedSessions := m.recentlyRemovedSessions) == m
    decreases k
  {
    if k == 0 then m else CloseTimes(SessionConnectionClosedFixed(m, token, now), token, now, k - 1)
  }

  /**
   With the decrement, a count of `k` closed `j <= k` times is `k - j`; at
   `j == k` the token is gone and tombstoned.
   */
  lemma {:induction false} CloseTimesCounts(m: Manager, token: string, now: int, j: nat)
    requires token in m.sessions && 1 <= j <= m.sessions[token]
    ensures var r := CloseTimes(m, token, now, j);
      && (j < m.sessions[token] ==> token in r.sessions && r.sessions[token] == m.sessions[token] - j)
      && (j == m.sessions[token] ==> token !in r.sessions && WasSessionRecentlyRemoved(r, token))
    decreases j
  {
    var m1 := SessionConnectionClosedFixed(m, token, now);
    if j > 1 {
      CloseTimesCounts(m1, token, now, j - 1);
    }
  }

  /** Registering a listener `k` times on a fresh token counts `k` connections. */
  function RegisterTimes(m: Manager, token: string, callback: CallbackId, k: nat): (r: Manager)
    decreases k
  {
    if k == 0 then m else AddEdgeSessionRemovedListener(RegisterTimes(m, token, callback, k - 1), token, callback, false).manager
  }

  lemma {:induction false} RegisterTimesCounts(m: Manager, token: string, callback: CallbackId, k: nat)
    requires token !in m.sessions && !WasSessionRecentlyRemoved(m, token) && k < U32_LIMIT
    ensures var r := RegisterTimes(m, token, callback, k);
      && !WasSessionRecentlyRemoved(r, token)
      && (k == 0 ==> token !in r.sessions)
      && (k > 0 ==> token in r.sessions && r.sessions[token] == k)
    decreases k
  {
    if k > 0 {
      RegisterTimesCounts(m, token, callback, k - 1);
      var prev := RegisterTimes(m, token, callback, k - 1);
      var reg := AddEdgeSessionRemovedListener(prev, token, callback, false);
      assert RegisterTimes(m, token, callback, k) == reg.manager;
      assert reg.manager.recentlyRemovedSessions == prev.recentlyRemovedSessions;
    }
  }

  /**
   With the decrement, `k` registrations followed by `k` closes leave the
   token untracked and tombstoned, for any `k` a uint32 can count.
   */
  lemma BalancedOpenClose(m: Manager, token: string, callback: CallbackId, now: int, k: nat)
    requires token !in m.sessions && !WasSessionRecentlyRemoved(m, token) && 0 < k < U32_LIMIT
    ensures var r := CloseTimes(RegisterTimes(m, token, callback, k), token, now, k);
      token !in r.sessions && WasSessionRecentlyRemoved(r, token)
  {
    RegisterTimesCounts(m, token, callback, k);
    CloseTimesCounts(RegisterTimes(m, token, callback, k), token, now, k);
  }

  /**
   A registered listener's callback is started when the token is removed;
   afterwards the token is tombstoned, so the next registration starts its
   callback at once.
   */
  lemma RemovalReachesListeners(m: Manager, token: string, cb1: CallbackId, cb2: CallbackId, now: int)
    requires !WasSessionRecentlyRemoved(m, token)
    ensures var reg := AddEdgeSessionRemovedListener(m, token, cb1, false);
      var (m2, notes) := RemoveEdgeSession(reg.manager, token, now);
      && Listener(m.nextId, cb1, token, true) in notes[0].fired
      && AddEdgeSessionRemovedListener(m2, token, cb2, false).notes == [Spawned(cb2, token)]
  {
    var reg := AddEdgeSessionRemovedListener(m, token, cb1, false);
    assert Listener(m.nextId, cb1, token, true) in Listeners(reg.manager, EdgeSessionRemovedEventName(token));
  }

  /**
   Two removal listeners registered for a token are each called once by its
   removal; a second removal calls neither.
   */
  lemma ListenersFireOnce(m: Manager, token: string, cb1: CallbackId, cb2: CallbackId, now: int)
    requires !WasSessionRecentlyRemoved(m, token) && Listeners(m, EdgeSessionRemovedEventName(token)) == []
    ensures var reg1 := AddEdgeSessionRemovedListener(m, token, cb1, false);
      var reg2 := AddEdgeSessionRemovedListener(reg1.manager, token, cb2, false);
      var (m2, first) := RemoveEdgeSession(reg2.manager, token, now);
      var (_, second) := RemoveEdgeSession(m2, token, now);
      && first[0].fired == [Listener(m.nextId, cb1, token, true), Listener(m.nextId + 1, cb2, token, true)]
      && second[0].fired == []
  {
  }
}
