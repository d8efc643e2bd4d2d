/**
 Which API session each live channel is bound to, and the rebinding of a
 channel to a refreshed session of the same identity.
 */
module ChannelBinding {
  import opened Primitives
  import opened RouterState

  /** `GetApiSessionFromCh(ch)`: the session bound to the channel's id, nil when there is none. */
  function GetApiSessionFromCh(m: Manager, ch: Channel): (s: Option<ApiSession>)
    ensures ch.id !in m.activeChannels ==> s == None
    ensures ch.id in m.activeChannels ==> s == m.activeChannels[ch.id]
  {
    if ch.id in m.activeChannels then m.activeChannels[ch.id] else None
  }

  /** `AddActiveChannel(ch, session)`: binds the channel's id to the session, replacing any binding. */
  function AddActiveChannel(m: Manager, ch: Channel, session: Option<ApiSession>): (r: Manager)
    ensures GetApiSessionFromCh(r, ch) == session
    ensures forall c: Channel :: c.id != ch.id ==> GetApiSessionFromCh(r, c) == GetApiSessionFromCh(m, c)
    ensures AgreeExcept(r.activeChannels, m.activeChannels, ch.id)
    ensures r.(activeChannels := m.activeChannels) == m
  {
    m.(activeChannels := m.activeChannels[ch.id := session])
  }

  /** `RemoveActiveChannel(ch)`: the channel's id is bound to nothing. */
  function RemoveActiveChannel(m: Manager, ch: Channel): (r: Manager)
    ensures ch.id !in r.activeChannels && GetApiSessionFromCh(r, ch) == None
    ensures forall c: Channel :: c.id != ch.id ==> GetApiSessionFromCh(r, c) == GetApiSessionFromCh(m, c)
    ensures AgreeExcept(r.activeChannels, m.activeChannels, ch.id)
    ensures r.(activeChannels := m.activeChannels) == m
  {
    m.(activeChannels := m.activeChannels - {ch.id})
  }

  /** Why `UpdateChApiSession` refuses a session. */
  datatype UpdateError =
    | NilSession
    | NilClaims
    | InvalidTokenType(got: TokenType)
    | SubjectMismatch(current: string, proposed: string)
    | ApiSessionIdMismatch(current: string, proposed: string)
    | NoCurrentSession     // corrected version only: the channel has no bound session
    | NoCurrentClaims      // corrected version only: the bound session has no claims

  /** The outcome of `UpdateChApiSession`: the new state, an error, or a nil dereference. */
  datatype UpdateOutcome = Updated(manager: Manager) | Rejected(err: UpdateError) | Panicked

  /** Both sessions carry claims with the same subject and the same API session id. */
  predicate SameIdentity(a: ApiSession, b: ApiSession)
  {
    a.claims.Some? && b.claims.Some? &&
    a.claims.value.subject == b.claims.value.subject &&
    a.claims.value.apiSessionId == b.claims.value.apiSessionId
  }

  /**
   `UpdateChApiSession(ch, newApiSession)` as written. The new session must
   be present, carry claims and be an access token; then the channel's
   current session is read and dereferenced without a nil check, so a
   channel with no binding, or bound to a session without claims, panics.
   The subject and the API session id must match the current ones; only then
   is the channel rebound.
   */
  function UpdateChApiSession(m: Manager, ch: Channel, proposed: Option<ApiSession>): (r: UpdateOutcome)
    ensures r.Updated? <==>
      proposed.Some? && proposed.value.claims.Some? && proposed.value.claims.value.tokenType == AccessToken &&
      GetApiSessionFromCh(m, ch).Some? && SameIdentity(GetApiSessionFromCh(m, ch).value, proposed.value)
    ensures r.Updated? ==> r.manager == AddActiveChannel(m, ch, proposed)
    ensures r.Panicked? <==>
      proposed.Some? && proposed.value.claims.Some? && proposed.value.claims.value.tokenType == AccessToken &&
      (GetApiSessionFromCh(m, ch).None? || GetApiSessionFromCh(m, ch).value.claims.None?)
    ensures proposed.None? ==> r == Rejected(NilSession)
    ensures proposed.Some? && proposed.value.claims.None? ==> r == Rejected(NilClaims)
    ensures r.Rejected? ==> !r.err.NoCurrentSession? && !r.err.NoCurrentClaims?
  {
    if proposed.None? then Rejected(NilSession)
    else if proposed.value.claims.None? then Rejected(NilClaims)
    else
      var claims := proposed.value.claims.value;
      if claims.tokenType != AccessToken then Rejected(InvalidTokenType(claims.tokenType))
      else
        var current := GetApiSessionFromCh(m, ch);
        if current.None? || current.value.claims.None? then Panicked
        else
          var cur := current.value.claims.value;
          if claims.subject != cur.subject then Rejected(SubjectMismatch(cur.subject, claims.subject))
          else if claims.apiSessionId != cur.apiSessionId then Rejected(ApiSessionIdMismatch(cur.apiSessionId, claims.apiSessionId))
          else Updated(AddActiveChannel(m, ch, proposed))
  }

  /**
   `UpdateChApiSession` with the missing nil checks: a channel with no
   bound session, or bound to one without claims, is an error instead of a
   panic. Every other case is as written.
   */
  function UpdateChApiSessionChecked(m: Manager, ch: Channel, proposed: Option<ApiSession>): (r: UpdateOutcome)
    ensures !r.Panicked?
    ensures r.Updated? <==> UpdateChApiSession(m, ch, proposed).Updated?
    ensures !UpdateChApiSession(m, ch, proposed).Panicked? ==> r == UpdateChApiSession(m, ch, proposed)
    ensures r.Updated? ==> r.manager == AddActiveChannel(m, ch, proposed)
  {
    if proposed.None? then Rejected(NilSession)
    else if proposed.value.claims.None? then Rejected(NilClaims)
    else
      var claims := proposed.value.claims.value;
      if claims.tokenType != AccessToken then Rejected(InvalidTokenType(claims.tokenType))
      else
        var current := GetApiSessionFromCh(m, ch);
        if current.None? then Rejected(NoCurrentSession)
        else if current.value.claims.None? then Rejected(NoCurrentClaims)
        else
          var cur := current.value.claims.value;
          if claims.subject != cur.subject then Rejected(SubjectMismatch(cur.subject, claims.subject))
          else if claims.apiSessionId != cur.apiSessionId then Rejected(ApiSessionIdMismatch(cur.apiSessionId, claims.apiSessionId))
          else Updated(AddActiveChannel(m, ch, proposed))
  }

  /**
   A rebind never changes the identity a channel is bound to: whatever it
   returns, the channel's session keeps its subject and API session id, and
   every other channel id keeps its binding.
   */
  lemma RebindKeepsIdentity(m: Manager, ch: Channel, proposed: Option<ApiSession>)
    requires UpdateChApiSessionChecked(m, ch, proposed).Updated?
    ensures var r := UpdateChApiSessionChecked(m, ch, proposed).manager;
      && GetApiSessionFromCh(r, ch) == proposed
      && SameIdentity(GetApiSessionFromCh(m, ch).value, GetApiSessionFromCh(r, ch).value)
      && forall c: Channel :: c.id != ch.id ==> GetApiSessionFromCh(r, c) == GetApiSessionFromCh(m, c)
  {
  }

  /** A refused rebind leaves the original binding in place. */
  lemma RefusedRebindKeepsBinding(m: Manager, ch: Channel, a: ApiSession, b: ApiSession)
    requires GetApiSessionFromCh(m, ch) == Some(a) && a.claims.Some?
    requires b.claims.Some? && b.claims.value.tokenType == AccessToken && !SameIdentity(a, b)
    ensures UpdateChApiSessionChecked(m, ch, Some(b)).Rejected?
    ensures UpdateChApiSessionChecked(m, ch, Some(b)).err.SubjectMismatch? || UpdateChApiSessionChecked(m, ch, Some(b)).err.ApiSessionIdMismatch?
  {
  }

  /** Rebinding a channel that was never bound panics as written and is refused by the corrected version. */
  lemma UnboundChannelPanics(m: Manager, ch: Channel, b: ApiSession)
    requires ch.id !in m.activeChannels
    requires b.claims.Some? && b.claims.value.tokenType == AccessToken
    ensures UpdateChApiSession(m, ch, Some(b)) == Panicked
    ensures UpdateChApiSessionChecked(m, ch, Some(b)) == Rejected(NoCurrentSession)
  {
  }

  /** Binding then unbinding a channel id that was unbound restores the state. */
  lemma AddRemoveActiveChannel(m: Manager, ch: Channel, session: Option<ApiSession>)
    requires ch.id !in m.activeChannels
    ensures RemoveActiveChannel(AddActiveChannel(m, ch, session), ch) == m
  {
    assert RemoveActiveChannel(AddActiveChannel(m, ch, session), ch).activeChannels == m.activeChannels;
  }
}
