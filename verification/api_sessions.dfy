/**
 API sessions held by the router: the token-keyed registry, the events its
 changes emit, reconciliation against the controller's list, lookup by token
 and per-token removal listeners.
 */
module ApiSessions {
  import opened Primitives
  import opened RouterState

  /** `AddApiSession(s)`: `s` is stored under its token, replacing any record there, and `AddedApiSession` is emitted. */
  function AddApiSession(m: Manager, s: ApiSessionRecord): (r: (Manager, seq<Note>))
    ensures s.token in r.0.apiSessionsByToken && r.0.apiSessionsByToken[s.token] == s
    ensures AgreeExcept(r.0.apiSessionsByToken, m.apiSessionsByToken, s.token)
    ensures r.0.(apiSessionsByToken := m.apiSessionsByToken) == m
    ensures r.1 == [Emitted(EventAddedApiSession, SessionPayload(s), Listeners(m, EventAddedApiSession))]
  {
    (m.(apiSessionsByToken := m.apiSessionsByToken[s.token := s]), [Emit(m, EventAddedApiSession, SessionPayload(s))])
  }

  /** `UpdateApiSession(s)`: the same store as `AddApiSession`, announced as `UpdatedApiSession`. */
  function UpdateApiSession(m: Manager, s: ApiSessionRecord): (r: (Manager, seq<Note>))
    ensures r.0 == AddApiSession(m, s).0
    ensures r.1 == [Emitted(EventUpdatedApiSession, SessionPayload(s), Listeners(m, EventUpdatedApiSession))]
  {
    (m.(apiSessionsByToken := m.apiSessionsByToken[s.token := s]), [Emit(m, EventUpdatedApiSession, SessionPayload(s))])
  }

  /**
   `RemoveApiSession(token)`: a token with no record changes nothing and
   emits nothing. Otherwise the record goes, the token's own removal event
   fires its listeners, which are then dropped, and `RemovedApiSession` is
   emitted with the record.
   */
  function RemoveApiSession(m: Manager, token: string): (r: (Manager, seq<Note>))
    ensures token !in m.apiSessionsByToken ==> r == (m, [])
    ensures token !in r.0.apiSessionsByToken
    ensures AgreeExcept(r.0.apiSessionsByToken, m.apiSessionsByToken, token)
    ensures token in m.apiSessionsByToken ==> Listeners(r.0, ApiSessionRemovedEventName(token)) == []
    ensures forall name :: name != ApiSessionRemovedEventName(token) ==> Listeners(r.0, name) == Listeners(m, name)
    ensures r.0.(apiSessionsByToken := m.apiSessionsByToken, listeners := m.listeners) == m
    ensures token in m.apiSessionsByToken ==> r.1 == [
      Emitted(ApiSessionRemovedEventName(token), NoPayload, Listeners(m, ApiSessionRemovedEventName(token))),
      Emitted(EventRemovedApiSession, SessionPayload(m.apiSessionsByToken[token]), Listeners(m, EventRemovedApiSession))]
  {
    if token in m.apiSessionsByToken then
      var ns := m.apiSessionsByToken[token];
      var name := ApiSessionRemovedEventName(token);
      var m1 := m.(apiSessionsByToken := m.apiSessionsByToken - {token});
      var first := Emit(m1, name, NoPayload);
      var m2 := RemoveAllListeners(m1, name);
      PerTokenNamesAreNotGlobal(token);
      (m2, [first, Emit(m2, EventRemovedApiSession, SessionPayload(ns))])
    else
      (m, [])
  }

  /** Removing a token twice is removing it once: the second call changes and emits nothing. */
  lemma RemoveApiSessionIdempotent(m: Manager, token: string)
    ensures var once := RemoveApiSession(m, token).0;
      RemoveApiSession(once, token) == (once, [])
  {
  }

  /** The tokens of the controller's list, as the `validTokens` set. */
  function KnownTokens(known: seq<ApiSessionRecord>): (ts: set<string>)
    ensures forall t :: t in ts <==> exists i :: 0 <= i < |known| && known[i].token == t
  {
    set i | 0 <= i < |known| :: known[i].token
  }

  /**
   Whether reconciliation keeps the record `s` held under `token`: the
   controller listed the token, or a cutoff id is given and `s.id` sorts
   after it (so the session is newer than the list).
   */
  predicate Keeps(token: string, s: ApiSessionRecord, known: set<string>, before: string)
  {
    token in known || (before != "" && !LexLessEq(s.id, before))
  }

  /**
   With a cutoff, an unlisted record is kept exactly when its id sorts
   strictly after the cutoff.
   */
  lemma KeepsAfterCutoff(token: string, s: ApiSessionRecord, known: set<string>, before: string)
    requires before != "" && token !in known
    ensures Keeps(token, s, known, before) <==> LexLessEq(before, s.id) && s.id != before
  {
    LexLessEqTotal(s.id, before);
    LexLessEqTotal(before, before);
    if LexLessEq(before, s.id) && LexLessEq(s.id, before) {
      LexLessEqAntisymmetric(s.id, before);
    }
  }

  /** A later cutoff keeps no more: whatever it keeps, an earlier non-empty cutoff keeps too. */
  lemma KeepsMonotoneInCutoff(token: string, s: ApiSessionRecord, known: set<string>, before: string, later: string)
    requires before != "" && LexLessEq(before, later)
    ensures Keeps(token, s, known, later) ==> Keeps(token, s, known, before)
  {
    if LexLessEq(s.id, before) {
      LexLessEqTransitive(s.id, before, later);
    }
  }

  /** The tokens `RemoveMissingApiSessions` removes. */
  function Missing(m: Manager, known: set<string>, before: string): (ts: set<string>)
    ensures forall t :: t in ts <==> t in m.apiSessionsByToken && !Keeps(t, m.apiSessionsByToken[t], known, before)
  {
    set t | t in m.apiSessionsByToken && !Keeps(t, m.apiSessionsByToken[t], known, before)
  }

  /** `name` is the per-token removal event of one of `ts`. */
  ghost predicate RemovalNameOf(name: string, ts: set<string>)
  {
    exists t :: t in ts && name == ApiSessionRemovedEventName(t)
  }

  /**
   `RemoveMissingApiSessions(known, before)`: every record the controller did
   not list is removed, unless a cutoff is given and the record's id sorts
   after it; each removal is a `RemoveApiSession`. The Go code walks the map
   in no fixed order; the loop here picks tokens in any order.
   */
  method RemoveMissingApiSessions(m: Manager, known: seq<ApiSessionRecord>, before: string) returns (r: Manager, notes: seq<Note>)
    ensures forall t :: t in r.apiSessionsByToken <==>
      t in m.apiSessionsByToken && Keeps(t, m.apiSessionsByToken[t], KnownTokens(known), before)
    ensures forall t :: t in r.apiSessionsByToken ==> r.apiSessionsByToken[t] == m.apiSessionsByToken[t]
    ensures Missing(r, KnownTokens(known), before) == {}
    ensures forall t :: t in Missing(m, KnownTokens(known), before) ==> Listeners(r, ApiSessionRemovedEventName(t)) == []
    ensures forall name :: !RemovalNameOf(name, Missing(m, KnownTokens(known), before)) ==> Listeners(r, name) == Listeners(m, name)
    ensures r.(apiSessionsByToken := m.apiSessionsByToken, listeners := m.listeners) == m
    ensures |notes| == 2 * |Missing(m, KnownTokens(known), before)|
    ensures forall t :: t in Missing(m, KnownTokens(known), before) ==>
      Emitted(EventRemovedApiSession, SessionPayload(m.apiSessionsByToken[t]), Listeners(m, EventRemovedApiSession)) in notes
    ensures forall t :: t in Missing(m, KnownTokens(known), before) ==>
      Emitted(ApiSessionRemovedEventName(t), NoPayload, Listeners(m, ApiSessionRemovedEventName(t))) in notes
  {
    var doomed := Missing(m, KnownTokens(known), before);
    var pending := doomed;
    r, notes := m, [];
    while pending != {}
      invariant pending <= doomed
      invariant forall t :: t in r.apiSessionsByToken <==> t in m.apiSessionsByToken && (t in doomed ==> t in pending)
      invariant forall t :: t in r.apiSessionsByToken ==> r.apiSessionsByToken[t] == m.apiSessionsByToken[t]
      invariant forall t :: t in doomed && t !in pending ==> Listeners(r, ApiSessionRemovedEventName(t)) == []
      invariant forall name :: !RemovalNameOf(name, doomed - pending) ==> Listeners(r, name) == Listeners(m, name)
      invariant r.(apiSessionsByToken := m.apiSessionsByToken, listeners := m.listeners) == m
      invariant |notes| == 2 * |doomed - pending|
      invariant forall t :: t in doomed && t !in pending ==>
        Emitted(EventRemovedApiSession, SessionPayload(m.apiSessionsByToken[t]), Listeners(m, EventRemovedApiSession)) in notes
      invariant forall t :: t in doomed && t !in pending ==>
        Emitted(ApiSessionRemovedEventName(t), NoPayload, Listeners(m, ApiSessionRemovedEventName(t))) in notes
      decreases |pending|
    {
      var t :| t in pending;
      var step := RemoveApiSession(r, t);
      RegistryStep(m, r, doomed, pending, t);
      ListenerStep(m, r, doomed, pending, t);
      NotesStep(m, r, notes, doomed, pending, t);
      r, notes := step.0, notes + step.1;
      pending := pending - {t};
    }
  }

  /** One removal of the reconciliation loop keeps the registry part of its invariant. */
  lemma RegistryStep(m: Manager, r: Manager, doomed: set<string>, pending: set<string>, t: string)
    requires t in pending && pending <= doomed
    requires forall u :: u in r.apiSessionsByToken <==> u in m.apiSessionsByToken && (u in doomed ==> u in pending)
    requires forall u :: u in r.apiSessionsByToken ==> r.apiSessionsByToken[u] == m.apiSessionsByToken[u]
    requires r.(apiSessionsByToken := m.apiSessionsByToken, listeners := m.listeners) == m
    ensures var r' := RemoveApiSession(r, t).0;
      && (forall u :: u in r'.apiSessionsByToken <==> u in m.apiSessionsByToken && (u in doomed ==> u in pending - {t}))
      && (forall u :: u in r'.apiSessionsByToken ==> r'.apiSessionsByToken[u] == m.apiSessionsByToken[u])
      && r'.(apiSessionsByToken := m.apiSessionsByToken, listeners := m.listeners) == m
  {
  }

  /**
   One removal of the reconciliation loop keeps the listener part of its
   invariant; the removed token's listeners are still those it started with.
   */
  lemma ListenerStep(m: Manager, r: Manager, doomed: set<string>, pending: set<string>, t: string)
    requires t in pending && pending <= doomed && t in r.apiSessionsByToken
    requires forall u :: u in doomed && u !in pending ==> Listeners(r, ApiSessionRemovedEventName(u)) == []
    requires forall name :: !RemovalNameOf(name, doomed - pending) ==> Listeners(r, name) == Listeners(m, name)
    ensures var r' := RemoveApiSession(r, t).0;
      && (forall u :: u in doomed && u !in pending - {t} ==> Listeners(r', ApiSessionRemovedEventName(u)) == [])
      && (forall name :: !RemovalNameOf(name, doomed - (pending - {t})) ==> Listeners(r', name) == Listeners(m, name))
    ensures Listeners(r, ApiSessionRemovedEventName(t)) == Listeners(m, ApiSessionRemovedEventName(t))
  {
    var r' := RemoveApiSession(r, t).0;
    assert !RemovalNameOf(ApiSessionRemovedEventName(t), doomed - pending) by {
      forall u | u in doomed - pending ensures ApiSessionRemovedEventName(t) != ApiSessionRemovedEventName(u) {
        EventNamesDistinct(u, t);
      }
    }
    forall u | u in doomed && u !in pending - {t}
      ensures Listeners(r', ApiSessionRemovedEventName(u)) == []
    {
      if u != t {
        EventNamesDistinct(u, t);
      }
    }
    forall name | !RemovalNameOf(name, doomed - (pending - {t}))
      ensures Listeners(r', name) == Listeners(m, name)
    {
      assert name != ApiSessionRemovedEventName(t);
      assert !RemovalNameOf(name, doomed - pending);
    }
  }

  /** One removal of the reconciliation loop adds its two notes: the token's own removal event and the `RemovedApiSession` event. */
  lemma NotesStep(m: Manager, r: Manager, notes: seq<Note>, doomed: set<string>, pending: set<string>, t: string)
    requires t in pending && pending <= doomed && doomed <= m.apiSessionsByToken.Keys
    requires t in r.apiSessionsByToken && r.apiSessionsByToken[t] == m.apiSessionsByToken[t]
    requires Listeners(r, EventRemovedApiSession) == Listeners(m, EventRemovedApiSession)
    requires Listeners(r, ApiSessionRemovedEventName(t)) == Listeners(m, ApiSessionRemovedEventName(t))
    requires |notes| == 2 * |doomed - pending|
    requires forall u :: u in doomed && u !in pending ==>
      Emitted(EventRemovedApiSession, SessionPayload(m.apiSessionsByToken[u]), Listeners(m, EventRemovedApiSession)) in notes
    requires forall u :: u in doomed && u !in pending ==>
      Emitted(ApiSessionRemovedEventName(u), NoPayload, Listeners(m, ApiSessionRemovedEventName(u))) in notes
    ensures var notes' := notes + RemoveApiSession(r, t).1;
      && |notes'| == 2 * |doomed - (pending - {t})|
      && (forall u :: u in doomed && u !in pending - {t} ==>
        Emitted(EventRemovedApiSession, SessionPayload(m.apiSessionsByToken[u]), Listeners(m, EventRemovedApiSession)) in notes')
      && (forall u :: u in doomed && u !in pending - {t} ==>
        Emitted(ApiSessionRemovedEventName(u), NoPayload, Listeners(m, ApiSessionRemovedEventName(u))) in notes')
  {
    assert doomed - (pending - {t}) == (doomed - pending) + {t};
    PerTokenNamesAreNotGlobal(t);
  }

  /** The outcome of `jwt.ParseWithClaims` on the token, which this model does not perform. */
  datatype JwtParse = ParseFailed | Parsed(claims: Claims, hasOpenZitiAudience: bool)

  /** `ParseJwt(token)`: a parse that succeeded still fails unless the claims are of the access type. */
  function ParseJwt(p: JwtParse): (r: Option<JwtParse>)
    ensures r.Some? <==> p.Parsed? && p.claims.tokenType == AccessToken
    ensures r.Some? ==> r.value == p
  {
    match p
    case ParseFailed => None
    case Parsed(claims, _) => if claims.tokenType == AccessToken then Some(p) else None
  }

  /** `NewApiSessionFromToken`: a record built from the JWT itself and carrying its claims. */
  function NewApiSessionFromToken(raw: string, claims: Claims): (s: ApiSession)
    ensures s.record == Some(ApiSessionRecord(claims.jwtId, raw, claims.certFingerprints))
    ensures s.claims == Some(claims)
  {
    ApiSession(Some(ApiSessionRecord(claims.jwtId, raw, claims.certFingerprints)), Some(claims))
  }

  /**
   `GetApiSession(token)`. With HA enabled, a token carrying the JWT prefix is
   never looked up: it is validated (`parsed` is the parser's verdict on it)
   and accepted only with the OpenZiti audience and the access type.
   Otherwise the registry answers, with no claims attached.
   */
  function GetApiSession(m: Manager, token: string, haEnabled: bool, jwtPrefix: string, parsed: JwtParse): (r: Option<ApiSession>)
    ensures haEnabled && HasPrefix(token, jwtPrefix) ==>
      (r.Some? <==> parsed.Parsed? && parsed.claims.tokenType == AccessToken && parsed.hasOpenZitiAudience)
    ensures haEnabled && HasPrefix(token, jwtPrefix) && r.Some? ==> r.value == NewApiSessionFromToken(token, parsed.claims)
    ensures !(haEnabled && HasPrefix(token, jwtPrefix)) ==>
      (r.Some? <==> token in m.apiSessionsByToken)
      && (r.Some? ==> r.value == ApiSession(Some(m.apiSessionsByToken[token]), None))
  {
    if haEnabled && HasPrefix(token, jwtPrefix) then
      match ParseJwt(parsed)
      case None => None
      case Some(p) =>
        if !p.hasOpenZitiAudience then None
        else if p.claims.tokenType != AccessToken then None
        else Some(NewApiSessionFromToken(token, p.claims))
    else if token in m.apiSessionsByToken then
      Some(ApiSession(Some(m.apiSessionsByToken[token]), None))
    else
      None
  }

  /** A stored record is found again by its token, until it is removed (outside the JWT path). */
  lemma AddThenGet(m: Manager, s: ApiSessionRecord, haEnabled: bool, jwtPrefix: string, parsed: JwtParse)
    requires !(haEnabled && HasPrefix(s.token, jwtPrefix))
    ensures var added := AddApiSession(m, s).0;
      && GetApiSession(added, s.token, haEnabled, jwtPrefix, parsed) == Some(ApiSession(Some(s), None))
      && GetApiSession(RemoveApiSession(added, s.token).0, s.token, haEnabled, jwtPrefix, parsed).None?
  {
  }

  /**
   `AddApiSessionRemovedListener(token, callBack)`: registers a listener that
   calls `callBack(token)` when the token's API session is removed. Returns
   the listener; its remover is `RemoveListener` for the same name and id.
   */
  function AddApiSessionRemovedListener(m: Manager, token: string, callback: CallbackId): (r: (Manager, Listener))
    ensures r.1 == Listener(m.nextId, callback, token, false)
    ensures Listeners(r.0, ApiSessionRemovedEventName(token)) == Listeners(m, ApiSessionRemovedEventName(token)) + [r.1]
    ensures r.0.(listeners := m.listeners, nextId := m.nextId) == m
  {
    AddListener(m, ApiSessionRemovedEventName(token), callback, token, false)
  }

  /**
   A listener registered for a token with a record is called exactly once by
   that token's removal, and never again: the listeners are gone afterwards.
   */
  lemma RemovalFiresListener(m: Manager, token: string, callback: CallbackId)
    requires token in m.apiSessionsByToken
    ensures var (m1, l) := AddApiSessionRemovedListener(m, token, callback);
      var (m2, notes) := RemoveApiSession(m1, token);
      && l in notes[0].fired
      && Listeners(m2, ApiSessionRemovedEventName(token)) == []
      && RemoveApiSession(m2, token).1 == []
  {
    var (m1, l) := AddApiSessionRemovedListener(m, token, callback);
    assert l in Listeners(m1, ApiSessionRemovedEventName(token));
  }
}
