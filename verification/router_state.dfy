/**
 The state of the router's session manager (`ManagerImpl` in
 router/state/manager.go) as one immutable value, plus the event emitter it
 embeds, reduced to a registry of listeners per event name.

 Every concurrent map of the Go code becomes a plain `map`; each operation is
 modelled as atomic. Emitted events are returned as a trace of `Note`s.
 */
module RouterState {
  import opened Primitives

  /** `edge_ctrl_pb.ApiSession`: the controller's record of an API session. */
  datatype ApiSessionRecord = ApiSessionRecord(id: string, token: string, certFingerprints: seq<string>)

  /** The token type claim; only the access type matters to the manager. */
  datatype TokenType = AccessToken | OtherTokenType(name: string)

  /** `common.AccessClaims`, reduced to the fields the manager reads. */
  datatype Claims = Claims(
    subject: string,
    apiSessionId: string,
    tokenType: TokenType,
    jwtId: string,
    certFingerprints: seq<string>)

  /** `state.ApiSession`: the embedded record and the claims, each possibly nil. */
  datatype ApiSession = ApiSession(record: Option<ApiSessionRecord>, claims: Option<Claims>)

  /**
   A `channel.Channel`: `ref` is its identity as a map key, `id` is what
   `ch.Id()` returns.
   */
  datatype Channel = Channel(ref: nat, id: string)

  /** A caller-supplied callback, by identity. */
  type CallbackId = nat

  /**
   A listener registered with the emitter. Firing it calls `callback(token)`,
   on a new goroutine when `spawned` is set.
   */
  datatype Listener = Listener(id: nat, callback: CallbackId, token: string, spawned: bool)

  /** The argument passed to `Emit`. */
  datatype Payload = NoPayload | SessionPayload(session: ApiSessionRecord)

  /** What an operation does outside the manager's own state. */
  datatype Note =
    | Emitted(name: string, payload: Payload, fired: seq<Listener>)  // `Emit(name, ...)` and the listeners it calls
    | Spawned(callback: CallbackId, token: string)                    // `go callBack(token)`
    | Ran(callback: CallbackId)                                       // a channel's remove callback, called directly

  /** `edge_ctrl_pb.DataState_PublicKey` usages and formats. */
  datatype KeyUsage = ClientX509CertValidation | JWTValidation
  datatype KeyFormat = X509CertDer | PKIXPublicKey | UnknownFormat(code: int)

  /** A trust key of the router data model; `kid` is its key id. */
  datatype PublicKey = PublicKey(kid: string, usages: seq<KeyUsage>, format: KeyFormat, data: seq<bv8>)

  /** The key material a parsed certificate or PKIX block yields. */
  datatype CryptoKey = CryptoKey(material: seq<bv8>)

  /** A parsed X.509 certificate, reduced to its encoding and its public key. */
  datatype Cert = Cert(der: seq<bv8>, publicKey: CryptoKey)

  /** `common.RouterDataModel`, reduced to its public keys in iteration order. */
  datatype DataModel = DataModel(publicKeys: seq<PublicKey>)

  /**
   `ManagerImpl`. Times are nanoseconds. `usedRemovers` holds the listener
   ids whose `RemoveListener` closure has already run its `sync.Once`;
   `nextId` is the next fresh listener id.
   */
  datatype Manager = Manager(
    apiSessionsByToken: map<string, ApiSessionRecord>,
    activeApiSessions: map<string, map<Channel, CallbackId>>,
    activeChannels: map<string, Option<ApiSession>>,
    sessions: map<string, U32>,
    recentlyRemovedSessions: map<string, int>,
    currentSync: string,
    certCache: map<string, Cert>,
    routerDataModel: Option<DataModel>,
    listeners: map<string, seq<Listener>>,
    usedRemovers: set<nat>,
    nextId: nat)

  const EventRemovedEdgeSession: string := "RemovedEdgeSession"
  const EventAddedApiSession: string := "AddedApiSession"
  const EventUpdatedApiSession: string := "UpdatedApiSession"
  const EventRemovedApiSession: string := "RemovedApiSession"

  /** Five minutes in nanoseconds: how long a removed network session stays tombstoned. */
  const FiveMinutes: int := 300_000_000_000

  /** `NewManager`: every map empty, no sync running, no data model yet. */
  function NewManager(): (m: Manager)
    ensures m.apiSessionsByToken == map[] && m.activeApiSessions == map[] && m.activeChannels == map[]
    ensures m.sessions == map[] && m.recentlyRemovedSessions == map[] && m.certCache == map[]
    ensures m.currentSync == "" && m.routerDataModel.None?
    ensures forall name :: Listeners(m, name) == []
  {
    Manager(map[], map[], map[], map[], map[], "", map[], None, map[], {}, 0)
  }

  /** `getEdgeSessionRemovedEventName(token)`. */
  function EdgeSessionRemovedEventName(token: string): (name: string)
    ensures |name| == |EventRemovedEdgeSession| + 1 + |token|
    ensures name[..|EventRemovedEdgeSession|] == EventRemovedEdgeSession
    ensures name[|EventRemovedEdgeSession|] == '-' && name[|EventRemovedEdgeSession| + 1..] == token
  {
    EventRemovedEdgeSession + "-" + token
  }

  /** `getApiSessionRemovedEventName(token)`. */
  function ApiSessionRemovedEventName(token: string): (name: string)
    ensures |name| == |EventRemovedApiSession| + 1 + |token|
    ensures name[..|EventRemovedApiSession|] == EventRemovedApiSession
    ensures name[|EventRemovedApiSession|] == '-' && name[|EventRemovedApiSession| + 1..] == token
  {
    EventRemovedApiSession + "-" + token
  }

  /** Distinct tokens get distinct per-token event names, and the two kinds of name never meet. */
  lemma EventNamesDistinct(a: string, b: string)
    ensures EdgeSessionRemovedEventName(a) == EdgeSessionRemovedEventName(b) <==> a == b
    ensures ApiSessionRemovedEventName(a) == ApiSessionRemovedEventName(b) <==> a == b
    ensures EdgeSessionRemovedEventName(a) != ApiSessionRemovedEventName(b)
  {
    var e, f := EdgeSessionRemovedEventName(a), ApiSessionRemovedEventName(b);
    assert e[7] == 'E' && f[7] == 'A';
    if EdgeSessionRemovedEventName(a) == EdgeSessionRemovedEventName(b) {
      assert a == EdgeSessionRemovedEventName(a)[19..];
    }
    if ApiSessionRemovedEventName(a) == ApiSessionRemovedEventName(b) {
      assert a == ApiSessionRemovedEventName(a)[18..];
    }
  }

  /** No per-token event name is one of the global names, so global emits never fire per-token listeners. */
  lemma PerTokenNamesAreNotGlobal(token: string)
    ensures ApiSessionRemovedEventName(token) !in {EventAddedApiSession, EventUpdatedApiSession, EventRemovedApiSession}
    ensures EdgeSessionRemovedEventName(token) !in {EventAddedApiSession, EventUpdatedApiSession, EventRemovedApiSession}
  {
    var e, f := EdgeSessionRemovedEventName(token), ApiSessionRemovedEventName(token);
    assert |f| > |EventRemovedApiSession| && f[0] == 'R' && f[7] == 'A';
    assert |e| > |EventRemovedApiSession| && e[0] == 'R' && e[7] == 'E';
  }

  /** The listeners registered for `name`, in registration order. */
  function Listeners(m: Manager, name: string): (ls: seq<Listener>)
    ensures name !in m.listeners ==> ls == []
  {
    if name in m.listeners then m.listeners[name] else []
  }

  /** `Emit(name, payload)`: every listener of `name` is called, in order; the manager itself does not change. */
  function Emit(m: Manager, name: string, payload: Payload): (n: Note)
    ensures n.Emitted? && n.name == name && n.payload == payload
    ensures forall l :: l in n.fired <==> l in Listeners(m, name)
    ensures |n.fired| == |Listeners(m, name)|
  {
    Emitted(name, payload, Listeners(m, name))
  }

  /**
   `AddListener(name, ...)`: appends a listener with a fresh id; returns the
   new state and the listener.
   */
  function AddListener(m: Manager, name: string, callback: CallbackId, token: string, spawned: bool): (r: (Manager, Listener))
    ensures r.1 == Listener(m.nextId, callback, token, spawned)
    ensures Listeners(r.0, name) == Listeners(m, name) + [r.1]
    ensures forall other :: other != name ==> Listeners(r.0, other) == Listeners(m, other)
    ensures r.0.nextId > m.nextId
    ensures r.0.(listeners := m.listeners, nextId := m.nextId) == m
  {
    var l := Listener(m.nextId, callback, token, spawned);
    (m.(listeners := m.listeners[name := Listeners(m, name) + [l]], nextId := m.nextId + 1), l)
  }

  /** Drops the listeners with the given id from a list, keeping the order of the rest. */
  function Without(ls: seq<Listener>, id: nat): (r: seq<Listener>)
    ensures forall l :: l in r <==> l in ls && l.id != id
    ensures |r| <= |ls|
  {
    if ls == [] then []
    else if ls[0].id == id then Without(ls[1..], id)
    else [ls[0]] + Without(ls[1..], id)
  }

  /** `RemoveListener(name, listener)`: that listener is no longer called for `name`. */
  function RemoveListener(m: Manager, name: string, id: nat): (r: Manager)
    ensures forall l :: l in Listeners(r, name) <==> l in Listeners(m, name) && l.id != id
    ensures forall other :: other != name ==> Listeners(r, other) == Listeners(m, other)
    ensures r.(listeners := m.listeners) == m
  {
    if name in m.listeners then m.(listeners := m.listeners[name := Without(m.listeners[name], id)]) else m
  }

  /** `RemoveAllListeners(name)`: nothing is called for `name` any more. */
  function RemoveAllListeners(m: Manager, name: string): (r: Manager)
    ensures Listeners(r, name) == []
    ensures forall other :: other != name ==> Listeners(r, other) == Listeners(m, other)
    ensures r.(listeners := m.listeners) == m
  {
    m.(listeners := m.listeners - {name})
  }

  /** The maps `a` and `b` agree on every key other than `k`. */
  ghost predicate AgreeExcept<K(!new), V>(a: map<K, V>, b: map<K, V>, k: K)
  {
    forall x :: x != k ==> (x in a <==> x in b) && (x in a ==> a[x] == b[x])
  }
}
