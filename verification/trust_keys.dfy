/**
 The router's trust material: the public keys of the router data model, the
 cache of certificates parsed from them, the lookup of a JWT's signing key
 and the root pool a client certificate is verified against.

 X.509 and PKIX parsing and chain verification are not modelled: they are
 parameters, as functions of the bytes or certificates they are given.
 */
module TrustKeys {
  import opened Primitives
  import opened RouterState
  import opened GoStrings

  /** `contains(values, element)`: a linear scan for an equal element. */
  function Contains<T(==)>(values: seq<T>, element: T): (r: bool)
    ensures r <==> element in values
  {
    if values == [] then false
    else if values[0] == element then true
    else Contains(values[1..], element)
  }

  /** The outcome of a parser the model is handed. */
  datatype Parsed<T> = ParsedOk(value: T) | ParseErr(msg: string)

  /**
   `RouterDataModel()`: the data model, created empty and stored on first
   use.
   */
  function RouterDataModel(m: Manager): (r: (Manager, DataModel))
    ensures r.0.routerDataModel == Some(r.1)
    ensures m.routerDataModel.Some? ==> r == (m, m.routerDataModel.value)
    ensures m.routerDataModel.None? ==> r.1.publicKeys == []
    ensures r.0.(routerDataModel := m.routerDataModel) == m
  {
    match m.routerDataModel
    case Some(model) => (m, model)
    case None => (m.(routerDataModel := Some(DataModel([]))), DataModel([]))
  }

  /** `SetRouterDataModel(model)`: installs the model; the certificate cache is kept as it is. */
  function SetRouterDataModel(m: Manager, model: DataModel): (r: Manager)
    ensures r.routerDataModel == Some(model)
    ensures r.certCache == m.certCache
    ensures r.(routerDataModel := m.routerDataModel) == m
  {
    m.(routerDataModel := Some(model))
  }

  /** Asking for the data model twice gives the same model, and the second ask changes nothing. */
  lemma RouterDataModelStable(m: Manager)
    ensures var (m1, model) := RouterDataModel(m);
      RouterDataModel(m1) == (m1, model)
  {
  }

  /**
   `getX509FromData(kid, data)`: a certificate cached under `kid` is returned
   whatever `data` now holds; otherwise `data` is parsed and, on success,
   cached under `kid`. A parse error caches nothing.
   */
  function GetX509FromData(m: Manager, kid: string, data: seq<bv8>, parseCert: seq<bv8> -> Parsed<Cert>): (r: (Manager, Parsed<Cert>))
    ensures kid in m.certCache ==> r == (m, ParsedOk(m.certCache[kid]))
    ensures kid !in m.certCache ==> r.1 == parseCert(data)
    ensures kid !in m.certCache && r.1.ParsedOk? ==> r.0.certCache == m.certCache[kid := r.1.value]
    ensures kid !in m.certCache && r.1.ParseErr? ==> r.0 == m
    ensures r.0.(certCache := m.certCache) == m
  {
    if kid in m.certCache then (m, ParsedOk(m.certCache[kid]))
    else
      match parseCert(data)
      case ParseErr(msg) => (m, ParseErr(msg))
      case ParsedOk(cert) => (m.(certCache := m.certCache[kid := cert]), ParsedOk(cert))
  }

  /**
   Once a key id has a certificate, later requests for it return that
   certificate, even with different data.
   */
  lemma CertCachedUnderKid(m: Manager, kid: string, data: seq<bv8>, other: seq<bv8>, parseCert: seq<bv8> -> Parsed<Cert>)
    requires GetX509FromData(m, kid, data, parseCert).1.ParsedOk?
    ensures var (m1, first) := GetX509FromData(m, kid, data, parseCert);
      GetX509FromData(m1, kid, other, parseCert) == (m1, first)
  {
  }

  /** The key may validate client certificates. */
  predicate IsClientKey(k: PublicKey)
  {
    Contains(k.usages, ClientX509CertValidation)
  }

  /** The key may validate JWT signatures. */
  predicate IsJwtKey(k: PublicKey)
  {
    Contains(k.usages, JWTValidation)
  }

  /** No two keys share a key id (the data model keys its public keys by id). */
  predicate DistinctKids(keys: seq<PublicKey>)
  {
    forall i, j :: 0 <= i < j < |keys| ==> keys[i].kid != keys[j].kid
  }

  /** Some key of the list has this key id. */
  predicate HasKid(keys: seq<PublicKey>, kid: string)
  {
    exists i :: 0 <= i < |keys| && keys[i].kid == kid
  }

  /** Some client-validation key of the list has this key id. */
  ghost predicate ClientKid(keys: seq<PublicKey>, kid: string)
  {
    exists i :: 0 <= i < |keys| && IsClientKey(keys[i]) && keys[i].kid == kid
  }

  /** The certificates cached, in `m`, under the ids of the client-validation keys of `keys`. */
  ghost function CachedClientCerts(m: Manager, keys: seq<PublicKey>): set<Cert>
  {
    set kid | kid in m.certCache && ClientKid(keys, kid) :: m.certCache[kid]
  }

  /**
   The loop of `VerifyClientCert`: every client-validation key, in order, is
   turned into a certificate through the cache and added to the root pool;
   keys that fail to parse are skipped. `x509.CertPool.AddCert` ignores a
   certificate the pool already holds, so the pool is a set. Returns the
   state with the grown cache and the pool.
   */
  function CollectRoots(m: Manager, keys: seq<PublicKey>, parseCert: seq<bv8> -> Parsed<Cert>): (r: (Manager, set<Cert>))
    ensures r.1 == CachedClientCerts(r.0, keys)
    ensures forall kid :: kid in m.certCache ==> kid in r.0.certCache && r.0.certCache[kid] == m.certCache[kid]
    ensures forall kid :: kid in r.0.certCache && kid !in m.certCache ==> ClientKid(keys, kid)
    ensures forall i :: 0 <= i < |keys| && IsClientKey(keys[i]) && keys[i].kid !in r.0.certCache ==>
      parseCert(keys[i].data).ParseErr?
    ensures r.0.(certCache := m.certCache) == m
    decreases |keys|
  {
    if keys == [] then (m, {})
    else
      var k, rest := keys[0], keys[1..];
      ClientKidCons(keys);
      if !IsClientKey(k) then
        var (m2, roots) := CollectRoots(m, rest, parseCert);
        PoolCons(m2, keys);
        (m2, roots)
      else
        var (m1, got) := GetX509FromData(m, k.kid, k.data, parseCert);
        var (m2, roots) := CollectRoots(m1, rest, parseCert);
        PoolCons(m2, keys);
        match got
        case ParseErr(_) => (m2, roots)
        case ParsedOk(cert) => (m2, {cert} + roots)
  }

  /** A client key id of `keys` is the first key's, if that one is a client key, or one of the rest. */
  lemma ClientKidCons(keys: seq<PublicKey>)
    requires keys != []
    ensures forall kid :: ClientKid(keys, kid) <==> (IsClientKey(keys[0]) && keys[0].kid == kid) || ClientKid(keys[1..], kid)
  {
    forall kid | ClientKid(keys, kid) && !(IsClientKey(keys[0]) && keys[0].kid == kid)
      ensures ClientKid(keys[1..], kid)
    {
      var i :| 0 <= i < |keys| && IsClientKey(keys[i]) && keys[i].kid == kid;
      assert keys[1..][i - 1] == keys[i];
    }
    forall kid | ClientKid(keys[1..], kid)
      ensures ClientKid(keys, kid)
    {
      var i :| 0 <= i < |keys[1..]| && IsClientKey(keys[1..][i]) && keys[1..][i].kid == kid;
      assert keys[i + 1] == keys[1..][i];
    }
  }

  /** How the first key adds to the cached client certificates of a list. */
  lemma PoolCons(final: Manager, keys: seq<PublicKey>)
    requires keys != []
    ensures !IsClientKey(keys[0]) || keys[0].kid !in final.certCache || ClientKid(keys[1..], keys[0].kid) ==>
      CachedClientCerts(final, keys) == CachedClientCerts(final, keys[1..])
    ensures IsClientKey(keys[0]) && keys[0].kid in final.certCache ==>
      CachedClientCerts(final, keys) == {final.certCache[keys[0].kid]} + CachedClientCerts(final, keys[1..])
  {
    ClientKidCons(keys);
  }

  /** The cache of the final state of `CollectRoots` agrees with `n`'s on every key id of `keys`. */
  ghost predicate CacheAgreesOn(n: Manager, final: Manager, keys: seq<PublicKey>)
  {
    forall i :: 0 <= i < |keys| ==>
      (keys[i].kid in n.certCache <==> keys[i].kid in final.certCache) &&
      (keys[i].kid in n.certCache ==> n.certCache[keys[i].kid] == final.certCache[keys[i].kid])
  }

  /**
   With distinct key ids, collecting the roots again from a state whose
   cache already holds what the first pass cached gives the same pool and
   caches nothing new.
   */
  lemma {:induction false} CollectRootsStable(m: Manager, n: Manager, keys: seq<PublicKey>, parseCert: seq<bv8> -> Parsed<Cert>)
    requires DistinctKids(keys)
    requires CacheAgreesOn(n, CollectRoots(m, keys, parseCert).0, keys)
    ensures CollectRoots(n, keys, parseCert) == (n, CollectRoots(m, keys, parseCert).1)
    decreases |keys|
  {
    if keys != [] {
      var k, rest := keys[0], keys[1..];
      var final := CollectRoots(m, keys, parseCert).0;
      DistinctTail(keys);
      AgreeTail(n, final, keys);
      if !IsClientKey(k) {
        CollectRootsStable(m, n, rest, parseCert);
      } else {
        var m1 := GetX509FromData(m, k.kid, k.data, parseCert).0;
        HeadKidUntouched(m1, rest, k.kid, parseCert);
        SameHeadLookup(m, n, final, k, parseCert);
        CollectRootsStable(m1, n, rest, parseCert);
      }
    }
  }

  /** The keys after the first are still distinct, and none shares the first key's id. */
  lemma DistinctTail(keys: seq<PublicKey>)
    requires DistinctKids(keys) && keys != []
    ensures DistinctKids(keys[1..])
    ensures !HasKid(keys[1..], keys[0].kid)
  {
    assert forall i :: 0 <= i < |keys[1..]| ==> keys[1..][i] == keys[i + 1];
  }

  /** Agreement on a list of keys is agreement on its first key and on the rest. */
  lemma AgreeTail(n: Manager, final: Manager, keys: seq<PublicKey>)
    requires CacheAgreesOn(n, final, keys) && keys != []
    ensures CacheAgreesOn(n, final, keys[1..])
    ensures keys[0].kid in n.certCache <==> keys[0].kid in final.certCache
    ensures keys[0].kid in n.certCache ==> n.certCache[keys[0].kid] == final.certCache[keys[0].kid]
  {
    assert forall i :: 0 <= i < |keys[1..]| ==> keys[1..][i] == keys[i + 1];
  }

  /** A key id that no key of the rest carries leaves the rest of the pass with its cache entry unchanged. */
  lemma HeadKidUntouched(m1: Manager, rest: seq<PublicKey>, kid: string, parseCert: seq<bv8> -> Parsed<Cert>)
    requires !HasKid(rest, kid)
    ensures var final := CollectRoots(m1, rest, parseCert).0;
      && (kid in final.certCache <==> kid in m1.certCache)
      && (kid in m1.certCache ==> final.certCache[kid] == m1.certCache[kid])
  {
  }

  /**
   A state whose cache agrees with the first pass's final cache on the first
   key's id, where the rest of the pass left that entry alone, looks the key
   up with the same outcome and without changing.
   */
  lemma SameHeadLookup(m: Manager, n: Manager, final: Manager, k: PublicKey, parseCert: seq<bv8> -> Parsed<Cert>)
    requires var m1 := GetX509FromData(m, k.kid, k.data, parseCert).0;
      && (k.kid in final.certCache <==> k.kid in m1.certCache)
      && (k.kid in m1.certCache ==> final.certCache[k.kid] == m1.certCache[k.kid])
    requires k.kid in n.certCache <==> k.kid in final.certCache
    requires k.kid in n.certCache ==> n.certCache[k.kid] == final.certCache[k.kid]
    ensures GetX509FromData(n, k.kid, k.data, parseCert) == (n, GetX509FromData(m, k.kid, k.data, parseCert).1)
  {
  }

  /** The outcome of `VerifyClientCert`. */
  datatype CertCheck = CertVerified | CertRejected | CertPanicked

  /**
   `VerifyClientCert(cert)`: the chain is verified (by `verify`, against the
   root pool) using the certificate's own not-before time as the clock, which
   `verify` is assumed to apply. A missing data model is a nil dereference.
   */
  function VerifyClientCert(m: Manager, cert: Cert, parseCert: seq<bv8> -> Parsed<Cert>, verify: (Cert, set<Cert>) -> bool): (r: (Manager, CertCheck))
    ensures m.routerDataModel.None? <==> r.1 == CertPanicked
    ensures m.routerDataModel.None? ==> r.0 == m
    ensures m.routerDataModel.Some? ==>
      var keys := m.routerDataModel.value.publicKeys;
      && r.0 == CollectRoots(m, keys, parseCert).0
      && (r.1 == CertVerified <==> verify(cert, CachedClientCerts(r.0, keys)))
  {
    match m.routerDataModel
    case None => (m, CertPanicked)
    case Some(model) =>
      var (m1, roots) := CollectRoots(m, model.publicKeys, parseCert);
      (m1, if verify(cert, roots) then CertVerified else CertRejected)
  }

  /**
   A state in which every client-validation key whose id is not cached fails
   to parse: collecting the roots there changes nothing.
   */
  ghost predicate Settled(n: Manager, keys: seq<PublicKey>, parseCert: seq<bv8> -> Parsed<Cert>)
  {
    forall i :: 0 <= i < |keys| && IsClientKey(keys[i]) && keys[i].kid !in n.certCache ==> parseCert(keys[i].data).ParseErr?
  }

  /** Collecting the roots in a settled state leaves the state as it is. */
  lemma {:induction false} SettledCollectsNothing(n: Manager, keys: seq<PublicKey>, parseCert: seq<bv8> -> Parsed<Cert>)
    requires Settled(n, keys, parseCert)
    ensures CollectRoots(n, keys, parseCert).0 == n
    decreases |keys|
  {
    if keys != [] {
      assert Settled(n, keys[1..], parseCert) by {
        forall i | 0 <= i < |keys[1..]| && IsClientKey(keys[1..][i]) && keys[1..][i].kid !in n.certCache
          ensures parseCert(keys[1..][i].data).ParseErr?
        {
          assert keys[1..][i] == keys[i + 1];
        }
      }
      SettledCollectsNothing(n, keys[1..], parseCert);
    }
  }

  /**
   A second verification, of any certificate, leaves the state as the first
   left it and sees the same root pool, even when key ids repeat.
   */
  lemma VerifyClientCertRepeatable(m: Manager, cert: Cert, other: Cert, parseCert: seq<bv8> -> Parsed<Cert>, verify: (Cert, set<Cert>) -> bool)
    requires m.routerDataModel.Some?
    ensures var (m1, _) := VerifyClientCert(m, cert, parseCert, verify);
      var keys := m.routerDataModel.value.publicKeys;
      && VerifyClientCert(m1, other, parseCert, verify).0 == m1
      && CollectRoots(m1, keys, parseCert).1 == CollectRoots(m, keys, parseCert).1
  {
    var keys := m.routerDataModel.value.publicKeys;
    var m1 := CollectRoots(m, keys, parseCert).0;
    SettledCollectsNothing(m1, keys, parseCert);
  }

  /**
   Two keys sharing an id, the first of which fails to parse: the first
   verification gets the certificate from the second key and caches it; the
   second verification gets it for both keys from the cache. The pool holds
   that one certificate both times.
   */
  lemma SharedKidSamePool(m: Manager, bad: PublicKey, good: PublicKey, cert: Cert, parseCert: seq<bv8> -> Parsed<Cert>)
    requires bad.kid == good.kid && bad.kid !in m.certCache
    requires IsClientKey(bad) && IsClientKey(good)
    requires parseCert(bad.data).ParseErr? && parseCert(good.data) == ParsedOk(cert)
    ensures var (m1, first) := CollectRoots(m, [bad, good], parseCert);
      first == {cert} && CollectRoots(m1, [bad, good], parseCert).1 == {cert}
  {
    assert [bad, good][1..] == [good];
    assert [good][1..] == [];
    var cached := GetX509FromData(m, good.kid, good.data, parseCert).0;
    assert GetX509FromData(m, good.kid, good.data, parseCert) == (cached, ParsedOk(cert));
    assert CollectRoots(cached, [good][1..], parseCert) == (cached, {});
    assert CollectRoots(m, [good], parseCert).0 == cached;
    assert CollectRoots(m, [good], parseCert).1 == {cert};
    assert CollectRoots(m, [bad, good], parseCert).0 == cached;
    assert CollectRoots(cached, [good], parseCert).1 == {cert};
  }

  /**
   Installing a new data model keeps the certificate cache, so a key id that
   was already parsed keeps its old certificate even when the new model
   carries different data under that id.
   */
  lemma CachedCertSurvivesModelSwap(m: Manager, k: PublicKey, parseCert: seq<bv8> -> Parsed<Cert>)
    requires k.kid in m.certCache && IsClientKey(k)
    ensures CollectRoots(SetRouterDataModel(m, DataModel([k])), [k], parseCert).1 == {m.certCache[k.kid]}
  {
    assert [k][1..] == [];
  }

  /** A JWT header value: a string, or a value of some other JSON type. */
  datatype HeaderValue = HeaderString(s: string) | HeaderOther(typeName: string)

  /** Why `pubKeyLookup` finds no key. */
  datatype LookupError =
    | KidHeaderMissing
    | KidNotString(typeName: string)
    | PublicKeyNotFound
    | UnsupportedFormat(format: KeyFormat)
    | CertificatesEmpty
    | ParseFailure(msg: string)

  /** The outcome of `pubKeyLookup` and `parsePublicKey`. */
  datatype KeyLookup = KeyFound(key: CryptoKey) | KeyError(err: LookupError) | KeyPanicked

  /**
   `parsePublicKey(key)`: DER certificates yield the first certificate's
   public key (none is an error); a PKIX block is parsed as such; any other
   format is unsupported.
   */
  function ParsePublicKey(k: PublicKey, parseCerts: seq<bv8> -> Parsed<seq<Cert>>, parsePkix: seq<bv8> -> Parsed<CryptoKey>): (r: KeyLookup)
    ensures !r.KeyPanicked?
    ensures k.format.X509CertDer? ==>
      (r.KeyFound? <==> parseCerts(k.data).ParsedOk? && |parseCerts(k.data).value| > 0) &&
      (r.KeyFound? ==> r.key == parseCerts(k.data).value[0].publicKey) &&
      (parseCerts(k.data) == ParsedOk([]) ==> r == KeyError(CertificatesEmpty))
    ensures k.format.PKIXPublicKey? ==>
      (r.KeyFound? <==> parsePkix(k.data).ParsedOk?) &&
      (r.KeyFound? ==> r.key == parsePkix(k.data).value)
    ensures k.format.UnknownFormat? ==> r == KeyError(UnsupportedFormat(k.format))
  {
    match k.format
    case X509CertDer =>
      (match parseCerts(k.data)
       case ParseErr(msg) => KeyError(ParseFailure(msg))
       case ParsedOk(certs) => if |certs| == 0 then KeyError(CertificatesEmpty) else KeyFound(certs[0].publicKey))
    case PKIXPublicKey =>
      (match parsePkix(k.data)
       case ParseErr(msg) => KeyError(ParseFailure(msg))
       case ParsedOk(key) => KeyFound(key))
    case UnknownFormat(_) => KeyError(UnsupportedFormat(k.format))
  }

  /** The key may sign JWTs and has exactly this key id. */
  predicate SignsFor(k: PublicKey, kid: string)
  {
    IsJwtKey(k) && k.kid == kid
  }

  /** The position of the first key that signs for `kid`, if any. */
  function FirstSigner(keys: seq<PublicKey>, kid: string): (r: Option<nat>)
    ensures r.Some? ==> r.value < |keys| && SignsFor(keys[r.value], kid)
    ensures r.Some? ==> forall j :: 0 <= j < r.value ==> !SignsFor(keys[j], kid)
    ensures r.None? <==> forall j :: 0 <= j < |keys| ==> !SignsFor(keys[j], kid)
    decreases |keys|
  {
    if keys == [] then None
    else if SignsFor(keys[0], kid) then Some(0)
    else
      match FirstSigner(keys[1..], kid)
      case None =>
        assert forall j :: 1 <= j < |keys| ==> keys[j] == keys[1..][j - 1];
        None
      case Some(i) =>
        assert forall j :: 1 <= j < i + 1 ==> keys[j] == keys[1..][j - 1];
        Some(i + 1)
  }

  /**
   `pubKeyLookup(token)`: the `kid` header must be present and a string; it is
   trimmed of white space and the first JWT-validation key with exactly that
   id is parsed. A missing data model is a nil dereference.
   */
  function PubKeyLookup(m: Manager, header: map<string, HeaderValue>,
                        parseCerts: seq<bv8> -> Parsed<seq<Cert>>, parsePkix: seq<bv8> -> Parsed<CryptoKey>): (r: KeyLookup)
    ensures "kid" !in header ==> r == KeyError(KidHeaderMissing)
    ensures "kid" in header && header["kid"].HeaderOther? ==> r == KeyError(KidNotString(header["kid"].typeName))
    ensures "kid" in header && header["kid"].HeaderString? ==>
      var kid := TrimSpace(header["kid"].s);
      && (m.routerDataModel.None? <==> r.KeyPanicked?)
      && (m.routerDataModel.Some? ==>
            var keys := m.routerDataModel.value.publicKeys;
            && ((forall j :: 0 <= j < |keys| ==> !SignsFor(keys[j], kid)) ==> r == KeyError(PublicKeyNotFound))
            && (forall i :: 0 <= i < |keys| && SignsFor(keys[i], kid) && (forall j :: 0 <= j < i ==> !SignsFor(keys[j], kid)) ==>
                  r == ParsePublicKey(keys[i], parseCerts, parsePkix)))
  {
    if "kid" !in header then KeyError(KidHeaderMissing)
    else
      match header["kid"]
      case HeaderOther(t) => KeyError(KidNotString(t))
      case HeaderString(raw) =>
        var kid := TrimSpace(raw);
        match m.routerDataModel
        case None => KeyPanicked
        case Some(model) =>
          match FirstSigner(model.publicKeys, kid)
          case None => KeyError(PublicKeyNotFound)
          case Some(i) =>
            FirstSignerIsFirst(model.publicKeys, kid);
            ParsePublicKey(model.publicKeys[i], parseCerts, parsePkix)
  }

  /** Any position holding a signer with none before it is the one `FirstSigner` finds. */
  lemma FirstSignerIsFirst(keys: seq<PublicKey>, kid: string)
    ensures forall i :: 0 <= i < |keys| && SignsFor(keys[i], kid) && (forall j :: 0 <= j < i ==> !SignsFor(keys[j], kid)) ==>
      FirstSigner(keys, kid) == Some(i)
  {
    var r := FirstSigner(keys, kid);
    forall i | 0 <= i < |keys| && SignsFor(keys[i], kid) && (forall j :: 0 <= j < i ==> !SignsFor(keys[j], kid))
      ensures r == Some(i)
    {
    }
  }

  /**
   White space around the `kid` header does not matter: the header and its
   trimmed form find the same key.
   */
  lemma KidTrimmed(m: Manager, raw: string, parseCerts: seq<bv8> -> Parsed<seq<Cert>>, parsePkix: seq<bv8> -> Parsed<CryptoKey>)
    ensures PubKeyLookup(m, map["kid" := HeaderString(raw)], parseCerts, parsePkix)
         == PubKeyLookup(m, map["kid" := HeaderString(TrimSpace(raw))], parseCerts, parsePkix)
  {
    TrimSpaceIdempotent(raw);
  }

  /** A key without the JWT-validation usage is never used to check a signature, whatever its id. */
  lemma ClientOnlyKeyNotUsedForJwt(m: Manager, k: PublicKey, parseCerts: seq<bv8> -> Parsed<seq<Cert>>, parsePkix: seq<bv8> -> Parsed<CryptoKey>)
    requires m.routerDataModel == Some(DataModel([k])) && !IsJwtKey(k)
    ensures PubKeyLookup(m, map["kid" := HeaderString(k.kid)], parseCerts, parsePkix) == KeyError(PublicKeyNotFound)
  {
  }
}
