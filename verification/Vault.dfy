/**
 The identity vault: unlocking a user's identity from the browser's cache, from the wrapped
 record on the server, or by generating, wrapping and publishing a new one.
 */
module Vault {
  import opened Wrappers
  import IdentityWrap
  import Base64

  type Bytes = seq<Base64.Byte>

  const NONCE_LENGTH := 12
  const WRAP_ALG := "aes-256-gcm"

  /**
   The library calls: number reading, Argon2id followed by HKDF, AES-GCM with (key, nonce,
   associated data, text), and base64 text.
   */
  datatype Suite = Suite(
    number: IdentityWrap.Number,
    derive: (string, Bytes, IdentityWrap.KdfParams) -> Bytes,
    seal: (Bytes, Bytes, Bytes, Bytes) -> Bytes,
    open: (Bytes, Bytes, Bytes, Bytes) -> Option<Bytes>,
    toBase64: Bytes -> string,
    fromBase64: string -> Option<Bytes>)

  /** A box opens only under its own key, nonce and associated data; base64 is invertible. */
  ghost predicate Ideal(s: Suite) {
    && (forall k, n, a, p, k', n', a' :: s.open(k', n', a', s.seal(k, n, a, p)) ==
                                         if k' == k && n' == n && a' == a then Some(p) else None)
    && (forall k, n, a, p :: s.seal(k, n, a, p) != [])
    && (forall password, salt, params :: s.derive(password, salt, params) != [])
    && (forall b: Bytes :: s.fromBase64(s.toBase64(b)) == Some(b))
    && (forall b: Bytes :: s.toBase64(b) == "" <==> b == [])
  }

  datatype Keypair = Keypair(signingPublic: Bytes, signingPrivate: Bytes, kemPublic: Bytes, kemPrivate: Bytes)

  /** An identity record as the server returns it to its owner. */
  datatype Record = Record(
    id: string, deviceLabel: string, publicSigning: string, publicKem: string,
    wrappedSigning: Option<string>, wrappedKem: Option<string>, wrapNonce: Option<string>,
    wrapSalt: Option<string>, wrapParams: Option<string>, wrapAlg: Option<string>)

  datatype LocalIdentity = LocalIdentity(
    keyId: string, deviceLabel: string, pair: Keypair,
    wrapKey: Option<Bytes>, wrapSalt: Option<Bytes>, wrapParams: Option<string>)

  datatype Error =
    | IdentityLocked | BadParams(error: IdentityWrap.ParamError) | BadBase64 | UnwrapFailed | NotWrapped | PublishFailed

  predicate Truthy(field: Option<string>) {
    field.Some? && field.value != ""
  }

  // ---- Wrapping and unwrapping a key pair ----------------------------------------------

  /** The record published for a key pair: each private key sealed to its own public key. */
  function WrapForPublish(s: Suite, wrapKey: Bytes, salt: Bytes, pair: Keypair, device: string, params: string,
                          signingNonce: Bytes, kemNonce: Bytes, id: string): Record
  {
    Record(id, device, s.toBase64(pair.signingPublic), s.toBase64(pair.kemPublic),
           Some(s.toBase64(s.seal(wrapKey, signingNonce, pair.signingPublic, pair.signingPrivate))),
           Some(s.toBase64(s.seal(wrapKey, kemNonce, pair.kemPublic, pair.kemPrivate))),
           Some(s.toBase64(signingNonce + kemNonce)), Some(s.toBase64(salt)), Some(params), Some(WRAP_ALG))
  }

  /** Both nonces are drawn by the cipher, 12 bytes each, and stored in one 24-byte field. */
  method WrapKeypairForPublish(s: Suite, wrapKey: Bytes, salt: Bytes, pair: Keypair, device: string, params: string,
                               signingNonce: Bytes, kemNonce: Bytes, id: string) returns (r: Record)
    requires |signingNonce| == NONCE_LENGTH && |kemNonce| == NONCE_LENGTH
    ensures r == WrapForPublish(s, wrapKey, salt, pair, device, params, signingNonce, kemNonce, id)
  {
    var signingWrapped := s.seal(wrapKey, signingNonce, pair.signingPublic, pair.signingPrivate);
    var kemWrapped := s.seal(wrapKey, kemNonce, pair.kemPublic, pair.kemPrivate);
    var combinedNonce := new Base64.Byte[NONCE_LENGTH * 2](_ => 0);
    forall j | 0 <= j < NONCE_LENGTH {
      combinedNonce[j] := signingNonce[j];
    }
    forall j | 0 <= j < NONCE_LENGTH {
      combinedNonce[NONCE_LENGTH + j] := kemNonce[j];
    }
    assert combinedNonce[..] == signingNonce + kemNonce;
    r := Record(id, device, s.toBase64(pair.signingPublic), s.toBase64(pair.kemPublic),
                Some(s.toBase64(signingWrapped)), Some(s.toBase64(kemWrapped)), Some(s.toBase64(combinedNonce[..])),
                Some(s.toBase64(salt)), Some(params), Some(WRAP_ALG));
  }

  /** `subarray`: bounds beyond the end are clamped. */
  function Subarray(b: Bytes, from: nat, to: nat): Bytes
    requires from <= to
  {
    var hi := if to < |b| then to else |b|;
    var lo := if from < hi then from else hi;
    b[lo..hi]
  }

  function UnwrapOne(s: Suite, wrapKey: Bytes, wrapped: string, nonce: Bytes, publicKey: Bytes): Result<Bytes, Error> {
    match s.fromBase64(wrapped)
    case None => Err(BadBase64)
    case Some(box) =>
      match s.open(wrapKey, nonce, publicKey, box)
      case None => Err(UnwrapFailed)
      case Some(privateKey) => Ok(privateKey)
  }

  function UnwrapFromRecord(s: Suite, wrapKey: Bytes, r: Record): Result<Keypair, Error> {
    if || !Truthy(r.wrappedSigning) || !Truthy(r.wrappedKem) || !Truthy(r.wrapNonce)
       || !Truthy(r.wrapSalt) || !Truthy(r.wrapParams)
    then Err(NotWrapped)
    else
      var signingPublic, kemPublic := s.fromBase64(r.publicSigning), s.fromBase64(r.publicKem);
      var nonces := s.fromBase64(r.wrapNonce.value);
      if signingPublic.None? || kemPublic.None? || nonces.None? then Err(BadBase64)
      else
        match UnwrapOne(s, wrapKey, r.wrappedSigning.value, Subarray(nonces.value, 0, NONCE_LENGTH),
                        signingPublic.value)
        case Err(e) => Err(e)
        case Ok(signingPrivate) =>
          match UnwrapOne(s, wrapKey, r.wrappedKem.value, Subarray(nonces.value, NONCE_LENGTH, NONCE_LENGTH * 2),
                          kemPublic.value)
          case Err(e) => Err(e)
          case Ok(kemPrivate) => Ok(Keypair(signingPublic.value, signingPrivate, kemPublic.value, kemPrivate))
  }

  /** A published record gives back all four keys, through the concatenated nonces. */
  lemma UnwrapGivesBackThePair(s: Suite, wrapKey: Bytes, salt: Bytes, pair: Keypair, device: string, params: string,
                               signingNonce: Bytes, kemNonce: Bytes, id: string)
    requires Ideal(s) && |signingNonce| == NONCE_LENGTH && |kemNonce| == NONCE_LENGTH && salt != [] && params != ""
    ensures var r := WrapForPublish(s, wrapKey, salt, pair, device, params, signingNonce, kemNonce, id);
            UnwrapFromRecord(s, wrapKey, r) == Ok(pair)
  {
    assert Subarray(signingNonce + kemNonce, 0, NONCE_LENGTH) == signingNonce;
    assert Subarray(signingNonce + kemNonce, NONCE_LENGTH, NONCE_LENGTH * 2) == kemNonce;
    assert signingNonce + kemNonce != [];
  }

  /**
   Substitution resistance: the record unwraps only under the very wrapping key and with both
   public keys in place; replacing either one, or deriving another key from a wrong password,
   makes unwrapping fail.
   */
  lemma UnwrapFailsIfTampered(s: Suite, wrapKey: Bytes, salt: Bytes, pair: Keypair, device: string, params: string,
                              signingNonce: Bytes, kemNonce: Bytes, id: string, wrapKey': Bytes, publicSigning: string,
                              publicKem: string)
    requires Ideal(s) && |signingNonce| == NONCE_LENGTH && |kemNonce| == NONCE_LENGTH && salt != [] && params != ""
    ensures var r := WrapForPublish(s, wrapKey, salt, pair, device, params, signingNonce, kemNonce, id);
            UnwrapFromRecord(s, wrapKey', r.(publicSigning := publicSigning, publicKem := publicKem)).Ok? <==>
            wrapKey' == wrapKey && s.fromBase64(publicSigning) == Some(pair.signingPublic)
            && s.fromBase64(publicKem) == Some(pair.kemPublic)
  {
    assert Subarray(signingNonce + kemNonce, 0, NONCE_LENGTH) == signingNonce;
    assert Subarray(signingNonce + kemNonce, NONCE_LENGTH, NONCE_LENGTH * 2) == kemNonce;
    assert signingNonce + kemNonce != [];
  }

  // ---- The browser's cache ----------------------------------------------------------

  /** A cached identity as stored: base64 text, wrapping material optional. */
  datatype Serialized = Serialized(
    keyId: string, deviceLabel: string, signingPublic: string, signingPrivate: string, kemPublic: string,
    kemPrivate: string,
    wrapKey: Option<string>, wrapSalt: Option<string>, wrapParams: Option<string>)

  function OptionalText(s: Suite, b: Option<Bytes>): Option<string> {
    if b.Some? then Some(s.toBase64(b.value)) else None
  }

  function Serialize(s: Suite, id: LocalIdentity): Serialized {
    Serialized(id.keyId, id.deviceLabel, s.toBase64(id.pair.signingPublic), s.toBase64(id.pair.signingPrivate),
               s.toBase64(id.pair.kemPublic), s.toBase64(id.pair.kemPrivate),
               OptionalText(s, id.wrapKey), OptionalText(s, id.wrapSalt), id.wrapParams)
  }

  /** Absent if any text is not base64; an empty wrapping field reads as missing. */
  function Deserialize(s: Suite, t: Serialized): Option<LocalIdentity> {
    var a, b := s.fromBase64(t.signingPublic), s.fromBase64(t.signingPrivate);
    var c, d := s.fromBase64(t.kemPublic), s.fromBase64(t.kemPrivate);
    var wrapKey := if Truthy(t.wrapKey) then s.fromBase64(t.wrapKey.value) else None;
    var wrapSalt := if Truthy(t.wrapSalt) then s.fromBase64(t.wrapSalt.value) else None;
    if || a.None? || b.None? || c.None? || d.None?
       || (Truthy(t.wrapKey) && wrapKey.None?) || (Truthy(t.wrapSalt) && wrapSalt.None?)
    then None
    else
      var pair := Keypair(a.value, b.value, c.value, d.value);
      Some(LocalIdentity(t.keyId, t.deviceLabel, pair, wrapKey, wrapSalt, t.wrapParams))
  }

  /** The cache gives an identity back unchanged exactly when no wrapping field is an empty byte string. */
  lemma CacheRoundTripIff(s: Suite, id: LocalIdentity)
    requires Ideal(s)
    ensures Deserialize(s, Serialize(s, id)) == Some(id) <==> id.wrapKey != Some([]) && id.wrapSalt != Some([])
  {
  }

  /** One browser's storage: cached identities by user, and the old global slot. */
  datatype Browser = Browser(cache: map<string, Serialized>, legacy: Option<Keypair>)

  function Load(s: Suite, b: Browser, user: string): Option<LocalIdentity> {
    if user in b.cache then Deserialize(s, b.cache[user]) else None
  }

  // ---- Unlocking -----------------------------------------------------------------------

  /** How a publish request ends: answered with the record's id, refused, or stored with its answer lost. */
  datatype Reply = Accepted(id: string) | Refused | Lost(id: string) {
    function Id(): string { if Refused? then "" else id }
  }

  /** Everything drawn at random, and how the server will reply to a publish request. */
  datatype Draw = Draw(pair: Keypair, salt: Bytes, signingNonce: Bytes, kemNonce: Bytes, reply: Reply)

  predicate WellDrawn(d: Draw) {
    |d.salt| == 16 && |d.signingNonce| == NONCE_LENGTH && |d.kemNonce| == NONCE_LENGTH
  }

  /** A record this cipher can unwrap. */
  predicate Recoverable(r: Option<Record>) {
    && r.Some? && Truthy(r.value.wrappedSigning) && Truthy(r.value.wrappedKem) && Truthy(r.value.wrapNonce)
    && Truthy(r.value.wrapSalt) && Truthy(r.value.wrapParams) && r.value.wrapAlg == Some(WRAP_ALG)
  }

  function DeriveKey(s: Suite, password: string, salt: Bytes, params: string): Result<Bytes, Error> {
    match IdentityWrap.Parse(s.number, params)
    case Err(e) => Err(BadParams(e))
    case Ok(p) => Ok(s.derive(password, salt, p))
  }

  /** The identity recovered from a wrapped record with the password. */
  function Recovered(s: Suite, r: Record, password: string): Result<LocalIdentity, Error>
    requires Recoverable(Some(r))
  {
    match s.fromBase64(r.wrapSalt.value)
    case None => Err(BadBase64)
    case Some(salt) =>
      match DeriveKey(s, password, salt, r.wrapParams.value)
      case Err(e) => Err(e)
      case Ok(wrapKey) =>
        match UnwrapFromRecord(s, wrapKey, r)
        case Err(e) => Err(e)
        case Ok(pair) => Ok(LocalIdentity(r.id, r.deviceLabel, pair, Some(wrapKey), Some(salt), r.wrapParams))
  }

  /** The record and identity of a fresh publication: the old global key pair if there is one, else the drawn one. */
  function Fresh(s: Suite, b: Browser, existing: Option<Record>, password: string, d: Draw, device: string,
                 params: string)
    : Result<(LocalIdentity, Record), Error>
  {
    match DeriveKey(s, password, d.salt, params)
    case Err(e) => Err(e)
    case Ok(wrapKey) =>
      var pair := if b.legacy.Some? then b.legacy.value else d.pair;
      var r := WrapForPublish(s, wrapKey, d.salt, pair, device, params, d.signingNonce, d.kemNonce, d.reply.Id());
      var shown := if existing.Some? then existing.value.deviceLabel else device;
      Ok((LocalIdentity(d.reply.Id(), shown, pair, Some(wrapKey), Some(d.salt), Some(params)), r))
  }

  function Unlock(s: Suite, b: Browser, server: Option<Record>, user: string, password: Option<string>, d: Draw,
                  device: string, params: string): (Result<LocalIdentity, Error>, Browser, Option<Record>)
  {
    if Load(s, b, user).Some? then (Ok(Load(s, b, user).value), b, server)
    else if !Truthy(password) then (Err(IdentityLocked), b, server)
    else if Recoverable(server) then
      match Recovered(s, server.value, password.value)
      case Err(e) => (Err(e), b, server)
      case Ok(id) => (Ok(id), b.(cache := b.cache[user := Serialize(s, id)]), server)
    else
      match Fresh(s, b, server, password.value, d, device, params)
      case Err(e) => (Err(e), b, server)
      case Ok((id, r)) =>
        match d.reply
        case Accepted(_) => (Ok(id), Browser(b.cache[user := Serialize(s, id)], None), Some(r))
        case Refused => (Err(PublishFailed), b, server)
        case Lost(_) => (Err(PublishFailed), b, Some(r))
  }

  /** The user's active record on the server, as publishing and fetching see it. */
  class IdentityServer {
    var active: Option<Record>

    constructor (active: Option<Record>)
      ensures this.active == active
    {
      this.active := active;
    }
  }

  class IdentityVault {
    const suite: Suite
    var cache: map<string, Serialized>
    var legacy: Option<Keypair>

    constructor (suite: Suite, legacy: Option<Keypair>)
      ensures this.suite == suite && cache == map[] && this.legacy == legacy
    {
      this.suite := suite;
      this.cache := map[];
      this.legacy := legacy;
    }

    method UnlockIdentity(server: IdentityServer, user: string, password: Option<string>, d: Draw, device: string,
                          params: string)
      returns (r: Result<LocalIdentity, Error>)
      requires WellDrawn(d)
      modifies this, server
      ensures (r, Browser(cache, legacy), server.active) ==
              Unlock(suite, Browser(old(cache), old(legacy)), old(server.active), user, password, d, device, params)
    {
      var cached := if user in cache then Deserialize(suite, cache[user]) else None;
      if cached.Some? {
        return Ok(cached.value);
      }
      if password.None? || password.value == "" {
        return Err(IdentityLocked);
      }
      var record := server.active;
      var identity: LocalIdentity;
      if Recoverable(record) {
        var recovered := Recovered(suite, record.value, password.value);
        if recovered.Err? {
          return recovered;
        }
        identity := recovered.value;
      } else {
        var pair := d.pair;
        if legacy.Some? {
          pair := legacy.value;
        }
        var parsed := IdentityWrap.ParseWrapKdfParams(suite.number, params);
        if parsed.Err? {
          return Err(BadParams(parsed.error));
        }
        var wrapKey := suite.derive(password.value, d.salt, parsed.value);
        var published := WrapKeypairForPublish(suite, wrapKey, d.salt, pair, device, params,
                                               d.signingNonce, d.kemNonce, d.reply.Id());
        if d.reply.Refused? {
          return Err(PublishFailed);
        }
        server.active := Some(published);
        if d.reply.Lost? {
          return Err(PublishFailed);
        }
        legacy := None;
        var shown := if record.Some? then record.value.deviceLabel else device;
        identity := LocalIdentity(d.reply.Id(), shown, pair, Some(wrapKey), Some(d.salt), Some(params));
      }
      cache := cache[user := Serialize(suite, identity)];
      return Ok(identity);
    }
  }

  /** A record whose five wrapping fields are present and which names this cipher. */
  predicate CanBeUnwrapped(r: Record) {
    && r.wrappedSigning != None && r.wrappedSigning != Some("") && r.wrappedKem != None && r.wrappedKem != Some("")
    && r.wrapNonce != None && r.wrapNonce != Some("") && r.wrapSalt != None && r.wrapSalt != Some("")
    && r.wrapParams != None && r.wrapParams != Some("") && r.wrapAlg == Some("aes-256-gcm")
  }

  lemma TruthyIs(field: Option<string>)
    ensures Truthy(field) <==> field != None && field != Some("")
  {
  }

  lemma RecoverableIs(r: Record)
    ensures Recoverable(Some(r)) <==> CanBeUnwrapped(r)
  {
    TruthyIs(r.wrappedSigning);
    TruthyIs(r.wrappedKem);
    TruthyIs(r.wrapNonce);
    TruthyIs(r.wrapSalt);
    TruthyIs(r.wrapParams);
  }

  /** Without a cached identity and a password nothing happens but the refusal. */
  lemma LockedWithoutPassword(s: Suite, b: Browser, server: Option<Record>, user: string, password: Option<string>,
                              d: Draw, device: string, params: string)
    requires user !in b.cache && password in {None, Some("")}
    ensures Unlock(s, b, server, user, password, d, device, params) == (Err(IdentityLocked), b, server)
  {
  }

  /**
   A record that can be unwrapped is never replaced, nor is the old global slot emptied, whatever
   becomes of the unlock.
   */
  lemma RecoveryPublishesNothing(s: Suite, b: Browser, server: Record, user: string, password: Option<string>, d: Draw,
                                 device: string, params: string)
    requires CanBeUnwrapped(server)
    ensures var (result, b', server') := Unlock(s, b, Some(server), user, password, d, device, params);
            && server' == Some(server) && b'.legacy == b.legacy
            && (user !in b.cache && result.Ok? ==> result.value.keyId == server.id && user in b'.cache)
  {
    RecoverableIs(server);
  }

  /**
   Any other record, or none, is replaced by a newly published one. The old global key pair is
   adopted if there is one, else the drawn one; its slot is emptied exactly once the publish has
   been accepted; and the record names the identity's own public keys and this cipher.
   */
  lemma OtherwiseAnIdentityIsPublished(s: Suite, b: Browser, server: Option<Record>, user: string, password: string,
                                       d: Draw, device: string, params: string)
    requires Ideal(s) && WellDrawn(d) && user !in b.cache && password != "" && IdentityWrap.Parse(s.number, params).Ok?
    requires server.Some? ==> !CanBeUnwrapped(server.value)
    ensures var (result, b', server') := Unlock(s, b, server, user, Some(password), d, device, params);
            var pair := if b.legacy.Some? then b.legacy.value else d.pair;
            && (d.reply.Refused? ==> result == Err(PublishFailed) && b' == b && server' == server)
            && (d.reply.Lost? ==> result == Err(PublishFailed) && b' == b)
            && (d.reply.Accepted? ==>
                  && result.Ok? && result.value.pair == pair && result.value.keyId == d.reply.id
                  && result.value.deviceLabel == (if server.Some? then server.value.deviceLabel else device)
                  && b'.legacy == None && user in b'.cache
                  && forall other :: other != user ==> (other in b'.cache <==> other in b.cache)
                                                       && (other in b.cache ==> b'.cache[other] == b.cache[other]))
            && (!d.reply.Refused? ==>
                  && server'.Some? && CanBeUnwrapped(server'.value) && server'.value.id == d.reply.id
                  && server'.value.deviceLabel == device && server'.value.wrapParams == Some(params)
                  && s.fromBase64(server'.value.publicSigning) == Some(pair.signingPublic)
                  && s.fromBase64(server'.value.publicKem) == Some(pair.kemPublic)
                  && s.fromBase64(server'.value.wrapNonce.value) == Some(d.signingNonce + d.kemNonce)
                  && s.fromBase64(server'.value.wrapSalt.value) == Some(d.salt))
  {
    NonEmptyParams(s, params);
    assert d.signingNonce + d.kemNonce != [];
    if server.Some? {
      RecoverableIs(server.value);
    }
  }

  /**
   An identity that reached the server through the generate path, even if the answer was lost and
   the unlock failed, is recovered by a later unlock on any browser whose cache does not hold it,
   with the same password: the same four keys and key id, the same wrapping material, and
   nothing published again.
   */
  lemma {:induction false} PublishedIdentityIsRecovered(
    s: Suite, here: Browser, there: Browser, before: Option<Record>, user: string, password: string, d: Draw, d': Draw,
    device: string, device': string, params: string, params': string)
    requires Ideal(s) && WellDrawn(d) && password != ""
    requires Load(s, here, user).None? && Load(s, there, user).None? && !Recoverable(before)
    requires Fresh(s, here, before, password, d, device, params).Ok? && !d.reply.Refused?
    ensures var id := Fresh(s, here, before, password, d, device, params).value.0;
            var (first, _, server) := Unlock(s, here, before, user, Some(password), d, device, params);
            var (second, _, server') := Unlock(s, there, server, user, Some(password), d', device', params');
            && first == (if d.reply.Accepted? then Ok(id) else Err(PublishFailed))
            && second == Ok(id.(deviceLabel := device)) && server' == server
  {
    var server := Unlock(s, here, before, user, Some(password), d, device, params).2;
    var pair := if here.legacy.Some? then here.legacy.value else d.pair;
    var wrapKey := DeriveKey(s, password, d.salt, params).value;
    NonEmptyParams(s, params);
    UnwrapGivesBackThePair(s, wrapKey, d.salt, pair, device, params, d.signingNonce, d.kemNonce, d.reply.Id());
    assert d.signingNonce + d.kemNonce != [];
    assert Recoverable(server);
  }

  /**
   Another password recovers a published identity exactly if it derives the same wrapping key;
   otherwise the unlock fails, caches nothing and publishes nothing.
   */
  lemma {:induction false} RecoveryNeedsTheWrapKey(
    s: Suite, here: Browser, there: Browser, before: Option<Record>, user: string, password: string, other: string,
    d: Draw, d': Draw, device: string, device': string, params: string, params': string)
    requires Ideal(s) && WellDrawn(d) && password != "" && other != ""
    requires Load(s, here, user).None? && Load(s, there, user).None? && !Recoverable(before)
    requires Unlock(s, here, before, user, Some(password), d, device, params).0.Ok?
    ensures IdentityWrap.Parse(s.number, params).Ok?
    ensures var server := Unlock(s, here, before, user, Some(password), d, device, params).2;
            var (second, there', server') := Unlock(s, there, server, user, Some(other), d', device', params');
            var p := IdentityWrap.Parse(s.number, params).value;
            && (second.Ok? <==> s.derive(other, d.salt, p) == s.derive(password, d.salt, p))
            && (second.Err? ==> second == Err(UnwrapFailed) && there' == there && server' == server)
  {
    var server := Unlock(s, here, before, user, Some(password), d, device, params).2;
    var pair := if here.legacy.Some? then here.legacy.value else d.pair;
    var p := IdentityWrap.Parse(s.number, params).value;
    NonEmptyParams(s, params);
    assert d.signingNonce + d.kemNonce != [];
    assert Recoverable(server);
    UnwrapFailsIfTampered(s, s.derive(password, d.salt, p), d.salt, pair, device, params,
                          d.signingNonce, d.kemNonce, d.reply.Id(),
                          s.derive(other, d.salt, p), server.value.publicSigning, server.value.publicKem);
  }

  lemma NonEmptyParams(s: Suite, params: string)
    requires IdentityWrap.Parse(s.number, params).Ok?
    ensures params != ""
  {
  }

  /**
   After an unlock the same browser answers again from its cache, without the password, unless
   the recovered salt was an empty byte string: an empty wrapping field does not survive the cache.
   */
  lemma {:induction false} UnlockedIdentityIsCached(
    s: Suite, b: Browser, server: Option<Record>, user: string, password: Option<string>, d: Draw, d': Draw,
    device: string, params: string)
    requires Ideal(s) && WellDrawn(d)
    requires Unlock(s, b, server, user, password, d, device, params).0.Ok?
    ensures var (first, b', server') := Unlock(s, b, server, user, password, d, device, params);
            Unlock(s, b', server', user, None, d', device, params) == (first, b', server') <==>
            Load(s, b, user).Some? || first.value.wrapSalt != Some([])
  {
    var (first, b', _) := Unlock(s, b, server, user, password, d, device, params);
    CacheRoundTripIff(s, first.value);
  }
}
