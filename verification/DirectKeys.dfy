/**
 Key establishment in a 1:1 conversation: the initiator encapsulates against the peer's KEM
 key and sends the ciphertext with its first message, the peer decapsulates, and both read
 history back later, each side from its local key or its password-wrapped backup.
 */
module DirectKeys {
  import opened Wrappers
  import opened SymbolicCrypto
  import AssociatedData

  datatype Side = Alice | Bob {
    function Peer(): Side { if Alice? then Bob else Alice }
  }

  datatype Envelope = Envelope(nonce: nat, sig: Option<Signature<string>>, kem: Option<KemCiphertext>)

  datatype Message = Message(sender: Side, senderKeyId: string, ciphertext: Box<string>, envelope: Envelope)

  datatype Backup = Backup(wrappedKey: Box<SymKey>, nonce: nat)

  /** The own identity; `wrapKey` is absent for an identity cached before backups existed. */
  datatype Identity = Identity(keyId: string, signer: SigPrivate, kem: KemPrivate, wrapKey: Option<SymKey>)

  datatype PeerKeys = PeerKeys(keyId: string, signing: SigPublic, kem: KemPublic)

  /** One side's browser and its server-side backup row. */
  datatype Device = Device(
    side: Side, conv: string, me: Identity, peer: PeerKeys, local: Option<SymKey>, backup: Option<Backup>)

  datatype OpenError = UnknownSender | MissingKem | MissingSignature | MissingOwnKey | NotAuthentic | BadTag

  // ---- Key establishment and sealing --------------------------------------------

  function EstablishOutbound(peer: KemPublic, coins: nat): (SymKey, KemCiphertext) {
    var (ct, secret) := Encapsulate(peer, coins);
    (DerivedKey(secret, MessagePurpose), ct)
  }

  function EstablishInbound(ct: KemCiphertext, mine: KemPrivate): SymKey {
    DerivedKey(Decapsulate(mine, ct), MessagePurpose)
  }

  function Aad(conv: string, senderKeyId: string): string {
    AssociatedData.Encode(AssociatedData.MessageContext(conv, senderKeyId))
  }

  function Seal(key: SymKey, text: string, me: Identity, conv: string, nonce: nat): (Box<string>, Signature<string>) {
    var aad := Aad(conv, me.keyId);
    var box := Encrypt(key, nonce, text, aad);
    (box, Sign(me.signer, Signed(box, nonce, aad)))
  }

  function OpenMessage(key: SymKey, m: Message, sig: Signature<string>, signer: SigPublic,
                       conv: string): Result<string, OpenError> {
    var aad := Aad(conv, m.senderKeyId);
    if !Verify(signer, Signed(m.ciphertext, m.envelope.nonce, aad), sig) then Err(NotAuthentic)
    else match Decrypt(key, m.envelope.nonce, m.ciphertext, aad)
      case Some(text) => Ok(text)
      case None => Err(BadTag)
  }

  /** What an outgoing message is when `existing` is the key already established, if any. */
  function Outgoing(d: Device, text: string, existing: Option<SymKey>, coins: nat, nonce: nat): (Message, SymKey) {
    var (key, kem) := match existing
      case Some(k) => (k, None)
      case None => var (k, ct) := EstablishOutbound(d.peer.kem, coins); (k, Some(ct));
    var (box, sig) := Seal(key, text, d.me, d.conv, nonce);
    (Message(d.side, d.me.keyId, box, Envelope(nonce, Some(sig), kem)), key)
  }

  method PrepareOutgoing(d: Device, text: string, existing: Option<SymKey>, coins: nat, nonce: nat)
    returns (m: Message, key: SymKey, keying: bool)
    ensures (m, key) == Outgoing(d, text, existing, coins, nonce)
    ensures keying <==> existing == None
    ensures keying <==> m.envelope.kem.Some?
    ensures keying ==> forall mine: KemPrivate ::
              EstablishInbound(m.envelope.kem.value, mine) == key <==> mine.Public() == d.peer.kem
  {
    var kemCiphertext: Option<KemCiphertext> := None;
    if existing.Some? {
      key := existing.value;
    } else {
      var established := EstablishOutbound(d.peer.kem, coins);
      key := established.0;
      kemCiphertext := Some(established.1);
    }
    var sealed := Seal(key, text, d.me, d.conv, nonce);
    var envelope := Envelope(nonce, Some(sealed.1), None);
    if kemCiphertext.Some? {
      envelope := envelope.(kem := kemCiphertext);
    }
    m := Message(d.side, d.me.keyId, sealed.0, envelope);
    keying := kemCiphertext != None;
  }

  /** Opening a peer's message: a KEM ciphertext in the envelope overrides any cached key. */
  function Incoming(d: Device, m: Message, existing: Option<SymKey>): Result<(string, SymKey), OpenError> {
    if m.senderKeyId != d.peer.keyId then Err(UnknownSender)
    else if m.envelope.kem.None? && existing.None? then Err(MissingKem)
    else
      var key := if m.envelope.kem.Some? then EstablishInbound(m.envelope.kem.value, d.me.kem) else existing.value;
      if m.envelope.sig.None? then Err(MissingSignature)
      else match OpenMessage(key, m, m.envelope.sig.value, d.peer.signing, d.conv)
        case Ok(text) => Ok((text, key))
        case Err(e) => Err(e)
  }

  /** The peer, and nobody else, signed this message for this conversation. */
  predicate SignedByPeer(d: Device, m: Message) {
    && m.envelope.sig.Some?
    && m.envelope.sig.value.signer.Public() == d.peer.signing
    && m.envelope.sig.value.content == Signed(m.ciphertext, m.envelope.nonce, Aad(d.conv, m.senderKeyId))
  }

  /** The key a peer's message is to be opened with: the one its envelope establishes, whatever is cached. */
  function KeyFor(d: Device, m: Message, existing: Option<SymKey>): Option<SymKey> {
    if m.envelope.kem.Some? then Some(EstablishInbound(m.envelope.kem.value, d.me.kem)) else existing
  }

  /**
   A message is accepted exactly if the peer signed it and it is a box of this conversation under
   the key for it, and then that box's text and that key are returned. With a KEM ciphertext in
   the envelope the cached key plays no part. A missing key is noticed before a missing
   signature, and a bad signature before a bad tag.
   */
  method OpenIncoming(d: Device, m: Message, existing: Option<SymKey>) returns (r: Result<(string, SymKey), OpenError>)
    ensures r == Incoming(d, m, existing)
    ensures forall text, key ::
              r == Ok((text, key)) <==>
              && m.senderKeyId == d.peer.keyId && SignedByPeer(d, m) && KeyFor(d, m, existing) == Some(key)
              && m.ciphertext == Encrypt(key, m.envelope.nonce, text, Aad(d.conv, m.senderKeyId))
    ensures m.envelope.kem.Some? ==> forall other :: r == Incoming(d, m, other)
    ensures r == Err(UnknownSender) <==> m.senderKeyId != d.peer.keyId
    ensures r == Err(MissingKem) <==> m.senderKeyId == d.peer.keyId && KeyFor(d, m, existing) == None
    ensures r == Err(MissingSignature) <==>
            m.senderKeyId == d.peer.keyId && KeyFor(d, m, existing).Some? && m.envelope.sig == None
    ensures r == Err(NotAuthentic) <==>
            m.senderKeyId == d.peer.keyId && KeyFor(d, m, existing).Some? && m.envelope.sig.Some? && !SignedByPeer(d, m)
  {
    if m.senderKeyId != d.peer.keyId {
      return Err(UnknownSender);
    }
    var key := existing;
    if m.envelope.kem.Some? {
      key := Some(EstablishInbound(m.envelope.kem.value, d.me.kem));
    } else if key.None? {
      return Err(MissingKem);
    }
    if m.envelope.sig.None? {
      return Err(MissingSignature);
    }
    var text := OpenMessage(key.value, m, m.envelope.sig.value, d.peer.signing, d.conv);
    match text {
      case Ok(t) => r := Ok((t, key.value));
      case Err(e) => r := Err(e);
    }
  }

  /**
   A 1:1 message opens, to its own text, exactly under the key that sealed it, its author's signing
   key, and the conversation and sender key it was sealed for.
   */
  lemma MessageOpensOnlyInPlace(key: SymKey, text: string, me: Identity, conv: string, nonce: nat,
                                kem: Option<KemCiphertext>, sender: Side, key': SymKey, verifier: SigPublic,
                                conv': string, senderKeyId': string)
    requires AssociatedData.IsUuid(conv) && AssociatedData.IsUuid(conv')
    requires AssociatedData.IsUuid(me.keyId) && AssociatedData.IsUuid(senderKeyId')
    ensures var (box, sig) := Seal(key, text, me, conv, nonce);
            var m := Message(sender, senderKeyId', box, Envelope(nonce, Some(sig), kem));
            var result := OpenMessage(key', m, sig, verifier, conv');
            if key' == key && verifier == me.signer.Public() && conv' == conv && senderKeyId' == me.keyId
            then result == Ok(text) else result.Err?
  {
    if Aad(conv, me.keyId) == Aad(conv', senderKeyId') {
      AssociatedData.EncodeInjective(AssociatedData.MessageContext(conv, me.keyId),
                                     AssociatedData.MessageContext(conv', senderKeyId'));
    }
  }

  // ---- Local key, backup, and opening for a conversation ---------------------------

  function WrapBackup(wrapKey: SymKey, key: SymKey, conv: string, nonce: nat): Backup {
    Backup(Encrypt(wrapKey, nonce, key, conv), nonce)
  }

  function UnwrapBackup(wrapKey: SymKey, b: Backup, conv: string): Option<SymKey> {
    Decrypt(wrapKey, b.nonce, b.wrappedKey, conv)
  }

  /** A backup gives back its key exactly under the same wrapping key and conversation. */
  lemma BackupRoundTrip(wrapKey: SymKey, key: SymKey, conv: string, nonce: nat, wrapKey': SymKey, conv': string)
    ensures UnwrapBackup(wrapKey', WrapBackup(wrapKey, key, conv, nonce), conv') ==
            if wrapKey' == wrapKey && conv' == conv then Some(key) else None
  {
  }

  /** The conversation's key: the local one, else the one recovered from the backup. */
  function Resolve(d: Device): Option<SymKey> {
    if d.local.Some? then d.local
    else if d.me.wrapKey.None? || d.backup.None? then None
    else UnwrapBackup(d.me.wrapKey.value, d.backup.value, d.conv)
  }

  /** Opens one message with the key found for it, returning the browser with its key store updated. */
  function OpenWith(d: Device, m: Message, existing: Option<SymKey>): (Result<string, OpenError>, Device) {
    if m.sender == d.side then
      if existing.None? then (Err(MissingOwnKey), d)
      else if m.envelope.sig.None? then (Err(MissingSignature), d)
      else (OpenMessage(existing.value, m, m.envelope.sig.value, d.me.signer.Public(), d.conv), d)
    else match Incoming(d, m, existing)
      case Ok((text, key)) => (Ok(text), d.(local := Some(key)))
      case Err(e) => (Err(e), d)
  }

  /** Opens one message for display: its key is looked up, and kept if it came from the backup. */
  function OpenFor(d: Device, m: Message): (Result<string, OpenError>, Device) {
    OpenWith(d.(local := Resolve(d)), m, Resolve(d))
  }

  /** The outcomes of opening a whole log oldest-first. */
  function ReplayAll(d: Device, log: seq<Message>): (outcome: (seq<Result<string, OpenError>>, Device))
    ensures |outcome.0| == |log|
  {
    if log == [] then ([], d)
    else
      var (texts, d1) := ReplayAll(d, log[..|log| - 1]);
      var (text, d2) := OpenFor(d1, log[|log| - 1]);
      (texts + [text], d2)
  }

  /** One message opened: the key resolved first, own messages never decapsulated, a peer's key kept. */
  method OpenIncomingForConversation(d: Device, m: Message) returns (result: Result<string, OpenError>, d': Device)
    ensures (result, d') == OpenFor(d, m)
  {
    var existing := Resolve(d);
    d' := d.(local := existing);
    if m.sender == d.side {
      if existing.None? {
        return Err(MissingOwnKey), d';
      }
      if m.envelope.sig.None? {
        return Err(MissingSignature), d';
      }
      result := OpenMessage(existing.value, m, m.envelope.sig.value, d.me.signer.Public(), d.conv);
      return;
    }
    var answer := OpenIncoming(d', m, existing);
    match answer {
      case Err(e) => result := Err(e);
      case Ok((text, key)) =>
        d' := d'.(local := Some(key));
        result := Ok(text);
    }
  }

  /** Reopening a conversation: every message in order, the key store kept up to date. */
  method DecryptConversationLog(d: Device, log: seq<Message>)
    returns (texts: seq<Result<string, OpenError>>, d': Device)
    ensures (texts, d') == ReplayAll(d, log)
  {
    texts, d' := [], d;
    for i := 0 to |log|
      invariant (texts, d') == ReplayAll(d, log[..i])
    {
      assert log[..i + 1][..i] == log[..i];
      var result;
      result, d' := OpenIncomingForConversation(d', log[i]);
      texts := texts + [result];
    }
    assert log[..|log|] == log;
  }

  /** An own message is opened without the own KEM key: replacing that key changes nothing. */
  lemma OwnMessageNeverDecapsulated(d: Device, m: Message, kem: KemPrivate)
    requires m.sender == d.side
    ensures OpenFor(d.(me := d.me.(kem := kem)), m).0 == OpenFor(d, m).0
  {
  }

  /**
   Why it must not be: decapsulating one's own keying message gives an unrelated key, and
   the message fails to open.
   */
  lemma OwnKeyingMessageWouldFail(d: Device, text: string, coins: nat, nonce: nat)
    requires d.me.kem.Public() != d.peer.kem
    ensures var (m, key) := Outgoing(d, text, None, coins, nonce);
            && m.envelope.kem.Some? && m.envelope.sig.Some?
            && var garbage := EstablishInbound(m.envelope.kem.value, d.me.kem);
               OpenMessage(garbage, m, m.envelope.sig.value, d.me.signer.Public(), d.conv) == Err(BadTag)
  {
  }

  /** Two devices that know each other's published keys. */
  predicate Paired(a: Device, b: Device) {
    && a.conv == b.conv && a.side.Peer() == b.side
    && a.peer == PeerKeys(b.me.keyId, b.me.signer.Public(), b.me.kem.Public())
    && b.peer == PeerKeys(a.me.keyId, a.me.signer.Public(), a.me.kem.Public())
  }

  /** A peer's keying message opens, and brings its key, whatever key the recipient has cached or lost. */
  lemma KeyingMessageAlwaysOpens(a: Device, b: Device, text: string, coins: nat, nonce: nat)
    requires Paired(a, b)
    ensures var (m, key) := Outgoing(a, text, None, coins, nonce);
            OpenFor(b, m) == (Ok(text), b.(local := Some(key)))
  {
  }

  /** A message sealed under the sender's local key opens for itself, and for a peer holding another key it does not. */
  lemma OtherKeyRefuses(a: Device, b: Device, text: string, coins: nat, nonce: nat)
    requires Paired(a, b) && a.local.Some? && b.local.Some? && a.local != b.local
    ensures var m := Outgoing(a, text, a.local, coins, nonce).0;
            OpenFor(a, m).0 == Ok(text) && OpenFor(b, m).0 == Err(BadTag)
  {
  }
}
