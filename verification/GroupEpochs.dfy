/**
 Group epoch keys: creating one and wrapping it for every recipient, recovering it from a
 distribution, and sealing and opening group content under it.
 */
module GroupEpochs {
  import opened Wrappers
  import opened SymbolicCrypto
  import AssociatedData

  // ---- Wrapping an epoch key for one recipient ------------------------------

  datatype EpochKeyWrap = EpochKeyWrap(kem: KemCiphertext, wrappedKey: Box<SymKey>, nonce: nat)

  function WrapEpochKey(epochKey: SymKey, recipient: KemPublic, coins: nat): EpochKeyWrap {
    var (kem, secret) := Encapsulate(recipient, coins);
    EpochKeyWrap(kem, Encrypt(DerivedKey(secret, GroupWrapPurpose), coins, epochKey, ""), coins)
  }

  function UnwrapEpochKey(wrap: EpochKeyWrap, mine: KemPrivate): Option<SymKey> {
    Decrypt(DerivedKey(Decapsulate(mine, wrap.kem), GroupWrapPurpose), wrap.nonce, wrap.wrappedKey, "")
  }

  /** A wrap opens to the key inside it, under the recipient's private key and no other. */
  lemma UnwrapOpensOnlyForRecipient(epochKey: SymKey, recipient: KemPublic, coins: nat, mine: KemPrivate)
    ensures UnwrapEpochKey(WrapEpochKey(epochKey, recipient, coins), mine) ==
            if mine.Public() == recipient then Some(epochKey) else None
  {
  }

  // ---- Distributions ----------------------------------------------------------

  /** The published identity key an epoch key is wrapped for. */
  datatype Recipient = Recipient(identityKeyId: string, kemPublicKey: KemPublic)

  datatype Distribution = Distribution(epoch: int, keyWraps: map<string, EpochKeyWrap>)

  function RecipientIds(recipients: seq<Recipient>): set<string> {
    set r | r in recipients :: r.identityKeyId
  }

  /** The KEM key that ends up addressed under `id`: a later entry overwrites an earlier one. */
  function AddressedKey(recipients: seq<Recipient>, id: string): Option<KemPublic> {
    if recipients == [] then None
    else if recipients[|recipients| - 1].identityKeyId == id then Some(recipients[|recipients| - 1].kemPublicKey)
    else AddressedKey(recipients[..|recipients| - 1], id)
  }

  lemma {:induction false} AddressedKeyPresent(recipients: seq<Recipient>, id: string)
    ensures AddressedKey(recipients, id).Some? <==> id in RecipientIds(recipients)
    ensures AddressedKey(recipients, id).Some? ==>
              Recipient(id, AddressedKey(recipients, id).value) in recipients
  {
    if recipients != [] {
      var init, last := recipients[..|recipients| - 1], recipients[|recipients| - 1];
      AddressedKeyPresent(init, id);
      assert RecipientIds(recipients) == RecipientIds(init) + {last.identityKeyId};
    }
  }

  /** What is true of the wraps built for `recipients`: who is addressed, and who can open what. */
  ghost predicate WrapsKeyFor(keyWraps: map<string, EpochKeyWrap>, key: SymKey, recipients: seq<Recipient>) {
    && keyWraps.Keys == RecipientIds(recipients)
    && forall id, mine: KemPrivate :: id in keyWraps ==>
         UnwrapEpochKey(keyWraps[id], mine) ==
         if AddressedKey(recipients, id) == Some(mine.Public()) then Some(key) else None
  }

  /**
   Generates the next epoch's key and wraps it for each recipient in turn. `draw` is the
   key's randomness, `coins(i)` the randomness of the i-th wrap.
   */
  method CreateAndWrapNewEpoch(previousEpoch: int, recipients: seq<Recipient>, draw: nat, coins: nat -> nat)
    returns (epoch: int, key: SymKey, keyWraps: map<string, EpochKeyWrap>)
    ensures epoch == previousEpoch + 1
    ensures key == RandomKey(draw)
    ensures WrapsKeyFor(keyWraps, key, recipients)
  {
    key := RandomKey(draw);
    epoch := previousEpoch + 1;
    keyWraps := map[];
    for i := 0 to |recipients|
      invariant WrapsKeyFor(keyWraps, key, recipients[..i])
    {
      var wrap := WrapEpochKey(key, recipients[i].kemPublicKey, coins(i));
      keyWraps := keyWraps[recipients[i].identityKeyId := wrap];
      assert recipients[..i + 1][..i] == recipients[..i];
      assert RecipientIds(recipients[..i + 1]) == RecipientIds(recipients[..i]) + {recipients[i].identityKeyId};
    }
    assert recipients[..|recipients|] == recipients;
  }

  /** Recovers the epoch key addressed to this identity, or nothing if there is no wrap it can open. */
  function AcceptKeyDistribution(dist: Distribution, myIdentityKeyId: string, mine: KemPrivate): Option<SymKey> {
    if myIdentityKeyId in dist.keyWraps then UnwrapEpochKey(dist.keyWraps[myIdentityKeyId], mine) else None
  }

  /** A distribution hands its key to exactly the identities it was built for. */
  lemma AcceptExactlyWhenAddressed(dist: Distribution, key: SymKey, recipients: seq<Recipient>, id: string,
                                   mine: KemPrivate)
    requires WrapsKeyFor(dist.keyWraps, key, recipients)
    ensures AcceptKeyDistribution(dist, id, mine) ==
            if AddressedKey(recipients, id) == Some(mine.Public()) then Some(key) else None
  {
    AddressedKeyPresent(recipients, id);
  }

  // ---- Group content ---------------------------------------------------------

  datatype SealedGroupMessage = SealedGroupMessage(ciphertext: Box<string>, nonce: nat, signature: Signature<string>)

  function GroupAad(conversationId: string, senderKeyId: string, epoch: int): string {
    AssociatedData.Encode(AssociatedData.GroupContext(conversationId, senderKeyId, epoch))
  }

  function SealGroupMessage(epochKey: SymKey, plaintext: string, signer: SigPrivate, conversationId: string,
                            senderKeyId: string, epoch: int, nonce: nat): SealedGroupMessage {
    var aad := GroupAad(conversationId, senderKeyId, epoch);
    var ciphertext := Encrypt(epochKey, nonce, plaintext, aad);
    SealedGroupMessage(ciphertext, nonce, Sign(signer, Signed(ciphertext, nonce, aad)))
  }

  datatype OpenError = NotAuthentic | BadTag

  function OpenGroupMessage(epochKey: SymKey, msg: SealedGroupMessage, signer: SigPublic, conversationId: string,
                            senderKeyId: string, epoch: int): Result<string, OpenError> {
    var aad := GroupAad(conversationId, senderKeyId, epoch);
    if !Verify(signer, Signed(msg.ciphertext, msg.nonce, aad), msg.signature) then Err(NotAuthentic)
    else match Decrypt(epochKey, msg.nonce, msg.ciphertext, aad)
      case Some(plaintext) => Ok(plaintext)
      case None => Err(BadTag)
  }

  /**
   A sealed group message opens, to its own plaintext, exactly under the epoch key that
   sealed it, its author's signing key, and the conversation, sender key and epoch it was
   sealed for: in particular it cannot be passed off as a message of another epoch.
   */
  lemma GroupMessageOpensOnlyInPlace(key: SymKey, plaintext: string, signer: SigPrivate, conv: string,
                                     senderKeyId: string, epoch: int, nonce: nat, key': SymKey, verifier: SigPublic,
                                     conv': string, senderKeyId': string, epoch': int)
    requires AssociatedData.IsUuid(conv) && AssociatedData.IsUuid(conv')
    requires AssociatedData.IsUuid(senderKeyId) && AssociatedData.IsUuid(senderKeyId')
    ensures var sealed := SealGroupMessage(key, plaintext, signer, conv, senderKeyId, epoch, nonce);
            var outcome := OpenGroupMessage(key', sealed,
                                           verifier, conv', senderKeyId', epoch');
            if && key' == key && verifier == signer.Public()
               && conv' == conv && senderKeyId' == senderKeyId && epoch' == epoch
            then outcome == Ok(plaintext) else outcome.Err?
  {
    if GroupAad(conv, senderKeyId, epoch) == GroupAad(conv', senderKeyId', epoch') {
      AssociatedData.EncodeInjective(AssociatedData.GroupContext(conv, senderKeyId, epoch),
                                     AssociatedData.GroupContext(conv', senderKeyId', epoch'));
    }
  }
}
