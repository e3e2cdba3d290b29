/**
 Ideal cryptography as a term algebra.

 A key-encapsulation ciphertext opens only under the matching private key (any other
 key yields an unrelated secret: the implicit rejection of FIPS 203), an AEAD box opens
 only under the same key, nonce and associated data, and a signature (FIPS 204) verifies
 only under the signer's public key over the same message. Randomness is passed in as
 numbers.
 */
module SymbolicCrypto {
  import opened Wrappers

  datatype KemPublic = KemPublic(seed: nat)
  datatype KemPrivate = KemPrivate(seed: nat) {
    function Public(): KemPublic { KemPublic(seed) }
  }

  datatype KemCiphertext = KemCiphertext(recipient: KemPublic, coins: nat)

  datatype Secret =
    | Shared(recipient: KemPublic, coins: nat)
    | Rejected(decapsulator: KemPrivate, ciphertext: KemCiphertext)

  function Encapsulate(recipient: KemPublic, coins: nat): (KemCiphertext, Secret) {
    (KemCiphertext(recipient, coins), Shared(recipient, coins))
  }

  function Decapsulate(priv: KemPrivate, ct: KemCiphertext): Secret {
    if ct.recipient == priv.Public() then Shared(ct.recipient, ct.coins) else Rejected(priv, ct)
  }

  /** The `info` labels the key-derivation function is called with. */
  datatype Purpose = MessagePurpose | GroupWrapPurpose

  datatype SymKey =
    | RandomKey(draw: nat)
    | DerivedKey(secret: Secret, purpose: Purpose)

  datatype Box<+P> = Box(key: SymKey, nonce: nat, aad: string, plaintext: P)

  function Encrypt<P>(key: SymKey, nonce: nat, plaintext: P, aad: string): Box<P> {
    Box(key, nonce, aad, plaintext)
  }

  function Decrypt<P>(key: SymKey, nonce: nat, box: Box<P>, aad: string): Option<P> {
    if box.key == key && box.nonce == nonce && box.aad == aad then Some(box.plaintext) else None
  }

  datatype SigPublic = SigPublic(seed: nat)
  datatype SigPrivate = SigPrivate(seed: nat) {
    function Public(): SigPublic { SigPublic(seed) }
  }

  /** What a message signature covers: ciphertext, nonce and associated data. */
  datatype Signed<+P> = Signed(ciphertext: Box<P>, nonce: nat, aad: string)
  datatype Signature<+P> = Signature(signer: SigPrivate, content: Signed<P>)

  function Sign<P>(signer: SigPrivate, content: Signed<P>): Signature<P> {
    Signature(signer, content)
  }

  predicate Verify<P(==)>(signer: SigPublic, content: Signed<P>, sig: Signature<P>) {
    sig.signer.Public() == signer && sig.content == content
  }
}
