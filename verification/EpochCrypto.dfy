/**
 * Symbolic cryptography for the forward-secrecy epochs. Every primitive is a
 * free constructor, so two results are equal only when they were computed
 * from the same inputs; X25519 alone has an equation, symmetry.
 */
module EpochCrypto {
  import opened Common
  import EpochWire

  type PrivateKey = nat

  datatype PublicKey = Pub(owner: PrivateKey)

  /** The X25519 shared secret: an unordered pair of private keys. */
  datatype SharedSecret = Shared(low: PrivateKey, high: PrivateKey)

  datatype Direction = I2R | R2I

  /** HKDF output, named by its input keying material and its info string. */
  datatype Derived = Derived(secret: SharedSecret, epochId: nat, dir: Direction)

  /** One byte of a key buffer: a byte of some derived key, or an erased byte. */
  datatype Octet = Zero | KeyOctet(key: Derived, index: nat)

  type Key = seq<Octet>

  type Nonce = seq<Byte>

  type Plaintext = seq<Byte>

  datatype ChainHash = NoChain | HmacOf(key: Key)

  /** XChaCha20-Poly1305: opens only under the same key, nonce and associated data. */
  datatype Ciphertext = Sealed(key: Key, nonce: Nonce, plaintext: Plaintext, aad: nat)

  const KEY_LEN := 32

  function Exchange(sk: PrivateKey, pk: PublicKey): SharedSecret {
    if sk <= pk.owner then Shared(sk, pk.owner) else Shared(pk.owner, sk)
  }

  function KeyMaterial(k: Derived): (b: Key)
    ensures |b| == KEY_LEN
  {
    seq(KEY_LEN, i requires 0 <= i < KEY_LEN => KeyOctet(k, i))
  }

  lemma KeyMaterialInjective(a: Derived, b: Derived)
    ensures KeyMaterial(a) == KeyMaterial(b) <==> a == b
  {
    assert KeyMaterial(a)[0] == KeyOctet(a, 0) && KeyMaterial(b)[0] == KeyOctet(b, 0);
  }

  function I2RKey(local: PrivateKey, remote: PublicKey, epochId: nat): Key {
    KeyMaterial(Derived(Exchange(local, remote), epochId, I2R))
  }

  function R2IKey(local: PrivateKey, remote: PublicKey, epochId: nat): Key {
    KeyMaterial(Derived(Exchange(local, remote), epochId, R2I))
  }

  function BuildNonce(prefix: seq<Byte>, counter: nat): Nonce {
    prefix + EpochWire.Pack(counter, 8)
  }

  function Open(key: Key, nonce: Nonce, c: Ciphertext, aad: nat): Option<Plaintext> {
    if c.key == key && c.nonce == nonce && c.aad == aad then Some(c.plaintext) else None
  }
}
