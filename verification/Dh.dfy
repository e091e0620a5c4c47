/** Diffie-Hellman key derivation (components/crypto/src/dh.rs), in symbolic form.

    A public key reveals which exponent it came from to the model, but the shared secret only depends
    on the unordered pair of exponents, as g^(xy) does, and the derived key is a free function of the
    shared secret and the salt. */
module Dh {

  datatype DhPublicKey = DhPublicKey(exponent: nat)

  /** g^(xy): the two exponents, smaller first. */
  datatype SharedSecret = SharedSecret(low: nat, high: nat)

  datatype SymmetricKey = SymmetricKey(secret: SharedSecret, salt: nat)

  /** What one side contributes to a key exchange. */
  datatype DhMaterial = DhMaterial(exponent: nat, salt: nat)

  function ComputePublicKey(exponent: nat): DhPublicKey {
    DhPublicKey(exponent)
  }

  function DiffieHellman(exponent: nat, remote: DhPublicKey): SharedSecret {
    if exponent <= remote.exponent then SharedSecret(exponent, remote.exponent)
    else SharedSecret(remote.exponent, exponent)
  }

  /** The pair (send key, receive key). */
  function DeriveSymmetricKey(exponent: nat, remote: DhPublicKey, sendSalt: nat, recvSalt: nat)
    : (SymmetricKey, SymmetricKey)
  {
    var secret := DiffieHellman(exponent, remote);
    (SymmetricKey(secret, sendSalt), SymmetricKey(secret, recvSalt))
  }

  /** The key of the stream from the owner of `from` to the owner of `to`. */
  function StreamKey(from: DhMaterial, to: DhMaterial): SymmetricKey {
    DeriveSymmetricKey(from.exponent, ComputePublicKey(to.exponent), from.salt, to.salt).0
  }

  /** Both sides derive the same two keys, each side's send key being the other's receive key; and
      a stream key determines the unordered pair of exponents it came from. */
  lemma KeysAgree(x: DhMaterial, y: DhMaterial)
    ensures DeriveSymmetricKey(x.exponent, ComputePublicKey(y.exponent), x.salt, y.salt)
         == (StreamKey(x, y), StreamKey(y, x))
    ensures DeriveSymmetricKey(y.exponent, ComputePublicKey(x.exponent), y.salt, x.salt)
         == (StreamKey(y, x), StreamKey(x, y))
    ensures forall x', y' :: StreamKey(x, y) == StreamKey(x', y')
              ==> x.salt == x'.salt && {x.exponent, y.exponent} == {x'.exponent, y'.exponent}
  {
    forall x', y' | StreamKey(x, y) == StreamKey(x', y')
      ensures {x.exponent, y.exponent} == {x'.exponent, y'.exponent}
    {
      var k := StreamKey(x, y);
      assert {x.exponent, y.exponent} == {k.secret.low, k.secret.high} == {x'.exponent, y'.exponent};
    }
  }
}
