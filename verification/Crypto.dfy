/**
 The cryptography the protocol is built on, as a record of functions with the laws it
 relies on, and the key schedule and nonces made from it.
 */
module Crypto {
  import opened Basics
  import opened Codec

  const KEY_LEN: nat := 32
  const TAG_LEN: nat := 16
  const SIGNATURE_LEN: nat := 64

  datatype Suite = Suite(
    seal: (seq<u8>, seq<u8>, seq<u8>, seq<u8>) -> seq<u8>,          // key, nonce, associated data, plaintext
    open: (seq<u8>, seq<u8>, seq<u8>, seq<u8>) -> Option<seq<u8>>,  // key, nonce, associated data, ciphertext
    hash: seq<u8> -> seq<u8>,
    expand: (seq<u8>, seq<u8>, string) -> seq<u8>,                  // salt, secret, info
    keystream: (seq<u8>, seq<u8>, nat) -> u8,                       // key, nonce, position
    publicKey: seq<u8> -> seq<u8>,                                  // ephemeral secret
    agree: (seq<u8>, seq<u8>) -> seq<u8>,                           // ephemeral secret, public key
    verifyingKey: seq<u8> -> seq<u8>,                               // identity seed
    sign: (seq<u8>, seq<u8>) -> seq<u8>,                            // identity seed, message
    verify: (seq<u8>, seq<u8>, seq<u8>) -> bool)                    // verifying key, message, signature

  /** The AEAD opens what it sealed (section 2.8 of RFC 8439), and its ciphertext is one tag longer. */
  ghost predicate OpensWhatItSeals(c: Suite) {
    forall key, nonce, aad, plain ::
      |c.seal(key, nonce, aad, plain)| == |plain| + TAG_LEN
        && c.open(key, nonce, aad, c.seal(key, nonce, aad, plain)) == Some(plain)
  }

  /** Both sides of a key agreement reach the same secret. */
  ghost predicate AgreesBothWays(c: Suite) {
    && (forall a, b :: c.agree(a, c.publicKey(b)) == c.agree(b, c.publicKey(a)))
    && (forall a :: |c.publicKey(a)| == KEY_LEN)
  }

  /** A signature verifies under its own signer's key. */
  ghost predicate VerifiesWhatItSigns(c: Suite) {
    && (forall seed, message ::
          && |c.sign(seed, message)| == SIGNATURE_LEN
          && c.verify(c.verifyingKey(seed), message, c.sign(seed, message)))
    && (forall seed :: |c.verifyingKey(seed)| == KEY_LEN)
  }

  ghost predicate Correct(c: Suite) {
    OpensWhatItSeals(c) && AgreesBothWays(c) && VerifiesWhatItSigns(c)
  }

  /** A suite that meets the laws: it hides nothing, but shows that they do not contradict each other. */
  ghost const PLAIN: Suite := Suite(
    (key, nonce, aad, plain) => plain + seq(TAG_LEN, _ => 0),
    (key, nonce, aad, sealed) => if |sealed| < TAG_LEN then None else Some(sealed[..|sealed| - TAG_LEN]),
    message => seq(KEY_LEN, _ => 0),
    (salt, secret, info) => seq(KEY_LEN, _ => 0),
    (key, nonce, position) => 0,
    secret => seq(KEY_LEN, _ => 1),
    (secret, public) => seq(KEY_LEN, _ => 1),
    seed => seq(KEY_LEN, _ => 2),
    (seed, message) => seq(SIGNATURE_LEN, _ => 0),
    (key, message, signature) => true)

  lemma PlainIsCorrect()
    ensures Correct(PLAIN)
  {
    forall key: seq<u8>, nonce: seq<u8>, aad: seq<u8>, plain: seq<u8>
      ensures PLAIN.open(key, nonce, aad, PLAIN.seal(key, nonce, aad, plain)) == Some(plain)
    {
      assert (plain + seq(TAG_LEN, _ => 0 as u8))[..|plain|] == plain;
    }
  }

  // Session keys

  datatype Role = Initiator | Responder

  datatype Keys = Keys(send: seq<u8>, receive: seq<u8>)

  const INFO_C2S: string := "rvpn-v1/session/client-to-server"
  const INFO_S2C: string := "rvpn-v1/session/server-to-client"

  function DeriveKeys(c: Suite, secret: seq<u8>, transcriptHash: seq<u8>, role: Role): Keys {
    var c2s, s2c := c.expand(transcriptHash, secret, INFO_C2S), c.expand(transcriptHash, secret, INFO_S2C);
    match role
    case Initiator => Keys(c2s, s2c)
    case Responder => Keys(s2c, c2s)
  }

  /** What one side sends under, the other receives under. */
  predicate Mirrored(a: Keys, b: Keys) {
    a.send == b.receive && a.receive == b.send
  }

  // Packet nonces

  function Nonce(keyPhase: u32, sequence: u64): (n: seq<u8>)
    ensures |n| == 12
  {
    ToBytes(keyPhase, 4) + ToBytes(sequence, 8)
  }

  lemma NonceInjective(phaseA: u32, sequenceA: u64, phaseB: u32, sequenceB: u64)
    requires Nonce(phaseA, sequenceA) == Nonce(phaseB, sequenceB)
    ensures phaseA == phaseB && sequenceA == sequenceB
  {
    SpanValues();
    assert Nonce(phaseA, sequenceA)[..4] == ToBytes(phaseA, 4)
      && Nonce(phaseA, sequenceA)[4..] == ToBytes(sequenceA, 8);
    assert Nonce(phaseB, sequenceB)[..4] == ToBytes(phaseB, 4)
      && Nonce(phaseB, sequenceB)[4..] == ToBytes(sequenceB, 8);
    FromToBytes(phaseA, 4);
    FromToBytes(phaseB, 4);
    FromToBytes(sequenceA, 8);
    FromToBytes(sequenceB, 8);
  }
}
