/** The handshake messages and the authentication proofs inside them, on the wire. */
module HandshakeMessages {
  import opened Basics
  import opened Net
  import opened Codec

  function Zeros(n: nat): seq<u8> {
    seq<u8>(n, _ => 0)
  }

  type Key = s: seq<u8> | |s| == 32 witness Zeros(32)
  type Random = s: seq<u8> | |s| == 32 witness Zeros(32)
  type Cookie = s: seq<u8> | |s| == 32 witness Zeros(32)
  type Mac1 = s: seq<u8> | |s| == 16 witness Zeros(16)
  type Signature = s: seq<u8> | |s| == 64 witness Zeros(64)
  type CertificateBytes = s: seq<u8> | |s| == 112 witness Zeros(112)
  type SealedProof = s: seq<u8> | |s| == 193 witness Zeros(193)

  const PROOF_BODY_LEN: nat := 177
  const INITIATION_LEN: nat := 114
  const RESPONSE_LEN: nat := 274
  const FINISH_LEN: nat := 194
  const COOKIE_REPLY_LEN: nat := 33

  // Proofs

  datatype AuthProof =
    | PinnedProof(signature: Signature)
    | CertificateProof(certificate: CertificateBytes, signature: Signature)

  function EncodeProof(p: AuthProof): (b: seq<u8>)
    ensures |b| == PROOF_BODY_LEN
  {
    match p
    case PinnedProof(signature) => [0] + signature + Zeros(112)
    case CertificateProof(certificate, signature) => [1] + certificate + signature
  }

  function DecodeProof(b: seq<u8>): Result<AuthProof, ProtocolError>
    requires |b| == PROOF_BODY_LEN
  {
    if b[0] == 0 then Ok(PinnedProof(b[1..65]))
    else if b[0] == 1 then Ok(CertificateProof(b[1..113], b[113..177]))
    else Err(InvalidHandshake)
  }

  lemma ProofRoundTrip(p: AuthProof)
    ensures DecodeProof(EncodeProof(p)) == Ok(p)
  {
    var b := EncodeProof(p);
    if p.PinnedProof? {
      assert b[1..65] == p.signature;
    } else {
      assert b[1..113] == p.certificate && b[113..177] == p.signature;
    }
  }

  /** A decoded proof encodes back to the same bytes if and only if it is a certificate or its unused tail is zero. */
  lemma ProofCanonical(b: seq<u8>)
    requires |b| == PROOF_BODY_LEN && DecodeProof(b).Ok?
    ensures EncodeProof(DecodeProof(b).value) == b <==> b[0] == 1 || b[65..] == Zeros(112)
  {
    if b[0] == 0 {
      assert b == [b[0]] + b[1..65] + b[65..];
      var again := EncodeProof(DecodeProof(b).value);
      assert again[65..] == Zeros(112);
    } else {
      assert b == [b[0]] + b[1..113] + b[113..177];
    }
  }

  // Messages

  datatype Message =
    | Initiation(publicKey: Key, random: Random, cookie: Option<Cookie>, mac1: Mac1)
    | Response(publicKey: Key, random: Random, sessionId: SessionId, sealedProof: SealedProof)
    | Finish(sealedProof: SealedProof)
    | CookieReply(reply: Cookie)

  function ResponsePublic(publicKey: Key, random: Random, sessionId: SessionId): (b: seq<u8>)
    ensures |b| == 81
  {
    [2] + publicKey + random + ToBytes(sessionId, 16)
  }

  function CookieField(cookie: Option<Cookie>): (b: seq<u8>)
    ensures |b| == 33 && b[0] == (if cookie.Some? then 1 else 0) && (cookie.Some? ==> b[1..] == cookie.value)
  {
    if cookie.Some? then [1] + cookie.value else [0] + Zeros(32)
  }

  /** The part of an initiation that its first authenticator covers. */
  function Mac1Input(publicKey: Key, random: Random, cookie: Option<Cookie>): (b: seq<u8>)
    ensures |b| == 98
  {
    [1] + publicKey + random + CookieField(cookie)
  }

  function EncodeMessage(m: Message): seq<u8> {
    match m
    case Initiation(publicKey, random, cookie, mac1) => Mac1Input(publicKey, random, cookie) + mac1
    case Response(publicKey, random, sessionId, sealedProof) =>
      ResponsePublic(publicKey, random, sessionId) + sealedProof
    case Finish(sealedProof) => [3] + sealedProof
    case CookieReply(reply) => [4] + reply
  }

  function DecodeMessage(b: seq<u8>): Result<Message, ProtocolError> {
    if b == [] then Err(InvalidHandshake)
    else if b[0] == 1 && |b| == INITIATION_LEN then
      Ok(Initiation(b[1..33], b[33..65], if b[65] == 1 then Some(b[66..98]) else None, b[98..114]))
    else if b[0] == 2 && |b| == RESPONSE_LEN then
      Ok(Response(b[1..33], b[33..65], SessionIdFrom(b[65..81]), b[81..274]))
    else if b[0] == 3 && |b| == FINISH_LEN then Ok(Finish(b[1..194]))
    else if b[0] == 4 && |b| == COOKIE_REPLY_LEN then Ok(CookieReply(b[1..33]))
    else Err(InvalidHandshake)
  }

  lemma InitiationFields(publicKey: Key, random: Random, field: seq<u8>, mac1: Mac1)
    requires |field| == 33
    ensures var b := [1] + publicKey + random + field + mac1;
            && b[1..33] == publicKey && b[33..65] == random && b[65] == field[0] && b[66..98] == field[1..]
              && b[98..114] == mac1
  {}

  lemma InitiationRoundTrip(m: Message)
    requires m.Initiation?
    ensures DecodeMessage(EncodeMessage(m)) == Ok(m)
  {
    InitiationFields(m.publicKey, m.random, CookieField(m.cookie), m.mac1);
  }

  lemma ResponseRoundTrip(m: Message)
    requires m.Response?
    ensures DecodeMessage(EncodeMessage(m)) == Ok(m)
  {
    var b := EncodeMessage(m);
    assert b[1..33] == m.publicKey && b[33..65] == m.random && b[65..81] == ToBytes(m.sessionId, 16)
      && b[81..274] == m.sealedProof;
    SpanValues();
    FromToBytes(m.sessionId, 16);
  }

  lemma MessageRoundTrip(m: Message)
    ensures DecodeMessage(EncodeMessage(m)) == Ok(m)
  {
    match m
    case Initiation(_, _, _, _) => InitiationRoundTrip(m);
    case Response(_, _, _, _) => ResponseRoundTrip(m);
    case Finish(sealedProof) => assert EncodeMessage(m)[1..194] == sealedProof;
    case CookieReply(reply) => assert EncodeMessage(m)[1..33] == reply;
  }

  /** The cookie field is one that encoding writes: present, or absent and zero. */
  predicate CookieCanonical(b: seq<u8>)
    requires |b| == INITIATION_LEN
  {
    b[65] == 1 || (b[65] == 0 && b[66..98] == Zeros(32))
  }

  lemma InitiationCanonical(b: seq<u8>)
    requires |b| == INITIATION_LEN && b[0] == 1
    ensures EncodeMessage(DecodeMessage(b).value) == b <==> CookieCanonical(b)
  {
    var again := EncodeMessage(DecodeMessage(b).value);
    assert b == [b[0]] + b[1..33] + b[33..65] + ([b[65]] + b[66..98]) + b[98..114];
    assert again[65] == (if b[65] == 1 then 1 else 0);
    assert again[66..98] == if b[65] == 1 then b[66..98] else Zeros(32);
  }

  lemma ResponseCanonical(b: seq<u8>)
    requires |b| > 0 && b[0] == 2 && DecodeMessage(b).Ok?
    ensures EncodeMessage(DecodeMessage(b).value) == b
  {
    ToFromBytes(b[65..81]);
    assert b == [b[0]] + b[1..33] + b[33..65] + b[65..81] + b[81..274];
  }

  /**
   A decoded message encodes back to the same bytes if and only if it is not an
   initiation with a cookie field that encoding never writes.
   */
  lemma MessageCanonical(b: seq<u8>)
    requires DecodeMessage(b).Ok?
    ensures EncodeMessage(DecodeMessage(b).value) == b <==> (b[0] == 1 ==> CookieCanonical(b))
  {
    if b[0] == 1 {
      InitiationCanonical(b);
    } else if b[0] == 2 {
      ResponseCanonical(b);
    } else {
      assert b == [b[0]] + b[1..];
    }
  }
}
