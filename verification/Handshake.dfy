/**
 The authenticated handshake between an initiator and a responder, first contact or
 rekey. Ephemeral secrets, random bytes and the wall clock are parameters.
 */
module Handshake {
  import opened Basics
  import opened Net
  import opened Codec
  import opened Crypto
  import opened HandshakeMessages
  import Session

  datatype HandshakeError =
    | NonContributory | Protocol(error: ProtocolError) | UnexpectedMessage | WrongSession | Unauthenticated

  // Certificates

  datatype Certificate = Certificate(subject: Key, notBefore: u64, notAfter: u64, issuerSignature: Signature)

  function SignedFields(subject: Key, notBefore: u64, notAfter: u64): (b: seq<u8>)
    ensures |b| == 48
  {
    subject + ToBytes(notBefore, 8) + ToBytes(notAfter, 8)
  }

  function EncodeCertificate(cert: Certificate): CertificateBytes {
    SignedFields(cert.subject, cert.notBefore, cert.notAfter) + cert.issuerSignature
  }

  function DecodeCertificate(b: CertificateBytes): Certificate {
    Certificate(b[..32], U64From(b[32..40]), U64From(b[40..48]), b[48..])
  }

  lemma CertificateRoundTrip(cert: Certificate)
    ensures DecodeCertificate(EncodeCertificate(cert)) == cert
  {
    var b := EncodeCertificate(cert);
    assert b[..32] == cert.subject && b[32..40] == ToBytes(cert.notBefore, 8) && b[40..48] == ToBytes(cert.notAfter, 8);
    assert b[48..] == cert.issuerSignature;
    SpanValues();
    FromToBytes(cert.notBefore, 8);
    FromToBytes(cert.notAfter, 8);
  }

  predicate CertificateVerifies(c: Suite, cert: Certificate, ca: Key, clock: u64) {
    && cert.notBefore <= clock <= cert.notAfter
    && c.verify(ca, SignedFields(cert.subject, cert.notBefore, cert.notAfter), cert.issuerSignature)
  }

  // Proofs of identity

  datatype Identity = PinnedIdentity(seed: seq<u8>) | CertifiedIdentity(seed: seq<u8>, certificate: Certificate)

  datatype Verifier = PinnedVerifier(expected: Key) | CertificateVerifier(ca: Key)

  function ProduceProof(c: Suite, id: Identity, data: seq<u8>): AuthProof
    requires Correct(c)
  {
    match id
    case PinnedIdentity(seed) => PinnedProof(c.sign(seed, data))
    case CertifiedIdentity(seed, certificate) => CertificateProof(EncodeCertificate(certificate), c.sign(seed, data))
  }

  /** The verified key of the peer: the pinned one, or the subject of its certificate. */
  function VerifyProof(c: Suite, v: Verifier, data: seq<u8>, proof: AuthProof, clock: u64): Result<Key, HandshakeError>
  {
    match (v, proof)
    case (PinnedVerifier(expected), PinnedProof(signature)) =>
      if c.verify(expected, data, signature) then Ok(expected) else Err(Unauthenticated)
    case (CertificateVerifier(ca), CertificateProof(certificate, signature)) =>
      var cert := DecodeCertificate(certificate);
      if CertificateVerifies(c, cert, ca, clock) && c.verify(cert.subject, data, signature) then Ok(cert.subject)
      else Err(Unauthenticated)
    case _ => Err(Unauthenticated)
  }

  function IdentityKey(c: Suite, id: Identity): Key
    requires Correct(c)
  {
    c.verifyingKey(id.seed)
  }

  /** The verifier was set up for this identity: its pinned key, or a certificate for its key, good at `clock`. */
  predicate Trusts(c: Suite, v: Verifier, id: Identity, clock: u64)
    requires Correct(c)
  {
    match (v, id)
    case (PinnedVerifier(expected), PinnedIdentity(_)) => expected == IdentityKey(c, id)
    case (CertificateVerifier(ca), CertifiedIdentity(_, certificate)) =>
      certificate.subject == IdentityKey(c, id) && CertificateVerifies(c, certificate, ca, clock)
    case _ => false
  }

  lemma HonestProofVerifies(c: Suite, v: Verifier, id: Identity, data: seq<u8>, clock: u64)
    requires Correct(c) && Trusts(c, v, id, clock)
    ensures VerifyProof(c, v, data, ProduceProof(c, id, data), clock) == Ok(IdentityKey(c, id))
  {
    if id.CertifiedIdentity? {
      CertificateRoundTrip(id.certificate);
    }
  }

  // Transcript and keys

  function Ascii(s: string): seq<u8> {
    seq<u8>(|s|, i requires 0 <= i < |s| => s[i] as int % 256)
  }

  function ServerInput(initiation: Message, publicKey: Key, random: Random, sessionId: SessionId): seq<u8> {
    Ascii("rvpn-v3.1/handshake/server") + EncodeMessage(initiation) + ResponsePublic(publicKey, random, sessionId)
  }

  function ClientInput(initiation: Message, response: Message): seq<u8> {
    Ascii("rvpn-v3.1/handshake/client") + EncodeMessage(initiation) + EncodeMessage(response)
  }

  function FinalBytes(initiation: Message, response: Message, finish: Message): seq<u8> {
    Ascii("rvpn-v3.1/handshake/transcript") + EncodeMessage(initiation) + EncodeMessage(response)
      + EncodeMessage(finish)
  }

  datatype ProofKeys = ProofKeys(r2i: seq<u8>, i2r: seq<u8>)

  function DeriveProofKeys(c: Suite, secret: seq<u8>, initiation: Message, publicKey: Key, random: Random,
                           sessionId: SessionId): ProofKeys
  {
    var salt := c.hash(EncodeMessage(initiation) + ResponsePublic(publicKey, random, sessionId));
    ProofKeys(c.expand(salt, secret, "rvpn-v3/handshake/proof/r2i"),
              c.expand(salt, secret, "rvpn-v3/handshake/proof/i2r"))
  }

  function Agree(c: Suite, secret: seq<u8>, publicKey: seq<u8>): Result<seq<u8>, HandshakeError> {
    var shared := c.agree(secret, publicKey);
    if forall i | 0 <= i < |shared| :: shared[i] == 0 then Err(NonContributory) else Ok(shared)
  }

  function SealProof(c: Suite, key: seq<u8>, aad: seq<u8>, proof: AuthProof): SealedProof
    requires Correct(c)
  {
    c.seal(key, Zeros(12), aad, EncodeProof(proof))
  }

  function OpenProof(c: Suite, key: seq<u8>, aad: seq<u8>, sealedProof: SealedProof): Result<AuthProof, HandshakeError>
  {
    var body := c.open(key, Zeros(12), aad, sealedProof);
    if body.None? || |body.value| != PROOF_BODY_LEN then Err(Unauthenticated)
    else
      var proof := DecodeProof(body.value);
      if proof.Err? then Err(Protocol(proof.error)) else Ok(proof.value)
  }

  lemma OpensSealedProof(c: Suite, key: seq<u8>, aad: seq<u8>, proof: AuthProof)
    requires Correct(c)
    ensures OpenProof(c, key, aad, SealProof(c, key, aad, proof)) == Ok(proof)
  {
    ProofRoundTrip(proof);
  }

  // The initiator

  datatype InitiatorState = InitiatorState(identity: Identity, verifier: Verifier, secret: seq<u8>, initiation: Message)

  function Start(c: Suite, identity: Identity, verifier: Verifier, secret: seq<u8>, random: Random, mac1: Mac1)
    : InitiatorState
    requires Correct(c)
  {
    InitiatorState(identity, verifier, secret, Initiation(c.publicKey(secret), random, None, mac1))
  }

  /** Answers a cookie challenge: the same initiation with the cookie and a new authenticator. */
  function AttachCookie(i: InitiatorState, cookie: Cookie, mac1: Mac1): InitiatorState {
    match i.initiation
    case Initiation(publicKey, random, _, _) => i.(initiation := Initiation(publicKey, random, Some(cookie), mac1))
    case _ => i
  }

  /** The initiation carries the public half of the initiator's secret. */
  predicate Started(c: Suite, i: InitiatorState) {
    i.initiation.Initiation? && i.initiation.publicKey == c.publicKey(i.secret)
  }

  /** Asks whether a response is genuine, before committing to it. */
  function AuthenticatesResponse(c: Suite, i: InitiatorState, response: Message, clock: u64)
    : Result<bool, HandshakeError>
  {
    match response
    case Response(publicKey, random, sessionId, sealedProof) =>
      var secret := Agree(c, i.secret, publicKey);
      if secret.Err? then Ok(false)
      else
        var keys := DeriveProofKeys(c, secret.value, i.initiation, publicKey, random, sessionId);
        var body := c.open(keys.r2i, Zeros(12), EncodeMessage(i.initiation), sealedProof);
        if body.None? then Ok(false)
        else if |body.value| != PROOF_BODY_LEN then Ok(false)
        else
          var proof := DecodeProof(body.value);
          if proof.Err? then Ok(false)
          else if !i.initiation.Initiation? then Err(Protocol(InvalidHandshake))
          else
            var data := ServerInput(i.initiation, publicKey, random, sessionId);
            Ok(VerifyProof(c, i.verifier, data, proof.value, clock).Ok?)
    case _ => Err(UnexpectedMessage)
  }

  /** Checks the response once more and, if it is genuine, completes the initiator's side. */
  function FinishForSession(c: Suite, i: InitiatorState, response: Message, expected: SessionId, keyPhase: u32,
                            clock: u64, now: nat): Result<(Message, Session.State, Key), HandshakeError>
    requires Correct(c)
  {
    if !response.Response? then Err(UnexpectedMessage)
    else if response.sessionId != expected then Err(WrongSession)
    else
      var secret := Agree(c, i.secret, response.publicKey);
      if secret.Err? then Err(secret.error)
      else
        var proofKeys := DeriveProofKeys(c, secret.value, i.initiation, response.publicKey, response.random,
                                         response.sessionId);
        var proof := OpenProof(c, proofKeys.r2i, EncodeMessage(i.initiation), response.sealedProof);
        if proof.Err? then Err(proof.error)
        else if !i.initiation.Initiation? then Err(Protocol(InvalidHandshake))
        else
          var input := ServerInput(i.initiation, response.publicKey, response.random, response.sessionId);
          var peer := VerifyProof(c, i.verifier, input, proof.value, clock);
          if peer.Err? then Err(peer.error)
          else
            var finish := FinishMessage(c, i, response, proofKeys);
            var hash := c.hash(FinalBytes(i.initiation, response, finish));
            var keys := DeriveKeys(c, secret.value, hash, Initiator);
            Ok((finish, Session.New(response.sessionId, keyPhase, keys, now), peer.value))
  }

  /** The initiator's own proof, sealed for the responder. */
  function FinishMessage(c: Suite, i: InitiatorState, response: Message, proofKeys: ProofKeys): Message
    requires Correct(c)
  {
    var proof := ProduceProof(c, i.identity, ClientInput(i.initiation, response));
    Finish(SealProof(c, proofKeys.i2r, EncodeMessage(i.initiation) + EncodeMessage(response), proof))
  }

  // The responder

  datatype ResponderState = ResponderState(
    verifier: Verifier,
    secret: seq<u8>,
    proofKeys: ProofKeys,
    initiation: Message,
    response: Message,
    sessionId: SessionId,
    keyPhase: u32)

  function Accept(c: Suite, identity: Identity, verifier: Verifier, initiation: Message, ephemeral: seq<u8>,
                  random: Random,
                  sessionId: SessionId, keyPhase: u32): Result<ResponderState, HandshakeError>
    requires Correct(c)
  {
    if !initiation.Initiation? then Err(UnexpectedMessage)
    else
      var secret := Agree(c, ephemeral, initiation.publicKey);
      if secret.Err? then Err(secret.error)
      else
        var publicKey := c.publicKey(ephemeral);
        var proofKeys := DeriveProofKeys(c, secret.value, initiation, publicKey, random, sessionId);
        var proof := ProduceProof(c, identity, ServerInput(initiation, publicKey, random, sessionId));
        var response := Response(publicKey, random, sessionId,
                                 SealProof(c, proofKeys.r2i, EncodeMessage(initiation), proof));
        Ok(ResponderState(verifier, secret.value, proofKeys, initiation, response, sessionId, keyPhase))
  }

  function FinishResponder(c: Suite, r: ResponderState, finish: Message, clock: u64, now: nat)
    : Result<(Session.State, Key), HandshakeError>
  {
    if !finish.Finish? then Err(UnexpectedMessage)
    else
      var proof := OpenProof(c, r.proofKeys.i2r, EncodeMessage(r.initiation) + EncodeMessage(r.response),
                             finish.sealedProof);
      if proof.Err? then Err(proof.error)
      else
        var peer := VerifyProof(c, r.verifier, ClientInput(r.initiation, r.response), proof.value, clock);
        if peer.Err? then Err(peer.error)
        else
          var keys := DeriveKeys(c, r.secret, c.hash(FinalBytes(r.initiation, r.response, finish)), Responder);
          Ok((Session.New(r.sessionId, r.keyPhase, keys, now), peer.value))
  }

  // Agreement

  /** A response is authenticated if and only if finishing for its own session succeeds at the same clock reading. */
  lemma AuthenticatedFinishes(c: Suite, i: InitiatorState, response: Message, keyPhase: u32, clock: u64, now: nat)
    requires Correct(c) && response.Response?
    ensures AuthenticatesResponse(c, i, response, clock) == Ok(true)
            <==> FinishForSession(c, i, response, response.sessionId, keyPhase, clock, now).Ok?
    ensures Started(c, i) ==> AuthenticatesResponse(c, i, response, clock).Ok?
  {}

  /** The response `r` gives, as the initiator sees it: same secret, same proof keys, a proof of who sent it. */
  predicate Answers(c: Suite, i: InitiatorState, r: ResponderState, peer: Key, clock: u64) {
    && r.initiation == i.initiation && r.response.Response? && r.response.sessionId == r.sessionId
    && Agree(c, i.secret, r.response.publicKey) == Ok(r.secret)
    && r.proofKeys == DeriveProofKeys(c, r.secret, i.initiation, r.response.publicKey, r.response.random, r.sessionId)
    && (var proof := OpenProof(c, r.proofKeys.r2i, EncodeMessage(i.initiation), r.response.sealedProof);
        && proof.Ok?
        && VerifyProof(c, i.verifier, ServerInput(i.initiation, r.response.publicKey, r.response.random, r.sessionId),
                       proof.value, clock) == Ok(peer))
  }

  lemma HonestAccept(c: Suite, i: InitiatorState, id: Identity, verifier: Verifier, ephemeral: seq<u8>, random: Random,
                     sessionId: SessionId, keyPhase: u32, clock: u64)
    requires Correct(c) && Started(c, i)
    requires Trusts(c, i.verifier, id, clock) && Agree(c, ephemeral, i.initiation.publicKey).Ok?
    ensures var r := Accept(c, id, verifier, i.initiation, ephemeral, random, sessionId, keyPhase);
            r.Ok? && Answers(c, i, r.value, IdentityKey(c, id), clock)
  {
    var r := Accept(c, id, verifier, i.initiation, ephemeral, random, sessionId, keyPhase).value;
    var data := ServerInput(i.initiation, r.response.publicKey, random, sessionId);
    OpensSealedProof(c, r.proofKeys.r2i, EncodeMessage(i.initiation), ProduceProof(c, id, data));
    HonestProofVerifies(c, i.verifier, id, data, clock);
  }

  lemma HonestFinish(c: Suite, i: InitiatorState, r: ResponderState, peer: Key, mine: Clocks, theirs: Clocks)
    requires Correct(c) && i.initiation.Initiation? && Answers(c, i, r, peer, mine.wall)
    requires Trusts(c, r.verifier, i.identity, theirs.wall)
    ensures var f := FinishForSession(c, i, r.response, r.sessionId, r.keyPhase, mine.wall, mine.now);
            && f.Ok? && f.value.2 == peer
            && var d := FinishResponder(c, r, f.value.0, theirs.wall, theirs.now);
            && d.Ok? && d.value.1 == IdentityKey(c, i.identity)
            && Ends(f.value.1, d.value.0, r.sessionId, r.keyPhase, mine.now, theirs.now)
  {
    var data := ClientInput(i.initiation, r.response);
    OpensSealedProof(c, r.proofKeys.i2r, EncodeMessage(i.initiation) + EncodeMessage(r.response),
                     ProduceProof(c, i.identity, data));
    HonestProofVerifies(c, r.verifier, i.identity, data, theirs.wall);
  }

  /** One machine's clocks when it finishes: seconds of the day for certificates, monotonic for the session. */
  datatype Clocks = Clocks(wall: u64, now: nat)

  /** Two ends of one session: same id, same phase, mirrored keys. */
  predicate Paired(a: Session.State, b: Session.State) {
    a.sessionId == b.sessionId && a.keyPhase == b.keyPhase && Mirrored(a.keys, b.keys)
  }

  /** The two ends as they are when new. */
  predicate Ends(a: Session.State, b: Session.State, sessionId: SessionId, keyPhase: u32, startA: nat, startB: nat) {
    && Paired(a, b)
    && a == Session.New(sessionId, keyPhase, a.keys, startA) && b == Session.New(sessionId, keyPhase, b.keys, startB)
  }

  /** What arrives when a message is encoded, sent and decoded. */
  function Carried(m: Message): Message {
    var d := DecodeMessage(EncodeMessage(m));
    if d.Ok? then d.value else m
  }

  /** One honest exchange of the three messages over the wire, as the two ends compute it. */
  function Exchange(c: Suite, i: InitiatorState, id: Identity, verifier: Verifier, ephemeral: seq<u8>, random: Random,
                    sessionId: SessionId, keyPhase: u32, mine: Clocks, theirs: Clocks)
    : Result<((Session.State, Key), (Session.State, Key)), HandshakeError>
    requires Correct(c)
  {
    var r := Accept(c, id, verifier, Carried(i.initiation), ephemeral, random, sessionId, keyPhase);
    if r.Err? then Err(r.error)
    else
      var f := FinishForSession(c, i, Carried(r.value.response), sessionId, keyPhase, mine.wall, mine.now);
      if f.Err? then Err(f.error)
      else
        var d := FinishResponder(c, r.value, Carried(f.value.0), theirs.wall, theirs.now);
        if d.Err? then Err(d.error) else Ok(((f.value.1, f.value.2), d.value))
  }

  /**
   Agreement: between two ends set up for each other, each by its own clock, initial or
   rekey, with or without a cookie, the exchange succeeds unless the key agreement is
   degenerate, and ends with both knowing who the other is and holding the two new ends of
   the same session.
   */
  lemma Agreement(c: Suite, i: InitiatorState, id: Identity, verifier: Verifier, ephemeral: seq<u8>, random: Random,
                  sessionId: SessionId, keyPhase: u32, mine: Clocks, theirs: Clocks)
    requires Correct(c) && Started(c, i)
    requires Trusts(c, i.verifier, id, mine.wall) && Trusts(c, verifier, i.identity, theirs.wall)
    ensures var x := Exchange(c, i, id, verifier, ephemeral, random, sessionId, keyPhase, mine, theirs);
            && (x.Ok? <==> Agree(c, ephemeral, i.initiation.publicKey).Ok?)
            && (x.Ok? ==>
                  var ((si, responder), (sr, initiator)) := x.value;
                  && responder == IdentityKey(c, id) && initiator == IdentityKey(c, i.identity)
                  && Ends(si, sr, sessionId, keyPhase, mine.now, theirs.now))
  {
    MessageRoundTrip(i.initiation);
    if Agree(c, ephemeral, i.initiation.publicKey).Ok? {
      HonestAccept(c, i, id, verifier, ephemeral, random, sessionId, keyPhase, mine.wall);
      var r := Accept(c, id, verifier, i.initiation, ephemeral, random, sessionId, keyPhase).value;
      MessageRoundTrip(r.response);
      HonestFinish(c, i, r, IdentityKey(c, id), mine, theirs);
      MessageRoundTrip(FinishForSession(c, i, r.response, sessionId, keyPhase, mine.wall, mine.now).value.0);
    }
  }
}
