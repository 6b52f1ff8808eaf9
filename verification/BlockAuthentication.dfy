/** Signed block envelopes and producer attribution (src/block_authentication.rs). */
module BlockAuthentication {
  import opened Base
  import opened Crypto
  import opened BigEndian
  import opened Slices
  import opened NativeTransaction
  import opened BlockCommitment
  import opened NativeBlock

  const OUTER_WIRE_VERSION: byte := 3
  const AUTH_ENCODING_VERSION: byte := 1
  const AUTH_RULES_VERSION: u32 := 1
  const ENVELOPE_OVERHEAD: nat := 107
  const MAX_ENVELOPE_BYTES: nat := MAX_WIRE_BYTES + ENVELOPE_OVERHEAD

  type PublicKey = k: Bytes | |k| == 33 witness seq(33, _ => 0)

  datatype EnvelopeFrame = OuterSize | OuterTruncation | InnerLength | ExactLength | Noncanonical

  datatype AuthError =
    | OuterFrame(reason: EnvelopeFrame)
    | UnsupportedWire(wire: byte)
    | UnsupportedAuthEncoding(encoding: byte)
    | UnsupportedAuthRules(rules: u32)
    | ProducerMismatch
    | KeyMismatch
    | WrongNetwork
    | InBlock(error: BlockError)
    | BadSignature(cause: TxError)
    | ProducerRecoveryFailed
    | ClaimedEnvelopeIdMismatch

  datatype Envelope = Envelope(network: Hash, block: Block, signature: SignatureBytes)

  /** The envelope identifier: its domain and the exact wire bytes, which determine the envelope and are
      determined by it. */
  const EnvelopeId: Envelope -> Hash

  /** The signed statement: chain, network, header profile and header hash, under the signing domain. */
  const ProducerDigest: (u64, Hash, u32, Hash) -> Hash

  /** Public-key recovery from a digest and a signature. */
  const RecoverProducer: (Hash, SignatureBytes) -> Option<PublicKey>

  // ----- wire format -----

  function FrameEnvelope(network: Hash, inner: Bytes, signature: SignatureBytes): Bytes {
    [OUTER_WIRE_VERSION, AUTH_ENCODING_VERSION] + (ToBe(4, AUTH_RULES_VERSION) + (network + (ToBe(4, |inner|)
    + (inner + signature))))
  }

  function EncodeEnvelope(e: Envelope): Bytes {
    FrameEnvelope(e.network, EncodeBlock(e.block), e.signature)
  }

  datatype EnvelopeParts = EnvelopeParts(network: Hash, inner: Bytes, signature: SignatureBytes)

  function UnframeEnvelope(s: Bytes): Result<EnvelopeParts, AuthError> {
    if |s| > MAX_ENVELOPE_BYTES then Err(OuterFrame(OuterSize))
    else if |s| < 1 then Err(OuterFrame(OuterTruncation))
    else if s[0] != OUTER_WIRE_VERSION then Err(UnsupportedWire(s[0]))
    else if |s| < 2 then Err(OuterFrame(OuterTruncation))
    else if s[1] != AUTH_ENCODING_VERSION then Err(UnsupportedAuthEncoding(s[1]))
    else if |s| < 6 then Err(OuterFrame(OuterTruncation))
    else if FromBe32(At(s, 2, 4)) != AUTH_RULES_VERSION then Err(UnsupportedAuthRules(FromBe32(At(s, 2, 4))))
    else if |s| < 42 then Err(OuterFrame(OuterTruncation))
    else
      var length := FromBe32(At(s, 38, 4));
      if length < 289 || length > MAX_WIRE_BYTES then Err(OuterFrame(InnerLength))
      else if length + ENVELOPE_OVERHEAD != |s| then Err(OuterFrame(ExactLength))
      else Ok(EnvelopeParts(At(s, 6, 32), At(s, 42, length), At(s, 42 + length, 65)))
  }

  function DecodeEnvelope(s: Bytes): Result<Envelope, AuthError> {
    match UnframeEnvelope(s)
    case Err(e) => Err(e)
    case Ok(p) =>
      match DecodeBlock(p.inner)
      case Err(e) => Err(InBlock(e))
      case Ok(b) => Ok(Envelope(p.network, b, p.signature))
  }

  lemma EnvelopePieces(s: Bytes, head: Bytes, rules: Bytes, network: Bytes, length: Bytes, inner: Bytes,
                       signature: Bytes)
    requires |head| == 2 && |rules| == |length| == 4 && |network| == 32 && |signature| == 65
    requires s == head + (rules + (network + (length + (inner + signature))))
    ensures |s| == ENVELOPE_OVERHEAD + |inner|
    ensures s[0] == head[0] && s[1] == head[1] && At(s, 2, 4) == rules && At(s, 6, 32) == network
    ensures At(s, 38, 4) == length && At(s, 42, |inner|) == inner && At(s, 42 + |inner|, 65) == signature
  {
    var s38 := length + (inner + signature);
    var s6 := network + s38;
    assert s[0..] == head + (rules + s6);
    Piece(s, 0, head, rules + s6);
    Piece(s, 2, rules, s6);
    Piece(s, 6, network, s38);
    Piece(s, 38, length, inner + signature);
    Piece(s, 42, inner, signature);
    assert signature == signature + [];
    Piece(s, 42 + |inner|, signature, []);
    assert At(s, 0, 2)[0] == s[0] && At(s, 0, 2)[1] == s[1];
  }

  lemma EnvelopeLayout(s: Bytes, n: nat)
    requires |s| == ENVELOPE_OVERHEAD + n
    ensures s == [s[0], s[1]] + (At(s, 2, 4) + (At(s, 6, 32) + (At(s, 38, 4) + (At(s, 42, n) + At(s, 42 + n, 65)))))
  {
    assert s == s[0..] && At(s, 0, 2) == [s[0], s[1]];
    Join(s, 0, 2);
    Join(s, 2, 4);
    Join(s, 6, 32);
    Join(s, 38, 4);
    Join(s, 42, n);
    assert s[42 + n..] == At(s, 42 + n, 65);
  }

  /** Where each field of an envelope sits in its bytes. */
  lemma EnvelopeFields(e: Envelope)
    ensures var s, inner := EncodeEnvelope(e), EncodeBlock(e.block);
      && |s| == ENVELOPE_OVERHEAD + |inner|
      && s[0] == 3 && s[1] == 1 && At(s, 2, 4) == ToBe(4, 1)
      && At(s, 6, 32) == e.network && At(s, 38, 4) == ToBe(4, |inner|) && At(s, 42, |inner|) == inner
      && At(s, 42 + |inner|, 65) == e.signature
  {
    EnvelopePieces(EncodeEnvelope(e), [OUTER_WIRE_VERSION, AUTH_ENCODING_VERSION], ToBe(4, AUTH_RULES_VERSION),
      e.network, ToBe(4, |EncodeBlock(e.block)|), EncodeBlock(e.block), e.signature);
  }

  lemma UnframeFramedEnvelope(network: Hash, inner: Bytes, signature: SignatureBytes)
    requires 289 <= |inner| <= MAX_WIRE_BYTES
    ensures UnframeEnvelope(FrameEnvelope(network, inner, signature)) == Ok(EnvelopeParts(network, inner, signature))
  {
    EnvelopePieces(FrameEnvelope(network, inner, signature), [OUTER_WIRE_VERSION, AUTH_ENCODING_VERSION],
      ToBe(4, AUTH_RULES_VERSION), network, ToBe(4, |inner|), inner, signature);
    RoundTrip32(AUTH_RULES_VERSION);
    RoundTrip32(|inner|);
  }

  lemma FrameUnframedEnvelope(s: Bytes)
    requires UnframeEnvelope(s).Ok?
    ensures var p := UnframeEnvelope(s).value;
      FrameEnvelope(p.network, p.inner, p.signature) == s && 289 <= |p.inner| <= MAX_WIRE_BYTES
  {
    EnvelopeLayout(s, FromBe32(At(s, 38, 4)));
    Canonical32(At(s, 2, 4));
    Canonical32(At(s, 38, 4));
  }

  /** Decoding undoes encoding whenever the inner block fits its bounds. */
  lemma DecodeEncodeEnvelope(e: Envelope)
    requires e.block.Bounded() && |EncodeBlock(e.block)| >= 289
    ensures DecodeEnvelope(EncodeEnvelope(e)) == Ok(e)
  {
    DecodeEncodeBlock(e.block);
    UnframeFramedEnvelope(e.network, EncodeBlock(e.block), e.signature);
  }

  /** Encoding undoes decoding, and what was decoded is bounded. */
  lemma EncodeDecodeEnvelope(s: Bytes)
    requires DecodeEnvelope(s).Ok?
    ensures EncodeEnvelope(DecodeEnvelope(s).value) == s
    ensures DecodeEnvelope(s).value.block.Bounded()
  {
    FrameUnframedEnvelope(s);
    EncodeDecodeBlock(UnframeEnvelope(s).value.inner);
  }

  // ----- attribution -----

  /** Attribution of an envelope value to one bound producer: network, structure, producer name,
      signature canonicality, claimed identifier, recovered key, in that order. */
  function Attribute(e: Envelope, context: AuthenticationContext, producer: Bytes, key: PublicKey,
                     claimedId: Option<Hash>)
    : Option<AuthError>
  {
    if e.network != context.networkId then Some(WrongNetwork)
    else if Preflight(e.block, context).Err? then Some(InBlock(Preflight(e.block, context).error))
    else if e.block.proposer != producer
      || e.block.header.proposerId != ProposerId(producer) then Some(ProducerMismatch)
    else if ValidateSignature(e.signature).Some? then Some(BadSignature(ValidateSignature(e.signature).value))
    else if claimedId.Some? && claimedId.value != EnvelopeId(e) then Some(ClaimedEnvelopeIdMismatch)
    else match RecoverProducer(
        ProducerDigest(e.block.header.chainId, e.network, e.block.header.protocolVersion, e.block.Hash()), e.signature)
      case None => Some(ProducerRecoveryFailed)
      case Some(k) => if k != key then Some(KeyMismatch) else None
  }

  /** An envelope is attributed to a bound producer exactly if it is for this network, its block passes the
      structural checks under that producer's name, a claimed identifier is its own, and its canonical signature
      over chain, network, profile 2 and block hash recovers to the bound key. */
  lemma AttributeExactly(e: Envelope, context: AuthenticationContext, producer: Bytes, key: PublicKey,
                         claimedId: Option<Hash>)
    ensures Attribute(e, context, producer, key, claimedId).None? <==>
      && e.network == context.networkId && Preflight(e.block, context).Ok? && e.block.proposer == producer
      && ValidateSignature(e.signature).None? && (claimedId.Some? ==> claimedId.value == EnvelopeId(e))
      && RecoverProducer(ProducerDigest(context.chainId, context.networkId, 2, e.block.Hash()), e.signature)
         == Some(key)
  {
    PreflightExactly(e.block, context);
  }

  /** The checks on a decoded envelope, with the reconstruction check in its place. */
  function AuthenticateDecoded(e: Envelope, reconstructed: bool, context: AuthenticationContext, producer: Bytes,
                               key: PublicKey, claimedId: Option<Hash>): Result<Envelope, AuthError>
  {
    if e.network != context.networkId then Err(WrongNetwork)
    else if Preflight(e.block, context).Err? then Err(InBlock(Preflight(e.block, context).error))
    else if !reconstructed then Err(OuterFrame(Noncanonical))
    else match Attribute(e, context, producer, key, claimedId)
      case Some(error) => Err(error)
      case None => Ok(e)
  }

  /** Attribution from received bytes. */
  function AuthenticateBlock(s: Bytes, context: AuthenticationContext, producer: Bytes, key: PublicKey,
                             claimedId: Option<Hash>)
    : Result<Envelope, AuthError>
  {
    match DecodeEnvelope(s)
    case Err(e) => Err(e)
    case Ok(e) => AuthenticateDecoded(e, EncodeEnvelope(e) == s, context, producer, key, claimedId)
  }

  lemma AttributionOfReconstructed(e: Envelope, context: AuthenticationContext, producer: Bytes, key: PublicKey,
                                   claimedId: Option<Hash>)
    ensures AuthenticateDecoded(e, true, context, producer, key, claimedId)
         == match Attribute(e, context, producer, key, claimedId)
            case Some(error) => Err(error)
            case None => Ok(e)
    ensures AuthenticateDecoded(e, true, context, producer, key, claimedId) != Err(OuterFrame(Noncanonical))
  {}

  /** The reconstruction error is unreachable: attribution of bytes is decoding followed by attribution
      of the decoded envelope, and an accepted byte string is the one encoding of its envelope. */
  lemma ReconstructionNeverFails(s: Bytes, context: AuthenticationContext, producer: Bytes, key: PublicKey,
                                 claimedId: Option<Hash>)
    requires DecodeEnvelope(s).Ok?
    ensures var e := DecodeEnvelope(s).value;
      && EncodeEnvelope(e) == s
      && AuthenticateBlock(s, context, producer, key, claimedId) != Err(OuterFrame(Noncanonical))
      && (AuthenticateBlock(s, context, producer, key, claimedId) == Ok(e)
          <==> Attribute(e, context, producer, key, claimedId).None?)
  {
    var e := DecodeEnvelope(s).value;
    EncodeDecodeEnvelope(s);
    AttributionOfReconstructed(e, context, producer, key, claimedId);
  }

  /** A structurally accepted block always fits the envelope's inner length bounds. */
  lemma PreflightedFits(b: Block, context: AuthenticationContext)
    requires Preflight(b, context).Ok? && b.Bounded()
    ensures 289 <= |EncodeBlock(b)| <= MAX_WIRE_BYTES
  {
    DecodeEncodeBlock(b);
  }
}
