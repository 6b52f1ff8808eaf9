/** Cutting byte strings into the pieces they were joined from. */
module Slices {
  import opened Base

  /** The bytes at a fixed offset. */
  function At(s: Bytes, offset: nat, width: nat): (r: Bytes)
    requires offset + width <= |s|
    ensures |r| == width
  {
    s[offset..offset + width]
  }

  lemma TakeDrop(a: Bytes, b: Bytes)
    ensures (a + b)[..|a|] == a
    ensures (a + b)[|a|..] == b
  {}

  /** One decoding step: if `s` from `offset` on is `piece` then `rest`, the piece is what `At` reads. */
  lemma Piece(s: Bytes, offset: nat, piece: Bytes, rest: Bytes)
    requires offset <= |s| && s[offset..] == piece + rest
    ensures offset + |piece| <= |s|
    ensures At(s, offset, |piece|) == piece
    ensures s[offset + |piece|..] == rest
  {
    TakeDrop(piece, rest);
    assert |s[offset..]| == |piece| + |rest|;
    assert s[offset..][..|piece|] == At(s, offset, |piece|);
    assert s[offset..][|piece|..] == s[offset + |piece|..];
  }

  /** One encoding step: the bytes at `offset` and the rest make up everything from `offset` on. */
  lemma Join(s: Bytes, offset: nat, width: nat)
    requires offset + width <= |s|
    ensures s[offset..] == At(s, offset, width) + s[offset + width..]
  {}
}

/** Fixed-width native transfers: canonical bytes, profile checks and sender authentication
    (src/native_transaction.rs). */
module NativeTransaction {
  import opened Base
  import opened Crypto
  import opened BigEndian
  import opened Slices

  const ENCODING_VERSION: byte := 2
  const NATIVE_RULES_VERSION: u32 := 1
  const TRANSFER_KIND: byte := 0
  const ETX_TOKEN_ID: u64 := 0
  const INTRINSIC_GAS: u64 := 1000
  const TRANSFER_FEE_QUARKS: u64 := 10000
  const UNSIGNED_LEN: nat := 134
  const SIGNATURE_LEN: nat := 65
  const SIGNED_LEN: nat := 199

  /** The authorization digest of an unsigned payload, under the signing domain. */
  const SigningDigestOf: Bytes -> Hash

  /** The identifier of exact signed bytes, under the transaction-identifier domain. */
  const TransactionId: Bytes -> Hash

  type Address = a: Bytes | |a| == 20 witness seq(20, _ => 0)
  type SignatureBytes = s: Bytes | |s| == 65 witness seq(65, _ => 0)
  type SignedBytes = s: Bytes | |s| == 199 witness seq(199, _ => 0)

  datatype TxError =
    | InvalidLength(expected: nat, actual: nat)
    | UnsupportedEncoding(version: byte)
    | UnsupportedKind(kind: byte)
    | RulesMismatch
    | ChainMismatch
    | NetworkMismatch
    | GasBelowIntrinsic(gas: u64)
    | NonceExhausted
    | UnsupportedToken(token: u64)
    | InvalidParity(parity: byte)
    | InvalidScalar
    | HighS
    | RecoveryFailed
    | SenderMismatch

  /** Trusted chain, genesis and rules; only rules version 1 can be constructed. */
  datatype AuthenticationContext = AuthenticationContext(chainId: u64, networkId: Hash)

  datatype Unsigned = Unsigned(
    encodingVersion: byte,
    rulesVersion: u32,
    chainId: u64,
    networkId: Hash,
    kind: byte,
    sender: Address,
    nonce: u64,
    recipient: Address,
    tokenId: u64,
    value: u128,
    gasLimit: u64,
    validAfterSlot: u64)
  {
    function ValidateLayout(): Option<TxError> {
      if encodingVersion != ENCODING_VERSION then Some(UnsupportedEncoding(encodingVersion))
      else if kind != TRANSFER_KIND then Some(UnsupportedKind(kind))
      else None
    }

    function ValidateProfile(context: AuthenticationContext): Option<TxError> {
      if ValidateLayout().Some? then ValidateLayout()
      else if rulesVersion != NATIVE_RULES_VERSION then Some(RulesMismatch)
      else if chainId != context.chainId then Some(ChainMismatch)
      else if networkId != context.networkId then Some(NetworkMismatch)
      else if gasLimit < INTRINSIC_GAS then Some(GasBelowIntrinsic(gasLimit))
      else if nonce == U64_LIMIT - 1 then Some(NonceExhausted)
      else if tokenId != ETX_TOKEN_ID then Some(UnsupportedToken(tokenId))
      else None
    }

    /** The 134 payload bytes, in field order. */
    function Payload(): (b: Bytes)
      ensures |b| == UNSIGNED_LEN
    {
      [encodingVersion] + (ToBe(4, rulesVersion) + (ToBe(8, chainId) + (networkId + ([kind] + (sender
      + (ToBe(8, nonce) + (recipient + (ToBe(8, tokenId) + (ToBe(16, value) + (ToBe(8, gasLimit)
      + ToBe(8, validAfterSlot)))))))))))
    }

    function CanonicalBytes(): Result<Bytes, TxError> {
      if ValidateLayout().Some? then Err(ValidateLayout().value) else Ok(Payload())
    }
  }

  function ReadUnsigned(b: Bytes): Unsigned
    requires |b| == UNSIGNED_LEN
  {
    Unsigned(
      b[0], FromBe32(At(b, 1, 4)), FromBe64(At(b, 5, 8)), At(b, 13, 32), b[45], At(b, 46, 20),
      FromBe64(At(b, 66, 8)), At(b, 74, 20), FromBe64(At(b, 94, 8)), FromBe128(At(b, 102, 16)),
      FromBe64(At(b, 118, 8)), FromBe64(At(b, 126, 8)))
  }

  function DecodeUnsigned(b: Bytes): Result<Unsigned, TxError> {
    if |b| != UNSIGNED_LEN then Err(InvalidLength(UNSIGNED_LEN, |b|))
    else
      var t := ReadUnsigned(b);
      if t.ValidateLayout().Some? then Err(t.ValidateLayout().value) else Ok(t)
  }

  /** The payload layout, read from joined pieces. */
  lemma PayloadPieces(b: Bytes, version: Bytes, rules: Bytes, chain: Bytes, network: Bytes, kind: Bytes, sender: Bytes,
                      nonce: Bytes, recipient: Bytes, token: Bytes, value: Bytes, gas: Bytes, after: Bytes)
    requires |version| == |kind| == 1 && |rules| == 4 && |network| == 32 && |sender| == |recipient| == 20
    requires |chain| == |nonce| == |token| == |gas| == |after| == 8 && |value| == 16
    requires b == version + (rules + (chain + (network + (kind + (sender + (nonce + (recipient + (token + (value
      + (gas + after))))))))))
    ensures |b| == UNSIGNED_LEN
    ensures b[0] == version[0] && At(b, 1, 4) == rules && At(b, 5, 8) == chain && At(b, 13, 32) == network
    ensures b[45] == kind[0] && At(b, 46, 20) == sender && At(b, 66, 8) == nonce && At(b, 74, 20) == recipient
    ensures At(b, 94, 8) == token && At(b, 102, 16) == value && At(b, 118, 8) == gas && At(b, 126, 8) == after
  {
    var s118 := gas + after;
    var s102 := value + s118;
    var s94 := token + s102;
    var s74 := recipient + s94;
    var s66 := nonce + s74;
    var s46 := sender + s66;
    var s45 := kind + s46;
    var s13 := network + s45;
    var s5 := chain + s13;
    var s1 := rules + s5;
    assert b[0..] == version + s1;
    Piece(b, 0, version, s1);
    Piece(b, 1, rules, s5);
    Piece(b, 5, chain, s13);
    Piece(b, 13, network, s45);
    Piece(b, 45, kind, s46);
    Piece(b, 46, sender, s66);
    Piece(b, 66, nonce, s74);
    Piece(b, 74, recipient, s94);
    Piece(b, 94, token, s102);
    Piece(b, 102, value, s118);
    Piece(b, 118, gas, after);
    assert after == after + [];
    Piece(b, 126, after, []);
    assert At(b, 0, 1)[0] == b[0] && At(b, 45, 1)[0] == b[45];
  }

  /** The payload layout, cut from a whole. */
  lemma PayloadLayout(b: Bytes)
    requires |b| == UNSIGNED_LEN
    ensures b == [b[0]] + (At(b, 1, 4) + (At(b, 5, 8) + (At(b, 13, 32) + ([b[45]] + (At(b, 46, 20)
      + (At(b, 66, 8) + (At(b, 74, 20) + (At(b, 94, 8) + (At(b, 102, 16) + (At(b, 118, 8) + At(b, 126, 8)))))))))))
  {
    assert b == b[0..] && At(b, 126, 8) == b[126..];
    assert At(b, 0, 1) == [b[0]] && At(b, 45, 1) == [b[45]];
    Join(b, 0, 1);
    Join(b, 1, 4);
    Join(b, 5, 8);
    Join(b, 13, 32);
    Join(b, 45, 1);
    Join(b, 46, 20);
    Join(b, 66, 8);
    Join(b, 74, 20);
    Join(b, 94, 8);
    Join(b, 102, 16);
    Join(b, 118, 8);
  }

  /** Where each field of a transaction sits in its payload. */
  lemma PayloadFields(t: Unsigned)
    ensures var b := t.Payload();
      && b[0] == t.encodingVersion && At(b, 1, 4) == ToBe(4, t.rulesVersion) && At(b, 5, 8) == ToBe(8, t.chainId)
      && At(b, 13, 32) == t.networkId && b[45] == t.kind && At(b, 46, 20) == t.sender
      && At(b, 66, 8) == ToBe(8, t.nonce) && At(b, 74, 20) == t.recipient && At(b, 94, 8) == ToBe(8, t.tokenId)
      && At(b, 102, 16) == ToBe(16, t.value) && At(b, 118, 8) == ToBe(8, t.gasLimit)
      && At(b, 126, 8) == ToBe(8, t.validAfterSlot)
  {
    PayloadPieces(t.Payload(), [t.encodingVersion], ToBe(4, t.rulesVersion), ToBe(8, t.chainId), t.networkId,
      [t.kind], t.sender, ToBe(8, t.nonce), t.recipient, ToBe(8, t.tokenId), ToBe(16, t.value),
      ToBe(8, t.gasLimit), ToBe(8, t.validAfterSlot));
  }

  lemma ReadPayload(t: Unsigned)
    ensures ReadUnsigned(t.Payload()) == t
  {
    PayloadFields(t);
    RoundTrip32(t.rulesVersion);
    RoundTrip64(t.chainId);
    RoundTrip64(t.nonce);
    RoundTrip64(t.tokenId);
    RoundTrip128(t.value);
    RoundTrip64(t.gasLimit);
    RoundTrip64(t.validAfterSlot);
  }

  lemma PayloadRead(b: Bytes)
    requires |b| == UNSIGNED_LEN
    ensures ReadUnsigned(b).Payload() == b
  {
    PayloadLayout(b);
    Canonical32(At(b, 1, 4));
    Canonical64(At(b, 5, 8));
    Canonical64(At(b, 66, 8));
    Canonical64(At(b, 94, 8));
    Canonical128(At(b, 102, 16));
    Canonical64(At(b, 118, 8));
    Canonical64(At(b, 126, 8));
  }

  // ----- signatures -----

  datatype ScalarStatus = BadScalar | HighScalar | CanonicalScalars

  /** The backend's verdict on r and s; elliptic-curve arithmetic stays abstract. */
  const JudgeScalars: Bytes -> ScalarStatus

  /** Public-key recovery followed by address derivation, for an authorization digest and a signature. */
  const RecoverSender: (Hash, SignatureBytes) -> Option<Address>

  /** Parity is judged first, then the scalars, then low-s. */
  function ValidateSignature(s: Bytes): Option<TxError> {
    if |s| != SIGNATURE_LEN then Some(InvalidLength(SIGNATURE_LEN, |s|))
    else if s[64] > 1 then Some(InvalidParity(s[64]))
    else match JudgeScalars(s[..64])
      case BadScalar => Some(InvalidScalar)
      case HighScalar => Some(HighS)
      case CanonicalScalars => None
  }

  datatype Signed = Signed(unsigned: Unsigned, signature: SignatureBytes) {
    /** What the constructors establish. */
    predicate Valid() {
      unsigned.ValidateLayout().None? && ValidateSignature(signature).None?
    }

    function CanonicalBytes(): SignedBytes {
      unsigned.Payload() + signature
    }

    function Id(): Hash {
      TransactionId(CanonicalBytes())
    }
  }

  function DecodeSigned(b: Bytes): Result<Signed, TxError> {
    if |b| != SIGNED_LEN then Err(InvalidLength(SIGNED_LEN, |b|))
    else match DecodeUnsigned(b[..134])
      case Err(e) => Err(e)
      case Ok(u) =>
        if ValidateSignature(b[134..]).Some? then Err(ValidateSignature(b[134..]).value)
        else Ok(Signed(u, b[134..]))
  }

  /** A signed transaction is its payload followed by the 65 signature bytes. */
  lemma SignedFields(t: Signed)
    ensures t.CanonicalBytes()[..134] == t.unsigned.Payload() && t.CanonicalBytes()[134..] == t.signature
  {
    TakeDrop(t.unsigned.Payload(), t.signature);
  }

  /** What an accepted byte string says, field by field. */
  lemma DecodedFields(b: Bytes)
    requires DecodeSigned(b).Ok?
    ensures var t := DecodeSigned(b).value.unsigned;
      && |b| == SIGNED_LEN && DecodeSigned(b).value.signature == b[134..]
      && t.encodingVersion == b[0] && ToBe(4, t.rulesVersion) == At(b, 1, 4) && ToBe(8, t.chainId) == At(b, 5, 8)
      && t.networkId == At(b, 13, 32) && t.kind == b[45] && t.sender == At(b, 46, 20)
      && ToBe(8, t.nonce) == At(b, 66, 8) && t.recipient == At(b, 74, 20) && ToBe(8, t.tokenId) == At(b, 94, 8)
      && ToBe(16, t.value) == At(b, 102, 16) && ToBe(8, t.gasLimit) == At(b, 118, 8)
      && ToBe(8, t.validAfterSlot) == At(b, 126, 8)
  {
    EncodeDecodeSigned(b);
    var t := DecodeSigned(b).value;
    SignedFields(t);
    PayloadFields(t.unsigned);
    FieldsOfPrefix(b, t.unsigned.Payload());
  }

  lemma FieldsOfPrefix(b: Bytes, p: Bytes)
    requires |p| == UNSIGNED_LEN && |b| == SIGNED_LEN && b[..134] == p
    ensures forall i, n :: 0 <= i && 0 <= n && i + n <= 134 ==> At(b, i, n) == At(p, i, n)
    ensures b[0] == p[0] && b[45] == p[45]
  {
    forall i, n | 0 <= i && 0 <= n && i + n <= 134
      ensures At(b, i, n) == At(p, i, n)
    {
      assert b[..134][i..i + n] == b[i..i + n];
    }
    assert b[..134][0] == b[0] && b[..134][45] == b[45];
  }

  /** Decoding undoes encoding for every transaction the constructors admit. */
  lemma DecodeEncodeSigned(t: Signed)
    requires t.Valid()
    ensures DecodeSigned(t.CanonicalBytes()) == Ok(t)
  {
    TakeDrop(t.unsigned.Payload(), t.signature);
    ReadPayload(t.unsigned);
  }

  /** Encoding undoes decoding: an accepted byte string is the only encoding of what it decodes to. */
  lemma EncodeDecodeSigned(b: Bytes)
    requires DecodeSigned(b).Ok?
    ensures DecodeSigned(b).value.Valid()
    ensures DecodeSigned(b).value.CanonicalBytes() == b
  {
    PayloadRead(b[..134]);
    assert b == b[..134] + b[134..];
  }

  // ----- authentication -----

  /** The sender and nonce columns, read at fixed offsets without decoding. */
  function SenderNonce(b: SignedBytes): (Address, u64) {
    (At(b, 46, 20), FromBe64(At(b, 66, 8)))
  }

  datatype Authenticated = Authenticated(transaction: Unsigned, id: Hash)

  /** Decoding, profile, identifier and recovery checks, in that order. */
  function Authenticate(b: Bytes, context: AuthenticationContext): Result<Authenticated, TxError> {
    match DecodeSigned(b)
    case Err(e) => Err(e)
    case Ok(t) =>
      if t.unsigned.ValidateProfile(context).Some? then Err(t.unsigned.ValidateProfile(context).value)
      else match RecoverSender(SigningDigestOf(t.unsigned.Payload()), t.signature)
        case None => Err(RecoveryFailed)
        case Some(address) =>
          if address != t.unsigned.sender then Err(SenderMismatch)
          else Ok(Authenticated(t.unsigned, t.Id()))
  }

  /** Authentication accepts exactly: 199 bytes of version 2 and kind 0 under rules 1, for this chain and network,
      with gas for the transfer, a nonce that can still rise and the ETX token, whose canonical signature
      recovers to the sender. */
  lemma AuthenticateExactly(b: Bytes, context: AuthenticationContext)
    ensures Authenticate(b, context).Ok? <==>
      && |b| == 199 && b[0] == 2 && b[45] == 0 && FromBe32(At(b, 1, 4)) == 1
      && FromBe64(At(b, 5, 8)) == context.chainId && At(b, 13, 32) == context.networkId
      && FromBe64(At(b, 118, 8)) >= 1000 && FromBe64(At(b, 66, 8)) < 0xFFFF_FFFF_FFFF_FFFF
      && FromBe64(At(b, 94, 8)) == 0 && ValidateSignature(b[134..]).None?
      && RecoverSender(SigningDigestOf(b[..134]), b[134..]) == Some(At(b, 46, 20))
  {
    if |b| == 199 {
      FieldsOfPrefix(b, b[..134]);
      PayloadRead(b[..134]);
    }
  }

  /** The stateless profile that the executor asks for again. */
  predicate Executable(tx: Unsigned) {
    && tx.rulesVersion == 1
    && tx.kind == TRANSFER_KIND
    && tx.tokenId == ETX_TOKEN_ID
    && tx.gasLimit >= INTRINSIC_GAS
    && tx.nonce + 1 < U64_LIMIT
  }

  /** What a proof says about the bytes it was made from: their width, their identifier as a block
      computes it, the sender and nonce as storage indexes them, and the execution profile. */
  ghost predicate Describes(p: Authenticated, b: Bytes) {
    && |b| == SIGNED_LEN
    && p.id == TransactionId(b)
    && SenderNonce(b) == (p.transaction.sender, p.transaction.nonce)
    && Executable(p.transaction)
  }

  /** User authentication under one fixed context, as the executor sees it: a deterministic function
      of the bytes. */
  type Authenticator = Bytes -> Result<Authenticated, TxError>

  /** Everything the executor and the archive rely on about authentication. */
  ghost predicate Faithful(auth: Authenticator) {
    forall b :: auth(b).Ok? ==> Describes(auth(b).value, b)
  }

  function AuthenticatorFor(context: AuthenticationContext): Authenticator {
    b => Authenticate(b, context)
  }

  /** The sender and nonce columns of the payload are those of the whole transaction. */
  lemma ColumnsOfPayload(b: Bytes)
    requires |b| == SIGNED_LEN
    ensures At(b[..134], 46, 20) == At(b, 46, 20) && At(b[..134], 66, 8) == At(b, 66, 8)
  {
    assert forall k :: 46 <= k < 74 ==> b[..134][k] == b[k];
  }

  lemma DecodedColumns(b: Bytes)
    requires DecodeSigned(b).Ok?
    ensures var u := DecodeSigned(b).value.unsigned;
      |b| == SIGNED_LEN && SenderNonce(b) == (u.sender, u.nonce)
  {
    ColumnsOfPayload(b);
  }

  /** A profile that authentication accepts is the one the executor asks for. */
  lemma ProfileIsExecutable(u: Unsigned, context: AuthenticationContext)
    requires u.ValidateProfile(context).None?
    ensures Executable(u)
  {}

  /** Because the codec is canonical, the identifier of the decoded transaction is the identifier of the
      received bytes. */
  lemma ProofDescribes(b: Bytes, context: AuthenticationContext)
    requires Authenticate(b, context).Ok?
    ensures Describes(Authenticate(b, context).value, b)
  {
    var t := DecodeSigned(b).value;
    EncodeDecodeSigned(b);
    DecodedColumns(b);
    ProfileIsExecutable(t.unsigned, context);
  }

  /** The real authenticator is faithful. */
  lemma AuthenticationIsFaithful(context: AuthenticationContext)
    ensures Faithful(AuthenticatorFor(context))
  {
    var auth := AuthenticatorFor(context);
    forall b | auth(b).Ok?
      ensures Describes(auth(b).value, b)
    {
      ProofDescribes(b, context);
    }
  }
}
