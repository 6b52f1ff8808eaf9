/** Native blocks: construction, structural preflight and the bounded wire envelope
    (src/native_block.rs). */
module NativeBlock {
  import opened Base
  import opened Crypto
  import opened BigEndian
  import opened Slices
  import opened NativeTransaction
  import opened NativeTransfer
  import opened BlockCommitment

  const EXPERIMENTAL_WIRE_VERSION: byte := 2
  const EXPERIMENTAL_HEADER_PROFILE: u32 := 2
  const MAX_BLOCK_TRANSACTIONS: nat := 3000
  const MAX_GAS: u64 := 16000000
  const MAX_PROPOSER_BYTES: nat := 256
  const ENTRY_LEN: nat := 203
  const MAX_WIRE_BYTES: nat := 288 + 256 + 203 * 3000

  /** The UTF-8 bytes of "protocol", a name no producer may use. */
  const RESERVED_PROPOSER: Bytes := [112, 114, 111, 116, 111, 99, 111, 108]

  datatype FrameReason =
    | EnvelopeSize | Truncation | WireVersion | HeaderBytes | ProposerLength | ProposerUtf8
    | ProtocolDataLength | ProtocolDataBytes | TransactionCount | TruncatedBody | SignedLength
    | TrailingBytes

  datatype BlockError =
    | Frame(reason: FrameReason, position: Option<nat>)
    | Profile | Chain | Kind | Proposer | Ticket | StateRoot | ReceiptRoot | GasCap | BadProtocolData
    | ClaimedHash | ProtocolRoot | BadTransactionRoot | StagedIdentity | ActualGas | ActualBurn

  datatype Block = Block(
    header: BlockHeader,
    claimedHash: Hash,
    proposer: Bytes,
    protocolData: ProtocolData,
    transactions: seq<SignedBytes>)
  {
    function Hash(): Hash {
      HeaderHash(header)
    }

    /** The bounds every construction route establishes. */
    predicate Bounded() {
      && |proposer| <= MAX_PROPOSER_BYTES && ValidUtf8(proposer)
      && protocolData.missedProposer.None?
      && |transactions| <= MAX_BLOCK_TRANSACTIONS
    }
  }

  function TransactionIds(transactions: seq<SignedBytes>): seq<Hash> {
    seq(|transactions|, i requires 0 <= i < |transactions| => TransactionId(transactions[i]))
  }

  // ----- construction and checks -----

  function FromParts(header: BlockHeader, proposer: Bytes, data: ProtocolData, transactions: seq<SignedBytes>)
    : Result<Block, BlockError>
  {
    if |proposer| > MAX_PROPOSER_BYTES then Err(Frame(ProposerLength, None))
    else if data.missedProposer.Some? then Err(Frame(ProtocolDataLength, None))
    else if |transactions| > MAX_BLOCK_TRANSACTIONS then Err(Frame(TransactionCount, None))
    else Ok(Block(header, HeaderHash(header), proposer, data, transactions))
  }

  /** The structural checks, in their approved order; success yields the raw identifiers. */
  function Preflight(b: Block, context: AuthenticationContext): Result<seq<Hash>, BlockError> {
    var h := b.header;
    if h.protocolVersion != EXPERIMENTAL_HEADER_PROFILE then Err(Profile)
    else if h.chainId != context.chainId then Err(Chain)
    else if h.kind != Validator then Err(Kind)
    else if b.proposer == [] || b.proposer == RESERVED_PROPOSER || h.proposerId == ZERO_HASH
         || h.proposerId != ProposerId(b.proposer) then Err(Proposer)
    else if h.ticketId == 0 then Err(Ticket)
    else if h.stateRoot != PLACEHOLDER_STATE_ROOT then Err(StateRoot)
    else if h.receiptsRoot != EMPTY_RECEIPTS_ROOT then Err(ReceiptRoot)
    else if h.gasUsed > MAX_GAS then Err(GasCap)
    else if b.protocolData.missedProposer.Some? then Err(BadProtocolData)
    else if b.claimedHash != b.Hash() then Err(ClaimedHash)
    else if h.protocolDataRoot != ProtocolDataRoot(b.protocolData) then Err(ProtocolRoot)
    else if h.transactionRoot != TransactionRoot(TransactionIds(b.transactions)) then Err(BadTransactionRoot)
    else Ok(TransactionIds(b.transactions))
  }

  /** The header a producer of this block would write, from everything else in it. */
  function OwnHeader(b: Block, context: AuthenticationContext): BlockHeader {
    BlockHeader(
      2, context.chainId, b.header.slot, Validator, b.header.parentHash, ProposerId(b.proposer), b.header.ticketId,
      TransactionRoot(TransactionIds(b.transactions)), ZERO_HASH, EMPTY_RECEIPTS_ROOT, b.header.gasUsed,
      ProtocolDataRoot(b.protocolData))
  }

  /** The structural checks accept exactly the blocks whose claimed hash is that of the header their producer
      would write, under a real proposer name and ticket, within the gas cap, and without a missed proposer. */
  lemma PreflightExactly(b: Block, context: AuthenticationContext)
    ensures Preflight(b, context).Ok? <==>
      && b.header == OwnHeader(b, context) && b.claimedHash == HeaderHash(OwnHeader(b, context))
      && b.proposer != [] && b.proposer != RESERVED_PROPOSER && ProposerId(b.proposer) != ZERO_HASH
      && b.header.ticketId != 0 && b.header.gasUsed <= 16_000_000 && b.protocolData.missedProposer.None?
    ensures Preflight(b, context).Ok? ==> Preflight(b, context).value == TransactionIds(b.transactions)
  {}

  /** Compares a block's claims with what execution produced. */
  function MatchOutcome(b: Block, bytes: seq<SignedBytes>, ids: seq<Hash>, outcome: Outcome): Option<BlockError> {
    if bytes != b.transactions || ids != outcome.ids then Some(StagedIdentity)
    else if b.header.gasUsed != outcome.gasUsed then Some(ActualGas)
    else if b.protocolData.feesBurned != outcome.feesBurned then Some(ActualBurn)
    else None
  }

  /** A producer block around an execution outcome. */
  function Build(context: AuthenticationContext, slot: u64, parent: Hash, proposer: Bytes, ticket: u64,
                 transactions: seq<SignedBytes>, outcome: Outcome): Result<Block, BlockError>
  {
    var data := ProtocolData(outcome.feesBurned, None);
    var header := BlockHeader(
      EXPERIMENTAL_HEADER_PROFILE, context.chainId, slot, Validator, parent, ProposerId(proposer), ticket,
      TransactionRoot(outcome.ids), PLACEHOLDER_STATE_ROOT, EMPTY_RECEIPTS_ROOT, outcome.gasUsed,
      ProtocolDataRoot(data));
    match FromParts(header, proposer, data, transactions)
    case Err(e) => Err(e)
    case Ok(b) =>
      match Preflight(b, context)
      case Err(e) => Err(e)
      case Ok(_) => Ok(b)
  }

  lemma {:induction false} StagedIdsAreRawIds(transactions: seq<SignedBytes>, auth: Authenticator)
    requires Faithful(auth) && AuthenticateAll(transactions, auth).Ok?
    ensures Ids(AuthenticateAll(transactions, auth).value) == TransactionIds(transactions)
  {
    AuthenticateAllFacts(transactions, auth);
    var proofs := AuthenticateAll(transactions, auth).value;
    forall i | 0 <= i < |transactions|
      ensures proofs[i].id == TransactionId(transactions[i])
    {
      assert Describes(auth(transactions[i]).value, transactions[i]);
    }
  }

  /** Building from an outcome whose identifiers and gas are honest. */
  lemma BuildMatches(context: AuthenticationContext, slot: u64, parent: Hash, proposer: Bytes, ticket: u64,
                     transactions: seq<SignedBytes>, outcome: Outcome)
    requires |transactions| <= MAX_BLOCK_TRANSACTIONS && |proposer| <= MAX_PROPOSER_BYTES
    requires outcome.ids == TransactionIds(transactions) && outcome.gasUsed <= MAX_GAS
    ensures var r := Build(context, slot, parent, proposer, ticket, transactions, outcome);
      && (r.Err? ==> r.error == Proposer || (r.error == Ticket && ticket == 0))
      && (r.Ok? ==>
            && r.value.header.slot == slot && r.value.header.parentHash == parent
            && r.value.proposer == proposer && r.value.transactions == transactions
            && r.value.protocolData.missedProposer.None?
            && Preflight(r.value, context) == Ok(outcome.ids)
            && MatchOutcome(r.value, transactions, outcome.ids, outcome).None?)
  {}

  /** A block built from the outcome of its own body: the only thing that can still be wrong is the
      producer name or a zero ticket. The gas cap, the content commitments and the comparison with the
      outcome all hold, because staging charges exact gas and the codec is canonical. */
  lemma OwnOutcomeMatches(context: AuthenticationContext, slot: u64, parent: Hash, proposer: Bytes, ticket: u64,
                          transactions: seq<SignedBytes>, auth: Authenticator, base: TransferState)
    requires Faithful(auth) && Stage(base, auth, slot, transactions).Ok?
    requires |transactions| <= MAX_BLOCK_TRANSACTIONS && |proposer| <= MAX_PROPOSER_BYTES
    ensures var outcome := Stage(base, auth, slot, transactions).value.outcome;
      var r := Build(context, slot, parent, proposer, ticket, transactions, outcome);
      && (r.Err? ==> r.error == Proposer || (r.error == Ticket && ticket == 0))
      && (r.Ok? ==>
            && r.value.header.slot == slot && r.value.header.parentHash == parent
            && r.value.proposer == proposer && r.value.transactions == transactions
            && r.value.protocolData.missedProposer.None?
            && Preflight(r.value, context) == Ok(outcome.ids)
            && MatchOutcome(r.value, transactions, outcome.ids, outcome).None?)
  {
    var outcome := Stage(base, auth, slot, transactions).value.outcome;
    StagedOutcome(transactions, auth, base, slot);
    BuildMatches(context, slot, parent, proposer, ticket, transactions, outcome);
  }

  /** The outcome of staging whole blocks: raw identifiers and exact costs. */
  lemma StagedOutcome(transactions: seq<SignedBytes>, auth: Authenticator, base: TransferState, slot: u64)
    requires Faithful(auth) && Stage(base, auth, slot, transactions).Ok?
    ensures var outcome := Stage(base, auth, slot, transactions).value.outcome;
      && outcome.ids == TransactionIds(transactions)
      && outcome.gasUsed == 1000 * |transactions|
      && outcome.feesBurned == 10000 * |transactions|
  {
    StagedIdsAreRawIds(transactions, auth);
    AuthenticateAllFacts(transactions, auth);
    ExecuteLaws(base, AuthenticateAll(transactions, auth).value, slot);
  }

  // ----- wire format -----

  /** The length-prefixed entries of a body. */
  function EncodeEntries(transactions: seq<SignedBytes>): (b: Bytes)
    ensures |b| == ENTRY_LEN * |transactions|
  {
    if transactions == [] then []
    else EncodeEntries(transactions[..|transactions| - 1]) + (ToBe(4, SIGNED_LEN) + transactions[|transactions| - 1])
  }

  /** Everything after the proposer text. */
  function TailBytes(b: Block): Bytes {
    var data := b.protocolData.CanonicalBytes();
    ToBe(4, |data|) + (data + (ToBe(8, |b.transactions|) + EncodeEntries(b.transactions)))
  }

  /** The outermost layout: version, claimed hash, header, proposer text, everything else. */
  function FrameBlock(claimedHash: Hash, header: Bytes, proposer: Bytes, tail: Bytes): Bytes {
    [EXPERIMENTAL_WIRE_VERSION] + (claimedHash + (header + (ToBe(4, |proposer|) + (proposer + tail))))
  }

  function EncodeBlock(b: Block): Bytes {
    FrameBlock(b.claimedHash, b.header.CanonicalBytes(), b.proposer, TailBytes(b))
  }

  /** Reads `count` entries starting at entry `i` of the body bytes. */
  function DecodeEntries(body: Bytes, i: nat, count: nat): Result<seq<SignedBytes>, BlockError>
    requires i <= count && ENTRY_LEN * count <= |body|
    decreases count - i
  {
    if i == count then Ok([])
    else if FromBe32(At(body, ENTRY_LEN * i, 4)) != SIGNED_LEN then Err(Frame(SignedLength, Some(i)))
    else match DecodeEntries(body, i + 1, count)
      case Err(e) => Err(e)
      case Ok(rest) => Ok([At(body, ENTRY_LEN * i + 4, 199)] + rest)
  }

  /** Everything after the proposer text. */
  function DecodeTail(s: Bytes, header: BlockHeader, claimedHash: Hash, proposer: Bytes): Result<Block, BlockError> {
    if |s| < 4 then Err(Frame(Truncation, None))
    else if FromBe32(At(s, 0, 4)) != 10 then Err(Frame(ProtocolDataLength, None))
    else if |s| < 14 then Err(Frame(Truncation, None))
    else match DecodeProtocolData(At(s, 4, 10))
      case None => Err(Frame(ProtocolDataBytes, None))
      case Some(data) =>
        if |s| < 22 then Err(Frame(Truncation, None))
        else
          var count := FromBe64(At(s, 14, 8));
          if count > MAX_BLOCK_TRANSACTIONS then Err(Frame(TransactionCount, None))
          else if ENTRY_LEN * count > |s| - 22 then Err(Frame(TruncatedBody, Some((|s| - 22) / ENTRY_LEN)))
          else match DecodeEntries(s[22..], 0, count)
            case Err(e) => Err(e)
            case Ok(transactions) =>
              if |s| != 22 + ENTRY_LEN * count then Err(Frame(TrailingBytes, None))
              else Ok(Block(header, claimedHash, proposer, data, transactions))
  }

  datatype BlockFrame = BlockFrame(claimedHash: Hash, header: BlockHeader, proposer: Bytes, tail: Bytes)

  function UnframeBlock(s: Bytes): Result<BlockFrame, BlockError> {
    if |s| > MAX_WIRE_BYTES then Err(Frame(EnvelopeSize, None))
    else if |s| < 1 then Err(Frame(Truncation, None))
    else if s[0] != EXPERIMENTAL_WIRE_VERSION then Err(Frame(WireVersion, None))
    else if |s| < 262 then Err(Frame(Truncation, None))
    else if DecodeHeader(At(s, 33, 229)).None? then Err(Frame(HeaderBytes, None))
    else if |s| < 266 then Err(Frame(Truncation, None))
    else
      var length := FromBe32(At(s, 262, 4));
      if length > MAX_PROPOSER_BYTES then Err(Frame(ProposerLength, None))
      else if |s| < 266 + length then Err(Frame(Truncation, None))
      else if !ValidUtf8(At(s, 266, length)) then Err(Frame(ProposerUtf8, None))
      else Ok(BlockFrame(At(s, 1, 32), DecodeHeader(At(s, 33, 229)).value, At(s, 266, length), s[266 + length..]))
  }

  function DecodeBlock(s: Bytes): Result<Block, BlockError> {
    match UnframeBlock(s)
    case Err(e) => Err(e)
    case Ok(f) => DecodeTail(f.tail, f.header, f.claimedHash, f.proposer)
  }

  /** The encoder that grows a buffer entry by entry. */
  method WireBytes(b: Block) returns (bytes: Bytes)
    ensures bytes == EncodeBlock(b)
  {
    var data := b.protocolData.CanonicalBytes();
    var entries: Bytes := [];
    for i := 0 to |b.transactions|
      invariant entries == EncodeEntries(b.transactions[..i])
    {
      assert b.transactions[..i + 1][..i] == b.transactions[..i];
      entries := entries + (ToBe(4, SIGNED_LEN) + b.transactions[i]);
    }
    assert b.transactions[..|b.transactions|] == b.transactions;
    bytes := FrameBlock(b.claimedHash, b.header.CanonicalBytes(), b.proposer,
      ToBe(4, |data|) + (data + (ToBe(8, |b.transactions|) + entries)));
  }

  /** The decoder's loop over entries at a moving offset. */
  method ReadEntries(body: Bytes, count: nat) returns (r: Result<seq<SignedBytes>, BlockError>)
    requires ENTRY_LEN * count <= |body|
    ensures r == DecodeEntries(body, 0, count)
  {
    var transactions: seq<SignedBytes> := [];
    var offset := 0;
    assert DecodeEntries(body, 0, count).Ok? ==>
      transactions + DecodeEntries(body, 0, count).value == DecodeEntries(body, 0, count).value;
    for i := 0 to count
      invariant offset == ENTRY_LEN * i
      invariant match DecodeEntries(body, i, count)
        case Err(e) => DecodeEntries(body, 0, count) == Err(e)
        case Ok(rest) => DecodeEntries(body, 0, count) == Ok(transactions + rest)
    {
      if FromBe32(At(body, offset, 4)) != SIGNED_LEN {
        return Err(Frame(SignedLength, Some(i)));
      }
      ghost var before := transactions;
      transactions := transactions + [At(body, offset + 4, 199)];
      offset := offset + ENTRY_LEN;
      if DecodeEntries(body, i + 1, count).Ok? {
        Regroup(before, At(body, ENTRY_LEN * i + 4, 199), DecodeEntries(body, i + 1, count).value);
      }
    }
    assert transactions + [] == transactions;
    return Ok(transactions);
  }

  lemma Regroup(front: seq<SignedBytes>, x: SignedBytes, rest: seq<SignedBytes>)
    ensures front + ([x] + rest) == front + [x] + rest
  {}

  // ----- the codec is a bijection -----

  /** Entry `k` of a body is a length prefix and a transaction. */
  predicate HasEntry(body: Bytes, k: nat, tx: SignedBytes) {
    && ENTRY_LEN * k + ENTRY_LEN <= |body|
    && At(body, ENTRY_LEN * k, 4) == ToBe(4, SIGNED_LEN)
    && At(body, ENTRY_LEN * k + 4, 199) == tx
  }

  lemma {:induction false} DecodeEntriesShape(body: Bytes, i: nat, count: nat)
    requires i <= count && ENTRY_LEN * count <= |body|
    requires DecodeEntries(body, i, count).Ok?
    ensures var txs := DecodeEntries(body, i, count).value;
      |txs| == count - i && forall k :: 0 <= k < |txs| ==> HasEntry(body, i + k, txs[k])
    decreases count - i
  {
    if i < count {
      var txs, rest := DecodeEntries(body, i, count).value, DecodeEntries(body, i + 1, count).value;
      DecodeEntriesShape(body, i + 1, count);
      Canonical32(At(body, ENTRY_LEN * i, 4));
      forall k | 0 <= k < |txs|
        ensures HasEntry(body, i + k, txs[k])
      {
        if k > 0 {
          assert txs[k] == rest[k - 1] && HasEntry(body, i + 1 + (k - 1), rest[k - 1]);
        }
      }
    }
  }

  lemma {:induction false} EncodedEntryAt(transactions: seq<SignedBytes>, k: nat)
    requires k < |transactions|
    ensures HasEntry(EncodeEntries(transactions), k, transactions[k])
  {
    var n := |transactions| - 1;
    var body, front := EncodeEntries(transactions), EncodeEntries(transactions[..n]);
    if k < n {
      EncodedEntryAt(transactions[..n], k);
      assert At(body, ENTRY_LEN * k, 4) == At(front, ENTRY_LEN * k, 4);
      assert At(body, ENTRY_LEN * k + 4, 199) == At(front, ENTRY_LEN * k + 4, 199);
    } else {
      TakeDrop(front, ToBe(4, SIGNED_LEN) + transactions[n]);
      Piece(body, ENTRY_LEN * n, ToBe(4, SIGNED_LEN), transactions[n]);
      assert transactions[n] == transactions[n] + [];
      Piece(body, ENTRY_LEN * n + 4, transactions[n], []);
    }
  }

  lemma ReadEncodedEntry(transactions: seq<SignedBytes>, i: nat)
    requires i < |transactions|
    ensures FromBe32(At(EncodeEntries(transactions), ENTRY_LEN * i, 4)) == SIGNED_LEN
    ensures At(EncodeEntries(transactions), ENTRY_LEN * i + 4, 199) == transactions[i]
  {
    EncodedEntryAt(transactions, i);
    RoundTrip32(SIGNED_LEN);
  }

  lemma {:induction false} DecodeEncodedEntries(transactions: seq<SignedBytes>, i: nat)
    requires i <= |transactions|
    ensures DecodeEntries(EncodeEntries(transactions), i, |transactions|) == Ok(transactions[i..])
    decreases |transactions| - i
  {
    if i < |transactions| {
      DecodeEncodedEntries(transactions, i + 1);
      ReadEncodedEntry(transactions, i);
      assert transactions[i..] == [transactions[i]] + transactions[i + 1..];
    } else {
      assert transactions[i..] == [];
    }
  }

  lemma EntryOfPrefix(body: Bytes, n: nat, k: nat, tx: SignedBytes)
    requires HasEntry(body, k, tx) && k < n && ENTRY_LEN * n <= |body|
    ensures HasEntry(body[..ENTRY_LEN * n], k, tx)
  {
    var front := body[..ENTRY_LEN * n];
    assert At(front, ENTRY_LEN * k, 4) == At(body, ENTRY_LEN * k, 4);
    assert At(front, ENTRY_LEN * k + 4, 199) == At(body, ENTRY_LEN * k + 4, 199);
  }

  lemma LastEntry(body: Bytes, n: nat, tx: SignedBytes)
    requires HasEntry(body, n, tx) && |body| == ENTRY_LEN * n + ENTRY_LEN
    ensures body == body[..ENTRY_LEN * n] + (ToBe(4, SIGNED_LEN) + tx)
  {
    Join(body, ENTRY_LEN * n, 4);
    assert body[ENTRY_LEN * n + 4..] == At(body, ENTRY_LEN * n + 4, 199);
    assert body == body[..ENTRY_LEN * n] + body[ENTRY_LEN * n..];
  }

  lemma {:induction false} EncodeDecodedEntries(body: Bytes, transactions: seq<SignedBytes>)
    requires |body| == ENTRY_LEN * |transactions|
    requires forall k :: 0 <= k < |transactions| ==> HasEntry(body, k, transactions[k])
    ensures EncodeEntries(transactions) == body
  {
    if transactions == [] {
      assert body == [];
    } else {
      var n := |transactions| - 1;
      forall k | 0 <= k < n
        ensures HasEntry(body[..ENTRY_LEN * n], k, transactions[..n][k])
      {
        EntryOfPrefix(body, n, k, transactions[k]);
      }
      EncodeDecodedEntries(body[..ENTRY_LEN * n], transactions[..n]);
      LastEntry(body, n, transactions[n]);
    }
  }

  /** Where the parts after the proposer text sit. */
  lemma TailFields(b: Block)
    requires b.protocolData.missedProposer.None?
    ensures var s := TailBytes(b);
      && |s| == 22 + ENTRY_LEN * |b.transactions|
      && At(s, 0, 4) == ToBe(4, 10) && At(s, 4, 10) == b.protocolData.CanonicalBytes()
      && At(s, 14, 8) == ToBe(8, |b.transactions|) && s[22..] == EncodeEntries(b.transactions)
  {
    var s := TailBytes(b);
    var data := b.protocolData.CanonicalBytes();
    var entries := EncodeEntries(b.transactions);
    assert |data| == 10;
    assert s[0..] == ToBe(4, 10) + (data + (ToBe(8, |b.transactions|) + entries));
    Piece(s, 0, ToBe(4, 10), data + (ToBe(8, |b.transactions|) + entries));
    Piece(s, 4, data, ToBe(8, |b.transactions|) + entries);
    Piece(s, 14, ToBe(8, |b.transactions|), entries);
  }

  lemma DecodeEncodedTail(b: Block)
    requires b.Bounded()
    ensures DecodeTail(TailBytes(b), b.header, b.claimedHash, b.proposer) == Ok(b)
    ensures |TailBytes(b)| == 22 + ENTRY_LEN * |b.transactions|
  {
    TailFields(b);
    RoundTrip32(10);
    RoundTrip64(|b.transactions|);
    DecodeEncodeProtocolData(b.protocolData);
    DecodeEncodedEntries(b.transactions, 0);
  }

  lemma EncodeDecodedTail(s: Bytes, header: BlockHeader, claimedHash: Hash, proposer: Bytes)
    requires DecodeTail(s, header, claimedHash, proposer).Ok?
    ensures var b := DecodeTail(s, header, claimedHash, proposer).value;
      && b.header == header && b.claimedHash == claimedHash && b.proposer == proposer
      && b.protocolData.missedProposer.None? && |b.transactions| <= MAX_BLOCK_TRANSACTIONS
      && TailBytes(b) == s
  {
    var b := DecodeTail(s, header, claimedHash, proposer).value;
    var count := FromBe64(At(s, 14, 8));
    EncodeDecodeProtocolData(At(s, 4, 10));
    DecodeEntriesShape(s[22..], 0, count);
    EncodeDecodedEntries(s[22..], b.transactions);
    Canonical32(At(s, 0, 4));
    Canonical64(At(s, 14, 8));
    assert s == s[0..];
    Join(s, 0, 4);
    Join(s, 4, 10);
    Join(s, 14, 8);
  }

  lemma FramePieces(s: Bytes, version: Bytes, hash: Bytes, header: Bytes, length: Bytes, proposer: Bytes, tail: Bytes)
    requires |version| == 1 && |hash| == 32 && |header| == 229 && |length| == 4
    requires s == version + (hash + (header + (length + (proposer + tail))))
    ensures |s| == 266 + |proposer| + |tail|
    ensures s[0] == version[0] && At(s, 1, 32) == hash && At(s, 33, 229) == header && At(s, 262, 4) == length
    ensures At(s, 266, |proposer|) == proposer && s[266 + |proposer|..] == tail
  {
    var s262 := length + (proposer + tail);
    var s33 := header + s262;
    assert s[0..] == version + (hash + s33);
    Piece(s, 0, version, hash + s33);
    Piece(s, 1, hash, s33);
    Piece(s, 33, header, s262);
    Piece(s, 262, length, proposer + tail);
    Piece(s, 266, proposer, tail);
    assert At(s, 0, 1)[0] == s[0];
  }

  /** Where each part of a block sits in its bytes: version 2, the claimed hash, the header, the proposer text
      with its length, the protocol data with its length, the number of entries, and the entries. */
  lemma BlockFields(b: Block)
    requires b.Bounded()
    ensures var s, n := EncodeBlock(b), |b.proposer|;
      && |s| == 288 + n + 203 * |b.transactions|
      && s[0] == 2 && At(s, 1, 32) == b.claimedHash && At(s, 33, 229) == b.header.CanonicalBytes()
      && At(s, 262, 4) == ToBe(4, n) && At(s, 266, n) == b.proposer
      && At(s, 266 + n, 4) == ToBe(4, 10) && At(s, 270 + n, 10) == b.protocolData.CanonicalBytes()
      && At(s, 280 + n, 8) == ToBe(8, |b.transactions|)
      && forall k :: 0 <= k < |b.transactions| ==> HasEntry(s[288 + n..], k, b.transactions[k])
  {
    var s, n, tail := EncodeBlock(b), |b.proposer|, TailBytes(b);
    FramePieces(s, [EXPERIMENTAL_WIRE_VERSION], b.claimedHash, b.header.CanonicalBytes(), ToBe(4, n), b.proposer, tail);
    TailFields(b);
    Shifted(s, 266 + n, tail, 0, 4);
    Shifted(s, 266 + n, tail, 4, 10);
    Shifted(s, 266 + n, tail, 14, 8);
    assert s[288 + n..] == tail[22..];
    forall k | 0 <= k < |b.transactions|
      ensures HasEntry(s[288 + n..], k, b.transactions[k])
    {
      EncodedEntryAt(b.transactions, k);
    }
  }

  lemma Shifted(s: Bytes, from: nat, tail: Bytes, i: nat, n: nat)
    requires from <= |s| && s[from..] == tail && i + n <= |tail|
    ensures At(s, from + i, n) == At(tail, i, n)
  {
    assert s[from..][i..i + n] == s[from + i..from + i + n];
  }

  lemma FrameLayout(s: Bytes, n: nat)
    requires 266 + n <= |s|
    ensures s == [s[0]] + (At(s, 1, 32) + (At(s, 33, 229) + (At(s, 262, 4) + (At(s, 266, n) + s[266 + n..]))))
  {
    assert s == s[0..] && At(s, 0, 1) == [s[0]];
    Join(s, 0, 1);
    Join(s, 1, 32);
    Join(s, 33, 229);
    Join(s, 262, 4);
    Join(s, 266, n);
  }

  lemma UnframeFramed(claimedHash: Hash, header: Bytes, proposer: Bytes, tail: Bytes)
    requires DecodeHeader(header).Some? && |header| == BLOCK_HEADER_LEN
    requires |proposer| <= MAX_PROPOSER_BYTES && ValidUtf8(proposer)
    requires 266 + |proposer| + |tail| <= MAX_WIRE_BYTES
    ensures var s := FrameBlock(claimedHash, header, proposer, tail);
      UnframeBlock(s) == Ok(BlockFrame(claimedHash, DecodeHeader(header).value, proposer, tail))
      && |s| == 266 + |proposer| + |tail|
  {
    FramePieces(FrameBlock(claimedHash, header, proposer, tail),
      [EXPERIMENTAL_WIRE_VERSION], claimedHash, header, ToBe(4, |proposer|), proposer, tail);
    RoundTrip32(|proposer|);
  }

  lemma FrameUnframed(s: Bytes)
    requires UnframeBlock(s).Ok?
    ensures var f := UnframeBlock(s).value;
      FrameBlock(f.claimedHash, f.header.CanonicalBytes(), f.proposer, f.tail) == s
      && |f.proposer| <= MAX_PROPOSER_BYTES && ValidUtf8(f.proposer)
  {
    FrameLayout(s, FromBe32(At(s, 262, 4)));
    EncodeDecodeHeader(At(s, 33, 229));
    Canonical32(At(s, 262, 4));
  }

  /** Decoding undoes encoding for every bounded block, whatever hash it claims. */
  lemma DecodeEncodeBlock(b: Block)
    requires b.Bounded()
    ensures DecodeBlock(EncodeBlock(b)) == Ok(b)
    ensures |EncodeBlock(b)| == 288 + |b.proposer| + ENTRY_LEN * |b.transactions|
  {
    DecodeEncodedTail(b);
    DecodeEncodeHeader(b.header);
    UnframeFramed(b.claimedHash, b.header.CanonicalBytes(), b.proposer, TailBytes(b));
  }

  /** Encoding undoes decoding, and a decoded block is bounded: in particular it never carries a missed
      proposer. */
  lemma EncodeDecodeBlock(s: Bytes)
    requires DecodeBlock(s).Ok?
    ensures DecodeBlock(s).value.Bounded()
    ensures EncodeBlock(DecodeBlock(s).value) == s
  {
    var f := UnframeBlock(s).value;
    FrameUnframed(s);
    EncodeDecodedTail(f.tail, f.header, f.claimedHash, f.proposer);
  }
}
