/** Header and protocol-data layouts with their commitments (src/block_commitment.rs). */
module BlockCommitment {
  import opened Base
  import opened Crypto
  import opened BigEndian
  import opened Slices

  const BLOCK_HEADER_LEN: nat := 229

  const PLACEHOLDER_STATE_ROOT: Hash := ZERO_HASH

  /** The commitment to an empty list of receipts. */
  const EMPTY_RECEIPTS_ROOT: Hash

  /** Header hash: the header domain and the 229 canonical bytes. */
  const HeaderHash: BlockHeader -> Hash

  /** Protocol-data root: the protocol-data domain and the canonical bytes. */
  const ProtocolDataRoot: ProtocolData -> Hash

  /** Commits to the number of identifiers and their order. */
  const TransactionRoot: seq<Hash> -> Hash

  /** Length-prefixed commitment to the exact proposer text. */
  const ProposerId: Bytes -> Hash

  predicate Continues(b: byte) {
    0x80 <= b <= 0xBF
  }

  /** The width of the well-formed character at the start of a text, zero if there is none
      (section 4 of RFC 3629). */
  function CharWidth(s: Bytes): (n: nat)
    ensures n <= |s|
  {
    if |s| >= 1 && s[0] < 0x80 then 1
    else if |s| >= 2 && 0xC2 <= s[0] <= 0xDF && Continues(s[1]) then 2
    else if |s| >= 3 && Continues(s[2]) && ((s[0] == 0xE0 && 0xA0 <= s[1] <= 0xBF)
         || ((0xE1 <= s[0] <= 0xEC || 0xEE <= s[0] <= 0xEF) && Continues(s[1]))
         || (s[0] == 0xED && 0x80 <= s[1] <= 0x9F)) then 3
    else if |s| >= 4 && Continues(s[2]) && Continues(s[3]) && ((s[0] == 0xF0 && 0x90 <= s[1] <= 0xBF)
         || (0xF1 <= s[0] <= 0xF3 && Continues(s[1])) || (s[0] == 0xF4 && 0x80 <= s[1] <= 0x8F)) then 4
    else 0
  }

  /** UTF-8 validity; text is modelled by its bytes. */
  predicate ValidUtf8(s: Bytes)
    decreases |s|
  {
    s == [] || (CharWidth(s) > 0 && ValidUtf8(s[CharWidth(s)..]))
  }

  datatype BlockKind = Validator | ProtocolMiss | ProtocolCollision | ProtocolNoTickets {
    function Code(): (c: byte)
      ensures KindOfCode(c) == Some(this)
    {
      match this
      case Validator => 0
      case ProtocolMiss => 1
      case ProtocolNoTickets => 2
      case ProtocolCollision => 3
    }
  }

  function KindOfCode(code: byte): (k: Option<BlockKind>)
    ensures k.Some? <==> code <= 3
  {
    if code == 0 then Some(Validator)
    else if code == 1 then Some(ProtocolMiss)
    else if code == 2 then Some(ProtocolNoTickets)
    else if code == 3 then Some(ProtocolCollision)
    else None
  }

  lemma CodeOfKind(code: byte)
    requires code <= 3
    ensures KindOfCode(code).value.Code() == code
  {}

  datatype BlockHeader = BlockHeader(
    protocolVersion: u32,
    chainId: u64,
    slot: u64,
    kind: BlockKind,
    parentHash: Hash,
    proposerId: Hash,
    ticketId: u64,
    transactionRoot: Hash,
    stateRoot: Hash,
    receiptsRoot: Hash,
    gasUsed: u64,
    protocolDataRoot: Hash)
  {
    function CanonicalBytes(): (b: Bytes)
      ensures |b| == BLOCK_HEADER_LEN
    {
      ToBe(4, protocolVersion) + (ToBe(8, chainId) + (ToBe(8, slot) + ([kind.Code()] + (parentHash
      + (proposerId + (ToBe(8, ticketId) + (transactionRoot + (stateRoot + (receiptsRoot
      + (ToBe(8, gasUsed) + protocolDataRoot))))))))))
    }
  }

  function DecodeHeader(b: Bytes): Option<BlockHeader> {
    if |b| != BLOCK_HEADER_LEN || KindOfCode(b[20]).None? then None
    else Some(BlockHeader(
      FromBe32(At(b, 0, 4)), FromBe64(At(b, 4, 8)), FromBe64(At(b, 12, 8)), KindOfCode(b[20]).value,
      At(b, 21, 32), At(b, 53, 32), FromBe64(At(b, 85, 8)), At(b, 93, 32), At(b, 125, 32),
      At(b, 157, 32), FromBe64(At(b, 189, 8)), At(b, 197, 32)))
  }

  lemma HeaderPieces(b: Bytes, version: Bytes, chain: Bytes, slot: Bytes, kind: Bytes, parent: Bytes, proposer: Bytes,
                     ticket: Bytes, txRoot: Bytes, stateRoot: Bytes, receipts: Bytes, gas: Bytes, data: Bytes)
    requires |version| == 4 && |kind| == 1 && |chain| == |slot| == |ticket| == |gas| == 8
    requires |parent| == |proposer| == |txRoot| == |stateRoot| == |receipts| == |data| == 32
    requires b == version + (chain + (slot + (kind + (parent + (proposer + (ticket + (txRoot + (stateRoot + (receipts
      + (gas + data))))))))))
    ensures |b| == BLOCK_HEADER_LEN
    ensures At(b, 0, 4) == version && At(b, 4, 8) == chain && At(b, 12, 8) == slot && b[20] == kind[0]
    ensures At(b, 21, 32) == parent && At(b, 53, 32) == proposer && At(b, 85, 8) == ticket
    ensures At(b, 93, 32) == txRoot && At(b, 125, 32) == stateRoot && At(b, 157, 32) == receipts
    ensures At(b, 189, 8) == gas && At(b, 197, 32) == data
  {
    var s189 := gas + data;
    var s157 := receipts + s189;
    var s125 := stateRoot + s157;
    var s93 := txRoot + s125;
    var s85 := ticket + s93;
    var s53 := proposer + s85;
    var s21 := parent + s53;
    var s20 := kind + s21;
    var s12 := slot + s20;
    var s4 := chain + s12;
    assert b[0..] == version + s4;
    Piece(b, 0, version, s4);
    Piece(b, 4, chain, s12);
    Piece(b, 12, slot, s20);
    Piece(b, 20, kind, s21);
    Piece(b, 21, parent, s53);
    Piece(b, 53, proposer, s85);
    Piece(b, 85, ticket, s93);
    Piece(b, 93, txRoot, s125);
    Piece(b, 125, stateRoot, s157);
    Piece(b, 157, receipts, s189);
    Piece(b, 189, gas, data);
    assert data == data + [];
    Piece(b, 197, data, []);
    assert At(b, 20, 1)[0] == b[20];
  }

  lemma HeaderLayout(b: Bytes)
    requires |b| == BLOCK_HEADER_LEN
    ensures b == At(b, 0, 4) + (At(b, 4, 8) + (At(b, 12, 8) + ([b[20]] + (At(b, 21, 32) + (At(b, 53, 32)
      + (At(b, 85, 8) + (At(b, 93, 32) + (At(b, 125, 32) + (At(b, 157, 32) + (At(b, 189, 8) + At(b, 197, 32)))))))))))
  {
    assert b == b[0..] && At(b, 197, 32) == b[197..];
    assert At(b, 20, 1) == [b[20]];
    Join(b, 0, 4);
    Join(b, 4, 8);
    Join(b, 12, 8);
    Join(b, 20, 1);
    Join(b, 21, 32);
    Join(b, 53, 32);
    Join(b, 85, 8);
    Join(b, 93, 32);
    Join(b, 125, 32);
    Join(b, 157, 32);
    Join(b, 189, 8);
  }

  /** Where each field of a header sits in its bytes. */
  lemma HeaderFields(h: BlockHeader)
    ensures var b := h.CanonicalBytes();
      && At(b, 0, 4) == ToBe(4, h.protocolVersion) && At(b, 4, 8) == ToBe(8, h.chainId)
      && At(b, 12, 8) == ToBe(8, h.slot) && b[20] == h.kind.Code() && At(b, 21, 32) == h.parentHash
      && At(b, 53, 32) == h.proposerId && At(b, 85, 8) == ToBe(8, h.ticketId) && At(b, 93, 32) == h.transactionRoot
      && At(b, 125, 32) == h.stateRoot && At(b, 157, 32) == h.receiptsRoot && At(b, 189, 8) == ToBe(8, h.gasUsed)
      && At(b, 197, 32) == h.protocolDataRoot
  {
    HeaderPieces(h.CanonicalBytes(), ToBe(4, h.protocolVersion), ToBe(8, h.chainId), ToBe(8, h.slot), [h.kind.Code()],
      h.parentHash, h.proposerId, ToBe(8, h.ticketId), h.transactionRoot, h.stateRoot, h.receiptsRoot,
      ToBe(8, h.gasUsed), h.protocolDataRoot);
  }

  /** The code of each kind of block. */
  lemma KindCodes(k: BlockKind)
    ensures k.Code() == 0 <==> k == Validator
    ensures k.Code() == 1 <==> k == ProtocolMiss
    ensures k.Code() == 2 <==> k == ProtocolNoTickets
    ensures k.Code() == 3 <==> k == ProtocolCollision
  {}

  lemma DecodeEncodeHeader(h: BlockHeader)
    ensures DecodeHeader(h.CanonicalBytes()) == Some(h)
  {
    HeaderFields(h);
    RoundTrip32(h.protocolVersion);
    RoundTrip64(h.chainId);
    RoundTrip64(h.slot);
    RoundTrip64(h.ticketId);
    RoundTrip64(h.gasUsed);
  }

  lemma EncodeDecodeHeader(b: Bytes)
    requires DecodeHeader(b).Some?
    ensures DecodeHeader(b).value.CanonicalBytes() == b
  {
    HeaderLayout(b);
    Canonical32(At(b, 0, 4));
    Canonical64(At(b, 4, 8));
    Canonical64(At(b, 12, 8));
    Canonical64(At(b, 85, 8));
    Canonical64(At(b, 189, 8));
    CodeOfKind(b[20]);
  }

  datatype ProtocolData = ProtocolData(feesBurned: u64, missedProposer: Option<Bytes>) {
    /** The missed proposer, if any, is text whose length fits its 32-bit prefix. */
    predicate Valid() {
      missedProposer.Some? ==> ValidUtf8(missedProposer.value) && |missedProposer.value| < U32_LIMIT
    }

    function CanonicalBytes(): Bytes {
      [1] + (ToBe(8, feesBurned) + match missedProposer
        case None => [0]
        case Some(p) => [1] + (ToBe(4, |p|) + p))
    }
  }

  function DecodeProtocolData(b: Bytes): Option<ProtocolData> {
    if |b| < 10 || b[0] != 1 then None
    else
      var fees := FromBe64(At(b, 1, 8));
      if b[9] == 0 then
        if |b| == 10 then Some(ProtocolData(fees, None)) else None
      else if b[9] == 1 && |b| >= 14 && |b| == 14 + FromBe32(At(b, 10, 4)) && ValidUtf8(b[14..]) then
        Some(ProtocolData(fees, Some(b[14..])))
      else None
  }

  /** Where each field of protocol data sits in its bytes: a version, the burned fees, a flag, and the missed
      proposer with its length. */
  lemma ProtocolDataFields(d: ProtocolData)
    ensures var b := d.CanonicalBytes();
      && |b| == (if d.missedProposer.None? then 10 else 14 + |d.missedProposer.value|)
      && b[0] == 1 && At(b, 1, 8) == ToBe(8, d.feesBurned) && b[9] == (if d.missedProposer.None? then 0 else 1)
      && (d.missedProposer.Some? ==>
            At(b, 10, 4) == ToBe(4, |d.missedProposer.value|) && b[14..] == d.missedProposer.value)
  {
    var b := d.CanonicalBytes();
    var s9 := match d.missedProposer
      case None => [0]
      case Some(p) => [1] + (ToBe(4, |p|) + p);
    assert b[0..] == [1] + (ToBe(8, d.feesBurned) + s9);
    Piece(b, 0, [1], ToBe(8, d.feesBurned) + s9);
    Piece(b, 1, ToBe(8, d.feesBurned), s9);
    assert b[9..][0] == b[9];
    if d.missedProposer.Some? {
      var p := d.missedProposer.value;
      Piece(b, 9, [1], ToBe(4, |p|) + p);
      Piece(b, 10, ToBe(4, |p|), p);
    }
  }

  lemma DecodeEncodeProtocolData(d: ProtocolData)
    requires d.Valid()
    ensures DecodeProtocolData(d.CanonicalBytes()) == Some(d)
  {
    ProtocolDataFields(d);
    RoundTrip64(d.feesBurned);
    if d.missedProposer.Some? {
      RoundTrip32(|d.missedProposer.value|);
    }
  }

  lemma EncodeDecodeProtocolData(b: Bytes)
    requires DecodeProtocolData(b).Some?
    ensures DecodeProtocolData(b).value.Valid()
    ensures DecodeProtocolData(b).value.CanonicalBytes() == b
  {
    Canonical64(At(b, 1, 8));
    assert b == b[0..];
    Join(b, 0, 1);
    Join(b, 1, 8);
    Join(b, 9, 1);
    assert At(b, 0, 1) == [b[0]] && At(b, 9, 1) == [b[9]];
    if b[9] == 0 {
      assert b[10..] == [];
    } else {
      Canonical32(At(b, 10, 4));
      Join(b, 10, 4);
    }
  }
}
