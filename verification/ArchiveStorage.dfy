/** The durable archive: tables, the full reload audit, and the one transaction an append performs
    (src/authenticated_fixture.rs, src/durable_fixture.rs). */
module ArchiveStorage {
  import opened Base
  import opened Crypto
  import opened NativeTransaction
  import opened NativeTransfer
  import opened BlockCommitment
  import opened NativeBlock
  import opened BlockAuthentication
  import opened Archive

  datatype BlockRow = BlockRow(
    hash: Hash, slot: u64, header: BlockHeader, proposer: Bytes, data: ProtocolData, parent: Hash,
    evidence: Option<(SignatureBytes, Hash)>)

  datatype BodyRow = BodyRow(hash: Hash, slot: u64, count: nat, gas: u64, burn: u64)

  /** The identifier, the indexed sender and nonce, and the exact signed bytes. */
  datatype TxRow = TxRow(id: Hash, key: NonceKey, signed: SignedBytes)

  /** Transaction rows are keyed by revision and position. */
  datatype TxKey = TxKey(revision: u64, position: nat)

  type TxTable = map<TxKey, TxRow>

  /** One durable file: metadata, tip, materialized state, and the archive tables keyed by revision. */
  datatype Disk = Disk(
    policy: Policy,
    barrier: u64,
    revision: u64,
    tip: Tip,
    accounts: map<Address, Account>,
    gas: u64,
    burn: u128,
    blocks: map<u64, BlockRow>,
    bodies: map<u64, BodyRow>,
    txs: TxTable)
  {
    /** `read_state`. */
    function State(): TransferState {
      TransferState(accounts, gas, burn)
    }
  }

  function BlockRowOf(r: Record): BlockRow {
    var b := r.Content();
    BlockRow(r.tip.hash, r.tip.slot, b.header, b.proposer, b.protocolData, b.header.parentHash, r.Evidence())
  }

  function BodyRowOf(r: Record): BodyRow {
    BodyRow(r.tip.hash, r.tip.slot, |r.Content().transactions|, r.outcome.gasUsed, r.outcome.feesBurned)
  }

  // ----- the reload audit -----

  /** The index columns of a row agree with its signed bytes. */
  predicate RowAgrees(row: TxRow) {
    SenderNonce(row.signed) == row.key && TransactionId(row.signed) == row.id
  }

  /** Positions 0..n-1 under a revision, every row consistent. */
  function ReadRows(m: TxTable, rev: u64, n: nat): Option<seq<SignedBytes>> {
    if n == 0 then Some([])
    else match ReadRows(m, rev, n - 1)
      case None => None
      case Some(txs) =>
        var key := TxKey(rev, n - 1);
        if key in m && RowAgrees(m[key]) then Some(txs + [m[key].signed]) else None
  }

  /** The body stored under a revision has exactly `n` entries. */
  function ReadBody(m: TxTable, rev: u64, n: nat): Option<seq<SignedBytes>> {
    if exists key :: key in m && key.revision == rev && key.position >= n then None else ReadRows(m, rev, n)
  }

  /** The loop over the rows of one body. */
  method ReadBodyRows(m: TxTable, rev: u64, n: nat) returns (r: Option<seq<SignedBytes>>)
    ensures r == ReadBody(m, rev, n)
  {
    if exists key :: key in m && key.revision == rev && key.position >= n {
      return None;
    }
    var txs: seq<SignedBytes> := [];
    for j := 0 to n
      invariant ReadRows(m, rev, j) == Some(txs)
    {
      var key := TxKey(rev, j);
      if key !in m || !RowAgrees(m[key]) {
        MissingRowStops(m, rev, j + 1, n);
        return None;
      }
      txs := txs + [m[key].signed];
    }
    return Some(txs);
  }

  lemma {:induction false} MissingRowStops(m: TxTable, rev: u64, i: nat, n: nat)
    requires i <= n && ReadRows(m, rev, i).None?
    ensures ReadRows(m, rev, n).None?
  {
    if i < n {
      MissingRowStops(m, rev, i, n - 1);
    }
  }

  /** Reconstructs and re-executes one stored record on top of what was loaded so far. */
  function LoadRecord(k: Rules, d: Disk, rev: u64, previous: Tip, audit: TransferState)
    : Result<(Record, TransferState), ArchiveError>
  {
    if rev !in d.blocks || rev !in d.bodies then Err(Invalid)
    else
      var row, body := d.blocks[rev], d.bodies[rev];
      if HeaderHash(row.header) != row.hash || row.header.slot != row.slot || row.header.parentHash != row.parent
         || body.hash != row.hash || body.slot != row.slot || body.count > MAX_BLOCK_TRANSACTIONS then Err(Invalid)
      else match ReadBody(d.txs, rev, body.count)
        case None => Err(Invalid)
        case Some(txs) =>
          if row.proposer == [] || !ValidUtf8(row.proposer) then Err(Invalid)
          else match FromParts(row.header, row.proposer, row.data, txs)
          case Err(e) => Err(BadBlock(e))
          case Ok(b) =>
            var outcome := Outcome(TransactionIds(txs), body.gas, body.burn);
            if rev == 0 then LoadAnchor(k, b, outcome, row)
            else LoadAppend(k, b, outcome, row, Tip(row.hash, row.slot, rev), previous, audit)
  }

  function LoadAnchor(k: Rules, b: Block, outcome: Outcome, row: BlockRow)
    : Result<(Record, TransferState), ArchiveError>
  {
    if Preflight(b, k.policy.context).Err? then Err(BadBlock(Preflight(b, k.policy.context).error))
    else if b != k.policy.anchor || outcome != EMPTY_OUTCOME || row.evidence.Some? then Err(Invalid)
    else Ok((TrustedAnchor(Tip(row.hash, row.slot, 0), b, outcome), k.policy.initial))
  }

  function LoadAppend(k: Rules, b: Block, outcome: Outcome, row: BlockRow, tip: Tip, previous: Tip,
                      audit: TransferState)
    : Result<(Record, TransferState), ArchiveError>
  {
    if previous.slot + 1 != tip.slot || b.header.parentHash != previous.hash || row.evidence.None? then Err(Invalid)
    else
      var e := Envelope(k.policy.context.networkId, b, row.evidence.value.0);
      var verdict := k.attest(e, Some(row.evidence.value.1));
      if verdict.Some? then Err(verdict.value)
      else match k.run(audit, b)
        case Err(error) => Err(error)
        case Ok(fx) => if fx.outcome != outcome then Err(Invalid) else Ok((Append(tip, e, outcome), fx.state))
  }

  /** The revisions at which the audit remembers its state: an attempt's base and the attempt itself. */
  datatype Marks = Marks(base: u64, attempt: u64)

  datatype Loading = Loading(
    snapshot: Snapshot,
    audit: TransferState,
    atBase: Option<TransferState>,
    atAttempt: Option<TransferState>)

  function Remember(marks: Option<Marks>, rev: u64, l: Loading): Loading {
    if marks.None? then l
    else Loading(
      l.snapshot, l.audit,
      if rev == marks.value.base then Some(l.audit) else l.atBase,
      if rev == marks.value.attempt then Some(l.audit) else l.atAttempt)
  }

  /** Reads and re-executes one stored record: revision, previous tip and audited state in, record and
      next audited state out. */
  type Reader = (u64, Tip, TransferState) -> Result<(Record, TransferState), ArchiveError>

  /** One round of the audit loop. */
  function LoadStep(read: Reader, marks: Option<Marks>, l: Loading, rev: u64): Result<Loading, ArchiveError> {
    match read(rev, l.snapshot.tip, l.audit)
    case Err(e) => Err(e)
    case Ok((r, audit)) =>
      match Insert(l.snapshot, r)
      case Err(e) => Err(e)
      case Ok(snapshot) => Ok(Remember(marks, rev, Loading(snapshot, audit, l.atBase, l.atAttempt)))
  }

  /** A fixed round of the loop: what was loaded so far and a revision in, what is loaded next out. */
  type Round = (Loading, u64) -> Result<Loading, ArchiveError>

  function LoadUpTo(round: Round, start: Loading, n: nat): Result<Loading, ArchiveError>
    requires n <= U64_LIMIT
  {
    if n == 0 then Ok(start)
    else match LoadUpTo(round, start, n - 1)
      case Err(e) => Err(e)
      case Ok(l) => round(l, n - 1)
  }

  function FinishLoad(d: Disk, l: Loading): Result<Loading, ArchiveError> {
    var s := l.snapshot;
    if s.records == [] || s.tip != d.tip || s.tip.revision != d.revision || |d.blocks| != |s.records|
       || |d.bodies| != |s.records| || |d.txs| != |s.transactions| || l.audit != s.state then Err(Invalid)
    else Ok(l)
  }

  function StartLoad(k: Rules, d: Disk): Loading {
    Loading(EmptySnapshot(d.State(), d.tip), k.policy.initial, None, None)
  }

  function ReaderOf(k: Rules, d: Disk): Reader {
    (rev: u64, previous: Tip, audit: TransferState) => LoadRecord(k, d, rev, previous, audit)
  }

  function RoundOf(read: Reader, marks: Option<Marks>): Round {
    (l: Loading, rev: u64) => LoadStep(read, marks, l, rev)
  }

  /** The complete audit of a file under a policy. */
  function Load(k: Rules, d: Disk, marks: Option<Marks>): Result<Loading, ArchiveError> {
    if d.policy != k.policy || |d.blocks| > U64_LIMIT then Err(Invalid)
    else match LoadUpTo(RoundOf(ReaderOf(k, d), marks), StartLoad(k, d), |d.blocks|)
      case Err(e) => Err(e)
      case Ok(l) => FinishLoad(d, l)
  }

  /** The loop over stored revisions. */
  method AuditLoop(round: Round, start: Loading, n: nat) returns (r: Result<Loading, ArchiveError>)
    requires n <= U64_LIMIT
    ensures r == LoadUpTo(round, start, n)
  {
    var l := start;
    for rev := 0 to n
      invariant LoadUpTo(round, start, rev) == Ok(l)
    {
      match round(l, rev)
      case Err(e) =>
        LoadFailureStops(round, start, rev + 1, n);
        return Err(e);
      case Ok(next) =>
        l := next;
    }
    return Ok(l);
  }

  /** `load_transaction`. */
  method LoadTransaction(k: Rules, d: Disk, marks: Option<Marks>) returns (r: Result<Loading, ArchiveError>)
    ensures r == Load(k, d, marks)
  {
    if d.policy != k.policy || |d.blocks| > U64_LIMIT {
      return Err(Invalid);
    }
    r := AuditLoop(RoundOf(ReaderOf(k, d), marks), StartLoad(k, d), |d.blocks|);
    if r.Ok? {
      r := FinishLoad(d, r.value);
    }
  }

  lemma {:induction false} LoadFailureStops(round: Round, start: Loading, i: nat, n: nat)
    requires i <= n <= U64_LIMIT && LoadUpTo(round, start, i).Err?
    ensures LoadUpTo(round, start, n) == LoadUpTo(round, start, i)
    decreases n
  {
    if i < n {
      LoadFailureStops(round, start, i, n - 1);
    }
  }

  // ----- what a file should contain -----

  predicate RowsOf(d: Disk, r: Record, i: u64) {
    && i in d.blocks && d.blocks[i] == BlockRowOf(r)
    && i in d.bodies && d.bodies[i] == BodyRowOf(r)
  }

  predicate HasTx(records: seq<Record>, key: TxKey) {
    key.revision < |records| && key.position < |records[key.revision].Content().transactions|
  }

  function RowOfTx(b: SignedBytes): TxRow {
    TxRow(TransactionId(b), SenderNonce(b), b)
  }

  /** The table has a row under this key exactly if the records have a transaction there, and then it is
      that transaction's row. */
  predicate TxAgrees(m: TxTable, records: seq<Record>, key: TxKey) {
    && (key in m <==> HasTx(records, key))
    && (key in m ==> m[key] == RowOfTx(records[key.revision].Content().transactions[key.position]))
  }

  /** One block row and one body row per record, and no others. */
  ghost predicate RecordTables(d: Disk, records: seq<Record>) {
    && |d.blocks| == |d.bodies| == |records|
    && (forall i: u64 :: i in d.blocks ==> i < |records|)
    && (forall i: u64 :: i in d.bodies ==> i < |records|)
    && (forall i: u64 :: i < |records| ==> RowsOf(d, records[i], i))
  }

  /** The file holds exactly the rows of the records, one by one, and nothing else. */
  ghost predicate Tables(d: Disk, records: seq<Record>) {
    RecordTables(d, records) && forall key :: TxAgrees(d.txs, records, key)
  }

  /** The file holds a snapshot: its tip, its state and exactly the rows of its records. */
  ghost predicate Holds(d: Disk, s: Snapshot) {
    && d.tip == s.tip && d.revision == s.tip.revision
    && d.State() == s.state
    && |d.txs| == |s.transactions|
    && Tables(d, s.records)
  }

  /** The file stands for a history. */
  ghost predicate Stored(k: Rules, d: Disk, h: seq<Envelope>) {
    IsHistory(k, h) && d.policy == k.policy && Holds(d, Rebuild(k, h).value)
  }

  /** What the policy constructor and the decoder establish about the trusted anchor. */
  predicate PolicyAnchored(p: Policy) {
    && Preflight(p.anchor, p.context).Ok?
    && p.anchor.Bounded()
    && p.anchor.transactions == []
  }

  lemma {:induction false} ReadStoredRows(m: TxTable, records: seq<Record>, i: u64, n: nat)
    requires forall key :: TxAgrees(m, records, key)
    requires i < |records| && n <= |records[i].Content().transactions|
    ensures ReadRows(m, i, n) == Some(records[i].Content().transactions[..n])
  {
    if n > 0 {
      ReadStoredRows(m, records, i, n - 1);
      assert TxAgrees(m, records, TxKey(i, n - 1));
      var txs := records[i].Content().transactions;
      assert txs[..n] == txs[..n - 1] + [txs[n - 1]];
    }
  }

  lemma ReadStoredBody(m: TxTable, records: seq<Record>, i: u64)
    requires forall key :: TxAgrees(m, records, key)
    requires i < |records|
    ensures ReadBody(m, i, |records[i].Content().transactions|) == Some(records[i].Content().transactions)
  {
    var txs := records[i].Content().transactions;
    forall key | key in m && key.revision == i
      ensures key.position < |txs|
    {
      assert TxAgrees(m, records, key);
    }
    ReadStoredRows(m, records, i, |txs|);
    assert txs[..|txs|] == txs;
  }

  lemma LoadStoredAnchor(k: Rules, d: Disk, records: seq<Record>, previous: Tip, audit: TransferState)
    requires Tables(d, records) && records != [] && records[0] == AnchorRecord(k.policy)
    requires PolicyAnchored(k.policy)
    ensures LoadRecord(k, d, 0, previous, audit) == Ok((records[0], k.policy.initial))
  {
    assert RowsOf(d, records[0], 0);
    ReadStoredBody(d.txs, records, 0);
    assert TransactionIds(k.policy.anchor.transactions) == [];
  }

  /** The audit of one appended record, from the facts that made it a record. */
  lemma LoadStoredAppend(k: Rules, d: Disk, records: seq<Record>, i: u64, s: Snapshot, s': Snapshot)
    requires Tables(d, records) && 0 < i < |records| && AppendOf(k, s, s', records[i], i)
    ensures LoadRecord(k, d, i, s.tip, s.state) == Ok((records[i], s'.state))
  {
    var r := records[i];
    assert RowsOf(d, r, i);
    ReadStoredBody(d.txs, records, i);
    assert Outcome(r.outcome.ids, r.outcome.gasUsed, r.outcome.feesBurned) == r.outcome;
    assert Envelope(k.policy.context.networkId, r.envelope.block, r.envelope.signature) == r.envelope;
  }

  lemma InsertKeepsState(s: Snapshot, r: Record, x: TransferState)
    ensures Insert(s, r).Ok? <==> Insert(s.(state := x), r).Ok?
    ensures Insert(s, r).Ok? ==> Insert(s.(state := x), r).value == Insert(s, r).value.(state := x)
  {
    var txs, ids := r.Content().transactions, r.outcome.ids;
    ClashIgnoresTip(s, s.(state := x), r.tip, r.tip, Keys(txs), ids, 0, Pairs(txs, ids));
  }

  /** What the audit has rebuilt after the anchor and `n` appends. */
  ghost predicate LoadedUpTo(k: Rules, d: Disk, marks: Option<Marks>, h: seq<Envelope>, n: nat, l: Loading)
    requires n <= |h|
  {
    && IsHistory(k, h[..n])
    && l.snapshot == Rebuild(k, h[..n]).value.(state := d.State())
    && l.audit == Rebuild(k, h[..n]).value.state
    && (marks.Some? ==>
          l.atBase == StateAt(k, h, marks.value.base, n) && l.atAttempt == StateAt(k, h, marks.value.attempt, n))
  }

  /** The state after `i` appends, if the audit has got that far. */
  function StateAt(k: Rules, h: seq<Envelope>, i: nat, n: nat): Option<TransferState> {
    if i > n || i > |h| then None
    else match Rebuild(k, h[..i])
      case None => None
      case Some(s) => Some(s.state)
  }

  lemma LoadsFirst(k: Rules, d: Disk, marks: Option<Marks>, h: seq<Envelope>)
    requires PolicyAnchored(k.policy) && Stored(k, d, h)
    requires marks.Some? ==> marks.value.base < marks.value.attempt
    ensures LoadStep(ReaderOf(k, d), marks, StartLoad(k, d), 0).Ok?
    ensures LoadedUpTo(k, d, marks, h, 0, LoadStep(ReaderOf(k, d), marks, StartLoad(k, d), 0).value)
  {
    RecordsPersist(k, h, 0);
    assert h[..0] == [];
    LoadStoredAnchor(k, d, Rebuild(k, h).value.records, d.tip, k.policy.initial);
    GenesisIsInserted(k.policy, d.State(), d.tip);
  }

  /** Everything that made record `n` of a history a record. */
  lemma AppendFacts(k: Rules, h: seq<Envelope>, n: nat) returns (s: Snapshot, s': Snapshot, r: Record)
    requires Lawful(k) && IsHistory(k, h) && 0 < n <= |h| && n < U64_LIMIT
    ensures Rebuild(k, h[..n - 1]) == Some(s) && Rebuild(k, h[..n]) == Some(s')
    ensures |Rebuild(k, h).value.records| == |h| + 1 && r == Rebuild(k, h).value.records[n]
    ensures AppendOf(k, s, s', r, n)
    ensures Insert(s.(state := s'.state), r) == Ok(s')
  {
    RecordOfEnvelope(k, h, n - 1);
    s, s' := PrefixStep(k, h, n);
    r := Rebuild(k, h).value.records[n];
    ExtensionFacts(k, s, h[n - 1], s', r, n);
  }

  /** Step `n` of a history. */
  lemma PrefixStep(k: Rules, h: seq<Envelope>, n: nat) returns (s: Snapshot, s': Snapshot)
    requires IsHistory(k, h) && 0 < n <= |h|
    ensures Rebuild(k, h[..n - 1]) == Some(s) && Rebuild(k, h[..n]) == Some(s')
    ensures Extend(k, s, h[n - 1]) == Some(s') && s.tip.revision == n - 1
  {
    RebuildPrefix(k, h, n);
    s := RebuildLast(k, h[..n]);
    assert h[..n][..n - 1] == h[..n - 1] && h[..n][n - 1] == h[n - 1];
    s' := Rebuild(k, h[..n]).value;
    RebuildRecords(k, h[..n - 1]);
  }

  lemma ExtensionFacts(k: Rules, s: Snapshot, e: Envelope, s': Snapshot, r: Record, n: u64)
    requires Lawful(k) && Extend(k, s, e) == Some(s') && s.tip.revision + 1 == n && k.run(s.state, e.block).Ok?
    requires r == Append(NextTip(s, e.block), e, k.run(s.state, e.block).value.outcome)
    ensures AppendOf(k, s, s', r, n)
    ensures Insert(s.(state := s'.state), r) == Ok(s')
  {
    ExtendShape(k, s, e);
    assert AttestationLaw(k, e) && ExecutionLaw(k, s.state, e.block);
    assert ClaimLaw(k, e, EnvelopeId(e));
  }

  /** Record `r` is what an accepted envelope left at revision `i`. */
  predicate AppendOf(k: Rules, s: Snapshot, s': Snapshot, r: Record, i: u64) {
    && r.Append?
    && k.attest(r.envelope, Some(EnvelopeId(r.envelope))).None? && Attested(k.policy, r.envelope)
    && r.tip == Tip(r.envelope.block.Hash(), r.envelope.block.header.slot, i)
    && s.tip.slot + 1 == r.tip.slot && r.envelope.block.header.parentHash == s.tip.hash
    && k.run(s.state, r.envelope.block) == Ok(Effects(s'.state, r.outcome))
    && r.outcome.ids == TransactionIds(r.envelope.block.transactions)
  }

  lemma StepInserts(read: Reader, marks: Option<Marks>, s: Snapshot, s': Snapshot, r: Record, x: TransferState,
                    l: Loading, rev: u64)
    requires Insert(s.(state := s'.state), r) == Ok(s') && l.snapshot == s.(state := x)
    requires read(rev, l.snapshot.tip, l.audit) == Ok((r, s'.state))
    ensures LoadStep(read, marks, l, rev)
         == Ok(Remember(marks, rev, Loading(s'.(state := x), s'.state, l.atBase, l.atAttempt)))
  {
    InsertKeepsState(s.(state := s'.state), r, x);
  }

  /** One round of the audit over an appended record. */
  lemma RoundNext(k: Rules, d: Disk, marks: Option<Marks>, records: seq<Record>, s: Snapshot, s': Snapshot, l: Loading,
                  n: u64)
    requires Tables(d, records) && 0 < n < |records| && AppendOf(k, s, s', records[n], n)
    requires Insert(s.(state := s'.state), records[n]) == Ok(s')
    requires l.snapshot == s.(state := d.State()) && l.audit == s.state
    ensures RoundOf(ReaderOf(k, d), marks)(l, n)
         == Ok(Remember(marks, n, Loading(s'.(state := d.State()), s'.state, l.atBase, l.atAttempt)))
  {
    LoadStoredAppend(k, d, records, n, s, s');
    StepInserts(ReaderOf(k, d), marks, s, s', records[n], d.State(), l, n);
  }

  lemma LoadedNext(k: Rules, d: Disk, marks: Option<Marks>, h: seq<Envelope>, n: nat, s': Snapshot, l: Loading)
    requires 0 < n <= |h| && n < U64_LIMIT && LoadedUpTo(k, d, marks, h, n - 1, l) && Rebuild(k, h[..n]) == Some(s')
    ensures LoadedUpTo(k, d, marks, h, n,
      Remember(marks, n, Loading(s'.(state := d.State()), s'.state, l.atBase, l.atAttempt)))
  {}

  lemma {:induction false} LoadsUpTo(k: Rules, d: Disk, marks: Option<Marks>, h: seq<Envelope>, n: nat)
    requires Lawful(k) && PolicyAnchored(k.policy) && Stored(k, d, h) && n <= |h| < U64_LIMIT
    requires marks.Some? ==> marks.value.base < marks.value.attempt
    ensures LoadUpTo(RoundOf(ReaderOf(k, d), marks), StartLoad(k, d), n + 1).Ok?
    ensures LoadedUpTo(k, d, marks, h, n, LoadUpTo(RoundOf(ReaderOf(k, d), marks), StartLoad(k, d), n + 1).value)
  {
    var round, start := RoundOf(ReaderOf(k, d), marks), StartLoad(k, d);
    if n == 0 {
      LoadsFirst(k, d, marks, h);
      assert LoadUpTo(round, start, 0) == Ok(start);
    } else {
      LoadsUpTo(k, d, marks, h, n - 1);
      var l := LoadUpTo(round, start, n).value;
      var s, s', r := AppendFacts(k, h, n);
      RoundNext(k, d, marks, Rebuild(k, h).value.records, s, s', l, n);
      LoadedNext(k, d, marks, h, n, s', l);
    }
  }

  /** Any file that stands for a history is accepted by the full reload audit, and the audit rebuilds
      exactly the snapshot of that history, together with the states at the two marked revisions. */
  lemma StoredLoads(k: Rules, d: Disk, marks: Option<Marks>, h: seq<Envelope>)
    requires Lawful(k) && PolicyAnchored(k.policy) && Stored(k, d, h)
    requires marks.Some? ==> marks.value.base < marks.value.attempt
    ensures Load(k, d, marks).Ok?
    ensures var l := Load(k, d, marks).value;
      && l.snapshot == Rebuild(k, h).value
      && (marks.Some? ==> l.atBase == StateAt(k, h, marks.value.base, |h|))
      && (marks.Some? ==> l.atAttempt == StateAt(k, h, marks.value.attempt, |h|))
  {
    RebuildRecords(k, h);
    LoadsUpTo(k, d, marks, h, |h|);
    assert h[..|h|] == h;
    FinishAccepts(d, Rebuild(k, h).value, LoadUpTo(RoundOf(ReaderOf(k, d), marks), StartLoad(k, d), |h| + 1).value);
  }

  lemma FinishAccepts(d: Disk, s: Snapshot, l: Loading)
    requires Holds(d, s) && s.records != [] && l.snapshot == s.(state := d.State()) && l.audit == s.state
    ensures l.snapshot == s && FinishLoad(d, l) == Ok(l)
  {}

  // ----- the append transaction -----

  /** The account rows that differ from the base. */
  function ChangedAccounts(base: TransferState, candidate: TransferState): map<Address, Account> {
    map a | a in candidate.accounts && !(a in base.accounts && base.accounts[a] == candidate.accounts[a])
      :: candidate.accounts[a]
  }

  /** The rows of one body. */
  function BodyTxRows(txs: seq<SignedBytes>, ids: seq<Hash>): seq<TxRow> {
    seq(Pairs(txs, ids), i requires 0 <= i < Pairs(txs, ids) => TxRow(ids[i], SenderNonce(txs[i]), txs[i]))
  }

  function InsertTxRows(m: TxTable, rev: u64, rows: seq<TxRow>, n: nat): TxTable
    requires n <= |rows|
  {
    if n == 0 then m else InsertTxRows(m, rev, rows, n - 1)[TxKey(rev, n - 1) := rows[n - 1]]
  }

  /** Every write of an append: changed accounts, accounting, block, body, transactions, revision, tip. */
  function WriteAppend(d: Disk, base: TransferState, candidate: TransferState, r: Record): Disk {
    var rows := BodyTxRows(r.Content().transactions, r.outcome.ids);
    d.(accounts := d.accounts + ChangedAccounts(base, candidate),
       gas := candidate.gasUsedTotal,
       burn := candidate.feesBurnedTotal,
       blocks := d.blocks[r.tip.revision := BlockRowOf(r)],
       bodies := d.bodies[r.tip.revision := BodyRowOf(r)],
       txs := InsertTxRows(d.txs, r.tip.revision, rows, |rows|),
       revision := r.tip.revision,
       tip := r.tip)
  }

  /** Upserting only what changed yields exactly the candidate, because no account ever disappears. */
  lemma UpsertIsComplete(base: TransferState, candidate: TransferState)
    requires base.accounts.Keys <= candidate.accounts.Keys
    ensures base.accounts + ChangedAccounts(base, candidate) == candidate.accounts
  {}

  lemma {:induction false} TxRowAt(m: TxTable, rev: u64, rows: seq<TxRow>, n: nat, key: TxKey)
    requires n <= |rows|
    ensures var m' := InsertTxRows(m, rev, rows, n);
      && (key in m' <==> key in m || (key.revision == rev && key.position < n))
      && (key in m && key.revision != rev ==> m'[key] == m[key])
      && (key.revision == rev && key.position < n ==> m'[key] == rows[key.position])
  {
    if n > 0 {
      TxRowAt(m, rev, rows, n - 1, key);
    }
  }

  lemma FreshKey<K, V>(m: map<K, V>, k: K, v: V)
    requires k !in m
    ensures |m[k := v]| == |m| + 1
  {}

  /** No row is stored under a revision. */
  ghost predicate Vacant(m: TxTable, rev: u64) {
    forall j: nat :: TxKey(rev, j) !in m
  }

  lemma {:induction false} TxRowCount(m: TxTable, rev: u64, rows: seq<TxRow>, n: nat)
    requires n <= |rows| && Vacant(m, rev)
    ensures |InsertTxRows(m, rev, rows, n)| == |m| + n
  {
    if n > 0 {
      TxRowCount(m, rev, rows, n - 1);
      TxRowAt(m, rev, rows, n - 1, TxKey(rev, n - 1));
      FreshKey(InsertTxRows(m, rev, rows, n - 1), TxKey(rev, n - 1), rows[n - 1]);
    }
  }

  lemma {:induction false} IndexedIdsCount(s: Snapshot, tip: Tip, keys: seq<NonceKey>, ids: seq<Hash>, n: nat)
    requires n <= |keys| && n <= |ids|
    requires forall j :: 0 <= j < n ==> !Clash(s, tip, keys, ids, j)
    ensures |IndexIds(s.transactions, tip, ids, n)| == |s.transactions| + n
  {
    if n > 0 {
      IndexedIdsCount(s, tip, keys, ids, n - 1);
      assert !Clash(s, tip, keys, ids, n - 1);
    }
  }

  lemma AppendKeepsTx(m: TxTable, records: seq<Record>, r: Record, rows: seq<TxRow>, key: TxKey)
    requires TxAgrees(m, records, key) && r.tip.revision == |records|
    requires rows == BodyTxRows(r.Content().transactions, TransactionIds(r.Content().transactions))
    ensures TxAgrees(InsertTxRows(m, r.tip.revision, rows, |rows|), records + [r], key)
  {
    TxRowAt(m, r.tip.revision, rows, |rows|, key);
  }

  /** The transaction rows after an append. */
  lemma AppendKeepsTxRows(m: TxTable, records: seq<Record>, r: Record, rows: seq<TxRow>)
    requires forall key :: TxAgrees(m, records, key)
    requires r.tip.revision == |records|
    requires rows == BodyTxRows(r.Content().transactions, TransactionIds(r.Content().transactions))
    ensures |InsertTxRows(m, r.tip.revision, rows, |rows|)| == |m| + |r.Content().transactions|
    ensures forall key :: TxAgrees(InsertTxRows(m, r.tip.revision, rows, |rows|), records + [r], key)
  {
    forall j: nat
      ensures TxKey(r.tip.revision, j) !in m
    {
      assert TxAgrees(m, records, TxKey(r.tip.revision, j));
    }
    assert Vacant(m, r.tip.revision);
    TxRowCount(m, r.tip.revision, rows, |rows|);
    forall key
      ensures TxAgrees(InsertTxRows(m, r.tip.revision, rows, |rows|), records + [r], key)
    {
      AppendKeepsTx(m, records, r, rows, key);
    }
  }

  lemma AppendKeepsRows(d: Disk, records: seq<Record>, d': Disk, r: Record)
    requires RecordTables(d, records) && r.tip.revision == |records|
    requires d'.blocks == d.blocks[r.tip.revision := BlockRowOf(r)]
    requires d'.bodies == d.bodies[r.tip.revision := BodyRowOf(r)]
    ensures RecordTables(d', records + [r])
  {
    var records' := records + [r];
    forall i: u64 | i < |records'|
      ensures RowsOf(d', records'[i], i)
    {
      if i < |records| {
        assert RowsOf(d, records[i], i);
      }
    }
  }

  lemma WriteHolds(d: Disk, s: Snapshot, s': Snapshot, r: Record)
    requires Holds(d, s) && s'.records == s.records + [r] && s'.tip == r.tip && r.tip.revision == |s.records|
    requires r.outcome.ids == TransactionIds(r.Content().transactions)
    requires |s'.transactions| == |s.transactions| + |r.Content().transactions|
    requires s.state.accounts.Keys <= s'.state.accounts.Keys
    ensures Holds(WriteAppend(d, s.state, s'.state, r), s')
  {
    AppendKeepsTxRows(d.txs, s.records, r, BodyTxRows(r.Content().transactions, r.outcome.ids));
    AppendKeepsRows(d, s.records, WriteAppend(d, s.state, s'.state, r), r);
    UpsertIsComplete(s.state, s'.state);
  }

  /** The append transaction takes a file that stands for a history to one that stands for the history
      with the new envelope. */
  lemma AppendStores(k: Rules, d: Disk, h: seq<Envelope>, e: Envelope)
    requires Lawful(k) && Stored(k, d, h) && Extend(k, Rebuild(k, h).value, e).Some?
    ensures var s := Rebuild(k, h).value; var s' := Extend(k, s, e).value;
      && |s'.records| == |h| + 2
      && Stored(k, WriteAppend(d, s.state, s'.state, s'.records[|h| + 1]), h + [e])
  {
    var s := Rebuild(k, h).value;
    var s', fx := Extend(k, s, e).value, k.run(s.state, e.block).value;
    ExtendShape(k, s, e);
    RebuildRecords(k, h);
    RebuildSnoc(k, h, e);
    assert ExecutionLaw(k, s.state, e.block);
    var r := s'.records[|h| + 1];
    InsertCounts(s.(state := fx.state), r);
    WriteHolds(d, s, s', r);
  }

  lemma InsertCounts(s: Snapshot, r: Record)
    requires Insert(s, r).Ok? && r.outcome.ids == TransactionIds(r.Content().transactions)
    ensures |Insert(s, r).value.transactions| == |s.transactions| + |r.Content().transactions|
  {
    var txs := r.Content().transactions;
    IndexedIdsCount(s, r.tip, Keys(txs), r.outcome.ids, |txs|);
  }

  /** What creation writes: the policy, the seeds as the materialized state, and the anchor rows. */
  function CreatedDisk(p: Policy): Disk {
    var r := AnchorRecord(p);
    Disk(p, 0, 0, r.tip, p.initial.accounts, p.initial.gasUsedTotal, p.initial.feesBurnedTotal,
         map[0 := BlockRowOf(r)], map[0 := BodyRowOf(r)], map[])
  }

  /** A created file stands for the empty history. */
  lemma CreationStores(k: Rules)
    requires PolicyAnchored(k.policy)
    ensures Stored(k, CreatedDisk(k.policy), [])
  {
    var d, s := CreatedDisk(k.policy), Genesis(k.policy);
    assert RowsOf(d, s.records[0], 0);
    forall key
      ensures TxAgrees(d.txs, s.records, key)
    {}
  }
}
