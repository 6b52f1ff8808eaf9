/** What the reload audit promises: it accepts exactly the files that stand for a history
    (src/authenticated_fixture.rs). */
module ArchiveAudit {
  import opened Base
  import opened Crypto
  import opened NativeTransaction
  import opened NativeTransfer
  import opened BlockCommitment
  import opened NativeBlock
  import opened BlockAuthentication
  import opened Archive
  import opened ArchiveStorage

  // ----- what reading one record establishes -----

  lemma {:induction false} RowsRead(m: TxTable, rev: u64, n: nat)
    requires ReadRows(m, rev, n).Some?
    ensures var txs := ReadRows(m, rev, n).value;
      |txs| == n && forall j :: 0 <= j < n ==> TxKey(rev, j) in m && m[TxKey(rev, j)] == RowOfTx(txs[j])
  {
    if n > 0 {
      RowsRead(m, rev, n - 1);
    }
  }

  /** The rows under a revision are those of a record, and no others. */
  ghost predicate RecordRead(d: Disk, r: Record, i: u64) {
    var txs := r.Content().transactions;
    && RowsOf(d, r, i)
    && (forall j :: 0 <= j < |txs| ==> TxKey(i, j) in d.txs && d.txs[TxKey(i, j)] == RowOfTx(txs[j]))
    && (forall key :: key in d.txs && key.revision == i ==> key.position < |txs|)
  }

  lemma BodyRead(m: TxTable, rev: u64, n: nat)
    requires ReadBody(m, rev, n).Some?
    ensures var txs := ReadBody(m, rev, n).value;
      && |txs| == n
      && (forall j :: 0 <= j < n ==> TxKey(rev, j) in m && m[TxKey(rev, j)] == RowOfTx(txs[j]))
      && (forall key :: key in m && key.revision == rev ==> key.position < n)
  {
    RowsRead(m, rev, n);
  }

  lemma PartsOf(header: BlockHeader, proposer: Bytes, data: ProtocolData, txs: seq<SignedBytes>)
    requires FromParts(header, proposer, data, txs).Ok?
    ensures var b := FromParts(header, proposer, data, txs).value;
      && b.header == header && b.proposer == proposer && b.protocolData == data && b.transactions == txs
      && b.Hash() == HeaderHash(header)
  {}

  /** A stored anchor that is read is the policy's. */
  lemma AnchorRead(k: Rules, d: Disk, previous: Tip, audit: TransferState)
    requires LoadRecord(k, d, 0, previous, audit).Ok?
    ensures LoadRecord(k, d, 0, previous, audit).value == (AnchorRecord(k.policy), k.policy.initial)
    ensures RecordRead(d, AnchorRecord(k.policy), 0)
  {
    var row, body := d.blocks[0], d.bodies[0];
    BodyRead(d.txs, 0, body.count);
    PartsOf(row.header, row.proposer, row.data, ReadBody(d.txs, 0, body.count).value);
  }

  /** A stored append that is read is an attested envelope at its place, re-executed with its outcome. */
  ghost predicate AppendRead(k: Rules, d: Disk, rev: u64, previous: Tip, audit: TransferState, r: Record,
                             audit': TransferState)
  {
    && r.Append? && RecordRead(d, r, rev) && k.attest(r.envelope, None).None?
    && r.tip == Tip(r.envelope.block.Hash(), r.envelope.block.header.slot, rev)
    && previous.slot + 1 == r.tip.slot && r.envelope.block.header.parentHash == previous.hash
    && k.run(audit, r.envelope.block) == Ok(Effects(audit', r.outcome))
  }

  lemma AppendIsRead(k: Rules, d: Disk, rev: u64, previous: Tip, audit: TransferState, r: Record,
                     audit': TransferState)
    requires Lawful(k) && rev > 0 && LoadRecord(k, d, rev, previous, audit) == Ok((r, audit'))
    ensures AppendRead(k, d, rev, previous, audit, r, audit')
  {
    var row, body := d.blocks[rev], d.bodies[rev];
    BodyRead(d.txs, rev, body.count);
    PartsOf(row.header, row.proposer, row.data, ReadBody(d.txs, rev, body.count).value);
    assert ClaimLaw(k, r.envelope, row.evidence.value.1);
  }

  // ----- what every round establishes -----

  /** The audit so far has rebuilt a history, and the file holds exactly its rows at the revisions read. */
  ghost predicate Audited(k: Rules, d: Disk, h: seq<Envelope>, l: Loading) {
    && IsHistory(k, h)
    && l.snapshot == Rebuild(k, h).value.(state := d.State()) && l.audit == Rebuild(k, h).value.state
    && |l.snapshot.records| == |h| + 1 && l.snapshot.tip.revision == |h|
    && forall i: u64 :: i <= |h| ==> RecordRead(d, l.snapshot.records[i], i)
  }

  lemma FirstRound(k: Rules, d: Disk, marks: Option<Marks>, l: Loading)
    requires LoadStep(ReaderOf(k, d), marks, StartLoad(k, d), 0) == Ok(l)
    ensures Audited(k, d, [], l)
  {
    AnchorRead(k, d, d.tip, k.policy.initial);
    GenesisIsInserted(k.policy, d.State(), d.tip);
  }

  /** An attested envelope that runs and can be inserted right above the tip extends the snapshot. */
  lemma ReadExtends(k: Rules, s: Snapshot, x: TransferState, r: Record, audit': TransferState)
    requires r.Append? && k.attest(r.envelope, None).None? && s.tip.revision + 1 < U64_LIMIT
    requires r.tip == NextTip(s, r.envelope.block) && s.tip.slot + 1 == r.tip.slot
    requires r.envelope.block.header.parentHash == s.tip.hash
    requires k.run(s.state, r.envelope.block) == Ok(Effects(audit', r.outcome))
    requires Insert(s.(state := x), r).Ok?
    ensures Extend(k, s, r.envelope).Some?
    ensures Extend(k, s, r.envelope).value.(state := x) == Insert(s.(state := x), r).value
    ensures Extend(k, s, r.envelope).value.state == audit'
  {
    InsertKeepsState(s.(state := x), r, audit');
    assert s.(state := x).(state := audit') == s.(state := audit');
  }

  lemma NextRound(k: Rules, d: Disk, marks: Option<Marks>, h: seq<Envelope>, l: Loading, l': Loading)
    returns (h': seq<Envelope>)
    requires Lawful(k) && Audited(k, d, h, l) && |h| + 1 < U64_LIMIT
    requires LoadStep(ReaderOf(k, d), marks, l, |h| + 1) == Ok(l')
    ensures |h'| == |h| + 1 && Audited(k, d, h', l')
  {
    var rev := |h| + 1;
    var loaded := LoadRecord(k, d, rev, l.snapshot.tip, l.audit).value;
    AppendIsRead(k, d, rev, l.snapshot.tip, l.audit, loaded.0, loaded.1);
    h' := h + [loaded.0.envelope];
    RoundExtends(k, d, h, l, loaded.0, loaded.1);
    assert l'.snapshot == Insert(l.snapshot, loaded.0).value && l'.audit == loaded.1;
    RowsSoFar(d, l.snapshot.records, loaded.0);
  }

  lemma RoundExtends(k: Rules, d: Disk, h: seq<Envelope>, l: Loading, r: Record, audit': TransferState)
    requires Audited(k, d, h, l) && |h| + 1 < U64_LIMIT && Insert(l.snapshot, r).Ok?
    requires AppendRead(k, d, |h| + 1, l.snapshot.tip, l.audit, r, audit')
    ensures var h', s' := h + [r.envelope], Insert(l.snapshot, r).value;
      && IsHistory(k, h') && s' == Rebuild(k, h').value.(state := d.State()) && audit' == Rebuild(k, h').value.state
      && s'.records == l.snapshot.records + [r] && s'.tip.revision == |h| + 1
  {
    ReadExtends(k, Rebuild(k, h).value, d.State(), r, audit');
    RebuildSnoc(k, h, r.envelope);
  }

  lemma RowsSoFar(d: Disk, records: seq<Record>, r: Record)
    requires |records| < U64_LIMIT && RecordRead(d, r, |records|)
    requires forall i: u64 :: i < |records| ==> RecordRead(d, records[i], i)
    ensures forall i: u64 :: i <= |records| ==> RecordRead(d, (records + [r])[i], i)
  {
    forall i: u64 | i <= |records|
      ensures RecordRead(d, (records + [r])[i], i)
    {
      if i < |records| {
        assert RecordRead(d, records[i], i);
      }
    }
  }

  lemma {:induction false} Rounds(k: Rules, d: Disk, marks: Option<Marks>, n: nat) returns (h: seq<Envelope>)
    requires Lawful(k) && 0 < n <= U64_LIMIT
    requires LoadUpTo(RoundOf(ReaderOf(k, d), marks), StartLoad(k, d), n).Ok?
    ensures |h| + 1 == n
    ensures Audited(k, d, h, LoadUpTo(RoundOf(ReaderOf(k, d), marks), StartLoad(k, d), n).value)
  {
    var round, start := RoundOf(ReaderOf(k, d), marks), StartLoad(k, d);
    var l' := LoadUpTo(round, start, n).value;
    if n == 1 {
      assert LoadUpTo(round, start, 0) == Ok(start);
      h := [];
      FirstRound(k, d, marks, l');
    } else {
      var front := Rounds(k, d, marks, n - 1);
      h := NextRound(k, d, marks, front, LoadUpTo(round, start, n - 1).value, l');
    }
  }

  // ----- nothing else is stored -----

  lemma SubsetOfSize<T>(a: set<T>, b: set<T>)
    requires a <= b && |a| == |b|
    ensures a == b
  {
    assert b == a + (b - a);
  }

  /** The numbers below n. */
  function Below(n: nat): (r: set<u64>)
    requires n <= U64_LIMIT
    ensures |r| == n && forall i: u64 :: i in r <==> i < n
  {
    if n == 0 then {} else Below(n - 1) + {n - 1}
  }

  /** A table with n rows that has all numbers below n has no other. */
  lemma NoOtherRow<V>(m: map<u64, V>, n: nat)
    requires |m| == n <= U64_LIMIT && forall i: u64 :: i < n ==> i in m
    ensures forall i: u64 :: i in m ==> i < n
  {
    SubsetOfSize(Below(n), m.Keys);
  }

  /** The keys of one body. */
  function BodyKeys(rev: u64, n: nat): set<TxKey> {
    if n == 0 then {} else BodyKeys(rev, n - 1) + {TxKey(rev, n - 1)}
  }

  lemma {:induction false} KeyIsOfBody(rev: u64, n: nat, key: TxKey)
    ensures key in BodyKeys(rev, n) <==> key.revision == rev && key.position < n
  {
    if n > 0 {
      KeyIsOfBody(rev, n - 1, key);
    }
  }

  lemma {:induction false} BodyKeysCount(rev: u64, n: nat)
    ensures |BodyKeys(rev, n)| == n
  {
    if n > 0 {
      BodyKeysCount(rev, n - 1);
      KeyIsOfBody(rev, n - 1, TxKey(rev, n - 1));
    }
  }

  /** The number of transactions in the first n records, and their keys. */
  function TxCount(records: seq<Record>, n: nat): nat
    requires n <= |records|
  {
    if n == 0 then 0 else TxCount(records, n - 1) + |records[n - 1].Content().transactions|
  }

  function KeysBelow(records: seq<Record>, n: nat): set<TxKey>
    requires n <= |records| && n <= U64_LIMIT
  {
    if n == 0 then {}
    else KeysBelow(records, n - 1) + BodyKeys(n - 1, |records[n - 1].Content().transactions|)
  }

  lemma {:induction false} KeyIsBelow(records: seq<Record>, n: nat, key: TxKey)
    requires n <= |records| && n <= U64_LIMIT
    ensures key in KeysBelow(records, n) <==> key.revision < n && HasTx(records, key)
  {
    if n > 0 {
      KeyIsBelow(records, n - 1, key);
      KeyIsOfBody(n - 1, |records[n - 1].Content().transactions|, key);
    }
  }

  lemma BodyIsNew(records: seq<Record>, n: nat, size: nat)
    requires n <= |records| && n < U64_LIMIT
    ensures forall key :: key in BodyKeys(n, size) ==> key !in KeysBelow(records, n)
  {
    forall key | key in BodyKeys(n, size)
      ensures key !in KeysBelow(records, n)
    {
      KeyIsBelow(records, n, key);
      KeyIsOfBody(n, size, key);
    }
  }

  lemma {:induction false} KeysCount(records: seq<Record>, n: nat)
    requires n <= |records| && n <= U64_LIMIT
    ensures |KeysBelow(records, n)| == TxCount(records, n)
  {
    if n > 0 {
      var size := |records[n - 1].Content().transactions|;
      KeysCount(records, n - 1);
      BodyKeysCount(n - 1, size);
      BodyIsNew(records, n - 1, size);
      DisjointCount(KeysBelow(records, n - 1), BodyKeys(n - 1, size));
    }
  }

  lemma DisjointCount<T>(a: set<T>, b: set<T>)
    requires forall x :: x in b ==> x !in a
    ensures |a + b| == |a| + |b|
  {
    assert a !! b;
  }

  lemma {:induction false} TxCountPrefix(records: seq<Record>, r: Record, n: nat)
    requires n <= |records|
    ensures TxCount(records + [r], n) == TxCount(records, n)
  {
    if n > 0 {
      TxCountPrefix(records, r, n - 1);
    }
  }

  lemma ExtendCounts(k: Rules, s: Snapshot, e: Envelope)
    requires Lawful(k) && Extend(k, s, e).Some?
    ensures |Extend(k, s, e).value.transactions| == |s.transactions| + |e.block.transactions|
  {
    ExtendShape(k, s, e);
    assert ExecutionLaw(k, s.state, e.block);
    var fx := k.run(s.state, e.block).value;
    InsertCounts(s.(state := fx.state), Append(NextTip(s, e.block), e, fx.outcome));
  }

  /** A history indexes as many transactions as its records have. */
  lemma {:induction false} HistoryCounts(k: Rules, h: seq<Envelope>)
    requires Lawful(k) && PolicyAnchored(k.policy) && IsHistory(k, h)
    ensures var s := Rebuild(k, h).value; |s.records| == |h| + 1 && |s.transactions| == TxCount(s.records, |h| + 1)
  {
    RebuildRecords(k, h);
    if h != [] {
      var s := RebuildLast(k, h);
      HistoryCounts(k, h[..|h| - 1]);
      ExtendShape(k, s, h[|h| - 1]);
      ExtendCounts(k, s, h[|h| - 1]);
      TxCountPrefix(s.records, Rebuild(k, h).value.records[|h|], |h|);
    }
  }

  lemma ReadTables(d: Disk, records: seq<Record>)
    requires |records| <= U64_LIMIT && |d.blocks| == |d.bodies| == |records|
    requires forall i: u64 :: i < |records| ==> RecordRead(d, records[i], i)
    ensures RecordTables(d, records)
  {
    forall i: u64 | i < |records|
      ensures i in d.blocks && i in d.bodies && RowsOf(d, records[i], i)
    {
      assert RecordRead(d, records[i], i);
    }
    NoOtherRow(d.blocks, |records|);
    NoOtherRow(d.bodies, |records|);
  }

  lemma ReadTxs(d: Disk, records: seq<Record>)
    requires |records| <= U64_LIMIT && |d.txs| == TxCount(records, |records|)
    requires forall i: u64 :: i < |records| ==> RecordRead(d, records[i], i)
    ensures forall key :: TxAgrees(d.txs, records, key)
  {
    var keys := KeysBelow(records, |records|);
    forall key | key in keys
      ensures key in d.txs.Keys
    {
      KeyIsBelow(records, |records|, key);
      TxIsRead(d, records, key);
    }
    KeysCount(records, |records|);
    SubsetOfSize(keys, d.txs.Keys);
    forall key
      ensures TxAgrees(d.txs, records, key)
    {
      KeyIsBelow(records, |records|, key);
      if HasTx(records, key) {
        TxIsRead(d, records, key);
      }
    }
  }

  lemma TxIsRead(d: Disk, records: seq<Record>, key: TxKey)
    requires HasTx(records, key) && RecordRead(d, records[key.revision], key.revision)
    ensures key in d.txs && d.txs[key] == RowOfTx(records[key.revision].Content().transactions[key.position])
  {
    assert key == TxKey(key.revision, key.position);
  }

  // ----- the audit is exact -----

  /** Whatever the audit accepts stands for a history, the one whose snapshot it returns. */
  lemma LoadedIsStored(k: Rules, d: Disk, marks: Option<Marks>) returns (h: seq<Envelope>)
    requires Lawful(k) && PolicyAnchored(k.policy) && Load(k, d, marks).Ok?
    ensures Stored(k, d, h) && Load(k, d, marks).value.snapshot == Rebuild(k, h).value
  {
    var l := LoadUpTo(RoundOf(ReaderOf(k, d), marks), StartLoad(k, d), |d.blocks|).value;
    h := Rounds(k, d, marks, |d.blocks|);
    FinishedHolds(k, d, h, l);
  }

  lemma FinishedHolds(k: Rules, d: Disk, h: seq<Envelope>, l: Loading)
    requires Lawful(k) && PolicyAnchored(k.policy) && Audited(k, d, h, l) && |h| + 1 <= U64_LIMIT
    requires FinishLoad(d, l).Ok?
    ensures l.snapshot == Rebuild(k, h).value && Holds(d, l.snapshot)
  {
    HistoryCounts(k, h);
    ReadTables(d, l.snapshot.records);
    ReadTxs(d, l.snapshot.records);
  }

  /** The audit accepts a file exactly if the file stands for a history. */
  lemma AuditIsExact(k: Rules, d: Disk)
    requires Lawful(k) && PolicyAnchored(k.policy)
    ensures Load(k, d, None).Ok? <==> exists h :: Stored(k, d, h)
  {
    if Load(k, d, None).Ok? {
      var h := LoadedIsStored(k, d, None);
    } else {
      forall h | Stored(k, d, h)
        ensures false
      {
        StoredLoads(k, d, None, h);
      }
    }
  }
}
