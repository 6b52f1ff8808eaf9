/** What the owner answers, exactly: what its indexes hold, which envelopes it stages, and how a commit ends under
    every behaviour of the storage layer (src/authenticated_fixture.rs). */
module ArchiveCommits {
  import opened Base
  import opened Crypto
  import opened NativeTransaction
  import opened NativeTransfer
  import opened BlockCommitment
  import opened NativeBlock
  import opened BlockAuthentication
  import opened Archive
  import opened ArchiveStorage
  import opened ArchiveOwner
  import opened ArchiveRuns

  // ----- the indexes of a snapshot -----

  /** Both transaction indexes name this record and position for a transaction. */
  predicate TxAt(s: Snapshot, r: Record, j: nat)
    requires j < |r.Content().transactions|
  {
    var b := r.Content().transactions[j];
    && TransactionId(b) in s.transactions && s.transactions[TransactionId(b)] == Membership(r.tip, j)
    && SenderNonce(b) in s.senderNonces && s.senderNonces[SenderNonce(b)] == Membership(r.tip, j)
  }

  /** All indexes name this record: by hash, by slot, and by each of its transactions. */
  ghost predicate RecordAt(s: Snapshot, r: Record) {
    && r.tip.hash in s.hashes && s.hashes[r.tip.hash] == r.tip
    && r.tip.slot in s.slots && s.slots[r.tip.slot] == r.tip.hash
    && forall j :: 0 <= j < |r.Content().transactions| ==> TxAt(s, r, j)
  }

  lemma {:induction false} IndexedIdAt(s: Snapshot, tip: Tip, keys: seq<NonceKey>, ids: seq<Hash>, n: nat, j: nat)
    requires j < n <= |keys| && n <= |ids| && forall i :: 0 <= i < n ==> !Clash(s, tip, keys, ids, i)
    ensures ids[j] in IndexIds(s.transactions, tip, ids, n)
    ensures IndexIds(s.transactions, tip, ids, n)[ids[j]] == Membership(tip, j)
    ensures keys[j] in IndexNonces(s.senderNonces, tip, keys, n)
    ensures IndexNonces(s.senderNonces, tip, keys, n)[keys[j]] == Membership(tip, j)
  {
    if j < n - 1 {
      IndexedIdAt(s, tip, keys, ids, n - 1, j);
      assert !Clash(s, tip, keys, ids, n - 1);
    }
  }

  lemma {:induction false} IndexKeeps(s: Snapshot, tip: Tip, keys: seq<NonceKey>, ids: seq<Hash>, n: nat)
    requires n <= |keys| && n <= |ids| && forall i :: 0 <= i < n ==> !Clash(s, tip, keys, ids, i)
    ensures forall id :: id in s.transactions ==>
      id in IndexIds(s.transactions, tip, ids, n) && IndexIds(s.transactions, tip, ids, n)[id] == s.transactions[id]
    ensures forall key :: key in s.senderNonces ==>
      key in IndexNonces(s.senderNonces, tip, keys, n)
      && IndexNonces(s.senderNonces, tip, keys, n)[key] == s.senderNonces[key]
  {
    if n > 0 {
      IndexKeeps(s, tip, keys, ids, n - 1);
      assert !Clash(s, tip, keys, ids, n - 1);
    }
  }

  /** Insertion adds exactly its own entries to the indexes, and changes none. */
  lemma InsertIndexes(s: Snapshot, r: Record)
    requires Insert(s, r).Ok? && r.outcome.ids == TransactionIds(r.Content().transactions)
    ensures RecordAt(Insert(s, r).value, r)
    ensures forall q :: RecordAt(s, q) ==> RecordAt(Insert(s, r).value, q)
  {
    var s', txs, ids := Insert(s, r).value, r.Content().transactions, r.outcome.ids;
    forall j | 0 <= j < |txs|
      ensures TxAt(s', r, j)
    {
      IndexedIdAt(s, r.tip, Keys(txs), ids, |txs|, j);
    }
    IndexKeeps(s, r.tip, Keys(txs), ids, |txs|);
    forall q | RecordAt(s, q)
      ensures RecordAt(s', q)
    {
      forall j | 0 <= j < |q.Content().transactions|
        ensures TxAt(s', q, j)
      {
        assert TxAt(s, q, j);
      }
    }
  }

  /** In every history, the indexes name every record exactly: its hash, its slot, and each transaction by
      identifier and by sender and nonce, with its position. */
  lemma {:induction false} IndexesExactly(k: Rules, h: seq<Envelope>, i: nat)
    requires Lawful(k) && PolicyAnchored(k.policy) && IsHistory(k, h) && i <= |h|
    ensures |Rebuild(k, h).value.records| == |h| + 1
    ensures RecordAt(Rebuild(k, h).value, Rebuild(k, h).value.records[i])
  {
    RebuildRecords(k, h);
    if h != [] {
      var s := RebuildLast(k, h);
      RebuildRecords(k, h[..|h| - 1]);
      if i < |h| {
        IndexesExactly(k, h[..|h| - 1], i);
      }
      ExtensionIndexes(k, s, h[|h| - 1], Rebuild(k, h).value);
    }
  }

  lemma ExtensionIndexes(k: Rules, s: Snapshot, e: Envelope, s': Snapshot)
    requires Lawful(k) && Extend(k, s, e) == Some(s')
    ensures |s'.records| == |s.records| + 1 && s'.records[..|s.records|] == s.records
    ensures RecordAt(s', s'.records[|s.records|])
    ensures forall q :: RecordAt(s, q) ==> RecordAt(s', q)
  {
    ExtendShape(k, s, e);
    assert ExecutionLaw(k, s.state, e.block);
    var fx := k.run(s.state, e.block).value;
    InsertIndexes(s.(state := fx.state), Append(s'.tip, e, fx.outcome));
    forall q | RecordAt(s, q)
      ensures RecordAt(s', q)
    {
      forall j | 0 <= j < |q.Content().transactions|
        ensures TxAt(s.(state := fx.state), q, j)
      {
        assert TxAt(s, q, j);
      }
      assert RecordAt(s.(state := fx.state), q);
    }
  }

  // ----- checks in memory -----

  /** A candidate passes the owner's checks exactly if the owner is ready, the candidate was made on exactly this
      generation, policy, tip, state and prefix, and its block follows the tip under a grant for it. */
  lemma MemoryChecksExactly(k: Rules, o: OwnerState, b: StageBase, e: Envelope, g: Grant)
    ensures CheckBase(k, o, b).None? <==> !o.poisoned && b == BaseOf(k, o)
    ensures CheckBase(k, o, b) == Some(Blocked) <==> o.poisoned
    ensures CheckAppend(k.policy, o.snapshot, e, g).None?
      <==>
      && Follows(o.snapshot, e.block)
      && g == Grant(k.policy.context, k.policy.anchor.Hash(), o.snapshot.tip, e.block.Hash(), e.block.header.slot)
  {}

  /** A block that is already archived is answered with its place and both envelope identifiers. */
  lemma KnownBlockIsNamed(k: Rules, h: seq<Envelope>, i: nat, e: Envelope, g: Grant)
    requires Lawful(k) && PolicyAnchored(k.policy) && IsHistory(k, h) && i < |h| && e.block == h[i].block
    ensures var s := Rebuild(k, h).value;
      && |s.records| == |h| + 1
      && CheckAppend(k.policy, s, e, g)
         == Some(AlreadyCommitted(s.records[i + 1].tip, EnvelopeId(h[i]), EnvelopeId(e)))
  {
    IndexesExactly(k, h, i + 1);
    RecordsIndexed(k, h, i + 1);
    RecordOfEnvelope(k, h, i);
  }

  /** A ready owner stages received bytes exactly if they authenticate to an envelope that extends its snapshot,
      under the grant for that envelope; and then it stages that envelope with its own execution. */
  lemma StagesExactly(k: Rules, o: OwnerState, bytes: Bytes, g: Grant)
    requires Lawful(k)
    ensures var r := StageReceived(k, o, bytes, g);
      && (r.Ok? <==>
            && !o.poisoned && k.receive(bytes).Ok?
            && Extend(k, o.snapshot, k.receive(bytes).value).Some?
            && g.Matches(k.policy, o.snapshot.tip, k.receive(bytes).value.block))
      && (r.Ok? ==>
            && r.value.envelope == k.receive(bytes).value && r.value.base == BaseOf(k, o) && r.value.grant == g
            && r.value.candidate == Extend(k, o.snapshot, r.value.envelope).value.state
            && r.value.tip == Extend(k, o.snapshot, r.value.envelope).value.tip)
  {
    assert ReceiptLaw(k, bytes);
    if k.receive(bytes).Ok? && Follows(o.snapshot, k.receive(bytes).value.block) {
      ExtendsOrClashes(k, o.snapshot, k.receive(bytes).value);
    }
  }

  /** A ready owner seals a preparation exactly if it was made on the owner's present base and the bytes authenticate
      to an envelope around its block, which still follows the tip under the grant for it; the sealed candidate
      then carries the prepared effects. */
  lemma SealsExactly(k: Rules, o: OwnerState, p: Prepared, bytes: Bytes, g: Grant)
    ensures var r := SealPrepared(k, o, p, bytes, g);
      && (r.Ok? <==>
            && !o.poisoned && p.base == BaseOf(k, o) && k.receive(bytes).Ok? && k.receive(bytes).value.block == p.block
            && Follows(o.snapshot, p.block) && g.Matches(k.policy, o.snapshot.tip, p.block))
      && (r.Ok? ==>
            r.value == Staged(p.base, p.candidate, NextTip(o.snapshot, p.block), k.receive(bytes).value, p.outcome, g))
  {}

  /** Above its tip a snapshot is extended exactly by what executes and repeats no transaction. */
  lemma ExtendsOrClashes(k: Rules, s: Snapshot, e: Envelope)
    requires Follows(s, e.block) && k.attest(e, None).None?
    ensures Extend(k, s, e).Some? <==>
      k.run(s.state, e.block).Ok? && CheckTransactions(s, e.block, k.run(s.state, e.block).value.outcome).None?
    ensures Extend(k, s, e).Some? ==>
      && Extend(k, s, e).value.state == k.run(s.state, e.block).value.state
      && Extend(k, s, e).value.tip == NextTip(s, e.block)
  {
    if k.run(s.state, e.block).Ok? {
      var fx := k.run(s.state, e.block).value;
      ClashIgnoresTip(s.(state := fx.state), s, NextTip(s, e.block), s.tip, Keys(e.block.transactions), fx.outcome.ids,
        0, Pairs(e.block.transactions, fx.outcome.ids));
    }
  }

  // ----- how a commit ends -----

  /** An archived envelope has this identifier. */
  predicate IdTaken(h: seq<Envelope>, e: Envelope) {
    exists i :: 0 <= i < |h| && EnvelopeId(h[i]) == EnvelopeId(e)
  }

  /** The schema forbids an append right above the history exactly if its envelope identifier is taken. */
  lemma ViolatesExactly(k: Rules, d: Disk, h: seq<Envelope>, r: Record)
    requires Lawful(k) && PolicyAnchored(k.policy) && Stored(k, d, h) && r.Append? && r.tip.revision == |h| + 1
    ensures Violates(d, r) <==> IdTaken(h, r.envelope)
  {
    var s := Rebuild(k, h).value;
    RebuildRecords(k, h);
    AnchorFirst(k, h);
    if Violates(d, r) {
      var i :| i in d.blocks && RepeatsEvidence(d.blocks[i], r);
      assert RowsOf(d, s.records[i], i);
      RecordOfEnvelope(k, h, i - 1);
      assert EnvelopeId(h[i - 1]) == EnvelopeId(r.envelope);
    }
    if IdTaken(h, r.envelope) {
      var i :| 0 <= i < |h| && EnvelopeId(h[i]) == EnvelopeId(r.envelope);
      RecordOfEnvelope(k, h, i);
      assert i + 1 < |s.records| && i + 1 < U64_LIMIT;
      assert RowsOf(d, s.records[i + 1], i + 1);
      assert RepeatsEvidence(d.blocks[i + 1], r);
    }
  }

  /** What a commit leaves, in every case: the answer, whether the owner is poisoned, its unresolved attempt, and
      whether the writes are in the file. */
  datatype Ending = Ending(answer: AppendOutcome, poisoned: bool, attempt: Option<Attempt>, landed: bool)

  /** The ending of a candidate that passed the checks in memory: current says that nobody has appended, free that
      its envelope identifier is not taken. */
  function EndingOf(st: Staged, current: bool, free: bool, w: Weather): Ending {
    var unresolved := Ending(RecoveryRequired(Uncertain), true, Some(AttemptOf(st)), false);
    if !w.begins then Ending(Aborted(StorageFailure), false, None, false)
    else if !current then if w.rollsBack then Ending(Aborted(Stale), true, None, false) else unresolved
    else if !free || !w.writes then
      if w.rollsBack && w.reloads then Ending(Aborted(StorageFailure), false, None, false) else unresolved
    else if w.commit == Lands then
      Ending(Committed(st.tip, st.outcome, EnvelopeId(st.envelope)), false, None, true)
    else unresolved.(landed := w.commit == ErrorNew)
  }

  ghost predicate Passes(k: Rules, o: OwnerState, st: Staged) {
    && CheckBase(k, o, st.base).None? && CheckAppend(k.policy, o.snapshot, st.envelope, st.grant).None?
    && Insert(o.snapshot.(state := st.candidate), st.Record()).Ok?
  }

  /** A commit has ended in this way: the owner moves to the next snapshot only when it reports success, and the
      file holds all of the writes or none. */
  predicate EndsAs(c: Committing, end: Ending, o: OwnerState, next: Snapshot, d: Disk, d': Disk) {
    && c.outcome == end.answer && c.owner.poisoned == end.poisoned && c.owner.attempt == end.attempt
    && c.owner.generation == o.generation
    && c.owner.snapshot == (if end.answer.Committed? then next else o.snapshot)
    && c.disk == (if end.landed then d' else d)
  }

  /** A commit ends exactly so, whatever the storage layer does. */
  lemma CommitExactly(k: Rules, d: Disk, h: seq<Envelope>, o: OwnerState, st: Staged, w: Weather, next: Snapshot)
    requires Lawful(k) && PolicyAnchored(k.policy) && Stored(k, d, h) && OwnerOk(k, h, o) && StagedOk(k, st)
    requires Passes(k, o, st) && Insert(o.snapshot.(state := st.candidate), st.Record()) == Ok(next)
    ensures Extend(k, o.snapshot, st.envelope) == Some(next)
    ensures EndsAs(CommitStep(k, o, d, st, w),
      EndingOf(st, o.snapshot.tip.revision == |h|, !IdTaken(h, st.envelope), w), o, next, d, Written(d, st))
  {
    StagedExtends(k, o, st, next);
    if w.begins {
      TransactsExactly(k, d, h, o, st, w, next);
    }
  }

  lemma TransactsExactly(k: Rules, d: Disk, h: seq<Envelope>, o: OwnerState, st: Staged, w: Weather, next: Snapshot)
    requires Lawful(k) && PolicyAnchored(k.policy) && Stored(k, d, h) && OwnerOk(k, h, o) && StagedOk(k, st)
    requires Passes(k, o, st) && w.begins
    ensures EndsAs(Transact(k, o, d, st, next, w),
      EndingOf(st, o.snapshot.tip.revision == |h|, !IdTaken(h, st.envelope), w), o, next, d, Written(d, st))
  {
    StoredCheckIsCurrency(k, d, h, o, st);
    if o.snapshot.tip.revision == |h| {
      CurrentIsConfirmed(k, d, h, o, st);
    }
    SettlesExactly(o, st, d, Written(d, st), o.snapshot.tip.revision == |h|, !IdTaken(h, st.envelope),
      CheckStored(k, d, st), Violates(d, st.Record()), Confirmed(k, d, o.snapshot), next, w);
  }

  lemma CurrentIsConfirmed(k: Rules, d: Disk, h: seq<Envelope>, o: OwnerState, st: Staged)
    requires Lawful(k) && PolicyAnchored(k.policy) && Stored(k, d, h) && OwnerOk(k, h, o) && StagedOk(k, st)
    requires CheckBase(k, o, st.base).None? && o.snapshot.tip.revision == |h|
    ensures Confirmed(k, d, o.snapshot) && (Violates(d, st.Record()) <==> IdTaken(h, st.envelope))
  {
    CurrentAtTip(k, h, o.snapshot);
    ViolatesExactly(k, d, h, st.Record());
    StoredLoads(k, d, None, h);
  }

  lemma SettlesExactly(o: OwnerState, st: Staged, d: Disk, d': Disk, current: bool, free: bool,
                       refusal: Option<ArchiveError>, forbidden: bool, confirmed: bool, next: Snapshot, w: Weather)
    requires !o.poisoned && o.attempt.None? && w.begins
    requires refusal == if current then None else Some(Stale)
    requires current ==> confirmed && (forbidden <==> !free)
    ensures EndsAs(Settle(o, st, d, d', refusal, forbidden, confirmed, next, w), EndingOf(st, current, free, w), o,
      next, d, d')
  {}

  /** A candidate that does not pass changes nothing. */
  lemma RefusedExactly(k: Rules, d: Disk, o: OwnerState, st: Staged, w: Weather)
    requires !Passes(k, o, st)
    ensures var c := CommitStep(k, o, d, st, w); c.owner == o && c.disk == d && c.outcome.Aborted?
  {}
}
