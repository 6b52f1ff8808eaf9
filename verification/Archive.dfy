/** The authenticated archive in memory: records, indexes, admission checks and the reference semantics
    of a history of envelopes (src/authenticated_fixture.rs). */
module Archive {
  import opened Base
  import opened Crypto
  import opened NativeTransaction
  import opened NativeTransfer
  import opened NativeBlock
  import opened BlockAuthentication

  datatype Tip = Tip(hash: Hash, slot: u64, revision: u64)

  /** Independent caller policy: context, trusted anchor, seeds and producer bindings. */
  datatype Policy = Policy(
    context: AuthenticationContext,
    anchor: Block,
    initial: TransferState,
    bindings: map<Bytes, PublicKey>)

  datatype Grant = Grant(context: AuthenticationContext, anchor: Hash, base: Tip, hash: Hash, slot: u64) {
    predicate Matches(p: Policy, tip: Tip, b: Block) {
      context == p.context && anchor == p.anchor.Hash() && base == tip && hash == b.Hash() && slot == b.header.slot
    }
  }

  datatype Record =
    | TrustedAnchor(tip: Tip, anchor: Block, outcome: Outcome)
    | Append(tip: Tip, envelope: Envelope, outcome: Outcome)
  {
    function Content(): Block {
      if TrustedAnchor? then anchor else envelope.block
    }

    function Evidence(): Option<(SignatureBytes, Hash)> {
      if TrustedAnchor? then None else Some((envelope.signature, EnvelopeId(envelope)))
    }

    function Id(): Identity {
      Identity(tip, Evidence())
    }
  }

  datatype Identity = Identity(tip: Tip, evidence: Option<(SignatureBytes, Hash)>)

  datatype Membership = Membership(tip: Tip, position: nat)

  type NonceKey = (Address, u64)

  datatype Snapshot = Snapshot(
    state: TransferState,
    tip: Tip,
    records: seq<Record>,
    transactions: map<Hash, Membership>,
    senderNonces: map<NonceKey, Membership>,
    slots: map<u64, Hash>,
    hashes: map<Hash, Tip>)
  {
    function Identities(): seq<Identity> {
      seq(|records|, i requires 0 <= i < |records| => records[i].Id())
    }
  }

  datatype ArchiveError =
    | Unauthenticated(auth: AuthError)
    | BadBlock(block: BlockError)
    | BadBody(body: BodyError)
    | UnknownProducer
    | Blocked
    | Stale
    | AlreadyCommitted(tip: Tip, retainedId: Hash, submittedId: Hash)
    | TrustedAnchorReference(tip: Tip)
    | SlotConflict
    | WrongSlot
    | WrongParent
    | WrongGrant
    | PreparedIdentity
    | TooLarge
    | DuplicateTransaction(index: nat)
    | Invalid
    | StorageFailure
    | Uncertain

  /** The rules an archive runs under: its policy, the attribution of received bytes, the attribution of an
      envelope with an optional claimed identifier, and the execution of a block on a state, all of them
      deterministic functions. */
  datatype Rules = Rules(
    policy: Policy,
    receive: Bytes -> Result<Envelope, ArchiveError>,
    attest: (Envelope, Option<Hash>) -> Option<ArchiveError>,
    run: (TransferState, Block) -> Result<Effects, ArchiveError>)

  function Keys(txs: seq<SignedBytes>): seq<NonceKey> {
    seq(|txs|, i requires 0 <= i < |txs| => SenderNonce(txs[i]))
  }

  /** What the archive relies on about attribution. */
  predicate Attested(p: Policy, e: Envelope) {
    && e.network == p.context.networkId
    && e.block.claimedHash == e.block.Hash()
    && e.block.Bounded()
    && e.block.proposer != []
  }

  /** What the archive relies on about execution: identifiers are the raw ones, every executed nonce is
      new and consumed, nonces never fall and accounts never disappear. */
  ghost predicate Executed(s: TransferState, b: Block, fx: Effects) {
    && fx.outcome.ids == TransactionIds(b.transactions)
    && (forall i :: 0 <= i < |b.transactions| ==> Consumed(s, fx.state, Keys(b.transactions)[i]))
    && (forall i, j :: 0 <= i < j < |b.transactions| ==> Keys(b.transactions)[i] != Keys(b.transactions)[j])
    && (forall a: Address :: s.AccountOf(a).nonce <= fx.state.AccountOf(a).nonce)
    && s.accounts.Keys <= fx.state.accounts.Keys
  }

  predicate Consumed(before: TransferState, after: TransferState, k: NonceKey) {
    before.AccountOf(k.0).nonce <= k.1 < after.AccountOf(k.0).nonce
  }

  /** What is received is attested. */
  predicate ReceiptLaw(k: Rules, b: Bytes) {
    k.receive(b).Ok? ==> k.attest(k.receive(b).value, None).None?
  }

  predicate AttestationLaw(k: Rules, e: Envelope) {
    k.attest(e, None).None? ==> Attested(k.policy, e)
  }

  /** A claimed identifier is accepted exactly if it is the envelope's own. */
  predicate ClaimLaw(k: Rules, e: Envelope, id: Hash) {
    k.attest(e, Some(id)).None? <==> k.attest(e, None).None? && id == EnvelopeId(e)
  }

  ghost predicate ExecutionLaw(k: Rules, s: TransferState, b: Block) {
    k.run(s, b).Ok? ==> Executed(s, b, k.run(s, b).value)
  }

  /** The laws, for every argument. */
  ghost predicate Lawful(k: Rules) {
    && (forall b :: ReceiptLaw(k, b))
    && (forall e :: AttestationLaw(k, e))
    && (forall e, id :: ClaimLaw(k, e, id))
    && (forall s, b :: ExecutionLaw(k, s, b))
  }

  // ----- indexing one record -----

  function Pairs(txs: seq<SignedBytes>, ids: seq<Hash>): (n: nat)
    ensures n <= |txs| && n <= |ids| && (n == |txs| || n == |ids|)
  {
    if |txs| < |ids| then |txs| else |ids|
  }

  function IndexIds(m: map<Hash, Membership>, tip: Tip, ids: seq<Hash>, n: nat): map<Hash, Membership>
    requires n <= |ids|
  {
    if n == 0 then m else IndexIds(m, tip, ids, n - 1)[ids[n - 1] := Membership(tip, n - 1)]
  }

  function IndexNonces(m: map<NonceKey, Membership>, tip: Tip, keys: seq<NonceKey>, n: nat): map<NonceKey, Membership>
    requires n <= |keys|
  {
    if n == 0 then m else IndexNonces(m, tip, keys, n - 1)[keys[n - 1] := Membership(tip, n - 1)]
  }

  /** Position `j` repeats an identifier or a sender and nonce, in the archive or earlier in the body. */
  predicate Clash(s: Snapshot, tip: Tip, keys: seq<NonceKey>, ids: seq<Hash>, j: nat)
    requires j < |keys| && j < |ids|
  {
    ids[j] in IndexIds(s.transactions, tip, ids, j) || keys[j] in IndexNonces(s.senderNonces, tip, keys, j)
  }

  /** The first clash at or after `j`. */
  function FirstClash(s: Snapshot, tip: Tip, keys: seq<NonceKey>, ids: seq<Hash>, j: nat, n: nat): (r: Option<nat>)
    requires j <= n <= |keys| && n <= |ids|
    ensures r.Some? ==> j <= r.value < n && Clash(s, tip, keys, ids, r.value)
    ensures r.None? ==> forall k :: j <= k < n ==> !Clash(s, tip, keys, ids, k)
    decreases n - j
  {
    if j == n then None
    else if Clash(s, tip, keys, ids, j) then Some(j)
    else FirstClash(s, tip, keys, ids, j + 1, n)
  }

  /** Adds a record with all its index entries, or reports the first clash. */
  function Insert(s: Snapshot, r: Record): Result<Snapshot, ArchiveError> {
    var ids := r.outcome.ids;
    var keys := Keys(r.Content().transactions);
    var n := Pairs(r.Content().transactions, ids);
    if FirstClash(s, r.tip, keys, ids, 0, n).Some? then
      Err(DuplicateTransaction(FirstClash(s, r.tip, keys, ids, 0, n).value))
    else if r.tip.slot in s.slots || r.tip.hash in s.hashes then Err(Invalid)
    else Ok(Snapshot(
      s.state, r.tip, s.records + [r],
      IndexIds(s.transactions, r.tip, ids, n),
      IndexNonces(s.senderNonces, r.tip, keys, n),
      s.slots[r.tip.slot := r.tip.hash],
      s.hashes[r.tip.hash := r.tip]))
  }

  /** The loop that fills both transaction indexes and stops at the first clash. */
  method IndexBody(s: Snapshot, tip: Tip, keys: seq<NonceKey>, ids: seq<Hash>, n: nat)
    returns (clash: Option<nat>, byId: map<Hash, Membership>, byNonce: map<NonceKey, Membership>)
    requires n <= |keys| && n <= |ids|
    ensures clash == FirstClash(s, tip, keys, ids, 0, n)
    ensures clash.None? ==> byId == IndexIds(s.transactions, tip, ids, n)
    ensures clash.None? ==> byNonce == IndexNonces(s.senderNonces, tip, keys, n)
  {
    byId, byNonce := s.transactions, s.senderNonces;
    for i := 0 to n
      invariant byId == IndexIds(s.transactions, tip, ids, i)
      invariant byNonce == IndexNonces(s.senderNonces, tip, keys, i)
      invariant FirstClash(s, tip, keys, ids, 0, n) == FirstClash(s, tip, keys, ids, i, n)
    {
      if ids[i] in byId || keys[i] in byNonce {
        return Some(i), byId, byNonce;
      }
      byId := byId[ids[i] := Membership(tip, i)];
      byNonce := byNonce[keys[i] := Membership(tip, i)];
    }
    return None, byId, byNonce;
  }

  /** `Snapshot::insert`. */
  method InsertRecord(s: Snapshot, r: Record) returns (out: Result<Snapshot, ArchiveError>)
    ensures out == Insert(s, r)
  {
    var txs := r.Content().transactions;
    var clash, byId, byNonce := IndexBody(s, r.tip, Keys(txs), r.outcome.ids, Pairs(txs, r.outcome.ids));
    if clash.Some? {
      return Err(DuplicateTransaction(clash.value));
    }
    if r.tip.slot in s.slots || r.tip.hash in s.hashes {
      return Err(Invalid);
    }
    return Ok(Snapshot(s.state, r.tip, s.records + [r], byId, byNonce,
      s.slots[r.tip.slot := r.tip.hash], s.hashes[r.tip.hash := r.tip]));
  }

  lemma {:induction false} IndexIdsHas(m: map<Hash, Membership>, tip: Tip, ids: seq<Hash>, n: nat, h: Hash)
    requires n <= |ids|
    ensures h in IndexIds(m, tip, ids, n) <==> h in m || h in ids[..n]
  {
    if n > 0 {
      IndexIdsHas(m, tip, ids, n - 1, h);
      assert ids[..n] == ids[..n - 1] + [ids[n - 1]];
    }
  }

  lemma {:induction false} IndexNoncesHas(m: map<NonceKey, Membership>, tip: Tip, keys: seq<NonceKey>, n: nat,
                                          k: NonceKey)
    requires n <= |keys|
    ensures k in IndexNonces(m, tip, keys, n) <==> k in m || k in keys[..n]
  {
    if n > 0 {
      IndexNoncesHas(m, tip, keys, n - 1, k);
      assert keys[..n] == keys[..n - 1] + [keys[n - 1]];
    }
  }

  // ----- checks before staging and committing -----

  /** Whether an attributed block may follow the current tip under a grant. */
  function CheckAppend(p: Policy, s: Snapshot, e: Envelope, g: Grant): Option<ArchiveError> {
    var b := e.block;
    if b.Hash() in s.hashes then
      var tip := s.hashes[b.Hash()];
      if tip.revision >= |s.records| then Some(Invalid)
      else
        var r := s.records[tip.revision];
        if r.Content() != b then Some(Invalid)
        else if r.TrustedAnchor? then Some(TrustedAnchorReference(tip))
        else Some(AlreadyCommitted(tip, EnvelopeId(r.envelope), EnvelopeId(e)))
    else if b.header.slot in s.slots then Some(SlotConflict)
    else if s.tip.slot + 1 != b.header.slot then Some(WrongSlot)
    else if b.header.parentHash != s.tip.hash then Some(WrongParent)
    else if s.tip.revision + 1 >= U64_LIMIT then Some(TooLarge)
    else if !g.Matches(p, s.tip, b) then Some(WrongGrant)
    else None
  }

  /** The tip a block would have on top of a snapshot. */
  function NextTip(s: Snapshot, b: Block): Tip
    requires s.tip.revision + 1 < U64_LIMIT
  {
    Tip(b.Hash(), b.header.slot, s.tip.revision + 1)
  }

  function CheckTransactions(s: Snapshot, b: Block, o: Outcome): Option<ArchiveError> {
    match FirstClash(s, s.tip, Keys(b.transactions), o.ids, 0, Pairs(b.transactions, o.ids))
    case Some(j) => Some(DuplicateTransaction(j))
    case None => None
  }

  /** The membership written into an index does not matter to a clash. */
  lemma {:induction false} ClashIgnoresTip(s: Snapshot, t: Snapshot, tip: Tip, tip': Tip, keys: seq<NonceKey>,
                                           ids: seq<Hash>, j: nat, n: nat)
    requires s.transactions == t.transactions && s.senderNonces == t.senderNonces
    requires j <= n <= |keys| && n <= |ids|
    ensures FirstClash(s, tip, keys, ids, j, n) == FirstClash(t, tip', keys, ids, j, n)
    decreases n - j
  {
    if j < n {
      ClashIgnoresTip(s, t, tip, tip', keys, ids, j + 1, n);
      IndexIdsHas(s.transactions, tip, ids, j, ids[j]);
      IndexIdsHas(s.transactions, tip', ids, j, ids[j]);
      IndexNoncesHas(s.senderNonces, tip, keys, j, keys[j]);
      IndexNoncesHas(s.senderNonces, tip', keys, j, keys[j]);
    }
  }

  // ----- the reference semantics of a history -----

  predicate Follows(s: Snapshot, b: Block) {
    && s.tip.slot + 1 == b.header.slot && b.header.parentHash == s.tip.hash
    && s.tip.revision + 1 < U64_LIMIT
    && b.Hash() !in s.hashes && b.header.slot !in s.slots
  }

  /** The snapshot after an envelope, if the envelope may follow: everything a block must satisfy to be
      part of a history, other than the grant that selected it. */
  function Extend(k: Rules, s: Snapshot, e: Envelope): Option<Snapshot> {
    if k.attest(e, None).Some? || !Follows(s, e.block) then None
    else match k.run(s.state, e.block)
      case Err(_) => None
      case Ok(fx) =>
        match Insert(s.(state := fx.state), Append(NextTip(s, e.block), e, fx.outcome))
        case Err(_) => None
        case Ok(s') => Some(s')
  }

  function AnchorRecord(p: Policy): Record {
    TrustedAnchor(Tip(p.anchor.Hash(), p.anchor.header.slot, 0), p.anchor, EMPTY_OUTCOME)
  }

  function EmptySnapshot(state: TransferState, tip: Tip): Snapshot {
    Snapshot(state, tip, [], map[], map[], map[], map[])
  }

  /** The archive right after creation. */
  function Genesis(p: Policy): Snapshot {
    var r := AnchorRecord(p);
    Snapshot(p.initial, r.tip, [r], map[], map[], map[r.tip.slot := r.tip.hash], map[r.tip.hash := r.tip])
  }

  lemma GenesisIsInserted(p: Policy, state: TransferState, tip: Tip)
    ensures Insert(EmptySnapshot(state, tip), AnchorRecord(p)) == Ok(Genesis(p).(state := state))
  {
    assert [] + [AnchorRecord(p)] == [AnchorRecord(p)];
  }

  /** The snapshot a history of envelopes stands for, if it is a valid history. */
  function Rebuild(k: Rules, h: seq<Envelope>): Option<Snapshot> {
    if h == [] then Some(Genesis(k.policy))
    else match Rebuild(k, h[..|h| - 1])
      case None => None
      case Some(s) => Extend(k, s, h[|h| - 1])
  }

  ghost predicate IsHistory(k: Rules, h: seq<Envelope>) {
    Rebuild(k, h).Some?
  }

  /** What one extension does to the snapshot. */
  lemma ExtendShape(k: Rules, s: Snapshot, e: Envelope)
    requires Extend(k, s, e).Some?
    ensures k.attest(e, None).None? && Follows(s, e.block) && k.run(s.state, e.block).Ok?
    ensures var s', fx := Extend(k, s, e).value, k.run(s.state, e.block).value;
      && s'.state == fx.state
      && s'.tip == NextTip(s, e.block)
      && s'.records == s.records + [Append(s'.tip, e, fx.outcome)]
      && Insert(s.(state := fx.state), Append(s'.tip, e, fx.outcome)) == Ok(s')
  {}

  lemma {:induction false} RebuildPrefix(k: Rules, h: seq<Envelope>, n: nat)
    requires IsHistory(k, h) && n <= |h|
    ensures IsHistory(k, h[..n])
    decreases |h|
  {
    if n < |h| {
      RebuildPrefix(k, h[..|h| - 1], n);
      assert h[..|h| - 1][..n] == h[..n];
    } else {
      assert h[..n] == h;
    }
  }

  lemma RebuildSnoc(k: Rules, h: seq<Envelope>, e: Envelope)
    requires IsHistory(k, h)
    ensures Rebuild(k, h + [e]) == Extend(k, Rebuild(k, h).value, e)
  {
    assert (h + [e])[..|h|] == h;
  }

  /** The last step of a history. */
  lemma RebuildLast(k: Rules, h: seq<Envelope>) returns (s: Snapshot)
    requires h != [] && IsHistory(k, h)
    ensures IsHistory(k, h[..|h| - 1]) && s == Rebuild(k, h[..|h| - 1]).value
    ensures Extend(k, s, h[|h| - 1]) == Rebuild(k, h)
  {
    s := Rebuild(k, h[..|h| - 1]).value;
  }

  /** The shape of every rebuilt snapshot: one record per envelope after the anchor, and the tip equal to
      the last record's. */
  lemma {:induction false} RebuildRecords(k: Rules, h: seq<Envelope>)
    requires IsHistory(k, h)
    ensures var s := Rebuild(k, h).value;
      && |s.records| == |h| + 1
      && s.tip == s.records[|h|].tip && s.tip.revision == |h|
  {
    if h != [] {
      var s := RebuildLast(k, h);
      RebuildRecords(k, h[..|h| - 1]);
      ExtendShape(k, s, h[|h| - 1]);
    }
  }

  /** Records are only ever appended along a history. */
  lemma {:induction false} RecordsPersist(k: Rules, h: seq<Envelope>, n: nat)
    requires IsHistory(k, h) && n <= |h|
    ensures IsHistory(k, h[..n])
    ensures Rebuild(k, h[..n]).value.records <= Rebuild(k, h).value.records
    decreases |h|
  {
    RebuildPrefix(k, h, n);
    if n == |h| {
      assert h[..n] == h;
    } else {
      var s := RebuildLast(k, h);
      RecordsPersist(k, h[..|h| - 1], n);
      assert h[..|h| - 1][..n] == h[..n];
      ExtendShape(k, s, h[|h| - 1]);
    }
  }

  /** Envelope `i` of a history sits in record `i + 1`, with its own outcome. */
  lemma RecordOfEnvelope(k: Rules, h: seq<Envelope>, i: nat)
    requires IsHistory(k, h) && i < |h|
    ensures IsHistory(k, h[..i]) && |Rebuild(k, h).value.records| == |h| + 1
    ensures var s := Rebuild(k, h[..i]).value;
      && k.run(s.state, h[i].block).Ok? && s.tip.revision + 1 < U64_LIMIT
      && Rebuild(k, h).value.records[i + 1]
         == Append(NextTip(s, h[i].block), h[i], k.run(s.state, h[i].block).value.outcome)
  {
    RecordsPersist(k, h, i + 1);
    var s := RebuildLast(k, h[..i + 1]);
    assert h[..i + 1][..i] == h[..i];
    ExtendShape(k, s, h[i]);
    RebuildRecords(k, h[..i]);
    RebuildRecords(k, h);
  }

  // ----- archived nonces are spent -----

  ghost predicate NoncesSpent(s: Snapshot) {
    forall key :: key in s.senderNonces ==> key.1 < s.state.AccountOf(key.0).nonce
  }

  lemma ExtendSpendsNonces(k: Rules, s: Snapshot, e: Envelope)
    requires Lawful(k) && NoncesSpent(s) && Extend(k, s, e).Some?
    ensures NoncesSpent(Extend(k, s, e).value)
  {
    ExtendShape(k, s, e);
    var s', fx := Extend(k, s, e).value, k.run(s.state, e.block).value;
    assert ExecutionLaw(k, s.state, e.block);
    var keys := Keys(e.block.transactions);
    forall key | key in s'.senderNonces
      ensures key.1 < s'.state.AccountOf(key.0).nonce
    {
      IndexNoncesHas(s.senderNonces, s'.tip, keys, |keys|, key);
      assert s.state.AccountOf(key.0).nonce <= fx.state.AccountOf(key.0).nonce;
      if key !in s.senderNonces {
        var i :| 0 <= i < |keys| && keys[i] == key;
        assert Consumed(s.state, fx.state, keys[i]);
      }
    }
  }

  /** In every history, each archived sender and nonce lies strictly below that sender's nonce. */
  lemma {:induction false} ArchivedNoncesAreSpent(k: Rules, h: seq<Envelope>)
    requires Lawful(k) && IsHistory(k, h)
    ensures NoncesSpent(Rebuild(k, h).value)
  {
    if h != [] {
      var s := RebuildLast(k, h);
      ArchivedNoncesAreSpent(k, h[..|h| - 1]);
      ExtendSpendsNonces(k, s, h[|h| - 1]);
    }
  }

  /** Some archived transaction has this identifier, and its sender and nonce are indexed. */
  ghost predicate ArchivedAs(h: seq<Envelope>, s: Snapshot, id: Hash, b: SignedBytes) {
    && (exists i :: 0 <= i < |h| && b in h[i].block.transactions)
    && TransactionId(b) == id && SenderNonce(b) in s.senderNonces
  }

  lemma {:induction false} IndexedIdsAreArchived(k: Rules, h: seq<Envelope>, id: Hash) returns (b: SignedBytes)
    requires Lawful(k) && IsHistory(k, h) && id in Rebuild(k, h).value.transactions
    ensures ArchivedAs(h, Rebuild(k, h).value, id, b)
  {
    var s := RebuildLast(k, h);
    var e := h[|h| - 1];
    ExtendShape(k, s, e);
    var s', fx := Rebuild(k, h).value, k.run(s.state, e.block).value;
    assert ExecutionLaw(k, s.state, e.block);
    var txs, keys := e.block.transactions, Keys(e.block.transactions);
    IndexIdsHas(s.transactions, s'.tip, fx.outcome.ids, |txs|, id);
    if id in s.transactions {
      b := IndexedIdsAreArchived(k, h[..|h| - 1], id);
      var i :| 0 <= i < |h| - 1 && b in h[..|h| - 1][i].block.transactions;
      assert b in h[i].block.transactions;
    } else {
      var i :| 0 <= i < |txs| && fx.outcome.ids[i] == id;
      b := txs[i];
      assert keys[i] == SenderNonce(b) && keys[i] in keys[..|keys|];
      assert b in h[|h| - 1].block.transactions;
    }
    IndexNoncesHas(s.senderNonces, s'.tip, keys, |keys|, SenderNonce(b));
  }

  ghost predicate Collision(x: SignedBytes, y: SignedBytes) {
    x != y && TransactionId(x) == TransactionId(y)
  }

  /** Entry `j` of a body collides with an archived transaction or an earlier one of the same body. */
  ghost predicate CollidesWithKnown(h: seq<Envelope>, txs: seq<SignedBytes>, j: nat, y: SignedBytes)
    requires j < |txs|
  {
    Collision(txs[j], y) && (y in txs[..j] || exists i :: 0 <= i < |h| && y in h[i].block.transactions)
  }

  /** After successful execution the sender-and-nonce check can never fire, and the identifier check can
      fire only on an actual hash collision: a different byte string, archived or earlier in the same
      body, with the same identifier. */
  lemma ClashMeansCollision(k: Rules, h: seq<Envelope>, b: Block, tip: Tip, j: nat)
    requires Lawful(k) && IsHistory(k, h) && k.run(Rebuild(k, h).value.state, b).Ok? && j < |b.transactions|
    ensures var s, keys := Rebuild(k, h).value, Keys(b.transactions);
      && keys[j] !in IndexNonces(s.senderNonces, tip, keys, j)
      && (Clash(s, tip, keys, TransactionIds(b.transactions), j) ==>
            exists y: SignedBytes :: Collision(b.transactions[j], y)
              && (y in b.transactions[..j] || exists i :: 0 <= i < |h| && y in h[i].block.transactions))
  {
    var s := Rebuild(k, h).value;
    var fx := k.run(s.state, b).value;
    assert ExecutionLaw(k, s.state, b);
    var txs, keys, ids := b.transactions, Keys(b.transactions), TransactionIds(b.transactions);
    ArchivedNoncesAreSpent(k, h);
    assert Consumed(s.state, fx.state, keys[j]);
    IndexNoncesHas(s.senderNonces, tip, keys, j, keys[j]);
    IndexIdsHas(s.transactions, tip, ids, j, ids[j]);
    if Clash(s, tip, keys, ids, j) {
      if ids[j] in s.transactions {
        var y := IndexedIdsAreArchived(k, h, ids[j]);
        assert Collision(txs[j], y);
      } else {
        var i :| 0 <= i < j && ids[i] == ids[j];
        assert keys[i] != keys[j];
        assert Collision(txs[j], txs[i]) && txs[i] in txs[..j];
      }
    }
  }
}
