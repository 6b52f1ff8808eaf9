/** The worker with its real archive: the concrete setup, the worker object, and what the pool and the
    archive guarantee to each other (examples/testnet_support/mod.rs, producer.rs). */
module WorkerNode {
  import opened Base
  import opened Crypto
  import opened Sums
  import opened NativeTransaction
  import opened NativeTransfer
  import opened BlockCommitment
  import opened NativeBlock
  import opened BlockAuthentication
  import opened ProducerPool
  import opened Archive
  import opened ArchiveStorage
  import opened ArchiveOwner
  import opened ArchiveRuns
  import opened ArchiveRules
  import opened Worker

  type Signer = Block -> Option<Envelope>

  function ParseEnvelope(bytes: Bytes): Option<Envelope> {
    match DecodeEnvelope(bytes)
    case Err(_) => None
    case Ok(e) => Some(e)
  }

  /** The worker around the real archive and a signing function. */
  function SetupFor(auth: Authenticator, p: Policy, sign: Signer): Setup {
    var k := RulesFor(auth, p);
    Setup(
      k,
      (o: OwnerState, b: Bytes, g: Grant) => StageReceived(k, o, b, g),
      (o: OwnerState, prep: Prepared, b: Bytes, g: Grant) => SealPrepared(k, o, prep, b, g),
      (o: OwnerState, d: Disk, st: Staged, w: Weather) => CommitStep(k, o, d, st, w),
      (b: Bytes) => ParseEnvelope(b),
      (e: Envelope) => EncodeEnvelope(e),
      (o: OwnerState, body: seq<Bytes>) => PrepareNext(auth, p, o, PRODUCER, 1, body),
      sign)
  }

  lemma ParseIsLawful(auth: Authenticator, p: Policy, sign: Signer, b: Bytes)
    ensures ParseLaw(SetupFor(auth, p, sign), b)
  {
    if AuthenticateWire(p, b, None).Ok? {
      WireIsDecoded(p, b, None, DecodeEnvelope(b).value);
    }
  }

  lemma EncodeIsLawful(auth: Authenticator, p: Policy, sign: Signer, e: Envelope)
    ensures EncodeLaw(SetupFor(auth, p, sign), e)
  {
    var bytes := EncodeEnvelope(e);
    if e.block.Bounded() && AuthenticateWire(p, bytes, None).Ok? {
      WireIsDecoded(p, bytes, None, DecodeEnvelope(bytes).value);
      ReencodedIsSame(e);
    }
  }

  /** A bounded block whose envelope decodes at all decodes to itself. */
  lemma ReencodedIsSame(e: Envelope)
    requires e.block.Bounded() && DecodeEnvelope(EncodeEnvelope(e)).Ok?
    ensures DecodeEnvelope(EncodeEnvelope(e)).value == e
  {
    DecodeEncodeBlock(e.block);
    if |EncodeBlock(e.block)| >= 289 {
      DecodeEncodeEnvelope(e);
    } else {
      ShortInnerFails(e);
    }
  }

  lemma ShortInnerFails(e: Envelope)
    requires |EncodeBlock(e.block)| < 289
    ensures DecodeEnvelope(EncodeEnvelope(e)).Err?
  {
    var inner := EncodeBlock(e.block);
    BigEndian.RoundTrip32(|inner|);
    BigEndian.RoundTrip32(AUTH_RULES_VERSION);
    EnvelopePieces(EncodeEnvelope(e), [OUTER_WIRE_VERSION, AUTH_ENCODING_VERSION],
      BigEndian.ToBe(4, AUTH_RULES_VERSION), e.network, BigEndian.ToBe(4, |inner|), inner, e.signature);
  }

  lemma BuiltBlock(context: AuthenticationContext, slot: u64, parent: Hash, proposer: Bytes, ticket: u64,
                   transactions: seq<SignedBytes>, outcome: Outcome)
    requires Build(context, slot, parent, proposer, ticket, transactions, outcome).Ok? && ValidUtf8(proposer)
    ensures var b := Build(context, slot, parent, proposer, ticket, transactions, outcome).value;
      && b.header.slot == slot && b.header.ticketId == ticket && b.Bounded()
      && b.proposer == proposer && b.transactions == transactions
  {}

  lemma PrepareIsLawful(auth: Authenticator, p: Policy, sign: Signer, o: OwnerState, body: seq<Bytes>)
    requires Faithful(auth)
    ensures PrepareLaw(SetupFor(auth, p, sign), o, body)
  {
    if PrepareNext(auth, p, o, PRODUCER, 1, body).Ok? {
      PreparedExecutes(auth, p, o, PRODUCER, 1, body);
      PreparedBlock(auth, p, o, PRODUCER, 1, body);
    }
  }

  lemma PreparedBlock(auth: Authenticator, p: Policy, o: OwnerState, producer: Bytes, ticket: u64, body: seq<Bytes>)
    requires ValidUtf8(producer) && PrepareNext(auth, p, o, producer, ticket, body).Ok?
    ensures var b := PrepareNext(auth, p, o, producer, ticket, body).value.block;
      && b.header.slot == o.snapshot.tip.slot + 1 && b.header.ticketId == ticket && b.Bounded()
      && b.proposer == producer && |b.transactions| == |body|
  {
    NextBlock(auth, p, o.snapshot, producer, ticket, body);
  }

  lemma NextIsBuilt(auth: Authenticator, p: Policy, s: Snapshot, producer: Bytes, ticket: u64, body: seq<SignedBytes>)
    requires s.tip.slot + 1 < U64_LIMIT && BuildNext(auth, p, s, producer, ticket, body).Ok?
    ensures Stage(s.state, auth, s.tip.slot + 1, body).Ok?
    ensures var outcome := Stage(s.state, auth, s.tip.slot + 1, body).value.outcome;
      Build(p.context, s.tip.slot + 1, s.tip.hash, producer, ticket, body, outcome)
      == Ok(BuildNext(auth, p, s, producer, ticket, body).value.0)
  {}

  lemma NextBlock(auth: Authenticator, p: Policy, s: Snapshot, producer: Bytes, ticket: u64, body: seq<SignedBytes>)
    requires s.tip.slot + 1 < U64_LIMIT && ValidUtf8(producer) && BuildNext(auth, p, s, producer, ticket, body).Ok?
    ensures var b := BuildNext(auth, p, s, producer, ticket, body).value.0;
      && b.header.slot == s.tip.slot + 1 && b.header.ticketId == ticket && b.Bounded()
      && b.proposer == producer && b.transactions == body
  {
    NextIsBuilt(auth, p, s, producer, ticket, body);
    BuiltBlock(p.context, s.tip.slot + 1, s.tip.hash, producer, ticket, body,
      Stage(s.state, auth, s.tip.slot + 1, body).value.outcome);
  }

  /** The profile a worker accepts: a structurally valid empty anchor at slot zero. */
  predicate ProfileOk(p: Policy) {
    PolicyAnchored(p) && p.anchor.header.slot == 0
  }

  /** The real worker satisfies every law the worker proofs rely on. */
  lemma SetupIsLawful(p: Policy, sign: Signer)
    requires ProfileOk(p) && forall b :: sign(b).Some? ==> sign(b).value.block == b
    ensures LawfulSetup(SetupFor(AuthenticatorFor(p.context), p, sign))
  {
    var auth := AuthenticatorFor(p.context);
    var x := SetupFor(auth, p, sign);
    AuthenticationIsFaithful(p.context);
    FaithfulRulesAreLawful(auth, p);
    forall b
      ensures ParseLaw(x, b)
    {
      ParseIsLawful(auth, p, sign, b);
    }
    forall e
      ensures EncodeLaw(x, e)
    {
      EncodeIsLawful(auth, p, sign, e);
    }
    forall o, body
      ensures PrepareLaw(x, o, body)
    {
      PrepareIsLawful(auth, p, sign, o, body);
    }
    ArchiveLawsHold(auth, p, sign);
    forall b
      ensures SignLaw(x, b)
    {}
  }

  lemma ArchiveLawsHold(auth: Authenticator, p: Policy, sign: Signer)
    ensures var x := SetupFor(auth, p, sign);
      && (forall o, b, g :: StageLaw(x, o, b, g))
      && (forall o, prep, b, g :: SealLaw(x, o, prep, b, g))
      && (forall o, d, st, w :: CommitLaw(x, o, d, st, w))
  {}

  /** A worker that starts on a file standing for a history, under approvals that cover it, is in order. */
  lemma StartupIsOk(x: Setup, h: seq<Envelope>, d: Disk, steps: seq<StepDocument>, generation: u64, producer: bool)
    requires LawfulSetup(x) && Stored(x.k, d, h) && ReadApprovals(AnchorTip(x.k.policy), steps).Some?
    requires PrefixOk(ReadApprovals(AnchorTip(x.k.policy), steps).value, Rebuild(x.k, h).value.records)
    ensures var owner := OwnerState(Rebuild(x.k, h).value, generation, false, None);
      var production := if producer then Some(Production([], None, [])) else None;
      var approvals := ReadApprovals(AnchorTip(x.k.policy), steps).value;
      WorkerInv(x, Machine(owner, d, approvals, true, production), h)
  {
    AcceptedIsChained(AnchorTip(x.k.policy), steps);
    TipIsCurrent(x.k, h);
  }

  // ----- an undisturbed apply commits -----

  const CALM := Weather(true, true, true, true, Lands)

  /** A valid extension under a matching grant is staged. */
  lemma ExtensionIsStaged(k: Rules, o: OwnerState, bytes: Bytes, e: Envelope, g: Grant)
    requires !o.poisoned && k.receive(bytes) == Ok(e) && Extend(k, o.snapshot, e).Some?
    requires g.Matches(k.policy, o.snapshot.tip, e.block)
    ensures StageReceived(k, o, bytes, g).Ok?
    ensures var st := StageReceived(k, o, bytes, g).value;
      && st.envelope == e && st.base == BaseOf(k, o) && st.grant == g
      && CheckAppend(k.policy, o.snapshot, e, g).None?
      && Insert(o.snapshot.(state := st.candidate), st.Record()) == Ok(Extend(k, o.snapshot, e).value)
  {
    ExtendShape(k, o.snapshot, e);
    var fx := k.run(o.snapshot.state, e.block).value;
    var s' := o.snapshot.(state := fx.state);
    var keys, ids := Keys(e.block.transactions), fx.outcome.ids;
    ClashIgnoresTip(s', o.snapshot, NextTip(o.snapshot, e.block), o.snapshot.tip, keys, ids, 0,
      Pairs(e.block.transactions, ids));
  }

  /** With no fault and no collision of envelope identifiers, a current owner commits what it staged. */
  lemma CurrentCommits(k: Rules, d: Disk, h: seq<Envelope>, o: OwnerState, st: Staged)
    requires Lawful(k) && PolicyAnchored(k.policy) && Stored(k, d, h) && OwnerOk(k, h, o) && StagedOk(k, st)
    requires !o.poisoned && o.snapshot.tip.revision == |h| && st.base == BaseOf(k, o)
    requires CheckAppend(k.policy, o.snapshot, st.envelope, st.grant).None?
    requires Insert(o.snapshot.(state := st.candidate), st.Record()).Ok?
    requires forall i :: 0 <= i < |h| ==> EnvelopeId(h[i]) != EnvelopeId(st.envelope)
    ensures CommitStep(k, o, d, st, CALM).outcome == Committed(st.tip, st.outcome, EnvelopeId(st.envelope))
  {
    StoredCheckIsCurrency(k, d, h, o, st);
    CurrentAtTip(k, h, o.snapshot);
    if Violates(d, st.Record()) {
      ViolationIsCollision(k, d, h, st.envelope, st.Record());
    }
    var next := Insert(o.snapshot.(state := st.candidate), st.Record()).value;
    CalmSettles(o, st, d, Written(d, st), CheckStored(k, d, st), Violates(d, st.Record()),
      Confirmed(k, d, o.snapshot), next);
  }

  lemma CalmSettles(o: OwnerState, st: Staged, d: Disk, d': Disk, refusal: Option<ArchiveError>, forbidden: bool,
                    confirmed: bool, next: Snapshot)
    requires refusal.None? && !forbidden
    ensures Settle(o, st, d, d', refusal, forbidden, confirmed, next, CALM).outcome
      == Committed(st.tip, st.outcome, EnvelopeId(st.envelope))
  {}

  /** The next selected request, if the archive's rules accept it, is committed by an undisturbed apply, and
      becomes the next envelope of the durable history. */
  lemma ApplyCommitsNext(x: Setup, m: Machine, h: seq<Envelope>, bytes: Bytes, e: Envelope) returns (h': seq<Envelope>)
    requires LawfulSetup(x) && WorkerInv(x, m, h) && m.Available() && !m.HasPending()
    requires m.owner.snapshot.tip.revision == |h| < |m.approvals|
    requires x.k.receive(bytes) == Ok(e) && Extend(x.k, Rebuild(x.k, h).value, e).Some?
    requires SelectedContent(m.approvals[|h|], e.block) && EnvelopeId(e) == m.approvals[|h|].envelopeId
    requires forall i :: 0 <= i < |h| ==> EnvelopeId(h[i]) != EnvelopeId(e)
    ensures Apply(x, m, |h| + 1, bytes, CALM).1 == NewCommit(m.approvals[|h|].tip, EnvelopeId(e))
    ensures h' == h + [e] && Stored(x.k, Apply(x, m, |h| + 1, bytes, CALM).0.disk, h')
  {
    var s, o := m.approvals[|h|], m.owner;
    var g := s.GrantFor(x.k.policy);
    CurrentAtTip(x.k, h, o.snapshot);
    TipIsApproved(x, m, h);
    NextSelection(AnchorTip(x.k.policy), m.approvals, |h|);
    assert ParseLaw(x, bytes) && StageLaw(x, o, bytes, g);
    ExtensionIsStaged(x.k, o, bytes, e, g);
    var st := StageReceived(x.k, o, bytes, g).value;
    ReceiveOk(x.k, o, bytes, g);
    CurrentCommits(x.k, m.disk, h, o, st);
    assert CommitLaw(x, o, m.disk, st, CALM);
    h' := CommitAppends(x.k, m.disk, h, o, st, CALM);
    AppliedMachine(x, m, |h| + 1, bytes, e, st);
  }

  lemma NextSelection(anchor: Tip, approvals: seq<Selection>, n: nat)
    requires Chained(anchor, approvals) && n < |approvals| && anchor.revision == 0
    ensures approvals[n].base == (if n == 0 then anchor else approvals[n - 1].tip)
    ensures approvals[n].tip.revision == n + 1
  {
    assert Linked(anchor, approvals, n);
  }

  lemma AppliedMachine(x: Setup, m: Machine, selection: nat, bytes: Bytes, e: Envelope, st: Staged)
    requires m.Available() && !m.HasPending() && 0 < selection <= |m.approvals| && x.parse(bytes) == Some(e)
    requires SelectedContent(m.approvals[selection - 1], e.block)
    requires SelectedPlace(m.approvals[selection - 1], m.owner.snapshot, e)
    requires x.stage(m.owner, bytes, m.approvals[selection - 1].GrantFor(x.k.policy)) == Ok(st)
    requires EnvelopeId(st.envelope) == m.approvals[selection - 1].envelopeId
    ensures Apply(x, m, selection, bytes, CALM) == FinishCommit(m, x.commit(m.owner, m.disk, st, CALM))
  {}

  // ----- the archive conserves value -----

  /** Executing a block conserves balances plus burns. */
  lemma RunConserves(auth: Authenticator, context: AuthenticationContext, s: TransferState, b: Block)
    requires RunBlock(auth, context, s, b).Ok?
    ensures var s' := RunBlock(auth, context, s, b).value.state;
      TotalBalance(s') + s'.feesBurnedTotal == TotalBalance(s) + s.feesBurnedTotal
  {
    ExecuteLaws(s, AuthenticateAll(b.transactions, auth).value, b.header.slot);
  }

  predicate RunsAs(k: Rules, auth: Authenticator, p: Policy, s: TransferState, b: Block) {
    k.run(s, b) == RunBlock(auth, p.context, s, b)
  }

  /** Lawful rules of a policy that execute blocks under one faithful authenticator, as the real ones do. */
  ghost predicate Executes(k: Rules, auth: Authenticator, p: Policy) {
    k.policy == p && Lawful(k) && Faithful(auth) && forall s, b :: RunsAs(k, auth, p, s, b)
  }

  lemma RealRulesExecute(auth: Authenticator, p: Policy)
    requires Faithful(auth)
    ensures Executes(RulesFor(auth, p), auth, p)
  {
    FaithfulRulesAreLawful(auth, p);
  }

  /** In every history, all balances plus all burns equal the seeds plus the burns they started with. */
  lemma {:induction false} HistoryConserves(k: Rules, auth: Authenticator, p: Policy, h: seq<Envelope>)
    requires Executes(k, auth, p) && IsHistory(k, h)
    ensures var s := Rebuild(k, h).value.state;
      TotalBalance(s) + s.feesBurnedTotal == TotalBalance(p.initial) + p.initial.feesBurnedTotal
  {
    if h != [] {
      var s := RebuildLast(k, h);
      HistoryConserves(k, auth, p, h[..|h| - 1]);
      ExtensionConserves(k, auth, p, s, h[|h| - 1]);
    }
  }

  lemma ExtensionConserves(k: Rules, auth: Authenticator, p: Policy, s: Snapshot, e: Envelope)
    requires Executes(k, auth, p) && Extend(k, s, e).Some?
    ensures var s' := Extend(k, s, e).value.state;
      TotalBalance(s') + s'.feesBurnedTotal == TotalBalance(s.state) + s.state.feesBurnedTotal
  {
    ExtendShape(k, s, e);
    assert RunsAs(k, auth, p, s.state, e.block);
    RunConserves(auth, p.context, s.state, e.block);
  }

  /** On every reachable archive whose seeds fit into 128 bits, the body that the pool selects always
      executes, exactly when the running totals have room for it. */
  lemma SelectedBodyExecutes(k: Rules, auth: Authenticator, p: Policy, h: seq<Envelope>, entries: seq<Entry>, slot: u64)
    requires Executes(k, auth, p) && IsHistory(k, h) && forall e :: e in entries ==> Admitted(e, auth)
    requires TotalBalance(p.initial) + p.initial.feesBurnedTotal < U128_LIMIT
    ensures var s := Rebuild(k, h).value.state;
      var body := Raws(Pick(entries, s, slot).picked);
      Stage(s, auth, slot, body).Ok? <==> Headroom(s, |body|)
  {
    HistoryConserves(k, auth, p, h);
    SelectionExecutes(entries, Rebuild(k, h).value.state, slot, auth);
  }

  // ----- the pool's cleanup -----

  /** A different archived transaction has this entry's identifier. */
  ghost predicate CollidesWithArchived(h: seq<Envelope>, e: Entry) {
    exists i, y :: 0 <= i < |h| && y in h[i].block.transactions && Collision(e.raw, y)
  }

  /** An admitted entry whose identifier is archived also has a used nonce, unless a different archived
      transaction has that identifier. */
  lemma ArchivedEntryIsStale(k: Rules, h: seq<Envelope>, auth: Authenticator, e: Entry)
    requires Lawful(k) && IsHistory(k, h) && Faithful(auth) && Admitted(e, auth)
    requires e.id in Rebuild(k, h).value.transactions
    ensures e.unsigned.nonce < Rebuild(k, h).value.state.AccountOf(e.unsigned.sender).nonce
      || CollidesWithArchived(h, e)
  {
    assert Describes(auth(e.raw).value, e.raw);
    var b := IndexedIdsAreArchived(k, h, e.id);
    ArchivedNoncesAreSpent(k, h);
    if b != e.raw {
      var i :| 0 <= i < |h| && b in h[i].block.transactions;
      assert Collision(e.raw, b);
    }
  }

  /** So the cleanup's identifier test is implied by its nonce test, for every pool whose entries collide with
      nothing in the archive. */
  lemma {:induction false} NonceTestSuffices(k: Rules, h: seq<Envelope>, auth: Authenticator, entries: seq<Entry>)
    requires Lawful(k) && IsHistory(k, h) && Faithful(auth)
    requires forall e :: e in entries ==> Admitted(e, auth) && !CollidesWithArchived(h, e)
    ensures var s := Rebuild(k, h).value;
      Retained(entries, s.transactions.Keys, s.state) == Retained(entries, {}, s.state)
  {
    if entries != [] {
      var e := entries[|entries| - 1];
      NonceTestSuffices(k, h, auth, entries[..|entries| - 1]);
      if e.id in Rebuild(k, h).value.transactions {
        ArchivedEntryIsStale(k, h, auth, e);
      }
    }
  }

  // ----- preparing at the approved head -----

  /** A body built from its own outcome yields a block, unless the producer's name or ticket is degenerate. */
  lemma BuildSucceeds(context: AuthenticationContext, slot: u64, parent: Hash, producer: Bytes, ticket: u64,
                      txs: seq<SignedBytes>, outcome: Outcome)
    requires |txs| <= MAX_BLOCK_TRANSACTIONS && |producer| <= MAX_PROPOSER_BYTES && ticket != 0
    requires outcome.ids == TransactionIds(txs) && outcome.gasUsed <= MAX_GAS
    requires producer != [] && producer != RESERVED_PROPOSER && ProposerId(producer) != ZERO_HASH
    ensures Build(context, slot, parent, producer, ticket, txs, outcome).Ok?
  {}

  predicate PreparedAs(x: Setup, auth: Authenticator, p: Policy, o: OwnerState, body: seq<Bytes>) {
    x.prepare(o, body) == PrepareNext(auth, p, o, PRODUCER, 1, body)
  }

  /** A worker's rules and its preparation are the archive's, under one authenticator and policy. */
  ghost predicate PreparesWith(x: Setup, auth: Authenticator, p: Policy) {
    Executes(x.k, auth, p) && forall o, body :: PreparedAs(x, auth, p, o, body)
  }

  /** The real worker prepares with the archive. */
  lemma RealWorkerPrepares(auth: Authenticator, p: Policy, sign: Signer)
    requires Faithful(auth)
    ensures PreparesWith(SetupFor(auth, p, sign), auth, p)
  {
    RealRulesExecute(auth, p);
  }

  /** An owner on a reachable snapshot that may prepare: ready, with a bound producer and numbers to spare. */
  ghost predicate Poised(x: Setup, auth: Authenticator, p: Policy, h: seq<Envelope>, o: OwnerState) {
    && PreparesWith(x, auth, p) && !o.poisoned && Rebuild(x.k, h) == Some(o.snapshot)
    && PRODUCER in p.bindings && ProposerId(PRODUCER) != ZERO_HASH
    && o.snapshot.tip.slot + 1 < U64_LIMIT && o.snapshot.tip.revision + 1 < U64_LIMIT
  }

  /** The next block of a body, with its effects. */
  ghost predicate BuiltFor(auth: Authenticator, p: Policy, s: Snapshot, body: seq<SignedBytes>, b: Block, fx: Effects)
    requires s.tip.slot + 1 < U64_LIMIT
  {
    && BuildNext(auth, p, s, PRODUCER, 1, body) == Ok((b, fx))
    && RunBlock(auth, p.context, s.state, b) == Ok(fx) && b.transactions == body
  }

  lemma NextIsBuildable(auth: Authenticator, p: Policy, s: Snapshot, body: seq<SignedBytes>)
    requires Faithful(auth) && s.tip.slot + 1 < U64_LIMIT && |body| <= MAX_TRANSACTIONS
    requires Stage(s.state, auth, s.tip.slot + 1, body).Ok? && ProposerId(PRODUCER) != ZERO_HASH
    ensures BuildNext(auth, p, s, PRODUCER, 1, body).Ok?
  {
    StagedOutcome(body, auth, s.state, s.tip.slot + 1);
    BuildSucceeds(p.context, s.tip.slot + 1, s.tip.hash, PRODUCER, 1, body,
      Stage(s.state, auth, s.tip.slot + 1, body).value.outcome);
    OwnOutcomeMatches(p.context, s.tip.slot + 1, s.tip.hash, PRODUCER, 1, body, auth, s.state);
  }

  lemma BuildNextSucceeds(auth: Authenticator, p: Policy, s: Snapshot, body: seq<SignedBytes>)
    returns (b: Block, fx: Effects)
    requires Faithful(auth) && s.tip.slot + 1 < U64_LIMIT && |body| <= MAX_TRANSACTIONS
    requires Stage(s.state, auth, s.tip.slot + 1, body).Ok? && ProposerId(PRODUCER) != ZERO_HASH
    ensures BuiltFor(auth, p, s, body, b, fx)
  {
    NextIsBuildable(auth, p, s, body);
    BuildNextOnlyFailsInBody(auth, p, s, PRODUCER, 1, body);
    var built := BuildNext(auth, p, s, PRODUCER, 1, body).value;
    b, fx := built.0, built.1;
  }

  /** Some entry of a body collides with an archived transaction or an earlier entry. */
  ghost predicate BodyCollides(h: seq<Envelope>, body: seq<SignedBytes>) {
    exists j, y :: 0 <= j < |body| && CollidesWithKnown(h, body, j, y)
  }

  /** A body that executes on a reachable snapshot is prepared, unless one of its identifiers collides. */
  lemma ExecutableIsPrepared(x: Setup, auth: Authenticator, p: Policy, h: seq<Envelope>, o: OwnerState,
                             body: seq<SignedBytes>)
    requires Poised(x, auth, p, h, o) && |body| <= MAX_TRANSACTIONS
    requires Stage(o.snapshot.state, auth, o.snapshot.tip.slot + 1, body).Ok?
    ensures x.prepare(o, body).Ok? || BodyCollides(h, body)
  {
    var b, fx := BuildNextSucceeds(auth, p, o.snapshot, body);
    if CheckTransactions(o.snapshot, b, fx.outcome).Some? {
      BuiltDuplicateCollides(x, auth, p, h, o, body, b, fx);
    } else {
      BuiltIsPrepared(x, auth, p, h, o, body, b, fx);
    }
  }

  lemma BuiltDuplicateCollides(x: Setup, auth: Authenticator, p: Policy, h: seq<Envelope>, o: OwnerState,
                               body: seq<SignedBytes>, b: Block, fx: Effects)
    requires Poised(x, auth, p, h, o) && BuiltFor(auth, p, o.snapshot, body, b, fx)
    requires CheckTransactions(o.snapshot, b, fx.outcome).Some?
    ensures BodyCollides(h, body)
  {
    assert RunsAs(x.k, auth, p, o.snapshot.state, b);
    DuplicateMeansCollision(x.k, h, b);
  }

  lemma BuiltIsPrepared(x: Setup, auth: Authenticator, p: Policy, h: seq<Envelope>, o: OwnerState,
                        body: seq<SignedBytes>, b: Block, fx: Effects)
    requires Poised(x, auth, p, h, o) && BuiltFor(auth, p, o.snapshot, body, b, fx)
    requires |body| <= MAX_TRANSACTIONS && CheckTransactions(o.snapshot, b, fx.outcome).None?
    ensures x.prepare(o, body).Ok?
  {
    SignedBytesFit(body);
    assert PreparedAs(x, auth, p, o, body);
  }

  /** The selected body as exact signed bytes. */
  function SelectedBody(entries: seq<Entry>, state: TransferState, slot: u64): (body: seq<SignedBytes>)
    ensures body == Raws(Pick(entries, state, slot).picked)
  {
    var picked := Pick(entries, state, slot).picked;
    seq(|picked|, i requires 0 <= i < |picked| => picked[i].raw)
  }

  /** A worker is ready for its next preparation: available, level with its approvals, within its budget. */
  predicate ReadyToPrepare(p: Policy, m: Machine) {
    && m.Available() && m.producer.Some? && !m.HasPending()
    && m.owner.snapshot.tip == Head(AnchorTip(p), m.approvals) && m.owner.snapshot.tip.revision < MAX_BLOCKS
  }

  /** Admitted entries, seeds within 128 bits, and room in the totals for what is selected. */
  ghost predicate Spendable(auth: Authenticator, p: Policy, s: Snapshot, entries: seq<Entry>)
    requires s.tip.slot + 1 < U64_LIMIT
  {
    && (forall e :: e in entries ==> Admitted(e, auth))
    && TotalBalance(p.initial) + p.initial.feesBurnedTotal < U128_LIMIT
    && Headroom(s.state, |SelectedBody(entries, s.state, s.tip.slot + 1)|)
  }

  /** What the pool selects on a reachable archive is prepared, unless an identifier collides. */
  lemma SelectedIsPrepared(x: Setup, auth: Authenticator, p: Policy, h: seq<Envelope>, o: OwnerState,
                           entries: seq<Entry>)
    requires Poised(x, auth, p, h, o) && Spendable(auth, p, o.snapshot, entries)
    ensures var body := SelectedBody(entries, o.snapshot.state, o.snapshot.tip.slot + 1);
      x.prepare(o, body).Ok? || BodyCollides(h, body)
  {
    SelectedBodyExecutes(x.k, auth, p, h, entries, o.snapshot.tip.slot + 1);
    PickIsSmall(entries, o.snapshot.state, o.snapshot.tip.slot + 1);
    ExecutableIsPrepared(x, auth, p, h, o, SelectedBody(entries, o.snapshot.state, o.snapshot.tip.slot + 1));
  }

  /** At the approved head the worker prepares what its pool selects: for every worker whose archive is
      reachable, with admitted entries, seeds within 128 bits and room in the totals, the command leaves a
      preparation, unless an identifier of the body collides with an archived or earlier one. */
  lemma PrepareYields(x: Setup, auth: Authenticator, p: Policy, h: seq<Envelope>, m: Machine, o: OwnerState,
                      entries: seq<Entry>)
    requires ReadyToPrepare(p, m) && m.owner == o && m.producer.value.entries == entries
    requires Poised(x, auth, p, h, o) && Spendable(auth, p, o.snapshot, entries)
    ensures var body := SelectedBody(entries, o.snapshot.state, o.snapshot.tip.slot + 1);
      Worker.Prepare(x, m).0.HasPending() || BodyCollides(h, body)
  {
    SelectedIsPrepared(x, auth, p, h, o, entries);
    ReservationIsKept(x, m, o, entries);
  }

  lemma ReservationIsKept(x: Setup, m: Machine, o: OwnerState, entries: seq<Entry>)
    requires ReadyToPrepare(x.k.policy, m) && m.owner == o && m.producer.value.entries == entries
    requires o.snapshot.tip.slot + 1 < U64_LIMIT
    ensures x.prepare(o, SelectedBody(entries, o.snapshot.state, o.snapshot.tip.slot + 1)).Ok? ==>
      Worker.Prepare(x, m).0.HasPending()
  {}

  // ----- the worker object -----

  /** The worker's fields around an archive owner; every command is proved to follow its state function. */
  class Node {
    const setup: Setup
    const store: Owner
    var approvals: seq<Selection>
    var pinsValid: bool
    var producer: Option<Production>

    ghost function State(): Machine
      reads this, store, store.file
    {
      Machine(store.State(), store.file.disk, approvals, pinsValid, producer)
    }

    ghost predicate Valid()
      reads this, store
    {
      LawfulSetup(setup) && store.rules == setup.k
    }

    constructor (x: Setup, o: Owner, a: seq<Selection>, p: Option<Production>)
      requires LawfulSetup(x) && o.rules == x.k
      ensures Valid() && setup == x && store == o && fresh(this)
      ensures State() == Machine(o.State(), o.file.disk, a, true, p)
    {
      setup, store, approvals, pinsValid, producer := x, o, a, true, p;
    }

    /** Cleans up after a confirmed commit and answers. */
    method CommitStaged(st: Staged, weather: Weather) returns (r: Reply)
      requires Valid()
      modifies this, store, store.file
      ensures (State(), r) == FinishCommit(old(State()),
        setup.commit(old(store.State()), old(store.file.disk), st, weather))
    {
      assert CommitLaw(setup, store.State(), store.file.disk, st, weather);
      var outcome := store.Commit(st, weather);
      match outcome
      case Committed(tip, _, id) =>
        producer := Cleaned(producer, store.snapshot);
        return NewCommit(tip, id);
      case Aborted(_) => return Failed("aborted");
      case RecoveryRequired(_) => return Failed("recovery_required");
    }

    method ApplyEnvelope(selection: nat, bytes: Bytes, weather: Weather) returns (r: Reply)
      requires Valid()
      modifies this, store, store.file
      ensures (State(), r) == Apply(setup, old(State()), selection, bytes, weather)
    {
      if !pinsValid || store.poisoned {
        return Failed("unavailable");
      }
      if producer.Some? && producer.value.pending.Some? {
        return Failed("producer");
      }
      if selection == 0 || selection > |approvals| {
        return Failed("selection");
      }
      var s, e := approvals[selection - 1], setup.parse(bytes);
      if e.None? || !SelectedContent(s, e.value.block) || !SelectedPlace(s, store.snapshot, e.value) {
        return Failed("selection");
      }
      var o := OwnerState(store.snapshot, store.generation, store.poisoned, store.attempt);
      match setup.stage(o, bytes, s.GrantFor(setup.k.policy))
      case Err(AlreadyCommitted(tip, retained, _)) =>
        if retained != s.envelopeId {
          pinsValid := false;
          return Failed("unavailable");
        }
        return OldCommit(tip);
      case Err(_) => return Failed("rejected");
      case Ok(st) =>
        if EnvelopeId(st.envelope) != s.envelopeId {
          return Failed("selection");
        }
        r := CommitStaged(st, weather);
    }

    method CommitPreparation(selection: nat, weather: Weather) returns (r: Reply)
      requires Valid()
      modifies this, store, store.file
      ensures (State(), r) == CommitPrepared(setup, old(State()), selection, weather)
    {
      if !pinsValid || store.poisoned {
        return Failed("unavailable");
      }
      if selection == 0 || selection > |approvals| {
        return Failed("selection");
      }
      if producer.None? || producer.value.pending.None? || producer.value.pending.value.envelope.None? {
        return Failed("producer");
      }
      var s, p := approvals[selection - 1], producer.value.pending.value;
      if !Binds(s, p, p.envelope.value, store.snapshot.tip) {
        return Failed("selection");
      }
      producer := Some(producer.value.(pending := None));
      var o := OwnerState(store.snapshot, store.generation, store.poisoned, store.attempt);
      match setup.seal(o, p.prepared, setup.encode(p.envelope.value), s.GrantFor(setup.k.policy))
      case Err(_) => return Failed("rejected");
      case Ok(st) => r := CommitStaged(st, weather);
    }

    method Recover(issued: Option<u64>, opens: bool, commit: CommitFate) returns (r: Reply)
      requires Valid()
      modifies this, store, store.file
      ensures (State(), r) == RecoverWorker(setup, old(State()), issued, opens, commit)
    {
      pinsValid := false;
      if producer.Some? {
        producer := Some(producer.value.(pending := None));
      }
      var pending := store.BeginRecovery(issued, opens);
      if pending.Err? {
        return Failed("unavailable");
      }
      var report := store.EndRecovery(pending.value, commit);
      if report.Err? {
        return Failed("unavailable");
      }
      var pinned := CheckPrefix(approvals, store.snapshot.records);
      if !pinned {
        return Failed("unavailable");
      }
      pinsValid := true;
      producer := Cleaned(producer, store.snapshot);
      return Recovered(report.value.0, report.value.1);
    }

    method Extend(steps: seq<StepDocument>) returns (r: Reply)
      requires Valid()
      modifies this
      ensures (State(), r) == ExtendApprovals(setup, old(State()), steps)
    {
      if !pinsValid || store.poisoned {
        return Failed("unavailable");
      }
      var next := LoadApprovals(AnchorTip(setup.k.policy), steps);
      if next.None? || !(approvals <= next.value) {
        return Failed("rejected");
      }
      var pinned := CheckPrefix(next.value, store.snapshot.records);
      if !pinned {
        return Failed("rejected");
      }
      approvals := next.value;
      return Done;
    }
  }
}
