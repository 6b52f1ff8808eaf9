/** What the producer proposes: at the head of its archive, a proposal is framed as the controller demands and
    accepted by every archive with the same packets (examples/testnet_support/producer.rs,
    scripts/testnet_fixture_controller.py). */
module WorkerProposals {
  import opened Base
  import opened Crypto
  import opened NativeTransaction
  import opened NativeTransfer
  import opened BlockCommitment
  import opened NativeBlock
  import opened BlockAuthentication
  import opened ProducerPool
  import opened Archive
  import opened ArchiveStorage
  import opened ArchiveOwner
  import opened ArchiveRuns
  import opened ArchiveRules
  import opened Worker
  import opened WorkerNode
  import opened Controller
  import opened WorkerProtocol
  import ControllerRuns

  // ----- the head of a history -----

  function LastHash(p: Policy, h: seq<Envelope>): Hash {
    if h == [] then p.anchor.Hash() else h[|h| - 1].block.Hash()
  }

  /** The tip of a history: one slot per envelope above the anchor, the hash of the last block, and no indexed
      slot above it. */
  lemma {:induction false} TipOfHistory(k: Rules, h: seq<Envelope>)
    requires IsHistory(k, h)
    ensures var s := Rebuild(k, h).value;
      && s.tip.slot == k.policy.anchor.header.slot + |h| && s.tip.hash == LastHash(k.policy, h)
      && forall slot :: slot in s.slots ==> slot <= s.tip.slot
  {
    if h != [] {
      var s := RebuildLast(k, h);
      TipOfHistory(k, h[..|h| - 1]);
      ExtendShape(k, s, h[|h| - 1]);
    }
  }

  /** An indexed block hash is that of the anchor or of an archived block. */
  lemma {:induction false} IndexedHashes(k: Rules, h: seq<Envelope>, hash: Hash)
    requires IsHistory(k, h) && hash in Rebuild(k, h).value.hashes
    ensures hash == k.policy.anchor.Hash() || exists i :: 0 <= i < |h| && h[i].block.Hash() == hash
  {
    if h != [] {
      var front := h[..|h| - 1];
      var s := RebuildLast(k, h);
      ExtendShape(k, s, h[|h| - 1]);
      if hash in s.hashes {
        IndexedHashes(k, front, hash);
        if hash != k.policy.anchor.Hash() {
          var i :| 0 <= i < |front| && front[i].block.Hash() == hash;
          assert h[i].block.Hash() == hash;
        }
      } else {
        assert h[|h| - 1].block.Hash() == hash;
      }
    }
  }

  // ----- a prepared block extends its archive -----

  /** What a preparation guarantees about its block: it follows the tip, executes, and repeats no archived
      transaction. */
  predicate Follower(k: Rules, s: Snapshot, prep: Prepared) {
    && prep.block.header.slot == s.tip.slot + 1 && prep.block.header.parentHash == s.tip.hash
    && s.tip.revision + 1 < U64_LIMIT
    && k.run(s.state, prep.block) == Ok(Effects(prep.candidate, prep.outcome))
    && CheckTransactions(s, prep.block, prep.outcome).None?
  }

  lemma PreparedPlace(auth: Authenticator, p: Policy, o: OwnerState, producer: Bytes, body: seq<Bytes>)
    requires Faithful(auth) && PrepareNext(auth, p, o, producer, 1, body).Ok?
    ensures var b := PrepareNext(auth, p, o, producer, 1, body).value.block;
      b.header.slot == o.snapshot.tip.slot + 1 && b.header.parentHash == o.snapshot.tip.hash
    ensures o.snapshot.tip.revision + 1 < U64_LIMIT
  {
    BuildNextOnlyFailsInBody(auth, p, o.snapshot, producer, 1, body);
  }

  lemma PreparedFollows(x: Setup, auth: Authenticator, p: Policy, o: OwnerState, body: seq<Bytes>)
    requires PreparesWith(x, auth, p) && x.prepare(o, body).Ok?
    ensures Follower(x.k, o.snapshot, x.prepare(o, body).value)
  {
    assert PreparedAs(x, auth, p, o, body);
    PreparedPlace(auth, p, o, PRODUCER, body);
    PreparedExecutes(auth, p, o, PRODUCER, 1, body);
    assert RunsAs(x.k, auth, p, o.snapshot.state, x.prepare(o, body).value.block);
  }

  /** An envelope around a prepared block extends the archive, unless its block hash is already indexed. */
  lemma PreparedExtends(k: Rules, h: seq<Envelope>, prep: Prepared, e: Envelope)
    requires IsHistory(k, h) && Follower(k, Rebuild(k, h).value, prep) && e.block == prep.block
    requires k.attest(e, None).None? && e.block.Hash() !in Rebuild(k, h).value.hashes
    ensures Extend(k, Rebuild(k, h).value, e).Some?
  {
    var s := Rebuild(k, h).value;
    TipOfHistory(k, h);
    var keys, ids := Keys(e.block.transactions), prep.outcome.ids;
    ClashIgnoresTip(s.(state := prep.candidate), s, NextTip(s, e.block), s.tip, keys, ids, 0,
      Pairs(e.block.transactions, ids));
  }

  // ----- what a step's producer answers -----

  /** Preparing and then proposing is answered with an envelope. */
  predicate Proposes(x: Setup, m: Machine, e: Envelope) {
    Propose(x, Worker.Prepare(x, m).0).1 == Proposal(e)
  }

  /** A fresh preparation followed by a proposal signs one prepared block of selected transactions. */
  lemma FreshProposal(x: Setup, m: Machine, e: Envelope) returns (body: seq<Bytes>)
    requires m.Available() && !m.HasPending() && Proposes(x, m, e)
    ensures |body| <= MAX_TRANSACTIONS && x.prepare(m.owner, body).Ok?
    ensures x.sign(x.prepare(m.owner, body).value.block) == Some(e)
    ensures var m' := Propose(x, Worker.Prepare(x, m).0).0;
      && m'.HasPending()
      && m'.producer.value.pending.value == Preparation(x.prepare(m.owner, body).value, Some(e))
      && m'.owner == m.owner && m'.disk == m.disk && m'.approvals == m.approvals && m'.pinsValid == m.pinsValid
  {
    body := PrepareShape(x, m);
  }

  /** The proposed block hash is already taken by the anchor or an archived block, all of lower slots. */
  predicate HashRepeats(p: Policy, h: seq<Envelope>, b: Block) {
    b.Hash() == p.anchor.Hash() || exists i :: 0 <= i < |h| && h[i].block.Hash() == b.Hash()
  }

  /** The proposed envelope identifier is already taken by an archived envelope. */
  predicate EnvelopeRepeats(h: seq<Envelope>, e: Envelope) {
    exists i :: 0 <= i < |h| && EnvelopeId(h[i]) == EnvelopeId(e)
  }

  /** A proposal made by preparing and signing on an archive of these packets. */
  ghost predicate ProposedOn(x: Setup, m: Machine, packets: seq<Bytes>, h: seq<Envelope>, e: Envelope) {
    && ReadAll(x.k, packets) == Some(h) && Rebuild(x.k, h) == Some(m.owner.snapshot)
    && m.Available() && !m.HasPending() && Proposes(x, m, e)
    && x.k.receive(x.encode(e)) == Ok(e)
  }

  lemma ProposalFacts(x: Setup, auth: Authenticator, p: Policy, m: Machine, e: Envelope) returns (prep: Prepared)
    requires LawfulSetup(x) && PreparesWith(x, auth, p)
    requires m.Available() && !m.HasPending() && Proposes(x, m, e)
    ensures Follower(x.k, m.owner.snapshot, prep) && e.block == prep.block && WithinBudget(e.block)
  {
    var body := FreshProposal(x, m, e);
    prep := x.prepare(m.owner, body).value;
    assert SignLaw(x, prep.block) && PrepareLaw(x, m.owner, body);
    PreparedFollows(x, auth, p, m.owner, body);
  }

  /** What the producer proposes, its own archive accepts, unless the block hash or the envelope identifier
      collides with an archived one. */
  lemma ProposalIsAccepted(x: Setup, auth: Authenticator, p: Policy, m: Machine, packets: seq<Bytes>,
                           h: seq<Envelope>, e: Envelope)
    requires LawfulSetup(x) && PreparesWith(x, auth, p) && ProposedOn(x, m, packets, h, e)
    ensures Accepted(x.k, packets, x.encode(e)) || HashRepeats(p, h, e.block) || EnvelopeRepeats(h, e)
  {
    var prep := ProposalFacts(x, auth, p, m, e);
    assert ReceiptLaw(x.k, x.encode(e));
    PreparedIsAccepted(x.k, packets, h, prep, e, x.encode(e));
  }

  lemma PreparedIsAccepted(k: Rules, packets: seq<Bytes>, h: seq<Envelope>, prep: Prepared, e: Envelope, b: Bytes)
    requires ReadAll(k, packets) == Some(h) && IsHistory(k, h) && k.receive(b) == Ok(e) && k.attest(e, None).None?
    requires Follower(k, Rebuild(k, h).value, prep) && e.block == prep.block && WithinBudget(e.block)
    ensures Accepted(k, packets, b) || HashRepeats(k.policy, h, e.block) || EnvelopeRepeats(h, e)
  {
    if e.block.Hash() in Rebuild(k, h).value.hashes {
      IndexedHashes(k, h, e.block.Hash());
    } else {
      PreparedExtends(k, h, prep, e);
    }
  }

  /** The header fields that structural checks fix. */
  predicate Profiled(p: Policy, b: Block) {
    && b.header.chainId == p.context.chainId && b.header.protocolVersion == EXPERIMENTAL_HEADER_PROFILE
    && b.header.kind == Validator
  }

  lemma ExecutedIsProfiled(auth: Authenticator, p: Policy, s: TransferState, b: Block)
    requires RunBlock(auth, p.context, s, b).Ok?
    ensures Profiled(p, b)
  {}

  /** The hash the controller expects below the next packet is that of the archive's tip. */
  lemma LastIdentity(x: Setup, packets: seq<Bytes>, h: seq<Envelope>)
    requires LawfulSetup(x) && ReadAll(x.k, packets) == Some(h)
    ensures |h| == |packets|
    ensures LastHash(x.k.policy, h)
      == if packets == [] then x.k.policy.anchor.Hash() else IdentOf(x, packets[|packets| - 1]).hash
  {
    LastRead(x.k, packets, h);
    if packets != [] {
      IdentAt(x, packets[|packets| - 1]);
    }
  }

  lemma LastRead(k: Rules, packets: seq<Bytes>, h: seq<Envelope>)
    requires ReadAll(k, packets) == Some(h)
    ensures |h| == |packets|
    ensures packets != [] ==> k.receive(packets[|packets| - 1]) == Ok(h[|h| - 1])
  {
    ReadLength(k, packets);
    if packets != [] {
      ReadAt(k, packets, |packets| - 1);
    }
  }

  /** And it is framed as the controller demands. */
  lemma ProposalIsFramed(x: Setup, auth: Authenticator, p: Policy, m: Machine, packets: seq<Bytes>,
                         h: seq<Envelope>, e: Envelope)
    requires LawfulSetup(x) && PreparesWith(x, auth, p) && ProposedOn(x, m, packets, h, e)
    ensures Framed(x, packets, x.encode(e))
  {
    var prep := ProposalFacts(x, auth, p, m, e);
    assert ParseLaw(x, x.encode(e)) && ReceiptLaw(x.k, x.encode(e)) && AttestationLaw(x.k, e);
    assert RunsAs(x.k, auth, p, m.owner.snapshot.state, e.block);
    ExecutedIsProfiled(auth, p, m.owner.snapshot.state, e.block);
    TipOfHistory(x.k, h);
    LastIdentity(x, packets, h);
  }

  /** So a step with the experiment's own producer goes through: on a site with nothing torn and both archives
      level with a corpus below the budget, an uninterrupted step brings the producer's proposal into both
      archives, unless it collides with an archived block or envelope. */
  lemma RealStepCompletes(x: Setup, auth: Authenticator, p: Policy, m: Machine, d: Durable, h: seq<Envelope>,
                          e: Envelope)
    requires LawfulSetup(x) && PreparesWith(x, auth, p) && ProposedOn(x, m, d.corpus, h, e)
    requires SiteOk(ProtocolFor(x), d) && NoTorn(d) && |d.corpus| < MAX_STEPS
    requires d.producerArchive == d.corpus && d.followerArchive == d.corpus
    ensures var r := ControllerRuns.StepOp(ProtocolFor(x), d, Some(x.encode(e)), []);
      || (r.ok && r.d.producerArchive == d.corpus + [x.encode(e)] && r.d.followerArchive == d.corpus + [x.encode(e)])
      || HashRepeats(p, h, e.block) || EnvelopeRepeats(h, e)
  {
    ProposalIsAccepted(x, auth, p, m, d.corpus, h, e);
    ProposalIsFramed(x, auth, p, m, d.corpus, h, e);
    ProtocolIsLawful(x);
    if Accepted(x.k, d.corpus, x.encode(e)) {
      AcceptedStepCompletes(ProtocolFor(x), d, x.encode(e));
    }
  }

  lemma AcceptedStepCompletes(p: Protocol, d: Durable, b: Bytes)
    requires LawfulProtocol(p) && SiteOk(p, d) && NoTorn(d) && |d.corpus| < MAX_STEPS
    requires d.producerArchive == d.corpus && d.followerArchive == d.corpus
    requires p.fits(d.corpus, b) && p.accepts(d.corpus, b)
    ensures var r := ControllerRuns.StepOp(p, d, Some(b), []);
      r.ok && r.d.producerArchive == d.corpus + [b] && r.d.followerArchive == d.corpus + [b]
  {
    ControllerRuns.StepExactly(p, d, Some(b), []);
  }

  // ----- signed envelopes are received -----

  /** An envelope whose attribution succeeds is received from its own wire bytes. */
  lemma SignedIsReceived(p: Policy, e: Envelope)
    requires e.block.Bounded() && e.block.proposer in p.bindings
    requires Attribute(e, p.context, e.block.proposer, p.bindings[e.block.proposer], None).None?
    ensures AuthenticateWire(p, EncodeEnvelope(e), None) == Ok(e)
  {
    PreflightedFits(e.block, p.context);
    DecodeEncodeEnvelope(e);
    WireIsDecoded(p, EncodeEnvelope(e), None, e);
  }
}
