/** The archive's real rules: attribution by bound producers, execution by the transfer executor, and
    preparation of a producer's next block (src/authenticated_fixture.rs). */
module ArchiveRules {
  import opened Base
  import opened Crypto
  import opened NativeTransaction
  import opened NativeTransfer
  import opened BlockCommitment
  import opened NativeBlock
  import opened BlockAuthentication
  import opened Archive
  import opened ArchiveStorage
  import opened ArchiveOwner
  import opened ArchiveRuns

  /** Attribution of wire bytes: decode, network, structure, producer lookup, then the bound key. */
  function AuthenticateWire(p: Policy, bytes: Bytes, claimedId: Option<Hash>): Result<Envelope, ArchiveError> {
    match DecodeEnvelope(bytes)
    case Err(e) => Err(Unauthenticated(e))
    case Ok(e) =>
      if e.network != p.context.networkId then Err(Unauthenticated(WrongNetwork))
      else if Preflight(e.block, p.context).Err? then Err(BadBlock(Preflight(e.block, p.context).error))
      else if e.block.proposer !in p.bindings then Err(UnknownProducer)
      else match AuthenticateBlock(bytes, p.context, e.block.proposer, p.bindings[e.block.proposer], claimedId)
        case Err(error) => Err(Unauthenticated(error))
        case Ok(authenticated) => Ok(authenticated)
  }

  /** Attribution of an envelope value through its own wire bytes. */
  function AttestEnvelope(p: Policy, e: Envelope, claimedId: Option<Hash>): Option<ArchiveError> {
    match AuthenticateWire(p, EncodeEnvelope(e), claimedId)
    case Err(error) => Some(error)
    case Ok(authenticated) => if authenticated == e then None else Some(Invalid)
  }

  /** Staging of a block's body, its structure once more, and the comparison with its claims. */
  function RunBlock(auth: Authenticator, context: AuthenticationContext, s: TransferState, b: Block)
    : Result<Effects, ArchiveError>
  {
    match Stage(s, auth, b.header.slot, b.transactions)
    case Err(e) => Err(BadBody(e))
    case Ok(fx) =>
      match Preflight(b, context)
      case Err(e) => Err(BadBlock(e))
      case Ok(ids) =>
        match MatchOutcome(b, b.transactions, ids, fx.outcome)
        case Some(e) => Err(BadBlock(e))
        case None => Ok(fx)
  }

  function RulesFor(auth: Authenticator, p: Policy): Rules {
    Rules(
      p,
      (bytes: Bytes) => AuthenticateWire(p, bytes, None),
      (e: Envelope, claimedId: Option<Hash>) => AttestEnvelope(p, e, claimedId),
      (s: TransferState, b: Block) => RunBlock(auth, p.context, s, b))
  }

  // ----- the rules are lawful -----

  /** Attribution of bytes is decoding, then attribution of the decoded value. */
  lemma WireIsDecoded(p: Policy, bytes: Bytes, claimedId: Option<Hash>, e: Envelope)
    requires DecodeEnvelope(bytes) == Ok(e)
    ensures AuthenticateWire(p, bytes, claimedId).Ok? ==> AuthenticateWire(p, bytes, claimedId).value == e
    ensures AuthenticateWire(p, bytes, claimedId).Ok? <==>
      && e.network == p.context.networkId && Preflight(e.block, p.context).Ok? && e.block.proposer in p.bindings
      && Attribute(e, p.context, e.block.proposer, p.bindings[e.block.proposer], claimedId).None?
  {
    if e.block.proposer in p.bindings {
      ReconstructionNeverFails(bytes, p.context, e.block.proposer, p.bindings[e.block.proposer], claimedId);
    }
  }

  /** What was received is attested under its own value. */
  lemma ReceivedIsAttested(p: Policy, bytes: Bytes)
    requires AuthenticateWire(p, bytes, None).Ok?
    ensures AttestEnvelope(p, AuthenticateWire(p, bytes, None).value, None).None?
  {
    var e := DecodeEnvelope(bytes).value;
    WireIsDecoded(p, bytes, None, e);
    EncodeDecodeEnvelope(bytes);
  }

  lemma PreflightFacts(b: Block, context: AuthenticationContext)
    requires Preflight(b, context).Ok?
    ensures b.claimedHash == b.Hash() && b.proposer != []
    ensures Preflight(b, context).value == TransactionIds(b.transactions)
  {}

  lemma AttestedFacts(p: Policy, e: Envelope)
    requires AttestEnvelope(p, e, None).None?
    ensures Attested(p, e)
  {
    var bytes := EncodeEnvelope(e);
    WireIsDecoded(p, bytes, None, DecodeEnvelope(bytes).value);
    EncodeDecodeEnvelope(bytes);
    PreflightFacts(e.block, p.context);
  }

  lemma AttributionOfClaim(e: Envelope, context: AuthenticationContext, producer: Bytes, key: PublicKey, id: Hash)
    ensures Attribute(e, context, producer, key, Some(id)).None?
      <==> Attribute(e, context, producer, key, None).None? && id == EnvelopeId(e)
  {}

  lemma ClaimedIdIsExact(p: Policy, e: Envelope, id: Hash)
    ensures AttestEnvelope(p, e, Some(id)).None? <==> AttestEnvelope(p, e, None).None? && id == EnvelopeId(e)
  {
    var bytes := EncodeEnvelope(e);
    if DecodeEnvelope(bytes).Ok? {
      var d := DecodeEnvelope(bytes).value;
      WireIsDecoded(p, bytes, None, d);
      WireIsDecoded(p, bytes, Some(id), d);
      if d.block.proposer in p.bindings {
        AttributionOfClaim(d, p.context, d.block.proposer, p.bindings[d.block.proposer], id);
      }
    }
  }

  /** An executed block consumes fresh nonces, lowers none, drops no account and reports raw identifiers. */
  lemma RunIsExecuted(auth: Authenticator, context: AuthenticationContext, s: TransferState, b: Block)
    requires Faithful(auth) && RunBlock(auth, context, s, b).Ok?
    ensures Executed(s, b, RunBlock(auth, context, s, b).value)
  {
    var fx := Stage(s, auth, b.header.slot, b.transactions).value;
    StagedOutcome(b.transactions, auth, s, b.header.slot);
    StagedConsumes(auth, s, b.header.slot, b.transactions, fx);
    forall a: Address
      ensures s.AccountOf(a).nonce <= fx.state.AccountOf(a).nonce && (a in s.accounts ==> a in fx.state.accounts)
    {
      ExecuteNonces(s, AuthenticateAll(b.transactions, auth).value, b.header.slot, a);
    }
  }

  lemma StagedKey(auth: Authenticator, txs: seq<SignedBytes>, i: nat)
    requires Faithful(auth) && AuthenticateAll(txs, auth).Ok? && i < |txs|
    ensures |AuthenticateAll(txs, auth).value| == |txs|
    ensures var tx := AuthenticateAll(txs, auth).value[i].transaction;
      Keys(txs)[i] == (tx.sender, tx.nonce)
  {
    AuthenticateAllFacts(txs, auth);
    assert Describes(auth(txs[i]).value, txs[i]);
  }

  lemma StagedConsumes(auth: Authenticator, s: TransferState, slot: u64, txs: seq<SignedBytes>, fx: Effects)
    requires Faithful(auth) && Stage(s, auth, slot, txs) == Ok(fx)
    ensures forall i :: 0 <= i < |txs| ==> Consumed(s, fx.state, Keys(txs)[i])
    ensures forall i, j :: 0 <= i < j < |txs| ==> Keys(txs)[i] != Keys(txs)[j]
  {
    var proofs := AuthenticateAll(txs, auth).value;
    forall i | 0 <= i < |txs|
      ensures Consumed(s, fx.state, Keys(txs)[i])
    {
      StagedKey(auth, txs, i);
      NoncesConsumed(s, proofs, slot, i);
    }
    forall i, j | 0 <= i < j < |txs|
      ensures Keys(txs)[i] != Keys(txs)[j]
    {
      StagedKey(auth, txs, i);
      StagedKey(auth, txs, j);
      BodyNoncesDistinct(s, proofs, slot, i, j);
    }
  }

  /** The real rules satisfy everything the archive relies on, for every policy. */
  lemma RulesAreLawful(p: Policy)
    ensures Lawful(RulesFor(AuthenticatorFor(p.context), p))
  {
    AuthenticationIsFaithful(p.context);
    FaithfulRulesAreLawful(AuthenticatorFor(p.context), p);
  }

  lemma FaithfulRulesAreLawful(auth: Authenticator, p: Policy)
    requires Faithful(auth)
    ensures Lawful(RulesFor(auth, p))
  {
    var k := RulesFor(auth, p);
    forall b
      ensures ReceiptLaw(k, b)
    {
      ReceiptIsLawful(auth, p, b);
    }
    forall e
      ensures AttestationLaw(k, e)
    {
      AttestationIsLawful(auth, p, e);
    }
    forall e, id
      ensures ClaimLaw(k, e, id)
    {
      ClaimIsLawful(auth, p, e, id);
    }
    forall s, b
      ensures ExecutionLaw(k, s, b)
    {
      ExecutionIsLawful(auth, p, s, b);
    }
  }

  lemma ReceiptIsLawful(auth: Authenticator, p: Policy, bytes: Bytes)
    ensures ReceiptLaw(RulesFor(auth, p), bytes)
  {
    if AuthenticateWire(p, bytes, None).Ok? {
      ReceivedIsAttested(p, bytes);
    }
  }

  lemma AttestationIsLawful(auth: Authenticator, p: Policy, e: Envelope)
    ensures AttestationLaw(RulesFor(auth, p), e)
  {
    if AttestEnvelope(p, e, None).None? {
      AttestedFacts(p, e);
    }
  }

  lemma ClaimIsLawful(auth: Authenticator, p: Policy, e: Envelope, id: Hash)
    ensures ClaimLaw(RulesFor(auth, p), e, id)
  {
    ClaimedIdIsExact(p, e, id);
  }

  lemma ExecutionIsLawful(auth: Authenticator, p: Policy, s: TransferState, b: Block)
    requires Faithful(auth)
    ensures ExecutionLaw(RulesFor(auth, p), s, b)
  {
    if RunBlock(auth, p.context, s, b).Ok? {
      RunIsExecuted(auth, p.context, s, b);
    }
  }

  /** The real archive, under every policy with a valid empty anchor, is append-only from creation on. */
  lemma ArchiveIsAppendOnly(p: Policy, seats: nat, first: u64, before: seq<Event>, after: seq<Event>)
    requires PolicyAnchored(p) && first + 1 < U64_LIMIT
    ensures var k := RulesFor(AuthenticatorFor(p.context), p);
      var w := Run(k, Created(k, seats, first), before);
      Load(k, w.disk, None).Ok? && RecordsOn(k, w.disk) <= RecordsOn(k, Run(k, w, after).disk)
  {
    RulesAreLawful(p);
    AppendOnlyFromCreation(RulesFor(AuthenticatorFor(p.context), p), seats, first, before, after);
  }

  // ----- preparation -----

  /** The first body entry of the wrong width. */
  function FirstMisfit(body: seq<Bytes>): (r: Option<nat>)
    ensures r.None? ==> forall i :: 0 <= i < |body| ==> |body[i]| == SIGNED_LEN
    ensures r.Some? ==> r.value < |body| && |body[r.value]| != SIGNED_LEN
    ensures r.Some? ==> forall i :: 0 <= i < r.value ==> |body[i]| == SIGNED_LEN
  {
    if body == [] then None
    else
      var earlier := FirstMisfit(body[..|body| - 1]);
      if earlier.Some? then earlier
      else if |body[|body| - 1]| != SIGNED_LEN then Some(|body| - 1) else None
  }

  /** The block a producer would sign next, built from the outcome of its own body. */
  function BuildNext(auth: Authenticator, p: Policy, s: Snapshot, producer: Bytes, ticket: u64, body: seq<SignedBytes>)
    : Result<(Block, Effects), ArchiveError>
    requires s.tip.slot + 1 < U64_LIMIT
  {
    match Stage(s.state, auth, s.tip.slot + 1, body)
    case Err(e) => Err(BadBody(e))
    case Ok(fx) =>
      match Build(p.context, s.tip.slot + 1, s.tip.hash, producer, ticket, body, fx.outcome)
      case Err(e) => Err(BadBlock(e))
      case Ok(b) =>
        match Preflight(b, p.context)
        case Err(e) => Err(BadBlock(e))
        case Ok(ids) =>
          match MatchOutcome(b, body, ids, fx.outcome)
          case Some(e) => Err(BadBlock(e))
          case None => Ok((b, fx))
  }

  /** `prepare_next`. */
  function PrepareNext(auth: Authenticator, p: Policy, o: OwnerState, producer: Bytes, ticket: u64, body: seq<Bytes>)
    : Result<Prepared, ArchiveError>
  {
    if o.poisoned then Err(Blocked)
    else if producer !in p.bindings then Err(UnknownProducer)
    else if |producer| > MAX_PROPOSER_BYTES || |body| > MAX_BLOCK_TRANSACTIONS then Err(Invalid)
    else if FirstMisfit(body).Some? then Err(BadBlock(Frame(SignedLength, FirstMisfit(body))))
    else if ticket == 0 then Err(BadBlock(Ticket))
    else if o.snapshot.tip.slot + 1 >= U64_LIMIT || o.snapshot.tip.revision + 1 >= U64_LIMIT then Err(TooLarge)
    else match BuildNext(auth, p, o.snapshot, producer, ticket, body)
      case Err(e) => Err(e)
      case Ok((b, fx)) =>
        if CheckTransactions(o.snapshot, b, fx.outcome).Some? then
          Err(CheckTransactions(o.snapshot, b, fx.outcome).value)
        else Ok(Prepared(BaseOf(RulesFor(auth, p), o), fx.state, b, fx.outcome))
  }

  lemma SignedBytesFit(body: seq<SignedBytes>)
    ensures FirstMisfit(body).None?
  {}

  /** Building the next block: only the body itself can fail, or a proposer name whose commitment is
      degenerate. In particular the staged-identity, gas, burn and gas-cap rejections never occur. */
  lemma BuildNextOnlyFailsInBody(auth: Authenticator, p: Policy, s: Snapshot, producer: Bytes, ticket: u64,
                                 body: seq<SignedBytes>)
    requires Faithful(auth) && s.tip.slot + 1 < U64_LIMIT && ticket != 0
    requires |producer| <= MAX_PROPOSER_BYTES && |body| <= MAX_BLOCK_TRANSACTIONS
    ensures var r := BuildNext(auth, p, s, producer, ticket, body);
      && (r.Err? ==> r.error.BadBody? || r.error == BadBlock(Proposer))
      && (r.Err? && r.error.BadBody? <==> Stage(s.state, auth, s.tip.slot + 1, body).Err?)
      && (r.Ok? ==>
            && RunBlock(auth, p.context, s.state, r.value.0) == Ok(r.value.1)
            && r.value.0.header.slot == s.tip.slot + 1 && r.value.0.header.parentHash == s.tip.hash
            && r.value.0.transactions == body && r.value.0.proposer == producer)
  {
    if Stage(s.state, auth, s.tip.slot + 1, body).Ok? {
      OwnOutcomeMatches(p.context, s.tip.slot + 1, s.tip.hash, producer, ticket, body, auth, s.state);
    }
  }

  lemma PreparedExecutes(auth: Authenticator, p: Policy, o: OwnerState, producer: Bytes, ticket: u64, body: seq<Bytes>)
    requires Faithful(auth) && PrepareNext(auth, p, o, producer, ticket, body).Ok?
    ensures var prep := PrepareNext(auth, p, o, producer, ticket, body).value;
      && prep.base == BaseOf(RulesFor(auth, p), o)
      && RunBlock(auth, p.context, o.snapshot.state, prep.block) == Ok(Effects(prep.candidate, prep.outcome))
      && CheckTransactions(o.snapshot, prep.block, prep.outcome).None?
  {
    BuildNextOnlyFailsInBody(auth, p, o.snapshot, producer, ticket, body);
  }

  /** The replica theorem. A block prepared and sealed by one owner is accepted, from the same bytes and
      grant, by every ready owner with an equal snapshot, and stages exactly the same record and state. */
  lemma ReplicaAccepts(auth: Authenticator, p: Policy, o: OwnerState, producer: Bytes, ticket: u64, body: seq<Bytes>,
                       bytes: Bytes, g: Grant, replica: OwnerState)
    requires Faithful(auth) && PrepareNext(auth, p, o, producer, ticket, body).Ok?
    requires SealPrepared(RulesFor(auth, p), o, PrepareNext(auth, p, o, producer, ticket, body).value, bytes, g).Ok?
    requires replica.snapshot == o.snapshot && !replica.poisoned
    ensures var k := RulesFor(auth, p);
      var sealed := SealPrepared(k, o, PrepareNext(auth, p, o, producer, ticket, body).value, bytes, g).value;
      StageReceived(k, replica, bytes, g) == Ok(sealed.(base := BaseOf(k, replica)))
  {
    PreparedExecutes(auth, p, o, producer, ticket, body);
    SealedIsReceivable(RulesFor(auth, p), o, PrepareNext(auth, p, o, producer, ticket, body).value, bytes, g, replica);
  }

  lemma SealedIsReceivable(k: Rules, o: OwnerState, prep: Prepared, bytes: Bytes, g: Grant, replica: OwnerState)
    requires k.run(o.snapshot.state, prep.block) == Ok(Effects(prep.candidate, prep.outcome))
    requires CheckTransactions(o.snapshot, prep.block, prep.outcome).None?
    requires SealPrepared(k, o, prep, bytes, g).Ok?
    requires replica.snapshot == o.snapshot && !replica.poisoned
    ensures StageReceived(k, replica, bytes, g)
      == Ok(SealPrepared(k, o, prep, bytes, g).value.(base := BaseOf(k, replica)))
  {}

  /** Two owners that commit the same record and state on equal snapshots end with equal snapshots. */
  lemma ReplicasStayEqual(k: Rules, o: OwnerState, d: Disk, st: Staged, w: Weather,
                          replica: OwnerState, d': Disk, st': Staged, w': Weather)
    requires replica.snapshot == o.snapshot && st'.candidate == st.candidate && st'.Record() == st.Record()
    requires CommitStep(k, o, d, st, w).outcome.Committed? && CommitStep(k, replica, d', st', w').outcome.Committed?
    ensures CommitStep(k, o, d, st, w).owner.snapshot == CommitStep(k, replica, d', st', w').owner.snapshot
  {
    CommittedInstalls(k, o, d, st, w);
    CommittedInstalls(k, replica, d', st', w');
  }

  lemma CommittedInstalls(k: Rules, o: OwnerState, d: Disk, st: Staged, w: Weather)
    requires CommitStep(k, o, d, st, w).outcome.Committed?
    ensures Insert(o.snapshot.(state := st.candidate), st.Record()) == Ok(CommitStep(k, o, d, st, w).owner.snapshot)
  {
    var next := CommitShape(k, o, d, st, w);
    SettledInstalls(o, st, d, Written(d, st), CheckStored(k, d, st), Violates(d, st.Record()),
      Confirmed(k, d, o.snapshot), next, w);
  }

  lemma SettledInstalls(o: OwnerState, st: Staged, d: Disk, d': Disk, refusal: Option<ArchiveError>, forbidden: bool,
                        confirmed: bool, next: Snapshot, w: Weather)
    ensures var c := Settle(o, st, d, d', refusal, forbidden, confirmed, next, w);
      c.outcome.Committed? ==> c.owner.snapshot == next
  {}

  /** After a successful execution on a reachable snapshot, the duplicate check can only report an actual
      collision of identifiers, with an archived transaction or an earlier one of the same body, never a
      reused sender and nonce. */
  lemma DuplicateMeansCollision(k: Rules, h: seq<Envelope>, b: Block)
    requires Lawful(k) && IsHistory(k, h) && k.run(Rebuild(k, h).value.state, b).Ok?
    requires CheckTransactions(Rebuild(k, h).value, b, k.run(Rebuild(k, h).value.state, b).value.outcome).Some?
    ensures exists j, y :: 0 <= j < |b.transactions| && CollidesWithKnown(h, b.transactions, j, y)
  {
    var s := Rebuild(k, h).value;
    var fx := k.run(s.state, b).value;
    assert ExecutionLaw(k, s.state, b);
    var j := FirstClash(s, s.tip, Keys(b.transactions), fx.outcome.ids, 0, Pairs(b.transactions, fx.outcome.ids)).value;
    ClashMeansCollision(k, h, b, s.tip, j);
    var y: SignedBytes :| Collision(b.transactions[j], y)
      && (y in b.transactions[..j] || exists i :: 0 <= i < |h| && y in h[i].block.transactions);
    assert CollidesWithKnown(h, b.transactions, j, y);
  }
}
