/** What a worker answers, exactly: when it commits, recovers, extends its approvals, prepares and proposes
    (examples/testnet_support/mod.rs, profile.rs, producer.rs). */
module WorkerAnswers {
  import opened Base
  import opened Crypto
  import opened NativeTransaction
  import opened NativeTransfer
  import opened BlockCommitment
  import opened NativeBlock
  import opened BlockAuthentication
  import opened ProducerPool
  import opened Archive
  import opened ArchiveStorage
  import opened ArchiveOwner
  import opened ArchiveRuns
  import opened ArchiveCommits
  import opened Worker
  import opened WorkerNode
  import opened WorkerProtocol
  import opened WorkerProposals

  // ----- an undisturbed commit -----

  /** With no fault, a current owner commits a candidate that passes exactly if its identifier is free; then the
      file stands for the longer history. */
  lemma CalmCommitExactly(k: Rules, d: Disk, h: seq<Envelope>, o: OwnerState, st: Staged)
    requires Lawful(k) && PolicyAnchored(k.policy) && Stored(k, d, h) && OwnerOk(k, h, o) && StagedOk(k, st)
    requires Passes(k, o, st) && o.snapshot.tip.revision == |h|
    ensures var c := CommitStep(k, o, d, st, CALM);
      && (c.outcome.Committed? <==> !IdTaken(h, st.envelope))
      && (c.outcome.Committed? ==>
            && c.outcome == Committed(st.tip, st.outcome, EnvelopeId(st.envelope))
            && Stored(k, c.disk, h + [st.envelope]) && !c.owner.poisoned)
  {
    CommitExactly(k, d, h, o, st, CALM, Insert(o.snapshot.(state := st.candidate), st.Record()).value);
    var h' := CommitAppends(k, d, h, o, st, CALM);
  }

  // ----- the producer's own commit -----

  /** A signed preparation on the worker's present base. */
  ghost predicate SignedHere(x: Setup, m: Machine, e: Envelope) {
    && m.HasPending()
    && var p := m.producer.value.pending.value;
    && p.prepared.base == BaseOf(x.k, m.owner) && Follower(x.k, m.owner.snapshot, p.prepared)
    && p.envelope == Some(e) && e.block == p.prepared.block && x.k.receive(x.encode(e)) == Ok(e)
  }

  /** A selection names this envelope. */
  predicate Names(s: Selection, e: Envelope) {
    s.tip.hash == e.block.Hash() && s.envelopeId == EnvelopeId(e)
  }

  lemma SealedPasses(k: Rules, o: OwnerState, p: Prepared, bytes: Bytes, g: Grant)
    requires Lawful(k) && !o.poisoned && p.base == BaseOf(k, o) && Follower(k, o.snapshot, p) && PreparedOk(k, p)
    requires k.receive(bytes).Ok? && k.receive(bytes).value.block == p.block
    requires Follows(o.snapshot, p.block) && g.Matches(k.policy, o.snapshot.tip, p.block)
    ensures SealPrepared(k, o, p, bytes, g).Ok?
    ensures var st := SealPrepared(k, o, p, bytes, g).value;
      Passes(k, o, st) && StagedOk(k, st) && st.envelope == k.receive(bytes).value
      && st.tip == NextTip(o.snapshot, p.block)
  {
    SealsExactly(k, o, p, bytes, g);
    SealOk(k, o, p, bytes, g);
    var s := o.snapshot;
    var keys, ids := Keys(p.block.transactions), p.outcome.ids;
    ClashIgnoresTip(s.(state := p.candidate), s, NextTip(s, p.block), s.tip, keys, ids, 0,
      Pairs(p.block.transactions, ids));
  }

  /** The machine after its preparation is taken. */
  function Taken(m: Machine): Machine
    requires m.HasPending()
  {
    m.(producer := Some(m.producer.value.(pending := None)))
  }

  lemma PreparedMachineCommits(x: Setup, m: Machine, n: nat, e: Envelope, st: Staged, weather: Weather)
    requires m.Available() && 0 < n <= |m.approvals| && SignedHere(x, m, e)
    requires Binds(m.approvals[n - 1], m.producer.value.pending.value, e, m.owner.snapshot.tip)
    requires x.seal(m.owner, m.producer.value.pending.value.prepared, x.encode(e),
      m.approvals[n - 1].GrantFor(x.k.policy)) == Ok(st)
    ensures CommitPrepared(x, m, n, weather) == FinishCommit(Taken(m), x.commit(m.owner, m.disk, st, weather))
  {}

  /** The next selection names this envelope, on the worker's tip. */
  lemma NextBinds(x: Setup, m: Machine, h: seq<Envelope>, e: Envelope)
    requires LawfulSetup(x) && WorkerInv(x, m, h) && m.Available() && SignedHere(x, m, e)
    requires m.owner.snapshot.tip.revision == |h| < |m.approvals|
    requires Names(m.approvals[|h|], e)
    ensures Binds(m.approvals[|h|], m.producer.value.pending.value, e, m.owner.snapshot.tip)
    ensures m.approvals[|h|].GrantFor(x.k.policy).Matches(x.k.policy, m.owner.snapshot.tip, e.block)
    ensures m.approvals[|h|].tip == Tip(e.block.Hash(), e.block.header.slot, |h| + 1)
  {
    TipIsApproved(x, m, h);
    SelectedAbove(AnchorTip(x.k.policy), m.approvals, |h|, m.owner.snapshot.tip);
    NextSelection(AnchorTip(x.k.policy), m.approvals, |h|);
  }

  /** How the end of a command shows in the machine. */
  lemma FinishedExactly(m: Machine, c: Committing)
    ensures var r := FinishCommit(m, c);
      && (r.1.NewCommit? <==> c.outcome.Committed?)
      && (c.outcome.Committed? ==> r.1 == NewCommit(c.outcome.tip, c.outcome.envelopeId))
      && r.0.disk == c.disk && r.0.owner == c.owner && r.0.pinsValid == m.pinsValid && r.0.approvals == m.approvals
      && (!m.HasPending() ==> !r.0.HasPending())
      && (c.outcome.Committed? && m.producer.Some? ==>
            && r.0.producer.Some? && r.0.producer.value.signed == m.producer.value.signed
            && r.0.producer.value.entries
               == Retained(m.producer.value.entries, c.owner.snapshot.transactions.Keys, c.owner.snapshot.state))
      && (!c.outcome.Committed? ==> r.0.producer == m.producer)
  {}

  /** Sealing and committing the producer's preparation, if its block is new. */
  lemma SealedCommits(x: Setup, m: Machine, h: seq<Envelope>, e: Envelope) returns (st: Staged)
    requires LawfulSetup(x) && WorkerInv(x, m, h) && m.Available() && SignedHere(x, m, e)
    requires m.owner.snapshot.tip.revision == |h| < |m.approvals| && Names(m.approvals[|h|], e)
    requires e.block.Hash() !in m.owner.snapshot.hashes
    ensures x.seal(m.owner, m.producer.value.pending.value.prepared, x.encode(e),
      m.approvals[|h|].GrantFor(x.k.policy)) == Ok(st)
    ensures var c := x.commit(m.owner, m.disk, st, CALM);
      && (c.outcome.Committed? <==> !IdTaken(h, e))
      && (c.outcome.Committed? ==>
            && c.outcome.tip == m.approvals[|h|].tip && c.outcome.envelopeId == EnvelopeId(e)
            && Stored(x.k, c.disk, h + [e]) && !c.owner.poisoned)
  {
    var p, g := m.producer.value.pending.value, m.approvals[|h|].GrantFor(x.k.policy);
    NextBinds(x, m, h, e);
    assert SealLaw(x, m.owner, p.prepared, x.encode(e), g);
    CurrentAtTip(x.k, h, m.owner.snapshot);
    TipOfHistory(x.k, h);
    SealedPasses(x.k, m.owner, p.prepared, x.encode(e), g);
    st := SealPrepared(x.k, m.owner, p.prepared, x.encode(e), g).value;
    CalmCommitExactly(x.k, m.disk, h, m.owner, st);
    assert CommitLaw(x, m.owner, m.disk, st, CALM);
  }

  /** A known block is not sealed. */
  lemma KnownIsRefused(x: Setup, m: Machine, n: nat, e: Envelope)
    requires LawfulSetup(x) && m.Available() && 0 < n <= |m.approvals| && SignedHere(x, m, e)
    requires Binds(m.approvals[n - 1], m.producer.value.pending.value, e, m.owner.snapshot.tip)
    requires e.block.Hash() in m.owner.snapshot.hashes
    ensures CommitPrepared(x, m, n, CALM) == (Taken(m), Failed("rejected"))
  {
    var p, g := m.producer.value.pending.value, m.approvals[n - 1].GrantFor(x.k.policy);
    assert SealLaw(x, m.owner, p.prepared, x.encode(e), g);
    SealsExactly(x.k, m.owner, p.prepared, x.encode(e), g);
  }

  /** The producer's round ends: with its signed preparation selected as the next request, an undisturbed commit
      of that selection, the newest one included, succeeds exactly if its block hash is not indexed and its
      identifier is free; then the history has grown by that envelope and no preparation is left. */
  lemma PreparedCommitsExactly(x: Setup, m: Machine, h: seq<Envelope>, e: Envelope)
    requires LawfulSetup(x) && WorkerInv(x, m, h) && m.Available() && SignedHere(x, m, e)
    requires m.owner.snapshot.tip.revision == |h| < |m.approvals| && Names(m.approvals[|h|], e)
    ensures var r := CommitPrepared(x, m, |h| + 1, CALM);
      && (r.1 == NewCommit(m.approvals[|h|].tip, EnvelopeId(e))
          <==> e.block.Hash() !in m.owner.snapshot.hashes && !IdTaken(h, e))
      && (r.1.NewCommit? ==> Stored(x.k, r.0.disk, h + [e]) && r.0.Available())
      && !r.0.HasPending()
  {
    NextBinds(x, m, h, e);
    if e.block.Hash() in m.owner.snapshot.hashes {
      KnownIsRefused(x, m, |h| + 1, e);
    } else {
      var st := SealedCommits(x, m, h, e);
      PreparedMachineCommits(x, m, |h| + 1, e, st, CALM);
      FinishedExactly(Taken(m), x.commit(m.owner, m.disk, st, CALM));
    }
  }

  // ----- a whole producer round -----

  /** Extending the approvals changes nothing else. */
  lemma ExtensionKeeps(x: Setup, m: Machine, steps: seq<StepDocument>)
    ensures var m' := ExtendApprovals(x, m, steps).0; m' == m.(approvals := m'.approvals)
  {}

  /** The machine after preparing, proposing and extending, in that order. */
  function Rounded(x: Setup, m: Machine, steps: seq<StepDocument>): Machine {
    ExtendApprovals(x, Propose(x, Worker.Prepare(x, m).0).0, steps).0
  }

  lemma RoundSigns(x: Setup, auth: Authenticator, p: Policy, m: Machine, e: Envelope, steps: seq<StepDocument>)
    requires LawfulSetup(x) && PreparesWith(x, auth, p) && m.Available() && !m.HasPending() && Proposes(x, m, e)
    requires x.k.receive(x.encode(e)) == Ok(e)
    ensures var m' := Rounded(x, m, steps);
      SignedHere(x, m', e) && m'.owner == m.owner && m'.disk == m.disk && m'.Available()
  {
    var body := FreshProposal(x, m, e);
    PreparedFollows(x, auth, p, m.owner, body);
    assert PrepareLaw(x, m.owner, body) && SignLaw(x, x.prepare(m.owner, body).value.block);
    ExtensionKeeps(x, Propose(x, Worker.Prepare(x, m).0).0, steps);
  }

  lemma RoundKeeps(x: Setup, m: Machine, h: seq<Envelope>, steps: seq<StepDocument>)
    requires LawfulSetup(x) && WorkerInv(x, m, h)
    ensures WorkerInv(x, Rounded(x, m, steps), h)
  {
    Worker.PrepareKeeps(x, m, h);
    ProposeKeeps(x, Worker.Prepare(x, m).0, h);
    ExtendKeeps(x, Propose(x, Worker.Prepare(x, m).0).0, h, steps);
  }

  /** The ordinary round of a producer, level with its archive: it prepares, proposes, has the proposal selected as
      the next request, and commits it, exactly if neither the block hash nor the envelope identifier is taken. */
  lemma ProducerRoundCommits(x: Setup, auth: Authenticator, p: Policy, m: Machine, h: seq<Envelope>, e: Envelope,
                             steps: seq<StepDocument>)
    requires LawfulSetup(x) && PreparesWith(x, auth, p) && WorkerInv(x, m, h) && m.Available() && !m.HasPending()
    requires Proposes(x, m, e) && x.k.receive(x.encode(e)) == Ok(e) && m.owner.snapshot.tip.revision == |h|
    requires var m' := Rounded(x, m, steps); |h| < |m'.approvals| && Names(m'.approvals[|h|], e)
    ensures var m' := Rounded(x, m, steps); var r := CommitPrepared(x, m', |h| + 1, CALM);
      && (r.1 == NewCommit(m'.approvals[|h|].tip, EnvelopeId(e))
          <==> e.block.Hash() !in m.owner.snapshot.hashes && !IdTaken(h, e))
      && (r.1.NewCommit? ==> Stored(x.k, r.0.disk, h + [e]) && r.0.Available() && !r.0.HasPending())
  {
    RoundSigns(x, auth, p, m, e, steps);
    RoundKeeps(x, m, h, steps);
    PreparedCommitsExactly(x, Rounded(x, m, steps), h, e);
  }

  // ----- applying a packet -----

  /** A packet whose block is already archived changes nothing and is answered with its place, whatever its own
      signature, and whatever the storage layer would do. */
  lemma KnownIsOld(x: Setup, m: Machine, h: seq<Envelope>, i: nat, bytes: Bytes, e: Envelope, weather: Weather)
    requires LawfulSetup(x) && WorkerInv(x, m, h) && m.Available() && !m.HasPending()
    requires m.owner.snapshot.tip.revision == |h| && i < |h|
    requires x.k.receive(bytes) == Ok(e) && e.block == h[i].block
    ensures i < |m.approvals| && Apply(x, m, i + 1, bytes, weather) == (m, OldCommit(m.approvals[i].tip))
  {
    KnownIsSelected(x, m, h, i);
    var g := m.approvals[i].GrantFor(x.k.policy);
    CurrentAtTip(x.k, h, m.owner.snapshot);
    KnownBlockIsNamed(x.k, h, i, e, g);
    assert StageLaw(x, m.owner, bytes, g) && ParseLaw(x, bytes);
    OldMachine(x, m, i, bytes, e, weather);
  }

  lemma OldMachine(x: Setup, m: Machine, i: nat, bytes: Bytes, e: Envelope, weather: Weather)
    requires m.Available() && !m.HasPending() && i < |m.approvals| && x.parse(bytes) == Some(e)
    requires SelectedContent(m.approvals[i], e.block) && m.approvals[i].tip.hash in m.owner.snapshot.hashes
    requires x.stage(m.owner, bytes, m.approvals[i].GrantFor(x.k.policy))
      == Err(AlreadyCommitted(m.approvals[i].tip, m.approvals[i].envelopeId, EnvelopeId(e)))
    ensures Apply(x, m, i + 1, bytes, weather) == (m, OldCommit(m.approvals[i].tip))
  {}

  lemma KnownIsSelected(x: Setup, m: Machine, h: seq<Envelope>, i: nat)
    requires LawfulSetup(x) && WorkerInv(x, m, h) && m.Available()
    requires m.owner.snapshot.tip.revision == |h| && i < |h|
    ensures i < |m.approvals| && SelectedContent(m.approvals[i], h[i].block)
    ensures m.approvals[i].tip.hash in m.owner.snapshot.hashes && EnvelopeId(h[i]) == m.approvals[i].envelopeId
    ensures |m.owner.snapshot.records| == |h| + 1 && m.owner.snapshot.records[i + 1].tip == m.approvals[i].tip
  {
    var s := m.owner.snapshot;
    CurrentAtTip(x.k, h, s);
    ArchivedRecord(x.k, h, i);
    assert Retains(s.records[i + 1], m.approvals[i]);
    assert Linked(AnchorTip(x.k.policy), m.approvals, i);
    if i > 0 {
      ArchivedRecord(x.k, h, i - 1);
      assert Retains(s.records[i], m.approvals[i - 1]);
    }
  }

  lemma ArchivedRecord(k: Rules, h: seq<Envelope>, i: nat)
    requires Lawful(k) && PolicyAnchored(k.policy) && IsHistory(k, h) && i < |h|
    ensures var s := Rebuild(k, h).value;
      && |s.records| == |h| + 1 && s.records[i + 1].Append? && s.records[i + 1].envelope == h[i]
      && s.records[i + 1].tip.hash == h[i].block.Hash() && s.records[i + 1].tip.slot == h[i].block.header.slot
      && h[i].block.Hash() in s.hashes
      && h[i].block.header.parentHash == (if i == 0 then k.policy.anchor.Hash() else h[i - 1].block.Hash())
  {
    IndexesExactly(k, h, i + 1);
    RecordOfEnvelope(k, h, i);
    ParentOfRecord(k, h, i);
  }

  /** The parent of an archived block is the block before it, or the anchor. */
  lemma ParentOfRecord(k: Rules, h: seq<Envelope>, i: nat)
    requires IsHistory(k, h) && i < |h|
    ensures h[i].block.header.parentHash == LastHash(k.policy, h[..i])
  {
    RebuildPrefix(k, h, i + 1);
    var s := RebuildLast(k, h[..i + 1]);
    assert h[..i + 1][..i] == h[..i] && h[..i + 1][i] == h[i];
    ExtendShape(k, s, h[i]);
    TipOfHistory(k, h[..i]);
  }

  /** What an undisturbed apply needs for a new commit: the selection right above the archive names the envelope in
      every checked field, and the envelope extends the archive under a free identifier. */
  ghost predicate Appliable(x: Setup, m: Machine, h: seq<Envelope>, n: nat, bytes: Bytes) {
    && n == |h| + 1 <= |m.approvals| && x.k.receive(bytes).Ok?
    && var e := x.k.receive(bytes).value;
    && Names(m.approvals[|h|], e) && WithinBudget(e.block)
    && Extend(x.k, m.owner.snapshot, e).Some? && !IdTaken(h, e)
  }

  /** What a new commit went through. */
  lemma NewCommitShape(x: Setup, m: Machine, n: nat, bytes: Bytes, weather: Weather) returns (st: Staged)
    requires Apply(x, m, n, bytes, weather).1.NewCommit?
    ensures m.Available() && !m.HasPending() && 0 < n <= |m.approvals| && x.parse(bytes).Some?
    ensures SelectedContent(m.approvals[n - 1], x.parse(bytes).value.block)
    ensures x.stage(m.owner, bytes, m.approvals[n - 1].GrantFor(x.k.policy)) == Ok(st)
    ensures EnvelopeId(st.envelope) == m.approvals[n - 1].envelopeId
    ensures x.commit(m.owner, m.disk, st, weather).outcome.Committed?
  {
    st := x.stage(m.owner, bytes, m.approvals[n - 1].GrantFor(x.k.policy)).value;
  }

  lemma StagedPasses(k: Rules, o: OwnerState, bytes: Bytes, g: Grant)
    requires Lawful(k) && StageReceived(k, o, bytes, g).Ok?
    ensures var st := StageReceived(k, o, bytes, g).value; Passes(k, o, st) && StagedOk(k, st)
  {
    ReceiveOk(k, o, bytes, g);
    StagesExactly(k, o, bytes, g);
    var st := StageReceived(k, o, bytes, g).value;
    var s, e := o.snapshot, st.envelope;
    ClashIgnoresTip(s.(state := st.candidate), s, NextTip(s, e.block), s.tip, Keys(e.block.transactions),
      st.outcome.ids, 0, Pairs(e.block.transactions, st.outcome.ids));
  }

  lemma NewCommitNeeds(x: Setup, m: Machine, h: seq<Envelope>, n: nat, bytes: Bytes)
    requires LawfulSetup(x) && WorkerInv(x, m, h) && m.owner.snapshot.tip.revision == |h|
    requires Apply(x, m, n, bytes, CALM).1.NewCommit?
    ensures Appliable(x, m, h, n, bytes)
  {
    var st := NewCommitShape(x, m, n, bytes, CALM);
    var g := m.approvals[n - 1].GrantFor(x.k.policy);
    assert StageLaw(x, m.owner, bytes, g) && ParseLaw(x, bytes) && CommitLaw(x, m.owner, m.disk, st, CALM);
    StagedNeeds(x.k, m.disk, h, m.owner, bytes, g, st);
    SelectionOnTip(AnchorTip(x.k.policy), m.approvals, n, m.owner.snapshot.tip);
  }

  lemma StagedNeeds(k: Rules, d: Disk, h: seq<Envelope>, o: OwnerState, bytes: Bytes, g: Grant, st: Staged)
    requires Lawful(k) && PolicyAnchored(k.policy) && Stored(k, d, h) && OwnerOk(k, h, o)
    requires o.snapshot.tip.revision == |h| && StageReceived(k, o, bytes, g) == Ok(st)
    requires CommitStep(k, o, d, st, CALM).outcome.Committed?
    ensures k.receive(bytes) == Ok(st.envelope) && Extend(k, o.snapshot, st.envelope).Some?
    ensures g.base == o.snapshot.tip && !IdTaken(h, st.envelope)
  {
    StagesExactly(k, o, bytes, g);
    StagedPasses(k, o, bytes, g);
    CalmCommitExactly(k, d, h, o, st);
  }

  /** Heights say which selection builds on a tip. */
  lemma SelectionOnTip(anchor: Tip, approvals: seq<Selection>, n: nat, tip: Tip)
    requires Chained(anchor, approvals) && anchor.revision == 0 && 0 < n <= |approvals|
    requires approvals[n - 1].base == tip
    ensures n == tip.revision + 1
  {
    assert Linked(anchor, approvals, n - 1);
    if n > 1 {
      assert Linked(anchor, approvals, n - 2);
    }
  }

  /** An undisturbed apply commits exactly then. */
  lemma ApplyCommitsExactly(x: Setup, m: Machine, h: seq<Envelope>, n: nat, bytes: Bytes)
    requires LawfulSetup(x) && WorkerInv(x, m, h) && m.owner.snapshot.tip.revision == |h|
    ensures Apply(x, m, n, bytes, CALM).1.NewCommit? <==>
      m.Available() && !m.HasPending() && Appliable(x, m, h, n, bytes)
  {
    if Apply(x, m, n, bytes, CALM).1.NewCommit? {
      var st := NewCommitShape(x, m, n, bytes, CALM);
      NewCommitNeeds(x, m, h, n, bytes);
    } else if m.Available() && !m.HasPending() && Appliable(x, m, h, n, bytes) {
      var e := x.k.receive(bytes).value;
      CurrentAtTip(x.k, h, m.owner.snapshot);
      NextContent(x, m, h, e);
      var h' := ApplyCommitsNext(x, m, h, bytes, e);
    }
  }

  // ----- approvals -----

  /** Pins that extend matching pins match too. */
  lemma PrefixExtends(approvals: seq<Selection>, next: seq<Selection>, records: seq<Record>)
    requires approvals <= next && PrefixOk(approvals, records)
    ensures PrefixOk(next, records)
  {
    forall i | 1 <= i < |records|
      ensures Retains(records[i], next[i - 1])
    {
      assert Retains(records[i], approvals[i - 1]);
    }
  }

  /** An extension is accepted exactly if the worker is available, the document is short, contiguous from the anchor
      and repeats no identity, and it starts with every loaded pin; the comparison with the archive cannot fail.
      Then the pins are those of the document, and otherwise nothing changes. */
  lemma ExtendsExactly(x: Setup, m: Machine, h: seq<Envelope>, steps: seq<StepDocument>)
    requires LawfulSetup(x) && WorkerInv(x, m, h)
    ensures var anchor, r := AnchorTip(x.k.policy), ExtendApprovals(x, m, steps);
      && (r.1 == Done <==>
            && m.Available() && |steps| <= 200 && (forall i :: 0 <= i < |steps| ==> ValidStep(anchor, steps, i))
            && |m.approvals| <= |steps|
            && forall i :: 0 <= i < |m.approvals| ==> m.approvals[i] == SelectionAt(steps, i))
      && (r.1 == Done ==>
            |r.0.approvals| == |steps| && forall i :: 0 <= i < |steps| ==> r.0.approvals[i] == SelectionAt(steps, i))
      && (r.1 != Done ==> r.0 == m)
  {
    if m.Available() && ReadApprovals(AnchorTip(x.k.policy), steps).Some? {
      var next := ReadApprovals(AnchorTip(x.k.policy), steps).value;
      if m.approvals <= next {
        PrefixExtends(m.approvals, next, m.owner.snapshot.records);
      }
    }
  }

  // ----- recovery -----

  /** A recovery makes the worker available exactly if a generation is issued, the file opens, COMMIT lands, the
      barrier has room, the attempt (if any) is resolved, and the archive matches the pins. Then the worker is at
      the durable history, its pool is cleaned and no preparation is left; otherwise it stays unavailable. */
  lemma WorkerRecoversExactly(x: Setup, m: Machine, h: seq<Envelope>, issued: Option<u64>, opens: bool,
                              commit: CommitFate)
    requires LawfulSetup(x) && WorkerInv(x, m, h)
    ensures var r := RecoverWorker(x, m, issued, opens, commit);
      && (r.0.Available() <==>
            && issued.Some? && opens && commit == Lands && m.disk.barrier + 1 < U64_LIMIT
            && (m.owner.attempt.None? || |h| == m.owner.snapshot.tip.revision || Present(h, m.owner))
            && PrefixOk(m.approvals, Rebuild(x.k, h).value.records))
      && (r.1.Recovered? <==> r.0.Available())
      && (r.0.Available() ==> r.0.owner.snapshot == Rebuild(x.k, h).value)
      && !r.0.HasPending() && r.0.approvals == m.approvals
  {
    RecoversExactly(x.k, m.disk, h, m.owner, issued, opens, commit);
    var begun := RecoverBegin(x.k, m.owner, m.disk, issued, opens);
    ResumedMachine(x, m, issued, opens, commit);
    if begun.1.Ok? {
      AuditedHistory(x.k, m.disk, h, begun.0);
      FinishedRecovery(Unpinned(m).(owner := begun.0), RecoverEnd(x.k, begun.0, m.disk, begun.1.value, commit));
      InstalledOwner(x.k, begun.0, m.disk, begun.1.value, commit);
    }
  }

  lemma ResumedMachine(x: Setup, m: Machine, issued: Option<u64>, opens: bool, commit: CommitFate)
    ensures var begun := RecoverBegin(x.k, m.owner, m.disk, issued, opens);
      var m' := Unpinned(m).(owner := begun.0);
      RecoverWorker(x, m, issued, opens, commit)
      == if begun.1.Err? then (m', Failed("unavailable"))
         else FinishRecovery(m', RecoverEnd(x.k, begun.0, m.disk, begun.1.value, commit))
  {}

  lemma FinishedRecovery(m: Machine, r: Recovering)
    requires !m.pinsValid && !m.HasPending()
    ensures var f := FinishRecovery(m, r);
      && (f.1.Recovered? <==> r.report.Ok? && PrefixOk(m.approvals, r.owner.snapshot.records))
      && (f.0.pinsValid <==> f.1.Recovered?) && f.0.owner == r.owner && f.0.approvals == m.approvals
      && !f.0.HasPending()
      && (f.1.Recovered? && m.producer.Some? ==>
            && f.0.producer.Some? && f.0.producer.value.signed == m.producer.value.signed
            && f.0.producer.value.entries
               == Retained(m.producer.value.entries, r.owner.snapshot.transactions.Keys, r.owner.snapshot.state))
  {}

  lemma InstalledOwner(k: Rules, o: OwnerState, d: Disk, p: Pending, commit: CommitFate)
    ensures var r := RecoverEnd(k, o, d, p, commit);
      r.report.Ok? ==> r.owner.snapshot == p.snapshot && !r.owner.poisoned
  {}

  lemma AuditedHistory(k: Rules, d: Disk, h: seq<Envelope>, o: OwnerState)
    requires Lawful(k) && PolicyAnchored(k.policy) && Stored(k, d, h) && OwnerOk(k, h, o)
    ensures Examine(k, o, d).Ok? ==> Examine(k, o, d).value.snapshot == Rebuild(k, h).value
  {
    RecoveryVerdict(k, d, h, o);
  }

  // ----- preparing and proposing -----

  /** Preparing is accepted exactly if the worker is available as a producer, and either has its preparation on the
      present tip, which it keeps, or has none, is at the approved head below height 200, and the archive prepares
      what the pool selects, which it then owns unsigned. */
  lemma PreparesExactly(x: Setup, m: Machine)
    requires m.producer.Some? && m.owner.snapshot.tip.slot + 1 < U64_LIMIT
    ensures var r, s := Worker.Prepare(x, m), m.owner.snapshot;
      var body := Raws(Pick(m.producer.value.entries, s.state, s.tip.slot + 1).picked);
      && (r.1 == Done <==>
            && m.Available()
            && if m.HasPending() then m.producer.value.pending.value.prepared.base.tip == s.tip
               else
                 && s.tip == (if m.approvals == [] then AnchorTip(x.k.policy) else m.approvals[|m.approvals| - 1].tip)
                 && s.tip.revision < 200 && x.prepare(m.owner, body).Ok?)
      && (r.0 != m ==>
            && !m.HasPending() && x.prepare(m.owner, body).Ok?
            && r.0 == WithPending(m, Preparation(x.prepare(m.owner, body).value, None)))
      && (r.1 == Done && !m.HasPending() ==> r.0.HasPending())
  {}

  /** Proposing is answered with an envelope exactly if the worker is available and its preparation is on the present
      tip, and either is signed already, when the same envelope comes back and nothing is signed again, or is not
      and the worker is at the approved head and the key signs. */
  lemma ProposesExactly(x: Setup, m: Machine)
    requires m.HasPending()
    ensures var r, p := Propose(x, m), m.producer.value.pending.value;
      && (r.1.Proposal? <==>
            && m.Available() && p.prepared.base.tip == m.owner.snapshot.tip
            && (p.envelope.Some?
                || (m.owner.snapshot.tip == Head(AnchorTip(x.k.policy), m.approvals)
                    && x.sign(p.prepared.block).Some?)))
      && (r.1.Proposal? && p.envelope.Some? ==> r == (m, Proposal(p.envelope.value)))
      && (r.1.Proposal? && p.envelope.None? ==>
            && r.1 == Proposal(x.sign(p.prepared.block).value)
            && r.0 == WithSignature(m, p, x.sign(p.prepared.block).value))
      && (!r.1.Proposal? ==> r.0 == m)
  {}
}
