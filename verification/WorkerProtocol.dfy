/** The workers as the controller sees them: identities, framing and acceptance of packets, computed by the
    archive (scripts/testnet_fixture_controller.py, examples/testnet_support/mod.rs). */
module WorkerProtocol {
  import opened Base
  import opened Crypto
  import opened NativeTransaction
  import opened BlockCommitment
  import opened NativeBlock
  import opened BlockAuthentication
  import opened ProducerPool
  import opened Archive
  import opened ArchiveStorage
  import opened ArchiveOwner
  import opened ArchiveRuns
  import opened Worker
  import opened WorkerNode
  import opened Controller
  import ControllerRuns

  /** The history behind an archive of packets. */
  function ReadAll(k: Rules, packets: seq<Bytes>): Option<seq<Envelope>> {
    if packets == [] then Some([])
    else match ReadAll(k, packets[..|packets| - 1])
      case None => None
      case Some(h) =>
        match k.receive(packets[|packets| - 1])
        case Err(_) => None
        case Ok(e) => Some(h + [e])
  }

  /** `packet_identity`: the block hash and the envelope identifier of a packet. */
  function IdentOf(x: Setup, b: Bytes): Ident {
    match x.parse(b)
    case None => Ident(ZERO_HASH, ZERO_HASH)
    case Some(e) => Ident(e.block.Hash(), EnvelopeId(e))
  }

  /** The framing that the controller checks itself: network, profile, slot, parent, ticket and producer. */
  predicate Framed(x: Setup, packets: seq<Bytes>, b: Bytes) {
    match x.parse(b)
    case None => false
    case Some(e) =>
      var header := e.block.header;
      && e.network == x.k.policy.context.networkId && header.chainId == x.k.policy.context.chainId
      && header.protocolVersion == EXPERIMENTAL_HEADER_PROFILE && header.kind == Validator
      && header.slot == |packets| + 1 && e.block.claimedHash == e.block.Hash()
      && header.parentHash
         == (if packets == [] then x.k.policy.anchor.Hash() else IdentOf(x, packets[|packets| - 1]).hash)
      && header.ticketId == 1 && e.block.proposer == PRODUCER
  }

  /** What the experiment allows in a block. */
  predicate WithinBudget(b: Block) {
    b.proposer == PRODUCER && b.header.ticketId == 1 && |b.transactions| <= MAX_TRANSACTIONS
  }

  /** The archive's rules accept a packet as the next envelope, and its identifier is new, as the unique index
      of the archive demands. */
  predicate Accepted(k: Rules, packets: seq<Bytes>, b: Bytes) {
    match ReadAll(k, packets)
    case None => false
    case Some(h) =>
      match Rebuild(k, h)
      case None => false
      case Some(s) =>
        match k.receive(b)
        case Err(_) => false
        case Ok(e) =>
          && Extend(k, s, e).Some? && WithinBudget(e.block)
          && forall i :: 0 <= i < |h| ==> EnvelopeId(h[i]) != EnvelopeId(e)
  }

  function ProtocolFor(x: Setup): Protocol {
    Protocol(
      x.k.policy.anchor.Hash(),
      (b: Bytes) => IdentOf(x, b),
      (packets: seq<Bytes>, b: Bytes) => Framed(x, packets, b),
      (packets: seq<Bytes>, b: Bytes) => Accepted(x.k, packets, b))
  }

  lemma {:induction false} ReadAt(k: Rules, packets: seq<Bytes>, i: nat)
    requires ReadAll(k, packets).Some? && i < |packets|
    ensures |ReadAll(k, packets).value| == |packets| && k.receive(packets[i]) == Ok(ReadAll(k, packets).value[i])
  {
    var n := |packets| - 1;
    if i < n {
      ReadAt(k, packets[..n], i);
    } else if n > 0 {
      ReadAt(k, packets[..n], 0);
    }
  }

  lemma {:induction false} ReadLength(k: Rules, packets: seq<Bytes>)
    requires ReadAll(k, packets).Some?
    ensures |ReadAll(k, packets).value| == |packets|
  {
    if packets != [] {
      ReadLength(k, packets[..|packets| - 1]);
    }
  }

  /** An extension's block is new to its history, and is not the anchor. */
  lemma ExtensionIsNew(k: Rules, h: seq<Envelope>, e: Envelope)
    requires Lawful(k) && PolicyAnchored(k.policy) && IsHistory(k, h) && Extend(k, Rebuild(k, h).value, e).Some?
    ensures e.block.Hash() != k.policy.anchor.Hash()
    ensures forall i :: 0 <= i < |h| ==> h[i].block.Hash() != e.block.Hash()
  {
    var s := Rebuild(k, h).value;
    ExtendShape(k, s, e);
    RecordsIndexed(k, h, 0);
    AnchorFirst(k, h);
    forall i | 0 <= i < |h|
      ensures h[i].block.Hash() != e.block.Hash()
    {
      RecordsIndexed(k, h, i + 1);
      RecordOfEnvelope(k, h, i);
    }
  }

  /** The controller's identity of an accepted packet is that of the envelope the archive reads from it. */
  lemma IdentAt(x: Setup, b: Bytes)
    requires LawfulSetup(x) && x.k.receive(b).Ok?
    ensures IdentOf(x, b) == Ident(x.k.receive(b).value.block.Hash(), EnvelopeId(x.k.receive(b).value))
  {
    assert ParseLaw(x, b);
  }

  lemma IdentsDiffer(x: Setup, packets: seq<Bytes>, b: Bytes, i: nat)
    requires LawfulSetup(x) && Accepted(x.k, packets, b) && i < |packets|
    ensures IdentOf(x, packets[i]).hash != IdentOf(x, b).hash
    ensures IdentOf(x, packets[i]).envelopeId != IdentOf(x, b).envelopeId
  {
    var h, e := ReadAll(x.k, packets).value, x.k.receive(b).value;
    ReadAt(x.k, packets, i);
    IdentAt(x, b);
    IdentAt(x, packets[i]);
    ExtensionIsNew(x.k, h, e);
  }

  /** Workers accept only new identities, so the controller's law holds of the real archive. */
  lemma AcceptedIsNew(x: Setup, packets: seq<Bytes>, b: Bytes)
    requires LawfulSetup(x) && Accepted(x.k, packets, b)
    ensures Controller.NewIdentity(ProtocolFor(x), packets, b)
  {
    IdentAt(x, b);
    ExtensionIsNew(x.k, ReadAll(x.k, packets).value, x.k.receive(b).value);
    forall i | 0 <= i < |packets|
      ensures IdentOf(x, packets[i]).hash != IdentOf(x, b).hash
      ensures IdentOf(x, packets[i]).envelopeId != IdentOf(x, b).envelopeId
    {
      IdentsDiffer(x, packets, b, i);
    }
  }

  lemma ProtocolIsLawful(x: Setup)
    requires LawfulSetup(x)
    ensures LawfulProtocol(ProtocolFor(x))
  {
    forall packets, b
      ensures AcceptLaw(ProtocolFor(x), packets, b)
    {
      if Accepted(x.k, packets, b) {
        AcceptedIsNew(x, packets, b);
      }
    }
  }

  /** With the experiment's own workers, from the initialized site and through any invocations and interruptions,
      an uninterrupted replay brings both archives to the corpus exactly if there is one and no file is torn. */
  lemma RealWorkersReplay(policy: Policy, sign: Signer, invocations: seq<ControllerRuns.Invocation>)
    requires ProfileOk(policy) && forall b :: sign(b).Some? ==> sign(b).value.block == b
    ensures var p := ProtocolFor(SetupFor(AuthenticatorFor(policy.context), policy, sign));
      var before := ControllerRuns.RunAll(p, Initialized(), invocations);
      var r := ControllerRuns.ReplayOp(p, before, []);
      && SiteOk(p, before) && (r.ok <==> before.corpus != [] && NoTorn(before))
      && (r.ok ==> r.d.producerArchive == before.corpus && r.d.followerArchive == before.corpus)
  {
    var x := SetupFor(AuthenticatorFor(policy.context), policy, sign);
    SetupIsLawful(policy, sign);
    ProtocolIsLawful(x);
    InitializedIsOk(ProtocolFor(x));
    ControllerRuns.ChainInEveryRun(ProtocolFor(x), Initialized(), invocations);
    ControllerRuns.ReplayAfterAnyRun(ProtocolFor(x), Initialized(), invocations);
  }

  /** An undisturbed apply of selection n answers with a new commit and leaves `h` durable. */
  ghost predicate CommitsCalmly(x: Setup, m: Machine, n: nat, b: Bytes, h: seq<Envelope>) {
    var (m', reply) := Apply(x, m, n, b, CALM);
    reply.NewCommit? && Stored(x.k, m'.disk, h)
  }

  /** What the controller counts on: an accepted packet, selected next, is committed by an undisturbed worker
      and becomes the next envelope of its durable history. */
  lemma AcceptedIsCommitted(x: Setup, m: Machine, packets: seq<Bytes>, b: Bytes, h: seq<Envelope>)
    returns (h': seq<Envelope>)
    requires LawfulSetup(x) && Accepted(x.k, packets, b) && ReadAll(x.k, packets) == Some(h)
    requires WorkerInv(x, m, h) && m.Available() && !m.HasPending()
    requires m.owner.snapshot.tip.revision == |packets| < |m.approvals|
    requires SelectionNames(m.approvals[|packets|], IdentOf(x, b))
    ensures ReadAll(x.k, packets + [b]) == Some(h') && CommitsCalmly(x, m, |packets| + 1, b, h')
  {
    AcceptedExtends(x.k, packets, b, h);
    IdentAt(x, b);
    h' := ExtensionIsCommitted(x, m, h, b, x.k.receive(b).value);
  }

  /** A selection names the packet of this identity. */
  predicate SelectionNames(s: Selection, i: Ident) {
    s.tip.hash == i.hash && s.envelopeId == i.envelopeId
  }

  lemma AcceptedExtends(k: Rules, packets: seq<Bytes>, b: Bytes, h: seq<Envelope>)
    requires Accepted(k, packets, b) && ReadAll(k, packets) == Some(h)
    ensures |h| == |packets| && k.receive(b).Ok? && ReadAll(k, packets + [b]) == Some(h + [k.receive(b).value])
    ensures NextOf(k, h, k.receive(b).value)
  {
    ReadLength(k, packets);
    assert (packets + [b])[..|packets|] == packets;
  }

  /** The envelope extends the history, within the experiment's budget and with a new identifier. */
  ghost predicate NextOf(k: Rules, h: seq<Envelope>, e: Envelope) {
    && IsHistory(k, h) && Extend(k, Rebuild(k, h).value, e).Some? && WithinBudget(e.block)
    && forall i :: 0 <= i < |h| ==> EnvelopeId(h[i]) != EnvelopeId(e)
  }

  lemma ExtensionIsCommitted(x: Setup, m: Machine, h: seq<Envelope>, b: Bytes, e: Envelope)
    returns (h': seq<Envelope>)
    requires LawfulSetup(x) && WorkerInv(x, m, h) && m.Available() && !m.HasPending()
    requires m.owner.snapshot.tip.revision == |h| < |m.approvals| && x.k.receive(b) == Ok(e)
    requires NextOf(x.k, h, e) && SelectionNames(m.approvals[|h|], Ident(e.block.Hash(), EnvelopeId(e)))
    ensures CommitsCalmly(x, m, |h| + 1, b, h') && h' == h + [e]
  {
    NextContent(x, m, h, e);
    h' := ApplyCommitsNext(x, m, h, b, e);
  }

  /** The next selection, once its hash agrees, describes the extension in every checked field. */
  lemma NextContent(x: Setup, m: Machine, h: seq<Envelope>, e: Envelope)
    requires LawfulSetup(x) && WorkerInv(x, m, h) && m.Available()
    requires m.owner.snapshot.tip.revision == |h| < |m.approvals|
    requires Extend(x.k, Rebuild(x.k, h).value, e).Some? && WithinBudget(e.block)
    requires m.approvals[|h|].tip.hash == e.block.Hash()
    ensures SelectedContent(m.approvals[|h|], e.block)
  {
    CurrentAtTip(x.k, h, m.owner.snapshot);
    TipIsApproved(x, m, h);
    SelectedAbove(AnchorTip(x.k.policy), m.approvals, |h|, m.owner.snapshot.tip);
    ContentOfNext(x.k, m.owner.snapshot, m.approvals[|h|], e);
  }

  lemma SelectedAbove(anchor: Tip, approvals: seq<Selection>, n: nat, tip: Tip)
    requires Chained(anchor, approvals) && n < |approvals| && anchor.slot == 0
    requires tip == if n == 0 then anchor else approvals[n - 1].tip
    ensures approvals[n].base == tip && approvals[n].tip.slot == tip.slot + 1
  {
    assert Linked(anchor, approvals, n);
    if n > 0 {
      assert Linked(anchor, approvals, n - 1);
    }
  }

  lemma ContentOfNext(k: Rules, s: Snapshot, selection: Selection, e: Envelope)
    requires Extend(k, s, e).Some? && WithinBudget(e.block)
    requires selection.base == s.tip && selection.tip.hash == e.block.Hash() && selection.tip.slot == s.tip.slot + 1
    ensures SelectedContent(selection, e.block)
  {
    ExtendShape(k, s, e);
  }
}
