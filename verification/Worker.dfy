/** One testnet worker: an archive owner under independently selected approvals, with an optional producer
    role (examples/testnet_support/mod.rs, profile.rs, producer.rs). */
module Worker {
  import opened Base
  import opened Crypto
  import opened NativeTransaction
  import opened NativeTransfer
  import opened NativeBlock
  import opened BlockAuthentication
  import opened ProducerPool
  import opened Archive
  import opened ArchiveStorage
  import opened ArchiveOwner
  import opened ArchiveRuns

  /** The producer name "P". */
  const PRODUCER: Bytes := [80]

  const MAX_BLOCKS: nat := 200

  // ----- approvals -----

  /** One selected request: its base, its content and its exact envelope. */
  datatype Selection = Selection(base: Tip, tip: Tip, envelopeId: Hash) {
    function GrantFor(p: Policy): Grant {
      Grant(p.context, p.anchor.Hash(), base, tip.hash, tip.slot)
    }
  }

  datatype StepDocument = StepDocument(base: Tip, slot: u64, hash: Hash, envelopeId: Hash)

  function AnchorTip(p: Policy): Tip {
    Tip(p.anchor.Hash(), 0, 0)
  }

  /** The tip that step `i` must build on. */
  function TipBefore(anchor: Tip, steps: seq<StepDocument>, i: nat): Tip
    requires i <= |steps| <= MAX_BLOCKS
  {
    if i == 0 then anchor else Tip(steps[i - 1].hash, steps[i - 1].slot, i)
  }

  predicate NewIdentity(anchor: Tip, steps: seq<StepDocument>, i: nat)
    requires i < |steps|
  {
    && steps[i].hash != anchor.hash
    && forall j :: 0 <= j < i ==> steps[j].hash != steps[i].hash && steps[j].envelopeId != steps[i].envelopeId
  }

  predicate ValidStep(anchor: Tip, steps: seq<StepDocument>, i: nat)
    requires i < |steps| <= MAX_BLOCKS
  {
    && steps[i].base == TipBefore(anchor, steps, i)
    && steps[i].slot == steps[i].base.slot + 1
    && NewIdentity(anchor, steps, i)
  }

  /** A document is accepted exactly if it is short, contiguous from the anchor, and repeats nothing. */
  predicate ValidSteps(anchor: Tip, steps: seq<StepDocument>) {
    |steps| <= MAX_BLOCKS && forall i :: 0 <= i < |steps| ==> ValidStep(anchor, steps, i)
  }

  function SelectionAt(steps: seq<StepDocument>, i: nat): Selection
    requires i < |steps| <= MAX_BLOCKS
  {
    Selection(steps[i].base, Tip(steps[i].hash, steps[i].slot, i + 1), steps[i].envelopeId)
  }

  function ReadApprovals(anchor: Tip, steps: seq<StepDocument>): Option<seq<Selection>> {
    if ValidSteps(anchor, steps) then Some(seq(|steps|, i requires 0 <= i < |steps| => SelectionAt(steps, i))) else None
  }

  /** `Approvals::load`: one pass with the previous tip and the identities seen so far. */
  method LoadApprovals(anchor: Tip, steps: seq<StepDocument>) returns (r: Option<seq<Selection>>)
    requires anchor.slot == 0 && anchor.revision == 0
    ensures r == ReadApprovals(anchor, steps)
  {
    if |steps| > MAX_BLOCKS {
      return None;
    }
    var previous := anchor;
    var hashes: set<Hash> := {anchor.hash};
    var ids: set<Hash> := {};
    var selections: seq<Selection> := [];
    for i := 0 to |steps|
      invariant previous == TipBefore(anchor, steps, i) && previous.slot == i
      invariant forall j :: 0 <= j < i ==> ValidStep(anchor, steps, j)
      invariant hashes == {anchor.hash} + set j | 0 <= j < i :: steps[j].hash
      invariant ids == set j | 0 <= j < i :: steps[j].envelopeId
      invariant |selections| == i && forall j :: 0 <= j < i ==> selections[j] == SelectionAt(steps, j)
    {
      var s := steps[i];
      if s.base != previous || s.slot != previous.slot + 1 || s.hash in hashes || s.envelopeId in ids {
        assert !ValidStep(anchor, steps, i);
        return None;
      }
      var tip := Tip(s.hash, s.slot, previous.revision + 1);
      selections := selections + [Selection(s.base, tip, s.envelopeId)];
      hashes := hashes + {s.hash};
      ids := ids + {s.envelopeId};
      previous := tip;
    }
    assert selections == seq(|steps|, j requires 0 <= j < |steps| => SelectionAt(steps, j));
    return Some(selections);
  }

  predicate Linked(anchor: Tip, approvals: seq<Selection>, i: nat)
    requires i < |approvals|
  {
    && approvals[i].base == (if i == 0 then anchor else approvals[i - 1].tip)
    && approvals[i].tip.slot == i + 1 && approvals[i].tip.revision == i + 1
  }

  /** Approvals form one chain of heights 1, 2, 3, ... on the anchor. */
  predicate Chained(anchor: Tip, approvals: seq<Selection>) {
    forall i :: 0 <= i < |approvals| ==> Linked(anchor, approvals, i)
  }

  lemma {:induction false} AcceptedSlot(anchor: Tip, steps: seq<StepDocument>, i: nat)
    requires ValidSteps(anchor, steps) && i < |steps| && anchor.slot == 0
    ensures steps[i].slot == i + 1
  {
    assert ValidStep(anchor, steps, i);
    if i > 0 {
      AcceptedSlot(anchor, steps, i - 1);
    }
  }

  lemma AcceptedIsChained(anchor: Tip, steps: seq<StepDocument>)
    requires anchor.slot == 0 && ReadApprovals(anchor, steps).Some?
    ensures Chained(anchor, ReadApprovals(anchor, steps).value)
  {
    var approvals := ReadApprovals(anchor, steps).value;
    forall i | 0 <= i < |approvals|
      ensures Linked(anchor, approvals, i)
    {
      AcceptedSlot(anchor, steps, i);
      assert ValidStep(anchor, steps, i);
    }
  }

  function Head(anchor: Tip, approvals: seq<Selection>): Tip {
    if approvals == [] then anchor else approvals[|approvals| - 1].tip
  }

  /** A retained record is the selected one. */
  predicate Retains(r: Record, s: Selection) {
    && r.Append? && r.tip == s.tip && EnvelopeId(r.envelope) == s.envelopeId
    && r.envelope.block.proposer == PRODUCER && r.envelope.block.header.ticketId == 1
    && |r.envelope.block.transactions| <= MAX_TRANSACTIONS
  }

  /** After the anchor, the archive is a prefix of the approvals, envelope for envelope. */
  predicate PrefixOk(approvals: seq<Selection>, records: seq<Record>) {
    |records| <= |approvals| + 1 && forall i :: 1 <= i < |records| ==> Retains(records[i], approvals[i - 1])
  }

  /** `check_prefix`. */
  method CheckPrefix(approvals: seq<Selection>, records: seq<Record>) returns (ok: bool)
    ensures ok == PrefixOk(approvals, records)
  {
    if |records| > |approvals| + 1 {
      return false;
    }
    var i := 1;
    while i < |records|
      invariant forall j :: 1 <= j < i && j < |records| ==> Retains(records[j], approvals[j - 1])
    {
      if !Retains(records[i], approvals[i - 1]) {
        return false;
      }
      i := i + 1;
    }
    return true;
  }

  // ----- the worker -----

  /** What a worker runs with: the archive's rules and operations, the envelope decoder and encoder,
      preparation of a body under the producer's name and ticket 1, and the signing key as a function. */
  datatype Setup = Setup(
    k: Rules,
    stage: (OwnerState, Bytes, Grant) -> Result<Staged, ArchiveError>,
    seal: (OwnerState, Prepared, Bytes, Grant) -> Result<Staged, ArchiveError>,
    commit: (OwnerState, Disk, Staged, Weather) -> Committing,
    parse: Bytes -> Option<Envelope>,
    encode: Envelope -> Bytes,
    prepare: (OwnerState, seq<Bytes>) -> Result<Prepared, ArchiveError>,
    sign: Block -> Option<Envelope>)

  predicate StageLaw(x: Setup, o: OwnerState, b: Bytes, g: Grant) {
    x.stage(o, b, g) == StageReceived(x.k, o, b, g)
  }

  predicate SealLaw(x: Setup, o: OwnerState, p: Prepared, b: Bytes, g: Grant) {
    x.seal(o, p, b, g) == SealPrepared(x.k, o, p, b, g)
  }

  predicate CommitLaw(x: Setup, o: OwnerState, d: Disk, st: Staged, w: Weather) {
    x.commit(o, d, st, w) == CommitStep(x.k, o, d, st, w)
  }

  predicate PreparedFor(k: Rules, o: OwnerState, body: seq<Bytes>, p: Prepared) {
    && p.base == BaseOf(k, o) && PreparedOk(k, p) && p.block.Bounded()
    && p.block.header.slot == o.snapshot.tip.slot + 1
    && p.block.proposer == PRODUCER && p.block.header.ticketId == 1 && |p.block.transactions| == |body|
  }

  predicate ParseLaw(x: Setup, b: Bytes) {
    x.k.receive(b).Ok? ==> x.parse(b) == Some(x.k.receive(b).value)
  }

  predicate EncodeLaw(x: Setup, e: Envelope) {
    e.block.Bounded() && x.k.receive(x.encode(e)).Ok? ==> x.k.receive(x.encode(e)).value == e
  }

  predicate PrepareLaw(x: Setup, o: OwnerState, body: seq<Bytes>) {
    x.prepare(o, body).Ok? ==> PreparedFor(x.k, o, body, x.prepare(o, body).value)
  }

  predicate SignLaw(x: Setup, b: Block) {
    x.sign(b).Some? ==> x.sign(b).value.block == b
  }

  ghost predicate LawfulSetup(x: Setup) {
    && Lawful(x.k) && PolicyAnchored(x.k.policy) && x.k.policy.anchor.header.slot == 0
    && (forall o, b, g :: StageLaw(x, o, b, g))
    && (forall o, p, b, g :: SealLaw(x, o, p, b, g))
    && (forall o, d, st, w :: CommitLaw(x, o, d, st, w))
    && (forall b :: ParseLaw(x, b))
    && (forall e :: EncodeLaw(x, e))
    && (forall o, body :: PrepareLaw(x, o, body))
    && (forall b :: SignLaw(x, b))
  }

  /** One owned preparation and, once signed, its original envelope. */
  datatype Preparation = Preparation(prepared: Prepared, envelope: Option<Envelope>) {
    function On(): Tip {
      prepared.base.tip
    }
  }

  /** The producer role: its pool, its preparation, and the heights of all signatures it ever made. */
  datatype Production = Production(entries: seq<Entry>, pending: Option<Preparation>, signed: seq<nat>)

  datatype Machine = Machine(
    owner: OwnerState,
    disk: Disk,
    approvals: seq<Selection>,
    pinsValid: bool,
    producer: Option<Production>)
  {
    predicate Available() {
      pinsValid && !owner.poisoned
    }

    predicate HasPending() {
      producer.Some? && producer.value.pending.Some?
    }
  }

  datatype Reply =
    | Failed(reason: string)
    | NewCommit(tip: Tip, envelopeId: Hash)
    | OldCommit(tip: Tip)
    | Recovered(tip: Tip, verdict: Verdict)
    | Done
    | Proposal(envelope: Envelope)

  /** Only a confirmed transition or recovery cleans the pool and drops the preparation. */
  function Cleaned(p: Option<Production>, s: Snapshot): Option<Production> {
    if p.None? then None
    else Some(Production(Retained(p.value.entries, s.transactions.Keys, s.state), None, p.value.signed))
  }

  /** The end of `apply` and `commit_prepared`. */
  function FinishCommit(m: Machine, c: Committing): (Machine, Reply) {
    var m' := m.(owner := c.owner, disk := c.disk);
    match c.outcome
    case Committed(tip, _, id) => (m'.(producer := Cleaned(m.producer, c.owner.snapshot)), NewCommit(tip, id))
    case Aborted(_) => (m', Failed("aborted"))
    case RecoveryRequired(_) => (m', Failed("recovery_required"))
  }

  predicate SelectedContent(s: Selection, b: Block) {
    && b.Hash() == s.tip.hash && b.header.slot == s.tip.slot && b.header.parentHash == s.base.hash
    && b.proposer == PRODUCER && b.header.ticketId == 1 && |b.transactions| <= MAX_TRANSACTIONS
  }

  /** An unknown block must be the selected envelope on the selected base; a known one may only reach the
      archive's reference route. */
  predicate SelectedPlace(s: Selection, snapshot: Snapshot, e: Envelope) {
    s.tip.hash in snapshot.hashes || (snapshot.tip == s.base && EnvelopeId(e) == s.envelopeId)
  }

  /** Continues with what staging answered. */
  function ApplyStaged(m: Machine, s: Selection, r: Result<Staged, ArchiveError>,
                       commit: Staged -> Committing): (Machine, Reply) {
    match r
    case Err(AlreadyCommitted(tip, retained, _)) =>
      if retained != s.envelopeId then (m.(pinsValid := false), Failed("unavailable")) else (m, OldCommit(tip))
    case Err(_) => (m, Failed("rejected"))
    case Ok(st) =>
      if EnvelopeId(st.envelope) != s.envelopeId then (m, Failed("selection")) else FinishCommit(m, commit(st))
  }

  /** Commits a staged candidate on the worker's own archive. */
  function Committer(x: Setup, m: Machine, weather: Weather): Staged -> Committing {
    (st: Staged) => x.commit(m.owner, m.disk, st, weather)
  }

  function Apply(x: Setup, m: Machine, selection: nat, bytes: Bytes, weather: Weather): (Machine, Reply) {
    if !m.Available() then (m, Failed("unavailable"))
    else if m.HasPending() then (m, Failed("producer"))
    else if selection == 0 || selection > |m.approvals| then (m, Failed("selection"))
    else
      var s := m.approvals[selection - 1];
      match x.parse(bytes)
      case None => (m, Failed("selection"))
      case Some(e) =>
        if !SelectedContent(s, e.block) || !SelectedPlace(s, m.owner.snapshot, e) then (m, Failed("selection"))
        else ApplyStaged(m, s, x.stage(m.owner, bytes, s.GrantFor(x.k.policy)), Committer(x, m, weather))
  }

  /** The approval binds the original preparation and its proposal. */
  predicate Binds(s: Selection, p: Preparation, e: Envelope, tip: Tip) {
    s.base == p.On() && tip == p.On() && s.tip.hash == e.block.Hash() && s.envelopeId == EnvelopeId(e)
  }

  function CommitPrepared(x: Setup, m: Machine, selection: nat, weather: Weather): (Machine, Reply) {
    if !m.Available() then (m, Failed("unavailable"))
    else if selection == 0 || selection > |m.approvals| then (m, Failed("selection"))
    else if !m.HasPending() || m.producer.value.pending.value.envelope.None? then (m, Failed("producer"))
    else
      var s, p := m.approvals[selection - 1], m.producer.value.pending.value;
      if !Binds(s, p, p.envelope.value, m.owner.snapshot.tip) then (m, Failed("selection"))
      else
        var m' := m.(producer := Some(m.producer.value.(pending := None)));
        CommitSealed(m', x.seal(m.owner, p.prepared, x.encode(p.envelope.value), s.GrantFor(x.k.policy)),
          Committer(x, m', weather))
  }

  function CommitSealed(m: Machine, r: Result<Staged, ArchiveError>, commit: Staged -> Committing): (Machine, Reply) {
    match r
    case Err(_) => (m, Failed("rejected"))
    case Ok(st) => FinishCommit(m, commit(st))
  }

  /** What remains at once when recovery begins: no pins, no preparation. */
  function Unpinned(m: Machine): Machine {
    m.(pinsValid := false, producer := if m.producer.None? then None else Some(m.producer.value.(pending := None)))
  }

  /** A worker holds a lifetime lock, so both halves of the owner's recovery run without interference. */
  function RecoverWorker(x: Setup, m: Machine, issued: Option<u64>, opens: bool, commit: CommitFate): (Machine, Reply) {
    var (o, p) := RecoverBegin(x.k, m.owner, m.disk, issued, opens);
    Resume(Unpinned(m).(owner := o), p, (q: Pending) => RecoverEnd(x.k, o, m.disk, q, commit))
  }

  function Resume(m: Machine, p: Result<Pending, ArchiveError>, finish: Pending -> Recovering): (Machine, Reply) {
    match p
    case Err(_) => (m, Failed("unavailable"))
    case Ok(pending) => FinishRecovery(m, finish(pending))
  }

  function FinishRecovery(m: Machine, r: Recovering): (Machine, Reply) {
    var m' := m.(owner := r.owner, disk := r.disk);
    if r.report.Err? || !PrefixOk(m.approvals, r.owner.snapshot.records) then (m', Failed("unavailable"))
    else (m'.(pinsValid := true, producer := Cleaned(m.producer, r.owner.snapshot)),
      Recovered(r.report.value.0, r.report.value.1))
  }

  function ExtendApprovals(x: Setup, m: Machine, steps: seq<StepDocument>): (Machine, Reply) {
    if !m.Available() then (m, Failed("unavailable"))
    else match ReadApprovals(AnchorTip(x.k.policy), steps)
      case None => (m, Failed("rejected"))
      case Some(next) =>
        if !(m.approvals <= next) || !PrefixOk(next, m.owner.snapshot.records) then (m, Failed("rejected"))
        else (m.(approvals := next), Done)
  }

  function Prepare(x: Setup, m: Machine): (Machine, Reply) {
    var s := m.owner.snapshot;
    if !m.Available() then (m, Failed("unavailable"))
    else if m.producer.None? then (m, Failed("producer"))
    else if m.HasPending() then
      if m.producer.value.pending.value.On() != s.tip then (m, Failed("stale preparation")) else (m, Done)
    else if s.tip != Head(AnchorTip(x.k.policy), m.approvals) then (m, Failed("selected request unresolved"))
    else if s.tip.revision >= MAX_BLOCKS || s.tip.slot + 1 >= U64_LIMIT then (m, Failed("budget"))
    else match x.prepare(m.owner, Raws(Pick(m.producer.value.entries, s.state, s.tip.slot + 1).picked))
      case Err(_) => (m, Failed("rejected"))
      case Ok(prepared) => (m.(producer := Some(m.producer.value.(pending := Some(Preparation(prepared, None))))), Done)
  }

  function Propose(x: Setup, m: Machine): (Machine, Reply) {
    if !m.Available() then (m, Failed("unavailable"))
    else if m.producer.None? then (m, Failed("producer"))
    else if m.HasPending() && m.producer.value.pending.value.envelope.None?
         && Head(AnchorTip(x.k.policy), m.approvals) != m.owner.snapshot.tip then
           (m, Failed("selected request unresolved"))
    else if !m.HasPending() then (m, Failed("prepare first"))
    else SignPending(x, m)
  }

  /** A repeated proposal returns the original envelope; only a preparation without one is signed. */
  function SignPending(x: Setup, m: Machine): (Machine, Reply)
    requires m.HasPending()
  {
    var p := m.producer.value.pending.value;
    if p.On() != m.owner.snapshot.tip then (m, Failed("stale preparation"))
    else if p.envelope.Some? then (m, Proposal(p.envelope.value))
    else match x.sign(p.prepared.block)
      case None => (m, Failed("signing"))
      case Some(e) => (WithSignature(m, p, e), Proposal(e))
  }

  function WithSignature(m: Machine, p: Preparation, e: Envelope): Machine
    requires m.HasPending()
  {
    var production := m.producer.value;
    m.(producer := Some(Production(
      production.entries, Some(p.(envelope := Some(e))), production.signed + [p.prepared.block.header.slot])))
  }

  datatype Command =
    | DoApply(selection: nat, bytes: Bytes, weather: Weather)
    | DoCommitPrepared(selection: nat, weather: Weather)
    | DoRecover(issued: Option<u64>, opens: bool, commit: CommitFate)
    | DoExtend(steps: seq<StepDocument>)
    | DoSubmit(entries: seq<Entry>)
    | DoPrepare
    | DoPropose

  /** One command; submission leaves any new pool contents. */
  function Handle(x: Setup, m: Machine, c: Command): (Machine, Reply) {
    match c
    case DoApply(selection, bytes, weather) => Apply(x, m, selection, bytes, weather)
    case DoCommitPrepared(selection, weather) => CommitPrepared(x, m, selection, weather)
    case DoRecover(issued, opens, commit) => RecoverWorker(x, m, issued, opens, commit)
    case DoExtend(steps) => ExtendApprovals(x, m, steps)
    case DoSubmit(entries) =>
      if !m.Available() || m.producer.None? then (m, Failed("producer"))
      else (m.(producer := Some(m.producer.value.(entries := entries))), Done)
    case DoPrepare => Prepare(x, m)
    case DoPropose => Propose(x, m)
  }

  function HandleAll(x: Setup, m: Machine, commands: seq<Command>): Machine
    decreases |commands|
  {
    if commands == [] then m else HandleAll(x, Handle(x, m, commands[0]).0, commands[1..])
  }

  // ----- what every command keeps -----

  predicate PreparationOk(k: Rules, p: Preparation) {
    && PreparedOk(k, p.prepared) && p.prepared.block.Bounded()
    && p.prepared.block.header.slot == p.On().slot + 1
    && p.prepared.block.proposer == PRODUCER && p.prepared.block.header.ticketId == 1
    && |p.prepared.block.transactions| <= MAX_TRANSACTIONS
    && (p.envelope.Some? ==> p.envelope.value.block == p.prepared.block)
  }

  /** Signature heights never fall, and none is more than one above the approvals. */
  predicate HeightsOk(signed: seq<nat>, approved: nat) {
    && (forall i :: 0 <= i < |signed| ==> signed[i] <= approved + 1)
    && (forall i, j :: 0 <= i < j < |signed| ==> signed[i] <= signed[j])
  }

  predicate ProductionOk(k: Rules, p: Option<Production>, approved: nat) {
    p.Some? ==>
      HeightsOk(p.value.signed, approved) && (p.value.pending.Some? ==> PreparationOk(k, p.value.pending.value))
  }

  ghost predicate WorkerInv(x: Setup, m: Machine, h: seq<Envelope>) {
    && Stored(x.k, m.disk, h) && OwnerOk(x.k, h, m.owner)
    && Chained(AnchorTip(x.k.policy), m.approvals)
    && (m.Available() ==> PrefixOk(m.approvals, m.owner.snapshot.records))
    && ProductionOk(x.k, m.producer, |m.approvals|)
  }

  function Signed(m: Machine): seq<nat> {
    if m.producer.None? then [] else m.producer.value.signed
  }

  /** How a command may change a worker: approvals only grow, the durable history only grows, and a fresh
      signature is for the height right above every approved step. */
  predicate Progress(m: Machine, h: seq<Envelope>, m': Machine, h': seq<Envelope>) {
    && m.approvals <= m'.approvals && h <= h'
    && (Signed(m') == Signed(m) || (Signed(m') == Signed(m) + [|m.approvals| + 1] && m'.approvals == m.approvals))
  }

  /** The tip of an available worker's archive is the matching approved tip. */
  lemma TipIsApproved(x: Setup, m: Machine, h: seq<Envelope>)
    requires LawfulSetup(x) && WorkerInv(x, m, h) && m.Available()
    ensures var s := m.owner.snapshot;
      && |s.records| == s.tip.revision + 1 && s.tip.revision <= |m.approvals|
      && s.tip == (if s.tip.revision == 0 then AnchorTip(x.k.policy) else m.approvals[s.tip.revision - 1].tip)
  {
    var s := m.owner.snapshot;
    RebuildRecords(x.k, h[..s.tip.revision]);
    AnchorFirst(x.k, h[..s.tip.revision]);
    if s.tip.revision > 0 {
      assert Retains(s.records[s.tip.revision], m.approvals[s.tip.revision - 1]);
    }
  }

  lemma HeadHeight(anchor: Tip, approvals: seq<Selection>)
    requires Chained(anchor, approvals) && anchor.slot == 0 && anchor.revision == 0
    ensures Head(anchor, approvals).slot == |approvals| && Head(anchor, approvals).revision == |approvals|
  {
    if approvals != [] {
      assert Linked(anchor, approvals, |approvals| - 1);
    }
  }

  /** A staged candidate that matches its selection. */
  predicate Matches(st: Staged, s: Selection, snapshot: Snapshot) {
    && snapshot.tip == s.base && st.tip.hash == s.tip.hash && st.tip.slot == s.tip.slot
    && EnvelopeId(st.envelope) == s.envelopeId
    && st.envelope.block.proposer == PRODUCER && st.envelope.block.header.ticketId == 1
    && |st.envelope.block.transactions| <= MAX_TRANSACTIONS
  }

  /** What the owner's snapshot is after a commit attempt. */
  lemma SnapshotAfterCommit(k: Rules, o: OwnerState, d: Disk, st: Staged, w: Weather)
    requires !o.poisoned && o.attempt.None?
    ensures var c := CommitStep(k, o, d, st, w);
      && (c.outcome.Committed? ==> c.owner.snapshot.records == o.snapshot.records + [st.Record()])
      && (c.outcome.Committed? ==> st.base.tip == o.snapshot.tip)
      && (!c.outcome.Committed? ==> c.owner.snapshot == o.snapshot)
  {
    var c := CommitStep(k, o, d, st, w);
    var next := CommitShape(k, o, d, st, w);
    if !Refused(o, d, c) {
      SettleShape(o, st, d, Written(d, st), CheckStored(k, d, st), Violates(d, st.Record()),
        Confirmed(k, d, o.snapshot), next, w);
    }
  }

  lemma CommitKeepsPrefix(anchor: Tip, approvals: seq<Selection>, i: nat, o: OwnerState, st: Staged)
    requires Chained(anchor, approvals) && i < |approvals| && Matches(st, approvals[i], o.snapshot)
    requires anchor.revision == 0 && st.tip.revision == st.base.tip.revision + 1 && st.base.tip == o.snapshot.tip
    requires |o.snapshot.records| == o.snapshot.tip.revision + 1 && PrefixOk(approvals, o.snapshot.records)
    ensures PrefixOk(approvals, o.snapshot.records + [st.Record()])
  {
    assert Linked(anchor, approvals, i);
    if i > 0 {
      assert Linked(anchor, approvals, i - 1);
    }
    assert |o.snapshot.records| == i + 1;
    assert Retains(st.Record(), approvals[i]);
  }

  /** A commit of the selected candidate keeps everything, whatever the storage layer answers. */
  lemma FinishCommitKeeps(x: Setup, m: Machine, h: seq<Envelope>, i: nat, st: Staged, weather: Weather)
    returns (h': seq<Envelope>)
    requires LawfulSetup(x) && WorkerInv(x, m, h) && m.Available()
    requires i < |m.approvals| && Matches(st, m.approvals[i], m.owner.snapshot) && StagedOk(x.k, st)
    ensures var m' := FinishCommit(m, x.commit(m.owner, m.disk, st, weather)).0;
      WorkerInv(x, m', h') && Progress(m, h, m', h')
  {
    TipIsApproved(x, m, h);
    h' := CommitAppends(x.k, m.disk, h, m.owner, st, weather);
    SnapshotAfterCommit(x.k, m.owner, m.disk, st, weather);
    assert CommitLaw(x, m.owner, m.disk, st, weather);
    var c := x.commit(m.owner, m.disk, st, weather);
    if c.outcome.Committed? {
      CommitKeepsPrefix(AnchorTip(x.k.policy), m.approvals, i, m.owner, st);
    }
    CommittedMachine(x, m, h, h', st, c);
  }

  lemma CommittedMachine(x: Setup, m: Machine, h: seq<Envelope>, h': seq<Envelope>, st: Staged, c: Committing)
    requires WorkerInv(x, m, h) && m.Available() && CommitKeeps(x.k, h, h', m.owner, st, c)
    requires PrefixOk(m.approvals, c.owner.snapshot.records)
    ensures var m' := FinishCommit(m, c).0;
      WorkerInv(x, m', h') && Progress(m, h, m', h')
  {}

  lemma StagedMatches(x: Setup, m: Machine, s: Selection, bytes: Bytes, e: Envelope)
    requires LawfulSetup(x) && x.parse(bytes) == Some(e) && SelectedContent(s, e.block)
    requires SelectedPlace(s, m.owner.snapshot, e)
    requires x.stage(m.owner, bytes, s.GrantFor(x.k.policy)).Ok?
    ensures var st := x.stage(m.owner, bytes, s.GrantFor(x.k.policy)).value;
      StagedOk(x.k, st) && Matches(st, s, m.owner.snapshot)
  {
    assert ParseLaw(x, bytes) && StageLaw(x, m.owner, bytes, s.GrantFor(x.k.policy));
    ReceiveOk(x.k, m.owner, bytes, s.GrantFor(x.k.policy));
  }

  /** A command that leaves the archive alone and touches approvals not at all. */
  lemma LightKeeps(x: Setup, m: Machine, h: seq<Envelope>, m': Machine)
    requires WorkerInv(x, m, h) && m'.owner == m.owner && m'.disk == m.disk && m'.approvals == m.approvals
    requires (m'.pinsValid ==> m.pinsValid) && ProductionOk(x.k, m'.producer, |m.approvals|)
    ensures WorkerInv(x, m', h)
  {}

  /** What `apply` can do: nothing, drop the pins, or commit a candidate that matches its selection. */
  ghost predicate ApplyMay(x: Setup, m: Machine, i: nat, weather: Weather, st: Option<Staged>, m': Machine) {
    if st.None? then m' == m || m' == m.(pinsValid := false)
    else
      && m.Available() && i < |m.approvals|
      && StagedOk(x.k, st.value) && Matches(st.value, m.approvals[i], m.owner.snapshot)
      && m' == FinishCommit(m, x.commit(m.owner, m.disk, st.value, weather)).0
  }

  lemma ApplyShape(x: Setup, m: Machine, selection: nat, bytes: Bytes, weather: Weather)
    returns (st: Option<Staged>, m': Machine)
    requires LawfulSetup(x) && selection > 0
    ensures m' == Apply(x, m, selection, bytes, weather).0 && ApplyMay(x, m, selection - 1, weather, st, m')
  {
    st, m' := None, Apply(x, m, selection, bytes, weather).0;
    if m.Available() && !m.HasPending() && selection <= |m.approvals| && x.parse(bytes).Some? {
      var s, e := m.approvals[selection - 1], x.parse(bytes).value;
      if SelectedContent(s, e.block) && SelectedPlace(s, m.owner.snapshot, e) {
        st := ApplyStagedShape(m, s, x.stage(m.owner, bytes, s.GrantFor(x.k.policy)), Committer(x, m, weather));
        if st.Some? {
          StagedMatches(x, m, s, bytes, e);
        }
      }
    }
  }

  lemma ApplyStagedShape(m: Machine, s: Selection, r: Result<Staged, ArchiveError>, commit: Staged -> Committing)
    returns (st: Option<Staged>)
    ensures var m' := ApplyStaged(m, s, r, commit).0;
      if st.None? then m' == m || m' == m.(pinsValid := false)
      else r == Ok(st.value) && m' == FinishCommit(m, commit(st.value)).0
  {
    st := if r.Ok? && EnvelopeId(r.value.envelope) == s.envelopeId then Some(r.value) else None;
  }

  lemma ApplyKeeps(x: Setup, m: Machine, h: seq<Envelope>, selection: nat, bytes: Bytes, weather: Weather)
    returns (h': seq<Envelope>)
    requires LawfulSetup(x) && WorkerInv(x, m, h)
    ensures var m' := Apply(x, m, selection, bytes, weather).0;
      WorkerInv(x, m', h') && Progress(m, h, m', h')
  {
    h' := h;
    if selection > 0 {
      var st, m' := ApplyShape(x, m, selection, bytes, weather);
      h' := ApplyMayKeeps(x, m, h, selection - 1, weather, st, m');
    }
  }

  lemma ApplyMayKeeps(x: Setup, m: Machine, h: seq<Envelope>, i: nat, weather: Weather, st: Option<Staged>, m': Machine)
    returns (h': seq<Envelope>)
    requires LawfulSetup(x) && WorkerInv(x, m, h) && ApplyMay(x, m, i, weather, st, m')
    ensures WorkerInv(x, m', h') && Progress(m, h, m', h')
  {
    if st.None? {
      h' := h;
      UnpinnedKeeps(x, m, h, m');
    } else {
      h' := FinishCommitKeeps(x, m, h, i, st.value, weather);
    }
  }

  lemma UnpinnedKeeps(x: Setup, m: Machine, h: seq<Envelope>, m': Machine)
    requires m' == m || m' == m.(pinsValid := false)
    ensures WorkerInv(x, m, h) ==> WorkerInv(x, m', h)
    ensures Progress(m, h, m', h)
  {}

  lemma SealMatches(x: Setup, m: Machine, s: Selection, p: Preparation)
    requires LawfulSetup(x) && PreparationOk(x.k, p) && p.envelope.Some?
    requires Binds(s, p, p.envelope.value, m.owner.snapshot.tip)
    requires x.seal(m.owner, p.prepared, x.encode(p.envelope.value), s.GrantFor(x.k.policy)).Ok?
    ensures var st := x.seal(m.owner, p.prepared, x.encode(p.envelope.value), s.GrantFor(x.k.policy)).value;
      StagedOk(x.k, st) && Matches(st, s, m.owner.snapshot)
  {
    assert EncodeLaw(x, p.envelope.value);
    assert SealLaw(x, m.owner, p.prepared, x.encode(p.envelope.value), s.GrantFor(x.k.policy));
    SealOk(x.k, m.owner, p.prepared, x.encode(p.envelope.value), s.GrantFor(x.k.policy));
  }

  /** What `commit_prepared` can do: nothing, use up the preparation, or commit its sealed candidate. */
  lemma CommitPreparedShape(x: Setup, m: Machine, selection: nat, weather: Weather)
    ensures var m' := CommitPrepared(x, m, selection, weather).0;
      || m' == m
      || (&& m.Available() && 0 < selection <= |m.approvals| && m.HasPending()
          && var s, p := m.approvals[selection - 1], m.producer.value.pending.value;
          && var m1 := m.(producer := Some(m.producer.value.(pending := None)));
          && p.envelope.Some? && Binds(s, p, p.envelope.value, m.owner.snapshot.tip)
          && var r := x.seal(m.owner, p.prepared, x.encode(p.envelope.value), s.GrantFor(x.k.policy));
          && m' == (if r.Err? then m1 else FinishCommit(m1, x.commit(m1.owner, m1.disk, r.value, weather)).0))
  {}

  lemma CommitPreparedKeeps(x: Setup, m: Machine, h: seq<Envelope>, selection: nat, weather: Weather)
    returns (h': seq<Envelope>)
    requires LawfulSetup(x) && WorkerInv(x, m, h)
    ensures var m' := CommitPrepared(x, m, selection, weather).0;
      WorkerInv(x, m', h') && Progress(m, h, m', h')
  {
    h' := h;
    CommitPreparedShape(x, m, selection, weather);
    if CommitPrepared(x, m, selection, weather).0 != m {
      var s, p := m.approvals[selection - 1], m.producer.value.pending.value;
      var m1 := m.(producer := Some(m.producer.value.(pending := None)));
      LightKeeps(x, m, h, m1);
      var r := x.seal(m.owner, p.prepared, x.encode(p.envelope.value), s.GrantFor(x.k.policy));
      if r.Ok? {
        SealMatches(x, m1, s, p);
        h' := FinishCommitKeeps(x, m1, h, selection - 1, r.value, weather);
      }
    }
  }

  lemma FinishRecoveryKeeps(x: Setup, m: Machine, h: seq<Envelope>, r: Recovering)
    requires Chained(AnchorTip(x.k.policy), m.approvals) && ProductionOk(x.k, m.producer, |m.approvals|)
    requires Stored(x.k, r.disk, h) && OwnerOk(x.k, h, r.owner) && !m.pinsValid
    ensures var m' := FinishRecovery(m, r).0;
      WorkerInv(x, m', h) && Signed(m') == Signed(m) && m'.approvals == m.approvals
  {}

  lemma RecoverKeeps(x: Setup, m: Machine, h: seq<Envelope>, issued: Option<u64>, opens: bool, commit: CommitFate)
    requires LawfulSetup(x) && WorkerInv(x, m, h)
    ensures var m' := RecoverWorker(x, m, issued, opens, commit).0;
      WorkerInv(x, m', h) && Progress(m, h, m', h)
  {
    var begun := RecoverBegin(x.k, m.owner, m.disk, issued, opens);
    var m1 := Unpinned(m).(owner := begun.0);
    BegunOk(x.k, m.disk, h, m.owner, issued, opens);
    if begun.1.Ok? {
      RecoveryCompletes(x.k, m.disk, h, begun.0, begun.1.value, commit);
      FinishRecoveryKeeps(x, m1, h, RecoverEnd(x.k, begun.0, m.disk, begun.1.value, commit));
    } else {
      BlockedKeeps(x, m, h, begun.0);
    }
  }

  lemma BlockedKeeps(x: Setup, m: Machine, h: seq<Envelope>, o: OwnerState)
    requires WorkerInv(x, m, h) && OwnerOk(x.k, h, o)
    ensures WorkerInv(x, Unpinned(m).(owner := o), h)
  {}

  lemma BegunOk(k: Rules, d: Disk, h: seq<Envelope>, o: OwnerState, issued: Option<u64>, opens: bool)
    requires Lawful(k) && PolicyAnchored(k.policy) && Stored(k, d, h) && OwnerOk(k, h, o)
    ensures var begun := RecoverBegin(k, o, d, issued, opens);
      OwnerOk(k, h, begun.0) && begun.0.poisoned && (begun.1.Ok? ==> PendingOk(k, h, begun.0, begun.1.value))
  {
    var begun := RecoverBegin(k, o, d, issued, opens);
    if begun.1.Ok? {
      RecoveryVerdict(k, d, h, begun.0);
      TipIsCurrent(k, h);
      RebuildRecords(k, h);
    }
  }

  lemma ExtendKeeps(x: Setup, m: Machine, h: seq<Envelope>, steps: seq<StepDocument>)
    requires LawfulSetup(x) && WorkerInv(x, m, h)
    ensures var m' := ExtendApprovals(x, m, steps).0;
      WorkerInv(x, m', h) && Progress(m, h, m', h)
  {
    if ReadApprovals(AnchorTip(x.k.policy), steps).Some? {
      AcceptedIsChained(AnchorTip(x.k.policy), steps);
    }
  }

  lemma {:induction false} PickIsSmall(entries: seq<Entry>, state: TransferState, slot: u64)
    ensures |Pick(entries, state, slot).picked| <= MAX_TRANSACTIONS
  {
    if entries != [] {
      PickIsSmall(entries[..|entries| - 1], state, slot);
    }
  }

  function WithPending(m: Machine, p: Preparation): Machine
    requires m.producer.Some?
  {
    m.(producer := Some(m.producer.value.(pending := Some(p))))
  }

  /** What `prepare` can do: nothing, or own one preparation of the selected body. */
  lemma PrepareShape(x: Setup, m: Machine) returns (body: seq<Bytes>)
    ensures |body| <= MAX_TRANSACTIONS
    ensures var m' := Prepare(x, m).0;
      || m' == m
      || (&& m.producer.Some? && x.prepare(m.owner, body).Ok?
          && m' == WithPending(m, Preparation(x.prepare(m.owner, body).value, None)))
  {
    body := [];
    var s := m.owner.snapshot;
    if m.producer.Some? && s.tip.slot + 1 < U64_LIMIT {
      body := Raws(Pick(m.producer.value.entries, s.state, s.tip.slot + 1).picked);
      PickIsSmall(m.producer.value.entries, s.state, s.tip.slot + 1);
    }
  }

  lemma PrepareKeeps(x: Setup, m: Machine, h: seq<Envelope>)
    requires LawfulSetup(x) && WorkerInv(x, m, h)
    ensures var m' := Prepare(x, m).0;
      WorkerInv(x, m', h) && Progress(m, h, m', h)
  {
    var body := PrepareShape(x, m);
    if Prepare(x, m).0 != m {
      var p := x.prepare(m.owner, body).value;
      assert PrepareLaw(x, m.owner, body);
      LightKeeps(x, m, h, WithPending(m, Preparation(p, None)));
    }
  }

  /** What `propose` can do: nothing, or sign the one unsigned preparation, but only at the approved head. */
  lemma ProposeShape(x: Setup, m: Machine)
    ensures var m' := Propose(x, m).0;
      || m' == m
      || (&& m.HasPending()
          && var p := m.producer.value.pending.value;
          && p.envelope.None? && x.sign(p.prepared.block).Some?
          && p.On() == m.owner.snapshot.tip == Head(AnchorTip(x.k.policy), m.approvals)
          && m' == WithSignature(m, p, x.sign(p.prepared.block).value))
  {}

  /** The height of a fresh signature is the one right above the approved head. */
  lemma ProposeKeeps(x: Setup, m: Machine, h: seq<Envelope>)
    requires LawfulSetup(x) && WorkerInv(x, m, h)
    ensures var m' := Propose(x, m).0;
      WorkerInv(x, m', h) && Progress(m, h, m', h)
  {
    ProposeShape(x, m);
    if Propose(x, m).0 != m {
      var p := m.producer.value.pending.value;
      assert SignLaw(x, p.prepared.block);
      SignatureOk(x.k, m, p, x.sign(p.prepared.block).value);
      LightKeeps(x, m, h, WithSignature(m, p, x.sign(p.prepared.block).value));
    }
  }

  lemma SignatureOk(k: Rules, m: Machine, p: Preparation, e: Envelope)
    requires m.HasPending() && p == m.producer.value.pending.value && ProductionOk(k, m.producer, |m.approvals|)
    requires Chained(AnchorTip(k.policy), m.approvals) && k.policy.anchor.header.slot == 0
    requires p.On() == Head(AnchorTip(k.policy), m.approvals) && e.block == p.prepared.block
    ensures var m' := WithSignature(m, p, e);
      ProductionOk(k, m'.producer, |m.approvals|) && Signed(m') == Signed(m) + [|m.approvals| + 1]
  {
    HeadHeight(AnchorTip(k.policy), m.approvals);
  }

  /** Every command keeps the worker's invariant and makes only permitted progress. */
  lemma HandleKeeps(x: Setup, m: Machine, h: seq<Envelope>, c: Command) returns (h': seq<Envelope>)
    requires LawfulSetup(x) && WorkerInv(x, m, h)
    ensures WorkerInv(x, Handle(x, m, c).0, h') && Progress(m, h, Handle(x, m, c).0, h')
  {
    h' := h;
    match c
    case DoApply(selection, bytes, weather) => h' := ApplyKeeps(x, m, h, selection, bytes, weather);
    case DoCommitPrepared(selection, weather) => h' := CommitPreparedKeeps(x, m, h, selection, weather);
    case DoRecover(issued, opens, commit) => RecoverKeeps(x, m, h, issued, opens, commit);
    case DoExtend(steps) => ExtendKeeps(x, m, h, steps);
    case DoSubmit(entries) =>
    case DoPrepare => PrepareKeeps(x, m, h);
    case DoPropose => ProposeKeeps(x, m, h);
  }

  /** What a whole command sequence may change: approvals and the durable history only grow, and every
      signature it adds is for a height above everything approved at its start. */
  predicate RunProgress(m: Machine, h: seq<Envelope>, m': Machine, h': seq<Envelope>) {
    && m.approvals <= m'.approvals && h <= h' && Signed(m) <= Signed(m')
    && forall i :: |Signed(m)| <= i < |Signed(m')| ==> Signed(m')[i] > |m.approvals|
  }

  lemma ProgressComposes(m: Machine, h: seq<Envelope>, m1: Machine, h1: seq<Envelope>, m': Machine, h': seq<Envelope>)
    requires Progress(m, h, m1, h1) && RunProgress(m1, h1, m', h')
    ensures RunProgress(m, h, m', h')
  {}

  /** In every command sequence: while the worker is available its records after the anchor are an
      envelope-for-envelope prefix of the approvals, the approvals never shrink or change, and every
      signature made from here on is for a height above everything approved now. */
  lemma {:induction false} WorkerStaysPinned(x: Setup, m: Machine, h: seq<Envelope>, commands: seq<Command>)
    returns (h': seq<Envelope>)
    requires LawfulSetup(x) && WorkerInv(x, m, h)
    ensures var m' := HandleAll(x, m, commands);
      && WorkerInv(x, m', h') && RunProgress(m, h, m', h')
      && (m'.Available() ==> PrefixOk(m'.approvals, m'.owner.snapshot.records))
    decreases |commands|
  {
    h' := h;
    if commands != [] {
      var m1 := Handle(x, m, commands[0]).0;
      var h1 := HandleKeeps(x, m, h, commands[0]);
      h' := WorkerStaysPinned(x, m1, h1, commands[1..]);
      ProgressComposes(m, h, m1, h1, HandleAll(x, m1, commands[1..]), h');
    }
  }
}
