/** An archive owner: staging on a base, one storage transaction per append, poisoning and recovery
    (src/authenticated_fixture.rs). */
module ArchiveOwner {
  import opened Base
  import opened Crypto
  import opened NativeTransaction
  import opened NativeTransfer
  import opened BlockCommitment
  import opened NativeBlock
  import opened BlockAuthentication
  import opened Archive
  import opened ArchiveStorage

  /** What a candidate was computed on. */
  datatype StageBase = StageBase(generation: u64, policy: Policy, tip: Tip, state: TransferState, prefix: seq<Identity>)

  /** Effects of a producer body that still waits for its signed envelope. */
  datatype Prepared = Prepared(base: StageBase, candidate: TransferState, block: Block, outcome: Outcome)

  /** A sealed candidate that may be committed. */
  datatype Staged = Staged(
    base: StageBase, candidate: TransferState, tip: Tip, envelope: Envelope, outcome: Outcome, grant: Grant)
  {
    function Record(): Record {
      Append(tip, envelope, outcome)
    }
  }

  datatype Attempt = Attempt(base: StageBase, tip: Tip, envelope: Envelope, outcome: Outcome,
    candidate: TransferState) {
    function Record(): Record {
      Append(tip, envelope, outcome)
    }
  }

  datatype OwnerState = OwnerState(snapshot: Snapshot, generation: u64, poisoned: bool, attempt: Option<Attempt>)

  datatype AppendOutcome =
    | Committed(tip: Tip, outcome: Outcome, envelopeId: Hash)
    | Aborted(error: ArchiveError)
    | RecoveryRequired(error: ArchiveError)

  // ----- staging -----

  function BaseOf(k: Rules, o: OwnerState): StageBase {
    StageBase(o.generation, k.policy, o.snapshot.tip, o.snapshot.state, o.snapshot.Identities())
  }

  function CheckBase(k: Rules, o: OwnerState, b: StageBase): Option<ArchiveError> {
    if o.poisoned then Some(Blocked)
    else if b.generation != o.generation || b.policy != k.policy || b.tip != o.snapshot.tip
         || b.state != o.snapshot.state || b.prefix != o.snapshot.Identities() then Some(Stale)
    else None
  }

  /** Attaches a received envelope to effects prepared earlier. */
  function SealPrepared(k: Rules, o: OwnerState, p: Prepared, bytes: Bytes, g: Grant): Result<Staged, ArchiveError> {
    if CheckBase(k, o, p.base).Some? then Err(CheckBase(k, o, p.base).value)
    else match k.receive(bytes)
      case Err(e) => Err(e)
      case Ok(e) =>
        if e.block != p.block then Err(PreparedIdentity)
        else if CheckAppend(k.policy, o.snapshot, e, g).Some? then Err(CheckAppend(k.policy, o.snapshot, e, g).value)
        else if o.snapshot.tip.revision + 1 >= U64_LIMIT then Err(TooLarge)
        else Ok(Staged(p.base, p.candidate, NextTip(o.snapshot, e.block), e, p.outcome, g))
  }

  /** Attributes, checks and executes a received envelope. */
  function StageReceived(k: Rules, o: OwnerState, bytes: Bytes, g: Grant): Result<Staged, ArchiveError> {
    if o.poisoned then Err(Blocked)
    else match k.receive(bytes)
      case Err(e) => Err(e)
      case Ok(e) =>
        if CheckAppend(k.policy, o.snapshot, e, g).Some? then Err(CheckAppend(k.policy, o.snapshot, e, g).value)
        else match k.run(o.snapshot.state, e.block)
          case Err(error) => Err(error)
          case Ok(fx) =>
            if CheckTransactions(o.snapshot, e.block, fx.outcome).Some? then
              Err(CheckTransactions(o.snapshot, e.block, fx.outcome).value)
            else if o.snapshot.tip.revision + 1 >= U64_LIMIT then Err(TooLarge)
            else Ok(Staged(BaseOf(k, o), fx.state, NextTip(o.snapshot, e.block), e, fx.outcome, g))
  }

  // ----- the storage transaction -----

  predicate ProbesBlock(row: BlockRow, tip: Tip) {
    row.hash == tip.hash || row.slot == tip.slot
  }

  predicate ProbesTx(row: TxRow, id: Hash, b: SignedBytes) {
    row.id == id || row.key == SenderNonce(b)
  }

  /** The uniqueness probes before any write. */
  predicate Occupied(d: Disk, r: Record) {
    var txs, ids := r.Content().transactions, r.outcome.ids;
    || (exists i :: i in d.blocks && ProbesBlock(d.blocks[i], r.tip))
    || (exists key, j :: key in d.txs && 0 <= j < Pairs(txs, ids) && ProbesTx(d.txs[key], ids[j], txs[j]))
  }

  /** The uniqueness constraint on envelope identifiers, which no probe covers. */
  predicate RepeatsEvidence(row: BlockRow, r: Record) {
    row.evidence.Some? && r.Evidence().Some? && row.evidence.value.1 == r.Evidence().value.1
  }

  /** The constraints the schema enforces on insertion beyond those probes. */
  predicate Violates(d: Disk, r: Record) {
    r.tip.revision in d.blocks || exists i :: i in d.blocks && RepeatsEvidence(d.blocks[i], r)
  }

  /** One row of the evidence prefix. */
  predicate PrefixRow(d: Disk, prefix: seq<Identity>, i: nat)
    requires i < |prefix|
  {
    && i < U64_LIMIT && i in d.blocks
    && prefix[i] == Identity(Tip(d.blocks[i].hash, d.blocks[i].slot, i), d.blocks[i].evidence)
  }

  /** The stored evidence prefix is exactly the expected one. */
  predicate SamePrefix(d: Disk, prefix: seq<Identity>) {
    |d.blocks| == |prefix| && forall i :: 0 <= i < |prefix| ==> PrefixRow(d, prefix, i)
  }

  /** A row that reads back as an identity: only the anchor has no evidence. */
  predicate ReadableRow(d: Disk, i: nat) {
    i < U64_LIMIT && i in d.blocks && (i == 0 <==> d.blocks[i].evidence.None?)
  }

  /** Everything read inside the transaction before the first write. */
  function CheckStored(k: Rules, d: Disk, st: Staged): Option<ArchiveError> {
    if d.policy != k.policy then Some(Invalid)
    else if d.revision != st.base.tip.revision || d.tip != st.base.tip
      || |d.blocks| != |st.base.prefix| then Some(Stale)
    else if exists i :: 0 <= i < |st.base.prefix| && !ReadableRow(d, i) then Some(Invalid)
    else if !SamePrefix(d, st.base.prefix) || d.State() != st.base.state || Occupied(d, st.Record()) then Some(Stale)
    else None
  }

  /** What the storage layer does to one append attempt; every combination is possible. */
  datatype CommitFate = Lands | ErrorOld | ErrorNew

  datatype Weather = Weather(begins: bool, writes: bool, rollsBack: bool, reloads: bool, commit: CommitFate)

  datatype Committing = Committing(owner: OwnerState, disk: Disk, outcome: AppendOutcome)

  function Poison(o: OwnerState): OwnerState {
    o.(poisoned := true)
  }

  /** A full reload confirms that the file still is what the owner holds. */
  predicate Confirmed(k: Rules, d: Disk, s: Snapshot) {
    Load(k, d, None).Ok? && Load(k, d, None).value.snapshot == s
  }

  /** After a failed write: roll back and confirm the previous state. */
  function Abort(o: OwnerState, d: Disk, confirmed: bool, w: Weather, error: ArchiveError): Committing {
    if w.rollsBack && w.reloads && confirmed then Committing(o.(attempt := None), d, Aborted(error))
    else Committing(Poison(o), d, RecoveryRequired(Uncertain))
  }

  function AttemptOf(st: Staged): Attempt {
    Attempt(st.base, st.tip, st.envelope, st.outcome, st.candidate)
  }

  /** The end of a transaction: what was refused while reading, whether a constraint forbids the writes, the
      file with all writes, and whether a reload would confirm the file without them. */
  function Settle(o: OwnerState, st: Staged, d: Disk, d': Disk, refusal: Option<ArchiveError>, forbidden: bool,
                  confirmed: bool, next: Snapshot, w: Weather): Committing
  {
    var busy := o.(attempt := Some(AttemptOf(st)));
    if refusal == Some(Stale) then
      if w.rollsBack then Committing(Poison(o).(attempt := None), d, Aborted(Stale))
      else Committing(Poison(busy), d, RecoveryRequired(Uncertain))
    else if refusal.Some? then Abort(busy, d, confirmed, w, refusal.value)
    else if forbidden || !w.writes then Abort(busy, d, confirmed, w, StorageFailure)
    else match w.commit
      case ErrorOld => Committing(Poison(busy), d, RecoveryRequired(Uncertain))
      case ErrorNew => Committing(Poison(busy), d', RecoveryRequired(Uncertain))
      case Lands => Committing(o.(snapshot := next, attempt := None), d',
        Committed(st.tip, st.outcome, EnvelopeId(st.envelope)))
  }

  /** The file after every write of a staged append. */
  function Written(d: Disk, st: Staged): Disk {
    WriteAppend(d, st.base.state, st.candidate, st.Record())
  }

  /** The transaction proper: reads, writes and COMMIT, then installation. */
  function Transact(k: Rules, o: OwnerState, d: Disk, st: Staged, next: Snapshot, w: Weather): Committing {
    Settle(o, st, d, Written(d, st), CheckStored(k, d, st), Violates(d, st.Record()),
      Confirmed(k, d, o.snapshot), next, w)
  }

  /** `commit_inner`. */
  function CommitStep(k: Rules, o: OwnerState, d: Disk, st: Staged, w: Weather): Committing {
    if CheckBase(k, o, st.base).Some? then Committing(o, d, Aborted(CheckBase(k, o, st.base).value))
    else if CheckAppend(k.policy, o.snapshot, st.envelope, st.grant).Some? then
      Committing(o, d, Aborted(CheckAppend(k.policy, o.snapshot, st.envelope, st.grant).value))
    else match Insert(o.snapshot.(state := st.candidate), st.Record())
      case Err(e) => Committing(o, d, Aborted(e))
      case Ok(next) =>
        if !w.begins then Committing(o, d, Aborted(StorageFailure)) else Transact(k, o, d, st, next, w)
  }

  // ----- recovery -----

  function MarksOf(a: Option<Attempt>): Option<Marks> {
    if a.None? then None else Some(Marks(a.value.base.tip.revision, a.value.tip.revision))
  }

  /** What a recovery reports about the unresolved attempt. */
  datatype Verdict = NoAttempt | AttemptPresent | AttemptAbsent

  /** Compares an uncertain attempt with what the audit found. */
  function Reconcile(a: Option<Attempt>, l: Loading): Result<Verdict, ArchiveError> {
    if a.None? then Ok(NoAttempt)
    else
      var s, n, m := l.snapshot, a.value.base.tip.revision + 1, a.value.tip.revision;
      if |s.records| < n || s.Identities()[..n] != a.value.base.prefix || l.atBase != Some(a.value.base.state) then
        Err(Uncertain)
      else if m < |s.records| then
        if s.records[m] != a.value.Record() || l.atAttempt != Some(a.value.candidate) then Err(Uncertain)
        else Ok(AttemptPresent)
      else if s.tip == a.value.base.tip && s.state == a.value.base.state && s.Identities() == a.value.base.prefix then
        Ok(AttemptAbsent)
      else Err(Uncertain)
  }

  /** A recovery between its audit and its barrier. */
  datatype Pending = Pending(snapshot: Snapshot, verdict: Verdict)

  /** The audit and the judgement of a recovery. */
  function Examine(k: Rules, o: OwnerState, d: Disk): Result<Pending, ArchiveError> {
    match Load(k, d, MarksOf(o.attempt))
    case Err(e) => Err(e)
    case Ok(l) => Judge(o, l)
  }

  /** The known-prefix check, which only an owner without an attempt makes, and the reconciliation. */
  function Judge(o: OwnerState, l: Loading): Result<Pending, ArchiveError> {
    if o.attempt.None? && !(o.snapshot.Identities() <= l.snapshot.Identities()) then Err(Uncertain)
    else match Reconcile(o.attempt, l)
      case Err(e) => Err(e)
      case Ok(verdict) => Ok(Pending(l.snapshot, verdict))
  }

  /** First half of `recover`: poison, take a fresh generation, reopen, audit, reconcile. */
  function RecoverBegin(k: Rules, o: OwnerState, d: Disk, issued: Option<u64>, opens: bool)
    : (OwnerState, Result<Pending, ArchiveError>)
  {
    if issued.None? then (Poison(o), Err(StorageFailure))
    else
      var o' := Poison(o).(generation := issued.value);
      (o', if opens then Examine(k, o', d) else Err(StorageFailure))
  }

  /** The barrier transaction: the file must still be what was audited. */
  function Barrier(k: Rules, d: Disk, s: Snapshot, commit: CommitFate): Result<Disk, Disk> {
    if d.policy != k.policy || d.revision != s.tip.revision || d.tip != s.tip || !SamePrefix(d, s.Identities())
       || d.barrier + 1 >= U64_LIMIT || commit == ErrorOld then Err(d)
    else if commit == ErrorNew then Err(d.(barrier := d.barrier + 1))
    else Ok(d.(barrier := d.barrier + 1))
  }

  datatype Recovering = Recovering(owner: OwnerState, disk: Disk, report: Result<(Tip, Verdict), ArchiveError>)

  /** Second half of `recover`: barrier, then installation. */
  function RecoverEnd(k: Rules, o: OwnerState, d: Disk, p: Pending, commit: CommitFate): Recovering {
    Install(o, p, Barrier(k, d, p.snapshot, commit))
  }

  function Install(o: OwnerState, p: Pending, barrier: Result<Disk, Disk>): Recovering {
    match barrier
    case Err(d') => Recovering(o, d', Err(Uncertain))
    case Ok(d') =>
      Recovering(OwnerState(p.snapshot, o.generation, false, None), d', Ok((p.snapshot.tip, p.verdict)))
  }

  // ----- the owner object -----

  /** The durable file an owner is connected to. */
  class File {
    var disk: Disk

    constructor (d: Disk)
      ensures disk == d
    {
      disk := d;
    }
  }

  /** The owner's fields, updated in place; each method is proved to follow the state functions above. */
  class Owner {
    const rules: Rules
    const file: File
    var snapshot: Snapshot
    var generation: u64
    var poisoned: bool
    var attempt: Option<Attempt>

    ghost function State(): OwnerState
      reads this
    {
      OwnerState(snapshot, generation, poisoned, attempt)
    }

    constructor (k: Rules, f: File, s: Snapshot, issued: u64)
      ensures rules == k && file == f && State() == OwnerState(s, issued, false, None)
    {
      rules, file, snapshot, generation, poisoned, attempt := k, f, s, issued, false, None;
    }

    method Commit(st: Staged, w: Weather) returns (r: AppendOutcome)
      modifies this, file
      ensures CommitStep(rules, old(State()), old(file.disk), st, w) == Committing(State(), file.disk, r)
    {
      var o := OwnerState(snapshot, generation, poisoned, attempt);
      var refusal := CheckBase(rules, o, st.base);
      if refusal.Some? {
        return Aborted(refusal.value);
      }
      refusal := CheckAppend(rules.policy, snapshot, st.envelope, st.grant);
      if refusal.Some? {
        return Aborted(refusal.value);
      }
      var next := InsertRecord(snapshot.(state := st.candidate), st.Record());
      if next.Err? {
        return Aborted(next.error);
      }
      if !w.begins {
        return Aborted(StorageFailure);
      }
      r := RunTransaction(st, next.value, w);
    }

    method RunTransaction(st: Staged, next: Snapshot, w: Weather) returns (r: AppendOutcome)
      modifies this, file
      ensures Transact(rules, old(State()), old(file.disk), st, next, w) == Committing(State(), file.disk, r)
    {
      attempt := Some(AttemptOf(st));
      var refusal := CheckStored(rules, file.disk, st);
      if refusal == Some(Stale) {
        poisoned := true;
        if !w.rollsBack {
          return RecoveryRequired(Uncertain);
        }
        attempt := None;
        return Aborted(Stale);
      }
      if refusal.Some? {
        r := AbortWrites(w, refusal.value);
        return;
      }
      if Violates(file.disk, st.Record()) || !w.writes {
        r := AbortWrites(w, StorageFailure);
        return;
      }
      if w.commit != ErrorOld {
        file.disk := Written(file.disk, st);
      }
      if w.commit != Lands {
        poisoned := true;
        return RecoveryRequired(Uncertain);
      }
      snapshot := next;
      attempt := None;
      return Committed(st.tip, st.outcome, EnvelopeId(st.envelope));
    }

    method AbortWrites(w: Weather, error: ArchiveError) returns (r: AppendOutcome)
      modifies this
      ensures Abort(old(State()), file.disk, Confirmed(rules, file.disk, old(snapshot)), w, error)
        == Committing(State(), file.disk, r)
    {
      if w.rollsBack && w.reloads {
        var loaded := LoadTransaction(rules, file.disk, None);
        if loaded.Ok? && loaded.value.snapshot == snapshot {
          attempt := None;
          return Aborted(error);
        }
      }
      poisoned := true;
      return RecoveryRequired(Uncertain);
    }

    method BeginRecovery(issued: Option<u64>, opens: bool) returns (r: Result<Pending, ArchiveError>)
      modifies this
      ensures RecoverBegin(rules, old(State()), file.disk, issued, opens) == (State(), r)
    {
      poisoned := true;
      if issued.None? || !opens {
        generation := if issued.Some? then issued.value else generation;
        return Err(StorageFailure);
      }
      generation := issued.value;
      var loaded := LoadTransaction(rules, file.disk, MarksOf(attempt));
      if loaded.Err? {
        return Err(loaded.error);
      }
      return Judge(OwnerState(snapshot, generation, poisoned, attempt), loaded.value);
    }

    method EndRecovery(p: Pending, commit: CommitFate) returns (r: Result<(Tip, Verdict), ArchiveError>)
      modifies this, file
      ensures RecoverEnd(rules, old(State()), old(file.disk), p, commit) == Recovering(State(), file.disk, r)
    {
      match Barrier(rules, file.disk, p.snapshot, commit)
      case Err(d) =>
        file.disk := d;
        return Err(Uncertain);
      case Ok(d) =>
        file.disk := d;
        snapshot, attempt, poisoned := p.snapshot, None, false;
        return Ok((p.snapshot.tip, p.verdict));
    }
  }
}
