/** Several owners on one durable file: every interleaving of staging, commits, storage faults, crashes
    and recoveries (src/authenticated_fixture.rs). */
module ArchiveRuns {
  import opened Base
  import opened Crypto
  import opened NativeTransaction
  import opened NativeTransfer
  import opened NativeBlock
  import opened BlockAuthentication
  import opened Archive
  import opened ArchiveStorage
  import opened ArchiveOwner

  /** One place for an owner: nobody, an open in progress, an owner, or an owner inside `recover`. */
  datatype Seat =
    | Vacated
    | Opening(snapshot: Snapshot)
    | Live(owner: OwnerState)
    | InRecovery(owner: OwnerState, pending: Pending)

  /** A process with several owners of one file, its generation counter, and every candidate it ever
      prepared or staged. */
  datatype World = World(
    disk: Disk,
    seats: seq<Seat>,
    nextGeneration: u64,
    prepared: set<Prepared>,
    staged: set<Staged>)
  {
    /** `next_generation`. */
    function Issue(): Option<u64> {
      if nextGeneration + 1 < U64_LIMIT then Some(nextGeneration) else None
    }

    function Issued(): u64 {
      if nextGeneration + 1 < U64_LIMIT then nextGeneration + 1 else nextGeneration
    }

    predicate IsLive(i: nat) {
      i < |seats| && seats[i].Live?
    }
  }

  datatype Event =
    | OpenStart(seat: nat)
    | OpenFinish(seat: nat, commit: CommitFate)
    | Crash(seat: nat)
    | Prepare(seat: nat, block: Block)
    | Seal(seat: nat, prep: Prepared, bytes: Bytes, grant: Grant)
    | Receive(seat: nat, bytes: Bytes, grant: Grant)
    | Commit(seat: nat, stage: Staged, weather: Weather)
    | RecoverStart(seat: nat, opens: bool)
    | RecoverFinish(seat: nat, commit: CommitFate)

  function StepOpenStart(k: Rules, w: World, i: nat): World
    requires i < |w.seats|
  {
    if !w.seats[i].Vacated? || Load(k, w.disk, None).Err? then w
    else w.(seats := w.seats[i := Opening(Load(k, w.disk, None).value.snapshot)])
  }

  function StepOpenFinish(k: Rules, w: World, i: nat, commit: CommitFate): World
    requires i < |w.seats| && w.seats[i].Opening?
  {
    match Barrier(k, w.disk, w.seats[i].snapshot, commit)
    case Err(d) => w.(disk := d, seats := w.seats[i := Vacated])
    case Ok(d) =>
      var seat :=
        if w.Issue().Some? then Live(OwnerState(w.seats[i].snapshot, w.Issue().value, false, None)) else Vacated;
      w.(disk := d, seats := w.seats[i := seat], nextGeneration := w.Issued())
  }

  /** Preparation on an owner that is ready, of any block that executes on its state. */
  function StepPrepare(k: Rules, w: World, i: nat, b: Block): World
    requires w.IsLive(i)
  {
    var o := w.seats[i].owner;
    match k.run(o.snapshot.state, b)
    case Err(_) => w
    case Ok(fx) =>
      if o.poisoned then w
      else w.(prepared := w.prepared + {Prepared(BaseOf(k, o), fx.state, b, fx.outcome)})
  }

  function StepStage(w: World, r: Result<Staged, ArchiveError>): World {
    match r
    case Err(_) => w
    case Ok(st) => w.(staged := w.staged + {st})
  }

  function StepCommit(k: Rules, w: World, i: nat, st: Staged, weather: Weather): World
    requires w.IsLive(i)
  {
    var c := CommitStep(k, w.seats[i].owner, w.disk, st, weather);
    w.(disk := c.disk, seats := w.seats[i := Live(c.owner)])
  }

  function StepRecoverStart(k: Rules, w: World, i: nat, opens: bool): World
    requires w.IsLive(i)
  {
    var (o, r) := RecoverBegin(k, w.seats[i].owner, w.disk, w.Issue(), opens);
    w.(seats := w.seats[i := if r.Ok? then InRecovery(o, r.value) else Live(o)], nextGeneration := w.Issued())
  }

  function StepRecoverFinish(k: Rules, w: World, i: nat, commit: CommitFate): World
    requires i < |w.seats| && w.seats[i].InRecovery?
  {
    var r := RecoverEnd(k, w.seats[i].owner, w.disk, w.seats[i].pending, commit);
    w.(disk := r.disk, seats := w.seats[i := Live(r.owner)])
  }

  /** One step of the world; an event that does not apply changes nothing. */
  function Step(k: Rules, w: World, ev: Event): World {
    var i := ev.seat;
    if i >= |w.seats| then w
    else if ev.Crash? then w.(seats := w.seats[i := Vacated])
    else match w.seats[i]
      case Vacated => if ev.OpenStart? then StepOpenStart(k, w, i) else w
      case Opening(_) => if ev.OpenFinish? then StepOpenFinish(k, w, i, ev.commit) else w
      case InRecovery(_, _) => if ev.RecoverFinish? then StepRecoverFinish(k, w, i, ev.commit) else w
      case Live(o) =>
        match ev
        case Prepare(_, b) => StepPrepare(k, w, i, b)
        case Seal(_, p, bytes, g) => if p in w.prepared then StepStage(w, SealPrepared(k, o, p, bytes, g)) else w
        case Receive(_, bytes, g) => StepStage(w, StageReceived(k, o, bytes, g))
        case Commit(_, st, weather) => if st in w.staged then StepCommit(k, w, i, st, weather) else w
        case RecoverStart(_, opens) => StepRecoverStart(k, w, i, opens)
        case _ => w
  }

  function Run(k: Rules, w: World, events: seq<Event>): World
    decreases |events|
  {
    if events == [] then w else Run(k, Step(k, w, events[0]), events[1..])
  }

  // ----- what every step keeps -----

  /** A snapshot is that of a prefix of the history. */
  ghost predicate Current(k: Rules, h: seq<Envelope>, s: Snapshot) {
    s.tip.revision <= |h| && Rebuild(k, h[..s.tip.revision]) == Some(s)
  }

  predicate PreparedOk(k: Rules, p: Prepared) {
    k.run(p.base.state, p.block) == Ok(Effects(p.candidate, p.outcome))
  }

  predicate StagedOk(k: Rules, st: Staged) {
    && k.attest(st.envelope, None).None?
    && k.run(st.base.state, st.envelope.block) == Ok(Effects(st.candidate, st.outcome))
    && st.tip.hash == st.envelope.block.Hash()
    && st.tip.slot == st.envelope.block.header.slot
    && st.tip.revision == st.base.tip.revision + 1
  }

  /** An unresolved attempt extends exactly the snapshot its owner still holds. */
  predicate AttemptOk(k: Rules, s: Snapshot, a: Attempt) {
    && a.base.tip == s.tip && a.base.state == s.state && a.base.prefix == s.Identities()
    && a.tip.revision == s.tip.revision + 1
    && Extend(k, s, a.envelope).Some?
    && Extend(k, s, a.envelope).value.state == a.candidate
    && Extend(k, s, a.envelope).value.records == s.records + [a.Record()]
  }

  ghost predicate OwnerOk(k: Rules, h: seq<Envelope>, o: OwnerState) {
    && Current(k, h, o.snapshot)
    && (o.attempt.Some? ==> o.poisoned && AttemptOk(k, o.snapshot, o.attempt.value))
  }

  /** The attempt's envelope sits right after the owner's snapshot. */
  predicate Present(h: seq<Envelope>, o: OwnerState) {
    o.attempt.Some? && o.snapshot.tip.revision < |h| && h[o.snapshot.tip.revision] == o.attempt.value.envelope
  }

  predicate VerdictOk(h: seq<Envelope>, o: OwnerState, p: Pending) {
    && (p.verdict == NoAttempt <==> o.attempt.None?)
    && (p.verdict == AttemptPresent ==> Present(h, o) && o.snapshot.tip.revision < p.snapshot.tip.revision)
    && (p.verdict == AttemptAbsent ==> p.snapshot == o.snapshot)
  }

  ghost predicate PendingOk(k: Rules, h: seq<Envelope>, o: OwnerState, p: Pending) {
    Current(k, h, p.snapshot) && VerdictOk(h, o, p)
  }

  ghost predicate SeatOk(k: Rules, h: seq<Envelope>, next: u64, seat: Seat) {
    match seat
    case Vacated => true
    case Opening(s) => Current(k, h, s)
    case Live(o) => OwnerOk(k, h, o) && o.generation < next
    case InRecovery(o, p) => OwnerOk(k, h, o) && o.generation < next && o.poisoned && PendingOk(k, h, o, p)
  }

  ghost predicate SeatsOk(k: Rules, w: World, h: seq<Envelope>) {
    forall i :: 0 <= i < |w.seats| ==> SeatOk(k, h, w.nextGeneration, w.seats[i])
  }

  ghost predicate CandidatesOk(k: Rules, w: World) {
    && (forall p :: p in w.prepared ==> PreparedOk(k, p) && p.base.generation < w.nextGeneration)
    && (forall st :: st in w.staged ==> StagedOk(k, st) && st.base.generation < w.nextGeneration)
  }

  ghost predicate Inv(k: Rules, w: World, h: seq<Envelope>) {
    Stored(k, w.disk, h) && SeatsOk(k, w, h) && CandidatesOk(k, w)
  }

  /** A process that has just created its file: creation returns a ready owner without any barrier, and other
      owners may open the file later. */
  function Created(k: Rules, others: nat, first: u64): World
    requires first + 1 < U64_LIMIT
  {
    var creator := Live(OwnerState(Genesis(k.policy), first, false, None));
    World(CreatedDisk(k.policy), [creator] + seq(others, _ => Vacated), first + 1, {}, {})
  }

  lemma CreatedIsOk(k: Rules, others: nat, first: u64)
    requires PolicyAnchored(k.policy) && first + 1 < U64_LIMIT
    ensures Inv(k, Created(k, others, first), [])
  {
    CreationStores(k);
    var w, s := Created(k, others, first), Genesis(k.policy);
    TipIsCurrent(k, []);
    assert SeatOk(k, [], first + 1, w.seats[0]);
    forall i | 0 <= i < |w.seats|
      ensures SeatOk(k, [], w.nextGeneration, w.seats[i])
    {}
  }

  // ----- history growth -----

  lemma CurrentGrows(k: Rules, h: seq<Envelope>, e: Envelope, s: Snapshot)
    requires Current(k, h, s)
    ensures Current(k, h + [e], s)
  {
    assert (h + [e])[..s.tip.revision] == h[..s.tip.revision];
  }

  lemma CurrentAtTip(k: Rules, h: seq<Envelope>, s: Snapshot)
    requires Current(k, h, s) && s.tip.revision == |h|
    ensures Rebuild(k, h) == Some(s)
  {
    assert h[..|h|] == h;
  }

  lemma TipIsCurrent(k: Rules, h: seq<Envelope>)
    requires IsHistory(k, h)
    ensures Current(k, h, Rebuild(k, h).value)
  {
    RebuildRecords(k, h);
    assert h[..|h|] == h;
  }

  lemma StoredRevision(k: Rules, d: Disk, h: seq<Envelope>)
    requires Stored(k, d, h)
    ensures d.revision == |h|
  {
    RebuildRecords(k, h);
  }

  lemma SeatGrows(k: Rules, h: seq<Envelope>, e: Envelope, next: u64, seat: Seat)
    requires SeatOk(k, h, next, seat)
    ensures SeatOk(k, h + [e], next, seat)
  {
    if seat.Opening? {
      CurrentGrows(k, h, e, seat.snapshot);
    } else if !seat.Vacated? {
      CurrentGrows(k, h, e, seat.owner.snapshot);
      if seat.InRecovery? {
        CurrentGrows(k, h, e, seat.pending.snapshot);
      }
    }
  }

  // ----- commit -----

  /** Nothing landed: the file and the owner's snapshot are as before. */
  predicate Unchanged(o: OwnerState, st: Staged, d: Disk, c: Committing) {
    && c.disk == d && !c.outcome.Committed?
    && c.owner.snapshot == o.snapshot && c.owner.generation == o.generation
    && (c.owner.attempt.Some? ==> c.owner == Poison(o).(attempt := Some(AttemptOf(st))))
  }

  /** Everything landed: the owner either knows it and moved on, or is poisoned with its attempt. */
  predicate Landed(o: OwnerState, st: Staged, d': Disk, next: Snapshot, c: Committing) {
    && c.disk == d' && !c.outcome.Aborted?
    && (c.outcome.Committed? ==> c.owner == o.(snapshot := next) && c.outcome.tip == st.tip)
    && (!c.outcome.Committed? ==> c.owner == Poison(o).(attempt := Some(AttemptOf(st))))
  }

  /** A transaction ends in one of two ways, and lands only if nothing was refused. */
  lemma SettleShape(o: OwnerState, st: Staged, d: Disk, d': Disk, refusal: Option<ArchiveError>, forbidden: bool,
                    confirmed: bool, next: Snapshot, w: Weather)
    requires !o.poisoned && o.attempt.None?
    ensures var c := Settle(o, st, d, d', refusal, forbidden, confirmed, next, w);
      Unchanged(o, st, d, c) || (refusal.None? && Landed(o, st, d', next, c))
  {}

  /** A staged candidate that passes the checks in memory extends the owner's snapshot. */
  lemma StagedExtends(k: Rules, o: OwnerState, st: Staged, next: Snapshot)
    requires StagedOk(k, st) && CheckBase(k, o, st.base).None?
    requires CheckAppend(k.policy, o.snapshot, st.envelope, st.grant).None?
    requires Insert(o.snapshot.(state := st.candidate), st.Record()) == Ok(next)
    ensures Extend(k, o.snapshot, st.envelope) == Some(next)
    ensures next.state == st.candidate && next.records == o.snapshot.records + [st.Record()]
    ensures AttemptOk(k, o.snapshot, AttemptOf(st))
  {
    assert Follows(o.snapshot, st.envelope.block);
    assert st.tip == NextTip(o.snapshot, st.envelope.block);
  }

  /** What one commit does to the durable history, whatever the storage layer answers. */
  ghost predicate CommitKeeps(k: Rules, h: seq<Envelope>, h': seq<Envelope>, o: OwnerState, st: Staged, c: Committing) {
    && (h' == h || h' == h + [st.envelope])
    && Stored(k, c.disk, h') && OwnerOk(k, h', c.owner)
    && c.owner.generation == o.generation
    && (c.outcome.Aborted? ==> h' == h)
    && (c.outcome.Committed? ==>
          && h' == h + [st.envelope] && c.outcome.tip == st.tip && st.tip.revision == |h'|
          && |Rebuild(k, h').value.records| == |h'| + 1 && Rebuild(k, h').value.records[|h'|] == st.Record())
  }

  lemma LandedCommit(k: Rules, d: Disk, h: seq<Envelope>, o: OwnerState, st: Staged, next: Snapshot)
    requires Lawful(k) && Stored(k, d, h) && Current(k, h, o.snapshot) && StagedOk(k, st)
    requires CheckBase(k, o, st.base).None? && CheckStored(k, d, st).None?
    requires Extend(k, o.snapshot, st.envelope) == Some(next)
    requires next.state == st.candidate && next.records == o.snapshot.records + [st.Record()]
    ensures Rebuild(k, h) == Some(o.snapshot) && Rebuild(k, h + [st.envelope]) == Some(next)
    ensures Stored(k, Written(d, st), h + [st.envelope])
    ensures Current(k, h + [st.envelope], next)
    ensures |next.records| == |h| + 2 && next.records[|h| + 1] == st.Record() && st.tip.revision == |h| + 1
  {
    StoredRevision(k, d, h);
    CurrentAtTip(k, h, o.snapshot);
    RebuildRecords(k, h);
    AppendStores(k, d, h, st.envelope);
    RebuildSnoc(k, h, st.envelope);
    TipIsCurrent(k, h + [st.envelope]);
  }

  lemma UnchangedKeeps(k: Rules, d: Disk, h: seq<Envelope>, o: OwnerState, st: Staged, c: Committing)
    requires Stored(k, d, h) && OwnerOk(k, h, o) && AttemptOk(k, o.snapshot, AttemptOf(st)) && Unchanged(o, st, d, c)
    ensures CommitKeeps(k, h, h, o, st, c)
  {}

  lemma LandedKeeps(k: Rules, d': Disk, h: seq<Envelope>, o: OwnerState, st: Staged, next: Snapshot, c: Committing)
    requires OwnerOk(k, h, o) && !o.poisoned && AttemptOk(k, o.snapshot, AttemptOf(st)) && Landed(o, st, d', next, c)
    requires Stored(k, d', h + [st.envelope]) && Current(k, h + [st.envelope], next)
    requires Rebuild(k, h + [st.envelope]) == Some(next)
    requires |next.records| == |h| + 2 && next.records[|h| + 1] == st.Record() && st.tip.revision == |h| + 1
    ensures CommitKeeps(k, h, h + [st.envelope], o, st, c)
  {
    CurrentGrows(k, h, st.envelope, o.snapshot);
  }

  lemma TransactKeeps(k: Rules, d: Disk, h: seq<Envelope>, o: OwnerState, st: Staged, next: Snapshot, w: Weather)
    returns (h': seq<Envelope>)
    requires Lawful(k) && Stored(k, d, h) && OwnerOk(k, h, o) && StagedOk(k, st)
    requires CheckBase(k, o, st.base).None?
    requires Extend(k, o.snapshot, st.envelope) == Some(next)
    requires next.state == st.candidate && next.records == o.snapshot.records + [st.Record()]
    requires AttemptOk(k, o.snapshot, AttemptOf(st))
    ensures CommitKeeps(k, h, h', o, st, Transact(k, o, d, st, next, w))
  {
    var c := Transact(k, o, d, st, next, w);
    SettleShape(o, st, d, Written(d, st), CheckStored(k, d, st), Violates(d, st.Record()),
      Confirmed(k, d, o.snapshot), next, w);
    if Unchanged(o, st, d, c) {
      h' := h;
      UnchangedKeeps(k, d, h, o, st, c);
    } else {
      h' := h + [st.envelope];
      LandedCommit(k, d, h, o, st, next);
      LandedKeeps(k, Written(d, st), h, o, st, next, c);
    }
  }

  /** A refusal before the transaction changes nothing at all. */
  predicate Refused(o: OwnerState, d: Disk, c: Committing) {
    c.owner == o && c.disk == d && c.outcome.Aborted?
  }

  lemma CommitShape(k: Rules, o: OwnerState, d: Disk, st: Staged, w: Weather) returns (next: Snapshot)
    ensures var c := CommitStep(k, o, d, st, w);
      || Refused(o, d, c)
      || (&& CheckBase(k, o, st.base).None?
          && CheckAppend(k.policy, o.snapshot, st.envelope, st.grant).None?
          && Insert(o.snapshot.(state := st.candidate), st.Record()) == Ok(next)
          && c == Transact(k, o, d, st, next, w))
  {
    var r := Insert(o.snapshot.(state := st.candidate), st.Record());
    next := if r.Ok? then r.value else o.snapshot;
  }

  /** The durable history is only ever appended to, by exactly the staged envelope, and a commit that is
      reported has landed at its revision. */
  lemma CommitAppends(k: Rules, d: Disk, h: seq<Envelope>, o: OwnerState, st: Staged, w: Weather)
    returns (h': seq<Envelope>)
    requires Lawful(k) && Stored(k, d, h) && OwnerOk(k, h, o) && StagedOk(k, st)
    ensures CommitKeeps(k, h, h', o, st, CommitStep(k, o, d, st, w))
  {
    var c := CommitStep(k, o, d, st, w);
    var next := CommitShape(k, o, d, st, w);
    if Refused(o, d, c) {
      h' := h;
    } else {
      StagedExtends(k, o, st, next);
      h' := TransactKeeps(k, d, h, o, st, next, w);
    }
  }

  // ----- recovery -----

  lemma IdentitiesOfPrefix(s: Snapshot, t: Snapshot)
    requires s.records <= t.records
    ensures s.Identities() == t.Identities()[..|s.records|]
    ensures s.Identities() <= t.Identities()
  {}

  /** A prefix snapshot of the history, found again in the whole. */
  lemma KnownPrefix(k: Rules, h: seq<Envelope>, s: Snapshot)
    requires IsHistory(k, h) && Current(k, h, s)
    ensures var t := Rebuild(k, h).value;
      && |s.records| == s.tip.revision + 1 && |t.records| == |h| + 1
      && s.Identities() == t.Identities()[..s.tip.revision + 1] && s.Identities() <= t.Identities()
      && StateAt(k, h, s.tip.revision, |h|) == Some(s.state)
  {
    RecordsPersist(k, h, s.tip.revision);
    RebuildRecords(k, h);
    RebuildRecords(k, h[..s.tip.revision]);
    IdentitiesOfPrefix(s, Rebuild(k, h).value);
  }

  /** An attempt's record is the one its envelope leaves on top of the snapshot. */
  lemma RecordOfAttempt(k: Rules, s: Snapshot, a: Attempt)
    requires AttemptOk(k, s, a)
    ensures s.tip.revision + 1 < U64_LIMIT && k.run(s.state, a.envelope.block).Ok?
    ensures a.Record() == Append(NextTip(s, a.envelope.block), a.envelope,
      k.run(s.state, a.envelope.block).value.outcome)
  {
    ExtendShape(k, s, a.envelope);
    var s' := Extend(k, s, a.envelope).value;
    assert s'.records[|s.records|] == a.Record();
  }

  /** The next prefix of a history extends a prefix snapshot by the next envelope. */
  lemma NextPrefix(k: Rules, h: seq<Envelope>, s: Snapshot)
    requires IsHistory(k, h) && Current(k, h, s) && s.tip.revision < |h|
    ensures Rebuild(k, h[..s.tip.revision + 1]) == Extend(k, s, h[s.tip.revision])
    ensures IsHistory(k, h[..s.tip.revision + 1])
  {
    var n: nat := s.tip.revision;
    RebuildPrefix(k, h, n + 1);
    var front := h[..n + 1];
    assert front[..n] == h[..n] && front[n] == h[n];
    var t := RebuildLast(k, front);
  }

  /** The record right after a prefix snapshot is the attempt exactly if the envelope there is. */
  lemma AttemptedRecord(k: Rules, h: seq<Envelope>, s: Snapshot, a: Attempt)
    requires IsHistory(k, h) && Current(k, h, s) && AttemptOk(k, s, a) && s.tip.revision < |h|
    ensures |Rebuild(k, h).value.records| == |h| + 1
    ensures h[s.tip.revision] == a.envelope <==> Rebuild(k, h).value.records[s.tip.revision + 1] == a.Record()
  {
    RecordOfEnvelope(k, h, s.tip.revision);
    RecordOfAttempt(k, s, a);
  }

  /** What the audit found, in terms of the history behind the file. */
  ghost predicate Audited(k: Rules, h: seq<Envelope>, a: Option<Attempt>, l: Loading) {
    && Rebuild(k, h) == Some(l.snapshot)
    && (a.Some? ==> l.atBase == StateAt(k, h, a.value.base.tip.revision, |h|))
    && (a.Some? ==> l.atAttempt == StateAt(k, h, a.value.tip.revision, |h|))
  }

  lemma ReconcileAtBase(k: Rules, h: seq<Envelope>, s: Snapshot, a: Attempt, l: Loading)
    requires Audited(k, h, Some(a), l) && Current(k, h, s) && AttemptOk(k, s, a) && |h| == s.tip.revision
    ensures Reconcile(Some(a), l) == Ok(AttemptAbsent)
  {
    KnownPrefix(k, h, s);
    CurrentAtTip(k, h, s);
    assert s.Identities()[..|s.Identities()|] == s.Identities();
  }

  lemma ReconcilePast(k: Rules, h: seq<Envelope>, s: Snapshot, a: Attempt, l: Loading)
    requires Audited(k, h, Some(a), l) && Current(k, h, s) && AttemptOk(k, s, a) && s.tip.revision < |h|
    ensures if h[s.tip.revision] == a.envelope then Reconcile(Some(a), l) == Ok(AttemptPresent)
      else Reconcile(Some(a), l).Err?
  {
    KnownPrefix(k, h, s);
    AttemptedRecord(k, h, s, a);
    NextPrefix(k, h, s);
  }

  /** The verdict of a recovery's audit. It never fails without an attempt. With one it reports the attempt
      present exactly if its envelope sits at its revision, absent exactly if the file is still at the
      attempt's base, and fails exactly if something else sits there. */
  lemma RecoveryVerdict(k: Rules, d: Disk, h: seq<Envelope>, o: OwnerState)
    requires Lawful(k) && PolicyAnchored(k.policy) && Stored(k, d, h) && OwnerOk(k, h, o)
    ensures var r := Examine(k, o, d);
      && (r.Ok? ==> r.value.snapshot == Rebuild(k, h).value)
      && (o.attempt.None? ==> r.Ok? && r.value.verdict == NoAttempt)
      && (o.attempt.Some? ==>
            if |h| == o.snapshot.tip.revision then r.Ok? && r.value.verdict == AttemptAbsent
            else if Present(h, o) then r.Ok? && r.value.verdict == AttemptPresent
            else r.Err?)
  {
    StoredLoads(k, d, MarksOf(o.attempt), h);
    JudgeVerdict(k, h, o, Load(k, d, MarksOf(o.attempt)).value);
  }

  lemma JudgeVerdict(k: Rules, h: seq<Envelope>, o: OwnerState, l: Loading)
    requires IsHistory(k, h) && OwnerOk(k, h, o) && Audited(k, h, o.attempt, l)
    ensures var r := Judge(o, l);
      && (r.Ok? ==> r.value.snapshot == l.snapshot)
      && (o.attempt.None? ==> r.Ok? && r.value.verdict == NoAttempt)
      && (o.attempt.Some? ==>
            if |h| == o.snapshot.tip.revision then r.Ok? && r.value.verdict == AttemptAbsent
            else if Present(h, o) then r.Ok? && r.value.verdict == AttemptPresent
            else r.Err?)
  {
    if o.attempt.None? {
      KnownPrefix(k, h, o.snapshot);
    } else if o.snapshot.tip.revision < |h| {
      ReconcilePast(k, h, o.snapshot, o.attempt.value, l);
    } else {
      ReconcileAtBase(k, h, o.snapshot, o.attempt.value, l);
    }
  }

  lemma BarrierKeeps(k: Rules, d: Disk, h: seq<Envelope>, s: Snapshot, commit: CommitFate)
    requires Stored(k, d, h) && Current(k, h, s)
    ensures var r := Barrier(k, d, s, commit);
      && (r.Ok? ==> Stored(k, r.value, h) && Rebuild(k, h) == Some(s))
      && (r.Err? ==> Stored(k, r.error, h))
  {
    StoredRevision(k, d, h);
    if s.tip.revision == |h| {
      CurrentAtTip(k, h, s);
    }
  }

  /** At the barrier the audited snapshot is the whole history, so the verdict is about the history. */
  lemma VerdictHolds(h: seq<Envelope>, o: OwnerState, p: Pending)
    requires VerdictOk(h, o, p) && p.snapshot.tip.revision == |h|
    ensures p.verdict == AttemptPresent <==> Present(h, o)
    ensures p.verdict == AttemptAbsent <==> o.attempt.Some? && |h| == o.snapshot.tip.revision
  {}

  /** A completed recovery leaves the owner exactly at the durable history; its report still is true at
      that moment. A failed one leaves the owner as it was, poisoned. */
  lemma RecoveryCompletes(k: Rules, d: Disk, h: seq<Envelope>, o: OwnerState, p: Pending, commit: CommitFate)
    requires Stored(k, d, h) && OwnerOk(k, h, o) && o.poisoned && PendingOk(k, h, o, p)
    ensures var r := RecoverEnd(k, o, d, p, commit);
      && Stored(k, r.disk, h) && OwnerOk(k, h, r.owner) && r.owner.generation == o.generation
      && (r.report.Err? ==> r.owner == o && o.poisoned)
      && (r.report.Ok? ==>
            && !r.owner.poisoned && Rebuild(k, h) == Some(r.owner.snapshot) && r.report.value.0 == r.owner.snapshot.tip
            && (r.report.value.1 == AttemptPresent <==> Present(h, o))
            && (r.report.value.1 == AttemptAbsent <==> o.attempt.Some? && |h| == o.snapshot.tip.revision))
  {
    BarrierKeeps(k, d, h, p.snapshot, commit);
    InstallKeeps(k, h, o, p, Barrier(k, d, p.snapshot, commit));
  }

  /** The barrier succeeds exactly if its COMMIT lands, nobody has appended since the audit, and its counter has
      room; then it raises the counter, which a COMMIT that reports an error may have raised too. */
  lemma BarrierExactly(k: Rules, d: Disk, h: seq<Envelope>, s: Snapshot, commit: CommitFate)
    requires Lawful(k) && PolicyAnchored(k.policy) && Stored(k, d, h) && Current(k, h, s)
    ensures var r, raised := Barrier(k, d, s, commit), s.tip.revision == |h| && d.barrier + 1 < U64_LIMIT;
      && (r.Ok? <==> raised && commit == Lands)
      && (r.Ok? ==> r.value == d.(barrier := d.barrier + 1))
      && (r.Err? ==> r.error == if raised && commit == ErrorNew then d.(barrier := d.barrier + 1) else d)
  {
    StoredRevision(k, d, h);
    if s.tip.revision == |h| {
      CurrentAtTip(k, h, s);
      StoredPrefix(k, d, h);
    }
  }

  /** The second half of a recovery completes exactly if its COMMIT lands, nobody has appended since the audit,
      and the barrier has room; then the owner is ready at the audited snapshot with nothing unresolved. */
  lemma RecoveryEndsExactly(k: Rules, d: Disk, h: seq<Envelope>, o: OwnerState, p: Pending, commit: CommitFate)
    requires Lawful(k) && PolicyAnchored(k.policy) && Stored(k, d, h) && PendingOk(k, h, o, p)
    ensures var r := RecoverEnd(k, o, d, p, commit);
      && (r.report.Ok? <==> commit == Lands && p.snapshot.tip.revision == |h| && d.barrier + 1 < U64_LIMIT)
      && (r.report.Ok? ==>
            && r.owner == OwnerState(p.snapshot, o.generation, false, None)
            && r.report.value == (p.snapshot.tip, p.verdict) && r.disk == d.(barrier := d.barrier + 1))
      && (r.report.Err? ==> r.owner == o && r.report.error == Uncertain)
  {
    BarrierExactly(k, d, h, p.snapshot, commit);
  }

  /** A recovery that nobody disturbs between its halves completes exactly if a generation is issued, the file
      opens, COMMIT lands, the barrier has room, and there is no attempt, or the file is at its base, or the
      attempt is in it. Whatever happens, the owner is poisoned until then. */
  lemma RecoversExactly(k: Rules, d: Disk, h: seq<Envelope>, o: OwnerState, issued: Option<u64>, opens: bool,
                        commit: CommitFate)
    requires Lawful(k) && PolicyAnchored(k.policy) && Stored(k, d, h) && OwnerOk(k, h, o)
    ensures var begun := RecoverBegin(k, o, d, issued, opens);
      && begun.0 == o.(poisoned := true, generation := if issued.Some? then issued.value else o.generation)
      && (begun.1.Ok? && RecoverEnd(k, begun.0, d, begun.1.value, commit).report.Ok? <==>
            && issued.Some? && opens && commit == Lands && d.barrier + 1 < U64_LIMIT
            && (o.attempt.None? || |h| == o.snapshot.tip.revision || Present(h, o)))
  {
    var begun := RecoverBegin(k, o, d, issued, opens);
    if issued.Some? && opens {
      RecoveryVerdict(k, d, h, begun.0);
    }
    if begun.1.Ok? {
      TipIsCurrent(k, h);
      RebuildRecords(k, h);
      BarrierExactly(k, d, h, begun.1.value.snapshot, commit);
    }
  }

  lemma InstallKeeps(k: Rules, h: seq<Envelope>, o: OwnerState, p: Pending, barrier: Result<Disk, Disk>)
    requires OwnerOk(k, h, o) && o.poisoned && PendingOk(k, h, o, p)
    requires barrier.Ok? ==> Stored(k, barrier.value, h) && Rebuild(k, h) == Some(p.snapshot)
    requires barrier.Err? ==> Stored(k, barrier.error, h)
    ensures var r := Install(o, p, barrier);
      && Stored(k, r.disk, h) && OwnerOk(k, h, r.owner) && r.owner.generation == o.generation
      && (r.report.Err? ==> r.owner == o)
      && (r.report.Ok? ==>
            && !r.owner.poisoned && Rebuild(k, h) == Some(r.owner.snapshot) && r.report.value.0 == r.owner.snapshot.tip
            && (r.report.value.1 == AttemptPresent <==> Present(h, o))
            && (r.report.value.1 == AttemptAbsent <==> o.attempt.Some? && |h| == o.snapshot.tip.revision))
  {
    if barrier.Ok? {
      RebuildRecords(k, h);
      VerdictHolds(h, o, p);
    }
  }

  // ----- who may commit -----

  /** A record can be found in every index. */
  predicate TxIndexed(s: Snapshot, b: SignedBytes) {
    TransactionId(b) in s.transactions && SenderNonce(b) in s.senderNonces
  }

  ghost predicate Indexed(s: Snapshot, r: Record) {
    && r.tip.hash in s.hashes && r.tip.slot in s.slots
    && forall b :: b in r.Content().transactions ==> TxIndexed(s, b)
  }

  lemma TxStaysIndexed(s: Snapshot, r: Record, b: SignedBytes)
    requires Insert(s, r).Ok? && r.outcome.ids == TransactionIds(r.Content().transactions)
    requires TxIndexed(s, b) || b in r.Content().transactions
    ensures TxIndexed(Insert(s, r).value, b)
  {
    var txs, ids := r.Content().transactions, r.outcome.ids;
    var keys := Keys(txs);
    IndexIdsHas(s.transactions, r.tip, ids, |txs|, TransactionId(b));
    IndexNoncesHas(s.senderNonces, r.tip, keys, |txs|, SenderNonce(b));
    if b in txs {
      var i :| 0 <= i < |txs| && txs[i] == b;
      assert ids[..|txs|][i] == TransactionId(b) && keys[..|txs|][i] == SenderNonce(b);
    }
  }

  lemma StaysIndexed(s: Snapshot, r: Record, q: Record)
    requires Insert(s, r).Ok? && r.outcome.ids == TransactionIds(r.Content().transactions)
    requires Indexed(s, q) || q == r
    ensures Indexed(Insert(s, r).value, q)
  {
    forall b | b in q.Content().transactions
      ensures TxIndexed(Insert(s, r).value, b)
    {
      TxStaysIndexed(s, r, b);
    }
  }

  /** Every retained record sits in all indexes of its snapshot, at its own revision. */
  lemma {:induction false} RecordsIndexed(k: Rules, h: seq<Envelope>, i: nat)
    requires Lawful(k) && PolicyAnchored(k.policy) && IsHistory(k, h) && i <= |h|
    ensures |Rebuild(k, h).value.records| == |h| + 1
    ensures Indexed(Rebuild(k, h).value, Rebuild(k, h).value.records[i])
    ensures Rebuild(k, h).value.records[i].tip.revision == i
  {
    RebuildRecords(k, h);
    if h != [] {
      var s := RebuildLast(k, h);
      var e := h[|h| - 1];
      RebuildRecords(k, h[..|h| - 1]);
      if i < |h| {
        RecordsIndexed(k, h[..|h| - 1], i);
      }
      ExtensionIndexed(k, s, e, Rebuild(k, h).value, i);
    }
  }

  lemma ExtensionIndexed(k: Rules, s: Snapshot, e: Envelope, s': Snapshot, i: nat)
    requires Lawful(k) && Extend(k, s, e) == Some(s') && i <= |s.records|
    requires i < |s.records| ==> Indexed(s, s.records[i])
    ensures |s'.records| == |s.records| + 1 && (i < |s.records| ==> s'.records[i] == s.records[i])
    ensures Indexed(s', s'.records[i])
  {
    ExtendShape(k, s, e);
    var fx := k.run(s.state, e.block).value;
    assert ExecutionLaw(k, s.state, e.block);
    var r := Append(s'.tip, e, fx.outcome);
    if i < |s.records| {
      assert Indexed(s.(state := fx.state), s.records[i]) by {
        forall b | b in s.records[i].Content().transactions
          ensures TxIndexed(s.(state := fx.state), b)
        {
          assert TxIndexed(s, b);
        }
      }
    }
    StaysIndexed(s.(state := fx.state), r, s'.records[i]);
  }

  /** An inserted record repeats nothing that is indexed. */
  lemma InsertedIsNew(s: Snapshot, r: Record, j: nat)
    requires Insert(s, r).Ok? && j < Pairs(r.Content().transactions, r.outcome.ids)
    ensures r.outcome.ids[j] !in s.transactions && SenderNonce(r.Content().transactions[j]) !in s.senderNonces
  {
    var txs, ids := r.Content().transactions, r.outcome.ids;
    assert !Clash(s, r.tip, Keys(txs), ids, j);
    IndexIdsHas(s.transactions, r.tip, ids, j, ids[j]);
    IndexNoncesHas(s.senderNonces, r.tip, Keys(txs), j, Keys(txs)[j]);
  }

  ghost predicate AllIndexed(s: Snapshot) {
    forall i :: 0 <= i < |s.records| ==> Indexed(s, s.records[i])
  }

  lemma NotOccupied(d: Disk, s: Snapshot, r: Record)
    requires Tables(d, s.records) && AllIndexed(s) && Insert(s, r).Ok?
    requires r.tip.hash !in s.hashes && r.tip.slot !in s.slots
    ensures !Occupied(d, r)
  {
    forall i | i in d.blocks
      ensures !ProbesBlock(d.blocks[i], r.tip)
    {
      assert RowsOf(d, s.records[i], i) && Indexed(s, s.records[i]);
    }
    forall key, j | key in d.txs && 0 <= j < Pairs(r.Content().transactions, r.outcome.ids)
      ensures !ProbesTx(d.txs[key], r.outcome.ids[j], r.Content().transactions[j])
    {
      assert TxAgrees(d.txs, s.records, key);
      assert Indexed(s, s.records[key.revision]);
      var b := s.records[key.revision].Content().transactions[key.position];
      assert b in s.records[key.revision].Content().transactions && TxIndexed(s, b);
      InsertedIsNew(s, r, j);
    }
  }

  lemma StoredPrefix(k: Rules, d: Disk, h: seq<Envelope>)
    requires Lawful(k) && PolicyAnchored(k.policy) && Stored(k, d, h)
    ensures AllIndexed(Rebuild(k, h).value)
    ensures SamePrefix(d, Rebuild(k, h).value.Identities())
    ensures forall i :: 0 <= i < |Rebuild(k, h).value.records| ==> ReadableRow(d, i)
  {
    var s := Rebuild(k, h).value;
    RebuildRecords(k, h);
    forall i | 0 <= i < |s.records|
      ensures Indexed(s, s.records[i]) && PrefixRow(d, s.Identities(), i) && ReadableRow(d, i)
    {
      RecordsIndexed(k, h, i);
      assert RowsOf(d, s.records[i], i);
      assert s.Identities()[i] == s.records[i].Id();
      OnlyAnchorIsUnsigned(k, h, i);
    }
  }

  lemma OnlyAnchorIsUnsigned(k: Rules, h: seq<Envelope>, i: nat)
    requires IsHistory(k, h) && i <= |h|
    ensures |Rebuild(k, h).value.records| == |h| + 1
    ensures Rebuild(k, h).value.records[i].TrustedAnchor? <==> i == 0
  {
    RebuildRecords(k, h);
    AnchorFirst(k, h);
    if i > 0 {
      RecordOfEnvelope(k, h, i - 1);
    }
  }

  /** Inside the transaction, a candidate that passed the checks in memory is refused as stale exactly if
      another owner has appended since; nothing else can be refused there. */
  lemma StoredCheckIsCurrency(k: Rules, d: Disk, h: seq<Envelope>, o: OwnerState, st: Staged)
    requires Lawful(k) && PolicyAnchored(k.policy) && Stored(k, d, h) && OwnerOk(k, h, o) && StagedOk(k, st)
    requires CheckBase(k, o, st.base).None? && CheckAppend(k.policy, o.snapshot, st.envelope, st.grant).None?
    requires Insert(o.snapshot.(state := st.candidate), st.Record()).Ok?
    ensures CheckStored(k, d, st) == if o.snapshot.tip.revision == |h| then None else Some(Stale)
  {
    StoredRevision(k, d, h);
    if o.snapshot.tip.revision == |h| {
      CurrentAtTip(k, h, o.snapshot);
      CurrentIsStored(k, d, h, st);
    }
  }

  lemma CurrentIsStored(k: Rules, d: Disk, h: seq<Envelope>, st: Staged)
    requires Lawful(k) && PolicyAnchored(k.policy) && Stored(k, d, h)
    requires var s := Rebuild(k, h).value;
      && st.base.tip == s.tip && st.base.prefix == s.Identities() && st.base.state == s.state
      && st.tip.hash !in s.hashes && st.tip.slot !in s.slots
      && Insert(s.(state := st.candidate), st.Record()).Ok?
    ensures CheckStored(k, d, st) == None
  {
    StoredPrefix(k, d, h);
    StoredRevision(k, d, h);
    CurrentIsFree(d, Rebuild(k, h).value, st);
  }

  lemma CurrentIsFree(d: Disk, s: Snapshot, st: Staged)
    requires Tables(d, s.records) && AllIndexed(s) && Insert(s.(state := st.candidate), st.Record()).Ok?
    requires st.tip.hash !in s.hashes && st.tip.slot !in s.slots
    ensures !Occupied(d, st.Record())
  {
    InsertKeepsState(s.(state := st.candidate), st.Record(), s.state);
    assert s.(state := st.candidate).(state := s.state) == s;
    NotOccupied(d, s, st.Record());
  }

  /** The unique index on envelope identifiers can only reject an actual collision: a different archived
      envelope with the same identifier. */
  lemma ViolationIsCollision(k: Rules, d: Disk, h: seq<Envelope>, e: Envelope, r: Record)
    requires Lawful(k) && PolicyAnchored(k.policy) && Stored(k, d, h) && r.Append? && r.envelope == e
    requires r.tip.revision == |h| + 1 && e.block.Hash() !in Rebuild(k, h).value.hashes
    requires Violates(d, r)
    ensures exists i :: 0 <= i < |h| && h[i] != e && EnvelopeId(h[i]) == EnvelopeId(e)
  {
    var s := Rebuild(k, h).value;
    RebuildRecords(k, h);
    var i :| i in d.blocks && RepeatsEvidence(d.blocks[i], r);
    assert RowsOf(d, s.records[i], i);
    RecordsIndexed(k, h, i);
    AnchorFirst(k, h);
    RecordOfEnvelope(k, h, i - 1);
    assert h[i - 1] != e && EnvelopeId(h[i - 1]) == EnvelopeId(e);
  }

  lemma AnchorFirst(k: Rules, h: seq<Envelope>)
    requires IsHistory(k, h)
    ensures |Rebuild(k, h).value.records| > 0 && Rebuild(k, h).value.records[0] == AnchorRecord(k.policy)
  {
    RecordsPersist(k, h, 0);
    assert h[..0] == [];
  }

  // ----- every step and every run -----

  lemma ReplacedSeat(k: Rules, w: World, h: seq<Envelope>, i: nat, seat: Seat, d: Disk, next: u64)
    requires SeatsOk(k, w, h) && CandidatesOk(k, w) && i < |w.seats| && Stored(k, d, h)
    requires w.nextGeneration <= next && SeatOk(k, h, next, seat)
    ensures Inv(k, w.(disk := d, seats := w.seats[i := seat], nextGeneration := next), h)
  {
    var w' := w.(disk := d, seats := w.seats[i := seat], nextGeneration := next);
    forall j | 0 <= j < |w'.seats|
      ensures SeatOk(k, h, next, w'.seats[j])
    {
      assert SeatOk(k, h, w.nextGeneration, w.seats[j]);
    }
  }

  lemma SeatsGrow(k: Rules, w: World, h: seq<Envelope>, h': seq<Envelope>)
    requires SeatsOk(k, w, h) && (h' == h || exists e :: h' == h + [e])
    ensures SeatsOk(k, w, h')
  {
    if h' != h {
      var e :| h' == h + [e];
      forall j | 0 <= j < |w.seats|
        ensures SeatOk(k, h', w.nextGeneration, w.seats[j])
      {
        SeatGrows(k, h, e, w.nextGeneration, w.seats[j]);
      }
    }
  }

  lemma OpenStartKeeps(k: Rules, w: World, h: seq<Envelope>, i: nat)
    requires Lawful(k) && PolicyAnchored(k.policy) && Inv(k, w, h) && i < |w.seats|
    ensures Inv(k, StepOpenStart(k, w, i), h)
  {
    StoredLoads(k, w.disk, None, h);
    TipIsCurrent(k, h);
    var s := Load(k, w.disk, None).value.snapshot;
    ReplacedSeat(k, w, h, i, Opening(s), w.disk, w.nextGeneration);
  }

  lemma OpenFinishKeeps(k: Rules, w: World, h: seq<Envelope>, i: nat, commit: CommitFate)
    requires Inv(k, w, h) && i < |w.seats| && w.seats[i].Opening?
    ensures Inv(k, StepOpenFinish(k, w, i, commit), h)
  {
    var s := w.seats[i].snapshot;
    assert SeatOk(k, h, w.nextGeneration, w.seats[i]);
    BarrierKeeps(k, w.disk, h, s, commit);
    match Barrier(k, w.disk, s, commit)
    case Err(d) => ReplacedSeat(k, w, h, i, Vacated, d, w.nextGeneration);
    case Ok(d) =>
      var seat := if w.Issue().Some? then Live(OwnerState(s, w.Issue().value, false, None)) else Vacated;
      ReplacedSeat(k, w, h, i, seat, d, w.Issued());
  }

  lemma RecoverStartKeeps(k: Rules, w: World, h: seq<Envelope>, i: nat, opens: bool)
    requires Lawful(k) && PolicyAnchored(k.policy) && Inv(k, w, h) && w.IsLive(i)
    ensures Inv(k, StepRecoverStart(k, w, i, opens), h)
  {
    assert SeatOk(k, h, w.nextGeneration, w.seats[i]);
    var (o, r) := RecoverBegin(k, w.seats[i].owner, w.disk, w.Issue(), opens);
    if r.Ok? {
      RecoveryVerdict(k, w.disk, h, o);
      TipIsCurrent(k, h);
      RebuildRecords(k, h);
    }
    ReplacedSeat(k, w, h, i, if r.Ok? then InRecovery(o, r.value) else Live(o), w.disk, w.Issued());
  }

  lemma RecoverFinishKeeps(k: Rules, w: World, h: seq<Envelope>, i: nat, commit: CommitFate)
    requires Inv(k, w, h) && i < |w.seats| && w.seats[i].InRecovery?
    ensures Inv(k, StepRecoverFinish(k, w, i, commit), h)
  {
    assert SeatOk(k, h, w.nextGeneration, w.seats[i]);
    RecoveryCompletes(k, w.disk, h, w.seats[i].owner, w.seats[i].pending, commit);
    var r := RecoverEnd(k, w.seats[i].owner, w.disk, w.seats[i].pending, commit);
    ReplacedSeat(k, w, h, i, Live(r.owner), r.disk, w.nextGeneration);
  }

  lemma CommitKeepsWorld(k: Rules, w: World, h: seq<Envelope>, i: nat, st: Staged, weather: Weather)
    returns (h': seq<Envelope>)
    requires Lawful(k) && Inv(k, w, h) && w.IsLive(i) && st in w.staged
    ensures CommitKeeps(k, h, h', w.seats[i].owner, st, CommitStep(k, w.seats[i].owner, w.disk, st, weather))
    ensures Inv(k, StepCommit(k, w, i, st, weather), h')
  {
    assert SeatOk(k, h, w.nextGeneration, w.seats[i]);
    h' := CommitAppends(k, w.disk, h, w.seats[i].owner, st, weather);
    SeatsGrow(k, w, h, h');
    var c := CommitStep(k, w.seats[i].owner, w.disk, st, weather);
    ReplacedSeat(k, w, h', i, Live(c.owner), c.disk, w.nextGeneration);
  }

  lemma SealOk(k: Rules, o: OwnerState, p: Prepared, bytes: Bytes, g: Grant)
    requires Lawful(k) && PreparedOk(k, p) && SealPrepared(k, o, p, bytes, g).Ok?
    ensures StagedOk(k, SealPrepared(k, o, p, bytes, g).value)
    ensures SealPrepared(k, o, p, bytes, g).value.base == p.base
  {
    assert ReceiptLaw(k, bytes);
  }

  lemma ReceiveOk(k: Rules, o: OwnerState, bytes: Bytes, g: Grant)
    requires Lawful(k) && StageReceived(k, o, bytes, g).Ok?
    ensures StagedOk(k, StageReceived(k, o, bytes, g).value)
    ensures StageReceived(k, o, bytes, g).value.base == BaseOf(k, o)
  {
    assert ReceiptLaw(k, bytes);
  }

  /** Staging changes neither the file nor any owner. */
  lemma StageKeeps(k: Rules, w: World, h: seq<Envelope>, r: Result<Staged, ArchiveError>)
    requires Inv(k, w, h) && (r.Ok? ==> StagedOk(k, r.value) && r.value.base.generation < w.nextGeneration)
    ensures Inv(k, StepStage(w, r), h)
  {}

  lemma PrepareKeeps(k: Rules, w: World, h: seq<Envelope>, i: nat, b: Block)
    requires Inv(k, w, h) && w.IsLive(i)
    ensures Inv(k, StepPrepare(k, w, i, b), h)
  {
    assert SeatOk(k, h, w.nextGeneration, w.seats[i]);
  }

  lemma SealKeeps(k: Rules, w: World, h: seq<Envelope>, o: OwnerState, p: Prepared, bytes: Bytes, g: Grant)
    requires Lawful(k) && Inv(k, w, h) && p in w.prepared
    ensures Inv(k, StepStage(w, SealPrepared(k, o, p, bytes, g)), h)
  {
    if SealPrepared(k, o, p, bytes, g).Ok? {
      SealOk(k, o, p, bytes, g);
    }
    StageKeeps(k, w, h, SealPrepared(k, o, p, bytes, g));
  }

  lemma ReceiveKeeps(k: Rules, w: World, h: seq<Envelope>, o: OwnerState, bytes: Bytes, g: Grant)
    requires Lawful(k) && Inv(k, w, h) && o.generation < w.nextGeneration
    ensures Inv(k, StepStage(w, StageReceived(k, o, bytes, g)), h)
  {
    if StageReceived(k, o, bytes, g).Ok? {
      ReceiveOk(k, o, bytes, g);
    }
    StageKeeps(k, w, h, StageReceived(k, o, bytes, g));
  }

  lemma LiveKeeps(k: Rules, w: World, h: seq<Envelope>, ev: Event) returns (h': seq<Envelope>)
    requires Lawful(k) && PolicyAnchored(k.policy) && Inv(k, w, h) && w.IsLive(ev.seat)
    requires ev.Prepare? || ev.Seal? || ev.Receive? || ev.Commit? || ev.RecoverStart?
    ensures Inv(k, Step(k, w, ev), h') && h <= h'
  {
    h' := h;
    var i, o := ev.seat, w.seats[ev.seat].owner;
    assert SeatOk(k, h, w.nextGeneration, w.seats[i]);
    match ev
    case Prepare(_, b) => PrepareKeeps(k, w, h, i, b);
    case RecoverStart(_, opens) => RecoverStartKeeps(k, w, h, i, opens);
    case Seal(_, p, bytes, g) =>
      if p in w.prepared {
        SealKeeps(k, w, h, o, p, bytes, g);
      }
    case Receive(_, bytes, g) => ReceiveKeeps(k, w, h, o, bytes, g);
    case Commit(_, st, weather) =>
      if st in w.staged {
        h' := CommitKeepsWorld(k, w, h, i, st, weather);
      }
  }

  /** Every step keeps the file standing for a history that only grows. */
  lemma StepKeeps(k: Rules, w: World, h: seq<Envelope>, ev: Event) returns (h': seq<Envelope>)
    requires Lawful(k) && PolicyAnchored(k.policy) && Inv(k, w, h)
    ensures Inv(k, Step(k, w, ev), h') && h <= h'
  {
    h' := h;
    var i := ev.seat;
    if i < |w.seats| {
      if ev.Crash? {
        ReplacedSeat(k, w, h, i, Vacated, w.disk, w.nextGeneration);
      } else if w.seats[i].Vacated? && ev.OpenStart? {
        OpenStartKeeps(k, w, h, i);
      } else if w.seats[i].Opening? && ev.OpenFinish? {
        OpenFinishKeeps(k, w, h, i, ev.commit);
      } else if w.seats[i].InRecovery? && ev.RecoverFinish? {
        RecoverFinishKeeps(k, w, h, i, ev.commit);
      } else if w.seats[i].Live? && !ev.OpenStart? && !ev.OpenFinish? && !ev.RecoverFinish? {
        h' := LiveKeeps(k, w, h, ev);
      }
    }
  }

  lemma {:induction false} RunKeeps(k: Rules, w: World, h: seq<Envelope>, events: seq<Event>)
    returns (h': seq<Envelope>)
    requires Lawful(k) && PolicyAnchored(k.policy) && Inv(k, w, h)
    ensures Inv(k, Run(k, w, events), h') && h <= h'
    decreases |events|
  {
    if events == [] {
      h' := h;
    } else {
      var h1 := StepKeeps(k, w, h, events[0]);
      h' := RunKeeps(k, Step(k, w, events[0]), h1, events[1..]);
    }
  }

  // ----- theorems over whole runs -----

  /** The retained records of a file, as its audit rebuilds them. */
  function RecordsOn(k: Rules, d: Disk): seq<Record> {
    match Load(k, d, None)
    case Err(_) => []
    case Ok(l) => l.snapshot.records
  }

  lemma StoredRecords(k: Rules, d: Disk, h: seq<Envelope>)
    requires Lawful(k) && PolicyAnchored(k.policy) && Stored(k, d, h)
    ensures Load(k, d, None).Ok? && RecordsOn(k, d) == Rebuild(k, h).value.records
  {
    StoredLoads(k, d, None, h);
  }

  lemma LongerHistory(k: Rules, h: seq<Envelope>, h': seq<Envelope>)
    requires IsHistory(k, h') && h <= h'
    ensures IsHistory(k, h) && Rebuild(k, h).value.records <= Rebuild(k, h').value.records
  {
    RecordsPersist(k, h', |h|);
    assert h'[..|h|] == h;
  }

  /** In every run from every reachable world, whatever the interleaving and the storage faults, the file
      stays auditable and its records are only ever appended to. */
  lemma HistoryOnlyGrows(k: Rules, w: World, h: seq<Envelope>, events: seq<Event>)
    requires Lawful(k) && PolicyAnchored(k.policy) && Inv(k, w, h)
    ensures Load(k, Run(k, w, events).disk, None).Ok?
    ensures RecordsOn(k, w.disk) <= RecordsOn(k, Run(k, w, events).disk)
  {
    var h' := RunKeeps(k, w, h, events);
    StoredRecords(k, w.disk, h);
    StoredRecords(k, Run(k, w, events).disk, h');
    LongerHistory(k, h, h');
  }

  /** A record once reported as committed stays at its revision in every continuation. */
  lemma CommittedForever(k: Rules, w: World, h: seq<Envelope>, i: nat, st: Staged, weather: Weather, events: seq<Event>)
    requires Lawful(k) && PolicyAnchored(k.policy) && Inv(k, w, h) && w.IsLive(i) && st in w.staged
    requires CommitStep(k, w.seats[i].owner, w.disk, st, weather).outcome.Committed?
    ensures var d := Run(k, StepCommit(k, w, i, st, weather), events).disk;
      && Load(k, d, None).Ok?
      && st.tip.revision < |RecordsOn(k, d)| && RecordsOn(k, d)[st.tip.revision] == st.Record()
  {
    var h1 := CommitKeepsWorld(k, w, h, i, st, weather);
    var w1 := StepCommit(k, w, i, st, weather);
    StoredRecords(k, w1.disk, h1);
    HistoryOnlyGrows(k, w1, h1, events);
  }

  /** A seat can no longer use a candidate of a given generation: whoever sits there has, or will have, a
      later generation, or can never be ready again. */
  predicate Outdated(w: World, i: nat, generation: u64) {
    && generation < w.nextGeneration
    && i < |w.seats|
    && match w.seats[i]
       case Live(o) => o.generation > generation || (o.poisoned && w.Issue().None?)
       case InRecovery(o, _) => o.generation > generation
       case _ => true
  }

  lemma CommitKeepsGeneration(k: Rules, o: OwnerState, d: Disk, st: Staged, w: Weather)
    ensures var o' := CommitStep(k, o, d, st, w).owner;
      o'.generation == o.generation && (o.poisoned ==> o'.poisoned)
  {
    var next := CommitShape(k, o, d, st, w);
    if !Refused(o, d, CommitStep(k, o, d, st, w)) {
      SettleKeepsGeneration(o, st, d, Written(d, st), CheckStored(k, d, st), Violates(d, st.Record()),
        Confirmed(k, d, o.snapshot), next, w);
    }
  }

  lemma SettleKeepsGeneration(o: OwnerState, st: Staged, d: Disk, d': Disk, refusal: Option<ArchiveError>,
                              forbidden: bool, confirmed: bool, next: Snapshot, w: Weather)
    ensures var o' := Settle(o, st, d, d', refusal, forbidden, confirmed, next, w).owner;
      o'.generation == o.generation && (o.poisoned ==> o'.poisoned)
  {}

  lemma RecoveryTakesGeneration(k: Rules, o: OwnerState, d: Disk, issued: Option<u64>, opens: bool)
    ensures var r := RecoverBegin(k, o, d, issued, opens);
      && r.0.poisoned && (issued.Some? ==> r.0.generation == issued.value)
      && (issued.None? ==> r.0.generation == o.generation && r.1.Err?)
  {}

  lemma StaysOutdatedStep(k: Rules, w: World, i: nat, generation: u64, ev: Event)
    requires Outdated(w, i, generation)
    ensures Outdated(Step(k, w, ev), i, generation)
  {
    var j := ev.seat;
    if j < |w.seats| && w.seats[j].Live? {
      match ev
      case Commit(_, st, weather) => CommitKeepsGeneration(k, w.seats[j].owner, w.disk, st, weather);
      case RecoverStart(_, opens) => RecoveryTakesGeneration(k, w.seats[j].owner, w.disk, w.Issue(), opens);
      case _ =>
    }
  }

  lemma {:induction false} StaysOutdated(k: Rules, w: World, i: nat, generation: u64, events: seq<Event>)
    requires Outdated(w, i, generation)
    ensures Outdated(Run(k, w, events), i, generation)
    decreases |events|
  {
    if events != [] {
      StaysOutdatedStep(k, w, i, generation, events[0]);
      StaysOutdated(k, Step(k, w, events[0]), i, generation, events[1..]);
    }
  }

  /** Nothing prepared or staged before a recovery can be sealed or committed by that owner after it, in
      any continuation. */
  lemma RecoveryInvalidates(k: Rules, w: World, h: seq<Envelope>, i: nat, opens: bool, base: StageBase,
                            events: seq<Event>)
    requires Inv(k, w, h) && w.IsLive(i)
    requires (exists p :: p in w.prepared && p.base == base) || (exists st :: st in w.staged && st.base == base)
    ensures var w' := Run(k, StepRecoverStart(k, w, i, opens), events);
      w'.IsLive(i) ==> CheckBase(k, w'.seats[i].owner, base).Some?
  {
    RecoveryTakesGeneration(k, w.seats[i].owner, w.disk, w.Issue(), opens);
    StaysOutdated(k, StepRecoverStart(k, w, i, opens), i, base.generation, events);
  }

  /** From creation on: after any run the file is auditable, and any further run only appends to it. */
  lemma AppendOnlyFromCreation(k: Rules, seats: nat, first: u64, before: seq<Event>, after: seq<Event>)
    requires Lawful(k) && PolicyAnchored(k.policy) && first + 1 < U64_LIMIT
    ensures var w := Run(k, Created(k, seats, first), before);
      && Load(k, w.disk, None).Ok?
      && RecordsOn(k, w.disk) <= RecordsOn(k, Run(k, w, after).disk)
  {
    CreatedIsOk(k, seats, first);
    HistoryOnlyGrows(k, Created(k, seats, first), [], before);
    var h := RunKeeps(k, Created(k, seats, first), [], before);
    HistoryOnlyGrows(k, Run(k, Created(k, seats, first), before), h, after);
  }
}
