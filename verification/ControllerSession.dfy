/** The controller object: one process that loads the durable artifacts, performs one operation and exits
    (scripts/testnet_fixture_controller.py). */
module ControllerSession {
  import opened Base
  import opened Crypto
  import opened Sums
  import opened Controller
  import opened ControllerRuns

  class Session {
    const p: Protocol
    var d: Durable
    var records: seq<Bytes>
    var producerCount: nat
    var followerCount: nat
    var fates: seq<Fate>

    constructor (protocol: Protocol, durable: Durable, interruptions: seq<Fate>)
      ensures p == protocol && d == durable && fates == interruptions && records == [] && followerCount == 0
    {
      p, d, fates := protocol, durable, interruptions;
      records, producerCount, followerCount := [], 0, 0;
    }

    /** The running invocation as a value. */
    ghost function Now(): Op
      reads this
    {
      Op(d, fates, followerCount, true)
    }

    /** A method did what a transition says: the same durable state and answer, and, while running, the same
        position. */
    ghost predicate Did(r: Op, ok: bool)
      reads this
    {
      d == r.d && ok == r.ok && (ok ==> r == Now())
    }

    method Tick() returns (f: Fate)
      modifies this`fates
      ensures f == NextFate(old(fates)) && fates == LaterFates(old(fates))
    {
      f := NextFate(fates);
      fates := LaterFates(fates);
    }

    method SyncFile() returns (ok: bool)
      modifies this`fates
      ensures ok == Sync(old(Now()), 1).ok && (ok ==> Now() == Sync(old(Now()), 1))
    {
      var f := Tick();
      ok := f == Completes;
    }

    /** `load_records`: validates and synchronizes the corpus file by file. */
    method LoadRecords() returns (ok: bool)
      modifies this`records, this`fates
      ensures ok ==> records == d.corpus && !d.tornTail && CorpusFits(p, d.corpus)
      ensures ok ==> Now() == Sync(old(Now()), |d.corpus|)
      ensures !ok ==> d.tornTail || !CorpusFits(p, d.corpus) || !Sync(old(Now()), |d.corpus|).ok
    {
      records := [];
      for i := 0 to |d.corpus|
        invariant records == d.corpus[..i] && Now() == Sync(old(Now()), i)
        invariant forall j :: 0 <= j < i ==> p.fits(d.corpus[..j], d.corpus[j])
      {
        if !p.fits(records, d.corpus[i]) {
          return false;
        }
        ok := SyncFile();
        SyncMore(old(Now()), i, 1);
        if !ok {
          SyncMore(old(Now()), i + 1, |d.corpus| - i - 1);
          return;
        }
        records := records + [d.corpus[i]];
      }
      ok := !d.tornTail;
    }

    /** Every step up to `n` has a complete matching observation, synchronized again. */
    method CheckObservations(n: nat) returns (ok: bool)
      requires records == d.corpus && n <= |records|
      modifies this`fates
      ensures ok ==> ObservationsMatch(p, d, n) && Now() == Sync(old(Now()), n)
      ensures !ok ==> !ObservationsMatch(p, d, n) || !Sync(old(Now()), n).ok
    {
      for i := 1 to n + 1
        invariant ObservationsMatch(p, d, i - 1) && Now() == Sync(old(Now()), i - 1)
      {
        if i !in d.retained || d.retained[i] != Whole(p.ident(records[i - 1])) {
          return false;
        }
        ok := SyncFile();
        SyncMore(old(Now()), i - 1, 1);
        if !ok {
          SyncMore(old(Now()), i, n - i);
          return;
        }
      }
      ok := true;
    }

    /** One file of `artifact_head`. */
    method CheckArtifact(m: map<nat, Artifact<seq<Ident>>>, follower: bool, n: nat) returns (ok: bool)
      requires records == d.corpus && n in m
      modifies this`fates
      ensures ok ==> FileMatches(p, d, m, follower, n) && Now() == Sync(old(Now()), Cost(follower, n))
      ensures !ok ==> !FileMatches(p, d, m, follower, n) || !Sync(old(Now()), Cost(follower, n)).ok
    {
      if n > |records| || m[n] != Whole(Idents(p, records[..n])) {
        return false;
      }
      if follower {
        ok := CheckObservations(n);
        SyncMore(old(Now()), n, 1);
        if !ok {
          return;
        }
      }
      ok := SyncFile();
    }

    /** `artifact_head`: every file of a kind must be the derived authority; follower files also need their
        observations. */
    method ArtifactHead(m: map<nat, Artifact<seq<Ident>>>, follower: bool) returns (ok: bool, top: nat)
      requires records == d.corpus
      modifies this`fates
      ensures ok ==> FilesMatch(p, d, m, follower) && top == Highest(m)
      ensures ok ==> Now() == Sync(old(Now()), MapSum(Syncs(m, follower)))
      ensures !ok ==> !FilesMatch(p, d, m, follower) || !Sync(old(Now()), MapSum(Syncs(m, follower))).ok
    {
      var todo := m.Keys;
      ghost var left: nat := MapSum(Syncs(m, follower));
      ghost var goal := Sync(Now(), left);
      top := 0;
      assert Syncs(m, follower) == Restricted(m, follower, todo);
      while todo != {}
        invariant todo <= m.Keys && left == MapSum(Restricted(m, follower, todo)) && Sync(Now(), left) == goal
        invariant Checked(m, follower, todo, top)
        decreases todo
      {
        var n :| n in todo;
        TakeFile(m, follower, todo, n);
        ghost var rest := MapSum(Restricted(m, follower, todo - {n}));
        SyncSplit(Now(), left, Cost(follower, n), rest);
        ok := CheckArtifact(m, follower, n);
        if !ok {
          return;
        }
        CheckedMore(m, follower, todo, top, n);
        left := rest;
        todo := todo - {n};
        top := if n > top then n else top;
      }
      assert Restricted(m, follower, {}) == map[];
      TopIsHighest(m, follower, top);
      ok := true;
    }

    /** Every file outside a set is in order, and the highest of them is known. */
    ghost predicate Checked(m: map<nat, Artifact<seq<Ident>>>, follower: bool, todo: set<nat>, top: nat)
      reads this
    {
      && (forall n :: n in m && n !in todo ==> FileMatches(p, d, m, follower, n) && n <= top)
      && (top == 0 || (top in m && top !in todo))
    }

    lemma CheckedMore(m: map<nat, Artifact<seq<Ident>>>, follower: bool, todo: set<nat>, top: nat, n: nat)
      requires Checked(m, follower, todo, top) && n in m && FileMatches(p, d, m, follower, n)
      ensures Checked(m, follower, todo - {n}, if n > top then n else top)
    {}

    lemma TopIsHighest(m: map<nat, Artifact<seq<Ident>>>, follower: bool, top: nat)
      requires Checked(m, follower, {}, top)
      ensures FilesMatch(p, d, m, follower) && top == Highest(m)
    {
      if top in m {
        assert FileMatches(p, d, m, follower, top) && IsWhole(m, top);
      }
    }

    /** The synchronizations behind the files in a set. */
    static function Restricted(m: map<nat, Artifact<seq<Ident>>>, follower: bool, keys: set<nat>): map<nat, nat> {
      map n | n in m && n in keys :: Cost(follower, n)
    }

    static function Cost(follower: bool, n: nat): nat {
      if follower then n + 1 else 1
    }

    lemma TakeFile(m: map<nat, Artifact<seq<Ident>>>, follower: bool, keys: set<nat>, n: nat)
      requires n in keys && n in m
      ensures MapSum(Restricted(m, follower, keys)) == MapSum(Restricted(m, follower, keys - {n})) + Cost(follower, n)
    {
      MapSumRemove(Restricted(m, follower, keys), n);
      assert Restricted(m, follower, keys - {n}) == Restricted(m, follower, keys) - {n};
    }

    /** The constructor of an existing controller directory. */
    method LoadSession() returns (ok: bool)
      modifies this`records, this`producerCount, this`followerCount, this`fates
      ensures Did(Load(p, old(Now())), ok) && (ok ==> records == d.corpus)
    {
      ghost var b, c := MapSum(Syncs(d.producerApprovals, false)), MapSum(Syncs(d.followerApprovals, true));
      ghost var rest := b + c;
      LoadShape(p, Now());
      SyncSplit(Now(), LoadSyncs(d), |d.corpus|, rest);
      SyncSplit(Sync(Now(), |d.corpus|), rest, b, c);
      ok := LoadRecords();
      if !ok {
        return;
      }
      ok, producerCount := ArtifactHead(d.producerApprovals, false);
      if !ok {
        return;
      }
      var top: nat;
      ok, top := ArtifactHead(d.followerApprovals, true);
      if ok {
        followerCount := top;
      }
    }

    /** `write_approvals` for the producer. */
    method WriteProducerApproval(n: nat) returns (ok: bool)
      requires records == d.corpus && n <= |records|
      modifies this`d, this`fates
      ensures Did(PublishProducer(p, old(Now()), n), ok) && records == d.corpus
    {
      var f := Tick();
      var (m, published) := Publish(d.producerApprovals, n, Idents(p, records[..n]), f);
      d := d.(producerApprovals := m);
      ok := published;
    }

    /** `write_approvals` for the follower: refused unless every step has its observation. */
    method WriteFollowerApproval(n: nat) returns (ok: bool)
      requires records == d.corpus && n <= |records|
      modifies this`d, this`fates
      ensures Did(PublishFollower(p, old(Now()), n), ok) && records == d.corpus
    {
      SyncFacts(Now(), n);
      ok := CheckObservations(n);
      if !ok {
        return;
      }
      var f := Tick();
      var (m, published) := Publish(d.followerApprovals, n, Idents(p, records[..n]), f);
      d := d.(followerApprovals := m);
      ok := published;
    }

    method WriteObservation(i: nat) returns (ok: bool)
      requires records == d.corpus && 1 <= i <= |records|
      modifies this`d, this`fates
      ensures Did(PublishObservation(p, old(Now()), i), ok) && records == d.corpus
    {
      var f := Tick();
      var (m, published) := Publish(d.retained, i, p.ident(records[i - 1]), f);
      d := d.(retained := m);
      ok := published;
    }

    /** `inspect_retention` of the producer, then one published observation per retained step. */
    method ObserveProducer() returns (ok: bool)
      requires records == d.corpus
      modifies this`d, this`fates
      ensures Did(Observe(p, old(Now())), ok) && records == d.corpus
    {
      var n := |d.producerArchive|;
      if !(d.producerArchive <= records) || n < followerCount {
        return false;
      }
      for i := 1 to n + 1
        invariant ObserveUpTo(p, old(Now()), i - 1) == Now() && records == d.corpus
      {
        ok := WriteObservation(i);
        if !ok {
          ObserveStops(old(Now()), i, n);
          return;
        }
      }
      ok := true;
    }

    lemma {:induction false} ObserveStops(s: Op, i: nat, n: nat)
      requires i <= n <= |s.d.corpus| && !ObserveUpTo(p, s, i).ok
      ensures ObserveUpTo(p, s, n) == ObserveUpTo(p, s, i)
    {
      if i < n {
        ObserveStops(s, i, n - 1);
      }
    }

    /** `release_follower`: a current observation first, then the authority that rests on it. */
    method ReleaseFollower() returns (ok: bool)
      requires records == d.corpus
      modifies this`d, this`fates, this`followerCount
      ensures Did(Release(p, old(Now())), ok) && records == d.corpus
    {
      ok := ObserveProducer();
      if !ok {
        return;
      }
      var n := |d.producerArchive|;
      if !(d.producerArchive <= records) {
        return false;
      }
      ok := WriteFollowerApproval(n);
      if ok {
        followerCount := n;
      }
    }

    /** `node` for the producer. */
    method StartProducer() returns (ok: bool)
      requires records == d.corpus
      modifies this`d, this`fates, this`producerCount
      ensures Did(OpenProducer(p, old(Now())), ok) && records == d.corpus
    {
      ok := WriteProducerApproval(|records|);
      if !ok {
        return;
      }
      producerCount := |records|;
      ok := Starts(p, d.producerArchive, records, producerCount);
    }

    /** `node` for the follower. */
    method StartFollower() returns (ok: bool)
      requires records == d.corpus
      ensures Did(OpenFollower(p, Now()), ok)
    {
      ok := Starts(p, d.followerArchive, records, followerCount);
    }

    /** The producer's `commit_prepared` or `apply` of the last selected step. */
    method ProducerApply() returns (ok: bool)
      requires records == d.corpus
      modifies this`d, this`fates
      ensures Did(CommitProducer(p, old(Now())), ok) && records == d.corpus
    {
      if records == [] {
        return false;
      }
      var f := Tick();
      var (archive, landed) := Commit(p, d.producerArchive, records, f);
      d := d.(producerArchive := archive);
      ok := landed;
    }

    /** The follower's `apply` of the last selected step under the released authority. */
    method FollowerApply() returns (ok: bool)
      requires records == d.corpus
      modifies this`d, this`fates
      ensures Did(CommitFollower(p, old(Now())), ok) && records == d.corpus
    {
      if records == [] || followerCount < |records| {
        return false;
      }
      var f := Tick();
      var (archive, landed) := Commit(p, d.followerArchive, records, f);
      d := d.(followerArchive := archive);
      ok := landed;
    }

    /** `select`. */
    method SelectRequest(b: Bytes) returns (ok: bool)
      requires records == d.corpus
      modifies this`d, this`fates, this`records
      ensures Did(Select(p, old(Now()), b), ok) && (ok ==> records == d.corpus)
    {
      if |records| >= MAX_STEPS || !p.fits(records, b) {
        return false;
      }
      var f := Tick();
      match f
      case Stops(OldState) => return false;
      case Stops(CutShort) =>
        d := d.(tornTail := true);
        return false;
      case _ =>
        d := d.(corpus := d.corpus + [b]);
        records := records + [b];
        return f == Completes;
    }

    /** `step` from its proposal on. */
    method AdvanceWith(b: Bytes) returns (ok: bool)
      requires records == d.corpus
      modifies this
      ensures Did(Advance(p, old(Now()), b), ok)
    {
      ok := SelectRequest(b);
      if !ok {
        return;
      }
      ok := StartProducer();
      if !ok {
        return;
      }
      ok := ProducerApply();
      if !ok {
        return;
      }
      ok := ReleaseFollower();
      if !ok {
        return;
      }
      ok := StartFollower();
      if !ok {
        return;
      }
      ok := FollowerApply();
    }

    /** `step`: both nodes must already retain the whole corpus; the producer proposes only what its own
        archive accepts. */
    method Step(proposal: Option<Bytes>) returns (ok: bool)
      requires followerCount == 0
      modifies this
      ensures Did(StepOp(p, old(d), proposal, old(fates)), ok)
    {
      ok := LoadSession();
      if !ok {
        return;
      }
      ok := StartProducer();
      if !ok {
        return;
      }
      ok := ObserveProducer();
      if !ok {
        return;
      }
      ok := StartFollower();
      if !ok {
        return;
      }
      if !Level(p, d, proposal) {
        return false;
      }
      ok := AdvanceWith(proposal.value);
    }

    /** `reconcile`: republishes and releases authority, and commits nothing. */
    method Reconcile() returns (ok: bool)
      requires followerCount == 0
      modifies this
      ensures Did(ReconcileOp(p, old(d), old(fates)), ok)
    {
      ok := LoadSession();
      if !ok {
        return;
      }
      ok := StartProducer();
      if !ok {
        return;
      }
      ok := ReleaseFollower();
      if !ok {
        return;
      }
      ok := StartFollower();
    }

    /** `replay` of the one unresolved selection. */
    method Replay() returns (ok: bool)
      requires followerCount == 0
      modifies this
      ensures Did(ReplayOp(p, old(d), old(fates)), ok)
    {
      ok := LoadSession();
      if !ok || records == [] {
        return false;
      }
      ok := WriteProducerApproval(|records|);
      if !ok {
        return;
      }
      ok := StartProducer();
      if !ok {
        return;
      }
      ok := ObserveProducer();
      if !ok || |d.producerArchive| + 1 < |records| {
        return false;
      }
      ok := ProducerApply();
      if !ok {
        return;
      }
      ok := ReleaseFollower();
      if !ok {
        return;
      }
      ok := StartFollower();
      if !ok || |d.followerArchive| + 1 < |records| {
        return false;
      }
      ok := FollowerApply();
    }
  }

  /** One process: it runs one invocation to its end or its interruption. */
  method RunProcess(p: Protocol, d: Durable, inv: Invocation) returns (after: Durable, ok: bool)
    ensures after == Invoke(p, d, inv).d && ok == Invoke(p, d, inv).ok
    ensures SiteOk(p, d) ==> Invoked(p, d, inv, Invoke(p, d, inv))
  {
    if SiteOk(p, d) {
      InvokeKeeps(p, d, inv);
    }
    var session := new Session(p, d, inv.fates);
    match inv {
      case DoStep(proposal, _) => ok := session.Step(proposal);
      case DoReconcile(_) => ok := session.Reconcile();
      case DoReplay(_) => ok := session.Replay();
    }
    after := session.d;
  }

  /** Runs invocations one process after the other; the durable state is the one the transitions reach. */
  method RunInvocations(p: Protocol, start: Durable, invocations: seq<Invocation>) returns (d: Durable)
    ensures d == RunAll(p, start, invocations)
    ensures SiteOk(p, start) ==> SiteOk(p, d) && Grows(start, d)
  {
    if SiteOk(p, start) {
      ChainInEveryRun(p, start, invocations);
    }
    d := start;
    for i := 0 to |invocations|
      invariant d == RunAll(p, start, invocations[..i])
    {
      assert invocations[..i + 1][..i] == invocations[..i];
      var ok: bool;
      d, ok := RunProcess(p, d, invocations[i]);
    }
    assert invocations[..|invocations|] == invocations;
  }
}
