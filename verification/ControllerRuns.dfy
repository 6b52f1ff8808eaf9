/** Invocations of the controller as state transitions, interrupted at any durable action, and what holds in
    every run (scripts/testnet_fixture_controller.py). */
module ControllerRuns {
  import opened Base
  import opened Crypto
  import opened Sums
  import opened Controller

  /** An invocation under way: what is durable, what will happen to its next durable actions, the released
      follower authority it knows, and whether it is still running. */
  datatype Op = Op(d: Durable, fates: seq<Fate>, followerCount: nat, ok: bool)

  function Begin(d: Durable, fates: seq<Fate>): Op {
    Op(d, fates, 0, true)
  }

  function Fail(s: Op): Op {
    s.(ok := false, fates := [])
  }

  function NextFate(fates: seq<Fate>): Fate {
    if fates == [] then Completes else fates[0]
  }

  function LaterFates(fates: seq<Fate>): seq<Fate> {
    if fates == [] then [] else fates[1..]
  }

  /** Continues with a new durable state, or stops in it. */
  function Settle(s: Op, d: Durable, ok: bool): Op {
    if ok then s.(d := d, fates := LaterFates(s.fates)) else Fail(s.(d := d))
  }

  /** Synchronizes existing files again, which may fail but changes nothing. */
  function Sync(s: Op, n: nat): Op
    decreases n
  {
    if !s.ok || n == 0 then s
    else if NextFate(s.fates) != Completes then Fail(s)
    else Sync(s.(fates := LaterFates(s.fates)), n - 1)
  }

  function Require(s: Op, condition: bool): Op {
    if s.ok && !condition then Fail(s) else s
  }

  // ----- loading -----

  predicate ApprovalMatches(p: Protocol, corpus: seq<Bytes>, m: map<nat, Artifact<seq<Ident>>>, n: nat) {
    n in m && n <= |corpus| && m[n] == Whole(Idents(p, corpus[..n]))
  }

  /** Every step up to `n` has a complete matching observation. */
  predicate ObservationsMatch(p: Protocol, d: Durable, n: nat) {
    n <= |d.corpus| && forall i :: 1 <= i <= n ==> i in d.retained && d.retained[i] == Whole(p.ident(d.corpus[i - 1]))
  }

  /** An approval file is the derived authority; a follower file also rests on its observations. */
  predicate FileMatches(p: Protocol, d: Durable, m: map<nat, Artifact<seq<Ident>>>, follower: bool, n: nat) {
    ApprovalMatches(p, d.corpus, m, n) && (follower ==> ObservationsMatch(p, d, n))
  }

  predicate FilesMatch(p: Protocol, d: Durable, m: map<nat, Artifact<seq<Ident>>>, follower: bool) {
    forall n :: n in m ==> FileMatches(p, d, m, follower, n)
  }

  predicate CorpusFits(p: Protocol, corpus: seq<Bytes>) {
    forall i :: 0 <= i < |corpus| ==> p.fits(corpus[..i], corpus[i])
  }

  /** What the constructor of an existing directory accepts. */
  predicate Loadable(p: Protocol, d: Durable) {
    && !d.tornTail && CorpusFits(p, d.corpus)
    && FilesMatch(p, d, d.producerApprovals, false) && FilesMatch(p, d, d.followerApprovals, true)
  }

  /** One synchronization per file, and for a follower file one more per observation behind it. */
  function Syncs(m: map<nat, Artifact<seq<Ident>>>, follower: bool): map<nat, nat> {
    map n | n in m :: if follower then n + 1 else 1
  }

  ghost function LoadSyncs(d: Durable): nat {
    |d.corpus| + MapSum(Syncs(d.producerApprovals, false)) + MapSum(Syncs(d.followerApprovals, true))
  }

  ghost function Load(p: Protocol, s: Op): Op {
    var s' := Require(s, Loadable(p, s.d));
    Sync(s'.(followerCount := Highest(s.d.followerApprovals)), LoadSyncs(s.d))
  }

  // ----- publishing -----

  function PublishProducer(p: Protocol, s: Op, n: nat): Op
    requires n <= |s.d.corpus|
  {
    if !s.ok then s
    else
      var (m, ok) := Publish(s.d.producerApprovals, n, Idents(p, s.d.corpus[..n]), NextFate(s.fates));
      Settle(s, s.d.(producerApprovals := m), ok)
  }

  /** Follower authority is refused unless every step has its observation. */
  function PublishFollower(p: Protocol, s: Op, n: nat): Op
    requires n <= |s.d.corpus|
  {
    var s' := Sync(Require(s, ObservationsMatch(p, s.d, n)), n);
    if !s'.ok then s'
    else
      var (m, ok) := Publish(s.d.followerApprovals, n, Idents(p, s.d.corpus[..n]), NextFate(s'.fates));
      Settle(s', s.d.(followerApprovals := m), ok)
  }

  function PublishObservation(p: Protocol, s: Op, i: nat): Op
    requires 1 <= i <= |s.d.corpus|
  {
    if !s.ok then s
    else
      var (m, ok) := Publish(s.d.retained, i, p.ident(s.d.corpus[i - 1]), NextFate(s.fates));
      Settle(s, s.d.(retained := m), ok)
  }

  function ObserveUpTo(p: Protocol, s: Op, n: nat): (r: Op)
    requires n <= |s.d.corpus|
    ensures r.d == s.d.(retained := r.d.retained) && r.followerCount == s.followerCount && (r.ok ==> s.ok)
  {
    if n == 0 then s else PublishObservation(p, ObserveUpTo(p, s, n - 1), n)
  }

  /** `observe_producer`: what the producer retains now must explain itself, then it is published. */
  function Observe(p: Protocol, s: Op): (r: Op)
    ensures r.d == s.d.(retained := r.d.retained) && r.followerCount == s.followerCount && (r.ok ==> s.ok)
  {
    if !s.ok || !(s.d.producerArchive <= s.d.corpus) || |s.d.producerArchive| < s.followerCount then
      (if s.ok then Fail(s) else s)
    else ObserveUpTo(p, s, |s.d.producerArchive|)
  }

  /** `release_follower`. */
  function Release(p: Protocol, s: Op): Op {
    var s1 := Observe(p, s);
    if !s1.ok || !(s1.d.producerArchive <= s1.d.corpus) then (if s1.ok then Fail(s1) else s1)
    else
      var s2 := PublishFollower(p, s1, |s1.d.producerArchive|);
      if s2.ok then s2.(followerCount := |s1.d.producerArchive|) else s2
  }

  // ----- workers -----

  /** A worker starts, or extends its approvals, under a document that loads and covers its archive. */
  predicate Starts(p: Protocol, archive: seq<Bytes>, corpus: seq<Bytes>, n: nat) {
    n <= |corpus| && LoadsDocument(p, Idents(p, corpus[..n])) && archive <= corpus[..n]
  }

  /** `node` for the producer: the derived authority is republished before a signer opens. */
  function OpenProducer(p: Protocol, s: Op): Op {
    var s' := PublishProducer(p, s, |s.d.corpus|);
    Require(s', Starts(p, s'.d.producerArchive, s'.d.corpus, |s'.d.corpus|))
  }

  /** `node` for the follower, under the released authority. */
  function OpenFollower(p: Protocol, s: Op): Op {
    Require(s, Starts(p, s.d.followerArchive, s.d.corpus, s.followerCount))
  }

  /** A worker's archive after it was told to commit the last request of the corpus. */
  function Commit(p: Protocol, archive: seq<Bytes>, corpus: seq<Bytes>, f: Fate): (seq<Bytes>, bool)
    requires corpus != []
  {
    var b := corpus[|corpus| - 1];
    if |archive| == |corpus| then (archive, f == Completes)
    else if |archive| + 1 != |corpus| || !p.accepts(archive, b) then (archive, false)
    else match f
      case Completes => (archive + [b], true)
      case Stops(NewState) => (archive + [b], false)
      case Stops(_) => (archive, false)
  }

  /** The producer commits its preparation, or applies the selected packet. */
  function CommitProducer(p: Protocol, s: Op): Op {
    if !s.ok || s.d.corpus == [] then (if s.ok then Fail(s) else s)
    else
      var (archive, ok) := Commit(p, s.d.producerArchive, s.d.corpus, NextFate(s.fates));
      Settle(s, s.d.(producerArchive := archive), ok)
  }

  /** The follower applies the selected packet under the released authority. */
  function CommitFollower(p: Protocol, s: Op): Op {
    if !s.ok || s.d.corpus == [] || s.followerCount < |s.d.corpus| then (if s.ok then Fail(s) else s)
    else
      var (archive, ok) := Commit(p, s.d.followerArchive, s.d.corpus, NextFate(s.fates));
      Settle(s, s.d.(followerArchive := archive), ok)
  }

  /** `select`: the original request becomes durable before any authority is derived from it. */
  function Select(p: Protocol, s: Op, b: Bytes): Op {
    var s' := Require(s, |s.d.corpus| < MAX_STEPS && p.fits(s.d.corpus, b));
    if !s'.ok then s'
    else match NextFate(s.fates)
      case Completes => Settle(s, s.d.(corpus := s.d.corpus + [b]), true)
      case Stops(OldState) => Settle(s, s.d, false)
      case Stops(NewState) => Settle(s, s.d.(corpus := s.d.corpus + [b]), false)
      case Stops(CutShort) => Settle(s, s.d.(tornTail := true), false)
  }

  // ----- invocations -----

  datatype Invocation =
    | DoStep(proposal: Option<Bytes>, fates: seq<Fate>)
    | DoReconcile(fates: seq<Fate>)
    | DoReplay(fates: seq<Fate>)

  /** Both nodes retain the whole corpus, and the producer has answered with a proposal. What the experiment's
      producer proposes, its own archive accepts (`WorkerProposals.ProposalIsAccepted`); so a packet that the
      archive would not accept stands for no answer. */
  predicate Level(p: Protocol, d: Durable, proposal: Option<Bytes>) {
    && d.producerArchive == d.corpus && d.followerArchive == d.corpus
    && proposal.Some? && p.accepts(d.producerArchive, proposal.value)
  }

  /** `step` up to its proposal. */
  ghost function Inspect(p: Protocol, d: Durable, fates: seq<Fate>): Op {
    OpenFollower(p, Observe(p, OpenProducer(p, Load(p, Begin(d, fates)))))
  }

  /** `step` from its proposal on: selection, producer authority, producer commit, observation, follower
      authority, follower commit. */
  function Advance(p: Protocol, s: Op, b: Bytes): Op {
    CommitFollower(p, OpenFollower(p, Release(p, CommitProducer(p, OpenProducer(p, Select(p, s, b))))))
  }

  ghost function StepOp(p: Protocol, d: Durable, proposal: Option<Bytes>, fates: seq<Fate>): Op {
    var s := Inspect(p, d, fates);
    var s' := Require(s, Level(p, s.d, proposal));
    if s'.ok then Advance(p, s', proposal.value) else s'
  }

  ghost function ReconcileOp(p: Protocol, d: Durable, fates: seq<Fate>): Op {
    OpenFollower(p, Release(p, OpenProducer(p, Load(p, Begin(d, fates)))))
  }

  /** `replay` up to the producer's commit: only one unresolved tail is supported. */
  ghost function Reopen(p: Protocol, d: Durable, fates: seq<Fate>): Op {
    var loaded := Load(p, Begin(d, fates));
    var s := Observe(p, OpenProducer(p, PublishProducer(p, Require(loaded, d.corpus != []), |loaded.d.corpus|)));
    Require(s, |s.d.producerArchive| + 1 >= |s.d.corpus|)
  }

  /** `replay` from the producer's commit on. */
  function Finish(p: Protocol, s: Op): Op {
    var s' := OpenFollower(p, Release(p, CommitProducer(p, s)));
    CommitFollower(p, Require(s', |s'.d.followerArchive| + 1 >= |s'.d.corpus|))
  }

  ghost function ReplayOp(p: Protocol, d: Durable, fates: seq<Fate>): Op {
    Finish(p, Reopen(p, d, fates))
  }

  ghost function Invoke(p: Protocol, d: Durable, inv: Invocation): Op {
    match inv
    case DoStep(proposal, fates) => StepOp(p, d, proposal, fates)
    case DoReconcile(fates) => ReconcileOp(p, d, fates)
    case DoReplay(fates) => ReplayOp(p, d, fates)
  }

  /** The durable state after a run of invocations, each interrupted or not. */
  ghost function RunAll(p: Protocol, d: Durable, invocations: seq<Invocation>): Durable {
    if invocations == [] then d
    else Invoke(p, RunAll(p, d, invocations[..|invocations| - 1]), invocations[|invocations| - 1]).d
  }

  // ----- what every action keeps -----

  /** The site is in order, and a running invocation knows the released authority. */
  ghost predicate OpOk(p: Protocol, s: Op) {
    && SiteOk(p, s.d)
    && (s.ok ==>
          !s.d.tornTail && |s.d.followerArchive| <= s.followerCount
          && IsWhole(s.d.followerApprovals, s.followerCount))
  }

  /** An action keeps the site in order, loses nothing durable, and never restarts a stopped invocation. */
  ghost predicate Keeps(p: Protocol, s: Op, r: Op) {
    OpOk(p, r) && Grows(s.d, r.d) && (r.ok ==> s.ok)
  }

  /** Nothing has gone wrong and nothing is going to. */
  ghost predicate Smooth(s: Op) {
    s.ok && NoTorn(s.d) && Calm(s.fates)
  }

  lemma CalmNext(fates: seq<Fate>)
    requires Calm(fates)
    ensures NextFate(fates) == Completes && Calm(LaterFates(fates))
  {
    if fates != [] {
      assert fates[0] in fates && forall f :: f in fates[1..] ==> f in fates;
    }
  }

  lemma {:induction false} SyncFacts(s: Op, n: nat)
    ensures Sync(s, n).d == s.d && Sync(s, n).followerCount == s.followerCount && (Sync(s, n).ok ==> s.ok)
    ensures Smooth(s) ==> Smooth(Sync(s, n))
    decreases n
  {
    if s.ok && n > 0 && NextFate(s.fates) == Completes {
      SyncFacts(s.(fates := LaterFates(s.fates)), n - 1);
      if Smooth(s) {
        CalmNext(s.fates);
      }
    } else if Smooth(s) {
      CalmNext(s.fates);
    }
  }

  lemma {:induction false} SyncMore(s: Op, a: nat, b: nat)
    ensures Sync(s, a + b) == Sync(Sync(s, a), b)
    decreases a
  {
    if s.ok && a > 0 && NextFate(s.fates) == Completes {
      SyncMore(s.(fates := LaterFates(s.fates)), a - 1, b);
    }
  }

  /** A number of synchronizations in two parts. */
  lemma SyncSplit(s: Op, total: nat, first: nat, rest: nat)
    requires total == first + rest
    ensures Sync(s, total) == Sync(Sync(s, first), rest)
    ensures !Sync(s, first).ok ==> !Sync(s, total).ok
  {
    SyncMore(s, first, rest);
  }

  /** Synchronizing does not depend on the authority the invocation knows. */
  lemma {:induction false} SyncKeepsCount(s: Op, count: nat, n: nat)
    ensures Sync(s.(followerCount := count), n) == Sync(s, n).(followerCount := count)
    decreases n
  {
    if s.ok && n > 0 && NextFate(s.fates) == Completes {
      SyncKeepsCount(s.(fates := LaterFates(s.fates)), count, n - 1);
    }
  }

  /** Loading changes nothing durable; it succeeds exactly on a loadable directory that synchronizes. */
  lemma LoadShape(p: Protocol, s: Op)
    requires s.ok
    ensures Load(p, s).d == s.d && (Load(p, s).ok <==> Loadable(p, s.d) && Sync(s, LoadSyncs(s.d)).ok)
    ensures Load(p, s).ok ==>
      Load(p, s) == Sync(s, LoadSyncs(s.d)).(followerCount := Highest(s.d.followerApprovals))
  {
    var s' := Require(s, Loadable(p, s.d));
    SyncFacts(s'.(followerCount := Highest(s.d.followerApprovals)), LoadSyncs(s.d));
    SyncKeepsCount(s', Highest(s.d.followerApprovals), LoadSyncs(s.d));
  }

  lemma KeepsTransitive(p: Protocol, a: Op, b: Op, c: Op)
    requires Keeps(p, a, b) && Keeps(p, b, c)
    ensures Keeps(p, a, c)
  {
    GrowsTransitive(a.d, b.d, c.d);
  }

  /** In an orderly site, loading succeeds exactly if no selection or approval is torn. */
  lemma LoadableExactly(p: Protocol, d: Durable)
    requires SiteOk(p, d)
    ensures Loadable(p, d) <==> !d.tornTail && NoneTorn(d.producerApprovals) && NoneTorn(d.followerApprovals)
  {
    forall i | 0 <= i < |d.corpus|
      ensures p.fits(d.corpus[..i], d.corpus[i])
    {
      assert Sound(p, d.corpus, i);
    }
    forall n | n in d.producerApprovals
      ensures d.producerApprovals[n].Whole? <==> FileMatches(p, d, d.producerApprovals, false, n)
    {
      assert ApprovalOk(p, d.corpus, d.producerApprovals, n);
    }
    forall n | n in d.followerApprovals
      ensures d.followerApprovals[n].Whole? <==> FileMatches(p, d, d.followerApprovals, true, n)
    {
      assert ApprovalOk(p, d.corpus, d.followerApprovals, n);
      if d.followerApprovals[n].Whole? {
        assert FollowerBacked(d, n);
        ObservedMatches(p, d, n);
      }
    }
  }

  lemma ObservedMatches(p: Protocol, d: Durable, n: nat)
    requires SiteOk(p, d) && n <= |d.corpus|
    ensures ObservationsMatch(p, d, n) <==> Observed(d, n)
  {
    forall i: nat | 1 <= i <= n
      ensures IsWhole(d.retained, i) <==> i in d.retained && d.retained[i] == Whole(p.ident(d.corpus[i - 1]))
    {
      assert RetainedOk(p, d, i);
    }
  }

  lemma LoadKeeps(p: Protocol, s: Op)
    requires SiteOk(p, s.d) && s.ok
    ensures Keeps(p, s, Load(p, s)) && Load(p, s).d == s.d
    ensures Load(p, s).ok ==> !s.d.tornTail && NoneTorn(s.d.producerApprovals) && NoneTorn(s.d.followerApprovals)
    ensures Smooth(s) ==> Smooth(Load(p, s))
  {
    LoadableExactly(p, s.d);
    var s1 := Require(s, Loadable(p, s.d)).(followerCount := Highest(s.d.followerApprovals));
    SyncFacts(s1, LoadSyncs(s.d));
    var n: nat :| |s.d.followerArchive| <= n && IsWhole(s.d.followerApprovals, n);
    assert n <= Highest(s.d.followerApprovals);
  }

  lemma PublishProducerKeeps(p: Protocol, s: Op, n: nat)
    requires OpOk(p, s) && n <= |s.d.corpus|
    ensures var r := PublishProducer(p, s, n);
      && Keeps(p, s, r) && r.d == s.d.(producerApprovals := r.d.producerApprovals)
      && r.followerCount == s.followerCount
      && (r.ok ==> IsWhole(r.d.producerApprovals, n)) && (Smooth(s) ==> Smooth(r))
  {
    if s.ok {
      var f := NextFate(s.fates);
      assert ApprovalOk(p, s.d.corpus, s.d.producerApprovals, n);
      PublishFacts(s.d.producerApprovals, n, Idents(p, s.d.corpus[..n]), f);
      ProducerApprovalKeeps(p, s.d, n, f);
      if Smooth(s) {
        CalmNext(s.fates);
      }
    }
  }

  lemma PublishFollowerKeeps(p: Protocol, s: Op, n: nat)
    requires OpOk(p, s) && n <= |s.d.corpus|
    ensures var r := PublishFollower(p, s, n);
      && Keeps(p, s, r) && r.d == s.d.(followerApprovals := r.d.followerApprovals)
      && r.followerCount == s.followerCount
      && (r.ok ==> IsWhole(r.d.followerApprovals, n) && Observed(s.d, n))
      && (Smooth(s) && Observed(s.d, n) ==> Smooth(r))
  {
    ObservedMatches(p, s.d, n);
    var s1 := Require(s, ObservationsMatch(p, s.d, n));
    SyncFacts(s1, n);
    var s2 := Sync(s1, n);
    if s2.ok {
      var f := NextFate(s2.fates);
      assert ApprovalOk(p, s.d.corpus, s.d.followerApprovals, n);
      PublishFacts(s.d.followerApprovals, n, Idents(p, s.d.corpus[..n]), f);
      FollowerApprovalKeeps(p, s.d, n, f);
      if Smooth(s2) {
        CalmNext(s2.fates);
      }
    }
  }

  lemma PublishObservationKeeps(p: Protocol, s: Op, i: nat)
    requires OpOk(p, s) && 1 <= i <= |s.d.producerArchive|
    ensures var r := PublishObservation(p, s, i);
      && Keeps(p, s, r) && r.d == s.d.(retained := r.d.retained) && r.followerCount == s.followerCount
      && (r.ok ==> IsWhole(r.d.retained, i)) && (Smooth(s) ==> Smooth(r))
  {
    if s.ok {
      var f := NextFate(s.fates);
      assert RetainedOk(p, s.d, i);
      PublishFacts(s.d.retained, i, p.ident(s.d.corpus[i - 1]), f);
      ObservationKeeps(p, s.d, i, f);
      if Smooth(s) {
        CalmNext(s.fates);
      }
    }
  }

  lemma ObservedGrows(d: Durable, d': Durable, n: nat)
    requires Grows(d, d') && Observed(d, n)
    ensures Observed(d', n)
  {
    forall i: nat | 1 <= i <= n
      ensures IsWhole(d'.retained, i)
    {
      assert IsWhole(d.retained, i);
    }
  }

  lemma {:induction false} ObserveUpToKeeps(p: Protocol, s: Op, n: nat)
    requires OpOk(p, s) && n <= |s.d.producerArchive|
    ensures var r := ObserveUpTo(p, s, n);
      Keeps(p, s, r) && (r.ok ==> Observed(r.d, n)) && (Smooth(s) ==> Smooth(r))
  {
    if n > 0 {
      ObserveUpToKeeps(p, s, n - 1);
      ObserveOneMore(p, ObserveUpTo(p, s, n - 1), n);
      KeepsTransitive(p, s, ObserveUpTo(p, s, n - 1), ObserveUpTo(p, s, n));
    }
  }

  lemma ObserveOneMore(p: Protocol, s: Op, n: nat)
    requires OpOk(p, s) && 1 <= n <= |s.d.producerArchive| && (s.ok ==> Observed(s.d, n - 1))
    ensures var r := PublishObservation(p, s, n);
      Keeps(p, s, r) && (r.ok ==> Observed(r.d, n)) && (Smooth(s) ==> Smooth(r))
  {
    PublishObservationKeeps(p, s, n);
    var r := PublishObservation(p, s, n);
    if r.ok {
      ObservedGrows(s.d, r.d, n - 1);
    }
  }

  /** Released follower authority never runs ahead of the producer's archive. */
  lemma ReleasedIsRetained(p: Protocol, s: Op)
    requires OpOk(p, s) && s.ok
    ensures s.followerCount <= |s.d.producerArchive|
  {
    assert FollowerBacked(s.d, s.followerCount);
    if s.followerCount > 0 {
      assert IsWhole(s.d.retained, s.followerCount);
      assert RetainedOk(p, s.d, s.followerCount);
    }
  }

  lemma ObserveKeeps(p: Protocol, s: Op)
    requires OpOk(p, s)
    ensures var r := Observe(p, s);
      Keeps(p, s, r) && (r.ok ==> Observed(r.d, |r.d.producerArchive|)) && (Smooth(s) ==> Smooth(r))
  {
    if s.ok {
      ReleasedIsRetained(p, s);
      ObserveUpToKeeps(p, s, |s.d.producerArchive|);
    }
  }

  lemma ReleaseKeeps(p: Protocol, s: Op)
    requires OpOk(p, s)
    ensures var r := Release(p, s);
      && Keeps(p, s, r)
      && r.d == s.d.(retained := r.d.retained, followerApprovals := r.d.followerApprovals)
      && (r.ok ==> r.followerCount == |r.d.producerArchive| && Observed(r.d, |r.d.producerArchive|))
      && (Smooth(s) ==> Smooth(r))
  {
    ObserveKeeps(p, s);
    var s1 := Observe(p, s);
    if s1.ok {
      var n := |s1.d.producerArchive|;
      PublishFollowerKeeps(p, s1, n);
      var s2 := PublishFollower(p, s1, n);
      KeepsTransitive(p, s, s1, s2);
      if s2.ok {
        ObservedGrows(s1.d, s2.d, n);
      }
    }
  }

  lemma OpenProducerKeeps(p: Protocol, s: Op)
    requires OpOk(p, s)
    ensures var r := OpenProducer(p, s);
      && Keeps(p, s, r) && r.d == s.d.(producerApprovals := r.d.producerApprovals)
      && r.followerCount == s.followerCount
      && (r.ok ==> IsWhole(r.d.producerApprovals, |r.d.corpus|))
      && (LawfulProtocol(p) && Smooth(s) ==> Smooth(r))
  {
    PublishProducerKeeps(p, s, |s.d.corpus|);
    var r := PublishProducer(p, s, |s.d.corpus|);
    assert r.d.corpus[..|r.d.corpus|] == r.d.corpus;
    if LawfulProtocol(p) {
      DerivedDocumentLoads(p, r.d, |r.d.corpus|);
    }
  }

  lemma OpenFollowerKeeps(p: Protocol, s: Op)
    requires OpOk(p, s)
    ensures Keeps(p, s, OpenFollower(p, s)) && OpenFollower(p, s).d == s.d
    ensures OpenFollower(p, s).followerCount == s.followerCount
    ensures LawfulProtocol(p) && Smooth(s) ==> Smooth(OpenFollower(p, s))
  {
    if s.ok {
      assert ApprovalOk(p, s.d.corpus, s.d.followerApprovals, s.followerCount);
      if LawfulProtocol(p) {
        DerivedDocumentLoads(p, s.d, s.followerCount);
      }
    }
  }

  lemma CommitProducerKeeps(p: Protocol, s: Op)
    requires OpOk(p, s) && (s.ok && s.d.corpus != [] ==> IsWhole(s.d.producerApprovals, |s.d.corpus|))
    ensures var r := CommitProducer(p, s);
      && Keeps(p, s, r) && r.d == s.d.(producerArchive := r.d.producerArchive) && r.followerCount == s.followerCount
      && (r.ok ==> r.d.producerArchive == r.d.corpus != [])
      && (Smooth(s) && s.d.corpus != [] ==> Smooth(r))
  {
    if s.ok && s.d.corpus != [] {
      CalmNextIf(s);
      if |s.d.producerArchive| < |s.d.corpus| {
        Controller.ProducerCommitKeeps(p, s.d);
        assert Sound(p, s.d.corpus, |s.d.producerArchive|);
        LastRequest(s.d.producerArchive, s.d.corpus);
      }
    }
  }

  lemma CalmNextIf(s: Op)
    ensures Smooth(s) ==> NextFate(s.fates) == Completes && Calm(LaterFates(s.fates))
  {
    if Smooth(s) {
      CalmNext(s.fates);
    }
  }

  lemma LastRequest(archive: seq<Bytes>, corpus: seq<Bytes>)
    requires archive <= corpus && |archive| + 1 == |corpus|
    ensures archive == corpus[..|archive|] && archive + [corpus[|corpus| - 1]] == corpus
  {}

  lemma CommitFollowerKeeps(p: Protocol, s: Op)
    requires OpOk(p, s)
    ensures var r := CommitFollower(p, s);
      && Keeps(p, s, r) && r.d == s.d.(followerArchive := r.d.followerArchive) && r.followerCount == s.followerCount
      && (r.ok ==> r.d.followerArchive == r.d.corpus != [])
      && (Smooth(s) && s.d.corpus != [] && s.followerCount == |s.d.corpus| ==> Smooth(r))
  {
    if s.ok && s.d.corpus != [] && s.followerCount >= |s.d.corpus| {
      CalmNextIf(s);
      assert ApprovalOk(p, s.d.corpus, s.d.followerApprovals, s.followerCount);
      if |s.d.followerArchive| < |s.d.corpus| {
        Controller.FollowerCommitKeeps(p, s.d);
        assert Sound(p, s.d.corpus, |s.d.followerArchive|);
        LastRequest(s.d.followerArchive, s.d.corpus);
      }
    }
  }

  lemma SelectKeeps(p: Protocol, s: Op, b: Bytes)
    requires OpOk(p, s) && (s.ok ==> |s.d.followerArchive| == |s.d.corpus| && p.accepts(s.d.corpus, b))
    ensures var r := Select(p, s, b);
      && Keeps(p, s, r) && r.followerCount == s.followerCount
      && (r.ok ==> |s.d.corpus| < MAX_STEPS && p.fits(s.d.corpus, b) && r.d == s.d.(corpus := s.d.corpus + [b]))
      && (Smooth(s) && |s.d.corpus| < MAX_STEPS && p.fits(s.d.corpus, b) ==> Smooth(r))
  {
    if s.ok && |s.d.corpus| < MAX_STEPS && p.fits(s.d.corpus, b) {
      SelectionKeeps(p, s.d, b);
      CalmNextIf(s);
    }
  }

  // ----- what every invocation keeps, and when it succeeds -----

  /** Files are never replaced, so complete observations at the end were not torn at the start. */
  lemma ObservedWasWhole(p: Protocol, d: Durable, d': Durable)
    requires SiteOk(p, d) && SiteOk(p, d') && Grows(d, d') && Observed(d', |d'.producerArchive|)
    ensures NoneTorn(d.retained)
  {
    forall i | i in d.retained
      ensures d.retained[i].Whole?
    {
      assert RetainedOk(p, d, i);
      assert IsWhole(d'.retained, i);
    }
  }

  lemma BeginIsOk(p: Protocol, d: Durable, fates: seq<Fate>)
    requires SiteOk(p, d)
    ensures var s := Load(p, Begin(d, fates));
      && Keeps(p, Begin(d, fates), s) && s.d == d
      && (s.ok ==> !d.tornTail && NoneTorn(d.producerApprovals) && NoneTorn(d.followerApprovals))
      && (Calm(fates) && NoTorn(d) ==> Smooth(s))
  {
    LoadKeeps(p, Begin(d, fates));
  }

  /** The part of a site that only selections and commits change. */
  predicate SameProgress(d: Durable, d': Durable) {
    d'.corpus == d.corpus && d'.producerArchive == d.producerArchive && d'.followerArchive == d.followerArchive
  }

  lemma InspectKeeps(p: Protocol, d: Durable, fates: seq<Fate>)
    requires SiteOk(p, d)
    ensures var r := Inspect(p, d, fates);
      && Keeps(p, Begin(d, fates), r) && SameProgress(d, r.d) && (r.ok ==> NoTorn(d))
      && (LawfulProtocol(p) && Calm(fates) && NoTorn(d) ==> Smooth(r))
  {
    var s0, s1 := Begin(d, fates), Load(p, Begin(d, fates));
    BeginIsOk(p, d, fates);
    OpenProducerKeeps(p, s1);
    var s2 := OpenProducer(p, s1);
    KeepsTransitive(p, s0, s1, s2);
    ObserveKeeps(p, s2);
    var s3 := Observe(p, s2);
    KeepsTransitive(p, s0, s2, s3);
    OpenFollowerKeeps(p, s3);
    KeepsTransitive(p, s0, s3, OpenFollower(p, s3));
    if s3.ok {
      ObservedWasWhole(p, d, s3.d);
    }
  }

  /** From a level site, the new request goes all the way to both archives, or stops in between. */
  lemma AdvanceKeeps(p: Protocol, s: Op, b: Bytes)
    requires OpOk(p, s) && s.ok && Level(p, s.d, Some(b))
    ensures var r := Advance(p, s, b);
      && Keeps(p, s, r) && (r.d.corpus == s.d.corpus || r.d.corpus == s.d.corpus + [b])
      && (r.ok ==> |s.d.corpus| < MAX_STEPS && p.fits(s.d.corpus, b) && r.d.corpus == s.d.corpus + [b])
      && (r.ok ==> r.d.producerArchive == r.d.corpus && r.d.followerArchive == r.d.corpus)
      && (LawfulProtocol(p) && Smooth(s) && |s.d.corpus| < MAX_STEPS && p.fits(s.d.corpus, b) ==> Smooth(r))
  {
    SelectKeeps(p, s, b);
    var s1 := Select(p, s, b);
    SelectedCorpus(p, s, b);
    OpenProducerKeeps(p, s1);
    var s2 := OpenProducer(p, s1);
    KeepsTransitive(p, s, s1, s2);
    CommitProducerKeeps(p, s2);
    var s3 := CommitProducer(p, s2);
    KeepsTransitive(p, s, s2, s3);
    FinishKeeps(p, s3);
    KeepsTransitive(p, s, s3, Advance(p, s, b));
  }

  lemma SelectedCorpus(p: Protocol, s: Op, b: Bytes)
    ensures var d := Select(p, s, b).d;
      d.corpus == s.d.corpus || d.corpus == s.d.corpus + [b]
  {}

  /** The end that step and replay share: release to the follower, and its commit. */
  lemma FinishKeeps(p: Protocol, s: Op)
    requires OpOk(p, s) && (s.ok ==> s.d.producerArchive == s.d.corpus != [])
    ensures var r := CommitFollower(p, OpenFollower(p, Release(p, s)));
      && Keeps(p, s, r) && r.d.corpus == s.d.corpus && r.d.producerArchive == s.d.producerArchive
      && (r.ok ==> r.d.followerArchive == r.d.corpus != [] && Observed(r.d, |r.d.producerArchive|))
      && (LawfulProtocol(p) && Smooth(s) ==> Smooth(r))
  {
    ReleaseKeeps(p, s);
    var s1 := Release(p, s);
    OpenFollowerKeeps(p, s1);
    var s2 := OpenFollower(p, s1);
    KeepsTransitive(p, s, s1, s2);
    CommitFollowerKeeps(p, s2);
    KeepsTransitive(p, s, s2, CommitFollower(p, s2));
  }

  /** An uninterrupted step will succeed. */
  predicate StepReady(p: Protocol, d: Durable, proposal: Option<Bytes>) {
    NoTorn(d) && Level(p, d, proposal) && |d.corpus| < MAX_STEPS && p.fits(d.corpus, proposal.value)
  }

  /** A step keeps the site in order wherever it is interrupted, and adds at most its own proposal. It completes
      only from a ready site, uninterrupted it completes exactly then, and completed it has brought the
      proposal into both archives. */
  lemma StepExactly(p: Protocol, d: Durable, proposal: Option<Bytes>, fates: seq<Fate>)
    requires SiteOk(p, d)
    ensures var r := StepOp(p, d, proposal, fates);
      && SiteOk(p, r.d) && Grows(d, r.d)
      && (r.d.corpus == d.corpus || (proposal.Some? && r.d.corpus == d.corpus + [proposal.value]))
      && (r.ok ==> StepReady(p, d, proposal) && r.d.corpus == d.corpus + [proposal.value])
      && (r.ok ==> r.d.producerArchive == r.d.corpus && r.d.followerArchive == r.d.corpus)
      && (LawfulProtocol(p) && Calm(fates) ==> (r.ok <==> StepReady(p, d, proposal)))
  {
    InspectKeeps(p, d, fates);
    var s := Inspect(p, d, fates);
    if s.ok && Level(p, s.d, proposal) {
      AdvanceKeeps(p, s, proposal.value);
      KeepsTransitive(p, Begin(d, fates), s, Advance(p, s, proposal.value));
    }
  }

  /** A reconciliation commits nothing and loses nothing; uninterrupted it completes exactly if nothing is
      torn, and then the follower's authority and the observations cover what the producer retains. */
  lemma ReconcileExactly(p: Protocol, d: Durable, fates: seq<Fate>)
    requires SiteOk(p, d)
    ensures var r := ReconcileOp(p, d, fates);
      && SiteOk(p, r.d) && Grows(d, r.d) && SameProgress(d, r.d)
      && (r.ok ==> NoTorn(d) && r.followerCount == |d.producerArchive|)
      && (r.ok ==> Observed(r.d, |d.producerArchive|) && IsWhole(r.d.followerApprovals, |d.producerArchive|))
      && (LawfulProtocol(p) && Calm(fates) ==> (r.ok <==> NoTorn(d)))
  {
    var s0, s1 := Begin(d, fates), Load(p, Begin(d, fates));
    BeginIsOk(p, d, fates);
    OpenProducerKeeps(p, s1);
    var s2 := OpenProducer(p, s1);
    KeepsTransitive(p, s0, s1, s2);
    ReleaseKeeps(p, s2);
    var s3 := Release(p, s2);
    KeepsTransitive(p, s0, s2, s3);
    OpenFollowerKeeps(p, s3);
    if s3.ok {
      ObservedWasWhole(p, d, s3.d);
    }
  }

  lemma ReopenKeeps(p: Protocol, d: Durable, fates: seq<Fate>)
    requires SiteOk(p, d)
    ensures var r := Reopen(p, d, fates);
      && Keeps(p, Begin(d, fates), r) && SameProgress(d, r.d)
      && (r.ok ==> NoTorn(d) && d.corpus != [] && IsWhole(r.d.producerApprovals, |d.corpus|))
      && (LawfulProtocol(p) && Calm(fates) && NoTorn(d) && d.corpus != [] ==> Smooth(r))
  {
    var s0, s1 := Begin(d, fates), Require(Load(p, Begin(d, fates)), d.corpus != []);
    BeginIsOk(p, d, fates);
    RepublishKeeps(p, s1);
    var s2 := Observe(p, OpenProducer(p, PublishProducer(p, s1, |s1.d.corpus|)));
    KeepsTransitive(p, s0, s1, s2);
    if s2.ok {
      ObservedWasWhole(p, d, s2.d);
    }
  }

  lemma RepublishKeeps(p: Protocol, s: Op)
    requires OpOk(p, s)
    ensures var r := Observe(p, OpenProducer(p, PublishProducer(p, s, |s.d.corpus|)));
      && Keeps(p, s, r) && SameProgress(s.d, r.d)
      && (r.ok ==> Observed(r.d, |r.d.producerArchive|) && IsWhole(r.d.producerApprovals, |s.d.corpus|))
      && (LawfulProtocol(p) && Smooth(s) ==> Smooth(r))
  {
    PublishProducerKeeps(p, s, |s.d.corpus|);
    var s1 := PublishProducer(p, s, |s.d.corpus|);
    OpenProducerKeeps(p, s1);
    var s2 := OpenProducer(p, s1);
    KeepsTransitive(p, s, s1, s2);
    ObserveKeeps(p, s2);
    KeepsTransitive(p, s, s2, Observe(p, s2));
  }

  lemma ReplayFinishes(p: Protocol, s: Op)
    requires OpOk(p, s) && (s.ok ==> s.d.corpus != [] && IsWhole(s.d.producerApprovals, |s.d.corpus|))
    ensures var r := Finish(p, s);
      && Keeps(p, s, r) && r.d.corpus == s.d.corpus
      && (r.ok ==> r.d.producerArchive == s.d.corpus && r.d.followerArchive == s.d.corpus)
      && (LawfulProtocol(p) && Smooth(s) ==> Smooth(r))
  {
    CommitProducerKeeps(p, s);
    var s1 := CommitProducer(p, s);
    FinishKeeps(p, s1);
    ReleaseKeeps(p, s1);
    OpenFollowerKeeps(p, Release(p, s1));
    var s2 := OpenFollower(p, Release(p, s1));
    assert |s2.d.followerArchive| + 1 >= |s2.d.corpus|;
    KeepsTransitive(p, s, s1, CommitFollower(p, s2));
  }

  /** A replay keeps the corpus and loses nothing; uninterrupted it completes exactly if the corpus is not empty
      and nothing is torn, and then both archives equal the corpus. */
  lemma ReplayExactly(p: Protocol, d: Durable, fates: seq<Fate>)
    requires SiteOk(p, d)
    ensures var r := ReplayOp(p, d, fates);
      && SiteOk(p, r.d) && Grows(d, r.d) && r.d.corpus == d.corpus
      && (r.ok ==> d.corpus != [] && NoTorn(d))
      && (r.ok ==> r.d.producerArchive == d.corpus && r.d.followerArchive == d.corpus)
      && (LawfulProtocol(p) && Calm(fates) ==> (r.ok <==> d.corpus != [] && NoTorn(d)))
  {
    ReopenKeeps(p, d, fates);
    ReplayFinishes(p, Reopen(p, d, fates));
    KeepsTransitive(p, Begin(d, fates), Reopen(p, d, fates), ReplayOp(p, d, fates));
  }

  // ----- whole runs -----

  /** What one invocation may do to a site, by its kind: what it can change when interrupted, when it succeeds,
      and what it has then achieved. */
  ghost predicate Invoked(p: Protocol, d: Durable, inv: Invocation, r: Op) {
    && SiteOk(p, r.d) && Grows(d, r.d) && (r.ok ==> NoTorn(d))
    && match inv
       case DoStep(proposal, fates) =>
         && (r.d.corpus == d.corpus || (proposal.Some? && r.d.corpus == d.corpus + [proposal.value]))
         && (r.ok ==> proposal.Some? && r.d.corpus == d.corpus + [proposal.value])
         && (r.ok ==> r.d.producerArchive == r.d.corpus && r.d.followerArchive == r.d.corpus)
         && (LawfulProtocol(p) && Calm(fates) ==> (r.ok <==> StepReady(p, d, proposal)))
       case DoReconcile(fates) =>
         && SameProgress(d, r.d)
         && (r.ok ==> Observed(r.d, |d.producerArchive|) && IsWhole(r.d.followerApprovals, |d.producerArchive|))
         && (LawfulProtocol(p) && Calm(fates) ==> (r.ok <==> NoTorn(d)))
       case DoReplay(fates) =>
         && r.d.corpus == d.corpus
         && (r.ok ==> r.d.producerArchive == d.corpus && r.d.followerArchive == d.corpus)
         && (LawfulProtocol(p) && Calm(fates) ==> (r.ok <==> d.corpus != [] && NoTorn(d)))
  }

  lemma InvokeKeeps(p: Protocol, d: Durable, inv: Invocation)
    requires SiteOk(p, d)
    ensures Invoked(p, d, inv, Invoke(p, d, inv))
  {
    match inv
    case DoStep(proposal, fates) => StepExactly(p, d, proposal, fates);
    case DoReconcile(fates) => ReconcileExactly(p, d, fates);
    case DoReplay(fates) => ReplayExactly(p, d, fates);
  }

  /** The transition of the last invocation of a run. */
  lemma LastInvocation(p: Protocol, d: Durable, invocations: seq<Invocation>, inv: Invocation)
    requires SiteOk(p, d)
    ensures var before := RunAll(p, d, invocations);
      && SiteOk(p, before) && Invoked(p, before, inv, Invoke(p, before, inv))
      && RunAll(p, d, invocations + [inv]) == Invoke(p, before, inv).d
  {
    ChainInEveryRun(p, d, invocations);
    InvokeKeeps(p, RunAll(p, d, invocations), inv);
    assert (invocations + [inv])[..|invocations|] == invocations;
  }

  /** In every run of invocations, each interrupted anywhere, the site stays in order and nothing durable is
      lost: follower archive, follower approvals, observations, producer archive, producer approvals and corpus
      stay prefixes of each other, and the corpus is at most one step ahead. */
  lemma {:induction false} ChainInEveryRun(p: Protocol, d: Durable, invocations: seq<Invocation>)
    requires SiteOk(p, d)
    ensures var r := RunAll(p, d, invocations);
      && SiteOk(p, r) && Grows(d, r)
      && |r.followerArchive| <= Highest(r.followerApprovals) <= |r.producerArchive|
      && |r.producerArchive| <= Highest(r.producerApprovals) <= |r.corpus| <= |r.followerArchive| + 1
  {
    if invocations != [] {
      var front := invocations[..|invocations| - 1];
      ChainInEveryRun(p, d, front);
      InvokeKeeps(p, RunAll(p, d, front), invocations[|invocations| - 1]);
      GrowsTransitive(d, RunAll(p, d, front), RunAll(p, d, invocations));
    }
    ChainOfPrefixes(p, RunAll(p, d, invocations));
  }

  /** After any run, one uninterrupted replay makes both archives equal the corpus, exactly if the corpus is not
      empty and no artifact was left torn. */
  lemma ReplayAfterAnyRun(p: Protocol, d: Durable, invocations: seq<Invocation>)
    requires LawfulProtocol(p) && SiteOk(p, d)
    ensures var before := RunAll(p, d, invocations); var r := ReplayOp(p, before, []);
      && (r.ok <==> before.corpus != [] && NoTorn(before))
      && (r.ok ==> r.d.producerArchive == before.corpus && r.d.followerArchive == before.corpus == r.d.corpus)
  {
    ChainInEveryRun(p, d, invocations);
    ReplayExactly(p, RunAll(p, d, invocations), []);
  }

  lemma TornStaysTorn(d: Durable, d': Durable)
    requires Grows(d, d') && !NoTorn(d)
    ensures !NoTorn(d')
  {}

  /** A site with a file cut short is never usable again: no invocation succeeds on it, and none repairs it. */
  lemma TornForever(p: Protocol, d: Durable, inv: Invocation)
    requires SiteOk(p, d) && !NoTorn(d)
    ensures !Invoke(p, d, inv).ok && !NoTorn(Invoke(p, d, inv).d)
  {
    InvokeKeeps(p, d, inv);
    TornStaysTorn(d, Invoke(p, d, inv).d);
  }

  // ----- a run that gets stuck -----

  /** A first step that is cut short while it publishes the producer's authority for the selected packet. */
  function CutStep(b: Bytes): Invocation {
    DoStep(Some(b), [Completes, Completes, Completes, Completes, Stops(CutShort)])
  }

  lemma FirstLoad(p: Protocol, fates: seq<Fate>)
    requires |fates| > 2 && fates[0] == Completes && fates[1] == Completes
    ensures Load(p, Begin(Initialized(), fates)) == Op(Initialized(), fates[2..], 0, true)
  {
    var d := Initialized();
    MapSumUpdate(map[], 0, 1);
    assert Syncs(d.followerApprovals, true) == map[][0 := 1] && Syncs(d.producerApprovals, false) == map[][0 := 1];
    assert LoadSyncs(d) == 2;
    assert d.corpus[..0] == [] && Idents(p, d.corpus[..0]) == [];
    assert Loadable(p, d);
    assert Highest(d.followerApprovals) == 0;
    var s := Begin(d, fates);
    assert LaterFates(LaterFates(fates)) == fates[2..];
    assert Sync(s, 2) == Sync(s.(fates := LaterFates(fates)), 1);
  }

  lemma FirstInspect(p: Protocol, fates: seq<Fate>)
    requires |fates| > 3 && fates[0] == Completes && fates[1] == Completes && fates[2] == Completes
    ensures Inspect(p, Initialized(), fates) == Op(Initialized(), fates[3..], 0, true)
  {
    FirstLoad(p, fates);
    var d := Initialized();
    assert d.corpus[..0] == [] && Idents(p, d.corpus[..0]) == [];
    assert LaterFates(fates[2..]) == fates[3..];
    assert OpenProducer(p, Op(d, fates[2..], 0, true)) == Op(d, fates[3..], 0, true);
  }

  /** A stopped invocation does nothing more. */
  lemma StoppedStays(p: Protocol, s: Op)
    requires !s.ok
    ensures CommitFollower(p, OpenFollower(p, Release(p, CommitProducer(p, s)))) == s
  {}

  /** A step that stops while it publishes the producer's authority. */
  lemma StepStops(p: Protocol, d: Durable, b: Bytes, fates: seq<Fate>, s: Op, s1: Op)
    requires Inspect(p, d, fates) == s && s.ok && Level(p, s.d, Some(b))
    requires Select(p, s, b) == s1 && !OpenProducer(p, s1).ok
    ensures StepOp(p, d, Some(b), fates) == OpenProducer(p, s1)
  {
    StoppedStays(p, OpenProducer(p, s1));
  }

  lemma CutApproval(p: Protocol, s: Op, b: Bytes)
    requires s == Op(Initialized().(corpus := [b]), [Stops(CutShort)], 0, true)
    ensures var r := OpenProducer(p, s);
      !r.ok && r.d.corpus == [b] && 1 in r.d.producerApprovals && r.d.producerApprovals[1] == Torn
  {}

  lemma SelectsPacket(p: Protocol, s: Op, b: Bytes)
    requires s == Op(Initialized(), [Completes, Stops(CutShort)], 0, true) && p.fits([], b) && p.accepts([], b)
    ensures Select(p, s, b) == Op(Initialized().(corpus := [b]), [Stops(CutShort)], 0, true)
    ensures Level(p, s.d, Some(b))
  {
    assert [] + [b] == [b];
  }

  lemma CutStepLeaves(p: Protocol, d: Durable, b: Bytes) returns (r: Op)
    requires p.fits([], b) && p.accepts([], b) && d == Initialized()
    ensures r == StepOp(p, d, Some(b), CutStep(b).fates)
    ensures r.d.corpus == [b] && 1 in r.d.producerApprovals && r.d.producerApprovals[1] == Torn
  {
    FirstInspect(p, CutStep(b).fates);
    var s := Inspect(p, d, CutStep(b).fates);
    assert s.fates == [Completes, Stops(CutShort)];
    SelectsPacket(p, s, b);
    var s1 := Select(p, s, b);
    CutApproval(p, s1, b);
    r := OpenProducer(p, s1);
    StepStops(p, d, b, CutStep(b).fates, s, s1);
  }

  lemma RunOne(p: Protocol, d: Durable, inv: Invocation)
    ensures RunAll(p, d, [inv]) == Invoke(p, d, inv).d
  {
    assert [inv][..0] == [];
  }

  lemma TornStaysStuck(p: Protocol, d: Durable)
    requires SiteOk(p, d) && !NoTorn(d)
    ensures forall fates :: !ReplayOp(p, d, fates).ok
  {
    forall fates
      ensures !ReplayOp(p, d, fates).ok
    {
      ReplayExactly(p, d, fates);
    }
  }

  /** Not every run can be completed: with any workers and any packet they accept first, there is a run that
      leaves a file cut short next to that selected packet, and no replay of it ever succeeds. */
  lemma StuckSometimes(p: Protocol, d: Durable, b: Bytes) returns (run: seq<Invocation>)
    requires p.fits([], b) && p.accepts([], b) && d == Initialized()
    ensures var r := RunAll(p, d, run);
      r.corpus == [b] && !NoTorn(r) && forall fates :: !ReplayOp(p, r, fates).ok
  {
    InitializedIsOk(p);
    var r := CutStepLeaves(p, d, b);
    run := [CutStep(b)];
    RunOne(p, d, CutStep(b));
    InvokeKeeps(p, d, CutStep(b));
    assert r == Invoke(p, d, CutStep(b));
    TornStaysStuck(p, r.d);
  }
}
