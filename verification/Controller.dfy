/** The controller of one producer and one follower: durable selections, authority and observations, with a
    crash possible at any point (scripts/testnet_fixture_controller.py). */
module Controller {
  import opened Base
  import opened Crypto

  const MAX_STEPS: nat := 200

  /** The identity recomputed from a packet: its block hash and its envelope identifier. */
  datatype Ident = Ident(hash: Hash, envelopeId: Hash)

  /** What the controller and its workers compute from packets: the identity; whether a packet is framed for
      the head of a corpus; and whether a worker accepts it as the next envelope of an archive. */
  datatype Protocol = Protocol(
    anchor: Hash,
    ident: Bytes -> Ident,
    fits: (seq<Bytes>, Bytes) -> bool,
    accepts: (seq<Bytes>, Bytes) -> bool)

  /** A published file that exists: cut short by a crash, or complete. */
  datatype Artifact<T> = Torn | Whole(value: T)

  /** Everything that survives a crash. File number |corpus| + 1 of the selections may exist torn. */
  datatype Durable = Durable(
    corpus: seq<Bytes>,
    tornTail: bool,
    producerApprovals: map<nat, Artifact<seq<Ident>>>,
    followerApprovals: map<nat, Artifact<seq<Ident>>>,
    retained: map<nat, Artifact<Ident>>,
    producerArchive: seq<Bytes>,
    followerArchive: seq<Bytes>)

  /** What a worker guarantees about the packets it accepts: the block and the envelope are new. */
  predicate NewIdentity(p: Protocol, archive: seq<Bytes>, b: Bytes) {
    && p.ident(b).hash != p.anchor
    && forall i :: 0 <= i < |archive| ==>
         p.ident(archive[i]).hash != p.ident(b).hash && p.ident(archive[i]).envelopeId != p.ident(b).envelopeId
  }

  predicate AcceptLaw(p: Protocol, archive: seq<Bytes>, b: Bytes) {
    p.accepts(archive, b) ==> NewIdentity(p, archive, b)
  }

  ghost predicate LawfulProtocol(p: Protocol) {
    forall archive, b :: AcceptLaw(p, archive, b)
  }

  function Idents(p: Protocol, s: seq<Bytes>): seq<Ident> {
    seq(|s|, i requires 0 <= i < |s| => p.ident(s[i]))
  }

  // ----- what every operation keeps -----

  predicate Sound(p: Protocol, corpus: seq<Bytes>, i: nat)
    requires i < |corpus|
  {
    p.fits(corpus[..i], corpus[i]) && p.accepts(corpus[..i], corpus[i])
  }

  /** An approval file, if complete, is the authority derived from a prefix of the corpus. */
  predicate ApprovalOk(p: Protocol, corpus: seq<Bytes>, m: map<nat, Artifact<seq<Ident>>>, n: nat) {
    n in m ==> n <= |corpus| && (m[n].Whole? ==> m[n].value == Idents(p, corpus[..n]))
  }

  predicate IsWhole<T>(m: map<nat, Artifact<T>>, n: nat) {
    n in m && m[n].Whole?
  }

  predicate RetainedOk(p: Protocol, d: Durable, i: nat) {
    i in d.retained ==>
      && 1 <= i <= |d.producerArchive| && i <= |d.corpus|
      && (d.retained[i].Whole? ==> d.retained[i].value == p.ident(d.corpus[i - 1]))
  }

  /** Follower authority `n` rests on a complete observation of each of its steps. */
  ghost predicate Observed(d: Durable, n: nat) {
    forall i :: 1 <= i <= n ==> IsWhole(d.retained, i)
  }

  ghost predicate FollowerBacked(d: Durable, n: nat) {
    IsWhole(d.followerApprovals, n) ==> Observed(d, n)
  }

  /** Some complete approval file covers an archive. */
  ghost predicate Covered(m: map<nat, Artifact<seq<Ident>>>, size: nat) {
    exists n: nat :: size <= n && IsWhole(m, n)
  }

  ghost predicate FilesOk(p: Protocol, d: Durable) {
    && (forall n: nat :: ApprovalOk(p, d.corpus, d.producerApprovals, n))
    && (forall n: nat :: ApprovalOk(p, d.corpus, d.followerApprovals, n))
    && (forall i: nat :: RetainedOk(p, d, i))
    && (forall n: nat :: FollowerBacked(d, n))
  }

  predicate ArchivesOk(d: Durable) {
    && d.followerArchive <= d.producerArchive <= d.corpus
    && |d.corpus| <= |d.followerArchive| + 1
    && (d.tornTail ==> |d.corpus| == |d.followerArchive|)
  }

  ghost predicate SiteOk(p: Protocol, d: Durable) {
    && |d.corpus| <= MAX_STEPS && (forall i :: 0 <= i < |d.corpus| ==> Sound(p, d.corpus, i))
    && FilesOk(p, d) && ArchivesOk(d)
    && Covered(d.producerApprovals, |d.producerArchive|) && Covered(d.followerApprovals, |d.followerArchive|)
  }

  /** Right after initialization: both authorities are empty and so is everything else. */
  function Initialized(): Durable {
    Durable([], false, map[0 := Whole([])], map[0 := Whole([])], map[], [], [])
  }

  lemma InitializedIsOk(p: Protocol)
    ensures SiteOk(p, Initialized())
  {
    var d := Initialized();
    assert IsWhole(d.producerApprovals, 0) && IsWhole(d.followerApprovals, 0);
    assert d.corpus[..0] == [];
  }

  /** Nothing durable is ever lost or changed. */
  predicate Grows(d: Durable, d': Durable) {
    && d.corpus <= d'.corpus
    && d.producerArchive <= d'.producerArchive
    && d.followerArchive <= d'.followerArchive
    && (d.tornTail ==> d'.tornTail && d'.corpus == d.corpus)
    && KeepsFiles(d.producerApprovals, d'.producerApprovals)
    && KeepsFiles(d.followerApprovals, d'.followerApprovals)
    && KeepsFiles(d.retained, d'.retained)
  }

  predicate KeepsFiles<T(==)>(m: map<nat, Artifact<T>>, m': map<nat, Artifact<T>>) {
    forall n :: n in m ==> n in m' && m'[n] == m[n]
  }

  // ----- the chain of prefixes -----

  /** The highest complete file of a kind, zero if there is none. */
  ghost function Highest<T>(m: map<nat, Artifact<T>>): (n: nat)
    ensures n == 0 || IsWhole(m, n)
    ensures forall i: nat :: IsWhole(m, i) ==> i <= n
    decreases |m|
  {
    if m == map[] then 0
    else
      var k :| k in m;
      var rest := Highest(m - {k});
      assert forall i: nat :: IsWhole(m, i) ==> i == k || IsWhole(m - {k}, i);
      assert rest == 0 || IsWhole(m - {k}, rest);
      if m[k].Whole? && k > rest then k else rest
  }

  /** In every durable state: follower archive, follower approvals, producer observations, producer archive,
      producer approvals and selected corpus are each a prefix of the next, and the corpus is at most one
      step ahead of either archive. */
  lemma ChainOfPrefixes(p: Protocol, d: Durable)
    requires SiteOk(p, d)
    ensures var fa, pa := Highest(d.followerApprovals), Highest(d.producerApprovals);
      && |d.followerArchive| <= fa <= |d.producerArchive| <= pa <= |d.corpus|
      && Observed(d, fa)
      && d.followerArchive <= d.corpus[..fa] <= d.producerArchive <= d.corpus[..pa] <= d.corpus
      && (forall i: nat :: IsWhole(d.retained, i) ==>
            1 <= i <= |d.producerArchive| && d.retained[i].value == p.ident(d.producerArchive[i - 1]))
      && |d.corpus| <= |d.followerArchive| + 1
  {
    var fa, pa := Highest(d.followerApprovals), Highest(d.producerApprovals);
    var n: nat :| |d.followerArchive| <= n && IsWhole(d.followerApprovals, n);
    var m: nat :| |d.producerArchive| <= m && IsWhole(d.producerApprovals, m);
    assert FollowerBacked(d, fa);
    assert ApprovalOk(p, d.corpus, d.producerApprovals, pa);
    if fa > 0 {
      assert IsWhole(d.retained, fa);
      assert RetainedOk(p, d, fa);
    }
    forall i: nat | IsWhole(d.retained, i)
      ensures 1 <= i <= |d.producerArchive| && d.retained[i].value == p.ident(d.producerArchive[i - 1])
    {
      assert RetainedOk(p, d, i);
    }
  }

  // ----- single durable actions -----

  /** What happens to one durable action: it completes, or the operation stops there with the old state, the
      new state, or a file cut short. */
  datatype Fate = Completes | Stops(landing: Landing)
  datatype Landing = OldState | NewState | CutShort

  ghost predicate Calm(fates: seq<Fate>) {
    forall f :: f in fates ==> f == Completes
  }

  /** Exclusive immutable publication: an existing file must be the same, and is never replaced or repaired. */
  function Publish<T(==)>(m: map<nat, Artifact<T>>, n: nat, value: T, f: Fate): (map<nat, Artifact<T>>, bool) {
    if n in m then (m, m[n] == Whole(value) && f == Completes)
    else match f
      case Completes => (m[n := Whole(value)], true)
      case Stops(OldState) => (m, false)
      case Stops(NewState) => (m[n := Whole(value)], false)
      case Stops(CutShort) => (m[n := Torn], false)
  }

  predicate NoneTorn<T>(m: map<nat, Artifact<T>>) {
    forall n :: n in m ==> m[n].Whole?
  }

  predicate NoTorn(d: Durable) {
    !d.tornTail && NoneTorn(d.producerApprovals) && NoneTorn(d.followerApprovals) && NoneTorn(d.retained)
  }

  lemma PublishFacts<T>(m: map<nat, Artifact<T>>, n: nat, value: T, f: Fate)
    requires n in m && m[n].Whole? ==> m[n].value == value
    ensures var (m', ok) := Publish(m, n, value, f);
      && KeepsFiles(m, m')
      && (forall i :: i in m' && i !in m ==> i == n && (m'[i] == Torn || m'[i] == Whole(value)))
      && (ok ==> IsWhole(m', n))
      && (f == Completes && NoneTorn(m) ==> ok && NoneTorn(m'))
  {}

  /** Publishing derived producer authority. */
  lemma ProducerApprovalKeeps(p: Protocol, d: Durable, n: nat, f: Fate)
    requires SiteOk(p, d) && n <= |d.corpus|
    ensures var (m, ok) := Publish(d.producerApprovals, n, Idents(p, d.corpus[..n]), f);
      var d' := d.(producerApprovals := m);
      SiteOk(p, d') && Grows(d, d')
  {
    var m := Publish(d.producerApprovals, n, Idents(p, d.corpus[..n]), f).0;
    var d' := d.(producerApprovals := m);
    assert ApprovalOk(p, d.corpus, d.producerApprovals, n);
    PublishFacts(d.producerApprovals, n, Idents(p, d.corpus[..n]), f);
    forall i: nat
      ensures ApprovalOk(p, d'.corpus, m, i) && RetainedOk(p, d', i) && FollowerBacked(d', i)
    {
      assert ApprovalOk(p, d.corpus, d.producerApprovals, i) && RetainedOk(p, d, i) && FollowerBacked(d, i);
    }
    var c: nat :| |d.producerArchive| <= c && IsWhole(d.producerApprovals, c);
    assert IsWhole(m, c);
  }

  /** Publishing follower authority that rests on observations. */
  lemma FollowerApprovalKeeps(p: Protocol, d: Durable, n: nat, f: Fate)
    requires SiteOk(p, d) && n <= |d.corpus| && Observed(d, n)
    ensures var (m, ok) := Publish(d.followerApprovals, n, Idents(p, d.corpus[..n]), f);
      var d' := d.(followerApprovals := m);
      SiteOk(p, d') && Grows(d, d')
  {
    var m := Publish(d.followerApprovals, n, Idents(p, d.corpus[..n]), f).0;
    var d' := d.(followerApprovals := m);
    assert ApprovalOk(p, d.corpus, d.followerApprovals, n);
    PublishFacts(d.followerApprovals, n, Idents(p, d.corpus[..n]), f);
    forall i: nat
      ensures ApprovalOk(p, d'.corpus, m, i) && RetainedOk(p, d', i) && FollowerBacked(d', i)
    {
      assert ApprovalOk(p, d.corpus, d.followerApprovals, i) && RetainedOk(p, d, i) && FollowerBacked(d, i);
    }
    var c: nat :| |d.followerArchive| <= c && IsWhole(d.followerApprovals, c);
    assert IsWhole(m, c);
  }

  /** Publishing an observation of a step the producer retains. */
  lemma ObservationKeeps(p: Protocol, d: Durable, i: nat, f: Fate)
    requires SiteOk(p, d) && 1 <= i <= |d.producerArchive|
    ensures var (m, ok) := Publish(d.retained, i, p.ident(d.corpus[i - 1]), f);
      var d' := d.(retained := m);
      SiteOk(p, d') && Grows(d, d')
  {
    var m := Publish(d.retained, i, p.ident(d.corpus[i - 1]), f).0;
    var d' := d.(retained := m);
    assert RetainedOk(p, d, i);
    PublishFacts(d.retained, i, p.ident(d.corpus[i - 1]), f);
    forall j: nat
      ensures RetainedOk(p, d', j) && FollowerBacked(d', j)
    {
      assert RetainedOk(p, d, j) && FollowerBacked(d, j);
      if Observed(d, j) {
        forall q: nat | 1 <= q <= j
          ensures IsWhole(m, q)
        {
          assert IsWhole(d.retained, q);
        }
      }
    }
  }

  /** Selecting a request when everything before it is resolved on both nodes. */
  lemma SelectionKeeps(p: Protocol, d: Durable, b: Bytes)
    requires SiteOk(p, d) && |d.corpus| == |d.followerArchive| && p.fits(d.corpus, b) && p.accepts(d.corpus, b)
    requires !d.tornTail && |d.corpus| < MAX_STEPS
    ensures SiteOk(p, d.(corpus := d.corpus + [b])) && Grows(d, d.(corpus := d.corpus + [b]))
    ensures SiteOk(p, d.(tornTail := true)) && Grows(d, d.(tornTail := true))
  {
    var d' := d.(corpus := d.corpus + [b]);
    forall i | 0 <= i < |d'.corpus|
      ensures Sound(p, d'.corpus, i)
    {
      if i < |d.corpus| {
        assert Sound(p, d.corpus, i);
        assert d'.corpus[..i] == d.corpus[..i];
      } else {
        assert d'.corpus[..i] == d.corpus;
      }
    }
    forall n: nat
      ensures ApprovalOk(p, d'.corpus, d.producerApprovals, n) && ApprovalOk(p, d'.corpus, d.followerApprovals, n)
      ensures RetainedOk(p, d', n) && FollowerBacked(d', n)
      ensures RetainedOk(p, d.(tornTail := true), n) && FollowerBacked(d.(tornTail := true), n)
    {
      assert ApprovalOk(p, d.corpus, d.producerApprovals, n) && ApprovalOk(p, d.corpus, d.followerApprovals, n);
      assert RetainedOk(p, d, n) && FollowerBacked(d, n);
      if n <= |d.corpus| {
        assert d'.corpus[..n] == d.corpus[..n];
      }
    }
  }

  /** The producer commits the selected step under complete authority. */
  lemma ProducerCommitKeeps(p: Protocol, d: Durable)
    requires SiteOk(p, d) && |d.producerArchive| < |d.corpus| && IsWhole(d.producerApprovals, |d.corpus|)
    ensures |d.corpus| == |d.producerArchive| + 1
    ensures SiteOk(p, d.(producerArchive := d.corpus)) && Grows(d, d.(producerArchive := d.corpus))
  {
    var d' := d.(producerArchive := d.corpus);
    forall i: nat
      ensures RetainedOk(p, d', i) && FollowerBacked(d', i)
    {
      assert RetainedOk(p, d, i) && FollowerBacked(d, i);
    }
  }

  /** The follower commits the selected step under complete authority. */
  lemma FollowerCommitKeeps(p: Protocol, d: Durable)
    requires SiteOk(p, d) && |d.followerArchive| < |d.corpus| && IsWhole(d.followerApprovals, |d.corpus|)
    ensures |d.corpus| == |d.followerArchive| + 1 && d.producerArchive == d.corpus
    ensures SiteOk(p, d.(followerArchive := d.corpus)) && Grows(d, d.(followerArchive := d.corpus))
  {
    assert FollowerBacked(d, |d.corpus|);
    assert IsWhole(d.retained, |d.corpus|);
    assert RetainedOk(p, d, |d.corpus|);
    var d' := d.(followerArchive := d.corpus);
    forall i: nat
      ensures RetainedOk(p, d', i) && FollowerBacked(d', i)
    {
      assert RetainedOk(p, d, i) && FollowerBacked(d, i);
    }
  }

  // ----- documents -----

  /** What a worker demands of an approval document: no identity repeats, and none is the anchor's. */
  predicate LoadsDocument(p: Protocol, doc: seq<Ident>) {
    && |doc| <= MAX_STEPS
    && (forall i :: 0 <= i < |doc| ==> doc[i].hash != p.anchor)
    && (forall i, j :: 0 <= i < j < |doc| ==> doc[i].hash != doc[j].hash && doc[i].envelopeId != doc[j].envelopeId)
  }

  /** Because workers accept only new identities, every derived document loads. */
  lemma DerivedDocumentLoads(p: Protocol, d: Durable, n: nat)
    requires LawfulProtocol(p) && SiteOk(p, d) && n <= |d.corpus|
    ensures LoadsDocument(p, Idents(p, d.corpus[..n]))
  {
    var doc := Idents(p, d.corpus[..n]);
    forall j | 0 <= j < |doc|
      ensures doc[j].hash != p.anchor
      ensures forall i :: 0 <= i < j ==> doc[i].hash != doc[j].hash && doc[i].envelopeId != doc[j].envelopeId
    {
      assert Sound(p, d.corpus, j) && AcceptLaw(p, d.corpus[..j], d.corpus[j]);
      forall i | 0 <= i < j
        ensures doc[i].hash != doc[j].hash && doc[i].envelopeId != doc[j].envelopeId
      {
        assert d.corpus[..j][i] == d.corpus[i];
      }
    }
  }

  lemma GrowsTransitive(a: Durable, b: Durable, c: Durable)
    requires Grows(a, b) && Grows(b, c)
    ensures Grows(a, c)
  {}
}
