/** Leader selection: rejection sampling of a weighted bucket, then the ticket with
    the least score inside that bucket (src/leader_selection.rs). */
module LeaderSelection {
  import opened Base
  import opened Crypto
  import opened BigEndian
  import opened Counting
  import opened ByteOrder

  const LEADER_SELECTION_DOMAIN: Bytes :=
    [101, 116, 101, 114, 110, 105, 120, 58, 108, 101, 97, 100, 101, 114, 45, 115, 101, 108, 101, 99,
     116, 105, 111, 110, 58, 118, 49]
  const BUCKET_SELECTION_DOMAIN: Bytes :=
    [101, 116, 101, 114, 110, 105, 120, 58, 98, 117, 99, 107, 101, 116, 45, 115, 101, 108, 101, 99,
     116, 105, 111, 110, 58, 118, 49]
  const TICKET_SELECTION_DOMAIN: Bytes :=
    [101, 116, 101, 114, 110, 105, 120, 58, 116, 105, 99, 107, 101, 116, 45, 115, 101, 108, 101, 99,
     116, 105, 111, 110, 58, 118, 49]

  const BLOCK_HASH_LOOKBACK_SLOTS: nat := 32

  /** The part of a ticket that selection looks at. */
  datatype Ticket = Ticket(id: u64, owner: string, bucket: byte)

  /** The slot whose block hash seeds a given slot: 32 slots back, but never before slot zero. */
  function HistoricalBlockSlot(slot: u64): u64 {
    if slot < BLOCK_HASH_LOOKBACK_SLOTS then 0 else slot - BLOCK_HASH_LOOKBACK_SLOTS
  }

  function SlotRandomness(historicalBlockHash: Hash, slot: u64): Hash {
    Keccak(LEADER_SELECTION_DOMAIN + historicalBlockHash + ToBe(8, slot))
  }

  // ----- unbiased sampling -----

  /** The raw 64-bit value drawn at one retry. */
  function RawDraw(seed: Hash, retry: u64): u64 {
    FromBe64(Keccak(BUCKET_SELECTION_DOMAIN + seed + ToBe(8, retry))[..8])
  }

  /** `upper_bound.wrapping_neg() % upper_bound`. */
  function Threshold(upperBound: u64): u64
    requires upperBound > 0
  {
    (U64_LIMIT - upperBound) % U64_LIMIT % upperBound
  }

  predicate Accepted(seed: Hash, upperBound: u64, retry: u64)
    requires upperBound > 0
  {
    RawDraw(seed, retry) >= Threshold(upperBound)
  }

  ghost predicate FirstAccepted(seed: Hash, upperBound: u64, retry: u64)
    requires upperBound > 0
  {
    Accepted(seed, upperBound, retry) && forall j: u64 :: j < retry ==> !Accepted(seed, upperBound, j)
  }

  /** The first accepted draw at or after `retry`, reduced below the bound. */
  function FirstDraw(seed: Hash, upperBound: u64, retry: u64): Option<u64>
    requires upperBound > 0
    decreases U64_LIMIT - retry
  {
    if Accepted(seed, upperBound, retry) then Some(RawDraw(seed, retry) % upperBound)
    else if retry + 1 == U64_LIMIT then None
    else FirstDraw(seed, upperBound, retry + 1)
  }

  function UniformBelow(seed: Hash, upperBound: u64): Option<u64> {
    if upperBound == 0 then None else FirstDraw(seed, upperBound, 0)
  }

  lemma {:induction false} FirstDrawIsFirstAccepted(seed: Hash, n: u64, retry: u64, k: u64)
    requires n > 0 && retry <= k
    requires forall j: u64 :: retry <= j < k ==> !Accepted(seed, n, j)
    ensures Accepted(seed, n, k) ==> FirstDraw(seed, n, retry) == Some(RawDraw(seed, k) % n)
    ensures !Accepted(seed, n, k) && k + 1 == U64_LIMIT ==> FirstDraw(seed, n, retry) == None
    decreases k - retry
  {
    if retry < k {
      FirstDrawIsFirstAccepted(seed, n, retry + 1, k);
    }
  }

  /** The retry loop: it ends after at most 2^64 draws, and it gives up only after all of them. */
  method SampleUniformBelow(seed: Hash, upperBound: u64) returns (r: Option<u64>)
    ensures r == UniformBelow(seed, upperBound)
    ensures r.None? <==> upperBound == 0 || forall k: u64 :: !Accepted(seed, upperBound, k)
    ensures r.Some? ==> exists k: u64 :: FirstAccepted(seed, upperBound, k) && r == Some(RawDraw(seed, k) % upperBound)
  {
    if upperBound == 0 {
      return None;
    }
    var threshold := Threshold(upperBound);
    var retry: u64 := 0;
    while RawDraw(seed, retry) < threshold
      invariant forall j: u64 :: j < retry ==> !Accepted(seed, upperBound, j)
      decreases U64_LIMIT - retry
    {
      assert !Accepted(seed, upperBound, retry);
      if retry + 1 == U64_LIMIT {
        FirstDrawIsFirstAccepted(seed, upperBound, 0, retry);
        return None;
      }
      retry := retry + 1;
    }
    assert FirstAccepted(seed, upperBound, retry);
    FirstDrawIsFirstAccepted(seed, upperBound, 0, retry);
    return Some(RawDraw(seed, retry) % upperBound);
  }

  /** Rejecting below the threshold leaves a range whose length is a multiple of the bound. */
  lemma ThresholdIsRemainder(n: u64)
    requires n > 0
    ensures Threshold(n) == U64_LIMIT % n
    ensures U64_LIMIT == Threshold(n) + (U64_LIMIT / n) * n
  {
    var q := U64_LIMIT / n;
    assert q >= 1;
    assert U64_LIMIT - n == (q - 1) * n + U64_LIMIT % n;
    ModuloUnique(U64_LIMIT - n, n, q - 1, U64_LIMIT % n);
  }

  lemma ModuloUnique(x: int, n: int, q: int, r: int)
    requires n > 0 && 0 <= r < n && x == q * n + r
    ensures x % n == r
  {
    var k := x / n - q;
    assert k * n == r - x % n;
    assert -n < k * n < n;
    MultipleInside(k, n);
  }

  lemma MultipleInside(k: int, n: int)
    requires -n < k * n < n
    ensures k == 0
  {}

  /** Whether a raw value reduces to a wanted residue. */
  ghost function Reduces(n: int, wanted: int -> bool): int -> bool
    requires n > 0
  {
    (raw: int) => wanted(raw % n)
  }

  /** The raw 64-bit values that are accepted for the bound `n` and reduce to a wanted residue. */
  ghost function AcceptedRaws(n: u64, wanted: int -> bool): set<int>
    requires n > 0
  {
    set raw | Threshold(n) <= raw < U64_LIMIT && Reduces(n, wanted)(raw)
  }

  lemma ResiduesRepeat(n: int, wanted: int -> bool)
    requires n > 0
    ensures Periodic(Reduces(n, wanted), n)
    ensures Count(Reduces(n, wanted), 0, n) == Count(wanted, 0, n)
  {
    forall x | x >= 0
      ensures Repeats(Reduces(n, wanted), n, x)
    {
      ModuloUnique(x + n, n, x / n + 1, x % n);
    }
    forall x | 0 <= x < n
      ensures Reduces(n, wanted)(x) == wanted(x)
    {
      ModuloUnique(x, n, 0, x);
    }
    CountAgree(Reduces(n, wanted), wanted, 0, n);
  }

  /** Unbiasedness in general form: whatever set of residues is wanted, the number of accepted raw
      values whose residue is wanted is exactly floor(2^64 / n) per wanted residue. */
  lemma AcceptedDrawsAreUniform(n: u64, wanted: int -> bool)
    requires n > 0
    ensures |AcceptedRaws(n, wanted)| == (U64_LIMIT / n) * Count(wanted, 0, n)
  {
    ThresholdIsRemainder(n);
    ResiduesRepeat(n, wanted);
    CountPeriods(Reduces(n, wanted), n, Threshold(n), U64_LIMIT / n, U64_LIMIT);
    CountIsCardinality(Reduces(n, wanted), Threshold(n), U64_LIMIT);
  }

  /** Each single residue has exactly floor(2^64 / n) accepted raw values. */
  lemma EachResidueEquallyLikely(n: u64, r: nat)
    requires r < n
    ensures |AcceptedRaws(n, x => x == r)| == U64_LIMIT / n
  {
    var wanted := (x: int) => x == r;
    AcceptedDrawsAreUniform(n, wanted);
    CountInterval(wanted, 0, n, r, r + 1);
  }

  // ----- weighted buckets -----

  type BucketCounts = c: seq<nat> | |c| == 256 witness seq(256, _ => 0)

  /** Tickets in the active buckets from 2 up to, not including, `bucket`. */
  function Below(counts: BucketCounts, bucket: nat): (n: nat)
    requires 2 <= bucket <= 256
  {
    if bucket == 2 then 0 else Below(counts, bucket - 1) + counts[bucket - 1]
  }

  function Total(counts: BucketCounts): nat {
    Below(counts, 256)
  }

  lemma {:induction false} BelowMonotone(counts: BucketCounts, a: nat, b: nat)
    requires 2 <= a <= b <= 256
    ensures Below(counts, a) <= Below(counts, b)
    decreases b
  {
    if a < b {
      BelowMonotone(counts, a, b - 1);
    }
  }

  function BucketFrom(counts: BucketCounts, bucket: nat, offset: nat): Option<byte>
    requires 2 <= bucket <= 256
    decreases 256 - bucket
  {
    if bucket == 256 then None
    else if offset < counts[bucket] then Some(bucket)
    else BucketFrom(counts, bucket + 1, offset - counts[bucket])
  }

  function BucketForOffset(counts: BucketCounts, offset: nat): Option<byte> {
    BucketFrom(counts, 2, offset)
  }

  /** The loop over buckets that consumes the offset. */
  method FindBucketForOffset(counts: BucketCounts, offset: nat) returns (r: Option<byte>)
    ensures r == BucketForOffset(counts, offset)
    ensures r.None? <==> offset >= Total(counts)
    ensures r.Some? ==>
      && r.value >= 2
      && Below(counts, r.value) <= offset < Below(counts, r.value) + counts[r.value]
  {
    var rest := offset;
    for bucket := 2 to 256
      invariant rest == offset - Below(counts, bucket)
      invariant rest >= 0
      invariant BucketForOffset(counts, offset) == BucketFrom(counts, bucket, rest)
    {
      if rest < counts[bucket] {
        BelowMonotone(counts, bucket + 1, 256);
        return Some(bucket);
      }
      rest := rest - counts[bucket];
    }
    return None;
  }

  lemma {:induction false} BucketRange(counts: BucketCounts, bucket: nat, offset: nat, b: byte)
    requires 2 <= bucket <= 256
    ensures BucketFrom(counts, bucket, offset) == Some(b)
      <==> bucket <= b && Below(counts, b) - Below(counts, bucket) <= offset
           < Below(counts, b) + counts[b] - Below(counts, bucket)
    decreases 256 - bucket
  {
    if bucket < 256 {
      if offset >= counts[bucket] {
        BucketRange(counts, bucket + 1, offset - counts[bucket], b);
      } else if bucket < b {
        BelowMonotone(counts, bucket + 1, b);
      }
    }
  }

  /** A bucket is hit by exactly `count * floor(2^64 / total)` accepted raw values. */
  lemma BucketsAreWeighted(counts: BucketCounts, b: byte)
    requires 0 < Total(counts) < U64_LIMIT
    requires b >= 2
    ensures |AcceptedRaws(Total(counts), x => x >= 0 && BucketForOffset(counts, x) == Some(b))|
         == (U64_LIMIT / Total(counts)) * counts[b]
  {
    var n := Total(counts);
    var wanted := (x: int) => x >= 0 && BucketForOffset(counts, x) == Some(b);
    AcceptedDrawsAreUniform(n, wanted);
    assert Count(wanted, 0, n) == counts[b] by {
      BelowMonotone(counts, b + 1, 256);
      forall x | 0 <= x < n
        ensures wanted(x) <==> Below(counts, b) <= x < Below(counts, b) + counts[b]
      {
        BucketRange(counts, 2, x, b);
      }
      CountInterval(wanted, 0, n, Below(counts, b), Below(counts, b) + counts[b]);
    }
  }

  function SelectBucket(seed: Hash, counts: BucketCounts): Option<byte> {
    if Total(counts) >= U64_LIMIT then None
    else match UniformBelow(seed, Total(counts))
      case None => None
      case Some(offset) => BucketForOffset(counts, offset)
  }

  // ----- least score -----

  function TicketScore(seed: Hash, id: u64): Hash {
    Keccak(TICKET_SELECTION_DOMAIN + seed + ToBe(8, id))
  }

  /** `(score, id) < (score, id)`. */
  predicate Beats(seed: Hash, a: u64, b: u64) {
    var sa, sb := TicketScore(seed, a), TicketScore(seed, b);
    LexLess(sa, sb) || (sa == sb && a < b)
  }

  lemma BeatsIsTotalOrder(seed: Hash, a: u64, b: u64, c: u64)
    ensures Beats(seed, a, b) || a == b || Beats(seed, b, a)
    ensures !(Beats(seed, a, b) && Beats(seed, b, a)) && !Beats(seed, a, a)
    ensures Beats(seed, a, b) && Beats(seed, b, c) ==> Beats(seed, a, c)
  {
    var sa, sb, sc := TicketScore(seed, a), TicketScore(seed, b), TicketScore(seed, c);
    LexTrichotomy(sa, sb);
    LexTrichotomy(sa, sa);
    LexTransitive(sa, sb, sc);
  }

  /** `w` is the least (score, id) among the tickets of one bucket. */
  ghost predicate IsWinner(seed: Hash, tickets: seq<Ticket>, bucket: byte, w: Ticket) {
    w in tickets && w.bucket == bucket
    && forall t :: t in tickets && t.bucket == bucket ==> t.id == w.id || Beats(seed, w.id, t.id)
  }

  function SelectTicket(seed: Hash, ids: seq<u64>): Option<u64> {
    if ids == [] then None
    else match SelectTicket(seed, ids[..|ids| - 1])
      case None => Some(ids[|ids| - 1])
      case Some(best) =>
        if Beats(seed, ids[|ids| - 1], best) then Some(ids[|ids| - 1]) else Some(best)
  }

  /** The single pass that keeps the best ticket and its score. */
  method ScanForLeastTicket(seed: Hash, ids: seq<u64>) returns (r: Option<u64>)
    ensures r == SelectTicket(seed, ids)
  {
    var bestTicket: Option<u64> := None;
    var bestScore: Option<Hash> := None;
    for i := 0 to |ids|
      invariant bestTicket == SelectTicket(seed, ids[..i])
      invariant bestTicket.None? <==> bestScore.None?
      invariant bestTicket.Some? ==> bestScore.value == TicketScore(seed, bestTicket.value)
    {
      var id := ids[i];
      assert ids[..i + 1][..i] == ids[..i];
      var score := TicketScore(seed, id);
      if bestScore.None? {
        bestTicket, bestScore := Some(id), Some(score);
      } else if LexLess(score, bestScore.value) || (score == bestScore.value && id < bestTicket.value) {
        bestTicket, bestScore := Some(id), Some(score);
      }
    }
    assert ids[..|ids|] == ids;
    return bestTicket;
  }

  lemma {:induction false} SelectTicketIsLeast(seed: Hash, ids: seq<u64>)
    ensures SelectTicket(seed, ids).None? <==> ids == []
    ensures SelectTicket(seed, ids).Some? ==>
      && SelectTicket(seed, ids).value in ids
      && forall id :: id in ids ==>
           id == SelectTicket(seed, ids).value || Beats(seed, SelectTicket(seed, ids).value, id)
  {
    if ids != [] {
      var n := |ids| - 1;
      SelectTicketIsLeast(seed, ids[..n]);
      assert ids == ids[..n] + [ids[n]];
      if n > 0 {
        var best := SelectTicket(seed, ids[..n]).value;
        forall id | id in ids
          ensures id == SelectTicket(seed, ids).value || Beats(seed, SelectTicket(seed, ids).value, id)
        {
          BeatsIsTotalOrder(seed, ids[n], best, id);
          BeatsIsTotalOrder(seed, best, ids[n], id);
        }
      }
    }
  }

  // ----- the leader -----

  function CountBucket(tickets: seq<Ticket>, bucket: nat): nat {
    if tickets == [] then 0
    else CountBucket(tickets[..|tickets| - 1], bucket)
         + (if tickets[|tickets| - 1].bucket == bucket then 1 else 0)
  }

  /** Dead and muted buckets 0 and 1 weigh nothing. */
  function CountsOf(tickets: seq<Ticket>): BucketCounts {
    seq(256, b requires 0 <= b < 256 => if b < 2 then 0 else CountBucket(tickets, b))
  }

  function IdsIn(tickets: seq<Ticket>, bucket: byte): seq<u64> {
    if tickets == [] then []
    else IdsIn(tickets[..|tickets| - 1], bucket)
         + (if tickets[|tickets| - 1].bucket == bucket then [tickets[|tickets| - 1].id] else [])
  }

  function FirstWithId(tickets: seq<Ticket>, id: u64): Option<Ticket> {
    if tickets == [] then None
    else if tickets[0].id == id then Some(tickets[0])
    else FirstWithId(tickets[1..], id)
  }

  function SelectLeader(historicalBlockHash: Hash, slot: u64, eligible: seq<Ticket>): Option<(string, u64)> {
    var seed := SlotRandomness(historicalBlockHash, slot);
    match SelectBucket(seed, CountsOf(eligible))
    case None => None
    case Some(bucket) =>
      match SelectTicket(seed, IdsIn(eligible, bucket))
      case None => None
      case Some(id) =>
        match FirstWithId(eligible, id)
        case None => None
        case Some(t) => Some((t.owner, t.id))
  }

  /** Tallies the active buckets; `None` stands for a bucket counter that overflows. */
  method TallyBuckets(eligible: seq<Ticket>) returns (r: Option<BucketCounts>)
    ensures r.Some? ==> r.value == CountsOf(eligible)
    ensures r.None? ==> Total(CountsOf(eligible)) >= U64_LIMIT
  {
    var bucketCounts := new nat[256](_ => 0);
    for i := 0 to |eligible|
      invariant forall b :: 0 <= b < 256 ==> bucketCounts[b] == CountsOf(eligible[..i])[b]
    {
      var t := eligible[i];
      assert eligible[..i + 1][..i] == eligible[..i];
      if t.bucket >= 2 {
        if bucketCounts[t.bucket] + 1 == U64_LIMIT {
          OverfullBucket(eligible, i + 1, t.bucket);
          return None;
        }
        bucketCounts[t.bucket] := bucketCounts[t.bucket] + 1;
      }
    }
    assert eligible[..|eligible|] == eligible;
    assert bucketCounts[..] == CountsOf(eligible);
    return Some(bucketCounts[..]);
  }

  /** The checked fold over active buckets, then the draw. */
  method DrawBucket(seed: Hash, counts: BucketCounts) returns (r: Option<byte>)
    ensures r == SelectBucket(seed, counts)
  {
    var total: nat := 0;
    for b := 2 to 256
      invariant total == Below(counts, b) && total < U64_LIMIT
    {
      if total + counts[b] >= U64_LIMIT {
        BelowMonotone(counts, b + 1, 256);
        return None;
      }
      total := total + counts[b];
    }
    var offset := SampleUniformBelow(seed, total);
    if offset.None? {
      return None;
    }
    r := FindBucketForOffset(counts, offset.value);
  }

  method FilterBucket(eligible: seq<Ticket>, bucket: byte) returns (ids: seq<u64>)
    ensures ids == IdsIn(eligible, bucket)
  {
    ids := [];
    for i := 0 to |eligible|
      invariant ids == IdsIn(eligible[..i], bucket)
    {
      assert eligible[..i + 1][..i] == eligible[..i];
      if eligible[i].bucket == bucket {
        ids := ids + [eligible[i].id];
      }
    }
    assert eligible[..|eligible|] == eligible;
  }

  /** `select_leader_ticket`: tally, draw a bucket, filter it, scan for the least score, look it up. */
  method SelectLeaderTicket(historicalBlockHash: Hash, slot: u64, eligible: seq<Ticket>)
    returns (r: Option<(string, u64)>)
    ensures r == SelectLeader(historicalBlockHash, slot, eligible)
  {
    if eligible == [] {
      BelowOfEmpty(256);
      return None;
    }
    var seed := SlotRandomness(historicalBlockHash, slot);
    var counts := TallyBuckets(eligible);
    if counts.None? {
      return None;
    }
    var chosen := DrawBucket(seed, counts.value);
    if chosen.None? {
      return None;
    }
    var ids := FilterBucket(eligible, chosen.value);
    var winner := ScanForLeastTicket(seed, ids);
    if winner.None? {
      return None;
    }
    for i := 0 to |eligible|
      invariant FirstWithId(eligible, winner.value) == FirstWithId(eligible[i..], winner.value)
    {
      if eligible[i].id == winner.value {
        return Some((eligible[i].owner, eligible[i].id));
      }
      assert eligible[i..][1..] == eligible[i + 1..];
    }
    return None;
  }

  lemma {:induction false} BelowOfEmpty(b: nat)
    requires 2 <= b <= 256
    ensures Below(CountsOf([]), b) == 0
  {
    if b > 2 {
      BelowOfEmpty(b - 1);
    }
  }

  lemma {:induction false} CountBucketGrows(tickets: seq<Ticket>, i: nat, bucket: nat)
    requires i <= |tickets|
    ensures CountBucket(tickets[..i], bucket) <= CountBucket(tickets, bucket)
  {
    if i < |tickets| {
      CountBucketGrows(tickets[..|tickets| - 1], i, bucket);
      assert tickets[..|tickets| - 1][..i] == tickets[..i];
    } else {
      assert tickets[..i] == tickets;
    }
  }

  lemma OverfullBucket(tickets: seq<Ticket>, i: nat, bucket: byte)
    requires i <= |tickets| && bucket >= 2
    requires CountBucket(tickets[..i], bucket) >= U64_LIMIT
    ensures Total(CountsOf(tickets)) >= U64_LIMIT
  {
    CountBucketGrows(tickets, i, bucket);
    BelowMonotone(CountsOf(tickets), bucket + 1, 256);
  }

  // ----- what selection guarantees -----

  ghost predicate DistinctIds(tickets: seq<Ticket>) {
    forall i, j :: 0 <= i < j < |tickets| ==> tickets[i].id != tickets[j].id
  }

  lemma {:induction false} IdsInMembers(tickets: seq<Ticket>, bucket: byte, id: u64)
    ensures id in IdsIn(tickets, bucket) <==> exists t :: t in tickets && t.bucket == bucket && t.id == id
    ensures (IdsIn(tickets, bucket) == []) == (CountBucket(tickets, bucket) == 0)
  {
    if tickets != [] {
      var n := |tickets| - 1;
      IdsInMembers(tickets[..n], bucket, id);
      assert tickets == tickets[..n] + [tickets[n]];
    }
  }

  lemma {:induction false} FirstWithIdFinds(tickets: seq<Ticket>, t: Ticket)
    requires DistinctIds(tickets) && t in tickets
    ensures FirstWithId(tickets, t.id) == Some(t)
  {
    if tickets[0] != t {
      FirstWithIdFinds(tickets[1..], t);
    }
  }

  lemma BucketOfOffset(counts: BucketCounts, offset: nat) returns (b: byte)
    requires offset < Total(counts)
    ensures b >= 2 && BucketForOffset(counts, offset) == Some(b)
    ensures counts[b] > 0
  {
    var k := 2;
    while Below(counts, k + 1) <= offset
      invariant 2 <= k < 256 && Below(counts, k) <= offset
      decreases 256 - k
    {
      k := k + 1;
    }
    b := k;
    BucketRange(counts, 2, offset, b);
  }

  lemma {:induction false} FirstDrawInRange(seed: Hash, n: u64, retry: u64)
    requires n > 0
    ensures FirstDraw(seed, n, retry).Some? ==> FirstDraw(seed, n, retry).value < n
    decreases U64_LIMIT - retry
  {
    if !Accepted(seed, n, retry) && retry + 1 < U64_LIMIT {
      FirstDrawInRange(seed, n, retry + 1);
    }
  }

  /** Exactly when a leader exists, and which ticket it is: with distinct identities, a leader is chosen
      if and only if some ticket is in an active bucket, the ticket count fits 64 bits and sampling
      accepts a draw; and the leader is then the least (score, id) ticket of the drawn bucket. */
  lemma LeaderIsLeastOfDrawnBucket(h: Hash, slot: u64, eligible: seq<Ticket>)
    requires DistinctIds(eligible)
    ensures SelectLeader(h, slot, eligible).Some?
      <==> 0 < Total(CountsOf(eligible)) < U64_LIMIT
           && UniformBelow(SlotRandomness(h, slot), Total(CountsOf(eligible))).Some?
    ensures SelectLeader(h, slot, eligible).Some? ==>
      exists w: Ticket, b: byte ::
        && SelectBucket(SlotRandomness(h, slot), CountsOf(eligible)) == Some(b) && b >= 2
        && IsWinner(SlotRandomness(h, slot), eligible, b, w)
        && SelectLeader(h, slot, eligible) == Some((w.owner, w.id))
  {
    var seed := SlotRandomness(h, slot);
    var counts := CountsOf(eligible);
    if 0 < Total(counts) < U64_LIMIT && UniformBelow(seed, Total(counts)).Some? {
      FirstDrawInRange(seed, Total(counts), 0);
      var b := BucketOfOffset(counts, UniformBelow(seed, Total(counts)).value);
      var ids := IdsIn(eligible, b);
      SelectTicketIsLeast(seed, ids);
      IdsInMembers(eligible, b, 0);
      var id := SelectTicket(seed, ids).value;
      IdsInMembers(eligible, b, id);
      var w :| w in eligible && w.bucket == b && w.id == id;
      FirstWithIdFinds(eligible, w);
      forall t | t in eligible && t.bucket == b
        ensures t.id == w.id || Beats(seed, w.id, t.id)
      {
        IdsInMembers(eligible, b, t.id);
      }
      assert IsWinner(seed, eligible, b, w);
    }
  }

  /** The sum is positive exactly when some eligible ticket sits in an active bucket. */
  lemma {:induction false} ActiveTicketCounts(tickets: seq<Ticket>, bucket: nat)
    requires 2 <= bucket <= 256
    ensures Below(CountsOf(tickets), bucket) > 0 <==> exists t :: t in tickets && 2 <= t.bucket < bucket
  {
    if bucket > 2 {
      ActiveTicketCounts(tickets, bucket - 1);
      CountPositive(tickets, bucket - 1);
    }
  }

  lemma {:induction false} CountPositive(tickets: seq<Ticket>, bucket: nat)
    ensures CountBucket(tickets, bucket) > 0 <==> exists t :: t in tickets && t.bucket == bucket
  {
    if tickets != [] {
      var n := |tickets| - 1;
      CountPositive(tickets[..n], bucket);
      assert tickets == tickets[..n] + [tickets[n]];
    }
  }

  /** Liveness: some active ticket, a count that fits and one accepted draw are enough for a leader. */
  lemma ActiveTicketGivesLeader(h: Hash, slot: u64, eligible: seq<Ticket>, t: Ticket, retry: u64)
    requires DistinctIds(eligible)
    requires t in eligible && t.bucket >= 2
    requires Total(CountsOf(eligible)) < U64_LIMIT
    requires Total(CountsOf(eligible)) > 0 ==> Accepted(SlotRandomness(h, slot), Total(CountsOf(eligible)), retry)
    ensures SelectLeader(h, slot, eligible).Some?
  {
    ActiveTicketCounts(eligible, 256);
    FirstDrawAccepts(SlotRandomness(h, slot), Total(CountsOf(eligible)), 0, retry);
    LeaderIsLeastOfDrawnBucket(h, slot, eligible);
  }

  lemma {:induction false} FirstDrawAccepts(seed: Hash, n: u64, from: u64, retry: u64)
    requires n > 0 && from <= retry && Accepted(seed, n, retry)
    ensures FirstDraw(seed, n, from).Some?
    decreases retry - from
  {
    if !Accepted(seed, n, from) {
      FirstDrawAccepts(seed, n, from + 1, retry);
    }
  }

  /** Dropping one occurrence of the last element from a permutation leaves a permutation. */
  lemma DropLast(s: seq<Ticket>, t: seq<Ticket>) returns (j: nat)
    requires s != [] && multiset(s) == multiset(t)
    ensures j < |t| && t[j] == s[|s| - 1]
    ensures multiset(t[..j] + t[j + 1..]) == multiset(s[..|s| - 1])
  {
    var n := |s| - 1;
    assert s == s[..n] + [s[n]];
    assert s[n] in multiset(t);
    j :| 0 <= j < |t| && t[j] == s[n];
    assert t == t[..j] + [t[j]] + t[j + 1..];
    assert multiset(t[..j] + t[j + 1..]) == multiset(t) - multiset{s[n]};
  }

  lemma {:induction false} CountBucketPermutes(s: seq<Ticket>, t: seq<Ticket>, bucket: nat)
    requires multiset(s) == multiset(t)
    ensures CountBucket(s, bucket) == CountBucket(t, bucket)
    decreases |s|
  {
    if s == [] {
      assert multiset(s) == multiset{};
      assert t == [];
    } else {
      var j := DropLast(s, t);
      CountBucketPermutes(s[..|s| - 1], t[..j] + t[j + 1..], bucket);
      CountBucketRemove(t, j, bucket);
    }
  }

  lemma {:induction false} CountBucketRemove(t: seq<Ticket>, j: nat, bucket: nat)
    requires j < |t|
    ensures CountBucket(t, bucket)
         == CountBucket(t[..j] + t[j + 1..], bucket) + (if t[j].bucket == bucket then 1 else 0)
  {
    var n := |t| - 1;
    var rest := t[..j] + t[j + 1..];
    if j == n {
      assert rest == t[..n];
    } else {
      CountBucketRemove(t[..n], j, bucket);
      assert rest == (t[..n][..j] + t[..n][j + 1..]) + [t[n]];
      assert rest[..n - 1] == t[..n][..j] + t[..n][j + 1..];
    }
  }

  /** The leader does not depend on the order in which eligible tickets are listed. */
  lemma LeaderIgnoresTicketOrder(h: Hash, slot: u64, s: seq<Ticket>, t: seq<Ticket>)
    requires multiset(s) == multiset(t)
    requires DistinctIds(s) && DistinctIds(t)
    ensures SelectLeader(h, slot, s) == SelectLeader(h, slot, t)
  {
    forall b: nat
      ensures CountBucket(s, b) == CountBucket(t, b)
    {
      CountBucketPermutes(s, t, b);
    }
    assert CountsOf(s) == CountsOf(t);
    LeaderIsLeastOfDrawnBucket(h, slot, s);
    LeaderIsLeastOfDrawnBucket(h, slot, t);
    if SelectLeader(h, slot, s).Some? {
      var seed := SlotRandomness(h, slot);
      var ws: Ticket, bs: byte :| SelectBucket(seed, CountsOf(s)) == Some(bs) && bs >= 2
        && IsWinner(seed, s, bs, ws) && SelectLeader(h, slot, s) == Some((ws.owner, ws.id));
      var wt: Ticket, bt: byte :| SelectBucket(seed, CountsOf(t)) == Some(bt) && bt >= 2
        && IsWinner(seed, t, bt, wt) && SelectLeader(h, slot, t) == Some((wt.owner, wt.id));
      assert ws in multiset(s) && wt in multiset(t);
      assert ws in t && wt in s;
      BeatsIsTotalOrder(seed, ws.id, wt.id, ws.id);
      FirstWithIdFinds(s, ws);
      FirstWithIdFinds(s, wt);
    }
  }
}
