/** The slot engine: local block production, the linear chain, epoch boundaries and staged installation
    (src/app/consensus.rs, src/app/core.rs). */
module SlotEngine {
  import opened Base
  import opened Crypto
  import opened Sums
  import opened SlotEconomy
  import opened SlotTransactions
  import ByteOrder
  import LeaderSelection

  const SUB_EPOCH_SLOTS: nat := 1200
  const EPOCH_SLOTS: nat := 1200 * 24
  const EPOCHS_PER_YEAR: nat := 365
  const SLOTS_PER_YEAR: nat := 10_512_000
  const OFFSET_PERMILLE: nat := 500
  const PBM_VALID_AFTER: nat := 20
  const PBM_PENDING_LIMIT: nat := 3

  // ----- filling a block from the mempool -----

  /** Work on one block: the economy so far, the rest of the pool, gas and fees used, the transactions
      included, and how much of the fees was paid in other tokens. */
  datatype Work = Work(econ: Econ, pool: seq<Tx>, gas: nat, fees: nat, included: seq<Tx>, foreign: nat)

  /** The next transaction does not fit the block, or must wait; filling stops in front of it. */
  predicate Blocks(w: Work, slot: nat)
    requires w.pool != []
  {
    var tx := w.pool[0];
    || |w.included| >= MAX_BLOCK_TRANSACTIONS
    || (tx.chainId == CHAIN_ID
        && (tx.validAfter > slot || w.gas + tx.gas > MAX_BLOCK_GAS || w.fees + tx.fee >= U64_LIMIT))
  }

  /** The result of taking one transaction off the pool, and whether it was included. */
  function TakeOne(w: Work): (Work, bool)
    requires w.pool != []
  {
    var tx := w.pool[0];
    if tx.chainId != CHAIN_ID then (w.(pool := w.pool[1..]), false)
    else match Exec(w.econ, tx)
      case Skipped => (w.(pool := w.pool[1..]), false)
      case GivenUp(e) => (w.(econ := e, pool := w.pool[1..]), false)
      case Executed(e) =>
        (Work(e, w.pool[1..], w.gas + tx.gas, w.fees + tx.fee, w.included + [tx],
              w.foreign + (if FeeToken(tx) == ETX then 0 else tx.fee)), true)
  }

  /** Fills a block; after each included transaction the producer may stop at random. */
  function Fill(w: Work, slot: nat, halt: nat -> bool): Work
    decreases |w.pool|
  {
    if w.pool == [] || Blocks(w, slot) then w
    else
      var (w', taken) := TakeOne(w);
      if taken && halt(|w'.included|) then w' else Fill(w', slot, halt)
  }

  /** The loop over the mempool. */
  method FillBlock(start: Work, slot: nat, halt: nat -> bool) returns (w: Work)
    ensures w == Fill(start, slot, halt)
  {
    w := start;
    while w.pool != [] && !Blocks(w, slot)
      invariant Fill(w, slot, halt) == Fill(start, slot, halt)
      decreases |w.pool|
    {
      var (w', taken) := TakeOne(w);
      w := w';
      if taken && halt(|w.included|) {
        return;
      }
    }
  }

  /** What filling keeps between two points of the work. */
  ghost predicate Filled(w: Work, w': Work) {
    && w.fees <= w'.fees && w.foreign <= w'.foreign && w'.foreign - w.foreign <= w'.fees - w.fees
    && Supply(w'.econ) + w'.econ.ticketBurned + (w'.fees - w'.foreign)
      == Supply(w.econ) + w.econ.ticketBurned + (w.fees - w.foreign)
    && (forall t: u64 :: t != ETX ==> Held(w'.econ.bank, t) <= Held(w.econ.bank, t))
    && w.econ.tickets <= w'.econ.tickets
  }

  lemma FilledTransitive(a: Work, b: Work, c: Work)
    requires Filled(a, b) && Filled(b, c)
    ensures Filled(a, c)
  {}

  lemma FilledFits(w: Work, w': Work)
    requires Filled(w, w') && Fits(w.econ)
    ensures Fits(w'.econ)
  {
    forall t: u64
      ensures Held(w'.econ.bank, t) < U128_LIMIT - 1
    {
      assert Held(w.econ.bank, t) < U128_LIMIT - 1;
    }
  }

  lemma TakeOneTickets(w: Work)
    requires w.pool != []
    ensures Minted(w.econ.tickets, TakeOne(w).0.econ.tickets) && w.econ.tickets <= TakeOne(w).0.econ.tickets
  {
    ExecTickets(w.econ, w.pool[0]);
  }

  /** Filling adds tickets only by minting. */
  lemma {:induction false} FillTickets(w: Work, slot: nat, halt: nat -> bool)
    ensures Minted(w.econ.tickets, Fill(w, slot, halt).econ.tickets)
    decreases |w.pool|
  {
    if w.pool != [] && !Blocks(w, slot) {
      var (w', taken) := TakeOne(w);
      TakeOneTickets(w);
      FillTickets(w', slot, halt);
      MintedTransitive(w.econ.tickets, w'.econ.tickets, Fill(w', slot, halt).econ.tickets);
    }
  }

  lemma TakeOneKeeps(w: Work, u: Unlocks)
    requires w.pool != [] && EconOk(w.econ, u) && Fits(w.econ)
    requires IdsLast(w.econ.tickets, |TakeOne(w).0.econ.tickets|)
    ensures Filled(w, TakeOne(w).0) && EconOk(TakeOne(w).0.econ, u)
  {
    var tx := w.pool[0];
    if tx.chainId == CHAIN_ID {
      ExecKeeps(w.econ, tx, u);
      ExecTickets(w.econ, tx);
    }
  }

  /** Filling a block from any state with room, while identifiers last: the books stay exact and every
      invariant is kept. */
  lemma {:induction false} FillKeeps(w: Work, slot: nat, halt: nat -> bool, u: Unlocks)
    requires EconOk(w.econ, u) && Fits(w.econ) && IdsLast(w.econ.tickets, |Fill(w, slot, halt).econ.tickets|)
    ensures Filled(w, Fill(w, slot, halt)) && EconOk(Fill(w, slot, halt).econ, u) && Fits(Fill(w, slot, halt).econ)
    decreases |w.pool|
  {
    if w.pool != [] && !Blocks(w, slot) {
      var (w', taken) := TakeOne(w);
      TakeOneTickets(w);
      FillTickets(w', slot, halt);
      IdsLastSplit(w.econ.tickets, w'.econ.tickets, |Fill(w, slot, halt).econ.tickets|);
      TakeOneKeeps(w, u);
      FilledFits(w, w');
      if !(taken && halt(|w'.included|)) {
        FillKeeps(w', slot, halt, u);
        FilledTransitive(w, w', Fill(w', slot, halt));
      }
    }
  }

  // ----- blocks and state -----

  datatype SlotKind = ValidatorMade | Missed | NoTickets

  datatype SlotBlock = SlotBlock(
    slot: nat, kind: SlotKind, parent: Hash, proposer: Option<string>, ticket: u64, transactions: seq<Tx>,
    gas: nat, fees: nat, missed: Option<string>)

  /** The block hash. */
  const HashOf: SlotBlock -> Hash

  /** The candidate survives the round trip through the wire codec with all its commitments. */
  const Encodable: SlotBlock -> bool

  /** The transaction hash, if the transaction can be encoded. */
  const TxHash: Tx -> Option<Hash>

  /** Running totals; the last counts fees that were burned in other tokens, which the source does not track. */
  datatype Totals = Totals(feesBurned: nat, burnThisSubEpoch: nat, baseIssued: nat, burnOffset: nat, foreignFees: nat)

  datatype State = State(
    slot: nat,
    econ: Econ,
    unlocks: Unlocks,
    mempool: seq<Tx>,
    pbmPool: seq<Tx>,
    totals: Totals,
    epoch: nat,
    inflationPpb: nat,
    baseReward: nat,
    proposers: seq<Option<string>>,
    retire: map<nat, seq<u64>>,
    blocks: map<nat, SlotBlock>,
    index: map<Hash, nat>,
    leader: string,
    ticket: u64,
    result: Option<SlotBlock>,
    local: Option<string>)

  predicate IsActive(vs: seq<Validator>, id: string) {
    exists i :: 0 <= i < |vs| && vs[i].id == id && vs[i].state == Active
  }

  /** The tickets that may be drawn. */
  predicate Drawable(e: Econ, t: StakeTicket) {
    !t.dead && !t.muted && IsActive(e.validators, t.owner)
  }

  function Eligible(e: Econ, n: nat): seq<StakeTicket>
    requires n <= |e.tickets|
  {
    if n == 0 then [] else Eligible(e, n - 1) + (if Drawable(e, e.tickets[n - 1]) then [e.tickets[n - 1]] else [])
  }

  function EligibleTickets(e: Econ): seq<StakeTicket> {
    Eligible(e, |e.tickets|)
  }

  // ----- producing a block -----

  function ParentOf(s: State): Option<Hash> {
    if s.slot == 0 then Some(ZERO_HASH)
    else if s.slot - 1 in s.blocks then Some(HashOf(s.blocks[s.slot - 1]))
    else None
  }

  /** Fees are burned: they count in the total and feed the next burn offset. */
  function BurnFees(t: Totals, fees: nat, foreign: nat): Totals {
    t.(feesBurned := Saturate(t.feesBurned + fees), burnThisSubEpoch := Saturate(t.burnThisSubEpoch + fees),
       foreignFees := t.foreignFees + foreign)
  }

  function ForgiveMiss(vs: seq<Validator>, id: string): seq<Validator> {
    match Find(vs, id)
    case None => vs
    case Some(i) => vs[i := vs[i].(misses := if vs[i].misses > 0 then vs[i].misses - 1 else 0)]
  }

  /** The base reward is minted into the leader's vault, locked. */
  function RewardLeader(s: State): State {
    var vs := ForgiveMiss(s.econ.validators, s.leader);
    if Find(vs, s.leader).None? then s.(econ := s.econ.(validators := vs))
    else
      var (vs', u) := LockReward(vs, s.unlocks, s.epoch, s.leader, s.baseReward);
      s.(econ := s.econ.(validators := vs'), unlocks := u,
         totals := s.totals.(baseIssued := Saturate(s.totals.baseIssued + s.baseReward)))
  }

  /** `validator_block`. */
  function ProduceBlock(s: State, parent: Hash, halt: nat -> bool): (State, SlotBlock) {
    var w := Fill(Work(s.econ, s.mempool, 0, 0, [], 0), s.slot, halt);
    var filled := s.(econ := w.econ, mempool := w.pool, totals := BurnFees(s.totals, w.fees, w.foreign));
    (RewardLeader(filled),
     SlotBlock(s.slot, ValidatorMade, parent, Some(s.leader), s.ticket, w.included, w.gas, w.fees, None))
  }

  predicate PbmAllowed(kind: TxKind) {
    kind == RegisterValidator || kind == WalletToVault || kind == BuyTicket
  }

  predicate PbmReady(tx: Tx, slot: nat) {
    PbmAllowed(tx.kind) && tx.validAfter <= slot && TxHash(tx).Some?
  }

  predicate PbmBefore(a: Tx, b: Tx)
    requires TxHash(a).Some? && TxHash(b).Some?
  {
    a.validAfter < b.validAfter || (a.validAfter == b.validAfter && ByteOrder.LexLess(TxHash(a).value, TxHash(b).value))
  }

  /** The first ready transaction by maturity, then by hash. */
  function SelectPbm(pool: seq<Tx>, slot: nat, n: nat): (r: Option<nat>)
    requires n <= |pool|
    ensures r.Some? ==> r.value < n && PbmReady(pool[r.value], slot)
  {
    if n == 0 then None
    else
      var best := SelectPbm(pool, slot, n - 1);
      if !PbmReady(pool[n - 1], slot) then best
      else if best.None? || PbmBefore(pool[n - 1], pool[best.value]) then Some(n - 1)
      else best
  }

  /** Without eligible tickets one bootstrap transaction may execute. */
  function ExecutePbm(s: State): (State, seq<Tx>) {
    match SelectPbm(s.pbmPool, s.slot, |s.pbmPool|)
    case None => (s, [])
    case Some(i) =>
      SettlePbm(s.(pbmPool := s.pbmPool[..i] + s.pbmPool[i + 1..]), s.pbmPool[i], Exec(s.econ, s.pbmPool[i]))
  }

  function SettlePbm(s: State, tx: Tx, outcome: Outcome): (State, seq<Tx>) {
    match outcome
    case Skipped => (s, [])
    case GivenUp(e) => (s.(econ := e), [])
    case Executed(e) => (s.(econ := e, totals := BurnFees(s.totals, tx.fee, 0)), [tx])
  }

  function LeavePbm(s: State): State {
    if EligibleTickets(s.econ) == [] then s else s.(pbmPool := [], mempool := s.mempool + s.pbmPool)
  }

  function GasOf(txs: seq<Tx>): nat {
    if txs == [] then 0 else GasOf(txs[1..]) + txs[0].gas
  }

  function FeesOf(txs: seq<Tx>): nat {
    if txs == [] then 0 else FeesOf(txs[1..]) + txs[0].fee
  }

  /** The block of the active slot: bootstrap, own production, or a provisional miss without penalty. */
  function MakeBlock(s: State, parent: Hash, halt: nat -> bool): (State, SlotBlock) {
    if EligibleTickets(s.econ) == [] then
      var (s', txs) := ExecutePbm(s);
      (LeavePbm(s'), SlotBlock(s.slot, NoTickets, parent, None, 0, txs, GasOf(txs), FeesOf(txs), None))
    else if s.local == Some(s.leader) then ProduceBlock(s, parent, halt)
    else (s, SlotBlock(s.slot, Missed, parent, None, 0, [], 0, 0, Some(s.leader)))
  }

  /** `record_linear_tip`. */
  function Record(s: State, b: SlotBlock): State {
    s.(result := Some(b),
       proposers := s.proposers + [if b.kind == ValidatorMade then b.proposer else None],
       blocks := s.blocks[b.slot := b],
       index := s.index[HashOf(b) := b.slot])
  }

  // ----- boundaries -----

  function Produced(proposers: seq<Option<string>>): nat {
    if proposers == [] then 0
    else Produced(proposers[..|proposers| - 1]) + (if proposers[|proposers| - 1].Some? then 1 else 0)
  }

  /** One proposer's share of the burn offset; `burn_offset_total` is an unchecked addition. */
  function OffsetOne(s: State, who: Option<string>, share: nat): State {
    if who.None? || Find(s.econ.validators, who.value).None? then s
    else AfterShare(s, LockReward(s.econ.validators, s.unlocks, s.epoch, who.value, share), share)
  }

  function AfterShare(s: State, locked: (seq<Validator>, Unlocks), share: nat): State {
    s.(econ := s.econ.(validators := locked.0), unlocks := locked.1,
       totals := s.totals.(burnOffset := (s.totals.burnOffset + share) % U128_LIMIT))
  }

  function OffsetAll(s: State, who: seq<Option<string>>, share: nat): State {
    if who == [] then s else OffsetOne(OffsetAll(s, who[..|who| - 1], share), who[|who| - 1], share)
  }

  /** The loop over the proposers of a sub-epoch. */
  method ShareOffset(s: State, who: seq<Option<string>>, share: nat) returns (r: State)
    ensures r == OffsetAll(s, who, share)
  {
    r := s;
    for i := 0 to |who|
      invariant r == OffsetAll(s, who[..i], share)
    {
      assert who[..i + 1][..i] == who[..i];
      r := OffsetOne(r, who[i], share);
    }
    assert who[..|who|] == who;
  }

  function OffsetShare(s: State): nat {
    var produced := Produced(s.proposers);
    if produced == 0 then 0 else (OFFSET_PERMILLE * s.totals.burnThisSubEpoch) % U128_LIMIT / 1000 / produced
  }

  function CloseSubEpoch(s: State): State {
    var s' := if Produced(s.proposers) == 0 then s else OffsetAll(s, s.proposers, OffsetShare(s));
    s'.(totals := s'.totals.(burnThisSubEpoch := 0), proposers := [])
  }

  /** Marks the first ticket with an identifier as dead. */
  function KillTicket(ts: seq<StakeTicket>, id: u64): seq<StakeTicket> {
    match FindTicket(ts, id)
    case None => ts
    case Some(i) => ts[i := ts[i].(dead := true, muted := false, retiring := false, bucket := 0)]
  }

  function FindTicket(ts: seq<StakeTicket>, id: u64): (r: Option<nat>)
    ensures r.Some? ==> r.value < |ts| && ts[r.value].id == id
    ensures r.None? ==> forall i :: 0 <= i < |ts| ==> ts[i].id != id
  {
    if ts == [] then None
    else
      var earlier := FindTicket(ts[..|ts| - 1], id);
      if earlier.Some? then earlier else if ts[|ts| - 1].id == id then Some(|ts| - 1) else None
  }

  function KillAll(ts: seq<StakeTicket>, ids: seq<u64>): seq<StakeTicket> {
    if ids == [] then ts else KillTicket(KillAll(ts, ids[..|ids| - 1]), ids[|ids| - 1])
  }

  /** The owners of the tickets that die. The source sorts them and drops repeats before refreshing; a
      refresh touches only its own validator and repeating it changes nothing, so any order will do. */
  function OwnersOf(ts: seq<StakeTicket>, ids: seq<u64>): seq<string> {
    if ids == [] then []
    else
      var rest := OwnersOf(ts, ids[..|ids| - 1]);
      match FindTicket(ts, ids[|ids| - 1]) case None => rest case Some(i) => rest + [ts[i].owner]
  }

  function RefreshAll(vs: seq<Validator>, ts: seq<StakeTicket>, ids: seq<string>): seq<Validator> {
    if ids == [] then vs else Refresh(RefreshAll(vs, ts, ids[..|ids| - 1]), ts, ids[|ids| - 1])
  }

  function FinalizeRetire(e: Econ, ids: seq<u64>): Econ {
    var ts := KillAll(e.tickets, ids);
    e.(tickets := ts, validators := RefreshAll(e.validators, ts, OwnersOf(e.tickets, ids)))
  }

  /** A cooldown that is over ends in Inactive, or in PausedLowVault below the minimum. */
  function EndCooldown(v: Validator, ts: seq<StakeTicket>, epoch: nat): Validator {
    if v.state == PunishedCooldown && v.cooldownUntil.Some? && epoch >= v.cooldownUntil.value then
      v.(cooldownUntil := None, state := if v.vault >= VaultMinimum(ts, v.id) then Inactive else PausedLowVault)
    else v
  }

  function EndCooldowns(vs: seq<Validator>, ts: seq<StakeTicket>, epoch: nat): (seq<Validator>, seq<string>) {
    if vs == [] then ([], [])
    else
      var n := |vs| - 1;
      var (rest, ids) := EndCooldowns(vs[..n], ts, epoch);
      var v := EndCooldown(vs[n], ts, epoch);
      (rest + [v], if vs[n].state == PunishedCooldown && v.state == Inactive then ids + [v.id] else ids)
  }

  function EpochTransitions(e: Econ, epoch: nat): Econ {
    var (vs, ids) := EndCooldowns(e.validators, e.tickets, epoch);
    e.(validators := RefreshAll(vs, e.tickets, ids))
  }

  /** The decay floor is five million parts per billion. */
  function Decayed(ppb: nat): nat {
    if ppb * 9 / 10 < 5_000_000 then 5_000_000 else ppb * 9 / 10
  }

  /** The base reward for a period: the total supply times the rate, per slot. */
  ghost function BaseReward(e: Econ, ppb: nat): nat {
    Saturate(Saturate(Supply(e)) * ppb) / 1_000_000_000 / SLOTS_PER_YEAR
  }

  ghost function CloseEpoch(s: State): State {
    var next := s.epoch + 1;
    var annual := next % EPOCHS_PER_YEAR == 0;
    var ppb := if annual then Decayed(s.inflationPpb) else s.inflationPpb;
    var reward := if annual then BaseReward(s.econ, ppb) else s.baseReward;
    var unlocked := s.econ.(validators := UnlockAll(s.econ.validators, EntriesAt(s.unlocks, next)));
    var retired := if next in s.retire then FinalizeRetire(unlocked, s.retire[next]) else unlocked;
    s.(epoch := next, inflationPpb := ppb, baseReward := reward, unlocks := s.unlocks - {next},
       retire := s.retire - {next}, econ := EpochTransitions(retired, next))
  }

  /** `run_boundaries`. */
  ghost function RunBoundaries(s: State): State {
    var s' := if s.slot > 0 && s.slot % SUB_EPOCH_SLOTS == 0 then CloseSubEpoch(s) else s;
    if s.slot > 0 && s.slot % EPOCH_SLOTS == 0 then CloseEpoch(s') else s'
  }

  // ----- what the engine keeps -----

  /** The books: supply, ticket burns and fee burns balance the initial supply and all issuance, up to fees
      that were paid in other tokens. */
  ghost predicate Balanced(s: State, initial: nat) {
    && Supply(s.econ) + s.econ.ticketBurned + s.totals.feesBurned
       == initial + s.totals.baseIssued + s.totals.burnOffset + s.totals.foreignFees
    && s.totals.foreignFees <= s.totals.feesBurned
    && 2 * s.totals.burnOffset + s.totals.burnThisSubEpoch <= s.totals.feesBurned
    && forall t: u64 :: t != ETX ==> Held(s.econ.bank, t) < U128_LIMIT - 1
  }

  ghost predicate EconomyOk(s: State, initial: nat) {
    EconOk(s.econ, s.unlocks) && EpochsOk(s.unlocks, s.epoch) && Balanced(s, initial)
  }

  /** Room up to which no amount saturates or overflows: a bound on issuance and fees. */
  predicate Room(s: State, initial: nat) {
    initial + s.totals.baseIssued + OFFSET_PERMILLE * s.totals.feesBurned < U128_LIMIT - 1
  }

  lemma RoomFits(s: State, initial: nat)
    requires Balanced(s, initial) && Room(s, initial)
    ensures Fits(s.econ)
  {
    forall t: u64
      ensures Held(s.econ.bank, t) < U128_LIMIT - 1
    {}
  }

  /** Forgiving a miss changes no money and no activation. */
  lemma ForgiveKeeps(e: Econ, u: Unlocks, id: string)
    requires EconOk(e, u)
    ensures var e' := e.(validators := ForgiveMiss(e.validators, id));
      EconOk(e', u) && VaultSum(e'.validators) == VaultSum(e.validators)
  {
    var vs, vs' := e.validators, ForgiveMiss(e.validators, id);
    assert SameValidators(vs, vs');
    SameMoneyKeeps(vs, vs', u);
    forall i | 0 <= i < |vs'|
      ensures Backed(vs'[i], e.tickets)
    {
      assert Backed(vs[i], e.tickets);
    }
  }

  /** Registries that differ only in activation and miss counters keep the same books. */
  lemma SameMoneyKeeps(vs: seq<Validator>, vs': seq<Validator>, u: Unlocks)
    requires UniqueValidators(vs) && LocksOk(vs, u) && NoStrays(vs, u) && SameValidators(vs, vs')
    ensures UniqueValidators(vs') && LocksOk(vs', u) && NoStrays(vs', u) && VaultSum(vs') == VaultSum(vs)
  {
    SameVaultSum(vs, vs');
    forall i | 0 <= i < |vs'|
      ensures vs'[i].id == vs[i].id && LockOk(vs'[i], u)
    {
      assert LockOk(vs[i], u) && SameMoney(vs[i], vs'[i]);
    }
    forall other: string
      ensures NoStray(vs', u, other)
    {
      assert NoStray(vs, u, other);
      SameIdsRegistered(vs, vs', other);
    }
  }

  /** A locked reward keeps the economy; the vaults grow by the reward. */
  lemma LockKeepsEcon(e: Econ, u: Unlocks, epoch: nat, id: string, amount: nat)
    requires EconOk(e, u) && EpochsOk(u, epoch) && VaultSum(e.validators) + amount < U128_LIMIT
    ensures var (vs, u') := LockReward(e.validators, u, epoch, id, amount);
      && EconOk(e.(validators := vs), u') && EpochsOk(u', epoch)
      && VaultSum(vs) == VaultSum(e.validators) + (if Find(e.validators, id).Some? then amount else 0)
  {
    LockRewardKeeps(e.validators, u, epoch, id, amount);
    LockRewardBacks(e.validators, u, epoch, id, amount, e.tickets);
  }

  /** Minting the base reward into the leader's vault. */
  lemma RewardKeeps(s: State, initial: nat)
    requires EconomyOk(s, initial) && Room(RewardLeader(s), initial)
    ensures EconomyOk(RewardLeader(s), initial)
  {
    var e := s.econ.(validators := ForgiveMiss(s.econ.validators, s.leader));
    ForgiveKeeps(s.econ, s.unlocks, s.leader);
    if Find(e.validators, s.leader).Some? {
      LockKeepsEcon(e, s.unlocks, s.epoch, s.leader, s.baseReward);
    }
  }

  /** Burning the fees of a filled block. */
  lemma BurnKeeps(s: State, initial: nat, w: Work)
    requires EconomyOk(s, initial) && EconOk(w.econ, s.unlocks) && Filled(Work(s.econ, s.mempool, 0, 0, [], 0), w)
    requires initial + s.totals.baseIssued + OFFSET_PERMILLE * BurnFees(s.totals, w.fees, w.foreign).feesBurned
      < U128_LIMIT - 1
    ensures EconomyOk(s.(econ := w.econ, mempool := w.pool, totals := BurnFees(s.totals, w.fees, w.foreign)), initial)
  {
    forall t: u64 | t != ETX
      ensures Held(w.econ.bank, t) < U128_LIMIT - 1
    {
      assert Held(w.econ.bank, t) <= Held(s.econ.bank, t);
    }
  }

  // ----- boundaries keep the books -----

  /** What sharing the burn offset changes: vaults, unlocks and the offset total, all by the same amount. */
  ghost predicate Shared(s: State, r: State, added: nat) {
    && r == s.(econ := r.econ, unlocks := r.unlocks, totals := s.totals.(burnOffset := s.totals.burnOffset + added))
    && r.econ == s.econ.(validators := r.econ.validators)
    && VaultSum(r.econ.validators) == VaultSum(s.econ.validators) + added
    && EconOk(r.econ, r.unlocks) && EpochsOk(r.unlocks, r.epoch)
  }

  lemma OffsetOneKeeps(s: State, r: State, added: nat, who: Option<string>, share: nat) returns (total: nat)
    requires Shared(s, r, added)
    requires VaultSum(s.econ.validators) + added + share < U128_LIMIT
    requires s.totals.burnOffset + added + share < U128_LIMIT
    ensures Shared(s, OffsetOne(r, who, share), total) && total <= added + (if who.Some? then share else 0)
  {
    if who.None? || Find(r.econ.validators, who.value).None? {
      total := added;
      assert OffsetOne(r, who, share) == r;
    } else {
      total := added + share;
      LockKeepsEcon(r.econ, r.unlocks, r.epoch, who.value, share);
      var locked := LockReward(r.econ.validators, r.unlocks, r.epoch, who.value, share);
      SharedStep(s, r, added, share, total, locked);
    }
  }

  lemma SharedStep(s: State, r: State, added: nat, share: nat, total: nat, locked: (seq<Validator>, Unlocks))
    requires Shared(s, r, added) && total == added + share && s.totals.burnOffset + total < U128_LIMIT
    requires VaultSum(locked.0) == VaultSum(r.econ.validators) + share
    requires EconOk(r.econ.(validators := locked.0), locked.1) && EpochsOk(locked.1, r.epoch)
    ensures Shared(s, AfterShare(r, locked, share), total)
  {
    assert (r.totals.burnOffset + share) % U128_LIMIT == s.totals.burnOffset + total;
  }

  lemma {:induction false} OffsetAllKeeps(s: State, who: seq<Option<string>>, share: nat) returns (added: nat)
    requires EconOk(s.econ, s.unlocks) && EpochsOk(s.unlocks, s.epoch)
    requires VaultSum(s.econ.validators) + Produced(who) * share + share < U128_LIMIT
    requires s.totals.burnOffset + Produced(who) * share + share < U128_LIMIT
    ensures Shared(s, OffsetAll(s, who, share), added) && added <= Produced(who) * share
  {
    if who == [] {
      added := 0;
    } else {
      var n := |who| - 1;
      ProducedStep(who, share);
      var before := OffsetAllKeeps(s, who[..n], share);
      added := OffsetOneKeeps(s, OffsetAll(s, who[..n], share), before, who[n], share);
    }
  }

  lemma ProducedStep(who: seq<Option<string>>, share: nat)
    requires who != []
    ensures Produced(who) * share == Produced(who[..|who| - 1]) * share + (if who[|who| - 1].Some? then share else 0)
  {
    OneMore(Produced(who[..|who| - 1]), share);
  }

  lemma OneMore(n: nat, share: nat)
    ensures (n + 1) * share == n * share + share
  {}

  /** The shares of all proposers together are at most half of the burned fees. */
  lemma ShareIsHalf(s: State)
    requires OFFSET_PERMILLE * s.totals.burnThisSubEpoch < U128_LIMIT && Produced(s.proposers) > 0
    ensures 2 * (Produced(s.proposers) * OffsetShare(s)) <= s.totals.burnThisSubEpoch
    ensures OffsetShare(s) <= Produced(s.proposers) * OffsetShare(s)
  {
    ShareBound(s.totals.burnThisSubEpoch, Produced(s.proposers));
  }

  lemma ShareBound(burn: nat, produced: nat)
    requires OFFSET_PERMILLE * burn < U128_LIMIT && produced > 0
    ensures var share := (OFFSET_PERMILLE * burn) % U128_LIMIT / 1000 / produced;
      2 * (produced * share) <= burn && share <= produced * share
  {
    assert (OFFSET_PERMILLE * burn) % U128_LIMIT == OFFSET_PERMILLE * burn;
    var pool := OFFSET_PERMILLE * burn / 1000;
    assert 2 * pool <= burn;
    DivideShare(pool, produced);
  }

  lemma DivideShare(pool: nat, n: nat)
    requires n > 0
    ensures n * (pool / n) <= pool && pool / n <= n * (pool / n)
  {
    var q := pool / n;
    assert pool == n * q + pool % n;
    OneMore(n - 1, q);
    assert (n - 1) * q >= 0;
  }

  /** Closing a sub-epoch mints at most half of its fee burns and starts the next from zero. */
  lemma CloseSubEpochKeeps(s: State, initial: nat)
    requires EconomyOk(s, initial) && Room(s, initial)
    ensures EconomyOk(CloseSubEpoch(s), initial)
  {
    if Produced(s.proposers) > 0 {
      ShareIsHalf(s);
      var added := OffsetAllKeeps(s, s.proposers, OffsetShare(s));
    }
  }

  lemma {:induction false} SameIdsFind(ts: seq<StakeTicket>, ts': seq<StakeTicket>, id: u64)
    requires |ts| == |ts'| && forall i :: 0 <= i < |ts| ==> ts'[i].id == ts[i].id
    ensures FindTicket(ts', id) == FindTicket(ts, id)
  {
    if ts != [] {
      SameIdsFind(ts[..|ts| - 1], ts'[..|ts| - 1], id);
    }
  }

  /** Killing tickets keeps identities, and leaves every other owner's tickets alone. */
  lemma {:induction false} KillAllShape(ts: seq<StakeTicket>, ids: seq<u64>)
    requires TicketsOk(ts)
    ensures var ts' := KillAll(ts, ids);
      && |ts'| == |ts| && (forall i :: 0 <= i < |ts| ==> ts'[i].id == ts[i].id && ts'[i].owner == ts[i].owner)
      && TicketsOk(ts')
  {
    if ids != [] {
      var mid, id := KillAll(ts, ids[..|ids| - 1]), ids[|ids| - 1];
      KillAllShape(ts, ids[..|ids| - 1]);
      var ts' := KillTicket(mid, id);
      forall i | 0 <= i < |ts'|
        ensures TicketOk(ts'[i]) && ts'[i].id == mid[i].id
      {
        assert TicketOk(mid[i]);
      }
    }
  }

  lemma {:induction false} KillAllOthers(ts: seq<StakeTicket>, ids: seq<u64>, owner: string)
    requires TicketsOk(ts) && owner !in OwnersOf(ts, ids)
    ensures TicketCount(KillAll(ts, ids), owner) == TicketCount(ts, owner)
    ensures HasLive(KillAll(ts, ids), owner) <==> HasLive(ts, owner)
  {
    if ids != [] {
      var mid, id := KillAll(ts, ids[..|ids| - 1]), ids[|ids| - 1];
      KillAllShape(ts, ids[..|ids| - 1]);
      SameIdsFind(ts, mid, id);
      KillAllOthers(ts, ids[..|ids| - 1], owner);
      if FindTicket(mid, id).Some? {
        var j := FindTicket(mid, id).value;
        var dead := mid[j].(dead := true, muted := false, retiring := false, bucket := 0);
        TicketCountUpdate(mid, j, dead, owner);
        LiveUpdate(mid, j, dead, owner);
      }
    }
  }

  lemma {:induction false} RefreshAllBacks(vs: seq<Validator>, ts: seq<StakeTicket>, ids: seq<string>,
                                           open: set<string>)
    requires UniqueValidators(vs) && BackedExcept(vs, ts, open)
    ensures BackedExcept(RefreshAll(vs, ts, ids), ts, open - set id | id in ids)
    ensures SameValidators(vs, RefreshAll(vs, ts, ids))
  {
    if ids != [] {
      var front, id := ids[..|ids| - 1], ids[|ids| - 1];
      RefreshAllBacks(vs, ts, front, open);
      var mid := RefreshAll(vs, ts, front);
      assert UniqueValidators(mid) by {
        forall i, j | 0 <= i < j < |mid|
          ensures mid[i].id != mid[j].id
        {
          assert SameMoney(vs[i], mid[i]) && SameMoney(vs[j], mid[j]);
        }
      }
      RefreshBacks(mid, ts, id, open - set x | x in front);
      assert (open - set x | x in front) - {id} == open - set x | x in ids;
      SameValidatorsTransitive(vs, mid, Refresh(mid, ts, id));
    }
  }

  lemma SameValidatorsTransitive(a: seq<Validator>, b: seq<Validator>, c: seq<Validator>)
    requires SameValidators(a, b) && SameValidators(b, c)
    ensures SameValidators(a, c)
  {
    forall i | 0 <= i < |a|
      ensures SameMoney(a[i], c[i])
    {
      assert SameMoney(a[i], b[i]) && SameMoney(b[i], c[i]);
    }
  }

  /** Finalizing retirements keeps the economy: whoever loses a ticket is re-examined. */
  lemma FinalizeKeeps(e: Econ, u: Unlocks, ids: seq<u64>)
    requires EconOk(e, u)
    ensures EconOk(FinalizeRetire(e, ids), u) && VaultSum(FinalizeRetire(e, ids).validators) == VaultSum(e.validators)
  {
    var ts, owners := KillAll(e.tickets, ids), OwnersOf(e.tickets, ids);
    KillAllShape(e.tickets, ids);
    forall i | 0 <= i < |e.validators| && e.validators[i].id !in (set x | x in owners)
      ensures Backed(e.validators[i], ts)
    {
      assert Backed(e.validators[i], e.tickets);
      KillAllOthers(e.tickets, ids, e.validators[i].id);
    }
    RefreshAllBacks(e.validators, ts, owners, set x | x in owners);
    SameMoneyKeeps(e.validators, RefreshAll(e.validators, ts, owners), u);
  }

  lemma {:induction false} CooldownsShape(vs: seq<Validator>, ts: seq<StakeTicket>, epoch: nat)
    ensures var vs' := EndCooldowns(vs, ts, epoch).0;
      && |vs'| == |vs|
      && (forall i :: 0 <= i < |vs| ==> vs'[i] == EndCooldown(vs[i], ts, epoch))
  {
    if vs != [] {
      CooldownsShape(vs[..|vs| - 1], ts, epoch);
    }
  }

  lemma TransitionsKeep(e: Econ, u: Unlocks, epoch: nat)
    requires EconOk(e, u)
    ensures EconOk(EpochTransitions(e, epoch), u)
    ensures VaultSum(EpochTransitions(e, epoch).validators) == VaultSum(e.validators)
  {
    var (vs, ids) := EndCooldowns(e.validators, e.tickets, epoch);
    CooldownsShape(e.validators, e.tickets, epoch);
    forall i | 0 <= i < |vs|
      ensures SameMoney(e.validators[i], vs[i]) && Backed(vs[i], e.tickets)
    {
      assert Backed(e.validators[i], e.tickets);
    }
    SameMoneyKeeps(e.validators, vs, u);
    RefreshAllBacks(vs, e.tickets, ids, {});
    assert {} - (set x | x in ids) == {};
    SameMoneyKeeps(vs, RefreshAll(vs, e.tickets, ids), u);
  }

  lemma UnlockKeepsEcon(e: Econ, u: Unlocks, epoch: nat)
    requires EconOk(e, u) && EpochsOk(u, epoch)
    ensures var e' := e.(validators := UnlockAll(e.validators, EntriesAt(u, epoch + 1)));
      && EconOk(e', u - {epoch + 1}) && EpochsOk(u - {epoch + 1}, epoch + 1)
      && VaultSum(e'.validators) == VaultSum(e.validators)
  {
    UnlockKeeps(e.validators, u, epoch);
    var vs' := UnlockAll(e.validators, EntriesAt(u, epoch + 1));
    forall i | 0 <= i < |vs'|
      ensures Backed(vs'[i], e.tickets)
    {
      assert Backed(e.validators[i], e.tickets);
    }
  }

  /** Closing an epoch unlocks exactly what is due, finalizes retirements and ends cooldowns, and moves no
      money. */
  lemma CloseEpochKeeps(s: State, initial: nat)
    requires EconomyOk(s, initial)
    ensures EconomyOk(CloseEpoch(s), initial)
  {
    var next := s.epoch + 1;
    UnlockKeepsEcon(s.econ, s.unlocks, s.epoch);
    var unlocked := s.econ.(validators := UnlockAll(s.econ.validators, EntriesAt(s.unlocks, next)));
    if next in s.retire {
      FinalizeKeeps(unlocked, s.unlocks - {next}, s.retire[next]);
    }
    var retired := if next in s.retire then FinalizeRetire(unlocked, s.retire[next]) else unlocked;
    TransitionsKeep(retired, s.unlocks - {next}, next);
  }

  lemma BoundariesKeep(s: State, initial: nat)
    requires EconomyOk(s, initial) && Room(s, initial)
    ensures EconomyOk(RunBoundaries(s), initial)
  {
    var s' := if s.slot > 0 && s.slot % SUB_EPOCH_SLOTS == 0 then CloseSubEpoch(s) else s;
    CloseSubEpochKeeps(s, initial);
    CloseEpochKeeps(s', initial);
  }

  // ----- one slot -----

  /** The active slot directly follows the stored blocks. */
  predicate NextSlot(s: State) {
    && (forall n :: n in s.blocks ==> n < s.slot)
    && (if s.slot == 0 then s.blocks == map[] else s.slot - 1 in s.blocks)
  }

  /** `stage_local_slot`: the candidate state, or nothing if any check fails. */
  ghost function StageSlot(s: State, halt: nat -> bool): Option<(State, SlotBlock)> {
    if !NextSlot(s) || ParentOf(s).None? then None
    else
      var (made, b) := MakeBlock(s, ParentOf(s).value, halt);
      if !Encodable(b) || s.result.Some? then None else Some((RunBoundaries(Record(made, b)), b))
  }

  function AsTicket(t: StakeTicket): LeaderSelection.Ticket {
    LeaderSelection.Ticket(t.id, t.owner, t.bucket)
  }

  function Candidates(e: Econ): seq<LeaderSelection.Ticket> {
    seq(|EligibleTickets(e)|, i requires 0 <= i < |EligibleTickets(e)| => AsTicket(EligibleTickets(e)[i]))
  }

  const PROTOCOL: (string, u64) := ("protocol", 0)

  /** The genesis hash, which seeds every slot that has no block 32 slots back. */
  const GENESIS_HASH: Hash

  /** `historical_block_hash`: the genesis hash below slot 32, then the block 32 slots back. */
  function SeedHash(s: State): Option<Hash> {
    if s.slot < LeaderSelection.BLOCK_HASH_LOOKBACK_SLOTS then Some(GENESIS_HASH)
    else if s.slot < U64_LIMIT && LeaderSelection.HistoricalBlockSlot(s.slot) in s.blocks then
      Some(HashOf(s.blocks[LeaderSelection.HistoricalBlockSlot(s.slot)]))
    else None
  }

  /** `select_leader`. */
  function LeaderFor(s: State): (string, u64) {
    if s.slot >= U64_LIMIT || SeedHash(s).None? then PROTOCOL
    else match LeaderSelection.SelectLeader(SeedHash(s).value, s.slot, Candidates(s.econ))
      case None => PROTOCOL
      case Some(leader) => leader
  }

  /** `start_next_slot`. */
  function StartNext(s: State): State {
    var s' := s.(slot := s.slot + 1, result := None);
    s'.(leader := LeaderFor(s').0, ticket := LeaderFor(s').1)
  }

  lemma {:induction false} KillAllIds(ts: seq<StakeTicket>, ids: seq<u64>)
    ensures |KillAll(ts, ids)| == |ts|
    ensures forall i :: 0 <= i < |ts| ==> KillAll(ts, ids)[i].id == ts[i].id
  {
    if ids != [] {
      KillAllIds(ts, ids[..|ids| - 1]);
    }
  }

  /** The same tickets, up to their marks. */
  predicate SameIds(ts: seq<StakeTicket>, ts': seq<StakeTicket>) {
    |ts| == |ts'| && forall i :: 0 <= i < |ts| ==> ts'[i].id == ts[i].id
  }

  lemma {:induction false} OffsetAllFrame(s: State, who: seq<Option<string>>, share: nat)
    ensures var r := OffsetAll(s, who, share);
      && r == s.(econ := r.econ, unlocks := r.unlocks, totals := s.totals.(burnOffset := r.totals.burnOffset))
      && r.econ.tickets == s.econ.tickets
  {
    if who != [] {
      OffsetAllFrame(s, who[..|who| - 1], share);
    }
  }

  /** Two states with the same chain, the same issuance and fee totals, and the same ticket identifiers. */
  ghost predicate SameFrame(s: State, r: State) {
    && r.totals.baseIssued == s.totals.baseIssued && r.totals.feesBurned == s.totals.feesBurned
    && r.slot == s.slot && r.blocks == s.blocks && r.index == s.index && r.result == s.result
    && SameIds(s.econ.tickets, r.econ.tickets)
  }

  lemma SubEpochFrame(s: State)
    ensures SameFrame(s, CloseSubEpoch(s))
  {
    OffsetAllFrame(s, s.proposers, OffsetShare(s));
  }

  lemma EpochFrame(s: State)
    ensures SameFrame(s, CloseEpoch(s))
  {
    if s.epoch + 1 in s.retire {
      KillAllIds(s.econ.tickets, s.retire[s.epoch + 1]);
    }
  }

  lemma BoundaryFrame(s: State)
    ensures SameFrame(s, RunBoundaries(s))
  {
    SubEpochFrame(s);
    EpochFrame(s);
    EpochFrame(CloseSubEpoch(s));
  }

  lemma BoundaryRoom(s: State, initial: nat)
    requires Room(RunBoundaries(s), initial)
    ensures Room(s, initial)
  {
    BoundaryFrame(s);
  }

  /** Own production keeps the economy. */
  lemma ProduceKeeps(s: State, initial: nat, parent: Hash, halt: nat -> bool)
    requires EconomyOk(s, initial) && Room(s, initial) && Room(ProduceBlock(s, parent, halt).0, initial)
    requires IdsLast(s.econ.tickets, |ProduceBlock(s, parent, halt).0.econ.tickets|)
    ensures EconomyOk(ProduceBlock(s, parent, halt).0, initial)
  {
    var start := Work(s.econ, s.mempool, 0, 0, [], 0);
    var w := Fill(start, s.slot, halt);
    RoomFits(s, initial);
    var filled := s.(econ := w.econ, mempool := w.pool, totals := BurnFees(s.totals, w.fees, w.foreign));
    RewardRoom(filled, initial);
    FillKeeps(start, s.slot, halt, s.unlocks);
    BurnKeeps(s, initial, w);
    RewardKeeps(filled, initial);
  }

  lemma RewardRoom(s: State, initial: nat)
    requires Room(RewardLeader(s), initial)
    ensures s.totals.baseIssued <= RewardLeader(s).totals.baseIssued
    ensures RewardLeader(s).totals.feesBurned == s.totals.feesBurned && RewardLeader(s).econ.tickets == s.econ.tickets
    ensures Room(s, initial)
  {}

  /** A bootstrap transaction keeps the economy. */
  lemma PbmKeeps(s: State, initial: nat)
    requires EconomyOk(s, initial) && Room(s, initial) && Room(ExecutePbm(s).0, initial)
    requires IdsLast(s.econ.tickets, |ExecutePbm(s).0.econ.tickets|)
    ensures EconomyOk(ExecutePbm(s).0, initial)
  {
    var choice := SelectPbm(s.pbmPool, s.slot, |s.pbmPool|);
    if choice.Some? {
      var tx := s.pbmPool[choice.value];
      var rest := s.pbmPool[..choice.value] + s.pbmPool[choice.value + 1..];
      SettleKeeps(s.(pbmPool := rest), initial, tx);
    }
  }

  lemma SettleKeeps(s: State, initial: nat, tx: Tx)
    requires EconomyOk(s, initial) && Room(s, initial) && PbmAllowed(tx.kind)
    requires Room(SettlePbm(s, tx, Exec(s.econ, tx)).0, initial)
    requires IdsLast(s.econ.tickets, |SettlePbm(s, tx, Exec(s.econ, tx)).0.econ.tickets|)
    ensures EconomyOk(SettlePbm(s, tx, Exec(s.econ, tx)).0, initial)
  {
    RoomFits(s, initial);
    ExecKeeps(s.econ, tx, s.unlocks);
    if Exec(s.econ, tx).Executed? {
      PbmBurnKeeps(s, initial, Exec(s.econ, tx).econ, tx.fee);
    }
  }

  lemma PbmBurnKeeps(s: State, initial: nat, e: Econ, fee: nat)
    requires EconomyOk(s, initial) && EconOk(e, s.unlocks) && Accounted(s.econ, e, ETX, fee)
    requires initial + s.totals.baseIssued + OFFSET_PERMILLE * BurnFees(s.totals, fee, 0).feesBurned < U128_LIMIT - 1
    ensures EconomyOk(s.(econ := e, totals := BurnFees(s.totals, fee, 0)), initial)
  {
    forall t: u64 | t != ETX
      ensures Held(e.bank, t) < U128_LIMIT - 1
    {
      assert Held(e.bank, t) == Held(s.econ.bank, t);
    }
  }

  lemma MakeBlockKeeps(s: State, initial: nat, parent: Hash, halt: nat -> bool)
    requires EconomyOk(s, initial) && Room(s, initial) && Room(MakeBlock(s, parent, halt).0, initial)
    requires IdsLast(s.econ.tickets, |MakeBlock(s, parent, halt).0.econ.tickets|)
    ensures EconomyOk(MakeBlock(s, parent, halt).0, initial)
  {
    if EligibleTickets(s.econ) == [] {
      PbmKeeps(s, initial);
    } else if s.local == Some(s.leader) {
      ProduceKeeps(s, initial, parent, halt);
    }
  }

  predicate SameChain(s: State, r: State) {
    r.slot == s.slot && r.blocks == s.blocks && r.index == s.index && r.result == s.result
  }

  lemma RewardFrame(s: State)
    ensures SameChain(s, RewardLeader(s))
  {}

  lemma ProduceFrame(s: State, parent: Hash, halt: nat -> bool)
    ensures SameChain(s, ProduceBlock(s, parent, halt).0)
    ensures ProduceBlock(s, parent, halt).1.slot == s.slot && ProduceBlock(s, parent, halt).1.parent == parent
  {
    var w := Fill(Work(s.econ, s.mempool, 0, 0, [], 0), s.slot, halt);
    RewardFrame(s.(econ := w.econ, mempool := w.pool, totals := BurnFees(s.totals, w.fees, w.foreign)));
  }

  lemma SettlePbmFrame(s: State, tx: Tx, outcome: Outcome)
    ensures SameChain(s, SettlePbm(s, tx, outcome).0)
  {}

  lemma PbmFrame(s: State)
    ensures SameChain(s, LeavePbm(ExecutePbm(s).0))
  {
    var choice := SelectPbm(s.pbmPool, s.slot, |s.pbmPool|);
    if choice.Some? {
      var i := choice.value;
      SettlePbmFrame(s.(pbmPool := s.pbmPool[..i] + s.pbmPool[i + 1..]), s.pbmPool[i], Exec(s.econ, s.pbmPool[i]));
    }
  }

  /** The block of a slot carries that slot and its parent, and production leaves the chain alone. */
  lemma MakeBlockFrame(s: State, parent: Hash, halt: nat -> bool)
    ensures var (made, b) := MakeBlock(s, parent, halt);
      b.slot == s.slot && b.parent == parent && SameChain(s, made)
  {
    ProduceFrame(s, parent, halt);
    PbmFrame(s);
  }

  /** A bootstrap transaction adds tickets only by minting. */
  lemma PbmTickets(s: State)
    ensures Minted(s.econ.tickets, LeavePbm(ExecutePbm(s).0).econ.tickets)
  {
    var choice := SelectPbm(s.pbmPool, s.slot, |s.pbmPool|);
    if choice.Some? {
      ExecTickets(s.econ, s.pbmPool[choice.value]);
    }
  }

  /** Whatever happens in a slot, new tickets count up from the highest identifier. */
  lemma MakeBlockTickets(s: State, parent: Hash, halt: nat -> bool)
    ensures Minted(s.econ.tickets, MakeBlock(s, parent, halt).0.econ.tickets)
  {
    FillTickets(Work(s.econ, s.mempool, 0, 0, [], 0), s.slot, halt);
    PbmTickets(s);
  }

  lemma StageTickets(s: State, halt: nat -> bool)
    requires StageSlot(s, halt).Some?
    ensures Minted(s.econ.tickets, StageSlot(s, halt).value.0.econ.tickets)
  {
    var (made, b) := MakeBlock(s, ParentOf(s).value, halt);
    MakeBlockTickets(s, ParentOf(s).value, halt);
    BoundaryFrame(Record(made, b));
  }

  /** A staged slot keeps the economy, while identifiers last. */
  lemma StageKeepsEconomy(s: State, initial: nat, halt: nat -> bool)
    requires EconomyOk(s, initial) && Room(s, initial) && StageSlot(s, halt).Some?
    requires Room(StageSlot(s, halt).value.0, initial)
    requires IdsLast(s.econ.tickets, |StageSlot(s, halt).value.0.econ.tickets|)
    ensures EconomyOk(StageSlot(s, halt).value.0, initial)
  {
    var parent := ParentOf(s).value;
    var (made, b) := MakeBlock(s, parent, halt);
    BoundaryRoom(Record(made, b), initial);
    BoundaryFrame(Record(made, b));
    MakeBlockKeeps(s, initial, parent, halt);
    BoundariesKeep(Record(made, b), initial);
  }

  // ----- the linear chain -----

  predicate LinkOk(s: State, n: nat) {
    n in s.blocks ==>
      && s.blocks[n].slot == n
      && (if n == 0 then s.blocks[n].parent == ZERO_HASH
          else n - 1 in s.blocks && s.blocks[n].parent == HashOf(s.blocks[n - 1]))
  }

  predicate IndexOk(s: State, h: Hash) {
    h in s.index ==> s.index[h] in s.blocks && HashOf(s.blocks[s.index[h]]) == h
  }

  predicate Indexed(s: State, n: nat) {
    n in s.blocks ==> HashOf(s.blocks[n]) in s.index
  }

  /** The stored blocks are exactly slots 0 to tip, each on top of the previous, and indexed by hash. */
  ghost predicate Linear(s: State) {
    && (forall n: nat :: n in s.blocks <==> n < s.slot)
    && (forall n: nat :: LinkOk(s, n) && Indexed(s, n))
    && (forall h: Hash :: IndexOk(s, h))
    && s.result.None?
  }

  lemma LinearIsNext(s: State)
    requires Linear(s)
    ensures NextSlot(s) && ParentOf(s).Some?
  {
    if s.slot == 0 {
      assert s.blocks.Keys == {};
    }
  }

  lemma RecordExtends(s: State, b: SlotBlock, r: State)
    requires Linear(s) && b.slot == s.slot && ParentOf(s) == Some(b.parent)
    requires r.slot == s.slot + 1 && r.blocks == s.blocks[b.slot := b]
    requires r.index == s.index[HashOf(b) := b.slot] && r.result.None?
    ensures Linear(r)
  {
    forall n: nat
      ensures LinkOk(r, n) && Indexed(r, n)
    {
      assert LinkOk(s, n) && Indexed(s, n);
    }
    forall h: Hash
      ensures IndexOk(r, h)
    {
      assert IndexOk(s, h);
    }
  }

  /** A staged slot, once started next, extends the chain by exactly its block. */
  lemma StageKeepsChain(s: State, halt: nat -> bool)
    requires Linear(s) && StageSlot(s, halt).Some?
    ensures Linear(StartNext(StageSlot(s, halt).value.0))
    ensures StageSlot(s, halt).value.0.blocks == s.blocks[s.slot := StageSlot(s, halt).value.1]
  {
    var parent := ParentOf(s).value;
    var (made, b) := MakeBlock(s, parent, halt);
    MakeBlockFrame(s, parent, halt);
    BoundaryFrame(Record(made, b));
    RecordExtends(s, b, StartNext(StageSlot(s, halt).value.0));
  }

  predicate Inverse(s: State, n: nat) {
    n in s.blocks ==> HashOf(s.blocks[n]) in s.index && s.index[HashOf(s.blocks[n])] == n
  }

  predicate Collide(s: State, m: nat, n: nat) {
    m in s.blocks && n in s.blocks && m != n && HashOf(s.blocks[m]) == HashOf(s.blocks[n])
  }

  /** The hash index is the exact inverse of the stored blocks, exactly if no two of them share a hash. */
  lemma IndexIsInverse(s: State)
    requires Linear(s)
    ensures (forall n: nat :: Inverse(s, n)) <==> (forall m: nat, n: nat :: !Collide(s, m, n))
  {
    if m: nat, n: nat :| Collide(s, m, n) {
      assert !Inverse(s, m) || !Inverse(s, n);
    }
    if n: nat :| !Inverse(s, n) {
      assert Indexed(s, n) && IndexOk(s, HashOf(s.blocks[n]));
      assert Collide(s, s.index[HashOf(s.blocks[n])], n);
    }
  }
}
