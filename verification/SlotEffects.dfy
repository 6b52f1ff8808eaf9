/** What each operation of the slot engine does to every party: activation, transactions, rewards and boundaries,
    exactly (src/app/accounts.rs, src/app/consensus.rs). */
module SlotEffects {
  import opened Base
  import opened Crypto
  import opened Sums
  import opened SlotEconomy
  import opened SlotTransactions
  import opened SlotEngine
  import opened SlotRuns
  import ByteOrder

  // ----- activation -----

  /** The tickets of an owner that are not dead. */
  ghost function OwnedTickets(ts: seq<StakeTicket>, owner: string): set<nat> {
    set i: nat | i < |ts| && ts[i].owner == owner && !ts[i].dead
  }

  lemma {:induction false} TicketCountIs(ts: seq<StakeTicket>, owner: string)
    ensures TicketCount(ts, owner) == |OwnedTickets(ts, owner)|
  {
    if ts != [] {
      var n := |ts| - 1;
      TicketCountIs(ts[..n], owner);
      var counts := ts[n].owner == owner && !ts[n].dead;
      assert OwnedTickets(ts, owner) == OwnedTickets(ts[..n], owner) + (if counts then {n} else {});
    }
  }

  /** The vault minimum: nothing without tickets, else five ticket costs, and half of one more per ticket that is not
      dead. */
  lemma VaultMinimumIs(ts: seq<StakeTicket>, owner: string)
    requires 50_000_000_000_000 + 5_000_000_000_000 * |OwnedTickets(ts, owner)| < U128_LIMIT
    ensures VaultMinimum(ts, owner)
      == (if OwnedTickets(ts, owner) == {} then 0
          else 50_000_000_000_000 + 5_000_000_000_000 * |OwnedTickets(ts, owner)|)
  {
    TicketCountIs(ts, owner);
  }

  predicate Barred(v: Validator) {
    v.state == Jailed || v.state == PunishedCooldown
  }

  predicate Qualified(v: Validator, ts: seq<StakeTicket>) {
    v.vault >= VaultMinimum(ts, v.id) && HasLive(ts, v.id)
  }

  /** A refresh decides activation in both directions. Jailed and cooling validators stay as they are. Of the rest,
      the refreshed one is active exactly if it has its minimum and a live ticket; losing them, it pauses for its
      vault or becomes inactive; never active, it stays as it was. Nothing else about it changes, and nobody else. */
  lemma RefreshExactly(vs: seq<Validator>, ts: seq<StakeTicket>, id: string, j: nat)
    requires UniqueValidators(vs) && j < |vs|
    ensures |Refresh(vs, ts, id)| == |vs|
    ensures var v, v' := vs[j], Refresh(vs, ts, id)[j];
      && v' == v.(state := v'.state)
      && (v.id != id || Barred(v) ==> v' == v)
      && (v.id == id && !Barred(v) ==>
            && (v'.state == Active <==> Qualified(v, ts))
            && (!Qualified(v, ts) && v.state == Active ==>
                  v'.state == if v.vault < VaultMinimum(ts, id) then PausedLowVault else Inactive)
            && (!Qualified(v, ts) && v.state != Active ==> v'.state == v.state))
  {}

  // ----- transactions -----

  /** What one account holds of ETX after paying and receiving. */
  ghost predicate EtxMoved(b: Bank, b': Bank, a: string, paid: nat, received: nat) {
    forall c: Coin :: Lookup(b', c) + (if c == Etx(a) then paid else 0)
      == Lookup(b, c) + (if c == Etx(a) then received else 0)
  }

  /** A transfer, contract call or system transaction executes exactly if the sender holds value and fee; then the
      value moves from sender to recipient, the fee leaves the sender, and nothing else changes. */
  lemma GenericExactly(e: Econ, tx: Tx, c: Coin)
    requires Fits(e)
    ensures var r, from, payer := ExecGeneric(e, tx), Coin(tx.from, tx.token), Coin(tx.from, tx.feeToken);
      && (r.Executed? <==>
            && from in e.bank && payer in e.bank
            && if from == payer then tx.value + tx.fee <= e.bank[from]
               else tx.value <= e.bank[from] && tx.fee <= e.bank[payer])
      && (r.Executed? ==>
            && r.econ == e.(bank := r.econ.bank)
            && Lookup(r.econ.bank, c) + (if c == from then tx.value else 0) + (if c == payer then tx.fee else 0)
               == Lookup(e.bank, c) + (if c == Coin(tx.to, tx.token) then tx.value else 0))
  {
    GenericExecutes(e, tx);
    if ExecGeneric(e, tx).Executed? {
      GenericMoves(e, tx, c);
    }
  }

  lemma GenericExecutes(e: Econ, tx: Tx)
    requires Fits(e)
    ensures var from, payer := Coin(tx.from, tx.token), Coin(tx.from, tx.feeToken);
      ExecGeneric(e, tx).Executed? <==>
        && from in e.bank && payer in e.bank
        && if from == payer then tx.value + tx.fee <= e.bank[from]
           else tx.value <= e.bank[from] && tx.fee <= e.bank[payer]
  {
    GenericKeeps(e, tx);
    BalanceFits(e.bank, Coin(tx.from, tx.token), e);
  }

  lemma GenericMoves(e: Econ, tx: Tx, c: Coin)
    requires Fits(e) && ExecGeneric(e, tx).Executed?
    ensures var r, from, payer := ExecGeneric(e, tx), Coin(tx.from, tx.token), Coin(tx.from, tx.feeToken);
      && r.econ == e.(bank := r.econ.bank)
      && Lookup(r.econ.bank, c) + (if c == from then tx.value else 0) + (if c == payer then tx.fee else 0)
         == Lookup(e.bank, c) + (if c == Coin(tx.to, tx.token) then tx.value else 0)
  {
    var from, to, payer := Coin(tx.from, tx.token), Coin(tx.to, tx.token), Coin(tx.from, tx.feeToken);
    BalanceFits(e.bank, from, e);
    RecipientFits(e.bank, from, to, tx.value);
    CreditMoves(Debit(e.bank, from, tx.value).0, to, tx.value, c);
  }

  lemma CreditMoves(b: Bank, to: Coin, value: nat, c: Coin)
    requires Lookup(b, to) + value < U128_LIMIT
    ensures Lookup(Credit(b, to, value), c) == Lookup(b, c) + (if c == to then value else 0)
  {}

  /** What a recipient holds after a debit of the sender still fits. */
  lemma RecipientFits(b: Bank, from: Coin, to: Coin, value: nat)
    requires from.token == to.token && value <= Lookup(b, from) && Held(b, from.token) < U128_LIMIT - 1
    ensures Lookup(Debit(b, from, value).0, to) + value < U128_LIMIT
  {
    DebitHolds(b, from, value, from.token);
    HeldUpdate(Debit(b, from, value).0, to, 0, to.token);
  }

  /** A registration executes exactly with a valid unused key, a new identifier and the fee; then the payer pays the
      fee and an empty, inactive validator with that owner and key is added. */
  lemma RegisterExactly(e: Econ, tx: Tx)
    ensures var r := ExecRegister(e, tx);
      && (r.Executed? <==>
            && RegistrationKey(tx.data).Some?
            && (forall i :: 0 <= i < |e.validators| ==>
                  e.validators[i].id != tx.to && e.validators[i].pubkey != RegistrationKey(tx.data))
            && Etx(tx.from) in e.bank && tx.fee <= e.bank[Etx(tx.from)])
      && (r.Executed? ==>
            && EtxMoved(e.bank, r.econ.bank, tx.from, tx.fee, 0)
            && r.econ.validators == e.validators
               + [Validator(tx.to, Some(tx.from), RegistrationKey(tx.data), Inactive, 0, 0, 0, None)]
            && r.econ.tickets == e.tickets && r.econ.ticketBurned == e.ticketBurned)
  {}

  /** The sender owns the addressed validator. */
  predicate Owns(vs: seq<Validator>, i: nat, tx: Tx) {
    i < |vs| && vs[i].id == tx.to && vs[i].owner == Some(tx.from)
  }

  lemma OwnerFound(vs: seq<Validator>, i: nat, tx: Tx)
    requires UniqueValidators(vs) && i < |vs| && vs[i].id == tx.to
    ensures Find(vs, tx.to) == Some(i) && OwnerOf(vs, tx.to) == vs[i].owner
  {
    assert Find(vs, tx.to).Some?;
  }

  /** A purchase for one's own validator executes exactly for at least one and fewer than 2^64 tickets, with the cost
      of each and the fee; then the payer pays that, the cost is burned, the tickets are minted, and the
      validator's activation is decided anew. */
  lemma BuyExactly(e: Econ, tx: Tx, i: nat)
    requires Fits(e) && UniqueValidators(e.validators) && i < |e.validators| && e.validators[i].id == tx.to
    ensures var r, cost := ExecBuy(e, tx), 10_000_000_000_000 * tx.value;
      && (r.Executed? <==>
            && 0 < tx.value < U64_LIMIT && e.validators[i].owner == Some(tx.from)
            && Etx(tx.from) in e.bank && cost + tx.fee <= e.bank[Etx(tx.from)])
      && (r.Executed? ==>
            && EtxMoved(e.bank, r.econ.bank, tx.from, cost + tx.fee, 0)
            && r.econ.tickets == Mint(e.tickets, tx.to, tx.value) && r.econ.ticketBurned == e.ticketBurned + cost
            && r.econ.validators == Refresh(e.validators, Mint(e.tickets, tx.to, tx.value), tx.to))
  {
    OwnerFound(e.validators, i, tx);
    BalanceFits(e.bank, Etx(tx.from), e);
    HeldUpdate(e.bank, Etx(tx.from), 0, ETX);
  }

  /** A deposit into one's own vault executes exactly with value and fee; then the payer pays both, the vault has the
      value, and the validator's activation is decided anew. */
  lemma DepositExactly(e: Econ, tx: Tx, i: nat)
    requires Fits(e) && UniqueValidators(e.validators) && i < |e.validators| && e.validators[i].id == tx.to
    ensures var r, v := ExecDeposit(e, tx), e.validators[i];
      && (r.Executed? <==>
            v.owner == Some(tx.from) && Etx(tx.from) in e.bank && tx.value + tx.fee <= e.bank[Etx(tx.from)])
      && (r.Executed? ==>
            && EtxMoved(e.bank, r.econ.bank, tx.from, tx.value + tx.fee, 0)
            && r.econ.tickets == e.tickets && r.econ.ticketBurned == e.ticketBurned
            && r.econ.validators
               == Refresh(e.validators[i := v.(vault := v.vault + tx.value)], e.tickets, tx.to))
  {
    OwnerFound(e.validators, i, tx);
    BalanceFits(e.bank, Etx(tx.from), e);
    HeldUpdate(e.bank, Etx(tx.from), 0, ETX);
    VaultSumUpdate(e.validators, i, e.validators[i]);
  }

  /** A withdrawal from one's own vault executes exactly with the fee, and a value that leaves what is locked and the
      minimum; then the vault gives the value to the owner, who pays the fee, and activation is decided anew. */
  lemma WithdrawExactly(e: Econ, tx: Tx, i: nat)
    requires Fits(e) && UniqueValidators(e.validators) && i < |e.validators| && e.validators[i].id == tx.to
    requires e.validators[i].locked <= e.validators[i].vault
    ensures var r, v := ExecWithdraw(e, tx), e.validators[i];
      && (r.Executed? <==>
            && v.owner == Some(tx.from) && Etx(tx.from) in e.bank && tx.fee <= e.bank[Etx(tx.from)]
            && (tx.value == 0 || tx.value + v.locked + VaultMinimum(e.tickets, tx.to) <= v.vault))
      && (r.Executed? ==>
            && EtxMoved(e.bank, r.econ.bank, tx.from, tx.fee, tx.value)
            && r.econ.tickets == e.tickets && r.econ.ticketBurned == e.ticketBurned
            && r.econ.validators
               == Refresh(e.validators[i := v.(vault := v.vault - tx.value)], e.tickets, tx.to))
  {
    OwnerFound(e.validators, i, tx);
    WithdrawableIs(e, i, tx.to, tx.value);
    if ExecWithdraw(e, tx).Executed? {
      WithdrawMoves(e, tx, i);
    }
  }

  lemma WithdrawableIs(e: Econ, i: nat, id: string, value: nat)
    requires Find(e.validators, id) == Some(i) && e.validators[i].locked <= e.validators[i].vault
    ensures var v := e.validators[i];
      value <= Withdrawable(e.validators, e.tickets, id)
      <==> value == 0 || value + v.locked + VaultMinimum(e.tickets, id) <= v.vault
  {}

  lemma WithdrawMoves(e: Econ, tx: Tx, i: nat)
    requires Fits(e) && Find(e.validators, tx.to) == Some(i) && e.validators[i].locked <= e.validators[i].vault
    requires ExecWithdraw(e, tx).Executed?
    ensures var r, v := ExecWithdraw(e, tx), e.validators[i];
      && tx.value <= v.vault
      && EtxMoved(e.bank, r.econ.bank, tx.from, tx.fee, tx.value)
      && r.econ.tickets == e.tickets && r.econ.ticketBurned == e.ticketBurned
      && r.econ.validators == Refresh(e.validators[i := v.(vault := v.vault - tx.value)], e.tickets, tx.to)
  {
    WithdrawableIs(e, i, tx.to, tx.value);
    VaultSumUpdate(e.validators, i, e.validators[i]);
    HeldUpdate(e.bank, Etx(tx.from), 0, ETX);
    PaysAndReceives(e.bank, tx.from, tx.fee, tx.value);
  }

  lemma PaysAndReceives(b: Bank, a: string, fee: nat, value: nat)
    requires fee <= Lookup(b, Etx(a)) && Lookup(b, Etx(a)) + value < U128_LIMIT
    ensures Debit(b, Etx(a), fee).1
    ensures EtxMoved(b, Credit(Debit(b, Etx(a), fee).0, Etx(a), value), a, fee, value)
  {}

  /** So a purchase or a deposit that executes leaves a validator active exactly if it now has its minimum and a live
      ticket, unless it is jailed or cooling down. */
  lemma FundingActivates(e: Econ, tx: Tx, i: nat)
    requires Fits(e) && UniqueValidators(e.validators) && i < |e.validators| && e.validators[i].id == tx.to
    requires tx.kind == BuyTicket || tx.kind == WalletToVault
    requires Exec(e, tx).Executed? && !Barred(e.validators[i])
    ensures var e' := Exec(e, tx).econ;
      |e'.validators| == |e.validators|
      && (e'.validators[i].state == Active <==> Qualified(e'.validators[i], e'.tickets))
  {
    if tx.kind == BuyTicket {
      BuyExactly(e, tx, i);
      RefreshExactly(e.validators, Mint(e.tickets, tx.to, tx.value), tx.to, i);
    } else {
      DepositExactly(e, tx, i);
      var v := e.validators[i];
      RefreshExactly(e.validators[i := v.(vault := v.vault + tx.value)], e.tickets, tx.to, i);
    }
  }

  /** Bought tickets belong to the validator and are live. */
  lemma {:induction false} MintedTickets(ts: seq<StakeTicket>, owner: string, count: nat, j: nat)
    requires |ts| <= j < |ts| + count
    ensures var t := Mint(ts, owner, count)[j];
      t.owner == owner && t.Live() && t.bucket == t.id % 254 + 2
  {
    if j < |ts| + count - 1 {
      MintedTickets(ts, owner, count - 1, j);
    }
  }

  /** In particular a covered first purchase activates. */
  lemma PurchaseActivates(e: Econ, tx: Tx, i: nat)
    requires Fits(e) && UniqueValidators(e.validators) && i < |e.validators| && e.validators[i].id == tx.to
    requires ExecBuy(e, tx).Executed? && !Barred(e.validators[i])
    requires e.validators[i].vault >= VaultMinimum(Mint(e.tickets, tx.to, tx.value), tx.to)
    ensures |ExecBuy(e, tx).econ.validators| == |e.validators| && ExecBuy(e, tx).econ.validators[i].state == Active
  {
    BuyExactly(e, tx, i);
    var ts := Mint(e.tickets, tx.to, tx.value);
    MintedTickets(e.tickets, tx.to, tx.value, |e.tickets|);
    assert ts[|e.tickets|].owner == tx.to && ts[|e.tickets|].Live();
    RefreshExactly(e.validators, ts, tx.to, i);
  }

  // ----- rewards -----

  /** A locked reward goes to exactly one validator, into vault and locked amount alike, and is due exactly four
      epochs later; every other validator and every other epoch stays as it is. */
  lemma LocksExactly(vs: seq<Validator>, u: Unlocks, epoch: nat, id: string, amount: nat, i: nat)
    requires UniqueValidators(vs) && i < |vs| && vs[i].id == id && amount > 0
    requires vs[i].vault + amount < U128_LIMIT && vs[i].locked <= vs[i].vault
    ensures var r := LockReward(vs, u, epoch, id, amount);
      && r.0 == vs[i := vs[i].(vault := vs[i].vault + amount, locked := vs[i].locked + amount)]
      && r.1 == u[epoch + 4 := (if epoch + 4 in u then u[epoch + 4] else []) + [Unlock(id, amount)]]
  {
    assert Find(vs, id).Some?;
  }

  lemma LocksNothing(vs: seq<Validator>, u: Unlocks, epoch: nat, id: string, amount: nat)
    requires amount == 0 || !Registered(vs, id)
    ensures LockReward(vs, u, epoch, id, amount) == (vs, u)
  {}

  /** The leader's reward: exactly the base reward, into its vault and locked for four epochs; one miss is forgiven,
      and the issuance is counted. */
  lemma RewardsExactly(s: State, i: nat)
    requires UniqueValidators(s.econ.validators) && i < |s.econ.validators| && s.econ.validators[i].id == s.leader
    requires s.econ.validators[i].vault + s.baseReward < U128_LIMIT && s.baseReward > 0
    requires s.econ.validators[i].locked <= s.econ.validators[i].vault
    requires s.totals.baseIssued + s.baseReward < U128_LIMIT
    ensures var v := s.econ.validators[i];
      && RewardLeader(s) == s.(
           econ := s.econ.(validators := s.econ.validators[i := v.(
             vault := v.vault + s.baseReward, locked := v.locked + s.baseReward,
             misses := if v.misses > 0 then v.misses - 1 else 0)]),
           unlocks := s.unlocks[s.epoch + 4 := EntriesAt(s.unlocks, s.epoch + 4) + [Unlock(s.leader, s.baseReward)]],
           totals := s.totals.(baseIssued := s.totals.baseIssued + s.baseReward))
  {
    var vs := ForgiveMiss(s.econ.validators, s.leader);
    assert Find(s.econ.validators, s.leader) == Some(i);
    assert vs[i].id == s.leader;
    LocksExactly(vs, s.unlocks, s.epoch, s.leader, s.baseReward, i);
  }

  /** Nobody is rewarded for a leader that is not registered. */
  lemma UnknownLeader(s: State)
    requires !Registered(s.econ.validators, s.leader)
    ensures RewardLeader(s) == s
  {}

  // ----- the burn offset -----

  /** How many of these blocks a validator produced. */
  function BlocksOf(who: seq<Option<string>>, id: string): nat {
    if who == [] then 0 else BlocksOf(who[..|who| - 1], id) + (if who[|who| - 1] == Some(id) then 1 else 0)
  }

  /** How many of these blocks were produced by registered validators. */
  function Rewarded(vs: seq<Validator>, who: seq<Option<string>>): nat {
    if who == [] then 0
    else
      var last := who[|who| - 1];
      Rewarded(vs, who[..|who| - 1]) + (if last.Some? && Registered(vs, last.value) then 1 else 0)
  }

  lemma {:induction false} ProducedIs(who: seq<Option<string>>)
    ensures Produced(who) == |set i: nat | i < |who| && who[i].Some?|
  {
    if who != [] {
      var n := |who| - 1;
      ProducedIs(who[..n]);
      assert (set i: nat | i < |who| && who[i].Some?)
        == (set i: nat | i < n && who[..n][i].Some?) + (if who[n].Some? then {n} else {});
    }
  }

  /** The share of one produced block: half of the fees burned in the sub-epoch, over the produced blocks. */
  lemma ShareIs(s: State)
    requires 500 * s.totals.burnThisSubEpoch < U128_LIMIT
    ensures OffsetShare(s)
      == (if Produced(s.proposers) == 0 then 0 else s.totals.burnThisSubEpoch / 2 / Produced(s.proposers))
  {
    Halves(s.totals.burnThisSubEpoch);
  }

  lemma Halves(n: nat)
    ensures 500 * n / 1000 == n / 2
  {}

  /** The entries that a sharing adds: one per block of a registered validator, in order. */
  function SharesDue(vs: seq<Validator>, who: seq<Option<string>>, share: nat): seq<Unlock> {
    if who == [] then []
    else
      var last := who[|who| - 1];
      SharesDue(vs, who[..|who| - 1], share)
      + (if share > 0 && last.Some? && Registered(vs, last.value) then [Unlock(last.value, share)] else [])
  }

  /** Room for all shares in every vault and in the total. */
  ghost predicate ShareRoom(s: State, who: seq<Option<string>>, share: nat) {
    && s.totals.burnOffset + share * |who| < U128_LIMIT
    && forall i :: 0 <= i < |s.econ.validators| ==>
         s.econ.validators[i].vault + share * |who| < U128_LIMIT
         && s.econ.validators[i].locked <= s.econ.validators[i].vault
  }

  /** What a validator has after a sharing. */
  function WithShares(v: Validator, who: seq<Option<string>>, share: nat): Validator {
    v.(vault := v.vault + share * BlocksOf(who, v.id), locked := v.locked + share * BlocksOf(who, v.id))
  }

  ghost predicate VaultsShared(vs: seq<Validator>, vs': seq<Validator>, who: seq<Option<string>>, share: nat) {
    |vs'| == |vs| && forall i :: 0 <= i < |vs| ==> vs'[i] == WithShares(vs[i], who, share)
  }

  /** Unlocks that gained entries at one epoch, and only there. */
  predicate Added(u: Unlocks, u': Unlocks, due: nat, entries: seq<Unlock>) {
    && EntriesAt(u', due) == EntriesAt(u, due) + entries
    && (forall e :: e in u.Keys + u'.Keys && e != due ==> e in u && e in u' && u'[e] == u[e])
  }

  /** The state after a sharing: every validator has its shares, they are due four epochs later, and they are all
      counted. */
  ghost predicate Distributed(s: State, r: State, who: seq<Option<string>>, share: nat) {
    && VaultsShared(s.econ.validators, r.econ.validators, who, share) && r.epoch == s.epoch
    && r.totals.burnOffset == s.totals.burnOffset + share * Rewarded(s.econ.validators, who)
    && Added(s.unlocks, r.unlocks, s.epoch + 4, SharesDue(s.econ.validators, who, share))
  }

  lemma {:induction false} CountsBounded(vs: seq<Validator>, who: seq<Option<string>>, id: string)
    ensures BlocksOf(who, id) <= |who| && Rewarded(vs, who) <= |who|
  {
    if who != [] {
      CountsBounded(vs, who[..|who| - 1], id);
    }
  }

  lemma ShareMore(share: nat, a: nat, b: nat)
    requires a <= b
    ensures share * a <= share * b && share * (a + 1) == share * a + share
  {}

  lemma RegisteredStays(vs: seq<Validator>, vs': seq<Validator>, who: seq<Option<string>>, share: nat, id: string)
    requires VaultsShared(vs, vs', who, share)
    ensures Registered(vs', id) <==> Registered(vs, id)
  {
    SameIdsRegistered(vs, vs', id);
  }

  /** One share, for a registered validator. */
  lemma OneShare(r: State, id: string, share: nat, i: nat)
    requires UniqueValidators(r.econ.validators) && i < |r.econ.validators| && r.econ.validators[i].id == id
    requires r.econ.validators[i].vault + share < U128_LIMIT
    requires r.econ.validators[i].locked <= r.econ.validators[i].vault
    requires r.totals.burnOffset + share < U128_LIMIT
    ensures var v, r' := r.econ.validators[i], OffsetOne(r, Some(id), share);
      && r'.econ.validators
         == r.econ.validators[i := v.(vault := v.vault + share, locked := v.locked + share)]
      && r'.totals.burnOffset == r.totals.burnOffset + share && r'.epoch == r.epoch
      && Added(r.unlocks, r'.unlocks, r.epoch + 4, if share > 0 then [Unlock(id, share)] else [])
  {
    assert Find(r.econ.validators, id).Some?;
    if share > 0 {
      LocksExactly(r.econ.validators, r.unlocks, r.epoch, id, share, i);
    }
  }

  lemma AddedMore(u: Unlocks, u1: Unlocks, u2: Unlocks, due: nat, a: seq<Unlock>, b: seq<Unlock>)
    requires Added(u, u1, due, a) && Added(u1, u2, due, b)
    ensures Added(u, u2, due, a + b)
  {
    forall e | e in u.Keys + u2.Keys && e != due
      ensures e in u && e in u2 && u2[e] == u[e]
    {
      assert e in u ==> e in u.Keys + u1.Keys;
      assert e in u2 ==> e in u1.Keys + u2.Keys;
      assert e in u1 ==> e in u.Keys + u1.Keys && e in u1.Keys + u2.Keys;
    }
  }

  lemma VaultsSharedMore(vs: seq<Validator>, vs1: seq<Validator>, who: seq<Option<string>>, share: nat, i: nat)
    requires UniqueValidators(vs) && VaultsShared(vs, vs1, who, share) && i < |vs|
    ensures VaultsShared(vs,
      vs1[i := vs1[i].(vault := vs1[i].vault + share, locked := vs1[i].locked + share)], who + [Some(vs[i].id)], share)
  {
    var who' := who + [Some(vs[i].id)];
    assert who'[..|who|] == who;
    ShareMore(share, BlocksOf(who, vs[i].id), |who| + BlocksOf(who, vs[i].id));
    forall j | 0 <= j < |vs|
      ensures BlocksOf(who', vs[j].id) == BlocksOf(who, vs[j].id) + (if j == i then 1 else 0)
      ensures vs1[j] == WithShares(vs[j], who, share)
    {}
  }

  /** One more block of a registered validator. */
  lemma ShareOneMore(s: State, r: State, who: seq<Option<string>>, share: nat, i: nat)
    requires UniqueValidators(s.econ.validators) && Distributed(s, r, who, share) && i < |s.econ.validators|
    requires ShareRoom(s, who + [Some(s.econ.validators[i].id)], share)
    ensures Distributed(s, OffsetOne(r, Some(s.econ.validators[i].id), share), who + [Some(s.econ.validators[i].id)],
      share)
  {
    var id := s.econ.validators[i].id;
    RoomForOne(s, r, who, share, i);
    OneShare(r, id, share, i);
    ShareJoined(s, r, OffsetOne(r, Some(id), share), who, share, i);
  }

  lemma ShareJoined(s: State, r: State, r': State, who: seq<Option<string>>, share: nat, i: nat)
    requires UniqueValidators(s.econ.validators) && Distributed(s, r, who, share) && i < |s.econ.validators|
    requires var v := r.econ.validators[i];
      r'.econ.validators == r.econ.validators[i := v.(vault := v.vault + share, locked := v.locked + share)]
    requires r'.totals.burnOffset == r.totals.burnOffset + share && r'.epoch == r.epoch
    requires Added(r.unlocks, r'.unlocks, r.epoch + 4,
      if share > 0 then [Unlock(s.econ.validators[i].id, share)] else [])
    ensures Distributed(s, r', who + [Some(s.econ.validators[i].id)], share)
  {
    var vs, id := s.econ.validators, s.econ.validators[i].id;
    assert (who + [Some(id)])[..|who|] == who;
    VaultsSharedMore(vs, r.econ.validators, who, share, i);
    ShareMore(share, Rewarded(vs, who), Rewarded(vs, who));
    AddedMore(s.unlocks, r.unlocks, r'.unlocks, s.epoch + 4, SharesDue(vs, who, share),
      if share > 0 then [Unlock(id, share)] else []);
  }

  lemma RoomForOne(s: State, r: State, who: seq<Option<string>>, share: nat, i: nat)
    requires UniqueValidators(s.econ.validators) && Distributed(s, r, who, share) && i < |s.econ.validators|
    requires ShareRoom(s, who + [Some(s.econ.validators[i].id)], share)
    ensures UniqueValidators(r.econ.validators) && r.econ.validators[i].id == s.econ.validators[i].id
    ensures r.econ.validators[i].vault + share < U128_LIMIT && r.econ.validators[i].locked <= r.econ.validators[i].vault
    ensures r.totals.burnOffset + share < U128_LIMIT
  {
    var vs, id := s.econ.validators, s.econ.validators[i].id;
    CountsBounded(vs, who, id);
    ShareMore(share, BlocksOf(who, id), |who|);
    ShareMore(share, Rewarded(vs, who), |who|);
    ShareMore(share, |who|, |who|);
    forall j | 0 <= j < |vs|
      ensures r.econ.validators[j].id == vs[j].id
    {
      assert r.econ.validators[j] == WithShares(vs[j], who, share);
    }
  }

  lemma ShareSkipped(s: State, r: State, who: seq<Option<string>>, share: nat, last: Option<string>)
    requires Distributed(s, r, who, share) && (last.None? || !Registered(s.econ.validators, last.value))
    ensures Distributed(s, OffsetOne(r, last, share), who + [last], share)
  {
    var vs := s.econ.validators;
    assert (who + [last])[..|who|] == who;
    forall i | 0 <= i < |vs|
      ensures WithShares(vs[i], who + [last], share) == WithShares(vs[i], who, share)
    {
      assert last != Some(vs[i].id);
    }
    if last.Some? {
      RegisteredStays(vs, r.econ.validators, who, share, last.value);
    }
  }

  /** The sharing of a burn offset: each registered proposer gets exactly one share per block, into vault and locked
      amount, due exactly four epochs later; nobody else gets anything, and the total counts all of it. */
  lemma {:induction false} SharesExactly(s: State, who: seq<Option<string>>, share: nat)
    requires UniqueValidators(s.econ.validators) && ShareRoom(s, who, share)
    ensures Distributed(s, OffsetAll(s, who, share), who, share)
  {
    if who != [] {
      var front, last := who[..|who| - 1], who[|who| - 1];
      assert who == front + [last];
      ShareMore(share, |front|, |who|);
      SharesExactly(s, front, share);
      var r := OffsetAll(s, front, share);
      if last.Some? && Registered(s.econ.validators, last.value) {
        var i :| 0 <= i < |s.econ.validators| && s.econ.validators[i].id == last.value;
        ShareOneMore(s, r, front, share, i);
      } else {
        ShareSkipped(s, r, front, share, last);
      }
    }
  }

  /** A sub-epoch closes with half of its burned fees shared over its produced blocks, and starts anew. */
  lemma SubEpochExactly(s: State)
    requires UniqueValidators(s.econ.validators) && ShareRoom(s, s.proposers, OffsetShare(s))
    requires 500 * s.totals.burnThisSubEpoch < U128_LIMIT
    ensures var r, n := CloseSubEpoch(s), Produced(s.proposers);
      var share := if n == 0 then 0 else s.totals.burnThisSubEpoch / 2 / n;
      && Distributed(s, r, s.proposers, share)
      && r.proposers == [] && r.totals == s.totals.(burnThisSubEpoch := 0, burnOffset := r.totals.burnOffset)
      && r.econ == s.econ.(validators := r.econ.validators)
  {
    ShareIs(s);
    SharesExactly(s, s.proposers, OffsetShare(s));
    OffsetAllFrame(s, s.proposers, OffsetShare(s));
    OffsetEcon(s, s.proposers, OffsetShare(s));
    if Produced(s.proposers) == 0 {
      NothingShared(s, s.proposers);
    }
  }

  lemma {:induction false} OffsetEcon(s: State, who: seq<Option<string>>, share: nat)
    ensures OffsetAll(s, who, share).econ == s.econ.(validators := OffsetAll(s, who, share).econ.validators)
  {
    if who != [] {
      OffsetEcon(s, who[..|who| - 1], share);
    }
  }

  lemma {:induction false} NothingShared(s: State, who: seq<Option<string>>)
    requires Produced(who) == 0
    ensures OffsetAll(s, who, 0) == s
  {
    if who != [] {
      NothingShared(s, who[..|who| - 1]);
    }
  }

  // ----- epochs -----

  /** Retirement kills exactly the tickets with the scheduled identifiers. */
  lemma {:induction false} KillsExactly(ts: seq<StakeTicket>, ids: seq<u64>, i: nat)
    requires TicketsOk(ts) && i < |ts|
    ensures |KillAll(ts, ids)| == |ts|
    ensures KillAll(ts, ids)[i]
      == if ts[i].id in ids then ts[i].(dead := true, muted := false, retiring := false, bucket := 0) else ts[i]
  {
    KillAllShape(ts, ids);
    if ids != [] {
      var front, id := ids[..|ids| - 1], ids[|ids| - 1];
      KillAllShape(ts, front);
      KillsExactly(ts, front, i);
      assert ids == front + [id];
      var mid := KillAll(ts, front);
      if FindTicket(mid, id).Some? {
        assert ts[FindTicket(mid, id).value].id == id;
      }
    }
  }

  /** The owners that are re-examined are exactly those of the killed tickets. */
  lemma {:induction false} OwnersExactly(ts: seq<StakeTicket>, ids: seq<u64>, owner: string)
    requires TicketsOk(ts)
    ensures owner in OwnersOf(ts, ids) <==> exists i :: 0 <= i < |ts| && ts[i].id in ids && ts[i].owner == owner
  {
    if ids != [] {
      var front, id := ids[..|ids| - 1], ids[|ids| - 1];
      OwnersExactly(ts, front, owner);
      assert ids == front + [id];
      if FindTicket(ts, id).Some? {
        assert ts[FindTicket(ts, id).value].id in ids;
      }
    }
  }

  lemma ActivationSettles(v: Validator, minimum: nat, live: bool)
    ensures Activation(v.(state := Activation(v, minimum, live)), minimum, live) == Activation(v, minimum, live)
  {}

  predicate SameNames(vs: seq<Validator>, vs': seq<Validator>) {
    |vs'| == |vs| && forall j :: 0 <= j < |vs| ==> vs'[j].id == vs[j].id
  }

  /** Deciding a validator again changes nothing. */
  lemma RefreshAgain(vs: seq<Validator>, mid: seq<Validator>, ts: seq<StakeTicket>, id: string, i: nat)
    requires UniqueValidators(vs) && SameNames(vs, mid) && i < |vs|
    requires mid[i] == vs[i] || mid[i] == vs[i].(state := Activation(vs[i], VaultMinimum(ts, vs[i].id),
      HasLive(ts, vs[i].id)))
    ensures SameNames(vs, Refresh(mid, ts, id))
    ensures Refresh(mid, ts, id)[i]
      == (if vs[i].id == id then vs[i].(state := Activation(vs[i], VaultMinimum(ts, id), HasLive(ts, id))) else mid[i])
  {
    ActivationSettles(vs[i], VaultMinimum(ts, vs[i].id), HasLive(ts, vs[i].id));
    if vs[i].id == id {
      assert Find(mid, id).Some?;
      assert vs[Find(mid, id).value].id == id;
    }
  }

  lemma {:induction false} RefreshesInto(vs: seq<Validator>, ts: seq<StakeTicket>, ids: seq<string>, i: nat)
    requires UniqueValidators(vs) && i < |vs|
    ensures SameNames(vs, RefreshAll(vs, ts, ids))
    ensures RefreshAll(vs, ts, ids)[i]
      == (if vs[i].id in ids
          then vs[i].(state := Activation(vs[i], VaultMinimum(ts, vs[i].id), HasLive(ts, vs[i].id))) else vs[i])
  {
    if ids != [] {
      var front, id := ids[..|ids| - 1], ids[|ids| - 1];
      RefreshesInto(vs, ts, front, i);
      assert ids == front + [id];
      RefreshAgain(vs, RefreshAll(vs, ts, front), ts, id, i);
    }
  }

  /** Refreshing several validators decides each of them once, and nobody else. */
  lemma RefreshesExactly(vs: seq<Validator>, ts: seq<StakeTicket>, ids: seq<string>, i: nat)
    requires UniqueValidators(vs) && i < |vs|
    ensures |RefreshAll(vs, ts, ids)| == |vs| && UniqueValidators(RefreshAll(vs, ts, ids))
    ensures |Refresh(vs, ts, vs[i].id)| == |vs|
    ensures RefreshAll(vs, ts, ids)[i] == if vs[i].id in ids then Refresh(vs, ts, vs[i].id)[i] else vs[i]
  {
    RefreshesInto(vs, ts, ids, i);
    RefreshAgain(vs, vs, ts, vs[i].id, i);
    NamesUnique(vs, RefreshAll(vs, ts, ids));
  }

  lemma NamesUnique(vs: seq<Validator>, vs': seq<Validator>)
    requires UniqueValidators(vs) && SameNames(vs, vs')
    ensures UniqueValidators(vs')
  {}

  /** Finalized retirements: the scheduled tickets are dead, exactly their owners are decided anew, and no money
      moves. */
  lemma FinalizesExactly(e: Econ, ids: seq<u64>, i: nat)
    requires TicketsOk(e.tickets) && UniqueValidators(e.validators) && i < |e.validators|
    ensures var e', ts := FinalizeRetire(e, ids), KillAll(e.tickets, ids);
      && e' == e.(tickets := ts, validators := e'.validators) && |e'.validators| == |e.validators|
      && e'.validators[i]
         == (if exists j :: 0 <= j < |e.tickets| && e.tickets[j].id in ids && e.tickets[j].owner == e.validators[i].id
             then Refresh(e.validators, ts, e.validators[i].id)[i] else e.validators[i])
  {
    RefreshesExactly(e.validators, KillAll(e.tickets, ids), OwnersOf(e.tickets, ids), i);
    OwnersExactly(e.tickets, ids, e.validators[i].id);
  }

  predicate CooldownOver(v: Validator, epoch: nat) {
    v.state == PunishedCooldown && v.cooldownUntil.Some? && v.cooldownUntil.value <= epoch
  }

  lemma {:induction false} CooldownIds(vs: seq<Validator>, ts: seq<StakeTicket>, epoch: nat, id: string)
    ensures id in EndCooldowns(vs, ts, epoch).1 <==>
      exists i :: 0 <= i < |vs| && vs[i].id == id && CooldownOver(vs[i], epoch) && vs[i].vault >= VaultMinimum(ts, id)
  {
    if vs != [] {
      var n := |vs| - 1;
      CooldownIds(vs[..n], ts, epoch, id);
    }
  }

  /** The end of an epoch ends every cooldown that is over: the validator is active if it has its minimum and a live
      ticket, inactive with its minimum alone, and paused below it. Nobody else changes. */
  lemma TransitionsExactly(e: Econ, epoch: nat, i: nat)
    requires UniqueValidators(e.validators) && i < |e.validators|
    ensures var e', v := EpochTransitions(e, epoch), e.validators[i];
      && e' == e.(validators := e'.validators) && |e'.validators| == |e.validators|
      && e'.validators[i]
         == (if !CooldownOver(v, epoch) then v
             else v.(cooldownUntil := None, state :=
               if v.vault < VaultMinimum(e.tickets, v.id) then PausedLowVault
               else if HasLive(e.tickets, v.id) then Active else Inactive))
  {
    var ended := EndCooldowns(e.validators, e.tickets, epoch);
    CooldownsShape(e.validators, e.tickets, epoch);
    CooldownIds(e.validators, e.tickets, epoch, e.validators[i].id);
    assert ended.0[i] == EndCooldown(e.validators[i], e.tickets, epoch);
    assert UniqueValidators(ended.0) by {
      forall a, b | 0 <= a < b < |ended.0|
        ensures ended.0[a].id != ended.0[b].id
      {
        assert ended.0[a].id == e.validators[a].id && ended.0[b].id == e.validators[b].id;
      }
    }
    RefreshesExactly(ended.0, e.tickets, ended.1, i);
    RefreshExactly(ended.0, e.tickets, e.validators[i].id, i);
  }

  /** The base reward: the supply times the yearly rate in parts per billion, over the slots of a year. */
  lemma BaseRewardIs(e: Econ, ppb: nat)
    requires Supply(e) * ppb < U128_LIMIT && Supply(e) < U128_LIMIT
    ensures BaseReward(e, ppb) == Supply(e) * ppb / 1_000_000_000 / 10_512_000
  {}

  /** What an epoch boundary counts and schedules: the next epoch begins, its unlocks and retirements are done, and
      every 365 epochs the rate decays by a tenth, not below 5,000,000, with a new base reward. */
  lemma EpochCounts(s: State)
    ensures var r, annual := CloseEpoch(s), (s.epoch + 1) % 365 == 0;
      && r.epoch == s.epoch + 1 && r.unlocks == s.unlocks - {s.epoch + 1} && r.retire == s.retire - {s.epoch + 1}
      && r.inflationPpb == (if !annual then s.inflationPpb
                            else if s.inflationPpb * 9 / 10 < 5_000_000 then 5_000_000 else s.inflationPpb * 9 / 10)
      && r.baseReward == (if annual then BaseReward(s.econ, r.inflationPpb) else s.baseReward)
      && r.totals == s.totals && r.proposers == s.proposers
      && r.econ.bank == s.econ.bank && r.econ.ticketBurned == s.econ.ticketBurned
  {}

  /** The money and the tickets after an epoch boundary: no vault changes, every validator's locked amount falls by
      exactly what was due to it, and exactly the scheduled tickets are dead. */
  lemma EpochExactly(s: State, initial: nat, i: nat)
    requires EconomyOk(s, initial) && i < |s.econ.validators|
    ensures var r, v, next := CloseEpoch(s), s.econ.validators[i], s.epoch + 1;
      && |r.econ.validators| == |s.econ.validators| && r.econ.validators[i].id == v.id
      && r.econ.validators[i].vault == v.vault
      && DueTo(EntriesAt(s.unlocks, next), v.id) <= v.locked
      && r.econ.validators[i].locked == v.locked - DueTo(EntriesAt(s.unlocks, next), v.id)
      && r.econ.tickets == (if next in s.retire then KillAll(s.econ.tickets, s.retire[next]) else s.econ.tickets)
  {
    var next := s.epoch + 1;
    UnlockKeepsEcon(s.econ, s.unlocks, s.epoch);
    UnlockedExactly(s, initial, i);
    var unlocked := s.econ.(validators := UnlockAll(s.econ.validators, EntriesAt(s.unlocks, next)));
    var retired := if next in s.retire then FinalizeRetire(unlocked, s.retire[next]) else unlocked;
    if next in s.retire {
      FinalizeMoney(unlocked, s.retire[next], i);
    }
    TransitionsExactly(retired, next, i);
  }

  lemma FinalizeMoney(e: Econ, ids: seq<u64>, i: nat)
    requires TicketsOk(e.tickets) && UniqueValidators(e.validators) && i < |e.validators|
    ensures var e' := FinalizeRetire(e, ids);
      && e'.tickets == KillAll(e.tickets, ids) && UniqueValidators(e'.validators)
      && |e'.validators| == |e.validators| && e'.validators[i] == e.validators[i].(state := e'.validators[i].state)
  {
    var ts := KillAll(e.tickets, ids);
    RefreshesExactly(e.validators, ts, OwnersOf(e.tickets, ids), i);
    RefreshExactly(e.validators, ts, e.validators[i].id, i);
  }

  lemma UnlockedExactly(s: State, initial: nat, i: nat)
    requires EconomyOk(s, initial) && i < |s.econ.validators|
    ensures var vs, v, due := UnlockAll(s.econ.validators, EntriesAt(s.unlocks, s.epoch + 1)), s.econ.validators[i],
        DueTo(EntriesAt(s.unlocks, s.epoch + 1), s.econ.validators[i].id);
      |vs| == |s.econ.validators| && due <= v.locked && vs[i] == v.(locked := v.locked - due)
  {
    var entries := EntriesAt(s.unlocks, s.epoch + 1);
    forall j | 0 <= j < |s.econ.validators|
      ensures DueTo(entries, s.econ.validators[j].id) <= s.econ.validators[j].locked
    {
      assert LockOk(s.econ.validators[j], s.unlocks);
      PendingRemove(s.unlocks, s.epoch + 1, s.econ.validators[j].id);
    }
    UnlockIsExact(s.econ.validators, entries, i);
  }

  /** When boundaries fall: every 1,200 slots a sub-epoch closes, and every 28,800 also an epoch. */
  lemma BoundariesExactly(s: State)
    ensures RunBoundaries(s)
      == if s.slot == 0 || s.slot % 1200 != 0 then s
         else if s.slot % 28800 != 0 then CloseSubEpoch(s)
         else CloseEpoch(CloseSubEpoch(s))
  {
    if s.slot % 28800 == 0 {
      Multiple(s.slot);
    }
  }

  lemma Multiple(n: nat)
    requires n % 28800 == 0
    ensures n % 1200 == 0
  {
    var q := n / 28800;
    assert n == 1200 * (24 * q);
  }

  // ----- blocks -----

  /** The best bootstrap transaction: ready, and no ready one matures earlier, or equally with a smaller hash; there
      is one exactly if any is ready. */
  lemma {:induction false} PbmExactly(pool: seq<Tx>, slot: nat, n: nat, j: nat)
    requires n <= |pool| && j < n
    ensures var r := SelectPbm(pool, slot, n);
      && (PbmReady(pool[j], slot) ==> r.Some?)
      && (r.Some? ==> PbmReady(pool[r.value], slot))
      && (r.Some? && PbmReady(pool[j], slot) ==>
            || pool[r.value].validAfter < pool[j].validAfter
            || (pool[r.value].validAfter == pool[j].validAfter
                && !ByteOrder.LexLess(TxHash(pool[j]).value, TxHash(pool[r.value]).value)))
  {
    if j < n - 1 {
      PbmExactly(pool, slot, n - 1, j);
      var best := SelectPbm(pool, slot, n - 1);
      if best.Some? && PbmReady(pool[j], slot) && PbmReady(pool[n - 1], slot) {
        ByteOrder.LexTransitive(TxHash(pool[j]).value, TxHash(pool[n - 1]).value, TxHash(pool[best.value]).value);
        ByteOrder.LexTrichotomy(TxHash(pool[j]).value, TxHash(pool[best.value]).value);
        ByteOrder.LexTrichotomy(TxHash(pool[n - 1]).value, TxHash(pool[best.value]).value);
        ByteOrder.LexTransitive(TxHash(pool[best.value]).value, TxHash(pool[j]).value, TxHash(pool[n - 1]).value);
      }
    } else if SelectPbm(pool, slot, n).Some? && PbmReady(pool[j], slot) {
      ByteOrder.LexTrichotomy(TxHash(pool[j]).value, TxHash(pool[j]).value);
      ByteOrder.LexTrichotomy(TxHash(pool[j]).value, TxHash(pool[SelectPbm(pool, slot, n).value]).value);
    }
  }

  /** What filling a block keeps within limits: at most 3,000 transactions and 16,000,000 gas, fees below 2^64. */
  predicate Limited(w: Work) {
    |w.included| <= 3000 && w.gas <= 16_000_000 && w.fees < U64_LIMIT
  }

  /** Gas and fees of a block are those of its transactions. */
  predicate Summed(w: Work) {
    w.gas == GasOf(w.included) && w.fees == FeesOf(w.included)
  }

  lemma {:induction false} SumsSnoc(txs: seq<Tx>, tx: Tx)
    ensures GasOf(txs + [tx]) == GasOf(txs) + tx.gas && FeesOf(txs + [tx]) == FeesOf(txs) + tx.fee
  {
    if txs != [] {
      SumsSnoc(txs[1..], tx);
      assert (txs + [tx])[1..] == txs[1..] + [tx];
    } else {
      assert [tx][1..] == [];
    }
  }

  /** One transaction at the head of the pool: it leaves the pool in any case, and is included exactly if it is for
      this chain and executes. */
  lemma TakesExactly(w: Work)
    requires w.pool != []
    ensures var r, tx := TakeOne(w), w.pool[0];
      && r.0.pool == w.pool[1..] && (r.1 <==> tx.chainId == 1162 && Exec(w.econ, tx).Executed?)
      && r.0.included == (if r.1 then w.included + [tx] else w.included)
      && (r.1 ==> r.0.econ == Exec(w.econ, tx).econ)
      && (Summed(w) ==> Summed(r.0))
  {
    SumsSnoc(w.included, w.pool[0]);
  }

  /** A filled block stays within its limits, its gas and fees are the sums over its transactions, all of which are
      for this chain and have matured, and filling stopped because the pool was empty, the next transaction has to
      wait or would not fit, or the producer stopped. */
  lemma {:induction false} FillsExactly(w: Work, slot: nat, halt: nat -> bool)
    requires Limited(w) && Summed(w) && forall tx :: tx in w.included ==> tx.chainId == 1162 && tx.validAfter <= slot
    ensures var r := Fill(w, slot, halt);
      && Limited(r) && Summed(r) && (forall tx :: tx in r.included ==> tx.chainId == 1162 && tx.validAfter <= slot)
      && w.included <= r.included
      && (r.pool == [] || halt(|r.included|) || |r.included| == 3000
          || (r.pool[0].chainId == 1162
              && (r.pool[0].validAfter > slot || r.gas + r.pool[0].gas > 16_000_000
                  || r.fees + r.pool[0].fee >= U64_LIMIT)))
    decreases |w.pool|
  {
    if w.pool != [] && !Blocks(w, slot) {
      var taken := TakeOne(w);
      TakesExactly(w);
      if !(taken.1 && halt(|taken.0.included|)) {
        FillsExactly(taken.0, slot, halt);
      }
    }
  }

  /** What kind of block a slot gets: a bootstrap block without eligible tickets, the node's own block if it is the
      leader, and otherwise a missed slot that changes nothing. */
  lemma BlockKinds(s: State, parent: Hash, halt: nat -> bool)
    ensures var r := MakeBlock(s, parent, halt);
      && (r.1.kind == NoTickets <==> EligibleTickets(s.econ) == [])
      && (r.1.kind == ValidatorMade <==> EligibleTickets(s.econ) != [] && s.local == Some(s.leader))
      && (r.1.kind == Missed ==> r.0 == s && r.1.missed == Some(s.leader) && r.1.transactions == [])
      && (r.1.kind == ValidatorMade ==> r.1.proposer == Some(s.leader) && r.1.ticket == s.ticket)
      && (r.1.kind != ValidatorMade ==> r.1.proposer == None && r.1.ticket == 0)
      && r.1.slot == s.slot && r.1.parent == parent
  {}

  /** A block of one's own carries the filled transactions with their gas and fees, which are burned. */
  lemma OwnBlock(s: State, parent: Hash, halt: nat -> bool)
    requires EligibleTickets(s.econ) != [] && s.local == Some(s.leader)
    ensures var r, w := MakeBlock(s, parent, halt), Fill(Work(s.econ, s.mempool, 0, 0, [], 0), s.slot, halt);
      && r.1.transactions == w.included && r.1.gas == GasOf(w.included) && r.1.fees == FeesOf(w.included)
      && |w.included| <= 3000 && r.1.gas <= 16_000_000 && r.0.mempool == w.pool
      && (s.totals.feesBurned + r.1.fees < U128_LIMIT ==> r.0.totals.feesBurned == s.totals.feesBurned + r.1.fees)
  {
    FillsExactly(Work(s.econ, s.mempool, 0, 0, [], 0), s.slot, halt);
  }

  // ----- submissions -----

  /** Where a submission goes: with eligible tickets, any that encodes joins the mempool, ready at once; without, only
      a registration, deposit or purchase that encodes, from a sender with fewer than three waiting, joins the
      bootstrap pool, to mature twenty slots later plus one for each of those. */
  lemma SubmitsExactly(s: State, tx: Tx)
    requires s.slot + 20 + |s.pbmPool| < U64_LIMIT
    ensures var r, waiting := Enqueue(s, tx), PendingFrom(s.pbmPool, tx.from);
      if EligibleTickets(s.econ) != [] then
        r == (if TxHash(tx.(validAfter := 0)).None? then s else s.(mempool := s.mempool + [tx.(validAfter := 0)]))
      else
        && waiting <= |s.pbmPool|
        && var queued := tx.(validAfter := s.slot + 20 + waiting);
        r == (if (tx.kind == RegisterValidator || tx.kind == WalletToVault || tx.kind == BuyTicket) && waiting < 3
                && TxHash(queued).Some? then s.(pbmPool := s.pbmPool + [queued]) else s)
  {
    PendingBounded(s.pbmPool, tx.from);
  }

  lemma {:induction false} PendingBounded(pool: seq<Tx>, from: string)
    ensures PendingFrom(pool, from) <= |pool|
  {
    if pool != [] {
      PendingBounded(pool[1..], from);
    }
  }
}
