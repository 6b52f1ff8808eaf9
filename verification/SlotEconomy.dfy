/** The slot engine's economy: balances, validator vaults, tickets, locked rewards and transactions
    (src/app/accounts.rs, src/app/consensus.rs). */
module SlotEconomy {
  import opened Base
  import opened Sums

  const ETX: u64 := 0
  const TICKET_COST: nat := 10_000_000_000_000
  const INITIAL_VAULT: nat := 500_000_000_000_000
  const REWARD_UNLOCK_DELAY: nat := 4
  const CHAIN_ID: u64 := 1162
  const MAX_BLOCK_TRANSACTIONS: nat := 3000
  const MAX_BLOCK_GAS: nat := 16_000_000

  /** `saturating_add` on 128 bits. */
  function Saturate(n: nat): nat {
    if n < U128_LIMIT then n else U128_LIMIT - 1
  }

  // ----- balances -----

  datatype Coin = Coin(account: string, token: u64)

  type Bank = map<Coin, nat>

  /** Unchecked 128-bit addition, which wraps around. */
  function Credit(b: Bank, c: Coin, amount: nat): Bank {
    b[c := (Lookup(b, c) + amount) % U128_LIMIT]
  }

  function Debit(b: Bank, c: Coin, amount: nat): (Bank, bool) {
    if Lookup(b, c) < amount then (b[c := Lookup(b, c)], false) else (b[c := Lookup(b, c) - amount], true)
  }

  /** An absent balance cannot even pay zero. */
  predicate CanPay(b: Bank, c: Coin, amount: nat) {
    c in b && b[c] >= amount
  }

  ghost function HeldMap(b: Bank, token: u64): map<Coin, nat> {
    map c | c in b && c.token == token :: b[c]
  }

  /** Everything held of one token in accounts. */
  ghost function Held(b: Bank, token: u64): nat {
    MapSum(HeldMap(b, token))
  }

  lemma HeldUpdate(b: Bank, c: Coin, v: nat, token: u64)
    ensures Held(b[c := v], token)
      == Held(b, token) - (if c.token == token then Lookup(b, c) else 0) + (if c.token == token then v else 0)
    ensures c.token == token ==> Lookup(b, c) <= Held(b, token)
  {
    if c.token == token {
      assert HeldMap(b[c := v], token) == HeldMap(b, token)[c := v];
      MapSumUpdate(HeldMap(b, token), c, v);
      assert Lookup(HeldMap(b, token), c) == Lookup(b, c);
    } else {
      assert HeldMap(b[c := v], token) == HeldMap(b, token);
    }
  }

  /** A credit that fits raises only its own token. */
  lemma CreditHolds(b: Bank, c: Coin, amount: nat, token: u64)
    requires Held(b, c.token) + amount < U128_LIMIT
    ensures Held(Credit(b, c, amount), token) == Held(b, token) + (if c.token == token then amount else 0)
    ensures Lookup(Credit(b, c, amount), c) == Lookup(b, c) + amount
  {
    HeldUpdate(b, c, 0, c.token);
    HeldUpdate(b, c, Lookup(b, c) + amount, token);
  }

  lemma DebitHolds(b: Bank, c: Coin, amount: nat, token: u64)
    requires amount <= Lookup(b, c)
    ensures Debit(b, c, amount).1
    ensures Held(Debit(b, c, amount).0, token) == Held(b, token) - (if c.token == token then amount else 0)
  {
    HeldUpdate(b, c, Lookup(b, c) - amount, token);
  }

  // ----- validators and tickets -----

  datatype ValidatorState = Active | PausedLowVault | PunishedCooldown | Inactive | Jailed

  datatype Validator = Validator(
    id: string, owner: Option<string>, pubkey: Option<string>, state: ValidatorState, vault: nat, locked: nat,
    misses: nat, cooldownUntil: Option<nat>)

  datatype StakeTicket = StakeTicket(id: u64, owner: string, bucket: byte, muted: bool, dead: bool, retiring: bool) {
    predicate Live() {
      !dead && !muted && !retiring
    }
  }

  function VaultSum(vs: seq<Validator>): nat {
    if vs == [] then 0 else VaultSum(vs[..|vs| - 1]) + vs[|vs| - 1].vault
  }

  lemma {:induction false} VaultSumUpdate(vs: seq<Validator>, i: nat, v: Validator)
    requires i < |vs|
    ensures VaultSum(vs[i := v]) == VaultSum(vs) - vs[i].vault + v.vault
    ensures vs[i].vault <= VaultSum(vs)
    decreases |vs|
  {
    var n := |vs| - 1;
    if i < n {
      VaultSumUpdate(vs[..n], i, v);
      assert vs[i := v][..n] == vs[..n][i := v];
    } else {
      assert vs[i := v][..n] == vs[..n];
    }
  }

  lemma VaultSumSnoc(vs: seq<Validator>, v: Validator)
    ensures VaultSum(vs + [v]) == VaultSum(vs) + v.vault
  {
    assert (vs + [v])[..|vs|] == vs;
  }

  ghost predicate UniqueValidators(vs: seq<Validator>) {
    forall i, j :: 0 <= i < j < |vs| ==> vs[i].id != vs[j].id
  }

  /** The first validator with an identifier. */
  function Find(vs: seq<Validator>, id: string): (r: Option<nat>)
    ensures r.Some? ==> r.value < |vs| && vs[r.value].id == id && forall i :: 0 <= i < r.value ==> vs[i].id != id
    ensures r.None? ==> forall i :: 0 <= i < |vs| ==> vs[i].id != id
  {
    if vs == [] then None
    else
      var earlier := Find(vs[..|vs| - 1], id);
      if earlier.Some? then earlier else if vs[|vs| - 1].id == id then Some(|vs| - 1) else None
  }

  /** Tickets that still count towards the vault minimum. */
  function TicketCount(ts: seq<StakeTicket>, owner: string): nat {
    if ts == [] then 0
    else TicketCount(ts[..|ts| - 1], owner) + (if ts[|ts| - 1].owner == owner && !ts[|ts| - 1].dead then 1 else 0)
  }

  /** Base backing plus half a ticket per ticket; nothing without tickets. */
  function VaultMinimum(ts: seq<StakeTicket>, owner: string): nat {
    if TicketCount(ts, owner) == 0 then 0
    else Saturate(TICKET_COST * 5 + Saturate(TICKET_COST / 2 * TicketCount(ts, owner)))
  }

  predicate HasLive(ts: seq<StakeTicket>, owner: string) {
    exists i :: 0 <= i < |ts| && ts[i].owner == owner && ts[i].Live()
  }

  /** The activation rule: jailed and cooling validators stay as they are. */
  function Activation(v: Validator, minimum: nat, live: bool): ValidatorState {
    if v.state == Jailed || v.state == PunishedCooldown then v.state
    else if v.vault < minimum then (if v.state == Active then PausedLowVault else v.state)
    else if live then Active
    else if v.state == Active then Inactive
    else v.state
  }

  function Refresh(vs: seq<Validator>, ts: seq<StakeTicket>, id: string): seq<Validator> {
    match Find(vs, id)
    case None => vs
    case Some(i) => vs[i := vs[i].(state := Activation(vs[i], VaultMinimum(ts, id), HasLive(ts, id)))]
  }

  /** An active validator is backed and owns a ticket that is not dead, muted or retiring. */
  predicate Backed(v: Validator, ts: seq<StakeTicket>) {
    v.state == Active ==> v.vault >= VaultMinimum(ts, v.id) && HasLive(ts, v.id)
  }

  ghost predicate AllBacked(vs: seq<Validator>, ts: seq<StakeTicket>) {
    forall i :: 0 <= i < |vs| ==> Backed(vs[i], ts)
  }

  /** Everyone is backed, except that the validators in a set are not known to be. */
  ghost predicate BackedExcept(vs: seq<Validator>, ts: seq<StakeTicket>, open: set<string>) {
    forall i :: 0 <= i < |vs| && vs[i].id !in open ==> Backed(vs[i], ts)
  }

  lemma RefreshBacks(vs: seq<Validator>, ts: seq<StakeTicket>, id: string, open: set<string>)
    requires UniqueValidators(vs) && BackedExcept(vs, ts, open)
    ensures BackedExcept(Refresh(vs, ts, id), ts, open - {id})
    ensures SameValidators(vs, Refresh(vs, ts, id))
  {
    var vs' := Refresh(vs, ts, id);
    forall i | 0 <= i < |vs'| && vs'[i].id !in open - {id}
      ensures Backed(vs'[i], ts)
    {
      if vs[i].id != id {
        assert Backed(vs[i], ts);
      }
    }
  }

  /** Two registries with the same identities and the same money, only activation may differ. */
  ghost predicate SameValidators(vs: seq<Validator>, vs': seq<Validator>) {
    |vs| == |vs'| && forall i :: 0 <= i < |vs| ==> SameMoney(vs[i], vs'[i])
  }

  predicate SameMoney(v: Validator, v': Validator) {
    v'.id == v.id && v'.vault == v.vault && v'.locked == v.locked && v'.owner == v.owner
  }

  lemma {:induction false} SameVaultSum(vs: seq<Validator>, vs': seq<Validator>)
    requires SameValidators(vs, vs')
    ensures VaultSum(vs) == VaultSum(vs')
  {
    if vs != [] {
      var n := |vs| - 1;
      assert SameMoney(vs[n], vs'[n]);
      assert SameValidators(vs[..n], vs'[..n]) by {
        forall i | 0 <= i < n
          ensures SameMoney(vs[..n][i], vs'[..n][i])
        {
          assert SameMoney(vs[i], vs'[i]);
        }
      }
      SameVaultSum(vs[..n], vs'[..n]);
    }
  }

  /** Other owners' tickets do not matter to a validator. */
  lemma {:induction false} TicketCountAppend(ts: seq<StakeTicket>, t: StakeTicket, owner: string)
    requires t.owner != owner
    ensures TicketCount(ts + [t], owner) == TicketCount(ts, owner)
    ensures HasLive(ts + [t], owner) <==> HasLive(ts, owner)
  {
    assert (ts + [t])[..|ts|] == ts;
    if HasLive(ts + [t], owner) {
      var i :| 0 <= i < |ts + [t]| && (ts + [t])[i].owner == owner && (ts + [t])[i].Live();
      assert ts[i].Live();
    }
    if HasLive(ts, owner) {
      var i :| 0 <= i < |ts| && ts[i].owner == owner && ts[i].Live();
      assert (ts + [t])[i].Live();
    }
  }

  lemma {:induction false} TicketCountUpdate(ts: seq<StakeTicket>, j: nat, t: StakeTicket, owner: string)
    requires j < |ts| && ts[j].owner == t.owner != owner
    ensures TicketCount(ts[j := t], owner) == TicketCount(ts, owner)
    decreases |ts|
  {
    var n := |ts| - 1;
    if j < n {
      TicketCountUpdate(ts[..n], j, t, owner);
      assert ts[j := t][..n] == ts[..n][j := t];
    } else {
      assert ts[j := t][..n] == ts[..n];
    }
  }

  lemma LiveUpdate(ts: seq<StakeTicket>, j: nat, t: StakeTicket, owner: string)
    requires j < |ts| && ts[j].owner == t.owner != owner
    ensures HasLive(ts[j := t], owner) <==> HasLive(ts, owner)
  {
    if HasLive(ts, owner) {
      var i :| 0 <= i < |ts| && ts[i].owner == owner && ts[i].Live();
      assert ts[j := t][i].Live();
    }
    if HasLive(ts[j := t], owner) {
      var i :| 0 <= i < |ts| && ts[j := t][i].owner == owner && ts[j := t][i].Live();
      assert ts[i].Live();
    }
  }

  // ----- minting tickets -----

  function MaxId(ts: seq<StakeTicket>): (m: nat)
    ensures m < U64_LIMIT
    ensures forall i :: 0 <= i < |ts| ==> ts[i].id <= m
  {
    if ts == [] then 0
    else
      var m := MaxId(ts[..|ts| - 1]);
      if ts[|ts| - 1].id > m then ts[|ts| - 1].id else m
  }

  /** The next identifier saturates at the top of 64 bits; buckets 0 and 1 are reserved. */
  function MintOne(ts: seq<StakeTicket>, owner: string): seq<StakeTicket> {
    var id := if MaxId(ts) + 1 < U64_LIMIT then MaxId(ts) + 1 else U64_LIMIT - 1;
    ts + [StakeTicket(id, owner, id % 254 + 2, false, false, false)]
  }

  function Mint(ts: seq<StakeTicket>, owner: string, count: nat): (r: seq<StakeTicket>)
    ensures |r| == |ts| + count && ts <= r
  {
    if count == 0 then ts else MintOne(Mint(ts, owner, count - 1), owner)
  }

  /** The loop that mints tickets one by one. */
  method MintTickets(ts: seq<StakeTicket>, owner: string, count: nat) returns (r: seq<StakeTicket>)
    ensures r == Mint(ts, owner, count)
  {
    r := ts;
    for i := 0 to count
      invariant r == Mint(ts, owner, i)
    {
      r := MintOne(r, owner);
    }
  }

  /** What the engine keeps about tickets: identifiers are unique; a ticket that may be drawn sits in an
      active bucket; a retiring ticket is muted. */
  predicate TicketOk(t: StakeTicket) {
    (!t.dead && !t.muted ==> t.bucket >= 2) && (t.retiring ==> t.muted)
  }

  ghost predicate TicketsOk(ts: seq<StakeTicket>) {
    (forall i :: 0 <= i < |ts| ==> TicketOk(ts[i])) && UniqueTickets(ts)
  }

  ghost predicate UniqueTickets(ts: seq<StakeTicket>) {
    forall i, j :: 0 <= i < j < |ts| ==> ts[i].id != ts[j].id
  }

  // ----- how long identifiers last -----

  lemma {:induction false} MaxIdIsTaken(ts: seq<StakeTicket>)
    requires ts != []
    ensures exists i :: 0 <= i < |ts| && ts[i].id == MaxId(ts)
  {
    var n := |ts| - 1;
    if ts[n].id != MaxId(ts) {
      if n > 0 {
        MaxIdIsTaken(ts[..n]);
        var i :| 0 <= i < n && ts[..n][i].id == MaxId(ts[..n]);
        assert ts[i].id == MaxId(ts);
      }
    } else {
      assert ts[n].id == MaxId(ts);
    }
  }

  lemma MaxIdIs(ts: seq<StakeTicket>, i: nat)
    requires i < |ts| && forall j :: 0 <= j < |ts| ==> ts[j].id <= ts[i].id
    ensures MaxId(ts) == ts[i].id
  {
    MaxIdIsTaken(ts);
  }

  /** The k-th identifier after a highest one; it stops at the top of 64 bits. */
  function NthId(highest: nat, k: nat): nat {
    if highest + k < U64_LIMIT then highest + k else U64_LIMIT - 1
  }

  /** Later tickets: the old ones keep their identifiers, and each new one counts up from the highest. */
  ghost predicate Minted(ts: seq<StakeTicket>, ts': seq<StakeTicket>) {
    && |ts| <= |ts'|
    && (forall i :: 0 <= i < |ts| ==> ts'[i].id == ts[i].id)
    && forall i :: |ts| <= i < |ts'| ==> ts'[i].id == NthId(MaxId(ts), i - |ts| + 1)
  }

  /** The identifiers after the highest one last until there are n tickets. */
  predicate IdsLast(ts: seq<StakeTicket>, n: nat) {
    n <= |ts| || MaxId(ts) + (n - |ts|) < U64_LIMIT
  }

  lemma MintedMax(ts: seq<StakeTicket>, ts': seq<StakeTicket>)
    requires Minted(ts, ts')
    ensures MaxId(ts') == NthId(MaxId(ts), |ts'| - |ts|)
  {
    if |ts| < |ts'| {
      MaxIdIs(ts', |ts'| - 1);
    } else if ts != [] {
      MaxIdIsTaken(ts);
      var i :| 0 <= i < |ts| && ts[i].id == MaxId(ts);
      MaxIdIs(ts', i);
    }
  }

  lemma MintedTransitive(a: seq<StakeTicket>, b: seq<StakeTicket>, c: seq<StakeTicket>)
    requires Minted(a, b) && Minted(b, c)
    ensures Minted(a, c)
  {
    MintedMax(a, b);
    forall i | |a| <= i < |c|
      ensures c[i].id == NthId(MaxId(a), i - |a| + 1)
    {
      if i < |b| {
        assert c[i].id == b[i].id;
      }
    }
  }

  /** Identifiers that last for all later tickets last for those in between, and from there on. */
  lemma IdsLastSplit(a: seq<StakeTicket>, b: seq<StakeTicket>, n: nat)
    requires Minted(a, b) && |b| <= n && IdsLast(a, n)
    ensures IdsLast(a, |b|) && IdsLast(b, n)
  {
    MintedMax(a, b);
  }

  /** Later tickets have unique identifiers exactly if the old ones had and the identifiers last for all. */
  lemma MintedUnique(ts: seq<StakeTicket>, ts': seq<StakeTicket>)
    requires Minted(ts, ts')
    ensures UniqueTickets(ts') <==> UniqueTickets(ts) && IdsLast(ts, |ts'|)
  {
    var n, n' := |ts|, |ts'|;
    if UniqueTickets(ts') {
      forall i, j | 0 <= i < j < n
        ensures ts[i].id != ts[j].id
      {
        assert ts'[i].id != ts'[j].id;
      }
    }
    if UniqueTickets(ts) && IdsLast(ts, n') {
      forall i, j | 0 <= i < j < n'
        ensures ts'[i].id != ts'[j].id
      {
        assert i < n ==> ts'[i].id == ts[i].id <= MaxId(ts);
      }
    } else if !IdsLast(ts, n') && n' == n + 1 {
      MaxIdIsTaken(ts);
      var i :| 0 <= i < n && ts[i].id == MaxId(ts);
      assert ts'[i].id == ts'[n].id;
    } else if !IdsLast(ts, n') {
      assert ts'[n' - 2].id == ts'[n' - 1].id;
    }
  }

  lemma {:induction false} MintIsMinted(ts: seq<StakeTicket>, owner: string, count: nat)
    ensures Minted(ts, Mint(ts, owner, count))
  {
    if count > 0 {
      MintIsMinted(ts, owner, count - 1);
      MintedMax(ts, Mint(ts, owner, count - 1));
    }
  }

  /** Identifiers are unique after a purchase exactly if they were before and the highest one leaves room for
      all of the new tickets. */
  lemma PurchaseIsUniqueBelowTop(ts: seq<StakeTicket>, owner: string, count: nat)
    ensures UniqueTickets(Mint(ts, owner, count))
      <==> UniqueTickets(ts) && (count == 0 || MaxId(ts) + count < U64_LIMIT)
  {
    MintIsMinted(ts, owner, count);
    MintedUnique(ts, Mint(ts, owner, count));
  }

  lemma {:induction false} MintedRules(ts: seq<StakeTicket>, owner: string, count: nat)
    requires forall i :: 0 <= i < |ts| ==> TicketOk(ts[i])
    ensures forall i :: 0 <= i < |Mint(ts, owner, count)| ==> TicketOk(Mint(ts, owner, count)[i])
  {
    if count > 0 {
      MintedRules(ts, owner, count - 1);
    }
  }

  /** A purchase keeps the ticket rules, unique identifiers included, exactly if the identifiers last. */
  lemma MintKeepsTickets(ts: seq<StakeTicket>, owner: string, count: nat)
    requires TicketsOk(ts)
    ensures TicketsOk(Mint(ts, owner, count)) <==> IdsLast(ts, |ts| + count)
  {
    MintIsMinted(ts, owner, count);
    MintedUnique(ts, Mint(ts, owner, count));
    MintedRules(ts, owner, count);
  }

  /** A ticket list at the top of 64 bits whose next mint repeats an identifier. */
  lemma MintRepeatsSometimes() returns (ts: seq<StakeTicket>)
    ensures UniqueTickets(ts) && TicketsOk(ts) && !UniqueTickets(Mint(ts, "v", 1))
  {
    ts := [StakeTicket(U64_LIMIT - 1, "v", 2, false, false, false)];
    MaxIdIs(ts, 0);
    PurchaseIsUniqueBelowTop(ts, "v", 1);
  }

  lemma {:induction false} MintForOthers(ts: seq<StakeTicket>, owner: string, count: nat, other: string)
    requires owner != other
    ensures TicketCount(Mint(ts, owner, count), other) == TicketCount(ts, other)
    ensures HasLive(Mint(ts, owner, count), other) <==> HasLive(ts, other)
  {
    if count > 0 {
      var m := Mint(ts, owner, count - 1);
      MintForOthers(ts, owner, count - 1, other);
      TicketCountAppend(m, MintOne(m, owner)[|m|], other);
    }
  }

  // ----- locked rewards -----

  datatype Unlock = Unlock(id: string, amount: nat)

  type Unlocks = map<nat, seq<Unlock>>

  function DueTo(entries: seq<Unlock>, id: string): nat {
    if entries == [] then 0
    else
      var last := entries[|entries| - 1];
      DueTo(entries[..|entries| - 1], id) + (if last.id == id then last.amount else 0)
  }

  ghost function DueMap(u: Unlocks, id: string): map<nat, nat> {
    map e | e in u :: DueTo(u[e], id)
  }

  /** Everything still locked for a validator, over all pending unlock epochs. */
  ghost function Pending(u: Unlocks, id: string): nat {
    MapSum(DueMap(u, id))
  }

  function EntriesAt(u: Unlocks, epoch: nat): seq<Unlock> {
    if epoch in u then u[epoch] else []
  }

  lemma PendingUpdate(u: Unlocks, epoch: nat, entries: seq<Unlock>, id: string)
    ensures Pending(u[epoch := entries], id) == Pending(u, id) - DueTo(EntriesAt(u, epoch), id) + DueTo(entries, id)
    ensures DueTo(EntriesAt(u, epoch), id) <= Pending(u, id)
  {
    assert DueMap(u[epoch := entries], id) == DueMap(u, id)[epoch := DueTo(entries, id)];
    MapSumUpdate(DueMap(u, id), epoch, DueTo(entries, id));
  }

  lemma PendingRemove(u: Unlocks, epoch: nat, id: string)
    ensures Pending(u - {epoch}, id) == Pending(u, id) - DueTo(EntriesAt(u, epoch), id)
    ensures DueTo(EntriesAt(u, epoch), id) <= Pending(u, id)
  {
    if epoch in u {
      assert DueMap(u - {epoch}, id) == DueMap(u, id) - {epoch};
      MapSumRemove(DueMap(u, id), epoch);
    } else {
      assert u - {epoch} == u;
    }
  }

  /** A validator's locked amount is exactly what is pending for it, and never more than its vault. */
  ghost predicate LockOk(v: Validator, u: Unlocks) {
    v.locked == Pending(u, v.id) && v.locked <= v.vault
  }

  ghost predicate LocksOk(vs: seq<Validator>, u: Unlocks) {
    forall i :: 0 <= i < |vs| ==> LockOk(vs[i], u)
  }

  /** All pending unlocks lie after the current epoch and at most four epochs ahead. */
  predicate EpochsOk(u: Unlocks, epoch: nat) {
    forall e :: e in u ==> epoch < e <= epoch + REWARD_UNLOCK_DELAY
  }

  /** `lock_validator_reward`. */
  function LockReward(vs: seq<Validator>, u: Unlocks, epoch: nat, id: string, amount: nat): (seq<Validator>, Unlocks) {
    if amount == 0 then (vs, u)
    else match Find(vs, id)
      case None => (vs, u)
      case Some(i) =>
        var due := epoch + REWARD_UNLOCK_DELAY;
        (vs[i := vs[i].(vault := Saturate(vs[i].vault + amount), locked := Saturate(vs[i].locked + amount))],
         u[due := EntriesAt(u, due) + [Unlock(id, amount)]])
  }

  predicate Registered(vs: seq<Validator>, id: string) {
    exists i :: 0 <= i < |vs| && vs[i].id == id
  }

  /** Nothing is pending for an identifier that is not registered. */
  ghost predicate NoStray(vs: seq<Validator>, u: Unlocks, id: string) {
    Registered(vs, id) || Pending(u, id) == 0
  }

  ghost predicate NoStrays(vs: seq<Validator>, u: Unlocks) {
    forall id: string :: NoStray(vs, u, id)
  }

  /** What a pair of registry and unlocks keeps. */
  ghost predicate RewardsOk(vs: seq<Validator>, u: Unlocks, epoch: nat) {
    UniqueValidators(vs) && LocksOk(vs, u) && NoStrays(vs, u) && EpochsOk(u, epoch)
  }

  lemma SameIdsRegistered(vs: seq<Validator>, vs': seq<Validator>, id: string)
    requires |vs| == |vs'| && forall i :: 0 <= i < |vs| ==> vs'[i].id == vs[i].id
    ensures Registered(vs', id) <==> Registered(vs, id)
  {
    if Registered(vs, id) {
      var i :| 0 <= i < |vs| && vs[i].id == id;
      assert vs'[i].id == id;
    }
    if Registered(vs', id) {
      var i :| 0 <= i < |vs'| && vs'[i].id == id;
      assert vs[i].id == id;
    }
  }

  lemma DueToSnoc(entries: seq<Unlock>, x: Unlock, id: string)
    ensures DueTo(entries + [x], id) == DueTo(entries, id) + (if x.id == id then x.amount else 0)
  {
    assert (entries + [x])[..|entries|] == entries;
  }

  /** Locking a reward that fits raises the vaults by exactly the reward and keeps the books. */
  lemma LockRewardKeeps(vs: seq<Validator>, u: Unlocks, epoch: nat, id: string, amount: nat)
    requires RewardsOk(vs, u, epoch) && VaultSum(vs) + amount < U128_LIMIT
    ensures var (vs', u') := LockReward(vs, u, epoch, id, amount);
      && RewardsOk(vs', u', epoch)
      && VaultSum(vs') == VaultSum(vs) + (if Find(vs, id).Some? then amount else 0)
  {
    if amount > 0 && Find(vs, id).Some? {
      LockedSum(vs, u, epoch, id, amount);
      LockedBooks(vs, u, epoch, id, amount);
      LockedStrays(vs, u, epoch, id, amount);
      LockedDates(vs, u, epoch, id, amount);
    }
  }

  /** Locking keeps the identities apart and adds only the epoch four ahead. */
  lemma LockedDates(vs: seq<Validator>, u: Unlocks, epoch: nat, id: string, amount: nat)
    requires UniqueValidators(vs) && EpochsOk(u, epoch)
    ensures UniqueValidators(LockReward(vs, u, epoch, id, amount).0)
    ensures EpochsOk(LockReward(vs, u, epoch, id, amount).1, epoch)
  {
    LockedIds(vs, u, epoch, id, amount);
  }

  /** Locking changes no identity. */
  lemma LockedIds(vs: seq<Validator>, u: Unlocks, epoch: nat, id: string, amount: nat)
    ensures var vs' := LockReward(vs, u, epoch, id, amount).0;
      |vs'| == |vs| && forall j :: 0 <= j < |vs| ==> vs'[j].id == vs[j].id
  {}

  lemma LockedSum(vs: seq<Validator>, u: Unlocks, epoch: nat, id: string, amount: nat)
    requires amount > 0 && Find(vs, id).Some? && VaultSum(vs) + amount < U128_LIMIT
    ensures VaultSum(LockReward(vs, u, epoch, id, amount).0) == VaultSum(vs) + amount
  {
    var i := Find(vs, id).value;
    VaultSumUpdate(vs, i, LockReward(vs, u, epoch, id, amount).0[i]);
  }

  lemma LockedBooks(vs: seq<Validator>, u: Unlocks, epoch: nat, id: string, amount: nat)
    requires UniqueValidators(vs) && LocksOk(vs, u) && VaultSum(vs) + amount < U128_LIMIT
    requires amount > 0 && Find(vs, id).Some?
    ensures LocksOk(LockReward(vs, u, epoch, id, amount).0, LockReward(vs, u, epoch, id, amount).1)
  {
    var locked := LockReward(vs, u, epoch, id, amount);
    LockedIds(vs, u, epoch, id, amount);
    forall j | 0 <= j < |locked.0|
      ensures LockOk(locked.0[j], locked.1)
    {
      LockedAt(vs, u, epoch, id, amount, j);
    }
  }

  lemma LockedStrays(vs: seq<Validator>, u: Unlocks, epoch: nat, id: string, amount: nat)
    requires NoStrays(vs, u) && amount > 0 && Find(vs, id).Some?
    ensures NoStrays(LockReward(vs, u, epoch, id, amount).0, LockReward(vs, u, epoch, id, amount).1)
  {
    var locked := LockReward(vs, u, epoch, id, amount);
    LockedIds(vs, u, epoch, id, amount);
    forall other: string
      ensures NoStray(locked.0, locked.1, other)
    {
      LockedStray(vs, u, epoch, id, amount, other);
    }
  }

  lemma LockedStray(vs: seq<Validator>, u: Unlocks, epoch: nat, id: string, amount: nat, other: string)
    requires NoStrays(vs, u) && amount > 0 && Find(vs, id).Some?
    ensures NoStray(LockReward(vs, u, epoch, id, amount).0, LockReward(vs, u, epoch, id, amount).1, other)
  {
    assert NoStray(vs, u, other);
    LockedIds(vs, u, epoch, id, amount);
    SameIdsRegistered(vs, LockReward(vs, u, epoch, id, amount).0, other);
    PendingLock(u, epoch + REWARD_UNLOCK_DELAY, Unlock(id, amount), other);
    assert vs[Find(vs, id).value].id == id;
  }

  lemma PendingLock(u: Unlocks, due: nat, x: Unlock, id: string)
    ensures Pending(u[due := EntriesAt(u, due) + [x]], id) == Pending(u, id) + (if x.id == id then x.amount else 0)
  {
    PendingUpdate(u, due, EntriesAt(u, due) + [x], id);
    DueToSnoc(EntriesAt(u, due), x, id);
  }

  lemma LockedAt(vs: seq<Validator>, u: Unlocks, epoch: nat, id: string, amount: nat, j: nat)
    requires UniqueValidators(vs) && LocksOk(vs, u) && VaultSum(vs) + amount < U128_LIMIT && j < |vs|
    requires amount > 0 && Find(vs, id).Some?
    ensures var (vs', u') := LockReward(vs, u, epoch, id, amount);
      |vs'| == |vs| && vs'[j].id == vs[j].id && LockOk(vs'[j], u')
  {
    assert LockOk(vs[j], u);
    PendingLock(u, epoch + REWARD_UNLOCK_DELAY, Unlock(id, amount), vs[j].id);
    if vs[j].id == id {
      VaultSumUpdate(vs, j, vs[j]);
      assert j == Find(vs, id).value;
    }
  }

  lemma LockRewardBacks(vs: seq<Validator>, u: Unlocks, epoch: nat, id: string, amount: nat, ts: seq<StakeTicket>)
    requires AllBacked(vs, ts) && VaultSum(vs) + amount < U128_LIMIT
    ensures AllBacked(LockReward(vs, u, epoch, id, amount).0, ts)
  {
    var vs' := LockReward(vs, u, epoch, id, amount).0;
    forall j | 0 <= j < |vs'|
      ensures Backed(vs'[j], ts)
    {
      VaultSumUpdate(vs, j, vs[j]);
      assert Backed(vs[j], ts);
    }
  }

  /** One unlock; the subtraction saturates at zero. */
  function UnlockOne(vs: seq<Validator>, x: Unlock): seq<Validator> {
    match Find(vs, x.id)
    case None => vs
    case Some(i) => vs[i := vs[i].(locked := if vs[i].locked < x.amount then 0 else vs[i].locked - x.amount)]
  }

  function UnlockAll(vs: seq<Validator>, entries: seq<Unlock>): seq<Validator> {
    if entries == [] then vs else UnlockOne(UnlockAll(vs, entries[..|entries| - 1]), entries[|entries| - 1])
  }

  /** The loop over the rewards that unlock in an epoch. */
  method UnlockRewards(vs: seq<Validator>, entries: seq<Unlock>) returns (r: seq<Validator>)
    ensures r == UnlockAll(vs, entries)
  {
    r := vs;
    for i := 0 to |entries|
      invariant r == UnlockAll(vs, entries[..i])
    {
      assert entries[..i + 1][..i] == entries[..i];
      r := UnlockOne(r, entries[i]);
    }
    assert entries[..|entries|] == entries;
  }

  /** No unlock subtraction ever clamps: each validator loses exactly what is due to it, and nothing else
      about it changes. */
  lemma {:induction false} UnlockIsExact(vs: seq<Validator>, entries: seq<Unlock>, i: nat)
    requires UniqueValidators(vs) && i < |vs|
    requires forall j :: 0 <= j < |vs| ==> DueTo(entries, vs[j].id) <= vs[j].locked
    ensures |UnlockAll(vs, entries)| == |vs|
    ensures UnlockAll(vs, entries)[i] == vs[i].(locked := vs[i].locked - DueTo(entries, vs[i].id))
  {
    if entries != [] {
      var n := |entries| - 1;
      forall j | 0 <= j < |vs|
        ensures DueTo(entries[..n], vs[j].id) <= vs[j].locked
      {
        assert DueTo(entries, vs[j].id) <= vs[j].locked;
      }
      var mid := UnlockAll(vs, entries[..n]);
      UnlockIsExact(vs, entries[..n], i);
      forall j | 0 <= j < |vs|
        ensures mid[j] == vs[j].(locked := vs[j].locked - DueTo(entries[..n], vs[j].id))
      {
        UnlockIsExact(vs, entries[..n], j);
      }
      var x := entries[n];
      if Find(mid, x.id).Some? {
        var f := Find(mid, x.id).value;
        assert mid[f].id == vs[f].id;
        assert DueTo(entries, vs[f].id) <= vs[f].locked;
      }
    }
  }

  /** `unlock_rewards_for_epoch` at the next epoch keeps the books. */
  lemma UnlockKeeps(vs: seq<Validator>, u: Unlocks, epoch: nat)
    requires RewardsOk(vs, u, epoch)
    ensures var vs' := UnlockAll(vs, EntriesAt(u, epoch + 1));
      && RewardsOk(vs', u - {epoch + 1}, epoch + 1)
      && |vs'| == |vs| && VaultSum(vs') == VaultSum(vs)
      && forall i :: 0 <= i < |vs| ==> vs'[i] == vs[i].(locked := vs'[i].locked)
  {
    var vs' := UnlockAll(vs, EntriesAt(u, epoch + 1));
    UnlockLength(vs, EntriesAt(u, epoch + 1));
    forall i | 0 <= i < |vs|
      ensures vs'[i] == vs[i].(locked := vs'[i].locked) && LockOk(vs'[i], u - {epoch + 1})
    {
      UnlockedAt(vs, u, epoch, i);
    }
    SameVaults(vs, vs');
    var u' := u - {epoch + 1};
    forall other: string
      ensures NoStray(vs', u', other)
    {
      assert NoStray(vs, u, other);
      SameIdsRegistered(vs, vs', other);
      PendingRemove(u, epoch + 1, other);
    }
  }

  lemma UnlockedAt(vs: seq<Validator>, u: Unlocks, epoch: nat, i: nat)
    requires UniqueValidators(vs) && LocksOk(vs, u) && i < |vs|
    ensures var vs' := UnlockAll(vs, EntriesAt(u, epoch + 1));
      |vs'| == |vs| && vs'[i] == vs[i].(locked := vs'[i].locked) && LockOk(vs'[i], u - {epoch + 1})
  {
    var entries := EntriesAt(u, epoch + 1);
    forall j | 0 <= j < |vs|
      ensures DueTo(entries, vs[j].id) <= vs[j].locked
    {
      assert LockOk(vs[j], u);
      PendingRemove(u, epoch + 1, vs[j].id);
    }
    UnlockIsExact(vs, entries, i);
    PendingRemove(u, epoch + 1, vs[i].id);
    assert LockOk(vs[i], u);
  }

  lemma {:induction false} UnlockLength(vs: seq<Validator>, entries: seq<Unlock>)
    ensures |UnlockAll(vs, entries)| == |vs|
  {
    if entries != [] {
      UnlockLength(vs, entries[..|entries| - 1]);
    }
  }

  lemma {:induction false} SameVaults(vs: seq<Validator>, vs': seq<Validator>)
    requires |vs| == |vs'| && forall i :: 0 <= i < |vs| ==> vs'[i].vault == vs[i].vault
    ensures VaultSum(vs') == VaultSum(vs)
  {
    if vs != [] {
      SameVaults(vs[..|vs| - 1], vs'[..|vs| - 1]);
    }
  }
}
