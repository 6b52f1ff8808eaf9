/** Transaction execution in the slot engine, with every failure branch of the source
    (src/app/consensus.rs). */
module SlotTransactions {
  import opened Base
  import opened Sums
  import opened SlotEconomy

  datatype TxKind =
    | Transfer | Contract | System | Pbm | RegisterValidator | BuyTicket | WalletToVault | VaultToWallet | BurnTicket

  datatype Tx = Tx(
    chainId: u64, from: string, to: string, token: u64, value: u128, gas: u64, fee: u64, kind: TxKind,
    validAfter: u64, feeToken: u64, data: string)

  /** The canonical public key in registration data, if the data decodes to a valid key. */
  const RegistrationKey: string -> Option<string>

  /** What a transaction can change. */
  datatype Econ = Econ(bank: Bank, validators: seq<Validator>, tickets: seq<StakeTicket>, ticketBurned: nat)

  /** A transaction is skipped by the checks before any change, executed, or given up after a debit. */
  datatype Outcome = Skipped | Executed(econ: Econ) | GivenUp(econ: Econ)

  function Etx(account: string): Coin {
    Coin(account, ETX)
  }

  function OwnerOf(vs: seq<Validator>, id: string): Option<string> {
    match Find(vs, id)
    case None => None
    case Some(i) => vs[i].owner
  }

  predicate KeyRegistered(vs: seq<Validator>, key: string) {
    exists i :: 0 <= i < |vs| && vs[i].pubkey == Some(key)
  }

  function NewValidator(id: string, owner: Option<string>, key: Option<string>, state: ValidatorState): Validator {
    Validator(id, owner, key, state, 0, 0, 0, None)
  }

  function ExecRegister(e: Econ, tx: Tx): Outcome {
    match RegistrationKey(tx.data)
    case None => Skipped
    case Some(key) =>
      if Find(e.validators, tx.to).Some? || KeyRegistered(e.validators, key)
        || !CanPay(e.bank, Etx(tx.from), tx.fee) then Skipped
      else
        var (b, ok) := Debit(e.bank, Etx(tx.from), tx.fee);
        if !ok then GivenUp(e.(bank := b))
        else
          var newcomer := NewValidator(tx.to, Some(tx.from), Some(key), Inactive);
          Executed(e.(bank := b, validators := e.validators + [newcomer]))
  }

  /** Minting for an identifier; a missing validator would be created on the spot. */
  function BurnAndMint(e: Econ, id: string, count: nat): Econ {
    Econ(
      e.bank,
      if Find(e.validators, id).Some? then e.validators else e.validators + [NewValidator(id, None, None, Active)],
      Mint(e.tickets, id, count),
      Saturate(e.ticketBurned + TICKET_COST * count))
  }

  function RefreshEcon(e: Econ, id: string): Econ {
    e.(validators := Refresh(e.validators, e.tickets, id))
  }

  function ExecBuy(e: Econ, tx: Tx): Outcome {
    var cost := Saturate(TICKET_COST * tx.value);
    if tx.value == 0 || tx.value >= U64_LIMIT || OwnerOf(e.validators, tx.to) != Some(tx.from)
       || !CanPay(e.bank, Etx(tx.from), Saturate(cost + tx.fee)) then Skipped
    else
      var (b, ok) := Debit(e.bank, Etx(tx.from), cost);
      if !ok then GivenUp(e.(bank := b))
      else
        var (b', ok') := Debit(b, Etx(tx.from), tx.fee);
        if !ok' then GivenUp(e.(bank := Credit(b', Etx(tx.from), cost)))
        else Executed(RefreshEcon(BurnAndMint(e.(bank := b'), tx.to, tx.value), tx.to))
  }

  function ExecDeposit(e: Econ, tx: Tx): Outcome {
    if OwnerOf(e.validators, tx.to) != Some(tx.from) || !CanPay(e.bank, Etx(tx.from), Saturate(tx.value + tx.fee))
       || Find(e.validators, tx.to).None? then Skipped
    else
      var (b, ok) := Debit(e.bank, Etx(tx.from), tx.value);
      if !ok then GivenUp(e.(bank := b))
      else
        var (b', ok') := Debit(b, Etx(tx.from), tx.fee);
        if !ok' then GivenUp(e.(bank := Credit(b', Etx(tx.from), tx.value)))
        else
          var i := Find(e.validators, tx.to).value;
          var v := e.validators[i].(vault := Saturate(e.validators[i].vault + tx.value));
          Executed(RefreshEcon(e.(bank := b', validators := e.validators[i := v]), tx.to))
  }

  /** What an owner may take out: nothing locked, and never below the minimum. */
  function Withdrawable(vs: seq<Validator>, ts: seq<StakeTicket>, id: string): nat {
    match Find(vs, id)
    case None => 0
    case Some(i) =>
      var v := vs[i];
      var unlocked := if v.vault < v.locked then 0 else v.vault - v.locked;
      if unlocked < VaultMinimum(ts, id) then 0 else unlocked - VaultMinimum(ts, id)
  }

  function ExecWithdraw(e: Econ, tx: Tx): Outcome {
    if OwnerOf(e.validators, tx.to) != Some(tx.from) || !CanPay(e.bank, Etx(tx.from), tx.fee)
       || tx.value > Withdrawable(e.validators, e.tickets, tx.to) then Skipped
    else
      var (b, ok) := Debit(e.bank, Etx(tx.from), tx.fee);
      if !ok || Find(e.validators, tx.to).None? then GivenUp(e.(bank := b))
      else
        var i := Find(e.validators, tx.to).value;
        var left := if e.validators[i].vault < tx.value then 0 else e.validators[i].vault - tx.value;
        var v := e.validators[i].(vault := left);
        Executed(RefreshEcon(e.(bank := Credit(b, Etx(tx.from), tx.value), validators := e.validators[i := v]), tx.to))
  }

  predicate CanPayGeneric(b: Bank, tx: Tx) {
    if tx.token == tx.feeToken then CanPay(b, Coin(tx.from, tx.token), Saturate(tx.value + tx.fee))
    else CanPay(b, Coin(tx.from, tx.token), tx.value) && CanPay(b, Coin(tx.from, tx.feeToken), tx.fee)
  }

  function ExecGeneric(e: Econ, tx: Tx): Outcome {
    if !CanPayGeneric(e.bank, tx) then Skipped
    else
      var (b, ok) := Debit(e.bank, Coin(tx.from, tx.token), tx.value);
      if !ok then GivenUp(e.(bank := b))
      else
        var c := Credit(b, Coin(tx.to, tx.token), tx.value);
        var (b', ok') := Debit(c, Coin(tx.from, tx.feeToken), tx.fee);
        if !ok' then
          GivenUp(e.(bank := Credit(Debit(b', Coin(tx.to, tx.token), tx.value).0, Coin(tx.from, tx.token), tx.value)))
        else Executed(e.(bank := b'))
  }

  function Exec(e: Econ, tx: Tx): Outcome {
    match tx.kind
    case RegisterValidator => ExecRegister(e, tx)
    case BuyTicket => ExecBuy(e, tx)
    case WalletToVault => ExecDeposit(e, tx)
    case VaultToWallet => ExecWithdraw(e, tx)
    case _ => ExecGeneric(e, tx)
  }

  predicate SystemKind(kind: TxKind) {
    kind == RegisterValidator || kind == BuyTicket || kind == WalletToVault || kind == VaultToWallet
  }

  /** The token in which a transaction's fee is taken. */
  function FeeToken(tx: Tx): u64 {
    if SystemKind(tx.kind) then ETX else tx.feeToken
  }

  // ----- what execution keeps -----

  /** All ETX in accounts and vaults; tickets are burned supply. */
  ghost function Supply(e: Econ): nat {
    Held(e.bank, ETX) + VaultSum(e.validators)
  }

  /** Nothing is near the top of 128 bits. */
  ghost predicate Fits(e: Econ) {
    && Supply(e) + e.ticketBurned < U128_LIMIT - 1
    && forall t: u64 :: Held(e.bank, t) < U128_LIMIT - 1
  }

  ghost predicate EconOk(e: Econ, u: Unlocks) {
    && UniqueValidators(e.validators) && LocksOk(e.validators, u) && NoStrays(e.validators, u)
    && AllBacked(e.validators, e.tickets) && TicketsOk(e.tickets)
  }

  /** The accounting of one executed transaction: the fee leaves its token, a ticket purchase moves its cost
      from the supply to the burned total, and nothing else is created or destroyed. */
  ghost predicate Accounted(e: Econ, e': Econ, token: u64, fee: nat) {
    && Supply(e') + e'.ticketBurned + (if token == ETX then fee else 0) == Supply(e) + e.ticketBurned
    && forall t: u64 :: t != ETX ==> Held(e'.bank, t) + (if t == token then fee else 0) == Held(e.bank, t)
  }

  /** The common shape of a payment in ETX. */
  lemma PayEtx(b: Bank, a: string, amount: nat)
    requires amount <= Lookup(b, Etx(a))
    ensures Debit(b, Etx(a), amount).1
    ensures var b' := Debit(b, Etx(a), amount).0;
      && Held(b', ETX) + amount == Held(b, ETX)
      && Lookup(b', Etx(a)) == Lookup(b, Etx(a)) - amount
      && forall t: u64 :: t != ETX ==> Held(b', t) == Held(b, t)
  {
    DebitHolds(b, Etx(a), amount, ETX);
    forall t: u64 | t != ETX
      ensures Held(Debit(b, Etx(a), amount).0, t) == Held(b, t)
    {
      DebitHolds(b, Etx(a), amount, t);
    }
  }

  lemma ReceiveEtx(b: Bank, a: string, amount: nat)
    requires Held(b, ETX) + amount < U128_LIMIT
    ensures var b' := Credit(b, Etx(a), amount);
      Held(b', ETX) == Held(b, ETX) + amount && forall t: u64 :: t != ETX ==> Held(b', t) == Held(b, t)
  {
    CreditHolds(b, Etx(a), amount, ETX);
    forall t: u64 | t != ETX
      ensures Held(Credit(b, Etx(a), amount), t) == Held(b, t)
    {
      CreditHolds(b, Etx(a), amount, t);
    }
  }

  lemma BalanceFits(b: Bank, c: Coin, e: Econ)
    requires e.bank == b && Fits(e)
    ensures Lookup(b, c) < U128_LIMIT - 1
  {
    HeldUpdate(b, c, 0, c.token);
  }

  lemma RegisterKeeps(e: Econ, tx: Tx, u: Unlocks)
    requires EconOk(e, u)
    ensures !ExecRegister(e, tx).GivenUp?
    ensures ExecRegister(e, tx).Executed? ==> EconOk(ExecRegister(e, tx).econ, u)
    ensures ExecRegister(e, tx).Executed? ==> Accounted(e, ExecRegister(e, tx).econ, ETX, tx.fee)
  {
    if ExecRegister(e, tx).Executed? {
      PayEtx(e.bank, tx.from, tx.fee);
      var e' := ExecRegister(e, tx).econ;
      var v := e'.validators[|e.validators|];
      VaultSumSnoc(e.validators, v);
      NewcomerKeeps(e.validators, e.tickets, u, v);
    }
  }

  lemma NewcomerKeeps(vs: seq<Validator>, ts: seq<StakeTicket>, u: Unlocks, v: Validator)
    requires UniqueValidators(vs) && LocksOk(vs, u) && NoStrays(vs, u) && AllBacked(vs, ts)
    requires Find(vs, v.id).None? && v.vault == 0 && v.locked == 0 && v.state != Active
    ensures var vs' := vs + [v];
      UniqueValidators(vs') && LocksOk(vs', u) && NoStrays(vs', u) && AllBacked(vs', ts)
  {
    var vs' := vs + [v];
    assert !Registered(vs, v.id) && NoStray(vs, u, v.id);
    forall i | 0 <= i < |vs'|
      ensures LockOk(vs'[i], u) && Backed(vs'[i], ts)
    {
      if i < |vs| {
        assert LockOk(vs[i], u) && Backed(vs[i], ts);
      }
    }
    forall id: string
      ensures NoStray(vs', u, id)
    {
      assert NoStray(vs, u, id);
      StaysRegistered(vs, v, id);
    }
  }

  lemma StaysRegistered(vs: seq<Validator>, v: Validator, id: string)
    ensures Registered(vs, id) ==> Registered(vs + [v], id)
  {
    if Registered(vs, id) {
      var i :| 0 <= i < |vs| && vs[i].id == id;
      assert (vs + [v])[i].id == id;
    }
  }

  /** Refreshing an activation changes no money. */
  lemma RefreshKeeps(vs: seq<Validator>, ts: seq<StakeTicket>, u: Unlocks, id: string)
    requires UniqueValidators(vs) && LocksOk(vs, u) && NoStrays(vs, u) && BackedExcept(vs, ts, {id})
    ensures var vs' := Refresh(vs, ts, id);
      && UniqueValidators(vs') && LocksOk(vs', u) && NoStrays(vs', u) && AllBacked(vs', ts)
      && VaultSum(vs') == VaultSum(vs)
  {
    var vs' := Refresh(vs, ts, id);
    RefreshBacks(vs, ts, id, {id});
    SameVaultSum(vs, vs');
    forall i | 0 <= i < |vs'|
      ensures vs'[i].id == vs[i].id && LockOk(vs'[i], u) && Backed(vs'[i], ts)
    {
      assert SameMoney(vs[i], vs'[i]) && LockOk(vs[i], u);
    }
    forall other: string
      ensures NoStray(vs', u, other)
    {
      assert NoStray(vs, u, other);
      SameIdsRegistered(vs, vs', other);
    }
  }

  /** Changing the vault of one validator, within its locks. */
  lemma VaultChangeKeeps(vs: seq<Validator>, ts: seq<StakeTicket>, u: Unlocks, i: nat, vault: nat)
    requires UniqueValidators(vs) && LocksOk(vs, u) && NoStrays(vs, u) && AllBacked(vs, ts)
    requires i < |vs| && vs[i].locked <= vault
    ensures var vs' := vs[i := vs[i].(vault := vault)];
      && UniqueValidators(vs') && LocksOk(vs', u) && NoStrays(vs', u) && BackedExcept(vs', ts, {vs[i].id})
      && VaultSum(vs') == VaultSum(vs) - vs[i].vault + vault
  {
    var vs' := vs[i := vs[i].(vault := vault)];
    VaultSumUpdate(vs, i, vs'[i]);
    forall j | 0 <= j < |vs'|
      ensures vs'[j].id == vs[j].id && LockOk(vs'[j], u)
    {
      assert LockOk(vs[j], u);
    }
    forall j | 0 <= j < |vs'| && vs'[j].id !in {vs[i].id}
      ensures Backed(vs'[j], ts)
    {
      assert Backed(vs[j], ts);
    }
    forall other: string
      ensures NoStray(vs', u, other)
    {
      assert NoStray(vs, u, other);
      SameIdsRegistered(vs, vs', other);
    }
  }

  /** A vault changes and its validator's activation is refreshed. */
  lemma VaultMoveKeeps(vs: seq<Validator>, ts: seq<StakeTicket>, u: Unlocks, i: nat, vault: nat, id: string)
    requires UniqueValidators(vs) && LocksOk(vs, u) && NoStrays(vs, u) && AllBacked(vs, ts)
    requires i < |vs| && vs[i].locked <= vault && vs[i].id == id
    ensures var vs' := Refresh(vs[i := vs[i].(vault := vault)], ts, id);
      && UniqueValidators(vs') && LocksOk(vs', u) && NoStrays(vs', u) && AllBacked(vs', ts)
      && VaultSum(vs') == VaultSum(vs) - vs[i].vault + vault
  {
    VaultChangeKeeps(vs, ts, u, i, vault);
    RefreshKeeps(vs[i := vs[i].(vault := vault)], ts, u, vs[i].id);
  }

  lemma PayTwice(b: Bank, a: string, first: nat, second: nat)
    requires first + second <= Lookup(b, Etx(a))
    ensures Debit(b, Etx(a), first).1 && Debit(Debit(b, Etx(a), first).0, Etx(a), second).1
    ensures var b' := Debit(Debit(b, Etx(a), first).0, Etx(a), second).0;
      Held(b', ETX) + first + second == Held(b, ETX) && forall t: u64 :: t != ETX ==> Held(b', t) == Held(b, t)
  {
    PayEtx(b, a, first);
    PayEtx(Debit(b, Etx(a), first).0, a, second);
  }

  /** One vault changes to a given amount, next to a new set of balances. */
  function WithVault(e: Econ, b: Bank, i: nat, vault: nat, id: string): Econ
    requires i < |e.validators|
  {
    e.(bank := b, validators := Refresh(e.validators[i := e.validators[i].(vault := vault)], e.tickets, id))
  }

  lemma WithVaultKeeps(e: Econ, b: Bank, i: nat, vault: nat, id: string, u: Unlocks, fee: nat)
    requires EconOk(e, u) && i < |e.validators| && e.validators[i].id == id && e.validators[i].locked <= vault
    requires Held(b, ETX) + vault + fee == Held(e.bank, ETX) + e.validators[i].vault
    requires forall t: u64 :: t != ETX ==> Held(b, t) == Held(e.bank, t)
    ensures EconOk(WithVault(e, b, i, vault, id), u) && Accounted(e, WithVault(e, b, i, vault, id), ETX, fee)
  {
    var vs, ts := e.validators, e.tickets;
    VaultMoveKeeps(vs, ts, u, i, vault, id);
    var e' := WithVault(e, b, i, vault, id);
    assert e'.validators == Refresh(vs[i := vs[i].(vault := vault)], ts, id);
  }

  lemma DepositShape(e: Econ, tx: Tx, i: nat, vault: nat)
    requires Find(e.validators, tx.to) == Some(i) && !ExecDeposit(e, tx).Skipped?
    requires Debit(e.bank, Etx(tx.from), tx.value).1
    requires Debit(Debit(e.bank, Etx(tx.from), tx.value).0, Etx(tx.from), tx.fee).1
    requires vault == e.validators[i].vault + tx.value < U128_LIMIT
    ensures var b := Debit(Debit(e.bank, Etx(tx.from), tx.value).0, Etx(tx.from), tx.fee).0;
      ExecDeposit(e, tx) == Executed(WithVault(e, b, i, vault, tx.to))
  {}

  lemma DepositKeeps(e: Econ, tx: Tx, u: Unlocks)
    requires EconOk(e, u) && Fits(e)
    ensures !ExecDeposit(e, tx).GivenUp?
    ensures ExecDeposit(e, tx).Executed? ==> EconOk(ExecDeposit(e, tx).econ, u)
    ensures ExecDeposit(e, tx).Executed? ==> Accounted(e, ExecDeposit(e, tx).econ, ETX, tx.fee)
  {
    if !ExecDeposit(e, tx).Skipped? {
      var i := Find(e.validators, tx.to).value;
      BalanceFits(e.bank, Etx(tx.from), e);
      PayTwice(e.bank, tx.from, tx.value, tx.fee);
      VaultSumUpdate(e.validators, i, e.validators[i]);
      HeldUpdate(e.bank, Etx(tx.from), 0, ETX);
      var vault := e.validators[i].vault + tx.value;
      DepositShape(e, tx, i, vault);
      assert LockOk(e.validators[i], u);
      var b := Debit(Debit(e.bank, Etx(tx.from), tx.value).0, Etx(tx.from), tx.fee).0;
      WithVaultKeeps(e, b, i, vault, tx.to, u, tx.fee);
    }
  }

  lemma WithdrawShape(e: Econ, tx: Tx, i: nat, vault: nat)
    requires Find(e.validators, tx.to) == Some(i) && e.validators[i].locked <= e.validators[i].vault
    requires !ExecWithdraw(e, tx).Skipped? && vault + tx.value == e.validators[i].vault
    ensures tx.fee <= Lookup(e.bank, Etx(tx.from)) && e.validators[i].locked <= vault
    ensures var b := Credit(Debit(e.bank, Etx(tx.from), tx.fee).0, Etx(tx.from), tx.value);
      ExecWithdraw(e, tx) == Executed(WithVault(e, b, i, vault, tx.to))
  {}

  lemma WithdrawKeeps(e: Econ, tx: Tx, u: Unlocks)
    requires EconOk(e, u) && Fits(e)
    ensures !ExecWithdraw(e, tx).GivenUp?
    ensures ExecWithdraw(e, tx).Executed? ==> EconOk(ExecWithdraw(e, tx).econ, u)
    ensures ExecWithdraw(e, tx).Executed? ==> Accounted(e, ExecWithdraw(e, tx).econ, ETX, tx.fee)
  {
    if !ExecWithdraw(e, tx).Skipped? {
      var i := Find(e.validators, tx.to).value;
      assert LockOk(e.validators[i], u);
      var vault := e.validators[i].vault - tx.value;
      WithdrawShape(e, tx, i, vault);
      PayEtx(e.bank, tx.from, tx.fee);
      VaultSumUpdate(e.validators, i, e.validators[i]);
      ReceiveEtx(Debit(e.bank, Etx(tx.from), tx.fee).0, tx.from, tx.value);
      WithVaultKeeps(e, Credit(Debit(e.bank, Etx(tx.from), tx.fee).0, Etx(tx.from), tx.value),
        i, vault, tx.to, u, tx.fee);
    }
  }

  lemma MintedBacks(vs: seq<Validator>, ts: seq<StakeTicket>, id: string, count: nat)
    requires AllBacked(vs, ts)
    ensures BackedExcept(vs, Mint(ts, id, count), {id})
  {
    forall i | 0 <= i < |vs| && vs[i].id !in {id}
      ensures Backed(vs[i], Mint(ts, id, count))
    {
      assert Backed(vs[i], ts);
      MintForOthers(ts, id, count, vs[i].id);
    }
  }

  lemma BuyKeeps(e: Econ, tx: Tx, u: Unlocks)
    requires EconOk(e, u) && Fits(e)
    requires ExecBuy(e, tx).Executed? ==> IdsLast(e.tickets, |ExecBuy(e, tx).econ.tickets|)
    ensures !ExecBuy(e, tx).GivenUp?
    ensures ExecBuy(e, tx).Executed? ==> EconOk(ExecBuy(e, tx).econ, u)
    ensures ExecBuy(e, tx).Executed? ==> Accounted(e, ExecBuy(e, tx).econ, ETX, tx.fee)
  {
    if !ExecBuy(e, tx).Skipped? {
      BalanceFits(e.bank, Etx(tx.from), e);
      var cost := TICKET_COST * tx.value;
      PayEtx(e.bank, tx.from, cost);
      PayEtx(Debit(e.bank, Etx(tx.from), cost).0, tx.from, tx.fee);
      MintKeepsTickets(e.tickets, tx.to, tx.value);
      MintedBacks(e.validators, e.tickets, tx.to, tx.value);
      RefreshKeeps(e.validators, Mint(e.tickets, tx.to, tx.value), u, tx.to);
    }
  }

  /** A transfer moves value between two balances of one token. */
  lemma MoveHolds(b: Bank, from: Coin, to: Coin, value: nat, t: u64)
    requires from.token == to.token && value <= Lookup(b, from) && Held(b, from.token) < U128_LIMIT
    ensures Debit(b, from, value).1
    ensures var c := Credit(Debit(b, from, value).0, to, value);
      && Held(c, t) == Held(b, t)
      && Lookup(c, from) >= (if from == to then Lookup(b, from) else Lookup(b, from) - value)
      && (forall x :: x != from && x != to ==> Lookup(c, x) == Lookup(b, x))
  {
    var d := Debit(b, from, value).0;
    HeldUpdate(b, from, 0, from.token);
    DebitHolds(b, from, value, from.token);
    DebitHolds(b, from, value, t);
    CreditHolds(d, to, value, t);
  }

  lemma GenericKeeps(e: Econ, tx: Tx)
    requires Fits(e)
    ensures !ExecGeneric(e, tx).GivenUp?
    ensures ExecGeneric(e, tx).Executed? ==> Accounted(e, ExecGeneric(e, tx).econ, tx.feeToken, tx.fee)
    ensures ExecGeneric(e, tx).Executed? ==> ExecGeneric(e, tx).econ == e.(bank := ExecGeneric(e, tx).econ.bank)
  {
    if !ExecGeneric(e, tx).Skipped? {
      var from, to, payer := Coin(tx.from, tx.token), Coin(tx.to, tx.token), Coin(tx.from, tx.feeToken);
      BalanceFits(e.bank, from, e);
      MoveHolds(e.bank, from, to, tx.value, ETX);
      var c := Credit(Debit(e.bank, from, tx.value).0, to, tx.value);
      DebitHolds(c, payer, tx.fee, ETX);
      forall t: u64 | t != ETX
        ensures Held(Debit(c, payer, tx.fee).0, t) + (if t == tx.feeToken then tx.fee else 0) == Held(e.bank, t)
      {
        MoveHolds(e.bank, from, to, tx.value, t);
        DebitHolds(c, payer, tx.fee, t);
      }
    }
  }

  /** Execution adds tickets only by minting. */
  lemma ExecTickets(e: Econ, tx: Tx)
    ensures Exec(e, tx).Executed? ==> Minted(e.tickets, Exec(e, tx).econ.tickets)
    ensures Exec(e, tx).Executed? ==> e.tickets <= Exec(e, tx).econ.tickets
    ensures Exec(e, tx).GivenUp? ==> e.tickets == Exec(e, tx).econ.tickets
  {
    if tx.kind == BuyTicket {
      MintIsMinted(e.tickets, tx.to, tx.value);
      BoughtTickets(e, tx);
    }
  }

  lemma BoughtTickets(e: Econ, tx: Tx)
    ensures ExecBuy(e, tx).Executed? ==> ExecBuy(e, tx).econ.tickets == Mint(e.tickets, tx.to, tx.value)
    ensures ExecBuy(e, tx).GivenUp? ==> ExecBuy(e, tx).econ.tickets == e.tickets
  {}

  /** Every transaction, from every state with room and identifiers that last: no failure branch after a debit
      is reachable, the books stay exact, and every registry invariant is kept. */
  lemma ExecKeeps(e: Econ, tx: Tx, u: Unlocks)
    requires EconOk(e, u) && Fits(e)
    requires Exec(e, tx).Executed? ==> IdsLast(e.tickets, |Exec(e, tx).econ.tickets|)
    ensures !Exec(e, tx).GivenUp?
    ensures Exec(e, tx).Executed? ==> EconOk(Exec(e, tx).econ, u)
    ensures Exec(e, tx).Executed? ==> Accounted(e, Exec(e, tx).econ, FeeToken(tx), tx.fee)
  {
    match tx.kind
    case RegisterValidator => RegisterKeeps(e, tx, u);
    case BuyTicket => BuyKeeps(e, tx, u);
    case WalletToVault => DepositKeeps(e, tx, u);
    case VaultToWallet => WithdrawKeeps(e, tx, u);
    case _ => GenericKeeps(e, tx);
  }

  // ----- when a transaction is given up after a debit -----

  /** The payer can cover value plus fee only because that sum saturates at the top of 128 bits. */
  predicate PaysBySaturation(b: Bank, c: Coin, value: nat, fee: nat) {
    value + fee >= U128_LIMIT && Lookup(b, c) == U128_LIMIT - 1
  }

  /** The exact circumstances, checkable before execution. */
  predicate WillGiveUp(e: Econ, tx: Tx) {
    if tx.kind == WalletToVault then
      OwnerOf(e.validators, tx.to) == Some(tx.from) && PaysBySaturation(e.bank, Etx(tx.from), tx.value, tx.fee)
    else
      !SystemKind(tx.kind) && tx.token == tx.feeToken && tx.from != tx.to
      && PaysBySaturation(e.bank, Coin(tx.from, tx.token), tx.value, tx.fee)
  }

  lemma GenericGivesUp(e: Econ, tx: Tx)
    requires forall c :: Lookup(e.bank, c) < U128_LIMIT
    ensures ExecGeneric(e, tx).GivenUp?
      <==>
      && tx.token == tx.feeToken && tx.from != tx.to
      && PaysBySaturation(e.bank, Coin(tx.from, tx.token), tx.value, tx.fee)
  {
    assert Lookup(e.bank, Coin(tx.from, tx.token)) < U128_LIMIT;
    assert Lookup(e.bank, Coin(tx.from, tx.feeToken)) < U128_LIMIT;
  }

  /** For every state and transaction: a transaction is given up after a debit exactly if its value and fee
      together overflow 128 bits, its payer holds the largest balance there is, and it is a deposit by the
      owner or a transfer to someone else with the fee in the same token. */
  lemma GivesUpExactly(e: Econ, tx: Tx)
    requires forall c :: Lookup(e.bank, c) < U128_LIMIT
    ensures Exec(e, tx).GivenUp? <==> WillGiveUp(e, tx)
  {
    match tx.kind
    case RegisterValidator =>
    case BuyTicket => assert Lookup(e.bank, Etx(tx.from)) < U128_LIMIT;
    case WalletToVault => assert Lookup(e.bank, Etx(tx.from)) < U128_LIMIT;
    case VaultToWallet =>
    case _ => GenericGivesUp(e, tx);
  }

  /** A transfer that is given up: its payer held everything 128 bits can count. */
  lemma GivesUpSometimes() returns (e: Econ, tx: Tx)
    ensures Exec(e, tx).GivenUp?
  {
    e := Econ(map[Coin("a", ETX) := U128_LIMIT - 1], [], [], 0);
    tx := Tx(CHAIN_ID, "a", "b", ETX, U128_LIMIT - 1, 21000, 1, Transfer, 0, ETX, "");
    assert Lookup(e.bank, Coin("a", ETX)) == U128_LIMIT - 1;
  }
}
