/** The native transfer executor: ordered, all-or-nothing application of a body of transfers
    (src/native_transfer.rs). */
module NativeTransfer {
  import opened Base
  import opened Crypto
  import opened NativeTransaction
  import opened Sums

  datatype Account = Account(balance: u128, nonce: u64)

  const EMPTY_ACCOUNT := Account(0, 0)

  datatype TransferState = TransferState(
    accounts: map<Address, Account>,
    gasUsedTotal: u64,
    feesBurnedTotal: u128)
  {
    /** An absent account reads as zero. */
    function AccountOf(a: Address): Account {
      if a in accounts then accounts[a] else EMPTY_ACCOUNT
    }
  }

  datatype Outcome = Outcome(ids: seq<Hash>, gasUsed: u64, feesBurned: u64)

  const EMPTY_OUTCOME := Outcome([], 0, 0)

  datatype ArithmeticField =
    | CombinedDebit | RecipientBalance | Nonce | TotalGas | TotalBurn | BodyGas | BodyBurn

  datatype TransferError =
    | Authentication(error: TxError)
    | UnsupportedRules(rules: u32)
    | WrongKind(kind: byte)
    | UnsupportedAsset(token: u64)
    | GasTooLow(gas: u64)
    | NonceMismatch(expected: u64, actual: u64)
    | NotMature(slot: u64, validAfterSlot: u64)
    | InsufficientCombinedFunds(available: u128, required: u128)
    | Overflow(field: ArithmeticField)

  datatype BodyError = BodyError(index: nat, cause: TransferError)

  /** A candidate state with the outcome accumulated so far. */
  datatype Effects = Effects(state: TransferState, outcome: Outcome)

  // ----- one transfer -----

  /** The sender's account after the debit and, for a self-transfer, the credit. */
  function DebitSender(s: TransferState, tx: Unsigned): Result<Account, TransferError> {
    var sender := s.AccountOf(tx.sender);
    if tx.value + TRANSFER_FEE_QUARKS >= U128_LIMIT then Err(Overflow(CombinedDebit))
    else if sender.balance < tx.value + TRANSFER_FEE_QUARKS then
      Err(InsufficientCombinedFunds(sender.balance, tx.value + TRANSFER_FEE_QUARKS))
    else if sender.nonce + 1 >= U64_LIMIT then Err(Overflow(Nonce))
    else
      var debited := sender.balance - (tx.value + TRANSFER_FEE_QUARKS);
      if tx.sender == tx.recipient then
        if debited + tx.value >= U128_LIMIT then Err(Overflow(RecipientBalance))
        else Ok(Account(debited + tx.value, sender.nonce + 1))
      else Ok(Account(debited, sender.nonce + 1))
  }

  /** The other account after the credit; a zero credit and a self-transfer touch no other account. */
  function CreditRecipient(s: TransferState, tx: Unsigned): Result<Option<Account>, TransferError> {
    if tx.sender == tx.recipient || tx.value == 0 then Ok(None)
    else
      var recipient := s.AccountOf(tx.recipient);
      if recipient.balance + tx.value >= U128_LIMIT then Err(Overflow(RecipientBalance))
      else Ok(Some(Account(recipient.balance + tx.value, recipient.nonce)))
  }

  /** The checks before any arithmetic. */
  function CheckTransfer(s: TransferState, tx: Unsigned, slot: u64): Option<TransferError> {
    if tx.rulesVersion != 1 then Some(UnsupportedRules(tx.rulesVersion))
    else if tx.kind != TRANSFER_KIND then Some(WrongKind(tx.kind))
    else if tx.tokenId != ETX_TOKEN_ID then Some(UnsupportedAsset(tx.tokenId))
    else if tx.gasLimit < INTRINSIC_GAS then Some(GasTooLow(tx.gasLimit))
    else if tx.nonce != s.AccountOf(tx.sender).nonce then
      Some(NonceMismatch(s.AccountOf(tx.sender).nonce, tx.nonce))
    else if slot < tx.validAfterSlot then Some(NotMature(slot, tx.validAfterSlot))
    else None
  }

  function CheckTotals(fx: Effects): Option<TransferError> {
    if fx.state.gasUsedTotal + INTRINSIC_GAS >= U64_LIMIT then Some(Overflow(TotalGas))
    else if fx.state.feesBurnedTotal + TRANSFER_FEE_QUARKS >= U128_LIMIT then Some(Overflow(TotalBurn))
    else if fx.outcome.gasUsed + INTRINSIC_GAS >= U64_LIMIT then Some(Overflow(BodyGas))
    else if fx.outcome.feesBurned + TRANSFER_FEE_QUARKS >= U64_LIMIT then Some(Overflow(BodyBurn))
    else None
  }

  function Credited(accounts: map<Address, Account>, a: Address, c: Option<Account>): map<Address, Account> {
    if c.None? then accounts else accounts[a := c.value]
  }

  /** Applies one authenticated transfer, or reports the first check that fails. */
  function ApplyTransfer(fx: Effects, proof: Authenticated, slot: u64): Result<Effects, TransferError> {
    var tx := proof.transaction;
    var s := fx.state;
    if CheckTransfer(s, tx, slot).Some? then Err(CheckTransfer(s, tx, slot).value)
    else if DebitSender(s, tx).Err? then Err(DebitSender(s, tx).error)
    else if CreditRecipient(s, tx).Err? then Err(CreditRecipient(s, tx).error)
    else if CheckTotals(fx).Some? then Err(CheckTotals(fx).value)
    else Ok(Effects(
      TransferState(
        Credited(s.accounts[tx.sender := DebitSender(s, tx).value], tx.recipient, CreditRecipient(s, tx).value),
        s.gasUsedTotal + INTRINSIC_GAS,
        s.feesBurnedTotal + TRANSFER_FEE_QUARKS),
      Outcome(
        fx.outcome.ids + [proof.id],
        fx.outcome.gasUsed + INTRINSIC_GAS,
        fx.outcome.feesBurned + TRANSFER_FEE_QUARKS)))
  }

  // ----- a whole body -----

  /** Authenticates every entry before anything executes. */
  function AuthenticateAll(body: seq<Bytes>, auth: Authenticator): Result<seq<Authenticated>, BodyError> {
    if body == [] then Ok([])
    else
      var n := |body| - 1;
      match AuthenticateAll(body[..n], auth)
      case Err(e) => Err(e)
      case Ok(proofs) =>
        match auth(body[n])
        case Err(e) => Err(BodyError(n, Authentication(e)))
        case Ok(p) => Ok(proofs + [p])
  }

  /** Executes authenticated entries in order. */
  function Execute(base: TransferState, proofs: seq<Authenticated>, slot: u64): Result<Effects, BodyError> {
    if proofs == [] then Ok(Effects(base, EMPTY_OUTCOME))
    else
      var n := |proofs| - 1;
      match Execute(base, proofs[..n], slot)
      case Err(e) => Err(e)
      case Ok(fx) =>
        match ApplyTransfer(fx, proofs[n], slot)
        case Err(cause) => Err(BodyError(n, cause))
        case Ok(fx') => Ok(fx')
  }

  /** The specification of staging: authenticate all, then execute all. */
  function Stage(base: TransferState, auth: Authenticator, slot: u64, body: seq<Bytes>)
    : Result<Effects, BodyError>
  {
    match AuthenticateAll(body, auth)
    case Err(e) => Err(e)
    case Ok(proofs) => Execute(base, proofs, slot)
  }

  datatype StagedBody = StagedBody(base: TransferState, effects: Effects, transactions: seq<Bytes>)

  /** `stage_body`: two loops, neither of which touches the base. */
  method StageBody(base: TransferState, auth: Authenticator, slot: u64, body: seq<Bytes>)
    returns (r: Result<StagedBody, BodyError>)
    ensures r.Ok? <==> Stage(base, auth, slot, body).Ok?
    ensures r.Ok? ==> r.value == StagedBody(base, Stage(base, auth, slot, body).value, body)
    ensures r.Err? ==> Stage(base, auth, slot, body) == Err(r.error) && r.error.index < |body|
  {
    var proofs: seq<Authenticated> := [];
    for i := 0 to |body|
      invariant AuthenticateAll(body[..i], auth) == Ok(proofs)
      invariant |proofs| == i
    {
      assert body[..i + 1][..i] == body[..i];
      match auth(body[i])
      case Err(e) =>
        FirstFailureStops(body, i, auth);
        return Err(BodyError(i, Authentication(e)));
      case Ok(p) =>
        proofs := proofs + [p];
    }
    assert body[..|body|] == body;
    var effects := Effects(base, EMPTY_OUTCOME);
    for i := 0 to |proofs|
      invariant Execute(base, proofs[..i], slot) == Ok(effects)
    {
      assert proofs[..i + 1][..i] == proofs[..i];
      match ApplyTransfer(effects, proofs[i], slot)
      case Err(cause) =>
        FirstExecutionFailureStops(base, proofs, i, slot);
        return Err(BodyError(i, cause));
      case Ok(next) =>
        effects := next;
    }
    assert proofs[..|proofs|] == proofs;
    return Ok(StagedBody(base, effects, body));
  }

  lemma {:induction false} FirstFailureStops(body: seq<Bytes>, i: nat, auth: Authenticator)
    requires i < |body| && AuthenticateAll(body[..i + 1], auth).Err?
    ensures AuthenticateAll(body, auth) == AuthenticateAll(body[..i + 1], auth)
    decreases |body|
  {
    if i + 1 < |body| {
      assert body[..|body| - 1][..i + 1] == body[..i + 1];
      FirstFailureStops(body[..|body| - 1], i, auth);
    } else {
      assert body[..i + 1] == body;
    }
  }

  lemma {:induction false} FirstExecutionFailureStops(base: TransferState, proofs: seq<Authenticated>, i: nat,
                                                      slot: u64)
    requires i < |proofs| && Execute(base, proofs[..i + 1], slot).Err?
    ensures Execute(base, proofs, slot) == Execute(base, proofs[..i + 1], slot)
    decreases |proofs|
  {
    if i + 1 < |proofs| {
      assert proofs[..|proofs| - 1][..i + 1] == proofs[..i + 1];
      FirstExecutionFailureStops(base, proofs[..|proofs| - 1], i, slot);
    } else {
      assert proofs[..i + 1] == proofs;
    }
  }

  // ----- installation -----

  datatype ApplyError = StaleBase | Persistence

  /** The live canonical state that a staged body may replace. */
  class LiveState {
    var state: TransferState

    constructor (initial: TransferState)
      ensures state == initial
    {
      state := initial;
    }

    /** `StagedBody::commit`: only an unchanged base and a successful store install the candidate. */
    method Commit(staged: StagedBody, persisted: bool) returns (r: Result<Outcome, ApplyError>)
      modifies this
      ensures r.Ok? <==> old(state) == staged.base && persisted
      ensures r.Ok? ==> state == staged.effects.state && r.value == staged.effects.outcome
      ensures r.Err? ==> state == old(state) && (r.error == StaleBase <==> old(state) != staged.base)
    {
      if state != staged.base {
        return Err(StaleBase);
      }
      if !persisted {
        return Err(Persistence);
      }
      state := staged.effects.state;
      return Ok(staged.effects.outcome);
    }
  }

  // ----- laws of the executor -----

  ghost function Balances(accounts: map<Address, Account>): map<Address, nat> {
    map a | a in accounts :: accounts[a].balance
  }

  /** All spendable ETX in a state. */
  ghost function TotalBalance(s: TransferState): nat {
    MapSum(Balances(s.accounts))
  }

  function CountFrom(proofs: seq<Authenticated>, a: Address): nat {
    if proofs == [] then 0
    else CountFrom(proofs[..|proofs| - 1], a) + (if proofs[|proofs| - 1].transaction.sender == a then 1 else 0)
  }

  function Ids(proofs: seq<Authenticated>): seq<Hash> {
    seq(|proofs|, i requires 0 <= i < |proofs| => proofs[i].id)
  }

  lemma BalancesUpdate(accounts: map<Address, Account>, a: Address, account: Account)
    ensures MapSum(Balances(accounts[a := account]))
         == MapSum(Balances(accounts)) - (if a in accounts then accounts[a].balance else 0) + account.balance
  {
    assert Balances(accounts[a := account]) == Balances(accounts)[a := account.balance];
    MapSumUpdate(Balances(accounts), a, account.balance);
  }

  /** One transfer burns the fee and moves the value: nothing else changes hands. */
  lemma TransferConserves(fx: Effects, proof: Authenticated, slot: u64)
    requires ApplyTransfer(fx, proof, slot).Ok?
    ensures var fx' := ApplyTransfer(fx, proof, slot).value;
      TotalBalance(fx'.state) + TRANSFER_FEE_QUARKS == TotalBalance(fx.state)
  {
    var tx, s := proof.transaction, fx.state;
    var sender := DebitSender(s, tx).value;
    BalancesUpdate(s.accounts, tx.sender, sender);
    if CreditRecipient(s, tx).value.Some? {
      BalancesUpdate(s.accounts[tx.sender := sender], tx.recipient, CreditRecipient(s, tx).value.value);
    }
  }

  /** The kind of transfer that the executor knows. */
  predicate KnownProfile(tx: Unsigned) {
    tx.rulesVersion == 1 && tx.kind == 0 && tx.tokenId == 0 && tx.gasLimit >= 1000
  }

  /** Room for one more transfer: in the sender's nonce, the recipient's balance, and all four totals. */
  predicate HasRoom(fx: Effects, tx: Unsigned) {
    var s := fx.state;
    && s.AccountOf(tx.sender).nonce + 1 < U64_LIMIT
    && (tx.recipient != tx.sender ==> s.AccountOf(tx.recipient).balance + tx.value < U128_LIMIT)
    && s.gasUsedTotal + 1000 < U64_LIMIT && s.feesBurnedTotal + 10000 < U128_LIMIT
    && fx.outcome.gasUsed + 1000 < U64_LIMIT && fx.outcome.feesBurned + 10000 < U64_LIMIT
  }

  /** A transfer succeeds exactly with the known profile, the sender's next nonce, a slot it has matured for,
      funds for value plus fee (also to oneself), and room. */
  lemma TransferExactly(fx: Effects, proof: Authenticated, slot: u64)
    ensures var tx := proof.transaction;
      ApplyTransfer(fx, proof, slot).Ok? <==>
        && KnownProfile(tx) && tx.nonce == fx.state.AccountOf(tx.sender).nonce && tx.validAfterSlot <= slot
        && tx.value + 10000 <= fx.state.AccountOf(tx.sender).balance && HasRoom(fx, tx)
  {}

  /** Which refusal comes first, for the checks a sender can fail. */
  lemma TransferRefusals(fx: Effects, proof: Authenticated, slot: u64)
    ensures var tx, r, account := proof.transaction, ApplyTransfer(fx, proof, slot),
        fx.state.AccountOf(proof.transaction.sender);
      && (r == Err(NonceMismatch(account.nonce, tx.nonce)) <==> KnownProfile(tx) && tx.nonce != account.nonce)
      && (r == Err(NotMature(slot, tx.validAfterSlot)) <==>
            KnownProfile(tx) && tx.nonce == account.nonce && slot < tx.validAfterSlot)
      && (r.Err? && r.error.InsufficientCombinedFunds? <==>
            && KnownProfile(tx) && tx.nonce == account.nonce && tx.validAfterSlot <= slot
            && account.balance < tx.value + 10000 < U128_LIMIT)
  {}

  /** Who pays and who receives: every balance plus what was sent equals the old balance plus what was
      received. An account appears exactly by sending, or by receiving a value. */
  lemma TransferMoves(fx: Effects, proof: Authenticated, slot: u64, a: Address)
    requires ApplyTransfer(fx, proof, slot).Ok?
    ensures var s, tx := ApplyTransfer(fx, proof, slot).value.state, proof.transaction;
      && s.AccountOf(a).balance + (if a == tx.sender then tx.value + 10000 else 0)
         == fx.state.AccountOf(a).balance + (if a == tx.recipient then tx.value else 0)
      && (a in s.accounts <==> a in fx.state.accounts || a == tx.sender || (a == tx.recipient && tx.value > 0))
  {}

  /** What an address pays in a body, fees included. */
  function SentBy(proofs: seq<Authenticated>, a: Address): nat {
    if proofs == [] then 0
    else
      var tx := proofs[|proofs| - 1].transaction;
      SentBy(proofs[..|proofs| - 1], a) + (if tx.sender == a then tx.value + 10000 else 0)
  }

  /** What an address receives in a body. */
  function ReceivedBy(proofs: seq<Authenticated>, a: Address): nat {
    if proofs == [] then 0
    else
      var tx := proofs[|proofs| - 1].transaction;
      ReceivedBy(proofs[..|proofs| - 1], a) + (if tx.recipient == a then tx.value else 0)
  }

  /** A whole body moves exactly what its entries say, for every address. */
  lemma {:induction false} ExecuteMoves(base: TransferState, proofs: seq<Authenticated>, slot: u64, a: Address)
    requires Execute(base, proofs, slot).Ok?
    ensures var s := Execute(base, proofs, slot).value.state;
      s.AccountOf(a).balance + SentBy(proofs, a) == base.AccountOf(a).balance + ReceivedBy(proofs, a)
  {
    if proofs != [] {
      var n := |proofs| - 1;
      ExecuteMoves(base, proofs[..n], slot, a);
      TransferMoves(Execute(base, proofs[..n], slot).value, proofs[n], slot, a);
    }
  }

  /** One transfer raises its sender's nonce by one, and no other nonce; no account disappears. */
  lemma TransferNonces(fx: Effects, proof: Authenticated, slot: u64, a: Address)
    requires ApplyTransfer(fx, proof, slot).Ok?
    ensures var s := ApplyTransfer(fx, proof, slot).value.state;
      && s.AccountOf(a).nonce == fx.state.AccountOf(a).nonce + (if proof.transaction.sender == a then 1 else 0)
      && (a in fx.state.accounts ==> a in s.accounts)
  {}

  /** Every sender's nonce rises by the number of its entries, self-transfers included, and no account
      disappears. */
  lemma {:induction false} ExecuteNonces(base: TransferState, proofs: seq<Authenticated>, slot: u64, a: Address)
    requires Execute(base, proofs, slot).Ok?
    ensures var s := Execute(base, proofs, slot).value.state;
      && s.AccountOf(a).nonce == base.AccountOf(a).nonce + CountFrom(proofs, a)
      && (a in base.accounts ==> a in s.accounts)
  {
    if proofs != [] {
      var n := |proofs| - 1;
      ExecuteNonces(base, proofs[..n], slot, a);
      TransferNonces(Execute(base, proofs[..n], slot).value, proofs[n], slot, a);
    }
  }

  /** What every successful body does, from every state: balances plus burns are conserved, each entry
      costs exactly 1,000 gas and burns exactly 10,000 quarks, and identifiers come out in order. */
  lemma {:induction false} ExecuteLaws(base: TransferState, proofs: seq<Authenticated>, slot: u64)
    requires Execute(base, proofs, slot).Ok?
    ensures var fx := Execute(base, proofs, slot).value;
      && TotalBalance(fx.state) + fx.state.feesBurnedTotal == TotalBalance(base) + base.feesBurnedTotal
      && fx.state.gasUsedTotal == base.gasUsedTotal + 1000 * |proofs|
      && fx.state.feesBurnedTotal == base.feesBurnedTotal + 10000 * |proofs|
      && fx.outcome.gasUsed == 1000 * |proofs|
      && fx.outcome.feesBurned == 10000 * |proofs|
      && fx.outcome.ids == Ids(proofs)
  {
    if proofs == [] {
      assert Ids(proofs) == [];
    } else {
      var n := |proofs| - 1;
      ExecuteLaws(base, proofs[..n], slot);
      TransferConserves(Execute(base, proofs[..n], slot).value, proofs[n], slot);
      assert Ids(proofs) == Ids(proofs[..n]) + [proofs[n].id];
    }
  }

  /** Accounts that neither send nor receive keep their record exactly. */
  lemma {:induction false} BystandersUntouched(base: TransferState, proofs: seq<Authenticated>, slot: u64, a: Address)
    requires Execute(base, proofs, slot).Ok?
    requires forall p :: p in proofs ==> p.transaction.sender != a && p.transaction.recipient != a
    ensures var s := Execute(base, proofs, slot).value.state;
      (a in s.accounts <==> a in base.accounts) && s.AccountOf(a) == base.AccountOf(a)
  {
    if proofs != [] {
      BystandersUntouched(base, proofs[..|proofs| - 1], slot, a);
    }
  }

  /** Execution of a prefix succeeds whenever the whole does. */
  lemma {:induction false} PrefixExecutes(base: TransferState, proofs: seq<Authenticated>, slot: u64, i: nat)
    requires i <= |proofs| && Execute(base, proofs, slot).Ok?
    ensures Execute(base, proofs[..i], slot).Ok?
    decreases |proofs|
  {
    if i < |proofs| {
      PrefixExecutes(base, proofs[..|proofs| - 1], slot, i);
      assert proofs[..|proofs| - 1][..i] == proofs[..i];
    } else {
      assert proofs[..i] == proofs;
    }
  }

  /** The i-th entry carries exactly the nonce its sender has reached. */
  lemma NonceAtPosition(base: TransferState, proofs: seq<Authenticated>, slot: u64, i: nat)
    requires i < |proofs| && Execute(base, proofs, slot).Ok?
    ensures proofs[i].transaction.nonce
         == base.AccountOf(proofs[i].transaction.sender).nonce + CountFrom(proofs[..i], proofs[i].transaction.sender)
  {
    PrefixExecutes(base, proofs, slot, i + 1);
    PrefixExecutes(base, proofs, slot, i);
    assert proofs[..i + 1][..i] == proofs[..i];
    ExecuteNonces(base, proofs[..i], slot, proofs[i].transaction.sender);
  }

  lemma {:induction false} CountFromGrows(proofs: seq<Authenticated>, i: nat, j: nat, a: Address)
    requires i <= j <= |proofs|
    ensures CountFrom(proofs[..i], a) <= CountFrom(proofs[..j], a)
    ensures i < j && proofs[i].transaction.sender == a ==> CountFrom(proofs[..i], a) < CountFrom(proofs[..j], a)
    decreases j - i
  {
    if i < j {
      CountFromGrows(proofs, i, j - 1, a);
      assert proofs[..j][..j - 1] == proofs[..j - 1];
    }
  }

  /** No two entries of a successful body share a sender and nonce. */
  lemma BodyNoncesDistinct(base: TransferState, proofs: seq<Authenticated>, slot: u64, i: nat, j: nat)
    requires i < j < |proofs| && Execute(base, proofs, slot).Ok?
    ensures (proofs[i].transaction.sender, proofs[i].transaction.nonce)
         != (proofs[j].transaction.sender, proofs[j].transaction.nonce)
  {
    NonceAtPosition(base, proofs, slot, i);
    NonceAtPosition(base, proofs, slot, j);
    CountFromGrows(proofs, i, j, proofs[i].transaction.sender);
  }

  /** Every executed nonce lies in the half-open range from the sender's old nonce to its new one. */
  lemma NoncesConsumed(base: TransferState, proofs: seq<Authenticated>, slot: u64, i: nat)
    requires i < |proofs| && Execute(base, proofs, slot).Ok?
    ensures var a := proofs[i].transaction.sender;
      base.AccountOf(a).nonce <= proofs[i].transaction.nonce
      < Execute(base, proofs, slot).value.state.AccountOf(a).nonce
  {
    NonceAtPosition(base, proofs, slot, i);
    CountFromGrows(proofs, i, |proofs|, proofs[i].transaction.sender);
    assert proofs[..|proofs|] == proofs;
    ExecuteNonces(base, proofs, slot, proofs[i].transaction.sender);
  }

  lemma {:induction false} AuthenticateAllFacts(body: seq<Bytes>, auth: Authenticator)
    requires AuthenticateAll(body, auth).Ok?
    ensures var proofs := AuthenticateAll(body, auth).value;
      && |proofs| == |body|
      && forall i :: 0 <= i < |body| ==> auth(body[i]) == Ok(proofs[i])
  {
    if body != [] {
      AuthenticateAllFacts(body[..|body| - 1], auth);
    }
  }

  lemma {:induction false} AuthenticatesPrefix(body: seq<Bytes>, auth: Authenticator, i: nat)
    requires i <= |body| && forall j :: 0 <= j < i ==> auth(body[j]).Ok?
    ensures AuthenticateAll(body[..i], auth).Ok?
  {
    if i > 0 {
      AuthenticatesPrefix(body, auth, i - 1);
      assert body[..i][..i - 1] == body[..i - 1];
    }
  }

  /** The first entry that does not authenticate is reported, before anything executes, whatever the state. */
  lemma AuthenticationFailsFirst(base: TransferState, auth: Authenticator, slot: u64, body: seq<Bytes>, i: nat)
    requires i < |body| && auth(body[i]).Err? && forall j :: 0 <= j < i ==> auth(body[j]).Ok?
    ensures Stage(base, auth, slot, body) == Err(BodyError(i, Authentication(auth(body[i]).error)))
  {
    AuthenticatesPrefix(body, auth, i);
    assert body[..i + 1][..i] == body[..i];
    FirstFailureStops(body, i, auth);
  }

  /** If all entries authenticate, the first transfer that is refused is reported. */
  lemma ExecutionFailsFirst(base: TransferState, auth: Authenticator, slot: u64, body: seq<Bytes>,
                            proofs: seq<Authenticated>, i: nat)
    requires AuthenticateAll(body, auth) == Ok(proofs) && i < |proofs| && Execute(base, proofs[..i], slot).Ok?
    requires ApplyTransfer(Execute(base, proofs[..i], slot).value, proofs[i], slot).Err?
    ensures Stage(base, auth, slot, body)
      == Err(BodyError(i, ApplyTransfer(Execute(base, proofs[..i], slot).value, proofs[i], slot).error))
  {
    assert proofs[..i + 1][..i] == proofs[..i];
    FirstExecutionFailureStops(base, proofs, i, slot);
  }

  /** A body is spent: staging the same non-empty body again on its own result fails at its first
      entry, whatever the slot, because that entry's nonce has been used. */
  lemma StagedBodyIsSpent(base: TransferState, auth: Authenticator, slot: u64, body: seq<Bytes>, later: u64)
    requires body != [] && Stage(base, auth, slot, body).Ok?
    ensures Stage(Stage(base, auth, slot, body).value.state, auth, later, body).Err?
    ensures var e := Stage(Stage(base, auth, slot, body).value.state, auth, later, body).error;
      e.index == 0 && e.cause.NonceMismatch? && e.cause.actual < e.cause.expected
  {
    var proofs := AuthenticateAll(body, auth).value;
    AuthenticateAllFacts(body, auth);
    var after := Execute(base, proofs, slot).value.state;
    NoncesConsumed(base, proofs, slot, 0);
    PrefixExecutes(base, proofs, slot, 1);
    assert proofs[..1][..0] == [];
    assert CheckTransfer(base, proofs[0].transaction, slot).None?;
    assert CheckTransfer(after, proofs[0].transaction, later).value.NonceMismatch?;
    FirstExecutionFailureStops(after, proofs, 0, later);
  }
}
