/** The producer's transaction pool: admission, conservative selection and cleanup
    (examples/testnet_support/producer.rs). */
module ProducerPool {
  import opened Base
  import opened ByteOrder
  import opened Crypto
  import opened NativeTransaction
  import opened NativeTransfer
  import opened Sums

  const MAX_POOL: nat := 128
  const MAX_TRANSACTIONS: nat := 16

  datatype Entry = Entry(id: Hash, raw: SignedBytes, unsigned: Unsigned) {
    function Debit(): nat {
      unsigned.value + TRANSFER_FEE_QUARKS
    }
  }

  /** The ordered-map key order: sender first, then nonce. */
  predicate KeyLess(a: Entry, b: Entry) {
    LexLess(a.unsigned.sender, b.unsigned.sender)
    || (a.unsigned.sender == b.unsigned.sender && a.unsigned.nonce < b.unsigned.nonce)
  }

  predicate SameKey(a: Entry, b: Entry) {
    a.unsigned.sender == b.unsigned.sender && a.unsigned.nonce == b.unsigned.nonce
  }

  ghost predicate Sorted(entries: seq<Entry>) {
    forall i, j :: 0 <= i < j < |entries| ==> KeyLess(entries[i], entries[j])
  }

  /** Admission authenticated the exact bytes and bounded value plus fee. */
  ghost predicate Admitted(e: Entry, auth: Authenticator) {
    auth(e.raw) == Ok(Authenticated(e.unsigned, e.id)) && Executable(e.unsigned) && e.Debit() < U128_LIMIT
  }

  ghost predicate ValidEntries(entries: seq<Entry>, auth: Authenticator) {
    Sorted(entries) && |entries| <= MAX_POOL && forall e :: e in entries ==> Admitted(e, auth)
  }

  lemma KeyTotal(a: Entry, b: Entry, c: Entry)
    ensures KeyLess(a, b) || SameKey(a, b) || KeyLess(b, a)
    ensures !(KeyLess(a, b) && SameKey(a, b)) && !(KeyLess(a, b) && KeyLess(b, a))
    ensures KeyLess(a, b) && KeyLess(b, c) ==> KeyLess(a, c)
  {
    LexTrichotomy(a.unsigned.sender, b.unsigned.sender);
    LexTrichotomy(a.unsigned.sender, a.unsigned.sender);
    LexTransitive(a.unsigned.sender, b.unsigned.sender, c.unsigned.sender);
  }

  // ----- selection, as a fold over the sorted entries -----

  datatype Held = Held(gap: nat, immature: nat, funds: nat, stale: nat, capacity: nat)

  datatype Picking = Picking(picked: seq<Entry>, reservations: map<Address, Account>, held: Held)

  const NOTHING_PICKED := Picking([], map[], Held(0, 0, 0, 0, 0))

  /** What is left of an account after the reservations made so far. */
  function Reserved(p: Picking, state: TransferState, a: Address): Account {
    if a in p.reservations then p.reservations[a] else state.AccountOf(a)
  }

  predicate Selectable(r: Account, slot: u64, e: Entry) {
    e.unsigned.nonce == r.nonce && e.unsigned.validAfterSlot <= slot && e.Debit() <= r.balance
  }

  /** The counter that an unselectable entry falls under. */
  function Hold(held: Held, r: Account, slot: u64, e: Entry): Held {
    if e.unsigned.nonce < r.nonce then held.(stale := held.stale + 1)
    else if e.unsigned.nonce != r.nonce then held.(gap := held.gap + 1)
    else if e.unsigned.validAfterSlot > slot then held.(immature := held.immature + 1)
    else held.(funds := held.funds + 1)
  }

  function Spend(r: Account, e: Entry): Account
    requires e.Debit() <= r.balance
  {
    Account(r.balance - e.Debit(), if r.nonce + 1 < U64_LIMIT then r.nonce + 1 else r.nonce)
  }

  /** Considers one entry against the reservations made so far. */
  function Consider(p: Picking, state: TransferState, slot: u64, e: Entry): Picking {
    var sender := e.unsigned.sender;
    var r := Reserved(p, state, sender);
    if |p.picked| == MAX_TRANSACTIONS then
      Picking(p.picked, p.reservations, p.held.(capacity := p.held.capacity + 1))
    else if Selectable(r, slot, e) then
      Picking(p.picked + [e], p.reservations[sender := Spend(r, e)], p.held)
    else
      Picking(p.picked, p.reservations[sender := r], Hold(p.held, r, slot, e))
  }

  function Pick(entries: seq<Entry>, state: TransferState, slot: u64): Picking {
    if entries == [] then NOTHING_PICKED
    else Consider(Pick(entries[..|entries| - 1], state, slot), state, slot, entries[|entries| - 1])
  }

  function Raws(entries: seq<Entry>): seq<Bytes> {
    seq(|entries|, i requires 0 <= i < |entries| => entries[i].raw)
  }

  function ProofsOf(entries: seq<Entry>): seq<Authenticated> {
    seq(|entries|, i requires 0 <= i < |entries| => Authenticated(entries[i].unsigned, entries[i].id))
  }

  datatype Admission = NewlyAdmitted | DuplicateId | AlreadyIncluded

  datatype PoolError =
    | Unauthenticated(error: TxError) | IdContentMismatch | StaleNonce | UnrepresentableDebit
    | SlotTaken | Full

  function InsertAt(entries: seq<Entry>, at: nat, e: Entry): seq<Entry>
    requires at <= |entries|
  {
    entries[..at] + [e] + entries[at..]
  }

  /** The first entry with an identifier. */
  function FirstWithId(entries: seq<Entry>, id: Hash): (r: Option<nat>)
    ensures r.Some? ==> r.value < |entries| && entries[r.value].id == id
    ensures r.Some? ==> forall i :: 0 <= i < r.value ==> entries[i].id != id
    ensures r.None? ==> forall i :: 0 <= i < |entries| ==> entries[i].id != id
  {
    if entries == [] then None
    else
      var earlier := FirstWithId(entries[..|entries| - 1], id);
      if earlier.Some? then earlier
      else if entries[|entries| - 1].id == id then Some(|entries| - 1) else None
  }

  predicate KeyTaken(entries: seq<Entry>, e: Entry) {
    exists i :: 0 <= i < |entries| && SameKey(entries[i], e)
  }

  /** The answer to a submission, independent of how the pool searches: authentication, then the identifier,
      the archive, the canonical nonce, the exposure, the key and the capacity. */
  function Answer(entries: seq<Entry>, bytes: Bytes, auth: Authenticator, included: set<Hash>, state: TransferState)
    : Result<Admission, PoolError>
    requires auth(bytes).Ok? ==> |bytes| == SIGNED_LEN
  {
    match auth(bytes)
    case Err(error) => Err(Unauthenticated(error))
    case Ok(proof) =>
      var e := Entry(proof.id, bytes, proof.transaction);
      var known := FirstWithId(entries, e.id);
      if known.Some? then (if entries[known.value].raw != bytes then Err(IdContentMismatch) else Ok(DuplicateId))
      else if e.id in included then Ok(AlreadyIncluded)
      else if e.unsigned.nonce < state.AccountOf(e.unsigned.sender).nonce then Err(StaleNonce)
      else if e.Debit() >= U128_LIMIT then Err(UnrepresentableDebit)
      else if KeyTaken(entries, e) then Err(SlotTaken)
      else if |entries| == MAX_POOL then Err(Full)
      else Ok(NewlyAdmitted)
  }

  /** In a sorted pool a key is taken exactly if the first entry not below it has that key. */
  lemma TakenAtItsPlace(entries: seq<Entry>, at: nat, e: Entry)
    requires Sorted(entries) && at <= |entries| && (forall i :: 0 <= i < at ==> KeyLess(entries[i], e))
    requires at < |entries| ==> !KeyLess(entries[at], e)
    ensures KeyTaken(entries, e) <==> at < |entries| && SameKey(entries[at], e)
  {
    forall i | 0 <= i < |entries| && i != at
      ensures !SameKey(entries[i], e)
    {
      KeyTotal(entries[i], e, e);
    }
  }

  // ----- the pool itself -----

  class Pool {
    /** The entries in key order, as the ordered map iterates them. */
    var entries: seq<Entry>

    constructor ()
      ensures entries == []
    {
      entries := [];
    }

    /** Admission authenticates first, then looks for the same identifier, the archive, the canonical
        nonce, the exposure, the key and the capacity, in that order. */
    method Submit(bytes: Bytes, auth: Authenticator, included: set<Hash>, state: TransferState)
      returns (r: Result<Admission, PoolError>)
      requires Faithful(auth) && ValidEntries(entries, auth)
      modifies this
      ensures auth(bytes).Ok? ==> |bytes| == SIGNED_LEN
      ensures r == Answer(old(entries), bytes, auth, included, state)
      ensures ValidEntries(entries, auth)
      ensures r != Ok(NewlyAdmitted) ==> entries == old(entries)
      ensures r == Ok(NewlyAdmitted) ==>
        exists at: nat, e: Entry :: at <= |old(entries)| && e.raw == bytes && Admitted(e, auth)
          && entries == InsertAt(old(entries), at, e)
          && e.id !in included && e.unsigned.nonce >= state.AccountOf(e.unsigned.sender).nonce
    {
      var proof := auth(bytes);
      if proof.Err? {
        return Err(Unauthenticated(proof.error));
      }
      assert Describes(proof.value, bytes);
      var e := Entry(proof.value.id, bytes, proof.value.transaction);
      var i := 0;
      while i < |entries| && entries[i].id != e.id
        invariant i <= |entries| && forall j :: 0 <= j < i ==> entries[j].id != e.id
      {
        i := i + 1;
      }
      if i < |entries| {
        return if entries[i].raw != bytes then Err(IdContentMismatch) else Ok(DuplicateId);
      }
      if e.id in included {
        return Ok(AlreadyIncluded);
      }
      if e.unsigned.nonce < state.AccountOf(e.unsigned.sender).nonce {
        return Err(StaleNonce);
      }
      if e.Debit() >= U128_LIMIT {
        return Err(UnrepresentableDebit);
      }
      var at := 0;
      while at < |entries| && KeyLess(entries[at], e)
        invariant at <= |entries|
        invariant forall i :: 0 <= i < at ==> KeyLess(entries[i], e)
      {
        at := at + 1;
      }
      TakenAtItsPlace(entries, at, e);
      if at < |entries| && SameKey(entries[at], e) {
        return Err(SlotTaken);
      }
      if |entries| == MAX_POOL {
        return Err(Full);
      }
      InsertKeepsOrder(entries, at, e);
      entries := InsertAt(entries, at, e);
      assert Admitted(e, auth);
      return Ok(NewlyAdmitted);
    }

    /** The selection loop over entries, reservations and hold counters. */
    method Select(state: TransferState, slot: u64, ghost auth: Authenticator) returns (body: seq<Bytes>, held: Held)
      requires ValidEntries(entries, auth)
      ensures body == Raws(Pick(entries, state, slot).picked)
      ensures held == Pick(entries, state, slot).held
    {
      var picked: seq<Entry> := [];
      var reservations: map<Address, Account> := map[];
      held := Held(0, 0, 0, 0, 0);
      for i := 0 to |entries|
        invariant Pick(entries[..i], state, slot) == Picking(picked, reservations, held)
      {
        assert entries[..i + 1][..i] == entries[..i];
        var e := entries[i];
        assert Admitted(e, auth);
        if |picked| == MAX_TRANSACTIONS {
          held := held.(capacity := held.capacity + 1);
          continue;
        }
        var sender := e.unsigned.sender;
        var r := if sender in reservations then reservations[sender] else state.AccountOf(sender);
        reservations := reservations[sender := r];
        if e.unsigned.nonce < r.nonce {
          held := held.(stale := held.stale + 1);
        } else if e.unsigned.nonce != r.nonce {
          held := held.(gap := held.gap + 1);
        } else if e.unsigned.validAfterSlot > slot {
          held := held.(immature := held.immature + 1);
        } else if e.Debit() > r.balance {
          held := held.(funds := held.funds + 1);
        } else {
          reservations := reservations[sender := Account(r.balance - e.Debit(), r.nonce + 1)];
          picked := picked + [e];
        }
      }
      assert entries[..|entries|] == entries;
      body := Raws(picked);
    }

    /** Drops every entry that is archived or whose nonce has been used. */
    method Reconcile(included: set<Hash>, state: TransferState, ghost auth: Authenticator) returns (removed: nat)
      requires ValidEntries(entries, auth)
      modifies this
      ensures entries == Retained(old(entries), included, state)
      ensures removed == |old(entries)| - |entries|
      ensures ValidEntries(entries, auth)
    {
      var kept: seq<Entry> := [];
      for i := 0 to |entries|
        invariant kept == Retained(entries[..i], included, state)
        invariant |kept| <= i
      {
        assert entries[..i + 1][..i] == entries[..i];
        var e := entries[i];
        if e.id !in included && e.unsigned.nonce >= state.AccountOf(e.unsigned.sender).nonce {
          kept := kept + [e];
        }
      }
      assert entries[..|entries|] == entries;
      RetainedIsValid(entries, included, state, auth);
      removed := |entries| - |kept|;
      entries := kept;
    }
  }

  function Retained(entries: seq<Entry>, included: set<Hash>, state: TransferState): seq<Entry> {
    if entries == [] then []
    else
      var e := entries[|entries| - 1];
      Retained(entries[..|entries| - 1], included, state)
      + (if e.id !in included && e.unsigned.nonce >= state.AccountOf(e.unsigned.sender).nonce then [e] else [])
  }

  lemma {:induction false} RetainedMembers(entries: seq<Entry>, included: set<Hash>, state: TransferState, e: Entry)
    ensures e in Retained(entries, included, state)
      <==> e in entries && e.id !in included && e.unsigned.nonce >= state.AccountOf(e.unsigned.sender).nonce
    ensures |Retained(entries, included, state)| <= |entries|
  {
    if entries != [] {
      var n := |entries| - 1;
      RetainedMembers(entries[..n], included, state, e);
      assert entries == entries[..n] + [entries[n]];
    }
  }

  lemma {:induction false} RetainedSorted(entries: seq<Entry>, included: set<Hash>, state: TransferState)
    requires Sorted(entries)
    ensures Sorted(Retained(entries, included, state))
  {
    if entries != [] {
      var n := |entries| - 1;
      RetainedSorted(entries[..n], included, state);
      forall e | e in Retained(entries[..n], included, state)
        ensures KeyLess(e, entries[n])
      {
        RetainedMembers(entries[..n], included, state, e);
      }
    }
  }

  lemma RetainedIsValid(entries: seq<Entry>, included: set<Hash>, state: TransferState, auth: Authenticator)
    requires ValidEntries(entries, auth)
    ensures ValidEntries(Retained(entries, included, state), auth)
  {
    RetainedSorted(entries, included, state);
    var kept := Retained(entries, included, state);
    if entries != [] {
      RetainedMembers(entries, included, state, entries[0]);
    }
    forall e | e in kept
      ensures Admitted(e, auth)
    {
      RetainedMembers(entries, included, state, e);
    }
  }

  lemma InsertKeepsOrder(entries: seq<Entry>, at: nat, e: Entry)
    requires Sorted(entries) && at <= |entries|
    requires forall i :: 0 <= i < at ==> KeyLess(entries[i], e)
    requires at < |entries| ==> !KeyLess(entries[at], e) && !SameKey(entries[at], e)
    ensures Sorted(InsertAt(entries, at, e))
  {
    forall j | at <= j < |entries|
      ensures KeyLess(e, entries[j])
    {
      KeyTotal(e, entries[at], entries[j]);
    }
    forall i, j | 0 <= i < at <= j < |entries|
      ensures KeyLess(entries[i], entries[j])
    {}
  }

  // ----- the selected body executes -----

  /** Room in the two running totals for a body of a given size. */
  predicate Headroom(state: TransferState, n: nat) {
    state.gasUsedTotal + 1000 * n < U64_LIMIT && state.feesBurnedTotal + 10000 * n < U128_LIMIT
  }

  /** The relation between reservations and the real candidate state at every position: real balances
      are at least the reserved ones, and real nonces are the reserved ones. */
  ghost predicate Covers(p: Picking, state: TransferState, actual: TransferState) {
    forall a: Address :: CoversAt(p, state, actual, a)
  }

  predicate CoversAt(p: Picking, state: TransferState, actual: TransferState, a: Address) {
    Reserved(p, state, a).balance <= actual.AccountOf(a).balance
    && Reserved(p, state, a).nonce == actual.AccountOf(a).nonce
  }

  lemma TransferSucceeds(fx: Effects, proof: Authenticated, slot: u64)
    requires var tx := proof.transaction;
      && Executable(tx)
      && tx.nonce == fx.state.AccountOf(tx.sender).nonce
      && tx.validAfterSlot <= slot
      && tx.value + TRANSFER_FEE_QUARKS <= fx.state.AccountOf(tx.sender).balance
    requires TotalBalance(fx.state) < U128_LIMIT
    requires CheckTotals(fx).None?
    ensures ApplyTransfer(fx, proof, slot).Ok?
  {
    var tx := proof.transaction;
    if tx.sender != tx.recipient {
      TwoEntries(Balances(fx.state.accounts), tx.sender, tx.recipient);
    }
  }

  /** A transfer takes at most its debit from the sender and nothing from anyone else. */
  lemma TransferTakesDebit(fx: Effects, proof: Authenticated, slot: u64, a: Address)
    requires ApplyTransfer(fx, proof, slot).Ok?
    ensures var s, tx := ApplyTransfer(fx, proof, slot).value.state, proof.transaction;
      fx.state.AccountOf(a).balance <= s.AccountOf(a).balance
        + (if a == tx.sender then tx.value + TRANSFER_FEE_QUARKS else 0)
  {}

  /** One selected entry executes and keeps the reservations below the real state. */
  lemma SelectedCovers(p: Picking, state: TransferState, slot: u64, e: Entry, fx: Effects)
    requires Executable(e.unsigned) && |p.picked| < MAX_TRANSACTIONS
    requires Selectable(Reserved(p, state, e.unsigned.sender), slot, e)
    requires Covers(p, state, fx.state)
    requires TotalBalance(fx.state) < U128_LIMIT && CheckTotals(fx).None?
    ensures var r := ApplyTransfer(fx, Authenticated(e.unsigned, e.id), slot);
      r.Ok? && Covers(Consider(p, state, slot, e), state, r.value.state)
  {
    var proof := Authenticated(e.unsigned, e.id);
    assert CoversAt(p, state, fx.state, e.unsigned.sender);
    TransferSucceeds(fx, proof, slot);
    var s := ApplyTransfer(fx, proof, slot).value.state;
    forall a: Address
      ensures CoversAt(Consider(p, state, slot, e), state, s, a)
    {
      assert CoversAt(p, state, fx.state, a);
      TransferTakesDebit(fx, proof, slot, a);
      TransferNonces(fx, proof, slot, a);
    }
  }

  lemma SkippedCovers(p: Picking, state: TransferState, slot: u64, e: Entry, actual: TransferState)
    requires Covers(p, state, actual) && Consider(p, state, slot, e).picked == p.picked
    ensures Covers(Consider(p, state, slot, e), state, actual)
  {
    assert |p.picked + [e]| != |p.picked|;
    forall a: Address
      ensures CoversAt(Consider(p, state, slot, e), state, actual, a)
    {
      assert CoversAt(p, state, actual, a);
    }
  }

  /** The picked entries execute, and the reservations stay below the state they lead to. */
  ghost predicate Sound(p: Picking, state: TransferState, slot: u64) {
    && |p.picked| <= MAX_TRANSACTIONS
    && Execute(state, ProofsOf(p.picked), slot).Ok?
    && Covers(p, state, Execute(state, ProofsOf(p.picked), slot).value.state)
  }

  lemma ConsiderSound(p: Picking, state: TransferState, slot: u64, e: Entry)
    requires Sound(p, state, slot) && Executable(e.unsigned)
    requires TotalBalance(state) < U128_LIMIT
    requires Headroom(state, |Consider(p, state, slot, e).picked|)
    ensures Sound(Consider(p, state, slot, e), state, slot)
  {
    var p' := Consider(p, state, slot, e);
    var fx := Execute(state, ProofsOf(p.picked), slot).value;
    if p'.picked == p.picked {
      SkippedCovers(p, state, slot, e, fx.state);
    } else {
      ExecuteLaws(state, ProofsOf(p.picked), slot);
      SelectedCovers(p, state, slot, e, fx);
      assert ProofsOf(p'.picked)[..|p.picked|] == ProofsOf(p.picked);
    }
  }

  lemma {:induction false} PickSound(entries: seq<Entry>, state: TransferState, slot: u64)
    requires forall e :: e in entries ==> Executable(e.unsigned)
    requires TotalBalance(state) < U128_LIMIT
    requires Headroom(state, |Pick(entries, state, slot).picked|)
    ensures Sound(Pick(entries, state, slot), state, slot)
  {
    if entries == [] {
      assert ProofsOf([]) == [];
      forall a: Address
        ensures CoversAt(NOTHING_PICKED, state, state, a)
      {}
    } else {
      var n := |entries| - 1;
      PickSound(entries[..n], state, slot);
      ConsiderSound(Pick(entries[..n], state, slot), state, slot, entries[n]);
    }
  }

  lemma {:induction false} PickedAreEntries(entries: seq<Entry>, state: TransferState, slot: u64, e: Entry)
    requires e in Pick(entries, state, slot).picked
    ensures e in entries
  {
    if entries != [] {
      var p := Pick(entries[..|entries| - 1], state, slot);
      if e in p.picked {
        PickedAreEntries(entries[..|entries| - 1], state, slot, e);
      }
    }
  }

  lemma {:induction false} AuthenticatePicked(picked: seq<Entry>, auth: Authenticator)
    requires forall e :: e in picked ==> Admitted(e, auth)
    ensures AuthenticateAll(Raws(picked), auth) == Ok(ProofsOf(picked))
  {
    if picked == [] {
      assert Raws(picked) == [] && ProofsOf(picked) == [];
    } else {
      var n := |picked| - 1;
      AuthenticatePicked(picked[..n], auth);
      assert Raws(picked)[..n] == Raws(picked[..n]);
      assert ProofsOf(picked) == ProofsOf(picked[..n]) + [Authenticated(picked[n].unsigned, picked[n].id)];
      assert Admitted(picked[n], auth);
    }
  }

  /** The hard theorem of the pool: although selection ignores every credit and never executes anything,
      the real executor accepts the selected body, exactly when the gas and burn totals have room for
      it. */
  lemma SelectionExecutes(entries: seq<Entry>, state: TransferState, slot: u64, auth: Authenticator)
    requires forall e :: e in entries ==> Admitted(e, auth)
    requires TotalBalance(state) < U128_LIMIT
    ensures var body := Raws(Pick(entries, state, slot).picked);
      Stage(state, auth, slot, body).Ok? <==> Headroom(state, |body|)
  {
    var picked := Pick(entries, state, slot).picked;
    forall e | e in picked
      ensures Admitted(e, auth)
    {
      PickedAreEntries(entries, state, slot, e);
    }
    AuthenticatePicked(picked, auth);
    if Headroom(state, |picked|) {
      PickSound(entries, state, slot);
    } else if Execute(state, ProofsOf(picked), slot).Ok? {
      ExecuteLaws(state, ProofsOf(picked), slot);
    }
  }

  // ----- nothing selectable is left behind -----

  /** Considering one more entry never makes an earlier, unselected entry selectable again: the key
      order puts every later entry of the same sender at a higher nonce. */
  lemma LaterEntryKeepsOut(p: Picking, state: TransferState, slot: u64, e: Entry, last: Entry)
    requires KeyLess(e, last) && Executable(last.unsigned) && |p.picked| < MAX_TRANSACTIONS
    requires !Selectable(Reserved(p, state, e.unsigned.sender), slot, e)
    ensures !Selectable(Reserved(Consider(p, state, slot, last), state, e.unsigned.sender), slot, e)
  {
    LexTrichotomy(e.unsigned.sender, e.unsigned.sender);
  }

  /** Greedy selection is maximal: when the body has room left, every entry that was not selected is
      unselectable against the final reservations. */
  lemma {:induction false} SelectionIsMaximal(entries: seq<Entry>, state: TransferState, slot: u64, i: nat)
    requires Sorted(entries) && i < |entries| && forall e :: e in entries ==> Executable(e.unsigned)
    requires |Pick(entries, state, slot).picked| < MAX_TRANSACTIONS
    ensures entries[i] in Pick(entries, state, slot).picked
      || !Selectable(Reserved(Pick(entries, state, slot), state, entries[i].unsigned.sender), slot, entries[i])
  {
    var n := |entries| - 1;
    var p := Pick(entries[..n], state, slot);
    PickedGrows(p, state, slot, entries[n]);
    if i < n {
      SelectionIsMaximal(entries[..n], state, slot, i);
      if entries[i] !in p.picked {
        LaterEntryKeepsOut(p, state, slot, entries[i], entries[n]);
      }
    } else {
      JustConsidered(p, state, slot, entries[n]);
    }
  }

  lemma PickedGrows(p: Picking, state: TransferState, slot: u64, e: Entry)
    ensures p.picked <= Consider(p, state, slot, e).picked
  {}

  /** Right after it was considered, an entry is selected or unselectable. */
  lemma JustConsidered(p: Picking, state: TransferState, slot: u64, e: Entry)
    requires |p.picked| < MAX_TRANSACTIONS
    ensures var p' := Consider(p, state, slot, e);
      e in p'.picked || !Selectable(Reserved(p', state, e.unsigned.sender), slot, e)
  {}

  // ----- what the selection reserves -----

  /** What the picked entries of a sender cost, and how many there are. */
  function DebitsOf(picked: seq<Entry>, a: Address): nat {
    if picked == [] then 0
    else
      var e := picked[|picked| - 1];
      DebitsOf(picked[..|picked| - 1], a) + (if e.unsigned.sender == a then e.unsigned.value + 10000 else 0)
  }

  function EntriesOf(picked: seq<Entry>, a: Address): nat {
    if picked == [] then 0
    else
      EntriesOf(picked[..|picked| - 1], a) + (if picked[|picked| - 1].unsigned.sender == a then 1 else 0)
  }

  /** A sender's reservation is what its picked entries leave, and the nonce after them. */
  predicate ReservedAt(p: Picking, state: TransferState, a: Address) {
    && Reserved(p, state, a).balance + DebitsOf(p.picked, a) == state.AccountOf(a).balance
    && Reserved(p, state, a).nonce == state.AccountOf(a).nonce + EntriesOf(p.picked, a)
  }

  lemma PickedOne(picked: seq<Entry>, e: Entry, a: Address)
    ensures DebitsOf(picked + [e], a) == DebitsOf(picked, a) + (if e.unsigned.sender == a then e.Debit() else 0)
    ensures EntriesOf(picked + [e], a) == EntriesOf(picked, a) + (if e.unsigned.sender == a then 1 else 0)
  {
    assert (picked + [e])[..|picked|] == picked;
  }

  lemma ConsiderReserves(p: Picking, state: TransferState, slot: u64, e: Entry, a: Address)
    requires ReservedAt(p, state, a) && Executable(e.unsigned)
    ensures ReservedAt(Consider(p, state, slot, e), state, a)
  {
    ConsideredOne(p, state, slot, e, a);
    if Consider(p, state, slot, e).picked != p.picked {
      PickedOne(p.picked, e, a);
    }
  }

  /** Considering an entry changes a reservation only by picking an entry of its sender. */
  lemma ConsideredOne(p: Picking, state: TransferState, slot: u64, e: Entry, a: Address)
    requires Executable(e.unsigned)
    ensures var p', r := Consider(p, state, slot, e), Reserved(p, state, a);
      || (p'.picked == p.picked && Reserved(p', state, a) == r)
      || (p'.picked == p.picked + [e] && e.unsigned.sender != a && Reserved(p', state, a) == r)
      || (p'.picked == p.picked + [e] && e.unsigned.sender == a && Selectable(r, slot, e)
          && Reserved(p', state, a) == Spend(r, e))
  {}

  /** Reservations are exact for every sender. */
  lemma {:induction false} ReservesExactly(entries: seq<Entry>, state: TransferState, slot: u64, a: Address)
    requires forall e :: e in entries ==> Executable(e.unsigned)
    ensures var p := Pick(entries, state, slot);
      && Reserved(p, state, a).balance + DebitsOf(p.picked, a) == state.AccountOf(a).balance
      && Reserved(p, state, a).nonce == state.AccountOf(a).nonce + EntriesOf(p.picked, a)
  {
    if entries != [] {
      var n := |entries| - 1;
      ReservesExactly(entries[..n], state, slot, a);
      ConsiderReserves(Pick(entries[..n], state, slot), state, slot, entries[n], a);
    }
  }

  /** So with room left in the body, an entry is left out only if it is not the sender's next one after the
      picked entries, has not matured, or costs more than those leave. */
  lemma LeftOutExactly(entries: seq<Entry>, state: TransferState, slot: u64, i: nat)
    requires Sorted(entries) && i < |entries| && forall e :: e in entries ==> Executable(e.unsigned)
    requires |Pick(entries, state, slot).picked| < 16 && entries[i] !in Pick(entries, state, slot).picked
    ensures var picked, tx := Pick(entries, state, slot).picked, entries[i].unsigned;
      || tx.nonce != state.AccountOf(tx.sender).nonce + EntriesOf(picked, tx.sender)
      || tx.validAfterSlot > slot
      || tx.value + 10000 + DebitsOf(picked, tx.sender) > state.AccountOf(tx.sender).balance
  {
    SelectionIsMaximal(entries, state, slot, i);
    ReservesExactly(entries, state, slot, entries[i].unsigned.sender);
  }

  /** Every entry is picked, in the order of the pool, or counted once as held back. */
  lemma {:induction false} HeldAccounts(entries: seq<Entry>, state: TransferState, slot: u64)
    requires Sorted(entries)
    ensures var p := Pick(entries, state, slot);
      && |p.picked| <= 16 && Sorted(p.picked)
      && |p.picked| + p.held.gap + p.held.immature + p.held.funds + p.held.stale + p.held.capacity == |entries|
      && (p.held.capacity > 0 ==> |p.picked| == 16)
  {
    if entries != [] {
      var n := |entries| - 1;
      HeldAccounts(entries[..n], state, slot);
      forall e | e in Pick(entries[..n], state, slot).picked
        ensures KeyLess(e, entries[n])
      {
        PickedAreEntries(entries[..n], state, slot, e);
      }
    }
  }
}
