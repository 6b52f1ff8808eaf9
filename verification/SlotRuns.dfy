/** Local runs of the slot engine: slot ticks, local submissions and local retirements
    (src/app/core.rs, src/app/consensus.rs). */
module SlotRuns {
  import opened Base
  import opened Crypto
  import opened Sums
  import opened SlotEconomy
  import opened SlotTransactions
  import opened SlotEngine
  import LeaderSelection

  // ----- submissions -----

  function PendingFrom(pool: seq<Tx>, from: string): nat {
    if pool == [] then 0 else PendingFrom(pool[1..], from) + (if pool[0].from == from then 1 else 0)
  }

  function Saturate64(n: nat): u64 {
    if n < U64_LIMIT then n else U64_LIMIT - 1
  }

  /** `enqueue_standard_or_pbm`: without eligible tickets only a few staggered bootstrap transactions. */
  function Enqueue(s: State, tx: Tx): State {
    if EligibleTickets(s.econ) == [] then
      var waiting := PendingFrom(s.pbmPool, tx.from);
      var queued := tx.(validAfter := Saturate64(s.slot + PBM_VALID_AFTER + waiting));
      if !PbmAllowed(tx.kind) || waiting >= PBM_PENDING_LIMIT || TxHash(queued).None? then s
      else s.(pbmPool := s.pbmPool + [queued])
    else
      var queued := tx.(validAfter := 0);
      if TxHash(queued).None? then s else s.(mempool := s.mempool + [queued])
  }

  // ----- retirement -----

  predicate Retirable(e: Econ, t: StakeTicket, local: string) {
    t.owner == local && t.Live() && IsActive(e.validators, t.owner)
  }

  function RetirableIds(e: Econ, local: string, n: nat): seq<u64>
    requires n <= |e.tickets|
  {
    if n == 0 then []
    else RetirableIds(e, local, n - 1) + (if Retirable(e, e.tickets[n - 1], local) then [e.tickets[n - 1].id] else [])
  }

  function InsertSorted(ids: seq<u64>, id: u64): (r: seq<u64>)
    ensures forall x :: x in r <==> x in ids || x == id
  {
    if ids == [] then [id]
    else if id <= ids[0] then [id] + ids
    else [ids[0]] + InsertSorted(ids[1..], id)
  }

  function SortIds(ids: seq<u64>): (r: seq<u64>)
    ensures forall x :: x in r <==> x in ids
  {
    if ids == [] then [] else InsertSorted(SortIds(ids[1..]), ids[0])
  }

  /** The lowest retirable identifiers, at most `count`. */
  function ChosenIds(e: Econ, local: string, count: nat): seq<u64> {
    var sorted := SortIds(RetirableIds(e, local, |e.tickets|));
    if |sorted| <= count then sorted else sorted[..count]
  }

  /** Retirement mutes a ticket at once. */
  function MuteTicket(ts: seq<StakeTicket>, id: u64): seq<StakeTicket> {
    match FindTicket(ts, id)
    case None => ts
    case Some(i) => ts[i := ts[i].(retiring := true, muted := true, bucket := 1)]
  }

  function MuteAll(ts: seq<StakeTicket>, ids: seq<u64>): seq<StakeTicket> {
    if ids == [] then ts else MuteTicket(MuteAll(ts, ids[..|ids| - 1]), ids[|ids| - 1])
  }

  function Scheduled(m: map<nat, seq<u64>>, epoch: nat): seq<u64> {
    if epoch in m then m[epoch] else []
  }

  /** `request_local_ticket_retire`. */
  function Retire(s: State, count: nat): State {
    if s.local.None? then s
    else
      var local := s.local.value;
      var ids := ChosenIds(s.econ, local, count);
      if ids == [] then s
      else
        var ts := MuteAll(s.econ.tickets, ids);
        s.(econ := s.econ.(tickets := ts, validators := Refresh(s.econ.validators, ts, local)),
           retire := s.retire[s.epoch + 2 := Scheduled(s.retire, s.epoch + 2) + ids])
  }

  lemma {:induction false} RetirableOwned(e: Econ, local: string, n: nat, id: u64)
    requires n <= |e.tickets| && id in RetirableIds(e, local, n)
    ensures exists i :: 0 <= i < n && e.tickets[i].id == id && e.tickets[i].owner == local
  {
    if n > 0 {
      if id in RetirableIds(e, local, n - 1) {
        RetirableOwned(e, local, n - 1, id);
        var i :| 0 <= i < n - 1 && e.tickets[i].id == id && e.tickets[i].owner == local;
      } else {
        assert e.tickets[n - 1].id == id;
      }
    }
  }

  /** All these identifiers belong to tickets of one owner. */
  ghost predicate OwnedIds(ts: seq<StakeTicket>, ids: seq<u64>, owner: string) {
    forall id :: id in ids ==> exists i :: 0 <= i < |ts| && ts[i].id == id && ts[i].owner == owner
  }

  lemma ChosenOwned(e: Econ, local: string, count: nat)
    ensures OwnedIds(e.tickets, ChosenIds(e, local, count), local)
  {
    forall id | id in ChosenIds(e, local, count)
      ensures exists i :: 0 <= i < |e.tickets| && e.tickets[i].id == id && e.tickets[i].owner == local
    {
      assert id in SortIds(RetirableIds(e, local, |e.tickets|));
      RetirableOwned(e, local, |e.tickets|, id);
    }
  }

  /** Muting keeps identities and the ticket rules. */
  lemma {:induction false} MuteAllShape(ts: seq<StakeTicket>, ids: seq<u64>)
    requires TicketsOk(ts)
    ensures var ts' := MuteAll(ts, ids);
      && |ts'| == |ts| && (forall i :: 0 <= i < |ts| ==> ts'[i].id == ts[i].id && ts'[i].owner == ts[i].owner)
      && TicketsOk(ts')
  {
    if ids != [] {
      var mid := MuteAll(ts, ids[..|ids| - 1]);
      MuteAllShape(ts, ids[..|ids| - 1]);
      var ts' := MuteTicket(mid, ids[|ids| - 1]);
      forall i | 0 <= i < |ts'|
        ensures TicketOk(ts'[i]) && ts'[i].id == mid[i].id
      {
        assert TicketOk(mid[i]);
      }
    }
  }

  /** Muting touches exactly the tickets with the given identifiers. */
  lemma {:induction false} MuteAllExact(ts: seq<StakeTicket>, ids: seq<u64>, i: nat)
    requires TicketsOk(ts) && i < |ts|
    ensures |MuteAll(ts, ids)| == |ts|
    ensures MuteAll(ts, ids)[i]
      == if ts[i].id in ids then ts[i].(retiring := true, muted := true, bucket := 1) else ts[i]
  {
    MuteAllShape(ts, ids);
    if ids != [] {
      var front, id := ids[..|ids| - 1], ids[|ids| - 1];
      MuteAllShape(ts, front);
      MuteAllExact(ts, front, i);
      assert ids == front + [id];
      var mid := MuteAll(ts, front);
      if FindTicket(mid, id).Some? {
        var j := FindTicket(mid, id).value;
        assert ts[j].id == id;
      }
    }
  }

  predicate Ascending(ids: seq<u64>) {
    forall i, j :: 0 <= i < j < |ids| ==> ids[i] <= ids[j]
  }

  lemma {:induction false} InsertAscends(ids: seq<u64>, id: u64)
    requires Ascending(ids)
    ensures Ascending(InsertSorted(ids, id))
  {
    if ids != [] && id > ids[0] {
      InsertAscends(ids[1..], id);
      var rest := InsertSorted(ids[1..], id);
      forall j | 0 <= j < |rest|
        ensures ids[0] <= rest[j]
      {
        assert rest[j] in rest;
      }
    }
  }

  lemma {:induction false} SortAscends(ids: seq<u64>)
    ensures Ascending(SortIds(ids))
  {
    if ids != [] {
      SortAscends(ids[1..]);
      InsertAscends(SortIds(ids[1..]), ids[0]);
    }
  }

  /** A request takes as many retirable tickets as it asks for, the lowest identifiers first, and all of them
      if there are fewer. */
  lemma LowestAreChosen(e: Econ, local: string, count: nat, x: u64, y: u64)
    requires x in ChosenIds(e, local, count) && y in RetirableIds(e, local, |e.tickets|)
    ensures x in RetirableIds(e, local, |e.tickets|)
    ensures y in ChosenIds(e, local, count) || (x <= y && |ChosenIds(e, local, count)| == count)
  {
    var sorted := SortIds(RetirableIds(e, local, |e.tickets|));
    SortAscends(RetirableIds(e, local, |e.tickets|));
    assert x in sorted && y in sorted;
    var j :| 0 <= j < |sorted| && sorted[j] == y;
    if |sorted| > count {
      var i :| 0 <= i < count && sorted[i] == x;
      if j < count {
        assert sorted[..count][j] == y;
      }
    }
  }

  /** What a request changes: exactly the chosen tickets are muted, and they are scheduled to die two epochs
      later; the chain, the balances and the pools stay as they are. */
  lemma RetireIsExact(s: State, count: nat, i: nat)
    requires TicketsOk(s.econ.tickets) && i < |s.econ.tickets| && s.local.Some?
    ensures var r, ids, t := Retire(s, count), ChosenIds(s.econ, s.local.value, count), s.econ.tickets[i];
      && |r.econ.tickets| == |s.econ.tickets|
      && r.econ.tickets[i] == (if t.id in ids then t.(retiring := true, muted := true, bucket := 1) else t)
      && Scheduled(r.retire, s.epoch + 2) == Scheduled(s.retire, s.epoch + 2) + ids
      && r.econ.bank == s.econ.bank && r.mempool == s.mempool && r.pbmPool == s.pbmPool && SameChain(s, r)
  {
    MuteAllExact(s.econ.tickets, ChosenIds(s.econ, s.local.value, count), i);
  }

  /** With unique identifiers, muting one owner's tickets leaves every other owner alone. */
  lemma {:induction false} MuteAllOthers(ts: seq<StakeTicket>, ids: seq<u64>, owner: string, other: string)
    requires TicketsOk(ts) && OwnedIds(ts, ids, owner) && other != owner
    ensures TicketCount(MuteAll(ts, ids), other) == TicketCount(ts, other)
    ensures HasLive(MuteAll(ts, ids), other) <==> HasLive(ts, other)
  {
    if ids != [] {
      var front, id := ids[..|ids| - 1], ids[|ids| - 1];
      var mid := MuteAll(ts, front);
      assert OwnedIds(ts, front, owner) by {
        forall x | x in front
          ensures exists i :: 0 <= i < |ts| && ts[i].id == x && ts[i].owner == owner
        {
          assert x in ids;
        }
      }
      MuteAllShape(ts, front);
      MuteAllOthers(ts, front, owner, other);
      assert id in ids;
      var i :| 0 <= i < |ts| && ts[i].id == id && ts[i].owner == owner;
      if FindTicket(mid, id).Some? {
        var j := FindTicket(mid, id).value;
        assert ts[j].id == ts[i].id;
        var muted := mid[j].(retiring := true, muted := true, bucket := 1);
        TicketCountUpdate(mid, j, muted, other);
        LiveUpdate(mid, j, muted, other);
      }
    }
  }

  /** Retirement keeps the economy: the local validator is re-examined, nobody else is affected. */
  lemma RetireKeeps(s: State, initial: nat, count: nat)
    requires EconomyOk(s, initial)
    ensures EconomyOk(Retire(s, count), initial)
  {
    if s.local.Some? && ChosenIds(s.econ, s.local.value, count) != [] {
      var e, local := s.econ, s.local.value;
      var ids := ChosenIds(e, local, count);
      ChosenOwned(e, local, count);
      MuteAllShape(e.tickets, ids);
      var ts := MuteAll(e.tickets, ids);
      forall i | 0 <= i < |e.validators| && e.validators[i].id !in {local}
        ensures Backed(e.validators[i], ts)
      {
        assert Backed(e.validators[i], e.tickets);
        MuteAllOthers(e.tickets, ids, local, e.validators[i].id);
      }
      RefreshKeeps(e.validators, ts, s.unlocks, local);
    }
  }

  // ----- runs -----

  /** A local event: one slot tick with the producer's random stops and the outcome of persistence, a local
      submission, or a local retirement request. */
  datatype LocalEvent =
    | SlotTick(halt: nat -> bool, persisted: bool)
    | Submit(tx: Tx)
    | RequestRetire(count: nat)

  /** `finish_slot` followed by `start_next_slot`; a slot that fails anywhere leaves the state alone. */
  ghost function TickSlot(s: State, halt: nat -> bool, persisted: bool): State {
    match StageSlot(s, halt)
    case None => s
    case Some((s', _)) => if persisted then StartNext(s') else s
  }

  ghost function Happen(s: State, ev: LocalEvent): State {
    match ev
    case SlotTick(halt, persisted) => TickSlot(s, halt, persisted)
    case Submit(tx) => Enqueue(s, tx)
    case RequestRetire(count) => Retire(s, count)
  }

  ghost function RunLocal(s: State, events: seq<LocalEvent>): State
    decreases |events|
  {
    if events == [] then s else RunLocal(Happen(s, events[0]), events[1..])
  }

  /** No amount runs out of room in any state of the run. */
  ghost predicate AmountsLast(s: State, events: seq<LocalEvent>, initial: nat)
    decreases |events|
  {
    Room(s, initial) && (events != [] ==> AmountsLast(Happen(s, events[0]), events[1..], initial))
  }

  /** A run has room: no amount runs out, and the identifiers that follow the highest one at its start last for
      as many tickets as it buys. */
  ghost predicate RunHasRoom(s: State, events: seq<LocalEvent>, initial: nat) {
    AmountsLast(s, events, initial) && IdsLast(s.econ.tickets, |RunLocal(s, events).econ.tickets|)
  }

  // ----- ticket identifiers over whole runs -----

  lemma {:induction false} MuteAllIds(ts: seq<StakeTicket>, ids: seq<u64>)
    ensures SameIds(ts, MuteAll(ts, ids))
  {
    if ids != [] {
      MuteAllIds(ts, ids[..|ids| - 1]);
    }
  }

  lemma HappenTickets(s: State, ev: LocalEvent)
    ensures Minted(s.econ.tickets, Happen(s, ev).econ.tickets)
  {
    match ev
    case SlotTick(halt, persisted) =>
      if StageSlot(s, halt).Some? {
        StageTickets(s, halt);
      }
    case Submit(tx) =>
    case RequestRetire(count) =>
      if s.local.Some? {
        MuteAllIds(s.econ.tickets, ChosenIds(s.econ, s.local.value, count));
      }
  }

  /** In every local run, with or without room, tickets keep their identifiers and new ones count up from the
      highest. */
  lemma {:induction false} RunTickets(s: State, events: seq<LocalEvent>)
    ensures Minted(s.econ.tickets, RunLocal(s, events).econ.tickets)
    decreases |events|
  {
    if events != [] {
      var next := Happen(s, events[0]);
      HappenTickets(s, events[0]);
      RunTickets(next, events[1..]);
      MintedTransitive(s.econ.tickets, next.econ.tickets, RunLocal(s, events).econ.tickets);
    }
  }

  /** Ticket identifiers are unique after a local run exactly if they were at its start and last for all the
      tickets it buys, whatever else happens in it. */
  lemma RunIsUniqueExactly(s: State, events: seq<LocalEvent>)
    ensures UniqueTickets(RunLocal(s, events).econ.tickets)
      <==> UniqueTickets(s.econ.tickets) && IdsLast(s.econ.tickets, |RunLocal(s, events).econ.tickets|)
  {
    RunTickets(s, events);
    MintedUnique(s.econ.tickets, RunLocal(s, events).econ.tickets);
  }

  /** From a fresh node on, they are unique exactly while the bootstrap identifier plus the number of tickets
      fits, or, without a bootstrap ticket, while there are fewer than 2^64 tickets. */
  lemma GenesisIsUniqueExactly(b: Boot, events: seq<LocalEvent>)
    ensures var ts := RunLocal(Start(b), events).econ.tickets;
      UniqueTickets(ts) <==> (if b.Bootstraps() then b.ticket else 1) + |ts| <= U64_LIMIT
  {
    var s := Start(b);
    RunTickets(s, events);
    RunIsUniqueExactly(s, events);
    if b.Bootstraps() {
      MaxIdIs(s.econ.tickets, 0);
    }
  }

  /** The rest of a run with room has room, and so does its first event. */
  lemma RoomAdvances(s: State, events: seq<LocalEvent>, initial: nat)
    requires events != [] && RunHasRoom(s, events, initial)
    ensures IdsLast(s.econ.tickets, |Happen(s, events[0]).econ.tickets|)
    ensures RunHasRoom(Happen(s, events[0]), events[1..], initial)
  {
    var next := Happen(s, events[0]);
    HappenTickets(s, events[0]);
    RunTickets(next, events[1..]);
    IdsLastSplit(s.econ.tickets, next.econ.tickets, |RunLocal(s, events).econ.tickets|);
  }

  // ----- what every run keeps -----

  ghost predicate EngineOk(s: State, initial: nat) {
    EconomyOk(s, initial) && Linear(s)
  }

  /** What a node starts from: genesis balances, its validator identity and account, whether it bootstraps
      with a vault and a ticket, and the identifier of that ticket. */
  datatype Boot = Boot(bank: Bank, local: Option<string>, account: Option<string>, bootstrap: bool, ticket: u64) {
    predicate Bootstraps() {
      local.Some? && bootstrap
    }
  }

  const START_INFLATION: nat := 60_000_000

  /** The engine before genesis is loaded: a bootstrap validator with its ticket, an empty validator, or
      nobody. */
  function Unfunded(b: Boot): State {
    var boot := b.Bootstraps();
    var state := if boot then Active else Inactive;
    var vs := if b.local.None? then []
      else [NewValidator(b.local.value, b.account, None, state).(vault := if boot then INITIAL_VAULT else 0)];
    var ts := if boot then [StakeTicket(b.ticket, b.local.value, b.ticket % 254 + 2, false, false, false)] else [];
    State(0, Econ(map[], vs, ts, 0), map[], [], [], Totals(0, 0, 0, 0, 0), 0, START_INFLATION, 0, [], map[],
          map[], map[], PROTOCOL.0, PROTOCOL.1, None, b.local)
  }

  function Funded(b: Boot): State {
    var s := Unfunded(b);
    s.(econ := s.econ.(bank := b.bank))
  }

  /** The engine at start: the leader of slot 0 is drawn, then genesis is loaded and the base reward computed. */
  ghost function Start(b: Boot): State {
    var (leader, ticket) := LeaderFor(Unfunded(b));
    Funded(b).(baseReward := BaseReward(Funded(b).econ, START_INFLATION), leader := leader, ticket := ticket)
  }

  ghost predicate BootFits(b: Boot) {
    forall t: u64 :: t != ETX ==> Held(b.bank, t) < U128_LIMIT - 1
  }

  lemma FundedIsOk(b: Boot, s: State)
    requires BootFits(b) && s == Funded(b)
    ensures EngineOk(s, Supply(s.econ))
  {
    var vs, ts := s.econ.validators, s.econ.tickets;
    forall id: string
      ensures NoStray(vs, s.unlocks, id) && Pending(s.unlocks, id) == 0
    {
      assert DueMap(s.unlocks, id) == map[];
    }
    forall i | 0 <= i < |vs|
      ensures LockOk(vs[i], s.unlocks) && Backed(vs[i], ts)
    {
      assert Pending(s.unlocks, vs[i].id) == 0;
      if vs[i].state == Active {
        assert ts[0].owner == vs[i].id && ts[0].Live();
        assert ts[..0] == [];
        assert TicketCount(ts, vs[i].id) == 1;
      }
    }
    forall h: Hash
      ensures IndexOk(s, h)
    {}
    forall n: nat
      ensures LinkOk(s, n) && Indexed(s, n)
    {}
  }

  lemma StartFrame(b: Boot)
    ensures SameBooks(Funded(b), Start(b)) && SameChain(Funded(b), Start(b))
    ensures Start(b).mempool == Funded(b).mempool && Start(b).pbmPool == Funded(b).pbmPool
  {}

  /** A fresh node satisfies every invariant. */
  lemma StartIsOk(b: Boot, s: State)
    requires BootFits(b) && s == Start(b)
    ensures EngineOk(s, Supply(s.econ)) && EtxState(s) && s.totals.foreignFees == 0
  {
    FundedIsOk(b, Funded(b));
    StartFrame(b);
    SameBooksKeep(Funded(b), s, Supply(s.econ));
    SameChainLinear(Funded(b), s);
  }

  lemma StartNextKeeps(s: State, initial: nat)
    requires EconomyOk(s, initial)
    ensures EconomyOk(StartNext(s), initial)
  {}

  lemma TickKeeps(s: State, initial: nat, halt: nat -> bool, persisted: bool)
    requires EngineOk(s, initial) && Room(s, initial) && Room(TickSlot(s, halt, persisted), initial)
    requires IdsLast(s.econ.tickets, |TickSlot(s, halt, persisted).econ.tickets|)
    ensures EngineOk(TickSlot(s, halt, persisted), initial)
  {
    if StageSlot(s, halt).Some? && persisted {
      StageKeepsEconomy(s, initial, halt);
      StageKeepsChain(s, halt);
      StartNextKeeps(StageSlot(s, halt).value.0, initial);
    }
  }

  /** Two states with the same economy, as far as the books go. */
  predicate SameBooks(s: State, r: State) {
    r.econ == s.econ && r.unlocks == s.unlocks && r.totals == s.totals && r.epoch == s.epoch
  }

  lemma SameBooksKeep(s: State, r: State, initial: nat)
    requires EconomyOk(s, initial) && SameBooks(s, r)
    ensures EconomyOk(r, initial)
  {}

  lemma EnqueueFrame(s: State, tx: Tx)
    ensures SameBooks(s, Enqueue(s, tx)) && SameChain(s, Enqueue(s, tx))
  {}

  lemma SubmitKeeps(s: State, initial: nat, tx: Tx)
    requires EngineOk(s, initial)
    ensures EngineOk(Enqueue(s, tx), initial)
  {
    EnqueueFrame(s, tx);
    SameBooksKeep(s, Enqueue(s, tx), initial);
    SameChainLinear(s, Enqueue(s, tx));
  }

  lemma SameChainLinear(s: State, r: State)
    requires Linear(s) && SameChain(s, r)
    ensures Linear(r)
  {
    forall n: nat
      ensures LinkOk(r, n) && Indexed(r, n)
    {
      assert LinkOk(s, n) && Indexed(s, n);
    }
    forall h: Hash
      ensures IndexOk(r, h)
    {
      assert IndexOk(s, h);
    }
  }

  lemma RetireKeepsEngine(s: State, initial: nat, count: nat)
    requires EngineOk(s, initial)
    ensures EngineOk(Retire(s, count), initial)
  {
    RetireKeeps(s, initial, count);
    SameChainLinear(s, Retire(s, count));
  }

  lemma RetireKeepsEngines(s: State, count: nat)
    ensures forall initial: nat :: EngineOk(s, initial) ==> EngineOk(Retire(s, count), initial)
  {
    forall initial: nat | EngineOk(s, initial)
      ensures EngineOk(Retire(s, count), initial)
    {
      RetireKeepsEngine(s, initial, count);
    }
  }

  lemma SubmitKeepsEngines(s: State, tx: Tx)
    ensures forall initial: nat :: EngineOk(s, initial) ==> EngineOk(Enqueue(s, tx), initial)
  {
    forall initial: nat | EngineOk(s, initial)
      ensures EngineOk(Enqueue(s, tx), initial)
    {
      SubmitKeeps(s, initial, tx);
    }
  }

  lemma HappenKeeps(s: State, initial: nat, ev: LocalEvent)
    requires EngineOk(s, initial) && Room(s, initial) && Room(Happen(s, ev), initial)
    requires IdsLast(s.econ.tickets, |Happen(s, ev).econ.tickets|)
    ensures EngineOk(Happen(s, ev), initial)
  {
    match ev
    case SlotTick(halt, persisted) => TickKeeps(s, initial, halt, persisted);
    case Submit(tx) => SubmitKeeps(s, initial, tx);
    case RequestRetire(count) => RetireKeepsEngine(s, initial, count);
  }

  /** Every local run with room keeps every invariant of the engine: exact books, exact locks, backed active
      validators, drawable tickets in active buckets, and a linear chain. */
  lemma {:induction false} RunKeepsEngine(s: State, initial: nat, events: seq<LocalEvent>)
    requires EngineOk(s, initial) && RunHasRoom(s, events, initial)
    ensures EngineOk(RunLocal(s, events), initial)
    decreases |events|
  {
    if events != [] {
      RoomAdvances(s, events, initial);
      HappenKeeps(s, initial, events[0]);
      RunKeepsEngine(Happen(s, events[0]), initial, events[1..]);
    }
  }

  // ----- what this means -----

  /** In every local run, the supply plus all burns minus all issuance moves only by fees paid in other
      tokens. */
  lemma SupplyDrift(s: State, initial: nat, events: seq<LocalEvent>)
    requires EngineOk(s, initial) && RunHasRoom(s, events, initial)
    ensures var r := RunLocal(s, events);
      Supply(r.econ) + r.totals.feesBurned + r.econ.ticketBurned - r.totals.baseIssued - r.totals.burnOffset
      == initial + r.totals.foreignFees
  {
    RunKeepsEngine(s, initial, events);
  }

  ghost predicate AllEtx(txs: seq<Tx>) {
    forall i :: 0 <= i < |txs| ==> FeeToken(txs[i]) == ETX
  }

  lemma {:induction false} FillEtx(w: Work, slot: nat, halt: nat -> bool)
    requires AllEtx(w.pool)
    ensures Fill(w, slot, halt).foreign == w.foreign && AllEtx(Fill(w, slot, halt).pool)
    decreases |w.pool|
  {
    if w.pool != [] && !Blocks(w, slot) {
      assert AllEtx(w.pool[1..]);
      FillEtx(TakeOne(w).0, slot, halt);
    }
  }

  ghost predicate EtxState(s: State) {
    AllEtx(s.mempool) && AllEtx(s.pbmPool)
  }

  /** Two states that agree on the fee books of other tokens. */
  ghost predicate EtxKept(s: State, r: State) {
    r.totals.foreignFees == s.totals.foreignFees && EtxState(r)
  }

  lemma ProduceEtx(s: State, parent: Hash, halt: nat -> bool)
    requires EtxState(s)
    ensures EtxKept(s, ProduceBlock(s, parent, halt).0)
  {
    var start := Work(s.econ, s.mempool, 0, 0, [], 0);
    FillEtx(start, s.slot, halt);
    var w := Fill(start, s.slot, halt);
    RewardEtx(s.(econ := w.econ, mempool := w.pool, totals := BurnFees(s.totals, w.fees, w.foreign)));
  }

  lemma RewardEtx(s: State)
    ensures RewardLeader(s).totals.foreignFees == s.totals.foreignFees
    ensures RewardLeader(s).mempool == s.mempool && RewardLeader(s).pbmPool == s.pbmPool
  {}

  lemma SettleEtx(s: State, tx: Tx, outcome: Outcome)
    ensures SettlePbm(s, tx, outcome).0.totals.foreignFees == s.totals.foreignFees
    ensures SettlePbm(s, tx, outcome).0.mempool == s.mempool && SettlePbm(s, tx, outcome).0.pbmPool == s.pbmPool
  {}

  lemma RemoveEtx(pool: seq<Tx>, i: nat)
    requires AllEtx(pool) && i < |pool|
    ensures AllEtx(pool[..i] + pool[i + 1..])
  {
    var rest := pool[..i] + pool[i + 1..];
    forall j | 0 <= j < |rest|
      ensures FeeToken(rest[j]) == ETX
    {
      assert rest[j] == pool[if j < i then j else j + 1];
    }
  }

  lemma LeaveEtx(s: State)
    requires EtxState(s)
    ensures EtxKept(s, LeavePbm(s))
  {}

  lemma PbmEtx(s: State)
    requires EtxState(s)
    ensures EtxKept(s, LeavePbm(ExecutePbm(s).0))
  {
    var choice := SelectPbm(s.pbmPool, s.slot, |s.pbmPool|);
    if choice.Some? {
      var i := choice.value;
      RemoveEtx(s.pbmPool, i);
      SettleEtx(s.(pbmPool := s.pbmPool[..i] + s.pbmPool[i + 1..]), s.pbmPool[i], Exec(s.econ, s.pbmPool[i]));
    }
    LeaveEtx(ExecutePbm(s).0);
  }

  lemma {:induction false} OffsetEtx(s: State, who: seq<Option<string>>, share: nat)
    ensures OffsetAll(s, who, share).totals.foreignFees == s.totals.foreignFees
    ensures OffsetAll(s, who, share).mempool == s.mempool && OffsetAll(s, who, share).pbmPool == s.pbmPool
  {
    if who != [] {
      OffsetEtx(s, who[..|who| - 1], share);
    }
  }

  lemma BoundaryEtx(s: State)
    requires EtxState(s)
    ensures EtxKept(s, RunBoundaries(s))
  {
    OffsetEtx(s, s.proposers, OffsetShare(s));
  }

  lemma MakeEtx(s: State, parent: Hash, halt: nat -> bool)
    requires EtxState(s)
    ensures EtxKept(s, MakeBlock(s, parent, halt).0)
  {
    ProduceEtx(s, parent, halt);
    PbmEtx(s);
  }

  lemma TickEtx(s: State, halt: nat -> bool, persisted: bool)
    requires EtxState(s)
    ensures EtxKept(s, TickSlot(s, halt, persisted))
  {
    if StageSlot(s, halt).Some? && persisted {
      var parent := ParentOf(s).value;
      MakeEtx(s, parent, halt);
      var (made, b) := MakeBlock(s, parent, halt);
      BoundaryEtx(Record(made, b));
    }
  }

  ghost predicate EtxEvent(ev: LocalEvent) {
    ev.Submit? ==> FeeToken(ev.tx) == ETX
  }

  lemma HappenEtx(s: State, ev: LocalEvent)
    requires EtxState(s) && EtxEvent(ev)
    ensures EtxKept(s, Happen(s, ev))
  {
    if ev.SlotTick? {
      TickEtx(s, ev.halt, ev.persisted);
    }
  }

  lemma {:induction false} RunEtx(s: State, events: seq<LocalEvent>)
    requires EtxState(s) && forall i :: 0 <= i < |events| ==> EtxEvent(events[i])
    ensures EtxKept(s, RunLocal(s, events))
    decreases |events|
  {
    if events != [] {
      HappenEtx(s, events[0]);
      RunEtx(Happen(s, events[0]), events[1..]);
    }
  }

  /** Over every local run with generic fees paid in ETX, from any state that has seen no other fees, total
      supply plus fee burns plus ticket burns minus base and burn-offset issuance is constant. */
  lemma SupplyIsConstant(s: State, initial: nat, events: seq<LocalEvent>)
    requires EngineOk(s, initial) && RunHasRoom(s, events, initial) && s.totals.foreignFees == 0
    requires EtxState(s) && forall i :: 0 <= i < |events| ==> EtxEvent(events[i])
    ensures var r := RunLocal(s, events);
      Supply(r.econ) + r.totals.feesBurned + r.econ.ticketBurned - r.totals.baseIssued - r.totals.burnOffset == initial
  {
    SupplyDrift(s, initial, events);
    RunEtx(s, events);
  }

  /** In every reachable state: burn offsets never exceed half of the closed fee burns; each validator's
      locked rewards are exactly its pending unlocks, all due within the next four epochs, and within its
      vault; and an active validator is backed by its minimum and a live ticket. */
  lemma ReachableBooks(s: State, initial: nat, events: seq<LocalEvent>, i: nat)
    requires EngineOk(s, initial) && RunHasRoom(s, events, initial) && i < |RunLocal(s, events).econ.validators|
    ensures var r := RunLocal(s, events); var v := r.econ.validators[i];
      && 2 * r.totals.burnOffset + r.totals.burnThisSubEpoch <= r.totals.feesBurned
      && v.locked == Pending(r.unlocks, v.id) && v.locked <= v.vault
      && (forall e :: e in r.unlocks ==> r.epoch < e <= r.epoch + 4)
      && (v.state == Active ==> v.vault >= VaultMinimum(r.econ.tickets, v.id) && HasLive(r.econ.tickets, v.id))
  {
    RunKeepsEngine(s, initial, events);
    var r := RunLocal(s, events);
    assert LockOk(r.econ.validators[i], r.unlocks) && Backed(r.econ.validators[i], r.econ.tickets);
  }

  /** From a fresh node on: with all fees in ETX, the supply the node started with is accounted for exactly,
      after every local run with room. */
  lemma GenesisSupplyIsConstant(b: Boot, s: State, events: seq<LocalEvent>)
    requires BootFits(b) && s == Start(b) && RunHasRoom(s, events, Supply(s.econ))
    requires forall i :: 0 <= i < |events| ==> EtxEvent(events[i])
    ensures var r := RunLocal(s, events);
      Supply(r.econ) + r.totals.feesBurned + r.econ.ticketBurned - r.totals.baseIssued - r.totals.burnOffset
      == Supply(s.econ)
  {
    StartIsOk(b, s);
    SupplyIsConstant(s, Supply(s.econ), events);
  }

  // ----- the drawn leader -----

  lemma {:induction false} EligibleMembers(e: Econ, n: nat, t: StakeTicket)
    requires n <= |e.tickets|
    ensures t in Eligible(e, n) <==> t in e.tickets[..n] && Drawable(e, t)
  {
    if n > 0 {
      EligibleMembers(e, n - 1, t);
      assert e.tickets[..n] == e.tickets[..n - 1] + [e.tickets[n - 1]];
    }
  }

  lemma {:induction false} EligibleDistinct(e: Econ, n: nat, i: nat, j: nat)
    requires n <= |e.tickets| && TicketsOk(e.tickets) && i < j < |Eligible(e, n)|
    ensures Eligible(e, n)[i].id != Eligible(e, n)[j].id
  {
    var front := Eligible(e, n - 1);
    if j < |front| {
      EligibleDistinct(e, n - 1, i, j);
    } else {
      EligibleMembers(e, n - 1, front[i]);
      var k :| 0 <= k < n - 1 && e.tickets[k] == front[i];
    }
  }

  /** With the ticket rules, all candidates have distinct identifiers and sit in active buckets. */
  lemma CandidatesAreDrawable(e: Econ)
    requires TicketsOk(e.tickets)
    ensures LeaderSelection.DistinctIds(Candidates(e))
    ensures forall c :: c in Candidates(e) ==> c.bucket >= 2
  {
    var el, cs := EligibleTickets(e), Candidates(e);
    forall i, j | 0 <= i < j < |cs|
      ensures cs[i].id != cs[j].id
    {
      EligibleDistinct(e, |e.tickets|, i, j);
    }
    forall c | c in cs
      ensures c.bucket >= 2
    {
      var i :| 0 <= i < |cs| && cs[i] == c;
      EligibleMembers(e, |e.tickets|, el[i]);
      assert el[i] in e.tickets;
      var k :| 0 <= k < |e.tickets| && e.tickets[k] == el[i];
      assert TicketOk(e.tickets[k]);
    }
  }

  /** So it is after every local run with room. */
  lemma ReachableCandidates(s: State, initial: nat, events: seq<LocalEvent>)
    requires EngineOk(s, initial) && RunHasRoom(s, events, initial)
    ensures LeaderSelection.DistinctIds(Candidates(RunLocal(s, events).econ))
    ensures forall c :: c in Candidates(RunLocal(s, events).econ) ==> c.bucket >= 2
  {
    RunKeepsEngine(s, initial, events);
    CandidatesAreDrawable(RunLocal(s, events).econ);
  }

  lemma {:induction false} FirstWithIdIsMember(tickets: seq<LeaderSelection.Ticket>, id: u64)
    requires LeaderSelection.FirstWithId(tickets, id).Some?
    ensures LeaderSelection.FirstWithId(tickets, id).value in tickets
  {
    if tickets[0].id != id {
      FirstWithIdIsMember(tickets[1..], id);
    }
  }

  lemma SelectedIsCandidate(h: Hash, slot: u64, tickets: seq<LeaderSelection.Ticket>)
    requires LeaderSelection.SelectLeader(h, slot, tickets).Some?
    ensures exists c :: c in tickets && LeaderSelection.SelectLeader(h, slot, tickets).value == (c.owner, c.id)
  {
    var seed := LeaderSelection.SlotRandomness(h, slot);
    var bucket := LeaderSelection.SelectBucket(seed, LeaderSelection.CountsOf(tickets)).value;
    var id := LeaderSelection.SelectTicket(seed, LeaderSelection.IdsIn(tickets, bucket)).value;
    FirstWithIdIsMember(tickets, id);
  }

  /** The sampling of a bucket accepts the raw value of some retry. */
  predicate SamplingAccepts(s: State, retry: u64)
    requires s.slot < U64_LIMIT && LeaderSelection.Total(LeaderSelection.CountsOf(Candidates(s.econ))) < U64_LIMIT
  {
    var n := LeaderSelection.Total(LeaderSelection.CountsOf(Candidates(s.econ)));
    match SeedHash(s)
    case None => true
    case Some(h) => n == 0 || LeaderSelection.Accepted(LeaderSelection.SlotRandomness(h, s.slot), n, retry)
  }

  /** In every reachable state with an eligible ticket, the leader is the owner of an eligible ticket whenever
      sampling accepts a value at some retry. */
  lemma LeaderIsDrawn(s: State, initial: nat, retry: u64)
    requires EngineOk(s, initial) && s.slot < U64_LIMIT && EligibleTickets(s.econ) != []
    requires LeaderSelection.Total(LeaderSelection.CountsOf(Candidates(s.econ))) < U64_LIMIT
    requires SamplingAccepts(s, retry)
    ensures exists c :: c in Candidates(s.econ) && LeaderFor(s) == (c.owner, c.id)
  {
    CandidatesAreDrawable(s.econ);
    var t := Candidates(s.econ)[0];
    assert t in Candidates(s.econ) && SeedHash(s).Some?;
    LeaderSelection.ActiveTicketGivesLeader(SeedHash(s).value, s.slot, Candidates(s.econ), t, retry);
    SelectedIsCandidate(SeedHash(s).value, s.slot, Candidates(s.econ));
  }

  // ----- a run whose books drift -----

  lemma {:induction false} EligibleIgnoresBank(e: Econ, b: Bank, n: nat)
    requires n <= |e.tickets|
    ensures Eligible(e.(bank := b), n) == Eligible(e, n)
  {
    if n > 0 {
      EligibleIgnoresBank(e, b, n - 1);
    }
  }

  /** A bootstrap validator can be drawn, and leads slot 0. */
  lemma BootstrapLeads(b: Boot, s: State)
    requires b.Bootstraps() && s == Start(b)
    ensures s.leader == b.local.value && s.ticket == b.ticket && EligibleTickets(s.econ) != []
  {
    var u := Unfunded(b);
    var t := u.econ.tickets[0];
    assert u.econ.validators[0].id == t.owner && IsActive(u.econ.validators, t.owner);
    assert Eligible(u.econ, 0) == [] && Eligible(u.econ, 1) == [t];
    assert Candidates(u.econ) == [AsTicket(t)];
    OneTicketLeads(GENESIS_HASH, 0, AsTicket(t));
    EligibleIgnoresBank(u.econ, b.bank, 1);
  }

  lemma OneTicketLeads(h: Hash, slot: u64, t: LeaderSelection.Ticket)
    requires t.bucket >= 2
    ensures LeaderSelection.SelectLeader(h, slot, [t]) == Some((t.owner, t.id))
  {
    OneTicketWeighsOne(t, 256);
    LeaderSelection.ActiveTicketGivesLeader(h, slot, [t], t, 0);
    SelectedIsCandidate(h, slot, [t]);
  }

  lemma {:induction false} OneTicketWeighsOne(t: LeaderSelection.Ticket, bucket: nat)
    requires t.bucket >= 2 && 2 <= bucket <= 256
    ensures LeaderSelection.Below(LeaderSelection.CountsOf([t]), bucket) == if t.bucket < bucket then 1 else 0
  {
    if bucket > 2 {
      OneTicketWeighsOne(t, bucket - 1);
      assert [t][..0] == [];
      assert LeaderSelection.CountBucket([t], bucket - 1) == if t.bucket == bucket - 1 then 1 else 0;
    }
  }

  /** A transfer of nothing whose fee of 1,000 units is paid in token 7. */
  const FOREIGN_FEE := Tx(CHAIN_ID, "a", "b", 7, 0, 1000, 1000, Transfer, 0, 7, "")

  /** A bootstrap validator, and an account that holds that fee. */
  const DRIFTING_BOOT := Boot(map[Coin("a", 7) := 1000], Some("val-9000"), None, true, 5)

  /** The base reward of that node, computed from its initial vault. */
  const DRIFTING_REWARD: nat := 2_853_881

  const DRIFTED := Totals(1000, 1000, DRIFTING_REWARD, 0, 1000)

  lemma HeldOfOne(b: Bank)
    requires b == map[Coin("a", 7) := 1000]
    ensures forall t: u64 :: Held(b, t) <= 1000
    ensures Held(b, ETX) == 0
  {
    forall t: u64
      ensures Held(b, t) <= 1000 && (t == ETX ==> Held(b, t) == 0)
    {
      HeldUpdate(map[], Coin("a", 7), 1000, t);
      assert HeldMap(map[], t) == map[];
      assert map[][Coin("a", 7) := 1000] == b;
    }
  }

  /** That node at start, with a mempool. */
  function Drifting(mempool: seq<Tx>): State {
    Funded(DRIFTING_BOOT).(baseReward := DRIFTING_REWARD, leader := "val-9000", ticket := 5, mempool := mempool)
  }

  lemma DriftingReward(e: Econ)
    requires e == Funded(DRIFTING_BOOT).econ
    ensures Supply(e) == INITIAL_VAULT && BaseReward(e, START_INFLATION) == DRIFTING_REWARD
  {
    HeldOfOne(DRIFTING_BOOT.bank);
    assert e.validators[..0] == [];
  }

  lemma DriftingStarts()
    ensures Start(DRIFTING_BOOT) == Drifting([]) && EngineOk(Drifting([]), Supply(Drifting([]).econ))
    ensures Supply(Drifting([]).econ) == INITIAL_VAULT && EligibleTickets(Drifting([]).econ) != []
  {
    HeldOfOne(DRIFTING_BOOT.bank);
    StartIsOk(DRIFTING_BOOT, Start(DRIFTING_BOOT));
    BootstrapLeads(DRIFTING_BOOT, Start(DRIFTING_BOOT));
    DriftingReward(Funded(DRIFTING_BOOT).econ);
  }

  lemma DriftingSubmits()
    requires TxHash(FOREIGN_FEE).Some? && EligibleTickets(Drifting([]).econ) != []
    ensures Enqueue(Drifting([]), FOREIGN_FEE) == Drifting([FOREIGN_FEE])
  {}

  lemma DriftingFills(halt: nat -> bool)
    ensures var s := Drifting([FOREIGN_FEE]); var w := Fill(Work(s.econ, s.mempool, 0, 0, [], 0), 0, halt);
      w.fees == 1000 && w.foreign == 1000 && w.econ == s.econ.(bank := w.econ.bank)
  {
    var s := Drifting([FOREIGN_FEE]);
    var start := Work(s.econ, s.mempool, 0, 0, [], 0);
    assert CanPayGeneric(s.econ.bank, FOREIGN_FEE);
    var (w, taken) := TakeOne(start);
    assert w.pool == [] && taken;
  }

  lemma LeaderIsRewarded(s: State, i: nat)
    requires s.totals.baseIssued == 0 && s.baseReward < U128_LIMIT
    requires i < |s.econ.validators| && s.econ.validators[i].id == s.leader
    ensures RewardLeader(s).totals == s.totals.(baseIssued := s.baseReward)
    ensures RewardLeader(s).econ.tickets == s.econ.tickets
  {
    assert ForgiveMiss(s.econ.validators, s.leader)[i].id == s.leader;
  }

  /** The totals of a node after it produced its first block. */
  lemma FirstTotals(s: State, parent: Hash, halt: nat -> bool, w: Work)
    requires s.totals == Totals(0, 0, 0, 0, 0) && s.local == Some(s.leader) && EligibleTickets(s.econ) != []
    requires w == Fill(Work(s.econ, s.mempool, 0, 0, [], 0), s.slot, halt)
    requires w.econ == s.econ.(bank := w.econ.bank) && w.fees < U128_LIMIT && s.baseReward < U128_LIMIT
    requires s.econ.validators != [] && s.econ.validators[0].id == s.leader
    ensures var made := MakeBlock(s, parent, halt).0;
      made.totals == Totals(w.fees, w.fees, s.baseReward, 0, w.foreign) && made.econ.tickets == s.econ.tickets
  {
    LeaderIsRewarded(s.(econ := w.econ, mempool := w.pool, totals := BurnFees(s.totals, w.fees, w.foreign)), 0);
  }

  lemma DriftingProduces(halt: nat -> bool)
    requires EligibleTickets(Drifting([FOREIGN_FEE]).econ) != []
    ensures var s := Drifting([FOREIGN_FEE]); var made := MakeBlock(s, ZERO_HASH, halt).0;
      made.totals == DRIFTED && made.econ.tickets == s.econ.tickets && SameChain(s, made)
  {
    var s := Drifting([FOREIGN_FEE]);
    DriftingFills(halt);
    FirstTotals(s, ZERO_HASH, halt, Fill(Work(s.econ, s.mempool, 0, 0, [], 0), 0, halt));
    MakeBlockFrame(s, ZERO_HASH, halt);
  }

  lemma DriftingTicks(halt: nat -> bool)
    requires EligibleTickets(Drifting([FOREIGN_FEE]).econ) != []
    requires Encodable(MakeBlock(Drifting([FOREIGN_FEE]), ZERO_HASH, halt).1)
    ensures var s := Drifting([FOREIGN_FEE]); var r := TickSlot(s, halt, true);
      r.totals == DRIFTED && r.econ.tickets == s.econ.tickets
  {
    var s := Drifting([FOREIGN_FEE]);
    DriftingProduces(halt);
    var (made, b) := MakeBlock(s, ZERO_HASH, halt);
    assert NextSlot(s) && ParentOf(s) == Some(ZERO_HASH);
    assert RunBoundaries(Record(made, b)) == Record(made, b);
    assert StageSlot(s, halt) == Some((Record(made, b), b));
  }

  /** A run of two events. */
  lemma RunTwo(s: State, events: seq<LocalEvent>, initial: nat, s1: State, s2: State)
    requires |events| == 2 && s1 == Happen(s, events[0]) && s2 == Happen(s1, events[1])
    ensures RunLocal(s, events) == s2
    ensures Room(s, initial) && Room(s1, initial) && Room(s2, initial) ==> AmountsLast(s, events, initial)
  {
    var rest := events[1..];
    assert rest[1..] == [] && rest[0] == events[1];
    assert RunLocal(s1, rest) == RunLocal(s2, rest[1..]);
    assert AmountsLast(s2, rest[1..], initial) <==> Room(s2, initial);
    assert AmountsLast(s1, rest, initial) <==> Room(s1, initial) && AmountsLast(s2, rest[1..], initial);
  }

  /** The books are not constant in every run: a fresh bootstrap node that is sent one transfer with its fee in
      another token, and whose block with it encodes, ends off by that fee after its first slot. */
  lemma SupplyDriftsSometimes(s: State, halt: nat -> bool)
    requires s == Start(DRIFTING_BOOT) && TxHash(FOREIGN_FEE).Some?
    requires Encodable(MakeBlock(Enqueue(s, FOREIGN_FEE), ZERO_HASH, halt).1)
    ensures var events := [Submit(FOREIGN_FEE), SlotTick(halt, true)]; var r := RunLocal(s, events);
      && EngineOk(s, Supply(s.econ)) && RunHasRoom(s, events, Supply(s.econ)) && s.totals.foreignFees == 0
      && Supply(r.econ) + r.totals.feesBurned + r.econ.ticketBurned - r.totals.baseIssued - r.totals.burnOffset
         == Supply(s.econ) + 1000
  {
    DriftingStarts();
    DriftingSubmits();
    DriftingTicks(halt);
    DriftingRuns(s, Drifting([FOREIGN_FEE]), TickSlot(Drifting([FOREIGN_FEE]), halt, true), halt);
  }

  lemma DriftingRuns(s: State, s1: State, s2: State, halt: nat -> bool)
    requires EngineOk(s, Supply(s.econ)) && Supply(s.econ) == INITIAL_VAULT && s.totals == Totals(0, 0, 0, 0, 0)
    requires s1 == Enqueue(s, FOREIGN_FEE) && s1.totals == s.totals
    requires s2 == TickSlot(s1, halt, true) && s2.totals == DRIFTED && |s2.econ.tickets| == |s.econ.tickets|
    ensures var events := [Submit(FOREIGN_FEE), SlotTick(halt, true)]; var r := RunLocal(s, events);
      && RunHasRoom(s, events, Supply(s.econ))
      && Supply(r.econ) + r.totals.feesBurned + r.econ.ticketBurned - r.totals.baseIssued - r.totals.burnOffset
         == Supply(s.econ) + 1000
  {
    var events := [Submit(FOREIGN_FEE), SlotTick(halt, true)];
    RunTwo(s, events, Supply(s.econ), s1, s2);
    SupplyDrift(s, Supply(s.econ), events);
  }

  // ----- the engine object -----

  lemma HeldRemove(b: Bank, c: Coin)
    requires c in b
    ensures Held(b, ETX) == Held(b - {c}, ETX) + (if c.token == ETX then b[c] else 0)
  {
    if c.token == ETX {
      MapSumRemove(HeldMap(b, ETX), c);
      assert HeldMap(b - {c}, ETX) == HeldMap(b, ETX) - {c};
    } else {
      assert HeldMap(b - {c}, ETX) == HeldMap(b, ETX);
    }
  }

  /** The fold over all accounts in `total_supply_quarks`. */
  method SumEtx(b: Bank) returns (n: nat)
    ensures n == Held(b, ETX)
  {
    n := 0;
    var rest := b;
    while rest != map[]
      invariant n + Held(rest, ETX) == Held(b, ETX)
      decreases |rest|
    {
      var c :| c in rest;
      HeldRemove(rest, c);
      if c.token == ETX {
        n := n + rest[c];
      }
      rest := rest - {c};
    }
    assert HeldMap(rest, ETX) == map[];
  }

  /** `recompute_base_reward_per_block`. */
  method RecomputeReward(e: Econ, ppb: nat) returns (reward: nat)
    ensures reward == BaseReward(e, ppb)
  {
    var accounts := SumEtx(e.bank);
    reward := Saturate(Saturate(accounts + VaultSum(e.validators)) * ppb) / 1_000_000_000 / SLOTS_PER_YEAR;
  }

  /** Inflation decays, and the base reward is computed anew, once a year. */
  method NextTerms(s: State, next: nat) returns (ppb: nat, reward: nat)
    ensures next % EPOCHS_PER_YEAR != 0 ==> ppb == s.inflationPpb && reward == s.baseReward
    ensures next % EPOCHS_PER_YEAR == 0 ==> ppb == Decayed(s.inflationPpb) && reward == BaseReward(s.econ, ppb)
  {
    ppb, reward := s.inflationPpb, s.baseReward;
    if next % EPOCHS_PER_YEAR == 0 {
      ppb := Decayed(ppb);
      reward := RecomputeReward(s.econ, ppb);
    }
  }

  method FinishEpoch(s: State) returns (r: State)
    ensures r == CloseEpoch(s)
  {
    var next := s.epoch + 1;
    var ppb, reward := NextTerms(s, next);
    var vs := UnlockRewards(s.econ.validators, EntriesAt(s.unlocks, next));
    var e := s.econ.(validators := vs);
    if next in s.retire {
      e := FinalizeRetire(e, s.retire[next]);
    }
    return s.(epoch := next, inflationPpb := ppb, baseReward := reward, unlocks := s.unlocks - {next},
      retire := s.retire - {next}, econ := EpochTransitions(e, next));
  }

  method CrossBoundaries(s: State) returns (r: State)
    ensures r == RunBoundaries(s)
  {
    r := s;
    if s.slot > 0 && s.slot % SUB_EPOCH_SLOTS == 0 {
      if Produced(s.proposers) != 0 {
        r := ShareOffset(s, s.proposers, OffsetShare(s));
      }
      r := r.(totals := r.totals.(burnThisSubEpoch := 0), proposers := []);
    }
    if s.slot > 0 && s.slot % EPOCH_SLOTS == 0 {
      r := FinishEpoch(r);
    }
  }

  /** The loop that mutes tickets and appends them to the schedule. */
  method MuteLoop(ts: seq<StakeTicket>, ids: seq<u64>, before: seq<u64>)
    returns (tickets: seq<StakeTicket>, due: seq<u64>)
    ensures tickets == MuteAll(ts, ids) && due == before + ids
  {
    tickets, due := ts, before;
    for i := 0 to |ids|
      invariant tickets == MuteAll(ts, ids[..i]) && due == before + ids[..i]
    {
      assert ids[..i + 1][..i] == ids[..i];
      tickets := MuteTicket(tickets, ids[i]);
      due := due + [ids[i]];
    }
    assert ids[..|ids|] == ids;
  }

  /** `validator_block`: the mempool loop, the fee totals and the leader's reward, one after the other. */
  method ProduceNow(s: State, parent: Hash, halt: nat -> bool) returns (made: State, b: SlotBlock)
    ensures (made, b) == ProduceBlock(s, parent, halt)
  {
    var w := FillBlock(Work(s.econ, s.mempool, 0, 0, [], 0), s.slot, halt);
    made := s.(econ := w.econ, mempool := w.pool, totals := BurnFees(s.totals, w.fees, w.foreign));
    made := RewardLeader(made);
    b := SlotBlock(s.slot, ValidatorMade, parent, Some(s.leader), s.ticket, w.included, w.gas, w.fees, None);
  }

  /** The block of the active slot, whichever of the three kinds it is. */
  method MakeNow(s: State, parent: Hash, halt: nat -> bool) returns (made: State, b: SlotBlock)
    ensures (made, b) == MakeBlock(s, parent, halt)
  {
    if EligibleTickets(s.econ) == [] {
      var (executed, txs) := ExecutePbm(s);
      made := LeavePbm(executed);
      b := SlotBlock(s.slot, NoTickets, parent, None, 0, txs, GasOf(txs), FeesOf(txs), None);
    } else if s.local == Some(s.leader) {
      made, b := ProduceNow(s, parent, halt);
    } else {
      made, b := s, SlotBlock(s.slot, Missed, parent, None, 0, [], 0, 0, Some(s.leader));
    }
  }

  /** The protocol object: the installed state, queued remote blocks, and a log. */
  class Engine {
    var state: State
    var remote: map<nat, SlotBlock>
    var log: seq<string>

    constructor (s: State)
      ensures state == s && remote == map[]
    {
      state, remote, log := s, map[], [];
    }

    /** Executes the active slot on a copy: the installed state is untouched, a candidate extends a linear
        chain by exactly its block, and on a linear chain only an unencodable block yields none. */
    method Stage(halt: nat -> bool) returns (r: Option<(State, SlotBlock)>)
      ensures r == StageSlot(state, halt)
      ensures r.Some? && Linear(state) ==> Linear(StartNext(r.value.0))
      ensures r.Some? && Linear(state) ==> r.value.0.blocks == state.blocks[state.slot := r.value.1]
      ensures Linear(state) ==> ParentOf(state).Some?
      ensures Linear(state) ==> (r.None? <==> !Encodable(MakeBlock(state, ParentOf(state).value, halt).1))
    {
      var s := state;
      if Linear(s) {
        OnlyEncodingFails(s, halt);
        if StageSlot(s, halt).Some? {
          StageKeepsChain(s, halt);
        }
      }
      if !NextSlot(s) || ParentOf(s).None? {
        return None;
      }
      var made, b := MakeNow(s, ParentOf(s).value, halt);
      if !Encodable(b) || s.result.Some? {
        return None;
      }
      var crossed := CrossBoundaries(Record(made, b));
      return Some((crossed, b));
    }

    /** `finish_slot`: one assignment installs the candidate; a failure changes nothing but the log and a
        dropped remote block. */
    method FinishSlot(halt: nat -> bool, persisted: bool) returns (ok: bool)
      modifies this
      ensures ok <==> StageSlot(old(state), halt).Some? && persisted
      ensures ok ==> state == StageSlot(old(state), halt).value.0
      ensures !ok ==> state == old(state)
      ensures remote == old(remote) - {old(state).slot}
      ensures old(log) <= log && |log| == |old(log)| + Entries(old(state).slot in old(remote)) + Entries(!ok)
    {
      if state.slot in remote {
        log := log + ["rejected remote block"];
      }
      remote := remote - {state.slot};
      var staged := Stage(halt);
      if staged.None? || !persisted {
        log := log + ["slot discarded"];
        return false;
      }
      state := staged.value.0;
      return true;
    }

    /** One round of `tick`: a completed slot starts the next one; a failed one is logged and nothing else. */
    method Tick(halt: nat -> bool, persisted: bool) returns (ok: bool)
      modifies this
      ensures state == TickSlot(old(state), halt, persisted)
      ensures ok <==> StageSlot(old(state), halt).Some? && persisted
      ensures ok ==> state.slot == old(state).slot + 1
      ensures remote == old(remote) - {old(state).slot}
      ensures old(log) <= log && |log| == |old(log)| + Entries(old(state).slot in old(remote)) + Entries(!ok)
    {
      ghost var before := state;
      ok := FinishSlot(halt, persisted);
      if ok {
        StageKeepsSlot(before, halt);
        state := StartNext(state);
      }
    }

    /** `request_local_ticket_retire`: the chosen tickets are muted and scheduled one by one, then the local
        validator is re-examined. */
    method RetireTickets(count: nat)
      modifies this
      ensures state == Retire(old(state), count)
      ensures forall initial: nat :: EngineOk(old(state), initial) ==> EngineOk(state, initial)
      ensures remote == old(remote)
    {
      RetireKeepsEngines(state, count);
      if state.local.None? {
        log := log + ["retire rejected"];
        return;
      }
      var local := state.local.value;
      var ids := ChosenIds(state.econ, local, count);
      if ids == [] {
        log := log + ["no eligible local tickets"];
        return;
      }
      var tickets, due := MuteLoop(state.econ.tickets, ids, Scheduled(state.retire, state.epoch + 2));
      state := state.(
        econ := state.econ.(tickets := tickets, validators := Refresh(state.econ.validators, tickets, local)),
        retire := state.retire[state.epoch + 2 := due]);
      log := log + ["retire started"];
    }

    /** `enqueue_standard_or_pbm`: the transaction joins the end of at most one pool, and nothing else
        changes. */
    method SubmitTx(tx: Tx) returns (accepted: bool)
      modifies this
      ensures state == Enqueue(old(state), tx)
      ensures forall initial: nat :: EngineOk(old(state), initial) ==> EngineOk(state, initial)
      ensures accepted ==> |state.mempool| + |state.pbmPool| == |old(state).mempool| + |old(state).pbmPool| + 1
      ensures !accepted ==> state == old(state)
      ensures remote == old(remote)
    {
      SubmitKeepsEngines(state, tx);
      var queued := tx.(validAfter := 0);
      if EligibleTickets(state.econ) != [] {
        if TxHash(queued).None? {
          return false;
        }
        state := state.(mempool := state.mempool + [queued]);
        return true;
      }
      if !PbmAllowed(tx.kind) {
        return false;
      }
      var waiting := PendingFrom(state.pbmPool, tx.from);
      if waiting >= PBM_PENDING_LIMIT {
        return false;
      }
      queued := tx.(validAfter := Saturate64(state.slot + PBM_VALID_AFTER + waiting));
      if TxHash(queued).None? {
        return false;
      }
      state := state.(pbmPool := state.pbmPool + [queued]);
      return true;
    }
  }

  /** The number of log entries an event leaves. */
  function Entries(happened: bool): nat {
    if happened then 1 else 0
  }

  lemma StageKeepsSlot(s: State, halt: nat -> bool)
    requires StageSlot(s, halt).Some?
    ensures StageSlot(s, halt).value.0.slot == s.slot
  {
    var parent := ParentOf(s).value;
    MakeBlockFrame(s, parent, halt);
    BoundaryFrame(Record(MakeBlock(s, parent, halt).0, MakeBlock(s, parent, halt).1));
  }

  /** From a linear chain, a slot can only be discarded because its block does not encode or persistence
      fails: the slot and parent checks never fail. */
  lemma OnlyEncodingFails(s: State, halt: nat -> bool)
    requires Linear(s)
    ensures ParentOf(s).Some?
    ensures StageSlot(s, halt).None? <==> !Encodable(MakeBlock(s, ParentOf(s).value, halt).1)
  {
    LinearIsNext(s);
  }
}
