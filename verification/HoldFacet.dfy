/** The hold contract itself: guarded creation, execution, release and reclaim over the token service's
    balances, with the aggregates and the enumerable id sets it keeps. Unlike the test double, a partial
    execution or release reduces the stored amount. */
module HoldFacet {
  import opened Collections
  import ES = EnumerableSet
  import HL = HoldLedger
  import opened Payouts

  type Account = HL.Account
  type Hold = HL.Hold
  type IdSet = ES.Set<nat>

  const ZERO: Account := 0
  const INT64_MAX := 0x7FFF_FFFF_FFFF_FFFF

  /** `self` is the contract, which is the token's treasury; the balances are the token service's. */
  datatype World = World(
    self: Account,
    totalHeld: int,
    heldBy: map<Account, int>,
    holds: map<Account, map<nat, Hold>>,
    ids: map<Account, IdSet>,
    lastId: map<Account, nat>,
    balances: map<Account, int>)

  function Initial(self: Account, supply: int): World {
    World(self, 0, map[], map[], map[], map[], map[self := supply])
  }

  datatype Call =
    | CreateHold(holder: Account, hold: Hold)
    | ExecuteHold(caller: Account, holder: Account, id: nat, to: Account, amount: int)
    | ReleaseHold(caller: Account, holder: Account, id: nat, amount: int)
    | ReclaimHold(holder: Account, id: nat)
    | Mint(account: Account, amount: int)
    | Burn(amount: int)
    | Wipe(account: Account, amount: int)
    | Rescue(caller: Account, amount: int)

  /** A call at a block time; `answered` is whether the token service is willing at all. */
  datatype Transaction = Transaction(call: Call, now: int, answered: bool)

  datatype FacetError =
    | InvalidExpiration | AddressZero | NegativeAmount | HoldNotFound | InsufficientHoldAmount | HoldExpired
    | HoldNotExpired | UnauthorizedEscrow | InvalidDestination | BurnableAmountExceeded | GreaterThan
    | ResponseCodeInvalid | ArithmeticOverflow

  // ---------- storage ----------

  function HoldsOf(w: World, a: Account): map<nat, Hold> {
    if a in w.holds then w.holds[a] else map[]
  }

  function IdsOf(w: World, a: Account): IdSet {
    if a in w.ids then w.ids[a] else ES.Empty()
  }

  function LastId(w: World, a: Account): nat {
    if a in w.lastId then w.lastId[a] else 0
  }

  /** A mapping answers a missing entry with zeros. */
  function HoldAt(w: World, a: Account, id: nat): Hold {
    if id in HoldsOf(w, a) then HoldsOf(w, a)[id] else HL.Hold(0, 0, ZERO, ZERO, "")
  }

  function Registered(w: World, holder: Account, hold: Hold): World {
    var id := LastId(w, holder) + 1;
    w.(lastId := w.lastId[holder := id],
       holds := w.holds[holder := HoldsOf(w, holder)[id := hold]],
       ids := w.ids[holder := ES.Added(IdsOf(w, holder), id)],
       totalHeld := w.totalHeld + hold.amount,
       heldBy := w.heldBy[holder := At(w.heldBy, holder) + hold.amount])
  }

  function Decreased(w: World, holder: Account, id: nat, amount: int): World {
    var hold := HoldAt(w, holder, id);
    var rest := hold.(amount := hold.amount - amount);
    var reduced := w.(totalHeld := w.totalHeld - amount, heldBy := w.heldBy[holder := At(w.heldBy, holder) - amount]);
    if rest.amount == 0
    then reduced.(holds := w.holds[holder := HoldsOf(w, holder) - {id}],
        ids := w.ids[holder := ES.Removed(IdsOf(w, holder), id)])
    else reduced.(holds := w.holds[holder := HoldsOf(w, holder)[id := rest]])
  }

  function Transferred(balances: map<Account, int>, from: Account, to: Account, amount: int): map<Account, int> {
    HL.Credit(HL.Credit(balances, from, -amount), to, amount)
  }

  function BurnableAmount(w: World): int {
    At(w.balances, w.self) - w.totalHeld
  }

  // ---------- one transaction ----------

  /** What a call's own checks object to, in the order they are made. */
  function Objection(w: World, c: Call, now: int): Option<FacetError> {
    match c
    case CreateHold(holder, hold) =>
      if hold.expiration <= now then Some(InvalidExpiration)
      else if hold.escrow == ZERO || holder == ZERO then Some(AddressZero)
      else if hold.amount <= 0 then Some(NegativeAmount)
      else if w.totalHeld + hold.amount > INT64_MAX || At(w.heldBy, holder) + hold.amount > INT64_MAX
          then Some(ArithmeticOverflow)
      else None
    case ExecuteHold(caller, holder, id, to, amount) =>
      var hold := HoldAt(w, holder, id);
      if !ES.Contains(IdsOf(w, holder), id) then Some(HoldNotFound)
      else if amount <= 0 then Some(NegativeAmount)
      else if hold.amount < amount then Some(InsufficientHoldAmount)
      else if hold.expiration <= now then Some(HoldExpired)
      else if hold.escrow != caller then Some(UnauthorizedEscrow)
      else if hold.to != ZERO && hold.to != to then Some(InvalidDestination)
      else None
    case ReleaseHold(caller, holder, id, amount) =>
      var hold := HoldAt(w, holder, id);
      if !ES.Contains(IdsOf(w, holder), id) then Some(HoldNotFound)
      else if hold.amount < amount then Some(InsufficientHoldAmount)
      else if hold.expiration <= now then Some(HoldExpired)
      else if hold.escrow != caller then Some(UnauthorizedEscrow)
      else None
    case ReclaimHold(holder, id) =>
      if !ES.Contains(IdsOf(w, holder), id) then Some(HoldNotFound)
      else if HoldAt(w, holder, id).expiration > now then Some(HoldNotExpired)
      else None
    case Mint(account, amount) =>
      if account == ZERO then Some(AddressZero) else if amount <= 0 then Some(NegativeAmount) else None
    case Burn(amount) =>
      if amount <= 0 then Some(NegativeAmount) else if BurnableAmount(w) < amount then Some(BurnableAmountExceeded)
          else None
    case Wipe(account, amount) =>
      if account == ZERO then Some(AddressZero)
      else if amount <= 0 then Some(NegativeAmount)
      else if amount > At(w.balances, account) then Some(GreaterThan)
      else None
    case Rescue(_, amount) =>
      if amount <= 0 then Some(NegativeAmount) else if amount > At(w.balances, w.self) then Some(GreaterThan) else None
  }

  /** The token service moves no negative amount, none beyond the balance, and wipes any account but the treasury. */
  predicate Serviceable(w: World, c: Call) {
    match c
    case CreateHold(holder, hold) => holder != w.self && hold.amount <= At(w.balances, holder)
    case ExecuteHold(_, _, _, _, amount) => amount <= At(w.balances, w.self)
    case ReleaseHold(_, _, _, amount) => 0 <= amount <= At(w.balances, w.self)
    case ReclaimHold(holder, id) => HoldAt(w, holder, id).amount <= At(w.balances, w.self)
    case Wipe(account, _) => account != w.self
    case _ => true
  }

  function Effect(w: World, c: Call): World {
    match c
    case CreateHold(holder, hold) =>
      Registered(w.(balances := Transferred(w.balances, holder, w.self, hold.amount)), holder, hold)
    case ExecuteHold(_, holder, id, to, amount) =>
      Decreased(w, holder, id, amount).(balances := Transferred(w.balances, w.self, to, amount))
    case ReleaseHold(_, holder, id, amount) =>
      Decreased(w, holder, id, amount).(balances := Transferred(w.balances, w.self, holder, amount))
    case ReclaimHold(holder, id) =>
      var amount := HoldAt(w, holder, id).amount;
      Decreased(w, holder, id, amount).(balances := Transferred(w.balances, w.self, holder, amount))
    case Mint(account, amount) => w.(balances := HL.Credit(w.balances, account, amount))
    case Burn(amount) => w.(balances := HL.Credit(w.balances, w.self, -amount))
    case Wipe(account, amount) => w.(balances := HL.Credit(w.balances, account, -amount))
    case Rescue(caller, amount) => w.(balances := Transferred(w.balances, w.self, caller, amount))
  }

  function Execute(w: World, t: Transaction): Result<World, FacetError> {
    match Objection(w, t.call, t.now)
    case Some(e) => Failure(e)
    case None => if t.answered && Serviceable(w, t.call) then Success(Effect(w, t.call))
        else Failure(ResponseCodeInvalid)
  }

  /** A transaction that reverts leaves everything as it was. */
  function Step(w: World, t: Transaction): World {
    match Execute(w, t)
    case Success(after) => after
    case Failure(_) => w
  }

  function Run(w: World, ts: seq<Transaction>): World {
    if ts == [] then w else Step(Run(w, ts[..|ts| - 1]), ts[|ts| - 1])
  }

  // ---------- aggregates and id sets ----------

  /** One account's open holds and the set of their ids. */
  ghost predicate Listed(holds: map<nat, Hold>, ids: IdSet, last: nat) {
    && ES.Indexed(ids)
    && (forall id: nat :: ES.Contains(ids, id) <==> id in holds)
    && (forall id: nat :: id in holds ==> 1 <= id <= last && holds[id].amount > 0)
  }

  ghost function Stored(holds: map<nat, Hold>): int {
    Total(HL.Amounts(holds))
  }

  ghost predicate AccountAgrees(w: World, a: Account) {
    && Listed(HoldsOf(w, a), IdsOf(w, a), LastId(w, a))
    && At(w.heldBy, a) == Stored(HoldsOf(w, a))
    && (a == ZERO ==> HoldsOf(w, a) == map[])
  }

  ghost predicate Agrees(w: World) {
    (forall a :: AccountAgrees(w, a)) && w.totalHeld == Total(w.heldBy)
  }

  lemma ListingOneMore(holds: map<nat, Hold>, ids: IdSet, last: nat, hold: Hold)
    requires Listed(holds, ids, last) && hold.amount > 0
    ensures last + 1 !in holds && Listed(holds[last + 1 := hold], ES.Added(ids, last + 1), last + 1)
  {
    ES.AddedIsInsertion(ids, last + 1);
    var after, more := holds[last + 1 := hold], ES.Added(ids, last + 1);
    assert forall id: nat :: ES.Contains(more, id) <==> id in after;
  }

  lemma ListingOneLess(holds: map<nat, Hold>, ids: IdSet, last: nat, id: nat)
    requires Listed(holds, ids, last)
    ensures Listed(holds - {id}, ES.Removed(ids, id), last)
  {
    ES.RemovedIsDeletion(ids, id);
    var after, fewer := holds - {id}, ES.Removed(ids, id);
    assert forall x: nat :: ES.Contains(fewer, x) <==> x in after;
  }

  lemma StoredAfterUpdate(holds: map<nat, Hold>, id: nat, hold: Hold)
    ensures Stored(holds[id := hold]) == Stored(holds) - (if id in holds then holds[id].amount else 0) + hold.amount
  {
    TotalUpdate(HL.Amounts(holds), id, hold.amount);
    assert HL.Amounts(holds[id := hold]) == HL.Amounts(holds)[id := hold.amount];
  }

  lemma StoredAfterRemoval(holds: map<nat, Hold>, id: nat)
    requires id in holds
    ensures Stored(holds - {id}) == Stored(holds) - holds[id].amount
  {
    TotalRemove(HL.Amounts(holds), id);
    assert HL.Amounts(holds - {id}) == HL.Amounts(holds) - {id};
  }

  /** Where registering a hold shows: in its holder's four entries. */
  lemma RegisteredEntries(w: World, holder: Account, hold: Hold, a: Account)
    ensures var after := Registered(w, holder, hold);
            var id := LastId(w, a) + 1;
            if a == holder
            then HoldsOf(after, a) == HoldsOf(w, a)[id := hold] && IdsOf(after, a) == ES.Added(IdsOf(w, a), id)
                 && LastId(after, a) == id && At(after.heldBy, a) == At(w.heldBy, a) + hold.amount
            else HoldsOf(after, a) == HoldsOf(w, a) && IdsOf(after, a) == IdsOf(w, a)
                 && LastId(after, a) == LastId(w, a) && At(after.heldBy, a) == At(w.heldBy, a)
  {
  }

  /** And where decreasing one does: a hold that reaches zero goes, any other keeps the rest. */
  lemma DecreasedEntries(w: World, holder: Account, id: nat, amount: int, a: Account)
    requires id in HoldsOf(w, holder)
    ensures var after := Decreased(w, holder, id, amount);
            var hold := HoldsOf(w, holder)[id];
            && LastId(after, a) == LastId(w, a)
            && At(after.heldBy, a) == At(w.heldBy, a) - (if a == holder then amount else 0)
            && (if a != holder then HoldsOf(after, a) == HoldsOf(w, a) && IdsOf(after, a) == IdsOf(w, a)
                else if amount == hold.amount
                then HoldsOf(after, a) == HoldsOf(w, a) - {id} && IdsOf(after, a) == ES.Removed(IdsOf(w, a), id)
                else && HoldsOf(after, a) == HoldsOf(w, a)[id := hold.(amount := hold.amount - amount)]
                     && IdsOf(after, a) == IdsOf(w, a))
  {
  }

  lemma RegisteredAgrees(w: World, holder: Account, hold: Hold, a: Account)
    requires AccountAgrees(w, a) && hold.amount > 0 && holder != ZERO
    ensures AccountAgrees(Registered(w, holder, hold), a)
  {
    RegisteredEntries(w, holder, hold, a);
    if a == holder {
      ListingOneMore(HoldsOf(w, a), IdsOf(w, a), LastId(w, a), hold);
      StoredAfterUpdate(HoldsOf(w, a), LastId(w, a) + 1, hold);
    }
  }

  lemma ClosingAgrees(w: World, holder: Account, id: nat)
    requires AccountAgrees(w, holder) && id in HoldsOf(w, holder)
    ensures AccountAgrees(Decreased(w, holder, id, HoldsOf(w, holder)[id].amount), holder)
  {
    DecreasedEntries(w, holder, id, HoldsOf(w, holder)[id].amount, holder);
    ListingOneLess(HoldsOf(w, holder), IdsOf(w, holder), LastId(w, holder), id);
    StoredAfterRemoval(HoldsOf(w, holder), id);
  }

  lemma ReducingAgrees(w: World, holder: Account, id: nat, amount: int)
    requires AccountAgrees(w, holder) && id in HoldsOf(w, holder) && 0 <= amount < HoldsOf(w, holder)[id].amount
    ensures AccountAgrees(Decreased(w, holder, id, amount), holder)
  {
    DecreasedEntries(w, holder, id, amount, holder);
    var hold := HoldsOf(w, holder)[id];
    StoredAfterUpdate(HoldsOf(w, holder), id, hold.(amount := hold.amount - amount));
  }

  lemma DecreasedAgrees(w: World, holder: Account, id: nat, amount: int, a: Account)
    requires AccountAgrees(w, a) && id in HoldsOf(w, holder) && 0 <= amount <= HoldsOf(w, holder)[id].amount
    ensures AccountAgrees(Decreased(w, holder, id, amount), a)
  {
    if a != holder {
      DecreasedEntries(w, holder, id, amount, a);
    } else if amount == HoldsOf(w, a)[id].amount {
      ClosingAgrees(w, a, id);
    } else {
      ReducingAgrees(w, a, id, amount);
    }
  }

  /** What an accepted consumption takes, and from which hold. */
  function Consumption(w: World, c: Call): Option<(Account, nat, int)> {
    match c
    case ExecuteHold(_, holder, id, _, amount) => Some((holder, id, amount))
    case ReleaseHold(_, holder, id, amount) => Some((holder, id, amount))
    case ReclaimHold(holder, id) => Some((holder, id, HoldAt(w, holder, id).amount))
    case _ => None
  }

  lemma ConsumptionIsWithin(w: World, t: Transaction)
    requires Execute(w, t).Success? && Consumption(w, t.call).Some? && AccountAgrees(w, Consumption(w, t.call).value.0)
    ensures var (holder, id, amount) := Consumption(w, t.call).value;
            && holder != ZERO && id in HoldsOf(w, holder)
            && 0 <= amount <= HoldsOf(w, holder)[id].amount && amount <= At(w.balances, w.self)
  {
  }

  /** Apart from the balances, an accepted call registers one hold, decreases one, or changes nothing. */
  lemma EffectOnHolds(w: World, c: Call)
    ensures Effect(w, c).(balances := w.balances) ==
            if c.CreateHold? then Registered(w, c.holder, c.hold)
            else if Consumption(w, c).Some? then
              var (holder, id, amount) := Consumption(w, c).value; Decreased(w, holder, id, amount)
            else w
  {
  }

  lemma SameStorage(w: World, a: Account, balances: map<Account, int>)
    ensures AccountAgrees(w.(balances := balances), a) <==> AccountAgrees(w, a)
  {
    var v := w.(balances := balances);
    assert HoldsOf(v, a) == HoldsOf(w, a) && IdsOf(v, a) == IdsOf(w, a);
  }

  lemma StepKeepsAccount(w: World, t: Transaction, a: Account)
    requires forall b :: AccountAgrees(w, b)
    ensures AccountAgrees(Step(w, t), a)
  {
    if Execute(w, t).Success? {
      var c := t.call;
      EffectOnHolds(w, c);
      assert AccountAgrees(w, a);
      if c.CreateHold? {
        RegisteredAgrees(w, c.holder, c.hold, a);
      } else if Consumption(w, c).Some? {
        var (holder, id, amount) := Consumption(w, c).value;
        assert AccountAgrees(w, holder);
        ConsumptionIsWithin(w, t);
        DecreasedAgrees(w, holder, id, amount, a);
      }
      SameStorage(Effect(w, c), a, w.balances);
    }
  }

  lemma HeldByAfter(w: World, c: Call)
    ensures Effect(w, c).heldBy ==
            if c.CreateHold? then w.heldBy[c.holder := At(w.heldBy, c.holder) + c.hold.amount]
            else if Consumption(w, c).Some? then
              var (holder, _, amount) := Consumption(w, c).value; w.heldBy[holder := At(w.heldBy, holder) - amount]
            else w.heldBy
  {
    EffectOnHolds(w, c);
    assert Effect(w, c).heldBy == Effect(w, c).(balances := w.balances).heldBy;
  }

  lemma HeldAfter(w: World, c: Call)
    ensures Effect(w, c).totalHeld == w.totalHeld + (if c.CreateHold? then c.hold.amount
                                                     else if Consumption(w, c).Some?
                                                     then -Consumption(w, c).value.2 else 0)
    ensures Effect(w, c).self == w.self
  {
  }

  lemma StepKeepsTotal(w: World, t: Transaction)
    requires w.totalHeld == Total(w.heldBy)
    ensures Step(w, t).totalHeld == Total(Step(w, t).heldBy)
  {
    var c := t.call;
    HeldAfter(w, c);
    HeldByAfter(w, c);
    if c.CreateHold? {
      TotalUpdate(w.heldBy, c.holder, At(w.heldBy, c.holder) + c.hold.amount);
    } else if Consumption(w, c).Some? {
      var (holder, _, amount) := Consumption(w, c).value;
      TotalUpdate(w.heldBy, holder, At(w.heldBy, holder) - amount);
    }
  }

  /** In every run, partial amounts included: the global held amount is the sum over accounts, each account's
      is the sum of its open holds, and its id set lists exactly those, all of them positive. */
  lemma {:induction false} AggregatesAlwaysAgree(self: Account, supply: int, ts: seq<Transaction>)
    ensures Agrees(Run(Initial(self, supply), ts))
  {
    if ts == [] {
      assert HL.Amounts(map[]) == map[];
    } else {
      var front := ts[..|ts| - 1];
      AggregatesAlwaysAgree(self, supply, front);
      forall a ensures AccountAgrees(Run(Initial(self, supply), ts), a) {
        StepKeepsAccount(Run(Initial(self, supply), front), ts[|ts| - 1], a);
      }
      StepKeepsTotal(Run(Initial(self, supply), front), ts[|ts| - 1]);
    }
  }

  /** What the contract's queries answer in every run: the count is the number of open holds and the listed
      ids are theirs, each once. */
  lemma QueriesAgree(self: Account, supply: int, ts: seq<Transaction>, a: Account)
    ensures var w := Run(Initial(self, supply), ts);
            && NoDup(IdsOf(w, a).values) && Elements(IdsOf(w, a).values) == HoldsOf(w, a).Keys
            && |IdsOf(w, a).values| == |HoldsOf(w, a)|
            && At(w.heldBy, a) == Total(HL.Amounts(HoldsOf(w, a)))
  {
    AggregatesAlwaysAgree(self, supply, ts);
    var w := Run(Initial(self, supply), ts);
    assert AccountAgrees(w, a);
    ES.ListsExactly(IdsOf(w, a), HoldsOf(w, a).Keys);
  }

  // ---------- the treasury covers what is held ----------

  /** The tokens a call moves, from where to where. */
  function Movement(w: World, c: Call): (Option<Account>, Option<Account>, int) {
    match c
    case CreateHold(holder, hold) => (Some(holder), Some(w.self), hold.amount)
    case ExecuteHold(_, _, _, to, amount) => (Some(w.self), Some(to), amount)
    case ReleaseHold(_, holder, _, amount) => (Some(w.self), Some(holder), amount)
    case ReclaimHold(holder, id) => (Some(w.self), Some(holder), HoldAt(w, holder, id).amount)
    case Mint(account, amount) => (None, Some(account), amount)
    case Burn(amount) => (Some(w.self), None, amount)
    case Wipe(account, amount) => (Some(account), None, amount)
    case Rescue(caller, amount) => (Some(w.self), Some(caller), amount)
  }

  lemma BalanceAfter(w: World, c: Call, a: Account)
    ensures var (from, to, amount) := Movement(w, c);
            At(Effect(w, c).balances, a) ==
              At(w.balances, a) - (if from == Some(a) then amount else 0) + (if to == Some(a) then amount else 0)
  {
  }

  ghost predicate Covered(w: World) {
    w.totalHeld <= At(w.balances, w.self)
  }

  /** An accepted call keeps the treasury covering all holds exactly when it is not a rescue, by another
      account, of more than the burnable amount. */
  lemma StepKeepsCoverIff(w: World, t: Transaction)
    requires (forall a :: AccountAgrees(w, a)) && Covered(w) && Execute(w, t).Success?
    ensures Covered(Step(w, t)) <==> !(t.call.Rescue? && t.call.caller != w.self && t.call.amount > BurnableAmount(w))
  {
    BalanceAfter(w, t.call, w.self);
    HeldAfter(w, t.call);
    if Consumption(w, t.call).Some? {
      ConsumptionIsWithin(w, t);
    }
  }

  /** Every accepted rescue by another account stays within the burnable amount. */
  predicate RescuesWithin(w: World, ts: seq<Transaction>) {
    ts == [] ||
    var front, t := ts[..|ts| - 1], ts[|ts| - 1];
    && RescuesWithin(w, front)
    && (Execute(Run(w, front), t).Success? && t.call.Rescue? && t.call.caller != w.self ==>
        t.call.amount <= BurnableAmount(Run(w, front)))
  }

  /** After every transaction of the run, and before the first. */
  ghost predicate AlwaysCovered(w: World, ts: seq<Transaction>) {
    Covered(Run(w, ts)) && (ts == [] || AlwaysCovered(w, ts[..|ts| - 1]))
  }

  lemma {:induction false} SelfStays(w: World, ts: seq<Transaction>)
    ensures Run(w, ts).self == w.self
  {
    if ts != [] {
      SelfStays(w, ts[..|ts| - 1]);
      HeldAfter(Run(w, ts[..|ts| - 1]), ts[|ts| - 1].call);
    }
  }

  lemma RunAppends(w: World, ts: seq<Transaction>, t: Transaction)
    ensures Run(w, ts + [t]) == Step(Run(w, ts), t)
  {
    assert (ts + [t])[..|ts|] == ts;
  }

  /** The treasury covers everything on hold all along a run if and only if it did at first and every accepted
      rescue by another account stays within the burnable amount. */
  lemma {:induction false} AlwaysCoveredIff(self: Account, supply: int, ts: seq<Transaction>)
    ensures AlwaysCovered(Initial(self, supply), ts) <==> supply >= 0 && RescuesWithin(Initial(self, supply), ts)
  {
    var w0 := Initial(self, supply);
    if ts != [] {
      var front, t := ts[..|ts| - 1], ts[|ts| - 1];
      AlwaysCoveredIff(self, supply, front);
      if AlwaysCovered(w0, front) {
        AggregatesAlwaysAgree(self, supply, front);
        SelfStays(w0, front);
        if Execute(Run(w0, front), t).Success? {
          StepKeepsCoverIff(Run(w0, front), t);
        }
      }
    }
  }

  lemma StoredWithinTotal(w: World, a: Account, id: nat)
    requires Agrees(w) && id in HoldsOf(w, a)
    ensures HoldsOf(w, a)[id].amount <= w.totalHeld
  {
    assert AccountAgrees(w, a);
    TotalIsAtLeast(HL.Amounts(HoldsOf(w, a)), id);
    forall b | b in w.heldBy ensures w.heldBy[b] >= 0 {
      assert AccountAgrees(w, b);
      TotalIsNotNegative(HL.Amounts(HoldsOf(w, b)));
    }
    TotalIsAtLeast(w.heldBy, a);
  }

  /** An open hold of a covered treasury can be paid in full: once expired, it can be reclaimed whenever the token
      service answers. */
  lemma CoveredIsPayable(w: World, a: Account, id: nat, now: int)
    requires Agrees(w) && Covered(w) && id in HoldsOf(w, a)
    ensures HoldsOf(w, a)[id].amount <= At(w.balances, w.self)
    ensures HoldsOf(w, a)[id].expiration <= now ==> Execute(w, Transaction(ReclaimHold(a, id), now, true)).Success?
  {
    StoredWithinTotal(w, a, id);
    assert AccountAgrees(w, a);
  }

  /** So in every run whose rescues stay within the burnable amount every open hold can be paid in full. */
  lemma OpenHoldsArePayable(self: Account, supply: int, ts: seq<Transaction>)
    requires supply >= 0 && RescuesWithin(Initial(self, supply), ts)
    ensures var w := Run(Initial(self, supply), ts);
            forall a, id, now :: id in HoldsOf(w, a) && HoldsOf(w, a)[id].expiration <= now ==>
              && HoldsOf(w, a)[id].amount <= At(w.balances, w.self)
              && Execute(w, Transaction(ReclaimHold(a, id), now, true)).Success?
  {
    var w := Run(Initial(self, supply), ts);
    AlwaysCoveredIff(self, supply, ts);
    AggregatesAlwaysAgree(self, supply, ts);
    forall a, id, now | id in HoldsOf(w, a) && HoldsOf(w, a)[id].expiration <= now
      ensures HoldsOf(w, a)[id].amount <= At(w.balances, w.self)
      ensures Execute(w, Transaction(ReclaimHold(a, id), now, true)).Success?
    {
      CoveredIsPayable(w, a, id, now);
    }
  }

  /** A rescue beyond the burnable amount does leave a hold that cannot be paid: 10 minted, 10 put on hold, 1
      rescued, and the expired hold cannot be reclaimed. */
  lemma RescueUncovers(self: Account, holder: Account, escrow: Account, caller: Account, now: int)
    requires holder != ZERO && escrow != ZERO && holder != self && caller != self && now >= 100
    ensures var hold := HL.Hold(10, 100, escrow, ZERO, "");
            var ts := [Transaction(Mint(holder, 10), 0, true), Transaction(CreateHold(holder, hold), 0, true),
                Transaction(Rescue(caller, 1), 0, true)];
            var w := Run(Initial(self, 0), ts);
            && 1 in HoldsOf(w, holder) && HoldsOf(w, holder)[1] == hold && !Covered(w)
            && Execute(w, Transaction(ReclaimHold(holder, 1), now, true)) == Failure(ResponseCodeInvalid)
  {
    var hold := HL.Hold(10, 100, escrow, ZERO, "");
    var t0, t1, t2 := Transaction(Mint(holder, 10), 0, true), Transaction(CreateHold(holder, hold), 0, true),
        Transaction(Rescue(caller, 1), 0, true);
    var w0 := Initial(self, 0);
    RunAppends(w0, [], t0);
    RunAppends(w0, [t0], t1);
    RunAppends(w0, [t0, t1], t2);
    assert [] + [t0] == [t0] && [t0] + [t1] == [t0, t1] && [t0, t1] + [t2] == [t0, t1, t2];
    var w1, w2 := Run(w0, [t0]), Run(w0, [t0, t1]);
    assert w1 == w0.(balances := HL.Credit(w0.balances, holder, 10));
    assert Execute(w1, t1).Success? && w2 == Effect(w1, t1.call);
    BalanceAfter(w1, t1.call, self);
    assert At(w2.balances, self) == 10 && w2.totalHeld == 10 && HoldsOf(w2, holder) == map[1 := hold];
    assert Execute(w2, t2).Success?;
    BalanceAfter(w2, t2.call, self);
  }

  // ---------- what becomes of a hold ----------

  datatype Books = Books(world: World, created: map<HoldKey, Hold>, payouts: seq<Payout>)

  function NewBooks(self: Account, supply: int): Books {
    Books(Initial(self, supply), map[], [])
  }

  function HoldsOpened(w: World, c: Call): map<HoldKey, Hold> {
    if c.CreateHold? then map[(c.holder, LastId(w, c.holder) + 1) := c.hold] else map[]
  }

  function PaymentsMade(w: World, c: Call, now: int): seq<Payout> {
    match c
    case ExecuteHold(caller, holder, id, to, amount) => [Payout((holder, id), to, amount, now, Some(caller))]
    case ReleaseHold(caller, holder, id, amount) => [Payout((holder, id), holder, amount, now, Some(caller))]
    case ReclaimHold(holder, id) => [Payout((holder, id), holder, HoldAt(w, holder, id).amount, now, None)]
    case _ => []
  }

  function Entered(d: Books, t: Transaction): Books {
    match Execute(d.world, t)
    case Failure(_) => d
    case Success(after) =>
      Books(after, d.created + HoldsOpened(d.world, t.call), d.payouts + PaymentsMade(d.world, t.call, t.now))
  }

  function BooksAfter(self: Account, supply: int, ts: seq<Transaction>): Books {
    if ts == [] then NewBooks(self, supply) else Entered(BooksAfter(self, supply, ts[..|ts| - 1]), ts[|ts| - 1])
  }

  /** Everything ever paid out of one hold. */
  function PaidOut(payouts: seq<Payout>, k: HoldKey): int {
    if payouts == [] then 0
    else
      var last := payouts[|payouts| - 1];
      PaidOut(payouts[..|payouts| - 1], k) + if last.hold == k then last.amount else 0
  }

  /** Before the expiry payments are made by the hold's escrow, to its destination or back to its holder; from then
      on anybody may send them back, and only back. */
  predicate PaysByTerms(hold: Hold, p: Payout) {
    && 0 <= p.amount && GoesRight(hold, p, p.time >= hold.expiration)
    && (p.time < hold.expiration ==> p.caller == Some(hold.escrow))
    && (p.time >= hold.expiration ==> p.caller == None)
  }

  function Promised(d: Books, k: HoldKey): int {
    if k in d.created then d.created[k].amount else 0
  }

  /** What one hold was created with is what it has paid and what it still stores. */
  ghost predicate HoldAccounted(d: Books, k: HoldKey) {
    && (k in d.created <==> 1 <= k.1 <= LastId(d.world, k.0)) && (k in d.created ==> k.0 != ZERO)
    && PaidOut(d.payouts, k) + HoldAt(d.world, k.0, k.1).amount == Promised(d, k)
    && (k.1 in HoldsOf(d.world, k.0) ==>
         k in d.created && HoldsOf(d.world, k.0)[k.1] == d.created[k].(amount := HoldsOf(d.world, k.0)[k.1].amount))
  }

  ghost predicate PaymentsByTerms(d: Books) {
    forall p :: p in d.payouts ==> p.hold in d.created && PaysByTerms(d.created[p.hold], p)
  }

  ghost predicate Accounted(d: Books) {
    (forall a :: AccountAgrees(d.world, a)) && (forall k :: HoldAccounted(d, k)) && PaymentsByTerms(d)
  }

  lemma PaidOutMore(payouts: seq<Payout>, p: Payout, k: HoldKey)
    ensures PaidOut(payouts + [p], k) == PaidOut(payouts, k) + if p.hold == k then p.amount else 0
  {
    assert (payouts + [p])[..|payouts|] == payouts;
  }

  lemma CreationAccounted(d: Books, t: Transaction, k: HoldKey)
    requires Execute(d.world, t).Success? && t.call.CreateHold? && AccountAgrees(d.world, k.0) && HoldAccounted(d, k)
    ensures HoldAccounted(Entered(d, t), k)
  {
    var w, c := d.world, t.call;
    EffectOnHolds(w, c);
    RegisteredEntries(w, c.holder, c.hold, k.0);
    assert k == (k.0, k.1);
    assert d.payouts + PaymentsMade(w, c, t.now) == d.payouts;
    var after := Effect(w, c).(balances := w.balances);
    assert HoldsOf(after, k.0) == HoldsOf(Effect(w, c), k.0) && LastId(after, k.0) == LastId(Effect(w, c), k.0);
  }

  /** `after` is `before` with an amount taken off one hold, which goes when nothing is left of it. */
  ghost predicate TakenOff(before: World, after: World, holder: Account, id: nat, amount: int, k: HoldKey) {
    && LastId(after, k.0) == LastId(before, k.0)
    && if k != (holder, id)
       then && (k.1 in HoldsOf(after, k.0) <==> k.1 in HoldsOf(before, k.0))
            && HoldAt(after, k.0, k.1) == HoldAt(before, k.0, k.1)
       else if amount == HoldAt(before, holder, id).amount then id !in HoldsOf(after, holder)
       else && id in HoldsOf(after, holder)
            && HoldAt(after, holder, id) ==
               HoldAt(before, holder, id).(amount := HoldAt(before, holder, id).amount - amount)
  }

  lemma ConsumptionTakesOff(w: World, c: Call, k: HoldKey)
    requires Consumption(w, c).Some? && Consumption(w, c).value.1 in HoldsOf(w, Consumption(w, c).value.0)
    ensures var (holder, id, amount) := Consumption(w, c).value; TakenOff(w, Effect(w, c), holder, id, amount, k)
  {
    var (holder, id, amount) := Consumption(w, c).value;
    EffectOnHolds(w, c);
    DecreasedEntries(w, holder, id, amount, k.0);
    var after := Effect(w, c).(balances := w.balances);
    assert HoldsOf(after, k.0) == HoldsOf(Effect(w, c), k.0) && LastId(after, k.0) == LastId(Effect(w, c), k.0);
    assert k == (k.0, k.1);
  }

  lemma TakingOffAccounted(d: Books, after: Books, holder: Account, id: nat, amount: int, k: HoldKey)
    requires HoldAccounted(d, k) && id in HoldsOf(d.world, holder)
        && TakenOff(d.world, after.world, holder, id, amount, k)
    requires after.created == d.created
    requires PaidOut(after.payouts, k) == PaidOut(d.payouts, k) + if (holder, id) == k then amount else 0
    ensures HoldAccounted(after, k)
  {
    assert k == (k.0, k.1);
  }

  lemma ConsumptionAccounted(d: Books, t: Transaction, k: HoldKey)
    requires Execute(d.world, t).Success? && Consumption(d.world, t.call).Some? && HoldAccounted(d, k)
    requires AccountAgrees(d.world, Consumption(d.world, t.call).value.0)
    ensures HoldAccounted(Entered(d, t), k)
  {
    var (holder, id, amount) := Consumption(d.world, t.call).value;
    ConsumptionIsWithin(d.world, t);
    ConsumptionTakesOff(d.world, t.call, k);
    ConsumptionIsRecorded(d, t, k);
    TakingOffAccounted(d, Entered(d, t), holder, id, amount, k);
  }

  lemma ConsumptionIsRecorded(d: Books, t: Transaction, k: HoldKey)
    requires Execute(d.world, t).Success? && Consumption(d.world, t.call).Some?
    ensures var (holder, id, amount) := Consumption(d.world, t.call).value;
            var after := Entered(d, t);
            && after.world == Effect(d.world, t.call) && after.created == d.created
            && PaidOut(after.payouts, k) == PaidOut(d.payouts, k) + if (holder, id) == k then amount else 0
  {
    PaidOutMore(d.payouts, PaymentsMade(d.world, t.call, t.now)[0], k);
    assert d.created + HoldsOpened(d.world, t.call) == d.created;
  }

  lemma OthersAccounted(d: Books, t: Transaction, k: HoldKey)
    requires Execute(d.world, t).Success? && !t.call.CreateHold? && Consumption(d.world, t.call).None?
        && HoldAccounted(d, k)
    ensures HoldAccounted(Entered(d, t), k)
  {
    var w, c := d.world, t.call;
    assert d.payouts + PaymentsMade(w, c, t.now) == d.payouts && d.created + HoldsOpened(w, c) == d.created;
    assert HoldsOf(w, k.0) == HoldsOf(Effect(w, c), k.0) && LastId(w, k.0) == LastId(Effect(w, c), k.0);
  }

  /** What an accepted consumption pays, it pays rightly. */
  lemma AcceptedPaysByTerms(d: Books, t: Transaction)
    requires Execute(d.world, t).Success? && Consumption(d.world, t.call).Some?
    requires var (holder, id, _) := Consumption(d.world, t.call).value;
        AccountAgrees(d.world, holder) && HoldAccounted(d, (holder, id))
    ensures var p := PaymentsMade(d.world, t.call, t.now)[0]; p.hold in d.created && PaysByTerms(d.created[p.hold], p)
  {
    ConsumptionIsWithin(d.world, t);
  }

  lemma NewHoldsAreNew(d: Books, t: Transaction)
    requires Accounted(d)
    ensures forall k :: k in d.created ==> k !in HoldsOpened(d.world, t.call)
  {
    forall k | k in d.created ensures k !in HoldsOpened(d.world, t.call) {
      assert HoldAccounted(d, k);
    }
  }

  lemma StepAccounted(d: Books, t: Transaction)
    requires Accounted(d)
    ensures Accounted(Entered(d, t))
  {
    if Execute(d.world, t).Success? {
      var w, c, after := d.world, t.call, Entered(d, t);
      forall a ensures AccountAgrees(after.world, a) {
        StepKeepsAccount(w, t, a);
      }
      forall k ensures HoldAccounted(after, k) {
        assert HoldAccounted(d, k) && AccountAgrees(w, k.0);
        if c.CreateHold? {
          CreationAccounted(d, t, k);
        } else if Consumption(w, c).Some? {
          assert AccountAgrees(w, Consumption(w, c).value.0);
          ConsumptionAccounted(d, t, k);
        } else {
          OthersAccounted(d, t, k);
        }
      }
      StepPaysByTerms(d, t);
    }
  }

  lemma StepPaysByTerms(d: Books, t: Transaction)
    requires Accounted(d) && Execute(d.world, t).Success?
    ensures PaymentsByTerms(Entered(d, t))
  {
    NewHoldsAreNew(d, t);
    if Consumption(d.world, t.call).Some? {
      var (holder, id, _) := Consumption(d.world, t.call).value;
      assert AccountAgrees(d.world, holder) && HoldAccounted(d, (holder, id));
      AcceptedPaysByTerms(d, t);
    }
  }

  lemma {:induction false} AlwaysAccounted(self: Account, supply: int, ts: seq<Transaction>)
    ensures Accounted(BooksAfter(self, supply, ts))
    ensures BooksAfter(self, supply, ts).world == Run(Initial(self, supply), ts)
  {
    if ts == [] {
      assert HL.Amounts(map[]) == map[];
    } else {
      AlwaysAccounted(self, supply, ts[..|ts| - 1]);
      StepAccounted(BooksAfter(self, supply, ts[..|ts| - 1]), ts[|ts| - 1]);
    }
  }

  /** In every history, partial amounts included: what a hold has paid and what it still stores add up to what
      it was created with, it is open exactly while something is left, and every payment went where it may. */
  lemma EveryHoldIsAccountedFor(self: Account, supply: int, ts: seq<Transaction>, k: HoldKey)
    requires k in BooksAfter(self, supply, ts).created
    ensures var d := BooksAfter(self, supply, ts);
            && k.0 != ZERO
            && PaidOut(d.payouts, k) + HoldAt(d.world, k.0, k.1).amount == d.created[k].amount
            && (k.1 in HoldsOf(d.world, k.0) <==> PaidOut(d.payouts, k) < d.created[k].amount)
            && PaidOut(d.payouts, k) <= d.created[k].amount
            && (forall p :: p in d.payouts && p.hold == k ==> PaysByTerms(d.created[k], p))
  {
    AlwaysAccounted(self, supply, ts);
    var d := BooksAfter(self, supply, ts);
    assert HoldAccounted(d, k) && AccountAgrees(d.world, k.0);
  }
}
