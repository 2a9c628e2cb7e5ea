/** How far the SDK's test double can stand in for the hold contract: step by step, exactly as long as every
    consumption takes its whole hold. */
module DoubleTracksFacet {
  import opened Collections
  import opened HoldFacet
  import HL = HoldLedger
  import HG = HoldGuards

  /** The double numbers an account's holds from 0, the contract from 1. */
  function DoubleId(id: nat): nat {
    if id > 0 then id - 1 else 0
  }

  /** The double's event for a contract call. */
  function DoubleEvent(c: Call): HL.Event {
    match c
    case CreateHold(holder, hold) => HL.CreateHold(holder, hold)
    case ExecuteHold(_, holder, id, to, amount) => HL.ExecuteHold(holder, DoubleId(id), to, amount)
    case ReleaseHold(_, holder, id, amount) => HL.ReleaseHold(holder, DoubleId(id), amount)
    case ReclaimHold(holder, id) => HL.ReclaimHold(holder, DoubleId(id))
    case Mint(account, amount) => HL.Mint(account, amount)
    case Burn(amount) => HL.Burn(amount)
    case Wipe(account, amount) => HL.Wipe(account, amount)
    case Rescue(caller, amount) => HL.Rescue(caller, amount)
  }

  /** The double keeps held tokens in no account, the contract keeps them in the treasury. */
  ghost predicate SameBalance(w: World, l: HL.Ledger, a: Account) {
    At(l.balances, a) == At(w.balances, a) - if a == w.self then w.totalHeld else 0
  }

  ghost predicate SameCounters(w: World, l: HL.Ledger, a: Account) {
    At(l.heldBy, a) == At(w.heldBy, a) && HL.NextOf(l, a) == LastId(w, a)
  }

  ghost predicate SameHold(w: World, l: HL.Ledger, a: Account, id: nat) {
    && (HL.Open(l, a, id) <==> id + 1 in HoldsOf(w, a))
    && (HL.Open(l, a, id) ==> l.holds[a][id] == HoldsOf(w, a)[id + 1])
  }

  ghost predicate Tracks(w: World, l: HL.Ledger) {
    && l.treasury == w.self && w.self in l.balances && l.totalHeld == w.totalHeld
    && (forall a :: SameBalance(w, l, a))
    && (forall a :: SameCounters(w, l, a))
    && (forall a, id :: SameHold(w, l, a, id))
  }

  /** A consumption takes the whole hold, or nothing. */
  predicate TakesAll(w: World, c: Call) {
    match Consumption(w, c)
    case Some((holder, id, amount)) => amount == HoldAt(w, holder, id).amount || amount == 0
    case None => true
  }

  ghost predicate Ready(w: World, l: HL.Ledger, t: Transaction) {
    Tracks(w, l) && (forall a :: AccountAgrees(w, a)) && Execute(w, t).Success?
  }

  /** The hold an accepted consumption takes from is open in the double too. */
  lemma ConsumptionFound(w: World, l: HL.Ledger, t: Transaction)
    requires Ready(w, l, t) && Consumption(w, t.call).Some?
    ensures Found(w, l, t.call) && Consumption(w, t.call).value.1 in HoldsOf(w, Consumption(w, t.call).value.0)
  {
    var (holder, id, _) := Consumption(w, t.call).value;
    assert AccountAgrees(w, holder);
    ConsumptionIsWithin(w, t);
    assert SameHold(w, l, holder, id - 1);
  }

  predicate Found(w: World, l: HL.Ledger, c: Call)
    requires Consumption(w, c).Some?
  {
    var (holder, id, _) := Consumption(w, c).value;
    && holder != ZERO && id > 0
    && HL.Open(l, holder, id - 1) && l.holds[holder][id - 1] == HoldAt(w, holder, id)
    && (c.ExecuteHold? ==> HoldAt(w, holder, id).to == ZERO || HoldAt(w, holder, id).to == c.to)
  }

  lemma ConsumedNumbers(l: HL.Ledger, holder: Account, id: nat, target: Account, amount: Option<int>)
    requires HL.Open(l, holder, id)
    ensures var after := HL.Consumed(l, holder, id, target, amount);
            var paid := if amount.Some? then amount.value else l.holds[holder][id].amount;
            && after.balances == HL.Credit(l.balances, HL.Destination(l.holds[holder][id], target), paid)
            && after.heldBy == l.heldBy[holder := At(l.heldBy, holder) - paid]
            && after.totalHeld == l.totalHeld - paid && after.treasury == l.treasury && after.nextId == l.nextId
  {
  }

  /** In the double a consumption credits the contract's payee, and only that. */
  lemma DoublePays(w: World, l: HL.Ledger, c: Call)
    requires Consumption(w, c).Some? && Found(w, l, c)
    ensures var (holder, id, amount) := Consumption(w, c).value;
            var after := HL.Step(l, DoubleEvent(c));
            && Movement(w, c).1.Some? && Movement(w, c).0 == Some(w.self) && Movement(w, c).2 == amount
            && after.balances == HL.Credit(l.balances, Movement(w, c).1.value, amount)
            && after.heldBy == l.heldBy[holder := At(l.heldBy, holder) - amount]
            && after.totalHeld == l.totalHeld - amount && after.treasury == l.treasury && after.nextId == l.nextId
  {
    match c
    case ExecuteHold(_, holder, id, to, amount) => ConsumedNumbers(l, holder, id - 1, to, Some(amount));
    case ReleaseHold(_, holder, id, amount) => ConsumedNumbers(l, holder, id - 1, holder, Some(amount));
    case ReclaimHold(holder, id) => ConsumedNumbers(l, holder, id - 1, holder, None);
  }

  ghost predicate SameNumbers(w: World, l: HL.Ledger, a: Account) {
    && SameBalance(w, l, a) && SameCounters(w, l, a)
    && l.treasury == w.self && w.self in l.balances && l.totalHeld == w.totalHeld
  }

  lemma ConsumptionTracksNumbers(w: World, l: HL.Ledger, c: Call, a: Account)
    requires Consumption(w, c).Some? && Found(w, l, c) && SameNumbers(w, l, a)
    requires Consumption(w, c).value.1 in HoldsOf(w, Consumption(w, c).value.0)
    ensures SameNumbers(Effect(w, c), HL.Step(l, DoubleEvent(c)), a)
  {
    var (holder, id, amount) := Consumption(w, c).value;
    DoublePays(w, l, c);
    BalanceAfter(w, c, a);
    HeldAfter(w, c);
    EffectOnHolds(w, c);
    DecreasedEntries(w, holder, id, amount, a);
    StorageOnly(w, c, a);
  }

  /** The balances do not show in the storage. */
  lemma StorageOnly(w: World, c: Call, a: Account)
    ensures var (v, u) := (Effect(w, c), Effect(w, c).(balances := w.balances));
            HoldsOf(v, a) == HoldsOf(u, a) && LastId(v, a) == LastId(u, a) && v.heldBy == u.heldBy
  {
  }

  lemma CreationTracksNumbers(w: World, l: HL.Ledger, holder: Account, hold: Hold, a: Account)
    requires SameNumbers(w, l, a)
    ensures SameNumbers(Effect(w, CreateHold(holder, hold)), HL.Step(l, HL.CreateHold(holder, hold)), a)
  {
    var c := CreateHold(holder, hold);
    BalanceAfter(w, c, a);
    HeldAfter(w, c);
    EffectOnHolds(w, c);
    RegisteredEntries(w, holder, hold, a);
    StorageOnly(w, c, a);
  }

  lemma TokensTrackNumbers(w: World, l: HL.Ledger, c: Call, a: Account)
    requires SameNumbers(w, l, a) && (c.Mint? || c.Burn? || c.Wipe? || c.Rescue?)
    requires c.Wipe? ==> c.account in l.balances
    ensures SameNumbers(Effect(w, c), HL.Step(l, DoubleEvent(c)), a)
  {
    BalanceAfter(w, c, a);
    HeldAfter(w, c);
  }

  lemma NumbersTrack(w: World, l: HL.Ledger, t: Transaction, a: Account)
    requires Ready(w, l, t)
    ensures SameNumbers(Effect(w, t.call), HL.Step(l, DoubleEvent(t.call)), a)
  {
    assert SameBalance(w, l, a) && SameCounters(w, l, a);
    var c := t.call;
    if Consumption(w, c).Some? {
      ConsumptionFound(w, l, t);
      ConsumptionTracksNumbers(w, l, c, a);
    } else if c.CreateHold? {
      CreationTracksNumbers(w, l, c.holder, c.hold, a);
    } else {
      if c.Wipe? {
        assert SameBalance(w, l, c.account);
      }
      TokensTrackNumbers(w, l, c, a);
    }
  }

  lemma ConsumptionTracksHold(w: World, l: HL.Ledger, c: Call, a: Account, id: nat)
    requires Consumption(w, c).Some? && Found(w, l, c) && SameHold(w, l, a, id)
    requires Consumption(w, c).value.1 in HoldsOf(w, Consumption(w, c).value.0)
    ensures SameHold(Effect(w, c), HL.Step(l, DoubleEvent(c)), a, id) <==>
            TakesAll(w, c) || !(a == Consumption(w, c).value.0 && id + 1 == Consumption(w, c).value.1)
  {
    ConsumptionTakesOff(w, c, (a, id + 1));
    HG.HoldAfter(l, DoubleEvent(c), a, id);
  }

  lemma OthersTrackHold(w: World, l: HL.Ledger, c: Call, a: Account, id: nat)
    requires Consumption(w, c).None? && SameHold(w, l, a, id) && SameCounters(w, l, a)
    ensures SameHold(Effect(w, c), HL.Step(l, DoubleEvent(c)), a, id)
  {
    HG.HoldAfter(l, DoubleEvent(c), a, id);
    EffectOnHolds(w, c);
    StorageOnly(w, c, a);
    if c.CreateHold? {
      RegisteredEntries(w, c.holder, c.hold, a);
    }
  }

  lemma HoldTracksIff(w: World, l: HL.Ledger, t: Transaction, a: Account, id: nat)
    requires Ready(w, l, t)
    ensures SameHold(Effect(w, t.call), HL.Step(l, DoubleEvent(t.call)), a, id) <==>
            TakesAll(w, t.call) || !(a == Consumption(w, t.call).value.0 && id + 1 == Consumption(w, t.call).value.1)
  {
    assert SameHold(w, l, a, id) && SameCounters(w, l, a);
    if Consumption(w, t.call).Some? {
      ConsumptionFound(w, l, t);
      ConsumptionTracksHold(w, l, t.call, a, id);
    } else {
      OthersTrackHold(w, l, t.call, a, id);
    }
  }

  /** One accepted call: contract and double stay in agreement, on every balance, held amount, id counter and
      open hold, exactly when the call is not a partial consumption. */
  lemma StepTracksIff(w: World, l: HL.Ledger, t: Transaction)
    requires Ready(w, l, t)
    ensures Tracks(Step(w, t), HL.Step(l, DoubleEvent(t.call))) <==> TakesAll(w, t.call)
  {
    var v, m := Step(w, t), HL.Step(l, DoubleEvent(t.call));
    assert v == Effect(w, t.call);
    forall a ensures SameBalance(v, m, a) && SameCounters(v, m, a) {
      NumbersTrack(w, l, t, a);
    }
    NumbersTrack(w, l, t, ZERO);
    if TakesAll(w, t.call) {
      forall a, id ensures SameHold(v, m, a, id) {
        HoldTracksIff(w, l, t, a, id);
      }
    } else {
      ConsumptionFound(w, l, t);
      var (holder, id, _) := Consumption(w, t.call).value;
      HoldTracksIff(w, l, t, holder, id - 1);
    }
  }

  // ---------- runs ----------

  /** The double's events for the accepted calls of a run. */
  function DoubleEvents(w: World, ts: seq<Transaction>): seq<HL.Event> {
    if ts == [] then []
    else
      var front, t := ts[..|ts| - 1], ts[|ts| - 1];
      DoubleEvents(w, front) + if Execute(Run(w, front), t).Success? then [DoubleEvent(t.call)] else []
  }

  predicate WholeRun(w: World, ts: seq<Transaction>) {
    ts == [] ||
    var front, t := ts[..|ts| - 1], ts[|ts| - 1];
    WholeRun(w, front) && (Execute(Run(w, front), t).Success? ==> TakesAll(Run(w, front), t.call))
  }

  /** After every transaction of the run, and before the first. */
  ghost predicate AlwaysTracked(w: World, l: HL.Ledger, ts: seq<Transaction>) {
    && Tracks(Run(w, ts), HL.Run(l, DoubleEvents(w, ts)))
    && (ts == [] || AlwaysTracked(w, l, ts[..|ts| - 1]))
  }

  lemma DoubleRunAppends(l: HL.Ledger, events: seq<HL.Event>, e: HL.Event)
    ensures HL.Run(l, events + [e]) == HL.Step(HL.Run(l, events), e)
  {
    assert (events + [e])[..|events|] == events;
  }

  /** The contract's run is matched, transaction by transaction, by the double's run of the same operations if and
      only if every accepted consumption takes its whole hold, or nothing. */
  lemma {:induction false} RunsAreTrackedIff(self: Account, supply: int, ts: seq<Transaction>)
    ensures AlwaysTracked(Initial(self, supply), HL.Initial(self, supply), ts) <==> WholeRun(Initial(self, supply), ts)
  {
    var w0, l0 := Initial(self, supply), HL.Initial(self, supply);
    if ts == [] {
      assert Tracks(w0, l0);
    } else {
      var front, t := ts[..|ts| - 1], ts[|ts| - 1];
      RunsAreTrackedIff(self, supply, front);
      AggregatesAlwaysAgree(self, supply, front);
      var w, events := Run(w0, front), DoubleEvents(w0, front);
      if AlwaysTracked(w0, l0, front) {
        if Execute(w, t).Success? {
          StepTracksIff(w, HL.Run(l0, events), t);
          DoubleRunAppends(l0, events, DoubleEvent(t.call));
        } else {
          assert DoubleEvents(w0, ts) == events;
        }
      }
    }
  }

  /** In particular every run whose accepted consumptions take whole holds ends in agreement. */
  lemma WholeRunsAreTracked(self: Account, supply: int, ts: seq<Transaction>)
    requires WholeRun(Initial(self, supply), ts)
    ensures var (w0, l0) := (Initial(self, supply), HL.Initial(self, supply));
            Tracks(Run(w0, ts), HL.Run(l0, DoubleEvents(w0, ts)))
  {
    RunsAreTrackedIff(self, supply, ts);
  }

  // ---------- the moment of expiry ----------

  /** For a hold that is open in both and a call for an amount it has: the SDK's expiry check in front of an
      execution or release refuses exactly when the contract does, at every time but the very second of expiry, when
      only the contract refuses; in front of a reclaim the two always agree. */
  lemma ExpiryChecksAgreeIff(w: World, l: HL.Ledger, c: Call, now: int)
    requires Tracks(w, l) && Consumption(w, c).Some?
    requires var (holder, id, amount) := Consumption(w, c).value;
             && AccountAgrees(w, holder) && id in HoldsOf(w, holder) && 0 < amount <= HoldAt(w, holder, id).amount
    ensures var (holder, id, _) := Consumption(w, c).value;
            var sdk := HG.CheckHoldExpiration(l, holder, id - 1, now, c.ReclaimHold?);
            var contract := Objection(w, c, now);
            (sdk.Failure? <==> contract == Some(HoldExpired) || contract == Some(HoldNotExpired))
            <==> c.ReclaimHold? || now != HoldAt(w, holder, id).expiration
  {
    var (holder, id, _) := Consumption(w, c).value;
    assert SameHold(w, l, holder, id - 1);
  }
}
