/** The in-memory ledger that stands in for the token contracts in the SDK's own test suite: free
    balances, total supply and holds, with the aggregates and indexes it keeps beside them.
    It is a test double, not the contracts. */
module HoldLedger {
  import opened Collections

  /** Accounts are canonical identifiers; 0 is the zero address. */
  type Account = nat
  const ZERO: Account := 0

  datatype Hold = Hold(amount: int, expiration: int, escrow: Account, to: Account, data: string)

  datatype Ledger = Ledger(
    treasury: Account,
    balances: map<Account, int>,
    totalSupply: int,
    totalHeld: int,
    heldBy: map<Account, int>,
    holds: map<Account, map<nat, Hold>>,
    holdIds: map<Account, seq<nat>>,
    nextId: map<Account, nat>)

  /** After initialisation the treasury holds the whole initial supply. */
  function Initial(treasury: Account, supply: int): Ledger {
    Ledger(treasury, map[treasury := supply], supply, 0, map[], map[], map[], map[])
  }

  datatype Event =
    | Mint(account: Account, amount: int)
    | Burn(amount: int)
    | Wipe(account: Account, amount: int)
    | Rescue(sender: Account, amount: int)
    | CreateHold(holder: Account, hold: Hold)
    | ExecuteHold(holder: Account, id: nat, target: Account, amount: int)
    | ReleaseHold(holder: Account, id: nat, amount: int)
    | ReclaimHold(holder: Account, id: nat)

  // ---------- reading ----------

  function HoldsOf(l: Ledger, a: Account): map<nat, Hold> {
    if a in l.holds then l.holds[a] else map[]
  }

  function IdsOf(l: Ledger, a: Account): seq<nat> {
    if a in l.holdIds then l.holdIds[a] else []
  }

  function NextOf(l: Ledger, a: Account): nat {
    if a in l.nextId then l.nextId[a] else 0
  }

  predicate Open(l: Ledger, a: Account, id: nat) {
    id in HoldsOf(l, a)
  }

  function BurnableAmount(l: Ledger): int {
    l.totalSupply - l.totalHeld
  }

  // ---------- the operations ----------

  /** Taking tokens away: an account without a balance entry is left alone, the supply never is. */
  function Take(l: Ledger, account: Account, amount: int): Ledger {
    l.(balances := if account in l.balances then l.balances[account := l.balances[account] - amount] else l.balances,
       totalSupply := l.totalSupply - amount)
  }

  function Credit(balances: map<Account, int>, account: Account, amount: int): map<Account, int> {
    balances[account := At(balances, account) + amount]
  }

  function Moved(l: Ledger, sender: Account, amount: int): Ledger {
    var taken := if l.treasury in l.balances then l.balances[l.treasury := l.balances[l.treasury] - amount]
        else l.balances;
    l.(balances := Credit(taken, sender, amount))
  }

  function Held(l: Ledger, holder: Account, hold: Hold): Ledger {
    var id := NextOf(l, holder);
    l.(balances := Credit(l.balances, holder, -hold.amount),
       totalHeld := l.totalHeld + hold.amount,
       heldBy := l.heldBy[holder := At(l.heldBy, holder) + hold.amount],
       holds := l.holds[holder := HoldsOf(l, holder)[id := hold]],
       holdIds := l.holdIds[holder := IdsOf(l, holder) + [id]],
       nextId := l.nextId[holder := id + 1])
  }

  /** Where a consumption pays: the zero address means the hold's own destination. */
  function Destination(hold: Hold, target: Account): Account {
    if target == ZERO then hold.to else target
  }

  /** Consuming a hold, in whole when no amount is given. Only a consumption of exactly the stored amount
      closes the hold; any other leaves the stored amount as it is. */
  function Consumed(l: Ledger, holder: Account, id: nat, target: Account, amount: Option<int>): Ledger {
    if !Open(l, holder, id) then l
    else
      var hold := l.holds[holder][id];
      var paid := if amount.Some? then amount.value else hold.amount;
      var rest := l.(
        balances := Credit(l.balances, Destination(hold, target), paid),
        totalHeld := l.totalHeld - paid,
        heldBy := l.heldBy[holder := At(l.heldBy, holder) - paid]);
      if paid == hold.amount
      then rest.(holds := l.holds[holder := l.holds[holder] - {id}],
                 holdIds := if holder in l.holdIds then l.holdIds[holder := Without(l.holdIds[holder], id)]
                            else l.holdIds)
      else rest
  }

  function Step(l: Ledger, e: Event): Ledger {
    match e
    case Mint(account, amount) =>
      l.(balances := Credit(l.balances, account, amount), totalSupply := l.totalSupply + amount)
    case Burn(amount) => Take(l, l.treasury, amount)
    case Wipe(account, amount) => Take(l, account, amount)
    case Rescue(sender, amount) => Moved(l, sender, amount)
    case CreateHold(holder, hold) => Held(l, holder, hold)
    case ExecuteHold(holder, id, target, amount) => Consumed(l, holder, id, target, Some(amount))
    case ReleaseHold(holder, id, amount) => Consumed(l, holder, id, holder, Some(amount))
    case ReclaimHold(holder, id) => Consumed(l, holder, id, holder, None)
  }

  function Run(l: Ledger, events: seq<Event>): Ledger {
    if events == [] then l else Step(Run(l, events[..|events| - 1]), events[|events| - 1])
  }

  // ---------- supply conservation ----------

  ghost predicate Conserved(l: Ledger) {
    Total(l.balances) + l.totalHeld == l.totalSupply
  }

  /** The tokens an operation takes from an account really come out of a balance. */
  predicate Backed(l: Ledger, e: Event) {
    match e
    case Burn(amount) => l.treasury in l.balances || amount == 0
    case Wipe(account, amount) => account in l.balances || amount == 0
    case Rescue(_, amount) => l.treasury in l.balances || amount == 0
    case _ => true
  }

  /** What an operation takes, or pays on, without a balance entry to take it from. */
  function Unbacked(l: Ledger, e: Event): int {
    if Backed(l, e) then 0
    else
      match e
      case Burn(amount) => amount
      case Wipe(_, amount) => amount
      case Rescue(_, amount) => amount
      case _ => 0
  }

  /** How far free balances plus held tokens are from the supply. */
  ghost function Drift(l: Ledger): int {
    Total(l.balances) + l.totalHeld - l.totalSupply
  }

  /** One operation, any amount, any state: the drift grows by exactly what is unbacked. */
  lemma StepDrift(l: Ledger, e: Event)
    ensures Drift(Step(l, e)) == Drift(l) + Unbacked(l, e)
  {
    match e
    case Mint(account, amount) => TotalUpdate(l.balances, account, At(l.balances, account) + amount);
    case Burn(amount) => TotalUpdate(l.balances, l.treasury, At(l.balances, l.treasury) - amount);
    case Wipe(account, amount) => TotalUpdate(l.balances, account, At(l.balances, account) - amount);
    case Rescue(sender, amount) => RescueTotals(l, sender, amount);
    case CreateHold(holder, hold) => TotalUpdate(l.balances, holder, At(l.balances, holder) - hold.amount);
    case ExecuteHold(holder, id, target, amount) => ConsumptionTotals(l, holder, id, target, Some(amount));
    case ReleaseHold(holder, id, amount) => ConsumptionTotals(l, holder, id, holder, Some(amount));
    case ReclaimHold(holder, id) => ConsumptionTotals(l, holder, id, holder, None);
  }

  /** So free balances plus held tokens stay equal to the supply exactly when what is taken is backed by a
      balance entry. */
  lemma StepConservesIff(l: Ledger, e: Event)
    requires Conserved(l)
    ensures Conserved(Step(l, e)) <==> Backed(l, e)
  {
    StepDrift(l, e);
  }

  lemma RescueTotals(l: Ledger, sender: Account, amount: int)
    ensures Total(Moved(l, sender, amount).balances) ==
            Total(l.balances) + if l.treasury in l.balances then 0 else amount
  {
    var taken := if l.treasury in l.balances then l.balances[l.treasury := l.balances[l.treasury] - amount]
        else l.balances;
    TotalUpdate(l.balances, l.treasury, At(l.balances, l.treasury) - amount);
    TotalUpdate(taken, sender, At(taken, sender) + amount);
  }

  lemma ConsumptionTotals(l: Ledger, holder: Account, id: nat, target: Account, amount: Option<int>)
    ensures var after := Consumed(l, holder, id, target, amount);
            && Total(after.balances) + after.totalHeld == Total(l.balances) + l.totalHeld
            && Total(after.heldBy) - after.totalHeld == Total(l.heldBy) - l.totalHeld
            && after.totalSupply == l.totalSupply
  {
    if Open(l, holder, id) {
      var hold := l.holds[holder][id];
      var paid := if amount.Some? then amount.value else hold.amount;
      var to := Destination(hold, target);
      TotalUpdate(l.balances, to, At(l.balances, to) + paid);
      TotalUpdate(l.heldBy, holder, At(l.heldBy, holder) - paid);
    }
  }

  /** Every wipe of the run hits an account that has a balance entry. (Burns and rescues need no such
      condition: the treasury has its entry from the start and entries are never removed.) */
  ghost predicate WipesBacked(l: Ledger, events: seq<Event>) {
    forall n :: 0 <= n < |events| && events[n].Wipe? ==> Backed(Run(l, events[..n]), events[n])
  }

  /** What the run's wipes have taken from accounts without a balance entry. */
  function UnbackedWipes(l: Ledger, events: seq<Event>): int {
    if events == [] then 0
    else
      var front, e := events[..|events| - 1], events[|events| - 1];
      UnbackedWipes(l, front) + if e.Wipe? then Unbacked(Run(l, front), e) else 0
  }

  lemma {:induction false} TreasuryKeepsItsEntry(treasury: Account, supply: int, events: seq<Event>)
    ensures var l := Run(Initial(treasury, supply), events); l.treasury == treasury && treasury in l.balances
  {
    if events != [] {
      TreasuryKeepsItsEntry(treasury, supply, events[..|events| - 1]);
      EntriesStay(Run(Initial(treasury, supply), events[..|events| - 1]), events[|events| - 1]);
    }
  }

  lemma EntriesStay(l: Ledger, e: Event)
    ensures l.balances.Keys <= Step(l, e).balances.Keys && Step(l, e).treasury == l.treasury
  {
  }

  /** The exact law of every run: free balances plus held tokens exceed the supply by precisely what wipes have
      taken from accounts without a balance entry. */
  lemma {:induction false} SupplyLaw(treasury: Account, supply: int, events: seq<Event>)
    ensures var l0 := Initial(treasury, supply); Drift(Run(l0, events)) == UnbackedWipes(l0, events)
  {
    if events == [] {
      assert map[treasury := supply] == map[][treasury := supply];
      TotalUpdate(map[], treasury, supply);
    } else {
      var front, e := events[..|events| - 1], events[|events| - 1];
      SupplyLaw(treasury, supply, front);
      TreasuryKeepsItsEntry(treasury, supply, front);
      StepDrift(Run(Initial(treasury, supply), front), e);
    }
  }

  lemma {:induction false} BackedWipesAddUpToNothing(l: Ledger, events: seq<Event>)
    requires WipesBacked(l, events)
    ensures UnbackedWipes(l, events) == 0
  {
    if events != [] {
      var m := |events| - 1;
      var front := events[..m];
      assert forall n :: 0 <= n < m ==> front[..n] == events[..n] && front[n] == events[n];
      BackedWipesAddUpToNothing(l, front);
      assert events[m].Wipe? ==> Backed(Run(l, events[..m]), events[m]);
    }
  }

  lemma RunOneMore(l: Ledger, events: seq<Event>, n: nat)
    requires n < |events|
    ensures Run(l, events[..n + 1]) == Step(Run(l, events[..n]), events[n])
  {
    assert events[..n + 1][..n] == events[..n];
  }

  /** The supply is conserved all along a run if and only if its wipes hit accounts with a balance entry. */
  lemma SupplyIsConservedIff(treasury: Account, supply: int, events: seq<Event>)
    ensures (forall n :: 0 <= n <= |events| ==> Conserved(Run(Initial(treasury, supply), events[..n])))
            <==> WipesBacked(Initial(treasury, supply), events)
  {
    var l := Initial(treasury, supply);
    if WipesBacked(l, events) {
      forall n | 0 <= n <= |events| ensures Conserved(Run(l, events[..n])) {
        assert forall m :: 0 <= m < n ==> events[..n][..m] == events[..m];
        SupplyLaw(treasury, supply, events[..n]);
        BackedWipesAddUpToNothing(l, events[..n]);
      }
    }
    if forall n :: 0 <= n <= |events| ==> Conserved(Run(l, events[..n])) {
      forall n | 0 <= n < |events| && events[n].Wipe? ensures Backed(Run(l, events[..n]), events[n]) {
        RunOneMore(l, events, n);
        StepConservesIff(Run(l, events[..n]), events[n]);
        assert Conserved(Run(l, events[..n])) && Conserved(Run(l, events[..n + 1]));
      }
    }
  }

  /** In every run the burnable amount is what is free, less those unbacked wipes; a burn stays within it
      exactly when the supply left still covers everything on hold, and takes the amount out of what is free. */
  lemma BurnableIsWhatIsFree(treasury: Account, supply: int, events: seq<Event>, amount: int)
    ensures var (l0, l) := (Initial(treasury, supply), Run(Initial(treasury, supply), events));
            && BurnableAmount(l) == Total(l.balances) - UnbackedWipes(l0, events)
            && (amount <= BurnableAmount(l) <==> Step(l, Burn(amount)).totalSupply >= Step(l, Burn(amount)).totalHeld)
            && Total(Step(l, Burn(amount)).balances) == Total(l.balances) - amount
  {
    SupplyLaw(treasury, supply, events);
    TreasuryKeepsItsEntry(treasury, supply, events);
    StepDrift(Run(Initial(treasury, supply), events), Burn(amount));
  }

  // ---------- the held aggregates ----------

  /** In every run, of any amounts, the global held amount is the sum of the per-account ones. */
  lemma {:induction false} HeldTotalsAgree(treasury: Account, supply: int, events: seq<Event>)
    ensures var l := Run(Initial(treasury, supply), events); l.totalHeld == Total(l.heldBy)
  {
    if events != [] {
      var l := Run(Initial(treasury, supply), events[..|events| - 1]);
      HeldTotalsAgree(treasury, supply, events[..|events| - 1]);
      match events[|events| - 1]
      case CreateHold(holder, hold) => TotalUpdate(l.heldBy, holder, At(l.heldBy, holder) + hold.amount);
      case ExecuteHold(holder, id, target, amount) => ConsumptionTotals(l, holder, id, target, Some(amount));
      case ReleaseHold(holder, id, amount) => ConsumptionTotals(l, holder, id, holder, Some(amount));
      case ReclaimHold(holder, id) => ConsumptionTotals(l, holder, id, holder, None);
      case _ =>
    }
  }

  function Amounts(holds: map<nat, Hold>): map<nat, int> {
    map id | id in holds :: holds[id].amount
  }

  /** The stored amounts of an account's open holds. */
  ghost function OpenAmount(l: Ledger, a: Account): int {
    Total(Amounts(HoldsOf(l, a)))
  }

  /** What an event takes out of a hold of this account without closing it. */
  function LeftStored(l: Ledger, e: Event, a: Account): int {
    match e
    case ExecuteHold(holder, id, _, amount) =>
      if holder == a && Open(l, a, id) && amount != l.holds[a][id].amount then amount else 0
    case ReleaseHold(holder, id, amount) =>
      if holder == a && Open(l, a, id) && amount != l.holds[a][id].amount then amount else 0
    case _ => 0
  }

  function LeftStoredInRun(l: Ledger, events: seq<Event>, a: Account): int {
    if events == [] then 0
    else
      var front := events[..|events| - 1];
      LeftStoredInRun(l, front, a) + LeftStored(Run(l, front), events[|events| - 1], a)
  }

  /** The exact law, for every run and any amounts: an account's held amount falls short of its open holds'
      stored amounts by precisely what partial consumptions have taken without reducing them. */
  lemma {:induction false} HeldFallsShortByPartials(treasury: Account, supply: int, events: seq<Event>, a: Account)
    ensures var l0 := Initial(treasury, supply);
            At(Run(l0, events).heldBy, a) + LeftStoredInRun(l0, events, a) == OpenAmount(Run(l0, events), a)
  {
    if events == [] {
      assert Amounts(map[]) == map[];
    } else {
      var front := events[..|events| - 1];
      HeldFallsShortByPartials(treasury, supply, front, a);
      IdsInOrder(treasury, supply, front);
      var l := Run(Initial(treasury, supply), front);
      assert IndexAgrees(l, a);
      StepShortfall(l, events[|events| - 1], a);
    }
  }

  lemma StepShortfall(l: Ledger, e: Event, a: Account)
    requires IndexAgrees(l, a)
    ensures OpenAmount(Step(l, e), a) - At(Step(l, e).heldBy, a) ==
        OpenAmount(l, a) - At(l.heldBy, a) + LeftStored(l, e, a)
  {
    match e
    case CreateHold(holder, hold) => CreationStored(l, holder, hold, a);
    case ExecuteHold(holder, id, target, amount) => ConsumptionStored(l, holder, id, target, Some(amount));
    case ReleaseHold(holder, id, amount) => ConsumptionStored(l, holder, id, holder, Some(amount));
    case ReclaimHold(holder, id) => ConsumptionStored(l, holder, id, holder, None);
    case _ =>
  }

  lemma CreationStored(l: Ledger, holder: Account, hold: Hold, a: Account)
    requires IndexAgrees(l, a)
    ensures OpenAmount(Held(l, holder, hold), a) == OpenAmount(l, a) + if holder == a then hold.amount else 0
  {
    if holder == a {
      var id := NextOf(l, a);
      assert Amounts(HoldsOf(l, a)[id := hold]) == Amounts(HoldsOf(l, a))[id := hold.amount];
      TotalUpdate(Amounts(HoldsOf(l, a)), id, hold.amount);
    }
  }

  lemma ConsumptionStored(l: Ledger, holder: Account, id: nat, target: Account, amount: Option<int>)
    ensures var after := Consumed(l, holder, id, target, amount);
            OpenAmount(after, holder) ==
              OpenAmount(l, holder) - (if Open(l, holder, id)
                  && (amount.None? || amount.value == l.holds[holder][id].amount)
                                       then l.holds[holder][id].amount else 0)
  {
    if Open(l, holder, id) && (amount.None? || amount.value == l.holds[holder][id].amount) {
      var stored := Amounts(l.holds[holder]);
      TotalRemove(stored, id);
      assert Amounts(l.holds[holder] - {id}) == stored - {id};
    }
  }

  /** Every consumption is between nothing and the hold's stored amount. */
  ghost predicate WithinStored(l: Ledger, events: seq<Event>) {
    forall n :: 0 <= n < |events| ==>
      var (before, e) := (Run(l, events[..n]), events[n]);
      (e.ExecuteHold? || e.ReleaseHold?) && Open(before, e.holder, e.id) ==>
          0 <= e.amount <= before.holds[e.holder][e.id].amount
  }

  /** Every consumption takes its whole hold. */
  ghost predicate WholeHolds(l: Ledger, events: seq<Event>) {
    forall n :: 0 <= n < |events| ==>
      var (before, e) := (Run(l, events[..n]), events[n]);
      (e.ExecuteHold? || e.ReleaseHold?) && Open(before, e.holder, e.id) ==>
          e.amount == before.holds[e.holder][e.id].amount
  }

  lemma {:induction false} PartialsNotNegative(l: Ledger, events: seq<Event>, a: Account)
    requires WithinStored(l, events)
    ensures LeftStoredInRun(l, events, a) >= 0
  {
    if events != [] {
      var front := events[..|events| - 1];
      assert forall n :: 0 <= n < |front| ==> front[..n] == events[..n] && front[n] == events[n];
      PartialsNotNegative(l, front, a);
      assert events[..|front|] == front;
    }
  }

  lemma {:induction false} NoPartialsLeft(l: Ledger, events: seq<Event>, a: Account)
    requires WholeHolds(l, events)
    ensures LeftStoredInRun(l, events, a) == 0
  {
    if events != [] {
      var front := events[..|events| - 1];
      assert forall n :: 0 <= n < |front| ==> front[..n] == events[..n] && front[n] == events[n];
      NoPartialsLeft(l, front, a);
      assert events[..|front|] == front;
    }
  }

  /** With consumptions within the stored amounts an account's held amount never exceeds its open holds, and
      with whole consumptions the two are equal. */
  lemma HeldMatchesOpenHolds(treasury: Account, supply: int, events: seq<Event>, a: Account)
    ensures var l0 := Initial(treasury, supply);
            && (WithinStored(l0, events) ==> At(Run(l0, events).heldBy, a) <= OpenAmount(Run(l0, events), a))
            && (WholeHolds(l0, events) ==> At(Run(l0, events).heldBy, a) == OpenAmount(Run(l0, events), a))
  {
    HeldFallsShortByPartials(treasury, supply, events, a);
    if WithinStored(Initial(treasury, supply), events) {
      PartialsNotNegative(Initial(treasury, supply), events, a);
    }
    if WholeHolds(Initial(treasury, supply), events) {
      NoPartialsLeft(Initial(treasury, supply), events, a);
    }
  }

  // ---------- the hold-id index ----------

  ghost predicate IndexAgrees(l: Ledger, a: Account) {
    && Increasing(IdsOf(l, a))
    && (forall id :: id in IdsOf(l, a) <==> id in HoldsOf(l, a))
    && (forall id :: id in HoldsOf(l, a) ==> id < NextOf(l, a))
  }

  /** In every run: each account's id list is strictly increasing, lists exactly its open holds, and stays
      below the next id. */
  lemma {:induction false} IdsInOrder(treasury: Account, supply: int, events: seq<Event>)
    ensures forall a :: IndexAgrees(Run(Initial(treasury, supply), events), a)
  {
    if events != [] {
      var front := events[..|events| - 1];
      IdsInOrder(treasury, supply, front);
      forall a ensures IndexAgrees(Run(Initial(treasury, supply), events), a) {
        StepKeepsIndex(Run(Initial(treasury, supply), front), events[|events| - 1], a);
      }
    }
  }

  lemma StepKeepsIndex(l: Ledger, e: Event, a: Account)
    requires IndexAgrees(l, a)
    ensures IndexAgrees(Step(l, e), a)
  {
    match e
    case CreateHold(holder, hold) => HeldKeepsIndex(l, holder, hold, a);
    case ExecuteHold(holder, id, target, amount) => ConsumedKeepsIndex(l, holder, id, target, Some(amount), a);
    case ReleaseHold(holder, id, amount) => ConsumedKeepsIndex(l, holder, id, holder, Some(amount), a);
    case ReclaimHold(holder, id) => ConsumedKeepsIndex(l, holder, id, holder, None, a);
    case _ =>
  }

  lemma HeldKeepsIndex(l: Ledger, holder: Account, hold: Hold, a: Account)
    requires IndexAgrees(l, a)
    ensures IndexAgrees(Held(l, holder, hold), a)
    ensures NextOf(Held(l, holder, hold), a) == NextOf(l, a) + if holder == a then 1 else 0
  {
    if a == holder {
      var ids := IdsOf(l, a);
      assert forall k :: 0 <= k < |ids| ==> ids[k] in ids && ids[k] < NextOf(l, a);
    }
  }

  lemma ConsumedKeepsIndex(l: Ledger, holder: Account, id: nat, target: Account, amount: Option<int>, a: Account)
    requires IndexAgrees(l, a)
    ensures IndexAgrees(Consumed(l, holder, id, target, amount), a)
    ensures NextOf(Consumed(l, holder, id, target, amount), a) == NextOf(l, a)
  {
    var after := Consumed(l, holder, id, target, amount);
    assert NextOf(after, a) == NextOf(l, a);
    if a == holder && Open(l, a, id) && (amount.None? || amount.value == l.holds[a][id].amount) {
      WithoutKeepsOrder(IdsOf(l, a), id);
      assert HoldsOf(after, a) == HoldsOf(l, a) - {id};
      assert id in IdsOf(l, a);
      assert IdsOf(after, a) == Without(IdsOf(l, a), id);
    } else {
      assert HoldsOf(after, a) == HoldsOf(l, a) && IdsOf(after, a) == IdsOf(l, a);
    }
  }

  /** The ids handed out to an account, in order. */
  function IssuedTo(l: Ledger, events: seq<Event>, a: Account): seq<nat> {
    if events == [] then []
    else
      var front, e := events[..|events| - 1], events[|events| - 1];
      IssuedTo(l, front, a) + (if e.CreateHold? && e.holder == a then [NextOf(Run(l, front), a)] else [])
  }

  lemma NextAfter(l: Ledger, e: Event, a: Account)
    ensures NextOf(Step(l, e), a) == NextOf(l, a) + if e.CreateHold? && e.holder == a then 1 else 0
  {
  }

  /** The n-th hold an account creates gets id n - 1: no id is ever handed out twice, in any run. */
  lemma {:induction false} IdsIssuedOnce(treasury: Account, supply: int, events: seq<Event>, a: Account)
    ensures var l0 := Initial(treasury, supply);
            && |IssuedTo(l0, events, a)| == NextOf(Run(l0, events), a)
            && (forall n :: 0 <= n < |IssuedTo(l0, events, a)| ==> IssuedTo(l0, events, a)[n] == n)
  {
    if events != [] {
      var front := events[..|events| - 1];
      IdsIssuedOnce(treasury, supply, front, a);
      NextAfter(Run(Initial(treasury, supply), front), events[|events| - 1], a);
    }
  }
}
