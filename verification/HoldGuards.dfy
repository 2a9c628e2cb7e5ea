/** The SDK's guards in front of the ledger: the validation service's checks, composed as the command
    handlers compose them, and what holds can then come to. */
module HoldGuards {
  import opened Collections
  import opened HoldLedger
  import opened Payouts

  datatype GuardError =
    | InsufficientHoldBalance
    | InvalidHoldId
    | NotEscrow
    | InvalidHoldDestination
    | ExpiredHold
    | HoldNotExpired
    | BurnableAmountExceeded
    | BalanceTooLow

  type Check = Result<(), GuardError>

  function Need(condition: bool, error: GuardError): Check {
    if condition then Success(()) else Failure(error)
  }

  function AndThen<T>(check: Check, rest: Result<T, GuardError>): Result<T, GuardError> {
    if check.Success? then rest else Failure(check.error)
  }

  // ---------- the validation service ----------

  /** The query for a hold answers a missing one with the empty hold. */
  function HoldFor(l: Ledger, source: Account, id: nat): Hold {
    if Open(l, source, id) then l.holds[source][id] else Hold(0, 0, ZERO, ZERO, "0x")
  }

  function CheckHoldBalance(l: Ledger, source: Account, id: nat, amount: int): Check {
    Need(HoldFor(l, source, id).amount >= amount, InsufficientHoldBalance)
  }

  function CheckValidHoldId(l: Ledger, source: Account, id: nat): Check {
    Need(id in IdsOf(l, source), InvalidHoldId)
  }

  function CheckEscrow(l: Ledger, source: Account, id: nat, caller: Account): Check {
    Need(caller == HoldFor(l, source, id).escrow, NotEscrow)
  }

  function CheckHoldTarget(l: Ledger, source: Account, id: nat, target: Option<Account>): Check {
    var destination := HoldFor(l, source, id).to;
    if destination == ZERO && target.None? then Failure(InvalidHoldDestination)
    else if target.Some? && destination != ZERO && destination != target.value then Failure(InvalidHoldDestination)
    else Success(())
  }

  function CheckHoldExpiration(l: Ledger, source: Account, id: nat, now: int, isReclaim: bool): Check {
    var expiration := HoldFor(l, source, id).expiration;
    if !isReclaim && expiration < now then Failure(ExpiredHold)
    else if isReclaim && expiration > now then Failure(HoldNotExpired)
    else Success(())
  }

  function CheckBurnableAmount(l: Ledger, amount: int): Check {
    Need(BurnableAmount(l) >= amount, BurnableAmountExceeded)
  }

  // ---------- the command handlers ----------

  datatype Command =
    | Create(holder: Account, hold: Hold)
    | Execute(caller: Account, source: Account, id: nat, amount: int, target: Option<Account>)
    | Release(caller: Account, source: Account, id: nat, amount: int)
    | Reclaim(source: Account, id: nat)
    | BurnTokens(amount: int)
    | WipeTokens(account: Account, amount: int)
    | CashIn(account: Account, amount: int)
    | RescueTokens(sender: Account, amount: int)

  /** The guards of one command, in the handler's order, and the ledger operation it then sends. */
  function Dispatch(l: Ledger, c: Command, now: int): Result<Event, GuardError> {
    match c
    case Create(holder, hold) =>
      AndThen(Need(hold.amount <= At(l.balances, holder), BalanceTooLow), Success(CreateHold(holder, hold)))
    case Execute(caller, source, id, amount, target) =>
      AndThen(CheckHoldBalance(l, source, id, amount),
      AndThen(CheckEscrow(l, source, id, caller),
      AndThen(CheckHoldTarget(l, source, id, target),
      AndThen(CheckHoldExpiration(l, source, id, now, false),
        Success(ExecuteHold(source, id, if target.Some? then target.value else ZERO, amount))))))
    case Release(caller, source, id, amount) =>
      AndThen(CheckHoldBalance(l, source, id, amount),
      AndThen(CheckEscrow(l, source, id, caller),
      AndThen(CheckHoldExpiration(l, source, id, now, false),
        Success(ReleaseHold(source, id, amount)))))
    case Reclaim(source, id) =>
      AndThen(CheckValidHoldId(l, source, id),
      AndThen(CheckHoldExpiration(l, source, id, now, true),
        Success(ReclaimHold(source, id))))
    case BurnTokens(amount) => AndThen(CheckBurnableAmount(l, amount), Success(Burn(amount)))
    case WipeTokens(account, amount) =>
      AndThen(Need(amount <= At(l.balances, account), BalanceTooLow), Success(Wipe(account, amount)))
    case CashIn(account, amount) => Success(Mint(account, amount))
    case RescueTokens(sender, amount) =>
      AndThen(Need(amount <= At(l.balances, l.treasury), BalanceTooLow), Success(Rescue(sender, amount)))
  }

  // ---------- guarded histories ----------

  /** `created` remembers every hold as it was created, `payouts` every payment made out of one. */
  datatype Desk = Desk(ledger: Ledger, clock: int, created: map<HoldKey, Hold>, payouts: seq<Payout>)

  datatype Action = Action(command: Command, now: int)

  function NewlyCreated(l: Ledger, e: Event): map<HoldKey, Hold> {
    if e.CreateHold? then map[(e.holder, NextOf(l, e.holder)) := e.hold] else map[]
  }

  function NewPayout(l: Ledger, e: Event, now: int, caller: Option<Account>): seq<Payout> {
    match e
    case ExecuteHold(holder, id, target, amount) =>
      if Open(l, holder, id) then
        [Payout((holder, id), Destination(l.holds[holder][id], target), amount, now, caller)]
      else []
    case ReleaseHold(holder, id, amount) =>
      if Open(l, holder, id) then
        [Payout((holder, id), Destination(l.holds[holder][id], holder), amount, now, caller)]
      else []
    case ReclaimHold(holder, id) =>
      if Open(l, holder, id) then
        var hold := l.holds[holder][id]; [Payout((holder, id), Destination(hold, holder), hold.amount, now, caller)]
      else []
    case _ => []
  }

  function CallerOf(c: Command): Option<Account> {
    match c
    case Execute(caller, _, _, _, _) => Some(caller)
    case Release(caller, _, _, _) => Some(caller)
    case _ => None
  }

  /** A refused command, or one with a clock reading from the past, changes nothing. */
  function Act(d: Desk, a: Action): Desk {
    if a.now < d.clock then d
    else
      match Dispatch(d.ledger, a.command, a.now)
      case Failure(_) => d
      case Success(e) => Recorded(d, e, a.now, CallerOf(a.command))
  }

  function Recorded(d: Desk, e: Event, now: int, caller: Option<Account>): Desk {
    Desk(HoldLedger.Step(d.ledger, e), now, d.created + NewlyCreated(d.ledger, e),
        d.payouts + NewPayout(d.ledger, e, now, caller))
  }

  function Start(treasury: Account, supply: int): Desk {
    Desk(Initial(treasury, supply), 0, map[], [])
  }

  function History(treasury: Account, supply: int, actions: seq<Action>): Desk {
    if actions == [] then Start(treasury, supply)
    else Act(History(treasury, supply, actions[..|actions| - 1]), actions[|actions| - 1])
  }

  /** An execution or release of an open hold names its whole stored amount. */
  predicate Whole(l: Ledger, c: Command) {
    (c.Execute? || c.Release?) && Open(l, c.source, c.id) ==> c.amount == l.holds[c.source][c.id].amount
  }

  /** The guards let the command through. */
  predicate Passes(d: Desk, a: Action) {
    a.now >= d.clock && Dispatch(d.ledger, a.command, a.now).Success?
  }

  predicate AcceptedWhole(treasury: Account, supply: int, actions: seq<Action>) {
    actions == [] ||
    var front, a := actions[..|actions| - 1], actions[|actions| - 1];
    var d := History(treasury, supply, front);
    AcceptedWhole(treasury, supply, front) && (Passes(d, a) ==> Whole(d.ledger, a.command))
  }

  // ---------- what becomes of a hold ----------

  ghost predicate RecordsAgree(d: Desk) {
    && (forall a :: IndexAgrees(d.ledger, a))
    && (forall a: Account, id: nat :: (a, id) in d.created <==> id < NextOf(d.ledger, a))
    && (forall a: Account, id: nat :: Open(d.ledger, a, id) ==>
        (a, id) in d.created && d.ledger.holds[a][id] == d.created[(a, id)])
  }

  /** A payment out of a hold goes where the hold and the clock allow: on its escrow's word up to the expiry, and
      without anybody's from then on. */
  predicate PaysRightly(hold: Hold, p: Payout) {
    && GoesRight(hold, p, p.time > hold.expiration) && p.amount <= hold.amount
    && (p.caller.Some? ==> p.caller.value == hold.escrow && p.time <= hold.expiration)
    && (p.caller.None? ==> p.time >= hold.expiration)
  }

  ghost predicate PayoutsRight(d: Desk) {
    forall p :: p in d.payouts ==> p.hold in d.created && PaysRightly(d.created[p.hold], p)
  }

  predicate Opens(l: Ledger, e: Event, a: Account, id: nat) {
    e.CreateHold? && e.holder == a && id == NextOf(l, a)
  }

  /** The event takes exactly the stored amount of this open hold. */
  predicate Closes(l: Ledger, e: Event, a: Account, id: nat) {
    && (e.ExecuteHold? || e.ReleaseHold? || e.ReclaimHold?) && e.holder == a && e.id == id && Open(l, a, id)
    && (e.ReclaimHold? || e.amount == l.holds[a][id].amount)
  }

  lemma ConsumedHolds(l: Ledger, holder: Account, closed: nat, target: Account, amount: Option<int>, a: Account,
                      id: nat)
    ensures var after := Consumed(l, holder, closed, target, amount);
            var closes := a == holder && id == closed && Open(l, a, id)
                && (amount.None? || amount.value == l.holds[a][id].amount);
            && (Open(after, a, id) <==> Open(l, a, id) && !closes)
            && (Open(after, a, id) ==> after.holds[a][id] == l.holds[a][id])
  {
  }

  /** One event and one hold: it is open afterwards exactly when it was opened by the event or was open and
      not closed by it, and it is stored as before. */
  lemma HoldAfter(l: Ledger, e: Event, a: Account, id: nat)
    ensures var after := HoldLedger.Step(l, e);
            && (Open(after, a, id) <==> Opens(l, e, a, id) || (Open(l, a, id) && !Closes(l, e, a, id)))
            && (Open(after, a, id) ==> after.holds[a][id] == if Opens(l, e, a, id) then e.hold else l.holds[a][id])
  {
    match e
    case CreateHold(_, _) =>
    case ExecuteHold(holder, closed, target, amount) => ConsumedHolds(l, holder, closed, target, Some(amount), a, id);
    case ReleaseHold(holder, closed, amount) => ConsumedHolds(l, holder, closed, holder, Some(amount), a, id);
    case ReclaimHold(holder, closed) => ConsumedHolds(l, holder, closed, holder, None, a, id);
    case _ =>
  }

  lemma RecordingKeepsAgreement(d: Desk, e: Event, now: int, caller: Option<Account>)
    requires RecordsAgree(d)
    ensures RecordsAgree(Recorded(d, e, now, caller))
    ensures d.created.Keys <= Recorded(d, e, now, caller).created.Keys
    ensures forall k :: k in d.created ==> Recorded(d, e, now, caller).created[k] == d.created[k]
  {
    var after := Recorded(d, e, now, caller);
    var made := NewlyCreated(d.ledger, e);
    forall a
      ensures IndexAgrees(after.ledger, a)
      ensures NextOf(after.ledger, a) == NextOf(d.ledger, a) + if e.CreateHold? && e.holder == a then 1 else 0
    {
      assert IndexAgrees(d.ledger, a);
      StepKeepsIndex(d.ledger, e, a);
      NextAfter(d.ledger, e, a);
    }
    forall a: Account, id: nat
      ensures (a, id) in after.created <==> id < NextOf(after.ledger, a)
      ensures Open(after.ledger, a, id) ==>
                (a, id) in after.created && after.ledger.holds[a][id] == after.created[(a, id)]
    {
      assert IndexAgrees(d.ledger, a);
      HoldAfter(d.ledger, e, a, id);
      assert (a, id) in made <==> Opens(d.ledger, e, a, id);
    }
    forall k | k in d.created ensures k !in made {
      assert k == (k.0, k.1);
    }
  }

  lemma RecordsStayInAgreement(d: Desk, a: Action)
    requires RecordsAgree(d)
    ensures RecordsAgree(Act(d, a))
    ensures d.created.Keys <= Act(d, a).created.Keys
    ensures forall k :: k in d.created ==> Act(d, a).created[k] == d.created[k]
  {
    if a.now >= d.clock && Dispatch(d.ledger, a.command, a.now).Success? {
      RecordingKeepsAgreement(d, Dispatch(d.ledger, a.command, a.now).value, a.now, CallerOf(a.command));
    }
  }

  /** What a command that passes its guards pays, it pays rightly. */
  lemma PaysWhatItMay(l: Ledger, c: Command, now: int, p: Payout)
    requires Dispatch(l, c, now).Success? && p in NewPayout(l, Dispatch(l, c, now).value, now, CallerOf(c))
    ensures Open(l, p.hold.0, p.hold.1) && PaysRightly(l.holds[p.hold.0][p.hold.1], p) && p.time == now
  {
    match c
    case Execute(_, source, id, _, target) =>
      assert p.hold == (source, id) && Open(l, source, id) && HoldFor(l, source, id) == l.holds[source][id];
      assert CheckHoldTarget(l, source, id, target).Success?;
    case Release(_, source, id, _) => assert p.hold == (source, id);
    case Reclaim(source, id) => assert p.hold == (source, id);
    case _ =>
  }

  lemma PayoutsStayRight(d: Desk, a: Action)
    requires RecordsAgree(d) && PayoutsRight(d)
    ensures PayoutsRight(Act(d, a))
  {
    RecordsStayInAgreement(d, a);
    var after := Act(d, a);
    forall p | p in after.payouts ensures p.hold in after.created && PaysRightly(after.created[p.hold], p) {
      if p !in d.payouts {
        PaysWhatItMay(d.ledger, a.command, a.now, p);
        assert p.hold == (p.hold.0, p.hold.1);
      }
    }
  }

  /** In every guarded history, partial amounts included: a hold with a fixed destination pays only that
      destination or its holder, strictly after expiry it pays only its holder, and no single payment
      exceeds the hold's amount. */
  lemma {:induction false} PayoutsAlwaysRight(treasury: Account, supply: int, actions: seq<Action>)
    ensures var d := History(treasury, supply, actions); RecordsAgree(d) && PayoutsRight(d)
  {
    if actions != [] {
      var front := actions[..|actions| - 1];
      PayoutsAlwaysRight(treasury, supply, front);
      RecordsStayInAgreement(History(treasury, supply, front), actions[|actions| - 1]);
      PayoutsStayRight(History(treasury, supply, front), actions[|actions| - 1]);
    }
  }

  ghost predicate PaidOnce(d: Desk) {
    && (forall i, j :: 0 <= i < j < |d.payouts| ==> d.payouts[i].hold != d.payouts[j].hold)
    && (forall p :: p in d.payouts ==>
         !Open(d.ledger, p.hold.0, p.hold.1) && p.hold in d.created && p.amount == d.created[p.hold].amount)
    && (forall k :: k in d.created && !Open(d.ledger, k.0, k.1) ==> exists p :: p in d.payouts && p.hold == k)
  }

  /** Some hold has had a payment of another amount than its own. */
  ghost predicate PaidOddly(d: Desk) {
    exists p :: p in d.payouts && p.hold in d.created && p.amount != d.created[p.hold].amount
  }

  lemma StepPaysOddly(d: Desk, a: Action)
    requires RecordsAgree(d)
    ensures PaidOddly(d) || (Passes(d, a) && !Whole(d.ledger, a.command)) ==> PaidOddly(Act(d, a))
  {
    RecordsStayInAgreement(d, a);
    var after := Act(d, a);
    if PaidOddly(d) {
      var p :| p in d.payouts && p.hold in d.created && p.amount != d.created[p.hold].amount;
      assert p in after.payouts;
    } else if Passes(d, a) && !Whole(d.ledger, a.command) {
      var c := a.command;
      var k := (c.source, c.id);
      assert k in d.created && d.ledger.holds[c.source][c.id] == d.created[k];
      var p := NewPayout(d.ledger, Dispatch(d.ledger, c, a.now).value, a.now, CallerOf(c))[0];
      assert p.hold == k && p.amount == c.amount && after.payouts[|d.payouts|] == p;
      assert p in after.payouts;
    }
  }

  /** In every guarded history: each hold is either still open and unpaid, or has been paid exactly once and in
      full, if and only if every execution and release that the guards let through names its hold's whole amount. */
  lemma {:induction false} EachHoldPaidOnceIff(treasury: Account, supply: int, actions: seq<Action>)
    ensures PaidOnce(History(treasury, supply, actions)) <==> AcceptedWhole(treasury, supply, actions)
    ensures !AcceptedWhole(treasury, supply, actions) ==> PaidOddly(History(treasury, supply, actions))
  {
    if actions != [] {
      var front, a := actions[..|actions| - 1], actions[|actions| - 1];
      var d := History(treasury, supply, front);
      EachHoldPaidOnceIff(treasury, supply, front);
      PayoutsAlwaysRight(treasury, supply, front);
      StepPaysOddly(d, a);
      if AcceptedWhole(treasury, supply, actions) {
        StepPaysOnce(d, a);
      }
    }
  }

  lemma StepPaysOnce(d: Desk, a: Action)
    requires RecordsAgree(d) && PaidOnce(d) && (Passes(d, a) ==> Whole(d.ledger, a.command))
    ensures PaidOnce(Act(d, a))
  {
    if Passes(d, a) {
      RecordingPaysOnce(d, Dispatch(d.ledger, a.command, a.now).value, a.now, CallerOf(a.command));
    }
  }

  /** A hold is closed afterwards exactly when it was closed before or the event has just paid it. */
  lemma ClosedAfter(d: Desk, e: Event, now: int, caller: Option<Account>, k: HoldKey)
    requires RecordsAgree(d) && k in Recorded(d, e, now, caller).created
    requires (e.ExecuteHold? || e.ReleaseHold?) && Open(d.ledger, e.holder, e.id) ==>
        Closes(d.ledger, e, e.holder, e.id)
    ensures var paid := NewPayout(d.ledger, e, now, caller);
            !Open(Recorded(d, e, now, caller).ledger, k.0, k.1) <==>
                (paid != [] && paid[0].hold == k) || (k in d.created && !Open(d.ledger, k.0, k.1))
  {
    assert k == (k.0, k.1);
    HoldAfter(d.ledger, e, k.0, k.1);
  }

  lemma NewPayoutIsWhole(d: Desk, e: Event, now: int, caller: Option<Account>)
    requires RecordsAgree(d)
    requires (e.ExecuteHold? || e.ReleaseHold?) && Open(d.ledger, e.holder, e.id) ==>
        Closes(d.ledger, e, e.holder, e.id)
    ensures var paid := NewPayout(d.ledger, e, now, caller);
            && |paid| <= 1
            && (paid != [] ==>
                 var k := paid[0].hold;
                 Open(d.ledger, k.0, k.1) && k in d.created && paid[0].amount == d.created[k].amount)
  {
    assert e.ExecuteHold? || e.ReleaseHold? || e.ReclaimHold? ==>
             (Open(d.ledger, e.holder, e.id) ==> (e.holder, e.id) in d.created);
  }

  lemma PaymentsDiffer(d: Desk, e: Event, now: int, caller: Option<Account>)
    requires RecordsAgree(d) && PaidOnce(d)
    requires (e.ExecuteHold? || e.ReleaseHold?) && Open(d.ledger, e.holder, e.id) ==>
        Closes(d.ledger, e, e.holder, e.id)
    ensures var payouts := Recorded(d, e, now, caller).payouts;
            forall i, j :: 0 <= i < j < |payouts| ==> payouts[i].hold != payouts[j].hold
  {
    NewPayoutIsWhole(d, e, now, caller);
    assert forall i :: 0 <= i < |d.payouts| ==> d.payouts[i] in d.payouts;
  }

  lemma RecordingPaysOnce(d: Desk, e: Event, now: int, caller: Option<Account>)
    requires RecordsAgree(d) && PaidOnce(d)
    requires (e.ExecuteHold? || e.ReleaseHold?) && Open(d.ledger, e.holder, e.id) ==>
        Closes(d.ledger, e, e.holder, e.id)
    ensures PaidOnce(Recorded(d, e, now, caller))
  {
    var after, paid := Recorded(d, e, now, caller), NewPayout(d.ledger, e, now, caller);
    RecordingKeepsAgreement(d, e, now, caller);
    NewPayoutIsWhole(d, e, now, caller);
    PaymentsDiffer(d, e, now, caller);
    forall p | p in after.payouts
      ensures !Open(after.ledger, p.hold.0, p.hold.1) && p.hold in after.created
          && p.amount == after.created[p.hold].amount
    {
      ClosedAfter(d, e, now, caller, p.hold);
    }
    forall k | k in after.created && !Open(after.ledger, k.0, k.1)
        ensures exists p :: p in after.payouts && p.hold == k {
      ClosedAfter(d, e, now, caller, k);
      if paid != [] && paid[0].hold == k {
        assert after.payouts[|d.payouts|] == paid[0];
      } else {
        var p :| p in d.payouts && p.hold == k;
        assert p in after.payouts;
      }
    }
  }

  /** A hold that is open when the clock is past its expiry can from then on only go back. */
  lemma ExpiredHoldsGoBack(treasury: Account, supply: int, actions: seq<Action>, a: Action, holder: Account, id: nat)
    requires var d := History(treasury, supply, actions);
             Open(d.ledger, holder, id) && d.ledger.holds[holder][id].expiration < d.clock
    ensures var d := History(treasury, supply, actions);
            forall p :: p in Act(d, a).payouts && p !in d.payouts && p.hold == (holder, id) ==>
                p.to == Back(d.ledger.holds[holder][id], holder)
  {
    var d := History(treasury, supply, actions);
    forall p | p in Act(d, a).payouts && p !in d.payouts && p.hold == (holder, id)
        ensures p.to == Back(d.ledger.holds[holder][id], holder) {
      PaysWhatItMay(d.ledger, a.command, a.now, p);
    }
  }

  /** A partial execution leaves the stored amount as it was, so a hold of 10 can be executed for 6 twice:
      without the whole-amount condition a hold pays out more than it held. */
  lemma PartialExecutionsOverpay(treasury: Account, supply: int, holder: Account, escrow: Account, to: Account)
    requires holder == treasury && to != ZERO && supply >= 10
    ensures var hold := Hold(10, 100, escrow, to, "0x");
            var six := Action(Execute(escrow, holder, 0, 6, None), 1);
            var d := History(treasury, supply, [Action(Create(holder, hold), 1), six, six]);
            && d.payouts == [Payout((holder, 0), to, 6, 1, Some(escrow)), Payout((holder, 0), to, 6, 1, Some(escrow))]
            && Open(d.ledger, holder, 0) && At(d.ledger.heldBy, holder) == -2
  {
    var hold := Hold(10, 100, escrow, to, "0x");
    var open, six := Action(Create(holder, hold), 1), Action(Execute(escrow, holder, 0, 6, None), 1);
    HistoryAppends(treasury, supply, [], open, [open]);
    HistoryAppends(treasury, supply, [open], six, [open, six]);
    HistoryAppends(treasury, supply, [open, six], six, [open, six, six]);
    var d0 := Start(treasury, supply);
    var d1, d2 := History(treasury, supply, [open]), History(treasury, supply, [open, six]);
    assert d1 == Recorded(d0, CreateHold(holder, hold), 1, None);
    assert Open(d1.ledger, holder, 0) && d1.ledger.holds[holder][0] == hold;
    assert d2 == Recorded(d1, ExecuteHold(holder, 0, ZERO, 6), 1, Some(escrow));
    assert Open(d2.ledger, holder, 0) && d2.ledger.holds[holder][0] == hold;
    assert d1.payouts == [];
  }

  lemma HistoryAppends(treasury: Account, supply: int, actions: seq<Action>, a: Action, all: seq<Action>)
    requires all == actions + [a]
    ensures History(treasury, supply, all) == Act(History(treasury, supply, actions), a)
  {
    assert all[..|all| - 1] == actions;
  }

  /** A wipe of a negative amount from an account without a balance entry. */
  predicate WipesNobody(l: Ledger, c: Command) {
    c.WipeTokens? && c.amount < 0 && c.account !in l.balances
  }

  /** A command that passes its guards conserves the supply exactly when it is not such a wipe: the handlers'
      balance checks are otherwise all that conservation needs. */
  lemma GuardedStepsConserveIff(l: Ledger, c: Command, now: int)
    requires Conserved(l) && l.treasury in l.balances
    requires Dispatch(l, c, now).Success?
    ensures Conserved(HoldLedger.Step(l, Dispatch(l, c, now).value)) <==> !WipesNobody(l, c)
  {
    StepConservesIff(l, Dispatch(l, c, now).value);
  }

  predicate AcceptedWipesReal(treasury: Account, supply: int, actions: seq<Action>) {
    actions == [] ||
    var front, a := actions[..|actions| - 1], actions[|actions| - 1];
    var d := History(treasury, supply, front);
    AcceptedWipesReal(treasury, supply, front) && (Passes(d, a) ==> !WipesNobody(d.ledger, a.command))
  }

  /** In every guarded history without such wipes the supply is conserved, so a burn passes its guard exactly when
      it leaves no less supply than is on hold, which is when it leaves no debt in the free balances. */
  lemma {:induction false} GuardedHistoriesConserve(treasury: Account, supply: int, actions: seq<Action>)
    requires AcceptedWipesReal(treasury, supply, actions)
    ensures var l := History(treasury, supply, actions).ledger;
            && Conserved(l) && BurnableAmount(l) == Total(l.balances)
            && l.treasury == treasury && treasury in l.balances
            && forall amount :: BurnGuardMeans(l, amount)
  {
    if actions == [] {
      SupplyLaw(treasury, supply, []);
    } else {
      var front, a := actions[..|actions| - 1], actions[|actions| - 1];
      GuardedHistoriesConserve(treasury, supply, front);
      var d := History(treasury, supply, front);
      if Passes(d, a) {
        GuardedStepsConserveIff(d.ledger, a.command, a.now);
        EntriesStay(d.ledger, Dispatch(d.ledger, a.command, a.now).value);
      }
    }
    var l := History(treasury, supply, actions).ledger;
    forall amount ensures BurnGuardMeans(l, amount) {
      StepDrift(l, Burn(amount));
    }
  }

  /** And without them only: the supply is conserved all along a guarded history if and only if none is let through. */
  lemma {:induction false} GuardedHistoriesConserveIff(treasury: Account, supply: int, actions: seq<Action>)
    ensures (forall n :: 0 <= n <= |actions| ==> Conserved(History(treasury, supply, actions[..n]).ledger))
            <==> AcceptedWipesReal(treasury, supply, actions)
  {
    if actions == [] {
      GuardedHistoriesConserve(treasury, supply, []);
    } else {
      var m := |actions| - 1;
      var front, a := actions[..m], actions[m];
      assert forall n :: 0 <= n <= m ==> front[..n] == actions[..n];
      assert actions[..m + 1] == actions;
      GuardedHistoriesConserveIff(treasury, supply, front);
      if AcceptedWipesReal(treasury, supply, front) {
        GuardedHistoriesConserve(treasury, supply, front);
        var d := History(treasury, supply, front);
        if Passes(d, a) {
          GuardedStepsConserveIff(d.ledger, a.command, a.now);
        }
      }
    }
  }

  ghost predicate BurnGuardMeans(l: Ledger, amount: int) {
    var after := HoldLedger.Step(l, Burn(amount));
    && (CheckBurnableAmount(l, amount).Success? <==> after.totalSupply >= after.totalHeld)
    && (CheckBurnableAmount(l, amount).Success? <==> Total(after.balances) >= 0)
  }
}
