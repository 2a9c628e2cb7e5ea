/** What the SDK's commands do in front of the test double: which of them pass, what a refusal means, and where
    every token has gone. */
module DeskLaws {
  import opened Collections
  import opened HoldLedger
  import opened HoldGuards
  import opened Payouts

  // ---------- which commands pass ----------

  /** The terms of an open hold; a missing one counts as the empty hold. */
  function Terms(l: Ledger, source: Account, id: nat): (int, int, Account, Account) {
    if Open(l, source, id) then
      var hold := l.holds[source][id]; (hold.amount, hold.expiration, hold.escrow, hold.to)
    else (0, 0, 0, 0)
  }

  predicate Passable(l: Ledger, c: Command, now: int) {
    match c
    case Create(holder, hold) => hold.amount <= At(l.balances, holder)
    case Execute(caller, source, id, amount, target) =>
      var (stored, expiration, escrow, to) := Terms(l, source, id);
      && amount <= stored && caller == escrow && now <= expiration
      && (match target
          case None => to != 0
          case Some(account) => to == 0 || to == account)
    case Release(caller, source, id, amount) =>
      var (stored, expiration, escrow, _) := Terms(l, source, id);
      amount <= stored && caller == escrow && now <= expiration
    case Reclaim(source, id) => Open(l, source, id) && Terms(l, source, id).1 <= now
    case BurnTokens(amount) => amount <= l.totalSupply - l.totalHeld
    case WipeTokens(account, amount) => amount <= At(l.balances, account)
    case CashIn(_, _) => true
    case RescueTokens(_, amount) => amount <= At(l.balances, l.treasury)
  }

  /** A command passes its guards exactly when it is passable, and otherwise changes nothing. */
  lemma PassesIff(l: Ledger, c: Command, now: int)
    requires forall a :: IndexAgrees(l, a)
    ensures Dispatch(l, c, now).Success? <==> Passable(l, c, now)
  {
    if c.Reclaim? {
      assert IndexAgrees(l, c.source);
    }
  }

  /** The condition that an error says is not met. */
  predicate Broken(l: Ledger, c: Command, now: int, e: GuardError) {
    match e
    case InsufficientHoldBalance => (c.Execute? || c.Release?) && Terms(l, c.source, c.id).0 < c.amount
    case InvalidHoldId => c.Reclaim? && !Open(l, c.source, c.id)
    case NotEscrow => (c.Execute? || c.Release?) && c.caller != Terms(l, c.source, c.id).2
    case InvalidHoldDestination =>
      && c.Execute?
      && var to := Terms(l, c.source, c.id).3;
         if to == 0 then c.target == None else c.target != None && c.target != Some(to)
    case ExpiredHold => (c.Execute? || c.Release?) && Terms(l, c.source, c.id).1 < now
    case HoldNotExpired => c.Reclaim? && now < Terms(l, c.source, c.id).1
    case BurnableAmountExceeded => c.BurnTokens? && l.totalSupply - l.totalHeld < c.amount
    case BalanceTooLow =>
      match c
      case Create(holder, hold) => At(l.balances, holder) < hold.amount
      case WipeTokens(account, amount) => At(l.balances, account) < amount
      case RescueTokens(_, amount) => At(l.balances, l.treasury) < amount
      case _ => false
  }

  lemma RefusalsAreTrue(l: Ledger, c: Command, now: int)
    requires (forall a :: IndexAgrees(l, a)) && Dispatch(l, c, now).Failure?
    ensures Broken(l, c, now, Dispatch(l, c, now).error)
  {
    if c.Reclaim? {
      assert IndexAgrees(l, c.source);
    }
  }

  // ---------- payments are commands ----------

  /** The command that makes this payment. */
  predicate Pays(l: Ledger, a: Action, p: Payout) {
    && p.time == a.now
    && match a.command
       case Execute(caller, source, id, amount, target) =>
         && Open(l, source, id) && p.hold == (source, id) && p.amount == amount && p.caller == Some(caller)
         && p.to == (if target == None || target == Some(0) then l.holds[source][id].to else target.value)
       case Release(caller, source, id, amount) =>
         && Open(l, source, id) && p.hold == (source, id) && p.amount == amount && p.caller == Some(caller)
         && p.to == Back(l.holds[source][id], source)
       case Reclaim(source, id) =>
         && Open(l, source, id) && p.hold == (source, id) && p.amount == l.holds[source][id].amount && p.caller == None
         && p.to == Back(l.holds[source][id], source)
       case _ => false
  }

  lemma NewPaymentIsTheCommands(d: Desk, a: Action, p: Payout)
    requires p in Act(d, a).payouts && p !in d.payouts
    ensures Passes(d, a) && Pays(d.ledger, a, p)
  {
  }

  /** Every payment on record was made by a command of the history that passed its guards. */
  lemma {:induction false} PaymentIsACommand(treasury: Account, supply: int, actions: seq<Action>, p: Payout)
    returns (m: nat)
    requires p in History(treasury, supply, actions).payouts
    ensures m < |actions| && Passes(History(treasury, supply, actions[..m]), actions[m])
    ensures Pays(History(treasury, supply, actions[..m]).ledger, actions[m], p)
  {
    var last := |actions| - 1;
    var front, d := actions[..last], History(treasury, supply, actions[..last]);
    if p in d.payouts {
      m := PaymentIsACommand(treasury, supply, front, p);
      assert front[..m] == actions[..m];
    } else {
      m := last;
      NewPaymentIsTheCommands(d, actions[last], p);
    }
  }

  /** And every execution, release or reclaim of an open hold that passes is on record. */
  lemma CommandIsPaid(d: Desk, a: Action)
    requires Passes(d, a) && (a.command.Execute? || a.command.Release? || a.command.Reclaim?)
    requires Open(d.ledger, a.command.source, a.command.id)
    ensures var after := Act(d, a).payouts;
            |after| == |d.payouts| + 1 && after[..|d.payouts|] == d.payouts && Pays(d.ledger, a, after[|d.payouts|])
  {
  }

  // ---------- where the tokens are ----------

  /** What a command gives to an account, or takes from it, apart from payments out of holds. A wipe finds
      nothing where there is no balance entry. */
  function Dealt(l: Ledger, c: Command, a: Account): int {
    match c
    case Create(holder, hold) => if a == holder then -hold.amount else 0
    case BurnTokens(amount) => if a == l.treasury then -amount else 0
    case WipeTokens(account, amount) => if a == account && a in l.balances then -amount else 0
    case CashIn(account, amount) => if a == account then amount else 0
    case RescueTokens(sender, amount) => (if a == sender then amount else 0) - (if a == l.treasury then amount else 0)
    case _ => 0
  }

  function Dealings(treasury: Account, supply: int, actions: seq<Action>, a: Account): int {
    if actions == [] then 0
    else
      var front, last := actions[..|actions| - 1], actions[|actions| - 1];
      var d := History(treasury, supply, front);
      Dealings(treasury, supply, front, a) + if Passes(d, last) then Dealt(d.ledger, last.command, a) else 0
  }

  lemma ConsumedFunds(l: Ledger, holder: Account, id: nat, target: Account, amount: Option<int>, a: Account)
    requires Open(l, holder, id)
    ensures var paid := if amount.Some? then amount.value else l.holds[holder][id].amount;
            var after := Consumed(l, holder, id, target, amount);
            && At(after.balances, a) ==
               At(l.balances, a) + (if a == Destination(l.holds[holder][id], target) then paid else 0)
            && after.treasury == l.treasury
  {
  }

  /** One event out of a hold: what it pays and to whom, in the balances and on record. */
  lemma PaymentFunds(d: Desk, e: Event, now: int, caller: Option<Account>, a: Account)
    requires e.ExecuteHold? || e.ReleaseHold? || e.ReclaimHold?
    ensures var after := Recorded(d, e, now, caller);
            && At(after.ledger.balances, a) - PaidTo(after.payouts, a) ==
                At(d.ledger.balances, a) - PaidTo(d.payouts, a)
            && after.ledger.treasury == d.ledger.treasury
  {
    if Open(d.ledger, e.holder, e.id) {
      PaidToMore(d.payouts, NewPayout(d.ledger, e, now, caller)[0], a);
      match e
      case ExecuteHold(holder, id, target, amount) => ConsumedFunds(d.ledger, holder, id, target, Some(amount), a);
      case ReleaseHold(holder, id, amount) => ConsumedFunds(d.ledger, holder, id, holder, Some(amount), a);
      case ReclaimHold(holder, id) => ConsumedFunds(d.ledger, holder, id, holder, None, a);
    } else {
      assert d.payouts + [] == d.payouts;
    }
  }

  /** The operation that a passing command sends. */
  lemma SentFor(l: Ledger, c: Command, now: int)
    requires Dispatch(l, c, now).Success?
    ensures var e := Dispatch(l, c, now).value;
            match c
            case Create(holder, hold) => e == CreateHold(holder, hold)
            case Execute(_, source, id, amount, target) =>
              e == ExecuteHold(source, id, if target == None then 0 else target.value, amount)
            case Release(_, source, id, amount) => e == ReleaseHold(source, id, amount)
            case Reclaim(source, id) => e == ReclaimHold(source, id)
            case BurnTokens(amount) => e == Burn(amount)
            case WipeTokens(account, amount) => e == Wipe(account, amount)
            case CashIn(account, amount) => e == Mint(account, amount)
            case RescueTokens(sender, amount) => e == Rescue(sender, amount)
  {
  }

  /** An operation that pays nothing out of a hold, on balances and on record. */
  lemma TokenFunds(d: Desk, e: Event, now: int, caller: Option<Account>, a: Account)
    requires d.ledger.treasury in d.ledger.balances && !e.ExecuteHold? && !e.ReleaseHold? && !e.ReclaimHold?
    ensures var (l, after) := (d.ledger, Recorded(d, e, now, caller));
            && after.payouts == d.payouts && after.ledger.treasury == l.treasury
            && At(after.ledger.balances, a) == At(l.balances, a) +
               match e
               case CreateHold(holder, hold) => if a == holder then -hold.amount else 0
               case Burn(amount) => if a == l.treasury then -amount else 0
               case Wipe(account, amount) => if a == account && a in l.balances then -amount else 0
               case Mint(account, amount) => if a == account then amount else 0
               case Rescue(sender, amount) =>
                 (if a == sender then amount else 0) - (if a == l.treasury then amount else 0)
  {
    assert d.payouts + [] == d.payouts;
  }

  lemma ActFunds(d: Desk, act: Action, a: Account)
    requires d.ledger.treasury in d.ledger.balances && Passes(d, act)
    ensures var after := Act(d, act);
            && At(after.ledger.balances, a) - PaidTo(after.payouts, a) ==
               At(d.ledger.balances, a) - PaidTo(d.payouts, a) + Dealt(d.ledger, act.command, a)
            && after.ledger.treasury == d.ledger.treasury && after.ledger.treasury in after.ledger.balances
  {
    var e, caller := Dispatch(d.ledger, act.command, act.now).value, CallerOf(act.command);
    SentFor(d.ledger, act.command, act.now);
    EntriesStay(d.ledger, e);
    assert Act(d, act) == Recorded(d, e, act.now, caller);
    if e.ExecuteHold? || e.ReleaseHold? || e.ReclaimHold? {
      PaymentFunds(d, e, act.now, caller, a);
    } else {
      TokenFunds(d, e, act.now, caller, a);
    }
  }

  /** In every guarded history each account has what it was dealt and what it was paid out of holds, and nothing
      else. */
  lemma {:induction false} FundsLaw(treasury: Account, supply: int, actions: seq<Action>, a: Account)
    ensures var d := History(treasury, supply, actions);
            && At(d.ledger.balances, a) ==
               (if a == treasury then supply else 0) + Dealings(treasury, supply, actions, a) + PaidTo(d.payouts, a)
            && d.ledger.treasury == treasury && treasury in d.ledger.balances
  {
    if actions != [] {
      var front, last := actions[..|actions| - 1], actions[|actions| - 1];
      FundsLaw(treasury, supply, front, a);
      if Passes(History(treasury, supply, front), last) {
        ActFunds(History(treasury, supply, front), last, a);
      }
    }
  }

  // ---------- holds are commands ----------

  function Creations(treasury: Account, supply: int, actions: seq<Action>, a: Account): seq<Hold> {
    if actions == [] then []
    else
      var front, last := actions[..|actions| - 1], actions[|actions| - 1];
      var before := Creations(treasury, supply, front, a);
      if Passes(History(treasury, supply, front), last) && last.command.Create? && last.command.holder == a
      then before + [last.command.hold] else before
  }

  ghost predicate Numbered(d: Desk, creations: seq<Hold>, a: Account) {
    && NextOf(d.ledger, a) == |creations|
    && forall n: nat :: n < |creations| ==> (a, n) in d.created && d.created[(a, n)] == creations[n]
  }

  lemma StepNumbered(d: Desk, act: Action, creations: seq<Hold>, a: Account)
    requires Numbered(d, creations, a) && Passes(d, act)
    ensures var c := act.command;
            Numbered(Act(d, act), if c.Create? && c.holder == a then creations + [c.hold] else creations, a)
  {
    var e := Dispatch(d.ledger, act.command, act.now).value;
    NextAfter(d.ledger, e, a);
    var made := NewlyCreated(d.ledger, e);
    forall n: nat | n < |creations| ensures (a, n) !in made && (a, n) in d.created { }
  }

  /** The n-th hold created for an account gets number n - 1 and the terms its command named. */
  lemma {:induction false} HoldsAreCreations(treasury: Account, supply: int, actions: seq<Action>, a: Account)
    ensures Numbered(History(treasury, supply, actions), Creations(treasury, supply, actions, a), a)
  {
    if actions != [] {
      var front, last := actions[..|actions| - 1], actions[|actions| - 1];
      HoldsAreCreations(treasury, supply, front, a);
      if Passes(History(treasury, supply, front), last) {
        StepNumbered(History(treasury, supply, front), last, Creations(treasury, supply, front, a), a);
      }
    }
  }
}
