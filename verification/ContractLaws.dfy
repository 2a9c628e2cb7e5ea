/** What the hold contract's calls do, said in terms of holds, payments and what each account has: who may make
    them, what a refusal means, and where every token has gone. */
module ContractLaws {
  import opened Collections
  import opened HoldFacet
  import opened Payouts
  import HL = HoldLedger

  // ---------- who may do what ----------

  /** The hold is open, and its terms. */
  predicate IsOpen(w: World, holder: Account, id: nat) {
    id in HoldsOf(w, holder)
  }

  predicate MayConsume(w: World, caller: Account, holder: Account, id: nat, amount: int, now: int) {
    && IsOpen(w, holder, id)
    && var hold := HoldsOf(w, holder)[id];
       caller == hold.escrow && now < hold.expiration && amount <= hold.amount && amount <= At(w.balances, w.self)
  }

  predicate Acceptable(w: World, c: Call, now: int) {
    match c
    case CreateHold(holder, hold) =>
      && now < hold.expiration && hold.escrow != 0 && holder != 0 && holder != w.self
      && 0 < hold.amount <= At(w.balances, holder)
      && w.totalHeld + hold.amount < 0x8000_0000_0000_0000 && At(w.heldBy, holder) + hold.amount < 0x8000_0000_0000_0000
    case ExecuteHold(caller, holder, id, to, amount) =>
      && 0 < amount && MayConsume(w, caller, holder, id, amount, now)
      && (HoldsOf(w, holder)[id].to == 0 || HoldsOf(w, holder)[id].to == to)
    case ReleaseHold(caller, holder, id, amount) => 0 <= amount && MayConsume(w, caller, holder, id, amount, now)
    case ReclaimHold(holder, id) =>
      && IsOpen(w, holder, id) && HoldsOf(w, holder)[id].expiration <= now
      && HoldsOf(w, holder)[id].amount <= At(w.balances, w.self)
    case Mint(account, amount) => account != 0 && 0 < amount
    case Burn(amount) => 0 < amount <= At(w.balances, w.self) - w.totalHeld
    case Wipe(account, amount) => account != 0 && account != w.self && 0 < amount <= At(w.balances, account)
    case Rescue(_, amount) => 0 < amount <= At(w.balances, w.self)
  }

  /** A call is accepted exactly when the token service answers and the call is acceptable; otherwise nothing
      changes. */
  lemma AcceptedIff(w: World, t: Transaction)
    requires forall a :: AccountAgrees(w, a)
    ensures Execute(w, t).Success? <==> t.answered && Acceptable(w, t.call, t.now)
    ensures !(t.answered && Acceptable(w, t.call, t.now)) ==> Step(w, t) == w
  {
    match t.call
    case ExecuteHold(_, holder, _, _, _) => assert AccountAgrees(w, holder);
    case ReleaseHold(_, holder, _, _) => assert AccountAgrees(w, holder);
    case ReclaimHold(holder, _) => assert AccountAgrees(w, holder);
    case _ =>
  }

  /** The condition that an error says is not met. */
  ghost predicate Broken(w: World, c: Call, now: int, answered: bool, e: FacetError) {
    match e
    case InvalidExpiration => c.CreateHold? && c.hold.expiration <= now
    case AddressZero =>
      (c.CreateHold? && (c.hold.escrow == 0 || c.holder == 0)) || ((c.Mint? || c.Wipe?) && c.account == 0)
    case NegativeAmount =>
      if c.CreateHold? then c.hold.amount <= 0
      else (c.ExecuteHold? || c.Mint? || c.Burn? || c.Wipe? || c.Rescue?) && c.amount <= 0
    case HoldNotFound => (c.ExecuteHold? || c.ReleaseHold? || c.ReclaimHold?) && !IsOpen(w, c.holder, c.id)
    case InsufficientHoldAmount =>
      (c.ExecuteHold? || c.ReleaseHold?) && IsOpen(w, c.holder, c.id) && HoldsOf(w, c.holder)[c.id].amount < c.amount
    case HoldExpired =>
      (c.ExecuteHold? || c.ReleaseHold?) && IsOpen(w, c.holder, c.id) && HoldsOf(w, c.holder)[c.id].expiration <= now
    case HoldNotExpired => c.ReclaimHold? && IsOpen(w, c.holder, c.id) && HoldsOf(w, c.holder)[c.id].expiration > now
    case UnauthorizedEscrow =>
      (c.ExecuteHold? || c.ReleaseHold?) && IsOpen(w, c.holder, c.id) && HoldsOf(w, c.holder)[c.id].escrow != c.caller
    case InvalidDestination =>
      c.ExecuteHold? && IsOpen(w, c.holder, c.id) && HoldsOf(w, c.holder)[c.id].to !in {0, c.to}
    case BurnableAmountExceeded => c.Burn? && At(w.balances, w.self) - w.totalHeld < c.amount
    case GreaterThan =>
      if c.Wipe? then At(w.balances, c.account) < c.amount else c.Rescue? && At(w.balances, w.self) < c.amount
    case ArithmeticOverflow =>
      c.CreateHold? && (w.totalHeld + c.hold.amount >= 0x8000_0000_0000_0000
                        || At(w.heldBy, c.holder) + c.hold.amount >= 0x8000_0000_0000_0000)
    case ResponseCodeInvalid => !answered || !Serviceable(w, c)
  }

  /** A refusal names a condition that really is not met. */
  lemma RefusalsAreTrue(w: World, t: Transaction)
    requires (forall a :: AccountAgrees(w, a)) && Execute(w, t).Failure?
    ensures Broken(w, t.call, t.now, t.answered, Execute(w, t).error)
  {
    if t.call.ExecuteHold? || t.call.ReleaseHold? || t.call.ReclaimHold? {
      assert AccountAgrees(w, t.call.holder);
    }
  }

  /** The token service's is named only when all of the contract's own are met. */
  lemma ServiceIsAskedLast(w: World, t: Transaction, e: FacetError)
    requires (forall a :: AccountAgrees(w, a)) && Execute(w, t) == Failure(ResponseCodeInvalid)
        && e != ResponseCodeInvalid
    ensures !Broken(w, t.call, t.now, t.answered, e)
  {
    if t.call.ExecuteHold? || t.call.ReleaseHold? || t.call.ReclaimHold? {
      assert AccountAgrees(w, t.call.holder);
    }
  }

  // ---------- payments are calls ----------

  /** The call that makes this payment. */
  ghost predicate Pays(w: World, t: Transaction, p: Payout) {
    && p.time == t.now
    && match t.call
       case ExecuteHold(caller, holder, id, to, amount) =>
         p.hold == (holder, id) && p.to == to && p.amount == amount && p.caller == Some(caller)
       case ReleaseHold(caller, holder, id, amount) =>
         p.hold == (holder, id) && p.to == holder && p.amount == amount && p.caller == Some(caller)
       case ReclaimHold(holder, id) =>
         && p.hold == (holder, id) && p.to == holder && p.caller == None
         && IsOpen(w, holder, id) && p.amount == HoldsOf(w, holder)[id].amount
       case _ => false
  }

  /** Every payment on record was made by an accepted call of the run: an execution to whom it names, a release or
      a reclaim to the holder. */
  lemma {:induction false} PaymentIsACall(self: Account, supply: int, ts: seq<Transaction>, p: Payout) returns (m: nat)
    requires p in BooksAfter(self, supply, ts).payouts
    ensures m < |ts| && Execute(BooksAfter(self, supply, ts[..m]).world, ts[m]).Success?
    ensures Pays(BooksAfter(self, supply, ts[..m]).world, ts[m], p)
  {
    var last := |ts| - 1;
    var front, d := ts[..last], BooksAfter(self, supply, ts[..last]);
    if p in d.payouts {
      m := PaymentIsACall(self, supply, front, p);
      assert front[..m] == ts[..m];
    } else {
      m := last;
      AlwaysAccounted(self, supply, front);
      NewPaymentIsTheCalls(d, ts[last], p);
    }
  }

  lemma NewPaymentIsTheCalls(d: Books, t: Transaction, p: Payout)
    requires Accounted(d) && p in Entered(d, t).payouts && p !in d.payouts
    ensures Execute(d.world, t).Success? && Pays(d.world, t, p)
  {
    if t.call.ReclaimHold? && Execute(d.world, t).Success? {
      assert AccountAgrees(d.world, t.call.holder);
    }
  }

  /** And every accepted execution, release or reclaim is on record. */
  lemma CallIsPaid(d: Books, t: Transaction)
    requires Accounted(d) && Execute(d.world, t).Success?
        && (t.call.ExecuteHold? || t.call.ReleaseHold? || t.call.ReclaimHold?)
    ensures var after := Entered(d, t).payouts;
            |after| == |d.payouts| + 1 && after[..|d.payouts|] == d.payouts && Pays(d.world, t, after[|d.payouts|])
  {
    assert AccountAgrees(d.world, t.call.holder);
  }

  // ---------- holds are calls ----------

  /** The holds that accepted calls of the run have created for an account, in order. */
  function Creations(self: Account, supply: int, ts: seq<Transaction>, a: Account): seq<Hold> {
    if ts == [] then []
    else
      var front, t := ts[..|ts| - 1], ts[|ts| - 1];
      var before := Creations(self, supply, front, a);
      if Execute(BooksAfter(self, supply, front).world, t).Success? && t.call.CreateHold? && t.call.holder == a
      then before + [t.call.hold] else before
  }

  ghost predicate Numbered(d: Books, creations: seq<Hold>, a: Account) {
    && LastId(d.world, a) == |creations|
    && forall n :: 1 <= n <= |creations| ==> (a, n) in d.created && d.created[(a, n)] == creations[n - 1]
  }

  lemma StepNumbered(d: Books, t: Transaction, creations: seq<Hold>, a: Account)
    requires Numbered(d, creations, a) && Execute(d.world, t).Success?
    ensures Numbered(Entered(d, t), if t.call.CreateHold? && t.call.holder == a then creations + [t.call.hold]
        else creations, a)
  {
    IdsAfter(d.world, t.call, a);
    var made := HoldsOpened(d.world, t.call);
    forall n | 1 <= n <= |creations| ensures (a, n) !in made && (a, n) in d.created { }
  }

  /** The n-th creation for an account is hold n, with the terms it was called with. */
  lemma {:induction false} HoldsAreCreations(self: Account, supply: int, ts: seq<Transaction>, a: Account)
    ensures Numbered(BooksAfter(self, supply, ts), Creations(self, supply, ts, a), a)
  {
    if ts != [] {
      var front, t := ts[..|ts| - 1], ts[|ts| - 1];
      HoldsAreCreations(self, supply, front, a);
      if Execute(BooksAfter(self, supply, front).world, t).Success? {
        StepNumbered(BooksAfter(self, supply, front), t, Creations(self, supply, front, a), a);
      }
    }
  }

  lemma IdsAfter(w: World, c: Call, a: Account)
    ensures LastId(Effect(w, c), a) == LastId(w, a) + if c.CreateHold? && c.holder == a then 1 else 0
  {
  }

  // ---------- where the tokens are ----------

  /** What an account has besides what the treasury holds for others. */
  function Own(w: World, a: Account): int {
    At(w.balances, a) - if a == w.self then w.totalHeld else 0
  }

  /** What a call gives to an account, or takes from it, apart from payments out of holds. */
  function Dealt(w: World, c: Call, a: Account): int {
    match c
    case CreateHold(holder, hold) => if a == holder then -hold.amount else 0
    case Mint(account, amount) => if a == account then amount else 0
    case Burn(amount) => if a == w.self then -amount else 0
    case Wipe(account, amount) => if a == account then -amount else 0
    case Rescue(caller, amount) => (if a == caller then amount else 0) - (if a == w.self then amount else 0)
    case _ => 0
  }

  function Dealings(self: Account, supply: int, ts: seq<Transaction>, a: Account): int {
    if ts == [] then 0
    else
      var front, t := ts[..|ts| - 1], ts[|ts| - 1];
      var w := BooksAfter(self, supply, front).world;
      Dealings(self, supply, front, a) + if Execute(w, t).Success? then Dealt(w, t.call, a) else 0
  }

  lemma OwnAfter(w: World, c: Call, a: Account)
    ensures var to := Movement(w, c).1;
            Own(Effect(w, c), a) ==
            Own(w, a) + Dealt(w, c, a) + if Consumption(w, c).Some? && to == Some(a) then Movement(w, c).2 else 0
  {
    BalanceAfter(w, c, a);
    HeldAfter(w, c);
  }

  lemma PaidAfter(d: Books, t: Transaction, a: Account)
    requires Execute(d.world, t).Success?
    ensures var (w, c) := (d.world, t.call);
            PaidTo(Entered(d, t).payouts, a) ==
            PaidTo(d.payouts, a) + if Consumption(w, c).Some? && Movement(w, c).1 == Some(a) then Movement(w, c).2
                else 0
  {
    if Consumption(d.world, t.call).Some? {
      PaidToMore(d.payouts, PaymentsMade(d.world, t.call, t.now)[0], a);
    } else {
      assert d.payouts + [] == d.payouts;
    }
  }

  /** In every run each account has what it was dealt and what it was paid out of holds, and nothing else; the
      treasury's own share is what it has beyond everything on hold. */
  lemma {:induction false} FundsLaw(self: Account, supply: int, ts: seq<Transaction>, a: Account)
    ensures var d := BooksAfter(self, supply, ts);
            Own(d.world, a) == (if a == self then supply else 0) + Dealings(self, supply, ts, a) + PaidTo(d.payouts, a)
  {
    if ts != [] {
      var front, t := ts[..|ts| - 1], ts[|ts| - 1];
      FundsLaw(self, supply, front, a);
      if Execute(BooksAfter(self, supply, front).world, t).Success? {
        OwnAfter(BooksAfter(self, supply, front).world, t.call, a);
        PaidAfter(BooksAfter(self, supply, front), t, a);
      }
    }
  }
}
