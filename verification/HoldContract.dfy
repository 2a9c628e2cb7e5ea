/** The hold contract as the object it is: storage that every accepted call updates in place and a revert
    leaves alone. A revert in the middle of a call is modelled by asking the token service first. */
module HoldContract {
  import opened Collections
  import opened HoldFacet
  import ES = EnumerableSet
  import HL = HoldLedger

  function Outcome(r: Result<World, FacetError>): Option<FacetError> {
    match r
    case Success(_) => None
    case Failure(e) => Some(e)
  }

  class HoldManagement {
    const self: Account
    var totalHeldAmount: int
    var totalHeldAmountByAccount: map<Account, int>
    var holdsByAccountAndId: map<Account, map<nat, Hold>>
    var holdIdsByAccount: map<Account, ES.Set<nat>>
    var nextHoldIdByAccount: map<Account, nat>
    var balances: map<Account, int>

    ghost function Abstract(): World
      reads this
    {
      World(self, totalHeldAmount, totalHeldAmountByAccount, holdsByAccountAndId, holdIdsByAccount,
          nextHoldIdByAccount, balances)
    }

    constructor (self: Account, supply: int)
      ensures Abstract() == Initial(self, supply)
    {
      this.self := self;
      totalHeldAmount, balances := 0, map[self := supply];
      totalHeldAmountByAccount, holdsByAccountAndId, holdIdsByAccount, nextHoldIdByAccount :=
        map[], map[], map[], map[];
    }

    function Stored(holder: Account, id: nat): (hold: Hold)
      reads this
      ensures hold == HoldAt(Abstract(), holder, id)
    {
      if holder in holdsByAccountAndId && id in holdsByAccountAndId[holder] then holdsByAccountAndId[holder][id]
      else HL.Hold(0, 0, ZERO, ZERO, "")
    }

    predicate IsHold(holder: Account, id: nat)
      reads this
      ensures IsHold(holder, id) <==> ES.Contains(IdsOf(Abstract(), holder), id)
    {
      holder in holdIdsByAccount && ES.Contains(holdIdsByAccount[holder], id)
    }

    method CreateHold(holder: Account, hold: Hold, now: int, answered: bool)
      returns (error: Option<FacetError>, holdId: nat)
      modifies this
      ensures var t := Transaction(HoldFacet.CreateHold(holder, hold), now, answered);
              && Abstract() == Step(old(Abstract()), t) && error == Outcome(Execute(old(Abstract()), t))
              && (error.None? ==> holdId == LastId(old(Abstract()), holder) + 1)
    {
      holdId := 0;
      if hold.expiration <= now {
        return Some(InvalidExpiration), holdId;
      }
      if hold.escrow == ZERO || holder == ZERO {
        return Some(AddressZero), holdId;
      }
      if hold.amount <= 0 {
        return Some(NegativeAmount), holdId;
      }
      if totalHeldAmount + hold.amount > INT64_MAX || At(totalHeldAmountByAccount, holder) + hold.amount > INT64_MAX {
        return Some(ArithmeticOverflow), holdId;
      }
      if !answered || holder == self || hold.amount > At(balances, holder) {
        return Some(ResponseCodeInvalid), holdId;
      }
      balances := Transferred(balances, holder, self, hold.amount);
      holdId := RegisterHold(holder, hold);
      error := None;
    }

    method RegisterHold(holder: Account, hold: Hold) returns (holdId: nat)
      modifies this
      ensures Abstract() == Registered(old(Abstract()), holder, hold) && holdId == LastId(old(Abstract()), holder) + 1
    {
      holdId := FileHold(holder, hold);
      totalHeldAmount := totalHeldAmount + hold.amount;
      var held := At(totalHeldAmountByAccount, holder);
      totalHeldAmountByAccount := totalHeldAmountByAccount[holder := held + hold.amount];
    }

    method FileHold(holder: Account, hold: Hold) returns (holdId: nat)
      modifies this`nextHoldIdByAccount, this`holdsByAccountAndId, this`holdIdsByAccount
      ensures holdId == LastId(old(Abstract()), holder) + 1
      ensures nextHoldIdByAccount == old(nextHoldIdByAccount)[holder := holdId]
      ensures holdsByAccountAndId ==
              old(holdsByAccountAndId)[holder := HoldsOf(old(Abstract()), holder)[holdId := hold]]
      ensures holdIdsByAccount == old(holdIdsByAccount)[holder := ES.Added(IdsOf(old(Abstract()), holder), holdId)]
    {
      holdId := (if holder in nextHoldIdByAccount then nextHoldIdByAccount[holder] else 0) + 1;
      nextHoldIdByAccount := nextHoldIdByAccount[holder := holdId];
      var own: map<nat, Hold> := if holder in holdsByAccountAndId then holdsByAccountAndId[holder] else map[];
      holdsByAccountAndId := holdsByAccountAndId[holder := own[holdId := hold]];
      var ids := if holder in holdIdsByAccount then holdIdsByAccount[holder] else ES.Empty();
      holdIdsByAccount := holdIdsByAccount[holder := ES.Added(ids, holdId)];
    }

    /** A hold that reaches zero is deleted. */
    method DecreaseHoldAmount(holder: Account, id: nat, amount: int)
      modifies this
      ensures Abstract() == Decreased(old(Abstract()), holder, id, amount)
    {
      var hold := Stored(holder, id);
      var rest := hold.(amount := hold.amount - amount);
      totalHeldAmount := totalHeldAmount - amount;
      totalHeldAmountByAccount := totalHeldAmountByAccount[holder := At(totalHeldAmountByAccount, holder) - amount];
      var own: map<nat, Hold> := if holder in holdsByAccountAndId then holdsByAccountAndId[holder] else map[];
      if rest.amount == 0 {
        var ids := if holder in holdIdsByAccount then holdIdsByAccount[holder] else ES.Empty();
        holdIdsByAccount := holdIdsByAccount[holder := ES.Removed(ids, id)];
        holdsByAccountAndId := holdsByAccountAndId[holder := own - {id}];
      } else {
        holdsByAccountAndId := holdsByAccountAndId[holder := own[id := rest]];
      }
    }

    /** The last part of every consumption: the hold gives up the amount and the treasury pays it. */
    method PayFromHold(holder: Account, id: nat, to: Account, amount: int)
      modifies this
      ensures Abstract() ==
              Decreased(old(Abstract()), holder, id, amount).(balances := Transferred(old(balances), self, to, amount))
    {
      DecreaseHoldAmount(holder, id, amount);
      balances := Transferred(balances, self, to, amount);
    }

    method ExecuteHold(caller: Account, holder: Account, id: nat, to: Account, amount: int, now: int, answered: bool)
      returns (error: Option<FacetError>)
      modifies this
      ensures var t := Transaction(HoldFacet.ExecuteHold(caller, holder, id, to, amount), now, answered);
              Abstract() == Step(old(Abstract()), t) && error == Outcome(Execute(old(Abstract()), t))
    {
      if !IsHold(holder, id) {
        return Some(HoldNotFound);
      }
      if amount <= 0 {
        return Some(NegativeAmount);
      }
      var hold := Stored(holder, id);
      if hold.amount < amount {
        return Some(InsufficientHoldAmount);
      }
      if hold.expiration <= now {
        return Some(HoldExpired);
      }
      if hold.escrow != caller {
        return Some(UnauthorizedEscrow);
      }
      if hold.to != ZERO && hold.to != to {
        return Some(InvalidDestination);
      }
      if !answered || amount > At(balances, self) {
        return Some(ResponseCodeInvalid);
      }
      PayFromHold(holder, id, to, amount);
      error := None;
    }

    method ReleaseHold(caller: Account, holder: Account, id: nat, amount: int, now: int, answered: bool)
      returns (error: Option<FacetError>)
      modifies this
      ensures var t := Transaction(HoldFacet.ReleaseHold(caller, holder, id, amount), now, answered);
              Abstract() == Step(old(Abstract()), t) && error == Outcome(Execute(old(Abstract()), t))
    {
      if !IsHold(holder, id) {
        return Some(HoldNotFound);
      }
      var hold := Stored(holder, id);
      if hold.amount < amount {
        return Some(InsufficientHoldAmount);
      }
      if hold.expiration <= now {
        return Some(HoldExpired);
      }
      if hold.escrow != caller {
        return Some(UnauthorizedEscrow);
      }
      if !answered || amount < 0 || amount > At(balances, self) {
        return Some(ResponseCodeInvalid);
      }
      PayFromHold(holder, id, holder, amount);
      error := None;
    }

    method ReclaimHold(holder: Account, id: nat, now: int, answered: bool) returns (error: Option<FacetError>)
      modifies this
      ensures var t := Transaction(HoldFacet.ReclaimHold(holder, id), now, answered);
              Abstract() == Step(old(Abstract()), t) && error == Outcome(Execute(old(Abstract()), t))
    {
      if !IsHold(holder, id) {
        return Some(HoldNotFound);
      }
      var hold := Stored(holder, id);
      if hold.expiration > now {
        return Some(HoldNotExpired);
      }
      if !answered || hold.amount > At(balances, self) {
        return Some(ResponseCodeInvalid);
      }
      PayFromHold(holder, id, holder, hold.amount);
      error := None;
    }
  }
}
