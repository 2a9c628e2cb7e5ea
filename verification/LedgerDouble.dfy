/** The ledger as the object it is: maps and counters that every operation updates in place. */
module LedgerDouble {
  import opened Collections
  import opened HoldLedger

  /** The value of a key, or the fallback if there is none. */
  function GetOr<K, V>(m: map<K, V>, k: K, fallback: V): V {
    if k in m then m[k] else fallback
  }

  class TokenLedger {
    const treasury: Account
    var balances: map<Account, int>
    var totalSupply: int
    var totalHeldAmount: int
    var totalHeldAmountByAccount: map<Account, int>
    var holdsByAccountAndId: map<Account, map<nat, Hold>>
    var holdIdsByAccount: map<Account, seq<nat>>
    var nextHoldIdByAccount: map<Account, nat>

    ghost function Abstract(): Ledger
      reads this
    {
      Ledger(treasury, balances, totalSupply, totalHeldAmount, totalHeldAmountByAccount,
             holdsByAccountAndId, holdIdsByAccount, nextHoldIdByAccount)
    }

    constructor (treasury: Account, initialSupply: int)
      ensures Abstract() == Initial(treasury, initialSupply)
    {
      this.treasury := treasury;
      balances, totalSupply, totalHeldAmount := map[treasury := initialSupply], initialSupply, 0;
      totalHeldAmountByAccount, holdsByAccountAndId, holdIdsByAccount, nextHoldIdByAccount :=
        map[], map[], map[], map[];
    }

    method Wipe(account: Account, amount: int)
      modifies this
      ensures Abstract() == Step(old(Abstract()), HoldLedger.Wipe(account, amount))
    {
      if account in balances {
        balances := balances[account := balances[account] - amount];
      }
      totalSupply := totalSupply - amount;
    }

    method Burn(amount: int)
      modifies this
      ensures Abstract() == Step(old(Abstract()), HoldLedger.Burn(amount))
    {
      if treasury in balances {
        balances := balances[treasury := balances[treasury] - amount];
      }
      totalSupply := totalSupply - amount;
    }

    method Mint(account: Account, amount: int)
      modifies this
      ensures Abstract() == Step(old(Abstract()), HoldLedger.Mint(account, amount))
    {
      if account in balances {
        balances := balances[account := balances[account] + amount];
      } else {
        balances := balances[account := amount];
      }
      totalSupply := totalSupply + amount;
    }

    /** Tokens move from the treasury to the caller; the two may be the same account. */
    method Rescue(sender: Account, amount: int)
      modifies this
      ensures Abstract() == Step(old(Abstract()), HoldLedger.Rescue(sender, amount))
    {
      if treasury in balances {
        balances := balances[treasury := balances[treasury] - amount];
      }
      if sender in balances {
        balances := balances[sender := balances[sender] + amount];
      } else {
        balances := balances[sender := amount];
      }
    }

    method CreateHold(tokenHolder: Account, hold: Hold) returns (holdId: nat)
      modifies this
      ensures Abstract() == Step(old(Abstract()), HoldLedger.CreateHold(tokenHolder, hold))
      ensures holdId == NextOf(old(Abstract()), tokenHolder) && Open(Abstract(), tokenHolder, holdId)
    {
      balances := balances[tokenHolder := GetOr(balances, tokenHolder, 0) - hold.amount];
      var held := GetOr(totalHeldAmountByAccount, tokenHolder, 0);
      totalHeldAmountByAccount := totalHeldAmountByAccount[tokenHolder := held + hold.amount];
      holdId := RegisterHold(tokenHolder, hold);
      totalHeldAmount := totalHeldAmount + hold.amount;
    }

    /** The part of a hold's creation that gives it its id and files it; an account's hold map is made on
        first use. */
    method RegisterHold(tokenHolder: Account, hold: Hold) returns (holdId: nat)
      modifies this`holdsByAccountAndId, this`holdIdsByAccount, this`nextHoldIdByAccount
      ensures holdId == NextOf(old(Abstract()), tokenHolder)
      ensures nextHoldIdByAccount == old(nextHoldIdByAccount)[tokenHolder := holdId + 1]
      ensures holdsByAccountAndId ==
              old(holdsByAccountAndId)[tokenHolder := HoldsOf(old(Abstract()), tokenHolder)[holdId := hold]]
      ensures holdIdsByAccount == old(holdIdsByAccount)[tokenHolder := IdsOf(old(Abstract()), tokenHolder) + [holdId]]
    {
      holdId := GetOr(nextHoldIdByAccount, tokenHolder, 0);
      nextHoldIdByAccount := nextHoldIdByAccount[tokenHolder := holdId + 1];
      if tokenHolder !in holdsByAccountAndId {
        holdsByAccountAndId := holdsByAccountAndId[tokenHolder := map[]];
      }
      var own: map<nat, Hold> := holdsByAccountAndId[tokenHolder];
      holdsByAccountAndId := holdsByAccountAndId[tokenHolder := own[holdId := hold]];
      holdIdsByAccount := holdIdsByAccount[tokenHolder := GetOr(holdIdsByAccount, tokenHolder, []) + [holdId]];
    }

    method CloseHold(tokenHolder: Account, holdId: nat)
      requires tokenHolder in holdsByAccountAndId
      modifies this`holdsByAccountAndId, this`holdIdsByAccount
      ensures holdsByAccountAndId ==
              old(holdsByAccountAndId)[tokenHolder := old(holdsByAccountAndId)[tokenHolder] - {holdId}]
      ensures holdIdsByAccount ==
              if tokenHolder in old(holdIdsByAccount)
              then old(holdIdsByAccount)[tokenHolder := Without(old(holdIdsByAccount)[tokenHolder], holdId)]
              else old(holdIdsByAccount)
    {
      holdsByAccountAndId := holdsByAccountAndId[tokenHolder := holdsByAccountAndId[tokenHolder] - {holdId}];
      if tokenHolder in holdIdsByAccount {
        holdIdsByAccount := holdIdsByAccount[tokenHolder := Without(holdIdsByAccount[tokenHolder], holdId)];
      }
    }

    /** Execution, release and reclaim all come down to this; `None` takes the whole hold. */
    method DecreaseHeldAmount(tokenHolder: Account, holdId: nat, target: Account, amount: Option<int>)
      modifies this
      ensures Abstract() == Consumed(old(Abstract()), tokenHolder, holdId, target, amount)
    {
      if tokenHolder !in holdsByAccountAndId || holdId !in holdsByAccountAndId[tokenHolder] {
        return;
      }
      var hold := holdsByAccountAndId[tokenHolder][holdId];
      var paid := hold.amount;
      if amount.Some? {
        paid := amount.value;
      }
      var held := GetOr(totalHeldAmountByAccount, tokenHolder, 0);
      totalHeldAmountByAccount := totalHeldAmountByAccount[tokenHolder := held - paid];
      if hold.amount == paid {
        CloseHold(tokenHolder, holdId);
      }
      var destination := target;
      if target == ZERO {
        destination := hold.to;
      }
      balances := balances[destination := GetOr(balances, destination, 0) + paid];
      totalHeldAmount := totalHeldAmount - paid;
      ghost var after := Consumed(old(Abstract()), tokenHolder, holdId, target, amount);
      assert balances == after.balances && totalHeldAmount == after.totalHeld
          && totalHeldAmountByAccount == after.heldBy;
      assert holdsByAccountAndId == after.holds && holdIdsByAccount == after.holdIds;
    }

    method ExecuteHold(tokenHolder: Account, holdId: nat, to: Account, amount: int)
      modifies this
      ensures Abstract() == Step(old(Abstract()), HoldLedger.ExecuteHold(tokenHolder, holdId, to, amount))
    {
      DecreaseHeldAmount(tokenHolder, holdId, to, Some(amount));
    }

    method ReleaseHold(tokenHolder: Account, holdId: nat, amount: int)
      modifies this
      ensures Abstract() == Step(old(Abstract()), HoldLedger.ReleaseHold(tokenHolder, holdId, amount))
    {
      DecreaseHeldAmount(tokenHolder, holdId, tokenHolder, Some(amount));
    }

    method ReclaimHold(tokenHolder: Account, holdId: nat)
      modifies this
      ensures Abstract() == Step(old(Abstract()), HoldLedger.ReclaimHold(tokenHolder, holdId))
    {
      DecreaseHeldAmount(tokenHolder, holdId, tokenHolder, None);
    }
  }
}
