/** The role side of the in-memory ledger as the object it is. */
module RoleDouble {
  import opened Collections
  import opened RoleLedger

  class RoleBook {
    var roles: map<Account, seq<Role>>
    var accountsWithRoles: map<Role, seq<Account>>
    var suppliers: map<Account, Allowance>

    ghost function Abstract(): Ledger
      reads this
    {
      Ledger(roles, accountsWithRoles, suppliers)
    }

    constructor ()
      ensures Abstract() == EMPTY
    {
      roles, accountsWithRoles, suppliers := map[], map[], map[];
    }

    method GrantRole(account: Account, newRole: Role)
      modifies this
      ensures Abstract() == Apply(old(Abstract()), Grant(account, newRole))
    {
      var r := [newRole];
      if account in roles {
        r := if newRole in roles[account] then roles[account] else roles[account] + [newRole];
      }
      roles := roles[account := r];
      var accounts := [account];
      if newRole in accountsWithRoles {
        accounts := accountsWithRoles[newRole];
        if account !in accounts {
          accounts := accounts + [account];
        }
      }
      accountsWithRoles := accountsWithRoles[newRole := accounts];
      assert r == Added(RolesOf(old(Abstract()), account), newRole);
      assert accounts == Added(AccountsWith(old(Abstract()), newRole), account);
    }

    /** The reverse list is filtered too, but the filtered copy is thrown away. */
    method RevokeRole(account: Account, oldRole: Role)
      modifies this
      ensures Abstract() == Apply(old(Abstract()), Revoke(account, oldRole))
    {
      if account in roles && oldRole in roles[account] {
        roles := roles[account := Removed(roles[account], oldRole)];
      }
    }

    method GrantSupplierRole(supplier: Account, amount: int)
      modifies this
      ensures Abstract() == Apply(old(Abstract()), GrantSupplier(supplier, Allowance(false, amount)))
    {
      GrantRole(supplier, CashIn);
      suppliers := suppliers[supplier := Allowance(false, amount)];
    }

    method GrantUnlimitedSupplierRole(supplier: Account)
      modifies this
      ensures Abstract() == Apply(old(Abstract()), GrantSupplier(supplier, Allowance(true, 0)))
    {
      GrantRole(supplier, CashIn);
      suppliers := suppliers[supplier := Allowance(true, 0)];
    }

    method RevokeSupplierRole(supplier: Account)
      modifies this
      ensures Abstract() == Apply(old(Abstract()), RevokeSupplier(supplier))
    {
      RevokeRole(supplier, CashIn);
      if supplier in suppliers {
        suppliers := suppliers - {supplier};
      }
      assert suppliers == old(suppliers) - {supplier};
    }

    method ResetSupplierAllowance(supplier: Account)
      modifies this
      ensures Abstract() == ApplyAll(old(Abstract()), Calls(old(Abstract()), ResetAllowance(supplier)))
    {
      if supplier in suppliers {
        suppliers := suppliers[supplier := suppliers[supplier].(amount := 0)];
      }
      One(old(Abstract()), SetAmount(supplier, 0));
    }

    method IncreaseSupplierAllowance(supplier: Account, amount: int)
      modifies this
      ensures Abstract() == ApplyAll(old(Abstract()), Calls(old(Abstract()), IncreaseAllowance(supplier, amount)))
    {
      One(Abstract(), Calls(Abstract(), IncreaseAllowance(supplier, amount))[0]);
      if supplier in suppliers {
        suppliers := suppliers[supplier := suppliers[supplier].(amount := suppliers[supplier].amount + amount)];
      } else {
        GrantSupplierRole(supplier, amount);
      }
    }

    method DecreaseSupplierAllowance(supplier: Account, amount: int)
      modifies this
      ensures Abstract() == ApplyAll(old(Abstract()), Calls(old(Abstract()), DecreaseAllowance(supplier, amount)))
    {
      if supplier in suppliers {
        One(Abstract(), SetAmount(supplier, suppliers[supplier].amount - amount));
        suppliers := suppliers[supplier := suppliers[supplier].(amount := suppliers[supplier].amount - amount)];
      }
    }

    method GrantRoles(newRoles: seq<Role>, accounts: seq<Account>, amounts: seq<int>)
      requires CashIn in newRoles ==> |amounts| >= |accounts|
      modifies this
      ensures Abstract() == ApplyAll(old(Abstract()), AllGrantCalls(newRoles, accounts, amounts))
    {
      for n := 0 to |newRoles|
        invariant Abstract() == ApplyAll(old(Abstract()), AllGrantCalls(newRoles[..n], accounts, amounts))
      {
        assert newRoles[..n + 1][..n] == newRoles[..n];
        ApplyConcat(old(Abstract()), AllGrantCalls(newRoles[..n], accounts, amounts),
            GrantCalls(newRoles[n], accounts, amounts));
        GrantToEach(newRoles[n], accounts, amounts);
      }
      assert newRoles[..|newRoles|] == newRoles;
    }

    method GrantToEach(newRole: Role, accounts: seq<Account>, amounts: seq<int>)
      requires newRole == CashIn ==> |amounts| >= |accounts|
      modifies this
      ensures Abstract() == ApplyAll(old(Abstract()), GrantCalls(newRole, accounts, amounts))
    {
      ghost var calls := GrantCalls(newRole, accounts, amounts);
      for i := 0 to |accounts|
        invariant Abstract() == ApplyAll(old(Abstract()), calls[..i])
      {
        assert calls[..i + 1][..i] == calls[..i];
        if newRole == CashIn {
          if amounts[i] == UINT256_MAX || amounts[i] == 0 {
            GrantUnlimitedSupplierRole(accounts[i]);
          } else {
            GrantSupplierRole(accounts[i], amounts[i]);
          }
        } else {
          GrantRole(accounts[i], newRole);
        }
      }
      assert calls[..|accounts|] == calls;
    }

    method RevokeRoles(oldRoles: seq<Role>, accounts: seq<Account>)
      modifies this
      ensures Abstract() == ApplyAll(old(Abstract()), AllRevokeCalls(oldRoles, accounts))
    {
      for n := 0 to |oldRoles|
        invariant Abstract() == ApplyAll(old(Abstract()), AllRevokeCalls(oldRoles[..n], accounts))
      {
        assert oldRoles[..n + 1][..n] == oldRoles[..n];
        ApplyConcat(old(Abstract()), AllRevokeCalls(oldRoles[..n], accounts), RevokeCalls(oldRoles[n], accounts));
        RevokeFromEach(oldRoles[n], accounts);
      }
      assert oldRoles[..|oldRoles|] == oldRoles;
    }

    method RevokeFromEach(oldRole: Role, accounts: seq<Account>)
      modifies this
      ensures Abstract() == ApplyAll(old(Abstract()), RevokeCalls(oldRole, accounts))
    {
      ghost var calls := RevokeCalls(oldRole, accounts);
      for i := 0 to |accounts|
        invariant Abstract() == ApplyAll(old(Abstract()), calls[..i])
      {
        assert calls[..i + 1][..i] == calls[..i];
        if oldRole == CashIn {
          RevokeSupplierRole(accounts[i]);
        } else {
          RevokeRole(accounts[i], oldRole);
        }
      }
      assert calls[..|accounts|] == calls;
    }
  }

  lemma One(l: Ledger, c: Call)
    ensures ApplyAll(l, [c]) == Apply(l, c)
  {
    assert [c][..0] == [];
  }
}
