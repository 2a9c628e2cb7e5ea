/** What the role port's requests come to: the supplier entries and roles of every account, request by request. */
module RolePort {
  import opened Collections
  import opened RoleLedger

  function SupplierOf(l: Ledger, a: Account): Option<Allowance> {
    if a in l.suppliers then Some(l.suppliers[a]) else None
  }

  // ---------- the law ----------

  /** The amount a bulk request brings for an account; the last one, should it be listed twice. */
  function AmountFor(accounts: seq<Account>, amounts: seq<int>, a: Account): int {
    if accounts == [] || |amounts| < |accounts| then 0
    else if accounts[|accounts| - 1] == a then amounts[|accounts| - 1]
    else AmountFor(accounts[..|accounts| - 1], amounts, a)
  }

  /** Nothing and the largest number stand for no limit. */
  function LimitOf(amount: int): Allowance {
    if amount == 0 || amount == UINT256_MAX then Allowance(true, 0) else Allowance(false, amount)
  }

  /** What a request makes of an account's supplier entry. */
  function EntryAfter(entry: Option<Allowance>, q: Request, a: Account): Option<Allowance> {
    match q
    case PortGrant(role, b, supplierType, amount) =>
      if role == CashIn && b == a then
        match supplierType
        case Limited => Some(Allowance(false, amount))
        case Unlimited => Some(Allowance(true, 0))
      else entry
    case PortRevoke(role, b) => if role == CashIn && b == a then None else entry
    case PortGrantMulti(roles, accounts, amounts) =>
      if CashIn in roles && a in accounts then Some(LimitOf(AmountFor(accounts, amounts, a))) else entry
    case PortRevokeMulti(roles, accounts) => if CashIn in roles && a in accounts then None else entry
    case PortReset(b) => if b == a && entry.Some? then Some(entry.value.(amount := 0)) else entry
    case PortIncrease(b, amount) =>
      if b != a then entry
      else if entry.Some? then Some(entry.value.(amount := entry.value.amount + amount))
      else Some(Allowance(false, amount))
    case PortDecrease(b, amount) =>
      if b == a && entry.Some? then Some(entry.value.(amount := entry.value.amount - amount)) else entry
  }

  /** And of whether it has a role. An increase for an account that is no supplier makes it one. */
  predicate RoleAfter(held: bool, q: Request, a: Account, r: Role) {
    match q
    case PortGrant(role, b, _, _) => held || (role == r && b == a)
    case PortRevoke(role, b) => held && !(role == r && b == a)
    case PortGrantMulti(roles, accounts, _) => held || (r in roles && a in accounts)
    case PortRevokeMulti(roles, accounts) => held && !(r in roles && a in accounts)
    case PortIncrease(b, _) => held || (r == CashIn && b == a)
    case _ => held
  }

  function EntryAfterAll(requests: seq<Request>, a: Account): Option<Allowance> {
    if requests == [] then None
    else EntryAfter(EntryAfterAll(requests[..|requests| - 1], a), requests[|requests| - 1], a)
  }

  predicate RoleAfterAll(requests: seq<Request>, a: Account, r: Role) {
    requests != [] && RoleAfter(RoleAfterAll(requests[..|requests| - 1], a, r), requests[|requests| - 1], a, r)
  }

  // ---------- bulk calls ----------

  lemma GrantEntry(l: Ledger, role: Role, b: Account, amount: int, a: Account)
    ensures var c := if role == CashIn then GrantSupplier(b, BulkAllowance(amount)) else Grant(b, role);
            SupplierOf(Apply(l, c), a) == if role == CashIn && a == b then Some(BulkAllowance(amount))
                else SupplierOf(l, a)
  {
  }

  lemma AmountForOneMore(accounts: seq<Account>, amounts: seq<int>, a: Account, n: nat)
    requires 0 < n <= |accounts|
    ensures |amounts| >= |accounts| ==>
              AmountFor(accounts[..n], amounts, a) ==
              if accounts[n - 1] == a then amounts[n - 1] else AmountFor(accounts[..n - 1], amounts, a)
  {
    assert accounts[..n][..n - 1] == accounts[..n - 1];
  }

  lemma {:induction false} BulkGrantEntry(l: Ledger, role: Role, accounts: seq<Account>, amounts: seq<int>, a: Account,
                                          n: nat)
    requires (role == CashIn ==> |amounts| >= |accounts|) && n <= |accounts|
    ensures SupplierOf(ApplyAll(l, GrantCalls(role, accounts, amounts)[..n]), a) ==
            if role == CashIn && a in accounts[..n] then Some(BulkAllowance(AmountFor(accounts[..n], amounts, a)))
            else SupplierOf(l, a)
  {
    if n > 0 {
      BulkGrantEntry(l, role, accounts, amounts, a, n - 1);
      var calls := GrantCalls(role, accounts, amounts);
      assert calls[..n][..n - 1] == calls[..n - 1];
      assert accounts[..n] == accounts[..n - 1] + [accounts[n - 1]];
      AmountForOneMore(accounts, amounts, a, n);
      GrantEntry(ApplyAll(l, calls[..n - 1]), role, accounts[n - 1], if role == CashIn then amounts[n - 1] else 0, a);
    }
  }

  lemma {:induction false} BulkRevokeEntry(l: Ledger, role: Role, accounts: seq<Account>, a: Account, n: nat)
    requires n <= |accounts|
    ensures SupplierOf(ApplyAll(l, RevokeCalls(role, accounts)[..n]), a) ==
            if role == CashIn && a in accounts[..n] then None else SupplierOf(l, a)
  {
    if n > 0 {
      BulkRevokeEntry(l, role, accounts, a, n - 1);
      var calls := RevokeCalls(role, accounts);
      assert calls[..n][..n - 1] == calls[..n - 1];
      assert accounts[..n] == accounts[..n - 1] + [accounts[n - 1]];
    }
  }

  lemma {:induction false} AllGrantsEntry(l: Ledger, roles: seq<Role>, accounts: seq<Account>, amounts: seq<int>,
                                          a: Account)
    requires CashIn in roles ==> |amounts| >= |accounts|
    ensures SupplierOf(ApplyAll(l, AllGrantCalls(roles, accounts, amounts)), a) ==
            if CashIn in roles && a in accounts then Some(BulkAllowance(AmountFor(accounts, amounts, a)))
            else SupplierOf(l, a)
  {
    if roles != [] {
      var front, last := roles[..|roles| - 1], roles[|roles| - 1];
      assert roles == front + [last];
      AllGrantsEntry(l, front, accounts, amounts, a);
      var before, calls := AllGrantCalls(front, accounts, amounts), GrantCalls(last, accounts, amounts);
      ApplyConcat(l, before, calls);
      BulkGrantEntry(ApplyAll(l, before), last, accounts, amounts, a, |accounts|);
      assert calls[..|accounts|] == calls && accounts[..|accounts|] == accounts;
    }
  }

  lemma {:induction false} AllRevokesEntry(l: Ledger, roles: seq<Role>, accounts: seq<Account>, a: Account)
    ensures SupplierOf(ApplyAll(l, AllRevokeCalls(roles, accounts)), a) ==
            if CashIn in roles && a in accounts then None else SupplierOf(l, a)
  {
    if roles != [] {
      var front, last := roles[..|roles| - 1], roles[|roles| - 1];
      assert roles == front + [last];
      AllRevokesEntry(l, front, accounts, a);
      var before, calls := AllRevokeCalls(front, accounts), RevokeCalls(last, accounts);
      ApplyConcat(l, before, calls);
      BulkRevokeEntry(ApplyAll(l, before), last, accounts, a, |accounts|);
      assert calls[..|accounts|] == calls && accounts[..|accounts|] == accounts;
    }
  }

  /** An amount sent on as it is or as the largest number means the same limit. */
  lemma {:induction false} FormattingKeepsLimits(accounts: seq<Account>, amounts: seq<int>, a: Account)
    requires |amounts| >= |accounts| && (forall i :: 0 <= i < |amounts| ==> amounts[i] >= 0) && a in accounts
    ensures BulkAllowance(AmountFor(accounts, Formatted(amounts), a)) == LimitOf(AmountFor(accounts, amounts, a))
  {
    var front, last := accounts[..|accounts| - 1], accounts[|accounts| - 1];
    assert accounts == front + [last];
    if last != a {
      FormattingKeepsLimits(front, amounts, a);
    }
  }

  lemma {:induction false} AmountsInPlace(accounts: seq<Account>, amounts: seq<int>, i: nat)
    requires NoDup(accounts) && |amounts| >= |accounts| && i < |accounts|
    ensures AmountFor(accounts, amounts, accounts[i]) == amounts[i]
  {
    var front := accounts[..|accounts| - 1];
    if i < |front| {
      assert front[i] == accounts[i] && accounts[i] != accounts[|accounts| - 1];
      AmountsInPlace(front, amounts, i);
    }
  }

  /** A bulk grant of the supplier role gives each account the amount at its place in the list. */
  lemma BulkGrantsInPlace(l: Ledger, roles: seq<Role>, accounts: seq<Account>, amounts: seq<int>, i: nat)
    requires CashIn in roles && NoDup(accounts) && |amounts| >= |accounts| && i < |accounts|
    ensures SupplierOf(ApplyAll(l, Calls(l, GrantRoles(roles, accounts, amounts))), accounts[i]) ==
            Some(if amounts[i] in {0, UINT256_MAX} then Allowance(true, 0) else Allowance(false, amounts[i]))
  {
    AllGrantsEntry(l, roles, accounts, amounts, accounts[i]);
    AmountsInPlace(accounts, amounts, i);
  }

  // ---------- one request ----------

  lemma OneCall(l: Ledger, c: Call)
    ensures ApplyAll(l, [c]) == Apply(l, c) && ApplyAll(l, []) == l
  {
    assert [c][..0] == [];
  }

  lemma RequestEntry(l: Ledger, q: Request, a: Account)
    requires Accepted(q) && WellFormed(Route(q))
    ensures SupplierOf(ApplyAll(l, Calls(l, Route(q))), a) == EntryAfter(SupplierOf(l, a), q, a)
  {
    var calls := Calls(l, Route(q));
    match q
    case PortGrantMulti(roles, accounts, amounts) =>
      AllGrantsEntry(l, roles, accounts, Formatted(amounts), a);
      if CashIn in roles && a in accounts {
        FormattingKeepsLimits(accounts, amounts, a);
      }
    case PortRevokeMulti(roles, accounts) => AllRevokesEntry(l, roles, accounts, a);
    case _ =>
      if calls == [] {
        OneCall(l, SetAmount(a, 0));
      } else {
        OneCall(l, calls[0]);
        assert calls == [calls[0]];
      }
  }

  // ---------- roles ----------

  ghost predicate Tidy(l: Ledger, a: Account) {
    NoDup(RolesOf(l, a))
  }

  lemma CallOnRole(l: Ledger, c: Call, a: Account, r: Role)
    requires Tidy(l, a)
    ensures Tidy(Apply(l, c), a)
    ensures HasRole(Apply(l, c), a, r) <==> Gives(c, a, r) || (HasRole(l, a, r) && !Takes(l, c, a, r))
  {
    CallOnRoles(l, c, a);
    CallOnHolder(l, c, a, r);
  }

  lemma GrantOnRole(l: Ledger, c: Call, role: Role, b: Account, a: Account, r: Role)
    requires Tidy(l, a) && (c == Grant(b, role) || (role == CashIn && c.GrantSupplier? && c.account == b))
    ensures Tidy(Apply(l, c), a) && (HasRole(Apply(l, c), a, r) <==> HasRole(l, a, r) || (role == r && a == b))
  {
    CallOnRole(l, c, a, r);
  }

  lemma RevokeOnRole(l: Ledger, c: Call, role: Role, b: Account, a: Account, r: Role)
    requires Tidy(l, a) && (c == Revoke(b, role) || (role == CashIn && c == RevokeSupplier(b)))
    ensures Tidy(Apply(l, c), a) && (HasRole(Apply(l, c), a, r) <==> HasRole(l, a, r) && !(role == r && a == b))
  {
    CallOnRole(l, c, a, r);
  }

  lemma InPrefix(accounts: seq<Account>, a: Account, n: nat)
    requires 0 < n <= |accounts|
    ensures a in accounts[..n] <==> a in accounts[..n - 1] || a == accounts[n - 1]
  {
    assert accounts[..n] == accounts[..n - 1] + [accounts[n - 1]];
  }

  lemma PrefixRun(l: Ledger, calls: seq<Call>, n: nat)
    requires 0 < n <= |calls|
    ensures ApplyAll(l, calls[..n]) == Apply(ApplyAll(l, calls[..n - 1]), calls[n - 1])
  {
    assert calls[..n][..n - 1] == calls[..n - 1];
  }

  lemma {:induction false} BulkGrantRole(l: Ledger, role: Role, accounts: seq<Account>, amounts: seq<int>, a: Account,
                                         r: Role, n: nat)
    requires Tidy(l, a) && (role == CashIn ==> |amounts| >= |accounts|) && n <= |accounts|
    ensures var after := ApplyAll(l, GrantCalls(role, accounts, amounts)[..n]);
            Tidy(after, a) && (HasRole(after, a, r) <==> HasRole(l, a, r) || (role == r && a in accounts[..n]))
  {
    if n > 0 {
      BulkGrantRole(l, role, accounts, amounts, a, r, n - 1);
      var calls := GrantCalls(role, accounts, amounts);
      PrefixRun(l, calls, n);
      InPrefix(accounts, a, n);
      GrantOnRole(ApplyAll(l, calls[..n - 1]), calls[n - 1], role, accounts[n - 1], a, r);
    }
  }

  lemma {:induction false} BulkRevokeRole(l: Ledger, role: Role, accounts: seq<Account>, a: Account, r: Role, n: nat)
    requires Tidy(l, a) && n <= |accounts|
    ensures var after := ApplyAll(l, RevokeCalls(role, accounts)[..n]);
            Tidy(after, a) && (HasRole(after, a, r) <==> HasRole(l, a, r) && !(role == r && a in accounts[..n]))
  {
    if n > 0 {
      BulkRevokeRole(l, role, accounts, a, r, n - 1);
      var calls := RevokeCalls(role, accounts);
      PrefixRun(l, calls, n);
      InPrefix(accounts, a, n);
      RevokeOnRole(ApplyAll(l, calls[..n - 1]), calls[n - 1], role, accounts[n - 1], a, r);
    }
  }

  lemma {:induction false} AllGrantsRole(l: Ledger, roles: seq<Role>, accounts: seq<Account>, amounts: seq<int>,
                                         a: Account, r: Role)
    requires Tidy(l, a) && (CashIn in roles ==> |amounts| >= |accounts|)
    ensures var after := ApplyAll(l, AllGrantCalls(roles, accounts, amounts));
            Tidy(after, a) && (HasRole(after, a, r) <==> HasRole(l, a, r) || (r in roles && a in accounts))
  {
    if roles != [] {
      var front, last := roles[..|roles| - 1], roles[|roles| - 1];
      assert roles == front + [last];
      AllGrantsRole(l, front, accounts, amounts, a, r);
      var before, calls := AllGrantCalls(front, accounts, amounts), GrantCalls(last, accounts, amounts);
      ApplyConcat(l, before, calls);
      BulkGrantRole(ApplyAll(l, before), last, accounts, amounts, a, r, |accounts|);
      assert calls[..|accounts|] == calls && accounts[..|accounts|] == accounts;
    }
  }

  lemma {:induction false} AllRevokesRole(l: Ledger, roles: seq<Role>, accounts: seq<Account>, a: Account, r: Role)
    requires Tidy(l, a)
    ensures var after := ApplyAll(l, AllRevokeCalls(roles, accounts));
            Tidy(after, a) && (HasRole(after, a, r) <==> HasRole(l, a, r) && !(r in roles && a in accounts))
  {
    if roles != [] {
      var front, last := roles[..|roles| - 1], roles[|roles| - 1];
      assert roles == front + [last];
      AllRevokesRole(l, front, accounts, a, r);
      var before, calls := AllRevokeCalls(front, accounts), RevokeCalls(last, accounts);
      ApplyConcat(l, before, calls);
      BulkRevokeRole(ApplyAll(l, before), last, accounts, a, r, |accounts|);
      assert calls[..|accounts|] == calls && accounts[..|accounts|] == accounts;
    }
  }

  lemma RequestRole(l: Ledger, q: Request, a: Account, r: Role)
    requires Accepted(q) && WellFormed(Route(q)) && Tidy(l, a) && (HasRole(l, a, CashIn) <==> a in l.suppliers)
    ensures HasRole(ApplyAll(l, Calls(l, Route(q))), a, r) <==> RoleAfter(HasRole(l, a, r), q, a, r)
  {
    match q
    case PortGrantMulti(roles, accounts, amounts) => AllGrantsRole(l, roles, accounts, Formatted(amounts), a, r);
    case PortRevokeMulti(roles, accounts) => AllRevokesRole(l, roles, accounts, a, r);
    case PortIncrease(b, amount) => IncreaseRole(l, b, amount, a, r);
    case PortGrant(_, _, _, _) => GrantOrRevoke(l, q, a, r);
    case PortRevoke(_, _) => GrantOrRevoke(l, q, a, r);
    case _ => ResetOrDecrease(l, q, a, r);
  }

  lemma AmountOnRole(l: Ledger, b: Account, amount: int, a: Account, r: Role)
    ensures HasRole(Apply(l, SetAmount(b, amount)), a, r) <==> HasRole(l, a, r)
  {
  }

  lemma GrantOrRevoke(l: Ledger, q: Request, a: Account, r: Role)
    requires (q.PortGrant? || q.PortRevoke?) && Tidy(l, a)
    ensures HasRole(ApplyAll(l, Calls(l, Route(q))), a, r) <==> RoleAfter(HasRole(l, a, r), q, a, r)
  {
    var c := Calls(l, Route(q))[0];
    OneCall(l, c);
    if q.PortGrant? {
      GrantOnRole(l, c, q.role, q.account, a, r);
    } else {
      RevokeOnRole(l, c, q.role, q.account, a, r);
    }
  }

  lemma IncreaseCall(l: Ledger, b: Account, amount: int) returns (c: Call)
    ensures Calls(l, IncreaseAllowance(b, amount)) == [c]
    ensures if b in l.suppliers then c.SetAmount? && c.account == b else c == GrantSupplier(b, Allowance(false, amount))
  {
    c := if b in l.suppliers then SetAmount(b, l.suppliers[b].amount + amount)
         else GrantSupplier(b, Allowance(false, amount));
  }

  lemma IncreaseRole(l: Ledger, b: Account, amount: int, a: Account, r: Role)
    requires Tidy(l, a) && (HasRole(l, a, CashIn) <==> a in l.suppliers)
    ensures var calls := Calls(l, IncreaseAllowance(b, amount));
            HasRole(ApplyAll(l, calls), a, r) <==> HasRole(l, a, r) || (r == CashIn && a == b)
  {
    var c := IncreaseCall(l, b, amount);
    OneCall(l, c);
    if b in l.suppliers {
      AmountOnRole(l, b, c.amount, a, r);
    } else {
      GrantOnRole(l, c, CashIn, b, a, r);
    }
  }

  lemma ResetOrDecrease(l: Ledger, q: Request, a: Account, r: Role)
    requires q.PortReset? || q.PortDecrease?
    ensures HasRole(ApplyAll(l, Calls(l, Route(q))), a, r) <==> HasRole(l, a, r)
  {
    var calls := Calls(l, Route(q));
    if calls == [] {
      OneCall(l, SetAmount(a, 0));
    } else {
      OneCall(l, calls[0]);
      AmountOnRole(l, calls[0].account, calls[0].amount, a, r);
    }
  }

  // ---------- whole runs ----------

  lemma RunAppends(requests: seq<Request>)
    requires requests != [] && AllWellFormed(RouteAll(requests))
    ensures var front, q := requests[..|requests| - 1], requests[|requests| - 1];
            && AllWellFormed(RouteAll(front)) && WellFormed(Route(q))
            && var l := Run(RouteAll(front)); Run(RouteAll(requests)) == ApplyAll(l, Calls(l, Route(q)))
  {
    var front, q := requests[..|requests| - 1], requests[|requests| - 1];
    var events := RouteAll(requests);
    assert events[..|events| - 1] == RouteAll(front) && events[|events| - 1] == Route(q);
    assert events[|events| - 1] in events;
    forall e | e in RouteAll(front) ensures e in events { }
    ApplyConcat(EMPTY, CallsOf(RouteAll(front)), Calls(Run(RouteAll(front)), Route(q)));
  }

  /** After any accepted requests, an account's supplier entry and roles are what the requests that concern it
      come to, one after the other: limited or unlimited as granted, with the amounts as granted, raised, lowered
      or reset, until the role is revoked. */
  lemma {:induction false} PortLaw(requests: seq<Request>, a: Account, r: Role)
    requires forall q :: q in requests ==> Accepted(q)
    ensures AllWellFormed(RouteAll(requests))
    ensures var l := Run(RouteAll(requests));
            SupplierOf(l, a) == EntryAfterAll(requests, a) && (HasRole(l, a, r) <==> RoleAfterAll(requests, a, r))
  {
    RoutedEventsAreWellFormed(requests);
    if requests != [] {
      var front, q := requests[..|requests| - 1], requests[|requests| - 1];
      forall p | p in front ensures p in requests { }
      PortLaw(front, a, r);
      PortCallsRouted(front);
      RoutedCallsKeepSuppliers(EMPTY, CallsOf(RouteAll(front)));
      RunAppends(requests);
      assert Accepted(q);
      RequestEntry(Run(RouteAll(front)), q, a);
      RequestRole(Run(RouteAll(front)), q, a, r);
    }
  }
}
