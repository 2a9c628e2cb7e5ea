/** Roles, the reverse role index and supplier allowances of the same in-memory ledger, with the routing
    the SDK's role port puts in front of them. */
module RoleLedger {
  import opened Collections

  type Account = nat

  datatype Role =
    | Admin | CashIn | BurnRole | WipeRole | RescueRole | PauseRole
    | FreezeRole | DeleteRole | WithoutRole | KycRole | CustomFees | HoldCreator

  datatype Allowance = Allowance(isUnlimited: bool, amount: int)

  datatype Ledger = Ledger(
    roles: map<Account, seq<Role>>,
    accountsWithRoles: map<Role, seq<Account>>,
    suppliers: map<Account, Allowance>)

  const EMPTY := Ledger(map[], map[], map[])
  const UINT256_MAX: int := 0x1_0000000000000000_0000000000000000_0000000000000000_0000000000000000 - 1

  // ---------- queries ----------

  function RolesOf(l: Ledger, a: Account): seq<Role> {
    if a in l.roles then l.roles[a] else []
  }

  function AccountsWith(l: Ledger, r: Role): seq<Account> {
    if r in l.accountsWithRoles then l.accountsWithRoles[r] else []
  }

  predicate HasRole(l: Ledger, a: Account, r: Role) {
    r in RolesOf(l, a)
  }

  predicate IsUnlimited(l: Ledger, a: Account) {
    a in l.suppliers && l.suppliers[a].isUnlimited
  }

  /** The ledger's own answer. */
  predicate IsLimited(l: Ledger, a: Account) {
    a in l.suppliers && !l.suppliers[a].isUnlimited
  }

  /** The role port's answer: two queries. */
  predicate PortIsLimited(l: Ledger, a: Account) {
    HasRole(l, a, CashIn) && !IsUnlimited(l, a)
  }

  // ---------- the ledger's functions ----------

  /** One call of a ledger function; the bulk operations are sequences of these. */
  datatype Call =
    | Grant(account: Account, role: Role)
    | Revoke(account: Account, role: Role)
    | GrantSupplier(account: Account, allowance: Allowance)
    | RevokeSupplier(account: Account)
    | SetAmount(account: Account, amount: int)

  function Added<T(==)>(s: seq<T>, x: T): seq<T> {
    if x in s then s else s + [x]
  }

  function Granted(l: Ledger, a: Account, r: Role): Ledger {
    l.(roles := l.roles[a := Added(RolesOf(l, a), r)],
       accountsWithRoles := l.accountsWithRoles[r := Added(AccountsWith(l, r), a)])
  }

  function Removed(s: seq<Role>, r: Role): seq<Role> {
    if s == [] then []
    else
      var rest := Removed(s[..|s| - 1], r);
      if s[|s| - 1] == r then rest else rest + [s[|s| - 1]]
  }

  /** The account leaves the role's own list; its place in the reverse list stays, because the filtered copy
      of that list is not stored. */
  function Revoked(l: Ledger, a: Account, r: Role): Ledger {
    if r in RolesOf(l, a) then l.(roles := l.roles[a := Removed(l.roles[a], r)]) else l
  }

  function Apply(l: Ledger, c: Call): Ledger {
    match c
    case Grant(a, r) => Granted(l, a, r)
    case Revoke(a, r) => Revoked(l, a, r)
    case GrantSupplier(a, allowance) =>
      var granted := Granted(l, a, CashIn);
      granted.(suppliers := granted.suppliers[a := allowance])
    case RevokeSupplier(a) =>
      var revoked := Revoked(l, a, CashIn);
      revoked.(suppliers := revoked.suppliers - {a})
    case SetAmount(a, amount) =>
      if a in l.suppliers then l.(suppliers := l.suppliers[a := l.suppliers[a].(amount := amount)]) else l
  }

  function ApplyAll(l: Ledger, calls: seq<Call>): Ledger {
    if calls == [] then l else Apply(ApplyAll(l, calls[..|calls| - 1]), calls[|calls| - 1])
  }

  // ---------- the contract calls ----------

  datatype Event =
    | GrantRole(account: Account, role: Role)
    | RevokeRole(account: Account, role: Role)
    | GrantRoles(roles: seq<Role>, accounts: seq<Account>, amounts: seq<int>)
    | RevokeRoles(roles: seq<Role>, accounts: seq<Account>)
    | GrantSupplierRole(account: Account, amount: int)
    | GrantUnlimitedSupplierRole(account: Account)
    | RevokeSupplierRole(account: Account)
    | ResetAllowance(account: Account)
    | IncreaseAllowance(account: Account, amount: int)
    | DecreaseAllowance(account: Account, amount: int)

  /** A bulk grant of the supplier role brings one amount for each account. */
  predicate WellFormed(e: Event) {
    e.GrantRoles? && CashIn in e.roles ==> |e.amounts| >= |e.accounts|
  }

  function BulkAllowance(amount: int): Allowance {
    if amount == UINT256_MAX || amount == 0 then Allowance(true, 0) else Allowance(false, amount)
  }

  function GrantCalls(role: Role, accounts: seq<Account>, amounts: seq<int>): seq<Call>
    requires role == CashIn ==> |amounts| >= |accounts|
  {
    seq(|accounts|, i requires 0 <= i < |accounts| =>
      if role == CashIn then GrantSupplier(accounts[i], BulkAllowance(amounts[i])) else Grant(accounts[i], role))
  }

  function RevokeCalls(role: Role, accounts: seq<Account>): seq<Call> {
    seq(|accounts|, i requires 0 <= i < |accounts| =>
      if role == CashIn then RevokeSupplier(accounts[i]) else Revoke(accounts[i], role))
  }

  function AllGrantCalls(roles: seq<Role>, accounts: seq<Account>, amounts: seq<int>): seq<Call>
    requires CashIn in roles ==> |amounts| >= |accounts|
  {
    if roles == [] then []
    else AllGrantCalls(roles[..|roles| - 1], accounts, amounts) + GrantCalls(roles[|roles| - 1], accounts, amounts)
  }

  function AllRevokeCalls(roles: seq<Role>, accounts: seq<Account>): seq<Call> {
    if roles == [] then []
    else AllRevokeCalls(roles[..|roles| - 1], accounts) + RevokeCalls(roles[|roles| - 1], accounts)
  }

  function Calls(l: Ledger, e: Event): seq<Call>
    requires WellFormed(e)
  {
    match e
    case GrantRole(a, r) => [Grant(a, r)]
    case RevokeRole(a, r) => [Revoke(a, r)]
    case GrantRoles(roles, accounts, amounts) => AllGrantCalls(roles, accounts, amounts)
    case RevokeRoles(roles, accounts) => AllRevokeCalls(roles, accounts)
    case GrantSupplierRole(a, amount) => [GrantSupplier(a, Allowance(false, amount))]
    case GrantUnlimitedSupplierRole(a) => [GrantSupplier(a, Allowance(true, 0))]
    case RevokeSupplierRole(a) => [RevokeSupplier(a)]
    case ResetAllowance(a) => [SetAmount(a, 0)]
    case IncreaseAllowance(a, amount) =>
      if a in l.suppliers then [SetAmount(a, l.suppliers[a].amount + amount)]
          else [GrantSupplier(a, Allowance(false, amount))]
    case DecreaseAllowance(a, amount) =>
      if a in l.suppliers then [SetAmount(a, l.suppliers[a].amount - amount)] else []
  }

  ghost predicate AllWellFormed(events: seq<Event>) {
    forall e :: e in events ==> WellFormed(e)
  }

  /** All ledger calls of a run, in order. */
  function CallsOf(events: seq<Event>): seq<Call>
    requires AllWellFormed(events)
  {
    if events == [] then []
    else
      var before := CallsOf(events[..|events| - 1]);
      before + Calls(ApplyAll(EMPTY, before), events[|events| - 1])
  }

  function Run(events: seq<Event>): Ledger
    requires AllWellFormed(events)
  {
    ApplyAll(EMPTY, CallsOf(events))
  }

  lemma {:induction false} ApplyConcat(l: Ledger, a: seq<Call>, b: seq<Call>)
    ensures ApplyAll(l, a + b) == ApplyAll(ApplyAll(l, a), b)
  {
    if b == [] {
      assert a + b == a;
    } else {
      assert (a + b)[..|a + b| - 1] == a + b[..|b| - 1];
      ApplyConcat(l, a, b[..|b| - 1]);
    }
  }

  // ---------- role indexes ----------

  /** The accounts a run of calls has ever granted the role, in the order of the grants. */
  function GrantedAccounts(calls: seq<Call>, r: Role): seq<Account> {
    if calls == [] then []
    else
      var rest := GrantedAccounts(calls[..|calls| - 1], r);
      match calls[|calls| - 1]
      case Grant(a, role) => if role == r then rest + [a] else rest
      case GrantSupplier(a, _) => if r == CashIn then rest + [a] else rest
      case _ => rest
  }

  ghost predicate IndexesAgree(l: Ledger, calls: seq<Call>) {
    && (forall a :: NoDup(RolesOf(l, a)))
    && (forall r :: AccountsWith(l, r) == Distinct(GrantedAccounts(calls, r)))
    && (forall a, r :: HasRole(l, a, r) ==> a in AccountsWith(l, r))
  }

  lemma {:induction false} RemovedDropsOnly(s: seq<Role>, r: Role)
    requires NoDup(s)
    ensures NoDup(Removed(s, r))
    ensures forall x :: x in Removed(s, r) <==> x in s && x != r
  {
    if s != [] {
      var front, last := s[..|s| - 1], s[|s| - 1];
      RemovedDropsOnly(front, r);
      assert s == front + [last] && last !in front;
      var rest := Removed(front, r);
      assert forall k :: 0 <= k < |rest| ==> rest[k] in rest && rest[k] in front;
    }
  }

  /** What a grant or a revocation does to the role lists of every account. */
  lemma CallOnRoles(l: Ledger, c: Call, a: Account)
    requires NoDup(RolesOf(l, a))
    ensures NoDup(RolesOf(Apply(l, c), a))
    ensures forall r :: HasRole(Apply(l, c), a, r) <==>
              (HasRole(l, a, r) && !(c == Revoke(a, r)) && !(c == RevokeSupplier(a) && r == CashIn))
              || c == Grant(a, r) || (c.GrantSupplier? && c.account == a && r == CashIn)
  {
    if c.account == a && (c.Revoke? || c.RevokeSupplier?) {
      RemovedDropsOnly(RolesOf(l, a), if c.Revoke? then c.role else CashIn);
    }
  }

  lemma DistinctAppends(s: seq<Account>, a: Account)
    ensures Distinct(s + [a]) == Added(Distinct(s), a)
  {
    assert (s + [a])[..|s|] == s;
  }

  lemma CallOnReverseIndex(l: Ledger, calls: seq<Call>, c: Call, r: Role)
    requires AccountsWith(l, r) == Distinct(GrantedAccounts(calls, r))
    ensures AccountsWith(Apply(l, c), r) == Distinct(GrantedAccounts(calls + [c], r))
  {
    assert (calls + [c])[..|calls|] == calls;
    var before := GrantedAccounts(calls, r);
    if c == Grant(c.account, r) || (c.GrantSupplier? && r == CashIn) {
      DistinctAppends(before, c.account);
      assert GrantedAccounts(calls + [c], r) == before + [c.account];
    } else {
      assert GrantedAccounts(calls + [c], r) == before;
    }
  }

  lemma {:induction false} IndexesAgreeAfter(calls: seq<Call>)
    ensures IndexesAgree(ApplyAll(EMPTY, calls), calls)
  {
    if calls != [] {
      var front, c := calls[..|calls| - 1], calls[|calls| - 1];
      IndexesAgreeAfter(front);
      var l := ApplyAll(EMPTY, front);
      assert calls == front + [c];
      forall r ensures AccountsWith(Apply(l, c), r) == Distinct(GrantedAccounts(calls, r)) {
        CallOnReverseIndex(l, front, c, r);
      }
      forall a ensures NoDup(RolesOf(Apply(l, c), a)) {
        CallOnRoles(l, c, a);
      }
      forall a, r | HasRole(Apply(l, c), a, r) ensures a in AccountsWith(Apply(l, c), r) {
        CallOnRoles(l, c, a);
      }
    }
  }

  /** In every run: role lists and reverse lists never repeat an entry, every holder of a role is in its
      reverse list, and that list is exactly the accounts ever granted the role, in order of first grant. */
  lemma RoleIndexes(events: seq<Event>)
    requires AllWellFormed(events)
    ensures var l := Run(events);
            && (forall a :: NoDup(RolesOf(l, a)))
            && (forall r :: NoDup(AccountsWith(l, r)))
            && (forall a, r :: HasRole(l, a, r) ==> a in AccountsWith(l, r))
            && (forall r :: AccountsWith(l, r) == Distinct(GrantedAccounts(CallsOf(events), r)))
  {
    IndexesAgreeAfter(CallsOf(events));
    forall r ensures NoDup(AccountsWith(Run(events), r)) {
      DistinctKeepsFirsts(GrantedAccounts(CallsOf(events), r));
    }
  }

  /** The reverse list holds the current holders and nobody else. */
  ghost predicate Current(l: Ledger, r: Role) {
    forall a :: a in AccountsWith(l, r) <==> HasRole(l, a, r)
  }

  predicate Gives(c: Call, a: Account, r: Role) {
    c == Grant(a, r) || (c.GrantSupplier? && c.account == a && r == CashIn)
  }

  /** The call revokes the role from an account that has it. */
  predicate Takes(l: Ledger, c: Call, a: Account, r: Role) {
    HasRole(l, a, r) && (c == Revoke(a, r) || (c == RevokeSupplier(a) && r == CashIn))
  }

  /** What one call changes about one account and one role. */
  lemma CallOnHolder(l: Ledger, c: Call, a: Account, r: Role)
    requires NoDup(RolesOf(l, a))
    ensures HasRole(Apply(l, c), a, r) <==> Gives(c, a, r) || (HasRole(l, a, r) && !Takes(l, c, a, r))
    ensures a in AccountsWith(Apply(l, c), r) <==> Gives(c, a, r) || a in AccountsWith(l, r)
  {
    CallOnRoles(l, c, a);
    CallOnAccounts(l, c, a, r);
  }

  lemma CallOnAccounts(l: Ledger, c: Call, a: Account, r: Role)
    ensures a in AccountsWith(Apply(l, c), r) <==> Gives(c, a, r) || a in AccountsWith(l, r)
  {
  }

  ghost predicate TakesNobody(l: Ledger, c: Call, r: Role) {
    forall a :: !Takes(l, c, a, r)
  }

  /** A call keeps a current reverse list current exactly when it does not revoke the role from a holder: that is
      the branch whose filtered list is thrown away. */
  lemma CallKeepsCurrentIff(l: Ledger, c: Call, r: Role)
    requires Current(l, r) && forall a :: NoDup(RolesOf(l, a))
    ensures Current(Apply(l, c), r) <==> TakesNobody(l, c, r)
  {
    var after := Apply(l, c);
    if TakesNobody(l, c, r) {
      forall a ensures a in AccountsWith(after, r) <==> HasRole(after, a, r) {
        CallOnHolder(l, c, a, r);
      }
    } else {
      var a :| Takes(l, c, a, r);
      CallOnHolder(l, c, a, r);
      assert a in AccountsWith(after, r) && !HasRole(after, a, r);
    }
  }

  /** The last call that gave the role to the account or took it away took it away. */
  predicate LastTakenAway(calls: seq<Call>, a: Account, r: Role) {
    if calls == [] then false
    else
      var front, c := calls[..|calls| - 1], calls[|calls| - 1];
      !Gives(c, a, r) && (Takes(ApplyAll(EMPTY, front), c, a, r) || LastTakenAway(front, a, r))
  }

  /** The accounts that are in the reverse list without having the role are exactly those. */
  lemma {:induction false} StaleIffTakenAway(calls: seq<Call>, a: Account, r: Role)
    ensures var l := ApplyAll(EMPTY, calls); a in AccountsWith(l, r) && !HasRole(l, a, r) <==>
        LastTakenAway(calls, a, r)
  {
    if calls != [] {
      var front := calls[..|calls| - 1];
      StaleIffTakenAway(front, a, r);
      IndexesAgreeAfter(front);
      CallOnHolder(ApplyAll(EMPTY, front), calls[|calls| - 1], a, r);
    }
  }

  ghost predicate NobodyLost(calls: seq<Call>, r: Role) {
    forall a :: !LastTakenAway(calls, a, r)
  }

  lemma HolderIsListed(calls: seq<Call>, a: Account, r: Role)
    requires HasRole(ApplyAll(EMPTY, calls), a, r)
    ensures a in AccountsWith(ApplyAll(EMPTY, calls), r)
  {
    IndexesAgreeAfter(calls);
  }

  /** At the end of a run the reverse list is the list of current holders exactly when nobody's role was taken
      away without being given again later. */
  lemma ReverseListIsCurrentIff(events: seq<Event>, r: Role)
    requires AllWellFormed(events)
    ensures Current(Run(events), r) <==> NobodyLost(CallsOf(events), r)
  {
    var calls := CallsOf(events);
    var l := ApplyAll(EMPTY, calls);
    if Current(l, r) {
      forall a ensures !LastTakenAway(calls, a, r) {
        StaleIffTakenAway(calls, a, r);
      }
    } else {
      var a :| !(a in AccountsWith(l, r) <==> HasRole(l, a, r));
      StaleIffTakenAway(calls, a, r);
      if HasRole(l, a, r) {
        HolderIsListed(calls, a, r);
      }
      assert LastTakenAway(calls, a, r);
    }
  }

  // ---------- the role port ----------

  datatype SupplierType = Limited | Unlimited

  datatype Request =
    | PortGrant(role: Role, account: Account, supplierType: SupplierType, amount: int)
    | PortRevoke(role: Role, account: Account)
    | PortGrantMulti(roles: seq<Role>, accounts: seq<Account>, amounts: seq<int>)
    | PortRevokeMulti(roles: seq<Role>, accounts: seq<Account>)
    | PortReset(account: Account)
    | PortIncrease(account: Account, amount: int)
    | PortDecrease(account: Account, amount: int)

  /** A bulk grant is refused when a list is empty or repeats an entry, or when the supplier role is among
      the roles and the amounts do not match the accounts. */
  ghost predicate Accepted(q: Request) {
    match q
    case PortGrantMulti(roles, accounts, amounts) =>
      && roles != [] && accounts != [] && NoDup(roles) && NoDup(accounts)
      && (CashIn in roles ==> |amounts| == |accounts| && forall i :: 0 <= i < |amounts| ==> amounts[i] >= 0)
    case _ => true
  }

  /** Amounts of a bulk grant are sent on as they are when positive and as "unlimited" otherwise. */
  function Formatted(amounts: seq<int>): seq<int> {
    seq(|amounts|, i requires 0 <= i < |amounts| => if amounts[i] > 0 then amounts[i] else UINT256_MAX)
  }

  /** The supplier role goes through the supplier functions, every other role through the plain ones. */
  function Route(q: Request): Event {
    match q
    case PortGrant(role, account, supplierType, amount) =>
      if role == CashIn then
        if supplierType == Limited then GrantSupplierRole(account, amount) else GrantUnlimitedSupplierRole(account)
      else GrantRole(account, role)
    case PortRevoke(role, account) => if role == CashIn then RevokeSupplierRole(account) else RevokeRole(account, role)
    case PortGrantMulti(roles, accounts, amounts) => GrantRoles(roles, accounts, Formatted(amounts))
    case PortRevokeMulti(roles, accounts) => RevokeRoles(roles, accounts)
    case PortReset(account) => ResetAllowance(account)
    case PortIncrease(account, amount) => IncreaseAllowance(account, amount)
    case PortDecrease(account, amount) => DecreaseAllowance(account, amount)
  }

  // ---------- suppliers and roles ----------

  ghost predicate SuppliersAgree(l: Ledger) {
    && (forall a :: NoDup(RolesOf(l, a)))
    && (forall a :: HasRole(l, a, CashIn) <==> a in l.suppliers)
  }

  /** A plain grant or revocation that does not mention the supplier role. */
  predicate Routed(c: Call) {
    (c.Grant? || c.Revoke?) ==> c.role != CashIn
  }

  /** One ledger call keeps supplier entries and the supplier role in step exactly when it is not a plain
      grant of that role to a non-supplier or a plain revocation of it from a supplier. */
  lemma CallKeepsSuppliersIff(l: Ledger, c: Call)
    requires SuppliersAgree(l)
    ensures SuppliersAgree(Apply(l, c)) <==>
            !(c.Grant? && c.role == CashIn && c.account !in l.suppliers)
                && !(c.Revoke? && c.role == CashIn && c.account in l.suppliers)
  {
    forall a ensures NoDup(RolesOf(Apply(l, c), a)) {
      CallOnRoles(l, c, a);
    }
    forall a
      ensures (HasRole(Apply(l, c), a, CashIn) <==> a in Apply(l, c).suppliers) <==>
              !(c == Grant(a, CashIn) && a !in l.suppliers) && !(c == Revoke(a, CashIn) && a in l.suppliers)
    {
      CallOnRoles(l, c, a);
    }
  }

  lemma {:induction false} RoutedCallsKeepSuppliers(l: Ledger, calls: seq<Call>)
    requires SuppliersAgree(l) && forall c :: c in calls ==> Routed(c)
    ensures SuppliersAgree(ApplyAll(l, calls))
  {
    if calls != [] {
      assert calls[|calls| - 1] in calls;
      forall c | c in calls[..|calls| - 1] ensures c in calls { }
      RoutedCallsKeepSuppliers(l, calls[..|calls| - 1]);
      CallKeepsSuppliersIff(ApplyAll(l, calls[..|calls| - 1]), calls[|calls| - 1]);
    }
  }

  function RouteAll(requests: seq<Request>): seq<Event> {
    seq(|requests|, i requires 0 <= i < |requests| => Route(requests[i]))
  }

  lemma RoutedEventsAreWellFormed(requests: seq<Request>)
    requires forall q :: q in requests ==> Accepted(q)
    ensures AllWellFormed(RouteAll(requests))
  {
    forall e | e in RouteAll(requests) ensures WellFormed(e) {
      var i :| 0 <= i < |requests| && e == Route(requests[i]);
      assert Accepted(requests[i]);
    }
  }

  lemma {:induction false} BulkCallsRouted(roles: seq<Role>, accounts: seq<Account>, amounts: seq<int>)
    requires CashIn in roles ==> |amounts| >= |accounts|
    ensures forall c :: c in AllGrantCalls(roles, accounts, amounts) ==> Routed(c)
    ensures forall c :: c in AllRevokeCalls(roles, accounts) ==> Routed(c)
  {
    if roles != [] {
      BulkCallsRouted(roles[..|roles| - 1], accounts, amounts);
    }
  }

  lemma RouteCallsRouted(l: Ledger, q: Request)
    requires Accepted(q)
    ensures WellFormed(Route(q)) && forall c :: c in Calls(l, Route(q)) ==> Routed(c)
  {
    match q
    case PortGrantMulti(roles, accounts, amounts) => BulkCallsRouted(roles, accounts, Formatted(amounts));
    case PortRevokeMulti(roles, accounts) => BulkCallsRouted(roles, accounts, seq(|accounts|, i => 0));
    case _ =>
  }

  lemma {:induction false} PortCallsRouted(requests: seq<Request>)
    requires forall q :: q in requests ==> Accepted(q)
    ensures AllWellFormed(RouteAll(requests)) && forall c :: c in CallsOf(RouteAll(requests)) ==> Routed(c)
  {
    RoutedEventsAreWellFormed(requests);
    if requests != [] {
      var front, last := requests[..|requests| - 1], requests[|requests| - 1];
      PortCallsRouted(front);
      assert RouteAll(requests)[..|requests| - 1] == RouteAll(front);
      RouteCallsRouted(ApplyAll(EMPTY, CallsOf(RouteAll(front))), last);
    }
  }

  /** Whatever goes through the role port, bulk requests included: an account has the supplier role exactly
      when it has a supplier entry, a holder is limited or unlimited and never both, and the port's two-query
      answer is the ledger's own. */
  lemma PortKeepsSuppliersAndRoles(requests: seq<Request>, a: Account)
    requires forall q :: q in requests ==> Accepted(q)
    ensures AllWellFormed(RouteAll(requests))
    ensures var l := Run(RouteAll(requests));
            && (HasRole(l, a, CashIn) <==> a in l.suppliers)
            && (HasRole(l, a, CashIn) <==> IsLimited(l, a) || IsUnlimited(l, a))
            && !(IsLimited(l, a) && IsUnlimited(l, a))
            && (PortIsLimited(l, a) <==> IsLimited(l, a))
  {
    PortCallsRouted(requests);
    RoutedCallsKeepSuppliers(EMPTY, CallsOf(RouteAll(requests)));
  }
}
