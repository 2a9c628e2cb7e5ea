/** What an account may do with a coin, and through which door: the capability list, the first-match lookup
    in it, and the table the two together implement. */
module Capabilities {
  import opened Collections

  datatype Operation =
    | CASH_IN | BURN | WIPE | FREEZE | UNFREEZE | PAUSE | UNPAUSE | DELETE | RESCUE | RESCUE_HBAR
    | ROLE_MANAGEMENT | ROLE_ADMIN_MANAGEMENT | RESERVE_MANAGEMENT
    | UPDATE_CONFIG_VERSION | UPDATE_CONFIG | UPDATE_RESOLVER
    | CREATE_HOLD | CONTROLLER_CREATE_HOLD | RELEASE_HOLD | EXECUTE_HOLD | RECLAIM_HOLD
    | GRANT_KYC | REVOKE_KYC | CREATE_CUSTOM_FEE | REMOVE_CUSTOM_FEE | TRANSFERS | UPDATE

  datatype Access = HTS | CONTRACT
  datatype Decision = FORBIDDEN | VIA_HTS | VIA_CONTRACT
  datatype Capability = Capability(operation: Operation, access: Access)

  /** A coin's keys are public keys or entity ids, never both. */
  datatype Key = PublicKey(key: string, keyType: string) | HederaId(id: string)

  datatype StableCoin = StableCoin(
    treasury: Option<string>,
    supplyKey: Option<Key>, wipeKey: Option<Key>, pauseKey: Option<Key>, freezeKey: Option<Key>,
    adminKey: Option<Key>, kycKey: Option<Key>, feeScheduleKey: Option<Key>,
    customFees: Option<nat>,
    paused: bool, deleted: bool)

  /** The account's public key, if it has one. */
  type AccountKey = Option<string>

  const MAX_CUSTOM_FEES := 10

  function Printed(key: Option<Key>): Option<string> {
    match key
    case None => None
    case Some(PublicKey(k, t)) => Some("{\"key\":\"" + k + "\",\"_type\":\"" + t + "\"}")
    case Some(HederaId(id)) => Some(id)
  }

  predicate IsPublicKey(key: Option<Key>) {
    key.Some? && key.value.PublicKey?
  }

  predicate IsEntity(key: Option<Key>) {
    key.Some? && key.value.HederaId?
  }

  predicate Owns(account: AccountKey, key: Option<Key>) {
    IsPublicKey(key) && Some(key.value.key) == account
  }

  predicate Overridden(override: Option<bool>, own: bool) {
    if override.Some? then override.value else own
  }

  predicate Deleted(coin: StableCoin, tokenIsDeleted: Option<bool>) {
    Overridden(tokenIsDeleted, coin.deleted)
  }

  predicate Operable(coin: StableCoin, tokenIsPaused: Option<bool>, tokenIsDeleted: Option<bool>) {
    !Deleted(coin, tokenIsDeleted) && !Overridden(tokenIsPaused, coin.paused)
  }

  // ---------- lookup ----------

  function Find(caps: seq<Capability>, op: Operation): Option<Capability> {
    if caps == [] then None else if caps[0].operation == op then Some(caps[0]) else Find(caps[1..], op)
  }

  function GetAccessDecision(caps: seq<Capability>, op: Operation): Decision {
    match Find(caps, op)
    case None => FORBIDDEN
    case Some(cap) => if cap.access == CONTRACT then VIA_CONTRACT else VIA_HTS
  }

  lemma {:induction false} FindInConcat(a: seq<Capability>, b: seq<Capability>, op: Operation)
    ensures Find(a + b, op) == if Find(a, op).Some? then Find(a, op) else Find(b, op)
  {
    if a == [] {
      assert a + b == b;
    } else {
      assert (a + b)[1..] == a[1..] + b;
      FindInConcat(a[1..], b, op);
    }
  }

  lemma {:induction false} FoundIffListed(caps: seq<Capability>, op: Operation)
    ensures Find(caps, op).Some? <==> exists i :: 0 <= i < |caps| && caps[i].operation == op
  {
    if caps != [] {
      FoundIffListed(caps[1..], op);
      if i :| 0 <= i < |caps| && caps[i].operation == op {
        assert i > 0 ==> caps[1..][i - 1] == caps[i];
      }
    }
  }

  // ---------- the list, in the order it is pushed ----------

  function All(ops: seq<Operation>, access: Access): seq<Capability> {
    seq(|ops|, i requires 0 <= i < |ops| => Capability(ops[i], access))
  }

  /** Operations let through one door, or none at all. */
  function Block(door: Decision, ops: seq<Operation>): seq<Capability> {
    match door
    case FORBIDDEN => []
    case VIA_HTS => All(ops, HTS)
    case VIA_CONTRACT => All(ops, CONTRACT)
  }

  function ByKey(key: Option<Key>, account: AccountKey): Decision {
    if Owns(account, key) then VIA_HTS else if IsEntity(key) then VIA_CONTRACT else FORBIDDEN
  }

  function Allowing(condition: bool, decision: Decision): Decision {
    if condition then decision else FORBIDDEN
  }

  function FeeOperations(coin: StableCoin): seq<Operation> {
    if coin.customFees.None? then []
    else
      (if coin.customFees.value < MAX_CUSTOM_FEES then [CREATE_CUSTOM_FEE] else []) +
      (if coin.customFees.value > 0 then [REMOVE_CUSTOM_FEE] else [])
  }

  const UNCONDITIONAL := [ROLE_MANAGEMENT, ROLE_ADMIN_MANAGEMENT, RESERVE_MANAGEMENT, RESCUE_HBAR,
                          UPDATE_CONFIG_VERSION, UPDATE_CONFIG, UPDATE_RESOLVER]

  const HOLD_OPERATIONS := [CREATE_HOLD, CONTROLLER_CREATE_HOLD, RELEASE_HOLD, EXECUTE_HOLD, RECLAIM_HOLD]

  const BLOCKS := 11

  /** What the blocks of the list are about, in order. */
  function Subjects(coin: StableCoin): seq<seq<Operation>> {
    [[RESCUE],
     [CASH_IN, BURN],
     [CASH_IN, BURN],
     [WIPE],
     [PAUSE, UNPAUSE],
     [FREEZE, UNFREEZE],
     [DELETE, UPDATE],
     [GRANT_KYC, REVOKE_KYC],
     FeeOperations(coin),
     UNCONDITIONAL,
     HOLD_OPERATIONS]
  }

  /** And through which door, if any, each lets the account. */
  function Doors(coin: StableCoin, account: AccountKey, operable: bool, deleted: bool): seq<Decision> {
    [Allowing(operable, VIA_CONTRACT),
     Allowing(operable && Printed(coin.supplyKey) == coin.treasury, VIA_CONTRACT),
     Allowing(operable && Owns(account, coin.supplyKey), VIA_HTS),
     Allowing(operable, ByKey(coin.wipeKey, account)),
     Allowing(!deleted, ByKey(coin.pauseKey, account)),
     Allowing(operable, ByKey(coin.freezeKey, account)),
     Allowing(operable, ByKey(coin.adminKey, account)),
     Allowing(operable, ByKey(coin.kycKey, account)),
     Allowing(operable, ByKey(coin.feeScheduleKey, account)),
     VIA_CONTRACT,
     Allowing(operable && IsEntity(coin.supplyKey) && IsEntity(coin.wipeKey), VIA_CONTRACT)]
  }

  /** The first n blocks, one behind the other. */
  function Blocks(doors: seq<Decision>, subjects: seq<seq<Operation>>, n: nat): seq<Capability>
    requires n <= |doors| == |subjects|
  {
    if n == 0 then [] else Blocks(doors, subjects, n - 1) + Block(doors[n - 1], subjects[n - 1])
  }

  function CapabilityList(coin: StableCoin, account: AccountKey, tokenIsPaused: Option<bool>,
                          tokenIsDeleted: Option<bool>): seq<Capability> {
    Blocks(Doors(coin, account, Operable(coin, tokenIsPaused, tokenIsDeleted), Deleted(coin, tokenIsDeleted)),
        Subjects(coin), BLOCKS)
  }

  // ---------- the table ----------

  function WhenOperable(coin: StableCoin, account: AccountKey, op: Operation): Decision {
    var fees := if coin.customFees.Some? then coin.customFees.value else MAX_CUSTOM_FEES;
    match op
    case RESCUE => VIA_CONTRACT
    case CASH_IN | BURN =>
      if Printed(coin.supplyKey) == coin.treasury then VIA_CONTRACT
          else Allowing(Owns(account, coin.supplyKey), VIA_HTS)
    case WIPE => ByKey(coin.wipeKey, account)
    case FREEZE | UNFREEZE => ByKey(coin.freezeKey, account)
    case DELETE | UPDATE => ByKey(coin.adminKey, account)
    case GRANT_KYC | REVOKE_KYC => ByKey(coin.kycKey, account)
    case CREATE_CUSTOM_FEE =>
      Allowing(coin.customFees.Some? && fees < MAX_CUSTOM_FEES, ByKey(coin.feeScheduleKey, account))
    case REMOVE_CUSTOM_FEE => Allowing(coin.customFees.Some? && fees > 0, ByKey(coin.feeScheduleKey, account))
    case CREATE_HOLD | CONTROLLER_CREATE_HOLD | RELEASE_HOLD | EXECUTE_HOLD | RECLAIM_HOLD =>
      Allowing(IsEntity(coin.supplyKey) && IsEntity(coin.wipeKey), VIA_CONTRACT)
    case _ => FORBIDDEN
  }

  /** The decision for each operation, said directly. */
  function Table(coin: StableCoin, account: AccountKey, operable: bool, deleted: bool, op: Operation): Decision {
    match op
    case ROLE_MANAGEMENT | ROLE_ADMIN_MANAGEMENT | RESERVE_MANAGEMENT | RESCUE_HBAR
       | UPDATE_CONFIG_VERSION | UPDATE_CONFIG | UPDATE_RESOLVER => VIA_CONTRACT
    case PAUSE | UNPAUSE => Allowing(!deleted, ByKey(coin.pauseKey, account))
    case _ => Allowing(operable, WhenOperable(coin, account, op))
  }

  // ---------- the list implements the table ----------

  lemma {:induction false} DecisionOfAll(ops: seq<Operation>, access: Access, op: Operation)
    ensures GetAccessDecision(All(ops, access), op) ==
        Allowing(op in ops, if access == CONTRACT then VIA_CONTRACT else VIA_HTS)
  {
    if ops != [] {
      assert All(ops, access)[1..] == All(ops[1..], access);
      DecisionOfAll(ops[1..], access, op);
      assert ops == [ops[0]] + ops[1..];
    }
  }

  lemma DecisionOfBlock(door: Decision, ops: seq<Operation>, op: Operation)
    ensures GetAccessDecision(Block(door, ops), op) == Allowing(op in ops, door)
  {
    DecisionOfAll(ops, HTS, op);
    DecisionOfAll(ops, CONTRACT, op);
  }

  predicate Supply(op: Operation) {
    op == CASH_IN || op == BURN
  }

  /** The two blocks an operation can be in; only the supply really has two. */
  function BlocksOf(op: Operation): (nat, nat) {
    match op
    case RESCUE => (0, 10)
    case CASH_IN | BURN => (1, 2)
    case WIPE => (3, 10)
    case PAUSE | UNPAUSE => (4, 10)
    case FREEZE | UNFREEZE => (5, 10)
    case DELETE | UPDATE => (6, 10)
    case GRANT_KYC | REVOKE_KYC => (7, 10)
    case CREATE_CUSTOM_FEE | REMOVE_CUSTOM_FEE => (8, 10)
    case _ => (9, 10)
  }

  /** Only blocks j and k mention the operation. */
  ghost predicate OnlyIn(subjects: seq<seq<Operation>>, op: Operation, j: nat, k: nat) {
    j < k < |subjects| && forall i :: 0 <= i < |subjects| && i != j && i != k ==> op !in subjects[i]
  }

  lemma SubjectsDiffer(coin: StableCoin, op: Operation)
    ensures OnlyIn(Subjects(coin), op, BlocksOf(op).0, BlocksOf(op).1)
    ensures BlocksOf(op).0 < 9 && !Supply(op) ==> op !in HOLD_OPERATIONS
    ensures BlocksOf(op).0 == 9 ==> op !in UNCONDITIONAL || op !in HOLD_OPERATIONS
  {
    forall i | 0 <= i < BLOCKS && i != BlocksOf(op).0 && i != BlocksOf(op).1 ensures op !in Subjects(coin)[i] {
      MentionsFrom(coin, op, i);
    }
  }

  lemma MentionsFrom(coin: StableCoin, op: Operation, i: nat)
    requires i < BLOCKS
    ensures op in Subjects(coin)[i] ==> i == BlocksOf(op).0 || i == BlocksOf(op).1
  {
    if i < 5 {
      EarlyMentions(coin, op, i);
    } else if i < 9 {
      LateMentions(coin, op, i);
    } else {
      assert Subjects(coin)[9] == UNCONDITIONAL && Subjects(coin)[10] == HOLD_OPERATIONS;
    }
  }

  lemma EarlyMentions(coin: StableCoin, op: Operation, i: nat)
    requires i < 5
    ensures op in Subjects(coin)[i] ==> i == BlocksOf(op).0 || i == BlocksOf(op).1
  {
  }

  lemma LateMentions(coin: StableCoin, op: Operation, i: nat)
    requires 5 <= i < 9
    ensures op in Subjects(coin)[i] ==> i == BlocksOf(op).0 || i == BlocksOf(op).1
  {
  }

  function Opened(doors: seq<Decision>, subjects: seq<seq<Operation>>, i: nat, n: nat, op: Operation): Decision
    requires i < |doors| == |subjects|
  {
    Allowing(i < n && op in subjects[i], doors[i])
  }

  /** The first of two decisions, unless it is none. */
  function OrElse(first: Decision, second: Decision): Decision {
    if first != FORBIDDEN then first else second
  }

  /** The first n blocks decide as the first n - 1 and else as block n. */
  lemma DecisionOfLast(doors: seq<Decision>, subjects: seq<seq<Operation>>, n: nat, op: Operation)
    requires 0 < n <= |doors| == |subjects|
    ensures GetAccessDecision(Blocks(doors, subjects, n), op) ==
            OrElse(GetAccessDecision(Blocks(doors, subjects, n - 1), op), Opened(doors, subjects, n - 1, n, op))
  {
    DecisionInConcat(Blocks(doors, subjects, n - 1), Block(doors[n - 1], subjects[n - 1]), op);
    DecisionOfBlock(doors[n - 1], subjects[n - 1], op);
  }

  lemma OpenedByLast(doors: seq<Decision>, subjects: seq<seq<Operation>>, n: nat, op: Operation, j: nat, k: nat)
    requires 0 < n <= |doors| == |subjects| && OnlyIn(subjects, op, j, k)
    ensures OrElse(OrElse(Opened(doors, subjects, j, n - 1, op), Opened(doors, subjects, k, n - 1, op)),
                   Opened(doors, subjects, n - 1, n, op)) ==
            OrElse(Opened(doors, subjects, j, n, op), Opened(doors, subjects, k, n, op))
  {
  }

  /** The first n blocks decide as the earlier of the two that mention the operation and are open. */
  lemma {:induction false} DecisionOfBlocks(doors: seq<Decision>, subjects: seq<seq<Operation>>, n: nat, op: Operation,
                                            j: nat, k: nat)
    requires n <= |doors| == |subjects| && OnlyIn(subjects, op, j, k)
    ensures GetAccessDecision(Blocks(doors, subjects, n), op) ==
            OrElse(Opened(doors, subjects, j, n, op), Opened(doors, subjects, k, n, op))
  {
    if n > 0 {
      DecisionOfBlocks(doors, subjects, n - 1, op, j, k);
      DecisionOfLast(doors, subjects, n, op);
      OpenedByLast(doors, subjects, n, op, j, k);
    } else {
      assert Blocks(doors, subjects, 0) == [] && Find([], op) == None;
    }
  }

  lemma DecisionInConcat(a: seq<Capability>, b: seq<Capability>, op: Operation)
    ensures GetAccessDecision(a + b, op) ==
            OrElse(GetAccessDecision(a, op), GetAccessDecision(b, op))
  {
    FindInConcat(a, b, op);
  }

  lemma EarlyDoors(coin: StableCoin, account: AccountKey, operable: bool, deleted: bool, op: Operation)
    requires BlocksOf(op).0 < 5
    ensures var (doors, subjects, (j, k)) := (Doors(coin, account, operable, deleted), Subjects(coin), BlocksOf(op));
            Table(coin, account, operable, deleted, op) ==
            OrElse(Opened(doors, subjects, j, BLOCKS, op), Opened(doors, subjects, k, BLOCKS, op))
  {
  }

  lemma LateDoors(coin: StableCoin, account: AccountKey, operable: bool, deleted: bool, op: Operation)
    requires 5 <= BlocksOf(op).0 < 9
    ensures var (doors, subjects, (j, k)) := (Doors(coin, account, operable, deleted), Subjects(coin), BlocksOf(op));
            Table(coin, account, operable, deleted, op) ==
            OrElse(Opened(doors, subjects, j, BLOCKS, op), Opened(doors, subjects, k, BLOCKS, op))
  {
  }

  lemma LastDoors(coin: StableCoin, account: AccountKey, operable: bool, deleted: bool, op: Operation)
    requires BlocksOf(op).0 == 9
    ensures var (doors, subjects, (j, k)) := (Doors(coin, account, operable, deleted), Subjects(coin), BlocksOf(op));
            Table(coin, account, operable, deleted, op) ==
            OrElse(Opened(doors, subjects, j, BLOCKS, op), Opened(doors, subjects, k, BLOCKS, op))
  {
  }

  lemma DoorsMakeTheTable(coin: StableCoin, account: AccountKey, operable: bool, deleted: bool, op: Operation)
    ensures var (doors, subjects, (j, k)) := (Doors(coin, account, operable, deleted), Subjects(coin), BlocksOf(op));
            Table(coin, account, operable, deleted, op) ==
            OrElse(Opened(doors, subjects, j, BLOCKS, op), Opened(doors, subjects, k, BLOCKS, op))
  {
    if BlocksOf(op).0 < 5 {
      EarlyDoors(coin, account, operable, deleted, op);
    } else if BlocksOf(op).0 < 9 {
      LateDoors(coin, account, operable, deleted, op);
    } else {
      LastDoors(coin, account, operable, deleted, op);
    }
  }

  /** For every coin, account and overrides: looking an operation up in the list gives the table's decision. */
  lemma ListImplementsTable(coin: StableCoin, account: AccountKey, tokenIsPaused: Option<bool>,
                            tokenIsDeleted: Option<bool>, op: Operation)
    ensures GetAccessDecision(CapabilityList(coin, account, tokenIsPaused, tokenIsDeleted), op) ==
            Table(coin, account, Operable(coin, tokenIsPaused, tokenIsDeleted), Deleted(coin, tokenIsDeleted), op)
  {
    var operable, deleted := Operable(coin, tokenIsPaused, tokenIsDeleted), Deleted(coin, tokenIsDeleted);
    SubjectsDiffer(coin, op);
    DecisionOfBlocks(Doors(coin, account, operable, deleted), Subjects(coin), BLOCKS, op,
                     BlocksOf(op).0, BlocksOf(op).1);
    DoorsMakeTheTable(coin, account, operable, deleted, op);
  }

  // ---------- every decision, in terms of the coin's fields ----------

  /** Behind one key: the account whose public key it is goes through the token service, and any account goes
      through the contract when the key is an entity's. */
  function KeyDecides(enabled: bool, key: Option<Key>, account: AccountKey): Decision {
    match key
    case Some(PublicKey(k, _)) => if enabled && account == Some(k) then VIA_HTS else FORBIDDEN
    case Some(HederaId(_)) => if enabled then VIA_CONTRACT else FORBIDDEN
    case None => FORBIDDEN
  }

  /** The text of the supply key is the text of the treasury, or both are missing. */
  predicate SupplyIsTreasurys(coin: StableCoin) {
    match coin.supplyKey
    case None => coin.treasury == None
    case Some(HederaId(id)) => coin.treasury == Some(id)
    case Some(PublicKey(k, t)) => coin.treasury == Some("{\"key\":\"" + k + "\",\"_type\":\"" + t + "\"}")
  }

  /** The supply goes through the contract when the treasury is the supply key's, and else through the token
      service for the account whose public key it is. */
  function SupplyDecides(coin: StableCoin, account: AccountKey): Decision {
    if SupplyIsTreasurys(coin) then VIA_CONTRACT
    else
      match coin.supplyKey
      case Some(PublicKey(k, _)) => if account == Some(k) then VIA_HTS else FORBIDDEN
      case _ => FORBIDDEN
  }

  predicate BothEntities(supplyKey: Option<Key>, wipeKey: Option<Key>) {
    match (supplyKey, wipeKey)
    case (Some(HederaId(_)), Some(HederaId(_))) => true
    case _ => false
  }

  /** An override decides when it is given, the coin's own flag when it is not. */
  predicate Flag(override: Option<bool>, own: bool) {
    match override
    case Some(given) => given
    case None => own
  }

  function Decided(coin: StableCoin, account: AccountKey, dead: bool, idle: bool, op: Operation): Decision {
    match op
    case PAUSE => KeyDecides(!dead, coin.pauseKey, account)
    case UNPAUSE => KeyDecides(!dead, coin.pauseKey, account)
    case WIPE => KeyDecides(!idle, coin.wipeKey, account)
    case FREEZE => KeyDecides(!idle, coin.freezeKey, account)
    case UNFREEZE => KeyDecides(!idle, coin.freezeKey, account)
    case DELETE => KeyDecides(!idle, coin.adminKey, account)
    case UPDATE => KeyDecides(!idle, coin.adminKey, account)
    case GRANT_KYC => KeyDecides(!idle, coin.kycKey, account)
    case REVOKE_KYC => KeyDecides(!idle, coin.kycKey, account)
    case CREATE_CUSTOM_FEE =>
      KeyDecides(!idle && coin.customFees.Some? && coin.customFees.value < 10, coin.feeScheduleKey, account)
    case REMOVE_CUSTOM_FEE =>
      KeyDecides(!idle && coin.customFees.Some? && coin.customFees.value > 0, coin.feeScheduleKey, account)
    case CASH_IN => if idle then FORBIDDEN else SupplyDecides(coin, account)
    case BURN => if idle then FORBIDDEN else SupplyDecides(coin, account)
    case RESCUE => if idle then FORBIDDEN else VIA_CONTRACT
    case TRANSFERS => FORBIDDEN
    case CREATE_HOLD | CONTROLLER_CREATE_HOLD | RELEASE_HOLD | EXECUTE_HOLD | RECLAIM_HOLD =>
      if !idle && BothEntities(coin.supplyKey, coin.wipeKey) then VIA_CONTRACT else FORBIDDEN
    case RESCUE_HBAR | ROLE_MANAGEMENT | ROLE_ADMIN_MANAGEMENT | RESERVE_MANAGEMENT => VIA_CONTRACT
    case UPDATE_CONFIG_VERSION | UPDATE_CONFIG | UPDATE_RESOLVER => VIA_CONTRACT
  }

  lemma TableIsDecided(coin: StableCoin, account: AccountKey, dead: bool, idle: bool, op: Operation)
    requires dead ==> idle
    ensures Table(coin, account, !idle, dead, op) == Decided(coin, account, dead, idle, op)
  {
  }

  lemma {:induction false} FoundIsFor(caps: seq<Capability>, op: Operation)
    ensures Find(caps, op).Some? ==> Find(caps, op).value.operation == op && Find(caps, op).value in caps
  {
    if caps != [] {
      FoundIsFor(caps[1..], op);
    }
  }

  /** What a user may do and through which door, from the coin's own fields: one key per operation, the two
      overrides, the treasury and the number of fees. */
  lemma EveryDecision(coin: StableCoin, account: AccountKey, tokenIsPaused: Option<bool>,
                      tokenIsDeleted: Option<bool>, op: Operation)
    ensures var dead := Flag(tokenIsDeleted, coin.deleted);
            var idle := dead || Flag(tokenIsPaused, coin.paused);
            var caps := CapabilityList(coin, account, tokenIsPaused, tokenIsDeleted);
            && GetAccessDecision(caps, op) == Decided(coin, account, dead, idle, op)
            && Find(caps, op) == (match Decided(coin, account, dead, idle, op)
                                  case FORBIDDEN => None
                                  case VIA_HTS => Some(Capability(op, HTS))
                                  case VIA_CONTRACT => Some(Capability(op, CONTRACT)))
  {
    FoundIsFor(CapabilityList(coin, account, tokenIsPaused, tokenIsDeleted), op);
    ListImplementsTable(coin, account, tokenIsPaused, tokenIsDeleted, op);
    var dead := Flag(tokenIsDeleted, coin.deleted);
    TableIsDecided(coin, account, dead, dead || Flag(tokenIsPaused, coin.paused), op);
  }

  predicate Listed(caps: seq<Capability>, op: Operation) {
    exists i :: 0 <= i < |caps| && caps[i].operation == op
  }

  lemma TableOfDeletedAndPaused(coin: StableCoin, account: AccountKey, deleted: bool, op: Operation)
    ensures Table(coin, account, false, true, op) == Allowing(op in UNCONDITIONAL, VIA_CONTRACT)
    ensures Table(coin, account, false, false, op) ==
              if op == PAUSE || op == UNPAUSE then ByKey(coin.pauseKey, account)
                  else Allowing(op in UNCONDITIONAL, VIA_CONTRACT)
  {
  }

  /** A deleted coin keeps the seven unconditional operations and nothing else; a paused one keeps them too,
      and adds PAUSE and UNPAUSE exactly when its pause key lets the account through. */
  lemma DeletedAndPausedCoins(coin: StableCoin, account: AccountKey, tokenIsPaused: Option<bool>,
                              tokenIsDeleted: Option<bool>, op: Operation)
    ensures var caps := CapabilityList(coin, account, tokenIsPaused, tokenIsDeleted);
            && (Deleted(coin, tokenIsDeleted) ==> (Listed(caps, op) <==> op in UNCONDITIONAL))
            && (!Deleted(coin, tokenIsDeleted) && !Operable(coin, tokenIsPaused, tokenIsDeleted) ==>
                 (Listed(caps, op) <==>
                  if op == PAUSE || op == UNPAUSE then ByKey(coin.pauseKey, account) != FORBIDDEN
                      else op in UNCONDITIONAL))
  {
    ListImplementsTable(coin, account, tokenIsPaused, tokenIsDeleted, op);
    TableOfDeletedAndPaused(coin, account, Deleted(coin, tokenIsDeleted), op);
    FoundIffListed(CapabilityList(coin, account, tokenIsPaused, tokenIsDeleted), op);
  }

  // ---------- how often an operation is listed ----------

  function Operations(caps: seq<Capability>): seq<Operation> {
    seq(|caps|, i requires 0 <= i < |caps| => caps[i].operation)
  }

  function Count(caps: seq<Capability>, op: Operation): nat {
    if caps == [] then 0 else (if caps[0].operation == op then 1 else 0) + Count(caps[1..], op)
  }

  lemma {:induction false} CountInConcat(a: seq<Capability>, b: seq<Capability>, op: Operation)
    ensures Count(a + b, op) == Count(a, op) + Count(b, op)
  {
    if a == [] {
      assert a + b == b;
    } else {
      assert (a + b)[1..] == a[1..] + b;
      CountInConcat(a[1..], b, op);
    }
  }

  lemma {:induction false} CountOfAll(ops: seq<Operation>, access: Access, op: Operation)
    requires NoDup(ops)
    ensures Count(All(ops, access), op) == if op in ops then 1 else 0
  {
    if ops != [] {
      assert All(ops, access)[1..] == All(ops[1..], access);
      CountOfAll(ops[1..], access, op);
      assert ops == [ops[0]] + ops[1..];
    }
  }

  lemma {:induction false} RepeatsCountTwice(caps: seq<Capability>, i: nat, j: nat)
    requires i < j < |caps| && caps[i].operation == caps[j].operation
    ensures Count(caps, caps[j].operation) >= 2
  {
    var op := caps[j].operation;
    if i == 0 {
      CountedIfListed(caps[1..], j - 1);
    } else {
      RepeatsCountTwice(caps[1..], i - 1, j - 1);
    }
  }

  lemma {:induction false} CountedIfListed(caps: seq<Capability>, j: nat)
    requires j < |caps|
    ensures Count(caps, caps[j].operation) >= 1
  {
    if j > 0 {
      CountedIfListed(caps[1..], j - 1);
    }
  }

  lemma {:induction false} DistinctCountOnce(caps: seq<Capability>, op: Operation)
    requires NoDup(Operations(caps))
    ensures Count(caps, op) <= 1
    ensures Count(caps, op) == 1 ==> op in Operations(caps)
  {
    if caps != [] {
      var rest := caps[1..];
      assert Operations(rest) == Operations(caps)[1..];
      DistinctCountOnce(rest, op);
      assert Operations(caps)[0] == caps[0].operation;
      assert forall x :: x in Operations(rest) ==> x in Operations(caps);
    }
  }

  lemma CountOfBlock(door: Decision, ops: seq<Operation>, op: Operation)
    requires NoDup(ops)
    ensures Count(Block(door, ops), op) == if op in ops && door != FORBIDDEN then 1 else 0
  {
    CountOfAll(ops, HTS, op);
    CountOfAll(ops, CONTRACT, op);
  }

  lemma SubjectsAreDistinct(coin: StableCoin)
    ensures forall i :: 0 <= i < BLOCKS ==> NoDup(Subjects(coin)[i])
  {
  }

  lemma {:induction false} CountOfBlocks(doors: seq<Decision>, subjects: seq<seq<Operation>>, n: nat, op: Operation,
                                         j: nat, k: nat)
    requires n <= |doors| == |subjects| && OnlyIn(subjects, op, j, k)
    requires forall i :: 0 <= i < |subjects| ==> NoDup(subjects[i])
    ensures Count(Blocks(doors, subjects, n), op) ==
              (if Opened(doors, subjects, j, n, op) != FORBIDDEN then 1 else 0)
              + (if Opened(doors, subjects, k, n, op) != FORBIDDEN then 1 else 0)
  {
    if n > 0 {
      CountOfBlocks(doors, subjects, n - 1, op, j, k);
      CountInConcat(Blocks(doors, subjects, n - 1), Block(doors[n - 1], subjects[n - 1]), op);
      CountOfBlock(doors[n - 1], subjects[n - 1], op);
    }
  }

  lemma TimesListed(coin: StableCoin, account: AccountKey, tokenIsPaused: Option<bool>, tokenIsDeleted: Option<bool>,
                    op: Operation)
    ensures var times := Count(CapabilityList(coin, account, tokenIsPaused, tokenIsDeleted), op);
            var twice := Supply(op) && ListedTwice(coin, account, Operable(coin, tokenIsPaused, tokenIsDeleted));
            times <= 2 && (times == 2 <==> twice)
  {
    var operable, deleted := Operable(coin, tokenIsPaused, tokenIsDeleted), Deleted(coin, tokenIsDeleted);
    SubjectsDiffer(coin, op);
    SubjectsAreDistinct(coin);
    CountOfBlocks(Doors(coin, account, operable, deleted), Subjects(coin), BLOCKS, op, BlocksOf(op).0, BlocksOf(op).1);
    TwoDoors(coin, account, operable, deleted, op);
  }

  lemma TwoDoors(coin: StableCoin, account: AccountKey, operable: bool, deleted: bool, op: Operation)
    ensures var (doors, subjects, (j, k)) := (Doors(coin, account, operable, deleted), Subjects(coin), BlocksOf(op));
            Opened(doors, subjects, j, BLOCKS, op) != FORBIDDEN && Opened(doors, subjects, k, BLOCKS, op) != FORBIDDEN
            <==> Supply(op) && ListedTwice(coin, account, operable)
  {
    if Supply(op) {
      assert Subjects(coin)[1] == Subjects(coin)[2] == [CASH_IN, BURN];
    } else {
      OneDoor(coin, Doors(coin, account, operable, deleted), op);
    }
  }

  lemma OneDoor(coin: StableCoin, doors: seq<Decision>, op: Operation)
    requires |doors| == BLOCKS && !Supply(op)
    ensures var (j, k) := BlocksOf(op);
            Opened(doors, Subjects(coin), j, BLOCKS, op) == FORBIDDEN
                || Opened(doors, Subjects(coin), k, BLOCKS, op) == FORBIDDEN
  {
    SubjectsDiffer(coin, op);
    assert Subjects(coin)[9] == UNCONDITIONAL && Subjects(coin)[10] == HOLD_OPERATIONS;
  }

  /** The supply key is a public key that prints as the treasury and belongs to the account: only then is
      the supply listed through both doors. */
  predicate ListedTwice(coin: StableCoin, account: AccountKey, operable: bool) {
    operable && Printed(coin.supplyKey) == coin.treasury && Owns(account, coin.supplyKey)
  }

  /** No operation is listed twice, except CASH_IN and BURN exactly for such a supply key. */
  lemma NoOperationTwiceIff(coin: StableCoin, account: AccountKey, tokenIsPaused: Option<bool>,
                            tokenIsDeleted: Option<bool>)
    ensures NoDup(Operations(CapabilityList(coin, account, tokenIsPaused, tokenIsDeleted)))
            <==> !ListedTwice(coin, account, Operable(coin, tokenIsPaused, tokenIsDeleted))
  {
    var caps := CapabilityList(coin, account, tokenIsPaused, tokenIsDeleted);
    if ListedTwice(coin, account, Operable(coin, tokenIsPaused, tokenIsDeleted)) {
      TimesListed(coin, account, tokenIsPaused, tokenIsDeleted, CASH_IN);
      if NoDup(Operations(caps)) {
        DistinctCountOnce(caps, CASH_IN);
      }
    } else {
      forall i, j | 0 <= i < j < |caps| ensures Operations(caps)[i] != Operations(caps)[j] {
        if caps[i].operation == caps[j].operation {
          TimesListed(coin, account, tokenIsPaused, tokenIsDeleted, caps[j].operation);
          RepeatsCountTwice(caps, i, j);
        }
      }
    }
  }

  /** A treasury whose text does not open with a brace, as entity ids do not, never prints like a public key. */
  lemma EntityTreasuriesListOnce(coin: StableCoin, account: AccountKey, tokenIsPaused: Option<bool>,
                                 tokenIsDeleted: Option<bool>)
    requires coin.treasury.Some? ==> coin.treasury.value == "" || coin.treasury.value[0] != '{'
    ensures NoDup(Operations(CapabilityList(coin, account, tokenIsPaused, tokenIsDeleted)))
  {
    NoOperationTwiceIff(coin, account, tokenIsPaused, tokenIsDeleted);
  }

  // ---------- the method that pushes the list ----------

  method GetCapabilities(account: AccountKey, coin: StableCoin, tokenIsPaused: Option<bool>,
                         tokenIsDeleted: Option<bool>)
    returns (listCapabilities: seq<Capability>)
    ensures listCapabilities == CapabilityList(coin, account, tokenIsPaused, tokenIsDeleted)
  {
    var paused := if tokenIsPaused.Some? then tokenIsPaused.value else coin.paused;
    var deleted := if tokenIsDeleted.Some? then tokenIsDeleted.value else coin.deleted;
    var operable := !deleted && !paused;
    listCapabilities := PushSupply(account, coin, operable, deleted);
    listCapabilities := PushWipePauseFreeze(listCapabilities, account, coin, operable, deleted);
    listCapabilities := PushAdminKycFees(listCapabilities, account, coin, operable, deleted);
    listCapabilities := PushUnconditionalAndHolds(listCapabilities, account, coin, operable, deleted);
  }

  method PushUnconditionalAndHolds(caps: seq<Capability>, ghost account: AccountKey, coin: StableCoin,
                                   operable: bool, ghost deleted: bool)
    returns (pushed: seq<Capability>)
    requires caps == Blocks(Doors(coin, account, operable, deleted), Subjects(coin), 9)
    ensures pushed == Blocks(Doors(coin, account, operable, deleted), Subjects(coin), 11)
  {
    ghost var (doors, subjects) := (Doors(coin, account, operable, deleted), Subjects(coin));
    pushed := PushAll(caps, UNCONDITIONAL, CONTRACT);
    assert doors[9] == VIA_CONTRACT && subjects[9] == UNCONDITIONAL;
    assert pushed == Blocks(doors, subjects, 10);
    if operable && IsEntity(coin.supplyKey) && IsEntity(coin.wipeKey) {
      pushed := PushAll(pushed, HOLD_OPERATIONS, CONTRACT);
    }
  }

  method PushWipePauseFreeze(caps: seq<Capability>, account: AccountKey, coin: StableCoin, operable: bool,
                             deleted: bool)
    returns (pushed: seq<Capability>)
    requires caps == Blocks(Doors(coin, account, operable, deleted), Subjects(coin), 3)
    ensures pushed == Blocks(Doors(coin, account, operable, deleted), Subjects(coin), 6)
  {
    ghost var (doors, subjects) := (Doors(coin, account, operable, deleted), Subjects(coin));
    pushed := PushKeyed(caps, operable, coin.wipeKey, account, [WIPE]);
    assert pushed == Blocks(doors, subjects, 4);
    pushed := PushKeyed(pushed, !deleted, coin.pauseKey, account, [PAUSE, UNPAUSE]);
    assert pushed == Blocks(doors, subjects, 5);
    pushed := PushKeyed(pushed, operable, coin.freezeKey, account, [FREEZE, UNFREEZE]);
  }

  method PushAdminKycFees(caps: seq<Capability>, account: AccountKey, coin: StableCoin, operable: bool,
                          ghost deleted: bool)
    returns (pushed: seq<Capability>)
    requires caps == Blocks(Doors(coin, account, operable, deleted), Subjects(coin), 6)
    ensures pushed == Blocks(Doors(coin, account, operable, deleted), Subjects(coin), 9)
  {
    ghost var (doors, subjects) := (Doors(coin, account, operable, deleted), Subjects(coin));
    pushed := PushKeyed(caps, operable, coin.adminKey, account, [DELETE, UPDATE]);
    assert pushed == Blocks(doors, subjects, 7);
    pushed := PushKeyed(pushed, operable, coin.kycKey, account, [GRANT_KYC, REVOKE_KYC]);
    assert pushed == Blocks(doors, subjects, 8);
    pushed := PushFees(pushed, coin, account, operable);
  }

  /** The first three blocks: rescue, and the supply through either door. */
  method PushSupply(account: AccountKey, coin: StableCoin, operable: bool, ghost deleted: bool)
    returns (listCapabilities: seq<Capability>)
    ensures listCapabilities == Blocks(Doors(coin, account, operable, deleted), Subjects(coin), 3)
  {
    ghost var (doors, subjects) := (Doors(coin, account, operable, deleted), Subjects(coin));
    listCapabilities := [];
    if operable {
      listCapabilities := PushAll(listCapabilities, [RESCUE], CONTRACT);
    }
    assert listCapabilities == Blocks(doors, subjects, 1);
    if operable && Printed(coin.supplyKey) == coin.treasury {
      listCapabilities := PushAll(listCapabilities, [CASH_IN, BURN], CONTRACT);
    }
    assert listCapabilities == Blocks(doors, subjects, 2);
    if operable && IsPublicKey(coin.supplyKey) {
      if Some(coin.supplyKey.value.key) == account {
        listCapabilities := PushAll(listCapabilities, [CASH_IN, BURN], HTS);
      }
    }
    assert listCapabilities == Blocks(doors, subjects, 3);
  }

  /** Capabilities pushed one by one. */
  method PushAll(caps: seq<Capability>, ops: seq<Operation>, access: Access) returns (pushed: seq<Capability>)
    ensures pushed == caps + All(ops, access)
  {
    pushed := caps;
    for i := 0 to |ops|
      invariant pushed == caps + All(ops, access)[..i]
    {
      pushed := pushed + [Capability(ops[i], access)];
    }
  }

  /** The two branches of a block guarded by one key. */
  method PushKeyed(caps: seq<Capability>, enabled: bool, key: Option<Key>, account: AccountKey, ops: seq<Operation>)
    returns (pushed: seq<Capability>)
    ensures pushed == caps + Block(Allowing(enabled, ByKey(key, account)), ops)
  {
    pushed := caps;
    if enabled && IsPublicKey(key) {
      if Some(key.value.key) == account {
        pushed := PushAll(pushed, ops, HTS);
      }
    }
    if enabled && IsEntity(key) {
      pushed := PushAll(pushed, ops, CONTRACT);
    }
  }

  /** The fee operations that the number of custom fees leaves room for. */
  method PushFees(caps: seq<Capability>, coin: StableCoin, account: AccountKey, operable: bool)
    returns (pushed: seq<Capability>)
    ensures pushed == caps + Block(Allowing(operable, ByKey(coin.feeScheduleKey, account)), FeeOperations(coin))
  {
    var ops := [];
    if coin.customFees.Some? {
      if coin.customFees.value < MAX_CUSTOM_FEES {
        ops := ops + [CREATE_CUSTOM_FEE];
      }
      if coin.customFees.value > 0 {
        ops := ops + [REMOVE_CUSTOM_FEE];
      }
    }
    pushed := PushKeyed(caps, operable, coin.feeScheduleKey, account, ops);
  }
}
