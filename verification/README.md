# Stablecoin Studio: a verified model

A Dafny model of the parts of Stablecoin Studio where state, interleaving or text handling make mistakes easy, with
proofs of what those parts keep over every run. `dafny verify dfyconfig.toml` checks everything.

## What is modelled

**Multisignature transactions (backend).** `MultisigRecord` is one stored record and what a signature does to it.
`MultisigProtocol` is `TransactionService` as a small-step protocol: each request reads a row, works on its own copy
and saves the whole copy later, in any interleaving with the others. `TransactionService` is the same as a class whose
methods run from one await to the next. `SigningProgress` covers signing without interference, `MultisigSerial` the
discipline (one open request per row) under which interleaved runs are serial again, and `MultisigLoss` says exactly
when an interleaved run loses a signature. `MultisigLaws` says what a request gets and what its save leaves behind in
terms of the rows it has met. `AutoSubmit` is one pass of the submission job, `JobHistory` whole histories of page
reads, submissions and status moves beside the clients, `JobReports` what the statuses the job has written say about
what it did, `JobOnce` the exact condition for handling nothing twice and three disciplines that are enough for it,
and `JobTwice` histories that show that none of the three can be dropped.

**Holds.** Two models of the same behaviour. `HoldFacet` and the class in `HoldContract` are the hold contract
(`HoldManagementFacet.sol`) over the token service, with the token operations of the other facets that touch the
treasury. Its id lists are OpenZeppelin's `EnumerableSet.UintSet`, which is not part of this repository;
`EnumerableSet` models the repository's own set of the same design (`EnumerableSetBytes4.sol`) for any type of value,
and the hold contract's id lists use it. `HoldLedger` and the class in `LedgerDouble` are the in-memory ledger that
replaces the contracts in the SDK's test suite: a test double, not the contracts, and modelled as such. `HoldGuards`
puts the SDK's validation service in front of it, composed as the command handlers compose it. `ContractLaws` and
`DeskLaws` say for the two models who may do what, what a refusal means, which call made each payment and where every
token has gone; `Payouts` is the payments both record. `DoubleTracksFacet` says exactly how far the double can stand
in for the contract.

**Roles and suppliers.** `RoleLedger` and the class in `RoleDouble` are the role and allowance side of the same test
double, with the routing of the SDK's role port in front; `RolePort` says what a run of the port's requests comes
to, account by account.

**Text.** `Language` is the CLI's template interpolation, whose literal parts and parameter names come from two
independent regular expressions. `HexCodec` is the SDK's hexadecimal printer and parser and the backend's stricter
parser. `EnvironmentList` is the loop over numbered environment variables.

**Capabilities and batches.** `Capabilities` is the list built by `getCapabilities`, the first-match lookup in it and
the table the two implement. `FacetBatches` is the batching of facet configurations and the shared memo of facet ids.

Updates in place are classes or methods with loops; each is proved equal to a function or a step, and the properties
are proved about those.

## Where the code and its intent part

- The paging loop of the job stops before the last page when there are two or more pages
  (`AutoSubmit.PassIsCompleteIff`, `AutoSubmit.SecondPageIsSkipped`).
- `updateStatus` takes any status, so quorum safety holds exactly for honest status writes
  (`MultisigProtocol.QuorumSafeIff`, `MultisigProtocol.StatusUpdateBreaksQuorum`).
- The job can submit a record twice. A signature saved late revives a terminal or deleted row, because `sign` never looks
  at the current row (`JobOnce.SettledStaysIff`, `JobTwice.LateSignatureSubmitsTwice`, `JobTwice.DeletedRowSubmitsTwice`).
  Otherwise it happens exactly when a page read meets a row that is still being handled (`JobOnce.HandledOnceIff`): when
  the next pass starts before the first has submitted what it picked, because the loops over the picked records are not
  awaited (`JobTwice.OverlappingPassesSubmitTwice`), or when the unordered page query shows a row on two pages of one
  pass (`JobTwice.RepeatedPageSubmitsTwice`).
- Two overlapping signers can lose a signature (`MultisigSerial.OverlappingSignsLoseOne`,
  `MultisigLoss.NoKeyLostIff`).
- The contract's rescue is limited by the treasury's balance, not by the burnable amount, so it can leave a hold that
  cannot be paid (`HoldFacet.StepKeepsCoverIff`, `HoldFacet.RescueUncovers`).
- The test double leaves a hold's stored amount as it was after a partial consumption; the contract reduces it
  (`DoubleTracksFacet.StepTracksIff`, `HoldGuards.EachHoldPaidOnceIff`, `HoldGuards.PartialExecutionsOverpay`).
- The test double filters its reverse role list on revocation and drops the result (`RoleLedger.CallKeepsCurrentIff`).
- At the very second of expiry the SDK's own check lets an execution or release through and the contract refuses it; at
  every other time, and for reclaims always, the two checks agree (`DoubleTracksFacet.ExpiryChecksAgreeIff`).
- An empty placeholder `${}` is a match of the first expression and never of the second
  (`Language.TextIsRightIff`, `Language.EmptyPlaceholderShifts`).

## Assumptions

- Signature verification is an arbitrary function of message, key and signature, with a third answer for a stored
  message that cannot be decoded. Identifiers come from a generator that makes well-formed ones and never repeats one.
- A pass of the job reads pages 1, 2, ... until the loop's own test stops it. Each is that page of the whole store as it
  is at that moment, listed in any order, and rows and their number are read in one step. Clock readings never go back.
  Nothing else is assumed about passes or clients except where a theorem names it. `setSeconds` is taken as subtracting
  180 seconds exactly.
- In `HoldGuards` a command's queries and the ledger operation it sends are one step, and the balances the wipe and
  creation handlers query are the ledger's.
- In `HoldFacet` a successful token-service call moves exactly the amount asked for, never a negative one and never
  more than the balance, and it refuses to wipe the treasury; it may refuse for any other reason. A revert undoes the
  whole call, so the class asks the token service before it writes.
- Amounts are mathematical integers (the contract's 64-bit overflow on creation is a revert in the model); account
  ids are canonical numbers, 0 being the zero address.

## Model

| member | source | states |
|---|---|---|
| `MultisigRecord.NewRecordQuorumSafe` | `backend/src/transaction/transaction.service.ts:59-73` | a new record satisfies the whole quorum invariant if and only if the request has a non-empty key list and a threshold of at least 0; its key list has the requested keys as its set |
| `MultisigRecord.SignKeepsQuorum` | `backend/src/transaction/transaction.service.ts:92-122` | an accepted signature keeps key safety (no duplicates, no stranger's key, each signature verifying at its index, threshold in range) whatever the status was, and keeps the status honest if it was |
| `MultisigRecord.SignedMeansQuorum` | `backend/src/transaction/transaction.service.ts:119-122` | a quorum-safe SIGNED record carries at least `threshold` different listed keys, each with a stored signature that verifies |
| `Collections.DistinctKeepsFirsts` | `backend/src/utils/utils.ts:86-88` | duplicate removal keeps each element exactly once, in the order of first occurrence |
| `MultisigProtocol.KeysSafeAlways` | `backend/src/transaction/transaction.service.ts:56-125` | under every interleaving of reads and whole-row writes, and whatever statuses clients write, every stored row and every copy in flight is key-safe |
| `MultisigProtocol.QuorumSafeIff` | `backend/src/transaction/transaction.service.ts:56-125` | quorum safety, exactly: along any run of validated creations and arbitrary statuses, under every interleaving, every row of every store is quorum-safe if and only if every finishing status write is honest about the row it had read |
| `MultisigProtocol.QuorumSafeAlways` | `backend/src/transaction/transaction.service.ts:56-125` | in particular, when status writes are the submission job's, every row of every reachable store is quorum-safe: SIGNED implies a full quorum, PENDING implies less than one |
| `MultisigProtocol.StatusWriteSafeIff` | `backend/src/transaction/transaction.service.ts:222-239` | one status write leaves its own row quorum-safe exactly when it does not claim SIGNED below the threshold or PENDING at or above it |
| `MultisigProtocol.StatusUpdateBreaksQuorum` | `backend/src/transaction/transaction.service.ts:222-239` | since `updateStatus` takes any status: for every validated creation, a two-step run to a SIGNED row without a single signature |
| `MultisigProtocol.HeadersNeverChange` | `backend/src/transaction/transaction.service.ts:111-123` | message, key list, threshold and start date of a row are always those of its creation, even after a late save has brought back a row deleted in between |
| `MultisigSerial.ExclusiveRunsAreSerial` | `backend/src/transaction/transaction.service.ts:79-139` | with at most one open request per row, the store of any interleaved run equals the store of the same requests served one at a time in the order of their writes |
| `MultisigLoss.NoKeyLostIff` | `backend/src/transaction/transaction.service.ts:86-123` | no signature of a remaining row is lost along a run if and only if no save lands on a row on which, since its copy was read, another save has put a key that this one neither has nor adds |
| `MultisigSerial.StepDropsSignaturesIff` | `backend/src/transaction/transaction.service.ts:111-123` | for one step of an interleaved run: it loses a signature of a row that remains if and only if it is a save whose keys do not extend the ones the row has by then |
| `MultisigSerial.ExclusiveRunsKeepSignatures` | `backend/src/transaction/transaction.service.ts:111-123` | in particular with at most one open request per row no step does |
| `MultisigSerial.OverlappingSignsLoseOne` | `backend/src/transaction/transaction.service.ts:86-123` | without it, two overlapping signers both succeed, one signature is lost and a row whose threshold of two was met stays PENDING |
| `MultisigLaws.ThresholdIs` | `backend/src/transaction/transaction.service.ts:59-73` | a new record's threshold is the requested one, or the number of different keys listed when the request says 0 or more than those; it starts PENDING with no signature |
| `MultisigLaws.ReadOpensIff` | `backend/src/transaction/transaction.service.ts:79-110` | a request goes on exactly when its identifier is well-formed, the row exists and, for a signature, the key is listed, has not signed and the signature verifies; it keeps the row as it is then, and otherwise nothing changes |
| `MultisigLaws.RefusalsAreTrue` | `backend/src/transaction/transaction.service.ts:79-134` | the error of a refused request names something that really is wrong, and only requests that may not go on are refused |
| `MultisigLaws.SaveLandsAsRead` | `backend/src/transaction/transaction.service.ts:86-139` | in every run, whatever has happened in between: when a request that read its row at one step finishes at a later one, the row is what the request makes of the row as it was at the first, and no other row changes |
| `TransactionService.Service.constructor` | `backend/src/transaction/transaction.service.ts:49-54` | a new service has an empty repository and nothing in flight |
| `TransactionService.Service.Create` | `backend/src/transaction/transaction.service.ts:56-77` | storing a new row is the protocol's creation step, and the returned record is the stored one |
| `TransactionService.Service.BeginSign` | `backend/src/transaction/transaction.service.ts:79-122` | the checks of `sign` in their order and the copy it will save: exactly the protocol's read step, with the protocol's answer or error |
| `TransactionService.Service.BeginUpdateStatus` | `backend/src/transaction/transaction.service.ts:222-236` | the same for `updateStatus`, which accepts any status |
| `TransactionService.Service.BeginDelete` | `backend/src/transaction/transaction.service.ts:127-134` | the same for `delete`: it goes on exactly for a well-formed, stored identifier and otherwise always reports 'not found' |
| `TransactionService.Service.Save` | `backend/src/transaction/transaction.service.ts:123-123` | the save after the await overwrites the whole row: the protocol's write step |
| `TransactionService.Service.Remove` | `backend/src/transaction/transaction.service.ts:135-135` | the deletion after the await: the protocol's write step |
| `TransactionService.Service.Sign` | `backend/src/transaction/transaction.service.ts:79-125` | a sign request with nothing beside it: either the row becomes the signed row or the repository is unchanged |
| `SigningProgress.OutcomeIsTheEndorsers` | `backend/src/transaction/transaction.service.ts:79-125` | from a fresh record, any sequence of attempts, refused, repeated or accepted, records exactly the listed keys that ever presented a verifying signature, once each, and the record is SIGNED exactly when they reach the threshold |
| `SigningProgress.OrderDoesNotMatter` | `backend/src/transaction/transaction.service.ts:79-125` | two sequences with the same endorsers end in the same status and in permuted key lists |
| `SigningProgress.SignedAtTheThreshold` | `backend/src/transaction/transaction.service.ts:119-122` | the status turns SIGNED at the threshold-th accepted key, neither before nor after, and stays |
| `SigningProgress.AllSignersPermuteTheList` | `backend/src/transaction/transaction.service.ts:111-122` | when every listed key has endorsed, the signed keys are a permutation of the key list |
| `AutoSubmit.Collect` | `backend/src/jobs/autoSubmit.service.ts:62-100` | the paging loop ends and has judged exactly pages 1 to max(1, totalPages - 1), each by the clock read after fetching it |
| `AutoSubmit.PassIsCompleteIff` | `backend/src/jobs/autoSubmit.service.ts:62-100` | with any clock readings, a pass finds everything that reading every page would find if and only if the last of two or more pages holds nothing to find at the time it would have been read; with at most one page it always does |
| `AutoSubmit.IntendedIsEverything` | `backend/src/jobs/autoSubmit.service.ts:83-98` | reading every page at one clock reading finds exactly what qualifies in the whole listing |
| `AutoSubmit.SecondPageIsSkipped` | `backend/src/jobs/autoSubmit.service.ts:62-100` | the concrete failing case: of two hundred submittable rows only the first hundred are collected |
| `AutoSubmit.PassPicksOnce` | `backend/src/jobs/autoSubmit.service.ts:83-98` | over one listing, whatever the clock readings: a row is picked at most once and never for both purposes, only rows of the listing that qualify are picked, EXPIRED, ERROR and EXECUTED ones never |
| `AutoSubmit.PickedIff` | `backend/src/jobs/autoSubmit.service.ts:83-98` | a row of a page that the loop reads is picked for submission exactly when it is SIGNED and in its three minutes, and for expiry exactly when it is SIGNED or PENDING and past them, by the clock of its page |
| `JobHistory.HistoriesAreRuns` | `backend/src/jobs/autoSubmit.service.ts:51-141` | every history of page reads, submissions and status moves, with any number of passes under way and clients acting between any two of them, projects to a protocol run that writes only EXPIRED, EXECUTED or ERROR, so the protocol's theorems apply to it |
| `JobHistory.StablePassCollects` | `backend/src/jobs/autoSubmit.service.ts:62-106` | a pass that finds one listing all the time ends by itself after the pages the paging loop reads and picks, for either purpose, exactly what that loop collects |
| `JobHistory.OnlyQuorumsAreSubmitted` | `backend/src/jobs/autoSubmit.service.ts:83-88` | in every history a record is picked for submission only in a version that was SIGNED, inside its 180-second window and carrying a full verified quorum |
| `JobHistory.OverdueNeverSubmitted` | `backend/src/jobs/autoSubmit.service.ts:90-95` | in every history, overlapping passes included, a record once picked for expiry is never picked for submission afterwards, whatever lands on it |
| `JobReports.StatusesAreReports` | `backend/src/jobs/autoSubmit.service.ts:118-140` | in every history an EXECUTED row, or an open request to write EXECUTED, belongs to a record that an earlier action has submitted with success, ERROR to one submitted without, EXPIRED to one picked for expiry |
| `JobReports.ReportsSayWhatHappened` | `backend/src/jobs/autoSubmit.service.ts:118-140` | conversely, in every history: the report on a submission whose row is still stored opens exactly the request that says how it went, and the move of a record due for expiry the one that says EXPIRED |
| `JobReports.SubmissionsAwaitReport` | `backend/src/jobs/autoSubmit.service.ts:126-127` | in every history a submission makes its own task await exactly that report and changes nothing else |
| `JobReports.HeldBackUntilPassEnds` | `backend/src/jobs/autoSubmit.service.ts:62-126` | in every history, overlapping passes included: each picked record was listed by one page read and is held back exactly until an action ends the pass of that read, so nothing is submitted or expired before |
| `JobOnce.HandledOnceIff` | `backend/src/jobs/autoSubmit.service.ts:62-140` | in every history whose signatures land in time, overlapping passes and shifting pages included: no record is picked twice, for either purpose, if and only if no page read meets a qualifying row that is still being handled |
| `JobOnce.SubmittedAtMostOnce` | `backend/src/jobs/autoSubmit.service.ts:62-140` | in particular none is picked twice when passes do not overlap and the pages of a pass do not repeat what it has picked; and then no status move is open on an EXPIRED, EXECUTED or ERROR row |
| `JobOnce.SettledStaysIff` | `backend/src/transaction/transaction.service.ts:119-123` | a row that is gone or terminal stays so through an action if and only if it is not the late save of an accepted signature whose copy is not terminal or reaches its threshold |
| `JobOnce.NothingRevivedIff` | `backend/src/transaction/transaction.service.ts:119-123` | along a whole history such rows never come back to life if and only if every signature lands in time |
| `JobTwice.LateSignatureSubmitsTwice` | `backend/src/jobs/autoSubmit.service.ts:127-140` | landing in time cannot be dropped: a history with passes alone and no repeated page, in which a signature read before a submission is saved after the row has become EXECUTED and the next pass submits it again |
| `JobTwice.DeletedRowSubmitsTwice` | `backend/src/jobs/autoSubmit.service.ts:127-140` | and for deleted rows too: the late save brings the row back SIGNED and it is submitted again |
| `JobTwice.OverlappingPassesSubmitTwice` | `backend/src/jobs/autoSubmit.service.ts:118-127` | nor can not overlapping: the loops over the picked records are not awaited, so a second pass can pick a row that the first has not yet submitted, with no late signature and no repeated page |
| `JobTwice.RepeatedPageSubmitsTwice` | `backend/src/jobs/autoSubmit.service.ts:62-105` | nor can pages that do not repeat: of 201 rows the loop reads two pages, and one pass meets a row on both when the unordered query lists the store in another order for the second |
| `HoldLedger.StepDrift` | `sdk/__tests__/jest-setup-file.ts:277-387` | one operation, of any amount on any state, moves free balances plus held tokens away from the supply by exactly what it takes without a balance entry to take it from |
| `HoldLedger.StepConservesIff` | `sdk/__tests__/jest-setup-file.ts:277-387` | so it conserves the supply if and only if what it takes is backed by a balance entry |
| `HoldLedger.SupplyLaw` | `sdk/__tests__/jest-setup-file.ts:277-387` | the exact law of every run: free balances plus held tokens exceed the supply by precisely what wipes have taken from accounts without a balance entry |
| `HoldLedger.SupplyIsConservedIff` | `sdk/__tests__/jest-setup-file.ts:277-387` | the supply is conserved all along a run if and only if its wipes hit accounts with a balance entry |
| `HoldLedger.BurnableIsWhatIsFree` | `sdk/__tests__/jest-setup-file.ts:1609-1615` | in every run the burnable amount is the sum of free balances, less those unbacked wipes; a burn stays within it exactly when the remaining supply still covers everything on hold |
| `HoldLedger.HeldTotalsAgree` | `sdk/__tests__/jest-setup-file.ts:298-305` | the global held amount is the sum of the per-account ones, in every run of any amounts |
| `HoldLedger.HeldFallsShortByPartials` | `sdk/__tests__/jest-setup-file.ts:347-371` | the exact law: an account's held amount plus what partial consumptions have taken without reducing the stored amounts equals the sum of its open holds' stored amounts |
| `HoldLedger.HeldMatchesOpenHolds` | `sdk/__tests__/jest-setup-file.ts:347-371` | hence held is at most the open holds' stored amounts when consumptions stay within them, and equal when each takes its whole hold |
| `HoldLedger.IdsInOrder` | `sdk/__tests__/jest-setup-file.ts:306-326` | in every run each account's id list is strictly increasing, lists exactly its open holds and stays below the next id |
| `HoldLedger.IdsIssuedOnce` | `sdk/__tests__/jest-setup-file.ts:306-307` | the n-th hold of an account gets id n - 1: no id is issued twice, in any run |
| `LedgerDouble.TokenLedger.constructor` | `sdk/__tests__/jest-setup-file.ts:1043-1046` | the initial ledger: the whole supply in the treasury, nothing held |
| `LedgerDouble.TokenLedger.Wipe` | `sdk/__tests__/jest-setup-file.ts:277-288` | the in-place update is the ledger's wipe step: the supply drops even where no balance does |
| `LedgerDouble.TokenLedger.Burn` | `sdk/__tests__/jest-setup-file.ts:529-541` | the same for a burn from the treasury |
| `LedgerDouble.TokenLedger.Mint` | `sdk/__tests__/jest-setup-file.ts:542-555` | the same for a mint |
| `LedgerDouble.TokenLedger.Rescue` | `sdk/__tests__/jest-setup-file.ts:578-601` | the same for a rescue, also when caller and treasury coincide |
| `LedgerDouble.TokenLedger.CreateHold` | `sdk/__tests__/jest-setup-file.ts:290-330` | the seven in-place updates make the ledger's creation step, and the returned id is the account's next one and open |
| `LedgerDouble.TokenLedger.DecreaseHeldAmount` | `sdk/__tests__/jest-setup-file.ts:332-387` | the in-place consumption is the ledger's: it pays the target or the hold's own destination, and closes the hold only for exactly the stored amount |
| `LedgerDouble.TokenLedger.ExecuteHold` | `sdk/__tests__/jest-setup-file.ts:656-660` | execution is the ledger's execution step |
| `LedgerDouble.TokenLedger.ReleaseHold` | `sdk/__tests__/jest-setup-file.ts:661-666` | release pays the holder |
| `LedgerDouble.TokenLedger.ReclaimHold` | `sdk/__tests__/jest-setup-file.ts:667-671` | reclaim pays the holder the whole hold |
| `HoldGuards.PayoutsAlwaysRight` | `sdk/src/app/service/ValidationService.ts:54-155` | in every guarded history with a non-decreasing clock, partial amounts included: a hold pays on its escrow's call up to expiry or on a reclaim from expiry on, a hold with a fixed destination pays only that or its holder, strictly after expiry its tokens only go back, and no single payment exceeds its amount |
| `HoldGuards.EachHoldPaidOnceIff` | `sdk/src/app/service/ValidationService.ts:54-155` | in every guarded history: each hold is either open and unpaid or has been paid exactly once and in full, if and only if every execution and release that the guards let through names its hold's whole amount |
| `HoldGuards.ExpiredHoldsGoBack` | `sdk/src/app/service/ValidationService.ts:134-155` | whatever is done next to a hold that is open when the clock is past its expiry can only send its tokens back |
| `HoldGuards.PaysWhatItMay` | `sdk/src/app/usecase/command/stablecoin/operations/hold/executeHold/ExecuteHoldCommandHander.ts:124-149` | every payment a command's guards let through is out of an open hold and within what the hold and the clock allow |
| `HoldGuards.HoldAfter` | `sdk/__tests__/jest-setup-file.ts:350-371` | which holds are open after an operation, and with what content, for every hold and operation: only creation and exact consumption matter |
| `HoldGuards.PartialExecutionsOverpay` | `sdk/__tests__/jest-setup-file.ts:356-360` | without whole amounts the guards do not suffice in front of the double: a hold of 10 is executed for 6 twice and stays open |
| `HoldGuards.GuardedStepsConserveIff` | `sdk/src/app/usecase/command/stablecoin/operations/wipe/WipeCommandHandler.ts:70-88` | an operation the handlers let through conserves the supply if and only if it is not a wipe of a negative amount from an account without a balance entry: otherwise the handlers' balance checks are all that conservation needs |
| `HoldGuards.GuardedHistoriesConserve` | `sdk/src/app/service/ValidationService.ts:157-167` | in every guarded history without such wipes the supply is conserved, and a burn passes its guard exactly when it leaves no less supply than is on hold, which is when the free balances do not go into debt |
| `HoldGuards.GuardedHistoriesConserveIff` | `sdk/src/app/service/ValidationService.ts:157-167` | the supply is conserved all along a guarded history if and only if no such wipe is let through |
| `DeskLaws.PassesIff` | `sdk/src/app/service/ValidationService.ts:54-167` | a command passes its guards exactly when the balance or amount is there and, out of a hold, the caller of an execution or release is the escrow, the destination fits and the clock is on the right side of the expiry |
| `DeskLaws.RefusalsAreTrue` | `sdk/src/app/service/ValidationService.ts:54-167` | a refusal names a condition that really is not met |
| `DeskLaws.SentFor` | `sdk/src/app/usecase/command/stablecoin/operations/hold/executeHold/ExecuteHoldCommandHander.ts:124-149` | the operation that a passing command sends has the command's own account, hold, target and amount |
| `DeskLaws.PaymentIsACommand` | `sdk/__tests__/jest-setup-file.ts:332-387` | in every guarded history each payment on record was made by one command that passed its guards, with that command's caller, amount and time: an execution to whom it names or the hold's own destination, a release or reclaim back to the holder |
| `DeskLaws.CommandIsPaid` | `sdk/__tests__/jest-setup-file.ts:332-387` | and each execution, release or reclaim of an open hold that passes puts exactly one such payment on record |
| `DeskLaws.HoldsAreCreations` | `sdk/__tests__/jest-setup-file.ts:290-330` | in every guarded history an account's holds are numbered from 0 in the order of its creation commands that passed, each with the terms its command named |
| `DeskLaws.FundsLaw` | `sdk/__tests__/jest-setup-file.ts:277-387` | in every guarded history each account's balance is what it started with, what commands that passed gave it or took from it, and what it was paid out of holds, and nothing else |
| `EnumerableSet.AddedIsInsertion` | `contracts/contracts/core/EnumerableSetBytes4.sol:72-84` | `add` keeps array and index map in agreement and inserts exactly that value |
| `EnumerableSet.RemovedIsDeletion` | `contracts/contracts/core/EnumerableSetBytes4.sol:90-121` | `remove`, which moves the last value into the gap, keeps the agreement and deletes exactly that value |
| `EnumerableSet.RunIsTheSet` | `contracts/contracts/core/EnumerableSetBytes4.sol:72-150` | after any run of additions and removals the array lists, each once, exactly the members of the mathematical set |
| `EnumerableSet.SwapSet.Add` | `contracts/contracts/core/EnumerableSetBytes4.sol:72-84` | the in-place addition is the specified one; it answers whether the value was new |
| `EnumerableSet.SwapSet.Remove` | `contracts/contracts/core/EnumerableSetBytes4.sol:90-121` | the in-place swap-and-pop is the specified removal; it answers whether the value was there |
| `HoldFacet.AggregatesAlwaysAgree` | `contracts/contracts/extensions/HoldManagementFacet.sol:346-388` | in every run, partial amounts and reverts included: the global held amount is the sum over accounts, each account's is the sum of its open holds, every open hold is positive, and the id sets hold exactly the open ids |
| `HoldFacet.QueriesAgree` | `contracts/contracts/extensions/HoldManagementFacet.sol:394-414` | the count and id queries answer the number and the ids of the open holds, each once |
| `HoldFacet.EveryHoldIsAccountedFor` | `contracts/contracts/extensions/HoldManagementFacet.sol:124-294` | in every history what a hold has paid and what it still stores add up to what it was created with; it is open exactly while something is left; payments before expiry are made by its escrow and go to its destination or holder, and from expiry on only to its holder |
| `HoldFacet.StepKeepsCoverIff` | `contracts/contracts/extensions/RescuableFacet.sol:29-53` | an accepted call keeps the treasury covering all holds if and only if it is not a rescue, by another account, of more than the burnable amount |
| `HoldFacet.ConsumptionIsWithin` | `contracts/contracts/extensions/HoldManagementFacet.sol:199-294` | an accepted execution, release or reclaim takes a non-negative amount within the stored one from an open hold of a non-zero account |
| `HoldFacet.AlwaysCoveredIff` | `contracts/contracts/extensions/HoldManagementFacet.sol:303-337` | the treasury covers everything on hold all along a run if and only if it did at first and every accepted rescue by another account stays within the burnable amount |
| `HoldFacet.OpenHoldsArePayable` | `contracts/contracts/extensions/HoldManagementFacet.sol:272-294` | in such a run every open hold's amount is in the treasury, and once expired it can be reclaimed whenever the token service answers |
| `HoldFacet.RescueUncovers` | `contracts/contracts/extensions/RescuableFacet.sol:29-53` | the failing case: 10 minted, 10 put on hold, 1 rescued, and the expired hold cannot be reclaimed |
| `ContractLaws.AcceptedIff` | `contracts/contracts/extensions/HoldManagementFacet.sol:26-115` | a call is accepted exactly when the token service answers and its condition holds, which for an execution or release includes that the caller is the hold's escrow and the time before its expiry; any other call changes nothing |
| `ContractLaws.RefusalsAreTrue` | `contracts/contracts/extensions/HoldManagementFacet.sol:26-115` | a refusal names a condition that really is not met |
| `ContractLaws.ServiceIsAskedLast` | `contracts/contracts/extensions/HoldManagementFacet.sol:124-294` | and the token service's refusal is reported only when all of the contract's own conditions are met |
| `ContractLaws.PaymentIsACall` | `contracts/contracts/extensions/HoldManagementFacet.sol:199-294` | in every run each payment on record was made by one accepted call, with its caller, amount and time: an execution to whom it names, a release or reclaim to the holder |
| `ContractLaws.CallIsPaid` | `contracts/contracts/extensions/HoldManagementFacet.sol:199-294` | and each accepted execution, release or reclaim puts exactly one such payment on record |
| `ContractLaws.HoldsAreCreations` | `contracts/contracts/extensions/HoldManagementFacet.sol:346-367` | in every run an account's holds are numbered from 1 in the order of its accepted creations, each with the terms of its call |
| `ContractLaws.FundsLaw` | `contracts/contracts/extensions/HoldManagementFacet.sol:303-337` | in every run each account has what it started with, what accepted calls gave it or took from it, and what it was paid out of holds, and nothing else; the treasury's share is what it has beyond everything on hold |
| `HoldContract.HoldManagement.constructor` | `contracts/contracts/extensions/HoldManagementStorageWrapper.sol:12-19` | new storage is empty |
| `HoldContract.HoldManagement.CreateHold` | `contracts/contracts/extensions/HoldManagementFacet.sol:124-189` | a call either reverts with the specified error and changes nothing or makes exactly the specified new storage and returns the next id |
| `HoldContract.HoldManagement.RegisterHold` | `contracts/contracts/extensions/HoldManagementFacet.sol:346-367` | hold, id set and both aggregates are updated together |
| `HoldContract.HoldManagement.DecreaseHoldAmount` | `contracts/contracts/extensions/HoldManagementFacet.sol:375-388` | both aggregates and the stored amount drop; a hold that reaches zero leaves map and id set |
| `HoldContract.HoldManagement.ExecuteHold` | `contracts/contracts/extensions/HoldManagementFacet.sol:199-232` | checks in order, the specified error or the specified new storage and payment |
| `HoldContract.HoldManagement.ReleaseHold` | `contracts/contracts/extensions/HoldManagementFacet.sol:241-264` | the same for a release |
| `HoldContract.HoldManagement.ReclaimHold` | `contracts/contracts/extensions/HoldManagementFacet.sol:272-294` | the same for a reclaim by anyone |
| `DoubleTracksFacet.StepTracksIff` | `sdk/__tests__/jest-setup-file.ts:332-387` | contract and test double agree after an accepted call, on every balance, held amount, id counter and open hold, if and only if the call is not a partial consumption |
| `DoubleTracksFacet.RunsAreTrackedIff` | `sdk/__tests__/jest-setup-file.ts:290-387` | contract and double agree after every transaction of a run if and only if every accepted consumption takes its whole hold or nothing |
| `DoubleTracksFacet.WholeRunsAreTracked` | `sdk/__tests__/jest-setup-file.ts:290-387` | in particular a run whose accepted consumptions all take whole holds ends in agreement |
| `DoubleTracksFacet.ExpiryChecksAgreeIff` | `sdk/src/app/service/ValidationService.ts:144-154` | for an open hold the SDK's expiry check in front of an execution or release refuses exactly when the contract does if and only if it is not the very second of expiry; in front of a reclaim always |
| `RoleLedger.RoleIndexes` | `sdk/__tests__/jest-setup-file.ts:204-230` | in every run role lists and reverse lists never repeat an entry, every holder is in the reverse list, and that list is exactly the accounts ever granted the role in order of first grant |
| `RoleLedger.CallKeepsCurrentIff` | `sdk/__tests__/jest-setup-file.ts:216-230` | a call keeps a reverse list of exactly the current holders so if and only if it does not revoke the role from a holder |
| `RoleLedger.StaleIffTakenAway` | `sdk/__tests__/jest-setup-file.ts:216-230` | in every run the accounts listed without having the role are exactly those whose last grant or effective revocation was a revocation |
| `RoleLedger.ReverseListIsCurrentIff` | `sdk/__tests__/jest-setup-file.ts:216-230` | so at the end of a run the list is current if and only if nobody's role was taken away without being given again later |
| `RoleLedger.CallKeepsSuppliersIff` | `sdk/__tests__/jest-setup-file.ts:204-258` | one ledger call keeps supplier entries and the supplier role in step exactly when it is not a plain grant to a non-supplier or a plain revocation from a supplier |
| `RoleLedger.PortKeepsSuppliersAndRoles` | `sdk/src/port/in/Role.ts:122-242` | through the role port, bulk requests included: an account has the supplier role if and only if it has a supplier entry, a holder is exactly one of limited and unlimited, and the port's two-query `isLimited` is the ledger's own |
| `RoleLedger.RouteCallsRouted` | `sdk/src/port/in/Role.ts:122-195` | every accepted port request, bulk ones included, reaches the ledger only through the supplier functions where the supplier role is concerned |
| `RolePort.PortLaw` | `sdk/src/port/in/Role.ts:122-337` | after any accepted requests, an account's supplier entry is what those that concern it come to in order: a limited grant sets its amount, an unlimited one no limit, a bulk grant the positive amount or no limit for 0, a reset 0, an increase or decrease adds or subtracts, a revocation removes it; and likewise for every role |
| `RolePort.BulkGrantsInPlace` | `sdk/__tests__/jest-setup-file.ts:437-463` | a bulk grant of the supplier role gives each account the amount at its place in the list, with 0 and the largest number for no limit |
| `RoleDouble.RoleBook.constructor` | `sdk/__tests__/jest-setup-file.ts:133-135` | no roles and no suppliers at first |
| `RoleDouble.RoleBook.GrantRole` | `sdk/__tests__/jest-setup-file.ts:204-214` | the in-place grant is the ledger's, on both indexes |
| `RoleDouble.RoleBook.RevokeRole` | `sdk/__tests__/jest-setup-file.ts:216-230` | the in-place revocation is the ledger's: the reverse list keeps the account |
| `RoleDouble.RoleBook.GrantSupplierRole` | `sdk/__tests__/jest-setup-file.ts:232-241` | role and limited allowance are set together |
| `RoleDouble.RoleBook.GrantUnlimitedSupplierRole` | `sdk/__tests__/jest-setup-file.ts:243-252` | role and unlimited allowance are set together |
| `RoleDouble.RoleBook.RevokeSupplierRole` | `sdk/__tests__/jest-setup-file.ts:254-258` | role and allowance go together |
| `RoleDouble.RoleBook.ResetSupplierAllowance` | `sdk/__tests__/jest-setup-file.ts:497-504` | only an existing supplier's amount is reset |
| `RoleDouble.RoleBook.IncreaseSupplierAllowance` | `sdk/__tests__/jest-setup-file.ts:505-516` | an increase for a non-supplier grants the role |
| `RoleDouble.RoleBook.DecreaseSupplierAllowance` | `sdk/__tests__/jest-setup-file.ts:517-528` | a decrease for a non-supplier does nothing |
| `RoleDouble.RoleBook.GrantRoles` | `sdk/__tests__/jest-setup-file.ts:437-463` | the nested loops make the ledger's calls role by role, account by account |
| `RoleDouble.RoleBook.RevokeRoles` | `sdk/__tests__/jest-setup-file.ts:464-483` | the same for bulk revocation |
| `Language.PlaceholderIsTheMatch` | `cli/src/domain/language/Language.ts:42-42` | the modelled split expression matches at a position in exactly the way the regular expression says, and in at most one way |
| `Language.HitIsTheMatch` | `cli/src/domain/language/Language.ts:43-43` | the same for the match expression with its look-ahead |
| `Language.SplitDecomposes` | `cli/src/domain/language/Language.ts:42-42` | for every string the literal parts and the names between them, one more part than names, spell the string out again |
| `Language.MatchScanSees` | `cli/src/domain/language/Language.ts:43-43` | what the second scan finds in any rendered template: the braced runs inside each literal part and the non-empty names between them, in order |
| `Language.ScansAgreeIff` | `cli/src/domain/language/Language.ts:42-43` | for every string the two scans are in step if and only if no placeholder is empty and no literal part hides a braced run |
| `Language.GetTextSubstitutes` | `cli/src/domain/language/Language.ts:37-51` | whenever the second scan sees the names first, in order, whatever it sees after them, the text is the template with each placeholder replaced where it stands, missing parameters by nothing |
| `Language.TextIsRightIff` | `cli/src/domain/language/Language.ts:37-51` | and only then: the text is the direct substitution for all parameters if and only if the names are a prefix of what the second scan sees |
| `Language.TemplatesReadBack` | `cli/src/domain/language/Language.ts:42-43` | for literal parts without `}` and well-formed non-empty names, the scans return exactly the n + 1 parts and the n names the template was written from |
| `Language.GetTextOfTemplate` | `cli/src/domain/language/Language.ts:37-51` | and the text is the direct substitution, for all parameters |
| `Language.EmptyPlaceholderShifts` | `cli/src/domain/language/Language.ts:42-50` | an empty placeholder puts the scans out of step: the next value lands one place early |
| `Language.TextIsFilled` | `cli/src/domain/language/Language.ts:37-51` | without parameters the text is the template itself; with them, for every template of parts without `}` and well-formed non-empty names, it is the parts with the given values between them and nothing for a missing one |
| `Language.SubstituteIsFilled` | `cli/src/domain/language/Language.ts:37-51` | and the direct substitution of any string is its literal parts with those values between them |
| `Language.CharacterClasses` | `cli/src/domain/language/Language.ts:42-43` | the characters of a name are, by code point, the ASCII digits, letters and underscore and six Scandinavian letters; a plain character is anything but braces and backslash |
| `HexCodec.BytesRoundTrip` | `backend/src/utils/utils.ts:74-84` | parsing what the SDK printed gives the bytes back, bare or behind `0x` or `0X`, for every non-empty byte sequence |
| `HexCodec.SdkRoundTrip` | `sdk/src/core/Hex.ts:22-30` | the SDK's own printer and parser invert on every byte sequence, the empty one included |
| `HexCodec.TextRoundTrip` | `backend/src/utils/utils.ts:74-84` | parsing succeeds exactly for two or more hexadecimal digits behind an optional prefix; printing the result gives the lower-case digits, all of them when their number is even |
| `HexCodec.ParsersAgreeIff` | `sdk/src/core/Hex.ts:28-30` | on text the backend accepts the SDK's parser gives the same bytes exactly when there is no prefix |
| `HexCodec.SameBytesIff` | `backend/src/utils/utils.ts:74-84` | two accepted texts mean the same bytes exactly when their whole bytes' digits agree up to case |
| `HexCodec.DigitCases` | `backend/src/utils/utils.ts:74-84` | a digit is printed in lower case and read in either case, with the same value |
| `HexCodec.DigitsAreTheFigures` | `backend/src/utils/utils.ts:77-77` | and nothing but those figures is a digit |
| `HexCodec.PrintedByte` | `sdk/src/core/Hex.ts:22-26` | a byte is printed as the figures of its two halves, the higher first |
| `HexCodec.PrintingConcatenates` | `sdk/src/core/Hex.ts:22-26` | printing two byte sequences one after the other is printing them together |
| `HexCodec.SpelledIsRead` | `backend/src/utils/utils.ts:74-84` | a text of digits, bare or behind `0x` or `0X`, is read as one byte for each pair of them, a single digit as an error |
| `HexCodec.RefusedIff` | `backend/src/utils/utils.ts:74-79` | a text is refused as invalid if and only if it is not digits, bare or behind such a prefix |
| `HexCodec.FrontPairsAreRead` | `sdk/src/core/Hex.ts:28-30` | for every text the SDK's parser reads exactly the longest run of whole pairs of digits at its front |
| `EnvironmentList.GetEnvironmentVariableList` | `contracts/configuration/Configuration.ts:227-247` | the loop ends within one more round than the environment has entries and returns exactly the values at the indices before the first missing or empty variable; for a name `p + c + q` with `c` not in `p` these are the variables `p + Decimal(i) + q`, numbered from 0 |
| `EnvironmentList.EndsIff` | `contracts/configuration/Configuration.ts:236-245` | a missing or empty variable is met, within that bound, if and only if the name has a place for the index or its own variable is missing or empty; otherwise every index reads the same value |
| `EnvironmentList.NamesAreDistinct` | `contracts/configuration/Configuration.ts:238-238` | different indices give different variable names whenever the name has a place for the index |
| `EnvironmentList.DecimalReadsBack` | `contracts/configuration/Configuration.ts:238-238` | decimal numerals can be read back, hence are injective |
| `EnvironmentList.VariableNameIs` | `contracts/configuration/Configuration.ts:238-238` | the numeral stands in for the first placeholder, between what is before and behind it; a name without one stays as it is |
| `EnvironmentList.IndexOfIsFirst` | `contracts/configuration/Configuration.ts:238-238` | the search finds the first place of a pattern of any length, if there is one |
| `EnvironmentList.DecimalIsCanonical` | `contracts/configuration/Configuration.ts:238-238` | numerals consist of the figures 0 to 9 and have no leading zero |
| `EnvironmentList.PresentFitInEnvironment` | `contracts/configuration/Configuration.ts:236-245` | n consecutive non-empty variables need n entries in the environment |
| `Capabilities.ListImplementsTable` | `sdk/src/port/out/CapabilityDecider.ts:28-43` | for every coin, account and overrides, first-match lookup in the capability list gives, for every operation, the decision of a directly stated table |
| `Capabilities.EveryDecision` | `sdk/src/app/service/StableCoinService.ts:73-308` | for every coin, account, overrides and operation, the decision and the list entry found, from the coin's own fields: behind a key, HTS exactly when the key is a public key of that account and CONTRACT exactly when it is an entity id, each only when the operation is enabled; a deleted coin enables none of them and a paused one only PAUSE and UNPAUSE |
| `Capabilities.DeletedAndPausedCoins` | `sdk/src/app/service/StableCoinService.ts:88-306` | a deleted coin lists the seven unconditional operations and no other; a paused one adds PAUSE and UNPAUSE exactly when its pause key lets the account through |
| `Capabilities.NoOperationTwiceIff` | `sdk/src/app/service/StableCoinService.ts:98-306` | no operation is listed twice, unless the supply key is a public key that prints as the treasury and belongs to the account |
| `Capabilities.EntityTreasuriesListOnce` | `sdk/src/app/service/StableCoinService.ts:98-306` | which a treasury written as an entity id excludes |
| `Capabilities.GetCapabilities` | `sdk/src/app/service/StableCoinService.ts:73-308` | the push-by-push construction produces exactly the specified list, in order |
| `FacetBatches.ProcessFacetLists` | `contracts/scripts/resolverDiamondCut.ts:40-64` | lists of different length are refused and only those; otherwise the batches of the cut are sent in order, all of them or up to the first one that is not accepted |
| `FacetBatches.CutFits` | `contracts/scripts/resolverDiamondCut.ts:51-63` | the cut is the pointwise pairing in min(n, 2) non-empty, balanced pieces, and exactly the last is final unless deployment is partial |
| `FacetBatches.CutIsUnique` | `contracts/scripts/resolverDiamondCut.ts:51-63` | that description determines the batches completely |
| `FacetBatches.ResolverKeys.FetchAll` | `contracts/scripts/resolverDiamondCut.ts:140-146` | lookups that share a memo and complete in any order return each address's own key and leave a sound memo of everything asked |
| `FacetBatches.CreateConfigurations` | `contracts/scripts/resolverDiamondCut.ts:66-138` | no list is ever refused: each facet is sent under its own key with version 1, factory first, stable coin and reserve only after everything before went through, and the factory's last batch is final in every case |
| `FacetBatches.SentFacetByFacet` | `contracts/scripts/resolverDiamondCut.ts:14-64` | for every list each facet is sent once, in order, under its own key and with its own version |
| `FacetBatches.DeployedFacetByFacet` | `contracts/scripts/resolverDiamondCut.ts:66-138` | in the deployment the facet at each address is sent under the key that the address answers, with version 1 |

## Left out

- MultisigProtocol.QuorumSafeAlways: is the special case of the job's status writes; MultisigProtocol.QuorumSafeIff is the exact statement.
- MultisigSerial.ExclusiveRunsKeepSignatures: gives a discipline that suffices; MultisigLoss.NoKeyLostIff is the exact statement for whole runs.
- MultisigSerial.StepDropsSignaturesIff: is about one step; MultisigLoss.NoKeyLostIff is about whole runs.
- JobOnce.SubmittedAtMostOnce: gives disciplines that suffice, none of which can be dropped; JobOnce.HandledOnceIff is the exact statement.
- HoldGuards.GuardedHistoriesConserve: leaves out wipes of negative amounts from accounts without a balance entry, which request validation refuses; HoldGuards.GuardedHistoriesConserveIff is the exact statement.
- JobOnce.HandledOnceIff: assumes that signatures land in time; JobOnce.SettledStaysIff says exactly which saves do not.
- DoubleTracksFacet.WholeRunsAreTracked: is one direction, at the end of a run; DoubleTracksFacet.RunsAreTrackedIff is the exact statement.
- HoldFacet.OpenHoldsArePayable: assumes that rescues stay within the burnable amount, which the contract does not check; HoldFacet.AlwaysCoveredIff and HoldFacet.RescueUncovers say what happens otherwise.
- FacetBatches.ProcessFacetLists: a failing sending ends the loop with an error; the delays between sendings are not modelled.
- Language.GetTextSubstitutes: parameters are strings; null, nested and inherited properties of a JavaScript parameter object are not modelled.
- Signature cryptography, network submission, receipts, and the database query and filters behind the listing.
- HTTP controllers, guards, pipes, logging and dependency injection.
- KYC, freeze, association, decimals and capability checks of the command handlers, which compare one query with one constant.
- `checkValidHoldId` asks for the first hundred ids; the double answers with all of them, and so does the model.
- The contracts' role storage, supplier allowances and key checks: the hold contract's role and key modifiers do not appear in HoldFacet, nor do the reserve check and the allowance of a mint.
- Getters, events, operator data and the fields that repeat a hold's id and holder.
- The diamond proxy, resolver and factory contracts, the migration and the deployment scripts around the batches.
- HBAR rescue, freeze, KYC, pause, deletion, configuration and custom-fee branches of the test double: single assignments.
- BigDecimal's fractions and the conversion between Hedera ids and EVM addresses.
- `getArrayFromObject`, the web application, the CLI menus and the remaining CLI services.
