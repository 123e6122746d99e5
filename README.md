# VolunteerChain contribution registry, in Dafny

VolunteerChain keeps a registry of volunteer work. A volunteer logs a
contribution (project, hours, an evidence hash). Other principals approve it
until a quorum is reached and the record becomes verified. Once an authority
principal is bound, a pending record can instead be rejected. The registry's
only logic is the class `ContributionTrackerMock` in
`tests/ContributionTracker.test.ts`, an in-memory stand-in for the on-chain
contract. This project models that class and proves what it promises.

Files:

- `registry.dfy` (module `Registry`): the record, the status, the
  `{ ok, value }` reply, the error codes, and the registry state. It defines
  each operation as a function from the state before the call to the reply
  and the state after it. `Op`, `Apply` and `Run` describe any sequence of
  calls.
- `invariants.dfy` (module `RegistryInvariants`): the invariant `Inv` and its
  preservation by every operation and by every sequence of calls. `Inv` says:
  - `approvalCount == |approvers|`;
  - the approvers are distinct and never the burn principal;
  - every stored field passed the checks of the log operation;
  - ids are below the counter;
  - the uniqueness index and the records agree both ways.
- `properties.dfy` (module `RegistryProperties`): the outcome of each
  operation (when it succeeds, what it writes, which error comes first) and
  facts over any sequence of calls:
  - index entries are permanent, so a duplicate log always fails;
  - verified and rejected records never change again;
  - the authority is bound at most once;
  - the cap holds as long as it is not lowered.
- `keys.dfy` (module `KeyStrings`): the decimal rendering of project ids and
  the string key `volunteer-projectId` the registry builds. It proves that
  the pair the model looks up (`Registry.LookupKey`) is found exactly when
  the registry's string key matches, negative project ids included.
- `tracker.dfy` (module `Tracker`): class `ContributionTracker`, whose fields
  are the mock's state. Its methods run the same guard chains and write the
  fields in place. Each is proved to answer and update exactly as the
  matching function in `Registry` does, and to keep `Inv`.
- `scenarios.dfy` (module `Scenarios`): the file's test cases replayed on the
  class. Each method's postcondition is what the test expects.

The host supplies the caller and the block height. The mock keeps them in
fields that the tests assign before each call; here they are parameters of
the operations that read them. The test that assigns `state.maxApprovers`
directly is modelled by the constructor `Configured`.

Points where the code behaves in a way a reader might not expect, all
modelled as written:

- `setMinApprovals` only accepts a quorum up to the cap, but
  `setMaxApprovers` never re-checks it, and the test at line 249 makes them
  cross. So `Inv` does not include `minApprovals <= maxApprovers`.
  `CapCanDropBelowQuorum` shows a valid registry reaching that state, and
  `QuorumAboveCapNeverVerifies` shows the consequence.
- `ERR_CONTRIB_NOT_FOUND` (106) is declared but never returned; a missing
  record is answered `{ ok: false, value: false }`.
- A rejected record is refused with the code named "already verified" (108).
- The code tests the authority with `!authorityContract`, so a bound empty
  string counts as no authority. The rebinding test compares with `null`,
  so binding `""` succeeds and then locks governance for good
  (`EmptyAuthorityLocksGovernance`).
- The lookup by volunteer uses `|| null`, so a record with id 0 is reported
  as absent.
- The lookup by volunteer builds the string `volunteer-projectId`. For a
  negative project id, `("A", -1)` gives `A--1`, which is the key of the
  pair `("A-", 1)`: the lookup returns that record's id
  (`NegativeProjectLookupFindsOtherPair`).

## Model

| member | source | states |
|---|---|---|
| Registry.Init | tests/ContributionTracker.test.ts:39-59 | the initial and the reset state have no records, an empty index, counter 0, no authority, and 1 <= quorum <= cap <= 10 |
| Registry.HasAuthority | tests/ContributionTracker.test.ts:73 | the falsy test `!authorityContract` (also at lines 81 and 133): authority needs a binding, and a bound empty string does not count |
| Registry.GetContribution | tests/ContributionTracker.test.ts:138-140 | a record is returned exactly when the id is in use, and it is the stored record |
| Registry.GetContributionByVolunteer | tests/ContributionTracker.test.ts:142-144 | an id is returned exactly when the key the lookup string stands for is indexed to a nonzero id, and it is that id |
| Registry.SetAuthorityContract | tests/ContributionTracker.test.ts:65-70 | a refused bind leaves the state as it was; no bind touches the records |
| Registry.SetMinApprovals | tests/ContributionTracker.test.ts:72-78 | a refused change leaves the state as it was; the records are never touched |
| Registry.SetMaxApprovers | tests/ContributionTracker.test.ts:80-84 | a refused change leaves the state as it was; the records are never touched |
| Registry.LogContribution | tests/ContributionTracker.test.ts:86-107 | a failed log leaves the state as it was; the authority binding is never touched |
| Registry.VerifyContribution | tests/ContributionTracker.test.ts:109-126 | a failed approval leaves the state as it was; the authority binding is never touched |
| Registry.RejectContribution | tests/ContributionTracker.test.ts:128-136 | a failed rejection leaves the state as it was; the authority binding is never touched |
| Registry.Apply | tests/ContributionTracker.test.ts:65-136 | every call either fully applies or leaves the state unchanged |
| RegistryInvariants.InitSatisfiesInv | tests/ContributionTracker.test.ts:39-63 | the default (and the cap-configured) initial state is valid and within its cap |
| RegistryInvariants.AppendKeepsDistinct | tests/ContributionTracker.test.ts:114-116 | appending a principal absent from a distinct approver list keeps it distinct |
| RegistryInvariants.LogPreservesInv | tests/ContributionTracker.test.ts:86-107 | logging keeps the invariant: fresh id below the new counter, index and records agreeing both ways |
| RegistryInvariants.VerifyPreservesInv | tests/ContributionTracker.test.ts:109-126 | approving keeps approvalCount equal to the number of approvers, distinct approvers, at most 10 of them, and verified only with at least one approval |
| RegistryInvariants.RejectPreservesInv | tests/ContributionTracker.test.ts:128-136 | rejecting keeps the invariant |
| RegistryInvariants.ApplyPreservesInv | tests/ContributionTracker.test.ts:65-136 | every operation keeps the invariant |
| RegistryInvariants.RunPreservesInv | tests/ContributionTracker.test.ts:31-145 | every state reached from a valid state by any sequence of calls is valid |
| RegistryProperties.LogContributionOutcome | tests/ContributionTracker.test.ts:86-107 | a log succeeds iff all five checks pass; then it returns the old counter, bumps it by one, stores a pending record (caller as volunteer, block height as timestamp, no approvers, count 0) under an id not in use, keeps every other record, and indexes (caller, project) to the id |
| RegistryProperties.LogContributionChecksInOrder | tests/ContributionTracker.test.ts:87-92 | the first failing check decides the code: 112 project, 102 burn caller, 103 hours outside 1..1000, 104 empty evidence, 105 pair already indexed; a failure changes nothing |
| RegistryProperties.ApplyKeepsIndexEntry | tests/ContributionTracker.test.ts:92-104 | no call removes an index entry or changes the id it holds |
| RegistryProperties.IndexEntriesArePermanent | tests/ContributionTracker.test.ts:92-104 | after any sequence of calls an indexed pair is still indexed to the same id |
| RegistryProperties.DuplicateLogAlwaysFails | tests/ContributionTracker.test.ts:169-175 | after a successful log of a pair, a later log of that pair fails after any calls, changes nothing, and answers 105 when hours and evidence are valid, whatever the first record's status |
| RegistryProperties.AtMostOneRecordPerPair | tests/ContributionTracker.test.ts:91-92 | in a valid state two records with the same (volunteer, project) are the same record |
| RegistryProperties.LookupByVolunteerAgreesWithRecords | tests/ContributionTracker.test.ts:142-144 | in a valid state the lookup returns a nonzero id of a record whose string key `volunteer-projectId` equals the lookup string; when it returns nothing, every record whose string key equals the lookup string has id 0 |
| RegistryProperties.VerifyContributionOutcome | tests/ContributionTracker.test.ts:109-126 | an approval succeeds iff the record exists, the caller is not burn, it is pending, the caller has not approved and it is below the cap; then the caller is appended, approvalCount equal to the number of approvers, approvers stay distinct, immutable fields, other records, index and configuration are unchanged |
| RegistryProperties.VerifyContributionChecksInOrder | tests/ContributionTracker.test.ts:110-115 | missing record -> `{false, false}`, burn caller -> 111, decided record -> 108, repeat approver -> 111, cap reached -> 113, in that order; a failure changes nothing |
| RegistryProperties.QuorumDecidesStatus | tests/ContributionTracker.test.ts:117-118 | after a successful approval the record is verified iff its approvers reach the quorum, else still pending |
| RegistryProperties.ApprovalRespectsCap | tests/ContributionTracker.test.ts:115-116 | a successful approval leaves at most `maxApprovers` approvers and keeps every record within the cap |
| RegistryProperties.ApplyKeepsCap | tests/ContributionTracker.test.ts:80-136 | every call that does not leave the cap lower than before (a refused call included) keeps all records of a valid state within the cap |
| RegistryProperties.RunKeepsCap | tests/ContributionTracker.test.ts:80-136 | over any sequence of calls none of which leaves the cap lower than before, no record of a valid state ever exceeds the cap |
| RegistryProperties.QuorumAboveCapNeverVerifies | tests/ContributionTracker.test.ts:115-118 | with the quorum above the cap, approving a pending record within the cap leaves it pending |
| RegistryProperties.RejectContributionOutcome | tests/ContributionTracker.test.ts:128-136 | a rejection succeeds iff the record exists, the caller is not burn, it is pending and an authority is bound; it then sets the status to rejected and changes nothing else |
| RegistryProperties.RejectContributionChecksInOrder | tests/ContributionTracker.test.ts:129-133 | missing -> `{false, false}`, burn caller -> 111, decided -> 108, then 100 exactly when no authority is bound; a failure changes nothing |
| RegistryProperties.DecidedRecordIsFinal | tests/ContributionTracker.test.ts:113-132 | approving or rejecting a verified or rejected record fails, changes nothing, and answers 108 for any non-burn caller |
| RegistryProperties.ApplyKeepsDecidedRecord | tests/ContributionTracker.test.ts:86-136 | no call changes a decided record |
| RegistryProperties.DecidedRecordsNeverChange | tests/ContributionTracker.test.ts:113-132 | verified and rejected are terminal: after any sequence of calls a decided record is exactly as it was |
| RegistryProperties.SetAuthorityContractOutcome | tests/ContributionTracker.test.ts:65-70 | binding succeeds iff the principal is not burn and none is bound; it then binds it and changes nothing else; a refusal is `{false, false}` |
| RegistryProperties.AuthorityIsBoundOnce | tests/ContributionTracker.test.ts:67-68 | once bound, the authority stays the same after any sequence of calls |
| RegistryProperties.EmptyAuthorityLocksGovernance | tests/ContributionTracker.test.ts:67-73 | binding `""` succeeds, and afterwards binding, both setters and rejection are refused forever |
| RegistryProperties.SetMinApprovalsOutcome | tests/ContributionTracker.test.ts:72-78 | the quorum changes iff an authority is bound and the value is in 1..maxApprovers; nothing else changes |
| RegistryProperties.SetMaxApproversOutcome | tests/ContributionTracker.test.ts:80-84 | the cap changes iff an authority is bound and the value is in 1..10; nothing else changes |
| RegistryProperties.CapCanDropBelowQuorum | tests/ContributionTracker.test.ts:80-84 | a valid registry with an authority can set the cap to 1, below the default quorum of 2 |
| KeyStrings.DigitsHaveNoDash | tests/ContributionTracker.test.ts:91 | the decimal rendering of a natural number is nonempty and holds no `-` |
| KeyStrings.DigitCharInjective | tests/ContributionTracker.test.ts:91 | distinct digits render as distinct characters |
| KeyStrings.DigitsInjective | tests/ContributionTracker.test.ts:91 | distinct natural numbers render as distinct decimal strings |
| KeyStrings.LongerTailHoldsDash | tests/ContributionTracker.test.ts:91 | if one string is split at two different dashes, the longer tail contains a dash |
| KeyStrings.SplitAtLastDash | tests/ContributionTracker.test.ts:91 | a string of the form `head-tail` with no dash in the tail determines head and tail |
| KeyStrings.LookupKeyMatchesKeyString | tests/ContributionTracker.test.ts:143 | against a stored key (positive project id), the lookup string for any volunteer and integer project id equals the stored key's string iff `LookupKey` gives the stored pair |
| KeyStrings.StoredKeyStringsAreDistinct | tests/ContributionTracker.test.ts:91-92 | two pairs with positive project ids have the same string key only if they are the same pair, so the pair-keyed index refuses exactly the duplicates the string-keyed one refuses |
| Tracker.ContributionTracker.constructor | tests/ContributionTracker.test.ts:31-47 | a new registry holds the default state and is valid |
| Tracker.ContributionTracker.Configured | tests/ContributionTracker.test.ts:247-250 | a new registry with a chosen cap in 1..10 is otherwise default and valid |
| Tracker.ContributionTracker.Reset | tests/ContributionTracker.test.ts:51-63 | after a reset the fields hold the default state |
| Tracker.ContributionTracker.SetAuthorityContract | tests/ContributionTracker.test.ts:65-70 | reply and new fields are those of `Registry.SetAuthorityContract`; validity kept |
| Tracker.ContributionTracker.SetMinApprovals | tests/ContributionTracker.test.ts:72-78 | reply and new fields are those of `Registry.SetMinApprovals`; validity kept |
| Tracker.ContributionTracker.SetMaxApprovers | tests/ContributionTracker.test.ts:80-84 | reply and new fields are those of `Registry.SetMaxApprovers`; validity kept |
| Tracker.ContributionTracker.LogContribution | tests/ContributionTracker.test.ts:86-107 | reply and new fields are those of `Registry.LogContribution`; validity kept |
| Tracker.ContributionTracker.VerifyContribution | tests/ContributionTracker.test.ts:109-126 | reply and new fields are those of `Registry.VerifyContribution`; validity kept |
| Tracker.ContributionTracker.RejectContribution | tests/ContributionTracker.test.ts:128-136 | reply and new fields are those of `Registry.RejectContribution`; validity kept |
| Tracker.ContributionTracker.GetContribution | tests/ContributionTracker.test.ts:138-140 | answers as `Registry.GetContribution`: the record stored under the id, and nothing exactly when the id is unused |
| Tracker.ContributionTracker.GetContributionByVolunteer | tests/ContributionTracker.test.ts:142-144 | answers as `Registry.GetContributionByVolunteer`; a returned id is nonzero and its record's string key equals the lookup string; nothing is returned only if every record with that string key has id 0 |
| Scenarios.Evidence | tests/ContributionTracker.test.ts:149 | the tests' evidence hash has 32 bytes |
| Scenarios.LogsContributionSuccessfully | tests/ContributionTracker.test.ts:156-167 | the first log returns id 0 and stores a pending record for the volunteer with project 1, 10 hours and no approvals |
| Scenarios.RejectsDuplicateContribution | tests/ContributionTracker.test.ts:169-175 | logging the same project twice answers 105 |
| Scenarios.RejectsInvalidInputs | tests/ContributionTracker.test.ts:177-196 | project 0 answers 112, 0 hours 103, empty evidence 104 |
| Scenarios.VerifiesContributionSuccessfully | tests/ContributionTracker.test.ts:198-214 | with quorum 2 the first approval leaves `[ST2APPROVER]`, count 1, pending; the second gives count 2, verified |
| Scenarios.RejectsVerificationOfMissingContribution | tests/ContributionTracker.test.ts:216-222 | approving id 99 answers `{false, false}` |
| Scenarios.RejectsVerificationBySameApprover | tests/ContributionTracker.test.ts:224-232 | a second approval by the same principal answers 111 |
| Scenarios.RejectsVerificationOfVerifiedContribution | tests/ContributionTracker.test.ts:234-245 | a third approval after verification answers 108 |
| Scenarios.RejectsVerificationBeyondCap | tests/ContributionTracker.test.ts:247-257 | with cap 1 the first approval succeeds and the second answers 113 |
| Scenarios.RejectsBurnPrincipal | tests/ContributionTracker.test.ts:259-274 | the burn principal is refused as volunteer with 102 and as approver with 111 |
| Scenarios.LogsWithoutAuthority | tests/ContributionTracker.test.ts:276-280 | logging before any authority is bound returns id 0 |
| Scenarios.ConfiguresApprovals | tests/ContributionTracker.test.ts:282-310 | quorum 3 and cap 7 are accepted and stored; quorum 6 (above cap 5) and cap 11 are refused with `{false, false}` |
| Scenarios.RejectsOnlyWithAuthority | tests/ContributionTracker.test.ts:312-329 | rejecting a pending record answers 100 before an authority is bound, and succeeds with status rejected afterwards |
| Scenarios.FirstRecordHiddenFromVolunteerLookup | tests/ContributionTracker.test.ts:142-144 | the first record gets id 0, and the lookup by volunteer then reports it absent |
| Scenarios.NegativeProjectLookupFindsOtherPair | tests/ContributionTracker.test.ts:142-144 | after logging `("X", 1)` and `("A-", 1)`, looking up `("A", -1)` returns id 1, the record of `("A-", 1)` |

## Left out

- The test harness (`describe`, `it`, `expect`, `beforeEach`) is not modelled; its cases appear as the methods of `Scenarios`.
- The `Cl` import is unused by the registry and is not modelled.
- The `authorities` set is never read by any operation, so it is not modelled.
- The caller and block height are fields the host assigns in the mock. Here they are parameters.
- The on-chain contract that the mock stands in for is not part of this model.
- Numbers are modelled as unbounded integers. JavaScript numbers also admit fractions, `NaN` and precision loss above 2^53. `NaN` hours would slip past the hours check, and a fractional project id can make two index keys collide. None of this is modelled.
- The index key is the string `` `${caller}-${projectId}` ``. It is modelled as a pair: (caller, projectId) when logging, and `LookupKey` when looking up, which maps a negative id `-n` to (volunteer + "-", n). `KeyStrings` proves that for integer project ids the pair matches exactly when the string does. JavaScript renders numbers of 1e21 and above in exponent form; that rendering is not modelled (`Digits` writes every digit).
- The evidence hash is modelled as an opaque byte sequence; only its length is inspected.
- `setMaxApprovers` has no retroactive check, so lowering the cap can leave existing records above it. `CapRespected` is therefore proved only over histories in which no call leaves the cap lower than before (`RunKeepsCap`), not as part of `Inv`.
- The mock's records are objects that `verifyContribution` and `rejectContribution` replace with spread copies. They are modelled as immutable values; no other reference to an old record is modelled.
