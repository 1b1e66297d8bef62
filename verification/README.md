# Openmayhem, verified core

A Dafny model of the parts of Openmayhem where a mistake costs money or trust, with proofs of what they
promise over every run and every input. `dafny verify dfyconfig.toml` checks the whole project.

**Paid effects that survive crashes.** The writer checkpoint worker pays one settlement transaction per
30-second slot (`CheckpointProtocol`, `CheckpointSafety`, `CheckpointTheorems`, `CheckpointReserve`,
`CheckpointProgress`, `CheckpointWorker`); the settlement helper sends one payout per journal file
(`SettlementTransfer`, `SettlementRecovery`). Both are step relations over durable files, volatile processes and
the network, cut at every await and file operation, with crashes, restarts and failed writes anywhere. The worker
object itself is a class whose methods keep the safety invariant; driven by any script of answers, failures and
network moves it reaches the state the relation does, and the results hold of it. In both, the network's context is
part of the state and may change at any time. Assumed of the network: a transaction executes at most once and only
while the context is the one it names, signed confirmation is permanent, and non-execution evidence is true when
issued.

**Attestation policy.** Validation of one policy record (`PolicyValidation`, `KeySort`), the hash-linked chain
with its enclave bindings (`PolicyChain`), what a chain says about each epoch and how it may grow
(`PolicyHistory`), readiness and route commitments (`Readiness`).

**Encodings.** DER elements and integers (`Der`), certificate times (`X509Time`), the TPM quote and its PCR
values (`TpmPcr`), the evidence-binding digest (`EvidenceBinding`), bounded JSON frames (`BoundedJson`).

**Streams and pages.** The bridge client's side queue (`BridgeQueue`) and state paging (`StatePaging`).

`Wrappers`, `ByteSeq`, `Texts`, `Proto` and `UniqueMap` hold what several of these share. Hashes, signature
checks, JSON text, URL parsing, the wire library's length prefix, clocks and balances are parameters; the laws
assumed of them are stated where they are used.

Findings, each with the exact condition:

- The context a transaction names is a hash of the indexer set, so it can come back. One payment per slot holds of
  every run in which the network does not return to the context of a superseded attempt, one that was handed out
  and then retired for another. In whatever state a run leaves behind, the network alone can pay a slot twice if and
  only if two attempts at one slot have been handed out; after a run as above, a rotation lets the next execution do
  it if and only if it enters the context of a superseded attempt whose slot has been paid. `RecurrencePaysTwice` is
  a run that does.
- Opened with no canonical checkpoint while the clock is in its first 30 seconds, the journal starts at slot 0
  and its own reload check refuses it from then on; it reloads if and only if it was opened at a positive slot.
- A settlement can still be completed if and only if there is no journal and the request can be paid, or the journal
  answers the request, or one that does is just being filled in; and without the network returning to the context
  the journalled transfer names, if and only if moreover it has executed or that context is the present one. An
  existing journal is never replaced, so one overtaken by a change of context before its transfer executed answers
  the request and still pays nothing until that context returns: a crash between filling it and broadcasting leads
  there. After a crash while filling it, nothing is ever sent.
- The bridge queue's byte counter is exact unless the byte limit is the largest `usize` and two events may wait, and
  then only after an event of that many bytes, more than any allocation holds: in use it is exact.
- What the JSON encoder accepts decodes to u if and only if its text parses to u and u is itself within bounds. The
  encoder measures the value in memory, so a date passes a string limit of 10 and is rejected on arrival.
- Two unvalidated evidence bindings hash alike if and only if they differ only in an absent against an empty platform.
- Following page cursors lists everything if and only if no page ends in a key of more than 512 UTF-16 units.
- Building a policy chain step by step succeeds if and only if building it in one go does and every bound kind is
  already enabled when the bindings are configured; a catalog with no policies must omit the list, not leave it empty.

## Model

| member | source | states |
|---|---|---|
| `CheckpointSafety.StepPreserves` | intercom/src/writer-checkpoint-worker.js:91-196 | every action, at any await and under any write failure, crash or network move that does not return to the context of a superseded attempt, keeps the invariant: journals in memory and on disk agree up to scheduler writes, everything broadcast is on record, superseded attempts are dead |
| `CheckpointSafety.RunPreserves` | intercom/src/writer-checkpoint-worker.js:119-196 | the invariant holds after every run that does not return to the context of a superseded attempt |
| `CheckpointSafety.ReplacedPreserves` | intercom/src/writer-checkpoint-worker.js:160-176 | replacing an attempt keeps it on record as retired, with evidence that names it |
| `CheckpointSafety.ReconciledPreserves` | intercom/src/writer-checkpoint-worker.js:147-158 | filing the completed record, even when the write fails after its rename, keeps the invariant |
| `CheckpointSafety.AdvancePreserves` | intercom/src/writer-checkpoint-worker.js:154-155 | moving to the next slot leaves no gap and no unrecorded transaction |
| `CheckpointTheorems.ExecutedIsCurrent` | intercom/src/writer-checkpoint-worker.js:128-196 | an executed transaction is the active attempt of the open slot or the payment in its slot's completed record |
| `CheckpointTheorems.EveryRunPaysAtMostOnce` | intercom/src/writer-checkpoint-worker.js:128-196 | in every run that does not return to the context of a superseded attempt, at most one transaction per slot executes, every broadcast is the active attempt, a retired one or in the slot's record, and each retired attempt of the open slot carries evidence naming it |
| `CheckpointTheorems.CompletedSlotsArePaidOnce` | intercom/src/writer-checkpoint-worker.js:147-176 | completed slots run from the first without a gap, each paid by exactly one executed and confirmed transaction; its retired attempts carry matching evidence and, unless the payment itself, never executed |
| `CheckpointTheorems.JournalReloadsIffOpenedAtPositiveSlot` | intercom/src/writer-checkpoint-worker.js:43-60 | after every run the state file passes the reload check if and only if it was opened at a positive safe slot |
| `CheckpointTheorems.EarlyClockOpensAnUnreloadableJournal` | intercom/src/writer-checkpoint-worker.js:91-107 | opening without a canonical checkpoint gives a reloadable journal if and only if the clock is past the first 30 seconds |
| `CheckpointTheorems.SchedulerWritesAreNeverLost` | intercom/src/writer-checkpoint-worker.js:109-117 | a due slot recorded while the payment code is suspended anywhere stays recorded through all later steps, crashes and restarts |
| `CheckpointTheorems.RecurrencePaysTwice` | intercom/trac/trac-peer/src/msbClient.js:148-174 | a run, with truthful evidence only, in which a retired attempt executes after its context comes back and the slot is paid twice |
| `CheckpointTheorems.GoingBackPaysAgain` | intercom/src/writer-checkpoint-transport.js:133-158 | from any state in which an attempt was handed out and another transaction has paid its slot, going back to that attempt's context pays the slot a second time |
| `CheckpointTheorems.NetworkPaysTwiceIff` | intercom/src/writer-checkpoint-worker.js:160-196 | in whatever state a run leaves behind, the network alone can pay some slot twice if and only if two attempts at one slot have been handed out |
| `CheckpointTheorems.SecondAttemptIsSuperseded` | intercom/src/writer-checkpoint-worker.js:160-176 | of two attempts handed out for one slot, one at least is superseded |
| `CheckpointTheorems.RotationPaysTwiceIff` | intercom/trac/trac-peer/src/msbClient.js:148-174 | after a run as above, a rotation lets the next execution pay a slot twice if and only if it enters the context of a superseded attempt whose slot has been paid |
| `CheckpointReserve.OnlyActiveExecutes` | intercom/src/writer-checkpoint-worker.js:128-196 | what the network could execute now is the active attempt of the journal on disk and in memory, for a slot not yet paid |
| `CheckpointReserve.OnlyActiveIsUnconfirmed` | intercom/src/writer-checkpoint-worker.js:147-158 | what has executed and is not confirmed is the active attempt |
| `CheckpointReserve.ExecuteKeepsReserve` | intercom/src/writer-checkpoint-worker.js:182-195 | an execution charged its recorded fee leaves the reserve and keeps what is still open covered |
| `CheckpointReserve.EveryPaymentLeavesTheReserve` | intercom/src/writer-checkpoint-worker.js:133-195 | after any such run with the worker the only spender and recorded fees charged, once anything has been paid the balance is at or above the reserve |
| `CheckpointProgress.StepLowersRank` | intercom/src/writer-checkpoint-worker.js:119-196 | with a cooperating network each step lowers (backlog, phase) by one: it confirms the open payment, or closes its slot |
| `CheckpointProgress.BacklogEmptiesInTwoStepsPerSlot` | intercom/src/writer-checkpoint-worker.js:119-226 | n due slots, none newly due, are all closed after exactly 2n steps |
| `CheckpointWorker.WriteAll` | intercom/src/writer-checkpoint-worker.js:10-29 | the short-write loop writes all bytes, or stops at a prefix when a write makes no progress |
| `CheckpointWorker.WriterCheckpointWorker.constructor` | intercom/src/writer-checkpoint-worker.js:73-89 | an empty journal directory, no process, a network that has seen nothing |
| `CheckpointWorker.WriterCheckpointWorker.Drive` | intercom/src/writer-checkpoint-worker.js:31-219 | the object, started, stopped, crashed, answered and failed in any order the machine and network allow, reaches exactly the protocol's state, never pays a slot twice, and once it has paid leaves the reserve |
| `CheckpointWorker.WriterCheckpointWorker.SaveJournal` | intercom/src/writer-checkpoint-worker.js:57-60 | memory follows the disk only when the save returns; a failure after the rename has changed the disk |
| `SettlementTransfer.StepPreserves` | intercom/src/msb-settlement-transfer-helper.js:466-576 | every step of any run keeps the invariant: runs past the journal all hold the order in it, everything broadcast is its payload |
| `SettlementTransfer.OneTransferPerJournal` | intercom/src/msb-settlement-transfer-helper.js:466-576 | whatever runs share a journal file, interleaved, crashed and restarted, every broadcast is the one payload in it, at most one transfer executes, and a confirmed journal names a signed transaction |
| `SettlementTransfer.SuccessMeansPaid` | intercom/src/msb-settlement-transfer-helper.js:385-464 | a run that reports success has its own sender, recipient and amount executed and signed |
| `SettlementTransfer.FirstOrderIsFinal` | intercom/src/msb-settlement-transfer-helper.js:95-120 | once written, the order in the journal never changes, only its status |
| `SettlementTransfer.TornJournalNeverPays` | intercom/src/msb-settlement-transfer-helper.js:95-136 | after a crash while filling the exclusive file nothing is ever broadcast or executed |
| `SettlementRecovery.RecoverableIff` | intercom/src/msb-settlement-transfer-helper.js:385-576 | from every state runs leave behind a fresh run can succeed if and only if there is no journal and the request can be paid, or the journal, or the one being filled in, answers the request; with the context staying, or going anywhere but to the one the journalled transfer names, if and only if moreover that context is the present one or the transfer has executed (without a journal: some valid payment names the present context) |
| `SettlementRecovery.OvertakenJournalIsStuck` | intercom/trac/msb/src/core/state/State.js:3174-3184 | a journal, filled or being filled, whose transfer has not executed and names another context than the present one: in every run that does not return to it nothing executes and no run of any request succeeds |
| `SettlementRecovery.CrashBeforeBroadcastIsOvertaken` | intercom/src/msb-settlement-transfer-helper.js:487-528 | for every payable request: filled in one context, crash before broadcasting, the network in another gives such a journal, which answers its request |
| `SettlementRecovery.StayingExecutesItsOwn` | intercom/trac/msb/src/core/state/State.js:3174-3184 | while the context stays only transfers that name it execute |
| `SettlementTransfer.WaitForConfirmation` | intercom/src/msb-settlement-transfer-helper.js:205-213 | the first poll up to the timeout that sees the transaction, or none of them does |
| `BridgeQueue.FirstMatchIsFirstOfLane` | crates/mayhem-bridge/src/lib.rs:534-570 | popping the first match of any filter takes the first queued event of its lane and leaves all other lanes alone |
| `BridgeQueue.RequeueUndoesDelivery` | crates/mayhem-bridge/src/lib.rs:512-514 | putting back an event that no later delivery of its lane overtook restores the order, per lane and per session |
| `BridgeQueue.CounterDriftsIff` | crates/mayhem-bridge/src/lib.rs:534-617 | from an empty queue some sequence of insertions and removals makes the counter differ from the size of what is queued if and only if the byte limit is the largest machine word and two events may wait |
| `BridgeQueue.ScBridgeClient.constructor` | crates/mayhem-bridge/src/lib.rs:175-202 | a fresh client has an empty queue within its limits and numbers requests from 1 |
| `BridgeQueue.ScBridgeClient.ReadJson` | crates/mayhem-bridge/src/lib.rs:679-690 | yields the next JSON message of the stream, skipping control frames and losing nothing |
| `BridgeQueue.ScBridgeClient.QueueEventBack` | crates/mayhem-bridge/src/lib.rs:588-617 | appends exactly when both limits allow, else changes nothing; the counter stays the size of the queue |
| `BridgeQueue.ScBridgeClient.RequeueEventFront` | crates/mayhem-bridge/src/lib.rs:512-514 | puts an event first exactly when both limits allow, undoing its delivery |
| `BridgeQueue.ScBridgeClient.PopQueued` | crates/mayhem-bridge/src/lib.rs:534-570 | hands out the first queued match, or nothing queued matches; order and counter kept |
| `BridgeQueue.ScBridgeClient.NextEvent` | crates/mayhem-bridge/src/lib.rs:428-510 | hands out one matching event or fails with none queued; per lane, and per session for callers that never ask for frames alone, delivered then queued is what arrived, in order, unless the queue overflowed |
| `BridgeQueue.ScBridgeClient.Request` | crates/mayhem-bridge/src/lib.rs:619-677 | the reply carries the request's own number and expected type, and every event read on the way is queued in order |
| `X509Time.ClosedFormCountsDays` | crates/mayhem-attestation/src/x509.rs:728-746 | the day reached by n single calendar steps from 1970-01-01 has number n |
| `X509Time.EveryDateIsCounted` | crates/mayhem-attestation/src/x509.rs:728-746 | every date from 1970 on is the day its own number counts to |
| `X509Time.DaysFollowTheCalendar` | crates/mayhem-attestation/src/x509.rs:738-746 | earlier dates have smaller day numbers |
| `X509Time.NonNegativeIffFromEpoch` | crates/mayhem-attestation/src/x509.rs:701-714 | the day number is non-negative exactly from 1970 on |
| `X509Time.DecimalIsDigits` | crates/mayhem-attestation/src/x509.rs:716-726 | a field reads as n exactly when it is n in that many digits |
| `X509Time.ParsesExactlyTheEncodings` | crates/mayhem-attestation/src/x509.rs:686-726 | a time is accepted with value t exactly when it is, in whole seconds and ending in Z, the two-digit-year UTCTime or the four-digit-year GeneralizedTime of a calendar time from 1970 on, t seconds after the epoch; GeneralizedTime is taken for any such year, where section 4.1.2.5 of RFC 5280 keeps it for 2050 and later |
| `X509Time.TimesFollowTheCalendar` | crates/mayhem-attestation/src/x509.rs:686-746 | accepted times are strictly increasing in calendar order |
| `Der.PrintedParses` | crates/mayhem-attestation/src/x509.rs:828-865 | a printed element parses back with the rest untouched |
| `Der.ParsedIsPrinted` | crates/mayhem-attestation/src/x509.rs:828-865 | every accepted input starts with the minimal definite-length form of its result |
| `Der.ParsesExactlyTheCanonical` | crates/mayhem-attestation/src/x509.rs:828-865 | an element and rest are returned exactly when the input is the element's canonical form (ITU-T X.690 sections 8.1.3 and 10.1) followed by that rest |
| `Der.SingleParsesExactly` | crates/mayhem-attestation/src/x509.rs:814-826 | the whole input is one element of the expected tag exactly when it is that element's canonical form |
| `Der.SplitsUniquely` | crates/mayhem-attestation/src/x509.rs:771-812 | splitting succeeds exactly on concatenations of canonical elements and returns the only such list |
| `Der.DerReader.constructor` | crates/mayhem-attestation/src/x509.rs:775-778 | a reader starts with the whole input |
| `Der.DerReader.TakeAny` | crates/mayhem-attestation/src/x509.rs:799-803 | moves past exactly the element it returns, and stays put on error |
| `Der.DerReader.Take` | crates/mayhem-attestation/src/x509.rs:788-797 | the same for an expected tag; an element with another tag is consumed and refused |
| `Der.ReadAll` | crates/mayhem-attestation/src/x509.rs:775-812 | the loop of reads until the reader is empty returns the unique split of the input, or its first error |
| `Der.U32ParsesExactly` | crates/mayhem-attestation/src/x509.rs:748-762 | accepted as n exactly when the bytes are the DER INTEGER of the 32-bit number n |
| `Der.ScalarParsesExactly` | crates/mayhem-attestation/src/x509.rs:507-522 | accepted as a scalar exactly when the bytes are the DER INTEGER of that 256-bit number |
| `BoundedJson.CheckMembers` | intercom/features/bounded-json.js:32-37 | the first inner loop passes exactly when every key and string of the container fits |
| `BoundedJson.PushContainers` | intercom/features/bounded-json.js:38-43 | the second inner loop pushes exactly the member containers, one level deeper |
| `BoundedJson.VisitStep` | intercom/features/bounded-json.js:25-44 | a stack is within bounds exactly when visiting its top succeeds, the rest is, and the members are one level down |
| `BoundedJson.Visit` | intercom/features/bounded-json.js:26-43 | one round of the loop fails only on a stack out of bounds and otherwise leaves one that is within bounds exactly when this one was |
| `BoundedJson.JsonShapeWithinBounds` | intercom/features/bounded-json.js:15-46 | the explicit-stack traversal returns true exactly when container count, nesting and all string sizes are within bounds, recursively |
| `BoundedJson.DecodeState.constructor` | intercom/features/bounded-json.js:91-95 | a decoding state over part of a buffer |
| `BoundedJson.DecodeState.Decode` | intercom/features/bounded-json.js:91-114 | returns the head frame's value or the reason it is rejected, and unless it throws moves past exactly that frame |
| `BoundedJson.ConfiguresExactlyTheLegal` | intercom/features/bounded-json.js:62-72 | configuring fails exactly on an unsafe byte limit and gives exactly the codecs with a positive string limit at most the byte limit |
| `BoundedJson.EncodedIsJudged` | intercom/features/bounded-json.js:74-114 | the decoder judges the text the encoder wrote, whatever follows, and moves past exactly that frame |
| `BoundedJson.EncodedDecodesExactly` | intercom/features/bounded-json.js:74-114 | what the encoder accepts decodes to u if and only if its text parses to u and u is within bounds |
| `BoundedJson.EncodedDecodes` | intercom/features/bounded-json.js:74-114 | an accepted value whose text parses back to it decodes to itself |
| `BoundedJson.DateIsEncodedAndRejected` | intercom/features/bounded-json.js:74-105 | a value written as a longer string than it is in memory is accepted by the encoder and rejected by the decoder |
| `BoundedJson.DecodedReencodes` | intercom/features/bounded-json.js:74-114 | a decoded value is accepted for encoding exactly when its own text is within the byte limit, and then decodes to itself again |
| `BoundedJson.StreamRoundTrips` | intercom/features/bounded-json.js:84-114 | values encoded one after another are judged one after another by their texts, and those whose text parses back come back |
| `PolicyValidation.CollectEach` | crates/mayhem-attestation/src/policy.rs:624-833 | the validators' loops compute the first refusal or the map of entries |
| `PolicyValidation.CollectAccepts` | crates/mayhem-attestation/src/policy.rs:624-833 | a validator's map is filled exactly when every entry passes and no id repeats, and then holds exactly the entries by id |
| `PolicyValidation.ValidatePolicy` | crates/mayhem-attestation/src/policy.rs:347-379 | sorting and the validators in order compute the specified verdict, maps and digest |
| `PolicyValidation.OrderDoesNotMatter` | crates/mayhem-attestation/src/policy.rs:347-379 | permuting origins, trust data and quote kinds never changes acceptance, nor the accepted record and its digest, nor the error unless an id is given twice |
| `PolicyValidation.AcceptedExactly` | crates/mayhem-attestation/src/policy.rs:347-1077 | a record is accepted if and only if its header is consistent and its lists, in the order given, repeat no id, pass entry by entry, list every kind, pair their verifier files and close every reference |
| `PolicyValidation.ValidationIsIdempotent` | crates/mayhem-attestation/src/policy.rs:347-379 | validating a validated record gives it back unchanged |
| `PolicyValidation.OriginsAreClosed` | crates/mayhem-attestation/src/policy.rs:657-1077 | in an accepted record every source names one of its origins and every origin is used |
| `PolicyValidation.TrustDataIsClosed` | crates/mayhem-attestation/src/policy.rs:712-1077 | in an accepted record every kind has its entry, requires only trust data of the record, and all trust data is required or a verifier file |
| `PolicyValidation.MeasurementsAreClassified` | crates/mayhem-attestation/src/policy.rs:736-795 | a kind's measurement list is exactly its required references of measurement kind, and an enabled kind has an anchor or key |
| `PolicyValidation.ManagedIsCanonicallyNamed` | crates/mayhem-attestation/src/policy.rs:238-294 | a recognised verifier file bears the canonical name of its kind, target and role |
| `PolicyValidation.VerifierFilesComeInPairs` | crates/mayhem-attestation/src/policy.rs:997-1049 | in an accepted record a verifier file comes with its partner, for an enabled kind, and no kind requires it |
| `PolicyValidation.WithoutTrustDataNothingIsEnabled` | crates/mayhem-attestation/src/policy.rs:347-833 | a record without trust data is accepted exactly when its header is consistent, it lists every kind once and disables them all |
| `KeySort.PermutationsSortAlike` | crates/mayhem-attestation/src/policy.rs:348-354 | any permutation of entries with distinct keys sorts to the same list |
| `PolicyChain.CheckBinding` | crates/mayhem-attestation/src/policy.rs:847-942 | one binding's checks, in order, against its predecessor and every policy |
| `PolicyChain.ValidateEnclaveBindings` | crates/mayhem-attestation/src/policy.rs:836-959 | the nested loops return the bindings, or the first error |
| `PolicyChain.AcceptedBindingsHold` | crates/mayhem-attestation/src/policy.rs:836-959 | the loops accept exactly the bindings that are well shaped, strictly ordered by key, agree with every policy enabling their kind, and cover every enabled kind |
| `PolicyChain.AppendKeeps` | crates/mayhem-attestation/src/policy.rs:469-515 | an append succeeds exactly when the policy links on and configured bindings hold in the longer chain, and keeps the chain invariant |
| `PolicyChain.ConfigureKeeps` | crates/mayhem-attestation/src/policy.rs:517-530 | configuring succeeds exactly once and exactly when the bindings hold in the chain |
| `PolicyChain.AttestationPolicyChain.constructor` | crates/mayhem-attestation/src/policy.rs:413-424 | an empty, unconfigured chain |
| `PolicyChain.AttestationPolicyChain.Append` | crates/mayhem-attestation/src/policy.rs:469-515 | appends as specified; a refusal changes nothing |
| `PolicyChain.AttestationPolicyChain.ConfigureEnclaveBindings` | crates/mayhem-attestation/src/policy.rs:517-530 | configures as specified; a refusal changes nothing |
| `PolicyChain.FromCatalogRecords` | crates/mayhem-attestation/src/policy.rs:436-459 | the batch constructor builds the specified chain, with its invariant, or reports the first error |
| `PolicyHistory.EmergencyDisabledAt` | crates/mayhem-attestation/src/policy.rs:559-579 | the loop collects exactly the kinds the active policy or an issued pending one disables |
| `PolicyHistory.ActiveIsHighest` | crates/mayhem-attestation/src/policy.rs:545-550 | the policies effective by an epoch are exactly those up to the active one, whose sequence counts them |
| `PolicyHistory.ActiveNeverDecreases` | crates/mayhem-attestation/src/policy.rs:545-550 | the active policy never goes back as the epoch advances |
| `PolicyHistory.NextIsWhereActiveChanges` | crates/mayhem-attestation/src/policy.rs:545-557 | the active policy stays the same exactly until the announced next effective epoch |
| `PolicyHistory.AppendKeepsThePast` | crates/mayhem-attestation/src/policy.rs:469-550 | an appended policy is the active one exactly from its effective epoch on, and changes nothing before |
| `PolicyHistory.AppendOnlyDisablesMore` | crates/mayhem-attestation/src/policy.rs:559-579 | before it takes effect an appended policy adds to the disabled kinds exactly its own list, once issued |
| `PolicyHistory.HistoryIsStable` | crates/mayhem-attestation/src/policy.rs:469-579 | any number of later-effective policies leave an epoch's active policy alone and never shrink its disabled kinds |
| `PolicyHistory.EveryChainHolds` | crates/mayhem-attestation/src/policy.rs:469-530 | whatever is attempted in whatever order, the chain stays linked, only grows, and configured bindings hold in all of it |
| `PolicyHistory.ConfiguredBindingsHold` | crates/mayhem-attestation/src/policy.rs:836-959 | once configured, each binding agrees with every policy enabling its kind, every enabled kind has one, and no key has two |
| `PolicyHistory.ValidatedCarriesItsDigest` | crates/mayhem-attestation/src/policy.rs:347-379 | a validated record carries the digest of its own policy and validates to itself |
| `PolicyHistory.HeadDigestPinsHistory` | crates/mayhem-attestation/src/policy.rs:469-494 | two chains of validated records with one head digest are the same chain, for a digest that does not collide on them |
| `PolicyHistory.AppendAllMeans` | crates/mayhem-attestation/src/policy.rs:453-456 | a run of appends succeeds exactly when all records validate, the result is linked and configured bindings hold in it |
| `PolicyHistory.IncrementalIsBatch` | crates/mayhem-attestation/src/policy.rs:436-530 | appending, configuring, appending on succeeds exactly when the batch constructor does and every bound kind was enabled by then, with the same chain |
| `Readiness.CheckCollateral` | crates/mayhem-attestation/src/readiness.rs:396-439 | the loop reports the worst condition among the required references, with all that are in it |
| `Readiness.ReadyMeansInForce` | crates/mayhem-attestation/src/readiness.rs:396-439 | collateral is ready exactly when every required reference is held by the epoch and within its validity window |
| `Readiness.ReadyExactly` | crates/mayhem-attestation/src/readiness.rs:148-184 | a kind is ready exactly when the policy is unexpired and enables it, no emergency list names it, the verifier is recent enough and knows its profile and schema, and all its collateral is in force |
| `Readiness.CatalogChainsAreComplete` | crates/mayhem-attestation/src/readiness.rs:142-145 | every chain a catalog builds has an entry for every kind and all the trust data it requires, so it can be evaluated |
| `Readiness.Evaluate` | crates/mayhem-attestation/src/readiness.rs:106-204 | every kind gets the status, platforms and schema the active policy gives it, or no policy is active |
| `Readiness.VerifyIsRebind` | crates/mayhem-attestation/src/readiness.rs:212-324 | a commitment is accepted exactly when binding its own enclave, device, kind and platform afresh returns it |
| `Readiness.OnePolicyPerCommitment` | crates/mayhem-attestation/src/readiness.rs:275-324 | a commitment accepted at two epochs of a chain, grown in between or not, names the same active policy |
| `Readiness.CommitmentLastsWithThePolicy` | crates/mayhem-attestation/src/readiness.rs:212-324 | a commitment made at one epoch is accepted at another exactly when the same policy is active and the kind is ready there |
| `Readiness.AcceptedCommitmentIsBacked` | crates/mayhem-attestation/src/readiness.rs:106-324 | an accepted commitment rests on an enabled, unexpired, not disabled kind with all collateral in force and an admin binding that agrees with the active policy |
| `EvidenceBinding.HashState.UpdateField` | crates/mayhem-attestation/src/binding.rs:122-125 | feeds one length-prefixed field |
| `EvidenceBinding.Digest` | crates/mayhem-attestation/src/binding.rs:67-88 | hashes exactly the length-prefixed fields of a valid binding, and refuses an invalid one |
| `EvidenceBinding.PreimageInjective` | crates/mayhem-attestation/src/binding.rs:122-125 | length-prefixed lists of one length are determined by their concatenation |
| `EvidenceBinding.CollideOnlyOnEmptyPlatform` | crates/mayhem-attestation/src/binding.rs:67-88 | any two bindings feed the same bytes exactly when they are equal up to an absent against an empty platform |
| `EvidenceBinding.ValidBindingsHashApart` | crates/mayhem-attestation/src/binding.rs:67-125 | two valid bindings feed the same bytes exactly when they are equal |
| `EvidenceBinding.DigestPinsTheRoute` | crates/mayhem-attestation/src/binding.rs:36-65 | for a hash that does not collide on the two, digests are equal exactly for the same route, nonce and quote binding |
| `Proto.KindNamesDiffer` | crates/mayhem-proto/src/lib.rs:1129-1139 | distinct quote kinds have distinct names |
| `TpmPcr.TpmReader.constructor` | crates/mayhem-attestation/src/tpm_quote.rs:723-726 | a reader at offset 0 |
| `TpmPcr.TpmReader.Take` | crates/mayhem-attestation/src/tpm_quote.rs:742-753 | takes the next bytes exactly when enough are left, else stays |
| `TpmPcr.TpmReader.Number` | crates/mayhem-attestation/src/tpm_quote.rs:728-740 | reads a big-endian number |
| `TpmPcr.TpmReader.Tpm2b` | crates/mayhem-attestation/src/tpm_quote.rs:755-765 | reads a length-prefixed field exactly when its length is accepted and present |
| `TpmPcr.SelectedPcrs` | crates/mayhem-attestation/src/tpm_quote.rs:547-555 | the nested loops collect exactly the indices whose bit is set |
| `TpmPcr.ParseQuoteAttestation` | crates/mayhem-attestation/src/tpm_quote.rs:517-570 | accepts exactly one byte layout of a TPMS_ATTEST quote (TPM 2.0 Library Part 2 section 10.12) and returns the fields at their positions |
| `TpmPcr.QuoteIsDetermined` | crates/mayhem-attestation/src/tpm_quote.rs:517-570 | the bytes determine the parsed quote |
| `TpmPcr.CheckPcrs` | crates/mayhem-attestation/src/tpm_quote.rs:572-607 | the loops compute the specified PCR verdict |
| `TpmPcr.OrderDoesNotMatter` | crates/mayhem-attestation/src/tpm_quote.rs:572-607 | the verdict, error included, does not depend on the order of supplied values |
| `TpmPcr.AcceptedMeansEachIndexOnce` | crates/mayhem-attestation/src/tpm_quote.rs:572-607 | acceptance means each policy index is supplied exactly once and nothing else |
| `TpmPcr.OneMapPerQuote` | crates/mayhem-attestation/src/tpm_quote.rs:572-607 | two accepted lists hold the same values, for a hash that does not collide on their concatenations |
| `StatePaging.StateView` | intercom/src/rpc.js:27-68 | a confirmed read is of the checkout at the requested or current signed length, never past the confirmed one; an unconfirmed read takes no length |
| `StatePaging.RangeIsEveryKeyOfThePrefix` | intercom/src/rpc.js:124-129 | the streamed range holds exactly the entries that start with the prefix and lie below prefix\xff |
| `StatePaging.AfterCursor` | intercom/src/rpc.js:124-129 | reading past the cursor of an entry gives exactly what follows it |
| `StatePaging.GetStatePrefix` | intercom/src/rpc.js:93-147 | answers the first refusal, or the first limit entries of the range with a cursor exactly when more follow |
| `StatePaging.ListedKeyIsACursor` | intercom/src/rpc.js:111-119 | a listed key is accepted as a cursor exactly when it is at most 512 units long |
| `StatePaging.ReadPrefixEntries` | intercom/src/rpc.js:93-147 | at a fixed signed length, against a peer that keeps the pinned snapshot the walk ends, no check of its own fires, and it returns every entry of the prefix once in order; it fails exactly when the prefix is refused or a page ends in a key too long for a cursor |
| `StatePaging.FitMeansEveryPageEnd` | intercom/src/rpc.js:111-119 | the walk's condition in closed form: every limit-th key with more to come is at most 512 units long |
| `StatePaging.LongKeyBreaksTheWalk` | intercom/src/rpc.js:111-143 | a key of 513 characters is handed out as a cursor that the next call refuses |

## Left out

- The status, error, funding and timestamp fields of the checkpoint journal, its proofs and its log lines: nothing reads them back to decide a payment.
- Snapshot preparation and the subnet's own reconciliation: answers of the environment, with only the facts the worker relies on.
- Partial loss below a durable write, exclusive create or rename: these are atomic steps that succeed or fail before or after taking effect; a partly filled exclusive file is unreadable.
- CheckpointProgress.BacklogEmptiesInTwoStepsPerSlot: says nothing of a network that refuses, delays or changes its fee, as the source promises progress only under cooperation.
- BridgeQueue.ScBridgeClient.NextEvent: deadlines are a number of reads, because timers are not modelled; a timeout keeps what is queued.
- Which of several refusals is reported when a kind's measurement list has both unrequired and wrong-kind ids, or a verifier pair is both incomplete and disabled: one error stands for each group, and errors carry no ids or texts.
- PolicyValidation.OrderDoesNotMatter: does not claim the same error for records that give an id twice, because a stable sort keeps the given order of the two and the first problem may differ.
- The canonical JSON text of a policy and URL parsing: the digest and the origin check are functions of the value.
- Panics on a validated policy without an entry for a kind: shown impossible by TrustDataIsClosed, so lookups are total.
- Readiness.Evaluate: the collateral inventory is the first-observed epoch by digest; storing and checking the bytes themselves is not modelled.
- UTF-16 order against code point order on keys and prefixes with unpaired surrogates: keys are sequences of code points.
- The reader that follows the cursors is the one of the command line (`read_prefix_entries_at` in crates/mayhem-cli/src/main.rs); it always asks for 500 entries, the model for any limit the server accepts.
- Certificate chains, extensions, signatures, AK parsing, and the AMD, TDX, MAA and managed-verifier checks: long lists of equality checks over foreign formats.
- The contract, gateway, wallet, payments by card, model serving and media code: outside the parts modelled here.
