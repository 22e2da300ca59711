# Evident Ledger: a verified model

Evident Ledger keeps hash chains of events for its accounts. It commits to each chain with a Merkle
root, signs that root, and hands out proof files that anyone can check offline. This project models
the parts of the server, the offline verifier and the desktop application that this promise rests
on, and proves properties of the model in Dafny 4.11. `dafny verify dfyconfig.toml` checks all of it.

## What is modelled

* **The commitment and its verifier.** `Merkle` has the level-by-level fold and proves that equal
  roots mean equal event lists, of any two lengths, unless two of the hashed strings collide;
  `MerkleLengths` says which lists of bare leaf hashes share a root, `MerkleFacts` which bytes are
  hashed in which order. `Signing`, `Structure`, `OfflineVerifier`, `Evidence` and `LocalChain` have
  the signed message, the structural check, `evident-verify`, evidence records and the desktop's own
  check; `VerifierFacts` says what the verifier accepts in terms of the texts in its two files.
* **The append protocol.** `LedgerModel` is `submit_event` and the `/v1` append, one SQL statement of
  one transaction at a time, with row locks, unique keys, commits and rollbacks. `LedgerInvariant` and
  `LedgerRuns` prove what every interleaving of any number of transactions keeps, `LedgerFacts` that
  each append is about what was asked, `LedgerProofs` and `LedgerResponses` what their signatures and
  responses are worth outside. `LedgerStore` is the same code as it updates its tables, tied to the
  state machine, with the exact reply and tables of a request; `LedgerQueries` says what its queries
  return.
* **Billing webhooks.** `PaddleEvents` and `WebhookModel` are deliveries of Paddle events as a state
  machine: first deliveries, duplicates, retries, lost races and late linking. `WebhookInvariant`,
  `WebhookRuns`, `WebhookOrder`, `WebhookRace`, `WebhookStore` and `WebhookPlans` hold the theorems,
  `WebhookEffects` what an event does to account, row and reply, field by field; `WebhookProcessing`
  is the code that updates the tables.
* **The public proof registry.** `PublicProofs` has the two tables and the calls run one at a time,
  `PublicProofRuns` the same calls interleaved, `RegistryFacts` what each of them does row by row.
* **Smaller algorithms.** `Pagination` with `Base64` (keyset pages and printed cursors),
  `PercentCoding` (the token hand-off between server and desktop), `WrapLine` (greedy wrapping);
  `PaginationFacts` and `CodingFacts` say which texts and characters stand for what. `Text` and
  `Uuids` hold strings, hexadecimal digits, white space, integers and UUIDs, `TextFacts` and
  `UuidFacts` what their functions mean.

## How to read the model

* A Rust string or byte buffer is a Dafny `string` with one char for each byte, so that lengths and
  comparisons are those of the UTF-8 bytes. White space and splitting follow the UTF-8 encodings of
  Unicode White_Space.
* SHA-256 (FIPS 180-4) is an arbitrary function `h` to 64 lower-case hexadecimal digits. A theorem
  that needs collision resistance says so for the strings actually hashed: `CollisionFree(h, s)` says
  that no two different strings of `s` have the same hash. Ed25519 (section 5.1 of RFC 8032) is an
  arbitrary predicate `verify`; `Honest` says that the server's signatures verify, `SignedOnly` that
  nothing verifies under the key but the messages of a given list.
* In the state machines a transaction's own writes stay with it until it commits; a statement that
  needs a row lock or a unique key that another open transaction holds is not enabled. Any statement
  may fail (`Fault`), which rolls the transaction back. `log` is a history variable.
* Time stamps, new identifiers, plan tables and query results that the model does not determine are
  parameters of the statement that reads them.

## What the proofs found

* `UNIQUE (chain_id, idempotency_key)` is named `uniq_idem`
  (migrations/20260628192818_init.sql), the error mapping looks for `uniq_idempotency`
  (src/service/ledger.rs:39). No request is ever answered with the error for duplicate keys
  (`LedgerRuns.DuplicatesAreNeverReplied`): an insert fails if and only if its id is taken or a v1
  request repeats a key, and is then a database error (`LedgerRuns.InsertFailsIff`), as a run shows for
  every repeated key that gets as far (`LedgerStore.RepeatedKeyFails`). The v1 handler answers most of
  them before, from the responses it stores (src/api/v1/submit_event.rs:165-178); a key comes to this
  insert only if none is stored, because a legacy request used it or the stored one has expired.
* The answer to an append re-reads the chain after its commit (src/service/ledger.rs:422-471). It
  passes the offline verifier if and only if nothing was appended in between
  (`LedgerProofs.AppendResponses`); cut back to its own sequence number it always passes. From every
  logged append a run goes on in which it is rejected, as long as its chain can take one more event
  (`LedgerResponses.ResponseRejected`).
* An append signs before it commits (src/service/ledger.rs:214-225), so when a commit fails a valid
  signature over a chain that is not in the ledger has been made; the code drops it without handing it
  out (`LedgerProofs.FailedCommitLeavesSignature`).
  An accepted proof shows a prefix of the committed chain if and only if its last event was committed;
  if not, it is the snapshot of such an append (`LedgerProofs.AcceptedProof`).
* Without the sequence numbers inside the leaves the root would not bind the length: the last leaf of
  any odd number above one may be repeated (`Merkle.RepeatedLastLeaf`). It does bind any leaves of a
  known number (`Merkle.RootBindsLeaves`). Two lists of several leaf hashes share a root if and only if
  their trees have one height and the same leaves once copies fill them up, unless hashes collide
  (`MerkleLengths.RootsEqualIff`).
* The evidence check verifies the signature with the key inside the proof, not with a pinned one
  (src/evidence_record.rs:276-365). So a chain that anyone makes up and signs certifies a record
  (`Evidence.AnyoneCertifies`); `Evidence.EvidenceAgainstPinnedKey` says exactly what a pinned key adds.
* The out-of-order test of the webhooks compares with the maximum as it was read, not as it is at
  the commit. Two overlapping deliveries for one account can be applied in the wrong order
  (`WebhookRace.OlderEventCanWin`, for every two such events); a run applies its events in order if
  and only if no commit found a newer event of its account processed (`WebhookOrder.EventsInOrderIff`),
  and calls one after another always do (`WebhookStore.AtomicDeliveriesKeepOrder`).
* An update is decided with the plan that the account had before the transaction
  (src/paddle/processor.rs:125-134). Two overlapping updates to higher plans, applied in the right
  order, can therefore lower the plan that the first one has put in force
  (`WebhookPlans.StaleUpgradeLowers`). The commit of an update does so if and only if the event's plan
  lies above the plan that was read and below the one in force (`WebhookPlans.CommitLowersIff`); if it
  is not above the plan that was read, it only waits or renews. Of calls one after another exactly
  those lower the plan in force that create a subscription below it, since a creation sets its plan
  without comparing (src/paddle/processor.rs:439-476, `WebhookPlans.CallsLowerIff`,
  `WebhookPlans.CreationLowers`).
* A webhook parked for want of an account is never applied: its row never changes again, whatever is
  linked later (`WebhookRuns.SettledRowsStay`). The branch of a retry that finds no account is dead
  for rows the code wrote itself (`WebhookRuns.RetriesAreLinked`).
* The registry tables lose their match if a sync publishes a candidate that was disabled after it was
  read (`PublicProofRuns.StaleCandidateBreaks`), and only then, and nothing repairs them
  (`PublicProofRuns.MatchedIffFresh`).
* A violated unique index is answered with success, but the aborted transaction's commit is a
  rollback: the caller's own materialization is lost with it, under the exact condition of
  `PublicProofRuns.AnchorLostIff`, and in a run for any two new proofs of one hash
  (`PublicProofRuns.SecondAnchorIsLost`).
* The desktop sorts events before it checks them, so it accepts a proof file listed out of order that
  the offline verifier rejects (`LocalChain.OrderIsNotSeen`).
* The desktop does not take the server's token from every callback that the server allows
  (src/api/dashboard_desktop.rs:94-111 looks in front of the first question mark only). It does if the
  callback has no fragment, at most one question mark and an own query that neither yields a token nor
  makes the decoding panic; otherwise it takes what the callback alone would give it
  (`PercentCoding.TokenHandOff`). Each of the conditions can fail (`PercentCoding.TokenIsLost`).

## Model

| member | source | states |
|---|---|---|
| Merkle.BuildMerkleRoot | src/merkle.rs:39-71 | the mutable level loop ends after ceil(log2 n) rounds with the root of the recursive tree that copies the last node of an odd level; a bare leaf for one, "empty" for none |
| Merkle.HashPairs | src/merkle.rs:57-66 | one pass over the chunks yields exactly the next level |
| Merkle.LevelKeepsTree | src/merkle.rs:56-68 | hashing one level leaves the root of the remaining tree unchanged |
| Merkle.LeafInputInjective | src/merkle.rs:25-37 | the bytes hashed for a leaf determine the event |
| MerkleFacts.LeafLayout | src/merkle.rs:25-37 | what is hashed for an event is exactly its sequence in two's complement on 8 bytes, its id and its parent's id on 16 bytes each, highest byte first, and its file hash, in this order |
| Merkle.SameHeightBinds | src/merkle.rs:39-71 | trees of one height with one root agree node by node, further nodes being copies, unless hashes collide |
| Merkle.HeightsBind | src/merkle.rs:39-71 | trees of different heights never share a root, since 64 hashed bytes are never 128 |
| Merkle.SingletonBinds | src/merkle.rs:43-45 | one event and several events never share a root, although the single leaf is not hashed again |
| Merkle.SameHeightEvents | src/merkle.rs:73-79 | numbered lists of one tree height with one root are the same list, also where the last node is repeated |
| Merkle.RootBindsEvents | src/merkle.rs:25-79 | two non-empty lists numbered 1..n, of any lengths and with any file hashes, that recompute to the same root are equal unless two hashed strings collide |
| Merkle.RoundsMonotone | src/merkle.rs:56-68 | a longer list takes at least as many rounds |
| Merkle.RootBindsLeaves | src/merkle.rs:39-71 | two lists of the same length, of any leaf strings, with one root are the same list unless two hashed strings collide |
| Merkle.RepeatedLastLeaf | src/merkle.rs:58-61 | for any odd number of leaves above one, repeating the last leaf keeps the root: the numbers inside the leaves are needed |
| MerkleLengths.RootsEqualIff | src/merkle.rs:39-71 | two lists of several leaf hashes, of any lengths, have one root exactly if their trees have one height and the same leaves once filled up with copies, unless hashes collide |
| MerkleLengths.PaddedExtends | src/merkle.rs:56-68 | filled up, a list begins with its own leaves, goes on with copies of some of them and has a power of two of them |
| MerkleFacts.SmallRoots | src/merkle.rs:39-54 | no leaves give "empty", one gives itself, two give the hash of their two hashes in order |
| MerkleFacts.RootOfEvents | src/merkle.rs:73-79 | the root of one event is its leaf, that of two the hash of their two hashed leaves in order |
| MerkleFacts.RootOfThree | src/merkle.rs:56-68 | the third of three leaves is paired with itself |
| MerkleFacts.RootOfHalves | src/merkle.rs:56-71 | behind a full half, the root is the hash of the roots of the left and the right half, in this order |
| Uuids.UuidRoundTrip | src/bin/verify.rs:39-52 | a printed UUID parses back, and prints without a colon or white space |
| UuidFacts.ParseUuidIff | src/bin/verify.rs:39-52 | a text parses to a UUID exactly if it spells its 32 digits in letters of any case, bare, with hyphens, in braces or behind "urn:uuid:" |
| UuidFacts.UuidTextIs | src/service/identity_dashboard.rs:240-244 | a UUID prints as the digits of its bytes in groups of 8, 4, 4, 4 and 12 |
| Uuids.I64BytesInjective | src/merkle.rs:32 | the eight big-endian bytes determine the sequence number |
| UuidFacts.FirstIsHighest | src/merkle.rs:32 | the first of several bytes counts most |
| Signing.MessageBindsFields | src/signing.rs:95-99 | the signed message determines chain, root and head when root and head have no colon |
| Signing.SignedRootVerifies | src/signing.rs:95-141 | what the server signs verifies under its printed key |
| Signing.PrintedKeyIsNormal | src/signing.rs:159-161 | the printed key is its own normal form |
| TextFacts.HexSpelling | src/signing.rs:120-141 | a text decodes to a byte string exactly if it is its hexadecimal encoding in letters of any case |
| TextFacts.TrimIs | src/signing.rs:159-161 | trimming takes white space off both ends, and none is left there |
| TextFacts.WhiteSpaceIs | src/signing.rs:159-161 | white space are exactly the UTF-8 encodings of the code points with the property White_Space |
| VerifierFacts.ClassificationIs | src/signing.rs:168-188 | keys that differ once trimmed and in small letters are reported as untrusted, both in that form; otherwise the signature over chain, root and head decides |
| Structure.CheckEventStructure | src/service/verification.rs:21-51 | the loop returns the first failure in the code's own order of tests, or the root |
| Structure.OutcomeCharacterized | src/service/verification.rs:21-51 | it succeeds exactly on lists numbered 1..n whose parents chain up from nil, and then returns their root |
| Structure.FailureIsFirstBreak | src/service/verification.rs:26-43 | an error names the first event where the chain breaks, all before it being linked: at the first event a wrong parent before a wrong number, later a wrong number before a wrong parent |
| Structure.RootNotEmpty | src/service/verification.rs:45-48 | the empty-root failure cannot occur |
| Structure.ExportedChainValidates | src/service/backup_snapshot.rs:42-69 | a backup of a linked chain passes its structural validation |
| Structure.ValidatesIff | src/service/backup_snapshot.rs:60-69 | a snapshot validates exactly if all its events are of its own chain and linked, and then gives their root |
| OfflineVerifier.EventsToRows | src/bin/verify.rs:39-52 | the loop parses all leaves or reports failure if any does not parse |
| OfflineVerifier.EvidentVerify | src/bin/verify.rs:54-216 | valid is reported if and only if a key is pinned and the file meets every condition; the other two exits exactly for their own reasons |
| VerifierFacts.AcceptsIff | src/bin/verify.rs:54-216 | a file is accepted exactly with versions "proof_v1" and "leaf_v1", a 32-byte key that both files spell in any case, a 64-byte signature over chain:root:head under it, the right count and head, and parsed events that are linked with that root |
| VerifierFacts.SpellingIrrelevant | src/signing.rs:159-188 | key files that spell the same bytes, in letters of any case and between any white space, accept the same proof files |
| VerifierFacts.ExportAcceptedIff | src/signing.rs:163-188 | an export of a linked chain is accepted under exactly the key files that spell the signer's key |
| VerifierFacts.RowsIff | src/bin/verify.rs:39-52 | the events are read exactly as their texts spell them |
| OfflineVerifier.SignedMessageFields | src/signing.rs:95-99 | a signed message tells which chain, root and last event it is about |
| OfflineVerifier.AcceptedProofIsSigned | src/bin/verify.rs:90-187 | if the pinned key signed only roots of chains with their last event ids, an accepted proof shows exactly the events of a signed chain and its head is their last id, unless hashes collide |
| OfflineVerifier.RowsRoundTrip | src/bin/verify.rs:39-52 | the events the server prints parse back to the same events |
| OfflineVerifier.ExportIsAccepted | src/service/verification.rs:111-180 | a proof exported from a linked chain passes the offline verifier under the server's key |
| OfflineVerifier.ResponseAcceptedIff | src/service/ledger.rs:422-471 | an append response passes if and only if nothing was appended between commit and second read |
| OfflineVerifier.ResponsePrefixAccepted | src/service/ledger.rs:422-471 | cut back to the signed events it always passes |
| Evidence.FindEvent | src/evidence_record.rs:276-300 | the loop stops at the first event with the record's id and reports a missing event or a wrong hash |
| Evidence.VerifyEvidenceIntegrity | src/evidence_record.rs:276-365 | flags and accumulated errors are those of the specified check |
| Evidence.ErrorsAre | src/evidence_record.rs:276-365 | the errors, in their order: event missing or hash different, chain different, unreadable ids, first break of the chain or wrong root, bad signature |
| Evidence.FlagsAre | src/evidence_record.rs:351-365 | each flag says exactly that its own check passed, and the recomputed root is there exactly for a linked chain |
| Evidence.ValidIffNoErrors | src/evidence_record.rs:90-98 | a result is valid if and only if its error list is empty, and if and only if the proof is valid evidence for the record |
| Evidence.EvidenceAgainstPinnedKey | src/evidence_record.rs:276-365 | valid evidence with supported versions, matching counts and heads and the pinned key is exactly an accepted proof of the record's event whose key has no white space around it |
| Evidence.AnyoneCertifies | src/evidence_record.rs:221-365 | with a time or a non-empty token, a chain that any honest signer signs with a key of its own certifies each of its events, while the offline verifier accepts the file exactly if that key is the pinned one |
| Evidence.DeriveLifecycle | src/evidence_record.rs:221-236 | never revoked; certified exactly for a valid result with a confirmed time stamp, only time-stamped exactly if the four main checks pass but the result is not valid |
| Evidence.EvidenceRecord.constructor | src/evidence_record.rs:123-169 | a new record is time-stamped if its proof carries a time or a non-empty token, else registered; other time-stamp data are pending, none are absent |
| Evidence.EvidenceRecord.RefreshLifecycle | src/evidence_record.rs:263-270 | the stored time-stamp status is confirmed exactly for a time or a non-empty token, pending for other data and absent without; a record not yet certified becomes so exactly for valid evidence with such a stamp |
| Evidence.RefreshedIs | src/evidence_record.rs:221-270 | the status after one refresh: revoked and certified stay, valid evidence with a stamp certifies, passed checks with a stamp confirm, all else is registered |
| Evidence.EvidenceRecord.VerifyEventEvidence | src/event_evidence_verify.rs:194-235 | the record is left alone unless the evidence is valid; then it is certified with a stamp, else at least registered, and no status is lost |
| Evidence.EvidenceRecord.RefreshAll | src/evidence_record.rs:265-270 | any run of refreshes ends in the status the run specifies, with the time-stamp status of the last proof |
| Evidence.RunIsMaximum | src/evidence_record.rs:239-261 | without a revocation the lifecycle after any run is the maximum of the first and all derived statuses |
| Evidence.RunEndsIn | src/evidence_record.rs:239-261 | so it is certified if anything was, else time-stamped if anything was, else registered |
| Evidence.RunOrderIrrelevant | src/evidence_record.rs:252-261 | order and repetition of refreshes do not matter |
| Evidence.RevokedIsSticky | src/evidence_record.rs:253-255 | no refresh leaves the revoked status |
| Evidence.CertifiedProof | src/evidence_record.rs:155-236 | valid evidence derives certified with a time or a non-empty token and registered without; nothing else derives certified |
| Evidence.CertifiedIff | src/evidence_record.rs:155-270 | a record becomes certified exactly if some proof of the run is valid evidence with a time or a non-empty token |
| LocalChain.BuildLocalEvents | evident-gui-app/src/main.rs:931-976 | the loop shows number and id of the stably sorted events, each valid exactly if its parent text is the id of the event before it, or nil for the first |
| LocalChain.ValidateChain | evident-gui-app/src/main.rs:1561-1592 | success exactly for a non-empty list numbered 1..n with a head; otherwise the first break and its kind, before a missing head |
| LocalChain.SortedIsOrdered | evident-gui-app/src/main.rs:932-933 | the sort is an ordered arrangement of the same events |
| LocalChain.SortedIsStable | evident-gui-app/src/main.rs:932-933 | events of one number keep their order |
| LocalChain.OnlyArrangement | evident-gui-app/src/main.rs:932-933 | a list with increasing numbers is the only ordered arrangement of its events |
| LocalChain.LocallyOkIsLinked | evident-gui-app/src/main.rs:931-976 | for printed events both checks pass exactly if the sorted events are a linked chain |
| LocalChain.LocalCheckIffArrangement | evident-gui-app/src/main.rs:931-976 | they pass exactly if the events can be arranged into a chain that the structural check accepts |
| LocalChain.OrderIsNotSeen | evident-gui-app/src/main.rs:931-976 | any listing of a valid chain passes, while only the right order passes the verifier's check |
| LedgerInvariant.ActKeeps | src/service/ledger.rs:90-393 | after any statement what a transaction has read and planned still agrees with the tables |
| LedgerInvariant.MoveApart | src/service/ledger.rs:90-141 | a statement that does not have to wait never takes a row or key another transaction holds |
| LedgerInvariant.CommitKeepsDb | src/service/ledger.rs:334-393 | a commit keeps every chain linked, its head at its last event and ids and keys distinct |
| LedgerInvariant.CountersAfterCommit | src/service/ledger.rs:379-390 | a commit keeps both counters equal to the number of committed events |
| LedgerInvariant.SnapshotIsAll | src/api/v1/proof_material.rs:80-100 | the prefix up to the new sequence number is the whole chain with the new event |
| LedgerRuns.StepKeeps | src/service/ledger.rs:176-393 | every enabled step of any transaction keeps the invariant of tables, transactions and log |
| LedgerRuns.RunKeeps | src/service/ledger.rs:176-393 | so does every run |
| LedgerRuns.ChainsStayLinked | src/service/ledger.rs:311-377 | in every interleaving every committed chain is numbered 1..n, starts at nil, has each parent equal to the previous id and its head at its last event |
| LedgerRuns.StepExtendsOneChain | src/service/ledger.rs:334-377 | a step that changes committed data is a commit that appends exactly one event to exactly one chain |
| LedgerRuns.RunExtends | src/service/ledger.rs:90-141 | histories only grow, and an owner once set never changes |
| LedgerRuns.CountersEqualCommits | src/service/ledger.rs:264-309 | in every interleaving both usage counters equal the events committed by the account in the month, and no commit exceeds the limits its transaction read |
| LedgerRuns.OwnersAndKeys | src/service/ledger.rs:90-141 | every append is by the chain's owner, event ids are unique, and a chain never has two events with one key |
| LedgerRuns.OnlyAppendedWrote | src/service/ledger.rs:186-255 | only a request answered as appended has changed the tables: cached, refused and failed ones change nothing, not even a claim of an ownerless chain |
| LedgerRuns.RepeatIsCached | src/service/ledger.rs:186-212 | a repeated key is answered with the id of the one event that carries it, the database unchanged |
| LedgerRuns.InsertNeverClashes | src/service/ledger.rs:320-364 | the duplicate-sequence error cannot occur, and a planned event is inserted as planned |
| LedgerRuns.InsertFailsIff | src/service/ledger.rs:334-364 | in every run an insert fails, as a database error, exactly if its id is taken or a v1 request repeats a key of its chain |
| LedgerRuns.DuplicatesAreNeverReplied | src/service/ledger.rs:36-48 | in every run no request is answered with either of the two errors about duplicates |
| LedgerRuns.NoWaitCycle | src/service/ledger.rs:90-141 | no cycle of transactions waiting for each other: each takes its chain before its usage row and waits for an id holding both |
| LedgerRuns.SomeoneCanMove | src/service/ledger.rs:264-390 | while a transaction is open some transaction can take its next statement |
| LedgerFacts.AppendsAreAsAsked | src/service/ledger.rs:334-364 | in every run the record of a logged append carries the chain, key and file hash of its request, and its event id if it names one; it is the last event of what was signed, numbered by its place there, its parent the event before it |
| LedgerProofs.ExportsValidate | src/service/backup_snapshot.rs:60-69 | every reachable chain, exported, passes structural validation |
| LedgerProofs.AppendResponses | src/service/ledger.rs:214-254 | the response of every committed append passes the verifier exactly if nothing else was appended before the second read; its prefix always does |
| LedgerResponses.ResponseRejected | src/service/ledger.rs:422-471 | from every run with a logged append, and for every request that can append to its chain, a run goes on in which the append's response is rejected |
| LedgerStore.AppendsAlone | src/service/ledger.rs:176-255 | a request of the owner, within all limits and with a new id and key, is answered as appended when it runs alone |
| LedgerStore.SubmissionIs | src/service/ledger.rs:176-393 | the reply to a legacy request alone, in the order of its tests: foreign chain, known key with the head, commit limit, time-stamp limit, time-stamp mode, database error, appended; the appended event has the maximum plus one, the asked or new id, the head as parent and the file hash of the request |
| LedgerStore.V1SubmissionIs | src/service/ledger.rs:90-393 | the same for a v1 request, whose sequence overflow comes before the limits and whose known key is a database error |
| LedgerQueries.FindKeyIs | src/service/ledger.rs:186-198 | the key query returns the last event of the chain with the key, or none if there is none |
| LedgerQueries.HasIdIff | src/service/ledger.rs:334-364 | an id is taken exactly if some event has it |
| LedgerQueries.MaxSequenceIs | src/service/ledger.rs:320-328 | the sequence query returns the greatest number of the chain, or zero |
| LedgerQueries.HistoryOfParts | src/api/v1/proof_material.rs:80-100 | a chain's history is what its own events add, one after the other |
| LedgerQueries.HistoryOfOne | src/api/v1/proof_material.rs:80-100 | an event belongs to the history of its own chain only |
| LedgerQueries.UpToOfOne | src/api/v1/proof_material.rs:80-100 | an event is signed exactly if its number is not above the given one |
| LedgerQueries.UsageIs | src/service/ledger.rs:264-289 | a month without a usage row counts from zero |
| LedgerQueries.UpToOfParts | src/api/v1/proof_material.rs:80-100 | what is signed are the events up to the number, in order |
| LedgerProofs.SignedSnapshots | src/service/ledger.rs:214-225 | in every run whatever a transaction signs is a linked chain: a prefix of the committed one if the request was answered as appended, otherwise exactly if its last event has been committed |
| LedgerProofs.FailedCommitLeavesSignature | src/service/ledger.rs:214-225 | from every state with an append at its commit a run goes on whose failed commit leaves the snapshot signed and the tables without it |
| LedgerProofs.AcceptedProof | src/bin/verify.rs:90-187 | if the key signed only what the server signed in the run, failed appends included, an accepted proof shows a linked chain, a prefix of the committed one exactly if its last event was committed, and otherwise the snapshot of an append that has not committed |
| LedgerStore.UninterruptedRun | src/service/ledger.rs:176-255 | a transaction run to its end alone is a run of the state machine with the same effect |
| LedgerStore.RepeatedKeyFails | src/service/ledger.rs:334-364 | a v1 request that repeats a key of its chain and for which no response is stored, run alone, is answered with a database error and changes nothing |
| LedgerStore.Transaction.constructor | src/service/ledger.rs:176-185 | a new transaction holds nothing, has written nothing and is about the file of its request |
| LedgerStore.Transaction.LockChainRow | src/service/ledger.rs:90-120 | the chain is inserted with its owner or its row read under a lock |
| LedgerStore.Transaction.EnsureAccess | src/service/ledger.rs:120-141 | another owner's chain is refused, an ownerless one claimed |
| LedgerStore.Transaction.ReplyFromTable | src/service/ledger.rs:186-212 | a known key ends the transaction with the stored event's id |
| LedgerStore.Transaction.CheckUsage | src/service/ledger.rs:290-309 | commit limit, time-stamp limit and time-stamp mode are refused in this order |
| LedgerStore.Transaction.ReadParent | src/service/ledger.rs:311-318 | the parent is the head the transaction sees, or nil |
| LedgerStore.Transaction.ReadNextSequence | src/service/ledger.rs:320-332 | the number is one above the chain's maximum; an overflow is an error |
| LedgerStore.Transaction.InsertRow | src/service/ledger.rs:334-364 | the insert is refused for a taken id, key or sequence number, with the error the mapping gives |
| LedgerStore.Transaction.MoveChainHead | src/service/ledger.rs:366-377 | the head moves to the new event |
| LedgerStore.Transaction.BumpCounters | src/service/ledger.rs:379-390 | both counters grow by one within 32 bits |
| LedgerStore.Ledger.SubmitEvent | src/service/ledger.rs:176-255 | an appended request adds one record with its chain, key and file hash, the next number, the asked or new id and the old head as parent; the head moves to it, both counters grow by one and nothing else changes; any other reply leaves the tables untouched |
| LedgerStore.Ledger.SignAndCommit | src/service/ledger.rs:214-225 | the snapshot is signed before the commit, which makes chain, event and usage visible together |
| PaddleEvents.UpdatesNeverLowerThePlan | src/paddle/processor.rs:478-548 | an update decided against the plan in force never lowers it: a dearer plan applies at once and clears the pending one, a cheaper one only waits |
| PaddleEvents.UpdateLowersIff | src/paddle/processor.rs:478-548 | decided against any plan, it lowers the one in force exactly if its own plan lies above the plan read and below the one in force |
| PaddleEvents.DecisionHasEffect | src/paddle/processor.rs:439-590 | field by field: a creation or upgrade sets plan, active status, period end and subscription id and clears the pending plan, a downgrade sets the pending plan only, the same plan renews, past due sets the late status only, a cancellation sets the canceled status and the period end only |
| PaddleEvents.RefusalIs | src/paddle/processor.rs:439-623 | an event is refused exactly for a missing price, an unknown plan, a missing current plan or a missing period end, in this order |
| PaddleEvents.KindNames | src/paddle/processor.rs:87-95 | the four handled kinds and their names |
| PaddleEvents.SameKind | src/paddle/models.rs:52-54 | the kind of an event does not depend on the case of its letters or on dots in the place of underscores |
| WebhookInvariant.LastPut | src/paddle/webhook_store.rs:37-51 | writing a row moves the maximum of an account exactly if the row becomes processed for it |
| WebhookInvariant.ActKeeps | src/paddle/processor.rs:97-408 | after any statement what a delivery knows of its row, account and decision agrees with the tables |
| WebhookInvariant.CommitKeepsLog | src/paddle/processor.rs:399-407 | a commit keeps billing equal to the logged writes and event ids unique in the log |
| WebhookInvariant.LinkAdds | src/paddle/linking.rs:18-94 | a link adds one customer to an account without one, keeps the index, and changes no billing |
| WebhookRuns.StepKeeps | src/paddle/processor.rs:97-408 | every step of any delivery or link keeps the invariant |
| WebhookRuns.EachEventAppliesOnce | src/paddle/processor.rs:419-590 | in every interleaving an account's billing is its first billing with the logged writes in commit order, and no event id is logged twice |
| WebhookEffects.CommitHasEffect | src/paddle/processor.rs:385-590 | in every run the commit of an applied event does to its account what the event says, field by field, decided with the plan read before; any other step leaves all billing alone |
| WebhookRuns.CommittedStatuses | src/paddle/webhook_store.rs:53-214 | committed rows are only processed, failed or waiting, and wait exactly without an account |
| WebhookRuns.SettledRowsStay | src/paddle/processor.rs:142-159 | rows keep hash and account for ever, and processed and waiting rows never change |
| WebhookRuns.RefusedDeliveriesChangeNoAccount | src/paddle/processor.rs:200-208 | only a link or a commit writes, and the commit of a refused delivery changes its row to failed and nothing else |
| WebhookRuns.CustomersStay | src/paddle/linking.rs:18-94 | a linked customer id keeps its account for ever |
| WebhookRuns.CustomersAreUnique | src/service/billing.rs:178-239 | no two accounts share a customer id |
| WebhookRuns.RetriesAreLinked | src/paddle/processor.rs:221-254 | only a delivery that wrote its row parks it: a retry never finds its account missing |
| WebhookRuns.WaitsAreShallow | src/paddle/webhook_store.rs:82-97 | who waits for a row holds nothing, who waits for an account waits for a commit: no deadlock |
| WebhookRuns.SomeoneCanMove | src/paddle/processor.rs:161-270 | while a delivery is under way some delivery can take its next statement |
| WebhookRuns.IdleEnds | src/paddle/processor.rs:109-159 | a delivery of a settled event ends at once as idempotent, ignored or in conflict |
| WebhookRuns.RedeliveriesAreInert | src/paddle/processor.rs:109-159 | leaving out of any interleaving all deliveries that began on settled events, with any bytes, is again a run with the same tables and log |
| WebhookOrder.InOrderMeans | src/paddle/processor.rs:410-417 | the log's order means that an account's applied events never go back in time |
| WebhookOrder.EventsInOrderIff | src/paddle/processor.rs:385-407 | in every run the events apply in order if and only if no applying commit found a newer event of its account processed; while they do, the stored maximum is the last applied time |
| WebhookOrder.StepKeepsOrder | src/paddle/processor.rs:385-397 | a step keeps the order if no other delivery for the account is between its read and its end |
| WebhookOrder.SerialRunsKeepOrder | src/paddle/processor.rs:385-407 | in every run without such overlaps events apply in order and the stored maximum is the last applied time |
| WebhookRace.OlderEventCanWin | src/paddle/processor.rs:385-407 | for any two new events of a linked account a run applies the newer first and the older last |
| WebhookStore.DeliveryAlone | src/paddle/processor.rs:97-408 | a delivery run alone, statement by statement, has the effect and reply of the one-step specification |
| WebhookStore.RunOn | src/paddle/processor.rs:97-408 | running it alone is a serial run of the state machine |
| WebhookStore.AppliedIsWritten | src/paddle/processor.rs:385-407 | what a delivery alone does to any account is the write it is said to apply, or nothing |
| WebhookEffects.CallHasEffect | src/paddle/processor.rs:97-590 | a call alone does that to the account its event reaches, and nothing to any account otherwise |
| WebhookEffects.CallEnds | src/paddle/processor.rs:97-408 | reply, row and pending link of a call alone: ignored, in conflict, idempotent, in progress or without a customer it changes nothing; otherwise its event's row alone is written, as waiting, processed or failed, and a waiting one adds a pending link with the customer's e-mail |
| WebhookEffects.LastIs | src/paddle/processor.rs:410-417 | the time compared with is that of the newest processed event of the account |
| WebhookStore.AtomicDeliveriesKeepOrder | src/paddle/processor.rs:410-417 | the writes that deliveries and links, one after another, apply to each account are in non-decreasing time, the stored maximum is that of the last, and billing is what they make of it |
| WebhookPlans.CommitLowersIff | src/paddle/processor.rs:125-134 | in every run the commit of an update lowers the plan in force exactly if its plan lies above the one read before the transaction and below the one in force, which is then another |
| WebhookPlans.StaleUpgradeLowers | src/paddle/processor.rs:478-548 | for any two new updates of a linked account, to a high plan and later to one in between, a run applies both in the order of their times and the second lowers what the first has put in force |
| WebhookPlans.CallsLowerIff | src/paddle/processor.rs:439-590 | of calls one after another exactly those lower the plan in force that create a subscription with a plan below it |
| WebhookPlans.CallsNeverLower | src/paddle/processor.rs:439-590 | so without such a creation the plan at the end is not below the one at the start |
| WebhookPlans.CreationLowers | src/paddle/processor.rs:439-476 | any new creation for a linked account with a plan below the one in force lowers it |
| WebhookProcessing.WebhookProcessor.MarkProcessing | src/paddle/webhook_store.rs:82-97 | a row is claimed exactly if it is received or failed |
| WebhookProcessing.WebhookProcessor.MarkAs | src/paddle/webhook_store.rs:99-214 | a row takes its final status only while it is being processed |
| WebhookProcessing.WebhookProcessor.UpdateAccount | src/paddle/processor.rs:455-473 | an account is written unless its new subscription id is another account's |
| WebhookProcessing.WebhookProcessor.SubscriptionCreated | src/paddle/processor.rs:439-476 | unless refused or aborted the account has the bought plan, no pending one, the active status, the period end and the subscription id; no other account changes |
| WebhookProcessing.WebhookProcessor.SubscriptionUpdated | src/paddle/processor.rs:478-548 | an upgrade does the same, a downgrade sets the pending plan only, the same plan renews status, period end and subscription id |
| WebhookProcessing.WebhookProcessor.SubscriptionCanceled | src/paddle/processor.rs:567-590 | the account takes the canceled status and the event's period end, and nothing else changes; without a period end nothing does |
| WebhookProcessing.WebhookProcessor.ApplyEvent | src/paddle/processor.rs:419-437 | every handled event has its own effect on its account and none on others |
| WebhookProcessing.WebhookProcessor.SkipOrApply | src/paddle/processor.rs:385-407 | an outdated event is only marked, a refused one marked failed, an aborted one rolled back whole |
| WebhookProcessing.WebhookProcessor.ReprocessExisting | src/paddle/processor.rs:166-254 | a retry has the specified effect on tables and reply |
| WebhookProcessing.WebhookProcessor.StoreNew | src/paddle/processor.rs:272-408 | so has a first delivery, linked or not |
| WebhookProcessing.WebhookProcessor.ProcessPaddleWebhook | src/paddle/processor.rs:97-134 | tables and reply after the call are those of the one-step specification |
| WebhookProcessing.WebhookProcessor.LinkPaddleCustomer | src/paddle/linking.rs:18-94 | the customer is bound to the account unless either is bound already |
| WebhookEffects.LinkIs | src/paddle/linking.rs:18-94 | exactly when a link succeeds, what it writes, and which of the three refusals is given otherwise |
| WebhookProcessing.WebhookProcessor.EnsurePaddleCustomer | src/service/billing.rs:79-105 | an account keeps the customer it has; a returned customer is the account's; the index stays right |
| PublicProofs.PublishKeepsIff | src/public_proof.rs:213-248 | publishing keeps the tables matched if and only if the materialization is not disabled by then |
| PublicProofs.DisableKeeps | src/public_proof.rs:117-161 | disabling keeps registry rows and materializations matched |
| PublicProofs.OperationKeeps | src/public_proof.rs:90-251 | every call alone keeps rows and materializations one-to-one, enabled with not disabled, at most one enabled for a hash; after an anchor or sync one exists exactly if something of the hash is not disabled |
| PublicProofs.HistoryKeeps | src/public_proof.rs:90-251 | so does every history of calls |
| PublicProofs.SecondProofWaits | src/public_proof.rs:192-194 | a second proof of a shown hash gets no public id until the first is disabled |
| PublicProofs.PublicRegistry.SyncInTx | src/public_proof.rs:175-251 | publishes the earliest materialization that is not disabled if nothing is enabled, and tells whether the transaction survives |
| PublicProofs.PublicRegistry.OnProofAnchored | src/public_proof.rs:90-114 | materializes at most once and syncs, or leaves everything as it was |
| PublicProofs.PublicRegistry.SyncCanonical | src/public_proof.rs:163-173 | the effect of a sync for the normalized hash |
| PublicProofs.PublicRegistry.DisableCanonical | src/public_proof.rs:117-161 | the enabled row and its materialization are disabled together |
| RegistryFacts.HashIs | src/public_proof.rs:48-50 | a hash is stored without the white space around it and in small letters |
| RegistryFacts.SyncedIs | src/public_proof.rs:163-251 | row by row: a sync adds one enabled row named by the earliest materialization of the hash that is not disabled, and changes nothing if the hash is shown, none is left or the public id is taken |
| RegistryFacts.AnchoredIs | src/public_proof.rs:90-114 | row by row: an anchor adds the proof's materialization unless it has one and then does as a sync, or loses both to a taken public id |
| RegistryFacts.DisabledIs | src/public_proof.rs:117-161 | row by row: a disable turns off the row that shows the hash and marks exactly the materializations that name it |
| PublicProofRuns.OneActiveAlways | src/public_proof.rs:180-236 | in every interleaving a hash has at most one enabled row |
| RegistryFacts.StatementsDo | src/public_proof.rs:90-251 | a call whose statements no other call interrupts does what the call as a whole does |
| PublicProofRuns.DisabledForEver | src/public_proof.rs:136-156 | no row disappears and nothing disabled is enabled again |
| PublicProofRuns.StepKeepsMatchedIff | src/public_proof.rs:196-248 | a statement keeps the tables matched if and only if it does not publish a candidate disabled since it was read |
| PublicProofRuns.MatchedIffFresh | src/public_proof.rs:90-251 | in every interleaving the tables are matched if and only if no statement so far published such a candidate |
| PublicProofRuns.CallShowsIff | src/public_proof.rs:175-251 | in every run without stale candidates an anchor or sync leaves its hash shown exactly if something of it is not disabled, unless it read no candidate or drew a taken id while a candidate waits |
| PublicProofRuns.AnchorLostIff | src/public_proof.rs:90-251 | in every run a materialization an anchor has inserted is lost at its commit exactly if it publishes against an enabled row of the hash or a taken public id |
| PublicProofRuns.SecondAnchorIsLost | src/public_proof.rs:90-251 | for any two new proofs of one hash that is not shown a run without faults anchors both and keeps only the first |
| PublicProofRuns.StaleCandidateBreaks | src/public_proof.rs:196-248 | wherever a sync would publish there is a run that leaves an orphaned row and a disabled proof shown |
| Base64.DecodeOfEncode | src/service/identity_dashboard.rs:240-256 | decoding undoes encoding for every byte string |
| Base64.EncodeOfDecode | src/service/identity_dashboard.rs:246-250 | only the canonical text of a byte string decodes |
| CodingFacts.AlphabetIs | src/service/identity_dashboard.rs:240-244 | the 64 characters and their values |
| CodingFacts.GroupIs | src/service/identity_dashboard.rs:240-244 | three bytes, read as one number, become its four digits to the base 64 |
| CodingFacts.GroupsAreEncoded | src/service/identity_dashboard.rs:240-244 | whole groups are encoded one by one |
| CodingFacts.LastGroupIs | src/service/identity_dashboard.rs:240-244 | a last group of one or two bytes keeps two or three characters and is filled with "=" |
| Pagination.I64RoundTrip | src/service/identity_dashboard.rs:242-253 | every printed i64 parses back |
| PaginationFacts.I64TextsAre | src/service/identity_dashboard.rs:242-253 | the texts of an i64 are exactly its digits behind any number of zeros and a fitting sign; it is printed without zeros or a plus sign |
| Pagination.CursorRoundTrip | src/service/identity_dashboard.rs:240-256 | a cursor decodes to its position for every i64 and UUID |
| PaginationFacts.CursorIff | src/service/identity_dashboard.rs:240-256 | a cursor is read as a position exactly if, trimmed, it is the Base64 text of a sequence and an event id with a colon between |
| Pagination.ClampEventsLimit | src/service/identity_dashboard.rs:258-265 | the limit is between 1 and 100: 20 if none or zero is asked for, else as asked or 100 |
| Pagination.FetchPage | src/service/identity_dashboard.rs:125-200 | the loop shows the rows right behind the position and a cursor exactly if more follow |
| PaginationFacts.TrimmedCursor | src/service/identity_dashboard.rs:246-250 | white space around a cursor does not count |
| PaginationFacts.PageIs | src/service/identity_dashboard.rs:125-200 | a page shows, newest first and by event id within one sequence, events behind its position only: all of them without a cursor, or as many as the limit says, above all others, with the cursor of the last one |
| Pagination.ListKeyEvents | src/service/identity_dashboard.rs:97-208 | unknown keys and unreadable cursors are refused in this order; otherwise the page at the cursor |
| Pagination.VisitsDescend | src/service/identity_dashboard.rs:125-200 | pages followed by their cursors never repeat an event, whatever happens to the table in between |
| PaginationFacts.VisitIsOrdered | src/service/identity_dashboard.rs:125-200 | the events of a visit come newest first, by event id within one sequence |
| Pagination.VisitsMissNothing | src/service/identity_dashboard.rs:125-200 | and they show every event that was there at every fetch |
| Pagination.FixedVisit | src/service/identity_dashboard.rs:125-200 | over a fixed table they list each event behind their start once, in order |
| Pagination.FixedVisitFromStart | src/service/identity_dashboard.rs:118-200 | from the start they list the whole table in max(1, ceil(N / limit)) pages |
| Pagination.PageCountIsCeiling | src/service/identity_dashboard.rs:157-200 | the number of pages is that ceiling |
| Pagination.VisitExists | src/service/identity_dashboard.rs:195-200 | following the cursors always comes to an end |
| PercentCoding.UrlEncode | evident-gui-app/src/desktop_auth.rs:106-115 | the loop encodes byte by byte as specified |
| PercentCoding.UrlDecode | evident-gui-app/src/desktop_auth.rs:117-134 | the loop decodes as specified, with the places where slicing panics |
| PercentCoding.DecodedOfEncoded | evident-gui-app/src/desktop_auth.rs:106-134 | decoding undoes encoding for every byte string, without a panic |
| CodingFacts.EncodedIs | evident-gui-app/src/desktop_auth.rs:106-115 | letters, digits and "-_.~" stay, any other byte becomes a percent sign and its two digits in capitals |
| CodingFacts.EscapeIs | evident-gui-app/src/desktop_auth.rs:117-134 | a percent sign with two digits of either case decodes to their byte |
| CodingFacts.OtherwiseIs | evident-gui-app/src/desktop_auth.rs:117-134 | all else decodes to itself but a plus to a space, with the two odd cases: an escape of a plus sign and a digit, and the panic |
| CodingFacts.PlusesAreSpaces | evident-gui-app/src/desktop_auth.rs:117-134 | text without percent signs decodes to itself with spaces for pluses |
| PercentCoding.ExtractToken | evident-gui-app/src/desktop_auth.rs:88-104 | the loop returns the first pair named token whose value is a desktop token |
| CodingFacts.FirstDecides | evident-gui-app/src/desktop_auth.rs:88-104 | the first pair named token whose value is a desktop token or panics decides; without one there is no token |
| CodingFacts.PairIs | evident-gui-app/src/desktop_auth.rs:93-96 | a pair is cut at its first equals sign, and without one its value is empty |
| PercentCoding.TokenHandOff | src/api/dashboard_desktop.rs:94-133 | for every callback the desktop takes exactly the server's token if it has no fragment, at most one question mark and an own query without a token or a panic, and otherwise exactly what the callback alone gives it |
| PercentCoding.TokenIsLost | src/api/dashboard_desktop.rs:94-120 | callbacks with a second question mark or a fragment yield no token, those with a token of their own yield that |
| WrapLine.Wrap | evident-whitepaper/src/main.rs:29-54 | the loop makes the greedy groups of words, and one empty line of nothing |
| WrapLine.WrappingKeepsWords | evident-whitepaper/src/main.rs:29-54 | the lines hold the words of the input, in order |
| WrapLine.WrappingFits | evident-whitepaper/src/main.rs:29-54 | every line fits or is a single word |
| WrapLine.WrapIsMinimal | evident-whitepaper/src/main.rs:29-54 | no other lines that fit and hold the same words, however spaced, are fewer |
| WrapLine.WrappedIff | evident-whitepaper/src/main.rs:29-54 | a blank line gives one empty line; any other the one way to cut its words into lines that fit, or are one word, behind which the next word does not fit |

## Left out

- PDF rendering, QR codes, page layout, the desktop's screens and translations: no logic to prove.
- HTTP handlers, clients, command-line parsing, configuration, keychain and files: plumbing around the modelled calls.
- SHA-256, Ed25519, HMAC, Argon2, base58 and random generation: kept abstract; `newId` parameters are arbitrary, so that a clash of identifiers is covered.
- Time-stamp tokens from a TSA, their storage and verification, and the rate limiter.
- The `idempotency_records` table of `POST /v1/events` (src/api/v1/submit_event.rs:140-278), which replays whole responses before an append begins; the append itself is modelled.
- LedgerStore.RepeatedKeyFails: about requests for which that look-up has found nothing; the others never reach the append.
- `created_at` and the identity columns of events: no modelled check reads them. Events are kept in insertion order, which is proved to be the order of their sequence numbers.
- Foreign keys and the locks they take on account rows.
- Account, tariff, dashboard and capability queries, sessions, desktop tokens and API keys; other writers of account billing than the webhooks.
- src/freeze.rs, which is marked deprecated.
- `create_chain` (src/service/chains.rs:9) inserts an empty chain with its owner under a new id; it is not an action of the state machine, whose chains begin with their first append or are there from the start.
- LedgerModel.CheckLimits: the capability query's result is a parameter; what it joins is not modelled.
- LedgerModel.Commit: a failure after the database has committed is not modelled; a fault always rolls back.
- LedgerStore.Ledger.SubmitEvent: covers the legacy path; the statements of the `/v1` path are in the state machine only.
- WebhookModel.Update: the wait for another open delivery's uncommitted subscription id is not modelled; its failing outcome is one of the faults.
- WebhookModel.MakeDecision: a fault while a failed mark is being committed is reported as a database error, where the code still returns the refusal.
- WebhookModel.LinkCustomer: one step, since its only write is one conditional UPDATE under the unique index; a lost race is reported as the state it finds, where the code may return a database error.
- WebhookStore.AtomicDeliveriesKeepOrder: supposes, like the theorems on runs, that two deliveries with the same payload hash carry the same event.
- PublicProofRuns.Write: the writes of a call and its commit are one step, because the unique keys and row locks it takes admit nothing in between.
- PublicProofs.PublicRegistry.SyncInTx: the registry's constant columns are left out.
- LocalChain.BuildLocalEvents: the name and the integrity of a local copy, which each shown event also carries, are left out; both need files.
- LocalChain.LocallyOkIsLinked: about identifiers as the server prints them; the desktop compares texts, so a file with other spellings of a UUID fails there although the verifier reads it.
- Pagination.ListKeyEvents: the identity signature of each listed event is checked by code that is not part of this model.
- PercentCoding.ExtractToken: `String::from_utf8_lossy` is a parameter that leaves the token unchanged, since the token is UTF-8.
