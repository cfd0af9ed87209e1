# Document backup registry — a Dafny model

This project models the in-memory document registry `DocumentBackupMock`
(`tests/DocumentBackup.test.ts`), which stands in for an on-chain contract. The
registry records per-user identity documents: a 32-byte content hash, a content
pointer (CID) and descriptive fields. It tracks ownership, versions and a per-user
quota. It charges a backup fee to a single authority account that is set once.

The model is functional. An immutable `State` holds the five scalars
(`nextDocId`, `maxDocsPerUser`, `backupFee`, `authority`, `docCount`) and the four
maps (`documents`, `docUpdates`, `docsByHash`, `userDocCounts`). A `Chain` pairs
that state with the append-only log of fee transfers. Each public operation is a
pure function that returns the tagged result and the next state. The caller, the
block height and the set of registered accounts come in as a `Context`.

Files:

- `results.dfy`: the error kinds, their numeric codes (100–127) and the result type.
- `doc_keys.dfy`: the `user-docId` string key and the proof that, for non-negative
  ids, it determines the pair. This justifies keying documents by `DocKey(user, docId)`.
  It also renders a digest the way `hash.toString()` does and proves the rendering
  injective, which justifies keying the hash index by the digest itself.
- `registry_state.dfy`: the data model, the field bounds, the initial state and
  the registry invariant in two layers. The core invariant `CoreValid` requires
  the following:
  - every document is stored under its owner's key, with an id already handed out;
  - every index entry leads to a live document carrying that hash;
  - every stored document satisfies the field bounds;
  - update records exist only for live documents;
  - `docCount` and each user's count equal the matching number of documents.

  The full invariant `Valid` adds `HashIndexed`: the hash index and the store agree
  both ways, so every live document's hash is indexed and no two live documents
  share a hash.
- `validation.dfy`: the checks of backup and update. Each check is stated on its
  own, with its position in the fixed order. The validators return the failing
  check with the lowest position.
- `registry.dfy`: the config setters, backup, update (as implemented and corrected),
  delete, the three queries, and `Step`/`Run` over a sequence of calls. A flag picks
  which update the calls use.
- `invariants.dfy`: `CoreValid` holds initially and every operation keeps it, the update
  as implemented included, so it holds in every reachable state. `Valid` is kept by every
  operation except an update onto a hash that is already indexed. So it holds in every
  state reachable with the corrected update, and it fails in some state reachable with
  the update as implemented. The file also proves the consequences:
  - for non-negative ids, the ownership checks are unreachable;
  - the hash is indexed after a backup and freed after a delete;
  - the quota check runs first;
  - an empty-string authority locks the registry.
- `update_hash_finding.dfy`: the missing hash-uniqueness check in update (see Findings).
- `scenarios.dfy`: the call sequences of the repository's test suite as concrete lemmas.

## Model

| member | source | states |
|---|---|---|
| DocKeys.NatToString | tests/DocumentBackup.test.ts:194 | the decimal rendering of an id is non-empty, made only of digits, and has one character exactly for ids below 10 |
| DocKeys.KeyStringInjective | tests/DocumentBackup.test.ts:194 | for non-negative ids, two equal `user-docId` keys have the same user and the same id, so keying by the pair is faithful |
| DocKeys.KeyStringCollidesForNegativeIds | tests/DocumentBackup.test.ts:227 | with a negative id the key is ambiguous: user "a" with id -1 and user "a-" with id 1 both give "a--1" |
| DocKeys.HashKey | tests/DocumentBackup.test.ts:187 | the comma-separated rendering of a digest is empty exactly for the empty digest |
| DocKeys.HashKeyInjective | tests/DocumentBackup.test.ts:187 | two digests with the same comma-separated decimal rendering are equal, so keying the index by the digest is faithful |
| RegistryState.InitialValid | tests/DocumentBackup.test.ts:103-119 | a reset registry satisfies the invariant, has an empty transfer log, no configured authority and an empty hash index |
| RegistryState.ValidHashesUnique | tests/DocumentBackup.test.ts:188 | in any state satisfying the invariant, no two live documents share a hash |
| Validation.ValidateBackup | tests/DocumentBackup.test.ts:169-189 | backup reports the violated check with the lowest position, in the order quota, registration, hash, CID, docType, metadata, expiry, size, location, currency, docName, description, category, tags, accessLevel, encryption, duplicate hash, authority; it reports nothing only when no check is violated |
| Validation.ValidateUpdate | tests/DocumentBackup.test.ts:232-239 | update reports the violated check with the lowest position, in the order missing document, wrong owner, hash length, CID length, metadata length, unchanged hash; it reports nothing only when no check is violated |
| Registry.SetAuthorityContract | tests/DocumentBackup.test.ts:125-134 | the burn account is rejected with NotAuthorized exactly when given; otherwise an already-present authority (even the empty string) gives AuthorityNotSet; success sets the authority and nothing else; a set authority never changes; failure changes nothing |
| Registry.SetMaxDocsPerUser | tests/DocumentBackup.test.ts:136-141 | fails with AuthorityNotSet exactly when the authority is unset or empty, then with InvalidUpdateParam exactly when the new maximum is not positive; success changes only the quota; failure changes nothing |
| Registry.SetBackupFee | tests/DocumentBackup.test.ts:143-148 | fails with AuthorityNotSet exactly when the authority is unset or empty, then with InvalidUpdateParam exactly when the fee is negative; success changes only the fee; failure changes nothing |
| Registry.BackupDocument | tests/DocumentBackup.test.ts:150-224 | fails exactly when a check fails, reporting the first failed check and leaving state and transfer log unchanged; on success it returns the old nextDocId and stores the supplied fields under (caller, id) with owner = caller, version 1, status true and timestamp = block height; it indexes the hash to that key and adds one to nextDocId, docCount and the caller's count, leaving other users' counts unchanged; it appends exactly one transfer of the fee from the caller to the authority |
| Registry.UpdateDocument | tests/DocumentBackup.test.ts:231-263 | reports DocNotFound exactly when the caller has no document with that id, and otherwise the first failed update check, changing nothing; on success the version goes up by one and only hash, CID, metadata and timestamp change; the index entry moves from the old hash to the new one, the update record is overwritten with old hash, new hash, reason and the caller, and all counters stay the same |
| Registry.UpdateDocumentChecked | tests/DocumentBackup.test.ts:239-244 | the corrected update: the same as UpdateDocument, except that after the unchanged-hash check a new hash that is already indexed is rejected with DocAlreadyExists; a success therefore implies the new hash was free |
| Registry.DeleteDocument | tests/DocumentBackup.test.ts:265-279 | succeeds exactly when the caller has a document with that id and owns it; reports DocNotFound exactly when (caller, id) is absent and NotAuthorized exactly when its owner differs, changing nothing; on success it removes the document, its hash-index entry and its update record, subtracts one from docCount and the caller's count, and leaves nextDocId and the configuration unchanged |
| Registry.GetDocument | tests/DocumentBackup.test.ts:226-229 | returns the document stored under (user, id), and nothing exactly when none is; when every document sits under its owner's key, that document belongs to the user, has an id already handed out and satisfies the field bounds |
| Registry.GetTotalDocCount | tests/DocumentBackup.test.ts:281-283 | never fails; whenever the counters agree with the store, in particular in every reachable state, it equals the number of live documents |
| Registry.CheckDocExistence | tests/DocumentBackup.test.ts:285-287 | never fails; a true answer is backed by a live document with that hash whenever every index entry is sound, as in every reachable state with either update; when the index agrees with the store both ways it is true exactly when some live document has the hash |
| Registry.Step | tests/DocumentBackup.test.ts:191 | one call, with either update, only extends the transfer log, by at most one entry; it never changes a set authority and never decreases nextDocId |
| Registry.Run | tests/DocumentBackup.test.ts:129-132 | a sequence of calls, with either update, only extends the transfer log and never changes an authority once set |
| Invariants.SetAuthorityPreservesValid | tests/DocumentBackup.test.ts:125-134 | setting the authority keeps the core invariant and the full invariant |
| Invariants.SetMaxDocsPreservesValid | tests/DocumentBackup.test.ts:136-141 | changing the quota keeps the core invariant (the quota stays positive) and the full invariant |
| Invariants.SetFeePreservesValid | tests/DocumentBackup.test.ts:143-148 | changing the fee keeps the core invariant (the fee stays non-negative) and the full invariant |
| Invariants.AcceptedRequestWellFormed | tests/DocumentBackup.test.ts:172-189 | a request that passes every backup check gives a document within all field bounds, with an unindexed hash and a configured authority |
| Invariants.BackupPreservesCoreValid | tests/DocumentBackup.test.ts:191-223 | a backup keeps counters, ownership, update records and the soundness of every index entry in lock-step with the document store |
| Invariants.BackupPreservesValid | tests/DocumentBackup.test.ts:187-223 | a backup also keeps the hash index in lock-step with the store, so the full invariant is kept |
| Invariants.UpdatePreservesCoreValid | tests/DocumentBackup.test.ts:240-261 | the update as implemented keeps counters, ownership, update records and the soundness of every index entry in lock-step with the store, for every input |
| Invariants.UpdatePreservesValid | tests/DocumentBackup.test.ts:240-261 | from a state satisfying the full invariant, the update as implemented keeps it exactly when it fails or its new hash was not yet indexed |
| Invariants.CheckedUpdateRefinesUpdate | tests/DocumentBackup.test.ts:231-263 | once accepted, the corrected update does exactly what the update as implemented does; it rejects only with the state unchanged, and with an unindexed new hash the two agree |
| Invariants.UpdateCheckedPreservesValid | tests/DocumentBackup.test.ts:231-263 | the corrected update keeps the invariant unconditionally |
| Invariants.DeletePreservesCoreValid | tests/DocumentBackup.test.ts:271-278 | a delete keeps counters, ownership, update records and the soundness of every index entry in lock-step with the document store |
| Invariants.DeletePreservesValid | tests/DocumentBackup.test.ts:271-278 | a delete also keeps the hash index in lock-step with the store, so the full invariant is kept |
| Invariants.StepPreservesCoreValid | tests/DocumentBackup.test.ts:125-279 | every call to any mutating operation keeps the core invariant, with the update as implemented or corrected |
| Invariants.StepPreservesValid | tests/DocumentBackup.test.ts:125-279 | with the corrected update, every call to any mutating operation keeps the full invariant |
| Invariants.RunPreservesCoreValid | tests/DocumentBackup.test.ts:125-279 | every sequence of calls keeps the core invariant, with either update |
| Invariants.RunPreservesValid | tests/DocumentBackup.test.ts:125-279 | with the corrected update, every sequence of calls keeps the full invariant |
| Invariants.ReachableValid | tests/DocumentBackup.test.ts:83-93 | every state reached from a reset registry satisfies the core invariant, with either update; with the corrected update it also satisfies the full invariant and has unique hashes |
| Invariants.NotAuthorizedUnreachable | tests/DocumentBackup.test.ts:232-269 | for non-negative ids, whenever every document sits under its owner's key, neither update nor delete ever reports NotAuthorized |
| Invariants.ReachableNeverNotAuthorized | tests/DocumentBackup.test.ts:232-269 | for non-negative ids, in every state reached from a reset registry, with either update, neither update nor delete reports NotAuthorized |
| Invariants.BackupIndexesHash | tests/DocumentBackup.test.ts:187-219 | after a successful backup its hash is reported as existing, and the next backup of the same hash, by any caller and with any other fields, fails with DocAlreadyExists or an earlier check |
| Invariants.IndexedHashBlocksBackup | tests/DocumentBackup.test.ts:187-188 | while a hash is indexed, every backup of it, by any caller and with any other fields, fails with DocAlreadyExists or an earlier check and changes nothing |
| Invariants.LiveHashBlocksBackup | tests/DocumentBackup.test.ts:187-188 | when the index agrees with the store, the hash of any live document blocks every backup of it at or before DocAlreadyExists |
| Invariants.DeleteFreesHash | tests/DocumentBackup.test.ts:271-273 | after a successful delete the old hash is reported as absent and no longer blocks a backup |
| Invariants.QuotaCheckFirst | tests/DocumentBackup.test.ts:169-170 | backup reports MaxDocsExceeded exactly when the caller's count has reached the quota |
| Invariants.NoAuthorityNoBackup | tests/DocumentBackup.test.ts:189 | with no configured authority every backup fails and changes nothing |
| Invariants.EmptyAuthorityLocksRegistry | tests/DocumentBackup.test.ts:125-148 | setting the empty string as authority succeeds, and afterwards the authority can never be set again while the quota setter, the fee setter and backup all fail |
| UpdateHashFinding.UpdateOntoIndexedHashBreaksUniqueness | tests/DocumentBackup.test.ts:239-244 | from any valid state, updating a document onto another live document's hash succeeds; the result has two documents with one hash and breaks the invariant, and deleting the updated document then unindexes a hash a live document still has |
| UpdateHashFinding.CheckedUpdateRejectsIndexedHash | tests/DocumentBackup.test.ts:239-244 | the corrected update rejects that same call with DocAlreadyExists and changes nothing |
| UpdateHashFinding.CheckedUpdateKeepsHashesUnique | tests/DocumentBackup.test.ts:240-244 | after a corrected update no two live documents share a hash |
| Scenarios.BacksUpDocument | tests/DocumentBackup.test.ts:298-342 | the first backup returns id 1, stores every supplied field with version 1 and status true, and logs a fee of 500 to ST2TEST |
| Scenarios.RejectsDuplicateHash | tests/DocumentBackup.test.ts:344-387 | a second backup of the same hash reports 106 |
| Scenarios.RejectsUnregisteredUser | tests/DocumentBackup.test.ts:389-415 | an unregistered caller gets 108 |
| Scenarios.RejectsBackupWithoutAuthority | tests/DocumentBackup.test.ts:417-440 | an otherwise valid backup with no authority gets 119 |
| Scenarios.RejectsShortHash | tests/DocumentBackup.test.ts:442-466 | a 31-byte hash gets 101 |
| Scenarios.RejectsInvalidDocType | tests/DocumentBackup.test.ts:468-492 | an unknown document type gets 103 |
| Scenarios.UpdatesDocument | tests/DocumentBackup.test.ts:494-530 | after a backup with "QmOldCID" and "old meta", an update sets the new hash, CID and metadata and version 2, and records old hash, new hash, reason and updater |
| Scenarios.RejectsUpdateOfMissingDocument | tests/DocumentBackup.test.ts:532-538 | updating id 99 gets 107 |
| Scenarios.DeletesDocument | tests/DocumentBackup.test.ts:540-569 | a delete removes the document and brings the user count and docCount back to 0 |
| Scenarios.RejectsDeleteOfMissingDocument | tests/DocumentBackup.test.ts:571-576 | deleting id 99 gets 107 |
| Scenarios.SetsBackupFee | tests/DocumentBackup.test.ts:578-605 | a fee of 1000 is stored and charged on the next backup |
| Scenarios.RejectsFeeChangeWithoutAuthority | tests/DocumentBackup.test.ts:607-611 | changing the fee with no authority gets 119 |
| Scenarios.CountsDocuments | tests/DocumentBackup.test.ts:613-658 | two backups give a total count of 2 |
| Scenarios.ChecksExistence | tests/DocumentBackup.test.ts:660-689 | a backed-up hash exists and a different one does not |
| Scenarios.RejectsEmptyDocName | tests/DocumentBackup.test.ts:691-715 | an empty document name gets 122 |
| Scenarios.RejectsBackupOverQuota | tests/DocumentBackup.test.ts:717-762 | with a quota of 1 the second backup gets 112 |
| Scenarios.SetsAuthority | tests/DocumentBackup.test.ts:764-775 | the first authority is stored and the burn account gets 100 |
| Scenarios.RejectsSecondAuthority | tests/DocumentBackup.test.ts:129-130 | a second authority gets 119 |
| Scenarios.UpdateDuplicatesHash | tests/DocumentBackup.test.ts:239-244 | after two backups, updating document 1 onto document 2's hash succeeds and leaves both with one hash; the corrected update reports DocAlreadyExists |
| Scenarios.AsImplementedRunDuplicatesHash | tests/DocumentBackup.test.ts:239-244 | the call sequence "set authority, two backups, update onto the second hash" from a reset registry ends, with the update as implemented, in a state with a shared hash that breaks the full invariant; with the corrected update it ends where the two backups left it |
| Scenarios.SharedHashBreaksValid | tests/DocumentBackup.test.ts:188 | two live documents with one hash violate hash uniqueness and the full invariant |

## Left out

- Registration management: the set of registered accounts is part of the `Context`
  input, because `isRegistered` only reads a set the tests assign directly.
- Block height: an input of each call. The registry never advances it.
- Token movement: the fee transfer is only an entry in the `Chain` log. There are no
  balances and no failing transfer.
- The vitest scaffolding (`describe`/`it`/`expect`) and the unused `@stacks/transactions`
  imports. The scenarios stand in for the tests.
- Registry.UpdateDocument: `docId` is a natural number. With a negative id the
  string key can name another user's document, so the real code could report
  NotAuthorized (see DocKeys.KeyStringCollidesForNegativeIds). The model instead
  sees no document. Fractional ids and ids of 10^21 or more (rendered in exponent
  form) are also not modelled.
- Registry.DeleteDocument: `docId` is a natural number, for the same reason as for update.
- Registry.GetDocument: `docId` is a natural number, for the same reason as for update.
- JavaScript numbers: sizes, access levels, fees, quotas and counters are unbounded
  integers. Fractional values, NaN and floating-point rounding are not modelled.
- String lengths are sequence lengths. UTF-16 code units are not modelled.
- The cryptographic meaning of hash, signature, proof and verifier: these are opaque
  values and are never validated.
- Invariants.StepPreservesValid: holds with the corrected update only. With the update as
  implemented the full invariant can be lost (Invariants.UpdatePreservesValid says exactly
  when). Invariants.StepPreservesCoreValid covers both updates.
- Invariants.RunPreservesValid: holds with the corrected update only. With the update as
  implemented a run can leave the full invariant (Scenarios.AsImplementedRunDuplicatesHash).
  Invariants.RunPreservesCoreValid covers both updates.
- Invariants.ReachableValid: the full invariant and unique hashes are promised only with
  the corrected update. With the update as implemented a reset registry can reach two
  live documents with one hash (Scenarios.AsImplementedRunDuplicatesHash).
- Registry.GetTotalDocCount: the link to the number of documents is stated when the
  counters agree with the store. Otherwise the result is just the stored counter.
- Registry.CheckDocExistence: a false answer is tied to the absence of live documents
  only when the index agrees with the store both ways. With the update as implemented a
  live document's hash can drop out of the index, so then a false answer promises nothing.
- Aliasing: the registry stores the caller's `Uint8Array` and array objects by reference.
  This covers `hash`, `tags`, `signature` and `proof` on backup, and `newHash` and the old
  hash on update. `getDocument` also hands out the live record. So a caller that mutates
  such an array afterwards changes the stored document while `docsByHash` keeps the old
  string key. The model stores immutable values and does not model this.

Some behaviours of the code are easy to miss. The model keeps them:

- Access levels below 0 and negative sizes are accepted; only the upper bounds are checked.
- A second `setAuthorityContract` reports AuthorityNotSet (119).
- The once-only check tests for "set at all", while every other gate tests for a
  non-empty authority. So an empty-string authority locks the registry
  (Invariants.EmptyAuthorityLocksRegistry).

## Findings

| source | as written | input that shows it | evidently intended | confidence | as-written member | corrected member |
|---|---|---|---|---|---|---|
| tests/DocumentBackup.test.ts:239-244 | `updateDocument` (modelled as Registry.UpdateDocument) removes the old hash from the index and indexes the new hash without checking whether another document already holds it | back up hash 20×32 as document 1 and hash 21×32 as document 2, then `updateDocument(1, hash 21×32, ...)`: it succeeds and both documents carry hash 21×32; deleting document 1 then unindexes that hash while document 2 keeps it | reject an already-indexed new hash with doc-already-exists (106), as backup does, so hashes stay globally unique | not executed; high that the check is missing, medium that 106 after the 113 check is the intended placement | UpdateHashFinding.UpdateOntoIndexedHashBreaksUniqueness | Registry.UpdateDocumentChecked |
