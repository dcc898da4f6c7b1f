# Klarkey, verified

Klarkey is a password manager. Its desktop app keeps a vault, syncs it through a server that sees
only sealed records, imports and exports it, and talks to browsers, also while it is locked. This
project models the parts of Klarkey whose correctness is hardest to see from the code and proves
what they promise, in Dafny 4.11. `dafny verify dfyconfig.toml` checks everything.

## What is modelled

**The sync protocol** (`Sync*.dfy`, `ServerMachine.dfy`, `DeviceMachine.dfy`, `SystemMachine.dfy`).
Any number of devices and accounts, one store per account. A sync is cut where it talks to the server: each page query,
bootstrap call and push batch is one step, and steps of different devices interleave freely. A step's
answer may be lost after the server acted, a sync may be aborted anywhere, the account may be switched,
and between syncs a device may edit its vault and its pending deletions arbitrarily. `SyncServer`,
`SyncClient` and `SyncProtocol` give the steps as functions. `ServerMachine.Server` and
`DeviceMachine.Device` are the stateful code, loops included, each method proved equal to its step;
`SystemMachine.Play` shows that any sequence of calls on such objects reaches the state of the run.
The store carries its history, the list of accepted writes, and a sync carries what it set out with and
met; in the classes all history is ghost. The theorems are about `Run(events)` for every list of events.

A sync has a *gap*, from the last page query of its pull to its last push. It is on *firm ground* if it began from
scratch, or from a cursor that such a sync left, and no other device's write landed in its gap
(`SyncCursor.FirmAfter`). An edit is *proper* if it leaves every record named once, none of the vault
awaiting deletion, and every passkey with a creation time (`SyncProper.ProperEdit`). Both are read off
the events.

What each step does is told without its own functions: `SyncAnswers` says what becomes of each record
of a batch by the row before it, `SyncApplied` what a pulled or refusing row leaves in the vault by the
row, `SyncListed` and `SyncQueued` what is pushed by the vault. Over whole runs, `SyncConverged` shows
what sync is for: two devices at rest hold the same vault.

**The save path around it** (`Batching`, `OrderedMap`, `Sublists`, `StateMerge*`): the greedy cut into
push batches, and the merge of a stale in-memory state with the vault file, over runs of saves that
start from any file or none.

**Codecs and bounds**: CSV import and export (`Csv`), canonical JSON with its text, hash payload and
additional data (`JsonText`, `CanonicalJson*`), the base32 accumulator (`Base32`), the CBOR writer and
COSE key (`Cbor`), the DER writer (`Der`), both unlock limiters (`UnlockAttempts`, `NativeLimiter`,
`RendererLimiter`), and the site list with the metadata index of a locked vault (`LockedIndex*`, `SiteListFacts`). Each is proved against
an independent reader, specification or bound.

Cryptography is symbolic. A digest is a constructor, so equal digests mean equal payloads; a sealed box
opens only under its own key and additional data. `CanonicalJsonFacts` shows that the texts under the
digest and the additional data lose nothing. Clock readings and random identifiers are parameters, and
a random identifier is assumed to be unused where it is drawn.

## What the code does not give

Some properties one would expect fail. Each has a lemma with the failing case or the exact condition.

- The cursor after a sync can pass over another device's write that landed between our pull and our
  push (`SyncHeard.CursorSoundExactlyWhen`; the failing runs are in `SyncOvertaken.PushStepsOver`).
- A row that a device cannot open, and does not hold, is deleted for everyone by that device's next push
  (`SyncFindings.UnreadableIsDeleted`).
- A deleted record cannot be revived: the server keeps the old deletion stamp next to the new payload,
  and no device accepts the combination (`SyncTheorems.RevivalIsUnreadable`).
- A dirty item whose last acknowledged version is not known, as none is in the first sync after an
  account switch, gets no conflict copy (`SyncFindings.UnknownBaseSurvivesExactlyWhen`,
  `FirstSyncSurvivesExactlyWhen`).
- A passkey without a creation time gets a new digest, and is pushed again, at every sync
  (`SyncFindings.DirtyAgainExactlyWhen`).
- A stale save drops a newer copy of an item if the stale copy is covered by a deletion
  (`StateMergeRepeat.CoveredCopyDropsNewer`), clearing a delete marker is undone by the next save
  (`ClearedMarkerReturns`), a save without a file does not enforce its own deletions
  (`StateMergeFacts.DeletionIsForeverExactlyWhen`), a stale save always overwrites a passkey record
  (`MergeRecordsPointwise`), and pending passkeys without an identifier double with every save
  (`PendingPasskeysDouble`).
- The CSV reader's limit lets one record more through (`Csv.CsvRoundTrip`).
- Canonical JSON does not tell an undefined array element from null and drops `__proto__` members
  (`CanonicalJsonFacts.TwoBlindSpots`).
- The native limiter's message rounds down (`NativeLimiter.WaitingAsToldIsEnoughExactlyWhen`).


## Model

| member | source | states |
|---|---|---|
| `SyncAnswers.BatchGoesThroughExactlyWhen` | convex/sync.ts:371-410 | A batch goes through if and only if it holds 1 to 100 distinct records with revisions from 1 on and digests, all from one device that is registered, the vault is set up, and no record without a row has a revision other than 1; otherwise the mutation throws. |
| `SyncAnswers.EveryRecordIsAnswered` | convex/syncPolicy.ts:11-25 | Each record of a batch that goes through, told by its row before: an equal digest is acknowledged with the row's own revision, number and digest and writes nothing; another digest is written if and only if its revision is the row's plus one, and otherwise the row comes back as a conflict; without a row it is written. |
| `SyncServerFacts.PushSettles` | convex/sync.ts:398-455 | For a batch of distinct records, each record's fate is the one `decideRecordWrite` gives it against the table before the batch: a written record's new row is the log entry under its own new number, any other row is untouched, the answer agrees, and a batch that succeeds rejects nobody. |
| `SyncServerFacts.PushKeepsLedger` | convex/sync.ts:389-462 | A batch keeps rows, sequence index, sequence number and write history in agreement, and the history only grows. |
| `SyncServerFacts.PushAccepts` | convex/sync.ts:411-419 | Every acknowledgement in the answer belongs to a record of the batch and describes the row that the server now holds for it. |
| `SyncServerFacts.PushRefuses` | convex/sync.ts:421-435 | Every conflict in the answer belongs to a record of the batch and is the row the server held and still holds. |
| `SyncServerFacts.PushLogs` | convex/sync.ts:437-450 | Every write that a batch adds to the history is the write of one of its records. |
| `SyncServerFacts.PushLeavesOthers` | convex/sync.ts:398-455 | A batch leaves every record it does not name as it was. |
| `SyncServerFacts.ScanIsPage` | convex/sync.ts:335-346 | A page holds the rows with the lowest sequence numbers from the asked one on, in ascending order, all of them or as many as the limit, each with its current content. |
| `SyncServerFacts.BootstrapFacts` | convex/sync.ts:188-234 | Bootstrapping touches no record, number or device; afterwards the wrapped key is the old one if there was one and else the offered one. |
| `SyncServerFacts.RegisterFacts` | convex/sync.ts:244-281 | Registering a device changes no row, log entry, number or key, and afterwards the device is registered if and only if it was or fewer than 50 were, and no other one changes. |
| `ServerMachine.Server.BootstrapVault` | convex/sync.ts:178-235 | The method on the stored vault does exactly the protocol's bootstrap step and answers with the stored key, or that setup is needed. |
| `ServerMachine.Server.RegisterDevice` | convex/sync.ts:244-281 | The method registers exactly when the device is known or the account has room, and otherwise changes nothing. |
| `ServerMachine.Server.PullSince` | convex/sync.ts:323-360 | The loop over the sequence index returns exactly the protocol's page. |
| `ServerMachine.Server.Validate` | convex/sync.ts:110-158 | Of the validators' checks, the loops decide exactly these: revisions start at 1, digests are present, identifiers are distinct and the device is one. |
| `ServerMachine.Server.PushBatch` | convex/sync.ts:371-470 | The loop over the batch, with its running sequence number and its two answer lists, is the protocol's push; on an exception the store is as before. |
| `SyncSteps.ActKeeps` | src/desktop/sync.ts:214-373 | Every step of a device (edit, start, page query, key bootstrap, building a push, push, finish, abort, with answers possibly lost) keeps the invariant that ties what the device remembers to the server's history. |
| `SyncTheorems.RunInv` | src/desktop/sync.ts:214-373 | The invariant holds after every sequence of events of any devices and accounts in any interleaving. |
| `SyncTheorems.RemembersHistory` | src/desktop/sync.ts:263-296 | In every reachable state a remembered version is one the server really held for that record (digest aside when it could not be read), it is never ahead of the server, and the stale branch is never taken for the server's row. |
| `SyncTheorems.NoBlindOverwrite` | src/desktop/sync.ts:316-322 | In every reachable state a queued record that would replace a row was built on exactly that row's revision, sequence number and (if read) digest; and `reject-new-revision` never happens to a device. |
| `SyncConservation.OneWinnerPerBase` | convex/syncPolicy.ts:11-25 | Two accepted writes of a record have strictly increasing revisions with none skipped, so no two devices succeed from the same base. |
| `SyncConservation.SequenceIsConserved` | convex/sync.ts:393-462 | In every reachable state the vault's sequence number equals the number of accepted writes and the sum of all revisions, each revision counts its record's writes, and the rows' sequence numbers are distinct and within 1 to the sequence number. |
| `SyncTheorems.PullIsComplete` | src/desktop/sync.ts:255-303 | Once a pull has returned, however others pushed between its pages, the device knows the current version of every record numbered between its start and the returned sequence number, until its sync ends. |
| `SyncTheorems.PullAdvances` | src/desktop/sync.ts:299-303 | A page query that ends the pull returns the server's own sequence number, and a full page always moves forward, so the error that it did not advance cannot occur. |
| `SyncTheorems.KeysAgree` | src/desktop/sync.ts:258-260 | Any two devices at work on one account work with the same vault key, and it is the one wrapped on the server. |
| `SyncTheorems.HistoryOnlyGrows` | convex/sync.ts:192-220 | Over any continuation of a run the wrapped key stays once written, and no accepted write disappears or changes. |
| `SyncTheorems.KeyIsGenerated` | src/desktop/sync.ts:367-373 | Every stored vault key was generated by one of the devices in the run. |
| `SyncTheorems.OpensExactlyWhen` | src/desktop/sync-crypto.ts:117-128 | A row of a reachable store opens under the vault key if and only if its payload is within bounds and its deletion stamp is the sealed one. |
| `SyncTheorems.RevivalIsUnreadable` | convex/sync.ts:437-448 | A write without a deletion stamp over a deleted row cannot be read by anyone, because the patch keeps the stamp; any other valid write can. |
| `SyncSurvival.NoEditIsLost` | src/desktop/sync.ts:286-295 | In every run, an item that was dirty at sync start with a known base keeps type, fields and name in place, or they are in a conflict copy under the name with the suffix, through the whole sync, refused pushes included, unless its own row could not be opened, its copy's random identifier turned up on the server, or, at the pushes, the vault named a record twice. |
| `SyncSurvival.CopiesOnlyDirty` | src/desktop/sync.ts:288-292 | In every run, a payload that a page query adds to the vault belongs to a record of the page or is the copy, under the drawn identifier, of a dirty record that a row with another digest displaced: records that were not dirty get no copy. |
| `SyncEdits.PullRowsKeep` | src/desktop/sync.ts:263-297 | Working through any page keeps every edit, name included, whose own row is readable, in place or in its copy, whatever happens to other rows. |
| `SyncApplied.PullTakesExactlyNews` | src/desktop/sync.ts:262-297 | Each pulled row is taken in if it is news and otherwise held back. News leaves the row's payload in the vault, after the copy of a displaced dirty record; what is held back leaves the vault alone; in each case exactly the stated version is remembered, conflict or failure counted, and waiting deletion dropped. |
| `SyncApplied.ApplyTakes` | src/desktop/sync-state.ts:31-62 | What a trusted record leaves, told by the record: an item in its place (or at the end) with the record's type and trimmed name, the record's value for each field it has (an empty password meaning none), what was there for the others, and everything local; a deleted item is gone and the others stay in order; settings have the record's values, else the defaults; of a passkey exactly one record with all fields, referred to by its item only. |
| `SyncApplied.RefusalTakesExactly` | src/desktop/sync.ts:337-361 | A refused edit is copied as far as it can be and the server's row taken over it; a refused deletion leaves the vault and stops waiting only if the row is a deletion; a row that cannot be opened changes no version. |
| `SyncApplied.PulledRowsAreInTheVault` | src/desktop/sync.ts:255-297 | In every run, after a page query the vault holds every row of the page that was news, whatever the rows after it did. |
| `SyncVault.CopyCarries` | src/desktop/sync-state.ts:64-67 | A conflict copy has the new identifier, its original's type and normalized fields, and its original's name with the suffix. |
| `SyncVault.OverlayIsIdempotent` | src/desktop/local-vault.ts:357-411 | Overlaying a payload on an item that carries it changes no synced field. |
| `SyncVault.ApplyLeaves` | src/desktop/sync-state.ts:31-62 | Applying a record leaves the payload of every other item alone. |
| `SyncVault.ApplySame` | src/desktop/sync-state.ts:41-49 | Applying the payload that an item already has keeps its type, fields and name. |
| `SyncVault.ApplyIds` | src/desktop/sync-state.ts:31-62 | Applying a record keeps item identifiers unique and introduces none but its own. |
| `SyncListed.PushListCarriesTheVault` | src/desktop/sync-records.ts:18-65 | A push lists each item with its whole content, each passkey that has a credential and an item identifier with every field (the stated default where one is missing), the settings, every waiting deletion, and besides only the deletions of remembered records that nobody lists. |
| `SyncListed.RoundTrip` | src/desktop/sync-records.ts:26-48 | Pulling what one device listed into another's empty vault gives the same items in order, normalized and referring to their passkeys, the same passkeys with every field, and the same settings. |
| `SyncQueued.QueueSealsWhatDiffers` | src/desktop/sync.ts:312-324 | The queue holds, in the order of the list, exactly the records whose content is not the acknowledged one, each sealed for the account under its own identifier, digest and deletion stamp with the revision after the acknowledged one, or 1. |
| `SyncQueued.AcknowledgementsAreRemembered` | src/desktop/sync.ts:332-336 | Each acknowledgement is remembered as it came, with the deletion stamp of what was pushed, and settles the deletion it was for; nothing else remembered or waiting changes. |
| `SyncTidy.PushListIds` | src/desktop/sync.ts:309-311 | A tidy device lists each record once for the push, and without a deletion stamp only records of its vault. |
| `SyncSolo.NothingRefused` | convex/syncPolicy.ts:11-25 | A queue that sits on top of the current rows is accepted whole: a push of it reports no conflict. |
| `SyncQuiet.FirmPushIsAccepted` | src/desktop/sync.ts:328-363 | In every run, a push of a properly edited device whose sync is on firm ground changes neither the vault nor the conflict count, and if the device is registered a batch of up to 100 records goes through. |
| `SyncProper.ProperRun` | src/desktop/sync.ts:214-373 | In every run, a device whose own edits name each record once and leave its passkeys creation times keeps both through all its syncs, and whatever it remembers as a deletion carries a deletion stamp. |
| `SyncQuiet.SecondSyncIsIdle` | src/desktop/sync.ts:308-325 | A quiet device's next sync without edits pulls nothing, queues nothing, leaves server, vault, remembered versions and cursor as they are, and the device quiet. |
| `SyncRuns.AgreementInEveryRun` | src/desktop/sync.ts:214-244 | In every run, a properly edited device whose sync is on firm ground and gets through its queue ends with a sound cursor, remembering every row up to it with its digest (unless that row could not be opened), and with every record and deletion it holds on the server unless replaced after its last push; if nothing was, it is quiet; without failures and with all digests known at the start, all are known. |
| `SyncRuns.AgreementWithoutDisturbance` | src/desktop/sync.ts:214-244 | The same, from a condition on the events alone: no other device's write lands between the end of one of its pulls and the last push of that sync. |
| `SyncRuns.QuietStaysQuiet` | src/desktop/sync.ts:214-244 | In every run, a quiet device's next complete sync changes neither the server nor its vault nor its cursor, and leaves it quiet. |
| `SyncConverged.DeviceAtRestHoldsTheServer` | src/desktop/sync.ts:214-244 | In every run, a device that is quiet and could open all it knows of holds only current rows of the server, and holds every row that is not deleted, if nothing was written over a deletion. |
| `SyncConverged.DevicesAtRestHoldTheSame` | src/desktop/sync.ts:214-244 | Convergence: in every run, any two such devices of one account hold the same items, passkeys and settings, however their syncs were interleaved. |
| `SyncCursor.FirmCursorIsSound` | src/desktop/sync.ts:229 | In every run the cursor is sound if its last finished sync began from scratch or from such a cursor and no foreign write landed in its gap. |
| `SyncCursor.NoForeignWriteInTheGap` | src/desktop/sync.ts:229 | In every run in which no other device's write lands between the end of one of this device's pulls and the last push of that sync, its cursor is always sound. |
| `SyncHeard.CursorSoundExactlyWhen` | src/desktop/sync.ts:229 | In every run, a sync that began from scratch or from a sound cursor leaves a sound one if and only if each current row numbered after its pull and up to its last push is its own write or was named in one of its push answers, acknowledged or as a conflict that it could open. |
| `SyncOvertaken.PushStepsOver` | src/desktop/sync.ts:229 | It fails in a run: of two devices that have both pulled, the second pushes an item, then the first pushes and finishes; the first does not remember the item, its cursor is beyond it, and no page from there has it. |
| `SyncFindings.BehindTheCursor` | convex/sync.ts:335-346 | No later incremental page contains a row behind the cursor. |
| `SyncFindings.TombstoneExactlyWhen` | src/desktop/sync-records.ts:50-65 | A remembered record gets a tombstone in the next push if and only if it is not remembered as deleted, not listed and not the settings. |
| `SyncFindings.UnreadableIsDeleted` | src/desktop/sync.ts:274-278 | In every run, a device that could not open the current row of a record, and holds neither it nor a deletion of it, queues a tombstone on that very revision which the server accepts, if and only if the row is not deleted itself. |
| `SyncFindings.UnknownBaseSurvivesExactlyWhen` | src/desktop/sync.ts:288-293 | In any vault, the payload of an item without a known base survives a readable row for it if and only if what the row leaves of the item still carries it (never, if the row is deleted) or another item does. |
| `SyncFindings.FirstSyncSurvivesExactlyWhen` | src/desktop/sync-state.ts:20-29 | That is the case of every item in the first sync after the account was switched. |
| `SyncFindings.DirtyAgainExactlyWhen` | src/desktop/sync-records.ts:26-48 | A passkey whose record reached the server is dirty again at any other time, without an edit, if and only if it has no creation time. |
| `SyncFindings.DirtyExactlyWhen` | src/desktop/sync.ts:437-445 | A record is dirty if and only if the vault lists it with a digest other than the acknowledged one. |
| `DeviceMachine.Device.ApplySitePasskey` | src/desktop/sync-state.ts:51-62 | The loop over the items relinks exactly the items' references to the credential. |
| `DeviceMachine.Device.DeleteItem` | src/desktop/delete-tombstones.ts:27-87 | The in-place deletion, with its loop over the item's passkeys, does what the specified deletion does. |
| `SyncProper.DeletionIsComplete` | src/desktop/delete-tombstones.ts:27-87 | Deleting an item removes it and its passkeys and nothing else, and leaves a deletion waiting for exactly those of their records that the device must tell about: all if signed in, otherwise those met in a sync. |
| `SyncListed.DeletionTellsExactly` | src/desktop/delete-tombstones.ts:42-87 | A deletion waits for the item's record, and for those of its passkeys with a credential identifier, if the device is signed in or met the record in a sync; it tells type and name of the item (of a passkey its identifiers, title and transports) and nothing else that was held; other deletions wait on unchanged. |
| `SyncProper.DeletionIsProper` | src/desktop/delete-tombstones.ts:27-87 | Deleting an item keeps every record named once and none of the vault awaiting deletion. |
| `DeviceMachine.Device.DirtyLocalRecords` | src/desktop/sync.ts:437-445 | The loop collects exactly the records whose digest differs from the acknowledged one. |
| `DeviceMachine.Device.PullPage` | src/desktop/sync.ts:262-297 | The loop over a page is the fold of those steps and tracks the highest sequence number. |
| `DeviceMachine.Device.Query` | src/desktop/sync.ts:255-303 | A page query against the server object is the protocol's step: return, throw, ask for the key or go on. |
| `DeviceMachine.Device.EnsureVaultKey` | src/desktop/sync.ts:367-373 | The two bootstrap calls against the server object are the protocol's steps. |
| `DeviceMachine.Device.BuildQueue` | src/desktop/sync.ts:314-325 | The loop seals exactly the records that differ from the server, each on top of its remembered revision, and refreshes the metadata of the others. |
| `DeviceMachine.Device.TakeAccepts` | src/desktop/sync.ts:332-336 | The loop over acknowledgements stores each version and drops settled deletions. |
| `DeviceMachine.Device.TakeRefusals` | src/desktop/sync.ts:337-361 | The loop over conflicts copies the local edit, then applies the server's version, or keeps the deletion pending. |
| `DeviceMachine.Device.Push` | src/desktop/sync.ts:328-363 | Pushing the next batch to the server object is the protocol's step. |
| `SystemMachine.System.Handle` | src/desktop/sync.ts:214-373 | One event is one call on the device and server objects that it concerns, new ones if need be, and moves the objects as the protocol step moves the state; no other object changes. |
| `SystemMachine.Play` | src/desktop/sync.ts:214-373 | Simulation: any sequence of calls on device and server objects, started from nothing, ends in the state of the protocol's run of those events, so every theorem about runs holds of the objects. |
| `Batching.BuildPushBatches` | src/desktop/sync.ts:413-435 | The batches concatenate to the input, each holds 1 to 100 records within 512 KiB of exact JSON text unless it is a single record, and none could have taken the first record of the next. |
| `Batching.SizeAppend` | src/desktop/sync.ts:419-431 | The running byte count is the exact size of the batch's JSON array, brackets and commas included. |
| `Batching.GreedyIsOptimal` | src/desktop/sync.ts:413-435 | No order-preserving split within the limits uses fewer batches. |
| `Batching.GreedyIsUnique` | src/desktop/sync.ts:413-435 | Those promises leave exactly one result. |
| `Batching.BatchIsHeadOfQueue` | src/desktop/sync.ts:328-329 | Each batch is a non-empty head of what is left to push and no longer than the server accepts, so the batches are pushes of the protocol. |
| `StateMerge.MergeDeletionMaps` | src/desktop/state-merge.ts:106-113 | The loop gives every identifier the later of its two deletion stamps. |
| `StateMerge.MergeItems` | src/desktop/state-merge.ts:36-54 | The loops over the insertion-ordered map give the specified merged list, order included. |
| `StateMerge.MergeRecords` | src/desktop/state-merge.ts:56-82 | The same for passkey records, with generated keys for records without an identifier. |
| `StateMerge.LocalVault.SaveState` | src/desktop/local-vault.ts:254-260 | A save without file contents writes exactly the given state, any other the merge of the state with the contents. |
| `StateMergeFacts.MissingItems` | src/desktop/state-merge.ts:37 | Where the file has no list of items, a save writes exactly the state's items that neither deletion map covers, in their order. |
| `StateMergeFacts.MissingSitePasskeys` | src/desktop/state-merge.ts:84-89 | The same for the passkeys: one without an identifier always stays, and a record's stamp is that of its last change, else of its last use, else of its creation. |
| `StateMergeFacts.MissingPendingPasskeys` | src/desktop/state-merge.ts:30 | Where the file has no pending passkeys, the state's are written as they are. |
| `StateMergeFacts.MergeItemsPointwise` | src/desktop/state-merge.ts:36-54 | For each identifier the merged list holds the newest competing copy (the later on a tie) and nothing else, none covered by a deletion, identifiers unique. |
| `StateMergeFacts.StaleSaveKeepsExactlyWhen` | src/desktop/state-merge.ts:43-52 | A stale save keeps the copy saved meanwhile if and only if its own copy is absent, the same, or older and not covered by a deletion. |
| `StateMergeFacts.NewerCopySurvives` | src/desktop/state-merge.ts:36-54 | Over any run of saves from any file or none, of every copy that the file or a saved state held the end has one at least as new, itself held by one of them, unless a deletion in the end covers it or covers a copy that some saved state still held. |
| `StateMergeFacts.DeletionIsForeverExactlyWhen` | src/desktop/state-merge.ts:124-127 | Once the file or any saved state marks an item deleted, a run of saves from any file or none ends with a copy stamped at or before the deletion if and only if it is a single save without a file of a state that holds one. |
| `StateMergeFacts.DeleteIsForever` | src/desktop/delete-tombstones.ts:27-40 | Deleting an item and saving, with or without a file, keeps it deleted through every later save, whoever saves whatever state. |
| `StateMergeRepeat.MergeRecordsPointwise` | src/desktop/state-merge.ts:56-82 | A named passkey record is in the merged list if and only if it is the last local copy and not covered, whatever its stamp, or there is no local copy and it is the file's last uncovered one. |
| `StateMergeRepeat.PasskeyDeletionIsForeverExactlyWhen` | src/desktop/state-merge.ts:84-89 | The same for deleted credentials. |
| `StateMergeRepeat.DeletedItemsPasskeysStayGone` | src/desktop/delete-tombstones.ts:31-37 | Deleting an item deletes its passkeys through every later save; an old copy of the credential is left if and only if another item had it and the one save had no file. |
| `StateMergeRepeat.DeleteItemTakesOnlyTheItem` | src/desktop/delete-tombstones.ts:27-40 | Deleting an item takes it and its passkeys out and leaves every other item and passkey in order; exactly the item and its credentials are marked deleted, now. |
| `StateMergeRepeat.RemergeIsFixedExactlyWhen` | src/desktop/state-merge.ts:43-47 | Merging the result with the same file again changes nothing if and only if no covered local copy faces an uncovered copy in the file (one local copy for each identifier). |
| `StateMergeRepeat.RemergeIsFixed` | src/desktop/state-merge.ts:36-54 | Without such a clash merging again changes nothing, repeated local identifiers included. |
| `StateMergeRepeat.SavingTwiceIsStable` | src/desktop/local-vault.ts:254-256 | Saving what was just saved changes no item. |
| `StateMergeRepeat.CoveredCopyDropsNewer` | src/desktop/state-merge.ts:44-47 | An input where a stale covered copy drops a newer copy of the file. |
| `StateMergeRepeat.ClearedMarkerReturns` | src/desktop/delete-tombstones.ts:22-25 | Clearing a delete marker has no effect once the marker is in the file: the save joins it back. |
| `StateMergeRepeat.AnonymousRecordsAddUp` | src/desktop/state-merge.ts:60-72 | Records without an identifier are never recognised: the merge keeps all of both sides. |
| `StateMergeRepeat.PendingPasskeysDouble` | src/desktop/state-merge.ts:30 | So loading and saving doubles the pending passkeys without an identifier every time. |
| `Csv.ParseCsvRecords` | src/desktop/import-utils.ts:87-133 | The character loop returns what the recursive reader returns. |
| `Csv.CsvRoundTrip` | src/desktop/import-utils.ts:87-133 | Rows written quoted or plain, with any of the three line ends, read back as exactly the rows with a non-blank cell, up to one more than the limit. |
| `Csv.ReadingIsStable` | src/desktop/import-utils.ts:87-133 | Whatever text was read, writing the records and reading them again changes nothing. |
| `Csv.ContentIsNotBlank` | src/desktop/import-utils.ts:101-103 | A record is kept if and only if some cell has a character that is not white space. |
| `Csv.ImportOfExport` | src/desktop/export-vault.ts:18-32 | Importing an export gives back every item with something to show, field by field under the header's names. |
| `CanonicalJsonFacts.CanonicalTextIsFaithful` | src/shared/canonical-json.ts:3-29 | Two values have the same canonical text if and only if they are the same up to the order of members, members that are undefined or called `__proto__`, and undefined for null; only the value undefined has no text. |
| `CanonicalJsonFacts.TwoBlindSpots` | src/shared/canonical-json.ts:13-26 | The two places where different values share a text. |
| `CanonicalJsonFacts.HashedTextIsFaithful` | src/desktop/sync-crypto.ts:62-74 | Two records share their hashed text if and only if each member that counts, `updatedAt` aside, has an equal counterpart in the other. |
| `CanonicalJsonFacts.AadIsFaithful` | src/desktop/sync-crypto.ts:58-60 | The additional data are equal if and only if identity, record, revision and schema version are. |
| `CanonicalJson.MembersInPrintOrder` | src/shared/canonical-json.ts:19-20 | An object's members are printed with the array indices first, by value, then the other keys by code units, whatever the order they were created in. |
| `CanonicalJson.OneIncreasingOrder` | src/shared/canonical-json.ts:19-20 | The sorted order of members depends only on which members there are. |
| `JsonText.TextInjective` | src/shared/canonical-json.ts:29 | No JSON text is shared by two values, nor the beginning of another up to a delimiter. |
| `JsonText.QuotedRoundTrip` | src/shared/canonical-json.ts:29 | A quoted string reads back as itself, escapes, surrogate pairs and lone surrogates included. |
| `Base32.DecodeBase32Secret` | desktop/src/native_host_totp.rs:126-154 | Despite bits falling off the 32-bit buffer, the output is the first floor(5n/8) bytes of the n quintets; the secret is refused if and only if a character is invalid or there are fewer than eight bits. |
| `Base32.DecodeOfEncode` | desktop/src/native_host_totp.rs:126-154 | What the decoder promises about an encoded secret (section 6 of RFC 4648) is met by that secret alone. |
| `Base32.DigitExactlyWhen` | desktop/src/native_host_totp.rs:130-135 | A character stands for a digit if and only if it is that letter of table 3 of RFC 4648, small or capital; the encoder writes the capital. |
| `Base32.SpellingDoesNotMatter` | desktop/src/native_host_totp.rs:130-137 | A space, tab, line end, `-` or `=` anywhere in a secret changes nothing, and neither does writing a letter small. |
| `Base32.ShiftIn` | desktop/src/native_host_totp.rs:140-141 | Shifting in a quintet loses none of the bits still needed. |
| `Cbor.HeadRoundTrip` | mobile/plugins/android-provider-sources/passkey-source.js:501-521 | Every written head reads back as its major type and argument (section 3 of RFC 8949). |
| `Cbor.HeadIsShortest` | mobile/plugins/android-provider-sources/passkey-source.js:501-521 | No other head for the same type and argument is shorter, nor different at the same length (section 4.2.1 of RFC 8949). |
| `Cbor.HeadsArePrefixFree` | mobile/plugins/android-provider-sources/passkey-source.js:501-521 | No head is the beginning of another. |
| `Cbor.ItemRoundTrip` | mobile/plugins/android-provider-sources/passkey-source.js:469-521 | Every written item, nested maps included, reads back as itself and the reader stops where the writer did. |
| `Cbor.Writer.Type` | mobile/plugins/android-provider-sources/passkey-source.js:501-521 | The byte-by-byte writer appends exactly the head. |
| `Cbor.Writer.PutInt` | mobile/plugins/android-provider-sources/passkey-source.js:477-484 | Every 32-bit integer appends its written form. |
| `Cbor.Writer.PutText` | mobile/plugins/android-provider-sources/passkey-source.js:486-491 | A text, given as its UTF-8 bytes, appends its head and those bytes. |
| `Cbor.Writer.PutBytes` | mobile/plugins/android-provider-sources/passkey-source.js:493-497 | A byte string appends its head and its bytes. |
| `Cbor.CoordinateValue` | mobile/plugins/android-provider-sources/passkey-source.js:349-356 | A coordinate is always 32 bytes, and keeps its value if and only if it is below 2^256. |
| `Cbor.CosePublicKey` | mobile/plugins/android-provider-sources/passkey-source.js:338-347 | The chain of writer calls produces the written form of the five-entry key. |
| `Cbor.CoseKeyBytes` | mobile/plugins/android-provider-sources/passkey-source.js:338-347 | The key's bytes, literally: key type 2 under label 1, algorithm -7 under 3, curve 1 under -1, and the two coordinates under -2 and -3. |
| `Cbor.CoseKeyReadsBack` | mobile/plugins/android-provider-sources/passkey-source.js:338-347 | A reader recovers the EC2 key with both coordinates (section 7.1.1 of RFC 9053). |
| `Der.WriteDerLen` | desktop/src/native_host_webauthn_crypto.rs:397-409 | The writer appends the length, short or long form, without leading zeros. |
| `Der.LenRoundTrip` | desktop/src/native_host_webauthn_crypto.rs:397-409 | Every 64-bit length reads back (section 8.1.3 of X.690). |
| `Der.LenIsMinimal` | desktop/src/native_host_webauthn_crypto.rs:397-409 | No other encoding of a length is shorter, nor different at the same length (section 10.1 of X.690). |
| `Der.TaggedRoundTrip` | desktop/src/native_host_webauthn_crypto.rs:390-395 | Every tagged element reads back with what follows it. |
| `Der.BuildSpki` | desktop/src/native_host_webauthn_crypto.rs:359-373 | The nested writers produce the specified key info. |
| `Der.SpkiBytes` | desktop/src/native_host_webauthn_crypto.rs:359-373 | For an uncompressed point the key info is, literally, the 26 bytes that name P-256 (section 2.1.1 of RFC 5480) and the point. |
| `Der.SpkiRoundTrip` | desktop/src/native_host_webauthn_crypto.rs:359-388 | A reader recovers both object identifiers and the point from the key info, for any point bytes. |
| `NativeLimiter.UnlockRateLimit.UnlockWithSecret` | desktop/src/system_commands.rs:169-184 | The shared record's updates are the specified transition, and a secret is looked at exactly when the limiter does not block. |
| `NativeLimiter.UnlockRateLimit.Message` | desktop/src/system_commands.rs:295-310 | The message appears exactly while locked, and an expired lock is cleared with its count. |
| `NativeLimiter.AttemptsAreBounded` | desktop/src/system_commands.rs:312-328 | In any run, a stretch of length L without a right secret gets at most 8 (floor(L / 30 s) + 1) secrets verified. |
| `NativeLimiter.RightSecretRestoresAll` | desktop/src/system_commands.rs:175-184 | After any run, a right secret restores all eight attempts: the next eight wrong secrets are verified whenever they come, and after the eighth none for thirty seconds. |
| `NativeLimiter.BoundIsReached` | desktop/src/system_commands.rs:312-328 | For every number of lockouts a run reaches that bound. |
| `NativeLimiter.WaitingAsToldIsEnoughExactlyWhen` | desktop/src/system_commands.rs:305-309 | Waiting the announced seconds is enough if and only if less than a second or a whole number of seconds is left. |
| `RendererLimiter.UnlockRateLimit.Unlock` | src/desktop/unlock-rate-limit.ts:8-25 | The module variables' updates are the specified transition. |
| `RendererLimiter.AttemptsAreBounded` | src/desktop/unlock-rate-limit.ts:8-25 | In any run, a stretch of length L without a right secret gets at most 8 + floor(L / 30 s) secrets verified, because the count is not reset when a lockout ends. |
| `RendererLimiter.RightSecretRestoresAll` | src/desktop/unlock-rate-limit.ts:15-25 | The same for the renderer. |
| `RendererLimiter.BoundIsReached` | src/desktop/unlock-rate-limit.ts:15-20 | For every number of lockouts a run reaches that bound. |
| `RendererLimiter.WaitingAsToldIsEnough` | src/desktop/unlock-rate-limit.ts:8-13 | Waiting the announced seconds is always enough, and one second less never is. |
| `LockedIndex.MakeLoginIndexEntry` | desktop/src/secure_state.rs:280-325 | The entry filled key by key is the specified one, and there is one exactly for logins with a usable identifier. |
| `LockedIndexFacts.EntryShowsItemExactlyWhen` | desktop/src/native_host_items.rs:373-387 | An index entry shows a login as the vault would if and only if its listed strings are trimmed and within bounds and its flags agree. |
| `LockedIndexFacts.LockedListIsTheLoginList` | desktop/src/native_host_items.rs:8-23 | For every URL and every host scoring, the locked vault lists exactly what the unlocked one lists of its logins, in the same order, up to 1500 logins. |
| `LockedIndexFacts.IndexIsAPrefix` | desktop/src/secure_state.rs:266-278 | Beyond 1500 logins the index is a prefix, and complete if and only if there are no more. |
| `LockedIndexFacts.IndexKeepsNoSecret` | desktop/src/secure_state.rs:280-325 | Items that differ only in passwords, one-time codes, passkeys and unlisted fields have the same index entry. |
| `SiteListFacts.ListShowsWhatFits` | desktop/src/native_host_items.rs:8-23 | An item is listed if and only if it has an identifier and a website of it fits the URL, once, with its own name (or Untitled), user name, websites, provider and last use and with flags told by its own fields; the list is ordered by the best fit of each item's websites, then by lower-case name, and keeps items that rank alike in vault order. |
| `SiteListFacts.SortIsStable` | desktop/src/native_host_items.rs:21 | Sorting is a permutation ordered by score and name that keeps ties in order. |
| `SiteListFacts.IndexedExactlyWhen` | desktop/src/secure_state.rs:280-290 | An item has an index entry if and only if its type, if any, is that of logins and its trimmed identifier is not empty and of at most 256 bytes. |
| `SiteListFacts.EntryKeepsTexts` | desktop/src/secure_state.rs:292-305 | An entry has no keys but the ten listed ones, and under each text key exactly the item's text, trimmed, if it is not empty and within its bound. |
| `SiteListFacts.EntryKeepsSites` | desktop/src/secure_state.rs:307-310 | Its websites are the first 32 of the item's that are not empty when trimmed and of at most 4096 bytes, in order. |
| `SiteListFacts.EntryKeepsFlags` | desktop/src/secure_state.rs:312-322 | Its flags tell whether the item has a password within bounds, a one-time code and a passkey. |

## Left out

- SyncRuns.AgreementInEveryRun: asks that the device's own edits are proper. A vault that names a record twice can make the server refuse the batch; passkeys without creation times have a finding above.
- ServerMachine.Server.Validate: leaves out the checks on text lengths, base64 sizes, the record identifier's prefix, the schema version and the range of the deletion stamp.
- Cbor.Writer.PutText: takes the UTF-8 bytes of the text; encoding a string as UTF-8 is not modelled.
- SyncConverged.DevicesAtRestHoldTheSame: asks that both devices could open all they know of and that no row was written over a deletion; what becomes of such rows has findings above. Properties that never leave a device are not compared.
- SyncListed.RoundTrip: the pulled rows are those of the listed vault only, in their order; further rows are the business of the theorems about runs.
- SyncSurvival.NoEditIsLost: "in place" means the payload that a later sync would push, so a field that was dropped remotely may stay; and a copy that is refused in turn carries the suffix twice.
- StateMergeFacts.NewerCopySurvives: speaks of stamps on one clock; strings that are no timestamps and numbers as stamps are not modelled.
- StateMerge.MergeRecords: generated keys are a datatype, so an identifier that looks like `native:0` does not collide with one; identifiers that name members of `Object.prototype` are not modelled either.
- NativeLimiter.AttemptsAreBounded: attempts come one at a time and the clock does not go back.
- RendererLimiter.AttemptsAreBounded: attempts come one at a time and the clock does not go back.
- CanonicalJsonFacts.CanonicalTextIsFaithful: numbers are integers; fractions, infinities and not-a-number are not modelled.
- SiteListFacts.ListShowsWhatFits: how well a website fits a URL is a parameter; host normalization and the public suffix list are not modelled.
- LockedIndexFacts.LockedListIsTheLoginList: compares with the logins of the vault; the unlocked list also shows other items that have websites.
- Record identifiers are a datatype instead of strings with a prefix; the server's check of the prefix, the bounds on identifiers and base64 sizes, and the schema version are not modelled.
- A vault edit during a sync: in the protocol the vault changes only between syncs, and saving is the identity; the merge on save is studied on its own.
- Conflict copies whose random identifier is already taken when it is drawn; that one turns up on the server later is covered.
- Item fields are a map from names to texts; one-time-password URIs, the last four digits of a card and list-valued fields are not parsed.
- The files and stamps that the native host writes to the vault on its own between saves.
- Device names, last-seen times, registration throttling, entitlements and session refresh do not affect the protocol.
- Network, OAuth, AES-GCM, HKDF, ECDSA and SHA-256 themselves.
- The lock-state machine, the user interface, the browser extension, mobile screens, and vendor import mappings.
- The item and record bounds that a device checks after opening a record are reduced to lengths, blankness and the null character.
