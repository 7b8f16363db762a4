# Verified model of the Chelonia client library

This project models four parts of `libcheloniajs` in Dafny and proves properties of them over all inputs, all interleavings
and all runs.

- **Journal** (`Pointer`, `Patches`, `Diff`, `Redaction`, `Journal`). A structural diff, the add/remove/replace subset of
  JSON Patch (sections 4.1 to 4.3 of RFC 6902), JSON Pointer (sections 3 and 4 of RFC 6901), redaction with globs, and a log
  of snapshots and patches that trims itself. Main results: after any run of recorded events the trimmed log rebuilds exactly
  the redaction of the live state; after a change of redactions that breaks this it heals by itself.
- **Contract log and key authority** (`KeyTable`, `KeyOps`, `KeyAuthority`, `KeyEffects`, `Signatures`, `Invites`,
  `ReingestTracker`, `ContractLog`, `EventHandler`). Events arrive duplicated, reordered and with gaps; ordering checks and the hash chain still
  give one fold. Key operations evolve a table with height windows, ring levels and permissions. Main results: two clients with the same HEAD
  hold the same state; exactly when each key operation succeeds and what it then does; a past height never leaves a key's window, and exactly when a signature goes on verifying; signers
  never touch lower rings; the permissions held by active keys never grow; invite quantities are conserved. A run is
  everything after the OP_CONTRACT of the first message; a later OP_CONTRACT, alone or in a batch, fails like any other bad
  message (src/SPMessage.ts:693-711). Hashing is an arbitrary injective function, a signature names its signer, and
  processing an action is an arbitrary deterministic function that may fail. The client is the lightweight one,
  which reads HEAD from the contract's own bookkeeping.
- **Event stream** (`EventStream`, `StreamFailures`). The incremental reader of `eventsAfter`. Main results: a well-formed response delivers its
  events exactly once and in order however it is cut into chunks, what follows the array is characterised for every text and
  every cutting, so is every kind of response that does not answer, and no run delivers more than the limit.
- **KV slots** (`KvIndex`, `SlotIndex`, `KvFilter`, `KvSet`, `KvSlot`, `KvEffects`, `KvMirrors`). Clients mirror a server register and write it with a
  compare-and-swap, retrying through a reducer. Main results: an update writes what its reducer makes of the value it
  starts from, and no update is lost under any interleaving; an etag in a mirror
  names content whose validated form is the mirror value; updates compose; the slot index settles on exactly the matching
  slots, and exactly when it stays consistent; the filter flush converges; the retry loop is bounded.

`Wrappers` holds `Option` and `Result`, `Json` the JSON values.

Code that works in place is modelled by classes and loops (`PatchList`, `ContractMeta`, `VmState`, `Tracker`, `Client`,
`EventSource`, `KvSlots`, `FilterPump`, `Call`, `SlotEntry`); each method is proved equal to a step function or to a
first-principles contract, and the theorems are about those functions and their runs. Where interleaving is the point
(`KvSlot`, `KvFilter`, `ContractLog`, `KeyAuthority`) the runs are sequences of such steps.

Six promises turned out to hold only under a condition. Each has the exact condition, for all inputs, and a failing input:

- A signature that verifies can stop verifying although its height stays in its key's window: an OP_KEY_ADD that brings a
  revoked id back replaces its purpose and data. An operation, a batch and a run keep a signature if and only if they do not
  (`PrimKeepsSignatures`, `AtomicKeepsSignatures`, `RunKeepsSignatures`; the failing run is `ReAddUnverifies`).
- An update can commit a value the reducer would not make from what the server held. An update is safe for every reducer and
  whatever happens meanwhile if and only if the mirror it starts from has an etag, or no value but the default
  (`UpdateIsSafeIff`; the failing run is `UnpairedSeedSurvives`).
- A change of redactions does not clear the journal. It stays faithful if and only if the redactions show the recorded state
  as before (`ConfigureKeepsFaithIff`), a snapshot makes it faithful again whatever came before, and after as many events as
  the interval there has been one (`JournalHeals`). Before that, reconstruction can even report corruption
  (`RedactionChangeCorrupts`).
- The registry key of a slot is not injective: a colon at the end of a contract type clashes with a colon at the start of a
  key (`RegistryKeyClash`). The index is consistent after a definition if and only if it displaces no active slot that way,
  and after a manifest cleanup if and only if the slot removed is not such a slot (`Define`, `DefineForType`,
  `CleanupContractSlot`; both failures are reached from an empty index by `DefinitionBreaksIndex` and `CleanupBreaksIndex`).
- Text after the closing bracket of a response that brings the stream up to date is an error or not depending on the chunks:
  it is overlooked if and only if it is white space, or the chunk that completes the array is the last one
  (`ResponseIsDelivered`, `TrailingDataDependsOnChunks`; the smallest case is `TrailingDataExample`).
- A response cut off in the middle is not always noticed: it fails if and only if more was to be had and the cut is inside an
  element. After a comma or the opening bracket the same request is made again, and the events delivered so far come twice
  (`ResponseCutOff`).

One does not hold at all: across responses `eventsAfter` is said by a comment to drop the boundary event, and always repeats it
(`NextPageRepeatsBoundary`).

`dafny verify dfyconfig.toml` checks everything.

## Model

| member | source | states |
|---|---|---|
| `Pointer.UnescapeEscape` | src/journal.ts:43-49 | unescaping a segment inverts escaping it, for every string |
| `Pointer.PointerRoundTrip` | src/journal.ts:51-62 | parsing the printed pointer gives back the segments, for every list of arbitrary strings |
| `Pointer.PrintParsedPointer` | src/journal.ts:51-62 | printing a parsed pointer gives it back if and only if every `~` in it starts an escape |
| `Pointer.ParsePrintIndex` | src/journal.ts:317 | an array index printed into a path reads back as the same number |
| `Patches.ApplyOkIffApplicable` | src/journal.ts:271-415 | a patch is applied without an error exactly when its target is where the operation needs it |
| `Patches.ApplyReadsBack` | src/journal.ts:271-415 | after a patch the addressed place holds the value added or replaced; in an array an insertion shifts what follows, an append adds at the end and a removal closes the gap; of an object nothing else changes |
| `Patches.DefaultApplyPatch` | src/journal.ts:263-269 | applying a list of patches stops at the first that fails, and otherwise is their composition |
| `Patches.FrameArr` | src/journal.ts:271-415 | patches under an array index act on that element and leave its siblings |
| `Patches.FrameObj` | src/journal.ts:271-415 | patches under a property act on that property and leave its siblings |
| `Diff.DiffInto` | src/journal.ts:136-227 | the patches pushed turn the before value into the after value, each is needed where it stands, and there are none exactly when the values are equal |
| `Diff.DefaultDiff` | src/journal.ts:130-134 | applying the diff of any two JSON values to the first never fails and gives the second |
| `Redaction.WalkKeepsOthers` | src/journal.ts:442-507 | what a glob path does not select is as it was |
| `Redaction.WalkRedactsSelected` | src/journal.ts:442-507 | what it selects is replaced by the redactor's value, or the sentinel if the redactor throws |
| `Redaction.RedactionsKeepOthers` | src/journal.ts:427-440 | a path disjoint from every directive survives all redactions |
| `Redaction.RedactionsRedactSelected` | src/journal.ts:427-440 | in a list of directives the last one that leads to a place decides: it holds the redactor's answer to what the earlier ones left, or the sentinel |
| `Redaction.FirstRedactionSelected` | src/journal.ts:427-440 | where no other directive touches the place, the answer is to the value of the state itself |
| `Redaction.ParseJoined` | src/journal.ts:67-70 | joining segments without a dot and parsing the path gives them back, for paths of any length |
| `Redaction.JoinParsed` | src/journal.ts:67-70 | every path is the join of what it parses to |
| `Journal.IndexOfLastSnapshot` | src/journal.ts:565-570 | finds the last snapshot, or reports that there is none |
| `Journal.AppendedWindow` | src/journal.ts:572-638 | for any positive interval X a journal that starts with a snapshot still does after an append, has fewer than X patches after its last snapshot and at most 2X entries |
| `Journal.AppendedKeepsError` | src/journal.ts:572-638 | the error of an appended entry survives the snapshot and the trim that the append may cause |
| `Journal.AppendedRebuilds` | src/journal.ts:572-638 | if the journal rebuilt a state, it rebuilds the patched state after the append, snapshot and trim included |
| `Journal.Reconstruct` | src/journal.ts:901-934 | rebuilds from the last snapshot, and names the entry at which a replay fails |
| `Journal.ContractMeta.RecordEvent` | src/journal.ts:690-876 | a duplicate is ignored, a first, backwards or gapped event seeds a snapshot, anything else appends a patch that leads from the redacted state before to the one after |
| `Journal.RecordFaithful` | src/journal.ts:690-934 | one recorded event leaves a journal that rebuilds the redacted state, except exactly for a redelivery that changed the state |
| `Journal.RecordKeepsHistory` | src/journal.ts:690-876 | by hash and height: when an event is ignored, starts the journal over, or is added to it with its error; when a snapshot follows, and when entries go |
| `Journal.RecordRenews` | src/journal.ts:572-638 | step: an event recorded with a snapshot makes the journal faithful whatever it held before; any other adds one patch, below the interval |
| `Journal.RecordedRunIsFaithful` | src/journal.ts:690-934 | after any sequence of recorded events, with any heights, errors, trims and settings, the journal rebuilds the redaction of the current state unless a change of redactions since the last snapshot showed the state of that moment otherwise; and it disagrees with the new redactions exactly when it did |
| `Journal.JournalIsFaithful` | src/internals.ts:3354-3485 | driven by the event loop, with removals, clears and changing settings, the journal rebuilds the live state after each recorded event and is never corrupt, unless it has drifted; an event recorded with a snapshot always leaves it faithful |
| `Journal.RebuiltIsRedacted` | src/journal.ts:427-440 | right after a recorded event a place that one directive leads to comes out as its redactor's answer to the live value, and a place that none touches as the live value |
| `Journal.ConfigureKeepsFaithIff` | src/chelonia.ts:623-652 | a change of redactions leaves a faithful journal faithful if and only if they show the recorded state as before |
| `Journal.JournalHeals` | src/chelonia.ts:634-651 | however redactions were changed, after as many recorded events as the interval the journal is faithful again |
| `Journal.RedactionChangeCorrupts` | src/chelonia.ts:634-651 | a seed, a change of redactions and one event after which reconstruction reports corruption |
| `Journal.JournalIsBounded` | src/journal.ts:572-638 | in the same runs the journal is within the window of its interval after each recorded event, drifted or not |
| `KeyOps.KeysToMapLoop` | src/internals.ts:138-178 | entering keys keeps the earlier start of a revoked key that comes back, and fails on one still active |
| `KeyOps.VmState.DeleteKeyHelper` | src/utils.ts:1189-1222 | ends the window of exactly the listed keys at the given height |
| `KeyOps.VmState.OpContract` | src/internals.ts:1137-1158 | the OP_CONTRACT of a first message in place is the table operation that opens the contract |
| `KeyOps.VmState.OpKeyAdd` | src/internals.ts:1652-1675 | OP_KEY_ADD in place is the table operation; a failure is never one to be stepped over |
| `KeyOps.VmState.OpKeyDel` | src/internals.ts:1676-1792 | the same for OP_KEY_DEL, with its invites revoked |
| `KeyOps.VmState.OpKeyUpdate` | src/internals.ts:1793-1904 | the same for OP_KEY_UPDATE; its one ignorable failure leaves everything as it was |
| `KeyOps.VmState.OpKeyRequest` | src/internals.ts:1459-1594 | the same for the accounting and the pending share of OP_KEY_REQUEST |
| `KeyOps.VmState.OpAtomic` | src/internals.ts:1073-1136 | OP_ATOMIC steps over ignorable failures only, checks permissions on the state reached so far, and fails as a whole if it holds an OP_CONTRACT |
| `KeyOps.VmState.ProcessMessage` | src/internals.ts:2870-3026 | a message that fails anywhere, atomic or not, leaves the table untouched |
| `KeyEffects.ContractOpens` | src/internals.ts:1137-1158 | when OP_CONTRACT succeeds; its table holds exactly its keys, open from its height |
| `KeyEffects.AddSucceedsIff` | src/internals.ts:1652-1675 | exactly when OP_KEY_ADD succeeds, by ring level, rights, sealing and what is active; it fails for good otherwise |
| `KeyEffects.AddMakesInvites` | src/utils.ts:506-523 | an addition makes exactly the invites its invite keys ask for, with their quantity and time |
| `KeyEffects.DelSucceedsIff` | src/internals.ts:1676-1718 | exactly when OP_KEY_DEL succeeds |
| `KeyEffects.DelRevokes` | src/internals.ts:1761-1766 | it revokes exactly the invites of the keys it closes |
| `KeyEffects.UpdateSucceedsIff` | src/utils.ts:352-424 | exactly when OP_KEY_UPDATE succeeds, and when its failure is one to be stepped over |
| `KeyEffects.UpdateRotates` | src/utils.ts:389-420 | under a new id stands a key with the data sent, what else was sent, and the rest from the key it replaces, open from the height at which that one is closed |
| `KeyEffects.UpdateExtends` | src/utils.ts:1226-1251 | an active key that keeps its id gains exactly what was sent |
| `KeyEffects.RequestEffect` | src/internals.ts:1459-1584 | exactly when a key request leaves a share to answer, what it holds, and what the request costs its invite |
| `KeyEffects.SeenEffect` | src/internals.ts:1596-1651 | step: an answered request is no longer pending |
| `KeyEffects.AtomicIff` | src/internals.ts:1073-1136 | a batch succeeds exactly when its operations can be taken one after the other, each permitted on the state reached and succeeding or ignorable |
| `KeyEffects.MessageActs` | src/internals.ts:1939-1975 | a message acts exactly when its signer may sign at its height and issue its operation, and the operation succeeds |
| `KeyAuthority.HistoryStaysVerifiable` | src/signedData.ts:150-158 | in every run a key inside its window at some past height stays inside it at that height for ever |
| `KeyAuthority.AddEffect` | src/internals.ts:1652-1675 | an addition opens exactly the keys it brings, none of which was open, with the earlier start kept, and leaves every other key |
| `KeyAuthority.DelEffect` | src/internals.ts:1676-1718 | step: a deletion closes exactly the active keys it names, at the message's height, and changes nothing else |
| `KeyAuthority.UpdateEffect` | src/internals.ts:1793-1816 | an update closes exactly the keys it replaces by another id; every key keeps name, data and ring level and loses no purpose, permission or action |
| `Signatures.PrimKeepsSignatures` | src/internals.ts:1652-1816 | a signature of an earlier height goes on verifying after an operation if and only if that operation does not re-add its key id with other data or without the signing purpose |
| `Signatures.AtomicKeepsSignatures` | src/internals.ts:1073-1136 | the same for a batch as a whole: the last re-addition decides, and the signing purpose an update may grant after it |
| `Signatures.RunKeepsSignatures` | src/signedData.ts:150-158 | the same between any two states of any run |
| `Signatures.ReAddUnverifies` | src/internals.ts:1652-1675 | a run of three messages after OP_CONTRACT in which the first stops verifying, though its height never leaves the window of its key |
| `KeyAuthority.SignerIsActive` | src/signedData.ts:150-158 | in a run whoever signs a new message holds an unrevoked key, though only the window is checked |
| `KeyAuthority.LowerRingsUntouched` | src/utils.ts:243-424 | with all signers at ring level r or above, active keys below r keep name, data, ring level and window and lose no purpose, permission or action, and nothing new or re-added lies below r |
| `KeyAuthority.PermissionsNeverGrow` | src/utils.ts:243-307 | the permissions held by active keys together, `*` as all, never grow from any state of a run to a later one |
| `KeyAuthority.PrimCovered` | src/utils.ts:1226-1251 | the same for one operation inside a batch, whoever signs, including the union made by an in-place update |
| `Invites.InvitesAreConserved` | src/internals.ts:1494-1584 | for every limited invite, initial minus remaining is the number of accounted requests consumed since its creation, nothing goes below zero, and a spent invite is no longer valid |
| `Invites.AdmittedWithinQuantity` | src/internals.ts:1494-1584 | the accounted shares admitted since its creation never exceed its initial quantity |
| `Invites.AdditionFacts` | src/utils.ts:506-523 | an invite key resets its invite to full, and leaves every other invite |
| `ReingestTracker.WithoutFacts` | src/reingestTracker.ts:118-129 | forgetting a hash keeps every other entry and distinctness |
| `ReingestTracker.AboveFacts` | src/reingestTracker.ts:140-152 | pruning keeps exactly the entries above the height |
| `ReingestTracker.Tracker.NoteFutureEvent` | src/reingestTracker.ts:93-110 | adds a new hash while there is room, tells a duplicate from an overflow, and leaves other contracts alone |
| `ReingestTracker.Tracker.NoteReingestSuccess` | src/reingestTracker.ts:118-129 | drops exactly that hash and says whether it was there |
| `ReingestTracker.Tracker.PruneStaleEntries` | src/reingestTracker.ts:140-152 | drops and counts what the processed height has reached |
| `ContractLog.HeadNamesLog` | src/db.ts:174-246 | two hash-linked logs with the same head hash are the same log |
| `ContractLog.ReplayIsFold` | src/internals.ts:2870-3099 | after any deliveries and wipes, head, height and state are the fold over one linked log; tracked gaps have distinct hashes, number at most 20 and lie above the processed height |
| `ContractLog.DeliveryByHeight` | src/internals.ts:3177-3250 | on heights: an event beyond the next one is tracked once while there is room, one at or below the head is dropped, and the next one is processed, appended and becomes the head |
| `ContractLog.SameHeadSameState` | src/internals.ts:3354-3420 | clients that reach the same HEAD by whatever deliveries hold the same height, state and key-op pointer |
| `ContractLog.ReplayReaches` | src/internals.ts:3177-3250 | messages of a server's log delivered in any order and number take a client exactly as far as those that come in their turn, and never past the first that stops the contract |
| `ContractLog.NoRepeats` | src/internals.ts:3193-3213 | no message is applied twice |
| `ContractLog.KeyOpChain` | src/db.ts:193-246 | walking previousKeyOp from the head visits exactly the key operations, newest first, ends at OP_CONTRACT, and no other walk exists |
| `EventHandler.Client.Expect` | src/internals.ts:2017-2025 | step: a sync makes the events of a contract expected |
| `EventHandler.Client.AddEntry` | src/db.ts:174-268 | an entry is accepted exactly when previous HEAD, previous key op and height fit the head, or it opens an empty log at height 0 |
| `EventHandler.Client.CheckMessageOrdering` | src/internals.ts:3177-3250 | which events go on, are dropped or throw, and what the tracker holds afterwards |
| `EventHandler.Client.HandleEvent` | src/internals.ts:2870-3116 | one event is ignored if its contract is not expected, and else is the log's step for it, nothing for any other; throws in exactly the stated cases; the first event that moves the head subscribes |
| `EventHandler.Client.ApplyProcessResult` | src/internals.ts:3354-3456 | an entry that cannot be appended, or a batch that cannot be read, changes nothing; any other moves the head, and the state if it was processed |
| `EventHandler.Client.RemoveImmediately` | src/internals.ts:617-703 | the wipe before a re-sync or after a release, tracker and subscription included |
| `EventStream.NeverExceedsLimit` | src/utils.ts:847-1045 | whatever the server sends, no more events are delivered than the limit |
| `EventStream.ResponseIsDelivered` | src/utils.ts:896-1026 | a response that starts with an array answering the request delivers exactly its events, in order, whatever follows the array and however it is cut; white space after it changes nothing, other text ends the stream, without an error if and only if the stream is up to date and the chunk that completes the array is the last |
| `EventStream.ChunksDoNotMatter` | src/utils.ts:896-1026 | two cuttings of one well-formed response give the same stream and the same ending |
| `EventStream.OnePageStream` | src/utils.ts:831-1045 | a stream whose first response reaches the latest height is that response's events and then closed; an empty array closes it or fails |
| `EventStream.NextPageRepeatsBoundary` | src/utils.ts:983-990 | a second response always delivers the boundary event again |
| `EventStream.TrailingDataDependsOnChunks` | src/utils.ts:896-942 | for every array that brings the stream up to date and every text after it that is not white space: together in one chunk they close the stream, in two they fail |
| `StreamFailures.RejectedElement` | src/utils.ts:948-990 | an element that does not decode, is one too many, or is a first event of another height or hash: the events before it are delivered and the stream fails, for every cutting |
| `StreamFailures.WrongStartFails` | src/utils.ts:964-981 | a response whose first event has another height than asked for, or another hash, gives nothing but the error |
| `StreamFailures.WrongStreamFails` | src/utils.ts:868-981 | so does a stream asked for from a height and hash |
| `StreamFailures.FetchAsks` | src/utils.ts:840-890 | a request asks for no more than the limit of the call, or the default one, and what is left of it |
| `StreamFailures.RefusedAfterPage` | src/utils.ts:840-864 | a page that leaves events to be had, and then a refusal: the events and then the error |
| `StreamFailures.BlankResponse` | src/utils.ts:899-927 | a response of white space ends the stream, with an error unless nothing was to be had |
| `StreamFailures.NoBracketFails` | src/utils.ts:928-934 | a response that starts with anything but a bracket fails |
| `StreamFailures.ResponseCutOff` | src/utils.ts:899-927 | an array cut off before its bracket: the complete elements are delivered; then the stream closes unnoticed if nothing more was asked for, fails in the middle of an element, and after a comma makes the same request again |
| `EventStream.EventSource.Pull` | src/utils.ts:868-1045 | one pull gives the head of the stream, or its end |
| `EventStream.EventSource.CollectAll` | src/utils.ts:1142-1151 | pulling until the end gives the whole stream |
| `KvIndex.RegistryKeyClash` | src/kv.ts:100-101 | exactly when two registrations share a registry key |
| `KvIndex.ReconcileConsistent` | src/kv.ts:1371-1473 | reconciling keeps every clause of the index check |
| `KvIndex.ReconcileRestores` | src/kv.ts:1371-1473 | reconciling repairs whatever is wrong under its key, and makes the slot active exactly if it matches |
| `KvIndex.CleanConsistent` | src/kv.ts:1922-1954 | so does dropping the runtime state of a contract |
| `KvIndex.LastDetachFlushes` | src/kv.ts:1446-1457 | deactivating the last slot drops the filter entry, and queues a flush if and only if the slot was for subscribing |
| `KvIndex.ActivateEffect` | src/kv.ts:1371-1430 | a slot that matches is active, in the filter exactly if it subscribes, and in the mirror; a flush is queued exactly if the filter is new or changes |
| `KvIndex.DeactivateEffect` | src/kv.ts:1431-1473 | one that does not is in none of them, and everything under other keys is as it was |
| `KvIndex.CleanEffect` | src/kv.ts:1922-1954 | step: a release queues a flush exactly if the contract had a filter |
| `SlotIndex.SettledIsExact` | src/kv.ts:3249-3267 | a settled contract has exactly the registered slots of its type that match |
| `SlotIndex.KvSlots.ReconcileForSlot` | src/kv.ts:1371-1473 | the in-place reconcile is the step the lemmas are about |
| `SlotIndex.KvSlots.RefreshFilters` | src/kv.ts:3249-3267 | keeps the index consistent; afterwards each contract asked for has exactly the matching slots of its type active, and others are untouched |
| `SlotIndex.KvSlots.DefineForType` | src/kv.ts:1257-1362 | registers, repoints and reconciles; the index stays consistent if and only if no active slot of another type is displaced |
| `SlotIndex.KvSlots.Define` | src/kv.ts:1165-1364 | refuses bad keys and types unchanged; otherwise every type is registered, and the index stays consistent, with every type wired, if and only if for no type an active slot of another type is displaced |
| `SlotIndex.KvSlots.ContractAdded` | src/kv.ts:1884-1905 | a newly subscribed contract gets exactly its matching slots |
| `SlotIndex.KvSlots.ContractRemoved` | src/kv.ts:1922-1954 | a released contract leaves no slot, filter or mirror entry, and others untouched |
| `SlotIndex.KvSlots.CleanupContractSlot` | src/kv.ts:3168-3209 | unregisters only the manifest's own slot; the index stays consistent if and only if that is not an active slot of another type |
| `SlotIndex.ReachClash` | src/kv.ts:1165-1364 | an index in which a slot of another type would be displaced is reached from an empty one |
| `SlotIndex.DefinitionBreaksIndex` | src/kv.ts:1257-1362 | from there a definition leaves the index inconsistent |
| `SlotIndex.CleanupBreaksIndex` | src/kv.ts:3168-3209 | and so does a manifest cleanup |
| `KvFilter.FiltersConverge` | src/kv.ts:887-962 | under every interleaving a contract with a filter entry has it handed over, or waits as dirty or for retry; waiting work always has a flush or timer coming |
| `KvFilter.TurnHandsOver` | src/kv.ts:908-936 | after its turn pubsub has exactly the filter of the contract, and none if it has none; other contracts keep theirs |
| `KvFilter.FailedTurnRetries` | src/kv.ts:938-962 | step: a failed turn leaves pubsub alone and is tried again |
| `KvFilter.QuiescentIsConverged` | src/chelonia.ts:1252-1256 | once nothing is pending, pubsub has every filter |
| `KvFilter.FlushTerminates` | src/kv.ts:897-936 | without changes and failures the machinery comes to rest within the work pending, in any order |
| `KvFilter.DriveExists` | src/kv.ts:887-962 | while anything is pending some step can be taken |
| `KvFilter.IndexChangesAreEnabled` | src/kv.ts:1403-1457 | step: the index changes filters only in the way the flush relies on |
| `KvFilter.FilterPump.DrainUntilAwait` | src/kv.ts:908-936 | the loop up to its next await hands one filter over or puts everything aside for a retry |
| `KvSet.Call.TakeRecoveryGet` | src/chelonia.ts:2832-2866 | the recovery GET happens once, and what it recovers is what is kept |
| `KvSet.Call.Run` | src/chelonia.ts:2892-2979 | at most max(1, maxAttempts) POSTs and one recovery GET; the outcome is determined by the last reply or answer; retries send what the handler answered to what was recovered; exhaustion reports the last value and etag recovered |
| `KvSet.RetryIsPosted` | src/chelonia.ts:2886-2888 | an answer of the handler to try again is always followed by the POST it asks for |
| `KvSet.HeaderGuards` | src/chelonia.ts:2902-2906 | step: a POST is guarded by the etag given, or by there being no key |
| `KvSlot.NoLostUpdates` | src/kv.ts:2479-2774 | every value committed by an update is the validated reducer output on what the server held immediately before, the default for nothing or a clear; the one exception commits only where the server held nothing |
| `KvSlot.UpdateIsSafeIff` | src/kv.ts:2479-2774 | in every reachable state an update loses nothing, for every reducer and whatever happens meanwhile, if and only if the mirror it starts from has an etag or no value but the default |
| `KvSlot.UpdatesCompose` | src/kv.ts:2479-2774 | clients that only update leave the composition of all committed reducers in commit order on what the server held at first; only the very first commit, on nothing, can be an exception |
| `KvSlot.MirrorsArePaired` | src/kv.ts:1702-1862 | in every reachable state a mirror etag names a body whose validated form is the mirror value, and the status tells whether there is one |
| `KvEffects.UpdateWrites` | src/kv.ts:2479-2774 | an update from a mirror that is up to date leaves the validated reducer output on the mirror's value in the register and in the mirror, with one commit; when there is no output nothing happens |
| `KvEffects.StaleUpdateWrites` | src/kv.ts:2574-2671 | from a mirror that is not, it is refused and then writes the output on what the server holds |
| `KvEffects.RefusedPostsAgain` | src/kv.ts:2574-2644 | a refused write with attempts left posts the reducer's output on what the server holds, with its etag |
| `KvEffects.RefusedByUnreadable` | src/kv.ts:2574-2644 | a value on the server that fails validation ends the update without a write |
| `KvEffects.RefusedAsks` | src/chelonia.ts:2832-2866 | a refusal that tells nothing of what the server holds makes the client ask, once |
| `KvEffects.RecoveryPosts` | src/chelonia.ts:2832-2866 | after a refusal that tells nothing, one GET is made and the update goes on from its answer |
| `KvEffects.LastRefusalGivesUp` | src/chelonia.ts:2933-2947 | a refusal on the last attempt changes nothing |
| `KvMirrors.LostFrees` | src/kv.ts:2645-2671 | step: a lost answer frees the lane and leaves the mirror |
| `KvEffects.UpdateReloads` | src/kv.ts:2496-2560 | step: an update from an error status starts with a silent reload |
| `KvEffects.ReloadPosts` | src/kv.ts:2520-2560 | from an error status the update reloads and starts from what it finds |
| `KvEffects.FailedReloadPosts` | src/kv.ts:2520-2560 | when the reload finds nothing valid it starts from the mirror after all |
| `KvEffects.ClearEmpties` | src/kv.ts:2965-3090 | a clear stores the clear sentinel and empties the mirror |
| `KvEffects.RefusedClearsAgain` | src/kv.ts:2965-3090 | a refused clear with attempts left clears what the server holds, by its etag |
| `KvMirrors.LoadAsks` | src/kv.ts:1515-1700 | step: a load shows that it is under way, and asks |
| `KvMirrors.GetShows` | src/kv.ts:1702-1862 | a load or an authoritative GET makes the mirror show what the server holds; a failed one leaves value and etag |
| `KvMirrors.FrameShows` | src/kv.ts:2059-2342 | an echo is passed over; a foreign frame is shown with its CID, or the server is asked, exactly when a conflict is remembered or an etag would be lost |
| `KvMirrors.CommitExpectsEcho` | src/kv.ts:2701-2763 | a committed write is remembered as an echo to come, and an aborted one leaves the mirror |
| `KvMirrors.EchoExpires` | src/kv.ts:2701-2763 | step: an expected echo is forgotten when its time is up, and no other |
| `KvSlot.UnpairedSeedSurvives` | src/kv.ts:2181-2195 | a concrete run in which the exception happens |
| `KvSlot.SlotEntry.OnFrame` | src/kv.ts:2059-2342 | the in-place frame handler is the step of the protocol |
| `KvSlot.SlotEntry.OnLoaded` | src/kv.ts:1515-1862 | the in-place load handler is the step of the protocol |
| `KvSlot.SlotEntry.OnCommitted` | src/kv.ts:2701-2763 | the in-place commit handler is the step of the protocol |

## Left out

- ParsePrintIndex: `Number` is modelled on strings of digits (and the empty string); spaces, signs, exponents and hexadecimal spellings are not.
- DefaultApplyPatch: the clone that the source edits in place is rebuilt value by value, so aliasing inside the clone is not captured; a root of `undefined` is not modelled.
- DefaultDiff: values are JSON (numbers as reals), so `NaN`, `-0` and own keys holding `undefined` are not covered; the order in which keys are visited is arbitrary.
- RecordFaithful: redactors are pure functions that may throw; a custom `diff` or `applyPatch` in the configuration is not modelled.
- Define: schema guards, defaults and the other optional fields of a definition are left out.
- UpdatesCompose: excludes clears, and writes from outside the protocol.
- HandleEvent: `strictOrdering`, `strictProcessing`, hooks and side effects are off; `dirty` is a parameter, and so is whether the value of a message can be read.
- FiltersConverge: a caller's own `chelonia/kv/setFilter` (src/chelonia.ts:3042), which hands pubsub a filter behind the index, is not among the steps; pubsub forgets a filter only for a contract without one in the index.
- RemoveImmediately: permanent deletion, which leaves a `null` row, is not modelled, and neither is the destructor.
- RequestEffect: of a pending share the request itself, its manifest and whether it was encrypted are not modelled.
- ProcessMessage: permissions for single actions, `skipActionProcessing` and outgoing messages are not modelled; operations other than those on keys are an arbitrary success or failure.
- Run (`KvSet.Call.Run`): a handler that answers with `undefined` as data, which its declared type excludes (src/types.ts:16 and 666-688) and which makes the source fetch again, is not modelled.
- NoLostUpdates: bodies written at a height ahead of the client, a caller's own `ifMatch`, slot replacement while an operation runs, and schemas whose `parse` is not idempotent are excluded; the echo time-to-live is an event that may happen at any time.
- OnePageStream: what a later response with an empty array does is not characterised.
- The operations of a client on one slot are modelled as steps between its server calls; the awaits inside one handler that do not reach the server are not separate steps.
- Secret keys, decryption, foreign-key mirroring, key shares and `respondToKeyRequest`.
- `recreateEvent`, publishing, and `chelonia/reset`.
- `revalidateMirrorEntry`, the scheduling of loads, status events and `onUpdate`; mirror entries persisted by an earlier session (the index starts empty).
- HTTP, WebSocket, timers and file streaming beyond abstract requests and answers; contract loading and sandboxing; reference counting and persistent actions.
- The allowed-actions ceiling of keys over a run: what one update may grant is checked as in the source, but no theorem bounds it.
