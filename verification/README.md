# Verification of the state, header, gas and wire layers

This project models the parts of Veda that keep state and move it back and
forth, and proves what they are relied on for. It is written in Dafny 4.11 and
is checked with `dafny verify dfyconfig.toml`.

Code that changes objects in place is modelled by classes with the same fields
and loops, each method proved against a function on values; the properties are
proved about those functions. Code made of expressions is modelled by functions.

## What is modelled

**Journals** (`snapshots.dfy`, `journal.dfy`, `slow_journal.dfy`,
`journal_runs.dfy`, `journal_db.dfy`). `Snapshots` is the plain meaning: a level
of changes over the wrapped map, and one remembered level for each checkpoint.
The rollback journal and the older changeset-merging journal are both shown to
refine it step by step, clears and lazily committed checkpoints included. From
this follows that every run behaves as a stack of whole maps, that the two
journals agree, and that a discard restores exactly. `JournalDB` is a reader and
writer over a wrapped map; persisting keeps its view under an exact condition.

**Account storage and accounts** (`storage.dfy`, `account.dfy`,
`account_db.dfy`, `account_reads.dfy`, `account_class.dfy`). A store is two journals over a cache
over a trie, with a count of wipes that selects the trie to go back to. A trie
is its contents and a root hash is the contents it commits to. `AccountDB`
drives the code, account and access journals, the account cache and all dirty
stores; some stores join after a checkpoint was taken. The main result is that
within a transaction a discard gives back everything a caller can see; what each
write changes of that is stated for all reads at once.

**Headers** (`chain_gaps.dfy`, `headers.dfy`, `header_safety.dfy`,
`header_runs.dfy`, `header_records.dfy`, `header_checkpoint.dfy`,
`header_class.dfy`). One invariant
covers both cases: no checkpoint, and one checkpoint persisted above every known
header. Canonical are the numbers below the gap and those from the checkpoint to
the head. It assumes what the chain is configured for: zero difficulty, children
numbered one above their parents, one genesis, no two headers with one hash.

**Virtual machine** (`code_stream.dfy`, `gas_meter.dfy`, `memory.dfy`,
`net_sstore.dfy`, `call_tree.dfy`, `logs.dfy`). Instruction starts are defined by
the forward scan of section 9.4.3 of the Ethereum Yellow Paper. Gas is followed
through any tree of computations; the opcode table is a parameter, so a
computation is any sequence of charges, calls and creates with any ending. Log
entries and refunds are collected over the same kind of tree.

**Wire protocol** (`diff.dfy`, `wire.dfy`, `wire_server.dfy`). The stream is
bytes that arrive in chunks of any size. Encoding and parsing undo each other
both ways, and the server, fed with the encoding of any requests, carries out
exactly these: whatever was sent before, a key reads back as it was left.

**BLAKE2b** (`bits.dfy`, `blake2.dfy`, `blake2_constants.dfy`). Python integers are natural numbers with
bitwise operations defined on their binary digits. The masked in-place code is
shown to be the function F of section 3.2 of RFC 7693, for any round count.

## Where the code says more or less than its documentation

- Discarding an unknown checkpoint raises, but only after the checkpoint stack
  was emptied (veda/db/journal.py:165-173).
- A discard over more than one wipe of a store raises. The model proves the
  exact condition for every store and for all dirty stores together
  (veda/db/storage.py:390-408).
- Persisting with a clear pending leaves the keys of the wrapped map that the
  changes do not mention; the documentation leaves this to the caller
  (veda/db/journal.py:395-409). The exact condition is proved.
- The reply to a delete is documented as success only; a key that is not there is
  answered with the failure byte (veda/db/manager.py:77-81, 200-208).
- An operation byte that is not known raises ValueError, while the handler around
  it expects TypeError (veda/db/manager.py:157-161). Either way no more requests
  are served, which is what the model says.
- While a gap is filled, `_handle_gap_change` hands on the gaps from before the
  header was made canonical (veda/db/header.py:470-478). The model does the same;
  under the invariant nothing is reopened in between.

## Model

| member | source | states |
|---|---|---|
| Journaling.Journal.RecordCheckpoint | veda/db/journal.py:143-163 | an id that already has a changeset is refused and nothing changes; otherwise the present state becomes a snapshot under the new id |
| Journaling.Journal.Clear | veda/db/journal.py:205-215 | every key is gone, the snapshots stay; the whole map of current values becomes one rollback entry |
| Journaling.Journal.SetItem | veda/db/journal.py:288-294 | only the key changes; every snapshot keeps what it held |
| Journaling.Journal.DeleteWrappedKey | veda/db/journal.py:305-309 | the same for deleting a key of the wrapped map |
| Journaling.Journal.DeleteLocal | veda/db/journal.py:311-315 | the same for deleting a key that is only in the journal |
| Journaling.Journal.Restore | veda/db/journal.py:179-191 | one rollback changeset is put back over the current values, key by key |
| Journaling.Journal.PopStack | veda/db/journal.py:166-173 | the stack is cut before the named checkpoint, or emptied when it is not there |
| Journaling.Journal.PopData | veda/db/journal.py:177-203 | rollback changesets are undone from the last one through the named one, and the clear flag agrees with the clears that are left |
| Journaling.Journal.Discard | veda/db/journal.py:165-203 | discarding gives back the snapshot of the checkpoint and all older ones; an unknown checkpoint is an error that has emptied the stack |
| Journaling.Journal.HasClear | veda/db/journal.py:217-223 | whether a clear happened at or after the checkpoint |
| Journaling.Journal.CommitCheckpoint | veda/db/journal.py:225-253 | succeeds exactly for a checkpoint above the root; the state stays and the snapshots from it on are forgotten |
| Journaling.Journal.PopAll | veda/db/journal.py:255-263 | hands over all current values and starts afresh with one root checkpoint |
| Journaling.Journal.Flatten | veda/db/journal.py:265-270 | all checkpoints but the root are committed |
| Journaling.Journal.GetItem | veda/db/journal.py:275-286 | the current value, or the default that the clear flag decides |
| Journaling.RecordRefines | veda/db/journal.py:143-163 | recording is pushing a snapshot |
| Journaling.ClearRefines | veda/db/journal.py:205-215 | clearing is emptying the top level and cutting it off from the wrapped map |
| Journaling.WriteRefines | veda/db/journal.py:288-315 | writing, with its one remembered rollback value per changeset, is writing in the top level |
| Journaling.DiscardRefines | veda/db/journal.py:165-203 | unwinding the rollback changesets, lazily committed ones and clears among them, is going back to the snapshot |
| Journaling.CommitRefines | veda/db/journal.py:225-253 | shortening the checkpoint stack is forgetting snapshots |
| Journaling.FlattenRefines | veda/db/journal.py:265-270 | flattening is forgetting every snapshot but the first |
| Journaling.UnwindMeaning | veda/db/journal.py:177-203 | for every checkpoint, undoing down to it gives the snapshot it stands for |
| JournalRuns.FastIsSnapshots | veda/db/journal.py:143-315 | after every run the journal is a stack of whole maps: the present one and one per checkpoint |
| JournalRuns.LookupsAreSnapshots | veda/db/journal.py:359-377 | every lookup in every run is the lookup in that stack |
| JournalRuns.DiscardRestores | veda/db/journal.py:165-203 | discard(c) gives back exactly the maps at record(c), whatever was set, deleted, cleared, recorded, committed or discarded since |
| JournalRuns.DistinctNames | veda/db/journal.py:143-163 | the checkpoints of a run have distinct ids |
| JournalRuns.SlowIsSnapshots | veda/db/slow_journal.py:109-258 | after every run the changeset-merging journal is the same stack of whole maps |
| JournalRuns.SameMeaning | veda/db/slow_journal.py:128-215 | both journals, driven by one run, stand for the same stack |
| JournalRuns.FastIsSlow | veda/db/slow_journal.py:227-241 | both answer every lookup alike and would persist the same sets and deletes |
| JournalRuns.RootChanges | veda/db/slow_journal.py:128-166 | what popping the root changeset of the slow journal gives is its top level |
| JournalDatabase.JournalDB.GetItem | veda/db/journal.py:359-377 | a reader sees the journal over the wrapped map |
| JournalDatabase.JournalDB.Exists | veda/db/journal.py:386-393 | a key exists exactly when a reader sees it |
| JournalDatabase.JournalDB.SetItem | veda/db/journal.py:379-384 | only that key changes for a reader, and no checkpoint forgets anything |
| JournalDatabase.JournalDB.DelItem | veda/db/journal.py:414-423 | the key is gone for a reader; it fails exactly for a key that neither the wrapped map nor the reader has |
| JournalDatabase.JournalDB.Clear | veda/db/journal.py:395-409 | a reader sees nothing at all |
| JournalDatabase.JournalDB.HasClear | veda/db/journal.py:411-412 | whether a clear is pending |
| JournalDatabase.JournalDB.Record | veda/db/journal.py:352-357 | an id already known is refused and nothing changes; otherwise the present state is remembered after the pending ones under the id that is returned |
| JournalDatabase.JournalDB.Commit | veda/db/journal.py:352-357 | succeeds exactly for a pending checkpoint above the root; it and the later ones are forgotten, and a reader sees no difference |
| JournalDatabase.JournalDB.Discard | veda/db/journal.py:431-435 | a reader sees what was seen when the checkpoint was recorded, and the older checkpoints stay |
| JournalDatabase.JournalDB.Persist | veda/db/journal.py:446-463 | every pending change reaches the wrapped map once, and the view is kept exactly under the condition below |
| JournalDatabase.PersistKeepsViewIff | veda/db/journal.py:395-409 | persisting keeps the view if and only if no clear is pending or the changes cover every key of the wrapped map |
| SlowJournaling.Journal.RecordChangeset | veda/db/slow_journal.py:109-126 | an id already known is refused, else an empty changeset is opened |
| SlowJournaling.Journal.PopChangeset | veda/db/slow_journal.py:128-166 | the changes from a changeset on, merged, later ones first, those before the last clear dropped |
| SlowJournaling.Journal.Clear | veda/db/slow_journal.py:168-178 | an empty marked changeset and a new one cut off everything below |
| SlowJournaling.Journal.HasClear | veda/db/slow_journal.py:180-188 | whether a clear marker lies at or above the changeset |
| SlowJournaling.Journal.CommitChangeset | veda/db/slow_journal.py:190-215 | the changes from a changeset on are merged into the one below, keeping a clear marker when there is one |
| SlowJournaling.Journal.GetItem | veda/db/slow_journal.py:227-241 | the topmost change of the key, stopping at a clear marker |
| SlowJournaling.PopMeaning | veda/db/slow_journal.py:128-166 | the merged changes of the popped changesets, over the level below, are the level they stood for |
| SlowJournaling.CommitRefines | veda/db/slow_journal.py:190-215 | merging changesets down is forgetting their snapshots |
| SlowJournaling.DiscardRefines | veda/db/slow_journal.py:403-408 | popping changesets away is going back to the snapshot |
| SlowJournaling.ClearRefines | veda/db/slow_journal.py:168-178 | the clear markers are the clear of the snapshots |
| Storage.AccountStorageDB.Get | veda/db/storage.py:315-329 | the current value, or the value at the start of the transaction, through both journals, the cache and the trie |
| Storage.AccountStorageDB.Set | veda/db/storage.py:331-344 | the slot is written in the journal of this transaction |
| Storage.AccountStorageDB.Delete | veda/db/storage.py:346-370 | the storage is wiped: a blank trie takes over, the old one is kept for a revert, and the clear count rises |
| Storage.AccountStorageDB.Record | veda/db/storage.py:372-374 | both journals record the checkpoint |
| Storage.AccountStorageDB.Discard | veda/db/storage.py:376-408 | both journals go back, or start afresh when the checkpoint is older than the store, and the trie rolls back over at most one wipe |
| Storage.AccountStorageDB.Commit | veda/db/storage.py:410-418 | both journals commit, or flatten when the checkpoint is older than the store |
| Storage.AccountStorageDB.LockChanges | veda/db/storage.py:420-423 | the changes of the transaction move into the locked journal, after a clear of it when one is pending |
| Storage.AccountStorageDB.MakeStorageRoot | veda/db/storage.py:425-427 | then the locked changes move into the trie |
| Storage.SetCurrent | veda/db/storage.py:331-344 | after a set the slot reads back the value and no other slot changes |
| Storage.WipeCurrent | veda/db/storage.py:346-370 | after a wipe every slot is empty |
| Storage.OriginalStays | veda/db/storage.py:315-329 | a set leaves the value from the start of the transaction alone; after a wipe it comes from the locked changes over a blank trie |
| Storage.SetKeeps | veda/db/storage.py:331-344 | a set keeps the store sound and what every checkpoint remembers |
| Storage.WipeKeeps | veda/db/storage.py:346-370 | so does a wipe, although it replaces the trie |
| Storage.RecordKeeps | veda/db/storage.py:372-374 | recording remembers the present level and trie |
| Storage.DiscardToCheckpoint | veda/db/storage.py:376-408 | a discard succeeds if and only if at most one wipe happened since the checkpoint, and then level and trie are those at the checkpoint |
| Storage.DiscardToStart | veda/db/storage.py:384-388 | the same for a checkpoint older than the store, back to where the store was opened |
| Storage.DiscardRestoresSlots | veda/db/storage.py:376-408 | every slot has the value it had at the checkpoint, and so has its original value |
| Storage.CommitKeeps | veda/db/storage.py:410-418 | a commit changes no slot and nothing that older checkpoints remember |
| Storage.LockKeepsSlots | veda/db/storage.py:420-423 | no slot changes with lock_changes, a wipe pending or not, and the original values become the current ones |
| Storage.LockSound | veda/db/storage.py:420-423 | and the store is ready for the next transaction |
| Storage.MakeRootKeepsSlots | veda/db/storage.py:425-427 | no slot changes with make_storage_root either, and then the trie alone holds them all |
| AccountDatabase.AccountDB.GetAccount | veda/db/account.py:400-412 | the account of the journaled trie; the account cache, on a hit, holds the same |
| AccountDatabase.AccountDB.SetAccount | veda/db/account.py:414-417 | journaled trie and cache change together |
| AccountDatabase.AccountDB.GetStorage | veda/db/account.py:172-179 | the slot of the store, loaded on first use |
| AccountDatabase.AccountDB.SetStorage | veda/db/account.py:181-188 | the store is tracked as dirty and the slot is set |
| AccountDatabase.AccountDB.WipeStorage | veda/db/account.py:212-218 | the store is tracked as dirty and wiped |
| AccountDatabase.AccountDB.DeleteAccount | veda/db/account.py:346-357 | the cache entry and the journaled account go, after the storage was wiped |
| AccountDatabase.AccountDB.DeleteStorage | veda/db/account.py:190-194 | the blank root is set first and then the loaded store is wiped |
| AccountDatabase.AccountDB.Record | veda/db/account.py:429-436 | all journals and all dirty stores record the checkpoint |
| AccountDatabase.AccountDB.Discard | veda/db/account.py:438-444 | all journals and all dirty stores go back, and the cache is emptied |
| AccountDatabase.AccountDB.Commit | veda/db/account.py:446-451 | all journals and all dirty stores commit |
| AccountDatabase.AccountDB.LockChanges | veda/db/account.py:453-456 | all dirty stores lock their changes and the access journal starts afresh |
| Accounts.SetStorageSets | veda/db/account.py:181-188 | the slot reads back the value, and no slot of any account changes besides |
| Accounts.WipeStorageWipes | veda/db/account.py:212-218 | the slots of that account are empty, and no slot of another account changes |
| AccountReads.LoadReads | veda/db/account.py:220-227 | loading a store is not seen by any read |
| AccountReads.SetStorageReads | veda/db/account.py:181-188 | after set_storage the slot reads as the value, and every other slot, account, code and access mark as before |
| AccountReads.SetAccountReads | veda/db/account.py:414-417 | after _set_account that account reads as given and no other changes; its slots follow the root only while the store is not loaded |
| AccountReads.UpdateAccountReads | veda/db/account.py:273-298 | setting nonce, balance or code hash changes those fields of that account and nothing else, its storage included |
| AccountReads.StoreCodeReads | veda/db/account.py:318-326 | a stored code reads back under its hash, and no other code changes |
| AccountReads.SetCodeReads | veda/db/account.py:303-326 | after set_code the code hash of the account leads to the code |
| AccountReads.MarkWarmReads | veda/db/account.py:200-203 | exactly that access mark is set, if it was not |
| AccountReads.WipeStorageReads | veda/db/account.py:212-218 | after a wipe the slots of that account read zero and nothing else changes |
| AccountReads.DeleteAccountReads | veda/db/account.py:346-357 | a deleted account is gone with all its slots; every other account and slot, and every code and access mark, stays |
| AccountReads.DeleteStorageReads | veda/db/account.py:190-194 | delete_storage blanks the root and the slots of that account, keeps its other fields and changes nothing else |
| Accounts.SetStorageKeeps | veda/db/account.py:181-188 | what every pending checkpoint remembers stays, also when the write is the first that makes the store dirty |
| Accounts.WriteAccountKeeps | veda/db/account.py:414-417 | the same for account fields |
| Accounts.DeleteAccountKeeps | veda/db/account.py:346-357 | the same for deleting an account |
| Accounts.DeleteStorageKeeps | veda/db/account.py:190-194 | the same for deleting the storage of a loaded store |
| Accounts.RecordSeen | veda/db/account.py:429-436 | recording remembers everything a caller can see |
| Accounts.CanUndo | veda/db/account.py:438-444 | a discard succeeds if and only if no dirty store was wiped more than once since the checkpoint |
| Accounts.DiscardRestores | veda/db/account.py:438-444 | a discard gives back every account, slot, code and access mark as it was, for stores that became dirty later too, and keeps the older checkpoints |
| Accounts.CommitKeepsSeen | veda/db/account.py:446-451 | a commit changes nothing that can be seen and nothing older checkpoints remember |
| Accounts.RunKeeps | veda/db/account.py:172-451 | whatever runs in a transaction, the checkpoints below keep what they remember |
| Accounts.RevertRestores | veda/db/account.py:429-451 | within a transaction, record, any run and discard are as if nothing had happened |
| Accounts.OpenedOk | veda/db/account.py:98-155 | a newly opened database is sound |
| Accounts.LockChangesKeeps | veda/db/account.py:453-456 | with no checkpoint pending, lock_changes keeps every account and slot and clears the access marks |
| ChainGapRecords.IsBlockNumberInGap | veda/db/chain_gaps.py:93-105 | the loop decides exactly the missing numbers |
| ChainGapRecords.FillGapFills | veda/db/chain_gaps.py:108-188 | filling takes exactly that number out of the missing ones, keeps the record sorted, disjoint and not adjacent, never finds it corrupted, and says by its kind whether the next number is present |
| ChainGapRecords.ReopenGapReopens | veda/db/chain_gaps.py:72-90 | reopening adds exactly that number, keeps the record in the same form and never finds it unsorted |
| ChainGapRecords.JoinOverlappingGaps | veda/db/chain_gaps.py:46-69 | the loop joins ranges as the recursive definition does, error included |
| ChainGapRecords.JoinNormalises | veda/db/chain_gaps.py:46-69 | joining a sorted list never fails and gives ranges that are apart and hold the same numbers |
| ChainGapRecords.MissingDeterminesGaps | veda/db/chain_gaps.py:72-188 | two records with the same missing numbers are equal |
| ChainGapRecords.GenesisWellFormed | veda/db/chain_gaps.py:39-39 | the initial record misses every number but genesis |
| ChainGapRecords.RunKeeps | veda/db/chain_gaps.py:72-188 | after any run of fills and reopenings a number is missing as its last change says |
| ChainGapRecords.RunsAgree | veda/db/chain_gaps.py:72-188 | runs that agree on what is missing leave equal records |
| ChainGapRecords.FillsCommute | veda/db/chain_gaps.py:108-188 | two fills can change places |
| ChainGapRecords.UndoneIff | veda/db/chain_gaps.py:72-188 | filling undoes reopening just on a present number, reopening undoes filling just on a missing one |
| HeaderDatabase.HeaderDB.FindNewAncestors | veda/db/header.py:593-629 | the loop walks down to the first canonical, genesis or parentless ancestor |
| HeaderDatabase.HeaderDB.FindHeadersToDecanonicalize | veda/db/header.py:579-590 | the canonical headers at the given numbers, in order |
| HeaderDatabase.HeaderDB.DecanonicalizeDescendantOrphans | veda/db/header.py:288-339 | the loop over orphaned children, refused at a checkpoint |
| HeaderDatabase.HeaderDB.DecanonicalizeOne | veda/db/header.py:342-360 | one number leaves the lookup and becomes a gap |
| HeaderDatabase.HeaderDB.CanonicalizeHeader | veda/db/header.py:481-523 | the new chain replaces the old one unless that holds a checkpoint |
| HeaderDatabase.HeaderDB.SetAsCanonicalChainHead | veda/db/header.py:526-564 | the head moves, on a fast path when it extends the old one |
| HeaderDatabase.HeaderDB.RespondToGapChange | veda/db/header.py:437-478 | a header in a gap is made canonical, after a check of the link to the right |
| HeaderDatabase.HeaderDB.PersistHeaders | veda/db/header.py:198-204 | the batch does what the function says, or fails and changes nothing |
| HeaderDatabase.HeaderDB.PersistBatch | veda/db/header.py:363-434 | the loop over the headers of a batch and the choice of the head |
| HeaderDatabase.HeaderDB.PersistCheckpoint | veda/db/header.py:206-208 | persisting a checkpoint does what the function says, or fails and changes nothing |
| HeaderDatabase.HeaderDB.PersistCheckpointBatch | veda/db/header.py:230-285 | the steps of persisting a checkpoint |
| HeaderSafety.NewAncestorsChain | veda/db/header.py:593-629 | what is found runs along parent links up to the header, none of it canonical, down to genesis, a canonical header or nothing known |
| HeaderSafety.CanonicalizeChain | veda/db/header.py:481-523 | canonicalizing is refused exactly when a checkpoint is canonical at one of the new numbers; else exactly these numbers change |
| HeaderSafety.PersistOneKeeps | veda/db/header.py:395-420 | one header keeps the invariant; it is refused exactly when it fills the last gap below the checkpoint without being its parent |
| HeaderSafety.HeadMoves | veda/db/header.py:526-564 | a header above the head becomes the head exactly when it descends from the checkpoint, and the lists returned are exactly what changed |
| HeaderSafety.PersistRestKeeps | veda/db/header.py:405-420 | so do all the headers of a batch, which have to be contiguous |
| HeaderRuns.BatchKeeps | veda/db/header.py:363-434 | a batch keeps the invariant and moves the head only to a higher header; without a checkpoint it succeeds exactly when it is contiguous and hangs on a known header |
| HeaderRuns.RunKeeps | veda/db/header.py:363-434 | after any run from an empty database the head is the first header persisted at the greatest height |
| HeaderRuns.NoCheckpointLookups | veda/db/header.py:110-153 | the lookup is defined exactly from genesis to the head and follows parent links from the head down to genesis |
| HeaderRuns.ReturnsWhatChanged | veda/db/header.py:363-434 | each batch returns exactly the entries that became canonical and those that stood there before |
| HeaderRecords.BatchRecords | veda/db/header.py:363-434 | a batch of headers of any difficulty that succeeds adds exactly its headers, each with the score of its parent and its own weight |
| HeaderRecords.RunRecords | veda/db/header.py:363-434 | in every run from an empty database the headers known are exactly those accepted |
| HeaderRecords.ScoreIsWeightSum | veda/db/header.py:215-220 | the score of a header is the sum of the weights from it down to genesis |
| HeaderRecords.CheckpointRecords | veda/db/header.py:230-285 | a checkpoint of any difficulty becomes the head with the score that was given, and no other header is recorded |
| HeaderCheckpoints.CheckpointPersists | veda/db/header.py:230-285 | a checkpoint above every known header is accepted and leaves at most one gap, just below it |
| HeaderCheckpoints.CheckpointAccepted | veda/db/header.py:230-285 | handing over such a checkpoint never fails |
| HeaderCheckpoints.CheckpointStaysCanonical | veda/db/header.py:230-285 | after any later batches the checkpoint is canonical, the canonical numbers are exactly those not recorded as missing, and canonical neighbours are linked |
| HeaderCheckpoints.StreakKeepsRecord | veda/db/header.py:288-339 | in any database, dropping orphans keeps the record of gaps in step with the lookup; only a checkpoint in the way prevents it |
| CodeStreams.CodeStream.PotentiallyDisqualifyingOpcodePositions | veda/vm/code_stream.py:84-97 | exactly the positions up to 32 bytes back whose opcode would push this byte, in order |
| CodeStreams.CodeStream.IsValidOpcode | veda/vm/code_stream.py:99-125 | true exactly for instructions found by the forward scan; both memo sets stay right and the recursion ends |
| CodeStreams.CodeStream.Next | veda/vm/code_stream.py:56-66 | the opcode at the counter, or STOP past the end |
| CodeStreams.CodeStream.Read | veda/vm/code_stream.py:44-48 | the bytes the code still has, and a counter moved by the full size |
| CodeStreams.CodeStream.Push | veda/vm/logic/stack.py:12-24 | the value pushed is the code bytes padded with zeros on the right |
| CodeStreams.CodeStream.Jump | veda/vm/logic/flow.py:18-29 | a jump succeeds exactly on a JUMPDEST that is an instruction; both errors are told apart |
| CodeStreams.CodeStream.JumpIf | veda/vm/logic/flow.py:32-44 | the same, or nothing when the condition is zero |
| CodeStreams.CodeStream.Execute | veda/vm/computation.py:343-364 | the fetch loop goes round by round from instruction to instruction; it ends past the code, where the stack items given run out, or at a jump to no valid destination, with the error that tells which |
| CodeStreams.StartIffNotPushed | veda/vm/code_stream.py:106-125 | a position is an instruction exactly when no earlier instruction pushes it |
| CodeStreams.FetchesInstructions | veda/vm/code_stream.py:56-66 | in every run every position that is fetched from is an instruction start |
| CodeStreams.RoundGoes | veda/vm/logic/flow.py:18-44 | a jump leads to the top of the stack, with the item below it as the condition of a conditional one, and only onto an instruction JUMPDEST; push data is skipped; anything else leads to the next byte |
| CodeStreams.NextFetch | veda/vm/logic/flow.py:18-44 | so every position of a run follows from the one before and its stack items, and so does the counter at the end |
| CodeStreams.FailedJump | veda/vm/logic/flow.py:18-44 | a run fails only at a jump whose destination is no instruction JUMPDEST |
| CodeStreams.RunsAgree | veda/vm/computation.py:343-364 | code and stack items decide the whole run: positions, error and final counter |
| GasMeters.GasMeter.ConsumeGas | veda/vm/gas_meter.py:57-77 | succeeds exactly when the amount is not negative and not more than what remains |
| GasMeters.GasMeter.ReturnGas | veda/vm/gas_meter.py:79-91 | adds the amount, refusing a negative one |
| GasMeters.GasMeter.RefundGas | veda/vm/gas_meter.py:93-102 | counts the refund by the strategy of the meter |
| NetStorageGas.StorageWriter.NetSStore | veda/vm/logic/storage.py:87-147 | the meter pays and is refunded what the write is worth and only that slot changes; out of gas nothing does |
| NetStorageGas.StorageWriter.WriteAll | veda/vm/logic/storage.py:87-147 | the writes of a transaction to one slot succeed exactly when the charge is there, and charge, refund and final value are as stated below; no other slot changes |
| NetStorageGas.WriteMovesPotential | veda/vm/logic/storage.py:102-128 | cost minus refund of a write is one load plus a difference of potentials |
| NetStorageGas.NetGasTelescopes | veda/vm/logic/storage.py:87-147 | over any writes the net gas is one load each plus the potential of original and final value |
| NetStorageGas.SameFinalSameNet | veda/vm/logic/storage.py:87-147 | the values in between do not matter |
| NetStorageGas.CostCountsDepartures | veda/vm/logic/storage.py:102-128 | the gas charged is one load per write, and a set or a reset in its place for each write that leaves the original value |
| NetStorageGas.NetGasByCase | veda/vm/logic/storage.py:87-147 | charged minus refunded, besides the loads: nothing when the slot ends as it began, else one set, or one reset less the refund for a cleared slot |
| NetStorageGas.RefundStaysNonNegative | veda/vm/logic/storage.py:115-128 | the running refund is never negative when set and reset cost at least a load and clearing is not punished |
| NetStorageGas.UnreasonableGoesNegative | veda/vm/logic/storage.py:115-128 | for every other schedule it can be negative |
| NetStorageGas.ForkScheduleReasonable | veda/vm/forks/veda/storage.py:15-92 | the schedule in use meets the condition |
| MemoryGas.Memory.Extend | veda/vm/memory.py:25-43 | zeros are added up to whole words, never taken away |
| MemoryGas.Memory.ExtendMemory | veda/vm/computation.py:406-440 | an expansion is charged exactly the difference in cost, and fails without effect exactly when that is not there |
| MemoryGas.Memory.ExtendAll | veda/vm/computation.py:406-440 | after any expansions the gas charged is the cost of the memory there is, in whole words |
| MemoryGas.Memory.Write | veda/vm/memory.py:48-57 | exactly the range changes, and only when it lies inside and the length fits |
| MemoryGas.Memory.ReadBytes | veda/vm/memory.py:62-63 | the bytes of the range that are there |
| MemoryGas.CostOrdersSizes | veda/vm/computation.py:89-95 | on whole words the cost orders sizes as they are ordered |
| MemoryGas.CostIsRounded | veda/vm/computation.py:89-95 | w words cost w * (3 + w / 512), rounded down |
| MemoryGas.NeededIsFurthest | veda/vm/memory.py:25-43 | the size is the end of the furthest range, in whole words |
| CallTrees.Computation.CallOp | veda/vm/logic/call.py:111-184 | a call charges the fee, and returns the message gas on a failed check or what the child has left unless it burned it |
| CallTrees.Computation.CreateOp | veda/vm/logic/system.py:154-232 | a create charges its cost and the gas it forwards, loses the latter on a collision, and gets back what the child has left after the deposit |
| CallTrees.Computation.ApplyComputation | veda/vm/computation.py:322-366 | a computation runs its steps on its own meter; an error that burns gas empties it |
| CallTrees.Computation.GetGasRemaining | veda/vm/computation.py:473-477 | nothing after an error that burns gas, else what the meter holds |
| CallTrees.Computation.GetGasUsed | veda/vm/computation.py:464-471 | all of it after such an error, else the difference |
| CallTrees.StipendCovered | veda/vm/logic/call.py:44-50 | the message gas never exceeds the fee: the stipend is less than what a value transfer costs |
| CallTrees.NeverGains | veda/vm/computation.py:464-477 | in every tree each meter ends at or below its start, and used plus remaining is the start |
| CallTrees.CreateNeverGains | veda/vm/forks/veda/computation.py:191-242 | also once the code deposit of a create was charged or failed |
| CallTrees.GasIsConserved | veda/vm/computation.py:581-622 | start plus the stipends handed out in the tree is what remains plus what was paid or burned somewhere in it |
| CallTrees.FeeIsAffordable | veda/vm/logic/call.py:351-375 | under EIP-150 the fee is refused exactly when the extra gas is not there, and is never more than there is |
| CallTrees.MessageGasGiven | veda/vm/logic/call.py:351-375 | under EIP-150 the message gets the gas asked for or 63/64 of what is left after the extra gas, whichever is less, and the stipend on top; the fee is that gas and 9000 for value and 25000 for a new account |
| CallTrees.LegacyGasGiven | veda/vm/logic/call.py:44-50 | before EIP-150 it gets all the gas asked for |
| CallTrees.CallerPays | veda/vm/logic/call.py:111-184 | a call costs its caller the fee beyond the message gas and what the child used, and only the former when its checks fail |
| CallTrees.CreatorPays | veda/vm/logic/system.py:154-232 | a create costs what it charges and what the child used of the forwarded gas, 63/64 of what is left under EIP-150; all of it on a collision |
| CallTrees.DepositPaid | veda/vm/forks/veda/computation.py:191-242 | a create that ran to its end pays the deposit or loses everything; one that reverted or failed pays none |
| CallTrees.UsesItsCharges | veda/vm/computation.py:322-366 | a computation without children uses the sum of its charges, or all its gas when it fails or that is not there |
| CallTrees.DepthBound | veda/vm/logic/call.py:351-375 | after d nested value-free calls 64^d * (g_d - 63) <= 63^d * (g_0 - 63) |
| LogCollection.TransactionContext.GetNextLogCounter | veda/vm/transaction_context.py:24-25 | the counter of the transaction, once each |
| LogCollection.TransactionContext.Execute | veda/vm/computation.py:288-300 | running a tree numbers its entries in the order of emission |
| LogCollection.Collected | veda/vm/computation.py:302-315 | the entries collected are those with no failed self or ancestor in the tree, in global order of emission, although each level sorts its own |
| LogCollection.CollectedLogs | veda/vm/computation.py:317-318 | and the logs do not depend on where the counter stood |
| LogCollection.RefundCollected | veda/vm/computation.py:248-254 | refunds of failed computations are lost with all below them, the others are added up |
| LogCollection.OrderedUnique | veda/vm/computation.py:308-315 | a list in increasing order is the only ordered one with its entries |
| Diffs.AtomicBatch.GetItem | veda/db/atomic.py:76-88 | a batch reads what its target will be once it is committed |
| Diffs.AtomicBatch.SetItem | veda/db/atomic.py:90-94 | only that key changes in it |
| Diffs.AtomicBatch.DelItem | veda/db/atomic.py:96-104 | the key goes, or is reported when the batch does not see it |
| Diffs.SetsThenDeletes | veda/db/diff.py:196-218 | all sets and then all deletes are the same as the changes one by one, because keys are distinct |
| Diffs.OrderWouldMatter | veda/db/diff.py:60-97 | without distinct keys they would not be |
| Diffs.ApplyDiffAt | veda/db/diff.py:196-218 | what applied changes say about a key |
| WireServer.BufferedSocket.ReadExactly | veda/_utils/socket.py:21-32 | exactly the next bytes of the stream, whatever the chunks |
| WireProtocol.RequestParses | veda/db/manager.py:281-355 | every request is read back, and reading stops at its last byte |
| WireProtocol.ParsedIsEncoded | veda/db/manager.py:180-244 | the bytes read for a request are its encoding, so each request has one encoding and none is mistaken for another |
| WireProtocol.BatchParses | veda/db/manager.py:326-355 | the same for an atomic batch with its counts and sizes |
| WireProtocol.GetAnswered | veda/db/manager.py:281-293 | the client gets what the database holds, or a missing key |
| WireProtocol.RequestLayout | veda/db/manager.py:39-95 | the requests are laid out byte by byte as documented |
| WireProtocol.BatchLayout | veda/db/manager.py:96-112 | counts, sizes of pairs, sizes of deleted keys, pairs, deleted keys |
| WireProtocol.SizesAreLittleEndian | veda/db/manager.py:39-112 | sizes are four bytes, the lowest first |
| WireProtocol.FetchAfterSet | veda/db/manager.py:190-198 | after a set the key reads back as the value just set, and every other key as before |
| WireProtocol.FetchAfterDelete | veda/db/manager.py:200-208 | after a delete the key is missing, and every other key reads as before |
| WireProtocol.FetchAfterBatch | veda/db/manager.py:218-244 | after a batch the deleted keys are missing, a key that was set has the value of its last pair, every other key is as before |
| WireProtocol.FlagsSayFound | veda/db/manager.py:200-216 | the reply to exists says whether a get would find the key, the reply to delete whether one would have found it; asking changes nothing |
| WireProtocol.BatchHasEffectOfDiff | veda/db/manager.py:326-355 | an atomic batch does to the database what its diff does |
| WireServer.DBManager.HandleGet | veda/db/manager.py:180-188 | the value is answered with its size, or the failure byte |
| WireServer.DBManager.HandleSet | veda/db/manager.py:190-198 | key and value are told apart by their sizes and stored |
| WireServer.DBManager.HandleDelete | veda/db/manager.py:200-208 | the key goes, or the failure byte is answered |
| WireServer.DBManager.HandleExists | veda/db/manager.py:210-216 | whether the key is there |
| WireServer.DBManager.HandleAtomicBatch | veda/db/manager.py:218-244 | all of the batch is carried out or, when the stream ends in it, nothing |
| WireServer.DBManager.ServeConn | veda/db/manager.py:146-178 | requests are carried out and answered until the stream ends or has an unknown operation |
| WireServer.ServesWhatWasSent | veda/db/manager.py:146-178 | exactly the requests sent are carried out, in order, and each is answered from the database as it then is |
| WireServer.SessionReads | veda/db/manager.py:146-178 | after any requests a get is answered with what they have left the key at |
| WireServer.ServesTheLastValue | veda/db/manager.py:146-188 | on the wire: what the server answers to a get after any requests, read by the client, is the value last given to the key |
| WireServer.DBClient.GetItem | veda/db/manager.py:281-293 | sends the request and returns what the reply says |
| WireServer.DBClient.SetItem | veda/db/manager.py:295-300 | sends the request and accepts the two reply bytes |
| WireServer.DBClient.DelItem | veda/db/manager.py:302-312 | sends the request and says whether the key was there |
| WireServer.DBClient.Exists | veda/db/manager.py:314-324 | sends the request and says whether the key is there |
| WireServer.DBClient.CommitBatch | veda/db/manager.py:326-355 | sends one request whose effect on the target is the view of the batch |
| Blake2b.G | veda/_utils/blake2/compression.py:127-149 | the in-place mixing of four words is the function G |
| Blake2b.Compress | veda/_utils/blake2/compression.py:74-184 | for every round count the result is F, packed, and no word overflows |
| Blake2b.ShiftsRotate | veda/_utils/blake2/compression.py:133-144 | the masked shifts, joined, rotate |
| Blake2b.ResultFits | veda/_utils/blake2/compression.py:183-184 | every word of the result is below 2^64 |
| Blake2b.UnmixMixes | veda/_utils/blake2/compression.py:127-149 | G can be undone |
| Blake2b.MixUnmixes | veda/_utils/blake2/compression.py:127-149 | from both sides |
| Blake2b.RoundsUndone | veda/_utils/blake2/compression.py:151-181 | for a fixed message block the mixing loop is a bijection on sixteen words |
| Blake2b.RoundsInjective | veda/_utils/blake2/compression.py:151-181 | so two different states never mix to the same one |
| Blake2b.WordsReadBack | veda/_utils/blake2/compression.py:104-105 | packed words are read back |
| Blake2bConstants.IvIsSquareRoot | veda/_utils/blake2/compression.py:54-63 | the initial words are the fractions of the square roots of the first eight primes |
| Blake2bConstants.SigmaPermutes | veda/_utils/blake2/compression.py:35-46 | every round uses every word of the message block |
| Blake2bConstants.ColumnsThenDiagonals | veda/_utils/blake2/compression.py:151-181 | four columns and then four diagonals are mixed |
| Blake2bConstants.StartWords | veda/_utils/blake2/compression.py:107-122 | the counters go into words 12 and 13 alone, and word 14 is inverted in the final block alone |
| Blake2bConstants.MixMovesBits | veda/_utils/blake2/compression.py:127-149 | what one bit of either message word becomes shows the rotations by 32, 24, 16 and 63 |

## Left out

- Accounts and storage hold their journals as values of the journal model, whose
  operations the class `Journal` is proved to carry out, and not as nested
  objects; aliasing between those objects is not modelled.
- Checkpoint ids come from process-wide counters in the source; here the next id
  is a parameter that has to be new.
- Tries, RLP and keccak are abstracted to contents and injective functions; the
  exceptions for missing trie nodes, proofs, witnesses and the write batch to
  disk (`persist`, `make_state_root`) are left out.
- The order in which the account and storage caches evict entries is not
  modelled: an eviction is possible at any time.
- Discards to checkpoints taken before `lock_changes` raise in the source or are
  not meant for it; the runs over accounts stay inside one transaction.
- JournalDatabase.JournalDB.Persist: does not model an exception of the wrapped
  map half-way, after which the source applies the changes to the journal again.
- Headers with mixed difficulties, more than one checkpoint, a checkpoint at or
  below the head and a genesis parent hash of one's own are outside the runs;
  the operations themselves are modelled for any difficulty.
- HeaderCheckpoints.CheckpointStaysCanonical: does not say which batches are
  refused after a checkpoint; HeaderSafety.PersistOneKeeps and
  HeaderSafety.HeadMoves give the exact condition for each header and head.
- Serialisation of headers, scores and gaps in the database, and the cache of
  decoded headers.
- Transaction lookups on reorganisation, block bodies and receipts.
- The stack, the opcode table with its arithmetic, the access lists and the
  stipend checks of the fork around `net_sstore`; they would add easy members.
- CallTrees.NeverGains: takes computations that run to their end; errors that
  are not errors of the virtual machine leave the loop in the source.
- Accounts registered for deletion, collected over the tree as the refunds are.
- Threads, locks, timeouts and the socket server around the protocol; sizes that
  do not fit four bytes, for which packing fails in the source.
- Parameter extraction of the BLAKE2 precompile, which yields words where the
  compression takes a block.
- Networking, RPC, configuration, the command line and other plumbing.
