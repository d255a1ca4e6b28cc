# Verified model of the governed memory, worktree delivery and model runtime

This project models the parts of the repository that other parts have to rely on when things
happen at the same time, fail half-way or come in pieces, and proves what they promise.

- **Governed memory.** `MemoryDomain`, `MemoryStore` and `MemoryCommands` are the items with their
  status lifecycle, the repository with each transaction as one step, and the service commands.
  `MemorySystem` lets commands and the synchronizer interleave freely: a command commits long after
  it read, and commits fall between the synchronizer's read, its index write and its completion.
  `MemoryOutbox` proves that a drained outbox means an agreeing index for every user of the
  repository whose transactions are fit, `MemoryFitness` that no weaker condition would do, and
  `MemoryConvergence` that the service keeps to it. `MemoryChains` is about supersession and
  proposals, `MemoryRaces` about commands on one version, `MemoryWindows` about candidates for one
  statement, `MemoryIndexSync` about the real loop with its faults, which is one of those runs, and
  `MemoryRetrieval` about retrieval, sound for any index.
- **Worktrees and deliveries.** `GitModel` has commits, ancestry and refs. `WorktreeLeases` is the
  multi-process protocol of locks, durable records and the command marker, with deaths anywhere;
  `WorktreeDelivery` is the protocol of preparing, verifying and publishing a candidate while its
  target moves, `WorktreeVerdicts` what a publication rests on, and `WorktreeRewind` a run that
  publishes a candidate without its target. In `WorktreeService` and `WorktreeDeliveryService` one
  process carries out the operations step by step while all others move between any two of its
  steps; each step is one of the protocol's.
- **Smaller cores.** `IncrementalIngest` (synchronisation against a full rebuild),
  `SemanticSplitter` (termination, coverage and the exact bound on the overlap), `ChatStream` and
  `ResponsesStream` (streams against whole calls), `NativeContext` (optimistic commits),
  `ModelPool` (fallback and circuit breaker), `Caches` (size, age and order of eviction), `EvaluationLedger`
  (complete ledgers under interruption) and `TokenBudget`.

A protocol is a relation between worlds; an invariant is proved for each kind of step by first
showing what little that step may change (the `...Moves...`, `...Effect` and `...Carries` lemmas) and
then, once, that such a change keeps it. Methods that run while others move get their interference
from `Interfere`, whose callers know no more than that the others took steps of the protocol. Calls
into stores, models and indexes may fail before or after their effect, as a parameter says.

## Findings

- Convergence of the index needs two facts that the command service guarantees and the repository
  does not check: no item is active before it is valid, and none is replaced by a candidate that has
  not expired. `ConvergesIffFit` shows that exactly these are needed. The runs that lose an item are
  `FutureDatedItemIsLost`, `ConfirmedTooEarlyIsLost`, `FutureDatedReplacementIsLost` and
  `ReplacingCandidateIsLost` (from the empty store: `ReplacementIsLostFromTheStart`); the last one
  works off an older event after a newer one of the same item, as happens after one failed attempt
  at the older one.
- Adding evidence checks the version and does not raise it. So of two commands on one version both
  can commit: exactly when the first is a merge (`BothCommitIffFirstMerges`, with the reachable race
  `MergeAndRevokeBothCommit`). After a status change every command on the old version fails.
- `drain` counts an event as completed before its trace callback; when that raises, the event is
  retried too. The two counters together exceed the number claimed exactly then
  (`CountersExceedIff`).
- A resolver that answers "uncertain" can leave two candidates for one statement, because a remembered
  statement that becomes a candidate was never looked up as one. `UncertainTwiceClashes` is the run,
  `WriteKeepsWindowsIff` and `CandidateWindowsDisjointIff` the exact conditions.
- A candidate contains its target unless another writer leases the integration checkout between its
  creation and the merge and resets it. Nothing in `prepare` checks for that, and the candidate
  without its target can be verified and published (`RewoundCandidateMissesTarget`).
- A state file that was torn while being written is read as no state; that is harmless for the same
  tree and leaves orphans for a smaller one.
- For every chunk size there is a text on which the splitter loops for ever once the overlap reaches the
  least advance of that size: the size itself up to 2, `size // 2 + 2` up to 6, then 4 for 7, 5 up to
  11, and `(size // 2 + 2) // 2 + 1` from 12 on. Below it the loop ends on every text (`EndsIff`).
- When the provider fails for a key whose cache entry has expired, the entry is gone although older keys
  stay; only then does the cache not hold exactly the keys used last (`KeepsRecentIff`).
- In the handler of a matrix cell the status is updated before the missing rows are filled in. An
  interruption between the two leaves the cell closed without them, because the outer handler only
  looks at cells still marked pending or running.
- A window of one token cannot hold a prompt and a grant; two suffice.

## Model

| member | source | states |
|---|---|---|
| `MemoryDomain.Transitioned` | memory/domain.py:163-210 | A status change happens exactly along the allowed transitions, raises the version by one, keeps the item well formed, never leaves a terminal status and activates only candidates. |
| `MemoryDomain.Context.AllowedOwners` | memory/commands.py:32-46 | A context speaks for its user and for exactly the scopes it names; an empty name names nothing. |
| `MemoryStore.PostgresMemoryRepository.Create` | memory/postgres_repository.py:153-170 | One transaction: the item, its evidence and, for an active item, its outbox row are stored together, or nothing changes. |
| `MemoryStore.PostgresMemoryRepository.Transition` | memory/postgres_repository.py:284-336 | Version compare-and-swap under an optional owner guard; the status change and the outbox row it needs commit together or the database is unchanged. |
| `MemoryStore.PostgresMemoryRepository.Supersede` | memory/postgres_repository.py:338-372 | The old item becomes superseded and the new one is inserted, with both outbox rows, in one step or not at all. |
| `MemoryStore.PostgresMemoryRepository.AddEvidence` | memory/postgres_repository.py:374-402 | Evidence is added, ids already there are kept as they are, the version stays and only the time stamp moves. |
| `MemoryStore.PostgresMemoryRepository.FindExact` | memory/postgres_repository.py:218-250 | The most recently updated item with this owner, kind, normalized text and status that is valid now, or none when there is none. |
| `MemoryStore.PostgresMemoryRepository.ListActive` | memory/postgres_repository.py:192-216 | Exactly the retrievable items of the owners, each once, last changed first. |
| `MemoryStore.PostgresMemoryRepository.ClaimIndexEvents` | memory/postgres_repository.py:412-434 | Claims the ready rows in order up to the limit, marks just those as processing and leaves every other row alone. |
| `MemoryStore.PostgresMemoryRepository.CompleteIndexEvent` | memory/postgres_repository.py:436-449 | The row of this id becomes completed, whatever its status was; no other row changes, and the result says whether there was one. |
| `MemoryStore.PostgresMemoryRepository.RetryIndexEvent` | memory/postgres_repository.py:451-474 | The row of this id goes back to retry, whatever its status was, with its attempts counted and its next time set; no other row changes. |
| `RowOrder.SelectOrdered` | memory/postgres_repository.py:412-434 | ORDER BY with LIMIT: the result is ordered, distinct, as long as the limit allows, and nothing left out comes before anything taken. |
| `MemoryCommands.Decide` | memory/conflict_service.py:37-83 | An exact match of owner, kind and text always wins; what is returned is a comparable existing item; creation happens only when nothing matches; without a resolver only a named correction replaces. |
| `MemoryCommands.MemoryCommandService.ConfirmItem` | memory/command_service.py:80-91 | Runs the planned transaction on the item read, only for an item of the context, and stores its result or nothing. |
| `MemoryCommands.MemoryCommandService.RejectItem` | memory/command_service.py:93-102 | The same for rejection. |
| `MemoryCommands.MemoryCommandService.RevokeItem` | memory/command_service.py:160-169 | The same for revocation. |
| `MemoryCommands.MemoryCommandService.UpdateItem` | memory/command_service.py:104-158 | A correction replaces an active item of the context by a new item that names it, in one transaction. |
| `MemoryCommands.MemoryCommandService.Write` | memory/command_service.py:187-271 | Remembering and proposing: what is stored is the transaction planned from what was read, evidence bound to its item. |
| `MemoryCommands.MemoryCommandService.Forget` | memory/command_service.py:171-185 | Revokes exactly the retrievable items of the context that contain the query or are contained in it, each once, and touches no other item. |
| `MemorySystem.PlanWriteIsSound` | memory/command_service.py:187-271 | Whatever was read earlier, the transaction a write plans stays one the store can commit safely in every later state. |
| `MemorySystem.PlanItemIsSound` | memory/command_service.py:80-169 | The same for the commands on one item. |
| `MemoryOutbox.NeverSwallowed` | memory/postgres_repository.py:569-585 | The unique key of the outbox never swallows the row of a status change: no row of that item, new version and operation can exist before. |
| `MemoryOutbox.ApplyKeepsStore` | memory/postgres_repository.py:153-402 | Every fit transaction, the service's or not, keeps the store in order and carries a fresh pending row for each change of state and each new active item. |
| `MemoryOutbox.RepositoryConverges` | memory/index_sync.py:39-70 | In every run of any user of the repository whose transactions put no active item before its time and replace nothing by an unexpired candidate, a drained outbox means an agreeing index. |
| `MemoryConvergence.ApplyKeepsTruth` | memory/postgres_repository.py:284-372 | Every service transaction keeps the invariant of the database, well-formed items valid by now and for each item the outbox row its present state needs, and carries a fresh row for each change. |
| `MemoryOutbox.CompletingKeepsIndex` | memory/index_sync.py:39-70 | Completing a row after its index write keeps the index invariant although commits fell in between. |
| `MemoryConvergence.RunKeepsInv` | memory/index_sync.py:39-70 | The whole invariant holds in every state of every interleaving of commands and synchronizer steps. |
| `MemoryConvergence.OutboxConverges` | memory/index_sync.py:39-70 | For every interleaving, event order and failure before or after the index write: once no row is pending, processing or to be retried, the index holds only current versions of active items and every retrievable one. |
| `MemoryFitness.FutureDatedItemIsLost` | memory/index_sync.py:44-54 | From any world at rest, storing an active item dated in the future opens a run that ends with a drained outbox, the item retrievable and the index without it. |
| `MemoryFitness.ConfirmedTooEarlyIsLost` | memory/postgres_repository.py:284-336 | The same for activating an item before it is valid. |
| `MemoryFitness.ReplacingCandidateIsLost` | memory/postgres_repository.py:338-372 | The same for replacing an item by an unexpired candidate: the run confirms it and works off its older upsert last. |
| `MemoryFitness.ReplacementIsLostFromTheStart` | memory/postgres_repository.py:338-372 | Such a run from the empty store: an item is stored and indexed, a candidate replaces it, is confirmed, and is lost to the index. |
| `MemoryFitness.ConvergesIffFit` | memory/postgres_repository.py:153-402 | From any world at rest a transaction leaves a repository on which every further fit run converges if and only if it is fit: no active item before its time, no replacement by an unexpired candidate. |
| `MemoryIndexSync.MemoryIndexSynchronizer.Drain` | memory/index_sync.py:39-70 | The loop itself, with commands between any two of its sub-steps and faults anywhere, only takes steps of the protocol; a drained outbox means an agreeing index; it dies exactly when some retry raises, and else the counters add up to the events claimed and once more those whose trace raised after the write. |
| `MemoryIndexSync.CountersExceedIff` | memory/index_sync.py:55-70 | The completed and the retried counter together exceed the number of events if and only if some event's trace raised after its write. |
| `MemoryIndexSync.MemoryIndexSynchronizer.ReadAndDecide` | memory/index_sync.py:43-54 | An upsert is decided for the item that was read exactly when nothing raised and it is at the event's version and retrievable at the decision, otherwise a delete. |
| `MemoryIndexSync.DelayIsBounded` | memory/index_sync.py:58-68 | The retry delay never shrinks with the attempts and never exceeds 256 times its base. |
| `MemoryIndexSync.SemanticIndex.Upsert` | memory/semantic_index.py:83-104 | Adds the point of this item and version, or nothing when the call fails before its effect. |
| `MemoryIndexSync.SemanticIndex.Delete` | memory/semantic_index.py:106-123 | Removes every version of the item and nothing else. |
| `MemoryChains.ChainsAreSound` | memory/command_service.py:104-158 | In every reachable state the supersession links are acyclic, keep owner and kind, and all but the newest member of a chain are superseded. |
| `MemoryChains.ChainsDoNotBranch` | memory/postgres_repository.py:338-372 | No item is superseded by two others. |
| `MemoryChains.SupersededIffNamed` | memory/postgres_repository.py:338-372 | An item is superseded exactly when another item names it, and then exactly one does. |
| `MemoryChains.StatusChangeRaisesVersion` | memory/domain.py:163-184 | In every step of every run a status change raises the version by exactly one, and nothing else changes it. |
| `MemoryRaces.RacesHaveOneWinner` | memory/postgres_repository.py:284-372 | Once a status change has committed on a version of an item, no command that insists on that version commits in the rest of the run, merges of evidence included. |
| `MemoryRaces.CommitsIffStatusUnchanged` | memory/postgres_repository.py:284-402 | A command with nothing else in its way commits if and only if no status change of its item has committed since it read the version it insists on. |
| `MemoryRaces.BothCommitIffFirstMerges` | memory/postgres_repository.py:374-402 | Of two commands on one version that would each commit alone, both commit if and only if the first is a merge of evidence. |
| `MemoryRaces.MergeAndRevokeBothCommit` | memory/postgres_repository.py:374-402 | A reachable race on one version in which a merge and then a revocation commit. |
| `MemoryChains.ProposalsNeverTouchFacts` | memory/command_service.py:53-68 | However it races with confirmations and anything else, a proposal changes no active item's status, version or evidence. |
| `MemoryWindows.NewCandidateFits` | memory/command_service.py:193-230 | A new candidate clashes with no other one if and only if no candidate of the same owner, kind and text is valid in its window. |
| `MemoryWindows.WriteKeepsWindowsIff` | memory/command_service.py:187-271 | A write that returns an item keeps the windows of candidates disjoint if and only if it is not one that the resolver was uncertain about while the lookup for a candidate would have found one. |
| `MemoryWindows.UncertainTwiceClashes` | memory/command_service.py:228-230 | Under every policy: remembering a statement, then one whose relation to it is uncertain, and that one again, is a run that leaves two candidates for one statement. |
| `MemoryWindows.CandidateWindowsDisjointIff` | memory/command_service.py:187-230 | In any sequential run with a clock that never goes back, no two candidates for one statement are ever valid at the same instant if and only if no statement the resolver was uncertain about was kept while a candidate for it was valid; without a resolver there is none. |
| `MemoryRetrieval.AcceptedOrDroppedOnce` | memory/semantic_retrieval.py:91-113 | Each hit is either accepted or dropped for exactly one reason, the first check that fails. |
| `MemoryRetrieval.TopIsBest` | memory/semantic_retrieval.py:121-122 | Sorting and cutting leaves out no better-ranked scored item. |
| `MemoryRetrieval.SemanticMemoryRetrievalService.Filter` | memory/semantic_retrieval.py:86-120 | The hits equal the accepted and the dropped ones, counted by reason. |
| `MemoryRetrieval.SemanticMemoryRetrievalService.Retrieve` | memory/semantic_retrieval.py:56-137 | Whatever the index answers, or if it fails: distinct items of the context, retrievable now, at most the limit, in descending rank, none better left out; off the fallback path their versions are those of the hits, on it the ranked scores are exactly those of the items with a lexical match. |
| `GitModel.AncestryPersists` | runtime/worktrees.py:273-278 | Ancestry is never lost when commits are added. |
| `WorktreeLeases.WritersExcludeEachOther` | runtime/workspace_lease.py:17-56 | In every reachable state, wherever processes died, an in-place writer is alone and two managed writers are in different worktrees. |
| `WorktreeLeases.NobodyEntersAfterABreak` | runtime/worktrees.py:222-241 | Once a writer has died or failed in a worktree, no writer ever enters it again. |
| `WorktreeLeases.CommandsNeverOverlap` | runtime/worktrees.py:310-341 | Between the starts of any two commands on the host the exit of the first was confirmed. |
| `WorktreeLeases.RemovalLosesNothing` | runtime/worktrees.py:264-284 | A worktree is only removed when clean, and then and ever after its branch names the removed head and each commit below it is in the history of the base or of a ref its record lists. |
| `WorktreeLeases.KeptCommitsAreReachable` | runtime/worktrees.py:271-280 | The removal test implies that every commit below the head is in the history of the base or of a ref the record lists, still at the recorded commit. |
| `WorktreeLeases.StepKeepsInv` | runtime/worktrees.py:151-341 | Every step of every process, and every death, keeps locks, records, removals and the command marker consistent. |
| `WorktreeServices.WorktreeService.EnterLease` | runtime/worktrees.py:222-233 | Entering while others move: busy, not ready, or entered with the worktree marked active, exactly by what the locks and the record said, and only after a writer that ended well. |
| `WorktreeServices.WorktreeService.ExitLease` | runtime/worktrees.py:234-241 | Leaving: the lock is free; under it the record as read was saved as quarantined after a failure, and after a clean end as ready if it was active and else left as it was. |
| `WorktreeServices.WorktreeService.Preserve` | runtime/worktrees.py:249-262 | Succeeds exactly when the ref held the commit, the lock was free and the record was ready, and then the ref is recorded. |
| `WorktreeServices.WorktreeService.IsKept` | runtime/worktrees.py:271-278 | The loop over the recorded refs decides exactly whether the head is kept. |
| `WorktreeServices.WorktreeService.Remove` | runtime/worktrees.py:264-284 | Removes exactly when the lock was free, the worktree was removable under it and the deletion worked. |
| `WorktreeServices.WorktreeService.RunCommand` | runtime/worktrees.py:310-341 | A command starts exactly when the command lock was free, no marker was left, the record allowed it and its environment was prepared. |
| `WorktreeServices.WorktreeService.Create` | runtime/worktrees.py:151-186 | A worktree is registered before it exists; once its checkout is added and saved it was a clean checkout of the base with a ready record that lists no ref; any failure leaves it quarantined. |
| `WorktreeServices.WorktreeService.Checkpoint` | runtime/worktree_delivery.py:67-85 | A successful checkpoint made a dedicated ref that was not there before, at the commit that then was the clean head of the worktree, and the record lists it. |
| `WorktreeDelivery.PublishedEvidence` | runtime/worktree_delivery.py:239-266 | In any run, with deaths and a moving target: a delivery branch is created only while the target still is where it was, it points at the candidate, the candidate contains the source, and that very candidate passed a verification before. |
| `WorktreeVerdicts.PublishedOnLatestVerdict` | runtime/worktree_delivery.py:183-266 | A delivery branch is only created on the latest verdict: the candidate passed, and the delivery has not been judged since. |
| `WorktreeVerdicts.MoveKeepsVerdict` | runtime/worktree_delivery.py:183-266 | Every pass, stored or in the hands of a process, is the latest verdict, and none is left in the record while a verification is under way. |
| `WorktreeDelivery.PublishedContainsTarget` | runtime/worktree_delivery.py:116-137 | Unless a writer rewound the integration checkout before the candidate was fixed, the published candidate contains its target. |
| `WorktreeDelivery.CandidateContains` | runtime/worktree_delivery.py:116-137 | A candidate contains an older commit if and only if the head of the integration checkout or the source did at the merge. |
| `WorktreeRewind.RewoundCandidateMissesTarget` | runtime/worktree_delivery.py:111-266 | A reachable run in which another writer resets the integration checkout before the merge, the verification passes, and the delivery branch is created without the target in it. |
| `WorktreeRewind.MergedCanBePublished` | runtime/worktree_delivery.py:137-266 | From every reachable world in which the merge is done and nothing stands in the way, some run creates the delivery branch at the candidate. |
| `WorktreeDelivery.PublishingIsStable` | runtime/worktree_delivery.py:239-266 | Whenever and however often the branch of a delivery is created, it gets the same commit. |
| `WorktreeDelivery.JudgedBySuccess` | runtime/worktree_delivery.py:216-228 | A verification is judged passed only when its command succeeded. |
| `WorktreeDelivery.PassedMeansJudged` | runtime/worktree_delivery.py:216-228 | A recorded pass goes back to a judgement in the run, made on the clean checkout at the candidate. |
| `WorktreeDelivery.ServiceMovesNoRef` | runtime/worktree_delivery.py:253-276 | The service never moves or deletes an existing ref, and the only refs it adds are candidates and delivery branches. |
| `WorktreeDelivery.StepKeepsInv` | runtime/worktree_delivery.py:87-266 | Every step keeps all records, stored or in a process's hands, consistent with their inputs, their candidate and their passes; history only grows. |
| `WorktreeDeliveryServices.WorktreeDeliveryService.Prepare` | runtime/worktree_delivery.py:87-150 | A successful preparation has its inputs registered and its candidate held by a dedicated ref, whatever others did meanwhile; an unsuccessful one met one of the listed obstacles in a reachable state. |
| `WorktreeDeliveryServices.WorktreeDeliveryService.JudgeRun` | runtime/worktree_delivery.py:216-228 | The pass is the command's success together with an unchanged clean candidate, and is recorded. |
| `WorktreeDeliveryServices.WorktreeDeliveryService.Verify` | runtime/worktree_delivery.py:183-237 | Reports success only for a command that succeeded and a recorded pass, and withholds it only for a failure on the way, a held lock or lease, a candidate that is not verifiable, or a checkout the command changed. |
| `WorktreeDeliveryServices.WorktreeDeliveryService.LockCurrent` | runtime/worktree_delivery.py:243-248 | Publishing goes on exactly when the lock was free and the record was verified, passed and shown current. |
| `WorktreeDeliveryServices.WorktreeDeliveryService.CreateBranch` | runtime/worktree_delivery.py:259-276 | The ref transaction succeeds exactly when the target is unmoved and the branch absent, and then adds just that branch. |
| `WorktreeDeliveryServices.WorktreeDeliveryService.Publish` | runtime/worktree_delivery.py:239-266 | What is saved as published has a recorded pass and the commit its dedicated ref holds; publication fails only for a held lock, a record that is not current and passed, a different branch, or a target that moved. |
| `IncrementalIngest.SyncEqualsRebuildIff` | knowledge/incremental.py:53-98 | One completed synchronisation leaves what a full rebuild makes if and only if the saved state told the truth about the index. |
| `IncrementalIngest.HoldsIffRebuilt` | knowledge/incremental.py:53-98 | Holding exactly the files of the tree is the same as being their rebuild, in any listing order. |
| `IncrementalIngest.ConsistentIsRecoverable` | knowledge/incremental.py:53-98 | A consistent state is truthful for every later tree. |
| `IncrementalIngest.ForgottenStateLeavesOrphans` | knowledge/incremental.py:113-125 | An unreadable state file is harmless exactly when the index has no chunks outside the tree. |
| `IncrementalIngest.NothingChangedNothingIndexed` | knowledge/incremental.py:72-77 | Nothing is indexed exactly when no listed file changed. |
| `IncrementalIngest.SecurityIndex.UpsertChunks` | knowledge/security_rag.py:141-160 | Batches write the chunks in order; a failure leaves a prefix of them written. |
| `IncrementalIngest.SecurityIndex.DeleteFileChunks` | knowledge/security_rag.py:162-173 | Removes the chunks of that path and no others, or nothing when it fails first. |
| `IncrementalIngest.IncrementalIngester.Sync` | knowledge/incremental.py:53-98 | The whole method: rebuild equality exactly for truthful states, exact counters, and stopped anywhere it leaves a state from which the next run reaches the rebuild. |
| `SemanticSplitter.EndsIff` | knowledge/security_rag.py:966-1024 | For every chunk size and overlap: the loop ends on every text if and only if the chunk size is positive and the overlap below its least advance. |
| `SemanticSplitter.TrapHolds` | knowledge/security_rag.py:966-1024 | For every chunk size and every overlap at or above the least advance, a text on which the first chunk is that short, the next starts at zero again, and the loop never ends. |
| `SemanticSplitter.ChunkAdvances` | knowledge/security_rag.py:972-977 | No chunk but the last is shorter than the least advance of the chunk size. |
| `SemanticSplitter.Advances` | knowledge/security_rag.py:966-1024 | Below the least advance each round starts strictly later, from every position of every text. |
| `SemanticSplitter.NothingIsLost` | knowledge/security_rag.py:966-985 | Every character that is not blank is in an emitted chunk, at its place, and no interval exceeds five quarters of the chunk size. |
| `SemanticSplitter.LastOfIsLastBoundary` | knowledge/security_rag.py:988-998 | The split point is a boundary and no boundary in the range comes after it. |
| `SemanticSplitter.OverlapStart` | knowledge/security_rag.py:1001-1011 | The next chunk starts at or before the end of this one, within the overlap, and before it when there is an overlap. |
| `SemanticSplitter.AvoidOpenFence` | knowledge/security_rag.py:1014-1024 | An end is moved back only past the middle and forward only by a quarter. |
| `SemanticSplitter.FindIsFirst` | knowledge/security_rag.py:1001-1011 | What the searches for a paragraph, a line or a fence find is a match, and the first one. |
| `SemanticSplitter.StripIsEmptyIff` | knowledge/security_rag.py:977-979 | A piece is dropped exactly when it is blank. |
| `SemanticSplitter.StripKeeps` | knowledge/security_rag.py:977-979 | Stripping keeps every character that is not blank, shifted by the leading blanks. |
| `SemanticSplitter.SplitSemanticText` | knowledge/security_rag.py:966-985 | The loop, on every text and every setting on which it ends: its intervals start at zero, join without a gap and reach the end, and its chunks are the non-blank ones, stripped. |
| `ChatStream.StreamEqualsWhole` | models/provider.py:338-450 | For every cutting of a completed message, with tool-call fragments interleaved and usage chunks anywhere, the streamed call gives what the whole call gives. |
| `ChatStream.AcceptedStreamsAreCuts` | models/provider.py:381-433 | Whatever a stream returns is what the whole call returns for the message the stream cuts. |
| `ChatStream.BrokenEndsAreRejected` | models/provider.py:381-418 | A stream without a terminal, or with a choice after it, is rejected. |
| `ChatStream.IncreasingIsSorted` | models/provider.py:420-430 | Sorting the indices gives the only increasing sequence of them, so calls have one order. |
| `ChatStream.StreamChat` | models/provider.py:338-450 | The loop returns the first fault, the missing end or the assembled message; the pieces handed out are non-empty and join to the content. |
| `ResponsesStream.StreamResponses` | models/provider.py:494-628 | The loop returns a reply exactly for streams that end with a completed response no earlier event contradicts; its calls are those of that response. |
| `ResponsesStream.CompletedIsAuthoritative` | models/provider.py:605-628 | An accepted stream returns the calls of the completed response alone, and its text too unless it has none. |
| `ResponsesStream.SplitStreamsAreAccepted` | models/provider.py:529-588 | A stream whose pieces split the final arguments in order, interleaved in any way, is accepted whenever the whole call is. |
| `ResponsesStream.Validate` | models/provider.py:1016-1027 | The final check finds exactly the streamed calls and native items that contradict the completed output. |
| `NativeContext.CommitsAreSerial` | models/context_state.py:105-146 | Any interleaving of calls leaves what its committed calls leave when each is prepared and committed on its own, in commit order. |
| `NativeContext.InterleavedWindow` | models/context_state.py:105-146 | After any interleaving the window is the last replacement of the current lineage followed by all later inputs and outputs, and the revision counts its commits. |
| `NativeContext.WindowIsConcatenation` | models/context_state.py:116-146 | The same for calls one after another. |
| `NativeContext.TornPrepareDropsItems` | models/context_state.py:105-113 | Preparing has to be one step: loaded before a commit and digested after it, a transaction would drop the other call's items. |
| `NativeContext.Session.PrepareNativeContext` | models/context_state.py:105-113 | Preparing reads only, and fails exactly for a foreign session or malformed items. |
| `NativeContext.Session.CommitNativeContext` | models/context_state.py:116-146 | Commits exactly when nothing changed since the preparation and the response fits; what is stored can be loaded again; otherwise nothing changes. |
| `ModelPool.HealthOfStreak` | models/model_pool.py:257-283 | A profile's failure count is its present run of failures, and its circuit was opened by a forced failure or one that completed the threshold within it. |
| `ModelPool.DisabledOnlyByStreak` | models/model_pool.py:239-283 | Without forced disables a profile is unavailable only after a full threshold of failures in a row since its last success. |
| `ModelPool.StreakDisables` | models/model_pool.py:265-283 | A full threshold of failures in a row does open the circuit, for the cooldown after the last. |
| `ModelPool.OneProfileSpeaks` | models/model_pool.py:430-490 | All text a streamed call hands out comes from the last profile that was tried. |
| `ModelPool.DistinctIsDistinct` | models/model_pool.py:204-221 | The chain has each profile once and no profile that was not listed or a fallback. |
| `ModelPool.ModelPool.RouteProfileNames` | models/model_pool.py:204-221 | The chain of a route: the listed profiles each followed by its fallbacks, first occurrences only; unknown names raise. |
| `ModelPool.ModelPool.MarkProfileFailure` | models/model_pool.py:265-283 | Counts the failure and opens the circuit at the threshold or when forced, for this profile only. |
| `ModelPool.ModelPool.MarkProfileSuccess` | models/model_pool.py:257-263 | Closes the circuit and clears the count, for this profile only. |
| `ModelPool.RoutedModelProvider.CallWithFallbacks` | models/model_pool.py:419-498 | Tries a prefix of the chain, each profile once: retryable silent failures, then one success, one final failure, or none left; attempts, retry count and health histories follow. |
| `ModelPool.RoutedModelProvider.Call` | models/model_pool.py:419-498 | The same from the route's names: the chain tried is the available part of the route's chain, and all text comes from one profile of it. |
| `Caches.LastUsesCompose` | memory/embeddings.py:180-186 | Forgetting all but the most recent uses before or after a use comes to the same. |
| `Caches.UsesAreByLastUse` | memory/embeddings.py:167-186 | The order kept is the order of last calls. |
| `Caches.UsesAreCalls` | memory/embeddings.py:167-186 | The keys in use are exactly those that were asked for. |
| `Caches.UseOnRecent` | memory/embeddings.py:167-186 | A cache that keeps exactly the keys used last still does after one more use. |
| `Caches.RunIsSound` | memory/embeddings.py:124-186 | After any calls, failed ones among them, the size bound holds and what the cache answers is what the provider would. |
| `Caches.RunIsInOrder` | memory/embeddings.py:124-186 | After any calls the keys stand in the order of their last successful use. |
| `Caches.LeavesOnlyWhen` | memory/embeddings.py:124-186 | In any sequence of calls a key leaves the cache only when it had expired and a call for it failed, or when the cache is full of keys that were all used after it. |
| `Caches.KeepsRecentIff` | memory/embeddings.py:124-186 | After every call the cache holds exactly the keys last used with success if and only if no failed call took an expired entry away. |
| `Caches.OrderedCache.Get` | memory/embeddings.py:167-178 | A hit moves to the end, an expired entry is removed, a miss changes nothing. |
| `Caches.OrderedCache.Put` | memory/embeddings.py:180-186 | The entry goes to the end and the oldest ones go until the size fits. |
| `Caches.CachedEmbeddingProvider.EmbedDense` | memory/embeddings.py:124-133 | Fails exactly when the provider raises and no fresh entry is there, else answers what the provider answers; the new entries are one step of the run the other rows are about. |
| `Caches.CachedEmbeddingProvider.EmbedSparse` | memory/embeddings.py:135-145 | The same for sparse embeddings. |
| `Caches.CachedSecurityIndex.Search` | knowledge/caching.py:23-50 | Each answer is one the index gave to that request and no older than the time to live; the size bound holds and using an answer makes it the last to go. |
| `EvaluationLedger.CodingBenchmarkHarness.Run` | evaluation/harness.py:119-225 | Wherever something raises, the ledger ends with exactly one row for each planned id, in order: finished rows kept, the one in flight marked, the rest not run. |
| `EvaluationLedger.FillingCompletes` | evaluation/context_experiments.py:254-258 | Filling up a valid ledger gives every expected id exactly one row. |
| `EvaluationLedger.CellEndsWell` | evaluation/context_experiments.py:316-357 | A cell ends complete or still marked unfinished, except for an interruption in its handler's gap. |
| `EvaluationLedger.GapIffIncomplete` | evaluation/context_experiments.py:342-355 | A cell is closed incomplete if and only if the interruption falls between its handler's status update and its filling up, and the last ledger lacked an id. |
| `EvaluationLedger.ContextExperiment.Apply` | evaluation/context_experiments.py:226-237 | A ledger with unknown or doubled ids is refused and changes nothing. |
| `EvaluationLedger.ContextExperiment.RunMatrix` | evaluation/context_experiments.py:306-383 | Wherever the one interruption falls, every cell ends closed and holds each expected id exactly once, but for a cell struck in that gap. |
| `TokenBudget.GrantCoversReserve` | runtime/token_estimator.py:56-123 | A prompt within the limit is granted at least the reserve, or all that was asked for, or the provider's own cap. |
| `TokenBudget.PromptAndGrantFit` | runtime/token_estimator.py:82-123 | Prompt and grant together never exceed a window of at least two tokens. |
| `TokenBudget.WindowHoldsIff` | runtime/token_estimator.py:82-123 | That holds for all providers, requests and prompts if and only if the window has at least two tokens. |
| `TokenBudget.ReserveFits` | runtime/token_estimator.py:56-79 | The reserve is at most a fifth of the window and at most what was asked for. |

## Left out

- Git subprocesses, filters, hooks, path checks, file permissions and virtual environments: only
  commits, ancestry, refs, heads and dirty flags are modelled.
- SQL, Qdrant, HTTP and SDK calls: each is one step that may fail before or after its effect.
- Metadata dictionaries, evidence payloads beyond their ids, and the trimming of owner ids.
- Normalization, similarity, the resolver, ranking, lexical relevance, parsing of tool arguments
  and chunking of files: arbitrary functions.
- Two or more synchronizers, and liveness after a synchronizer dies with rows in processing.
- The lock of a repository around `git worktree add` and `remove`, and quarantine requested by hand
  from outside a lease: the model's processes change a record only from the positions shown.
- Refs under the service's own prefix moved or deleted by hand: they are taken to be only ever created,
  as the service creates them. A worktree's own branch is likewise only moved by its writers: the
  service never deletes it, and removal keeps it.
- The trimming and quoting of names, aliases of purposes, and building the pool from the environment.
- The wall clock: every operation takes its time as a parameter.
- Text normalization before splitting (line ends, runs of blank lines, outer blanks): the splitter
  is stated for the text it then works on.
- Chunk sizes below zero, for which Python's slices count from the end of the text.
- IncrementalIngest.IncrementalIngester.Sync: a file's content is a function of its path, time stamp
  and size, and its key in the state stands for its path, as the root is fixed.
- WorktreeServices.WorktreeService.Checkpoint: says what a success means, not every reason for a failure.
- Which model name a profile is asked for, and what metadata a routed answer carries besides the
  profile, the attempts and the retry count.
- Sharing of the cached list of hits with callers, who could change it in place.
- Threads inside one cache: each lookup and each store is taken as one step, calls one after another.
- TokenBudget.GrantCoversReserve: the ratios 0.85 and 0.20 are exact fractions; for windows below
  2 to the 48th the rounded products have the same integer part.
- Reasoning text, usage counters and the raw message a response carries besides content and calls.
- Summaries, provenance and reports of evaluations, and whether a finished cell counts as unsupported
  by what its rows say; only the rows and how a cell was closed are modelled.
- Keyword routing and hybrid search of the security index: thresholds over scores, no protocol.
