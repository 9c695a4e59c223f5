# Verification of DocSpec's ledger protocols and algorithms

This project models the parts of DocSpec whose correctness is hardest to see from the code and proves their
properties with Dafny 4.11. `dafny verify dfyconfig.toml` checks everything.

DocSpec keeps an immutable ledger of operations, results and bulk states. Four groups are modelled:

1. **The recoverable operation protocol.** `RunOnce` is a machine whose actions are the single ledger commits and
   reads of one request: start, produce, stage, journal, publish, index, recover, remove, crash. A disabled action changes nothing, so a
   run is any sequence of actions, by any number of callers. `RunOnceCall` has the same operations as methods with
   a kill budget; each proves that it is a run of that machine. `DocumentRun` is the machine of one document run
   with suspension, a compare-and-set claim, and resumption. `Reuse` chooses retained results while other writers change the ledger
   between any two steps. `DependencyFold` folds omission and supplement evidence. `ResolveMany` orders producers,
   publications and yielded choices, as `ResolvePlan` and `Batching` describe.
2. **Removal of retained bytes.** `PhysicalIndex` is the memoised marking, `Removal` the machine of publications,
   removals, crashes and resumes, `RemovalSweep` the loops that mark and sweep.
3. **State derivation and verification.** `Derivation` freezes a batch (digest, spool, edits), `Revision` resolves
   membership edits, `EditProvenance` checks value edits in split groups, `ExactText` and `JsonText` are the exact
   spelling and a full JSON reader and printer, `ReceiptJoin` the one-to-one join, `JsonChanges` the structural difference, `PairedRows` and
   `CatalogPreview` the outer merge and the bounded preview.
4. **Stand-alone algorithms.** `OrderedKey` and `PolicyWorkspace`, `Apportionment`, `BoundedMap`, `GroupRows`,
   `ReceiptLog`, `Framing` and `SuppliedRecords`, `StringEscape`, `PhraseMatch`.

`Prelude`, `Ordering` and `Replacing` hold shared definitions.

## Assumptions

Stated once, for groups 1 and 2: each ledger commit is atomic; progress is append-only with a compare-and-set on the
latest entry; a request guard admits one call of a request and a content guard keeps removals and publications apart;
a commit checks the evidence versions it was prepared under; beginning a removal makes its keys unavailable and
records every target as pending in one commit; minted identities are fresh. Hash functions are uninterpreted, and no
property assumes that they have no collisions unless it says so. The scalar spellings of `ExactText` and the canonical
encoder of `Derivation` are parameters with the laws stated by `Lawful`.

## Where the code and its descriptions disagree, or a promise fails

- Evidence accepted in the order it was recorded can be refused when it is read again in identity order
  (`DependencyFold.AdmittedThenRefused`); `DependencyFold.AcceptedInEveryOrder` says exactly when it cannot.
- An abandoned journal whose bytes were collected becomes recoverable again when its execution is retained anew
  (`Removal.RevivalLosesJournal`); `Removal.StoredStep` says exactly when.
- When a flush that an item's size forces fails, the item in hand is completed but never attempted
  (`ResolvePlan.LostExample`); `ResolvePlan.LostIff` says exactly when an item is lost. A producer's exception loses
  nothing.
- A largest-remainder quota can exceed its population, so a selection can draw fewer rows than wanted
  (`Apportionment.OverdrawExample`); `Apportionment.OverdrawnIff` and `Apportionment.DrawnIff` say exactly when.
- The row-group search is described as finding the most rows a group may hold, and can end far below
  (`GroupRows.LargerCanFit`); `GroupRows.FindsBestIff` says exactly when it does not.
- Removal candidates are described as unprotected, but the listing includes protected ones, which are then recorded
  as retained (src/docspec/application/core_maintenance.py:50-54); `PhysicalIndex.InventoryMeans` says which are both.
- A removal of a key the base does not have fails the whole derivation (`Derivation.DerivedMembers`).

## Model

| member | source | states |
|---|---|---|
| RunOnce.AtMostOneJournal | src/docspec/application/core_execution.py:431-561 | over every interleaving of calls, crashes and removals, at most one attempt of a request ever has a publication journal, and it gets it once |
| RunOnce.NoWorkAfterJournal | src/docspec/application/core_execution.py:431-561 | once a journal is recorded the producer is never invoked again; no execution is worked twice |
| RunOnce.EveryAnswerIsTheJournaledOutput | src/docspec/application/core_execution.py:431-561 | every returning call gives the output completed under the one journal recorded before it; all returning calls agree |
| RunOnce.AnswersAreAvailable | src/docspec/application/core_execution.py:550-555 | over all runs, the step that answers a call answers with a result that is retained and available at that moment |
| RunOnce.InvStep | src/docspec/application/core_execution.py:291-360 | every single step, enabled or not, keeps the invariant: one live call, phases in agreement with the ledger, at most one journal, log and ledger in agreement |
| RunOnceCall.Operations.RunOnce | src/docspec/application/core_execution.py:532-561 | one call under a kill at any commit: busy exactly when another call is alive; a journaled attempt is finished and its output returned, without invoking the producer; an answer is a result retained and available; where a retained result is unavailable it never answers, changes neither the attempts nor the log, and raises unless killed; killed only by its budget, raising only for its producer, its publication or an unavailable result; without faults the answer is the producer's |
| RunOnceCall.Operations.FindAttempt | src/docspec/application/core_execution.py:547-560 | the scan changes nothing, stops at an attempt with a journal or a retained result, raises for an unavailable one and goes on only if every retained result is available, and reports none only when every listed attempt was ruled out |
| RunOnceCall.Operations.PublishJournal | src/docspec/application/core_execution.py:480-502 | an answer is the journaled output, retained; a publication that raises leaves an interruption entry and the attempt otherwise as it was; the journal is there whatever happens, and only a kill budget kills |
| RunOnceCall.Operations.RecoverJournal | src/docspec/application/core_execution.py:504-524 | recovery never invokes the producer and answers with the journaled output, retained and available |
| RunOnceCall.Operations.Work | src/docspec/application/core_execution.py:291-358 | a fresh attempt invokes the producer at most once and answers only with its output, journaled |
| RunOnceCall.NothingFound | src/docspec/application/core_execution.py:532-561 | in every reachable state, a scan that has ruled out every attempt means no attempt has a journal |
| DocumentRun.OneControllingExecution | src/docspec/application/document_run.py:41-103 | over every interleaving of callers and kills: one execution for a run, and at most one live call working for it |
| DocumentRun.CheckpointClaimedOnce | src/docspec/application/core_execution.py:391-429 | each claim directly follows the checkpoint it names, and no checkpoint is claimed twice, with any number of concurrent resumers |
| DocumentRun.CountersNeverReset | src/docspec/application/document_run.py:15-50 | a working call, the latest checkpoint and every returned accounting hold all the work ever charged to the run |
| DocumentRun.ContinuesFromSaved | src/docspec/application/core_execution.py:391-429 | a continuation starts from exactly the counters its checkpoint saved |
| DocumentRun.KilledWorkIsNeverRestarted | src/docspec/application/document_run.py:57-79 | after a kill without checkpoint and journal nothing works, records or returns again, whoever calls, and a reader of the progress is refused |
| DocumentRun.CheckpointCanBeContinued | src/docspec/application/document_run.py:57-79 | a checkpointed run is not lost: a call that meets no other continues from its saved counters |
| DocumentRun.FirstCallWorks | src/docspec/application/document_run.py:80-86 | the first call of a run starts its one execution and works from zero counters |
| DocumentRun.RetainedIsReturned | src/docspec/application/document_run.py:61-66 | a call of a finished run that meets no other changes nothing and returns all the work ever charged to the run |
| DocumentRun.JournalIsPublished | src/docspec/application/document_run.py:67-77 | a run killed after its journal was recorded is published by the next call that meets no other, which returns all the work ever charged to it |
| DocumentRun.WorkIsReturned | src/docspec/application/core_execution.py:431-502 | a working call that finishes is journaled, retained and returned with all the work ever charged to the run |
| DocumentRun.WorkIsCheckpointed | src/docspec/application/core_execution.py:360-379 | a working call that is suspended leaves a checkpoint of all the work charged to the run |
| DocumentRun.InvStep | src/docspec/application/document_run.py:41-103 | every step keeps: one attempt, one controlling call, progress identities distinct, claims right after their checkpoints, journals and checkpoints exclusive |
| Reuse.ChooseMany | src/docspec/application/core_reuse.py:110-160 | the code refuses exactly when a prior choice does not match, and otherwise does what `Chosen` says, of which the next rows speak; a prior choice is given as it is, a new one stands in the ledger and names the identity, request, definition, target and labels asked for |
| Reuse.AssociationsJustified | src/docspec/application/core_reuse.py:110-160 | in every interleaving with other writers, each association the ledger gained from this call was committed right after the policy accepted the result, which meant what the request wants, under the very facts the commit saw, available and of the version it was prepared under; it is the choice of that request |
| Reuse.OneAssociationEach | src/docspec/application/core_reuse.py:110-160 | at most one association for a request |
| Reuse.ChoicesTraced | src/docspec/application/core_reuse.py:110-160 | every new choice is in the ledger, and was added by this call or, the same selection, by another writer |
| Reuse.ChoiceComesBack | src/docspec/application/core_reuse.py:54-108 | across the two operations: whatever other writers did, a choice whose result is available when the call ends is a matching prior choice for the same call, and is the one that call is given back |
| Reuse.UndisturbedRepeats | src/docspec/application/core_reuse.py:54-160 | with no other writer at work the same calls made again are not refused and give exactly the same choices |
| Reuse.FirstIsChosen | src/docspec/adapters/storage/ledger.py:756-770 | of the candidates in their listing order the first acceptable one is chosen: each one listed before it was declined |
| Reuse.PriorsStand | src/docspec/application/core_reuse.py:110-160 | a prior choice is given as it is, and neither assessed nor put to the policy |
| Reuse.OpenSlotsDeclined | src/docspec/application/core_reuse.py:128-160 | a request stays without choice only if each of its candidates was assessed and did not correspond, or was at once refused by the policy, or has its identity taken, or is no longer current under the version it was found with |
| Reuse.UndisturbedChooses | src/docspec/application/core_reuse.py:110-160 | with no other writer at work, a request with a candidate that corresponds and passes the policy gets a choice |
| Reuse.ExistingMany | src/docspec/application/core_reuse.py:54-103 | prior choices are recovered as retained, whatever the policy; refused exactly when an identity names another request, definition, target or labels, or its result is unavailable |
| Reuse.TryCandidate | src/docspec/application/core_reuse.py:128-160 | assessed afresh; if it corresponds the policy is consulted, once, with the facts just read; if that accepts, published under the version it was found with; every step is recorded as it happens |
| Reuse.PublishChoice | src/docspec/application/core_reuse.py:144-160 | the slot is filled exactly when the ledger ends with this selection, whoever added it: a refused commit leaves it open, another caller's equal selection is adopted |
| Reuse.Ledger.Publish | src/docspec/application/core_publication.py:682-717 | a selection is added only if its identity is free and its result is current under the expected version and corresponds under what the commit sees |
| Reuse.Ledger.Commit | src/docspec/adapters/storage/ledger.py:596-602 | adds exactly when the identity is free and the version is current, and succeeds exactly when the ledger then holds this selection |
| Reuse.CandidatesMean | src/docspec/adapters/storage/ledger.py:756-770 | a candidate is listed exactly when it is an available result indexed under the digest the request wants, with its version |
| DependencyFold.Confluent | src/docspec/application/core_dependencies.py:141-195 | two accepted orders of the same evidence give the same resource, dependency and input maps and leave the same omissions open |
| DependencyFold.AcceptedDescribes | src/docspec/application/core_dependencies.py:141-195 | what an accepted fold ends in, described without any order: each correction is the one its resolved omissions were given |
| DependencyFold.AcceptedIff | src/docspec/application/core_dependencies.py:141-195 | a fold is accepted exactly when no two corrections disagree and every binding is known when it is used |
| DependencyFold.AcceptedInEveryOrder | src/docspec/application/core_dependencies.py:141-195 | accepted in one order, evidence is accepted in every order exactly when each supplement brings, or the original has, the input it binds |
| DependencyFold.AdmittedThenRefused | src/docspec/application/core_dependencies.py:113-195 | the condition is needed: evidence each of whose admissions succeeded, which a later read in identity order refuses |
| DependencyFold.OnlyResolvedNamesChange | src/docspec/application/core_dependencies.py:141-195 | only names with a resolved omission differ from the original declaration |
| DependencyFold.SupplementsStand | src/docspec/application/core_dependencies.py:157-192 | in an accepted fold each supplement has receipts and supersedes an omission of this result, which is resolved, and the name left out holds exactly the established resource or the dependency it observed, with its historical input |
| DependencyFold.OneSupplementIff | src/docspec/application/core_dependencies.py:157-192 | one omission with one supplement is accepted exactly for backed receipts, the right result, shape and name, and a binding that is original or brought along without contradicting the original |
| DependencyFold.FoldEvidence | src/docspec/application/core_dependencies.py:141-195 | the two loops compute the fold, refusals included |
| DependencyFold.ApplySupplement | src/docspec/application/core_dependencies.py:155-190 | the checks of one supplement, in order, are one step of the fold |
| ResolveMany.Resolver.ResolveMany | src/docspec/application/core_execution.py:571-636 | how the run ends, what it publishes, loses and yields is exactly what `ResolvePlan` computes from the calls, the limits and the publications that fail; choices are yielded in input order, never a new one before its publication; it raises for a publication exactly when the last event is a failing one; when a producer raises, all that completed before it, and nothing else, is attempted |
| ResolveMany.Resolver.RunProducers | src/docspec/application/core_execution.py:603-635 | one group makes exactly the greedy batches of what completes before the first producer that raises, up to the first publication that fails; a producer's exception escapes only after all of them |
| ResolveMany.Resolver.Flush | src/docspec/application/core_execution.py:604-610 | what is pending is cleared before it is published, so it is attempted exactly once |
| ResolveMany.Resolver.Hold | src/docspec/application/core_execution.py:623-629 | an item that would not fit flushes first; the batches still to come are those the limits force |
| ResolveMany.Resolver.YieldChoices | src/docspec/application/core_execution.py:636-636 | yields the group in order, each resolved choice after its publication |
| ResolveMany.Resolver.IndexResults | src/docspec/application/core_dependencies.py:370-415 | the commits are exactly the greedy batches of what is assessed before the first failure, up to the first commit that fails; a failing assessment raises after them |
| ResolveMany.BatchesHold | src/docspec/application/core_execution.py:571-636 | the batches made hold exactly what was attempted |
| ResolvePlan.ItemsIncrease | src/docspec/application/core_execution.py:571-636 | items have increasing identities, so attempting a list attempts each once |
| ResolvePlan.ChoiceTells | src/docspec/application/core_execution.py:603-627 | a call that does not raise is yielded as reused exactly when a retained result answers it, as suspended when its producer suspends, and as resolved exactly when it completed an item to publish |
| ResolvePlan.PlanHolds | src/docspec/application/core_execution.py:571-636 | the publications planned carry exactly what the calls complete before the first producer that raises, in order |
| ResolvePlan.FaultFree | src/docspec/application/core_execution.py:571-636 | when every publication succeeds, no producer raises and no description is too large, the run ends normally, loses nothing, publishes everything and yields every choice |
| ResolvePlan.ForcedIff | src/docspec/application/core_execution.py:623-635 | a publication makes room for an item exactly when the next one is of the same group |
| ResolvePlan.LostIff | src/docspec/application/core_execution.py:603-635 | an item is lost exactly when the first publication that fails is followed by another of its group; not when it is its group's last flush or the flush after a producer's exception |
| ResolvePlan.LostExample | src/docspec/application/core_execution.py:623-635 | such an input: two producers of 1001 records each, and a first publication that fails |
| Batching.BoundedRows | src/docspec/ports/record_storage.py:233-247 | groups of rows are the greedy batches; one oversized row is refused, and the group it would have joined or followed is not given out |
| Batching.GreedySplits | src/docspec/ports/record_storage.py:233-247 | the batches are consecutive, cover everything, and are within the limits unless a single item |
| Batching.GreedyIsForced | src/docspec/ports/record_storage.py:233-247 | every split is forced: no batch could have taken the first item of the next |
| Batching.GreedyIsFewest | src/docspec/ports/record_storage.py:233-247 | no split into consecutive batches within the limits has fewer batches |
| PhysicalIndex.Index.Inventory | src/docspec/application/core_maintenance.py:94-164 | the inventory that reads each layer and file once for each protection ends exactly where the unmemoised one does, refusals included |
| PhysicalIndex.Index.InventoryLayer | src/docspec/application/core_maintenance.py:94-101 | skipping a layer already read with this protection changes nothing |
| PhysicalIndex.Index.InventoryRecord | src/docspec/application/core_maintenance.py:103-143 | a record is expanded as its kind demands, which `ExpandsKept` describes; a kept state that needs a removed occurrence is refused |
| PhysicalIndex.Index.Add | src/docspec/application/core_maintenance.py:35-44 | one row for an address: protection and candidacy only accumulate; contradicting content is refused |
| PhysicalIndex.ExpandsKept | src/docspec/application/core_maintenance.py:94-143 | what is indexed for a record, told from manifests, layers and data files alone: its own blob, each file of each layer of its state manifest, each blob a data file of its entity layer names, the files and blobs of a selection, and nothing else |
| PhysicalIndex.InventoryRefusesIff | src/docspec/application/core_maintenance.py:35-44 | an inventory is refused exactly when a protected state holds a member of the scope, or what the items keep claims different bytes at one address |
| PhysicalIndex.InventoryMeans | src/docspec/application/core_maintenance.py:145-201 | an address is protected exactly when some protecting item reaches it through manifests, layers and data files, and a candidate likewise, in whatever order items come |
| PhysicalIndex.SkippedFiles | src/docspec/application/core_maintenance.py:103-143 | leaving out files already scanned with this protection leaves the table as it would be |
| Removal.NeverDeletesNeeded | src/docspec/application/core_maintenance.py:145-289 | after any run of publications, removals, crashes and resumes, no step deletes bytes that an available row outside the scope, a source layer, or a recoverable journal or checkpoint needs; only pending targets of the running sweep are deleted |
| Removal.GuardedRun | src/docspec/application/core_maintenance.py:222-289 | in every reachable state a running sweep protects everything needed |
| Removal.MarkingProtects | src/docspec/application/core_maintenance.py:145-220 | a successful marking protects exactly the addresses that the rest of the ledger reaches |
| Removal.MarkingCandidates | src/docspec/application/core_maintenance.py:145-164 | its candidates are exactly what the rows of the scope reach |
| Removal.SplitsIff | src/docspec/application/core_maintenance.py:103-124 | a marking refuses the scope exactly when a kept state, or one staged by a recoverable operation, has a member in it |
| Removal.FrontierOnDiskIff | src/docspec/application/core_maintenance.py:166-201 | the bytes checked when a journal or checkpoint is recorded are exactly those it will need |
| Removal.StoredStep | src/docspec/application/core_maintenance.py:145-289 | needed bytes stay on disk through every step, exactly unless a commit makes an execution available that had been abandoned with a journal or checkpoint whose bytes are gone |
| Removal.NeededStaysOnDisk | src/docspec/application/core_maintenance.py:145-289 | so over every run without such a commit, everything needed is on disk |
| Removal.RevivalLosesJournal | src/docspec/application/core_maintenance.py:166-201 | the exception is real: a run that ends with a recoverable journal whose bytes were collected |
| RemovalSweep.Maintenance.RemoveUnderPolicy | src/docspec/application/core_maintenance.py:222-259 | refused exactly for a key never retained, a state it would split, contradicting contents, a recoverable operation that requires the scope, a needed or contradicting orphan, nothing to remove, or a differing retry, and then nothing changes; a complete removal ends the availability of exactly its keys, targets exactly what its scope reaches and the orphans, deletes exactly those nothing else needs, and records each target as kept, deleted or absent accordingly; no outcome deletes anything else |
| RemovalSweep.Maintenance.ResumeRemoval | src/docspec/application/core_maintenance.py:261-271 | refused exactly when there is no such removal or the marking refuses; otherwise marks again without scope, and deletes exactly the unfinished targets that nothing needs; complete removals are left alone |
| RemovalSweep.Maintenance.DeletePending | src/docspec/application/core_maintenance.py:273-289 | every pending target ends deleted, absent or retained, unless a deletion raises, which is recorded as failed and ends the sweep; it completes exactly when no unprotected target fails; a kill leaves the rest pending |
| RemovalSweep.Maintenance.RetryRemoval | src/docspec/application/core_maintenance.py:233-242 | refused exactly for another scope, an orphan that is no target, or as a resume is; otherwise resumes |
| RemovalSweep.BeginProtects | src/docspec/adapters/storage/ledger.py:956-988 | beginning a removal ends the availability of exactly its keys, records exactly what the scope reaches and the orphans as pending, and protects exactly what the rest of the ledger needs |
| RemovalSweep.NewRefusesIff | src/docspec/application/core_maintenance.py:243-259 | the checks of a new removal, as they are made on the index, refuse exactly for the reasons stated over the ledger |
| RemovalSweep.BegunKeepsWhole | src/docspec/application/core_maintenance.py:103-143 | once a removal began, no available state has a member in the scope and no recoverable operation lacks a record it requires |
| Revision.ReplayResolves | src/docspec/adapters/storage/core_states.py:907-934 | the query that looks only at the previous and the last edit of each key refuses exactly when applying the edits one by one fails, and otherwise gives the same members |
| Revision.ResolveAgrees | src/docspec/adapters/storage/core_states.py:907-934 | the same for edits listed in any order, against their replay by sequence number |
| Revision.ResolvedOnce | src/docspec/adapters/storage/core_states.py:923-934 | what the query describes is one map |
| EditProvenance.Checker.CheckAll | src/docspec/application/core_edits.py:113-150 | a revision's value edits are accepted exactly when each is recorded and reproduces its result and no single value exceeds the read window; values are read once for each edit, in order |
| EditProvenance.Checker.CheckGroup | src/docspec/application/core_edits.py:117-148 | halving a group that does not fit changes neither the verdict nor the order of reads; the window stays within its limits |
| EditProvenance.Checker.CheckProvenance | src/docspec/application/core_edits.py:130-140 | provenance kept from the previous edit is as good as looking it up |
| EditProvenance.Checker.ChainReplays | src/docspec/application/core_edits.py:130-150 | along a chain of accepted edits the retained values are the first source with every patch applied in turn, each step made from its source by a successful execution |
| EditProvenance.Checker.Prefetch | src/docspec/application/core_execution.py:199-220 | the window is replaced and never exceeds its rows and bytes, also when it stops at a limit |
| Derivation.DerivedMembers | src/docspec/application/core_ingestion.py:79-154 | with a base the result is the base without the removals, overridden by the rows; it fails exactly when a removal names a key the base does not have |
| Derivation.UnmentionedKept | src/docspec/application/core_ingestion.py:79-104 | unmentioned members keep their occurrence; each row has its own; removed keys are gone |
| Derivation.FreshMembers | src/docspec/application/core_ingestion.py:160-208 | without a base exactly the rows: nothing is removed, and importing the spool makes each row a member under its own occurrence, and no other |
| Derivation.DigestDetermines | src/docspec/application/core_ingestion.py:137-149 | two batches feed the retry digest the same bytes exactly when their ordered rows and their sets of removals are equal |
| Derivation.ReplaySpool | src/docspec/application/core_ingestion.py:162-167 | reading the length-framed spool gives back every key and payload, in order |
| Derivation.EditBytesBound | src/docspec/application/core_ingestion.py:115-122 | the running size is the size of the encoded edit array plus one byte, so its bound bounds the array |
| Derivation.Freeze | src/docspec/application/core_ingestion.py:79-154 | freezing succeeds exactly for admissible batches, and then keeps the digest input, the spool and the numbered edits |
| Derivation.FrozenSpoolTells | src/docspec/application/core_ingestion.py:124-143 | the frozen spool can be read in one way only: an entry for each row, in order, under its key, with the payload of that key's occurrence and that row's value |
| Derivation.Batch.AddRow | src/docspec/application/core_ingestion.py:124-143 | a row is taken exactly when it and its key, payload and edit fit, and is then in digest, spool, keys and edits |
| Derivation.RowSpelled | src/docspec/application/core_ingestion.py:131-138 | the line put together from a key's and a value's bytes is the encoding of the two-item array |
| Derivation.ThawLines | src/docspec/application/core_ingestion.py:28-57 | the lines an upsert spools are read back as the rows it froze |
| ExactText.DecodesExact | src/docspec/adapters/generation_receipts.py:32-76 | decoding an exact spelling gives the value back, tuples as lists |
| ExactText.ExactInjective | src/docspec/adapters/generation_receipts.py:32-55 | two values have one spelling exactly when they differ only in tuples against lists |
| ExactText.AcceptsOneSpelling | src/docspec/adapters/generation_receipts.py:62-76 | the decoder accepts exactly the exact spellings, and gives a value whose only spelling is that text |
| ExactText.SpelledIff | src/docspec/adapters/generation_receipts.py:32-51 | a value can be spelled exactly when nothing unsupported is anywhere inside it |
| ExactText.PacksNorm | src/docspec/adapters/generation_receipts.py:49-50 | reading tuples as lists does not change the spelling |
| ExactText.PlainSpelled | src/docspec/adapters/generation_receipts.py:33-36 | the spelling of null, a truth value, an integer and a text: the tag in quotes and the value, in brackets |
| ExactText.ScalarSpelled | src/docspec/adapters/generation_receipts.py:37-46 | the spelling of each kind of scalar: its own tag in quotes and the quoted text of the scalar, in brackets |
| ExactText.ListSpelled | src/docspec/adapters/generation_receipts.py:49-50 | a list and a tuple are spelled as the list tag and, in brackets, the spellings of the items in order |
| ExactText.DictSpelled | src/docspec/adapters/generation_receipts.py:47-48 | a dict is spelled as its tag and, in brackets, a bracketed pair of quoted key and spelling for each entry, keys in order |
| JsonText.LoadsPrinted | src/docspec/adapters/generation_receipts.py:54-55 | the JSON reader undoes the compact printer |
| ReceiptJoin.Joins.VerifyReceipts | src/docspec/adapters/generation_receipts.py:136-187 | the verification accepts exactly the valid inputs |
| ReceiptJoin.Bijection | src/docspec/adapters/generation_receipts.py:178-187 | then accepted receipts and subject rows correspond one to one, matched on dataset, identity digest, version digest and identity text |
| ReceiptJoin.IdentitiesDiffer | src/docspec/adapters/generation_receipts.py:177-187 | so no two subject rows of a dataset share an identity |
| ReceiptJoin.ReceiptFixesRow | src/docspec/adapters/generation_receipts.py:180-185 | with an injective version digest a receipt fixes the whole row |
| ReceiptJoin.Joins.Insert | src/docspec/adapters/generation_receipts.py:137-168 | the unique indexes refuse a repeated receipt id and a second accepted receipt for a record |
| ReceiptJoin.Joins.Select | src/docspec/adapters/generation_receipts.py:178-185 | a subject takes its one accepted receipt unless it is used, and marks that one alone |
| JsonChanges.ChangesRebuild | src/docspec/application/comparison.py:20-40 | applying the changes at their pointers to the older value gives the newer one |
| JsonChanges.EmptyIffEqual | src/docspec/application/comparison.py:20-40 | nothing is reported exactly when the values are equal |
| JsonChanges.ChangesAreTrue | src/docspec/application/comparison.py:23-40 | each record gives what stands at its pointer on each side, absent or present, and the two differ: a missing member is never a null |
| JsonChanges.ChangesAreApart | src/docspec/application/comparison.py:30-40 | pointers are distinct and none names something inside another |
| JsonChanges.ReportedIff | src/docspec/application/comparison.py:20-40 | a place is reported exactly when the two sides differ there, are not both objects there, and are both objects at every level above it |
| JsonChanges.ChangesAreFinest | src/docspec/application/comparison.py:31-40 | no record has an object on both sides |
| JsonChanges.ChangesAreOrdered | src/docspec/application/comparison.py:32-38 | the pointers come in the order of their sorted keys, level by level |
| JsonChanges.KeyBack | src/docspec/application/comparison.py:37-37 | the two replacements of a key are undone by the two of section 4 of RFC 6901 |
| JsonChanges.PointerReads | src/docspec/application/comparison.py:36-38 | a pointer reads back as its tokens, whatever continues it |
| JsonChanges.Renders | src/docspec/application/comparison.py:20-40 | the recursion over path text is the recursion over tokens with pointers written out |
| PairedRows.Paired | src/docspec/application/comparison.py:43-70 | the merge of two strictly ordered streams is their full outer join in key order, each row once |
| PairedRows.AloneIff | src/docspec/application/comparison.py:60-70 | a row stands alone exactly when the other side has no row of its key |
| PairedRows.EveryKeyOnce | src/docspec/application/comparison.py:60-70 | every key of either side has exactly one pair |
| CatalogPreview.PreviewCatalog | src/docspec/application/catalog_preview.py:57-118 | sample, counts, changes and truncation flags of one pass: added, changed and unchanged make the newer catalog, removed, changed and unchanged the older one |
| CatalogPreview.CountsMean | src/docspec/application/catalog_preview.py:82-87 | added counts the keys only the newer catalog has, removed those only the older one has |
| CatalogPreview.CountsAddUp | src/docspec/application/catalog_preview.py:77-87 | the identities of the counts |
| CatalogPreview.SampleBounded | src/docspec/application/catalog_preview.py:45-54 | a sample holds both limits, counts its own bytes, and is a subsequence |
| CatalogPreview.LeftOutOnlyWhenFull | src/docspec/application/catalog_preview.py:45-54 | an entry is left out only if the sample, as it ends, has no place for it: all its entries taken, or too few bytes left |
| CatalogPreview.WholeIff | src/docspec/application/catalog_preview.py:99-109 | the truncation flag: a sample is the whole list exactly when it is as long |
| CatalogPreview.FieldsAreFirstTokens | src/docspec/application/catalog_preview.py:88-97 | the changed fields of a row are exactly the first tokens of its differences |
| CatalogPreview.EntryTells | src/docspec/application/catalog_preview.py:82-97 | an entry has the older row where there is one, says which rows are there and whether they differ, lists in order exactly the names under which they differ, and its differences make the newer row of the older one |
| CatalogPreview.EntriesAre | src/docspec/application/catalog_preview.py:82-97 | there is an entry for every pair whose rows differ and no other |
| ReceiptLog.RoundsReadBack | tools/fetch_attachment_sample.py:389-430 | from an empty receipt, after any number of sessions each killed at any byte, reading gives exactly the records whose final brace was written, in order, and never reports damage |
| ReceiptLog.SessionKeeps | tools/fetch_attachment_sample.py:419-430 | one session killed anywhere keeps what was there and adds its own surviving records |
| ReceiptLog.RepairIs | tools/fetch_attachment_sample.py:419-430 | repair drops a torn tail, gives a whole record its newline, and changes nothing else |
| ReceiptLog.ReadsFile | tools/fetch_attachment_sample.py:389-411 | any whole lines and whatever a kill left of one more read as exactly the records whose final brace survived |
| ReceiptLog.TornNeverParses | tools/fetch_attachment_sample.py:403-408 | a record without its final brace never parses |
| ReceiptLog.DamagedIff | tools/fetch_attachment_sample.py:403-408 | damage is reported exactly when a line other than an unterminated last one does not parse |
| ReceiptLog.ReceiptFile.ReadReceipt | tools/fetch_attachment_sample.py:389-411 | the loop over the lines computes the reading |
| ReceiptLog.ReceiptFile.AppendReceipt | tools/fetch_attachment_sample.py:419-430 | truncating and appending in place, killed at any byte, is the session; a damaged receipt is left as it was |
| JsonText.ValueStable | tools/fetch_attachment_sample.py:402-403 | a value read with text left over is the same value however the text goes on |
| OrderedKey.KeyOrder | src/docspec/adapters/catalog_policy_workspace.py:40-55 | encoded keys compare bytewise as their tuples do by UTF-16 code units, and no two tuples share an encoding |
| OrderedKey.BytesOrder | src/docspec/adapters/catalog_policy_workspace.py:35-55 | the order of the bytes is the lexicographic order of the parts |
| OrderedKey.KeyMeans | src/docspec/adapters/catalog_policy_workspace.py:40-55 | a key is encoded exactly when it has parts, none blank, none with a lone surrogate |
| OrderedKey.Encode | src/docspec/adapters/catalog_policy_workspace.py:40-55 | the loop over parts computes the encoding or the error of the first part at fault |
| OrderedKey.NotCodePointOrder | src/docspec/adapters/catalog_policy_workspace.py:40-55 | the order is not that of code points |
| PolicyWorkspace.PagesFit | src/docspec/adapters/catalog_policy_workspace.py:22-32 | the database and a journal of every page fit the allowance, and one more page would not; refused exactly below two pages |
| PolicyWorkspace.Workspace.PutPayload | src/docspec/adapters/catalog_policy_workspace.py:179-195 | stores under a new key, refuses an existing one, and changes nothing else |
| PolicyWorkspace.Workspace.Replace | src/docspec/adapters/catalog_policy_workspace.py:197-219 | supersedes an existing row, refuses an absent one |
| PolicyWorkspace.Workspace.Get | src/docspec/adapters/catalog_policy_workspace.py:221-230 | gives the payload stored under the key, or none |
| PolicyWorkspace.Workspace.IterOrdered | src/docspec/adapters/catalog_policy_workspace.py:232-249 | yields exactly the entries of the namespace with keys greater than the given one, in key order |
| PolicyWorkspace.Workspace.Commit | src/docspec/adapters/catalog_policy_workspace.py:159-167 | what was written so far survives |
| PolicyWorkspace.Workspace.Reopen | src/docspec/adapters/catalog_policy_workspace.py:159-167 | after a kill exactly the last commit is there |
| Apportionment.LargestRemainder | tools/select_attachment_sample.py:137-158 | the loop gives each kept key its quota |
| Apportionment.AllotsTotal | tools/select_attachment_sample.py:137-158 | the quotas add up to exactly the total |
| Apportionment.FloorOrCeiling | tools/select_attachment_sample.py:149-158 | each is one plus the floor of the exact share, or its ceiling where the share is no whole number |
| Apportionment.HeavierNeverLess | tools/select_attachment_sample.py:149-158 | a larger population never gets less, and equal ones differ by at most one |
| Apportionment.KeptHeaviest | tools/select_attachment_sample.py:144-146 | all keys stay, or exactly as many as the total, and none left out is heavier |
| Apportionment.BumpedHaveFractions | tools/select_attachment_sample.py:154-157 | the extra ones go to keys with a fraction, largest first |
| Apportionment.BumpedIff | tools/select_attachment_sample.py:154-157 | a key takes an extra one exactly when fewer fractions come before its own than ones are left over |
| Apportionment.OverdrawnIff | tools/select_attachment_sample.py:187-200 | for a total the populations can meet, a quota exceeds its population, by one, exactly when fewer fractions come before its own than ones are left over and its share reaches its population less one |
| Apportionment.DrawnIff | tools/select_attachment_sample.py:187-200 | the draw reaches what was wanted exactly when no key is overdrawn |
| Apportionment.OverdrawExample | tools/select_attachment_sample.py:187-200 | such an input: of four wanted from populations of three and one, three are drawn |
| BoundedMap.Run.Map | src/docspec/adapters/execution.py:19-44 | the run terminates for every order of completion; without an exception and a stopping consumer every item is submitted; otherwise the rest is cancelled |
| BoundedMap.AlwaysBounded | src/docspec/adapters/execution.py:29-37 | at every moment the calls in flight are at most the capacity |
| BoundedMap.SubmittedOnce | src/docspec/adapters/execution.py:30-36 | no item is submitted twice, and they are submitted in order |
| BoundedMap.AnsweredOnce | src/docspec/adapters/execution.py:38-41 | no call is answered twice |
| BoundedMap.CompletedYieldsAll | src/docspec/adapters/execution.py:28-44 | a completed run yielded every item of the source and nothing else |
| BoundedMap.EveryItemAccounted | src/docspec/adapters/execution.py:28-44 | a submitted item is in flight, answered, or cancelled |
| BoundedMap.WorkerCapacity | src/docspec/adapters/execution.py:10-16 | the smaller of two positive limits, refused unless both are positive |
| GroupRows.RowsPerGroup | tools/export_regulations_attributes.py:265-283 | the size found writes only groups within the target and is the cap or next to a size that does not; refused exactly when one vector does not fit |
| GroupRows.FindsBestIff | tools/export_regulations_attributes.py:265-283 | the search ends at the largest size that fits exactly when every smaller size that a bisection towards it tries fits |
| GroupRows.FindsBestWhenMonotone | tools/export_regulations_attributes.py:265-283 | so it does where every size below one that fits fits as well |
| GroupRows.LargestFits | tools/export_regulations_attributes.py:274-275 | the largest group is within the target exactly when every group is |
| GroupRows.RowGroup | tools/export_regulations_attributes.py:274-275 | a row is in the group of its place divided by the size |
| GroupRows.LargerCanFit | tools/export_regulations_attributes.py:278-283 | not always: six vectors of the exporter's own length and target where five fit, and the search ends at one |
| Framing.Hasher.AddPayload | src/docspec/adapters/framing.py:38-47 | one more framed payload, refused past the declared count |
| Framing.Hasher.Digest | src/docspec/adapters/framing.py:54-62 | the digest is taken of the batch form, and only when as many records came as were declared |
| Framing.Seal | src/docspec/adapters/framing.py:14-62 | a section through the hasher is its batch form |
| Framing.FramedInjective | src/docspec/adapters/framing.py:14-47 | two sections feed the hash the same bytes exactly when they are equal, as long as domains have no zero byte |
| Framing.NulCollides | src/docspec/adapters/framing.py:29-32 | with a zero byte in a domain two sections feed the same bytes |
| SuppliedRecords.Build | src/docspec/adapters/supplied_records.py:40-96 | a snapshot is built exactly for acceptable records, and is those records sorted with their framed digest |
| SuppliedRecords.OrderFree | src/docspec/adapters/supplied_records.py:40-96 | neither the snapshot nor whether there is one depends on the order of supply |
| SuppliedRecords.StateFixesPayloads | src/docspec/adapters/supplied_records.py:78-81 | equal digest inputs mean equal lists of payloads |
| SuppliedRecords.Take | src/docspec/adapters/supplied_records.py:58-70 | what the record and byte limits refuse while records arrive |
| StringEscape.ChainIsEscape | docs/history/probes/2026-09-23-admit-by-reference-spike.py:350-355 | the thirty-four replacements in sequence are the one-pass escape of section 3.2.2.2 of RFC 8785 |
| StringEscape.ChainLoop | docs/history/probes/2026-09-23-admit-by-reference-spike.py:350-355 | the loop that nests the replacements computes it |
| StringEscape.JcsIsCanonical | docs/history/probes/2026-09-23-admit-by-reference-spike.py:358-361 | the spelling chosen is canonical for every string; the engine's own is exactly when no control character needs a letter digit |
| StringEscape.RowReadsBack | docs/history/probes/2026-09-23-admit-by-reference-spike.py:364-367 | a row's text reads back as exactly its columns in key order, null for what is missing |
| PhraseMatch.FindAll | examples/phrase_match_processor.py:80-107 | all matches in order, or a refusal exactly when they exceed the count or byte limit |
| PhraseMatch.MatchIff | examples/phrase_match_processor.py:87-103 | the matches are exactly the vocabulary phrases that stand in the text between word boundaries, overlapping or not |
| PhraseMatch.OffsetsAreExact | src/docspec/processing/artifacts.py:63-71 | the bytes between a match's offsets are the encoding of its phrase |
| PhraseMatch.SearchPattern | examples/phrase_match_processor.py:87-103 | searching again one character after each start misses no occurrence |
| PhraseMatch.ByteOffsets | src/docspec/processing/artifacts.py:63-71 | the loop gives the byte offset of every character boundary |
| PhraseMatch.TiesAreEqual | examples/phrase_match_processor.py:104-104 | the sort key ties only for one phrase of one term at one place |

## Left out

- FloorOrCeiling: exact rationals with the pool as denominator, because rounding of floating-point shares is not modelled; neither is it in the other `Apportionment` members.
- FindAll: the case-sensitive path only; regular-expression case folding and the duration limit are not modelled, and the admission of the vocabulary is not part of this model.
- LoadsPrinted: the printer of arrays and scalars that exact spellings use; JSON objects are read but printed only in `StringEscape`.
- ReadReceipt: a receipt file is text of single-byte characters, because the writer escapes all others; invalid UTF-8 and byte-order marks are not modelled.
- VerifyReceipts: the checks of single rows that carry no state (shape, policy, witnesses, content digest) are one predicate.
- ChooseMany: a request and a definition are their exact texts, the digest a request wants is given, and records of one identity with different texts are not modelled; the window limits on the bytes read are left out.
- RemoveUnderPolicy: the policy record and the record links that block a removal are not modelled; they only refuse more.
- ReadUnicode: a lone surrogate escape is refused, because text is made of characters here; the decoder accepts it, so a receipt line with one is read by the code and reported as damaged by the model.
- RetainedIsReturned: a removal of what a finished document run produced is not part of this machine; the code then refuses to return it.
- RunOnce: one output for a request stands for its bindings, and upstream operations prepared together are not modelled.
- Inventory: what a record owns is a parameter (`World`); decoding records and paging through them is not modelled.
- DecodesExact: integers of any size; the interpreter's limit on digits is not modelled.
- IterOrdered: payloads are opaque; parsing them and requiring an object is not modelled, and SQLite itself is a map with commit and rollback.
- CheckAll: entities generated by the attempt itself are not read back, and streamed content references are values like others.
- SQLite, DuckDB, Iceberg, Parquet and S3 behaviour beyond the assumptions above.
- The byte and record budget of an operation context, and the events it records.
- `prepare_value_edits`, apart from the shared read window; `select_current` and dataset promotion after a derivation.
- The comparison of receipt schemas, policies and declarations before the join.
- The direct probe of attachment grids and the lockstep comparison of exported members: loops over remote or stored streams with easy results.
- Network fetching, retries, command lines, report text, wiring of schedulers and measurement probes.
