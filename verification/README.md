# Verified model of scpefe

scpefe keeps one encrypted document: a list of revisions sealed under one key, opened by up to nine
passwords, edited by sessions that publish whole replacement images through a host. This project
models the parts of it that decide what is kept, and proves what they promise.

- **The revision graph.** `RevisionRecords`, `GraphValidity` and `RevisionGraph` say what a valid graph is without
  the checker's bookkeeping. `GraphValidator` is the multi-pass checker, proved to accept exactly those graphs;
  `GraphMeaning` says once more what they are, by positions, paths and counts, and proves the two accounts equal.
  `SaveContent`, `MergeGraphs`, `Compaction` and `AppendEvent` say what the builders write and prove closure;
  `GraphBuilders` holds the builders with their loops and their self-checks; `DraftRuns` and `BuilderRuns` go over
  whole runs. `WrittenRecords` says field by field what each builder writes. `Lineage`, `Reconstruction`, `Patching`
  and `HistoryService` cover comparison of replicas, reading texts, diffs and retention; `LineageRuns` says what an
  earlier graph makes of a later one over every run of the builders, `Forks` when two runs have diverged, and
  `ForkedMerges` that they then merge.
- **The publication protocol.** `ContainerState` is the transition function, `StateRuns` its accounting over all
  runs, `EffectRuns` when each effect is due, `StateFields` what can change each field, and `StateProgress` what can
  always still be done. `ContainerCore`, `ContainerAgreement`, `Proposals`, `CredentialProposal` and
  `ContainerRequests` say how the parts of a container agree and when each request is accepted. `Container` is the
  class: every public call keeps its invariant, succeeds exactly under the stated condition, and leaves exactly the
  stated fields. `ContainerCalls` is the same calls as one function, `ContainerSession` proves that the class does
  just that, and `ContainerRuns` and `ContainerText` say what every sequence of calls keeps. `ContainerSteps` holds
  what single calls rely on. `ContainerAuthority` says who may publish what and under which name, `SettledEditors`
  that nobody edits under a password that is to be changed, `SubmittedText` how long typed text lasts, `BackupRuns`
  follows a backup from its attempt to the compaction it proves, and `PublicationTerms` says on what terms anything
  is published. `EditSession`, `MergeSession` and `BackupSession` are the other side: what a client that meets those
  terms can always do, from opening a document to its saved, merged or compacted image.
- **The image.** `Envelope`, `ImageOperations`, `PasswordSlots` and `CredentialChange` keep the wrapper array
  aligned with the slots, and `GrantedChanges` says that what was asked for is what opens afterwards; `MergeSave`
  picks the replicas of a merge; `LeaseProtocol`, `LeasePublications` and `SharedImage` follow the editing lease
  through many clients sharing one compare-and-swapped image, and `LeaseTime` and `SharedLease` say from when to
  when it keeps others out; `SharedDocument` says what all those published images keep from creation on: wrappers
  along the slots, a graph the builders can reach, and every published record; `DocumentCreation` makes the first
  image and goes over runs from there; `PublishedText` follows the text, and `TargetWrappers` says which changes in
  an observed target ask for the password again.
- **Failing inputs.** `GraphWitnesses` and `ContainerWitnesses` give, for properties that fail, the graph or the run
  of calls on which they do.
- **Supporting pieces.** `TextValidation` (UTF-8), `CborItems` and `CborCodec` (the deterministic item codec),
  `CborStandard` (its output against RFC 8949), `AncestorGraph` (the depth-first cycle check) and `WorkingCopy` (the
  editor's history and journal).

`dafny verify dfyconfig.toml` checks everything.

## Conventions

Identifiers are digests of the immutable part of a record under an injective function that is a
parameter everywhere (`Hash`, `Injective`). A wrapper opens for its own password and no other. Drawn
values (nonces, wrapper headers, slot identifiers, journal scopes) are parameters; where the code retries
until a value is unused, the parameter is required to be unused. The verdict on a password's strength, the CSV
check and the hexadecimal form of an identifier are parameters too. Clocks and the host's bytes arrive as
arguments. Integers are unbounded except where a bound decides something (times, the heartbeat counter,
64-bit CBOR arguments).

## What the proofs found

- A save removes a provisional tail before it writes. `validate_graph` allows that tail to carry merge
  sources, or to stand where the text below it was pruned; then the saved graph never decodes. `SaveFits`
  is the exact condition, and on graphs the builders made it always holds but for names and room. Failing graphs:
  `DiscardedMergeFails`, `DraftOnPrunedFails`.
- Retention assumes that available texts form a suffix. `validate_graph` does not enforce it, the builders keep
  it; without it a compaction is refused exactly when the chosen revision is pruned (`RetentionIsRefused`).
- A failing `prepare_merge` keeps the resolved text as submitted text once the text itself was acceptable
  (`FailedMergeTakesText`).
- A refused `unlock_document` is not without effect: when another slot's password authenticates but the state
  refuses the transition, the data and the submitted text of the previous slot are dropped. It refuses exactly while
  something is in flight or for incoherent rights (`RefusalIsExact`, `RefusedUnlockForgets`). If what is in flight is the
  release of the lease by a locked session, its verification restores the data without the text, and the own
  password then opens a screen with no text at all (`UnlockedWithoutText`). No other call does that
  (`TextKeptUnlessForgotten`).
- An accepted unlock with another slot's password replaces the submitted text by the committed one
  (`TextChanges`).
- `create` checks neither the upper length of the passwords, nor that they differ, nor the content type, which
  opening relies on; `UnopenableIsCreated` is a document it makes that no password opens. `CreatedIsAligned` is the
  exact condition under which a new image opens as it should. Its only caller refuses all of these first
  (`src/abi/context_abi.cpp:290-291` with 63-97, and `src/container/container.cpp:52-57`), so no host reaches them.
- A draft is the only thing ever lost. Over every run of the builders, and over every run of publications by any
  clients, published records stay, and a graph whose head is no longer held ended in a draft (`RunsKeepLineage`,
  `LostAtASave`, `EarlierImagesRollBack`).
- Raising an attention replaces a pending `reauthenticate` mark. The guarantee that only the changed
  wrapper unlocks again rests on the recorded target, not on the mark.
- An ordinary slot whose clock ran backwards is advised to confirm a takeover that is then refused
  (`ConfirmedTakeoverIsRefused`).
- In `prepare_activity_outcome` the comparison of the head with the attempt never fails, and the branches that
  restore fields after a refused begin or open are never taken.

## Model

| member | source | states |
|---|---|---|
| TextValidation.ValidUtf8 | src/format/text_validation.cpp:13-45 | the byte loop accepts a text if and only if some sequence of Unicode scalar values encodes to exactly these bytes |
| TextValidation.ValidCanonicalDocumentText | src/format/text_validation.cpp:47-57 | accepts exactly well-formed UTF-8 without a byte order mark and without carriage returns |
| TextValidation.ConcatWellFormed | src/format/text_validation.cpp:13-45 | accepted texts concatenate to accepted texts |
| TextValidation.UniqueScalars | src/format/text_validation.cpp:17-43 | the encoding is uniquely decodable: equal bytes spell equal scalar sequences |
| TextValidation.FirstScalar | src/format/text_validation.cpp:18-42 | well-formed text starts with an announced, minimal, non-surrogate encoding |
| TextValidation.CanonicalMeans | src/format/text_validation.cpp:47-57 | document text is exactly the encoding of scalar values that do not start with the mark U+FEFF and hold no carriage return |
| GraphValidator.ValidateGraph | src/format/revision_graph.cpp:415-537 | the multi-pass checker accepts exactly the graphs that are valid in the bookkeeping-free sense, and its flags are exactly the readable records of the forward fold |
| GraphValidator.CheckStep | src/format/revision_graph.cpp:422-450 | one iteration of the first pass decides exactly the local rules of the canonical line at that record |
| GraphValidator.CheckLine | src/format/revision_graph.cpp:418-454 | the first pass with its head comparison accepts exactly chains whose last canonical and last text-carrying records are the two heads |
| GraphValidator.CheckImports | src/format/revision_graph.cpp:455-463 | every import is owned by a later canonical merge |
| GraphValidator.Walk | src/format/revision_graph.cpp:467-482 | the depth-first walk with its pending stack meets exactly the records reachable from the merge through its own imports, and says whether it leaves them |
| GraphValidator.CheckMerges | src/format/revision_graph.cpp:464-490 | accepts exactly when each merge's imports form a closed path back to shared history |
| GraphValidator.CheckTexts | src/format/revision_graph.cpp:491-511 | the text pass accepts exactly lines that are never broken and end in a known text, and flags exactly the records with a known text |
| GraphValidator.CheckCompactions | src/format/revision_graph.cpp:512-536 | accepts exactly consistent compaction events: named cutoffs, exact retained counts, ascending cutoffs, and a pruned prefix before the latest |
| GraphLemmas.HeadIsLast | src/format/revision_graph.cpp:452-454 | in a valid graph the last record is canonical and is the head |
| GraphLemmas.NamedLater | src/format/revision_graph.cpp:415-490 | every record of a valid graph but the head is named by a later record |
| GraphLemmas.AllDescendToHead | src/format/revision_graph.cpp:424-429 | a set closed under references that holds the head holds every record: everything is an ancestor of the head |
| GraphLemmas.OnlyBaseline | src/format/revision_graph.cpp:436-438 | a valid graph has exactly one baseline, its first record |
| GraphLemmas.NeverBroken | src/format/revision_graph.cpp:494-511 | a line that is known at the end was consistent at every earlier record |
| AppendRecord.NothingNamesHead | src/format/revision_graph.cpp:424-454 | no record of a valid graph names its head |
| AppendRecord.FreshId | src/format/revision_graph.cpp:422-430 | a record naming the head never has the identifier of a record already present |
| AppendRecord.AppendContent | src/format/revision_graph.cpp:415-537 | appending a content record with a patch for the current text keeps every pass of the validator satisfied |
| AppendRecord.AppendPlainEvent | src/format/revision_graph.cpp:415-537 | appending an event that is no compaction keeps every pass of the validator satisfied |
| AppendRecord.DropTail | src/format/revision_graph.cpp:448-454 | removing a provisional tail that merged nothing keeps the graph valid when the text below it is known |
| GraphMeaning.GoodIsFormed | src/format/revision_graph.cpp:195-348 | a record is good exactly when it declares what its kind demands, is filled in, and stores what its storage form says, written out field by field |
| GraphMeaning.PlacedIsStep | src/format/revision_graph.cpp:422-450 | a record stands on the line exactly when it names the nearest canonical and the nearest text-carrying record before it, and refers only backwards |
| GraphMeaning.ImportsExplain | src/format/revision_graph.cpp:455-490 | imports and merges are accepted exactly when every import is reached from some later merge along references through imports alone, and every merge's way rejoins the line it stands on |
| GraphMeaning.TextsExplain | src/format/revision_graph.cpp:491-511 | the texts are accepted exactly when some assignment of texts to records fits every stored text, patch and pruned record and gives the last one a text |
| GraphMeaning.CompactionsExplain | src/format/revision_graph.cpp:512-536 | compaction events are accepted exactly when each cuts at one earlier text, counts the texts since, no later cut lies before it, and before the last cut all is pruned |
| GraphMeaning.ValidIsExplained | src/format/revision_graph.cpp:415-537 | a graph is valid exactly when all of these hold and its two heads are its last canonical and last text-carrying record |
| Patching.ApplyDelta | src/format/revision_graph.cpp:395-413 | the segment loop yields a text exactly when the patch applies, and then that text |
| Patching.DiffPatches | src/format/revision_graph.cpp:922-947 | for all byte strings the emitted prefix, insertion and suffix segments are in bounds, non-empty, sum to the target length, and patch the source to exactly the target |
| Patching.Diff | src/format/revision_graph.cpp:922-947 | the two scans and segment emission produce exactly that diff |
| Patching.DiffIsTight | src/format/revision_graph.cpp:922-947 | the patch a merge writes copies the longest common beginning and then the longest common end, and inserts only what lies between |
| Reconstruction.FindAnchor | src/format/revision_graph.cpp:350-372 | the backward search finds the nearest stored text exactly when the forward fold knows the text there |
| Reconstruction.ReconstructAt | src/format/revision_graph.cpp:350-393 | the backward-anchored reconstruction equals the forward fold and never reports a malformed graph |
| Reconstruction.Reconstruct | src/format/revision_graph.cpp:732-751 | reading by identifier returns the forward fold's text, events reading as the content they stand on |
| Reconstruction.ContentHeadReads | src/format/revision_graph.cpp:511 | the content head always reads, as the text its own record declares |
| Reconstruction.ReadsMatchHash | src/format/revision_graph.cpp:507-510 | every text that reads matches the stored content hash |
| Reconstruction.ReplicasAgree | src/format/revision_graph.cpp:507-510 | two replicas that can both read a revision read the same text |
| GraphBuilders.Decode | src/format/revision_graph.cpp:617-673 | decoding accepts exactly graphs within limits whose records are good, sealed by their digests, and valid; too many records is the only limit error |
| GraphBuilders.Checked | src/format/revision_graph.cpp:881 | a builder's self-check passes its output through exactly when it decodes |
| RevisionGraph.AppendGood | src/format/revision_graph.cpp:195-262 | one more well-formed record under its own digest keeps all records well formed and sealed |
| SaveContent.SaveCloses | src/format/revision_graph.cpp:777-883 | a permitted save that fits yields a graph that decodes and shows the saved text |
| SaveContent.UnfitSaveFails | src/format/revision_graph.cpp:793-797 | a permitted save that does not fit never yields a graph that decodes, so the fitting condition is exact |
| SaveContent.OrphanedImports | src/format/revision_graph.cpp:793-797 | taking away a provisional merge leaves imports without an owner, which never decode |
| SaveContent.BaseDecodes | src/format/revision_graph.cpp:793-805 | taking away a removable draft leaves a decodable graph with nothing provisional |
| GraphBuilders.SaveTo | src/format/revision_graph.cpp:777-883 | save_content returns exactly the specified graph when permitted and fitting, and an error otherwise |
| GraphBuilders.SameDraft | src/format/revision_graph.cpp:806-822 | the resealing test holds exactly when the draft has the same text and author |
| WrittenRecords.SaveWrites | src/format/revision_graph.cpp:777-883 | field by field, the last record of a saved graph: slot and time of the request, client name, address and device of the profile, actor name and address the slot's own unless empty, the submitted text, provisional exactly for a regular save |
| WrittenRecords.SaveSeals | src/format/revision_graph.cpp:799-818 | a manual save of a draft with the same text and author changes nothing but its provisional mark: the author stays the draft's own |
| DraftRuns.RunKeepsOneDraft | src/format/revision_graph.cpp:777-883 | after any run of regular saves exactly one provisional record exists, last, directly on the settled graph |
| DraftRuns.DiscardRestores | src/format/revision_graph.cpp:777-805 | any run of regular saves followed by a discard restores the original record list and both heads |
| DraftRuns.ManualSaveKeepsOne | src/format/revision_graph.cpp:806-883 | any run of regular saves followed by a manual save adds exactly one sealed record with the last text |
| AppendEvent.EventCloses | src/format/revision_graph.cpp:1137-1217 | a permitted event decodes if and only if there is room and its names and slots are good; neither content head nor text changes |
| WrittenRecords.EventWrites | src/format/revision_graph.cpp:1114-1217 | field by field, the record an event appends: who, when, from which client, what happened to which slot, in the order of preference of a save |
| AppendEvent.LeaseReplacementCloses | src/format/revision_graph.cpp:700-730 | replacing the lease decodes if and only if the lease is well formed |
| GraphBuilders.AppendEventTo | src/format/revision_graph.cpp:1137-1217 | append_event returns exactly the specified graph when it fits and an error otherwise |
| GraphBuilders.ReplaceLease | src/format/revision_graph.cpp:700-730 | replace_lease changes the lease and nothing else, or fails |
| BuilderRuns.BaselineCloses | src/format/revision_graph.cpp:541-615 | the first graph decodes if and only if owner, device and slots are well formed |
| WrittenRecords.CreationWrites | src/container/revised_v3_container.cpp:89-189 | a created image shows the given text, its record is the owner's under the given name and address, its slots are the owner and, if asked for, the recovery slot, and no lease is held |
| BuilderRuns.BaselineBuilt | src/format/revision_graph.cpp:541-615 | a decodable baseline satisfies the builders' invariant |
| BuilderRuns.BuiltSaveFits | src/format/revision_graph.cpp:777-883 | on a built graph a save fails only for an empty name or a full list |
| BuilderRuns.SelfCheckNeverFires | src/format/revision_graph.cpp:1014 | on built graphs every builder's own output decodes exactly when there is room and names are complete, so the self-check adds no other failure |
| BuilderRuns.OperationKeepsBuilt | src/format/revision_graph.cpp:777-1217 | saves, merges, compactions and events keep a built graph built: valid, only a prefix of its texts pruned |
| BuilderRuns.RunsStayBuilt | src/format/revision_graph.cpp:777-1217 | the same over every run of operations |
| GraphWitnesses.DiscardedMergeFails | src/format/revision_graph.cpp:793-797 | a graph that decodes and whose permitted discard does not: its draft was a merge |
| GraphWitnesses.DraftOnPrunedFails | src/format/revision_graph.cpp:793-805 | a graph that decodes and whose permitted discard and redraft do not: its draft stands on pruned text |
| GraphWitnesses.RetentionIsRefused | src/core/history_service.cpp:16-36 | a graph that decodes and on which retaining one delta is refused |
| LineageRuns.OperationContinues | src/format/revision_graph.cpp:777-1217 | no builder operation loses, moves or changes the identity of a published record |
| LineageRuns.PublishedRecordsStay | src/format/revision_graph.cpp:777-1217 | over every run the published records of an earlier graph are, in place, the first published records of every later one |
| LineageRuns.RunsKeepLineage | src/format/revision_graph.cpp:682-698 | over every run an earlier graph takes a later one for unchanged or advanced if and only if its head is still held, in which case its canonical line is a prefix and the later one takes it for a rollback; otherwise it ended in a draft |
| LineageRuns.HeadLostExactly | src/format/revision_graph.cpp:777-883 | one operation loses the head if and only if it is a save that puts another record, or none, in a draft's place |
| LineageRuns.LostAtASave | src/format/revision_graph.cpp:777-883 | over a run a head is lost only at such a save on that very draft |
| Lineage.AssessTarget | src/format/revision_graph.cpp:682-698 | the comparison returns exactly the specified verdict and never finds a shared identifier with different content |
| Forks.BaselineDecides | src/format/revision_graph.cpp:682-698 | for all decodable graphs the target is unrelated if and only if the identifiers of the two first records differ |
| Forks.ForkedIsDivergent | src/format/revision_graph.cpp:682-698 | on graphs with one baseline, divergent exactly when the heads differ, the target does not hold the local head as canonical and the local graph does not hold the target head; unchanged exactly for equal heads; rollback exactly when the local graph holds the other head |
| Forks.TwoRunsFork | src/format/revision_graph.cpp:682-698 | over any two runs of the builders from one built graph the answer is never unrelated, and divergent exactly for a true fork |
| Lineage.HoldingHeadHoldsAll | src/format/revision_graph.cpp:424-429 | a graph that holds another's head holds all its records |
| Lineage.LineDetermined | src/format/revision_graph.cpp:682-698 | equal identifiers end equal canonical histories |
| Lineage.AdvancedExtends | src/format/revision_graph.cpp:682-698 | advanced implies the local canonical sequence is a proper prefix of the target's and every local record is in the target |
| Lineage.RollbackIsContained | src/format/revision_graph.cpp:682-698 | a rollback verdict implies every target record is already local |
| Lineage.AdvancedReversed | src/format/revision_graph.cpp:682-698 | what advanced over a graph assesses as rollback the other way round |
| Lineage.MutualHeads | src/format/revision_graph.cpp:682-698 | two graphs holding each other's heads have the same head |
| Lineage.UnchangedSameRecords | src/format/revision_graph.cpp:682-698 | unchanged implies both graphs hold the same records |
| MergeGraphs.MergedIsValid | src/format/revision_graph.cpp:885-1016 | the list a merge of divergent replicas builds passes every pass of the validator |
| MergeGraphs.MergeCloses | src/format/revision_graph.cpp:885-1016 | the merged graph decodes if and only if it has room for its records |
| MergeGraphs.MergeHoldsTarget | src/format/revision_graph.cpp:998-1007 | each target record missing locally is imported exactly once, and afterwards every target record is held |
| MergeGraphs.MergeKeepsLine | src/format/revision_graph.cpp:885-1016 | the local list is an unchanged prefix, the canonical line grows by exactly the merge, and no earlier revision reads differently |
| WrittenRecords.MergeWrites | src/format/revision_graph.cpp:885-1016 | field by field, the record a merge appends: author as for a save, on the local head, naming the target head as its only source, sealed, with the target's slots and lease |
| MergeGraphs.MergeSettlesLineage | src/format/revision_graph.cpp:682-698 | after the merge the local replica has merely advanced and the target has nothing left to offer |
| MergeGraphs.ImportReached | src/format/revision_graph.cpp:467-482 | every import is reachable from the target head |
| MergeGraphs.RejoinsLocal | src/format/revision_graph.cpp:474-479 | the imports lead back to shared local history |
| GraphBuilders.FindBase | src/format/revision_graph.cpp:903-916 | the base scan finds the last shared text-carrying record, and divergent replicas always have one |
| GraphBuilders.WriteImports | src/format/revision_graph.cpp:998-1007 | the import loop writes exactly the missing target records, in target order |
| GraphBuilders.MergeWith | src/format/revision_graph.cpp:885-1016 | merge_with answers exactly as specified: refused inputs, lineage errors, an unreadable base, no room, or exactly the merged graph |
| MergeSave.AnswerIsExact | src/format/revision_graph.cpp:885-1016 | a merge succeeds if and only if inputs, divergence, readable base and room allow it |
| MergeSave.CreateRevised | src/document/merge_save.cpp:12-46 | the replica merge succeeds exactly for one document, key, type and editing slot, and seals the merged graph under the target's wrappers |
| MergeSave.MergeDecodes | src/document/merge_save.cpp:41-45 | a successful merge decodes and keeps the target's slots |
| ForkedMerges.OperationExtends | src/format/revision_graph.cpp:777-1217 | no builder but a compaction touches what is stored of a published record |
| ForkedMerges.ForksMerge | src/format/revision_graph.cpp:885-1016 | over any two runs of the builders from one published document, not both compacted, replicas that forked have a readable base and merge if and only if there is room |
| Compaction.CompactCloses | src/format/revision_graph.cpp:1018-1112 | a permitted compaction decodes if and only if there is room; identifiers, content head and every text from the cutoff on are unchanged, earlier texts are gone |
| Compaction.TrimmedLine | src/format/revision_graph.cpp:1018-1112 | before the cutoff nothing reads, from it on every text is what it was |
| Compaction.CarriersComplete | src/format/revision_graph.cpp:1018-1060 | the texts a compaction may cut at are all text-carrying records of the line, none left out |
| WrittenRecords.CompactWrites | src/format/revision_graph.cpp:1018-1112 | field by field, the record a compaction appends: author as for a save, cutoff at the chosen text, the exact number of texts kept after it |
| Compaction.AvailableAfterCutoffs | src/format/revision_graph.cpp:512-536 | a readable record lies at or after the cutoff of every earlier compaction |
| Compaction.CarriersAfter | src/format/revision_graph.cpp:1018-1112 | text-carrying records after the cutoff number exactly the deltas the validator will count |
| GraphBuilders.CompactAt | src/format/revision_graph.cpp:1018-1112 | compact_at returns exactly the compacted graph when permitted and there is room |
| HistoryService.RetainsExactly | src/core/history_service.cpp:8-36 | on builder-made graphs exactly min(N, deltas after the first available revision) deltas are retained |
| HistoryService.RefusedOnlyForGaps | src/core/history_service.cpp:8-36 | on any decodable graph a retaining compaction is refused if and only if the chosen revision is pruned |
| GraphBuilders.CompactGraph | src/core/history_service.cpp:16-36 | the service asks for exactly the chosen cutoff |
| GraphBuilders.CountAvailable | src/core/history_service.cpp:22-29 | the counting loop finds how many records carry text and which of them reads first |
| ContainerState.ApplyKeepsConsistent | src/container/container_state.cpp:40-247 | each of the sixteen transitions keeps the state invariant |
| ContainerState.InFlightIsFrozen | src/container/container_state.cpp:192-247 | while a publication is in flight only its own settlement or a close changes anything else |
| ContainerState.ReauthenticationHolds | src/container/container_state.cpp:53-56 | after a wrapper change only the target's own slot and wrapper unlock, with the target's rights |
| ContainerState.ReauthenticateMarkLeaves | src/container/container_state.cpp:154-158 | the attention mark itself survives if and only if the transition is no unlock, close or raised attention |
| StateRuns.HeartbeatsBalance | src/container/container_state.cpp:40-247 | over every run heartbeat starts minus stops is one exactly while editing |
| StateRuns.DisplayBalances | src/container/container_state.cpp:40-247 | over every run the display is cleared once per unlock except the one still on screen |
| StateRuns.OutcomesBalance | src/container/container_state.cpp:192-247 | over every run activities verified or restored equal outcomes recorded, journaled by a close, or still owed |
| StateRuns.PublicationsAreExactlyOnce | src/container/container_state.cpp:164-247 | over every run, closes and reopenings included, each identifier is published at most once and adopted at most once, adoption never first |
| StateRuns.OperationsGrow | src/container/container_state.cpp:164-191 | the operation fence never falls |
| StateRuns.InFlightIsNewest | src/container/container_state.cpp:164-191 | the operation in flight is always the newest |
| StateRuns.StrangersChangeNothing | src/container/container_state.cpp:192-247 | an answer for any other operation changes nothing |
| EffectRuns.StepEmits | src/container/container_state.cpp:40-247 | for every accepted transition and every effect, the effect is emitted once if it is due and not at all otherwise; due is said in what was asked and in how the state changed |
| EffectRuns.ToldWhenDue | src/container/container_state.cpp:40-247 | over every run each effect is told exactly as often as it was due |
| EffectRuns.HostActionsMatch | src/container/container_state.cpp:24-36 | over every run and for every identifier the host is asked to back up exactly as often as an operation begun as a backup attempt was verified, and to export exactly as often as one begun as an export attempt was |
| EffectRuns.AnswersMatch | src/container/container_state.cpp:192-247 | over every run the host actions asked for equal the outcomes recorded plus the one awaited, and each identifier has at most one, after its adoption |
| EffectRuns.JournalBalances | src/container/container_state.cpp:164-247 | over every run and identifier the candidates journaled are those cleared, left behind by a close or replaced by a later operation, or still out |
| EffectRuns.CausesComeFirst | src/container/container_state.cpp:164-247 | over every run a publication follows its journal entry and its reread, an adoption, recovery or clearing its publication, and a host action its adoption |
| StateFields.ScreenChanges | src/container/container_state.cpp:40-163 | the screen opens exactly by an unlock, for its slot, and goes dark exactly by locking, closing or a target with another wrapper |
| StateFields.EditingChanges | src/container/container_state.cpp:40-163 | editing begins only open, idle, with the right to edit and the lease, acquired calmly or published, and ends exactly when one of these goes |
| StateFields.LeaseChanges | src/container/container_state.cpp:40-163 | the lease is what an unlock saw or what was acquired or published, nobody's after release or close, and otherwise stays |
| StateFields.AttentionChanges | src/container/container_state.cpp:40-163 | the attention is what was raised last; nothing but a target with another wrapper asks for authentication |
| StateFields.TargetChanges | src/container/container_state.cpp:40-163 | a target stays with the slot and rights it was observed with until another or a close |
| StateFields.RightsChange | src/container/container_state.cpp:40-163 | rights are those of the unlocked slot or of the target, none on a dark screen, and change by nothing else |
| StateFields.ReauthenticationHasCause | src/container/container_state.cpp:40-163 | over every run authentication is asked for only under a target with another wrapper and on a dark screen |
| StateFields.HoldingsBalance | src/container/container_state.cpp:40-247 | over every run each time the lease came into hand the host was told to release it, a publication gave it back, an unlock found it gone, or it is still held |
| StateProgress.InFlightHasRights | src/container/container_state.cpp:164-191 | over every run a save in flight is edited under the lease with the right to edit, a compaction with all three rights besides, a lease change with the right to edit unless the screen is locked, anything else with an open slot; and nothing but a calm container has anything in flight |
| StateProgress.CanAlwaysClose | src/container/container_state.cpp:40-247 | from every consistent open state an ambiguous answer or a failed host action, where one is due, and a close lead to a closed container that remembers only its last operation |
| StateProgress.CanSave | src/container/container_state.cpp:40-247 | from an idle locked document an editing slot can unlock, acquire, publish a save and go on editing |
| LeaseProtocol.NextLeaseGood | src/container/container.cpp:340-358 | a granted lease change encodes to a well-formed lease |
| LeaseProtocol.AdviceAgrees | src/container/container.cpp:251-279 | advice agrees with preparation: takeover is granted, blocked refused, and confirmation granted exactly to owner and recovery |
| GraphWitnesses.ConfirmedTakeoverIsRefused | src/container/container.cpp:276-277 | an ordinary slot under a clock that ran backwards is advised to confirm a takeover that is refused |
| LeaseProtocol.EntryAgrees | src/container/container.cpp:251-279 | advised resumption and acquisition are granted to a session that is not editing |
| LeaseProtocol.OnlyHolderOrEvidence | src/container/container.cpp:304-337 | an active lease changes only by its own session or by an explicit takeover with evidence |
| LeaseProtocol.TenureCounts | src/container/container.cpp:346-352 | through one tenure the counter starts at one and grows by one with every lease publication |
| LeaseProtocol.OneHolder | src/container/container.cpp:304-337 | with fresh session identifiers at most one client can refresh, resume or release the active lease |
| LeasePublications.LeaseChangeIsAStep | src/container/container.cpp:281-396 | an accepted, published and verified lease change is exactly one step of the many-client protocol on the shared image |
| LeasePublications.SaveKeepsLease | src/format/revision_graph.cpp:871 | a save leaves the lease untouched |
| LeasePublications.MergeKeepsLease | src/format/revision_graph.cpp:992 | a merge keeps the target's lease |
| LeasePublications.CompactionKeepsLease | src/format/revision_graph.cpp:1082 | a compaction leaves the lease untouched |
| LeasePublications.EventKeepsLease | src/format/revision_graph.cpp:1205 | an activity event leaves the lease untouched |
| LeasePublications.CredentialChangeKeepsLease | src/format/revision_graph.cpp:1205 | a credential change leaves the lease untouched |
| LeaseTime.LeaseIsLastChange | src/container/container.cpp:340-358 | over every history the stored lease is field by field what the last change asked for, or nobody's after a release |
| LeaseTime.BlockedUntilDue | src/container/container.cpp:251-358 | a lease last changed at time t for duration d: until t + d an unprivileged other session that has not watched it stand still for d is advised that it is blocked, and every change it asks for is refused |
| LeaseTime.FreeWhenDue | src/container/container.cpp:251-358 | from t + d on, or once watched for d, a witnessed explicit takeover is advised and granted |
| LeaseTime.HolderReturns | src/container/container.cpp:251-279 | the holder's own session is advised to resume until t + d and to take over afterwards, or that its lease has changed if the counter has |
| LeaseTime.FreeWhenReleased | src/container/container.cpp:251-358 | after a release an acquisition is advised and granted to anyone |
| LeaseTime.GrantedExactly | src/container/container.cpp:281-337 | a change is granted exactly if its fields are well made and match the stored lease, and it is earned: acquired free, refreshed, resumed or released by its holder, or taken over explicitly by privilege or after its time |
| SharedLease.OutsidersAreBlocked | src/container/container.cpp:251-358 | the same over every run of clients sharing one image: until t + d no container of an ordinary other session prepares a lease change or is advised anything but that it is blocked |
| SharedLease.TakeoversWhenDue | src/container/container.cpp:281-358 | and from t + d on the takeover is prepared, with the new session and clock in the image |
| SharedImage.MoveIsAStep | src/container/container.cpp:868-972 | every successful publication into the shared image, of whatever kind, is one step of the lease protocol |
| SharedImage.RunIsAHistory | src/container/container.cpp:868-972 | every run of publications by any clients is a history of the lease protocol |
| SharedImage.StoredCounterCounts | src/container/container.cpp:346-352 | through one tenure the stored counter is one more than the lease changes since it began, whatever else is published |
| SharedImage.LeaseOutlivesEverythingElse | src/container/container.cpp:398-866 | any stretch of a run without a lease change leaves the stored lease exactly as it was |
| SharedDocument.CreatedIsKept | src/container/revised_v3_container.cpp:89-189 | a document created with passwords and a content type that unlocking accepts starts with wrappers along its slots and a graph the builders can reach |
| SharedDocument.MoveSucceeds | src/container/container.cpp:398-866 | whatever any client publishes, the new image has its wrappers along the slots and a graph the builders can reach, and holds every record published before |
| SharedDocument.StoredImagesSucceed | src/container/container.cpp:868-972 | over every run of publications by any clients each stored image is aligned and built, and holds every record published in any earlier one |
| SharedDocument.EarlierImagesRollBack | src/format/revision_graph.cpp:682-698 | against any later stored image an earlier one is unchanged or a rollback if and only if its head is still held, and only a draft's head is ever lost |
| SharedDocument.ChangesNeedNoMore | src/container/container.cpp:616-695 | on every stored image a credential change is prepared if and only if the operation is fresh, the password opens the own slot, the change is allowed, and a removal of oneself leaves no unsaved text |
| SharedDocument.CompactionsRetain | src/core/history_service.cpp:8-36 | on every stored image the chosen cutoff is readable and exactly min(retain, deltas after the first available text) deltas stay |
| Envelope.ValidateStructure | src/container/revised_v3_container.cpp:191-218 | accepts exactly one to nine wrappers with distinct salts and nonces |
| Envelope.RewriteWrappers | src/container/revised_v3_container.cpp:521-559 | the record loop with its shifted source index produces exactly the inserted, replaced or removed list |
| ImageOperations.UnlockImage | src/container/revised_v3_container.cpp:220-324 | unlocking returns exactly what the first wrapper that opens leads to, and reports failed authentication exactly when wrapper or payload does not authenticate |
| ImageOperations.PayloadUnlocks | src/container/revised_v3_container.cpp:394-458 | a new payload with the same slots opens for the same passwords, to the same slot |
| ImageOperations.ReplaceGraph | src/container/revised_v3_container.cpp:394-458 | replaces exactly the payload, when the password opens the image and the graph decodes |
| ImageOperations.ReplaceSlots | src/container/revised_v3_container.cpp:460-577 | rewrites wrappers and payload together, exactly when the password opens the image, the graph decodes and the counts agree |
| ImageOperations.RequireUnused | src/core/password_service.cpp:24-38 | a new password is refused exactly unless it authenticates nothing |
| ImageOperations.PlanChange | src/container/password_slots.cpp:38-144 | the switch over change kinds returns exactly the plan of an authorised change and refuses every other |
| PasswordSlots.PlanIsGood | src/container/password_slots.cpp:38-144 | every authorised change leads to a list that parses: owner first, recovery last, nothing doubled, at most nine |
| PasswordSlots.NoEscalation | src/container/password_slots.cpp:67-135 | no change grants a slot rights its actor lacks |
| GrantedChanges.AuthorisedExactly | src/container/password_slots.cpp:38-144 | a change is authorised exactly for those who may make it: by named permissions, by the slot found under the identifier, by its role and outstanding change, by the number of ordinary slots and by lengths |
| GrantedChanges.PlanDoesAsAsked | src/container/password_slots.cpp:38-144 | per kind and by slot identifier the change that was asked for happens: the target has exactly the requested permissions, the claimed slot the given identity and nothing left to change, the invitation exactly its permissions and the mark, the removed slot is gone; every other slot is identical |
| GrantedChanges.InvitationOpens | src/container/password_slots.cpp:67-100 | in the image the invitation's password opens the new slot with the requested permissions, marked as to be changed |
| GrantedChanges.ClaimOpens | src/container/password_slots.cpp:101-110 | in the image the claimant's new password opens the same slot with its permissions and no mark, and the old one opens nothing |
| GrantedChanges.PasswordChangeOpens | src/container/password_slots.cpp:61-66 | in the image the new password opens the same slot with its permissions and its mark, and the old one opens nothing |
| GrantedChanges.OthersOpenAsBefore | src/container/password_slots.cpp:38-144 | any other password opens the slot it opened, with the same mark and role, and with the same permissions unless they are what was updated: then exactly the requested ones |
| GrantedChanges.ChangeIsRecorded | src/container/container.cpp:640-668 | a change adds one event that names it, its subject and the permissions in question, signed by the acting slot as it is called afterwards |
| GrantedChanges.InvitedUntilClaimed | src/container/password_slots.cpp:67-110 | over every stretch of a run in which its password is not touched an invited slot opens with its permissions, marked as to be changed |
| CredentialChange.AlignedUnlocks | src/container/revised_v3_container.cpp:234-287 | in an aligned image each wrapper's password opens exactly its own slot |
| CredentialChange.ChangeKeepsAligned | src/container/container.cpp:636-686 | an accepted change keeps wrapper i along slot i, for every i |
| CredentialChange.PasswordsFollow | src/container/revised_v3_container.cpp:521-559 | a fresh password opens exactly its slot, a replaced or removed one nothing, every other one what it opened before |
| CredentialChange.ChangeMovesPasswords | src/container/container.cpp:636-686 | the same kind by kind for a whole authorised change |
| CredentialChange.RunsStayAligned | src/container/container.cpp:636-686 | over every run of changes and payload rewrites images stay aligned, owner first and recovery last |
| DocumentCreation.Create | src/container/revised_v3_container.cpp:89-189 | creation succeeds exactly for given, non-empty passwords, canonical text and complete names, with one wrapper to each slot |
| DocumentCreation.CreatedIsAligned | src/container/revised_v3_container.cpp:89-189 | a created image is aligned if and only if its passwords differ and are within the length unlocking accepts and its content type is known |
| DocumentCreation.UnopenableIsCreated | src/container/revised_v3_container.cpp:89-189 | a concrete document of an unknown content type is created, is not aligned, and no password opens it |
| DocumentCreation.UntouchedPasswordsStay | src/container/revised_v3_container.cpp:521-559 | through any stretch of a run that leaves a password alone it opens the same slot, or still nothing |
| DocumentCreation.OwnerKeepsAccess | src/container/revised_v3_container.cpp:89-189 | from creation on the owner's password opens the owner's slot for as long as nobody changes it, and that slot stays first |
| CredentialProposal.AlignedReadopts | src/container/container.cpp:675-686 | on an aligned image reading the proposal back never fails: authority, room and an unused password alone decide |
| CredentialProposal.ChangeFits | src/container/container.cpp:656-694 | a credential proposal always fits the state it is made in |
| ContainerCore.FollowUpAccepted | src/container/container.cpp:926-955 | inside a verified settlement the follow-up transition is never rejected |
| ContainerCore.VerifiedKeepsAgreement | src/container/container.cpp:893-972 | a verified settlement adopts exactly the candidate image and keeps all parts in agreement |
| ContainerCore.OtherAnswersKeepAgreement | src/container/container.cpp:893-972 | any other answer keeps the committed image, the open data and the agreement |
| ContainerCore.BeginKeepsAgreement | src/container/container.cpp:893-972 | beginning with a fitting candidate changes only state and candidate and keeps the agreement |
| ContainerCore.DirectKeepsAgreement | src/container/container.cpp:883-891 | direct transitions keep the agreement; only a close drops the committed image |
| ContainerAgreement.UnlockKeepsAgreement | src/container/container.cpp:86-134 | unlocking keeps the agreement, the committed image, and that open data is what the image decodes to |
| ContainerAgreement.TargetRetains | src/container/container.cpp:118-119 | a target of this document only ever unlocks into the data already held |
| ContainerAgreement.TargetKeepsAgreement | src/container/container.cpp:136-198 | observing a target keeps committed image, text and agreement |
| ContainerAgreement.CompleteKeepsAgreement | src/container/container.cpp:763-773 | recording a host outcome keeps the agreement |
| ContainerAgreement.RestoreKeepsAgreement | src/container/container.cpp:775-805 | taking up a journalled outcome keeps the agreement |
| ContainerAgreement.InstallKeepsFaithful | src/container/container.cpp:893-972 | open data stays exactly what the committed image opens to for its slot, up to the overlay of rights |
| ContainerCalls.PreparedFits | src/container/container.cpp:281-866 | whatever a preparation proposes fits the container it was proposed in, for every kind of call |
| ContainerRuns.CallKeepsSound | src/container/container.cpp:68-972 | every call, accepted or refused, leaves a container whose parts agree |
| ContainerRuns.RunsKeepAgreement | src/container/container.cpp:68-972 | over every run from a new container: a candidate exactly while a publication is unsettled, a pending activity at the committed head, open data exactly the committed image's |
| ContainerRuns.CommittedChanges | src/container/container.cpp:68-972 | the committed image changes only on opening, on closing, and to the exact image of a verified candidate |
| ContainerRuns.TextChanges | src/container/container.cpp:86-134 | the text held changes only by a close, by taking new text, by a verified discard nothing newer was submitted after, and by another slot's password: to the committed text, or to none if refused |
| ContainerRuns.RefusalIsExact | src/container/container.cpp:118-131 | an admitted unlock is refused exactly while something is in flight or for incoherent rights, never by the target |
| ContainerText.TextKeptUnlessForgotten | src/container/container.cpp:117-131 | open data keeps its text through a call if and only if the call is not another slot's password during an unsettled publication |
| ContainerText.RunsKeepText | src/container/container.cpp:117-131 | over every run without such a call an unlocked screen has its text |
| ContainerSession.Perform | src/container/container.cpp:68-972 | any call on the class leaves it valid and holding exactly what the call is said to leave |
| ContainerWitnesses.FailedMergeTakesText | src/container/container.cpp:494-518 | a run after which a merge prepares nothing and leaves other text than it found |
| ContainerWitnesses.RefusedUnlockForgets | src/container/container.cpp:117-131 | a run after which a refused password costs the typed text |
| ContainerWitnesses.UnlockedWithoutText | src/container/container.cpp:117-131 | a run that ends with an unlocked screen, open data and no text, where no save can be prepared |
| ContainerAgreement.TextSurvives | src/container/container.cpp:911-925 | an installed transition, taken alone, costs submitted text only by a close or by a verified discard nothing newer was submitted after; whole calls are ContainerRuns.TextChanges |
| Proposals.PayloadFits | src/container/container.cpp:421-452 | the committed wrappers around a new graph with the same slots always make a fitting proposal |
| Proposals.BeginSucceeds | src/container/container.cpp:440-447 | beginning a fitting proposal under its guards never fails |
| TargetWrappers.OnlyOwnReplacementReauthenticates | src/container/container.cpp:158-184 | of all credential changes seen in a target exactly one that replaced the open slot's own wrapper asks for the password again |
| TargetWrappers.NewContentNeverReauthenticates | src/container/container.cpp:158-184 | a target that only carries newer content never asks for the password again |
| TargetWrappers.RemovedSlotOpensNothing | src/container/container.cpp:151-154 | a session whose slot was removed cannot open the target to that slot with any password |
| TargetWrappers.KeptWrapper | src/container/revised_v3_container.cpp:521-529 | a wrapper that is neither replaced nor removed is found unchanged where its slot moved to |
| PublishedText.SaveCommitsText | src/container/container.cpp:398-453 | a published save shows exactly the submitted text |
| PublishedText.MergeCommitsText | src/container/container.cpp:474-518 | a published merge shows exactly the resolved text |
| PublishedText.MergedHeadText | src/format/revision_graph.cpp:885-1016 | the new head of a successful merge reads as exactly the resolved content |
| PublishedText.CompactionKeepsText | src/container/container.cpp:520-614 | compaction never changes the current text |
| PublishedText.EventKeepsText | src/container/container.cpp:697-866 | an activity attempt or outcome never changes the current text |
| PublishedText.CredentialChangeKeepsText | src/container/container.cpp:616-695 | a credential change never changes the current text |
| SubmittedText.SubmittedTextStays | src/container/container.cpp:228-243 | text submitted while anything, a discard included, is being published is there, however that ends, until other text is taken, a slot is unlocked, the container is closed or opened, or another discard is asked for |
| SettledEditors.EditorsAreSettled | src/container/container.cpp:245-249 | over every run of calls no slot whose password is to be changed ever edits |
| SettledEditors.UnsettledPrepareNothing | src/container/container.cpp:281-761 | after every run such a slot prepares no save, merge, compaction, lease change or activity |
| ContainerAuthority.PublicationsAreAuthorised | src/container/container.cpp:281-866 | whatever a container prepares, the password opens the open slot and that slot, as the committed image has it, is allowed it; the one exception is releasing a lease of its own from a locked screen |
| ContainerAuthority.PublicationsAreSigned | src/container/container.cpp:398-866 | the record a proposal writes carries the open slot's identifier and, where given, its own name and address |
| ContainerAuthority.NewPasswordsAreSound | src/container/password_slots.cpp:51-58 | a change that brings a new password brings a strong one within the length limits, any other brings none |
| ContainerAuthority.MergesAreOfOneDocument | src/document/merge_save.cpp:20-41 | a merge is prepared only with a replica of this document, type and key that opens to the open slot |
| ContainerAuthority.UnlockShows | src/container/container.cpp:86-134 | an unlock shows the slot with its rights bit by bit, whose lease it is, and an attempt to edit exactly for an editing slot with a settled password |
| ContainerAuthority.TargetsGoOn | src/container/container.cpp:136-170 | an accepted target is of this document, type and key, starts from the same baseline, and either is as far, goes on from the committed head, or has a head not known here |
| ContainerAuthority.TargetRules | src/container/container.cpp:171-198 | a target leaves the committed image and the text alone, locks exactly if the wrapper moved, and otherwise shows the rights it grants, editing only while they allow it |
| ContainerAuthority.TargetOverlays | src/container/container.cpp:171-198 | the open data shows the slot's rights as the target has them |
| ContainerAuthority.TargetOfAnother | src/container/container.cpp:171-198 | under a target that the password opens for another slot no slot with any right unlocks again |
| ContainerAuthority.CsvIsPublished | src/container/container.cpp:398-518 | in a table document every prepared save or merge shows text that parses as a table |
| BackupRuns.AttemptIsPublished | src/container/container.cpp:697-761 | a verified attempt adds one event of its name and the same text to the committed image, and asks the host for exactly the action it is named after |
| BackupRuns.BackupProvesExactly | src/container/container.cpp:520-866 | over attempt, verification, host answer, recorded outcome and its verification the image the host was given proves a later compaction if and only if it was a backup and it succeeded |
| BackupRuns.AttemptCanBeRestored | src/container/container.cpp:775-805 | a restored outcome is taken up exactly under the head and the kind of the attempt that was published |
| BackupRuns.ProvingBackupHolds | src/container/container.cpp:548-575 | a backup that proves a compaction reads the same text and holds every committed record but the note of its own success |
| ContainerAuthority.TargetsAreTaken | src/container/container.cpp:136-170 | every image of this document, type and key that goes on from the committed one and opens to the open slot is accepted as a target, under the old or a new password |
| PublicationTerms.AttemptTerms | src/container/container.cpp:697-761 | a backup is attempted only of a clean, settled document and of the very image the host is given; the event names attempt, slot and status |
| PublicationTerms.OutcomeTerms | src/container/container.cpp:807-866 | an outcome is recorded for the committed attempt only, by the name, status and attempt identifier of what the host reported |
| PublicationTerms.RestoreTerms | src/container/container.cpp:775-805 | an outcome is taken up only for an attempt of this slot that nothing has followed |
| PublicationTerms.CompactionTerms | src/container/container.cpp:520-614 | a compaction is prepared only on the user's explicit word, in a clean document, by the holder of the stored lease, with a backup of the same text, the same lease and every record but the note of its success |
| PublicationTerms.SubmissionTerms | src/container/container.cpp:228-243 | text is taken only from a calm editor with the right to edit and no activity going on, and only canonical text of the document's type |
| PublicationTerms.ConfirmTerms | src/container/container.cpp:245-249 | edit mode is entered exactly by an open, calm, idle session with the right to edit and a settled password |
| PublicationTerms.OpenedAsStored | src/container/revised_v3_container.cpp:220-324 | the first wrapper of the password decides: its slot opens with its own rights and role, marked exactly if slot or wrapper is |
| PublicationTerms.CredentialTerms | src/container/container.cpp:616-695 | a slot that removes itself leaves nothing unsaved; after any other change the session stays with its slot |
| EditSession.EditorsCanSave | src/container/container.cpp:68-453 | a slot that may edit opens any document the builders made, takes the lease when it is free or due, types any text the document may hold and saves it; that text and lease are then stored and it goes on editing |
| EditSession.OwnersTakeOver | src/container/container.cpp:281-337 | an owner or recovery slot takes any other session's lease over at any time |
| EditSession.ReleaseSteps | src/container/container.cpp:281-396 | a holder can always give its lease back: the stored lease is free and the session only shows, with its text |
| BackupSession.OwnersCanCompact | src/container/container.cpp:520-866 | an editing session with all rights, clean text and its own lease can back up, record the host's success and compact: every guard lets it through, the text stays, and exactly the deltas asked for, or all there are, are kept |
| MergeSession.MergeIsPrepared | src/container/container.cpp:474-518 | an editing session whose replica forked from the stored image has the merge prepared if and only if there is room |
| MergeSession.MergeSteps | src/container/container.cpp:474-518 | once published the merge is committed with the resolved text, and editing goes on under the same lease |
| MergeSession.MergeKeepsBoth | src/format/revision_graph.cpp:885-1016 | the merged image holds every record of both replicas, keeps the stored slots and lease, and continues the replica |
| Container.Container.constructor | src/container/container.cpp:38-42 | a new container is empty and valid |
| Container.Container.InstallTransition | src/container/container.cpp:893-972 | installs exactly the transition, candidate, overlay and clearing specified; a refused follow-up would leave it transitioning |
| Container.Container.CreateDocument | src/container/container.cpp:44-66 | makes a document exactly when closed, with one or two different strong passwords and complete inputs |
| Container.Container.OpenDocument | src/container/container.cpp:68-84 | opens exactly structured images of a closed container |
| Container.Container.UnlockDocument | src/container/container.cpp:86-134 | installs exactly the authenticated data or keeps the same slot's own; states what each failure leaves |
| Container.Container.ApplyTargetDocument | src/container/container.cpp:136-198 | accepted exactly for related versions of the same document and key, overlaying rights and detecting a moved wrapper |
| Container.Container.SubmitContent | src/container/container.cpp:228-243 | takes canonical text exactly from an editing session without an activity |
| Container.Container.ConfirmEditLease | src/container/container.cpp:245-249 | changes lease and edit mode alone, as the host says |
| Container.Container.AdviseLeaseEntry | src/container/container.cpp:251-279 | advises on the committed lease exactly as the protocol does |
| Container.Container.PrepareLeaseChange | src/container/container.cpp:281-396 | prepared exactly when the protocol grants the change on the committed lease; a failure changes nothing |
| Container.Container.PrepareSave | src/container/container.cpp:398-453 | prepared exactly when permitted, fitting and authenticated, with exactly the saved graph sealed; a failure changes nothing |
| Container.Container.PrepareMerge | src/container/container.cpp:474-518 | prepared exactly when the replicas merge; says exactly when a failure leaves the resolved text submitted |
| Container.Container.CheckBackup | src/container/container.cpp:549-578 | a backup counts exactly if it is the committed image or the one just before its success was recorded |
| Container.Container.PrepareCompaction | src/container/container.cpp:520-614 | prepared exactly with decision, proven backup, clean sealed image and named lease; a failure changes nothing |
| Container.Container.PrepareSlotChange | src/container/container.cpp:616-695 | prepared exactly when the change is accepted, with exactly the rewritten image; a failure changes nothing |
| Container.Container.PrepareActivityAttempt | src/container/container.cpp:697-761 | prepared exactly against the committed image, a backup only from clean text; a failure changes nothing |
| Container.Container.CompleteActivity | src/container/container.cpp:763-773 | takes exactly one outcome for the pending attempt |
| Container.Container.RestoreActivityOutcome | src/container/container.cpp:775-805 | restores exactly when the attempt is the last record of the observed image |
| Container.Container.PrepareActivityOutcome | src/container/container.cpp:807-866 | prepared exactly when due; the head comparison in it never fails |
| Container.Container.AcknowledgeSave | src/container/container.cpp:868-874 | an answer for another operation is stale and changes nothing; the committed image changes only to the exact verified candidate |
| Container.Container.ResolveSave | src/container/container.cpp:876-881 | the same for resolving an ambiguous publication |
| Container.Container.Request | src/container/container.cpp:883-891 | only locking, closing, releasing edit and raising attention may be asked for directly |
| CborItems.HeadReads | src/format/cbor_reader.cpp:131-150 | a printed head is read back, consuming exactly its bytes |
| CborItems.HeadWasPrinted | src/format/cbor_reader.cpp:131-150 | an accepted head is the shortest print of its value |
| CborItems.HeadIsShortest | src/format/cbor_writer.cpp:40-54 | the printed head is one of the forms section 3 of RFC 8949 allows and no other is as short |
| CborItems.PrintedParses | src/format/cbor_reader.cpp:76-108 | a printed item within the limits parses back, up to exactly its last byte |
| CborItems.ParsedWasPrinted | src/format/cbor_reader.cpp:76-108 | accepted bytes are exactly the print of one item within the limits |
| CborItems.PrintsAreUnique | src/format/cbor_reader.cpp:76-108 | a position holds at most one print of an item within the limits |
| CborCodec.HeadBytes | src/format/cbor_writer.cpp:46-53 | for each width the initial byte and the argument bytes are the shortest head |
| CborCodec.Writer.WriteHead | src/format/cbor_writer.cpp:40-54 | appends exactly the shortest head |
| CborCodec.Writer.ByteItem | src/format/cbor_writer.cpp:15-19 | appends exactly the print of a byte string |
| CborCodec.Writer.Text | src/format/cbor_writer.cpp:21-28 | appends exactly the print of a text string |
| CborCodec.Writer.TakeOutput | src/format/cbor_writer.cpp:35-38 | hands over everything written and starts empty |
| CborCodec.Reader.ReadHead | src/format/cbor_reader.cpp:131-150 | accepts exactly shortest heads of the expected major type |
| CborCodec.Reader.ExpectUnsigned | src/format/cbor_reader.cpp:25-28 | succeeds exactly if the expected integer is printed next |
| CborCodec.Reader.PeekUnsigned | src/format/cbor_reader.cpp:18-24 | reads the next integer without moving |
| CborCodec.Reader.Boolean | src/format/cbor_reader.cpp:29-36 | succeeds exactly on a printed Boolean |
| CborCodec.Reader.Collection | src/format/cbor_reader.cpp:120-129 | accepts exactly collection heads within depth and entry limits |
| CborCodec.Reader.ByteItem | src/format/cbor_reader.cpp:40-53 | succeeds exactly if a byte string of acceptable size is printed next, and returns it |
| CborCodec.Reader.Text | src/format/cbor_reader.cpp:55-66 | succeeds exactly if a well-formed text within the limit is printed next, and returns it |
| CborCodec.Reader.SkipExtension | src/format/cbor_reader.cpp:76-108 | skips exactly the print of one item within depth, size, UTF-8 and key-order limits, and fails on anything else |
| CborStandard.FirstByteTells | src/format/cbor_writer.cpp:40-54 | the first byte of a printed item tells its kind, in the ranges of section 3.1 of RFC 8949 |
| CborStandard.IntegerExamples | src/format/cbor_writer.cpp:40-54 | integers print as in appendix A of RFC 8949 |
| CborStandard.StringExamples | src/format/cbor_writer.cpp:10-54 | strings and simple values print as in appendix A of RFC 8949 |
| CborStandard.ListExamples | src/format/cbor_writer.cpp:10-54 | lists print as in appendix A of RFC 8949 |
| CborStandard.TableExamples | src/format/cbor_writer.cpp:10-54 | maps with integer keys print as in appendix A of RFC 8949 |
| CborStandard.FitsExactly | src/format/cbor_reader.cpp:76-129 | the items accepted are exactly those whose every part is within the limits with well-formed text and ascending keys, nested within the depth limit |
| AncestorGraph.Visit | src/format/snapshot_revision.cpp:114-125 | a visit finishes everything below a node or has met a cycle; it terminates because unseen nodes run out |
| AncestorGraph.OrderedIsAcyclic | src/format/snapshot_revision.cpp:114-126 | a complete finishing order excludes cycles |
| AncestorGraph.CycleFound | src/format/snapshot_revision.cpp:115 | meeting a node that is still active closes a cycle |
| AncestorGraph.ValidateAncestorGraph | src/format/snapshot_revision.cpp:89-127 | accepts exactly lists within the limits, with distinct identifiers and without a cycle among listed parents |
| WorkingCopy.UndoAfterEdits | packages/frontend-core/src/working-copy.ts:215-227 | after n edits m undos succeed exactly while history reaches that far and show the text before the last m edits |
| WorkingCopy.RedoUndoes | packages/frontend-core/src/working-copy.ts:303-313 | redo takes back exactly one undo and undo one redo |
| WorkingCopy.SettlementOrderIsIrrelevant | packages/frontend-core/src/working-copy.ts:353-366 | in any settlement order the accepted revision is the highest accepted, the failed one the highest failure if greater, else zero |
| WorkingCopy.SealOlder | packages/frontend-core/src/working-copy.ts:173-184 | once the publication of an older revision was sealed the copy stays dirty through every sequence of editing, undoing and redoing |
| WorkingCopy.EditAndBack | packages/frontend-core/src/working-copy.ts:303-313 | undoing an edit of a clean copy makes it clean again |
| WorkingCopy.WorkingCopy.Edit | packages/frontend-core/src/working-copy.ts:215-225 | shows the text, truncates what was undone, keeps to the limit, issues one journal revision |
| WorkingCopy.WorkingCopy.Undo | packages/frontend-core/src/working-copy.ts:227 | moves one entry back exactly when there is one |
| WorkingCopy.WorkingCopy.Redo | packages/frontend-core/src/working-copy.ts:229 | moves one entry forward exactly when there is one |
| WorkingCopy.WorkingCopy.ClearHistory | packages/frontend-core/src/working-copy.ts:232-237 | a new history of the same text; dirtiness and journal unchanged |
| WorkingCopy.WorkingCopy.AdoptPublication | packages/frontend-core/src/working-copy.ts:154-170 | published text replaces the shown entry and is clean; journal and generation start anew |
| WorkingCopy.WorkingCopy.SealPublication | packages/frontend-core/src/working-copy.ts:173-184 | clean afterwards exactly if the submitted revision is the current one, even for identical text |
| WorkingCopy.WorkingCopy.FinishJournal | packages/frontend-core/src/working-copy.ts:353-366 | answers of an earlier generation change nothing; one of this generation settles exactly its revision |

## Left out

- Real cryptography (Argon2id, XChaCha20-Poly1305, key derivation, BLAKE2b): replaced by an injective digest and symbolic wrappers.
- The byte layout of graph payloads and images, the 32 and 33 MiB size limits and the obsolete-format magic: graphs and images are values, and exact bytes are equality of images.
- Which of several defects `decode` reports first, beyond the record limit: other failures are one malformed case.
- Length and UTF-8 limits of names, e-mail addresses and device names in parsed records and slots; names are strings that must be non-empty where the code asks for it.
- `parse_immutable` reads more fields than the model's `Immutable` keeps; optional extension fields are not part of this model.
- The CSV check and the password-strength verdict: parameters.
- `assess_merge` (the checks of a merge without keeping a candidate), `try_transition`, read accessors, and observers.
- `submitted_generation` as a 64-bit counter: the model's counter does not wrap.
- Retry loops for random identifiers, nonces and wrapper headers: fresh parameters.
- `compare`, diagnostic JSON, and wiping of clear buffers.
- Host storage beyond the assumption that a publication replaces only the exact bytes it was prepared from.
- `SnapshotRevision` encoding and decoding; only its ancestor check is modelled.
- Selections, search and replacement, `drainJournal`, listeners and disposal in the working copy: projections of the modelled fields or waiting for promises.
- The C interface, the Node addon, the command line, the user interface and `document-session.ts`.
- Container.Container.ConfirmEditLease: takes the host's word for the lease, as the code does, so nothing is claimed about its truth.
- LeaseProtocol.EntryAgrees: says nothing about a confirmed takeover by an ordinary slot under a clock that ran backwards, which the code advises and then refuses; AdviceAgrees states that refusal.
- ContainerAgreement.TextSurvives: speaks of the installed transition alone, after unlock_document has already put the decoded text in place; ContainerRuns.TextChanges is the statement about whole calls.
- GraphBuilders.Decode: the 32 MiB limit on the encoded graph, length and UTF-8 limits of names, and extension fields are outside the model.
- AppendEvent.EventCloses: the 32 MiB limit on the encoded graph is not modelled; the equivalence concerns room for the record, names and slots.
- BuilderRuns.BaselineCloses: length limits of names and the encoded-size limit are not modelled.
- BuilderRuns.BuiltSaveFits: the encoded-size limit is a further reason to fail that is not modelled.
- BuilderRuns.SelfCheckNeverFires: the encoded-size limit, which can also fire, is not modelled.
- MergeGraphs.MergeCloses: the encoded-size limit, which may also reject the merged graph, is not modelled.
- MergeSave.AnswerIsExact: success is also limited by the encoded size, which is not modelled.
- Compaction.CompactCloses: the encoded-size limit is not part of the equivalence.
- Envelope.ValidateStructure: magic, version, byte sizes and key-derivation parameters are outside the model.
- Container.Container.OpenDocument: accepts on the wrapper structure alone; magic, sizes and header fields are outside the model.
- DocumentCreation.Create: the 33 MiB limit on the image is not modelled.
- Container.Container.CreateDocument: the 33 MiB limit on the image is not modelled.
- GraphBuilders.SaveTo: the 32 MiB limit on the encoded graph is a further reason to fail that is not modelled.
- GraphBuilders.AppendEventTo: the 32 MiB limit on the encoded graph is a further reason to fail that is not modelled.
- GraphBuilders.ReplaceLease: the 32 MiB limit on the encoded graph is a further reason to fail that is not modelled.
- GraphBuilders.MergeWith: the 32 MiB limit on the encoded graph is a further reason to fail that is not modelled.
- GraphBuilders.CompactAt: the 32 MiB limit on the encoded graph is a further reason to fail that is not modelled.
- GraphBuilders.CompactGraph: the 32 MiB limit on the encoded graph is a further reason to fail that is not modelled.
- AppendEvent.LeaseReplacementCloses: the 32 MiB limit of the re-decoding is not part of the equivalence.
- MergeSave.CreateRevised: the 32 MiB limit on the merged graph and the 33 MiB limit on the image are not modelled.
- ImageOperations.ReplaceGraph: the 33 MiB limit on the rewritten image is not modelled.
- ImageOperations.ReplaceSlots: the 33 MiB limit on the rewritten image is not modelled.
- ImageOperations.PlanChange: names and addresses are character strings, so the UTF-8 tests are missing and lengths are counted in characters.
- Container.Container.PrepareSave: the 32 and 33 MiB limits on graph and image are further reasons to fail that are not modelled.
- Container.Container.PrepareMerge: the 32 and 33 MiB limits on graph and image are further reasons to fail that are not modelled.
- Container.Container.PrepareCompaction: the 32 and 33 MiB limits on graph and image are further reasons to fail that are not modelled.
- Container.Container.PrepareSlotChange: the 32 and 33 MiB limits on graph and image are further reasons to fail that are not modelled.
- Container.Container.PrepareLeaseChange: the 32 and 33 MiB limits on graph and image are further reasons to fail that are not modelled.
- Container.Container.PrepareActivityAttempt: the 32 and 33 MiB limits on graph and image are further reasons to fail that are not modelled.
- Container.Container.PrepareActivityOutcome: the 32 and 33 MiB limits on graph and image are further reasons to fail that are not modelled.
- SharedDocument.StoredImagesSucceed: a replica that is merged in is taken to be one the builders made; decoding it does not establish that only a prefix of its texts is pruned.
