/** Graphs that decode and yet fail what one might expect of every graph that decodes. */
module GraphWitnesses {
  import opened Wrappers
  import opened TextValidation
  import opened RevisionRecords
  import opened GraphValidity
  import opened RevisionGraph
  import opened GraphLemmas
  import opened SaveContent
  import opened Compaction
  import opened HistoryService
  import opened LeaseProtocol

  const WRITER := Attribution(0, 1, "owner", "owner@example.org", "owner", "owner@example.org", "desk")
  const OWNER := Slot(1, 1, 7, 0, false, "owner", "owner@example.org")
  const RELEASED := Lease(false, NO_SESSION, 0, 0, 1, "", "", "")

  function FirstImm(): Immutable {
    Immutable(Baseline, None, None, [], WRITER, ContentDigest([]), Some(BodyDigest(Whole([]))), None)
  }

  function NextImm(parent: RevisionId, sources: seq<RevisionId>): Immutable {
    Immutable(Content, Some(parent), Some(parent), sources, WRITER, ContentDigest([]), Some(BodyDigest(Patch(0, []))), None)
  }

  function Canonical(hash: Hash, imm: Immutable, storage: Storage, provisional: bool): Record {
    Record(hash(imm), imm, storage,
           match storage
           case Snapshot => Some(Whole([]))
           case Checkpoint => Some(Whole([]))
           case Delta => Some(Patch(0, []))
           case _ => None,
           provisional, None, false)
  }

  lemma EmptyTextGood()
    ensures GoodWhole([], DEFAULT_LIMITS)
  {
    EmptyIsWellFormed();
  }

  lemma OwnerGood()
    ensures GoodSlots([OWNER]) && GoodLease(RELEASED)
  {
    assert GoodSlot([OWNER], 0);
  }

  lemma CanonicalGood(hash: Hash, imm: Immutable, storage: Storage, provisional: bool)
    requires (imm == FirstImm() && storage in {Snapshot, Pruned} && !provisional)
             || (exists p, s: seq<RevisionId> :: |s| <= 1 && imm == NextImm(p, s) && storage in {Delta, Checkpoint, Pruned})
    ensures GoodRecord(Canonical(hash, imm, storage, provisional), DEFAULT_LIMITS)
  {
    hide CanonicalText;
    EmptyTextGood();
    assert TotalWidth([], 0) == 0;
  }

  // ---------- A provisional merge ----------

  /** A baseline, an import of its successor, and a draft that merges the import. */
  function MergeTail(hash: Hash): Graph {
    var b := Canonical(hash, FirstImm(), Snapshot, false);
    var f := NextImm(b.id, []);
    var m := Canonical(hash, NextImm(b.id, [hash(f)]), Delta, true);
    Graph([b, Record(hash(f), f, Imported, None, false, Some(m.id), true), m], m.id, m.id, [OWNER], RELEASED)
  }

  lemma MergeTailGood(hash: Hash)
    requires Injective(hash)
    ensures var g := MergeTail(hash);
            && GoodRecords(g.records, DEFAULT_LIMITS) && SealedBy(hash, g.records)
            && g.records[0].id != g.records[1].id && g.records[1].id != g.records[2].id && g.records[0].id != g.records[2].id
  {
    hide GoodRecord;
    var b := hash(FirstImm());
    CanonicalGood(hash, FirstImm(), Snapshot, false);
    CanonicalGood(hash, NextImm(b, [hash(NextImm(b, []))]), Delta, true);
    ImportGood(hash, MergeTail(hash).records[1]);
    assert NextImm(b, []).mergeSources != NextImm(b, [hash(NextImm(b, []))]).mergeSources;
  }

  lemma ImportGood(hash: Hash, r: Record)
    requires r.foreign && r.storage == Imported && r.body.None? && r.resolvedBy.Some? && !r.provisional
    requires exists p :: r.imm == NextImm(p, [])
    ensures GoodRecord(r, DEFAULT_LIMITS)
  {
  }

  lemma MergeTailSteps(hash: Hash)
    requires Injective(hash)
    ensures var g := MergeTail(hash);
            ChainOk(g.records) && HeadsOk(g.records, g.head, g.contentHead) && ImportsOk(g.records)
  {
    MergeTailGood(hash);
    var rs := MergeTail(hash).records;
    LastCanonicalIs(rs, 0, -1);
    LastCanonicalIs(rs, 2, 0);
    LastContentIs(rs, 2, 0);
    LastCanonicalIs(rs, 3, 2);
    LastContentIs(rs, 3, 2);
    assert rs[1].id == rs[2].imm.mergeSources[0];
    assert forall s | s in rs[2].imm.mergeSources :: s == rs[1].id;
    assert ImportFor(rs, 2, rs[1].id);
    assert forall id | Refers(rs[2].imm, id) :: id == rs[0].id || id == rs[1].id;
    assert StepOk(rs, 0) && StepOk(rs, 1) && StepOk(rs, 2);
    assert Merge(rs[2]) && OwnedBy(rs[1], rs[2].id);
  }

  /** Who names and who owns whom in it. */
  lemma MergeTailShape(hash: Hash)
    ensures var rs := MergeTail(hash).records;
            && |rs| == 3 && rs[2].imm.mergeSources == [rs[1].id] && rs[1].imm.mergeSources == [] && rs[0].imm.mergeSources == []
            && rs[1].imm.previous == Some(rs[0].id) && rs[1].foreign && rs[1].resolvedBy == Some(rs[2].id)
            && !rs[0].foreign && !rs[2].foreign
  {
  }

  lemma MergeTailClosed(hash: Hash)
    requires Injective(hash)
    ensures MergesOk(MergeTail(hash).records)
  {
    hide MergeTail, GoodRecords, SealedBy;
    MergeTailGood(hash);
    MergeTailShape(hash);
    var rs := MergeTail(hash).records;
    assert rs[1].id in rs[2].imm.mergeSources;
    assert Reached(rs, 2, 1);
    assert OwnedBy(rs[1], rs[2].id) && Refers(rs[1].imm, rs[0].id);
    assert Reached(rs, 2, 0);
    assert Shares(rs, 2);
    assert ClosedImport(rs, 2);
  }

  lemma MergeTailLine(hash: Hash)
    ensures LineAfter(MergeTail(hash).records, 2, DEFAULT_LIMITS) == Known([])
    ensures LineAfter(MergeTail(hash).records, 3, DEFAULT_LIMITS) == Known([])
  {
    hide CanonicalText;
    EmptyTextGood();
    var rs := MergeTail(hash).records;
    assert LineAfter(rs, 0, DEFAULT_LIMITS) == Gone;
    assert LineAfter(rs, 1, DEFAULT_LIMITS) == Known([]);
    assert Patched([], 0, []) == Some([]);
    assert AppliesTo(Patch(0, []), [], [], DEFAULT_LIMITS);
  }

  /** A valid graph may end in a provisional merge. */
  lemma MergeTailDecodes(hash: Hash)
    requires Injective(hash)
    ensures Decodable(hash, MergeTail(hash), DEFAULT_LIMITS) && HasProvisional(MergeTail(hash))
  {
    hide GoodRecords, SealedBy, ChainOk, HeadsOk, ImportsOk, MergesOk, LineAfter, GoodSlots, GoodLease;
    MergeTailGood(hash);
    MergeTailSteps(hash);
    MergeTailClosed(hash);
    MergeTailLine(hash);
    OwnerGood();
    NoCompactions(MergeTail(hash).records);
  }

  lemma NoCompactions(rs: seq<Record>)
    requires forall i | 0 <= i < |rs| :: rs[i].imm.event.None?
    ensures CompactionsOk(rs)
  {
  }

  const DISCARD := SaveRequest([], "owner", "owner@example.org", "desk", OWNER, 0, false, true)
  const REDRAFT := SaveRequest([], "owner", "owner@example.org", "desk", OWNER, 0, true, false)

  /** A permitted discard of a valid graph that does not decode: the draft was a merge. */
  lemma DiscardedMergeFails(hash: Hash)
    requires Injective(hash)
    ensures var g := MergeTail(hash);
            && Decodable(hash, g, DEFAULT_LIMITS) && SaveAllowed(g, DISCARD) && !SaveFits(g, DISCARD)
            && g.records[|g.records| - 1].imm.previous.Some? && g.records[|g.records| - 1].imm.contentParent.Some?
            && !Decodable(hash, SavedGraph(hash, g, DISCARD), DEFAULT_LIMITS)
  {
    hide Decodable, GoodWhole, LineAfter, SavedGraph;
    MergeTailDecodes(hash);
    EmptyTextGood();
    var g := MergeTail(hash);
    assert !DraftRemovable(g);
    UnfitSaveFails(hash, g, DISCARD);
  }

  // ---------- A draft on pruned text ----------

  /** A pruned baseline and a provisional checkpoint on it. */
  function DraftOnPruned(hash: Hash): Graph {
    var b := Canonical(hash, FirstImm(), Pruned, false);
    var c := Canonical(hash, NextImm(b.id, []), Checkpoint, true);
    Graph([b, c], c.id, c.id, [OWNER], RELEASED)
  }

  lemma DraftOnPrunedDecodes(hash: Hash)
    requires Injective(hash)
    ensures Decodable(hash, DraftOnPruned(hash), DEFAULT_LIMITS) && HasProvisional(DraftOnPruned(hash))
    ensures LineAfter(DraftOnPruned(hash).records, 1, DEFAULT_LIMITS) == Gone
  {
    hide GoodRecord, GoodSlots, GoodLease, CanonicalText, CompactionsOk;
    var g := DraftOnPruned(hash);
    var rs := g.records;
    CanonicalGood(hash, FirstImm(), Pruned, false);
    CanonicalGood(hash, NextImm(rs[0].id, []), Checkpoint, true);
    OwnerGood();
    NoCompactions(rs);
    LastCanonicalIs(rs, 0, -1);
    LastCanonicalIs(rs, 1, 0);
    LastContentIs(rs, 1, 0);
    LastCanonicalIs(rs, 2, 1);
    LastContentIs(rs, 2, 1);
    assert forall id | Refers(rs[1].imm, id) :: id == rs[0].id;
    assert StepOk(rs, 0) && StepOk(rs, 1);
    assert LineAfter(rs, 0, DEFAULT_LIMITS) == Gone && LineAfter(rs, 1, DEFAULT_LIMITS) == Gone;
    assert LineAfter(rs, 2, DEFAULT_LIMITS) == Known([]);
  }

  /** Neither discarding nor redrafting works there: no known text is left to stand on. */
  lemma DraftOnPrunedFails(hash: Hash)
    requires Injective(hash)
    ensures var g := DraftOnPruned(hash);
            && Decodable(hash, g, DEFAULT_LIMITS) && SaveAllowed(g, DISCARD) && SaveAllowed(g, REDRAFT)
            && g.records[|g.records| - 1].imm.previous.Some? && g.records[|g.records| - 1].imm.contentParent.Some?
            && !Decodable(hash, SavedGraph(hash, g, DISCARD), DEFAULT_LIMITS)
            && !Decodable(hash, SavedGraph(hash, g, REDRAFT), DEFAULT_LIMITS)
  {
    hide Decodable, GoodWhole, LineAfter, SavedGraph;
    DraftOnPrunedDecodes(hash);
    EmptyTextGood();
    var g := DraftOnPruned(hash);
    assert !DraftRemovable(g);
    UnfitSaveFails(hash, g, DISCARD);
    UnfitSaveFails(hash, g, REDRAFT);
  }

  // ---------- A gap in the middle ----------

  /** A readable baseline, a pruned revision and a readable checkpoint. */
  function GapInTheMiddle(hash: Hash): Graph {
    var b := Canonical(hash, FirstImm(), Snapshot, false);
    var p := Canonical(hash, NextImm(b.id, []), Pruned, false);
    var c := Canonical(hash, NextImm(p.id, []), Checkpoint, false);
    Graph([b, p, c], c.id, c.id, [OWNER], RELEASED)
  }

  lemma GapShape(hash: Hash)
    requires Injective(hash)
    ensures var g := GapInTheMiddle(hash);
            && GoodRecords(g.records, DEFAULT_LIMITS) && SealedBy(hash, g.records)
            && g.records[0].id != g.records[1].id && g.records[1].id != g.records[2].id && g.records[0].id != g.records[2].id
  {
    hide GoodRecord;
    var rs := GapInTheMiddle(hash).records;
    CanonicalGood(hash, FirstImm(), Snapshot, false);
    CanonicalGood(hash, NextImm(rs[0].id, []), Pruned, false);
    CanonicalGood(hash, NextImm(rs[1].id, []), Checkpoint, false);
    assert rs[1].imm.previous != rs[0].imm.previous && rs[2].imm.previous != rs[0].imm.previous;
    assert rs[1].imm.previous == Some(rs[0].id) && rs[2].imm.previous == Some(rs[1].id);
    assert rs[0].id != rs[1].id;
  }

  lemma GapDecodes(hash: Hash)
    requires Injective(hash)
    ensures Decodable(hash, GapInTheMiddle(hash), DEFAULT_LIMITS) && !HasProvisional(GapInTheMiddle(hash))
  {
    hide GoodRecords, SealedBy, GoodSlots, GoodLease, CanonicalText, CompactionsOk;
    var rs := GapInTheMiddle(hash).records;
    GapShape(hash);
    OwnerGood();
    NoCompactions(rs);
    GapLine(hash);
    LastCanonicalIs(rs, 0, -1);
    LastCanonicalIs(rs, 1, 0);
    LastContentIs(rs, 1, 0);
    LastCanonicalIs(rs, 2, 1);
    LastContentIs(rs, 2, 1);
    LastCanonicalIs(rs, 3, 2);
    LastContentIs(rs, 3, 2);
    assert forall id | Refers(rs[1].imm, id) :: id == rs[0].id;
    assert forall id | Refers(rs[2].imm, id) :: id == rs[1].id;
    assert StepOk(rs, 0) && StepOk(rs, 1) && StepOk(rs, 2);
  }

  lemma GapLine(hash: Hash)
    ensures var rs := GapInTheMiddle(hash).records;
            && LineAfter(rs, 1, DEFAULT_LIMITS) == Known([]) && LineAfter(rs, 2, DEFAULT_LIMITS) == Gone
            && LineAfter(rs, 3, DEFAULT_LIMITS) == Known([])
  {
    var rs := GapInTheMiddle(hash).records;
    assert LineAfter(rs, 0, DEFAULT_LIMITS) == Gone;
  }

  lemma GapCutoff(hash: Hash)
    ensures var rs := GapInTheMiddle(hash).records; Carriers(rs, 3) == [0, 1, 2] && ChosenCutoff(rs, 1) == 1
  {
    hide LineAfter;
    GapLine(hash);
    var rs := GapInTheMiddle(hash).records;
    assert Carriers(rs, 0) == [];
    assert Carriers(rs, 1) == [0];
    assert Carriers(rs, 2) == [0, 1];
    assert FirstAvailable(rs, 0) == 0;
    assert FirstAvailable(rs, 1) == 0;
    assert FirstAvailable(rs, 2) == 0;
    assert FirstAvailable(rs, 3) == 0;
  }

  const COMPACT := CompactRequest(OWNER, "owner", "owner@example.org", "desk", 0)

  /** Retaining one delta of a valid graph is refused: the chosen revision is the pruned one. */
  lemma RetentionIsRefused(hash: Hash)
    requires Injective(hash)
    ensures var g := GapInTheMiddle(hash);
            Decodable(hash, g, DEFAULT_LIMITS) && !CompactAllowed(g, ChosenCutoff(g.records, 1), COMPACT)
  {
    hide Decodable, LineAfter, CompactAllowed;
    GapDecodes(hash);
    GapCutoff(hash);
    var g := GapInTheMiddle(hash);
    assert [OWNER][0] == OWNER && MayCompact([OWNER], OWNER);
    RefusedOnlyForGaps(hash, g, 1, COMPACT);
  }

  // ---------- A clock that ran backwards ----------

  const HELD := Lease(true, 1, 1, 10, 60, "holder", "holder@example.org", "desk")
  const GUEST := Standing(None, false, false)
  const TAKEOVER := LeaseChange(Takeover, 2, true, 1, 1, 10, 60, 5, 0, 60, "guest", "guest@example.org", "desk", true)

  /** An ordinary slot before the holder's timestamp is advised to confirm a takeover that is then refused. */
  lemma ConfirmedTakeoverIsRefused()
    ensures GoodLease(HELD) && TakeoverOn(HELD, TAKEOVER, 5, 0)
    ensures Advice(HELD, GUEST, 2, 1, 5, 0) == EnterConfirm
    ensures !LeaseAllowed(HELD, TAKEOVER, GUEST)
  {
    AdviceAgrees(HELD, GUEST, 2, 1, 5, 0, TAKEOVER);
  }
}
