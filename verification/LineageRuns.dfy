/** What an earlier graph makes of a later one, over every run of the builders. */
module LineageRuns {
  import opened Wrappers
  import opened TextValidation
  import opened RevisionRecords
  import opened GraphValidity
  import opened GraphLemmas
  import opened RevisionGraph
  import opened SaveContent
  import opened AppendEvent
  import opened MergeGraphs
  import opened Compaction
  import opened Lineage
  import opened BuilderRuns

  /** Records that are published: all but a draft at the end. */
  function SealedCount(g: Graph): (n: nat)
    ensures n <= |g.records|
  {
    if HasProvisional(g) then |g.records| - 1 else |g.records|
  }

  /** The published records of one graph are, in place, the first of the other's published records. */
  ghost predicate Continues(a: Graph, b: Graph) {
    SealedCount(a) <= SealedCount(b) && SameShape(a.records, b.records, SealedCount(a))
  }

  predicate HeadHeld(a: Graph, b: Graph) {
    HoldsCanonical(b.records, a.head)
  }

  /** A save puts something else in the place of a draft. */
  ghost predicate ReplacesDraft(hash: Hash, g: Graph, op: Operation)
    requires Decodable(hash, g, DEFAULT_LIMITS) && Permitted(hash, g, op)
  {
    op.Save? && HasProvisional(g) && Written(hash, g, op).head != g.head
  }

  // ---------- One operation ----------

  lemma SaveContinues(hash: Hash, g: Graph, s: SaveRequest)
    requires Injective(hash) && Built(hash, g) && SaveAllowed(g, s) && SaveFits(g, s)
    ensures HasProvisional(g) ==> g.records[|g.records| - 1].imm.previous.Some?
                                  && g.records[|g.records| - 1].imm.contentParent.Some?
    ensures Continues(g, SavedGraph(hash, g, s))
  {
    hide Decodable, AvailableSuffix, LineAfter, Reseals, SaveFits, NewRevision;
    TailFacts(hash, g);
    BaseDecodes(hash, g);
  }

  lemma MergeContinues(hash: Hash, g: Graph, target: Graph, s: MergeRequest)
    requires Injective(hash) && Built(hash, g) && Permitted(hash, g, MergeFrom(target, s))
    ensures Continues(g, MergedGraph(hash, g, target, s))
  {
    hide Decodable, AvailableSuffix, LineAfter, Imports, VerdictOn, MergeRecord;
    MergeKeepsSuffix(hash, g, target, s);
    var text := match LineAfter(g.records, |g.records|, DEFAULT_LIMITS)
      case Known(t) => t
      case _ => [];
    LocalIsPrefix(g.records, target.records, MergeRecord(hash, g, target, s, text));
  }

  lemma CompactContinues(hash: Hash, g: Graph, k: nat, s: CompactRequest)
    requires Injective(hash) && Built(hash, g) && CompactAllowed(g, k, s)
    ensures g.records != []
    ensures Continues(g, CompactedGraph(hash, g, k, s))
  {
    hide Decodable, AvailableSuffix, LineAfter, KeepsTexts;
    CompactKeepsSuffix(hash, g, k, s);
    SealedFacts(hash, g);
    CompactedShape(hash, g, k, s);
    var c := Carriers(g.records, |g.records|)[k];
    var text := match LineAfter(g.records, c + 1, DEFAULT_LIMITS)
      case Known(t) => t
      case _ => [];
    TrimmedShape(g.records, c, text);
  }

  lemma EventContinues(hash: Hash, g: Graph, e: EventRequest)
    requires g.records != [] && EventAllowed(g, e)
    ensures Continues(g, EventGraph(hash, g, e))
  {
  }

  /** No operation loses, moves or changes the identity of a published record. */
  lemma OperationContinues(hash: Hash, g: Graph, op: Operation)
    requires Injective(hash) && Built(hash, g) && Permitted(hash, g, op) && Fits(hash, g, op)
    ensures Continues(g, Written(hash, g, op))
  {
    hide SavedGraph, MergedGraph, CompactedGraph, EventGraph, Decodable, SaveFits, EventFits, SaveAllowed, CompactAllowed,
         EventAllowed, GoodLease, AvailableSuffix, LineAfter, Continues;
    match op
    case Save(s) => SaveContinues(hash, g, s);
    case MergeFrom(target, s) => MergeContinues(hash, g, target, s);
    case Compact(k, s) => CompactContinues(hash, g, k, s);
    case Append(e) =>
      TailFacts(hash, g);
      EventContinues(hash, g, e);
    case SetLease(lease) => LeaseContinues(g, lease);
  }

  lemma LeaseContinues(g: Graph, lease: Lease)
    ensures Continues(g, g.(lease := lease))
  {
  }

  // ---------- Runs ----------

  lemma ContinuesFurther(a: Graph, b: Graph, c: Graph)
    requires Continues(a, b) && Continues(b, c)
    ensures Continues(a, c)
  {
  }

  lemma ContinuesItself(g: Graph)
    ensures Continues(g, g)
  {
  }

  /** Over every run the published records of an earlier graph stay, in place, in every later one. */
  lemma {:induction false} PublishedRecordsStay(hash: Hash, gs: seq<Graph>, ops: seq<Operation>, i: nat, j: nat)
    requires Injective(hash) && Run(hash, gs, ops) && Built(hash, gs[0]) && i <= j < |gs|
    ensures Continues(gs[i], gs[j])
    decreases j - i
  {
    hide Built, Permitted, Fits, Decodable, Written, Continues;
    if i == j {
      ContinuesItself(gs[i]);
    } else {
      PublishedRecordsStay(hash, gs, ops, i, j - 1);
      RunsStayBuilt(hash, gs, ops, j - 1);
      OperationContinues(hash, gs[j - 1], ops[j - 1]);
      ContinuesFurther(gs[i], gs[j - 1], gs[j]);
    }
  }

  // ---------- Verdicts ----------

  /** The head of a graph without a draft is one of its published records. */
  lemma SealedHeadHeld(hash: Hash, a: Graph, b: Graph)
    requires Decodable(hash, a, DEFAULT_LIMITS) && Continues(a, b) && !HasProvisional(a)
    ensures HeadHeld(a, b)
  {
    hide Decodable;
    TailFacts(hash, a);
    assert b.records[|a.records| - 1].id == a.head;
  }

  /** Graphs of which one continues the other share their baseline. */
  lemma ContinuingRelated(hash: Hash, a: Graph, b: Graph)
    requires Decodable(hash, a, DEFAULT_LIMITS) && Continues(a, b)
    ensures Related(a.records, b.records)
  {
    hide GoodRecord, StepOk, LineAfter, GoodSlots, GoodLease, SealedBy, ImportsOk;
    TailFacts(hash, a);
    OnlyBaseline(a.records, a.head, a.contentHead, 0);
    FirstIsCanonical(a.records);
    assert a.records[0].id == b.records[0].id && !b.records[0].foreign;
  }

  lemma HeadIsHeldByItself(hash: Hash, g: Graph)
    requires Decodable(hash, g, DEFAULT_LIMITS)
    ensures HeadHeld(g, g)
  {
    hide Decodable;
    TailFacts(hash, g);
  }

  /** What the comparison says of a graph that continues another. */
  lemma ContinuingVerdict(hash: Hash, a: Graph, b: Graph)
    requires Injective(hash) && Decodable(hash, a, DEFAULT_LIMITS) && Decodable(hash, b, DEFAULT_LIMITS) && Continues(a, b)
    ensures HeadHeld(a, b) <==> VerdictOn(a, b) in {Ok(Unchanged), Ok(Advanced)}
    ensures !HeadHeld(a, b) ==> HasProvisional(a) && VerdictOn(a, b) in {Ok(Divergent), Err(Rollback)}
    ensures HeadHeld(a, b) ==> VerdictOn(b, a) == if a.head == b.head then Ok(Unchanged) else Err(Rollback)
    ensures HeadHeld(a, b) ==> CanonicalIds(a.records, |a.records|) <= CanonicalIds(b.records, |b.records|)
  {
    hide Decodable, Continues, Related, HoldsCanonical, Holds, CanonicalIds;
    ContinuingRelated(hash, a, b);
    HeadIsHeldByItself(hash, b);
    if !HasProvisional(a) { SealedHeadHeld(hash, a, b); }
    if a.head == b.head {
      UnchangedSameRecords(hash, a, b);
    } else if HeadHeld(a, b) {
      AdvancedReversed(hash, a, b);
      AdvancedExtends(hash, a, b);
    }
  }

  /**
   * Over every run an earlier graph takes a later one for its continuation exactly while its head is still
   * held; the later one then takes the earlier for a rollback. Only a draft's head is ever lost.
   */
  lemma RunsKeepLineage(hash: Hash, gs: seq<Graph>, ops: seq<Operation>, i: nat, j: nat)
    requires Injective(hash) && Run(hash, gs, ops) && Built(hash, gs[0]) && i <= j < |gs|
    ensures HeadHeld(gs[i], gs[j]) <==> VerdictOn(gs[i], gs[j]) in {Ok(Unchanged), Ok(Advanced)}
    ensures !HeadHeld(gs[i], gs[j]) ==> HasProvisional(gs[i]) && VerdictOn(gs[i], gs[j]) in {Ok(Divergent), Err(Rollback)}
    ensures HeadHeld(gs[i], gs[j]) ==>
              VerdictOn(gs[j], gs[i]) == if gs[i].head == gs[j].head then Ok(Unchanged) else Err(Rollback)
    ensures HeadHeld(gs[i], gs[j]) ==>
              CanonicalIds(gs[i].records, |gs[i].records|) <= CanonicalIds(gs[j].records, |gs[j].records|)
  {
    hide Decodable, Continues, Run, VerdictOn, HeadHeld, AvailableSuffix, DraftRemovable, CanonicalIds;
    RunsStayBuilt(hash, gs, ops, i);
    RunsStayBuilt(hash, gs, ops, j);
    PublishedRecordsStay(hash, gs, ops, i, j);
    ContinuingVerdict(hash, gs[i], gs[j]);
  }

  // ---------- What loses a head ----------

  /** One operation loses the head exactly if it is a save that puts another record, or none, in a draft's place. */
  lemma HeadLostExactly(hash: Hash, g: Graph, op: Operation)
    requires Injective(hash) && Built(hash, g) && Permitted(hash, g, op) && Fits(hash, g, op)
    ensures HeadHeld(g, Written(hash, g, op)) <==> !ReplacesDraft(hash, g, op)
  {
    hide Decodable, Continues, AvailableSuffix, DraftRemovable, HoldsCanonical, Fits, Written;
    var out := Written(hash, g, op);
    SelfCheckNeverFires(hash, g, op);
    OperationContinues(hash, g, op);
    HeadIsHeldByItself(hash, out);
    if !HasProvisional(g) {
      SealedHeadHeld(hash, g, out);
    } else if op.SetLease? {
      LeaseKeepsHead(hash, g, op);
    } else {
      DraftOnlySaved(hash, g, op);
      if out.head != g.head { ReplacedIsGone(hash, g, op); }
    }
  }

  lemma LeaseKeepsHead(hash: Hash, g: Graph, op: Operation)
    requires Decodable(hash, g, DEFAULT_LIMITS) && op.SetLease? && Permitted(hash, g, op)
    ensures Written(hash, g, op).head == g.head
  {
    hide Decodable;
  }

  lemma DraftOnlySaved(hash: Hash, g: Graph, op: Operation)
    requires Decodable(hash, g, DEFAULT_LIMITS) && HasProvisional(g) && Permitted(hash, g, op) && !op.SetLease?
    ensures op.Save?
  {
    hide Decodable, VerdictOn;
  }

  lemma ReplacedIsGone(hash: Hash, g: Graph, op: Operation)
    requires Injective(hash) && Built(hash, g) && Permitted(hash, g, op) && op.Save? && HasProvisional(g)
    requires Written(hash, g, op).head != g.head
    ensures !HeadHeld(g, Written(hash, g, op))
  {
    hide GoodRecords, GoodSlots, GoodLease, SealedBy, LineAfter, Reseals, NewRevision, StepOk, ImportsOk, MergesOk,
         CompactionsOk, AvailableSuffix;
    TailFacts(hash, g);
    DistinctIds(g.records);
  }

  /** A head is lost over a run only at a save that puts another record, or none, in the place of that very draft. */
  lemma {:induction false} LostAtASave(hash: Hash, gs: seq<Graph>, ops: seq<Operation>, i: nat, j: nat)
    requires Injective(hash) && Run(hash, gs, ops) && Built(hash, gs[0]) && i <= j < |gs| && !HeadHeld(gs[i], gs[j])
    ensures exists l :: i <= l < j && gs[l].head == gs[i].head && Decodable(hash, gs[l], DEFAULT_LIMITS)
                        && Permitted(hash, gs[l], ops[l]) && ReplacesDraft(hash, gs[l], ops[l])
    decreases j - i
  {
    hide Decodable, AvailableSuffix, DraftRemovable, HoldsCanonical, Fits, Written, Permitted;
    RunsStayBuilt(hash, gs, ops, i);
    if i == j {
      HeadIsHeldByItself(hash, gs[i]);
    } else if gs[i + 1].head == gs[i].head {
      LostAtASave(hash, gs, ops, i + 1, j);
    } else {
      HeadLostExactly(hash, gs[i], ops[i]);
      if HeadHeld(gs[i], gs[i + 1]) { LaterHeld(hash, gs, ops, i, j); }
      assert ReplacesDraft(hash, gs[i], ops[i]);
    }
  }

  /** A head that another one was put after is published, and stays. */
  lemma LaterHeld(hash: Hash, gs: seq<Graph>, ops: seq<Operation>, i: nat, j: nat)
    requires Injective(hash) && Run(hash, gs, ops) && Built(hash, gs[0]) && i + 1 <= j < |gs|
    requires HeadHeld(gs[i], gs[i + 1]) && gs[i].head != gs[i + 1].head
    ensures HeadHeld(gs[i], gs[j])
  {
    hide Decodable, AvailableSuffix, DraftRemovable, Run;
    RunsStayBuilt(hash, gs, ops, i + 1);
    PublishedRecordsStay(hash, gs, ops, i + 1, j);
    TailFacts(hash, gs[i + 1]);
    var k :| 0 <= k < |gs[i + 1].records| && gs[i + 1].records[k].id == gs[i].head && !gs[i + 1].records[k].foreign;
    assert gs[j].records[k].id == gs[i].head;
  }
}
