/** Every graph the builders can reach, from any baseline, by any sequence of operations. */
module BuilderRuns {
  import opened Wrappers
  import opened TextValidation
  import opened RevisionRecords
  import opened GraphValidity
  import opened GraphLemmas
  import opened RevisionGraph
  import opened AppendRecord
  import opened SaveContent
  import opened AppendEvent
  import opened MergeGraphs
  import opened Compaction
  import opened Lineage

  // ---------- The first graph ----------

  const DEFAULT_LEASE := Lease(false, NO_SESSION, 0, 0, 600000, "", "", "")

  /** One snapshot and the initial slots. */
  function BaselineGraph(hash: Hash, owner: Slot, recovery: Option<Slot>, device: string, content: Bytes,
                         timestamp: nat): Graph
  {
    var imm := Immutable(Baseline, None, None, [],
      Attribution(timestamp, owner.id, owner.name, owner.email, owner.name, owner.email, device),
      ContentDigest(content), Some(BodyDigest(Whole(content))), None);
    var r := Record(hash(imm), imm, Snapshot, Some(Whole(content)), false, None, false);
    Graph([r], r.id, r.id, if recovery.None? then [owner] else [owner, recovery.value], DEFAULT_LEASE)
  }

  ghost predicate BaselineAllowed(timestamp: nat, content: Bytes) {
    timestamp <= MAX_TIME && GoodWhole(content, DEFAULT_LIMITS)
  }

  lemma OneRecordValid(r: Record)
    requires !r.foreign && !r.provisional && r.imm.kind == Baseline && r.imm.previous.None?
    requires r.imm.contentParent.None? && r.imm.mergeSources == [] && r.imm.event.None?
    requires r.storage == Snapshot && FromWhole(r).Known?
    ensures ValidGraph([r], r.id, r.id, DEFAULT_LIMITS)
  {
    var rs := [r];
    assert LastCanonical(rs, 0) == -1 && LastCanonical(rs, 1) == 0 && LastContent(rs, 1) == 0;
    assert forall id :: !Refers(r.imm, id);
    assert StepOk(rs, 0);
    assert LineAfter(rs, 0, DEFAULT_LIMITS) == Gone;
    assert LineAfter(rs, 1, DEFAULT_LIMITS) == FromWhole(r);
  }

  /** The first graph decodes exactly when its owner, device and slots are well formed. */
  lemma BaselineCloses(hash: Hash, owner: Slot, recovery: Option<Slot>, device: string, content: Bytes, timestamp: nat)
    requires BaselineAllowed(timestamp, content)
    ensures var g := BaselineGraph(hash, owner, recovery, device, content, timestamp);
            Decodable(hash, g, DEFAULT_LIMITS)
            <==> owner.name != "" && owner.email != "" && device != "" && GoodSlots(g.slots)
  {
    hide CanonicalText, GoodSlots, ValidGraph;
    var g := BaselineGraph(hash, owner, recovery, device, content, timestamp);
    OneRecordValid(g.records[0]);
    assert g.records[0].imm.author == Attribution(timestamp, owner.id, owner.name, owner.email, owner.name, owner.email, device);
  }

  // ---------- The invariant of the builders ----------

  /** Once a text is available, all later ones are: only a prefix is ever pruned. */
  ghost predicate AvailableSuffix(rs: seq<Record>) {
    forall i, j | 0 <= i < j < |rs| && Carries(rs[j]) && Available(rs, i, DEFAULT_LIMITS) ::
      Available(rs, j, DEFAULT_LIMITS)
  }

  ghost predicate Built(hash: Hash, g: Graph) {
    Decodable(hash, g, DEFAULT_LIMITS) && AvailableSuffix(g.records) && DraftRemovable(g)
  }

  lemma SameAvailability(a: seq<Record>, b: seq<Record>, i: nat)
    requires i < |a| && i < |b| && a[..i + 1] == b[..i + 1]
    ensures Available(a, i, DEFAULT_LIMITS) <==> Available(b, i, DEFAULT_LIMITS)
  {
    hide Advance;
    assert a[..i + 1][i] == a[i] && b[..i + 1][i] == b[i];
    LineOfPrefix(a, b, i + 1, DEFAULT_LIMITS);
  }

  /** Growing a list by imports, events and records whose text is known keeps the suffix. */
  lemma SuffixGrows(a: seq<Record>, b: seq<Record>)
    requires AvailableSuffix(a) && |a| <= |b| && b[..|a|] == a
    requires forall j | |a| <= j < |b| && Carries(b[j]) :: Available(b, j, DEFAULT_LIMITS)
    ensures AvailableSuffix(b)
  {
    hide Available;
    forall i, j | 0 <= i < j < |b| && Carries(b[j]) && Available(b, i, DEFAULT_LIMITS)
      ensures Available(b, j, DEFAULT_LIMITS)
    {
      if j < |a| {
        assert a[j] == b[j] && a[..j + 1] == b[..j + 1] && a[..i + 1] == b[..i + 1];
        SameAvailability(a, b, i);
        SameAvailability(a, b, j);
      }
    }
  }

  lemma SuffixShrinks(a: seq<Record>, n: nat)
    requires AvailableSuffix(a) && n <= |a|
    ensures AvailableSuffix(a[..n])
  {
    hide Available;
    var b := a[..n];
    forall i, j | 0 <= i < j < |b| && Carries(b[j]) && Available(b, i, DEFAULT_LIMITS)
      ensures Available(b, j, DEFAULT_LIMITS)
    {
      assert a[j] == b[j] && a[..j + 1] == b[..j + 1] && a[..i + 1] == b[..i + 1];
      SameAvailability(a, b, i);
      SameAvailability(a, b, j);
    }
  }

  lemma SuffixCompacts(a: seq<Record>, b: seq<Record>, c: nat)
    requires AvailableSuffix(a) && KeepsTexts(a, b, c) && |b| == |a| + 1 && !Carries(b[|a|])
    requires forall i | 0 <= i < |a| :: Carries(b[i]) == Carries(a[i]) && b[i].foreign == a[i].foreign
    ensures AvailableSuffix(b)
  {
    hide LineAfter;
    forall i, j | 0 <= i < j < |b| && Carries(b[j]) && Available(b, i, DEFAULT_LIMITS)
      ensures Available(b, j, DEFAULT_LIMITS)
    {
      assert j < |a| && i >= c;
      assert Available(a, i, DEFAULT_LIMITS);
      assert Available(a, j, DEFAULT_LIMITS);
    }
  }

  // ---------- Operations ----------

  datatype Operation =
    | Save(save: SaveRequest)
    | MergeFrom(target: Graph, merge: MergeRequest)
    | Compact(k: nat, compact: CompactRequest)
    | Append(event: EventRequest)
    | SetLease(lease: Lease)

  /** The checks an operation makes before it writes anything. */
  ghost predicate Permitted(hash: Hash, g: Graph, op: Operation) {
    match op
    case Save(s) => SaveAllowed(g, s)
    case MergeFrom(target, s) =>
      Decodable(hash, target, DEFAULT_LIMITS) && MergeAllowed(g, target, s) && VerdictOn(g, target) == Ok(Divergent)
    case Compact(k, s) => CompactAllowed(g, k, s)
    case Append(e) => EventAllowed(g, e)
    case SetLease(_) => true
  }

  /** What the operation writes, before its own output is decoded again. */
  ghost function Written(hash: Hash, g: Graph, op: Operation): Graph
    requires Decodable(hash, g, DEFAULT_LIMITS) && Permitted(hash, g, op)
  {
    hide Decodable, LineAfter;
    TailFacts(hash, g);
    match op
    case Save(s) => SavedGraph(hash, g, s)
    case MergeFrom(target, s) => MergedGraph(hash, g, target, s)
    case Compact(k, s) => CompactedGraph(hash, g, k, s)
    case Append(e) => EventGraph(hash, g, e)
    case SetLease(lease) => g.(lease := lease)
  }

  /** Room for the records and complete names: all that can still go wrong on a built graph. */
  ghost predicate Fits(hash: Hash, g: Graph, op: Operation)
    requires Decodable(hash, g, DEFAULT_LIMITS) && Permitted(hash, g, op)
  {
    match op
    case Save(s) => SaveFits(g, s)
    case MergeFrom(_, _) => |Written(hash, g, op).records| <= DEFAULT_LIMITS.maxEntries
    case Compact(_, _) => |g.records| < DEFAULT_LIMITS.maxEntries
    case Append(e) => EventFits(g, e)
    case SetLease(lease) => GoodLease(lease)
  }

  /** On a built graph a save can only fail for an empty name or a full list. */
  lemma BuiltSaveFits(hash: Hash, g: Graph, s: SaveRequest)
    requires Built(hash, g) && SaveAllowed(g, s)
    requires s.profileName != "" && s.profileEmail != "" && s.device != ""
    requires |g.records| < DEFAULT_LIMITS.maxEntries
    ensures SaveFits(g, s)
  {
  }

  /** The self-check of every builder succeeds exactly when the operation fits. */
  lemma SelfCheckNeverFires(hash: Hash, g: Graph, op: Operation)
    requires Injective(hash) && Decodable(hash, g, DEFAULT_LIMITS) && Permitted(hash, g, op)
    ensures Decodable(hash, Written(hash, g, op), DEFAULT_LIMITS) <==> Fits(hash, g, op)
  {
    hide SavedGraph, MergedGraph, CompactedGraph, EventGraph, Decodable, SaveFits, EventFits, SaveAllowed, CompactAllowed,
         EventAllowed, GoodLease;
    match op
    case Save(s) =>
      if SaveFits(g, s) { SaveCloses(hash, g, s); } else { UnfitSaveFails(hash, g, s); }
    case MergeFrom(target, s) =>
      MergeCloses(hash, g, target, s);
    case Compact(k, s) =>
      CompactCloses(hash, g, k, s);
    case Append(e) =>
      EventCloses(hash, g, e);
    case SetLease(lease) =>
      LeaseReplacementCloses(hash, g, lease);
  }

  // ---------- The invariant is kept ----------

  lemma SaveKeepsSuffix(hash: Hash, g: Graph, s: SaveRequest)
    requires Injective(hash) && Built(hash, g) && SaveAllowed(g, s) && SaveFits(g, s)
    ensures HasProvisional(g) ==> g.records[|g.records| - 1].imm.previous.Some?
                                  && g.records[|g.records| - 1].imm.contentParent.Some?
    ensures AvailableSuffix(SavedGraph(hash, g, s).records)
  {
    hide CanonicalText, ValidGraph, GoodRecords, GoodSlots, GoodLease, SealedBy, LineAfter, Reseals, Available,
         AvailableSuffix, SaveFits;
    TailFacts(hash, g);
    SaveCloses(hash, g, s);
    var b, out := Base(g), SavedGraph(hash, g, s);
    SuffixShrinks(g.records, |b.records|);
    assert g.records[..|b.records|] == b.records;
    if s.discard {
      assert out.records == b.records;
    } else {
      var n := |out.records| - 1;
      assert out.records[..n] == b.records;
      assert !out.records[n].foreign;
      assert Available(out.records, n, DEFAULT_LIMITS) by { LastAvailable(out.records, s.content); }
      SuffixGrows(b.records, out.records);
    }
  }

  lemma LastAvailable(rs: seq<Record>, text: Bytes)
    requires rs != [] && !rs[|rs| - 1].foreign && LineAfter(rs, |rs|, DEFAULT_LIMITS) == Known(text)
    ensures Available(rs, |rs| - 1, DEFAULT_LIMITS)
  {
    hide Advance;
  }

  lemma SaveKeepsRemovable(hash: Hash, g: Graph, s: SaveRequest)
    requires Injective(hash) && Built(hash, g) && SaveAllowed(g, s) && SaveFits(g, s)
    ensures HasProvisional(g) ==> g.records[|g.records| - 1].imm.previous.Some?
                                  && g.records[|g.records| - 1].imm.contentParent.Some?
    ensures DraftRemovable(SavedGraph(hash, g, s))
  {
    hide CanonicalText, GoodRecord, Structured, CompactionsOk, GoodSlots, GoodLease, SealedBy, LineAfter, Reseals;
    TailFacts(hash, g);
    BaseDecodes(hash, g);
    var b, out := Base(g), SavedGraph(hash, g, s);
    if HasProvisional(out) {
      var n := |out.records| - 1;
      assert out.records[..n] == b.records == b.records[..n];
      LineOfPrefix(b.records, out.records, n, DEFAULT_LIMITS);
    }
  }

  lemma MergeKeepsSuffix(hash: Hash, g: Graph, target: Graph, s: MergeRequest)
    requires Diverged(hash, g, target) && MergeAllowed(g, target, s) && AvailableSuffix(g.records)
    ensures AvailableSuffix(MergedGraph(hash, g, target, s).records)
    ensures !HasProvisional(MergedGraph(hash, g, target, s))
  {
    hide CanonicalText, Decodable, MergeAllowed, LineAfter, Imports, AvailableSuffix, ValidGraph, GoodRecords, SealedBy,
         ContentRecord;
    MergedIsValid(hash, g, target, s);
    var text := match LineAfter(g.records, |g.records|, DEFAULT_LIMITS)
      case Known(t) => t
      case _ => [];
    var m := MergeRecord(hash, g, target, s, text);
    MergeRecordShape(hash, g, target, s, text);
    assert MergedGraph(hash, g, target, s).records == MergedRecords(g.records, target.records, m);
    MergedSuffix(g.records, target.records, m, s.content);
  }

  lemma MergedSuffix(local: seq<Record>, target: seq<Record>, m: Record, text: Bytes)
    requires AvailableSuffix(local) && !m.foreign && !m.provisional
    requires var out := MergedRecords(local, target, m); LineAfter(out, |out|, DEFAULT_LIMITS) == Known(text)
    ensures AvailableSuffix(MergedRecords(local, target, m))
    ensures var out := MergedRecords(local, target, m); |out| > 0 && !out[|out| - 1].provisional
  {
    hide LineAfter, Imports, Available, AvailableSuffix;
    var out := MergedRecords(local, target, m);
    LocalIsPrefix(local, target, m);
    ImportsAreForeign(local, target, m);
    LastAvailable(out, text);
    SuffixGrows(local, out);
  }

  lemma MergeRecordShape(hash: Hash, g: Graph, target: Graph, s: MergeRequest, text: Bytes)
    ensures !MergeRecord(hash, g, target, s, text).foreign && !MergeRecord(hash, g, target, s, text).provisional
  {
  }

  lemma CompactKeepsSuffix(hash: Hash, g: Graph, k: nat, s: CompactRequest)
    requires Injective(hash) && Built(hash, g) && CompactAllowed(g, k, s)
    ensures g.records != []
    ensures AvailableSuffix(CompactedGraph(hash, g, k, s).records)
    ensures !HasProvisional(CompactedGraph(hash, g, k, s))
  {
    hide Decodable, AvailableSuffix, KeepsTexts, LineAfter, Carries, GoodWhole;
    CompactCloses(hash, g, k, s);
    var out := CompactedGraph(hash, g, k, s).records;
    assert |out| == |g.records| + 1 && !out[|g.records|].provisional && !Carries(out[|g.records|]) by {
      CompactedShape(hash, g, k, s);
    }
    assert forall i | 0 <= i < |g.records| :: Carries(out[i]) == Carries(g.records[i]) && out[i].foreign == g.records[i].foreign by {
      CompactedShape(hash, g, k, s);
    }
    SuffixCompacts(g.records, out, Carriers(g.records, |g.records|)[k]);
  }

  lemma CompactedShape(hash: Hash, g: Graph, k: nat, s: CompactRequest)
    requires g.records != [] && k < |Carriers(g.records, |g.records|)|
    ensures var out := CompactedGraph(hash, g, k, s).records;
            && |out| == |g.records| + 1 && !out[|g.records|].provisional && !Carries(out[|g.records|])
            && forall i | 0 <= i < |g.records| :: Carries(out[i]) == Carries(g.records[i]) && out[i].foreign == g.records[i].foreign
  {
    hide LineAfter;
  }

  lemma EventKeepsSuffix(hash: Hash, g: Graph, e: EventRequest)
    requires g.records != [] && AvailableSuffix(g.records)
    ensures AvailableSuffix(EventGraph(hash, g, e).records) && !HasProvisional(EventGraph(hash, g, e))
  {
    hide Available, AvailableSuffix;
    SuffixGrows(g.records, EventGraph(hash, g, e).records);
  }

  /** Every operation that fits keeps the invariant of the builders. */
  lemma OperationKeepsBuilt(hash: Hash, g: Graph, op: Operation)
    requires Injective(hash) && Built(hash, g) && Permitted(hash, g, op) && Fits(hash, g, op)
    ensures Built(hash, Written(hash, g, op))
  {
    hide SavedGraph, MergedGraph, CompactedGraph, EventGraph, Decodable, SaveFits, EventFits, SaveAllowed, CompactAllowed,
         EventAllowed, GoodLease, AvailableSuffix, LineAfter;
    SelfCheckNeverFires(hash, g, op);
    match op
    case Save(s) =>
      SaveKeepsSuffix(hash, g, s);
      SaveKeepsRemovable(hash, g, s);
    case MergeFrom(target, s) =>
      MergeKeepsSuffix(hash, g, target, s);
    case Compact(k, s) =>
      CompactKeepsSuffix(hash, g, k, s);
    case Append(e) =>
      TailFacts(hash, g);
      EventKeepsSuffix(hash, g, e);
    case SetLease(lease) =>
  }

  // ---------- Runs ----------

  /** Each graph of a run comes from the one before by a permitted operation that fits. */
  ghost predicate Run(hash: Hash, gs: seq<Graph>, ops: seq<Operation>) {
    && |gs| == |ops| + 1
    && forall i | 0 <= i < |ops| ::
         Decodable(hash, gs[i], DEFAULT_LIMITS) && Permitted(hash, gs[i], ops[i]) && Fits(hash, gs[i], ops[i])
         && gs[i + 1] == Written(hash, gs[i], ops[i])
  }

  /** Over every run from a built graph, every graph is valid and only a prefix of its texts is pruned. */
  lemma {:induction false} RunsStayBuilt(hash: Hash, gs: seq<Graph>, ops: seq<Operation>, i: nat)
    requires Injective(hash) && Run(hash, gs, ops) && Built(hash, gs[0]) && i < |gs|
    ensures Built(hash, gs[i])
  {
    hide Built, Permitted, Fits, Decodable, Written;
    if i > 0 {
      RunsStayBuilt(hash, gs, ops, i - 1);
      OperationKeepsBuilt(hash, gs[i - 1], ops[i - 1]);
    }
  }

  lemma BaselineBuilt(hash: Hash, owner: Slot, recovery: Option<Slot>, device: string, content: Bytes, timestamp: nat)
    requires var g := BaselineGraph(hash, owner, recovery, device, content, timestamp); Decodable(hash, g, DEFAULT_LIMITS)
    ensures Built(hash, BaselineGraph(hash, owner, recovery, device, content, timestamp))
  {
    hide Decodable, LineAfter;
  }
}
