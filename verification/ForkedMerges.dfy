/**
 * Two replicas that forked from one document can be merged: where they last agreed can be read unless both have been
 * compacted past it (src/format/revision_graph.cpp, merge_with; src/container/container.cpp, prepare_merge).
 */
module ForkedMerges {
  import opened Wrappers
  import opened TextValidation
  import opened RevisionRecords
  import opened GraphValidity
  import opened GraphLemmas
  import opened RevisionGraph
  import opened SaveContent
  import opened AppendEvent
  import opened MergeGraphs
  import opened Lineage
  import opened LineageRuns
  import opened BuilderRuns
  import opened GraphBuilders
  import opened MergeSave
  import opened Forks
  import opened Compaction

  // ---------- Without a compaction ----------

  /** The published records of one graph are, down to their stored texts, the first of the other's. */
  predicate Extends(a: Graph, b: Graph) {
    var n := SealedCount(a);
    n <= SealedCount(b) && n <= |b.records| && b.records[..n] == a.records[..n]
  }

  lemma SaveExtends(hash: Hash, g: Graph, s: SaveRequest)
    requires Injective(hash) && Built(hash, g) && SaveAllowed(g, s) && SaveFits(g, s)
    ensures HasProvisional(g) ==> g.records[|g.records| - 1].imm.previous.Some?
                                  && g.records[|g.records| - 1].imm.contentParent.Some?
    ensures Extends(g, SavedGraph(hash, g, s))
  {
    hide Decodable, AvailableSuffix, LineAfter, Reseals, SaveFits, NewRevision;
    TailFacts(hash, g);
    BaseDecodes(hash, g);
  }

  lemma MergeExtends(hash: Hash, g: Graph, target: Graph, s: MergeRequest)
    requires Injective(hash) && Built(hash, g) && Permitted(hash, g, MergeFrom(target, s))
    ensures Extends(g, MergedGraph(hash, g, target, s))
  {
    hide Decodable, AvailableSuffix, LineAfter, Imports, VerdictOn, MergeRecord;
    MergeKeepsSuffix(hash, g, target, s);
    var text := match LineAfter(g.records, |g.records|, DEFAULT_LIMITS)
      case Known(t) => t
      case _ => [];
    LocalIsPrefix(g.records, target.records, MergeRecord(hash, g, target, s, text));
  }

  lemma AppendExtends(hash: Hash, g: Graph, e: EventRequest)
    requires g.records != [] && EventAllowed(g, e)
    ensures Extends(g, EventGraph(hash, g, e))
  {
  }

  /** Only a compaction touches what is stored of a published record. */
  lemma OperationExtends(hash: Hash, g: Graph, op: Operation)
    requires Injective(hash) && Built(hash, g) && Permitted(hash, g, op) && Fits(hash, g, op) && !op.Compact?
    ensures Extends(g, Written(hash, g, op))
  {
    hide SavedGraph, MergedGraph, EventGraph, Decodable, SaveFits, EventFits, SaveAllowed, EventAllowed, GoodLease, AvailableSuffix,
         LineAfter, Extends;
    match op
    case Save(s) => SaveExtends(hash, g, s);
    case MergeFrom(target, s) => MergeExtends(hash, g, target, s);
    case Append(e) =>
      TailFacts(hash, g);
      AppendExtends(hash, g, e);
    case SetLease(lease) => LeaseExtends(g, lease);
  }

  lemma LeaseExtends(g: Graph, lease: Lease)
    ensures Extends(g, g.(lease := lease))
  {
  }

  lemma ExtendsFurther(a: Graph, b: Graph, c: Graph)
    requires Extends(a, b) && Extends(b, c)
    ensures Extends(a, c)
  {
    var n := SealedCount(a);
    assert c.records[..n] == c.records[..SealedCount(b)][..n] == b.records[..SealedCount(b)][..n] == b.records[..n];
  }

  predicate Uncompacted(ops: seq<Operation>, n: nat) {
    forall k | 0 <= k < n && k < |ops| :: !ops[k].Compact?
  }

  lemma {:induction false} RunExtends(hash: Hash, gs: seq<Graph>, ops: seq<Operation>, n: nat)
    requires Injective(hash) && Run(hash, gs, ops) && Built(hash, gs[0]) && n < |gs| && Uncompacted(ops, n)
    ensures Extends(gs[0], gs[n])
  {
    hide Built, Permitted, Fits, Decodable, Written, Extends;
    if n == 0 {
      LeaseExtends(gs[0], gs[0].lease);
    } else {
      RunExtends(hash, gs, ops, n - 1);
      RunsStayBuilt(hash, gs, ops, n - 1);
      OperationExtends(hash, gs[n - 1], ops[n - 1]);
      ExtendsFurther(gs[0], gs[n - 1], gs[n]);
    }
  }

  // ---------- Where two replicas last agreed ----------

  /** The text at the end of a graph, and where it stands. */
  lemma CurrentText(hash: Hash, g: Graph) returns (c: nat)
    requires Decodable(hash, g, DEFAULT_LIMITS) && !HasProvisional(g)
    ensures c < |g.records| && Carries(g.records[c]) && Available(g.records, c, DEFAULT_LIMITS)
  {
    hide GoodRecord, StepOk, GoodSlots, GoodLease, SealedBy, ImportsOk, MergesOk, CompactionsOk;
    c := LastContent(g.records, |g.records|);
    LastContentReads(g.records, |g.records|, DEFAULT_LIMITS);
  }

  lemma {:induction false} LastContentReads(rs: seq<Record>, n: nat, limits: Limits)
    requires n <= |rs| && LineAfter(rs, n, limits).Known?
    ensures 0 <= LastContent(rs, n) && Available(rs, LastContent(rs, n), limits)
  {
    if n > 0 && !Carries(rs[n - 1]) { LastContentReads(rs, n - 1, limits); }
  }

  /** The start's current text is still read where it stood. */
  lemma StartReads(hash: Hash, g: Graph, h: Graph, c: nat)
    requires !HasProvisional(g) && Extends(g, h) && c < |g.records| && Available(g.records, c, DEFAULT_LIMITS)
    ensures c < |h.records| && Available(h.records, c, DEFAULT_LIMITS)
  {
    hide LineAfter;
    assert h.records[c] == h.records[..|g.records|][c];
    LineOfPrefix(g.records, h.records, c + 1, DEFAULT_LIMITS);
  }

  /** Two continuations of one graph hold its records in the same places. */
  lemma SharedPlaces(g: Graph, a: Graph, b: Graph, c: nat)
    requires !HasProvisional(g) && Continues(g, a) && Continues(g, b) && c < |g.records| && Carries(g.records[c])
    ensures c < |b.records| && SharedText(a.records, b.records, c) && a.records[c].id == b.records[c].id
    ensures forall i | 0 <= i < c :: a.records[i].id == b.records[i].id
  {
  }

  /** The last text both hold is the start's current one or a later one, wherever it stands. */
  lemma BaseIsLater(g: Graph, local: Graph, target: Graph, c: nat, j: nat)
    requires !HasProvisional(g) && Continues(g, local) && Continues(g, target) && c < |g.records| && Carries(g.records[c])
    requires LastShared(local.records, target.records, j) && Distinct(target.records)
    ensures c <= j
    ensures forall i | 0 <= i < |local.records| && local.records[i].id == target.records[j].id :: c <= i
  {
    SharedPlaces(g, local, target, c);
    assert forall i | 0 <= i < c :: local.records[i].id == target.records[i].id != target.records[j].id;
  }

  /** If one of the replicas was not compacted since, that text can be read in it. */
  lemma BaseIsReadable(hash: Hash, g: Graph, local: Graph, target: Graph)
    requires Decodable(hash, g, DEFAULT_LIMITS) && !HasProvisional(g) && Diverged(hash, local, target)
    requires Continues(g, local) && Continues(g, target) && (Extends(g, local) || Extends(g, target))
    requires AvailableSuffix(local.records) && AvailableSuffix(target.records)
    ensures BaseReadable(local, target)
  {
    hide Decodable, LineAfter, VerdictOn, Continues, Extends, HasProvisional;
    var c := CurrentText(hash, g);
    SomeShared(hash, local, target);
    var j := LastSharedExists(local.records, target.records, 0);
    DecodedDistinct(hash, target);
    BaseIsLater(g, local, target, c, j);
    if Extends(g, target) {
      StartReads(hash, g, target, c);
      assert Available(target.records, j, DEFAULT_LIMITS);
    } else {
      StartReads(hash, g, local, c);
      var i :| 0 <= i < |local.records| && local.records[i].id == target.records[j].id && !local.records[i].foreign;
      SharedCarries(hash, local, target, i, j);
      assert Available(local.records, i, DEFAULT_LIMITS);
    }
  }

  lemma {:induction false} LastSharedExists(local: seq<Record>, target: seq<Record>, from: nat) returns (j: nat)
    requires SharedText(local, target, from)
    ensures LastShared(local, target, j)
    decreases |target| - from
  {
    if k :| from < k < |target| && SharedText(local, target, k) {
      j := LastSharedExists(local, target, k);
    } else {
      j := from;
    }
  }

  /** What two graphs call by one name is one thing. */
  lemma SharedCarries(hash: Hash, a: Graph, b: Graph, i: nat, j: nat)
    requires Injective(hash) && Decodable(hash, a, DEFAULT_LIMITS) && Decodable(hash, b, DEFAULT_LIMITS)
    requires i < |a.records| && j < |b.records| && a.records[i].id == b.records[j].id && !a.records[i].foreign
    requires Carries(b.records[j])
    ensures Carries(a.records[i])
  {
    hide ValidGraph, GoodSlots, GoodLease;
    assert a.records[i].imm == b.records[j].imm;
  }

  /**
   * Over any two runs of the builders from one published document, of which not both compacted it: replicas that
   * forked have a readable base, and merge if and only if there is room.
   */
  lemma ForksMerge(hash: Hash, gs: seq<Graph>, ops: seq<Operation>, hs: seq<Graph>, others: seq<Operation>, i: nat, j: nat,
                   s: MergeRequest)
    requires Injective(hash) && Run(hash, gs, ops) && Run(hash, hs, others) && Built(hash, gs[0]) && hs[0] == gs[0]
    requires i < |gs| && j < |hs| && !HasProvisional(gs[0]) && Forked(gs[i], hs[j])
    requires Uncompacted(ops, i) || Uncompacted(others, j)
    requires MergeAllowed(gs[i], hs[j], s)
    ensures BaseReadable(gs[i], hs[j])
    ensures GraphsMerge(hash, gs[i], hs[j], s) <==> |MergedGraph(hash, gs[i], hs[j], s).records| <= DEFAULT_LIMITS.maxEntries
  {
    hide Decodable, Run, AvailableSuffix, DraftRemovable, VerdictOn, Forked, Continues, Extends, MergedGraph, BaseReadable;
    RunsStayBuilt(hash, gs, ops, i);
    RunsStayBuilt(hash, hs, others, j);
    TwoRunsFork(hash, gs, ops, hs, others, i, j);
    PublishedRecordsStay(hash, gs, ops, 0, i);
    PublishedRecordsStay(hash, hs, others, 0, j);
    if Uncompacted(ops, i) { RunExtends(hash, gs, ops, i); } else { RunExtends(hash, hs, others, j); }
    BaseIsReadable(hash, gs[0], gs[i], hs[j]);
  }
}
