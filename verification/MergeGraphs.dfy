/**
 * Merging a divergent replica (src/format/revision_graph.cpp, merge_with): the local
 * list, then every target record missing from it as an import, then the merge itself.
 */
module MergeGraphs {
  import opened Wrappers
  import opened TextValidation
  import opened RevisionRecords
  import opened GraphValidity
  import opened GraphLemmas
  import opened RevisionGraph
  import opened AppendRecord
  import opened Patching
  import opened Lineage
  import opened SaveContent

  datatype MergeRequest = MergeRequest(
    content: Bytes, profileName: string, profileEmail: string, device: string,
    actor: Slot, timestamp: nat)

  // ---------- What a merge writes ----------

  function AsImport(r: Record, merge: RevisionId): Record {
    Record(r.id, r.imm, Imported, None, false, Some(merge), true)
  }

  /** Imports for those of the first n target records that are missing locally, in target order. */
  function Imports(local: seq<Record>, target: seq<Record>, n: nat, merge: RevisionId): (r: seq<Record>)
    requires n <= |target|
    ensures |r| <= n
  {
    if n == 0 then []
    else if Holds(local, target[n - 1].id) then Imports(local, target, n - 1, merge)
    else Imports(local, target, n - 1, merge) + [AsImport(target[n - 1], merge)]
  }

  function MergeRecord(hash: Hash, local: Graph, target: Graph, s: MergeRequest, text: Bytes): Record {
    ContentRecord(hash, local.head, local.contentHead, [target.head],
                  AuthorOf(s.actor, s.profileName, s.profileEmail, s.device, s.timestamp),
                  s.content, DiffBody(text, s.content), false)
  }

  function MergedRecords(local: seq<Record>, target: seq<Record>, m: Record): seq<Record> {
    local + Imports(local, target, |target|, m.id) + [m]
  }

  ghost function MergedGraph(hash: Hash, local: Graph, target: Graph, s: MergeRequest): Graph
  {
    var text := match LineAfter(local.records, |local.records|, DEFAULT_LIMITS)
      case Known(t) => t
      case _ => [];
    var m := MergeRecord(hash, local, target, s, text);
    Graph(MergedRecords(local.records, target.records, m), m.id, m.id, target.slots, target.lease)
  }

  // ---------- Where the imports lie ----------

  /** The position target record t has, or would have, among the imports. */
  function Rank(local: seq<Record>, target: seq<Record>, t: nat, merge: RevisionId): nat
    requires t <= |target|
  {
    |Imports(local, target, t, merge)|
  }

  lemma {:induction false} ImportsGrow(local: seq<Record>, target: seq<Record>, t: nat, n: nat, merge: RevisionId)
    requires t <= n <= |target|
    ensures Imports(local, target, t, merge) <= Imports(local, target, n, merge)
    decreases n - t
  {
    if t < n { ImportsGrow(local, target, t, n - 1, merge); }
  }

  /** A missing record is imported at its rank, and ranks keep the target's order. */
  lemma ImportedAtRank(local: seq<Record>, target: seq<Record>, t: nat, n: nat, merge: RevisionId)
    requires t < n <= |target| && !Holds(local, target[t].id)
    ensures Rank(local, target, t, merge) < Rank(local, target, n, merge)
    ensures Imports(local, target, n, merge)[Rank(local, target, t, merge)] == AsImport(target[t], merge)
  {
    ImportsGrow(local, target, t + 1, n, merge);
    var upTo := Imports(local, target, t + 1, merge);
    assert upTo[Rank(local, target, t, merge)] == AsImport(target[t], merge);
  }

  /** Every import stands for exactly one missing target record. */
  lemma {:induction false} ImportSource(local: seq<Record>, target: seq<Record>, n: nat, merge: RevisionId, k: nat)
    returns (t: nat)
    requires n <= |target| && k < Rank(local, target, n, merge)
    ensures t < n && !Holds(local, target[t].id) && Rank(local, target, t, merge) == k
    ensures Imports(local, target, n, merge)[k] == AsImport(target[t], merge)
  {
    if !Holds(local, target[n - 1].id) && k == Rank(local, target, n - 1, merge) {
      t := n - 1;
    } else {
      t := ImportSource(local, target, n - 1, merge, k);
      ImportedAtRank(local, target, t, n, merge);
    }
  }

  // ---------- What divergence gives ----------

  /** The setting of every lemma below: two graphs that decode, are sealed and have diverged. */
  ghost predicate Diverged(hash: Hash, local: Graph, target: Graph) {
    && Injective(hash)
    && Decodable(hash, local, DEFAULT_LIMITS) && Decodable(hash, target, DEFAULT_LIMITS)
    && !HasProvisional(local) && !HasProvisional(target)
    && VerdictOn(local, target) == Ok(Divergent)
  }

  /** Canonical target records up to a shared one are all shared, the baseline included. */
  lemma {:induction false} BaselineShared(hash: Hash, local: Graph, target: Graph, j: nat)
    requires Injective(hash) && Decodable(hash, local, DEFAULT_LIMITS) && Decodable(hash, target, DEFAULT_LIMITS)
    requires j < |target.records| && !target.records[j].foreign && Holds(local.records, target.records[j].id)
    ensures Holds(local.records, target.records[0].id)
  {
    hide CanonicalText, GoodRecord, Resolved, ClosedImport, CompactionsOk, LineAfter, GoodSlots, GoodLease;
    OnlyBaseline(target.records, target.head, target.contentHead, j);
    assert StepOk(target.records, j);
    var p := LastCanonical(target.records, j);
    if p >= 0 {
      SharedAncestor(hash, local, target, j, target.records[p].id);
      BaselineShared(hash, local, target, p);
    }
  }

  /** A target record missing locally is no baseline, and nothing it descends to is local. */
  lemma MissingFacts(hash: Hash, local: Graph, target: Graph, t: nat)
    requires Diverged(hash, local, target)
    requires t < |target.records| && !Holds(local.records, target.records[t].id)
    ensures target.records[t].imm.kind != Baseline && target.records[t].imm.previous.Some?
    ensures t > 0 && StepOk(target.records, t) && GoodImmutable(target.records[t].imm, DEFAULT_LIMITS)
    ensures forall j | 0 <= j < |target.records| && Refers(target.records[j].imm, target.records[t].id) ::
              !Holds(local.records, target.records[j].id)
  {
    hide CanonicalText, Resolved, ClosedImport, CompactionsOk, LineAfter, GoodSlots, GoodLease, StepOk;
    var j :| 0 <= j < |target.records| && !target.records[j].foreign
             && HoldsCanonical(local.records, target.records[j].id);
    BaselineShared(hash, local, target, j);
    OnlyBaseline(target.records, target.head, target.contentHead, t);
    assert GoodRecord(target.records[t], DEFAULT_LIMITS);
    forall j | 0 <= j < |target.records| && Refers(target.records[j].imm, target.records[t].id)
      ensures !Holds(local.records, target.records[j].id)
    {
      if Holds(local.records, target.records[j].id) {
        SharedAncestor(hash, local, target, j, target.records[t].id);
      }
    }
  }

  // ---------- The new list, step by step ----------

  /** The record that closes the merge, seen from the two graphs. */
  ghost predicate Closing(hash: Hash, local: Graph, target: Graph, m: Record) {
    && !m.foreign && !m.provisional && m.id == hash(m.imm)
    && m.imm.kind == Content && m.imm.event.None?
    && m.imm.previous == Some(local.head) && m.imm.contentParent == Some(local.contentHead)
    && m.imm.mergeSources == [target.head]
  }

  lemma ClosingIsFresh(hash: Hash, local: Graph, target: Graph, m: Record)
    requires Diverged(hash, local, target) && Closing(hash, local, target, m)
    ensures !Holds(local.records, m.id) && !Holds(target.records, m.id)
  {
    hide CanonicalText, GoodRecord, ChainOk, ImportsOk, MergesOk, CompactionsOk, LineAfter, GoodSlots, GoodLease;
    FreshId(hash, local.records, local.head, local.contentHead, m.imm);
    FreshId(hash, target.records, target.head, target.contentHead, m.imm);
  }

  /** Position of the import of target record t in the merged list. */
  function At(local: seq<Record>, target: seq<Record>, t: nat, m: Record): nat
    requires t <= |target|
  {
    |local| + Rank(local, target, t, m.id)
  }

  lemma ImportInList(local: seq<Record>, target: seq<Record>, t: nat, m: Record)
    requires t < |target| && !Holds(local, target[t].id)
    ensures |local| <= At(local, target, t, m) < |MergedRecords(local, target, m)| - 1
    ensures MergedRecords(local, target, m)[At(local, target, t, m)] == AsImport(target[t], m.id)
  {
    ImportedAtRank(local, target, t, |target|, m.id);
  }

  /** What the target holds before t is in the merged list before t's import. */
  lemma HeldBefore(local: seq<Record>, target: seq<Record>, t: nat, m: Record, id: RevisionId)
    requires t <= |target| && Occurs(target, t, id)
    ensures At(local, target, t, m) < |MergedRecords(local, target, m)|
    ensures Occurs(MergedRecords(local, target, m), At(local, target, t, m), id)
  {
    var out := MergedRecords(local, target, m);
    ImportsGrow(local, target, t, |target|, m.id);
    var u :| 0 <= u < t && target[u].id == id;
    if Holds(local, id) {
      var i :| 0 <= i < |local| && local[i].id == id;
      assert out[i].id == id;
    } else {
      ImportedAtRank(local, target, u, t, m.id);
      ImportInList(local, target, u, m);
      assert out[At(local, target, u, m)].id == id;
    }
  }

  /** The identifier of a missing record does not occur before its import. */
  lemma NotBefore(local: seq<Record>, target: seq<Record>, t: nat, m: Record)
    requires t < |target| && !Holds(local, target[t].id) && Distinct(target)
    ensures At(local, target, t, m) < |MergedRecords(local, target, m)|
    ensures !Occurs(MergedRecords(local, target, m), At(local, target, t, m), target[t].id)
  {
    var out := MergedRecords(local, target, m);
    ImportInList(local, target, t, m);
    forall p | 0 <= p < At(local, target, t, m) ensures out[p].id != target[t].id {
      if p < |local| {
        assert out[p] == local[p];
      } else {
        var u := ImportSource(local, target, t, m.id, p - |local|);
        ImportInList(local, target, u, m);
      }
    }
  }

  lemma ImportStep(hash: Hash, local: Graph, target: Graph, m: Record, t: nat)
    requires Diverged(hash, local, target) && t < |target.records|
    requires !Holds(local.records, target.records[t].id)
    ensures At(local.records, target.records, t, m) < |MergedRecords(local.records, target.records, m)|
    ensures StepOk(MergedRecords(local.records, target.records, m), At(local.records, target.records, t, m))
  {
    hide CanonicalText, GoodRecord, ImportsOk, MergesOk, CompactionsOk, LineAfter, GoodSlots, GoodLease, Rank, Imports;
    var l, tr := local.records, target.records;
    var out, p := MergedRecords(l, tr, m), At(l, tr, t, m);
    MissingFacts(hash, local, target, t);
    DistinctIds(tr);
    ImportInList(l, tr, t, m);
    NotBefore(l, tr, t, m);
    forall id | Refers(out[p].imm, id) ensures Occurs(out, p, id) {
      HeldBefore(l, tr, t, m, id);
    }
  }

  /** The records after the local ones and before the merge are all foreign. */
  lemma ImportsAreForeign(local: seq<Record>, target: seq<Record>, m: Record)
    ensures var out := MergedRecords(local, target, m);
            forall p | |local| <= p < |out| - 1 :: out[p].foreign && out[p].resolvedBy == Some(m.id)
  {
    var out := MergedRecords(local, target, m);
    forall p | |local| <= p < |out| - 1 ensures out[p].foreign && out[p].resolvedBy == Some(m.id) {
      var t := ImportSource(local, target, |target|, m.id, p - |local|);
    }
  }

  lemma LocalIsPrefix(local: seq<Record>, target: seq<Record>, m: Record)
    ensures var out := MergedRecords(local, target, m);
            |local| < |out| && out[..|local|] == local && out[|out| - 1] == m && SameShape(local, out, |local|)
  {
    var out := MergedRecords(local, target, m);
    assert forall i | 0 <= i < |local| :: out[i] == local[i];
  }

  /** Before the merge record, the canonical line is the local one. */
  lemma LineBeforeMerge(local: seq<Record>, target: seq<Record>, m: Record)
    ensures var out := MergedRecords(local, target, m);
            LastCanonical(out, |out| - 1) == LastCanonical(local, |local|)
            && LastContent(out, |out| - 1) == LastContent(local, |local|)
  {
    hide Imports;
    var out := MergedRecords(local, target, m);
    LocalIsPrefix(local, target, m);
    ImportsAreForeign(local, target, m);
    LastCanonicalIs(out, |out| - 1, LastCanonical(local, |local|));
    LastContentIs(out, |out| - 1, LastContent(local, |local|));
  }

  /** The target's head is imported, so the merge's one source is its own import. */
  lemma HeadIsImported(hash: Hash, local: Graph, target: Graph, m: Record)
    requires Diverged(hash, local, target) && Closing(hash, local, target, m)
    ensures var out := MergedRecords(local.records, target.records, m);
            ImportFor(out, |out| - 1, target.head)
  {
    hide CanonicalText, GoodRecord, ChainOk, ImportsOk, MergesOk, CompactionsOk, LineAfter, GoodSlots, GoodLease;
    var l, tr := local.records, target.records;
    HeadIsLast(tr, target.head, target.contentHead);
    ImportInList(l, tr, |tr| - 1, m);
    LocalIsPrefix(l, tr, m);
    var out, p := MergedRecords(l, tr, m), At(l, tr, |tr| - 1, m);
    assert out[p] == AsImport(tr[|tr| - 1], m.id);
  }

  lemma NewIdAtEnd(hash: Hash, local: Graph, target: Graph, m: Record)
    requires Diverged(hash, local, target) && Closing(hash, local, target, m)
    ensures var out := MergedRecords(local.records, target.records, m);
            !Occurs(out, |out| - 1, m.id)
  {
    hide CanonicalText, GoodRecord, ChainOk, ImportsOk, MergesOk, CompactionsOk, LineAfter, GoodSlots, GoodLease;
    var l, tr := local.records, target.records;
    var out := MergedRecords(l, tr, m);
    ClosingIsFresh(hash, local, target, m);
    LocalIsPrefix(l, tr, m);
    forall p | 0 <= p < |out| - 1 ensures out[p].id != m.id {
      if p < |l| {
        assert out[p] == l[p];
      } else {
        var t := ImportSource(l, tr, |tr|, m.id, p - |l|);
        assert out[p].id == tr[t].id;
      }
    }
  }

  /** The chain rules: the merge follows the local head and content head, and its identifier is new. */
  lemma MergeFollows(hash: Hash, local: Graph, target: Graph, m: Record)
    requires Diverged(hash, local, target) && Closing(hash, local, target, m)
    ensures var out := MergedRecords(local.records, target.records, m);
            var n := |out| - 1;
            n >= 0 && FollowsLine(out, n) && FollowsContent(out, n) && !Occurs(out, n, m.id)
  {
    hide CanonicalText, GoodRecord, ChainOk, ImportsOk, MergesOk, CompactionsOk, LineAfter, GoodSlots, GoodLease, Imports;
    LocalIsPrefix(local.records, target.records, m);
    LineBeforeMerge(local.records, target.records, m);
    NewIdAtEnd(hash, local, target, m);
  }

  /** The import rule: the merge's one source is an import that names it. */
  lemma MergeOwnsSource(hash: Hash, local: Graph, target: Graph, m: Record)
    requires Diverged(hash, local, target) && Closing(hash, local, target, m)
    ensures var out := MergedRecords(local.records, target.records, m); |out| > 0 && SourcesOwned(out, |out| - 1)
  {
    hide CanonicalText, GoodRecord, ChainOk, ImportsOk, MergesOk, CompactionsOk, LineAfter, GoodSlots, GoodLease, Imports,
         LastCanonical, LastContent;
    HeadIsImported(hash, local, target, m);
  }

  /** The heads: the merge is the last canonical and the last text-carrying record. */
  lemma MergeIsHead(local: seq<Record>, target: seq<Record>, m: Record)
    requires !m.foreign && m.imm.kind == Content
    ensures HeadsOk(MergedRecords(local, target, m), m.id, m.id)
  {
    var out := MergedRecords(local, target, m);
    LastCanonicalIs(out, |out|, |out| - 1);
    LastContentIs(out, |out|, |out| - 1);
  }

  lemma MergeStep(hash: Hash, local: Graph, target: Graph, m: Record)
    requires Diverged(hash, local, target) && Closing(hash, local, target, m)
    ensures var out := MergedRecords(local.records, target.records, m);
            StepOk(out, |out| - 1) && HeadsOk(out, m.id, m.id)
  {
    hide Diverged, MergedRecords, RefsBefore, FollowsLine, FollowsContent, SourcesOwned, Occurs, HeadsOk;
    MergeRefs(hash, local, target, m);
    MergeFollows(hash, local, target, m);
    MergeOwnsSource(hash, local, target, m);
    MergeIsHead(local.records, target.records, m);
    assert MergedRecords(local.records, target.records, m)[|MergedRecords(local.records, target.records, m)| - 1] == m by {
      MergeIsLast(local.records, target.records, m);
    }
  }

  lemma MergeIsLast(local: seq<Record>, target: seq<Record>, m: Record)
    ensures var out := MergedRecords(local, target, m); |out| > 0 && out[|out| - 1] == m
  {
  }

  lemma MergeRefs(hash: Hash, local: Graph, target: Graph, m: Record)
    requires Diverged(hash, local, target) && Closing(hash, local, target, m)
    ensures var out := MergedRecords(local.records, target.records, m);
            |out| > 0 && RefsBefore(out, |out| - 1)
  {
    hide CanonicalText, GoodRecord, ChainOk, ImportsOk, MergesOk, CompactionsOk, LineAfter, GoodSlots, GoodLease,
         Imports;
    var l, tr := local.records, target.records;
    var out := MergedRecords(l, tr, m);
    var n := |out| - 1;
    LocalIsPrefix(l, tr, m);
    HeadIsImported(hash, local, target, m);
    var p, c := LastCanonical(l, |l|), LastContent(l, |l|);
    assert out[p].id == local.head && out[c].id == local.contentHead;
    assert Occurs(out, n, target.head);
    forall id | Refers(m.imm, id) ensures Occurs(out, n, id) {
      assert id == local.head || id == local.contentHead || id == target.head;
    }
  }

  lemma MergedChain(hash: Hash, local: Graph, target: Graph, m: Record)
    requires Diverged(hash, local, target) && Closing(hash, local, target, m)
    ensures ChainOk(MergedRecords(local.records, target.records, m))
  {
    hide CanonicalText, GoodImmutable, ImportsOk, MergesOk, CompactionsOk, LineAfter, GoodSlots, GoodLease, StepOk;
    var l, tr := local.records, target.records;
    var out := MergedRecords(l, tr, m);
    LocalIsPrefix(l, tr, m);
    NothingProvisional(hash, local);
    OldSteps(l, out);
    forall p | 0 <= p < |out| ensures StepOk(out, p) {
      if |l| <= p < |out| - 1 {
        var t := ImportSource(l, tr, |tr|, m.id, p - |l|);
        ImportStep(hash, local, target, m, t);
      } else if p == |out| - 1 {
        MergeStep(hash, local, target, m);
      }
    }
  }

  lemma NothingProvisional(hash: Hash, g: Graph)
    requires Decodable(hash, g, DEFAULT_LIMITS) && !HasProvisional(g)
    ensures forall i | 0 <= i < |g.records| :: !g.records[i].provisional
  {
    TailFacts(hash, g);
  }

  // ---------- The imports form a closed path ----------

  /** Every import is met on the way back from the merge's source, the target's head. */
  lemma {:induction false} ImportReached(hash: Hash, local: Graph, target: Graph, m: Record, t: nat)
    requires Diverged(hash, local, target) && Closing(hash, local, target, m)
    requires t < |target.records| && !Holds(local.records, target.records[t].id)
    ensures var out := MergedRecords(local.records, target.records, m);
            At(local.records, target.records, t, m) < |out| - 1
            && Reached(out, |out| - 1, At(local.records, target.records, t, m))
    decreases |target.records| - t
  {
    hide CanonicalText, GoodRecord, ChainOk, ImportsOk, MergesOk, CompactionsOk, LineAfter, GoodSlots, GoodLease,
         Imports, StepOk, GoodImmutable;
    var l, tr := local.records, target.records;
    var out := MergedRecords(l, tr, m);
    LocalIsPrefix(l, tr, m);
    ImportInList(l, tr, t, m);
    if t + 1 == |tr| {
      HeadIsLast(tr, target.head, target.contentHead);
      assert out[At(l, tr, t, m)].id in out[|out| - 1].imm.mergeSources;
    } else {
      NamedLater(tr, target.head, target.contentHead, t);
      var j :| t < j < |tr| && Refers(tr[j].imm, tr[t].id);
      MissingFacts(hash, local, target, t);
      ImportReached(hash, local, target, m, j);
      ImportInList(l, tr, j, m);
      ImportedAtRank(l, tr, t, j, m.id);
      assert OwnedBy(out[At(l, tr, j, m)], m.id);
    }
  }

  /** The oldest missing record hangs on something local: the imports rejoin the shared history. */
  lemma {:induction false} RejoinsLocal(hash: Hash, local: Graph, target: Graph, m: Record, t: nat) returns (i: nat)
    requires Diverged(hash, local, target) && Closing(hash, local, target, m)
    requires t < |target.records| && !Holds(local.records, target.records[t].id)
    ensures i < |local.records|
    ensures var out := MergedRecords(local.records, target.records, m); Reached(out, |out| - 1, i)
  {
    hide CanonicalText, GoodRecord, ChainOk, ImportsOk, MergesOk, CompactionsOk, LineAfter, GoodSlots, GoodLease,
         Imports, GoodImmutable;
    var l, tr := local.records, target.records;
    var out := MergedRecords(l, tr, m);
    MissingFacts(hash, local, target, t);
    var id := tr[t].imm.previous.value;
    assert Refers(tr[t].imm, id) && Occurs(tr, t, id);
    var u :| 0 <= u < t && tr[u].id == id;
    if Holds(l, id) {
      i :| 0 <= i < |l| && l[i].id == id;
      LocalIsPrefix(l, tr, m);
      ImportReached(hash, local, target, m, t);
      ImportInList(l, tr, t, m);
      assert OwnedBy(out[At(l, tr, t, m)], m.id) && Refers(out[At(l, tr, t, m)].imm, out[i].id);
    } else {
      i := RejoinsLocal(hash, local, target, m, u);
    }
  }

  lemma MergeShares(hash: Hash, local: Graph, target: Graph, m: Record)
    requires Diverged(hash, local, target) && Closing(hash, local, target, m)
    ensures var out := MergedRecords(local.records, target.records, m); |out| > 0 && Shares(out, |out| - 1)
  {
    hide CanonicalText, GoodRecord, ChainOk, MergesOk, CompactionsOk, LineAfter, GoodSlots, GoodLease, Imports, Reached;
    var l, tr := local.records, target.records;
    var out := MergedRecords(l, tr, m);
    LocalIsPrefix(l, tr, m);
    HeadIsLast(tr, target.head, target.contentHead);
    var i := RejoinsLocal(hash, local, target, m, |tr| - 1);
    assert out[i] == l[i];
    NotOwnedByNew(hash, local, target, m, i);
  }

  lemma NotOwnedByNew(hash: Hash, local: Graph, target: Graph, m: Record, i: nat)
    requires Diverged(hash, local, target) && Closing(hash, local, target, m) && i < |local.records|
    ensures !OwnedBy(local.records[i], m.id)
  {
    hide CanonicalText, GoodRecord, ChainOk, MergesOk, CompactionsOk, LineAfter, GoodSlots, GoodLease;
    ClosingIsFresh(hash, local, target, m);
    if local.records[i].foreign {
      assert Resolved(local.records, i);
    }
  }

  lemma MergedClosed(hash: Hash, local: Graph, target: Graph, m: Record)
    requires Diverged(hash, local, target) && Closing(hash, local, target, m)
    ensures var out := MergedRecords(local.records, target.records, m); |out| > 0 && ClosedImport(out, |out| - 1)
  {
    hide CanonicalText, GoodRecord, ChainOk, ImportsOk, MergesOk, CompactionsOk, LineAfter, GoodSlots, GoodLease,
         Imports, Reached;
    var l, tr := local.records, target.records;
    var out := MergedRecords(l, tr, m);
    LocalIsPrefix(l, tr, m);
    MergeShares(hash, local, target, m);
    NothingNamesHead(tr, target.head, target.contentHead);
    forall p | 0 <= p < |out| && OwnedBy(out[p], m.id)
      ensures Reached(out, |out| - 1, p)
      ensures out[p].imm.previous != Some(target.head) && out[p].imm.contentParent != Some(target.head)
    {
      if p < |l| {
        assert out[p] == l[p];
        NotOwnedByNew(hash, local, target, m, p);
      } else {
        var t := ImportSource(l, tr, |tr|, m.id, p - |l|);
        ImportReached(hash, local, target, m, t);
        ImportInList(l, tr, t, m);
        assert !Refers(tr[t].imm, target.head);
      }
    }
  }

  lemma MergedImports(hash: Hash, local: Graph, target: Graph, m: Record)
    requires Diverged(hash, local, target) && Closing(hash, local, target, m)
    ensures var out := MergedRecords(local.records, target.records, m); ImportsOk(out) && MergesOk(out)
  {
    hide CanonicalText, GoodRecord, ChainOk, CompactionsOk, LineAfter, GoodSlots, GoodLease, Imports, Reached,
         ClosedImport, Resolved;
    var l, tr := local.records, target.records;
    var out := MergedRecords(l, tr, m);
    var n := |out| - 1;
    LocalIsPrefix(l, tr, m);
    ImportsAreForeign(l, tr, m);
    ClosingIsFresh(hash, local, target, m);
    OldImports(l, out);
    MergedClosed(hash, local, target, m);
    forall p | |l| <= p < n ensures Resolved(out, p) {
      var t := ImportSource(l, tr, |tr|, m.id, p - |l|);
      MissingFacts(hash, local, target, t);
      ImportResolved(out, p, t, tr, m);
    }
  }

  lemma ImportResolved(out: seq<Record>, p: nat, t: nat, target: seq<Record>, m: Record)
    requires p + 1 < |out| && t < |target| && out[p] == AsImport(target[t], m.id)
    requires out[|out| - 1] == m && Merge(m)
    requires GoodImmutable(target[t].imm, DEFAULT_LIMITS) && target[t].imm.kind != Baseline
    ensures Resolved(out, p)
  {
    assert OwnedBy(out[p], out[|out| - 1].id);
  }

  // ---------- Text, compactions, record checks ----------

  lemma {:induction false} ForeignLeaveLine(rs: seq<Record>, lo: nat, hi: nat, limits: Limits)
    requires lo <= hi <= |rs| && forall i | lo <= i < hi :: rs[i].foreign
    ensures LineAfter(rs, hi, limits) == LineAfter(rs, lo, limits)
    decreases hi - lo
  {
    if lo < hi { ForeignLeaveLine(rs, lo, hi - 1, limits); }
  }

  lemma MergedLine(local: seq<Record>, target: seq<Record>, m: Record)
    ensures var out := MergedRecords(local, target, m);
            LineAfter(out, |out|, DEFAULT_LIMITS)
            == Advance(LineAfter(local, |local|, DEFAULT_LIMITS), m, DEFAULT_LIMITS)
  {
    hide Advance, Imports;
    var out := MergedRecords(local, target, m);
    LocalIsPrefix(local, target, m);
    ImportsAreForeign(local, target, m);
    assert local[..|local|] == local;
    LineOfPrefix(local, out, |local|, DEFAULT_LIMITS);
    ForeignLeaveLine(out, |local|, |out| - 1, DEFAULT_LIMITS);
  }

  lemma MergedCompactions(local: seq<Record>, target: seq<Record>, m: Record)
    requires CompactionsOk(local) && m.imm.event.None?
    ensures CompactionsOk(MergedRecords(local, target, m))
  {
    hide Imports;
    var out := MergedRecords(local, target, m);
    LocalIsPrefix(local, target, m);
    ImportsAreForeign(local, target, m);
    assert forall i | 0 <= i < |local| :: out[i] == out[..|local|][i];
    OldCompactions(local, out);
  }

  lemma MergedGood(hash: Hash, local: Graph, target: Graph, m: Record)
    requires Diverged(hash, local, target) && GoodRecord(m, DEFAULT_LIMITS) && m.id == hash(m.imm)
    ensures var out := MergedRecords(local.records, target.records, m);
            GoodRecords(out, DEFAULT_LIMITS) && SealedBy(hash, out)
  {
    hide CanonicalText, ValidGraph, GoodSlots, GoodLease, Imports, GoodImmutable;
    var l, tr := local.records, target.records;
    var out := MergedRecords(l, tr, m);
    LocalIsPrefix(l, tr, m);
    forall p | 0 <= p < |out| ensures GoodRecord(out[p], DEFAULT_LIMITS) && out[p].id == hash(out[p].imm) {
      if p < |l| {
        assert out[p] == l[p] && GoodRecord(l[p], DEFAULT_LIMITS);
      } else if p < |out| - 1 {
        var t := ImportSource(l, tr, |tr|, m.id, p - |l|);
        assert GoodRecord(tr[t], DEFAULT_LIMITS);
      }
    }
  }

  // ---------- Closure ----------

  /** The inputs a merge accepts before it looks at the lineage. */
  ghost predicate MergeAllowed(local: Graph, target: Graph, s: MergeRequest) {
    && !HasProvisional(local) && !HasProvisional(target)
    && s.timestamp <= MAX_TIME && GoodWhole(s.content, DEFAULT_LIMITS)
    && s.profileName != "" && s.profileEmail != "" && s.device != ""
    && MayMerge(target.slots, s.actor.id)
  }

  predicate MayMerge(slots: seq<Slot>, actor: SlotId) {
    exists i | 0 <= i < |slots| :: slots[i].id == actor && Allows(slots[i].permissions, EDIT) && !slots[i].mustBeChanged
  }

  lemma MergeRecordGood(hash: Hash, local: Graph, target: Graph, s: MergeRequest, text: Bytes)
    requires s.timestamp <= MAX_TIME && GoodWhole(s.content, DEFAULT_LIMITS)
    requires s.profileName != "" && s.profileEmail != "" && s.device != ""
    ensures var m := MergeRecord(hash, local, target, s, text);
            GoodRecord(m, DEFAULT_LIMITS) && Closing(hash, local, target, m)
            && Advance(Known(text), m, DEFAULT_LIMITS) == Known(s.content)
  {
    hide CanonicalText, DiffBody, Patched, TotalWidth;
    DiffPatches(text, s.content, DEFAULT_LIMITS);
    assert DiffBody(text, s.content).Patch? && DiffBody(text, s.content).length == |s.content| by { DiffShape(text, s.content); }
  }

  lemma DiffShape(from: Bytes, to: Bytes)
    ensures DiffBody(from, to).Patch? && DiffBody(from, to).length == |to|
  {
  }

  /** The list a merge of diverged replicas builds passes every check of the validator. */
  lemma MergedIsValid(hash: Hash, local: Graph, target: Graph, s: MergeRequest)
    requires Diverged(hash, local, target) && MergeAllowed(local, target, s)
    ensures var out := MergedGraph(hash, local, target, s);
            ValidGraph(out.records, out.head, out.contentHead, DEFAULT_LIMITS)
            && GoodRecords(out.records, DEFAULT_LIMITS) && SealedBy(hash, out.records)
            && LineAfter(out.records, |out.records|, DEFAULT_LIMITS) == Known(s.content)
  {
    hide CanonicalText, GoodRecord, ChainOk, ImportsOk, MergesOk, CompactionsOk, GoodSlots, GoodLease, LineAfter,
         Imports, DiffBody, Advance, HeadsOk;
    var text := LineAfter(local.records, |local.records|, DEFAULT_LIMITS).text;
    var m := MergeRecord(hash, local, target, s, text);
    MergeRecordGood(hash, local, target, s, text);
    MergedChain(hash, local, target, m);
    MergeStep(hash, local, target, m);
    MergedImports(hash, local, target, m);
    MergedLine(local.records, target.records, m);
    MergedCompactions(local.records, target.records, m);
    MergedGood(hash, local, target, m);
  }

  /** Merge closure: of diverged replicas, the merged graph decodes exactly when it has room. */
  lemma MergeCloses(hash: Hash, local: Graph, target: Graph, s: MergeRequest)
    requires Diverged(hash, local, target) && MergeAllowed(local, target, s)
    ensures var out := MergedGraph(hash, local, target, s);
            Decodable(hash, out, DEFAULT_LIMITS) <==> |out.records| <= DEFAULT_LIMITS.maxEntries
  {
    hide CanonicalText, GoodRecords, ValidGraph, GoodSlots, GoodLease, SealedBy, MergedGraph;
    MergedIsValid(hash, local, target, s);
    assert MergedGraph(hash, local, target, s).slots == target.slots
           && MergedGraph(hash, local, target, s).lease == target.lease by { MergedSlots(hash, local, target, s); }
  }

  lemma MergedSlots(hash: Hash, local: Graph, target: Graph, s: MergeRequest)
    ensures MergedGraph(hash, local, target, s).slots == target.slots
    ensures MergedGraph(hash, local, target, s).lease == target.lease
  {
  }

  // ---------- What the merged graph means ----------

  /** Every record is imported at most once and every target record is held afterwards. */
  lemma MergeHoldsTarget(hash: Hash, local: Graph, target: Graph, s: MergeRequest, t: nat)
    requires Diverged(hash, local, target) && MergeAllowed(local, target, s) && t < |target.records|
    ensures var out := MergedGraph(hash, local, target, s).records;
            && Distinct(out) && Holds(out, target.records[t].id)
            && (!Holds(local.records, target.records[t].id) ==>
                  exists p :: |local.records| <= p < |out| - 1
                              && out[p] == AsImport(target.records[t], MergedGraph(hash, local, target, s).head))
  {
    hide CanonicalText, Decodable, MergeAllowed, LineAfter, Imports, ChainOk, ImportsOk, MergesOk, CompactionsOk,
         GoodRecord, ContentRecord, At, HeadsOk;
    MergedIsValid(hash, local, target, s);
    var g := MergedGraph(hash, local, target, s);
    DistinctIds(g.records);
    var text := match LineAfter(local.records, |local.records|, DEFAULT_LIMITS)
      case Known(x) => x
      case _ => [];
    var m := MergeRecord(hash, local, target, s, text);
    assert g.records == MergedRecords(local.records, target.records, m) && g.head == m.id;
    if Holds(local.records, target.records[t].id) {
      LocalIsPrefix(local.records, target.records, m);
      var i :| 0 <= i < |local.records| && local.records[i].id == target.records[t].id;
      assert g.records[i].id == local.records[i].id;
    } else {
      ImportInList(local.records, target.records, t, m);
      var p := At(local.records, target.records, t, m);
      assert g.records[p] == AsImport(target.records[t], g.head);
    }
  }

  /** The canonical line grows by the merge alone, and no earlier revision reads differently. */
  lemma MergeKeepsLine(hash: Hash, local: Graph, target: Graph, s: MergeRequest)
    requires Diverged(hash, local, target) && MergeAllowed(local, target, s)
    ensures var out := MergedGraph(hash, local, target, s);
            && |local.records| < |out.records| && out.records[..|local.records|] == local.records
            && CanonicalIds(out.records, |out.records|)
               == CanonicalIds(local.records, |local.records|) + [out.head]
            && forall n | 0 <= n <= |local.records| ::
                 LineAfter(out.records, n, DEFAULT_LIMITS) == LineAfter(local.records, n, DEFAULT_LIMITS)
  {
    hide CanonicalText, Decodable, MergeAllowed, LineAfter, Imports, DiffBody;
    var text := match LineAfter(local.records, |local.records|, DEFAULT_LIMITS)
      case Known(x) => x
      case _ => [];
    var m := MergeRecord(hash, local, target, s, text);
    var l := local.records;
    var out := MergedRecords(l, target.records, m);
    LocalIsPrefix(l, target.records, m);
    ImportsAreForeign(l, target.records, m);
    ForeignLeaveIds(out, |l|, |out| - 1);
    SameIds(l, out, |l|);
    forall n | 0 <= n <= |l| ensures LineAfter(out, n, DEFAULT_LIMITS) == LineAfter(l, n, DEFAULT_LIMITS) {
      assert out[..n] == l[..n];
      LineOfPrefix(out, l, n, DEFAULT_LIMITS);
    }
  }

  lemma {:induction false} ForeignLeaveIds(rs: seq<Record>, lo: nat, hi: nat)
    requires lo <= hi <= |rs| && forall i | lo <= i < hi :: rs[i].foreign
    ensures CanonicalIds(rs, hi) == CanonicalIds(rs, lo)
    decreases hi - lo
  {
    if lo < hi { ForeignLeaveIds(rs, lo, hi - 1); }
  }

  lemma {:induction false} SameIds(a: seq<Record>, b: seq<Record>, n: nat)
    requires SameShape(a, b, n)
    ensures CanonicalIds(a, n) == CanonicalIds(b, n)
  {
    if n > 0 { SameIds(a, b, n - 1); }
  }

  /** After the merge, local history has merely advanced and the target has nothing left to offer. */
  lemma MergeSettlesLineage(hash: Hash, local: Graph, target: Graph, s: MergeRequest)
    requires Diverged(hash, local, target) && MergeAllowed(local, target, s)
    ensures var out := MergedGraph(hash, local, target, s);
            VerdictOn(local, out) == Ok(Advanced) && VerdictOn(out, target) == Err(Rollback)
  {
    hide CanonicalText, MergeAllowed, LineAfter, Imports, ChainOk, ImportsOk, MergesOk, CompactionsOk, GoodRecord,
         GoodSlots, GoodLease, MergedGraph;
    var out := MergedGraph(hash, local, target, s);
    MergeKeepsLine(hash, local, target, s);
    MergedIsValid(hash, local, target, s);
    HeadIsLast(local.records, local.head, local.contentHead);
    HeadIsLast(target.records, target.head, target.contentHead);
    HeadIsLast(out.records, out.head, out.contentHead);
    DistinctIds(out.records);
    var l := |local.records|;
    assert out.records[l - 1] == out.records[..l][l - 1] == local.records[l - 1];
    var t := |target.records| - 1;
    MergeHoldsTarget(hash, local, target, s, t);
    HeadNotLocal(local, target);
    assert target.records[t].id == target.head && !Holds(local.records, target.head);
    var p :| |local.records| <= p < |out.records| - 1 && out.records[p] == AsImport(target.records[t], out.head);
    assert out.records[p].id == target.head && out.records[p].foreign;
    MergedHeadNotInTarget(hash, local, target, s);
  }

  lemma HeadNotLocal(local: Graph, target: Graph)
    requires VerdictOn(local, target) == Ok(Divergent)
    ensures !Holds(local.records, target.head)
  {
  }

  lemma MergedHeadNotInTarget(hash: Hash, local: Graph, target: Graph, s: MergeRequest)
    requires Diverged(hash, local, target) && MergeAllowed(local, target, s)
    ensures !Holds(target.records, MergedGraph(hash, local, target, s).head)
  {
    hide CanonicalText, Decodable, LineAfter, Imports, DiffBody;
    var text := match LineAfter(local.records, |local.records|, DEFAULT_LIMITS)
      case Known(x) => x
      case _ => [];
    MergeRecordGood(hash, local, target, s, text);
    ClosingIsFresh(hash, local, target, MergeRecord(hash, local, target, s, text));
  }
}
