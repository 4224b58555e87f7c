/** Comparing two replicas of one document (src/format/revision_graph.cpp, assess_target). */
module Lineage {
  import opened Wrappers
  import opened TextValidation
  import opened RevisionRecords
  import opened GraphValidity
  import opened GraphLemmas
  import opened RevisionGraph

  datatype Verdict = Unchanged | Advanced | Divergent

  predicate Holds(rs: seq<Record>, id: RevisionId) {
    Occurs(rs, |rs|, id)
  }

  predicate HoldsCanonical(rs: seq<Record>, id: RevisionId) {
    exists i | 0 <= i < |rs| :: rs[i].id == id && !rs[i].foreign
  }

  /** The two graphs share a record that is canonical in both. */
  predicate Related(local: seq<Record>, target: seq<Record>) {
    exists j | 0 <= j < |target| :: !target[j].foreign && HoldsCanonical(local, target[j].id)
  }

  function VerdictOn(local: Graph, target: Graph): Result<Verdict, Error> {
    if local.head == target.head then Ok(Unchanged)
    else if HoldsCanonical(target.records, local.head) then Ok(Advanced)
    else if Holds(local.records, target.head) then Err(Rollback)
    else if !Related(local.records, target.records) then Err(UnrelatedTarget)
    else Ok(Divergent)
  }

  // ---------- Identifiers determine ancestry ----------

  /** Two graphs that share a record share everything that record names. */
  lemma SharedAncestor(hash: Hash, a: Graph, b: Graph, j: nat, id: RevisionId)
    requires Injective(hash) && Decodable(hash, a, DEFAULT_LIMITS) && Decodable(hash, b, DEFAULT_LIMITS)
    requires j < |b.records| && Holds(a.records, b.records[j].id) && Refers(b.records[j].imm, id)
    ensures Holds(a.records, id)
  {
    hide CanonicalText, GoodRecord, ImportsOk, MergesOk, CompactionsOk, LineAfter, GoodSlots, GoodLease;
    var i :| 0 <= i < |a.records| && a.records[i].id == b.records[j].id;
    assert a.records[i].imm == b.records[j].imm;
    assert StepOk(a.records, i) && Occurs(a.records, i, id);
  }

  ghost function IdsOf(rs: seq<Record>): set<RevisionId> {
    set i | 0 <= i < |rs| :: rs[i].id
  }

  /** A graph that holds the other's head holds everything the other holds. */
  lemma HoldingHeadHoldsAll(hash: Hash, a: Graph, b: Graph, j: nat)
    requires Injective(hash) && Decodable(hash, a, DEFAULT_LIMITS) && Decodable(hash, b, DEFAULT_LIMITS)
    requires Holds(a.records, b.head) && j < |b.records|
    ensures Holds(a.records, b.records[j].id)
  {
    hide Decodable;
    var ids := IdsOf(a.records);
    assert ClosedUnder(b.records, ids) by {
      forall k, id | 0 <= k < |b.records| && b.records[k].id in ids && Refers(b.records[k].imm, id) ensures id in ids {
        SharedAncestor(hash, a, b, k, id);
      }
    }
    assert b.head in ids;
    assert ValidGraph(b.records, b.head, b.contentHead, DEFAULT_LIMITS) by { ValidPart(hash, b); }
    AllDescendToHead(b.records, b.head, b.contentHead, ids, j);
  }

  lemma ValidPart(hash: Hash, g: Graph)
    requires Decodable(hash, g, DEFAULT_LIMITS)
    ensures ValidGraph(g.records, g.head, g.contentHead, DEFAULT_LIMITS)
  {
  }

  // ---------- The canonical line ----------

  /** Identifiers of the canonical records among the first n, oldest first. */
  function CanonicalIds(rs: seq<Record>, n: nat): seq<RevisionId>
    requires n <= |rs|
  {
    if n == 0 then []
    else if rs[n - 1].foreign then CanonicalIds(rs, n - 1)
    else CanonicalIds(rs, n - 1) + [rs[n - 1].id]
  }

  lemma {:induction false} IdsUpToLast(rs: seq<Record>, n: nat)
    requires n <= |rs|
    ensures CanonicalIds(rs, n) == CanonicalIds(rs, LastCanonical(rs, n) + 1)
  {
    if n > 0 && rs[n - 1].foreign { IdsUpToLast(rs, n - 1); }
  }

  lemma {:induction false} IdsGrow(rs: seq<Record>, m: nat, n: nat)
    requires m <= n <= |rs|
    ensures CanonicalIds(rs, m) <= CanonicalIds(rs, n)
    decreases n - m
  {
    if m < n { IdsGrow(rs, m, n - 1); }
  }

  /** Equal identifiers end equal canonical histories, whichever graph they sit in. */
  lemma {:induction false} LineDetermined(hash: Hash, a: seq<Record>, i: nat, b: seq<Record>, j: nat)
    requires Injective(hash) && SealedBy(hash, a) && SealedBy(hash, b) && ChainOk(a) && ChainOk(b)
    requires i < |a| && j < |b| && !a[i].foreign && !b[j].foreign && a[i].id == b[j].id
    ensures CanonicalIds(a, i + 1) == CanonicalIds(b, j + 1)
  {
    hide RefsBefore, FollowsContent, SourcesOwned, Occurs;
    assert StepOk(a, i) && StepOk(b, j);
    assert FollowsLine(a, i) && FollowsLine(b, j);
    assert a[i].imm == b[j].imm;
    var p, q := LastCanonical(a, i), LastCanonical(b, j);
    IdsUpToLast(a, i);
    IdsUpToLast(b, j);
    if p >= 0 {
      LineDetermined(hash, a, p, b, q);
    }
  }

  // ---------- What the verdicts mean ----------

  /** Advanced: the target continues exactly the local canonical line and knows every local record. */
  lemma AdvancedExtends(hash: Hash, local: Graph, target: Graph)
    requires Injective(hash) && Decodable(hash, local, DEFAULT_LIMITS) && Decodable(hash, target, DEFAULT_LIMITS)
    requires VerdictOn(local, target) == Ok(Advanced)
    ensures CanonicalIds(local.records, |local.records|) < CanonicalIds(target.records, |target.records|)
    ensures forall i | 0 <= i < |local.records| :: Holds(target.records, local.records[i].id)
  {
    hide CanonicalText, GoodRecord, ImportsOk, MergesOk, CompactionsOk, LineAfter, GoodSlots, GoodLease, StepOk;
    var n := |local.records|;
    HeadIsLast(local.records, local.head, local.contentHead);
    HeadIsLast(target.records, target.head, target.contentHead);
    var j :| 0 <= j < |target.records| && target.records[j].id == local.head && !target.records[j].foreign;
    LineDetermined(hash, local.records, n - 1, target.records, j);
    IdsGrow(target.records, j + 1, |target.records| - 1);
    assert Holds(target.records, local.head);
    forall i | 0 <= i < n ensures Holds(target.records, local.records[i].id) {
      HoldingHeadHoldsAll(hash, target, local, i);
    }
  }

  /** Rollback: everything the target holds is already local. */
  lemma RollbackIsContained(hash: Hash, local: Graph, target: Graph)
    requires Injective(hash) && Decodable(hash, local, DEFAULT_LIMITS) && Decodable(hash, target, DEFAULT_LIMITS)
    requires VerdictOn(local, target) == Err(Rollback)
    ensures forall j | 0 <= j < |target.records| :: Holds(local.records, target.records[j].id)
  {
    hide Decodable;
    forall j | 0 <= j < |target.records| ensures Holds(local.records, target.records[j].id) {
      HoldingHeadHoldsAll(hash, local, target, j);
    }
  }

  /** Two graphs that hold each other's heads have the same head. */
  lemma MutualHeads(hash: Hash, a: Graph, b: Graph)
    requires Injective(hash) && Decodable(hash, a, DEFAULT_LIMITS) && Decodable(hash, b, DEFAULT_LIMITS)
    requires Holds(a.records, b.head) && Holds(b.records, a.head)
    ensures a.head == b.head
  {
    hide CanonicalText, GoodRecord, ImportsOk, MergesOk, CompactionsOk, LineAfter, GoodSlots, GoodLease;
    HeadIsLast(a.records, a.head, a.contentHead);
    var k :| 0 <= k < |a.records| && a.records[k].id == b.head;
    // Everything up to b's head in a is closed under references and holds all of b, a's head included.
    var ids := IdsOf(a.records[..k + 1]);
    assert a.records[..k + 1][k].id in ids;
    forall j, id | 0 <= j < |b.records| && b.records[j].id in ids && Refers(b.records[j].imm, id) ensures id in ids {
      var i :| 0 <= i < k + 1 && a.records[..k + 1][i].id == b.records[j].id;
      assert a.records[i].imm == b.records[j].imm;
      assert StepOk(a.records, i) && Occurs(a.records, i, id);
      var h :| 0 <= h < i && a.records[h].id == id;
      assert a.records[..k + 1][h].id in ids;
    }
    var m :| 0 <= m < |b.records| && b.records[m].id == a.head;
    AllDescendToHead(b.records, b.head, b.contentHead, ids, m);
    var l :| 0 <= l < k + 1 && a.records[..k + 1][l].id == a.head;
    DistinctIds(a.records);
  }

  /** Lineage is antisymmetric: what has advanced over a is a rollback when seen the other way. */
  lemma AdvancedReversed(hash: Hash, a: Graph, b: Graph)
    requires Injective(hash) && Decodable(hash, a, DEFAULT_LIMITS) && Decodable(hash, b, DEFAULT_LIMITS)
    requires VerdictOn(a, b) == Ok(Advanced)
    ensures VerdictOn(b, a) == Err(Rollback)
  {
    hide Decodable;
    var j :| 0 <= j < |b.records| && b.records[j].id == a.head && !b.records[j].foreign;
    assert Holds(b.records, a.head);
    if HoldsCanonical(a.records, b.head) {
      assert Holds(a.records, b.head);
      MutualHeads(hash, a, b);
    }
  }

  /** Unchanged: both graphs hold the same records. */
  lemma UnchangedSameRecords(hash: Hash, a: Graph, b: Graph)
    requires Injective(hash) && Decodable(hash, a, DEFAULT_LIMITS) && Decodable(hash, b, DEFAULT_LIMITS)
    requires VerdictOn(a, b) == Ok(Unchanged)
    ensures IdsOf(a.records) == IdsOf(b.records)
    ensures CanonicalIds(a.records, |a.records|) == CanonicalIds(b.records, |b.records|)
  {
    hide CanonicalText, GoodRecord, ImportsOk, MergesOk, CompactionsOk, LineAfter, GoodSlots, GoodLease, StepOk;
    HeadIsLast(a.records, a.head, a.contentHead);
    HeadIsLast(b.records, b.head, b.contentHead);
    assert Holds(a.records, b.head) && Holds(b.records, a.head);
    forall i | 0 <= i < |a.records| ensures a.records[i].id in IdsOf(b.records) {
      HoldingHeadHoldsAll(hash, b, a, i);
    }
    forall i | 0 <= i < |b.records| ensures b.records[i].id in IdsOf(a.records) {
      HoldingHeadHoldsAll(hash, a, b, i);
    }
    LineDetermined(hash, a.records, |a.records| - 1, b.records, |b.records| - 1);
  }

  /** The scan for one identifier, as every lookup in the graph does it. */
  method Find(rs: seq<Record>, id: RevisionId) returns (r: Option<Record>)
    ensures r.Some? <==> Holds(rs, id)
    ensures r.Some? ==> r.value in rs && r.value.id == id
  {
    var i := 0;
    while i < |rs|
      invariant 0 <= i <= |rs|
      invariant !Occurs(rs, i, id)
    {
      if rs[i].id == id { return Some(rs[i]); }
      i := i + 1;
    }
    return None;
  }

  lemma FoundIsUnique(rs: seq<Record>, r: Record)
    requires Distinct(rs) && r in rs
    ensures HoldsCanonical(rs, r.id) <==> !r.foreign
  {
  }

  /** The comparison itself. Two records with one identifier never differ, so it never finds them malformed. */
  method AssessTarget(hash: Hash, local: Graph, target: Graph) returns (r: Result<Verdict, Error>)
    requires Injective(hash) && Decodable(hash, local, DEFAULT_LIMITS) && Decodable(hash, target, DEFAULT_LIMITS)
    ensures r == VerdictOn(local, target)
  {
    hide CanonicalText, GoodRecord, StepOk, ImportsOk, MergesOk, CompactionsOk, LineAfter, GoodSlots, GoodLease;
    DistinctIds(local.records);
    DistinctIds(target.records);
    if local.head == target.head { return Ok(Unchanged); }
    var present := Find(target.records, local.head);
    if present.Some? {
      FoundIsUnique(target.records, present.value);
      if !present.value.foreign { return Ok(Advanced); }
    }
    var rolledBack := Find(local.records, target.head);
    if rolledBack.Some? { return Err(Rollback); }
    var related := false;
    var j := 0;
    while j < |target.records|
      invariant 0 <= j <= |target.records|
      invariant related <==> exists k | 0 <= k < j :: !target.records[k].foreign
                                                  && HoldsCanonical(local.records, target.records[k].id)
    {
      var record := target.records[j];
      var same := Find(local.records, record.id);
      if same.Some? {
        FoundIsUnique(local.records, same.value);
        if same.value.imm != record.imm { return Err(Malformed); }
        if !same.value.foreign && !record.foreign { related := true; }
      }
      j := j + 1;
    }
    return if related then Ok(Divergent) else Err(UnrelatedTarget);
  }
}
