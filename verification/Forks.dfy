/** When two replicas have forked (src/format/revision_graph.cpp, assess_target), in terms of the records alone. */
module Forks {
  import opened Wrappers
  import opened RevisionRecords
  import opened GraphValidity
  import opened GraphLemmas
  import opened RevisionGraph
  import opened SaveContent
  import opened Lineage
  import opened LineageRuns
  import opened BuilderRuns

  /** The two graphs start from one baseline. */
  predicate SameStart(a: Graph, b: Graph) {
    a.records != [] && b.records != [] && a.records[0].id == b.records[0].id
  }

  lemma StartFacts(hash: Hash, g: Graph)
    requires Decodable(hash, g, DEFAULT_LIMITS)
    ensures g.records != [] && !g.records[0].foreign && !g.records[0].provisional && g.records[0].imm.kind == Baseline
    ensures forall i | 0 < i < |g.records| :: g.records[i].imm.kind != Baseline
    ensures ChainOk(g.records) && SealedBy(hash, g.records)
    ensures !g.records[|g.records| - 1].foreign && g.records[|g.records| - 1].id == g.head
  {
    hide GoodRecord, StepOk, LineAfter, GoodSlots, GoodLease, CompactionsOk, MergesOk, ImportsOk;
    TailFacts(hash, g);
    FirstIsCanonical(g.records);
    HeadIsLast(g.records, g.head, g.contentHead);
    forall i | 0 <= i < |g.records| ensures g.records[i].imm.kind == Baseline <==> i == 0 {
      OnlyBaseline(g.records, g.head, g.contentHead, i);
    }
  }

  lemma {:induction false} LineStarts(rs: seq<Record>, n: nat)
    requires 0 < n <= |rs| && !rs[0].foreign
    ensures CanonicalIds(rs, n) != [] && CanonicalIds(rs, n)[0] == rs[0].id
  {
    if n > 1 { LineStarts(rs, n - 1); }
  }

  /** A record that is canonical in both is only found above one baseline. */
  lemma CanonicalSharesStart(hash: Hash, a: Graph, b: Graph, i: nat, j: nat)
    requires Injective(hash) && Decodable(hash, a, DEFAULT_LIMITS) && Decodable(hash, b, DEFAULT_LIMITS)
    requires i < |a.records| && j < |b.records| && a.records[i].id == b.records[j].id
    requires !a.records[i].foreign && !b.records[j].foreign
    ensures SameStart(a, b)
  {
    hide Decodable, ChainOk, SealedBy;
    StartFacts(hash, a);
    StartFacts(hash, b);
    LineDetermined(hash, a.records, i, b.records, j);
    LineStarts(a.records, i + 1);
    LineStarts(b.records, j + 1);
  }

  /** So is a head held anywhere, as an import too. */
  lemma HeldHeadSharesStart(hash: Hash, a: Graph, b: Graph)
    requires Injective(hash) && Decodable(hash, a, DEFAULT_LIMITS) && Decodable(hash, b, DEFAULT_LIMITS)
    requires Holds(a.records, b.head)
    ensures SameStart(a, b)
  {
    hide Decodable, ChainOk;
    StartFacts(hash, a);
    StartFacts(hash, b);
    HoldingHeadHoldsAll(hash, a, b, 0);
    var i :| 0 <= i < |a.records| && a.records[i].id == b.records[0].id;
    assert a.records[i].imm == b.records[0].imm;
  }

  /** Two graphs are unrelated exactly if their baselines differ. */
  lemma BaselineDecides(hash: Hash, local: Graph, target: Graph)
    requires Injective(hash) && Decodable(hash, local, DEFAULT_LIMITS) && Decodable(hash, target, DEFAULT_LIMITS)
    ensures local.records != [] && target.records != []
    ensures VerdictOn(local, target) == Err(UnrelatedTarget) <==> local.records[0].id != target.records[0].id
  {
    hide Decodable, ChainOk, SealedBy;
    StartFacts(hash, local);
    StartFacts(hash, target);
    var l, t := |local.records| - 1, |target.records| - 1;
    if local.head == target.head { CanonicalSharesStart(hash, local, target, l, t); }
    if j :| 0 <= j < |target.records| && target.records[j].id == local.head && !target.records[j].foreign {
      CanonicalSharesStart(hash, local, target, l, j);
    }
    if Holds(local.records, target.head) { HeldHeadSharesStart(hash, local, target); }
    if j :| 0 <= j < |target.records| && !target.records[j].foreign && HoldsCanonical(local.records, target.records[j].id) {
      var i :| 0 <= i < |local.records| && local.records[i].id == target.records[j].id && !local.records[i].foreign;
      CanonicalSharesStart(hash, local, target, i, j);
    }
    if SameStart(local, target) { assert HoldsCanonical(local.records, target.records[0].id); }
  }

  /** Each went on without the other: neither's head is in the other's list, as far as each looks. */
  predicate Forked(local: Graph, target: Graph) {
    && local.head != target.head
    && (forall j | 0 <= j < |target.records| :: target.records[j].id == local.head ==> target.records[j].foreign)
    && (forall i | 0 <= i < |local.records| :: local.records[i].id != target.head)
  }

  /** The whole answer on graphs with one baseline. */
  lemma ForkedIsDivergent(hash: Hash, local: Graph, target: Graph)
    requires Injective(hash) && Decodable(hash, local, DEFAULT_LIMITS) && Decodable(hash, target, DEFAULT_LIMITS)
    requires SameStart(local, target)
    ensures VerdictOn(local, target) == Ok(Divergent) <==> Forked(local, target)
    ensures VerdictOn(local, target) == Ok(Unchanged) <==> local.head == target.head
    ensures VerdictOn(local, target) == Err(Rollback)
            <==> local.head != target.head && exists i :: 0 <= i < |local.records| && local.records[i].id == target.head
    ensures VerdictOn(local, target) in {Ok(Unchanged), Ok(Advanced), Ok(Divergent), Err(Rollback)}
  {
    hide Decodable, Related;
    BaselineDecides(hash, local, target);
    if Holds(local.records, target.head) && HoldsCanonical(target.records, local.head) { MutualHeads(hash, local, target); }
  }

  lemma RunKeepsStart(hash: Hash, gs: seq<Graph>, ops: seq<Operation>, i: nat)
    requires Injective(hash) && Run(hash, gs, ops) && Built(hash, gs[0]) && i < |gs|
    ensures SameStart(gs[0], gs[i])
  {
    hide Decodable, Run;
    RunsStayBuilt(hash, gs, ops, 0);
    PublishedRecordsStay(hash, gs, ops, 0, i);
    StartFacts(hash, gs[0]);
    assert SealedCount(gs[0]) > 0;
  }

  /**
   * Over any two runs of the builders from one graph the replicas are never strangers, and they are
   * divergent exactly if they forked.
   */
  lemma TwoRunsFork(hash: Hash, gs: seq<Graph>, ops: seq<Operation>, hs: seq<Graph>, others: seq<Operation>, i: nat, j: nat)
    requires Injective(hash) && Run(hash, gs, ops) && Run(hash, hs, others) && Built(hash, gs[0]) && hs[0] == gs[0]
    requires i < |gs| && j < |hs|
    ensures VerdictOn(gs[i], hs[j]) != Err(UnrelatedTarget)
    ensures VerdictOn(gs[i], hs[j]) == Ok(Divergent) <==> Forked(gs[i], hs[j])
  {
    hide Decodable, Run, AvailableSuffix, DraftRemovable, VerdictOn, Forked;
    RunsStayBuilt(hash, gs, ops, i);
    RunsStayBuilt(hash, hs, others, j);
    RunKeepsStart(hash, gs, ops, i);
    RunKeepsStart(hash, hs, others, j);
    ForkedIsDivergent(hash, gs[i], hs[j]);
  }
}
