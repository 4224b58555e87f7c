/** Runs of drafted saves: discarding undoes them all, a manual save keeps exactly one. */
module DraftRuns {
  import opened Wrappers
  import opened TextValidation
  import opened RevisionRecords
  import opened GraphValidity
  import opened GraphLemmas
  import opened RevisionGraph
  import opened AppendRecord
  import opened SaveContent

  /** A permitted regular save with a complete profile. */
  ghost predicate Drafting(s: SaveRequest) {
    s.regular && !s.discard && s.timestamp <= MAX_TIME && GoodWhole(s.content, DEFAULT_LIMITS)
    && s.profileName != "" && s.profileEmail != "" && s.device != ""
  }

  ghost predicate Settled(hash: Hash, g: Graph) {
    Injective(hash) && Decodable(hash, g, DEFAULT_LIMITS) && !HasProvisional(g)
  }

  /** g with one draft on top. */
  function WithDraft(hash: Hash, g: Graph, s: SaveRequest): Graph {
    var r := NewRevision(hash, g, s);
    g.(records := g.records + [r], head := r.id, contentHead := r.id)
  }

  /** The graph after a run of saves, oldest first. */
  ghost function AfterRun(hash: Hash, g: Graph, run: seq<SaveRequest>): Option<Graph> {
    if run == [] then Some(g)
    else
      var before := AfterRun(hash, g, run[..|run| - 1]);
      if before.None? || !Decodable(hash, before.value, DEFAULT_LIMITS) then None
      else
        DraftHeads(hash, before.value);
        Some(SavedGraph(hash, before.value, run[|run| - 1]))
  }

  lemma DraftHeads(hash: Hash, g: Graph)
    requires Decodable(hash, g, DEFAULT_LIMITS)
    ensures HasProvisional(g) ==> g.records[|g.records| - 1].imm.previous.Some?
                                  && g.records[|g.records| - 1].imm.contentParent.Some?
  {
    TailFacts(hash, g);
  }

  lemma DraftDecodes(hash: Hash, g: Graph, s: SaveRequest)
    requires Settled(hash, g) && Drafting(s) && |g.records| < DEFAULT_LIMITS.maxEntries
    ensures Decodable(hash, WithDraft(hash, g, s), DEFAULT_LIMITS)
    ensures HasProvisional(WithDraft(hash, g, s))
    ensures Base(WithDraft(hash, g, s)) == g
    ensures DraftRemovable(WithDraft(hash, g, s))
  {
    hide GoodWhole, ValidGraph, GoodRecords, GoodSlots, GoodLease, SealedBy, LineAfter;
    TailFacts(hash, g);
    AppendRevision(hash, g, s);
    var d := WithDraft(hash, g, s);
    assert d.records[..|d.records| - 1] == g.records;
    KnownBelow(hash, g, d);
  }

  lemma KnownBelow(hash: Hash, g: Graph, d: Graph)
    requires Decodable(hash, g, DEFAULT_LIMITS) && |d.records| == |g.records| + 1
    requires d.records[..|d.records| - 1] == g.records
    ensures LineAfter(d.records, |d.records| - 1, DEFAULT_LIMITS).Known?
  {
    hide Advance, GoodRecords, Structured, CompactionsOk;
    assert g.records[..|g.records|] == g.records;
    LineOfPrefix(g.records, d.records, |g.records|, DEFAULT_LIMITS);
  }

  /** However many drafts are saved, only the last one is there, directly on the settled graph. */
  lemma {:induction false} RunKeepsOneDraft(hash: Hash, g: Graph, run: seq<SaveRequest>)
    requires Settled(hash, g) && run != [] && |g.records| < DEFAULT_LIMITS.maxEntries
    requires forall i | 0 <= i < |run| :: Drafting(run[i])
    ensures AfterRun(hash, g, run) == Some(WithDraft(hash, g, run[|run| - 1]))
  {
    hide Decodable, Drafting, SavedGraph, Base, WithDraft;
    var last := run[|run| - 1];
    var before := run[..|run| - 1];
    if before == [] {
      assert AfterRun(hash, g, before) == Some(g);
      FirstDraft(hash, g, last);
    } else {
      RunKeepsOneDraft(hash, g, before);
      var s := before[|before| - 1];
      assert Drafting(s) && Drafting(last);
      DraftDecodes(hash, g, s);
      NextDraft(hash, g, s, last);
    }
  }

  lemma FirstDraft(hash: Hash, g: Graph, s: SaveRequest)
    requires Settled(hash, g) && Drafting(s)
    ensures SavedGraph(hash, g, s) == WithDraft(hash, g, s)
  {
    hide GoodWhole, Decodable, NewRevision;
  }

  lemma NextDraft(hash: Hash, g: Graph, s: SaveRequest, next: SaveRequest)
    requires HasProvisional(WithDraft(hash, g, s)) && Base(WithDraft(hash, g, s)) == g && Drafting(next)
    ensures SavedGraph(hash, WithDraft(hash, g, s), next) == WithDraft(hash, g, next)
  {
    hide GoodWhole, NewRevision;
  }

  /** Any run of drafts followed by a discard restores the settled graph, heads and all. */
  lemma DiscardRestores(hash: Hash, g: Graph, run: seq<SaveRequest>, s: SaveRequest)
    requires Settled(hash, g) && run != [] && |g.records| < DEFAULT_LIMITS.maxEntries
    requires forall i | 0 <= i < |run| :: Drafting(run[i])
    requires s.discard
    ensures AfterRun(hash, g, run + [s]) == Some(g)
  {
    hide Decodable, Drafting, Base, WithDraft;
    assert (run + [s])[..|run|] == run;
    RunKeepsOneDraft(hash, g, run);
    DraftDecodes(hash, g, run[|run| - 1]);
  }

  /** Any run of drafts followed by a manual save adds exactly one sealed record with the last text. */
  lemma ManualSaveKeepsOne(hash: Hash, g: Graph, run: seq<SaveRequest>, s: SaveRequest)
    requires Settled(hash, g) && run != [] && |g.records| < DEFAULT_LIMITS.maxEntries
    requires forall i | 0 <= i < |run| :: Drafting(run[i])
    requires Drafting(s.(regular := true)) && !s.regular && !s.discard
    ensures AfterRun(hash, g, run + [s]).Some?
    ensures var out := AfterRun(hash, g, run + [s]).value;
            Decodable(hash, out, DEFAULT_LIMITS) && !HasProvisional(out)
            && |out.records| == |g.records| + 1 && out.records[..|g.records|] == g.records
            && LineAfter(out.records, |out.records|, DEFAULT_LIMITS) == Known(s.content)
  {
    hide Decodable, Drafting, WithDraft, SavedGraph, LineAfter, SaveFits;
    assert (run + [s])[..|run|] == run;
    RunKeepsOneDraft(hash, g, run);
    DraftDecodes(hash, g, run[|run| - 1]);
    var d := WithDraft(hash, g, run[|run| - 1]);
    ManualFits(g, d, s);
    SaveCloses(hash, d, s);
    ManualShape(hash, g, d, s);
  }

  lemma ManualFits(g: Graph, d: Graph, s: SaveRequest)
    requires HasProvisional(d) && DraftRemovable(d)
    requires Drafting(s.(regular := true)) && !s.regular && !s.discard
    ensures SaveAllowed(d, s) && SaveFits(d, s)
  {
    hide GoodWhole, LineAfter, Reseals;
  }

  lemma ManualShape(hash: Hash, g: Graph, d: Graph, s: SaveRequest)
    requires d.records != [] && d.records[|d.records| - 1].imm.previous.Some? && d.records[|d.records| - 1].imm.contentParent.Some?
    requires HasProvisional(d) && Base(d) == g && !s.regular && !s.discard
    ensures var out := SavedGraph(hash, d, s);
            !HasProvisional(out) && |out.records| == |g.records| + 1 && out.records[..|g.records|] == g.records
  {
    hide LineAfter, Reseals;
  }
}
