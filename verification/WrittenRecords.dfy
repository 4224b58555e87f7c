/** Who signs what the builders write, and what it says, field by field (src/format/revision_graph.cpp). */
module WrittenRecords {
  import opened Wrappers
  import opened TextValidation
  import opened RevisionRecords
  import opened GraphValidity
  import opened RevisionGraph
  import opened SaveContent
  import opened AppendEvent
  import opened MergeGraphs
  import opened Compaction
  import opened Lineage
  import opened BuilderRuns
  import opened DocumentCreation

  /** What is asked for is preferred if there is any of it; what falls back is only used otherwise. */
  predicate Preferred(written: string, own: string, given: string) {
    (own != "" ==> written == own) && (own == "" ==> written == given)
  }

  /** The record is the actor's, at the given time, from the given client. */
  predicate Signed(r: Record, actor: Slot, name: string, email: string, device: string, timestamp: nat) {
    var a := r.imm.author;
    && a.slot == actor.id && a.timestamp == timestamp
    && a.clientName == name && a.clientEmail == email && a.device == device
    && Preferred(a.actorName, actor.name, name) && Preferred(a.actorEmail, actor.email, email)
  }

  /** The draft at the end was written by the same actor on the same client at the same time, with the same text. */
  ghost predicate DraftIs(g: Graph, s: SaveRequest) {
    g.records != []
    && var t := g.records[|g.records| - 1];
       && t.provisional && t.imm.contentHash.text == s.content
       && t.imm.author.slot == s.actor.id && t.imm.author.timestamp == s.timestamp
       && t.imm.author.actorName == s.actor.name && t.imm.author.actorEmail == s.actor.email
       && t.imm.author.clientName == s.profileName && t.imm.author.clientEmail == s.profileEmail
       && t.imm.author.device == s.device
  }

  /** What a draft's own record says of it. */
  lemma DraftFacts(hash: Hash, g: Graph)
    requires Decodable(hash, g, DEFAULT_LIMITS) && HasProvisional(g)
    ensures var t := g.records[|g.records| - 1];
            && t.imm.previous.Some? && t.imm.contentParent.Some? && t.imm.kind == Content && t.imm.event.None? && !t.foreign
            && t.id == g.head && t.id == g.contentHead
            && LineAfter(g.records, |g.records|, DEFAULT_LIMITS) == Known(t.imm.contentHash.text)
            && t.imm.author.actorName != "" && t.imm.author.actorEmail != ""
  {
    hide CanonicalText, Structured, CompactionsOk, GoodSlots, GoodLease, AppliesTo, GoodBody;
    TailFacts(hash, g);
    assert GoodRecord(g.records[|g.records| - 1], DEFAULT_LIMITS);
  }

  /** A save that discards nothing ends in one record of its actor with its text, provisional if it is a regular one. */
  lemma SaveWrites(hash: Hash, g: Graph, s: SaveRequest)
    requires Decodable(hash, g, DEFAULT_LIMITS) && SaveAllowed(g, s) && !s.discard
    ensures HasProvisional(g) ==> g.records[|g.records| - 1].imm.previous.Some?
                                  && g.records[|g.records| - 1].imm.contentParent.Some?
    ensures var out := SavedGraph(hash, g, s);
            && out.records != []
            && var r := out.records[|out.records| - 1];
               && Signed(r, s.actor, s.profileName, s.profileEmail, s.device, s.timestamp)
               && r.imm.kind == Content && (r.imm.mergeSources == [] || (HasProvisional(g) && r.id == g.head))
               && r.imm.contentHash.text == s.content && r.imm.event.None?
               && r.provisional == s.regular && !r.foreign && out.head == r.id && out.contentHead == r.id
               && out.slots == g.slots && out.lease == g.lease
  {
    hide CanonicalText, ValidGraph, GoodRecords, GoodSlots, GoodLease, SealedBy, LineAfter;
    if HasProvisional(g) { DraftFacts(hash, g); }
  }

  /** A manual save of the draft as it is keeps the draft's record, author and identifier, and publishes it. */
  lemma SaveSeals(hash: Hash, g: Graph, s: SaveRequest)
    requires Decodable(hash, g, DEFAULT_LIMITS) && SaveAllowed(g, s) && !s.discard && !s.regular && DraftIs(g, s)
    ensures HasProvisional(g) && g.records[|g.records| - 1].imm.previous.Some?
            && g.records[|g.records| - 1].imm.contentParent.Some?
    ensures var n := |g.records| - 1;
            SavedGraph(hash, g, s)
            == g.(records := g.records[..n] + [g.records[n].(provisional := false)])
  {
    hide CanonicalText, Decodable, LineAfter;
    DraftFacts(hash, g);
  }

  lemma MergeWrites(hash: Hash, local: Graph, target: Graph, s: MergeRequest)
    ensures var out := MergedGraph(hash, local, target, s);
            && out.records != []
            && var r := out.records[|out.records| - 1];
               && Signed(r, s.actor, s.profileName, s.profileEmail, s.device, s.timestamp)
               && r.imm.kind == Content && r.imm.mergeSources == [target.head] && r.imm.previous == Some(local.head)
               && r.imm.contentHash.text == s.content && r.imm.event.None? && !r.provisional && !r.foreign
               && out.head == r.id && out.contentHead == r.id
               && out.slots == target.slots && out.lease == target.lease
  {
    hide LineAfter, Imports;
  }

  /** Which text-carrying record a compaction cuts at, counted, and what its event says. */
  lemma CompactWrites(hash: Hash, g: Graph, k: nat, s: CompactRequest)
    requires Injective(hash) && Decodable(hash, g, DEFAULT_LIMITS) && CompactAllowed(g, k, s)
    ensures g.records != []
    ensures var out := CompactedGraph(hash, g, k, s);
            && |out.records| == |g.records| + 1
            && var r := out.records[|g.records|];
               && Signed(r, s.actor, s.clientName, s.clientEmail, s.device, s.timestamp)
               && r.imm.kind == Event && r.imm.previous == Some(g.head) && r.imm.event.Some? && r.imm.event.value.name == "compaction"
               && r.imm.event.value.cutoff == Some(g.records[Carriers(g.records, |g.records|)[k]].id)
               && r.imm.event.value.retained == Some(|Carriers(g.records, |g.records|)| - k - 1)
               && r.imm.event.value.affectedSlot.None? && r.imm.event.value.status.None?
               && !r.provisional && !r.foreign && out.head == r.id && out.contentHead == g.contentHead
               && out.slots == g.slots && out.lease == g.lease
  {
    hide LineAfter, Decodable;
    CompactCloses(hash, g, k, s);
  }

  lemma EventWrites(hash: Hash, g: Graph, e: EventRequest)
    requires g.records != []
    ensures var out := EventGraph(hash, g, e);
            && |out.records| == |g.records| + 1 && out.records[..|g.records|] == g.records
            && var r := out.records[|g.records|];
               && Signed(r, e.actor, e.clientName, e.clientEmail, e.device, e.timestamp)
               && r.imm.kind == Event && r.imm.previous == Some(g.head) && r.imm.event.Some?
               && r.imm.event.value.name == e.name && r.imm.event.value.affectedSlot == Some(e.affectedSlot)
               && r.imm.event.value.status == e.status && r.imm.event.value.detail == e.detail
               && r.imm.event.value.cutoff.None? && r.imm.event.value.retained.None?
               && !r.provisional && !r.foreign && out.head == r.id && out.contentHead == g.contentHead
               && out.slots == e.slots && out.lease == g.lease
  {
    assert (g.records + [EventGraph(hash, g, e).records[|g.records|]])[..|g.records|] == g.records;
  }

  /** A new document: one record of its owner with its text, the owner's slot, and a recovery slot if there is a password for it. */
  lemma CreationWrites(hash: Hash, v: Creation, d: Draws)
    requires MayCreate(v)
    ensures var image := CreatedImage(hash, v, d);
            && image.documentId == d.documentId && image.contentType == v.contentType && image.graph.records != []
            && (var r := image.graph.records[0];
                && r.imm.kind == Baseline && r.imm.contentHash.text == v.content && !r.provisional
                && r.imm.author.slot == d.ownerId && r.imm.author.timestamp == v.timestamp
                && r.imm.author.actorName == v.name && r.imm.author.actorEmail == v.email
                && r.imm.author.clientName == v.name && r.imm.author.clientEmail == v.email && r.imm.author.device == v.device)
            && LineAfter(image.graph.records, |image.graph.records|, DEFAULT_LIMITS) == Known(v.content)
            && !image.graph.lease.active
            && |image.graph.slots| == (if v.recoveryPassword.Some? then 2 else 1)
            && (var o := image.graph.slots[0];
                o.role == 0 && o.permissions == 7 && !o.mustBeChanged && o.name == v.name && o.email == v.email && o.id == d.ownerId)
            && (v.recoveryPassword.Some? ==>
                  var o := image.graph.slots[1]; o.role == 2 && o.permissions == 7 && !o.mustBeChanged && o.id != d.ownerId)
  {
    hide CanonicalText;
    var rs := CreatedImage(hash, v, d).graph.records;
    assert LineAfter(rs, 0, DEFAULT_LIMITS) == Gone;
    assert LineAfter(rs, 1, DEFAULT_LIMITS) == Advance(Gone, rs[0], DEFAULT_LIMITS);
  }
}
