/** Credential and activity events (src/format/revision_graph.cpp, append_event and replace_lease). */
module AppendEvent {
  import opened Wrappers
  import opened RevisionRecords
  import opened GraphValidity
  import opened GraphLemmas
  import opened RevisionGraph
  import opened AppendRecord
  import opened SaveContent

  datatype EventRequest = EventRequest(
    slots: seq<Slot>, actor: Slot, affectedSlot: SlotId, name: string, detail: string,
    status: Option<nat>, clientName: string, clientEmail: string, device: string, timestamp: nat)

  predicate EventAllowed(g: Graph, e: EventRequest) {
    && !HasProvisional(g) && 1 <= |e.slots| <= 9 && e.name != "" && e.timestamp <= MAX_TIME
    && (e.status.Some? ==> e.status.value <= 2)
  }

  function EventRecord(hash: Hash, g: Graph, author: Attribution, facts: EventFacts): Record
    requires g.records != []
  {
    var imm := Immutable(Event, Some(g.head), None, [], author,
                         g.records[|g.records| - 1].imm.contentHash, None, Some(facts));
    Record(hash(imm), imm, Bodyless, None, false, None, false)
  }

  function EventGraph(hash: Hash, g: Graph, e: EventRequest): Graph
    requires g.records != []
  {
    var r := EventRecord(hash, g, AuthorOf(e.actor, e.clientName, e.clientEmail, e.device, e.timestamp),
                         EventFacts(e.name, Some(e.affectedSlot), None, None, e.status, e.detail));
    g.(records := g.records + [r], head := r.id, slots := e.slots)
  }

  /** The exact condition under which a permitted event produces a graph that decodes. */
  predicate EventFits(g: Graph, e: EventRequest) {
    && |g.records| < DEFAULT_LIMITS.maxEntries && e.name != COMPACTION && GoodSlots(e.slots)
    && e.clientName != "" && e.clientEmail != "" && e.device != ""
  }

  lemma EventIsNext(hash: Hash, g: Graph, author: Attribution, facts: EventFacts)
    requires Injective(hash) && Decodable(hash, g, DEFAULT_LIMITS)
    ensures g.records != [] && NextEvent(g.records, g.head, EventRecord(hash, g, author, facts))
  {
    hide GoodRecord, ChainOk, ImportsOk, MergesOk, CompactionsOk, LineAfter, GoodSlots, GoodLease;
    FreshId(hash, g.records, g.head, g.contentHead, EventRecord(hash, g, author, facts).imm);
  }

  lemma EventGood(hash: Hash, g: Graph, author: Attribution, facts: EventFacts)
    requires g.records != []
    ensures GoodRecord(EventRecord(hash, g, author, facts), DEFAULT_LIMITS)
            <==> Attributed(author) && facts.name != "" && GoodEvent(facts)
  {
  }

  /** Event closure, both ways; an event changes neither the content head nor any text. */
  lemma EventCloses(hash: Hash, g: Graph, e: EventRequest)
    requires Injective(hash) && Decodable(hash, g, DEFAULT_LIMITS) && EventAllowed(g, e)
    ensures g.records != []
    ensures Decodable(hash, EventGraph(hash, g, e), DEFAULT_LIMITS) <==> EventFits(g, e)
    ensures var out := EventGraph(hash, g, e);
            out.contentHead == g.contentHead
            && LineAfter(out.records, |out.records|, DEFAULT_LIMITS) == LineAfter(g.records, |g.records|, DEFAULT_LIMITS)
  {
    hide GoodRecord, ChainOk, ImportsOk, MergesOk, CompactionsOk, GoodSlots, GoodLease, HeadsOk;
    var author := AuthorOf(e.actor, e.clientName, e.clientEmail, e.device, e.timestamp);
    var facts := EventFacts(e.name, Some(e.affectedSlot), None, None, e.status, e.detail);
    var r := EventRecord(hash, g, author, facts);
    var out := EventGraph(hash, g, e);
    TailFacts(hash, g);
    EventIsNext(hash, g, author, facts);
    EventGood(hash, g, author, facts);
    LineOfPrefix(g.records, out.records, |g.records|, DEFAULT_LIMITS);
    if EventFits(g, e) {
      AppendPlainEvent(g.records, g.head, g.contentHead, DEFAULT_LIMITS, r);
      AppendGood(hash, g.records, r, DEFAULT_LIMITS);
    } else {
      assert out.records[|g.records|] == r;
    }
  }

  /** A lease replacement keeps every record and decodes exactly when the lease is well formed. */
  lemma LeaseReplacementCloses(hash: Hash, g: Graph, lease: Lease)
    requires Decodable(hash, g, DEFAULT_LIMITS)
    ensures Decodable(hash, g.(lease := lease), DEFAULT_LIMITS) <==> GoodLease(lease)
  {
    hide GoodRecord, ValidGraph, GoodSlots;
  }
}
