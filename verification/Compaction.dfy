/** Compaction (src/format/revision_graph.cpp, compact_at, and src/core/history_service.cpp). */
module Compaction {
  import opened Wrappers
  import opened TextValidation
  import opened RevisionRecords
  import opened GraphValidity
  import opened GraphLemmas
  import opened RevisionGraph
  import opened AppendRecord
  import opened SaveContent
  import opened AppendEvent

  datatype CompactRequest = CompactRequest(
    actor: Slot, clientName: string, clientEmail: string, device: string, timestamp: nat)

  // ---------- Text-carrying positions ----------

  /** Positions of the text-carrying records among the first n. */
  function Carriers(rs: seq<Record>, n: nat): (ks: seq<nat>)
    requires n <= |rs|
    ensures |ks| <= n
    ensures forall i | 0 <= i < |ks| :: ks[i] < n && Carries(rs[ks[i]])
    ensures forall i, j | 0 <= i < j < |ks| :: ks[i] < ks[j]
  {
    if n == 0 then []
    else if Carries(rs[n - 1]) then Carriers(rs, n - 1) + [n - 1]
    else Carriers(rs, n - 1)
  }

  /** None is left out. */
  lemma {:induction false} CarriersComplete(rs: seq<Record>, n: nat, i: nat)
    requires i < n <= |rs|
    ensures i in Carriers(rs, n) <==> !rs[i].foreign && rs[i].imm.kind != Event
  {
    if i < n - 1 { CarriersComplete(rs, n - 1, i); }
  }

  // ---------- What a compaction writes ----------

  /** One record after compaction at position c, whose text is given. */
  function Trim(r: Record, i: nat, c: nat, text: Bytes): Record {
    if r.foreign || r.imm.kind == Event || i > c then r
    else if i == c then Record(r.id, r.imm, Checkpoint, Some(Whole(text)), false, None, false)
    else Record(r.id, r.imm, Pruned, None, false, None, false)
  }

  function Trimmed(rs: seq<Record>, c: nat, text: Bytes): (out: seq<Record>)
    ensures |out| == |rs|
    ensures forall i | 0 <= i < |rs| :: out[i] == Trim(rs[i], i, c, text)
  {
    seq(|rs|, i requires 0 <= i < |rs| => Trim(rs[i], i, c, text))
  }

  function CompactionFacts(cutoff: RevisionId, retained: nat): EventFacts {
    EventFacts(COMPACTION, None, Some(cutoff), Some(retained), None, "")
  }

  /** The graph after compaction at text-carrying record number k. */
  ghost function CompactedGraph(hash: Hash, g: Graph, k: nat, s: CompactRequest): Graph
    requires g.records != [] && k < |Carriers(g.records, |g.records|)|
  {
    var ks := Carriers(g.records, |g.records|);
    var c := ks[k];
    var text := match LineAfter(g.records, c + 1, DEFAULT_LIMITS)
      case Known(t) => t
      case _ => [];
    var r := EventRecord(hash, g, AuthorOf(s.actor, s.clientName, s.clientEmail, s.device, s.timestamp),
                         CompactionFacts(g.records[c].id, |ks| - k - 1));
    g.(records := Trimmed(g.records, c, text) + [r], head := r.id)
  }

  // ---------- Structure ----------

  lemma TrimmedShape(rs: seq<Record>, c: nat, text: Bytes)
    requires forall i | 0 <= i < |rs| :: !rs[i].foreign ==> rs[i].resolvedBy.None?
    ensures SameShape(rs, Trimmed(rs, c, text), |rs|)
  {
  }

  lemma TrimmedStructure(rs: seq<Record>, head: RevisionId, contentHead: RevisionId, c: nat, text: Bytes)
    requires Structured(rs, head, contentHead)
    requires forall i | 0 <= i < |rs| :: !rs[i].provisional && (!rs[i].foreign ==> rs[i].resolvedBy.None?)
    ensures Structured(Trimmed(rs, c, text), head, contentHead)
    ensures Trimmed(rs, c, text)[|rs| - 1].imm == rs[|rs| - 1].imm
    ensures forall i | 0 <= i < |rs| :: !Trimmed(rs, c, text)[i].provisional
  {
    hide StepOk, Resolved, ClosedImport;
    var out := Trimmed(rs, c, text);
    TrimmedShape(rs, c, text);
    OldSteps(rs, out);
    OldImports(rs, out);
    SamePositions(rs, out, |rs|);
  }

  // ---------- Text ----------

  /** Before the cutoff nothing is left; from the cutoff on every text is what it was. */
  lemma {:induction false} TrimmedLine(rs: seq<Record>, c: nat, text: Bytes, n: nat, limits: Limits)
    requires n <= |rs| && c < |rs| && Carries(rs[c])
    requires LineAfter(rs, c + 1, limits) == Known(text) && rs[c].imm.contentHash == ContentDigest(text)
    ensures LineAfter(Trimmed(rs, c, text), n, limits) == if n <= c then Gone else LineAfter(rs, n, limits)
  {
    hide AppliesTo;
    if n > 0 { TrimmedLine(rs, c, text, n - 1, limits); }
  }

  /** The known text of the line is the one the last text-carrying record declares. */
  lemma {:induction false} LineShowsHash(rs: seq<Record>, n: nat, limits: Limits)
    requires n <= |rs| && LineAfter(rs, n, limits).Known?
    ensures var c := LastContent(rs, n);
            c >= 0 && rs[c].imm.contentHash == ContentDigest(LineAfter(rs, n, limits).text)
  {
    hide AppliesTo;
    if n > 0 && !Carries(rs[n - 1]) { LineShowsHash(rs, n - 1, limits); }
  }

  /** A known text is always storable as it stands. */
  lemma {:induction false} LineIsStorable(rs: seq<Record>, n: nat, limits: Limits)
    requires n <= |rs| && GoodRecords(rs, limits) && LineAfter(rs, n, limits).Known?
    ensures GoodWhole(LineAfter(rs, n, limits).text, limits)
  {
    hide CanonicalText, Patched, GoodImmutable;
    if n > 0 {
      assert GoodRecord(rs[n - 1], limits);
      if LineAfter(rs, n - 1, limits).Known? { LineIsStorable(rs, n - 1, limits); }
    }
  }

  // ---------- Compaction events ----------

  /** An available record lies at or after the cutoff of every compaction. */
  lemma AvailableAfterCutoffs(rs: seq<Record>, c: nat)
    requires CompactionsOk(rs) && c < |rs| && Carries(rs[c]) && rs[c].storage != Pruned
    ensures forall e: nat, d: nat | e < |rs| && CutoffAt(rs, e, d) :: d <= c
  {
    forall e: nat, d: nat | e < |rs| && CutoffAt(rs, e, d) ensures d <= c {
      var f := LatestFrom(rs, e);
      assert CompactionOk(rs, f);
      var x: nat :| CutoffAt(rs, f, x) && rs[f].imm.event.value.retained == Some(Deltas(rs, x + 1, f));
      assert CutBefore(rs, x);
      assert x <= c;
      if e < f { assert d <= x; } else { SameCutoff(rs, e, d, x); }
    }
  }

  lemma SameCutoff(rs: seq<Record>, e: nat, d: nat, x: nat)
    requires e < |rs| && CutoffAt(rs, e, d) && CutoffAt(rs, e, x) && CompactionsOk(rs)
    requires LatestCompaction(rs, e)
    ensures d <= x
  {
    assert CutBefore(rs, d) && CutBefore(rs, x);
  }

  lemma LatestFrom(rs: seq<Record>, e: nat) returns (f: nat)
    requires e < |rs| && CompactionEvent(rs[e])
    ensures e <= f < |rs| && LatestCompaction(rs, f)
  {
    f := e;
    var i := e + 1;
    while i < |rs|
      invariant e <= f < i <= |rs| && CompactionEvent(rs[f])
      invariant forall j | f < j < i :: !CompactionEvent(rs[j])
    {
      if CompactionEvent(rs[i]) { f := i; }
      i := i + 1;
    }
  }

  /** Compactions of the old list, the new event and its cutoff. */
  lemma TrimmedCompactions(rs: seq<Record>, c: nat, text: Bytes, r: Record)
    requires CompactionsOk(rs) && Distinct(rs) && c < |rs| && Carries(rs[c]) && rs[c].storage != Pruned
    requires forall i | 0 <= i < |rs| :: !rs[i].foreign ==> rs[i].resolvedBy.None?
    requires !r.foreign && r.imm.event == Some(CompactionFacts(rs[c].id, Deltas(rs, c + 1, |rs|)))
    ensures CompactionsOk(Trimmed(rs, c, text) + [r])
  {
    hide CompactionOk, CutBefore, Deltas;
    var a := Trimmed(rs, c, text);
    var out := a + [r];
    TrimmedShape(rs, c, text);
    TrimmedEvents(rs, c, text, r);
    TrimmedAscend(rs, c, text, r);
    forall e, d | 0 <= e < |out| && LatestCompaction(out, e) && CutoffAt(out, e, d) ensures CutBefore(out, d) {
      TrimmedCut(rs, c, text, r, e, d);
    }
  }

  lemma TrimmedCut(rs: seq<Record>, c: nat, text: Bytes, r: Record, e: nat, d: nat)
    requires Distinct(rs) && c < |rs| && Carries(rs[c])
    requires forall i | 0 <= i < |rs| :: !rs[i].foreign ==> rs[i].resolvedBy.None?
    requires !r.foreign && r.imm.event == Some(CompactionFacts(rs[c].id, Deltas(rs, c + 1, |rs|)))
    requires e <= |rs|
    requires var out := Trimmed(rs, c, text) + [r]; LatestCompaction(out, e) && CutoffAt(out, e, d)
    ensures CutBefore(Trimmed(rs, c, text) + [r], d)
  {
    hide Deltas;
    var out := Trimmed(rs, c, text) + [r];
    assert CompactionEvent(out[|rs|]);
    assert e == |rs|;
    assert rs[d].id == out[d].id == rs[c].id;
    assert d == c;
  }

  lemma TrimmedEvents(rs: seq<Record>, c: nat, text: Bytes, r: Record)
    requires CompactionsOk(rs) && c < |rs| && Carries(rs[c])
    requires forall i | 0 <= i < |rs| :: !rs[i].foreign ==> rs[i].resolvedBy.None?
    requires !r.foreign && r.imm.event == Some(CompactionFacts(rs[c].id, Deltas(rs, c + 1, |rs|)))
    ensures var out := Trimmed(rs, c, text) + [r];
            forall e | 0 <= e < |out| && CompactionEvent(out[e]) :: CompactionOk(out, e)
  {
    hide CutoffsAscend, CutBefore;
    var out := Trimmed(rs, c, text) + [r];
    TrimmedShape(rs, c, text);
    assert SameShape(rs, out, |rs|);
    forall e | 0 <= e < |out| && CompactionEvent(out[e]) ensures CompactionOk(out, e) {
      if e < |rs| {
        assert CompactionEvent(rs[e]);
        ShapeRestricts(rs, out, |rs|, e + 1);
        CompactionTransfers(rs, out, e);
      } else {
        SameDeltas(rs, out, c + 1, |rs|);
        assert CutoffAt(out, |rs|, c);
      }
    }
  }

  lemma TrimmedAscend(rs: seq<Record>, c: nat, text: Bytes, r: Record)
    requires CompactionsOk(rs) && Distinct(rs) && c < |rs| && Carries(rs[c]) && rs[c].storage != Pruned
    requires forall i | 0 <= i < |rs| :: !rs[i].foreign ==> rs[i].resolvedBy.None?
    requires !r.foreign && r.imm.event == Some(CompactionFacts(rs[c].id, Deltas(rs, c + 1, |rs|)))
    ensures CutoffsAscend(Trimmed(rs, c, text) + [r])
  {
    hide CompactionsOk, Deltas, Carries;
    var out := Trimmed(rs, c, text) + [r];
    forall e: nat, f: nat, x: nat, y: nat | e < f < |out| && CutoffAt(out, e, x) && CutoffAt(out, f, y) ensures x <= y {
      TrimmedPair(rs, c, text, r, e, f, x, y);
    }
  }

  lemma TrimmedPair(rs: seq<Record>, c: nat, text: Bytes, r: Record, e: nat, f: nat, x: nat, y: nat)
    requires CompactionsOk(rs) && Distinct(rs) && c < |rs| && Carries(rs[c]) && rs[c].storage != Pruned
    requires forall i | 0 <= i < |rs| :: !rs[i].foreign ==> rs[i].resolvedBy.None?
    requires !r.foreign && r.imm.event == Some(CompactionFacts(rs[c].id, Deltas(rs, c + 1, |rs|)))
    requires var out := Trimmed(rs, c, text) + [r]; e < f < |out| && CutoffAt(out, e, x) && CutoffAt(out, f, y)
    ensures x <= y
  {
    hide CompactionOk, CutBefore, Deltas;
    var out := Trimmed(rs, c, text) + [r];
    assert out[e].imm == rs[e].imm && out[x].id == rs[x].id && CutoffAt(rs, e, x);
    if f < |rs| {
      assert out[f].imm == rs[f].imm && out[y].id == rs[y].id && CutoffAt(rs, f, y);
    } else {
      AvailableAfterCutoffs(rs, c);
      assert rs[y].id == out[y].id == rs[c].id;
    }
  }

  // ---------- Counting ----------

  /** Text-carrying records after number k are exactly the canonical deltas after its position. */
  lemma {:induction false} CarriersAfter(rs: seq<Record>, k: nat, n: nat)
    requires n <= |rs| && k < |Carriers(rs, n)|
    requires forall i | 0 < i < |rs| :: rs[i].imm.kind != Baseline
    ensures Carriers(rs, n)[k] < n
    ensures |Carriers(rs, n)| - k - 1 == Deltas(rs, Carriers(rs, n)[k] + 1, n)
  {
    if k < |Carriers(rs, n - 1)| {
      CarriersAfter(rs, k, n - 1);
    }
  }

  // ---------- Closure ----------

  ghost predicate CompactAllowed(g: Graph, k: nat, s: CompactRequest) {
    && !HasProvisional(g) && s.timestamp <= MAX_TIME
    && s.clientName != "" && s.clientEmail != "" && s.device != ""
    && MayCompact(g.slots, s.actor)
    && k < |Carriers(g.records, |g.records|)|
    && LineAfter(g.records, Carriers(g.records, |g.records|)[k] + 1, DEFAULT_LIMITS).Known?
  }

  predicate MayCompact(slots: seq<Slot>, actor: Slot) {
    && Allows(actor.permissions, EDIT) && Allows(actor.permissions, ADD) && Allows(actor.permissions, REMOVE)
    && !actor.mustBeChanged
    && exists i | 0 <= i < |slots| ::
         slots[i].id == actor.id && slots[i].permissions == actor.permissions && !slots[i].mustBeChanged
  }

  /** Records of a graph that decodes and holds no draft. */
  lemma SealedFacts(hash: Hash, g: Graph)
    requires Decodable(hash, g, DEFAULT_LIMITS) && !HasProvisional(g)
    ensures g.records != [] && Distinct(g.records)
    ensures forall i | 0 <= i < |g.records| ::
              !g.records[i].provisional && (!g.records[i].foreign ==> g.records[i].resolvedBy.None?)
    ensures forall i | 0 < i < |g.records| :: g.records[i].imm.kind != Baseline
  {
    hide GoodImmutable, GoodBody, StepOk, ImportsOk, MergesOk, CompactionsOk, LineAfter, GoodSlots, GoodLease;
    TailFacts(hash, g);
    DistinctIds(g.records);
    forall i | 0 <= i < |g.records|
      ensures !g.records[i].foreign ==> g.records[i].resolvedBy.None?
      ensures i > 0 ==> g.records[i].imm.kind != Baseline
    {
      assert GoodRecord(g.records[i], DEFAULT_LIMITS);
      OnlyBaseline(g.records, g.head, g.contentHead, i);
    }
  }

  /** The chosen cutoff carries a stored text, and the text is what it declares. */
  lemma CutoffFacts(hash: Hash, g: Graph, c: nat)
    requires Decodable(hash, g, DEFAULT_LIMITS) && c < |g.records| && Carries(g.records[c])
    requires LineAfter(g.records, c + 1, DEFAULT_LIMITS).Known?
    ensures g.records[c].storage != Pruned
    ensures g.records[c].imm.contentHash == ContentDigest(LineAfter(g.records, c + 1, DEFAULT_LIMITS).text)
    ensures GoodWhole(LineAfter(g.records, c + 1, DEFAULT_LIMITS).text, DEFAULT_LIMITS)
  {
    hide CanonicalText, GoodRecord, ValidGraph, GoodSlots, GoodLease, AppliesTo;
    LineShowsHash(g.records, c + 1, DEFAULT_LIMITS);
    LineIsStorable(g.records, c + 1, DEFAULT_LIMITS);
  }

  lemma TrimmedGood(hash: Hash, g: Graph, c: nat, text: Bytes)
    requires Decodable(hash, g, DEFAULT_LIMITS) && !HasProvisional(g)
    requires c < |g.records| && GoodWhole(text, DEFAULT_LIMITS)
    ensures GoodRecords(Trimmed(g.records, c, text), DEFAULT_LIMITS) && SealedBy(hash, Trimmed(g.records, c, text))
  {
    hide CanonicalText, ValidGraph, GoodSlots, GoodLease, GoodImmutable;
    var out := Trimmed(g.records, c, text);
    forall i | 0 <= i < |out| ensures GoodRecord(out[i], DEFAULT_LIMITS) && out[i].id == hash(out[i].imm) {
      assert GoodRecord(g.records[i], DEFAULT_LIMITS);
      TrimGood(g.records[i], i, c, text);
    }
  }

  lemma TrimGood(r: Record, i: nat, c: nat, text: Bytes)
    requires GoodRecord(r, DEFAULT_LIMITS) && GoodWhole(text, DEFAULT_LIMITS)
    ensures GoodRecord(Trim(r, i, c, text), DEFAULT_LIMITS)
  {
    hide CanonicalText, GoodImmutable;
  }

  /** What a compaction leaves readable: exactly what was readable at or after the cutoff. */
  ghost predicate KeepsTexts(before: seq<Record>, after: seq<Record>, c: nat) {
    |before| <= |after|
    && forall n | 0 <= n <= |before| ::
         LineAfter(after, n, DEFAULT_LIMITS) == if n <= c then Gone else LineAfter(before, n, DEFAULT_LIMITS)
  }

  /**
   * Compaction closure: a permitted compaction decodes exactly when it has room, keeps every
   * identifier and the content head, and keeps every text at or after the cutoff and no other.
   */
  lemma CompactCloses(hash: Hash, g: Graph, k: nat, s: CompactRequest)
    requires Injective(hash) && Decodable(hash, g, DEFAULT_LIMITS) && CompactAllowed(g, k, s)
    ensures g.records != []
    ensures Decodable(hash, CompactedGraph(hash, g, k, s), DEFAULT_LIMITS)
            <==> |g.records| < DEFAULT_LIMITS.maxEntries
    ensures KeepsTexts(g.records, CompactedGraph(hash, g, k, s).records, Carriers(g.records, |g.records|)[k])
    ensures CompactedGraph(hash, g, k, s).contentHead == g.contentHead
    ensures forall i | 0 <= i < |g.records| ::
              CompactedGraph(hash, g, k, s).records[i].imm == g.records[i].imm
              && CompactedGraph(hash, g, k, s).records[i].id == g.records[i].id
  {
    hide CanonicalText, GoodRecord, ChainOk, ImportsOk, MergesOk, CompactionsOk, GoodSlots, GoodLease, HeadsOk,
         SealedBy, LineAfter, Deltas, NextEvent, KeepsTexts, MayCompact, Distinct, GoodWhole;
    var rs := g.records;
    var ks := Carriers(rs, |rs|);
    var c := ks[k];
    var text := LineAfter(rs, c + 1, DEFAULT_LIMITS).text;
    var author := AuthorOf(s.actor, s.clientName, s.clientEmail, s.device, s.timestamp);
    var facts := CompactionFacts(rs[c].id, |ks| - k - 1);
    SealedFacts(hash, g);
    CutoffFacts(hash, g, c);
    CarriersAfter(rs, k, |rs|);
    var r := EventRecord(hash, g, author, facts);
    assert CompactedGraph(hash, g, k, s).records == Trimmed(rs, c, text) + [r];
    EventIsNext(hash, g, author, facts);
    EventGood(hash, g, author, facts);
    TrimmedIsValid(g, c, text, r);
    TrimmedGood(hash, g, c, text);
    AppendGood(hash, Trimmed(rs, c, text), r, DEFAULT_LIMITS);
  }

  lemma TrimmedIsValid(g: Graph, c: nat, text: Bytes, r: Record)
    requires ValidGraph(g.records, g.head, g.contentHead, DEFAULT_LIMITS) && Distinct(g.records)
    requires forall i | 0 <= i < |g.records| ::
               !g.records[i].provisional && (!g.records[i].foreign ==> g.records[i].resolvedBy.None?)
    requires c < |g.records| && Carries(g.records[c]) && g.records[c].storage != Pruned
    requires LineAfter(g.records, c + 1, DEFAULT_LIMITS) == Known(text)
    requires g.records[c].imm.contentHash == ContentDigest(text)
    requires NextEvent(g.records, g.head, r)
    requires r.imm.event == Some(CompactionFacts(g.records[c].id, Deltas(g.records, c + 1, |g.records|)))
    ensures ValidGraph(Trimmed(g.records, c, text) + [r], r.id, g.contentHead, DEFAULT_LIMITS)
    ensures KeepsTexts(g.records, Trimmed(g.records, c, text) + [r], c)
  {
    hide ChainOk, ImportsOk, MergesOk, CompactionsOk, HeadsOk, Deltas, Advance, SameShape, CompactionFacts;
    var rs := g.records;
    var a := Trimmed(rs, c, text);
    var out := a + [r];
    TrimmedStructure(rs, g.head, g.contentHead, c, text);
    TrimmedShape(rs, c, text);
    SamePositions(rs, a, |rs|);
    AppendKeepsStructure(a, g.head, g.contentHead, r);
    TrimmedCompactions(rs, c, text, r);
    forall n | 0 <= n <= |rs|
      ensures LineAfter(out, n, DEFAULT_LIMITS) == if n <= c then Gone else LineAfter(rs, n, DEFAULT_LIMITS)
    {
      assert out[..n] == a[..n];
      LineOfPrefix(out, a, n, DEFAULT_LIMITS);
      TrimmedLine(rs, c, text, n, DEFAULT_LIMITS);
    }
    EventKeepsLine(out, DEFAULT_LIMITS);
  }

  lemma EventKeepsLine(rs: seq<Record>, limits: Limits)
    requires rs != [] && !Carries(rs[|rs| - 1])
    ensures LineAfter(rs, |rs|, limits) == LineAfter(rs, |rs| - 1, limits)
  {
  }
}
