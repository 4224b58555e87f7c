/** Manual, regular and discarding saves (src/format/revision_graph.cpp, save_content). */
module SaveContent {
  import opened Wrappers
  import opened TextValidation
  import opened RevisionRecords
  import opened GraphValidity
  import opened GraphLemmas
  import opened RevisionGraph
  import opened AppendRecord
  import opened Patching

  /** The inputs of one save. */
  datatype SaveRequest = SaveRequest(
    content: Bytes, profileName: string, profileEmail: string, device: string,
    actor: Slot, timestamp: nat, regular: bool, discard: bool)

  function OrElse(preferred: string, fallback: string): string {
    if preferred == "" then fallback else preferred
  }

  function AuthorOf(actor: Slot, name: string, email: string, device: string, timestamp: nat): Attribution {
    Attribution(timestamp, actor.id, OrElse(actor.name, name), OrElse(actor.email, email), name, email, device)
  }

  /** A save stores the whole new text as one insertion. */
  function WholeInsert(content: Bytes): Body {
    Patch(|content|, if content == [] then [] else [Insert(content)])
  }

  function ContentRecord(hash: Hash, head: RevisionId, contentHead: RevisionId, sources: seq<RevisionId>,
                         author: Attribution, content: Bytes, body: Body, provisional: bool): Record
  {
    var imm := Immutable(Content, Some(head), Some(contentHead), sources, author,
                         ContentDigest(content), Some(BodyDigest(body)), None);
    Record(hash(imm), imm, Delta, Some(body), provisional, None, false)
  }

  ghost predicate SaveAllowed(g: Graph, s: SaveRequest) {
    s.timestamp <= MAX_TIME && GoodWhole(s.content, DEFAULT_LIMITS) && (s.discard ==> HasProvisional(g))
  }

  // ---------- What a save writes ----------

  /** The records below a provisional tail, and the heads they have. */
  function Base(g: Graph): (b: Graph)
    requires HasProvisional(g) ==> g.records[|g.records| - 1].imm.previous.Some?
                                   && g.records[|g.records| - 1].imm.contentParent.Some?
  {
    if !HasProvisional(g) then g
    else
      var n := |g.records| - 1;
      g.(records := g.records[..n], head := g.records[n].imm.previous.value,
         contentHead := g.records[n].imm.contentParent.value)
  }

  /** The published form of a provisional record: the same record without the mark. */
  function Sealed(r: Record): Record {
    r.(provisional := false)
  }

  /** A manual save of exactly the drafted text by the same author seals the draft in place. */
  ghost predicate Reseals(g: Graph, s: SaveRequest) {
    HasProvisional(g) && !s.regular
    && var t := g.records[|g.records| - 1];
       LineAfter(g.records, |g.records|, DEFAULT_LIMITS) == Known(s.content)
       && t.imm.author == Attribution(s.timestamp, s.actor.id, s.actor.name, s.actor.email,
                                      s.profileName, s.profileEmail, s.device)
  }

  ghost function SavedGraph(hash: Hash, g: Graph, s: SaveRequest): Graph
    requires HasProvisional(g) ==> g.records[|g.records| - 1].imm.previous.Some?
                                   && g.records[|g.records| - 1].imm.contentParent.Some?
  {
    var b := Base(g);
    if s.discard then b
    else if Reseals(g, s) then
      var t := g.records[|g.records| - 1];
      b.(records := b.records + [Sealed(t)], head := t.id, contentHead := t.id)
    else
      var r := NewRevision(hash, b, s);
      b.(records := b.records + [r], head := r.id, contentHead := r.id)
  }

  function NewRevision(hash: Hash, b: Graph, s: SaveRequest): Record {
    ContentRecord(hash, b.head, b.contentHead, [],
                  AuthorOf(s.actor, s.profileName, s.profileEmail, s.device, s.timestamp),
                  s.content, WholeInsert(s.content), s.regular)
  }

  // ---------- When the result is valid ----------

  /** The draft can be taken away: it merged nothing, and the text below it is still known. */
  ghost predicate DraftRemovable(g: Graph) {
    HasProvisional(g) ==>
      var n := |g.records| - 1;
      g.records[n].imm.mergeSources == [] && LineAfter(g.records, n, DEFAULT_LIMITS).Known?
  }

  /** The exact condition under which a permitted save produces a graph that decodes. */
  ghost predicate SaveFits(g: Graph, s: SaveRequest) {
    if s.discard then DraftRemovable(g)
    else Reseals(g, s)
         || (DraftRemovable(g) && s.profileName != "" && s.profileEmail != "" && s.device != ""
             && (HasProvisional(g) || |g.records| < DEFAULT_LIMITS.maxEntries))
  }

  lemma TailFacts(hash: Hash, g: Graph)
    requires Decodable(hash, g, DEFAULT_LIMITS)
    ensures g.records != []
    ensures forall i | 0 <= i < |g.records| - 1 :: !g.records[i].provisional
    ensures var t := g.records[|g.records| - 1];
            !t.foreign && t.id == g.head
            && (t.provisional ==> t.imm.kind == Content && t.imm.event.None?
                                  && t.imm.previous.Some? && t.imm.contentParent.Some? && t.id == g.contentHead)
  {
    var rs := g.records;
    var n := |rs| - 1;
    HeadIsLast(rs, g.head, g.contentHead);
    assert forall i | 0 <= i < |rs| :: GoodRecord(rs[i], DEFAULT_LIMITS);
    OnlyTailProvisional(rs);
    assert StepOk(rs, n);
    if rs[n].provisional { LastContentIs(rs, |rs|, n); }
  }

  /** Taking away a removable draft leaves a graph that decodes, with nothing provisional in it. */
  lemma BaseDecodes(hash: Hash, g: Graph)
    requires Decodable(hash, g, DEFAULT_LIMITS) && DraftRemovable(g)
    ensures HasProvisional(g) ==> g.records[|g.records| - 1].imm.previous.Some?
                                  && g.records[|g.records| - 1].imm.contentParent.Some?
    ensures Decodable(hash, Base(g), DEFAULT_LIMITS)
    ensures forall i | 0 <= i < |Base(g).records| :: !Base(g).records[i].provisional
  {
    hide CanonicalText, StepOk, Resolved, ClosedImport, CompactionsOk, GoodImmutable;
    TailFacts(hash, g);
    if HasProvisional(g) { DropTail(g.records, g.head, g.contentHead, DEFAULT_LIMITS); }
  }

  lemma WholeInsertApplies(source: Bytes, content: Bytes)
    requires GoodWhole(content, DEFAULT_LIMITS)
    ensures AppliesTo(WholeInsert(content), source, content, DEFAULT_LIMITS)
    ensures GoodSegments(|content|, WholeInsert(content).segments, DEFAULT_LIMITS)
  {
    if content != [] {
      var segments := [Insert(content)];
      assert Patched(segments, 0, source) == Some([]);
      assert Patched(segments, 1, source) == Some([] + content);
      assert [] + content == content;
      assert TotalWidth(segments, 0) == 0 && TotalWidth(segments, 1) == |content|;
    }
  }

  lemma NewRevisionGood(hash: Hash, b: Graph, s: SaveRequest)
    requires GoodWhole(s.content, DEFAULT_LIMITS) && s.timestamp <= MAX_TIME
    ensures GoodRecord(NewRevision(hash, b, s), DEFAULT_LIMITS)
            <==> s.profileName != "" && s.profileEmail != "" && s.device != ""
  {
    hide CanonicalText;
    WholeInsertApplies([], s.content);
  }

  /** Appending the new revision to a sealed graph. */
  lemma AppendRevision(hash: Hash, b: Graph, s: SaveRequest)
    requires Injective(hash) && Decodable(hash, b, DEFAULT_LIMITS)
    requires forall i | 0 <= i < |b.records| :: !b.records[i].provisional
    requires GoodWhole(s.content, DEFAULT_LIMITS) && s.timestamp <= MAX_TIME
    requires s.profileName != "" && s.profileEmail != "" && s.device != ""
    requires |b.records| < DEFAULT_LIMITS.maxEntries
    ensures var r := NewRevision(hash, b, s);
            Decodable(hash, b.(records := b.records + [r], head := r.id, contentHead := r.id), DEFAULT_LIMITS)
            && LineAfter(b.records + [r], |b.records| + 1, DEFAULT_LIMITS) == Known(s.content)
  {
    hide GoodWhole, GoodImmutable, ChainOk, ImportsOk, MergesOk, CompactionsOk, LineAfter, GoodSlots, GoodLease;
    var r := NewRevision(hash, b, s);
    FreshId(hash, b.records, b.head, b.contentHead, r.imm);
    RevisionAdvances(hash, b, s, LineAfter(b.records, |b.records|, DEFAULT_LIMITS));
    AppendContent(b.records, b.head, b.contentHead, DEFAULT_LIMITS, r);
    NewRevisionGood(hash, b, s);
    AppendGood(hash, b.records, r, DEFAULT_LIMITS);
  }

  lemma RevisionAdvances(hash: Hash, b: Graph, s: SaveRequest, line: Line)
    requires GoodWhole(s.content, DEFAULT_LIMITS) && line.Known?
    ensures Advance(line, NewRevision(hash, b, s), DEFAULT_LIMITS) == Known(s.content)
  {
    hide CanonicalText, Patched;
    WholeInsertApplies(line.text, s.content);
  }

  function SealTail(rs: seq<Record>): seq<Record>
    requires rs != []
  {
    rs[..|rs| - 1] + [Sealed(rs[|rs| - 1])]
  }

  /** Sealing a draft in place keeps everything but the mark. */
  lemma SealDecodes(hash: Hash, g: Graph)
    requires Decodable(hash, g, DEFAULT_LIMITS) && HasProvisional(g)
    ensures var rs := SealTail(g.records);
            Decodable(hash, g.(records := rs, head := g.records[|rs| - 1].id, contentHead := g.records[|rs| - 1].id),
                      DEFAULT_LIMITS)
            && LineAfter(rs, |rs|, DEFAULT_LIMITS) == LineAfter(g.records, |rs|, DEFAULT_LIMITS)
  {
    hide CanonicalText, StepOk, Resolved, ClosedImport, CompactionsOk, GoodImmutable, LineAfter, LastContent, LastCanonical;
    var rs := g.records;
    var sealed := SealTail(rs);
    TailFacts(hash, g);
    SealedStructure(rs, sealed, |rs| - 1);
    SealedRecords(hash, rs);
    SealedLine(rs);
    SamePositions(rs, sealed, |rs|);
    OldCompactions(rs, sealed);
  }

  lemma SealedRecords(hash: Hash, rs: seq<Record>)
    requires rs != [] && GoodRecords(rs, DEFAULT_LIMITS) && SealedBy(hash, rs)
    ensures GoodRecords(SealTail(rs), DEFAULT_LIMITS) && SealedBy(hash, SealTail(rs))
  {
    hide CanonicalText, GoodImmutable;
    forall i | 0 <= i < |rs| ensures GoodRecord(SealTail(rs)[i], DEFAULT_LIMITS) {
      assert GoodRecord(rs[i], DEFAULT_LIMITS);
    }
  }

  lemma SealedLine(rs: seq<Record>)
    requires rs != []
    ensures LineAfter(SealTail(rs), |rs|, DEFAULT_LIMITS) == LineAfter(rs, |rs|, DEFAULT_LIMITS)
  {
    hide Advance;
    var n := |rs| - 1;
    var sealed := SealTail(rs);
    assert sealed[..n] == rs[..n];
    LineOfPrefix(rs, sealed, n, DEFAULT_LIMITS);
    AdvanceSealed(LineAfter(rs, n, DEFAULT_LIMITS), rs[n]);
    assert sealed[n] == Sealed(rs[n]);
  }

  lemma AdvanceSealed(line: Line, r: Record)
    ensures Advance(line, Sealed(r), DEFAULT_LIMITS) == Advance(line, r, DEFAULT_LIMITS)
  {
    hide CanonicalText, Patched;
  }

  lemma SealedStructure(rs: seq<Record>, sealed: seq<Record>, n: nat)
    requires |rs| == n + 1 && sealed == rs[..n] + [Sealed(rs[n])]
    requires ChainOk(rs) && ImportsOk(rs) && MergesOk(rs)
    requires forall i | 0 <= i < n :: !rs[i].provisional
    ensures ChainOk(sealed) && ImportsOk(sealed) && MergesOk(sealed)
  {
    assert SameShape(rs, sealed, n + 1);
    OldSteps(rs, sealed);
    OldImports(rs, sealed);
  }

  // ---------- Closure, both ways ----------

  /** A save that is permitted and fits yields a graph that decodes, showing the saved text. */
  lemma SaveCloses(hash: Hash, g: Graph, s: SaveRequest)
    requires Injective(hash) && Decodable(hash, g, DEFAULT_LIMITS)
    requires SaveAllowed(g, s) && SaveFits(g, s)
    ensures HasProvisional(g) ==> g.records[|g.records| - 1].imm.previous.Some?
                                  && g.records[|g.records| - 1].imm.contentParent.Some?
    ensures Decodable(hash, SavedGraph(hash, g, s), DEFAULT_LIMITS)
    ensures !s.discard ==>
              var rs := SavedGraph(hash, g, s).records;
              LineAfter(rs, |rs|, DEFAULT_LIMITS) == Known(s.content)
  {
    hide CanonicalText, ValidGraph, GoodRecords, GoodSlots, GoodLease, LineAfter;
    TailFacts(hash, g);
    if s.discard {
      BaseDecodes(hash, g);
    } else if Reseals(g, s) {
      SealDecodes(hash, g);
      assert SavedGraph(hash, g, s).records == SealTail(g.records);
    } else {
      BaseDecodes(hash, g);
      AppendRevision(hash, Base(g), s);
    }
  }

  /** Imports of a removed merge have nobody left to own them. */
  lemma OrphanedImports(hash: Hash, rs: seq<Record>, out: seq<Record>)
    requires Injective(hash) && SealedBy(hash, rs) && SealedBy(hash, out)
    requires |rs| > 0 && ChainOk(rs) && !rs[|rs| - 1].foreign && rs[|rs| - 1].imm.mergeSources != []
    requires |out| >= |rs| - 1 && out[..|rs| - 1] == rs[..|rs| - 1]
    requires forall i | |rs| - 1 <= i < |out| :: out[i].imm.mergeSources == []
    ensures !ImportsOk(out)
  {
    var n := |rs| - 1;
    var s := rs[n].imm.mergeSources[0];
    assert StepOk(rs, n) && s in rs[n].imm.mergeSources;
    assert ImportFor(rs, n, s);
    var j :| 0 <= j < n && rs[j].id == s && rs[j].foreign && rs[j].resolvedBy == Some(rs[n].id);
    assert out[j] == out[..n][j] == rs[j];
    DistinctIds(rs);
    forall m | j < m < |out| && Merge(out[m]) ensures !OwnedBy(out[j], out[m].id) {
      assert m < n;
      assert out[m] == out[..n][m] == rs[m];
      assert rs[m].id != rs[n].id;
    }
    assert !Resolved(out, j);
  }

  /** Without the condition the result never decodes. */
  lemma UnfitSaveFails(hash: Hash, g: Graph, s: SaveRequest)
    requires Injective(hash) && Decodable(hash, g, DEFAULT_LIMITS)
    requires SaveAllowed(g, s) && !SaveFits(g, s)
    ensures HasProvisional(g) ==> g.records[|g.records| - 1].imm.previous.Some?
                                  && g.records[|g.records| - 1].imm.contentParent.Some?
    ensures !Decodable(hash, SavedGraph(hash, g, s), DEFAULT_LIMITS)
  {
    hide CanonicalText, ValidGraph, GoodSlots, GoodLease, LineAfter, GoodRecord;
    TailFacts(hash, g);
    var out := SavedGraph(hash, g, s);
    if !DraftRemovable(g) {
      var n := |g.records| - 1;
      UnremovableFails(hash, g, s, n);
    } else {
      var b := Base(g);
      assert out.records[|b.records|] == NewRevision(hash, b, s);
      NewRevisionGood(hash, b, s);
    }
  }

  lemma UnremovableFails(hash: Hash, g: Graph, s: SaveRequest, n: nat)
    requires Injective(hash) && Decodable(hash, g, DEFAULT_LIMITS)
    requires SaveAllowed(g, s) && !DraftRemovable(g) && n == |g.records| - 1
    requires g.records[n].imm.previous.Some? && g.records[n].imm.contentParent.Some? && !g.records[n].foreign
    requires s.discard || !Reseals(g, s)
    ensures !Decodable(hash, SavedGraph(hash, g, s), DEFAULT_LIMITS)
  {
    hide CanonicalText, StepOk, Resolved, ClosedImport, CompactionsOk, GoodImmutable, GoodRecord, Reseals,
         GoodSlots, GoodLease, HeadsOk, LineAfter;
    var out := SavedGraph(hash, g, s).records;
    assert out[..n] == g.records[..n];
    if g.records[n].imm.mergeSources != [] {
      if SealedBy(hash, out) { OrphanedImports(hash, g.records, out); }
    } else {
      LineOfPrefix(g.records, out, n, DEFAULT_LIMITS);
      if !s.discard {
        assert |out| == n + 1 && out[n].storage == Delta && Carries(out[n]);
        DeltaNeedsText(out, n);
      }
    }
  }

  lemma DeltaNeedsText(rs: seq<Record>, n: nat)
    requires n < |rs| && Carries(rs[n]) && rs[n].storage == Delta && !LineAfter(rs, n, DEFAULT_LIMITS).Known?
    ensures !LineAfter(rs, n + 1, DEFAULT_LIMITS).Known?
  {
  }
}
