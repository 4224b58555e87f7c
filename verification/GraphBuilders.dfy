/** Decoding and the four builders, each of which decodes its own output (src/format/revision_graph.cpp). */
module GraphBuilders {
  import opened Wrappers
  import opened TextValidation
  import opened RevisionRecords
  import opened GraphValidity
  import opened RevisionGraph
  import opened Patching
  import opened Lineage
  import opened SaveContent
  import opened AppendEvent
  import opened MergeGraphs
  import opened Compaction
  import opened HistoryService
  import opened Reconstruction
  import opened GraphValidator
  import opened GraphLemmas
  import opened AppendRecord

  // ---------- Decoding ----------

  method CheckBody(storage: Storage, body: Option<Body>, limits: Limits) returns (ok: bool)
    ensures ok <==> GoodBody(storage, body, limits)
  {
    hide CanonicalText;
    match storage {
      case Bodyless => return body.None?;
      case Pruned => return body.None?;
      case Imported => return body.None?;
      case Delta =>
        return body.Some? && body.value.Patch? && GoodSegments(body.value.length, body.value.segments, limits);
      case Snapshot => ok := CheckWhole(body, limits);
      case Checkpoint => ok := CheckWhole(body, limits);
    }
  }

  method CheckWhole(body: Option<Body>, limits: Limits) returns (ok: bool)
    ensures ok <==> body.Some? && body.value.Whole? && GoodWhole(body.value.text, limits)
  {
    if body.None? || !body.value.Whole? || |body.value.text| > limits.maxText { return false; }
    ok := ValidCanonicalDocumentText(body.value.text);
  }

  method CheckRecord(r: Record, limits: Limits) returns (ok: bool)
    ensures ok <==> GoodRecord(r, limits)
  {
    hide GoodImmutable, GoodBody;
    if !GoodImmutable(r.imm, limits) { return false; }
    ok := CheckBody(r.storage, r.body, limits);
    ok := ok && StorageFits(r.imm.kind, r.storage)
          && (r.body.Some? && r.storage != Checkpoint ==> r.imm.bodyDigest == Some(BodyDigest(r.body.value)))
          && r.foreign == (r.storage == Imported)
          && r.foreign == r.resolvedBy.Some?
          && !(r.foreign && r.provisional)
          && !(r.imm.kind == Event && r.provisional);
  }

  /** All checks of decoding; the flags say which records have readable text. */
  method Decode(hash: Hash, g: Graph, limits: Limits) returns (r: Result<seq<bool>, Error>)
    ensures r.Ok? <==> Decodable(hash, g, limits)
    ensures r.Ok? ==> |r.value| == |g.records|
                      && forall i | 0 <= i < |g.records| :: r.value[i] <==> Available(g.records, i, limits)
    ensures r == Err(LimitExceeded) <==> |g.records| > limits.maxEntries
    ensures r.Err? ==> r.error in {LimitExceeded, Malformed}
  {
    hide GoodRecord, ValidGraph, Available, GoodSlots, GoodLease;
    if |g.records| > limits.maxEntries { return Err(LimitExceeded); }
    if !GoodSlots(g.slots) || !GoodLease(g.lease) { return Err(Malformed); }
    var i := 0;
    while i < |g.records|
      invariant 0 <= i <= |g.records|
      invariant forall j | 0 <= j < i :: GoodRecord(g.records[j], limits) && g.records[j].id == hash(g.records[j].imm)
    {
      var good := CheckRecord(g.records[i], limits);
      if !good || g.records[i].id != hash(g.records[i].imm) { return Err(Malformed); }
      i := i + 1;
    }
    var ok, available := ValidateGraph(g.records, g.head, g.contentHead, limits);
    if !ok { return Err(Malformed); }
    return Ok(available);
  }

  /** The self-check every builder ends with. */
  method Checked(hash: Hash, g: Graph) returns (r: Result<Graph, Error>)
    ensures Decodable(hash, g, DEFAULT_LIMITS) ==> r == Ok(g)
    ensures !Decodable(hash, g, DEFAULT_LIMITS) ==> r.Err? && r.error in {LimitExceeded, Malformed}
  {
    hide Decodable;
    var decoded := Decode(hash, g, DEFAULT_LIMITS);
    return if decoded.Ok? then Ok(g) else Err(decoded.error);
  }

  method CopyRecords(rs: seq<Record>, n: nat) returns (out: seq<Record>)
    requires n <= |rs|
    ensures out == rs[..n]
  {
    out := [];
    var i := 0;
    while i < n
      invariant 0 <= i <= n && out == rs[..i]
    {
      out := out + [rs[i]];
      i := i + 1;
    }
  }

  // ---------- Saving ----------

  /** A save succeeds exactly when it is permitted and fits, with exactly the graph specified. */
  method SaveTo(hash: Hash, g: Graph, s: SaveRequest) returns (r: Result<Graph, Error>)
    requires Injective(hash) && Decodable(hash, g, DEFAULT_LIMITS)
    ensures HasProvisional(g) ==> g.records[|g.records| - 1].imm.previous.Some?
                                  && g.records[|g.records| - 1].imm.contentParent.Some?
    ensures !SaveAllowed(g, s) ==> r == Err(InvalidArgument)
    ensures SaveAllowed(g, s) && SaveFits(g, s) ==> r == Ok(SavedGraph(hash, g, s))
    ensures SaveAllowed(g, s) && !SaveFits(g, s) ==> r.Err? && r.error in {LimitExceeded, Malformed}
  {
    hide CanonicalText, Decodable, SaveFits, LineAfter;
    TailFacts(hash, g);
    var canonical := ValidCanonicalDocumentText(s.content);
    if s.timestamp > MAX_TIME || |s.content| > DEFAULT_LIMITS.maxText || !canonical {
      return Err(InvalidArgument);
    }
    var retained := |g.records|;
    var last := g.records[|g.records| - 1];
    if s.discard && !last.provisional { return Err(InvalidArgument); }
    var head, contentHead := g.head, g.contentHead;
    if last.provisional {
      retained := retained - 1;
      head, contentHead := last.imm.previous.value, last.imm.contentParent.value;
    }
    var records := CopyRecords(g.records, retained);
    assert g.records[..|g.records|] == g.records;
    var base := g.(records := records, head := head, contentHead := contentHead);
    assert base == Base(g);
    var out := base;
    if !s.discard {
      var reseals := SameDraft(hash, g, s);
      var r := if reseals then Sealed(last) else NewRevision(hash, base, s);
      out := base.(records := records + [r], head := r.id, contentHead := r.id);
    }
    assert out == SavedGraph(hash, g, s);
    SaveDecides(hash, g, s);
    r := Checked(hash, out);
  }

  lemma SaveDecides(hash: Hash, g: Graph, s: SaveRequest)
    requires Injective(hash) && Decodable(hash, g, DEFAULT_LIMITS) && SaveAllowed(g, s)
    ensures HasProvisional(g) ==> g.records[|g.records| - 1].imm.previous.Some?
                                  && g.records[|g.records| - 1].imm.contentParent.Some?
    ensures Decodable(hash, SavedGraph(hash, g, s), DEFAULT_LIMITS) <==> SaveFits(g, s)
  {
    hide Decodable, SaveFits, SaveAllowed, SavedGraph, LineAfter;
    if SaveFits(g, s) { SaveCloses(hash, g, s); } else { UnfitSaveFails(hash, g, s); }
  }

  /** The comparison that decides whether a draft is sealed in place. */
  method SameDraft(hash: Hash, g: Graph, s: SaveRequest) returns (same: bool)
    requires Decodable(hash, g, DEFAULT_LIMITS)
    ensures same <==> Reseals(g, s)
  {
    hide Decodable, LineAfter;
    TailFacts(hash, g);
    var last := g.records[|g.records| - 1];
    if !last.provisional || s.regular { return false; }
    var text := Reconstruct(hash, g, g.contentHead);
    ContentHeadReads(hash, g, |g.records| - 1);
    same := Some(s.content) == text
            && last.imm.author == Attribution(s.timestamp, s.actor.id, s.actor.name, s.actor.email,
                                              s.profileName, s.profileEmail, s.device);
  }

  // ---------- Merging ----------

  /** The identifiers of a list, as a set. */
  method LocalIds(rs: seq<Record>) returns (ids: set<RevisionId>)
    ensures forall id :: id in ids <==> Holds(rs, id)
  {
    ids := {};
    var i := 0;
    while i < |rs|
      invariant 0 <= i <= |rs|
      invariant forall id :: id in ids <==> Occurs(rs, i, id)
    {
      ids := ids + {rs[i].id};
      i := i + 1;
    }
  }

  /** A record both graphs hold as canonical text, the last one in target order. */
  ghost predicate SharedText(local: seq<Record>, target: seq<Record>, j: nat) {
    j < |target| && Carries(target[j]) && HoldsCanonical(local, target[j].id)
  }

  /** Some replica can read the last shared text. */
  ghost predicate BaseReads(local: seq<Record>, target: seq<Record>, j: nat)
    requires j < |target|
  {
    Available(target, j, DEFAULT_LIMITS)
    || exists i :: 0 <= i < |local| && local[i].id == target[j].id && Available(local, i, DEFAULT_LIMITS)
  }

  ghost predicate LastShared(local: seq<Record>, target: seq<Record>, j: nat) {
    SharedText(local, target, j) && forall k | j < k < |target| :: !SharedText(local, target, k)
  }

  /** The scan for the merge base. Diverged replicas always have one. */
  method FindBase(hash: Hash, local: Graph, target: Graph) returns (base: Option<nat>)
    requires Diverged(hash, local, target)
    ensures base.Some? && LastShared(local.records, target.records, base.value)
  {
    hide Decodable;
    base := None;
    var j := 0;
    while j < |target.records|
      invariant 0 <= j <= |target.records|
      invariant base.Some? ==> base.value < j && SharedText(local.records, target.records, base.value)
      invariant forall k | 0 <= k < j && SharedText(local.records, target.records, k) :: base.Some? && k <= base.value
    {
      var record := target.records[j];
      var same := Find(local.records, record.id);
      if same.Some? {
        assert Distinct(local.records) by { DecodedDistinct(hash, local); }
        FoundIsUnique(local.records, same.value);
        if !same.value.foreign && !record.foreign && record.imm.kind != Event { base := Some(j); }
      }
      j := j + 1;
    }
    SomeShared(hash, local, target);
  }

  lemma DecodedDistinct(hash: Hash, g: Graph)
    requires Decodable(hash, g, DEFAULT_LIMITS)
    ensures Distinct(g.records)
  {
    DistinctIds(g.records);
  }

  /** The baseline is shared, and canonical in both. */
  lemma SomeShared(hash: Hash, local: Graph, target: Graph)
    requires Diverged(hash, local, target)
    ensures SharedText(local.records, target.records, 0)
  {
    hide CanonicalText, GoodImmutable, GoodBody, StepOk, Resolved, ClosedImport, CompactionsOk, LineAfter, GoodSlots, GoodLease;
    var j :| 0 <= j < |target.records| && !target.records[j].foreign
             && HoldsCanonical(local.records, target.records[j].id);
    BaselineShared(hash, local, target, j);
    FirstIsCanonical(target.records);
    OnlyBaseline(target.records, target.head, target.contentHead, 0);
    var i :| 0 <= i < |local.records| && local.records[i].id == target.records[0].id;
    assert local.records[i].imm == target.records[0].imm;
    OnlyBaseline(local.records, local.head, local.contentHead, i);
    FirstIsCanonical(local.records);
  }

  /** The loop that writes one import for every target record the local list lacks. */
  method WriteImports(local: seq<Record>, target: seq<Record>, ids: set<RevisionId>, merge: RevisionId)
    returns (out: seq<Record>)
    requires forall id :: id in ids <==> Holds(local, id)
    ensures out == Imports(local, target, |target|, merge)
  {
    out := [];
    var i := 0;
    while i < |target|
      invariant 0 <= i <= |target| && out == Imports(local, target, i, merge)
    {
      if target[i].id !in ids {
        out := out + [AsImport(target[i], merge)];
      }
      i := i + 1;
    }
  }

  /** What a merge answers, in the order it looks. */
  ghost predicate MergeAnswer(hash: Hash, local: Graph, target: Graph, s: MergeRequest, r: Result<Graph, Error>) {
    if !MergeAllowed(local, target, s) then r == Err(InvalidArgument)
    else match VerdictOn(local, target)
      case Err(e) => r == Err(e)
      case Ok(Divergent) =>
        (exists j :: LastShared(local.records, target.records, j)
                     && if !BaseReads(local.records, target.records, j) then r == Err(UnavailableBase)
                        else if |MergedGraph(hash, local, target, s).records| <= DEFAULT_LIMITS.maxEntries
                        then r == Ok(MergedGraph(hash, local, target, s))
                        else r == Err(LimitExceeded))
      case Ok(_) => r == Err(InvalidArgument)
  }

  method CheckMergeInputs(local: Graph, target: Graph, s: MergeRequest) returns (ok: bool)
    ensures ok <==> MergeAllowed(local, target, s)
  {
    hide CanonicalText;
    var canonical := ValidCanonicalDocumentText(s.content);
    ok := !HasProvisional(local) && !HasProvisional(target)
          && s.timestamp <= MAX_TIME && |s.content| <= DEFAULT_LIMITS.maxText && canonical
          && s.profileName != "" && s.profileEmail != "" && s.device != ""
          && MayMerge(target.slots, s.actor.id);
  }

  method MergeWith(hash: Hash, local: Graph, target: Graph, s: MergeRequest) returns (r: Result<Graph, Error>)
    requires Injective(hash) && Decodable(hash, local, DEFAULT_LIMITS) && Decodable(hash, target, DEFAULT_LIMITS)
    ensures MergeAnswer(hash, local, target, s, r)
  {
    hide Decodable, MergedGraph, Available, LineAfter, MergeAllowed, VerdictOn, LastShared;
    var allowed := CheckMergeInputs(local, target, s);
    if !allowed { return Err(InvalidArgument); }
    var verdict := AssessTarget(hash, local, target);
    match verdict {
      case Err(e) => return Err(e);
      case Ok(v) =>
        if v != Divergent { return Err(InvalidArgument); }
    }
    assert Diverged(hash, local, target) by { AllowedSealed(local, target, s); }
    var base := FindBase(hash, local, target);
    var readable := CheckBaseReads(hash, local, target, base.value);
    if !readable { return Err(UnavailableBase); }
    var out := WriteMerge(hash, local, target, s);
    MergeCloses(hash, local, target, s);
    var decoded := Decode(hash, out, DEFAULT_LIMITS);
    return if decoded.Ok? then Ok(out) else Err(decoded.error);
  }

  lemma AllowedSealed(local: Graph, target: Graph, s: MergeRequest)
    requires MergeAllowed(local, target, s)
    ensures !HasProvisional(local) && !HasProvisional(target)
  {
  }

  method CheckBaseReads(hash: Hash, local: Graph, target: Graph, j: nat) returns (ok: bool)
    requires Decodable(hash, local, DEFAULT_LIMITS) && Decodable(hash, target, DEFAULT_LIMITS)
    requires LastShared(local.records, target.records, j)
    ensures ok <==> BaseReads(local.records, target.records, j)
  {
    hide Decodable, Available, LineAfter;
    var mine := Reconstruct(hash, local, target.records[j].id);
    var theirs := Reconstruct(hash, target, target.records[j].id);
    ok := mine.Some? || theirs.Some?;
    assert ReadAt(target.records, j).Some? <==> Available(target.records, j, DEFAULT_LIMITS);
    var i :| 0 <= i < |local.records| && local.records[i].id == target.records[j].id && !local.records[i].foreign;
    assert ReadAt(local.records, i).Some? <==> Available(local.records, i, DEFAULT_LIMITS);
    assert mine.Some? ==> BaseReads(local.records, target.records, j);
  }

  /** The writer: local records, imports, the merge. */
  method WriteMerge(hash: Hash, local: Graph, target: Graph, s: MergeRequest) returns (out: Graph)
    requires Diverged(hash, local, target)
    ensures out == MergedGraph(hash, local, target, s)
  {
    hide Decodable, LineAfter, DiffBody;
    TailFacts(hash, local);
    var ids := LocalIds(local.records);
    var text := Reconstruct(hash, local, local.contentHead);
    ContentHeadHeld(hash, local);
    var i :| 0 <= i < |local.records| && local.records[i].id == local.contentHead;
    ContentHeadReads(hash, local, i);
    var body := Diff(text.value, s.content);
    var m := ContentRecord(hash, local.head, local.contentHead, [target.head],
                           AuthorOf(s.actor, s.profileName, s.profileEmail, s.device, s.timestamp),
                           s.content, body, false);
    var records := CopyRecords(local.records, |local.records|);
    assert records == local.records;
    var imports := WriteImports(local.records, target.records, ids, m.id);
    out := Graph(records + imports + [m], m.id, m.id, target.slots, target.lease);
  }

  lemma ContentHeadHeld(hash: Hash, g: Graph)
    requires Decodable(hash, g, DEFAULT_LIMITS)
    ensures Holds(g.records, g.contentHead)
  {
    hide ChainOk, ImportsOk, MergesOk, CompactionsOk, LineAfter, GoodRecord, GoodSlots, GoodLease;
  }

  // ---------- Compacting ----------

  method ContentPositions(rs: seq<Record>) returns (ks: seq<nat>)
    ensures ks == Carriers(rs, |rs|)
  {
    ks := [];
    var i := 0;
    while i < |rs|
      invariant 0 <= i <= |rs| && ks == Carriers(rs, i)
    {
      if !rs[i].foreign && rs[i].imm.kind != Event { ks := ks + [i]; }
      i := i + 1;
    }
  }

  method WriteTrimmed(rs: seq<Record>, c: nat, text: Bytes) returns (out: seq<Record>)
    ensures out == Trimmed(rs, c, text)
  {
    out := [];
    var i := 0;
    while i < |rs|
      invariant 0 <= i <= |rs| && |out| == i
      invariant forall j | 0 <= j < i :: out[j] == Trim(rs[j], j, c, text)
    {
      var r := rs[i];
      if r.foreign || r.imm.kind == Event || i > c {
        out := out + [r];
      } else {
        var anchor := i == c;
        out := out + [Record(r.id, r.imm, if anchor then Checkpoint else Pruned,
                             if anchor then Some(Whole(text)) else None, false, None, false)];
      }
      i := i + 1;
    }
  }

  /** A compaction succeeds exactly when it is permitted and there is room for its event. */
  method CompactAt(hash: Hash, g: Graph, k: nat, s: CompactRequest) returns (r: Result<Graph, Error>)
    requires Injective(hash) && Decodable(hash, g, DEFAULT_LIMITS)
    ensures g.records != []
    ensures !CompactAllowed(g, k, s) ==> r == Err(InvalidArgument)
    ensures CompactAllowed(g, k, s) && |g.records| < DEFAULT_LIMITS.maxEntries ==> r == Ok(CompactedGraph(hash, g, k, s))
    ensures CompactAllowed(g, k, s) && |g.records| == DEFAULT_LIMITS.maxEntries ==> r.Err?
  {
    hide Decodable, LineAfter, MayCompact, Carriers;
    TailFacts(hash, g);
    if HasProvisional(g) || s.timestamp > MAX_TIME || s.clientName == "" || s.clientEmail == "" || s.device == ""
       || !MayCompact(g.slots, s.actor)
    {
      return Err(InvalidArgument);
    }
    var ks := ContentPositions(g.records);
    if k >= |ks| { return Err(InvalidArgument); }
    var c := ks[k];
    var text := Reconstruct(hash, g, g.records[c].id);
    assert text == ReadAt(g.records, c);
    if text.None? { return Err(InvalidArgument); }
    var event := EventRecord(hash, g, AuthorOf(s.actor, s.clientName, s.clientEmail, s.device, s.timestamp),
                             CompactionFacts(g.records[c].id, |ks| - k - 1));
    var records := WriteTrimmed(g.records, c, text.value);
    var out := g.(records := records + [event], head := event.id);
    assert out == CompactedGraph(hash, g, k, s);
    CompactCloses(hash, g, k, s);
    r := Checked(hash, out);
  }

  /** The counting loop: how many records carry text, and the number of the first that can be read. */
  method CountAvailable(rs: seq<Record>, available: seq<bool>) returns (count: nat, firstAvailable: nat)
    requires |available| == |rs| && forall i | 0 <= i < |rs| :: available[i] <==> Available(rs, i, DEFAULT_LIMITS)
    ensures count == |Carriers(rs, |rs|)|
    ensures firstAvailable == if FirstAvailable(rs, |rs|) < count then FirstAvailable(rs, |rs|) else |rs|
  {
    hide Available;
    count, firstAvailable := 0, |rs|;
    var i := 0;
    while i < |rs|
      invariant 0 <= i <= |rs| && count == |Carriers(rs, i)|
      invariant firstAvailable == if FirstAvailable(rs, i) < count then FirstAvailable(rs, i) else |rs|
    {
      if !rs[i].foreign && rs[i].imm.kind != Event {
        if available[i] && firstAvailable == |rs| { firstAvailable := count; }
        count := count + 1;
      }
      i := i + 1;
    }
  }

  /** The cutoff that counting leads to, and the compaction it asks for. */
  method CompactGraph(hash: Hash, g: Graph, available: seq<bool>, retain: nat, s: CompactRequest)
    returns (r: Result<Graph, Error>)
    requires Injective(hash) && Decodable(hash, g, DEFAULT_LIMITS)
    requires |available| == |g.records|
    requires forall i | 0 <= i < |g.records| :: available[i] <==> Available(g.records, i, DEFAULT_LIMITS)
    ensures g.records != []
    ensures var k := ChosenCutoff(g.records, retain);
            && (!CompactAllowed(g, k, s) ==> r == Err(InvalidArgument))
            && (CompactAllowed(g, k, s) && |g.records| < DEFAULT_LIMITS.maxEntries ==>
                  r == Ok(CompactedGraph(hash, g, k, s)))
            && (|g.records| == DEFAULT_LIMITS.maxEntries ==> r.Err?)
  {
    hide Decodable, Available, CompactAllowed, FirstAvailable;
    SomeAvailable(hash, g);
    var count, firstAvailable := CountAvailable(g.records, available);
    var cutoff := Max(CompactionCutoff(count, retain), firstAvailable);
    r := CompactAt(hash, g, cutoff, s);
  }

  // ---------- Events ----------

  method AppendEventTo(hash: Hash, g: Graph, e: EventRequest) returns (r: Result<Graph, Error>)
    requires Injective(hash) && Decodable(hash, g, DEFAULT_LIMITS)
    ensures g.records != []
    ensures !EventAllowed(g, e) ==> r == Err(InvalidArgument)
    ensures EventAllowed(g, e) && EventFits(g, e) ==> r == Ok(EventGraph(hash, g, e))
    ensures EventAllowed(g, e) && !EventFits(g, e) ==> r.Err? && r.error in {LimitExceeded, Malformed}
  {
    hide Decodable, EventFits;
    TailFacts(hash, g);
    if !EventAllowed(g, e) { return Err(InvalidArgument); }
    var event := EventRecord(hash, g, AuthorOf(e.actor, e.clientName, e.clientEmail, e.device, e.timestamp),
                             EventFacts(e.name, Some(e.affectedSlot), None, None, e.status, e.detail));
    var records := CopyRecords(g.records, |g.records|);
    assert records == g.records;
    var out := g.(records := records + [event], head := event.id, slots := e.slots);
    EventCloses(hash, g, e);
    r := Checked(hash, out);
  }

  method ReplaceLease(hash: Hash, g: Graph, lease: Lease) returns (r: Result<Graph, Error>)
    requires Decodable(hash, g, DEFAULT_LIMITS)
    ensures GoodLease(lease) ==> r == Ok(g.(lease := lease))
    ensures !GoodLease(lease) ==> r.Err?
  {
    hide Decodable;
    LeaseReplacementCloses(hash, g, lease);
    r := Checked(hash, g.(lease := lease));
  }
}
