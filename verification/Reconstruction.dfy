/** Reading one revision's text back (src/format/revision_graph.cpp, reconstruct and reconstruct_at). */
module Reconstruction {
  import opened Wrappers
  import opened TextValidation
  import opened RevisionRecords
  import opened GraphValidity
  import opened GraphLemmas
  import opened RevisionGraph
  import opened Patching
  import opened Lineage
  import opened Compaction

  /** What the forward pass says record i reads as. */
  ghost function ReadAt(rs: seq<Record>, i: nat): Option<Bytes>
    requires i < |rs|
  {
    if Available(rs, i, DEFAULT_LIMITS) then Some(LineAfter(rs, i + 1, DEFAULT_LIMITS).text) else None
  }

  /** The line a backwards search relies on: never broken, distinct identifiers, linked contents. */
  ghost predicate Readable(rs: seq<Record>) {
    ChainOk(rs) && Distinct(rs) && GoodRecords(rs, DEFAULT_LIMITS)
    && LineAfter(rs, |rs|, DEFAULT_LIMITS).Known?
  }

  lemma GraphIsReadable(hash: Hash, g: Graph)
    requires Decodable(hash, g, DEFAULT_LIMITS)
    ensures Readable(g.records)
  {
    hide StepOk, GoodRecord;
    DistinctIds(g.records);
  }

  /** The content parent of a text-carrying delta is the text-carrying record right before it. */
  lemma ParentIsPrevious(rs: seq<Record>, i: nat)
    requires Readable(rs) && i < |rs| && Carries(rs[i]) && rs[i].storage == Delta
    ensures var p := LastContent(rs, i);
            p >= 0 && rs[i].imm.contentParent == Some(rs[p].id)
  {
    hide RefsBefore, FollowsLine, SourcesOwned, LineAfter, GoodImmutable, GoodBody;
    assert StepOk(rs, i) && FollowsContent(rs, i);
    assert GoodRecord(rs[i], DEFAULT_LIMITS);
  }

  lemma {:induction false} CarriersBetween(rs: seq<Record>, lo: nat, hi: nat, limits: Limits)
    requires lo <= hi <= |rs| && forall k | lo <= k < hi :: !Carries(rs[k])
    ensures LineAfter(rs, hi, limits) == LineAfter(rs, lo, limits)
    decreases hi - lo
  {
    if lo < hi { CarriersBetween(rs, lo, hi - 1, limits); }
  }

  /** A delta only follows a known text. */
  lemma KnownBeforeDelta(rs: seq<Record>, i: nat)
    requires Readable(rs) && i < |rs| && Carries(rs[i]) && rs[i].storage == Delta
    ensures LineAfter(rs, i, DEFAULT_LIMITS).Known? && LineAfter(rs, i + 1, DEFAULT_LIMITS).Known?
  {
    hide StepOk, GoodRecord, AppliesTo;
    NeverBroken(rs, i + 1, DEFAULT_LIMITS);
  }

  /** The search for the nearest stored text, following content parents backwards. */
  method FindAnchor(rs: seq<Record>, index: nat) returns (r: Result<Option<nat>, Error>)
    requires Readable(rs) && index < |rs| && Carries(rs[index])
    ensures r.Ok?
    ensures r.value.None? ==> !LineAfter(rs, index + 1, DEFAULT_LIMITS).Known?
    ensures r.value.Some? ==>
              var a := r.value.value;
              a <= index && Carries(rs[a]) && rs[a].storage in {Snapshot, Checkpoint}
              && forall k | a < k <= index && Carries(rs[k]) :: rs[k].storage == Delta
  {
    hide StepOk, GoodRecord, Advance, Readable;
    var anchor: nat := index;
    while rs[anchor].storage != Snapshot && rs[anchor].storage != Checkpoint
      invariant anchor <= index && Carries(rs[anchor])
      invariant forall k | anchor < k <= index && Carries(rs[k]) :: rs[k].storage == Delta
      invariant anchor < index ==> LineAfter(rs, anchor + 1, DEFAULT_LIMITS).Known?
      decreases anchor
    {
      if rs[anchor].storage != Delta || rs[anchor].imm.contentParent.None? {
        UnreadableAnchor(rs, anchor);
        return Ok(None);
      }
      ParentIsPrevious(rs, anchor);
      KnownBeforeDelta(rs, anchor);
      var parent := 0;
      while parent < anchor && rs[parent].id != rs[anchor].imm.contentParent.value
        invariant 0 <= parent <= anchor
        invariant parent <= LastContent(rs, anchor)
      {
        parent := parent + 1;
      }
      if parent == anchor { return Err(Malformed); }
      ParentFound(rs, anchor, parent);
      CarriersBetween(rs, parent + 1, anchor, DEFAULT_LIMITS);
      anchor := parent;
    }
    return Ok(Some(anchor));
  }

  lemma ParentFound(rs: seq<Record>, anchor: nat, parent: nat)
    requires Readable(rs) && parent < anchor < |rs| && LastContent(rs, anchor) >= 0
    requires rs[parent].id == rs[LastContent(rs, anchor)].id
    ensures parent == LastContent(rs, anchor)
  {
    hide ChainOk, GoodRecord, LineAfter;
  }

  /** A text-carrying record that stores neither text nor patch is pruned. */
  lemma UnreadableAnchor(rs: seq<Record>, i: nat)
    requires Readable(rs) && i < |rs| && Carries(rs[i])
    requires rs[i].storage != Snapshot && rs[i].storage != Checkpoint
    requires rs[i].storage != Delta || rs[i].imm.contentParent.None?
    ensures !LineAfter(rs, i + 1, DEFAULT_LIMITS).Known?
  {
    hide StepOk, AppliesTo, GoodImmutable, GoodBody;
    assert GoodRecord(rs[i], DEFAULT_LIMITS);
    if rs[i].storage == Delta { ParentIsPrevious(rs, i); }
    NeverBroken(rs, i + 1, DEFAULT_LIMITS);
  }

  /** The stored text of an anchor is the line's text there. */
  lemma AnchorText(rs: seq<Record>, a: nat)
    requires Readable(rs) && a < |rs| && Carries(rs[a]) && rs[a].storage in {Snapshot, Checkpoint}
    ensures rs[a].body.Some? && rs[a].body.value.Whole?
    ensures LineAfter(rs, a + 1, DEFAULT_LIMITS) == Known(rs[a].body.value.text)
  {
    hide StepOk, AppliesTo, GoodImmutable, GoodWhole;
    assert GoodRecord(rs[a], DEFAULT_LIMITS);
    NeverBroken(rs, a + 1, DEFAULT_LIMITS);
  }

  lemma DeltaText(rs: seq<Record>, i: nat, text: Bytes)
    requires Readable(rs) && i < |rs| && Carries(rs[i]) && rs[i].storage == Delta
    requires LineAfter(rs, i, DEFAULT_LIMITS) == Known(text)
    ensures rs[i].body.Some? && rs[i].body.value.Patch?
    ensures AppliesTo(rs[i].body.value, text, rs[i].imm.contentHash.text, DEFAULT_LIMITS)
    ensures LineAfter(rs, i + 1, DEFAULT_LIMITS) == Known(rs[i].imm.contentHash.text)
  {
    hide StepOk, AppliesTo, GoodImmutable, GoodSegments;
    assert GoodRecord(rs[i], DEFAULT_LIMITS);
    NeverBroken(rs, i + 1, DEFAULT_LIMITS);
  }

  /** Backwards to an anchor, then forwards over the patches. After an anchor only patches
   *  follow, so nothing is ever found malformed.  */
  method ReconstructAt(rs: seq<Record>, index: nat) returns (r: Result<Option<Bytes>, Error>)
    requires Readable(rs) && index < |rs|
    ensures r.Ok?
    ensures r.value == if Carries(rs[index]) then ReadAt(rs, index) else None
  {
    hide Readable, GoodRecord, Advance, AppliesTo;
    if rs[index].foreign || rs[index].imm.kind == Event { return Ok(None); }
    var found := FindAnchor(rs, index);
    if found.value.None? { return Ok(None); }
    var anchor := found.value.value;
    AnchorText(rs, anchor);
    var text := rs[anchor].body.value.text;
    var i := anchor + 1;
    while i <= index
      invariant anchor < i <= index + 1
      invariant LineAfter(rs, i, DEFAULT_LIMITS) == Known(text)
    {
      if !rs[i].foreign && rs[i].imm.kind != Event {
        DeltaText(rs, i, text);
        var next := ApplyDelta(rs[i].body.value, text, DEFAULT_LIMITS);
        if next.None? { return Err(Malformed); }
        PatchIsUnique(rs[i].body.value, text, next.value, rs[i].imm.contentHash.text);
        text := next.value;
        if ContentDigest(text) != rs[i].imm.contentHash { return Err(Malformed); }
      } else {
        CarriersBetween(rs, i, i + 1, DEFAULT_LIMITS);
      }
      i := i + 1;
    }
    return Ok(Some(text));
  }

  lemma PatchIsUnique(body: Body, source: Bytes, a: Bytes, b: Bytes)
    requires AppliesTo(body, source, a, DEFAULT_LIMITS) && AppliesTo(body, source, b, DEFAULT_LIMITS)
    ensures a == b
  {
    hide GoodWhole;
  }

  /** Reading by identifier: an event reads as the content it stands on. */
  method Reconstruct(hash: Hash, g: Graph, id: RevisionId) returns (r: Option<Bytes>)
    requires Decodable(hash, g, DEFAULT_LIMITS)
    ensures !Holds(g.records, id) ==> r == None
    ensures forall i | 0 <= i < |g.records| && g.records[i].id == id :: r == ReadAt(g.records, i)
  {
    hide Decodable, GoodRecord, StepOk, Advance, LineAfter;
    GraphIsReadable(hash, g);
    var rs := g.records;
    var index := 0;
    while index < |rs| && rs[index].id != id
      invariant 0 <= index <= |rs| && !Occurs(rs, index, id)
    {
      index := index + 1;
    }
    if index == |rs| { return None; }
    assert forall i | 0 <= i < |rs| && rs[i].id == id :: i == index;
    var at := index;
    if rs[index].imm.kind == Event && !rs[index].foreign {
      var current := index;
      while current > 0 && !Carries(rs[current])
        invariant 0 <= current <= index
        invariant forall k | current < k <= index :: !Carries(rs[k])
      {
        current := current - 1;
      }
      if !Carries(rs[current]) {
        CarriersBetween(rs, 0, index + 1, DEFAULT_LIMITS);
        NothingAtStart(rs);
        return None;
      }
      CarriersBetween(rs, current + 1, index + 1, DEFAULT_LIMITS);
      at := current;
    }
    var found := ReconstructAt(rs, at);
    r := found.value;
  }

  lemma NothingAtStart(rs: seq<Record>)
    ensures LineAfter(rs, 0, DEFAULT_LIMITS) == Gone
  {
  }

  // ---------- What reading means ----------

  /** The content head always reads, as the text its record declares. */
  lemma ContentHeadReads(hash: Hash, g: Graph, i: nat)
    requires Decodable(hash, g, DEFAULT_LIMITS) && i < |g.records| && g.records[i].id == g.contentHead
    ensures ReadAt(g.records, i) == Some(g.records[i].imm.contentHash.text)
    ensures LineAfter(g.records, |g.records|, DEFAULT_LIMITS) == Known(g.records[i].imm.contentHash.text)
  {
    hide GoodRecord, StepOk, AppliesTo, ImportsOk, MergesOk, CompactionsOk, GoodSlots, GoodLease, Advance;
    var rs := g.records;
    DistinctIds(rs);
    LineShowsHash(rs, |rs|, DEFAULT_LIMITS);
    CarriersBetween(rs, i + 1, |rs|, DEFAULT_LIMITS);
  }

  /** Every text that reads matches the content hash its text-carrying record stores. */
  lemma ReadsMatchHash(hash: Hash, g: Graph, i: nat)
    requires Decodable(hash, g, DEFAULT_LIMITS) && i < |g.records| && Carries(g.records[i])
    requires ReadAt(g.records, i).Some?
    ensures g.records[i].imm.contentHash == ContentDigest(ReadAt(g.records, i).value)
  {
    hide Decodable, AppliesTo;
    LineShowsHash(g.records, i + 1, DEFAULT_LIMITS);
  }

  /** Replicas agree: a revision both can read is the same text in both. */
  lemma ReplicasAgree(hash: Hash, a: Graph, b: Graph, i: nat, j: nat)
    requires Injective(hash) && Decodable(hash, a, DEFAULT_LIMITS) && Decodable(hash, b, DEFAULT_LIMITS)
    requires i < |a.records| && j < |b.records| && a.records[i].id == b.records[j].id
    requires Carries(a.records[i]) && Carries(b.records[j])
    requires ReadAt(a.records, i).Some? && ReadAt(b.records, j).Some?
    ensures ReadAt(a.records, i) == ReadAt(b.records, j)
  {
    hide ValidGraph, GoodRecord, ReadAt;
    ReadsMatchHash(hash, a, i);
    ReadsMatchHash(hash, b, j);
    assert a.records[i].imm == b.records[j].imm;
  }
}
