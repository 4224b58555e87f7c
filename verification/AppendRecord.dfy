/** Appending one canonical record to a valid, sealed list leaves a valid list. */
module AppendRecord {
  import opened Wrappers
  import opened RevisionRecords
  import opened GraphValidity
  import opened GraphLemmas

  /** No record of a valid list names the head: it is the newest. */
  lemma NothingNamesHead(rs: seq<Record>, head: RevisionId, contentHead: RevisionId)
    requires Structured(rs, head, contentHead)
    ensures forall j | 0 <= j < |rs| :: !Refers(rs[j].imm, head)
  {
    HeadIsLast(rs, head, contentHead);
    DistinctIds(rs);
    forall j | 0 <= j < |rs| ensures !Refers(rs[j].imm, head) {
      assert StepOk(rs, j);
      assert forall k | 0 <= k < j :: rs[k].id != rs[|rs| - 1].id;
      assert !Occurs(rs, j, head);
    }
  }

  /** A record that names the head is not already in the list. */
  lemma FreshId(hash: Hash, rs: seq<Record>, head: RevisionId, contentHead: RevisionId,
                imm: Immutable)
    requires Injective(hash) && SealedBy(hash, rs) && Structured(rs, head, contentHead)
    requires Refers(imm, head)
    ensures !Occurs(rs, |rs|, hash(imm))
  {
    NothingNamesHead(rs, head, contentHead);
    forall j | 0 <= j < |rs| ensures rs[j].id != hash(imm) {
      assert rs[j].imm != imm;
    }
  }

  /** Only the last record of a valid list can be provisional. */
  lemma OnlyTailProvisional(rs: seq<Record>)
    requires ChainOk(rs)
    requires forall i | 0 <= i < |rs| :: !(rs[i].foreign && rs[i].provisional)
    ensures forall i | 0 <= i < |rs| - 1 :: !rs[i].provisional
  {
    forall i | 0 <= i < |rs| - 1 ensures !rs[i].provisional {
      assert StepOk(rs, i);
    }
  }

  /** What a canonical content record without merge sources, appended to rs, must look like. */
  ghost predicate NextContent(rs: seq<Record>, head: RevisionId, contentHead: RevisionId, r: Record) {
    !r.foreign && r.imm.kind == Content && r.imm.previous == Some(head)
    && r.imm.contentParent == Some(contentHead) && r.imm.mergeSources == []
    && !Occurs(rs, |rs|, r.id)
  }

  ghost predicate NextEvent(rs: seq<Record>, head: RevisionId, r: Record) {
    !r.foreign && r.imm.kind == Event && r.imm.previous == Some(head)
    && r.imm.contentParent == None && r.imm.mergeSources == [] && !r.provisional
    && rs != [] && r.imm.contentHash == rs[|rs| - 1].imm.contentHash
    && !Occurs(rs, |rs|, r.id)
  }

  /** The last record always shows the hash of the current content, event or not. */
  lemma LastShowsContent(rs: seq<Record>, head: RevisionId, contentHead: RevisionId)
    requires Structured(rs, head, contentHead)
    ensures var c := LastContent(rs, |rs|); c >= 0 && rs[|rs| - 1].imm.contentHash == rs[c].imm.contentHash
  {
    hide RefsBefore, SourcesOwned, FollowsLine, ImportsOk, MergesOk, CompactionsOk, LineAfter;
    HeadIsLast(rs, head, contentHead);
    assert StepOk(rs, |rs| - 1);
    CanonicalShowsContent(rs, |rs| - 1);
  }

  lemma CanonicalShowsContent(rs: seq<Record>, n: nat)
    requires n < |rs| && !rs[n].foreign && FollowsContent(rs, n)
    ensures var c := LastContent(rs, n + 1); c >= 0 && rs[n].imm.contentHash == rs[c].imm.contentHash
  {
    if rs[n].imm.kind == Event {
      LastContentIs(rs, n + 1, LastContent(rs, n));
    } else {
      LastContentIs(rs, n + 1, n);
    }
  }

  /** The heads a new record names are in the list. */
  lemma HeadsOccur(rs: seq<Record>, head: RevisionId, contentHead: RevisionId)
    requires HeadsOk(rs, head, contentHead)
    ensures Occurs(rs, |rs|, head) && Occurs(rs, |rs|, contentHead)
  {
  }

  lemma NewFollows(rs: seq<Record>, head: RevisionId, contentHead: RevisionId, r: Record)
    requires Structured(rs, head, contentHead)
    requires NextContent(rs, head, contentHead, r) || NextEvent(rs, head, r)
    ensures FollowsLine(rs + [r], |rs|) && FollowsContent(rs + [r], |rs|)
  {
    hide ChainOk, ImportsOk, MergesOk, Occurs;
    LastShowsContent(rs, head, contentHead);
    SamePositions(rs, rs + [r], |rs|);
  }

  lemma NewRefs(rs: seq<Record>, head: RevisionId, contentHead: RevisionId, r: Record)
    requires Structured(rs, head, contentHead)
    requires NextContent(rs, head, contentHead, r) || NextEvent(rs, head, r)
    ensures RefsBefore(rs + [r], |rs|) && !Occurs(rs + [r], |rs|, r.id)
  {
    hide ChainOk, ImportsOk, MergesOk, LastCanonical, LastContent, HeadsOk;
    HeadsOccur(rs, head, contentHead);
    assert forall j | 0 <= j < |rs| :: (rs + [r])[j] == rs[j];
    assert forall id :: Occurs(rs, |rs|, id) <==> Occurs(rs + [r], |rs|, id);
  }

  lemma NewStep(rs: seq<Record>, head: RevisionId, contentHead: RevisionId, r: Record)
    requires Structured(rs, head, contentHead)
    requires NextContent(rs, head, contentHead, r) || NextEvent(rs, head, r)
    ensures StepOk(rs + [r], |rs|)
  {
    hide Structured, Occurs, FollowsLine, FollowsContent, RefsBefore;
    NewFollows(rs, head, contentHead, r);
    NewRefs(rs, head, contentHead, r);
    assert (rs + [r])[|rs|] == r;
  }

  lemma OldSteps(rs: seq<Record>, out: seq<Record>)
    requires ChainOk(rs) && SameShape(rs, out, |rs|)
    requires forall i | 0 <= i < |rs| :: !out[i].provisional
    ensures forall i | 0 <= i < |rs| :: StepOk(out, i)
  {
    forall i | 0 <= i < |rs| ensures StepOk(out, i) {
      ShapeRestricts(rs, out, |rs|, i + 1);
      StepTransfers(rs, out, i);
    }
  }

  lemma OldImports(rs: seq<Record>, out: seq<Record>)
    requires ImportsOk(rs) && MergesOk(rs) && SameShape(rs, out, |rs|) && Disowned(out, |rs|)
    ensures forall i | 0 <= i < |rs| && out[i].foreign :: Resolved(out, i)
    ensures forall m | 0 <= m < |rs| && !out[m].foreign && out[m].imm.mergeSources != [] :: ClosedImport(out, m)
  {
    forall i | 0 <= i < |rs| && out[i].foreign ensures Resolved(out, i) {
      ResolvedGrows(rs, out, i);
    }
    forall m | 0 <= m < |rs| && !out[m].foreign && out[m].imm.mergeSources != [] ensures ClosedImport(out, m) {
      ClosedImportGrows(rs, out, m);
    }
  }

  /** Compactions survive records that are not compactions, as long as storage is kept. */
  lemma OldCompactions(rs: seq<Record>, out: seq<Record>)
    requires CompactionsOk(rs) && SameShape(rs, out, |rs|)
    requires forall i | 0 <= i < |rs| :: out[i].storage == rs[i].storage
    requires forall i | |rs| <= i < |out| :: !CompactionEvent(out[i])
    ensures CompactionsOk(out)
  {
    forall e | 0 <= e < |out| && CompactionEvent(out[e]) ensures CompactionOk(out, e) {
      ShapeRestricts(rs, out, |rs|, e + 1);
      CompactionTransfers(rs, out, e);
    }
    forall e, f, c, d | 0 <= e < f < |out| && CutoffAt(out, e, c) && CutoffAt(out, f, d) ensures c <= d {
      ShapeRestricts(rs, out, |rs|, f + 1);
      ShapeRestricts(rs, out, |rs|, e + 1);
      CutoffTransfers(rs, out, e, c);
      CutoffTransfers(rs, out, f, d);
    }
    forall e, c | 0 <= e < |out| && LatestCompaction(out, e) && CutoffAt(out, e, c) ensures CutBefore(out, c) {
      ShapeRestricts(rs, out, |rs|, e + 1);
      CutoffTransfers(rs, out, e, c);
      assert LatestCompaction(rs, e);
      assert CutBefore(rs, c);
    }
  }

  lemma NewIsPlain(rs: seq<Record>, head: RevisionId, contentHead: RevisionId, r: Record)
    requires NextContent(rs, head, contentHead, r) || NextEvent(rs, head, r)
    ensures !r.foreign && r.imm.mergeSources == []
  {
  }

  lemma NewHeads(rs: seq<Record>, head: RevisionId, contentHead: RevisionId, r: Record)
    requires !r.foreign && HeadsOk(rs, head, contentHead)
    ensures HeadsOk(rs + [r], r.id, if r.imm.kind == Event then contentHead else r.id)
  {
    var out, n := rs + [r], |rs|;
    SamePositions(rs, out, n);
    assert out[n] == r;
  }

  /** Structure of the extended list; its text and compactions are checked separately. */
  lemma AppendKeepsStructure(rs: seq<Record>, head: RevisionId, contentHead: RevisionId, r: Record)
    requires Structured(rs, head, contentHead)
    requires forall i | 0 <= i < |rs| :: !rs[i].provisional
    requires NextContent(rs, head, contentHead, r) || NextEvent(rs, head, r)
    ensures ChainOk(rs + [r]) && ImportsOk(rs + [r]) && MergesOk(rs + [r])
    ensures HeadsOk(rs + [r], r.id, if r.imm.kind == Event then contentHead else r.id)
  {
    hide StepOk, Resolved, ClosedImport, NextContent, NextEvent, HeadsOk, LastCanonical;
    var out := rs + [r];
    OldSteps(rs, out);
    NewStep(rs, head, contentHead, r);
    NewIsPlain(rs, head, contentHead, r);
    OldImports(rs, out);
    NewHeads(rs, head, contentHead, r);
  }

  /** A content record with a patch for the current text. */
  lemma AppendContent(rs: seq<Record>, head: RevisionId, contentHead: RevisionId, limits: Limits, r: Record)
    requires ValidGraph(rs, head, contentHead, limits)
    requires forall i | 0 <= i < |rs| :: !rs[i].provisional
    requires NextContent(rs, head, contentHead, r)
    requires Advance(LineAfter(rs, |rs|, limits), r, limits).Known?
    requires !CompactionEvent(r)
    ensures ValidGraph(rs + [r], r.id, r.id, limits)
    ensures LineAfter(rs + [r], |rs| + 1, limits) == Advance(LineAfter(rs, |rs|, limits), r, limits)
  {
    var out := rs + [r];
    AppendKeepsStructure(rs, head, contentHead, r);
    LineOfPrefix(rs, out, |rs|, limits);
    OldCompactions(rs, out);
  }

  /** An event other than a compaction. */
  lemma AppendPlainEvent(rs: seq<Record>, head: RevisionId, contentHead: RevisionId, limits: Limits, r: Record)
    requires ValidGraph(rs, head, contentHead, limits)
    requires forall i | 0 <= i < |rs| :: !rs[i].provisional
    requires NextEvent(rs, head, r) && !CompactionEvent(r)
    ensures ValidGraph(rs + [r], r.id, contentHead, limits)
    ensures LineAfter(rs + [r], |rs| + 1, limits) == LineAfter(rs, |rs|, limits)
  {
    var out := rs + [r];
    AppendKeepsStructure(rs, head, contentHead, r);
    LineOfPrefix(rs, out, |rs|, limits);
    OldCompactions(rs, out);
  }

  /** Removing a provisional tail that merged nothing, when the text before it is known. */
  lemma DropTail(rs: seq<Record>, head: RevisionId, contentHead: RevisionId, limits: Limits)
    requires ValidGraph(rs, head, contentHead, limits)
    requires var t := rs[|rs| - 1]; !t.foreign && t.imm.kind == Content && t.imm.mergeSources == []
    requires LineAfter(rs, |rs| - 1, limits).Known?
    requires !CompactionEvent(rs[|rs| - 1])
    requires forall i | 0 <= i < |rs| - 1 :: !rs[i].provisional
    ensures rs[|rs| - 1].imm.previous.Some? && rs[|rs| - 1].imm.contentParent.Some?
    ensures ValidGraph(rs[..|rs| - 1], rs[|rs| - 1].imm.previous.value,
                       rs[|rs| - 1].imm.contentParent.value, limits)
  {
    var n := |rs| - 1;
    var base := rs[..n];
    assert StepOk(rs, n);
    assert base[..n] == rs[..n];
    LineOfPrefix(rs, base, n, limits);
    OldStepsOfPrefix(rs, base);
    SamePositions(rs, base, n);
    ShrinkImports(rs, base);
    OldCompactionsOfPrefix(rs, base);
  }

  lemma OldStepsOfPrefix(rs: seq<Record>, base: seq<Record>)
    requires ChainOk(rs) && |base| < |rs| && base == rs[..|base|]
    requires forall i | 0 <= i < |base| :: !rs[i].provisional
    ensures ChainOk(base)
  {
    forall i | 0 <= i < |base| ensures StepOk(base, i) {
      assert StepOk(rs, i);
      StepTransfers(rs, base, i);
    }
  }

  lemma ShrinkImports(rs: seq<Record>, base: seq<Record>)
    requires ChainOk(rs) && ImportsOk(rs) && MergesOk(rs) && |rs| > 0 && base == rs[..|rs| - 1]
    requires !Merge(rs[|rs| - 1]) && !rs[|rs| - 1].foreign
    ensures ImportsOk(base) && MergesOk(base)
  {
    forall i | 0 <= i < |base| && base[i].foreign ensures Resolved(base, i) {
      ShrinkResolved(rs, base, i);
    }
    forall m | 0 <= m < |base| && !base[m].foreign && base[m].imm.mergeSources != [] ensures ClosedImport(base, m) {
      ShrinkClosedImport(rs, base, m);
    }
  }

  lemma ShrinkResolved(rs: seq<Record>, base: seq<Record>, i: nat)
    requires ImportsOk(rs) && |rs| > 0 && base == rs[..|rs| - 1]
    requires !Merge(rs[|rs| - 1]) && i < |base| && base[i].foreign
    ensures Resolved(base, i)
  {
    assert Resolved(rs, i);
    var m :| i < m < |rs| && Merge(rs[m]) && OwnedBy(rs[i], rs[m].id);
    assert m < |base| && Merge(base[m]) && OwnedBy(base[i], base[m].id);
  }

  lemma ShrinkClosedImport(rs: seq<Record>, base: seq<Record>, m: nat)
    requires ChainOk(rs) && MergesOk(rs) && |rs| > 0 && base == rs[..|rs| - 1] && !rs[|rs| - 1].foreign
    requires m < |base| && !base[m].foreign && base[m].imm.mergeSources != []
    ensures ClosedImport(base, m)
  {
    assert ClosedImport(rs, m);
    var w :| 0 <= w < |rs| && !OwnedBy(rs[w], rs[m].id) && Reached(rs, m, w);
    ReachedShrinks(rs, base, m, w);
    assert !OwnedBy(base[w], base[m].id);
    forall i | 0 <= i < |base| && OwnedBy(base[i], base[m].id) ensures Reached(base, m, i) {
      assert OwnedBy(rs[i], rs[m].id);
      ReachedShrinks(rs, base, m, i);
    }
    assert SourcesAreTips(rs, m);
    forall i, s | 0 <= i < |base| && OwnedBy(base[i], base[m].id) && s in base[m].imm.mergeSources
      ensures base[i].id == s || (base[i].imm.previous != Some(s) && base[i].imm.contentParent != Some(s))
    {
      assert OwnedBy(rs[i], rs[m].id) && s in rs[m].imm.mergeSources;
    }
  }

  /** A canonical last record is never met by the walk of an earlier merge. */
  lemma {:induction false} ReachedShrinks(rs: seq<Record>, base: seq<Record>, m: nat, i: nat)
    requires ChainOk(rs) && |rs| > 0 && base == rs[..|rs| - 1] && !rs[|rs| - 1].foreign
    requires m < |base| && i < |rs| && Reached(rs, m, i)
    ensures i < |base| && Reached(base, m, i)
    decreases |rs| - i
  {
    if rs[i].id in rs[m].imm.mergeSources {
      assert StepOk(rs, m);
      assert Refers(rs[m].imm, rs[i].id);
      var k :| 0 <= k < m && rs[k].id == rs[i].id;
      DistinctIds(rs);
    } else {
      var j :| i < j < |rs| && OwnedBy(rs[j], rs[m].id) && Refers(rs[j].imm, rs[i].id) && Reached(rs, m, j);
      ReachedShrinks(rs, base, m, j);
      assert OwnedBy(base[j], base[m].id) && Refers(base[j].imm, base[i].id);
    }
  }

  lemma OldCompactionsOfPrefix(rs: seq<Record>, base: seq<Record>)
    requires |rs| > 0 && base == rs[..|rs| - 1] && CompactionsOk(rs) && !CompactionEvent(rs[|rs| - 1])
    ensures CompactionsOk(base)
  {
    forall e | 0 <= e < |base| && CompactionEvent(base[e]) ensures CompactionOk(base, e) {
      assert CompactionEvent(rs[e]);
      CompactionTransfers(rs, base, e);
    }
    OldCutoffsOfPrefix(rs, base);
    forall e, c | 0 <= e < |base| && LatestCompaction(base, e) && CutoffAt(base, e, c) ensures CutBefore(base, c) {
      OldCutOfPrefix(rs, base, e, c);
    }
  }

  lemma OldCutOfPrefix(rs: seq<Record>, base: seq<Record>, e: nat, c: nat)
    requires |rs| > 0 && base == rs[..|rs| - 1] && CompactionsOk(rs) && !CompactionEvent(rs[|rs| - 1])
    requires e < |base| && LatestCompaction(base, e) && CutoffAt(base, e, c)
    ensures CutBefore(base, c)
  {
    hide CompactionOk, CutoffsAscend;
    assert CutoffAt(rs, e, c);
    assert LatestCompaction(rs, e);
    assert CutBefore(rs, c);
  }

  lemma OldCutoffsOfPrefix(rs: seq<Record>, base: seq<Record>)
    requires |rs| > 0 && base == rs[..|rs| - 1] && CutoffsAscend(rs)
    ensures CutoffsAscend(base)
  {
    forall e, f, c, d | 0 <= e < f < |base| && CutoffAt(base, e, c) && CutoffAt(base, f, d) ensures c <= d {
      assert CutoffAt(rs, e, c) && CutoffAt(rs, f, d);
    }
  }
}
