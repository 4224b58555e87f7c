/**
 * What a valid graph is, said a second time: positions instead of folds, paths instead of a walk, an assignment of
 * texts instead of a replay, and a count of records (src/format/revision_graph.cpp, validate_graph).
 */
module GraphMeaning {
  import opened Wrappers
  import opened TextValidation
  import opened RevisionRecords
  import opened GraphValidity
  import opened GraphLemmas

  // ---------- One record ----------

  predicate Filled(a: Attribution) {
    && a.timestamp <= 0x7FFF_FFFF_FFFF_FFFF && a.actorName != "" && a.actorEmail != "" && a.clientName != ""
    && a.clientEmail != "" && a.device != ""
  }

  /** What any record of the kind declares, wherever it stands. */
  predicate Declares(imm: Immutable, limits: Limits) {
    && Filled(imm.author) && |imm.mergeSources| <= limits.maxParents
    && (forall i | 0 < i < |imm.mergeSources| :: imm.mergeSources[i - 1] < imm.mergeSources[i])
    && (imm.kind == Event <==> imm.event.Some?) && (imm.kind == Event <==> imm.bodyDigest.None?)
    && (imm.kind == Baseline <==> imm.previous.None?) && (imm.kind == Content <==> imm.contentParent.Some?)
    && (imm.mergeSources != [] ==> imm.kind == Content)
    && (imm.event.Some? ==>
          var e := imm.event.value;
          e.name != "" && (e.status.Some? ==> e.status.value in {0, 1, 2})
          && (e.name == "compaction" ==> e.cutoff.Some? && e.retained.Some?))
  }

  ghost predicate StoresText(r: Record, limits: Limits) {
    r.body.Some? && r.body.value.Whole? && |r.body.value.text| <= limits.maxText && CanonicalText(r.body.value.text)
  }

  predicate StoresPatch(r: Record, limits: Limits) {
    && r.body.Some? && r.body.value.Patch? && r.body.value.length <= limits.maxText
    && |r.body.value.segments| <= limits.maxEntries
    && (forall s | s in r.body.value.segments :: (s.Copy? ==> s.count > 0) && (s.Insert? ==> s.text != []))
    && TotalWidth(r.body.value.segments, |r.body.value.segments|) == r.body.value.length
  }

  /** The digest a record declares is that of what it stores. */
  predicate Digested(r: Record) {
    r.body.Some? && r.imm.bodyDigest == Some(BodyDigest(r.body.value))
  }

  /** The nine forms a record can have: baselines, content and events, as they were written, compacted away, cut at, or imported. */
  ghost predicate Formed(r: Record, limits: Limits) {
    Declares(r.imm, limits)
    && if r.foreign then r.storage == Imported && r.body.None? && r.resolvedBy.Some? && !r.provisional
       else
         && r.resolvedBy.None?
         && match r.storage
            case Bodyless => r.imm.kind == Event && r.body.None? && !r.provisional
            case Snapshot => r.imm.kind == Baseline && StoresText(r, limits) && Digested(r)
            case Delta => r.imm.kind == Content && StoresPatch(r, limits) && Digested(r)
            case Checkpoint => r.imm.kind != Event && StoresText(r, limits)
            case Pruned => r.imm.kind != Event && r.body.None?
            case Imported => false
  }

  lemma GoodIsFormed(r: Record, limits: Limits)
    ensures GoodRecord(r, limits) <==> Formed(r, limits)
  {
    hide CanonicalText, TotalWidth;
    AscendingStepwise(r.imm.mergeSources);
    if r.body.Some? && r.body.value.Patch? { WidthsPositive(r.body.value.segments); }
  }

  lemma WidthsPositive(segments: seq<Segment>)
    ensures (forall i | 0 <= i < |segments| :: Width(segments[i]) > 0)
            <==> (forall s | s in segments :: (s.Copy? ==> s.count > 0) && (s.Insert? ==> s.text != []))
  {
    if forall i | 0 <= i < |segments| :: Width(segments[i]) > 0 {
      forall s | s in segments ensures (s.Copy? ==> s.count > 0) && (s.Insert? ==> s.text != []) {
        var i :| 0 <= i < |segments| && segments[i] == s;
        assert Width(segments[i]) > 0;
      }
    }
  }

  lemma {:induction false} AscendingStepwise(ids: seq<RevisionId>)
    ensures Ascending(ids) <==> forall i | 0 < i < |ids| :: ids[i - 1] < ids[i]
  {
    if ids != [] && (forall i | 0 < i < |ids| :: ids[i - 1] < ids[i]) {
      var rest := ids[..|ids| - 1];
      forall i | 0 < i < |rest| ensures rest[i - 1] < rest[i] { assert ids[i - 1] < ids[i]; }
      AscendingStepwise(rest);
      forall i, j | 0 <= i < j < |ids| ensures ids[i] < ids[j] {
        if j == |ids| - 1 && i < j - 1 { assert rest[i] < rest[j - 1]; }
        if j < |ids| - 1 { assert rest[i] < rest[j]; }
      }
    }
  }

  // ---------- The line ----------

  /** Canonical record p is the nearest one before position i. */
  predicate NearestLine(rs: seq<Record>, p: nat, i: nat)
    requires i <= |rs|
  {
    p < i && !rs[p].foreign && forall k | p < k < i :: rs[k].foreign
  }

  predicate HasText(r: Record) {
    !r.foreign && r.imm.kind != Event
  }

  /** Text-carrying record c is the nearest one before position i. */
  predicate NearestText(rs: seq<Record>, c: nat, i: nat)
    requires i <= |rs|
  {
    c < i && HasText(rs[c]) && forall k | c < k < i :: !HasText(rs[k])
  }

  lemma NearestLineIs(rs: seq<Record>, p: nat, i: nat)
    requires i <= |rs|
    ensures NearestLine(rs, p, i) <==> LastCanonical(rs, i) == p
  {
  }

  lemma NearestTextIs(rs: seq<Record>, c: nat, i: nat)
    requires i <= |rs|
    ensures NearestText(rs, c, i) <==> LastContent(rs, i) == c
  {
  }

  /** What one record says of those before it. */
  ghost predicate Placed(rs: seq<Record>, i: nat)
    requires i < |rs|
  {
    var r := rs[i];
    && (forall id | r.imm.previous == Some(id) || r.imm.contentParent == Some(id) || id in r.imm.mergeSources ::
          exists j :: 0 <= j < i && rs[j].id == id)
    && (forall j | 0 <= j < i :: rs[j].id != r.id)
    && (r.foreign ==> r.resolvedBy.Some? && r.imm.kind != Baseline)
    && (!r.foreign ==>
          && (r.imm.kind == Baseline <==> forall p | 0 <= p < i :: rs[p].foreign)
          && (r.imm.kind == Baseline ==> r.imm.previous.None? && r.imm.contentParent.None? && r.imm.mergeSources == [])
          && (forall p | 0 <= p < i && NearestLine(rs, p, i) :: r.imm.previous == Some(rs[p].id))
          && (forall c | 0 <= c < i && NearestText(rs, c, i) ::
                && (r.imm.kind == Content ==> r.imm.contentParent == Some(rs[c].id))
                && (r.imm.kind == Event ==> r.imm.contentHash == rs[c].imm.contentHash))
          && (r.imm.kind != Baseline ==> exists c :: 0 <= c < i && NearestText(rs, c, i))
          && (r.imm.kind == Event ==> r.imm.mergeSources == [])
          && (forall s | s in r.imm.mergeSources ::
                exists j :: 0 <= j < i && rs[j].id == s && rs[j].foreign && rs[j].resolvedBy == Some(r.id))
          && (r.provisional ==> i == |rs| - 1 && r.imm.kind == Content))
  }

  lemma PlacedIsStep(rs: seq<Record>, i: nat)
    requires i < |rs|
    ensures Placed(rs, i) <==> StepOk(rs, i)
  {
    var p, c := LastCanonical(rs, i), LastContent(rs, i);
    forall q: nat | q < i ensures NearestLine(rs, q, i) <==> q == p { NearestLineIs(rs, q, i); }
    forall q: nat | q < i ensures NearestText(rs, q, i) <==> q == c { NearestTextIs(rs, q, i); }
    if p >= 0 { assert NearestLine(rs, p, i); }
    if c >= 0 { assert NearestText(rs, c, i); }
    RefsAre(rs, i);
    assert (!rs[i].foreign ==> (p < 0 <==> forall q | 0 <= q < i :: rs[q].foreign));
  }

  lemma RefsAre(rs: seq<Record>, i: nat)
    requires i < |rs|
    ensures RefsBefore(rs, i)
            <==> forall id | rs[i].imm.previous == Some(id) || rs[i].imm.contentParent == Some(id) || id in rs[i].imm.mergeSources ::
                   exists j :: 0 <= j < i && rs[j].id == id
  {
    var r := rs[i].imm;
    if RefsBefore(rs, i) {
      forall id | r.previous == Some(id) || r.contentParent == Some(id) || id in r.mergeSources
        ensures exists j :: 0 <= j < i && rs[j].id == id
      {
        assert Refers(r, id) && Occurs(rs, i, id);
      }
    }
    if forall id | r.previous == Some(id) || r.contentParent == Some(id) || id in r.mergeSources ::
         exists j :: 0 <= j < i && rs[j].id == id
    {
      forall id | Refers(r, id) ensures Occurs(rs, i, id) {
      }
    }
  }

  // ---------- Imports ----------

  /** A way back from a source of merge m, through imports it owns, to record i. */
  predicate WayBack(rs: seq<Record>, m: nat, way: seq<nat>, i: nat)
    requires m < |rs|
  {
    && way != [] && way[|way| - 1] == i && (forall k | 0 <= k < |way| :: way[k] < |rs|)
    && rs[way[0]].id in rs[m].imm.mergeSources
    && forall k | 0 <= k < |way| - 1 ::
         && way[k + 1] < way[k] && rs[way[k]].foreign && rs[way[k]].resolvedBy == Some(rs[m].id)
         && (var r := rs[way[k]].imm;
             r.previous == Some(rs[way[k + 1]].id) || r.contentParent == Some(rs[way[k + 1]].id)
             || rs[way[k + 1]].id in r.mergeSources)
  }

  lemma {:induction false} ReachedByWay(rs: seq<Record>, m: nat, i: nat) returns (way: seq<nat>)
    requires m < |rs| && i < |rs| && Reached(rs, m, i)
    ensures WayBack(rs, m, way, i)
    decreases |rs| - i
  {
    if rs[i].id in rs[m].imm.mergeSources {
      way := [i];
    } else {
      var j :| i < j < |rs| && OwnedBy(rs[j], rs[m].id) && Refers(rs[j].imm, rs[i].id) && Reached(rs, m, j);
      var before := ReachedByWay(rs, m, j);
      way := before + [i];
    }
  }

  lemma {:induction false} WayReaches(rs: seq<Record>, m: nat, way: seq<nat>, i: nat)
    requires m < |rs| && i < |rs| && WayBack(rs, m, way, i)
    ensures Reached(rs, m, i)
  {
    if |way| > 1 {
      var before := way[..|way| - 1];
      var j := before[|before| - 1];
      WayReaches(rs, m, before, j);
      assert OwnedBy(rs[j], rs[m].id) && Refers(rs[j].imm, rs[i].id);
    }
  }

  /** Everything an import needs: a later canonical merge that owns it and leads back to it. */
  ghost predicate BroughtIn(rs: seq<Record>, i: nat)
    requires i < |rs|
  {
    && rs[i].imm.previous.Some? && (rs[i].imm.kind == Content ==> rs[i].imm.contentParent.Some?)
    && exists m, way :: i < m < |rs| && !rs[m].foreign && rs[m].imm.kind == Content && rs[i].resolvedBy == Some(rs[m].id)
                        && WayBack(rs, m, way, i)
  }

  /** What a merge needs besides: its way back leaves its own imports, and no import of it goes on from one of its sources. */
  ghost predicate Rejoins(rs: seq<Record>, m: nat)
    requires m < |rs|
  {
    && (exists i, way :: 0 <= i < |rs| && !(rs[i].foreign && rs[i].resolvedBy == Some(rs[m].id)) && WayBack(rs, m, way, i))
    && (forall i, s | 0 <= i < |rs| && rs[i].foreign && rs[i].resolvedBy == Some(rs[m].id) && s in rs[m].imm.mergeSources && rs[i].id != s ::
          rs[i].imm.previous != Some(s) && rs[i].imm.contentParent != Some(s))
  }

  ghost predicate MergesExplained(rs: seq<Record>) {
    && (forall i | 0 <= i < |rs| && rs[i].foreign :: BroughtIn(rs, i))
    && (forall m | 0 <= m < |rs| && !rs[m].foreign && rs[m].imm.mergeSources != [] :: Rejoins(rs, m))
  }

  lemma ImportsExplain(rs: seq<Record>)
    requires ChainOk(rs)
    ensures ImportsOk(rs) && MergesOk(rs) <==> MergesExplained(rs)
  {
    hide StepOk, Reached, WayBack;
    DistinctIds(rs);
    if ImportsOk(rs) && MergesOk(rs) { ExplainedImports(rs); }
    if MergesExplained(rs) { ResolvedImports(rs); }
  }

  lemma ExplainedImports(rs: seq<Record>)
    requires ImportsOk(rs) && MergesOk(rs)
    ensures MergesExplained(rs)
  {
    hide Reached, WayBack;
    forall i | 0 <= i < |rs| && rs[i].foreign ensures BroughtIn(rs, i) {
      assert Resolved(rs, i);
      var m :| i < m < |rs| && Merge(rs[m]) && OwnedBy(rs[i], rs[m].id);
      assert ClosedImport(rs, m);
      var way := ReachedByWay(rs, m, i);
    }
    forall m | 0 <= m < |rs| && !rs[m].foreign && rs[m].imm.mergeSources != [] ensures Rejoins(rs, m) {
      assert ClosedImport(rs, m);
      var i :| 0 <= i < |rs| && !OwnedBy(rs[i], rs[m].id) && Reached(rs, m, i);
      var way := ReachedByWay(rs, m, i);
    }
  }

  lemma ResolvedImports(rs: seq<Record>)
    requires MergesExplained(rs) && Distinct(rs)
    ensures ImportsOk(rs) && MergesOk(rs)
  {
    hide Reached, WayBack;
    forall i | 0 <= i < |rs| && rs[i].foreign ensures Resolved(rs, i) {
      assert BroughtIn(rs, i);
      var m, way :| i < m < |rs| && !rs[m].foreign && rs[m].imm.kind == Content && rs[i].resolvedBy == Some(rs[m].id)
                    && WayBack(rs, m, way, i);
      WayStarts(rs, m, way, i);
    }
    forall m | 0 <= m < |rs| && !rs[m].foreign && rs[m].imm.mergeSources != [] ensures ClosedImport(rs, m) {
      assert Rejoins(rs, m);
      var i, way :| 0 <= i < |rs| && !(rs[i].foreign && rs[i].resolvedBy == Some(rs[m].id)) && WayBack(rs, m, way, i);
      WayReaches(rs, m, way, i);
      forall j | 0 <= j < |rs| && OwnedBy(rs[j], rs[m].id) ensures Reached(rs, m, j) {
        assert BroughtIn(rs, j);
        var n, w :| j < n < |rs| && !rs[n].foreign && rs[n].imm.kind == Content && rs[j].resolvedBy == Some(rs[n].id)
                    && WayBack(rs, n, w, j);
        assert n == m;
        WayReaches(rs, m, w, j);
      }
    }
  }

  lemma WayStarts(rs: seq<Record>, m: nat, way: seq<nat>, i: nat)
    requires m < |rs| && WayBack(rs, m, way, i)
    ensures rs[m].imm.mergeSources != []
  {
  }

  // ---------- Texts ----------

  /** The text of the document at each text-carrying record, where it is still kept. */
  ghost predicate TextsFit(rs: seq<Record>, texts: seq<Option<Bytes>>, limits: Limits) {
    |texts| == |rs|
    && forall i | 0 <= i < |rs| && HasText(rs[i]) :: TextFits(rs, texts, i, limits)
  }

  /** A stored text is the declared one; a patch applies to the text before it; a pruned text is gone. */
  ghost predicate TextFits(rs: seq<Record>, texts: seq<Option<Bytes>>, i: nat, limits: Limits)
    requires i < |rs| == |texts|
  {
    var r := rs[i];
    match r.storage
    case Pruned => texts[i].None?
    case Delta =>
      && texts[i] == Some(r.imm.contentHash.text) && r.body.Some?
      && exists c :: 0 <= c < i && NearestText(rs, c, i) && texts[c].Some?
                     && AppliesTo(r.body.value, texts[c].value, r.imm.contentHash.text, limits)
    case Snapshot => texts[i] == Some(r.imm.contentHash.text) && r.body == Some(Whole(r.imm.contentHash.text))
    case Checkpoint => texts[i] == Some(r.imm.contentHash.text) && r.body == Some(Whole(r.imm.contentHash.text))
    case _ => false
  }

  /** The replay after i records, as the text at the nearest text-carrying one. */
  function AsLine(texts: seq<Option<Bytes>>, c: int): Line
    requires c < |texts|
  {
    if c < 0 then Gone else match texts[c] case Some(t) => Known(t) case None => Gone
  }

  /** Texts that fit are what the replay yields. */
  lemma {:induction false} FitIsReplay(rs: seq<Record>, texts: seq<Option<Bytes>>, limits: Limits, n: nat)
    requires TextsFit(rs, texts, limits) && n <= |rs|
    ensures LineAfter(rs, n, limits) == AsLine(texts, LastContent(rs, n))
  {
    hide AppliesTo;
    if n > 0 {
      FitIsReplay(rs, texts, limits, n - 1);
      if HasText(rs[n - 1]) {
        assert TextFits(rs, texts, n - 1, limits);
        var m := n - 1;
        forall c: nat | c < m ensures NearestText(rs, c, m) <==> c == LastContent(rs, m) { NearestTextIs(rs, c, m); }
      }
    }
  }

  ghost function Replayed(rs: seq<Record>, limits: Limits): (texts: seq<Option<Bytes>>)
    ensures |texts| == |rs|
    ensures forall i | 0 <= i < |rs| ::
              texts[i] == match LineAfter(rs, i + 1, limits) case Known(t) => Some(t) case _ => None
  {
    seq(|rs|, i requires 0 <= i < |rs| => match LineAfter(rs, i + 1, limits) case Known(t) => Some(t) case _ => None)
  }

  /** A text that is not broken at the end was not broken before. */
  lemma {:induction false} NotBrokenBefore(rs: seq<Record>, limits: Limits, m: nat, n: nat)
    requires m <= n <= |rs| && !LineAfter(rs, n, limits).Broken?
    ensures !LineAfter(rs, m, limits).Broken?
    decreases n - m
  {
    if m < n { NotBrokenBefore(rs, limits, m, n - 1); }
  }

  /** Nothing between two text-carrying records changes the text. */
  lemma {:induction false} SinceNearest(rs: seq<Record>, limits: Limits, n: nat)
    requires n <= |rs|
    ensures LastContent(rs, n) >= 0 ==> LineAfter(rs, n, limits) == LineAfter(rs, LastContent(rs, n) + 1, limits)
    ensures LastContent(rs, n) < 0 ==> LineAfter(rs, n, limits) == Gone
  {
    if n > 0 && !HasText(rs[n - 1]) { SinceNearest(rs, limits, n - 1); }
  }

  /** What the replay yields fits, if it never breaks. */
  lemma ReplayFits(rs: seq<Record>, limits: Limits)
    requires !LineAfter(rs, |rs|, limits).Broken?
    ensures TextsFit(rs, Replayed(rs, limits), limits)
  {
    hide AppliesTo;
    var texts := Replayed(rs, limits);
    forall i | 0 <= i < |rs| && HasText(rs[i]) ensures TextFits(rs, texts, i, limits) {
      NotBrokenBefore(rs, limits, i + 1, |rs|);
      NotBrokenBefore(rs, limits, i, |rs|);
      SinceNearest(rs, limits, i);
      var c := LastContent(rs, i);
      if c >= 0 { NearestTextIs(rs, c, i); }
    }
  }

  /** The current text can be read exactly if some texts fit and the last is kept. */
  lemma TextsExplain(rs: seq<Record>, limits: Limits)
    requires LastContent(rs, |rs|) >= 0
    ensures LineAfter(rs, |rs|, limits).Known?
            <==> exists texts: seq<Option<Bytes>> ::
                   TextsFit(rs, texts, limits) && |texts| == |rs| && texts[LastContent(rs, |rs|)].Some?
  {
    hide TextsFit, LineAfter;
    var c := LastContent(rs, |rs|);
    if LineAfter(rs, |rs|, limits).Known? {
      ReplayFits(rs, limits);
      SinceNearest(rs, limits, |rs|);
      assert Replayed(rs, limits)[c].Some?;
    }
    if texts: seq<Option<Bytes>> :| TextsFit(rs, texts, limits) && |texts| == |rs| && texts[c].Some? {
      FitIsReplay(rs, texts, limits, |rs|);
    }
  }

  // ---------- Compactions ----------

  predicate Compacts(r: Record) {
    !r.foreign && r.imm.event.Some? && r.imm.event.value.name == "compaction"
  }

  /** Compaction e cuts at record c. */
  predicate CutsAt(rs: seq<Record>, e: nat, c: nat)
    requires e < |rs|
  {
    c < e && Compacts(rs[e]) && HasText(rs[c]) && rs[e].imm.event.value.cutoff == Some(rs[c].id)
  }

  /** The content records after c and before e. */
  function Between(rs: seq<Record>, c: nat, e: nat): set<nat>
    requires e <= |rs|
  {
    set i | c < i < e && !rs[i].foreign && rs[i].imm.kind == Content
  }

  lemma {:induction false} BetweenCounts(rs: seq<Record>, c: nat, e: nat)
    requires c < e <= |rs|
    ensures |Between(rs, c, e)| == Deltas(rs, c + 1, e)
  {
    if c + 1 < e {
      BetweenCounts(rs, c, e - 1);
      if !rs[e - 1].foreign && rs[e - 1].imm.kind == Content {
        assert Between(rs, c, e) == Between(rs, c, e - 1) + {e - 1};
      } else {
        assert Between(rs, c, e) == Between(rs, c, e - 1);
      }
    } else {
      assert Between(rs, c, e) == {};
    }
  }

  ghost predicate CompactionsExplained(rs: seq<Record>) {
    && (forall e | 0 <= e < |rs| && Compacts(rs[e]) ::
          exists c :: 0 <= c < e && CutsAt(rs, e, c) && rs[e].imm.event.value.retained == Some(|Between(rs, c, e)|))
    && (forall e, f, c, d | 0 <= c < e < f < |rs| && 0 <= d < f && CutsAt(rs, e, c) && CutsAt(rs, f, d) :: c <= d)
    && (forall e, c | 0 <= c < e < |rs| && CutsAt(rs, e, c) && (forall f | e < f < |rs| :: !Compacts(rs[f])) ::
          rs[c].storage == Checkpoint && forall i | 0 <= i < c && HasText(rs[i]) :: rs[i].storage == Pruned)
  }

  lemma CompactionsExplain(rs: seq<Record>)
    ensures CompactionsOk(rs) <==> CompactionsExplained(rs)
  {
    hide Deltas, Between;
    forall e, c | 0 <= c < e < |rs| ensures CutsAt(rs, e, c) <==> CutoffAt(rs, e, c) {
    }
    forall e, c | 0 <= c < e < |rs| ensures |Between(rs, c, e)| == Deltas(rs, c + 1, e) {
      BetweenCounts(rs, c, e);
    }
    if CompactionsOk(rs) { CompactionsMean(rs); }
    if CompactionsExplained(rs) { CompactionsHold(rs); }
  }

  lemma CompactionsMean(rs: seq<Record>)
    requires CompactionsOk(rs)
    requires forall e, c | 0 <= c < e < |rs| :: CutsAt(rs, e, c) <==> CutoffAt(rs, e, c)
    requires forall e, c | 0 <= c < e < |rs| :: |Between(rs, c, e)| == Deltas(rs, c + 1, e)
    ensures CompactionsExplained(rs)
  {
    hide Deltas, Between;
    forall e | 0 <= e < |rs| && Compacts(rs[e])
      ensures exists c :: 0 <= c < e && CutsAt(rs, e, c) && rs[e].imm.event.value.retained == Some(|Between(rs, c, e)|)
    {
      assert CompactionOk(rs, e);
    }
    forall e, c | 0 <= c < e < |rs| && CutsAt(rs, e, c) && (forall f | e < f < |rs| :: !Compacts(rs[f]))
      ensures rs[c].storage == Checkpoint && forall i | 0 <= i < c && HasText(rs[i]) :: rs[i].storage == Pruned
    {
      assert LatestCompaction(rs, e) && CutoffAt(rs, e, c);
      assert CutBefore(rs, c);
      assert forall i | 0 <= i < c && HasText(rs[i]) :: Carries(rs[i]);
    }
  }

  lemma CompactionsHold(rs: seq<Record>)
    requires CompactionsExplained(rs)
    requires forall e, c | 0 <= c < e < |rs| :: CutsAt(rs, e, c) <==> CutoffAt(rs, e, c)
    requires forall e, c | 0 <= c < e < |rs| :: |Between(rs, c, e)| == Deltas(rs, c + 1, e)
    ensures CompactionsOk(rs)
  {
    hide Deltas, Between;
    forall e | 0 <= e < |rs| && CompactionEvent(rs[e]) ensures CompactionOk(rs, e) {
      assert Compacts(rs[e]);
      var c :| 0 <= c < e && CutsAt(rs, e, c) && rs[e].imm.event.value.retained == Some(|Between(rs, c, e)|);
      assert CutoffAt(rs, e, c);
    }
    forall e, c | 0 <= e < |rs| && LatestCompaction(rs, e) && CutoffAt(rs, e, c) ensures CutBefore(rs, c) {
      assert CutsAt(rs, e, c);
      assert forall i | 0 <= i < c && Carries(rs[i]) :: HasText(rs[i]);
    }
  }

  // ---------- The whole ----------

  /**
   * A graph that can be explained: every record placed, every import brought in, every text accounted for, every
   * compaction borne out.
   */
  ghost predicate Explained(rs: seq<Record>, head: RevisionId, contentHead: RevisionId, limits: Limits) {
    && rs != []
    && (forall i | 0 <= i < |rs| :: Placed(rs, i))
    && MergesExplained(rs)
    && (exists p :: 0 <= p < |rs| && NearestLine(rs, p, |rs|) && rs[p].id == head)
    && (exists c, texts: seq<Option<Bytes>> ::
          0 <= c < |rs| && NearestText(rs, c, |rs|) && rs[c].id == contentHead
          && TextsFit(rs, texts, limits) && |texts| == |rs| && texts[c].Some?)
    && CompactionsExplained(rs)
  }

  /** Valid is explained, in both directions. */
  lemma ValidIsExplained(rs: seq<Record>, head: RevisionId, contentHead: RevisionId, limits: Limits)
    ensures ValidGraph(rs, head, contentHead, limits) <==> Explained(rs, head, contentHead, limits)
  {
    hide Placed, StepOk, MergesExplained, ImportsOk, MergesOk, CompactionsOk, CompactionsExplained, TextsFit, LineAfter;
    forall i | 0 <= i < |rs| ensures Placed(rs, i) <==> StepOk(rs, i) { PlacedIsStep(rs, i); }
    assert ChainOk(rs) <==> forall i | 0 <= i < |rs| :: Placed(rs, i);
    if ChainOk(rs) { ImportsExplain(rs); }
    CompactionsExplain(rs);
    HeadsExplain(rs, head, contentHead);
    if LastContent(rs, |rs|) >= 0 { TextsExplain(rs, limits); }
    forall c: nat | c < |rs| ensures NearestText(rs, c, |rs|) <==> LastContent(rs, |rs|) == c { NearestTextIs(rs, c, |rs|); }
  }

  lemma HeadsExplain(rs: seq<Record>, head: RevisionId, contentHead: RevisionId)
    ensures HeadsOk(rs, head, contentHead)
            <==> (exists p :: 0 <= p < |rs| && NearestLine(rs, p, |rs|) && rs[p].id == head)
                 && (exists c :: 0 <= c < |rs| && NearestText(rs, c, |rs|) && rs[c].id == contentHead)
  {
    forall p: nat | p < |rs| ensures NearestLine(rs, p, |rs|) <==> LastCanonical(rs, |rs|) == p { NearestLineIs(rs, p, |rs|); }
    forall c: nat | c < |rs| ensures NearestText(rs, c, |rs|) <==> LastContent(rs, |rs|) == c { NearestTextIs(rs, c, |rs|); }
  }
}
