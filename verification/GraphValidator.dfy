/** The validator itself, pass by pass (src/format/revision_graph.cpp, validate_graph). */
module GraphValidator {
  import opened Wrappers
  import opened TextValidation
  import opened RevisionRecords
  import opened GraphValidity
  import opened GraphLemmas
  import opened RevisionGraph
  import opened Patching

  type Index = map<RevisionId, nat>

  /** The map the first pass fills: identifiers of the first n records, with their positions. */
  ghost predicate Indexed(seen: Index, rs: seq<Record>, n: nat) {
    n <= |rs|
    && (forall j | 0 <= j < n :: rs[j].id in seen && seen[rs[j].id] == j)
    && (forall id | id in seen :: seen[id] < n && rs[seen[id]].id == id)
  }

  lemma IndexOccurs(seen: Index, rs: seq<Record>, n: nat, id: RevisionId)
    requires Indexed(seen, rs, n)
    ensures id in seen <==> Occurs(rs, n, id)
  {
  }

  function IdAt(rs: seq<Record>, k: int): Option<RevisionId>
    requires -1 <= k < |rs|
  {
    if k < 0 then None else Some(rs[k].id)
  }

  predicate SeenOrAbsent(seen: Index, id: Option<RevisionId>) {
    id.Some? ==> id.value in seen
  }

  // ---------- Pass 1: order, identifiers, the canonical line ----------

  method CheckRefs(rs: seq<Record>, i: nat, seen: Index) returns (ok: bool)
    requires i < |rs| && Indexed(seen, rs, i)
    ensures ok <==> RefsBefore(rs, i)
  {
    var imm := rs[i].imm;
    ok := SeenOrAbsent(seen, imm.previous) && SeenOrAbsent(seen, imm.contentParent);
    var k := 0;
    while k < |imm.mergeSources|
      invariant 0 <= k <= |imm.mergeSources|
      invariant ok <==> SeenOrAbsent(seen, imm.previous) && SeenOrAbsent(seen, imm.contentParent)
                        && forall l | 0 <= l < k :: imm.mergeSources[l] in seen
    {
      if imm.mergeSources[k] !in seen { ok := false; }
      k := k + 1;
    }
    if ok {
      forall id | Refers(imm, id) ensures Occurs(rs, i, id) {
        IndexOccurs(seen, rs, i, id);
      }
    } else if !SeenOrAbsent(seen, imm.previous) {
      assert Refers(imm, imm.previous.value) && !Occurs(rs, i, imm.previous.value);
    } else if !SeenOrAbsent(seen, imm.contentParent) {
      assert Refers(imm, imm.contentParent.value) && !Occurs(rs, i, imm.contentParent.value);
    } else {
      var l :| 0 <= l < |imm.mergeSources| && imm.mergeSources[l] !in seen;
      assert Refers(imm, imm.mergeSources[l]) && !Occurs(rs, i, imm.mergeSources[l]);
    }
  }

  /** Every merge source is an import that names this record. */
  method CheckSources(rs: seq<Record>, i: nat, seen: Index) returns (ok: bool)
    requires i < |rs| && Indexed(seen, rs, i) && RefsBefore(rs, i)
    ensures ok <==> forall s | s in rs[i].imm.mergeSources :: ImportFor(rs, i, s)
  {
    var sources := rs[i].imm.mergeSources;
    var k := 0;
    while k < |sources|
      invariant 0 <= k <= |sources|
      invariant forall l | 0 <= l < k :: ImportFor(rs, i, sources[l])
    {
      assert Refers(rs[i].imm, sources[k]) && Occurs(rs, i, sources[k]);
      var source := rs[seen[sources[k]]];
      if !source.foreign || source.resolvedBy != Some(rs[i].id) {
        OnlyAt(rs, i, seen, sources[k]);
        assert sources[k] in sources && !ImportFor(rs, i, sources[k]);
        return false;
      }
      k := k + 1;
    }
    return true;
  }

  lemma OnlyAt(rs: seq<Record>, n: nat, seen: Index, id: RevisionId)
    requires Indexed(seen, rs, n) && id in seen
    ensures forall j | 0 <= j < n && rs[j].id == id :: j == seen[id]
  {
  }

  /** The checks of one iteration of the first pass. */
  method CheckStep(rs: seq<Record>, i: nat, seen: Index, previous: Option<RevisionId>, content: Option<RevisionId>)
    returns (ok: bool)
    requires i < |rs| && Indexed(seen, rs, i)
    requires previous == IdAt(rs, LastCanonical(rs, i)) && content == IdAt(rs, LastContent(rs, i))
    ensures ok <==> StepOk(rs, i)
  {
    var r := rs[i];
    ok := CheckRefs(rs, i, seen);
    if !ok { return false; }
    IndexOccurs(seen, rs, i, r.id);
    if r.id in seen { return false; }
    if r.foreign { return r.resolvedBy.Some? && r.imm.kind != Baseline; }
    if previous.None? {
      if r.imm.kind != Baseline || r.imm.previous.Some? || r.imm.contentParent.Some? { return false; }
    } else if r.imm.previous != previous || r.imm.kind == Baseline { return false; }
    if r.imm.kind == Content {
      if content.None? || r.imm.contentParent != content { return false; }
      ok := CheckSources(rs, i, seen);
      if !ok { return false; }
    } else if r.imm.mergeSources != [] { return false; }
    if r.imm.kind == Event {
      if content.None? { return false; }
      OnlyAt(rs, i, seen, content.value);
      if r.imm.contentHash != rs[seen[content.value]].imm.contentHash { return false; }
    }
    ok := !r.provisional || (i + 1 == |rs| && r.imm.kind == Content);
  }

  method CheckLine(rs: seq<Record>, head: RevisionId, contentHead: RevisionId) returns (ok: bool, seen: Index)
    ensures ok <==> ChainOk(rs) && HeadsOk(rs, head, contentHead)
    ensures ok ==> Indexed(seen, rs, |rs|)
  {
    hide StepOk, Occurs;
    seen := map[];
    var previous: Option<RevisionId>, content: Option<RevisionId> := None, None;
    var i := 0;
    while i < |rs|
      invariant 0 <= i <= |rs| && Indexed(seen, rs, i)
      invariant previous == IdAt(rs, LastCanonical(rs, i)) && content == IdAt(rs, LastContent(rs, i))
      invariant forall j | 0 <= j < i :: StepOk(rs, j)
    {
      ok := CheckStep(rs, i, seen, previous, content);
      if !ok { return false, seen; }
      FreshInStep(rs, i);
      IndexOccurs(seen, rs, i, rs[i].id);
      seen := seen[rs[i].id := i];
      if !rs[i].foreign {
        if rs[i].imm.kind != Event { content := Some(rs[i].id); }
        previous := Some(rs[i].id);
      }
      i := i + 1;
    }
    ok := previous == Some(head) && content == Some(contentHead);
  }

  lemma FreshInStep(rs: seq<Record>, i: nat)
    requires i < |rs| && StepOk(rs, i)
    ensures !Occurs(rs, i, rs[i].id)
  {
  }

  // ---------- Pass 2: every import has its merge ----------

  method CheckImports(rs: seq<Record>, seen: Index) returns (ok: bool)
    requires Indexed(seen, rs, |rs|)
    requires forall i | 0 <= i < |rs| && rs[i].foreign :: rs[i].resolvedBy.Some?
    requires ChainOk(rs)
    ensures ok <==> ImportsOk(rs)
  {
    hide StepOk;
    var i := 0;
    while i < |rs|
      invariant 0 <= i <= |rs|
      invariant forall j | 0 <= j < i && rs[j].foreign :: Resolved(rs, j)
    {
      if rs[i].foreign {
        ok := CheckResolved(rs, i, seen);
        if !ok { return false; }
      }
      i := i + 1;
    }
    return true;
  }

  method CheckResolved(rs: seq<Record>, i: nat, seen: Index) returns (ok: bool)
    requires Indexed(seen, rs, |rs|) && i < |rs| && rs[i].foreign && rs[i].resolvedBy.Some?
    ensures ok <==> Resolved(rs, i)
  {
    var r := rs[i];
    if r.resolvedBy.value !in seen { return false; }
    var m := seen[r.resolvedBy.value];
    OnlyAt(rs, |rs|, seen, r.resolvedBy.value);
    if m <= i || rs[m].foreign || rs[m].imm.kind != Content || rs[m].imm.mergeSources == [] { return false; }
    assert i < m && Merge(rs[m]) && OwnedBy(r, rs[m].id);
    ok := r.imm.previous.Some? && (r.imm.kind == Content ==> r.imm.contentParent.Some?);
  }

  // ---------- Pass 3: closed imports ----------

  function Listed(id: Option<RevisionId>): seq<RevisionId> {
    if id.Some? then [id.value] else []
  }

  /** The references of a record in the order the walk pushes them. */
  function RefList(imm: Immutable): (l: seq<RevisionId>)
    ensures forall id :: id in l <==> Refers(imm, id)
  {
    Listed(imm.previous) + Listed(imm.contentParent) + imm.mergeSources
  }

  ghost function ReachedIds(rs: seq<Record>, m: nat): set<RevisionId>
    requires m < |rs|
  {
    set i | 0 <= i < |rs| && Reached(rs, m, i) :: rs[i].id
  }

  ghost function AllIds(rs: seq<Record>): set<RevisionId> {
    set i | 0 <= i < |rs| :: rs[i].id
  }

  /** What the walk has met is closed but for what it still has to visit. */
  ghost predicate ClosedButFor(rs: seq<Record>, m: nat, seen: Index, reachable: set<RevisionId>, pending: seq<RevisionId>)
    requires m < |rs| && Indexed(seen, rs, |rs|) && reachable <= AllIds(rs)
  {
    && (forall s | s in rs[m].imm.mergeSources :: s in reachable || s in pending)
    && (forall i, id | 0 <= i < |rs| && rs[i].id in reachable && OwnedBy(rs[i], rs[m].id) && Refers(rs[i].imm, id) ::
          id in reachable || id in pending)
  }

  lemma {:induction false} ClosedHoldsReached(rs: seq<Record>, m: nat, seen: Index, reachable: set<RevisionId>, i: nat)
    requires m < |rs| && Indexed(seen, rs, |rs|) && reachable <= AllIds(rs)
    requires ClosedButFor(rs, m, seen, reachable, [])
    requires i < |rs| && Reached(rs, m, i)
    ensures rs[i].id in reachable
    decreases |rs| - i
  {
    if rs[i].id !in rs[m].imm.mergeSources {
      var j :| i < j < |rs| && OwnedBy(rs[j], rs[m].id) && Refers(rs[j].imm, rs[i].id) && Reached(rs, m, j);
      ClosedHoldsReached(rs, m, seen, reachable, j);
    }
  }

  lemma SourcesClose(rs: seq<Record>, m: nat, seen: Index)
    requires m < |rs| && Indexed(seen, rs, |rs|)
    ensures ClosedButFor(rs, m, seen, {}, rs[m].imm.mergeSources)
  {
  }

  /** What a visit to the last pending identifier leaves to be visited. */
  function Visited(rs: seq<Record>, m: nat, seen: Index, reachable: set<RevisionId>, pending: seq<RevisionId>): seq<RevisionId>
    requires m < |rs| && Indexed(seen, rs, |rs|) && pending != [] && pending[|pending| - 1] in seen
  {
    var id := pending[|pending| - 1];
    pending[..|pending| - 1]
    + if id !in reachable && OwnedBy(rs[seen[id]], rs[m].id) then RefList(rs[seen[id]].imm) else []
  }

  /** A visit keeps what has been met closed but for what is left to be visited. */
  lemma VisitCloses(rs: seq<Record>, m: nat, seen: Index, reachable: set<RevisionId>, pending: seq<RevisionId>)
    requires m < |rs| && Indexed(seen, rs, |rs|) && reachable <= AllIds(rs)
    requires pending != [] && pending[|pending| - 1] in seen && ClosedButFor(rs, m, seen, reachable, pending)
    ensures reachable + {pending[|pending| - 1]} <= AllIds(rs)
    ensures ClosedButFor(rs, m, seen, reachable + {pending[|pending| - 1]}, Visited(rs, m, seen, reachable, pending))
  {
    hide OwnedBy, Refers, RefList;
    var id := pending[|pending| - 1];
    var left := Visited(rs, m, seen, reachable, pending);
    assert pending == pending[..|pending| - 1] + [id];
    forall x | x in pending ensures x == id || x in left {
    }
    forall i, x | 0 <= i < |rs| && rs[i].id in reachable + {id} && OwnedBy(rs[i], rs[m].id) && Refers(rs[i].imm, x)
      ensures x in reachable + {id} || x in left
    {
      if rs[i].id !in reachable { assert x in RefList(rs[i].imm); }
    }
    assert rs[seen[id]].id == id;
  }

  /** A reference of a reached import is reached. */
  lemma RefReached(rs: seq<Record>, m: nat, seen: Index, j: nat, id: RevisionId)
    requires m < |rs| && Indexed(seen, rs, |rs|) && ChainOk(rs)
    requires j < |rs| && Reached(rs, m, j) && OwnedBy(rs[j], rs[m].id) && Refers(rs[j].imm, id)
    ensures id in seen && Reached(rs, m, seen[id])
  {
    assert StepOk(rs, j) && Occurs(rs, j, id);
    var i :| 0 <= i < j && rs[i].id == id;
    assert seen[id] == i;
  }

  /** The depth-first walk back from a merge's sources through the imports it owns. */
  method Walk(rs: seq<Record>, seen: Index, m: nat) returns (reachable: set<RevisionId>, shared: bool)
    requires Indexed(seen, rs, |rs|) && ChainOk(rs) && m < |rs|
    ensures reachable == ReachedIds(rs, m)
    ensures shared <==> Shares(rs, m)
  {
    hide StepOk, Reached, ClosedButFor;
    reachable, shared := {}, false;
    var pending := rs[m].imm.mergeSources;
    SourcesReached(rs, m, seen);
    SourcesClose(rs, m, seen);
    while pending != []
      invariant reachable <= AllIds(rs)
      invariant forall id | id in pending :: id in seen && Reached(rs, m, seen[id])
      invariant forall id | id in reachable :: id in seen && Reached(rs, m, seen[id])
      invariant ClosedButFor(rs, m, seen, reachable, pending)
      invariant shared <==> exists id :: id in reachable && id in seen && !OwnedBy(rs[seen[id]], rs[m].id)
      decreases AllIds(rs) - reachable, |pending|
    {
      var id := pending[|pending| - 1];
      ghost var before, met := pending, reachable;
      pending := pending[..|pending| - 1];
      VisitCloses(rs, m, seen, reachable, before);
      if id !in reachable {
        var j := seen[id];
        assert id in AllIds(rs);
        reachable := reachable + {id};
        if OwnedBy(rs[j], rs[m].id) {
          forall x | Refers(rs[j].imm, x) ensures x in seen && Reached(rs, m, seen[x]) {
            RefReached(rs, m, seen, j, x);
          }
          pending := pending + RefList(rs[j].imm);
        } else {
          shared := true;
        }
        OnlyAt(rs, |rs|, seen, id);
      }
      assert reachable == met + {id} && pending == Visited(rs, m, seen, met, before);
    }
    WalkComplete(rs, seen, m, reachable);
  }

  lemma SourcesReached(rs: seq<Record>, m: nat, seen: Index)
    requires Indexed(seen, rs, |rs|) && ChainOk(rs) && m < |rs|
    ensures forall s | s in rs[m].imm.mergeSources :: s in seen && Reached(rs, m, seen[s])
  {
    forall s | s in rs[m].imm.mergeSources ensures s in seen && Reached(rs, m, seen[s]) {
      assert StepOk(rs, m) && Refers(rs[m].imm, s);
      var i :| 0 <= i < m && rs[i].id == s;
      assert seen[s] == i;
    }
  }

  lemma WalkComplete(rs: seq<Record>, seen: Index, m: nat, reachable: set<RevisionId>)
    requires Indexed(seen, rs, |rs|) && m < |rs| && reachable <= AllIds(rs)
    requires forall id | id in reachable :: id in seen && Reached(rs, m, seen[id])
    requires ClosedButFor(rs, m, seen, reachable, [])
    ensures reachable == ReachedIds(rs, m)
    ensures (exists id :: id in reachable && id in seen && !OwnedBy(rs[seen[id]], rs[m].id)) <==> Shares(rs, m)
  {
    hide Reached, ClosedButFor;
    forall i | 0 <= i < |rs| && Reached(rs, m, i) ensures rs[i].id in reachable {
      ClosedHoldsReached(rs, m, seen, reachable, i);
    }
    if Shares(rs, m) {
      var i :| 0 <= i < |rs| && !OwnedBy(rs[i], rs[m].id) && Reached(rs, m, i);
      assert rs[i].id in reachable && seen[rs[i].id] == i;
    }
  }

  method CheckMerge(rs: seq<Record>, seen: Index, m: nat) returns (ok: bool)
    requires Indexed(seen, rs, |rs|) && ChainOk(rs) && m < |rs|
    ensures ok <==> ClosedImport(rs, m)
  {
    hide StepOk, Reached;
    var reachable, shared := Walk(rs, seen, m);
    if !shared { return false; }
    var i := 0;
    while i < |rs|
      invariant 0 <= i <= |rs|
      invariant forall j | 0 <= j < i && OwnedBy(rs[j], rs[m].id) :: Reached(rs, m, j)
    {
      if OwnedBy(rs[i], rs[m].id) && rs[i].id !in reachable { return false; }
      assert rs[i].id in reachable ==> seen[rs[i].id] == i;
      ReachedById(rs, seen, m, i);
      i := i + 1;
    }
    ok := CheckTips(rs, m);
  }

  lemma ReachedById(rs: seq<Record>, seen: Index, m: nat, i: nat)
    requires Indexed(seen, rs, |rs|) && m < |rs| && i < |rs|
    ensures rs[i].id in ReachedIds(rs, m) <==> Reached(rs, m, i)
  {
    hide Reached;
    if rs[i].id in ReachedIds(rs, m) {
      var j :| 0 <= j < |rs| && Reached(rs, m, j) && rs[j].id == rs[i].id;
      assert seen[rs[i].id] == i && seen[rs[j].id] == j;
    }
  }

  method CheckTips(rs: seq<Record>, m: nat) returns (ok: bool)
    requires m < |rs|
    ensures ok <==> SourcesAreTips(rs, m)
  {
    var sources := rs[m].imm.mergeSources;
    var k := 0;
    while k < |sources|
      invariant 0 <= k <= |sources|
      invariant forall i, l | 0 <= i < |rs| && OwnedBy(rs[i], rs[m].id) && 0 <= l < k :: NotAbove(rs[i], sources[l])
    {
      var i := 0;
      while i < |rs|
        invariant 0 <= i <= |rs|
        invariant forall j | 0 <= j < i && OwnedBy(rs[j], rs[m].id) :: NotAbove(rs[j], sources[k])
      {
        if OwnedBy(rs[i], rs[m].id) && !NotAbove(rs[i], sources[k]) {
          assert sources[k] in rs[m].imm.mergeSources;
          return false;
        }
        i := i + 1;
      }
      k := k + 1;
    }
    ok := true;
    forall i, s | 0 <= i < |rs| && OwnedBy(rs[i], rs[m].id) && s in rs[m].imm.mergeSources ensures NotAbove(rs[i], s) {
      var l :| 0 <= l < |sources| && sources[l] == s;
    }
  }

  predicate NotAbove(r: Record, s: RevisionId) {
    r.id == s || (r.imm.previous != Some(s) && r.imm.contentParent != Some(s))
  }

  method CheckMerges(rs: seq<Record>, seen: Index) returns (ok: bool)
    requires Indexed(seen, rs, |rs|) && ChainOk(rs)
    ensures ok <==> MergesOk(rs)
  {
    hide StepOk, ClosedImport;
    var m := 0;
    while m < |rs|
      invariant 0 <= m <= |rs|
      invariant forall k | 0 <= k < m && !rs[k].foreign && rs[k].imm.mergeSources != [] :: ClosedImport(rs, k)
    {
      if !rs[m].foreign && rs[m].imm.mergeSources != [] {
        ok := CheckMerge(rs, seen, m);
        if !ok { return false; }
      }
      m := m + 1;
    }
    return true;
  }

  // ---------- Pass 4: every retained body ----------

  /** One record of the text pass. */
  method StepText(r: Record, current: Option<Bytes>, limits: Limits) returns (ok: bool, next: Option<Bytes>)
    requires GoodRecord(r, limits)
    ensures var line := if current.None? then Gone else Known(current.value);
            Advance(line, r, limits) == if !ok then Broken else if next.None? then Gone else Known(next.value)
  {
    hide CanonicalText, GoodImmutable, Patched;
    if r.foreign || r.imm.kind == Event { return true, current; }
    if r.storage == Pruned { return true, None; }
    if r.storage == Snapshot || r.storage == Checkpoint {
      next := Some(r.body.value.text);
    } else if r.storage == Delta && current.Some? {
      next := ApplyDelta(r.body.value, current.value, limits);
      if next.None? { return false, None; }
      UniquePatch(r.body.value, current.value, next.value, r.imm.contentHash.text, limits);
    } else {
      return false, None;
    }
    if ContentDigest(next.value) != r.imm.contentHash { return false, None; }
    ok := true;
  }

  lemma UniquePatch(body: Body, source: Bytes, text: Bytes, other: Bytes, limits: Limits)
    requires AppliesTo(body, source, text, limits)
    ensures AppliesTo(body, source, other, limits) ==> other == text
  {
  }

  method CheckTexts(rs: seq<Record>, limits: Limits) returns (ok: bool, available: seq<bool>)
    requires GoodRecords(rs, limits)
    ensures ok <==> LineAfter(rs, |rs|, limits).Known?
    ensures ok ==> |available| == |rs| && forall i | 0 <= i < |rs| :: available[i] <==> Available(rs, i, limits)
  {
    hide Advance;
    var current: Option<Bytes> := None;
    available := [];
    var i := 0;
    while i < |rs|
      invariant 0 <= i <= |rs| && |available| == i
      invariant LineAfter(rs, i, limits) == if current.None? then Gone else Known(current.value)
      invariant forall j | 0 <= j < i :: available[j] <==> Available(rs, j, limits)
    {
      assert GoodRecord(rs[i], limits);
      ok, current := StepText(rs[i], current, limits);
      if !ok {
        BrokenForever(rs, i + 1, limits);
        return false, available;
      }
      available := available + [!rs[i].foreign && current.Some?];
      i := i + 1;
    }
    ok := current.Some?;
  }

  lemma {:induction false} BrokenForever(rs: seq<Record>, n: nat, limits: Limits)
    requires n <= |rs| && LineAfter(rs, n, limits).Broken?
    ensures LineAfter(rs, |rs|, limits).Broken?
    decreases |rs| - n
  {
    if n < |rs| { BrokenForever(rs, n + 1, limits); }
  }

  // ---------- Pass 5: compactions ----------

  method CountDeltas(rs: seq<Record>, lo: nat, hi: nat) returns (deltas: nat)
    requires lo <= hi <= |rs|
    ensures deltas == Deltas(rs, lo, hi)
  {
    deltas := 0;
    var i := lo;
    while i < hi
      invariant lo <= i <= hi && deltas == Deltas(rs, lo, i)
    {
      if !rs[i].foreign && rs[i].imm.kind == Content { deltas := deltas + 1; }
      i := i + 1;
    }
  }

  /** One compaction event: its cutoff, if it is acceptable on its own. */
  method CheckCompaction(rs: seq<Record>, seen: Index, e: nat) returns (cutoff: Option<nat>)
    requires Indexed(seen, rs, |rs|) && e < |rs| && CompactionEvent(rs[e])
    ensures cutoff.Some? <==> CompactionOk(rs, e)
    ensures cutoff.Some? ==> CutoffAt(rs, e, cutoff.value) && cutoff.value < e
    ensures forall c: nat, d: nat | CutoffAt(rs, e, c) && CutoffAt(rs, e, d) :: c == d
  {
    OneCutoff(rs, seen, e);
    var facts := rs[e].imm.event.value;
    if facts.cutoff.None? || facts.retained.None? { return None; }
    if facts.cutoff.value !in seen { return None; }
    var c := seen[facts.cutoff.value];
    OnlyAt(rs, |rs|, seen, facts.cutoff.value);
    if c >= e || rs[c].foreign || rs[c].imm.kind == Event { return None; }
    var deltas := CountDeltas(rs, c + 1, e);
    assert CutoffAt(rs, e, c);
    if deltas != facts.retained.value { return None; }
    return Some(c);
  }

  lemma OneCutoff(rs: seq<Record>, seen: Index, e: nat)
    requires Indexed(seen, rs, |rs|) && e < |rs|
    ensures forall c: nat, d: nat | CutoffAt(rs, e, c) && CutoffAt(rs, e, d) :: c == d
  {
    forall c: nat, d: nat | CutoffAt(rs, e, c) && CutoffAt(rs, e, d) ensures c == d {
      assert seen[rs[c].id] == c && seen[rs[d].id] == d;
    }
  }

  /** No cutoff of an event before n lies after p. */
  ghost predicate CutoffsUpTo(rs: seq<Record>, n: nat, p: nat) {
    n <= |rs| && forall e: nat, c: nat | e < n && CutoffAt(rs, e, c) :: c <= p
  }

  ghost predicate AscendBefore(rs: seq<Record>, n: nat) {
    n <= |rs|
    && forall e: nat, f: nat, c: nat, d: nat | e < f < n && CutoffAt(rs, e, c) && CutoffAt(rs, f, d) :: c <= d
  }

  method CheckCompactions(rs: seq<Record>, seen: Index) returns (ok: bool)
    requires Indexed(seen, rs, |rs|)
    ensures ok <==> CompactionsOk(rs)
  {
    hide CompactionOk, CutBefore, CutoffAt;
    var latest: nat, prior: nat := |rs|, 0;
    var e := 0;
    while e < |rs|
      invariant 0 <= e <= |rs|
      invariant forall f | 0 <= f < e && CompactionEvent(rs[f]) :: CompactionOk(rs, f)
      invariant AscendBefore(rs, e) && CutoffsUpTo(rs, e, prior)
      invariant latest == |rs| ==> forall f | 0 <= f < e :: !CompactionEvent(rs[f])
      invariant latest != |rs| ==> latest < e && CutoffAt(rs, latest, prior) && CompactionEvent(rs[latest])
                                   && forall f | latest < f < e :: !CompactionEvent(rs[f])
      invariant latest == |rs| ==> prior == 0
      invariant latest != |rs| ==> prior < |rs|
    {
      if CompactionEvent(rs[e]) {
        var cutoff := CheckCompaction(rs, seen, e);
        if cutoff.None? { return false; }
        if cutoff.value < prior {
          DescendingCutoffs(rs, latest, e, prior, cutoff.value);
          return false;
        }
        AscendingCutoffs(rs, seen, e, prior, cutoff.value);
        latest, prior := e, cutoff.value;
      } else {
        NoCutoff(rs, e, prior);
      }
      e := e + 1;
    }
    assert AscendBefore(rs, |rs|) ==> CutoffsAscend(rs);
    if latest == |rs| { return true; }
    ok := CheckCut(rs, prior);
    LatestDecides(rs, seen, latest, prior);
  }

  lemma DescendingCutoffs(rs: seq<Record>, e: nat, f: nat, c: nat, d: nat)
    requires e < f < |rs| && CutoffAt(rs, e, c) && CutoffAt(rs, f, d) && d < c
    ensures !CutoffsAscend(rs)
  {
  }

  lemma AscendingCutoffs(rs: seq<Record>, seen: Index, e: nat, prior: nat, c: nat)
    requires Indexed(seen, rs, |rs|) && e < |rs| && CutoffAt(rs, e, c) && prior <= c
    requires AscendBefore(rs, e) && CutoffsUpTo(rs, e, prior)
    ensures AscendBefore(rs, e + 1) && CutoffsUpTo(rs, e + 1, c)
  {
    hide CutoffAt;
    OneCutoff(rs, seen, e);
  }

  lemma NoCutoff(rs: seq<Record>, e: nat, prior: nat)
    requires e < |rs| && !CompactionEvent(rs[e]) && AscendBefore(rs, e) && CutoffsUpTo(rs, e, prior)
    ensures AscendBefore(rs, e + 1) && CutoffsUpTo(rs, e + 1, prior)
  {
  }

  lemma LatestDecides(rs: seq<Record>, seen: Index, latest: nat, c: nat)
    requires Indexed(seen, rs, |rs|) && latest < |rs| && CutoffAt(rs, latest, c)
    requires LatestCompaction(rs, latest)
    ensures CutBefore(rs, c)
            <==> forall e: nat, d: nat | e < |rs| && LatestCompaction(rs, e) && CutoffAt(rs, e, d) :: CutBefore(rs, d)
  {
    hide CutBefore;
    OneCutoff(rs, seen, latest);
  }

  method CheckCut(rs: seq<Record>, c: nat) returns (ok: bool)
    requires c < |rs|
    ensures ok <==> CutBefore(rs, c)
  {
    if rs[c].storage != Checkpoint { return false; }
    var i := 0;
    while i < c
      invariant 0 <= i <= c
      invariant forall j | 0 <= j < i && Carries(rs[j]) :: rs[j].storage == Pruned
    {
      if !rs[i].foreign && rs[i].imm.kind != Event && rs[i].storage != Pruned { return false; }
      i := i + 1;
    }
    return true;
  }

  // ---------- The whole ----------

  /** The validator accepts exactly the valid graphs, and marks exactly the available texts. */
  method ValidateGraph(rs: seq<Record>, head: RevisionId, contentHead: RevisionId, limits: Limits)
    returns (ok: bool, available: seq<bool>)
    requires GoodRecords(rs, limits)
    ensures ok <==> ValidGraph(rs, head, contentHead, limits)
    ensures ok ==> |available| == |rs| && forall i | 0 <= i < |rs| :: available[i] <==> Available(rs, i, limits)
  {
    hide ChainOk, HeadsOk, ImportsOk, MergesOk, CompactionsOk, LineAfter, Available, Indexed;
    available := [];
    if |rs| == 0 { return false, available; }
    var seen: Index;
    ok, seen := CheckLine(rs, head, contentHead);
    if !ok { return false, available; }
    ForeignResolved(rs);
    ok := CheckImports(rs, seen);
    if !ok { return false, available; }
    ok := CheckMerges(rs, seen);
    if !ok { return false, available; }
    ok, available := CheckTexts(rs, limits);
    if !ok { return false, available; }
    ok := CheckCompactions(rs, seen);
  }

  lemma ForeignResolved(rs: seq<Record>)
    requires ChainOk(rs)
    ensures forall i | 0 <= i < |rs| && rs[i].foreign :: rs[i].resolvedBy.Some?
  {
    forall i | 0 <= i < |rs| && rs[i].foreign ensures rs[i].resolvedBy.Some? {
      assert StepOk(rs, i);
    }
  }
}
