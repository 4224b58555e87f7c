/** Structure of valid graphs, and what survives when a list keeps its shape or grows. */
module GraphLemmas {
  import opened Wrappers
  import opened RevisionRecords
  import opened GraphValidity

  // ---------- The head ----------

  /** The last record of a valid graph is canonical, and it is the head. */
  lemma HeadIsLast(rs: seq<Record>, head: RevisionId, contentHead: RevisionId)
    requires Structured(rs, head, contentHead)
    ensures !rs[|rs| - 1].foreign && rs[|rs| - 1].id == head
  {
    var last := |rs| - 1;
    assert forall i | 0 <= i < |rs| && rs[i].foreign :: Resolved(rs, i) && i < last;
  }

  lemma DistinctIds(rs: seq<Record>)
    requires ChainOk(rs)
    ensures Distinct(rs)
  {
    forall i, j | 0 <= i < j < |rs| ensures rs[i].id != rs[j].id {
      assert StepOk(rs, j);
    }
  }

  // ---------- Everything descends to the head ----------

  /** Every record but the head is named by a later record. */
  lemma NamedLater(rs: seq<Record>, head: RevisionId, contentHead: RevisionId, i: nat)
    requires Structured(rs, head, contentHead) && i + 1 < |rs|
    ensures exists j :: i < j < |rs| && Refers(rs[j].imm, rs[i].id)
  {
    HeadIsLast(rs, head, contentHead);
    if rs[i].foreign {
      assert Resolved(rs, i);
      var m :| i < m < |rs| && Merge(rs[m]) && OwnedBy(rs[i], rs[m].id);
      assert ClosedImport(rs, m) && Reached(rs, m, i);
      if rs[i].id in rs[m].imm.mergeSources { assert Refers(rs[m].imm, rs[i].id); }
    } else {
      var j := NextCanonical(rs, i);
      assert StepOk(rs, j) && FollowsLine(rs, j);
      assert Refers(rs[j].imm, rs[i].id);
    }
  }

  /** A set of identifiers closed under the references of the graph's own records. */
  ghost predicate ClosedUnder(rs: seq<Record>, ids: set<RevisionId>) {
    forall i, id | 0 <= i < |rs| && rs[i].id in ids && Refers(rs[i].imm, id) :: id in ids
  }

  /** Any closed set that holds the head holds every record: all records are its ancestors. */
  lemma {:induction false} AllDescendToHead(rs: seq<Record>, head: RevisionId, contentHead: RevisionId, ids: set<RevisionId>, i: nat)
    requires Structured(rs, head, contentHead) && i < |rs|
    requires ClosedUnder(rs, ids) && head in ids
    ensures rs[i].id in ids
    decreases |rs| - i
  {
    HeadIsLast(rs, head, contentHead);
    if i + 1 < |rs| {
      NamedLater(rs, head, contentHead, i);
      var j :| i < j < |rs| && Refers(rs[j].imm, rs[i].id);
      AllDescendToHead(rs, head, contentHead, ids, j);
    }
  }

  /** The canonical record right after canonical record i. */
  lemma {:induction false} NextCanonical(rs: seq<Record>, i: nat) returns (j: nat)
    requires i + 1 < |rs| && !rs[i].foreign && !rs[|rs| - 1].foreign
    ensures i < j < |rs| && !rs[j].foreign && LastCanonical(rs, j) == i
  {
    j := i + 1;
    while rs[j].foreign
      invariant i < j < |rs|
      invariant forall k | i < k < j :: rs[k].foreign
      decreases |rs| - j
    {
      j := j + 1;
    }
    LastCanonicalIs(rs, j, i);
  }

  /** The first record of a valid list is its only baseline. */
  lemma OnlyBaseline(rs: seq<Record>, head: RevisionId, contentHead: RevisionId, i: nat)
    requires Structured(rs, head, contentHead) && i < |rs|
    ensures rs[i].imm.kind == Baseline <==> i == 0
    ensures LastCanonical(rs, i) < 0 ==> rs[i].foreign || i == 0
  {
    hide Reached, ClosedImport, CompactionsOk, LineAfter;
    FirstIsCanonical(rs);
    assert StepOk(rs, i) && StepOk(rs, 0);
    if i > 0 {
      assert !rs[0].foreign;
      assert LastCanonical(rs, i) >= 0;
    }
  }

  lemma FirstIsCanonical(rs: seq<Record>)
    requires rs != [] && ChainOk(rs) && ImportsOk(rs)
    ensures !rs[0].foreign
  {
    assert StepOk(rs, 0);
    assert forall i | 0 <= i < |rs| && rs[i].foreign :: Resolved(rs, i) && rs[i].imm.previous.Some?;
    assert forall id :: !Occurs(rs, 0, id);
    assert forall id :: !Refers(rs[0].imm, id);
    if rs[0].imm.previous.Some? {
      assert Refers(rs[0].imm, rs[0].imm.previous.value);
    }
  }

  // ---------- Lists that agree on identity and structure ----------

  /** The first n records agree on everything but storage, body and the provisional mark. */
  ghost predicate SameShape(a: seq<Record>, b: seq<Record>, n: nat) {
    n <= |a| && n <= |b|
    && forall i | 0 <= i < n :: a[i].id == b[i].id && a[i].imm == b[i].imm
                                && a[i].foreign == b[i].foreign && a[i].resolvedBy == b[i].resolvedBy
  }

  lemma SamePositions(a: seq<Record>, b: seq<Record>, n: nat)
    requires SameShape(a, b, n)
    ensures LastCanonical(a, n) == LastCanonical(b, n)
    ensures LastContent(a, n) == LastContent(b, n)
    ensures forall id :: Occurs(a, n, id) <==> Occurs(b, n, id)
  {
    forall id ensures Occurs(a, n, id) <==> Occurs(b, n, id) {
      if Occurs(a, n, id) { var j :| 0 <= j < n && a[j].id == id; assert b[j].id == id; }
      if Occurs(b, n, id) { var j :| 0 <= j < n && b[j].id == id; assert a[j].id == id; }
    }
    LastCanonicalIs(b, n, LastCanonical(a, n));
    LastContentIs(b, n, LastContent(a, n));
  }

  lemma LastCanonicalIs(rs: seq<Record>, n: nat, k: int)
    requires n <= |rs| && -1 <= k < n
    requires k >= 0 ==> !rs[k].foreign
    requires forall i | k < i < n :: rs[i].foreign
    ensures LastCanonical(rs, n) == k
  {
  }

  lemma LastContentIs(rs: seq<Record>, n: nat, k: int)
    requires n <= |rs| && -1 <= k < n
    requires k >= 0 ==> Carries(rs[k])
    requires forall i | k < i < n :: !Carries(rs[i])
    ensures LastContent(rs, n) == k
  {
  }

  lemma ShapeRestricts(a: seq<Record>, b: seq<Record>, n: nat, k: nat)
    requires SameShape(a, b, n) && k <= n
    ensures SameShape(a, b, k)
  {
  }

  /** A step of one list is a step of the other, unless the provisional mark is out of place. */
  lemma StepTransfers(a: seq<Record>, b: seq<Record>, i: nat)
    requires SameShape(a, b, i + 1) && StepOk(a, i)
    requires b[i].provisional ==> !b[i].foreign && i + 1 == |b| && b[i].imm.kind == Content
    ensures StepOk(b, i)
  {
    ShapeRestricts(a, b, i + 1, i);
    SamePositions(a, b, i);
    RefsTransfer(a, b, i);
    if !b[i].foreign { LineTransfers(a, b, i); SourcesTransfer(a, b, i); }
  }

  lemma RefsTransfer(a: seq<Record>, b: seq<Record>, i: nat)
    requires SameShape(a, b, i + 1) && RefsBefore(a, i)
    ensures RefsBefore(b, i)
  {
    ShapeRestricts(a, b, i + 1, i);
    SamePositions(a, b, i);
  }

  lemma LineTransfers(a: seq<Record>, b: seq<Record>, i: nat)
    requires SameShape(a, b, i + 1) && FollowsLine(a, i) && FollowsContent(a, i)
    ensures FollowsLine(b, i) && FollowsContent(b, i)
  {
    ShapeRestricts(a, b, i + 1, i);
    SamePositions(a, b, i);
  }

  lemma SourcesTransfer(a: seq<Record>, b: seq<Record>, i: nat)
    requires SameShape(a, b, i + 1) && SourcesOwned(a, i)
    ensures SourcesOwned(b, i)
  {
    if b[i].imm.kind == Content {
      forall s | s in b[i].imm.mergeSources ensures ImportFor(b, i, s) {
        assert ImportFor(a, i, s);
        var j :| 0 <= j < i && a[j].id == s && a[j].foreign && a[j].resolvedBy == Some(a[i].id);
        assert b[j].id == s;
      }
    }
  }

  // ---------- Imports in a longer list ----------

  /** Records past n belong to none of the merges before n. */
  ghost predicate Disowned(rs: seq<Record>, n: nat) {
    n <= |rs|
    && forall i, m | n <= i < |rs| && 0 <= m < n :: !OwnedBy(rs[i], rs[m].id)
  }

  lemma ResolvedGrows(a: seq<Record>, b: seq<Record>, i: nat)
    requires i < |a| && SameShape(a, b, |a|) && Resolved(a, i)
    ensures Resolved(b, i)
  {
    var m :| i < m < |a| && Merge(a[m]) && OwnedBy(a[i], a[m].id);
    assert i < m < |b| && Merge(b[m]) && OwnedBy(b[i], b[m].id);
  }

  lemma {:induction false} ReachedGrows(a: seq<Record>, b: seq<Record>, m: nat, i: nat)
    requires SameShape(a, b, |a|) && m < |a| && i < |a| && Reached(a, m, i)
    ensures Reached(b, m, i)
    decreases |a| - i
  {
    if b[i].id !in b[m].imm.mergeSources {
      var j :| i < j < |a| && OwnedBy(a[j], a[m].id) && Refers(a[j].imm, a[i].id) && Reached(a, m, j);
      ReachedGrows(a, b, m, j);
      assert OwnedBy(b[j], b[m].id) && Refers(b[j].imm, b[i].id);
    }
  }

  lemma ClosedImportGrows(a: seq<Record>, b: seq<Record>, m: nat)
    requires SameShape(a, b, |a|) && Disowned(b, |a|) && m < |a| && ClosedImport(a, m)
    ensures ClosedImport(b, m)
  {
    var w :| 0 <= w < |a| && !OwnedBy(a[w], a[m].id) && Reached(a, m, w);
    ReachedGrows(a, b, m, w);
    assert !OwnedBy(b[w], b[m].id);
    forall i | 0 <= i < |b| && OwnedBy(b[i], b[m].id) ensures Reached(b, m, i) {
      assert i < |a| && OwnedBy(a[i], a[m].id);
      ReachedGrows(a, b, m, i);
    }
    forall i, s | 0 <= i < |b| && OwnedBy(b[i], b[m].id) && s in b[m].imm.mergeSources
      ensures b[i].id == s || (b[i].imm.previous != Some(s) && b[i].imm.contentParent != Some(s))
    {
      assert i < |a| && OwnedBy(a[i], a[m].id) && s in a[m].imm.mergeSources;
    }
  }

  // ---------- Text in a longer list ----------

  lemma {:induction false} LineOfPrefix(a: seq<Record>, b: seq<Record>, n: nat, limits: Limits)
    requires n <= |a| && n <= |b| && a[..n] == b[..n]
    ensures LineAfter(a, n, limits) == LineAfter(b, n, limits)
  {
    if n > 0 {
      assert a[..n - 1] == a[..n][..n - 1] == b[..n - 1];
      assert a[n - 1] == a[..n][n - 1] == b[n - 1];
      LineOfPrefix(a, b, n - 1, limits);
    }
  }

  /** Past a broken step the line stays broken; a line known at the end was never broken. */
  lemma {:induction false} NeverBroken(rs: seq<Record>, n: nat, limits: Limits)
    requires n <= |rs| && !LineAfter(rs, |rs|, limits).Broken?
    ensures !LineAfter(rs, n, limits).Broken?
    decreases |rs| - n
  {
    if n < |rs| { NeverBroken(rs, n + 1, limits); }
  }

  // ---------- Compactions in a longer list ----------

  lemma {:induction false} SameDeltas(a: seq<Record>, b: seq<Record>, lo: nat, hi: nat)
    requires SameShape(a, b, hi) && lo <= hi
    ensures Deltas(a, lo, hi) == Deltas(b, lo, hi)
    decreases hi - lo
  {
    if lo < hi { SameDeltas(a, b, lo, hi - 1); }
  }

  lemma CompactionTransfers(a: seq<Record>, b: seq<Record>, e: nat)
    requires SameShape(a, b, e + 1) && CompactionOk(a, e)
    ensures CompactionOk(b, e)
  {
    var c: nat :| CutoffAt(a, e, c) && a[e].imm.event.value.retained == Some(Deltas(a, c + 1, e));
    SameDeltas(a, b, c + 1, e);
    assert CutoffAt(b, e, c);
  }

  lemma CutoffTransfers(a: seq<Record>, b: seq<Record>, e: nat, c: nat)
    requires SameShape(a, b, e + 1)
    ensures CutoffAt(a, e, c) <==> CutoffAt(b, e, c)
  {
  }
}
