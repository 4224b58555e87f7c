/**
 * What a valid revision graph is, stated without the checker's bookkeeping:
 * the canonical line, imports and the merges that own them, and compactions.
 */
module GraphValidity {
  import opened Wrappers
  import opened RevisionRecords
  import opened TextValidation

  // ---------- Positions ----------

  /** Some record before position n carries the identifier. */
  predicate Occurs(rs: seq<Record>, n: nat, id: RevisionId)
    requires n <= |rs|
  {
    exists j | 0 <= j < n :: rs[j].id == id
  }

  /** The position of the last canonical record before n, or -1. */
  function LastCanonical(rs: seq<Record>, n: nat): (k: int)
    requires n <= |rs|
    ensures -1 <= k < n
    ensures k >= 0 ==> !rs[k].foreign
    ensures forall i | k < i < n :: rs[i].foreign
  {
    if n == 0 then -1 else if !rs[n - 1].foreign then n - 1 else LastCanonical(rs, n - 1)
  }

  /** The position of the last text-carrying record before n, or -1. */
  function LastContent(rs: seq<Record>, n: nat): (k: int)
    requires n <= |rs|
    ensures -1 <= k < n
    ensures k >= 0 ==> Carries(rs[k])
    ensures forall i | k < i < n :: !Carries(rs[i])
  {
    if n == 0 then -1 else if Carries(rs[n - 1]) then n - 1 else LastContent(rs, n - 1)
  }

  ghost predicate Distinct(rs: seq<Record>) {
    forall i, j | 0 <= i < j < |rs| :: rs[i].id != rs[j].id
  }

  // ---------- The canonical line ----------

  ghost predicate RefsBefore(rs: seq<Record>, i: nat)
    requires i < |rs|
  {
    forall id | Refers(rs[i].imm, id) :: Occurs(rs, i, id)
  }

  /** Record m's source is an import before it that names m as its merge. */
  predicate ImportFor(rs: seq<Record>, m: nat, source: RevisionId)
    requires m < |rs|
  {
    exists j | 0 <= j < m :: rs[j].id == source && rs[j].foreign && rs[j].resolvedBy == Some(rs[m].id)
  }

  predicate FollowsLine(rs: seq<Record>, i: nat)
    requires i < |rs|
  {
    var p := LastCanonical(rs, i);
    if p < 0 then rs[i].imm.kind == Baseline && rs[i].imm.previous.None? && rs[i].imm.contentParent.None?
    else rs[i].imm.kind != Baseline && rs[i].imm.previous == Some(rs[p].id)
  }

  predicate FollowsContent(rs: seq<Record>, i: nat)
    requires i < |rs|
  {
    var c := LastContent(rs, i);
    match rs[i].imm.kind
    case Baseline => true
    case Content => c >= 0 && rs[i].imm.contentParent == Some(rs[c].id)
    case Event => c >= 0 && rs[i].imm.contentHash == rs[c].imm.contentHash
  }

  predicate SourcesOwned(rs: seq<Record>, i: nat)
    requires i < |rs|
  {
    if rs[i].imm.kind == Content then forall s | s in rs[i].imm.mergeSources :: ImportFor(rs, i, s)
    else rs[i].imm.mergeSources == []
  }

  ghost predicate StepOk(rs: seq<Record>, i: nat)
    requires i < |rs|
  {
    && RefsBefore(rs, i)
    && !Occurs(rs, i, rs[i].id)
    && (if rs[i].foreign then rs[i].resolvedBy.Some? && rs[i].imm.kind != Baseline
        else FollowsLine(rs, i) && FollowsContent(rs, i) && SourcesOwned(rs, i)
             && (rs[i].provisional ==> i + 1 == |rs| && rs[i].imm.kind == Content))
  }

  ghost predicate ChainOk(rs: seq<Record>) {
    forall i | 0 <= i < |rs| :: StepOk(rs, i)
  }

  ghost predicate HeadsOk(rs: seq<Record>, head: RevisionId, contentHead: RevisionId) {
    var p, c := LastCanonical(rs, |rs|), LastContent(rs, |rs|);
    p >= 0 && c >= 0 && rs[p].id == head && rs[c].id == contentHead
  }

  // ---------- Imports ----------

  /** Canonical content record with merge sources. */
  predicate Merge(r: Record) {
    !r.foreign && r.imm.kind == Content && r.imm.mergeSources != []
  }

  predicate OwnedBy(r: Record, merge: RevisionId) {
    r.foreign && r.resolvedBy == Some(merge)
  }

  ghost predicate Resolved(rs: seq<Record>, i: nat)
    requires i < |rs|
  {
    rs[i].imm.previous.Some? && (rs[i].imm.kind == Content ==> rs[i].imm.contentParent.Some?)
    && exists m :: i < m < |rs| && Merge(rs[m]) && OwnedBy(rs[i], rs[m].id)
  }

  ghost predicate ImportsOk(rs: seq<Record>) {
    forall i | 0 <= i < |rs| && rs[i].foreign :: Resolved(rs, i)
  }

  /** Record i is met when walking back from the sources of merge m through imports m owns. */
  ghost predicate Reached(rs: seq<Record>, m: nat, i: nat)
    requires m < |rs| && i < |rs|
    decreases |rs| - i
  {
    rs[i].id in rs[m].imm.mergeSources
    || exists j :: i < j < |rs| && OwnedBy(rs[j], rs[m].id) && Refers(rs[j].imm, rs[i].id) && Reached(rs, m, j)
  }

  /** The walk from the merge leaves its own imports somewhere. */
  ghost predicate Shares(rs: seq<Record>, m: nat)
    requires m < |rs|
  {
    exists i :: 0 <= i < |rs| && !OwnedBy(rs[i], rs[m].id) && Reached(rs, m, i)
  }

  /** No import of merge m names one of m's sources as predecessor or content parent. */
  ghost predicate SourcesAreTips(rs: seq<Record>, m: nat)
    requires m < |rs|
  {
    forall i, s | 0 <= i < |rs| && OwnedBy(rs[i], rs[m].id) && s in rs[m].imm.mergeSources ::
      rs[i].id == s || (rs[i].imm.previous != Some(s) && rs[i].imm.contentParent != Some(s))
  }

  ghost predicate ClosedImport(rs: seq<Record>, m: nat)
    requires m < |rs|
  {
    && Shares(rs, m)
    && (forall i | 0 <= i < |rs| && OwnedBy(rs[i], rs[m].id) :: Reached(rs, m, i))
    && SourcesAreTips(rs, m)
  }

  ghost predicate MergesOk(rs: seq<Record>) {
    forall m | 0 <= m < |rs| && !rs[m].foreign && rs[m].imm.mergeSources != [] :: ClosedImport(rs, m)
  }

  // ---------- Text ----------

  /** The clear text of the canonical line: pruned or not begun, known, or inconsistent. */
  datatype Line = Gone | Known(text: Bytes) | Broken

  function CopyInBounds(segment: Segment, source: Bytes): bool {
    segment.Copy? ==> segment.start <= |source| && segment.count <= |source| - segment.start
  }

  function Piece(segment: Segment, source: Bytes): Bytes
    requires CopyInBounds(segment, source)
  {
    match segment
    case Copy(start, count) => source[start..start + count]
    case Insert(text) => text
  }

  /** The pieces the first k segments take from the source, in order, if all are in bounds. */
  function Patched(segments: seq<Segment>, k: nat, source: Bytes): Option<Bytes>
    requires k <= |segments|
  {
    if k == 0 then Some([])
    else
      var before := Patched(segments, k - 1, source);
      if before.None? || !CopyInBounds(segments[k - 1], source) then None
      else Some(before.value + Piece(segments[k - 1], source))
  }

  ghost predicate AppliesTo(body: Body, source: Bytes, text: Bytes, limits: Limits) {
    body.Patch? && Patched(body.segments, |body.segments|, source) == Some(text)
    && |text| == body.length && GoodWhole(text, limits)
  }

  /** One record's effect on the line. Imports and events leave it alone. */
  ghost function Advance(line: Line, r: Record, limits: Limits): Line {
    if !Carries(r) || line.Broken? then line
    else match r.storage
    case Pruned => Gone
    case Delta =>
      if line.Known? && r.body.Some? && AppliesTo(r.body.value, line.text, r.imm.contentHash.text, limits)
      then Known(r.imm.contentHash.text) else Broken
    case Snapshot => FromWhole(r)
    case Checkpoint => FromWhole(r)
    case _ => Broken
  }

  function FromWhole(r: Record): Line {
    if r.body.Some? && r.body.value.Whole? && ContentDigest(r.body.value.text) == r.imm.contentHash
    then Known(r.body.value.text) else Broken
  }

  /** The forward fold over the first n records. */
  ghost function LineAfter(rs: seq<Record>, n: nat, limits: Limits): Line
    requires n <= |rs|
  {
    if n == 0 then Gone else Advance(LineAfter(rs, n - 1, limits), rs[n - 1], limits)
  }

  /** The flag the text pass leaves on a canonical record: its text can be read. */
  ghost predicate Available(rs: seq<Record>, i: nat, limits: Limits)
    requires i < |rs|
  {
    !rs[i].foreign && LineAfter(rs, i + 1, limits).Known?
  }

  // ---------- Compactions ----------

  /** Record c is the text-carrying cutoff that compaction event e names. */
  predicate CutoffAt(rs: seq<Record>, e: nat, c: nat)
    requires e < |rs|
  {
    c < e && CompactionEvent(rs[e]) && rs[e].imm.event.value.cutoff == Some(rs[c].id) && Carries(rs[c])
  }

  /** Canonical content records in positions lo to hi. */
  function Deltas(rs: seq<Record>, lo: nat, hi: nat): nat
    requires lo <= hi <= |rs|
    decreases hi - lo
  {
    if lo == hi then 0
    else Deltas(rs, lo, hi - 1) + (if !rs[hi - 1].foreign && rs[hi - 1].imm.kind == Content then 1 else 0)
  }

  ghost predicate CompactionOk(rs: seq<Record>, e: nat)
    requires e < |rs|
  {
    CompactionEvent(rs[e])
    && exists c: nat :: CutoffAt(rs, e, c) && rs[e].imm.event.value.retained == Some(Deltas(rs, c + 1, e))
  }

  /** Later compactions never cut before earlier ones. */
  ghost predicate CutoffsAscend(rs: seq<Record>) {
    forall e, f, c, d | 0 <= e < f < |rs| && CutoffAt(rs, e, c) && CutoffAt(rs, f, d) :: c <= d
  }

  ghost predicate LatestCompaction(rs: seq<Record>, e: nat)
    requires e < |rs|
  {
    CompactionEvent(rs[e]) && forall f | e < f < |rs| :: !CompactionEvent(rs[f])
  }

  /** The cutoff of a compaction is a checkpoint and the only survivor up to itself. */
  ghost predicate CutBefore(rs: seq<Record>, c: nat)
    requires c < |rs|
  {
    rs[c].storage == Checkpoint && forall i | 0 <= i < c && Carries(rs[i]) :: rs[i].storage == Pruned
  }

  ghost predicate CompactionsOk(rs: seq<Record>) {
    && (forall e | 0 <= e < |rs| && CompactionEvent(rs[e]) :: CompactionOk(rs, e))
    && CutoffsAscend(rs)
    && (forall e, c | 0 <= e < |rs| && LatestCompaction(rs, e) && CutoffAt(rs, e, c) :: CutBefore(rs, c))
  }

  // ---------- The whole ----------

  /** The canonical line, the heads and the imports. */
  ghost predicate Structured(rs: seq<Record>, head: RevisionId, contentHead: RevisionId) {
    |rs| > 0 && ChainOk(rs) && HeadsOk(rs, head, contentHead) && ImportsOk(rs) && MergesOk(rs)
  }

  ghost predicate ValidGraph(rs: seq<Record>, head: RevisionId, contentHead: RevisionId, limits: Limits) {
    && Structured(rs, head, contentHead)
    && LineAfter(rs, |rs|, limits).Known?
    && CompactionsOk(rs)
  }
}
