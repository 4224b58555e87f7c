/** Which replica is local, which is the target, and who may merge them (src/document/merge_save.cpp). */
module MergeSave {
  import opened Wrappers
  import opened TextValidation
  import opened RevisionRecords
  import opened GraphValidity
  import opened RevisionGraph
  import opened Lineage
  import opened MergeGraphs
  import opened GraphBuilders
  import opened Envelope
  import opened PasswordSlots
  import opened ImageOperations

  /** What the user supplies besides the two replicas and their passwords. */
  datatype Resolution = Resolution(
    content: Bytes, profileName: string, profileEmail: string, device: string, timestamp: nat)

  function RequestFor(target: Opened, v: Resolution): MergeRequest
    requires IndexOf(target.graph.slots, target.slot, 0) < |target.graph.slots|
  {
    MergeRequest(v.content, v.profileName, v.profileEmail, v.device,
                 target.graph.slots[IndexOf(target.graph.slots, target.slot, 0)], v.timestamp)
  }

  /** Both replicas can be read where they last agreed. */
  ghost predicate BaseReadable(local: Graph, target: Graph) {
    exists j :: LastShared(local.records, target.records, j) && BaseReads(local.records, target.records, j)
  }

  /** The exact condition under which the graphs merge. */
  ghost predicate GraphsMerge(hash: Hash, local: Graph, target: Graph, s: MergeRequest) {
    && MergeAllowed(local, target, s) && VerdictOn(local, target) == Ok(Divergent)
    && BaseReadable(local, target)
    && |MergedGraph(hash, local, target, s).records| <= DEFAULT_LIMITS.maxEntries
  }

  lemma LastSharedIsUnique(local: Graph, target: Graph, i: nat, j: nat)
    requires LastShared(local.records, target.records, i) && LastShared(local.records, target.records, j)
    ensures i == j
  {
  }

  lemma AnswerIsExact(hash: Hash, local: Graph, target: Graph, s: MergeRequest, r: Result<Graph, Error>)
    requires MergeAnswer(hash, local, target, s, r)
    ensures r.Ok? <==> GraphsMerge(hash, local, target, s)
    ensures r.Ok? ==> r.value == MergedGraph(hash, local, target, s)
  {
    hide MergeAllowed, VerdictOn, BaseReads, MergedGraph;
    if MergeAllowed(local, target, s) && VerdictOn(local, target) == Ok(Divergent) {
      var j :| LastShared(local.records, target.records, j)
               && if !BaseReads(local.records, target.records, j) then r == Err(UnavailableBase)
                  else if |MergedGraph(hash, local, target, s).records| <= DEFAULT_LIMITS.maxEntries
                  then r == Ok(MergedGraph(hash, local, target, s))
                  else r == Err(LimitExceeded);
      forall i: nat | LastShared(local.records, target.records, i) ensures i == j {
        LastSharedIsUnique(local, target, i, j);
      }
    }
  }

  /** The two opened replicas belong to one document and one slot that may edit. */
  predicate Compatible(target: Opened, local: Opened) {
    && target.documentId == local.documentId && target.journalKey == local.journalKey
    && target.contentType == local.contentType && target.slot == local.slot
    && !target.mustBeChanged && Allows(target.permissions, EDIT)
    && IndexOf(target.graph.slots, target.slot, 0) < |target.graph.slots|
  }

  ghost predicate ReplicasMerge(hash: Hash, target: Image, local: Image, targetPassword: Password,
                                localPassword: Password, v: Resolution)
  {
    var t, l := Unlocking(hash, target, targetPassword), Unlocking(hash, local, localPassword);
    && t.Some? && l.Some? && Compatible(t.value, l.value)
    && GraphsMerge(hash, l.value.graph, t.value.graph, RequestFor(t.value, v))
  }

  /** The target's own image, carrying the other replica's graph merged over it. */
  ghost function MergedImage(hash: Hash, target: Image, local: Image, targetPassword: Password,
                             localPassword: Password, v: Resolution, nonce: nat): Image
    requires ReplicasMerge(hash, target, local, targetPassword, localPassword, v)
  {
    var t, l := Unlocking(hash, target, targetPassword).value, Unlocking(hash, local, localPassword).value;
    WithGraph(target, MergedGraph(hash, l.graph, t.graph, RequestFor(t, v)), nonce)
  }

  lemma UnlockedDecodes(hash: Hash, image: Image, password: Password)
    requires Unlocking(hash, image, password).Some?
    ensures Unlocking(hash, image, password).value.graph == image.graph && Decodable(hash, image.graph, DEFAULT_LIMITS)
  {
    hide Decodable;
  }

  lemma MergeDecodes(hash: Hash, local: Graph, target: Graph, s: MergeRequest)
    requires Injective(hash) && Decodable(hash, local, DEFAULT_LIMITS) && Decodable(hash, target, DEFAULT_LIMITS)
    requires GraphsMerge(hash, local, target, s)
    ensures Decodable(hash, MergedGraph(hash, local, target, s), DEFAULT_LIMITS)
    ensures MergedGraph(hash, local, target, s).slots == target.slots
  {
    hide Decodable, VerdictOn, MergedGraph, LastShared, BaseReads, MayMerge;
    AllowedSealed(local, target, s);
    MergeCloses(hash, local, target, s);
    MergedSlots(hash, local, target, s);
  }

  method CreateRevised(hash: Hash, target: Image, local: Image, targetPassword: Password,
                       localPassword: Password, v: Resolution, nonce: nat)
    returns (r: Result<Image, Failure>)
    requires Injective(hash)
    ensures r.Ok? <==> ReplicasMerge(hash, target, local, targetPassword, localPassword, v)
    ensures r.Ok? ==> r.value == MergedImage(hash, target, local, targetPassword, localPassword, v, nonce)
  {
    hide Decodable, Unlocking, GraphsMerge, MergedGraph;
    var theirs := UnlockImage(hash, target, targetPassword);
    if theirs.Err? { return Err(ContainerFailure(theirs.error)); }
    var mine := UnlockImage(hash, local, localPassword);
    if mine.Err? { return Err(ContainerFailure(mine.error)); }
    var t, l := theirs.value, mine.value;
    if t.documentId != l.documentId || t.journalKey != l.journalKey || t.contentType != l.contentType {
      return Err(MergeFailure(UnrelatedReplica));
    }
    if t.slot != l.slot { return Err(MergeFailure(RevokedAccess)); }
    if t.mustBeChanged || !Allows(t.permissions, EDIT) { return Err(MergeFailure(PermissionDenied)); }
    var k := FindSlot(t.graph.slots, t.slot);
    if k == |t.graph.slots| { return Err(ContainerFailure(MalformedContainer)); }
    UnlockedDecodes(hash, target, targetPassword);
    UnlockedDecodes(hash, local, localPassword);
    var request := MergeRequest(v.content, v.profileName, v.profileEmail, v.device, t.graph.slots[k], v.timestamp);
    var merged := MergeWith(hash, l.graph, t.graph, request);
    AnswerIsExact(hash, l.graph, t.graph, request, merged);
    if merged.Err? { return Err(FormatFailure(merged.error)); }
    MergeDecodes(hash, l.graph, t.graph, request);
    r := ReplaceGraph(hash, target, targetPassword, merged.value, nonce);
  }
}
