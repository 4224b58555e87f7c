/**
 * An editing client whose own replica forked from the stored image can always merge the two: nothing but room can keep it
 * from it, and afterwards both histories and the resolved text are stored (src/container/container.cpp, prepare_merge).
 */
module MergeSession {
  import opened Wrappers
  import opened TextValidation
  import opened ContainerState
  import opened ContainerCore
  import opened ContainerAgreement
  import opened Proposals
  import opened CredentialProposal
  import opened ContainerRequests
  import opened ContainerSteps
  import opened ContainerCalls
  import opened ContainerRuns
  import opened BackupRuns
  import opened EditSession
  import Graphs = RevisionGraph
  import Images = Envelope
  import Slots = PasswordSlots
  import Records = RevisionRecords
  import Merging = MergeSave
  import MergeSpec = MergeGraphs
  import Lines = Lineage
  import Starts = Forks
  import Texts = PublishedText
  import Written = WrittenRecords
  import Authorities = ContainerAuthority

  /** Both replicas are of this document and open to the same slot; they forked, and where they agreed can be read. */
  ghost predicate Mergeable(env: Env, c: Core, call: Call) {
    && call.PrepareMerge? && c.committed.Some? && c.unlocked.Some?
    && (var own := Images.Unlocking(env.hash, call.replica, call.replicaPassword);
        own.Some? && own.value.slot == c.unlocked.value.slot)
    && call.replica.documentId == c.committed.value.documentId && call.replica.contentType == c.committed.value.contentType
    && call.replica.sealedUnder == c.committed.value.sealedUnder
    && !Graphs.HasProvisional(call.replica.graph) && !Graphs.HasProvisional(c.committed.value.graph)
    && Starts.SameStart(call.replica.graph, c.committed.value.graph) && Starts.Forked(call.replica.graph, c.committed.value.graph)
    && Merging.BaseReadable(call.replica.graph, c.committed.value.graph)
  }

  predicate Named(v: Merging.Resolution) {
    v.profileName != "" && v.profileEmail != "" && v.device != "" && v.timestamp <= Records.MAX_TIME
  }

  /** An editing client asks for a merge with a text the document may hold. */
  ghost predicate MergeAsked(env: Env, c: Core, call: Call) {
    && Mergeable(env, c, call) && Sits(env, c, call.password) && HoldsEdit(c) && Fresh(c, call.id)
    && GoodText(env, c.committed.value, call.resolution.content) && Named(call.resolution)
  }

  ghost function Outcome(env: Env, c: Core, call: Call): Graphs.Graph
    requires MergeAsked(env, c, call)
  {
    ActorFits(env.hash, c);
    MergeSpec.MergedGraph(env.hash, call.replica.graph, c.committed.value.graph, Merging.RequestFor(c.unlocked.value, call.resolution))
  }

  lemma ReplicasAgree(env: Env, c: Core, call: Call)
    requires MergeAsked(env, c, call)
    ensures OwnSlot(c) < |c.unlocked.value.graph.slots|
    ensures Graphs.Decodable(env.hash, call.replica.graph, Records.DEFAULT_LIMITS)
    ensures Graphs.Decodable(env.hash, c.committed.value.graph, Records.DEFAULT_LIMITS)
    ensures Images.Unlocking(env.hash, call.replica, call.replicaPassword).value.graph == call.replica.graph
    ensures Merging.Compatible(c.unlocked.value, Images.Unlocking(env.hash, call.replica, call.replicaPassword).value)
    ensures c.unlocked.value.graph == c.committed.value.graph && call.replicaPassword != []
  {
    hide Agrees, Graphs.Decodable, Starts.Forked, Merging.BaseReadable, GoodText, Images.WrapperFits;
    ActorFits(env.hash, c);
    Merging.UnlockedDecodes(env.hash, call.replica, call.replicaPassword);
    Authorities.KeyOf(env.hash, call.replica, call.replicaPassword);
    Authorities.KeyOf(env.hash, c.committed.value, call.password);
  }

  /** Who sits there may merge. */
  lemma SitterMayMerge(env: Env, c: Core, password: Password)
    requires Sits(env, c, password)
    ensures OwnSlot(c) < |c.unlocked.value.graph.slots|
    ensures MergeSpec.MayMerge(c.unlocked.value.graph.slots, ActorOf(c.unlocked.value).id)
  {
    hide Graphs.Decodable, Images.WellStructured, CandidateAgrees, PendingAgrees;
    OpenIsWhole(env.hash, c);
    OwnSlotFits(env.hash, c);
    var s := c.unlocked.value.graph.slots[OwnSlot(c)];
    assert Graphs.Allows(s.permissions, Graphs.EDIT) && !s.mustBeChanged;
  }

  lemma GraphsAllowMerge(env: Env, c: Core, call: Call)
    requires MergeAsked(env, c, call)
    ensures OwnSlot(c) < |c.unlocked.value.graph.slots|
    ensures var s := Merging.RequestFor(c.unlocked.value, call.resolution);
            && MergeSpec.MergeAllowed(call.replica.graph, c.committed.value.graph, s)
            && MergeSpec.Diverged(env.hash, call.replica.graph, c.committed.value.graph)
  {
    hide Graphs.Decodable, Starts.Forked, Merging.BaseReadable, Lines.VerdictOn, Images.Unlocking, Agrees, Faithful, Sits,
         CanonicalText;
    SitsSound(env, c, call.password);
    ReplicasAgree(env, c, call);
    SitterMayMerge(env, c, call.password);
    Starts.ForkedIsDivergent(env.hash, call.replica.graph, c.committed.value.graph);
  }

  lemma SitsSound(env: Env, c: Core, password: Password)
    requires Sits(env, c, password)
    ensures Sound(env, c) && c.committed.Some? && c.unlocked.Some?
  {
  }

  /** Room is all that can be missing. */
  lemma MergeIsPrepared(env: Env, c: Core, call: Call)
    requires MergeAsked(env, c, call)
    ensures MergeAccepted(env.hash, env.csv, c, call.id, call.replica, call.password, call.replicaPassword, call.resolution)
            <==> |Outcome(env, c, call).records| <= Records.DEFAULT_LIMITS.maxEntries
  {
    hide Graphs.Decodable, Starts.Forked, Merging.BaseReadable, Lines.VerdictOn, Images.Unlocking, Agrees, Faithful, CanonicalText,
         MergeSpec.MergedGraph, MergeSpec.MergeAllowed, Records.Injective, Merging.Compatible;
    ReplicasAgree(env, c, call);
    GraphsAllowMerge(env, c, call);
    UnlockedFrom(env.hash, c.committed.value, call.password);
  }

  /** Published, the merge shows the resolved text and holds every record of both replicas; editing goes on. */
  lemma MergeSteps(env: Env, c: Core, call: Call, begun: Core, after: Core)
    requires MergeAsked(env, c, call) && |Outcome(env, c, call).records| <= Records.DEFAULT_LIMITS.maxEntries
    requires Leads(env, c, call, begun) && Leads(env, begun, AcknowledgeSave(call.id, Verified), after)
    ensures Sound(env, after) && after.committed.Some? && after.committed.value.graph == Outcome(env, c, call)
    ensures HeadText(after.committed.value.graph) == call.resolution.content && after.content == Some(call.resolution.content)
    ensures AtRest(after) && HoldsEdit(after) && after.localSession == c.localSession
  {
    hide Images.Unlocking, Agrees, Faithful, Records.Injective, Outcome, MergeAsked, Called, Answered, MergeAccepted,
         MergeProposal, HeadText, Mergeable, GoodText;
    MergeIsPrepared(env, c, call);
    AskedSits(env, c, call);
    MergeBegins(env, c, call, begun);
    AnswerIsCalled(env, begun, call.id, after);
    AnswerKeepsSound(env, begun, call.id, Acknowledge(call.id, Verified));
    var base := Submitted(c, call.resolution.content);
    AnswerSettles(begun, base, PreparedMerge(env, c, call).value, SaveKind);
    Texts.MergeCommitsText(env.hash, env.csv, c, call.id, call.replica, call.password, call.replicaPassword, call.resolution, call.nonce);
    ProposalIsOutcome(env, c, call);
  }

  lemma AnswerIsCalled(env: Env, begun: Core, id: nat, after: Core)
    requires Leads(env, begun, AcknowledgeSave(id, Verified), after)
    ensures after == Answered(begun, id, Acknowledge(id, Verified))
  {
    hide Sound, Answered, Prepared, AfterUnlock, AfterTarget, SubmitAccepted;
  }

  lemma AskedSits(env: Env, c: Core, call: Call)
    requires MergeAsked(env, c, call)
    ensures Sits(env, c, call.password) && HoldsEdit(c) && call.PrepareMerge?
  {
  }

  lemma MergeBegins(env: Env, c: Core, call: Call, begun: Core)
    requires call.PrepareMerge? && Leads(env, c, call, begun)
    requires MergeAccepted(env.hash, env.csv, c, call.id, call.replica, call.password, call.replicaPassword, call.resolution)
    ensures c.unlocked.Some? && Sound(env, begun) && Agrees(Submitted(c, call.resolution.content))
    ensures PreparedMerge(env, c, call)
            == Some(MergeProposal(env.hash, env.csv, c, call.id, call.replica, call.password, call.replicaPassword, call.resolution, call.nonce))
    ensures begun == Begun(Submitted(c, call.resolution.content), PreparedMerge(env, c, call).value, SaveKind)
    ensures PreparedMerge(env, c, call).value.operation == call.id && !PreparedMerge(env, c, call).value.discard
            && !PreparedMerge(env, c, call).value.leaseChange
  {
    hide Images.Unlocking, Agrees, Faithful, Records.Injective, SubmitAccepted, Merging.ReplicasMerge, Merging.MergedImage, OpensOwn,
         AfterUnlock, AfterTarget, Fitting;
    CallKeepsSound(env, c, call);
    MergePrepared(env, c, call);
    SubmittedAgrees(env.hash, c, call.resolution.content);
  }

  lemma ProposalIsOutcome(env: Env, c: Core, call: Call)
    requires MergeAsked(env, c, call)
    requires MergeAccepted(env.hash, env.csv, c, call.id, call.replica, call.password, call.replicaPassword, call.resolution)
    ensures MergeProposal(env.hash, env.csv, c, call.id, call.replica, call.password, call.replicaPassword, call.resolution, call.nonce)
              .image.graph == Outcome(env, c, call)
  {
    hide Graphs.Decodable, Starts.Forked, Merging.BaseReadable, Images.Unlocking, Agrees, Faithful, CanonicalText,
         MergeSpec.MergedGraph, Merging.GraphsMerge, Records.Injective;
    ReplicasAgree(env, c, call);
  }

  /** Nothing of either history is lost, and from then on both replicas take the result for their continuation. */
  lemma MergeKeepsBoth(env: Env, c: Core, call: Call)
    requires MergeAsked(env, c, call)
    ensures forall i | 0 <= i < |call.replica.graph.records| ::
              Lines.Holds(Outcome(env, c, call).records, call.replica.graph.records[i].id)
    ensures forall t | 0 <= t < |c.committed.value.graph.records| ::
              Lines.Holds(Outcome(env, c, call).records, c.committed.value.graph.records[t].id)
    ensures Lines.VerdictOn(call.replica.graph, Outcome(env, c, call)) == Ok(Lines.Advanced)
    ensures Outcome(env, c, call).slots == c.committed.value.graph.slots && Outcome(env, c, call).lease == c.committed.value.graph.lease
  {
    hide Graphs.Decodable, Starts.Forked, Merging.BaseReadable, Lines.VerdictOn, Images.Unlocking, Agrees, Faithful, CanonicalText,
         MergeSpec.MergedGraph, MergeSpec.MergeAllowed, MergeAsked, Lines.Holds, Written.Signed;
    GraphsAllowMerge(env, c, call);
    AskedSits(env, c, call);
    SitsSound(env, c, call.password);
    var local, target := call.replica.graph, c.committed.value.graph;
    var s := Merging.RequestFor(c.unlocked.value, call.resolution);
    MergeSpec.MergeKeepsLine(env.hash, local, target, s);
    MergeSpec.MergeSettlesLineage(env.hash, local, target, s);
    Written.MergeWrites(env.hash, local, target, s);
    forall i | 0 <= i < |local.records| ensures Lines.Holds(Outcome(env, c, call).records, local.records[i].id) {
      HeldInPlace(local.records, Outcome(env, c, call).records, i);
    }
    forall t | 0 <= t < |target.records| ensures Lines.Holds(Outcome(env, c, call).records, target.records[t].id) {
      MergeSpec.MergeHoldsTarget(env.hash, local, target, s, t);
    }
  }

  lemma HeldInPlace(a: seq<Records.Record>, b: seq<Records.Record>, i: nat)
    requires i < |a| <= |b| && b[..|a|] == a
    ensures Lines.Holds(b, a[i].id)
  {
    assert b[i] == b[..|a|][i];
  }
}
