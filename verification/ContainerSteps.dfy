/** What single calls to a container rely on: every proposal fits, and no installation stops half way. */
module ContainerSteps {
  import opened Wrappers
  import opened TextValidation
  import opened ContainerState
  import opened ContainerCore
  import opened ContainerAgreement
  import opened Proposals
  import opened CredentialProposal
  import opened ContainerRequests
  import Graphs = RevisionGraph
  import Images = Envelope
  import Ops = ImageOperations
  import Records = RevisionRecords
  import Saves = SaveContent
  import Events = AppendEvent
  import Merging = MergeSave
  import MergeSpec = MergeGraphs
  import Leases = LeaseProtocol

  type Failure = Ops.Failure
  type Answer = Result<Transition, Failure>

  const REFUSED: Answer := Err(Ops.StateFailure(InvalidTransition))
  const STALE: Answer := Err(Ops.StateFailure(StaleOperation))

  /** A verified candidate whose follow-up transition the state refuses. */
  predicate FollowUpRefused(next: Core, a: Attempt) {
    && next.candidate.Some? && VerifiedAttempt(a) && FollowUp(next.candidate.value).Some?
    && Apply(next.state, FollowUp(next.candidate.value).value).Err?
  }

  /** A settlement that would stop half way through. */
  predicate Rejects(c: Core, a: Attempt) {
    && Apply(c.state, a).Ok? && Apply(c.state, a).value.state != c.state
    && FollowUpRefused(c.(state := Apply(c.state, a).value.state), a)
  }

  /** In a container whose parts agree no settlement stops half way. */
  lemma NeverRejects(c: Core, a: Attempt)
    requires Agrees(c)
    ensures !Rejects(c, a)
  {
    hide Agrees, Apply, FollowUp, VerifiedAttempt;
    if Apply(c.state, a).Ok? && VerifiedAttempt(a) { FollowUpAccepted(c, a); }
  }

  /** Only an answer about a publication can. */
  lemma OnlyAnswersReject(c: Core, a: Attempt)
    requires !a.Acknowledge? && !a.Resolve?
    ensures !Rejects(c, a)
  {
  }

  /** A call that leaves exactly what installing leaves. */
  predicate Settles(before: Core, a: Attempt, after: Core, r: Answer) {
    match Install(before, a)
    case Err(e) => r == Err(Ops.StateFailure(e)) && after == before
    case Ok(i) => r == Ok(Transition(i.core.state, i.effects)) && after == i.core
  }

  lemma InstallNeedsApply(c: Core, a: Attempt)
    ensures Install(c, a).Ok? <==> Apply(c.state, a).Ok?
    ensures Install(c, a).Err? ==> Install(c, a).error == Apply(c.state, a).error
  {
    hide Apply;
  }

  /** Direct transitions change the state alone, and closing empties everything but the operation fence. */
  lemma DirectIsExact(c: Core, a: Attempt)
    requires Agrees(c) && Direct(a)
    ensures Install(c, a).Ok? <==> Apply(c.state, a).Ok?
    ensures Apply(c.state, a).Ok? ==>
              var t := Apply(c.state, a).value;
              && Install(c, a).value.effects == t.effects
              && Install(c, a).value.core == if a.Close?
                 then EMPTY.(state := INITIAL.(lastOperation := c.state.lastOperation), generation := c.generation)
                 else c.(state := t.state)
    ensures Apply(c.state, a).Ok? && a.Close? ==> Apply(c.state, a).value.state == INITIAL.(lastOperation := c.state.lastOperation)
  {
    hide OwnPermissions, RightsOf, BitsOf, Coherent, CandidateFits, UnlockedAgrees, PendingAgrees;
  }

  lemma EditorHasData(c: Core)
    requires Agrees(c) && c.state.screen == Unlocked
    ensures c.unlocked.Some?
  {
    hide CandidateFits, OwnPermissions, RightsOf, BitsOf, Coherent;
  }

  lemma SubmittedAgrees(hash: Hash, c: Core, text: Bytes)
    requires Agrees(c) && Faithful(hash, c) && c.unlocked.Some?
    ensures Agrees(Submitted(c, text)) && Faithful(hash, Submitted(c, text))
  {
    hide OwnPermissions, RightsOf, BitsOf, Coherent, OpenedFrom, Images.WellStructured, Consistent;
  }

  /** A pending activity without an outcome waits exactly in the phase that takes one. */
  lemma CompletionIsDue(c: Core, id: nat, succeeded: bool)
    requires Agrees(c) && c.pending.Some? && c.pending.value.operation == id && c.pending.value.succeeded.None?
    ensures Apply(c.state, CompleteHostAction(id, succeeded)).Ok?
    ensures Install(c, CompleteHostAction(id, succeeded)).Ok?
    ensures Install(c, CompleteHostAction(id, succeeded)).value.effects
            == [Effect(if succeeded then RecordSuccess else RecordFailure, id), Effect(JournalActivityOutcome, id)]
  {
    hide CandidateFits, OwnPermissions, RightsOf, BitsOf, Coherent, UnlockedAgrees;
  }

  lemma RestorationIsDue(c: Core, id: nat, backup: bool)
    requires RestoreGuard(c)
    ensures Apply(c.state, RestoreActivity(id, AttemptPurposeOf(backup))).Ok? <==> id > c.state.lastOperation
    ensures Apply(c.state, RestoreActivity(id, AttemptPurposeOf(backup))).Ok? ==>
              Apply(c.state, RestoreActivity(id, AttemptPurposeOf(backup))).value.state ==
              c.state.(phase := OutcomePending, operation := Some(id), lastOperation := id,
                       purpose := Some(AttemptPurposeOf(backup)))
              && Install(c, RestoreActivity(id, AttemptPurposeOf(backup))).Ok?
              && Install(c, RestoreActivity(id, AttemptPurposeOf(backup))).value.core.state
                 == Apply(c.state, RestoreActivity(id, AttemptPurposeOf(backup))).value.state
  {
  }

  lemma PendingIsFaithful(hash: Hash, a: Core, b: Core)
    requires Faithful(hash, a) && b == a.(pending := b.pending)
    ensures Faithful(hash, b)
  {
    hide OpenedFrom, FaithfulCandidate, Images.WellStructured;
  }

  /** A graph a save may write still carries the slots it was given. */
  lemma SavedPayload(hash: Hash, g: Graphs.Graph, s: Saves.SaveRequest)
    requires Records.Injective(hash) && Graphs.Decodable(hash, g, Records.DEFAULT_LIMITS)
    requires Saves.SaveAllowed(g, s) && Saves.SaveFits(g, s)
    ensures Graphs.HasProvisional(g) ==> g.records[|g.records| - 1].imm.previous.Some?
                                         && g.records[|g.records| - 1].imm.contentParent.Some?
    ensures Graphs.Decodable(hash, Saves.SavedGraph(hash, g, s), Records.DEFAULT_LIMITS)
    ensures Saves.SavedGraph(hash, g, s).slots == g.slots
  {
    hide Graphs.Decodable, Saves.SaveAllowed, Saves.SaveFits, Saves.Reseals, Saves.NewRevision;
    Saves.SaveCloses(hash, g, s);
  }

  lemma ReadyToSave(c: Core, id: nat, purpose: Purpose)
    requires Ready(c) && HoldsEdit(c) && Fresh(c, id)
    requires purpose == SaveKind || (purpose == Compacting && c.state.rights.add && c.state.rights.remove)
    ensures MayBegin(c.state, id, purpose)
  {
  }

  /** An event proposal fits, whatever the activity it belongs to. */
  lemma EventFitsState(hash: Hash, c: Core, id: nat, e: Events.EventRequest, password: Password, nonce: nat,
                       cand: Candidate, purpose: Purpose)
    requires Records.Injective(hash) && Agrees(c) && Faithful(hash, c) && c.candidate.None? && c.unlocked.Some?
    requires (AttemptGuard(c) && (purpose == BackupAttempt || purpose == ExportAttempt))
             || (OutcomeGuard(c) && purpose == ActivityOutcome)
    requires Fresh(c, id) && OpensOwn(hash, c, password) && c.committed.Some? && e.slots == c.unlocked.value.graph.slots
    requires Events.EventAllowed(c.unlocked.value.graph, e) && Events.EventFits(c.unlocked.value.graph, e)
    requires cand == EventProposal(hash, c, id, e, password, nonce)
                       .(activityBackup := if purpose == ActivityOutcome then None else Some(purpose == BackupAttempt))
    ensures MayBegin(c.state, id, purpose) && cand.operation == id
    ensures CandidateFits(c, cand, purpose) && FaithfulCandidate(hash, cand)
  {
    hide Faithful, Graphs.Decodable, Images.Unlocking, OpensOwn, Events.EventAllowed, Events.EventFits, CandidateFits,
         FaithfulCandidate, UnlockedAgrees, CandidateAgrees, PendingAgrees;
    ActorFits(hash, c);
    var g := c.unlocked.value.graph;
    Events.EventCloses(hash, g, e);
    PayloadFits(hash, c, cand, Events.EventGraph(hash, g, e), nonce, password, purpose);
  }

  /** The head of a pending attempt is the head of the committed image. */
  lemma PendingHead(c: Core)
    requires Agrees(c) && c.pending.Some?
    ensures c.committed.Some? && c.pending.value.head == c.committed.value.graph.head
  {
    hide CandidateFits, OwnPermissions, RightsOf, BitsOf, Coherent, UnlockedAgrees;
  }

  /** What the password opens again is what is open, up to rights. */
  lemma AuthenticatedAgain(hash: Hash, c: Core, password: Password)
    requires Faithful(hash, c) && c.unlocked.Some? && c.committed.Some? && OpensOwn(hash, c, password)
    ensures var o := Images.Unlocking(hash, c.committed.value, password);
            o.Some? && o.value.(permissions := 0) == c.unlocked.value.(permissions := 0)
            && o.value.graph == c.committed.value.graph
  {
    hide Graphs.Decodable, Images.Unlocking, Images.WrapperFits;
    UnlockedFrom(hash, c.committed.value, password);
  }

  lemma LeaseFitsState(hash: Hash, c: Core, id: nat, change: Leases.LeaseChange, password: Password, nonce: nat, cand: Candidate)
    requires Agrees(c) && Faithful(hash, c) && LeaseAccepted(hash, c, id, change, password)
    requires cand == LeaseProposal(hash, c, id, change, password, nonce)
    ensures MayBegin(c.state, id, LeaseChange) && cand.operation == id
    ensures CandidateFits(c, cand, LeaseChange) && FaithfulCandidate(hash, cand)
  {
    hide Faithful, Graphs.Decodable, Images.Unlocking, OpensOwn, CandidateFits, FaithfulCandidate, UnlockedAgrees,
         CandidateAgrees, PendingAgrees, Leases.LeaseAllowed, Leases.NextLease, Graphs.Allows;
    ActorFits(hash, c);
    var g := c.committed.value.graph;
    var next := Leases.NextLease(g.lease, change);
    Leases.NextLeaseGood(g.lease, change, StandingOf(c));
    Events.LeaseReplacementCloses(hash, g, next);
    PayloadFits(hash, c, cand, g.(lease := next), nonce, password, LeaseChange);
  }

  lemma EmptyOpensNothing(hash: Hash, c: Core, password: Password)
    requires c.unlocked.Some? && c.committed.Some?
    ensures password == [] ==> !OpensOwn(hash, c, password)
  {
    hide Graphs.Decodable;
  }

  /** A merged image opens to the same slot, with the merged graph. */
  lemma MergedOpens(hash: Hash, c: Core, replica: Image, targetPassword: Password, replicaPassword: Password,
                    v: Merging.Resolution, nonce: nat)
    requires Records.Injective(hash) && Faithful(hash, c) && c.unlocked.Some? && c.committed.Some?
    requires Merging.ReplicasMerge(hash, c.committed.value, replica, targetPassword, replicaPassword, v)
    ensures var image := Merging.MergedImage(hash, c.committed.value, replica, targetPassword, replicaPassword, v, nonce);
            && Graphs.Decodable(hash, image.graph, Records.DEFAULT_LIMITS)
            && image == Images.WithGraph(c.committed.value, image.graph, nonce)
            && image.graph.slots == c.committed.value.graph.slots
            && Images.Unlocking(hash, image, targetPassword).Some?
            && Images.Unlocking(hash, image, targetPassword).value.documentId == c.unlocked.value.documentId
            && (Images.Unlocking(hash, image, targetPassword).value.slot == c.unlocked.value.slot
                <==> OpensOwn(hash, c, targetPassword))
  {
    hide Graphs.Decodable, Images.Unlocking, Merging.GraphsMerge, MergeSpec.MergedGraph, Faithful;
    Merging.UnlockedDecodes(hash, c.committed.value, targetPassword);
    Merging.UnlockedDecodes(hash, replica, replicaPassword);
    var t := Images.Unlocking(hash, c.committed.value, targetPassword).value;
    var l := Images.Unlocking(hash, replica, replicaPassword).value;
    Merging.MergeDecodes(hash, l.graph, t.graph, Merging.RequestFor(t, v));
    PayloadOpens(hash, c, MergeSpec.MergedGraph(hash, l.graph, t.graph, Merging.RequestFor(t, v)), nonce, targetPassword);
  }

  lemma MergedFits(hash: Hash, c: Core, cand: Candidate, replica: Image, targetPassword: Password, replicaPassword: Password,
                   v: Merging.Resolution, nonce: nat)
    requires Records.Injective(hash) && Agrees(c) && Faithful(hash, c) && c.unlocked.Some? && c.committed.Some?
    requires c.state.target.None? && OpensOwn(hash, c, targetPassword)
    requires Merging.ReplicasMerge(hash, c.committed.value, replica, targetPassword, replicaPassword, v)
    requires cand.image == Merging.MergedImage(hash, c.committed.value, replica, targetPassword, replicaPassword, v, nonce)
    requires cand == Proposal(c, cand.operation, cand.image, Images.Unlocking(hash, cand.image, targetPassword))
    ensures CandidateFits(c, cand, SaveKind) && FaithfulCandidate(hash, cand)
  {
    hide Agrees, Faithful, Graphs.Decodable, Images.Unlocking, Merging.ReplicasMerge, Merging.MergedImage, OpensOwn,
         CandidateFits, FaithfulCandidate;
    ActorFits(hash, c);
    MergedOpens(hash, c, replica, targetPassword, replicaPassword, v, nonce);
    PayloadFits(hash, c, cand, cand.image.graph, nonce, targetPassword, SaveKind);
  }

  lemma SettledBy(c: Core, a: Attempt, after: Core, t: Transition)
    requires Install(c, a).Ok? && t == Transition(Install(c, a).value.core.state, Install(c, a).value.effects)
    requires after == Install(c, a).value.core
    ensures Settles(c, a, after, Ok(t))
  {
    hide Install;
  }

  /** Wrappers and slots are of one length on both sides. */
  lemma SameLengths(hash: Hash, c: Core, image: Image, o: Opened)
    requires Faithful(hash, c) && c.unlocked.Some? && OpenedFrom(hash, image, o)
    ensures c.committed.Some? && |c.committed.value.wrappers| == |c.unlocked.value.graph.slots|
    ensures |image.wrappers| == |o.graph.slots|
  {
    hide Graphs.Decodable, Images.WellStructured;
    OwnSlotFits(hash, c);
    FaithfulDecodes(hash, image, o);
  }

  lemma TargetIsDue(c: Core, rights: Rights, wrapperChanged: bool)
    requires TargetGuard(c)
    ensures Apply(c.state, ApplyTarget(rights, wrapperChanged)).Ok? <==> Coherent(rights)
  {
  }

  lemma AdmittedFacts(hash: Hash, csv: Csv, c: Core, password: Password)
    requires UnlockAdmitted(hash, csv, c, password)
    ensures var o := Authenticated(hash, csv, c, password);
            && c.committed.Some? && c.state.screen == Locked && SameDocument(c, o)
            && OpenedFrom(hash, SourceImage(c), o) && o.permissions == OwnPermissions(o) && o.permissions <= 7
  {
    hide Images.Unlocking, OpenedFrom, SameDocument, OwnPermissions;
    UnlockedFrom(hash, SourceImage(c), password);
  }
}
