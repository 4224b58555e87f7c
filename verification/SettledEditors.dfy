/** Edit mode is never had by a slot whose password must be changed (src/container/container.cpp). */
module SettledEditors {
  import opened Wrappers
  import opened TextValidation
  import opened ContainerState
  import opened ContainerCore
  import opened ContainerAgreement
  import opened Proposals
  import opened CredentialProposal
  import opened ContainerRequests
  import opened ContainerSteps
  import opened ContainerCalls
  import opened ContainerRuns
  import opened ContainerText
  import Images = Envelope
  import Graphs = RevisionGraph
  import Ops = ImageOperations
  import Slots = PasswordSlots
  import Credentials = CredentialChange
  import Records = RevisionRecords
  import Saves = SaveContent
  import Events = AppendEvent
  import Cuts = Compaction
  import Merging = MergeSave
  import MergeSpec = MergeGraphs
  import Leases = LeaseProtocol
  import Authorities = ContainerAuthority

  /** Who edits need not change the password, and will not have to when what is in flight is adopted. */
  predicate Settled(c: Core) {
    && (c.state.edit == Editing ==> c.unlocked.Some? && !c.unlocked.value.mustBeChanged)
    && (c.candidate.Some? && !c.candidate.value.slotChange && (c.state.edit == Editing || c.candidate.value.leaseHeldAfter) ==>
          c.candidate.value.adopted.Some? && !c.candidate.value.adopted.value.mustBeChanged)
  }

  // ---------- Proposals ----------

  /** The image carries the committed wrappers and slots. */
  predicate SameSlots(c: Core, image: Image) {
    c.committed.Some? && image.wrappers == c.committed.value.wrappers && image.graph.slots == c.committed.value.graph.slots
  }

  lemma SaveSameSlots(env: Env, c: Core, call: Call)
    requires Sound(env, c) && call.PrepareSave? && PreparedSave(env, c, call).Some?
    ensures SameSlots(c, PreparedSave(env, c, call).value.image)
  {
    hide Agrees, Faithful, Records.Injective, OpensOwn, Saves.SaveAllowed, Saves.SaveFits, Saves.SavedGraph, Graphs.Decodable,
         HeadText, Images.Unlocking;
    ActorFits(env.hash, c);
    SavedPayload(env.hash, c.unlocked.value.graph, SaveOf(c.unlocked.value, c.content.value, call.save));
  }

  lemma MergeSameSlots(env: Env, c: Core, call: Call)
    requires Sound(env, c) && call.PrepareMerge? && PreparedMerge(env, c, call).Some?
    ensures SameSlots(c, PreparedMerge(env, c, call).value.image)
  {
    hide Agrees, Faithful, OpensOwn, SubmitAccepted, Merging.ReplicasMerge, Merging.MergedImage, Graphs.Decodable, Images.Unlocking;
    MergedOpens(env.hash, c, call.replica, call.password, call.replicaPassword, call.resolution, call.nonce);
  }

  lemma OtherSameSlots(env: Env, c: Core, call: Call)
    requires Sound(env, c) && Prepared(env, c, call).Some?
    requires call.PrepareCompaction? || call.PrepareLeaseChange? || call.PrepareActivityAttempt? || call.PrepareActivityOutcome?
    ensures SameSlots(c, Prepared(env, c, call).value.image)
  {
    hide Agrees, Faithful, Records.Injective, OpensOwn, Graphs.Decodable, Images.Unlocking, HeadText, BackupProves, Cuts.MayCompact,
         Leases.LeaseAllowed, Leases.NextLease, Events.EventAllowed, Events.EventFits, Events.EventRecord;
    if c.unlocked.Some? { ActorFits(env.hash, c); }
  }

  /** Every proposal but a credential change opens with the mark the open data has. */
  lemma PreparedKeepsMark(env: Env, c: Core, call: Call)
    requires Sound(env, c) && Prepared(env, c, call).Some? && !call.PrepareSlotChange? && c.state.screen == Unlocked
    ensures c.unlocked.Some?
    ensures var cand := Prepared(env, c, call).value;
            !cand.slotChange && cand.adopted.Some? && cand.adopted.value.mustBeChanged == c.unlocked.value.mustBeChanged
  {
    hide Agrees, Faithful, Records.Injective, PreparedSave, PreparedMerge, PreparedCompaction, PreparedLease, PreparedAttempt,
         PreparedOutcome, PreparedChange, SameSlots, Fitting, SubmitAccepted, MergeTakes;
    if call.PrepareSave? {
      SaveSameSlots(env, c, call);
    } else if call.PrepareMerge? {
      MergeSameSlots(env, c, call);
    } else {
      OtherSameSlots(env, c, call);
    }
    PreparedFits(env, c, call);
    SameMark(env, c, WithTakenText(env, c, call), Prepared(env, c, call).value, PurposeOf(call));
  }

  lemma SameMark(env: Env, c: Core, base: Core, cand: Candidate, purpose: Purpose)
    requires Sound(env, c) && c.state.screen == Unlocked && SameSlots(c, cand.image)
    requires base == c.(content := base.content, generation := base.generation)
    requires Fitting(env, base, cand, purpose) && purpose != SlotChange
    ensures c.unlocked.Some? && !cand.slotChange && cand.adopted.Some?
    ensures cand.adopted.value.mustBeChanged == c.unlocked.value.mustBeChanged
  {
    hide Agrees, Faithful, Images.WrapperFits, Images.WellStructured;
    OpenIsWhole(env.hash, c);
    OwnSlotFits(env.hash, c);
    ScreenHasSlot(c);
  }

  lemma ScreenHasSlot(c: Core)
    requires Agrees(c) && c.state.screen == Unlocked
    ensures c.unlocked.Some? && Some(c.unlocked.value.slot) == c.state.activeSlot
  {
  }

  // ---------- Calls ----------

  lemma PreparationKeepsSettled(env: Env, c: Core, call: Call)
    requires Sound(env, c) && Settled(c) && Prepared(env, c, call).Some?
    ensures Settled(Begun(WithTakenText(env, c, call), Prepared(env, c, call).value, PurposeOf(call)))
  {
    hide Agrees, Faithful, Records.Injective, Prepared, MergeTakes, SubmitAccepted, Fitting;
    EditingIsUnlocked(c);
    if !call.PrepareSlotChange? && c.state.screen == Unlocked { PreparedKeepsMark(env, c, call); }
    HeldNeedsNoChange(env, c, call);
    PreparedFits(env, c, call);
    FitMarks(env, WithTakenText(env, c, call), Prepared(env, c, call).value, PurposeOf(call));
  }

  lemma EditingIsUnlocked(c: Core)
    requires Agrees(c)
    ensures c.state.edit == Editing ==> c.state.screen == Unlocked
  {
  }

  lemma FitMarks(env: Env, c: Core, cand: Candidate, purpose: Purpose)
    requires Fitting(env, c, cand, purpose)
    ensures (cand.slotChange <==> purpose == SlotChange) && (cand.leaseHeldAfter ==> purpose == LeaseChange && c.state.screen == Unlocked)
  {
    hide Sound, FaithfulCandidate, MayBegin;
  }

  /** A lease is only taken by a slot that need not change its password. */
  lemma HeldNeedsNoChange(env: Env, c: Core, call: Call)
    requires Sound(env, c) && Prepared(env, c, call).Some?
    ensures call.PrepareLeaseChange? ==> c.unlocked.Some? && !c.unlocked.value.mustBeChanged
  {
    hide Agrees, Faithful, Records.Injective, OpensOwn, LeaseProposal, Leases.LeaseAllowed;
  }

  lemma AnswerKeepsSettled(env: Env, c: Core, id: nat, a: Attempt)
    requires Sound(env, c) && Settled(c) && (a.Acknowledge? || a.Resolve?) && a.operation == id
    ensures Settled(Answered(c, id, a))
  {
    hide Agrees, Faithful, Records.Injective, Apply, Followed, FollowUp, BitsOf, Taken;
    if c.candidate.Some? && c.candidate.value.operation == id && Install(c, a).Ok? {
      InstallNeedsApply(c, a);
      if VerifiedAttempt(a) { VerifiedKeepsSettled(c, a); } else { UnverifiedKeepsSettled(c, a); }
    }
  }

  lemma UnverifiedKeepsSettled(c: Core, a: Attempt)
    requires Agrees(c) && Settled(c) && (a.Acknowledge? || a.Resolve?) && !VerifiedAttempt(a) && Apply(c.state, a).Ok?
    ensures Install(c, a).Ok? && Settled(Install(c, a).value.core)
  {
    hide Agrees, Apply, BitsOf;
    OtherAnswerState(c, a);
  }

  lemma VerifiedKeepsSettled(c: Core, a: Attempt)
    requires Agrees(c) && Settled(c) && VerifiedAttempt(a) && Apply(c.state, a).Ok?
    ensures Install(c, a).Ok? && Settled(Install(c, a).value.core)
  {
    hide Agrees, Apply, BitsOf, RightsOf, FollowUp, Followed;
    VerifiedState(c, a);
    FollowUpAccepted(c, a);
    SettledEdit(c, a);
  }

  /** Who edits after a verified answer. */
  lemma SettledEdit(c: Core, a: Attempt)
    requires Agrees(c) && Settled(c) && VerifiedAttempt(a) && Apply(c.state, a).Ok? && c.candidate.Some?
    ensures var t := Followed(Apply(c.state, a).value.state, FollowUp(c.candidate.value)).state;
            t.edit == Editing ==> !c.candidate.value.removesActive && c.candidate.value.adopted.Some?
                                  && !c.candidate.value.adopted.value.mustBeChanged
    ensures Apply(c.state, a).value.state != c.state
  {
    hide UnlockedAgrees, OpenAgrees, PendingAgrees, Consistent, RightsOf, Coherent;
    VerifiedState(c, a);
    FollowUpAccepted(c, a);
    assert CandidateFits(c, c.candidate.value, c.state.purpose.value);
  }

  lemma UnlockKeepsSettled(env: Env, c: Core, password: Password)
    requires Sound(env, c) && Settled(c)
    ensures Settled(AfterUnlock(env, c, password))
  {
    hide Faithful, Records.Injective, UnlockAdmitted, Authenticated, BitsOf, RightsOf, HeadText, OpenAgrees, PendingAgrees, CandidateFits,
         Coherent;
    if UnlockAdmitted(env.hash, env.csv, c, password) { AdmittedLocked(env, c, password); }
  }

  lemma AdmittedLocked(env: Env, c: Core, password: Password)
    requires UnlockAdmitted(env.hash, env.csv, c, password)
    ensures c.state.screen == Locked
  {
    hide Images.Unlocking, HeadText, SameDocument;
  }

  lemma TargetKeepsSettled(env: Env, c: Core, image: Image, password: Password)
    requires Sound(env, c) && Settled(c)
    ensures Settled(AfterTarget(env, c, image, password))
  {
    hide Sound, TargetAccepted, BitsOf, WrapperMoved, TargetRights, Images.Unlocking, Coherent;
  }

  lemma RequestKeepsSettled(c: Core, a: Attempt)
    requires Settled(c)
    ensures Settled(Requested(c, a))
  {
  }

  lemma ConfirmKeepsSettled(c: Core)
    requires Agrees(c) && Settled(c)
    ensures Settled(AfterConfirm(c))
  {
    hide UnlockedIdle, OpenAgrees, PendingAgrees, CandidateFits, Consistent;
    if UnlockedIdle(c.state) { IdleHasNothing(c); }
  }

  lemma IdleHasNothing(c: Core)
    requires Agrees(c) && UnlockedIdle(c.state)
    ensures c.candidate.None? && c.unlocked.Some?
  {
  }

  lemma CallKeepsSettled(env: Env, c: Core, call: Call)
    requires Sound(env, c) && Settled(c)
    ensures Settled(Called(env, c, call))
  {
    hide Agrees, Faithful, Records.Injective, Prepared, AfterUnlock, AfterTarget, AfterConfirm, Answered, Requested, SubmitAccepted,
         Images.WellStructured, RestoreGuard, WithTakenText, Begun;
    match call
    case UnlockDocument(password) => UnlockKeepsSettled(env, c, password);
    case ApplyTargetDocument(image, password) => TargetKeepsSettled(env, c, image, password);
    case ConfirmEditLease => ConfirmKeepsSettled(c);
    case AcknowledgeSave(id, outcome) => AnswerKeepsSettled(env, c, id, Acknowledge(id, outcome));
    case ResolveSave(id, published) => AnswerKeepsSettled(env, c, id, Resolve(id, published));
    case Request(a) => RequestKeepsSettled(c, a);
    case OpenDocument(_) =>
    case SubmitContent(_) =>
    case CompleteActivity(_, _) =>
    case RestoreActivityOutcome(_, _, _, _, _) =>
    case _ =>
      TakenKeepsSettled(env, c, call);
      if Prepared(env, c, call).Some? { PreparationKeepsSettled(env, c, call); }
  }

  lemma TakenKeepsSettled(env: Env, c: Core, call: Call)
    requires Settled(c)
    ensures Settled(WithTakenText(env, c, call))
  {
    hide MergeTakes;
  }

  /** Over every run, whoever edits has a password that need not be changed. */
  lemma {:induction false} EditorsAreSettled(env: Env, calls: seq<Call>)
    requires Records.Injective(env.hash)
    ensures Settled(Reached(env, calls))
    ensures Reached(env, calls).state.edit == Editing ==>
              Reached(env, calls).unlocked.Some? && !Reached(env, calls).unlocked.value.mustBeChanged
  {
    hide Records.Injective, Called;
    if calls != [] {
      EditorsAreSettled(env, calls[..|calls| - 1]);
      CallKeepsSettled(env, Reached(env, calls[..|calls| - 1]), calls[|calls| - 1]);
    }
  }

  /** So nothing that takes edit mode is ever prepared for a slot that has yet to change its password. */
  lemma UnsettledPrepareNothing(env: Env, calls: seq<Call>, call: Call)
    requires Records.Injective(env.hash)
    requires var c := Reached(env, calls); c.unlocked.Some? && c.unlocked.value.mustBeChanged
    requires call.PrepareSave? || call.PrepareMerge? || call.PrepareCompaction? || call.PrepareLeaseChange? || call.PrepareActivityAttempt?
    ensures Prepared(env, Reached(env, calls), call).None?
  {
    hide Records.Injective, Reached, Called, Agrees, Faithful, OpensOwn, SubmitAccepted, Saves.SaveAllowed, Saves.SaveFits, BackupProves,
         HeadText, Merging.ReplicasMerge, Leases.LeaseAllowed, Events.EventAllowed, Events.EventFits;
    EditorsAreSettled(env, calls);
  }
}
