/** What every call, and every sequence of calls from a new container, keeps. */
module ContainerRuns {
  import opened Wrappers
  import opened TextValidation
  import opened ContainerState
  import opened ContainerCore
  import opened ContainerAgreement
  import opened Proposals
  import opened CredentialProposal
  import opened ContainerRequests
  import opened ContainerSteps
  import opened ContainerCalls
  import Graphs = RevisionGraph
  import Images = Envelope
  import Slots = PasswordSlots
  import Records = RevisionRecords

  // ---------- Soundness ----------

  lemma OpeningKeepsSound(env: Env, c: Core, image: Image)
    requires Sound(env, c)
    ensures Sound(env, Called(env, c, OpenDocument(image)))
  {
    hide Agrees, Faithful, Records.Injective, Images.WellStructured, Install;
    if c.state.access == Closed && Images.WellStructured(image) {
      OpenKeepsAgreement(c, image);
      OpeningIsFaithful(env.hash, c, image);
    }
  }

  lemma UnlockKeepsSound(env: Env, c: Core, password: Password)
    requires Sound(env, c)
    ensures Sound(env, AfterUnlock(env, c, password)) && AfterUnlock(env, c, password).committed == c.committed
  {
    hide Agrees, Faithful, Records.Injective, UnlockAdmitted, Authenticated, UnlockedCore, SameDocument, OwnPermissions,
         OpenedFrom, SourceImage;
    if UnlockAdmitted(env.hash, env.csv, c, password) {
      AdmittedFacts(env.hash, env.csv, c, password);
      var o := Authenticated(env.hash, env.csv, c, password);
      if UnlockedCore(c, o, HeadText(o.graph)).Ok? {
        UnlockKeepsAgreement(env.hash, c, o, HeadText(o.graph));
      } else if !Retained(c, o) {
        RefusedUnlock(env.hash, c, o);
      }
    }
  }

  lemma TargetKeepsSound(env: Env, c: Core, image: Image, password: Password)
    requires Sound(env, c)
    ensures Sound(env, AfterTarget(env, c, image, password))
    ensures AfterTarget(env, c, image, password).committed == c.committed
    ensures AfterTarget(env, c, image, password).content == c.content
  {
    hide Agrees, Faithful, Records.Injective, Images.Unlocking, Related, Coherent, TargetRights, WrapperMoved, Install, Apply;
    if TargetAccepted(env.hash, c, image, password) {
      var o := Images.Unlocking(env.hash, image, password).value;
      var rights, moved := TargetRights(c, o), WrapperMoved(env.hash, c, image, o, password);
      TargetIsDue(c, rights, moved);
      TargetKeepsAgreement(env.hash, c, image, rights, moved);
    }
  }

  lemma RequestKeepsSound(env: Env, c: Core, a: Attempt)
    requires Sound(env, c)
    ensures Sound(env, Requested(c, a))
  {
    hide Agrees, Faithful, Records.Injective, Install, Apply;
    if HostRequest(a) && Apply(c.state, a).Ok? {
      DirectIsExact(c, a);
      DirectKeepsAgreement(c, a);
      InstallKeepsFaithful(env.hash, c, a);
    }
  }

  lemma ConfirmKeepsSound(env: Env, c: Core)
    requires Sound(env, c)
    ensures Sound(env, AfterConfirm(c))
  {
    hide Agrees, Faithful, Records.Injective, Install;
    var a := AcquireEdit(Held);
    if Apply(c.state, a).Ok? {
      DirectIsExact(c, a);
      DirectKeepsAgreement(c, a);
      InstallKeepsFaithful(env.hash, c, a);
    }
  }

  lemma AnswerKeepsSound(env: Env, c: Core, id: nat, a: Attempt)
    requires Sound(env, c) && (a.Acknowledge? || a.Resolve?)
    ensures Sound(env, Answered(c, id, a))
  {
    hide Agrees, Faithful, Records.Injective, Install, Apply, VerifiedAttempt;
    if Install(c, a).Ok? {
      InstallNeedsApply(c, a);
      if VerifiedAttempt(a) { VerifiedKeepsAgreement(c, a); } else { OtherAnswersKeepAgreement(c, a); }
      InstallKeepsFaithful(env.hash, c, a);
    }
  }

  lemma CompletionKeepsSound(env: Env, c: Core, id: nat, succeeded: bool)
    requires Sound(env, c)
    ensures Sound(env, AfterCompletion(c, id, succeeded))
  {
    hide Agrees, Faithful, Records.Injective, Install, Apply;
    if c.pending.Some? && c.pending.value.operation == id && c.pending.value.succeeded.None? {
      var a := CompleteHostAction(id, succeeded);
      CompletionIsDue(c, id, succeeded);
      CompleteKeepsAgreement(c, id, succeeded);
      InstallKeepsFaithful(env.hash, c, a);
      PendingIsFaithful(env.hash, Install(c, a).value.core, AfterCompletion(c, id, succeeded));
    }
  }

  lemma RestoreKeepsSound(env: Env, c: Core, id: nat, head: int, backup: bool, succeeded: bool, observed: Image)
    requires Sound(env, c)
    ensures Sound(env, AfterRestore(c, id, head, backup, succeeded, observed))
  {
    hide Agrees, Faithful, Records.Injective, Install, Apply, Graphs.Decodable;
    if RestoreGuard(c) && Fresh(c, id) && AttemptIsLast(c, head, backup, observed) {
      var a := RestoreActivity(id, AttemptPurposeOf(backup));
      RestoreHasData(c);
      ActorFits(env.hash, c);
      RestorationIsDue(c, id, backup);
      RestoreKeepsAgreement(c, id, AttemptPurposeOf(backup), Pending(id, head, backup, Some(succeeded)));
      InstallKeepsFaithful(env.hash, c, a);
      PendingIsFaithful(env.hash, Install(c, a).value.core, AfterRestore(c, id, head, backup, succeeded, observed));
    }
  }

  lemma RestoreHasData(c: Core)
    requires RestoreGuard(c)
    ensures c.unlocked.Some?
  {
  }

  lemma PreparationKeepsSound(env: Env, c: Core, call: Call)
    requires Sound(env, c) && Prepared(env, c, call).Some?
    ensures Sound(env, Begun(WithTakenText(env, c, call), Prepared(env, c, call).value, PurposeOf(call)))
  {
    hide Agrees, Faithful, Records.Injective, Install, MayBegin, CandidateFits, FaithfulCandidate, Prepared, Begun, MergeTakes;
    PreparedFits(env, c, call);
    BeginSucceeds(env.hash, WithTakenText(env, c, call), Prepared(env, c, call).value, PurposeOf(call));
  }

  /** Every call, accepted or refused, leaves a container whose parts agree. */
  lemma CallKeepsSound(env: Env, c: Core, call: Call)
    requires Sound(env, c)
    ensures Sound(env, Called(env, c, call))
  {
    hide Sound, Prepared, AfterUnlock, AfterTarget, AfterConfirm, AfterCompletion, AfterRestore, Answered, Requested,
         WithTakenText, SubmitAccepted, Submitted, Images.WellStructured, Begun;
    match call
    case OpenDocument(image) => OpeningKeepsSound(env, c, image);
    case UnlockDocument(password) => UnlockKeepsSound(env, c, password);
    case ApplyTargetDocument(image, password) => TargetKeepsSound(env, c, image, password);
    case SubmitContent(text) => if SubmitAccepted(env.csv, c, text) { SubmissionKeepsSound(env, c, text); }
    case ConfirmEditLease => ConfirmKeepsSound(env, c);
    case CompleteActivity(id, succeeded) => CompletionKeepsSound(env, c, id, succeeded);
    case RestoreActivityOutcome(id, head, backup, succeeded, observed) =>
      RestoreKeepsSound(env, c, id, head, backup, succeeded, observed);
    case AcknowledgeSave(id, outcome) => AnswerKeepsSound(env, c, id, Acknowledge(id, outcome));
    case ResolveSave(id, published) => AnswerKeepsSound(env, c, id, Resolve(id, published));
    case Request(a) => RequestKeepsSound(env, c, a);
    case _ => {
      TakenIsSound(env, c, call);
      if Prepared(env, c, call).Some? { PreparationKeepsSound(env, c, call); }
    }
  }

  lemma SubmissionKeepsSound(env: Env, c: Core, text: Bytes)
    requires Sound(env, c) && SubmitAccepted(env.csv, c, text)
    ensures Sound(env, Submitted(c, text))
  {
    hide Agrees, Faithful, Records.Injective, Records.GoodWhole;
    SubmittedAgrees(env.hash, c, text);
  }

  // ---------- Runs ----------

  lemma EmptyIsSound(env: Env)
    requires Records.Injective(env.hash)
    ensures Sound(env, EMPTY)
  {
    EmptyAgrees();
  }

  /** What a new container holds after a sequence of calls. */
  ghost function Reached(env: Env, calls: seq<Call>): (c: Core)
    requires Records.Injective(env.hash)
    ensures Sound(env, c)
  {
    if calls == [] then EmptyIsSound(env); EMPTY
    else
      var before := Reached(env, calls[..|calls| - 1]);
      CallKeepsSound(env, before, calls[|calls| - 1]);
      Called(env, before, calls[|calls| - 1])
  }

  /**
   * Over every run: a candidate exists exactly while a publication is unsettled, with the state's
   * operation; a pending activity exactly while an outcome is owed, at the committed head; and the
   * open data is the committed image's.
   */
  lemma RunsKeepAgreement(env: Env, calls: seq<Call>)
    requires Records.Injective(env.hash)
    ensures var c := Reached(env, calls);
            && (c.candidate.Some? <==> c.state.phase in {Publishing, RecoveryRequired})
            && (c.candidate.Some? ==> c.state.operation == Some(c.candidate.value.operation))
            && (c.pending.Some? ==> c.committed.Some? && c.pending.value.head == c.committed.value.graph.head)
            && (c.unlocked.Some? ==> c.committed.Some? && c.unlocked.value.graph == c.committed.value.graph)
            && (c.state.access == ContainerState.Opened <==> c.committed.Some?)
  {
    hide Called, Faithful, Consistent, CandidateFits, OwnPermissions, Records.Injective, Reached;
    assert Sound(env, Reached(env, calls));
  }

  // ---------- The committed image ----------

  predicate Settling(c: Core, id: nat, phase: Phase) {
    c.candidate.Some? && c.candidate.value.operation == id && c.state.phase == phase
  }

  /** The committed image after a call, read off the container before it. */
  ghost function CommittedAfter(env: Env, c: Core, call: Call): Option<Image> {
    match call
    case OpenDocument(image) =>
      if c.state.access == Closed && Images.WellStructured(image) then Some(image) else c.committed
    case Request(a) =>
      if a.Close? && c.state.access == ContainerState.Opened && c.state.phase != Publishing && c.state.phase != AwaitingHostAction
      then None else c.committed
    case AcknowledgeSave(id, outcome) =>
      if outcome == Verified && Settling(c, id, Publishing) then Some(c.candidate.value.image) else c.committed
    case ResolveSave(id, published) =>
      if published && Settling(c, id, RecoveryRequired) then Some(c.candidate.value.image) else c.committed
    case _ => c.committed
  }

  lemma AnswerAccepted(c: Core, a: Attempt)
    requires Agrees(c) && c.candidate.Some? && (a.Acknowledge? || a.Resolve?) && a.operation == c.candidate.value.operation
    ensures Install(c, a).Ok? <==> c.state.phase == if a.Acknowledge? then Publishing else RecoveryRequired
  {
    hide OpenAgrees, UnlockedAgrees, PendingAgrees, CandidateFits, Consistent;
    InstallNeedsApply(c, a);
  }

  /** What an answer for the candidate in flight leaves, field by field of interest. */
  lemma AnsweredFields(c: Core, id: nat, a: Attempt)
    requires Agrees(c) && (a.Acknowledge? || a.Resolve?) && a.operation == id
    ensures var due := Settling(c, id, if a.Acknowledge? then Publishing else RecoveryRequired);
            var out := Answered(c, id, a);
            && (!due ==> out == c)
            && (due && !VerifiedAttempt(a) ==>
                  out.committed == c.committed && out.unlocked == c.unlocked && out.content == c.content)
            && (due && VerifiedAttempt(a) ==>
                  && out.committed == Some(c.candidate.value.image) && out.candidate.None?
                  && out.unlocked == (if c.candidate.value.removesActive then None else c.candidate.value.adopted)
                  && out.content == if c.candidate.value.discard && c.generation == c.candidate.value.generation
                                    then Some(c.candidate.value.discardedContent) else c.content)
  {
    hide Agrees, Apply, Followed, FollowUp, BitsOf;
    if c.candidate.Some? && c.candidate.value.operation == id {
      AnswerAccepted(c, a);
      if Install(c, a).Ok? {
        InstallNeedsApply(c, a);
        if VerifiedAttempt(a) { SettlesAnew(c, a); }
      }
    }
  }

  lemma SettlesAnew(c: Core, a: Attempt)
    requires Agrees(c) && VerifiedAttempt(a) && Apply(c.state, a).Ok?
    ensures Apply(c.state, a).value.state != c.state
  {
    hide Agrees, Apply;
    VerifiedState(c, a);
    VerifiedPhase(c, a);
  }

  lemma VerifiedPhase(c: Core, a: Attempt)
    requires VerifiedAttempt(a) && Apply(c.state, a).Ok?
    ensures c.state.phase in {Publishing, RecoveryRequired}
  {
  }

  /** The committed image changes only on opening, on closing, and to the exact image of a verified candidate. */
  lemma CommittedChanges(env: Env, c: Core, call: Call)
    requires Sound(env, c)
    ensures Called(env, c, call).committed == CommittedAfter(env, c, call)
  {
    hide Agrees, Faithful, Records.Injective, Prepared, AfterUnlock, AfterTarget, Answered, SubmitAccepted, Images.WellStructured,
         Settling, RestoreGuard, MergeTakes, Apply;
    match call
    case UnlockDocument(password) => UnlockKeepsSound(env, c, password);
    case ApplyTargetDocument(image, password) => TargetKeepsSound(env, c, image, password);
    case AcknowledgeSave(id, outcome) => AnsweredFields(c, id, Acknowledge(id, outcome));
    case ResolveSave(id, published) => AnsweredFields(c, id, Resolve(id, published));
    case Request(a) => CloseAccepted(c.state, a);
    case _ =>
  }

  lemma CloseAccepted(s: State, a: Attempt)
    ensures a.Close? ==>
              (Apply(s, a).Ok? <==> s.access == ContainerState.Opened && s.phase != Publishing && s.phase != AwaitingHostAction)
  {
  }

  // ---------- Unlocking that is refused ----------

  /** The only guards of the state that an admitted unlock can still fail. */
  predicate UnlockRefused(c: Core, o: Opened) {
    c.state.phase != Idle || !Coherent(RightsOf(o.permissions))
  }

  /** An admitted unlock is refused exactly while something is in flight or for incoherent rights, never by the target. */
  lemma RefusalIsExact(env: Env, c: Core, password: Password)
    requires Sound(env, c) && UnlockAdmitted(env.hash, env.csv, c, password)
    ensures var o := Authenticated(env.hash, env.csv, c, password);
            UnlockedCore(c, o, HeadText(o.graph)).Err? <==> UnlockRefused(c, o)
  {
    hide Faithful, Records.Injective, Images.Unlocking, HeadText, UnlockedAgrees, CandidateAgrees, PendingAgrees,
         Consistent, Install;
    var o := Authenticated(env.hash, env.csv, c, password);
    InstallNeedsApply(WithDecoded(c, o, HeadText(o.graph)), UnlockRequest(c, o));
    if c.state.target.Some? { TargetCoherent(c, o); }
  }

  lemma TargetCoherent(c: Core, o: Opened)
    requires Agrees(c) && c.state.target.Some? && SameDocument(c, o)
    ensures c.target.Some? && o.slot == c.state.target.value.slot
    ensures Coherent(RightsOf(o.permissions))
  {
    hide UnlockedAgrees, CandidateAgrees, PendingAgrees;
  }

  // ---------- The submitted text ----------

  /** A verified discard that nothing newer was submitted after. */
  predicate Discards(c: Core) {
    c.candidate.Some? && c.candidate.value.discard && c.generation == c.candidate.value.generation
  }

  /** An authenticated password of a slot whose text is not the one held. */
  ghost predicate OtherSlot(env: Env, c: Core, password: Password) {
    UnlockAdmitted(env.hash, env.csv, c, password) && !Retained(c, Authenticated(env.hash, env.csv, c, password))
  }

  /** The text a container holds after a call, read off the container before it. */
  ghost function TextAfter(env: Env, c: Core, call: Call): Option<Bytes> {
    match call
    case Request(a) =>
      if a.Close? && c.state.access == ContainerState.Opened && c.state.phase != Publishing && c.state.phase != AwaitingHostAction
      then None else c.content
    case SubmitContent(text) => if SubmitAccepted(env.csv, c, text) then Some(text) else c.content
    case PrepareMerge(_, _, _, _, v, _) => if MergeTakes(env, c, call) then Some(v.content) else c.content
    case AcknowledgeSave(id, outcome) =>
      if outcome == Verified && Settling(c, id, Publishing) && Discards(c)
      then Some(HeadText(c.candidate.value.image.graph)) else c.content
    case ResolveSave(id, published) =>
      if published && Settling(c, id, RecoveryRequired) && Discards(c)
      then Some(HeadText(c.candidate.value.image.graph)) else c.content
    case UnlockDocument(password) =>
      if !OtherSlot(env, c, password) then c.content
      else if UnlockRefused(c, Authenticated(env.hash, env.csv, c, password)) then None
      else if c.committed.Some? then Some(HeadText(c.committed.value.graph)) else c.content
    case _ => c.content
  }

  lemma UnlockText(env: Env, c: Core, password: Password)
    requires Sound(env, c)
    ensures AfterUnlock(env, c, password).content == TextAfter(env, c, UnlockDocument(password))
  {
    hide Agrees, Faithful, Records.Injective, UnlockAdmitted, Authenticated, UnlockRefused, HeadText, SameDocument, OwnPermissions,
         OpenedFrom, UnlockedCore;
    if UnlockAdmitted(env.hash, env.csv, c, password) {
      AdmittedFacts(env.hash, env.csv, c, password);
      RefusalIsExact(env, c, password);
      var o := Authenticated(env.hash, env.csv, c, password);
      UnlockedText(c, o, HeadText(o.graph));
      if !Retained(c, o) {
        if c.target.Some? { TargetRetains(c, o); }
        FaithfulDecodes(env.hash, SourceImage(c), o);
      }
    }
  }

  lemma UnlockedText(c: Core, o: Opened, text: Bytes)
    ensures UnlockedCore(c, o, text).Ok? ==>
              UnlockedCore(c, o, text).value.core.content == if Retained(c, o) then c.content else Some(text)
  {
    hide Apply, BitsOf, RightsOf;
  }

  /**
   * The text held changes only by a close, by taking new text, by a verified discard nothing newer was
   * submitted after, and by another slot's password: to the committed text, or to none if refused.
   */
  lemma TextChanges(env: Env, c: Core, call: Call)
    requires Sound(env, c)
    ensures Called(env, c, call).content == TextAfter(env, c, call)
  {
    hide Agrees, Records.Injective, Prepared, AfterUnlock, AfterTarget, Answered, SubmitAccepted, Images.WellStructured,
         RestoreGuard, MergeGuard, Apply, HeadText, UnlockAdmitted, OpenedFrom;
    match call
    case UnlockDocument(password) => UnlockText(env, c, password);
    case ApplyTargetDocument(image, password) => TargetKeepsSound(env, c, image, password);
    case AcknowledgeSave(id, outcome) => AnsweredFields(c, id, Acknowledge(id, outcome));
    case ResolveSave(id, published) => AnsweredFields(c, id, Resolve(id, published));
    case Request(a) => CloseAccepted(c.state, a);
    case _ =>
  }
}
