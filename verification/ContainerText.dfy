/** When a container holds the clear text of what it has open (src/container/container.cpp). */
module ContainerText {
  import opened Wrappers
  import opened TextValidation
  import opened ContainerState
  import opened ContainerCore
  import opened ContainerAgreement
  import opened Proposals
  import opened CredentialProposal
  import opened ContainerRequests
  import opened ContainerSteps
  import opened ContainerCalls
  import opened ContainerRuns
  import Images = Envelope
  import Records = RevisionRecords

  /** Open data, and a publication that may restore it, come with their text. */
  predicate TextKept(c: Core) {
    c.unlocked.Some? || c.candidate.Some? ==> c.content.Some?
  }

  /** Another slot's password, authenticated while a publication of the locked session is still unsettled. */
  ghost predicate Forgets(env: Env, c: Core, call: Call) {
    call.UnlockDocument? && OtherSlot(env, c, call.password) && c.candidate.Some?
  }

  /** Preparations change neither the open data nor, once the text is taken, the text. */
  lemma PreparationKeepsText(env: Env, c: Core, call: Call)
    requires Sound(env, c) && TextKept(c)
    ensures WithTakenText(env, c, call).content.Some? || WithTakenText(env, c, call) == c
    ensures Prepared(env, c, call).Some? ==> c.content.Some?
  {
    hide Sound, SubmitAccepted, OpensOwn;
    if Prepared(env, c, call).Some? { PreparedHasData(env, c, call); }
  }

  lemma PreparedHasData(env: Env, c: Core, call: Call)
    requires Sound(env, c) && Prepared(env, c, call).Some?
    ensures c.unlocked.Some?
  {
    hide Sound, SaveProposal, MergeProposal, CompactProposal, ChangeProposal, LeaseProposal, EventProposal, OpensOwn,
         SubmitAccepted, BackupProves, HeadText;
  }

  lemma UnlockTextKept(env: Env, c: Core, password: Password)
    requires Sound(env, c) && TextKept(c)
    ensures TextKept(AfterUnlock(env, c, password)) <==> !Forgets(env, c, UnlockDocument(password))
  {
    hide Sound, UnlockAdmitted, Authenticated, UnlockRefused, HeadText, UnlockedCore;
    UnlockText(env, c, password);
    if UnlockAdmitted(env.hash, env.csv, c, password) {
      RefusalIsExact(env, c, password);
      var o := Authenticated(env.hash, env.csv, c, password);
      if c.candidate.Some? { InFlightRefuses(env, c, o); }
      UnlockedShape(c, o, HeadText(o.graph));
      AdmittedCommitted(env, c, password);
    }
  }

  lemma AdmittedCommitted(env: Env, c: Core, password: Password)
    requires UnlockAdmitted(env.hash, env.csv, c, password)
    ensures c.committed.Some?
  {
    hide Images.Unlocking, HeadText;
  }

  lemma InFlightRefuses(env: Env, c: Core, o: Opened)
    requires Sound(env, c) && c.candidate.Some?
    ensures UnlockRefused(c, o)
  {
    hide Faithful, Records.Injective, OpenAgrees, UnlockedAgrees, PendingAgrees, CandidateFits, Coherent, RightsOf;
  }

  /** An accepted unlock leaves data open and touches no candidate. */
  lemma UnlockedShape(c: Core, o: Opened, text: Bytes)
    ensures UnlockedCore(c, o, text).Ok? ==>
              UnlockedCore(c, o, text).value.core.unlocked.Some?
              && UnlockedCore(c, o, text).value.core.candidate == c.candidate
  {
    hide Apply, BitsOf, RightsOf;
  }

  lemma TargetShape(env: Env, c: Core, image: Image, password: Password)
    requires Sound(env, c)
    ensures AfterTarget(env, c, image, password).candidate == c.candidate
    ensures AfterTarget(env, c, image, password).unlocked.Some? ==> c.unlocked.Some?
  {
    hide Sound, Apply, BitsOf, TargetAccepted, WrapperMoved, TargetRights, Images.Unlocking;
  }

  /** The text stays with the data through every call, but for exactly one kind. */
  lemma TextKeptUnlessForgotten(env: Env, c: Core, call: Call)
    requires Sound(env, c) && TextKept(c)
    ensures TextKept(Called(env, c, call)) <==> !Forgets(env, c, call)
  {
    hide Agrees, Faithful, Records.Injective, Prepared, AfterUnlock, AfterTarget, Answered, SubmitAccepted,
         Images.WellStructured, RestoreGuard, WithTakenText, Apply, HeadText, OtherSlot;
    match call
    case UnlockDocument(password) => UnlockTextKept(env, c, password);
    case ApplyTargetDocument(image, password) =>
      TargetKeepsSound(env, c, image, password);
      TargetShape(env, c, image, password);
    case AcknowledgeSave(id, outcome) => AnsweredFields(c, id, Acknowledge(id, outcome)); AnsweredCandidate(c, id, call);
    case ResolveSave(id, published) => AnsweredFields(c, id, Resolve(id, published)); AnsweredCandidate(c, id, call);
    case Request(a) =>
    case _ => PreparationKeepsText(env, c, call); TakenShape(env, c, call);
  }

  lemma TakenShape(env: Env, c: Core, call: Call)
    ensures var base := WithTakenText(env, c, call); base.unlocked == c.unlocked && base.candidate == c.candidate
  {
    hide MergeTakes;
  }

  /** An answer needs a candidate, and makes no new one. */
  lemma AnsweredCandidate(c: Core, id: nat, call: Call)
    requires (call.AcknowledgeSave? || call.ResolveSave?) && call.id == id
    ensures var a := if call.AcknowledgeSave? then Acknowledge(id, call.outcome) else Resolve(id, call.published);
            Answered(c, id, a).candidate.Some? ==> c.candidate.Some?
  {
    hide Apply, Followed, FollowUp;
  }

  // ---------- Runs ----------

  ghost predicate NeverForgets(env: Env, calls: seq<Call>)
    requires Records.Injective(env.hash)
  {
    forall n | 0 <= n < |calls| :: !Forgets(env, Reached(env, calls[..n]), calls[n])
  }

  /** Over every run without such a call, an unlocked screen has its text. */
  lemma {:induction false} RunsKeepText(env: Env, calls: seq<Call>)
    requires Records.Injective(env.hash) && NeverForgets(env, calls)
    ensures var c := Reached(env, calls); TextKept(c) && (c.state.screen == Unlocked ==> c.content.Some?)
  {
    hide Records.Injective, Called, Forgets;
    if calls != [] {
      var before := calls[..|calls| - 1];
      forall n | 0 <= n < |before| ensures !Forgets(env, Reached(env, before[..n]), before[n]) {
        assert before[..n] == calls[..n];
      }
      RunsKeepText(env, before);
      TextKeptUnlessForgotten(env, Reached(env, before), calls[|calls| - 1]);
    }
    UnlockedHasData(env, Reached(env, calls));
  }

  lemma UnlockedHasData(env: Env, c: Core)
    requires Sound(env, c)
    ensures c.state.screen == Unlocked ==> c.unlocked.Some?
  {
    hide Faithful, Records.Injective;
    if c.state.screen == Unlocked { EditorHasData(c); }
  }
}
