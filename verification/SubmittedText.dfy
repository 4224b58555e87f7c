/** Text submitted while a discard is being published (src/container/container.cpp, submit_content and install_transition). */
module SubmittedText {
  import opened Wrappers
  import opened TextValidation
  import opened ContainerState
  import opened ContainerCore
  import opened ContainerAgreement
  import opened Proposals
  import opened CredentialProposal
  import opened ContainerRequests
  import opened ContainerSteps
  import opened ContainerCalls
  import opened ContainerRuns
  import opened ContainerText
  import Images = Envelope
  import Records = RevisionRecords

  /** A proposal was made from no later text than is held. */
  predicate MadeBefore(c: Core) {
    c.candidate.Some? ==> c.candidate.value.generation <= c.generation
  }

  /** What is in flight cannot take the text away: it discards nothing, or the text is newer. */
  predicate TextIsSafe(c: Core) {
    c.candidate.Some? ==> !c.candidate.value.discard || c.candidate.value.generation < c.generation
  }

  lemma PreparedGeneration(env: Env, c: Core, call: Call)
    requires Sound(env, c) && Prepared(env, c, call).Some?
    ensures var cand := Prepared(env, c, call).value;
            && cand.generation == WithTakenText(env, c, call).generation
            && (cand.discard <==> call.PrepareSave? && call.save.discard)
  {
    hide Agrees, Faithful, Records.Injective, OpensOwn, HeadText, BackupProves, SubmitAccepted, MergeGuard, Fitting;
    if call.PrepareMerge? { MergePrepared(env, c, call); }
  }

  lemma AnsweredKeepsGeneration(c: Core, id: nat, a: Attempt)
    requires (a.Acknowledge? || a.Resolve?) && a.operation == id
    ensures var out := Answered(c, id, a);
            out.generation == c.generation && (out.candidate.None? || out.candidate == c.candidate)
  {
    hide Apply, Followed, FollowUp, BitsOf;
  }

  lemma UnlockKeepsGeneration(env: Env, c: Core, password: Password)
    ensures var out := AfterUnlock(env, c, password); out.generation == c.generation && out.candidate == c.candidate
  {
    hide UnlockAdmitted, Authenticated, Apply, BitsOf, RightsOf, HeadText;
  }

  lemma TargetKeepsGeneration(env: Env, c: Core, image: Image, password: Password)
    ensures var out := AfterTarget(env, c, image, password); out.generation == c.generation && out.candidate == c.candidate
  {
    hide TargetAccepted, Apply, BitsOf, WrapperMoved, TargetRights, Images.Unlocking;
  }

  /** A call that neither takes text, nor opens or closes anything, nor asks for a discard. */
  predicate Harmless(call: Call) {
    match call
    case OpenDocument(_) => false
    case UnlockDocument(_) => false
    case SubmitContent(_) => false
    case PrepareMerge(_, _, _, _, _, _) => false
    case PrepareSave(_, v, _, _) => !v.discard
    case Request(a) => !a.Close?
    case _ => true
  }

  /** Every call keeps proposals no newer than the text; a harmless one keeps safe text safe. */
  lemma CallKeepsGenerations(env: Env, c: Core, call: Call)
    requires Sound(env, c) && MadeBefore(c)
    ensures MadeBefore(Called(env, c, call))
    ensures TextIsSafe(c) && Harmless(call) ==> TextIsSafe(Called(env, c, call))
    ensures call.SubmitContent? && SubmitAccepted(env.csv, c, call.text) ==> TextIsSafe(Called(env, c, call))
  {
    hide Sound, Prepared, AfterUnlock, AfterTarget, Answered, SubmitAccepted, Images.WellStructured, RestoreGuard, MergeTakes,
         Apply, WithTakenText;
    match call
    case UnlockDocument(password) => UnlockKeepsGeneration(env, c, password);
    case ApplyTargetDocument(image, password) => TargetKeepsGeneration(env, c, image, password);
    case AcknowledgeSave(id, outcome) => AnsweredKeepsGeneration(c, id, Acknowledge(id, outcome));
    case ResolveSave(id, published) => AnsweredKeepsGeneration(c, id, Resolve(id, published));
    case Request(a) =>
    case OpenDocument(_) =>
    case SubmitContent(_) =>
    case ConfirmEditLease =>
    case CompleteActivity(_, _) =>
    case RestoreActivityOutcome(_, _, _, _, _) =>
    case _ =>
      TakenGeneration(env, c, call);
      if Prepared(env, c, call).Some? { PreparedGeneration(env, c, call); }
  }

  lemma TakenGeneration(env: Env, c: Core, call: Call)
    ensures var base := WithTakenText(env, c, call);
            base.candidate == c.candidate && base.generation >= c.generation && (!call.PrepareMerge? ==> base == c)
  {
    hide SubmitAccepted, MergeGuard;
  }

  lemma {:induction false} RunsKeepGenerations(env: Env, calls: seq<Call>)
    requires Records.Injective(env.hash)
    ensures MadeBefore(Reached(env, calls))
  {
    hide Records.Injective, Called, MadeBefore, TextIsSafe;
    if calls == [] {
      NothingMade();
    } else {
      RunsKeepGenerations(env, calls[..|calls| - 1]);
      CallKeepsGenerations(env, Reached(env, calls[..|calls| - 1]), calls[|calls| - 1]);
    }
  }

  lemma NothingMade()
    ensures MadeBefore(EMPTY)
  {
  }

  /** A call that is harmless to safe text keeps it. */
  lemma SafeTextStays(env: Env, c: Core, call: Call)
    requires Sound(env, c) && TextIsSafe(c) && Harmless(call)
    ensures Called(env, c, call).content == c.content
  {
    hide Sound, Called, SubmitAccepted, HeadText;
    TextChanges(env, c, call);
  }

  /**
   * Text that was submitted while anything, a discard included, was being published is there until more text is taken,
   * a slot is unlocked, the container is closed, or another discard is asked for, however the publication ends.
   */
  lemma {:induction false} SubmittedTextStays(env: Env, calls: seq<Call>, m: nat, n: nat)
    requires Records.Injective(env.hash) && m < n <= |calls|
    requires calls[m].SubmitContent? && SubmitAccepted(env.csv, Reached(env, calls[..m]), calls[m].text)
    requires forall i | m < i < n :: Harmless(calls[i])
    ensures Reached(env, calls[..n]).content == Some(calls[m].text) && TextIsSafe(Reached(env, calls[..n]))
    decreases n
  {
    hide Records.Injective, Called, MadeBefore, TextIsSafe, Harmless, SubmitAccepted;
    var before := Reached(env, calls[..n - 1]);
    assert calls[..n][..n - 1] == calls[..n - 1];
    RunsKeepGenerations(env, calls[..n - 1]);
    CallKeepsGenerations(env, before, calls[n - 1]);
    if m == n - 1 {
      SubmissionTakes(env, before, calls[m].text);
    } else {
      SubmittedTextStays(env, calls, m, n - 1);
      SafeTextStays(env, before, calls[n - 1]);
    }
  }

  lemma SubmissionTakes(env: Env, c: Core, text: Bytes)
    requires Sound(env, c) && SubmitAccepted(env.csv, c, text)
    ensures Called(env, c, SubmitContent(text)).content == Some(text)
  {
    hide Sound, Prepared, SubmitAccepted;
  }
}
