/**
 * What a container holds and what installing a transition does to it
 * (src/container/container.cpp, install_transition), with the agreement its parts keep.
 */
module ContainerCore {
  import opened Wrappers
  import opened TextValidation
  import opened ContainerState
  import Graphs = RevisionGraph
  import Images = Envelope
  import Slots = PasswordSlots
  import Runs = StateRuns
  import Records = RevisionRecords

  type Image = Images.Image
  type Opened = Images.Opened

  /** One exact proposal, kept until its publication is resolved. */
  datatype Candidate = Candidate(
    operation: nat, sourceHead: int, image: Image, adopted: Option<Opened>, generation: nat,
    discard: bool, removesActive: bool, slotChange: bool, leaseChange: bool, leaseHeldAfter: bool,
    activityBackup: Option<bool>, leaseSession: int, discardedContent: Bytes)

  /** A published attempt whose outcome the host still owes. */
  datatype Pending = Pending(operation: nat, head: int, backup: bool, succeeded: Option<bool>)

  datatype Core = Core(
    state: State, committed: Option<Image>, target: Option<Image>, documentId: Option<nat>,
    unlocked: Option<Opened>, content: Option<Bytes>, generation: nat,
    candidate: Option<Candidate>, pending: Option<Pending>, localSession: Option<int>)

  const EMPTY := Core(INITIAL, None, None, None, None, None, 0, None, None, None)

  // ---------- Permissions ----------

  function RightsOf(permissions: nat): Rights {
    Rights(Graphs.Allows(permissions, Graphs.EDIT), Graphs.Allows(permissions, Graphs.ADD),
           Graphs.Allows(permissions, Graphs.REMOVE))
  }

  function BitsOf(r: Rights): nat {
    (if r.edit then 1 else 0) + (if r.add then 2 else 0) + (if r.remove then 4 else 0)
  }

  lemma CoherentRights(p: nat)
    requires Slots.CoherentBits(p)
    ensures Coherent(RightsOf(p))
  {
  }

  /** The permissions the open graph gives the open slot, whatever overlay applies. */
  function OwnPermissions(o: Opened): nat {
    var k := Slots.IndexOf(o.graph.slots, o.slot, 0);
    if k < |o.graph.slots| then o.graph.slots[k].permissions else 0
  }

  // ---------- Installing ----------

  predicate VerifiedAttempt(a: Attempt) {
    (a.Acknowledge? && a.outcome == Verified) || (a.Resolve? && a.published)
  }

  predicate RejectedAttempt(a: Attempt) {
    (a.Acknowledge? && a.outcome == DefiniteFailure) || (a.Resolve? && !a.published)
  }

  /** The transition a verified candidate brings with it. */
  function FollowUp(c: Candidate): Option<Attempt> {
    if c.removesActive then Some(Lock)
    else if c.slotChange && c.adopted.Some?
    then Some(SlotRights(RightsOf(c.adopted.value.permissions), !c.adopted.value.mustBeChanged))
    else if c.leaseChange then Some(PublishedLease(c.leaseHeldAfter))
    else None
  }

  /** Taking over a verified candidate, before its follow-up. */
  function Adopted(c: Core, before: State, cand: Candidate): Core {
    c.(committed := Some(cand.image),
       unlocked := if cand.removesActive then None else cand.adopted,
       content := if cand.discard && c.generation == cand.generation then Some(cand.discardedContent) else c.content,
       candidate := None,
       pending := if cand.activityBackup.Some? && cand.adopted.Some?
                  then Some(Pending(if before.operation.Some? then before.operation.value else 0,
                                    cand.adopted.value.graph.head, cand.activityBackup.value, None))
                  else if before.purpose == Some(ActivityOutcome) then None else c.pending,
       localSession := if cand.removesActive || cand.slotChange || !cand.leaseChange then c.localSession
                       else if cand.leaseHeldAfter then Some(cand.leaseSession) else None)
  }

  /** The state after the follow-up, and the effects it adds. */
  function Followed(s: State, follow: Option<Attempt>): Transition {
    if follow.None? then Transition(s, [])
    else match Apply(s, follow.value)
      case Ok(t) => t
      case Err(_) => Transition(s, [])
  }

  function Overlay(c: Core, a: Attempt): Core {
    if c.unlocked.Some? && (a.Unlock? || a.ApplyTarget?)
    then c.(unlocked := Some(c.unlocked.value.(permissions := BitsOf(c.state.rights))))
    else c
  }

  function Cleared(c: Core, a: Attempt): Core {
    if a.Close?
    then Core(c.state, None, None, None, None, None, c.generation, None, None, None)
    else c
  }

  datatype Installed = Installed(core: Core, effects: seq<Effect>)

  /** What an answer about the publication does to the candidate, and the follow-up it brings. */
  function Taken(next: Core, before: State, a: Attempt): Installed {
    if next.candidate.Some? && VerifiedAttempt(a) then
      var follow := Followed(next.state, FollowUp(next.candidate.value));
      Installed(Adopted(next, before, next.candidate.value).(state := follow.state), follow.effects)
    else if next.candidate.Some? && RejectedAttempt(a) then Installed(next.(candidate := None), [])
    else Installed(next, [])
  }

  function Install(c: Core, a: Attempt): Result<Installed, StateError> {
    match Apply(c.state, a)
    case Err(e) => Err(e)
    case Ok(t) =>
      if t.state == c.state then Ok(Installed(c, t.effects))
      else
        var taken := Taken(c.(state := t.state), c.state, a);
        Ok(Installed(Cleared(Overlay(taken.core, a), a), t.effects + taken.effects))
  }

  // ---------- Agreement ----------

  /** The open data is what the committed image decodes to, for a slot with coherent permissions. */
  predicate UnlockedAgrees(c: Core) {
    && (c.unlocked.Some? ==>
          && c.committed.Some? && c.unlocked.value.graph == c.committed.value.graph
          && c.unlocked.value.documentId == c.committed.value.documentId
          && c.unlocked.value.contentType == c.committed.value.contentType
          && Slots.CoherentBits(OwnPermissions(c.unlocked.value)))
    && (c.state.screen == Unlocked ==> c.unlocked.Some? && Some(c.unlocked.value.slot) == c.state.activeSlot)
    && (c.state.screen == Unlocked && c.state.target.None? ==>
          c.unlocked.value.permissions == BitsOf(c.state.rights)
          && RightsOf(OwnPermissions(c.unlocked.value)) == c.state.rights)
  }

  /** A candidate fits the purpose it was begun for. */
  predicate CandidateFits(c: Core, cand: Candidate, purpose: Purpose) {
    && c.committed.Some? && c.state.target.None?
    && cand.image.documentId == c.committed.value.documentId
    && cand.image.contentType == c.committed.value.contentType
    && cand.sourceHead == c.committed.value.graph.head
    && (cand.slotChange <==> purpose == SlotChange) && (cand.leaseChange <==> purpose == LeaseChange)
    && (cand.activityBackup == if purpose == BackupAttempt then Some(true)
                               else if purpose == ExportAttempt then Some(false) else None)
    && (cand.removesActive ==> cand.slotChange)
    && (cand.leaseHeldAfter ==> c.state.screen == Unlocked && cand.leaseChange)
    && (!cand.removesActive ==>
          && cand.adopted.Some?
          && cand.adopted.value.graph == cand.image.graph
          && cand.adopted.value.documentId == cand.image.documentId
          && cand.adopted.value.contentType == cand.image.contentType
          && Slots.CoherentBits(OwnPermissions(cand.adopted.value))
          && cand.adopted.value.permissions == OwnPermissions(cand.adopted.value)
          && (c.state.screen == Unlocked ==>
                Some(cand.adopted.value.slot) == c.state.activeSlot
                && (!cand.slotChange ==> RightsOf(cand.adopted.value.permissions) == c.state.rights)))
  }

  predicate CandidateAgrees(c: Core) {
    && (c.candidate.Some? <==> c.state.phase in {Publishing, RecoveryRequired})
    && (c.candidate.Some? ==>
          Some(c.candidate.value.operation) == c.state.operation && c.state.purpose.Some?
          && CandidateFits(c, c.candidate.value, c.state.purpose.value))
  }

  predicate PendingAgrees(c: Core) {
    && (c.pending.Some? <==> Runs.Owed(c.state))
    && (c.pending.Some? ==>
          && c.committed.Some? && c.pending.value.head == c.committed.value.graph.head
          && (c.pending.value.succeeded.None? <==> c.state.phase == AwaitingHostAction)
          && (c.state.phase == AwaitingHostAction ==> Some(c.pending.value.operation) == c.state.operation))
  }

  predicate OpenAgrees(c: Core) {
    && (c.state.access == ContainerState.Opened <==> c.committed.Some?)
    && (c.committed.None? ==> c.target.None? && c.documentId.None? && c.unlocked.None? && c.content.None?
                              && c.candidate.None? && c.pending.None? && c.localSession.None?)
    && (c.target.Some? <==> c.state.target.Some?)
    && (c.documentId.Some? ==> c.documentId.value == c.committed.value.documentId)
    && (c.state.target.Some? ==> c.unlocked.Some? && c.unlocked.value.slot == c.state.target.value.slot)
  }

  /** Everything a container keeps between calls. */
  predicate Agrees(c: Core) {
    Consistent(c.state) && OpenAgrees(c) && UnlockedAgrees(c) && CandidateAgrees(c) && PendingAgrees(c)
  }

  lemma EmptyAgrees()
    ensures Agrees(EMPTY)
  {
  }

  // ---------- Settling a publication ----------

  /** The state right after a verified settlement: idle, or waiting for the host action. */
  lemma VerifiedState(c: Core, a: Attempt)
    requires Agrees(c) && VerifiedAttempt(a) && Apply(c.state, a).Ok?
    ensures var t := Apply(c.state, a).value.state;
            && c.candidate.Some? && c.state.purpose.Some?
            && (if AttemptPurpose(c.state.purpose.value) then t == c.state.(phase := AwaitingHostAction)
                else t == ClearPublication(c.state))
  {
    hide UnlockedAgrees, OpenAgrees, PendingAgrees, CandidateFits;
  }

  /** Inside a verified settlement the follow-up transition is never rejected. */
  lemma FollowUpAccepted(c: Core, a: Attempt)
    requires Agrees(c) && VerifiedAttempt(a) && Apply(c.state, a).Ok?
    ensures c.candidate.Some?
    ensures var f := FollowUp(c.candidate.value);
            f.Some? ==> Apply(Apply(c.state, a).value.state, f.value).Ok?
  {
    hide UnlockedAgrees, OpenAgrees, PendingAgrees;
    VerifiedState(c, a);
    var cand := c.candidate.value;
    if !cand.removesActive && cand.slotChange { CoherentRights(cand.adopted.value.permissions); }
  }

  /** The state after settlement and follow-up. */
  lemma SettledState(c: Core, a: Attempt)
    requires Agrees(c) && VerifiedAttempt(a) && Apply(c.state, a).Ok?
    ensures var t := Apply(c.state, a).value.state;
            var f := Followed(t, FollowUp(c.candidate.value)).state;
            && Consistent(f) && f.phase == t.phase && f.operation == t.operation && f.purpose == t.purpose
            && f.access == ContainerState.Opened && f.target == None
            && (c.candidate.value.removesActive ==> f.screen == Locked)
            && (!c.candidate.value.removesActive ==> f.screen == c.state.screen && f.activeSlot == c.state.activeSlot)
            && (f.screen == Unlocked ==>
                  f.rights == if c.candidate.value.slotChange then RightsOf(c.candidate.value.adopted.value.permissions)
                              else c.state.rights)
  {
    hide UnlockedAgrees, OpenAgrees, PendingAgrees;
    VerifiedState(c, a);
    FollowUpAccepted(c, a);
    ApplyKeepsConsistent(c.state, a);
    var t := Apply(c.state, a).value.state;
    var f := FollowUp(c.candidate.value);
    if f.Some? { ApplyKeepsConsistent(t, f.value); }
  }

  lemma BitsRoundTrip(p: nat)
    requires p <= 7
    ensures BitsOf(RightsOf(p)) == p
  {
  }

  lemma SettleUnlocked(c: Core, a: Attempt)
    requires Agrees(c) && VerifiedAttempt(a) && Apply(c.state, a).Ok?
    ensures Install(c, a).Ok? && UnlockedAgrees(Install(c, a).value.core)
  {
    hide Consistent, Apply, PendingAgrees, OwnPermissions, RightsOf, BitsOf;
    VerifiedState(c, a);
    SettledState(c, a);
    var cand := c.candidate.value;
    assert CandidateFits(c, cand, c.state.purpose.value);
    if !cand.removesActive {
      BitsRoundTrip(cand.adopted.value.permissions);
    }
  }

  lemma SettlePending(c: Core, a: Attempt)
    requires Agrees(c) && VerifiedAttempt(a) && Apply(c.state, a).Ok?
    ensures Install(c, a).Ok? && PendingAgrees(Install(c, a).value.core)
  {
    hide Apply, UnlockedAgrees, OwnPermissions, RightsOf, BitsOf, Coherent;
    VerifiedState(c, a);
    SettledState(c, a);
    assert CandidateFits(c, c.candidate.value, c.state.purpose.value);
  }

  lemma SettleOpen(c: Core, a: Attempt)
    requires Agrees(c) && VerifiedAttempt(a) && Apply(c.state, a).Ok?
    ensures Install(c, a).Ok? && OpenAgrees(Install(c, a).value.core) && CandidateAgrees(Install(c, a).value.core)
    ensures Consistent(Install(c, a).value.core.state)
  {
    hide Apply, UnlockedAgrees, OwnPermissions, RightsOf, BitsOf, Coherent, PendingAgrees, Consistent;
    VerifiedState(c, a);
    SettledState(c, a);
    assert CandidateFits(c, c.candidate.value, c.state.purpose.value);
  }

  /** A verified settlement adopts exactly the candidate and keeps every agreement. */
  lemma VerifiedKeepsAgreement(c: Core, a: Attempt)
    requires Agrees(c) && VerifiedAttempt(a) && Apply(c.state, a).Ok?
    ensures Install(c, a).Ok? && Agrees(Install(c, a).value.core)
    ensures c.candidate.Some? && Install(c, a).value.core.committed == Some(c.candidate.value.image)
  {
    hide Apply, Consistent, OpenAgrees, UnlockedAgrees, CandidateFits, PendingAgrees;
    SettleOpen(c, a);
    SettleUnlocked(c, a);
    SettlePending(c, a);
    VerifiedState(c, a);
  }

  /** Any other answer about the publication keeps the committed image and every agreement. */
  lemma OtherAnswersKeepAgreement(c: Core, a: Attempt)
    requires Agrees(c) && (a.Acknowledge? || a.Resolve?) && !VerifiedAttempt(a) && Apply(c.state, a).Ok?
    ensures Install(c, a).Ok? && Agrees(Install(c, a).value.core)
    ensures Install(c, a).value.core.committed == c.committed && Install(c, a).value.core.unlocked == c.unlocked
  {
    hide OwnPermissions, RightsOf, BitsOf, Coherent;
    ApplyKeepsConsistent(c.state, a);
    OtherAnswerState(c, a);
  }

  lemma OtherAnswerState(c: Core, a: Attempt)
    requires Agrees(c) && (a.Acknowledge? || a.Resolve?) && !VerifiedAttempt(a) && Apply(c.state, a).Ok?
    ensures var t := Apply(c.state, a).value.state;
            t == c.state.(phase := t.phase, operation := t.operation, purpose := t.purpose) && t != c.state
    ensures RejectedAttempt(a) || Apply(c.state, a).value.state == c.state.(phase := RecoveryRequired)
  {
    hide UnlockedAgrees, OpenAgrees, PendingAgrees, CandidateFits;
  }

  // ---------- Beginning one ----------

  /** Beginning with a fitting candidate keeps every agreement, whatever else the state holds. */
  lemma BeginKeepsAgreement(c: Core, cand: Candidate, id: nat, purpose: Purpose)
    requires Agrees(c) && c.candidate.None? && cand.operation == id && CandidateFits(c, cand, purpose)
    requires Apply(c.state, Begin(id, purpose)).Ok?
    ensures Install(c.(candidate := Some(cand)), Begin(id, purpose)).Ok?
    ensures var out := Install(c.(candidate := Some(cand)), Begin(id, purpose)).value.core;
            Agrees(out) && out.committed == c.committed && out.candidate == Some(cand)
            && out == c.(candidate := Some(cand), state := out.state)
  {
    hide OwnPermissions, RightsOf, BitsOf, Coherent;
    ApplyKeepsConsistent(c.state, Begin(id, purpose));
  }

  // ---------- Other transitions ----------

  /** Requests a host may make directly, and confirming an edit lease. */
  predicate Direct(a: Attempt) {
    a.Lock? || a.Close? || a.ReleaseEdit? || a.RaiseAttention? || a.AcquireEdit?
  }

  lemma DirectKeepsAgreement(c: Core, a: Attempt)
    requires Agrees(c) && Direct(a) && Apply(c.state, a).Ok?
    ensures Install(c, a).Ok? && Agrees(Install(c, a).value.core)
    ensures !a.Close? ==> Install(c, a).value.core == c.(state := Install(c, a).value.core.state)
    ensures a.Close? ==> Install(c, a).value.core.committed == None
  {
    hide OwnPermissions, RightsOf, BitsOf, Coherent, CandidateFits;
    ApplyKeepsConsistent(c.state, a);
  }
}
