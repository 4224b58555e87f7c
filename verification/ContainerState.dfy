/** The container's state and its one transition function (src/container/container_state.cpp). */
module ContainerState {
  import opened Wrappers

  type SlotId = int

  datatype Access = Closed | Opened
  datatype Screen = Locked | Unlocked
  datatype EditMode = ReadOnly | Editing
  datatype LeaseStatus = NoLease | Held | OtherHolder | Uncertain
  datatype Attention = Calm | Conflict | TargetReplaced | Reauthenticate
  datatype Phase = Idle | Publishing | AwaitingHostAction | OutcomePending | RecoveryRequired
  datatype Purpose = SaveKind | SlotChange | LeaseChange | Compacting | BackupAttempt | ExportAttempt | ActivityOutcome
  datatype Outcome = Verified | DefiniteFailure | Ambiguous

  datatype Rights = Rights(edit: bool, add: bool, remove: bool)

  const NO_RIGHTS := Rights(false, false, false)

  datatype TargetAccess = TargetAccess(slot: SlotId, rights: Rights, wrapperChanged: bool)

  datatype State = State(
    access: Access, screen: Screen, activeSlot: Option<SlotId>, rights: Rights,
    target: Option<TargetAccess>, edit: EditMode, lease: LeaseStatus, attention: Attention,
    phase: Phase, operation: Option<nat>, lastOperation: nat, purpose: Option<Purpose>)

  const INITIAL := State(Closed, Locked, None, NO_RIGHTS, None, ReadOnly, NoLease, Calm, Idle, None, 0, None)

  datatype Attempt =
    | Open
    | Unlock(slot: SlotId, rights: Rights, mayEdit: bool, targetWrapper: bool, lease: LeaseStatus)
    | Lock
    | SlotRights(rights: Rights, mayEdit: bool)
    | Close
    | AcquireEdit(lease: LeaseStatus)
    | ReleaseEdit
    | PublishedLease(held: bool)
    | ApplyTarget(rights: Rights, wrapperChanged: bool)
    | RaiseAttention(reason: Attention)
    | ClearAttention
    | Begin(operation: nat, purpose: Purpose)
    | Acknowledge(operation: nat, outcome: Outcome)
    | CompleteHostAction(operation: nat, succeeded: bool)
    | RestoreActivity(operation: nat, purpose: Purpose)
    | Resolve(operation: nat, published: bool)

  datatype EffectKind =
    | AttemptEditLease | StartHeartbeat | StopHeartbeat | ClearDisplay | ReleaseLease | RereadTarget
    | JournalCandidate | PublishCandidate | AdoptCandidate | ClearJournal | RecoverCandidate | PerformBackup
    | PerformExport | RecordSuccess | RecordFailure | JournalActivityOutcome | PreserveUnsavedWork

  datatype Effect = Effect(kind: EffectKind, operation: nat)

  datatype StateError = InvalidTransition | StaleOperation

  datatype Transition = Transition(state: State, effects: seq<Effect>)

  type Step = Result<Transition, StateError>

  // ---------- Pieces ----------

  /** Adding or removing passwords always comes with editing. */
  predicate Coherent(r: Rights) {
    (r.add ==> r.edit) && (r.remove ==> r.edit)
  }

  predicate AttemptPurpose(p: Purpose) {
    p == BackupAttempt || p == ExportAttempt
  }

  function Plain(kind: EffectKind): Effect {
    Effect(kind, 0)
  }

  function When(condition: bool, kind: EffectKind): seq<Effect> {
    if condition then [Plain(kind)] else []
  }

  function ClearPublication(s: State): State {
    s.(phase := Idle, operation := None, purpose := None)
  }

  function VerifiedPublication(s: State, id: nat): Transition {
    var settled := [Effect(AdoptCandidate, id), Effect(ClearJournal, id)];
    if s.purpose.Some? && AttemptPurpose(s.purpose.value) then
      Transition(s.(phase := AwaitingHostAction),
                 settled + [Effect(if s.purpose == Some(BackupAttempt) then PerformBackup else PerformExport, id)])
    else Transition(ClearPublication(s), settled)
  }

  /** A publication that definitely did not happen. */
  function FailedPublication(s: State, id: nat): Transition {
    if s.purpose == Some(ActivityOutcome)
    then Transition(s.(phase := OutcomePending), [Effect(JournalActivityOutcome, id)])
    else Transition(ClearPublication(s), [Effect(ClearJournal, id)])
  }

  /** Losing the right to edit while editing. */
  function DropEdit(s: State, effects: seq<Effect>, drop: bool): Transition {
    if drop && s.edit == Editing
    then Transition(s.(edit := ReadOnly), effects + [Plain(StopHeartbeat), Plain(PreserveUnsavedWork)])
    else Transition(s, effects)
  }

  predicate UnlockedIdle(s: State) {
    s.access == Opened && s.screen == Unlocked && s.phase == Idle
  }

  predicate MayBegin(s: State, id: nat, p: Purpose) {
    && s.access == Opened && (s.screen == Unlocked || p == LeaseChange) && s.attention == Calm
    && id > s.lastOperation
    && (if p == ActivityOutcome then s.phase == OutcomePending && s.operation != Some(id)
        else
          && s.phase == Idle
          && (p == SaveKind || p == Compacting ==> s.edit == Editing && s.rights.edit && s.lease == Held)
          && (p == Compacting ==> s.rights.add && s.rights.remove)
          && (p == LeaseChange ==> s.screen == Locked || s.rights.edit))
  }

  /** What closing owes the host. */
  function CloseEffects(s: State): seq<Effect> {
    (if s.phase == Idle then []
     else [Effect(if s.purpose == Some(ActivityOutcome) || s.phase == OutcomePending
                  then JournalActivityOutcome else PreserveUnsavedWork,
                  if s.operation.Some? then s.operation.value else 0)])
    + When(s.edit == Editing, StopHeartbeat)
    + When(s.lease == Held, ReleaseLease)
    + When(s.screen == Unlocked, ClearDisplay)
  }

  // ---------- The transition function ----------

  function Apply(s: State, a: Attempt): Step {
    match a
    case Open =>
      if s.access != Closed then Err(InvalidTransition) else Ok(Transition(s.(access := Opened), []))
    case Unlock(slot, rights, mayEdit, targetWrapper, lease) =>
      if s.access != Opened || s.screen != Locked || s.phase != Idle || !Coherent(rights)
         || (s.target.Some? && ((s.target.value.wrapperChanged && !targetWrapper) || s.target.value.slot != slot))
      then Err(InvalidTransition)
      else
        var effective := if s.target.Some? then s.target.value.rights else rights;
        Ok(Transition(
          s.(screen := Unlocked, activeSlot := Some(slot), rights := effective, lease := lease,
             attention := if s.attention == Reauthenticate then Calm else s.attention),
          When(mayEdit && effective.edit, AttemptEditLease)))
    case Lock =>
      if !UnlockedIdle(s) then Err(InvalidTransition)
      else Ok(Transition(s.(screen := Locked, edit := ReadOnly, activeSlot := None, rights := NO_RIGHTS),
                         When(s.edit == Editing, StopHeartbeat) + [Plain(ClearDisplay)]))
    case SlotRights(rights, mayEdit) =>
      if !UnlockedIdle(s) || !Coherent(rights) then Err(InvalidTransition)
      else Ok(DropEdit(s.(rights := rights), [], !rights.edit || !mayEdit))
    case Close =>
      if s.access != Opened || s.phase == Publishing || s.phase == AwaitingHostAction then Err(InvalidTransition)
      else Ok(Transition(INITIAL.(lastOperation := s.lastOperation), CloseEffects(s)))
    case AcquireEdit(lease) =>
      if !UnlockedIdle(s) || !s.rights.edit || s.attention != Calm || lease != Held then Err(InvalidTransition)
      else Ok(Transition(s.(lease := Held, edit := Editing), When(s.edit != Editing, StartHeartbeat)))
    case ReleaseEdit =>
      if s.access != Opened || s.edit != Editing || s.phase != Idle then Err(InvalidTransition)
      else Ok(Transition(s.(edit := ReadOnly, lease := NoLease), [Plain(StopHeartbeat), Plain(ReleaseLease)]))
    case PublishedLease(held) =>
      if s.access != Opened || s.phase != Idle || (s.screen == Locked && held) then Err(InvalidTransition)
      else
        var edit := if held && s.screen == Unlocked && s.rights.edit then Editing else ReadOnly;
        Ok(Transition(s.(lease := if held then Held else NoLease, edit := edit),
                      When(s.edit != edit, if edit == Editing then StartHeartbeat else StopHeartbeat)))
    case ApplyTarget(rights, wrapperChanged) =>
      if !UnlockedIdle(s) || !Coherent(rights) || s.activeSlot.None? then Err(InvalidTransition)
      else
        var effective := if wrapperChanged then NO_RIGHTS else rights;
        var seen := s.(target := Some(TargetAccess(s.activeSlot.value, rights, wrapperChanged)), rights := effective);
        if wrapperChanged
        then Ok(DropEdit(seen.(attention := Reauthenticate, screen := Locked, activeSlot := None),
                         [Plain(ClearDisplay)], true))
        else Ok(DropEdit(seen, [], !effective.edit))
    case RaiseAttention(reason) =>
      if s.access != Opened || reason == Calm || reason == Reauthenticate || s.phase != Idle then Err(InvalidTransition)
      else Ok(Transition(s.(attention := reason), []))
    case ClearAttention =>
      if s.access != Opened || s.attention == Calm || s.attention == Reauthenticate || s.phase != Idle
      then Err(InvalidTransition)
      else Ok(Transition(s.(attention := Calm), []))
    case Begin(id, purpose) =>
      if !MayBegin(s, id, purpose) then Err(InvalidTransition)
      else Ok(Transition(s.(phase := Publishing, operation := Some(id), lastOperation := id, purpose := Some(purpose)),
                         [Effect(RereadTarget, id), Effect(JournalCandidate, id), Effect(PublishCandidate, id)]))
    case Acknowledge(id, outcome) =>
      if s.operation != Some(id) then Err(StaleOperation)
      else if s.phase != Publishing then Err(InvalidTransition)
      else (match outcome
            case Verified => Ok(VerifiedPublication(s, id))
            case Ambiguous => Ok(Transition(s.(phase := RecoveryRequired), [Effect(RecoverCandidate, id)]))
            case DefiniteFailure => Ok(FailedPublication(s, id)))
    case CompleteHostAction(id, succeeded) =>
      if s.operation != Some(id) then Err(StaleOperation)
      else if s.phase != AwaitingHostAction then Err(InvalidTransition)
      else Ok(Transition(s.(phase := OutcomePending),
                         [Effect(if succeeded then RecordSuccess else RecordFailure, id),
                          Effect(JournalActivityOutcome, id)]))
    case RestoreActivity(id, purpose) =>
      if !UnlockedIdle(s) || s.attention != Calm || id <= s.lastOperation || !AttemptPurpose(purpose)
      then Err(InvalidTransition)
      else Ok(Transition(s.(phase := OutcomePending, operation := Some(id), lastOperation := id, purpose := Some(purpose)), []))
    case Resolve(id, published) =>
      if s.operation != Some(id) then Err(StaleOperation)
      else if s.phase != RecoveryRequired then Err(InvalidTransition)
      else Ok(if published then VerifiedPublication(s, id) else FailedPublication(s, id))
  }

  // ---------- What every reachable state satisfies ----------

  /** The part of the invariant that concerns the publication in flight. */
  predicate PhaseConsistent(s: State) {
    && (s.phase == Idle <==> s.operation.None?) && (s.operation.None? <==> s.purpose.None?)
    && (s.operation.Some? ==> s.operation.value == s.lastOperation)
    && (s.phase != Idle ==> s.access == Opened && s.attention == Calm
                            && (s.screen == Unlocked || s.purpose == Some(LeaseChange)))
    && (s.phase == AwaitingHostAction ==> AttemptPurpose(s.purpose.value))
    && (s.phase == OutcomePending ==> AttemptPurpose(s.purpose.value) || s.purpose == Some(ActivityOutcome))
  }

  predicate Consistent(s: State) {
    && PhaseConsistent(s)
    && Coherent(s.rights) && (s.target.Some? ==> Coherent(s.target.value.rights))
    && (s.screen == Unlocked <==> s.activeSlot.Some?)
    && (s.screen == Locked ==> s.rights == NO_RIGHTS)
    && (s.edit == Editing ==> s.screen == Unlocked && s.rights.edit && s.lease == Held)
    && (s.access == Closed ==> s == INITIAL.(lastOperation := s.lastOperation))
    && (s.screen == Unlocked ==> s.access == Opened)
    && (s.target.Some? && s.target.value.wrapperChanged && s.attention == Reauthenticate ==> s.screen == Locked)
  }

  lemma InitialConsistent()
    ensures Consistent(INITIAL)
  {
  }

  /** Every accepted transition keeps the invariant. */
  lemma ApplyKeepsConsistent(s: State, a: Attempt)
    requires Consistent(s)
    ensures Apply(s, a).Ok? ==> Consistent(Apply(s, a).value.state)
  {
    hide Consistent, Apply;
    if a.Begin? || a.Acknowledge? || a.CompleteHostAction? || a.RestoreActivity? || a.Resolve? {
      PublicationKeepsConsistent(s, a);
    } else if a.Unlock? || a.Lock? || a.Open? || a.Close? {
      AccessKeepsConsistent(s, a);
    } else {
      EditingKeepsConsistent(s, a);
    }
  }

  lemma PublicationKeepsConsistent(s: State, a: Attempt)
    requires Consistent(s)
    requires a.Begin? || a.Acknowledge? || a.CompleteHostAction? || a.RestoreActivity? || a.Resolve?
    ensures Apply(s, a).Ok? ==> Consistent(Apply(s, a).value.state)
  {
    if a.Acknowledge? || a.Resolve? {
      SettlingKeepsConsistent(s, a);
    }
  }

  lemma SettlingKeepsConsistent(s: State, a: Attempt)
    requires Consistent(s) && (a.Acknowledge? || a.Resolve?)
    ensures Apply(s, a).Ok? ==> Consistent(Apply(s, a).value.state)
  {
    hide VerifiedPublication, FailedPublication;
    if s.phase != Idle {
      VerifiedKeepsConsistent(s, a.operation);
      FailedKeepsConsistent(s, a.operation);
    }
  }

  lemma VerifiedKeepsConsistent(s: State, id: nat)
    requires Consistent(s) && s.phase != Idle
    ensures Consistent(VerifiedPublication(s, id).state)
  {
  }

  lemma FailedKeepsConsistent(s: State, id: nat)
    requires Consistent(s) && s.phase != Idle
    ensures Consistent(FailedPublication(s, id).state)
  {
  }

  lemma AccessKeepsConsistent(s: State, a: Attempt)
    requires Consistent(s) && (a.Unlock? || a.Lock? || a.Open? || a.Close?)
    ensures Apply(s, a).Ok? ==> Consistent(Apply(s, a).value.state)
  {
  }

  lemma EditingKeepsConsistent(s: State, a: Attempt)
    requires Consistent(s)
    requires a.SlotRights? || a.AcquireEdit? || a.ReleaseEdit? || a.PublishedLease? || a.ApplyTarget?
             || a.RaiseAttention? || a.ClearAttention?
    ensures Apply(s, a).Ok? ==> Consistent(Apply(s, a).value.state)
  {
  }

  /** While a publication is in flight, only its own settlement or a close can change anything else. */
  lemma InFlightIsFrozen(s: State, a: Attempt)
    requires Consistent(s) && s.phase != Idle && Apply(s, a).Ok? && a != Close
    ensures var t := Apply(s, a).value.state;
            t == s.(phase := t.phase, operation := t.operation, lastOperation := t.lastOperation, purpose := t.purpose)
    ensures Apply(s, a).value.state.phase == Idle ==>
              (a.Acknowledge? && s.phase == Publishing) || (a.Resolve? && s.phase == RecoveryRequired)
  {
  }

  /** A locked screen that must reauthenticate opens only for the target's own slot and wrapper. */
  lemma ReauthenticationHolds(s: State, a: Attempt)
    requires Consistent(s) && s.screen == Locked && s.target.Some? && s.target.value.wrapperChanged
    requires Apply(s, a).Ok? && Apply(s, a).value.state.screen == Unlocked
    ensures a.Unlock? && a.targetWrapper && a.slot == s.target.value.slot
    ensures Apply(s, a).value.state.rights == s.target.value.rights
  {
  }

  /**
   * The attention mark alone does not hold: besides unlocking and closing, raising another attention
   * replaces it. The guarantee above rests on the recorded target instead.
   */
  lemma ReauthenticateMarkLeaves(s: State, a: Attempt)
    requires Consistent(s) && s.attention == Reauthenticate && Apply(s, a).Ok?
    ensures Apply(s, a).value.state.attention == Reauthenticate <==> !a.Unlock? && !a.Close? && !a.RaiseAttention?
    ensures Apply(s, a).value.state.target != s.target ==> a.Close? || a.ApplyTarget?
  {
    hide Consistent;
  }
}
