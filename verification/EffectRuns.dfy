/** What the host is told, effect by effect, over whole runs (src/container/container_state.cpp). */
module EffectRuns {
  import opened Wrappers
  import opened ContainerState
  import opened StateRuns

  // ---------- One transition ----------

  /** The host reports that the publication was seen to have happened. */
  predicate Verifies(a: Attempt, id: nat) {
    (a.Acknowledge? && a.outcome == Verified && a.operation == id) || (a.Resolve? && a.published && a.operation == id)
  }

  /** The host reports that it definitely did not. */
  predicate Denies(a: Attempt, id: nat) {
    (a.Acknowledge? && a.outcome == DefiniteFailure && a.operation == id) || (a.Resolve? && !a.published && a.operation == id)
  }

  /** A close in the middle of something. */
  predicate Abandons(before: State, a: Attempt, id: nat) {
    a.Close? && before.phase != Idle && before.operation == Some(id)
  }

  predicate OutcomeInHand(s: State) {
    s.purpose == Some(ActivityOutcome) || s.phase == OutcomePending
  }

  /** When each effect is due, said in what was asked and how the state changed. */
  predicate Due(before: State, a: Attempt, after: State, e: Effect) {
    match e.kind
    case AttemptEditLease => e.operation == 0 && a.Unlock? && a.mayEdit && after.rights.edit
    case StartHeartbeat => e.operation == 0 && before.edit == ReadOnly && after.edit == Editing
    case StopHeartbeat => e.operation == 0 && before.edit == Editing && after.edit == ReadOnly
    case ClearDisplay => e.operation == 0 && before.screen == Unlocked && after.screen == Locked
    case ReleaseLease => e.operation == 0 && (a.ReleaseEdit? || (a.Close? && before.lease == Held))
    case RereadTarget => a.Begin? && a.operation == e.operation
    case JournalCandidate => a.Begin? && a.operation == e.operation
    case PublishCandidate => a.Begin? && a.operation == e.operation
    case AdoptCandidate => Verifies(a, e.operation)
    case ClearJournal => Verifies(a, e.operation) || (Denies(a, e.operation) && before.purpose != Some(ActivityOutcome))
    case RecoverCandidate => a.Acknowledge? && a.outcome == Ambiguous && a.operation == e.operation
    case PerformBackup => Verifies(a, e.operation) && before.purpose == Some(BackupAttempt)
    case PerformExport => Verifies(a, e.operation) && before.purpose == Some(ExportAttempt)
    case RecordSuccess => a.CompleteHostAction? && a.operation == e.operation && a.succeeded
    case RecordFailure => a.CompleteHostAction? && a.operation == e.operation && !a.succeeded
    case JournalActivityOutcome =>
      || (a.CompleteHostAction? && a.operation == e.operation)
      || (Denies(a, e.operation) && before.purpose == Some(ActivityOutcome))
      || (Abandons(before, a, e.operation) && OutcomeInHand(before))
    case PreserveUnsavedWork =>
      || (e.operation == 0 && (a.SlotRights? || a.ApplyTarget?) && before.edit == Editing && after.edit == ReadOnly)
      || (Abandons(before, a, e.operation) && !OutcomeInHand(before))
  }

  lemma TimesWhen(condition: bool, kind: EffectKind, e: Effect)
    ensures Times(When(condition, kind), e) == One(condition && e == Effect(kind, 0))
  {
  }

  lemma TimesConcat(a: seq<Effect>, b: seq<Effect>, e: Effect)
    ensures Times(a + b, e) == Times(a, e) + Times(b, e)
  {
  }

  lemma CloseEmits(s: State, e: Effect)
    requires Consistent(s) && Apply(s, Close).Ok?
    ensures Times(Apply(s, Close).value.effects, e) == One(Due(s, Close, Apply(s, Close).value.state, e))
  {
    hide Times;
    var first := if s.phase == Idle then []
      else [Effect(if s.purpose == Some(ActivityOutcome) || s.phase == OutcomePending then JournalActivityOutcome
                   else PreserveUnsavedWork, if s.operation.Some? then s.operation.value else 0)];
    var x, y, z := When(s.edit == Editing, StopHeartbeat), When(s.lease == Held, ReleaseLease),
                   When(s.screen == Unlocked, ClearDisplay);
    TimesConcat(first + x + y, z, e);
    TimesConcat(first + x, y, e);
    TimesConcat(first, x, e);
    TimesWhen(s.edit == Editing, StopHeartbeat, e);
    TimesWhen(s.lease == Held, ReleaseLease, e);
    TimesWhen(s.screen == Unlocked, ClearDisplay, e);
    TimesOne(first, e);
  }

  lemma TimesOne(log: seq<Effect>, e: Effect)
    requires |log| <= 1
    ensures Times(log, e) == One(log == [e])
  {
  }

  function At(log: seq<Effect>, i: nat, e: Effect): nat {
    if i < |log| && log[i] == e then 1 else 0
  }

  lemma TimesShort(log: seq<Effect>, e: Effect)
    requires |log| <= 3
    ensures Times(log, e) == At(log, 0, e) + At(log, 1, e) + At(log, 2, e)
  {
    if |log| == 1 { assert log == [log[0]]; }
    if |log| == 2 { assert log == [log[0], log[1]]; }
    if |log| == 3 { assert log == [log[0], log[1], log[2]]; }
  }

  lemma BeginEmits(s: State, a: Attempt, e: Effect)
    requires Consistent(s) && (a.Begin? || a.CompleteHostAction? || a.RestoreActivity?) && Apply(s, a).Ok?
    ensures Times(Apply(s, a).value.effects, e) == One(Due(s, a, Apply(s, a).value.state, e))
  {
    hide Times, Consistent;
    TimesShort(Apply(s, a).value.effects, e);
  }

  lemma SettlingEmits(s: State, a: Attempt, e: Effect)
    requires Consistent(s) && (a.Acknowledge? || a.Resolve?) && Apply(s, a).Ok?
    ensures Times(Apply(s, a).value.effects, e) == One(Due(s, a, Apply(s, a).value.state, e))
  {
    hide Times;
    TimesShort(Apply(s, a).value.effects, e);
  }

  lemma AccessEmits(s: State, a: Attempt, e: Effect)
    requires Consistent(s) && (a.Open? || a.Unlock? || a.Lock? || a.RaiseAttention? || a.ClearAttention?)
    requires Apply(s, a).Ok?
    ensures Times(Apply(s, a).value.effects, e) == One(Due(s, a, Apply(s, a).value.state, e))
  {
    hide Times;
    TimesShort(Apply(s, a).value.effects, e);
  }

  lemma EditingEmits(s: State, a: Attempt, e: Effect)
    requires Consistent(s) && (a.AcquireEdit? || a.ReleaseEdit? || a.PublishedLease?) && Apply(s, a).Ok?
    ensures Times(Apply(s, a).value.effects, e) == One(Due(s, a, Apply(s, a).value.state, e))
  {
    hide Times;
    TimesShort(Apply(s, a).value.effects, e);
  }

  lemma RightsEmit(s: State, a: Attempt, e: Effect)
    requires Consistent(s) && (a.SlotRights? || a.ApplyTarget?) && Apply(s, a).Ok?
    ensures Times(Apply(s, a).value.effects, e) == One(Due(s, a, Apply(s, a).value.state, e))
  {
    hide Times;
    TimesShort(Apply(s, a).value.effects, e);
  }

  /** Every transition emits each effect that is due once, and nothing else. */
  lemma StepEmits(s: State, a: Attempt, e: Effect)
    requires Consistent(s) && Apply(s, a).Ok?
    ensures Times(Apply(s, a).value.effects, e) == One(Due(s, a, Apply(s, a).value.state, e))
  {
    hide Apply, Due, Times, Consistent;
    if a.Close? {
      CloseEmits(s, e);
    } else if a.Acknowledge? || a.Resolve? {
      SettlingEmits(s, a, e);
    } else if a.Begin? || a.CompleteHostAction? || a.RestoreActivity? {
      BeginEmits(s, a, e);
    } else if a.SlotRights? || a.ApplyTarget? {
      RightsEmit(s, a, e);
    } else if a.Open? || a.Unlock? || a.Lock? || a.RaiseAttention? || a.ClearAttention? {
      AccessEmits(s, a, e);
    } else {
      EditingEmits(s, a, e);
    }
  }

  // ---------- Runs ----------

  /** How often an effect fell due among the first n requests. */
  function Dues(attempts: seq<Attempt>, n: nat, e: Effect): nat
    requires n <= |attempts|
  {
    if n == 0 then 0
    else Dues(attempts, n - 1, e)
         + One(Accepted(attempts, n - 1)
               && Due(After(attempts, n - 1).state, attempts[n - 1], After(attempts, n).state, e))
  }

  /** Over every run the host is told each thing exactly as often as it fell due. */
  lemma {:induction false} ToldWhenDue(attempts: seq<Attempt>, n: nat, e: Effect)
    requires n <= |attempts|
    ensures Times(After(attempts, n).log, e) == Dues(attempts, n, e)
  {
    hide Apply, Due, Times, Consistent;
    if n == 0 {
      TimesShort([], e);
    } else {
      ToldWhenDue(attempts, n - 1, e);
      var m, a := After(attempts, n - 1), attempts[n - 1];
      if Apply(m.state, a).Ok? {
        StepEmits(m.state, a, e);
        TimesConcat(m.log, Apply(m.state, a).value.effects, e);
      }
    }
  }

  // ---------- Host actions ----------

  /** Before position n the operation was begun for the purpose. */
  ghost predicate BegunAs(attempts: seq<Attempt>, n: nat, id: nat, purpose: Purpose)
    requires n <= |attempts|
  {
    exists j :: 0 <= j < n && Accepted(attempts, j) && attempts[j] == Begin(id, purpose)
  }

  /** An operation is begun once, for one purpose, which is the one in flight. */
  ghost predicate OnePurpose(attempts: seq<Attempt>, n: nat, id: nat)
    requires n <= |attempts|
  {
    var s := After(attempts, n).state;
    && (forall p | BegunAs(attempts, n, id, p) :: id <= s.lastOperation)
    && (forall p, q | BegunAs(attempts, n, id, p) && BegunAs(attempts, n, id, q) :: p == q)
    && (s.phase in {Publishing, RecoveryRequired} && s.operation == Some(id) ==>
          s.purpose.Some? && BegunAs(attempts, n, id, s.purpose.value))
  }

  lemma BegunNext(attempts: seq<Attempt>, n: nat, id: nat, p: Purpose)
    requires 0 < n <= |attempts|
    ensures BegunAs(attempts, n, id, p)
            <==> BegunAs(attempts, n - 1, id, p) || (Accepted(attempts, n - 1) && attempts[n - 1] == Begin(id, p))
  {
    hide Accepted;
  }

  lemma BeginState(s: State, a: Attempt)
    requires Consistent(s) && Apply(s, a).Ok?
    ensures var t := Apply(s, a).value.state;
            && s.lastOperation <= t.lastOperation
            && (a.Begin? ==> s.lastOperation < a.operation == t.lastOperation && t.operation == Some(a.operation)
                             && t.purpose == Some(a.purpose))
            && (!a.Begin? && t.phase in {Publishing, RecoveryRequired} ==>
                  s.phase in {Publishing, RecoveryRequired} && t.operation == s.operation && t.purpose == s.purpose)
  {
  }

  lemma {:induction false} PurposesAreKept(attempts: seq<Attempt>, n: nat, id: nat)
    requires n <= |attempts|
    ensures OnePurpose(attempts, n, id)
  {
    hide Apply, Consistent, BegunAs;
    if n == 0 {
      NothingBegun(attempts, id);
    } else {
      PurposesAreKept(attempts, n - 1, id);
      var s, a := After(attempts, n - 1).state, attempts[n - 1];
      forall p ensures BegunAs(attempts, n, id, p)
                       <==> BegunAs(attempts, n - 1, id, p) || (Accepted(attempts, n - 1) && attempts[n - 1] == Begin(id, p))
      {
        BegunNext(attempts, n, id, p);
      }
      if Apply(s, a).Ok? { BeginState(s, a); }
    }
  }

  lemma NothingBegun(attempts: seq<Attempt>, id: nat)
    ensures forall p :: !BegunAs(attempts, 0, id, p)
    ensures After(attempts, 0).state.phase == Idle
  {
  }

  /** How often an operation begun for the purpose was accepted as verified. */
  ghost function VerifiedAs(attempts: seq<Attempt>, n: nat, id: nat, purpose: Purpose): nat
    requires n <= |attempts|
  {
    if n == 0 then 0
    else VerifiedAs(attempts, n - 1, id, purpose)
         + One(Accepted(attempts, n - 1) && Verifies(attempts[n - 1], id) && BegunAs(attempts, n - 1, id, purpose))
  }

  /** A backup is asked of the host exactly when a backup attempt was verified, an export when an export attempt was. */
  lemma {:induction false} HostActionsMatch(attempts: seq<Attempt>, n: nat, id: nat)
    requires n <= |attempts|
    ensures Times(After(attempts, n).log, Effect(PerformBackup, id)) == VerifiedAs(attempts, n, id, BackupAttempt)
    ensures Times(After(attempts, n).log, Effect(PerformExport, id)) == VerifiedAs(attempts, n, id, ExportAttempt)
  {
    hide Apply, Consistent, BegunAs, Times;
    if n == 0 {
      TimesShort([], Effect(PerformBackup, id));
      TimesShort([], Effect(PerformExport, id));
    } else {
      HostActionsMatch(attempts, n - 1, id);
      PurposesAreKept(attempts, n - 1, id);
      var m, a := After(attempts, n - 1), attempts[n - 1];
      if Apply(m.state, a).Ok? {
        StepEmits(m.state, a, Effect(PerformBackup, id));
        StepEmits(m.state, a, Effect(PerformExport, id));
        TimesConcat(m.log, Apply(m.state, a).value.effects, Effect(PerformBackup, id));
        TimesConcat(m.log, Apply(m.state, a).value.effects, Effect(PerformExport, id));
        if Verifies(a, id) { VerifiedInFlight(m.state, a, id); }
      }
    }
  }

  lemma VerifiedInFlight(s: State, a: Attempt, id: nat)
    requires Consistent(s) && Apply(s, a).Ok? && (Verifies(a, id) || Denies(a, id))
    ensures s.phase in {Publishing, RecoveryRequired} && s.operation == Some(id) && s.purpose.Some?
  {
  }

  /** The host's answers to one operation, and the actions asked of it. */
  function Answers(log: seq<Effect>, id: nat): nat {
    Times(log, Effect(RecordSuccess, id)) + Times(log, Effect(RecordFailure, id))
  }

  function Asked(log: seq<Effect>, id: nat): nat {
    Times(log, Effect(PerformBackup, id)) + Times(log, Effect(PerformExport, id))
  }

  predicate Awaited(s: State, id: nat) {
    s.phase == AwaitingHostAction && s.operation == Some(id)
  }

  lemma StepAnswers(s: State, a: Attempt, id: nat)
    requires Consistent(s) && Apply(s, a).Ok?
    ensures var t := Apply(s, a).value;
            Asked(t.effects, id) + One(Awaited(s, id)) == Answers(t.effects, id) + One(Awaited(t.state, id))
  {
    hide Times;
    StepEmits(s, a, Effect(PerformBackup, id));
    StepEmits(s, a, Effect(PerformExport, id));
    StepEmits(s, a, Effect(RecordSuccess, id));
    StepEmits(s, a, Effect(RecordFailure, id));
  }

  /** Every recorded success or failure answers one action asked of the host; only the one awaited is unanswered. */
  lemma {:induction false} AnswersMatch(attempts: seq<Attempt>, n: nat, id: nat)
    requires n <= |attempts|
    ensures var m := After(attempts, n);
            && Asked(m.log, id) == Answers(m.log, id) + One(Awaited(m.state, id))
            && Asked(m.log, id) <= Times(m.log, Effect(AdoptCandidate, id)) <= 1
  {
    hide Apply, Consistent, Times, Awaited;
    if n == 0 {
      NothingAwaited(attempts, id);
    } else {
      AnswersMatch(attempts, n - 1, id);
      var m, a := After(attempts, n - 1), attempts[n - 1];
      if Apply(m.state, a).Ok? {
        StepAnswers(m.state, a, id);
        StepAsks(m.state, a, id);
        var effects := Apply(m.state, a).value.effects;
        TimesConcat(m.log, effects, Effect(PerformBackup, id));
        TimesConcat(m.log, effects, Effect(PerformExport, id));
        TimesConcat(m.log, effects, Effect(RecordSuccess, id));
        TimesConcat(m.log, effects, Effect(RecordFailure, id));
        TimesConcat(m.log, effects, Effect(AdoptCandidate, id));
      }
    }
    AdoptedOnce(attempts, n, id);
  }

  lemma AdoptedOnce(attempts: seq<Attempt>, n: nat, id: nat)
    requires n <= |attempts|
    ensures Times(After(attempts, n).log, Effect(AdoptCandidate, id)) <= 1
  {
    PublicationsAreExactlyOnce(attempts, n, id);
  }

  lemma StepAsks(s: State, a: Attempt, id: nat)
    requires Consistent(s) && Apply(s, a).Ok?
    ensures Asked(Apply(s, a).value.effects, id) <= Times(Apply(s, a).value.effects, Effect(AdoptCandidate, id))
  {
    hide Times, Apply;
    StepEmits(s, a, Effect(PerformBackup, id));
    StepEmits(s, a, Effect(PerformExport, id));
    StepEmits(s, a, Effect(AdoptCandidate, id));
  }

  lemma NothingAwaited(attempts: seq<Attempt>, id: nat)
    ensures Answers(After(attempts, 0).log, id) == 0 && Asked(After(attempts, 0).log, id) == 0
    ensures !Awaited(After(attempts, 0).state, id)
    ensures Times(After(attempts, 0).log, Effect(AdoptCandidate, id)) == 0
  {
  }

  // ---------- The candidate's journal ----------

  /** What became of a journalled candidate other than being cleared: still out, a failed outcome, or left to a close. */
  predicate Out(s: State, id: nat) {
    s.operation == Some(id) && (s.phase in {Publishing, RecoveryRequired}
                                || (s.phase == OutcomePending && s.purpose == Some(ActivityOutcome)))
  }

  /** Requests after which a journalled candidate is replaced by a later outcome or left behind by a close. */
  predicate Leaves(before: State, a: Attempt, id: nat) {
    Out(before, id) && (a.Close? || (a.Begin? && a.operation != id))
  }

  function Left(attempts: seq<Attempt>, n: nat, id: nat): nat
    requires n <= |attempts|
  {
    if n == 0 then 0
    else Left(attempts, n - 1, id)
         + One(Accepted(attempts, n - 1) && Leaves(After(attempts, n - 1).state, attempts[n - 1], id))
  }

  lemma StepJournals(s: State, a: Attempt, id: nat)
    requires Consistent(s) && Apply(s, a).Ok?
    ensures var t := Apply(s, a).value;
            Times(t.effects, Effect(JournalCandidate, id)) + One(Out(s, id))
            == Times(t.effects, Effect(ClearJournal, id)) + One(Leaves(s, a, id)) + One(Out(t.state, id))
  {
    hide Times;
    StepEmits(s, a, Effect(JournalCandidate, id));
    StepEmits(s, a, Effect(ClearJournal, id));
  }

  /** Every journalled candidate is cleared once, still out, or was left to the host's journal. */
  lemma {:induction false} JournalBalances(attempts: seq<Attempt>, n: nat, id: nat)
    requires n <= |attempts|
    ensures var m := After(attempts, n);
            Times(m.log, Effect(JournalCandidate, id))
            == Times(m.log, Effect(ClearJournal, id)) + Left(attempts, n, id) + One(Out(m.state, id))
  {
    hide Apply, Consistent, Times, Out, Leaves;
    if n == 0 {
      TimesShort([], Effect(JournalCandidate, id));
      TimesShort([], Effect(ClearJournal, id));
      NothingOut(attempts, id);
    } else {
      JournalBalances(attempts, n - 1, id);
      var m, a := After(attempts, n - 1), attempts[n - 1];
      if Apply(m.state, a).Ok? {
        StepJournals(m.state, a, id);
        TimesConcat(m.log, Apply(m.state, a).value.effects, Effect(JournalCandidate, id));
        TimesConcat(m.log, Apply(m.state, a).value.effects, Effect(ClearJournal, id));
      }
    }
  }

  lemma NothingOut(attempts: seq<Attempt>, id: nat)
    ensures !Out(After(attempts, 0).state, id)
  {
  }

  // ---------- In which order ----------

  /** Everywhere in the log the effect comes after its cause. */
  ghost predicate Ordered(log: seq<Effect>, cause: Effect, effect: Effect) {
    forall i | 0 <= i < |log| && log[i] == effect :: exists j :: 0 <= j < i && log[j] == cause
  }

  lemma OrderedConcat(log: seq<Effect>, effects: seq<Effect>, cause: Effect, effect: Effect)
    requires Ordered(log, cause, effect)
    requires cause in log || Ordered(effects, cause, effect)
    ensures Ordered(log + effects, cause, effect)
  {
    var whole := log + effects;
    forall i | 0 <= i < |whole| && whole[i] == effect ensures exists j :: 0 <= j < i && whole[j] == cause {
      if i < |log| {
        var j :| 0 <= j < i && log[j] == cause;
        assert whole[j] == cause;
      } else if cause in log {
        var j :| 0 <= j < |log| && log[j] == cause;
        assert whole[j] == cause;
      } else {
        var j :| 0 <= j < i - |log| && effects[j] == cause;
        assert whole[|log| + j] == cause;
      }
    }
  }

  /** What is told before what. */
  predicate Causes(cause: EffectKind, effect: EffectKind) {
    match effect
    case PublishCandidate => cause == JournalCandidate || cause == RereadTarget
    case JournalCandidate => cause == RereadTarget
    case AdoptCandidate => cause == PublishCandidate
    case RecoverCandidate => cause == PublishCandidate
    case ClearJournal => cause == JournalCandidate
    case PerformBackup => cause == AdoptCandidate
    case PerformExport => cause == AdoptCandidate
    case _ => false
  }

  lemma StepOrders(s: State, a: Attempt, cause: EffectKind, effect: EffectKind, id: nat)
    requires Consistent(s) && Apply(s, a).Ok? && Causes(cause, effect) && Due(s, a, Apply(s, a).value.state, Effect(effect, id))
    ensures Ordered(Apply(s, a).value.effects, Effect(cause, id), Effect(effect, id))
            || (s.phase in {Publishing, RecoveryRequired} && s.operation == Some(id) && cause in {PublishCandidate, JournalCandidate})
  {
    var effects := Apply(s, a).value.effects;
    if effect == PublishCandidate || effect == JournalCandidate || effect == PerformBackup || effect == PerformExport {
      forall i | 0 <= i < |effects| && effects[i] == Effect(effect, id)
        ensures exists j :: 0 <= j < i && effects[j] == Effect(cause, id)
      {
        assert effects[0] == Effect(cause, id) || effects[1] == Effect(cause, id);
      }
    }
  }

  lemma NotDueNotTold(log: seq<Effect>, cause: Effect, effect: Effect)
    requires Times(log, effect) == 0
    ensures Ordered(log, cause, effect)
  {
    assert effect !in log;
  }

  lemma TimesIn(log: seq<Effect>, e: Effect)
    ensures Times(log, e) > 0 <==> e in log
  {
  }

  /**
   * Over every run the host rereads, then journals, then publishes; adopts, clears and recovers only what was
   * published; acts only on what was adopted.
   */
  lemma {:induction false} CausesComeFirst(attempts: seq<Attempt>, n: nat, cause: EffectKind, effect: EffectKind, id: nat)
    requires n <= |attempts| && Causes(cause, effect)
    ensures Ordered(After(attempts, n).log, Effect(cause, id), Effect(effect, id))
  {
    hide Apply, Consistent, Times, Due, Ordered, Causes;
    if n == 0 {
      TimesShort([], Effect(effect, id));
      NotDueNotTold([], Effect(cause, id), Effect(effect, id));
    } else {
      CausesComeFirst(attempts, n - 1, cause, effect, id);
      var m, a := After(attempts, n - 1), attempts[n - 1];
      if Apply(m.state, a).Ok? {
        var effects := Apply(m.state, a).value.effects;
        StepEmits(m.state, a, Effect(effect, id));
        if Due(m.state, a, Apply(m.state, a).value.state, Effect(effect, id)) {
          StepOrders(m.state, a, cause, effect, id);
          InFlightWasTold(attempts, n - 1, id);
          TimesIn(m.log, Effect(cause, id));
        } else {
          NotDueNotTold(effects, Effect(cause, id), Effect(effect, id));
        }
        OrderedConcat(m.log, effects, Effect(cause, id), Effect(effect, id));
      }
    }
  }

  lemma InFlightWasTold(attempts: seq<Attempt>, n: nat, id: nat)
    requires n <= |attempts|
    ensures var m := After(attempts, n);
            m.state.phase in {Publishing, RecoveryRequired} && m.state.operation == Some(id) ==>
              Times(m.log, Effect(PublishCandidate, id)) > 0 && Times(m.log, Effect(JournalCandidate, id)) > 0
  {
    hide After, Times;
    PublicationsAreExactlyOnce(attempts, n, id);
    JournalBalances(attempts, n, id);
  }
}
