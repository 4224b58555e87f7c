/** Accounting over whole runs of the state machine, across closes and reopens. */
module StateRuns {
  import opened Wrappers
  import opened ContainerState

  // ---------- Counting ----------

  function Hit(e: Effect, kind: EffectKind): nat {
    if e.kind == kind then 1 else 0
  }

  /** Effects of one kind among the first n. */
  function CountTo(log: seq<Effect>, kind: EffectKind, n: nat): nat
    requires n <= |log|
  {
    if n == 0 then 0 else CountTo(log, kind, n - 1) + Hit(log[n - 1], kind)
  }

  function Count(log: seq<Effect>, kind: EffectKind): nat {
    CountTo(log, kind, |log|)
  }

  lemma {:induction false} CountPrefix(a: seq<Effect>, b: seq<Effect>, kind: EffectKind, n: nat)
    requires n <= |a| && n <= |b| && forall i | 0 <= i < n :: a[i] == b[i]
    ensures CountTo(a, kind, n) == CountTo(b, kind, n)
  {
    if n > 0 { CountPrefix(a, b, kind, n - 1); }
  }

  lemma {:induction false} CountConcatTo(a: seq<Effect>, b: seq<Effect>, kind: EffectKind, n: nat)
    requires n <= |b|
    ensures CountTo(a + b, kind, |a| + n) == Count(a, kind) + CountTo(b, kind, n)
  {
    if n == 0 {
      CountPrefix(a + b, a, kind, |a|);
    } else {
      CountConcatTo(a, b, kind, n - 1);
      assert (a + b)[|a| + n - 1] == b[n - 1];
    }
  }

  lemma CountConcat(a: seq<Effect>, b: seq<Effect>, kind: EffectKind)
    ensures Count(a + b, kind) == Count(a, kind) + Count(b, kind)
  {
    CountConcatTo(a, b, kind, |b|);
  }

  lemma CountSmall(a: Effect, b: Effect, c: Effect, kind: EffectKind)
    ensures Count([], kind) == 0
    ensures Count([a], kind) == Hit(a, kind)
    ensures Count([a, b], kind) == Hit(a, kind) + Hit(b, kind)
    ensures Count([a, b, c], kind) == Hit(a, kind) + Hit(b, kind) + Hit(c, kind)
  {
    assert CountTo([a], kind, 0) == 0;
    assert CountTo([a, b], kind, 0) == 0 && CountTo([a, b], kind, 1) == Hit(a, kind);
    assert CountTo([a, b, c], kind, 0) == 0 && CountTo([a, b, c], kind, 1) == Hit(a, kind);
    assert CountTo([a, b, c], kind, 2) == Hit(a, kind) + Hit(b, kind);
  }

  lemma CountWhen(condition: bool, kind: EffectKind, k: EffectKind)
    ensures Count(When(condition, kind), k) == if condition && kind == k then 1 else 0
  {
    CountSmall(Plain(kind), Plain(kind), Plain(kind), k);
  }

  // ---------- Runs ----------

  /** The state and every effect so far. */
  datatype Machine = Machine(state: State, log: seq<Effect>)

  const START := Machine(INITIAL, [])

  /** One request: an accepted one is installed, a rejected one changes nothing. */
  function Next(m: Machine, a: Attempt): Machine
    requires Consistent(m.state)
  {
    match Apply(m.state, a)
    case Ok(t) => Machine(t.state, m.log + t.effects)
    case Err(_) => m
  }

  function After(attempts: seq<Attempt>, n: nat): (m: Machine)
    requires n <= |attempts|
    ensures Consistent(m.state)
  {
    if n == 0 then (InitialConsistent(); START)
    else
      var before := After(attempts, n - 1);
      ApplyKeepsConsistent(before.state, attempts[n - 1]);
      Next(before, attempts[n - 1])
  }

  function One(b: bool): nat { if b then 1 else 0 }

  /** A request of the run that was accepted, by its shape. */
  predicate Accepted(attempts: seq<Attempt>, i: nat)
    requires i < |attempts|
  {
    Apply(After(attempts, i).state, attempts[i]).Ok?
  }

  function Unlocks(attempts: seq<Attempt>, n: nat): nat
    requires n <= |attempts|
  {
    if n == 0 then 0
    else Unlocks(attempts, n - 1) + One(attempts[n - 1].Unlock? && Accepted(attempts, n - 1))
  }

  // ---------- Heartbeats and display ----------

  lemma CloseHeartbeats(s: State)
    requires Consistent(s) && Apply(s, Close).Ok?
    ensures var t := Apply(s, Close).value;
            Count(t.effects, StartHeartbeat) + One(s.edit == Editing)
            == Count(t.effects, StopHeartbeat) + One(t.state.edit == Editing)
  {
    hide Count;
    CountClose(s, StartHeartbeat);
    CountClose(s, StopHeartbeat);
  }

  lemma LockHeartbeats(s: State)
    requires Consistent(s) && Apply(s, Lock).Ok?
    ensures var t := Apply(s, Lock).value;
            Count(t.effects, StartHeartbeat) + One(s.edit == Editing)
            == Count(t.effects, StopHeartbeat) + One(t.state.edit == Editing)
  {
    hide Count;
    CountConcat(When(s.edit == Editing, StopHeartbeat), [Plain(ClearDisplay)], StartHeartbeat);
    CountConcat(When(s.edit == Editing, StopHeartbeat), [Plain(ClearDisplay)], StopHeartbeat);
    CountWhen(s.edit == Editing, StopHeartbeat, StartHeartbeat);
    CountWhen(s.edit == Editing, StopHeartbeat, StopHeartbeat);
    CountSmall(Plain(ClearDisplay), Plain(ClearDisplay), Plain(ClearDisplay), StartHeartbeat);
    CountSmall(Plain(ClearDisplay), Plain(ClearDisplay), Plain(ClearDisplay), StopHeartbeat);
  }

  lemma OtherHeartbeats(s: State, a: Attempt)
    requires Consistent(s) && Apply(s, a).Ok? && !a.Close? && !a.Lock?
    ensures var t := Apply(s, a).value;
            Count(t.effects, StartHeartbeat) + One(s.edit == Editing)
            == Count(t.effects, StopHeartbeat) + One(t.state.edit == Editing)
  {
    hide Count;
    StepCounts(s, a, StartHeartbeat);
    StepCounts(s, a, StopHeartbeat);
  }

  lemma StepHeartbeats(s: State, a: Attempt)
    requires Consistent(s) && Apply(s, a).Ok?
    ensures var t := Apply(s, a).value;
            Count(t.effects, StartHeartbeat) + One(s.edit == Editing)
            == Count(t.effects, StopHeartbeat) + One(t.state.edit == Editing)
  {
    hide Count;
    if a.Close? {
      CloseHeartbeats(s);
    } else if a.Lock? {
      LockHeartbeats(s);
    } else {
      OtherHeartbeats(s, a);
    }
  }

  /** Counts of a close, term by term. */
  lemma CountClose(s: State, kind: EffectKind)
    ensures Count(CloseEffects(s), kind) ==
            (if s.phase != Idle && kind == (if s.purpose == Some(ActivityOutcome) || s.phase == OutcomePending
                                            then JournalActivityOutcome else PreserveUnsavedWork) then 1 else 0)
            + One(s.edit == Editing && kind == StopHeartbeat)
            + One(s.lease == Held && kind == ReleaseLease)
            + One(s.screen == Unlocked && kind == ClearDisplay)
  {
    hide Count;
    var journal := Effect(if s.purpose == Some(ActivityOutcome) || s.phase == OutcomePending
                          then JournalActivityOutcome else PreserveUnsavedWork,
                          if s.operation.Some? then s.operation.value else 0);
    var w := if s.phase == Idle then [] else [journal];
    var x, y, z := When(s.edit == Editing, StopHeartbeat), When(s.lease == Held, ReleaseLease),
                   When(s.screen == Unlocked, ClearDisplay);
    CountConcat(w + x + y, z, kind);
    CountConcat(w + x, y, kind);
    CountConcat(w, x, kind);
    CountSmall(journal, journal, journal, kind);
    CountWhen(s.edit == Editing, StopHeartbeat, kind);
    CountWhen(s.lease == Held, ReleaseLease, kind);
    CountWhen(s.screen == Unlocked, ClearDisplay, kind);
  }

  /** Hits in the short effect lists of every other transition. */
  function Hits(effects: seq<Effect>, kind: EffectKind): nat {
    (if |effects| > 0 then Hit(effects[0], kind) else 0)
    + (if |effects| > 1 then Hit(effects[1], kind) else 0)
    + (if |effects| > 2 then Hit(effects[2], kind) else 0)
  }

  lemma StepCounts(s: State, a: Attempt, kind: EffectKind)
    requires Consistent(s) && Apply(s, a).Ok? && !a.Close?
    ensures |Apply(s, a).value.effects| <= 3
    ensures Count(Apply(s, a).value.effects, kind) == Hits(Apply(s, a).value.effects, kind)
  {
    hide Count, Consistent, Apply, Hit;
    var e := Apply(s, a).value.effects;
    ShortEffects(s, a);
    if |e| == 0 {
      CountSmall(Plain(ClearDisplay), Plain(ClearDisplay), Plain(ClearDisplay), kind);
      assert e == [];
    } else if |e| == 1 {
      CountSmall(e[0], e[0], e[0], kind);
      assert e == [e[0]];
    } else if |e| == 2 {
      CountSmall(e[0], e[1], e[1], kind);
      assert e == [e[0], e[1]];
    } else {
      CountSmall(e[0], e[1], e[2], kind);
      assert e == [e[0], e[1], e[2]];
    }
  }

  lemma ShortEffects(s: State, a: Attempt)
    requires Consistent(s) && Apply(s, a).Ok? && !a.Close?
    ensures |Apply(s, a).value.effects| <= 3
  {
  }

  /** Heartbeats started exceed heartbeats stopped exactly while the session edits. */
  lemma {:induction false} HeartbeatsBalance(attempts: seq<Attempt>, n: nat)
    requires n <= |attempts|
    ensures var m := After(attempts, n);
            Count(m.log, StartHeartbeat) == Count(m.log, StopHeartbeat) + One(m.state.edit == Editing)
  {
    hide Apply, Count, Consistent;
    if n == 0 {
      CountSmall(Plain(ClearDisplay), Plain(ClearDisplay), Plain(ClearDisplay), StartHeartbeat);
      CountSmall(Plain(ClearDisplay), Plain(ClearDisplay), Plain(ClearDisplay), StopHeartbeat);
    } else {
      HeartbeatsBalance(attempts, n - 1);
      var m, a := After(attempts, n - 1), attempts[n - 1];
      if Apply(m.state, a).Ok? {
        StepHeartbeats(m.state, a);
        CountConcat(m.log, Apply(m.state, a).value.effects, StartHeartbeat);
        CountConcat(m.log, Apply(m.state, a).value.effects, StopHeartbeat);
      }
    }
  }

  lemma StepDisplay(s: State, a: Attempt)
    requires Consistent(s) && Apply(s, a).Ok?
    ensures var t := Apply(s, a).value;
            Count(t.effects, ClearDisplay) + One(t.state.screen == Unlocked)
            == One(a.Unlock?) + One(s.screen == Unlocked)
  {
    hide Count;
    if a.Close? { CountClose(s, ClearDisplay); } else { StepCounts(s, a, ClearDisplay); }
  }

  /** The display is cleared once for every unlock, except the one still on screen. */
  lemma {:induction false} DisplayBalances(attempts: seq<Attempt>, n: nat)
    requires n <= |attempts|
    ensures var m := After(attempts, n);
            Count(m.log, ClearDisplay) + One(m.state.screen == Unlocked) == Unlocks(attempts, n)
  {
    hide Apply, Count, Consistent;
    if n == 0 {
      CountSmall(Plain(ClearDisplay), Plain(ClearDisplay), Plain(ClearDisplay), ClearDisplay);
    } else {
      DisplayBalances(attempts, n - 1);
      var m, a := After(attempts, n - 1), attempts[n - 1];
      if Apply(m.state, a).Ok? {
        StepDisplay(m.state, a);
        CountConcat(m.log, Apply(m.state, a).value.effects, ClearDisplay);
      }
    }
  }

  // ---------- Outcomes owed ----------

  /** The host still owes this container a result, or a record of one. */
  predicate Owed(s: State) {
    s.phase == AwaitingHostAction || s.phase == OutcomePending
    || (s.phase != Idle && s.purpose == Some(ActivityOutcome))
  }

  /** A transition that publishes the purpose in flight as verified. */
  predicate Publishes(s: State, a: Attempt) {
    (a.Acknowledge? && a.outcome == Verified) || (a.Resolve? && a.published)
  }

  predicate StartsOwing(s: State, a: Attempt) {
    a.RestoreActivity? || (Publishes(s, a) && s.purpose.Some? && AttemptPurpose(s.purpose.value))
  }

  predicate RecordsOutcome(s: State, a: Attempt) {
    Publishes(s, a) && s.purpose == Some(ActivityOutcome)
  }

  /** A close that hands an owed outcome to the host's journal. */
  predicate JournalsOwed(s: State, a: Attempt) {
    a.Close? && Count(CloseEffects(s), JournalActivityOutcome) > 0
  }

  function Tally(attempts: seq<Attempt>, n: nat, what: (State, Attempt) -> bool): nat
    requires n <= |attempts|
  {
    if n == 0 then 0
    else Tally(attempts, n - 1, what)
         + One(Accepted(attempts, n - 1) && what(After(attempts, n - 1).state, attempts[n - 1]))
  }

  lemma StepOwed(s: State, a: Attempt)
    requires Consistent(s) && Apply(s, a).Ok?
    ensures One(StartsOwing(s, a)) + One(Owed(s))
            == One(RecordsOutcome(s, a)) + One(JournalsOwed(s, a)) + One(Owed(Apply(s, a).value.state))
  {
    hide Count;
    CountClose(s, JournalActivityOutcome);
  }

  /** Every activity begun or restored is recorded, journaled by a close, or still owed: none is lost or doubled. */
  lemma {:induction false} OutcomesBalance(attempts: seq<Attempt>, n: nat)
    requires n <= |attempts|
    ensures Tally(attempts, n, StartsOwing)
            == Tally(attempts, n, RecordsOutcome) + Tally(attempts, n, JournalsOwed)
               + One(Owed(After(attempts, n).state))
  {
    hide Apply, Consistent, StartsOwing, RecordsOutcome, JournalsOwed;
    if n > 0 {
      OutcomesBalance(attempts, n - 1);
      var m, a := After(attempts, n - 1), attempts[n - 1];
      if Apply(m.state, a).Ok? {
        StepOwed(m.state, a);
      }
    }
  }

  // ---------- Exactly once ----------

  function Times(log: seq<Effect>, e: Effect): nat {
    multiset(log)[e]
  }

  /** Publications and adoptions so far, identifier by identifier. */
  predicate OnceEach(m: Machine, id: nat) {
    var published, adopted := Times(m.log, Effect(PublishCandidate, id)), Times(m.log, Effect(AdoptCandidate, id));
    && published <= 1 && adopted <= published
    && (id > m.state.lastOperation ==> published == 0)
    && (m.state.phase in {Publishing, RecoveryRequired} && m.state.operation == Some(id) ==> published == 1 && adopted == 0)
  }

  lemma StepOnce(m: Machine, a: Attempt, id: nat)
    requires Consistent(m.state) && OnceEach(m, id) && Apply(m.state, a).Ok?
    ensures OnceEach(Next(m, a), id)
  {
    hide Consistent, Apply;
    var t := Apply(m.state, a).value;
    assert multiset(m.log + t.effects) == multiset(m.log) + multiset(t.effects);
    if a.Begin? {
      StepBegin(m.state, a, id);
    } else if a.Acknowledge? || a.Resolve? {
      StepSettle(m.state, a, id);
    } else {
      StepQuiet(m.state, a, id);
    }
  }

  lemma StepBegin(s: State, a: Attempt, id: nat)
    requires Consistent(s) && a.Begin? && Apply(s, a).Ok?
    ensures var t := Apply(s, a).value;
            && Times(t.effects, Effect(PublishCandidate, id)) == One(a.operation == id)
            && Times(t.effects, Effect(AdoptCandidate, id)) == 0
            && a.operation > s.lastOperation && t.state.lastOperation == a.operation
            && t.state.phase == Publishing && t.state.operation == Some(a.operation)
  {
  }

  lemma StepSettle(s: State, a: Attempt, id: nat)
    requires Consistent(s) && (a.Acknowledge? || a.Resolve?) && Apply(s, a).Ok?
    ensures var t := Apply(s, a).value;
            && s.phase in {Publishing, RecoveryRequired} && s.operation == Some(a.operation)
            && Times(t.effects, Effect(PublishCandidate, id)) == 0
            && Times(t.effects, Effect(AdoptCandidate, id)) == One(Publishes(s, a) && a.operation == id)
            && t.state.lastOperation == s.lastOperation && t.state.phase != Publishing
            && (t.state.phase == RecoveryRequired ==> !Publishes(s, a) && t.state.operation == s.operation)
  {
    hide VerifiedPublication, FailedPublication;
    VerifiedTimes(s, a.operation, id);
    FailedTimes(s, a.operation, id);
  }

  lemma VerifiedTimes(s: State, operation: nat, id: nat)
    ensures var t := VerifiedPublication(s, operation);
            && Times(t.effects, Effect(PublishCandidate, id)) == 0
            && Times(t.effects, Effect(AdoptCandidate, id)) == One(operation == id)
            && t.state.lastOperation == s.lastOperation && t.state.phase in {AwaitingHostAction, Idle}
  {
  }

  lemma FailedTimes(s: State, operation: nat, id: nat)
    ensures var t := FailedPublication(s, operation);
            && Times(t.effects, Effect(PublishCandidate, id)) == 0
            && Times(t.effects, Effect(AdoptCandidate, id)) == 0
            && t.state.lastOperation == s.lastOperation && t.state.phase in {OutcomePending, Idle}
  {
  }

  lemma StepQuiet(s: State, a: Attempt, id: nat)
    requires Consistent(s) && !a.Begin? && !a.Acknowledge? && !a.Resolve? && Apply(s, a).Ok?
    ensures var t := Apply(s, a).value;
            && Times(t.effects, Effect(PublishCandidate, id)) == 0 && Times(t.effects, Effect(AdoptCandidate, id)) == 0
            && t.state.lastOperation >= s.lastOperation
            && (t.state.phase in {Publishing, RecoveryRequired} ==> t.state.phase == s.phase && t.state.operation == s.operation)
  {
    hide Apply, Consistent;
    QuietEffects(s, a);
    QuietTimes(Apply(s, a).value.effects, Effect(PublishCandidate, id));
    QuietTimes(Apply(s, a).value.effects, Effect(AdoptCandidate, id));
    QuietState(s, a);
  }

  lemma QuietTimes(log: seq<Effect>, e: Effect)
    requires (forall x | x in log :: Quiet(x)) && !Quiet(e)
    ensures Times(log, e) == 0
  {
    assert e !in log;
  }

  predicate Quiet(e: Effect) {
    e.kind != PublishCandidate && e.kind != AdoptCandidate
  }

  lemma QuietEffects(s: State, a: Attempt)
    requires !a.Begin? && !a.Acknowledge? && !a.Resolve? && Apply(s, a).Ok?
    ensures forall e | e in Apply(s, a).value.effects :: Quiet(e)
  {
    if a.Close? { QuietClose(s); }
  }

  lemma QuietClose(s: State)
    ensures forall e | e in CloseEffects(s) :: Quiet(e)
  {
  }

  lemma QuietState(s: State, a: Attempt)
    requires !a.Begin? && !a.Acknowledge? && !a.Resolve? && Apply(s, a).Ok?
    ensures var t := Apply(s, a).value.state;
            && t.lastOperation >= s.lastOperation
            && (t.phase in {Publishing, RecoveryRequired} ==> t.phase == s.phase && t.operation == s.operation)
  {
  }

  /**
   * Over every run, through any number of closes: each operation is published at most once and
   * adopted at most once, and never adopted before it was published.
   */
  lemma {:induction false} PublicationsAreExactlyOnce(attempts: seq<Attempt>, n: nat, id: nat)
    requires n <= |attempts|
    ensures OnceEach(After(attempts, n), id)
  {
    hide Apply, Consistent, OnceEach;
    if n == 0 {
      NothingYet(id);
    } else {
      PublicationsAreExactlyOnce(attempts, n - 1, id);
      var m, a := After(attempts, n - 1), attempts[n - 1];
      if Apply(m.state, a).Ok? { StepOnce(m, a, id); }
    }
  }

  lemma NothingYet(id: nat)
    ensures OnceEach(START, id)
  {
  }

  /** Identifiers only grow. */
  lemma {:induction false} OperationsGrow(attempts: seq<Attempt>, m: nat, n: nat)
    requires m <= n <= |attempts|
    ensures After(attempts, m).state.lastOperation <= After(attempts, n).state.lastOperation
    decreases n - m
  {
    hide Apply, Consistent;
    if m < n {
      OperationsGrow(attempts, m, n - 1);
      var last, a := After(attempts, n - 1), attempts[n - 1];
      if Apply(last.state, a).Ok? { StepGrows(last.state, a); }
    }
  }

  /** The operation in flight is always the newest. */
  lemma InFlightIsNewest(attempts: seq<Attempt>, n: nat)
    requires n <= |attempts| && After(attempts, n).state.operation.Some?
    ensures After(attempts, n).state.operation.value == After(attempts, n).state.lastOperation
  {
    hide After;
    assert Consistent(After(attempts, n).state);
  }

  lemma StepGrows(s: State, a: Attempt)
    requires Consistent(s) && Apply(s, a).Ok?
    ensures s.lastOperation <= Apply(s, a).value.state.lastOperation
    ensures a.Begin? || a.RestoreActivity? ==> s.lastOperation < Apply(s, a).value.state.lastOperation
  {
  }

  /** A result for any operation but the one in flight changes nothing at all. */
  lemma StrangersChangeNothing(m: Machine, a: Attempt)
    requires Consistent(m.state)
    requires a.Acknowledge? || a.Resolve? || a.CompleteHostAction?
    requires m.state.operation != Some(a.operation)
    ensures Apply(m.state, a) == Err(StaleOperation) && Next(m, a) == m
  {
  }
}
