/** What is held while a publication is in flight, and what can be done from every state (src/container/container_state.cpp). */
module StateProgress {
  import opened Wrappers
  import opened ContainerState
  import opened StateRuns

  // ---------- With which rights ----------

  /** What has to be held while a publication is in flight. */
  predicate RightsFor(s: State) {
    s.phase in {Publishing, RecoveryRequired} ==>
      match s.purpose
      case Some(SaveKind) => s.edit == Editing && s.rights.edit && s.lease == Held
      case Some(Compacting) => s.edit == Editing && s.rights.edit && s.lease == Held && s.rights.add && s.rights.remove
      case Some(LeaseChange) => s.screen == Unlocked ==> s.rights.edit
      case _ => s.screen == Unlocked && s.activeSlot.Some?
  }

  lemma StepKeepsRights(s: State, a: Attempt)
    requires Consistent(s) && RightsFor(s) && Apply(s, a).Ok?
    ensures RightsFor(Apply(s, a).value.state)
  {
    if s.phase != Idle && a != Close {
      hide Apply;
      InFlightIsFrozen(s, a);
      SamePurpose(s, a);
    }
  }

  lemma SamePurpose(s: State, a: Attempt)
    requires Consistent(s) && Apply(s, a).Ok? && s.phase != Idle && a != Close
    ensures var t := Apply(s, a).value.state;
            t.phase in {Publishing, RecoveryRequired} ==>
              (s.phase in {Publishing, RecoveryRequired} && t.purpose == s.purpose)
              || (t.purpose == Some(ActivityOutcome) && t.screen == Unlocked && t.activeSlot.Some?)
  {
  }

  /** Over every run nothing is in flight without the rights, the lease and the calm it takes. */
  lemma {:induction false} InFlightHasRights(attempts: seq<Attempt>, n: nat)
    requires n <= |attempts|
    ensures RightsFor(After(attempts, n).state)
    ensures After(attempts, n).state.phase != Idle ==> After(attempts, n).state.attention == Calm
  {
    hide Apply, RightsFor, Consistent;
    if n == 0 {
      NothingInFlight(attempts);
    } else {
      InFlightHasRights(attempts, n - 1);
      var s, a := After(attempts, n - 1).state, attempts[n - 1];
      if Apply(s, a).Ok? { StepKeepsRights(s, a); }
    }
    CalmInFlight(After(attempts, n).state);
  }

  lemma CalmInFlight(s: State)
    requires Consistent(s)
    ensures s.phase != Idle ==> s.attention == Calm
  {
  }

  lemma NothingInFlight(attempts: seq<Attempt>)
    ensures RightsFor(After(attempts, 0).state)
  {
  }

  // ---------- What can always be done ----------

  /** A run of requests from a state, all of them accepted. */
  predicate AcceptedRun(s: State, attempts: seq<Attempt>)
    decreases |attempts|
  {
    attempts == [] || (Apply(s, attempts[0]).Ok? && AcceptedRun(Apply(s, attempts[0]).value.state, attempts[1..]))
  }

  function EndOf(s: State, attempts: seq<Attempt>): State
    requires AcceptedRun(s, attempts)
    decreases |attempts|
  {
    if attempts == [] then s else EndOf(Apply(s, attempts[0]).value.state, attempts[1..])
  }

  /** The way out of any open state: settle what is in flight, answer what the host owes, close. */
  function WayOut(s: State): seq<Attempt> {
    var id := if s.operation.Some? then s.operation.value else 0;
    match s.phase
    case Publishing => [Acknowledge(id, Ambiguous), Close]
    case AwaitingHostAction => [CompleteHostAction(id, false), Close]
    case _ => [Close]
  }

  lemma Once(s: State, a: Attempt)
    requires Apply(s, a).Ok?
    ensures AcceptedRun(s, [a]) && EndOf(s, [a]) == Apply(s, a).value.state
  {
    hide Apply;
    assert [a][1..] == [];
  }

  lemma Two(s: State, a: Attempt, b: Attempt)
    requires Apply(s, a).Ok? && Apply(Apply(s, a).value.state, b).Ok?
    ensures AcceptedRun(s, [a, b]) && EndOf(s, [a, b]) == Apply(Apply(s, a).value.state, b).value.state
  {
    hide Apply;
    assert [a, b][1..] == [b];
    Once(Apply(s, a).value.state, b);
  }

  /** Every open state can be closed, whatever is going on. */
  lemma CanAlwaysClose(s: State)
    requires Consistent(s) && s.access == Opened
    ensures AcceptedRun(s, WayOut(s)) && EndOf(s, WayOut(s)) == INITIAL.(lastOperation := s.lastOperation)
  {
    hide AcceptedRun, EndOf;
    var way := WayOut(s);
    if |way| == 2 { Two(s, way[0], way[1]); } else { Once(s, Close); }
  }

  /** From any locked, calm document a slot that may edit can unlock, take the edit mode, publish and go on editing. */
  lemma CanSave(s: State, slot: SlotId, rights: Rights, id: nat)
    requires Consistent(s) && s.access == Opened && s.screen == Locked && s.phase == Idle && s.attention == Calm && s.target.None?
    requires Coherent(rights) && rights.edit && id > s.lastOperation
    ensures var way := [Unlock(slot, rights, true, false, NoLease), AcquireEdit(Held), Begin(id, SaveKind), Acknowledge(id, Verified)];
            && AcceptedRun(s, way)
            && (var end := EndOf(s, way);
                end.phase == Idle && end.edit == Editing && end.screen == Unlocked && end.activeSlot == Some(slot)
                && end.rights == rights && end.lease == Held && end.lastOperation == id)
  {
    var way := [Unlock(slot, rights, true, false, NoLease), AcquireEdit(Held), Begin(id, SaveKind), Acknowledge(id, Verified)];
    assert way[1..] == [AcquireEdit(Held), Begin(id, SaveKind), Acknowledge(id, Verified)];
    var s1 := Apply(s, way[0]).value.state;
    assert way[1..][1..] == [Begin(id, SaveKind), Acknowledge(id, Verified)];
    var s2 := Apply(s1, way[1]).value.state;
    Two(s2, way[2], way[3]);
    assert AcceptedRun(s1, way[1..]) && EndOf(s1, way[1..]) == EndOf(s2, way[1..][1..]);
  }
}
