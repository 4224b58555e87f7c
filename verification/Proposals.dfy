/** What a prepared publication proposes, and why every proposal fits the state it is made in. */
module Proposals {
  import opened Wrappers
  import opened TextValidation
  import opened ContainerState
  import opened ContainerCore
  import opened ContainerAgreement
  import Graphs = RevisionGraph
  import Images = Envelope
  import Ops = ImageOperations
  import Slots = PasswordSlots
  import Credentials = CredentialChange
  import Records = RevisionRecords
  import Validity = GraphValidity
  import Events = AppendEvent

  type Password = Images.Password

  // ---------- Guards ----------

  /** What every preparation but an outcome asks of the state. */
  predicate Ready(c: Core) {
    && c.candidate.None? && c.unlocked.Some? && c.state.access == ContainerState.Opened && c.state.screen == Unlocked
    && c.state.phase == Idle && c.state.attention == Calm && c.state.target.None?
  }

  predicate HoldsEdit(c: Core) {
    c.state.edit == Editing && c.state.lease == Held && c.state.rights.edit
  }

  predicate Fresh(c: Core, id: nat) {
    id > c.state.lastOperation
  }

  /** The password opens the committed image to the slot that is open. */
  ghost predicate OpensOwn(hash: Hash, c: Core, password: Password)
    requires c.committed.Some? && c.unlocked.Some?
  {
    var o := Images.Unlocking(hash, c.committed.value, password);
    o.Some? && o.value.slot == c.unlocked.value.slot
  }

  function ActorOf(o: Opened): Graphs.Slot
    requires Slots.IndexOf(o.graph.slots, o.slot, 0) < |o.graph.slots|
  {
    o.graph.slots[Slots.IndexOf(o.graph.slots, o.slot, 0)]
  }

  // ---------- Proposals ----------

  /** A candidate with nothing special about it. */
  function Proposal(c: Core, id: nat, image: Image, adopted: Option<Opened>): Candidate
    requires c.unlocked.Some?
  {
    Candidate(id, c.unlocked.value.graph.head, image, adopted, c.generation,
              false, false, false, false, false, None, 0, [])
  }

  /** The container once a proposal's publication has begun. */
  function Begun(c: Core, cand: Candidate, purpose: Purpose): Core {
    c.(candidate := Some(cand),
       state := c.state.(phase := Publishing, operation := Some(cand.operation),
                         lastOperation := cand.operation, purpose := Some(purpose)))
  }

  function BeginEffects(id: nat): seq<Effect> {
    [Effect(RereadTarget, id), Effect(JournalCandidate, id), Effect(PublishCandidate, id)]
  }

  /** Beginning with a fitting, faithful proposal always succeeds when the guards hold. */
  lemma BeginSucceeds(hash: Hash, c: Core, cand: Candidate, purpose: Purpose)
    requires Agrees(c) && Faithful(hash, c) && c.candidate.None?
    requires MayBegin(c.state, cand.operation, purpose)
    requires CandidateFits(c, cand, purpose) && FaithfulCandidate(hash, cand)
    ensures Install(c.(candidate := Some(cand)), Begin(cand.operation, purpose))
            == Ok(Installed(Begun(c, cand, purpose), BeginEffects(cand.operation)))
    ensures Agrees(Begun(c, cand, purpose)) && Faithful(hash, Begun(c, cand, purpose))
  {
    hide OwnPermissions, RightsOf, BitsOf, Coherent, OpenedFrom, Images.WellStructured, CandidateFits, Consistent,
         UnlockedAgrees, PendingAgrees;
    BeginKeepsAgreement(c, cand, cand.operation, purpose);
    assert BeginEffects(cand.operation) + [] == BeginEffects(cand.operation);
  }

  // ---------- New payloads ----------

  /** The candidate marks that go with each purpose other than a credential change. */
  predicate MarksFit(c: Core, cand: Candidate, purpose: Purpose) {
    && purpose != SlotChange && !cand.slotChange && !cand.removesActive
    && (cand.leaseChange <==> purpose == LeaseChange)
    && (cand.leaseHeldAfter ==> c.state.screen == Unlocked && cand.leaseChange)
    && (cand.activityBackup == if purpose == BackupAttempt then Some(true)
                               else if purpose == ExportAttempt then Some(false) else None)
  }

  /** The committed wrappers around a new graph with the same slots are always a fitting proposal. */
  lemma PayloadFits(hash: Hash, c: Core, cand: Candidate, graph: Graphs.Graph, nonce: nat, password: Password, purpose: Purpose)
    requires Agrees(c) && Faithful(hash, c) && c.unlocked.Some? && c.state.target.None?
    requires Graphs.Decodable(hash, graph, Records.DEFAULT_LIMITS) && graph.slots == c.committed.value.graph.slots
    requires OpensOwn(hash, c, password) && MarksFit(c, cand, purpose)
    requires cand.image == Images.WithGraph(c.committed.value, graph, nonce)
    requires cand.sourceHead == c.committed.value.graph.head
    requires cand.adopted == Images.Unlocking(hash, cand.image, password)
    requires cand.discard ==> cand.discardedContent == HeadText(graph)
    ensures CandidateFits(c, cand, purpose) && FaithfulCandidate(hash, cand)
  {
    hide Graphs.Decodable, Images.Unlocking, Images.WrapperFits, RightsOf, BitsOf, CandidateAgrees, PendingAgrees,
         Slots.CoherentBits, Consistent, Images.OpenedBy;
    FaithfulDecodes(hash, c.committed.value, c.unlocked.value);
    Ops.PayloadUnlocks(hash, c.committed.value, graph, nonce, password);
    UnlockedFrom(hash, cand.image, password);
    assert OwnPermissions(cand.adopted.value) == OwnPermissions(c.unlocked.value);
  }

  /** A payload proposal opens whenever its own password does. */
  lemma PayloadOpens(hash: Hash, c: Core, graph: Graphs.Graph, nonce: nat, password: Password)
    requires Faithful(hash, c) && c.unlocked.Some?
    requires Graphs.Decodable(hash, graph, Records.DEFAULT_LIMITS) && graph.slots == c.committed.value.graph.slots
    ensures var image := Images.WithGraph(c.committed.value, graph, nonce);
            var before, after := Images.Unlocking(hash, c.committed.value, password), Images.Unlocking(hash, image, password);
            && (before.Some? <==> after.Some?)
            && (before.Some? ==> after.value.slot == before.value.slot && after.value.graph == graph
                                 && after.value.documentId == c.unlocked.value.documentId)
  {
    hide Graphs.Decodable, Images.Unlocking, Images.WrapperFits, Images.OpenedBy;
    FaithfulDecodes(hash, c.committed.value, c.unlocked.value);
    Ops.PayloadUnlocks(hash, c.committed.value, graph, nonce, password);
    if Images.Unlocking(hash, c.committed.value, password).Some? { UnlockedFrom(hash, c.committed.value, password); }
  }

  // ---------- Credential changes ----------

  /** Every slot of the new list had its rights before, or has the coherent rights the change names. */
  lemma PlannedRights(slots: seq<Graphs.Slot>, active: Opened, ch: Slots.SlotChange, id: int, managementId: int, j: nat)
    requires Slots.IndexOf(slots, active.slot, 0) < |slots| && Slots.Authorised(slots, active, ch)
    requires j < |Slots.PlanFor(slots, active, ch, id, managementId).slots|
    ensures var s := Slots.PlanFor(slots, active, ch, id, managementId).slots[j];
            Slots.CoherentBits(s.permissions)
            || exists i :: 0 <= i < |slots| && slots[i].id == s.id && slots[i].permissions == s.permissions
  {
    hide Slots.Within, Slots.Ordinary, Graphs.Allows, Slots.CoherentBits;
    var i := match ch.kind
      case AddInvitation =>
        var r := Slots.RecoveryIndex(slots, 0);
        if j < r then j else if j == r then 0 else j - 1
      case RemoveSlot => if j < Slots.IndexOf(slots, ch.target, 0) then j else j + 1
      case _ => j;
    var s := Slots.PlanFor(slots, active, ch, id, managementId).slots[j];
    assert Slots.CoherentBits(s.permissions) || (slots[i].id == s.id && slots[i].permissions == s.permissions);
  }
}
