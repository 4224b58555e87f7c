/** The container class does exactly what its calls are said to do. */
module ContainerSession {
  import opened Wrappers
  import opened TextValidation
  import opened ContainerState
  import opened ContainerCore
  import opened ContainerAgreement
  import opened Proposals
  import opened CredentialProposal
  import opened ContainerRequests
  import opened ContainerSteps
  import opened ContainerCalls
  import opened ContainerRuns
  import Objects = Container
  import Graphs = RevisionGraph
  import Images = Envelope
  import Slots = PasswordSlots
  import Events = AppendEvent
  import Records = RevisionRecords

  ghost function EnvOf(k: Objects.Container): Env {
    Env(k.hash, k.csv, k.hex)
  }

  /** Values drawn for a credential change are unused in the committed image. */
  predicate Drawn(c: Core, call: Call) {
    call.PrepareSlotChange? && c.committed.Some? ==>
      && Slots.UnusedIds(c.committed.value.graph.slots, call.context.id, call.context.managementId)
      && forall i | 0 <= i < |c.committed.value.wrappers| :: c.committed.value.wrappers[i].header != call.context.header
  }

  method PerformPreparation(k: Objects.Container, call: Call)
    requires k.Valid() && Drawn(k.View(), call)
    requires call.PrepareSave? || call.PrepareCompaction? || call.PrepareSlotChange?
             || call.PrepareLeaseChange?
    modifies k
    ensures k.Valid() && k.View() == Called(EnvOf(k), old(k.View()), call)
  {
    hide Agrees, Faithful, Records.Injective, SaveAccepted, CompactAccepted, ChangeAccepted, LeaseAccepted, SaveProposal,
         CompactProposal, ChangeProposal, LeaseProposal, Begun;
    match call
    case PrepareSave(id, v, password, nonce) => var r := k.PrepareSave(id, v, password, nonce);
    case PrepareCompaction(id, v, password, nonce) => var r := k.PrepareCompaction(id, v, password, nonce);
    case PrepareSlotChange(id, ch, x, password) => var r := k.PrepareSlotChange(id, ch, x, password);
    case PrepareLeaseChange(id, change, password, nonce) => var r := k.PrepareLeaseChange(id, change, password, nonce);
  }

  method PerformMerge(k: Objects.Container, call: Call)
    requires k.Valid() && call.PrepareMerge?
    modifies k
    ensures k.Valid() && k.View() == Called(EnvOf(k), old(k.View()), call)
  {
    hide Agrees, Faithful, Records.Injective, MergeAccepted, MergeProposal, Begun, SubmitAccepted, MergeGuard;
    var PrepareMerge(id, replica, password, replicaPassword, v, nonce) := call;
    ghost var before := k.View();
    ghost var env := EnvOf(k);
    var r := k.PrepareMerge(id, replica, password, replicaPassword, v, nonce);
    if PreparedMerge(env, before, call).Some? { MergePrepared(env, before, call); }
  }

  method PerformAttempt(k: Objects.Container, call: Call)
    requires k.Valid() && call.PrepareActivityAttempt?
    modifies k
    ensures k.Valid() && k.View() == Called(EnvOf(k), old(k.View()), call)
  {
    hide Agrees, Faithful, Records.Injective, AttemptAccepted, EventProposal, Begun, AfterUnlock, AfterTarget,
         SubmitAccepted, LeaseAccepted, ChangeAccepted, MergeAccepted, CompactAccepted, SaveAccepted;
    var PrepareActivityAttempt(id, backup, clean, observed, password, v, nonce) := call;
    var r := k.PrepareActivityAttempt(id, backup, clean, observed, password, v, nonce);
  }

  method PerformOutcome(k: Objects.Container, call: Call)
    requires k.Valid() && call.PrepareActivityOutcome?
    modifies k
    ensures k.Valid() && k.View() == Called(EnvOf(k), old(k.View()), call)
  {
    hide Agrees, Faithful, Records.Injective, EventProposal, Begun, OpensOwn, Events.EventAllowed, Events.EventFits,
         AfterUnlock, AfterTarget, SubmitAccepted, LeaseAccepted, ChangeAccepted, MergeAccepted, CompactAccepted, SaveAccepted;
    var PrepareActivityOutcome(id, observed, password, v, nonce) := call;
    var r := k.PrepareActivityOutcome(id, observed, password, v, nonce);
  }

  method PerformRecording(k: Objects.Container, call: Call)
    requires k.Valid() && (call.CompleteActivity? || call.RestoreActivityOutcome?)
    modifies k
    ensures k.Valid() && k.View() == Called(EnvOf(k), old(k.View()), call)
  {
    hide Agrees, Faithful, Records.Injective, Graphs.Decodable, Prepared, AfterUnlock, AfterTarget, SubmitAccepted, MergeTakes;
    match call
    case CompleteActivity(id, succeeded) => var r := k.CompleteActivity(id, succeeded);
    case RestoreActivityOutcome(id, head, backup, succeeded, observed) =>
      var r := k.RestoreActivityOutcome(id, head, backup, succeeded, observed);
  }

  method PerformSettlement(k: Objects.Container, call: Call)
    requires k.Valid() && (call.AcknowledgeSave? || call.ResolveSave?)
    modifies k
    ensures k.Valid() && k.View() == Called(EnvOf(k), old(k.View()), call)
  {
    hide Agrees, Faithful, Records.Injective, Apply, Install, Prepared, AfterUnlock, AfterTarget, SubmitAccepted, MergeTakes;
    match call
    case AcknowledgeSave(id, outcome) => var r := k.AcknowledgeSave(id, outcome);
    case ResolveSave(id, published) => var r := k.ResolveSave(id, published);
  }

  method PerformTransition(k: Objects.Container, call: Call)
    requires k.Valid() && (call.ConfirmEditLease? || call.Request?)
    modifies k
    ensures k.Valid() && k.View() == Called(EnvOf(k), old(k.View()), call)
  {
    hide Agrees, Faithful, Records.Injective, Apply, Install, Prepared, AfterUnlock, AfterTarget, SubmitAccepted, MergeTakes;
    match call
    case ConfirmEditLease => var r := k.ConfirmEditLease();
    case Request(a) => var r := k.Request(a);
  }

  method PerformAccess(k: Objects.Container, call: Call)
    requires k.Valid()
    requires call.OpenDocument? || call.UnlockDocument? || call.ApplyTargetDocument? || call.SubmitContent?
    modifies k
    ensures k.Valid() && k.View() == Called(EnvOf(k), old(k.View()), call)
  {
    hide Agrees, Faithful, Records.Injective, Apply, Install, UnlockAdmitted, Authenticated, UnlockedCore, TargetAccepted,
         SubmitAccepted, Images.WellStructured, WrapperMoved, TargetRights;
    match call
    case OpenDocument(image) => var r := k.OpenDocument(image);
    case UnlockDocument(password) => var r := k.UnlockDocument(password);
    case ApplyTargetDocument(image, password) => var r := k.ApplyTargetDocument(image, password);
    case SubmitContent(text) => var r := k.SubmitContent(text);
  }

  /** Any call on the class: the container stays valid, and what it holds becomes exactly what the call says. */
  method Perform(k: Objects.Container, call: Call)
    requires k.Valid() && Drawn(k.View(), call)
    modifies k
    ensures k.Valid() && k.View() == Called(EnvOf(k), old(k.View()), call)
  {
    hide Called, Agrees, Faithful;
    if call.PrepareActivityAttempt? {
      PerformAttempt(k, call);
    } else if call.PrepareActivityOutcome? {
      PerformOutcome(k, call);
    } else if call.CompleteActivity? || call.RestoreActivityOutcome? {
      PerformRecording(k, call);
    } else if call.PrepareMerge? {
      PerformMerge(k, call);
    } else if call.PrepareSave? || call.PrepareCompaction? || call.PrepareSlotChange?
              || call.PrepareLeaseChange? {
      PerformPreparation(k, call);
    } else if call.OpenDocument? || call.UnlockDocument? || call.ApplyTargetDocument? || call.SubmitContent? {
      PerformAccess(k, call);
    } else if call.AcknowledgeSave? || call.ResolveSave? {
      PerformSettlement(k, call);
    } else {
      PerformTransition(k, call);
    }
  }
}
