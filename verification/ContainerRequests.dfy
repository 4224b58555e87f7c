/** When each request to a container is accepted, and what it then proposes (src/container/container.cpp). */
module ContainerRequests {
  import opened Wrappers
  import opened TextValidation
  import opened ContainerState
  import opened ContainerCore
  import opened ContainerAgreement
  import opened Proposals
  import opened CredentialProposal
  import Graphs = RevisionGraph
  import Images = Envelope
  import Ops = ImageOperations
  import Slots = PasswordSlots
  import Records = RevisionRecords
  import Validity = GraphValidity
  import Saves = SaveContent
  import Events = AppendEvent
  import Cuts = Compaction
  import History = HistoryService
  import Merging = MergeSave
  import Lines = Lineage
  import Leases = LeaseProtocol

  type Csv = Bytes -> bool

  /** The open graph together with the actor's own slot in it. */
  lemma ActorFits(hash: Hash, c: Core)
    requires Faithful(hash, c) && c.unlocked.Some?
    ensures OwnSlot(c) < |c.unlocked.value.graph.slots|
    ensures Graphs.Decodable(hash, c.unlocked.value.graph, Records.DEFAULT_LIMITS)
    ensures c.committed.Some? && c.unlocked.value.graph == c.committed.value.graph
    ensures ActorOf(c.unlocked.value).id == c.unlocked.value.slot
    ensures Images.WellStructured(c.committed.value)
  {
    hide Graphs.Decodable, Images.WellStructured;
    OwnSlotFits(hash, c);
  }

  // ---------- Unlocking ----------

  /** The checks of unlocking, up to the transition. */
  ghost predicate UnlockAdmitted(hash: Hash, csv: Csv, c: Core, password: Password) {
    && c.state.access == ContainerState.Opened && c.state.screen == Locked && c.committed.Some?
    && !(c.state.attention == Reauthenticate && c.target.None?)
    && (var o := Images.Unlocking(hash, SourceImage(c), password);
        && o.Some? && SameDocument(c, o.value)
        && (!Retained(c, o.value) && o.value.contentType == 1 ==> csv(HeadText(o.value.graph))))
  }

  ghost function Authenticated(hash: Hash, csv: Csv, c: Core, password: Password): Opened
    requires UnlockAdmitted(hash, csv, c, password)
  {
    Images.Unlocking(hash, SourceImage(c), password).value
  }

  /** What remains after a refused transition: another slot's password costs the data held before. */
  function AfterRefusal(c: Core, o: Opened): Core {
    if Retained(c, o) then c else c.(unlocked := None, content := None)
  }

  // ---------- Saving ----------

  datatype SaveInput = SaveInput(
    regular: bool, discard: bool, profileName: string, profileEmail: string, device: string, timestamp: nat)

  function SaveOf(o: Opened, content: Bytes, v: SaveInput): Saves.SaveRequest
    requires Slots.IndexOf(o.graph.slots, o.slot, 0) < |o.graph.slots|
  {
    Saves.SaveRequest(content, v.profileName, v.profileEmail, v.device, ActorOf(o), v.timestamp, v.regular, v.discard)
  }

  predicate SaveGuard(c: Core) {
    Ready(c) && c.content.Some? && HoldsEdit(c)
  }

  ghost predicate SaveAccepted(hash: Hash, csv: Csv, c: Core, id: nat, v: SaveInput, password: Password)
    requires Agrees(c) && Faithful(hash, c)
  {
    && SaveGuard(c) && Fresh(c, id) && !c.unlocked.value.mustBeChanged
    && (v.discard || c.unlocked.value.contentType != 1 || csv(c.content.value))
    && OpensOwn(hash, c, password)
    && (ActorFits(hash, c);
        var s := SaveOf(c.unlocked.value, c.content.value, v);
        Saves.SaveAllowed(c.unlocked.value.graph, s) && Saves.SaveFits(c.unlocked.value.graph, s))
  }

  ghost function SaveProposal(hash: Hash, csv: Csv, c: Core, id: nat, v: SaveInput, password: Password, nonce: nat): Candidate
    requires Agrees(c) && Faithful(hash, c) && SaveAccepted(hash, csv, c, id, v, password)
  {
    ActorFits(hash, c);
    Saves.TailFacts(hash, c.unlocked.value.graph);
    var g := Saves.SavedGraph(hash, c.unlocked.value.graph, SaveOf(c.unlocked.value, c.content.value, v));
    var image := Images.WithGraph(c.committed.value, g, nonce);
    Proposal(c, id, image, Images.Unlocking(hash, image, password))
      .(discard := v.discard, discardedContent := if v.discard then HeadText(g) else [])
  }

  // ---------- Merging ----------

  predicate MergeGuard(c: Core) {
    Ready(c) && HoldsEdit(c)
  }

  /** Text a container takes from its editor. */
  predicate SubmitGuard(c: Core) {
    && c.state.access == ContainerState.Opened && c.state.screen == Unlocked && c.state.edit == Editing && c.state.rights.edit
    && c.state.attention == Calm && c.pending.None? && !(c.candidate.Some? && c.candidate.value.activityBackup.Some?)
  }

  ghost predicate SubmitAccepted(csv: Csv, c: Core, text: Bytes) {
    && SubmitGuard(c) && c.unlocked.Some?
    && Records.GoodWhole(text, Records.DEFAULT_LIMITS)
    && (c.unlocked.value.contentType == 1 ==> csv(text))
  }

  function Submitted(c: Core, text: Bytes): Core {
    c.(content := Some(text), generation := c.generation + 1)
  }

  ghost predicate MergeAccepted(hash: Hash, csv: Csv, c: Core, id: nat, replica: Image, targetPassword: Password,
                                replicaPassword: Password, v: Merging.Resolution)
    requires Agrees(c) && Faithful(hash, c)
  {
    && MergeGuard(c) && Fresh(c, id) && replicaPassword != [] && SubmitAccepted(csv, c, v.content)
    && c.committed.Some? && OpensOwn(hash, c, targetPassword)
    && Merging.ReplicasMerge(hash, c.committed.value, replica, targetPassword, replicaPassword, v)
  }

  ghost function MergeProposal(hash: Hash, csv: Csv, c: Core, id: nat, replica: Image, targetPassword: Password,
                               replicaPassword: Password, v: Merging.Resolution, nonce: nat): Candidate
    requires Agrees(c) && Faithful(hash, c)
    requires MergeAccepted(hash, csv, c, id, replica, targetPassword, replicaPassword, v)
  {
    var image := Merging.MergedImage(hash, c.committed.value, replica, targetPassword, replicaPassword, v, nonce);
    Proposal(Submitted(c, v.content), id, image, Images.Unlocking(hash, image, targetPassword))
  }

  // ---------- Compacting ----------

  datatype CompactInput = CompactInput(
    session: int, counter: nat, explicit: bool, clean: bool, backup: Image, retain: nat,
    clientName: string, clientEmail: string, device: string, timestamp: nat)

  predicate CompactGuard(c: Core) {
    Ready(c) && HoldsEdit(c) && c.content.Some? && c.state.rights.add && c.state.rights.remove && c.target.None?
  }

  predicate EventNamed(r: Records.Record, name: string) {
    r.imm.event.Some? && r.imm.event.value.name == name
  }

  /** The backup lacks exactly the record of its own success. */
  predicate SupersededBy(backup: Graphs.Graph, current: Graphs.Graph) {
    var rs := current.records;
    && |rs| >= 2 && |backup.records| + 1 == |rs|
    && EventNamed(rs[|rs| - 1], "backup-succeeded") && EventNamed(rs[|rs| - 2], "backup-attempted")
    && rs[|rs| - 1].imm.previous == Some(rs[|rs| - 2].id) && backup.head == rs[|rs| - 2].id
    && backup.lease.active == current.lease.active && backup.lease.session == current.lease.session
    && backup.lease.counter == current.lease.counter
  }

  /** The backup is the committed image, or the image just before its success was recorded. */
  ghost predicate BackupProves(hash: Hash, c: Core, backup: Image, password: Password)
    requires c.committed.Some? && c.unlocked.Some?
  {
    backup == c.committed.value
    || (var b := Images.Unlocking(hash, backup, password);
        b.Some? && b.value.documentId == c.committed.value.documentId && b.value.slot == c.unlocked.value.slot
        && SupersededBy(b.value.graph, c.committed.value.graph)
        && HeadText(b.value.graph) == HeadText(c.committed.value.graph))
  }

  function CompactOf(o: Opened, v: CompactInput): Cuts.CompactRequest
    requires Slots.IndexOf(o.graph.slots, o.slot, 0) < |o.graph.slots|
  {
    Cuts.CompactRequest(ActorOf(o), v.clientName, v.clientEmail, v.device, v.timestamp)
  }

  ghost predicate CompactAccepted(hash: Hash, c: Core, id: nat, v: CompactInput, password: Password)
    requires Agrees(c) && Faithful(hash, c)
  {
    && CompactGuard(c) && Fresh(c, id) && v.explicit && v.clean && c.localSession == Some(v.session)
    && OpensOwn(hash, c, password)
    && c.committed.Some? && BackupProves(hash, c, v.backup, password)
    && (ActorFits(hash, c);
        var g := c.unlocked.value.graph;
        && c.content.value == HeadText(g)
        && g.lease.active && g.lease.session == v.session && g.lease.counter == v.counter
        && Cuts.CompactAllowed(g, History.ChosenCutoff(g.records, v.retain), CompactOf(c.unlocked.value, v))
        && |g.records| < Records.DEFAULT_LIMITS.maxEntries)
  }

  ghost function CompactProposal(hash: Hash, c: Core, id: nat, v: CompactInput, password: Password, nonce: nat): Candidate
    requires Agrees(c) && Faithful(hash, c) && CompactAccepted(hash, c, id, v, password)
  {
    ActorFits(hash, c);
    var g := c.unlocked.value.graph;
    Saves.TailFacts(hash, g);
    var image := Images.WithGraph(c.committed.value,
                                  Cuts.CompactedGraph(hash, g, History.ChosenCutoff(g.records, v.retain),
                                                      CompactOf(c.unlocked.value, v)), nonce);
    Proposal(c, id, image, Images.Unlocking(hash, image, password))
  }

  // ---------- Activities ----------

  datatype ClientInput = ClientInput(clientName: string, clientEmail: string, device: string, timestamp: nat)

  function ActivityEvent(o: Opened, name: string, detail: string, status: nat, v: ClientInput): Events.EventRequest
    requires Slots.IndexOf(o.graph.slots, o.slot, 0) < |o.graph.slots|
  {
    Events.EventRequest(o.graph.slots, ActorOf(o), ActorOf(o).id, name, detail, Some(status),
                        v.clientName, v.clientEmail, v.device, v.timestamp)
  }

  function AttemptName(backup: bool): string {
    if backup then "backup-attempted" else "export-attempted"
  }

  function OutcomeName(backup: bool, succeeded: bool): string {
    if backup then (if succeeded then "backup-succeeded" else "backup-failed")
    else (if succeeded then "export-succeeded" else "export-failed")
  }

  function AttemptPurposeOf(backup: bool): Purpose {
    if backup then BackupAttempt else ExportAttempt
  }

  predicate AttemptGuard(c: Core) {
    Ready(c) && c.pending.None? && c.content.Some? && !c.unlocked.value.mustBeChanged
  }

  ghost predicate AttemptAccepted(hash: Hash, c: Core, id: nat, backup: bool, clean: bool, observed: Image,
                                  password: Password, v: ClientInput)
    requires Agrees(c) && Faithful(hash, c)
  {
    && AttemptGuard(c) && Fresh(c, id) && Some(observed) == c.committed && OpensOwn(hash, c, password)
    && (ActorFits(hash, c);
        var g := c.unlocked.value.graph;
        var e := ActivityEvent(c.unlocked.value, AttemptName(backup), "", 0, v);
        && (backup ==> clean && c.content.value == HeadText(g))
        && Events.EventAllowed(g, e) && Events.EventFits(g, e))
  }

  ghost function EventProposal(hash: Hash, c: Core, id: nat, e: Events.EventRequest, password: Password, nonce: nat): Candidate
    requires Faithful(hash, c) && c.unlocked.Some?
  {
    ActorFits(hash, c);
    Saves.TailFacts(hash, c.unlocked.value.graph);
    var image := Images.WithGraph(c.committed.value, Events.EventGraph(hash, c.unlocked.value.graph, e), nonce);
    Proposal(c, id, image, Images.Unlocking(hash, image, password))
  }

  predicate OutcomeGuard(c: Core) {
    && c.candidate.None? && c.pending.Some? && c.pending.value.succeeded.Some? && c.unlocked.Some?
    && c.state.screen == Unlocked && c.state.phase == OutcomePending && c.state.attention == Calm && c.state.target.None?
  }

  function OutcomeEvent(o: Opened, p: Pending, detail: string, v: ClientInput): Events.EventRequest
    requires Slots.IndexOf(o.graph.slots, o.slot, 0) < |o.graph.slots| && p.succeeded.Some?
  {
    ActivityEvent(o, OutcomeName(p.backup, p.succeeded.value), detail, if p.succeeded.value then 1 else 2, v)
  }

  /** The pending head is always the current one, so nothing about it can go stale. */
  ghost predicate OutcomeAccepted(hash: Hash, c: Core, id: nat, observed: Image, password: Password, detail: string, v: ClientInput)
    requires Agrees(c) && Faithful(hash, c)
  {
    && OutcomeGuard(c) && Fresh(c, id) && Some(observed) == c.committed && OpensOwn(hash, c, password)
    && (ActorFits(hash, c);
        var e := OutcomeEvent(c.unlocked.value, c.pending.value, detail, v);
        && !ActorOf(c.unlocked.value).mustBeChanged
        && Events.EventAllowed(c.unlocked.value.graph, e) && Events.EventFits(c.unlocked.value.graph, e))
  }

  predicate RestoreGuard(c: Core) {
    Ready(c) && c.pending.None? && !c.unlocked.value.mustBeChanged
  }

  /** The journalled attempt is the last record of the observed image, made by the open slot. */
  predicate AttemptIsLast(c: Core, head: int, backup: bool, observed: Image)
    requires c.unlocked.Some?
  {
    var g := c.unlocked.value.graph;
    && Some(observed) == c.committed && g.records != [] && g.head == head
    && (var last := g.records[|g.records| - 1];
        last.imm.kind == Records.Event && last.imm.author.slot == c.unlocked.value.slot
        && EventNamed(last, AttemptName(backup)))
  }

  // ---------- Leases ----------

  predicate LeaseGuard(c: Core, action: Leases.Action) {
    && c.candidate.None? && c.unlocked.Some? && c.state.access == ContainerState.Opened
    && (c.state.screen == Unlocked || action == Leases.Release)
    && c.state.phase == Idle && c.state.attention == Calm && c.state.target.None?
    && (c.state.screen == Unlocked ==> c.state.rights.edit)
    && Graphs.Allows(c.unlocked.value.permissions, Graphs.EDIT) && !c.unlocked.value.mustBeChanged
  }

  function StandingOf(c: Core): Leases.Standing
    requires c.unlocked.Some?
  {
    Leases.Standing(c.localSession, c.state.edit == Editing, c.unlocked.value.owner || c.unlocked.value.recovery)
  }

  ghost predicate LeaseAccepted(hash: Hash, c: Core, id: nat, change: Leases.LeaseChange, password: Password)
    requires Agrees(c) && Faithful(hash, c)
  {
    && LeaseGuard(c, change.action) && Fresh(c, id) && c.committed.Some? && OpensOwn(hash, c, password)
    && Leases.LeaseAllowed(c.committed.value.graph.lease, change, StandingOf(c))
  }

  ghost function LeaseProposal(hash: Hash, c: Core, id: nat, change: Leases.LeaseChange, password: Password, nonce: nat): Candidate
    requires c.committed.Some? && c.unlocked.Some?
  {
    var g := c.committed.value.graph;
    var image := Images.WithGraph(c.committed.value, g.(lease := Leases.NextLease(g.lease, change)), nonce);
    Proposal(c, id, image, Images.Unlocking(hash, image, password))
      .(leaseChange := true, leaseHeldAfter := change.action != Leases.Release, leaseSession := change.session)
  }

  predicate AdviceGuard(c: Core) {
    && c.unlocked.Some? && c.state.access == ContainerState.Opened && c.state.screen == Unlocked && c.state.phase == Idle
    && c.state.attention == Calm && c.state.rights.edit && c.state.edit == ReadOnly && !c.unlocked.value.mustBeChanged
  }

  // ---------- Targets ----------

  predicate TargetGuard(c: Core) {
    && c.state.access == ContainerState.Opened && c.state.screen == Unlocked && c.state.phase == Idle && c.state.activeSlot.Some?
    && c.documentId.Some? && c.committed.Some? && c.state.target.None? && c.target.None?
  }

  /** The observed image is a later or divergent version of the open document under the same key. */
  ghost predicate Related(c: Core, o: Opened)
    requires c.documentId.Some?
  {
    && o.documentId == c.documentId.value
    && (c.unlocked.Some? ==>
          && o.contentType == c.unlocked.value.contentType && o.journalKey == c.unlocked.value.journalKey
          && Lines.VerdictOn(c.unlocked.value.graph, o.graph).Ok?)
  }

  /** The open slot's wrapper is not the one the open session knows. */
  ghost predicate WrapperMoved(hash: Hash, c: Core, image: Image, o: Opened, password: Password)
    requires c.committed.Some?
  {
    || Some(o.slot) != c.state.activeSlot
    || (var known := Images.Unlocking(hash, c.committed.value, password); known.None? || known.value.slot != o.slot)
    || (c.unlocked.Some?
        && var i, j := Slots.IndexOf(c.unlocked.value.graph.slots, o.slot, 0), Slots.IndexOf(o.graph.slots, o.slot, 0);
           i >= |c.committed.value.wrappers| || j >= |image.wrappers| || c.committed.value.wrappers[i] != image.wrappers[j])
  }

  ghost function TargetRights(c: Core, o: Opened): Rights {
    if Some(o.slot) == c.state.activeSlot then RightsOf(o.permissions) else NO_RIGHTS
  }

  ghost predicate TargetAccepted(hash: Hash, c: Core, image: Image, password: Password) {
    && TargetGuard(c)
    && (var o := Images.Unlocking(hash, image, password);
        && o.Some? && Related(c, o.value) && Coherent(TargetRights(c, o.value))
        && (Some(o.value.slot) == c.state.activeSlot ==>
              Images.Unlocking(hash, c.committed.value, password).Some? || Images.Unauthentic(c.committed.value, password)))
  }
}
