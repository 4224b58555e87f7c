/** On what terms a container publishes anything, takes text or takes up an outcome (src/container/container.cpp). */
module PublicationTerms {
  import opened Wrappers
  import opened TextValidation
  import opened ContainerState
  import opened ContainerCore
  import opened ContainerAgreement
  import opened Proposals
  import opened CredentialProposal
  import opened ContainerRequests
  import opened ContainerSteps
  import opened ContainerCalls
  import Graphs = RevisionGraph
  import Images = Envelope
  import Slots = PasswordSlots
  import Credentials = CredentialChange
  import Records = RevisionRecords
  import Validity = GraphValidity
  import Saves = SaveContent
  import Events = AppendEvent
  import Cuts = Compaction
  import History = HistoryService
  import Written = WrittenRecords
  import Lines = Lineage
  import Backups = BackupRuns

  /** Neither an attention, a target nor anything in flight stands in the way. */
  predicate Undisturbed(c: Core) {
    && c.candidate.None? && c.state.screen == Unlocked && c.state.attention == Calm && c.state.target.None? && c.target.None?
  }

  /** The editor shows exactly what is committed. */
  ghost predicate Clean(c: Core) {
    c.committed.Some? && c.content == Some(HeadText(c.committed.value.graph))
  }

  lemma CalmFacts(env: Env, c: Core)
    requires Sound(env, c) && c.unlocked.Some?
    ensures c.committed.Some? && c.unlocked.value.graph == c.committed.value.graph
    ensures OwnSlot(c) < |c.committed.value.graph.slots|
    ensures c.state.target.None? ==> c.target.None?
  {
    hide Records.Injective, UnlockedAgrees, CandidateAgrees, PendingAgrees;
    OwnSlotFits(env.hash, c);
  }

  // ---------- Activities ----------

  /** The event a proposal adds. */
  predicate Notes(g: Graphs.Graph, slot: Records.SlotId, name: string, status: nat, detail: string) {
    g.records != []
    && var e := g.records[|g.records| - 1].imm.event;
       e.Some? && e.value.name == name && e.value.status == Some(status) && e.value.detail == detail
       && e.value.affectedSlot == Some(slot)
  }

  /** A backup is attempted only of a clean document, and only of the very image the host will be given. */
  lemma AttemptTerms(env: Env, c: Core, call: Call)
    requires Sound(env, c) && call.PrepareActivityAttempt? && Prepared(env, c, call).Some?
    ensures Undisturbed(c) && c.state.phase == Idle && c.pending.None? && Some(call.observed) == c.committed
    ensures call.backup ==> call.clean && Clean(c)
    ensures !Graphs.HasProvisional(call.observed.graph)
    ensures c.unlocked.Some?
    ensures Notes(Prepared(env, c, call).value.image.graph, c.unlocked.value.slot,
                  if call.backup then "backup-attempted" else "export-attempted", 0, "")
  {
    hide Agrees, Faithful, Records.Injective, OpensOwn, HeadText, Graphs.HasProvisional, Events.EventGraph, Written.Signed;
    CalmFacts(env, c);
    ActorFits(env.hash, c);
    Saves.TailFacts(env.hash, c.unlocked.value.graph);
    Written.EventWrites(env.hash, c.unlocked.value.graph, ActivityEvent(c.unlocked.value, AttemptName(call.backup), "", 0, call.client));
  }

  /** An outcome is recorded for the attempt that is committed, and says what the host said. */
  lemma OutcomeTerms(env: Env, c: Core, call: Call)
    requires Sound(env, c) && call.PrepareActivityOutcome? && Prepared(env, c, call).Some?
    ensures Undisturbed(c) && c.state.phase == OutcomePending && Some(call.observed) == c.committed
    ensures c.unlocked.Some? && c.pending.Some? && c.pending.value.succeeded.Some?
    ensures c.pending.value.head == call.observed.graph.head
    ensures var backup, ok := c.pending.value.backup, c.pending.value.succeeded.value;
            Notes(Prepared(env, c, call).value.image.graph, c.unlocked.value.slot,
                  (if backup then "backup-" else "export-") + (if ok then "succeeded" else "failed"),
                  if ok then 1 else 2, "attempt=" + env.hex(call.observed.graph.head))
  {
    hide Agrees, Faithful, Records.Injective, OpensOwn, HeadText, Graphs.HasProvisional, Events.EventGraph, Written.Signed;
    CalmFacts(env, c);
    ActorFits(env.hash, c);
    PendingHead(c);
    Saves.TailFacts(env.hash, c.unlocked.value.graph);
    NamesSpelled();
    Written.EventWrites(env.hash, c.unlocked.value.graph, OutcomeEvent(c.unlocked.value, c.pending.value, PendingDetail(env, c), call.client));
  }

  lemma NamesSpelled()
    ensures "backup-" + "succeeded" == "backup-succeeded" && "backup-" + "failed" == "backup-failed"
    ensures "export-" + "succeeded" == "export-succeeded" && "export-" + "failed" == "export-failed"
  {
  }

  /** An outcome is taken up again only for an attempt this slot made, which nothing has followed. */
  lemma RestoreTerms(env: Env, c: Core, id: nat, head: int, backup: bool, ok: bool, observed: Image)
    requires Sound(env, c) && Called(env, c, RestoreActivityOutcome(id, head, backup, ok, observed)) != c
    ensures Undisturbed(c) && c.state.phase == Idle && c.pending.None? && c.unlocked.Some? && !c.unlocked.value.mustBeChanged
    ensures Some(observed) == c.committed && observed.graph.head == head && id > c.state.lastOperation && observed.graph.records != []
    ensures var r := observed.graph.records[|observed.graph.records| - 1];
            && r.imm.author.slot == c.unlocked.value.slot && r.imm.event.Some?
            && r.imm.event.value.name == if backup then "backup-attempted" else "export-attempted"
    ensures Called(env, c, RestoreActivityOutcome(id, head, backup, ok, observed)).pending == Some(Pending(id, head, backup, Some(ok)))
  {
    hide Agrees, Faithful, Records.Injective, Prepared, AfterUnlock, AfterTarget, SubmitAccepted;
    if c.unlocked.Some? { CalmFacts(env, c); }
  }

  // ---------- Compactions ----------

  /**
   * History is given up only on the user's word, in a clean document, by the session that holds the lease as it is
   * stored, and with a backup that reads the same text and holds every record but the note of its own success.
   */
  lemma CompactionTerms(env: Env, c: Core, call: Call, i: nat)
    requires Sound(env, c) && call.PrepareCompaction? && Prepared(env, c, call).Some?
    ensures Undisturbed(c) && c.state.phase == Idle && Clean(c) && call.compact.explicit && call.compact.clean && c.unlocked.Some?
    ensures c.committed.Some?
    ensures var lease := c.committed.value.graph.lease;
            && lease.active && c.localSession == Some(lease.session) && call.compact.session == lease.session
            && call.compact.counter == lease.counter
    ensures var g, b := c.committed.value.graph, call.compact.backup.graph;
            && HeadText(b) == HeadText(g)
            && (i < |g.records| ==>
                  Lines.Holds(b.records, g.records[i].id)
                  || (i + 1 == |g.records| && EventNamed(g.records[i], "backup-succeeded")))
            && b.lease.active && b.lease.session == g.lease.session && b.lease.counter == g.lease.counter
    ensures var o := Images.Unlocking(env.hash, call.compact.backup, call.password);
            o.Some? && o.value.slot == c.unlocked.value.slot && call.compact.backup.documentId == c.committed.value.documentId
  {
    hide Agrees, Faithful, HeadText, Images.Unlocking, Graphs.HasProvisional, Cuts.CompactAllowed, Cuts.CompactedGraph, Lines.Holds,
         History.ChosenCutoff, EventNamed;
    CalmFacts(env, c);
    ActorFits(env.hash, c);
    if i < |c.committed.value.graph.records| {
      Backups.ProvingBackupHolds(env.hash, c, call.compact.backup, call.password, i);
    } else {
      Saves.TailFacts(env.hash, c.committed.value.graph);
      Backups.ProvingBackupHolds(env.hash, c, call.compact.backup, call.password, 0);
    }
    if Images.Unlocking(env.hash, call.compact.backup, call.password).Some? {
      Backups.OpenedIsImage(env.hash, call.compact.backup, call.password);
    }
  }

  // ---------- Text and credentials ----------

  /** Text is taken only from a calm editor with nothing of an activity going on, and only text the document may hold. */
  lemma SubmissionTerms(env: Env, c: Core, text: Bytes)
    requires Sound(env, c) && Called(env, c, SubmitContent(text)) != c
    ensures c.state.screen == Unlocked && c.state.edit == Editing && c.state.rights.edit && c.state.attention == Calm && c.pending.None?
    ensures c.state.purpose !in {Some(BackupAttempt), Some(ExportAttempt)} && c.committed.Some?
    ensures CanonicalText(text) && |text| <= Records.DEFAULT_LIMITS.maxText && (c.committed.value.contentType == 1 ==> env.csv(text))
  {
    hide Faithful, Records.Injective, Prepared, AfterUnlock, AfterTarget, CanonicalText;
    if c.unlocked.Some? { TypeIs(env, c); }
  }

  lemma TypeIs(env: Env, c: Core)
    requires Sound(env, c) && c.unlocked.Some?
    ensures c.committed.Some? && c.unlocked.value.contentType == c.committed.value.contentType
  {
    hide Records.Injective;
  }

  /** Edit mode is entered exactly by a calm, open session with the right to edit and a settled password. */
  lemma ConfirmTerms(env: Env, c: Core)
    requires Sound(env, c) && c.state.edit == ReadOnly
    ensures Called(env, c, ConfirmEditLease).state.edit == Editing
            <==> c.state.screen == Unlocked && c.state.phase == Idle && c.state.attention == Calm && c.state.rights.edit
                 && c.unlocked.Some? && !c.unlocked.value.mustBeChanged
  {
    hide Faithful, Records.Injective, Prepared, AfterUnlock, AfterTarget, SubmitAccepted, CandidateFits;
  }

  /** Credentials change only with the password at hand, and a slot that removes itself leaves nothing unsaved. */
  lemma CredentialTerms(env: Env, c: Core, call: Call)
    requires Sound(env, c) && call.PrepareSlotChange? && Prepared(env, c, call).Some?
    ensures Undisturbed(c) && c.state.phase == Idle && c.unlocked.Some? && c.committed.Some?
    ensures call.slotChange.kind == Slots.RemoveSlot && call.slotChange.target == c.unlocked.value.slot ==>
              c.content.None? || Clean(c)
    ensures !(call.slotChange.kind == Slots.RemoveSlot && call.slotChange.target == c.unlocked.value.slot) ==>
              Prepared(env, c, call).value.adopted.Some?
              && Prepared(env, c, call).value.adopted.value.slot == c.unlocked.value.slot
  {
    hide Agrees, Faithful, HeadText, OpensOwn, Images.Unlocking, Credentials.ChangeAllowed, Credentials.Changed, Records.Injective;
    CalmFacts(env, c);
  }

  // ---------- What a password opens ----------

  /** The first wrapper of the password decides: its slot is opened with that slot's rights, role and outstanding change. */
  lemma OpenedAsStored(hash: Hash, image: Image, password: Password)
    requires Images.Unlocking(hash, image, password).Some?
    ensures var o := Images.Unlocking(hash, image, password).value;
            exists k :: 0 <= k < |image.wrappers| == |image.graph.slots|
              && image.wrappers[k].password == password && (forall j | 0 <= j < k :: image.wrappers[j].password != password)
              && (var s := image.graph.slots[k];
                  && o.slot == s.id && o.permissions == s.permissions
                  && (o.mustBeChanged <==> s.mustBeChanged || image.wrappers[k].mustBeChanged)
                  && (o.owner <==> s.role == 0) && (o.recovery <==> s.role == 2))
    ensures image.sealedOver == image.wrappers && Graphs.Decodable(hash, image.graph, Records.DEFAULT_LIMITS)
  {
    hide Graphs.Decodable;
    var k := Images.Selected(image.wrappers, password, 0);
    assert image.wrappers[k].password == password;
  }
}
