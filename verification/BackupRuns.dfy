/**
 * A backup from beginning to end: the attempt, the host's action, the recorded outcome, and the compaction that
 * relies on it (src/container/container.cpp, prepare_activity_attempt to prepare_compaction).
 */
module BackupRuns {
  import opened Wrappers
  import opened TextValidation
  import opened ContainerState
  import opened ContainerCore
  import opened ContainerAgreement
  import opened Proposals
  import opened CredentialProposal
  import opened ContainerRequests
  import opened ContainerSteps
  import opened ContainerCalls
  import opened ContainerRuns
  import Graphs = RevisionGraph
  import Images = Envelope
  import Records = RevisionRecords
  import Validity = GraphValidity
  import Structure = GraphLemmas
  import Events = AppendEvent
  import Written = WrittenRecords
  import Texts = PublishedText
  import Lines = Lineage
  import Starts = Forks
  import Authorities = ContainerAuthority

  /** The image is the other's with one more record of the name, and nothing else new in the graph. */
  predicate Adds(before: Image, after: Image, name: string) {
    var g, h := before.graph, after.graph;
    && |h.records| == |g.records| + 1 && h.records[..|g.records|] == g.records
    && h.records[|g.records|].id == h.head && h.records[|g.records|].imm.previous == Some(g.head)
    && h.records[|g.records|].imm.kind == Records.Event && EventNamed(h.records[|g.records|], name)
    && h.lease == g.lease && h.slots == g.slots
    && after.documentId == before.documentId
  }

  /** An event proposal adds one record of its name, keeps the text, and opens like the committed image. */
  lemma ProposalRecords(hash: Hash, c: Core, id: nat, e: Events.EventRequest, password: Password, nonce: nat)
    requires Records.Injective(hash) && Agrees(c) && Faithful(hash, c) && c.unlocked.Some? && e.slots == c.unlocked.value.graph.slots
    requires Events.EventAllowed(c.unlocked.value.graph, e) && Events.EventFits(c.unlocked.value.graph, e)
    requires c.committed.Some? && OpensOwn(hash, c, password)
    ensures var cand := EventProposal(hash, c, id, e, password, nonce);
            && Adds(c.committed.value, cand.image, e.name)
            && HeadText(cand.image.graph) == HeadText(c.committed.value.graph)
            && cand.adopted.Some? && cand.adopted.value.slot == c.unlocked.value.slot
            && cand.adopted.value.graph == cand.image.graph
            && cand.operation == id && cand.generation == c.generation && !cand.discard
  {
    hide Agrees, Faithful, Graphs.Decodable, Images.Unlocking, Events.EventAllowed, Events.EventFits, Events.EventGraph, HeadText,
         Written.Signed;
    ActorFits(hash, c);
    var g := c.unlocked.value.graph;
    Events.EventCloses(hash, g, e);
    Written.EventWrites(hash, g, e);
    Texts.EventKeepsText(hash, c, id, e, password, nonce);
    PayloadOpens(hash, c, Events.EventGraph(hash, g, e), nonce, password);
  }

  // ---------- One activity ----------

  /** One call on a sound container. */
  ghost predicate Leads(env: Env, before: Core, call: Call, after: Core) {
    Sound(env, before) && Called(env, before, call) == after
  }

  /** A proposal in flight, once verified, is what is committed and open. */
  lemma VerifiedAdopts(env: Env, c: Core, cand: Candidate, purpose: Purpose)
    requires Fitting(env, c, cand, purpose) && (AttemptPurpose(purpose) || purpose == ActivityOutcome)
    ensures Sound(env, Begun(c, cand, purpose))
    ensures cand.activityBackup == (if purpose == BackupAttempt then Some(true) else if purpose == ExportAttempt then Some(false) else None)
    ensures var after := Answered(Begun(c, cand, purpose), cand.operation, Acknowledge(cand.operation, Verified));
            && Sound(env, after)
            && after.committed == Some(cand.image) && after.unlocked == cand.adopted && after.unlocked.Some? && after.candidate.None?
            && after.content == (if cand.discard && c.generation == cand.generation then Some(cand.discardedContent) else c.content)
            && after.generation == c.generation && after.documentId == c.documentId
            && after.pending == (if cand.activityBackup.Some?
                                 then Some(Pending(cand.operation, cand.adopted.value.graph.head, cand.activityBackup.value, None))
                                 else None)
            && after.state == (if AttemptPurpose(purpose)
                               then Begun(c, cand, purpose).state.(phase := AwaitingHostAction)
                               else ClearPublication(Begun(c, cand, purpose).state))
  {
    hide Agrees, Faithful, Records.Injective, FaithfulCandidate, Answered;
    BeginSucceeds(env.hash, c, cand, purpose);
    var begun := Begun(c, cand, purpose);
    AnswerKeepsSound(env, begun, cand.operation, Acknowledge(cand.operation, Verified));
    AnswerIs(begun, cand, purpose);
  }

  /** The verified answer, worked out. */
  lemma AnswerIs(begun: Core, cand: Candidate, purpose: Purpose)
    requires Agrees(begun) && begun.candidate == Some(cand) && (AttemptPurpose(purpose) || purpose == ActivityOutcome)
    requires begun.state.phase == Publishing && begun.state.operation == Some(cand.operation) && begun.state.purpose == Some(purpose)
    ensures cand.adopted.Some? && !cand.removesActive && !cand.slotChange && !cand.leaseChange
    ensures cand.activityBackup == (if purpose == BackupAttempt then Some(true) else if purpose == ExportAttempt then Some(false) else None)
    ensures var after := Answered(begun, cand.operation, Acknowledge(cand.operation, Verified));
            && after.committed == Some(cand.image) && after.unlocked == cand.adopted
            && after.content == (if cand.discard && begun.generation == cand.generation then Some(cand.discardedContent) else begun.content)
            && after.generation == begun.generation && after.documentId == begun.documentId
            && after.pending == (if cand.activityBackup.Some?
                                 then Some(Pending(cand.operation, cand.adopted.value.graph.head, cand.activityBackup.value, None))
                                 else None)
            && after.candidate.None?
            && after.state == (if AttemptPurpose(purpose) then begun.state.(phase := AwaitingHostAction) else ClearPublication(begun.state))
  {
    hide UnlockedAgrees, PendingAgrees, OpenAgrees, Consistent;
  }

  /** An accepted activity call begins its publication, and the host's verified answer settles it. */
  lemma BeginsAs(env: Env, c: Core, call: Call, begun: Core, after: Core)
    requires (call.PrepareActivityAttempt? || call.PrepareActivityOutcome?) && Leads(env, c, call, begun)
    requires Prepared(env, c, call).Some? && Leads(env, begun, AcknowledgeSave(call.id, Verified), after)
    ensures begun == Begun(c, Prepared(env, c, call).value, PurposeOf(call))
    ensures after == Answered(begun, call.id, Acknowledge(call.id, Verified)) && Sound(env, after)
  {
    hide Sound, Prepared, AfterUnlock, AfterTarget, SubmitAccepted, Answered;
    AnswerKeepsSound(env, begun, call.id, Acknowledge(call.id, Verified));
  }

  /** Publishing an attempt: what is committed, who is open, and what the host is asked for. */
  lemma AttemptIsPublished(env: Env, c: Core, call: Call, begun: Core, after: Core)
    requires call.PrepareActivityAttempt? && Leads(env, c, call, begun) && Prepared(env, c, call).Some?
    requires Leads(env, begun, AcknowledgeSave(call.id, Verified), after)
    ensures c.committed.Some? && c.unlocked.Some?
    ensures Sound(env, after) && after.committed == Some(Prepared(env, c, call).value.image)
            && after.unlocked.Some? && after.candidate.None?
            && Adds(c.committed.value, after.committed.value, if call.backup then "backup-attempted" else "export-attempted")
            && HeadText(after.committed.value.graph) == HeadText(c.committed.value.graph)
            && after.unlocked.value.slot == c.unlocked.value.slot && after.content == c.content
            && after.pending == Some(Pending(call.id, after.committed.value.graph.head, call.backup, None))
            && after.state.phase == AwaitingHostAction
            && Apply(begun.state, Acknowledge(call.id, Verified)).Ok?
            && Effect(if call.backup then PerformBackup else PerformExport, call.id)
               in Apply(begun.state, Acknowledge(call.id, Verified)).value.effects
  {
    hide Agrees, Faithful, Records.Injective, AfterUnlock, AfterTarget, SubmitAccepted, MergeTakes, FaithfulCandidate,
         Graphs.Decodable, Called, Answered, EventProposal, Events.EventAllowed, Events.EventFits, OpensOwn, HeadText, Adds, CandidateFits;
    BeginsAs(env, c, call, begun, after);
    AttemptPrepared(env, c, call);
    ActorFits(env.hash, c);
    var cand := PreparedAttempt(env, c, call).value;
    var e := ActivityEvent(c.unlocked.value, AttemptName(call.backup), "", 0, call.client);
    ProposalRecords(env.hash, c, call.id, e, call.password, call.nonce);
    VerifiedAdopts(env, c, cand, AttemptPurposeOf(call.backup));
  }

  /** Publishing an outcome. */
  lemma OutcomeIsPublished(env: Env, c: Core, call: Call, begun: Core, after: Core)
    requires call.PrepareActivityOutcome? && Leads(env, c, call, begun) && Prepared(env, c, call).Some?
    requires Leads(env, begun, AcknowledgeSave(call.id, Verified), after)
    ensures c.committed.Some? && c.unlocked.Some? && c.pending.Some? && c.pending.value.succeeded.Some?
    ensures OpensOwn(env.hash, c, call.password)
    ensures Sound(env, after) && after.committed.Some? && after.unlocked.Some? && after.pending.None?
            && Adds(c.committed.value, after.committed.value, OutcomeName(c.pending.value.backup, c.pending.value.succeeded.value))
            && HeadText(after.committed.value.graph) == HeadText(c.committed.value.graph)
            && after.unlocked.value.slot == c.unlocked.value.slot && after.content == c.content
            && after.state.phase == Idle
  {
    hide Agrees, Faithful, Records.Injective, AfterUnlock, AfterTarget, SubmitAccepted, MergeTakes, FaithfulCandidate,
         Graphs.Decodable, Called, Answered, EventProposal, Events.EventAllowed, Events.EventFits, OpensOwn, HeadText, Adds, CandidateFits;
    BeginsAs(env, c, call, begun, after);
    OutcomePrepared(env, c, call);
    ActorFits(env.hash, c);
    var cand := PreparedOutcome(env, c, call).value;
    var e := OutcomeEvent(c.unlocked.value, c.pending.value, PendingDetail(env, c), call.client);
    ProposalRecords(env.hash, c, call.id, e, call.password, call.nonce);
    VerifiedAdopts(env, c, cand, ActivityOutcome);
  }

  /** The host's answer is kept for the outcome. */
  lemma AnswerIsKept(env: Env, c: Core, id: nat, ok: bool)
    requires Sound(env, c) && c.pending.Some? && c.pending.value.operation == id && c.pending.value.succeeded.None?
    ensures var after := AfterCompletion(c, id, ok);
            && after.pending == Some(c.pending.value.(succeeded := Some(ok)))
            && after.committed == c.committed && after.unlocked == c.unlocked && after.content == c.content
    ensures Called(env, c, CompleteActivity(id, ok)) == AfterCompletion(c, id, ok)
  {
    hide Agrees, Faithful, Records.Injective, Prepared, AfterUnlock, AfterTarget, SubmitAccepted, MergeTakes;
  }

  /** An attempt is published, the host answers, and the outcome is published. */
  ghost predicate ActivityRun(env: Env, cs: seq<Core>, attempt: Call, ok: bool, outcome: Call) {
    && |cs| == 6 && attempt.PrepareActivityAttempt? && outcome.PrepareActivityOutcome?
    && Leads(env, cs[0], attempt, cs[1]) && Prepared(env, cs[0], attempt).Some?
    && Leads(env, cs[1], AcknowledgeSave(attempt.id, Verified), cs[2])
    && Leads(env, cs[2], CompleteActivity(attempt.id, ok), cs[3])
    && Leads(env, cs[3], outcome, cs[4]) && Prepared(env, cs[3], outcome).Some?
    && Leads(env, cs[4], AcknowledgeSave(outcome.id, Verified), cs[5])
  }

  /** Two records on, the image lacks exactly the success of its own backup. */
  lemma NamesDecide(first: Image, backup: Image, last: Image, before: bool, ok: bool)
    requires Adds(first, backup, if before then "backup-attempted" else "export-attempted")
    requires Adds(backup, last, OutcomeName(before, ok))
    ensures SupersededBy(backup.graph, last.graph) <==> before && ok
    ensures backup != last
  {
    var g, h := backup.graph, last.graph;
    var n := |g.records|;
    assert h.records[n - 1] == h.records[..n][n - 1] == g.records[n - 1];
  }

  /**
   * The image a host was asked to back up proves a compaction, once the outcome is recorded, exactly if what was
   * attempted was a backup and the host reported success.
   */
  lemma BackupProvesExactly(env: Env, cs: seq<Core>, attempt: Call, ok: bool, outcome: Call)
    requires ActivityRun(env, cs, attempt, ok, outcome)
    ensures cs[2].committed.Some? && cs[5].committed.Some? && cs[5].unlocked.Some?
    ensures BackupProves(env.hash, cs[5], cs[2].committed.value, outcome.password) <==> attempt.backup && ok
  {
    hide Sound, Called, Prepared, HeadText, Images.Unlocking, Adds, SupersededBy, OutcomeName;
    AttemptIsPublished(env, cs[0], attempt, cs[1], cs[2]);
    AnswerIsKept(env, cs[2], attempt.id, ok);
    OutcomeIsPublished(env, cs[3], outcome, cs[4], cs[5]);
    var backup, last := cs[2].committed.value, cs[5].committed.value;
    NamesDecide(cs[0].committed.value, backup, last, attempt.backup, ok);
    OpenedIsImage(env.hash, backup, outcome.password);
    AddsToSame(backup, last, OutcomeName(attempt.backup, ok));
  }

  lemma OpenedIsImage(hash: Hash, image: Image, password: Password)
    requires Images.Unlocking(hash, image, password).Some?
    ensures var o := Images.Unlocking(hash, image, password).value; o.graph == image.graph && o.documentId == image.documentId
  {
    hide Graphs.Decodable;
  }

  lemma AddsToSame(before: Image, after: Image, name: string)
    requires Adds(before, after, name)
    ensures after.documentId == before.documentId
  {
  }

  // ---------- After a restart ----------

  /**
   * A container that opens the attempted image for the same slot, whenever it does, can take up the journalled outcome of
   * exactly that attempt: at its head, of its kind.
   */
  lemma AttemptCanBeRestored(env: Env, c: Core, call: Call, begun: Core, after: Core, later: Core, head: int, backup: bool)
    requires call.PrepareActivityAttempt? && Leads(env, c, call, begun) && Prepared(env, c, call).Some?
    requires Leads(env, begun, AcknowledgeSave(call.id, Verified), after)
    requires c.committed.Some? && c.unlocked.Some?
    requires Sound(env, later) && later.committed == after.committed && after.committed.Some?
    requires later.unlocked.Some? && later.unlocked.value.slot == c.unlocked.value.slot
    ensures AttemptIsLast(later, head, backup, later.committed.value)
            <==> head == later.committed.value.graph.head && backup == call.backup
  {
    hide Agrees, Faithful, Records.Injective, Called, Prepared, Authorities.Signatory;
    AttemptIsPublished(env, c, call, begun, after);
    OwnSlotFits(env.hash, c);
    OwnSlotFits(env.hash, later);
    var s := c.committed.value.graph.slots[OwnSlot(c)];
    assert Authorities.OpenSlot(c, s);
    Authorities.PublicationsAreSigned(env, c, call, s);
    SignatoryIs(call, s);
  }

  lemma SignatoryIs(call: Call, s: Graphs.Slot)
    requires !call.PrepareSlotChange?
    ensures Authorities.Signatory(call, s) == s
  {
  }

  // ---------- What a proof is worth ----------

  /** A graph that holds the head just below an event holds everything else below it. */
  lemma HoldsAllBelow(hash: Hash, backup: Graphs.Graph, current: Graphs.Graph, i: nat)
    requires Records.Injective(hash) && Graphs.Decodable(hash, backup, Records.DEFAULT_LIMITS)
    requires Graphs.Decodable(hash, current, Records.DEFAULT_LIMITS) && SupersededBy(backup, current) && i + 1 < |current.records|
    ensures Lines.Holds(backup.records, current.records[i].id)
  {
    hide Graphs.Decodable;
    var rs, n := current.records, |current.records| - 1;
    Starts.StartFacts(hash, current);
    Starts.StartFacts(hash, backup);
    var ids := Lines.IdsOf(backup.records) + {current.head};
    EventRefers(hash, current);
    forall j, id | 0 <= j < |rs| && rs[j].id in ids && Records.Refers(rs[j].imm, id) ensures id in ids {
      if rs[j].id == current.head {
        Structure.DistinctIds(rs);
        assert id == backup.head;
      } else {
        Lines.SharedAncestor(hash, backup, current, j, id);
      }
    }
    Lines.ValidPart(hash, current);
    Structure.AllDescendToHead(rs, current.head, current.contentHead, ids, i);
    Structure.DistinctIds(rs);
  }

  /** An event names nothing but its predecessor. */
  lemma EventRefers(hash: Hash, g: Graphs.Graph)
    requires Graphs.Decodable(hash, g, Records.DEFAULT_LIMITS) && g.records != []
    ensures var r := g.records[|g.records| - 1];
            r.imm.event.Some? ==> r.imm.contentParent.None? && r.imm.mergeSources == []
  {
    hide Graphs.GoodSlots, Graphs.GoodLease, Validity.ValidGraph, Records.GoodBody;
    assert Records.GoodRecord(g.records[|g.records| - 1], Records.DEFAULT_LIMITS);
  }

  /** A backup that proves a compaction holds every record of the document but the one of its own success, and the same text. */
  lemma ProvingBackupHolds(hash: Hash, c: Core, backup: Image, password: Password, i: nat)
    requires Records.Injective(hash) && Faithful(hash, c) && c.committed.Some? && c.unlocked.Some?
    requires BackupProves(hash, c, backup, password) && i < |c.committed.value.graph.records|
    ensures HeadText(backup.graph) == HeadText(c.committed.value.graph)
    ensures Lines.Holds(backup.graph.records, c.committed.value.graph.records[i].id)
            || (i + 1 == |c.committed.value.graph.records| && EventNamed(c.committed.value.graph.records[i], "backup-succeeded"))
  {
    hide Graphs.Decodable, HeadText, Faithful;
    var g := c.committed.value.graph;
    ActorFits(hash, c);
    if backup == c.committed.value {
      assert g.records[i].id == backup.graph.records[i].id;
    } else {
      OpenedDecodes(hash, backup, password);
      if i + 1 < |g.records| { HoldsAllBelow(hash, backup.graph, g, i); }
    }
  }

  lemma OpenedDecodes(hash: Hash, image: Image, password: Password)
    requires Images.Unlocking(hash, image, password).Some?
    ensures Graphs.Decodable(hash, image.graph, Records.DEFAULT_LIMITS)
    ensures Images.Unlocking(hash, image, password).value.graph == image.graph
  {
    hide Graphs.Decodable;
  }
}
