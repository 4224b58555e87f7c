/**
 * A client with all rights can always back its document up and then compact it: every guard from the attempt to the
 * compaction lets it through, and exactly as many deltas are kept as were asked for (src/container/container.cpp).
 */
module BackupSession {
  import opened Wrappers
  import opened TextValidation
  import opened ContainerState
  import opened ContainerCore
  import opened ContainerAgreement
  import opened Proposals
  import opened CredentialProposal
  import opened ContainerRequests
  import opened ContainerSteps
  import opened ContainerCalls
  import opened ContainerRuns
  import opened BackupRuns
  import opened EditSession
  import Graphs = RevisionGraph
  import Images = Envelope
  import Slots = PasswordSlots
  import Records = RevisionRecords
  import Saves = SaveContent
  import Builders = BuilderRuns
  import Events = AppendEvent
  import Cuts = Compaction
  import History = HistoryService
  import Ops = ImageOperations
  import Written = WrittenRecords
  import Texts = PublishedText

  /** The client's names and clock. */
  predicate GoodClient(v: ClientInput) {
    v.clientName != "" && v.clientEmail != "" && v.device != "" && v.timestamp <= Records.MAX_TIME
  }

  /** The slot is open with its own rights for this password, and its document is one the builders made, without a draft. */
  ghost predicate Holds(env: Env, c: Core, password: Password) {
    && Sound(env, c) && c.committed.Some? && c.unlocked.Some?
    && c.unlocked == Images.Unlocking(env.hash, c.committed.value, password) && !c.unlocked.value.mustBeChanged
    && Builders.Built(env.hash, c.committed.value.graph) && !Graphs.HasProvisional(c.committed.value.graph)
    && c.state.screen == Unlocked && c.state.attention == Calm && c.state.target.None? && c.candidate.None?
  }

  ghost predicate EventIsFit(c: Core, e: Events.EventRequest)
    requires c.unlocked.Some?
  {
    Events.EventAllowed(c.unlocked.value.graph, e) && Events.EventFits(c.unlocked.value.graph, e)
    && e.slots == c.unlocked.value.graph.slots
  }

  /** An event's proposal opens as before but for the one record. */
  lemma EventOpens(env: Env, c: Core, id: nat, e: Events.EventRequest, password: Password, nonce: nat)
    requires Holds(env, c, password) && EventIsFit(c, e)
    ensures c.unlocked.value.graph.records != []
    ensures var h := Events.EventGraph(env.hash, c.unlocked.value.graph, e);
            var cand := EventProposal(env.hash, c, id, e, password, nonce);
            && cand.image == Images.WithGraph(c.committed.value, h, nonce)
            && cand.adopted == Images.Unlocking(env.hash, cand.image, password) == Some(c.unlocked.value.(graph := h))
            && Builders.Built(env.hash, h) && !Graphs.HasProvisional(h) && HeadText(h) == HeadText(c.unlocked.value.graph)
            && |h.records| == |c.unlocked.value.graph.records| + 1 && h.lease == c.unlocked.value.graph.lease
            && h.slots == c.unlocked.value.graph.slots
  {
    hide Agrees, Images.Unlocking, Events.EventAllowed, Events.EventFits, Events.EventGraph, Builders.Built, HeadText, Written.Signed,
         Graphs.Decodable;
    ActorFits(env.hash, c);
    var g := c.unlocked.value.graph;
    Events.EventCloses(env.hash, g, e);
    Written.EventWrites(env.hash, g, e);
    Texts.EventKeepsText(env.hash, c, id, e, password, nonce);
    Builders.OperationKeepsBuilt(env.hash, g, Builders.Append(e));
    Ops.PayloadUnlocks(env.hash, c.committed.value, Events.EventGraph(env.hash, g, e), nonce, password);
  }

  // ---------- The activity ----------

  /** The container once an event's proposal is published, in the phase and with the pending activity that follow. */
  function Moved(c: Core, cand: Candidate, purpose: Purpose): Core
    requires cand.adopted.Some?
  {
    var after := Begun(c, cand, purpose).(committed := Some(cand.image), unlocked := cand.adopted, candidate := None);
    if AttemptPurpose(purpose)
    then after.(state := after.state.(phase := AwaitingHostAction),
                pending := Some(Pending(cand.operation, cand.adopted.value.graph.head, purpose == BackupAttempt, None)))
    else after.(state := ClearPublication(after.state), pending := None)
  }

  lemma AnswerMoves(begun: Core, c: Core, cand: Candidate, purpose: Purpose)
    requires Agrees(c) && Agrees(begun) && begun == Begun(c, cand, purpose) && !cand.discard
    requires AttemptPurpose(purpose) || purpose == ActivityOutcome
    ensures cand.adopted.Some?
    ensures Answered(begun, cand.operation, Acknowledge(cand.operation, Verified)) == Moved(c, cand, purpose)
  {
    hide UnlockedAgrees, PendingAgrees, OpenAgrees;
    assert CandidateFits(begun, cand, purpose);
  }

  lemma ActivitySteps(env: Env, c: Core, call: Call, begun: Core, after: Core)
    requires (call.PrepareActivityAttempt? || call.PrepareActivityOutcome?) && Leads(env, c, call, begun)
    requires Prepared(env, c, call).Some? && Leads(env, begun, AcknowledgeSave(call.id, Verified), after)
    ensures Prepared(env, c, call).value.adopted.Some? && Prepared(env, c, call).value.operation == call.id
    ensures after == Moved(c, Prepared(env, c, call).value, PurposeOf(call)) && Sound(env, after)
  {
    hide Agrees, Faithful, Records.Injective, Prepared, Answered, Moved, Called;
    BeginsAs(env, c, call, begun, after);
    ActivityCandidate(env, c, call);
    AnswerMoves(begun, c, Prepared(env, c, call).value, PurposeOf(call));
  }

  lemma ActivityCandidate(env: Env, c: Core, call: Call)
    requires Sound(env, c) && (call.PrepareActivityAttempt? || call.PrepareActivityOutcome?) && Prepared(env, c, call).Some?
    ensures Prepared(env, c, call).value.operation == call.id && !Prepared(env, c, call).value.discard
  {
    hide Agrees, Faithful, Records.Injective, Events.EventAllowed, Events.EventFits, Events.EventGraph, OpensOwn, HeadText,
         Images.Unlocking;
  }

  /** What an attempt asks: the document clean, the committed image in the host's hand, room, and a client by name. */
  ghost predicate AttemptAsked(env: Env, c: Core, call: Call) {
    && call.PrepareActivityAttempt? && Holds(env, c, call.password) && c.state.phase == Idle && c.state.access == ContainerState.Opened
    && c.pending.None? && Fresh(c, call.id) && Some(call.observed) == c.committed && GoodClient(call.client)
    && c.content.Some? && (call.backup ==> call.clean && c.content.value == HeadText(c.committed.value.graph))
    && |c.committed.value.graph.records| < Records.DEFAULT_LIMITS.maxEntries
  }

  lemma AttemptIsPrepared(env: Env, c: Core, call: Call)
    requires AttemptAsked(env, c, call)
    ensures AttemptAccepted(env.hash, c, call.id, call.backup, call.clean, call.observed, call.password, call.client)
    ensures OwnSlot(c) < |c.unlocked.value.graph.slots|
    ensures EventIsFit(c, ActivityEvent(c.unlocked.value, AttemptName(call.backup), "", 0, call.client))
  {
    hide Agrees, Faithful, Records.Injective, Images.Unlocking, Builders.Built, HeadText, Graphs.Decodable;
    ActorFits(env.hash, c);
    DecodedSlotsFit(env.hash, c.committed.value.graph);
  }

  lemma DecodedSlotsFit(hash: Hash, g: Graphs.Graph)
    requires Graphs.Decodable(hash, g, Records.DEFAULT_LIMITS)
    ensures Graphs.GoodSlots(g.slots) && 1 <= |g.slots| <= 9
  {
  }

  /** One event on, with nothing else about the open document changed. */
  ghost predicate OneEventOn(env: Env, before: Core, after: Core, password: Password) {
    && before.committed.Some? && before.unlocked.Some? && Holds(env, after, password)
    && after.unlocked.value == before.unlocked.value.(graph := after.committed.value.graph)
    && |after.committed.value.graph.records| == |before.committed.value.graph.records| + 1
    && after.committed.value.graph.lease == before.committed.value.graph.lease
    && after.committed.value.graph.slots == before.committed.value.graph.slots
    && HeadText(after.committed.value.graph) == HeadText(before.committed.value.graph)
    && after.content == before.content && after.localSession == before.localSession
    && after.state.edit == before.state.edit && after.state.lease == before.state.lease && after.state.rights == before.state.rights
    && after.target == before.target && after.state.access == before.state.access && after.state.screen == before.state.screen
  }

  lemma AttemptSteps(env: Env, c: Core, call: Call, begun: Core, after: Core)
    requires AttemptAsked(env, c, call)
    requires Leads(env, c, call, begun) && Leads(env, begun, AcknowledgeSave(call.id, Verified), after)
    ensures Prepared(env, c, call).Some? && OneEventOn(env, c, after, call.password)
    ensures after.state.phase == AwaitingHostAction && after.state.lastOperation == call.id && after.state.operation == Some(call.id)
    ensures after.pending == Some(Pending(call.id, after.committed.value.graph.head, call.backup, None))
  {
    hide Agrees, Faithful, Records.Injective, Images.Unlocking, Builders.Built, HeadText, Called, AttemptAccepted, EventProposal,
         Events.EventGraph, EventIsFit;
    AttemptIsPrepared(env, c, call);
    ActivitySteps(env, c, call, begun, after);
    EventOpens(env, c, call.id, ActivityEvent(c.unlocked.value, AttemptName(call.backup), "", 0, call.client), call.password, call.nonce);
    OpenedWith(env, c);
  }

  /** The open data says which graph is committed. */
  lemma OpenedWith(env: Env, c: Core)
    requires Sound(env, c) && c.unlocked.Some?
    ensures c.committed.Some? && c.unlocked.value.graph == c.committed.value.graph
  {
    hide Records.Injective;
  }

  /** The host's answer, reported in time. */
  lemma CompletionStep(env: Env, c: Core, id: nat, ok: bool, password: Password, after: Core)
    requires Holds(env, c, password) && c.pending.Some? && c.pending.value.operation == id && c.pending.value.succeeded.None?
    requires Leads(env, c, CompleteActivity(id, ok), after) && Sound(env, after)
    ensures after == c.(state := c.state.(phase := OutcomePending), pending := Some(c.pending.value.(succeeded := Some(ok))))
    ensures Holds(env, after, password)
  {
    hide Agrees, Faithful, Records.Injective, Images.Unlocking, Builders.Built, Called, Graphs.HasProvisional;
    AnswerIsKept(env, c, id, ok);
  }

  /** What an outcome asks. */
  ghost predicate OutcomeAsked(env: Env, c: Core, call: Call) {
    && call.PrepareActivityOutcome? && Holds(env, c, call.password) && c.state.phase == OutcomePending
    && c.pending.Some? && c.pending.value.succeeded.Some? && Fresh(c, call.id) && Some(call.observed) == c.committed
    && GoodClient(call.client) && |c.committed.value.graph.records| < Records.DEFAULT_LIMITS.maxEntries
  }

  lemma OutcomeIsPrepared(env: Env, c: Core, call: Call)
    requires OutcomeAsked(env, c, call)
    ensures OutcomeAccepted(env.hash, c, call.id, call.observed, call.password, PendingDetail(env, c), call.client)
    ensures OwnSlot(c) < |c.unlocked.value.graph.slots|
    ensures EventIsFit(c, OutcomeEvent(c.unlocked.value, c.pending.value, PendingDetail(env, c), call.client))
  {
    hide Agrees, Faithful, Records.Injective, Images.Unlocking, Builders.Built, HeadText, Graphs.Decodable, PendingDetail;
    ActorFits(env.hash, c);
    DecodedSlotsFit(env.hash, c.committed.value.graph);
    ActorIsSettled(env, c, call.password);
  }

  lemma ActorIsSettled(env: Env, c: Core, password: Password)
    requires Holds(env, c, password)
    ensures OwnSlot(c) < |c.unlocked.value.graph.slots| && !ActorOf(c.unlocked.value).mustBeChanged
    ensures ActorOf(c.unlocked.value).permissions == c.unlocked.value.permissions
  {
    hide Builders.Built, Graphs.Decodable, Images.WellStructured, Graphs.HasProvisional;
    OpenIsWhole(env.hash, c);
    OwnSlotFits(env.hash, c);
  }

  lemma OutcomeSteps(env: Env, c: Core, call: Call, begun: Core, after: Core)
    requires OutcomeAsked(env, c, call)
    requires Leads(env, c, call, begun) && Leads(env, begun, AcknowledgeSave(call.id, Verified), after)
    ensures Prepared(env, c, call).Some? && OneEventOn(env, c, after, call.password)
    ensures after.state.phase == Idle && after.state.operation.None? && after.state.purpose.None?
    ensures after.state.lastOperation == call.id && after.pending.None?
  {
    hide Agrees, Faithful, Records.Injective, Images.Unlocking, Builders.Built, HeadText, Called, OutcomeAccepted, EventProposal,
         Events.EventGraph, EventIsFit, PendingDetail;
    OutcomeIsPrepared(env, c, call);
    ActivitySteps(env, c, call, begun, after);
    EventOpens(env, c, call.id, OutcomeEvent(c.unlocked.value, c.pending.value, PendingDetail(env, c), call.client), call.password,
               call.nonce);
    OpenedWith(env, c);
  }

  // ---------- The compaction ----------

  /** What a compaction asks: all rights, the lease, the clean text, the user's word, and a backup that proves it. */
  ghost predicate CompactAsked(env: Env, c: Core, call: Call) {
    && call.PrepareCompaction? && Holds(env, c, call.password) && AtRest(c) && HoldsEdit(c)
    && c.state.access == ContainerState.Opened && c.target.None? && c.unlocked.value.permissions == 7
    && c.content == Some(HeadText(c.committed.value.graph)) && Fresh(c, call.id)
    && call.compact.explicit && call.compact.clean && c.localSession == Some(call.compact.session)
    && c.committed.value.graph.lease.active && c.committed.value.graph.lease.session == call.compact.session
    && c.committed.value.graph.lease.counter == call.compact.counter
    && call.compact.clientName != "" && call.compact.clientEmail != "" && call.compact.device != ""
    && call.compact.timestamp <= Records.MAX_TIME
    && BackupProves(env.hash, c, call.compact.backup, call.password)
    && |c.committed.value.graph.records| < Records.DEFAULT_LIMITS.maxEntries
  }

  lemma CompactIsPrepared(env: Env, c: Core, call: Call)
    requires CompactAsked(env, c, call)
    ensures CompactAccepted(env.hash, c, call.id, call.compact, call.password)
  {
    hide Agrees, Faithful, Images.Unlocking, HeadText, BackupProves, Graphs.Decodable, Cuts.Carriers, History.ChosenCutoff;
    ActorFits(env.hash, c);
    ActorIsSettled(env, c, call.password);
    AllRights(env, c);
    var g := c.unlocked.value.graph;
    History.RetainsExactly(env.hash, g, call.compact.retain);
    OwnMayCompact(c);
  }

  lemma AllRights(env: Env, c: Core)
    requires Sound(env, c) && c.state.screen == Unlocked && c.state.target.None? && c.unlocked.Some? && c.unlocked.value.permissions == 7
    ensures c.state.rights.edit && c.state.rights.add && c.state.rights.remove
  {
    hide Records.Injective, Faithful, CandidateAgrees, PendingAgrees, OpenAgrees;
  }

  lemma OwnMayCompact(c: Core)
    requires c.unlocked.Some? && OwnSlot(c) < |c.unlocked.value.graph.slots| && !ActorOf(c.unlocked.value).mustBeChanged
    requires ActorOf(c.unlocked.value).permissions == 7
    ensures Cuts.MayCompact(c.unlocked.value.graph.slots, ActorOf(c.unlocked.value))
  {
  }

  /** What the compaction leaves: the same text, and a note of exactly how much was kept. */
  lemma CompactSteps(env: Env, c: Core, call: Call, begun: Core, after: Core)
    requires CompactAsked(env, c, call)
    requires Leads(env, c, call, begun) && Leads(env, begun, AcknowledgeSave(call.id, Verified), after)
    ensures Sound(env, after) && after.committed.Some? && AtRest(after) && HoldsEdit(after) && after.content == c.content
    ensures HeadText(after.committed.value.graph) == HeadText(c.committed.value.graph)
    ensures Compacted(c.committed.value.graph, after.committed.value.graph, call.compact.retain)
  {
    hide Agrees, Faithful, Images.Unlocking, HeadText, BackupProves, Cuts.Carriers, History.ChosenCutoff, Called,
         CompactAccepted, CompactProposal, Compacted, Builders.Built;
    CompactIsPrepared(env, c, call);
    PublishSteps(env, c, call, begun, after);
    Texts.CompactionKeepsText(env.hash, c, call.id, call.compact, call.password, call.nonce);
    CompactionLeaves(env, c, call);
  }

  /** One record more, which notes that as many deltas were kept as asked for, or all there were. */
  ghost predicate Compacted(g: Graphs.Graph, h: Graphs.Graph, retain: nat) {
    && |h.records| == |g.records| + 1
    && (var e := h.records[|g.records|].imm.event;
        var deltas := |Cuts.Carriers(g.records, |g.records|)| - History.FirstAvailable(g.records, |g.records|) - 1;
        && e.Some? && e.value.name == "compaction" && e.value.retained.Some?
        && e.value.retained.value == if retain <= deltas then retain else deltas)
  }

  lemma CompactionLeaves(env: Env, c: Core, call: Call)
    requires call.PrepareCompaction? && Sound(env, c) && CompactAccepted(env.hash, c, call.id, call.compact, call.password)
    requires c.committed.Some? && Builders.Built(env.hash, c.committed.value.graph)
    ensures var cand := CompactProposal(env.hash, c, call.id, call.compact, call.password, call.nonce);
            !cand.leaseChange && Compacted(c.committed.value.graph, cand.image.graph, call.compact.retain)
  {
    hide Agrees, Faithful, Images.Unlocking, HeadText, BackupProves, Cuts.Carriers, History.ChosenCutoff, Graphs.Decodable,
         History.FirstAvailable, Cuts.CompactedGraph, Cuts.CompactAllowed, OpensOwn, Written.Signed;
    ActorFits(env.hash, c);
    var g := c.committed.value.graph;
    History.RetainsExactly(env.hash, g, call.compact.retain);
    Written.CompactWrites(env.hash, g, History.ChosenCutoff(g.records, call.compact.retain), CompactOf(c.unlocked.value, call.compact));
  }

  // ---------- From the backup to the compaction ----------

  ghost predicate BackedUpRun(env: Env, cs: seq<Core>, attempt: Call, outcome: Call, compact: Call) {
    && attempt.PrepareActivityAttempt? && outcome.PrepareActivityOutcome? && compact.PrepareCompaction?
    && |cs| == 8 && Leads(env, cs[0], attempt, cs[1]) && Leads(env, cs[1], AcknowledgeSave(attempt.id, Verified), cs[2])
    && Leads(env, cs[2], CompleteActivity(attempt.id, true), cs[3])
    && Leads(env, cs[3], outcome, cs[4]) && Leads(env, cs[4], AcknowledgeSave(outcome.id, Verified), cs[5])
    && Leads(env, cs[5], compact, cs[6]) && Leads(env, cs[6], AcknowledgeSave(compact.id, Verified), cs[7])
  }

  /**
   * An editing client with all rights, a clean text and a lease of its own: a backup that the host reports as done can be
   * recorded, and the image that was backed up then proves a compaction that keeps the text and exactly the deltas asked for.
   */
  lemma OwnersCanCompact(env: Env, cs: seq<Core>, attempt: Call, outcome: Call, compact: Call)
    requires BackedUpRun(env, cs, attempt, outcome, compact)
    requires attempt.password == outcome.password == compact.password && attempt.id < outcome.id < compact.id
    requires AttemptAsked(env, cs[0], attempt) && attempt.backup
    requires AtRest(cs[0]) && HoldsEdit(cs[0]) && cs[0].target.None? && cs[0].unlocked.value.permissions == 7
    requires cs[0].committed.value.graph.lease.active && cs[0].localSession == Some(cs[0].committed.value.graph.lease.session)
    requires |cs[0].committed.value.graph.records| + 3 <= Records.DEFAULT_LIMITS.maxEntries
    requires GoodClient(outcome.client) && Some(outcome.observed) == cs[2].committed == Some(compact.compact.backup)
    requires var v := compact.compact;
             && v.explicit && v.clean && v.clientName != "" && v.clientEmail != "" && v.device != "" && v.timestamp <= Records.MAX_TIME
             && v.session == cs[0].committed.value.graph.lease.session && v.counter == cs[0].committed.value.graph.lease.counter
    ensures Sound(env, cs[7]) && cs[7].committed.Some? && AtRest(cs[7]) && HoldsEdit(cs[7])
    ensures HeadText(cs[7].committed.value.graph) == HeadText(cs[0].committed.value.graph)
            && cs[7].content == Some(HeadText(cs[0].committed.value.graph))
    ensures cs[5].committed.Some? && Compacted(cs[5].committed.value.graph, cs[7].committed.value.graph, compact.compact.retain)
  {
    hide Called, Images.Unlocking, HeadText, Builders.Built, Compacted, BackupProves, Agrees, Faithful, Records.Injective;
    AttemptSteps(env, cs[0], attempt, cs[1], cs[2]);
    CompletionStep(env, cs[2], attempt.id, true, attempt.password, cs[3]);
    OutcomeSteps(env, cs[3], outcome, cs[4], cs[5]);
    BackupProvesExactly(env, cs[..6], attempt, true, outcome);
    CompactSteps(env, cs[5], compact, cs[6], cs[7]);
  }
}
