/**
 * What a client can always do with a document it may edit: open it, take the lease, type and save, and, given all
 * rights, back it up and compact it (src/container/container.cpp). Every guard in between lets it through.
 */
module EditSession {
  import opened Wrappers
  import opened TextValidation
  import opened ContainerState
  import opened ContainerCore
  import opened ContainerAgreement
  import opened Proposals
  import opened CredentialProposal
  import opened ContainerRequests
  import opened ContainerSteps
  import opened ContainerCalls
  import opened ContainerRuns
  import Graphs = RevisionGraph
  import Images = Envelope
  import Slots = PasswordSlots
  import Records = RevisionRecords
  import Saves = SaveContent
  import Builders = BuilderRuns
  import Leases = LeaseProtocol
  import Times = LeaseTime
  import Ops = ImageOperations
  import Written = WrittenRecords
  import Authorities = ContainerAuthority
  import opened BackupRuns
  import Texts = PublishedText

  // ---------- Opening ----------

  /** The password opens the image to a slot that may edit and has settled on its password. */
  ghost predicate MayOpen(env: Env, image: Image, password: Password) {
    && Images.WellStructured(image)
    && (var o := Images.Unlocking(env.hash, image, password);
        && o.Some? && Slots.CoherentBits(o.value.permissions) && o.value.permissions % 2 == 1 && !o.value.mustBeChanged)
    && (image.contentType == 1 ==> env.csv(HeadText(image.graph)))
  }

  /** The container with nothing but the image open for the slot, showing its text. */
  ghost function ShownAs(image: Image, o: Opened): Core {
    EMPTY.(committed := Some(image), documentId := Some(image.documentId), unlocked := Some(o),
           content := Some(HeadText(image.graph)),
           state := INITIAL.(access := ContainerState.Opened, screen := Unlocked, activeSlot := Some(o.slot),
                             rights := RightsOf(o.permissions), lease := if image.graph.lease.active then OtherHolder else NoLease))
  }

  ghost function Shown(env: Env, image: Image, password: Password): Core
    requires Images.Unlocking(env.hash, image, password).Some?
  {
    ShownAs(image, Images.Unlocking(env.hash, image, password).value)
  }

  function JustOpened(image: Image): Core {
    EMPTY.(committed := Some(image), state := INITIAL.(access := ContainerState.Opened))
  }

  lemma OpenStep(env: Env, image: Image, c: Core)
    requires Images.WellStructured(image) && Leads(env, EMPTY, OpenDocument(image), c)
    ensures c == JustOpened(image)
  {
    hide Sound, Images.WellStructured, Prepared, AfterUnlock, AfterTarget, SubmitAccepted;
  }

  lemma UnlockStep(env: Env, image: Image, password: Password, c: Core)
    requires MayOpen(env, image, password) && Leads(env, JustOpened(image), UnlockDocument(password), c)
    ensures c == Shown(env, image, password)
  {
    hide Sound, Images.WellStructured, Prepared, AfterTarget, AfterUnlock, SubmitAccepted, MayOpen, Shown;
    assert c == AfterUnlock(env, JustOpened(image), password);
    UnlockingShows(env, image, password);
  }

  lemma UnlockingShows(env: Env, image: Image, password: Password)
    requires MayOpen(env, image, password)
    ensures AfterUnlock(env, JustOpened(image), password) == Shown(env, image, password)
  {
    hide Images.WellStructured, HeadText, Images.Unlocking, RightsOf, BitsOf, UnlockedCore, Slots.CoherentBits;
    UnlockedFrom(env.hash, image, password);
    InstallShows(image, Images.Unlocking(env.hash, image, password).value);
  }

  lemma InstallShows(image: Image, o: Opened)
    requires o.graph == image.graph && o.documentId == image.documentId && o.permissions <= 7 && Slots.CoherentBits(o.permissions)
    ensures var r := UnlockedCore(JustOpened(image), o, HeadText(o.graph));
            r.Ok? && r.value.core == ShownAs(image, o)
  {
    hide HeadText, RightsOf, BitsOf;
    BitsRoundTrip(o.permissions);
    CoherentRights(o.permissions);
  }

  // ---------- Publishing ----------

  /** A proposal published and settled: its image is committed and open, and a lease it took is held for editing. */
  function Settled(c: Core, cand: Candidate): Core {
    var idle := c.state.(lastOperation := cand.operation);
    c.(committed := Some(cand.image), unlocked := cand.adopted,
       state := if cand.leaseChange then idle.(lease := Held, edit := Editing) else idle,
       localSession := if cand.leaseChange then Some(cand.leaseSession) else c.localSession)
  }

  /** Nothing is in hand, and a slot that may edit is on the screen. */
  predicate AtRest(c: Core) {
    && c.candidate.None? && c.pending.None? && c.state.screen == Unlocked && c.state.phase == Idle
    && c.state.operation.None? && c.state.purpose.None? && c.state.rights.edit
  }

  lemma AnswerSettles(begun: Core, c: Core, cand: Candidate, purpose: Purpose)
    requires Agrees(c) && AtRest(c) && Agrees(begun) && begun == Begun(c, cand, purpose)
    requires purpose in {SaveKind, Compacting} || (purpose == LeaseChange && cand.leaseHeldAfter)
    requires !cand.discard
    ensures Answered(begun, cand.operation, Acknowledge(cand.operation, Verified)) == Settled(c, cand)
  {
    hide UnlockedAgrees, PendingAgrees, OpenAgrees;
    assert CandidateFits(begun, cand, purpose);
  }

  /** Whatever of these is prepared can be published. */
  lemma PublishSteps(env: Env, c: Core, call: Call, begun: Core, after: Core)
    requires Leads(env, c, call, begun) && AtRest(c) && Prepared(env, c, call).Some?
    requires (call.PrepareSave? && !call.save.discard) || call.PrepareCompaction?
             || (call.PrepareLeaseChange? && call.change.action != Leases.Release)
    requires Leads(env, begun, AcknowledgeSave(call.id, Verified), after)
    ensures after == Settled(c, Prepared(env, c, call).value) && Sound(env, after)
  {
    hide Agrees, Faithful, Records.Injective, Prepared, Answered, Settled, AtRest, AfterUnlock, AfterTarget, SubmitAccepted;
    var cand := Prepared(env, c, call).value;
    AnswerKeepsSound(env, begun, call.id, Acknowledge(call.id, Verified));
    CandidateIs(env, c, call);
    AnswerSettles(begun, c, cand, PurposeOf(call));
  }

  lemma CandidateIs(env: Env, c: Core, call: Call)
    requires Sound(env, c) && Prepared(env, c, call).Some?
    requires (call.PrepareSave? && !call.save.discard) || call.PrepareCompaction?
             || (call.PrepareLeaseChange? && call.change.action != Leases.Release)
    ensures var cand := Prepared(env, c, call).value;
            && cand.operation == call.id && !cand.discard
            && (call.PrepareLeaseChange? <==> cand.leaseChange) && (cand.leaseChange ==> cand.leaseHeldAfter)
  {
    hide Agrees, Faithful, Records.Injective, SubmitAccepted, OpensOwn, HeadText, BackupProves, Images.Unlocking;
  }

  // ---------- Taking the lease ----------

  /** The lease is free, or its time is up. */
  predicate Available(lease: Graphs.Lease, change: Leases.LeaseChange) {
    || (!lease.active && change.action == Leases.Acquire)
    || (lease.active && change.action == Leases.Takeover && change.explicit && change.session != lease.session
        && (change.now >= lease.holderUtc + lease.duration || change.still >= lease.duration))
  }

  /** The slot is open with its own rights, on a calm screen without a target, and the password is its own. */
  ghost predicate Sits(env: Env, c: Core, password: Password) {
    && Sound(env, c) && AtRest(c) && c.state.access == ContainerState.Opened && c.state.attention == Calm
    && c.state.target.None? && c.target.None? && c.committed.Some? && c.unlocked.Some? && c.content.Some?
    && c.unlocked == Images.Unlocking(env.hash, c.committed.value, password)
    && c.unlocked.value.permissions % 2 == 1 && !c.unlocked.value.mustBeChanged
  }

  lemma ShownSits(env: Env, image: Image, password: Password)
    requires MayOpen(env, image, password) && Sound(env, Shown(env, image, password))
    ensures Sits(env, Shown(env, image, password), password)
  {
    hide Agrees, Faithful, Records.Injective, Images.Unlocking, HeadText;
  }

  lemma LeaseIsPrepared(env: Env, c: Core, call: Call)
    requires call.PrepareLeaseChange? && Sits(env, c, call.password) && Fresh(c, call.id)
    requires Times.WellMade(call.change, c.committed.value.graph.lease)
    requires Available(c.committed.value.graph.lease, call.change)
    ensures Prepared(env, c, call) == Some(LeaseProposal(env.hash, c, call.id, call.change, call.password, call.nonce))
    ensures Leases.LeaseAllowed(c.committed.value.graph.lease, call.change, StandingOf(c))
  {
    hide Agrees, Faithful, Records.Injective, Images.Unlocking;
  }

  /** An owner, or a recovery slot, can take any other session's lease over at any time. */
  lemma OwnersTakeOver(env: Env, c: Core, call: Call, s: Graphs.Slot)
    requires call.PrepareLeaseChange? && Sits(env, c, call.password) && Fresh(c, call.id)
    requires s in c.committed.value.graph.slots && s.id == c.unlocked.value.slot && s.role in {0, 2}
    requires Times.WellMade(call.change, c.committed.value.graph.lease)
    requires c.committed.value.graph.lease.active && c.committed.value.graph.lease.session != call.change.session
    requires call.change.action == Leases.Takeover && call.change.explicit
    ensures Prepared(env, c, call).Some?
    ensures Prepared(env, c, call).value.image.graph.lease.session == call.change.session
  {
    hide Agrees, Faithful, Records.Injective, Images.Unlocking;
    OpenIsWhole(env.hash, c);
    Authorities.OwnSlotIs(env.hash, c, s);
  }

  /** Once that is published the client is editing, with the same text, under a lease of its own. */
  lemma LeaseSteps(env: Env, c: Core, call: Call, begun: Core, after: Core)
    requires call.PrepareLeaseChange? && Sits(env, c, call.password) && Fresh(c, call.id)
    requires Times.WellMade(call.change, c.committed.value.graph.lease)
    requires Available(c.committed.value.graph.lease, call.change)
    requires Leads(env, c, call, begun) && Leads(env, begun, AcknowledgeSave(call.id, Verified), after)
    ensures Sits(env, after, call.password) && HoldsEdit(after)
    ensures after.content == c.content && after.state.lastOperation == call.id && after.state.rights == c.state.rights
    ensures var g := c.committed.value.graph;
            && after.committed.value == Images.WithGraph(c.committed.value, g.(lease := Leases.NextLease(g.lease, call.change)), call.nonce)
            && after.localSession == Some(call.change.session) && after.unlocked.value.slot == c.unlocked.value.slot
            && after.committed.value.graph.lease.active && after.committed.value.graph.lease.session == call.change.session
            && (Builders.Built(env.hash, g) ==> Builders.Built(env.hash, after.committed.value.graph))
  {
    hide Agrees, Faithful, Records.Injective, Images.Unlocking, Prepared, Leases.LeaseAllowed, Times.WellMade, Called,
         Builders.Built;
    LeaseIsPrepared(env, c, call);
    PublishSteps(env, c, call, begun, after);
    LeasedOpens(env, c, call);
    if Builders.Built(env.hash, c.committed.value.graph) { LeaseBuilt(env, c, call); }
  }

  lemma LeasedOpens(env: Env, c: Core, call: Call)
    requires call.PrepareLeaseChange? && Sits(env, c, call.password)
    requires Leases.LeaseAllowed(c.committed.value.graph.lease, call.change, StandingOf(c))
    ensures var g := c.committed.value.graph.(lease := Leases.NextLease(c.committed.value.graph.lease, call.change));
            Images.Unlocking(env.hash, Images.WithGraph(c.committed.value, g, call.nonce), call.password)
            == Some(c.unlocked.value.(graph := g))
  {
    hide Agrees, Images.Unlocking, Leases.LeaseAllowed, Leases.NextLease;
    ActorFits(env.hash, c);
    var g := c.committed.value.graph;
    Leases.NextLeaseGood(g.lease, call.change, StandingOf(c));
    LeaseDecodes(env.hash, g, Leases.NextLease(g.lease, call.change));
    Ops.PayloadUnlocks(env.hash, c.committed.value, g.(lease := Leases.NextLease(g.lease, call.change)), call.nonce, call.password);
  }

  lemma LeaseDecodes(hash: Hash, g: Graphs.Graph, lease: Graphs.Lease)
    requires Graphs.Decodable(hash, g, Records.DEFAULT_LIMITS) && Graphs.GoodLease(lease)
    ensures Graphs.Decodable(hash, g.(lease := lease), Records.DEFAULT_LIMITS)
  {
  }

  lemma LeaseBuilt(env: Env, c: Core, call: Call)
    requires call.PrepareLeaseChange? && Sound(env, c) && c.committed.Some? && Builders.Built(env.hash, c.committed.value.graph)
    requires c.unlocked.Some? && Leases.LeaseAllowed(c.committed.value.graph.lease, call.change, StandingOf(c))
    ensures var g := c.committed.value.graph.(lease := Leases.NextLease(c.committed.value.graph.lease, call.change));
            Builders.Built(env.hash, g)
    ensures var l := Leases.NextLease(c.committed.value.graph.lease, call.change);
            call.change.action != Leases.Release ==> l.active && l.session == call.change.session
  {
    hide Agrees, Faithful, Builders.Built, Leases.LeaseAllowed;
    var lease := c.committed.value.graph.lease;
    Leases.NextLeaseGood(lease, call.change, StandingOf(c));
    Builders.OperationKeepsBuilt(env.hash, c.committed.value.graph, Builders.SetLease(Leases.NextLease(lease, call.change)));
  }

  ghost predicate Session(env: Env, cs: seq<Core>, calls: seq<Call>) {
    |cs| == |calls| + 1 && cs[0] == EMPTY && forall i | 0 <= i < |calls| :: Leads(env, cs[i], calls[i], cs[i + 1])
  }

  // ---------- Giving it back ----------

  /** A release published and settled: the lease is nobody's, and the screen only shows. */
  function Released(c: Core, cand: Candidate): Core {
    c.(committed := Some(cand.image), unlocked := cand.adopted, localSession := None,
       state := c.state.(lastOperation := cand.operation, lease := NoLease, edit := ReadOnly))
  }

  lemma AnswerReleases(begun: Core, c: Core, cand: Candidate)
    requires Agrees(c) && AtRest(c) && Agrees(begun) && begun == Begun(c, cand, LeaseChange)
    requires !cand.discard && !cand.leaseHeldAfter
    ensures Answered(begun, cand.operation, Acknowledge(cand.operation, Verified)) == Released(c, cand)
  {
    hide UnlockedAgrees, PendingAgrees, OpenAgrees;
    assert CandidateFits(begun, cand, LeaseChange);
  }

  lemma ReleaseIsPrepared(env: Env, c: Core, call: Call)
    requires call.PrepareLeaseChange? && call.change.action == Leases.Release && Sits(env, c, call.password) && Fresh(c, call.id)
    requires Times.WellMade(call.change, c.committed.value.graph.lease) && c.committed.value.graph.lease.active
    requires call.change.session == c.committed.value.graph.lease.session && c.localSession == Some(call.change.session)
    ensures Prepared(env, c, call) == Some(LeaseProposal(env.hash, c, call.id, call.change, call.password, call.nonce))
  {
    hide Agrees, Faithful, Records.Injective, Images.Unlocking;
  }

  /** A holder can always give its lease back: what is stored then is free, and so is the session. */
  lemma ReleaseSteps(env: Env, c: Core, call: Call, begun: Core, after: Core)
    requires call.PrepareLeaseChange? && call.change.action == Leases.Release && Sits(env, c, call.password) && Fresh(c, call.id)
    requires Times.WellMade(call.change, c.committed.value.graph.lease) && c.committed.value.graph.lease.active
    requires call.change.session == c.committed.value.graph.lease.session && c.localSession == Some(call.change.session)
    requires Leads(env, c, call, begun) && Leads(env, begun, AcknowledgeSave(call.id, Verified), after)
    ensures Sound(env, after) && after.committed.Some? && !after.committed.value.graph.lease.active
    ensures after.localSession.None? && after.state.lease == NoLease && after.state.edit == ReadOnly && after.state.phase == Idle
    ensures after.state.screen == Unlocked && after.content == c.content
    ensures after.committed.value.graph.records == c.committed.value.graph.records
  {
    hide Agrees, Faithful, Records.Injective, Images.Unlocking, Prepared, Times.WellMade, Answered, AfterUnlock, AfterTarget,
         SubmitAccepted;
    ReleaseIsPrepared(env, c, call);
    AnswerKeepsSound(env, begun, call.id, Acknowledge(call.id, Verified));
    AnswerReleases(begun, c, Prepared(env, c, call).value);
  }

  // ---------- Typing and saving ----------

  /** Text a document of the type may hold. */
  ghost predicate GoodText(env: Env, image: Image, text: Bytes) {
    CanonicalText(text) && |text| <= Records.DEFAULT_LIMITS.maxText && (image.contentType == 1 ==> env.csv(text))
  }

  lemma TextStep(env: Env, c: Core, password: Password, text: Bytes, after: Core)
    requires Sits(env, c, password) && HoldsEdit(c) && GoodText(env, c.committed.value, text)
    requires Leads(env, c, SubmitContent(text), after)
    ensures after == c.(content := Some(text), generation := c.generation + 1)
    ensures Sits(env, after, password) && HoldsEdit(after)
  {
    hide Agrees, Faithful, Records.Injective, Images.Unlocking, Prepared, AfterUnlock, AfterTarget, CanonicalText;
    UnlockedFrom(env.hash, c.committed.value, password);
    SubmittedAgrees(env.hash, c, text);
  }

  /** A save by name, with its time. */
  predicate GoodSave(v: SaveInput) {
    v.profileName != "" && v.profileEmail != "" && v.device != "" && v.timestamp <= Records.MAX_TIME && !v.discard
  }

  lemma SaveIsPrepared(env: Env, c: Core, call: Call)
    requires call.PrepareSave? && Sits(env, c, call.password) && HoldsEdit(c) && Fresh(c, call.id) && GoodSave(call.save)
    requires GoodText(env, c.committed.value, c.content.value) && Builders.Built(env.hash, c.committed.value.graph)
    requires |c.committed.value.graph.records| < Records.DEFAULT_LIMITS.maxEntries
    ensures SaveAccepted(env.hash, env.csv, c, call.id, call.save, call.password)
    ensures Prepared(env, c, call)
            == Some(SaveProposal(env.hash, env.csv, c, call.id, call.save, call.password, call.nonce))
  {
    hide Agrees, Faithful, Records.Injective, Images.Unlocking, CanonicalText, Builders.Built, Saves.SaveFits;
    UnlockedFrom(env.hash, c.committed.value, call.password);
    ActorFits(env.hash, c);
    Builders.BuiltSaveFits(env.hash, c.unlocked.value.graph, SaveOf(c.unlocked.value, c.content.value, call.save));
  }

  lemma SaveSteps(env: Env, c: Core, call: Call, begun: Core, after: Core)
    requires call.PrepareSave? && Sits(env, c, call.password) && HoldsEdit(c) && Fresh(c, call.id) && GoodSave(call.save)
    requires GoodText(env, c.committed.value, c.content.value) && Builders.Built(env.hash, c.committed.value.graph)
    requires |c.committed.value.graph.records| < Records.DEFAULT_LIMITS.maxEntries
    requires Leads(env, c, call, begun) && Leads(env, begun, AcknowledgeSave(call.id, Verified), after)
    ensures Sound(env, after) && after.committed.Some? && HeadText(after.committed.value.graph) == c.content.value
    ensures after.content == c.content && HoldsEdit(after) && AtRest(after)
    ensures after.committed.value.graph.lease == c.committed.value.graph.lease && after.localSession == c.localSession
  {
    hide Agrees, Faithful, Records.Injective, Images.Unlocking, Prepared, Called, Builders.Built, GoodText, SaveAccepted, HeadText,
         SaveProposal;
    SaveIsPrepared(env, c, call);
    PublishSteps(env, c, call, begun, after);
    Texts.SaveCommitsText(env.hash, env.csv, c, call.id, call.save, call.password, call.nonce);
    SaveLeavesLease(env, c, call);
  }

  lemma SaveLeavesLease(env: Env, c: Core, call: Call)
    requires call.PrepareSave? && Sound(env, c) && !call.save.discard
    requires SaveAccepted(env.hash, env.csv, c, call.id, call.save, call.password)
    ensures c.committed.Some?
    ensures var cand := SaveProposal(env.hash, env.csv, c, call.id, call.save, call.password, call.nonce);
            cand.image.graph.lease == c.committed.value.graph.lease && !cand.leaseChange
  {
    hide Agrees, Faithful, Records.Injective, Images.Unlocking, HeadText, Saves.SavedGraph, Graphs.Decodable, OpensOwn;
    ActorFits(env.hash, c);
    Written.SaveWrites(env.hash, c.unlocked.value.graph, SaveOf(c.unlocked.value, c.content.value, call.save));
  }

  // ---------- The whole session ----------

  lemma OpeningSteps(env: Env, image: Image, password: Password, c: Core, d: Core, after: Core, next: Call)
    requires MayOpen(env, image, password) && Leads(env, EMPTY, OpenDocument(image), c)
    requires Leads(env, c, UnlockDocument(password), d) && Leads(env, d, next, after)
    ensures Sits(env, d, password) && d.committed == Some(image) && d.state.lastOperation == 0
  {
    hide Called, Images.Unlocking, HeadText, Images.WellStructured, Agrees, Faithful, Records.Injective;
    OpenStep(env, image, c);
    UnlockStep(env, image, password, d);
    ShownSits(env, image, password);
  }

  lemma RestsUnlocked(c: Core)
    requires AtRest(c)
    ensures c.state.screen == Unlocked && c.state.phase == Idle
  {
  }

  /**
   * A slot that may edit opens any document the builders made, takes the lease when it is free or due, types any
   * text the document may hold, and saves it: the stored image then shows that text and that lease, and it goes on editing.
   */
  lemma EditorsCanSave(env: Env, cs: seq<Core>, image: Image, password: Password, lease: Call, text: Bytes, save: Call)
    requires lease.PrepareLeaseChange? && save.PrepareSave? && lease.password == save.password == password
    requires Session(env, cs, [OpenDocument(image), UnlockDocument(password), lease, AcknowledgeSave(lease.id, Verified),
                               SubmitContent(text), save, AcknowledgeSave(save.id, Verified)])
    requires MayOpen(env, image, password) && Builders.Built(env.hash, image.graph)
    requires Times.WellMade(lease.change, image.graph.lease) && Available(image.graph.lease, lease.change)
    requires GoodText(env, image, text) && GoodSave(save.save) && 0 < lease.id < save.id
    requires |image.graph.records| < Records.DEFAULT_LIMITS.maxEntries
    ensures var c := cs[7];
            && Sound(env, c) && c.committed.Some? && HeadText(c.committed.value.graph) == text && c.content == Some(text)
            && c.committed.value.graph.lease.active && c.committed.value.graph.lease.session == lease.change.session
            && c.localSession == Some(lease.change.session)
            && c.state.screen == Unlocked && c.state.phase == Idle && HoldsEdit(c)
  {
    hide Leads, Images.Unlocking, Builders.Built, Times.WellMade, Available, GoodSave, MayOpen, HeadText, Sits, CanonicalText, HoldsEdit,
         AtRest;
    var calls := [OpenDocument(image), UnlockDocument(password), lease, AcknowledgeSave(lease.id, Verified),
                  SubmitContent(text), save, AcknowledgeSave(save.id, Verified)];
    forall i | 0 <= i < 7 ensures Leads(env, cs[i], calls[i], cs[i + 1]) {}
    OpeningSteps(env, image, password, cs[1], cs[2], cs[3], lease);
    LeaseSteps(env, cs[2], lease, cs[3], cs[4]);
    TextStep(env, cs[4], password, text, cs[5]);
    SaveSteps(env, cs[5], save, cs[6], cs[7]);
    RestsUnlocked(cs[7]);
  }
}
