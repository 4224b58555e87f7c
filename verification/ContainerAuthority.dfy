/** Who may publish what, with which password, and in whose name (src/container/container.cpp, the prepare calls). */
module ContainerAuthority {
  import opened Wrappers
  import opened TextValidation
  import opened ContainerState
  import opened ContainerCore
  import opened ContainerAgreement
  import opened Proposals
  import opened CredentialProposal
  import opened ContainerRequests
  import opened ContainerSteps
  import opened ContainerCalls
  import Graphs = RevisionGraph
  import Images = Envelope
  import Slots = PasswordSlots
  import Credentials = CredentialChange
  import Records = RevisionRecords
  import Validity = GraphValidity
  import Saves = SaveContent
  import Events = AppendEvent
  import Cuts = Compaction
  import History = HistoryService
  import Merging = MergeSave
  import MergeSpec = MergeGraphs
  import Leases = LeaseProtocol
  import Written = WrittenRecords
  import Texts = PublishedText
  import Lines = Lineage
  import Starts = Forks

  predicate MayEdit(s: Graphs.Slot) { s.permissions % 2 == 1 }
  predicate MayAdd(s: Graphs.Slot) { s.permissions / 2 % 2 == 1 }
  predicate MayRemove(s: Graphs.Slot) { s.permissions / 4 % 2 == 1 }

  /** The slot that is open, as the committed image has it. */
  predicate OpenSlot(c: Core, s: Graphs.Slot) {
    c.unlocked.Some? && c.committed.Some? && s in c.committed.value.graph.slots && s.id == c.unlocked.value.slot
  }

  /** What the slot must be allowed for a call to prepare anything. */
  predicate Authority(call: Call, s: Graphs.Slot, mustBeChanged: bool) {
    match call
    case PrepareSave(_, _, _, _) => MayEdit(s) && !mustBeChanged
    case PrepareMerge(_, _, _, _, _, _) => MayEdit(s) && !s.mustBeChanged
    case PrepareCompaction(_, _, _, _) => MayEdit(s) && MayAdd(s) && MayRemove(s) && !s.mustBeChanged
    case PrepareLeaseChange(_, _, _, _) => MayEdit(s) && !mustBeChanged
    case PrepareActivityAttempt(_, _, _, _, _, _, _) => !mustBeChanged
    case PrepareActivityOutcome(_, _, _, _, _) => !s.mustBeChanged
    case PrepareSlotChange(_, ch, _, _) =>
      (match ch.kind
      case ClaimInvitation => mustBeChanged && s.role == 1
      case AddInvitation => !mustBeChanged && MayAdd(s)
      case UpdatePermissions => !mustBeChanged && MayAdd(s) && MayRemove(s)
      case RemoveSlot => !mustBeChanged && MayRemove(s)
      case ReconcileIdentity => !mustBeChanged && s.role != 2
      case ChangePassword => !mustBeChanged)
    case _ => false
  }

  lemma OwnSlotIs(hash: Hash, c: Core, s: Graphs.Slot)
    requires Faithful(hash, c) && OpenSlot(c, s)
    ensures OwnSlot(c) < |c.committed.value.graph.slots| && s == c.committed.value.graph.slots[OwnSlot(c)]
    ensures s == ActorOf(c.unlocked.value) && s.permissions == OwnPermissions(c.unlocked.value) && s.permissions <= 7
  {
    hide Graphs.Decodable, Images.WellStructured, Graphs.GoodSlot;
    OwnSlotFits(hash, c);
    FaithfulDecodes(hash, c.committed.value, c.unlocked.value);
    Credentials.DecodedSlots(hash, c.committed.value.graph);
  }

  lemma BitsMean(s: Graphs.Slot)
    requires s.permissions <= 7
    ensures MayEdit(s) == Graphs.Allows(s.permissions, Graphs.EDIT) == RightsOf(s.permissions).edit
    ensures MayAdd(s) == Graphs.Allows(s.permissions, Graphs.ADD) == RightsOf(s.permissions).add
    ensures MayRemove(s) == Graphs.Allows(s.permissions, Graphs.REMOVE) == RightsOf(s.permissions).remove
  {
  }

  /** On an unlocked screen without a target the state's rights are the slot's own. */
  lemma RightsAreOwn(hash: Hash, c: Core, s: Graphs.Slot)
    requires Agrees(c) && Faithful(hash, c) && OpenSlot(c, s) && c.state.screen == Unlocked && c.state.target.None?
    ensures c.state.rights == RightsOf(s.permissions) && c.unlocked.value.permissions == s.permissions
  {
    hide Faithful, CandidateAgrees, PendingAgrees, OpenAgrees, Consistent, OwnPermissions, RightsOf, BitsOf;
    OwnSlotIs(hash, c, s);
    OpenIsWhole(hash, c);
  }

  lemma SaveAuthority(env: Env, c: Core, call: Call, s: Graphs.Slot)
    requires Sound(env, c) && call.PrepareSave? && PreparedSave(env, c, call).Some? && OpenSlot(c, s)
    ensures Authority(call, s, c.unlocked.value.mustBeChanged)
    ensures OpensOwn(env.hash, c, call.password) && c.state.attention == Calm && c.state.target.None? && c.candidate.None?
  {
    hide Agrees, Faithful, Records.Injective, OpensOwn, Saves.SaveAllowed, Saves.SaveFits, SaveProposal;
    OwnSlotIs(env.hash, c, s);
    RightsAreOwn(env.hash, c, s);
    BitsMean(s);
  }

  lemma MergeAuthority(env: Env, c: Core, call: Call, s: Graphs.Slot)
    requires Sound(env, c) && call.PrepareMerge? && PreparedMerge(env, c, call).Some? && OpenSlot(c, s)
    ensures Authority(call, s, c.unlocked.value.mustBeChanged)
    ensures OpensOwn(env.hash, c, call.password) && c.state.attention == Calm && c.state.target.None? && c.candidate.None?
  {
    hide Agrees, Faithful, Records.Injective, Merging.GraphsMerge, MergeProposal, SubmitAccepted, Graphs.Decodable;
    OwnSlotIs(env.hash, c, s);
    RightsAreOwn(env.hash, c, s);
    BitsMean(s);
    var o := Images.Unlocking(env.hash, c.committed.value, call.password).value;
    Merging.UnlockedDecodes(env.hash, c.committed.value, call.password);
    Credentials.DecodedSlots(env.hash, c.committed.value.graph);
    var k := Images.Selected(c.committed.value.wrappers, call.password, 0);
    Credentials.OwnIndex(env.hash, c.committed.value, k);
  }

  lemma CompactAuthority(env: Env, c: Core, call: Call, s: Graphs.Slot)
    requires Sound(env, c) && call.PrepareCompaction? && PreparedCompaction(env, c, call).Some? && OpenSlot(c, s)
    ensures Authority(call, s, c.unlocked.value.mustBeChanged)
    ensures OpensOwn(env.hash, c, call.password) && c.state.attention == Calm && c.state.target.None? && c.candidate.None?
  {
    hide Agrees, Faithful, Records.Injective, OpensOwn, CompactProposal, BackupProves, HeadText, Cuts.Carriers, Validity.LineAfter;
    OwnSlotIs(env.hash, c, s);
    RightsAreOwn(env.hash, c, s);
    BitsMean(s);
  }

  /** A locked session can only give its own lease back. */
  lemma LeaseAuthority(env: Env, c: Core, call: Call, s: Graphs.Slot)
    requires Sound(env, c) && call.PrepareLeaseChange? && PreparedLease(env, c, call).Some? && OpenSlot(c, s)
    ensures !c.unlocked.value.mustBeChanged
    ensures c.state.screen == Unlocked ==> Authority(call, s, c.unlocked.value.mustBeChanged)
    ensures c.state.screen == Locked ==>
              call.change.action == Leases.Release && c.committed.value.graph.lease.active
              && c.localSession == Some(c.committed.value.graph.lease.session)
    ensures OpensOwn(env.hash, c, call.password) && c.state.attention == Calm && c.state.target.None? && c.candidate.None?
  {
    hide Agrees, Faithful, Records.Injective, OpensOwn, LeaseProposal;
    if c.state.screen == Unlocked {
      OwnSlotIs(env.hash, c, s);
      RightsAreOwn(env.hash, c, s);
      BitsMean(s);
    }
  }

  lemma ActivityAuthority(env: Env, c: Core, call: Call, s: Graphs.Slot)
    requires Sound(env, c) && (call.PrepareActivityAttempt? || call.PrepareActivityOutcome?)
    requires Prepared(env, c, call).Some? && OpenSlot(c, s)
    ensures Authority(call, s, c.unlocked.value.mustBeChanged)
    ensures OpensOwn(env.hash, c, call.password) && c.state.attention == Calm && c.state.target.None? && c.candidate.None?
  {
    hide Agrees, Faithful, Records.Injective, OpensOwn, EventProposal, Events.EventAllowed, Events.EventFits, HeadText;
    OwnSlotIs(env.hash, c, s);
  }

  lemma ChangeAuthority(env: Env, c: Core, call: Call, s: Graphs.Slot)
    requires Sound(env, c) && call.PrepareSlotChange? && PreparedChange(env, c, call).Some? && OpenSlot(c, s)
    ensures Authority(call, s, c.unlocked.value.mustBeChanged)
    ensures OpensOwn(env.hash, c, call.password) && c.state.attention == Calm && c.state.target.None? && c.candidate.None?
  {
    hide Agrees, Faithful, Records.Injective, OpensOwn, ChangeProposal, Events.EventAllowed, Events.EventFits, HeadText, Readopts,
         Graphs.Decodable, Slots.PlanFor, Images.Unauthentic, Slots.Ordinary, Slots.Within, Slots.CoherentBits, Slots.GoodIdentity;
    OwnSlotIs(env.hash, c, s);
    OpenIsWhole(env.hash, c);
    OwnSlotFits(env.hash, c);
    Credentials.OwnIndex(env.hash, c.committed.value, OwnSlot(c));
    BitsMean(s);
  }

  /**
   * Nothing is prepared but with the password of the open slot, while nothing else is in flight, raised or observed, and
   * with the rights the committed image gives that slot; and an unclaimed slot can only be claimed.
   */
  lemma PublicationsAreAuthorised(env: Env, c: Core, call: Call, s: Graphs.Slot)
    requires Sound(env, c) && Prepared(env, c, call).Some? && OpenSlot(c, s)
    ensures OpensOwn(env.hash, c, call.password) && c.state.attention == Calm && c.state.target.None? && c.candidate.None?
    ensures Authority(call, s, c.unlocked.value.mustBeChanged)
            || (c.state.screen == Locked && call.PrepareLeaseChange? && call.change.action == Leases.Release
                && c.localSession == Some(c.committed.value.graph.lease.session))
  {
    hide Sound, PreparedSave, PreparedMerge, PreparedCompaction, PreparedChange, PreparedLease, PreparedAttempt, PreparedOutcome,
         Authority, OpensOwn;
    match call
    case PrepareSave(_, _, _, _) => SaveAuthority(env, c, call, s);
    case PrepareMerge(_, _, _, _, _, _) => MergeAuthority(env, c, call, s);
    case PrepareCompaction(_, _, _, _) => CompactAuthority(env, c, call, s);
    case PrepareSlotChange(_, _, _, _) => ChangeAuthority(env, c, call, s);
    case PrepareLeaseChange(_, _, _, _) => LeaseAuthority(env, c, call, s);
    case PrepareActivityAttempt(_, _, _, _, _, _, _) => ActivityAuthority(env, c, call, s);
    case PrepareActivityOutcome(_, _, _, _, _) => ActivityAuthority(env, c, call, s);
  }

  // ---------- In whose name ----------

  /** The record is the slot's, under the slot's own name and address as far as it has them. */
  predicate SignedBy(r: Records.Record, s: Graphs.Slot) {
    r.imm.author.slot == s.id
    && (s.name != "" ==> r.imm.author.actorName == s.name) && (s.email != "" ==> r.imm.author.actorEmail == s.email)
  }

  /** A claim and a reconciliation are signed under the identity they establish. */
  function Signatory(call: Call, s: Graphs.Slot): Graphs.Slot {
    if call.PrepareSlotChange? && call.slotChange.kind in {Slots.ClaimInvitation, Slots.ReconcileIdentity}
    then s.(name := call.slotChange.name, email := call.slotChange.email) else s
  }

  /** The call writes a record of its own: all do but a discard and a lease change. */
  predicate Writes(call: Call) {
    !call.PrepareLeaseChange? && !(call.PrepareSave? && call.save.discard)
  }

  lemma SaveSigned(env: Env, c: Core, call: Call, s: Graphs.Slot)
    requires Sound(env, c) && call.PrepareSave? && PreparedSave(env, c, call).Some? && OpenSlot(c, s) && Writes(call)
    ensures var rs := PreparedSave(env, c, call).value.image.graph.records; rs != [] && SignedBy(rs[|rs| - 1], s)
  {
    hide Agrees, Faithful, Records.Injective, OpensOwn, Saves.SaveAllowed, Saves.SaveFits, Saves.SavedGraph, Graphs.Decodable;
    OwnSlotIs(env.hash, c, s);
    ActorFits(env.hash, c);
    Written.SaveWrites(env.hash, c.unlocked.value.graph, SaveOf(c.unlocked.value, c.content.value, call.save));
  }

  lemma MergeSigned(env: Env, c: Core, call: Call, s: Graphs.Slot)
    requires Sound(env, c) && call.PrepareMerge? && PreparedMerge(env, c, call).Some? && OpenSlot(c, s)
    ensures var rs := PreparedMerge(env, c, call).value.image.graph.records; rs != [] && SignedBy(rs[|rs| - 1], s)
  {
    hide Agrees, Faithful, Records.Injective, Merging.GraphsMerge, SubmitAccepted, Graphs.Decodable, MergeSpec.MergedGraph;
    OwnSlotIs(env.hash, c, s);
    Merging.UnlockedDecodes(env.hash, c.committed.value, call.password);
    Merging.UnlockedDecodes(env.hash, call.replica, call.replicaPassword);
    var t := Images.Unlocking(env.hash, c.committed.value, call.password).value;
    var l := Images.Unlocking(env.hash, call.replica, call.replicaPassword).value;
    OwnSlotFits(env.hash, c);
    assert Merging.RequestFor(t, call.resolution).actor == s;
    Written.MergeWrites(env.hash, l.graph, t.graph, Merging.RequestFor(t, call.resolution));
  }

  lemma CompactionSigned(env: Env, c: Core, call: Call, s: Graphs.Slot)
    requires Sound(env, c) && call.PrepareCompaction? && PreparedCompaction(env, c, call).Some? && OpenSlot(c, s)
    ensures var rs := PreparedCompaction(env, c, call).value.image.graph.records; rs != [] && SignedBy(rs[|rs| - 1], s)
  {
    hide Agrees, Faithful, Records.Injective, OpensOwn, BackupProves, HeadText, Cuts.Carriers, Validity.LineAfter, Graphs.Decodable,
         Cuts.CompactedGraph, Cuts.MayCompact;
    OwnSlotIs(env.hash, c, s);
    ActorFits(env.hash, c);
    var g := c.unlocked.value.graph;
    Written.CompactWrites(env.hash, g, History.ChosenCutoff(g.records, call.compact.retain), CompactOf(c.unlocked.value, call.compact));
  }

  lemma EventSigned(hash: Hash, c: Core, id: nat, e: Events.EventRequest, password: Password, nonce: nat, s: Graphs.Slot)
    requires Faithful(hash, c) && OpenSlot(c, s) && e.actor == s
    ensures var rs := EventProposal(hash, c, id, e, password, nonce).image.graph.records; rs != [] && SignedBy(rs[|rs| - 1], s)
  {
    hide Faithful, Graphs.Decodable, Images.Unlocking, Events.EventGraph;
    ActorFits(hash, c);
    Saves.TailFacts(hash, c.unlocked.value.graph);
    Written.EventWrites(hash, c.unlocked.value.graph, e);
  }

  lemma ActivitySigned(env: Env, c: Core, call: Call, s: Graphs.Slot)
    requires Sound(env, c) && (call.PrepareActivityAttempt? || call.PrepareActivityOutcome?)
    requires Prepared(env, c, call).Some? && OpenSlot(c, s)
    ensures var rs := Prepared(env, c, call).value.image.graph.records; rs != [] && SignedBy(rs[|rs| - 1], s)
  {
    hide Agrees, Faithful, Records.Injective, OpensOwn, EventProposal, Events.EventAllowed, Events.EventFits, HeadText, SignedBy;
    OwnSlotIs(env.hash, c, s);
    ActorFits(env.hash, c);
    if call.PrepareActivityAttempt? {
      EventSigned(env.hash, c, call.id, ActivityEvent(c.unlocked.value, AttemptName(call.backup), "", 0, call.client),
                  call.password, call.nonce, s);
    } else {
      EventSigned(env.hash, c, call.id, OutcomeEvent(c.unlocked.value, c.pending.value, PendingDetail(env, c), call.client),
                  call.password, call.nonce, s);
    }
  }

  lemma ChangeSigned(env: Env, c: Core, call: Call, s: Graphs.Slot)
    requires Sound(env, c) && call.PrepareSlotChange? && PreparedChange(env, c, call).Some? && OpenSlot(c, s)
    ensures var rs := PreparedChange(env, c, call).value.image.graph.records; rs != [] && SignedBy(rs[|rs| - 1], Signatory(call, s))
  {
    hide Agrees, Faithful, Records.Injective, OpensOwn, Events.EventAllowed, Events.EventFits, HeadText, Readopts,
         Graphs.Decodable, Slots.PlanFor, Slots.Authorised, Images.Unauthentic, Events.EventGraph, Images.Unlocking;
    OwnSlotIs(env.hash, c, s);
    OwnSlotFits(env.hash, c);
    var image, k := c.committed.value, OwnSlot(c);
    Credentials.DecodedSlots(env.hash, image.graph);
    var plan := Slots.PlanFor(image.graph.slots, Images.OpenedBy(image, k), call.slotChange, call.context.id, call.context.managementId);
    Written.EventWrites(env.hash, image.graph, Credentials.EventFor(plan, image.graph.slots[k], call.slotChange, call.context));
  }

  /** Whatever is published is signed by the slot whose password published it. */
  lemma PublicationsAreSigned(env: Env, c: Core, call: Call, s: Graphs.Slot)
    requires Sound(env, c) && Prepared(env, c, call).Some? && OpenSlot(c, s) && Writes(call)
    ensures var rs := Prepared(env, c, call).value.image.graph.records; rs != [] && SignedBy(rs[|rs| - 1], Signatory(call, s))
  {
    hide Sound, PreparedSave, PreparedMerge, PreparedCompaction, PreparedChange, PreparedLease, PreparedAttempt, PreparedOutcome,
         SignedBy;
    match call
    case PrepareSave(_, _, _, _) => SaveSigned(env, c, call, s);
    case PrepareMerge(_, _, _, _, _, _) => MergeSigned(env, c, call, s);
    case PrepareCompaction(_, _, _, _) => CompactionSigned(env, c, call, s);
    case PrepareSlotChange(_, _, _, _) => ChangeSigned(env, c, call, s);
    case PrepareActivityAttempt(_, _, _, _, _, _, _) => ActivitySigned(env, c, call, s);
    case PrepareActivityOutcome(_, _, _, _, _) => ActivitySigned(env, c, call, s);
  }

  // ---------- New passwords ----------

  /** No change brings in a weak, empty or overlong password, or one where none is due. */
  lemma NewPasswordsAreSound(env: Env, c: Core, call: Call)
    requires Sound(env, c) && call.PrepareSlotChange? && PreparedChange(env, c, call).Some?
    ensures var ch := call.slotChange;
            if ch.kind in {Slots.ChangePassword, Slots.AddInvitation, Slots.ClaimInvitation}
            then ch.strong && 1 <= |ch.newPassword| <= 4096
            else ch.newPassword == []
  {
    hide Agrees, Faithful, Records.Injective, OpensOwn, ChangeProposal, Events.EventAllowed, Events.EventFits, HeadText, Readopts,
         Graphs.Decodable, Slots.PlanFor, Images.Unauthentic, Slots.Ordinary, Slots.Within, Slots.CoherentBits, Slots.GoodIdentity;
    OwnSlotFits(env.hash, c);
    Credentials.OwnIndex(env.hash, c.committed.value, OwnSlot(c));
  }

  // ---------- Replicas ----------

  /** A merge takes two images of one document under one key, opened by their passwords to one slot. */
  lemma MergesAreOfOneDocument(env: Env, c: Core, call: Call)
    requires Sound(env, c) && call.PrepareMerge? && PreparedMerge(env, c, call).Some?
    ensures c.committed.Some? && c.unlocked.Some?
    ensures var replica := Images.Unlocking(env.hash, call.replica, call.replicaPassword);
            replica.Some? && replica.value.slot == c.unlocked.value.slot
            && call.replica.documentId == c.committed.value.documentId && call.replica.contentType == c.committed.value.contentType
            && call.replica.sealedUnder == c.committed.value.sealedUnder
  {
    hide Agrees, Faithful, Records.Injective, Merging.GraphsMerge, MergeProposal, SubmitAccepted;
    KeyOf(env.hash, c.committed.value, call.password);
    KeyOf(env.hash, call.replica, call.replicaPassword);
  }

  lemma KeyOf(hash: Hash, image: Image, password: Password)
    requires Images.Unlocking(hash, image, password).Some?
    ensures var o := Images.Unlocking(hash, image, password).value;
            o.journalKey == image.sealedUnder && o.documentId == image.documentId && o.contentType == image.contentType
  {
    hide Graphs.Decodable;
  }

  // ---------- What unlocking shows ----------

  /**
   * After an unlock without a target the state shows the slot's rights and whose the lease is, and edit mode is
   * offered only to a settled editor.
   */
  lemma UnlockShows(c: Core, o: Opened)
    requires Consistent(c.state) && c.state.target.None? && Apply(c.state, UnlockRequest(c, o)).Ok?
    ensures var t := Apply(c.state, UnlockRequest(c, o)).value;
            && t.state.activeSlot == Some(o.slot) && t.state.screen == Unlocked && t.state.edit == c.state.edit
            && t.state.rights == Rights(o.permissions % 2 == 1, o.permissions / 2 % 2 == 1, o.permissions / 4 % 2 == 1)
            && t.state.lease == (if !o.graph.lease.active then NoLease
                                 else if c.localSession == Some(o.graph.lease.session) then Held else OtherHolder)
            && t.effects == (if o.permissions % 2 == 1 && !o.mustBeChanged then [Effect(AttemptEditLease, 0)] else [])
  {
  }

  // ---------- Observed targets ----------

  lemma OpenFacts(hash: Hash, c: Core)
    requires Faithful(hash, c) && c.unlocked.Some?
    ensures c.committed.Some? && c.unlocked.value.graph == c.committed.value.graph
    ensures c.unlocked.value.documentId == c.committed.value.documentId
    ensures c.unlocked.value.contentType == c.committed.value.contentType
    ensures c.unlocked.value.journalKey == c.committed.value.sealedUnder
    ensures Graphs.Decodable(hash, c.committed.value.graph, Records.DEFAULT_LIMITS)
  {
    hide Graphs.Decodable, Images.WellStructured, OpenedFrom;
    FaithfulDecodes(hash, c.committed.value, c.unlocked.value);
  }

  /**
   * What an accepted observation shows: a later or forked version, never an earlier one or a stranger, of the same
   * document under the same key.
   */
  lemma TargetsGoOn(env: Env, c: Core, image: Image, password: Password)
    requires Sound(env, c) && c.unlocked.Some? && TargetAccepted(env.hash, c, image, password)
    ensures c.committed.Some?
    ensures image.documentId == c.committed.value.documentId && image.contentType == c.committed.value.contentType
    ensures image.sealedUnder == c.committed.value.sealedUnder
    ensures var g, h := c.committed.value.graph, image.graph;
            && Starts.SameStart(g, h)
            && (h.head == g.head || Lines.HoldsCanonical(h.records, g.head) || !Lines.Holds(g.records, h.head))
  {
    hide Faithful, WrapperMoved, TargetRights, Graphs.Decodable, Coherent, Lines.VerdictOn, Starts.SameStart, UnlockedAgrees,
         CandidateAgrees, PendingAgrees, Consistent;
    OwnSlotFits(env.hash, c);
    OpenFacts(env.hash, c);
    KeyOf(env.hash, image, password);
    Merging.UnlockedDecodes(env.hash, image, password);
    Starts.BaselineDecides(env.hash, c.committed.value.graph, image.graph);
    GoesOn(env.hash, c.committed.value.graph, image.graph);
  }

  lemma GoesOn(hash: Hash, g: Graphs.Graph, h: Graphs.Graph)
    requires Records.Injective(hash) && Graphs.Decodable(hash, g, Records.DEFAULT_LIMITS)
    requires Graphs.Decodable(hash, h, Records.DEFAULT_LIMITS) && Lines.VerdictOn(g, h).Ok?
    ensures Starts.SameStart(g, h)
    ensures h.head == g.head || Lines.HoldsCanonical(h.records, g.head) || !Lines.Holds(g.records, h.head)
  {
    hide Graphs.Decodable, Lines.Related;
    Starts.BaselineDecides(hash, g, h);
  }

  /** And every image that goes on from the committed one for the open slot is accepted, with the old or a new password. */
  lemma TargetsAreTaken(env: Env, c: Core, image: Image, password: Password)
    requires Sound(env, c) && c.state.screen == Unlocked && c.state.phase == Idle && c.documentId.Some?
    requires c.target.None? && c.state.target.None? && c.unlocked.Some? && c.committed.Some?
    requires Images.Unlocking(env.hash, image, password).Some?
    requires Images.Unlocking(env.hash, c.committed.value, password).Some? || Images.NoWrapper(c.committed.value, password)
    requires var o := Images.Unlocking(env.hash, image, password).value;
             o.slot == c.unlocked.value.slot && Slots.CoherentBits(o.permissions)
    requires image.documentId == c.committed.value.documentId && image.contentType == c.committed.value.contentType
    requires image.sealedUnder == c.committed.value.sealedUnder
    requires var g, h := c.committed.value.graph, image.graph;
             && Starts.SameStart(g, h)
             && (h.head == g.head || Lines.HoldsCanonical(h.records, g.head) || !Lines.Holds(g.records, h.head))
    ensures TargetAccepted(env.hash, c, image, password)
  {
    hide Faithful, WrapperMoved, Graphs.Decodable, Lines.VerdictOn, Starts.SameStart, CandidateAgrees, PendingAgrees,
         Slots.CoherentBits, Coherent, RightsOf, Images.Unlocking, Images.NoWrapper, Images.Unauthentic, BitsOf, OwnPermissions;
    OwnSlotFits(env.hash, c);
    OpenFacts(env.hash, c);
    KeyOf(env.hash, image, password);
    Merging.UnlockedDecodes(env.hash, image, password);
    CoherentRights(Images.Unlocking(env.hash, image, password).value.permissions);
    NewPassword(env.hash, c.committed.value, password);
    Takes(env.hash, c.committed.value.graph, image.graph);
  }

  lemma NewPassword(hash: Hash, image: Image, password: Password)
    requires Images.Unlocking(hash, image, password).Some? || Images.NoWrapper(image, password)
    ensures Images.Unlocking(hash, image, password).Some? || Images.Unauthentic(image, password)
  {
    hide Graphs.Decodable;
  }

  lemma Takes(hash: Hash, g: Graphs.Graph, h: Graphs.Graph)
    requires Records.Injective(hash) && Graphs.Decodable(hash, g, Records.DEFAULT_LIMITS)
    requires Graphs.Decodable(hash, h, Records.DEFAULT_LIMITS) && Starts.SameStart(g, h)
    requires h.head == g.head || Lines.HoldsCanonical(h.records, g.head) || !Lines.Holds(g.records, h.head)
    ensures Lines.VerdictOn(g, h).Ok?
  {
    hide Graphs.Decodable, Lines.Related, Starts.SameStart;
    Starts.BaselineDecides(hash, g, h);
    Starts.ForkedIsDivergent(hash, g, h);
  }

  /** An observed target gives the open slot the rights it has there, and takes edit mode away with the right to edit. */
  lemma TargetRules(env: Env, c: Core, image: Image, password: Password)
    requires Sound(env, c) && TargetAccepted(env.hash, c, image, password)
    ensures var o := Images.Unlocking(env.hash, image, password).value;
            var moved := WrapperMoved(env.hash, c, image, o, password);
            var out := AfterTarget(env, c, image, password);
            && out.target == Some(image) && out.committed == c.committed && out.content == c.content
            && out.state.screen == (if moved then Locked else Unlocked)
            && (!moved ==> Some(o.slot) == c.state.activeSlot
                           && out.state.rights == Rights(o.permissions % 2 == 1, o.permissions / 2 % 2 == 1, o.permissions / 4 % 2 == 1)
                           && (out.state.edit == Editing <==> c.state.edit == Editing && o.permissions % 2 == 1))
            && (moved ==> out.state.attention == Reauthenticate && out.state.edit == ReadOnly && out.state.rights == NO_RIGHTS)
  {
    hide Faithful, Records.Injective, Related, Images.Unlocking, UnlockedAgrees, CandidateAgrees, PendingAgrees, BitsOf, Images.Unauthentic;
  }

  /** What is recorded of a target, and the rights the open data shows under it. */
  lemma TargetRecorded(env: Env, c: Core, image: Image, password: Password)
    requires Sound(env, c) && TargetAccepted(env.hash, c, image, password)
    ensures var o := Images.Unlocking(env.hash, image, password).value;
            var out := AfterTarget(env, c, image, password);
            && out.target == Some(image) && out.committed.Some? && c.state.activeSlot.Some?
            && out.state.target == Some(TargetAccess(c.state.activeSlot.value, TargetRights(c, o),
                                                     WrapperMoved(env.hash, c, image, o, password)))
            && out.unlocked.Some? && out.unlocked.value.permissions == BitsOf(out.state.rights)
  {
    hide Faithful, Records.Injective, Related, Images.Unlocking, CandidateAgrees, PendingAgrees, BitsOf, Images.Unauthentic, TargetRights,
         WrapperMoved, Coherent, OwnPermissions;
  }

  /** Where the wrapper has not moved the open data shows the slot's rights as the target has them. */
  lemma TargetOverlays(env: Env, c: Core, image: Image, password: Password)
    requires Sound(env, c) && TargetAccepted(env.hash, c, image, password)
    requires !WrapperMoved(env.hash, c, image, Images.Unlocking(env.hash, image, password).value, password)
    ensures var out := AfterTarget(env, c, image, password);
            out.unlocked.Some?
            && out.unlocked.value.permissions == Images.Unlocking(env.hash, image, password).value.permissions
  {
    hide Sound, TargetAccepted, AfterTarget, Images.Unlocking, BitsOf, WrapperMoved;
    TargetRecorded(env, c, image, password);
    TargetRules(env, c, image, password);
    AcceptedOpens(env, c, image, password);
    UnlockedFrom(env.hash, image, password);
    BitsRoundTrip(Images.Unlocking(env.hash, image, password).value.permissions);
  }

  lemma AcceptedOpens(env: Env, c: Core, image: Image, password: Password)
    requires TargetAccepted(env.hash, c, image, password)
    ensures Images.Unlocking(env.hash, image, password).Some?
  {
  }

  /** Under a target that the password opens for another slot, no slot that may do anything unlocks any more. */
  lemma TargetOfAnother(env: Env, c: Core, image: Image, password: Password, again: Password)
    requires Sound(env, c) && TargetAccepted(env.hash, c, image, password)
    requires Some(Images.Unlocking(env.hash, image, password).value.slot) != c.state.activeSlot
    ensures AfterTarget(env, c, image, password).state.screen == Locked
    ensures var o := Images.Unlocking(env.hash, image, again);
            o.Some? && o.value.permissions != 0 ==> !UnlockAdmitted(env.hash, env.csv, AfterTarget(env, c, image, password), again)
  {
    hide Sound, TargetAccepted, AfterTarget, Images.Unlocking, UnlockAdmitted, WrapperMoved, TargetRights;
    AcceptedOpens(env, c, image, password);
    TargetRecorded(env, c, image, password);
    TargetRules(env, c, image, password);
    OtherSlotMoved(env, c, image, password);
    if UnlockAdmitted(env.hash, env.csv, AfterTarget(env, c, image, password), again) {
      AdmittedUnder(env, AfterTarget(env, c, image, password), again);
    }
  }

  lemma OtherSlotMoved(env: Env, c: Core, image: Image, password: Password)
    requires TargetAccepted(env.hash, c, image, password)
    requires Some(Images.Unlocking(env.hash, image, password).value.slot) != c.state.activeSlot
    ensures var o := Images.Unlocking(env.hash, image, password).value;
            c.committed.Some? && WrapperMoved(env.hash, c, image, o, password) && TargetRights(c, o) == NO_RIGHTS
  {
    hide Images.Unlocking, Related;
  }

  lemma AdmittedUnder(env: Env, c: Core, again: Password)
    requires c.target.Some? && c.state.target.Some? && c.state.target.value.rights == NO_RIGHTS
    requires UnlockAdmitted(env.hash, env.csv, c, again)
    ensures Images.Unlocking(env.hash, c.target.value, again).value.permissions == 0
  {
    hide Images.Unlocking, HeadText;
  }

  // ---------- CSV documents ----------

  /** Text that a save or a merge publishes in a CSV document was found to be CSV. */
  lemma CsvIsPublished(env: Env, c: Core, call: Call)
    requires Sound(env, c) && Prepared(env, c, call).Some? && c.committed.Some? && c.committed.value.contentType == 1
    requires call.PrepareMerge? || (call.PrepareSave? && !call.save.discard)
    ensures env.csv(HeadText(Prepared(env, c, call).value.image.graph))
  {
    hide Agrees, Faithful, Records.Injective, OpensOwn, HeadText, Saves.SaveAllowed, Saves.SaveFits, Merging.ReplicasMerge, SaveProposal,
         MergeProposal, MergeTakes, Images.Unlocking, Records.GoodWhole;
    if c.unlocked.Some? { OpenFacts(env.hash, c); }
    if call.PrepareMerge? {
      Texts.MergeCommitsText(env.hash, env.csv, c, call.id, call.replica, call.password, call.replicaPassword, call.resolution, call.nonce);
    } else {
      Texts.SaveCommitsText(env.hash, env.csv, c, call.id, call.save, call.password, call.nonce);
    }
  }
}
