/**
 * What every image keeps that containers publish into one shared place: wrappers along the slots, a graph
 * the builders can reach, and every record that was ever published.
 */
module SharedDocument {
  import opened Wrappers
  import opened TextValidation
  import opened ContainerCore
  import opened ContainerAgreement
  import opened Proposals
  import opened CredentialProposal
  import opened ContainerRequests
  import opened ContainerSteps
  import opened ContainerCalls
  import opened SharedImage
  import opened LineageRuns
  import Graphs = RevisionGraph
  import Images = Envelope
  import Slots = PasswordSlots
  import Credentials = CredentialChange
  import Creations = DocumentCreation
  import Records = RevisionRecords
  import Validity = GraphValidity
  import Structure = GraphLemmas
  import Saves = SaveContent
  import Events = AppendEvent
  import Cuts = Compaction
  import History = HistoryService
  import Merging = MergeSave
  import MergeSpec = MergeGraphs
  import Builders = BuilderRuns
  import Lines = Lineage
  import Leases = LeaseProtocol

  /** Wrapper i opens slot i, and the graph is one the builders can reach. */
  ghost predicate Kept(hash: Hash, image: Image) {
    Credentials.Aligned(hash, image) && Builders.Built(hash, image.graph)
  }

  /** The graph holds the record, and not as a draft. */
  predicate Published(g: Graphs.Graph, id: Records.RevisionId) {
    Validity.Occurs(g.records, SealedCount(g), id)
  }

  ghost predicate HoldsPublished(later: Graphs.Graph, earlier: Graphs.Graph) {
    forall id :: Published(earlier, id) ==> Published(later, id)
  }

  /** The image is kept, and nothing published is lost on the way to it. */
  ghost predicate Succeeds(hash: Hash, stored: Image, image: Image) {
    Kept(hash, image) && HoldsPublished(image.graph, stored.graph)
  }

  lemma ContinuingHolds(earlier: Graphs.Graph, later: Graphs.Graph)
    requires Continues(earlier, later)
    ensures HoldsPublished(later, earlier)
  {
    Structure.SamePositions(earlier.records, later.records, SealedCount(earlier));
  }

  // ---------- Publications ----------

  /** A payload written by a builder on the stored graph, with the stored slots. */
  lemma PayloadSucceeds(hash: Hash, stored: Image, op: Builders.Operation, nonce: nat)
    requires Records.Injective(hash) && Kept(hash, stored)
    requires Builders.Permitted(hash, stored.graph, op) && Builders.Fits(hash, stored.graph, op)
    requires Builders.Written(hash, stored.graph, op).slots == stored.graph.slots
    ensures Succeeds(hash, stored, Images.WithGraph(stored, Builders.Written(hash, stored.graph, op), nonce))
  {
    hide Graphs.Decodable, Credentials.Matched, Builders.Permitted, Builders.Fits, Builders.Written, Builders.AvailableSuffix,
         Saves.DraftRemovable, Continues, HoldsPublished;
    var g := Builders.Written(hash, stored.graph, op);
    Builders.OperationKeepsBuilt(hash, stored.graph, op);
    Credentials.PayloadKeepsAligned(hash, stored, g, nonce);
    OperationContinues(hash, stored.graph, op);
    ContinuingHolds(stored.graph, g);
  }

  lemma SaveSucceeds(env: Env, c: Core, call: Call)
    requires Sound(env, c) && call.PrepareSave? && PreparedSave(env, c, call).Some?
    requires c.committed.Some? && Kept(env.hash, c.committed.value)
    ensures Succeeds(env.hash, c.committed.value, PreparedSave(env, c, call).value.image)
  {
    hide Agrees, Faithful, Records.Injective, Images.Unlocking, OpensOwn, HeadText, Kept, Succeeds, Graphs.Decodable,
         Saves.SaveAllowed, Saves.SaveFits, Saves.SavedGraph;
    ActorFits(env.hash, c);
    var request := SaveOf(c.unlocked.value, c.content.value, call.save);
    SavedPayload(env.hash, c.committed.value.graph, request);
    PayloadSucceeds(env.hash, c.committed.value, Builders.Save(request), call.nonce);
  }

  lemma CompactionSucceeds(env: Env, c: Core, call: Call)
    requires Sound(env, c) && call.PrepareCompaction? && PreparedCompaction(env, c, call).Some?
    requires c.committed.Some? && Kept(env.hash, c.committed.value)
    ensures Succeeds(env.hash, c.committed.value, PreparedCompaction(env, c, call).value.image)
  {
    hide Agrees, Faithful, Records.Injective, Images.Unlocking, OpensOwn, HeadText, Kept, Succeeds, Graphs.Decodable,
         BackupProves, Cuts.MayCompact;
    ActorFits(env.hash, c);
    var g := c.committed.value.graph;
    PayloadSucceeds(env.hash, c.committed.value,
                    Builders.Compact(History.ChosenCutoff(g.records, call.compact.retain), CompactOf(c.unlocked.value, call.compact)),
                    call.nonce);
  }

  lemma LeaseSucceeds(env: Env, c: Core, call: Call)
    requires Sound(env, c) && call.PrepareLeaseChange? && PreparedLease(env, c, call).Some?
    requires c.committed.Some? && Kept(env.hash, c.committed.value)
    ensures Succeeds(env.hash, c.committed.value, PreparedLease(env, c, call).value.image)
  {
    hide Agrees, Faithful, Records.Injective, Images.Unlocking, OpensOwn, Kept, Succeeds, Graphs.Decodable, Leases.LeaseAllowed,
         Leases.NextLease;
    ActorFits(env.hash, c);
    var lease := c.committed.value.graph.lease;
    Leases.NextLeaseGood(lease, call.change, StandingOf(c));
    PayloadSucceeds(env.hash, c.committed.value, Builders.SetLease(Leases.NextLease(lease, call.change)), call.nonce);
  }

  lemma EventSucceeds(hash: Hash, c: Core, id: nat, e: Events.EventRequest, password: Password, nonce: nat)
    requires Records.Injective(hash) && Faithful(hash, c) && c.unlocked.Some?
    requires c.committed.Some? && Kept(hash, c.committed.value) && e.slots == c.unlocked.value.graph.slots
    requires Events.EventAllowed(c.unlocked.value.graph, e) && Events.EventFits(c.unlocked.value.graph, e)
    ensures Succeeds(hash, c.committed.value, EventProposal(hash, c, id, e, password, nonce).image)
  {
    hide Faithful, Images.Unlocking, Kept, Succeeds, Graphs.Decodable, Events.EventAllowed, Events.EventFits;
    ActorFits(hash, c);
    PayloadSucceeds(hash, c.committed.value, Builders.Append(e), nonce);
  }

  lemma ActivitySucceeds(env: Env, c: Core, call: Call)
    requires Sound(env, c) && (call.PrepareActivityAttempt? || call.PrepareActivityOutcome?)
    requires Prepared(env, c, call).Some? && c.committed.Some? && Kept(env.hash, c.committed.value)
    ensures Succeeds(env.hash, c.committed.value, Prepared(env, c, call).value.image)
  {
    hide Agrees, Faithful, Records.Injective, OpensOwn, HeadText, Events.EventAllowed, Events.EventFits, Kept, Succeeds,
         EventProposal;
    ActorFits(env.hash, c);
    if call.PrepareActivityAttempt? {
      EventSucceeds(env.hash, c, call.id, ActivityEvent(c.unlocked.value, AttemptName(call.backup), "", 0, call.client),
                    call.password, call.nonce);
    } else {
      EventSucceeds(env.hash, c, call.id, OutcomeEvent(c.unlocked.value, c.pending.value, PendingDetail(env, c), call.client),
                    call.password, call.nonce);
    }
  }

  /** A credential change appends its event to the stored graph. */
  lemma ChangeAppends(hash: Hash, image: Image, k: nat, ch: Slots.SlotChange, x: Credentials.Context)
    requires Graphs.Decodable(hash, image.graph, Records.DEFAULT_LIMITS) && k < |image.wrappers| == |image.graph.slots|
    requires Credentials.ChangeAllowed(hash, image, k, ch, x)
    ensures exists e :: Events.EventAllowed(image.graph, e) && Events.EventFits(image.graph, e) && image.graph.records != []
                        && Credentials.Changed(hash, image, k, ch, x).graph == Events.EventGraph(hash, image.graph, e)
  {
    hide Graphs.Decodable, Slots.Authorised, Slots.PlanFor, Images.Unauthentic, Slots.UnusedIds, Events.EventAllowed,
         Events.EventFits, Events.EventGraph;
    Credentials.DecodedSlots(hash, image.graph);
    var plan := Slots.PlanFor(image.graph.slots, Images.OpenedBy(image, k), ch, x.id, x.managementId);
    var e := Credentials.EventFor(plan, image.graph.slots[k], ch, x);
    assert Events.EventAllowed(image.graph, e);
  }

  lemma ChangeSucceeds(env: Env, c: Core, call: Call)
    requires Sound(env, c) && call.PrepareSlotChange? && PreparedChange(env, c, call).Some?
    requires c.committed.Some? && Kept(env.hash, c.committed.value)
    ensures Succeeds(env.hash, c.committed.value, PreparedChange(env, c, call).value.image)
  {
    hide Agrees, Faithful, Records.Injective, Images.Unlocking, OpensOwn, HeadText, Graphs.Decodable, Credentials.ChangeAllowed,
         Credentials.Changed, Credentials.Matched, Builders.AvailableSuffix, Saves.DraftRemovable, HoldsPublished,
         Events.EventAllowed, Events.EventFits, Events.EventGraph, Continues;
    OwnSlotFits(env.hash, c);
    var stored, k := c.committed.value, OwnSlot(c);
    Credentials.ChangeKeepsAligned(env.hash, stored, k, call.slotChange, call.context);
    ChangeAppends(env.hash, stored, k, call.slotChange, call.context);
    var e :| Events.EventAllowed(stored.graph, e) && Events.EventFits(stored.graph, e)
             && Credentials.Changed(env.hash, stored, k, call.slotChange, call.context).graph
                == Events.EventGraph(env.hash, stored.graph, e);
    Builders.OperationKeepsBuilt(env.hash, stored.graph, Builders.Append(e));
    OperationContinues(env.hash, stored.graph, Builders.Append(e));
    ContinuingHolds(stored.graph, Events.EventGraph(env.hash, stored.graph, e));
  }

  /** Merging another replica over the stored graph. */
  lemma MergedGraphSucceeds(hash: Hash, local: Graphs.Graph, target: Graphs.Graph, s: MergeSpec.MergeRequest)
    requires Records.Injective(hash) && Builders.Built(hash, local) && Graphs.Decodable(hash, target, Records.DEFAULT_LIMITS)
    requires Merging.GraphsMerge(hash, local, target, s)
    ensures var g := MergeSpec.MergedGraph(hash, local, target, s);
            Builders.Built(hash, g) && g.slots == target.slots && HoldsPublished(g, target)
  {
    hide Graphs.Decodable, MergeSpec.MergeAllowed, Lines.VerdictOn, Merging.BaseReadable, MergeSpec.MergedGraph, Builders.Built;
    var op := Builders.MergeFrom(target, s);
    var g := MergeSpec.MergedGraph(hash, local, target, s);
    LocalDecodes(hash, local);
    assert Builders.Written(hash, local, op) == g;
    Builders.OperationKeepsBuilt(hash, local, op);
    MergeSpec.MergedSlots(hash, local, target, s);
    MergedSealed(hash, local, target, s);
    forall id | Published(target, id) ensures Published(g, id) {
      var t :| 0 <= t < |target.records| && target.records[t].id == id;
      MergeSpec.MergeHoldsTarget(hash, local, target, s, t);
    }
  }

  lemma LocalDecodes(hash: Hash, g: Graphs.Graph)
    requires Builders.Built(hash, g)
    ensures Graphs.Decodable(hash, g, Records.DEFAULT_LIMITS) && Builders.AvailableSuffix(g.records)
  {
  }

  lemma MergedSealed(hash: Hash, local: Graphs.Graph, target: Graphs.Graph, s: MergeSpec.MergeRequest)
    requires Records.Injective(hash) && Builders.Built(hash, local) && Graphs.Decodable(hash, target, Records.DEFAULT_LIMITS)
    requires Merging.GraphsMerge(hash, local, target, s)
    ensures MergeSpec.Diverged(hash, local, target)
    ensures !Graphs.HasProvisional(MergeSpec.MergedGraph(hash, local, target, s))
  {
    hide Graphs.Decodable, Lines.VerdictOn, Merging.BaseReadable, MergeSpec.MergedGraph, Builders.AvailableSuffix;
    Builders.MergeKeepsSuffix(hash, local, target, s);
  }

  lemma MergeSucceeds(env: Env, c: Core, call: Call)
    requires Sound(env, c) && call.PrepareMerge? && PreparedMerge(env, c, call).Some?
    requires c.committed.Some? && Kept(env.hash, c.committed.value) && Builders.Built(env.hash, call.replica.graph)
    ensures Succeeds(env.hash, c.committed.value, PreparedMerge(env, c, call).value.image)
  {
    hide Agrees, Faithful, Images.Unlocking, OpensOwn, SubmitAccepted, Graphs.Decodable, Credentials.Matched,
         Builders.Built, HoldsPublished, Merging.GraphsMerge, MergeSpec.MergedGraph;
    var PrepareMerge(id, replica, password, replicaPassword, v, nonce) := call;
    var stored := c.committed.value;
    Merging.UnlockedDecodes(env.hash, stored, password);
    Merging.UnlockedDecodes(env.hash, replica, replicaPassword);
    var t := Images.Unlocking(env.hash, stored, password).value;
    MergedGraphSucceeds(env.hash, replica.graph, stored.graph, Merging.RequestFor(t, v));
    var g := MergeSpec.MergedGraph(env.hash, replica.graph, stored.graph, Merging.RequestFor(t, v));
    LocalDecodes(env.hash, g);
    Credentials.PayloadKeepsAligned(env.hash, stored, g, nonce);
  }

  /** A replica that the move merges in was made by the builders too. */
  ghost predicate BuiltReplica(hash: Hash, move: Move) {
    move.Publishes? && move.call.PrepareMerge? ==> Builders.Built(hash, move.call.replica.graph)
  }

  /** Whatever a client publishes succeeds the image it replaces. */
  lemma MoveSucceeds(env: Env, s: Shared, move: Move, after: Shared)
    requires Swapped(env, s, move, after) && Kept(env.hash, s.stored) && BuiltReplica(env.hash, move)
    ensures Succeeds(env.hash, s.stored, after.stored)
  {
    hide Sound, PreparedSave, PreparedMerge, PreparedCompaction, PreparedChange, PreparedLease, PreparedAttempt, PreparedOutcome,
         Adopted, Kept, Published;
    match move
    case Leaves(_) =>
    case Publishes(client, c, call) =>
      match call {
        case PrepareSave(_, _, _, _) => SaveSucceeds(env, c, call);
        case PrepareMerge(_, _, _, _, _, _) => MergeSucceeds(env, c, call);
        case PrepareCompaction(_, _, _, _) => CompactionSucceeds(env, c, call);
        case PrepareSlotChange(_, _, _, _) => ChangeSucceeds(env, c, call);
        case PrepareLeaseChange(_, _, _, _) => LeaseSucceeds(env, c, call);
        case PrepareActivityAttempt(_, _, _, _, _, _, _) => ActivitySucceeds(env, c, call);
        case PrepareActivityOutcome(_, _, _, _, _) => ActivitySucceeds(env, c, call);
      }
  }

  // ---------- Runs ----------

  /** A run from an image that is kept, merging in only replicas the builders made. */
  ghost predicate DocumentRun(env: Env, ss: seq<Shared>, moves: seq<Move>) {
    && SharedRun(env, ss, moves) && Kept(env.hash, ss[0].stored)
    && forall i | 0 <= i < |moves| :: BuiltReplica(env.hash, moves[i])
  }

  /** A new document starts such a run. */
  lemma CreatedIsKept(hash: Hash, v: Creations.Creation, d: Creations.Draws)
    requires Creations.MayCreate(v) && Creations.Openable(v)
    ensures Kept(hash, Creations.CreatedImage(hash, v, d))
  {
    hide Graphs.Decodable, Credentials.Matched, Creations.Openable, Builders.Built;
    Creations.CreatedIsAligned(hash, v, d);
    Builders.BaselineBuilt(hash, Creations.OwnerSlot(v, d), Creations.RecoverySlot(v, d), v.device, v.content, v.timestamp);
  }

  /** Every stored image is kept, and holds everything that was published in any earlier one. */
  lemma {:induction false} StoredImagesSucceed(env: Env, ss: seq<Shared>, moves: seq<Move>, m: nat, n: nat)
    requires DocumentRun(env, ss, moves) && m <= n <= |moves|
    ensures |ss| == |moves| + 1
    ensures Kept(env.hash, ss[n].stored) && HoldsPublished(ss[n].stored.graph, ss[m].stored.graph)
    decreases n
  {
    hide Kept, Swapped, Published, BuiltReplica;
    if n > 0 {
      StoredImagesSucceed(env, ss, moves, if m < n then m else 0, n - 1);
      MoveSucceeds(env, ss[n - 1], moves[n - 1], ss[n]);
    }
  }

  /**
   * Presented again, an earlier image is unchanged or a rollback exactly while its head is still held, and
   * only the head of a draft is ever lost.
   */
  lemma EarlierImagesRollBack(env: Env, ss: seq<Shared>, moves: seq<Move>, m: nat, n: nat)
    requires DocumentRun(env, ss, moves) && Records.Injective(env.hash) && m <= n <= |moves|
    ensures var earlier, now := ss[m].stored.graph, ss[n].stored.graph;
            && (Lines.Holds(now.records, earlier.head)
                <==> Lines.VerdictOn(now, earlier) in {Ok(Lines.Unchanged), Err(Graphs.Rollback)})
            && (!Lines.Holds(now.records, earlier.head) ==> Graphs.HasProvisional(earlier))
  {
    hide DocumentRun, Graphs.Decodable, Credentials.Matched, Lines.Related, Builders.AvailableSuffix, Saves.DraftRemovable;
    StoredImagesSucceed(env, ss, moves, m, m);
    StoredImagesSucceed(env, ss, moves, m, n);
    var earlier, now := ss[m].stored.graph, ss[n].stored.graph;
    Saves.TailFacts(env.hash, earlier);
    Saves.TailFacts(env.hash, now);
    if !Graphs.HasProvisional(earlier) {
      assert Published(earlier, earlier.records[|earlier.records| - 1].id);
      assert Published(now, earlier.head);
    }
    if Lines.Holds(now.records, earlier.head) && Lines.HoldsCanonical(earlier.records, now.head) {
      Lines.MutualHeads(env.hash, now, earlier);
    }
  }

  // ---------- What that gives every client ----------

  /** A credential change on a stored image needs nothing but standing, a free password and room. */
  lemma ChangesNeedNoMore(env: Env, ss: seq<Shared>, moves: seq<Move>, n: nat, c: Core, id: nat, ch: Slots.SlotChange,
                          x: Credentials.Context, password: Password)
    requires DocumentRun(env, ss, moves) && n <= |moves| && Sound(env, c) && c.committed == Some(ss[n].stored) && Ready(c)
    ensures OwnSlot(c) < |ss[n].stored.wrappers| == |ss[n].stored.graph.slots|
    ensures Graphs.Decodable(env.hash, ss[n].stored.graph, Records.DEFAULT_LIMITS)
    ensures ChangeAccepted(env.hash, c, id, ch, x, password)
            <==> (&& Fresh(c, id) && OpensOwn(env.hash, c, password)
                  && Credentials.ChangeAllowed(env.hash, ss[n].stored, OwnSlot(c), ch, x)
                  && (RemovesActive(c, ch) && c.content.Some? ==> c.content.value == HeadText(c.unlocked.value.graph)))
  {
    hide DocumentRun, Agrees, Faithful, Records.Injective, Graphs.Decodable, Credentials.Matched, Credentials.ChangeAllowed,
         OpensOwn, HeadText, Readopts, Builders.Built;
    OwnSlotFits(env.hash, c);
    StoredImagesSucceed(env, ss, moves, n, n);
    if OpensOwn(env.hash, c, password) && Credentials.ChangeAllowed(env.hash, ss[n].stored, OwnSlot(c), ch, x)
       && !RemovesActive(c, ch)
    {
      AlignedReadopts(env.hash, c, ch, x, password);
    }
  }

  /** A compaction of a stored image keeps exactly as many deltas as it is asked to, or all there are. */
  lemma CompactionsRetain(env: Env, ss: seq<Shared>, moves: seq<Move>, n: nat, retain: nat)
    requires DocumentRun(env, ss, moves) && n <= |moves|
    ensures var rs := ss[n].stored.graph.records;
            var ks := Cuts.Carriers(rs, |rs|);
            var k := History.ChosenCutoff(rs, retain);
            && k < |ks| && Validity.Available(rs, ks[k], Records.DEFAULT_LIMITS)
            && |ks| - k - 1 == History.Min(retain, |ks| - History.FirstAvailable(rs, |rs|) - 1)
  {
    hide DocumentRun, Credentials.Aligned, Builders.Built, Validity.Available, Cuts.Carriers;
    StoredImagesSucceed(env, ss, moves, n, n);
    History.RetainsExactly(env.hash, ss[n].stored.graph, retain);
  }
}
