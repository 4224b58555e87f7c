/**
 * What publications do to the lease in the shared image: a lease change is a step of the
 * lease protocol, and every other proposal leaves the lease exactly as it was.
 */
module LeasePublications {
  import opened Wrappers
  import opened TextValidation
  import opened ContainerState
  import opened ContainerCore
  import opened ContainerAgreement
  import opened Proposals
  import opened CredentialProposal
  import opened ContainerRequests
  import Graphs = RevisionGraph
  import Images = Envelope
  import Slots = PasswordSlots
  import Credentials = CredentialChange
  import Records = RevisionRecords
  import Saves = SaveContent
  import Cuts = Compaction
  import Events = AppendEvent
  import Merging = MergeSave
  import MergeSpec = MergeGraphs
  import Leases = LeaseProtocol

  /** The lease an image carries. */
  function LeaseIn(image: Image): Graphs.Lease {
    image.graph.lease
  }

  lemma SaveKeepsLease(hash: Hash, csv: Csv, c: Core, id: nat, v: SaveInput, password: Password, nonce: nat)
    requires Agrees(c) && Faithful(hash, c) && SaveAccepted(hash, csv, c, id, v, password)
    ensures c.committed.Some?
    ensures LeaseIn(SaveProposal(hash, csv, c, id, v, password, nonce).image) == LeaseIn(c.committed.value)
  {
    hide Agrees, Faithful, Graphs.Decodable, Images.Unlocking, Saves.SaveAllowed, Saves.SaveFits, Saves.Reseals, HeadText;
    ActorFits(hash, c);
    Saves.TailFacts(hash, c.unlocked.value.graph);
  }

  lemma MergeKeepsLease(hash: Hash, csv: Csv, c: Core, id: nat, replica: Image, targetPassword: Password,
                        replicaPassword: Password, v: Merging.Resolution, nonce: nat)
    requires Agrees(c) && Faithful(hash, c)
    requires MergeAccepted(hash, csv, c, id, replica, targetPassword, replicaPassword, v)
    ensures LeaseIn(MergeProposal(hash, csv, c, id, replica, targetPassword, replicaPassword, v, nonce).image)
            == LeaseIn(c.committed.value)
  {
    hide Agrees, Faithful, Graphs.Decodable, Images.Unlocking, Merging.GraphsMerge, MergeSpec.MergedGraph, SubmitAccepted;
    Merging.UnlockedDecodes(hash, c.committed.value, targetPassword);
    var t := Images.Unlocking(hash, c.committed.value, targetPassword).value;
    var l := Images.Unlocking(hash, replica, replicaPassword).value;
    MergeSpec.MergedSlots(hash, l.graph, t.graph, Merging.RequestFor(t, v));
  }

  lemma CompactionKeepsLease(hash: Hash, c: Core, id: nat, v: CompactInput, password: Password, nonce: nat)
    requires Agrees(c) && Faithful(hash, c) && CompactAccepted(hash, c, id, v, password)
    ensures LeaseIn(CompactProposal(hash, c, id, v, password, nonce).image) == LeaseIn(c.committed.value)
  {
    hide Agrees, Faithful, Graphs.Decodable, Images.Unlocking, BackupProves, HeadText, OpensOwn;
    ActorFits(hash, c);
  }

  lemma EventKeepsLease(hash: Hash, c: Core, id: nat, e: Events.EventRequest, password: Password, nonce: nat)
    requires Faithful(hash, c) && c.unlocked.Some?
    ensures c.committed.Some?
    ensures LeaseIn(EventProposal(hash, c, id, e, password, nonce).image) == LeaseIn(c.committed.value)
  {
    hide Faithful, Graphs.Decodable, Images.Unlocking;
    ActorFits(hash, c);
  }

  lemma CredentialChangeKeepsLease(hash: Hash, c: Core, id: nat, ch: Slots.SlotChange, x: Credentials.Context, password: Password)
    requires Agrees(c) && Faithful(hash, c) && ChangeAccepted(hash, c, id, ch, x, password)
    ensures c.committed.Some?
    ensures LeaseIn(ChangeProposal(hash, c, id, ch, x, password).image) == LeaseIn(c.committed.value)
  {
    hide Agrees, Faithful, Graphs.Decodable, Images.Unlocking, Credentials.ChangeAllowed, Slots.PlanFor, OpensOwn, HeadText;
    OwnSlotFits(hash, c);
  }

  // ---------- Compare and swap ----------

  /** Publication replaces the stored image only if it is the very image the proposal was made from. */
  predicate Swaps(stored: Image, c: Core, cand: Candidate, after: Image) {
    c.committed == Some(stored) && after == cand.image
  }

  function WorldOf(stored: Image, client: nat, session: Option<int>, others: map<nat, int>): Leases.World {
    Leases.World(LeaseIn(stored), if session.Some? then others[client := session.value] else others - {client})
  }

  /**
   * A lease change that is accepted, published and verified is exactly a step of the lease protocol:
   * on the lease in the shared image and on what this client takes for its own session.
   */
  lemma LeaseChangeIsAStep(hash: Hash, c: Core, id: nat, change: Leases.LeaseChange, password: Password, nonce: nat,
                           stored: Image, after: Image, client: nat, others: map<nat, int>, before: State)
    requires Agrees(c) && Faithful(hash, c) && LeaseAccepted(hash, c, id, change, password)
    requires Swaps(stored, c, LeaseProposal(hash, c, id, change, password, nonce), after)
    ensures var cand := LeaseProposal(hash, c, id, change, password, nonce);
            var w := WorldOf(stored, client, c.localSession, others);
            var p := Leases.Change(client, change, c.state.edit == Editing, c.unlocked.value.owner || c.unlocked.value.recovery);
            && Leases.Succeeds(w, p)
            && Leases.Published(w, p) == WorldOf(after, client, Adopted(c, before, cand).localSession, others)
  {
    hide Agrees, Faithful, Images.Unlocking, OpensOwn, Leases.LeaseAllowed, Leases.NextLease;
    var w := WorldOf(stored, client, c.localSession, others);
    var p := Leases.Change(client, change, c.state.edit == Editing, c.unlocked.value.owner || c.unlocked.value.recovery);
    assert Leases.StandingOf(w, p) == StandingOf(c);
  }
}
