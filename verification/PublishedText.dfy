/** What text the image of an accepted proposal shows: the submitted one, or still the same one. */
module PublishedText {
  import opened Wrappers
  import opened TextValidation
  import opened ContainerState
  import opened ContainerCore
  import opened ContainerAgreement
  import opened Proposals
  import opened CredentialProposal
  import opened ContainerRequests
  import Graphs = RevisionGraph
  import Images = Envelope
  import Slots = PasswordSlots
  import Credentials = CredentialChange
  import Records = RevisionRecords
  import Validity = GraphValidity
  import Builders = GraphBuilders
  import Reading = Reconstruction
  import Saves = SaveContent
  import Cuts = Compaction
  import History = HistoryService
  import Events = AppendEvent
  import Merging = MergeSave
  import MergeSpec = MergeGraphs

  /** The head text is the text its record declares. */
  lemma HeadTextIsDeclared(hash: Hash, g: Graphs.Graph, i: nat)
    requires Graphs.Decodable(hash, g, Records.DEFAULT_LIMITS)
    requires i < |g.records| && g.records[i].id == g.contentHead
    ensures HeadText(g) == g.records[i].imm.contentHash.text
  {
    hide Graphs.Decodable, Validity.LineAfter;
    Reading.ContentHeadReads(hash, g, i);
  }

  /** A published save shows exactly the submitted text. */
  lemma SaveCommitsText(hash: Hash, csv: Csv, c: Core, id: nat, v: SaveInput, password: Password, nonce: nat)
    requires Records.Injective(hash) && Agrees(c) && Faithful(hash, c)
    requires SaveAccepted(hash, csv, c, id, v, password) && !v.discard
    ensures HeadText(SaveProposal(hash, csv, c, id, v, password, nonce).image.graph) == c.content.value
  {
    hide Agrees, Faithful, Graphs.Decodable, Images.Unlocking, Saves.SaveAllowed, Saves.SaveFits, Saves.SavedGraph, OpensOwn,
         Validity.LineAfter;
    ActorFits(hash, c);
    Saves.SaveCloses(hash, c.unlocked.value.graph, SaveOf(c.unlocked.value, c.content.value, v));
  }

  /** A published merge shows exactly the resolved text. */
  lemma MergeCommitsText(hash: Hash, csv: Csv, c: Core, id: nat, replica: Image, targetPassword: Password,
                         replicaPassword: Password, v: Merging.Resolution, nonce: nat)
    requires Records.Injective(hash) && Agrees(c) && Faithful(hash, c)
    requires MergeAccepted(hash, csv, c, id, replica, targetPassword, replicaPassword, v)
    ensures HeadText(MergeProposal(hash, csv, c, id, replica, targetPassword, replicaPassword, v, nonce).image.graph) == v.content
  {
    hide Agrees, Faithful, Graphs.Decodable, Images.Unlocking, Merging.GraphsMerge, SubmitAccepted, OpensOwn;
    Merging.UnlockedDecodes(hash, c.committed.value, targetPassword);
    Merging.UnlockedDecodes(hash, replica, replicaPassword);
    var t := Images.Unlocking(hash, c.committed.value, targetPassword).value;
    var l := Images.Unlocking(hash, replica, replicaPassword).value;
    MergedHeadText(hash, l.graph, t.graph, Merging.RequestFor(t, v));
  }

  lemma MergedHeadText(hash: Hash, local: Graphs.Graph, target: Graphs.Graph, s: MergeSpec.MergeRequest)
    requires Records.Injective(hash) && Graphs.Decodable(hash, local, Records.DEFAULT_LIMITS)
    requires Graphs.Decodable(hash, target, Records.DEFAULT_LIMITS) && Merging.GraphsMerge(hash, local, target, s)
    ensures HeadText(MergeSpec.MergedGraph(hash, local, target, s)) == s.content
  {
    hide Graphs.Decodable, Merging.GraphsMerge, HeadText, Validity.LineAfter;
    Merging.MergeDecodes(hash, local, target, s);
    var out := MergeSpec.MergedGraph(hash, local, target, s);
    HeadTextIsDeclared(hash, out, |out.records| - 1);
  }

  /** Compaction never changes the current text. */
  lemma CompactionKeepsText(hash: Hash, c: Core, id: nat, v: CompactInput, password: Password, nonce: nat)
    requires Records.Injective(hash) && Agrees(c) && Faithful(hash, c) && CompactAccepted(hash, c, id, v, password)
    ensures HeadText(CompactProposal(hash, c, id, v, password, nonce).image.graph) == HeadText(c.committed.value.graph)
  {
    hide Agrees, Faithful, Graphs.Decodable, Images.Unlocking, BackupProves, HeadText, OpensOwn, Cuts.CompactedGraph,
         Cuts.MayCompact, Cuts.KeepsTexts, Validity.LineAfter;
    ActorFits(hash, c);
    var g := c.unlocked.value.graph;
    var k := History.ChosenCutoff(g.records, v.retain);
    Cuts.CompactCloses(hash, g, k, CompactOf(c.unlocked.value, v));
    Builders.ContentHeadHeld(hash, g);
    var i :| 0 <= i < |g.records| && g.records[i].id == g.contentHead;
    HeadTextIsDeclared(hash, g, i);
    CompactedHolds(hash, g, k, CompactOf(c.unlocked.value, v), i);
    HeadTextIsDeclared(hash, Cuts.CompactedGraph(hash, g, k, CompactOf(c.unlocked.value, v)), i);
  }

  lemma CompactedHolds(hash: Hash, g: Graphs.Graph, k: nat, s: Cuts.CompactRequest, i: nat)
    requires g.records != [] && k < |Cuts.Carriers(g.records, |g.records|)| && i < |g.records|
    ensures var out := Cuts.CompactedGraph(hash, g, k, s);
            i < |out.records| && out.records[i].id == g.records[i].id && out.records[i].imm == g.records[i].imm
            && out.contentHead == g.contentHead
  {
    hide Validity.LineAfter;
  }

  /** Neither does any event: an activity or a credential change. */
  lemma EventKeepsText(hash: Hash, c: Core, id: nat, e: Events.EventRequest, password: Password, nonce: nat)
    requires Records.Injective(hash) && Faithful(hash, c) && c.unlocked.Some?
    requires Events.EventAllowed(c.unlocked.value.graph, e)
    ensures HeadText(EventProposal(hash, c, id, e, password, nonce).image.graph) == HeadText(c.unlocked.value.graph)
  {
    hide Faithful, Graphs.Decodable, Images.Unlocking, Events.EventAllowed, Events.EventGraph, Validity.LineAfter;
    ActorFits(hash, c);
    Events.EventCloses(hash, c.unlocked.value.graph, e);
  }

  lemma CredentialChangeKeepsText(hash: Hash, c: Core, id: nat, ch: Slots.SlotChange, x: Credentials.Context, password: Password)
    requires Records.Injective(hash) && Agrees(c) && Faithful(hash, c) && ChangeAccepted(hash, c, id, ch, x, password)
    ensures HeadText(ChangeProposal(hash, c, id, ch, x, password).image.graph) == HeadText(c.unlocked.value.graph)
  {
    hide Agrees, Faithful, Graphs.Decodable, Images.Unlocking, Slots.PlanFor, Slots.Authorised, OpensOwn, Events.EventAllowed,
         Events.EventFits, Events.EventGraph, Validity.LineAfter, Images.Unauthentic, Slots.UnusedIds;
    OwnSlotFits(hash, c);
    var image := c.committed.value;
    var k := OwnSlot(c);
    Credentials.OwnIndex(hash, image, k);
    var plan := Slots.PlanFor(image.graph.slots, Images.OpenedBy(image, k), ch, x.id, x.managementId);
    Events.EventCloses(hash, image.graph, Credentials.EventFor(plan, image.graph.slots[k], ch, x));
  }
}
