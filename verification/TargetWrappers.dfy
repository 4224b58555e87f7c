/**
 * Which credential changes, seen in an observed target, ask an open session for its
 * password again (src/container/container.cpp, apply_target_document).
 */
module TargetWrappers {
  import opened Wrappers
  import opened TextValidation
  import opened ContainerState
  import opened ContainerCore
  import opened ContainerAgreement
  import opened Proposals
  import opened CredentialProposal
  import opened ContainerRequests
  import Graphs = RevisionGraph
  import Images = Envelope
  import Slots = PasswordSlots
  import Credentials = CredentialChange
  import Records = RevisionRecords
  import Events = AppendEvent

  /** The change gives the open slot a new wrapper. */
  predicate ReplacesOwn(c: Core, k: nat, ch: Slots.SlotChange)
    requires c.unlocked.Some?
  {
    k == OwnSlot(c) && (ch.kind == Slots.ChangePassword || ch.kind == Slots.ClaimInvitation)
  }

  /** The slot a password opens is the one its own wrapper lies along. */
  lemma OpenedAt(hash: Hash, image: Image, password: Password)
    requires Images.Unlocking(hash, image, password).Some?
    ensures var o := Images.Unlocking(hash, image, password).value;
            var j := Slots.IndexOf(image.graph.slots, o.slot, 0);
            j < |image.wrappers| == |image.graph.slots| && image.wrappers[j].password == password
            && image.graph.slots[j].id == o.slot && o.graph == image.graph
  {
    hide Graphs.Decodable;
    Credentials.OwnIndex(hash, image, Images.Selected(image.wrappers, password, 0));
  }

  lemma SlotPosition(slots: seq<Graphs.Slot>, i: nat)
    requires Graphs.GoodSlots(slots) && i < |slots|
    ensures Slots.IndexOf(slots, slots[i].id, 0) == i
  {
    hide Graphs.GoodSlot;
  }

  /** A wrapper that is neither replaced nor removed is found unchanged, at the place its slot moved to. */
  lemma KeptWrapper(hash: Hash, image: Image, k: nat, ch: Slots.SlotChange, x: Credentials.Context, i: nat)
    requires Records.Injective(hash) && Credentials.Aligned(hash, image) && k < |image.wrappers| && i < |image.wrappers|
    requires Credentials.ChangeAllowed(hash, image, k, ch, x)
    requires !(k == i && (ch.kind == Slots.ChangePassword || ch.kind == Slots.ClaimInvitation))
    requires !(ch.kind == Slots.RemoveSlot && ch.target == image.graph.slots[i].id)
    ensures var out := Credentials.Changed(hash, image, k, ch, x);
            var j := Slots.IndexOf(out.graph.slots, image.graph.slots[i].id, 0);
            j < |out.graph.slots| == |out.wrappers| && out.wrappers[j] == image.wrappers[i]
  {
    hide Graphs.Decodable, Graphs.GoodSlot, Slots.Ordinary, Slots.Within, Graphs.Allows, Events.EventAllowed, Events.EventFits,
         Credentials.Paired, Slots.CoherentBits, Credentials.RewrittenSlots, Images.DistinctHeaders,
         Credentials.DistinctPasswords, Images.Rewritten, Images.Unauthentic;
    var slots := image.graph.slots;
    Credentials.ChangeKeepsAligned(hash, image, k, ch, x);
    Credentials.OwnIndex(hash, image, k);
    Credentials.DecodedSlots(hash, image.graph);
    var active := Images.OpenedBy(image, k);
    var plan := Slots.PlanFor(slots, active, ch, x.id, x.managementId);
    var out := Credentials.Changed(hash, image, k, ch, x);
    Credentials.DecodedSlots(hash, out.graph);
    Credentials.PlanIndex(slots, active, ch, x.id, x.managementId);
    Credentials.PlanRewrites(slots, active, ch, x.id, x.managementId);
    Credentials.PlanSlotAt(slots, active, ch, x.id, x.managementId);
    var j := match plan.mode
      case InsertAt => if i >= plan.index then i + 1 else i
      case RemoveAt => if i > plan.index then i - 1 else i
      case _ => i;
    Credentials.MovedSlot(image, out, plan.mode, plan.index, Credentials.MadeWrapper(image, plan, ch, x), i, j);
    SlotPosition(out.graph.slots, j);
  }

  /** A slot's replaced wrapper is never its old one: its salt and nonce are drawn anew. */
  lemma ReplacedWrapper(hash: Hash, image: Image, k: nat, ch: Slots.SlotChange, x: Credentials.Context)
    requires Records.Injective(hash) && Credentials.Aligned(hash, image) && k < |image.wrappers|
    requires Credentials.ChangeAllowed(hash, image, k, ch, x)
    requires ch.kind == Slots.ChangePassword || ch.kind == Slots.ClaimInvitation
    ensures var out := Credentials.Changed(hash, image, k, ch, x);
            var j := Slots.IndexOf(out.graph.slots, image.graph.slots[k].id, 0);
            j < |out.graph.slots| == |out.wrappers| && out.wrappers[j] != image.wrappers[k]
  {
    hide Graphs.Decodable, Graphs.GoodSlot, Slots.Ordinary, Slots.Within, Graphs.Allows, Events.EventAllowed, Events.EventFits,
         Credentials.Paired, Slots.CoherentBits, Credentials.RewrittenSlots, Images.DistinctHeaders,
         Credentials.DistinctPasswords, Images.Unauthentic;
    var slots := image.graph.slots;
    Credentials.ChangeKeepsAligned(hash, image, k, ch, x);
    Credentials.OwnIndex(hash, image, k);
    Credentials.DecodedSlots(hash, image.graph);
    var out := Credentials.Changed(hash, image, k, ch, x);
    Credentials.DecodedSlots(hash, out.graph);
    Credentials.PlanSlotAt(slots, Images.OpenedBy(image, k), ch, x.id, x.managementId);
    SlotPosition(out.graph.slots, k);
  }

  /**
   * Of all credential changes another session may publish, exactly one that replaced the open
   * slot's own wrapper asks for the password again.
   */
  lemma OnlyOwnReplacementReauthenticates(hash: Hash, c: Core, k: nat, ch: Slots.SlotChange, x: Credentials.Context,
                                          password: Password)
    requires Records.Injective(hash) && Agrees(c) && Faithful(hash, c) && c.state.screen == Unlocked
    requires c.unlocked.Some? && c.committed.Some? && Credentials.Aligned(hash, c.committed.value)
    requires k < |c.committed.value.wrappers| && Credentials.ChangeAllowed(hash, c.committed.value, k, ch, x)
    requires !(ch.kind == Slots.RemoveSlot && ch.target == c.unlocked.value.slot)
    requires Readopts(hash, c, Credentials.Changed(hash, c.committed.value, k, ch, x), password)
    ensures var out := Credentials.Changed(hash, c.committed.value, k, ch, x);
            WrapperMoved(hash, c, out, Images.Unlocking(hash, out, password).value, password) <==> ReplacesOwn(c, k, ch)
  {
    hide Graphs.Decodable, Credentials.ChangeAllowed, Credentials.Changed, Images.Unlocking, Credentials.Paired,
         OpenAgrees, CandidateAgrees, PendingAgrees, Consistent, OwnPermissions, RightsOf, BitsOf;
    var image := c.committed.value;
    OwnSlotFits(hash, c);
    var i := OwnSlot(c);
    var out := Credentials.Changed(hash, image, k, ch, x);
    OpenedAt(hash, out, password);
    if ReplacesOwn(c, k, ch) {
      ReplacedWrapper(hash, image, k, ch, x);
    } else {
      KeptWrapper(hash, image, k, ch, x, i);
      Credentials.AlignedUnlocks(hash, image, i);
    }
  }

  /** A target that only carries newer content never does. */
  lemma NewContentNeverReauthenticates(hash: Hash, c: Core, graph: Graphs.Graph, nonce: nat, password: Password)
    requires Agrees(c) && Faithful(hash, c) && c.state.screen == Unlocked && c.unlocked.Some? && c.committed.Some?
    requires Graphs.Decodable(hash, graph, Records.DEFAULT_LIMITS) && graph.slots == c.committed.value.graph.slots
    requires Readopts(hash, c, Images.WithGraph(c.committed.value, graph, nonce), password)
    ensures var out := Images.WithGraph(c.committed.value, graph, nonce);
            !WrapperMoved(hash, c, out, Images.Unlocking(hash, out, password).value, password)
  {
    hide Graphs.Decodable, Images.Unlocking, OpenAgrees, CandidateAgrees, PendingAgrees, Consistent, OwnPermissions,
         RightsOf, BitsOf;
    OwnSlotFits(hash, c);
    OpenedAt(hash, Images.WithGraph(c.committed.value, graph, nonce), password);
    PayloadOpens(hash, c, graph, nonce, password);
  }

  /** A session whose slot was removed can no longer open the target with any password. */
  lemma RemovedSlotOpensNothing(hash: Hash, c: Core, k: nat, ch: Slots.SlotChange, x: Credentials.Context, password: Password)
    requires Records.Injective(hash) && Agrees(c) && Faithful(hash, c)
    requires c.unlocked.Some? && c.committed.Some? && Credentials.Aligned(hash, c.committed.value)
    requires k < |c.committed.value.wrappers| && Credentials.ChangeAllowed(hash, c.committed.value, k, ch, x)
    requires ch.kind == Slots.RemoveSlot && ch.target == c.unlocked.value.slot
    ensures !Readopts(hash, c, Credentials.Changed(hash, c.committed.value, k, ch, x), password)
  {
    hide Graphs.Decodable, Credentials.ChangeAllowed, Credentials.Changed, Images.Unlocking, Credentials.Paired, Agrees, Faithful;
    var image := c.committed.value;
    var out := Credentials.Changed(hash, image, k, ch, x);
    Credentials.ChangeMovesPasswords(hash, image, k, ch, x, password);
    if Images.Unlocking(hash, out, password).Some? {
      UnlockedHolder(hash, out, password);
    }
  }

  lemma UnlockedHolder(hash: Hash, image: Image, password: Password)
    requires Images.Unlocking(hash, image, password).Some? && |image.wrappers| == |image.graph.slots|
    ensures Credentials.Holder(image, password) == Some(Images.Unlocking(hash, image, password).value.slot)
  {
    hide Graphs.Decodable;
  }
}
