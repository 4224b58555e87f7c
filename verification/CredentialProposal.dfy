/** Preparing a credential change against the committed image (src/container/container.cpp, prepare_slot_change). */
module CredentialProposal {
  import opened Wrappers
  import opened TextValidation
  import opened ContainerState
  import opened ContainerCore
  import opened ContainerAgreement
  import opened Proposals
  import Graphs = RevisionGraph
  import Images = Envelope
  import Ops = ImageOperations
  import Slots = PasswordSlots
  import Credentials = CredentialChange
  import Records = RevisionRecords
  import Events = AppendEvent

  /** The position of the open slot, in the slots and in the wrappers. */
  function OwnSlot(c: Core): nat
    requires c.unlocked.Some?
  {
    Slots.IndexOf(c.unlocked.value.graph.slots, c.unlocked.value.slot, 0)
  }

  lemma OwnSlotFits(hash: Hash, c: Core)
    requires Faithful(hash, c) && c.unlocked.Some?
    ensures c.committed.Some? && OwnSlot(c) < |c.committed.value.wrappers| == |c.committed.value.graph.slots|
    ensures Graphs.Decodable(hash, c.committed.value.graph, Records.DEFAULT_LIMITS)
    ensures c.unlocked.value.graph == c.committed.value.graph && Images.WellStructured(c.committed.value)
    ensures Slots.IndexOf(c.committed.value.graph.slots, c.unlocked.value.slot, 0) == OwnSlot(c)
    ensures c.committed.value.graph.slots[OwnSlot(c)].id == c.unlocked.value.slot
    ensures c.unlocked.value.documentId == c.committed.value.documentId
  {
    hide Graphs.Decodable, Images.WellStructured;
    FaithfulDecodes(hash, c.committed.value, c.unlocked.value);
  }

  /** On an unlocked screen without a target the open data is exactly what its wrapper opens. */
  lemma OpenIsWhole(hash: Hash, c: Core)
    requires Agrees(c) && Faithful(hash, c) && c.state.screen == Unlocked && c.state.target.None?
    ensures c.unlocked.Some? && c.committed.Some? && OwnSlot(c) < |c.committed.value.wrappers| == |c.committed.value.graph.slots|
    ensures c.unlocked.value == Images.OpenedBy(c.committed.value, OwnSlot(c))
    ensures c.unlocked.value.permissions == OwnPermissions(c.unlocked.value)
  {
    hide Graphs.Decodable, Images.WellStructured, CandidateAgrees, PendingAgrees, OpenAgrees, Consistent;
    OwnSlotFits(hash, c);
    FaithfulDecodes(hash, c.committed.value, c.unlocked.value);
    BitsRoundTrip(OwnPermissions(c.unlocked.value));
  }

  /** The password the proposal is read back with. */
  function CandidatePassword(ch: Slots.SlotChange, password: Password): Password {
    if ch.kind == Slots.ChangePassword || ch.kind == Slots.ClaimInvitation then ch.newPassword else password
  }

  predicate RemovesActive(c: Core, ch: Slots.SlotChange)
    requires c.unlocked.Some?
  {
    ch.kind == Slots.RemoveSlot && ch.target == c.unlocked.value.slot
  }

  /** The exact condition under which a change is prepared. */
  ghost predicate ChangeAccepted(hash: Hash, c: Core, id: nat, ch: Slots.SlotChange, x: Credentials.Context, password: Password)
    requires Agrees(c) && Faithful(hash, c)
  {
    && Ready(c) && Fresh(c, id) && OpensOwn(hash, c, password)
    && (OwnSlotFits(hash, c);
        Credentials.ChangeAllowed(hash, c.committed.value, OwnSlot(c), ch, x)
        && if RemovesActive(c, ch)
           then c.content.Some? ==> c.content.value == HeadText(c.unlocked.value.graph)
           else Readopts(hash, c, Credentials.Changed(hash, c.committed.value, OwnSlot(c), ch, x), CandidatePassword(ch, password)))
  }

  /** The new image opens to the slot that is open. */
  ghost predicate Readopts(hash: Hash, c: Core, image: Image, password: Password)
    requires c.unlocked.Some?
  {
    var o := Images.Unlocking(hash, image, password);
    o.Some? && o.value.slot == c.unlocked.value.slot
  }

  ghost function ChangeProposal(hash: Hash, c: Core, id: nat, ch: Slots.SlotChange, x: Credentials.Context, password: Password)
    : Candidate
    requires Agrees(c) && Faithful(hash, c) && ChangeAccepted(hash, c, id, ch, x, password)
  {
    OwnSlotFits(hash, c);
    var image := Credentials.Changed(hash, c.committed.value, OwnSlot(c), ch, x);
    Proposal(c, id, image, if RemovesActive(c, ch) then None else Images.Unlocking(hash, image, CandidatePassword(ch, password)))
      .(slotChange := true, removesActive := RemovesActive(c, ch))
  }

  // ---------- The proposal fits ----------

  /** The rewritten image is structured like any other, and the rewrite's own checks pass. */
  lemma ChangedStructure(hash: Hash, image: Image, k: nat, ch: Slots.SlotChange, x: Credentials.Context)
    requires Images.WellStructured(image) && Graphs.Decodable(hash, image.graph, Records.DEFAULT_LIMITS)
    requires k < |image.wrappers| == |image.graph.slots| && Credentials.ChangeAllowed(hash, image, k, ch, x)
    ensures Images.WellStructured(Credentials.Changed(hash, image, k, ch, x))
    ensures Slots.IndexOf(image.graph.slots, Images.OpenedBy(image, k).slot, 0) == k
    ensures var plan := Slots.PlanFor(image.graph.slots, Images.OpenedBy(image, k), ch, x.id, x.managementId);
            && (plan.mode == Images.RemoveAt || plan.index < |plan.slots|)
            && Ops.RewriteAllowed(image, Credentials.Changed(hash, image, k, ch, x).graph, plan.mode, plan.index, ch.newPassword)
            && plan.removesActive == (ch.kind == Slots.RemoveSlot && ch.target == image.graph.slots[k].id)
            && (plan.mode == Images.ReplaceAt <==> ch.kind == Slots.ChangePassword || ch.kind == Slots.ClaimInvitation)
  {
    hide Graphs.Decodable, Graphs.GoodSlot, Slots.Ordinary, Slots.Within, Graphs.Allows, Slots.CoherentBits,
         Images.DistinctHeaders, Images.Unauthentic, Graphs.HasProvisional;
    var slots := image.graph.slots;
    Credentials.OwnIndex(hash, image, k);
    Credentials.DecodedSlots(hash, image.graph);
    var active := Images.OpenedBy(image, k);
    var plan := Slots.PlanFor(slots, active, ch, x.id, x.managementId);
    Credentials.PlanIndex(slots, active, ch, x.id, x.managementId);
    Credentials.PlanRewrites(slots, active, ch, x.id, x.managementId);
    var made := Credentials.MadeWrapper(image, plan, ch, x);
    assert made.header == x.header;
    Credentials.RewrittenHeaders(image.wrappers, plan.mode, plan.index, made);
    OwnerStays(slots, ch);
  }

  lemma OwnerStays(slots: seq<Graphs.Slot>, ch: Slots.SlotChange)
    requires Graphs.GoodSlots(slots)
    ensures var t := Slots.IndexOf(slots, ch.target, 0); t < |slots| && slots[t].role == 1 ==> t > 0
  {
    assert Graphs.GoodSlot(slots, 0);
  }

  lemma ChangeFits(hash: Hash, c: Core, id: nat, ch: Slots.SlotChange, x: Credentials.Context, password: Password)
    requires Records.Injective(hash) && Agrees(c) && Faithful(hash, c) && ChangeAccepted(hash, c, id, ch, x, password)
    ensures CandidateFits(c, ChangeProposal(hash, c, id, ch, x, password), SlotChange)
    ensures FaithfulCandidate(hash, ChangeProposal(hash, c, id, ch, x, password))
  {
    hide Graphs.Decodable, Images.Unlocking, Images.WrapperFits, RightsOf, BitsOf, CandidateAgrees, PendingAgrees,
         Slots.CoherentBits, Consistent, Images.OpenedBy, Credentials.ChangeAllowed, Images.WellStructured,
         Credentials.Changed, OwnPermissions;
    OwnSlotFits(hash, c);
    var k := OwnSlot(c);
    var cand := ChangeProposal(hash, c, id, ch, x, password);
    ChangedStructure(hash, c.committed.value, k, ch, x);
    ChangedFrame(hash, c.committed.value, k, ch, x);
    if !cand.removesActive {
      UnlockedFrom(hash, cand.image, CandidatePassword(ch, password));
      AdoptedRights(hash, c, cand.adopted.value, k, ch, x);
    }
  }

  lemma ChangedFrame(hash: Hash, image: Image, k: nat, ch: Slots.SlotChange, x: Credentials.Context)
    requires Graphs.Decodable(hash, image.graph, Records.DEFAULT_LIMITS)
    requires k < |image.wrappers| == |image.graph.slots| && Credentials.ChangeAllowed(hash, image, k, ch, x)
    ensures var out := Credentials.Changed(hash, image, k, ch, x);
            && out.documentId == image.documentId && out.contentType == image.contentType
            && Slots.IndexOf(image.graph.slots, Images.OpenedBy(image, k).slot, 0) < |image.graph.slots|
            && out.graph.slots == Slots.PlanFor(image.graph.slots, Images.OpenedBy(image, k), ch, x.id, x.managementId).slots
  {
    hide Graphs.Decodable, Slots.Authorised, Slots.PlanFor;
    Credentials.OwnIndex(hash, image, k);
  }

  /** The open slot's rights after any accepted change are coherent. */
  lemma AdoptedRights(hash: Hash, c: Core, adopted: Opened, k: nat, ch: Slots.SlotChange, x: Credentials.Context)
    requires Agrees(c) && Faithful(hash, c) && c.unlocked.Some? && c.committed.Some? && k == OwnSlot(c)
    requires k < |c.committed.value.wrappers| == |c.committed.value.graph.slots|
    requires c.unlocked.value.graph == c.committed.value.graph
    requires Graphs.Decodable(hash, c.committed.value.graph, Records.DEFAULT_LIMITS)
    requires Credentials.ChangeAllowed(hash, c.committed.value, k, ch, x)
    requires adopted.graph == Credentials.Changed(hash, c.committed.value, k, ch, x).graph
    requires adopted.slot == c.unlocked.value.slot
    requires Slots.IndexOf(adopted.graph.slots, adopted.slot, 0) < |adopted.graph.slots|
    ensures Slots.CoherentBits(OwnPermissions(adopted))
  {
    hide Graphs.Decodable, Slots.PlanFor, CandidateAgrees, PendingAgrees, Slots.CoherentBits, Consistent, OpenAgrees,
         Credentials.Changed, Images.WrapperFits;
    var image := c.committed.value;
    var slots := image.graph.slots;
    ChangedFrame(hash, image, k, ch, x);
    var active := Images.OpenedBy(image, k);
    var j := Slots.IndexOf(adopted.graph.slots, adopted.slot, 0);
    PlannedRights(slots, active, ch, x.id, x.managementId, j);
    Credentials.DecodedSlots(hash, image.graph);
    var s := adopted.graph.slots[j];
    if i :| 0 <= i < |slots| && slots[i].id == s.id && slots[i].permissions == s.permissions {
      assert i == k;
    }
  }

  // ---------- Aligned images ----------

  /** On an aligned image nothing but authority, room and an unused password decides. */
  lemma AlignedReadopts(hash: Hash, c: Core, ch: Slots.SlotChange, x: Credentials.Context, password: Password)
    requires Records.Injective(hash) && Agrees(c) && Faithful(hash, c) && c.unlocked.Some? && c.committed.Some?
    requires Credentials.Aligned(hash, c.committed.value) && OpensOwn(hash, c, password)
    requires OwnSlot(c) < |c.committed.value.wrappers| == |c.committed.value.graph.slots|
    requires Credentials.ChangeAllowed(hash, c.committed.value, OwnSlot(c), ch, x) && !RemovesActive(c, ch)
    ensures Readopts(hash, c, Credentials.Changed(hash, c.committed.value, OwnSlot(c), ch, x), CandidatePassword(ch, password))
  {
    hide Graphs.Decodable, Credentials.Changed, Agrees, Credentials.Paired, Images.WrapperFits, Images.Unauthentic,
         Slots.Authorised;
    var image := c.committed.value;
    var k := OwnSlot(c);
    OwnSlotFits(hash, c);
    OwnPassword(hash, c, password);
    var p := CandidatePassword(ch, password);
    Credentials.ChangeMovesPasswords(hash, image, k, ch, x, p);
    var out := Credentials.Changed(hash, image, k, ch, x);
    if ch.kind == Slots.AddInvitation { NewIsOther(hash, c, ch.newPassword, password); }
    assert Credentials.Holder(out, p) == Some(c.unlocked.value.slot);
    HolderOpens(hash, out, p);
  }

  lemma OwnPassword(hash: Hash, c: Core, password: Password)
    requires Faithful(hash, c) && c.unlocked.Some? && c.committed.Some? && OpensOwn(hash, c, password)
    requires OwnSlot(c) < |c.committed.value.wrappers| == |c.committed.value.graph.slots|
    ensures c.committed.value.wrappers[OwnSlot(c)].password == password
    ensures Credentials.Holder(c.committed.value, password) == Some(c.unlocked.value.slot)
  {
    hide Graphs.Decodable;
    var image := c.committed.value;
    var k := Images.Selected(image.wrappers, password, 0);
    Credentials.OwnIndex(hash, image, k);
  }

  lemma NewIsOther(hash: Hash, c: Core, other: Password, password: Password)
    requires c.unlocked.Some? && c.committed.Some? && OpensOwn(hash, c, password)
    requires Images.Unauthentic(c.committed.value, other)
    ensures other != password
  {
    hide Graphs.Decodable;
  }

  /** A password that holds a slot of an aligned image opens it. */
  lemma HolderOpens(hash: Hash, image: Image, password: Password)
    requires Credentials.Aligned(hash, image) && Credentials.Holder(image, password).Some?
    ensures Images.Unlocking(hash, image, password).Some?
    ensures Credentials.Holder(image, password) == Some(Images.Unlocking(hash, image, password).value.slot)
  {
    hide Graphs.Decodable, Credentials.Paired;
    var k := Images.Selected(image.wrappers, password, 0);
    Credentials.AlignedUnlocks(hash, image, k);
  }
}
