/**
 * Opening, unlocking, observing a target and host outcomes keep the agreement of a
 * container's parts; and the open data always is what the committed image decodes to.
 */
module ContainerAgreement {
  import opened Wrappers
  import opened TextValidation
  import opened ContainerState
  import opened ContainerCore
  import Graphs = RevisionGraph
  import Images = Envelope
  import Slots = PasswordSlots
  import Credentials = CredentialChange
  import Records = RevisionRecords
  import Validity = GraphValidity
  import Runs = StateRuns

  type Hash = Records.Hash

  // ---------- Faithfulness ----------

  /** The data is what the image opens to for its slot, up to an overlay of rights. */
  ghost predicate OpenedFrom(hash: Hash, image: Image, o: Opened) {
    var k := Slots.IndexOf(image.graph.slots, o.slot, 0);
    && k < |image.wrappers| && Images.WrapperFits(hash, image, k)
    && o.(permissions := 0) == Images.OpenedBy(image, k).(permissions := 0)
  }

  /** The text of a graph's content head. */
  ghost function HeadText(g: Graphs.Graph): Bytes {
    match Validity.LineAfter(g.records, |g.records|, Records.DEFAULT_LIMITS)
    case Known(t) => t
    case _ => []
  }

  ghost predicate FaithfulCandidate(hash: Hash, cand: Candidate) {
    && Images.WellStructured(cand.image)
    && (cand.discard ==> cand.discardedContent == HeadText(cand.image.graph))
    && (!cand.removesActive ==> cand.adopted.Some? && OpenedFrom(hash, cand.image, cand.adopted.value))
  }

  ghost predicate Faithful(hash: Hash, c: Core) {
    && (c.committed.Some? ==> Images.WellStructured(c.committed.value))
    && (c.unlocked.Some? ==> c.committed.Some? && OpenedFrom(hash, c.committed.value, c.unlocked.value))
    && (c.candidate.Some? ==> FaithfulCandidate(hash, c.candidate.value))
  }

  /** Whatever a password unlocks is faithful, with its slot's own permissions. */
  lemma UnlockedFrom(hash: Hash, image: Image, password: Images.Password)
    requires Images.Unlocking(hash, image, password).Some?
    ensures var o := Images.Unlocking(hash, image, password).value;
            && OpenedFrom(hash, image, o) && o.permissions == OwnPermissions(o) && o.permissions <= 7
            && o.graph == image.graph && o.documentId == image.documentId && o.contentType == image.contentType
            && Slots.IndexOf(o.graph.slots, o.slot, 0) < |o.graph.slots|
  {
    hide Graphs.Decodable;
    var k := Images.Selected(image.wrappers, password, 0);
    Credentials.OwnIndex(hash, image, k);
    Credentials.DecodedSlots(hash, image.graph);
    Slots.SlotFacts(image.graph.slots, k);
  }

  lemma FaithfulDecodes(hash: Hash, image: Image, o: Opened)
    requires OpenedFrom(hash, image, o)
    ensures Graphs.Decodable(hash, image.graph, Records.DEFAULT_LIMITS) && o.graph == image.graph
    ensures o.documentId == image.documentId && o.contentType == image.contentType && image.contentType <= 1
    ensures o.journalKey == image.sealedUnder && image.sealedOver == image.wrappers && |image.wrappers| == |image.graph.slots|
    ensures OwnPermissions(o) <= 7
  {
    hide Graphs.Decodable;
    Credentials.DecodedSlots(hash, image.graph);
    Slots.SlotFacts(image.graph.slots, Slots.IndexOf(image.graph.slots, o.slot, 0));
  }

  /** Taking a verified candidate over, or dropping a rejected one, keeps the data faithful. */
  lemma TakenKeepsFaithful(hash: Hash, next: Core, before: State, a: Attempt)
    requires Faithful(hash, next)
    ensures Faithful(hash, Taken(next, before, a).core)
  {
    hide Images.WellStructured, Followed, FollowUp, OpenedFrom, HeadText;
  }

  lemma OverlayKeepsFaithful(hash: Hash, c: Core, a: Attempt)
    requires Faithful(hash, c)
    ensures Faithful(hash, Overlay(c, a))
  {
    hide Images.WellStructured, OpenedFrom, HeadText, BitsOf;
    if c.unlocked.Some? { OverlayFaithful(hash, c.committed.value, c.unlocked.value, BitsOf(c.state.rights)); }
  }

  /** Faithfulness survives every transition. */
  lemma InstallKeepsFaithful(hash: Hash, c: Core, a: Attempt)
    requires Faithful(hash, c) && Install(c, a).Ok?
    ensures Faithful(hash, Install(c, a).value.core)
  {
    hide Apply, Taken, Overlay, FaithfulCandidate, OpenedFrom, Images.WellStructured;
    var next := c.(state := Apply(c.state, a).value.state);
    TakenKeepsFaithful(hash, next, c.state, a);
    OverlayKeepsFaithful(hash, Taken(next, c.state, a).core, a);
  }

  lemma OverlayFaithful(hash: Hash, image: Image, o: Opened, permissions: nat)
    requires OpenedFrom(hash, image, o)
    ensures OpenedFrom(hash, image, o.(permissions := permissions))
  {
    hide Images.WrapperFits;
  }

  /**
   * No transition but a close ever costs submitted text, except a verified discard that nothing
   * newer was submitted after; and that one leaves the text of the new committed head.
   */
  lemma TextSurvives(hash: Hash, c: Core, a: Attempt)
    requires Faithful(hash, c) && Install(c, a).Ok? && !a.Close?
    ensures var out := Install(c, a).value.core;
            || out.content == c.content
            || (&& VerifiedAttempt(a) && c.candidate.Some? && c.candidate.value.discard
                && c.generation == c.candidate.value.generation
                && out.committed == Some(c.candidate.value.image)
                && out.content == Some(HeadText(c.candidate.value.image.graph)))
  {
    hide Apply, Images.WellStructured, Followed, FollowUp, OpenedFrom, HeadText;
  }

  // ---------- Opening ----------

  lemma OpenKeepsAgreement(c: Core, image: Image)
    requires Agrees(c) && c.state.access == Closed
    ensures var out := Install(c.(committed := Some(image)), Open);
            out.Ok? && Agrees(out.value.core)
            && out.value.core == c.(committed := Some(image), state := c.state.(access := ContainerState.Opened))
  {
    hide OwnPermissions, RightsOf, BitsOf, Coherent, CandidateFits;
  }

  lemma OpeningIsFaithful(hash: Hash, c: Core, image: Image)
    requires Agrees(c) && Faithful(hash, c) && c.state.access == Closed && Images.WellStructured(image)
    ensures Faithful(hash, c.(committed := Some(image), state := c.state.(access := ContainerState.Opened)))
  {
    hide Images.WellStructured, OpenedFrom, UnlockedAgrees, PendingAgrees, CandidateFits;
  }

  // ---------- Unlocking ----------

  function LeaseSeen(c: Core, lease: Graphs.Lease): LeaseStatus {
    if !lease.active then NoLease else if c.localSession == Some(lease.session) then Held else OtherHolder
  }

  /** What an authenticated image asks the state to become. */
  function UnlockRequest(c: Core, o: Opened): Attempt {
    Unlock(o.slot, RightsOf(o.permissions), !o.mustBeChanged, c.target.Some?, LeaseSeen(c, o.graph.lease))
  }

  /** The same slot returns to its own submitted text. */
  predicate Retained(c: Core, o: Opened) {
    c.unlocked.Some? && c.unlocked.value.slot == o.slot
  }

  function WithDecoded(c: Core, o: Opened, text: Bytes): Core {
    if Retained(c, o) then c else c.(unlocked := Some(o), content := Some(text))
  }

  /** The image unlocking authenticates against. */
  function SourceImage(c: Core): Image
    requires c.committed.Some?
  {
    if c.target.Some? then c.target.value else c.committed.value
  }

  /** Checks between decoding and the transition. */
  predicate SameDocument(c: Core, o: Opened) {
    && (c.documentId.Some? ==> o.documentId == c.documentId.value
                               && (c.unlocked.Some? ==> o.contentType == c.unlocked.value.contentType))
    && (c.target.Some? && c.state.target.Some? ==>
          o.slot == c.state.target.value.slot && o.permissions == BitsOf(c.state.target.value.rights))
  }

  function UnlockedCore(c: Core, o: Opened, text: Bytes): Result<Installed, StateError> {
    match Install(WithDecoded(c, o, text), UnlockRequest(c, o))
    case Err(e) => Err(e)
    case Ok(i) => Ok(i.(core := i.core.(documentId := if i.core.unlocked.Some? then Some(i.core.unlocked.value.documentId)
                                                      else i.core.documentId)))
  }

  lemma CoherentPermissions(p: nat)
    requires p <= 7 && Coherent(RightsOf(p))
    ensures Slots.CoherentBits(p)
  {
  }

  /** A target observed for this document is only ever unlocked into the data already held. */
  lemma TargetRetains(c: Core, o: Opened)
    requires Agrees(c) && c.target.Some? && SameDocument(c, o)
    ensures Retained(c, o)
  {
    hide UnlockedAgrees, CandidateAgrees, PendingAgrees, Consistent;
  }

  lemma UnlockKeepsAgreement(hash: Hash, c: Core, o: Opened, text: Bytes)
    requires Agrees(c) && Faithful(hash, c) && c.committed.Some?
    requires OpenedFrom(hash, SourceImage(c), o) && o.permissions == OwnPermissions(o) && o.permissions <= 7
    requires SameDocument(c, o) && UnlockedCore(c, o, text).Ok?
    ensures Agrees(UnlockedCore(c, o, text).value.core) && Faithful(hash, UnlockedCore(c, o, text).value.core)
    ensures UnlockedCore(c, o, text).value.core.committed == c.committed
  {
    hide Faithful, CandidateFits, OwnPermissions, RightsOf, BitsOf, Coherent, OpenedFrom, Slots.CoherentBits;
    var w := WithDecoded(c, o, text);
    ApplyKeepsConsistent(c.state, UnlockRequest(c, o));
    if c.target.Some? { TargetRetains(c, o); }
    DecodedFaithful(hash, c, o, text);
    InstallKeepsFaithful(hash, w, UnlockRequest(c, o));
    DocumentIsFaithful(hash, Install(w, UnlockRequest(c, o)).value.core, UnlockedCore(c, o, text).value.core);
    CoherentPermissions(o.permissions);
    BitsRoundTrip(o.permissions);
    UnlockOpens(hash, c, o, text);
  }

  lemma DecodedFaithful(hash: Hash, c: Core, o: Opened, text: Bytes)
    requires Faithful(hash, c) && c.committed.Some? && OpenedFrom(hash, SourceImage(c), o)
    requires c.target.Some? ==> Retained(c, o)
    ensures Faithful(hash, WithDecoded(c, o, text))
    ensures var u := WithDecoded(c, o, text).unlocked;
            u.Some? && u.value.slot == o.slot && u.value.graph == c.committed.value.graph
            && u.value.documentId == c.committed.value.documentId && u.value.contentType == c.committed.value.contentType
            && (c.target.None? ==> OwnPermissions(u.value) == OwnPermissions(o))
  {
    hide Images.WrapperFits, Images.WellStructured;
    var u := WithDecoded(c, o, text).unlocked.value;
    FaithfulDecodes(hash, SourceImage(c), o);
    FaithfulDecodes(hash, c.committed.value, u);
  }

  lemma DocumentIsFaithful(hash: Hash, a: Core, b: Core)
    requires Faithful(hash, a) && b == a.(documentId := b.documentId)
    ensures Faithful(hash, b)
  {
    hide OpenedFrom, FaithfulCandidate, Images.WellStructured;
  }

  lemma UnlockOpens(hash: Hash, c: Core, o: Opened, text: Bytes)
    requires Agrees(c) && c.committed.Some? && UnlockedCore(c, o, text).Ok?
    requires var u := WithDecoded(c, o, text).unlocked;
             u.Some? && u.value.slot == o.slot && u.value.graph == c.committed.value.graph
             && u.value.documentId == c.committed.value.documentId && u.value.contentType == c.committed.value.contentType
             && (c.target.None? ==> OwnPermissions(u.value) == o.permissions)
    requires c.target.Some? ==> Retained(c, o)
    requires Coherent(RightsOf(o.permissions)) ==> Slots.CoherentBits(o.permissions)
    ensures var out := UnlockedCore(c, o, text).value.core;
            OpenAgrees(out) && UnlockedAgrees(out) && CandidateAgrees(out) && PendingAgrees(out)
            && out.committed == c.committed
  {
    hide CandidateFits, RightsOf, BitsOf, Coherent, Slots.CoherentBits, Consistent, OwnPermissions;
    OverlayKeepsOwn();
  }

  lemma OverlayKeepsOwn()
    ensures forall o: Opened, p: nat :: OwnPermissions(o.(permissions := p)) == OwnPermissions(o)
  {
  }

  /** A refused unlock of another slot's password leaves a container with nothing open. */
  lemma ForgettingKeepsAgreement(hash: Hash, c: Core)
    requires Agrees(c) && Faithful(hash, c) && c.state.screen == Locked && c.target.None?
    ensures Agrees(c.(unlocked := None, content := None)) && Faithful(hash, c.(unlocked := None, content := None))
  {
    hide OwnPermissions, RightsOf, BitsOf, Coherent, OpenedFrom, Images.WellStructured;
  }

  /** A transition refused after another slot's password: there is no target to answer to. */
  lemma RefusedUnlock(hash: Hash, c: Core, o: Opened)
    requires Agrees(c) && Faithful(hash, c) && c.state.screen == Locked && SameDocument(c, o) && !Retained(c, o)
    ensures Agrees(c.(unlocked := None, content := None)) && Faithful(hash, c.(unlocked := None, content := None))
  {
    hide Agrees, Faithful, SameDocument, Retained;
    if c.target.Some? { TargetRetains(c, o); }
    ForgettingKeepsAgreement(hash, c);
  }

  /** After unlocking something is open. */
  lemma UnlockHolds(hash: Hash, c: Core, o: Opened, text: Bytes)
    requires Agrees(c) && Faithful(hash, c) && c.committed.Some? && UnlockedCore(c, o, text).Ok?
    ensures Install(WithDecoded(c, o, text), UnlockRequest(c, o)).Ok?
    ensures Install(WithDecoded(c, o, text), UnlockRequest(c, o)).value.core.unlocked.Some?
  {
    hide Agrees, Faithful, Apply, BitsOf, RightsOf;
  }

  // ---------- Observing a target ----------

  lemma TargetKeepsAgreement(hash: Hash, c: Core, image: Image, rights: Rights, wrapperChanged: bool)
    requires Agrees(c) && Faithful(hash, c) && c.target.None?
    requires Apply(c.state, ApplyTarget(rights, wrapperChanged)).Ok?
    ensures var out := Install(c.(target := Some(image)), ApplyTarget(rights, wrapperChanged));
            && out.Ok? && Agrees(out.value.core) && Faithful(hash, out.value.core)
            && out.value.core.committed == c.committed && out.value.core.target == Some(image)
            && out.value.core.content == c.content
  {
    hide OwnPermissions, RightsOf, BitsOf, Coherent, OpenedFrom, Images.WellStructured, CandidateFits;
    ApplyKeepsConsistent(c.state, ApplyTarget(rights, wrapperChanged));
    OverlayKeepsOwn();
    TargetOnlyIsFaithful(hash, c, image);
    InstallKeepsFaithful(hash, c.(target := Some(image)), ApplyTarget(rights, wrapperChanged));
  }

  lemma TargetOnlyIsFaithful(hash: Hash, c: Core, image: Image)
    requires Faithful(hash, c)
    ensures Faithful(hash, c.(target := Some(image)))
  {
    hide OpenedFrom, FaithfulCandidate, Images.WellStructured;
  }

  // ---------- Host outcomes ----------

  /** The host reports how a backup or export went. */
  lemma CompleteKeepsAgreement(c: Core, id: nat, succeeded: bool)
    requires Agrees(c) && Apply(c.state, CompleteHostAction(id, succeeded)).Ok?
    ensures c.pending.Some?
    ensures var out := Install(c, CompleteHostAction(id, succeeded));
            && out.Ok? && out.value.core == c.(state := c.state.(phase := OutcomePending))
            && Agrees(out.value.core.(pending := Some(c.pending.value.(succeeded := Some(succeeded)))))
  {
    hide OwnPermissions, RightsOf, BitsOf, Coherent, CandidateFits;
  }

  /** A journalled outcome is owed again after reopening. */
  lemma RestoreKeepsAgreement(c: Core, id: nat, purpose: Purpose, owed: Pending)
    requires Agrees(c) && Apply(c.state, RestoreActivity(id, purpose)).Ok?
    requires c.committed.Some? && owed.head == c.committed.value.graph.head && owed.succeeded.Some?
    ensures var out := Install(c, RestoreActivity(id, purpose));
            && out.Ok? && Agrees(out.value.core.(pending := Some(owed)))
            && out.value.core == c.(state := out.value.core.state)
  {
    hide OwnPermissions, RightsOf, BitsOf, Coherent, CandidateFits;
    ApplyKeepsConsistent(c.state, RestoreActivity(id, purpose));
  }
}
