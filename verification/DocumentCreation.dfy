/**
 * Creating a document (src/container/revised_v3_container.cpp create, src/format/revision_graph.cpp
 * create_baseline), and what every run of changes from there keeps.
 */
module DocumentCreation {
  import opened Wrappers
  import opened TextValidation
  import opened RevisionRecords
  import opened RevisionGraph
  import opened BuilderRuns
  import opened GraphBuilders
  import opened Envelope
  import opened PasswordSlots
  import opened CredentialChange
  import opened ImageOperations

  /** What a new document is made from. */
  datatype Creation = Creation(
    name: string, email: string, device: string, content: Bytes, contentType: nat, timestamp: nat,
    ownerPassword: Password, recoveryPassword: Option<Password>)

  /** The random values of a creation. */
  datatype Draws = Draws(
    key: nat, documentId: nat, nonce: nat, ownerId: SlotId, ownerManagementId: SlotId, recoveryId: SlotId,
    recoveryManagementId: SlotId, ownerHeader: nat, recoveryHeader: nat)

  /** A value drawn for the second slot, moved on if it equals the first. */
  function Apart(second: int, first: int): int {
    if second == first then second + 1 else second
  }

  function OwnerSlot(v: Creation, d: Draws): Slot {
    Slot(d.ownerId, d.ownerManagementId, 7, 0, false, v.name, v.email)
  }

  function RecoverySlot(v: Creation, d: Draws): Option<Slot> {
    if v.recoveryPassword.None? then None
    else Some(Slot(Apart(d.recoveryId, d.ownerId), Apart(d.recoveryManagementId, d.ownerManagementId), 7, 2, false, "", ""))
  }

  function FirstGraph(hash: Hash, v: Creation, d: Draws): Graph {
    BaselineGraph(hash, OwnerSlot(v, d), RecoverySlot(v, d), v.device, v.content, v.timestamp)
  }

  function FirstWrappers(v: Creation, d: Draws): seq<Wrapper> {
    [Wrapper(d.ownerHeader, v.ownerPassword, d.key, d.ownerId, 7, false)]
    + if v.recoveryPassword.None? then []
      else [Wrapper(if d.recoveryHeader == d.ownerHeader then d.recoveryHeader + 1 else d.recoveryHeader,
                    v.recoveryPassword.value, d.key, Apart(d.recoveryId, d.ownerId), 7, false)]
  }

  function CreatedImage(hash: Hash, v: Creation, d: Draws): Image {
    Image(FirstWrappers(v, d), d.nonce, d.key, FirstWrappers(v, d), d.documentId, v.contentType, FirstGraph(hash, v, d))
  }

  /** A password for the owner, and one for recovery if there is to be any; no password given is empty. */
  predicate GivenPasswords(v: Creation) {
    v.ownerPassword != [] && (v.recoveryPassword.Some? ==> v.recoveryPassword.value != [])
  }

  ghost predicate MayCreate(v: Creation) {
    GivenPasswords(v) && BaselineAllowed(v.timestamp, v.content) && v.name != "" && v.email != "" && v.device != ""
  }

  lemma FirstSlotsGood(v: Creation, d: Draws)
    requires v.name != "" && v.email != ""
    ensures GoodSlots(if RecoverySlot(v, d).None? then [OwnerSlot(v, d)] else [OwnerSlot(v, d), RecoverySlot(v, d).value])
  {
    var slots := if RecoverySlot(v, d).None? then [OwnerSlot(v, d)] else [OwnerSlot(v, d), RecoverySlot(v, d).value];
    assert GoodSlot(slots, 0);
    if v.recoveryPassword.Some? { assert GoodSlot(slots, 1); }
  }

  lemma FirstGraphDecodes(hash: Hash, v: Creation, d: Draws)
    requires BaselineAllowed(v.timestamp, v.content)
    ensures Decodable(hash, FirstGraph(hash, v, d), DEFAULT_LIMITS) <==> v.name != "" && v.email != "" && v.device != ""
  {
    hide Decodable, GoodSlots, CanonicalText;
    BaselineCloses(hash, OwnerSlot(v, d), RecoverySlot(v, d), v.device, v.content, v.timestamp);
    if v.name != "" && v.email != "" { FirstSlotsGood(v, d); }
  }

  /** Creation succeeds exactly for given passwords, canonical text and complete names, with one wrapper to each slot. */
  method Create(hash: Hash, v: Creation, d: Draws) returns (r: Result<Image, Failure>)
    ensures r.Ok? <==> MayCreate(v)
    ensures r.Ok? ==> r.value == CreatedImage(hash, v, d)
  {
    hide Decodable, CanonicalText;
    if v.ownerPassword == [] || (v.recoveryPassword.Some? && v.recoveryPassword.value == []) {
      return Err(ContainerFailure(BadArgument));
    }
    var canonical := ValidCanonicalDocumentText(v.content);
    if v.timestamp > MAX_TIME || |v.content| > DEFAULT_LIMITS.maxText || !canonical { return Err(FormatFailure(InvalidArgument)); }
    var graph := Checked(hash, FirstGraph(hash, v, d));
    FirstGraphDecodes(hash, v, d);
    if graph.Err? { return Err(FormatFailure(graph.error)); }
    var count := if v.recoveryPassword.Some? then 2 else 1;
    var wrappers := [];
    var i := 0;
    while i < count
      invariant 0 <= i <= count && wrappers == FirstWrappers(v, d)[..i]
    {
      var header := if i == 0 then d.ownerHeader else d.recoveryHeader;
      if i == 1 && header == wrappers[0].header { header := header + 1; }
      var slot := if i == 0 then OwnerSlot(v, d) else RecoverySlot(v, d).value;
      var password := if i == 0 then v.ownerPassword else v.recoveryPassword.value;
      wrappers := wrappers + [Wrapper(header, password, d.key, slot.id, 7, false)];
      i := i + 1;
    }
    return Ok(Image(wrappers, d.nonce, d.key, wrappers, d.documentId, v.contentType, graph.value));
  }

  predicate DifferentPasswords(v: Creation) {
    v.recoveryPassword != Some(v.ownerPassword)
  }

  /** The passwords differ, none is longer than unlocking accepts, and the content type is one that unlocking knows. */
  predicate Openable(v: Creation) {
    && DifferentPasswords(v) && |v.ownerPassword| <= 4096
    && (v.recoveryPassword.Some? ==> |v.recoveryPassword.value| <= 4096) && v.contentType <= 1
  }

  /**
   * A created image is aligned exactly if its passwords differ and are within the length that unlocking
   * accepts, and its content type is known; creation itself checks none of these.
   */
  lemma CreatedIsAligned(hash: Hash, v: Creation, d: Draws)
    requires MayCreate(v)
    ensures Aligned(hash, CreatedImage(hash, v, d)) <==> Openable(v)
  {
    hide Decodable, CanonicalText;
    FirstGraphDecodes(hash, v, d);
    var image := CreatedImage(hash, v, d);
    assert |image.wrappers| == |image.graph.slots|;
    assert Paired(image, 0) <==> GoodPassword(v.ownerPassword);
    if v.recoveryPassword.Some? { assert Paired(image, 1) <==> GoodPassword(v.recoveryPassword.value); }
  }

  const UNOPENABLE := Creation("a", "b", "c", [], 2, 0, [1], None)

  /** A document of an unknown content type can be created and never opened. */
  lemma UnopenableIsCreated(hash: Hash, d: Draws)
    ensures MayCreate(UNOPENABLE) && DifferentPasswords(UNOPENABLE) && !Aligned(hash, CreatedImage(hash, UNOPENABLE, d))
    ensures forall p :: Unlocking(hash, CreatedImage(hash, UNOPENABLE, d), p) == None
  {
    hide Decodable;
    EmptyIsWellFormed();
    CreatedIsAligned(hash, UNOPENABLE, d);
  }

  // ---------- Runs ----------

  /** The step gives the password to a slot, or takes it from one. */
  predicate Touches(image: Image, step: ImageStep, p: Password)
    requires |image.wrappers| == |image.graph.slots| && (step.Credential? ==> step.k < |image.wrappers|)
  {
    step.Credential?
    && ((NeedsPassword(step.change.kind) && p == step.change.newPassword)
        || ((step.change.kind == ChangePassword || step.change.kind == ClaimInvitation) && p == image.wrappers[step.k].password)
        || (step.change.kind == RemoveSlot && Holder(image, p) == Some(step.change.target)))
  }

  lemma StepLeavesPassword(hash: Hash, image: Image, step: ImageStep, p: Password)
    requires Injective(hash) && StepAllowed(hash, image, step) && !Touches(image, step, p)
    ensures Aligned(hash, Stepped(hash, image, step))
    ensures Holder(Stepped(hash, image, step), p) == Holder(image, p)
  {
    hide Decodable, Matched, ChangeAllowed, Changed, Holder;
    match step
    case Credential(k, c, x) => ChangeMovesPasswords(hash, image, k, c, x, p);
    case Payload(g, nonce) => PayloadKeepsAligned(hash, image, g, nonce);
  }

  /** Steps m to n of a run give the password to nobody and take it from nobody. */
  ghost predicate Untouched(hash: Hash, images: seq<Image>, steps: seq<ImageStep>, m: nat, n: nat, p: Password)
    requires ImageRun(hash, images, steps) && m <= n < |images|
  {
    forall i | m <= i < n :: StepAllowed(hash, images[i], steps[i]) && !Touches(images[i], steps[i], p)
  }

  /** Through any stretch of a run that leaves a password alone it opens the same slot, or still nothing. */
  lemma {:induction false} UntouchedPasswordsStay(hash: Hash, images: seq<Image>, steps: seq<ImageStep>, m: nat, n: nat, p: Password)
    requires Injective(hash) && ImageRun(hash, images, steps) && Aligned(hash, images[0]) && m <= n < |images|
    requires Untouched(hash, images, steps, m, n, p)
    ensures Aligned(hash, images[m]) && Aligned(hash, images[n])
    ensures Holder(images[n], p) == Holder(images[m], p)
    decreases n - m
  {
    hide Decodable, Matched, StepAllowed, Stepped, Touches, Holder;
    RunsStayAligned(hash, images, steps, m);
    RunsStayAligned(hash, images, steps, n);
    if m < n {
      UntouchedPasswordsStay(hash, images, steps, m, n - 1, p);
      StepLeavesPassword(hash, images[n - 1], steps[n - 1], p);
    }
  }

  /** From creation on, the owner's password opens the owner's slot for as long as nobody changes it. */
  lemma OwnerKeepsAccess(hash: Hash, v: Creation, d: Draws, images: seq<Image>, steps: seq<ImageStep>, n: nat)
    requires Injective(hash) && MayCreate(v) && Openable(v)
    requires ImageRun(hash, images, steps) && images[0] == CreatedImage(hash, v, d) && n < |images|
    requires Untouched(hash, images, steps, 0, n, v.ownerPassword)
    ensures Aligned(hash, images[n]) && images[n].graph.slots[0].role == 0
    ensures var o := Unlocking(hash, images[n], v.ownerPassword); o.Some? && o.value.slot == d.ownerId && o.value.owner
  {
    hide Decodable, Matched, StepAllowed, Stepped, Untouched, ImageRun, MayCreate, Openable, Unlocking, Paired;
    CreatedIsAligned(hash, v, d);
    UntouchedPasswordsStay(hash, images, steps, 0, n, v.ownerPassword);
    RunsStayAligned(hash, images, steps, n);
    OwnerStaysFirst(hash, v, d, images, steps, n);
    HolderAt(hash, images[n], v.ownerPassword);
    var k := Selected(images[n].wrappers, v.ownerPassword, 0);
    AlignedUnlocks(hash, images[n], k);
    FirstSlotIs(hash, images[n], k);
  }

  lemma HolderAt(hash: Hash, image: Image, p: Password)
    requires Aligned(hash, image) && Holder(image, p).Some?
    ensures var k := Selected(image.wrappers, p, 0);
            k < |image.wrappers| && image.wrappers[k].password == p && Holder(image, p) == Some(image.graph.slots[k].id)
  {
    hide Decodable, Paired;
  }

  lemma FirstSlotIs(hash: Hash, image: Image, k: nat)
    requires Aligned(hash, image) && k < |image.wrappers| && image.graph.slots[k].id == image.graph.slots[0].id
    ensures k == 0
  {
    hide Decodable, Paired, GoodSlot;
    DecodedSlots(hash, image.graph);
  }

  /** No change removes or replaces the owner's slot. */
  lemma {:induction false} OwnerStaysFirst(hash: Hash, v: Creation, d: Draws, images: seq<Image>, steps: seq<ImageStep>, n: nat)
    requires Injective(hash) && ImageRun(hash, images, steps) && Aligned(hash, images[0])
    requires images[0] == CreatedImage(hash, v, d) && n < |images|
    ensures Aligned(hash, images[n]) && images[n].graph.slots[0].id == d.ownerId
  {
    hide Decodable, Matched, StepAllowed, Stepped;
    RunsStayAligned(hash, images, steps, n);
    if n > 0 {
      OwnerStaysFirst(hash, v, d, images, steps, n - 1);
      StepKeepsFirst(hash, images[n - 1], steps[n - 1]);
    }
  }

  lemma StepKeepsFirst(hash: Hash, image: Image, step: ImageStep)
    requires Injective(hash) && StepAllowed(hash, image, step)
    ensures Aligned(hash, Stepped(hash, image, step))
    ensures |image.graph.slots| > 0 && |Stepped(hash, image, step).graph.slots| > 0
    ensures Stepped(hash, image, step).graph.slots[0].id == image.graph.slots[0].id
  {
    hide Decodable, ChangeAllowed, Paired, DistinctPasswords, DistinctHeaders, Changed;
    match step
    case Payload(g, nonce) => PayloadKeepsAligned(hash, image, g, nonce); DecodedSlots(hash, image.graph);
    case Credential(k, c, x) =>
      ChangeKeepsAligned(hash, image, k, c, x);
      DecodedSlots(hash, image.graph);
      ChangeKeepsFirst(hash, image, k, c, x);
  }

  lemma ChangeKeepsFirst(hash: Hash, image: Image, k: nat, c: SlotChange, x: Context)
    requires Decodable(hash, image.graph, DEFAULT_LIMITS) && k < |image.wrappers| == |image.graph.slots|
    requires ChangeAllowed(hash, image, k, c, x) && GoodSlots(image.graph.slots)
    ensures |Changed(hash, image, k, c, x).graph.slots| > 0
    ensures Changed(hash, image, k, c, x).graph.slots[0].id == image.graph.slots[0].id
  {
    hide Decodable, Unauthentic, Within, CoherentBits, Allows, Ordinary, GoodSlots, GoodSlot;
    OwnIndex(hash, image, k);
    RecoveryIsLast(image.graph.slots);
    FirstIsOwner(image.graph.slots, c);
  }

  lemma FirstIsOwner(slots: seq<Slot>, c: SlotChange)
    requires GoodSlots(slots)
    ensures var t := IndexOf(slots, c.target, 0); t < |slots| && slots[t].role == 1 ==> t > 0
  {
    assert GoodSlot(slots, 0);
  }
}
