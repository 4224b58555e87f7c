/**
 * A credential change on a whole image: the plan, the event, and the rewrite of the
 * wrappers (src/container/container.cpp prepare_slot_change, revised_v3_container.cpp replace_slots).
 */
module CredentialChange {
  import opened Wrappers
  import opened TextValidation
  import opened RevisionRecords
  import opened RevisionGraph
  import opened AppendEvent
  import opened Envelope
  import opened PasswordSlots

  /** Drawn values, and who makes the change where and when. */
  datatype Context = Context(
    header: nat, nonce: nat, id: SlotId, managementId: SlotId,
    clientName: string, clientEmail: string, device: string, timestamp: nat)

  // ---------- Alignment ----------

  /** Wrapper i is a sound wrapper for slot i. */
  predicate Paired(image: Image, i: nat)
    requires i < |image.wrappers| && i < |image.graph.slots|
  {
    var w, s := image.wrappers[i], image.graph.slots[i];
    && w.slot == s.id && w.key == image.sealedUnder && w.rights <= 7 && GoodPassword(w.password)
    && (s.role != 1 ==> w.rights == 7 && !w.mustBeChanged)
    && CoherentBits(s.permissions)
  }

  predicate DistinctPasswords(ws: seq<Wrapper>) {
    forall i, j | 0 <= i < j < |ws| :: ws[i].password != ws[j].password
  }

  /** The wrapper array lies exactly along the slots, one password each. */
  predicate Matched(image: Image) {
    && WellStructured(image) && |image.wrappers| == |image.graph.slots|
    && DistinctPasswords(image.wrappers) && image.sealedOver == image.wrappers
    && forall i | 0 <= i < |image.wrappers| :: Paired(image, i)
  }

  ghost predicate Aligned(hash: Hash, image: Image) {
    Matched(image) && image.contentType <= 1 && Decodable(hash, image.graph, DEFAULT_LIMITS)
  }

  /** Whose slot a password opens. */
  function Holder(image: Image, password: Password): Option<SlotId>
    requires |image.wrappers| == |image.graph.slots|
  {
    var k := Selected(image.wrappers, password, 0);
    if k < |image.wrappers| then Some(image.graph.slots[k].id) else None
  }

  /** In an aligned image every wrapper's password opens exactly its own slot. */
  lemma AlignedUnlocks(hash: Hash, image: Image, i: nat)
    requires Aligned(hash, image) && i < |image.wrappers|
    ensures Unlocking(hash, image, image.wrappers[i].password) == Some(OpenedBy(image, i))
    ensures OpenedBy(image, i).slot == image.graph.slots[i].id
  {
    hide Decodable;
    assert Paired(image, i);
    var k := Selected(image.wrappers, image.wrappers[i].password, 0);
    assert k == i;
  }

  // ---------- One change ----------

  function PermissionDetail(p: nat): string {
    if p <= 7 then "permissions=" + ["01234567"[p]] else ""
  }

  function DetailFor(c: SlotChange): string {
    if c.kind == AddInvitation || c.kind == UpdatePermissions then PermissionDetail(c.permissions) else ""
  }

  /** The event is attributed to the identity the change establishes, if it establishes one. */
  function EventActor(slot: Slot, c: SlotChange): Slot {
    if c.kind == ClaimInvitation || c.kind == ReconcileIdentity then slot.(name := c.name, email := c.email) else slot
  }

  function EventFor(plan: Plan, actor: Slot, c: SlotChange, x: Context): EventRequest {
    EventRequest(plan.slots, EventActor(actor, c), plan.affected, plan.event, DetailFor(c), None,
                 x.clientName, x.clientEmail, x.device, x.timestamp)
  }

  /** The wrapper a change makes, for the slot as it will be. */
  function MadeWrapper(image: Image, plan: Plan, c: SlotChange, x: Context): Wrapper
    requires plan.mode == RemoveAt || plan.index < |plan.slots|
  {
    if plan.mode == RemoveAt || plan.mode == Keep then Wrapper(x.header, c.newPassword, image.sealedUnder, 0, 0, false)
    else
      var s := plan.slots[plan.index];
      Wrapper(x.header, c.newPassword, image.sealedUnder, s.id, s.permissions, s.mustBeChanged)
  }

  /** All the checks of preparing a change with the password of wrapper k. */
  ghost predicate ChangeAllowed(hash: Hash, image: Image, k: nat, c: SlotChange, x: Context)
    requires Decodable(hash, image.graph, DEFAULT_LIMITS) && k < |image.wrappers| && k < |image.graph.slots|
  {
    var slots := image.graph.slots;
    var active := OpenedBy(image, k);
    && !HasProvisional(image.graph)
    && Authorised(slots, active, c)
    && UnusedIds(slots, x.id, x.managementId)
    && (NeedsPassword(c.kind) ==> Unauthentic(image, c.newPassword))
    && (forall i | 0 <= i < |image.wrappers| :: image.wrappers[i].header != x.header)
    && (var plan := PlanFor(slots, active, c, x.id, x.managementId);
        var e := EventFor(plan, slots[k], c, x);
        EventAllowed(image.graph, e) && EventFits(image.graph, e))
  }

  lemma OwnIndex(hash: Hash, image: Image, k: nat)
    requires Decodable(hash, image.graph, DEFAULT_LIMITS) && k < |image.wrappers| && k < |image.graph.slots|
    ensures IndexOf(image.graph.slots, OpenedBy(image, k).slot, 0) == k
  {
    hide Decodable, GoodSlot;
    assert GoodSlots(image.graph.slots) by { DecodedSlots(hash, image.graph); }
    var j := IndexOf(image.graph.slots, image.graph.slots[k].id, 0);
    assert j <= k;
  }

  lemma DecodedSlots(hash: Hash, g: Graph)
    requires Decodable(hash, g, DEFAULT_LIMITS)
    ensures GoodSlots(g.slots) && g.records != []
  {
    hide GoodSlots;
  }

  /** The wrapper list and the graph's slots are of one length while an image opens at all. */
  ghost function Changed(hash: Hash, image: Image, k: nat, c: SlotChange, x: Context): Image
    requires Decodable(hash, image.graph, DEFAULT_LIMITS) && k < |image.wrappers| == |image.graph.slots|
    requires ChangeAllowed(hash, image, k, c, x)
  {
    OwnIndex(hash, image, k);
    DecodedSlots(hash, image.graph);
    var slots := image.graph.slots;
    var plan := PlanFor(slots, OpenedBy(image, k), c, x.id, x.managementId);
    PlanIndex(slots, OpenedBy(image, k), c, x.id, x.managementId);
    Rewrapped(image, Rewritten(image.wrappers, plan.mode, plan.index, MadeWrapper(image, plan, c, x)),
              EventGraph(hash, image.graph, EventFor(plan, slots[k], c, x)), x.nonce)
  }

  lemma PlanIndex(slots: seq<Slot>, active: Opened, c: SlotChange, id: SlotId, managementId: SlotId)
    requires GoodSlots(slots) && IndexOf(slots, active.slot, 0) < |slots| && Authorised(slots, active, c)
    ensures var plan := PlanFor(slots, active, c, id, managementId);
            && plan.index <= |slots| && (plan.mode == ReplaceAt || plan.mode == RemoveAt ==> plan.index < |slots|)
            && (plan.mode == RemoveAt || plan.index < |plan.slots|)
  {
    hide GoodSlot, Ordinary, Within, Allows;
  }

  // ---------- How lists change together ----------

  /** The slot list is rewritten like the wrappers: same mode, same index. */
  predicate RewrittenSlots(before: seq<Slot>, after: seq<Slot>, mode: Mode, index: nat)
    requires index <= |before| && (mode == ReplaceAt || mode == RemoveAt ==> index < |before|)
  {
    match mode
    case Keep => |after| == |before| && forall i | 0 <= i < |before| :: SameSlot(before[i], after[i])
    case InsertAt => |after| == |before| + 1 && after[..index] == before[..index] && after[index + 1..] == before[index..]
    case ReplaceAt => |after| == |before| && forall i | 0 <= i < |before| :: SameSlot(before[i], after[i])
    case RemoveAt => after == before[..index] + before[index + 1..]
  }

  /** Same slot, whatever its rights and names are now. */
  predicate SameSlot(a: Slot, b: Slot) {
    a.id == b.id && a.role == b.role
  }

  lemma PlanRewrites(slots: seq<Slot>, active: Opened, c: SlotChange, id: SlotId, managementId: SlotId)
    requires GoodSlots(slots) && IndexOf(slots, active.slot, 0) < |slots| && Authorised(slots, active, c)
    ensures var plan := PlanFor(slots, active, c, id, managementId);
            && plan.index <= |slots| && (plan.mode == ReplaceAt || plan.mode == RemoveAt ==> plan.index < |slots|)
            && RewrittenSlots(slots, plan.slots, plan.mode, plan.index)
  {
    hide GoodSlot, Ordinary, Within, Allows, GoodSlots, RewrittenSlots, GoodIdentity, GoodPassword, CoherentBits;
    var k := IndexOf(slots, active.slot, 0);
    var t := IndexOf(slots, c.target, 0);
    match c.kind
    case ChangePassword => SameRewrites(slots, ReplaceAt, k);
    case AddInvitation =>
      var r := RecoveryIndex(slots, 0);
      InsertRewrites(slots, Slot(id, managementId, c.permissions, 1, true, c.name, ""), r);
    case ClaimInvitation =>
      UpdateRewrites(slots, k, slots[k].(mustBeChanged := false, name := c.name, email := c.email), ReplaceAt, k);
    case ReconcileIdentity =>
      UpdateRewrites(slots, k, slots[k].(name := c.name, email := c.email), Keep, 0);
    case UpdatePermissions =>
      UpdateRewrites(slots, t, slots[t].(permissions := c.permissions), Keep, 0);
    case RemoveSlot => assert RewrittenSlots(slots, slots[..t] + slots[t + 1..], RemoveAt, t) by { RemoveRewrites(slots, t); }
  }

  lemma SameRewrites(slots: seq<Slot>, mode: Mode, index: nat)
    requires (mode == Keep && index <= |slots|) || (mode == ReplaceAt && index < |slots|)
    ensures RewrittenSlots(slots, slots, mode, index)
  {
  }

  lemma UpdateRewrites(slots: seq<Slot>, k: nat, s: Slot, mode: Mode, index: nat)
    requires k < |slots| && SameSlot(slots[k], s)
    requires (mode == Keep && index <= |slots|) || (mode == ReplaceAt && index < |slots|)
    ensures RewrittenSlots(slots, slots[k := s], mode, index)
  {
  }

  lemma InsertRewrites(slots: seq<Slot>, s: Slot, r: nat)
    requires r <= |slots|
    ensures RewrittenSlots(slots, slots[..r] + [s] + slots[r..], InsertAt, r)
  {
    var out := slots[..r] + [s] + slots[r..];
    assert out[..r] == slots[..r] && out[r + 1..] == slots[r..];
  }

  lemma RemoveRewrites(slots: seq<Slot>, t: nat)
    requires t < |slots|
    ensures RewrittenSlots(slots, slots[..t] + slots[t + 1..], RemoveAt, t)
  {
  }

  /** Permissions stay coherent under every authorised change. */
  lemma PlanCoherent(slots: seq<Slot>, active: Opened, c: SlotChange, id: SlotId, managementId: SlotId)
    requires IndexOf(slots, active.slot, 0) < |slots| && Authorised(slots, active, c)
    requires forall i | 0 <= i < |slots| :: CoherentBits(slots[i].permissions)
    ensures var out := PlanFor(slots, active, c, id, managementId).slots;
            forall i | 0 <= i < |out| :: CoherentBits(out[i].permissions)
  {
    hide Ordinary, Within, CoherentBits;
  }

  // ---------- Alignment is kept ----------

  /** In an aligned image a password that authenticates nothing belongs to no wrapper. */
  lemma UnauthenticIsUnused(image: Image, password: Password)
    requires Matched(image) && Unauthentic(image, password)
    ensures NoWrapper(image, password)
  {
    OneKey(image);
  }

  lemma OneKey(image: Image)
    requires Matched(image)
    ensures forall i | 0 <= i < |image.wrappers| :: image.wrappers[i].key == image.sealedUnder
  {
    forall i | 0 <= i < |image.wrappers| ensures image.wrappers[i].key == image.sealedUnder {
      assert Paired(image, i);
    }
  }

  lemma ChangeKeepsAligned(hash: Hash, image: Image, k: nat, c: SlotChange, x: Context)
    requires Injective(hash) && Aligned(hash, image) && k < |image.wrappers| && ChangeAllowed(hash, image, k, c, x)
    ensures Aligned(hash, Changed(hash, image, k, c, x))
  {
    hide Decodable, GoodSlot, Ordinary, Within, Allows, EventAllowed, EventFits, Paired, CoherentBits, RewrittenSlots;
    var slots := image.graph.slots;
    var active := OpenedBy(image, k);
    OwnIndex(hash, image, k);
    DecodedSlots(hash, image.graph);
    var plan := PlanFor(slots, active, c, x.id, x.managementId);
    PlanIndex(slots, active, c, x.id, x.managementId);
    PlanRewrites(slots, active, c, x.id, x.managementId);
    assert forall i | 0 <= i < |slots| :: CoherentBits(slots[i].permissions) by { MatchedCoherent(image); }
    PlanCoherent(slots, active, c, x.id, x.managementId);
    PlanIsGood(slots, active, c, x.id, x.managementId);
    var e := EventFor(plan, slots[k], c, x);
    EventCloses(hash, image.graph, e);
    if NeedsPassword(c.kind) { UnauthenticIsUnused(image, c.newPassword); }
    RewrittenMatched(image, Changed(hash, image, k, c, x), plan, c, x);
  }

  lemma MatchedCoherent(image: Image)
    requires Matched(image)
    ensures forall i | 0 <= i < |image.graph.slots| :: CoherentBits(image.graph.slots[i].permissions)
  {
    hide CoherentBits, DistinctPasswords, DistinctHeaders;
    forall i | 0 <= i < |image.graph.slots| ensures CoherentBits(image.graph.slots[i].permissions) {
      assert Paired(image, i);
    }
  }

  /** Rewriting wrappers and slots in step keeps them matched. */
  lemma RewrittenMatched(image: Image, out: Image, plan: Plan, c: SlotChange, x: Context)
    requires Matched(image) && plan.index <= |image.wrappers|
    requires plan.mode == ReplaceAt || plan.mode == RemoveAt ==> plan.index < |image.wrappers|
    requires plan.mode == RemoveAt || plan.index < |plan.slots|
    requires RewrittenSlots(image.graph.slots, plan.slots, plan.mode, plan.index) && GoodSlots(plan.slots)
    requires forall i | 0 <= i < |plan.slots| :: CoherentBits(plan.slots[i].permissions)
    requires out.wrappers == Rewritten(image.wrappers, plan.mode, plan.index, MadeWrapper(image, plan, c, x))
    requires out.graph.slots == plan.slots && out.sealedUnder == image.sealedUnder && out.sealedOver == out.wrappers
    requires plan.mode == InsertAt || plan.mode == ReplaceAt ==> NoWrapper(image, c.newPassword)
    requires forall i | 0 <= i < |image.wrappers| :: image.wrappers[i].header != x.header
    ensures Matched(out)
  {
    hide GoodSlot, CoherentBits, GoodPassword, Paired, DistinctHeaders, DistinctPasswords, RewrittenSlots, Rewritten;
    var made := MadeWrapper(image, plan, c, x);
    RewrittenWrappers(image.wrappers, plan.mode, plan.index, made);
    RewrittenLengths(image, out, plan.mode, plan.index, made);
    forall i | 0 <= i < |out.wrappers| ensures Paired(out, i) {
      if plan.mode != Keep && plan.mode != RemoveAt && i == plan.index {
        RewrittenAt(image.wrappers, plan.mode, plan.index, made, i);
        MadeIsPaired(image, out, plan, c, x);
      } else {
        KeptIsPaired(image, out, plan.mode, plan.index, made, i);
      }
    }
  }

  lemma RewrittenLengths(image: Image, out: Image, mode: Mode, index: nat, made: Wrapper)
    requires |image.wrappers| == |image.graph.slots| && index <= |image.wrappers|
    requires mode == ReplaceAt || mode == RemoveAt ==> index < |image.wrappers|
    requires RewrittenSlots(image.graph.slots, out.graph.slots, mode, index)
    requires out.wrappers == Rewritten(image.wrappers, mode, index, made)
    ensures |out.wrappers| == |out.graph.slots|
  {
  }

  /** A wrapper that was not made anew still lies along its own slot. */
  lemma KeptIsPaired(image: Image, out: Image, mode: Mode, index: nat, made: Wrapper, i: nat)
    requires Matched(image) && index <= |image.wrappers| && i < |out.wrappers| == |out.graph.slots|
    requires mode == ReplaceAt || mode == RemoveAt ==> index < |image.wrappers|
    requires RewrittenSlots(image.graph.slots, out.graph.slots, mode, index)
    requires out.wrappers == Rewritten(image.wrappers, mode, index, made) && out.sealedUnder == image.sealedUnder
    requires CoherentBits(out.graph.slots[i].permissions)
    requires mode == Keep || mode == RemoveAt || i != index
    ensures Paired(out, i)
  {
    hide CoherentBits, GoodPassword, DistinctHeaders, DistinctPasswords;
    var source := match mode
      case InsertAt => if i > index then i - 1 else i
      case RemoveAt => if i >= index then i + 1 else i
      case _ => i;
    assert Paired(image, source);
    if mode == InsertAt && i > index {
      assert out.graph.slots[index + 1..][i - index - 1] == image.graph.slots[index..][i - index - 1];
    } else if mode == InsertAt {
      assert out.graph.slots[..index][i] == image.graph.slots[..index][i];
    }
  }

  lemma MadeIsPaired(image: Image, out: Image, plan: Plan, c: SlotChange, x: Context)
    requires plan.mode == InsertAt || plan.mode == ReplaceAt
    requires plan.index < |plan.slots| && GoodSlots(plan.slots) && GoodPassword(c.newPassword)
    requires forall i | 0 <= i < |plan.slots| :: CoherentBits(plan.slots[i].permissions)
    requires out.graph.slots == plan.slots && out.sealedUnder == image.sealedUnder
    requires plan.index < |out.wrappers| && out.wrappers[plan.index] == MadeWrapper(image, plan, c, x)
    ensures Paired(out, plan.index)
  {
    hide GoodPassword, CoherentBits;
    assert GoodSlot(plan.slots, plan.index);
  }

  lemma RewrittenWrappers(ws: seq<Wrapper>, mode: Mode, index: nat, made: Wrapper)
    requires DistinctHeaders(ws) && DistinctPasswords(ws)
    requires index <= |ws| && (mode == ReplaceAt || mode == RemoveAt ==> index < |ws|)
    requires mode == InsertAt || mode == ReplaceAt ==>
               forall i | 0 <= i < |ws| :: ws[i].header != made.header && ws[i].password != made.password
    ensures DistinctHeaders(Rewritten(ws, mode, index, made)) && DistinctPasswords(Rewritten(ws, mode, index, made))
  {
    hide DistinctHeaders, DistinctPasswords;
    RewrittenHeaders(ws, mode, index, made);
    RewrittenPasswords(ws, mode, index, made);
  }

  lemma RewrittenHeaders(ws: seq<Wrapper>, mode: Mode, index: nat, made: Wrapper)
    requires DistinctHeaders(ws)
    requires index <= |ws| && (mode == ReplaceAt || mode == RemoveAt ==> index < |ws|)
    requires mode == InsertAt || mode == ReplaceAt ==> forall i | 0 <= i < |ws| :: ws[i].header != made.header
    ensures DistinctHeaders(Rewritten(ws, mode, index, made))
  {
  }

  lemma RewrittenPasswords(ws: seq<Wrapper>, mode: Mode, index: nat, made: Wrapper)
    requires DistinctPasswords(ws)
    requires index <= |ws| && (mode == ReplaceAt || mode == RemoveAt ==> index < |ws|)
    requires mode == InsertAt || mode == ReplaceAt ==> forall i | 0 <= i < |ws| :: ws[i].password != made.password
    ensures DistinctPasswords(Rewritten(ws, mode, index, made))
  {
  }

  // ---------- Who opens what afterwards ----------

  /** Positions are unique: a password opens the slot of the wrapper it belongs to. */
  lemma HolderIs(image: Image, password: Password, i: nat)
    requires Matched(image) && i < |image.wrappers| && image.wrappers[i].password == password
    ensures Holder(image, password) == Some(image.graph.slots[i].id)
  {
    var k := Selected(image.wrappers, password, 0);
    assert k == i;
  }

  lemma HolderNone(image: Image, password: Password)
    requires Matched(image) && forall i | 0 <= i < |image.wrappers| :: image.wrappers[i].password != password
    ensures Holder(image, password) == None
  {
  }

  /** The slot list changes so that slots keep their identifiers where wrappers keep their passwords. */
  ghost predicate Follows(image: Image, out: Image, mode: Mode, index: nat, newPassword: Password) {
    && Matched(image) && Matched(out) && index <= |image.wrappers|
    && (mode == ReplaceAt || mode == RemoveAt ==> index < |image.wrappers|)
    && (exists made: Wrapper :: made.password == newPassword && out.wrappers == Rewritten(image.wrappers, mode, index, made))
    && RewrittenSlots(image.graph.slots, out.graph.slots, mode, index)
  }

  /**
   * After a change: a fresh password opens exactly its slot, a replaced or removed one opens
   * nothing, and every other password opens what it opened before.
   */
  lemma PasswordsFollow(image: Image, out: Image, mode: Mode, index: nat, newPassword: Password, p: Password)
    requires Follows(image, out, mode, index, newPassword)
    requires mode == InsertAt || mode == ReplaceAt ==> Holder(image, newPassword) == None
    ensures Holder(out, p) ==
            if (mode == InsertAt || mode == ReplaceAt) && p == newPassword then Some(out.graph.slots[index].id)
            else if (mode == ReplaceAt || mode == RemoveAt) && p == image.wrappers[index].password then None
            else Holder(image, p)
  {
    hide Matched, Paired;
    var made: Wrapper :| made.password == newPassword && out.wrappers == Rewritten(image.wrappers, mode, index, made);
    var k := Selected(image.wrappers, p, 0);
    if (mode == InsertAt || mode == ReplaceAt) && p == newPassword {
      HolderIs(out, p, index);
    } else if k < |image.wrappers| && !((mode == ReplaceAt || mode == RemoveAt) && k == index) {
      var j := match mode
        case InsertAt => if k >= index then k + 1 else k
        case RemoveAt => if k > index then k - 1 else k
        case _ => k;
      HolderIs(image, p, k);
      MovedSlot(image, out, mode, index, made, k, j);
      HolderIs(out, p, j);
      if (mode == ReplaceAt || mode == RemoveAt) && p == image.wrappers[index].password {
        SamePosition(image, k, index);
      }
    } else {
      GoneEverywhere(image, out, mode, index, made, p);
      HolderNone(out, p);
    }
  }

  lemma SamePosition(image: Image, i: nat, j: nat)
    requires Matched(image) && i < |image.wrappers| && j < |image.wrappers|
    requires image.wrappers[i].password == image.wrappers[j].password
    ensures i == j
  {
  }

  lemma MovedSlot(image: Image, out: Image, mode: Mode, index: nat, made: Wrapper, k: nat, j: nat)
    requires Matched(image) && Matched(out) && index <= |image.wrappers| && k < |image.wrappers|
    requires mode == ReplaceAt || mode == RemoveAt ==> index < |image.wrappers| && k != index
    requires out.wrappers == Rewritten(image.wrappers, mode, index, made)
    requires RewrittenSlots(image.graph.slots, out.graph.slots, mode, index)
    requires j == match mode
             case InsertAt => if k >= index then k + 1 else k
             case RemoveAt => if k > index then k - 1 else k
             case _ => k
    ensures j < |out.wrappers| && out.wrappers[j] == image.wrappers[k]
    ensures out.graph.slots[j].id == image.graph.slots[k].id
  {
    hide Paired, DistinctPasswords, DistinctHeaders;
    if mode == InsertAt && k >= index {
      assert out.graph.slots[index + 1..][k - index] == image.graph.slots[index..][k - index];
    } else if mode == InsertAt {
      assert out.graph.slots[..index][k] == image.graph.slots[..index][k];
    }
  }

  lemma GoneEverywhere(image: Image, out: Image, mode: Mode, index: nat, made: Wrapper, p: Password)
    requires Matched(image) && index <= |image.wrappers|
    requires mode == ReplaceAt || mode == RemoveAt ==> index < |image.wrappers|
    requires out.wrappers == Rewritten(image.wrappers, mode, index, made)
    requires mode == InsertAt || mode == ReplaceAt ==> p != made.password
    requires var k := Selected(image.wrappers, p, 0);
             k == |image.wrappers| || ((mode == ReplaceAt || mode == RemoveAt) && k == index)
    ensures forall i | 0 <= i < |out.wrappers| :: out.wrappers[i].password != p
  {
    hide Paired, DistinctHeaders;
    var k := Selected(image.wrappers, p, 0);
    if k < |image.wrappers| {
      assert forall i | 0 <= i < |image.wrappers| && i != k :: image.wrappers[i].password != p;
    }
  }

  /** The same, said of a whole authorised change. */
  lemma ChangeMovesPasswords(hash: Hash, image: Image, k: nat, c: SlotChange, x: Context, p: Password)
    requires Injective(hash) && Aligned(hash, image) && k < |image.wrappers| && ChangeAllowed(hash, image, k, c, x)
    ensures Aligned(hash, Changed(hash, image, k, c, x))
    ensures var out := Changed(hash, image, k, c, x);
            Holder(out, p) == match c.kind
              case AddInvitation => if p == c.newPassword then Some(x.id) else Holder(image, p)
              case RemoveSlot => if Holder(image, p) == Some(c.target) then None else Holder(image, p)
              case ReconcileIdentity => Holder(image, p)
              case UpdatePermissions => Holder(image, p)
              case _ =>
                if p == c.newPassword then Some(image.graph.slots[k].id)
                else if p == image.wrappers[k].password then None else Holder(image, p)
  {
    hide Decodable, GoodSlot, Ordinary, Within, Allows, EventAllowed, EventFits, Paired, CoherentBits, RewrittenSlots,
         DistinctPasswords, DistinctHeaders, Rewritten;
    ChangeKeepsAligned(hash, image, k, c, x);
    OwnIndex(hash, image, k);
    DecodedSlots(hash, image.graph);
    var slots := image.graph.slots;
    var active := OpenedBy(image, k);
    var plan := PlanFor(slots, active, c, x.id, x.managementId);
    var out := Changed(hash, image, k, c, x);
    PlanIndex(slots, active, c, x.id, x.managementId);
    PlanRewrites(slots, active, c, x.id, x.managementId);
    var made := MadeWrapper(image, plan, c, x);
    MadePassword(image, plan, c, x);
    assert out.wrappers == Rewritten(image.wrappers, plan.mode, plan.index, made);
    assert Follows(image, out, plan.mode, plan.index, c.newPassword);
    if NeedsPassword(c.kind) { UnauthenticIsUnused(image, c.newPassword); assert Holder(image, c.newPassword) == None; }
    PasswordsFollow(image, out, plan.mode, plan.index, c.newPassword, p);
    PlanSlotAt(slots, active, c, x.id, x.managementId);
    if c.kind == RemoveSlot { RemovedHolder(hash, image, IndexOf(slots, c.target, 0), p); }
  }

  lemma MadePassword(image: Image, plan: Plan, c: SlotChange, x: Context)
    requires plan.mode == RemoveAt || plan.index < |plan.slots|
    ensures MadeWrapper(image, plan, c, x).password == c.newPassword
  {
  }

  /** Where the plan's index points, kind by kind. */
  lemma PlanSlotAt(slots: seq<Slot>, active: Opened, c: SlotChange, id: SlotId, managementId: SlotId)
    requires GoodSlots(slots) && IndexOf(slots, active.slot, 0) < |slots| && Authorised(slots, active, c)
    ensures var plan := PlanFor(slots, active, c, id, managementId);
            match c.kind
            case AddInvitation => plan.mode == InsertAt && plan.index < |plan.slots| && plan.slots[plan.index].id == id
            case RemoveSlot => plan.mode == RemoveAt && plan.index == IndexOf(slots, c.target, 0)
                               && plan.index < |slots| && slots[plan.index].id == c.target
            case ReconcileIdentity => plan.mode == Keep
            case UpdatePermissions => plan.mode == Keep
            case _ => plan.mode == ReplaceAt && plan.index == IndexOf(slots, active.slot, 0)
                      && |plan.slots| == |slots| && plan.slots[plan.index].id == slots[plan.index].id
  {
    hide GoodSlot, Ordinary, Within, Allows, GoodSlots;
  }

  /** The password of the removed slot is exactly the one that opened it. */
  lemma RemovedHolder(hash: Hash, image: Image, t: nat, p: Password)
    requires Aligned(hash, image) && t < |image.wrappers|
    ensures Holder(image, p) == Some(image.graph.slots[t].id) <==> p == image.wrappers[t].password
  {
    hide Decodable, Paired, GoodSlot;
    DecodedSlots(hash, image.graph);
    if p == image.wrappers[t].password { HolderIs(image, p, t); }
  }

  // ---------- Runs ----------

  /** A change with the password of a wrapper, or any other rewrite of the payload that keeps the slots. */
  datatype ImageStep =
    | Credential(k: nat, change: SlotChange, context: Context)
    | Payload(graph: Graph, nonce: nat)

  ghost predicate StepAllowed(hash: Hash, image: Image, step: ImageStep) {
    Aligned(hash, image)
    && match step
       case Credential(k, c, x) => k < |image.wrappers| && ChangeAllowed(hash, image, k, c, x)
       case Payload(g, _) => Decodable(hash, g, DEFAULT_LIMITS) && g.slots == image.graph.slots
  }

  ghost function Stepped(hash: Hash, image: Image, step: ImageStep): Image
    requires StepAllowed(hash, image, step)
  {
    match step
    case Credential(k, c, x) => Changed(hash, image, k, c, x)
    case Payload(g, nonce) => WithGraph(image, g, nonce)
  }

  lemma PayloadKeepsAligned(hash: Hash, image: Image, g: Graph, nonce: nat)
    requires Aligned(hash, image) && Decodable(hash, g, DEFAULT_LIMITS) && g.slots == image.graph.slots
    ensures Aligned(hash, WithGraph(image, g, nonce))
    ensures forall p :: Holder(WithGraph(image, g, nonce), p) == Holder(image, p)
  {
    hide Decodable, CoherentBits, GoodPassword;
    forall i | 0 <= i < |image.wrappers| ensures Paired(WithGraph(image, g, nonce), i) {
      assert Paired(image, i);
    }
  }

  ghost predicate ImageRun(hash: Hash, images: seq<Image>, steps: seq<ImageStep>) {
    |images| == |steps| + 1
    && forall i | 0 <= i < |steps| ::
         StepAllowed(hash, images[i], steps[i]) && images[i + 1] == Stepped(hash, images[i], steps[i])
  }

  /** Over every run wrapper i names slot i, the owner is first and the recovery slot last. */
  lemma {:induction false} RunsStayAligned(hash: Hash, images: seq<Image>, steps: seq<ImageStep>, n: nat)
    requires Injective(hash) && ImageRun(hash, images, steps) && Aligned(hash, images[0]) && n < |images|
    ensures Aligned(hash, images[n])
    ensures var slots := images[n].graph.slots;
            && |slots| > 0 && slots[0].role == 0
            && forall i | 0 <= i < |slots| :: (slots[i].role == 0 ==> i == 0) && (slots[i].role == 2 ==> i + 1 == |slots|)
  {
    hide Decodable, Matched, ChangeAllowed, GoodSlot;
    if n > 0 {
      RunsStayAligned(hash, images, steps, n - 1);
      match steps[n - 1]
      case Credential(k, c, x) => ChangeKeepsAligned(hash, images[n - 1], k, c, x);
      case Payload(g, nonce) => PayloadKeepsAligned(hash, images[n - 1], g, nonce);
    }
    DecodedSlots(hash, images[n].graph);
    RolesInPlace(images[n].graph.slots);
  }

  lemma RolesInPlace(slots: seq<Slot>)
    requires GoodSlots(slots)
    ensures slots[0].role == 0
    ensures forall i | 0 <= i < |slots| :: (slots[i].role == 0 ==> i == 0) && (slots[i].role == 2 ==> i + 1 == |slots|)
  {
    assert GoodSlot(slots, 0);
    forall i | 0 <= i < |slots|
      ensures (slots[i].role == 0 ==> i == 0) && (slots[i].role == 2 ==> i + 1 == |slots|)
    {
      assert GoodSlot(slots, i);
    }
  }
}
