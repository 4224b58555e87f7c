/** That a credential change does what it was asked to, slot by slot and password by password. */
module GrantedChanges {
  import opened Wrappers
  import opened TextValidation
  import opened RevisionRecords
  import opened RevisionGraph
  import opened AppendEvent
  import opened Envelope
  import opened PasswordSlots
  import opened CredentialChange
  import opened DocumentCreation
  import opened WrittenRecords

  // ---------- Who may ask for what ----------

  /** The permissions a number stands for: to edit, to add slots, to remove them. */
  function Granting(p: nat): set<string> {
    (if p % 2 == 1 then {"edit"} else {}) + (if p / 2 % 2 == 1 then {"add"} else {}) + (if p / 4 % 2 == 1 then {"remove"} else {})
  }

  /** Permissions that exist, and that do not add or remove without editing. */
  predicate Grantable(p: nat) {
    p <= 7 && (Granting(p) == {} || "edit" in Granting(p))
  }

  function Ordinaries(slots: seq<Slot>, n: nat): set<nat>
    requires n <= |slots|
  {
    set i | 0 <= i < n && slots[i].role == 1
  }

  predicate Spelled(name: string) {
    1 <= |name| <= 4096
  }

  /** What the acting slot may do, said of the slots by identifier. */
  predicate May(slots: seq<Slot>, active: Opened, c: SlotChange) {
    && (if c.kind in {ChangePassword, AddInvitation, ClaimInvitation} then 1 <= |c.newPassword| <= 4096 && c.strong
        else c.newPassword == [])
    && (active.mustBeChanged <==> c.kind == ClaimInvitation)
    && match c.kind
       case ChangePassword => true
       case AddInvitation =>
         "add" in Granting(active.permissions) && Grantable(c.permissions) && Granting(c.permissions) <= Granting(active.permissions)
         && Spelled(c.name) && |Ordinaries(slots, |slots|)| < 7
       case ClaimInvitation => (exists s | s in slots :: s.id == active.slot && s.role == 1) && Spelled(c.name) && Spelled(c.email)
       case ReconcileIdentity => (exists s | s in slots :: s.id == active.slot && s.role != 2) && Spelled(c.name) && Spelled(c.email)
       case UpdatePermissions =>
         {"add", "remove"} <= Granting(active.permissions) && Grantable(c.permissions)
         && exists s | s in slots :: s.id == c.target && s.role == 1 && !s.mustBeChanged
       case RemoveSlot => "remove" in Granting(active.permissions) && exists s | s in slots :: s.id == c.target && s.role == 1
  }

  /** A change is authorised exactly for those who may make it. */
  lemma AuthorisedExactly(slots: seq<Slot>, active: Opened, c: SlotChange)
    requires GoodSlots(slots) && IndexOf(slots, active.slot, 0) < |slots|
    ensures Authorised(slots, active, c) <==> May(slots, active, c)
  {
    hide Ordinary, Ordinaries, GoodSlots, Within, CoherentBits, Grantable, Granting, Allows, IndexOf;
    OrdinaryCounts(slots, |slots|);
    GrantingMeans(c.permissions, active.permissions);
    FoundSlot(slots, active.slot);
    FoundSlot(slots, c.target);
  }

  /** What holds of some slot with the identifier holds of the one that is found. */
  lemma FoundSlot(slots: seq<Slot>, id: SlotId)
    requires GoodSlots(slots)
    ensures var t := IndexOf(slots, id, 0);
            && ((exists s | s in slots :: s.id == id && s.role == 1) <==> t < |slots| && slots[t].role == 1)
            && ((exists s | s in slots :: s.id == id && s.role != 2) <==> t < |slots| && slots[t].role != 2)
            && ((exists s | s in slots :: s.id == id && s.role == 1 && !s.mustBeChanged)
                <==> t < |slots| && slots[t].role == 1 && !slots[t].mustBeChanged)
  {
    hide GoodSlot;
    var t := IndexOf(slots, id, 0);
    if t < |slots| {
      assert slots[t] in slots;
      OnlyOne(slots, t);
    }
  }

  lemma OnlyOne(slots: seq<Slot>, t: nat)
    requires GoodSlots(slots) && t < |slots|
    ensures forall s | s in slots && s.id == slots[t].id :: s == slots[t]
  {
    hide GoodSlot;
  }

  lemma {:induction false} OrdinaryCounts(slots: seq<Slot>, n: nat)
    requires n <= |slots|
    ensures Ordinary(slots, n) == |Ordinaries(slots, n)|
  {
    if n > 0 {
      OrdinaryCounts(slots, n - 1);
      assert Ordinaries(slots, n) == Ordinaries(slots, n - 1) + if slots[n - 1].role == 1 then {n - 1} else {};
    } else {
      assert Ordinaries(slots, 0) == {};
    }
  }

  lemma GrantingMeans(p: nat, q: nat)
    ensures ("add" in Granting(q) <==> Allows(q, ADD)) && ("remove" in Granting(q) <==> Allows(q, REMOVE))
    ensures {"add", "remove"} <= Granting(q) <==> Allows(q, ADD) && Allows(q, REMOVE)
    ensures Grantable(p) <==> CoherentBits(p)
    ensures Grantable(p) ==> (Granting(p) <= Granting(q) <==> Within(p, q))
  {
    assert "edit"[0] != "add"[0] && |"remove"| != |"edit"| && |"add"| != |"remove"| && |"add"| != |"edit"|;
    assert "edit" in Granting(p) <==> Allows(p, EDIT);
    assert "add" in Granting(p) <==> Allows(p, ADD);
    assert "remove" in Granting(p) <==> Allows(p, REMOVE);
    assert forall x | x in Granting(p) :: x == "edit" || x == "add" || x == "remove";
  }

  // ---------- The slots ----------

  /** Whose slot a change is about. */
  function Subject(active: Opened, c: SlotChange, id: SlotId): SlotId {
    match c.kind
    case AddInvitation => id
    case UpdatePermissions => c.target
    case RemoveSlot => c.target
    case _ => active.slot
  }

  /** The list holds the slot of the identifier in this form, and in no other. */
  predicate Stands(slots: seq<Slot>, s: Slot) {
    s in slots && forall x | x in slots && x.id == s.id :: x == s
  }

  /** What the subject's slot becomes, given what it was. */
  predicate AsAsked(before: seq<Slot>, after: seq<Slot>, active: Opened, c: SlotChange, id: SlotId, managementId: SlotId) {
    match c.kind
    case ChangePassword => after == before
    case AddInvitation => Stands(after, Slot(id, managementId, c.permissions, 1, true, c.name, ""))
    case ClaimInvitation =>
      forall s | s in before && s.id == active.slot :: Stands(after, s.(mustBeChanged := false, name := c.name, email := c.email))
    case ReconcileIdentity => forall s | s in before && s.id == active.slot :: Stands(after, s.(name := c.name, email := c.email))
    case UpdatePermissions => forall s | s in before && s.id == c.target :: Stands(after, s.(permissions := c.permissions))
    case RemoveSlot => forall s | s in after :: s.id != c.target
  }

  /** The subject's slot is as asked, and every other slot is what it was. */
  lemma PlanDoesAsAsked(slots: seq<Slot>, active: Opened, c: SlotChange, id: SlotId, managementId: SlotId)
    requires GoodSlots(slots) && IndexOf(slots, active.slot, 0) < |slots| && Authorised(slots, active, c)
    requires UnusedIds(slots, id, managementId)
    ensures var after := PlanFor(slots, active, c, id, managementId).slots;
            && AsAsked(slots, after, active, c, id, managementId)
            && forall s: Slot | s.id != Subject(active, c, id) :: s in slots <==> s in after
  {
    hide GoodSlot, Ordinary, Within, Allows, CoherentBits, GoodIdentity, GoodPassword, Stands;
    var k, t := IndexOf(slots, active.slot, 0), IndexOf(slots, c.target, 0);
    match c.kind
    case ChangePassword =>
    case AddInvitation =>
      InsertedSlot(slots, RecoveryIndex(slots, 0), Slot(id, managementId, c.permissions, 1, true, c.name, ""));
    case ClaimInvitation => ReplacedSlot(slots, k, slots[k].(mustBeChanged := false, name := c.name, email := c.email));
    case ReconcileIdentity => ReplacedSlot(slots, k, slots[k].(name := c.name, email := c.email));
    case UpdatePermissions => ReplacedSlot(slots, t, slots[t].(permissions := c.permissions));
    case RemoveSlot => RemovedSlot(slots, t);
  }

  lemma InsertedSlot(slots: seq<Slot>, r: nat, s: Slot)
    requires r <= |slots| && forall i | 0 <= i < |slots| :: slots[i].id != s.id
    ensures Stands(slots[..r] + [s] + slots[r..], s)
    ensures forall x: Slot | x.id != s.id :: x in slots <==> x in slots[..r] + [s] + slots[r..]
  {
    assert slots == slots[..r] + slots[r..];
  }

  lemma RemovedSlot(slots: seq<Slot>, t: nat)
    requires t < |slots| && forall i, j | 0 <= i < j < |slots| :: slots[i].id != slots[j].id
    ensures forall x | x in slots[..t] + slots[t + 1..] :: x.id != slots[t].id
    ensures forall x: Slot | x.id != slots[t].id :: x in slots <==> x in slots[..t] + slots[t + 1..]
  {
    assert slots == slots[..t] + [slots[t]] + slots[t + 1..];
  }

  lemma ReplacedSlot(slots: seq<Slot>, k: nat, s: Slot)
    requires k < |slots| && s.id == slots[k].id
    requires forall i, j | 0 <= i < j < |slots| :: slots[i].id != slots[j].id
    ensures Stands(slots[k := s], s)
    ensures forall x: Slot | x.id != s.id :: x in slots <==> x in slots[k := s]
    ensures forall x | x in slots && x.id == s.id :: x == slots[k]
  {
    assert slots[k := s][k] == s;
    forall x: Slot | x.id != s.id && x in slots ensures x in slots[k := s] {
      var i :| 0 <= i < |slots| && slots[i] == x;
      assert slots[k := s][i] == x;
    }
  }

  // ---------- The image ----------

  /** What a password opens says of its slot what the slot says of itself. */
  lemma OpensOwnSlot(hash: Hash, image: Image, p: Password)
    requires Aligned(hash, image)
    ensures Unlocking(hash, image, p).Some? <==> Holder(image, p).Some?
    ensures Holder(image, p).Some? ==>
              var o, k := Unlocking(hash, image, p).value, Selected(image.wrappers, p, 0);
              && k < |image.wrappers| == |image.graph.slots| && image.wrappers[k].password == p
              && Holder(image, p) == Some(o.slot) && o.slot == image.graph.slots[k].id
              && o == OpenedBy(image, k)
  {
    hide Decodable, Paired;
    if Holder(image, p).Some? {
      HolderAt(hash, image, p);
      AlignedUnlocks(hash, image, Selected(image.wrappers, p, 0));
    }
  }

  /** A password nobody was given now belongs to the wrapper it belonged to. */
  lemma SameWrapper(ws: seq<Wrapper>, mode: Mode, index: nat, made: Wrapper, i: nat, j: nat)
    requires index <= |ws| && (mode == ReplaceAt || mode == RemoveAt ==> index < |ws|) && DistinctPasswords(ws)
    requires i < |ws| && j < |Rewritten(ws, mode, index, made)| && Rewritten(ws, mode, index, made)[j].password == ws[i].password
    requires mode == InsertAt || mode == ReplaceAt ==> made.password != ws[i].password
    ensures Rewritten(ws, mode, index, made)[j] == ws[i]
  {
    hide Rewritten;
    RewrittenAt(ws, mode, index, made, j);
  }

  /** The new password belongs to the new wrapper. */
  lemma NewWrapper(ws: seq<Wrapper>, mode: Mode, index: nat, made: Wrapper, j: nat)
    requires index <= |ws| && (mode == ReplaceAt || mode == RemoveAt ==> index < |ws|)
    requires mode == InsertAt || mode == ReplaceAt
    requires j < |Rewritten(ws, mode, index, made)| && Rewritten(ws, mode, index, made)[j].password == made.password
    requires forall i | 0 <= i < |ws| :: ws[i].password != made.password
    ensures Rewritten(ws, mode, index, made)[j] == made
  {
    hide Rewritten;
    RewrittenAt(ws, mode, index, made, j);
  }

  /** The pieces a change is made of. */
  lemma ChangeParts(hash: Hash, image: Image, k: nat, c: SlotChange, x: Context) returns (plan: Plan, made: Wrapper)
    requires Injective(hash) && Aligned(hash, image) && k < |image.wrappers| && ChangeAllowed(hash, image, k, c, x)
    ensures var out := Changed(hash, image, k, c, x);
            && IndexOf(image.graph.slots, image.graph.slots[k].id, 0) == k && OpenedBy(image, k).slot == image.graph.slots[k].id
            && Aligned(hash, out) && GoodSlots(image.graph.slots)
            && IndexOf(image.graph.slots, OpenedBy(image, k).slot, 0) < |image.graph.slots|
            && Authorised(image.graph.slots, OpenedBy(image, k), c)
            && plan == PlanFor(image.graph.slots, OpenedBy(image, k), c, x.id, x.managementId)
            && plan.index <= |image.wrappers| && (plan.mode == ReplaceAt || plan.mode == RemoveAt ==> plan.index < |image.wrappers|)
            && out.wrappers == Rewritten(image.wrappers, plan.mode, plan.index, made) && out.graph.slots == plan.slots
            && (plan.mode == InsertAt <==> c.kind == AddInvitation)
            && (plan.mode == ReplaceAt <==> c.kind == ChangePassword || c.kind == ClaimInvitation)
            && out.documentId == image.documentId && out.contentType == image.contentType
    ensures NeedsPassword(c.kind) ==> made.password == c.newPassword && plan.index < |plan.slots|
                                      && made.mustBeChanged == plan.slots[plan.index].mustBeChanged
                                      && forall i | 0 <= i < |image.wrappers| :: image.wrappers[i].password != c.newPassword
    ensures c.kind == ChangePassword || c.kind == ClaimInvitation ==> plan.index == k
  {
    hide Decodable, GoodSlot, Ordinary, Within, Allows, EventAllowed, EventFits, Paired, CoherentBits, Rewritten, GoodSlots,
         EventRecord;
    ChangeKeepsAligned(hash, image, k, c, x);
    OwnIndex(hash, image, k);
    DecodedSlots(hash, image.graph);
    plan := PlanFor(image.graph.slots, OpenedBy(image, k), c, x.id, x.managementId);
    PlanIndex(image.graph.slots, OpenedBy(image, k), c, x.id, x.managementId);
    made := MadeWrapper(image, plan, c, x);
    if NeedsPassword(c.kind) { UnauthenticIsUnused(image, c.newPassword); }
  }

  /** The slot an aligned image opens to is the one standing in its list. */
  lemma OpensStanding(hash: Hash, image: Image, p: Password, s: Slot)
    requires Aligned(hash, image) && Holder(image, p) == Some(s.id) && Stands(image.graph.slots, s)
    ensures Unlocking(hash, image, p).Some?
    ensures var o, k := Unlocking(hash, image, p).value, Selected(image.wrappers, p, 0);
            && k < |image.wrappers| && o.slot == s.id && o.permissions == s.permissions
            && o.mustBeChanged == (image.wrappers[k].mustBeChanged || s.mustBeChanged)
            && o.owner == (s.role == 0) && o.recovery == (s.role == 2)
            && o.documentId == image.documentId && o.contentType == image.contentType && o.graph == image.graph
  {
    hide Decodable, Paired;
    OpensOwnSlot(hash, image, p);
    var k := Selected(image.wrappers, p, 0);
    assert image.graph.slots[k] in image.graph.slots;
  }

  lemma SlotStands(slots: seq<Slot>, k: nat)
    requires GoodSlots(slots) && k < |slots|
    ensures Stands(slots, slots[k])
  {
    hide GoodSlot;
  }

  /** An invitation opens to exactly what was granted, and must be changed. */
  lemma InvitationOpens(hash: Hash, image: Image, k: nat, c: SlotChange, x: Context)
    requires Injective(hash) && Aligned(hash, image) && k < |image.wrappers| && ChangeAllowed(hash, image, k, c, x)
    requires c.kind == AddInvitation
    ensures var o := Unlocking(hash, Changed(hash, image, k, c, x), c.newPassword);
            o.Some? && o.value.slot == x.id && o.value.permissions == c.permissions && o.value.mustBeChanged
            && !o.value.owner && !o.value.recovery
  {
    hide Decodable, ChangeAllowed, Changed, Paired, Rewritten, PlanFor, Authorised, GoodSlots, DistinctHeaders, DistinctPasswords;
    var plan, made := ChangeParts(hash, image, k, c, x);
    AllowedIds(hash, image, k, c, x);
    PlanDoesAsAsked(image.graph.slots, OpenedBy(image, k), c, x.id, x.managementId);
    ChangeMovesPasswords(hash, image, k, c, x, c.newPassword);
    OpensStanding(hash, Changed(hash, image, k, c, x), c.newPassword,
                  Slot(x.id, x.managementId, c.permissions, 1, true, c.name, ""));
  }

  lemma AllowedIds(hash: Hash, image: Image, k: nat, c: SlotChange, x: Context)
    requires Decodable(hash, image.graph, DEFAULT_LIMITS) && k < |image.wrappers| && k < |image.graph.slots|
    requires ChangeAllowed(hash, image, k, c, x)
    ensures UnusedIds(image.graph.slots, x.id, x.managementId)
  {
    hide Decodable, UnusedIds, Authorised;
  }

  /** A claimed slot opens with the new password, as the same slot with the same rights, and need not be changed any more. */
  lemma ClaimOpens(hash: Hash, image: Image, k: nat, c: SlotChange, x: Context)
    requires Injective(hash) && Aligned(hash, image) && k < |image.wrappers| && ChangeAllowed(hash, image, k, c, x)
    requires c.kind == ClaimInvitation
    ensures var o := Unlocking(hash, Changed(hash, image, k, c, x), c.newPassword);
            o.Some? && o.value.slot == image.graph.slots[k].id && o.value.permissions == image.graph.slots[k].permissions
            && !o.value.mustBeChanged
    ensures Unlocking(hash, Changed(hash, image, k, c, x), image.wrappers[k].password).None?
  {
    hide Decodable, ChangeAllowed, Changed, Paired, Rewritten, PlanFor, Authorised, GoodSlots, DistinctHeaders, DistinctPasswords;
    var out := Changed(hash, image, k, c, x);
    var plan, made := ChangeParts(hash, image, k, c, x);
    AllowedIds(hash, image, k, c, x);
    PlanDoesAsAsked(image.graph.slots, OpenedBy(image, k), c, x.id, x.managementId);
    ChangeMovesPasswords(hash, image, k, c, x, c.newPassword);
    ChangeMovesPasswords(hash, image, k, c, x, image.wrappers[k].password);
    var s := image.graph.slots[k].(mustBeChanged := false, name := c.name, email := c.email);
    assert image.graph.slots[k] in image.graph.slots;
    assert Stands(out.graph.slots, s);
    OpensStanding(hash, out, c.newPassword, s);
    NewWrapper(image.wrappers, plan.mode, plan.index, made, Selected(out.wrappers, c.newPassword, 0));
    PlanSlotAt(image.graph.slots, OpenedBy(image, k), c, x.id, x.managementId);
    assert plan.slots[plan.index] in out.graph.slots;
    OpensOwnSlot(hash, out, image.wrappers[k].password);
  }

  /** After a change of password the new one opens what the old one did, and the old one nothing. */
  lemma PasswordChangeOpens(hash: Hash, image: Image, k: nat, c: SlotChange, x: Context)
    requires Injective(hash) && Aligned(hash, image) && k < |image.wrappers| && ChangeAllowed(hash, image, k, c, x)
    requires c.kind == ChangePassword
    ensures var o := Unlocking(hash, Changed(hash, image, k, c, x), c.newPassword);
            o.Some? && o.value.slot == image.graph.slots[k].id && o.value.permissions == image.graph.slots[k].permissions
            && o.value.mustBeChanged == image.graph.slots[k].mustBeChanged
    ensures Unlocking(hash, Changed(hash, image, k, c, x), image.wrappers[k].password).None?
  {
    hide Decodable, ChangeAllowed, Changed, Paired, Rewritten, PlanFor, Authorised, GoodSlots, DistinctHeaders, DistinctPasswords;
    var out := Changed(hash, image, k, c, x);
    var plan, made := ChangeParts(hash, image, k, c, x);
    AllowedIds(hash, image, k, c, x);
    PlanDoesAsAsked(image.graph.slots, OpenedBy(image, k), c, x.id, x.managementId);
    ChangeMovesPasswords(hash, image, k, c, x, c.newPassword);
    ChangeMovesPasswords(hash, image, k, c, x, image.wrappers[k].password);
    SlotStands(image.graph.slots, k);
    OpensStanding(hash, out, c.newPassword, image.graph.slots[k]);
    NewWrapper(image.wrappers, plan.mode, plan.index, made, Selected(out.wrappers, c.newPassword, 0));
    OpensOwnSlot(hash, out, image.wrappers[k].password);
  }

  /**
   * Whoever was given no password and lost none opens the same slot as before, with the same rights and mark,
   * except that the target of an update opens with exactly the requested rights.
   */
  lemma OthersOpenAsBefore(hash: Hash, image: Image, k: nat, c: SlotChange, x: Context, p: Password)
    requires Injective(hash) && Aligned(hash, image) && k < |image.wrappers| && ChangeAllowed(hash, image, k, c, x)
    requires Unlocking(hash, image, p).Some?
    requires !(c.kind == RemoveSlot && Unlocking(hash, image, p).value.slot == c.target)
    requires !((c.kind == ChangePassword || c.kind == ClaimInvitation) && p == image.wrappers[k].password)
    ensures var before, after := Unlocking(hash, image, p).value, Unlocking(hash, Changed(hash, image, k, c, x), p);
            && after.Some? && after.value.slot == before.slot
            && after.value.permissions == (if c.kind == UpdatePermissions && before.slot == c.target then c.permissions
                                           else before.permissions)
            && after.value.mustBeChanged == before.mustBeChanged
            && after.value.owner == before.owner && after.value.recovery == before.recovery
            && after.value.documentId == before.documentId && after.value.contentType == before.contentType
  {
    hide Decodable, ChangeAllowed, Changed, Paired, Rewritten, PlanFor, Authorised, GoodSlots, DistinctHeaders;
    var out := Changed(hash, image, k, c, x);
    var plan, made := ChangeParts(hash, image, k, c, x);
    AllowedIds(hash, image, k, c, x);
    PlanDoesAsAsked(image.graph.slots, OpenedBy(image, k), c, x.id, x.managementId);
    OpensOwnSlot(hash, image, p);
    RemovedHolder(hash, image, k, p);
    var i := Selected(image.wrappers, p, 0);
    ChangeMovesPasswords(hash, image, k, c, x, p);
    OpensOwnSlot(hash, out, p);
    SameWrapper(image.wrappers, plan.mode, plan.index, made, i, Selected(out.wrappers, p, 0));
    var prior := image.graph.slots[i];
    SlotStands(image.graph.slots, i);
    var s := AfterChange(image, k, c, x, prior);
    if c.kind in {ClaimInvitation, ReconcileIdentity, UpdatePermissions} && prior.id == Subject(OpenedBy(image, k), c, x.id) {
      assert Stands(out.graph.slots, s);
    } else {
      UntouchedStands(hash, image, k, c, x, prior);
    }
    OpensStanding(hash, out, p, s);
  }

  /** What an old slot is afterwards. */
  function AfterChange(image: Image, k: nat, c: SlotChange, x: Context, prior: Slot): Slot
    requires k < |image.wrappers| && k < |image.graph.slots|
  {
    if c.kind == ClaimInvitation && prior.id == image.graph.slots[k].id
    then prior.(mustBeChanged := false, name := c.name, email := c.email)
    else if c.kind == ReconcileIdentity && prior.id == image.graph.slots[k].id then prior.(name := c.name, email := c.email)
    else if c.kind == UpdatePermissions && prior.id == c.target then prior.(permissions := c.permissions)
    else prior
  }

  /** A slot the change is not about stands as it stood. */
  lemma UntouchedStands(hash: Hash, image: Image, k: nat, c: SlotChange, x: Context, prior: Slot)
    requires Injective(hash) && Aligned(hash, image) && k < |image.wrappers| && ChangeAllowed(hash, image, k, c, x)
    requires Stands(image.graph.slots, prior)
    requires prior.id != Subject(OpenedBy(image, k), c, x.id) || c.kind == ChangePassword
    ensures Stands(Changed(hash, image, k, c, x).graph.slots, prior)
  {
    hide Decodable, ChangeAllowed, Changed, Paired, Rewritten, PlanFor, Authorised, GoodSlots, DistinctHeaders;
    var plan, made := ChangeParts(hash, image, k, c, x);
    AllowedIds(hash, image, k, c, x);
    PlanDoesAsAsked(image.graph.slots, OpenedBy(image, k), c, x.id, x.managementId);
    var after := plan.slots;
    assert prior in after;
    forall y | y in after && y.id == prior.id ensures y == prior {
      assert y in image.graph.slots;
    }
  }

  // ---------- The record ----------

  /** The name a change goes by in the history. */
  function Named(kind: ChangeKind): string {
    match kind
    case ChangePassword => "password-changed"
    case AddInvitation => "invitation-created"
    case ClaimInvitation => "invitation-claimed"
    case ReconcileIdentity => "identity-reconciled"
    case UpdatePermissions => "permissions-updated"
    case RemoveSlot => "slot-removed"
  }

  /** A change leaves one record: what was done, to whom, with which rights, signed by who did it as they are now called. */
  lemma ChangeIsRecorded(hash: Hash, image: Image, k: nat, c: SlotChange, x: Context)
    requires Injective(hash) && Aligned(hash, image) && k < |image.wrappers| && ChangeAllowed(hash, image, k, c, x)
    ensures var g, out := image.graph, Changed(hash, image, k, c, x).graph;
            && |out.records| == |g.records| + 1 && out.records[..|g.records|] == g.records
            && var r := out.records[|g.records|];
               && r.imm.kind == Event && r.imm.event.Some? && r.imm.event.value.name == Named(c.kind)
               && r.imm.event.value.affectedSlot == Some(Subject(OpenedBy(image, k), c, x.id))
               && r.imm.event.value.detail == (if c.kind == AddInvitation || c.kind == UpdatePermissions
                                               then "permissions=" + ['0' + c.permissions as char] else "")
               && (var s := g.slots[k];
                   Signed(r, if c.kind == ClaimInvitation || c.kind == ReconcileIdentity then s.(name := c.name, email := c.email) else s,
                          x.clientName, x.clientEmail, x.device, x.timestamp))
  {
    hide Decodable, Paired, Rewritten, GoodSlots, DistinctHeaders, DistinctPasswords, EventGraph, Signed, Ordinary, Within, Allows,
         GoodIdentity, EventAllowed, EventFits;
    var plan, made := ChangeParts(hash, image, k, c, x);
    DecodedSlots(hash, image.graph);
    EventWrites(hash, image.graph, EventFor(plan, image.graph.slots[k], c, x));
  }

  // ---------- Runs ----------

  /** A step that leaves the password of an unclaimed slot alone is not about that slot. */
  lemma UnclaimedIsNoSubject(hash: Hash, image: Image, k: nat, c: SlotChange, x: Context, p: Password, s: Slot)
    requires Injective(hash) && Aligned(hash, image) && k < |image.wrappers| && ChangeAllowed(hash, image, k, c, x)
    requires s.mustBeChanged && Stands(image.graph.slots, s) && Holder(image, p) == Some(s.id)
    requires !Touches(image, Credential(k, c, x), p)
    ensures s.id != Subject(OpenedBy(image, k), c, x.id)
  {
    hide Decodable, ChangeAllowed, Changed, Paired, Rewritten, PlanFor, GoodSlots, DistinctHeaders, DistinctPasswords,
         GoodIdentity, CoherentBits, Within, Allows, Ordinary;
    var plan, made := ChangeParts(hash, image, k, c, x);
    AllowedIds(hash, image, k, c, x);
    RemovedHolder(hash, image, k, p);
    assert image.graph.slots[k] in image.graph.slots;
    var t := IndexOf(image.graph.slots, c.target, 0);
    if t < |image.graph.slots| { assert image.graph.slots[t] in image.graph.slots; }
  }

  lemma StepLeavesUnclaimed(hash: Hash, image: Image, step: ImageStep, p: Password, s: Slot)
    requires Injective(hash) && StepAllowed(hash, image, step) && !Touches(image, step, p)
    requires s.mustBeChanged && Stands(image.graph.slots, s) && Holder(image, p) == Some(s.id)
    ensures Stands(Stepped(hash, image, step).graph.slots, s)
  {
    hide Decodable, ChangeAllowed, Changed, Paired, DistinctHeaders, DistinctPasswords, Subject, Touches, Stands;
    match step
    case Payload(g, nonce) =>
    case Credential(k, c, x) =>
      UnclaimedIsNoSubject(hash, image, k, c, x, p, s);
      UntouchedStands(hash, image, k, c, x, s);
  }

  /** An invited slot opens to the granted rights and must be changed, through any run, until its password is touched. */
  lemma {:induction false} InvitedUntilClaimed(hash: Hash, images: seq<Image>, steps: seq<ImageStep>, m: nat, n: nat, p: Password, s: Slot)
    requires Injective(hash) && ImageRun(hash, images, steps) && Aligned(hash, images[0]) && m <= n < |images|
    requires Untouched(hash, images, steps, m, n, p)
    requires s.mustBeChanged && Stands(images[m].graph.slots, s) && |images[m].wrappers| == |images[m].graph.slots|
    requires Holder(images[m], p) == Some(s.id)
    ensures Aligned(hash, images[n]) && Stands(images[n].graph.slots, s) && Holder(images[n], p) == Some(s.id)
    ensures var o := Unlocking(hash, images[n], p);
            o.Some? && o.value.slot == s.id && o.value.permissions == s.permissions && o.value.mustBeChanged
    decreases n - m
  {
    hide Decodable, StepAllowed, Stepped, Touches, Stands, Paired, DistinctHeaders, DistinctPasswords;
    UntouchedPasswordsStay(hash, images, steps, m, n, p);
    if m < n {
      InvitedUntilClaimed(hash, images, steps, m, n - 1, p, s);
      StepLeavesUnclaimed(hash, images[n - 1], steps[n - 1], p, s);
    }
    OpensStanding(hash, images[n], p, s);
  }
}
