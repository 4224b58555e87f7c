/** Validating and applying one credential change (src/container/password_slots.cpp). */
module PasswordSlots {
  import opened Wrappers
  import opened TextValidation
  import opened RevisionRecords
  import opened RevisionGraph
  import opened Envelope

  datatype ChangeKind =
    | ChangePassword | AddInvitation | ClaimInvitation | ReconcileIdentity | UpdatePermissions | RemoveSlot

  /** The inputs of one change; the strength verdict on a new password comes from outside. */
  datatype SlotChange = SlotChange(
    kind: ChangeKind, target: SlotId, newPassword: Password, strong: bool,
    permissions: nat, name: string, email: string)

  datatype Plan = Plan(
    slots: seq<Slot>, affected: SlotId, mode: Mode, index: nat, removesActive: bool, event: string)

  const MAX_IDENTITY := 4096

  // ---------- Permission bits ----------

  /** Every permission in p is in q. */
  predicate Within(p: nat, q: nat) {
    p <= 7
    && (Allows(p, EDIT) ==> Allows(q, EDIT)) && (Allows(p, ADD) ==> Allows(q, ADD))
    && (Allows(p, REMOVE) ==> Allows(q, REMOVE))
  }

  predicate CoherentBits(p: nat) {
    p <= 7 && (Allows(p, ADD) || Allows(p, REMOVE) ==> Allows(p, EDIT))
  }

  // ---------- Finding slots ----------

  /** The first slot with the identifier, or the number of slots. */
  function IndexOf(slots: seq<Slot>, id: SlotId, i: nat): (k: nat)
    requires i <= |slots|
    ensures i <= k <= |slots|
    ensures k < |slots| ==> slots[k].id == id
    ensures forall j | i <= j < k :: slots[j].id != id
    decreases |slots| - i
  {
    if i == |slots| || slots[i].id == id then i else IndexOf(slots, id, i + 1)
  }

  /** The position of the recovery slot, or the number of slots. */
  function RecoveryIndex(slots: seq<Slot>, i: nat): (k: nat)
    requires i <= |slots|
    ensures i <= k <= |slots|
    ensures k < |slots| ==> slots[k].role == 2
    ensures forall j | i <= j < k :: slots[j].role != 2
    decreases |slots| - i
  {
    if i == |slots| || slots[i].role == 2 then i else RecoveryIndex(slots, i + 1)
  }

  function Ordinary(slots: seq<Slot>, n: nat): nat
    requires n <= |slots|
  {
    if n == 0 then 0 else Ordinary(slots, n - 1) + (if slots[n - 1].role == 1 then 1 else 0)
  }

  /** Identifiers drawn for a new slot until they are unused. */
  predicate UnusedIds(slots: seq<Slot>, id: SlotId, managementId: SlotId) {
    forall i | 0 <= i < |slots| :: slots[i].id != id && slots[i].managementId != managementId
  }

  // ---------- Authority ----------

  predicate GoodIdentity(name: string, email: string) {
    1 <= |name| <= MAX_IDENTITY && 1 <= |email| <= MAX_IDENTITY
  }

  predicate NeedsPassword(kind: ChangeKind) {
    kind == ChangePassword || kind == AddInvitation || kind == ClaimInvitation
  }

  /** Who may make the change, and with which inputs. */
  predicate Authorised(slots: seq<Slot>, active: Opened, c: SlotChange)
    requires IndexOf(slots, active.slot, 0) < |slots|
  {
    var a := slots[IndexOf(slots, active.slot, 0)];
    var t := IndexOf(slots, c.target, 0);
    && (if NeedsPassword(c.kind) then GoodPassword(c.newPassword) && c.strong else c.newPassword == [])
    && match c.kind
       case ChangePassword => !active.mustBeChanged
       case AddInvitation =>
         !active.mustBeChanged && Allows(active.permissions, ADD) && Within(c.permissions, active.permissions)
         && CoherentBits(c.permissions) && 1 <= |c.name| <= MAX_IDENTITY && Ordinary(slots, |slots|) < 7
       case ClaimInvitation => a.role == 1 && active.mustBeChanged && GoodIdentity(c.name, c.email)
       case ReconcileIdentity => !active.mustBeChanged && a.role != 2 && GoodIdentity(c.name, c.email)
       case UpdatePermissions =>
         !active.mustBeChanged && Allows(active.permissions, ADD) && Allows(active.permissions, REMOVE)
         && t < |slots| && slots[t].role == 1 && !slots[t].mustBeChanged && CoherentBits(c.permissions)
       case RemoveSlot =>
         !active.mustBeChanged && Allows(active.permissions, REMOVE) && t < |slots| && slots[t].role == 1
  }

  /** The slot list, the wrapper rewrite and the event that an authorised change leads to. */
  function PlanFor(slots: seq<Slot>, active: Opened, c: SlotChange, id: SlotId, managementId: SlotId): Plan
    requires IndexOf(slots, active.slot, 0) < |slots| && Authorised(slots, active, c)
  {
    var k := IndexOf(slots, active.slot, 0);
    var t := IndexOf(slots, c.target, 0);
    match c.kind
    case ChangePassword => Plan(slots, slots[k].id, ReplaceAt, k, false, "password-changed")
    case AddInvitation =>
      var r := RecoveryIndex(slots, 0);
      var invited := Slot(id, managementId, c.permissions, 1, true, c.name, "");
      Plan(slots[..r] + [invited] + slots[r..], id, InsertAt, r, false, "invitation-created")
    case ClaimInvitation =>
      Plan(slots[k := slots[k].(mustBeChanged := false, name := c.name, email := c.email)], slots[k].id,
           ReplaceAt, k, false, "invitation-claimed")
    case ReconcileIdentity =>
      Plan(slots[k := slots[k].(name := c.name, email := c.email)], slots[k].id, Keep, 0, false, "identity-reconciled")
    case UpdatePermissions =>
      Plan(slots[t := slots[t].(permissions := c.permissions)], slots[t].id, Keep, 0, false, "permissions-updated")
    case RemoveSlot =>
      Plan(slots[..t] + slots[t + 1..], slots[t].id, RemoveAt, t, slots[t].id == slots[k].id, "slot-removed")
  }

  // ---------- The lists a change leads to ----------

  lemma {:induction false} OrdinaryBound(slots: seq<Slot>, n: nat)
    requires GoodSlots(slots) && n <= |slots|
    ensures Ordinary(slots, n) == n - (if n > 0 then 1 else 0) - (if n == |slots| && slots[n - 1].role == 2 then 1 else 0)
  {
    if n > 0 {
      OrdinaryBound(slots, n - 1);
      assert GoodSlot(slots, n - 1);
    }
  }

  lemma RecoveryIsLast(slots: seq<Slot>)
    requires GoodSlots(slots)
    ensures var r := RecoveryIndex(slots, 0); 1 <= r && (r < |slots| ==> r + 1 == |slots|)
  {
    assert GoodSlot(slots, 0);
    var r := RecoveryIndex(slots, 0);
    if r < |slots| { assert GoodSlot(slots, r); }
  }

  /** Inserting an invitation before the recovery slot keeps the list well formed. */
  lemma InsertedGood(slots: seq<Slot>, invited: Slot)
    requires GoodSlots(slots) && UnusedIds(slots, invited.id, invited.managementId)
    requires Ordinary(slots, |slots|) < 7
    requires invited.role == 1 && invited.mustBeChanged && invited.permissions <= 7 && invited.name != ""
    ensures var r := RecoveryIndex(slots, 0); GoodSlots(slots[..r] + [invited] + slots[r..])
  {
    OrdinaryBound(slots, |slots|);
    RecoveryIsLast(slots);
    var r := RecoveryIndex(slots, 0);
    var out := slots[..r] + [invited] + slots[r..];
    forall i | 0 <= i < |out| ensures GoodSlot(out, i) {
      if i < r { assert GoodSlot(slots, i); } else if i > r { assert GoodSlot(slots, i - 1); }
    }
    InsertedDistinct(slots, invited, r);
  }

  lemma InsertedDistinct(slots: seq<Slot>, invited: Slot, r: nat)
    requires r <= |slots| && UnusedIds(slots, invited.id, invited.managementId)
    requires forall i, j | 0 <= i < j < |slots| ::
               slots[i].id != slots[j].id && slots[i].managementId != slots[j].managementId
    ensures var out := slots[..r] + [invited] + slots[r..];
            forall i, j | 0 <= i < j < |out| :: out[i].id != out[j].id && out[i].managementId != out[j].managementId
  {
  }

  lemma RemovedGood(slots: seq<Slot>, t: nat)
    requires GoodSlots(slots) && t < |slots| && slots[t].role == 1
    ensures GoodSlots(slots[..t] + slots[t + 1..])
  {
    var out := slots[..t] + slots[t + 1..];
    assert GoodSlot(slots, 0) && GoodSlot(slots, t);
    forall i | 0 <= i < |out| ensures GoodSlot(out, i) {
      assert GoodSlot(slots, if i < t then i else i + 1);
    }
  }

  lemma UpdatedGood(slots: seq<Slot>, k: nat, s: Slot)
    requires GoodSlots(slots) && k < |slots| && s.id == slots[k].id && s.managementId == slots[k].managementId
    requires s.role == slots[k].role && s.permissions <= 7
    requires s.role != 1 ==> s.permissions == 7 && !s.mustBeChanged
    requires s.role != 2 ==> s.name != "" && (s.mustBeChanged || s.email != "")
    ensures GoodSlots(slots[k := s])
  {
    var out := slots[k := s];
    assert GoodSlot(slots, k);
    forall i | 0 <= i < |out| ensures GoodSlot(out, i) {
      assert GoodSlot(slots, i);
    }
  }

  /** Every authorised change leads to a list that parses: owner first, recovery last, nothing doubled. */
  lemma PlanIsGood(slots: seq<Slot>, active: Opened, c: SlotChange, id: SlotId, managementId: SlotId)
    requires GoodSlots(slots) && IndexOf(slots, active.slot, 0) < |slots| && Authorised(slots, active, c)
    requires UnusedIds(slots, id, managementId)
    ensures GoodSlots(PlanFor(slots, active, c, id, managementId).slots)
  {
    hide GoodSlots, GoodSlot, Ordinary, RecoveryIndex, UnusedIds;
    var k := IndexOf(slots, active.slot, 0);
    var t := IndexOf(slots, c.target, 0);
    match c.kind
    case ChangePassword =>
    case AddInvitation => InsertedGood(slots, Slot(id, managementId, c.permissions, 1, true, c.name, ""));
    case ClaimInvitation =>
      SlotFacts(slots, k);
      UpdatedGood(slots, k, slots[k].(mustBeChanged := false, name := c.name, email := c.email));
    case ReconcileIdentity =>
      SlotFacts(slots, k);
      UpdatedGood(slots, k, slots[k].(name := c.name, email := c.email));
    case UpdatePermissions =>
      SlotFacts(slots, t);
      UpdatedGood(slots, t, slots[t].(permissions := c.permissions));
    case RemoveSlot => RemovedGood(slots, t);
  }

  lemma SlotFacts(slots: seq<Slot>, k: nat)
    requires GoodSlots(slots) && k < |slots|
    ensures slots[k].permissions <= 7
    ensures slots[k].role != 1 ==> slots[k].permissions == 7 && !slots[k].mustBeChanged
    ensures slots[k].role != 2 ==> slots[k].name != "" && (slots[k].mustBeChanged || slots[k].email != "")
  {
    assert GoodSlot(slots, k);
  }

  // ---------- Rights ----------

  /** What a slot gained over the old list is within the actor's own rights. */
  predicate GrantedBy(source: seq<Slot>, s: Slot, actor: nat) {
    Within(s.permissions, actor)
    || exists i | 0 <= i < |source| :: source[i].id == s.id && source[i].permissions == s.permissions
  }

  /** No change grants a right its actor lacks. */
  lemma NoEscalation(slots: seq<Slot>, active: Opened, c: SlotChange, id: SlotId, managementId: SlotId)
    requires GoodSlots(slots) && IndexOf(slots, active.slot, 0) < |slots| && Authorised(slots, active, c)
    requires CoherentBits(active.permissions)
    ensures var out := PlanFor(slots, active, c, id, managementId).slots;
            forall j | 0 <= j < |out| :: GrantedBy(slots, out[j], active.permissions)
  {
    hide GoodSlots, Within, Ordinary, Allows;
    var out := PlanFor(slots, active, c, id, managementId).slots;
    if c.kind == UpdatePermissions { EverythingWithin(c.permissions, active.permissions); }
    forall j | 0 <= j < |out| ensures GrantedBy(slots, out[j], active.permissions) {
      var i := match c.kind
        case AddInvitation =>
          var r := RecoveryIndex(slots, 0);
          if j < r then j else if j == r then 0 else j - 1
        case RemoveSlot => if j < IndexOf(slots, c.target, 0) then j else j + 1
        case _ => j;
      assert Within(out[j].permissions, active.permissions)
             || (slots[i].id == out[j].id && slots[i].permissions == out[j].permissions);
    }
  }

  lemma EverythingWithin(p: nat, q: nat)
    requires p <= 7 && CoherentBits(q) && Allows(q, ADD) && Allows(q, REMOVE)
    ensures Within(p, q)
  {
  }
}
