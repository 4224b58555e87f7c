/** Opening and rewriting whole images (src/container/revised_v3_container.cpp, password_slots.cpp). */
module ImageOperations {
  import opened Wrappers
  import opened TextValidation
  import opened RevisionRecords
  import opened GraphValidity
  import opened RevisionGraph
  import opened GraphBuilders
  import opened Envelope
  import opened PasswordSlots
  import States = ContainerState

  datatype MergeProblem = UnrelatedReplica | RevokedAccess | PermissionDenied

  /** Every way a container call can fail. */
  datatype Failure =
    | StateFailure(state: States.StateError)
    | ContainerFailure(container: ContainerError)
    | FormatFailure(format: Error)
    | MergeFailure(problem: MergeProblem)

  // ---------- Unlocking ----------

  function GraphError(e: Error): ContainerError {
    if e == LimitExceeded then TooLarge else MalformedContainer
  }

  /** Unlocking returns exactly what the image opens to, and says when nothing authenticates. */
  method UnlockImage(hash: Hash, image: Image, password: Password) returns (r: Result<Opened, ContainerError>)
    ensures r.Ok? <==> Unlocking(hash, image, password).Some?
    ensures r.Ok? ==> r.value == Unlocking(hash, image, password).value
    ensures r == Err(AuthenticationFailed) <==> Unauthentic(image, password)
  {
    hide Decodable;
    var structure := ValidateStructure(image);
    if structure.Err? { return Err(structure.error); }
    if !GoodPassword(password) { return Err(BadArgument); }
    var ws := image.wrappers;
    var selected := |ws|;
    var i := 0;
    while i < |ws| && selected == |ws|
      invariant 0 <= i <= |ws| && 0 <= selected <= |ws|
      invariant selected == |ws| ==> Selected(ws, password, 0) == Selected(ws, password, i)
      invariant selected < |ws| ==> selected == Selected(ws, password, 0) && ws[selected].rights <= 7
    {
      if ws[i].password == password {
        if ws[i].rights > 7 { return Err(MalformedContainer); }
        selected := i;
      }
      i := i + 1;
    }
    if selected == |ws| { return Err(AuthenticationFailed); }
    var w := ws[selected];
    if w.key != image.sealedUnder || image.sealedOver != ws { return Err(AuthenticationFailed); }
    if image.contentType > 1 { return Err(UnsupportedFormat); }
    var decoded := Decode(hash, image.graph, DEFAULT_LIMITS);
    if decoded.Err? { return Err(GraphError(decoded.error)); }
    var slots := image.graph.slots;
    if |slots| != |ws| { return Err(MalformedContainer); }
    if slots[selected].id != w.slot || (slots[selected].role != 1 && (w.rights != 7 || w.mustBeChanged)) {
      return Err(MalformedContainer);
    }
    return Ok(OpenedBy(image, selected));
  }

  /** A payload with the same slots opens for the same passwords, to the same slot and the new graph. */
  lemma PayloadUnlocks(hash: Hash, image: Image, graph: Graph, nonce: nat, password: Password)
    requires Decodable(hash, image.graph, DEFAULT_LIMITS) && Decodable(hash, graph, DEFAULT_LIMITS)
    requires graph.slots == image.graph.slots && image.sealedOver == image.wrappers
    ensures var before, after := Unlocking(hash, image, password), Unlocking(hash, WithGraph(image, graph, nonce), password);
            && (before.Some? <==> after.Some?)
            && (before.Some? ==> after.value == before.value.(graph := graph))
  {
    hide Decodable;
  }

  // ---------- Rewriting the payload ----------

  method ReplaceGraph(hash: Hash, image: Image, password: Password, graph: Graph, nonce: nat)
    returns (r: Result<Image, Failure>)
    ensures r.Ok? <==> Unlocking(hash, image, password).Some? && Decodable(hash, graph, DEFAULT_LIMITS)
    ensures r.Ok? ==> r.value == WithGraph(image, graph, nonce)
  {
    hide Decodable;
    var unlocked := UnlockImage(hash, image, password);
    if unlocked.Err? { return Err(ContainerFailure(unlocked.error)); }
    var decoded := Decode(hash, graph, DEFAULT_LIMITS);
    if decoded.Err? { return Err(FormatFailure(decoded.error)); }
    return Ok(Image(image.wrappers, nonce, unlocked.value.journalKey, image.wrappers, unlocked.value.documentId,
                    unlocked.value.contentType, graph));
  }

  // ---------- Rewriting the wrappers ----------

  /** The rewrite's own argument checks. */
  predicate RewriteAllowed(image: Image, graph: Graph, mode: Mode, index: nat, newPassword: Password) {
    var n := |image.wrappers|;
    && (index < n || (index == n && mode == InsertAt))
    && ((mode == InsertAt || mode == ReplaceAt) <==> newPassword != [])
    && !(mode == RemoveAt && n == 1)
    && (var count := n + (if mode == InsertAt then 1 else 0) - (if mode == RemoveAt then 1 else 0);
        count <= 9 && |graph.slots| == count)
  }

  method ReplaceSlots(hash: Hash, image: Image, password: Password, graph: Graph, mode: Mode, index: nat,
                      made: Wrapper, nonce: nat)
    returns (r: Result<Image, Failure>)
    ensures r.Ok? <==> Unlocking(hash, image, password).Some? && Decodable(hash, graph, DEFAULT_LIMITS)
                       && RewriteAllowed(image, graph, mode, index, made.password)
    ensures r.Ok? ==> r.value == Rewrapped(image, Rewritten(image.wrappers, mode, index, made.(key := image.sealedUnder)),
                                           graph, nonce)
  {
    hide Decodable, Rewritten;
    var unlocked := UnlockImage(hash, image, password);
    if unlocked.Err? { return Err(ContainerFailure(unlocked.error)); }
    var decoded := Decode(hash, graph, DEFAULT_LIMITS);
    if decoded.Err? { return Err(FormatFailure(decoded.error)); }
    var n := |image.wrappers|;
    if index > n || (mode != InsertAt && index == n)
       || ((mode == InsertAt || mode == ReplaceAt) != (made.password != [])) || (mode == RemoveAt && n == 1)
    {
      return Err(ContainerFailure(BadArgument));
    }
    var count := n + (if mode == InsertAt then 1 else 0) - (if mode == RemoveAt then 1 else 0);
    if count > 9 || |graph.slots| != count { return Err(ContainerFailure(TooLarge)); }
    var wrappers := RewriteWrappers(image.wrappers, mode, index, made.(key := unlocked.value.journalKey));
    return Ok(Image(wrappers, nonce, unlocked.value.journalKey, wrappers, unlocked.value.documentId,
                    unlocked.value.contentType, graph));
  }

  // ---------- Planning a credential change ----------

  method FindSlot(slots: seq<Slot>, id: SlotId) returns (k: nat)
    ensures k == IndexOf(slots, id, 0)
  {
    k := 0;
    while k < |slots| && slots[k].id != id
      invariant k <= |slots| && IndexOf(slots, id, 0) == IndexOf(slots, id, k)
    {
      k := k + 1;
    }
  }

  method FindRecovery(slots: seq<Slot>) returns (k: nat)
    ensures k == RecoveryIndex(slots, 0)
  {
    k := 0;
    while k < |slots| && slots[k].role != 2
      invariant k <= |slots| && RecoveryIndex(slots, 0) == RecoveryIndex(slots, k)
    {
      k := k + 1;
    }
  }

  method CountOrdinary(slots: seq<Slot>) returns (n: nat)
    ensures n == Ordinary(slots, |slots|)
  {
    n := 0;
    var i := 0;
    while i < |slots|
      invariant 0 <= i <= |slots| && n == Ordinary(slots, i)
    {
      if slots[i].role == 1 { n := n + 1; }
      i := i + 1;
    }
  }

  method RequireUnused(hash: Hash, image: Image, password: Password) returns (r: Result<bool, ContainerError>)
    ensures r.Ok? <==> Unauthentic(image, password)
    ensures Unlocking(hash, image, password).Some? ==> r == Err(PasswordInUse)
  {
    var unlocked := UnlockImage(hash, image, password);
    match unlocked {
      case Ok(_) => return Err(PasswordInUse);
      case Err(e) => return if e == AuthenticationFailed then Ok(true) else Err(e);
    }
  }

  /** One change: refused unless authorised and the new password unused, and then planned exactly. */
  method PlanChange(hash: Hash, image: Image, active: Opened, c: SlotChange, id: SlotId, managementId: SlotId)
    returns (r: Result<Plan, ContainerError>)
    requires UnusedIds(image.graph.slots, id, managementId)
    ensures r.Ok? <==> IndexOf(image.graph.slots, active.slot, 0) < |image.graph.slots|
                       && Authorised(image.graph.slots, active, c)
                       && (NeedsPassword(c.kind) ==> Unauthentic(image, c.newPassword))
    ensures r.Ok? ==> r.value == PlanFor(image.graph.slots, active, c, id, managementId)
  {
    hide Within, CoherentBits, Allows, Unauthentic, GoodIdentity, GoodPassword;
    var slots := image.graph.slots;
    var k := FindSlot(slots, active.slot);
    if k == |slots| { return Err(MalformedContainer); }
    var t := FindSlot(slots, c.target);
    if NeedsPassword(c.kind) {
      if !GoodPassword(c.newPassword) { return Err(BadArgument); }
      if !c.strong { return Err(WeakPassword); }
    } else if c.newPassword != [] {
      return Err(BadArgument);
    }
    var plan: Plan;
    match c.kind {
      case ChangePassword =>
        if active.mustBeChanged { return Err(BadArgument); }
        plan := Plan(slots, slots[k].id, ReplaceAt, k, false, "password-changed");
      case AddInvitation =>
        if active.mustBeChanged || !Allows(active.permissions, ADD) || !Within(c.permissions, active.permissions)
           || !CoherentBits(c.permissions) || c.name == "" || |c.name| > MAX_IDENTITY
        {
          return Err(BadArgument);
        }
        var ordinary := CountOrdinary(slots);
        if ordinary >= 7 { return Err(TooLarge); }
        var recovery := FindRecovery(slots);
        var invited := Slot(id, managementId, c.permissions, 1, true, c.name, "");
        plan := Plan(slots[..recovery] + [invited] + slots[recovery..], id, InsertAt, recovery, false, "invitation-created");
      case ClaimInvitation =>
        if slots[k].role != 1 || !active.mustBeChanged || !GoodIdentity(c.name, c.email) { return Err(BadArgument); }
        slots := slots[k := slots[k].(mustBeChanged := false, name := c.name, email := c.email)];
        plan := Plan(slots, slots[k].id, ReplaceAt, k, false, "invitation-claimed");
      case ReconcileIdentity =>
        if active.mustBeChanged || slots[k].role == 2 || !GoodIdentity(c.name, c.email) { return Err(BadArgument); }
        slots := slots[k := slots[k].(name := c.name, email := c.email)];
        plan := Plan(slots, slots[k].id, Keep, 0, false, "identity-reconciled");
      case UpdatePermissions =>
        if active.mustBeChanged || !Allows(active.permissions, ADD) || !Allows(active.permissions, REMOVE)
           || t == |slots| || slots[t].role != 1 || slots[t].mustBeChanged || !CoherentBits(c.permissions)
        {
          return Err(BadArgument);
        }
        slots := slots[t := slots[t].(permissions := c.permissions)];
        plan := Plan(slots, slots[t].id, Keep, 0, false, "permissions-updated");
      case RemoveSlot =>
        if active.mustBeChanged || !Allows(active.permissions, REMOVE) || t == |slots| || slots[t].role != 1 {
          return Err(BadArgument);
        }
        plan := Plan(slots[..t] + slots[t + 1..], slots[t].id, RemoveAt, t, slots[t].id == slots[k].id, "slot-removed");
    }
    if NeedsPassword(c.kind) {
      var unused := RequireUnused(hash, image, c.newPassword);
      if unused.Err? { return Err(unused.error); }
    }
    return Ok(plan);
  }
}
