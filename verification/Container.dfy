/** One open document and everything a session may do to it (src/container/container.cpp). */
module Container {
  import opened Wrappers
  import opened TextValidation
  import opened ContainerState
  import opened ContainerCore
  import opened ContainerAgreement
  import opened Proposals
  import opened CredentialProposal
  import opened ContainerRequests
  import opened ContainerSteps
  import Graphs = RevisionGraph
  import Images = Envelope
  import Ops = ImageOperations
  import Slots = PasswordSlots
  import Credentials = CredentialChange
  import Creations = DocumentCreation
  import Records = RevisionRecords
  import Validity = GraphValidity
  import Builders = GraphBuilders
  import Reading = Reconstruction
  import Saves = SaveContent
  import Events = AppendEvent
  import Cuts = Compaction
  import History = HistoryService
  import Merging = MergeSave
  import Lines = Lineage
  import Leases = LeaseProtocol

  class Container {
    const hash: Hash
    const csv: Csv
    const hex: Records.RevisionId -> string

    var state: State
    var committed: Option<Image>
    var target: Option<Image>
    var documentId: Option<nat>
    var unlocked: Option<Opened>
    var content: Option<Bytes>
    var generation: nat
    var candidate: Option<Candidate>
    var pending: Option<Pending>
    var localSession: Option<int>
    var transitioning: bool

    ghost function View(): Core
      reads this
    {
      Core(state, committed, target, documentId, unlocked, content, generation, candidate, pending, localSession)
    }

    /** Between calls: every part agrees, the open data is the committed image's, and nothing is half done. */
    ghost predicate Valid()
      reads this
    {
      Records.Injective(hash) && !transitioning && Agrees(View()) && Faithful(hash, View())
    }

    constructor (hash: Hash, csv: Csv, hex: Records.RevisionId -> string)
      requires Records.Injective(hash)
      ensures Valid() && View() == EMPTY && this.hash == hash && this.csv == csv && this.hex == hex
    {
      this.hash, this.csv, this.hex := hash, csv, hex;
      state, committed, target, documentId := INITIAL, None, None, None;
      unlocked, content, generation := None, None, 0;
      candidate, pending, localSession, transitioning := None, None, None, false;
      new;
      EmptyAgrees();
    }

    // ---------- Installing ----------

    /** Taking over a verified candidate, field by field. */
    method AdoptCandidate(before: State)
      requires candidate.Some?
      modifies this
      ensures View() == Adopted(old(View()), before, old(candidate.value)) && transitioning == old(transitioning)
      ensures state == old(state)
    {
      var proposal := candidate.value;
      committed := Some(proposal.image);
      unlocked := if proposal.removesActive then None else proposal.adopted;
      if proposal.discard && generation == proposal.generation { content := Some(proposal.discardedContent); }
      candidate := None;
      if proposal.activityBackup.Some? && proposal.adopted.Some? {
        pending := Some(Pending(if before.operation.Some? then before.operation.value else 0,
                                proposal.adopted.value.graph.head, proposal.activityBackup.value, None));
      } else if before.purpose == Some(ActivityOutcome) {
        pending := None;
      }
      if !proposal.removesActive && !proposal.slotChange && proposal.leaseChange {
        localSession := if proposal.leaseHeldAfter then Some(proposal.leaseSession) else None;
      }
    }

    /** The overlay of rights, and the clearing that closing does. */
    method FinishTransition(a: Attempt)
      modifies this
      ensures View() == Cleared(Overlay(old(View()), a), a) && transitioning == old(transitioning)
    {
      hide BitsOf;
      if unlocked.Some? && (a.Unlock? || a.ApplyTarget?) {
        unlocked := Some(unlocked.value.(permissions := BitsOf(state.rights)));
      }
      if a.Close? {
        unlocked, content, candidate, pending := None, None, None, None;
        committed, target, documentId, localSession := None, None, None, None;
      }
    }

    /** The candidate's part of a transition; refused only if its follow-up is. */
    method TakeAnswer(before: State, a: Attempt) returns (r: Result<seq<Effect>, StateError>)
      modifies this
      ensures transitioning == old(transitioning)
      ensures r.Err? <==> old(FollowUpRefused(View(), a))
      ensures r.Ok? ==> Installed(View(), r.value) == Taken(old(View()), before, a)
    {
      hide Apply, Adopted, FollowUp;
      if candidate.Some? && VerifiedAttempt(a) {
        var follow := FollowUp(candidate.value);
        AdoptCandidate(before);
        if follow.None? { return Ok([]); }
        var followed := Apply(state, follow.value);
        if followed.Err? { return Err(followed.error); }
        state := followed.value.state;
        return Ok(followed.value.effects);
      }
      if candidate.Some? && RejectedAttempt(a) { candidate := None; }
      return Ok([]);
    }

    /** One transition and everything that goes with it. */
    method InstallTransition(a: Attempt) returns (r: Result<Transition, StateError>)
      modifies this
      ensures old(transitioning) ==> r == Err(InvalidTransition) && View() == old(View()) && transitioning
      ensures !old(transitioning) && Rejects(old(View()), a) ==> r.Err? && transitioning
      ensures !old(transitioning) && !Rejects(old(View()), a) ==>
                !transitioning
                && match Install(old(View()), a)
                   case Err(e) => r == Err(e) && View() == old(View())
                   case Ok(i) => r == Ok(Transition(i.core.state, i.effects)) && View() == i.core
    {
      hide Apply, Taken, Overlay, Cleared, FollowUpRefused;
      if transitioning { return Err(InvalidTransition); }
      var before := state;
      var applied := Apply(state, a);
      if applied.Err? { return Err(applied.error); }
      if applied.value.state == state { return Ok(Transition(state, applied.value.effects)); }
      transitioning := true;
      state := applied.value.state;
      var taken := TakeAnswer(before, a);
      if taken.Err? { return Err(taken.error); }
      FinishTransition(a);
      transitioning := false;
      return Ok(Transition(state, applied.value.effects + taken.value));
    }

    // ---------- Creating ----------

    /** A closed container makes new documents; the verdicts on the passwords' strength come from outside. */
    method CreateDocument(v: Creations.Creation, strongOwner: bool, strongRecovery: bool, d: Creations.Draws)
      returns (r: Result<Image, Failure>)
      ensures r.Ok? <==> state.access == Closed && Creations.DifferentPasswords(v) && strongOwner
                         && (v.recoveryPassword.Some? ==> strongRecovery) && Creations.MayCreate(v)
      ensures r.Ok? ==> r.value == Creations.CreatedImage(hash, v, d)
    {
      hide Creations.CreatedImage;
      if state.access != Closed { return Err(Ops.StateFailure(InvalidTransition)); }
      if v.ownerPassword == [] || (v.recoveryPassword.Some? && v.recoveryPassword.value == [])
         || (v.recoveryPassword.Some? && v.recoveryPassword.value == v.ownerPassword)
      {
        return Err(Ops.ContainerFailure(Images.BadArgument));
      }
      if !strongOwner || (v.recoveryPassword.Some? && !strongRecovery) { return Err(Ops.ContainerFailure(Images.WeakPassword)); }
      r := Creations.Create(hash, v, d);
    }

    // ---------- Opening and unlocking ----------

    method OpenDocument(image: Image) returns (r: Answer)
      requires Valid()
      modifies this
      ensures Valid()
      ensures r.Ok? <==> old(state.access) == Closed && Images.WellStructured(image)
      ensures r.Ok? ==> View() == old(View()).(committed := Some(image), state := old(state).(access := ContainerState.Opened))
      ensures r.Err? ==> View() == old(View())
    {
      hide Apply, Agrees, Faithful, Images.WellStructured;
      if state.access != Closed { return REFUSED; }
      var structure := Images.ValidateStructure(image);
      if structure.Err? { return Err(Ops.ContainerFailure(structure.error)); }
      ghost var before := View();
      var incoming := committed;
      committed := Some(image);
      OnlyAnswersReject(View(), Open);
      var installed := InstallTransition(Open);
      if installed.Err? {
        committed := incoming;
        OpenKeepsAgreement(before, image);
        assert false;
      }
      OpenKeepsAgreement(before, image);
      OpeningIsFaithful(hash, before, image);
      return Ok(installed.value);
    }

    /** The content head's text, read back to an anchor. */
    method ReadHead(g: Graphs.Graph) returns (r: Option<Bytes>)
      requires Graphs.Decodable(hash, g, Records.DEFAULT_LIMITS)
      ensures r == Some(HeadText(g))
    {
      hide Graphs.Decodable, Validity.LineAfter;
      r := Reading.Reconstruct(hash, g, g.contentHead);
      Builders.ContentHeadHeld(hash, g);
      var i :| 0 <= i < |g.records| && g.records[i].id == g.contentHead;
      Reading.ContentHeadReads(hash, g, i);
    }

    method CheckUnlock(password: Password) returns (r: Result<Opened, Failure>)
      requires Valid()
      ensures r.Ok? <==> UnlockAdmitted(hash, csv, View(), password)
      ensures r.Ok? ==> r.value == Authenticated(hash, csv, View(), password)
    {
      hide Agrees, Faithful, Images.Unlocking, BitsOf;
      if state.access != ContainerState.Opened || state.screen != Locked || committed.None?
         || (state.attention == Reauthenticate && target.None?)
      {
        return Err(Ops.StateFailure(InvalidTransition));
      }
      var decoded := Ops.UnlockImage(hash, if target.Some? then target.value else committed.value, password);
      if decoded.Err? { return Err(Ops.ContainerFailure(decoded.error)); }
      var o := decoded.value;
      if documentId.Some? && (o.documentId != documentId.value || (unlocked.Some? && o.contentType != unlocked.value.contentType)) {
        return Err(Ops.ContainerFailure(Images.MalformedContainer));
      }
      if target.Some? && state.target.Some?
         && (o.slot != state.target.value.slot || o.permissions != BitsOf(state.target.value.rights))
      {
        return Err(Ops.ContainerFailure(Images.MalformedContainer));
      }
      if (unlocked.None? || unlocked.value.slot != o.slot) && o.contentType == 1 {
        ghost var source := SourceImage(View());
        UnlockedFrom(hash, source, password);
        FaithfulDecodes(hash, source, o);
        var text := ReadHead(o.graph);
        if !csv(text.value) { return Err(Ops.ContainerFailure(Images.MalformedContainer)); }
      }
      return Ok(o);
    }

    /**
     * Unlocking installs exactly the authenticated data, or keeps the same slot's own. A refused
     * transition after another slot's password leaves nothing open; any other failure changes nothing.
     */
    method UnlockDocument(password: Password) returns (r: Answer)
      requires Valid()
      modifies this
      ensures Valid() && committed == old(committed)
      ensures !old(UnlockAdmitted(hash, csv, View(), password)) ==> r.Err? && View() == old(View())
      ensures old(UnlockAdmitted(hash, csv, View(), password)) ==>
                var o := old(Authenticated(hash, csv, View(), password));
                match old(UnlockedCore(View(), o, HeadText(o.graph)))
                case Ok(i) => r == Ok(Transition(i.core.state, i.effects)) && View() == i.core
                case Err(e) => r == Err(Ops.StateFailure(e)) && View() == AfterRefusal(old(View()), o)
    {
      hide Agrees, Faithful, UnlockAdmitted, UnlockedCore, AfterRefusal;
      ghost var before := View();
      var checked := CheckUnlock(password);
      if checked.Err? { return Err(checked.error); }
      AdmittedFacts(hash, csv, before, password);
      r := InstallUnlock(checked.value);
    }

    /** New clear data, unless the same slot's own is still held. */
    method PlaceDecoded(o: Opened)
      requires Graphs.Decodable(hash, o.graph, Records.DEFAULT_LIMITS)
      modifies this
      ensures View() == WithDecoded(old(View()), o, HeadText(o.graph)) && transitioning == old(transitioning)
    {
      hide Graphs.Decodable, HeadText;
      if unlocked.None? || unlocked.value.slot != o.slot {
        content := ReadHead(o.graph);
        unlocked := Some(o);
      }
    }

    method InstallUnlock(o: Opened) returns (r: Answer)
      requires Valid() && committed.Some? && state.screen == Locked && SameDocument(View(), o)
      requires OpenedFrom(hash, SourceImage(View()), o) && o.permissions == OwnPermissions(o) && o.permissions <= 7
      modifies this
      ensures Valid() && committed == old(committed)
      ensures match old(UnlockedCore(View(), o, HeadText(o.graph)))
              case Ok(i) => r == Ok(Transition(i.core.state, i.effects)) && View() == i.core
              case Err(e) => r == Err(Ops.StateFailure(e)) && View() == AfterRefusal(old(View()), o)
    {
      hide Apply, Agrees, Faithful, Install, OpenedFrom, SameDocument, OwnPermissions, BitsOf, RightsOf, HeadText, Rejects,
           Graphs.Decodable, SourceImage;
      ghost var before := View();
      var status := if !o.graph.lease.active then NoLease
                    else if localSession == Some(o.graph.lease.session) then Held else OtherHolder;
      var request := Unlock(o.slot, RightsOf(o.permissions), !o.mustBeChanged, target.Some?, status);
      var retained := unlocked.Some? && unlocked.value.slot == o.slot;
      FaithfulDecodes(hash, SourceImage(before), o);
      PlaceDecoded(o);
      OnlyAnswersReject(View(), request);
      var installed := InstallTransition(request);
      if installed.Err? {
        if !retained {
          RefusedUnlock(hash, before, o);
          unlocked, content := None, None;
        }
        return Err(Ops.StateFailure(installed.error));
      }
      UnlockHolds(hash, before, o, HeadText(o.graph));
      UnlockKeepsAgreement(hash, before, o, HeadText(o.graph));
      documentId := Some(unlocked.value.documentId);
      return Ok(installed.value);
    }

    // ---------- Transitions the host asks for directly ----------

    /** Locking, closing, releasing edit and raising attention; everything else has its own call. */
    method Request(a: Attempt) returns (r: Answer)
      requires Valid()
      modifies this
      ensures Valid()
      ensures r.Ok? <==> (a.Lock? || a.Close? || a.ReleaseEdit? || a.RaiseAttention?) && Apply(old(state), a).Ok?
      ensures r.Ok? ==> r.value == Transition(Apply(old(state), a).value.state, Apply(old(state), a).value.effects)
      ensures r.Ok? && !a.Close? ==> View() == old(View()).(state := Apply(old(state), a).value.state)
      ensures r.Ok? && a.Close? ==> View() == EMPTY.(state := INITIAL.(lastOperation := old(state.lastOperation)),
                                                     generation := old(generation))
      ensures r.Err? ==> View() == old(View())
    {
      hide Apply, Agrees, Faithful;
      if !a.Lock? && !a.Close? && !a.ReleaseEdit? && !a.RaiseAttention? { return REFUSED; }
      r := InstallDirect(a);
    }

    /** The host says the lease is held; nothing else changes. */
    method ConfirmEditLease() returns (r: Answer)
      requires Valid()
      modifies this
      ensures Valid()
      ensures r.Ok? <==> old(UnlockedIdle(state)) && old(state.rights.edit) && old(state.attention == Calm)
                         && !old(unlocked.Some? && unlocked.value.mustBeChanged)
      ensures r.Ok? ==> View() == old(View()).(state := old(state).(lease := Held, edit := Editing))
      ensures r.Err? ==> View() == old(View())
    {
      hide Agrees, Faithful;
      if state.access == ContainerState.Opened && state.screen == Unlocked && unlocked.Some? && unlocked.value.mustBeChanged {
        return REFUSED;
      }
      r := InstallDirect(AcquireEdit(Held));
    }

    method InstallDirect(a: Attempt) returns (r: Answer)
      requires Valid() && Direct(a)
      modifies this
      ensures Valid()
      ensures r.Ok? <==> Apply(old(state), a).Ok?
      ensures r.Ok? ==> r.value == Transition(Apply(old(state), a).value.state, Apply(old(state), a).value.effects)
      ensures r.Ok? && !a.Close? ==> View() == old(View()).(state := Apply(old(state), a).value.state)
      ensures r.Ok? && a.Close? ==> View() == EMPTY.(state := INITIAL.(lastOperation := old(state.lastOperation)),
                                                     generation := old(generation))
      ensures r.Err? ==> View() == old(View())
    {
      hide Apply, Agrees, Faithful, Install, Rejects;
      ghost var before := View();
      OnlyAnswersReject(before, a);
      var installed := InstallTransition(a);
      if installed.Err? {
        DirectIsExact(before, a);
        return Err(Ops.StateFailure(installed.error));
      }
      DirectIsExact(before, a);
      DirectKeepsAgreement(before, a);
      InstallKeepsFaithful(hash, before, a);
      return Ok(installed.value);
    }

    // ---------- Settling a publication ----------

    /** An answer for anything but the candidate in flight is stale; a verified one adopts exactly its image. */
    method AcknowledgeSave(id: nat, outcome: Outcome) returns (r: Answer)
      requires Valid()
      modifies this
      ensures Valid()
      ensures !old(candidate.Some? && candidate.value.operation == id) ==> r == STALE && View() == old(View())
      ensures old(candidate.Some? && candidate.value.operation == id) ==>
                Settles(old(View()), Acknowledge(id, outcome), View(), r)
      ensures committed == if r.Ok? && outcome == Verified then Some(old(candidate.value.image)) else old(committed)
    {
      hide Apply, Agrees, Faithful, Install, Settles;
      if candidate.None? || candidate.value.operation != id { return STALE; }
      r := InstallAnswer(Acknowledge(id, outcome));
    }

    method ResolveSave(id: nat, published: bool) returns (r: Answer)
      requires Valid()
      modifies this
      ensures Valid()
      ensures !old(candidate.Some? && candidate.value.operation == id) ==> r == STALE && View() == old(View())
      ensures old(candidate.Some? && candidate.value.operation == id) ==>
                Settles(old(View()), Resolve(id, published), View(), r)
      ensures committed == if r.Ok? && published then Some(old(candidate.value.image)) else old(committed)
    {
      hide Apply, Agrees, Faithful, Install, Settles;
      if candidate.None? || candidate.value.operation != id { return STALE; }
      r := InstallAnswer(Resolve(id, published));
    }

    method InstallAnswer(a: Attempt) returns (r: Answer)
      requires Valid() && (a.Acknowledge? || a.Resolve?) && candidate.Some?
      modifies this
      ensures Valid() && Settles(old(View()), a, View(), r)
      ensures committed == if r.Ok? && VerifiedAttempt(a) then Some(old(candidate.value.image)) else old(committed)
    {
      hide Apply, Agrees, Faithful, Install, Rejects;
      ghost var before := View();
      NeverRejects(before, a);
      var installed := InstallTransition(a);
      if installed.Err? { return Err(Ops.StateFailure(installed.error)); }
      InstallNeedsApply(before, a);
      if VerifiedAttempt(a) {
        VerifiedKeepsAgreement(before, a);
      } else {
        OtherAnswersKeepAgreement(before, a);
      }
      InstallKeepsFaithful(hash, before, a);
      return Ok(installed.value);
    }

    // ---------- Observing the target ----------

    /** Whether the open slot's wrapper is still the one this session knows. */
    method CheckWrapper(image: Image, o: Opened, password: Password) returns (r: Result<bool, Failure>)
      requires Valid() && committed.Some? && unlocked.Some?
      requires OpenedFrom(hash, image, o)
      ensures r.Ok? <==> (Some(o.slot) == state.activeSlot ==>
                            Images.Unlocking(hash, committed.value, password).Some? || Images.Unauthentic(committed.value, password))
      ensures r.Ok? ==> r.value == WrapperMoved(hash, View(), image, o, password)
    {
      hide Agrees, Faithful, Graphs.Decodable, Images.Unlocking, Images.Unauthentic;
      if Some(o.slot) != state.activeSlot { return Ok(true); }
      var known := Ops.UnlockImage(hash, committed.value, password);
      if known.Err? && known.error != Images.AuthenticationFailed { return Err(Ops.ContainerFailure(known.error)); }
      var i := Ops.FindSlot(unlocked.value.graph.slots, o.slot);
      var j := Ops.FindSlot(o.graph.slots, o.slot);
      SameLengths(hash, View(), image, o);
      var moved := i == |unlocked.value.graph.slots| || j == |o.graph.slots| || committed.value.wrappers[i] != image.wrappers[j];
      return Ok(known.Err? || known.value.slot != o.slot || moved);
    }

    /** An observed version of the document overlays its rights, and asks for the password again if the wrapper moved. */
    method ApplyTargetDocument(image: Image, password: Password) returns (r: Answer)
      requires Valid()
      modifies this
      ensures Valid() && committed == old(committed) && content == old(content)
      ensures r.Ok? <==> TargetAccepted(hash, old(View()), image, password)
      ensures r.Ok? ==>
                var o := Images.Unlocking(hash, image, password);
                o.Some? && old(committed).Some?
                && Settles(old(View()).(target := Some(image)),
                           ApplyTarget(TargetRights(old(View()), o.value), WrapperMoved(hash, old(View()), image, o.value, password)),
                           View(), r)
      ensures r.Err? ==> View() == old(View())
    {
      hide Agrees, Faithful, Graphs.Decodable, Images.Unlocking, Images.Unauthentic, Apply, Install, Lines.VerdictOn, Rejects,
           WrapperMoved, Coherent, Settles;
      if state.access != ContainerState.Opened || state.screen != Unlocked || state.phase != Idle || state.activeSlot.None?
         || documentId.None? || committed.None? || state.target.Some? || target.Some?
      {
        return REFUSED;
      }
      ghost var before := View();
      EditorHasData(before);
      OwnSlotFits(hash, before);
      var decoded := Ops.UnlockImage(hash, image, password);
      if decoded.Err? { return Err(Ops.ContainerFailure(decoded.error)); }
      var o := decoded.value;
      UnlockedFrom(hash, image, password);
      FaithfulDecodes(hash, image, o);
      if o.documentId != documentId.value || o.contentType != unlocked.value.contentType
         || o.journalKey != unlocked.value.journalKey
      {
        return Err(Ops.FormatFailure(Graphs.UnrelatedTarget));
      }
      var verdict := Lines.AssessTarget(hash, unlocked.value.graph, o.graph);
      if verdict.Err? { return Err(Ops.FormatFailure(verdict.error)); }
      var moved := CheckWrapper(image, o, password);
      if moved.Err? { return Err(moved.error); }
      var rights := if Some(o.slot) == state.activeSlot then RightsOf(o.permissions) else NO_RIGHTS;
      var request := ApplyTarget(rights, moved.value);
      target := Some(image);
      OnlyAnswersReject(View(), request);
      InstallNeedsApply(View(), request);
      TargetIsDue(before, rights, moved.value);
      var installed := InstallTransition(request);
      if installed.Err? {
        target := None;
        return Err(Ops.StateFailure(installed.error));
      }
      TargetKeepsAgreement(hash, before, image, rights, moved.value);
      SettledBy(before.(target := Some(image)), request, View(), installed.value);
      return Ok(installed.value);
    }

    // ---------- Preparing a publication ----------

    method IsReady() returns (ok: bool)
      ensures ok <==> Ready(View())
      ensures ok ==> unlocked.Some?
    {
      ok := candidate.None? && unlocked.Some? && state.access == ContainerState.Opened && state.screen == Unlocked
            && state.phase == Idle && state.attention == Calm && state.target.None?;
    }

    /** Keeping the exact proposal and beginning its publication. */
    method Publish(cand: Candidate, purpose: Purpose) returns (r: Answer)
      requires Valid() && candidate.None? && MayBegin(state, cand.operation, purpose)
      requires CandidateFits(View(), cand, purpose) && FaithfulCandidate(hash, cand)
      modifies this
      ensures Valid() && View() == Begun(old(View()), cand, purpose)
      ensures r == Ok(Transition(state, BeginEffects(cand.operation)))
    {
      hide Agrees, Faithful, Apply, Install, Rejects, CandidateFits, FaithfulCandidate, MayBegin;
      ghost var before := View();
      candidate := Some(cand);
      OnlyAnswersReject(View(), Begin(cand.operation, purpose));
      var installed := InstallTransition(Begin(cand.operation, purpose));
      if installed.Err? {
        candidate := None;
        BeginSucceeds(hash, before, cand, purpose);
        assert false;
      }
      BeginSucceeds(hash, before, cand, purpose);
      return Ok(installed.value);
    }

    /** A new payload under the committed wrappers, read back with the same password. */
    method Reseal(graph: Graphs.Graph, password: Password, nonce: nat) returns (r: Result<(Image, Opened), Failure>)
      requires Valid() && unlocked.Some? && committed.Some?
      requires Graphs.Decodable(hash, graph, Records.DEFAULT_LIMITS) && graph.slots == committed.value.graph.slots
      ensures r.Ok? <==> OpensOwn(hash, View(), password)
      ensures r.Ok? ==> r.value.0 == Images.WithGraph(committed.value, graph, nonce)
                        && Some(r.value.1) == Images.Unlocking(hash, r.value.0, password) && r.value.1.graph == graph
    {
      hide Agrees, Faithful, Graphs.Decodable, Images.Unlocking;
      var replaced := Ops.ReplaceGraph(hash, committed.value, password, graph, nonce);
      if replaced.Err? { return Err(replaced.error); }
      var adopted := Ops.UnlockImage(hash, replaced.value, password);
      var problem := if adopted.Err? then adopted.error else Images.AuthenticationFailed;
      PayloadOpens(hash, View(), graph, nonce, password);
      if adopted.Err? || adopted.value.documentId != unlocked.value.documentId || adopted.value.slot != unlocked.value.slot {
        return Err(Ops.ContainerFailure(problem));
      }
      return Ok((replaced.value, adopted.value));
    }

    /** A save is prepared exactly when it is permitted, fits, and the password is the open slot's. */
    method PrepareSave(id: nat, v: SaveInput, password: Password, nonce: nat) returns (r: Answer)
      requires Valid()
      modifies this
      ensures Valid()
      ensures r.Ok? <==> SaveAccepted(hash, csv, old(View()), id, v, password)
      ensures r.Ok? ==> View() == Begun(old(View()), SaveProposal(hash, csv, old(View()), id, v, password, nonce), SaveKind)
                        && r.value == Transition(state, BeginEffects(id))
      ensures r.Err? ==> View() == old(View())
      ensures !SaveGuard(old(View())) ==> r == REFUSED
      ensures SaveGuard(old(View())) && !Fresh(old(View()), id) ==> r == STALE
    {
      hide Agrees, Faithful, Graphs.Decodable, Images.Unlocking, Saves.SaveAllowed, Saves.SaveFits, Saves.SavedGraph,
           OpensOwn, CandidateFits, FaithfulCandidate, HeadText;
      var ready := IsReady();
      if !ready || content.None? || state.edit != Editing || state.lease != Held || !state.rights.edit { return REFUSED; }
      if id <= state.lastOperation { return STALE; }
      if unlocked.value.mustBeChanged { return Err(Ops.ContainerFailure(Images.BadArgument)); }
      if !v.discard && unlocked.value.contentType == 1 && !csv(content.value) {
        return Err(Ops.ContainerFailure(Images.BadArgument));
      }
      ghost var before := View();
      ActorFits(hash, before);
      var k := Ops.FindSlot(unlocked.value.graph.slots, unlocked.value.slot);
      var request := Saves.SaveRequest(content.value, v.profileName, v.profileEmail, v.device, unlocked.value.graph.slots[k],
                                       v.timestamp, v.regular, v.discard);
      var saved := Builders.SaveTo(hash, unlocked.value.graph, request);
      if saved.Err? { return Err(Ops.FormatFailure(saved.error)); }
      SavedPayload(hash, unlocked.value.graph, request);
      var resealed := Reseal(saved.value, password, nonce);
      if resealed.Err? { return Err(resealed.error); }
      var discarded := [];
      if v.discard {
        var text := ReadHead(saved.value);
        discarded := text.value;
      }
      var cand := Candidate(id, unlocked.value.graph.head, resealed.value.0, Some(resealed.value.1), generation,
                            v.discard, false, false, false, false, None, 0, discarded);
      PayloadFits(hash, before, cand, saved.value, nonce, password, SaveKind);
      assert cand == SaveProposal(hash, csv, before, id, v, password, nonce);
      assert MayBegin(state, id, SaveKind) by { ReadyToSave(before, id, SaveKind); }
      r := Publish(cand, SaveKind);
    }

    /** The password must open the committed image to the slot that is open. */
    method Authenticate(password: Password) returns (r: Result<Opened, Failure>)
      requires Valid() && unlocked.Some? && committed.Some?
      ensures r.Ok? <==> OpensOwn(hash, View(), password)
      ensures r.Ok? ==> Some(r.value) == Images.Unlocking(hash, committed.value, password)
    {
      hide Agrees, Faithful, Images.Unlocking;
      var authenticated := Ops.UnlockImage(hash, committed.value, password);
      if authenticated.Err? { return Err(Ops.ContainerFailure(authenticated.error)); }
      if authenticated.value.slot != unlocked.value.slot { return Err(Ops.ContainerFailure(Images.AuthenticationFailed)); }
      return Ok(authenticated.value);
    }

    /** An event appended to the open graph and sealed under the committed wrappers. */
    method ProposeEvent(id: nat, e: Events.EventRequest, password: Password, nonce: nat) returns (r: Result<Candidate, Failure>)
      requires Valid() && unlocked.Some? && committed.Some? && e.slots == unlocked.value.graph.slots
      ensures r.Ok? <==> OpensOwn(hash, View(), password)
                         && Events.EventAllowed(unlocked.value.graph, e) && Events.EventFits(unlocked.value.graph, e)
      ensures r.Ok? ==> r.value == EventProposal(hash, View(), id, e, password, nonce)
      ensures r.Ok? ==> r.value.adopted.Some? && r.value.activityBackup.None?
    {
      hide Agrees, Faithful, Graphs.Decodable, Images.Unlocking, Events.EventAllowed, Events.EventFits, OpensOwn;
      var g := unlocked.value.graph;
      ActorFits(hash, View());
      var appended := Builders.AppendEventTo(hash, g, e);
      if appended.Err? { return Err(Ops.FormatFailure(appended.error)); }
      Events.EventCloses(hash, g, e);
      var resealed := Reseal(appended.value, password, nonce);
      if resealed.Err? { return Err(resealed.error); }
      return Ok(Candidate(id, g.head, resealed.value.0, Some(resealed.value.1), generation,
                          false, false, false, false, false, None, 0, []));
    }

    /** An attempt is recorded against the exact observed image, a backup only from a clean session. */
    method PrepareActivityAttempt(id: nat, backup: bool, clean: bool, observed: Image, password: Password,
                                  v: ClientInput, nonce: nat)
      returns (r: Answer)
      requires Valid()
      modifies this
      ensures Valid()
      ensures r.Ok? <==> AttemptAccepted(hash, old(View()), id, backup, clean, observed, password, v)
      ensures r.Ok? ==>
                var o := old(unlocked.value);
                Slots.IndexOf(o.graph.slots, o.slot, 0) < |o.graph.slots|
                && View() == Begun(old(View()),
                                   EventProposal(hash, old(View()), id, ActivityEvent(o, AttemptName(backup), "", 0, v), password, nonce)
                                     .(activityBackup := Some(backup)),
                                   AttemptPurposeOf(backup))
                && r.value == Transition(state, BeginEffects(id))
      ensures r.Err? ==> View() == old(View())
    {
      hide Agrees, Faithful, Graphs.Decodable, Images.Unlocking, OpensOwn, Events.EventAllowed, Events.EventFits, HeadText,
           EventProposal, CandidateFits, FaithfulCandidate;
      var ready := IsReady();
      if !ready || pending.Some? || content.None? || unlocked.value.mustBeChanged { return REFUSED; }
      if id <= state.lastOperation { return STALE; }
      if Some(observed) != committed { return REFUSED; }
      ghost var before := View();
      ActorFits(hash, before);
      if backup {
        var text := ReadHead(unlocked.value.graph);
        if !clean || content != text { return REFUSED; }
      }
      var authenticated := Authenticate(password);
      if authenticated.Err? { return Err(authenticated.error); }
      var k := Ops.FindSlot(unlocked.value.graph.slots, unlocked.value.slot);
      var actor := unlocked.value.graph.slots[k];
      var e := Events.EventRequest(unlocked.value.graph.slots, actor, actor.id, AttemptName(backup), "", Some(0),
                                   v.clientName, v.clientEmail, v.device, v.timestamp);
      var proposed := ProposeEvent(id, e, password, nonce);
      if proposed.Err? { return Err(proposed.error); }
      var cand := proposed.value.(activityBackup := Some(backup));
      EventFitsState(hash, before, id, e, password, nonce, cand, AttemptPurposeOf(backup));
      r := Publish(cand, AttemptPurposeOf(backup));
    }

    /** The owed outcome is recorded against the attempt, which is still the head of the committed image. */
    method PrepareActivityOutcome(id: nat, observed: Image, password: Password, v: ClientInput, nonce: nat) returns (r: Answer)
      requires Valid()
      modifies this
      ensures Valid()
      ensures r.Ok? <==> OutcomeAccepted(hash, old(View()), id, observed, password,
                                         "attempt=" + hex(old(if pending.Some? then pending.value.head else 0)), v)
      ensures r.Ok? ==>
                var o := old(unlocked.value);
                Slots.IndexOf(o.graph.slots, o.slot, 0) < |o.graph.slots|
                && View() == Begun(old(View()),
                                   EventProposal(hash, old(View()), id,
                                                 OutcomeEvent(o, old(pending.value), "attempt=" + hex(old(pending.value.head)), v),
                                                 password, nonce),
                                   ActivityOutcome)
                && r.value == Transition(state, BeginEffects(id))
      ensures r.Err? ==> View() == old(View())
    {
      hide Agrees, Faithful, Graphs.Decodable, Images.Unlocking, OpensOwn, Events.EventAllowed, Events.EventFits, HeadText,
           EventProposal, CandidateFits, FaithfulCandidate;
      if candidate.Some? || pending.None? || pending.value.succeeded.None? || unlocked.None? || state.screen != Unlocked
         || state.phase != OutcomePending || state.attention != Calm || state.target.Some?
      {
        return REFUSED;
      }
      if id <= state.lastOperation { return STALE; }
      if Some(observed) != committed { return REFUSED; }
      ghost var before := View();
      ActorFits(hash, before);
      if unlocked.value.graph.head != pending.value.head {
        PendingHead(before);
        assert false;
      }
      var authenticated := Authenticate(password);
      if authenticated.Err? { return Err(authenticated.error); }
      var k := Ops.FindSlot(unlocked.value.graph.slots, unlocked.value.slot);
      var actor := unlocked.value.graph.slots[k];
      if actor.mustBeChanged { return REFUSED; }
      var succeeded := pending.value.succeeded.value;
      var e := Events.EventRequest(unlocked.value.graph.slots, actor, actor.id, OutcomeName(pending.value.backup, succeeded),
                                   "attempt=" + hex(pending.value.head), Some(if succeeded then 1 else 2),
                                   v.clientName, v.clientEmail, v.device, v.timestamp);
      var proposed := ProposeEvent(id, e, password, nonce);
      if proposed.Err? { return Err(proposed.error); }
      EventFitsState(hash, before, id, e, password, nonce, proposed.value, ActivityOutcome);
      r := Publish(proposed.value, ActivityOutcome);
    }

    /** A lease change is prepared exactly when the protocol grants it on the committed lease. */
    method PrepareLeaseChange(id: nat, change: Leases.LeaseChange, password: Password, nonce: nat) returns (r: Answer)
      requires Valid()
      modifies this
      ensures Valid()
      ensures r.Ok? <==> LeaseAccepted(hash, old(View()), id, change, password)
      ensures r.Ok? ==> View() == Begun(old(View()), LeaseProposal(hash, old(View()), id, change, password, nonce), LeaseChange)
                        && r.value == Transition(state, BeginEffects(id))
      ensures r.Err? ==> View() == old(View())
    {
      hide Agrees, Faithful, Graphs.Decodable, Images.Unlocking, OpensOwn, Leases.Granted, Leases.Complete, CandidateFits,
           FaithfulCandidate, Leases.NextLease, Graphs.Allows;
      if candidate.Some? || unlocked.None? || state.access != ContainerState.Opened
         || (state.screen != Unlocked && change.action != Leases.Release)
         || state.phase != Idle || state.attention != Calm || state.target.Some?
         || (state.screen == Unlocked && !state.rights.edit)
         || !Graphs.Allows(unlocked.value.permissions, Graphs.EDIT) || unlocked.value.mustBeChanged
      {
        return REFUSED;
      }
      if id <= state.lastOperation { return STALE; }
      ghost var before := View();
      ActorFits(hash, before);
      var authenticated := Authenticate(password);
      if authenticated.Err? { return Err(authenticated.error); }
      AuthenticatedAgain(hash, before, password);
      var graph := authenticated.value.graph;
      var prior := graph.lease;
      if !Leases.Witnessed(prior, change) { return STALE; }
      var who := Leases.Standing(localSession, state.edit == Editing, authenticated.value.owner || authenticated.value.recovery);
      if !Leases.Complete(change) { return Err(Ops.ContainerFailure(Images.BadArgument)); }
      if !Leases.Granted(prior, change, who) { return REFUSED; }
      if prior.counter == Leases.MAX_COUNTER { return Err(Ops.ContainerFailure(Images.TooLarge)); }
      var next := Leases.NextLease(prior, change);
      Leases.NextLeaseGood(prior, change, who);
      var replaced := Builders.ReplaceLease(hash, graph, next);
      Events.LeaseReplacementCloses(hash, graph, next);
      var resealed := Reseal(replaced.value, password, nonce);
      var cand := Candidate(id, graph.head, resealed.value.0, Some(resealed.value.1), generation, false, false, false, true,
                            change.action != Leases.Release, None, change.session, []);
      LeaseFitsState(hash, before, id, change, password, nonce, cand);
      r := Publish(cand, LeaseChange);
    }

    /** The rewritten image of a credential change, if it is authorised and there is room. */
    method RewriteFor(ch: Slots.SlotChange, x: Credentials.Context, password: Password)
      returns (r: Result<(Slots.Plan, Image), Failure>)
      requires Valid() && Ready(View()) && committed.Some? && OpensOwn(hash, View(), password)
      requires OwnSlot(View()) < |committed.value.wrappers| == |committed.value.graph.slots|
      requires Graphs.Decodable(hash, committed.value.graph, Records.DEFAULT_LIMITS)
      requires Slots.UnusedIds(committed.value.graph.slots, x.id, x.managementId)
      requires forall i | 0 <= i < |committed.value.wrappers| :: committed.value.wrappers[i].header != x.header
      ensures r.Ok? <==> Credentials.ChangeAllowed(hash, committed.value, OwnSlot(View()), ch, x)
      ensures r.Ok? ==> r.value.1 == Credentials.Changed(hash, committed.value, OwnSlot(View()), ch, x)
                        && r.value.0.removesActive == RemovesActive(View(), ch)
                        && (r.value.0.mode == Images.ReplaceAt <==> ch.kind == Slots.ChangePassword || ch.kind == Slots.ClaimInvitation)
    {
      hide Agrees, Faithful, Graphs.Decodable, Images.Unlocking, Slots.Authorised, Slots.PlanFor, Images.Unauthentic,
           Events.EventAllowed, Events.EventFits, Events.EventGraph, Slots.UnusedIds;
      OpenIsWhole(hash, View());
      OwnSlotFits(hash, View());
      var image := committed.value;
      var g := unlocked.value.graph;
      Credentials.DecodedSlots(hash, g);
      if Graphs.HasProvisional(g) { return Err(Ops.StateFailure(InvalidTransition)); }
      var planned := Ops.PlanChange(hash, image, unlocked.value, ch, x.id, x.managementId);
      if planned.Err? { return Err(Ops.ContainerFailure(planned.error)); }
      var plan := planned.value;
      Credentials.PlanIndex(g.slots, unlocked.value, ch, x.id, x.managementId);
      var k := Ops.FindSlot(g.slots, unlocked.value.slot);
      var e := Credentials.EventFor(plan, g.slots[k], ch, x);
      var appended := Builders.AppendEventTo(hash, g, e);
      if appended.Err? { return Err(Ops.FormatFailure(appended.error)); }
      Events.EventCloses(hash, g, e);
      var made := Credentials.MadeWrapper(image, plan, ch, x);
      var replaced := Ops.ReplaceSlots(hash, image, password, appended.value, plan.mode, plan.index, made, x.nonce);
      ChangedStructure(hash, image, k, ch, x);
      return Ok((plan, replaced.value));
    }

    /** A credential change is prepared exactly when it is accepted; draws are fresh for the committed image. */
    method PrepareSlotChange(id: nat, ch: Slots.SlotChange, x: Credentials.Context, password: Password) returns (r: Answer)
      requires Valid()
      requires committed.Some? ==> Slots.UnusedIds(committed.value.graph.slots, x.id, x.managementId)
      requires committed.Some? ==> forall i | 0 <= i < |committed.value.wrappers| :: committed.value.wrappers[i].header != x.header
      modifies this
      ensures Valid()
      ensures r.Ok? <==> ChangeAccepted(hash, old(View()), id, ch, x, password)
      ensures r.Ok? ==> View() == Begun(old(View()), ChangeProposal(hash, old(View()), id, ch, x, password), SlotChange)
                        && r.value == Transition(state, BeginEffects(id))
      ensures r.Err? ==> View() == old(View())
    {
      hide Agrees, Faithful, Graphs.Decodable, Images.Unlocking, OpensOwn, Credentials.ChangeAllowed, Credentials.Changed,
           CandidateFits, FaithfulCandidate, HeadText, Slots.UnusedIds;
      var ready := IsReady();
      if !ready { return REFUSED; }
      if id <= state.lastOperation { return STALE; }
      ghost var before := View();
      ActorFits(hash, before);
      OwnSlotFits(hash, before);
      var authenticated := Authenticate(password);
      if authenticated.Err? { return Err(authenticated.error); }
      var rewritten := RewriteFor(ch, x, password);
      if rewritten.Err? { return Err(rewritten.error); }
      var plan, image := rewritten.value.0, rewritten.value.1;
      var adopted := None;
      if plan.removesActive {
        if content.Some? {
          var text := ReadHead(unlocked.value.graph);
          if content != text { return REFUSED; }
        }
      } else {
        var candidatePassword := if plan.mode == Images.ReplaceAt then ch.newPassword else password;
        var read := Ops.UnlockImage(hash, image, candidatePassword);
        if read.Err? { return Err(Ops.ContainerFailure(read.error)); }
        UnlockedFrom(hash, image, candidatePassword);
        ChangedFrame(hash, committed.value, OwnSlot(before), ch, x);
        if read.value.documentId != unlocked.value.documentId || read.value.slot != unlocked.value.slot {
          return Err(Ops.ContainerFailure(Images.CryptoError));
        }
        adopted := Some(read.value);
      }
      var cand := Candidate(id, unlocked.value.graph.head, image, adopted, generation, false, plan.removesActive, true,
                            false, false, None, 0, []);
      assert cand == ChangeProposal(hash, before, id, ch, x, password);
      ChangeFits(hash, before, id, ch, x, password);
      r := Publish(cand, SlotChange);
    }

    /**
     * A merge first submits the resolved text, which stays submitted if the merge then fails;
     * it is prepared exactly when the replicas merge, over the committed image's own wrappers.
     */
    method PrepareMerge(id: nat, replica: Image, targetPassword: Password, replicaPassword: Password,
                        v: Merging.Resolution, nonce: nat)
      returns (r: Answer)
      requires Valid()
      modifies this
      ensures Valid()
      ensures r.Ok? <==> MergeAccepted(hash, csv, old(View()), id, replica, targetPassword, replicaPassword, v)
      ensures r.Ok? ==> View() == Begun(Submitted(old(View()), v.content),
                                        MergeProposal(hash, csv, old(View()), id, replica, targetPassword, replicaPassword, v, nonce),
                                        SaveKind)
                        && r.value == Transition(state, BeginEffects(id))
      ensures r.Err? ==> View() == if old(MergeGuard(View()) && Fresh(View(), id)) && targetPassword != [] && replicaPassword != []
                                      && SubmitAccepted(csv, old(View()), v.content)
                                   then Submitted(old(View()), v.content) else old(View())
    {
      hide Agrees, Faithful, Graphs.Decodable, Images.Unlocking, CandidateFits, FaithfulCandidate, CanonicalText,
           Merging.ReplicasMerge, Merging.MergedImage, Records.GoodWhole;
      var ready := IsReady();
      if !ready || state.edit != Editing || state.lease != Held || !state.rights.edit { return REFUSED; }
      if id <= state.lastOperation { return STALE; }
      ghost var before := View();
      ActorFits(hash, before);
      if targetPassword == [] || replicaPassword == [] {
        EmptyOpensNothing(hash, before, targetPassword);
        return Err(Ops.ContainerFailure(Images.BadArgument));
      }
      var submitted := SubmitContent(v.content);
      if submitted.Err? { return Err(submitted.error); }
      var merged := Merging.CreateRevised(hash, committed.value, replica, targetPassword, replicaPassword, v, nonce);
      if merged.Err? { return Err(merged.error); }
      MergedOpens(hash, View(), replica, targetPassword, replicaPassword, v, nonce);
      var adopted := Ops.UnlockImage(hash, merged.value, targetPassword);
      if adopted.value.documentId != unlocked.value.documentId || adopted.value.slot != unlocked.value.slot {
        return Err(Ops.ContainerFailure(Images.AuthenticationFailed));
      }
      var cand := Candidate(id, unlocked.value.graph.head, merged.value, Some(adopted.value), generation,
                            false, false, false, false, false, None, 0, []);
      assert cand == MergeProposal(hash, csv, before, id, replica, targetPassword, replicaPassword, v, nonce);
      MergedFits(hash, View(), cand, replica, targetPassword, replicaPassword, v, nonce);
      assert MayBegin(state, id, SaveKind) by { ReadyToSave(View(), id, SaveKind); }
      r := Publish(cand, SaveKind);
    }

    /** The backup is the committed image, or what it was just before its own success was recorded. */
    method CheckBackup(backup: Image, password: Password) returns (ok: bool)
      requires Valid() && unlocked.Some? && committed.Some?
      ensures ok <==> BackupProves(hash, View(), backup, password)
    {
      hide Agrees, Faithful, Graphs.Decodable, Images.Unlocking, HeadText;
      if backup == committed.value { return true; }
      var other := Ops.UnlockImage(hash, backup, password);
      if other.Err? { return false; }
      ActorFits(hash, View());
      UnlockedFrom(hash, backup, password);
      FaithfulDecodes(hash, backup, other.value);
      var b, g := other.value.graph, committed.value.graph;
      var theirs := ReadHead(b);
      var mine := ReadHead(g);
      ok := other.value.documentId == committed.value.documentId && other.value.slot == unlocked.value.slot
            && SupersededBy(b, g) && theirs == mine;
    }

    /** A compaction needs an explicit decision, a proven backup, a clean sealed image and the lease it names. */
    method PrepareCompaction(id: nat, v: CompactInput, password: Password, nonce: nat) returns (r: Answer)
      requires Valid()
      modifies this
      ensures Valid()
      ensures r.Ok? <==> CompactAccepted(hash, old(View()), id, v, password)
      ensures r.Ok? ==> View() == Begun(old(View()), CompactProposal(hash, old(View()), id, v, password, nonce), Compacting)
                        && r.value == Transition(state, BeginEffects(id))
      ensures r.Err? ==> View() == old(View())
    {
      hide Agrees, Faithful, Graphs.Decodable, Images.Unlocking, OpensOwn, CandidateFits, FaithfulCandidate, HeadText,
           BackupProves, Cuts.CompactedGraph, Cuts.MayCompact, Validity.Available;
      var ready := IsReady();
      if !ready || content.None? || state.edit != Editing || state.lease != Held || !state.rights.edit || !state.rights.add
         || !state.rights.remove || target.Some?
      {
        return REFUSED;
      }
      if id <= state.lastOperation { return STALE; }
      if !v.explicit || !v.clean || localSession != Some(v.session) { return Err(Ops.ContainerFailure(Images.BadArgument)); }
      ghost var before := View();
      ActorFits(hash, before);
      var authenticated := Authenticate(password);
      if authenticated.Err? { return Err(authenticated.error); }
      var backed := CheckBackup(v.backup, password);
      if !backed { return Err(Ops.ContainerFailure(Images.BadArgument)); }
      var g := unlocked.value.graph;
      var text := ReadHead(g);
      if content != text || !g.lease.active || g.lease.session != v.session || g.lease.counter != v.counter {
        return Err(Ops.ContainerFailure(Images.BadArgument));
      }
      var compacted := CompactOpen(v);
      if compacted.Err? { return Err(compacted.error); }
      var resealed := Reseal(compacted.value, password, nonce);
      var cand := Candidate(id, g.head, resealed.value.0, Some(resealed.value.1), generation,
                            false, false, false, false, false, None, 0, []);
      assert cand == CompactProposal(hash, before, id, v, password, nonce);
      PayloadFits(hash, before, cand, compacted.value, nonce, password, Compacting);
      assert MayBegin(state, id, Compacting) by { ReadyToSave(before, id, Compacting); }
      r := Publish(cand, Compacting);
    }

    /** The retention service on the open graph, with the flags its decoding left. */
    method CompactOpen(v: CompactInput) returns (r: Result<Graphs.Graph, Failure>)
      requires Valid() && unlocked.Some? && OwnSlot(View()) < |unlocked.value.graph.slots|
      ensures unlocked.value.graph.records != []
      ensures var g := unlocked.value.graph;
              var k := History.ChosenCutoff(g.records, v.retain);
              && (r.Ok? <==> Cuts.CompactAllowed(g, k, CompactOf(unlocked.value, v)) && |g.records| < Records.DEFAULT_LIMITS.maxEntries)
              && (r.Ok? ==> r.value == Cuts.CompactedGraph(hash, g, k, CompactOf(unlocked.value, v))
                            && Graphs.Decodable(hash, r.value, Records.DEFAULT_LIMITS) && r.value.slots == g.slots)
    {
      hide Agrees, Faithful, Graphs.Decodable, Cuts.MayCompact, Validity.Available, Validity.LineAfter;
      var g := unlocked.value.graph;
      ActorFits(hash, View());
      var k := Ops.FindSlot(g.slots, unlocked.value.slot);
      var decoded := Builders.Decode(hash, g, Records.DEFAULT_LIMITS);
      var request := Cuts.CompactRequest(g.slots[k], v.clientName, v.clientEmail, v.device, v.timestamp);
      var compacted := Builders.CompactGraph(hash, g, decoded.value, v.retain, request);
      if compacted.Err? { return Err(Ops.FormatFailure(compacted.error)); }
      Cuts.CompactCloses(hash, g, History.ChosenCutoff(g.records, v.retain), request);
      return Ok(compacted.value);
    }

    // ---------- Text and advice ----------

    /** Text is taken only by an editing session, and never behind an activity's back. */
    method SubmitContent(text: Bytes) returns (r: Result<bool, Failure>)
      requires Valid()
      modifies this
      ensures Valid()
      ensures r.Ok? <==> SubmitAccepted(csv, old(View()), text)
      ensures View() == if r.Ok? then Submitted(old(View()), text) else old(View())
    {
      hide Agrees, Faithful, CanonicalText;
      if state.access != ContainerState.Opened || state.screen != Unlocked || state.edit != Editing || !state.rights.edit
         || state.attention != Calm || pending.Some? || (candidate.Some? && candidate.value.activityBackup.Some?)
      {
        return Err(Ops.StateFailure(InvalidTransition));
      }
      if |text| > Records.DEFAULT_LIMITS.maxText { return Err(Ops.ContainerFailure(Images.TooLarge)); }
      var canonical := ValidCanonicalDocumentText(text);
      if !canonical { return Err(Ops.ContainerFailure(Images.BadArgument)); }
      ghost var before := View();
      EditorHasData(before);
      if unlocked.value.contentType == 1 && !csv(text) { return Err(Ops.ContainerFailure(Images.BadArgument)); }
      content := Some(text);
      generation := generation + 1;
      SubmittedAgrees(hash, before, text);
      return Ok(true);
    }

    method AdviseLeaseEntry(suspended: int, suspendedCounter: nat, now: nat, still: nat) returns (r: Result<Leases.Entry, Failure>)
      requires Valid()
      ensures r.Ok? <==> AdviceGuard(View())
      ensures r.Ok? ==> committed.Some? && r.value == Leases.Advice(committed.value.graph.lease, StandingOf(View()), suspended,
                                                                   suspendedCounter, now, still)
    {
      hide Agrees, Faithful;
      if unlocked.None? || state.access != ContainerState.Opened || state.screen != Unlocked || state.phase != Idle
         || state.attention != Calm || !state.rights.edit || state.edit != ReadOnly || unlocked.value.mustBeChanged
      {
        return Err(Ops.StateFailure(InvalidTransition));
      }
      OwnSlotFits(hash, View());
      var lease := unlocked.value.graph.lease;
      if !lease.active { return Ok(Leases.EnterAcquire); }
      var local := localSession == Some(suspended) && lease.session == suspended;
      if local && lease.counter != suspendedCounter { return Ok(Leases.EnterChanged); }
      var advanced := now >= lease.holderUtc;
      var age := if advanced then now - lease.holderUtc else 0;
      if local && advanced && age < lease.duration { return Ok(Leases.EnterResume); }
      if (advanced && age >= lease.duration) || still >= lease.duration { return Ok(Leases.EnterTakeover); }
      if !advanced || unlocked.value.owner || unlocked.value.recovery { return Ok(Leases.EnterConfirm); }
      return Ok(Leases.EnterBlocked);
    }

    // ---------- Host outcomes ----------

    /** The host reports once how the pending activity went. */
    method CompleteActivity(id: nat, succeeded: bool) returns (r: Answer)
      requires Valid()
      modifies this
      ensures Valid()
      ensures r.Ok? <==> old(pending.Some? && pending.value.operation == id && pending.value.succeeded.None?)
      ensures r.Ok? ==> View() == old(View()).(state := old(state).(phase := OutcomePending),
                                               pending := Some(old(pending.value).(succeeded := Some(succeeded))))
                        && r.value.effects == [Effect(if succeeded then RecordSuccess else RecordFailure, id),
                                               Effect(JournalActivityOutcome, id)]
      ensures r.Err? ==> r == STALE && View() == old(View())
    {
      hide Agrees, Faithful, Apply, Install, Rejects;
      if pending.None? || pending.value.operation != id || pending.value.succeeded.Some? { return STALE; }
      ghost var before := View();
      CompletionIsDue(before, id, succeeded);
      OnlyAnswersReject(before, CompleteHostAction(id, succeeded));
      CompleteKeepsAgreement(before, id, succeeded);
      var installed := InstallTransition(CompleteHostAction(id, succeeded));
      pending := Some(pending.value.(succeeded := Some(succeeded)));
      InstallKeepsFaithful(hash, before, CompleteHostAction(id, succeeded));
      PendingIsFaithful(hash, Install(before, CompleteHostAction(id, succeeded)).value.core, View());
      return Ok(installed.value);
    }

    /** A journalled outcome is taken up again only against the very image whose last record is the attempt. */
    method RestoreActivityOutcome(id: nat, head: int, backup: bool, succeeded: bool, observed: Image) returns (r: Answer)
      requires Valid()
      modifies this
      ensures Valid()
      ensures r.Ok? <==> old(RestoreGuard(View())) && id > old(state.lastOperation)
                         && AttemptIsLast(old(View()), head, backup, observed)
      ensures r.Ok? ==> View() == old(View()).(
                state := old(state).(phase := OutcomePending, operation := Some(id), lastOperation := id,
                                     purpose := Some(AttemptPurposeOf(backup))),
                pending := Some(Pending(id, head, backup, Some(succeeded))))
      ensures r.Err? ==> View() == old(View())
    {
      hide Agrees, Faithful, Apply, Install, Rejects, Graphs.Decodable, Ready;
      var ready := IsReady();
      if !ready || pending.Some? || unlocked.value.mustBeChanged { return REFUSED; }
      if Some(observed) != committed { return REFUSED; }
      ghost var before := View();
      ActorFits(hash, before);
      var g := unlocked.value.graph;
      Saves.TailFacts(hash, g);
      var last := g.records[|g.records| - 1];
      if g.head != head || last.imm.kind != Records.Event || last.imm.author.slot != unlocked.value.slot
         || !EventNamed(last, AttemptName(backup))
      {
        return REFUSED;
      }
      var request := RestoreActivity(id, AttemptPurposeOf(backup));
      OnlyAnswersReject(before, request);
      InstallNeedsApply(before, request);
      RestorationIsDue(before, id, backup);
      var installed := InstallTransition(request);
      if installed.Err? { return Err(Ops.StateFailure(installed.error)); }
      var owed := Pending(id, head, backup, Some(succeeded));
      RestoreKeepsAgreement(before, id, AttemptPurposeOf(backup), owed);
      InstallKeepsFaithful(hash, before, request);
      pending := Some(owed);
      PendingIsFaithful(hash, Install(before, request).value.core, View());
      return Ok(installed.value);
    }
  }
}
