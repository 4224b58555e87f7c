/**
 * The public calls of a container as one function on what it holds, and what every
 * sequence of calls from a new container keeps (src/container/container.cpp).
 */
module ContainerCalls {
  import opened Wrappers
  import opened TextValidation
  import opened ContainerState
  import opened ContainerCore
  import opened ContainerAgreement
  import opened Proposals
  import opened CredentialProposal
  import opened ContainerRequests
  import opened ContainerSteps
  import Graphs = RevisionGraph
  import Images = Envelope
  import Slots = PasswordSlots
  import Credentials = CredentialChange
  import Records = RevisionRecords
  import Saves = SaveContent
  import Events = AppendEvent
  import Cuts = Compaction
  import History = HistoryService
  import Merging = MergeSave
  import Leases = LeaseProtocol

  /** What a container is given once and for all. */
  datatype Env = Env(hash: Hash, csv: Csv, hex: Records.RevisionId -> string)

  /** Every call that may change a container, with everything it is given. */
  datatype Call =
    | OpenDocument(image: Image)
    | UnlockDocument(password: Password)
    | ApplyTargetDocument(observed: Image, password: Password)
    | SubmitContent(text: Bytes)
    | ConfirmEditLease
    | PrepareLeaseChange(id: nat, change: Leases.LeaseChange, password: Password, nonce: nat)
    | PrepareSave(id: nat, save: SaveInput, password: Password, nonce: nat)
    | PrepareMerge(id: nat, replica: Image, password: Password, replicaPassword: Password,
                   resolution: Merging.Resolution, nonce: nat)
    | PrepareCompaction(id: nat, compact: CompactInput, password: Password, nonce: nat)
    | PrepareSlotChange(id: nat, slotChange: Slots.SlotChange, context: Credentials.Context, password: Password)
    | PrepareActivityAttempt(id: nat, backup: bool, clean: bool, observed: Image, password: Password,
                             client: ClientInput, nonce: nat)
    | PrepareActivityOutcome(id: nat, observed: Image, password: Password, client: ClientInput, nonce: nat)
    | CompleteActivity(id: nat, succeeded: bool)
    | RestoreActivityOutcome(id: nat, head: int, backup: bool, succeeded: bool, observed: Image)
    | AcknowledgeSave(id: nat, outcome: Outcome)
    | ResolveSave(id: nat, published: bool)
    | Request(attempt: Attempt)

  /** What every container satisfies between calls. */
  ghost predicate Sound(env: Env, c: Core) {
    Records.Injective(env.hash) && Agrees(c) && Faithful(env.hash, c)
  }

  // ---------- Preparations ----------

  function PendingDetail(env: Env, c: Core): string {
    "attempt=" + env.hex(if c.pending.Some? then c.pending.value.head else 0)
  }

  ghost function PreparedAttempt(env: Env, c: Core, call: Call): Option<Candidate>
    requires Sound(env, c) && call.PrepareActivityAttempt?
  {
    var PrepareActivityAttempt(id, backup, clean, observed, password, v, nonce) := call;
    if !AttemptAccepted(env.hash, c, id, backup, clean, observed, password, v) then None
    else
      ActorFits(env.hash, c);
      var e := ActivityEvent(c.unlocked.value, AttemptName(backup), "", 0, v);
      Some(EventProposal(env.hash, c, id, e, password, nonce).(activityBackup := Some(backup)))
  }

  ghost function PreparedOutcome(env: Env, c: Core, call: Call): Option<Candidate>
    requires Sound(env, c) && call.PrepareActivityOutcome?
  {
    var PrepareActivityOutcome(id, observed, password, v, nonce) := call;
    if !OutcomeAccepted(env.hash, c, id, observed, password, PendingDetail(env, c), v) then None
    else
      ActorFits(env.hash, c);
      Some(EventProposal(env.hash, c, id, OutcomeEvent(c.unlocked.value, c.pending.value, PendingDetail(env, c), v),
                         password, nonce))
  }

  ghost function PreparedMerge(env: Env, c: Core, call: Call): Option<Candidate>
    requires Sound(env, c) && call.PrepareMerge?
  {
    var PrepareMerge(id, replica, password, replicaPassword, v, nonce) := call;
    if !MergeAccepted(env.hash, env.csv, c, id, replica, password, replicaPassword, v) then None
    else Some(MergeProposal(env.hash, env.csv, c, id, replica, password, replicaPassword, v, nonce))
  }

  ghost function PreparedChange(env: Env, c: Core, call: Call): Option<Candidate>
    requires Sound(env, c) && call.PrepareSlotChange?
  {
    var PrepareSlotChange(id, ch, x, password) := call;
    if !ChangeAccepted(env.hash, c, id, ch, x, password) then None
    else Some(ChangeProposal(env.hash, c, id, ch, x, password))
  }

  ghost function PreparedLease(env: Env, c: Core, call: Call): Option<Candidate>
    requires Sound(env, c) && call.PrepareLeaseChange?
  {
    var PrepareLeaseChange(id, change, password, nonce) := call;
    if !LeaseAccepted(env.hash, c, id, change, password) then None
    else Some(LeaseProposal(env.hash, c, id, change, password, nonce))
  }

  ghost function PreparedSave(env: Env, c: Core, call: Call): Option<Candidate>
    requires Sound(env, c) && call.PrepareSave?
  {
    var PrepareSave(id, v, password, nonce) := call;
    if !SaveAccepted(env.hash, env.csv, c, id, v, password) then None
    else Some(SaveProposal(env.hash, env.csv, c, id, v, password, nonce))
  }

  ghost function PreparedCompaction(env: Env, c: Core, call: Call): Option<Candidate>
    requires Sound(env, c) && call.PrepareCompaction?
  {
    var PrepareCompaction(id, v, password, nonce) := call;
    if !CompactAccepted(env.hash, c, id, v, password) then None
    else Some(CompactProposal(env.hash, c, id, v, password, nonce))
  }

  /** The proposal a call leads to, if the call prepares one and is accepted. */
  ghost function Prepared(env: Env, c: Core, call: Call): Option<Candidate>
    requires Sound(env, c)
  {
    match call
    case PrepareSave(_, _, _, _) => PreparedSave(env, c, call)
    case PrepareMerge(_, _, _, _, _, _) => PreparedMerge(env, c, call)
    case PrepareCompaction(_, _, _, _) => PreparedCompaction(env, c, call)
    case PrepareSlotChange(_, _, _, _) => PreparedChange(env, c, call)
    case PrepareLeaseChange(_, _, _, _) => PreparedLease(env, c, call)
    case PrepareActivityAttempt(_, _, _, _, _, _, _) => PreparedAttempt(env, c, call)
    case PrepareActivityOutcome(_, _, _, _, _) => PreparedOutcome(env, c, call)
    case _ => None
  }

  /** What the publication a call prepares is for. */
  function PurposeOf(call: Call): Purpose {
    match call
    case PrepareCompaction(_, _, _, _) => Compacting
    case PrepareSlotChange(_, _, _, _) => SlotChange
    case PrepareLeaseChange(_, _, _, _) => LeaseChange
    case PrepareActivityAttempt(_, backup, _, _, _, _, _) => AttemptPurposeOf(backup)
    case PrepareActivityOutcome(_, _, _, _, _) => ActivityOutcome
    case _ => SaveKind
  }

  /** A merge takes its resolved text before it looks at the replicas. */
  ghost predicate MergeTakes(env: Env, c: Core, call: Call) {
    call.PrepareMerge? && MergeGuard(c) && Fresh(c, call.id) && call.password != [] && call.replicaPassword != []
    && SubmitAccepted(env.csv, c, call.resolution.content)
  }

  ghost function WithTakenText(env: Env, c: Core, call: Call): Core {
    if MergeTakes(env, c, call) then Submitted(c, call.resolution.content) else c
  }

  // ---------- Every call ----------

  predicate HostRequest(a: Attempt) {
    a.Lock? || a.Close? || a.ReleaseEdit? || a.RaiseAttention?
  }

  function Requested(c: Core, a: Attempt): Core {
    if !HostRequest(a) || Apply(c.state, a).Err? then c
    else if a.Close? then EMPTY.(state := INITIAL.(lastOperation := c.state.lastOperation), generation := c.generation)
    else c.(state := Apply(c.state, a).value.state)
  }

  function Answered(c: Core, id: nat, a: Attempt): Core {
    if c.candidate.None? || c.candidate.value.operation != id then c
    else match Install(c, a)
      case Ok(i) => i.core
      case Err(_) => c
  }

  ghost function AfterUnlock(env: Env, c: Core, password: Password): Core {
    if !UnlockAdmitted(env.hash, env.csv, c, password) then c
    else
      var o := Authenticated(env.hash, env.csv, c, password);
      match UnlockedCore(c, o, HeadText(o.graph))
      case Ok(i) => i.core
      case Err(_) => AfterRefusal(c, o)
  }

  ghost function AfterTarget(env: Env, c: Core, image: Image, password: Password): Core {
    if !TargetAccepted(env.hash, c, image, password) then c
    else
      var o := Images.Unlocking(env.hash, image, password).value;
      match Install(c.(target := Some(image)),
                    ApplyTarget(TargetRights(c, o), WrapperMoved(env.hash, c, image, o, password)))
      case Ok(i) => i.core
      case Err(_) => c
  }

  function AfterConfirm(c: Core): Core {
    if UnlockedIdle(c.state) && c.state.rights.edit && c.state.attention == Calm
       && !(c.unlocked.Some? && c.unlocked.value.mustBeChanged)
    then c.(state := c.state.(lease := Held, edit := Editing)) else c
  }

  function AfterCompletion(c: Core, id: nat, succeeded: bool): Core {
    if c.pending.Some? && c.pending.value.operation == id && c.pending.value.succeeded.None?
    then c.(state := c.state.(phase := OutcomePending), pending := Some(c.pending.value.(succeeded := Some(succeeded))))
    else c
  }

  function AfterRestore(c: Core, id: nat, head: int, backup: bool, succeeded: bool, observed: Image): Core {
    if RestoreGuard(c) && Fresh(c, id) && AttemptIsLast(c, head, backup, observed)
    then c.(state := c.state.(phase := OutcomePending, operation := Some(id), lastOperation := id,
                              purpose := Some(AttemptPurposeOf(backup))),
            pending := Some(Pending(id, head, backup, Some(succeeded))))
    else c
  }

  /** What a container holds after a call. */
  ghost function Called(env: Env, c: Core, call: Call): Core
    requires Sound(env, c)
  {
    match call
    case OpenDocument(image) =>
      if c.state.access == Closed && Images.WellStructured(image)
      then c.(committed := Some(image), state := c.state.(access := ContainerState.Opened)) else c
    case UnlockDocument(password) => AfterUnlock(env, c, password)
    case ApplyTargetDocument(image, password) => AfterTarget(env, c, image, password)
    case SubmitContent(text) => if SubmitAccepted(env.csv, c, text) then Submitted(c, text) else c
    case ConfirmEditLease => AfterConfirm(c)
    case CompleteActivity(id, succeeded) => AfterCompletion(c, id, succeeded)
    case RestoreActivityOutcome(id, head, backup, succeeded, observed) =>
      AfterRestore(c, id, head, backup, succeeded, observed)
    case AcknowledgeSave(id, outcome) => Answered(c, id, Acknowledge(id, outcome))
    case ResolveSave(id, published) => Answered(c, id, Resolve(id, published))
    case Request(a) => Requested(c, a)
    case _ =>
      var base := WithTakenText(env, c, call);
      match Prepared(env, c, call)
      case None => base
      case Some(cand) => Begun(base, cand, PurposeOf(call))
  }

  // ---------- Preparations keep everything ----------

  /** A proposal made from a sound container fits it. */
  ghost predicate Fitting(env: Env, c: Core, cand: Candidate, purpose: Purpose) {
    && Sound(env, c) && c.candidate.None? && MayBegin(c.state, cand.operation, purpose)
    && CandidateFits(c, cand, purpose) && FaithfulCandidate(env.hash, cand)
  }

  lemma SavePrepared(env: Env, c: Core, call: Call)
    requires Sound(env, c) && call.PrepareSave? && PreparedSave(env, c, call).Some?
    ensures Fitting(env, c, PreparedSave(env, c, call).value, PurposeOf(call))
  {
    hide Agrees, Faithful, Graphs.Decodable, Images.Unlocking, Saves.SaveAllowed, Saves.SaveFits, Saves.SavedGraph,
         OpensOwn, CandidateFits, FaithfulCandidate, HeadText, MayBegin, Records.Injective;
    var PrepareSave(id, v, password, nonce) := call;
    ActorFits(env.hash, c);
    var request := SaveOf(c.unlocked.value, c.content.value, v);
    SavedPayload(env.hash, c.unlocked.value.graph, request);
    ReadyToSave(c, id, SaveKind);
    PayloadFits(env.hash, c, PreparedSave(env, c, call).value, Saves.SavedGraph(env.hash, c.unlocked.value.graph, request), nonce,
                password, SaveKind);
  }

  lemma CompactionPrepared(env: Env, c: Core, call: Call)
    requires Sound(env, c) && call.PrepareCompaction? && PreparedCompaction(env, c, call).Some?
    ensures Fitting(env, c, PreparedCompaction(env, c, call).value, PurposeOf(call))
  {
    hide Agrees, Faithful, Graphs.Decodable, Images.Unlocking, OpensOwn, CandidateFits, FaithfulCandidate, HeadText,
         MayBegin, Records.Injective, BackupProves, Cuts.MayCompact;
    var PrepareCompaction(id, v, password, nonce) := call;
    ActorFits(env.hash, c);
    var g := c.unlocked.value.graph;
    var k := History.ChosenCutoff(g.records, v.retain);
    Cuts.CompactCloses(env.hash, g, k, CompactOf(c.unlocked.value, v));
    ReadyToSave(c, id, Compacting);
    PayloadFits(env.hash, c, PreparedCompaction(env, c, call).value,
                Cuts.CompactedGraph(env.hash, g, k, CompactOf(c.unlocked.value, v)), nonce, password, Compacting);
  }

  lemma MergePrepared(env: Env, c: Core, call: Call)
    requires Sound(env, c) && call.PrepareMerge? && PreparedMerge(env, c, call).Some?
    ensures MergeTakes(env, c, call)
    ensures Fitting(env, WithTakenText(env, c, call), PreparedMerge(env, c, call).value, PurposeOf(call))
  {
    hide Agrees, Faithful, Graphs.Decodable, Images.Unlocking, CandidateFits, FaithfulCandidate, MayBegin,
         Records.Injective, Merging.ReplicasMerge, Merging.MergedImage, Records.GoodWhole;
    var PrepareMerge(id, replica, password, replicaPassword, v, nonce) := call;
    EmptyOpensNothing(env.hash, c, password);
    SubmittedAgrees(env.hash, c, v.content);
    var base := Submitted(c, v.content);
    ReadyToSave(base, id, SaveKind);
    MergedFits(env.hash, base, PreparedMerge(env, c, call).value, replica, password, replicaPassword, v, nonce);
  }

  lemma ChangePrepared(env: Env, c: Core, call: Call)
    requires Sound(env, c) && call.PrepareSlotChange? && PreparedChange(env, c, call).Some?
    ensures Fitting(env, c, PreparedChange(env, c, call).value, PurposeOf(call))
  {
    hide Agrees, Faithful, Graphs.Decodable, Images.Unlocking, OpensOwn, Credentials.ChangeAllowed, Credentials.Changed,
         CandidateFits, FaithfulCandidate, HeadText, Records.Injective;
    var PrepareSlotChange(id, ch, x, password) := call;
    ChangeFits(env.hash, c, id, ch, x, password);
  }

  lemma LeasePrepared(env: Env, c: Core, call: Call)
    requires Sound(env, c) && call.PrepareLeaseChange? && PreparedLease(env, c, call).Some?
    ensures Fitting(env, c, PreparedLease(env, c, call).value, PurposeOf(call))
  {
    hide Agrees, Faithful, Images.Unlocking, OpensOwn, CandidateFits, FaithfulCandidate, Records.Injective,
         Leases.LeaseAllowed, Leases.NextLease, MayBegin;
    var PrepareLeaseChange(id, change, password, nonce) := call;
    LeaseFitsState(env.hash, c, id, change, password, nonce, PreparedLease(env, c, call).value);
  }

  lemma AttemptPrepared(env: Env, c: Core, call: Call)
    requires Sound(env, c) && call.PrepareActivityAttempt? && PreparedAttempt(env, c, call).Some?
    ensures Fitting(env, c, PreparedAttempt(env, c, call).value, PurposeOf(call))
  {
    hide Agrees, Faithful, Graphs.Decodable, Images.Unlocking, OpensOwn, CandidateFits, FaithfulCandidate, HeadText,
         Records.Injective, Events.EventAllowed, Events.EventFits, EventProposal, MayBegin;
    var PrepareActivityAttempt(id, backup, clean, observed, password, v, nonce) := call;
    ActorFits(env.hash, c);
    var e := ActivityEvent(c.unlocked.value, AttemptName(backup), "", 0, v);
    EventFitsState(env.hash, c, id, e, password, nonce, PreparedAttempt(env, c, call).value, AttemptPurposeOf(backup));
  }

  lemma OutcomePrepared(env: Env, c: Core, call: Call)
    requires Sound(env, c) && call.PrepareActivityOutcome? && PreparedOutcome(env, c, call).Some?
    ensures Fitting(env, c, PreparedOutcome(env, c, call).value, PurposeOf(call))
  {
    hide Agrees, Faithful, Graphs.Decodable, Images.Unlocking, OpensOwn, CandidateFits, FaithfulCandidate, HeadText,
         Records.Injective, Events.EventAllowed, Events.EventFits, MayBegin;
    var PrepareActivityOutcome(id, observed, password, v, nonce) := call;
    ActorFits(env.hash, c);
    var e := OutcomeEvent(c.unlocked.value, c.pending.value, PendingDetail(env, c), v);
    EventFitsState(env.hash, c, id, e, password, nonce, PreparedOutcome(env, c, call).value, ActivityOutcome);
  }

  /** Whatever is prepared fits the container once the text is taken. */
  lemma PreparedFits(env: Env, c: Core, call: Call)
    requires Sound(env, c) && Prepared(env, c, call).Some?
    ensures Fitting(env, WithTakenText(env, c, call), Prepared(env, c, call).value, PurposeOf(call))
  {
    hide Sound, Fitting, PreparedSave, PreparedMerge, PreparedCompaction, PreparedChange, PreparedLease, PreparedAttempt,
         PreparedOutcome, SubmitAccepted, MergeGuard;
    match call
    case PrepareSave(_, _, _, _) => SavePrepared(env, c, call);
    case PrepareMerge(_, _, _, _, _, _) => MergePrepared(env, c, call);
    case PrepareCompaction(_, _, _, _) => CompactionPrepared(env, c, call);
    case PrepareSlotChange(_, _, _, _) => ChangePrepared(env, c, call);
    case PrepareLeaseChange(_, _, _, _) => LeasePrepared(env, c, call);
    case PrepareActivityAttempt(_, _, _, _, _, _, _) => AttemptPrepared(env, c, call);
    case PrepareActivityOutcome(_, _, _, _, _) => OutcomePrepared(env, c, call);
  }

  lemma TakenIsSound(env: Env, c: Core, call: Call)
    requires Sound(env, c)
    ensures Sound(env, WithTakenText(env, c, call))
  {
    hide Agrees, Faithful, Records.Injective, Records.GoodWhole;
    if MergeTakes(env, c, call) { SubmittedAgrees(env.hash, c, call.resolution.content); }
  }
}
