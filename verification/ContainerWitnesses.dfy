/** Runs of calls on a new container that do what one might not expect. */
module ContainerWitnesses {
  import opened Wrappers
  import opened TextValidation
  import opened ContainerState
  import opened ContainerCore
  import opened ContainerAgreement
  import opened Proposals
  import opened CredentialProposal
  import opened ContainerRequests
  import opened ContainerSteps
  import opened ContainerCalls
  import opened ContainerRuns
  import opened ContainerText
  import Graphs = RevisionGraph
  import Images = Envelope
  import Slots = PasswordSlots
  import Credentials = CredentialChange
  import Creations = DocumentCreation
  import Records = RevisionRecords
  import Validity = GraphValidity
  import Events = AppendEvent
  import Lines = Lineage
  import Merging = MergeSave
  import MergeSpec = MergeGraphs
  import Leases = LeaseProtocol

  // ---------- A new document ----------

  const OWN: Password := [1]
  const OTHER: Password := [2]
  const NEW_DOCUMENT :=
    Creations.Creation("owner", "owner@example.org", "desk", [], 0, 0, OWN, Some(OTHER))
  const DRAWS := Creations.Draws(7, 1, 0, 10, 20, 11, 21, 100, 101)

  function First(env: Env): Image {
    Creations.CreatedImage(env.hash, NEW_DOCUMENT, DRAWS)
  }

  /** An image of the new document, whatever lease it carries. */
  function WithLease(env: Env, lease: Graphs.Lease): Image {
    Images.WithGraph(First(env), First(env).graph.(lease := lease), 0)
  }

  lemma FirstFacts(env: Env)
    ensures var image := First(env);
            && image.documentId == 1 && image.contentType == 0 && image.nonce == 0 && |image.wrappers| == 2
            && image.graph.slots == [Graphs.Slot(10, 20, 7, 0, false, "owner", "owner@example.org"), Graphs.Slot(11, 21, 7, 2, false, "", "")]
            && image.wrappers[0].password == OWN && image.wrappers[1].password == OTHER && image.wrappers[0].key == 7
            && !image.wrappers[0].mustBeChanged && !image.wrappers[1].mustBeChanged
            && image.wrappers[1].key == 7 && image.graph.lease == Graphs.Lease(false, 0, 0, 0, 600000, "", "", "")
  {
  }

  lemma LeasedAligned(env: Env, lease: Graphs.Lease)
    requires Graphs.GoodLease(lease)
    ensures Credentials.Aligned(env.hash, WithLease(env, lease))
    ensures Graphs.Decodable(env.hash, WithLease(env, lease).graph, Records.DEFAULT_LIMITS)
  {
    hide Graphs.Decodable, Credentials.Matched, Graphs.GoodLease;
    EmptyIsWellFormed();
    Creations.CreatedIsAligned(env.hash, NEW_DOCUMENT, DRAWS);
    Events.LeaseReplacementCloses(env.hash, First(env).graph, lease);
    Credentials.PayloadKeepsAligned(env.hash, First(env), First(env).graph.(lease := lease), 0);
  }

  /** Both passwords open the document, each to its own slot. */
  lemma LeasedOpens(env: Env, lease: Graphs.Lease)
    requires Graphs.GoodLease(lease)
    ensures var image := WithLease(env, lease);
            && Images.WellStructured(image) && |image.wrappers| == |image.graph.slots| == 2
            && Images.Unlocking(env.hash, image, OWN) == Some(Images.OpenedBy(image, 0))
            && Images.Unlocking(env.hash, image, OTHER) == Some(Images.OpenedBy(image, 1))
  {
    hide Graphs.Decodable, Graphs.GoodLease, Credentials.Paired, Images.Unlocking, Images.OpenedBy;
    LeasedAligned(env, lease);
    FirstFacts(env);
    Credentials.AlignedUnlocks(env.hash, WithLease(env, lease), 0);
    Credentials.AlignedUnlocks(env.hash, WithLease(env, lease), 1);
  }

  lemma LeasedData(env: Env, lease: Graphs.Lease)
    ensures var image := WithLease(env, lease);
            |image.wrappers| == |image.graph.slots| == 2
            && Images.OpenedBy(image, 0) == Images.Opened(1, 0, 10, 7, 7, false, true, false, image.graph)
            && Images.OpenedBy(image, 1) == Images.Opened(1, 0, 11, 7, 7, false, false, true, image.graph)
            && image.graph.lease == lease && image.documentId == 1 && image.contentType == 0
  {
    FirstFacts(env);
  }

  const FREE := Graphs.Lease(false, 0, 0, 0, 600000, "", "", "")
  const TAKEN := Graphs.Lease(true, 5, 1, 0, 60, "owner", "owner@example.org", "desk")
  const GIVEN_BACK := Graphs.Lease(false, 0, 2, 0, 60, "", "", "")

  lemma FirstIsFree(env: Env)
    ensures First(env) == WithLease(env, FREE)
  {
    FirstFacts(env);
  }

  // ---------- An editing session ----------

  const ACQUIRE := Leases.LeaseChange(Leases.Acquire, 5, false, 0, 0, 0, 600000, 0, 0, 60, "owner", "owner@example.org", "desk", false)
  const RELEASE := Leases.LeaseChange(Leases.Release, 5, true, 5, 1, 0, 60, 0, 0, 60, "", "", "", false)

  const OPENED := INITIAL.(access := ContainerState.Opened)
  const READING := OPENED.(screen := Unlocked, activeSlot := Some(10), rights := Rights(true, true, true))
  const EDITING := READING.(edit := Editing, lease := Held, lastOperation := 1)
  const LOCKED := OPENED.(lease := Held, lastOperation := 1)

  /** A session of the owner in some state, over the document with some lease. */
  function Session(env: Env, lease: Graphs.Lease, state: State, content: Option<Bytes>, generation: nat, session: Option<int>): Core {
    FirstFacts(env);
    var image := WithLease(env, lease);
    Core(state, Some(image), None, Some(1), Some(Images.OpenedBy(image, 0)), content, generation, None, None, session)
  }

  /** After opening and unlocking with the owner's password. */
  lemma OpenAndUnlock(env: Env)
    requires Records.Injective(env.hash)
    ensures var calls := [OpenDocument(First(env)), UnlockDocument(OWN)];
            Reached(env, calls) == Session(env, FREE, READING, Some(HeadText(First(env).graph)), 0, None)
  {
    hide Graphs.Decodable, Images.Unlocking, Images.OpenedBy, HeadText, First, WithLease, Records.Injective, Agrees, Faithful,
         Images.WellStructured, Images.WithGraph, Called, Reached, Sound;
    var open, unlock := OpenDocument(First(env)), UnlockDocument(OWN);
    NothingReached(env);
    OneMore(env, [], open);
    OneMore(env, [open], unlock);
    assert [] + [open] == [open] && [open] + [unlock] == [open, unlock];
    OpenFirst(env);
    UnlockFirst(env);
  }

  lemma NothingReached(env: Env)
    requires Records.Injective(env.hash)
    ensures Reached(env, []) == EMPTY
  {
  }

  lemma OneMore(env: Env, calls: seq<Call>, call: Call)
    requires Records.Injective(env.hash)
    ensures Reached(env, calls + [call]) == Called(env, Reached(env, calls), call)
  {
    hide Called, Sound;
    assert (calls + [call])[..|calls|] == calls;
  }

  const JUST_OPENED := EMPTY.(state := OPENED)

  lemma OpenFirst(env: Env)
    requires Sound(env, EMPTY)
    ensures Called(env, EMPTY, OpenDocument(First(env))) == JUST_OPENED.(committed := Some(First(env)))
  {
    hide Sound, Prepared, First, Images.WellStructured;
    FirstIsFree(env);
    FreeIsGood();
    LeasedOpens(env, FREE);
  }

  lemma FreeIsGood()
    ensures Graphs.GoodLease(FREE) && Graphs.GoodLease(TAKEN) && Graphs.GoodLease(GIVEN_BACK)
  {
  }

  lemma UnlockFirst(env: Env)
    requires Sound(env, JUST_OPENED.(committed := Some(First(env))))
    ensures Called(env, JUST_OPENED.(committed := Some(First(env))), UnlockDocument(OWN))
            == Session(env, FREE, READING, Some(HeadText(First(env).graph)), 0, None)
  {
    hide Sound, Prepared, First, WithLease, HeadText, Images.Unlocking, Images.OpenedBy, Images.WellStructured, Images.WithGraph;
    FirstIsFree(env);
    FreeIsGood();
    LeasedOpens(env, FREE);
    LeasedData(env, FREE);
  }

  // ---------- A merge that fails after its text was taken ----------

  const TYPED: Bytes := [65]

  lemma TypedIsGood()
    ensures Records.GoodWhole(TYPED, Records.DEFAULT_LIMITS)
  {
    assert EncodeAll([]) == [];
    assert EncodeAll([65]) == Encoding(65) + EncodeAll([]);
    assert Encoding(65) == TYPED;
    assert EncodeAll([65]) == TYPED;
  }

  function MergingOwnCopy(env: Env): Call {
    PrepareMerge(1, First(env), OWN, OWN, Merging.Resolution(TYPED, "owner", "owner@example.org", "desk", 0), 0)
  }

  const HOST_EDITING := READING.(edit := Editing, lease := Held)

  lemma ConfirmFirst(env: Env, text: Option<Bytes>)
    requires Sound(env, Session(env, FREE, READING, text, 0, None))
    ensures Called(env, Session(env, FREE, READING, text, 0, None), ConfirmEditLease)
            == Session(env, FREE, HOST_EDITING, text, 0, None)
  {
    hide Sound, Prepared, First, WithLease;
    LeasedData(env, FREE);
  }

  /** A replica that is no divergent version of the document never merges into it. */
  lemma OwnCopyNeverMerges(env: Env, c: Core)
    requires Sound(env, c) && c.committed == Some(First(env))
    ensures PreparedMerge(env, c, MergingOwnCopy(env)).None?
  {
    hide Sound, First, Images.Unlocking, MergeSpec.MergedGraph, Merging.BaseReadable, MergeSpec.MergeAllowed, MergeProposal,
         OpensOwn, SubmitAccepted;
    FirstIsFree(env);
    FreeIsGood();
    LeasedOpens(env, FREE);
    OpenedGraph(env);
  }

  lemma OpenedGraph(env: Env)
    ensures |WithLease(env, FREE).graph.slots| == 2 && |WithLease(env, FREE).wrappers| == 2
    ensures Images.OpenedBy(WithLease(env, FREE), 0).graph == WithLease(env, FREE).graph
  {
    FirstFacts(env);
  }

  lemma MergeFirst(env: Env, text: Option<Bytes>)
    requires Sound(env, Session(env, FREE, HOST_EDITING, text, 0, None))
    ensures Called(env, Session(env, FREE, HOST_EDITING, text, 0, None), MergingOwnCopy(env))
            == Session(env, FREE, HOST_EDITING, Some(TYPED), 1, None)
  {
    hide Sound, First, WithLease, Records.GoodWhole, PreparedMerge, Prepared;
    LeasedData(env, FREE);
    FirstIsFree(env);
    TypedIsGood();
    var c := Session(env, FREE, HOST_EDITING, text, 0, None);
    OwnCopyNeverMerges(env, c);
    assert Prepared(env, c, MergingOwnCopy(env)).None? by { MergePreparesMerge(env, c); }
  }

  lemma MergePreparesMerge(env: Env, c: Core)
    requires Sound(env, c) && PreparedMerge(env, c, MergingOwnCopy(env)).None?
    ensures Prepared(env, c, MergingOwnCopy(env)).None?
  {
    hide Sound, First, PreparedMerge;
  }

  /** A merge that prepares nothing and leaves other text behind than it found. */
  lemma FailedMergeTakesText(env: Env)
    requires Records.Injective(env.hash)
    ensures var calls := [OpenDocument(First(env)), UnlockDocument(OWN), ConfirmEditLease];
            && Reached(env, calls).content == Some(HeadText(First(env).graph)) && HeadText(First(env).graph) == []
            && Prepared(env, Reached(env, calls), MergingOwnCopy(env)).None?
            && Called(env, Reached(env, calls), MergingOwnCopy(env)).content == Some(TYPED)
            && Called(env, Reached(env, calls), MergingOwnCopy(env)).candidate.None?
  {
    hide Sound, First, WithLease, HeadText, Called, Reached, Prepared, Records.Injective;
    OpenAndUnlock(env);
    var begun := [OpenDocument(First(env)), UnlockDocument(OWN)];
    OneMore(env, begun, ConfirmEditLease);
    assert begun + [ConfirmEditLease] == [OpenDocument(First(env)), UnlockDocument(OWN), ConfirmEditLease];
    var text := Some(HeadText(First(env).graph));
    ConfirmFirst(env, text);
    MergeFirst(env, text);
    FirstIsFree(env);
    OwnCopyNeverMerges(env, Session(env, FREE, HOST_EDITING, text, 0, None));
    MergePreparesMerge(env, Session(env, FREE, HOST_EDITING, text, 0, None));
    FirstText(env);
  }

  lemma FirstText(env: Env)
    ensures HeadText(First(env).graph) == []
  {
    var rs := First(env).graph.records;
    assert Validity.LineAfter(rs, 0, Records.DEFAULT_LIMITS) == Validity.Gone;
    assert Validity.LineAfter(rs, 1, Records.DEFAULT_LIMITS) == Validity.Known([]);
  }

  // ---------- An unlock that is refused while a release is in flight ----------

  /** A lease publication of the owner's session, not yet answered. */
  function InFlight(env: Env, lease: Graphs.Lease, next: Graphs.Lease, state: State, content: Option<Bytes>, generation: nat,
                    session: Option<int>, id: nat, held: bool): Core
  {
    FirstFacts(env);
    var cand := Candidate(id, First(env).graph.head, WithLease(env, next), Some(Images.OpenedBy(WithLease(env, next), 0)), generation,
                          false, false, false, true, held, None, 5, []);
    Session(env, lease, state.(phase := Publishing, operation := Some(id), lastOperation := id, purpose := Some(LeaseChange)),
            content, generation, session).(candidate := Some(cand))
  }

  predicate LeaseTurn(lease: Graphs.Lease, next: Graphs.Lease, state: State, session: Option<int>, id: nat,
                      change: Leases.LeaseChange)
  {
    || (lease == FREE && next == TAKEN && state == READING && session == None && id == 1 && change == ACQUIRE)
    || (lease == TAKEN && next == GIVEN_BACK && state == LOCKED && session == Some(5) && id == 2 && change == RELEASE)
  }

  /** Taking the lease from an unlocked session, or giving it back from a locked one. */
  lemma LeasePrepares(env: Env, lease: Graphs.Lease, next: Graphs.Lease, state: State, content: Option<Bytes>,
                      generation: nat, session: Option<int>, id: nat, change: Leases.LeaseChange)
    requires Sound(env, Session(env, lease, state, content, generation, session))
    requires LeaseTurn(lease, next, state, session, id, change)
    ensures Called(env, Session(env, lease, state, content, generation, session), PrepareLeaseChange(id, change, OWN, 0))
            == InFlight(env, lease, next, state, content, generation, session, id, change == ACQUIRE)
  {
    hide Agrees, Faithful, Records.Injective, First, Images.Unlocking, Images.WellStructured, Images.OpenedBy, AfterUnlock,
         AfterTarget;
    var c := Session(env, lease, state, content, generation, session);
    LeasedData(env, lease);
    LeasedData(env, next);
    FreeIsGood();
    LeasedOpens(env, lease);
    LeasedOpens(env, next);
    assert LeaseAccepted(env.hash, c, id, change, OWN);
    assert Leases.NextLease(lease, change) == next;
  }

  /** The answer that takes the lease starts editing. */
  lemma AcquireAnswered(env: Env, content: Option<Bytes>)
    requires Sound(env, InFlight(env, FREE, TAKEN, READING, content, 0, None, 1, true))
    ensures Called(env, InFlight(env, FREE, TAKEN, READING, content, 0, None, 1, true), AcknowledgeSave(1, Verified))
            == Session(env, TAKEN, EDITING, content, 0, Some(5))
  {
    hide Sound, First, WithLease, Images.OpenedBy, Prepared, AfterUnlock, AfterTarget, SubmitAccepted, MergeTakes;
  }

  /** The answer that gives it back restores the open data of a locked session, and no text. */
  lemma ReleaseAnswered(env: Env)
    requires Sound(env, Forgotten(env))
    ensures Called(env, Forgotten(env), AcknowledgeSave(2, Verified))
            == Session(env, GIVEN_BACK, OPENED.(lastOperation := 2), None, 1, None)
  {
    hide Sound, First, WithLease, Images.OpenedBy, Prepared, AfterUnlock, AfterTarget, SubmitAccepted, MergeTakes;
  }

  /** The release still in flight, with nothing open any more. */
  function Forgotten(env: Env): Core {
    InFlight(env, TAKEN, GIVEN_BACK, LOCKED, Some(TYPED), 1, Some(5), 2, false).(unlocked := None, content := None)
  }

  lemma OtherIsRefused(env: Env)
    requires Sound(env, InFlight(env, TAKEN, GIVEN_BACK, LOCKED, Some(TYPED), 1, Some(5), 2, false))
    ensures var c := InFlight(env, TAKEN, GIVEN_BACK, LOCKED, Some(TYPED), 1, Some(5), 2, false);
            && Forgets(env, c, UnlockDocument(OTHER)) && Called(env, c, UnlockDocument(OTHER)) == Forgotten(env)
  {
    hide Sound, Prepared, First, WithLease, HeadText, Images.Unlocking, Images.OpenedBy, Images.WellStructured;
    FreeIsGood();
    LeasedOpens(env, TAKEN);
    LeasedData(env, TAKEN);
    FirstFacts(env);
  }

  lemma OwnReturns(env: Env)
    requires Sound(env, Session(env, GIVEN_BACK, OPENED.(lastOperation := 2), None, 1, None))
    ensures Called(env, Session(env, GIVEN_BACK, OPENED.(lastOperation := 2), None, 1, None), UnlockDocument(OWN))
            == Session(env, GIVEN_BACK, READING.(lastOperation := 2), None, 1, None)
  {
    hide Sound, Prepared, First, WithLease, HeadText, Images.Unlocking, Images.OpenedBy, Images.WellStructured;
    FreeIsGood();
    LeasedOpens(env, GIVEN_BACK);
    LeasedData(env, GIVEN_BACK);
  }

  lemma TypeAndLock(env: Env, content: Option<Bytes>)
    requires Sound(env, Session(env, TAKEN, EDITING, content, 0, Some(5)))
    ensures Called(env, Session(env, TAKEN, EDITING, content, 0, Some(5)), SubmitContent(TYPED))
            == Session(env, TAKEN, EDITING, Some(TYPED), 1, Some(5))
    ensures Requested(Session(env, TAKEN, EDITING, Some(TYPED), 1, Some(5)), Lock)
            == Session(env, TAKEN, LOCKED, Some(TYPED), 1, Some(5))
  {
    hide Sound, Prepared, First, WithLease, Records.GoodWhole;
    TypedIsGood();
    LeasedData(env, TAKEN);
  }

  /** Editing with the lease, typed text submitted, the screen locked and the lease's release in flight. */
  function UpToRelease(env: Env): seq<Call> {
    [OpenDocument(First(env)), UnlockDocument(OWN), PrepareLeaseChange(1, ACQUIRE, OWN, 0), AcknowledgeSave(1, Verified),
     SubmitContent(TYPED), Request(Lock), PrepareLeaseChange(2, RELEASE, OWN, 0)]
  }

  lemma ReachesRelease(env: Env)
    requires Records.Injective(env.hash)
    ensures Reached(env, UpToRelease(env)) == InFlight(env, TAKEN, GIVEN_BACK, LOCKED, Some(TYPED), 1, Some(5), 2, false)
  {
    hide Sound, First, Session, InFlight, HeadText, Called, Reached, Records.Injective, Requested;
    OpenAndUnlock(env);
    var text := Some(HeadText(First(env).graph));
    var a := [OpenDocument(First(env)), UnlockDocument(OWN)];
    var b := a + [PrepareLeaseChange(1, ACQUIRE, OWN, 0)];
    var c := b + [AcknowledgeSave(1, Verified)];
    var d := c + [SubmitContent(TYPED)];
    var e := d + [Request(Lock)];
    var f := e + [PrepareLeaseChange(2, RELEASE, OWN, 0)];
    OneMore(env, a, PrepareLeaseChange(1, ACQUIRE, OWN, 0));
    LeasePrepares(env, FREE, TAKEN, READING, text, 0, None, 1, ACQUIRE);
    OneMore(env, b, AcknowledgeSave(1, Verified));
    AcquireAnswered(env, text);
    OneMore(env, c, SubmitContent(TYPED));
    TypeAndLock(env, text);
    OneMore(env, d, Request(Lock));
    LockIsRequested(env, Session(env, TAKEN, EDITING, Some(TYPED), 1, Some(5)));
    OneMore(env, e, PrepareLeaseChange(2, RELEASE, OWN, 0));
    LeasePrepares(env, TAKEN, GIVEN_BACK, LOCKED, Some(TYPED), 1, Some(5), 2, RELEASE);
    assert f == UpToRelease(env);
  }

  lemma LockIsRequested(env: Env, c: Core)
    requires Sound(env, c)
    ensures Called(env, c, Request(Lock)) == Requested(c, Lock)
  {
    hide Sound, Prepared, Requested;
  }

  /** The other password authenticates, is refused, and costs the owner's typed text. */
  lemma RefusedUnlockForgets(env: Env)
    requires Records.Injective(env.hash)
    ensures var c := Reached(env, UpToRelease(env));
            && c.content == Some(TYPED) && Forgets(env, c, UnlockDocument(OTHER))
            && Called(env, c, UnlockDocument(OTHER)) == c.(unlocked := None, content := None)
  {
    hide Sound, First, HeadText, Called, Reached, Records.Injective, Forgets;
    ReachesRelease(env);
    OtherIsRefused(env);
  }

  /** And once the release is verified, the owner's password opens a screen without any text. */
  lemma UnlockedWithoutText(env: Env) returns (calls: seq<Call>)
    requires Records.Injective(env.hash)
    ensures var c := Reached(env, calls);
            c.state.screen == Unlocked && c.unlocked.Some? && c.content.None?
            && forall id: nat, v: SaveInput, p: Password, n: nat :: Prepared(env, c, PrepareSave(id, v, p, n)).None?
  {
    hide Sound, First, HeadText, Called, Reached, Records.Injective, Forgets, InFlight;
    ReachesRelease(env);
    OtherIsRefused(env);
    var a := UpToRelease(env) + [UnlockDocument(OTHER)];
    var b := a + [AcknowledgeSave(2, Verified)];
    calls := b + [UnlockDocument(OWN)];
    OneMore(env, UpToRelease(env), UnlockDocument(OTHER));
    OneMore(env, a, AcknowledgeSave(2, Verified));
    ReleaseAnswered(env);
    OneMore(env, b, UnlockDocument(OWN));
    OwnReturns(env);
    NoSaveWithoutText(env, Reached(env, calls));
  }

  lemma NoSaveWithoutText(env: Env, c: Core)
    requires Sound(env, c) && c.content.None?
    ensures forall id: nat, v: SaveInput, p: Password, n: nat :: Prepared(env, c, PrepareSave(id, v, p, n)).None?
  {
    hide Sound, OpensOwn, HeadText, SaveProposal;
  }
}
