/**
 * Many containers publishing into one image that is replaced only by compare and swap: every run of
 * their publications is a run of the lease protocol.
 */
module SharedImage {
  import opened Wrappers
  import opened TextValidation
  import opened ContainerState
  import opened ContainerCore
  import opened ContainerAgreement
  import opened Proposals
  import opened ContainerRequests
  import opened ContainerCalls
  import opened LeasePublications
  import Graphs = RevisionGraph
  import Images = Envelope
  import Records = RevisionRecords
  import Events = AppendEvent
  import Leases = LeaseProtocol

  /** The stored image, and what each client takes for its own session. */
  datatype Shared = Shared(stored: Image, sessions: map<nat, int>)

  /** One client's container publishes what a call prepared, or a client closes. */
  datatype Move = Publishes(client: nat, core: Core, call: Call) | Leaves(client: nat)

  function SessionOf(s: Shared, client: nat): Option<int> {
    if client in s.sessions then Some(s.sessions[client]) else None
  }

  function WithSession(sessions: map<nat, int>, client: nat, session: Option<int>): map<nat, int> {
    if session.Some? then sessions[client := session.value] else sessions - {client}
  }

  /** The publication succeeds: it was prepared from the very image that is stored. */
  ghost predicate Swapped(env: Env, s: Shared, move: Move, after: Shared) {
    match move
    case Leaves(client) => after == Shared(s.stored, s.sessions - {client})
    case Publishes(client, c, call) =>
      && Sound(env, c) && c.committed == Some(s.stored) && c.localSession == SessionOf(s, client)
      && Prepared(env, c, call).Some?
      && (var cand := Prepared(env, c, call).value;
          after == Shared(cand.image, WithSession(s.sessions, client, Adopted(c, c.state, cand).localSession)))
  }

  function WorldAt(s: Shared): Leases.World {
    Leases.World(LeaseIn(s.stored), s.sessions)
  }

  /** The lease protocol's name for a move. */
  function PublicationOf(move: Move): Leases.Publication {
    match move
    case Leaves(client) => Leases.Forget(client)
    case Publishes(client, c, call) =>
      if call.PrepareLeaseChange? && c.unlocked.Some?
      then Leases.Change(client, call.change, c.state.edit == Editing, c.unlocked.value.owner || c.unlocked.value.recovery)
      else Leases.Other(client)
  }

  lemma SessionStays(s: Shared, client: nat)
    ensures WithSession(s.sessions, client, SessionOf(s, client)) == s.sessions
  {
  }

  /** Whatever is prepared but a lease change keeps the lease, and the client's session. */
  lemma OthersKeepLease(env: Env, c: Core, call: Call)
    requires Sound(env, c) && Prepared(env, c, call).Some? && !call.PrepareLeaseChange?
    ensures c.committed.Some?
    ensures LeaseIn(Prepared(env, c, call).value.image) == LeaseIn(c.committed.value)
    ensures Adopted(c, c.state, Prepared(env, c, call).value).localSession == c.localSession
  {
    hide Agrees, Faithful, Records.Injective, PreparedSave, PreparedMerge, PreparedCompaction, PreparedChange, PreparedLease,
         PreparedAttempt, PreparedOutcome, LeaseIn;
    match call
    case PrepareSave(_, _, _, _) => SaveKeeps(env, c, call);
    case PrepareMerge(_, _, _, _, _, _) => MergeKeeps(env, c, call);
    case PrepareCompaction(_, _, _, _) => CompactionKeeps(env, c, call);
    case PrepareSlotChange(_, _, _, _) => ChangeKeeps(env, c, call);
    case PrepareActivityAttempt(_, _, _, _, _, _, _) => ActivityKeeps(env, c, call);
    case PrepareActivityOutcome(_, _, _, _, _) => ActivityKeeps(env, c, call);
  }

  lemma SaveKeeps(env: Env, c: Core, call: Call)
    requires Sound(env, c) && call.PrepareSave? && PreparedSave(env, c, call).Some?
    ensures c.committed.Some? && LeaseIn(PreparedSave(env, c, call).value.image) == LeaseIn(c.committed.value)
    ensures !PreparedSave(env, c, call).value.leaseChange
  {
    hide Agrees, Faithful, Records.Injective, SaveAccepted, LeaseIn;
    SaveKeepsLease(env.hash, env.csv, c, call.id, call.save, call.password, call.nonce);
  }

  lemma MergeKeeps(env: Env, c: Core, call: Call)
    requires Sound(env, c) && call.PrepareMerge? && PreparedMerge(env, c, call).Some?
    ensures c.committed.Some? && LeaseIn(PreparedMerge(env, c, call).value.image) == LeaseIn(c.committed.value)
    ensures !PreparedMerge(env, c, call).value.leaseChange
  {
    hide Agrees, Faithful, Records.Injective, LeaseIn, OpensOwn, SubmitAccepted;
    MergeKeepsLease(env.hash, env.csv, c, call.id, call.replica, call.password, call.replicaPassword, call.resolution, call.nonce);
  }

  lemma CompactionKeeps(env: Env, c: Core, call: Call)
    requires Sound(env, c) && call.PrepareCompaction? && PreparedCompaction(env, c, call).Some?
    ensures c.committed.Some? && LeaseIn(PreparedCompaction(env, c, call).value.image) == LeaseIn(c.committed.value)
    ensures !PreparedCompaction(env, c, call).value.leaseChange
  {
    hide Agrees, Faithful, Records.Injective, LeaseIn, CompactAccepted;
    CompactionKeepsLease(env.hash, c, call.id, call.compact, call.password, call.nonce);
    CommittedWhenCompacting(env, c, call);
  }

  lemma CommittedWhenCompacting(env: Env, c: Core, call: Call)
    requires Sound(env, c) && call.PrepareCompaction? && CompactAccepted(env.hash, c, call.id, call.compact, call.password)
    ensures c.committed.Some?
  {
    hide Agrees, Faithful, Records.Injective, OpensOwn, BackupProves;
  }

  lemma ChangeKeeps(env: Env, c: Core, call: Call)
    requires Sound(env, c) && call.PrepareSlotChange? && PreparedChange(env, c, call).Some?
    ensures c.committed.Some? && LeaseIn(PreparedChange(env, c, call).value.image) == LeaseIn(c.committed.value)
    ensures !PreparedChange(env, c, call).value.leaseChange
  {
    hide Agrees, Faithful, Records.Injective, LeaseIn;
    CredentialChangeKeepsLease(env.hash, c, call.id, call.slotChange, call.context, call.password);
  }

  lemma ActivityKeeps(env: Env, c: Core, call: Call)
    requires Sound(env, c) && (call.PrepareActivityAttempt? || call.PrepareActivityOutcome?)
    requires Prepared(env, c, call).Some?
    ensures c.committed.Some? && LeaseIn(Prepared(env, c, call).value.image) == LeaseIn(c.committed.value)
    ensures !Prepared(env, c, call).value.leaseChange
  {
    hide Agrees, Faithful, Records.Injective, LeaseIn, OpensOwn, HeadText, Events.EventAllowed, Events.EventFits;
    ActorFits(env.hash, c);
    if call.PrepareActivityAttempt? {
      EventKeepsLease(env.hash, c, call.id, ActivityEvent(c.unlocked.value, AttemptName(call.backup), "", 0, call.client),
                      call.password, call.nonce);
    } else {
      EventKeepsLease(env.hash, c, call.id, OutcomeEvent(c.unlocked.value, c.pending.value, PendingDetail(env, c), call.client),
                      call.password, call.nonce);
    }
  }

  lemma LeaseMoves(env: Env, s: Shared, move: Move, after: Shared)
    requires Swapped(env, s, move, after) && move.Publishes? && move.call.PrepareLeaseChange?
    ensures Leases.Succeeds(WorldAt(s), PublicationOf(move))
    ensures Leases.Published(WorldAt(s), PublicationOf(move)) == WorldAt(after)
  {
    hide Agrees, Faithful, Records.Injective, LeaseAccepted, LeaseProposal, Leases.Succeeds, Leases.Published, Adopted;
    var Publishes(client, c, call) := move;
    LeaseNeedsData(env, c, call);
    SessionStays(s, client);
    LeaseChangeIsAStep(env.hash, c, call.id, call.change, call.password, call.nonce, s.stored, after.stored, client,
                       s.sessions, c.state);
  }

  lemma LeaseNeedsData(env: Env, c: Core, call: Call)
    requires Sound(env, c) && call.PrepareLeaseChange? && PreparedLease(env, c, call).Some?
    ensures c.unlocked.Some? && c.committed.Some?
    ensures LeaseAccepted(env.hash, c, call.id, call.change, call.password)
  {
    hide Agrees, Faithful, Records.Injective, OpensOwn, LeaseProposal;
  }

  /** Every successful publication, of whatever kind, is one step of the lease protocol. */
  lemma MoveIsAStep(env: Env, s: Shared, move: Move, after: Shared)
    requires Swapped(env, s, move, after)
    ensures Leases.Succeeds(WorldAt(s), PublicationOf(move))
    ensures Leases.Published(WorldAt(s), PublicationOf(move)) == WorldAt(after)
  {
    hide Sound, Prepared, Adopted, Leases.LeaseAllowed, Leases.NextLease;
    match move
    case Leaves(_) =>
    case Publishes(client, c, call) =>
      if call.PrepareLeaseChange? {
        LeaseMoves(env, s, move, after);
      } else {
        OthersKeepLease(env, c, call);
        SessionStays(s, client);
      }
  }

  // ---------- Runs ----------

  ghost predicate SharedRun(env: Env, ss: seq<Shared>, moves: seq<Move>) {
    |ss| == |moves| + 1 && forall i | 0 <= i < |moves| :: Swapped(env, ss[i], moves[i], ss[i + 1])
  }

  function Worlds(ss: seq<Shared>): (ws: seq<Leases.World>)
    ensures |ws| == |ss| && forall i | 0 <= i < |ss| :: ws[i] == WorldAt(ss[i])
  {
    seq(|ss|, i requires 0 <= i < |ss| => WorldAt(ss[i]))
  }

  function Publications(moves: seq<Move>): (ps: seq<Leases.Publication>)
    ensures |ps| == |moves| && forall i | 0 <= i < |moves| :: ps[i] == PublicationOf(moves[i])
  {
    seq(|moves|, i requires 0 <= i < |moves| => PublicationOf(moves[i]))
  }

  /** A run of publications into the shared image is a history of the lease protocol. */
  lemma RunIsAHistory(env: Env, ss: seq<Shared>, moves: seq<Move>)
    requires SharedRun(env, ss, moves)
    ensures Leases.History(Worlds(ss), Publications(moves))
  {
    hide Swapped, Leases.Succeeds, Leases.Published, WorldAt, PublicationOf;
    forall i | 0 <= i < |moves|
      ensures Leases.Succeeds(Worlds(ss)[i], Publications(moves)[i])
              && Worlds(ss)[i + 1] == Leases.Published(Worlds(ss)[i], Publications(moves)[i])
    {
      MoveIsAStep(env, ss[i], moves[i], ss[i + 1]);
    }
  }

  /** Lease changes among moves lo to hi. */
  function LeaseMovesIn(moves: seq<Move>, lo: nat, hi: nat): nat
    requires lo <= hi <= |moves|
  {
    Leases.Changes(Publications(moves), lo, hi)
  }

  /** Through one session's tenure the stored counter is one more than the lease changes since it began, whatever else is published. */
  lemma StoredCounterCounts(env: Env, ss: seq<Shared>, moves: seq<Move>, start: nat, n: nat)
    requires SharedRun(env, ss, moves) && start < n <= |moves|
    requires PublicationOf(moves[start]).Change? && LeaseIn(ss[start + 1].stored).active
    requires !(LeaseIn(ss[start].stored).active && LeaseIn(ss[start].stored).session == LeaseIn(ss[start + 1].stored).session)
    requires forall i | start < i <= n :: LeaseIn(ss[i].stored).active
                                          && LeaseIn(ss[i].stored).session == LeaseIn(ss[start + 1].stored).session
    ensures LeaseIn(ss[n].stored).counter == 1 + LeaseMovesIn(moves, start + 1, n)
  {
    hide SharedRun, LeaseIn, Leases.History, PublicationOf;
    RunIsAHistory(env, ss, moves);
    RunLengths(env, ss, moves);
    Leases.TenureCounts(Worlds(ss), Publications(moves), start, n);
  }

  lemma RunLengths(env: Env, ss: seq<Shared>, moves: seq<Move>)
    requires SharedRun(env, ss, moves)
    ensures |ss| == |moves| + 1
  {
  }

  /** Any stretch of a run without a lease change leaves the lease in the shared image exactly as it was. */
  lemma {:induction false} LeaseOutlivesEverythingElse(env: Env, ss: seq<Shared>, moves: seq<Move>, m: nat, n: nat)
    requires SharedRun(env, ss, moves) && m <= n <= |moves|
    requires forall i | m <= i < n :: !PublicationOf(moves[i]).Change?
    ensures LeaseIn(ss[n].stored) == LeaseIn(ss[m].stored)
    decreases n - m
  {
    hide Swapped, LeaseIn, PublicationOf;
    if m < n {
      LeaseOutlivesEverythingElse(env, ss, moves, m, n - 1);
      MoveIsAStep(env, ss[n - 1], moves[n - 1], ss[n]);
    }
  }
}
