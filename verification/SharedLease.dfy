/** The clock of the lease in an image that many containers publish into. */
module SharedLease {
  import opened Wrappers
  import opened RevisionRecords
  import opened ContainerCore
  import opened ContainerAgreement
  import opened Proposals
  import opened ContainerRequests
  import opened ContainerCalls
  import opened SharedImage
  import opened LeasePublications
  import opened LeaseTime
  import Leases = LeaseProtocol
  import Graphs = RevisionGraph

  /** Move k changed the lease in the stored image, and none after it up to n did. */
  ghost predicate LastTaken(env: Env, ss: seq<Shared>, moves: seq<Move>, k: nat, n: nat) {
    && SharedRun(env, ss, moves) && k < n <= |moves|
    && PublicationOf(moves[k]).Change? && forall i | k < i < n :: !PublicationOf(moves[i]).Change?
  }

  lemma LastTakenIsLast(env: Env, ss: seq<Shared>, moves: seq<Move>, k: nat, n: nat)
    requires LastTaken(env, ss, moves, k, n)
    ensures |ss| == |moves| + 1
    ensures Leases.History(Worlds(ss), Publications(moves)) && LastChange(Publications(moves), k, n)
    ensures Publications(moves)[k] == PublicationOf(moves[k]) && Worlds(ss)[n].lease == LeaseIn(ss[n].stored)
  {
    hide Swapped, PublicationOf, LeaseIn, Leases.Succeeds, Leases.Published;
    RunIsAHistory(env, ss, moves);
  }

  /**
   * A container open on the stored image for a slot that is neither the owner's nor the recovery slot, and that did not
   * take the lease.
   */
  ghost predicate Outsider(env: Env, stored: Image, c: Core, session: int) {
    && Sound(env, c) && c.committed == Some(stored) && c.unlocked.Some?
    && !c.unlocked.value.owner && !c.unlocked.value.recovery && c.localSession != Some(session)
  }

  /**
   * While the lease that a client took or refreshed at t for d has not run out, an outsider that has not watched it
   * stand still for d is advised that it is blocked, and no lease change of another session is prepared for it.
   */
  lemma OutsidersAreBlocked(env: Env, ss: seq<Shared>, moves: seq<Move>, k: nat, n: nat, t: nat, d: nat, c: Core, call: Call)
    requires LastTaken(env, ss, moves, k, n) && PublicationOf(moves[k]).change.action != Leases.Release
    requires t == PublicationOf(moves[k]).change.now && d == PublicationOf(moves[k]).change.duration
    requires n < |ss| && Outsider(env, ss[n].stored, c, PublicationOf(moves[k]).change.session)
    requires call.PrepareLeaseChange? && call.change.session != PublicationOf(moves[k]).change.session
    requires t <= call.change.now < t + d && call.change.still < d
    ensures Prepared(env, c, call).None?
    ensures forall suspended, counter: nat | suspended != PublicationOf(moves[k]).change.session ::
              Leases.Advice(ss[n].stored.graph.lease, StandingOf(c), suspended, counter, call.change.now, call.change.still)
              == Leases.EnterBlocked
  {
    hide LastTaken, PublicationOf, Agrees, Faithful, OpensOwn, LeaseProposal;
    LastTakenIsLast(env, ss, moves, k, n);
    LeaseIsLastChange(Worlds(ss), Publications(moves), k, n);
  }

  /** From t + d on, a container that asks for a witnessed takeover with its own password is granted it. */
  lemma TakeoversWhenDue(env: Env, ss: seq<Shared>, moves: seq<Move>, k: nat, n: nat, t: nat, d: nat, c: Core, call: Call)
    requires LastTaken(env, ss, moves, k, n) && PublicationOf(moves[k]).change.action != Leases.Release
    requires t == PublicationOf(moves[k]).change.now && d == PublicationOf(moves[k]).change.duration
    requires n < |ss| && Sound(env, c) && c.committed == Some(ss[n].stored) && c.unlocked.Some?
    requires call.PrepareLeaseChange? && LeaseGuard(c, Leases.Takeover) && Fresh(c, call.id) && OpensOwn(env.hash, c, call.password)
    requires WitnessedTakeover(call.change, ss[n].stored.graph.lease)
    requires ss[n].stored.graph.lease.counter != Leases.MAX_COUNTER
    requires call.change.now >= t + d || call.change.still >= d
    ensures Prepared(env, c, call).Some?
    ensures Prepared(env, c, call).value.image.graph.lease.session == call.change.session
    ensures Prepared(env, c, call).value.image.graph.lease.holderUtc == call.change.now
  {
    hide LastTaken, PublicationOf, Agrees, Faithful, OpensOwn;
    LastTakenIsLast(env, ss, moves, k, n);
    LeaseIsLastChange(Worlds(ss), Publications(moves), k, n);
  }
}
