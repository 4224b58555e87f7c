/**
 * What the published clock of the editing lease is for (src/container/container.cpp, advise_lease_entry and
 * prepare_lease_change), said in the time of the last change and the duration it asked for.
 */
module LeaseTime {
  import opened Wrappers
  import opened RevisionRecords
  import opened RevisionGraph
  import opened LeaseProtocol

  /** Publication k changed the lease, and none after it up to n did. */
  predicate LastChange(ps: seq<Publication>, k: nat, n: nat) {
    k < n <= |ps| && ps[k].Change? && forall i | k < i < n :: !ps[i].Change?
  }

  /** The stored lease is what the last change asked for: its session, clock, duration and names, or nobody's. */
  lemma {:induction false} LeaseIsLastChange(ws: seq<World>, ps: seq<Publication>, k: nat, n: nat)
    requires History(ws, ps) && LastChange(ps, k, n)
    ensures var lease, c := ws[n].lease, ps[k].change;
            && lease.holderUtc == c.now && lease.duration == c.duration && c.duration > 0
            && (c.action == Release ==>
                  !lease.active && lease.session == NO_SESSION && lease.holderName == "" && lease.holderEmail == "" && lease.device == "")
            && (c.action != Release ==>
                  lease.active && lease.session == c.session && lease.holderName == c.holderName
                  && lease.holderEmail == c.holderEmail && lease.device == c.device)
  {
    assert Succeeds(ws[n - 1], ps[n - 1]) && ws[n] == Published(ws[n - 1], ps[n - 1]);
    if k + 1 < n { LeaseIsLastChange(ws, ps, k, n - 1); }
  }

  /** A change asked for by somebody other than the session, without the owner's or the recovery slot's standing. */
  predicate Stranger(p: Publication, session: SlotId) {
    p.Change? && p.change.session != session && !p.privileged
  }

  /**
   * Until a lease taken or refreshed at time t for duration d runs out, a stranger who has not watched it stand
   * still for that long is advised that it is blocked, and everything it asks for is refused.
   */
  lemma BlockedUntilDue(ws: seq<World>, ps: seq<Publication>, k: nat, n: nat, t: nat, d: nat, p: Publication)
    requires History(ws, ps) && LastChange(ps, k, n) && ps[k].change.action != Release
    requires t == ps[k].change.now && d == ps[k].change.duration
    requires Stranger(p, ps[k].change.session) && t <= p.change.now < t + d && p.change.still < d
    ensures !Succeeds(ws[n], p)
    ensures forall counter: nat ::
              Advice(ws[n].lease, StandingOf(ws[n], p), p.change.session, counter, p.change.now, p.change.still) == EnterBlocked
  {
    LeaseIsLastChange(ws, ps, k, n);
  }

  /** A complete, explicit takeover by a fresh session that has seen the lease as it stands. */
  predicate WitnessedTakeover(c: LeaseChange, lease: Lease) {
    && c.action == Takeover && c.explicit && c.session != lease.session && c.session != NO_SESSION
    && 0 < c.duration <= MAX_TIME && c.now <= MAX_TIME && c.holderName != "" && c.holderEmail != "" && c.device != ""
    && c.expectedActive && c.expectedSession == lease.session && c.expectedCounter == lease.counter
    && c.expectedHolderUtc == lease.holderUtc && c.expectedDuration == lease.duration
  }

  /** From t + d on, or once it has been watched standing still for d, it is free to be taken over. */
  lemma FreeWhenDue(ws: seq<World>, ps: seq<Publication>, k: nat, n: nat, t: nat, d: nat, p: Publication)
    requires History(ws, ps) && LastChange(ps, k, n) && ps[k].change.action != Release
    requires t == ps[k].change.now && d == ps[k].change.duration
    requires p.Change? && WitnessedTakeover(p.change, ws[n].lease) && ws[n].lease.counter != MAX_COUNTER
    requires p.change.now >= t + d || p.change.still >= d
    ensures Succeeds(ws[n], p)
    ensures forall counter: nat ::
              Advice(ws[n].lease, StandingOf(ws[n], p), p.change.session, counter, p.change.now, p.change.still) == EnterTakeover
  {
    LeaseIsLastChange(ws, ps, k, n);
  }

  /** The holder itself is let back in for as long as nothing has changed, and told when something has. */
  lemma HolderReturns(ws: seq<World>, ps: seq<Publication>, k: nat, n: nat, t: nat, d: nat, who: Standing, counter: nat,
                      now: nat, still: nat)
    requires History(ws, ps) && LastChange(ps, k, n) && ps[k].change.action != Release
    requires t == ps[k].change.now && d == ps[k].change.duration && who.session == Some(ps[k].change.session)
    ensures var advice := Advice(ws[n].lease, who, ps[k].change.session, counter, now, still);
            && (counter != ws[n].lease.counter ==> advice == EnterChanged)
            && (counter == ws[n].lease.counter && t <= now < t + d ==> advice == EnterResume)
            && (counter == ws[n].lease.counter && now >= t + d ==> advice == EnterTakeover)
  {
    LeaseIsLastChange(ws, ps, k, n);
  }

  /** A lease given back is anybody's. */
  lemma FreeWhenReleased(ws: seq<World>, ps: seq<Publication>, k: nat, n: nat, p: Publication)
    requires History(ws, ps) && LastChange(ps, k, n) && ps[k].change.action == Release
    requires p.Change? && p.change.action == Acquire && p.change.session != NO_SESSION
    requires 0 < p.change.duration <= MAX_TIME && p.change.now <= MAX_TIME
    requires p.change.holderName != "" && p.change.holderEmail != "" && p.change.device != ""
    requires !p.change.expectedActive && p.change.expectedSession == NO_SESSION
    requires p.change.expectedCounter == ws[n].lease.counter != MAX_COUNTER
    requires p.change.expectedHolderUtc == ps[k].change.now && p.change.expectedDuration == ps[k].change.duration
    ensures Succeeds(ws[n], p)
    ensures forall who, session, counter: nat, now, still ::
              Advice(ws[n].lease, who, session, counter, now, still) == EnterAcquire
  {
    LeaseIsLastChange(ws, ps, k, n);
  }

  /** What each kind of change takes, besides a complete request that has seen the lease as it stands. */
  predicate Earned(w: World, p: Publication)
    requires p.Change?
  {
    var c, lease := p.change, w.lease;
    var holder := lease.active && c.session == lease.session && p.client in w.sessions && w.sessions[p.client] == lease.session;
    match c.action
    case Acquire => !lease.active
    case Refresh => holder && p.editing
    case Resume => holder && !p.editing
    case Release => holder
    case Takeover =>
      lease.active && c.session != lease.session && c.explicit
      && (c.now >= lease.holderUtc + lease.duration || c.still >= lease.duration || p.privileged)
  }

  /** The request names a session, a time, a duration and, unless it gives the lease back, who holds it. */
  predicate WellMade(c: LeaseChange, lease: Lease) {
    && c.session != NO_SESSION && 0 < c.duration <= MAX_TIME && c.now <= MAX_TIME
    && (c.action != Release ==> c.holderName != "" && c.holderEmail != "" && c.device != "")
    && c.expectedActive == lease.active && c.expectedSession == lease.session && c.expectedCounter == lease.counter
    && c.expectedHolderUtc == lease.holderUtc && c.expectedDuration == lease.duration && lease.counter < 0xFFFF_FFFF_FFFF_FFFF
  }

  /** A change is granted exactly if it is well made and earned. */
  lemma GrantedExactly(w: World, p: Publication)
    requires p.Change? && GoodLease(w.lease) && w.lease.counter <= 0xFFFF_FFFF_FFFF_FFFF
    ensures Succeeds(w, p) <==> WellMade(p.change, w.lease) && Earned(w, p)
  {
  }
}
