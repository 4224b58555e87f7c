/**
 * The advisory editing lease (src/container/container.cpp, advise_lease_entry and
 * prepare_lease_change), and many clients sharing one compare-and-swapped image.
 */
module LeaseProtocol {
  import opened Wrappers
  import opened RevisionRecords
  import opened RevisionGraph

  const MAX_COUNTER: nat := 0xFFFF_FFFF_FFFF_FFFF

  datatype Action = Acquire | Refresh | Release | Resume | Takeover

  /** A requested change, with the lease the requester believes is current and its clock evidence. */
  datatype LeaseChange = LeaseChange(
    action: Action, session: SlotId,
    expectedActive: bool, expectedSession: SlotId, expectedCounter: nat, expectedHolderUtc: nat, expectedDuration: nat,
    now: nat, still: nat, duration: nat,
    holderName: string, holderEmail: string, device: string, explicit: bool)

  datatype Entry = EnterAcquire | EnterResume | EnterTakeover | EnterConfirm | EnterBlocked | EnterChanged

  // ---------- Evidence ----------

  predicate Expired(prior: Lease, now: nat) {
    now >= prior.holderUtc && now - prior.holderUtc >= prior.duration
  }

  predicate Stale(prior: Lease, still: nat) {
    still >= prior.duration
  }

  /** What lets another session take an active lease over. */
  predicate Evidence(prior: Lease, now: nat, still: nat, privileged: bool) {
    Expired(prior, now) || Stale(prior, still) || privileged
  }

  predicate Witnessed(prior: Lease, c: LeaseChange) {
    prior.active == c.expectedActive && prior.session == c.expectedSession && prior.counter == c.expectedCounter
    && prior.holderUtc == c.expectedHolderUtc && prior.duration == c.expectedDuration
  }

  // ---------- Granting ----------

  /** The requester's standing: its own session, whether it is editing, whether it is owner or recovery. */
  datatype Standing = Standing(session: Option<SlotId>, editing: bool, privileged: bool)

  predicate Granted(prior: Lease, c: LeaseChange, who: Standing) {
    var same := prior.active && prior.session == c.session;
    var local := who.session == Some(c.session);
    match c.action
    case Acquire => !prior.active
    case Refresh => same && local && who.editing
    case Resume => same && local && !who.editing
    case Release => same && local
    case Takeover => prior.active && !same && c.explicit && Evidence(prior, c.now, c.still, who.privileged)
  }

  predicate Complete(c: LeaseChange) {
    && c.session != NO_SESSION && 0 < c.duration <= MAX_TIME && c.now <= MAX_TIME
    && (c.action != Release ==> c.holderName != "" && c.holderEmail != "" && c.device != "")
  }

  predicate LeaseAllowed(prior: Lease, c: LeaseChange, who: Standing) {
    Complete(c) && Witnessed(prior, c) && Granted(prior, c, who) && prior.counter != MAX_COUNTER
  }

  function NextLease(prior: Lease, c: LeaseChange): Lease {
    var active := c.action != Release;
    var same := prior.active && prior.session == c.session;
    Lease(active, if active then c.session else NO_SESSION, if same then prior.counter + 1 else 1, c.now, c.duration,
          if active then c.holderName else "", if active then c.holderEmail else "", if active then c.device else "")
  }

  /** A granted change always encodes to a lease that decodes. */
  lemma NextLeaseGood(prior: Lease, c: LeaseChange, who: Standing)
    requires LeaseAllowed(prior, c, who)
    ensures GoodLease(NextLease(prior, c))
  {
  }

  // ---------- Advice ----------

  /** How a session that may have been suspended should enter Edit mode. */
  function Advice(lease: Lease, who: Standing, suspended: SlotId, suspendedCounter: nat, now: nat, still: nat): Entry {
    if !lease.active then EnterAcquire
    else
      var local := who.session == Some(suspended) && lease.session == suspended;
      var advanced := now >= lease.holderUtc;
      var age := if advanced then now - lease.holderUtc else 0;
      if local && lease.counter != suspendedCounter then EnterChanged
      else if local && advanced && age < lease.duration then EnterResume
      else if (advanced && age >= lease.duration) || still >= lease.duration then EnterTakeover
      else if !advanced || who.privileged then EnterConfirm
      else EnterBlocked
  }

  /** A takeover request by a session that does not hold the lease, on the evidence the advice was given. */
  predicate TakeoverOn(lease: Lease, c: LeaseChange, now: nat, still: nat) {
    c.action == Takeover && c.explicit && c.session != lease.session && c.now == now && c.still == still
    && Complete(c) && Witnessed(lease, c) && lease.counter != MAX_COUNTER
  }

  /**
   * Advice and preparation agree: a takeover that was advised is granted, one that was blocked is
   * refused, and one to be confirmed is granted exactly to the owner and the recovery slot.
   */
  lemma AdviceAgrees(lease: Lease, who: Standing, suspended: SlotId, suspendedCounter: nat, now: nat, still: nat,
                     c: LeaseChange)
    requires TakeoverOn(lease, c, now, still)
    ensures match Advice(lease, who, suspended, suspendedCounter, now, still)
            case EnterTakeover => LeaseAllowed(lease, c, who)
            case EnterConfirm => LeaseAllowed(lease, c, who) <==> who.privileged
            case EnterBlocked => !LeaseAllowed(lease, c, who)
            case EnterAcquire => !LeaseAllowed(lease, c, who)
            case _ => true
  {
  }

  /** Advised resumption and acquisition are granted to a session that is not editing. */
  lemma EntryAgrees(lease: Lease, who: Standing, suspended: SlotId, suspendedCounter: nat, now: nat, still: nat,
                    c: LeaseChange)
    requires Complete(c) && Witnessed(lease, c) && lease.counter != MAX_COUNTER && !who.editing && c.session == suspended
    ensures Advice(lease, who, suspended, suspendedCounter, now, still) == EnterResume && c.action == Resume ==>
              LeaseAllowed(lease, c, who)
    ensures Advice(lease, who, suspended, suspendedCounter, now, still) == EnterAcquire && c.action == Acquire ==>
              LeaseAllowed(lease, c, who)
    ensures Advice(lease, who, suspended, suspendedCounter, now, still) == EnterBlocked ==>
              (LeaseAllowed(lease, c, who) ==> c.action == Takeover && Evidence(lease, c.now, c.still, who.privileged))
  {
  }

  // ---------- Many clients, one image ----------

  type Client = nat

  /** The published lease and what each client believes its own session to be. */
  datatype World = World(lease: Lease, sessions: map<Client, SlotId>)

  /** One client's publication, granted against the lease it replaces, or a publication of something else. */
  datatype Publication =
    | Change(client: Client, change: LeaseChange, editing: bool, privileged: bool)
    | Other(client: Client)
    | Forget(client: Client)

  function StandingOf(w: World, p: Publication): Standing
    requires p.Change?
  {
    Standing(if p.client in w.sessions then Some(w.sessions[p.client]) else None, p.editing, p.privileged)
  }

  /** Compare-and-swap: a publication succeeds only against the very image it was prepared from. */
  predicate Succeeds(w: World, p: Publication) {
    p.Change? ==> LeaseAllowed(w.lease, p.change, StandingOf(w, p))
  }

  function Published(w: World, p: Publication): World
    requires Succeeds(w, p)
  {
    match p
    case Change(client, change, _, _) =>
      World(NextLease(w.lease, change),
            if change.action != Release then w.sessions[client := change.session] else w.sessions - {client})
    case Other(_) => w
    case Forget(client) => World(w.lease, w.sessions - {client})
  }

  ghost predicate History(ws: seq<World>, ps: seq<Publication>) {
    |ws| == |ps| + 1 && forall i | 0 <= i < |ps| :: Succeeds(ws[i], ps[i]) && ws[i + 1] == Published(ws[i], ps[i])
  }

  /** An active lease changes only by its own session or by a takeover with evidence. */
  lemma OnlyHolderOrEvidence(w: World, p: Publication)
    requires Succeeds(w, p) && w.lease.active && Published(w, p).lease != w.lease
    ensures p.Change?
    ensures (p.client in w.sessions && w.sessions[p.client] == w.lease.session && p.change.session == w.lease.session)
            || (p.change.action == Takeover && p.change.explicit && p.change.session != w.lease.session
                && Evidence(w.lease, p.change.now, p.change.still, p.privileged))
  {
  }

  /** Lease publications among positions lo to hi. */
  function Changes(ps: seq<Publication>, lo: nat, hi: nat): nat
    requires lo <= hi <= |ps|
    decreases hi - lo
  {
    if lo == hi then 0 else Changes(ps, lo, hi - 1) + (if ps[hi - 1].Change? then 1 else 0)
  }

  /** Through one tenure the counter starts at one and grows by one with every lease publication. */
  lemma {:induction false} TenureCounts(ws: seq<World>, ps: seq<Publication>, start: nat, n: nat)
    requires History(ws, ps) && start < n <= |ps|
    requires ps[start].Change? && ws[start + 1].lease.active
    requires !(ws[start].lease.active && ws[start].lease.session == ws[start + 1].lease.session)
    requires forall i | start < i <= n :: ws[i].lease.active && ws[i].lease.session == ws[start + 1].lease.session
    ensures ws[n].lease.counter == 1 + Changes(ps, start + 1, n)
  {
    assert ws[start + 1] == Published(ws[start], ps[start]);
    if n > start + 1 {
      TenureCounts(ws, ps, start, n - 1);
      assert ws[n] == Published(ws[n - 1], ps[n - 1]);
    }
  }

  /** Sessions are drawn fresh: no client starts one that another client already uses. */
  ghost predicate FreshSessions(ws: seq<World>, ps: seq<Publication>) {
    |ws| == |ps| + 1
    && forall i, other | 0 <= i < |ps| && ps[i].Change? && ps[i].change.action in {Acquire, Takeover}
                         && other in ws[i].sessions && other != ps[i].client ::
         ws[i].sessions[other] != ps[i].change.session
  }

  predicate NoSharedSession(w: World) {
    forall a, b | a in w.sessions && b in w.sessions && a != b :: w.sessions[a] != w.sessions[b]
  }

  lemma StepKeepsSessions(w: World, p: Publication)
    requires Succeeds(w, p) && NoSharedSession(w)
    requires p.Change? && p.change.action in {Acquire, Takeover} ==>
               forall other | other in w.sessions && other != p.client :: w.sessions[other] != p.change.session
    ensures NoSharedSession(Published(w, p))
  {
  }

  /** At any time at most one client can refresh, resume or release the active lease. */
  lemma {:induction false} OneHolder(ws: seq<World>, ps: seq<Publication>, n: nat)
    requires History(ws, ps) && FreshSessions(ws, ps) && NoSharedSession(ws[0]) && n < |ws|
    ensures NoSharedSession(ws[n])
    ensures forall a, b | a in ws[n].sessions && b in ws[n].sessions
              && ws[n].sessions[a] == ws[n].lease.session && ws[n].sessions[b] == ws[n].lease.session :: a == b
  {
    hide Succeeds, Published;
    if n > 0 {
      OneHolder(ws, ps, n - 1);
      StepKeepsSessions(ws[n - 1], ps[n - 1]);
    }
  }
}
