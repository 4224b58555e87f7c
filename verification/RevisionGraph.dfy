/** The decoded graph and the complete set of checks decoding performs on it. */
module RevisionGraph {
  import opened Wrappers
  import opened RevisionRecords
  import opened GraphValidity

  /** Ordered password slot metadata; roles are 0 owner, 1 ordinary, 2 recovery. */
  datatype Slot = Slot(
    id: SlotId, managementId: SlotId, permissions: nat, role: nat,
    mustBeChanged: bool, name: string, email: string)

  datatype Lease = Lease(
    active: bool, session: SlotId, counter: nat, holderUtc: nat, duration: nat,
    holderName: string, holderEmail: string, device: string)

  datatype Graph = Graph(
    records: seq<Record>, head: RevisionId, contentHead: RevisionId, slots: seq<Slot>, lease: Lease)

  datatype Error =
    | InvalidArgument | Malformed | LimitExceeded
    | UnrelatedTarget | Rollback | UnavailableBase

  const EDIT := 1
  const ADD := 2
  const REMOVE := 4

  /** Bit tests on the three permission bits. */
  predicate Allows(permissions: nat, bit: nat) {
    bit > 0 && permissions / bit % 2 == 1
  }

  const NO_SESSION: SlotId := 0

  predicate GoodSlot(slots: seq<Slot>, i: nat)
    requires i < |slots|
  {
    var s := slots[i];
    && s.permissions <= 7 && s.role <= 2 && (i == 0) == (s.role == 0)
    && (s.role == 2 ==> i + 1 == |slots|)
    && (s.role != 1 ==> s.permissions == 7 && !s.mustBeChanged)
    && (s.role != 2 ==> s.name != "" && (s.mustBeChanged || s.email != ""))
  }

  /** What parsing the slot array accepts: one owner first, at most one recovery slot, last. */
  predicate GoodSlots(slots: seq<Slot>) {
    && 1 <= |slots| <= 9
    && (forall i, j | 0 <= i < j < |slots| ::
          slots[i].id != slots[j].id && slots[i].managementId != slots[j].managementId)
    && (forall i | 0 <= i < |slots| :: GoodSlot(slots, i))
  }

  predicate GoodLease(lease: Lease) {
    && 0 < lease.duration <= MAX_TIME && lease.holderUtc <= MAX_TIME
    && (if lease.active
        then lease.session != NO_SESSION && lease.holderName != "" && lease.holderEmail != "" && lease.device != ""
        else lease.session == NO_SESSION && lease.holderName == "" && lease.holderEmail == "" && lease.device == "")
  }

  ghost predicate GoodRecords(rs: seq<Record>, limits: Limits) {
    forall i | 0 <= i < |rs| :: GoodRecord(rs[i], limits)
  }

  /** Everything decoding checks. */
  ghost predicate Decodable(hash: Hash, g: Graph, limits: Limits) {
    && |g.records| <= limits.maxEntries
    && GoodRecords(g.records, limits)
    && SealedBy(hash, g.records)
    && GoodSlots(g.slots)
    && GoodLease(g.lease)
    && ValidGraph(g.records, g.head, g.contentHead, limits)
  }

  /** The tail of a saved but unpublished draft. */
  predicate HasProvisional(g: Graph) {
    g.records != [] && g.records[|g.records| - 1].provisional
  }

  /** One more good, sealed record. */
  lemma AppendGood(hash: Hash, rs: seq<Record>, r: Record, limits: Limits)
    requires GoodRecords(rs, limits) && SealedBy(hash, rs) && GoodRecord(r, limits) && r.id == hash(r.imm)
    ensures GoodRecords(rs + [r], limits) && SealedBy(hash, rs + [r])
  {
    hide GoodRecord;
  }
}
