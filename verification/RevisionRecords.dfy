/** Records of the revision graph, as decoding leaves them (src/format/revision_graph.hpp). */
module RevisionRecords {
  import opened Wrappers
  import opened TextValidation

  /** A 32-byte digest, read as a number. */
  type RevisionId = int
  type SlotId = int

  datatype Kind = Baseline | Content | Event

  /** The six storage codes, in the order of their numbers. */
  datatype Storage = Bodyless | Snapshot | Delta | Checkpoint | Pruned | Imported

  datatype Segment = Copy(start: nat, count: nat) | Insert(text: Bytes)

  datatype Body = Whole(text: Bytes) | Patch(length: nat, segments: seq<Segment>)

  /** Digests of clear values that nothing but equality is asked of. */
  datatype ContentDigest = ContentDigest(text: Bytes)
  datatype BodyDigest = BodyDigest(body: Body)

  datatype Attribution = Attribution(
    timestamp: nat, slot: SlotId, actorName: string, actorEmail: string,
    clientName: string, clientEmail: string, device: string)

  datatype EventFacts = EventFacts(
    name: string, affectedSlot: Option<SlotId>, cutoff: Option<RevisionId>,
    retained: Option<nat>, status: Option<nat>, detail: string)

  /** The part of a record that its identifier is the digest of. */
  datatype Immutable = Immutable(
    kind: Kind, previous: Option<RevisionId>, contentParent: Option<RevisionId>,
    mergeSources: seq<RevisionId>, author: Attribution, contentHash: ContentDigest,
    bodyDigest: Option<BodyDigest>, event: Option<EventFacts>)

  datatype Record = Record(
    id: RevisionId, imm: Immutable, storage: Storage, body: Option<Body>,
    provisional: bool, resolvedBy: Option<RevisionId>, foreign: bool)

  datatype Limits = Limits(maxEntries: nat, maxText: nat, maxParents: nat)

  const DEFAULT_LIMITS := Limits(1024, 8 * 1024 * 1024, 8)
  const MAX_TIME: nat := 0x7FFF_FFFF_FFFF_FFFF
  const COMPACTION := "compaction"

  /** Identifiers are digests; the digest never collides. */
  type Hash = Immutable -> RevisionId

  ghost predicate Injective(hash: Hash) {
    forall a: Immutable, b: Immutable :: hash(a) == hash(b) ==> a == b
  }

  predicate SealedBy(hash: Hash, rs: seq<Record>) {
    forall i | 0 <= i < |rs| :: rs[i].id == hash(rs[i].imm)
  }

  /** Everything a record names: its predecessor, its content parent and its merge sources. */
  predicate Refers(imm: Immutable, id: RevisionId) {
    imm.previous == Some(id) || imm.contentParent == Some(id) || id in imm.mergeSources
  }

  predicate CompactionEvent(r: Record) {
    !r.foreign && r.imm.event.Some? && r.imm.event.value.name == COMPACTION
  }

  /** A canonical record that carries text: a baseline or a content record. */
  predicate Carries(r: Record) {
    !r.foreign && r.imm.kind != Event
  }

  // ---------- What parsing one record accepts ----------

  predicate Attributed(author: Attribution) {
    author.timestamp <= MAX_TIME && author.actorName != "" && author.actorEmail != ""
    && author.clientName != "" && author.clientEmail != "" && author.device != ""
  }

  /** Strictly ascending, as the parser demands of merge sources. */
  predicate Ascending(ids: seq<RevisionId>) {
    forall i, j | 0 <= i < j < |ids| :: ids[i] < ids[j]
  }

  predicate GoodImmutable(imm: Immutable, limits: Limits) {
    && Attributed(imm.author)
    && |imm.mergeSources| <= limits.maxParents && Ascending(imm.mergeSources)
    && (match imm.kind
        case Baseline =>
          imm.previous.None? && imm.contentParent.None? && imm.mergeSources == []
          && imm.bodyDigest.Some? && imm.event.None?
        case Content =>
          imm.previous.Some? && imm.contentParent.Some?
          && imm.bodyDigest.Some? && imm.event.None?
        case Event =>
          imm.previous.Some? && imm.contentParent.None? && imm.mergeSources == []
          && imm.bodyDigest.None? && imm.event.Some? && imm.event.value.name != "")
    && (imm.event.Some? ==> GoodEvent(imm.event.value))
  }

  predicate GoodEvent(e: EventFacts) {
    (e.status.Some? ==> e.status.value <= 2)
    && (e.name == COMPACTION ==> e.cutoff.Some? && e.retained.Some?)
  }

  /** The length one segment contributes. */
  function Width(s: Segment): nat {
    match s
    case Copy(_, count) => count
    case Insert(text) => |text|
  }

  /** The length of the first k segments together. */
  function TotalWidth(segments: seq<Segment>, k: nat): nat
    requires k <= |segments|
  {
    if k == 0 then 0 else TotalWidth(segments, k - 1) + Width(segments[k - 1])
  }

  predicate GoodSegments(length: nat, segments: seq<Segment>, limits: Limits) {
    length <= limits.maxText && |segments| <= limits.maxEntries
    && (forall i | 0 <= i < |segments| :: Width(segments[i]) > 0)
    && TotalWidth(segments, |segments|) == length
  }

  ghost predicate GoodWhole(text: Bytes, limits: Limits) {
    |text| <= limits.maxText && CanonicalText(text)
  }

  ghost predicate GoodBody(storage: Storage, body: Option<Body>, limits: Limits) {
    match storage
    case Snapshot => body.Some? && body.value.Whole? && GoodWhole(body.value.text, limits)
    case Checkpoint => body.Some? && body.value.Whole? && GoodWhole(body.value.text, limits)
    case Delta => body.Some? && body.value.Patch?
                  && GoodSegments(body.value.length, body.value.segments, limits)
    case Bodyless => body.None?
    case Pruned => body.None?
    case Imported => body.None?
  }

  predicate StorageFits(kind: Kind, storage: Storage) {
    match kind
    case Baseline => storage in {Snapshot, Checkpoint, Pruned, Imported}
    case Content => storage in {Delta, Checkpoint, Pruned, Imported}
    case Event => storage in {Bodyless, Imported}
  }

  /** The record-level checks of parsing, all of them local to one record. */
  ghost predicate GoodRecord(r: Record, limits: Limits) {
    && GoodImmutable(r.imm, limits)
    && GoodBody(r.storage, r.body, limits)
    && StorageFits(r.imm.kind, r.storage)
    && (r.body.Some? && r.storage != Checkpoint ==> r.imm.bodyDigest == Some(BodyDigest(r.body.value)))
    && r.foreign == (r.storage == Imported)
    && r.foreign == r.resolvedBy.Some?
    && !(r.foreign && r.provisional)
    && !(r.imm.kind == Event && r.provisional)
  }
}
