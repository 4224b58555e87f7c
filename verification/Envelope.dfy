/**
 * The encrypted image (src/container/revised_v3_container.cpp): password wrappers in
 * slot order around one sealed payload. A wrapper opens for its own password and no other.
 */
module Envelope {
  import opened Wrappers
  import opened TextValidation
  import opened RevisionRecords
  import opened GraphValidity
  import opened RevisionGraph

  type Password = Bytes

  /** One 110-byte slot record: a public salt and nonce, and the sealed document key and slot facts. */
  datatype Wrapper = Wrapper(
    header: nat, password: Password, key: nat, slot: SlotId, rights: nat, mustBeChanged: bool)

  /** A container file: wrappers, and a payload sealed under the document key and over the wrappers of that moment. */
  datatype Image = Image(
    wrappers: seq<Wrapper>, nonce: nat, sealedUnder: nat, sealedOver: seq<Wrapper>,
    documentId: nat, contentType: nat, graph: Graph)

  datatype Opened = Opened(
    documentId: nat, contentType: nat, slot: SlotId, journalKey: nat, permissions: nat,
    mustBeChanged: bool, owner: bool, recovery: bool, graph: Graph)

  datatype ContainerError =
    | BadArgument | MalformedContainer | AuthenticationFailed | UnsupportedFormat
    | TooLarge | WeakPassword | PasswordInUse | CryptoError

  // ---------- Structure ----------

  predicate DistinctHeaders(ws: seq<Wrapper>) {
    forall i, j | 0 <= i < j < |ws| :: ws[i].header != ws[j].header
  }

  predicate WellStructured(image: Image) {
    1 <= |image.wrappers| <= 9 && DistinctHeaders(image.wrappers)
  }

  method ValidateStructure(image: Image) returns (r: Result<bool, ContainerError>)
    ensures r == if WellStructured(image) then Ok(true) else Err(MalformedContainer)
  {
    var ws := image.wrappers;
    if |ws| < 1 || |ws| > 9 { return Err(MalformedContainer); }
    var i := 0;
    while i < |ws|
      invariant 0 <= i <= |ws| && DistinctHeaders(ws[..i])
    {
      var j := 0;
      while j < i
        invariant 0 <= j <= i
        invariant forall k | 0 <= k < j :: ws[k].header != ws[i].header
      {
        if ws[j].header == ws[i].header { return Err(MalformedContainer); }
        j := j + 1;
      }
      assert ws[..i + 1] == ws[..i] + [ws[i]];
      i := i + 1;
    }
    assert ws[..|ws|] == ws;
    return Ok(true);
  }

  // ---------- Unlocking ----------

  /** The first wrapper from position i on that the password opens, or the number of wrappers. */
  function Selected(ws: seq<Wrapper>, password: Password, i: nat): (k: nat)
    requires i <= |ws|
    ensures i <= k <= |ws|
    ensures k < |ws| ==> ws[k].password == password
    ensures forall j | i <= j < k :: ws[j].password != password
    decreases |ws| - i
  {
    if i == |ws| || ws[i].password == password then i else Selected(ws, password, i + 1)
  }

  predicate GoodPassword(password: Password) {
    1 <= |password| <= 4096
  }

  /** The payload authenticates: the wrapper holds its key, and no wrapper has changed since it was sealed. */
  predicate Authentic(image: Image, w: Wrapper) {
    w.key == image.sealedUnder && image.sealedOver == image.wrappers
  }

  /** The checks between choosing a wrapper and returning what it opens. */
  ghost predicate WrapperFits(hash: Hash, image: Image, k: nat)
    requires k < |image.wrappers|
  {
    var w := image.wrappers[k];
    && w.rights <= 7 && Authentic(image, w) && image.contentType <= 1
    && Decodable(hash, image.graph, DEFAULT_LIMITS) && |image.graph.slots| == |image.wrappers|
    && image.graph.slots[k].id == w.slot
    && (image.graph.slots[k].role != 1 ==> w.rights == 7 && !w.mustBeChanged)
  }

  function OpenedBy(image: Image, k: nat): Opened
    requires k < |image.wrappers| && k < |image.graph.slots|
  {
    var s := image.graph.slots[k];
    Opened(image.documentId, image.contentType, s.id, image.wrappers[k].key, s.permissions,
           image.wrappers[k].mustBeChanged || s.mustBeChanged, s.role == 0, s.role == 2, image.graph)
  }

  /** What unlocking with a password yields. */
  ghost function Unlocking(hash: Hash, image: Image, password: Password): Option<Opened> {
    if !WellStructured(image) || !GoodPassword(password) then None
    else
      var k := Selected(image.wrappers, password, 0);
      if k == |image.wrappers| || !WrapperFits(hash, image, k) then None else Some(OpenedBy(image, k))
  }

  /** No wrapper opens for the password. */
  predicate NoWrapper(image: Image, password: Password) {
    WellStructured(image) && GoodPassword(password)
    && Selected(image.wrappers, password, 0) == |image.wrappers|
  }

  /** Neither a wrapper nor the payload authenticates under the password. */
  predicate Unauthentic(image: Image, password: Password) {
    WellStructured(image) && GoodPassword(password)
    && var k := Selected(image.wrappers, password, 0);
       k == |image.wrappers| || (image.wrappers[k].rights <= 7 && !Authentic(image, image.wrappers[k]))
  }

  // ---------- Rewriting the payload ----------

  function WithGraph(image: Image, graph: Graph, nonce: nat): Image {
    image.(graph := graph, nonce := nonce, sealedOver := image.wrappers)
  }

  /** New wrappers, and the payload sealed anew over them. */
  function Rewrapped(image: Image, wrappers: seq<Wrapper>, graph: Graph, nonce: nat): Image {
    image.(wrappers := wrappers, sealedOver := wrappers, graph := graph, nonce := nonce)
  }

  // ---------- Rewriting the wrappers ----------

  datatype Mode = Keep | InsertAt | ReplaceAt | RemoveAt

  /** The wrapper list after one change at an index. */
  function Rewritten(ws: seq<Wrapper>, mode: Mode, index: nat, made: Wrapper): seq<Wrapper>
    requires index <= |ws| && (mode == ReplaceAt || mode == RemoveAt ==> index < |ws|)
  {
    match mode
    case Keep => ws
    case InsertAt => ws[..index] + [made] + ws[index..]
    case ReplaceAt => ws[index := made]
    case RemoveAt => ws[..index] + ws[index + 1..]
  }

  /** Where each record of the rewritten list comes from. */
  lemma RewrittenAt(ws: seq<Wrapper>, mode: Mode, index: nat, made: Wrapper, i: nat)
    requires index <= |ws| && (mode == ReplaceAt || mode == RemoveAt ==> index < |ws|)
    requires i < |Rewritten(ws, mode, index, made)|
    ensures var source := if mode == InsertAt && i > index then i - 1
                          else if mode == RemoveAt && i >= index then i + 1 else i;
            if (mode == InsertAt || mode == ReplaceAt) && i == index then Rewritten(ws, mode, index, made)[i] == made
            else 0 <= source < |ws| && Rewritten(ws, mode, index, made)[i] == ws[source]
  {
  }

  /** The record loop: each position is fresh or copied from its shifted source. */
  method RewriteWrappers(ws: seq<Wrapper>, mode: Mode, index: nat, made: Wrapper) returns (out: seq<Wrapper>)
    requires index <= |ws| && (mode == ReplaceAt || mode == RemoveAt ==> index < |ws|)
    ensures out == Rewritten(ws, mode, index, made)
  {
    ghost var target := Rewritten(ws, mode, index, made);
    var count := |ws| + (if mode == InsertAt then 1 else 0) - (if mode == RemoveAt then 1 else 0);
    out := [];
    var i := 0;
    while i < count
      invariant 0 <= i <= count == |target| && |out| == i
      invariant forall j | 0 <= j < i :: out[j] == target[j]
    {
      RewrittenAt(ws, mode, index, made, i);
      if (mode == InsertAt || mode == ReplaceAt) && i == index {
        out := out + [made];
      } else {
        var source := if mode == InsertAt && i > index then i - 1
                      else if mode == RemoveAt && i >= index then i + 1 else i;
        out := out + [ws[source]];
      }
      i := i + 1;
    }
  }
}
