/** Applying a stored patch, and the patch a merge writes. */
module Patching {
  import opened Wrappers
  import opened TextValidation
  import opened RevisionRecords
  import opened GraphValidity

  // ---------- Applying ----------

  /** One segment out of bounds spoils every longer patch. */
  lemma {:induction false} PatchedFails(segments: seq<Segment>, k: nat, source: Bytes)
    requires k <= |segments| && Patched(segments, k, source).None?
    ensures Patched(segments, |segments|, source).None?
    decreases |segments| - k
  {
    if k < |segments| { PatchedFails(segments, k + 1, source); }
  }

  /** The segment loop: it yields the patched text exactly when the patch applies. */
  method ApplyDelta(body: Body, source: Bytes, limits: Limits) returns (r: Option<Bytes>)
    requires body.Patch?
    ensures r.Some? ==> AppliesTo(body, source, r.value, limits)
    ensures r.None? ==> forall text :: !AppliesTo(body, source, text, limits)
  {
    var next: Bytes := [];
    var k := 0;
    while k < |body.segments|
      invariant 0 <= k <= |body.segments|
      invariant Patched(body.segments, k, source) == Some(next)
    {
      var segment := body.segments[k];
      match segment {
        case Insert(text) =>
          next := next + text;
        case Copy(start, count) =>
          if start > |source| || count > |source| - start {
            PatchedFails(body.segments, k + 1, source);
            return None;
          }
          next := next + source[start..start + count];
      }
      k := k + 1;
    }
    var canonical := ValidCanonicalDocumentText(next);
    if |next| != body.length || |next| > limits.maxText || !canonical {
      return None;
    }
    r := Some(next);
  }

  // ---------- Diffing ----------

  /** From k matching leading bytes, the length of the longest common prefix. */
  function MatchingHead(a: Bytes, b: Bytes, k: nat): (n: nat)
    requires k <= |a| && k <= |b|
    ensures k <= n <= |a| && n <= |b|
    ensures forall i | k <= i < n :: a[i] == b[i]
    ensures n < |a| && n < |b| ==> a[n] != b[n]
    decreases |a| - k
  {
    if k < |a| && k < |b| && a[k] == b[k] then MatchingHead(a, b, k + 1) else k
  }

  /** From k matching trailing bytes, the longest common suffix that leaves the first p bytes alone. */
  function MatchingTail(a: Bytes, b: Bytes, p: nat, k: nat): (n: nat)
    requires p + k <= |a| && p + k <= |b|
    ensures k <= n && p + n <= |a| && p + n <= |b|
    ensures forall j | |a| - n <= j < |a| - k :: a[j] == b[j + |b| - |a|]
    ensures p + n < |a| && p + n < |b| ==> a[|a| - 1 - n] != b[|b| - 1 - n]
    decreases |a| - k
  {
    if p + k < |a| && p + k < |b| && a[|a| - 1 - k] == b[|b| - 1 - k] then MatchingTail(a, b, p, k + 1) else k
  }

  function CopyOf(start: nat, count: nat): seq<Segment> {
    if count == 0 then [] else [Copy(start, count)]
  }

  function InsertOf(text: Bytes): seq<Segment> {
    if text == [] then [] else [Insert(text)]
  }

  /** Keep the common prefix and the common suffix of what remains. */
  function DiffBody(from: Bytes, to: Bytes): Body {
    var p := MatchingHead(from, to, 0);
    Framed(from, to, p, MatchingTail(from, to, p, 0))
  }

  /** Keep p bytes at the beginning and s at the end, and insert what lies between. */
  function Framed(from: Bytes, to: Bytes, p: nat, s: nat): Body
    requires p + s <= |to| && s <= |from|
  {
    Patch(|to|, CopyOf(0, p) + InsertOf(to[p..|to| - s]) + CopyOf(|from| - s, s))
  }

  lemma {:induction false} PatchedSame(a: seq<Segment>, b: seq<Segment>, k: nat, source: Bytes)
    requires k <= |a| && k <= |b| && forall i | 0 <= i < k :: a[i] == b[i]
    ensures Patched(a, k, source) == Patched(b, k, source) && TotalWidth(a, k) == TotalWidth(b, k)
  {
    if k > 0 { PatchedSame(a, b, k - 1, source); }
  }

  /** The segments of a whole list yield this text. */
  ghost predicate Yields(segments: seq<Segment>, source: Bytes, text: Bytes) {
    Patched(segments, |segments|, source) == Some(text) && TotalWidth(segments, |segments|) == |text|
  }

  lemma YieldsNothing(source: Bytes)
    ensures Yields([], source, [])
  {
  }

  lemma YieldsOneMore(segments: seq<Segment>, last: Segment, source: Bytes, text: Bytes)
    requires Yields(segments, source, text) && CopyInBounds(last, source)
    ensures Yields(segments + [last], source, text + Piece(last, source))
  {
    PatchedSame(segments, segments + [last], |segments|, source);
  }

  lemma YieldsCopy(segments: seq<Segment>, start: nat, count: nat, source: Bytes, text: Bytes)
    requires start + count <= |source| && Yields(segments, source, text)
    ensures Yields(segments + CopyOf(start, count), source, text + source[start..start + count])
  {
    if count == 0 {
      assert segments + CopyOf(start, count) == segments && text + source[start..start + count] == text;
    } else {
      YieldsOneMore(segments, Copy(start, count), source, text);
    }
  }

  lemma YieldsInsert(segments: seq<Segment>, inserted: Bytes, source: Bytes, text: Bytes)
    requires Yields(segments, source, text)
    ensures Yields(segments + InsertOf(inserted), source, text + inserted)
  {
    if inserted == [] {
      assert segments + InsertOf(inserted) == segments && text + inserted == text;
    } else {
      YieldsOneMore(segments, Insert(inserted), source, text);
    }
  }

  /** A kept prefix, an insertion and a kept suffix patch to their concatenation. */
  lemma ThreePieces(from: Bytes, p: nat, middle: Bytes, s: nat)
    requires p <= |from| && s <= |from|
    ensures Yields(CopyOf(0, p) + InsertOf(middle) + CopyOf(|from| - s, s), from,
                   from[..p] + middle + from[|from| - s..])
  {
    hide Yields;
    assert Yields([], from, []) by { YieldsNothing(from); }
    YieldsCopy([], 0, p, from, []);
    assert [] + CopyOf(0, p) == CopyOf(0, p) && [] + from[0..p] == from[..p];
    YieldsInsert(CopyOf(0, p), middle, from, from[..p]);
    YieldsCopy(CopyOf(0, p) + InsertOf(middle), |from| - s, s, from, from[..p] + middle);
    assert from[|from| - s..|from| - s + s] == from[|from| - s..];
  }

  lemma DiffCovers(from: Bytes, to: Bytes, p: nat, s: nat)
    requires p + s <= |from| && p + s <= |to|
    requires forall i | 0 <= i < p :: from[i] == to[i]
    requires forall j | |from| - s <= j < |from| :: from[j] == to[j + |to| - |from|]
    ensures from[..p] + to[p..|to| - s] + from[|from| - s..] == to
  {
    assert from[..p] == to[..p];
    assert from[|from| - s..] == to[|to| - s..];
  }

  lemma DiffYields(from: Bytes, to: Bytes)
    ensures Yields(DiffBody(from, to).segments, from, to)
  {
    hide Yields, Patched, MatchingHead, MatchingTail;
    var p := MatchingHead(from, to, 0);
    var s := MatchingTail(from, to, p, 0);
    DiffCovers(from, to, p, s);
    ThreePieces(from, p, to[p..|to| - s], s);
  }

  lemma NonEmptyPieces(p: nat, middle: Bytes, start: nat, s: nat)
    ensures var segments := CopyOf(0, p) + InsertOf(middle) + CopyOf(start, s);
            |segments| <= 3 && forall i | 0 <= i < |segments| :: Width(segments[i]) > 0
  {
  }

  /** Diff and patch undo each other: the patch of a diff is the target, and it is storable. */
  lemma DiffPatches(from: Bytes, to: Bytes, limits: Limits)
    requires |to| <= limits.maxText && limits.maxEntries >= 3
    ensures Patched(DiffBody(from, to).segments, |DiffBody(from, to).segments|, from) == Some(to)
    ensures GoodSegments(|to|, DiffBody(from, to).segments, limits)
  {
    hide DiffBody, Patched, TotalWidth, MatchingHead, MatchingTail;
    DiffHasPieces(from, to);
    DiffYields(from, to);
  }

  lemma DiffHasPieces(from: Bytes, to: Bytes)
    ensures |DiffBody(from, to).segments| <= 3
    ensures forall i | 0 <= i < |DiffBody(from, to).segments| :: Width(DiffBody(from, to).segments[i]) > 0
  {
    hide MatchingHead, MatchingTail, CopyOf, InsertOf, Width;
    var p := MatchingHead(from, to, 0);
    var s := MatchingTail(from, to, p, 0);
    NonEmptyPieces(p, to[p..|to| - s], |from| - s, s);
  }

  method ScanPrefix(from: Bytes, to: Bytes) returns (prefix: nat)
    ensures prefix == MatchingHead(from, to, 0)
  {
    prefix := 0;
    while prefix < |from| && prefix < |to| && from[prefix] == to[prefix]
      invariant 0 <= prefix <= |from| && prefix <= |to|
      invariant MatchingHead(from, to, 0) == MatchingHead(from, to, prefix)
    {
      prefix := prefix + 1;
    }
  }

  method ScanSuffix(from: Bytes, to: Bytes, prefix: nat) returns (suffix: nat)
    requires prefix <= |from| && prefix <= |to|
    ensures suffix == MatchingTail(from, to, prefix, 0)
  {
    suffix := 0;
    while suffix < |from| - prefix && suffix < |to| - prefix
          && from[|from| - suffix - 1] == to[|to| - suffix - 1]
      invariant 0 <= suffix <= |from| - prefix && suffix <= |to| - prefix
      invariant MatchingTail(from, to, prefix, 0) == MatchingTail(from, to, prefix, suffix)
    {
      suffix := suffix + 1;
    }
  }

  /** The patch a merge writes: two scans, then at most three segments. */
  method Diff(from: Bytes, to: Bytes) returns (body: Body)
    ensures body == DiffBody(from, to)
  {
    hide MatchingHead, MatchingTail;
    var prefix := ScanPrefix(from, to);
    var suffix := ScanSuffix(from, to, prefix);
    var inserted := |to| - prefix - suffix;
    var middle := to[prefix..|to| - suffix];
    var segments: seq<Segment> := [];
    if prefix != 0 { segments := segments + [Copy(0, prefix)]; }
    assert segments == CopyOf(0, prefix);
    if inserted != 0 { segments := segments + [Insert(middle)]; }
    assert segments == CopyOf(0, prefix) + InsertOf(middle);
    if suffix != 0 { segments := segments + [Copy(|from| - suffix, suffix)]; }
    assert segments == CopyOf(0, prefix) + InsertOf(middle) + CopyOf(|from| - suffix, suffix);
    body := Patch(|to|, segments);
  }

  // ---------- How little is stored ----------

  /** The two texts begin alike for exactly p bytes. */
  predicate AlikeFor(a: Bytes, b: Bytes, p: nat) {
    p <= |a| && p <= |b| && a[..p] == b[..p] && (p < |a| && p < |b| ==> a[p] != b[p])
  }

  /** Beyond their first p bytes they end alike for exactly s bytes. */
  predicate EndAlikeFor(a: Bytes, b: Bytes, p: nat, s: nat) {
    p + s <= |a| && p + s <= |b| && a[|a| - s..] == b[|b| - s..]
    && (p + s < |a| && p + s < |b| ==> a[|a| - 1 - s] != b[|b| - 1 - s])
  }

  lemma HeadIsAlike(a: Bytes, b: Bytes)
    ensures AlikeFor(a, b, MatchingHead(a, b, 0))
  {
  }

  lemma TailIsAlike(a: Bytes, b: Bytes, p: nat)
    requires p <= |a| && p <= |b|
    ensures EndAlikeFor(a, b, p, MatchingTail(a, b, p, 0))
  {
    var s := MatchingTail(a, b, p, 0);
    var x, y := a[|a| - s..], b[|b| - s..];
    assert x == y by {
      forall j | 0 <= j < |x| ensures x[j] == y[j] {
        assert a[|a| - s + j] == b[|a| - s + j + |b| - |a|];
      }
    }
  }

  /** A difference keeps all that the texts begin and end with alike, and stores only what lies between. */
  lemma DiffIsTight(from: Bytes, to: Bytes)
    ensures exists p: nat, s: nat :: AlikeFor(from, to, p) && EndAlikeFor(from, to, p, s)
              && DiffBody(from, to) == Patch(|to|, (if p == 0 then [] else [Copy(0, p)])
                                                   + (if p + s == |to| then [] else [Insert(to[p..|to| - s])])
                                                   + (if s == 0 then [] else [Copy(|from| - s, s)]))
  {
    hide MatchingHead, MatchingTail, AlikeFor, EndAlikeFor, Framed;
    var p := MatchingHead(from, to, 0);
    var s := MatchingTail(from, to, p, 0);
    HeadIsAlike(from, to);
    TailIsAlike(from, to, p);
    FramedIs(from, to, p, s);
    assert AlikeFor(from, to, p) && EndAlikeFor(from, to, p, s);
  }

  lemma FramedIs(from: Bytes, to: Bytes, p: nat, s: nat)
    requires p + s <= |to| && s <= |from|
    ensures Framed(from, to, p, s) == Patch(|to|, (if p == 0 then [] else [Copy(0, p)])
                                                  + (if p + s == |to| then [] else [Insert(to[p..|to| - s])])
                                                  + (if s == 0 then [] else [Copy(|from| - s, s)]))
  {
    var a, b, c := CopyOf(0, p), InsertOf(to[p..|to| - s]), CopyOf(|from| - s, s);
    assert a == (if p == 0 then [] else [Copy(0, p)]);
    assert b == (if p + s == |to| then [] else [Insert(to[p..|to| - s])]);
    assert c == (if s == 0 then [] else [Copy(|from| - s, s)]);
  }
}
