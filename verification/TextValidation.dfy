/** UTF-8 and canonical document text checks (src/format/text_validation.cpp). */
module TextValidation {

  type byte = b: int | 0 <= b < 0x100
  type Bytes = seq<byte>

  // ---------- UTF-8 as section 3 of RFC 3629 defines it ----------

  predicate Scalar(v: int) {
    0 <= v <= 0x10FFFF && !(0xD800 <= v <= 0xDFFF)
  }

  /** The one encoding of a scalar value. */
  function Encoding(v: int): (e: Bytes)
    requires Scalar(v)
    ensures 1 <= |e| <= 4
  {
    if v < 0x80 then [v]
    else if v < 0x800 then [0xC0 + v / 64, 0x80 + v % 64]
    else if v < 0x10000 then [0xE0 + v / 4096, 0x80 + v / 64 % 64, 0x80 + v % 64]
    else [0xF0 + v / 262144, 0x80 + v / 4096 % 64, 0x80 + v / 64 % 64, 0x80 + v % 64]
  }

  function EncodeAll(vs: seq<int>): Bytes
    requires forall v | v in vs :: Scalar(v)
  {
    if vs == [] then [] else Encoding(vs[0]) + EncodeAll(vs[1..])
  }

  /** Well-formed UTF-8: some sequence of scalar values encodes to exactly these bytes. */
  ghost predicate WellFormed(bs: Bytes) {
    exists vs: seq<int> :: (forall v | v in vs :: Scalar(v)) && EncodeAll(vs) == bs
  }

  /** Document text: UTF-8 without a byte order mark and without carriage returns. */
  ghost predicate CanonicalText(bs: Bytes) {
    WellFormed(bs) && !([0xEF, 0xBB, 0xBF] <= bs) && 0x0D !in bs
  }

  // ---------- The encoding is a prefix code ----------

  /** The value bits of a first byte announcing n bytes, and of a continuation byte. */
  function Lead(first: byte, n: nat): int {
    var b := first as int;
    if n == 1 then b else if n == 2 then b % 32 else if n == 3 then b % 16 else b % 8
  }

  function Tail(b: byte): int {
    b as int % 64
  }

  /** The value the first n bytes spell. */
  function Spelled(bs: Bytes, n: nat): int
    requires 1 <= n <= 4 && n <= |bs|
  {
    if n == 1 then Lead(bs[0], 1)
    else if n == 2 then Lead(bs[0], 2) * 64 + Tail(bs[1])
    else if n == 3 then Lead(bs[0], 3) * 4096 + Tail(bs[1]) * 64 + Tail(bs[2])
    else Lead(bs[0], 4) * 262144 + Tail(bs[1]) * 4096 + Tail(bs[2]) * 64 + Tail(bs[3])
  }

  /** The number of bytes a first byte announces, or 0 when it announces none. */
  function Announced(first: byte): nat {
    if first <= 0x7F then 1
    else if 0xC2 <= first <= 0xDF then 2
    else if 0xE0 <= first <= 0xEF then 3
    else if 0xF0 <= first <= 0xF4 then 4
    else 0
  }

  lemma EncodingAnnounced(v: int)
    requires Scalar(v)
    ensures Announced(Encoding(v)[0]) == |Encoding(v)|
  {
  }

  lemma EncodingSpelled(v: int)
    requires Scalar(v)
    ensures Spelled(Encoding(v), |Encoding(v)|) == v
    ensures forall i | 1 <= i < |Encoding(v)| :: Encoding(v)[i] / 64 == 2
  {
    if v < 0x80 {
    } else if v < 0x800 {
      EncodingSpelled2(v);
    } else if v < 0x10000 {
      EncodingSpelled3(v);
    } else {
      EncodingSpelled4(v);
    }
  }

  lemma EncodingSpelled2(v: int)
    requires Scalar(v) && 0x80 <= v < 0x800
    ensures Spelled(Encoding(v), 2) == v && Encoding(v)[1] / 64 == 2
  {
    SplitBase64(v);
  }

  lemma EncodingSpelled3(v: int)
    requires Scalar(v) && 0x800 <= v < 0x10000
    ensures Spelled(Encoding(v), 3) == v
    ensures Encoding(v)[1] / 64 == 2 && Encoding(v)[2] / 64 == 2
  {
    SplitBase64(v);
    SplitBase64(v / 64);
    Quotients(v);
  }

  lemma EncodingSpelled4(v: int)
    requires Scalar(v) && 0x10000 <= v
    ensures Spelled(Encoding(v), 4) == v
    ensures Encoding(v)[1] / 64 == 2 && Encoding(v)[2] / 64 == 2 && Encoding(v)[3] / 64 == 2
  {
    SplitBase64(v);
    SplitBase64(v / 64);
    SplitBase64(v / 4096);
    Quotients(v);
  }

  lemma Quotients(v: nat)
    ensures v / 64 / 64 == v / 4096 && v / 4096 / 64 == v / 262144
  {
  }

  lemma SplitBase64(v: nat)
    ensures v == v / 64 * 64 + v % 64
    ensures (0x80 + v % 64) % 64 == v % 64 && (0x80 + v % 64) / 64 == 2
  {
  }

  /** What the first bytes spell under the announced length encodes back to those bytes. */
  lemma SpelledEncodes(bs: Bytes, n: nat)
    requires |bs| > 0 && n == Announced(bs[0]) && 1 <= n <= |bs|
    requires forall i | 1 <= i < n :: bs[i] / 64 == 2
    requires Scalar(Spelled(bs, n)) && Least(n) <= Spelled(bs, n)
    ensures Encoding(Spelled(bs, n)) == bs[..n]
  {
    if n == 2 { SpelledEncodes2(bs); }
    else if n == 3 { SpelledEncodes3(bs); }
    else if n == 4 { SpelledEncodes4(bs); }
  }

  lemma SpelledEncodes2(bs: Bytes)
    requires |bs| >= 2 && Announced(bs[0]) == 2 && bs[1] / 64 == 2
    ensures Scalar(Spelled(bs, 2)) && Encoding(Spelled(bs, 2)) == bs[..2]
  {
    Digits2(Lead(bs[0], 2), Tail(bs[1]));
  }

  lemma SpelledEncodes3(bs: Bytes)
    requires |bs| >= 3 && Announced(bs[0]) == 3 && bs[1] / 64 == 2 && bs[2] / 64 == 2
    requires Scalar(Spelled(bs, 3)) && 0x800 <= Spelled(bs, 3)
    ensures Encoding(Spelled(bs, 3)) == bs[..3]
  {
    Digits3(Lead(bs[0], 3), Tail(bs[1]), Tail(bs[2]));
    assert Spelled(bs, 3) < 0x10000;
  }

  lemma SpelledEncodes4(bs: Bytes)
    requires |bs| >= 4 && Announced(bs[0]) == 4
    requires bs[1] / 64 == 2 && bs[2] / 64 == 2 && bs[3] / 64 == 2
    requires Scalar(Spelled(bs, 4)) && 0x10000 <= Spelled(bs, 4)
    ensures Encoding(Spelled(bs, 4)) == bs[..4]
  {
    Digits4(Lead(bs[0], 4), Tail(bs[1]), Tail(bs[2]), Tail(bs[3]));
  }

  lemma Digits2(a: nat, b: nat)
    requires b < 64
    ensures (a * 64 + b) / 64 == a && (a * 64 + b) % 64 == b
  {
  }

  lemma Digits3(a: nat, b: nat, c: nat)
    requires b < 64 && c < 64
    ensures var v := a * 4096 + b * 64 + c; v / 4096 == a && v / 64 % 64 == b && v % 64 == c
  {
    var v := a * 4096 + b * 64 + c;
    Digits2(a * 64 + b, c);
    Digits2(a, b);
    assert v == (a * 64 + b) * 64 + c;
    assert v / 64 / 64 == v / 4096;
  }

  lemma Digits4(a: nat, b: nat, c: nat, d: nat)
    requires b < 64 && c < 64 && d < 64
    ensures var v := a * 262144 + b * 4096 + c * 64 + d;
            v / 262144 == a && v / 4096 % 64 == b && v / 64 % 64 == c && v % 64 == d
  {
    var v := a * 262144 + b * 4096 + c * 64 + d;
    Digits2(a * 4096 + b * 64 + c, d);
    Digits3(a, b, c);
    assert v == (a * 4096 + b * 64 + c) * 64 + d;
    assert v / 64 == a * 4096 + b * 64 + c;
    assert v / 64 / 64 == v / 4096 && v / 64 / 4096 == v / 262144;
  }

  /** The least value that may use n bytes; anything below it is overlong. */
  function Least(n: nat): nat {
    if n <= 1 then 0 else if n == 2 then 0x80 else if n == 3 then 0x800 else 0x10000
  }

  /** If the text starts with the encoding of v, the rest decides well-formedness. */
  lemma {:induction false} PeelScalar(bs: Bytes, v: int)
    requires Scalar(v) && Encoding(v) <= bs
    ensures WellFormed(bs) <==> WellFormed(bs[|Encoding(v)|..])
  {
    var rest := bs[|Encoding(v)|..];
    if WellFormed(rest) {
      var vs: seq<int> :| (forall u | u in vs :: Scalar(u)) && EncodeAll(vs) == rest;
      var ws := [v] + vs;
      assert ws[1..] == vs;
      assert EncodeAll(ws) == Encoding(v) + rest == bs;
    }
    if WellFormed(bs) {
      var ws: seq<int> :| (forall u | u in ws :: Scalar(u)) && EncodeAll(ws) == bs;
      assert ws != [] && Encoding(ws[0]) <= bs;
      SameStart(bs, v, ws[0]);
      assert EncodeAll(ws[1..]) == rest;
    }
  }

  lemma SameStart(bs: Bytes, v: int, w: int)
    requires Scalar(v) && Scalar(w) && Encoding(v) <= bs && Encoding(w) <= bs
    ensures v == w
  {
    EncodingAnnounced(v);
    EncodingAnnounced(w);
    EncodingSpelled(v);
    EncodingSpelled(w);
    assert Encoding(v)[0] == bs[0] == Encoding(w)[0];
    assert Encoding(v) == bs[..|Encoding(v)|] == Encoding(w);
  }

  /** Non-empty well-formed text starts with one announced, minimal, scalar encoding. */
  lemma FirstScalar(bs: Bytes)
    requires WellFormed(bs) && bs != []
    ensures var n := Announced(bs[0]);
            && 1 <= n <= |bs|
            && (forall i | 1 <= i < n :: bs[i] / 64 == 2)
            && Scalar(Spelled(bs, n)) && Least(n) <= Spelled(bs, n)
  {
    var vs: seq<int> :| (forall v | v in vs :: Scalar(v)) && EncodeAll(vs) == bs;
    var e := Encoding(vs[0]);
    EncodingAnnounced(vs[0]);
    EncodingSpelled(vs[0]);
    assert e == bs[..|e|];
    assert forall i | 0 <= i < |e| :: bs[i] == e[i];
  }

  // ---------- The checker ----------

  /** The byte loop of the checker: it accepts exactly well-formed UTF-8. */
  method ValidUtf8(bs: Bytes) returns (ok: bool)
    ensures ok <==> WellFormed(bs)
  {
    hide WellFormed, Scalar, Encoding;
    EmptyIsWellFormed();
    var index := 0;
    while index < |bs|
      invariant 0 <= index <= |bs|
      invariant WellFormed(bs) <==> WellFormed(bs[index..])
    {
      ghost var start := index;
      ghost var rest := bs[start..];
      if WellFormed(rest) { FirstScalar(rest); }
      var first := bs[index];
      index := index + 1;
      var continuation, codePoint, minimum := 0, first as int, 0;
      if first <= 0x7F {
      } else if 0xC2 <= first <= 0xDF {
        continuation, codePoint, minimum := 1, first as int % 32, 0x80;
      } else if 0xE0 <= first <= 0xEF {
        continuation, codePoint, minimum := 2, first as int % 16, 0x800;
      } else if 0xF0 <= first <= 0xF4 {
        continuation, codePoint, minimum := 3, first as int % 8, 0x10000;
      } else {
        return false;
      }
      if continuation > |bs| - index { return false; }
      var offset := 0;
      while offset < continuation
        invariant 0 <= offset <= continuation && index == start + 1 + offset
        invariant forall i | 1 <= i <= offset :: rest[i] / 64 == 2
        invariant offset == 0 ==> codePoint == Lead(first, continuation + 1)
        invariant offset == 1 ==> codePoint == Lead(first, continuation + 1) * 64 + Tail(rest[1])
        invariant offset == 2 ==>
                    codePoint == Lead(first, continuation + 1) * 4096 + Tail(rest[1]) * 64 + Tail(rest[2])
        invariant offset == 3 ==> codePoint == Spelled(rest, 4)
      {
        var next := bs[index];
        assert next == rest[offset + 1];
        index := index + 1;
        if next / 64 != 2 { return false; }
        codePoint := codePoint * 64 + next as int % 64;
        offset := offset + 1;
      }
      assert codePoint == Spelled(rest, continuation + 1);
      if codePoint < minimum || codePoint > 0x10FFFF || 0xD800 <= codePoint <= 0xDFFF {
        return false;
      }
      SpelledEncodes(rest, continuation + 1);
      PeelScalar(rest, codePoint);
      assert rest[continuation + 1..] == bs[index..];
    }
    return true;
  }

  lemma EmptyIsWellFormed()
    ensures WellFormed([])
  {
    assert EncodeAll([]) == [];
  }

  method ValidCanonicalDocumentText(bs: Bytes) returns (ok: bool)
    ensures ok <==> CanonicalText(bs)
  {
    ok := ValidUtf8(bs);
    if !ok { return false; }
    if |bs| >= 3 && bs[0] == 0xEF && bs[1] == 0xBB && bs[2] == 0xBF { return false; }
    ok := 0x0D !in bs;
  }

  // ---------- Consequences ----------

  lemma {:induction false} EncodeAllConcat(vs: seq<int>, ws: seq<int>)
    requires forall v | v in vs + ws :: Scalar(v)
    ensures EncodeAll(vs + ws) == EncodeAll(vs) + EncodeAll(ws)
  {
    if vs == [] {
      assert vs + ws == ws;
    } else {
      assert (vs + ws)[1..] == vs[1..] + ws;
      EncodeAllConcat(vs[1..], ws);
    }
  }

  /** Well-formed texts concatenate to well-formed text. */
  lemma ConcatWellFormed(a: Bytes, b: Bytes)
    requires WellFormed(a) && WellFormed(b)
    ensures WellFormed(a + b)
  {
    var vs: seq<int> :| (forall v | v in vs :: Scalar(v)) && EncodeAll(vs) == a;
    var ws: seq<int> :| (forall v | v in ws :: Scalar(v)) && EncodeAll(ws) == b;
    EncodeAllConcat(vs, ws);
  }

  /** A text spells exactly one sequence of scalar values. */
  lemma {:induction false} UniqueScalars(vs: seq<int>, ws: seq<int>)
    requires (forall v | v in vs :: Scalar(v)) && (forall w | w in ws :: Scalar(w))
    requires EncodeAll(vs) == EncodeAll(ws)
    ensures vs == ws
  {
    if vs != [] && ws != [] {
      SameStart(EncodeAll(vs), vs[0], ws[0]);
      var n := |Encoding(vs[0])|;
      assert EncodeAll(vs[1..]) == EncodeAll(vs)[n..] == EncodeAll(ws[1..]);
      UniqueScalars(vs[1..], ws[1..]);
    }
  }

  // ---------- What document text is ----------

  lemma EncodedByte(v: int, b: byte)
    requires Scalar(v) && b < 0x80
    ensures b in Encoding(v) <==> v == b
  {
  }

  lemma {:induction false} LowByteIsScalar(vs: seq<int>, b: byte)
    requires (forall v | v in vs :: Scalar(v)) && b < 0x80
    ensures b in EncodeAll(vs) <==> b as int in vs
  {
    if vs != [] {
      LowByteIsScalar(vs[1..], b);
      EncodedByte(vs[0], b);
      assert vs == [vs[0]] + vs[1..];
    }
  }

  lemma MarkBytes()
    ensures Encoding(0xFEFF) == [0xEF, 0xBB, 0xBF] && Scalar(0xFEFF)
  {
  }

  lemma FirstEncoded(vs: seq<int>)
    requires vs != [] && forall v | v in vs :: Scalar(v)
    ensures EncodeAll(vs) == Encoding(vs[0]) + EncodeAll(vs[1..])
  {
  }

  lemma MarkIsEncoded(vs: seq<int>)
    requires vs != [] && forall v | v in vs :: Scalar(v)
    ensures vs[0] == 0xFEFF <==> [0xEF, 0xBB, 0xBF] <= EncodeAll(vs)
  {
    hide Scalar, Encoding, EncodeAll;
    MarkBytes();
    FirstEncoded(vs);
    if [0xEF, 0xBB, 0xBF] <= EncodeAll(vs) { SameStart(EncodeAll(vs), 0xFEFF, vs[0]); }
  }

  /** Scalar values that neither begin with U+FEFF nor contain U+000D. */
  predicate Plain(vs: seq<int>) {
    (forall v | v in vs :: Scalar(v)) && 0x0D !in vs && (vs != [] ==> vs[0] != 0xFEFF)
  }

  lemma PlainEncodes(vs: seq<int>)
    requires forall v | v in vs :: Scalar(v)
    ensures CanonicalText(EncodeAll(vs)) <==> Plain(vs)
  {
    hide Scalar, Encoding, EncodeAll;
    LowByteIsScalar(vs, 0x0D);
    if vs != [] { MarkIsEncoded(vs); } else { EmptyIsWellFormed(); NothingEncoded(); }
  }

  lemma NothingEncoded()
    ensures EncodeAll([]) == []
  {
  }

  /** Document text is exactly the encoding of such scalar values. */
  lemma CanonicalMeans(bs: Bytes)
    ensures CanonicalText(bs) <==> exists vs: seq<int> :: Plain(vs) && EncodeAll(vs) == bs
  {
    hide Scalar, Encoding, EncodeAll;
    if CanonicalText(bs) {
      var vs: seq<int> :| (forall v | v in vs :: Scalar(v)) && EncodeAll(vs) == bs;
      PlainEncodes(vs);
    }
    if us: seq<int> :| Plain(us) && EncodeAll(us) == bs { PlainEncodes(us); }
  }
}
