/** The strict reader and the shortest-form writer (src/format/cbor_reader.cpp, cbor_writer.cpp). */
module CborCodec {
  import opened Wrappers
  import opened TextValidation
  import opened CborItems

  datatype CborError = MalformedCbor | LimitExceeded

  // ---------- Writing ----------

  /** A value shifted right by n bytes. */
  function Shifted(v: nat, n: nat): nat {
    if n == 0 then v else Shifted(v / 0x100, n - 1)
  }

  lemma {:induction false} ShiftedOnce(v: nat, n: nat)
    ensures Shifted(v, n) / 0x100 == Shifted(v, n + 1)
  {
    if n > 0 { ShiftedOnce(v / 0x100, n - 1); }
  }

  lemma {:induction false} NothingAbove(v: nat, n: nat)
    requires v < Power(n)
    ensures Shifted(v, n) == 0
  {
    if n > 0 { NothingAbove(v / 0x100, n - 1); }
  }

  /** One more byte, from the most significant end. */
  lemma NextByte(v: nat, n: nat, shift: nat)
    requires shift < n
    ensures BigEndian(Shifted(v, shift), n - shift)
            == BigEndian(Shifted(v, shift + 1), n - shift - 1) + [Shifted(v, shift) % 0x100]
  {
    ShiftedOnce(v, shift);
  }

  /** A head of each width: its initial byte, and the argument that fits the bytes after it. */
  lemma HeadBytes(major: nat, value: nat, bytes: nat, info: nat)
    requires major < 8 && 24 <= value < WORD
    requires (bytes == 1 && info == 24 && value < 0x100)
             || (bytes == 2 && info == 25 && 0x100 <= value < 0x1_0000)
             || (bytes == 4 && info == 26 && 0x1_0000 <= value < 0x1_0000_0000)
             || (bytes == 8 && info == 27 && 0x1_0000_0000 <= value)
    ensures value < Power(bytes)
    ensures Head(major, value) == [major * 32 + info] + BigEndian(value, bytes)
  {
    hide Power, BigEndian;
    PowerValues();
  }

  class Writer {
    var output: Bytes

    constructor ()
      ensures output == []
    {
      output := [];
    }

    /** Appends the shortest head of a value. */
    method WriteHead(major: nat, value: nat)
      requires major < 8 && value < WORD
      modifies this
      ensures output == old(output) + Head(major, value)
    {
      hide BigEndian, Power;
      if value < 24 {
        output := output + [major * 32 + value];
        return;
      }
      var bytes := if value <= 0xFF then 1 else if value <= 0xFFFF then 2 else if value <= 0xFFFF_FFFF then 4 else 8;
      var info := if bytes == 1 then 24 else if bytes == 2 then 25 else if bytes == 4 then 26 else 27;
      HeadBytes(major, value, bytes, info);
      var before := output;
      output := output + [major * 32 + info];
      WriteArgument(value, bytes);
      assert before + [major * 32 + info] + BigEndian(value, bytes) == before + ([major * 32 + info] + BigEndian(value, bytes));
    }

    /** Appends a value in n bytes, most significant first. */
    method WriteArgument(value: nat, n: nat)
      requires value < Power(n)
      modifies this
      ensures output == old(output) + BigEndian(value, n)
    {
      hide Power;
      ghost var start := output;
      var shift := n;
      NothingAbove(value, n);
      while shift > 0
        invariant 0 <= shift <= n
        invariant output == start + BigEndian(Shifted(value, shift), n - shift)
      {
        NextByte(value, n, shift - 1);
        output := output + [Shifted(value, shift - 1) % 0x100];
        shift := shift - 1;
      }
    }

    method Unsigned(value: nat)
      requires value < WORD
      modifies this
      ensures output == old(output) + Print(UInt(value))
    {
      WriteHead(0, value);
    }

    method Boolean(value: bool)
      modifies this
      ensures output == old(output) + Print(Bool(value))
    {
      output := output + [if value then 0xF5 else 0xF4];
    }

    method Array(size: nat)
      requires size < WORD
      modifies this
      ensures output == old(output) + Head(4, size)
    {
      WriteHead(4, size);
    }

    method Map(size: nat)
      requires size < WORD
      modifies this
      ensures output == old(output) + Head(5, size)
    {
      WriteHead(5, size);
    }

    method ByteItem(data: Bytes)
      requires |data| < WORD
      modifies this
      ensures output == old(output) + Print(ByteString(data))
    {
      WriteHead(2, |data|);
      if |data| != 0 { output := output + data; }
      assert output == old(output) + (Head(2, |data|) + data);
    }

    method Text(data: Bytes)
      requires |data| < WORD
      modifies this
      ensures output == old(output) + Print(TextString(data))
    {
      WriteHead(3, |data|);
      if |data| != 0 { output := output + data; }
      assert output == old(output) + (Head(3, |data|) + data);
    }

    method Raw(data: Bytes)
      modifies this
      ensures output == old(output) + data
    {
      if |data| != 0 { output := output + data; }
    }

    method TakeOutput() returns (taken: Bytes)
      modifies this
      ensures taken == old(output) && output == []
    {
      taken, output := output, [];
    }
  }

  // ---------- Reading ----------

  /** Something parses exactly where an item within the limits is printed. */
  lemma ParsesIffPrinted(data: Bytes, pos: nat, depth: nat, limits: ItemLimits)
    ensures Parse(data, pos, depth, limits).Some?
            <==> exists item :: Fits(item, depth, limits) && At(data, pos, Print(item))
  {
    hide Parse, Fits, Print;
    if Parse(data, pos, depth, limits).Some? { ParsedWasPrinted(data, pos, depth, limits); }
    if item :| Fits(item, depth, limits) && At(data, pos, Print(item)) { PrintedParses(item, data, pos, depth, limits); }
  }

  class Reader {
    const data: Bytes
    const limits: ItemLimits
    var position: nat

    ghost predicate Valid()
      reads this
    {
      position <= |data|
    }

    constructor (data: Bytes, limits: ItemLimits)
      ensures Valid() && this.data == data && this.limits == limits && position == 0
    {
      this.data, this.limits, position := data, limits, 0;
    }

    /** Accepts exactly a shortest head of the expected major type, and consumes exactly that. */
    method ReadHead(major: nat) returns (r: Result<nat, CborError>)
      requires Valid() && major < 8
      modifies this
      ensures Valid()
      ensures r.Ok? <==> HeadAt(data, old(position), major).Some?
      ensures r.Ok? ==> HeadAt(data, old(position), major) == Some((r.value, position))
      ensures r.Err? ==> r.error == MalformedCbor
    {
      if position == |data| { return Err(MalformedCbor); }
      var initial := data[position];
      position := position + 1;
      var info := initial % 32;
      if initial / 32 != major || info >= 28 { return Err(MalformedCbor); }
      if info < 24 { return Ok(info); }
      var count := if info == 24 then 1 else if info == 25 then 2 else if info == 26 then 4 else 8;
      if count > |data| - position { return Err(MalformedCbor); }
      ghost var start := position;
      ghost var bs := data[start..start + count];
      var value: nat := 0;
      var offset := 0;
      while offset < count
        invariant 0 <= offset <= count && position == start + offset && value == Value(bs, offset)
      {
        assert bs[offset] == data[position];
        value := value * 0x100 + data[position];
        position := position + 1;
        offset := offset + 1;
      }
      var minimum: nat := if count == 1 then 24 else if count == 2 then 0x100 else if count == 4 then 0x1_0000 else 0x1_0000_0000;
      if value < minimum { return Err(MalformedCbor); }
      return Ok(value);
    }

    method Unsigned() returns (r: Result<nat, CborError>)
      requires Valid()
      modifies this
      ensures Valid()
      ensures r.Ok? <==> HeadAt(data, old(position), 0).Some?
      ensures r.Ok? ==> HeadAt(data, old(position), 0) == Some((r.value, position))
    {
      r := ReadHead(0);
    }

    /** Looking at an integer moves nothing when there is one. */
    method PeekUnsigned() returns (r: Result<nat, CborError>)
      requires Valid()
      modifies this
      ensures Valid()
      ensures r.Ok? <==> HeadAt(data, old(position), 0).Some?
      ensures r.Ok? ==> r.value == HeadAt(data, old(position), 0).value.0 && position == old(position)
    {
      var saved := position;
      r := ReadHead(0);
      if r.Ok? { position := saved; }
    }

    method ExpectUnsigned(expected: nat) returns (r: Result<bool, CborError>)
      requires Valid() && expected < WORD
      modifies this
      ensures Valid()
      ensures r.Ok? <==> At(data, old(position), Head(0, expected))
      ensures r.Ok? ==> position == old(position) + |Head(0, expected)|
    {
      hide Head, HeadAt, At;
      ghost var start := position;
      if At(data, start, Head(0, expected)) { HeadReads(data, start, 0, expected); }
      if HeadAt(data, start, 0).Some? { HeadWasPrinted(data, start, 0); }
      var value := ReadHead(0);
      if value.Err? { return Err(value.error); }
      if value.value != expected { return Err(MalformedCbor); }
      return Ok(true);
    }

    method Boolean() returns (r: Result<bool, CborError>)
      requires Valid()
      modifies this
      ensures Valid()
      ensures r.Ok? <==> exists b :: At(data, old(position), Print(Bool(b)))
      ensures r.Ok? ==> At(data, old(position), Print(Bool(r.value))) && position == old(position) + 1
    {
      if position == |data| { return Err(MalformedCbor); }
      ghost var start := position;
      assert data[start..start + 1] == [data[start]];
      var value := data[position];
      position := position + 1;
      assert forall b :: At(data, start, Print(Bool(b))) <==> value == if b then 0xF5 else 0xF4;
      if value == 0xF4 || value == 0xF5 {
        assert At(data, start, Print(Bool(value == 0xF5)));
        return Ok(value == 0xF5);
      }
      return Err(MalformedCbor);
    }

    /** A collection's size, within the limits on depth and entries. */
    method Collection(major: nat, depth: nat) returns (r: Result<nat, CborError>)
      requires Valid() && major < 8
      modifies this
      ensures Valid()
      ensures r.Ok? <==> depth <= limits.maxDepth && HeadAt(data, old(position), major).Some?
                         && HeadAt(data, old(position), major).value.0 <= limits.maxEntries
      ensures r.Ok? ==> HeadAt(data, old(position), major) == Some((r.value, position))
    {
      if depth > limits.maxDepth { return Err(LimitExceeded); }
      r := ReadHead(major);
      if r.Ok? && r.value > limits.maxEntries { return Err(LimitExceeded); }
    }

    /** A byte string, of an exact size if one is required, below a maximum if one is given. */
    method ByteItem(required: nat, maximum: nat) returns (r: Result<Bytes, CborError>)
      requires Valid()
      modifies this
      ensures Valid()
      ensures r.Ok? <==>
                exists d: Bytes ::
                  |d| < WORD && |d| <= (if maximum == 0 then limits.maxBytes else maximum)
                  && (required != 0 ==> |d| == required) && At(data, old(position), Print(ByteString(d)))
      ensures r.Ok? ==> At(data, old(position), Print(ByteString(r.value)))
                        && position == old(position) + |Print(ByteString(r.value))|
    {
      hide Head, HeadAt;
      ghost var start := position;
      StringsAt(data, start, 2);
      var length := ReadHead(2);
      if length.Err? { return Err(length.error); }
      if length.value > (if maximum == 0 then limits.maxBytes else maximum) { return Err(LimitExceeded); }
      if required != 0 && length.value != required { return Err(MalformedCbor); }
      if length.value > |data| - position { return Err(MalformedCbor); }
      var value := data[position..position + length.value];
      position := position + length.value;
      HeadAndBody(data, start, 2, value);
      return Ok(value);
    }

    method Text() returns (r: Result<Bytes, CborError>)
      requires Valid()
      modifies this
      ensures Valid()
      ensures r.Ok? <==> exists d: Bytes :: |d| < WORD && |d| <= limits.maxText && WellFormed(d)
                                            && At(data, old(position), Print(TextString(d)))
      ensures r.Ok? ==> At(data, old(position), Print(TextString(r.value)))
                        && position == old(position) + |Print(TextString(r.value))|
    {
      hide Head, HeadAt, WellFormed;
      ghost var start := position;
      StringsAt(data, start, 3);
      var length := ReadHead(3);
      if length.Err? { return Err(length.error); }
      if length.value > limits.maxText { return Err(LimitExceeded); }
      if length.value > |data| - position { return Err(MalformedCbor); }
      var value := data[position..position + length.value];
      var valid := ValidUtf8(value);
      if !valid { return Err(MalformedCbor); }
      position := position + length.value;
      HeadAndBody(data, start, 3, value);
      return Ok(value);
    }

    /** An extension is skipped exactly when it is the print of an item within the limits, and then exactly it. */
    method SkipExtension(depth: nat) returns (r: Result<bool, CborError>)
      requires Valid()
      modifies this
      ensures Valid()
      ensures r.Ok? <==> exists item :: Fits(item, depth, limits) && At(data, old(position), Print(item))
      ensures forall item | Fits(item, depth, limits) && At(data, old(position), Print(item)) ::
                position == old(position) + |Print(item)|
    {
      hide Parse, Fits, Print, At;
      ghost var start := position;
      ParsesIffPrinted(data, start, depth, limits);
      r := Skip(depth);
      forall item | Fits(item, depth, limits) && At(data, start, Print(item)) ensures position == start + |Print(item)| {
        PrintedParses(item, data, start, depth, limits);
      }
    }

    method Skip(depth: nat) returns (r: Result<bool, CborError>)
      requires Valid()
      modifies this
      ensures Valid()
      ensures r.Ok? <==> Parse(data, old(position), depth, limits).Some?
      ensures r.Ok? ==> position == Parse(data, old(position), depth, limits).value.next
      decreases |data| - position, 1
    {
      hide HeadAt, WellFormed;
      if depth > limits.maxDepth { return Err(LimitExceeded); }
      if position == |data| { return Err(MalformedCbor); }
      var major := data[position] / 32;
      if major <= 1 {
        var head := ReadHead(major);
        return if head.Ok? then Ok(true) else Err(head.error);
      } else if major == 2 || major == 3 {
        r := SkipString(major);
      } else if major == 4 {
        r := SkipItems(depth);
      } else if major == 5 {
        r := SkipEntries(depth);
      } else if major == 7 && data[position] in {0xF4, 0xF5, 0xF6} {
        position := position + 1;
        return Ok(true);
      } else {
        return Err(MalformedCbor);
      }
    }

    method SkipString(major: nat) returns (r: Result<bool, CborError>)
      requires Valid() && (major == 2 || major == 3)
      modifies this
      ensures Valid()
      ensures var head := HeadAt(data, old(position), major);
              && (r.Ok? <==> head.Some? && head.value.0 <= (if major == 2 then limits.maxBytes else limits.maxText)
                             && head.value.0 <= |data| - head.value.1
                             && (major == 3 ==> WellFormed(data[head.value.1..head.value.1 + head.value.0])))
              && (r.Ok? ==> position == head.value.1 + head.value.0)
    {
      hide HeadAt, WellFormed;
      var length := ReadHead(major);
      if length.Err? { return Err(length.error); }
      if length.value > (if major == 2 then limits.maxBytes else limits.maxText) { return Err(LimitExceeded); }
      if length.value > |data| - position { return Err(MalformedCbor); }
      if major == 3 {
        var valid := ValidUtf8(data[position..position + length.value]);
        if !valid { return Err(MalformedCbor); }
      }
      position := position + length.value;
      return Ok(true);
    }

    method SkipItems(depth: nat) returns (r: Result<bool, CborError>)
      requires Valid() && depth <= limits.maxDepth && position < |data|
      modifies this
      ensures Valid()
      ensures var head := HeadAt(data, old(position), 4);
              var parsed := if head.None? || head.value.0 > limits.maxEntries then None
                            else ParseItems(data, head.value.1, head.value.0, depth + 1, limits);
              (r.Ok? <==> parsed.Some?) && (r.Ok? ==> position == parsed.value.next)
      decreases |data| - position, 0
    {
      hide HeadAt, Parse;
      ghost var start := position;
      var count := Collection(4, depth);
      if count.Err? { return Err(count.error); }
      ghost var first := position;
      var i := 0;
      while i < count.value
        invariant 0 <= i <= count.value && start < position <= |data| && first <= |data|
        invariant ParseItems(data, first, count.value, depth + 1, limits).Some?
                  <==> ParseItems(data, position, count.value - i, depth + 1, limits).Some?
        invariant ParseItems(data, first, count.value, depth + 1, limits).Some? ==>
                    ParseItems(data, first, count.value, depth + 1, limits).value.next
                    == ParseItems(data, position, count.value - i, depth + 1, limits).value.next
      {
        var skipped := Skip(depth + 1);
        if skipped.Err? { return Err(skipped.error); }
        i := i + 1;
      }
      return Ok(true);
    }

    /** Map entries: after the first, every key must exceed the one before. */
    method SkipEntries(depth: nat) returns (r: Result<bool, CborError>)
      requires Valid() && depth <= limits.maxDepth && position < |data|
      modifies this
      ensures Valid()
      ensures var head := HeadAt(data, old(position), 5);
              var parsed := if head.None? || head.value.0 > limits.maxEntries then None
                            else ParseEntries(data, head.value.1, head.value.0, None, depth + 1, limits);
              (r.Ok? <==> parsed.Some?) && (r.Ok? ==> position == parsed.value.next)
      decreases |data| - position, 0
    {
      hide HeadAt, Parse;
      ghost var start := position;
      var count := Collection(5, depth);
      if count.Err? { return Err(count.error); }
      ghost var first := position;
      var prior := 0;
      var i := 0;
      while i < count.value
        invariant 0 <= i <= count.value && start < position <= |data| && first <= |data|
        invariant ParseEntries(data, first, count.value, None, depth + 1, limits).Some?
                  <==> ParseEntries(data, position, count.value - i, if i == 0 then None else Some(prior), depth + 1, limits).Some?
        invariant ParseEntries(data, first, count.value, None, depth + 1, limits).Some? ==>
                    ParseEntries(data, first, count.value, None, depth + 1, limits).value.next
                    == ParseEntries(data, position, count.value - i, if i == 0 then None else Some(prior), depth + 1, limits).value.next
      {
        var key := ReadHead(0);
        if key.Err? { return Err(key.error); }
        if i != 0 && key.value <= prior { return Err(MalformedCbor); }
        prior := key.value;
        var skipped := Skip(depth + 1);
        if skipped.Err? { return Err(skipped.error); }
        i := i + 1;
      }
      return Ok(true);
    }
  }

  /** Any printed string at a position fixes what the head there reads. */
  lemma StringsAt(data: Bytes, pos: nat, major: nat)
    requires major == 2 || major == 3
    ensures forall d: Bytes | |d| < WORD && At(data, pos, Print(if major == 2 then ByteString(d) else TextString(d))) ::
              HeadAt(data, pos, major) == Some((|d|, pos + |Head(major, |d|)|)) && At(data, pos + |Head(major, |d|)|, d)
  {
    hide Head, HeadAt, At;
    forall d: Bytes | |d| < WORD && At(data, pos, Print(if major == 2 then ByteString(d) else TextString(d)))
      ensures HeadAt(data, pos, major) == Some((|d|, pos + |Head(major, |d|)|)) && At(data, pos + |Head(major, |d|)|, d)
    {
      HeadThenBody(data, pos, major, |d|, d);
    }
  }
}
