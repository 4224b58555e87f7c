/**
 * The strict deterministic CBOR items of the format (sections 3 and 4.2.1 of RFC 8949):
 * what an item prints as, what bytes parse to, and that the two undo each other.
 */
module CborItems {
  import opened Wrappers
  import opened TextValidation

  /** One item. Maps have unsigned keys, in ascending order. */
  datatype Item =
    | UInt(value: nat)
    | NInt(value: nat)
    | ByteString(data: Bytes)
    | TextString(data: Bytes)
    | List(items: seq<Item>)
    | Table(entries: seq<Entry>)
    | Bool(flag: bool)
    | Null

  datatype Entry = Entry(key: nat, value: Item)

  datatype ItemLimits = ItemLimits(maxDepth: nat, maxEntries: nat, maxText: nat, maxBytes: nat)

  const WORD: nat := 0x1_0000_0000_0000_0000

  // ---------- Big-endian integers ----------

  function Power(n: nat): nat {
    if n == 0 then 1 else 0x100 * Power(n - 1)
  }

  function BigEndian(v: nat, n: nat): (r: Bytes)
    ensures |r| == n
  {
    if n == 0 then [] else BigEndian(v / 0x100, n - 1) + [v % 0x100]
  }

  /** The value of the first n bytes. */
  function Value(bs: Bytes, n: nat): nat
    requires n <= |bs|
  {
    if n == 0 then 0 else Value(bs, n - 1) * 0x100 + bs[n - 1]
  }

  lemma {:induction false} ValueOfPrefix(a: Bytes, b: Bytes, n: nat)
    requires n <= |a| && n <= |b| && a[..n] == b[..n]
    ensures Value(a, n) == Value(b, n)
  {
    if n > 0 {
      assert a[..n][..n - 1] == a[..n - 1] && b[..n][..n - 1] == b[..n - 1];
      assert a[n - 1] == a[..n][n - 1] && b[n - 1] == b[..n][n - 1];
      ValueOfPrefix(a, b, n - 1);
    }
  }

  lemma {:induction false} ValueOfBigEndian(v: nat, n: nat)
    requires v < Power(n)
    ensures Value(BigEndian(v, n), n) == v
  {
    if n > 0 {
      ValueOfBigEndian(v / 0x100, n - 1);
      ValueOfPrefix(BigEndian(v, n), BigEndian(v / 0x100, n - 1), n - 1);
    }
  }

  lemma {:induction false} BigEndianOfValue(bs: Bytes)
    ensures Value(bs, |bs|) < Power(|bs|)
    ensures BigEndian(Value(bs, |bs|), |bs|) == bs
  {
    if bs != [] {
      var most := bs[..|bs| - 1];
      BigEndianOfValue(most);
      ValueOfPrefix(bs, most, |most|);
      assert bs == most + [bs[|bs| - 1]];
    }
  }

  // ---------- Item heads ----------

  /** The argument bytes that follow the initial byte in the shortest form. */
  function Extra(v: nat): nat {
    if v < 24 then 0 else if v < 0x100 then 1 else if v < 0x1_0000 then 2 else if v < 0x1_0000_0000 then 4 else 8
  }

  /** The additional information announcing n argument bytes. */
  function Info(n: nat): nat {
    if n == 1 then 24 else if n == 2 then 25 else if n == 4 then 26 else 27
  }

  function ExtraFor(info: nat): nat {
    if info == 24 then 1 else if info == 25 then 2 else if info == 26 then 4 else 8
  }

  function Minimum(n: nat): nat {
    if n == 1 then 24 else if n == 2 then 0x100 else if n == 4 then 0x1_0000 else 0x1_0000_0000
  }

  /** The shortest head for a value below the word size. */
  function Head(major: nat, v: nat): (r: Bytes)
    requires major < 8
    ensures |r| == 1 + Extra(v)
  {
    if v < 24 then [major * 32 + v] else [major * 32 + Info(Extra(v))] + BigEndian(v, Extra(v))
  }

  /** Some bytes stand at a position. */
  predicate At(data: Bytes, pos: nat, s: Bytes) {
    pos + |s| <= |data| && data[pos..pos + |s|] == s
  }

  lemma AtConcat(data: Bytes, pos: nat, a: Bytes, b: Bytes)
    ensures At(data, pos, a + b) <==> At(data, pos, a) && At(data, pos + |a|, b)
  {
    if pos + |a| + |b| <= |data| {
      var whole := data[pos..pos + |a| + |b|];
      assert whole == data[pos..pos + |a|] + data[pos + |a|..pos + |a| + |b|];
      assert whole == a + b ==> whole[..|a|] == a && whole[|a|..] == b;
    }
  }

  /** The head at a position, if it is a shortest head of the major type. */
  function HeadAt(data: Bytes, pos: nat, major: nat): (r: Option<(nat, nat)>)
    ensures r.Some? ==> pos < r.value.1 <= |data|
  {
    if pos >= |data| || data[pos] / 32 != major || data[pos] % 32 >= 28 then None
    else
      var info := data[pos] % 32;
      if info < 24 then Some((info, pos + 1))
      else
        var n := ExtraFor(info);
        if n > |data| - pos - 1 then None
        else
          var v := Value(data[pos + 1..pos + 1 + n], n);
          if v < Minimum(n) then None else Some((v, pos + 1 + n))
  }

  lemma PowerValues()
    ensures Power(1) == 0x100 && Power(2) == 0x1_0000 && Power(4) == 0x1_0000_0000 && Power(8) == WORD
  {
    assert Power(3) == 0x100_0000 && Power(4) == 0x1_0000_0000;
    assert Power(5) == 0x100_0000_0000 && Power(6) == 0x1_0000_0000_0000;
    assert Power(7) == 0x100_0000_0000_0000 && Power(8) == WORD;
  }

  /** What was printed is read. */
  lemma HeadReads(data: Bytes, pos: nat, major: nat, v: nat)
    requires major < 8 && v < WORD && At(data, pos, Head(major, v))
    ensures HeadAt(data, pos, major) == Some((v, pos + |Head(major, v)|))
  {
    hide Power, Value, BigEndian;
    var h := Head(major, v);
    assert data[pos] == data[pos..pos + |h|][0] == h[0];
    if v >= 24 {
      var n := Extra(v);
      PowerValues();
      ValueOfBigEndian(v, n);
      assert data[pos + 1..pos + 1 + n] == h[1..] == BigEndian(v, n);
    }
  }

  /** What is read was printed, and in its shortest form. */
  lemma HeadWasPrinted(data: Bytes, pos: nat, major: nat)
    requires major < 8 && HeadAt(data, pos, major).Some?
    ensures var (v, next) := HeadAt(data, pos, major).value;
            v < WORD && At(data, pos, Head(major, v)) && next == pos + |Head(major, v)|
  {
    hide Power, Value, BigEndian;
    var (v, next) := HeadAt(data, pos, major).value;
    var info := data[pos] % 32;
    if info >= 24 {
      var n := ExtraFor(info);
      var bs := data[pos + 1..pos + 1 + n];
      PowerValues();
      BigEndianOfValue(bs);
      assert Extra(v) == n && Info(n) == info;
      assert data[pos..next] == [data[pos]] + bs;
    } else {
      assert data[pos..next] == [data[pos]];
    }
  }

  /** Any head the standard allows for a value: in the initial byte, or in 1, 2, 4 or 8 bytes after it. */
  ghost predicate HeadForm(h: Bytes, major: nat, v: nat) {
    major < 8
    && ((v < 24 && h == [major * 32 + v])
        || exists n :: n in {1, 2, 4, 8} && v < Power(n) && h == [major * 32 + Info(n)] + BigEndian(v, n))
  }

  /** The printed head is such a form, and no other one is as short. */
  lemma HeadIsShortest(h: Bytes, major: nat, v: nat)
    requires major < 8 && v < WORD && HeadForm(h, major, v)
    ensures HeadForm(Head(major, v), major, v)
    ensures |h| > |Head(major, v)| || h == Head(major, v)
  {
    PowerValues();
    assert Extra(v) in {0, 1, 2, 4, 8};
    if v >= 24 { assert Head(major, v) == [major * 32 + Info(Extra(v))] + BigEndian(v, Extra(v)); }
  }

  // ---------- Printing ----------

  function Print(item: Item): (r: Bytes)
    ensures |r| > 0
    decreases item
  {
    match item
    case UInt(v) => Head(0, v)
    case NInt(v) => Head(1, v)
    case ByteString(d) => Head(2, |d|) + d
    case TextString(d) => Head(3, |d|) + d
    case List(items) => Head(4, |items|) + PrintItems(items)
    case Table(entries) => Head(5, |entries|) + PrintEntries(entries)
    case Bool(b) => [if b then 0xF5 else 0xF4]
    case Null => [0xF6]
  }

  function PrintItems(items: seq<Item>): Bytes
    decreases items
  {
    if items == [] then [] else Print(items[0]) + PrintItems(items[1..])
  }

  function PrintEntries(entries: seq<Entry>): Bytes
    decreases entries
  {
    if entries == [] then [] else PrintEntry(entries[0]) + PrintEntries(entries[1..])
  }

  function PrintEntry(e: Entry): Bytes
    decreases e
  {
    Head(0, e.key) + Print(e.value)
  }

  // ---------- Items within the limits ----------

  ghost predicate Fits(item: Item, depth: nat, limits: ItemLimits)
    decreases item
  {
    depth <= limits.maxDepth
    && match item
       case UInt(v) => v < WORD
       case NInt(v) => v < WORD
       case ByteString(d) => |d| <= limits.maxBytes && |d| < WORD
       case TextString(d) => |d| <= limits.maxText && |d| < WORD && WellFormed(d)
       case List(items) => |items| <= limits.maxEntries && |items| < WORD && FitItems(items, depth + 1, limits)
       case Table(entries) =>
         |entries| <= limits.maxEntries && |entries| < WORD && FitEntries(entries, None, depth + 1, limits)
       case Bool(_) => true
       case Null => true
  }

  ghost predicate FitItems(items: seq<Item>, depth: nat, limits: ItemLimits)
    decreases items
  {
    items == [] || (Fits(items[0], depth, limits) && FitItems(items[1..], depth, limits))
  }

  /** Keys ascend strictly from the one before. */
  ghost predicate FitEntries(entries: seq<Entry>, prior: Option<nat>, depth: nat, limits: ItemLimits)
    decreases entries
  {
    entries == []
    || (FitEntry(entries[0], prior, depth, limits) && FitEntries(entries[1..], Some(entries[0].key), depth, limits))
  }

  ghost predicate FitEntry(e: Entry, prior: Option<nat>, depth: nat, limits: ItemLimits)
    decreases e
  {
    e.key < WORD && (prior.Some? ==> e.key > prior.value) && Fits(e.value, depth, limits)
  }

  // ---------- Parsing ----------

  datatype Parsed<T> = Parsed(value: T, next: nat)

  /** The item at a position, and where it ends. */
  ghost function Parse(data: Bytes, pos: nat, depth: nat, limits: ItemLimits): (r: Option<Parsed<Item>>)
    ensures r.Some? ==> pos < r.value.next <= |data|
    decreases |data| - pos, 0, 0
  {
    if depth > limits.maxDepth || pos >= |data| then None
    else
      var major := data[pos] / 32;
      if major == 7 then
        (if data[pos] == 0xF4 || data[pos] == 0xF5 then Some(Parsed(Bool(data[pos] == 0xF5), pos + 1))
         else if data[pos] == 0xF6 then Some(Parsed(Null, pos + 1))
         else None)
      else
        match HeadAt(data, pos, major)
        case None => None
        case Some((v, next)) =>
          if major == 0 then Some(Parsed(UInt(v), next))
          else if major == 1 then Some(Parsed(NInt(v), next))
          else if major == 2 then
            (if v <= limits.maxBytes && v <= |data| - next
             then Some(Parsed(ByteString(data[next..next + v]), next + v)) else None)
          else if major == 3 then
            (if v <= limits.maxText && v <= |data| - next && WellFormed(data[next..next + v])
             then Some(Parsed(TextString(data[next..next + v]), next + v)) else None)
          else if v > limits.maxEntries then None
          else if major == 4 then
            (match ParseItems(data, next, v, depth + 1, limits)
             case None => None
             case Some(Parsed(items, end)) => Some(Parsed(List(items), end)))
          else if major == 5 then
            (match ParseEntries(data, next, v, None, depth + 1, limits)
             case None => None
             case Some(Parsed(entries, end)) => Some(Parsed(Table(entries), end)))
          else None
  }

  ghost function ParseItems(data: Bytes, pos: nat, count: nat, depth: nat, limits: ItemLimits)
    : (r: Option<Parsed<seq<Item>>>)
    requires pos <= |data|
    ensures r.Some? ==> pos <= r.value.next <= |data| && |r.value.value| == count
    decreases |data| - pos, 1, count
  {
    if count == 0 then Some(Parsed([], pos))
    else
      match Parse(data, pos, depth, limits)
      case None => None
      case Some(Parsed(item, next)) =>
        match ParseItems(data, next, count - 1, depth, limits)
        case None => None
        case Some(Parsed(rest, end)) => Some(Parsed([item] + rest, end))
  }

  ghost function ParseEntries(data: Bytes, pos: nat, count: nat, prior: Option<nat>, depth: nat, limits: ItemLimits)
    : (r: Option<Parsed<seq<Entry>>>)
    requires pos <= |data|
    ensures r.Some? ==> pos <= r.value.next <= |data| && |r.value.value| == count
    decreases |data| - pos, 2, count
  {
    if count == 0 then Some(Parsed([], pos))
    else
      match ParseEntry(data, pos, prior, depth, limits)
      case None => None
      case Some(Parsed(e, next)) =>
        match ParseEntries(data, next, count - 1, Some(e.key), depth, limits)
        case None => None
        case Some(Parsed(rest, end)) => Some(Parsed([e] + rest, end))
  }

  ghost function ParseEntry(data: Bytes, pos: nat, prior: Option<nat>, depth: nat, limits: ItemLimits): (r: Option<Parsed<Entry>>)
    ensures r.Some? ==> pos < r.value.next <= |data|
    decreases |data| - pos, 1, 0
  {
    match HeadAt(data, pos, 0)
    case None => None
    case Some((key, at)) =>
      if prior.Some? && key <= prior.value then None
      else
        match Parse(data, at, depth, limits)
        case None => None
        case Some(Parsed(item, next)) => Some(Parsed(Entry(key, item), next))
  }

  // ---------- What is printed parses ----------

  lemma FirstByte(data: Bytes, pos: nat, major: nat, v: nat)
    requires major < 8 && At(data, pos, Head(major, v))
    ensures pos < |data| && data[pos] / 32 == major
  {
    var h := Head(major, v);
    assert data[pos] == data[pos..pos + |h|][0];
  }

  /** A head and the body after it. */
  lemma HeadThenBody(data: Bytes, pos: nat, major: nat, v: nat, body: Bytes)
    requires major < 8 && v < WORD
    requires At(data, pos, Head(major, v) + body)
    ensures pos < |data| && data[pos] / 32 == major
    ensures HeadAt(data, pos, major) == Some((v, pos + |Head(major, v)|))
    ensures At(data, pos + |Head(major, v)|, body)
  {
    hide Head, HeadAt;
    AtConcat(data, pos, Head(major, v), body);
    FirstByte(data, pos, major, v);
    HeadReads(data, pos, major, v);
  }

  /** The body of an item, after its head. */
  function BodyOf(item: Item): Bytes {
    match item
    case ByteString(d) => d
    case TextString(d) => d
    case List(items) => PrintItems(items)
    case Table(entries) => PrintEntries(entries)
    case _ => []
  }

  function MajorOf(item: Item): nat {
    match item
    case UInt(_) => 0 case NInt(_) => 1 case ByteString(_) => 2 case TextString(_) => 3
    case List(_) => 4 case Table(_) => 5 case _ => 7
  }

  function ArgumentOf(item: Item): nat {
    match item
    case UInt(v) => v
    case NInt(v) => v
    case ByteString(d) => |d|
    case TextString(d) => |d|
    case List(items) => |items|
    case Table(entries) => |entries|
    case _ => 0
  }

  lemma PrintShape(item: Item)
    ensures MajorOf(item) < 7 ==> Print(item) == Head(MajorOf(item), ArgumentOf(item)) + BodyOf(item)
  {
  }

  lemma ArgumentFits(item: Item, depth: nat, limits: ItemLimits)
    requires Fits(item, depth, limits)
    ensures ArgumentOf(item) < WORD
  {
    hide WellFormed, FitItems, FitEntries;
  }

  /** A printed item within the limits parses back, up to exactly its last byte. */
  lemma {:induction false} PrintedParses(item: Item, data: Bytes, pos: nat, depth: nat, limits: ItemLimits)
    requires Fits(item, depth, limits) && At(data, pos, Print(item))
    ensures Parse(data, pos, depth, limits) == Some(Parsed(item, pos + |Print(item)|))
    decreases item
  {
    hide Head, HeadAt, WellFormed;
    if MajorOf(item) == 7 {
      assert data[pos] == data[pos..pos + 1][0];
    } else {
      PrintShape(item);
      ArgumentFits(item, depth, limits);
      HeadThenBody(data, pos, MajorOf(item), ArgumentOf(item), BodyOf(item));
      var next := pos + |Head(MajorOf(item), ArgumentOf(item))|;
      match item {
        case List(items) => PrintedItemsParse(items, data, next, depth + 1, limits);
        case Table(entries) => PrintedEntriesParse(entries, None, data, next, depth + 1, limits);
        case _ =>
      }
    }
  }

  lemma {:induction false} PrintedItemsParse(items: seq<Item>, data: Bytes, pos: nat, depth: nat, limits: ItemLimits)
    requires FitItems(items, depth, limits) && At(data, pos, PrintItems(items))
    ensures ParseItems(data, pos, |items|, depth, limits) == Some(Parsed(items, pos + |PrintItems(items)|))
    decreases items
  {
    hide Parse, Fits, Print;
    if items != [] {
      AtConcat(data, pos, Print(items[0]), PrintItems(items[1..]));
      PrintedParses(items[0], data, pos, depth, limits);
      PrintedItemsParse(items[1..], data, pos + |Print(items[0])|, depth, limits);
      assert [items[0]] + items[1..] == items;
    }
  }

  lemma {:induction false} PrintedEntriesParse(entries: seq<Entry>, prior: Option<nat>, data: Bytes, pos: nat, depth: nat,
                                               limits: ItemLimits)
    requires FitEntries(entries, prior, depth, limits) && At(data, pos, PrintEntries(entries))
    ensures ParseEntries(data, pos, |entries|, prior, depth, limits) == Some(Parsed(entries, pos + |PrintEntries(entries)|))
    decreases entries
  {
    hide ParseEntry, FitEntry, PrintEntry;
    if entries != [] {
      var e := entries[0];
      AtConcat(data, pos, PrintEntry(e), PrintEntries(entries[1..]));
      PrintedEntryParses(e, prior, data, pos, depth, limits);
      PrintedEntriesParse(entries[1..], Some(e.key), data, pos + |PrintEntry(e)|, depth, limits);
      assert [e] + entries[1..] == entries;
    }
  }

  lemma {:induction false} PrintedEntryParses(e: Entry, prior: Option<nat>, data: Bytes, pos: nat, depth: nat, limits: ItemLimits)
    requires FitEntry(e, prior, depth, limits) && At(data, pos, PrintEntry(e))
    ensures ParseEntry(data, pos, prior, depth, limits) == Some(Parsed(e, pos + |PrintEntry(e)|))
    decreases e
  {
    hide Parse, Fits, Print, Head, HeadAt;
    HeadThenBody(data, pos, 0, e.key, Print(e.value));
    PrintedParses(e.value, data, pos + |Head(0, e.key)|, depth, limits);
  }

  // ---------- What parses was printed ----------

  /** Any head read, with any body found after it, is a print. */
  lemma HeadAndBody(data: Bytes, pos: nat, major: nat, body: Bytes)
    requires major < 8 && HeadAt(data, pos, major).Some? && At(data, HeadAt(data, pos, major).value.1, body)
    ensures var (v, next) := HeadAt(data, pos, major).value;
            v < WORD && At(data, pos, Head(major, v) + body) && next + |body| == pos + |Head(major, v) + body|
  {
    hide Head, HeadAt;
    HeadWasPrinted(data, pos, major);
    AtConcat(data, pos, Head(major, HeadAt(data, pos, major).value.0), body);
  }

  lemma ParsedArgument(data: Bytes, pos: nat, depth: nat, limits: ItemLimits)
    requires Parse(data, pos, depth, limits).Some? && MajorOf(Parse(data, pos, depth, limits).value.value) < 7
    ensures pos < |data|
    ensures var p := Parse(data, pos, depth, limits).value;
            && HeadAt(data, pos, MajorOf(p.value)).Some?
            && HeadAt(data, pos, MajorOf(p.value)).value.0 == ArgumentOf(p.value)
  {
    hide HeadAt, WellFormed;
  }

  /** Accepted bytes are exactly the print of one item within the limits. */
  lemma {:induction false} ParsedWasPrinted(data: Bytes, pos: nat, depth: nat, limits: ItemLimits)
    requires Parse(data, pos, depth, limits).Some?
    ensures var p := Parse(data, pos, depth, limits).value;
            Fits(p.value, depth, limits) && At(data, pos, Print(p.value)) && p.next == pos + |Print(p.value)|
    decreases |data| - pos, 0, 0
  {
    hide Head, HeadAt, WellFormed;
    var p := Parse(data, pos, depth, limits).value;
    if MajorOf(p.value) == 7 {
      assert data[pos..pos + 1] == [data[pos]];
    } else {
      ParsedArgument(data, pos, depth, limits);
      PrintShape(p.value);
      var (v, next) := HeadAt(data, pos, MajorOf(p.value)).value;
      match p.value {
        case List(items) => ParsedItemsWerePrinted(data, next, v, depth + 1, limits);
        case Table(entries) => ParsedEntriesWerePrinted(data, next, v, None, depth + 1, limits);
        case _ =>
      }
      HeadAndBody(data, pos, MajorOf(p.value), BodyOf(p.value));
    }
  }

  lemma {:induction false} ParsedItemsWerePrinted(data: Bytes, pos: nat, count: nat, depth: nat, limits: ItemLimits)
    requires pos <= |data| && ParseItems(data, pos, count, depth, limits).Some?
    ensures var p := ParseItems(data, pos, count, depth, limits).value;
            FitItems(p.value, depth, limits) && At(data, pos, PrintItems(p.value)) && p.next == pos + |PrintItems(p.value)|
    decreases |data| - pos, 1, count
  {
    hide Parse, Fits, Print;
    if count > 0 {
      ParsedWasPrinted(data, pos, depth, limits);
      var first := Parse(data, pos, depth, limits).value;
      ParsedItemsWerePrinted(data, first.next, count - 1, depth, limits);
      var rest := ParseItems(data, first.next, count - 1, depth, limits).value.value;
      AtConcat(data, pos, Print(first.value), PrintItems(rest));
      assert ([first.value] + rest)[1..] == rest;
    }
  }

  lemma {:induction false} ParsedEntriesWerePrinted(data: Bytes, pos: nat, count: nat, prior: Option<nat>, depth: nat,
                                                    limits: ItemLimits)
    requires pos <= |data| && ParseEntries(data, pos, count, prior, depth, limits).Some?
    ensures var p := ParseEntries(data, pos, count, prior, depth, limits).value;
            FitEntries(p.value, prior, depth, limits) && At(data, pos, PrintEntries(p.value))
            && p.next == pos + |PrintEntries(p.value)|
    decreases |data| - pos, 2, count
  {
    hide ParseEntry, FitEntry, PrintEntry;
    if count > 0 {
      ParsedEntryWasPrinted(data, pos, prior, depth, limits);
      var first := ParseEntry(data, pos, prior, depth, limits).value;
      ParsedEntriesWerePrinted(data, first.next, count - 1, Some(first.value.key), depth, limits);
      var rest := ParseEntries(data, first.next, count - 1, Some(first.value.key), depth, limits).value.value;
      AtConcat(data, pos, PrintEntry(first.value), PrintEntries(rest));
      assert ([first.value] + rest)[1..] == rest;
    }
  }

  lemma {:induction false} ParsedEntryWasPrinted(data: Bytes, pos: nat, prior: Option<nat>, depth: nat, limits: ItemLimits)
    requires ParseEntry(data, pos, prior, depth, limits).Some?
    ensures var p := ParseEntry(data, pos, prior, depth, limits).value;
            FitEntry(p.value, prior, depth, limits) && At(data, pos, PrintEntry(p.value))
            && p.next == pos + |PrintEntry(p.value)|
    decreases |data| - pos, 1, 0
  {
    hide Parse, Fits, Print, Head, HeadAt;
    var (key, at) := HeadAt(data, pos, 0).value;
    ParsedWasPrinted(data, at, depth, limits);
    HeadAndBody(data, pos, 0, Print(Parse(data, at, depth, limits).value.value));
  }

  /** Items and bytes are in bijection: a position holds at most one print of an item within the limits. */
  lemma PrintsAreUnique(a: Item, b: Item, data: Bytes, pos: nat, depth: nat, limits: ItemLimits)
    requires Fits(a, depth, limits) && Fits(b, depth, limits)
    requires At(data, pos, Print(a)) && At(data, pos, Print(b))
    ensures a == b
  {
    hide Parse, Fits, Print;
    PrintedParses(a, data, pos, depth, limits);
    PrintedParses(b, data, pos, depth, limits);
  }
}
