/** The item codec against the standard's own words: initial bytes, the examples of its appendix, and what strict items are. */
module CborStandard {
  import opened Wrappers
  import opened TextValidation
  import opened CborItems

  // ---------- Initial bytes (section 3 of RFC 8949) ----------

  /** The first byte of an item says what it is. */
  lemma FirstByteTells(item: Item)
    ensures var b := Print(item)[0] as int;
            match item
            case UInt(_) => 0x00 <= b <= 0x1B
            case NInt(_) => 0x20 <= b <= 0x3B
            case ByteString(_) => 0x40 <= b <= 0x5B
            case TextString(_) => 0x60 <= b <= 0x7B
            case List(_) => 0x80 <= b <= 0x9B
            case Table(_) => 0xA0 <= b <= 0xBB
            case Bool(flag) => b == (if flag then 0xF5 else 0xF4)
            case Null => b == 0xF6
  {
    hide BigEndian;
  }

  // ---------- Examples (appendix A of RFC 8949) ----------

  lemma IntegerExamples()
    ensures Print(UInt(0)) == [0x00] && Print(UInt(23)) == [0x17] && Print(UInt(24)) == [0x18, 0x18]
    ensures Print(UInt(100)) == [0x18, 0x64] && Print(UInt(1000)) == [0x19, 0x03, 0xE8]
    ensures Print(UInt(1000000)) == [0x1A, 0x00, 0x0F, 0x42, 0x40]
    ensures Print(NInt(0)) == [0x20] && Print(NInt(9)) == [0x29] && Print(NInt(99)) == [0x38, 0x63]
    ensures Print(NInt(999)) == [0x39, 0x03, 0xE7]
  {
    BigEndianOf(0, 24, 1); BigEndianOf(0, 100, 1); BigEndianOf(0, 99, 1);
    BigEndianOf(3, 0xE8, 2); BigEndianOf(3, 0xE7, 2); BigEndianOf(0, 3, 1);
    BigEndianOf(3906, 0x40, 4); BigEndianOf(15, 0x42, 3); BigEndianOf(0, 0x0F, 2); BigEndianOf(0, 0, 1);
  }

  lemma BigEndianOf(high: nat, low: nat, n: nat)
    requires n > 0 && low < 0x100
    ensures BigEndian(high * 0x100 + low, n) == BigEndian(high, n - 1) + [low]
  {
  }

  lemma PairPrints(a: Item, b: Item)
    ensures PrintItems([a]) == Print(a) && PrintItems([a, b]) == Print(a) + Print(b)
  {
    assert [a, b][1..] == [b] && [a][1..] == [] && [b][1..] == [];
  }

  lemma StringExamples()
    ensures Print(ByteString([1, 2, 3, 4])) == [0x44, 1, 2, 3, 4]
    ensures Print(TextString([0x61])) == [0x61, 0x61] && Print(TextString([])) == [0x60]
    ensures Print(Bool(false)) == [0xF4] && Print(Bool(true)) == [0xF5] && Print(Null) == [0xF6]
  {
    assert Head(2, |[1, 2, 3, 4]|) == [0x44];
  }

  lemma ListExamples()
    ensures Print(List([])) == [0x80] && Print(List([UInt(2), UInt(3)])) == [0x82, 2, 3]
    ensures Print(List([List([UInt(2), UInt(3)]), UInt(1)])) == [0x82, 0x82, 2, 3, 1]
  {
    hide PrintItems;
    var inner := List([UInt(2), UInt(3)]);
    PairPrints(UInt(2), UInt(3));
    assert Print(inner) == Head(4, 2) + PrintItems([UInt(2), UInt(3)]) == [0x82, 2, 3];
    assert Print(List([inner, UInt(1)])) == Head(4, 2) + PrintItems([inner, UInt(1)]);
    PairPrints(List([UInt(2), UInt(3)]), UInt(1));
    NothingPrints();
  }

  lemma NothingPrints()
    ensures PrintItems([]) == [] && PrintEntries([]) == []
  {
  }

  lemma PairOfEntries(a: Entry, b: Entry)
    ensures PrintEntries([a, b]) == Head(0, a.key) + Print(a.value) + (Head(0, b.key) + Print(b.value))
  {
    hide Print, Head;
    assert [a, b][1..] == [b] && [b][1..] == [];
    assert PrintEntries([b]) == PrintEntry(b) + [] == PrintEntry(b);
    assert PrintEntries([a, b]) == PrintEntry(a) + PrintEntries([b]);
  }

  lemma TableExamples()
    ensures Print(Table([])) == [0xA0] && Print(Table([Entry(1, UInt(2)), Entry(3, UInt(4))])) == [0xA2, 1, 2, 3, 4]
  {
    hide PrintEntries;
    PairOfEntries(Entry(1, UInt(2)), Entry(3, UInt(4)));
    NothingPrints();
  }

  // ---------- What strict items are ----------

  /** The item itself, or an item anywhere inside it. */
  ghost predicate Inside(x: Item, item: Item)
    decreases item
  {
    x == item
    || match item
       case List(items) => exists i :: 0 <= i < |items| && Inside(x, items[i])
       case Table(entries) => exists i :: 0 <= i < |entries| && Inside(x, entries[i].value)
       case _ => false
  }

  /** How many lists and tables lie around the innermost item. */
  ghost predicate NestedWithin(item: Item, levels: int)
    decreases item
  {
    0 <= levels
    && match item
       case List(items) => forall i | 0 <= i < |items| :: NestedWithin(items[i], levels - 1)
       case Table(entries) => forall i | 0 <= i < |entries| :: NestedWithin(entries[i].value, levels - 1)
       case _ => true
  }

  /** One item on its own: in range, well formed, keys ascending, none twice. */
  ghost predicate Strict(item: Item, limits: ItemLimits) {
    match item
    case UInt(v) => v < WORD
    case NInt(v) => v < WORD
    case ByteString(d) => |d| <= limits.maxBytes && |d| < WORD
    case TextString(d) => |d| <= limits.maxText && |d| < WORD && WellFormed(d)
    case List(items) => |items| <= limits.maxEntries && |items| < WORD
    case Table(entries) =>
      && |entries| <= limits.maxEntries && |entries| < WORD && (forall e | e in entries :: e.key < WORD)
      && forall i, j | 0 <= i < j < |entries| :: entries[i].key < entries[j].key
    case _ => true
  }

  /** The items allowed are those strict all through and not nested too deep. */
  lemma {:induction false} FitsExactly(item: Item, depth: nat, limits: ItemLimits)
    ensures Fits(item, depth, limits)
            <==> NestedWithin(item, limits.maxDepth - depth) && forall x | Inside(x, item) :: Strict(x, limits)
    decreases item
  {
    hide WellFormed;
    match item
    case List(items) =>
      ItemsFitExactly(items, depth + 1, limits);
      InsideList(items, limits);
    case Table(entries) =>
      EntriesFitExactly(entries, None, depth + 1, limits);
      InsideTable(entries, limits);
    case _ => assert Inside(item, item);
  }

  lemma InsideList(items: seq<Item>, limits: ItemLimits)
    ensures (forall x | Inside(x, List(items)) :: Strict(x, limits))
            <==> Strict(List(items), limits) && forall i, x | 0 <= i < |items| && Inside(x, items[i]) :: Strict(x, limits)
  {
    hide Strict;
    if forall x | Inside(x, List(items)) :: Strict(x, limits) {
      assert Inside(List(items), List(items));
      forall i, x | 0 <= i < |items| && Inside(x, items[i]) ensures Strict(x, limits) {
        assert Inside(x, List(items));
      }
    }
  }

  lemma InsideTable(entries: seq<Entry>, limits: ItemLimits)
    ensures (forall x | Inside(x, Table(entries)) :: Strict(x, limits))
            <==> Strict(Table(entries), limits)
                 && forall i, x | 0 <= i < |entries| && Inside(x, entries[i].value) :: Strict(x, limits)
  {
    hide Strict;
    if forall x | Inside(x, Table(entries)) :: Strict(x, limits) {
      assert Inside(Table(entries), Table(entries));
      forall i, x | 0 <= i < |entries| && Inside(x, entries[i].value) ensures Strict(x, limits) {
        assert Inside(x, Table(entries));
      }
    }
  }

  lemma {:induction false} ItemsFitExactly(items: seq<Item>, depth: nat, limits: ItemLimits)
    ensures FitItems(items, depth, limits)
            <==> forall i | 0 <= i < |items| ::
                   NestedWithin(items[i], limits.maxDepth - depth) && forall x | Inside(x, items[i]) :: Strict(x, limits)
    decreases items
  {
    hide Fits, Strict, Inside, NestedWithin;
    if items != [] {
      FitsExactly(items[0], depth, limits);
      ItemsFitExactly(items[1..], depth, limits);
      assert forall i | 0 < i < |items| :: items[i] == items[1..][i - 1];
    }
  }

  /** Every key is above the one before, and so above all before. */
  ghost predicate KeysAscend(entries: seq<Entry>, prior: Option<nat>) {
    && (forall i, j | 0 <= i < j < |entries| :: entries[i].key < entries[j].key)
    && (prior.Some? ==> forall i | 0 <= i < |entries| :: prior.value < entries[i].key)
  }

  lemma ValueFitsExactly(e: Entry, depth: nat, limits: ItemLimits)
    ensures Fits(e.value, depth, limits)
            <==> NestedWithin(e.value, limits.maxDepth - depth) && forall x | Inside(x, e.value) :: Strict(x, limits)
    decreases e
  {
    FitsExactly(e.value, depth, limits);
  }

  lemma {:induction false} EntriesFitExactly(entries: seq<Entry>, prior: Option<nat>, depth: nat, limits: ItemLimits)
    ensures FitEntries(entries, prior, depth, limits)
            <==> (forall e | e in entries :: e.key < WORD) && KeysAscend(entries, prior)
                 && forall i | 0 <= i < |entries| ::
                      NestedWithin(entries[i].value, limits.maxDepth - depth)
                      && forall x | Inside(x, entries[i].value) :: Strict(x, limits)
    decreases entries
  {
    hide Fits, Strict, Inside, NestedWithin, KeysAscend;
    if entries != [] {
      var rest := entries[1..];
      ValueFitsExactly(entries[0], depth, limits);
      EntriesFitExactly(rest, Some(entries[0].key), depth, limits);
      KeysStep(entries, prior);
      assert entries == [entries[0]] + rest;
    } else {
      NoKeys(prior);
    }
  }

  lemma NoKeys(prior: Option<nat>)
    ensures KeysAscend([], prior)
  {
  }

  lemma KeysStep(entries: seq<Entry>, prior: Option<nat>)
    requires entries != []
    ensures KeysAscend(entries, prior)
            <==> KeysAscend(entries[1..], Some(entries[0].key)) && (prior.Some? ==> prior.value < entries[0].key)
  {
    var rest := entries[1..];
    assert forall i | 0 <= i < |rest| :: rest[i] == entries[i + 1];
    if KeysAscend(rest, Some(entries[0].key)) {
      forall i, j | 0 <= i < j < |entries| ensures entries[i].key < entries[j].key {
        if i > 0 { assert rest[i - 1].key < rest[j - 1].key; } else { assert entries[j] == rest[j - 1]; }
      }
      forall i | 0 < i < |entries| ensures entries[0].key < entries[i].key { assert entries[i] == rest[i - 1]; }
    }
  }
}
