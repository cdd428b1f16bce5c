/** Where the parts of an encoded tree lie in a byte string, and what the nodes inside a
    collection or a report are. Shared by the two decoders. */
module TlvWire {
  import opened Wrappers
  import opened Tlv

  predicate At(data: seq<Byte>, off: nat, s: seq<Byte>) {
    off + |s| <= |data| && data[off..off + |s|] == s
  }

  lemma AtSplit(data: seq<Byte>, off: nat, a: seq<Byte>, b: seq<Byte>)
    requires At(data, off, a + b)
    ensures At(data, off, a) && At(data, off + |a|, b)
  {
    var s := data[off..off + |a + b|];
    assert data[off..off + |a|] == s[..|a|];
    assert data[off + |a|..off + |a| + |b|] == s[|a|..];
  }

  lemma AtPrefix(data: seq<Byte>, off: nat, a: seq<Byte>, s: seq<Byte>)
    requires At(data, off, s) && a <= s
    ensures At(data, off, a)
  {
    AtSplit(data, off, a, s[|a|..]);
  }

  lemma AtByte(data: seq<Byte>, off: nat, b: Byte)
    requires At(data, off, [b])
    ensures off < |data| && data[off] == b
  {
    assert data[off..off + 1][0] == b;
  }

  // ---------- numbers ----------

  function FromBits32(n: U32): I32 { if n < 0x8000_0000 then n else n - 0x1_0000_0000 }

  lemma AtLe16(data: seq<Byte>, off: nat, n: U16)
    requires At(data, off, Le16(n))
    ensures off + 2 <= |data| && FromLe16(data[off], data[off + 1]) == n
  {
    var s := data[off..off + 2];
    assert s[0] == n % 256 && s[1] == n / 256;
  }

  lemma AtLe32(data: seq<Byte>, off: nat, n: U32)
    requires At(data, off, Le32(n))
    ensures off + 4 <= |data| && FromLe32(data[off], data[off + 1], data[off + 2], data[off + 3]) == n
  {
    var s := data[off..off + 4];
    assert s[0] == n % 256 && s[1] == n / 256 % 256 && s[2] == n / 65536 % 256 && s[3] == n / 16777216;
    Bytes32(n);
  }

  /** One byte of a varint, and the rest of it. */
  lemma VarintBytes(data: seq<Byte>, off: nat, n: nat)
    requires At(data, off, Varint(n))
    ensures off < |data| && data[off] % 128 == n % 128 && (data[off] < 128 <==> n < 128)
    ensures n >= 128 ==> At(data, off + 1, Varint(n / 128)) && |Varint(n)| == 1 + |Varint(n / 128)|
    ensures n < 128 ==> |Varint(n)| == 1
  {
    if n < 128 {
      AtByte(data, off, n);
    } else {
      AtSplit(data, off, [n % 128 + 128], Varint(n / 128));
      AtByte(data, off, n % 128 + 128);
    }
  }

  /** `x << shift` in 32 bits, for the shifts a varint uses. */
  function ShiftLeft(x: nat, shift: nat): U32
    requires shift < 32
  {
    x * Power2(shift) % LIMIT
  }

  function Power2(n: nat): (p: nat)
    ensures p > 0
  {
    if n == 0 then 1 else 2 * Power2(n - 1)
  }

  lemma Power2Next(n: nat)
    ensures Power2(n + 7) == 128 * Power2(n)
  {
    assert Power2(n + 7) == 2 * Power2(n + 6);
    assert Power2(n + 6) == 2 * Power2(n + 5);
    assert Power2(n + 5) == 2 * Power2(n + 4);
    assert Power2(n + 4) == 2 * Power2(n + 3);
    assert Power2(n + 3) == 2 * Power2(n + 2);
    assert Power2(n + 2) == 2 * Power2(n + 1);
  }

  /** The value of digits `x` that start at bit `shift`. */
  function Weighted(x: nat, shift: nat): nat { x * Power2(shift) }

  lemma NoShift(x: nat)
    ensures Weighted(x, 0) == x
  {
  }

  lemma NoDigits(shift: nat)
    ensures Weighted(0, shift) == 0
  {
  }

  /** The lowest seven bits of `x` apart from the rest. */
  lemma SevenBits(x: nat, p: nat)
    ensures x * p == x % 128 * p + x / 128 * (128 * p)
  {
    var high, low := x / 128, x % 128;
    assert x == 128 * high + low;
    assert (128 * high + low) * p == 128 * high * p + low * p;
    assert 128 * high * p == high * (128 * p);
  }

  lemma WeightedSplit(x: nat, shift: nat)
    ensures Weighted(x, shift) == Weighted(x % 128, shift) + Weighted(x / 128, shift + 7)
  {
    hide Power2;
    SevenBits(x, Power2(shift));
    Power2Next(shift);
  }

  /** Seven more bits: the shift stays below the width, and nothing is cut off. */
  lemma ShiftFits(value: U32, result: nat, rest: nat, shift: nat)
    requires shift % 7 == 0 && (rest > 0 || shift == 0)
    requires result + Weighted(rest, shift) == value
    ensures shift < 32
    ensures ShiftLeft(rest % 128, shift) == Weighted(rest % 128, shift)
    ensures result + Weighted(rest % 128, shift) + Weighted(rest / 128, shift + 7) == value
  {
    hide Weighted;
    WeightedSplit(rest, shift);
    NothingCut(rest, shift);
    NothingCutBelow(rest % 128, shift);
  }

  lemma NothingCut(rest: nat, shift: nat)
    requires shift % 7 == 0 && (rest > 0 || shift == 0) && Weighted(rest, shift) < LIMIT
    ensures shift < 32
  {
    hide Power2;
    SmallShift(rest, shift);
  }

  lemma NothingCutBelow(x: nat, shift: nat)
    requires shift < 32 && Weighted(x, shift) < LIMIT
    ensures ShiftLeft(x, shift) == Weighted(x, shift)
  {
    hide Power2;
  }

  lemma SmallShift(rest: nat, shift: nat)
    requires rest > 0 || shift == 0
    requires rest * Power2(shift) < LIMIT
    ensures shift < 35
  {
    if rest > 0 { assert rest * Power2(shift) >= Power2(shift); }
    Power2At35();
    if shift >= 35 { Power2Grows(35, shift); }
  }

  lemma {:induction false} Power2Grows(a: nat, b: nat)
    requires a <= b
    ensures Power2(a) <= Power2(b)
  {
    if a < b { Power2Grows(a, b - 1); }
  }

  lemma Power2At35()
    ensures Power2(35) == 0x8_0000_0000
  {
    Power2Next(0);
    Power2Next(7);
    Power2Next(14);
    Power2Next(21);
    Power2Next(28);
    assert Power2(0) == 1;
  }

  // ---------- flags ----------

  /** Binary digit `k`: what the mask `1 << k` selects. */
  predicate Digit(n: nat, k: nat) {
    if k == 0 then n % 2 == 1 else Digit(n / 2, k - 1)
  }

  function FlagsFrom(bits: U16): Flags {
    Flags(Digit(bits, 0), Digit(bits, 1), Digit(bits, 2), Digit(bits, 3), Digit(bits, 4), Digit(bits, 5),
          Digit(bits, 6), Digit(bits, 7), Digit(bits, 8), Digit(bits, 9))
  }

  /** The number whose binary digits are the flags from position `i` on, lowest first. */
  function Digits(bools: seq<bool>, i: nat): nat
    requires i <= |bools|
    decreases |bools| - i
  {
    if i == |bools| then 0 else Bit(bools[i], 1) + 2 * Digits(bools, i + 1)
  }

  lemma {:induction false} DigitsBack(bools: seq<bool>, i: nat, k: nat)
    requires i + k < |bools|
    ensures Digit(Digits(bools, i), k) == bools[i + k]
    decreases k
  {
    var rest := Digits(bools, i + 1);
    assert (Bit(bools[i], 1) + 2 * rest) / 2 == rest;
    if k > 0 { DigitsBack(bools, i + 1, k - 1); }
  }

  lemma FlagBitsAreDigits(f: Flags)
    ensures FlagBits(f) == Digits([f.isAbsolute, f.isArray, f.isRange, f.isConstant, f.isLinear, f.isVolatile,
                                   f.isBufferedBytes, f.hasNull, f.hasPreferredState, f.wrap], 0)
  {
    var bools := [f.isAbsolute, f.isArray, f.isRange, f.isConstant, f.isLinear, f.isVolatile,
                  f.isBufferedBytes, f.hasNull, f.hasPreferredState, f.wrap];
    TenDigits(bools);
  }

  lemma TenDigits(bools: seq<bool>)
    requires |bools| == 10
    ensures Digits(bools, 0)
         == Bit(bools[0], 1) + Bit(bools[1], 2) + Bit(bools[2], 4) + Bit(bools[3], 8) + Bit(bools[4], 16)
            + Bit(bools[5], 32) + Bit(bools[6], 64) + Bit(bools[7], 128) + Bit(bools[8], 256) + Bit(bools[9], 512)
  {
    FiveDigits(bools, 0);
    FiveDigits(bools, 5);
    assert Digits(bools, 10) == 0;
    hide Digits, Bit;
    HighWeights(bools[5], bools[6], bools[7], bools[8], bools[9]);
  }

  lemma FiveDigits(bools: seq<bool>, i: nat)
    requires i + 5 <= |bools|
    ensures Digits(bools, i) == Bit(bools[i], 1) + Bit(bools[i + 1], 2) + Bit(bools[i + 2], 4) + Bit(bools[i + 3], 8)
                                + Bit(bools[i + 4], 16) + 32 * Digits(bools, i + 5)
  {
    assert Digits(bools, i + 4) == Bit(bools[i + 4], 1) + 2 * Digits(bools, i + 5);
    assert Digits(bools, i + 3) == Bit(bools[i + 3], 1) + 2 * Digits(bools, i + 4);
    assert Digits(bools, i + 2) == Bit(bools[i + 2], 1) + 2 * Digits(bools, i + 3);
    assert Digits(bools, i + 1) == Bit(bools[i + 1], 1) + 2 * Digits(bools, i + 2);
  }

  lemma HighWeights(a: bool, b: bool, c: bool, d: bool, e: bool)
    ensures Bit(a, 32) == 32 * Bit(a, 1) && Bit(b, 64) == 32 * Bit(b, 2) && Bit(c, 128) == 32 * Bit(c, 4)
    ensures Bit(d, 256) == 32 * Bit(d, 8) && Bit(e, 512) == 32 * Bit(e, 16)
  {
  }

  lemma FlagsBack(f: Flags)
    ensures FlagsFrom(FlagBits(f)) == f
  {
    hide FlagBits, Digit, Digits;
    FlagBitsAreDigits(f);
    var bools := [f.isAbsolute, f.isArray, f.isRange, f.isConstant, f.isLinear, f.isVolatile,
                  f.isBufferedBytes, f.hasNull, f.hasPreferredState, f.wrap];
    forall k | 0 <= k < 10 ensures Digit(Digits(bools, 0), k) == bools[k] { DigitsBack(bools, 0, k); }
  }

  // ---------- the nodes of a tree ----------

  /** A node as it stands in the stream. */
  datatype Item =
    | FieldItem(field: Field)
    | ReportItem(kind: Byte, report: Report)
    | ChildItem(child: Collection)
    | OtherItem(tag: Byte, value: seq<Byte>)

  predicate ReportTag(tag: Byte) { tag == TAG_INPUT_REPORT || tag == TAG_OUTPUT_REPORT || tag == TAG_FEATURE_REPORT }

  /** A report stands under a report tag, an unknown node under no tag of ours. */
  predicate Proper(item: Item) {
    match item
    case ReportItem(kind, _) => ReportTag(kind)
    case OtherItem(tag, _) => !ReportTag(tag) && tag != TAG_COLLECTION && tag != TAG_FIELD
    case _ => true
  }

  function TagOf(item: Item): Byte {
    match item
    case FieldItem(_) => TAG_FIELD
    case ReportItem(kind, _) => kind
    case ChildItem(_) => TAG_COLLECTION
    case OtherItem(tag, _) => tag
  }

  function ValueOf(item: Item): seq<Byte> {
    match item
    case FieldItem(f) => FieldValue(f)
    case ReportItem(_, r) => ReportValue(r)
    case ChildItem(c) => CollectionValue(c)
    case OtherItem(_, value) => value
  }

  /** The tag tells the kind of a node, and with it what its value is. */
  lemma TagTells(item: Item)
    requires Proper(item)
    ensures TagOf(item) == TAG_COLLECTION <==> item.ChildItem?
    ensures ReportTag(TagOf(item)) <==> item.ReportItem?
    ensures TagOf(item) == TAG_FIELD <==> item.FieldItem?
    ensures item.ChildItem? ==> ValueOf(item) == CollectionValue(item.child)
    ensures item.ReportItem? ==> ValueOf(item) == ReportValue(item.report)
    ensures item.FieldItem? ==> ValueOf(item) == FieldValue(item.field)
  {
  }

  function EncodeItem(item: Item): seq<Byte> { Node(TagOf(item), ValueOf(item)) }

  function ItemCount(c: Collection): nat {
    |c.children| + |c.inputReports| + |c.outputReports| + |c.featureReports|
  }

  /** The k-th node inside a collection. */
  function ItemOf(c: Collection, k: nat): Item
    requires k < ItemCount(c)
  {
    var i := k - |c.children|;
    var o := i - |c.inputReports|;
    var f := o - |c.outputReports|;
    if i < 0 then ChildItem(c.children[k])
    else if o < 0 then ReportItem(TAG_INPUT_REPORT, c.inputReports[i])
    else if f < 0 then ReportItem(TAG_OUTPUT_REPORT, c.outputReports[o])
    else ReportItem(TAG_FEATURE_REPORT, c.featureReports[f])
  }

  function EncodeItems(c: Collection, k: nat): seq<Byte>
    requires k <= ItemCount(c)
  {
    if k == 0 then [] else EncodeItems(c, k - 1) + EncodeItem(ItemOf(c, k - 1))
  }

  lemma NodeNonempty(item: Item)
    ensures |ValueOf(item)| < |EncodeItem(item)|
  {
  }

  lemma ItemEncoding(item: Item)
    ensures item.ChildItem? ==> EncodeItem(item) == EncodeCollection(item.child)
    ensures item.ReportItem? ==> EncodeItem(item) == EncodeReport(item.kind, item.report)
    ensures item.FieldItem? ==> EncodeItem(item) == EncodeField(item.field)
  {
  }

  lemma PrefixMore(a: seq<Byte>, b: seq<Byte>, more: seq<Byte>)
    requires a <= b
    ensures a <= b + more
  {
  }

  lemma {:induction false} ItemsPrefix(c: Collection, k: nat, n: nat)
    requires k <= n <= ItemCount(c)
    ensures EncodeItems(c, k) <= EncodeItems(c, n)
    ensures k < n ==> |EncodeItems(c, k)| < |EncodeItems(c, n)|
    decreases n
  {
    hide EncodeItem, ItemOf, ValueOf;
    if k < n {
      ItemsPrefix(c, k, n - 1);
      NodeNonempty(ItemOf(c, n - 1));
      PrefixMore(EncodeItems(c, k), EncodeItems(c, n - 1), EncodeItem(ItemOf(c, n - 1)));
    }
  }

  lemma {:induction false} ChildItems(c: Collection, k: nat)
    requires k <= |c.children|
    ensures EncodeItems(c, k) == EncodeCollections(c.children[..k])
  {
    hide EncodeItem, EncodeCollection, EncodeReport;
    if k > 0 {
      ChildItems(c, k - 1);
      ItemEncoding(ItemOf(c, k - 1));
      CollectionsMore(c.children, k - 1);
    }
  }

  lemma {:induction false} InputItems(c: Collection, k: nat)
    requires k <= |c.inputReports|
    ensures EncodeItems(c, |c.children| + k)
         == EncodeCollections(c.children) + EncodeReports(TAG_INPUT_REPORT, c.inputReports[..k])
  {
    hide EncodeItem, EncodeCollection, EncodeReport;
    if k == 0 {
      ChildItems(c, |c.children|);
      assert c.children[..|c.children|] == c.children;
    } else {
      InputItems(c, k - 1);
      ItemEncoding(ItemOf(c, |c.children| + k - 1));
      ReportsMore(TAG_INPUT_REPORT, c.inputReports, k - 1);
    }
  }

  lemma {:induction false} OutputItems(c: Collection, k: nat)
    requires k <= |c.outputReports|
    ensures EncodeItems(c, |c.children| + |c.inputReports| + k)
         == EncodeCollections(c.children) + EncodeReports(TAG_INPUT_REPORT, c.inputReports)
            + EncodeReports(TAG_OUTPUT_REPORT, c.outputReports[..k])
  {
    hide EncodeItem, EncodeCollection, EncodeReport;
    if k == 0 {
      InputItems(c, |c.inputReports|);
      assert c.inputReports[..|c.inputReports|] == c.inputReports;
    } else {
      OutputItems(c, k - 1);
      ItemEncoding(ItemOf(c, |c.children| + |c.inputReports| + k - 1));
      ReportsMore(TAG_OUTPUT_REPORT, c.outputReports, k - 1);
    }
  }

  lemma {:induction false} FeatureItems(c: Collection, k: nat)
    requires k <= |c.featureReports|
    ensures EncodeItems(c, |c.children| + |c.inputReports| + |c.outputReports| + k)
         == EncodeCollections(c.children) + EncodeReports(TAG_INPUT_REPORT, c.inputReports)
            + EncodeReports(TAG_OUTPUT_REPORT, c.outputReports)
            + EncodeReports(TAG_FEATURE_REPORT, c.featureReports[..k])
  {
    hide EncodeItem, EncodeCollection, EncodeReport;
    if k == 0 {
      OutputItems(c, |c.outputReports|);
      assert c.outputReports[..|c.outputReports|] == c.outputReports;
    } else {
      FeatureItems(c, k - 1);
      ItemEncoding(ItemOf(c, |c.children| + |c.inputReports| + |c.outputReports| + k - 1));
      ReportsMore(TAG_FEATURE_REPORT, c.featureReports, k - 1);
    }
  }

  /** A collection's value is its head followed by its nodes. */
  lemma ValueIsItems(c: Collection)
    ensures CollectionValue(c) == EncodeHead(c) + EncodeItems(c, ItemCount(c))
  {
    hide EncodeItems, EncodeHead, EncodeCollections, EncodeReports;
    FeatureItems(c, |c.featureReports|);
    assert c.featureReports[..|c.featureReports|] == c.featureReports;
    var a, b, d, e := EncodeCollections(c.children), EncodeReports(TAG_INPUT_REPORT, c.inputReports),
                      EncodeReports(TAG_OUTPUT_REPORT, c.outputReports),
                      EncodeReports(TAG_FEATURE_REPORT, c.featureReports);
    assert EncodeHead(c) + (a + b + d + e) == EncodeHead(c) + a + b + d + e;
  }

  /** The k-th node starts where the first k nodes end. */
  lemma ItemAt(data: seq<Byte>, off: nat, c: Collection, k: nat)
    requires k < ItemCount(c) && At(data, off, EncodeItems(c, ItemCount(c)))
    ensures At(data, off + |EncodeItems(c, k)|, EncodeItem(ItemOf(c, k)))
    ensures |EncodeItems(c, k + 1)| == |EncodeItems(c, k)| + |EncodeItem(ItemOf(c, k))|
    ensures |EncodeItems(c, k + 1)| <= |EncodeItems(c, ItemCount(c))|
  {
    hide At, EncodeItem, ItemOf;
    ItemsPrefix(c, k + 1, ItemCount(c));
    AtPrefix(data, off, EncodeItems(c, k + 1), EncodeItems(c, ItemCount(c)));
    AtSplit(data, off, EncodeItems(c, k), EncodeItem(ItemOf(c, k)));
  }

  /** The i-th field of a report, likewise. */
  lemma FieldAt(data: seq<Byte>, off: nat, fs: seq<Field>, i: nat)
    requires i < |fs| && At(data, off, EncodeFields(fs))
    ensures At(data, off + |EncodeFields(fs[..i])|, EncodeItem(FieldItem(fs[i])))
    ensures |EncodeFields(fs[..i + 1])| == |EncodeFields(fs[..i])| + |EncodeItem(FieldItem(fs[i]))|
    ensures |EncodeFields(fs[..i + 1])| <= |EncodeFields(fs)|
  {
    hide At, EncodeItem, EncodeField, EncodeFields, EncodeCollection, EncodeReport;
    ItemEncoding(FieldItem(fs[i]));
    FieldsPrefix(fs, i + 1);
    FieldsMore(fs, i);
    AtPrefix(data, off, EncodeFields(fs[..i + 1]), EncodeFields(fs));
    AtSplit(data, off, EncodeFields(fs[..i]), EncodeField(fs[i]));
  }

  lemma {:induction false} FieldsPrefix(fs: seq<Field>, i: nat)
    requires i <= |fs|
    ensures EncodeFields(fs[..i]) <= EncodeFields(fs)
    ensures i < |fs| ==> |EncodeFields(fs[..i])| < |EncodeFields(fs)|
    decreases |fs|
  {
    if i < |fs| {
      FieldsPrefix(fs[..|fs| - 1], i);
      assert fs[..|fs| - 1][..i] == fs[..i];
    } else {
      assert fs[..i] == fs;
    }
  }

  /** The node value lies inside the value that holds it. */
  lemma ItemFits(c: Collection, k: nat)
    requires k < ItemCount(c)
    ensures |ValueOf(ItemOf(c, k))| < |EncodeItem(ItemOf(c, k))| < |CollectionValue(c)|
  {
    ValueIsItems(c);
    ItemsPrefix(c, k + 1, ItemCount(c));
  }

  lemma {:induction false} RootsPrefix(cs: seq<Collection>, i: nat)
    requires i <= |cs|
    ensures EncodeCollections(cs[..i]) <= EncodeCollections(cs)
    ensures i < |cs| ==> |EncodeCollections(cs[..i])| < |EncodeCollections(cs)|
    decreases |cs|
  {
    if i < |cs| {
      RootsPrefix(cs[..|cs| - 1], i);
      assert cs[..|cs| - 1][..i] == cs[..i];
    } else {
      assert cs[..i] == cs;
    }
  }

  /** The i-th root starts where the roots before it end. */
  lemma RootAt(data: seq<Byte>, cs: seq<Collection>, i: nat)
    requires i < |cs| && data == EncodeCollections(cs)
    ensures At(data, |EncodeCollections(cs[..i])|, EncodeItem(ChildItem(cs[i])))
    ensures |EncodeCollections(cs[..i + 1])| == |EncodeCollections(cs[..i])| + |EncodeItem(ChildItem(cs[i]))|
  {
    ItemEncoding(ChildItem(cs[i]));
    RootsPrefix(cs, i + 1);
    CollectionsMore(cs, i);
    assert At(data, 0, data);
    hide At, EncodeCollections, EncodeCollection, EncodeItem;
    AtPrefix(data, 0, EncodeCollections(cs[..i + 1]), data);
    AtSplit(data, 0, EncodeCollections(cs[..i]), EncodeCollection(cs[i]));
  }

  lemma NoRoots(cs: seq<Collection>)
    ensures EncodeCollections(cs[..0]) == []
  {
  }

  lemma NoItems(c: Collection)
    ensures EncodeItems(c, 0) == []
  {
  }

  lemma FieldItemFits(r: Report, i: nat)
    requires i < |r.items|
    ensures |ValueOf(FieldItem(r.items[i]))| < |ReportValue(r)|
  {
    FieldsLength(r.items, i);
  }

  // ---------- where the parts of a value are ----------

  lemma RangesAt(data: seq<Byte>, off: nat, f: Field)
    requires At(data, off, EncodeRanges(f))
    ensures At(data, off, Le32(Bits32(f.logicalMinimum))) && At(data, off + 4, Le32(Bits32(f.logicalMaximum)))
    ensures At(data, off + 8, Le32(Bits32(f.physicalMinimum))) && At(data, off + 12, Le32(Bits32(f.physicalMaximum)))
  {
    var a, b := Le32(Bits32(f.logicalMinimum)), Le32(Bits32(f.logicalMaximum));
    var c, d := Le32(Bits32(f.physicalMinimum)), Le32(Bits32(f.physicalMaximum));
    assert |a| == 4 && |b| == 4 && |c| == 4 && |d| == 4;
    hide At, Le32, Bits32;
    AtSplit(data, off, a + b + c, d);
    AtSplit(data, off, a + b, c);
    AtSplit(data, off, a, b);
  }

  lemma UnitsAt(data: seq<Byte>, off: nat, f: Field)
    requires At(data, off, EncodeUnits(f))
    ensures off + 8 <= |data|
    ensures data[off] == LowByte(f.unitExponent) && data[off + 1] == UnitTag(f.unitSystem)
    ensures data[off + 2] == LowByte(f.factors.length) && data[off + 3] == LowByte(f.factors.mass)
    ensures data[off + 4] == LowByte(f.factors.time) && data[off + 5] == LowByte(f.factors.temperature)
    ensures data[off + 6] == LowByte(f.factors.current) && data[off + 7] == LowByte(f.factors.luminous)
  {
    hide LowByte, UnitTag;
    var s := EncodeUnits(f);
    ByteIn(data, off, s, 0);
    ByteIn(data, off, s, 1);
    ByteIn(data, off, s, 2);
    ByteIn(data, off, s, 3);
    ByteIn(data, off, s, 4);
    ByteIn(data, off, s, 5);
    ByteIn(data, off, s, 6);
    ByteIn(data, off, s, 7);
  }

  lemma ByteIn(data: seq<Byte>, off: nat, s: seq<Byte>, i: nat)
    requires At(data, off, s) && i < |s|
    ensures off + i < |data| && data[off + i] == s[i]
  {
    assert data[off..off + |s|][i] == data[off + i];
  }

  lemma FixedLengths(f: Field)
    ensures |EncodeRanges(f)| == 16 && |EncodeUnits(f)| == 8 && |Le16(FlagBits(f.flags))| == 2
  {
    hide FlagBits, LowByte, Bits32, UnitTag;
  }

  lemma FixedAt(data: seq<Byte>, off: nat, f: Field)
    requires At(data, off, EncodeFixed(f))
    ensures var size := off + 2 + |Varint(f.reportSize)|;
            var ranges := size + |Varint(f.reportCount)|;
            At(data, off, Le16(FlagBits(f.flags))) && At(data, off + 2, Varint(f.reportSize))
            && At(data, size, Varint(f.reportCount)) && At(data, ranges, EncodeRanges(f))
            && At(data, ranges + 16, EncodeUnits(f)) && off + |EncodeFixed(f)| == ranges + 24
  {
    hide At, Le16, Varint, FlagBits, EncodeRanges, EncodeUnits;
    FixedLengths(f);
    var a, b, c := Le16(FlagBits(f.flags)), Varint(f.reportSize), Varint(f.reportCount);
    AtSplit(data, off, a + b + c + EncodeRanges(f), EncodeUnits(f));
    AtSplit(data, off, a + b + c, EncodeRanges(f));
    AtSplit(data, off, a + b, c);
    AtSplit(data, off, a, b);
  }

  lemma ValueAt(data: seq<Byte>, off: nat, f: Field)
    requires At(data, off, FieldValue(f))
    ensures At(data, off, EncodeFixed(f)) && At(data, off + |EncodeFixed(f)|, EncodeUsages(f))
    ensures At(data, off + |EncodeFixed(f)| + |EncodeUsages(f)|, EncodeStrings(f.strings))
    ensures |FieldValue(f)| == |EncodeFixed(f)| + |EncodeUsages(f)| + |EncodeStrings(f.strings)|
  {
    hide At, EncodeFixed, EncodeUsages, EncodeStrings;
    AtSplit(data, off, EncodeFixed(f) + EncodeUsages(f), EncodeStrings(f.strings));
    AtSplit(data, off, EncodeFixed(f), EncodeUsages(f));
  }

  /** The first string of a list: its length, its bytes, and then the rest. */
  lemma StringAt(data: seq<Byte>, off: nat, ss: seq<seq<Byte>>)
    requires |ss| > 0 && At(data, off, ConcatStrings(ss))
    ensures At(data, off, Varint(|ss[0]|))
    ensures var start := off + |Varint(|ss[0]|)|;
            start + |ss[0]| <= |data| && data[start..start + |ss[0]|] == ss[0]
            && At(data, start + |ss[0]|, ConcatStrings(ss[1..]))
    ensures |ConcatStrings(ss)| == |Varint(|ss[0]|)| + |ss[0]| + |ConcatStrings(ss[1..])|
  {
    hide Varint;
    AtSplit(data, off, Varint(|ss[0]|) + ss[0], ConcatStrings(ss[1..]));
    AtSplit(data, off, Varint(|ss[0]|), ss[0]);
  }

  function Presence(c: Collection): Byte {
    (if c.usagePage.Some? then 1 else 0) + (if c.usage.Some? then 2 else 0)
  }

  lemma HeadAt(data: seq<Byte>, off: nat, c: Collection)
    requires At(data, off, EncodeHead(c))
    ensures At(data, off, [Presence(c)])
    ensures Digit(Presence(c), 0) <==> c.usagePage.Some?
    ensures Digit(Presence(c), 1) <==> c.usage.Some?
    ensures c.usagePage.Some? ==> At(data, off + 1, Le16(c.usagePage.value))
    ensures var usage := off + (if c.usagePage.Some? then 3 else 1);
            var kind := usage + (if c.usage.Some? then 2 else 0);
            (c.usage.Some? ==> At(data, usage, Le16(c.usage.value)))
            && At(data, kind, [c.collectionType]) && off + |EncodeHead(c)| == kind + 1
  {
    assert Digit(Presence(c), 1) <==> Digit(Presence(c) / 2, 0);
    var a := if c.usagePage.Some? then Le16(c.usagePage.value) else [];
    var b := if c.usage.Some? then Le16(c.usage.value) else [];
    assert EncodeHead(c) == [Presence(c)] + a + b + [c.collectionType];
    hide At, Le16;
    AtSplit(data, off, [Presence(c)] + a + b, [c.collectionType]);
    AtSplit(data, off, [Presence(c)] + a, b);
    AtSplit(data, off, [Presence(c)], a);
  }

  /** A node is its tag, the length of its value, and the value. */
  lemma NodeAt(data: seq<Byte>, off: nat, item: Item)
    requires At(data, off, EncodeItem(item))
    ensures off < |data| && data[off] == TagOf(item) && At(data, off, [TagOf(item)])
    ensures At(data, off + 1, Varint(|ValueOf(item)|))
    ensures At(data, off + 1 + |Varint(|ValueOf(item)|)|, ValueOf(item))
    ensures |EncodeItem(item)| == 1 + |Varint(|ValueOf(item)|)| + |ValueOf(item)|
  {
    hide At, ValueOf, Varint;
    AtSplit(data, off, [TagOf(item)] + Varint(|ValueOf(item)|), ValueOf(item));
    AtSplit(data, off, [TagOf(item)], Varint(|ValueOf(item)|));
    AtByte(data, off, TagOf(item));
  }

  // ---------- a tree read node by node ----------

  datatype Decoded =
    | CollectionNode(collection: Collection)
    | ReportNode(report: Report)
    | FieldNode(field: Field)
    | NoNode

  const DEFAULT_FIELD := Field(None, None, None, 0, 0, 0, 0, 0, 0, 0, "", Factors(0, 0, 0, 0, 0, 0),
                               Flags(false, false, false, false, false, false, false, false, false, false), [])

  /** An unknown node is a default field to the daemon and nothing to the page. */
  function NodeOf(view: View, item: Item): Decoded {
    match item
    case FieldItem(f) => FieldNode(ReadField(view, f))
    case ReportItem(_, r) => ReportNode(ReadReport(view, r))
    case ChildItem(c) => CollectionNode(ReadCollection(view, c))
    case OtherItem(_, _) => if view == Daemon then FieldNode(DEFAULT_FIELD) else NoNode
  }

  lemma FieldsReadMore(view: View, fs: seq<Field>, i: nat)
    requires i < |fs|
    ensures ReadFields(view, fs[..i + 1]) == ReadFields(view, fs[..i]) + [ReadField(view, fs[i])]
  {
    hide ReadField;
  }

  lemma NoFieldsRead(view: View, fs: seq<Field>)
    ensures ReadFields(view, fs[..0]) == [] && fs[..|fs|] == fs
  {
  }

  function Clamp(k: int, n: nat): nat { if k < 0 then 0 else if k > n then n else k }

  function ReadChildren(view: View, c: Collection, k: nat): seq<Collection> {
    ReadCollections(view, c.children[..Clamp(k, |c.children|)])
  }

  function ReadInputs(view: View, c: Collection, k: nat): seq<Report> {
    ReadReports(view, c.inputReports[..Clamp(k - |c.children|, |c.inputReports|)])
  }

  function ReadOutputs(view: View, c: Collection, k: nat): seq<Report> {
    ReadReports(view, c.outputReports[..Clamp(k - |c.children| - |c.inputReports|, |c.outputReports|)])
  }

  function ReadFeatures(view: View, c: Collection, k: nat): seq<Report> {
    var before := |c.children| + |c.inputReports| + |c.outputReports|;
    ReadReports(view, c.featureReports[..Clamp(k - before, |c.featureReports|)])
  }

  /** What one more node adds to the four lists. */
  lemma ReadNext(view: View, c: Collection, k: nat, tag: Byte, node: Decoded)
    requires k < ItemCount(c) && tag == TagOf(ItemOf(c, k)) && node == NodeOf(view, ItemOf(c, k))
    ensures node.CollectionNode? <==> tag == TAG_COLLECTION
    ensures node.ReportNode? <==> tag == TAG_INPUT_REPORT || tag == TAG_OUTPUT_REPORT || tag == TAG_FEATURE_REPORT
    ensures ReadChildren(view, c, k + 1)
         == ReadChildren(view, c, k) + (if tag == TAG_COLLECTION then [node.collection] else [])
    ensures ReadInputs(view, c, k + 1)
         == ReadInputs(view, c, k) + (if tag == TAG_INPUT_REPORT then [node.report] else [])
    ensures ReadOutputs(view, c, k + 1)
         == ReadOutputs(view, c, k) + (if tag == TAG_OUTPUT_REPORT then [node.report] else [])
    ensures ReadFeatures(view, c, k + 1)
         == ReadFeatures(view, c, k) + (if tag == TAG_FEATURE_REPORT then [node.report] else [])
  {
  }

  lemma ItemProper(c: Collection, k: nat)
    requires k < ItemCount(c)
    ensures Proper(ItemOf(c, k))
  {
  }

  lemma ReadWhole(view: View, c: Collection)
    ensures Collection(c.collectionType, c.usagePage, c.usage, ReadChildren(view, c, ItemCount(c)),
                       ReadInputs(view, c, ItemCount(c)), ReadOutputs(view, c, ItemCount(c)),
                       ReadFeatures(view, c, ItemCount(c))) == ReadCollection(view, c)
    ensures ReadChildren(view, c, 0) == [] && ReadInputs(view, c, 0) == [] && ReadOutputs(view, c, 0) == []
    ensures ReadFeatures(view, c, 0) == []
  {
    assert c.children[..|c.children|] == c.children;
    assert c.inputReports[..|c.inputReports|] == c.inputReports;
    assert c.outputReports[..|c.outputReports|] == c.outputReports;
    assert c.featureReports[..|c.featureReports|] == c.featureReports;
  }

  lemma ReportAt(data: seq<Byte>, off: nat, r: Report)
    requires At(data, off, ReportValue(r))
    ensures At(data, off, [r.reportId]) && At(data, off + 1, EncodeFields(r.items))
    ensures |ReportValue(r)| == 1 + |EncodeFields(r.items)|
  {
    AtSplit(data, off, [r.reportId], EncodeFields(r.items));
  }

  lemma CollectionAt(data: seq<Byte>, off: nat, c: Collection)
    requires At(data, off, CollectionValue(c))
    ensures At(data, off, EncodeHead(c)) && At(data, off + |EncodeHead(c)|, EncodeItems(c, ItemCount(c)))
    ensures |CollectionValue(c)| == |EncodeHead(c)| + |EncodeItems(c, ItemCount(c))|
  {
    hide At;
    ValueIsItems(c);
    AtSplit(data, off, EncodeHead(c), EncodeItems(c, ItemCount(c)));
  }

  lemma StringsAt(data: seq<Byte>, off: nat, ss: seq<seq<Byte>>)
    requires At(data, off, EncodeStrings(ss))
    ensures At(data, off, Varint(|ss|)) && At(data, off + |Varint(|ss|)|, ConcatStrings(ss))
    ensures |EncodeStrings(ss)| == |Varint(|ss|)| + |ConcatStrings(ss)|
  {
    hide At, Varint;
    AtSplit(data, off, Varint(|ss|), ConcatStrings(ss));
  }

  lemma UsagesAt(data: seq<Byte>, off: nat, f: Field)
    requires At(data, off, EncodeUsages(f))
    ensures f.flags.isRange ==>
              && At(data, off, Le32(GetOr(f.usageMinimum, 0))) && At(data, off + 4, Le32(GetOr(f.usageMaximum, 0)))
              && |EncodeUsages(f)| == 8
    ensures !f.flags.isRange ==>
              var us := GetOr(f.usages, []);
              && At(data, off, Varint(|us|)) && At(data, off + |Varint(|us|)|, Concat32(us))
              && |EncodeUsages(f)| == |Varint(|us|)| + 4 * |us|
  {
    hide At, Varint;
    if f.flags.isRange {
      AtSplit(data, off, Le32(GetOr(f.usageMinimum, 0)), Le32(GetOr(f.usageMaximum, 0)));
    } else {
      var us := GetOr(f.usages, []);
      AtSplit(data, off, Varint(|us|), Concat32(us));
      Concat32Length(us);
    }
  }

  lemma UsageAt(data: seq<Byte>, off: nat, us: seq<U32>, i: nat)
    requires i < |us| && At(data, off, Concat32(us[i..]))
    ensures At(data, off, Le32(us[i])) && At(data, off + 4, Concat32(us[i + 1..]))
  {
    assert us[i..][1..] == us[i + 1..];
    assert |Le32(us[i])| == 4;
    hide At, Le32;
    AtSplit(data, off, Le32(us[i]), Concat32(us[i + 1..]));
  }
}
