/** The wire form of HID collection trees: tag-length-value nodes, varint lengths, little-endian
    numbers. `Encode*` say which bytes a tree is written as; `Norm*` say which tree those bytes
    stand for. Strings are their UTF-8 bytes. */
module Tlv {
  import opened Wrappers

  type Byte = b: int | 0 <= b < 256
  type U16 = n: int | 0 <= n < 0x1_0000
  type U32 = n: int | 0 <= n < 0x1_0000_0000
  type I32 = n: int | -0x8000_0000 <= n < 0x8000_0000

  const TAG_COLLECTION: Byte := 1
  const TAG_INPUT_REPORT: Byte := 2
  const TAG_OUTPUT_REPORT: Byte := 3
  const TAG_FEATURE_REPORT: Byte := 4
  const TAG_FIELD: Byte := 5

  const UNIT_SYSTEMS: seq<string> :=
    ["none", "si-linear", "si-rotation", "english-linear", "english-rotation", "vendor-defined", "reserved"]

  datatype Flags = Flags(isAbsolute: bool, isArray: bool, isRange: bool, isConstant: bool, isLinear: bool,
                         isVolatile: bool, isBufferedBytes: bool, hasNull: bool, hasPreferredState: bool, wrap: bool)

  /** Exponents of the six unit factors: length, mass, time, temperature, current, luminous intensity. */
  datatype Factors = Factors(length: I32, mass: I32, time: I32, temperature: I32, current: I32, luminous: I32)

  datatype Field = Field(
    usages: Option<seq<U32>>, usageMinimum: Option<U32>, usageMaximum: Option<U32>,
    reportSize: U32, reportCount: U32,
    logicalMinimum: I32, logicalMaximum: I32, physicalMinimum: I32, physicalMaximum: I32,
    unitExponent: I32, unitSystem: string, factors: Factors, flags: Flags, strings: seq<seq<Byte>>)

  datatype Report = Report(reportId: Byte, items: seq<Field>)

  datatype Collection = Collection(
    collectionType: Byte, usagePage: Option<U16>, usage: Option<U16>, children: seq<Collection>,
    inputReports: seq<Report>, outputReports: seq<Report>, featureReports: seq<Report>)

  // ---------- numbers ----------

  function Varint(value: nat): seq<Byte> {
    if value < 128 then [value] else [value % 128 + 128] + Varint(value / 128)
  }

  function Le16(n: U16): seq<Byte> { [n % 256, n / 256] }

  function Le32(n: U32): seq<Byte> { [n % 256, n / 256 % 256, n / 65536 % 256, n / 16777216] }

  function FromLe16(b0: Byte, b1: Byte): U16 { b0 + 256 * b1 }

  function FromLe32(b0: Byte, b1: Byte, b2: Byte, b3: Byte): U32 { b0 + 256 * b1 + 65536 * b2 + 16777216 * b3 }

  lemma Bytes32(n: U32)
    ensures n % 256 + 256 * (n / 256 % 256) + 65536 * (n / 65536 % 256) + 16777216 * (n / 16777216) == n
  {
    assert n / 65536 == n / 256 / 256;
    assert n / 16777216 == n / 65536 / 256;
  }

  /** The 32 bits of a signed number, read as unsigned. */
  function Bits32(n: I32): U32 { if n < 0 then n + 0x1_0000_0000 else n }

  /** The low byte of a number, as `x as i8 as u8` leaves it. */
  function LowByte(n: I32): Byte { n % 256 }

  /** A byte read as a signed number. */
  function Signed(b: Byte): I32 { if b < 128 then b else b - 256 }

  // ---------- unit systems ----------

  /** The index of `name` in the vocabulary, 6 ("reserved") when it is not there. */
  function UnitTag(name: string): Byte { UnitTagFrom(name, 0) }

  function UnitTagFrom(name: string, i: nat): (tag: Byte)
    requires i <= |UNIT_SYSTEMS|
    ensures tag < |UNIT_SYSTEMS|
    ensures UNIT_SYSTEMS[tag] == (if name in UNIT_SYSTEMS[i..] then name else "reserved")
    decreases |UNIT_SYSTEMS| - i
  {
    if i == |UNIT_SYSTEMS| then 6 else if UNIT_SYSTEMS[i] == name then i else UnitTagFrom(name, i + 1)
  }

  function UnitSystem(tag: Byte): string {
    if tag < |UNIT_SYSTEMS| then UNIT_SYSTEMS[tag] else "reserved"
  }

  // ---------- encoding ----------

  function Bit(b: bool, weight: nat): nat { if b then weight else 0 }

  function FlagBits(f: Flags): (bits: U16)
    ensures bits < 1024
  {
    Bit(f.isAbsolute, 1) + Bit(f.isArray, 2) + Bit(f.isRange, 4) + Bit(f.isConstant, 8) + Bit(f.isLinear, 16)
    + Bit(f.isVolatile, 32) + Bit(f.isBufferedBytes, 64) + Bit(f.hasNull, 128) + Bit(f.hasPreferredState, 256)
    + Bit(f.wrap, 512)
  }

  function Concat32(ns: seq<U32>): seq<Byte> {
    if |ns| == 0 then [] else Le32(ns[0]) + Concat32(ns[1..])
  }

  function GetOr<T>(o: Option<T>, default: T): T { if o.Some? then o.value else default }

  function EncodeUsages(f: Field): seq<Byte> {
    if f.flags.isRange then Le32(GetOr(f.usageMinimum, 0)) + Le32(GetOr(f.usageMaximum, 0))
    else Varint(|GetOr(f.usages, [])|) + Concat32(GetOr(f.usages, []))
  }

  function ConcatStrings(ss: seq<seq<Byte>>): seq<Byte> {
    if |ss| == 0 then [] else Varint(|ss[0]|) + ss[0] + ConcatStrings(ss[1..])
  }

  function EncodeStrings(ss: seq<seq<Byte>>): seq<Byte> { Varint(|ss|) + ConcatStrings(ss) }

  function EncodeRanges(f: Field): seq<Byte> {
    Le32(Bits32(f.logicalMinimum)) + Le32(Bits32(f.logicalMaximum))
    + Le32(Bits32(f.physicalMinimum)) + Le32(Bits32(f.physicalMaximum))
  }

  function EncodeUnits(f: Field): seq<Byte> {
    [LowByte(f.unitExponent), UnitTag(f.unitSystem), LowByte(f.factors.length), LowByte(f.factors.mass),
     LowByte(f.factors.time), LowByte(f.factors.temperature), LowByte(f.factors.current), LowByte(f.factors.luminous)]
  }

  function EncodeFixed(f: Field): seq<Byte> {
    Le16(FlagBits(f.flags)) + Varint(f.reportSize) + Varint(f.reportCount) + EncodeRanges(f) + EncodeUnits(f)
  }

  function FieldValue(f: Field): seq<Byte> {
    EncodeFixed(f) + EncodeUsages(f) + EncodeStrings(f.strings)
  }

  function Node(tag: Byte, value: seq<Byte>): seq<Byte> { [tag] + Varint(|value|) + value }

  function EncodeField(f: Field): seq<Byte> { Node(TAG_FIELD, FieldValue(f)) }

  function EncodeFields(fs: seq<Field>): seq<Byte> {
    if |fs| == 0 then [] else EncodeFields(fs[..|fs| - 1]) + EncodeField(fs[|fs| - 1])
  }

  function ReportValue(r: Report): seq<Byte> { [r.reportId] + EncodeFields(r.items) }

  function EncodeReport(tag: Byte, r: Report): seq<Byte> { Node(tag, ReportValue(r)) }

  function EncodeReports(tag: Byte, rs: seq<Report>): seq<Byte> {
    if |rs| == 0 then [] else EncodeReports(tag, rs[..|rs| - 1]) + EncodeReport(tag, rs[|rs| - 1])
  }

  function EncodeHead(c: Collection): seq<Byte> {
    [(if c.usagePage.Some? then 1 else 0) + (if c.usage.Some? then 2 else 0)]
    + (if c.usagePage.Some? then Le16(c.usagePage.value) else [])
    + (if c.usage.Some? then Le16(c.usage.value) else [])
    + [c.collectionType]
  }

  function CollectionValue(c: Collection): seq<Byte>
    decreases c, 0
  {
    EncodeHead(c) + EncodeCollections(c.children) + EncodeReports(TAG_INPUT_REPORT, c.inputReports)
    + EncodeReports(TAG_OUTPUT_REPORT, c.outputReports) + EncodeReports(TAG_FEATURE_REPORT, c.featureReports)
  }

  function EncodeCollection(c: Collection): seq<Byte>
    decreases c, 1
  {
    Node(TAG_COLLECTION, CollectionValue(c))
  }

  function EncodeCollections(cs: seq<Collection>): seq<Byte>
    decreases cs, 0
  {
    if |cs| == 0 then [] else EncodeCollections(cs[..|cs| - 1]) + EncodeCollection(cs[|cs| - 1])
  }

  /** The bound under which lengths and counts fit the 32 bits they are written in. */
  const LIMIT := 0x1_0000_0000

  // ---------- lengths ----------

  lemma {:induction false} Concat32Length(ns: seq<U32>)
    ensures |Concat32(ns)| == 4 * |ns|
  {
    if |ns| > 0 { Concat32Length(ns[1..]); }
  }

  lemma {:induction false} StringsLength(ss: seq<seq<Byte>>, i: nat)
    requires i < |ss|
    ensures |ss| <= |ConcatStrings(ss)| && |ss[i]| <= |ConcatStrings(ss)|
  {
    if |ss| > 1 { StringsLength(ss[1..], if i > 0 then i - 1 else 0); }
  }

  lemma {:induction false} FieldsLength(fs: seq<Field>, i: nat)
    requires i < |fs|
    ensures |FieldValue(fs[i])| < |EncodeFields(fs)|
  {
    if i < |fs| - 1 { FieldsLength(fs[..|fs| - 1], i); }
  }

  lemma {:induction false} ReportsLength(tag: Byte, rs: seq<Report>, i: nat)
    requires i < |rs|
    ensures |ReportValue(rs[i])| < |EncodeReports(tag, rs)|
  {
    if i < |rs| - 1 { ReportsLength(tag, rs[..|rs| - 1], i); }
  }

  lemma {:induction false} CollectionsLength(cs: seq<Collection>, i: nat)
    requires i < |cs|
    ensures |CollectionValue(cs[i])| < |EncodeCollections(cs)|
  {
    if i < |cs| - 1 { CollectionsLength(cs[..|cs| - 1], i); }
  }

  /** What a field's length bounds: its counts and its strings. */
  lemma FieldPartsFit(f: Field)
    requires |FieldValue(f)| < LIMIT
    ensures f.flags.isRange || |GetOr(f.usages, [])| < LIMIT
    ensures |f.strings| < LIMIT && forall i :: 0 <= i < |f.strings| ==> |f.strings[i]| < LIMIT
  {
    Concat32Length(GetOr(f.usages, []));
    forall i | 0 <= i < |f.strings| ensures |f.strings[i]| < LIMIT && |f.strings| < LIMIT {
      StringsLength(f.strings, i);
    }
  }

  // ---------- one more element ----------

  lemma NoFields()
    ensures EncodeFields([]) == []
  {
  }

  lemma FieldsMore(fs: seq<Field>, i: nat)
    requires i < |fs|
    ensures EncodeFields(fs[..i + 1]) == EncodeFields(fs[..i]) + EncodeField(fs[i])
  {
    assert fs[..i + 1][..i] == fs[..i];
  }

  lemma ReportsMore(tag: Byte, rs: seq<Report>, i: nat)
    requires i < |rs|
    ensures EncodeReports(tag, rs[..i + 1]) == EncodeReports(tag, rs[..i]) + EncodeReport(tag, rs[i])
  {
    assert rs[..i + 1][..i] == rs[..i];
  }

  lemma CollectionsMore(cs: seq<Collection>, i: nat)
    requires i < |cs|
    ensures EncodeCollections(cs[..i + 1]) == EncodeCollections(cs[..i]) + EncodeCollection(cs[i])
  {
    assert cs[..i + 1][..i] == cs[..i];
  }

  // ---------- what a reader makes of the bytes ----------

  /** The two decoders, and the page's view with an empty usage list taken as no list. */
  datatype View = Daemon | Page | AbsentUsages

  const BOM: seq<Byte> := [0xEF, 0xBB, 0xBF]

  /** The page decodes text with the byte order mark dropped. */
  function PageString(s: seq<Byte>): seq<Byte> { if BOM <= s then s[3..] else s }

  /** The low four bits of a byte, read as a signed number. */
  function SignedNibble(b: Byte): I32 { if b % 16 < 8 then b % 16 else b % 16 - 16 }

  function ReadFactors(f: Factors): Factors {
    Factors(Signed(LowByte(f.length)), Signed(LowByte(f.mass)), Signed(LowByte(f.time)),
            Signed(LowByte(f.temperature)), Signed(LowByte(f.current)), Signed(LowByte(f.luminous)))
  }

  function ReadUsages(view: View, f: Field): Option<seq<U32>> {
    if f.flags.isRange then None
    else if view == Page then Some(GetOr(f.usages, []))
    else if GetOr(f.usages, []) == [] then None
    else f.usages
  }

  function ReadStrings(view: View, ss: seq<seq<Byte>>): (r: seq<seq<Byte>>)
    ensures |r| == |ss|
  {
    if view == Page then seq(|ss|, i requires 0 <= i < |ss| => PageString(ss[i])) else ss
  }

  /** A field as read back: the wire keeps one byte of each exponent, a known unit system, and
      either the usage range or the usage list. */
  function WireField(view: View, f: Field): Field {
    Field(ReadUsages(view, f),
          if f.flags.isRange then Some(GetOr(f.usageMinimum, 0)) else None,
          if f.flags.isRange then Some(GetOr(f.usageMaximum, 0)) else None,
          f.reportSize, f.reportCount, f.logicalMinimum, f.logicalMaximum, f.physicalMinimum, f.physicalMaximum,
          if view == Page then SignedNibble(LowByte(f.unitExponent)) else Signed(LowByte(f.unitExponent)),
          UnitSystem(UnitTag(f.unitSystem)), ReadFactors(f.factors), f.flags, ReadStrings(view, f.strings))
  }

  /** `AbsentUsages` changes nothing but an empty usage list. */
  function ReadField(view: View, f: Field): Field {
    if view == AbsentUsages then (if f.usages == Some([]) then f.(usages := None) else f) else WireField(view, f)
  }

  function ReadFields(view: View, fs: seq<Field>): (r: seq<Field>)
    ensures |r| == |fs|
  {
    seq(|fs|, i requires 0 <= i < |fs| => ReadField(view, fs[i]))
  }

  function ReadReport(view: View, r: Report): Report { Report(r.reportId, ReadFields(view, r.items)) }

  function ReadReports(view: View, rs: seq<Report>): (r: seq<Report>)
    ensures |r| == |rs|
  {
    seq(|rs|, i requires 0 <= i < |rs| => ReadReport(view, rs[i]))
  }

  function ReadCollection(view: View, c: Collection): Collection
    decreases c, 0
  {
    Collection(c.collectionType, c.usagePage, c.usage, ReadCollections(view, c.children),
               ReadReports(view, c.inputReports), ReadReports(view, c.outputReports),
               ReadReports(view, c.featureReports))
  }

  function ReadCollections(view: View, cs: seq<Collection>): (r: seq<Collection>)
    ensures |r| == |cs|
    decreases cs, 0
  {
    seq(|cs|, i requires 0 <= i < |cs| => ReadCollection(view, cs[i]))
  }
}
