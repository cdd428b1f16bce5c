/** The daemon's encoder: every routine appends to a growing byte vector. */
module TlvEncoder {
  import opened Wrappers
  import opened Tlv

  class ByteVec {
    var bytes: seq<Byte>

    constructor ()
      ensures bytes == []
    {
      bytes := [];
    }

    method Push(b: Byte)
      modifies this
      ensures bytes == old(bytes) + [b]
    {
      bytes := bytes + [b];
    }

    method Extend(more: seq<Byte>)
      modifies this
      ensures bytes == old(bytes) + more
    {
      bytes := bytes + more;
    }
  }

  method WriteVarint(buf: ByteVec, value: U32)
    modifies buf
    ensures buf.bytes == old(buf.bytes) + Varint(value)
  {
    var rest: nat := value;
    var done := false;
    while !done
      invariant done ==> buf.bytes == old(buf.bytes) + Varint(value)
      invariant !done ==> buf.bytes + Varint(rest) == old(buf.bytes) + Varint(value)
      decreases !done, rest
    {
      var b := rest % 128;
      ghost var before, was := buf.bytes, rest;
      rest := rest / 128;
      if rest != 0 {
        buf.Push(b + 128);
        assert Varint(was) == [b + 128] + Varint(rest);
        assert buf.bytes + Varint(rest) == before + ([b + 128] + Varint(rest));
      } else {
        buf.Push(b);
        assert Varint(was) == [b];
        done := true;
      }
    }
  }

  method WriteNodeHeader(buf: ByteVec, tag: Byte, valueLen: nat)
    requires valueLen < LIMIT
    modifies buf
    ensures buf.bytes == old(buf.bytes) + [tag] + Varint(valueLen)
  {
    buf.Push(tag);
    WriteVarint(buf, valueLen);
  }

  /** The value that was built on the side becomes one node at the end of the buffer. */
  method Emit(buf: ByteVec, tag: Byte, value: ByteVec)
    requires |value.bytes| < LIMIT && buf != value
    modifies buf
    ensures buf.bytes == old(buf.bytes) + Node(tag, old(value.bytes))
  {
    WriteNodeHeader(buf, tag, |value.bytes|);
    buf.Extend(value.bytes);
  }

  method EncodeFieldFlags(f: Flags) returns (bits: U16)
    ensures bits == FlagBits(f)
  {
    var bools := [f.isAbsolute, f.isArray, f.isRange, f.isConstant, f.isLinear,
                  f.isVolatile, f.isBufferedBytes, f.hasNull, f.hasPreferredState, f.wrap];
    var sum, weight, i := 0, 1, 0;
    while i < 10
      invariant 0 <= i <= 10 && weight == Power2(i) && sum == BitsFrom(bools, 0, 1) - BitsFrom(bools, i, weight)
    {
      if bools[i] { sum := sum + weight; }
      weight := 2 * weight;
      i := i + 1;
    }
    AllBits(bools);
    bits := sum;
  }

  function Power2(i: nat): nat { if i == 0 then 1 else 2 * Power2(i - 1) }

  /** The bits from position `i` on, the first of them with the given weight. */
  function BitsFrom(bools: seq<bool>, i: nat, weight: nat): nat
    requires i <= |bools|
    decreases |bools| - i
  {
    if i == |bools| then 0 else Bit(bools[i], weight) + BitsFrom(bools, i + 1, 2 * weight)
  }

  lemma AllBits(bools: seq<bool>)
    requires |bools| == 10
    ensures BitsFrom(bools, 0, 1)
         == Bit(bools[0], 1) + Bit(bools[1], 2) + Bit(bools[2], 4) + Bit(bools[3], 8) + Bit(bools[4], 16)
            + Bit(bools[5], 32) + Bit(bools[6], 64) + Bit(bools[7], 128) + Bit(bools[8], 256) + Bit(bools[9], 512)
  {
    HighBits(bools);
    assert BitsFrom(bools, 4, 16) == Bit(bools[4], 16) + BitsFrom(bools, 5, 32);
    assert BitsFrom(bools, 3, 8) == Bit(bools[3], 8) + BitsFrom(bools, 4, 16);
    assert BitsFrom(bools, 2, 4) == Bit(bools[2], 4) + BitsFrom(bools, 3, 8);
    assert BitsFrom(bools, 1, 2) == Bit(bools[1], 2) + BitsFrom(bools, 2, 4);
    assert BitsFrom(bools, 0, 1) == Bit(bools[0], 1) + BitsFrom(bools, 1, 2);
  }

  lemma HighBits(bools: seq<bool>)
    requires |bools| == 10
    ensures BitsFrom(bools, 5, 32)
         == Bit(bools[5], 32) + Bit(bools[6], 64) + Bit(bools[7], 128) + Bit(bools[8], 256) + Bit(bools[9], 512)
  {
    assert BitsFrom(bools, 10, 1024) == 0;
    assert BitsFrom(bools, 9, 512) == Bit(bools[9], 512) + BitsFrom(bools, 10, 1024);
    assert BitsFrom(bools, 8, 256) == Bit(bools[8], 256) + BitsFrom(bools, 9, 512);
    assert BitsFrom(bools, 7, 128) == Bit(bools[7], 128) + BitsFrom(bools, 8, 256);
    assert BitsFrom(bools, 6, 64) == Bit(bools[6], 64) + BitsFrom(bools, 7, 128);
  }

  lemma Joined(s: seq<Byte>, a: seq<Byte>, b: seq<Byte>, c: seq<Byte>)
    requires s + [] == a + b + c
    ensures s == a + (b + c)
  {
    assert s + [] == s;
    assert a + b + c == a + (b + c);
  }

  method EncodeFieldUsages(value: ByteVec, f: Field)
    requires f.flags.isRange || |GetOr(f.usages, [])| < LIMIT
    modifies value
    ensures value.bytes == old(value.bytes) + EncodeUsages(f)
  {
    if f.flags.isRange {
      value.Extend(Le32(GetOr(f.usageMinimum, 0)));
      value.Extend(Le32(GetOr(f.usageMaximum, 0)));
    } else if f.usages.Some? {
      var usages := f.usages.value;
      WriteVarint(value, |usages|);
      ghost var start := value.bytes;
      var i := 0;
      while i < |usages|
        invariant 0 <= i <= |usages|
        invariant value.bytes + Concat32(usages[i..]) == start + Concat32(usages)
      {
        ghost var before := value.bytes;
        value.Extend(Le32(usages[i]));
        assert value.bytes + Concat32(usages[i..][1..]) == before + (Le32(usages[i]) + Concat32(usages[i..][1..]));
        i := i + 1;
      }
      assert usages[i..] == [];
      Joined(value.bytes, old(value.bytes), Varint(|usages|), Concat32(usages));
    } else {
      WriteVarint(value, 0);
    }
  }

  method EncodeFieldStrings(value: ByteVec, strings: seq<seq<Byte>>)
    requires |strings| < LIMIT && forall i :: 0 <= i < |strings| ==> |strings[i]| < LIMIT
    modifies value
    ensures value.bytes == old(value.bytes) + EncodeStrings(strings)
  {
    WriteVarint(value, |strings|);
    ghost var start := value.bytes;
    var i := 0;
    while i < |strings|
      invariant 0 <= i <= |strings|
      invariant value.bytes + ConcatStrings(strings[i..]) == start + ConcatStrings(strings)
    {
      ghost var before, rest := value.bytes, ConcatStrings(strings[i..][1..]);
      WriteVarint(value, |strings[i]|);
      value.Extend(strings[i]);
      assert value.bytes + rest == before + (Varint(|strings[i]|) + strings[i] + rest);
      i := i + 1;
    }
    assert strings[i..] == [];
    Joined(value.bytes, old(value.bytes), Varint(|strings|), ConcatStrings(strings));
  }

  method EncodeFieldRanges(value: ByteVec, f: Field)
    modifies value
    ensures value.bytes == old(value.bytes) + EncodeRanges(f)
  {
    hide Le32;
    value.Extend(Le32(Bits32(f.logicalMinimum)));
    value.Extend(Le32(Bits32(f.logicalMaximum)));
    value.Extend(Le32(Bits32(f.physicalMinimum)));
    value.Extend(Le32(Bits32(f.physicalMaximum)));
  }

  method EncodeFieldUnits(value: ByteVec, f: Field)
    modifies value
    ensures value.bytes == old(value.bytes) + EncodeUnits(f)
  {
    hide UnitTag;
    value.Push(LowByte(f.unitExponent));
    value.Push(UnitTag(f.unitSystem));
    value.Push(LowByte(f.factors.length));
    value.Push(LowByte(f.factors.mass));
    value.Push(LowByte(f.factors.time));
    value.Push(LowByte(f.factors.temperature));
    value.Push(LowByte(f.factors.current));
    value.Push(LowByte(f.factors.luminous));
  }

  method EncodeFieldTo(buf: ByteVec, f: Field)
    requires |FieldValue(f)| < LIMIT
    modifies buf
    ensures buf.bytes == old(buf.bytes) + EncodeField(f)
  {
    hide Node, FieldValue, EncodeFixed, EncodeUsages, EncodeStrings, EncodeRanges, EncodeUnits, Varint, FlagBits, Le16;
    FieldPartsFit(f);
    var value := new ByteVec();
    var bits := EncodeFieldFlags(f.flags);
    value.Extend(Le16(bits));
    WriteVarint(value, f.reportSize);
    WriteVarint(value, f.reportCount);
    EncodeFieldRanges(value, f);
    EncodeFieldUnits(value, f);
    FixedParts(f);
    assert value.bytes == EncodeFixed(f);
    EncodeFieldUsages(value, f);
    EncodeFieldStrings(value, f.strings);
    ValueParts(f);
    Emit(buf, TAG_FIELD, value);
  }

  lemma FixedParts(f: Field)
    ensures EncodeFixed(f) == Le16(FlagBits(f.flags)) + Varint(f.reportSize) + Varint(f.reportCount)
                              + EncodeRanges(f) + EncodeUnits(f)
  {
    hide Le16, FlagBits, Varint, EncodeRanges, EncodeUnits;
  }

  lemma ValueParts(f: Field)
    ensures FieldValue(f) == EncodeFixed(f) + EncodeUsages(f) + EncodeStrings(f.strings)
    ensures EncodeField(f) == Node(TAG_FIELD, FieldValue(f))
  {
    hide EncodeFixed, EncodeUsages, EncodeStrings, Node;
  }

  method EncodeReportTo(buf: ByteVec, tag: Byte, r: Report)
    requires |ReportValue(r)| < LIMIT
    modifies buf
    ensures buf.bytes == old(buf.bytes) + EncodeReport(tag, r)
  {
    hide EncodeField, EncodeFields, FieldValue, Node;
    NoFields();
    var value := new ByteVec();
    value.Push(r.reportId);
    var i := 0;
    while i < |r.items|
      invariant 0 <= i <= |r.items|
      invariant value.bytes == [r.reportId] + EncodeFields(r.items[..i])
      invariant buf.bytes == old(buf.bytes)
    {
      FieldsLength(r.items, i);
      EncodeFieldTo(value, r.items[i]);
      FieldsMore(r.items, i);
      i := i + 1;
    }
    assert r.items[..i] == r.items;
    assert value.bytes == ReportValue(r);
    Emit(buf, tag, value);
  }

  method EncodeReportsTo(buf: ByteVec, tag: Byte, rs: seq<Report>)
    requires |EncodeReports(tag, rs)| < LIMIT
    modifies buf
    ensures buf.bytes == old(buf.bytes) + EncodeReports(tag, rs)
  {
    hide EncodeReport;
    var i := 0;
    while i < |rs|
      invariant 0 <= i <= |rs|
      invariant buf.bytes == old(buf.bytes) + EncodeReports(tag, rs[..i])
    {
      ReportsLength(tag, rs, i);
      EncodeReportTo(buf, tag, rs[i]);
      ReportsMore(tag, rs, i);
      i := i + 1;
    }
    assert rs[..i] == rs;
  }

  method EncodeCollectionTo(buf: ByteVec, c: Collection)
    requires |CollectionValue(c)| < LIMIT
    modifies buf
    ensures buf.bytes == old(buf.bytes) + EncodeCollection(c)
    decreases c
  {
    hide EncodeReport, EncodeReports, EncodeCollections, Node;
    NoCollections();
    var value := new ByteVec();
    var presence: Byte := 0;
    if c.usagePage.Some? { presence := presence + 1; }
    if c.usage.Some? { presence := presence + 2; }
    value.Push(presence);
    if c.usagePage.Some? { value.Extend(Le16(c.usagePage.value)); }
    if c.usage.Some? { value.Extend(Le16(c.usage.value)); }
    value.Push(c.collectionType);
    assert value.bytes == EncodeHead(c);
    var i := 0;
    while i < |c.children|
      invariant 0 <= i <= |c.children|
      invariant value.bytes == EncodeHead(c) + EncodeCollections(c.children[..i])
      invariant buf.bytes == old(buf.bytes)
    {
      CollectionsLength(c.children, i);
      EncodeCollectionTo(value, c.children[i]);
      CollectionsMore(c.children, i);
      i := i + 1;
    }
    assert c.children[..i] == c.children;
    EncodeReportsTo(value, TAG_INPUT_REPORT, c.inputReports);
    EncodeReportsTo(value, TAG_OUTPUT_REPORT, c.outputReports);
    EncodeReportsTo(value, TAG_FEATURE_REPORT, c.featureReports);
    assert value.bytes == CollectionValue(c);
    Emit(buf, TAG_COLLECTION, value);
  }

  lemma NoCollections()
    ensures EncodeCollections([]) == []
  {
  }

  /** The whole forest, as it is handed to base64. */
  method Serialize(cs: seq<Collection>) returns (buf: ByteVec)
    requires forall i :: 0 <= i < |cs| ==> |CollectionValue(cs[i])| < LIMIT
    ensures fresh(buf) && buf.bytes == EncodeCollections(cs)
  {
    hide EncodeCollection;
    buf := new ByteVec();
    var i := 0;
    while i < |cs|
      invariant 0 <= i <= |cs|
      invariant buf.bytes == EncodeCollections(cs[..i])
    {
      EncodeCollectionTo(buf, cs[i]);
      CollectionsMore(cs, i);
      i := i + 1;
    }
    assert cs[..i] == cs;
  }
}
