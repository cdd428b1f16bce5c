/** The daemon's decoder: every routine advances one offset over the bytes. Each is proved on the
    bytes of some tree, whatever comes after them: it returns the tree as `ReadField(Daemon, ..)`
    and its like say, and moves the offset over exactly those bytes. */
module TlvDecoder {
  import opened Wrappers
  import opened Tlv
  import opened TlvWire

  datatype FieldFixed = FieldFixed(
    flags: U16, reportSize: U32, reportCount: U32,
    logicalMinimum: I32, logicalMaximum: I32, physicalMinimum: I32, physicalMaximum: I32,
    unitExponent: I32, unitSystem: string, factors: Factors)

  function FixedOf(f: Field): FieldFixed {
    FieldFixed(FlagBits(f.flags), f.reportSize, f.reportCount, f.logicalMinimum, f.logicalMaximum,
               f.physicalMinimum, f.physicalMaximum, Signed(LowByte(f.unitExponent)),
               UnitSystem(UnitTag(f.unitSystem)), ReadFactors(f.factors))
  }

  datatype Usages = Usages(list: Option<seq<U32>>, minimum: Option<U32>, maximum: Option<U32>)

  function UsagesOf(f: Field): Usages {
    Usages(ReadUsages(Daemon, f),
           if f.flags.isRange then Some(GetOr(f.usageMinimum, 0)) else None,
           if f.flags.isRange then Some(GetOr(f.usageMaximum, 0)) else None)
  }

  class Decoder {
    const data: seq<Byte>
    var off: nat

    constructor (bytes: seq<Byte>)
      ensures data == bytes && off == 0
    {
      data := bytes;
      off := 0;
    }

    method ReadVarint(ghost value: U32) returns (result: U32)
      requires At(data, off, Varint(value))
      modifies this`off
      ensures result == value && off == old(off) + |Varint(value)|
    {
      hide At, Varint, ShiftLeft, Weighted;
      NoShift(value);
      result := 0;
      var shift: nat := 0;
      ghost var rest: nat := value;
      var more := true;
      while more
        invariant more ==> At(data, off, Varint(rest)) && off + |Varint(rest)| == old(off) + |Varint(value)|
        invariant more ==> shift % 7 == 0 && (rest > 0 || shift == 0) && result + Weighted(rest, shift) == value
        invariant !more ==> result == value && off == old(off) + |Varint(value)|
        decreases more, rest
      {
        VarintBytes(data, off, rest);
        var byte := data[off];
        off := off + 1;
        ShiftFits(value, result, rest, shift);
        NoDigits(shift + 7);
        result := result + ShiftLeft(byte % 128, shift);
        if byte < 128 {
          more := false;
        }
        shift := shift + 7;
        rest := rest / 128;
      }
    }

    method ReadU16(ghost n: U16) returns (v: U16)
      requires At(data, off, Le16(n))
      modifies this`off
      ensures v == n && off == old(off) + 2
    {
      AtLe16(data, off, n);
      v := FromLe16(data[off], data[off + 1]);
      off := off + 2;
    }

    method ReadU32(ghost n: U32) returns (v: U32)
      requires At(data, off, Le32(n))
      modifies this`off
      ensures v == n && off == old(off) + 4
    {
      AtLe32(data, off, n);
      v := FromLe32(data[off], data[off + 1], data[off + 2], data[off + 3]);
      off := off + 4;
    }

    method ReadI32(ghost n: I32) returns (v: I32)
      requires At(data, off, Le32(Bits32(n)))
      modifies this`off
      ensures v == n && off == old(off) + 4
    {
      AtLe32(data, off, Bits32(n));
      v := FromBits32(FromLe32(data[off], data[off + 1], data[off + 2], data[off + 3]));
      off := off + 4;
    }

    method ReadU8(ghost b: Byte) returns (v: Byte)
      requires At(data, off, [b])
      modifies this`off
      ensures v == b && off == old(off) + 1
    {
      AtByte(data, off, b);
      v := data[off];
      off := off + 1;
    }

    method ReadRanges(ghost f: Field) returns (a: I32, b: I32, c: I32, d: I32)
      requires At(data, off, EncodeRanges(f))
      modifies this`off
      ensures a == f.logicalMinimum && b == f.logicalMaximum && c == f.physicalMinimum && d == f.physicalMaximum
      ensures off == old(off) + 16
    {
      hide At, Le32, EncodeRanges, Bits32;
      RangesAt(data, off, f);
      a := ReadI32(f.logicalMinimum);
      b := ReadI32(f.logicalMaximum);
      c := ReadI32(f.physicalMinimum);
      d := ReadI32(f.physicalMaximum);
    }

    method ReadUnits(ghost f: Field) returns (exponent: I32, system: string, factors: Factors)
      requires At(data, off, EncodeUnits(f))
      modifies this`off
      ensures exponent == Signed(LowByte(f.unitExponent)) && system == UnitSystem(UnitTag(f.unitSystem))
      ensures factors == ReadFactors(f.factors) && off == old(off) + 8
    {
      hide At, EncodeUnits, UnitTag, LowByte, UnitSystem, Signed;
      UnitsAt(data, off, f);
      exponent := Signed(data[off]);
      off := off + 1;
      system := UnitSystem(data[off]);
      off := off + 1;
      var length := Signed(data[off]);
      off := off + 1;
      var mass := Signed(data[off]);
      off := off + 1;
      var time := Signed(data[off]);
      off := off + 1;
      var temperature := Signed(data[off]);
      off := off + 1;
      var current := Signed(data[off]);
      off := off + 1;
      var luminous := Signed(data[off]);
      off := off + 1;
      factors := Factors(length, mass, time, temperature, current, luminous);
    }

    method DecodeFieldFixed(end: nat, ghost f: Field) returns (fixed: Option<FieldFixed>)
      requires At(data, off, EncodeFixed(f))
      modifies this`off
      ensures fixed.Some? ==> fixed.value == FixedOf(f) && off == old(off) + |EncodeFixed(f)|
      ensures old(off) + |EncodeFixed(f)| <= end ==> fixed.Some?
    {
      hide At, Varint, FlagBits, EncodeFixed, EncodeRanges, EncodeUnits;
      FixedAt(data, off, f);
      if off + 2 > end { return None; }
      var flags := ReadU16(FlagBits(f.flags));
      var size := ReadVarint(f.reportSize);
      var count := ReadVarint(f.reportCount);
      if off + 16 > end { return None; }
      var a, b, c, d := ReadRanges(f);
      var exponent, system, factors := ReadUnits(f);
      fixed := Some(FieldFixed(flags, size, count, a, b, c, d, exponent, system, factors));
    }

    method DecodeFieldUsages(end: nat, isRange: bool, ghost f: Field) returns (usages: Option<Usages>)
      requires At(data, off, EncodeUsages(f))
      requires isRange == f.flags.isRange && (isRange || |GetOr(f.usages, [])| < LIMIT)
      modifies this`off
      ensures usages.Some? ==> usages.value == UsagesOf(f) && off == old(off) + |EncodeUsages(f)|
      ensures old(off) + |EncodeUsages(f)| <= end ==> usages.Some?
    {
      hide At, Varint, Le32, Concat32, EncodeUsages;
      UsagesAt(data, off, f);
      if isRange {
        if off + 8 > end { return None; }
        var min := ReadU32(GetOr(f.usageMinimum, 0));
        var max := ReadU32(GetOr(f.usageMaximum, 0));
        usages := Some(Usages(None, Some(min), Some(max)));
      } else {
        ghost var us := GetOr(f.usages, []);
        var count: nat := ReadVarint(|us|);
        if off + count * 4 > end { return None; }
        ghost var start := off;
        var list: seq<U32> := [];
        assert us[0..] == us;
        for i := 0 to count
          invariant off == start + 4 * i && list == us[..i] && At(data, off, Concat32(us[i..]))
        {
          UsageAt(data, off, us, i);
          var u := ReadU32(us[i]);
          list := list + [u];
        }
        assert us[..|us|] == us;
        usages := Some(Usages(if list == [] then None else Some(list), None, None));
      }
    }

    method DecodeFieldStrings(end: nat, ghost ss: seq<seq<Byte>>) returns (strings: Option<seq<seq<Byte>>>)
      requires At(data, off, EncodeStrings(ss))
      requires |ss| < LIMIT && forall i :: 0 <= i < |ss| ==> |ss[i]| < LIMIT
      modifies this`off
      ensures strings.Some? ==> strings.value == ss && off == old(off) + |EncodeStrings(ss)|
      ensures old(off) + |EncodeStrings(ss)| <= end ==> strings.Some?
    {
      hide At, EncodeStrings, Varint;
      StringsAt(data, off, ss);
      ghost var stop := off + |EncodeStrings(ss)|;
      var count: nat := ReadVarint(|ss|);
      assert ss[0..] == ss;
      var list: seq<seq<Byte>> := [];
      for i := 0 to count
        invariant list == ss[..i] && At(data, off, ConcatStrings(ss[i..])) && off + |ConcatStrings(ss[i..])| == stop
      {
        StringAt(data, off, ss[i..]);
        var byteLen := ReadVarint(|ss[i]|);
        if off + byteLen > end { return None; }
        list := list + [data[off..off + byteLen]];
        off := off + byteLen;
        assert ss[i..][1..] == ss[i + 1..];
      }
      assert ss[|ss|..] == [] && ss[..|ss|] == ss;
      strings := Some(list);
    }

    method DecodeField(end: nat, ghost f: Field) returns (field: Field)
      requires At(data, off, FieldValue(f)) && |FieldValue(f)| < LIMIT
      modifies this`off
      ensures (field == ReadField(Daemon, f) && off == old(off) + |FieldValue(f)|)
              || (field == DEFAULT_FIELD && off == end)
      ensures old(off) + |FieldValue(f)| <= end ==> field == ReadField(Daemon, f) && off == old(off) + |FieldValue(f)|
    {
      hide At, FieldValue, EncodeFixed, EncodeUsages, EncodeStrings, FlagBits, FlagsFrom, ReadFactors;
      ValueAt(data, off, f);
      FieldPartsFit(f);
      FlagsBack(f.flags);
      var fixed := DecodeFieldFixed(end, f);
      if fixed.None? {
        off := end;
        return DEFAULT_FIELD;
      }
      var flags := FlagsFrom(fixed.value.flags);
      var usages := DecodeFieldUsages(end, flags.isRange, f);
      if usages.None? {
        off := end;
        return DEFAULT_FIELD;
      }
      var strings := DecodeFieldStrings(end, f.strings);
      if strings.None? {
        off := end;
        return DEFAULT_FIELD;
      }
      var x, u := fixed.value, usages.value;
      field := Field(u.list, u.minimum, u.maximum, x.reportSize, x.reportCount, x.logicalMinimum, x.logicalMaximum,
                     x.physicalMinimum, x.physicalMaximum, x.unitExponent, x.unitSystem, x.factors, flags,
                     strings.value);
    }

    method DecodeReport(end: nat, ghost r: Report) returns (report: Report)
      requires At(data, off, ReportValue(r)) && end == off + |ReportValue(r)| && |ReportValue(r)| < LIMIT
      modifies this`off
      ensures report == ReadReport(Daemon, r) && off == end
      decreases |ReportValue(r)|, 1
    {
      hide At, EncodeFields, EncodeItem, FieldValue, ReadField, ReadFields, ReportValue, ValueOf, Varint;
      ReportAt(data, off, r);
      NoFields();
      NoFieldsRead(Daemon, r.items);
      var reportId := ReadU8(r.reportId);
      ghost var start, i := off, 0;
      var items: seq<Field> := [];
      while off < end
        invariant i <= |r.items| && off == start + |EncodeFields(r.items[..i])| <= end
        invariant items == ReadFields(Daemon, r.items[..i]) && (i == |r.items| ==> off == end)
        decreases end - off
      {
        FieldAt(data, start, r.items, i);
        FieldItemFits(r, i);
        NodeNonempty(FieldItem(r.items[i]));
        var node := DecodeNode(FieldItem(r.items[i]));
        if node.FieldNode? { items := items + [node.field]; }
        FieldsReadMore(Daemon, r.items, i);
        i := i + 1;
      }
      FieldsPrefix(r.items, i);
      report := Report(reportId, items);
    }

    method DecodeHead(ghost c: Collection) returns (page: Option<U16>, usage: Option<U16>, kind: Byte)
      requires At(data, off, EncodeHead(c))
      modifies this`off
      ensures page == c.usagePage && usage == c.usage && kind == c.collectionType && off == old(off) + |EncodeHead(c)|
    {
      hide At, EncodeHead, Digit, Presence;
      HeadAt(data, off, c);
      var presence := ReadU8(Presence(c));
      page, usage := None, None;
      if Digit(presence, 0) {
        var v := ReadU16(c.usagePage.value);
        page := Some(v);
      }
      if Digit(presence, 1) {
        var v := ReadU16(c.usage.value);
        usage := Some(v);
      }
      kind := ReadU8(c.collectionType);
    }

    method DecodeCollection(end: nat, ghost c: Collection) returns (collection: Collection)
      requires At(data, off, CollectionValue(c)) && end == off + |CollectionValue(c)| && |CollectionValue(c)| < LIMIT
      modifies this`off
      ensures collection == ReadCollection(Daemon, c) && off == end
      decreases |CollectionValue(c)|, 1
    {
      hide At, CollectionValue, EncodeHead, EncodeItem, EncodeItems, ItemOf, ValueOf, TagOf, NodeOf, Proper, Varint,
           ReadChildren, ReadInputs, ReadOutputs, ReadFeatures, ReadCollection;
      CollectionAt(data, off, c);
      var page, usage, kind := DecodeHead(c);
      ghost var start, k := off, 0;
      var children: seq<Collection> := [];
      var inputReports: seq<Report>, outputReports: seq<Report>, featureReports: seq<Report> := [], [], [];
      NoItems(c);
      ReadWhole(Daemon, c);
      while off < end
        invariant k <= ItemCount(c) && off == start + |EncodeItems(c, k)| <= end
        invariant children == ReadChildren(Daemon, c, k) && inputReports == ReadInputs(Daemon, c, k)
        invariant outputReports == ReadOutputs(Daemon, c, k) && featureReports == ReadFeatures(Daemon, c, k)
        decreases end - off
      {
        ItemAt(data, start, c, k);
        ItemFits(c, k);
        ItemProper(c, k);
        NodeAt(data, off, ItemOf(c, k));
        var tag := data[off];
        var node := DecodeNode(ItemOf(c, k));
        ReadNext(Daemon, c, k, tag, node);
        if tag == TAG_COLLECTION && node.CollectionNode? {
          children := children + [node.collection];
        } else if tag == TAG_INPUT_REPORT && node.ReportNode? {
          inputReports := inputReports + [node.report];
        } else if tag == TAG_OUTPUT_REPORT && node.ReportNode? {
          outputReports := outputReports + [node.report];
        } else if tag == TAG_FEATURE_REPORT && node.ReportNode? {
          featureReports := featureReports + [node.report];
        }
        k := k + 1;
      }
      ItemsPrefix(c, k, ItemCount(c));
      collection := Collection(kind, page, usage, children, inputReports, outputReports, featureReports);
    }

    method DecodeNode(ghost item: Item) returns (node: Decoded)
      requires At(data, off, EncodeItem(item)) && Proper(item) && |ValueOf(item)| < LIMIT
      modifies this`off
      ensures node == NodeOf(Daemon, item) && off == old(off) + |EncodeItem(item)|
      decreases |ValueOf(item)|, 2
    {
      hide At, EncodeItem, TagOf, ValueOf, Proper, CollectionValue, ReportValue, FieldValue, Varint, ReportTag,
           ReadField, ReadReport, ReadCollection;
      NodeAt(data, off, item);
      TagTells(item);
      var tag := ReadU8(TagOf(item));
      var len := ReadVarint(|ValueOf(item)|);
      var end := off + len;
      if tag == TAG_COLLECTION {
        var c := DecodeCollection(end, item.child);
        node := CollectionNode(c);
      } else if ReportTag(tag) {
        var r := DecodeReport(end, item.report);
        node := ReportNode(r);
      } else if tag == TAG_FIELD {
        var f := DecodeField(end, item.field);
        node := FieldNode(f);
      } else {
        off := end;
        node := FieldNode(DEFAULT_FIELD);
      }
      off := end;
    }

    /** The whole byte string back to the forest it was written from. */
    method Deserialize(ghost cs: seq<Collection>) returns (roots: seq<Collection>)
      requires off == 0 && data == EncodeCollections(cs)
      requires forall i :: 0 <= i < |cs| ==> |CollectionValue(cs[i])| < LIMIT
      modifies this`off
      ensures roots == ReadCollections(Daemon, cs)
    {
      hide At, EncodeCollections, EncodeItem, CollectionValue, ReadCollection;
      roots := [];
      ghost var i := 0;
      NoRoots(cs);
      assert cs[..|cs|] == cs;
      while off < |data|
        invariant i <= |cs| && off == |EncodeCollections(cs[..i])| && (i == |cs| ==> off == |data|)
        invariant roots == ReadCollections(Daemon, cs[..i])
        decreases |data| - off
      {
        RootAt(data, cs, i);
        NodeAt(data, off, ChildItem(cs[i]));
        var tag := data[off];
        var node := DecodeNode(ChildItem(cs[i]));
        if tag == TAG_COLLECTION && node.CollectionNode? { roots := roots + [node.collection]; }
        assert cs[..i + 1] == cs[..i] + [cs[i]];
        i := i + 1;
      }
      RootsPrefix(cs, i);
    }
  }
}
