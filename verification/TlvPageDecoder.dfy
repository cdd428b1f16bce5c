/** The page's decoder for the same bytes: one shared cursor, no bounds of its own, and its own
    reading of unit exponents, of text and of unknown nodes. */
module TlvPageDecoder {
  import opened Wrappers
  import opened Tlv
  import opened TlvWire

  datatype UsageBlock = UsageBlock(usages: Option<seq<U32>>, usageMinimum: Option<U32>, usageMaximum: Option<U32>)

  function UsageBlockOf(f: Field): UsageBlock {
    UsageBlock(ReadUsages(Page, f),
               if f.flags.isRange then Some(GetOr(f.usageMinimum, 0)) else None,
               if f.flags.isRange then Some(GetOr(f.usageMaximum, 0)) else None)
  }

  class PageDecoder {
    const bin: seq<Byte>
    var off: nat

    constructor (bytes: seq<Byte>)
      ensures bin == bytes && off == 0
    {
      bin := bytes;
      off := 0;
    }

    method ReadVarint(ghost value: U32) returns (result: U32)
      requires At(bin, off, Varint(value))
      modifies this`off
      ensures result == value && off == old(off) + |Varint(value)|
    {
      hide At, Varint, ShiftLeft, Weighted;
      NoShift(value);
      result := 0;
      var shift: nat := 0;
      ghost var rest: nat := value;
      var more := true;
      while more
        invariant more ==> At(bin, off, Varint(rest)) && off + |Varint(rest)| == old(off) + |Varint(value)|
        invariant more ==> shift % 7 == 0 && (rest > 0 || shift == 0) && result + Weighted(rest, shift) == value
        invariant !more ==> result == value && off == old(off) + |Varint(value)|
        decreases more, rest
      {
        VarintBytes(bin, off, rest);
        var byte := bin[off];
        off := off + 1;
        ShiftFits(value, result, rest, shift);
        NoDigits(shift + 7);
        result := result + ShiftLeft(byte % 128, shift);
        shift := shift + 7;
        if byte < 128 { more := false; }
        rest := rest / 128;
      }
    }

    method GetUint8(ghost b: Byte) returns (v: Byte)
      requires At(bin, off, [b])
      modifies this`off
      ensures v == b && off == old(off) + 1
    {
      AtByte(bin, off, b);
      v := bin[off];
      off := off + 1;
    }

    method GetUint16(ghost n: U16) returns (v: U16)
      requires At(bin, off, Le16(n))
      modifies this`off
      ensures v == n && off == old(off) + 2
    {
      AtLe16(bin, off, n);
      v := FromLe16(bin[off], bin[off + 1]);
      off := off + 2;
    }

    method GetUint32(ghost n: U32) returns (v: U32)
      requires At(bin, off, Le32(n))
      modifies this`off
      ensures v == n && off == old(off) + 4
    {
      AtLe32(bin, off, n);
      v := FromLe32(bin[off], bin[off + 1], bin[off + 2], bin[off + 3]);
      off := off + 4;
    }

    method GetInt32(ghost n: I32) returns (v: I32)
      requires At(bin, off, Le32(Bits32(n)))
      modifies this`off
      ensures v == n && off == old(off) + 4
    {
      AtLe32(bin, off, Bits32(n));
      v := FromBits32(FromLe32(bin[off], bin[off + 1], bin[off + 2], bin[off + 3]));
      off := off + 4;
    }

    method ReadRanges(ghost f: Field) returns (a: I32, b: I32, c: I32, d: I32)
      requires At(bin, off, EncodeRanges(f))
      modifies this`off
      ensures a == f.logicalMinimum && b == f.logicalMaximum && c == f.physicalMinimum && d == f.physicalMaximum
      ensures off == old(off) + 16
    {
      hide At, Le32, EncodeRanges, Bits32;
      RangesAt(bin, off, f);
      a := GetInt32(f.logicalMinimum);
      b := GetInt32(f.logicalMaximum);
      c := GetInt32(f.physicalMinimum);
      d := GetInt32(f.physicalMaximum);
    }

    /** The unit exponent is read from the low nibble of its byte only. */
    method ReadUnits(ghost f: Field) returns (exponent: I32, system: string, factors: Factors)
      requires At(bin, off, EncodeUnits(f))
      modifies this`off
      ensures exponent == SignedNibble(LowByte(f.unitExponent)) && system == UnitSystem(UnitTag(f.unitSystem))
      ensures factors == ReadFactors(f.factors) && off == old(off) + 8
    {
      hide At, EncodeUnits, UnitTag, LowByte, UnitSystem, Signed;
      UnitsAt(bin, off, f);
      var nibble: int := bin[off] % 16;
      off := off + 1;
      exponent := if nibble / 8 % 2 == 1 then nibble - 16 else nibble;
      system := UnitSystem(bin[off]);
      off := off + 1;
      var length := Signed(bin[off]);
      off := off + 1;
      var mass := Signed(bin[off]);
      off := off + 1;
      var time := Signed(bin[off]);
      off := off + 1;
      var temperature := Signed(bin[off]);
      off := off + 1;
      var current := Signed(bin[off]);
      off := off + 1;
      var luminous := Signed(bin[off]);
      off := off + 1;
      factors := Factors(length, mass, time, temperature, current, luminous);
    }

    method ReadUsageBlock(isRange: bool, ghost f: Field) returns (block: UsageBlock)
      requires At(bin, off, EncodeUsages(f))
      requires isRange == f.flags.isRange && (isRange || |GetOr(f.usages, [])| < LIMIT)
      modifies this`off
      ensures block == UsageBlockOf(f) && off == old(off) + |EncodeUsages(f)|
    {
      hide At, Varint, Le32, Concat32, EncodeUsages;
      UsagesAt(bin, off, f);
      if isRange {
        var usageMinimum := GetUint32(GetOr(f.usageMinimum, 0));
        var usageMaximum := GetUint32(GetOr(f.usageMaximum, 0));
        block := UsageBlock(None, Some(usageMinimum), Some(usageMaximum));
      } else {
        ghost var us := GetOr(f.usages, []);
        var count: nat := ReadVarint(|us|);
        ghost var start := off;
        var usages: seq<U32> := [];
        assert us[0..] == us;
        for i := 0 to count
          invariant off == start + 4 * i && usages == us[..i] && At(bin, off, Concat32(us[i..]))
        {
          UsageAt(bin, off, us, i);
          var u := GetUint32(us[i]);
          usages := usages + [u];
        }
        assert us[..|us|] == us;
        block := UsageBlock(Some(usages), None, None);
      }
    }

    method ReadStringList(ghost ss: seq<seq<Byte>>) returns (strings: seq<seq<Byte>>)
      requires At(bin, off, EncodeStrings(ss))
      requires |ss| < LIMIT && forall i :: 0 <= i < |ss| ==> |ss[i]| < LIMIT
      modifies this`off
      ensures strings == ReadStrings(Page, ss) && off == old(off) + |EncodeStrings(ss)|
    {
      hide At, EncodeStrings, Varint, PageString;
      StringsAt(bin, off, ss);
      ghost var stop := off + |EncodeStrings(ss)|;
      var count: nat := ReadVarint(|ss|);
      assert ss[0..] == ss;
      strings := [];
      for i := 0 to count
        invariant |strings| == i && forall j :: 0 <= j < i ==> strings[j] == PageString(ss[j])
        invariant At(bin, off, ConcatStrings(ss[i..])) && off + |ConcatStrings(ss[i..])| == stop
      {
        StringAt(bin, off, ss[i..]);
        var byteLen := ReadVarint(|ss[i]|);
        strings := strings + [PageString(bin[off..off + byteLen])];
        off := off + byteLen;
        assert ss[i..][1..] == ss[i + 1..];
      }
      assert ss[|ss|..] == [];
    }

    method ReadFieldNode(ghost f: Field) returns (field: Field)
      requires At(bin, off, FieldValue(f)) && |FieldValue(f)| < LIMIT
      modifies this`off
      ensures field == ReadField(Page, f) && off == old(off) + |FieldValue(f)|
    {
      hide At, FieldValue, EncodeFixed, EncodeUsages, EncodeStrings, EncodeRanges, EncodeUnits, Varint, FlagBits,
           FlagsFrom,
           ReadFactors, ReadStrings, ReadUsages, SignedNibble, UnitSystem, UnitTag, LowByte;
      ValueAt(bin, off, f);
      FixedAt(bin, off, f);
      FieldPartsFit(f);
      FlagsBack(f.flags);
      var bits := GetUint16(FlagBits(f.flags));
      var reportSize := ReadVarint(f.reportSize);
      var reportCount := ReadVarint(f.reportCount);
      var a, b, c, d := ReadRanges(f);
      var exponent, system, factors := ReadUnits(f);
      var flags := FlagsFrom(bits);
      var block := ReadUsageBlock(flags.isRange, f);
      var strings := ReadStringList(f.strings);
      field := Field(block.usages, block.usageMinimum, block.usageMaximum, reportSize, reportCount, a, b, c, d,
                     exponent,
                     system, factors, flags, strings);
    }

    method ReadReportNode(end: nat, ghost r: Report) returns (report: Report)
      requires At(bin, off, ReportValue(r)) && end == off + |ReportValue(r)| && |ReportValue(r)| < LIMIT
      modifies this`off
      ensures report == ReadReport(Page, r) && off == end
      decreases |ReportValue(r)|, 1
    {
      hide At, EncodeFields, EncodeItem, FieldValue, ReadField, ReadFields, ReportValue, ValueOf, Varint;
      ReportAt(bin, off, r);
      NoFields();
      NoFieldsRead(Page, r.items);
      var reportId := GetUint8(r.reportId);
      ghost var start, i := off, 0;
      var items: seq<Field> := [];
      while off < end
        invariant i <= |r.items| && off == start + |EncodeFields(r.items[..i])| <= end
        invariant items == ReadFields(Page, r.items[..i]) && (i == |r.items| ==> off == end)
        decreases end - off
      {
        FieldAt(bin, start, r.items, i);
        FieldItemFits(r, i);
        NodeNonempty(FieldItem(r.items[i]));
        var _, node := ReadNode(FieldItem(r.items[i]));
        if node.FieldNode? { items := items + [node.field]; }
        FieldsReadMore(Page, r.items, i);
        i := i + 1;
      }
      FieldsPrefix(r.items, i);
      report := Report(reportId, items);
    }

    method ReadHead(ghost c: Collection) returns (usagePage: Option<U16>, usage: Option<U16>, kind: Byte)
      requires At(bin, off, EncodeHead(c))
      modifies this`off
      ensures usagePage == c.usagePage && usage == c.usage && kind == c.collectionType
      ensures off == old(off) + |EncodeHead(c)|
    {
      hide At, EncodeHead, Digit, Presence;
      HeadAt(bin, off, c);
      var presence := GetUint8(Presence(c));
      usagePage, usage := None, None;
      if Digit(presence, 0) {
        var v := GetUint16(c.usagePage.value);
        usagePage := Some(v);
      }
      if Digit(presence, 1) {
        var v := GetUint16(c.usage.value);
        usage := Some(v);
      }
      kind := GetUint8(c.collectionType);
    }

    method ReadCollectionNode(end: nat, ghost c: Collection) returns (collection: Collection)
      requires At(bin, off, CollectionValue(c)) && end == off + |CollectionValue(c)| && |CollectionValue(c)| < LIMIT
      modifies this`off
      ensures collection == ReadCollection(Page, c) && off == end
      decreases |CollectionValue(c)|, 1
    {
      hide At, CollectionValue, EncodeHead, EncodeItem, EncodeItems, ItemOf, ValueOf, TagOf, NodeOf, Proper, Varint,
           ReadChildren, ReadInputs, ReadOutputs, ReadFeatures, ReadCollection;
      CollectionAt(bin, off, c);
      var usagePage, usage, kind := ReadHead(c);
      ghost var start, k := off, 0;
      var children: seq<Collection> := [];
      var inputReports: seq<Report>, outputReports: seq<Report>, featureReports: seq<Report> := [], [], [];
      NoItems(c);
      ReadWhole(Page, c);
      while off < end
        invariant k <= ItemCount(c) && off == start + |EncodeItems(c, k)| <= end
        invariant children == ReadChildren(Page, c, k) && inputReports == ReadInputs(Page, c, k)
        invariant outputReports == ReadOutputs(Page, c, k) && featureReports == ReadFeatures(Page, c, k)
        decreases end - off
      {
        ItemAt(bin, start, c, k);
        ItemFits(c, k);
        ItemProper(c, k);
        NodeNonempty(ItemOf(c, k));
        var tag, node := ReadNode(ItemOf(c, k));
        ReadNext(Page, c, k, tag, node);
        if node != NoNode {
          if tag == TAG_COLLECTION {
            children := children + [node.collection];
          } else if tag == TAG_INPUT_REPORT {
            inputReports := inputReports + [node.report];
          } else if tag == TAG_OUTPUT_REPORT {
            outputReports := outputReports + [node.report];
          } else if tag == TAG_FEATURE_REPORT {
            featureReports := featureReports + [node.report];
          }
        }
        k := k + 1;
      }
      ItemsPrefix(c, k, ItemCount(c));
      collection := Collection(kind, usagePage, usage, children, inputReports, outputReports, featureReports);
    }

    method ReadNode(ghost item: Item) returns (tag: Byte, node: Decoded)
      requires At(bin, off, EncodeItem(item)) && Proper(item) && |ValueOf(item)| < LIMIT
      modifies this`off
      ensures tag == TagOf(item) && node == NodeOf(Page, item) && off == old(off) + |EncodeItem(item)|
      decreases |ValueOf(item)|, 2
    {
      hide At, EncodeItem, TagOf, ValueOf, Proper, CollectionValue, ReportValue, FieldValue, Varint, ReportTag,
           ReadField, ReadReport, ReadCollection;
      NodeAt(bin, off, item);
      TagTells(item);
      tag := GetUint8(TagOf(item));
      var len := ReadVarint(|ValueOf(item)|);
      var end := off + len;
      if tag == TAG_COLLECTION {
        var c := ReadCollectionNode(end, item.child);
        node := CollectionNode(c);
      } else if ReportTag(tag) {
        var r := ReadReportNode(end, item.report);
        node := ReportNode(r);
      } else if tag == TAG_FIELD {
        var f := ReadFieldNode(item.field);
        node := FieldNode(f);
      } else {
        node := NoNode;
      }
      off := end;
    }

    /** The page's tree of the whole byte string. */
    method DecodeCollectionsTlv(ghost cs: seq<Collection>) returns (roots: seq<Collection>)
      requires off == 0 && bin == EncodeCollections(cs)
      requires forall i :: 0 <= i < |cs| ==> |CollectionValue(cs[i])| < LIMIT
      modifies this`off
      ensures roots == ReadCollections(Page, cs)
    {
      hide At, EncodeCollections, EncodeItem, CollectionValue, ReadCollection;
      roots := [];
      ghost var i := 0;
      NoRoots(cs);
      assert cs[..|cs|] == cs;
      while off < |bin|
        invariant i <= |cs| && off == |EncodeCollections(cs[..i])| && (i == |cs| ==> off == |bin|)
        invariant roots == ReadCollections(Page, cs[..i])
        decreases |bin| - off
      {
        RootAt(bin, cs, i);
        NodeNonempty(ChildItem(cs[i]));
        var tag, node := ReadNode(ChildItem(cs[i]));
        if tag == TAG_COLLECTION && node != NoNode { roots := roots + [node.collection]; }
        assert cs[..i + 1] == cs[..i] + [cs[i]];
        i := i + 1;
      }
      RootsPrefix(cs, i);
    }
  }
}
