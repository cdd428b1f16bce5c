/** The wire form is unambiguous: two trees have the same bytes exactly when they have the same
    normal form, which is what the daemon reads back. */
module TlvUnambiguous {
  import opened Wrappers
  import opened Tlv
  import opened TlvWire

  // ---------- the same bytes at the same place hold the same parts ----------

  lemma {:induction false} SameVarint(data: seq<Byte>, off: nat, m: nat, n: nat)
    requires At(data, off, Varint(m)) && At(data, off, Varint(n))
    ensures m == n
    decreases m
  {
    VarintBytes(data, off, m);
    VarintBytes(data, off, n);
    if m >= 128 { SameVarint(data, off + 1, m / 128, n / 128); }
  }

  lemma SameRanges(data: seq<Byte>, off: nat, f: Field, g: Field)
    requires At(data, off, EncodeRanges(f)) && At(data, off, EncodeRanges(g))
    ensures f.logicalMinimum == g.logicalMinimum && f.logicalMaximum == g.logicalMaximum
    ensures f.physicalMinimum == g.physicalMinimum && f.physicalMaximum == g.physicalMaximum
  {
    hide At, EncodeRanges, Le32;
    forall h | h in {f, g}
      ensures At(data, off, Le32(Bits32(h.logicalMinimum))) && At(data, off + 4, Le32(Bits32(h.logicalMaximum)))
      ensures At(data, off + 8, Le32(Bits32(h.physicalMinimum))) && At(data, off + 12, Le32(Bits32(h.physicalMaximum)))
    {
      RangesAt(data, off, h);
    }
    SameLe32(data, off, Bits32(f.logicalMinimum), Bits32(g.logicalMinimum));
    SameLe32(data, off + 4, Bits32(f.logicalMaximum), Bits32(g.logicalMaximum));
    SameLe32(data, off + 8, Bits32(f.physicalMinimum), Bits32(g.physicalMinimum));
    SameLe32(data, off + 12, Bits32(f.physicalMaximum), Bits32(g.physicalMaximum));
  }

  lemma SameLe32(data: seq<Byte>, off: nat, m: U32, n: U32)
    requires At(data, off, Le32(m)) && At(data, off, Le32(n))
    ensures m == n
  {
    hide At, Le32;
    AtLe32(data, off, m);
    AtLe32(data, off, n);
  }

  lemma SameUnits(data: seq<Byte>, off: nat, f: Field, g: Field)
    requires At(data, off, EncodeUnits(f)) && At(data, off, EncodeUnits(g))
    ensures LowByte(f.unitExponent) == LowByte(g.unitExponent) && UnitTag(f.unitSystem) == UnitTag(g.unitSystem)
    ensures ReadFactors(f.factors) == ReadFactors(g.factors)
  {
    hide At, EncodeUnits, UnitTag, LowByte, Signed;
    UnitsAt(data, off, f);
    UnitsAt(data, off, g);
  }

  lemma SameFixed(data: seq<Byte>, off: nat, f: Field, g: Field)
    requires At(data, off, EncodeFixed(f)) && At(data, off, EncodeFixed(g))
    ensures |EncodeFixed(f)| == |EncodeFixed(g)| && f.flags == g.flags
    ensures f.reportSize == g.reportSize && f.reportCount == g.reportCount
    ensures f.logicalMinimum == g.logicalMinimum && f.logicalMaximum == g.logicalMaximum
    ensures f.physicalMinimum == g.physicalMinimum && f.physicalMaximum == g.physicalMaximum
    ensures LowByte(f.unitExponent) == LowByte(g.unitExponent) && UnitTag(f.unitSystem) == UnitTag(g.unitSystem)
    ensures ReadFactors(f.factors) == ReadFactors(g.factors)
  {
    hide At, EncodeFixed, EncodeRanges, EncodeUnits, Varint, Le16, FlagBits, LowByte, UnitTag, ReadFactors, FlagsFrom;
    FixedAt(data, off, f);
    FixedAt(data, off, g);
    AtLe16(data, off, FlagBits(f.flags));
    AtLe16(data, off, FlagBits(g.flags));
    FlagsBack(f.flags);
    FlagsBack(g.flags);
    var size := off + 2 + |Varint(f.reportSize)|;
    SameVarint(data, off + 2, f.reportSize, g.reportSize);
    SameVarint(data, size, f.reportCount, g.reportCount);
    var ranges := size + |Varint(f.reportCount)|;
    SameRanges(data, ranges, f, g);
    SameUnits(data, ranges + 16, f, g);
  }

  lemma {:induction false} SameList(data: seq<Byte>, off: nat, us: seq<U32>, vs: seq<U32>, i: nat)
    requires i <= |us| == |vs|
    requires At(data, off, Concat32(us[i..])) && At(data, off, Concat32(vs[i..]))
    ensures us[i..] == vs[i..]
    decreases |us| - i
  {
    hide At, Concat32, Le32;
    if i < |us| {
      UsageAt(data, off, us, i);
      UsageAt(data, off, vs, i);
      SameLe32(data, off, us[i], vs[i]);
      SameList(data, off + 4, us, vs, i + 1);
      assert us[i..] == [us[i]] + us[i + 1..] && vs[i..] == [vs[i]] + vs[i + 1..];
    }
  }

  lemma SameUsages(data: seq<Byte>, off: nat, f: Field, g: Field)
    requires At(data, off, EncodeUsages(f)) && At(data, off, EncodeUsages(g)) && f.flags.isRange == g.flags.isRange
    ensures |EncodeUsages(f)| == |EncodeUsages(g)|
    ensures f.flags.isRange ==> GetOr(f.usageMinimum, 0) == GetOr(g.usageMinimum, 0)
    ensures f.flags.isRange ==> GetOr(f.usageMaximum, 0) == GetOr(g.usageMaximum, 0)
    ensures !f.flags.isRange ==> GetOr(f.usages, []) == GetOr(g.usages, [])
  {
    hide At, EncodeUsages, Varint, Concat32, Le32;
    UsagesAt(data, off, f);
    UsagesAt(data, off, g);
    if f.flags.isRange {
      SameLe32(data, off, GetOr(f.usageMinimum, 0), GetOr(g.usageMinimum, 0));
      SameLe32(data, off + 4, GetOr(f.usageMaximum, 0), GetOr(g.usageMaximum, 0));
    } else {
      var us, vs := GetOr(f.usages, []), GetOr(g.usages, []);
      SameVarint(data, off, |us|, |vs|);
      assert us[0..] == us && vs[0..] == vs;
      SameList(data, off + |Varint(|us|)|, us, vs, 0);
    }
  }

  lemma {:induction false} SameStringList(data: seq<Byte>, off: nat, ss: seq<seq<Byte>>, ts: seq<seq<Byte>>)
    requires |ss| == |ts| && At(data, off, ConcatStrings(ss)) && At(data, off, ConcatStrings(ts))
    ensures ss == ts
    decreases |ss|
  {
    hide At, ConcatStrings, Varint;
    if |ss| > 0 {
      StringAt(data, off, ss);
      StringAt(data, off, ts);
      SameVarint(data, off, |ss[0]|, |ts[0]|);
      SameStringList(data, off + |Varint(|ss[0]|)| + |ss[0]|, ss[1..], ts[1..]);
      assert ss == [ss[0]] + ss[1..] && ts == [ts[0]] + ts[1..];
    }
  }

  lemma SameStrings(data: seq<Byte>, off: nat, ss: seq<seq<Byte>>, ts: seq<seq<Byte>>)
    requires At(data, off, EncodeStrings(ss)) && At(data, off, EncodeStrings(ts))
    ensures ss == ts
  {
    hide At, EncodeStrings, ConcatStrings, Varint;
    StringsAt(data, off, ss);
    StringsAt(data, off, ts);
    SameVarint(data, off, |ss|, |ts|);
    SameStringList(data, off + |Varint(|ss|)|, ss, ts);
  }

  lemma SameField(data: seq<Byte>, off: nat, f: Field, g: Field)
    requires At(data, off, FieldValue(f)) && At(data, off, FieldValue(g))
    ensures ReadField(Daemon, f) == ReadField(Daemon, g)
  {
    hide At, FieldValue, EncodeFixed, EncodeUsages, EncodeStrings, LowByte, UnitTag, UnitSystem, ReadFactors, Signed;
    ValueAt(data, off, f);
    ValueAt(data, off, g);
    SameFixed(data, off, f, g);
    SameUsages(data, off + |EncodeFixed(f)|, f, g);
    SameStrings(data, off + |EncodeFixed(f)| + |EncodeUsages(f)|, f.strings, g.strings);
    SameReading(f, g);
  }

  lemma SameReading(f: Field, g: Field)
    requires f.flags.isRange == g.flags.isRange && (!f.flags.isRange ==> GetOr(f.usages, []) == GetOr(g.usages, []))
    ensures ReadUsages(Daemon, f) == ReadUsages(Daemon, g)
  {
  }

  /** Two nodes with the same bytes are read as the same node. */
  lemma {:induction false} SameNode(data: seq<Byte>, off: nat, a: Item, b: Item)
    requires Proper(a) && Proper(b) && At(data, off, EncodeItem(a)) && At(data, off, EncodeItem(b))
    ensures TagOf(a) == TagOf(b) && |EncodeItem(a)| == |EncodeItem(b)| && NodeOf(Daemon, a) == NodeOf(Daemon, b)
    decreases |ValueOf(a)|, 2
  {
    hide At, EncodeItem, TagOf, ValueOf, Proper, CollectionValue, ReportValue, FieldValue, Varint, ReportTag,
         ReadField, ReadReport, ReadCollection;
    NodeAt(data, off, a);
    NodeAt(data, off, b);
    SameVarint(data, off + 1, |ValueOf(a)|, |ValueOf(b)|);
    var start := off + 1 + |Varint(|ValueOf(a)|)|;
    TagTells(a);
    TagTells(b);
    match a
    case ChildItem(c) => SameCollection(data, start, c, b.child);
    case ReportItem(_, r) => SameReport(data, start, r, b.report);
    case FieldItem(f) => SameField(data, start, f, b.field);
    case OtherItem(_, _) =>
  }

  lemma SameReport(data: seq<Byte>, off: nat, r: Report, q: Report)
    requires At(data, off, ReportValue(r)) && At(data, off, ReportValue(q)) && |ReportValue(r)| == |ReportValue(q)|
    ensures ReadReport(Daemon, r) == ReadReport(Daemon, q)
    decreases |ReportValue(r)|, 1
  {
    hide At, ReportValue, EncodeFields, ReadFields;
    ReportAt(data, off, r);
    ReportAt(data, off, q);
    AtByte(data, off, r.reportId);
    AtByte(data, off, q.reportId);
    SameFieldPrefix(data, off + 1, r, q, 0);
  }

  /** Fields up to the i-th read the same and take the same bytes; so do the rest. */
  lemma SameFieldPrefix(data: seq<Byte>, off: nat, r: Report, q: Report, i: nat)
    requires At(data, off, EncodeFields(r.items)) && At(data, off, EncodeFields(q.items))
    requires |EncodeFields(r.items)| == |EncodeFields(q.items)|
    requires i <= |r.items| && i <= |q.items| && |EncodeFields(r.items[..i])| == |EncodeFields(q.items[..i])|
    requires ReadFields(Daemon, r.items[..i]) == ReadFields(Daemon, q.items[..i])
    ensures ReadFields(Daemon, r.items) == ReadFields(Daemon, q.items)
    decreases |ReportValue(r)|, 0, |r.items| - i
  {
    hide At, EncodeFields, EncodeItem, ReadFields, ReadField, ValueOf, ReportValue;
    FieldsPrefix(r.items, i);
    FieldsPrefix(q.items, i);
    if i < |r.items| && i < |q.items| {
      FieldAt(data, off, r.items, i);
      FieldAt(data, off, q.items, i);
      FieldItemFits(r, i);
      SameNode(data, off + |EncodeFields(r.items[..i])|, FieldItem(r.items[i]), FieldItem(q.items[i]));
      FieldsReadMore(Daemon, r.items, i);
      FieldsReadMore(Daemon, q.items, i);
      SameFieldPrefix(data, off, r, q, i + 1);
    } else {
      assert r.items[..|r.items|] == r.items && q.items[..|q.items|] == q.items;
    }
  }

  lemma SameHead(data: seq<Byte>, off: nat, c: Collection, d: Collection)
    requires At(data, off, EncodeHead(c)) && At(data, off, EncodeHead(d))
    ensures c.usagePage == d.usagePage && c.usage == d.usage && c.collectionType == d.collectionType
    ensures |EncodeHead(c)| == |EncodeHead(d)|
  {
    hide At, EncodeHead, Digit, Presence, Le16;
    HeadAt(data, off, c);
    HeadAt(data, off, d);
    AtByte(data, off, Presence(c));
    AtByte(data, off, Presence(d));
    if c.usagePage.Some? {
      AtLe16(data, off + 1, c.usagePage.value);
      AtLe16(data, off + 1, d.usagePage.value);
    }
    var usage := off + (if c.usagePage.Some? then 3 else 1);
    var kind := usage + (if c.usage.Some? then 2 else 0);
    if c.usage.Some? {
      AtLe16(data, usage, c.usage.value);
      AtLe16(data, usage, d.usage.value);
    }
    AtByte(data, kind, c.collectionType);
    AtByte(data, kind, d.collectionType);
  }

  lemma SameCollection(data: seq<Byte>, off: nat, c: Collection, d: Collection)
    requires At(data, off, CollectionValue(c)) && At(data, off, CollectionValue(d))
    requires |CollectionValue(c)| == |CollectionValue(d)|
    ensures ReadCollection(Daemon, c) == ReadCollection(Daemon, d)
    decreases |CollectionValue(c)|, 1
  {
    hide At, CollectionValue, EncodeHead, EncodeItems, ReadChildren, ReadInputs, ReadOutputs, ReadFeatures,
         ReadCollection,
         ItemCount;
    CollectionAt(data, off, c);
    CollectionAt(data, off, d);
    SameHead(data, off, c, d);
    ReadWhole(Daemon, c);
    ReadWhole(Daemon, d);
    NoItems(c);
    NoItems(d);
    SameItemPrefix(data, off + |EncodeHead(c)|, c, d, 0);
  }

  predicate SamePart(c: Collection, d: Collection, k: nat, l: nat) {
    ReadChildren(Daemon, c, k) == ReadChildren(Daemon, d, l) && ReadInputs(Daemon, c, k) == ReadInputs(Daemon, d, l)
    && ReadOutputs(Daemon, c, k) == ReadOutputs(Daemon, d, l)
    && ReadFeatures(Daemon, c, k) == ReadFeatures(Daemon, d, l)
  }

  /** The first k nodes take the same bytes and read the same; so do the rest. */
  lemma SameItemPrefix(data: seq<Byte>, off: nat, c: Collection, d: Collection, k: nat)
    requires At(data, off, EncodeItems(c, ItemCount(c))) && At(data, off, EncodeItems(d, ItemCount(d)))
    requires |EncodeItems(c, ItemCount(c))| == |EncodeItems(d, ItemCount(d))|
    requires k <= ItemCount(c) && k <= ItemCount(d) && |EncodeItems(c, k)| == |EncodeItems(d, k)|
    requires SamePart(c, d, k, k)
    ensures SamePart(c, d, ItemCount(c), ItemCount(d))
    decreases |CollectionValue(c)|, 0, ItemCount(c) - k
  {
    hide At, CollectionValue, EncodeItem, EncodeItems, ItemOf, ValueOf, TagOf, NodeOf, Proper, ItemCount, SamePart;
    ItemsPrefix(c, k, ItemCount(c));
    ItemsPrefix(d, k, ItemCount(d));
    if k < ItemCount(c) && k < ItemCount(d) {
      ItemAt(data, off, c, k);
      ItemAt(data, off, d, k);
      ItemFits(c, k);
      ItemProper(c, k);
      ItemProper(d, k);
      SameNode(data, off + |EncodeItems(c, k)|, ItemOf(c, k), ItemOf(d, k));
      SamePartNext(c, d, k);
      SameItemPrefix(data, off, c, d, k + 1);
    }
  }

  lemma SamePartNext(c: Collection, d: Collection, k: nat)
    requires k < ItemCount(c) && k < ItemCount(d) && SamePart(c, d, k, k)
    requires TagOf(ItemOf(c, k)) == TagOf(ItemOf(d, k)) && NodeOf(Daemon, ItemOf(c, k)) == NodeOf(Daemon, ItemOf(d, k))
    ensures SamePart(c, d, k + 1, k + 1)
  {
    hide ItemOf, TagOf, NodeOf, ItemCount, ReadChildren, ReadInputs, ReadOutputs, ReadFeatures;
    var tag, node := TagOf(ItemOf(c, k)), NodeOf(Daemon, ItemOf(c, k));
    ReadNext(Daemon, c, k, tag, node);
    ReadNext(Daemon, d, k, tag, node);
  }

  /** Up to the i-th root the two forests read the same and take the same bytes; so do the rest. */
  lemma {:induction false} SameRootPrefix(data: seq<Byte>, cs: seq<Collection>, ds: seq<Collection>, i: nat)
    requires data == EncodeCollections(cs) == EncodeCollections(ds)
    requires i <= |cs| && i <= |ds| && |EncodeCollections(cs[..i])| == |EncodeCollections(ds[..i])|
    requires ReadCollections(Daemon, cs[..i]) == ReadCollections(Daemon, ds[..i])
    ensures ReadCollections(Daemon, cs) == ReadCollections(Daemon, ds)
    decreases |cs| - i
  {
    hide At, EncodeCollections, EncodeItem, ReadCollection, ReadCollections;
    RootsPrefix(cs, i);
    RootsPrefix(ds, i);
    if i < |cs| && i < |ds| {
      RootAt(data, cs, i);
      RootAt(data, ds, i);
      SameNode(data, |EncodeCollections(cs[..i])|, ChildItem(cs[i]), ChildItem(ds[i]));
      RootsReadMore(Daemon, cs, i);
      RootsReadMore(Daemon, ds, i);
      SameRootPrefix(data, cs, ds, i + 1);
    } else {
      assert cs[..|cs|] == cs && ds[..|ds|] == ds;
    }
  }

  lemma RootsReadMore(view: View, cs: seq<Collection>, i: nat)
    requires i < |cs|
    ensures ReadCollections(view, cs[..i + 1]) == ReadCollections(view, cs[..i]) + [ReadCollection(view, cs[i])]
  {
    hide ReadCollection;
  }

  // ---------- the normal form has the same bytes ----------

  lemma FieldKeepsBytes(f: Field)
    ensures FieldValue(ReadField(Daemon, f)) == FieldValue(f)
  {
    hide EncodeUsages, EncodeUnits, Varint, Le16, Le32, Bits32, FlagBits, ReadUsages, UnitSystem, UnitTag, LowByte,
         ReadFactors, EncodeStrings;
    UnitsKeepBytes(f);
    UsagesKeepBytes(f);
  }

  lemma UnitsKeepBytes(f: Field)
    ensures EncodeUnits(ReadField(Daemon, f)) == EncodeUnits(f)
  {
    hide UnitTag, UnitSystem, ReadUsages, LowByte, Signed, ReadStrings;
    TagBack(f.unitSystem);
    ByteBack(f.unitExponent);
    ByteBack(f.factors.length);
    ByteBack(f.factors.mass);
    ByteBack(f.factors.time);
    ByteBack(f.factors.temperature);
    ByteBack(f.factors.current);
    ByteBack(f.factors.luminous);
  }

  /** The byte of a number read back from its byte is the same one. */
  lemma ByteBack(n: I32)
    ensures LowByte(Signed(LowByte(n))) == LowByte(n)
  {
  }

  lemma UsagesKeepBytes(f: Field)
    ensures EncodeUsages(ReadField(Daemon, f)) == EncodeUsages(f)
  {
    hide Varint, Le32, Concat32, UnitSystem, UnitTag, LowByte, ReadFactors;
  }

  lemma TagBack(name: string)
    ensures UnitTag(UnitSystem(UnitTag(name))) == UnitTag(name)
  {
    var tag := UnitTag(name);
    TagDistinct(tag, 0);
  }

  lemma {:induction false} TagDistinct(tag: Byte, i: nat)
    requires i <= tag < |UNIT_SYSTEMS|
    ensures UnitTagFrom(UNIT_SYSTEMS[tag], i) == tag
    decreases tag - i
  {
    assert |UNIT_SYSTEMS[0]| == 4 && |UNIT_SYSTEMS[1]| == 9 && |UNIT_SYSTEMS[2]| == 11 && |UNIT_SYSTEMS[3]| == 14;
    assert |UNIT_SYSTEMS[4]| == 16 && |UNIT_SYSTEMS[5]| == 14 && |UNIT_SYSTEMS[6]| == 8;
    assert UNIT_SYSTEMS[3][0] == 'e' && UNIT_SYSTEMS[5][0] == 'v';
    if i < tag { TagDistinct(tag, i + 1); }
  }

  lemma {:induction false} FieldsKeepBytes(fs: seq<Field>)
    ensures EncodeFields(ReadFields(Daemon, fs)) == EncodeFields(fs)
  {
    hide FieldValue, ReadField;
    if |fs| > 0 {
      FieldsKeepBytes(fs[..|fs| - 1]);
      FieldKeepsBytes(fs[|fs| - 1]);
      assert ReadFields(Daemon, fs)[..|fs| - 1] == ReadFields(Daemon, fs[..|fs| - 1]);
    }
  }

  lemma {:induction false} ReportsKeepBytes(tag: Byte, rs: seq<Report>)
    ensures EncodeReports(tag, ReadReports(Daemon, rs)) == EncodeReports(tag, rs)
  {
    hide ReadFields, EncodeFields;
    if |rs| > 0 {
      ReportsKeepBytes(tag, rs[..|rs| - 1]);
      FieldsKeepBytes(rs[|rs| - 1].items);
      assert ReadReports(Daemon, rs)[..|rs| - 1] == ReadReports(Daemon, rs[..|rs| - 1]);
    }
  }

  lemma {:induction false} CollectionKeepsBytes(c: Collection)
    ensures CollectionValue(ReadCollection(Daemon, c)) == CollectionValue(c)
    decreases c, 1
  {
    hide EncodeCollections, EncodeReports, ReadCollections, ReadReports;
    CollectionsKeepBytes(c.children);
    ReportsKeepBytes(TAG_INPUT_REPORT, c.inputReports);
    ReportsKeepBytes(TAG_OUTPUT_REPORT, c.outputReports);
    ReportsKeepBytes(TAG_FEATURE_REPORT, c.featureReports);
  }

  lemma {:induction false} CollectionsKeepBytes(cs: seq<Collection>)
    ensures EncodeCollections(ReadCollections(Daemon, cs)) == EncodeCollections(cs)
    decreases cs, 0
  {
    hide CollectionValue, ReadCollection;
    if |cs| > 0 {
      CollectionsKeepBytes(cs[..|cs| - 1]);
      CollectionKeepsBytes(cs[|cs| - 1]);
      assert ReadCollections(Daemon, cs)[..|cs| - 1] == ReadCollections(Daemon, cs[..|cs| - 1]);
    }
  }

  /** Same bytes exactly when same normal form. */
  lemma SameBytesIffSameTree(cs: seq<Collection>, ds: seq<Collection>)
    ensures EncodeCollections(cs) == EncodeCollections(ds)
       <==> ReadCollections(Daemon, cs) == ReadCollections(Daemon, ds)
  {
    hide EncodeCollections, ReadCollections;
    CollectionsKeepBytes(cs);
    CollectionsKeepBytes(ds);
    if EncodeCollections(cs) == EncodeCollections(ds) {
      NoRoots(cs);
      NoRoots(ds);
      assert cs[..0] == ds[..0];
      SameRootPrefix(EncodeCollections(cs), cs, ds, 0);
    }
  }
}
