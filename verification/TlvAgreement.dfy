/** When reading back loses nothing, and when the page reads what the daemon reads. */
module TlvAgreement {
  import opened Wrappers
  import opened Tlv
  import opened TlvWire

  // ---------- several readings in a row ----------

  function FieldThrough(views: seq<View>, f: Field): Field {
    if |views| == 0 then f else FieldThrough(views[1..], ReadField(views[0], f))
  }

  function FieldsThrough(views: seq<View>, fs: seq<Field>): (r: seq<Field>)
    ensures |r| == |fs|
  {
    if |views| == 0 then fs else FieldsThrough(views[1..], ReadFields(views[0], fs))
  }

  function ReportsThrough(views: seq<View>, rs: seq<Report>): (r: seq<Report>)
    ensures |r| == |rs|
  {
    if |views| == 0 then rs else ReportsThrough(views[1..], ReadReports(views[0], rs))
  }

  function CollectionThrough(views: seq<View>, c: Collection): Collection {
    if |views| == 0 then c else CollectionThrough(views[1..], ReadCollection(views[0], c))
  }

  function Through(views: seq<View>, cs: seq<Collection>): (r: seq<Collection>)
    ensures |r| == |cs|
  {
    if |views| == 0 then cs else Through(views[1..], ReadCollections(views[0], cs))
  }

  lemma {:induction false} FieldsThroughAt(views: seq<View>, fs: seq<Field>, i: nat)
    requires i < |fs|
    ensures FieldsThrough(views, fs)[i] == FieldThrough(views, fs[i])
    decreases |views|
  {
    hide ReadField;
    if |views| > 0 { FieldsThroughAt(views[1..], ReadFields(views[0], fs), i); }
  }

  lemma {:induction false} ReportsThroughAt(views: seq<View>, rs: seq<Report>, i: nat)
    requires i < |rs|
    ensures ReportsThrough(views, rs)[i] == Report(rs[i].reportId, FieldsThrough(views, rs[i].items))
    decreases |views|
  {
    hide ReadFields;
    if |views| > 0 { ReportsThroughAt(views[1..], ReadReports(views[0], rs), i); }
  }

  lemma {:induction false} CollectionThroughParts(views: seq<View>, c: Collection)
    ensures CollectionThrough(views, c)
         == Collection(c.collectionType, c.usagePage, c.usage, Through(views, c.children),
                       ReportsThrough(views, c.inputReports), ReportsThrough(views, c.outputReports),
                       ReportsThrough(views, c.featureReports))
    decreases |views|
  {
    hide ReadReports, ReadCollections;
    if |views| > 0 { CollectionThroughParts(views[1..], ReadCollection(views[0], c)); }
  }

  lemma {:induction false} ThroughAt(views: seq<View>, cs: seq<Collection>, i: nat)
    requires i < |cs|
    ensures Through(views, cs)[i] == CollectionThrough(views, cs[i])
    decreases |views|
  {
    hide ReadCollection;
    if |views| > 0 { ThroughAt(views[1..], ReadCollections(views[0], cs), i); }
  }

  // ---------- two chains agree on a tree exactly when they agree on its fields ----------

  function ReportFields(rs: seq<Report>): set<Field> {
    set i, j | 0 <= i < |rs| && 0 <= j < |rs[i].items| :: rs[i].items[j]
  }

  /** Every field anywhere in a collection. */
  function CollectionFields(c: Collection): set<Field>
    decreases c, 1
  {
    FieldsOf(c.children) + ReportFields(c.inputReports) + ReportFields(c.outputReports) + ReportFields(c.featureReports)
  }

  /** Every field anywhere in a forest. */
  function FieldsOf(cs: seq<Collection>): set<Field>
    decreases cs, 0
  {
    if |cs| == 0 then {} else FieldsOf(cs[..|cs| - 1]) + CollectionFields(cs[|cs| - 1])
  }

  predicate Agree(v: seq<View>, w: seq<View>, f: Field) { FieldThrough(v, f) == FieldThrough(w, f) }

  ghost predicate AllAgree(v: seq<View>, w: seq<View>, fs: set<Field>) { forall f :: f in fs ==> Agree(v, w, f) }

  lemma FieldsLift(v: seq<View>, w: seq<View>, fs: seq<Field>)
    ensures FieldsThrough(v, fs) == FieldsThrough(w, fs) <==> forall j :: 0 <= j < |fs| ==> Agree(v, w, fs[j])
  {
    hide FieldsThrough, FieldThrough;
    forall i | 0 <= i < |fs|
      ensures FieldsThrough(v, fs)[i] == FieldsThrough(w, fs)[i] <==> Agree(v, w, fs[i])
    {
      FieldsThroughAt(v, fs, i);
      FieldsThroughAt(w, fs, i);
    }
  }

  lemma ReportsLift(v: seq<View>, w: seq<View>, rs: seq<Report>)
    ensures ReportsThrough(v, rs) == ReportsThrough(w, rs) <==> AllAgree(v, w, ReportFields(rs))
  {
    hide ReportsThrough, FieldsThrough, Agree;
    forall i | 0 <= i < |rs|
      ensures ReportsThrough(v, rs)[i] == ReportsThrough(w, rs)[i]
         <==> forall j :: 0 <= j < |rs[i].items| ==> Agree(v, w, rs[i].items[j])
    {
      ReportsThroughAt(v, rs, i);
      ReportsThroughAt(w, rs, i);
      FieldsLift(v, w, rs[i].items);
    }
    if ReportsThrough(v, rs) == ReportsThrough(w, rs) {
      forall f | f in ReportFields(rs) ensures Agree(v, w, f) {
        var i, j :| 0 <= i < |rs| && 0 <= j < |rs[i].items| && rs[i].items[j] == f;
        assert ReportsThrough(v, rs)[i] == ReportsThrough(w, rs)[i];
      }
    }
  }

  lemma {:induction false} CollectionLift(v: seq<View>, w: seq<View>, c: Collection)
    ensures CollectionThrough(v, c) == CollectionThrough(w, c) <==> AllAgree(v, w, CollectionFields(c))
    decreases c, 1
  {
    hide CollectionThrough, Through, ReportsThrough, ReportFields, Agree;
    CollectionThroughParts(v, c);
    CollectionThroughParts(w, c);
    Lift(v, w, c.children);
    ReportsLift(v, w, c.inputReports);
    ReportsLift(v, w, c.outputReports);
    ReportsLift(v, w, c.featureReports);
  }

  lemma {:induction false} Lift(v: seq<View>, w: seq<View>, cs: seq<Collection>)
    ensures Through(v, cs) == Through(w, cs) <==> AllAgree(v, w, FieldsOf(cs))
    decreases cs, 0
  {
    hide CollectionThrough, Through, CollectionFields, Agree;
    if |cs| > 0 {
      var n := |cs| - 1;
      Lift(v, w, cs[..n]);
      CollectionLift(v, w, cs[n]);
      ThroughSplit(v, cs);
      ThroughSplit(w, cs);
      SameAppended(Through(v, cs[..n]), CollectionThrough(v, cs[n]), Through(w, cs[..n]), CollectionThrough(w, cs[n]));
    }
  }

  lemma SameAppended<T>(a: seq<T>, x: T, b: seq<T>, y: T)
    requires |a| == |b|
    ensures a + [x] == b + [y] <==> a == b && x == y
  {
    if a + [x] == b + [y] {
      assert (a + [x])[..|a|] == a && (b + [y])[..|b|] == b;
      assert (a + [x])[|a|] == x && (b + [y])[|b|] == y;
    }
  }

  lemma ThroughSplit(views: seq<View>, cs: seq<Collection>)
    requires |cs| > 0
    ensures Through(views, cs) == Through(views, cs[..|cs| - 1]) + [CollectionThrough(views, cs[|cs| - 1])]
  {
    hide Through, CollectionThrough;
    forall i | 0 <= i < |cs| ensures Through(views, cs)[i] == CollectionThrough(views, cs[i]) {
      ThroughAt(views, cs, i);
    }
    var most := cs[..|cs| - 1];
    forall i | 0 <= i < |most| ensures Through(views, most)[i] == CollectionThrough(views, most[i]) {
      ThroughAt(views, most, i);
    }
  }

  // ---------- when nothing is lost ----------

  predicate IsSignedByte(n: I32) { -128 <= n < 128 }

  /** A field that the wire form can carry in full. */
  predicate Normal(f: Field) {
    && IsSignedByte(f.unitExponent) && IsSignedByte(f.factors.length) && IsSignedByte(f.factors.mass)
    && IsSignedByte(f.factors.time) && IsSignedByte(f.factors.temperature) && IsSignedByte(f.factors.current)
    && IsSignedByte(f.factors.luminous) && f.unitSystem in UNIT_SYSTEMS
    && (if f.flags.isRange then f.usages == None && f.usageMinimum.Some? && f.usageMaximum.Some?
        else f.usages != Some([]) && f.usageMinimum == None && f.usageMaximum == None)
  }

  lemma SignedByteBack(n: I32)
    ensures Signed(LowByte(n)) == n <==> IsSignedByte(n)
  {
  }

  lemma FactorsBack(f: Factors)
    ensures ReadFactors(f) == f
       <==> IsSignedByte(f.length) && IsSignedByte(f.mass) && IsSignedByte(f.time) && IsSignedByte(f.temperature)
            && IsSignedByte(f.current) && IsSignedByte(f.luminous)
  {
    hide Signed, LowByte, IsSignedByte;
    SignedByteBack(f.length);
    SignedByteBack(f.mass);
    SignedByteBack(f.time);
    SignedByteBack(f.temperature);
    SignedByteBack(f.current);
    SignedByteBack(f.luminous);
  }

  lemma UnitBack(name: string)
    ensures UnitSystem(UnitTag(name)) == name <==> name in UNIT_SYSTEMS
    ensures UnitSystem(UnitTag(name)) in UNIT_SYSTEMS
  {
    assert UNIT_SYSTEMS[0..] == UNIT_SYSTEMS;
    assert UNIT_SYSTEMS[6] == "reserved";
  }

  lemma UsagesBack(f: Field)
    ensures (ReadUsages(Daemon, f) == f.usages
             && f.usageMinimum == (if f.flags.isRange then Some(GetOr(f.usageMinimum, 0)) else None)
             && f.usageMaximum == (if f.flags.isRange then Some(GetOr(f.usageMaximum, 0)) else None))
       <==> (if f.flags.isRange then f.usages == None && f.usageMinimum.Some? && f.usageMaximum.Some?
             else f.usages != Some([]) && f.usageMinimum == None && f.usageMaximum == None)
  {
  }

  lemma NormalIffBack(f: Field)
    ensures ReadField(Daemon, f) == f <==> Normal(f)
  {
    hide UnitSystem, UnitTag, ReadFactors, Signed, LowByte, ReadUsages, IsSignedByte;
    SignedByteBack(f.unitExponent);
    FactorsBack(f.factors);
    UnitBack(f.unitSystem);
    UsagesBack(f);
  }

  /** The round trip gives the very forest back exactly when all its fields are normal. */
  lemma LosslessIffNormal(cs: seq<Collection>)
    ensures ReadCollections(Daemon, cs) == cs <==> forall f :: f in FieldsOf(cs) ==> Normal(f)
  {
    hide FieldsOf, ReadCollections, Normal, ReadField;
    Lift([Daemon], [], cs);
    OneReading(Daemon, cs);
    forall f | f in FieldsOf(cs) ensures Agree([Daemon], [], f) <==> Normal(f) {
      OneFieldReading(Daemon, f);
      NormalIffBack(f);
    }
  }

  lemma OneReading(view: View, cs: seq<Collection>)
    ensures Through([view], cs) == ReadCollections(view, cs) && Through([], cs) == cs
  {
    assert [view][1..] == [];
    hide ReadCollections;
    var rest: seq<View> := [view][1..];
    assert Through(rest, ReadCollections(view, cs)) == ReadCollections(view, cs);
  }

  lemma OneFieldReading(view: View, f: Field)
    ensures FieldThrough([view], f) == ReadField(view, f) && FieldThrough([], f) == f
  {
    hide ReadField;
    assert [view][1..] == [];
    assert FieldThrough([view][1..], ReadField(view, f)) == ReadField(view, f);
  }

  lemma TwoReadings(v: View, w: View, cs: seq<Collection>)
    ensures Through([v, w], cs) == ReadCollections(w, ReadCollections(v, cs))
  {
    hide ReadCollections;
    assert [v, w][1..] == [w];
    OneReading(w, ReadCollections(v, cs));
  }

  lemma TwoFieldReadings(v: View, w: View, f: Field)
    ensures FieldThrough([v, w], f) == ReadField(w, ReadField(v, f))
  {
    hide ReadField;
    assert [v, w][1..] == [w];
    OneFieldReading(w, ReadField(v, f));
  }

  lemma ReadIsNormal(f: Field)
    ensures Normal(ReadField(Daemon, f))
  {
    hide UnitSystem, UnitTag;
    UnitBack(f.unitSystem);
  }

  /** What was read back once is not changed by another round trip. */
  lemma ReadingIsIdempotent(cs: seq<Collection>)
    ensures ReadCollections(Daemon, ReadCollections(Daemon, cs)) == ReadCollections(Daemon, cs)
  {
    hide FieldsOf, ReadCollections, Normal, ReadField;
    Lift([Daemon, Daemon], [Daemon], cs);
    TwoReadings(Daemon, Daemon, cs);
    OneReading(Daemon, cs);
    forall f | f in FieldsOf(cs) ensures Agree([Daemon, Daemon], [Daemon], f) {
      TwoFieldReadings(Daemon, Daemon, f);
      OneFieldReading(Daemon, f);
      ReadIsNormal(f);
      NormalIffBack(ReadField(Daemon, f));
    }
  }

  // ---------- when page and daemon agree ----------

  /** The stored byte of the unit exponent fits the page's four bits, and no string begins with a
      byte order mark. */
  predicate PageSafe(f: Field) {
    -8 <= Signed(LowByte(f.unitExponent)) < 8 && forall s :: s in f.strings ==> !(BOM <= s)
  }

  lemma NibbleIffSmall(b: Byte)
    ensures SignedNibble(b) == Signed(b) <==> -8 <= Signed(b) < 8
  {
  }

  lemma PageStringIff(s: seq<Byte>)
    ensures PageString(s) == s <==> !(BOM <= s)
  {
    if BOM <= s { assert |s[3..]| != |s|; }
  }

  lemma PageStringsIff(ss: seq<seq<Byte>>)
    ensures ReadStrings(Page, ss) == ss <==> forall s :: s in ss ==> !(BOM <= s)
  {
    hide PageString;
    forall s | s in ss ensures PageString(s) == s <==> !(BOM <= s) { PageStringIff(s); }
    if forall s :: s in ss ==> !(BOM <= s) {
      forall i | 0 <= i < |ss| ensures ReadStrings(Page, ss)[i] == ss[i] { assert ss[i] in ss; }
    } else {
      var s :| s in ss && BOM <= s;
      var i :| 0 <= i < |ss| && ss[i] == s;
      assert ReadStrings(Page, ss)[i] != ss[i];
    }
  }

  lemma FieldsAgreeIff(f: Field)
    ensures ReadField(AbsentUsages, ReadField(Page, f)) == ReadField(Daemon, f) <==> PageSafe(f)
  {
    hide UnitSystem, UnitTag, ReadFactors, Signed, LowByte, SignedNibble, ReadStrings;
    NibbleIffSmall(LowByte(f.unitExponent));
    PageStringsIff(f.strings);
    assert ReadStrings(Daemon, f.strings) == f.strings by { SameStringsForDaemon(f.strings); }
  }

  lemma SameStringsForDaemon(ss: seq<seq<Byte>>)
    ensures ReadStrings(Daemon, ss) == ss
  {
  }

  /** With an empty usage list read as none, the page's tree is the daemon's tree exactly when
      every field of the forest is safe for the page. */
  lemma PageAgreesIff(cs: seq<Collection>)
    ensures ReadCollections(AbsentUsages, ReadCollections(Page, cs)) == ReadCollections(Daemon, cs)
       <==> forall f :: f in FieldsOf(cs) ==> PageSafe(f)
  {
    hide FieldsOf, ReadCollections, PageSafe, ReadField;
    Lift([Page, AbsentUsages], [Daemon], cs);
    TwoReadings(Page, AbsentUsages, cs);
    OneReading(Daemon, cs);
    forall f | f in FieldsOf(cs) ensures Agree([Page, AbsentUsages], [Daemon], f) <==> PageSafe(f) {
      TwoFieldReadings(Page, AbsentUsages, f);
      OneFieldReading(Daemon, f);
      FieldsAgreeIff(f);
    }
  }

  // ---------- two forests on which they differ ----------

  function OneField(f: Field): seq<Collection> {
    [Collection(1, None, None, [], [Report(0, [f])], [], [])]
  }

  /** A field with no usages, the given unit exponent and the given strings. */
  function PlainField(unitExponent: I32, strings: seq<seq<Byte>>): Field {
    Field(None, None, None, 8, 1, 0, 255, 0, 0, unitExponent, "none", Factors(0, 0, 0, 0, 0, 0),
          Flags(false, false, false, false, false, false, false, false, false, false), strings)
  }

  lemma OneFieldOf(f: Field)
    ensures f in FieldsOf(OneField(f))
  {
    var rs := [Report(0, [f])];
    assert rs[0].items[0] in ReportFields(rs);
    var c := OneField(f)[0];
    assert FieldsOf([]) == {} && OneField(f)[..0] == [];
    assert f in CollectionFields(c);
  }

  /** The two decoders differ on a unit exponent of 8, and on a string that begins with a byte order
      mark. */
  lemma PageDiffers()
    ensures forall f | f in [PlainField(8, []), PlainField(0, [[0xEF, 0xBB, 0xBF, 0x41]])] ::
              ReadCollections(AbsentUsages, ReadCollections(Page, OneField(f))) != ReadCollections(Daemon, OneField(f))
  {
    hide ReadCollections, FieldsOf, OneField;
    assert Signed(LowByte(8)) == 8;
    var s: seq<Byte> := [0xEF, 0xBB, 0xBF, 0x41];
    assert BOM <= s;
    forall f | f in [PlainField(8, []), PlainField(0, [s])]
      ensures ReadCollections(AbsentUsages, ReadCollections(Page, OneField(f))) != ReadCollections(Daemon, OneField(f))
    {
      if f.unitExponent == 0 { assert s in f.strings; }
      OneFieldOf(f);
      PageAgreesIff(OneField(f));
    }
  }
}
