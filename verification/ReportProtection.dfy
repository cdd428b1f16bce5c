/** What protection means on a collection tree, told by its paths: a report may be used exactly when
    no collection on any way down to a report of the same id and direction is protected. */
module ReportProtection {
  import opened Wrappers
  import opened Tlv
  import opened Blocklist
  import opened ReportBlocking
  import opened ReportBlockingTheorems

  // ---------- the two tables, in full ----------

  /** The usages of the Generic Desktop page that are protected whatever the rules say. */
  predicate ProtectedDesktopUsage(usage: U16, kind: ReportType) {
    || (usage in {1, 2, 6, 7} && kind in {Input, Output})
    || 0x80 <= usage < 0x90
    || 0xA0 <= usage <= 0xB6
  }

  lemma AlwaysProtectedIff(usagePage: Option<U16>, usage: Option<U16>, kind: ReportType)
    ensures IsAlwaysProtected(usagePage, usage, kind)
       <==> usagePage == Some(7)
            || (usagePage == Some(1) && usage.Some? && ProtectedDesktopUsage(usage.value, kind))
  {
  }

  /** What the rules block: security keys, mice, keyboards, keypads and system controls of every
      vendor, one report of one vendor's devices, and one device. */
  lemma BlockedIff(vendor: U16, product: U16, usagePage: Option<U16>, usage: Option<U16>, reportId: Byte,
                   kind: ReportType)
    ensures IsReportBlocked(RULES, vendor, product, usagePage, usage, reportId, kind)
       <==> || usagePage == Some(0xF1D0)
            || (usagePage == Some(1) && usage in {Some(2), Some(6), Some(7), Some(0x80)})
            || (vendor == 0x0B0E && usagePage == Some(0xFF00) && reportId == 5 && kind == Output)
            || (vendor == 0x1D50 && product == 0x60FC)
  {
    assert |RULES| == 7;
    forall i | 0 <= i < 7 && Matches(RULES[i], vendor, product, usagePage, usage, reportId, kind)
      ensures || usagePage == Some(0xF1D0)
              || (usagePage == Some(1) && usage in {Some(2), Some(6), Some(7), Some(0x80)})
              || (vendor == 0x0B0E && usagePage == Some(0xFF00) && reportId == 5 && kind == Output)
              || (vendor == 0x1D50 && product == 0x60FC)
    {
    }
    if usagePage == Some(0xF1D0) {
      assert Matches(RULES[0], vendor, product, usagePage, usage, reportId, kind);
    }
    if usagePage == Some(1) && usage == Some(2) {
      assert Matches(RULES[1], vendor, product, usagePage, usage, reportId, kind);
    }
    if usagePage == Some(1) && usage == Some(6) {
      assert Matches(RULES[2], vendor, product, usagePage, usage, reportId, kind);
    }
    if usagePage == Some(1) && usage == Some(7) {
      assert Matches(RULES[3], vendor, product, usagePage, usage, reportId, kind);
    }
    if usagePage == Some(1) && usage == Some(0x80) {
      assert Matches(RULES[4], vendor, product, usagePage, usage, reportId, kind);
    }
    if vendor == 0x0B0E && usagePage == Some(0xFF00) && reportId == 5 && kind == Output {
      assert Matches(RULES[5], vendor, product, usagePage, usage, reportId, kind);
    }
    if vendor == 0x1D50 && product == 0x60FC {
      assert Matches(RULES[6], vendor, product, usagePage, usage, reportId, kind);
    }
  }

  /** The one device that is blocked as a whole. */
  lemma DeviceBlockedIff(vendor: U16, product: U16)
    ensures DeviceIsBlocked(RULES, vendor, product) <==> vendor == 0x1D50 && product == 0x60FC
  {
    assert |RULES| == 7;
    if vendor == 0x1D50 && product == 0x60FC { assert BlocksDevice(RULES[6], vendor, product); }
  }

  // ---------- ways down a tree ----------

  function ReportsOf(c: Collection, kind: ReportType): seq<Report> {
    match kind
    case Input => c.inputReports
    case Output => c.outputReports
    case Feature => c.featureReports
  }

  /** From a root down, each collection a child of the one before. */
  predicate Way(roots: seq<Collection>, way: seq<Collection>) {
    && |way| > 0 && way[0] in roots
    && forall i :: 0 < i < |way| ==> way[i] in way[i - 1].children
  }

  function Associations(way: seq<Collection>): (r: seq<Association>)
    ensures |r| == |way|
  {
    seq(|way|, i requires 0 <= i < |way| => AssociationOf(way[i]))
  }

  /** The way leads to a collection that lists the report. */
  predicate LeadsTo(roots: seq<Collection>, way: seq<Collection>, kind: ReportType, report: Report) {
    Way(roots, way) && report in ReportsOf(way[|way| - 1], kind)
  }

  lemma {:induction false} ListedIff(chain: seq<Association>, kind: ReportType, rs: seq<Report>, o: Occurrence)
    ensures o in Listed(chain, kind, rs) <==> o.chain == chain && o.kind == kind && o.report in rs
    decreases |rs|
  {
    if |rs| > 0 {
      var n := |rs| - 1;
      ListedIff(chain, kind, rs[..n], o);
      assert rs == rs[..n] + [rs[n]];
    }
  }

  lemma OwnIff(chain: seq<Association>, c: Collection, o: Occurrence)
    ensures o in Own(chain, c) <==> o.chain == chain && o.report in ReportsOf(c, o.kind)
  {
    hide Listed;
    ListedIff(chain, Input, c.inputReports, o);
    ListedIff(chain, Output, c.outputReports, o);
    ListedIff(chain, Feature, c.featureReports, o);
  }

  lemma {:induction false} OccurrenceHasWay(ancestors: seq<Association>, cs: seq<Collection>, o: Occurrence)
    returns (way: seq<Collection>)
    requires o in ForestOccurrences(ancestors, cs)
    ensures LeadsTo(cs, way, o.kind, o.report) && o.chain == ancestors + Associations(way)
    decreases cs, 0
  {
    hide Own, ReportsOf;
    var n := |cs| - 1;
    if o in ForestOccurrences(ancestors, cs[..n]) {
      way := OccurrenceHasWay(ancestors, cs[..n], o);
    } else {
      var chain := ancestors + [AssociationOf(cs[n])];
      OwnIff(chain, cs[n], o);
      if o in Own(chain, cs[n]) {
        way := [cs[n]];
        assert Associations(way) == [AssociationOf(cs[n])];
      } else {
        var rest := OccurrenceHasWay(chain, cs[n].children, o);
        way := [cs[n]] + rest;
        assert ancestors + Associations(way) == chain + Associations(rest);
      }
    }
  }

  lemma {:induction false} WayOccurs(ancestors: seq<Association>, cs: seq<Collection>, way: seq<Collection>,
                                     o: Occurrence)
    requires LeadsTo(cs, way, o.kind, o.report) && o.chain == ancestors + Associations(way)
    ensures o in ForestOccurrences(ancestors, cs)
    decreases |way|
  {
    hide Own, ReportsOf;
    var c := way[0];
    var chain := ancestors + [AssociationOf(c)];
    if |way| == 1 {
      assert Associations(way) == [AssociationOf(c)];
      OwnIff(chain, c, o);
    } else {
      assert ancestors + Associations(way) == chain + Associations(way[1..]);
      WayOccurs(chain, c.children, way[1..], o);
    }
    var k :| 0 <= k < |cs| && cs[k] == c;
    InForest(ancestors, cs, k, o);
  }

  lemma {:induction false} InForest(ancestors: seq<Association>, cs: seq<Collection>, k: nat, o: Occurrence)
    requires k < |cs| && o in Occurrences(ancestors, cs[k])
    ensures o in ForestOccurrences(ancestors, cs)
    decreases |cs|
  {
    hide Occurrences;
    if k < |cs| - 1 { InForest(ancestors, cs[..|cs| - 1], k, o); }
  }

  // ---------- what is protected ----------

  /** Some collection of the tree lists a report of this id and direction. */
  ghost predicate Declared(roots: seq<Collection>, key: Key) {
    exists way, report :: LeadsTo(roots, way, key.kind, report) && report.reportId == key.reportId
  }

  /** Some collection on some way down to such a report is protected for it. */
  ghost predicate Guarded(info: DeviceInfo, key: Key) {
    exists way, report, i :: LeadsTo(info.collections, way, key.kind, report) && report.reportId == key.reportId
                             && 0 <= i < |way| && Protects(AssociationOf(way[i]), info.vendorId, info.productId, key)
  }

  lemma {:induction false} ChainsIff(os: seq<Occurrence>, key: Key, a: Association)
    ensures a in Chains(os, key) <==> exists i :: 0 <= i < |os| && KeyOf(os[i]) == key && a in os[i].chain
    decreases |os|
  {
    if |os| > 0 {
      var n := |os| - 1;
      ChainsIff(os[..n], key, a);
      if i :| 0 <= i < n && KeyOf(os[..n][i]) == key && a in os[..n][i].chain { assert os[i] == os[..n][i]; }
      if i :| 0 <= i < |os| && KeyOf(os[i]) == key && a in os[i].chain { if i < n { assert os[i] == os[..n][i]; } }
    }
  }

  lemma DeclaredIff(cs: seq<Collection>, key: Key)
    ensures Declares(ForestOccurrences([], cs), key) <==> Declared(cs, key)
  {
    hide ForestOccurrences, LeadsTo;
    var os := ForestOccurrences([], cs);
    if Declares(os, key) {
      var i :| 0 <= i < |os| && KeyOf(os[i]) == key;
      var way := OccurrenceHasWay([], cs, os[i]);
      assert LeadsTo(cs, way, key.kind, os[i].report);
    }
    if Declared(cs, key) {
      var way, report :| LeadsTo(cs, way, key.kind, report) && report.reportId == key.reportId;
      var o := Occurrence(Associations(way), key.kind, report);
      assert [] + Associations(way) == Associations(way);
      WayOccurs([], cs, way, o);
      var i :| 0 <= i < |os| && os[i] == o;
      assert KeyOf(os[i]) == key;
    }
  }

  lemma ChainsAreGuarded(info: DeviceInfo, key: Key)
    ensures AnyProtected(Chains(ForestOccurrences([], info.collections), key), info.vendorId, info.productId, key)
       <==> Guarded(info, key)
  {
    hide ForestOccurrences, LeadsTo, Protects, Chains, Associations;
    var all := Chains(ForestOccurrences([], info.collections), key);
    if j :| 0 <= j < |all| && Protects(all[j], info.vendorId, info.productId, key) {
      ProtectedChainGuards(info, key, all[j]);
    }
    if way, report, k :| LeadsTo(info.collections, way, key.kind, report) && report.reportId == key.reportId
                         && 0 <= k < |way|
                         && Protects(AssociationOf(way[k]), info.vendorId, info.productId, key) {
      WayIsInChains(info.collections, key, way, report, k);
      var j :| 0 <= j < |all| && all[j] == AssociationOf(way[k]);
    }
  }

  lemma ProtectedChainGuards(info: DeviceInfo, key: Key, a: Association)
    requires a in Chains(ForestOccurrences([], info.collections), key)
    requires Protects(a, info.vendorId, info.productId, key)
    ensures Guarded(info, key)
  {
    hide ForestOccurrences, LeadsTo, Protects, Chains;
    var cs, os := info.collections, ForestOccurrences([], info.collections);
    ChainsIff(os, key, a);
    var i :| 0 <= i < |os| && KeyOf(os[i]) == key && a in os[i].chain;
    var way := OccurrenceHasWay([], cs, os[i]);
    assert [] + Associations(way) == Associations(way);
    var k :| 0 <= k < |way| && Associations(way)[k] == a;
    assert LeadsTo(cs, way, key.kind, os[i].report) && AssociationOf(way[k]) == a;
  }

  lemma WayIsInChains(cs: seq<Collection>, key: Key, way: seq<Collection>, report: Report, k: nat)
    requires LeadsTo(cs, way, key.kind, report) && report.reportId == key.reportId && k < |way|
    ensures AssociationOf(way[k]) in Chains(ForestOccurrences([], cs), key)
  {
    hide ForestOccurrences, LeadsTo, Chains;
    var os, o := ForestOccurrences([], cs), Occurrence(Associations(way), key.kind, report);
    assert [] + Associations(way) == Associations(way);
    WayOccurs([], cs, way, o);
    var i :| 0 <= i < |os| && os[i] == o;
    assert Associations(way)[k] in os[i].chain;
    ChainsIff(os, key, Associations(way)[k]);
  }

  /** The check before a send, on the map of a tree: a report that the tree declares is refused
      exactly when a collection on some way down to it is protected; one that it does not declare,
      exactly when a top-level collection is always protected in that direction, or, without any
      collection, when the interface itself is protected. */
  lemma ProtectedIff(info: DeviceInfo, reportId: Byte, kind: ReportType)
    ensures IsReportProtected(NewBlocking(info, TreeMap(info.collections)), info.vendorId, info.productId, reportId,
                              kind)
       <==> if Declared(info.collections, Key(reportId, kind)) then Guarded(info, Key(reportId, kind))
            else AnyAlwaysProtected(info.collections, kind) || BareInterfaceProtected(info, kind)
  {
    hide ForestOccurrences, AssociateAll, AnyProtected, Declares, Declared, Guarded, HasAlwaysProtected,
         InterfaceProtected, Chains, AnyAlwaysProtected;
    var os, key := ForestOccurrences([], info.collections), Key(reportId, kind);
    MapOfTree(os, key);
    DeclaredIff(info.collections, key);
    ChainsAreGuarded(info, key);
    FlagsTell(info, kind);
  }

  /** Some top-level collection is protected in this direction whatever the rules say. */
  predicate AnyAlwaysProtected(roots: seq<Collection>, kind: ReportType) {
    exists c :: c in roots && IsAlwaysProtected(c.usagePage, c.usage, kind)
  }

  /** A device without collections, protected by the usage of its interface. */
  predicate BareInterfaceProtected(info: DeviceInfo, kind: ReportType) {
    && info.collections == []
    && (IsReportBlocked(RULES, info.vendorId, info.productId, info.usagePage, info.usage, 0, kind)
        || IsAlwaysProtected(info.usagePage, info.usage, kind))
  }

  lemma FlagsTell(info: DeviceInfo, kind: ReportType)
    ensures HasAlwaysProtected(info, kind) <==> AnyAlwaysProtected(info.collections, kind)
    ensures InterfaceProtected(info, kind) <==> BareInterfaceProtected(info, kind)
  {
    hide IsAlwaysProtected, IsReportBlocked;
    if AnyAlwaysProtected(info.collections, kind) {
      var c :| c in info.collections && IsAlwaysProtected(c.usagePage, c.usage, kind);
      var i :| 0 <= i < |info.collections| && info.collections[i] == c;
    }
  }

  /** The page sees a report exactly when no collection on any way down to a report of its id and
      direction is protected for it; and then it sees it below the very collections it stands in. */
  lemma SurvivesIffUnguarded(info: DeviceInfo, way: seq<Collection>, kind: ReportType, report: Report)
    requires LeadsTo(info.collections, way, kind, report)
    ensures var p := PruneDeviceInfo(info);
            (p.Some? && Occurrence(Associations(way), kind, report) in ForestOccurrences([], p.value.collections))
            <==> !Guarded(info, Key(report.reportId, kind))
  {
    hide ForestOccurrences, PruneWith, IsReportProtected, Guarded, LeadsTo, Associations, TreeMap, AnyAlwaysProtected,
         BareInterfaceProtected;
    var o := Occurrence(Associations(way), kind, report);
    assert [] + Associations(way) == Associations(way);
    WayOccurs([], info.collections, way, o);
    SurvivesIffUnprotected(info, o);
    ProtectedIff(info, report.reportId, kind);
    assert Declared(info.collections, Key(report.reportId, kind));
  }
}
