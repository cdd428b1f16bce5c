/** Pruning drops exactly the protected reports, once and for all, and the reader's fast filter and
    the send check decide alike. */
module ReportBlockingTheorems {
  import opened Wrappers
  import opened Tlv
  import opened Blocklist
  import opened ReportBlocking

  // ---------- what the map of a tree says ----------

  function Chains(os: seq<Occurrence>, key: Key): seq<Association> {
    if |os| == 0 then []
    else Chains(os[..|os| - 1], key) + if KeyOf(os[|os| - 1]) == key then os[|os| - 1].chain else []
  }

  predicate Declares(os: seq<Occurrence>, key: Key) { exists i :: 0 <= i < |os| && KeyOf(os[i]) == key }

  /** A key is in the map exactly when a report has it; its entry is every collection above any
      such report, report after report. */
  lemma {:induction false} MapOfTree(os: seq<Occurrence>, key: Key)
    ensures key in AssociateAll(map[], os) <==> Declares(os, key)
    ensures Lookup(AssociateAll(map[], os), key) == Chains(os, key)
  {
    if |os| > 0 {
      var most := os[..|os| - 1];
      MapOfTree(most, key);
      if Declares(os, key) && KeyOf(os[|os| - 1]) != key {
        var i :| 0 <= i < |os| && KeyOf(os[i]) == key;
        assert KeyOf(most[i]) == key;
      }
      if Declares(most, key) {
        var i :| 0 <= i < |most| && KeyOf(most[i]) == key;
        assert KeyOf(os[i]) == key;
      }
    }
  }

  // ---------- pruning as a filter on occurrences ----------

  function Kept(os: seq<Occurrence>, m: ReportMap, vendor: U16, product: U16): seq<Occurrence> {
    if |os| == 0 then []
    else
      var most := Kept(os[..|os| - 1], m, vendor, product);
      if Dropped(m, vendor, product, KeyOf(os[|os| - 1])) then most else most + [os[|os| - 1]]
  }

  lemma {:induction false} KeptJoin(a: seq<Occurrence>, b: seq<Occurrence>, m: ReportMap, vendor: U16, product: U16)
    ensures Kept(a + b, m, vendor, product) == Kept(a, m, vendor, product) + Kept(b, m, vendor, product)
    decreases |b|
  {
    hide Dropped;
    if |b| == 0 {
      assert a + b == a;
    } else {
      assert (a + b)[..|a + b| - 1] == a + b[..|b| - 1];
      KeptJoin(a, b[..|b| - 1], m, vendor, product);
    }
  }

  lemma {:induction false} ListedKept(chain: seq<Association>, kind: ReportType, rs: seq<Report>, m: ReportMap,
                                      vendor: U16, product: U16)
    ensures Listed(chain, kind, PruneReports(rs, kind, m, vendor, product))
         == Kept(Listed(chain, kind, rs), m, vendor, product)
    decreases |rs|
  {
    hide Dropped;
    if |rs| > 0 {
      var n := |rs| - 1;
      ListedKept(chain, kind, rs[..n], m, vendor, product);
      assert Listed(chain, kind, rs)[..n] == Listed(chain, kind, rs[..n]);
      var most := PruneReports(rs[..n], kind, m, vendor, product);
      assert (most + [rs[n]])[..|most|] == most;
    }
  }

  lemma OwnKept(chain: seq<Association>, c: Collection, m: ReportMap, vendor: U16, product: U16)
    ensures Listed(chain, Input, PruneReports(c.inputReports, Input, m, vendor, product))
            + Listed(chain, Output, PruneReports(c.outputReports, Output, m, vendor, product))
            + Listed(chain, Feature, PruneReports(c.featureReports, Feature, m, vendor, product))
         == Kept(Own(chain, c), m, vendor, product)
  {
    hide Listed, PruneReports, Kept;
    ListedKept(chain, Input, c.inputReports, m, vendor, product);
    ListedKept(chain, Output, c.outputReports, m, vendor, product);
    ListedKept(chain, Feature, c.featureReports, m, vendor, product);
    var input, output := Listed(chain, Input, c.inputReports), Listed(chain, Output, c.outputReports);
    KeptJoin(input, output, m, vendor, product);
    KeptJoin(input + output, Listed(chain, Feature, c.featureReports), m, vendor, product);
  }

  /** What a pruned collection shows: the kept occurrences, below the same ancestors. */
  lemma {:induction false} CollectionKept(ancestors: seq<Association>, c: Collection, m: ReportMap,
                                          vendor: U16, product: U16)
    ensures var p := PruneCollection(c, m, vendor, product);
            && Kept(Occurrences(ancestors, c), m, vendor, product)
               == (if p.Some? then Occurrences(ancestors, p.value) else [])
    decreases c, 1
  {
    hide Kept, Listed, PruneReports, PruneCollections, ForestOccurrences;
    var chain := ancestors + [AssociationOf(c)];
    OwnKept(chain, c, m, vendor, product);
    ForestKept(chain, c.children, m, vendor, product);
    KeptJoin(Own(chain, c), ForestOccurrences(chain, c.children), m, vendor, product);
    NoOccurrences(chain);
    NothingListed(chain);
  }

  lemma NothingListed(chain: seq<Association>)
    ensures Listed(chain, Input, []) == [] && Listed(chain, Output, []) == [] && Listed(chain, Feature, []) == []
  {
  }

  lemma {:induction false} ForestKept(ancestors: seq<Association>, cs: seq<Collection>, m: ReportMap,
                                      vendor: U16, product: U16)
    ensures ForestOccurrences(ancestors, PruneCollections(cs, m, vendor, product))
         == Kept(ForestOccurrences(ancestors, cs), m, vendor, product)
    decreases cs, 0
  {
    hide Kept, PruneCollection, Occurrences;
    if |cs| == 0 {
      NothingKept(m, vendor, product);
    } else {
      var n := |cs| - 1;
      ForestKept(ancestors, cs[..n], m, vendor, product);
      CollectionKept(ancestors, cs[n], m, vendor, product);
      KeptJoin(ForestOccurrences(ancestors, cs[..n]), Occurrences(ancestors, cs[n]), m, vendor, product);
      var most := PruneCollections(cs[..n], m, vendor, product);
      var last := PruneCollection(cs[n], m, vendor, product);
      if last.Some? { assert (most + [last.value])[..|most|] == most; }
    }
  }

  lemma NothingKept(m: ReportMap, vendor: U16, product: U16)
    ensures Kept([], m, vendor, product) == []
  {
  }

  // ---------- nothing empty is left ----------

  predicate Solid(c: Collection) {
    !Bare(c) && forall i :: 0 <= i < |c.children| ==> Solid(c.children[i])
  }

  predicate AllSolid(cs: seq<Collection>) { forall i :: 0 <= i < |cs| ==> Solid(cs[i]) }

  lemma {:induction false} PrunedIsSolid(c: Collection, m: ReportMap, vendor: U16, product: U16)
    ensures var p := PruneCollection(c, m, vendor, product); p.Some? ==> Solid(p.value)
    decreases c, 1
  {
    hide PruneReports, PruneCollections;
    PrunedAreSolid(c.children, m, vendor, product);
  }

  lemma {:induction false} PrunedAreSolid(cs: seq<Collection>, m: ReportMap, vendor: U16, product: U16)
    ensures AllSolid(PruneCollections(cs, m, vendor, product))
    decreases cs, 0
  {
    hide PruneCollection, Solid;
    if |cs| > 0 {
      PrunedAreSolid(cs[..|cs| - 1], m, vendor, product);
      PrunedIsSolid(cs[|cs| - 1], m, vendor, product);
    }
  }

  /** A solid collection holds a report somewhere. */
  lemma {:induction false} SolidShows(ancestors: seq<Association>, c: Collection)
    requires Solid(c)
    ensures |Occurrences(ancestors, c)| > 0
    decreases c
  {
    var chain := ancestors + [AssociationOf(c)];
    if |c.children| > 0 { SolidShows(chain, c.children[|c.children| - 1]); }
  }

  // ---------- pruning what needs no pruning ----------

  predicate NoneDropped(os: seq<Occurrence>, m: ReportMap, vendor: U16, product: U16) {
    forall i :: 0 <= i < |os| ==> !Dropped(m, vendor, product, KeyOf(os[i]))
  }

  lemma {:induction false} ListedWhole(chain: seq<Association>, kind: ReportType, rs: seq<Report>, m: ReportMap,
                                       vendor: U16, product: U16)
    requires NoneDropped(Listed(chain, kind, rs), m, vendor, product)
    ensures PruneReports(rs, kind, m, vendor, product) == rs
    decreases |rs|
  {
    hide Dropped;
    if |rs| > 0 {
      var n := |rs| - 1;
      var os := Listed(chain, kind, rs);
      assert os[..n] == Listed(chain, kind, rs[..n]);
      assert KeyOf(os[n]) == Key(rs[n].reportId, kind);
      forall i | 0 <= i < n ensures !Dropped(m, vendor, product, KeyOf(os[..n][i])) { assert os[..n][i] == os[i]; }
      ListedWhole(chain, kind, rs[..n], m, vendor, product);
      assert rs[..n] + [rs[n]] == rs;
    }
  }

  lemma NoneDroppedParts(a: seq<Occurrence>, b: seq<Occurrence>, m: ReportMap, vendor: U16, product: U16)
    requires NoneDropped(a + b, m, vendor, product)
    ensures NoneDropped(a, m, vendor, product) && NoneDropped(b, m, vendor, product)
  {
    hide Dropped;
    forall i | 0 <= i < |a| ensures !Dropped(m, vendor, product, KeyOf(a[i])) { assert (a + b)[i] == a[i]; }
    forall i | 0 <= i < |b| ensures !Dropped(m, vendor, product, KeyOf(b[i])) { assert (a + b)[|a| + i] == b[i]; }
  }

  lemma {:induction false} CollectionWhole(ancestors: seq<Association>, c: Collection, m: ReportMap,
                                           vendor: U16, product: U16)
    requires Solid(c) && NoneDropped(Occurrences(ancestors, c), m, vendor, product)
    ensures PruneCollection(c, m, vendor, product) == Some(c)
    decreases c, 1
  {
    hide NoneDropped, Listed, PruneReports, PruneCollections, ForestOccurrences, Solid;
    SolidChildren(c);
    var chain := ancestors + [AssociationOf(c)];
    var input, output := Listed(chain, Input, c.inputReports), Listed(chain, Output, c.outputReports);
    var feature := Listed(chain, Feature, c.featureReports);
    NoneDroppedParts(Own(chain, c), ForestOccurrences(chain, c.children), m, vendor, product);
    NoneDroppedParts(input + output, feature, m, vendor, product);
    NoneDroppedParts(input, output, m, vendor, product);
    ListedWhole(chain, Input, c.inputReports, m, vendor, product);
    ListedWhole(chain, Output, c.outputReports, m, vendor, product);
    ListedWhole(chain, Feature, c.featureReports, m, vendor, product);
    ForestWhole(chain, c.children, m, vendor, product);
  }

  lemma SolidChildren(c: Collection)
    requires Solid(c)
    ensures AllSolid(c.children) && !Bare(c)
  {
  }

  lemma {:induction false} ForestWhole(ancestors: seq<Association>, cs: seq<Collection>, m: ReportMap,
                                       vendor: U16, product: U16)
    requires AllSolid(cs) && NoneDropped(ForestOccurrences(ancestors, cs), m, vendor, product)
    ensures PruneCollections(cs, m, vendor, product) == cs
    decreases cs, 0
  {
    hide NoneDropped, PruneCollection, Occurrences, Solid;
    if |cs| > 0 {
      var n := |cs| - 1;
      NoneDroppedParts(ForestOccurrences(ancestors, cs[..n]), Occurrences(ancestors, cs[n]), m, vendor, product);
      ForestWhole(ancestors, cs[..n], m, vendor, product);
      CollectionWhole(ancestors, cs[n], m, vendor, product);
      assert cs[..n] + [cs[n]] == cs;
    }
  }

  // ---------- a map rebuilt from what was kept ----------

  /** Occurrences are dropped by key, so a kept key keeps all its chains. */
  lemma {:induction false} KeptChains(os: seq<Occurrence>, m: ReportMap, vendor: U16, product: U16, key: Key)
    requires !Dropped(m, vendor, product, key)
    ensures Chains(Kept(os, m, vendor, product), key) == Chains(os, key)
    decreases |os|
  {
    hide Dropped;
    if |os| > 0 {
      var n := |os| - 1;
      KeptChains(os[..n], m, vendor, product, key);
      var most := Kept(os[..n], m, vendor, product);
      assert (most + [os[n]])[..|most|] == most;
    }
  }

  lemma {:induction false} KeptNotDropped(os: seq<Occurrence>, m: ReportMap, vendor: U16, product: U16)
    ensures NoneDropped(Kept(os, m, vendor, product), m, vendor, product)
    ensures forall i :: 0 <= i < |Kept(os, m, vendor, product)| ==> Kept(os, m, vendor, product)[i] in os
    decreases |os|
  {
    hide Dropped;
    if |os| > 0 { KeptNotDropped(os[..|os| - 1], m, vendor, product); }
  }

  /** What the first pruning kept, the map of the kept tree does not drop. */
  lemma RebuiltDropsNothing(os: seq<Occurrence>, vendor: U16, product: U16)
    ensures var kept := Kept(os, AssociateAll(map[], os), vendor, product);
            NoneDropped(kept, AssociateAll(map[], kept), vendor, product)
  {
    hide Kept, AssociateAll, AnyProtected, Chains, Declares;
    var m := AssociateAll(map[], os);
    var kept := Kept(os, m, vendor, product);
    KeptNotDropped(os, m, vendor, product);
    forall i | 0 <= i < |kept| ensures !Dropped(AssociateAll(map[], kept), vendor, product, KeyOf(kept[i])) {
      var key := KeyOf(kept[i]);
      KeptChains(os, m, vendor, product, key);
      MapOfTree(kept, key);
      MapOfTree(os, key);
      DeclaredIn(kept, i);
      var j :| 0 <= j < |os| && os[j] == kept[i];
      DeclaredIn(os, j);
    }
  }

  lemma DeclaredIn(os: seq<Occurrence>, i: nat)
    requires i < |os|
    ensures Declares(os, KeyOf(os[i]))
  {
  }

  // ---------- the theorems ----------

  /** With any map: the page sees exactly the reports whose key is not dropped, in order, each below
      the collections it was below; no collection it sees is empty; a device that would show nothing
      is hidden, and nothing else of a device changes. */
  lemma PruneExact(info: DeviceInfo, m: ReportMap)
    ensures var kept := Kept(ForestOccurrences([], info.collections), m, info.vendorId, info.productId);
            match PruneWith(info, m)
            case None => kept == []
            case Some(p) =>
              && kept == ForestOccurrences([], p.collections) && kept != [] && AllSolid(p.collections)
              && p == info.(collections := p.collections)
  {
    hide Kept, ForestOccurrences, PruneCollections, Solid;
    var cs := PruneCollections(info.collections, m, info.vendorId, info.productId);
    ForestKept([], info.collections, m, info.vendorId, info.productId);
    PrunedAreSolid(info.collections, m, info.vendorId, info.productId);
    NoOccurrences([]);
    if |cs| > 0 { ForestShows(cs); }
    if |info.collections| == 0 { NothingKept(m, info.vendorId, info.productId); }
  }

  lemma ForestShows(cs: seq<Collection>)
    requires |cs| > 0 && AllSolid(cs)
    ensures |ForestOccurrences([], cs)| > 0
  {
    hide Occurrences, Solid;
    SolidShows([], cs[|cs| - 1]);
  }

  /** On a tree's own map, an occurrence is dropped exactly when the send check calls its report
      protected, for any interface flags. */
  lemma DroppedIffProtected(info: DeviceInfo, o: Occurrence)
    requires o in ForestOccurrences([], info.collections)
    ensures var m := TreeMap(info.collections);
            Dropped(m, info.vendorId, info.productId, KeyOf(o))
            <==> IsReportProtected(NewBlocking(info, m), info.vendorId, info.productId, o.report.reportId, o.kind)
  {
    hide AssociateAll, ForestOccurrences, AnyProtected, Declares, HasAlwaysProtected, InterfaceProtected;
    var os := ForestOccurrences([], info.collections);
    MapOfTree(os, KeyOf(o));
    var i :| 0 <= i < |os| && os[i] == o;
    DeclaredIn(os, i);
  }

  /** The page sees a report exactly when it may be used. */
  lemma SurvivesIffUnprotected(info: DeviceInfo, o: Occurrence)
    requires o in ForestOccurrences([], info.collections)
    ensures var p := PruneDeviceInfo(info);
            (p.Some? && o in ForestOccurrences([], p.value.collections))
            <==> !IsReportProtected(NewBlocking(info, TreeMap(info.collections)), info.vendorId, info.productId,
                                    o.report.reportId, o.kind)
  {
    hide TreeMap, ForestOccurrences, Kept, IsReportProtected, PruneWith, Dropped;
    var os, m := ForestOccurrences([], info.collections), TreeMap(info.collections);
    PruneExact(info, m);
    DroppedIffProtected(info, o);
    InKept(os, m, info.vendorId, info.productId, o);
  }

  lemma {:induction false} InKept(os: seq<Occurrence>, m: ReportMap, vendor: U16, product: U16, o: Occurrence)
    ensures o in Kept(os, m, vendor, product) <==> o in os && !Dropped(m, vendor, product, KeyOf(o))
    decreases |os|
  {
    hide Dropped;
    if |os| > 0 {
      InKept(os[..|os| - 1], m, vendor, product, o);
      assert os == os[..|os| - 1] + [os[|os| - 1]];
    }
  }

  /** Pruning the pruned device, with a map rebuilt from it, changes nothing. */
  lemma PruneIdempotent(info: DeviceInfo)
    requires PruneDeviceInfo(info).Some?
    ensures PruneDeviceInfo(PruneDeviceInfo(info).value) == PruneDeviceInfo(info)
  {
    hide ForestOccurrences, Kept, AssociateAll, PruneCollections, NoneDropped, Solid;
    var p := PruneDeviceInfo(info).value;
    PruneExact(info, TreeMap(info.collections));
    RebuiltDropsNothing(ForestOccurrences([], info.collections), info.vendorId, info.productId);
    ForestWhole([], p.collections, TreeMap(p.collections), info.vendorId, info.productId);
    if |p.collections| == 0 { NoOccurrences([]); }
  }

  /** A device blocked as a whole shows nothing. */
  lemma BlockedDeviceIsHidden(info: DeviceInfo)
    requires DeviceIsBlocked(RULES, info.vendorId, info.productId)
    ensures PruneDeviceInfo(info).None?
  {
    hide ForestOccurrences, Kept, TreeMap, PruneWith, Dropped, DeviceIsBlocked, RULES;
    var os, m := ForestOccurrences([], info.collections), TreeMap(info.collections);
    PruneExact(info, m);
    var kept := Kept(os, m, info.vendorId, info.productId);
    if kept != [] {
      var o := kept[0];
      InKept(os, m, info.vendorId, info.productId, o);
      BlockedDeviceDrops(info, o);
    }
  }

  lemma BlockedDeviceDrops(info: DeviceInfo, o: Occurrence)
    requires DeviceIsBlocked(RULES, info.vendorId, info.productId) && o in ForestOccurrences([], info.collections)
    ensures Dropped(TreeMap(info.collections), info.vendorId, info.productId, KeyOf(o))
  {
    hide AssociateAll, ForestOccurrences, DeviceIsBlocked, IsReportBlocked, RULES, Chains, Declares;
    var os, key := ForestOccurrences([], info.collections), KeyOf(o);
    MapOfTree(os, key);
    var i :| 0 <= i < |os| && os[i] == o;
    DeclaredIn(os, i);
    ChainsNonempty([], info.collections, o);
    OneOfChains(os, i, o.chain[0]);
    var a := o.chain[0];
    BlockedDeviceBlocksReports(RULES, info.vendorId, info.productId, a.usagePage, a.usage, key.reportId, key.kind);
    var m := TreeMap(info.collections);
    var j :| 0 <= j < |m[key]| && m[key][j] == a;
    assert Protects(m[key][j], info.vendorId, info.productId, key);
  }

  lemma {:induction false} OneOfChains(os: seq<Occurrence>, i: nat, a: Association)
    requires i < |os| && a in os[i].chain
    ensures a in Chains(os, KeyOf(os[i]))
    decreases |os|
  {
    if i < |os| - 1 { OneOfChains(os[..|os| - 1], i, a); }
  }

  /** Every report stands below at least one collection. */
  lemma {:induction false} ChainsNonempty(ancestors: seq<Association>, cs: seq<Collection>, o: Occurrence)
    requires o in ForestOccurrences(ancestors, cs)
    ensures |o.chain| > 0
    decreases cs, 0
  {
    hide Own, Listed;
    var n := |cs| - 1;
    if o in ForestOccurrences(ancestors, cs[..n]) {
      ChainsNonempty(ancestors, cs[..n], o);
    } else {
      var chain := ancestors + [AssociationOf(cs[n])];
      if o in ForestOccurrences(chain, cs[n].children) {
        ChainsNonempty(chain, cs[n].children, o);
      } else {
        OwnChains(chain, cs[n], o);
      }
    }
  }

  lemma OwnChains(chain: seq<Association>, c: Collection, o: Occurrence)
    requires o in Own(chain, c)
    ensures o.chain == chain
  {
    hide Listed;
    ListedChains(chain, Input, c.inputReports, o);
    ListedChains(chain, Output, c.outputReports, o);
    ListedChains(chain, Feature, c.featureReports, o);
  }

  lemma {:induction false} ListedChains(chain: seq<Association>, kind: ReportType, rs: seq<Report>, o: Occurrence)
    ensures o in Listed(chain, kind, rs) ==> o.chain == chain
    decreases |rs|
  {
    if |rs| > 0 { ListedChains(chain, kind, rs[..|rs| - 1], o); }
  }

  // ---------- the reader ----------

  predicate ReaderDropsWith(info: DeviceInfo, m: ReportMap, reportId: Byte) {
    ReaderDrops(set key | key in m && key.kind == Input && AnyProtected(m[key], info.vendorId, info.productId, key)
                  :: key.reportId,
                DeclaredInputIds(m), HasAlwaysProtected(info, Input), InterfaceProtected(info, Input), reportId)
  }

  /** With any map, the reader's filter and the send check agree on an input report, except on one
      that is declared and unprotected on a protected interface. */
  lemma ReaderAgreesIff(info: DeviceInfo, m: ReportMap, reportId: Byte)
    ensures (ReaderDropsWith(info, m, reportId)
             <==> IsReportProtected(NewBlocking(info, m), info.vendorId, info.productId, reportId, Input))
       <==> !(InterfaceProtected(info, Input) && Key(reportId, Input) in m
              && !Dropped(m, info.vendorId, info.productId, Key(reportId, Input)))
  {
    hide AnyProtected, HasAlwaysProtected, InterfaceProtected;
    var key := Key(reportId, Input);
    assert reportId in DeclaredInputIds(m) <==> key in m;
  }

  /** A protected interface, and a map that declares input report 2 below a vendor collection. */
  lemma ReaderDisagrees()
    ensures var info := DeviceInfo(1, 2, Some(0x0001), Some(0x0006), 0, [], 0);
            var m := map[Key(2, Input) := [Association(Some(0xFF00), Some(1), true)]];
            ReaderDropsWith(info, m, 2) && !IsReportProtected(NewBlocking(info, m), 1, 2, 2, Input)
  {
  }

  /** A device that could be opened has collections, and then they agree, with any map. */
  lemma ReaderAgreesOnOpened(info: DeviceInfo, m: ReportMap, reportId: Byte)
    requires |info.collections| > 0
    ensures ReaderDropsWith(info, m, reportId)
       <==> IsReportProtected(NewBlocking(info, m), info.vendorId, info.productId, reportId, Input)
  {
    hide ReaderDropsWith, IsReportProtected, Dropped;
    ReaderAgreesIff(info, m, reportId);
  }

  /** With a tree's own map they always agree. */
  lemma ReaderAgreesOnTree(info: DeviceInfo, reportId: Byte)
    ensures ReaderDropsWith(info, TreeMap(info.collections), reportId)
       <==> IsReportProtected(NewBlocking(info, TreeMap(info.collections)),
                                info.vendorId, info.productId, reportId, Input)
  {
    hide ReaderDropsWith, IsReportProtected, Dropped, AssociateAll;
    ReaderAgreesIff(info, TreeMap(info.collections), reportId);
    if |info.collections| == 0 {
      NoOccurrences([]);
      NoneAssociated();
    }
  }
}
