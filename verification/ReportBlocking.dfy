/** Which reports a page may see and use. One association map, filled by a walk over the collection
    tree, serves the pruning of the visible tree, the check before sending, and the reader. */
module ReportBlocking {
  import opened Wrappers
  import opened Tlv
  import opened Blocklist

  /** One collection on the way down to a report. */
  datatype Association = Association(usagePage: Option<U16>, usage: Option<U16>, isApp: bool)

  datatype Key = Key(reportId: Byte, kind: ReportType)

  type ReportMap = map<Key, seq<Association>>

  datatype DeviceInfo = DeviceInfo(vendorId: U16, productId: U16, usagePage: Option<U16>, usage: Option<U16>,
                                   deviceId: U32, collections: seq<Collection>, maxInputReportSize: U32)

  // ---------- the reports of a tree, each with the collections above it ----------

  datatype Occurrence = Occurrence(chain: seq<Association>, kind: ReportType, report: Report)

  function KeyOf(o: Occurrence): Key { Key(o.report.reportId, o.kind) }

  function AssociationOf(c: Collection): Association {
    Association(c.usagePage, c.usage, c.collectionType == 1)
  }

  function Listed(chain: seq<Association>, kind: ReportType, rs: seq<Report>): (r: seq<Occurrence>)
    ensures |r| == |rs|
  {
    if |rs| == 0 then [] else Listed(chain, kind, rs[..|rs| - 1]) + [Occurrence(chain, kind, rs[|rs| - 1])]
  }

  function Own(chain: seq<Association>, c: Collection): seq<Occurrence> {
    Listed(chain, Input, c.inputReports) + Listed(chain, Output, c.outputReports)
    + Listed(chain, Feature, c.featureReports)
  }

  /** In the order of the walk: a collection's own reports, then its children. */
  function Occurrences(ancestors: seq<Association>, c: Collection): seq<Occurrence>
    decreases c, 1
  {
    var chain := ancestors + [AssociationOf(c)];
    Own(chain, c) + ForestOccurrences(chain, c.children)
  }

  function ForestOccurrences(ancestors: seq<Association>, cs: seq<Collection>): seq<Occurrence>
    decreases cs, 0
  {
    if |cs| == 0 then [] else ForestOccurrences(ancestors, cs[..|cs| - 1]) + Occurrences(ancestors, cs[|cs| - 1])
  }

  // ---------- the association map ----------

  function Lookup(m: ReportMap, key: Key): seq<Association> { if key in m then m[key] else [] }

  function Associate(m: ReportMap, o: Occurrence): ReportMap { m[KeyOf(o) := Lookup(m, KeyOf(o)) + o.chain] }

  function AssociateAll(m: ReportMap, os: seq<Occurrence>): ReportMap {
    if |os| == 0 then m else Associate(AssociateAll(m, os[..|os| - 1]), os[|os| - 1])
  }

  /** The map of a tree: what the walk over all of it leaves. */
  function TreeMap(cs: seq<Collection>): ReportMap { AssociateAll(map[], ForestOccurrences([], cs)) }

  lemma {:induction false} AssociateMore(m: ReportMap, a: seq<Occurrence>, b: seq<Occurrence>)
    ensures AssociateAll(m, a + b) == AssociateAll(AssociateAll(m, a), b)
    decreases |b|
  {
    hide Associate;
    if |b| == 0 {
      assert a + b == a;
    } else {
      assert (a + b)[..|a + b| - 1] == a + b[..|b| - 1];
      AssociateMore(m, a, b[..|b| - 1]);
    }
  }

  method AddReports(m0: ReportMap, chain: seq<Association>, kind: ReportType, rs: seq<Report>) returns (m: ReportMap)
    ensures m == AssociateAll(m0, Listed(chain, kind, rs))
  {
    hide Associate, AssociateAll, Listed;
    m := m0;
    NoneListed(m0, chain, kind);
    assert rs[..0] == [];
    for i := 0 to |rs|
      invariant m == AssociateAll(m0, Listed(chain, kind, rs[..i]))
    {
      m := Associate(m, Occurrence(chain, kind, rs[i]));
      AddMore(m0, chain, kind, rs, i);
    }
    assert rs[..|rs|] == rs;
  }

  lemma NoneListed(m: ReportMap, chain: seq<Association>, kind: ReportType)
    ensures AssociateAll(m, Listed(chain, kind, [])) == m
  {
  }

  lemma AddMore(m: ReportMap, chain: seq<Association>, kind: ReportType, rs: seq<Report>, i: nat)
    requires i < |rs|
    ensures AssociateAll(m, Listed(chain, kind, rs[..i + 1]))
         == Associate(AssociateAll(m, Listed(chain, kind, rs[..i])), Occurrence(chain, kind, rs[i]))
  {
    hide Associate;
    assert rs[..i + 1][..i] == rs[..i];
    var listed := Listed(chain, kind, rs[..i + 1]);
    assert listed[..i] == Listed(chain, kind, rs[..i]) && listed[i] == Occurrence(chain, kind, rs[i]);
  }

  method Walk(c: Collection, ancestors: seq<Association>, m0: ReportMap) returns (m: ReportMap)
    ensures m == AssociateAll(m0, Occurrences(ancestors, c))
    decreases c
  {
    hide AssociateAll, Listed, ForestOccurrences;
    var chain := ancestors + [AssociationOf(c)];
    m := AddReports(m0, chain, Input, c.inputReports);
    m := AddReports(m, chain, Output, c.outputReports);
    m := AddReports(m, chain, Feature, c.featureReports);
    ghost var input, output := Listed(chain, Input, c.inputReports), Listed(chain, Output, c.outputReports);
    AssociateMore(m0, input, output);
    AssociateMore(m0, input + output, Listed(chain, Feature, c.featureReports));
    assert m == AssociateAll(m0, Own(chain, c));
    NoOccurrences(chain);
    assert Own(chain, c) + [] == Own(chain, c);
    assert c.children[..0] == [];
    for i := 0 to |c.children|
      invariant m == AssociateAll(m0, Own(chain, c) + ForestOccurrences(chain, c.children[..i]))
    {
      m := Walk(c.children[i], chain, m);
      WalkMore(m0, Own(chain, c), chain, c.children, i);
    }
    assert c.children[..|c.children|] == c.children;
  }

  lemma NoOccurrences(ancestors: seq<Association>)
    ensures ForestOccurrences(ancestors, []) == []
  {
  }

  lemma OccurrencesMore(ancestors: seq<Association>, cs: seq<Collection>, i: nat)
    requires i < |cs|
    ensures ForestOccurrences(ancestors, cs[..i + 1])
         == ForestOccurrences(ancestors, cs[..i]) + Occurrences(ancestors, cs[i])
  {
    hide Occurrences;
    assert cs[..i + 1][..i] == cs[..i];
  }

  lemma WalkMore(m: ReportMap, os: seq<Occurrence>, ancestors: seq<Association>, cs: seq<Collection>, i: nat)
    requires i < |cs|
    ensures AssociateAll(AssociateAll(m, os + ForestOccurrences(ancestors, cs[..i])), Occurrences(ancestors, cs[i]))
         == AssociateAll(m, os + ForestOccurrences(ancestors, cs[..i + 1]))
  {
    hide AssociateAll, ForestOccurrences, Occurrences;
    var done, next := ForestOccurrences(ancestors, cs[..i]), Occurrences(ancestors, cs[i]);
    OccurrencesMore(ancestors, cs, i);
    AssociateMore(m, os + done, next);
    assert os + done + next == os + (done + next);
  }

  method MapFromCollectionTree(info: DeviceInfo) returns (m: ReportMap)
    ensures m == TreeMap(info.collections)
  {
    hide AssociateAll, Occurrences;
    m := map[];
    NoneAssociated();
    for i := 0 to |info.collections|
      invariant m == AssociateAll(map[], ForestOccurrences([], info.collections[..i]))
    {
      m := Walk(info.collections[i], [], m);
      OccurrencesMore([], info.collections, i);
      AssociateMore(map[], ForestOccurrences([], info.collections[..i]), Occurrences([], info.collections[i]));
    }
    assert info.collections[..|info.collections|] == info.collections;
  }

  lemma NoneAssociated()
    ensures AssociateAll(map[], []) == map[]
  {
  }

  // ---------- the decision ----------

  predicate Protects(a: Association, vendor: U16, product: U16, key: Key) {
    IsReportBlocked(RULES, vendor, product, a.usagePage, a.usage, key.reportId, key.kind)
    || (a.isApp && IsAlwaysProtected(a.usagePage, a.usage, key.kind))
  }

  predicate AnyProtected(associations: seq<Association>, vendor: U16, product: U16, key: Key) {
    exists i :: 0 <= i < |associations| && Protects(associations[i], vendor, product, key)
  }

  predicate HasAlwaysProtected(info: DeviceInfo, kind: ReportType) {
    exists i :: 0 <= i < |info.collections|
                && IsAlwaysProtected(info.collections[i].usagePage, info.collections[i].usage, kind)
  }

  predicate InterfaceProtected(info: DeviceInfo, kind: ReportType) {
    && |info.collections| == 0
    && (IsReportBlocked(RULES, info.vendorId, info.productId, info.usagePage, info.usage, 0, kind)
        || IsAlwaysProtected(info.usagePage, info.usage, kind))
  }

  /** What is computed once when a device is opened. */
  datatype Blocking = Blocking(associations: ReportMap, always: seq<bool>, interface: seq<bool>)

  function ByteOf(kind: ReportType): nat { match kind case Input => 0 case Output => 1 case Feature => 2 }

  predicate Complete(b: Blocking) { |b.always| == 3 && |b.interface| == 3 }

  function NewBlocking(info: DeviceInfo, m: ReportMap): (b: Blocking)
    ensures Complete(b)
  {
    Blocking(m,
             [HasAlwaysProtected(info, Input), HasAlwaysProtected(info, Output), HasAlwaysProtected(info, Feature)],
             [InterfaceProtected(info, Input), InterfaceProtected(info, Output), InterfaceProtected(info, Feature)])
  }

  predicate IsReportProtected(b: Blocking, vendor: U16, product: U16, reportId: Byte, kind: ReportType)
    requires Complete(b)
  {
    var key := Key(reportId, kind);
    if key in b.associations then AnyProtected(b.associations[key], vendor, product, key)
    else b.always[ByteOf(kind)] || b.interface[ByteOf(kind)]
  }

  // ---------- pruning ----------

  predicate Dropped(m: ReportMap, vendor: U16, product: U16, key: Key) {
    key in m && AnyProtected(m[key], vendor, product, key)
  }

  function PruneReports(rs: seq<Report>, kind: ReportType, m: ReportMap, vendor: U16, product: U16): seq<Report> {
    if |rs| == 0 then []
    else
      var most := PruneReports(rs[..|rs| - 1], kind, m, vendor, product);
      if Dropped(m, vendor, product, Key(rs[|rs| - 1].reportId, kind)) then most else most + [rs[|rs| - 1]]
  }

  function PruneCollection(c: Collection, m: ReportMap, vendor: U16, product: U16): Option<Collection>
    decreases c, 1
  {
    var pruned := Collection(
      c.collectionType, c.usagePage, c.usage, PruneCollections(c.children, m, vendor, product),
      PruneReports(c.inputReports, Input, m, vendor, product),
      PruneReports(c.outputReports, Output, m, vendor, product),
      PruneReports(c.featureReports, Feature, m, vendor, product));
    if Bare(pruned) then None else Some(pruned)
  }

  function PruneCollections(cs: seq<Collection>, m: ReportMap, vendor: U16, product: U16): seq<Collection>
    decreases cs, 0
  {
    if |cs| == 0 then []
    else
      var most := PruneCollections(cs[..|cs| - 1], m, vendor, product);
      var last := PruneCollection(cs[|cs| - 1], m, vendor, product);
      if last.None? then most else most + [last.value]
  }

  predicate Bare(c: Collection) {
    |c.inputReports| == 0 && |c.outputReports| == 0 && |c.featureReports| == 0 && |c.children| == 0
  }

  /** Pruning with a given map: the daemon's own map, or that of the collection tree. */
  function PruneWith(info: DeviceInfo, m: ReportMap): Option<DeviceInfo> {
    if |info.collections| == 0 then None
    else
      var collections := PruneCollections(info.collections, m, info.vendorId, info.productId);
      if |collections| == 0 then None else Some(info.(collections := collections))
  }

  function PruneDeviceInfo(info: DeviceInfo): Option<DeviceInfo> { PruneWith(info, TreeMap(info.collections)) }

  // ---------- the reader's sets ----------

  method BlockedInputIds(vendor: U16, product: U16, m: ReportMap) returns (ids: set<Byte>)
    ensures ids == set key | key in m && key.kind == Input && AnyProtected(m[key], vendor, product, key) :: key.reportId
  {
    ids := {};
    var rest := m.Keys;
    while rest != {}
      invariant rest <= m.Keys
      invariant ids == set key | key in m.Keys - rest && key.kind == Input && AnyProtected(m[key], vendor, product, key)
                       :: key.reportId
      decreases |rest|
    {
      var key :| key in rest;
      rest := rest - {key};
      if key.kind == Input && AnyProtected(m[key], vendor, product, key) { ids := ids + {key.reportId}; }
    }
  }

  function DeclaredInputIds(m: ReportMap): set<Byte> { set key | key in m && key.kind == Input :: key.reportId }

  /** What the reader loop drops, from its two precomputed sets and two flags. */
  predicate ReaderDrops(blocked: set<Byte>, declared: set<Byte>, always: bool, interface: bool, reportId: Byte) {
    reportId in blocked || interface || (reportId !in declared && always)
  }
}
