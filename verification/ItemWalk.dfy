/** Two walks over the items of a raw report descriptor (HID 1.11, sections 6.2.2.2 and 6.2.2.3): one
    collects the string indices of every main item with the report id in force there, the other
    only asks whether there is a Report ID item at all. */
module ItemWalk {
  import opened Wrappers
  import opened Tlv

  const LONG_ITEM: Byte := 0xFE
  const REPORT_ID: Byte := 0x84

  datatype ReportKind = Input | Output | Feature

  datatype MainItem = MainItem(kind: ReportKind, reportId: Option<Byte>, fieldCount: nat, stringIndices: seq<U32>)

  datatype Globals = Globals(reportSize: U32, reportCount: U32, reportId: Option<Byte>)

  datatype Locals = Locals(indices: seq<U32>, minimum: Option<U32>, maximum: Option<U32>)

  const NO_GLOBALS := Globals(0, 0, None)
  const NO_LOCALS := Locals([], None, None)

  datatype Failure = SizeOverflow(offset: nat) | RangeTooLong(offset: nat)

  datatype Result<T> = Ok(value: T) | Err(error: Failure)

  // ---------- one item ----------

  function DataSize(header: Byte): nat { if header % 4 == 3 then 4 else header % 4 }

  function ItemType(header: Byte): nat { header / 4 % 4 }

  function ItemTag(header: Byte): nat { header / 16 }

  function ByteAt(data: seq<Byte>, i: nat): Byte { if i < |data| then data[i] else 0 }

  /** The little-endian value of an item's data, of at most four bytes. */
  function Value(data: seq<Byte>): U32
    requires |data| <= 4
  {
    FromLe32(ByteAt(data, 0), ByteAt(data, 1), ByteAt(data, 2), ByteAt(data, 3))
  }

  /** Where the item after the one at `i` starts, both walks agree; it may lie past the end. */
  function NextOffset(bytes: seq<Byte>, i: nat): (next: nat)
    requires i < |bytes|
    ensures next > i
  {
    if bytes[i] != LONG_ITEM then i + 1 + DataSize(bytes[i])
    else if i + 1 < |bytes| then i + 3 + bytes[i + 1]
    else |bytes|
  }

  function ItemData(bytes: seq<Byte>, i: nat): seq<Byte>
    requires i < |bytes| && i + 1 + DataSize(bytes[i]) <= |bytes|
  {
    bytes[i + 1..i + 1 + DataSize(bytes[i])]
  }

  // ---------- the state of the collecting walk ----------

  datatype Walk = Walk(globals: seq<Globals>, locals: Locals, result: seq<MainItem>)

  function Top(w: Walk): Globals
    requires |w.globals| > 0
  {
    w.globals[|w.globals| - 1]
  }

  function SetTop(w: Walk, g: Globals): Walk
    requires |w.globals| > 0
  {
    w.(globals := w.globals[..|w.globals| - 1] + [g])
  }

  function GlobalItem(w: Walk, tag: nat, value: U32): (r: Walk)
    requires |w.globals| > 0
    ensures |r.globals| > 0
  {
    if tag == 7 then SetTop(w, Top(w).(reportSize := value))
    else if tag == 8 then SetTop(w, Top(w).(reportId := Some(value % 256)))
    else if tag == 9 then SetTop(w, Top(w).(reportCount := value))
    else if tag == 10 then w.(globals := w.globals + [Top(w)])
    else if tag == 11 && |w.globals| > 1 then w.(globals := w.globals[..|w.globals| - 1])
    else w
  }

  function LocalItem(w: Walk, tag: nat, value: U32): Walk {
    if tag == 7 then w.(locals := w.locals.(indices := w.locals.indices + [value]))
    else if tag == 8 then w.(locals := w.locals.(minimum := Some(value)))
    else if tag == 9 then w.(locals := w.locals.(maximum := Some(value)))
    else w
  }

  function KindOf(tag: nat): Option<ReportKind> {
    if tag == 8 then Some(Input) else if tag == 9 then Some(Output) else if tag == 11 then Some(Feature) else None
  }

  /** The numbers from `lo` to `hi`. */
  function Numbers(lo: U32, hi: U32): seq<U32>
    requires lo <= hi
  {
    seq(hi - lo + 1, k requires 0 <= k < hi - lo + 1 => lo + k)
  }

  /** A declared range, when its ends are in order; more than 256 indices are too many. */
  function StringIndices(l: Locals): Option<seq<U32>> {
    if l.minimum.None? || l.maximum.None? || l.maximum.value < l.minimum.value then Some(l.indices)
    else if l.maximum.value - l.minimum.value + 1 > 256 then None
    else Some(l.indices + Numbers(l.minimum.value, l.maximum.value))
  }

  /** A constant field or an array counts once, a variable field `count` times. */
  function FieldCount(value: U32, count: U32): nat { if value % 2 == 1 || value / 2 % 2 == 0 then 1 else count }

  /** `usize` is the number of values a machine word holds. */
  function MainItemAt(w: Walk, offset: nat, tag: nat, value: U32, usize: nat): Result<Walk>
    requires |w.globals| > 0
  {
    var kind := KindOf(tag);
    if kind.None? then Ok(w.(locals := NO_LOCALS))
    else
      var g := Top(w);
      var bitLength := g.reportSize * g.reportCount;
      if g.reportSize >= usize || g.reportCount >= usize || bitLength >= usize then Err(SizeOverflow(offset))
      else if bitLength == 0 then Ok(w.(locals := NO_LOCALS))
      else
        var indices := StringIndices(w.locals);
        if indices.None? then Err(RangeTooLong(offset))
        else
          var item := MainItem(kind.value, g.reportId, FieldCount(value, g.reportCount), indices.value);
          Ok(Walk(w.globals, NO_LOCALS, w.result + [item]))
  }

  function ShortItem(w: Walk, offset: nat, header: Byte, value: U32, usize: nat): (r: Result<Walk>)
    requires |w.globals| > 0
    ensures r.Ok? ==> |r.value.globals| > 0
  {
    if ItemType(header) == 0 then MainItemAt(w, offset, ItemTag(header), value, usize)
    else if ItemType(header) == 1 then Ok(GlobalItem(w, ItemTag(header), value))
    else if ItemType(header) == 2 then Ok(LocalItem(w, ItemTag(header), value))
    else Ok(w)
  }

  /** A long item without its length, or a short item without all its data, ends the walk. */
  predicate Cut(bytes: seq<Byte>, i: nat)
    requires i < |bytes|
  {
    if bytes[i] == LONG_ITEM then i + 1 == |bytes| else i + 1 + DataSize(bytes[i]) > |bytes|
  }

  function WalkFrom(bytes: seq<Byte>, i: nat, w: Walk, usize: nat): Result<seq<MainItem>>
    requires |w.globals| > 0
    decreases |bytes| - i
  {
    if i >= |bytes| || Cut(bytes, i) then Ok(w.result)
    else if bytes[i] == LONG_ITEM then WalkFrom(bytes, NextOffset(bytes, i), w, usize)
    else
      var next := ShortItem(w, i, bytes[i], Value(ItemData(bytes, i)), usize);
      if next.Err? then Err(next.error) else WalkFrom(bytes, NextOffset(bytes, i), next.value, usize)
  }

  const START := Walk([NO_GLOBALS], NO_LOCALS, [])

  method Scan(bytes: seq<Byte>, usize: nat) returns (r: Result<seq<MainItem>>)
    ensures r == WalkFrom(bytes, 0, START, usize)
  {
    hide ShortItem, Value;
    var w := START;
    var position := 0;
    while position < |bytes|
      invariant |w.globals| > 0 && WalkFrom(bytes, position, w, usize) == WalkFrom(bytes, 0, START, usize)
      decreases |bytes| - position
    {
      var itemOffset := position;
      var header := bytes[position];
      position := position + 1;
      if header == LONG_ITEM {
        if position == |bytes| { break; }
        position := position + 2 + bytes[position];
        continue;
      }
      var size := DataSize(header);
      if position + size > |bytes| { break; }
      var data := bytes[position..position + size];
      position := position + size;
      var next := ShortItem(w, itemOffset, header, Value(data), usize);
      if next.Err? { return Err(next.error); }
      w := next.value;
    }
    r := Ok(w.result);
  }

  // ---------- the asking walk ----------

  predicate IsReportId(header: Byte) { header / 4 * 4 == REPORT_ID }

  predicate NumberedFrom(bytes: seq<Byte>, i: nat)
    decreases |bytes| - i
  {
    i < |bytes| && ((bytes[i] != LONG_ITEM && IsReportId(bytes[i])) || NumberedFrom(bytes, NextOffset(bytes, i)))
  }

  method UsesNumberedReports(buf: seq<Byte>) returns (numbered: bool)
    ensures numbered == NumberedFrom(buf, 0)
  {
    var i := 0;
    while i < |buf|
      invariant NumberedFrom(buf, i) == NumberedFrom(buf, 0)
      decreases |buf| - i
    {
      var prefix := buf[i];
      if prefix == LONG_ITEM {
        if i + 1 >= |buf| { break; }
        i := i + 3 + buf[i + 1];
        continue;
      }
      if IsReportId(prefix) { return true; }
      i := i + 1 + DataSize(prefix);
    }
    numbered := false;
  }

  // ---------- the two walks together ----------

  /** Both masks pick out the same item: a global item with tag 8. */
  lemma SameMask(header: Byte)
    ensures IsReportId(header) <==> ItemType(header) == 1 && ItemTag(header) == 8
  {
  }

  /** An item offset that the walk from `i` comes to. */
  predicate Reached(bytes: seq<Byte>, i: nat, k: nat)
    decreases |bytes| - i
  {
    i < |bytes| && (k == i || Reached(bytes, NextOffset(bytes, i), k))
  }

  /** A whole Report ID item at `k`, and the id it sets. */
  predicate SetsId(bytes: seq<Byte>, k: nat, id: Byte) {
    k < |bytes| && bytes[k] != LONG_ITEM && IsReportId(bytes[k]) && !Cut(bytes, k)
    && Value(ItemData(bytes, k)) % 256 == id
  }

  /** The ids that the globals and the collected items hold. */
  predicate Holds(w: Walk, id: Byte) {
    (exists j :: 0 <= j < |w.globals| && w.globals[j].reportId == Some(id))
    || (exists j :: 0 <= j < |w.result| && w.result[j].reportId == Some(id))
  }

  lemma GlobalHolds(w: Walk, tag: nat, value: U32, id: Byte)
    requires |w.globals| > 0 && Holds(GlobalItem(w, tag, value), id)
    ensures Holds(w, id) || (tag == 8 && id == value % 256)
  {
    var u := GlobalItem(w, tag, value);
    if j :| 0 <= j < |u.globals| && u.globals[j].reportId == Some(id) {
      if j < |w.globals| - 1 { assert u.globals[j] == w.globals[j]; }
      assert Top(w) == w.globals[|w.globals| - 1];
    }
  }

  lemma MainHolds(w: Walk, offset: nat, tag: nat, value: U32, usize: nat, id: Byte)
    requires |w.globals| > 0 && MainItemAt(w, offset, tag, value, usize).Ok?
    requires Holds(MainItemAt(w, offset, tag, value, usize).value, id)
    ensures Holds(w, id)
  {
    var u := MainItemAt(w, offset, tag, value, usize).value;
    assert u.globals == w.globals && Top(w) == w.globals[|w.globals| - 1];
    if j :| 0 <= j < |u.result| && u.result[j].reportId == Some(id) {
      if j < |w.result| { assert w.result[j] == u.result[j]; }
    }
  }

  lemma ShortHolds(w: Walk, offset: nat, header: Byte, value: U32, usize: nat, id: Byte)
    requires |w.globals| > 0 && ShortItem(w, offset, header, value, usize).Ok?
    requires Holds(ShortItem(w, offset, header, value, usize).value, id)
    ensures Holds(w, id) || (IsReportId(header) && id == value % 256)
  {
    hide GlobalItem, MainItemAt, ItemType, ItemTag, IsReportId;
    SameMask(header);
    if ItemType(header) == 0 {
      MainHolds(w, offset, ItemTag(header), value, usize, id);
    } else if ItemType(header) == 1 {
      GlobalHolds(w, ItemTag(header), value, id);
    }
  }

  /** Every report id the collecting walk attributes was set by a whole Report ID item at one of the
      offsets it stepped through. */
  lemma {:induction false} AttributedIdIsSet(bytes: seq<Byte>, i: nat, w: Walk, usize: nat, j: nat)
    returns (k: nat)
    requires |w.globals| > 0 && WalkFrom(bytes, i, w, usize).Ok? && j < |WalkFrom(bytes, i, w, usize).value|
    requires WalkFrom(bytes, i, w, usize).value[j].reportId.Some?
    ensures var id := WalkFrom(bytes, i, w, usize).value[j].reportId.value;
            Holds(w, id) || (Reached(bytes, i, k) && SetsId(bytes, k, id))
    decreases |bytes| - i
  {
    hide ShortItem, Value, Holds;
    var id := WalkFrom(bytes, i, w, usize).value[j].reportId.value;
    k := i;
    if i >= |bytes| || Cut(bytes, i) {
      ResultHolds(w, j);
    } else if bytes[i] == LONG_ITEM {
      k := AttributedIdIsSet(bytes, NextOffset(bytes, i), w, usize, j);
    } else {
      var value := Value(ItemData(bytes, i));
      var next := ShortItem(w, i, bytes[i], value, usize).value;
      k := AttributedIdIsSet(bytes, NextOffset(bytes, i), next, usize, j);
      if Holds(next, id) {
        ShortHolds(w, i, bytes[i], value, usize, id);
        k := i;
      }
    }
  }

  lemma ResultHolds(w: Walk, j: nat)
    requires j < |w.result| && w.result[j].reportId.Some?
    ensures Holds(w, w.result[j].reportId.value)
  {
  }

  /** The asking walk finds every Report ID item that the same steps reach. */
  lemma {:induction false} ReachedIsFound(bytes: seq<Byte>, i: nat, k: nat)
    requires k < |bytes| && Reached(bytes, i, k) && bytes[k] != LONG_ITEM && IsReportId(bytes[k])
    ensures NumberedFrom(bytes, i)
    decreases |bytes| - i
  {
    hide IsReportId;
    if k != i { ReachedIsFound(bytes, NextOffset(bytes, i), k); }
  }

  /** When a report id is attributed to any main item, the device uses numbered reports. */
  lemma AttributedIsNumbered(bytes: seq<Byte>, usize: nat, j: nat)
    requires var r := WalkFrom(bytes, 0, START, usize); r.Ok? && j < |r.value| && r.value[j].reportId.Some?
    ensures NumberedFrom(bytes, 0)
  {
    hide WalkFrom, NumberedFrom, IsReportId, Value;
    var k := AttributedIdIsSet(bytes, 0, START, usize, j);
    ReachedIsFound(bytes, 0, k);
  }
}
