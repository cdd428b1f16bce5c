/** Report descriptors as lists of items: the bytes of a list, walked, give what its items mean one
    after another, and the state of the walk is told by the items before it. */
module ItemStream {
  import opened Wrappers
  import opened Tlv
  import opened ItemWalk

  /** A short item with its type, tag and data (HID 1.11, section 6.2.2.2), or a long one. */
  datatype Item = Short(kind: nat, tag: nat, data: seq<Byte>) | Long(longTag: Byte, data: seq<Byte>)

  /** The item can be written: its data has a size that there is a code for, and a short item does
      not look like a long one. */
  predicate Writable(item: Item) {
    match item
    case Short(kind, tag, data) =>
      kind < 4 && tag < 16 && |data| in {0, 1, 2, 4} && !(kind == 3 && tag == 15 && |data| == 2)
    case Long(_, data) => |data| < 256
  }

  function SizeCode(n: nat): nat { if n == 4 then 3 else n }

  function ItemBytes(item: Item): (bytes: seq<Byte>)
    requires Writable(item)
    ensures |bytes| > 0
  {
    match item
    case Short(kind, tag, data) => [(16 * tag + 4 * kind + SizeCode(|data|)) as Byte] + data
    case Long(tag, data) => [LONG_ITEM, |data| as Byte, tag] + data
  }

  predicate AllWritable(items: seq<Item>) { forall i :: 0 <= i < |items| ==> Writable(items[i]) }

  function Bytes(items: seq<Item>): seq<Byte>
    requires AllWritable(items)
  {
    if |items| == 0 then [] else ItemBytes(items[0]) + Bytes(items[1..])
  }

  /** A little-endian number. */
  function Number(data: seq<Byte>): nat { if |data| == 0 then 0 else data[0] + 256 * Number(data[1..]) }

  /** What one item does to the walk; a long item does nothing. */
  function Effect(w: Walk, item: Item, offset: nat, usize: nat): (r: Result<Walk>)
    requires |w.globals| > 0 && Writable(item)
    ensures r.Ok? ==> |r.value.globals| > 0
  {
    match item
    case Long(_, _) => Ok(w)
    case Short(kind, tag, data) =>
      NumberFits(data);
      if kind == 0 then MainItemAt(w, offset, tag, Number(data), usize)
      else if kind == 1 then Ok(GlobalItem(w, tag, Number(data)))
      else if kind == 2 then Ok(LocalItem(w, tag, Number(data)))
      else Ok(w)
  }

  function Power256(n: nat): nat { if n == 0 then 1 else 256 * Power256(n - 1) }

  lemma {:induction false} NumberBound(data: seq<Byte>)
    ensures Number(data) < Power256(|data|)
    decreases |data|
  {
    if |data| > 0 { NumberBound(data[1..]); }
  }

  lemma NumberFits(data: seq<Byte>)
    requires |data| <= 4
    ensures Number(data) < LIMIT
  {
    hide Number;
    NumberBound(data);
    assert Power256(2) == 0x1_0000;
    assert Power256(4) == 256 * (256 * Power256(2));
    assert Power256(3) == 256 * Power256(2);
  }

  /** What a list of items does, from the walk `w` at `offset`. */
  function Meant(items: seq<Item>, w: Walk, offset: nat, usize: nat): (r: Result<Walk>)
    requires |w.globals| > 0 && AllWritable(items)
    ensures r.Ok? ==> |r.value.globals| > 0
  {
    if |items| == 0 then Ok(w)
    else
      var next := Effect(w, items[0], offset, usize);
      if next.Err? then next else Meant(items[1..], next.value, offset + |ItemBytes(items[0])|, usize)
  }

  // ---------- the bytes of items, walked ----------

  lemma OneByteMore(data: seq<Byte>, k: nat)
    requires k <= |data|
    ensures Number(data[k..]) == if k == |data| then 0 else data[k] + 256 * Number(data[k + 1..])
  {
    if k < |data| { assert data[k..][1..] == data[k + 1..]; }
  }

  lemma NumberOfFour(data: seq<Byte>)
    requires |data| == 4
    ensures Number(data) == FromLe32(data[0], data[1], data[2], data[3])
  {
    hide Number;
    assert data[0..] == data;
    OneByteMore(data, 0);
    OneByteMore(data, 1);
    OneByteMore(data, 2);
    OneByteMore(data, 3);
    OneByteMore(data, 4);
  }

  lemma NumberOfFew(data: seq<Byte>)
    requires |data| <= 2
    ensures Number(data) == ByteAt(data, 0) + 256 * ByteAt(data, 1)
  {
    hide Number;
    assert data[0..] == data;
    OneByteMore(data, 0);
    if |data| > 0 { OneByteMore(data, 1); }
    if |data| > 1 { OneByteMore(data, 2); }
  }

  lemma NumberIsValue(data: seq<Byte>)
    requires |data| in {0, 1, 2, 4}
    ensures Value(data) == Number(data)
  {
    hide Number;
    if |data| == 4 { NumberOfFour(data); } else { NumberOfFew(data); }
  }

  /** The header of a short item tells its type, its tag and the size of its data. */
  lemma HeaderTells(item: Item)
    requires item.Short? && Writable(item)
    ensures var h := ItemBytes(item)[0];
            h != LONG_ITEM && ItemType(h) == item.kind && ItemTag(h) == item.tag && DataSize(h) == |item.data|
  {
    var n := SizeCode(|item.data|);
    HeaderParts(item.tag, item.kind, n);
  }

  lemma HeaderParts(tag: nat, kind: nat, code: nat)
    requires tag < 16 && kind < 4 && code < 4
    ensures var h := 16 * tag + 4 * kind + code;
            h % 4 == code && h / 4 % 4 == kind && h / 16 == tag && (h == 0xFE <==> tag == 15 && kind == 3 && code == 2)
  {
  }

  /** What the walk finds at the start of an item's bytes. */
  lemma ItemFound(pre: seq<Byte>, item: Item, rest: seq<Byte>)
    requires Writable(item)
    ensures var bytes, i := pre + (ItemBytes(item) + rest), |pre|;
            && i < |bytes| && !Cut(bytes, i) && NextOffset(bytes, i) == |pre + ItemBytes(item)|
            && (bytes[i] == LONG_ITEM <==> item.Long?) && bytes[i] == ItemBytes(item)[0]
            && (item.Short? ==> ItemData(bytes, i) == item.data)
  {
    var bytes, i := pre + (ItemBytes(item) + rest), |pre|;
    assert bytes[i] == ItemBytes(item)[0];
    if item.Short? {
      HeaderTells(item);
      assert bytes[i + 1..i + 1 + |item.data|] == item.data;
    } else {
      assert bytes[i + 1] == ItemBytes(item)[1];
    }
  }

  lemma {:induction false} WalkMeans(pre: seq<Byte>, items: seq<Item>, w: Walk, usize: nat)
    requires |w.globals| > 0 && AllWritable(items)
    ensures var r, m := WalkFrom(pre + Bytes(items), |pre|, w, usize), Meant(items, w, |pre|, usize);
            if m.Err? then r == Err(m.error) else r == Ok(m.value.result)
    decreases |items|
  {
    hide Cut, NextOffset, ItemData, ItemBytes, Value, MainItemAt, GlobalItem, LocalItem, Number, Writable;
    if |items| == 0 {
      assert pre + Bytes(items) == pre;
    } else {
      var item, rest := items[0], Bytes(items[1..]);
      var here := pre + ItemBytes(item);
      ItemFound(pre, item, rest);
      assert pre + Bytes(items) == here + rest;
      if item.Short? {
        HeaderTells(item);
        SizeAllowed(item);
        NumberIsValue(item.data);
      }
      var next := Effect(w, item, |pre|, usize);
      if next.Ok? { WalkMeans(here, items[1..], next.value, usize); }
    }
  }

  lemma SizeAllowed(item: Item)
    requires item.Short? && Writable(item)
    ensures |item.data| in {0, 1, 2, 4} && item.kind < 4
  {
  }

  /** Walking the bytes of any list of items gives what the items mean, or fails as they do. */
  lemma WalkOfBytes(items: seq<Item>, usize: nat)
    requires AllWritable(items)
    ensures var r, m := WalkFrom(Bytes(items), 0, START, usize), Meant(items, START, 0, usize);
            if m.Err? then r == Err(m.error) else r == Ok(m.value.result)
  {
    hide WalkFrom, Meant, Bytes;
    assert [] + Bytes(items) == Bytes(items);
    WalkMeans([], items, START, usize);
  }

  predicate IsIdItem(item: Item) { item.Short? && item.kind == 1 && item.tag == 8 }

  lemma {:induction false} NumberedMeans(pre: seq<Byte>, items: seq<Item>)
    requires AllWritable(items)
    ensures NumberedFrom(pre + Bytes(items), |pre|) <==> exists i :: 0 <= i < |items| && IsIdItem(items[i])
    decreases |items|
  {
    hide Cut, NextOffset, ItemData, ItemBytes, Writable, IsReportId;
    if |items| == 0 {
      assert pre + Bytes(items) == pre;
    } else {
      var item, rest := items[0], Bytes(items[1..]);
      ItemFound(pre, item, rest);
      assert pre + Bytes(items) == pre + ItemBytes(item) + rest;
      if item.Short? {
        HeaderTells(item);
        SameMask(ItemBytes(item)[0]);
      }
      NumberedMeans(pre + ItemBytes(item), items[1..]);
      if i :| 0 <= i < |items| && IsIdItem(items[i]) && i > 0 { assert IsIdItem(items[1..][i - 1]); }
      if i :| 0 <= i < |items[1..]| && IsIdItem(items[1..][i]) { assert IsIdItem(items[i + 1]); }
    }
  }

  /** A device uses numbered reports if and only if one of its items is a Report ID. */
  lemma NumberedIff(items: seq<Item>)
    requires AllWritable(items)
    ensures NumberedFrom(Bytes(items), 0) <==> exists i :: 0 <= i < |items| && IsIdItem(items[i])
  {
    hide NumberedFrom, Bytes, IsIdItem;
    assert [] + Bytes(items) == Bytes(items);
    NumberedMeans([], items);
  }

  // ---------- the state, told by the items before ----------

  lemma {:induction false} MeantMore(items: seq<Item>, last: Item, w: Walk, offset: nat, usize: nat)
    requires |w.globals| > 0 && AllWritable(items) && Writable(last)
    ensures AllWritable(items + [last])
    ensures var m := Meant(items, w, offset, usize);
            Meant(items + [last], w, offset, usize)
            == if m.Err? then m else Effect(m.value, last, offset + |Bytes(items)|, usize)
    decreases |items|
  {
    hide Effect, ItemBytes, Writable;
    if |items| == 0 {
      assert items + [last] == [last];
      assert [last][1..] == [];
    } else {
      var next := Effect(w, items[0], offset, usize);
      assert (items + [last])[1..] == items[1..] + [last];
      if next.Ok? { MeantMore(items[1..], last, next.value, offset + |ItemBytes(items[0])|, usize); }
    }
  }

  predicate IsMain(item: Item) { item.Short? && item.kind == 0 }

  /** The items after the last main item. */
  function SinceMain(items: seq<Item>): seq<Item> {
    if |items| == 0 || IsMain(items[|items| - 1]) then [] else SinceMain(items[..|items| - 1]) + [items[|items| - 1]]
  }

  predicate IsLocal(item: Item, tag: nat) { item.Short? && item.kind == 2 && item.tag == tag }

  /** The values of the local items with a tag, in order. */
  function LocalValues(items: seq<Item>, tag: nat): seq<nat> {
    if |items| == 0 then []
    else
      var last := items[|items| - 1];
      LocalValues(items[..|items| - 1], tag) + if IsLocal(last, tag) then [Number(last.data)] else []
  }

  function LastOf(ns: seq<nat>): Option<nat> { if |ns| == 0 then None else Some(ns[|ns| - 1]) }

  predicate LocalsTell(l: Locals, items: seq<Item>) {
    l.indices == LocalValues(items, 7) && l.minimum == LastOf(LocalValues(items, 8))
    && l.maximum == LastOf(LocalValues(items, 9))
  }

  lemma EffectOnLocals(w: Walk, item: Item, offset: nat, usize: nat, before: seq<Item>)
    requires |w.globals| > 0 && Writable(item) && Effect(w, item, offset, usize).Ok? && LocalsTell(w.locals, before)
    ensures var l := Effect(w, item, offset, usize).value.locals;
            LocalsTell(l, if IsMain(item) then [] else before + [item])
  {
    hide Number, StringIndices;
    assert (before + [item])[..|before|] == before;
    if item.Short? { NumberFits(item.data); }
  }

  /** The string indices that the next main item will get are those of the string items since the
      last main item, in order, and the last minimum and maximum since then. */
  lemma {:induction false} LocalsSinceMain(items: seq<Item>, usize: nat)
    requires AllWritable(items) && Meant(items, START, 0, usize).Ok?
    ensures LocalsTell(Meant(items, START, 0, usize).value.locals, SinceMain(items))
    decreases |items|
  {
    hide Effect, LocalsTell, Writable, Meant;
    if |items| == 0 {
      NoLocalsYet(usize);
    } else {
      var n := |items| - 1;
      assert items == items[..n] + [items[n]];
      MeantMore(items[..n], items[n], START, 0, usize);
      LocalsSinceMain(items[..n], usize);
      EffectOnLocals(Meant(items[..n], START, 0, usize).value, items[n], 0 + |Bytes(items[..n])|, usize,
                     SinceMain(items[..n]));
    }
  }

  lemma NoLocalsYet(usize: nat)
    ensures Meant([], START, 0, usize) == Ok(START) && LocalsTell(START.locals, SinceMain([]))
  {
  }

  /** The indices of a main item: those given one by one, and then every one from the minimum to the
      maximum, when both were given in order; more than 256 of the latter are refused. */
  lemma IndicesTell(l: Locals, n: U32)
    ensures var ranged := l.minimum.Some? && l.maximum.Some? && l.minimum.value <= l.maximum.value;
            match StringIndices(l)
            case None => ranged && l.maximum.value - l.minimum.value >= 256
            case Some(all) =>
              && l.indices <= all
              && (n in all[|l.indices|..] <==> ranged && l.minimum.value <= n <= l.maximum.value)
              && (forall i, j :: |l.indices| <= i < j < |all| ==> all[i] < all[j])
  {
    if StringIndices(l).Some? {
      var all := StringIndices(l).value;
      if |all| > |l.indices| {
        var lo, hi := l.minimum.value, l.maximum.value;
        assert all[|l.indices|..] == Numbers(lo, hi);
        if lo <= n <= hi { assert Numbers(lo, hi)[n - lo] == n; }
      }
    }
  }

  // ---------- the stack ----------

  predicate IsGlobal(item: Item, tag: nat) { item.Short? && item.kind == 1 && item.tag == tag }

  /** How many pushes are still open. */
  function Depth(items: seq<Item>): int {
    if |items| == 0 then 0
    else
      var last := items[|items| - 1];
      Depth(items[..|items| - 1]) + if IsGlobal(last, 10) then 1 else if IsGlobal(last, 11) then -1 else 0
  }

  /** No pop without a push. */
  predicate Nested(items: seq<Item>) {
    forall i :: 0 <= i <= |items| ==> Depth(items[..i]) >= 0
  }

  lemma EffectOnStack(w: Walk, item: Item, offset: nat, usize: nat, base: nat)
    requires |w.globals| > 0 && Writable(item) && Effect(w, item, offset, usize).Ok? && 0 < base <= |w.globals|
    requires IsGlobal(item, 11) ==> base < |w.globals|
    ensures var u := Effect(w, item, offset, usize).value;
            && |u.globals| == |w.globals| + (if IsGlobal(item, 10) then 1 else if IsGlobal(item, 11) then -1 else 0)
            && u.globals[..base - 1] == w.globals[..base - 1]
  {
    hide Number, StringIndices;
    if item.Short? { NumberFits(item.data); }
  }

  lemma {:induction false} StackKept(items: seq<Item>, w: Walk, offset: nat, usize: nat)
    requires |w.globals| > 0 && AllWritable(items) && Meant(items, w, offset, usize).Ok? && Nested(items)
    ensures var u := Meant(items, w, offset, usize).value;
            && |u.globals| == |w.globals| + Depth(items)
            && u.globals[..|w.globals| - 1] == w.globals[..|w.globals| - 1]
    decreases |items|
  {
    hide Effect, Writable;
    if |items| > 0 {
      var n := |items| - 1;
      assert items == items[..n] + [items[n]];
      MeantMore(items[..n], items[n], w, offset, usize);
      NestedPart(items);
      StackKept(items[..n], w, offset, usize);
      EffectOnStack(Meant(items[..n], w, offset, usize).value, items[n], offset + |Bytes(items[..n])|, usize,
                    |w.globals|);
    }
  }

  lemma NestedPart(items: seq<Item>)
    requires |items| > 0 && Nested(items)
    ensures Nested(items[..|items| - 1]) && Depth(items) >= 0
  {
    assert items[..|items|] == items;
    var front := items[..|items| - 1];
    forall i | 0 <= i <= |front| ensures Depth(front[..i]) >= 0 { assert front[..i] == items[..i]; }
  }

  /** A pop brings back the globals of the push it belongs to, whatever was done in between. */
  lemma PopRestores(w: Walk, push: Item, inner: seq<Item>, pop: Item, offset: nat, usize: nat)
    requires |w.globals| > 0 && AllWritable([push] + inner + [pop]) && IsGlobal(push, 10) && IsGlobal(pop, 11)
    requires Nested(inner) && Depth(inner) == 0
    requires Meant([push] + inner + [pop], w, offset, usize).Ok?
    ensures Meant([push] + inner + [pop], w, offset, usize).value.globals == w.globals
  {
    hide Writable, Effect, Depth, Nested;
    var items := [push] + inner;
    Parts(push, inner, pop);
    MeantMore(items, pop, w, offset, usize);
    assert items[1..] == inner;
    PushCopies(w, push, offset, usize);
    var pushed := Effect(w, push, offset, usize).value;
    var here := offset + |ItemBytes(push)|;
    StackKept(inner, pushed, here, usize);
    PopDrops(Meant(inner, pushed, here, usize).value, pop, offset + |Bytes(items)|, usize);
  }

  lemma Parts(push: Item, inner: seq<Item>, pop: Item)
    requires AllWritable([push] + inner + [pop])
    ensures Writable(push) && AllWritable(inner) && Writable(pop) && AllWritable([push] + inner)
  {
    hide Writable;
    var all := [push] + inner + [pop];
    assert all[0] == push && all[|inner| + 1] == pop;
    forall i | 0 <= i < |inner| ensures Writable(inner[i]) { assert all[i + 1] == inner[i]; }
    forall i | 0 <= i < |[push] + inner| ensures Writable(([push] + inner)[i]) { assert all[i] == ([push] + inner)[i]; }
  }

  lemma PushCopies(w: Walk, push: Item, offset: nat, usize: nat)
    requires |w.globals| > 0 && Writable(push) && IsGlobal(push, 10)
    ensures var r := Effect(w, push, offset, usize);
            r.Ok? && |r.value.globals| == |w.globals| + 1 && r.value.globals[..|w.globals|] == w.globals
  {
    hide Number;
  }

  lemma PopDrops(w: Walk, pop: Item, offset: nat, usize: nat)
    requires |w.globals| > 1 && Writable(pop) && IsGlobal(pop, 11)
    ensures var r := Effect(w, pop, offset, usize);
            r.Ok? && r.value.globals == w.globals[..|w.globals| - 1]
  {
    hide Number;
  }

  // ---------- what a main item reports ----------

  function GlobalValues(items: seq<Item>, tag: nat): seq<nat> {
    if |items| == 0 then []
    else
      var last := items[|items| - 1];
      GlobalValues(items[..|items| - 1], tag) + if IsGlobal(last, tag) then [Number(last.data)] else []
  }

  /** Neither a push nor a pop. */
  predicate Flat(items: seq<Item>) {
    forall i :: 0 <= i < |items| ==> !IsGlobal(items[i], 10) && !IsGlobal(items[i], 11)
  }

  function LastOr0(ns: seq<nat>): nat { if |ns| == 0 then 0 else ns[|ns| - 1] }

  /** The size, the count and the report id that were given last. */
  predicate GlobalsTell(w: Walk, items: seq<Item>) {
    && |w.globals| == 1
    && w.globals[0].reportSize == LastOr0(GlobalValues(items, 7))
    && w.globals[0].reportCount == LastOr0(GlobalValues(items, 9))
    && w.globals[0].reportId == match LastOf(GlobalValues(items, 8)) case None => None case Some(n) => Some(n % 256)
  }

  lemma EffectOnGlobals(w: Walk, item: Item, offset: nat, usize: nat, before: seq<Item>)
    requires |w.globals| > 0 && Writable(item) && Effect(w, item, offset, usize).Ok? && GlobalsTell(w, before)
    requires !IsGlobal(item, 10) && !IsGlobal(item, 11)
    ensures GlobalsTell(Effect(w, item, offset, usize).value, before + [item])
  {
    hide Number, StringIndices;
    assert (before + [item])[..|before|] == before;
    if item.Short? { NumberFits(item.data); }
  }

  lemma {:induction false} GlobalsSoFar(items: seq<Item>, usize: nat)
    requires AllWritable(items) && Flat(items) && Meant(items, START, 0, usize).Ok?
    ensures GlobalsTell(Meant(items, START, 0, usize).value, items)
    decreases |items|
  {
    hide Effect, GlobalsTell, Writable, Meant;
    if |items| == 0 {
      NoGlobalsYet(usize);
    } else {
      var n := |items| - 1;
      assert items == items[..n] + [items[n]];
      MeantMore(items[..n], items[n], START, 0, usize);
      GlobalsSoFar(items[..n], usize);
      EffectOnGlobals(Meant(items[..n], START, 0, usize).value, items[n], 0 + |Bytes(items[..n])|, usize, items[..n]);
    }
  }

  lemma NoGlobalsYet(usize: nat)
    ensures Meant([], START, 0, usize) == Ok(START) && GlobalsTell(START, [])
  {
  }

  /** The direction a main item reports in, if it does. */
  function Direction(item: Item): Option<ReportKind> {
    if !IsMain(item) then None
    else if item.tag == 8 then Some(ReportKind.Input)
    else if item.tag == 9 then Some(ReportKind.Output)
    else if item.tag == 11 then Some(ReportKind.Feature)
    else None
  }

  lemma EffectOnResult(w: Walk, item: Item, offset: nat, usize: nat)
    requires |w.globals| > 0 && Writable(item) && Effect(w, item, offset, usize).Ok?
    ensures var u := Effect(w, item, offset, usize).value;
            if Direction(item).None? || Top(w).reportSize * Top(w).reportCount == 0 then u.result == w.result
            else
              && |u.result| == |w.result| + 1 && u.result[..|w.result|] == w.result
              && var r := u.result[|w.result|];
                 r.kind == Direction(item).value && r.reportId == Top(w).reportId
                 && Some(r.stringIndices) == StringIndices(w.locals)
                 && r.fieldCount == if Number(item.data) % 4 == 2 then Top(w).reportCount else 1
  {
    hide Number, StringIndices;
    if item.Short? { NumberFits(item.data); }
  }

  /** Without pushes and pops, an Input, Output or Feature item of at least one bit is reported with
      the report id given last, as many fields as the count given last if it is a variable one, and
      the string indices given since the last main item; every other item reports nothing. */
  lemma MainIsReported(items: seq<Item>, item: Item, usize: nat)
    requires AllWritable(items) && Writable(item) && Flat(items) && AllWritable(items + [item])
    requires Meant(items + [item], START, 0, usize).Ok?
    ensures Meant(items, START, 0, usize).Ok?
    ensures var before := Meant(items, START, 0, usize).value.result;
            var after := Meant(items + [item], START, 0, usize).value.result;
            var count := LastOr0(GlobalValues(items, 9));
            if Direction(item).None? || LastOr0(GlobalValues(items, 7)) * count == 0 then after == before
            else
              && |after| == |before| + 1 && after[..|before|] == before
              && var r, id := after[|before|], LastOf(GlobalValues(items, 8));
                 r.kind == Direction(item).value && r.reportId == (if id.None? then None else Some(id.value % 256))
                 && LocalValues(SinceMain(items), 7) <= r.stringIndices
                 && r.fieldCount == if Number(item.data) % 4 == 2 then count else 1
  {
    hide Effect, Writable, Meant, Number, SinceMain, LocalValues, GlobalValues;
    MeantMore(items, item, START, 0, usize);
    var w := Meant(items, START, 0, usize).value;
    GlobalsSoFar(items, usize);
    LocalsSinceMain(items, usize);
    EffectOnResult(w, item, 0 + |Bytes(items)|, usize);
    if StringIndices(w.locals).Some? { IndicesTell(w.locals, 0); }
  }

  /** The walk fails exactly at an Input, Output or Feature item whose bits do not fit a machine word,
      or, of at least one bit, with a range of more than 256 string indices. */
  lemma FailsIff(w: Walk, item: Item, offset: nat, usize: nat)
    requires |w.globals| > 0 && Writable(item)
    ensures var size, count, l := Top(w).reportSize, Top(w).reportCount, w.locals;
            var long := size >= usize || count >= usize || size * count >= usize;
            var wide := l.minimum.Some? && l.maximum.Some? && l.maximum.value >= l.minimum.value + 256;
            match Effect(w, item, offset, usize)
            case Err(SizeOverflow(at)) => Direction(item).Some? && long && at == offset
            case Err(RangeTooLong(at)) => Direction(item).Some? && !long && size * count > 0 && wide && at == offset
            case Ok(_) => Direction(item).None? || (!long && (size * count == 0 || !wide))
  {
    hide Number;
    if item.Short? { NumberFits(item.data); }
  }
}
