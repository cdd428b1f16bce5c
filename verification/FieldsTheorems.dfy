/** What the shaped fields keep of the parsed ones. */
module FieldsTheorems {
  import opened Tlv
  import opened Fields

  // ---------- runs are maximal ----------

  /** Where a new output field starts. */
  function Starts(fields: seq<Parsed>, i: nat): seq<nat>
    requires Ordered(fields) && i <= |fields|
    decreases |fields| - i
  {
    if i == |fields| then [] else [i] + Starts(fields, RunEnd(fields, i + 1))
  }

  /** An output field starts exactly where a field does not go on from the one before. */
  lemma {:induction false} StartsAreBreaks(fields: seq<Parsed>, i: nat, k: nat)
    requires Ordered(fields) && i <= k < |fields|
    ensures k in Starts(fields, i) <==> k == i || !Joins(fields[k - 1], fields[k])
    decreases |fields| - i
  {
    hide Joins;
    var e := RunEnd(fields, i + 1);
    if e <= k {
      StartsAreBreaks(fields, e, k);
    } else {
      StartsFrom(fields, e, k);
    }
  }

  lemma {:induction false} StartsFrom(fields: seq<Parsed>, i: nat, k: nat)
    requires Ordered(fields) && i <= |fields| && k < i
    ensures k !in Starts(fields, i)
    decreases |fields| - i
  {
    hide Joins;
    if i < |fields| { StartsFrom(fields, RunEnd(fields, i + 1), k); }
  }

  // ---------- the fields can be taken apart again ----------

  datatype Entry = Entry(usage: U32, width: nat)

  function EntriesOf(usages: seq<U32>, width: nat): (es: seq<Entry>)
    ensures |es| == |usages|
  {
    seq(|usages|, k requires 0 <= k < |usages| => Entry(usages[k], width))
  }

  function UsageSetOf(f: Field): UsageSet {
    if f.flags.isRange then Range(GetOr(f.usageMinimum, 0), GetOr(f.usageMaximum, 0)) else Listed(GetOr(f.usages, []))
  }

  predicate IsVariable(f: Field) { !f.flags.isArray && !f.flags.isConstant }

  /** The variable fields that an output field stands for. */
  function Expand(f: Field): seq<Entry> {
    if IsVariable(f) then EntriesOf(Usages(UsageSetOf(f)), f.reportSize) else []
  }

  function ExpandAll(fs: seq<Field>): seq<Entry> {
    if |fs| == 0 then [] else Expand(fs[0]) + ExpandAll(fs[1..])
  }

  /** The variable fields as they were parsed, from `i` up to `e`. */
  function Originals(fields: seq<Parsed>, i: nat, e: nat): seq<Entry>
    requires Ordered(fields) && i <= e <= |fields|
    decreases e - i
  {
    if i == e then []
    else (if fields[i].Variable? then [Entry(fields[i].usage, Size(fields[i]))] else []) + Originals(fields, i + 1, e)
  }

  /** A run that comes back: its width is there and fits, and its ids do not run over. */
  predicate Exact(fields: seq<Parsed>, i: nat, e: nat)
    requires Ordered(fields) && i < e <= |fields| && (forall k :: i < k < e ==> Joins(fields[k - 1], fields[k]))
  {
    fields[i].Variable? ==>
      (RunIsVariable(fields, i, e);
       var us := RunUsages(fields[i..e]);
       1 <= Width(fields[i]) && !(Sequential(us) && Id(us[0]) + |us| > 0x1_0000))
  }

  predicate AllExact(fields: seq<Parsed>, i: nat)
    requires Ordered(fields) && i <= |fields|
    decreases |fields| - i
  {
    i == |fields| || (Exact(fields, i, RunEnd(fields, i + 1)) && AllExact(fields, RunEnd(fields, i + 1)))
  }

  /** Every variable field is narrower than 2^32 bits, as every descriptor makes it. */
  predicate Narrow(fields: seq<Parsed>) { Ordered(fields) && forall i :: 0 <= i < |fields| ==> Size(fields[i]) < LIMIT }

  lemma {:induction false} OriginalsOfRun(fields: seq<Parsed>, i: nat, e: nat)
    requires Narrow(fields) && i < e <= |fields| && fields[i].Variable?
    requires forall k :: i < k < e ==> Joins(fields[k - 1], fields[k])
    ensures forall k :: i <= k < e ==> fields[k].Variable?
    ensures Originals(fields, i, e) == EntriesOf(RunUsages(fields[i..e]), Size(fields[i]))
    decreases e - i
  {
    hide Joins, EntriesOf, RunUsages, Originals, Size;
    RunIsVariable(fields, i, e);
    OriginalsMore(fields, i, e);
    if i + 1 < e {
      JoinedSizes(fields, i);
      OriginalsOfRun(fields, i + 1, e);
      UsagesMore(fields, i, e);
      EntriesMore(fields[i].usage, RunUsages(fields[i + 1..e]), Size(fields[i]));
    } else {
      UsagesMore(fields, i, e);
      NoUsages(fields[i + 1..e]);
      assert [fields[i].usage] + [] == [fields[i].usage];
      OneEntry(fields[i].usage, Size(fields[i]));
    }
  }

  lemma OriginalsMore(fields: seq<Parsed>, i: nat, e: nat)
    requires Ordered(fields) && i < e <= |fields| && fields[i].Variable?
    ensures Originals(fields, i, e) == [Entry(fields[i].usage, Size(fields[i]))] + Originals(fields, i + 1, e)
    ensures i + 1 == e ==> Originals(fields, i, e) == [Entry(fields[i].usage, Size(fields[i]))]
  {
  }

  lemma UsagesMore(fields: seq<Parsed>, i: nat, e: nat)
    requires i < e <= |fields| && forall k :: i <= k < e ==> fields[k].Variable?
    ensures RunUsages(fields[i..e]) == [fields[i].usage] + RunUsages(fields[i + 1..e])
  {
    assert fields[i..e] == [fields[i]] + fields[i + 1..e];
  }

  lemma NoUsages(run: seq<Parsed>)
    requires |run| == 0
    ensures RunUsages(run) == []
  {
  }

  lemma JoinedSizes(fields: seq<Parsed>, i: nat)
    requires Narrow(fields) && i + 1 < |fields| && Joins(fields[i], fields[i + 1])
    ensures Size(fields[i]) == Size(fields[i + 1]) && fields[i].Variable? && fields[i + 1].Variable?
  {
    assert VarSignature(fields[i]).reportSize == VarSignature(fields[i + 1]).reportSize;
  }

  lemma EntriesMore(u: U32, us: seq<U32>, width: nat)
    ensures EntriesOf([u] + us, width) == [Entry(u, width)] + EntriesOf(us, width)
  {
  }

  lemma OneEntry(u: U32, width: nat)
    ensures EntriesOf([u], width) == [Entry(u, width)]
  {
  }

  lemma {:induction false} OriginalsJoin(fields: seq<Parsed>, i: nat, m: nat, e: nat)
    requires Ordered(fields) && i <= m <= e <= |fields|
    ensures Originals(fields, i, e) == Originals(fields, i, m) + Originals(fields, m, e)
    decreases m - i
  {
    hide Size;
    if i < m {
      OriginalsJoin(fields, i + 1, m, e);
      var head := if fields[i].Variable? then [Entry(fields[i].usage, Size(fields[i]))] else [];
      Regroup(head, Originals(fields, i + 1, m), Originals(fields, m, e));
    } else {
      assert [] + Originals(fields, m, e) == Originals(fields, m, e);
    }
  }

  lemma Regroup(a: seq<Entry>, b: seq<Entry>, c: seq<Entry>)
    ensures a + (b + c) == a + b + c
  {
  }

  lemma ExpandVariable(first: Parsed, usages: seq<U32>, count: U32)
    requires first.Variable? && first.bits.start <= first.bits.end
    ensures Expand(MakeAggregatedVariable(first, usages, count))
         == EntriesOf(Usages(DetectContiguousRange(usages)), AtLeastOne(Width(first)))
  {
    hide DetectContiguousRange, Usages, Width;
  }

  lemma SameEntries(us: seq<U32>, vs: seq<U32>, w: nat, x: nat)
    requires |vs| > 0
    ensures EntriesOf(us, w) == EntriesOf(vs, x) <==> us == vs && w == x
  {
    if EntriesOf(us, w) == EntriesOf(vs, x) {
      assert |EntriesOf(us, w)| == |EntriesOf(vs, x)|;
      assert EntriesOf(us, w)[0] == EntriesOf(vs, x)[0];
      forall i | 0 <= i < |vs| ensures us[i] == vs[i] && w == x { assert EntriesOf(us, w)[i] == EntriesOf(vs, x)[i]; }
    }
  }

  /** One run: it expands to the fields it was made of if and only if it is exact, and never to more. */
  lemma ExpandRun(fields: seq<Parsed>, i: nat, e: nat)
    requires Narrow(fields) && i < e <= |fields| && e == RunEnd(fields, i + 1)
    ensures Expand(MakeRun(fields, i, e)) == Originals(fields, i, e) <==> Exact(fields, i, e)
    ensures |Expand(MakeRun(fields, i, e))| <= |Originals(fields, i, e)|
  {
    hide DetectContiguousRange, Usages, Sequential, MakeAggregatedVariable, Joins;
    if fields[i].Variable? {
      OriginalsOfRun(fields, i, e);
      var us := RunUsages(fields[i..e]);
      ExpandVariable(fields[i], us, (e - i) % LIMIT);
      RangeIsExactIff(us);
      SameEntries(Usages(DetectContiguousRange(us)), us, AtLeastOne(Width(fields[i])), Size(fields[i]));
    } else {
      AloneRun(fields, i);
    }
  }

  lemma AloneRun(fields: seq<Parsed>, i: nat)
    requires Ordered(fields) && i < |fields| && !fields[i].Variable?
    ensures RunEnd(fields, i + 1) == i + 1 && Originals(fields, i, i + 1) == []
    ensures Expand(MakeRun(fields, i, i + 1)) == []
  {
  }

  lemma SplitEqual(a: seq<Entry>, b: seq<Entry>, x: seq<Entry>, y: seq<Entry>)
    requires |a| <= |x| && |b| <= |y|
    ensures a + b == x + y <==> a == x && b == y
  {
    if a + b == x + y {
      assert |a| == |x|;
      assert (a + b)[..|a|] == a && (x + y)[..|x|] == x && (a + b)[|a|..] == b && (x + y)[|x|..] == y;
    }
  }

  /** The output gives back the usage and the width of every variable field, in order, if and only
      if every run is exact. */
  lemma {:induction false} ExpandsBackIff(fields: seq<Parsed>, i: nat)
    requires Narrow(fields) && i <= |fields|
    ensures ExpandAll(ConvertFrom(fields, i)) == Originals(fields, i, |fields|) <==> AllExact(fields, i)
    ensures |ExpandAll(ConvertFrom(fields, i))| <= |Originals(fields, i, |fields|)|
    decreases |fields| - i
  {
    hide MakeRun, Expand, Exact, Joins, Originals;
    if i == |fields| {
      NoOriginals(fields);
    } else {
      var e := RunEnd(fields, i + 1);
      ExpandRun(fields, i, e);
      ExpandsBackIff(fields, e);
      OriginalsJoin(fields, i, e, |fields|);
      var run, rest := MakeRun(fields, i, e), ConvertFrom(fields, e);
      assert ([run] + rest)[1..] == rest;
      SplitEqual(Expand(run), ExpandAll(rest), Originals(fields, i, e), Originals(fields, e, |fields|));
    }
  }

  lemma NoOriginals(fields: seq<Parsed>)
    requires Ordered(fields)
    ensures Originals(fields, |fields|, |fields|) == []
  {
  }

  // ---------- bits ----------

  function FieldBits(f: Field): nat { f.reportSize * f.reportCount }

  function TotalBits(fs: seq<Field>): nat { if |fs| == 0 then 0 else FieldBits(fs[0]) + TotalBits(fs[1..]) }

  function ParsedBits(fields: seq<Parsed>, i: nat, e: nat): nat
    requires Ordered(fields) && i <= e <= |fields|
    decreases e - i
  {
    if i == e then 0 else Size(fields[i]) + ParsedBits(fields, i + 1, e)
  }

  /** A field of at least one bit, and an array of whole elements. */
  predicate WholeBits(p: Parsed)
    requires p.bits.start <= p.bits.end
  {
    Size(p) >= 1 && (p.Array? ==> Size(p) % AtLeastOne(p.count % LIMIT) == 0)
  }

  lemma ArrayBitsIff(a: Parsed)
    requires a.Array? && a.bits.start <= a.bits.end && Size(a) < LIMIT
    ensures FieldBits(MakeArrayField(a)) == Size(a) <==> WholeBits(a)
  {
    hide SignatureOf;
    ArrayShape(a);
    WholeElements(Size(a), AtLeastOne(a.count % LIMIT));
  }

  lemma ArrayShape(a: Parsed)
    requires a.Array? && a.bits.start <= a.bits.end && Size(a) < LIMIT
    ensures var f, c := MakeArrayField(a), AtLeastOne(a.count % LIMIT);
            f.reportCount == c && f.reportSize == AtLeastOne(Size(a) / c)
  {
    hide SignatureOf;
  }

  /** Elements of equal size, of at least a bit, make up the whole if and only if it divides by their
      number and is not empty. */
  lemma WholeElements(size: U32, c: U32)
    requires c > 0
    ensures AtLeastOne(size / c) * c == size <==> size >= 1 && size % c == 0
  {
    var q := size / c;
    assert size == q * c + size % c;
    if q > 0 { Product(q, c); }
  }

  lemma {:induction false} Product(q: nat, c: nat)
    requires q > 0 && c > 0
    ensures q * c >= 1
    decreases q
  {
    if q > 1 {
      Product(q - 1, c);
      assert q * c == (q - 1) * c + c;
    }
  }

  lemma {:induction false} RunBits(fields: seq<Parsed>, i: nat, e: nat)
    requires Narrow(fields) && i < e <= |fields| && fields[i].Variable?
    requires forall k :: i < k < e ==> Joins(fields[k - 1], fields[k])
    ensures ParsedBits(fields, i, e) == Size(fields[i]) * (e - i)
    decreases e - i
  {
    hide Joins;
    if i + 1 < e {
      JoinedSizes(fields, i);
      RunBits(fields, i + 1, e);
      assert Size(fields[i]) * (e - i) == Size(fields[i]) + Size(fields[i]) * (e - i - 1);
    } else {
      assert ParsedBits(fields, e, e) == 0;
    }
  }

  /** One output field has the bits of its run if and only if the fields of the run are whole. */
  lemma RunBitsIff(fields: seq<Parsed>, i: nat, e: nat)
    requires Narrow(fields) && |fields| < LIMIT && i < |fields| && e == RunEnd(fields, i + 1)
    ensures FieldBits(MakeRun(fields, i, e)) == ParsedBits(fields, i, e) <==> WholeBits(fields[i])
  {
    hide DetectContiguousRange, VarSignature, MakeArrayField, WholeBits;
    if fields[i].Variable? {
      RunBits(fields, i, e);
      VariableBits(fields, i, e);
    } else {
      AloneRun(fields, i);
      assert ParsedBits(fields, i + 1, i + 1) == 0;
      if fields[i].Array? { ArrayBitsIff(fields[i]); } else { ConstantBits(fields[i]); }
    }
  }

  lemma ConstantBits(c: Parsed)
    requires c.Constant? && c.bits.start <= c.bits.end && Size(c) < LIMIT
    ensures FieldBits(MakeConstant(c)) == Size(c) <==> WholeBits(c)
  {
  }

  lemma VariableBits(fields: seq<Parsed>, i: nat, e: nat)
    requires Narrow(fields) && |fields| < LIMIT && i < e <= |fields| && fields[i].Variable?
    requires forall k :: i < k < e ==> Joins(fields[k - 1], fields[k])
    ensures FieldBits(MakeRun(fields, i, e)) == Size(fields[i]) * (e - i) <==> WholeBits(fields[i])
  {
    hide DetectContiguousRange, VarSignature, Joins;
    RunIsVariable(fields, i, e);
    var f := MakeRun(fields, i, e);
    assert f.reportSize == AtLeastOne(Size(fields[i])) && f.reportCount == e - i;
    if Size(fields[i]) == 0 { assert 0 * (e - i) == 0; }
  }

  /** When every field is whole, no bit of the report is lost or added. */
  lemma {:induction false} BitsConserved(fields: seq<Parsed>, i: nat)
    requires Narrow(fields) && |fields| < LIMIT && i <= |fields|
    requires forall k :: i <= k < |fields| ==> WholeBits(fields[k])
    ensures TotalBits(ConvertFrom(fields, i)) == ParsedBits(fields, i, |fields|)
    decreases |fields| - i
  {
    hide MakeRun, FieldBits, WholeBits, Joins;
    if i < |fields| {
      var e := RunEnd(fields, i + 1);
      RunBitsIff(fields, i, e);
      BitsConserved(fields, e);
      ParsedBitsJoin(fields, i, e, |fields|);
      var run, rest := MakeRun(fields, i, e), ConvertFrom(fields, e);
      assert ([run] + rest)[1..] == rest;
    }
  }

  lemma {:induction false} ParsedBitsJoin(fields: seq<Parsed>, i: nat, m: nat, e: nat)
    requires Ordered(fields) && i <= m <= e <= |fields|
    ensures ParsedBits(fields, i, e) == ParsedBits(fields, i, m) + ParsedBits(fields, m, e)
    decreases m - i
  {
    if i < m { ParsedBitsJoin(fields, i + 1, m, e); }
  }

  // ---------- a run whose ids run over ----------

  /** Two usages with the last id of a page are taken for a range, which then names no usage. */
  lemma RangeRunsOver()
    ensures DetectContiguousRange([0x0001_FFFF, 0x0001_FFFF]) == Range(0x0001_FFFF, 0x0001_0000)
    ensures Usages(DetectContiguousRange([0x0001_FFFF, 0x0001_FFFF])) == []
  {
    var us: seq<U32> := [0x0001_FFFF, 0x0001_FFFF];
    assert Sequential(us);
    assert LastId(0xFFFF, 2) == 0;
  }
}
