/** How parsed report fields become the fields a page sees: neighbouring variable fields that differ
    only in their usage are folded into one field with a count. */
module Fields {
  import opened Wrappers
  import opened Tlv

  /** What a parsed field says beside its bits and its usages. */
  datatype Attributes = Attributes(
    logicalMinimum: I32, logicalMaximum: I32, physicalMinimum: Option<I32>, physicalMaximum: Option<I32>,
    unitExponent: Option<I32>, unit: Option<U32>, isAbsolute: bool, isLinear: bool, isVolatile: Option<bool>,
    isBufferedBytes: bool, hasNull: bool, hasPreferredState: bool, wraps: bool)

  /** Bits from `start` up to `end` of the report. */
  datatype Bits = Bits(start: nat, end: nat)

  datatype Parsed =
    | Variable(bits: Bits, usage: U32, attributes: Attributes, strings: seq<seq<Byte>>)
    | Array(bits: Bits, count: nat, usages: seq<U32>, range: Option<(U32, U32)>, attributes: Attributes,
            strings: seq<seq<Byte>>)
    | Constant(bits: Bits, strings: seq<seq<Byte>>)

  predicate Ordered(fields: seq<Parsed>) {
    forall i :: 0 <= i < |fields| ==> fields[i].bits.start <= fields[i].bits.end
  }

  function Size(p: Parsed): nat
    requires p.bits.start <= p.bits.end
  {
    p.bits.end - p.bits.start
  }

  /** The size cast to 32 bits. */
  function Width(p: Parsed): U32
    requires p.bits.start <= p.bits.end
  {
    Size(p) % LIMIT
  }

  function AtLeastOne(n: U32): U32 { if n == 0 then 1 else n }

  // ---------- attributes ----------

  function SystemName(nibble: nat): string {
    UNIT_SYSTEMS[if nibble <= 4 then nibble else if nibble == 15 then 5 else 6]
  }

  function NibbleAsSigned(n: nat): I32
    requires n < 16
  {
    if n < 8 then n else n - 16
  }

  function UnitNibble(unit: Option<U32>, weight: nat): I32
    requires weight > 0
  {
    if unit.None? then 0 else NibbleAsSigned(unit.value / weight % 16)
  }

  /** What two fields must share to be folded. */
  datatype Signature = Signature(
    reportSize: U32, logicalMinimum: I32, logicalMaximum: I32, physicalMinimum: I32, physicalMaximum: I32,
    unitExponent: I32, unitSystem: string, factors: Factors, flags: Flags, strings: seq<seq<Byte>>)

  function SignatureOf(a: Attributes, reportSize: U32, isArray: bool, isRange: bool,
                       strings: seq<seq<Byte>>): Signature {
    Signature(reportSize, a.logicalMinimum, a.logicalMaximum, GetOr(a.physicalMinimum, 0), GetOr(a.physicalMaximum, 0),
              GetOr(a.unitExponent, 0), if a.unit.None? then "none" else SystemName(a.unit.value % 16),
              Factors(UnitNibble(a.unit, 0x10), UnitNibble(a.unit, 0x100), UnitNibble(a.unit, 0x1000),
                      UnitNibble(a.unit, 0x1_0000), UnitNibble(a.unit, 0x10_0000), UnitNibble(a.unit, 0x100_0000)),
              Flags(a.isAbsolute, isArray, isRange, false, a.isLinear, GetOr(a.isVolatile, false), a.isBufferedBytes,
                    a.hasNull, a.hasPreferredState, a.wraps), strings)
  }

  function VarSignature(v: Parsed): Signature
    requires v.Variable? && v.bits.start <= v.bits.end
  {
    SignatureOf(v.attributes, Width(v), false, false, v.strings)
  }

  // ---------- usage ranges ----------

  function Page(usage: U32): nat { usage / 0x1_0000 }

  function Id(usage: U32): nat { usage % 0x1_0000 }

  function SaturatingAdd16(a: nat, b: nat): nat { if a + b > 0xFFFF then 0xFFFF else a + b }

  datatype UsageSet = Listed(usages: seq<U32>) | Range(minimum: U32, maximum: U32)

  /** One page, and ids that step by one from the first, in saturating 16-bit arithmetic. */
  predicate Sequential(usages: seq<U32>) {
    |usages| > 1
    && forall i :: 0 <= i < |usages| ==>
                     Page(usages[i]) == Page(usages[0])
                     && Id(usages[i]) == SaturatingAdd16(Id(usages[0]), i % 0x1_0000)
  }

  /** The last id, in wrapping 16-bit arithmetic. */
  function LastId(first: nat, count: nat): nat { (first + count - 1) % 0x1_0000 }

  function DetectContiguousRange(usages: seq<U32>): UsageSet {
    if Sequential(usages) then
      var page := Page(usages[0]) * 0x1_0000;
      Range(page + Id(usages[0]), page + LastId(Id(usages[0]), |usages|))
    else Listed(usages)
  }

  /** The usages a set stands for. */
  function Usages(u: UsageSet): seq<U32> {
    match u
    case Listed(usages) => usages
    case Range(lo, hi) => if lo <= hi then seq(hi - lo + 1, i requires 0 <= i < hi - lo + 1 => lo + i) else []
  }

  /** The detected range gives the usages back if and only if the ids stay inside sixteen bits. */
  lemma RangeIsExactIff(usages: seq<U32>)
    ensures Usages(DetectContiguousRange(usages)) == usages
       <==> !(Sequential(usages) && Id(usages[0]) + |usages| > 0x1_0000)
    ensures |Usages(DetectContiguousRange(usages))| <= |usages|
    ensures Sequential(usages) && Id(usages[0]) + |usages| > 0x1_0000
            ==> |Usages(DetectContiguousRange(usages))| < |usages|
  {
    if Sequential(usages) {
      var first, n := Id(usages[0]), |usages|;
      PageAndId(usages[0]);
      if first + n <= 0x1_0000 {
        assert LastId(first, n) == first + n - 1;
        forall i | 0 <= i < n ensures usages[i] == usages[0] + i { PageAndId(usages[i]); }
      }
    }
  }

  lemma PageAndId(usage: U32)
    ensures usage == Page(usage) * 0x1_0000 + Id(usage)
  {
  }

  // ---------- runs ----------

  /** The next field goes on where this one ends, with the same signature. */
  predicate Joins(a: Parsed, b: Parsed)
    requires a.bits.start <= a.bits.end && b.bits.start <= b.bits.end
  {
    a.Variable? && b.Variable? && b.bits.start == a.bits.end && VarSignature(a) == VarSignature(b)
  }

  /** One past the last field of the run that starts at `i`, when fields up to `j` belong to it. */
  function RunEnd(fields: seq<Parsed>, j: nat): (e: nat)
    requires Ordered(fields) && 0 < j <= |fields|
    ensures j <= e <= |fields|
    ensures forall k :: j <= k < e ==> Joins(fields[k - 1], fields[k])
    ensures e < |fields| ==> !Joins(fields[e - 1], fields[e])
    decreases |fields| - j
  {
    if j < |fields| && Joins(fields[j - 1], fields[j]) then RunEnd(fields, j + 1) else j
  }

  function RunUsages(run: seq<Parsed>): (us: seq<U32>)
    requires forall k :: 0 <= k < |run| ==> run[k].Variable?
    ensures |us| == |run|
  {
    seq(|run|, k requires 0 <= k < |run| => run[k].usage)
  }

  function Shaped(s: Signature, isRange: bool, usages: Option<seq<U32>>, minimum: Option<U32>, maximum: Option<U32>,
                  size: U32, count: U32): Field {
    Field(usages, minimum, maximum, AtLeastOne(size), AtLeastOne(count), s.logicalMinimum, s.logicalMaximum,
          s.physicalMinimum, s.physicalMaximum, s.unitExponent, s.unitSystem, s.factors, s.flags.(isRange := isRange),
          s.strings)
  }

  function WithUsages(s: Signature, u: UsageSet, size: U32, count: U32): Field {
    match u
    case Listed(usages) => Shaped(s, false, Some(usages), None, None, size, count)
    case Range(lo, hi) => Shaped(s, true, None, Some(lo), Some(hi), size, count)
  }

  function MakeAggregatedVariable(first: Parsed, usages: seq<U32>, count: U32): Field
    requires first.Variable? && first.bits.start <= first.bits.end
  {
    WithUsages(VarSignature(first), DetectContiguousRange(usages), Width(first), count)
  }

  function MakeArrayField(a: Parsed): Field
    requires a.Array? && a.bits.start <= a.bits.end
  {
    var count := AtLeastOne(a.count % LIMIT);
    var u := if a.range.Some? && a.range.value.0 < a.range.value.1 then Range(a.range.value.0, a.range.value.1)
             else Listed(a.usages);
    WithUsages(SignatureOf(a.attributes, 0, true, false, a.strings), u, Width(a) / count, count)
  }

  const NO_FLAGS := Flags(false, false, false, false, false, false, false, false, false, false)

  function MakeConstant(c: Parsed): Field
    requires c.bits.start <= c.bits.end
  {
    Field(None, None, None, AtLeastOne(Width(c)), 1, 0, 0, 0, 0, 0, "", Factors(0, 0, 0, 0, 0, 0),
          NO_FLAGS.(isConstant := true), c.strings)
  }

  /** The field made of the run from `i` to `e`. */
  function MakeRun(fields: seq<Parsed>, i: nat, e: nat): Field
    requires Ordered(fields) && i < e <= |fields| && (forall k :: i < k < e ==> Joins(fields[k - 1], fields[k]))
  {
    match fields[i]
    case Variable(_, _, _, _) =>
      RunIsVariable(fields, i, e);
      MakeAggregatedVariable(fields[i], RunUsages(fields[i..e]), (e - i) % LIMIT)
    case Array(_, _, _, _, _, _) => MakeArrayField(fields[i])
    case Constant(_, _) => MakeConstant(fields[i])
  }

  lemma RunIsVariable(fields: seq<Parsed>, i: nat, e: nat)
    requires Ordered(fields) && i < e <= |fields| && (forall k :: i < k < e ==> Joins(fields[k - 1], fields[k]))
    requires fields[i].Variable?
    ensures forall k :: i <= k < e ==> fields[k].Variable?
  {
    forall k | i <= k < e ensures fields[k].Variable? { if k > i { assert Joins(fields[k - 1], fields[k]); } }
  }

  function ConvertFrom(fields: seq<Parsed>, i: nat): seq<Field>
    requires Ordered(fields) && i <= |fields|
    decreases |fields| - i
  {
    if i == |fields| then []
    else [MakeRun(fields, i, RunEnd(fields, i + 1))] + ConvertFrom(fields, RunEnd(fields, i + 1))
  }

  /** The fields from `i` to `j` are variable ones, the last of them has the signature of the first,
      and `usages` lists their usages. */
  predicate Collected(fields: seq<Parsed>, i: nat, j: nat, usages: seq<U32>)
    requires Ordered(fields) && i < j <= |fields|
  {
    && (forall k :: i <= k < j ==> fields[k].Variable?)
    && VarSignature(fields[j - 1]) == VarSignature(fields[i]) && usages == RunUsages(fields[i..j])
  }

  lemma OneMoreCollected(fields: seq<Parsed>, i: nat, j: nat, usages: seq<U32>)
    requires Ordered(fields) && i < j < |fields| && Collected(fields, i, j, usages) && fields[j].Variable?
    requires VarSignature(fields[j]) == VarSignature(fields[i])
    ensures Collected(fields, i, j + 1, usages + [fields[j].usage])
  {
    hide VarSignature;
    var run := fields[i..j + 1];
    forall k | 0 <= k < |run| ensures run[k].Variable? { assert run[k] == fields[i + k]; }
    assert forall k :: 0 <= k < j - i ==> fields[i..j][k] == run[k];
    assert usages + [fields[j].usage] == RunUsages(run);
  }

  /** Whether the run from `i` goes on at `j`, told from the signature of its first field. */
  lemma RunGoesOn(fields: seq<Parsed>, i: nat, j: nat, usages: seq<U32>)
    requires Ordered(fields) && i < j <= |fields| && Collected(fields, i, j, usages)
    ensures var joins := j < |fields| && fields[j].Variable? && fields[j].bits.start == fields[j - 1].bits.end
                         && VarSignature(fields[j]) == VarSignature(fields[i]);
            RunEnd(fields, j) == if joins then RunEnd(fields, j + 1) else j
  {
    hide VarSignature;
  }

  /** Folds in the fields that join, one after another. */
  method CollectRun(fields: seq<Parsed>, i: nat) returns (usages: seq<U32>, count: nat, j: nat)
    requires Ordered(fields) && i < |fields| && fields[i].Variable?
    ensures j == RunEnd(fields, i + 1) && count == j - i
    ensures (forall k :: i <= k < j ==> fields[k].Variable?) && usages == RunUsages(fields[i..j])
  {
    hide VarSignature, RunEnd, Collected, RunUsages;
    usages, count, j := [fields[i].usage], 1, i + 1;
    var prevEnd := fields[i].bits.end;
    OneCollected(fields, i);
    while j < |fields| && fields[j].Variable? && fields[j].bits.start == prevEnd
          && VarSignature(fields[j]) == VarSignature(fields[i])
      invariant i < j <= |fields| && prevEnd == fields[j - 1].bits.end && count == j - i
      invariant Collected(fields, i, j, usages) && RunEnd(fields, j) == RunEnd(fields, i + 1)
    {
      RunGoesOn(fields, i, j, usages);
      OneMoreCollected(fields, i, j, usages);
      usages := usages + [fields[j].usage];
      count := count + 1;
      prevEnd := fields[j].bits.end;
      j := j + 1;
    }
    RunGoesOn(fields, i, j, usages);
    AllCollected(fields, i, j, usages);
  }

  lemma OneCollected(fields: seq<Parsed>, i: nat)
    requires Ordered(fields) && i < |fields| && fields[i].Variable?
    ensures Collected(fields, i, i + 1, [fields[i].usage])
  {
    assert fields[i..i + 1] == [fields[i]];
  }

  lemma AllCollected(fields: seq<Parsed>, i: nat, j: nat, usages: seq<U32>)
    requires Ordered(fields) && i < j <= |fields| && Collected(fields, i, j, usages)
    ensures (forall k :: i <= k < j ==> fields[k].Variable?) && usages == RunUsages(fields[i..j])
  {
    hide RunUsages, VarSignature;
  }

  /** The output field that starts at `i`, and where the next one starts. */
  method ConvertOne(fields: seq<Parsed>, i: nat) returns (f: Field, next: nat)
    requires Ordered(fields) && i < |fields|
    ensures next == RunEnd(fields, i + 1) && f == MakeRun(fields, i, next)
  {
    hide MakeAggregatedVariable, MakeArrayField, MakeConstant, Joins, RunUsages;
    match fields[i]
    case Variable(_, _, _, _) =>
      var usages, count, j := CollectRun(fields, i);
      next := j;
      f := MakeAggregatedVariable(fields[i], usages, count % LIMIT);
    case Array(_, _, _, _, _, _) =>
      AloneRunEnd(fields, i);
      next := i + 1;
      f := MakeArrayField(fields[i]);
    case Constant(_, _) =>
      AloneRunEnd(fields, i);
      next := i + 1;
      f := MakeConstant(fields[i]);
  }

  method ConvertFieldsAggregate(fields: seq<Parsed>) returns (out: seq<Field>)
    requires Ordered(fields)
    ensures out == ConvertFrom(fields, 0)
  {
    hide MakeRun, Joins;
    out := [];
    var i := 0;
    while i < |fields|
      invariant i <= |fields| && out + ConvertFrom(fields, i) == ConvertFrom(fields, 0)
      decreases |fields| - i
    {
      var f, next := ConvertOne(fields, i);
      assert out + ([f] + ConvertFrom(fields, next)) == out + [f] + ConvertFrom(fields, next);
      out, i := out + [f], next;
    }
    assert out + [] == out;
  }

  lemma AloneRunEnd(fields: seq<Parsed>, i: nat)
    requires Ordered(fields) && i < |fields| && !fields[i].Variable?
    ensures RunEnd(fields, i + 1) == i + 1
  {
  }
}
