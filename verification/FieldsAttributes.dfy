/** What an output field says beside its usages: for every field of its run, all that this field said. */
module FieldsAttributes {
  import opened Wrappers
  import opened Tlv
  import opened Fields

  /** An optional number, 0 when it is absent. */
  predicate Tells(said: I32, meant: Option<I32>) {
    said == match meant case Some(n) => n case None => 0
  }

  /** The six exponents, each as four bits of a unit, the lowest first. */
  function UnitBits(f: Factors): nat {
    f.length % 16 + f.mass % 16 * 0x10 + f.time % 16 * 0x100 + f.temperature % 16 * 0x1000 + f.current % 16 * 0x1_0000
    + f.luminous % 16 * 0x10_0000
  }

  predicate IsExponent(n: I32) { -8 <= n < 8 }

  /** The exponents are signed four-bit numbers that make up the unit above its lowest four bits. */
  predicate TellsUnit(f: Factors, unit: Option<U32>) {
    && IsExponent(f.length) && IsExponent(f.mass) && IsExponent(f.time)
    && IsExponent(f.temperature) && IsExponent(f.current) && IsExponent(f.luminous)
    && UnitBits(f) == if unit.Some? then unit.value / 16 % 0x100_0000 else 0
  }

  /** Four bits of a unit name its system; without a unit there is none. */
  predicate TellsSystem(name: string, unit: Option<U32>) {
    name == if unit.None? then "none"
            else if unit.value % 16 < 5 then UNIT_SYSTEMS[unit.value % 16]
            else if unit.value % 16 == 15 then "vendor-defined"
            else "reserved"
  }

  predicate Carries(f: Field, a: Attributes, strings: seq<seq<Byte>>) {
    && f.logicalMinimum == a.logicalMinimum && f.logicalMaximum == a.logicalMaximum
    && Tells(f.physicalMinimum, a.physicalMinimum) && Tells(f.physicalMaximum, a.physicalMaximum)
    && Tells(f.unitExponent, a.unitExponent) && TellsUnit(f.factors, a.unit) && TellsSystem(f.unitSystem, a.unit)
    && f.flags.isAbsolute == a.isAbsolute && f.flags.isLinear == a.isLinear
    && f.flags.isVolatile == (a.isVolatile == Some(true)) && f.flags.isBufferedBytes == a.isBufferedBytes
    && f.flags.hasNull == a.hasNull && f.flags.hasPreferredState == a.hasPreferredState && f.flags.wrap == a.wraps
    && f.strings == strings
  }

  // ---------- units ----------

  lemma NibbleBack(n: nat)
    requires n < 16
    ensures NibbleAsSigned(n) % 16 == n && IsExponent(NibbleAsSigned(n))
  {
  }

  lemma LessTimes(m: nat, p: nat, q: nat)
    ensures p < q ==> m * p + m <= m * q
  {
    if p < q {
      var d := q - p;
      assert m * q == m * (p + d) == m * p + m * d;
      Multiple(m, d);
    }
  }

  lemma {:induction false} Multiple(m: nat, d: nat)
    requires d > 0
    ensures m * d >= m
    decreases d
  {
    if d > 1 {
      Multiple(m, d - 1);
      assert m * d == m * (d - 1) + m;
    }
  }

  lemma Quotient(u: nat, m: nat, q: nat, r: nat)
    requires u == m * q + r && r < m
    ensures u / m == q
  {
    var p := u / m;
    assert u == m * p + u % m;
    LessTimes(m, p, q);
    LessTimes(m, q, p);
  }

  lemma DivideTwice(u: nat, w: nat)
    requires w > 0
    ensures u / (16 * w) == u / 16 / w
  {
    var q, r := u / 16 / w, u / 16 % w;
    assert u / 16 == w * q + r;
    assert u == 16 * (u / 16) + u % 16;
    assert 16 * (w * q + r) == 16 * w * q + 16 * r;
    Quotient(u, 16 * w, q, 16 * r + u % 16);
  }

  /** Six digits of a number in base 16. */
  lemma SixDigits(v: nat)
    ensures v % 16 + v / 0x10 % 16 * 0x10 + v / 0x100 % 16 * 0x100 + v / 0x1000 % 16 * 0x1000
            + v / 0x1_0000 % 16 * 0x1_0000 + v / 0x10_0000 % 16 * 0x10_0000 == v % 0x100_0000
  {
    ThreeDigits(v);
    ThreeDigits(v / 0x1000);
    Thousands(v);
  }

  lemma ThreeDigits(v: nat)
    ensures v % 16 + v / 0x10 % 16 * 0x10 + v / 0x100 % 16 * 0x100 == v % 0x1000
  {
    DivideTwice(v, 0x10);
    DivideTwice(v / 16, 0x10);
  }

  lemma Thousands(v: nat)
    ensures v % 0x100_0000 == v % 0x1000 + v / 0x1000 % 0x1000 * 0x1000
    ensures v / 0x1_0000 == v / 0x1000 / 0x10 && v / 0x10_0000 == v / 0x1000 / 0x100
  {
  }

  lemma NibbleOf(u: U32, w: nat)
    requires w > 0
    ensures UnitNibble(Some(u), 16 * w) % 16 == u / 16 / w % 16 && IsExponent(UnitNibble(Some(u), 16 * w))
  {
    NibbleBack(u / (16 * w) % 16);
    DivideTwice(u, w);
  }

  lemma UnitTold(unit: Option<U32>)
    ensures TellsUnit(Factors(UnitNibble(unit, 0x10), UnitNibble(unit, 0x100), UnitNibble(unit, 0x1000),
                              UnitNibble(unit, 0x1_0000), UnitNibble(unit, 0x10_0000), UnitNibble(unit, 0x100_0000)),
                      unit)
  {
    hide UnitNibble;
    if unit.Some? {
      var u := unit.value;
      NibbleOf(u, 1);
      NibbleOf(u, 0x10);
      NibbleOf(u, 0x100);
      NibbleOf(u, 0x1000);
      NibbleOf(u, 0x1_0000);
      NibbleOf(u, 0x10_0000);
      SixDigits(u / 16);
    } else {
      NoUnit();
    }
  }

  lemma NoUnit()
    ensures forall w: nat :: w > 0 ==> UnitNibble(None, w) == 0
  {
  }

  lemma SystemTold(unit: Option<U32>)
    ensures TellsSystem(if unit.None? then "none" else SystemName(unit.value % 16), unit)
  {
  }

  // ---------- the run of an output field ----------

  lemma {:induction false} OneSignature(fields: seq<Parsed>, i: nat, k: nat)
    requires Ordered(fields) && i <= k < |fields| && (forall j :: i < j <= k ==> Joins(fields[j - 1], fields[j]))
    requires fields[i].Variable?
    ensures fields[k].Variable? && VarSignature(fields[k]) == VarSignature(fields[i])
    decreases k
  {
    hide VarSignature;
    if i < k {
      OneSignature(fields, i, k - 1);
      assert Joins(fields[k - 1], fields[k]);
    }
  }

  /** The signature of a field tells its attributes. */
  predicate SignatureTells(s: Signature, a: Attributes, strings: seq<seq<Byte>>) {
    && s.logicalMinimum == a.logicalMinimum && s.logicalMaximum == a.logicalMaximum
    && Tells(s.physicalMinimum, a.physicalMinimum) && Tells(s.physicalMaximum, a.physicalMaximum)
    && Tells(s.unitExponent, a.unitExponent) && TellsUnit(s.factors, a.unit) && TellsSystem(s.unitSystem, a.unit)
    && s.flags.isAbsolute == a.isAbsolute && s.flags.isLinear == a.isLinear
    && s.flags.isVolatile == (a.isVolatile == Some(true)) && s.flags.isBufferedBytes == a.isBufferedBytes
    && s.flags.hasNull == a.hasNull && s.flags.hasPreferredState == a.hasPreferredState && s.flags.wrap == a.wraps
    && s.strings == strings
  }

  lemma SignatureIsTold(a: Attributes, reportSize: U32, isArray: bool, isRange: bool, strings: seq<seq<Byte>>)
    ensures SignatureTells(SignatureOf(a, reportSize, isArray, isRange, strings), a, strings)
  {
    hide TellsUnit, TellsSystem, UnitNibble, SystemName;
    UnitTold(a.unit);
    SystemTold(a.unit);
  }

  lemma ShapedCarries(s: Signature, a: Attributes, strings: seq<seq<Byte>>, u: UsageSet, size: U32, count: U32)
    requires SignatureTells(s, a, strings)
    ensures var f := WithUsages(s, u, size, count);
            Carries(f, a, strings) && f.flags.isArray == s.flags.isArray && f.flags.isConstant == s.flags.isConstant
  {
    hide TellsUnit, TellsSystem, Tells;
  }

  /** Padding: constant, once, and without a meaning. */
  predicate Neutral(f: Field) {
    && f.usages.None? && f.usageMinimum.None? && f.usageMaximum.None? && f.reportCount == 1
    && f.logicalMinimum == f.logicalMaximum == f.physicalMinimum == f.physicalMaximum == f.unitExponent == 0
    && f.unitSystem == "" && UnitBits(f.factors) == 0 && f.flags.isConstant
    && !f.flags.isAbsolute && !f.flags.isArray && !f.flags.isRange && !f.flags.isLinear && !f.flags.isVolatile
    && !f.flags.isBufferedBytes && !f.flags.hasNull && !f.flags.hasPreferredState && !f.flags.wrap
  }

  /** Every field of a run finds its own attributes in the output field, and every other one of its
      run does too. A constant field keeps its strings and nothing else. */
  lemma AttributesKept(fields: seq<Parsed>, i: nat, e: nat, k: nat)
    requires Ordered(fields) && i <= k < e <= |fields| && e == RunEnd(fields, i + 1)
    ensures var f := MakeRun(fields, i, e);
            match fields[k]
            case Variable(_, _, attributes, strings) =>
              Carries(f, attributes, strings) && !f.flags.isArray && !f.flags.isConstant
            case Array(_, _, _, _, attributes, strings) =>
              Carries(f, attributes, strings) && f.flags.isArray && !f.flags.isConstant
            case Constant(_, strings) => f.strings == strings && Neutral(f)
  {
    hide SignatureOf, SignatureTells, TellsUnit, TellsSystem, Joins, DetectContiguousRange, RunEnd, RunUsages;
    match fields[k]
    case Variable(_, _, attributes, strings) =>
      SignatureIsTold(attributes, Width(fields[k]), false, false, strings);
      VariableKept(fields, i, e, k);
    case Array(_, _, _, _, attributes, strings) =>
      AloneInRun(fields, i, e, k);
      ArrayKept(fields[k]);
    case Constant(_, strings) => AloneInRun(fields, i, e, k);
  }

  lemma AloneInRun(fields: seq<Parsed>, i: nat, e: nat, k: nat)
    requires Ordered(fields) && i <= k < e <= |fields| && e == RunEnd(fields, i + 1) && !fields[k].Variable?
    ensures k == i && e == i + 1
  {
    hide Joins, VarSignature;
    if fields[i].Variable? { OneSignature(fields, i, k); } else { AloneRunEnd(fields, i); }
  }

  lemma VariableKept(fields: seq<Parsed>, i: nat, e: nat, k: nat)
    requires Ordered(fields) && i <= k < e <= |fields| && e == RunEnd(fields, i + 1) && fields[k].Variable?
    ensures Carries(MakeRun(fields, i, e), fields[k].attributes, fields[k].strings)
    ensures !MakeRun(fields, i, e).flags.isArray && !MakeRun(fields, i, e).flags.isConstant
  {
    hide SignatureOf, SignatureTells, Carries, WithUsages, Joins, DetectContiguousRange, RunEnd, RunUsages, Width;
    if !fields[i].Variable? { AloneInRun(fields, i, e, i); }
    OneSignature(fields, i, k);
    RunIsVariable(fields, i, e);
    var s := VarSignature(fields[i]);
    SignatureIsTold(fields[k].attributes, Width(fields[k]), false, false, fields[k].strings);
    PlainSignature(fields[i].attributes, Width(fields[i]), false, false, fields[i].strings);
    ShapedCarries(s, fields[k].attributes, fields[k].strings, DetectContiguousRange(RunUsages(fields[i..e])),
                  Width(fields[i]), (e - i) % LIMIT);
  }

  lemma PlainSignature(a: Attributes, reportSize: U32, isArray: bool, isRange: bool, strings: seq<seq<Byte>>)
    ensures var s := SignatureOf(a, reportSize, isArray, isRange, strings);
            s.flags.isArray == isArray && !s.flags.isConstant
  {
  }

  lemma ArrayKept(a: Parsed)
    requires a.Array? && a.bits.start <= a.bits.end
    ensures Carries(MakeArrayField(a), a.attributes, a.strings)
    ensures MakeArrayField(a).flags.isArray && !MakeArrayField(a).flags.isConstant
  {
    hide SignatureOf, SignatureTells, Carries, WithUsages, Width;
    SignatureIsTold(a.attributes, 0, true, false, a.strings);
    PlainSignature(a.attributes, 0, true, false, a.strings);
    var count := AtLeastOne(a.count % LIMIT);
    var u := if a.range.Some? && a.range.value.0 < a.range.value.1 then Range(a.range.value.0, a.range.value.1)
             else Listed(a.usages);
    ShapedCarries(SignatureOf(a.attributes, 0, true, false, a.strings), a.attributes, a.strings, u, Width(a) / count,
                  count);
  }

  /** An array field names its declared range when the ends of that are in order, and otherwise the
      usages one by one; it has as many elements as the array, but at least one. */
  lemma ArrayUsages(a: Parsed)
    requires a.Array? && a.bits.start <= a.bits.end && a.count < LIMIT
    ensures var f := MakeArrayField(a);
            && f.reportCount == (if a.count == 0 then 1 else a.count)
            && match a.range
               case Some((lo, hi)) =>
                 if lo < hi
                 then f.flags.isRange && f.usages.None? && f.usageMinimum == Some(lo) && f.usageMaximum == Some(hi)
                 else !f.flags.isRange && f.usages == Some(a.usages)
               case None => !f.flags.isRange && f.usages == Some(a.usages)
  {
    hide SignatureOf;
  }
}
