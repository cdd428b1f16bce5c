/** The decision table for reports: blocklist rules, and usages that are protected whatever the
    rules say. */
module Blocklist {
  import opened Wrappers
  import opened Tlv

  datatype ReportType = Input | Output | Feature

  datatype Rule = Rule(vendor: Option<U16>, product: Option<U16>, usagePage: Option<U16>, usage: Option<U16>,
                       reportId: Option<Byte>, reportType: Option<ReportType>)

  const RULES: seq<Rule> := [
    Rule(None, None, Some(0xF1D0), None, None, None),
    Rule(None, None, Some(0x0001), Some(0x0002), None, None),
    Rule(None, None, Some(0x0001), Some(0x0006), None, None),
    Rule(None, None, Some(0x0001), Some(0x0007), None, None),
    Rule(None, None, Some(0x0001), Some(0x0080), None, None),
    Rule(Some(0x0b0e), None, Some(0xff00), None, Some(0x05), Some(Output)),
    Rule(Some(0x1d50), Some(0x60fc), None, None, None, None)]

  /** An absent criterion fits everything. */
  predicate Fits<T(==)>(criterion: Option<T>, value: T) { criterion.Some? ==> criterion.value == value }

  predicate Matches(r: Rule, vendor: U16, product: U16, usagePage: Option<U16>, usage: Option<U16>, reportId: Byte,
                    reportType: ReportType) {
    && Fits(r.vendor, vendor) && Fits(r.product, product)
    && (r.usagePage.Some? ==> usagePage == r.usagePage) && (r.usage.Some? ==> usage == r.usage)
    && Fits(r.reportId, reportId) && Fits(r.reportType, reportType)
  }

  predicate IsReportBlocked(rules: seq<Rule>, vendor: U16, product: U16, usagePage: Option<U16>, usage: Option<U16>,
                            reportId: Byte, reportType: ReportType) {
    exists i :: 0 <= i < |rules| && Matches(rules[i], vendor, product, usagePage, usage, reportId, reportType)
  }

  /** A rule that blocks a whole device: it names a vendor and nothing below the device. */
  predicate BlocksDevice(r: Rule, vendor: U16, product: U16) {
    && r.reportId.None? && r.reportType.None? && r.usagePage.None? && r.usage.None?
    && r.vendor == Some(vendor) && Fits(r.product, product)
  }

  predicate DeviceIsBlocked(rules: seq<Rule>, vendor: U16, product: U16) {
    exists i :: 0 <= i < |rules| && BlocksDevice(rules[i], vendor, product)
  }

  predicate IsAlwaysProtected(usagePage: Option<U16>, usage: Option<U16>, reportType: ReportType) {
    if usagePage.None? then false
    else if usagePage.value == 0x0007 then true
    else if usagePage.value != 0x0001 || usage.None? then false
    else
      var u := usage.value;
      if u == 0x0001 || u == 0x0002 || u == 0x0006 || u == 0x0007 then reportType != Feature
      else 0x0080 <= u <= 0x008f || 0x00a0 <= u <= 0x00b6
  }

  /** A device-wide rule blocks every report of the device, under every usage. */
  lemma BlockedDeviceBlocksReports(rules: seq<Rule>, vendor: U16, product: U16, usagePage: Option<U16>,
                                   usage: Option<U16>, reportId: Byte, reportType: ReportType)
    requires DeviceIsBlocked(rules, vendor, product)
    ensures IsReportBlocked(rules, vendor, product, usagePage, usage, reportId, reportType)
  {
    var i :| 0 <= i < |rules| && BlocksDevice(rules[i], vendor, product);
    assert Matches(rules[i], vendor, product, usagePage, usage, reportId, reportType);
  }
}
