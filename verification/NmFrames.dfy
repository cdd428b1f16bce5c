/** Packed input-report frames of the native-messaging channel: one type byte, the device id, and
    then reports, each with its id and a 16-bit payload length. */
module NmFrames {
  import opened Tlv

  const PKG_INPUT_REPORT: Byte := 1

  datatype InputReport = InputReport(reportId: Byte, payload: seq<Byte>)

  /** The length as it is written: sixteen bits of it. */
  function Length16(n: nat): seq<Byte> { Le16(n % 0x1_0000) }

  function PackReport(r: InputReport): seq<Byte> { [r.reportId] + Length16(|r.payload|) + r.payload }

  function PackReports(rs: seq<InputReport>): seq<Byte> {
    if |rs| == 0 then [] else PackReport(rs[0]) + PackReports(rs[1..])
  }

  function Header(deviceId: U32): seq<Byte> { [PKG_INPUT_REPORT] + Le32(deviceId) }

  function Frame(deviceId: U32, rs: seq<InputReport>): seq<Byte> { Header(deviceId) + PackReports(rs) }

  predicate Fit(rs: seq<InputReport>) { forall i :: 0 <= i < |rs| ==> |rs[i].payload| <= 0xFFFF }

  method PackedInputReport(deviceId: U32, reports: seq<InputReport>) returns (buf: seq<Byte>)
    ensures buf == Frame(deviceId, reports)
  {
    hide PackReport, Le32, Length16;
    buf := [PKG_INPUT_REPORT];
    buf := buf + Le32(deviceId);
    for i := 0 to |reports|
      invariant buf + PackReports(reports[i..]) == Frame(deviceId, reports)
    {
      ghost var before, rest := buf, PackReports(reports[i..][1..]);
      buf := buf + [reports[i].reportId];
      buf := buf + Length16(|reports[i].payload|);
      buf := buf + reports[i].payload;
      Appended(before, reports[i], rest, buf);
      assert reports[i..][1..] == reports[i + 1..];
    }
    assert reports[|reports|..] == [];
    assert buf + [] == buf;
  }

  lemma Appended(before: seq<Byte>, r: InputReport, rest: seq<Byte>, buf: seq<Byte>)
    requires buf == before + [r.reportId] + Length16(|r.payload|) + r.payload
    ensures buf + rest == before + (PackReport(r) + rest)
  {
    hide Length16;
  }

  // ---------- the page's parser ----------

  function ParseReports(bytes: seq<Byte>, cursor: nat): seq<InputReport>
    decreases |bytes| - cursor
  {
    if cursor + 3 > |bytes| then []
    else
      var length: nat := FromLe16(bytes[cursor + 1], bytes[cursor + 2]);
      if cursor + 3 + length > |bytes| then []
      else [InputReport(bytes[cursor], bytes[cursor + 3..cursor + 3 + length])]
           + ParseReports(bytes, cursor + 3 + length)
  }

  function DeviceOf(frame: seq<Byte>): U32
    requires |frame| >= 5
  {
    FromLe32(frame[1], frame[2], frame[3], frame[4])
  }

  /** What a page opened on `deviceId` dispatches from a frame. */
  function Dispatched(deviceId: U32, frame: seq<Byte>): seq<InputReport> {
    if |frame| < 8 || frame[0] != PKG_INPUT_REPORT || DeviceOf(frame) != deviceId then [] else ParseReports(frame, 5)
  }

  method HandlePackedInputBatch(deviceId: U32, bytes: seq<Byte>) returns (dispatched: seq<InputReport>)
    ensures dispatched == Dispatched(deviceId, bytes)
  {
    hide DeviceOf, FromLe16;
    dispatched := [];
    if |bytes| < 8 || bytes[0] != PKG_INPUT_REPORT { return; }
    if DeviceOf(bytes) != deviceId { return; }
    var cursor := 5;
    while cursor + 3 <= |bytes|
      invariant dispatched + ParseReports(bytes, cursor) == ParseReports(bytes, 5)
      decreases |bytes| - cursor
    {
      var reportId := bytes[cursor];
      var length: nat := FromLe16(bytes[cursor + 1], bytes[cursor + 2]);
      ghost var before := cursor;
      cursor := cursor + 3;
      if cursor + length > |bytes| { break; }
      dispatched := dispatched + [InputReport(reportId, bytes[cursor..cursor + length])];
      cursor := cursor + length;
      assert ParseReports(bytes, before) == [InputReport(reportId, bytes[before + 3..cursor])]
             + ParseReports(bytes, cursor);
    }
    assert dispatched + [] == dispatched;
  }

  // ---------- the round trip ----------

  lemma ParseHead(pre: seq<Byte>, r: InputReport, rest: seq<Byte>)
    ensures var bytes, c := pre + (PackReport(r) + rest), |pre|;
            && c + 3 + |r.payload| <= |bytes| && bytes[c] == r.reportId
            && FromLe16(bytes[c + 1], bytes[c + 2]) == |r.payload| % 0x1_0000
            && bytes[c + 3..c + 3 + |r.payload|] == r.payload
            && bytes == pre + PackReport(r) + rest && |pre + PackReport(r)| == c + 3 + |r.payload|
  {
    var bytes, c := pre + (PackReport(r) + rest), |pre|;
    assert bytes == pre + PackReport(r) + rest;
    assert PackReport(r)[1..3] == Length16(|r.payload|);
    assert bytes[c + 1] == PackReport(r)[1] && bytes[c + 2] == PackReport(r)[2];
    assert PackReport(r)[3..] == r.payload;
    assert bytes[c + 3..c + 3 + |r.payload|] == PackReport(r)[3..];
  }

  /** One packed report in front: it is parsed as itself when its length fits, and otherwise not. */
  lemma ParseStep(pre: seq<Byte>, r: InputReport, rest: seq<Byte>)
    ensures var bytes := pre + (PackReport(r) + rest);
            && bytes == pre + PackReport(r) + rest
            && (|r.payload| <= 0xFFFF
                ==> ParseReports(bytes, |pre|) == [r] + ParseReports(bytes, |pre + PackReport(r)|))
            && (|r.payload| > 0xFFFF && |ParseReports(bytes, |pre|)| > 0 ==> ParseReports(bytes, |pre|)[0] != r)
  {
    hide PackReport, FromLe16, ParseReports;
    ParseHead(pre, r, rest);
    ParseAt(pre + (PackReport(r) + rest), |pre|, r);
  }

  lemma ParseAt(bytes: seq<Byte>, c: nat, r: InputReport)
    requires c + 3 + |r.payload| <= |bytes| && bytes[c] == r.reportId && bytes[c + 3..c + 3 + |r.payload|] == r.payload
    requires FromLe16(bytes[c + 1], bytes[c + 2]) == |r.payload| % 0x1_0000
    ensures |r.payload| <= 0xFFFF ==> ParseReports(bytes, c) == [r] + ParseReports(bytes, c + 3 + |r.payload|)
    ensures |r.payload| > 0xFFFF && |ParseReports(bytes, c)| > 0 ==> ParseReports(bytes, c)[0] != r
  {
    hide FromLe16;
  }

  /** The parser gives back exactly the packed reports, if and only if every payload length fits
      sixteen bits. */
  lemma {:induction false} ParsePacked(pre: seq<Byte>, rs: seq<InputReport>)
    ensures ParseReports(pre + PackReports(rs), |pre|) == rs <==> Fit(rs)
    decreases |rs|
  {
    hide PackReport, ParseReports, Fit;
    if |rs| == 0 {
      NothingPacked(pre);
      NothingFits();
    } else {
      var r := rs[0];
      ParseStep(pre, r, PackReports(rs[1..]));
      FitTail(rs);
      assert rs == [r] + rs[1..];
      if |r.payload| <= 0xFFFF {
        ParsePacked(pre + PackReport(r), rs[1..]);
        SameTail(r, ParseReports(pre + PackReports(rs), |pre + PackReport(r)|), rs[1..]);
      }
    }
  }

  lemma NothingFits()
    ensures Fit([])
  {
  }

  lemma FitTail(rs: seq<InputReport>)
    requires |rs| > 0
    ensures Fit(rs) <==> |rs[0].payload| <= 0xFFFF && Fit(rs[1..])
  {
    if |rs[0].payload| <= 0xFFFF && Fit(rs[1..]) {
      forall i | 0 <= i < |rs| ensures |rs[i].payload| <= 0xFFFF { if i > 0 { assert rs[i] == rs[1..][i - 1]; } }
    }
  }

  lemma SameTail(r: InputReport, a: seq<InputReport>, b: seq<InputReport>)
    ensures [r] + a == [r] + b <==> a == b
  {
    if [r] + a == [r] + b { assert ([r] + a)[1..] == a && ([r] + b)[1..] == b; }
  }

  lemma DeviceBack(deviceId: U32, rs: seq<InputReport>)
    ensures |Frame(deviceId, rs)| >= 5 && Frame(deviceId, rs)[0] == PKG_INPUT_REPORT
    ensures DeviceOf(Frame(deviceId, rs)) == deviceId && |Header(deviceId)| == 5
    ensures |rs| > 0 ==> |Frame(deviceId, rs)| >= 8
  {
    var f := Frame(deviceId, rs);
    assert f[1] == Le32(deviceId)[0] && f[2] == Le32(deviceId)[1]
           && f[3] == Le32(deviceId)[2] && f[4] == Le32(deviceId)[3];
    Bytes32(deviceId);
  }

  /** The page of the device dispatches exactly the reports of the frame, if and only if all their
      lengths fit; every other page dispatches nothing. */
  lemma FrameRoundTrip(deviceId: U32, rs: seq<InputReport>, page: U32)
    ensures Dispatched(deviceId, Frame(deviceId, rs)) == rs <==> Fit(rs)
    ensures page != deviceId ==> Dispatched(page, Frame(deviceId, rs)) == []
  {
    hide ParseReports, PackReports, Header, DeviceOf;
    DeviceBack(deviceId, rs);
    ParsePacked(Header(deviceId), rs);
    if |rs| == 0 { NothingPacked(Header(deviceId)); }
  }

  lemma NothingPacked(pre: seq<Byte>)
    ensures ParseReports(pre + PackReports([]), |pre|) == []
  {
  }

  lemma {:induction false} PackJoin(a: seq<InputReport>, b: seq<InputReport>)
    ensures PackReports(a + b) == PackReports(a) + PackReports(b)
    decreases |a|
  {
    hide PackReport;
    if |a| == 0 {
      assert a + b == b;
    } else {
      PackJoin(a[1..], b);
      assert (a + b)[1..] == a[1..] + b;
    }
  }
}
