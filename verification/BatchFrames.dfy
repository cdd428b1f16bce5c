/** Input-report batches of the WebSocket and WebTransport paths: a type byte, and then reports, each
    with a 16-bit length that counts its id and its payload. */
module BatchFrames {
  import opened Tlv
  import opened Wrappers
  import opened NmFrames

  const MSG_INPUT_BATCH: Byte := 0

  function BatchReport(r: InputReport): seq<Byte> { Length16(1 + |r.payload|) + [r.reportId] + r.payload }

  function BatchReports(rs: seq<InputReport>): seq<Byte> {
    if |rs| == 0 then [] else BatchReport(rs[0]) + BatchReports(rs[1..])
  }

  function BatchFrame(rs: seq<InputReport>): seq<Byte> { [MSG_INPUT_BATCH] + BatchReports(rs) }

  predicate BatchFit(rs: seq<InputReport>) { forall i :: 0 <= i < |rs| ==> |rs[i].payload| <= 0xFFFE }

  method WriteBatchFrame(reports: seq<InputReport>) returns (out: seq<Byte>)
    ensures out == BatchFrame(reports)
  {
    hide BatchReport;
    out := [MSG_INPUT_BATCH];
    for i := 0 to |reports|
      invariant out + BatchReports(reports[i..]) == BatchFrame(reports)
    {
      ghost var before, rest := out, BatchReports(reports[i..][1..]);
      var len: U16 := (1 + |reports[i].payload|) % 0x1_0000;
      out := out + [len % 256];
      out := out + [len / 256 % 256];
      out := out + [reports[i].reportId];
      out := out + reports[i].payload;
      BatchAppended(before, reports[i], rest, out);
      assert reports[i..][1..] == reports[i + 1..];
    }
    assert reports[|reports|..] == [];
    assert out + [] == out;
  }

  lemma BatchAppended(before: seq<Byte>, r: InputReport, rest: seq<Byte>, out: seq<Byte>)
    requires var len := (1 + |r.payload|) % 0x1_0000;
             out == before + [len % 256] + [len / 256 % 256] + [r.reportId] + r.payload
    ensures out + rest == before + (BatchReport(r) + rest)
  {
    var len: U16 := (1 + |r.payload|) % 0x1_0000;
    assert Length16(1 + |r.payload|) == [len % 256] + [len / 256 % 256];
  }

  // ---------- the page's parser ----------

  /** What the page gets: no buffer for an empty payload. */
  datatype PageReport = PageReport(reportId: Byte, data: Option<seq<Byte>>)

  function ToPage(r: InputReport): PageReport {
    PageReport(r.reportId, if |r.payload| > 0 then Some(r.payload) else None)
  }

  function ToPages(rs: seq<InputReport>): seq<PageReport> {
    if |rs| == 0 then [] else [ToPage(rs[0])] + ToPages(rs[1..])
  }

  function ParseInput(batch: seq<Byte>, offset: nat): seq<PageReport>
    decreases |batch| - offset
  {
    if offset + 1 >= |batch| then []
    else
      var len: nat := FromLe16(batch[offset], batch[offset + 1]);
      if len == 0 || offset + 2 + len > |batch| then []
      else
        [ToPage(InputReport(batch[offset + 2], batch[offset + 3..offset + 2 + len]))]
        + ParseInput(batch, offset + 2 + len)
  }

  /** One step of the parser. */
  lemma ParseOne(batch: seq<Byte>, offset: nat)
    requires offset + 1 < |batch|
    ensures var len: nat := FromLe16(batch[offset], batch[offset + 1]);
            ParseInput(batch, offset)
            == if len == 0 || offset + 2 + len > |batch| then []
               else [ToPage(InputReport(batch[offset + 2], batch[offset + 3..offset + 2 + len]))]
                    + ParseInput(batch, offset + 2 + len)
  {
    hide ToPage, FromLe16;
  }

  method ParseInputReports(batch: seq<Byte>, start: nat) returns (reports: seq<PageReport>)
    ensures reports == ParseInput(batch, start)
  {
    hide FromLe16, ParseInput, ToPage;
    reports := [];
    var offset := start;
    while offset + 1 < |batch|
      invariant reports + ParseInput(batch, offset) == ParseInput(batch, start)
      decreases |batch| - offset
    {
      ParseOne(batch, offset);
      var len: nat := FromLe16(batch[offset], batch[offset + 1]);
      offset := offset + 2;
      if len == 0 || offset + len > |batch| {
        assert reports + [] == reports;
        return;
      }
      var reportId := batch[offset];
      var payloadLen := len - 1;
      ghost var before, rest := reports, ParseInput(batch, offset + len);
      PageOf(reportId, batch[offset + 1..offset + len]);
      if payloadLen > 0 {
        reports := reports + [PageReport(reportId, Some(batch[offset + 1..offset + len]))];
      } else {
        reports := reports + [PageReport(reportId, None)];
      }
      ReadAppended(before, ToPage(InputReport(reportId, batch[offset + 1..offset + len])), rest);
      offset := offset + len;
    }
    NothingLeft(batch, offset);
    assert reports + [] == reports;
  }

  lemma PageOf(reportId: Byte, payload: seq<Byte>)
    ensures ToPage(InputReport(reportId, payload))
         == if |payload| > 0 then PageReport(reportId, Some(payload)) else PageReport(reportId, None)
  {
  }

  lemma ReadAppended(before: seq<PageReport>, page: PageReport, rest: seq<PageReport>)
    ensures before + [page] + rest == before + ([page] + rest)
  {
  }

  lemma NothingLeft(batch: seq<Byte>, offset: nat)
    requires offset + 1 >= |batch|
    ensures ParseInput(batch, offset) == []
  {
  }

  // ---------- the round trip ----------

  lemma BatchHead(pre: seq<Byte>, r: InputReport, rest: seq<Byte>)
    ensures var bytes, c := pre + (BatchReport(r) + rest), |pre|;
            && c + 3 + |r.payload| <= |bytes| && bytes[c + 2] == r.reportId
            && FromLe16(bytes[c], bytes[c + 1]) == (1 + |r.payload|) % 0x1_0000
            && bytes[c + 3..c + 3 + |r.payload|] == r.payload
            && bytes == pre + BatchReport(r) + rest && |pre + BatchReport(r)| == c + 3 + |r.payload|
  {
    var bytes, c := pre + (BatchReport(r) + rest), |pre|;
    assert bytes == pre + BatchReport(r) + rest;
    assert BatchReport(r)[..2] == Length16(1 + |r.payload|);
    assert bytes[c] == BatchReport(r)[0] && bytes[c + 1] == BatchReport(r)[1];
    assert BatchReport(r)[3..] == r.payload;
    assert bytes[c + 3..c + 3 + |r.payload|] == BatchReport(r)[3..];
  }

  lemma ParseInputAt(bytes: seq<Byte>, c: nat, r: InputReport)
    requires c + 3 + |r.payload| <= |bytes| && bytes[c + 2] == r.reportId
    requires bytes[c + 3..c + 3 + |r.payload|] == r.payload
    requires FromLe16(bytes[c], bytes[c + 1]) == (1 + |r.payload|) % 0x1_0000
    ensures |r.payload| <= 0xFFFE ==> ParseInput(bytes, c) == [ToPage(r)] + ParseInput(bytes, c + 3 + |r.payload|)
    ensures |r.payload| > 0xFFFE && |ParseInput(bytes, c)| > 0 ==> ParseInput(bytes, c)[0] != ToPage(r)
  {
    hide FromLe16;
  }

  lemma ParseInputStep(pre: seq<Byte>, r: InputReport, rest: seq<Byte>)
    ensures var bytes := pre + (BatchReport(r) + rest);
            && bytes == pre + BatchReport(r) + rest
            && (|r.payload| <= 0xFFFE
                ==> ParseInput(bytes, |pre|) == [ToPage(r)] + ParseInput(bytes, |pre + BatchReport(r)|))
            && (|r.payload| > 0xFFFE && |ParseInput(bytes, |pre|)| > 0 ==> ParseInput(bytes, |pre|)[0] != ToPage(r))
  {
    hide BatchReport, FromLe16, ParseInput;
    BatchHead(pre, r, rest);
    ParseInputAt(pre + (BatchReport(r) + rest), |pre|, r);
  }

  /** The page's parser gives back exactly the batch, if and only if every payload leaves room for
      its id in sixteen bits. */
  lemma {:induction false} ParseBatch(pre: seq<Byte>, rs: seq<InputReport>)
    ensures ParseInput(pre + BatchReports(rs), |pre|) == ToPages(rs) <==> BatchFit(rs)
    decreases |rs|
  {
    hide BatchReport, ParseInput, BatchFit, ToPage;
    if |rs| == 0 {
      NothingParsed(pre);
    } else {
      var r := rs[0];
      ParseInputStep(pre, r, BatchReports(rs[1..]));
      BatchFitTail(rs);
      if |r.payload| <= 0xFFFE {
        ParseBatch(pre + BatchReport(r), rs[1..]);
        SamePageTail(ToPage(r), ParseInput(pre + BatchReports(rs), |pre + BatchReport(r)|), ToPages(rs[1..]));
      }
    }
  }

  lemma NothingParsed(pre: seq<Byte>)
    ensures ParseInput(pre + BatchReports([]), |pre|) == [] && BatchFit([])
  {
  }

  lemma BatchFitTail(rs: seq<InputReport>)
    requires |rs| > 0
    ensures BatchFit(rs) <==> |rs[0].payload| <= 0xFFFE && BatchFit(rs[1..])
  {
    if |rs[0].payload| <= 0xFFFE && BatchFit(rs[1..]) {
      forall i | 0 <= i < |rs| ensures |rs[i].payload| <= 0xFFFE { if i > 0 { assert rs[i] == rs[1..][i - 1]; } }
    }
  }

  lemma SamePageTail(r: PageReport, a: seq<PageReport>, b: seq<PageReport>)
    ensures [r] + a == [r] + b <==> a == b
  {
    if [r] + a == [r] + b { assert ([r] + a)[1..] == a && ([r] + b)[1..] == b; }
  }

  /** A whole frame, parsed after its type byte. */
  lemma BatchRoundTrip(rs: seq<InputReport>)
    ensures ParseInput(BatchFrame(rs), 1) == ToPages(rs) <==> BatchFit(rs)
  {
    hide ParseInput, BatchReports;
    ParseBatch([MSG_INPUT_BATCH], rs);
  }
}
