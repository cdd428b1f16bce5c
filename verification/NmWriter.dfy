/** The writer of the native-messaging channel: it merges queued input frames of one device into one
    frame before writing it. The receiver and the writer may fail at any time. */
module NmWriter {
  import opened Wrappers
  import opened Tlv
  import opened NmFrames

  const NM_INPUT_BATCH_LIMIT := 8
  const NM_INPUT_BATCH_MAX_BYTES := 512 * 1024

  datatype NmMessage = PackedData(data: seq<Byte>) | Control(id: nat)

  predicate IsInput(m: NmMessage) { m.PackedData? && |m.data| > 0 && m.data[0] == PKG_INPUT_REPORT }

  predicate Mergeable(first: NmMessage, next: NmMessage) {
    && IsInput(first) && IsInput(next) && |first.data| >= 5 && |next.data| >= 5
    && first.data[1..5] == next.data[1..5] && |first.data| + |next.data| - 5 <= NM_INPUT_BATCH_MAX_BYTES
  }

  function Merged(first: NmMessage, next: NmMessage): NmMessage
    requires Mergeable(first, next)
  {
    PackedData(first.data + next.data[5..])
  }

  // ---------- groups of queued messages that leave as one ----------

  /** Queued messages that were merged one after another into the first of them. */
  predicate Group(g: seq<NmMessage>)
    decreases |g|, 0
  {
    |g| > 0 && (|g| > 1 ==> Group(g[..|g| - 1]) && Mergeable(MergeAll(g[..|g| - 1]), g[|g| - 1]))
  }

  function MergeAll(g: seq<NmMessage>): NmMessage
    requires Group(g)
    decreases |g|, 1
  {
    if |g| == 1 then g[0] else Merged(MergeAll(g[..|g| - 1]), g[|g| - 1])
  }

  predicate Groups(gs: seq<seq<NmMessage>>) {
    forall i :: 0 <= i < |gs| ==> Group(gs[i]) && |gs[i]| <= 8
  }

  function MergedAll(gs: seq<seq<NmMessage>>): (ms: seq<NmMessage>)
    requires Groups(gs)
    ensures |ms| == |gs| && forall i :: 0 <= i < |gs| ==> ms[i] == MergeAll(gs[i])
  {
    seq(|gs|, i requires 0 <= i < |gs| => MergeAll(gs[i]))
  }

  function Flatten<T>(gs: seq<seq<T>>): seq<T> {
    if |gs| == 0 then [] else Flatten(gs[..|gs| - 1]) + gs[|gs| - 1]
  }

  /** A merged frame holds one device's reports and at most 512 KiB. */
  lemma {:induction false} GroupBounds(g: seq<NmMessage>)
    requires Group(g) && |g| > 1
    ensures MergeAll(g).PackedData? && |MergeAll(g).data| <= 512 * 1024
    ensures forall i :: 0 <= i < |g| ==> IsInput(g[i]) && |g[i].data| >= 5 && g[i].data[..5] == MergeAll(g).data[..5]
  {
    var n := |g| - 1;
    var first := MergeAll(g[..n]);
    assert MergeAll(g).data[..5] == first.data[..5];
    assert g[n].data[..5] == [PKG_INPUT_REPORT] + g[n].data[1..5];
    assert first.data[..5] == [PKG_INPUT_REPORT] + first.data[1..5];
    if n > 1 {
      GroupBounds(g[..n]);
      forall i | 0 <= i < |g| ensures IsInput(g[i]) && |g[i].data| >= 5 && g[i].data[..5] == MergeAll(g).data[..5] {
        if i < n { assert g[..n][i] == g[i]; }
      }
    }
  }

  // ---------- what messages mean to the pages ----------

  datatype Event = Arrived(deviceId: U32, report: InputReport) | Passed(message: NmMessage)

  function Tagged(deviceId: U32, rs: seq<InputReport>): (es: seq<Event>)
    ensures |es| == |rs|
  {
    seq(|rs|, i requires 0 <= i < |rs| => Arrived(deviceId, rs[i]))
  }

  /** An input frame means its reports, one by one; every other message means itself. */
  function Meaning(m: NmMessage): seq<Event> {
    if !IsInput(m) then [Passed(m)]
    else if |m.data| < 8 then []
    else Tagged(DeviceOf(m.data), ParseReports(m.data, 5))
  }

  function MeaningOf(ms: seq<NmMessage>): seq<Event> {
    if |ms| == 0 then [] else MeaningOf(ms[..|ms| - 1]) + Meaning(ms[|ms| - 1])
  }

  /** An input frame that was packed from reports whose lengths fit. */
  ghost predicate WellFormed(m: NmMessage) {
    IsInput(m) ==> exists d: U32, rs: seq<InputReport> :: Fit(rs) && m.data == Frame(d, rs)
  }

  lemma FrameMeaning(d: U32, rs: seq<InputReport>)
    requires Fit(rs)
    ensures IsInput(PackedData(Frame(d, rs))) && Meaning(PackedData(Frame(d, rs))) == Tagged(d, rs)
  {
    hide Frame, Dispatched, ParseReports, DeviceOf, Tagged;
    DeviceBack(d, rs);
    FrameDispatch(d, rs);
    if |rs| == 0 { assert |Frame(d, rs)| == 5 by { ShortFrame(d); } }
  }

  lemma ShortFrame(d: U32)
    ensures |Frame(d, [])| == 5
  {
  }

  lemma FrameDispatch(d: U32, rs: seq<InputReport>)
    requires Fit(rs)
    ensures ParseReports(Frame(d, rs), 5) == rs
  {
    hide PackReports, ParseReports;
    DeviceBack(d, rs);
    ParsePacked(Header(d), rs);
  }

  /** Frames of reports merge exactly when they are of one device and all their reports together make
      a frame within the limit. */
  lemma FramesMergeIff(d: U32, rs: seq<InputReport>, e: U32, qs: seq<InputReport>)
    ensures Mergeable(PackedData(Frame(d, rs)), PackedData(Frame(e, qs)))
       <==> d == e && |Frame(d, rs + qs)| <= 512 * 1024
  {
    hide Frame;
    FrameStarts(d, rs);
    FrameStarts(e, qs);
    DeviceBack(d, rs);
    DeviceBack(e, qs);
    JoinFrames(d, rs, qs);
    if Frame(d, rs)[1..5] == Frame(e, qs)[1..5] { SameDevice(d, rs, e, qs); }
    SameHeader(d, rs, qs);
  }

  lemma FrameStarts(d: U32, rs: seq<InputReport>)
    ensures IsInput(PackedData(Frame(d, rs)))
  {
    hide PackReports;
  }

  lemma SameHeader(d: U32, rs: seq<InputReport>, qs: seq<InputReport>)
    requires |Frame(d, rs)| >= 5 && |Frame(d, qs)| >= 5
    ensures Frame(d, rs)[1..5] == Frame(d, qs)[1..5]
  {
    hide PackReports, Le32;
    DeviceBack(d, rs);
    assert Frame(d, rs)[..5] == Header(d) == Frame(d, qs)[..5];
    assert Frame(d, rs)[1..5] == Frame(d, rs)[..5][1..] && Frame(d, qs)[1..5] == Frame(d, qs)[..5][1..];
  }

  lemma MergeKeepsMeaning(first: NmMessage, next: NmMessage)
    requires Mergeable(first, next) && WellFormed(first) && WellFormed(next)
    ensures WellFormed(Merged(first, next)) && Meaning(Merged(first, next)) == Meaning(first) + Meaning(next)
  {
    hide Fit, Frame, Meaning, PackReports;
    var d, rs :| Fit(rs) && first.data == Frame(d, rs);
    var e, qs :| Fit(qs) && next.data == Frame(e, qs);
    SameDevice(d, rs, e, qs);
    JoinFrames(d, rs, qs);
    FitJoin(rs, qs);
    FrameMeaning(d, rs);
    FrameMeaning(d, qs);
    FrameMeaning(d, rs + qs);
    assert Tagged(d, rs + qs) == Tagged(d, rs) + Tagged(d, qs);
  }

  lemma SameDevice(d: U32, rs: seq<InputReport>, e: U32, qs: seq<InputReport>)
    requires |Frame(d, rs)| >= 5 && |Frame(e, qs)| >= 5 && Frame(d, rs)[1..5] == Frame(e, qs)[1..5]
    ensures d == e
  {
    hide Frame;
    DeviceBack(d, rs);
    DeviceBack(e, qs);
    var a, b := Frame(d, rs), Frame(e, qs);
    assert a[1] == a[1..5][0] && a[2] == a[1..5][1] && a[3] == a[1..5][2] && a[4] == a[1..5][3];
    assert b[1] == b[1..5][0] && b[2] == b[1..5][1] && b[3] == b[1..5][2] && b[4] == b[1..5][3];
  }

  lemma JoinFrames(d: U32, rs: seq<InputReport>, qs: seq<InputReport>)
    ensures |Frame(d, qs)| >= 5 && Frame(d, rs) + Frame(d, qs)[5..] == Frame(d, rs + qs)
  {
    hide PackReports;
    DeviceBack(d, qs);
    PackJoin(rs, qs);
    assert Frame(d, qs)[5..] == PackReports(qs);
  }

  lemma FitJoin(rs: seq<InputReport>, qs: seq<InputReport>)
    requires Fit(rs) && Fit(qs)
    ensures Fit(rs + qs)
  {
  }

  lemma {:induction false} GroupKeepsMeaning(g: seq<NmMessage>)
    requires Group(g) && forall i :: 0 <= i < |g| ==> WellFormed(g[i])
    ensures WellFormed(MergeAll(g)) && Meaning(MergeAll(g)) == MeaningOf(g)
    decreases |g|
  {
    hide WellFormed, Meaning, Mergeable, Merged;
    var n := |g| - 1;
    if n == 0 {
      assert MeaningOf(g[..0]) == [];
    } else {
      GroupKeepsMeaning(g[..n]);
      MergeKeepsMeaning(MergeAll(g[..n]), g[n]);
    }
  }

  lemma {:induction false} MeaningJoin(a: seq<NmMessage>, b: seq<NmMessage>)
    ensures MeaningOf(a + b) == MeaningOf(a) + MeaningOf(b)
    decreases |b|
  {
    hide Meaning;
    if |b| == 0 {
      assert a + b == a;
    } else {
      assert (a + b)[..|a + b| - 1] == a + b[..|b| - 1];
      MeaningJoin(a, b[..|b| - 1]);
    }
  }

  /** However the queue was grouped, the frames written mean what the queued messages meant, in
      order. */
  lemma {:induction false} GroupingKeepsMeaning(gs: seq<seq<NmMessage>>)
    requires Groups(gs) && forall i :: 0 <= i < |Flatten(gs)| ==> WellFormed(Flatten(gs)[i])
    ensures MeaningOf(MergedAll(gs)) == MeaningOf(Flatten(gs))
    decreases |gs|
  {
    hide WellFormed, Meaning, Group, MergeAll;
    if |gs| > 0 {
      var n := |gs| - 1;
      var most, last := Flatten(gs[..n]), gs[n];
      assert Flatten(gs) == most + last;
      forall i | 0 <= i < |most| ensures WellFormed(most[i]) { assert (most + last)[i] == most[i]; }
      forall i | 0 <= i < |last| ensures WellFormed(last[i]) { assert (most + last)[|most| + i] == last[i]; }
      GroupingKeepsMeaning(gs[..n]);
      GroupKeepsMeaning(last);
      MeaningJoin(most, last);
      assert MergedAll(gs)[..n] == MergedAll(gs[..n]);
    }
  }

  // ---------- the writer ----------

  class Receiver {
    var queue: seq<NmMessage>
    /** How often there was nothing to receive without waiting. */
    ghost var misses: nat

    /** A message may not have arrived yet. */
    method TryRecv() returns (m: Option<NmMessage>)
      modifies this
      ensures if m.Some? then old(queue) == [m.value] + queue else queue == old(queue)
      ensures misses == old(misses) + if m.Some? then 0 else 1
    {
      var arrived: bool := *;
      if |queue| > 0 && arrived {
        m := Some(queue[0]);
        queue := queue[1..];
      } else {
        m, misses := None, misses + 1;
      }
    }

    /** Waits for a message; none comes when the channel is closed and empty. */
    method BlockingRecv() returns (m: Option<NmMessage>)
      modifies this
      ensures if m.Some? then old(queue) == [m.value] + queue else queue == old(queue) == []
    {
      if |queue| > 0 {
        m := Some(queue[0]);
        queue := queue[1..];
      } else {
        m := None;
      }
    }
  }

  class Writer {
    var written: seq<NmMessage>

    method WriteMessage(m: NmMessage) returns (ok: bool)
      modifies this
      ensures written == if ok then old(written) + [m] else old(written)
    {
      ok := *;
      if ok { written := written + [m]; }
    }
  }

  method MergeNmInputFrame(first: NmMessage, next: NmMessage) returns (ok: bool, merged: NmMessage)
    ensures ok == Mergeable(first, next)
    ensures merged == if ok then Merged(first, next) else first
  {
    merged := first;
    if first.Control? || next.Control? { return false, merged; }
    if |first.data| < 5 || |next.data| < 5 || first.data[0] != PKG_INPUT_REPORT || next.data[0] != PKG_INPUT_REPORT
      || first.data[1..5] != next.data[1..5] || |first.data| + |next.data| - 5 > NM_INPUT_BATCH_MAX_BYTES {
      return false, merged;
    }
    merged := PackedData(first.data + next.data[5..]);
    ok := true;
  }

  function Held(deferred: Option<NmMessage>): seq<NmMessage> { if deferred.Some? then [deferred.value] else [] }

  /** Takes queued input frames into the first until the limit is reached, none is there without
      waiting, or one does not merge. */
  method CoalesceQueuedNmInput(message: NmMessage, receiver: Receiver)
    returns (result: NmMessage, deferred: Option<NmMessage>, ghost group: seq<NmMessage>)
    modifies receiver
    ensures Group(group) && |group| <= 8 && result == MergeAll(group)
    ensures [message] + old(receiver.queue) == group + Held(deferred) + receiver.queue
    ensures !IsInput(message) ==> group == [message] && deferred.None?
    ensures deferred.Some? ==> !Mergeable(result, deferred.value)
    ensures IsInput(message) && |group| < 8 && deferred.None? ==>
              receiver.misses > old(receiver.misses)
  {
    hide Mergeable, Merged, IsInput;
    result, deferred, group := message, None, [message];
    if !IsInput(message) { return; }
    var n := 1;
    while n < NM_INPUT_BATCH_LIMIT
      invariant Group(group) && |group| == n <= NM_INPUT_BATCH_LIMIT && result == MergeAll(group)
      invariant [message] + old(receiver.queue) == group + receiver.queue && deferred.None?
      invariant receiver.misses == old(receiver.misses)
    {
      var next := receiver.TryRecv();
      if next.None? { break; }
      var ok;
      ok, result := MergeNmInputFrame(result, next.value);
      if !ok {
        deferred := next;
        break;
      }
      assert (group + [next.value])[..n] == group;
      group := group + [next.value];
      n := n + 1;
    }
  }

  /** Every queued message ends in exactly one group, in order; each group is written as one frame.
      Only when the writer was cancelled or broke is anything left over. Where the queued messages
      are well formed, what was written means what they meant, in order, up to what is left over. */
  method RunSyncWriter(receiver: Receiver, writer: Writer)
    returns (stopped: bool, ghost groups: seq<seq<NmMessage>>, ghost lost: seq<NmMessage>)
    requires receiver as object != writer
    modifies receiver, writer
    ensures Groups(groups) && writer.written == old(writer.written) + MergedAll(groups)
    ensures old(receiver.queue) == Flatten(groups) + lost + receiver.queue
    ensures !stopped ==> lost == [] && receiver.queue == []
    ensures AllWellFormed(old(receiver.queue)) ==>
              MeaningOf(writer.written[|old(writer.written)|..]) + MeaningOf(lost + receiver.queue)
              == MeaningOf(old(receiver.queue))
    ensures !stopped && AllWellFormed(old(receiver.queue)) ==>
              MeaningOf(writer.written[|old(writer.written)|..]) == MeaningOf(old(receiver.queue))
  {
    hide Group, Groups, MergeAll, MergedAll, Flatten, MeaningOf, AllWellFormed;
    stopped, groups, lost := false, [], [];
    var deferred: Option<NmMessage> := None;
    NoGroups();
    assert writer.written + [] == writer.written;
    ghost var before, start := writer.written, receiver.queue;
    assert start == [] + start;
    while true
      invariant Groups(groups) && writer.written == before + MergedAll(groups)
      invariant start == Flatten(groups) + (Held(deferred) + receiver.queue)
      invariant !stopped && lost == []
      decreases |Held(deferred)| + |receiver.queue|
    {
      var msg := deferred;
      ghost var rest := Held(deferred) + receiver.queue;
      deferred := None;
      if msg.None? { msg := receiver.BlockingRecv(); }
      if msg.None? {
        assert Flatten(groups) + rest == Flatten(groups) + lost + receiver.queue;
        break;
      }
      assert rest == [msg.value] + receiver.queue;
      var cancelled: bool := *;
      if cancelled {
        stopped, lost := true, [msg.value];
        Regroup(Flatten(groups), lost, receiver.queue);
        break;
      }
      var frame;
      ghost var group;
      frame, deferred, group := CoalesceQueuedNmInput(msg.value, receiver);
      Regroup(group, Held(deferred), receiver.queue);
      var ok := writer.WriteMessage(frame);
      if !ok {
        stopped, lost := true, group + Held(deferred);
        Regroup(Flatten(groups), lost, receiver.queue);
        break;
      }
      GroupAdded(groups, group);
      Regroup(Flatten(groups), group, Held(deferred) + receiver.queue);
      Regroup(before, MergedAll(groups), [frame]);
      groups := groups + [group];
    }
    assert writer.written[|before|..] == MergedAll(groups);
    WrittenMeans(groups, lost + receiver.queue, start);
  }

  ghost predicate AllWellFormed(ms: seq<NmMessage>) { forall i :: 0 <= i < |ms| ==> WellFormed(ms[i]) }

  /** The frames of the groups mean what all but the messages left over meant. */
  lemma WrittenMeans(gs: seq<seq<NmMessage>>, left: seq<NmMessage>, all: seq<NmMessage>)
    requires Groups(gs) && Flatten(gs) + left == all
    ensures AllWellFormed(all) ==> MeaningOf(MergedAll(gs)) + MeaningOf(left) == MeaningOf(all)
    ensures AllWellFormed(all) && left == [] ==> MeaningOf(MergedAll(gs)) == MeaningOf(all)
  {
    hide Groups, MergedAll, Flatten, WellFormed, Meaning;
    if AllWellFormed(all) {
      forall i | 0 <= i < |Flatten(gs)| ensures WellFormed(Flatten(gs)[i]) { assert all[i] == Flatten(gs)[i]; }
      GroupingKeepsMeaning(gs);
      MeaningJoin(Flatten(gs), left);
      assert Flatten(gs) + [] == Flatten(gs);
    }
  }

  lemma Regroup<T>(a: seq<T>, b: seq<T>, c: seq<T>)
    ensures a + b + c == a + (b + c)
  {
  }

  lemma NoGroups()
    ensures Groups([]) && MergedAll([]) == [] && Flatten<NmMessage>([]) == []
  {
  }

  lemma GroupAdded(gs: seq<seq<NmMessage>>, g: seq<NmMessage>)
    requires Groups(gs) && Group(g) && |g| <= 8
    ensures Groups(gs + [g]) && MergedAll(gs + [g]) == MergedAll(gs) + [MergeAll(g)]
    ensures Flatten(gs + [g]) == Flatten(gs) + g && |g| > 0
  {
    assert (gs + [g])[..|gs|] == gs;
    hide MergeAll;
  }
}
