/** The task that batches a device's input reports and sends them: it polls the event channel, folds
    more reports in while a short window lasts, and flushes the batch as one frame. What the
    channel, the clock, the transport and the cancellation answer is arbitrary; a run is cut where
    its script of answers ends. */
module Sender {
  import opened Tlv
  import opened NmFrames
  import opened BatchFrames

  datatype Event = Input(deviceId: U32, report: InputReport) | OtherEvent

  /** What the channel hands over. */
  datatype Received = Got(event: Event) | Lagged | Closed

  /** What one poll may answer: something from the channel, nothing yet, the end of the current
      interval, or the signal to stop. */
  datatype Answer = Channel(received: Received) | Empty | Timer | Stop

  function EventsIn(r: Received): seq<Event> { if r.Got? then [r.event] else [] }

  /** The events among the answers. */
  function EventsOf(answers: seq<Answer>): seq<Event> {
    if |answers| == 0 then []
    else
      var last := answers[|answers| - 1];
      EventsOf(answers[..|answers| - 1]) + if last.Channel? then EventsIn(last.received) else []
  }

  function ReportsFor(deviceId: U32, es: seq<Event>): seq<InputReport> {
    if |es| == 0 then []
    else
      var e := es[|es| - 1];
      ReportsFor(deviceId, es[..|es| - 1]) + if e.Input? && e.deviceId == deviceId then [e.report] else []
  }

  function Joined(batches: seq<seq<InputReport>>): seq<InputReport> {
    if |batches| == 0 then [] else Joined(batches[..|batches| - 1]) + batches[|batches| - 1]
  }

  function Frames(batches: seq<seq<InputReport>>): seq<seq<Byte>> {
    seq(|batches|, i requires 0 <= i < |batches| => BatchFrame(batches[i]))
  }

  /** The index of the last timer among the answers, 0 if there is none. */
  function LastTimer(answers: seq<Answer>): (k: nat)
    ensures k <= |answers|
  {
    if |answers| == 0 then 0
    else if answers[|answers| - 1] == Timer then |answers| - 1
    else LastTimer(answers[..|answers| - 1])
  }

  class BatchSender {
    const deviceId: U32
    ghost const whole: seq<Answer>
    /** What is still to be answered to this sender, and what was answered. */
    var script: seq<Answer>
    ghost var answered: seq<Answer>
    var batch: seq<InputReport>
    /** The frames the transport took, and how often it took none or was no longer valid. */
    var sent: seq<seq<Byte>>
    ghost var refusals: nat
    ghost var batches: seq<seq<InputReport>>
    ghost var taken: seq<Event>

    constructor (deviceId: U32, script: seq<Answer>)
      ensures this.deviceId == deviceId && whole == this.script == script && Valid() && batch == [] && sent == []
      ensures refusals == 0
    {
      this.deviceId := deviceId;
      this.script, whole := script, script;
      batch, sent, refusals := [], [], 0;
      answered, batches, taken := [], [], [];
    }

    /** Every report taken from the channel for this device is in a sent frame or in the batch, in
        order and once. */
    ghost predicate Conserved()
      reads this
    {
      && answered + script == whole
      && sent == Frames(batches) && Joined(batches) + batch == ReportsFor(deviceId, taken)
      && forall i :: 0 <= i < |batches| ==> batches[i] != []
    }

    /** And everything the channel handed over was taken. */
    ghost predicate Valid()
      reads this
    {
      Conserved() && taken == EventsOf(answered)
    }

    /** Every report that was handed over before the last timer has been sent. */
    ghost predicate Prompt()
      reads this
    {
      ReportsFor(deviceId, EventsOf(answered[..LastTimer(answered)])) <= Joined(batches)
    }

    /** The last answer told the sender to stop, or the channel was closed. */
    ghost predicate Told()
      reads this
    {
      |answered| > 0 && answered[|answered| - 1] in {Stop, Channel(Closed)}
    }

    // ---------- the transport ----------

    method Alive() returns (alive: bool)
      modifies this`refusals
      ensures refusals == old(refusals) + if alive then 0 else 1
    {
      alive := *;
      if !alive { refusals := refusals + 1; }
    }

    method Transmit(frame: seq<Byte>) returns (ok: bool)
      modifies this`sent, this`refusals
      ensures sent == if ok then old(sent) + [frame] else old(sent)
      ensures refusals == old(refusals) + if ok then 0 else 1
    {
      ok := *;
      if ok { sent := sent + [frame]; } else { refusals := refusals + 1; }
    }

    // ---------- the sender ----------

    /** The next answer; its event still has to be taken. */
    method Poll() returns (answer: Answer)
      requires Valid() && |script| > 0
      modifies this`script, this`answered
      ensures old(script) == [answer] + script && answered == old(answered) + [answer] && Conserved()
      ensures EventsOf(answered) == taken + if answer.Channel? then EventsIn(answer.received) else []
      ensures !answer.Channel? || answer.received == Closed ==> Valid()
      ensures old(Prompt()) && answer != Timer ==> Prompt()
    {
      answer := script[0];
      OneMoreAnswer(answered, answer);
      LaterAnswer(answered, answer);
      assert answered + script == answered + [answer] + script[1..];
      script, answered := script[1..], answered + [answer];
    }

    /** All of the batch goes out as one frame, or the transport said no and nothing changes. */
    method FlushBatch() returns (ok: bool)
      requires Conserved()
      modifies this`batch, this`sent, this`batches, this`refusals
      ensures Conserved()
      ensures ok ==> batch == [] && batches == old(batches) + (if old(batch) == [] then [] else [old(batch)])
      ensures !ok ==> batch == old(batch) && sent == old(sent) && batches == old(batches)
      ensures ok <==> refusals == old(refusals)
      ensures refusals >= old(refusals)
    {
      hide Joined, Frames, ReportsFor, EventsOf, BatchFrame;
      if |batch| == 0 { return true; }
      var alive := Alive();
      if !alive { return false; }
      var frame := WriteBatchFrame(batch);
      var flushed := Transmit(frame);
      if !flushed { return false; }
      BatchSent(batches, batch);
      batches := batches + [batch];
      assert Joined(batches) + [] == Joined(batches);
      batch := [];
      ok := true;
    }

    /** A report of the device joins the batch; a lag flushes the batch. */
    method HandleEvent(received: Received) returns (ok: bool)
      requires Conserved() && EventsOf(answered) == taken + EventsIn(received)
      modifies this`batch, this`sent, this`batches, this`taken, this`refusals
      ensures Valid() && old(batches) <= batches
      ensures received == Closed ==> !ok && batch == old(batch) && batches == old(batches)
      ensures received.Got? ==> ok && batches == old(batches)
                                && batch == old(batch) + ReportsFor(deviceId, [received.event])
      ensures received == Lagged && ok ==> batch == [] && Joined(batches) == old(Joined(batches) + batch)
      ensures !ok && received != Closed ==> refusals > old(refusals)
      ensures refusals >= old(refusals)
    {
      hide Joined, Frames, ReportsFor, EventsOf;
      match received
      case Got(event) =>
        OneMoreTaken(deviceId, taken, event);
        OneReport(deviceId, event);
        taken := taken + [event];
        if event.Input? && event.deviceId == deviceId {
          assert Joined(batches) + (batch + [event.report]) == Joined(batches) + batch + [event.report];
          batch := batch + [event.report];
        }
        ok := true;
      case Lagged =>
        BatchSent(batches, batch);
        ok := FlushBatch();
        assert Joined(batches) + [] == Joined(batches);
      case Closed => ok := false;
    }

    /** Takes what is available, up to a close of the channel; a failed flush ends it without a loss. */
    method DrainAvailable()
      requires Valid() && Prompt()
      modifies this
      ensures Valid() && Prompt() && |script| <= |old(script)| && refusals >= old(refusals)
      ensures old(answered) <= answered && (answered == old(answered) || !Told())
      ensures script == [] || !script[0].Channel? || script[0].received == Closed || refusals > old(refusals)
    {
      hide Conserved, EventsOf, EventsIn, ReportsFor, Joined, LastTimer;
      while |script| > 0 && script[0].Channel? && script[0].received != Closed
        invariant Valid() && Prompt() && |script| <= |old(script)| && refusals >= old(refusals)
        invariant old(answered) <= answered && (answered == old(answered) || !Told())
        decreases |script|
      {
        var answer := Poll();
        ghost var before := batches;
        var ok := HandleEvent(answer.received);
        JoinedGrows(before, batches);
        if !ok { break; }
      }
    }

    /** The window ends with the timer, or early when the sender must stop. */
    method CoalesceWindow() returns (ok: bool)
      requires Valid() && Prompt()
      modifies this
      ensures Valid() && |script| <= |old(script)| && refusals >= old(refusals)
      ensures old(answered) <= answered && (!ok ==> Prompt())
      ensures ok ==> |answered| > 0 && answered[|answered| - 1] == Timer
      ensures !ok ==> script == [] || Told() || refusals > old(refusals)
    {
      hide Conserved, EventsOf, EventsIn, ReportsFor, Joined, LastTimer;
      while |script| > 0
        invariant Valid() && Prompt() && |script| <= |old(script)| && refusals >= old(refusals)
        invariant old(answered) <= answered
        decreases |script|
      {
        var answer := Poll();
        if answer == Timer { return true; }
        if answer == Stop { return false; }
        if answer != Empty {
          ghost var before := batches;
          var handled := HandleEvent(answer.received);
          JoinedGrows(before, batches);
          if !handled { return false; }
          DrainAvailable();
        }
      }
      ok := false;
    }

    /** The sender without a fixed interval. It waits for a new event only with an empty batch; only
        with two or more reports does it wait for a window. */
    method RunAdaptive() returns (stopped: bool)
      requires Valid() && batch == []
      modifies this
      ensures Valid() && refusals >= old(refusals)
      ensures !stopped ==> batch == [] && script == []
      ensures refusals == old(refusals) ==> Prompt()
      ensures stopped ==> script == [] || Told() || refusals > old(refusals)
      ensures stopped ==> Told() || refusals > old(refusals) || |ReportsFor(deviceId, taken)| > 1
    {
      hide Conserved, EventsOf, EventsIn, ReportsFor, Joined, LastTimer;
      EmptyIsPrompt();
      while |script| > 0
        invariant Valid() && batch == [] && Prompt() && refusals >= old(refusals)
        decreases |script|
      {
        var answer := Poll();
        if !answer.Channel? { EmptyIsPrompt(); }
        if answer == Stop { return true; }
        if !answer.Channel? { continue; }
        ghost var before := batches;
        var handled := HandleEvent(answer.received);
        JoinedGrows(before, batches);
        if !handled { return true; }
        DrainAvailable();
        BatchIsTaken();
        if |batch| > 1 {
          ghost var earlier := answered;
          var ok := CoalesceWindow();
          FewerReports(deviceId, answered, |earlier|);
          assert answered[..|earlier|] == earlier;
          if !ok { return true; }
        }
        var flushed := FlushBatch();
        if !flushed { return true; }
        EmptyIsPrompt();
      }
      stopped := false;
    }

    /** With an empty batch, everything that was handed over has been sent. */
    lemma EmptyIsPrompt()
      requires Conserved() && batch == [] && (taken == EventsOf(answered))
      ensures Prompt()
    {
      assert Joined(batches) + [] == Joined(batches);
      FewerReports(deviceId, answered, LastTimer(answered));
    }

    lemma BatchIsTaken()
      requires Conserved()
      ensures |ReportsFor(deviceId, taken)| >= |batch|
    {
      assert |Joined(batches) + batch| >= |batch|;
    }

    /** The sender that flushes at fixed intervals: with every timer the whole batch goes out. */
    method RunInterval() returns (stopped: bool)
      requires Valid() && Prompt()
      modifies this
      ensures Valid() && refusals >= old(refusals)
      ensures !stopped ==> script == []
      ensures refusals == old(refusals) ==> Prompt()
      ensures stopped ==> Told() || refusals > old(refusals)
    {
      hide Conserved, EventsOf, EventsIn, ReportsFor, Joined, LastTimer;
      while |script| > 0
        invariant Valid() && Prompt() && refusals >= old(refusals)
        decreases |script|
      {
        var answer := Poll();
        if answer == Timer {
          var flushed := FlushBatch();
          if !flushed { return true; }
          EmptyIsPrompt();
        } else if answer == Stop {
          return true;
        } else if answer != Empty {
          ghost var before := batches;
          var handled := HandleEvent(answer.received);
          JoinedGrows(before, batches);
          if !handled { return true; }
        }
      }
      stopped := false;
    }

    /** Wherever the run is cut, the frames sent and the batch pending hold, in order and once, all
        the device's reports that the channel handed over; unless the sender was stopped, everything
        in the script was handed over. Unless the transport said no, the reports that were handed over
        before the last timer are sent, and in adaptive mode, unless stopped, all of them. A sender
        that was valid at the start goes on to the end of its script, unless it is told to stop or
        the transport says no. Where the payloads fit, what the page reads from the frames and what is
        pending are these reports, in order; with nothing pending, it reads them all. */
    method RunSender(valid: bool, batchMs: nat) returns (stopped: bool)
      requires Valid() && batch == []
      modifies this
      ensures Valid() && (!stopped ==> script == [] && answered == whole)
      ensures refusals == old(refusals) ==> Prompt()
      ensures !stopped && batchMs == 0 ==> batch == []
      ensures valid ==> script == [] || Told() || refusals > old(refusals)
      ensures valid && stopped ==> Told() || refusals > old(refusals) || |ReportsFor(deviceId, taken)| > 1
      ensures var all := ReportsFor(deviceId, EventsOf(answered));
              BatchFit(all) ==> PageReads(sent) + ToPages(batch) == ToPages(all)
      ensures var all := ReportsFor(deviceId, EventsOf(whole));
              !stopped && batch == [] && BatchFit(all) ==> PageReads(sent) == ToPages(all)
      ensures var due := ReportsFor(deviceId, EventsOf(answered[..LastTimer(answered)]));
              refusals == old(refusals) && BatchFit(ReportsFor(deviceId, taken)) ==> ToPages(due) <= PageReads(sent)
    {
      hide BatchFit, ToPages, ReportsFor, EventsOf, PageReads, Frames, Joined, LastTimer;
      EmptyIsPrompt();
      SentIsRead(batches, batch);
      DueIsRead(batches, batch, ReportsFor(deviceId, EventsOf(answered[..LastTimer(answered)])));
      if !valid { return true; }
      if batchMs > 0 { stopped := RunInterval(); } else { stopped := RunAdaptive(); }
      assert answered + [] == answered;
      SentIsRead(batches, batch);
      DueIsRead(batches, batch, ReportsFor(deviceId, EventsOf(answered[..LastTimer(answered)])));
    }
  }

  lemma LaterAnswer(answered: seq<Answer>, answer: Answer)
    ensures answer != Timer ==> LastTimer(answered + [answer]) == LastTimer(answered)
                                && (answered + [answer])[..LastTimer(answered)] == answered[..LastTimer(answered)]
  {
    assert (answered + [answer])[..|answered|] == answered;
  }

  lemma OneReport(deviceId: U32, event: Event)
    ensures ReportsFor(deviceId, [event]) == if event.Input? && event.deviceId == deviceId then [event.report] else []
  {
    assert [event][..0] == [];
  }

  lemma {:induction false} JoinedGrows(a: seq<seq<InputReport>>, b: seq<seq<InputReport>>)
    requires a <= b
    ensures Joined(a) <= Joined(b)
    decreases |b|
  {
    if |a| < |b| {
      assert a <= b[..|b| - 1];
      JoinedGrows(a, b[..|b| - 1]);
    } else {
      assert a == b;
    }
  }

  /** Fewer answers hold a first part of the reports. */
  lemma {:induction false} FewerReports(deviceId: U32, answers: seq<Answer>, k: nat)
    requires k <= |answers|
    ensures ReportsFor(deviceId, EventsOf(answers[..k])) <= ReportsFor(deviceId, EventsOf(answers))
    decreases |answers|
  {
    var n := |answers| - 1;
    if k <= n {
      FewerReports(deviceId, answers[..n], k);
      assert answers[..n][..k] == answers[..k];
      var last := answers[n];
      if last.Channel? && last.received.Got? {
        OneMoreTaken(deviceId, EventsOf(answers[..n]), last.received.event);
      } else {
        assert EventsOf(answers[..n]) + [] == EventsOf(answers[..n]);
      }
    } else {
      assert answers[..k] == answers;
    }
  }

  lemma OneMoreAnswer(answered: seq<Answer>, answer: Answer)
    ensures EventsOf(answered + [answer])
         == EventsOf(answered) + if answer.Channel? then EventsIn(answer.received) else []
  {
    assert (answered + [answer])[..|answered|] == answered;
  }

  lemma BatchSent(batches: seq<seq<InputReport>>, batch: seq<InputReport>)
    ensures Joined(batches + [batch]) == Joined(batches) + batch
    ensures Frames(batches + [batch]) == Frames(batches) + [BatchFrame(batch)]
  {
    hide BatchFrame;
    assert (batches + [batch])[..|batches|] == batches;
  }

  lemma OneMoreTaken(deviceId: U32, taken: seq<Event>, event: Event)
    ensures ReportsFor(deviceId, taken + [event])
         == ReportsFor(deviceId, taken) + if event.Input? && event.deviceId == deviceId then [event.report] else []
  {
    assert (taken + [event])[..|taken|] == taken;
  }

  /** All that the page reads from a row of frames. */
  function PageReads(frames: seq<seq<Byte>>): seq<PageReport> {
    if |frames| == 0 then [] else PageReads(frames[..|frames| - 1]) + ParseInput(frames[|frames| - 1], 1)
  }

  lemma {:induction false} ToPagesJoin(a: seq<InputReport>, b: seq<InputReport>)
    ensures ToPages(a + b) == ToPages(a) + ToPages(b)
    decreases |a|
  {
    if |a| == 0 {
      assert a + b == b;
    } else {
      ToPagesJoin(a[1..], b);
      assert (a + b)[1..] == a[1..] + b;
    }
  }

  /** When the payloads fit, the page reads from the sent frames exactly the reports that were put
      into them, in order, however they were batched. */
  lemma {:induction false} PageReadsAll(batches: seq<seq<InputReport>>)
    requires BatchFit(Joined(batches))
    ensures PageReads(Frames(batches)) == ToPages(Joined(batches))
    decreases |batches|
  {
    hide ParseInput, BatchFrame, ToPages;
    if |batches| == 0 {
      NoPages();
    } else {
      var n := |batches| - 1;
      var most, last := Joined(batches[..n]), batches[n];
      FitParts(most, last);
      PageReadsAll(batches[..n]);
      BatchRoundTrip(last);
      ToPagesJoin(most, last);
      assert Frames(batches)[..n] == Frames(batches[..n]);
    }
  }

  /** What the page reads from the sent frames is all but the pending reports. */
  lemma SentIsRead(batches: seq<seq<InputReport>>, batch: seq<InputReport>)
    ensures var all := Joined(batches) + batch;
            BatchFit(all) ==> PageReads(Frames(batches)) + ToPages(batch) == ToPages(all)
    ensures batch == [] && BatchFit(Joined(batches) + batch) ==>
              PageReads(Frames(batches)) == ToPages(Joined(batches) + batch)
  {
    hide BatchFit, ToPages, PageReads, Frames, Joined;
    if BatchFit(Joined(batches) + batch) {
      FitParts(Joined(batches), batch);
      PageReadsAll(batches);
      ToPagesJoin(Joined(batches), batch);
      assert Joined(batches) + [] == Joined(batches);
    }
  }

  /** What is sent is read, up to any first part of it. */
  lemma DueIsRead(batches: seq<seq<InputReport>>, batch: seq<InputReport>, due: seq<InputReport>)
    ensures due <= Joined(batches) && BatchFit(Joined(batches) + batch) ==> ToPages(due) <= PageReads(Frames(batches))
  {
    hide BatchFit, ToPages, PageReads, Frames, Joined;
    if due <= Joined(batches) && BatchFit(Joined(batches) + batch) {
      FitParts(Joined(batches), batch);
      PageReadsAll(batches);
      assert Joined(batches) == due + Joined(batches)[|due|..];
      ToPagesJoin(due, Joined(batches)[|due|..]);
    }
  }

  lemma NoPages()
    ensures ToPages([]) == []
  {
  }

  lemma FitParts(a: seq<InputReport>, b: seq<InputReport>)
    requires BatchFit(a + b)
    ensures BatchFit(a) && BatchFit(b)
  {
    forall i | 0 <= i < |a| ensures |a[i].payload| <= 0xFFFE { assert (a + b)[i] == a[i]; }
    forall i | 0 <= i < |b| ensures |b[i].payload| <= 0xFFFE { assert (a + b)[|a| + i] == b[i]; }
  }
}
