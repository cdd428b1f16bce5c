/** The reconnecting WebTransport client as a state machine. A connection is named by the generation
    it was made in. Every promise, timer and write of any connection, old or new, may answer at any
    time; the callbacks it runs may themselves connect and disconnect, as their `calls` say. */
module WtClient {
  import opened Wrappers

  datatype Message = Message(port: nat, token: string)

  datatype Timer = Timer(id: nat, generation: nat)

  /** What the page is told of the end of a connection, and whether a reconnect is announced. */
  datatype Notice = Closed(generation: nat, willReconnect: bool) | AuthFailed(generation: nat)

  const MIN_DELAY := 500
  const MAX_DELAY := 5000

  datatype State = State(
    wt: Option<nat>, connectMsg: Option<Message>, streamWriter: Option<nat>, streamReader: Option<nat>,
    authTimer: Option<Timer>, reconnectTimer: Option<Timer>, reconnectDelay: nat,
    open: bool, closedHandled: bool, failed: bool, generation: nat, timers: nat,
    /** Every onClosed and onAuthFailed so far. */
    notices: seq<Notice>)

  const START := State(None, None, None, None, None, None, MIN_DELAY, false, true, false, 0, 0, [])

  /** What a callback does before it returns. A connect names whether the constructor succeeds and
      what the onClosed of a failing constructor does. */
  datatype Call = Connect(msg: Message, constructed: bool, onClosed: seq<Call>) | Disconnect

  /** What a callback does, and whether it then throws. A callback that does not catch what one of
      its own calls throws is one that makes no further calls and throws itself. */
  datatype Script = Script(calls: seq<Call>, throws: bool)

  predicate IsCurrent(s: State, g: nat) { s.generation == g && s.wt == Some(g) }

  /** All that a connection had is gone. */
  function Cleared(s: State): State {
    s.(wt := None, open := false, streamWriter := None, streamReader := None, closedHandled := true, authTimer := None)
  }

  function Noticed(s: State, n: Notice): State { s.(notices := s.notices + [n]) }

  /** A new generation that has no connection yet. */
  function Begun(s: State): State {
    Cleared(s).(reconnectTimer := None, generation := s.generation + 1, failed := false)
  }

  function DoConnect(s: State, constructed: bool, onClosed: seq<Call>): State
    decreases onClosed, 1
  {
    if s.connectMsg.None? then s
    else
      var t := Begun(s);
      if constructed then t.(wt := Some(t.generation), closedHandled := false)
      else Run(Noticed(t, Closed(t.generation, false)), onClosed)
  }

  function Disconnected(s: State): State {
    Cleared(s).(reconnectTimer := None, generation := s.generation + 1, failed := true, connectMsg := None)
  }

  function Apply(s: State, call: Call): State
    decreases call, 0
  {
    match call
    case Connect(msg, constructed, onClosed) => DoConnect(s.(connectMsg := Some(msg)), constructed, onClosed)
    case Disconnect => Disconnected(s)
  }

  function Run(s: State, calls: seq<Call>): State
    decreases calls, 0
  {
    if |calls| == 0 then s else Run(Apply(s, calls[0]), calls[1..])
  }

  function Min(a: nat, b: nat): nat { if a < b then a else b }

  function ScheduleReconnect(s: State, g: nat): State {
    if s.connectMsg.None? || s.reconnectTimer.Some? || s.generation != g || s.wt.Some? then s
    else
      s.(reconnectTimer := Some(Timer(s.timers, g)), timers := s.timers + 1,
         reconnectDelay := Min(s.reconnectDelay * 2, MAX_DELAY))
  }

  /** onClosed runs and, unless it throws, a reconnect is scheduled. */
  function CloseAndReconnect(s: State, g: nat, script: Script): State {
    var t := Run(Noticed(s, Closed(g, true)), script.calls);
    if script.throws then t else ScheduleReconnect(t, g)
  }

  function FailTransport(s: State, g: nat, onClosed: Script): State {
    if !IsCurrent(s, g) || s.failed || s.connectMsg.None? then s
    else CloseAndReconnect(Cleared(s).(failed := true), g, onClosed)
  }

  function HandleClosed(s: State, g: nat, script: Script): State {
    if !IsCurrent(s, g) || s.closedHandled then s
    else if !s.open || s.authTimer.Some? then Run(Noticed(Cleared(s), AuthFailed(g)), script.calls)
    else CloseAndReconnect(Cleared(s), g, script)
  }

  function ReadyResolved(s: State, g: nat): State {
    if !IsCurrent(s, g) then s
    else
      s.(open := true, reconnectDelay := MIN_DELAY, authTimer := Some(Timer(s.timers, g)), timers := s.timers + 1)
  }

  function ReadyRejected(s: State, g: nat, onAuthFailed: seq<Call>): State {
    if !IsCurrent(s, g) then s else Run(Noticed(Cleared(s), AuthFailed(g)), onAuthFailed)
  }

  function AuthTimerFired(s: State, t: Timer): State {
    if !IsCurrent(s, t.generation) || s.authTimer != Some(t) then s else s.(authTimer := None)
  }

  function ReconnectTimerFired(s: State, t: Timer, constructed: bool, onClosed: seq<Call>): State {
    if s.reconnectTimer != Some(t) then s
    else
      var u := s.(reconnectTimer := None);
      if u.connectMsg.None? || u.generation != t.generation then u else DoConnect(u, constructed, onClosed)
  }

  /** How an attempt to attach the stream ends: refused, broken at the writer, or attached; then the
      reader may or may not be had, and onReady runs and may throw. */
  datatype Attach = Refused | NoWriter | Attached(reader: bool, onReady: Script)

  function StreamAttached(s: State, g: nat, outcome: Attach, onClosed: Script): State {
    if !IsCurrent(s, g) then s
    else
      match outcome
      case Refused => FailTransport(s, g, onClosed)
      case NoWriter => FailTransport(s.(authTimer := None), g, onClosed)
      case Attached(reader, onReady) =>
        var t := s.(authTimer := None, streamWriter := Some(g),
                    streamReader := if reader then Some(g) else s.streamReader);
        var u := Run(t, onReady.calls);
        if onReady.throws && IsCurrent(u, g) then FailTransport(u, g, onClosed) else u
  }

  /** Frames of a chunk, each handed to onBinary. */
  function FramesRead(s: State, g: nat, onBinary: seq<Call>): State {
    if !IsCurrent(s, g) then s else Run(s, onBinary)
  }

  function ReadEnded(s: State, g: nat): State { if s.streamReader == Some(g) then s.(streamReader := None) else s }

  datatype Step =
    | Api(call: Call)
    | OnReady(g: nat)
    | OnReadyRejected(g: nat, calls: seq<Call>)
    | OnClosed(g: nat, script: Script)
    | OnStream(g: nat, outcome: Attach, script: Script)
    | OnAuthTimer(t: Timer)
    | OnReconnectTimer(t: Timer, constructed: bool, calls: seq<Call>)
    | OnWriteError(g: nat, script: Script)
    | OnFrames(g: nat, calls: seq<Call>)
    | OnReadEnd(g: nat)

  function Next(s: State, step: Step): State {
    match step
    case Api(call) => Apply(s, call)
    case OnReady(g) => ReadyResolved(s, g)
    case OnReadyRejected(g, calls) => ReadyRejected(s, g, calls)
    case OnClosed(g, script) => HandleClosed(s, g, script)
    case OnStream(g, outcome, script) => StreamAttached(s, g, outcome, script)
    case OnAuthTimer(t) => AuthTimerFired(s, t)
    case OnReconnectTimer(t, constructed, calls) => ReconnectTimerFired(s, t, constructed, calls)
    case OnWriteError(g, script) => FailTransport(s, g, script)
    case OnFrames(g, calls) => FramesRead(s, g, calls)
    case OnReadEnd(g) => ReadEnded(s, g)
  }

  function After(s: State, steps: seq<Step>): State {
    if |steps| == 0 then s else Next(After(s, steps[..|steps| - 1]), steps[|steps| - 1])
  }

  // ---------- what always holds ----------

  predicate ConnectionOk(s: State) {
    && (s.wt.Some? <==> !s.closedHandled)
    && (s.wt.Some? ==> s.wt.value == s.generation && s.connectMsg.Some? && !s.failed)
    && (s.open ==> s.wt.Some?)
    && (s.streamWriter.Some? ==> s.streamWriter == s.wt)
    && (s.streamReader.Some? ==> s.streamReader == s.wt)
    && (s.authTimer.Some? ==> s.wt.Some?)
  }

  predicate TimerOk(s: State) {
    && (s.reconnectTimer.Some? ==> s.wt.None? && s.connectMsg.Some?
                                     && s.reconnectTimer.value.generation == s.generation)
    && MIN_DELAY <= s.reconnectDelay <= MAX_DELAY
  }

  /** Notices are given in the order of their generations, one each, and none for a connection that
      is still there. */
  predicate NoticesOk(s: State) {
    && (forall i, j :: 0 <= i < j < |s.notices| ==> s.notices[i].generation < s.notices[j].generation)
    && (forall i :: 0 <= i < |s.notices| ==> s.notices[i].generation <= s.generation)
    && (forall i :: 0 <= i < |s.notices| ==> s.wt != Some(s.notices[i].generation))
  }

  predicate Inv(s: State) { ConnectionOk(s) && TimerOk(s) && NoticesOk(s) }

  /** Later state of the same client: generations and notices only grow, and a connection that is
      gone stays gone and gives no notice. */
  ghost predicate Later(s: State, t: State) {
    && s.generation <= t.generation && s.notices <= t.notices
    && forall i :: |s.notices| <= i < |t.notices|
                   ==> t.notices[i].generation > s.generation || s.wt == Some(t.notices[i].generation)
  }

  lemma LaterAgain(s: State, t: State, u: State)
    requires Later(s, t) && Later(t, u)
    requires t.wt.Some? && t.wt.value <= s.generation ==> t.wt == s.wt
    ensures Later(s, u)
  {
    forall i | |s.notices| <= i < |u.notices|
      ensures u.notices[i].generation > s.generation || s.wt == Some(u.notices[i].generation)
    {
      if i < |t.notices| { assert u.notices[i] == t.notices[i]; }
    }
  }

  /** Only a connection that is already there, or of a new generation, can be there later. */
  predicate NotBack(s: State, t: State) { t.wt.Some? && t.wt.value <= s.generation ==> t.wt == s.wt }

  ghost predicate Sound(s: State, t: State) { Inv(t) && Later(s, t) && NotBack(s, t) }

  lemma SoundAgain(s: State, t: State, u: State)
    requires Sound(s, t) && Sound(t, u)
    ensures Sound(s, u)
  {
    hide Inv, Later;
    LaterGeneration(s, t);
    LaterAgain(s, t, u);
  }

  lemma LaterGeneration(s: State, t: State)
    requires Later(s, t)
    ensures s.generation <= t.generation
  {
  }

  // ---------- every piece keeps it ----------

  lemma SameKeeps(s: State)
    requires Inv(s)
    ensures Sound(s, s)
  {
  }

  lemma BegunKeeps(s: State)
    requires Inv(s)
    ensures Sound(s, Begun(s)) && Sound(s, Disconnected(s))
    ensures s.connectMsg.Some? ==> Sound(s, Begun(s).(wt := Some(Begun(s).generation), closedHandled := false))
  {
  }

  lemma MessageKeeps(s: State, msg: Message)
    requires Inv(s)
    ensures Sound(s, s.(connectMsg := Some(msg)))
  {
  }

  /** The notice of the current connection, once it is cleared. */
  lemma NoticeKeeps(s: State, n: Notice, failing: bool)
    requires Inv(s) && IsCurrent(s, n.generation)
    ensures var t := if failing then Cleared(s).(failed := true) else Cleared(s); Sound(s, Noticed(t, n))
  {
    var t := if failing then Cleared(s).(failed := true) else Cleared(s);
    var u := Noticed(t, n);
    forall i, j | 0 <= i < j < |u.notices| ensures u.notices[i].generation < u.notices[j].generation {
      assert s.notices[i].generation <= s.generation;
    }
  }

  /** The notice of a generation whose connection could not be made. */
  lemma UnbornNoticeKeeps(s: State)
    requires Inv(s) && s.connectMsg.Some?
    ensures var t := Begun(s); Sound(s, Noticed(t, Closed(t.generation, false)))
  {
    var t := Begun(s);
    var u := Noticed(t, Closed(t.generation, false));
    forall i, j | 0 <= i < j < |u.notices| ensures u.notices[i].generation < u.notices[j].generation {
      assert s.notices[i].generation <= s.generation;
    }
  }

  lemma {:induction false} DoConnectKeeps(s: State, constructed: bool, onClosed: seq<Call>)
    requires Inv(s)
    ensures Sound(s, DoConnect(s, constructed, onClosed))
    decreases onClosed, 1
  {
    hide Inv, Later, NotBack, Begun, Run;
    SameKeeps(s);
    if s.connectMsg.Some? {
      BegunKeeps(s);
      if !constructed {
        var t := Begun(s);
        UnbornNoticeKeeps(s);
        RunKeeps(Noticed(t, Closed(t.generation, false)), onClosed);
        SoundAgain(s, Noticed(t, Closed(t.generation, false)), Run(Noticed(t, Closed(t.generation, false)), onClosed));
      }
    }
  }

  lemma {:induction false} ApplyKeeps(s: State, call: Call)
    requires Inv(s)
    ensures Sound(s, Apply(s, call))
    decreases call, 0
  {
    hide Inv, Later, NotBack, DoConnect, Disconnected;
    BegunKeeps(s);
    if call.Connect? {
      var t := s.(connectMsg := Some(call.msg));
      MessageKeeps(s, call.msg);
      DoConnectKeeps(t, call.constructed, call.onClosed);
      SoundAgain(s, t, DoConnect(t, call.constructed, call.onClosed));
    }
  }

  /** Whatever a callback does. */
  lemma {:induction false} RunKeeps(s: State, calls: seq<Call>)
    requires Inv(s)
    ensures Sound(s, Run(s, calls))
    decreases calls, 0
  {
    hide Inv, Later, NotBack, Apply;
    SameKeeps(s);
    if |calls| > 0 {
      ApplyKeeps(s, calls[0]);
      RunKeeps(Apply(s, calls[0]), calls[1..]);
      SoundAgain(s, Apply(s, calls[0]), Run(s, calls));
    }
  }

  lemma ScheduleKeeps(s: State, g: nat)
    requires Inv(s)
    ensures Sound(s, ScheduleReconnect(s, g))
  {
  }

  /** From the state `c` in which connection `g` was cleared. */
  lemma CloseKeeps(s: State, c: State, g: nat, script: Script)
    requires Sound(s, Noticed(c, Closed(g, true)))
    ensures Sound(s, CloseAndReconnect(c, g, script))
  {
    hide Inv, Later, NotBack, Run, ScheduleReconnect, Noticed;
    var n := Noticed(c, Closed(g, true));
    var t := Run(n, script.calls);
    RunKeeps(n, script.calls);
    SoundAgain(s, n, t);
    ScheduleKeeps(t, g);
    SoundAgain(s, t, ScheduleReconnect(t, g));
  }

  lemma FailKeeps(s: State, g: nat, onClosed: Script)
    requires Inv(s)
    ensures Sound(s, FailTransport(s, g, onClosed))
  {
    hide Inv, Later, NotBack, CloseAndReconnect, Cleared;
    SameKeeps(s);
    if IsCurrent(s, g) {
      NoticeKeeps(s, Closed(g, true), true);
      CloseKeeps(s, Cleared(s).(failed := true), g, onClosed);
    }
  }

  lemma ClosedKeeps(s: State, g: nat, script: Script)
    requires Inv(s)
    ensures Sound(s, HandleClosed(s, g, script))
  {
    hide Inv, Later, NotBack, Run, CloseAndReconnect, Cleared;
    SameKeeps(s);
    if IsCurrent(s, g) {
      NoticeKeeps(s, Closed(g, true), false);
      CloseKeeps(s, Cleared(s), g, script);
      RejectedKeeps(s, g, script.calls);
    }
  }

  lemma RejectedKeeps(s: State, g: nat, calls: seq<Call>)
    requires Inv(s)
    ensures Sound(s, ReadyRejected(s, g, calls))
  {
    hide Inv, Later, NotBack, Run, Cleared;
    SameKeeps(s);
    if IsCurrent(s, g) {
      NoticeKeeps(s, AuthFailed(g), false);
      var u := Noticed(Cleared(s), AuthFailed(g));
      RunKeeps(u, calls);
      SoundAgain(s, u, Run(u, calls));
    }
  }

  lemma ReadyKeeps(s: State, g: nat)
    requires Inv(s)
    ensures Sound(s, ReadyResolved(s, g))
  {
  }

  lemma AuthTimerKeeps(s: State, t: Timer)
    requires Inv(s)
    ensures Sound(s, AuthTimerFired(s, t))
  {
  }

  lemma ReadEndKeeps(s: State, g: nat)
    requires Inv(s)
    ensures Sound(s, ReadEnded(s, g))
  {
  }

  lemma TimerGoneKeeps(s: State)
    requires Inv(s)
    ensures Sound(s, s.(reconnectTimer := None))
  {
  }

  lemma StreamKeeps(s: State, g: nat)
    requires Inv(s)
    ensures Sound(s, s.(authTimer := None))
    ensures IsCurrent(s, g) ==> Sound(s, s.(authTimer := None, streamWriter := Some(g)))
    ensures IsCurrent(s, g) ==> Sound(s, s.(authTimer := None, streamWriter := Some(g), streamReader := Some(g)))
  {
  }

  lemma AttachKeeps(s: State, g: nat, outcome: Attach, onClosed: Script)
    requires Inv(s)
    ensures Sound(s, StreamAttached(s, g, outcome, onClosed))
  {
    hide Inv, Later, NotBack, Run, FailTransport;
    SameKeeps(s);
    StreamKeeps(s, g);
    if IsCurrent(s, g) {
      match outcome
      case Refused => FailKeeps(s, g, onClosed);
      case NoWriter =>
        FailKeeps(s.(authTimer := None), g, onClosed);
        SoundAgain(s, s.(authTimer := None), FailTransport(s.(authTimer := None), g, onClosed));
      case Attached(reader, onReady) =>
        var t := s.(authTimer := None, streamWriter := Some(g),
                    streamReader := if reader then Some(g) else s.streamReader);
        var u := Run(t, onReady.calls);
        RunKeeps(t, onReady.calls);
        SoundAgain(s, t, u);
        FailKeeps(u, g, onClosed);
        SoundAgain(s, u, FailTransport(u, g, onClosed));
    }
  }

  lemma ReconnectKeeps(s: State, t: Timer, constructed: bool, calls: seq<Call>)
    requires Inv(s)
    ensures Sound(s, ReconnectTimerFired(s, t, constructed, calls))
  {
    hide Inv, Later, NotBack, DoConnect;
    SameKeeps(s);
    TimerGoneKeeps(s);
    var u := s.(reconnectTimer := None);
    DoConnectKeeps(u, constructed, calls);
    SoundAgain(s, u, DoConnect(u, constructed, calls));
  }

  /** Every step, with whatever its callbacks do, keeps the invariant. */
  lemma StepKeeps(s: State, step: Step)
    requires Inv(s)
    ensures Sound(s, Next(s, step))
  {
    hide Inv, Later, NotBack, Run, Apply, FailTransport, HandleClosed, ReadyRejected, StreamAttached,
         ReconnectTimerFired,
         ReadyResolved, AuthTimerFired, ReadEnded;
    SameKeeps(s);
    match step
    case Api(call) => ApplyKeeps(s, call);
    case OnReady(g) => ReadyKeeps(s, g);
    case OnReadyRejected(g, calls) => RejectedKeeps(s, g, calls);
    case OnClosed(g, script) => ClosedKeeps(s, g, script);
    case OnStream(g, outcome, script) => AttachKeeps(s, g, outcome, script);
    case OnAuthTimer(t) => AuthTimerKeeps(s, t);
    case OnReconnectTimer(t, constructed, calls) => ReconnectKeeps(s, t, constructed, calls);
    case OnWriteError(g, script) => FailKeeps(s, g, script);
    case OnFrames(g, calls) => RunKeeps(s, calls);
    case OnReadEnd(g) => ReadEndKeeps(s, g);
  }

  /** And so does every run. */
  lemma {:induction false} RunsKeep(s: State, steps: seq<Step>)
    requires Inv(s)
    ensures Sound(s, After(s, steps))
    decreases |steps|
  {
    hide Inv, Later, NotBack, Next;
    SameKeeps(s);
    if |steps| > 0 {
      var t := After(s, steps[..|steps| - 1]);
      RunsKeep(s, steps[..|steps| - 1]);
      StepKeeps(t, steps[|steps| - 1]);
      SoundAgain(s, t, After(s, steps));
    }
  }

  // ---------- what follows ----------

  /** In every run from the start: a connection is there exactly while its end is not handled; open,
      writer and timers are of that connection; the delay stays in its bounds; and every generation
      has at most one notice. */
  lemma EveryRun(steps: seq<Step>)
    ensures Inv(After(START, steps))
  {
    hide After;
    RunsKeep(START, steps);
  }

  /** Once a connection was superseded or dropped, it is never current again and no later notice is
      about it. */
  lemma GoneForGood(s: State, g: nat, steps: seq<Step>)
    requires Inv(s) && g <= s.generation && s.wt != Some(g)
    ensures var t := After(s, steps);
            && s.notices <= t.notices && t.wt != Some(g)
            && forall i :: |s.notices| <= i < |t.notices| ==> t.notices[i].generation != g
  {
    hide After, Inv;
    RunsKeep(s, steps);
  }

  function ConnectionOf(step: Step): Option<nat> {
    match step
    case OnReady(g) => Some(g)
    case OnReadyRejected(g, _) => Some(g)
    case OnClosed(g, _) => Some(g)
    case OnStream(g, _, _) => Some(g)
    case OnWriteError(g, _) => Some(g)
    case OnFrames(g, _) => Some(g)
    case OnReadEnd(g) => Some(g)
    case OnAuthTimer(t) => Some(t.generation)
    case _ => None
  }

  /** A late answer of a connection that is not the current one changes nothing. */
  lemma StaleAnswerIgnored(s: State, step: Step)
    requires Inv(s) && ConnectionOf(step).Some? && s.wt != ConnectionOf(step)
    ensures Next(s, step) == s
  {
  }

  /** A pending reconnect timer starts a new connection when it fires: its guards always pass. */
  lemma PendingTimerConnects(s: State, t: Timer, calls: seq<Call>)
    requires Inv(s) && s.reconnectTimer == Some(t)
    ensures var u := Next(s, OnReconnectTimer(t, true, calls));
            IsCurrent(u, s.generation + 1) && u.reconnectTimer.None? && !u.open
  {
  }

  // ---------- what a callback leaves behind ----------

  /** The calls end with a connection in place: the last of them is a connect whose constructor
      succeeded, or whose onClosed ends so in its turn. */
  predicate Ends(calls: seq<Call>)
    decreases calls
  {
    |calls| > 0
    && match calls[|calls| - 1]
       case Connect(_, constructed, onClosed) => constructed || Ends(onClosed)
       case Disconnect => false
  }

  /** What a callback leaves: a connection exactly as its calls end, a message unless it ends with a
      disconnect, and no timer that was not there before. */
  lemma {:induction false} RunEnds(s: State, calls: seq<Call>)
    ensures Run(s, calls).wt.Some? <==> if |calls| == 0 then s.wt.Some? else Ends(calls)
    ensures s.reconnectTimer.None? ==> Run(s, calls).reconnectTimer.None?
    decreases calls, 0
  {
    hide Apply;
    if |calls| > 0 {
      ApplyEnds(s, calls[0]);
      RunEnds(Apply(s, calls[0]), calls[1..]);
      if |calls| > 1 { assert calls[1..][|calls| - 2] == calls[|calls| - 1]; }
    }
  }

  lemma {:induction false} ApplyEnds(s: State, call: Call)
    ensures Apply(s, call).wt.Some? <==> call.Connect? && (call.constructed || Ends(call.onClosed))
    ensures s.reconnectTimer.None? ==> Apply(s, call).reconnectTimer.None?
    decreases call, 0
  {
    hide Run;
    if call.Connect? && !call.constructed {
      var t := Begun(s.(connectMsg := Some(call.msg)));
      RunEnds(Noticed(t, Closed(t.generation, false)), call.onClosed);
      if |call.onClosed| == 0 { assert !Ends(call.onClosed); }
    }
  }

  /** A pending timer that fires is gone, whatever its callbacks do, and there is a connection after
      it exactly when the constructor succeeded, or when the onClosed of the failing one ended with
      a connection of its own. */
  lemma FailedConstructorIsFinal(s: State, t: Timer, constructed: bool, calls: seq<Call>)
    requires Inv(s) && s.reconnectTimer == Some(t)
    ensures var u := Next(s, OnReconnectTimer(t, constructed, calls));
            && u.reconnectTimer.None? && (u.wt.Some? <==> constructed || Ends(calls))
            && (!constructed ==> |u.notices| > |s.notices| && u.notices[|s.notices|] == Closed(s.generation + 1, false))
  {
    hide Run, Later, Ends;
    if !constructed {
      var b := Begun(s.(reconnectTimer := None));
      var n := Noticed(b, Closed(b.generation, false));
      RunEnds(n, calls);
      if |calls| == 0 { NoCallsEnd(calls); }
      TimerGoneKeeps(s);
      UnbornNoticeKeeps(s.(reconnectTimer := None));
      RunKeeps(n, calls);
      NoticeStays(n, Run(n, calls));
    }
  }

  lemma NoCallsEnd(calls: seq<Call>)
    requires |calls| == 0
    ensures !Ends(calls)
  {
  }

  const QUIET := Script([], false)

  /** The client with connection 1 open, and what is left when a write on it has failed. */
  function Opened(msg: Message): State {
    START.(wt := Some(1), connectMsg := Some(msg), streamWriter := Some(1), streamReader := Some(1), open := true,
           closedHandled := false, generation := 1, timers := 1)
  }

  function Failed(msg: Message): State {
    START.(connectMsg := Some(msg), reconnectTimer := Some(Timer(1, 1)), reconnectDelay := 1000, failed := true,
           generation := 1, timers := 2, notices := [Closed(1, true)])
  }

  lemma OpeningRun(msg: Message)
    ensures After(START, [Api(Connect(msg, true, [])), OnReady(1), OnStream(1, Attached(true, QUIET), QUIET)])
            == Opened(msg)
  {
    var connect, attach := Api(Connect(msg, true, [])), OnStream(1, Attached(true, QUIET), QUIET);
    AfterOne(START, [], connect);
    AfterOne(START, [connect], OnReady(1));
    AfterOne(START, [connect, OnReady(1)], attach);
    assert [] + [connect] == [connect];
    assert [connect] + [OnReady(1)] == [connect, OnReady(1)];
    assert [connect, OnReady(1)] + [attach] == [connect, OnReady(1), attach];
    var s1 := START.(connectMsg := Some(msg), wt := Some(1), closedHandled := false, generation := 1);
    assert DoConnect(START.(connectMsg := Some(msg)), true, []) == s1;
    assert Apply(START, connect.call) == s1;
    var s2 := s1.(open := true, authTimer := Some(Timer(0, 1)), timers := 1);
    assert Next(s1, OnReady(1)) == s2;
    assert Next(s2, attach) == Opened(msg);
  }

  /** A run from the start in which a write fails, so that a reconnect is announced and pending; its
      constructor throws, and there is a message, but neither a connection nor a timer. */
  lemma ReconnectGivesUp(msg: Message, steps: seq<Step>)
    requires steps == [Api(Connect(msg, true, [])), OnReady(1), OnStream(1, Attached(true, QUIET), QUIET)]
    ensures After(START, steps + [OnWriteError(1, QUIET)]).reconnectTimer == Some(Timer(1, 1))
    ensures var u := After(START, steps + [OnWriteError(1, QUIET)] + [OnReconnectTimer(Timer(1, 1), false, [])]);
            u.wt.None? && u.reconnectTimer.None? && u.connectMsg == Some(msg)
  {
    hide After;
    OpeningRun(msg);
    AfterOne(START, steps, OnWriteError(1, QUIET));
    AfterOne(START, steps + [OnWriteError(1, QUIET)], OnReconnectTimer(Timer(1, 1), false, []));
    assert Next(Opened(msg), OnWriteError(1, QUIET)) == Failed(msg);
  }

  lemma AfterOne(s: State, steps: seq<Step>, step: Step)
    ensures After(s, steps + [step]) == Next(After(s, steps), step)
  {
    hide Next;
    assert (steps + [step])[..|steps|] == steps;
  }

  /** The page was told that the client will reconnect. A timer is then pending exactly when the
      callback made no call of its own and did not throw; there is a connection already exactly
      when its calls ended with one. */
  lemma WillReconnect(s: State, step: Step)
    requires Inv(s) && (step.OnClosed? || step.OnWriteError?) && IsCurrent(s, step.g)
    requires step.OnClosed? ==> s.open && s.authTimer.None?
    ensures var t := Next(s, step);
            && |t.notices| > |s.notices| && t.notices[|s.notices|] == Closed(step.g, true)
            && (t.reconnectTimer.Some? <==> |step.script.calls| == 0 && !step.script.throws)
            && (t.wt.Some? <==> Ends(step.script.calls))
  {
    hide Later, Run, Ends, ScheduleReconnect, Cleared, Noticed;
    var c := if step.OnClosed? then Cleared(s) else Cleared(s).(failed := true);
    NoticeKeeps(s, Closed(step.g, true), step.OnWriteError?);
    ClearedFacts(s, step.g, step.OnWriteError?);
    AfterNotice(c, step.g, step.script);
  }

  lemma ClearedFacts(s: State, g: nat, failing: bool)
    requires Inv(s) && IsCurrent(s, g)
    ensures var c := if failing then Cleared(s).(failed := true) else Cleared(s);
            && c.wt.None? && c.reconnectTimer.None? && c.connectMsg.Some? && c.generation == g && c.notices == s.notices
            && !s.failed && !s.closedHandled && s.connectMsg.Some?
  {
  }

  lemma AfterNotice(c: State, g: nat, script: Script)
    requires c.wt.None? && c.reconnectTimer.None? && c.connectMsg.Some? && c.generation == g
    requires Inv(Noticed(c, Closed(g, true)))
    ensures var t := CloseAndReconnect(c, g, script);
            && |t.notices| > |c.notices| && t.notices[|c.notices|] == Closed(g, true)
            && (t.reconnectTimer.Some? <==> |script.calls| == 0 && !script.throws)
            && (t.wt.Some? <==> Ends(script.calls))
  {
    hide Later, Apply, Ends, Inv;
    var n := Noticed(c, Closed(g, true));
    var r := Run(n, script.calls);
    RunKeeps(n, script.calls);
    NoticeStays(n, r);
    RunEnds(n, script.calls);
    if |script.calls| == 0 { NoCallsEnd(script.calls); } else { CallsMove(n, script.calls); }
  }

  lemma NoticeStays(s: State, t: State)
    requires Later(s, t)
    ensures s.notices <= t.notices && s.generation <= t.generation
  {
  }

  /** Every call makes a new generation. */
  lemma CallsMove(s: State, calls: seq<Call>)
    requires Inv(s) && |calls| > 0
    ensures Run(s, calls).generation > s.generation
  {
    hide Inv, Later, Apply;
    ApplyMoves(s, calls[0]);
    ApplyKeeps(s, calls[0]);
    RunKeeps(Apply(s, calls[0]), calls[1..]);
    LaterGeneration(Apply(s, calls[0]), Run(s, calls));
  }

  lemma ApplyMoves(s: State, call: Call)
    requires Inv(s)
    ensures Apply(s, call).generation > s.generation
  {
    hide Inv, Later;
    if call.Connect? {
      var t := Begun(s.(connectMsg := Some(call.msg)));
      MessageKeeps(s, call.msg);
      if !call.constructed {
        UnbornNoticeKeeps(s.(connectMsg := Some(call.msg)));
        RunKeeps(Noticed(t, Closed(t.generation, false)), call.onClosed);
        var n := Noticed(t, Closed(t.generation, false));
        LaterGeneration(n, Run(n, call.onClosed));
      }
    }
  }

  // ---------- what the page is told ----------

  /** How the end of the current connection is told, when the step is an answer that ends it: a
      failed authentication when the server refuses it or closes it before it was ready or while its
      first stream is awaited, and otherwise a close with a reconnect to come. */
  function EndNotice(s: State, step: Step): Option<Notice> {
    if ConnectionOf(step).None? || s.wt != ConnectionOf(step) then None
    else
      var g := s.wt.value;
      match step
      case OnReadyRejected(_, _) => Some(AuthFailed(g))
      case OnClosed(_, _) => Some(if s.open && s.authTimer.None? then Closed(g, true) else AuthFailed(g))
      case OnStream(_, Attached(_, onReady), _) =>
        if onReady.throws && |onReady.calls| == 0 then Some(Closed(g, true)) else None
      case OnStream(_, _, _) => Some(Closed(g, true))
      case OnWriteError(_, _) => Some(Closed(g, true))
      case _ => None
  }

  /** From index `k` on there are only notices of connections that could not be made. */
  predicate OnlyUnmade(notices: seq<Notice>, k: nat) {
    forall i :: k <= i < |notices| ==> notices[i].Closed? && !notices[i].willReconnect
  }

  lemma {:induction false} RunTells(s: State, calls: seq<Call>)
    ensures s.notices <= Run(s, calls).notices && OnlyUnmade(Run(s, calls).notices, |s.notices|)
    decreases calls, 0
  {
    hide Apply;
    if |calls| > 0 {
      ApplyTells(s, calls[0]);
      RunTells(Apply(s, calls[0]), calls[1..]);
    }
  }

  lemma {:induction false} ApplyTells(s: State, call: Call)
    ensures s.notices <= Apply(s, call).notices && OnlyUnmade(Apply(s, call).notices, |s.notices|)
    decreases call, 0
  {
    hide Run;
    if call.Connect? && !call.constructed {
      var t := Begun(s.(connectMsg := Some(call.msg)));
      RunTells(Noticed(t, Closed(t.generation, false)), call.onClosed);
    }
  }

  /** After a notice and whatever its callback does. */
  lemma NoticedThenRun(c: State, n: Notice, calls: seq<Call>)
    requires c.reconnectTimer.None?
    ensures var t := Run(Noticed(c, n), calls);
            && c.notices < t.notices && t.notices[|c.notices|] == n
            && OnlyUnmade(t.notices, |c.notices| + 1) && t.reconnectTimer.None?
  {
    hide Run;
    RunTells(Noticed(c, n), calls);
    RunEnds(Noticed(c, n), calls);
  }

  /** What a step tells: first the end of the connection, if it ends it, and nothing else but that
      connections of its callbacks could not be made. A failed authentication sets no timer. */
  ghost predicate Tells(s: State, step: Step, t: State) {
    var notice, k := EndNotice(s, step), |s.notices|;
    && s.notices <= t.notices
    && (notice.Some? ==> |t.notices| > k && t.notices[k] == notice.value)
    && OnlyUnmade(t.notices, if notice.Some? then k + 1 else k)
    && (notice.Some? && notice.value.AuthFailed? ==> t.reconnectTimer.None?)
  }

  lemma RefusalTells(s: State, step: Step)
    requires Inv(s) && (step.OnReadyRejected? || step.OnClosed?)
    ensures Tells(s, step, Next(s, step))
  {
    hide Run, ScheduleReconnect, OnlyUnmade;
    if IsCurrent(s, step.g) {
      var calls := if step.OnReadyRejected? then step.calls else step.script.calls;
      NoticedThenRun(Cleared(s), EndNotice(s, step).value, calls);
      if step.OnClosed? { ScheduleTells(Run(Noticed(Cleared(s), Closed(step.g, true)), calls), step.g); }
    } else {
      NothingTold(s);
    }
  }

  lemma ScheduleTells(s: State, g: nat)
    ensures ScheduleReconnect(s, g).notices == s.notices
  {
  }

  lemma NothingTold(s: State)
    ensures OnlyUnmade(s.notices, |s.notices|)
  {
  }

  lemma FailTells(s: State, g: nat, onClosed: Script)
    requires Inv(s)
    ensures var t := FailTransport(s, g, onClosed);
            if IsCurrent(s, g) then
              && s.notices < t.notices && t.notices[|s.notices|] == Closed(g, true)
              && OnlyUnmade(t.notices, |s.notices| + 1)
            else t == s
  {
    hide Run, ScheduleReconnect, OnlyUnmade;
    if IsCurrent(s, g) {
      var c := Cleared(s).(failed := true);
      NoticedThenRun(c, Closed(g, true), onClosed.calls);
      RunTells(Noticed(c, Closed(g, true)), onClosed.calls);
      ScheduleTells(Run(Noticed(c, Closed(g, true)), onClosed.calls), g);
    }
  }

  lemma StreamTells(s: State, step: Step)
    requires Inv(s) && step.OnStream?
    ensures Tells(s, step, Next(s, step))
  {
    hide Run, FailTransport, OnlyUnmade, Inv;
    NothingTold(s);
    CurrentIs(s, step.g);
    if IsCurrent(s, step.g) {
      StreamKeeps(s, step.g);
      match step.outcome
      case Refused => FailTells(s, step.g, step.script);
      case NoWriter => FailTells(s.(authTimer := None), step.g, step.script);
      case Attached(reader, onReady) => AttachedTells(s, step.g, reader, onReady, step.script);
    }
  }

  lemma AttachedTells(s: State, g: nat, reader: bool, onReady: Script, onClosed: Script)
    requires Inv(s) && IsCurrent(s, g)
    ensures Tells(s, OnStream(g, Attached(reader, onReady), onClosed),
                  StreamAttached(s, g, Attached(reader, onReady), onClosed))
  {
    hide Run, FailTransport, OnlyUnmade, Inv, Later;
    var t := s.(authTimer := None, streamWriter := Some(g),
                streamReader := if reader then Some(g) else s.streamReader);
    var u := Run(t, onReady.calls);
    StreamKeeps(s, g);
    RunTells(t, onReady.calls);
    if |onReady.calls| == 0 { NoCalls(t, onReady.calls); } else { CallsMove(t, onReady.calls); }
    RunKeeps(t, onReady.calls);
    FailTells(u, g, onClosed);
  }

  lemma NoCalls(s: State, calls: seq<Call>)
    requires |calls| == 0
    ensures Run(s, calls) == s
  {
  }

  /** In every step the page is told of the end of a connection as its end was, and of nothing else but
      connections that could not be made. */
  lemma StepTells(s: State, step: Step)
    requires Inv(s)
    ensures Tells(s, step, Next(s, step))
  {
    hide Run, FailTransport, OnlyUnmade, Inv, HandleClosed, ReadyRejected, StreamAttached, Apply, DoConnect;
    NothingTold(s);
    if step.OnReadyRejected? || step.OnClosed? {
      RefusalTells(s, step);
    } else if step.OnStream? {
      StreamTells(s, step);
    } else if step.OnWriteError? {
      FailTells(s, step.g, step.script);
      CurrentIs(s, step.g);
    } else if step.Api? {
      ApplyTells(s, step.call);
    } else if step.OnFrames? {
      RunTells(s, step.calls);
    } else if step.OnReconnectTimer? {
      ReconnectTells(s, step.t, step.constructed, step.calls);
    }
  }

  lemma CurrentIs(s: State, g: nat)
    requires Inv(s)
    ensures IsCurrent(s, g) <==> s.wt == Some(g)
  {
  }

  lemma ReconnectTells(s: State, t: Timer, constructed: bool, calls: seq<Call>)
    ensures var u := ReconnectTimerFired(s, t, constructed, calls);
            s.notices <= u.notices && OnlyUnmade(u.notices, |s.notices|)
  {
    hide Run;
    var b := Begun(s.(reconnectTimer := None));
    RunTells(Noticed(b, Closed(b.generation, false)), calls);
  }

  /** Callbacks set no reconnect and leave the delay alone. */
  predicate NothingSet(s: State, t: State) {
    t.reconnectDelay == s.reconnectDelay && (t.reconnectTimer == s.reconnectTimer || t.reconnectTimer.None?)
  }

  lemma {:induction false} RunSetsNothing(s: State, calls: seq<Call>)
    ensures NothingSet(s, Run(s, calls))
    decreases calls, 0
  {
    hide Apply;
    if |calls| > 0 {
      ApplySetsNothing(s, calls[0]);
      RunSetsNothing(Apply(s, calls[0]), calls[1..]);
    }
  }

  lemma {:induction false} ApplySetsNothing(s: State, call: Call)
    ensures NothingSet(s, Apply(s, call))
    decreases call, 0
  {
    hide Run;
    if call.Connect? && !call.constructed {
      var t := Begun(s.(connectMsg := Some(call.msg)));
      RunSetsNothing(Noticed(t, Closed(t.generation, false)), call.onClosed);
    }
  }

  /** The delay doubles, up to its bound, exactly when the step sets a reconnect. */
  predicate Doubles(s: State, t: State) {
    t.reconnectDelay == if t.reconnectTimer.Some? && t.reconnectTimer != s.reconnectTimer
                        then Min(2 * s.reconnectDelay, 5000) else s.reconnectDelay
  }

  lemma FailDoubles(s: State, g: nat, onClosed: Script)
    requires Inv(s)
    ensures Doubles(s, FailTransport(s, g, onClosed))
  {
    hide Run;
    RunSetsNothing(Noticed(Cleared(s).(failed := true), Closed(g, true)), onClosed.calls);
  }

  lemma ClosedDoubles(s: State, g: nat, script: Script)
    requires Inv(s)
    ensures Doubles(s, HandleClosed(s, g, script))
  {
    hide Run;
    RunSetsNothing(Noticed(Cleared(s), Closed(g, true)), script.calls);
    RunSetsNothing(Noticed(Cleared(s), AuthFailed(g)), script.calls);
  }

  lemma StreamDoubles(s: State, g: nat, outcome: Attach, onClosed: Script)
    requires Inv(s)
    ensures Doubles(s, StreamAttached(s, g, outcome, onClosed))
  {
    hide Run, FailTransport, Inv;
    StreamKeeps(s, g);
    FailDoubles(s, g, onClosed);
    if IsCurrent(s, g) {
      FailDoubles(s.(authTimer := None), g, onClosed);
      if outcome.Attached? {
        var t := s.(authTimer := None, streamWriter := Some(g),
                    streamReader := if outcome.reader then Some(g) else s.streamReader);
        RunSetsNothing(t, outcome.onReady.calls);
        RunKeeps(t, outcome.onReady.calls);
        FailDoubles(Run(t, outcome.onReady.calls), g, onClosed);
        NoTimerYet(s, g);
      }
    }
  }

  lemma NoTimerYet(s: State, g: nat)
    requires Inv(s) && IsCurrent(s, g)
    ensures s.reconnectTimer.None?
  {
  }

  /** The delay before a reconnect doubles with every reconnect that is set, up to its bound, and
      starts again from the least when a connection is ready; nothing else changes it. */
  lemma BacksOff(s: State, step: Step)
    requires Inv(s)
    ensures if step.OnReady? && IsCurrent(s, step.g) then Next(s, step).reconnectDelay == 500
            else Doubles(s, Next(s, step))
  {
    hide Run, FailTransport, HandleClosed, StreamAttached, Inv, Apply;
    if step.OnClosed? {
      ClosedDoubles(s, step.g, step.script);
    } else if step.OnStream? {
      StreamDoubles(s, step.g, step.outcome, step.script);
    } else if step.OnWriteError? {
      FailDoubles(s, step.g, step.script);
    } else if !(step.OnReady? && IsCurrent(s, step.g)) {
      OtherDoubles(s, step);
    }
  }

  lemma OtherDoubles(s: State, step: Step)
    requires !step.OnClosed? && !step.OnStream? && !step.OnWriteError? && !(step.OnReady? && IsCurrent(s, step.g))
    ensures Doubles(s, Next(s, step))
  {
    hide Run, Apply;
    if step.Api? {
      ApplySetsNothing(s, step.call);
    } else if step.OnReadyRejected? {
      RunSetsNothing(Noticed(Cleared(s), AuthFailed(step.g)), step.calls);
    } else if step.OnFrames? {
      RunSetsNothing(s, step.calls);
    } else if step.OnReconnectTimer? {
      var b := Begun(s.(reconnectTimer := None));
      RunSetsNothing(Noticed(b, Closed(b.generation, false)), step.calls);
    }
  }

  /** A connection counts as authenticated from when its stream is attached after it was ready, or
      when its timer has fired, and not before. */
  lemma AuthWindow(s: State, g: nat, reader: bool, onClosed: Script)
    requires Inv(s) && IsCurrent(s, g)
    ensures !s.open ==> EndNotice(s, OnClosed(g, onClosed)) == Some(AuthFailed(g))
    ensures var r := Next(s, OnReady(g));
            r.open && r.authTimer.Some? && EndNotice(r, OnClosed(g, onClosed)) == Some(AuthFailed(g))
    ensures var a := Next(Next(s, OnReady(g)), OnStream(g, Attached(reader, QUIET), onClosed));
            a.open && a.streamWriter == Some(g) && EndNotice(a, OnClosed(g, onClosed)) == Some(Closed(g, true))
    ensures var r := Next(s, OnReady(g));
            EndNotice(Next(r, OnAuthTimer(r.authTimer.value)), OnClosed(g, onClosed)) == Some(Closed(g, true))
  {
  }

  /** A connect with a constructor that succeeds makes a new connection for its message at once, and
      whatever was there before is forgotten. */
  lemma ConnectStarts(s: State, msg: Message, onClosed: seq<Call>)
    ensures var t := Next(s, Api(Connect(msg, true, onClosed)));
            && IsCurrent(t, s.generation + 1) && t.connectMsg == Some(msg) && t.notices == s.notices
            && !t.open && t.streamWriter.None? && t.streamReader.None? && t.authTimer.None? && t.reconnectTimer.None?
  {
    assert Apply(s, Connect(msg, true, onClosed)) == DoConnect(s.(connectMsg := Some(msg)), true, onClosed);
  }

  /** After a disconnect there is no connection, no timer and no message, and nothing that answers late
      or fires changes that or is told, until the page connects again. */
  lemma {:induction false} DisconnectIsQuiet(s: State, steps: seq<Step>)
    requires forall i :: 0 <= i < |steps| ==> !steps[i].Api?
    ensures var q := Next(s, Api(Call.Disconnect));
            && q.wt.None? && q.reconnectTimer.None? && q.authTimer.None? && q.connectMsg.None? && q.notices == s.notices
            && After(q, steps) == q
    decreases |steps|
  {
    if |steps| > 0 { DisconnectIsQuiet(s, steps[..|steps| - 1]); }
  }

  function ApiSteps(calls: seq<Call>): (steps: seq<Step>)
    ensures |steps| == |calls|
  {
    seq(|calls|, i requires 0 <= i < |calls| => Api(calls[i]))
  }

  lemma {:induction false} AfterFirst(s: State, first: Step, rest: seq<Step>)
    ensures After(s, [first] + rest) == After(Next(s, first), rest)
    decreases |rest|
  {
    hide Next;
    var steps := [first] + rest;
    if |rest| == 0 {
      assert steps[..0] == [] && steps[0] == first;
    } else {
      var n := |rest| - 1;
      assert steps[..|steps| - 1] == [first] + rest[..n] && steps[|steps| - 1] == rest[n];
      AfterFirst(s, first, rest[..n]);
    }
  }

  lemma {:induction false} CallsAreSteps(s: State, calls: seq<Call>)
    ensures Run(s, calls) == After(s, ApiSteps(calls))
    decreases |calls|
  {
    hide Apply;
    if |calls| > 0 {
      CallsAreSteps(Apply(s, calls[0]), calls[1..]);
      assert ApiSteps(calls) == [Api(calls[0])] + ApiSteps(calls[1..]);
      AfterFirst(s, Api(calls[0]), ApiSteps(calls[1..]));
    }
  }

  /** What the page calls from the callback for a frame does what it would do outside of it; frames of a
      connection that is not current are not handed on. */
  lemma FramesHandOn(s: State, g: nat, calls: seq<Call>)
    ensures Next(s, OnFrames(g, calls)) == if IsCurrent(s, g) then After(s, ApiSteps(calls)) else s
  {
    hide Run;
    CallsAreSteps(s, calls);
  }

  /** A stream that ends is no longer read, and its connection goes on. */
  lemma ReadEndReleases(s: State, g: nat)
    ensures var t := Next(s, OnReadEnd(g));
            t.streamReader != Some(g) && t == s.(streamReader := t.streamReader)
            && (s.streamReader != Some(g) ==> t == s)
  {
  }
}
