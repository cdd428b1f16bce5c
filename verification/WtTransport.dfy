/** The WebTransport client as an object: every event handler updates its fields, and is proved to
    make the step of the state machine. */
module WtTransport {
  import opened Wrappers
  import opened WtClient

  class Transport {
    var wt: Option<nat>
    var connectMsg: Option<Message>
    var streamWriter: Option<nat>
    var streamReader: Option<nat>
    var authTimer: Option<Timer>
    var reconnectTimer: Option<Timer>
    var reconnectDelay: nat
    var open: bool
    var closedHandled: bool
    var failed: bool
    var connectionGeneration: nat
    var timers: nat
    var notices: seq<Notice>

    constructor ()
      ensures View() == START
    {
      wt, connectMsg, streamWriter, streamReader := None, None, None, None;
      authTimer, reconnectTimer, reconnectDelay := None, None, MIN_DELAY;
      open, closedHandled, failed := false, true, false;
      connectionGeneration, timers, notices := 0, 0, [];
    }

    function View(): State
      reads this
    {
      State(wt, connectMsg, streamWriter, streamReader, authTimer, reconnectTimer, reconnectDelay, open, closedHandled,
            failed, connectionGeneration, timers, notices)
    }

    predicate IsCurrentConnection(connection: nat, generation: nat)
      reads this
    {
      connectionGeneration == generation && wt == Some(connection)
    }

    /** Forgets the connection and what belongs to it. */
    method Clear()
      modifies this
      ensures View() == Cleared(old(View()))
    {
      wt := None;
      open := false;
      streamWriter := None;
      streamReader := None;
      closedHandled := true;
      authTimer := None;
    }

    method Notify(notice: Notice, calls: seq<Call>)
      modifies this
      ensures View() == Run(Noticed(old(View()), notice), calls)
      decreases calls, 1
    {
      notices := notices + [notice];
      Callback(calls);
    }

    /** A callback of the page: it may connect and disconnect before it returns. */
    method Callback(calls: seq<Call>)
      modifies this
      ensures View() == Run(old(View()), calls)
      decreases calls, 0
    {
      if |calls| == 0 { return; }
      match calls[0] {
        case Connect(msg, constructed, onClosed) => Connect(msg, constructed, onClosed);
        case Disconnect => Disconnect();
      }
      Callback(calls[1..]);
    }

    method Connect(msg: Message, constructed: bool, onClosed: seq<Call>)
      modifies this
      ensures View() == Apply(old(View()), Call.Connect(msg, constructed, onClosed))
      decreases onClosed, 3
    {
      connectMsg := Some(msg);
      DoConnectNow(constructed, onClosed);
    }

    method Disconnect()
      modifies this
      ensures View() == Apply(old(View()), Call.Disconnect)
    {
      reconnectTimer := None;
      connectionGeneration := connectionGeneration + 1;
      failed := true;
      connectMsg := None;
      Clear();
    }

    method DoConnectNow(constructed: bool, onClosed: seq<Call>)
      modifies this
      ensures View() == DoConnect(old(View()), constructed, onClosed)
      decreases onClosed, 2
    {
      if connectMsg.None? { return; }
      reconnectTimer := None;
      connectionGeneration := connectionGeneration + 1;
      var generation := connectionGeneration;
      failed := false;
      Clear();
      if !constructed {
        closedHandled := true;
        Notify(Closed(generation, false), onClosed);
        return;
      }
      wt := Some(generation);
      closedHandled := false;
    }

    method Schedule(generation: nat)
      modifies this
      ensures View() == ScheduleReconnect(old(View()), generation)
    {
      if connectMsg.None? || reconnectTimer.Some? || connectionGeneration != generation || wt.Some? { return; }
      reconnectTimer := Some(Timer(timers, generation));
      timers := timers + 1;
      reconnectDelay := Min(reconnectDelay * 2, MAX_DELAY);
    }

    method Fail(generation: nat, onClosed: Script)
      modifies this
      ensures View() == FailTransport(old(View()), generation, onClosed)
    {
      if !IsCurrentConnection(generation, generation) || failed || connectMsg.None? { return; }
      failed := true;
      Clear();
      Notify(Closed(generation, true), onClosed.calls);
      if onClosed.throws { return; }
      Schedule(generation);
    }

    method ClosedSettled(generation: nat, script: Script)
      modifies this
      ensures View() == HandleClosed(old(View()), generation, script)
    {
      if !IsCurrentConnection(generation, generation) || closedHandled { return; }
      var authPending := authTimer.Some?;
      var wasReady := open;
      Clear();
      if !wasReady || authPending {
        Notify(AuthFailed(generation), script.calls);
      } else {
        Notify(Closed(generation, true), script.calls);
        if script.throws { return; }
        Schedule(generation);
      }
    }

    method ReadySettled(generation: nat)
      modifies this
      ensures View() == ReadyResolved(old(View()), generation)
    {
      if !IsCurrentConnection(generation, generation) { return; }
      open := true;
      reconnectDelay := 500;
      authTimer := Some(Timer(timers, generation));
      timers := timers + 1;
    }

    method ReadyRefused(generation: nat, calls: seq<Call>)
      modifies this
      ensures View() == ReadyRejected(old(View()), generation, calls)
    {
      if !IsCurrentConnection(generation, generation) { return; }
      Clear();
      Notify(AuthFailed(generation), calls);
    }

    method AuthTimeout(timer: Timer)
      modifies this
      ensures View() == AuthTimerFired(old(View()), timer)
    {
      if !IsCurrentConnection(timer.generation, timer.generation) || authTimer != Some(timer) { return; }
      authTimer := None;
    }

    method ReconnectTimeout(timer: Timer, constructed: bool, onClosed: seq<Call>)
      modifies this
      ensures View() == ReconnectTimerFired(old(View()), timer, constructed, onClosed)
    {
      if reconnectTimer != Some(timer) { return; }
      reconnectTimer := None;
      if connectMsg.None? || connectionGeneration != timer.generation { return; }
      DoConnectNow(constructed, onClosed);
    }

    method StreamSettled(generation: nat, outcome: Attach, onClosed: Script)
      modifies this
      ensures View() == StreamAttached(old(View()), generation, outcome, onClosed)
    {
      if !IsCurrentConnection(generation, generation) { return; }
      match outcome
      case Refused => Fail(generation, onClosed);
      case NoWriter =>
        authTimer := None;
        Fail(generation, onClosed);
      case Attached(reader, onReady) =>
        authTimer := None;
        streamWriter := Some(generation);
        if reader { streamReader := Some(generation); }
        Callback(onReady.calls);
        if onReady.throws && IsCurrentConnection(generation, generation) { Fail(generation, onClosed); }
    }

    method ReadStopped(generation: nat)
      modifies this
      ensures View() == ReadEnded(old(View()), generation)
    {
      if streamReader == Some(generation) { streamReader := None; }
    }

    /** The connection whose failure a failing write reports, when anything is sent at all. */
    method Send() returns (onWriteError: Option<nat>)
      ensures onWriteError == if wt.Some? && open && streamWriter.Some? then Some(connectionGeneration) else None
      ensures Inv(View()) && onWriteError.Some? ==> IsCurrent(View(), onWriteError.value)
    {
      if wt.None? || !open || streamWriter.None? { return None; }
      onWriteError := Some(connectionGeneration);
    }

    predicate IsOpen()
      reads this
    {
      open && streamWriter.Some?
    }
  }
}
