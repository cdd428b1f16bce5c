/** What the daemon guarantees over whole runs. */
module LifecycleTheorems {
  import opened Wrappers
  import opened Registry
  import RegistryInvariant
  import opened RegistryOps
  import opened RegistryEffects
  import opened Lifecycle
  import opened LifecycleInvariant
  import opened LifecycleSteps

  // ---------- runs ----------

  datatype Run = Run(states: seq<State>, steps: seq<Step>)

  ghost predicate IsRun(run: Run) {
    && |run.states| == |run.steps| + 1
    && run.states[0] == Initial
    && (forall i :: 0 <= i < |run.steps| ==>
          Enabled(run.states[i], run.steps[i]) && run.states[i + 1] == Next(run.states[i], run.steps[i]))
  }

  /** Every state of every run is in order. */
  lemma {:induction false} RunKeeps(run: Run, i: nat)
    requires IsRun(run) && i < |run.states|
    ensures Inv(run.states[i])
  {
    hide Inv, Next, Enabled;
    if i == 0 {
      InitialOk();
    } else {
      RunKeeps(run, i - 1);
      StepKeeps(run.states[i - 1], run.steps[i - 1]);
    }
  }

  // ---------- the derived tables ----------

  /** In every state of every run: a client is bound on a device exactly when it has a sink and an
      active native-messaging session there, and then to the installed lifetime and its present
      sink; the hash table is the inverse of the sessions' hashes; a device is installed exactly
      when a session is on it. */
  lemma IndexesExact(run: Run, i: nat, c: ClientId, d: DeviceId, t: Token)
    requires IsRun(run) && i < |run.states|
    ensures var r := run.states[i].reg;
            && ((c, d) in r.hot <==> c in r.sinks && WantsHot(r.sessions, c, d))
            && ((c, d) in r.hot ==>
                  d in r.devices && r.hot[(c, d)].life == r.devices[d] && r.hot[(c, d)].sink == r.sinks[c])
            && (t in r.sessions <==> AuthHash(t) in r.hashes && r.hashes[AuthHash(t)] == t)
            && (d in r.devices <==> exists u :: u in r.sessions && r.sessions[u].device == d)
  {
    RunKeeps(run, i);
    var r := run.states[i].reg;
    assert RegistryInvariant.HotKeyOk(r, c, d);
    if (c, d) in r.hot { assert RegistryInvariant.HotEntryOk(r, (c, d)); }
  }

  /** A validity cell, of a binding or of a capability, old or new, is true exactly while what it
      was issued for is the stored one and in force. */
  lemma CellValidIffCurrent(run: Run, i: nat, f: FlagId)
    requires IsRun(run) && i < |run.states| && f < |run.states[i].reg.flags|
    ensures run.states[i].reg.flags[f].valid <==> RegistryInvariant.Current(run.states[i].reg, f)
  {
    hide RegistryInvariant.Inv, RegistryInvariant.Current, SessionsOk, ReservationsOk, LivesOk, CommandsOk;
    RunKeeps(run, i);
    RegistryInvariant.ValidIffCurrent(run.states[i].reg, f, Owed(run.states[i].teardowns));
  }

  // ---------- authority of commands ----------

  /** The worker of lifetime `l` accepts a queued command iff the binding or capability it was
      issued under is in force, and then that lifetime is the installed one: the epoch
      comparison never turns down a command whose cell is still valid. */
  lemma AcceptedIffCurrent(run: Run, i: nat, l: LifeId, command: IoCommand)
    requires IsRun(run) && i < |run.states| && l < |run.states[i].lives|
    requires command in run.states[i].lives[l].queue && command.Command?
    ensures command.flag < |run.states[i].reg.flags|
    ensures Accepts(run.states[i], l, command) <==> RegistryInvariant.Current(run.states[i].reg, command.flag)
    ensures Accepts(run.states[i], l, command) ==>
              var origin := run.states[i].reg.flags[command.flag].origin;
              && origin.life == l && origin.device in run.states[i].reg.devices
              && run.states[i].reg.devices[origin.device] == l
  {
    RunKeeps(run, i);
    var s := run.states[i];
    QueuedAt(s, l, command);
    hide RegistryInvariant.Inv, SessionsOk, ReservationsOk, LivesOk, CommandsOk;
    RegistryInvariant.ValidIffCurrent(s.reg, command.flag, Owed(s.teardowns));
    if s.reg.flags[command.flag].valid { LiveEpoch(s, s.reg.flags[command.flag].origin.device); }
  }

  lemma QueuedAt(s: State, l: LifeId, command: IoCommand)
    requires CommandsOk(s) && l < |s.lives| && command in s.lives[l].queue && command.Command?
    ensures CommandOk(s, command.flag, l) && command.epoch <= s.lives[l].epoch
  {
    assert QueueOk(s, l);
  }

  lemma LiveEpoch(s: State, d: DeviceId)
    requires LivesOk(s) && d in s.reg.devices
    ensures s.reg.devices[d] < |s.lives| && s.lives[s.reg.devices[d]].epoch == 0
  {
    assert InstalledOk(s, d) && LifeOk(s, s.reg.devices[d]);
  }

  /** The session of `t` was opened and is closed. */
  ghost predicate Gone(s: State, t: Token) {
    t < |s.openers| && Registered(s.openers[t].pc) && t !in s.reg.sessions
  }

  /** No cell became true again or changed what it was issued for, and session `t` did not come back. */
  ghost predicate NoRevival(s: State, n: State, t: Token) {
    FlagsLater(s.reg.flags, n.reg.flags) && (Gone(s, t) ==> Gone(n, t))
  }

  lemma JoinRevivesNone(s: State, u: Token, t: Token)
    requires u < |s.openers| && (s.openers[u].pc.Asking? || s.openers[u].pc.Waiting?)
    ensures NoRevival(s, DoAsk(s, u), t) && NoRevival(s, DoRecheck(s, u), t)
  {
    hide Refresh, Register;
    JoinedEffect(s.reg, s.openers[u], u);
  }

  lemma JoinedEffect(r: Registry, o: Opener, u: Token)
    ensures var joined := Register(r, o.device, u, o.client);
            joined.Some? ==> joined.value.sessions.Keys == r.sessions.Keys + {u}
                              && FlagsLater(r.flags, joined.value.flags)
  {
    hide Refresh;
    if o.device in r.devices { RegisterEffect(r, o.device, u, o.client); }
  }

  lemma CheckRevivesNone(s: State, u: Token, t: Token)
    requires u < |s.openers| && s.openers[u].pc.Opened?
    ensures NoRevival(s, DoCheckFirst(s, u), t)
  {
    hide Refresh, Register;
    JoinedEffect(s.reg, s.openers[u], u);
  }

  lemma PublishRevivesNone(s: State, u: Token, t: Token)
    requires u < |s.openers| && s.openers[u].pc.Built? && s.openers[u].pc.life < |s.lives|
    ensures NoRevival(s, DoPublish(s, u), t)
  {
    hide Refresh, Register, Publish;
    var o := s.openers[u];
    JoinedEffect(s.reg, o, u);
    PublishEffect(s.reg, o.device, o.pc.life, u, o.client);
  }

  lemma CloseRevivesNone(s: State, d: DeviceId, u: Token, c: ClientId, t: Token)
    ensures NoRevival(s, DoClose(s, d, u, c), t)
  {
    hide Close;
    if Close(s.reg, d, u, c).1.Closed? { CloseEffect(s.reg, d, u, c); }
  }

  lemma TearDownRevivesNone(s: State, d: DeviceId, l: LifeId, t: Token)
    ensures NoRevival(s, DoForceClose(s, d), t)
    ensures l < |s.lives| ==> NoRevival(s, DoReaderDies(s, l), t)
  {
    hide TearDown;
    TearDownEffect(s.reg, d);
    if l < |s.lives| { TearDownEffect(s.reg, s.lives[l].device); }
  }

  lemma ModeRevivesNone(s: State, step: Step, t: Token)
    requires step.ChangeMode? || step.ConnectTransport? || step.DisconnectTransport? || step.RegisterSink?
    requires Enabled(s, step)
    ensures NoRevival(s, Next(s, step), t)
  {
    hide RefreshAll, Connect, Disconnect, SetMode;
    match step
    case ChangeMode(d, u, mode, c) => SetModeEffect(s.reg, d, u, mode, c);
    case ConnectTransport(d, u, kind) => ConnectEffect(s.reg, d, u, kind);
    case DisconnectTransport(d, u, kind, generation, f) => DisconnectEffect(s.reg, d, u, kind, generation, f);
    case RegisterSink(c, sink, order) => RefreshAllEffect(AddSink(s.reg, c, sink), c, order);
  }

  /** The steps that leave the registry and the finished openers alone. */
  lemma AsideRevivesNone(s: State, step: Step, t: Token)
    requires Enabled(s, step)
    requires !step.Ask? && !step.Recheck? && !step.CheckFirst? && !step.PublishEntry? && !step.CloseSession?
    requires !step.ForceClose? && !step.ReaderDies? && !step.ChangeMode? && !step.ConnectTransport?
    requires !step.DisconnectTransport? && !step.RegisterSink?
    ensures NoRevival(s, Next(s, step), t)
  {
    hide DoAsk, DoRecheck, DoCheckFirst, DoPublish, DoClose, DoForceClose, DoReaderDies, Connect, Disconnect, SetMode,
         RefreshAll;
  }

  lemma StepRevivesNone(s: State, step: Step, t: Token)
    requires Enabled(s, step)
    ensures NoRevival(s, Next(s, step), t)
  {
    hide DoAsk, DoRecheck, DoCheckFirst, DoBuild, DoPublish, DoStopLocal, DoReleaseGate, DoRemove, DoNotify, DoClose,
         DoForceClose, DoReaderDies, DoBump, DoRequest, DoSend, DoWork, Connect, Disconnect, SetMode, RefreshAll,
         RemoveSink, NoRevival;
    match step
    case Ask(u) => JoinRevivesNone(s, u, t);
    case Recheck(u) => JoinRevivesNone(s, u, t);
    case CheckFirst(u) => CheckRevivesNone(s, u, t);
    case PublishEntry(u) => PublishRevivesNone(s, u, t);
    case CloseSession(d, u, c) => CloseRevivesNone(s, d, u, c, t);
    case ForceClose(d) => TearDownRevivesNone(s, d, 0, t);
    case ReaderDies(l) => TearDownRevivesNone(s, 0, l, t);
    case ChangeMode(_, _, _, _) => ModeRevivesNone(s, step, t);
    case ConnectTransport(_, _, _) => ModeRevivesNone(s, step, t);
    case DisconnectTransport(_, _, _, _, _) => ModeRevivesNone(s, step, t);
    case RegisterSink(_, _, _) => ModeRevivesNone(s, step, t);
    case _ => AsideRevivesNone(s, step, t);
  }

  lemma {:induction false} RunFlagsLater(run: Run, i: nat, j: nat)
    requires IsRun(run) && i <= j < |run.states|
    ensures FlagsLater(run.states[i].reg.flags, run.states[j].reg.flags)
    decreases j
  {
    hide Inv, Next, Enabled, Gone;
    if i < j {
      RunFlagsLater(run, i, j - 1);
      StepRevivesNone(run.states[j - 1], run.steps[j - 1], 0);
      FlagsLaterTrans(run.states[i].reg.flags, run.states[j - 1].reg.flags, run.states[j].reg.flags);
    }
  }

  lemma {:induction false} RunStaysGone(run: Run, i: nat, j: nat, t: Token)
    requires IsRun(run) && i <= j < |run.states| && Gone(run.states[i], t)
    ensures Gone(run.states[j], t)
    decreases j
  {
    hide Inv, Next, Enabled, Gone;
    if i < j {
      RunStaysGone(run, i, j - 1, t);
      StepRevivesNone(run.states[j - 1], run.steps[j - 1], t);
    }
  }

  /** Once session `t` was closed, no command is ever accepted again under any capability of its
      token, nor under a binding its client had on the device at that time. */
  lemma NoStaleAuthority(run: Run, i: nat, j: nat, d: DeviceId, t: Token, c: ClientId, l: LifeId, command: IoCommand)
    requires IsRun(run) && i < j < |run.states|
    requires run.steps[i] == CloseSession(d, t, c) && Close(run.states[i].reg, d, t, c).1.Closed?
    requires l < |run.states[j].lives| && command in run.states[j].lives[l].queue && command.Command?
    requires command.flag < |run.states[j].reg.flags|
    requires var origin := run.states[j].reg.flags[command.flag].origin;
             || (origin.Capability? && origin.token == t)
             || (command.flag < |run.states[i].reg.flags| && origin.NmBinding? && origin.client == c
                 && origin.device == d)
    ensures !Accepts(run.states[j], l, command)
  {
    var s := run.states[i];
    RunKeeps(run, i);
    SessionClosedIsGone(s, d, t, c);
    hide Inv, Next, Close, Gone, Enabled;
    RunStaysGone(run, i + 1, j, t);
    RunKeeps(run, j);
    var f := command.flag;
    if f < |s.reg.flags| {
      RunFlagsLater(run, i, j);
      RunFlagsLater(run, i + 1, j);
      if IssuedUnder(s.reg.flags[f].origin, t, c, d) {
        CloseRevokes(s.reg, d, t, c, Owed(s.teardowns), f);
        CloseRegistry(s, d, t, c);
      }
    } else {
      GoneIsPowerless(run.states[j], t, f);
    }
  }

  lemma CloseRegistry(s: State, d: DeviceId, t: Token, c: ClientId)
    requires Enabled(s, CloseSession(d, t, c)) && Close(s.reg, d, t, c).1.Closed?
    ensures Next(s, CloseSession(d, t, c)).reg == Close(s.reg, d, t, c).0
  {
    hide Close, Detach, DoAsk, DoRecheck, DoCheckFirst, DoBuild, DoPublish, DoStopLocal, DoReleaseGate, DoRemove,
         DoNotify,
         DoForceClose, DoReaderDies, DoBump, DoRequest, DoSend, DoWork, Connect, Disconnect, SetMode,
         RefreshAll, RemoveSink;
  }

  lemma SessionClosedIsGone(s: State, d: DeviceId, t: Token, c: ClientId)
    requires SessionsOk(s) && Close(s.reg, d, t, c).1.Closed?
    ensures Gone(DoClose(s, d, t, c), t)
  {
    assert SessionOk(s, t);
    hide SessionsOk, Close;
    CloseEffect(s.reg, d, t, c);
  }

  /** A capability of a session that is gone is not valid. */
  lemma GoneIsPowerless(s: State, t: Token, f: FlagId)
    requires Inv(s) && Gone(s, t) && f < |s.reg.flags|
    requires s.reg.flags[f].origin.Capability? && s.reg.flags[f].origin.token == t
    ensures !s.reg.flags[f].valid
  {
    RegistryInvariant.ValidIffCurrent(s.reg, f, Owed(s.teardowns));
  }

  /** The step tears device `d` down: by force, or by a reader of that device that died. */
  ghost predicate TearsDown(s: State, step: Step, d: DeviceId) {
    || step == ForceClose(d)
    || (step.ReaderDies? && step.life < |s.lives| && s.lives[step.life].device == d && d in s.reg.devices)
  }

  lemma TearDownRegistry(s: State, step: Step, d: DeviceId)
    requires Enabled(s, step) && TearsDown(s, step, d)
    ensures Next(s, step).reg == TearDown(s.reg, d)
  {
    hide TearDown, NonNmOn;
  }

  /** The sessions that a teardown removed are gone for good. */
  lemma TornTokenIsGone(s: State, step: Step, d: DeviceId, t: Token)
    requires SessionsOk(s) && Enabled(s, step) && TearsDown(s, step, d) && t in TokensOn(s.reg.sessions, d)
    ensures Gone(Next(s, step), t)
  {
    hide TearDown, NonNmOn;
    assert SessionOk(s, t);
    TearDownRegistry(s, step, d);
    TearDownEffect(s.reg, d);
    TearDownOpener(s, step, d, t);
  }

  lemma TearDownOpener(s: State, step: Step, d: DeviceId, t: Token)
    requires Enabled(s, step) && TearsDown(s, step, d) && t < |s.openers| && Registered(s.openers[t].pc)
    ensures t < |Next(s, step).openers| && Registered(Next(s, step).openers[t].pc)
  {
    hide TearDown, NonNmOn;
  }

  /** Once a device was torn down by force or by its reader, no command is ever accepted again
      under a binding or capability that was issued on it before, nor under any capability, earlier
      or later, of a session that went with it. */
  lemma NoAuthoritySurvivesTearDown(run: Run, i: nat, j: nat, d: DeviceId, l: LifeId, command: IoCommand)
    requires IsRun(run) && i < j < |run.states| && TearsDown(run.states[i], run.steps[i], d)
    requires l < |run.states[j].lives| && command in run.states[j].lives[l].queue && command.Command?
    requires command.flag < |run.states[j].reg.flags|
    requires var origin := run.states[j].reg.flags[command.flag].origin;
             || (origin.Capability? && origin.token in TokensOn(run.states[i].reg.sessions, d))
             || (command.flag < |run.states[i].reg.flags| && origin.device == d)
    ensures !Accepts(run.states[j], l, command)
  {
    hide RegistryInvariant.Inv, SessionsOk, ReservationsOk, LivesOk, CommandsOk, TearDown, TokensOn,
         Next, Enabled, TearsDown, Gone;
    RunKeeps(run, i);
    RunKeeps(run, j);
    var s, f := run.states[i], command.flag;
    TearDownRegistry(s, run.steps[i], d);
    var origin := run.states[j].reg.flags[f].origin;
    if origin.Capability? && origin.token in TokensOn(s.reg.sessions, d) {
      TornTokenIsGone(s, run.steps[i], d, origin.token);
      RunStaysGone(run, i + 1, j, origin.token);
      GoneIsPowerless(run.states[j], origin.token, f);
    } else {
      RunFlagsLater(run, i, j);
      TearDownRevokes(s.reg, d, Owed(s.teardowns), f);
      RunFlagsLater(run, i + 1, j);
    }
  }

  // ---------- transports ----------

  /** A report of a transport's end takes effect iff the capability it presents is still valid
      and was granted for exactly this session, device, plane and generation; otherwise nothing
      changes, even where mode and generation have come back to the same values. */
  lemma DisconnectActsIffGranted(run: Run, i: nat, d: DeviceId, t: Token, kind: Plane, generation: nat, f: FlagId)
    requires IsRun(run) && i < |run.states|
    ensures var r := run.states[i].reg;
            var n := Disconnect(r, d, t, kind, generation, f);
            if GrantedFor(r, d, t, kind, generation, f)
            then t in n.sessions && n.sessions[t].mode == NM && t !in n.caps && f < |n.flags| && !n.flags[f].valid
            else n == r
  {
    RunKeeps(run, i);
    var s := run.states[i];
    hide RegistryInvariant.Inv, SessionsOk, ReservationsOk, LivesOk, CommandsOk;
    CurrentIffGranted(s.reg, d, t, kind, generation, f, Owed(s.teardowns));
    if IsCurrent(s.reg, d, t, kind, generation, f) {
      DisconnectTakesEffect(s.reg, d, t, kind, generation, f);
    }
  }

  /** No session has two valid capabilities. */
  lemma OneCapabilityEach(run: Run, i: nat, f: FlagId, g: FlagId)
    requires IsRun(run) && i < |run.states|
    requires f < |run.states[i].reg.flags| && g < |run.states[i].reg.flags|
    requires var flags := run.states[i].reg.flags;
             && flags[f].valid && flags[f].origin.Capability? && flags[g].valid && flags[g].origin.Capability?
             && flags[f].origin.token == flags[g].origin.token
    ensures f == g
  {
    RunKeeps(run, i);
    var s := run.states[i];
    RegistryInvariant.ValidIffCurrent(s.reg, f, Owed(s.teardowns));
    RegistryInvariant.ValidIffCurrent(s.reg, g, Owed(s.teardowns));
  }

  // ---------- opening ----------

  /** At most one opener per device is between reserving and removing its reservation. */
  lemma SingleFlight(run: Run, i: nat, t: Token, u: Token)
    requires IsRun(run) && i < |run.states|
    requires t < |run.states[i].openers| && u < |run.states[i].openers|
    requires Held(run.states[i].openers[t].pc).Some? && Held(run.states[i].openers[u].pc).Some?
    requires run.states[i].openers[t].device == run.states[i].openers[u].device
    ensures t == u
  {
    RunKeeps(run, i);
    assert HolderOk(run.states[i], t) && HolderOk(run.states[i], u);
  }

  /** Until the holder publishes, its device is absent: neither check of the code that another
      session might have opened it in the meantime ever succeeds. */
  lemma HolderFindsDeviceAbsent(run: Run, i: nat, t: Token)
    requires IsRun(run) && i < |run.states| && t < |run.states[i].openers|
    requires Unpublished(run.states[i].openers[t].pc)
    ensures run.states[i].openers[t].device !in run.states[i].reg.devices
    ensures Register(run.states[i].reg, run.states[i].openers[t].device, t, run.states[i].openers[t].client) == None
  {
    RunKeeps(run, i);
    assert HolderOk(run.states[i], t);
  }

  /** The opener's reservation is invalidated and it has not published. */
  ghost predicate Doomed(s: State, t: Token) {
    && t < |s.openers|
    && match s.openers[t].pc
       case Stopping(_, _, ok) => !ok
       case Removing(_, ok) => !ok
       case Notifying(_, ok) => !ok
       case Done(ok) => !ok
       case pc => Held(pc).Some? && Unpublished(pc) && Held(pc).value < |s.resvs| && s.resvs[Held(pc).value].invalidated
  }

  /** The step is one of opener `t`'s own. */
  predicate ActsFor(step: Step, t: Token) {
    match step
    case Ask(u) => u == t
    case Recheck(u) => u == t
    case OpenPhysical(u, _) => u == t
    case CheckFirst(u) => u == t
    case Build(u) => u == t
    case PublishEntry(u) => u == t
    case StopLocal(u) => u == t
    case ReleaseGate(u) => u == t
    case Remove(u) => u == t
    case Notify(u) => u == t
    case _ => false
  }

  /** Others can do no more to an opener than wake it; reservations are never taken back or revived. */
  lemma OthersStep(s: State, step: Step, t: Token)
    requires Enabled(s, step) && t < |s.openers| && !ActsFor(step, t)
    ensures Spared(s, Next(s, step), t)
  {
    hide DoAsk, DoRecheck, DoCheckFirst, DoBuild, DoPublish, DoStopLocal, DoReleaseGate, DoRemove, DoNotify, DoClose,
         DoForceClose, DoReaderDies, Refresh, RefreshAll, Connect, Disconnect, SetMode, Spared;
    if OwnKind(step) { OtherOpenersStep(s, step, t); } else { DaemonsStep(s, step, t); }
  }

  /** The opener was at most woken, and no reservation was taken back or revived. */
  ghost predicate Spared(s: State, n: State, t: Token)
    requires t < |s.openers|
  {
    && t < |n.openers| && |s.resvs| <= |n.resvs|
    && (n.openers[t] == s.openers[t] || (s.openers[t].pc.Waiting? && n.openers[t].pc.Waiting?))
    && (forall r :: 0 <= r < |s.resvs| && s.resvs[r].invalidated ==> n.resvs[r].invalidated)
  }

  /** A step that an opener takes for itself. */
  predicate OwnKind(step: Step) {
    step.Ask? || step.Recheck? || step.OpenPhysical? || step.CheckFirst? || step.Build? || step.PublishEntry?
    || step.StopLocal? || step.ReleaseGate? || step.Remove? || step.Notify?
  }

  /** A step that makes or changes a lifetime of the opener's own. */
  predicate LifeKind(step: Step) {
    step.Build? || step.PublishEntry? || step.StopLocal? || step.ReleaseGate?
  }

  lemma OtherOpenersStep(s: State, step: Step, t: Token)
    requires Enabled(s, step) && t < |s.openers| && !ActsFor(step, t) && OwnKind(step)
    ensures Spared(s, Next(s, step), t)
  {
    hide Refresh, Register, Publish;
  }

  lemma DaemonsStep(s: State, step: Step, t: Token)
    requires Enabled(s, step) && t < |s.openers| && !OwnKind(step)
    ensures Spared(s, Next(s, step), t)
  {
    hide Refresh, RefreshAll, Switch, TearDown, Close, Connect, Disconnect, SetMode;
  }

  lemma OwnStepStaysDoomed(s: State, step: Step, t: Token)
    requires Enabled(s, step) && Doomed(s, t) && ActsFor(step, t) && HolderOk(s, t)
    ensures Doomed(Next(s, step), t)
  {
    hide Refresh, RefreshAll, Switch, TearDown, Close, Publish, Connect, Disconnect, SetMode;
  }

  lemma StepStaysDoomed(s: State, step: Step, t: Token)
    requires Inv(s) && Enabled(s, step) && Doomed(s, t)
    ensures Doomed(Next(s, step), t)
  {
    OpenerAt(s, t);
    hide Inv, HolderOk;
    if ActsFor(step, t) {
      OwnStepStaysDoomed(s, step, t);
    } else {
      OthersStep(s, step, t);
      hide Next, Enabled;
    }
  }

  lemma {:induction false} RunStaysDoomed(run: Run, i: nat, j: nat, t: Token)
    requires IsRun(run) && i <= j < |run.states| && Doomed(run.states[i], t)
    ensures Doomed(run.states[j], t)
    decreases j
  {
    hide Inv, Next, Enabled, Doomed;
    if i < j {
      RunStaysDoomed(run, i, j - 1, t);
      RunKeeps(run, j - 1);
      StepStaysDoomed(run.states[j - 1], run.steps[j - 1], t);
    }
  }

  /** An opener whose reservation was invalidated before it published never publishes and never gets
      a session. */
  lemma InvalidatedNeverPublishes(run: Run, i: nat, j: nat, t: Token)
    requires IsRun(run) && i <= j < |run.states| && t < |run.states[i].openers|
    requires Unpublished(run.states[i].openers[t].pc)
    requires Held(run.states[i].openers[t].pc).value < |run.states[i].resvs|
    requires run.states[i].resvs[Held(run.states[i].openers[t].pc).value].invalidated
    ensures t !in run.states[j].reg.sessions
    ensures t < |run.states[j].openers| && !run.states[j].openers[t].pc.Installed?
  {
    RunStaysDoomed(run, i, j, t);
    RunKeeps(run, j);
    FreshToken(run.states[j], t);
  }

  /** No lost wakeup: a waiter that nobody has woken waits on a reservation that is still stored
      for its device, or whose holder has removed it and has yet to call `notify_waiters`. */
  lemma NoLostWakeup(run: Run, i: nat, t: Token)
    requires IsRun(run) && i < |run.states| && t < |run.states[i].openers|
    requires run.states[i].openers[t].pc.Waiting? && !run.states[i].openers[t].pc.woken
    ensures var s := run.states[i];
            var r := s.openers[t].pc.resv;
            && r < |s.resvs| && s.resvs[r].holder < |s.openers|
            && var holder := s.openers[s.resvs[r].holder];
               || (s.openers[t].device in s.opening && s.opening[s.openers[t].device] == r
                  && Held(holder.pc) == Some(r))
               || (holder.pc.Notifying? && holder.pc.resv == r)
  {
    RunKeeps(run, i);
    var s := run.states[i];
    assert WaiterOk(s, t);
    assert HolderOk(s, s.resvs[s.openers[t].pc.resv].holder);
  }

  /** A holder, and an opener that owes the wakeup, always has a step it can take. */
  function OwnStep(t: Token, pc: Pc): Step {
    match pc
    case Holding(_) => OpenPhysical(t, false)
    case Opened(_) => CheckFirst(t)
    case Checked(_) => Build(t)
    case Built(_, _) => PublishEntry(t)
    case Stopping(_, _, _) => StopLocal(t)
    case Installed(_, _) => ReleaseGate(t)
    case Removing(_, _) => Remove(t)
    case Notifying(_, _) => Notify(t)
    case _ => Ask(t)
  }

  /** How many steps of its own the opener still needs before its waiters are woken. */
  function StepsToWake(pc: Pc): nat {
    match pc
    case Holding(_) => 7
    case Opened(_) => 6
    case Checked(_) => 5
    case Built(_, _) => 4
    case Stopping(_, _, _) => 3
    case Installed(_, _) => 3
    case Removing(_, _) => 2
    case Notifying(_, _) => 1
    case _ => 0
  }

  /** A holder is never blocked, and each of its own steps brings the wakeup nearer; the last
      one wakes every waiter on its reservation. */
  lemma HolderProgresses(run: Run, i: nat, t: Token, success: bool)
    requires IsRun(run) && i < |run.states| && t < |run.states[i].openers|
    requires StepsToWake(run.states[i].openers[t].pc) > 0
    ensures Progresses(run.states[i], t, success)
  {
    RunKeeps(run, i);
    hide Inv, IsRun, Progresses;
    OpenerAt(run.states[i], t);
    OwnStepProgresses(run.states[i], t, success);
  }

  ghost predicate Progresses(s: State, t: Token, success: bool) {
    && t < |s.openers|
    && var pc := s.openers[t].pc;
       var step := if pc.Holding? then OpenPhysical(t, success) else OwnStep(t, pc);
       && Enabled(s, step)
       && var n := Next(s, step);
          && t < |n.openers| && StepsToWake(n.openers[t].pc) < StepsToWake(pc)
          && (pc.Notifying? ==> AllWoken(n, pc.resv))
  }

  ghost predicate AllWoken(s: State, r: ResvId) {
    forall u: Token :: u < |s.openers| && s.openers[u].pc.Waiting? && s.openers[u].pc.resv == r
      ==> s.openers[u].pc.woken
  }

  lemma OwnStepProgresses(s: State, t: Token, success: bool)
    requires t < |s.openers| && StepsToWake(s.openers[t].pc) > 0 && HolderOk(s, t) && BuilderOk(s, t)
    ensures Progresses(s, t, success)
  {
    hide Publish, Refresh;
  }

  // ---------- the counter ----------

  /** The counter of non-NM sessions is the number of live WS and WT sessions plus the decrements
      still owed; so it is never below what is about to be subtracted from it, and it is not
      zero while a WS or WT session exists. */
  lemma CounterNeverShort(run: Run, i: nat, k: TaskId, t: Token)
    requires IsRun(run) && i < |run.states|
    ensures var s := run.states[i];
            && s.reg.nonNm == |NonNmTokens(s.reg.sessions)| + Owed(s.teardowns)
            && (k < |s.teardowns| ==> s.teardowns[k].settle <= s.reg.nonNm)
            && (t in s.reg.sessions && s.reg.sessions[t].mode != NM ==> s.reg.nonNm > 0)
  {
    RunKeeps(run, i);
    var s := run.states[i];
    assert RegistryInvariant.CounterOk(s.reg, Owed(s.teardowns));
    if k < |s.teardowns| { OwedUpdate(s.teardowns, k, s.teardowns[k].(settle := 0)); }
    if t in s.reg.sessions && s.reg.sessions[t].mode != NM { assert t in NonNmTokens(s.reg.sessions); }
  }

  // ---------- stopping ----------

  predicate OwesStop(s: State, k: TaskId, l: LifeId) {
    k < |s.teardowns| && s.teardowns[k].stop == Bump(l)
  }

  /** A lifetime is stopped at most once, and while it is installed, not at all. One that is
      detached has exactly one task that is to stop it. */
  lemma StoppedOnce(run: Run, i: nat, l: LifeId)
    requires IsRun(run) && i < |run.states| && l < |run.states[i].lives|
    ensures var s := run.states[i];
            && s.lives[l].epoch <= 1
            && (s.lives[l].epoch == 1 <==> s.lives[l].phase == Stopped)
            && (s.lives[l].phase == Live <==>
                s.lives[l].device in s.reg.devices && s.reg.devices[s.lives[l].device] == l)
            && (s.lives[l].phase.Detached? <==> exists k: TaskId :: OwesStop(s, k, l))
            && (forall k: TaskId, m: TaskId :: OwesStop(s, k, l) && OwesStop(s, m, l) ==> k == m)
  {
    hide IsRun, RegistryOk, SessionsOk, ReservationsOk, LivesOk, CommandsOk, OwesStop;
    RunKeeps(run, i);
    StoppedAtMostOnce(run.states[i], l);
    OneStopOwed(run.states[i], l);
  }

  lemma StoppedAtMostOnce(s: State, l: LifeId)
    requires LivesOk(s) && l < |s.lives|
    ensures s.lives[l].epoch <= 1 && (s.lives[l].epoch == 1 <==> s.lives[l].phase == Stopped)
    ensures s.lives[l].phase == Live <==> s.lives[l].device in s.reg.devices && s.reg.devices[s.lives[l].device] == l
  {
    hide TeardownOk, BuilderOk;
    assert LifeOk(s, l);
    if s.lives[l].device in s.reg.devices { assert InstalledOk(s, s.lives[l].device); }
  }

  lemma OneStopOwed(s: State, l: LifeId)
    requires LivesOk(s) && l < |s.lives|
    ensures s.lives[l].phase.Detached? <==> exists k: TaskId :: OwesStop(s, k, l)
    ensures forall k: TaskId, m: TaskId :: OwesStop(s, k, l) && OwesStop(s, m, l) ==> k == m
  {
    hide BuilderOk, InstalledOk;
    assert LifeOk(s, l);
    assert s.lives[l].phase.Detached? ==> OwesStop(s, s.lives[l].phase.task, l);
    forall k: TaskId | OwesStop(s, k, l) ensures s.lives[l].phase == Detached(k) {
      assert TeardownOk(s, k);
    }
  }
}
