/** What became of the physical entry that an opener built: an open that fails leaves no entry
    behind that is not stopped. */
module LifecycleBuilders {
  import opened Wrappers
  import opened Registry
  import opened Lifecycle
  import opened LifecycleInvariant
  import opened LifecycleSteps
  import opened LifecycleTheorems

  /** How far lifetime `l` can be when its opener is at `pc`. */
  predicate LifeFits(pc: Pc, l: LifeId, phase: Phase) {
    match pc
    case Built(_, m) => l == m
    case Stopping(_, m, _) => l == m
    case Installed(_, _) => true
    case Removing(_, ok) => ok || phase == Stopped
    case Notifying(_, ok) => ok || phase == Stopped
    case Done(ok) => ok || phase == Stopped
    case _ => false
  }

  predicate Fits(s: State, l: LifeId)
    requires l < |s.lives|
  {
    s.lives[l].opener < |s.openers| && LifeFits(s.openers[s.lives[l].opener].pc, l, s.lives[l].phase)
  }

  ghost predicate AllFit(s: State) { forall l: LifeId :: l < |s.lives| ==> Fits(s, l) }

  /** Lifetimes keep their opener and, once stopped, stay so; openers are at most woken. */
  ghost predicate Steady(s: State, n: State) {
    && |n.lives| == |s.lives| && |n.openers| >= |s.openers|
    && (forall l: LifeId :: l < |s.lives| ==>
          n.lives[l].opener == s.lives[l].opener && (s.lives[l].phase == Stopped ==> n.lives[l].phase == Stopped))
    && (forall t: Token :: t < |s.openers| ==> n.openers[t].pc == s.openers[t].pc || s.openers[t].pc.Waiting?)
  }

  lemma SteadyFits(s: State, n: State)
    requires AllFit(s) && Steady(s, n)
    ensures AllFit(n)
  {
    forall l: LifeId | l < |n.lives| ensures Fits(n, l) { assert Fits(s, l); }
  }

  /** The steps that are not an opener's own. */
  lemma OthersAreSteady(s: State, step: Step)
    requires Inv(s) && Enabled(s, step) && !OwnKind(step)
    requires !step.CloseSession? && !step.ForceClose? && !step.ReaderDies? && !step.BumpEpoch?
    ensures Steady(s, Next(s, step))
  {
    hide Inv, Refresh, RefreshAll, Connect, Disconnect, SetMode, Accepts, DoClose, DoForceClose, DoReaderDies, DoBump;
  }

  lemma BumpIsSteady(s: State, k: TaskId)
    requires Inv(s) && Enabled(s, BumpEpoch(k))
    ensures Steady(s, Next(s, BumpEpoch(k)))
  {
    hide Inv;
  }

  /** A lifetime that is detached was installed, so it was not stopped. */
  lemma DetachIsSteady(s: State, entry: Option<LifeId>, k: TaskId)
    requires entry.Some? && entry.value < |s.lives| ==> s.lives[entry.value].phase != Stopped
    ensures Steady(s, s.(lives := Detach(s.lives, entry, k)))
  {
  }

  lemma EntryNotStopped(s: State, d: DeviceId)
    requires Inv(s)
    ensures var entry := EntryOf(s.reg, d);
            entry.Some? ==> entry.value < |s.lives| && s.lives[entry.value].phase != Stopped
  {
    hide RegistryOk, SessionsOk, ReservationsOk, CommandsOk;
    if d in s.reg.devices { assert InstalledOk(s, d); }
  }

  lemma CloseIsSteady(s: State, d: DeviceId, t: Token, c: ClientId)
    requires Inv(s)
    ensures Steady(s, DoClose(s, d, t, c))
  {
    hide Inv, Close;
    EntryNotStopped(s, d);
    ClosedEntry(s.reg, d, t, c);
    var entry := Close(s.reg, d, t, c).1;
    if entry.Closed? { DetachIsSteady(s, entry.entry, |s.teardowns|); }
  }

  lemma ClosedEntry(r: Registry, d: DeviceId, t: Token, c: ClientId)
    ensures var outcome := Close(r, d, t, c).1;
            outcome.Closed? ==> outcome.entry == None || outcome.entry == EntryOf(r, d)
  {
  }

  lemma ForceCloseIsSteady(s: State, d: DeviceId)
    requires Inv(s)
    ensures Steady(s, DoForceClose(s, d))
  {
    hide Inv, TearDown, NonNmOn;
    EntryNotStopped(s, d);
    DetachIsSteady(s, EntryOf(s.reg, d), |s.teardowns|);
  }

  lemma ReaderIsSteady(s: State, l: LifeId)
    requires Inv(s) && l < |s.lives|
    ensures Steady(s, DoReaderDies(s, l))
  {
    hide Inv, TearDown, NonNmOn;
    EntryNotStopped(s, s.lives[l].device);
    var n := SetLife(s, l, s.lives[l].(reader := Exited));
    DetachIsSteady(n, EntryOf(s.reg, s.lives[l].device), |s.teardowns|);
  }

  /** An opener's own step moves its own lifetimes only. */
  lemma OwnStepFits(s: State, step: Step, t: Token)
    requires Inv(s) && Enabled(s, step) && OwnKind(step) && step.t == t && AllFit(s) && t < |s.openers|
    ensures AllFit(Next(s, step))
  {
    hide RegistryOk, SessionsOk, ReservationsOk, LivesOk, CommandsOk, Enabled, Next, AllFit,
         HolderOk, WaiterOk, BuilderOk;
    OpenerAt(s, t);
    if LifeKind(step) { LifeStepFits(s, step, t); } else { AsideStepFits(s, step, t); }
  }

  lemma LifeStepFits(s: State, step: Step, t: Token)
    requires Enabled(s, step) && LifeKind(step) && step.t == t && AllFit(s) && t < |s.openers|
    requires HolderOk(s, t) && BuilderOk(s, t)
    ensures AllFit(Next(s, step))
  {
    hide Publish, Refresh, Register;
    var n := Next(s, step);
    forall l: LifeId | l < |n.lives| ensures Fits(n, l) {
      if l < |s.lives| { assert Fits(s, l); }
    }
  }

  lemma AsideStepFits(s: State, step: Step, t: Token)
    requires Enabled(s, step) && OwnKind(step) && !LifeKind(step) && step.t == t && AllFit(s) && t < |s.openers|
    requires HolderOk(s, t)
    ensures AllFit(Next(s, step))
  {
    hide Publish, Refresh, Register;
    var n := Next(s, step);
    forall l: LifeId | l < |n.lives| ensures Fits(n, l) { assert Fits(s, l); }
  }

  lemma StepFits(s: State, step: Step)
    requires Inv(s) && Enabled(s, step) && AllFit(s)
    ensures AllFit(Next(s, step))
  {
    hide Inv, Enabled, AllFit, Steady, DoAsk, DoRecheck, DoCheckFirst, DoBuild, DoPublish, DoStopLocal, DoReleaseGate,
         DoRemove, DoNotify, DoClose, DoForceClose, DoReaderDies, DoBump, DoRequest, DoSend, DoWork;
    if OwnKind(step) {
      ActorIsThere(s, step);
      OwnStepFits(s, step, step.t);
    } else {
      if step.CloseSession? {
        CloseIsSteady(s, step.device, step.t, step.client);
      } else if step.ForceClose? {
        ForceCloseIsSteady(s, step.device);
      } else if step.ReaderDies? {
        ReaderEnabled(s, step.life);
        ReaderIsSteady(s, step.life);
      } else if step.BumpEpoch? {
        BumpIsSteady(s, step.k);
      } else {
        OthersAreSteady(s, step);
      }
      SteadyFits(s, Next(s, step));
    }
  }

  lemma ReaderEnabled(s: State, l: LifeId)
    requires Enabled(s, ReaderDies(l))
    ensures l < |s.lives|
  {
  }

  lemma ActorIsThere(s: State, step: Step)
    requires Enabled(s, step) && OwnKind(step)
    ensures step.t < |s.openers|
  {
  }

  lemma {:induction false} RunFits(run: Run, i: nat)
    requires IsRun(run) && i < |run.states|
    ensures AllFit(run.states[i])
  {
    hide Inv, Next, Enabled;
    if i > 0 {
      RunFits(run, i - 1);
      RunKeeps(run, i - 1);
      StepFits(run.states[i - 1], run.steps[i - 1]);
    }
  }

  /** An opener that failed, also after its reservation was invalidated, leaves no running entry:
      whatever it built was stopped, exactly once. */
  lemma FailedOpenStopsItsEntry(run: Run, i: nat, t: Token, l: LifeId)
    requires IsRun(run) && i < |run.states| && t < |run.states[i].openers| && l < |run.states[i].lives|
    requires var pc := run.states[i].openers[t].pc; (pc.Done? || pc.Removing? || pc.Notifying?) && !pc.ok
    requires run.states[i].lives[l].opener == t
    ensures run.states[i].lives[l].phase == Stopped && run.states[i].lives[l].epoch == 1
  {
    hide IsRun;
    RunFits(run, i);
    assert Fits(run.states[i], l);
    StoppedOnce(run, i, l);
  }

  /** In particular one whose reservation was invalidated before it published. */
  lemma InvalidatedLeavesNothing(run: Run, i: nat, j: nat, t: Token, l: LifeId)
    requires IsRun(run) && i <= j < |run.states| && t < |run.states[i].openers| && l < |run.states[j].lives|
    requires Unpublished(run.states[i].openers[t].pc)
    requires Held(run.states[i].openers[t].pc).value < |run.states[i].resvs|
    requires run.states[i].resvs[Held(run.states[i].openers[t].pc).value].invalidated
    requires run.states[j].lives[l].opener == t && t < |run.states[j].openers|
    requires var pc := run.states[j].openers[t].pc; pc.Done? || pc.Removing? || pc.Notifying?
    ensures run.states[j].lives[l].phase == Stopped && run.states[j].lives[l].epoch == 1
  {
    hide IsRun;
    RunStaysDoomed(run, i, j, t);
    FailedOpenStopsItsEntry(run, j, t, l);
  }

  // ---------- a device that goes while it is being opened ----------

  /** In step `i` device `d` is closed by force, and `t` is at work on opening it. */
  ghost predicate ClosedWhileOpening(run: Run, i: nat, d: DeviceId, t: Token) {
    && i < |run.steps| && i < |run.states| && run.steps[i] == ForceClose(d)
    && t < |run.states[i].openers|
    && run.states[i].openers[t].device == d && Unpublished(run.states[i].openers[t].pc)
  }

  /** A forced close invalidates the reservation that is stored for the device. */
  lemma ForceCloseInvalidates(s: State, d: DeviceId, t: Token)
    requires t < |s.openers| && HolderOk(s, t) && s.openers[t].device == d && Unpublished(s.openers[t].pc)
    ensures Doomed(DoForceClose(s, d), t)
  {
    hide TearDown, NonNmOn, Detach;
  }

  /** It also wakes everyone who waits on that reservation. */
  lemma ForceCloseWakes(run: Run, i: nat, d: DeviceId)
    requires IsRun(run) && i < |run.steps| && run.steps[i] == ForceClose(d)
    requires i < |run.states| && d in run.states[i].opening
    ensures i + 1 < |run.states| && AllWoken(run.states[i + 1], run.states[i].opening[d])
  {
    hide IsRun, RegistryOk, SessionsOk, LivesOk, CommandsOk, DoForceClose;
    RunKeeps(run, i);
    ForceCloseIs(run, i, d);
    assert StoredOk(run.states[i], d);
    ForceCloseWakesAll(run.states[i], d);
  }

  lemma ForceCloseWakesAll(s: State, d: DeviceId)
    requires d in s.opening && s.opening[d] < |s.resvs|
    ensures AllWoken(DoForceClose(s, d), s.opening[d])
  {
    hide TearDown, NonNmOn, Detach;
  }

  /** An opener whose device is closed by force before it publishes never gets a session and never
      installs its entry; whatever it built is stopped, once, by the time it is through, and it
      reports a failure. */
  lemma ClosedWhileOpeningFails(run: Run, i: nat, j: nat, d: DeviceId, t: Token)
    requires IsRun(run) && i < j < |run.states| && ClosedWhileOpening(run, i, d, t)
    ensures t !in run.states[j].reg.sessions
    ensures t < |run.states[j].openers|
    ensures var pc := run.states[j].openers[t].pc;
            !pc.Installed? && (pc.Done? ==> !pc.ok && AllStopped(run.states[j], t))
  {
    hide Inv, Enabled, Next, AllStopped, Fits, LifeFits;
    RunKeeps(run, i);
    OpenerThere(run.states[i], t);
    ForceCloseInvalidates(run.states[i], d, t);
    ForceCloseIs(run, i, d);
    RunStaysDoomed(run, i + 1, j, t);
    RunKeeps(run, j);
    DoomedHasNoSession(run.states[j], t);
    if run.states[j].openers[t].pc.Done? { FailedStopsAll(run, j, t); }
  }

  ghost predicate AllStopped(s: State, t: Token) {
    forall l: LifeId :: l < |s.lives| && s.lives[l].opener == t ==> s.lives[l].phase == Stopped && s.lives[l].epoch == 1
  }

  lemma FailedStopsAll(run: Run, j: nat, t: Token)
    requires IsRun(run) && j < |run.states| && t < |run.states[j].openers|
    requires run.states[j].openers[t].pc.Done? && !run.states[j].openers[t].pc.ok
    ensures AllStopped(run.states[j], t)
  {
    hide IsRun;
    forall l: LifeId | l < |run.states[j].lives| && run.states[j].lives[l].opener == t
      ensures run.states[j].lives[l].phase == Stopped && run.states[j].lives[l].epoch == 1
    {
      FailedOpenStopsItsEntry(run, j, t, l);
    }
  }

  lemma OpenerThere(s: State, t: Token)
    requires Inv(s) && t < |s.openers|
    ensures HolderOk(s, t)
  {
    hide RegistryOk, SessionsOk, ReservationsOk, LivesOk, CommandsOk;
    OpenerAt(s, t);
  }

  lemma ForceCloseIs(run: Run, i: nat, d: DeviceId)
    requires IsRun(run) && i < |run.steps| && run.steps[i] == ForceClose(d)
    ensures i + 1 < |run.states| && run.states[i + 1] == DoForceClose(run.states[i], d)
  {
    hide DoForceClose;
    assert run.states[i + 1] == Next(run.states[i], run.steps[i]);
  }

  lemma DoomedHasNoSession(s: State, t: Token)
    requires Inv(s) && Doomed(s, t)
    ensures t !in s.reg.sessions && !s.openers[t].pc.Installed? && (s.openers[t].pc.Done? ==> !s.openers[t].pc.ok)
  {
    hide RegistryOk, ReservationsOk, LivesOk, CommandsOk;
    FreshToken(s, t);
  }

  /** The step decides that the open of `t` fails. */
  ghost predicate PhysicalFails(run: Run, i: nat, t: Token) {
    i < |run.steps| && i < |run.states| && run.steps[i] == OpenPhysical(t, false)
  }

  lemma FailedPhysicalDooms(s: State, t: Token)
    requires Enabled(s, OpenPhysical(t, false))
    ensures Doomed(Next(s, OpenPhysical(t, false)), t) && Bare(Next(s, OpenPhysical(t, false)), t)
  {
  }

  /** The opener is failing, or its reservation is invalidated, and it has not come past the first
      check: it has no entry and will build none. */
  predicate Bare(s: State, t: Token) {
    && t < |s.openers|
    && match s.openers[t].pc
       case Removing(_, ok) => !ok
       case Notifying(_, ok) => !ok
       case Done(ok) => !ok
       case Holding(r) => r < |s.resvs| && s.resvs[r].invalidated
       case Opened(r) => r < |s.resvs| && s.resvs[r].invalidated
       case _ => false
  }

  lemma OwnStepStaysBare(s: State, step: Step, t: Token)
    requires Enabled(s, step) && Bare(s, t) && ActsFor(step, t)
    ensures Bare(Next(s, step), t) && !step.Build?
  {
    hide Refresh, Register, Publish, WakeAll;
  }

  lemma StepStaysBare(s: State, step: Step, t: Token)
    requires Enabled(s, step) && Bare(s, t)
    ensures Bare(Next(s, step), t) && !(step.Build? && step.t == t)
  {
    hide Enabled, Next;
    if ActsFor(step, t) { OwnStepStaysBare(s, step, t); } else { OthersStep(s, step, t); }
  }

  /** Only a build adds a lifetime, and it is the opener's who builds. */
  lemma BuiltBy(s: State, step: Step, l: LifeId)
    requires Enabled(s, step) && l < |Next(s, step).lives|
    ensures l >= |s.lives| ==> step.Build? && Next(s, step).lives[l].opener == step.t
    ensures l < |s.lives| ==> Next(s, step).lives[l].opener == s.lives[l].opener
  {
    hide Refresh, RefreshAll, Close, TearDown, Connect, Disconnect, SetMode, RemoveSink, Register, Publish, Accepts,
         NonNmOn, EntryOf, WakeAll;
  }

  ghost predicate NothingBuilt(s: State, t: Token) {
    forall l: LifeId :: l < |s.lives| ==> s.lives[l].opener != t
  }

  lemma {:induction false} RunStaysBare(run: Run, i: nat, j: nat, t: Token)
    requires IsRun(run) && i <= j < |run.states| && Bare(run.states[i], t) && NothingBuilt(run.states[i], t)
    ensures Bare(run.states[j], t) && NothingBuilt(run.states[j], t)
    decreases j
  {
    hide Enabled, Next, Bare;
    if i < j {
      RunStaysBare(run, i, j - 1, t);
      StepStaysBare(run.states[j - 1], run.steps[j - 1], t);
      forall l: LifeId | l < |run.states[j].lives| ensures run.states[j].lives[l].opener != t {
        BuiltBy(run.states[j - 1], run.steps[j - 1], l);
      }
    }
  }

  /** An opener that has not come past its first check has built nothing. */
  lemma NothingYet(run: Run, i: nat, t: Token)
    requires IsRun(run) && i < |run.states| && t < |run.states[i].openers|
    requires run.states[i].openers[t].pc.Holding? || run.states[i].openers[t].pc.Opened?
    ensures NothingBuilt(run.states[i], t)
  {
    hide IsRun;
    RunFits(run, i);
    forall l: LifeId | l < |run.states[i].lives| ensures run.states[i].lives[l].opener != t {
      assert Fits(run.states[i], l);
    }
  }

  /** When the physical open fails, or the device is closed by force before the first check, no entry
      is ever built for the opener, and it fails. */
  lemma FailsBeforeBuilding(run: Run, i: nat, j: nat, d: DeviceId, t: Token)
    requires IsRun(run) && i < j < |run.states| && t < |run.states[i].openers|
    requires || PhysicalFails(run, i, t)
             || (ClosedWhileOpening(run, i, d, t)
                 && (run.states[i].openers[t].pc.Holding? || run.states[i].openers[t].pc.Opened?))
    ensures NothingBuilt(run.states[j], t)
    ensures t !in run.states[j].reg.sessions
    ensures t < |run.states[j].openers| && (run.states[j].openers[t].pc.Done? ==> !run.states[j].openers[t].pc.ok)
  {
    hide Inv, Next, Doomed, Bare, NothingBuilt, ClosedWhileOpening;
    FailsNext(run, i, d, t);
    RunStaysDoomed(run, i + 1, j, t);
    RunStaysBare(run, i + 1, j, t);
    RunKeeps(run, j);
    DoomedHasNoSession(run.states[j], t);
    BareIsThere(run.states[j], t);
  }

  lemma BareIsThere(s: State, t: Token)
    requires Bare(s, t)
    ensures t < |s.openers|
  {
  }

  lemma FailsNext(run: Run, i: nat, d: DeviceId, t: Token)
    requires IsRun(run) && i + 1 < |run.states| && t < |run.states[i].openers|
    requires || PhysicalFails(run, i, t)
             || (ClosedWhileOpening(run, i, d, t)
                 && (run.states[i].openers[t].pc.Holding? || run.states[i].openers[t].pc.Opened?))
    ensures Doomed(run.states[i + 1], t) && Bare(run.states[i + 1], t) && NothingBuilt(run.states[i + 1], t)
  {
    hide Inv, Next, Enabled, Doomed, Bare, NothingBuilt;
    var s, step := run.states[i], run.steps[i];
    if PhysicalFails(run, i, t) {
      FailedPhysicalDooms(s, t);
      EnabledHolds(s, t);
    } else {
      RunKeeps(run, i);
      OpenerThere(s, t);
      ForceCloseInvalidates(s, d, t);
      ForceCloseBares(s, d, t);
      ForceCloseIs(run, i, d);
    }
    NothingYet(run, i, t);
    NothingBuiltNext(s, step, t);
  }

  lemma EnabledHolds(s: State, t: Token)
    requires Enabled(s, OpenPhysical(t, false))
    ensures t < |s.openers| && s.openers[t].pc.Holding?
  {
  }

  lemma ForceCloseBares(s: State, d: DeviceId, t: Token)
    requires t < |s.openers| && HolderOk(s, t) && s.openers[t].device == d
    requires s.openers[t].pc.Holding? || s.openers[t].pc.Opened?
    ensures Bare(DoForceClose(s, d), t)
  {
    hide TearDown, NonNmOn, Detach;
  }

  lemma NothingBuiltNext(s: State, step: Step, t: Token)
    requires Enabled(s, step) && NothingBuilt(s, t) && !step.Build?
    ensures NothingBuilt(Next(s, step), t)
  {
    hide Enabled, Next;
    var n := Next(s, step);
    forall l: LifeId | l < |n.lives| ensures n.lives[l].opener != t { BuiltBy(s, step, l); }
  }

  // ---------- who wakes a waiter ----------

  predicate WokenWaiter(s: State, t: Token) {
    t < |s.openers| && s.openers[t].pc.Waiting? && s.openers[t].pc.woken
  }

  /** A waiter is woken only by the opener that gives up its reservation, or by a forced close of the
      device while it is stored. */
  lemma WokenBy(s: State, step: Step, t: Token)
    requires Enabled(s, step) && WokenWaiter(Next(s, step), t) && !WokenWaiter(s, t)
    ensures t < |s.openers| && s.openers[t].pc.Waiting?
    ensures var r := s.openers[t].pc.resv;
            || (step.Notify? && s.openers[step.t].pc.Notifying? && s.openers[step.t].pc.resv == r)
            || (step.ForceClose? && step.device in s.opening && s.opening[step.device] == r)
  {
    hide Refresh, RefreshAll, Close, TearDown, Connect, Disconnect, SetMode, RemoveSink, Register, Publish, Accepts,
         NonNmOn, EntryOf, Detach;
  }
}
