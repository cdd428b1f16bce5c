/** What `open` answers its caller: success exactly when the caller got a session. */
module LifecycleOutcomes {
  import opened Registry
  import RegistryInvariant
  import opened RegistryOps
  import opened RegistryEffects
  import opened Lifecycle
  import opened LifecycleInvariant
  import opened LifecycleSteps
  import opened LifecycleTheorems

  /** Opener `t` exists and its session was put into the tables. */
  predicate Succeeded(s: State, t: Token) {
    t < |s.openers| && Registered(s.openers[t].pc)
  }

  /** An opener succeeds only in the step that puts its session in, and stays so. */
  ghost predicate Truthful(s: State, n: State, t: Token) {
    && (Succeeded(n, t) ==> Succeeded(s, t) || t in n.reg.sessions)
    && (Succeeded(s, t) ==> Succeeded(n, t))
  }

  lemma OthersAreTruthful(s: State, step: Step, t: Token)
    requires Enabled(s, step) && !ActsFor(step, t)
    ensures Truthful(s, Next(s, step), t)
  {
    hide Enabled, Next, Register;
    if t < |s.openers| { OthersStep(s, step, t); } else { NewcomerAsks(s, step, t); }
  }

  lemma NewcomerAsks(s: State, step: Step, t: Token)
    requires Enabled(s, step) && t >= |s.openers|
    ensures !Succeeded(Next(s, step), t)
  {
    hide Refresh, RefreshAll, Switch, TearDown, Close, Connect, Disconnect, SetMode, Publish, Register;
  }

  lemma OwnStepIsTruthful(s: State, step: Step, t: Token)
    requires Enabled(s, step) && ActsFor(step, t)
    ensures Truthful(s, Next(s, step), t)
  {
    hide Enabled, Next, Truthful;
    if step.PublishEntry? {
      PublishIsTruthful(s, step, t);
    } else if step.Ask? || step.Recheck? || step.CheckFirst? {
      JoinIsTruthful(s, step, t);
    } else {
      AsideIsTruthful(s, step, t);
    }
  }

  lemma PublishIsTruthful(s: State, step: Step, t: Token)
    requires Enabled(s, step) && step.PublishEntry? && step.t == t
    ensures Truthful(s, Next(s, step), t)
  {
    hide Register, Publish, Refresh;
    var o := s.openers[t];
    RegisterIfOpen(s.reg, o, t);
    PublishEffect(s.reg, o.device, o.pc.life, t, o.client);
  }

  lemma JoinIsTruthful(s: State, step: Step, t: Token)
    requires Enabled(s, step) && ActsFor(step, t) && (step.Ask? || step.Recheck? || step.CheckFirst?)
    ensures Truthful(s, Next(s, step), t)
  {
    hide Register, Publish, Refresh;
    ActorIsHere(s, step, t);
    RegisterIfOpen(s.reg, s.openers[t], t);
  }

  lemma AsideIsTruthful(s: State, step: Step, t: Token)
    requires Enabled(s, step) && ActsFor(step, t)
    requires !step.PublishEntry? && !step.Ask? && !step.Recheck? && !step.CheckFirst?
    ensures Truthful(s, Next(s, step), t)
  {
    hide Register, Publish, Refresh, WakeAll;
  }

  lemma ActorIsHere(s: State, step: Step, t: Token)
    requires Enabled(s, step) && ActsFor(step, t)
    ensures t < |s.openers|
  {
  }

  lemma RegisterIfOpen(r: Registry, o: Opener, t: Token)
    ensures var joined := Register(r, o.device, t, o.client);
            joined.Some? ==> t in joined.value.sessions
  {
    hide Refresh;
    if o.device in r.devices { RegisterEffect(r, o.device, t, o.client); }
  }

  lemma StepIsTruthful(s: State, step: Step, t: Token)
    requires Enabled(s, step)
    ensures Truthful(s, Next(s, step), t)
  {
    hide Enabled, Next, Truthful;
    if ActsFor(step, t) { OwnStepIsTruthful(s, step, t); } else { OthersAreTruthful(s, step, t); }
  }

  predicate SessionAt(run: Run, m: nat, t: Token) {
    m < |run.states| && t in run.states[m].reg.sessions
  }

  lemma RunLength(run: Run)
    requires IsRun(run)
    ensures |run.states| == |run.steps| + 1 && run.states[0] == Initial
  {
    hide Enabled, Next;
  }

  lemma RunIsTruthful(run: Run, i: nat, t: Token)
    requires IsRun(run) && i < |run.steps|
    ensures Truthful(run.states[i], run.states[i + 1], t)
  {
    hide Enabled, Next, Truthful;
    StepIsTruthful(run.states[i], run.steps[i], t);
  }

  lemma {:induction false} SucceededHadSession(run: Run, i: nat, t: Token) returns (m: nat)
    requires IsRun(run) && i < |run.states| && Succeeded(run.states[i], t)
    ensures m <= i && SessionAt(run, m, t)
  {
    hide IsRun, Succeeded;
    RunLength(run);
    if t in run.states[i].reg.sessions {
      m := i;
    } else {
      if i == 0 { NoneSucceeded(t); }
      RunIsTruthful(run, i - 1, t);
      m := SucceededHadSession(run, i - 1, t);
    }
  }

  lemma NoneSucceeded(t: Token)
    ensures !Succeeded(Initial, t)
  {
  }

  lemma {:induction false} StaysSucceeded(run: Run, i: nat, j: nat, t: Token)
    requires IsRun(run) && i <= j < |run.states| && Succeeded(run.states[i], t)
    ensures Succeeded(run.states[j], t)
    decreases j
  {
    hide IsRun, Succeeded;
    RunLength(run);
    if i < j {
      StaysSucceeded(run, i, j - 1, t);
      RunIsTruthful(run, j - 1, t);
    }
  }

  /** An `open` that is through answered success if and only if its session was in the tables at some
      time; it was then a session of the opener's client on the opener's device. */
  lemma OpenAnswersTruly(run: Run, i: nat, t: Token)
    requires IsRun(run) && i < |run.states| && t < |run.states[i].openers| && run.states[i].openers[t].pc.Done?
    ensures run.states[i].openers[t].pc.ok <==> exists m: nat :: m <= i && SessionAt(run, m, t)
  {
    hide IsRun, SessionAt;
    if run.states[i].openers[t].pc.ok {
      var m := SucceededHadSession(run, i, t);
    }
    if m: nat :| m <= i && SessionAt(run, m, t) {
      SessionSucceeded(run, m, t);
      StaysSucceeded(run, m, i, t);
    }
  }

  lemma SessionSucceeded(run: Run, m: nat, t: Token)
    requires IsRun(run) && SessionAt(run, m, t)
    ensures Succeeded(run.states[m], t)
    ensures var session, o := run.states[m].reg.sessions[t], run.states[m].openers[t];
            session.device == o.device && session.owner == o.client
  {
    hide IsRun, RegistryOk, ReservationsOk, LivesOk, CommandsOk;
    RunKeeps(run, m);
    assert SessionOk(run.states[m], t);
  }

  // ---------- why an open fails ----------

  predicate Failing(pc: Pc) {
    match pc
    case Stopping(_, _, ok) => !ok
    case Removing(_, ok) => !ok
    case Notifying(_, ok) => !ok
    case Done(ok) => !ok
    case _ => false
  }

  /** The step lets the physical open of `t` fail, or closes its device by force while it holds the
      reservation, or is its waking up to find the device neither open nor being opened. */
  ghost predicate FailsBy(s: State, step: Step, t: Token) {
    && t < |s.openers|
    && var d := s.openers[t].device;
       || step == OpenPhysical(t, false)
       || (step == ForceClose(d) && Held(s.openers[t].pc).Some?)
       || (step == Recheck(t) && d !in s.reg.devices && d !in s.opening)
  }

  ghost predicate FailsIn(run: Run, j: nat, t: Token) {
    j < |run.steps| && j < |run.states| && FailsBy(run.states[j], run.steps[j], t)
  }

  ghost predicate Reasoned(run: Run, i: nat, t: Token) {
    exists j: nat :: j < i && FailsIn(run, j, t)
  }

  /** The opener is failing, or it holds a reservation that was invalidated. */
  predicate Lost(s: State, t: Token) {
    && t < |s.openers|
    && (Failing(s.openers[t].pc)
        || (Held(s.openers[t].pc).Some? && Held(s.openers[t].pc).value < |s.resvs|
            && s.resvs[Held(s.openers[t].pc).value].invalidated))
  }

  /** Only a forced close invalidates, and then the stored reservation of its device. */
  lemma InvalidatedBy(s: State, step: Step, r: ResvId)
    requires Enabled(s, step) && r < |Next(s, step).resvs| && Next(s, step).resvs[r].invalidated
    requires !(r < |s.resvs| && s.resvs[r].invalidated)
    ensures step.ForceClose? && step.device in s.opening && s.opening[step.device] == r
  {
    hide Register, Publish, Refresh, RefreshAll, TearDown, Close, Connect, Disconnect, SetMode, RemoveSink, NonNmOn,
         WakeAll, Detach, EntryOf;
  }

  lemma NewcomerIsNotLost(s: State, step: Step, t: Token)
    requires Enabled(s, step) && t >= |s.openers|
    ensures !Lost(Next(s, step), t)
  {
    hide Refresh, RefreshAll, Switch, TearDown, Close, Connect, Disconnect, SetMode, Publish, Register, NonNmOn,
         EntryOf, Detach;
  }

  lemma OthersLose(s: State, step: Step, t: Token)
    requires ReservationsOk(s) && Enabled(s, step) && t < |s.openers| && !ActsFor(step, t)
    requires Lost(Next(s, step), t) && !Lost(s, t)
    ensures FailsBy(s, step, t)
  {
    hide Enabled, Next, WaiterOk;
    OthersStep(s, step, t);
    assert HolderOk(s, t);
    var r := Held(s.openers[t].pc).value;
    InvalidatedBy(s, step, r);
    assert StoredOk(s, step.device);
  }

  lemma OwnStepLoses(s: State, step: Step, t: Token)
    requires t < |s.openers| && HolderOk(s, t) && Enabled(s, step) && ActsFor(step, t)
    requires Lost(Next(s, step), t) && !Lost(s, t)
    ensures FailsBy(s, step, t)
  {
    hide Register, Publish, Refresh;
    RegisterSome(s.reg, s.openers[t], t);
  }

  lemma RegisterSome(r: Registry, o: Opener, t: Token)
    ensures Register(r, o.device, t, o.client).Some? <==> o.device in r.devices
  {
    hide Refresh, AddSession;
  }

  lemma StepLoses(s: State, step: Step, t: Token)
    requires ReservationsOk(s) && Enabled(s, step) && Lost(Next(s, step), t) && !Lost(s, t)
    ensures FailsBy(s, step, t)
  {
    hide Enabled, Next, Lost, FailsBy, WaiterOk, StoredOk;
    if t >= |s.openers| {
      NewcomerIsNotLost(s, step, t);
    } else if ActsFor(step, t) {
      assert HolderOk(s, t);
      OwnStepLoses(s, step, t);
    } else {
      OthersLose(s, step, t);
    }
  }

  lemma {:induction false} LostIsReasoned(run: Run, i: nat, t: Token)
    requires IsRun(run) && i < |run.states| && Lost(run.states[i], t)
    ensures Reasoned(run, i, t)
    decreases i
  {
    hide Enabled, Next, Lost, FailsBy, RegistryOk, SessionsOk, ReservationsOk, LivesOk, CommandsOk;
    if i == 0 {
      NoneLost(t);
    } else if Lost(run.states[i - 1], t) {
      LostIsReasoned(run, i - 1, t);
    } else {
      RunKeeps(run, i - 1);
      StepLoses(run.states[i - 1], run.steps[i - 1], t);
      assert FailsIn(run, i - 1, t);
    }
  }

  lemma NoneLost(t: Token)
    ensures !Lost(Initial, t)
  {
  }

  /** An `open` answers failure only for a reason: its physical open failed, its device was closed by
      force while it held the reservation, or it woke up after someone else's open had failed and
      nobody was opening the device any more. */
  lemma FailureHasReason(run: Run, i: nat, t: Token)
    requires IsRun(run) && i < |run.states| && t < |run.states[i].openers|
    requires run.states[i].openers[t].pc == Done(false)
    ensures Reasoned(run, i, t)
  {
    hide IsRun, Reasoned;
    LostIsReasoned(run, i, t);
  }
}
