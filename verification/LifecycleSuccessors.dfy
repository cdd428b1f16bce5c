/** When the reader of a lifetime takes down another one, that other one is a successor: it was
    published only after the reader's own lifetime had been taken out. */
module LifecycleSuccessors {
  import opened Registry
  import RegistryInvariant
  import opened Lifecycle
  import opened LifecycleInvariant
  import opened LifecycleBuilders
  import opened LifecycleTheorems

  predicate LiveIn(s: State, l: LifeId) {
    l < |s.lives| && s.lives[l].phase == Live
  }

  predicate InstalledBy(s: State, t: Token, l: LifeId) {
    t < |s.openers| && s.openers[t].pc.Installed? && s.openers[t].pc.life == l
  }

  /** The reader of `l` was let go, or its opener is about to let it go. */
  ghost predicate Ungated(s: State, l: LifeId) {
    (l < |s.lives| && s.lives[l].reader != Gated) || exists t: Token :: InstalledBy(s, t, l)
  }

  /** What a step can do to lifetime `l`: only a publication on an absent device installs it, and
      only an installed lifetime gets its reader ungated. */
  ghost predicate LifeMoves(s: State, step: Step, n: State, l: LifeId) {
    && (l < |s.lives| ==> l < |n.lives| && n.lives[l].device == s.lives[l].device)
    && (LiveIn(n, l) && !LiveIn(s, l) ==>
          step.PublishEntry? && l < |s.lives| && s.lives[l].device !in s.reg.devices)
    && (Ungated(n, l) ==> Ungated(s, l) || LiveIn(n, l))
  }

  lemma LifeStepMoves(s: State, step: Step, l: LifeId)
    requires Enabled(s, step) && LifeKind(step) && step.t < |s.openers| && BuilderOk(s, step.t)
    ensures LifeMoves(s, step, Next(s, step), l)
  {
    hide Refresh, AddSession, Publish;
    var n := Next(s, step);
    forall t: Token | InstalledBy(n, t, l) ensures InstalledBy(s, t, l) || LiveIn(n, l) {}
    if l < |s.lives| && step.ReleaseGate? { assert InstalledBy(s, step.t, s.openers[step.t].pc.life); }
  }

  lemma AsideStepMoves(s: State, step: Step, l: LifeId)
    requires Enabled(s, step) && OwnKind(step) && !LifeKind(step)
    ensures LifeMoves(s, step, Next(s, step), l)
  {
    hide Refresh, Register;
    var n := Next(s, step);
    forall t: Token | InstalledBy(n, t, l) ensures InstalledBy(s, t, l) {}
  }

  /** The steps that are not an opener's own leave every reader gated that was. */
  lemma OtherStepMoves(s: State, step: Step, l: LifeId)
    requires Enabled(s, step) && !OwnKind(step)
    ensures LifeMoves(s, step, Next(s, step), l)
  {
    hide Refresh, RefreshAll, Close, TearDown, Connect, Disconnect, SetMode, RemoveSink, Accepts, NonNmOn, EntryOf;
    var n := Next(s, step);
    forall t: Token | InstalledBy(n, t, l) ensures InstalledBy(s, t, l) {}
  }

  lemma StepMoves(s: State, step: Step, l: LifeId)
    requires Inv(s) && Enabled(s, step)
    ensures LifeMoves(s, step, Next(s, step), l)
  {
    hide RegistryInvariant.Inv, SessionsOk, HolderOk, WaiterOk, StoredOk, CommandsOk, Next, LifeMoves;
    if LifeKind(step) {
      ActorIsThere(s, step);
      OpenerAt(s, step.t);
      LifeStepMoves(s, step, l);
    } else if OwnKind(step) {
      AsideStepMoves(s, step, l);
    } else {
      OtherStepMoves(s, step, l);
    }
  }

  // ---------- over a run ----------

  predicate LiveAt(run: Run, i: nat, l: LifeId) {
    i < |run.states| && LiveIn(run.states[i], l)
  }

  lemma RunMoves(run: Run, i: nat, l: LifeId)
    requires IsRun(run) && i < |run.steps|
    ensures LifeMoves(run.states[i], run.steps[i], run.states[i + 1], l)
  {
    hide Inv, Next, Enabled, LifeMoves;
    RunKeeps(run, i);
    StepMoves(run.states[i], run.steps[i], l);
  }

  /** A lifetime stays the lifetime of one device. */
  lemma {:induction false} SameDevice(run: Run, i: nat, j: nat, l: LifeId)
    requires IsRun(run) && i <= j < |run.states| && l < |run.states[i].lives|
    ensures l < |run.states[j].lives| && run.states[j].lives[l].device == run.states[i].lives[l].device
    decreases j
  {
    hide IsRun;
    if i < j {
      SameDevice(run, i, j - 1, l);
      RunLength(run);
      RunMoves(run, j - 1, l);
    }
  }

  lemma RunLength(run: Run)
    requires IsRun(run)
    ensures |run.states| == |run.steps| + 1 && run.states[0] == Initial
  {
    hide Enabled, Next;
  }

  /** A lifetime whose reader was let go has been installed. */
  lemma {:induction false} UngatedWasLive(run: Run, i: nat, l: LifeId) returns (m: nat)
    requires IsRun(run) && i < |run.states| && Ungated(run.states[i], l)
    ensures m <= i && LiveAt(run, m, l)
  {
    hide IsRun, Ungated;
    RunLength(run);
    if LiveIn(run.states[i], l) {
      m := i;
    } else {
      if i == 0 { NoneUngated(l); }
      RunMoves(run, i - 1, l);
      m := UngatedWasLive(run, i - 1, l);
    }
  }

  lemma NoneUngated(l: LifeId)
    ensures !Ungated(Initial, l)
  {
  }

  /** Between a state with `l` installed and one without, some step took it out. */
  lemma {:induction false} WhenTakenOut(run: Run, i: nat, j: nat, l: LifeId) returns (m: nat)
    requires i <= j < |run.states| && LiveAt(run, i, l) && !LiveAt(run, j, l)
    ensures i <= m < j && LiveAt(run, m, l) && !LiveAt(run, m + 1, l)
    decreases j
  {
    if LiveAt(run, j - 1, l) { m := j - 1; } else { m := WhenTakenOut(run, i, j - 1, l); }
  }

  /** The last publication of a lifetime that is installed. */
  lemma {:induction false} WhenPublished(run: Run, i: nat, l: LifeId) returns (k: nat)
    requires IsRun(run) && LiveAt(run, i, l)
    ensures k < i && !LiveAt(run, k, l) && forall j :: k < j <= i ==> LiveAt(run, j, l)
  {
    hide IsRun;
    RunLength(run);
    if LiveAt(run, i - 1, l) { k := WhenPublished(run, i - 1, l); } else { k := i - 1; }
  }

  /** Two lifetimes of one device are never installed together. */
  lemma OneLiveEach(run: Run, i: nat, l: LifeId, v: LifeId)
    requires IsRun(run) && LiveAt(run, i, l) && LiveAt(run, i, v)
    requires run.states[i].lives[l].device == run.states[i].lives[v].device
    ensures l == v
  {
    hide IsRun;
    StoppedOnce(run, i, l);
    StoppedOnce(run, i, v);
  }

  /** Step `m` takes lifetime `l` out of the devices. */
  predicate TakenOut(run: Run, m: nat, l: LifeId) {
    LiveAt(run, m, l) && m + 1 < |run.states| && !LiveAt(run, m + 1, l)
  }

  /** Step `k` publishes lifetime `v`. */
  predicate PublishedIn(run: Run, k: nat, v: LifeId) {
    k < |run.steps| && run.steps[k].PublishEntry? && !LiveAt(run, k, v) && LiveAt(run, k + 1, v)
  }

  /** Before step `i` there was a step that took `l` out, and after that one a step that published `v`. */
  ghost predicate Succeeded(run: Run, i: nat, l: LifeId, v: LifeId) {
    exists m: nat, k: nat :: m < k < i && TakenOut(run, m, l) && PublishedIn(run, k, v)
  }

  /** In step `i` the reader of `l` takes down lifetime `v`, which is not its own. */
  ghost predicate TakesDown(run: Run, i: nat, l: LifeId, v: LifeId) {
    && i < |run.steps| && i < |run.states| && run.steps[i] == ReaderDies(l)
    && l < |run.states[i].lives| && l != v
    && var d := run.states[i].lives[l].device;
       d in run.states[i].reg.devices && run.states[i].reg.devices[d] == v
  }

  lemma VictimIsLive(run: Run, i: nat, l: LifeId, v: LifeId)
    requires IsRun(run) && TakesDown(run, i, l, v)
    ensures LiveAt(run, i, v) && run.states[i].lives[v].device == run.states[i].lives[l].device
    ensures Ungated(run.states[i], l) && !LiveAt(run, i, l)
  {
    hide Next, RegistryOk, SessionsOk, ReservationsOk, CommandsOk;
    RunKeeps(run, i);
    var s := run.states[i];
    assert Enabled(s, ReaderDies(l));
    assert InstalledOk(s, s.lives[l].device) && LifeOk(s, l);
  }

  /** While `v` is installed, no other lifetime of its device is. */
  lemma NotMeanwhile(run: Run, j: nat, i: nat, l: LifeId, v: LifeId)
    requires IsRun(run) && j <= i && LiveAt(run, j, v) && LiveAt(run, j, l) && i < |run.states| && l != v
    requires l < |run.states[i].lives| && v < |run.states[i].lives|
    ensures run.states[i].lives[v].device != run.states[i].lives[l].device
  {
    hide IsRun;
    SameDevice(run, j, i, l);
    SameDevice(run, j, i, v);
    if run.states[j].lives[v].device == run.states[j].lives[l].device { OneLiveEach(run, j, l, v); }
  }

  /** When `v` is published, its device is absent. */
  lemma PublishedWhenAbsent(run: Run, k: nat, i: nat, l: LifeId, v: LifeId)
    requires IsRun(run) && k < i < |run.states| && !LiveAt(run, k, v) && LiveAt(run, k + 1, v)
    requires l < |run.states[i].lives| && v < |run.states[i].lives|
    requires run.states[i].lives[v].device == run.states[i].lives[l].device
    ensures PublishedIn(run, k, v) && !LiveAt(run, k, l)
  {
    hide IsRun;
    RunLength(run);
    RunMoves(run, k, v);
    SameDevice(run, k, i, v);
    if LiveAt(run, k, l) {
      SameDevice(run, k, i, l);
      StoppedOnce(run, k, l);
    }
  }

  /** Whenever a reader takes down a lifetime `v` that is not its own `l`, there was a step that took
      `l` out, and only after it a step that published `v`. */
  lemma VictimIsSuccessor(run: Run, i: nat, l: LifeId, v: LifeId)
    requires IsRun(run) && TakesDown(run, i, l, v)
    ensures Succeeded(run, i, l, v)
  {
    hide IsRun, Ungated;
    VictimIsLive(run, i, l, v);
    var was := UngatedWasLive(run, i, l);
    var k := WhenPublished(run, i, v);
    PublishedWhenAbsent(run, k, i, l, v);
    if k < was { NotMeanwhile(run, was, i, l, v); }
    var m := WhenTakenOut(run, was, k, l);
    assert TakenOut(run, m, l) && PublishedIn(run, k, v);
  }
}
