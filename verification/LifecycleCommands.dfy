/** The way of a command from the snapshot of its authority to the worker: what is sent is queued
    behind what was sent before, and taken in that order, each once, until the worker is told to
    stop; and every command was vouched for by a cell that was valid when it was snapshotted. */
module LifecycleCommands {
  import opened Registry
  import RegistryInvariant
  import opened Lifecycle
  import opened LifecycleInvariant
  import opened LifecycleTheorems

  function QueueOf(s: State, l: LifeId): seq<IoCommand> {
    if l < |s.lives| then s.lives[l].queue else []
  }

  predicate WorkingIn(s: State, l: LifeId) {
    l < |s.lives| ==> s.lives[l].working
  }

  // ---------- what a step sends, and what it takes ----------

  /** What the step hands to the queue of lifetime `l`: the stamped command of a sender, if the worker
      is still there to receive it, or the request to stop. */
  function Handed(s: State, step: Step, l: LifeId): seq<IoCommand> {
    match step
    case Send(i) =>
      if i < |s.senders| && s.senders[i].Stamped? && s.senders[i].life == l && l < |s.lives| && s.lives[l].working
      then [Command(s.senders[i].flag, s.senders[i].epoch)] else []
    case RequestShutdown(k) => if k < |s.teardowns| && s.teardowns[k].stop == Request(l) then [Shutdown] else []
    case StopLocal(t) =>
      if t < |s.openers| && s.openers[t].pc.Stopping? && s.openers[t].pc.life == l then [Shutdown] else []
    case _ => []
  }

  /** What the worker of `l` takes from its queue in the step. */
  function Taken(s: State, step: Step, l: LifeId): seq<IoCommand> {
    if step == Work(l) && |QueueOf(s, l)| > 0 then [QueueOf(s, l)[0]] else []
  }

  /** Everything that was handed to `l` in the first `i` steps, in order. */
  function AllHanded(run: Run, i: nat, l: LifeId): seq<IoCommand>
    requires i <= |run.steps| && i <= |run.states|
  {
    if i == 0 then [] else AllHanded(run, i - 1, l) + Handed(run.states[i - 1], run.steps[i - 1], l)
  }

  function AllTaken(run: Run, i: nat, l: LifeId): seq<IoCommand>
    requires i <= |run.steps| && i <= |run.states|
  {
    if i == 0 then [] else AllTaken(run, i - 1, l) + Taken(run.states[i - 1], run.steps[i - 1], l)
  }

  ghost predicate Passes(s: State, step: Step, n: State, l: LifeId) {
    && QueueOf(s, l) + Handed(s, step, l) == Taken(s, step, l) + QueueOf(n, l)
    && (WorkingIn(n, l) <==> WorkingIn(s, l) && Taken(s, step, l) != [Shutdown])
    && (Taken(s, step, l) != [] ==> WorkingIn(s, l))
  }

  lemma StepPasses(s: State, step: Step, l: LifeId)
    requires Enabled(s, step)
    ensures Passes(s, step, Next(s, step), l)
  {
    hide Enabled, Next, Passes;
    if step.Send? || step.Work? || step.RequestShutdown? {
      QueueStepPasses(s, step, l);
    } else if LifeKind(step) {
      LifeStepPasses(s, step, l);
    } else if step.CloseSession? || step.ForceClose? || step.ReaderDies? || step.BumpEpoch? {
      TearDownPasses(s, step, l);
    } else {
      AsidePasses(s, step, l);
    }
  }

  lemma QueueStepPasses(s: State, step: Step, l: LifeId)
    requires Enabled(s, step) && (step.Send? || step.Work? || step.RequestShutdown?)
    ensures Passes(s, step, Next(s, step), l)
  {
    hide Enabled, Next, Passes;
    if step.Send? {
      SendPasses(s, step, l);
    } else if step.Work? {
      WorkPasses(s, step, l);
    } else {
      RequestPasses(s, step, l);
    }
  }

  lemma SendPasses(s: State, step: Step, l: LifeId)
    requires Enabled(s, step) && step.Send?
    ensures Passes(s, step, Next(s, step), l)
  {
  }

  lemma WorkPasses(s: State, step: Step, l: LifeId)
    requires Enabled(s, step) && step.Work?
    ensures Passes(s, step, Next(s, step), l)
  {
  }

  lemma RequestPasses(s: State, step: Step, l: LifeId)
    requires Enabled(s, step) && step.RequestShutdown?
    ensures Passes(s, step, Next(s, step), l)
  {
  }

  lemma LifeStepPasses(s: State, step: Step, l: LifeId)
    requires Enabled(s, step) && LifeKind(step)
    ensures Passes(s, step, Next(s, step), l)
  {
    hide Enabled, Next, Passes;
    if step.StopLocal? {
      StopPasses(s, step, l);
    } else if step.Build? {
      BuildPasses(s, step, l);
    } else {
      OpenPasses(s, step, l);
    }
  }

  lemma StopPasses(s: State, step: Step, l: LifeId)
    requires Enabled(s, step) && step.StopLocal?
    ensures Passes(s, step, Next(s, step), l)
  {
  }

  lemma BuildPasses(s: State, step: Step, l: LifeId)
    requires Enabled(s, step) && step.Build?
    ensures Passes(s, step, Next(s, step), l)
  {
    assert QueueOf(s, l) + [] == QueueOf(s, l) == [] + QueueOf(s, l);
  }

  lemma OpenPasses(s: State, step: Step, l: LifeId)
    requires Enabled(s, step) && (step.PublishEntry? || step.ReleaseGate?)
    ensures Passes(s, step, Next(s, step), l)
  {
    hide Enabled, Next, QueueOf, WorkingIn;
    OpeningLeaves(s, step);
    SameQueue(s, Next(s, step), l);
    assert QueueOf(s, l) + [] == QueueOf(s, l) == [] + QueueOf(s, l);
  }

  lemma OpeningLeaves(s: State, step: Step)
    requires Enabled(s, step) && (step.PublishEntry? || step.ReleaseGate?)
    ensures Untouched(s, Next(s, step))
  {
    hide Refresh, Register, Publish;
  }

  /** Queues and workers are as before. */
  ghost predicate Untouched(s: State, n: State) {
    && |n.lives| == |s.lives|
    && forall l: LifeId :: l < |s.lives| ==>
         n.lives[l].queue == s.lives[l].queue && n.lives[l].working == s.lives[l].working
  }

  lemma TearDownPasses(s: State, step: Step, l: LifeId)
    requires Enabled(s, step) && (step.CloseSession? || step.ForceClose? || step.ReaderDies? || step.BumpEpoch?)
    ensures Passes(s, step, Next(s, step), l)
  {
    hide Enabled, Next, Untouched, QueueOf, WorkingIn;
    if step.CloseSession? {
      CloseLeaves(s, step);
    } else if step.ForceClose? {
      ForceCloseLeaves(s, step);
    } else if step.ReaderDies? {
      ReaderLeaves(s, step);
    } else {
      BumpLeaves(s, step);
    }
    SameQueue(s, Next(s, step), l);
    assert QueueOf(s, l) + [] == QueueOf(s, l) == [] + QueueOf(s, l);
  }

  lemma CloseLeaves(s: State, step: Step)
    requires Enabled(s, step) && step.CloseSession?
    ensures Untouched(s, Next(s, step))
  {
    hide Close;
  }

  lemma ForceCloseLeaves(s: State, step: Step)
    requires Enabled(s, step) && step.ForceClose?
    ensures Untouched(s, Next(s, step))
  {
    hide TearDown, NonNmOn, EntryOf, WakeAll;
  }

  lemma ReaderLeaves(s: State, step: Step)
    requires Enabled(s, step) && step.ReaderDies?
    ensures Untouched(s, Next(s, step))
  {
    hide TearDown, NonNmOn, EntryOf;
  }

  lemma BumpLeaves(s: State, step: Step)
    requires Enabled(s, step) && step.BumpEpoch?
    ensures Untouched(s, Next(s, step))
  {
  }

  /** The other steps leave every lifetime alone. */
  lemma AsidePasses(s: State, step: Step, l: LifeId)
    requires Enabled(s, step) && !step.Send? && !step.Work? && !step.RequestShutdown? && !LifeKind(step)
    requires !step.CloseSession? && !step.ForceClose? && !step.ReaderDies? && !step.BumpEpoch?
    ensures Passes(s, step, Next(s, step), l)
  {
    hide Enabled, Next, QueueOf, WorkingIn;
    LivesAreSame(s, step);
    SameQueue(s, Next(s, step), l);
    assert QueueOf(s, l) + [] == QueueOf(s, l) == [] + QueueOf(s, l);
  }

  lemma LivesAreSame(s: State, step: Step)
    requires Enabled(s, step) && !step.Send? && !step.Work? && !step.RequestShutdown? && !LifeKind(step)
    requires !step.CloseSession? && !step.ForceClose? && !step.ReaderDies? && !step.BumpEpoch?
    ensures Untouched(s, Next(s, step))
  {
    hide Refresh, RefreshAll, Connect, Disconnect, SetMode, RemoveSink, Register, WakeAll;
  }

  lemma SameQueue(s: State, n: State, l: LifeId)
    requires Untouched(s, n)
    ensures QueueOf(n, l) == QueueOf(s, l) && WorkingIn(n, l) == WorkingIn(s, l)
  {
  }

  lemma {:induction false} HistoriesPass(run: Run, i: nat, l: LifeId)
    requires IsRun(run) && i <= |run.steps| && i < |run.states|
    ensures AllHanded(run, i, l) == AllTaken(run, i, l) + QueueOf(run.states[i], l)
    ensures WorkingIn(run.states[i], l) <==> Shutdown !in AllTaken(run, i, l)
    decreases i
  {
    hide Enabled, Next, QueueOf, WorkingIn, Handed, Taken;
    if i == 0 {
      NothingQueued(l);
    } else {
      var s, step, n := run.states[i - 1], run.steps[i - 1], run.states[i];
      HistoriesPass(run, i - 1, l);
      StepPasses(s, step, l);
      OneTaken(s, step, l);
      var taken, handed := AllTaken(run, i - 1, l), AllHanded(run, i - 1, l);
      assert handed + Handed(s, step, l) == taken + (QueueOf(s, l) + Handed(s, step, l));
      assert taken + (Taken(s, step, l) + QueueOf(n, l)) == taken + Taken(s, step, l) + QueueOf(n, l);
    }
  }

  lemma NothingQueued(l: LifeId)
    ensures QueueOf(Initial, l) == [] && WorkingIn(Initial, l)
  {
  }

  lemma OneTaken(s: State, step: Step, l: LifeId)
    ensures Shutdown in Taken(s, step, l) <==> Taken(s, step, l) == [Shutdown]
  {
  }

  /** The commands that the worker of a lifetime has taken are the first of those that were handed to
      it, in order and each once; the rest are in its queue; and it works until it takes a request to
      stop, which is the last thing it takes. */
  lemma CommandsInOrder(run: Run, i: nat, l: LifeId)
    requires IsRun(run) && i < |run.states|
    ensures i <= |run.steps|
    ensures AllHanded(run, i, l) == AllTaken(run, i, l) + QueueOf(run.states[i], l)
    ensures WorkingIn(run.states[i], l) <==> Shutdown !in AllTaken(run, i, l)
    ensures forall j :: 0 <= j < |AllTaken(run, i, l)| - 1 ==> AllTaken(run, i, l)[j] != Shutdown
  {
    hide Enabled, Next, QueueOf, WorkingIn, AllHanded, AllTaken;
    assert i <= |run.steps|;
    HistoriesPass(run, i, l);
    StopIsLast(run, i, l);
  }

  lemma {:induction false} StopIsLast(run: Run, i: nat, l: LifeId)
    requires IsRun(run) && i <= |run.steps| && i < |run.states|
    ensures forall j :: 0 <= j < |AllTaken(run, i, l)| - 1 ==> AllTaken(run, i, l)[j] != Shutdown
    decreases i
  {
    hide Enabled, Next, QueueOf, WorkingIn, AllHanded, Taken, Handed;
    if i > 0 {
      StopIsLast(run, i - 1, l);
      HistoriesPass(run, i - 1, l);
      StepPasses(run.states[i - 1], run.steps[i - 1], l);
      TakesOne(run.states[i - 1], run.steps[i - 1], l);
    }
  }

  lemma TakesOne(s: State, step: Step, l: LifeId)
    ensures |Taken(s, step, l)| <= 1
  {
  }

  // ---------- who vouched for it ----------

  /** In step `j` cell `f` was snapshotted, valid, for a command: as the binding of a client on a device,
      with the entry and the sink of that moment, or as a capability on a device. */
  ghost predicate VouchedIn(run: Run, j: nat, f: FlagId) {
    && j < |run.steps| && j < |run.states|
    && var r := run.states[j].reg;
       && f < |r.flags| && r.flags[f].valid
       && match run.steps[j]
          case SnapshotNm(c, d) =>
            d in r.devices && c in r.sinks && r.flags[f].origin == NmBinding(c, d, r.devices[d], r.sinks[c])
          case VetTransport(d, g) => g == f && r.flags[f].origin.Capability? && r.flags[f].origin.device == d
          case _ => false
  }

  ghost predicate Vouched(run: Run, i: nat, f: FlagId) {
    exists j: nat :: j < i && VouchedIn(run, j, f)
  }

  function FlagOf(p: Sender): seq<FlagId> {
    match p
    case Vetted(_, f) => [f]
    case Bound(f, _) => [f]
    case Stamped(f, _, _) => [f]
    case Finished => []
  }

  /** A sender of `s` has cell `f`, or a queued command carries it. */
  ghost predicate Carried(s: State, f: FlagId) {
    || (exists i :: 0 <= i < |s.senders| && FlagOf(s.senders[i]) == [f])
    || (exists l: LifeId, e: nat :: l < |s.lives| && Command(f, e) in s.lives[l].queue)
  }

  /** The step takes a snapshot of cell `f`. */
  predicate Snapshots(s: State, step: Step, f: FlagId) {
    match step
    case SnapshotNm(c, d) => (c, d) in s.reg.hot && s.reg.hot[(c, d)].flag == f
    case VetTransport(_, g) => g == f
    case _ => false
  }

  lemma SenderFrom(s: State, step: Step, i: TaskId, f: FlagId)
    requires Enabled(s, step) && i < |Next(s, step).senders| && FlagOf(Next(s, step).senders[i]) == [f]
    ensures Snapshots(s, step, f) || (i < |s.senders| && FlagOf(s.senders[i]) == [f])
  {
    hide Refresh, RefreshAll, Close, TearDown, Connect, Disconnect, SetMode, RemoveSink, Register, Publish, Accepts,
         NonNmOn, EntryOf, WakeAll, Detach;
  }

  lemma CommandFrom(s: State, step: Step, l: LifeId, f: FlagId, e: nat)
    requires Enabled(s, step) && Command(f, e) in QueueOf(Next(s, step), l)
    ensures Carried(s, f)
  {
    hide Enabled, Next, QueueOf, WorkingIn;
    var n := Next(s, step);
    StepPasses(s, step, l);
    assert Command(f, e) in Taken(s, step, l) + QueueOf(n, l);
    if Command(f, e) in QueueOf(s, l) { QueueIsThere(s, l, f, e); }
  }

  lemma QueueIsThere(s: State, l: LifeId, f: FlagId, e: nat)
    requires Command(f, e) in QueueOf(s, l)
    ensures l < |s.lives| && Command(f, e) in s.lives[l].queue
  {
  }

  lemma CarriedFrom(s: State, step: Step, f: FlagId)
    requires Enabled(s, step) && Carried(Next(s, step), f)
    ensures Snapshots(s, step, f) || Carried(s, f)
  {
    hide Enabled, Next, FlagOf, Snapshots;
    var n := Next(s, step);
    if i :| 0 <= i < |n.senders| && FlagOf(n.senders[i]) == [f] {
      SenderFrom(s, step, i, f);
    } else {
      var l: LifeId, e: nat :| l < |n.lives| && Command(f, e) in n.lives[l].queue;
      assert Command(f, e) in QueueOf(n, l);
      CommandFrom(s, step, l, f, e);
    }
  }

  /** What is snapshotted is valid, and is what it is taken for. */
  lemma SnapshotVouches(run: Run, j: nat, f: FlagId)
    requires IsRun(run) && j < |run.steps| && Snapshots(run.states[j], run.steps[j], f)
    ensures VouchedIn(run, j, f)
  {
    hide Next, SessionsOk, ReservationsOk, LivesOk, CommandsOk;
    RunKeeps(run, j);
    var s, step := run.states[j], run.steps[j];
    assert Enabled(s, step);
    if step.SnapshotNm? { assert RegistryInvariant.HotEntryOk(s.reg, (step.client, step.device)); }
  }

  lemma {:induction false} CarriedIsVouched(run: Run, i: nat, f: FlagId)
    requires IsRun(run) && i < |run.states| && Carried(run.states[i], f)
    ensures Vouched(run, i, f)
    decreases i
  {
    hide Enabled, Next, Carried, Snapshots, VouchedIn;
    if i == 0 {
      NothingCarried(f);
    } else {
      CarriedFrom(run.states[i - 1], run.steps[i - 1], f);
      if Snapshots(run.states[i - 1], run.steps[i - 1], f) {
        SnapshotVouches(run, i - 1, f);
      } else {
        CarriedIsVouched(run, i - 1, f);
      }
    }
  }

  lemma NothingCarried(f: FlagId)
    ensures !Carried(Initial, f)
  {
  }

  /** Every command in a queue, in any run, goes under a cell that was snapshotted for it while it was
      valid: a client's own binding on that device, with its entry and sink, or a transport's
      capability on that device. */
  lemma CommandsAreVouched(run: Run, i: nat, l: LifeId, f: FlagId, e: nat)
    requires IsRun(run) && i < |run.states| && l < |run.states[i].lives|
    requires Command(f, e) in run.states[i].lives[l].queue
    ensures Vouched(run, i, f)
  {
    hide IsRun, Vouched;
    assert Carried(run.states[i], f);
    CarriedIsVouched(run, i, f);
  }

  // ---------- when it was stamped ----------

  /** In step `j` a command for lifetime `l` was stamped with its epoch `e` of that moment. */
  ghost predicate StampedIn(run: Run, j: nat, l: LifeId, e: nat) {
    && j < |run.steps| && j < |run.states| && run.steps[j].Stamp?
    && l < |run.states[j].lives| && run.states[j].lives[l].epoch == e
  }

  ghost predicate StampedBefore(run: Run, i: nat, l: LifeId, e: nat) {
    exists j: nat :: j < i && StampedIn(run, j, l, e)
  }

  /** A stamped sender of `s`, or a queued command, has epoch `e` for lifetime `l`. */
  ghost predicate Dated(s: State, l: LifeId, e: nat) {
    || (exists i :: 0 <= i < |s.senders| && s.senders[i].Stamped? && s.senders[i].life == l && s.senders[i].epoch == e)
    || (exists f: FlagId :: Command(f, e) in QueueOf(s, l))
  }

  lemma StampFrom(s: State, step: Step, i: TaskId, l: LifeId, e: nat)
    requires Enabled(s, step) && i < |Next(s, step).senders|
    requires var p := Next(s, step).senders[i]; p.Stamped? && p.life == l && p.epoch == e
    ensures || (step.Stamp? && l < |s.lives| && s.lives[l].epoch == e)
            || (i < |s.senders| && s.senders[i] == Next(s, step).senders[i])
  {
    hide Refresh, RefreshAll, Close, TearDown, Connect, Disconnect, SetMode, RemoveSink, Register, Publish, Accepts,
         NonNmOn, EntryOf, WakeAll, Detach;
  }

  lemma DatedFrom(s: State, step: Step, l: LifeId, e: nat)
    requires Enabled(s, step) && Dated(Next(s, step), l, e)
    ensures Dated(s, l, e) || (step.Stamp? && l < |s.lives| && s.lives[l].epoch == e)
  {
    hide Enabled, Next, QueueOf, WorkingIn;
    var n := Next(s, step);
    if i :| 0 <= i < |n.senders| && n.senders[i].Stamped? && n.senders[i].life == l && n.senders[i].epoch == e {
      StampFrom(s, step, i, l, e);
    } else {
      var f: FlagId :| Command(f, e) in QueueOf(n, l);
      StepPasses(s, step, l);
      assert Command(f, e) in Taken(s, step, l) + QueueOf(n, l);
    }
  }

  lemma {:induction false} DatedIsStamped(run: Run, i: nat, l: LifeId, e: nat)
    requires IsRun(run) && i < |run.states| && Dated(run.states[i], l, e)
    ensures StampedBefore(run, i, l, e)
    decreases i
  {
    hide Enabled, Next, Dated;
    if i == 0 {
      NothingDated(l, e);
    } else {
      DatedFrom(run.states[i - 1], run.steps[i - 1], l, e);
      if Dated(run.states[i - 1], l, e) {
        DatedIsStamped(run, i - 1, l, e);
      } else {
        assert StampedIn(run, i - 1, l, e);
      }
    }
  }

  lemma NothingDated(l: LifeId, e: nat)
    ensures !Dated(Initial, l, e)
  {
  }

  /** Every queued command carries the epoch that its lifetime had when it was stamped. */
  lemma CommandsAreStamped(run: Run, i: nat, l: LifeId, f: FlagId, e: nat)
    requires IsRun(run) && i < |run.states| && l < |run.states[i].lives|
    requires Command(f, e) in run.states[i].lives[l].queue
    ensures StampedBefore(run, i, l, e)
  {
    hide IsRun, StampedBefore;
    assert Command(f, e) in QueueOf(run.states[i], l);
    DatedIsStamped(run, i, l, e);
  }
}
