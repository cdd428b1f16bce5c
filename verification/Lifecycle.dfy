/** The daemon as a state machine: the registry together with every task that is between two
    of its critical sections. Each section under the `lifecycle` mutex is one step; whatever
    the code does outside it (an awaited send, the worker's dequeue, settling the counter,
    waking waiters, stopping an entry) is a step of its own.

    A session token is the index of the `open` call that drew it, so tokens are fresh. */
module Lifecycle {
  import opened Wrappers
  import opened Registry

  type ResvId = nat
  type TaskId = nat

  const QUEUE_CAPACITY := 128

  /** One first-open reservation; its index is its generation. */
  datatype Resv = Resv(device: DeviceId, holder: Token, invalidated: bool)

  datatype Pc =
    | Asking
    | Waiting(resv: ResvId, woken: bool)
    | Holding(resv: ResvId)                             // before the physical open
    | Opened(resv: ResvId)                              // physical handle at hand
    | Checked(resv: ResvId)                             // first currency check passed
    | Built(resv: ResvId, life: LifeId)                 // local entry exists
    | Stopping(resv: ResvId, life: LifeId, ok: bool)    // local entry must be stopped
    | Installed(resv: ResvId, life: LifeId)             // published, reader still gated
    | Removing(resv: ResvId, ok: bool)
    | Notifying(resv: ResvId, ok: bool)                 // removed, owes `notify_waiters`
    | Done(ok: bool)

  datatype Opener = Opener(device: DeviceId, client: ClientId, pc: Pc)

  datatype IoCommand = Shutdown | Command(flag: FlagId, epoch: nat)

  datatype Reader = Gated | Reading | Exited

  datatype Phase = Local | Live | Detached(task: TaskId) | Stopped

  /** A physical entry. `opener` built it; `phase` says who is to stop it, or that it was. */
  datatype Life = Life(device: DeviceId, opener: Token, epoch: nat, queue: seq<IoCommand>,
                       working: bool, reader: Reader, phase: Phase)

  datatype Sender =
    | Vetted(device: DeviceId, flag: FlagId)             // transport validity was read
    | Bound(flag: FlagId, life: LifeId)                  // queue and epoch cell at hand
    | Stamped(flag: FlagId, life: LifeId, epoch: nat)    // command built, send awaited
    | Finished

  datatype Stop = Nothing | Bump(life: LifeId) | Request(life: LifeId)

  /** What a teardown still has to do after it left the lock, and in which order. */
  datatype Teardown = Teardown(settleFirst: bool, settle: nat, stop: Stop)

  datatype State = State(
    reg: Registry,
    opening: map<DeviceId, ResvId>,
    resvs: seq<Resv>,
    lives: seq<Life>,
    openers: seq<Opener>,
    senders: seq<Sender>,
    teardowns: seq<Teardown>)

  const Initial := State(Empty, map[], [], [], [], [], [])

  datatype Step =
    | Open(device: DeviceId, client: ClientId)
    | Ask(t: Token)
    | Recheck(t: Token)
    | OpenPhysical(t: Token, success: bool)
    | CheckFirst(t: Token)
    | Build(t: Token)
    | PublishEntry(t: Token)
    | StopLocal(t: Token)
    | ReleaseGate(t: Token)
    | Remove(t: Token)
    | Notify(t: Token)
    | CloseSession(device: DeviceId, t: Token, client: ClientId)
    | ChangeMode(device: DeviceId, t: Token, mode: Mode, client: ClientId)
    | ConnectTransport(device: DeviceId, t: Token, kind: Plane)
    | DisconnectTransport(device: DeviceId, t: Token, kind: Plane, generation: nat, flag: FlagId)
    | RegisterSink(client: ClientId, sink: SinkId, order: seq<DeviceId>)
    | UnregisterSink(client: ClientId)
    | ForceClose(device: DeviceId)
    | ReaderDies(life: LifeId)
    | SettleCount(k: TaskId)
    | BumpEpoch(k: TaskId)
    | RequestShutdown(k: TaskId)
    | SnapshotNm(client: ClientId, device: DeviceId)
    | VetTransport(device: DeviceId, flag: FlagId)
    | LookUp(i: TaskId)
    | Stamp(i: TaskId)
    | Send(i: TaskId)
    | Work(life: LifeId)

  // ---------- helpers ----------

  function SetPc(s: State, t: Token, pc: Pc): State
    requires t < |s.openers|
  {
    s.(openers := s.openers[t := s.openers[t].(pc := pc)])
  }

  function SetLife(s: State, l: LifeId, life: Life): State
    requires l < |s.lives|
  {
    s.(lives := s.lives[l := life])
  }

  /** The reservation is not invalidated and is still the one stored for the device. */
  predicate ReservationCurrent(s: State, d: DeviceId, r: ResvId) {
    r < |s.resvs| && !s.resvs[r].invalidated && d in s.opening && s.opening[d] == r
  }

  /** Every waiter on reservation `r` is woken. */
  function WakeAll(openers: seq<Opener>, r: ResvId): (woken: seq<Opener>)
    ensures |woken| == |openers|
    ensures forall i :: 0 <= i < |openers| ==>
              woken[i] == if openers[i].pc.Waiting? && openers[i].pc.resv == r
                          then openers[i].(pc := Waiting(r, true)) else openers[i]
  {
    seq(|openers|, i requires 0 <= i < |openers| =>
      if openers[i].pc.Waiting? && openers[i].pc.resv == r then openers[i].(pc := Waiting(r, true)) else openers[i])
  }

  /** The entry taken out of `devices` by a section is handed to teardown task `k`. */
  function Detach(lives: seq<Life>, entry: Option<LifeId>, k: TaskId): seq<Life> {
    if entry.Some? && entry.value < |lives|
    then lives[entry.value := lives[entry.value].(phase := Detached(k))]
    else lives
  }

  function StopOf(entry: Option<LifeId>): Stop {
    if entry.Some? then Bump(entry.value) else Nothing
  }

  function EntryOf(r: Registry, d: DeviceId): Option<LifeId> {
    if d in r.devices then Some(r.devices[d]) else None
  }

  /** A closed section: the registry `n`, and a task for what is left to do. */
  function Departed(s: State, n: Registry, entry: Option<LifeId>, settleFirst: bool, settle: nat): State {
    s.(reg := n,
       lives := Detach(s.lives, entry, |s.teardowns|),
       teardowns := s.teardowns + [Teardown(settleFirst, settle, StopOf(entry))])
  }

  function NonNmOn(r: Registry, d: DeviceId): nat {
    |NonNmTokens(r.sessions) * TokensOn(r.sessions, d)|
  }

  // ---------- the step functions ----------

  function DoAsk(s: State, t: Token): State
    requires t < |s.openers|
  {
    var o := s.openers[t];
    var joined := Register(s.reg, o.device, t, o.client);
    if joined.Some? then SetPc(s.(reg := joined.value), t, Done(true))
    else if o.device in s.opening then SetPc(s, t, Waiting(s.opening[o.device], false))
    else SetPc(s.(opening := s.opening[o.device := |s.resvs|],
                  resvs := s.resvs + [Resv(o.device, t, false)]), t, Holding(|s.resvs|))
  }

  function DoRecheck(s: State, t: Token): State
    requires t < |s.openers|
  {
    var o := s.openers[t];
    var joined := Register(s.reg, o.device, t, o.client);
    if joined.Some? then SetPc(s.(reg := joined.value), t, Done(true))
    else if o.device !in s.opening then SetPc(s, t, Done(false))
    else SetPc(s, t, Asking)
  }

  function DoCheckFirst(s: State, t: Token): State
    requires t < |s.openers| && s.openers[t].pc.Opened?
  {
    var o := s.openers[t];
    var r := o.pc.resv;
    if !ReservationCurrent(s, o.device, r) then SetPc(s, t, Removing(r, false))
    else
      var joined := Register(s.reg, o.device, t, o.client);
      if joined.Some? then SetPc(s.(reg := joined.value), t, Removing(r, true))
      else SetPc(s, t, Checked(r))
  }

  function DoBuild(s: State, t: Token): State
    requires t < |s.openers| && s.openers[t].pc.Checked?
  {
    SetPc(s.(lives := s.lives + [Life(s.openers[t].device, t, 0, [], true, Gated, Local)]),
          t, Built(s.openers[t].pc.resv, |s.lives|))
  }

  function DoPublish(s: State, t: Token): State
    requires t < |s.openers| && s.openers[t].pc.Built? && s.openers[t].pc.life < |s.lives|
  {
    var o := s.openers[t];
    var r, l := o.pc.resv, o.pc.life;
    if !ReservationCurrent(s, o.device, r) then SetPc(s, t, Stopping(r, l, false))
    else
      var joined := Register(s.reg, o.device, t, o.client);
      if joined.Some? then SetPc(s.(reg := joined.value), t, Stopping(r, l, true))
      else SetPc(SetLife(s.(reg := Publish(s.reg, o.device, l, t, o.client)), l, s.lives[l].(phase := Live)),
                 t, Installed(r, l))
  }

  function DoStopLocal(s: State, t: Token): State
    requires t < |s.openers| && s.openers[t].pc.Stopping? && s.openers[t].pc.life < |s.lives|
  {
    var pc := s.openers[t].pc;
    var life := s.lives[pc.life];
    SetPc(SetLife(s, pc.life, life.(epoch := life.epoch + 1, queue := life.queue + [Shutdown], phase := Stopped)),
          t, Removing(pc.resv, pc.ok))
  }

  function DoReleaseGate(s: State, t: Token): State
    requires t < |s.openers| && s.openers[t].pc.Installed? && s.openers[t].pc.life < |s.lives|
  {
    var pc := s.openers[t].pc;
    SetPc(SetLife(s, pc.life, s.lives[pc.life].(reader := Reading)), t, Removing(pc.resv, true))
  }

  function DoRemove(s: State, t: Token): State
    requires t < |s.openers| && s.openers[t].pc.Removing?
  {
    var o := s.openers[t];
    if o.device in s.opening && s.opening[o.device] == o.pc.resv
    then SetPc(s.(opening := s.opening - {o.device}), t, Notifying(o.pc.resv, o.pc.ok))
    else SetPc(s, t, Done(o.pc.ok))
  }

  function DoNotify(s: State, t: Token): State
    requires t < |s.openers| && s.openers[t].pc.Notifying?
  {
    var pc := s.openers[t].pc;
    SetPc(s.(openers := WakeAll(s.openers, pc.resv)), t, Done(pc.ok))
  }

  function DoClose(s: State, d: DeviceId, t: Token, c: ClientId): State {
    var (n, outcome) := Close(s.reg, d, t, c);
    if outcome.Closed? then Departed(s, n, outcome.entry, true, 0) else s
  }

  function DoForceClose(s: State, d: DeviceId): State {
    var n := Departed(s, TearDown(s.reg, d), EntryOf(s.reg, d), true, NonNmOn(s.reg, d));
    if d in s.opening && s.opening[d] < |s.resvs| then
      var r := s.opening[d];
      n.(resvs := n.resvs[r := n.resvs[r].(invalidated := true)], openers := WakeAll(n.openers, r))
    else n
  }

  /** The reader of lifetime `l` met a read error: it tears down whatever is installed for its
      device at that moment. */
  function DoReaderDies(s: State, l: LifeId): State
    requires l < |s.lives|
  {
    var d := s.lives[l].device;
    var n := SetLife(s, l, s.lives[l].(reader := Exited));
    if d in s.reg.devices
    then Departed(n, TearDown(s.reg, d), EntryOf(s.reg, d), false, NonNmOn(s.reg, d))
    else n
  }

  function DoBump(s: State, k: TaskId): State
    requires k < |s.teardowns| && s.teardowns[k].stop.Bump? && s.teardowns[k].stop.life < |s.lives|
  {
    var l := s.teardowns[k].stop.life;
    SetLife(s, l, s.lives[l].(epoch := s.lives[l].epoch + 1, phase := Stopped))
      .(teardowns := s.teardowns[k := s.teardowns[k].(stop := Request(l))])
  }

  function DoRequest(s: State, k: TaskId): State
    requires k < |s.teardowns| && s.teardowns[k].stop.Request? && s.teardowns[k].stop.life < |s.lives|
  {
    var l := s.teardowns[k].stop.life;
    SetLife(s, l, s.lives[l].(queue := s.lives[l].queue + [Shutdown]))
      .(teardowns := s.teardowns[k := s.teardowns[k].(stop := Nothing)])
  }

  function DoSend(s: State, i: TaskId): State
    requires i < |s.senders| && s.senders[i].Stamped? && s.senders[i].life < |s.lives|
  {
    var p := s.senders[i];
    var n := s.(senders := s.senders[i := Finished]);
    if s.lives[p.life].working
    then SetLife(n, p.life, s.lives[p.life].(queue := s.lives[p.life].queue + [Command(p.flag, p.epoch)]))
    else n
  }

  /** The check the worker makes on a dequeued command. */
  predicate Accepts(s: State, l: LifeId, command: IoCommand)
    requires l < |s.lives|
  {
    match command
    case Shutdown => true
    case Command(f, e) => f < |s.reg.flags| && s.reg.flags[f].valid && e == s.lives[l].epoch
  }

  function DoWork(s: State, l: LifeId): State
    requires l < |s.lives| && s.lives[l].working && |s.lives[l].queue| > 0
  {
    SetLife(s, l, s.lives[l].(queue := s.lives[l].queue[1..], working := !s.lives[l].queue[0].Shutdown?))
  }

  // ---------- one step ----------

  ghost predicate Enabled(s: State, step: Step) {
    match step
    case Open(_, _) => true
    case Ask(t) => t < |s.openers| && s.openers[t].pc.Asking?
    case Recheck(t) => t < |s.openers| && s.openers[t].pc.Waiting? && s.openers[t].pc.woken
    case OpenPhysical(t, _) => t < |s.openers| && s.openers[t].pc.Holding?
    case CheckFirst(t) => t < |s.openers| && s.openers[t].pc.Opened?
    case Build(t) => t < |s.openers| && s.openers[t].pc.Checked?
    case PublishEntry(t) => t < |s.openers| && s.openers[t].pc.Built? && s.openers[t].pc.life < |s.lives|
    case StopLocal(t) => t < |s.openers| && s.openers[t].pc.Stopping? && s.openers[t].pc.life < |s.lives|
    case ReleaseGate(t) => t < |s.openers| && s.openers[t].pc.Installed? && s.openers[t].pc.life < |s.lives|
    case Remove(t) => t < |s.openers| && s.openers[t].pc.Removing?
    case Notify(t) => t < |s.openers| && s.openers[t].pc.Notifying?
    case RegisterSink(c, _, order) => Lists(order, OwnedDevices(s.reg.sessions, c))
    case ReaderDies(l) => l < |s.lives| && s.lives[l].reader.Reading?
    case SettleCount(k) =>
      k < |s.teardowns| && (s.teardowns[k].settleFirst || s.teardowns[k].stop.Nothing?)
    case BumpEpoch(k) =>
      && k < |s.teardowns| && s.teardowns[k].stop.Bump? && s.teardowns[k].stop.life < |s.lives|
      && (s.teardowns[k].settleFirst ==> s.teardowns[k].settle == 0)
    case RequestShutdown(k) =>
      && k < |s.teardowns| && s.teardowns[k].stop.Request? && s.teardowns[k].stop.life < |s.lives|
      && |s.lives[s.teardowns[k].stop.life].queue| < QUEUE_CAPACITY
    case SnapshotNm(c, d) => (c, d) in s.reg.hot
    case VetTransport(d, f) =>
      && f < |s.reg.flags| && s.reg.flags[f].origin.Capability? && s.reg.flags[f].origin.device == d
      && s.reg.flags[f].valid
    case LookUp(i) => i < |s.senders| && s.senders[i].Vetted?
    case Stamp(i) => i < |s.senders| && s.senders[i].Bound? && s.senders[i].life < |s.lives|
    case Send(i) =>
      && i < |s.senders| && s.senders[i].Stamped? && s.senders[i].life < |s.lives|
      && (s.lives[s.senders[i].life].working ==> |s.lives[s.senders[i].life].queue| < QUEUE_CAPACITY)
    case Work(l) => l < |s.lives| && s.lives[l].working && |s.lives[l].queue| > 0
    case _ => true
  }

  ghost function Next(s: State, step: Step): State
    requires Enabled(s, step)
  {
    match step
    case Open(d, c) => s.(openers := s.openers + [Opener(d, c, Asking)])
    case Ask(t) => DoAsk(s, t)
    case Recheck(t) => DoRecheck(s, t)
    case OpenPhysical(t, success) =>
      SetPc(s, t, if success then Opened(s.openers[t].pc.resv) else Removing(s.openers[t].pc.resv, false))
    case CheckFirst(t) => DoCheckFirst(s, t)
    case Build(t) => DoBuild(s, t)
    case PublishEntry(t) => DoPublish(s, t)
    case StopLocal(t) => DoStopLocal(s, t)
    case ReleaseGate(t) => DoReleaseGate(s, t)
    case Remove(t) => DoRemove(s, t)
    case Notify(t) => DoNotify(s, t)
    case CloseSession(d, t, c) => DoClose(s, d, t, c)
    case ChangeMode(d, t, mode, c) => s.(reg := SetMode(s.reg, d, t, mode, c).0)
    case ConnectTransport(d, t, kind) => s.(reg := Connect(s.reg, d, t, kind).0)
    case DisconnectTransport(d, t, kind, generation, f) => s.(reg := Disconnect(s.reg, d, t, kind, generation, f))
    case RegisterSink(c, sink, order) => s.(reg := RefreshAll(AddSink(s.reg, c, sink), c, order))
    case UnregisterSink(c) => s.(reg := RemoveSink(s.reg, c))
    case ForceClose(d) => DoForceClose(s, d)
    case ReaderDies(l) => DoReaderDies(s, l)
    case SettleCount(k) =>
      s.(reg := s.reg.(nonNm := s.reg.nonNm - s.teardowns[k].settle),
         teardowns := s.teardowns[k := s.teardowns[k].(settle := 0)])
    case BumpEpoch(k) => DoBump(s, k)
    case RequestShutdown(k) => DoRequest(s, k)
    case SnapshotNm(c, d) => s.(senders := s.senders + [Bound(s.reg.hot[(c, d)].flag, s.reg.hot[(c, d)].life)])
    case VetTransport(d, f) => s.(senders := s.senders + [Vetted(d, f)])
    case LookUp(i) =>
      var p := s.senders[i];
      var found := if p.device in s.reg.devices then Bound(p.flag, s.reg.devices[p.device]) else Finished;
      s.(senders := s.senders[i := found])
    case Stamp(i) =>
      s.(senders := s.senders[i := Stamped(s.senders[i].flag, s.senders[i].life, s.lives[s.senders[i].life].epoch)])
    case Send(i) => DoSend(s, i)
    case Work(l) => DoWork(s, l)
  }
}
