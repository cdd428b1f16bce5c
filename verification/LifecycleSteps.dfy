/** Every step of the daemon keeps its invariant. */
module LifecycleSteps {
  import opened Wrappers
  import opened Registry
  import RegistryInvariant
  import opened RegistryOps
  import opened RegistryEffects
  import opened Lifecycle
  import opened LifecycleInvariant

  // ---------- opening ----------

  lemma OpenKeeps(s: State, d: DeviceId, c: ClientId)
    requires Inv(s) && Enabled(s, Open(d, c))
    ensures Inv(Next(s, Open(d, c)))
  {
    hide RegistryInvariant.Inv, SessionsOk, ReservationsOk, LivesOk, CommandsOk;
    var n := s.(openers := s.openers + [Opener(d, c, Asking)]);
    SessionsFrame(s, n);
    CommandsSame(s, n);
    OpenerAddedReservations(s, n);
    OpenerAddedLives(s, n);
  }

  /** An opener that has just asked holds and waits for nothing. */
  lemma OpenerAddedReservations(s: State, n: State)
    requires ReservationsOk(s) && n == s.(openers := n.openers) && |n.openers| == |s.openers| + 1
    requires n.openers == s.openers + [n.openers[|s.openers|]] && n.openers[|s.openers|].pc == Asking
    ensures ReservationsOk(n)
  {
    forall t: Token | t < |n.openers| ensures HolderOk(n, t) && WaiterOk(n, t) {
      if t < |s.openers| { assert HolderOk(s, t) && WaiterOk(s, t); }
    }
    forall e | e in n.opening ensures StoredOk(n, e) { assert StoredOk(s, e); }
  }

  lemma OpenerAddedLives(s: State, n: State)
    requires LivesOk(s) && n == s.(openers := n.openers) && |n.openers| == |s.openers| + 1
    requires n.openers == s.openers + [n.openers[|s.openers|]] && n.openers[|s.openers|].pc == Asking
    ensures LivesOk(n)
  {
    forall t: Token | t < |n.openers| ensures BuilderOk(n, t) { if t < |s.openers| { assert BuilderOk(s, t); } }
    forall l: LifeId | l < |n.lives| ensures LifeOk(n, l) { assert LifeOk(s, l); }
    forall e | e in n.reg.devices ensures InstalledOk(n, e) { assert InstalledOk(s, e); }
    forall k: TaskId | k < |n.teardowns| ensures TeardownOk(n, k) { assert TeardownOk(s, k); }
  }

  /** An opener joins a device that is open: a session is registered and `t` moves to `pc`. */
  lemma JoinKeeps(s: State, t: Token)
    requires Inv(s) && t < |s.openers| && (s.openers[t].pc.Asking? || s.openers[t].pc.Waiting?)
    requires s.openers[t].device in s.reg.devices
    ensures Inv(SetPc(s.(reg := Register(s.reg, s.openers[t].device, t, s.openers[t].client).value), t, Done(true)))
  {
    hide RegistryInvariant.Inv, SessionsOk, ReservationsOk, LivesOk, CommandsOk;
    hide Refresh, AddSession;
    var o := s.openers[t];
    var r := Register(s.reg, o.device, t, o.client).value;
    var n := SetPc(s.(reg := r), t, Done(true));
    FreshToken(s, t);
    RegisterEffect(s.reg, o.device, t, o.client);
    RegisterKeeps(s.reg, o.device, t, o.client, Owed(s.teardowns));
    SessionsJoin(s, n, t);
    CommandsSame(s, n);
    ReservationsMove(s, n, t, Done(true));
    LivesMove(s, n, t, Done(true));
  }

  lemma FreshToken(s: State, t: Token)
    requires SessionsOk(s) && t < |s.openers| && !Registered(s.openers[t].pc)
    ensures t !in s.reg.sessions
  {
  }

  lemma SessionsJoin(s: State, n: State, t: Token)
    requires SessionsOk(s) && t < |s.openers| && t < |n.openers| && Registered(n.openers[t].pc)
    requires Moved(s, n, t, n.openers[t].pc)
    requires var o := s.openers[t];
             n.reg.sessions == s.reg.sessions[t := Session(o.device, o.client, NM, AuthHash(t), true, 0, 0)]
    ensures SessionsOk(n)
  {
    forall u | u in n.reg.sessions ensures SessionOk(n, u) { if u != t { assert SessionOk(s, u); } }
  }

  /** An opener advances without touching anything else. */
  lemma StepAsideKeeps(s: State, t: Token, pc: Pc)
    requires Inv(s) && t < |s.openers|
    requires Held(pc) == Held(s.openers[t].pc) && !s.openers[t].pc.Notifying?
    requires Registered(s.openers[t].pc) ==> Registered(pc)
    requires HolderOk(SetPc(s, t, pc), t) && WaiterOk(SetPc(s, t, pc), t) && BuilderOk(SetPc(s, t, pc), t)
    requires s.openers[t].pc.Built? || s.openers[t].pc.Stopping? ==>
               (pc.Built? || pc.Stopping?) && pc.life == s.openers[t].pc.life
    ensures Inv(SetPc(s, t, pc))
  {
    var n := SetPc(s, t, pc);
    hide RegistryInvariant.Inv, SessionsOk, ReservationsOk, LivesOk, CommandsOk;
    SessionsMove(s, n, t, pc);
    CommandsSame(s, n);
    ReservationsMove(s, n, t, pc);
    LivesMove(s, n, t, pc);
  }

  lemma ReserveKeeps(s: State, t: Token)
    requires Inv(s) && t < |s.openers| && s.openers[t].pc.Asking?
    requires s.openers[t].device !in s.reg.devices && s.openers[t].device !in s.opening
    ensures Inv(DoAsk(s, t))
  {
    hide RegistryInvariant.Inv, SessionsOk, ReservationsOk, LivesOk, CommandsOk;
    var n := DoAsk(s, t);
    SessionsMove(s, n, t, n.openers[t].pc);
    CommandsSame(s, n);
    LivesMove(s, n, t, Holding(|s.resvs|));
    ReserveReservations(s, t);
  }

  lemma ReserveReservations(s: State, t: Token)
    requires ReservationsOk(s) && t < |s.openers| && s.openers[t].pc.Asking?
    requires s.openers[t].device !in s.reg.devices && s.openers[t].device !in s.opening
    ensures ReservationsOk(DoAsk(s, t))
  {
    var n := DoAsk(s, t);
    forall u: Token | u < |n.openers| ensures HolderOk(n, u) { assert HolderOk(s, u); }
    forall u: Token | u < |n.openers| ensures WaiterOk(n, u) { assert WaiterOk(s, u); }
    forall d | d in n.opening ensures StoredOk(n, d) { if d != s.openers[t].device { assert StoredOk(s, d); } }
  }

  lemma AskKeeps(s: State, t: Token)
    requires Inv(s) && Enabled(s, Ask(t))
    ensures Inv(Next(s, Ask(t)))
  {
    var o := s.openers[t];
    if o.device in s.reg.devices {
      JoinKeeps(s, t);
    } else if o.device in s.opening {
      assert StoredOk(s, o.device);
      assert WakeupOwed(SetPc(s, t, Waiting(s.opening[o.device], false)), s.opening[o.device]);
      StepAsideKeeps(s, t, Waiting(s.opening[o.device], false));
    } else {
      ReserveKeeps(s, t);
    }
  }

  lemma RecheckKeeps(s: State, t: Token)
    requires Inv(s) && Enabled(s, Recheck(t))
    ensures Inv(Next(s, Recheck(t)))
  {
    hide RegistryInvariant.Inv, SessionsOk, ReservationsOk, LivesOk, CommandsOk;
    OpenerAt(s, t);
    var o := s.openers[t];
    if o.device in s.reg.devices {
      JoinKeeps(s, t);
    } else {
      StepAsideKeeps(s, t, if o.device !in s.opening then Done(false) else Asking);
    }
  }

  lemma OpenPhysicalKeeps(s: State, t: Token, success: bool)
    requires Inv(s) && Enabled(s, OpenPhysical(t, success))
    ensures Inv(Next(s, OpenPhysical(t, success)))
  {
    hide RegistryInvariant.Inv, SessionsOk, ReservationsOk, LivesOk, CommandsOk;
    OpenerAt(s, t);
    var r := s.openers[t].pc.resv;
    StepAsideKeeps(s, t, if success then Opened(r) else Removing(r, false));
  }

  /** A holder that has not published finds its device absent, whatever its own checks say. */
  lemma CheckFirstKeeps(s: State, t: Token)
    requires Inv(s) && Enabled(s, CheckFirst(t))
    ensures Inv(Next(s, CheckFirst(t)))
  {
    hide RegistryInvariant.Inv, SessionsOk, ReservationsOk, LivesOk, CommandsOk;
    OpenerAt(s, t);
    var r := s.openers[t].pc.resv;
    StepAsideKeeps(s, t, if ReservationCurrent(s, s.openers[t].device, r) then Checked(r) else Removing(r, false));
  }

  lemma BuildKeeps(s: State, t: Token)
    requires Inv(s) && Enabled(s, Build(t))
    ensures Inv(Next(s, Build(t)))
  {
    hide RegistryInvariant.Inv, SessionsOk, ReservationsOk, LivesOk, CommandsOk;
    var n := DoBuild(s, t);
    OpenerAt(s, t);
    BuildLives(s, t);
    SessionsMove(s, n, t, n.openers[t].pc);
    CommandsFrame(s, n);
    ReservationsMove(s, n, t, n.openers[t].pc);
  }

  lemma BuildLives(s: State, t: Token)
    requires LivesOk(s) && t < |s.openers| && s.openers[t].pc.Checked?
    ensures LivesOk(DoBuild(s, t))
  {
    var n := DoBuild(s, t);
    forall l: LifeId | l < |n.lives| ensures LifeOk(n, l) { if l < |s.lives| { assert LifeOk(s, l); } }
    forall d | d in n.reg.devices ensures InstalledOk(n, d) { assert InstalledOk(s, d); }
    forall k: TaskId | k < |n.teardowns| ensures TeardownOk(n, k) { assert TeardownOk(s, k); }
    forall u: Token | u < |n.openers| ensures BuilderOk(n, u) { assert BuilderOk(s, u); }
  }

  lemma PublishKeepsAll(s: State, t: Token)
    requires Inv(s) && Enabled(s, PublishEntry(t))
    ensures Inv(Next(s, PublishEntry(t)))
  {
    hide RegistryInvariant.Inv, SessionsOk, ReservationsOk, LivesOk, CommandsOk;
    OpenerAt(s, t);
    var o := s.openers[t];
    if !ReservationCurrent(s, o.device, o.pc.resv) {
      StepAsideKeeps(s, t, Stopping(o.pc.resv, o.pc.life, false));
    } else {
      InstallKeeps(s, t);
    }
  }

  lemma InstallKeeps(s: State, t: Token)
    requires Inv(s) && t < |s.openers| && s.openers[t].pc.Built? && s.openers[t].pc.life < |s.lives|
    requires s.openers[t].device !in s.reg.devices
    requires ReservationCurrent(s, s.openers[t].device, s.openers[t].pc.resv)
    ensures Inv(DoPublish(s, t))
  {
    hide RegistryInvariant.Inv, SessionsOk, ReservationsOk, LivesOk, CommandsOk;
    hide Publish;
    var o := s.openers[t];
    var n := DoPublish(s, t);
    FreshToken(s, t);
    OpenerAt(s, t);
    PublishEffect(s.reg, o.device, o.pc.life, t, o.client);
    PublishKeeps(s.reg, o.device, o.pc.life, t, o.client, Owed(s.teardowns));
    SessionsJoin(s, n, t);
    CommandsOneLife(s, n, o.pc.life);
    ReservationsMove(s, n, t, n.openers[t].pc);
    InstallLives(s, n, t);
  }

  lemma InstallLives(s: State, n: State, t: Token)
    requires LivesOk(s) && t < |s.openers| && s.openers[t].pc.Built? && s.openers[t].pc.life < |s.lives|
    requires s.openers[t].device !in s.reg.devices
    requires n.reg.devices == s.reg.devices[s.openers[t].device := s.openers[t].pc.life]
    requires n.lives == s.lives[s.openers[t].pc.life := s.lives[s.openers[t].pc.life].(phase := Live)]
    requires Moved(s, n, t, Installed(s.openers[t].pc.resv, s.openers[t].pc.life)) && n.teardowns == s.teardowns
    ensures LivesOk(n)
  {
    assert BuilderOk(s, t);
    forall l: LifeId | l < |n.lives| ensures LifeOk(n, l) { assert LifeOk(s, l); }
    forall d | d in n.reg.devices ensures InstalledOk(n, d) { if d in s.reg.devices { assert InstalledOk(s, d); } }
    forall k: TaskId | k < |n.teardowns| ensures TeardownOk(n, k) { assert TeardownOk(s, k); }
    forall u: Token | u < |n.openers| ensures BuilderOk(n, u) { assert BuilderOk(s, u); }
  }

  lemma StopLocalKeeps(s: State, t: Token)
    requires Inv(s) && Enabled(s, StopLocal(t))
    ensures Inv(Next(s, StopLocal(t)))
  {
    hide RegistryInvariant.Inv, SessionsOk, ReservationsOk, LivesOk, CommandsOk;
    var n := DoStopLocal(s, t);
    OpenerAt(s, t);
    StopLocalLives(s, t);
    SessionsMove(s, n, t, n.openers[t].pc);
    CommandsOneLife(s, n, s.openers[t].pc.life);
    ReservationsMove(s, n, t, n.openers[t].pc);
  }

  lemma StopLocalLives(s: State, t: Token)
    requires LivesOk(s) && t < |s.openers| && s.openers[t].pc.Stopping? && s.openers[t].pc.life < |s.lives|
    ensures LivesOk(DoStopLocal(s, t))
  {
    var n := DoStopLocal(s, t);
    assert BuilderOk(s, t);
    forall l: LifeId | l < |n.lives| ensures LifeOk(n, l) { assert LifeOk(s, l); }
    forall d | d in n.reg.devices ensures InstalledOk(n, d) { assert InstalledOk(s, d); }
    forall k: TaskId | k < |n.teardowns| ensures TeardownOk(n, k) { assert TeardownOk(s, k); }
    forall u: Token | u < |n.openers| ensures BuilderOk(n, u) { assert BuilderOk(s, u); }
  }

  lemma ReleaseGateKeeps(s: State, t: Token)
    requires Inv(s) && Enabled(s, ReleaseGate(t))
    ensures Inv(Next(s, ReleaseGate(t)))
  {
    hide RegistryInvariant.Inv, SessionsOk, ReservationsOk, LivesOk, CommandsOk;
    var n := DoReleaseGate(s, t);
    OpenerAt(s, t);
    SessionsMove(s, n, t, n.openers[t].pc);
    CommandsOneLife(s, n, s.openers[t].pc.life);
    ReservationsMove(s, n, t, n.openers[t].pc);
    SameLifePhases(s, n);
  }

  /** Changes to queues, readers and workers, and openers past building, leave the lifetimes in order. */
  lemma SameLifePhases(s: State, n: State)
    requires LivesOk(s) && |n.lives| == |s.lives| && n.reg.devices == s.reg.devices && n.teardowns == s.teardowns
    requires forall l: LifeId :: l < |s.lives| ==>
               n.lives[l].phase == s.lives[l].phase && n.lives[l].epoch == s.lives[l].epoch
               && n.lives[l].device == s.lives[l].device && n.lives[l].opener == s.lives[l].opener
    requires |n.openers| == |s.openers|
    requires forall t: Token :: t < |s.openers| ==>
               n.openers[t].device == s.openers[t].device
               && (n.openers[t].pc == s.openers[t].pc
                   || (!n.openers[t].pc.Built? && !n.openers[t].pc.Stopping? && !n.openers[t].pc.Installed?
                       && !s.openers[t].pc.Built? && !s.openers[t].pc.Stopping?))
    ensures LivesOk(n)
  {
    forall l: LifeId | l < |n.lives| ensures LifeOk(n, l) { assert LifeOk(s, l); }
    forall d | d in n.reg.devices ensures InstalledOk(n, d) { assert InstalledOk(s, d); }
    forall k: TaskId | k < |n.teardowns| ensures TeardownOk(n, k) { assert TeardownOk(s, k); }
    forall u: Token | u < |n.openers| ensures BuilderOk(n, u) { assert BuilderOk(s, u); }
  }

  lemma RemoveKeeps(s: State, t: Token)
    requires Inv(s) && Enabled(s, Remove(t))
    ensures Inv(Next(s, Remove(t)))
  {
    hide RegistryInvariant.Inv, SessionsOk, ReservationsOk, LivesOk, CommandsOk;
    var n := DoRemove(s, t);
    RemoveReservations(s, t);
    SessionsMove(s, n, t, n.openers[t].pc);
    CommandsSame(s, n);
    LivesMove(s, n, t, n.openers[t].pc);
  }

  lemma RemoveReservations(s: State, t: Token)
    requires ReservationsOk(s) && t < |s.openers| && s.openers[t].pc.Removing?
    ensures ReservationsOk(DoRemove(s, t))
  {
    var n := DoRemove(s, t);
    assert HolderOk(s, t);
    forall u: Token | u < |n.openers| ensures HolderOk(n, u) && WaiterOk(n, u) {
      assert HolderOk(s, u) && WaiterOk(s, u);
    }
    forall d | d in n.opening ensures StoredOk(n, d) { assert StoredOk(s, d); }
  }

  lemma NotifyKeeps(s: State, t: Token)
    requires Inv(s) && Enabled(s, Notify(t))
    ensures Inv(Next(s, Notify(t)))
  {
    hide RegistryInvariant.Inv, SessionsOk, ReservationsOk, LivesOk, CommandsOk;
    var n := DoNotify(s, t);
    NotifyReservations(s, t);
    SessionsFrame(s, n);
    CommandsSame(s, n);
    SameLifePhases(s, n);
  }

  lemma NotifyReservations(s: State, t: Token)
    requires ReservationsOk(s) && t < |s.openers| && s.openers[t].pc.Notifying?
    ensures ReservationsOk(DoNotify(s, t))
  {
    var n := DoNotify(s, t);
    forall u: Token | u < |n.openers| ensures HolderOk(n, u) && WaiterOk(n, u) {
      assert HolderOk(s, u) && WaiterOk(s, u);
    }
    forall d | d in n.opening ensures StoredOk(n, d) { assert StoredOk(s, d); }
  }

  // ---------- closing ----------

  /** A section that took device `d`'s entry (if any) out of the tables and left a task behind. */
  lemma DepartedKeeps(s: State, r: Registry, d: DeviceId, entry: Option<LifeId>, settleFirst: bool, settle: nat)
    requires Inv(s) && RegistryInvariant.Inv(r, Owed(s.teardowns) + settle)
    requires FlagsLater(s.reg.flags, r.flags)
    requires forall t :: t in r.sessions ==> t in s.reg.sessions && r.sessions[t] == s.reg.sessions[t]
    requires entry.None? ==> r.devices == s.reg.devices
    requires entry.Some? ==> d in s.reg.devices && s.reg.devices[d] == entry.value && r.devices == s.reg.devices - {d}
    ensures Inv(Departed(s, r, entry, settleFirst, settle))
  {
    hide RegistryInvariant.Inv, SessionsOk, ReservationsOk, LivesOk, CommandsOk;
    var n := Departed(s, r, entry, settleFirst, settle);
    assert n.teardowns[..|n.teardowns| - 1] == s.teardowns;
    SessionsFrame(s, n);
    ReservationsFrame(s, n);
    DetachLives(s, r, d, entry, settleFirst, settle);
    DetachCommands(s, n, entry, |s.teardowns|);
  }

  lemma DetachLives(s: State, r: Registry, d: DeviceId, entry: Option<LifeId>, settleFirst: bool, settle: nat)
    requires LivesOk(s)
    requires entry.None? ==> r.devices == s.reg.devices
    requires entry.Some? ==> d in s.reg.devices && s.reg.devices[d] == entry.value && r.devices == s.reg.devices - {d}
    ensures LivesOk(Departed(s, r, entry, settleFirst, settle))
  {
    var n := Departed(s, r, entry, settleFirst, settle);
    if entry.Some? { assert InstalledOk(s, d); }
    forall l: LifeId | l < |n.lives| ensures LifeOk(n, l) { assert LifeOk(s, l); }
    forall e | e in n.reg.devices ensures InstalledOk(n, e) { assert InstalledOk(s, e); }
    forall k: TaskId | k < |n.teardowns| ensures TeardownOk(n, k) {
      if k < |s.teardowns| { assert TeardownOk(s, k); }
    }
    forall u: Token | u < |n.openers| ensures BuilderOk(n, u) { assert BuilderOk(s, u); }
  }

  lemma DetachCommands(s: State, n: State, entry: Option<LifeId>, k: TaskId)
    requires CommandsOk(s) && FlagsLater(s.reg.flags, n.reg.flags) && n.senders == s.senders
    requires n.lives == Detach(s.lives, entry, k)
    ensures CommandsOk(n)
  {
    hide CommandsOk;
    if entry.Some? && entry.value < |s.lives| { CommandsOneLife(s, n, entry.value); } else { CommandsSame(s, n); }
  }

  lemma CloseSessionKeeps(s: State, d: DeviceId, t: Token, c: ClientId)
    requires Inv(s) && Enabled(s, CloseSession(d, t, c))
    ensures Inv(Next(s, CloseSession(d, t, c)))
  {
    hide RegistryInvariant.Inv, SessionsOk, ReservationsOk, LivesOk, CommandsOk, Departed, Close;
    var (r, outcome) := Close(s.reg, d, t, c);
    if outcome.Closed? {
      CloseEffect(s.reg, d, t, c);
      CloseKeeps(s.reg, d, t, c, Owed(s.teardowns));
      CloseEntry(s, d, t, c);
      DepartedKeeps(s, r, d, outcome.entry, true, 0);
    }
  }

  /** The last close of a device always finds its entry. */
  lemma CloseEntry(s: State, d: DeviceId, t: Token, c: ClientId)
    requires RegistryOk(s) && Close(s.reg, d, t, c).1.Closed?
    ensures d in s.reg.devices
  {
  }

  /** What a teardown of device `d` leaves is fit to be departed with. */
  lemma TearDownFits(s: State, d: DeviceId)
    requires Inv(s)
    ensures var r := TearDown(s.reg, d);
            && RegistryInvariant.Inv(r, Owed(s.teardowns) + NonNmOn(s.reg, d)) && FlagsLater(s.reg.flags, r.flags)
            && (forall t :: t in r.sessions ==> t in s.reg.sessions && r.sessions[t] == s.reg.sessions[t])
            && (if d in s.reg.devices then r.devices == s.reg.devices - {d} else r.devices == s.reg.devices)
  {
    hide RegistryInvariant.Inv, SessionsOk, ReservationsOk, LivesOk, CommandsOk, TearDown;
    TearDownEffect(s.reg, d);
    TearDownKeeps(s.reg, d, Owed(s.teardowns));
  }

  lemma TearDownDeparts(s: State, d: DeviceId, settleFirst: bool)
    requires Inv(s)
    ensures Inv(Departed(s, TearDown(s.reg, d), EntryOf(s.reg, d), settleFirst, NonNmOn(s.reg, d)))
  {
    hide RegistryInvariant.Inv, Inv, Departed, TearDown, NonNmOn, FlagsLater, Owed;
    TearDownFits(s, d);
    DepartedKeeps(s, TearDown(s.reg, d), d, EntryOf(s.reg, d), settleFirst, NonNmOn(s.reg, d));
  }

  lemma ForceCloseKeeps(s: State, d: DeviceId)
    requires Inv(s) && Enabled(s, ForceClose(d))
    ensures Inv(Next(s, ForceClose(d)))
  {
    hide Inv, Departed, TearDown, EntryOf, NonNmOn, WakeAll;
    TearDownDeparts(s, d, true);
    var m := Departed(s, TearDown(s.reg, d), EntryOf(s.reg, d), true, NonNmOn(s.reg, d));
    DepartedSame(s, d);
    if d in s.opening && s.opening[d] < |s.resvs| { InvalidateKeeps(m, s.opening[d]); }
  }

  lemma DepartedSame(s: State, d: DeviceId)
    ensures var m := Departed(s, TearDown(s.reg, d), EntryOf(s.reg, d), true, NonNmOn(s.reg, d));
            m.opening == s.opening && m.resvs == s.resvs
  {
  }

  /** Invalidating a reservation and waking its waiters leaves its holder in charge of it. */
  lemma InvalidateKeeps(s: State, r: ResvId)
    requires Inv(s) && r < |s.resvs|
    ensures Inv(s.(resvs := s.resvs[r := s.resvs[r].(invalidated := true)], openers := WakeAll(s.openers, r)))
  {
    hide RegistryInvariant.Inv, SessionsOk, ReservationsOk, LivesOk, CommandsOk;
    var n := s.(resvs := s.resvs[r := s.resvs[r].(invalidated := true)], openers := WakeAll(s.openers, r));
    SessionsFrame(s, n);
    CommandsSame(s, n);
    SameLifePhases(s, n);
    InvalidateReservations(s, r);
  }

  lemma InvalidateReservations(s: State, r: ResvId)
    requires ReservationsOk(s) && r < |s.resvs|
    ensures ReservationsOk(s.(resvs := s.resvs[r := s.resvs[r].(invalidated := true)],
                              openers := WakeAll(s.openers, r)))
  {
    var n := s.(resvs := s.resvs[r := s.resvs[r].(invalidated := true)], openers := WakeAll(s.openers, r));
    forall u: Token | u < |n.openers| ensures HolderOk(n, u) && WaiterOk(n, u) {
      assert HolderOk(s, u) && WaiterOk(s, u);
    }
    forall d | d in n.opening ensures StoredOk(n, d) { assert StoredOk(s, d); }
  }

  lemma ReaderDiesKeeps(s: State, l: LifeId)
    requires Inv(s) && Enabled(s, ReaderDies(l))
    ensures Inv(Next(s, ReaderDies(l)))
  {
    hide RegistryInvariant.Inv, SessionsOk, ReservationsOk, LivesOk, CommandsOk, Departed, TearDown;
    var n := SetLife(s, l, s.lives[l].(reader := Exited));
    SessionsFrame(s, n);
    ReservationsFrame(s, n);
    SameLifePhases(s, n);
    CommandsOneLife(s, n, l);
    if s.lives[l].device in s.reg.devices { TearDownDeparts(n, s.lives[l].device, false); }
  }

  // ---------- sections that keep every session ----------

  lemma ChangeModeKeeps(s: State, d: DeviceId, t: Token, mode: Mode, c: ClientId)
    requires Inv(s) && Enabled(s, ChangeMode(d, t, mode, c))
    ensures Inv(Next(s, ChangeMode(d, t, mode, c)))
  {
    hide RegistryInvariant.Inv, SessionsOk, ReservationsOk, LivesOk, CommandsOk, SetMode;
    SetModeKeeps(s.reg, d, t, mode, c, Owed(s.teardowns));
    SetModeEffect(s.reg, d, t, mode, c);
    RegistryOnly(s, Next(s, ChangeMode(d, t, mode, c)));
  }

  lemma ConnectTransportKeeps(s: State, d: DeviceId, t: Token, kind: Plane)
    requires Inv(s) && Enabled(s, ConnectTransport(d, t, kind))
    ensures Inv(Next(s, ConnectTransport(d, t, kind)))
  {
    hide RegistryInvariant.Inv, SessionsOk, ReservationsOk, LivesOk, CommandsOk, Connect;
    ConnectKeeps(s.reg, d, t, kind, Owed(s.teardowns));
    ConnectEffect(s.reg, d, t, kind);
    RegistryOnly(s, Next(s, ConnectTransport(d, t, kind)));
  }

  lemma DisconnectTransportKeeps(s: State, d: DeviceId, t: Token, kind: Plane, generation: nat, f: FlagId)
    requires Inv(s) && Enabled(s, DisconnectTransport(d, t, kind, generation, f))
    ensures Inv(Next(s, DisconnectTransport(d, t, kind, generation, f)))
  {
    hide RegistryInvariant.Inv, SessionsOk, ReservationsOk, LivesOk, CommandsOk, Disconnect;
    DisconnectKeeps(s.reg, d, t, kind, generation, f, Owed(s.teardowns));
    DisconnectEffect(s.reg, d, t, kind, generation, f);
    RegistryOnly(s, Next(s, DisconnectTransport(d, t, kind, generation, f)));
  }

  lemma RegisterSinkStepKeeps(s: State, c: ClientId, sink: SinkId, order: seq<DeviceId>)
    requires Inv(s) && Enabled(s, RegisterSink(c, sink, order))
    ensures Inv(Next(s, RegisterSink(c, sink, order)))
  {
    hide RegistryInvariant.Inv, SessionsOk, ReservationsOk, LivesOk, CommandsOk, RefreshAll;
    RegisterSinkKeeps(s.reg, c, sink, order, Owed(s.teardowns));
    RefreshAllEffect(AddSink(s.reg, c, sink), c, order);
    RegistryOnly(s, Next(s, RegisterSink(c, sink, order)));
  }

  lemma UnregisterSinkKeeps(s: State, c: ClientId)
    requires Inv(s) && Enabled(s, UnregisterSink(c))
    ensures Inv(Next(s, UnregisterSink(c)))
  {
    hide RegistryInvariant.Inv, SessionsOk, ReservationsOk, LivesOk, CommandsOk;
    RemoveSinkKeeps(s.reg, c, Owed(s.teardowns));
    RegistryOnly(s, Next(s, UnregisterSink(c)));
  }

  // ---------- what teardowns do after the lock ----------

  lemma {:induction false} OwedUpdate(ts: seq<Teardown>, k: TaskId, t: Teardown)
    requires k < |ts|
    ensures Owed(ts[k := t]) == Owed(ts) - ts[k].settle + t.settle
  {
    var us := ts[k := t];
    if k == |ts| - 1 {
      assert us[..|us| - 1] == ts[..|ts| - 1];
    } else {
      OwedUpdate(ts[..|ts| - 1], k, t);
      assert us[..|us| - 1] == ts[..|ts| - 1][k := t];
    }
  }

  lemma SettleCountKeeps(s: State, k: TaskId)
    requires Inv(s) && Enabled(s, SettleCount(k))
    ensures Inv(Next(s, SettleCount(k)))
  {
    hide RegistryInvariant.Inv, SessionsOk, ReservationsOk, LivesOk, CommandsOk;
    var n := Next(s, SettleCount(k));
    OwedUpdate(s.teardowns, k, s.teardowns[k].(settle := 0));
    SettleRegistry(s.reg, Owed(s.teardowns), s.teardowns[k].settle);
    SessionsFrame(s, n);
    ReservationsFrame(s, n);
    CommandsSame(s, n);
    SettleLives(s, k);
  }

  lemma SettleRegistry(r: Registry, owed: nat, settle: nat)
    requires RegistryInvariant.Inv(r, owed) && settle <= owed
    ensures RegistryInvariant.Inv(r.(nonNm := r.nonNm - settle), owed - settle)
  {
    var n := r.(nonNm := r.nonNm - settle);
    RegistryInvariant.CapsFrame(r, n);
    RegistryInvariant.EntriesFrame(r, n);
    RegistryInvariant.FlagsFrame(r, n);
    forall c: ClientId, d: DeviceId ensures RegistryInvariant.HotKeyOk(n, c, d) {
      assert RegistryInvariant.HotKeyOk(r, c, d);
    }
  }

  lemma SettleLives(s: State, k: TaskId)
    requires LivesOk(s) && Enabled(s, SettleCount(k))
    ensures LivesOk(Next(s, SettleCount(k)))
  {
    var n := Next(s, SettleCount(k));
    forall l: LifeId | l < |n.lives| ensures LifeOk(n, l) { assert LifeOk(s, l); }
    forall d | d in n.reg.devices ensures InstalledOk(n, d) { assert InstalledOk(s, d); }
    forall j: TaskId | j < |n.teardowns| ensures TeardownOk(n, j) { assert TeardownOk(s, j); }
    forall u: Token | u < |n.openers| ensures BuilderOk(n, u) { assert BuilderOk(s, u); }
  }

  lemma BumpEpochKeeps(s: State, k: TaskId)
    requires Inv(s) && Enabled(s, BumpEpoch(k))
    ensures Inv(Next(s, BumpEpoch(k)))
  {
    hide RegistryInvariant.Inv, SessionsOk, ReservationsOk, LivesOk, CommandsOk;
    var n := DoBump(s, k);
    OwedUpdate(s.teardowns, k, n.teardowns[k]);
    SessionsFrame(s, n);
    ReservationsFrame(s, n);
    CommandsOneLife(s, n, s.teardowns[k].stop.life);
    BumpLives(s, k);
  }

  lemma BumpLives(s: State, k: TaskId)
    requires LivesOk(s) && Enabled(s, BumpEpoch(k))
    ensures LivesOk(DoBump(s, k))
  {
    var n := DoBump(s, k);
    assert TeardownOk(s, k);
    forall l: LifeId | l < |n.lives| ensures LifeOk(n, l) { assert LifeOk(s, l); }
    forall d | d in n.reg.devices ensures InstalledOk(n, d) { assert InstalledOk(s, d); }
    forall j: TaskId | j < |n.teardowns| ensures TeardownOk(n, j) { assert TeardownOk(s, j); }
    forall u: Token | u < |n.openers| ensures BuilderOk(n, u) { assert BuilderOk(s, u); }
  }

  lemma RequestShutdownKeeps(s: State, k: TaskId)
    requires Inv(s) && Enabled(s, RequestShutdown(k))
    ensures Inv(Next(s, RequestShutdown(k)))
  {
    hide RegistryInvariant.Inv, SessionsOk, ReservationsOk, LivesOk, CommandsOk;
    var n := DoRequest(s, k);
    OwedUpdate(s.teardowns, k, n.teardowns[k]);
    SessionsFrame(s, n);
    ReservationsFrame(s, n);
    CommandsOneLife(s, n, s.teardowns[k].stop.life);
    RequestLives(s, k);
  }

  lemma RequestLives(s: State, k: TaskId)
    requires LivesOk(s) && Enabled(s, RequestShutdown(k))
    ensures LivesOk(DoRequest(s, k))
  {
    var n := DoRequest(s, k);
    assert TeardownOk(s, k);
    forall l: LifeId | l < |n.lives| ensures LifeOk(n, l) { assert LifeOk(s, l); }
    forall d | d in n.reg.devices ensures InstalledOk(n, d) { assert InstalledOk(s, d); }
    forall j: TaskId | j < |n.teardowns| ensures TeardownOk(n, j) { assert TeardownOk(s, j); }
    forall u: Token | u < |n.openers| ensures BuilderOk(n, u) { assert BuilderOk(s, u); }
  }

  // ---------- commands ----------

  /** Only the senders changed, and each is in order. */
  lemma SendersKeep(s: State, n: State)
    requires Inv(s) && n == s.(senders := n.senders)
    requires forall i: TaskId :: i < |n.senders| ==> SenderOk(n, i)
    ensures Inv(n)
  {
    hide RegistryInvariant.Inv, SessionsOk, ReservationsOk, LivesOk;
    SessionsFrame(s, n);
    ReservationsFrame(s, n);
    LivesFrame(s, n);
    forall l: LifeId | l < |n.lives| ensures QueueOk(n, l) { assert QueueOk(s, l); }
  }

  lemma SenderAddedKeeps(s: State, p: Sender)
    requires Inv(s) && SenderOk(s.(senders := s.senders + [p]), |s.senders|)
    ensures Inv(s.(senders := s.senders + [p]))
  {
    hide RegistryInvariant.Inv, SessionsOk, ReservationsOk, LivesOk;
    var n := s.(senders := s.senders + [p]);
    forall i: TaskId | i < |n.senders| ensures SenderOk(n, i) { if i < |s.senders| { assert SenderOk(s, i); } }
    SendersKeep(s, n);
  }

  /** A binding's cell was issued on the lifetime the binding names. */
  lemma HotCommandOk(s: State, c: ClientId, d: DeviceId)
    requires RegistryOk(s) && LivesOk(s) && (c, d) in s.reg.hot
    ensures CommandOk(s, s.reg.hot[(c, d)].flag, s.reg.hot[(c, d)].life)
  {
    hide RegistryInvariant.SessionsOk, RegistryInvariant.HashesOk, RegistryInvariant.CapsOk,
         RegistryInvariant.HotKeysOk,
         RegistryInvariant.FlagsOk, RegistryInvariant.CounterOk, LifeOk, TeardownOk, BuilderOk;
    assert RegistryInvariant.HotEntryOk(s.reg, (c, d)) && InstalledOk(s, d);
  }

  lemma SnapshotNmKeeps(s: State, c: ClientId, d: DeviceId)
    requires Inv(s) && Enabled(s, SnapshotNm(c, d))
    ensures Inv(Next(s, SnapshotNm(c, d)))
  {
    hide RegistryInvariant.Inv, SessionsOk, ReservationsOk, LivesOk, CommandsOk;
    HotCommandOk(s, c, d);
    SenderAddedKeeps(s, Bound(s.reg.hot[(c, d)].flag, s.reg.hot[(c, d)].life));
  }

  lemma VetTransportKeeps(s: State, d: DeviceId, f: FlagId)
    requires Inv(s) && Enabled(s, VetTransport(d, f))
    ensures Inv(Next(s, VetTransport(d, f)))
  {
    hide RegistryInvariant.Inv, SessionsOk, ReservationsOk, LivesOk, CommandsOk;
    SenderAddedKeeps(s, Vetted(d, f));
  }

  /** The queue that a transport looks up is that of the lifetime its capability was issued on,
      unless the capability was revoked in the meantime. */
  lemma LookUpKeeps(s: State, i: TaskId)
    requires Inv(s) && Enabled(s, LookUp(i))
    ensures Inv(Next(s, LookUp(i)))
  {
    hide RegistryInvariant.Inv, SessionsOk, ReservationsOk;
    var n := Next(s, LookUp(i));
    assert SenderOk(s, i);
    var p := s.senders[i];
    RegistryInvariant.ValidIffCurrent(s.reg, p.flag, Owed(s.teardowns));
    if p.device in s.reg.devices { assert InstalledOk(s, p.device); }
    forall j: TaskId | j < |n.senders| ensures SenderOk(n, j) { assert SenderOk(s, j); }
    SendersKeep(s, n);
  }

  lemma StampKeeps(s: State, i: TaskId)
    requires Inv(s) && Enabled(s, Stamp(i))
    ensures Inv(Next(s, Stamp(i)))
  {
    hide RegistryInvariant.Inv, SessionsOk, ReservationsOk, LivesOk;
    var n := Next(s, Stamp(i));
    forall j: TaskId | j < |n.senders| ensures SenderOk(n, j) { assert SenderOk(s, j); }
    SendersKeep(s, n);
  }

  lemma SendKeeps(s: State, i: TaskId)
    requires Inv(s) && Enabled(s, Send(i))
    ensures Inv(Next(s, Send(i)))
  {
    hide RegistryInvariant.Inv, SessionsOk, ReservationsOk, LivesOk, CommandsOk;
    var n := DoSend(s, i);
    SessionsFrame(s, n);
    ReservationsFrame(s, n);
    SameLifePhases(s, n);
    SendCommands(s, i);
  }

  lemma SendCommands(s: State, i: TaskId)
    requires CommandsOk(s) && Enabled(s, Send(i))
    ensures CommandsOk(DoSend(s, i))
  {
    var n := DoSend(s, i);
    assert SenderOk(s, i);
    forall j: TaskId | j < |n.senders| ensures SenderOk(n, j) { assert SenderOk(s, j); }
    forall l: LifeId | l < |n.lives| ensures QueueOk(n, l) { assert QueueOk(s, l); }
  }

  lemma WorkKeeps(s: State, l: LifeId)
    requires Inv(s) && Enabled(s, Work(l))
    ensures Inv(Next(s, Work(l)))
  {
    hide RegistryInvariant.Inv, SessionsOk, ReservationsOk, LivesOk, CommandsOk;
    var n := DoWork(s, l);
    SessionsFrame(s, n);
    ReservationsFrame(s, n);
    SameLifePhases(s, n);
    CommandsOneLife(s, n, l);
  }

  // ---------- all steps ----------

  lemma InitialOk()
    ensures Inv(Initial)
  {
  }

  /** Every step from a state in order leads to a state in order. */
  lemma StepKeeps(s: State, step: Step)
    requires Inv(s) && Enabled(s, step)
    ensures Inv(Next(s, step))
  {
    match step
    case Open(d, c) => OpenKeeps(s, d, c);
    case Ask(t) => AskKeeps(s, t);
    case Recheck(t) => RecheckKeeps(s, t);
    case OpenPhysical(t, success) => OpenPhysicalKeeps(s, t, success);
    case CheckFirst(t) => CheckFirstKeeps(s, t);
    case Build(t) => BuildKeeps(s, t);
    case PublishEntry(t) => PublishKeepsAll(s, t);
    case StopLocal(t) => StopLocalKeeps(s, t);
    case ReleaseGate(t) => ReleaseGateKeeps(s, t);
    case Remove(t) => RemoveKeeps(s, t);
    case Notify(t) => NotifyKeeps(s, t);
    case CloseSession(d, t, c) => CloseSessionKeeps(s, d, t, c);
    case ChangeMode(d, t, mode, c) => ChangeModeKeeps(s, d, t, mode, c);
    case ConnectTransport(d, t, kind) => ConnectTransportKeeps(s, d, t, kind);
    case DisconnectTransport(d, t, kind, generation, f) => DisconnectTransportKeeps(s, d, t, kind, generation, f);
    case RegisterSink(c, sink, order) => RegisterSinkStepKeeps(s, c, sink, order);
    case UnregisterSink(c) => UnregisterSinkKeeps(s, c);
    case ForceClose(d) => ForceCloseKeeps(s, d);
    case ReaderDies(l) => ReaderDiesKeeps(s, l);
    case SettleCount(k) => SettleCountKeeps(s, k);
    case BumpEpoch(k) => BumpEpochKeeps(s, k);
    case RequestShutdown(k) => RequestShutdownKeeps(s, k);
    case SnapshotNm(c, d) => SnapshotNmKeeps(s, c, d);
    case VetTransport(d, f) => VetTransportKeeps(s, d, f);
    case LookUp(i) => LookUpKeeps(s, i);
    case Stamp(i) => StampKeeps(s, i);
    case Send(i) => SendKeeps(s, i);
    case Work(l) => WorkKeeps(s, l);
  }
}
