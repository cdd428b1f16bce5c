/** The invariant of the whole daemon: the registry's, and how the tasks outside the lock
    relate to it. */
module LifecycleInvariant {
  import opened Wrappers
  import opened Registry
  import RegistryInvariant
  import opened RegistryEffects
  import opened Lifecycle

  // ---------- sessions and their openers ----------

  /** The opener's session was put into the tables (and may have been closed since). */
  predicate Registered(pc: Pc) {
    match pc
    case Done(ok) => ok
    case Stopping(_, _, ok) => ok
    case Installed(_, _) => true
    case Removing(_, ok) => ok
    case Notifying(_, ok) => ok
    case _ => false
  }

  ghost predicate SessionOk(s: State, t: Token)
    requires t in s.reg.sessions
  {
    && t < |s.openers| && Registered(s.openers[t].pc)
    && s.reg.sessions[t].device == s.openers[t].device
    && s.reg.sessions[t].owner == s.openers[t].client
  }

  ghost predicate SessionsOk(s: State) {
    forall t :: t in s.reg.sessions ==> SessionOk(s, t)
  }

  // ---------- reservations ----------

  /** The reservation that the opener holds, from inserting it to removing it. */
  function Held(pc: Pc): Option<ResvId> {
    match pc
    case Holding(r) => Some(r)
    case Opened(r) => Some(r)
    case Checked(r) => Some(r)
    case Built(r, _) => Some(r)
    case Stopping(r, _, _) => Some(r)
    case Installed(r, _) => Some(r)
    case Removing(r, _) => Some(r)
    case _ => None
  }

  /** The holder has not reached the section that publishes its entry. */
  predicate Unpublished(pc: Pc) {
    pc.Holding? || pc.Opened? || pc.Checked? || pc.Built?
  }

  /** A holder is the one its reservation names, and the reservation is the stored one. Until it
      publishes, its device is absent. */
  ghost predicate HolderOk(s: State, t: Token)
    requires t < |s.openers|
  {
    var o := s.openers[t];
    && (Held(o.pc).Some? ==>
          && Held(o.pc).value < |s.resvs| && s.resvs[Held(o.pc).value].holder == t
          && s.resvs[Held(o.pc).value].device == o.device
          && o.device in s.opening && s.opening[o.device] == Held(o.pc).value)
    && (Unpublished(o.pc) ==> o.device !in s.reg.devices)
  }

  /** A stored reservation has a holder. */
  ghost predicate StoredOk(s: State, d: DeviceId)
    requires d in s.opening
  {
    && s.opening[d] < |s.resvs| && s.resvs[s.opening[d]].device == d
    && s.resvs[s.opening[d]].holder < |s.openers|
    && Held(s.openers[s.resvs[s.opening[d]].holder].pc) == Some(s.opening[d])
  }

  /** Whoever is to wake the waiters on `r` still has that ahead of it. */
  ghost predicate WakeupOwed(s: State, r: ResvId) {
    && r < |s.resvs| && s.resvs[r].holder < |s.openers|
    && var pc := s.openers[s.resvs[r].holder].pc;
       Held(pc) == Some(r) || (pc.Notifying? && pc.resv == r)
  }

  ghost predicate WaiterOk(s: State, t: Token)
    requires t < |s.openers|
  {
    s.openers[t].pc.Waiting? && !s.openers[t].pc.woken ==>
      WakeupOwed(s, s.openers[t].pc.resv) && s.resvs[s.openers[t].pc.resv].device == s.openers[t].device
  }

  ghost predicate ReservationsOk(s: State) {
    && (forall t: Token :: t < |s.openers| ==> HolderOk(s, t) && WaiterOk(s, t))
    && (forall d :: d in s.opening ==> StoredOk(s, d))
  }

  // ---------- physical lifetimes ----------

  /** Lifetime `l` is local to one opener, installed, detached to one teardown, or stopped, and
      its epoch counts its stops. */
  ghost predicate LifeOk(s: State, l: LifeId)
    requires l < |s.lives|
  {
    var life := s.lives[l];
    && life.epoch == (if life.phase.Stopped? then 1 else 0)
    && (life.phase.Live? ==> life.device in s.reg.devices && s.reg.devices[life.device] == l)
    && (life.phase.Local? ==>
          && life.opener < |s.openers|
          && var pc := s.openers[life.opener].pc; (pc.Built? || pc.Stopping?) && pc.life == l)
    && (life.phase.Detached? ==> life.phase.task < |s.teardowns| && s.teardowns[life.phase.task].stop == Bump(l))
  }

  ghost predicate InstalledOk(s: State, d: DeviceId)
    requires d in s.reg.devices
  {
    s.reg.devices[d] < |s.lives| && s.lives[s.reg.devices[d]].device == d && s.lives[s.reg.devices[d]].phase == Live
  }

  ghost predicate TeardownOk(s: State, k: TaskId)
    requires k < |s.teardowns|
  {
    match s.teardowns[k].stop
    case Nothing => true
    case Bump(l) => l < |s.lives| && s.lives[l].phase == Detached(k)
    case Request(l) => l < |s.lives| && s.lives[l].phase == Stopped
  }

  ghost predicate BuilderOk(s: State, t: Token)
    requires t < |s.openers|
  {
    var o := s.openers[t];
    match o.pc
    case Built(_, l) =>
      l < |s.lives| && s.lives[l].phase == Local && s.lives[l].opener == t && s.lives[l].device == o.device
    case Stopping(_, l, _) => l < |s.lives| && s.lives[l].phase == Local && s.lives[l].opener == t
    case Installed(_, l) => l < |s.lives| && s.lives[l].device == o.device
    case _ => true
  }

  ghost predicate LivesOk(s: State) {
    && (forall l: LifeId :: l < |s.lives| ==> LifeOk(s, l))
    && (forall d :: d in s.reg.devices ==> InstalledOk(s, d))
    && (forall k: TaskId :: k < |s.teardowns| ==> TeardownOk(s, k))
    && (forall t: Token :: t < |s.openers| ==> BuilderOk(s, t))
  }

  // ---------- commands ----------

  /** A command under cell `f` sits in (or goes to) the queue of `l`: while the cell is valid,
      that is the lifetime the cell was issued on. */
  ghost predicate CommandOk(s: State, f: FlagId, l: LifeId) {
    f < |s.reg.flags| && l < |s.lives| && (s.reg.flags[f].valid ==> s.reg.flags[f].origin.life == l)
  }

  ghost predicate SenderOk(s: State, i: TaskId)
    requires i < |s.senders|
  {
    match s.senders[i]
    case Vetted(d, f) => f < |s.reg.flags| && s.reg.flags[f].origin.Capability? && s.reg.flags[f].origin.device == d
    case Bound(f, l) => CommandOk(s, f, l)
    case Stamped(f, l, e) => CommandOk(s, f, l) && e <= s.lives[l].epoch
    case Finished => true
  }

  ghost predicate QueueOk(s: State, l: LifeId)
    requires l < |s.lives|
  {
    forall c :: c in s.lives[l].queue && c.Command? ==> CommandOk(s, c.flag, l) && c.epoch <= s.lives[l].epoch
  }

  ghost predicate CommandsOk(s: State) {
    && (forall i: TaskId :: i < |s.senders| ==> SenderOk(s, i))
    && (forall l: LifeId :: l < |s.lives| ==> QueueOk(s, l))
  }

  // ---------- the counter ----------

  /** Decrements of the counter of non-NM sessions that teardowns have yet to make. */
  function Owed(ts: seq<Teardown>): nat {
    if |ts| == 0 then 0 else Owed(ts[..|ts| - 1]) + ts[|ts| - 1].settle
  }

  ghost predicate RegistryOk(s: State) {
    RegistryInvariant.Inv(s.reg, Owed(s.teardowns))
  }

  ghost predicate Inv(s: State) {
    RegistryOk(s) && SessionsOk(s) && ReservationsOk(s) && LivesOk(s) && CommandsOk(s)
  }

  // ---------- frames ----------

  lemma SessionsFrame(s: State, n: State)
    requires SessionsOk(s) && |s.openers| <= |n.openers|
    requires forall t: Token :: t < |s.openers| && Registered(s.openers[t].pc) ==>
               Registered(n.openers[t].pc) && n.openers[t].device == s.openers[t].device
               && n.openers[t].client == s.openers[t].client
    requires forall t :: t in n.reg.sessions ==>
               t in s.reg.sessions && n.reg.sessions[t].device == s.reg.sessions[t].device
               && n.reg.sessions[t].owner == s.reg.sessions[t].owner
    ensures SessionsOk(n)
  {
    forall t | t in n.reg.sessions ensures SessionOk(n, t) { assert SessionOk(s, t); }
  }

  lemma ReservationsFrame(s: State, n: State)
    requires ReservationsOk(s) && n.opening == s.opening && n.resvs == s.resvs && n.openers == s.openers
    requires n.reg.devices.Keys <= s.reg.devices.Keys
    ensures ReservationsOk(n)
  {
    forall t: Token | t < |n.openers| ensures HolderOk(n, t) && WaiterOk(n, t) {
      assert HolderOk(s, t) && WaiterOk(s, t);
    }
    forall d | d in n.opening ensures StoredOk(n, d) { assert StoredOk(s, d); }
  }

  lemma LivesFrame(s: State, n: State)
    requires LivesOk(s) && n.lives == s.lives && n.reg.devices == s.reg.devices
    requires n.teardowns == s.teardowns && n.openers == s.openers
    ensures LivesOk(n)
  {
    forall l: LifeId | l < |n.lives| ensures LifeOk(n, l) { assert LifeOk(s, l); }
    forall d | d in n.reg.devices ensures InstalledOk(n, d) { assert InstalledOk(s, d); }
    forall k: TaskId | k < |n.teardowns| ensures TeardownOk(n, k) { assert TeardownOk(s, k); }
    forall t: Token | t < |n.openers| ensures BuilderOk(n, t) { assert BuilderOk(s, t); }
  }

  /** Cells only ever turn false and epochs only grow, so commands stay as they are. */
  lemma CommandsFrame(s: State, n: State)
    requires CommandsOk(s) && FlagsLater(s.reg.flags, n.reg.flags) && n.senders == s.senders
    requires |s.lives| <= |n.lives|
    requires forall l: LifeId :: l < |s.lives| ==> s.lives[l].epoch <= n.lives[l].epoch
    requires forall l: LifeId, c :: l < |n.lives| && c in n.lives[l].queue && c.Command? ==>
               l < |s.lives| && c in s.lives[l].queue
    ensures CommandsOk(n)
  {
    forall i: TaskId | i < |n.senders| ensures SenderOk(n, i) { assert SenderOk(s, i); }
    forall l: LifeId | l < |n.lives| ensures QueueOk(n, l) {
      forall c | c in n.lives[l].queue && c.Command?
        ensures CommandOk(n, c.flag, l) && c.epoch <= n.lives[l].epoch
      {
        assert QueueOk(s, l);
      }
    }
  }

  lemma CommandsSame(s: State, n: State)
    requires CommandsOk(s) && FlagsLater(s.reg.flags, n.reg.flags) && n.senders == s.senders && n.lives == s.lives
    ensures CommandsOk(n)
  {
    CommandsFrame(s, n);
  }

  /** Only lifetime `l` changed, and its queue holds no command that it did not hold before. */
  lemma CommandsOneLife(s: State, n: State, l: LifeId)
    requires CommandsOk(s) && FlagsLater(s.reg.flags, n.reg.flags) && n.senders == s.senders
    requires l < |s.lives| && |n.lives| == |s.lives| && n.lives == s.lives[l := n.lives[l]]
    requires s.lives[l].epoch <= n.lives[l].epoch
    requires forall c :: c in n.lives[l].queue && c.Command? ==> c in s.lives[l].queue
    ensures CommandsOk(n)
  {
    CommandsFrame(s, n);
  }

  lemma SessionsMove(s: State, n: State, t: Token, pc: Pc)
    requires SessionsOk(s) && Moved(s, n, t, pc) && n.reg.sessions == s.reg.sessions
    requires Registered(s.openers[t].pc) ==> Registered(pc)
    ensures SessionsOk(n)
  {
    SessionsFrame(s, n);
  }

  /** A section that changes only the registry, and there neither devices nor session identities. */
  lemma RegistryOnly(s: State, n: State)
    requires SessionsOk(s) && ReservationsOk(s) && LivesOk(s) && CommandsOk(s)
    requires n == s.(reg := n.reg) && RegistryOk(n)
    requires SameSessions(s.reg.sessions, n.reg.sessions) && n.reg.devices == s.reg.devices
    requires FlagsLater(s.reg.flags, n.reg.flags)
    ensures Inv(n)
  {
    SessionsFrame(s, n);
    ReservationsFrame(s, n);
    LivesFrame(s, n);
    CommandsFrame(s, n);
  }

  lemma OpenerAt(s: State, t: Token)
    requires ReservationsOk(s) && LivesOk(s) && t < |s.openers|
    ensures HolderOk(s, t) && WaiterOk(s, t) && BuilderOk(s, t)
  {
  }

  // ---------- moving one opener ----------

  /** `n` is `s` with the opener `t` advanced to `pc`, as far as openers go. */
  ghost predicate Moved(s: State, n: State, t: Token, pc: Pc) {
    t < |s.openers| && n.openers == s.openers[t := s.openers[t].(pc := pc)]
  }

  /** The opener keeps (or never had) its reservation, and other devices are as before. */
  lemma ReservationsMove(s: State, n: State, t: Token, pc: Pc)
    requires ReservationsOk(s) && Moved(s, n, t, pc) && n.opening == s.opening && n.resvs == s.resvs
    requires forall d :: d in n.reg.devices ==> d in s.reg.devices || (d == s.openers[t].device && Held(pc).Some?)
    requires Held(pc) == Held(s.openers[t].pc) && !s.openers[t].pc.Notifying?
    requires HolderOk(n, t) && WaiterOk(n, t)
    ensures ReservationsOk(n)
  {
    forall u: Token | u < |n.openers| ensures HolderOk(n, u) && WaiterOk(n, u) {
      assert HolderOk(s, u) && WaiterOk(s, u) && HolderOk(s, t);
    }
    forall d | d in n.opening ensures StoredOk(n, d) { assert StoredOk(s, d); }
  }

  lemma LivesMove(s: State, n: State, t: Token, pc: Pc)
    requires LivesOk(s) && Moved(s, n, t, pc) && n.lives == s.lives && n.reg.devices == s.reg.devices
    requires n.teardowns == s.teardowns && BuilderOk(n, t)
    requires s.openers[t].pc.Built? || s.openers[t].pc.Stopping? ==>
               (pc.Built? || pc.Stopping?) && pc.life == s.openers[t].pc.life
    ensures LivesOk(n)
  {
    forall l: LifeId | l < |n.lives| ensures LifeOk(n, l) { assert LifeOk(s, l); }
    forall d | d in n.reg.devices ensures InstalledOk(n, d) { assert InstalledOk(s, d); }
    forall k: TaskId | k < |n.teardowns| ensures TeardownOk(n, k) { assert TeardownOk(s, k); }
    forall u: Token | u < |n.openers| ensures BuilderOk(n, u) { assert BuilderOk(s, u); }
  }
}
