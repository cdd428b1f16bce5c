/** What each section does to the sessions and devices, and that a validity cell once false
    stays false. */
module RegistryEffects {
  import opened Wrappers
  import opened Registry
  import opened RegistryInvariant
  import opened RegistryOps

  /** Cells are only added, keep what they were issued for, and never turn valid again. */
  ghost predicate FlagsLater(a: seq<Flag>, b: seq<Flag>) {
    && |a| <= |b|
    && (forall f :: 0 <= f < |a| ==> b[f].origin == a[f].origin && (b[f].valid ==> a[f].valid))
  }

  lemma FlagsLaterTrans(a: seq<Flag>, b: seq<Flag>, c: seq<Flag>)
    requires FlagsLater(a, b) && FlagsLater(b, c)
    ensures FlagsLater(a, c)
  {
  }

  lemma RefreshEffect(r: Registry, d: DeviceId, c: ClientId)
    ensures var n := Refresh(r, d, c);
            && n.sessions == r.sessions && n.devices == r.devices && n.sinks == r.sinks
            && FlagsLater(r.flags, n.flags)
  {
    hide WantsHot, Unbound, Bound, FlagsLater;
    UnboundEffect(r, d, c);
    if c in r.sinks && d in r.devices {
      BoundEffect(Unbound(r, d, c), d, c);
      FlagsLaterTrans(r.flags, Unbound(r, d, c).flags, Bound(Unbound(r, d, c), d, c).flags);
    }
  }

  lemma UnboundEffect(r: Registry, d: DeviceId, c: ClientId)
    ensures var n := Unbound(r, d, c);
            && n.sessions == r.sessions && n.devices == r.devices && n.sinks == r.sinks
            && FlagsLater(r.flags, n.flags)
  {
  }

  lemma BoundEffect(r: Registry, d: DeviceId, c: ClientId)
    requires c in r.sinks && d in r.devices
    ensures var n := Bound(r, d, c);
            && n.sessions == r.sessions && n.devices == r.devices && n.sinks == r.sinks
            && FlagsLater(r.flags, n.flags)
  {
  }

  lemma {:induction false} RefreshAllEffect(r: Registry, c: ClientId, ds: seq<DeviceId>)
    ensures var n := RefreshAll(r, c, ds);
            && n.sessions == r.sessions && n.devices == r.devices && n.sinks == r.sinks
            && FlagsLater(r.flags, n.flags)
    decreases |ds|
  {
    hide Refresh;
    if |ds| > 0 {
      RefreshAllEffect(r, c, ds[..|ds| - 1]);
      RefreshEffect(RefreshAll(r, c, ds[..|ds| - 1]), ds[|ds| - 1], c);
    }
  }

  lemma RegisterEffect(r: Registry, d: DeviceId, t: Token, c: ClientId)
    requires d in r.devices
    ensures var n := Register(r, d, t, c).value;
            && n.sessions == r.sessions[t := Session(d, c, NM, AuthHash(t), true, 0, 0)]
            && n.devices == r.devices && FlagsLater(r.flags, n.flags)
  {
    hide Refresh;
    RefreshEffect(AddSession(r, d, t, c), d, c);
  }

  lemma PublishEffect(r: Registry, d: DeviceId, l: LifeId, t: Token, c: ClientId)
    ensures var n := Publish(r, d, l, t, c);
            && n.sessions == r.sessions[t := Session(d, c, NM, AuthHash(t), true, 0, 0)]
            && n.devices == r.devices[d := l] && FlagsLater(r.flags, n.flags)
  {
    hide Refresh;
    RefreshEffect(AddSession(r.(devices := r.devices[d := l]), d, t, c), d, c);
  }

  lemma TearDownEffect(r: Registry, d: DeviceId)
    ensures var n := TearDown(r, d);
            && n.sessions == r.sessions - TokensOn(r.sessions, d)
            && n.devices == r.devices - {d} && FlagsLater(r.flags, n.flags)
  {
  }

  lemma ClosingEffect(r: Registry, t: Token)
    requires t in r.sessions
    ensures var n := Closing(r, t);
            n.sessions == r.sessions - {t} && n.devices == r.devices && FlagsLater(r.flags, n.flags)
  {
  }

  lemma ShutEffect(r: Registry, d: DeviceId)
    ensures var n := Shut(r, d);
            n.sessions == r.sessions && n.devices == r.devices - {d} && FlagsLater(r.flags, n.flags)
  {
  }

  lemma CloseEffect(r: Registry, d: DeviceId, t: Token, c: ClientId)
    requires Close(r, d, t, c).1.Closed?
    ensures var (n, outcome) := Close(r, d, t, c);
            && n.sessions == r.sessions - {t} && FlagsLater(r.flags, n.flags)
            && n.devices == (if outcome.last then r.devices - {d} else r.devices)
            && outcome.entry == (if outcome.last && d in r.devices then Some(r.devices[d]) else None)
  {
    hide Refresh, Shut, Closing, FlagsLater;
    ClosingEffect(r, t);
    RefreshEffect(Closing(r, t), d, c);
    ShutEffect(Closing(r, t), d);
    FlagsLaterTrans(r.flags, Closing(r, t).flags, Close(r, d, t, c).0.flags);
  }

  /** Same sessions with the same devices and owners. */
  ghost predicate SameSessions(a: map<Token, Session>, b: map<Token, Session>) {
    && a.Keys == b.Keys
    && (forall t :: t in a ==> b[t].device == a[t].device && b[t].owner == a[t].owner)
  }

  lemma SwitchEffect(r: Registry, d: DeviceId, t: Token, s: Session)
    requires t in r.sessions && s.device == r.sessions[t].device && s.owner == r.sessions[t].owner
    ensures var n := Switch(r, d, t, s);
            SameSessions(r.sessions, n.sessions) && n.devices == r.devices && FlagsLater(r.flags, n.flags)
  {
    hide Refresh;
    RefreshEffect(Recorded(r, t, s), d, s.owner);
  }

  lemma FlagsStay(flags: seq<Flag>)
    ensures FlagsLater(flags, flags)
  {
  }

  lemma DropCapsEffect(r: Registry, tokens: set<Token>)
    ensures var n := DropCaps(r, tokens);
            n.sessions == r.sessions && n.devices == r.devices && FlagsLater(r.flags, n.flags)
  {
  }

  lemma CurrentSession(r: Registry, d: DeviceId, t: Token, kind: Plane, generation: nat, f: FlagId)
    ensures IsCurrent(r, d, t, kind, generation, f) ==> t in r.sessions
  {
  }

  lemma SetModeEffect(r: Registry, d: DeviceId, t: Token, mode: Mode, c: ClientId)
    ensures var n := SetMode(r, d, t, mode, c).0;
            SameSessions(r.sessions, n.sessions) && n.devices == r.devices && FlagsLater(r.flags, n.flags)
  {
    hide Switch, DropCaps, FlagsLater;
    FlagsStay(r.flags);
    if SetMode(r, d, t, mode, c).1 == ModeSet {
      DropCapsEffect(r, {t});
      SwitchEffect(DropCaps(r, {t}), d, t, r.sessions[t].(mode := mode));
      FlagsLaterTrans(r.flags, DropCaps(r, {t}).flags, SetMode(r, d, t, mode, c).0.flags);
    }
  }

  lemma DisconnectEffect(r: Registry, d: DeviceId, t: Token, kind: Plane, generation: nat, f: FlagId)
    ensures var n := Disconnect(r, d, t, kind, generation, f);
            SameSessions(r.sessions, n.sessions) && n.devices == r.devices && FlagsLater(r.flags, n.flags)
  {
    hide Switch, DropCaps, FlagsLater, IsCurrent;
    FlagsStay(r.flags);
    if IsCurrent(r, d, t, kind, generation, f) {
      CurrentSession(r, d, t, kind, generation, f);
      DropCapsEffect(r, {t});
      SwitchEffect(DropCaps(r, {t}), d, t, r.sessions[t].(mode := NM));
      FlagsLaterTrans(r.flags, DropCaps(r, {t}).flags, Disconnect(r, d, t, kind, generation, f).flags);
    }
  }

  lemma ConnectEffect(r: Registry, d: DeviceId, t: Token, kind: Plane)
    ensures var n := Connect(r, d, t, kind).0;
            SameSessions(r.sessions, n.sessions) && n.devices == r.devices && FlagsLater(r.flags, n.flags)
  {
    hide Switch;
    if Connect(r, d, t, kind).1.Some? {
      var s := Bumped(r.sessions[t], kind);
      var life := if d in r.devices then r.devices[d] else 0;
      SwitchEffect(Granted(DropCaps(r, {t}), t, Capability(t, d, kind, Generation(s, kind), life)), d, t, s);
    }
  }

  // ---------- what a closing section revokes ----------

  /** Issued to session `t`, or to client `c` on device `d`. */
  predicate IssuedUnder(origin: Origin, t: Token, c: ClientId, d: DeviceId) {
    match origin
    case NmBinding(c', d', _, _) => c' == c && d' == d
    case Capability(t', _, _, _, _) => t' == t
  }

  /** After a session was closed, no cell that existed before and was issued to it, or to its
      client on its device, is valid. */
  lemma CloseRevokes(r: Registry, d: DeviceId, t: Token, c: ClientId, owed: nat, f: FlagId)
    requires Inv(r, owed) && Close(r, d, t, c).1.Closed?
    requires f < |r.flags| && IssuedUnder(r.flags[f].origin, t, c, d)
    ensures f < |Close(r, d, t, c).0.flags| && !Close(r, d, t, c).0.flags[f].valid
  {
    var n := Close(r, d, t, c).0;
    CloseRebinds(r, d, t, c);
    CloseEffect(r, d, t, c);
    hide Inv, Close;
    CloseKeeps(r, d, t, c, owed);
    ValidIffCurrent(n, f, owed);
  }

  /** The binding of the closing client on the device is a new one, if there is any. */
  lemma CloseRebinds(r: Registry, d: DeviceId, t: Token, c: ClientId)
    requires Close(r, d, t, c).1.Closed?
    ensures var n := Close(r, d, t, c).0; (c, d) in n.hot ==> n.hot[(c, d)].flag >= |r.flags|
  {
    hide Refresh, Shut, Closing;
    ClosingSize(r, t);
    RefreshRebinds(Closing(r, t), d, c);
    ShutUnbinds(Closing(r, t), d, c);
  }

  lemma ClosingSize(r: Registry, t: Token)
    requires t in r.sessions
    ensures |Closing(r, t).flags| == |r.flags|
  {
  }

  lemma RefreshRebinds(r: Registry, d: DeviceId, c: ClientId)
    ensures var n := Refresh(r, d, c); (c, d) in n.hot ==> n.hot[(c, d)].flag == |r.flags|
  {
  }

  lemma ShutUnbinds(r: Registry, d: DeviceId, c: ClientId)
    ensures (c, d) !in Shut(r, d).hot
  {
  }

  /** After a device was torn down, no cell that existed before and was issued on it is valid. */
  lemma TearDownRevokes(r: Registry, d: DeviceId, owed: nat, f: FlagId)
    requires Inv(r, owed) && f < |r.flags| && r.flags[f].origin.device == d
    ensures f < |TearDown(r, d).flags| && !TearDown(r, d).flags[f].valid
  {
    TearDownEffect(r, d);
    hide Inv, TearDown;
    TearDownKeeps(r, d, owed);
    ValidIffCurrent(TearDown(r, d), f, owed + |NonNmTokens(r.sessions) * TokensOn(r.sessions, d)|);
  }

  /** A session is closed exactly for its owner on its device; it is the last one exactly when no
      other session is on the device, and then the installed lifetime is handed out to be stopped.
      Otherwise nothing changes. */
  lemma CloseDecides(r: Registry, d: DeviceId, t: Token, c: ClientId, owed: nat)
    requires Inv(r, owed)
    ensures var (n, outcome) := Close(r, d, t, c);
            && (outcome.Closed? <==> t in r.sessions && r.sessions[t].device == d && r.sessions[t].owner == c)
            && (if outcome.Closed? then
                  && (outcome.last <==> TokensOn(r.sessions, d) == {t})
                  && outcome.entry == (if outcome.last then Some(r.devices[d]) else None)
                else n == r)
  {
    hide Refresh, Shut;
    ActiveSessions(r, owed);
    if t in r.sessions {
      ClosingEffect(r, t);
      assert r.sessions[t].device in r.devices;
      OthersOn(r.sessions, Closing(r, t).sessions, d, t);
    }
  }

  lemma OthersOn(sessions: map<Token, Session>, rest: map<Token, Session>, d: DeviceId, t: Token)
    requires t in sessions && rest == sessions - {t} && forall u :: u in sessions ==> sessions[u].active
    ensures sessions[t].device == d ==> (AnyOn(rest, d) <==> TokensOn(sessions, d) != {t})
  {
    if AnyOn(rest, d) {
      var u :| u in rest && rest[u].device == d;
      assert u in TokensOn(sessions, d);
    }
    if sessions[t].device == d && TokensOn(sessions, d) != {t} {
      assert t in TokensOn(sessions, d);
      var u :| u in TokensOn(sessions, d) && u != t;
      assert u in rest && rest[u].device == d && rest[u].active;
    }
  }

  // ---------- ending a transport ----------

  /** The cell is valid and was issued as a capability for exactly this transport. */
  ghost predicate GrantedFor(r: Registry, d: DeviceId, t: Token, kind: Plane, generation: nat, f: FlagId) {
    && f < |r.flags| && r.flags[f].valid && r.flags[f].origin.Capability?
    && r.flags[f].origin.token == t && r.flags[f].origin.device == d
    && r.flags[f].origin.kind == kind && r.flags[f].origin.generation == generation
  }

  lemma CurrentIffGranted(r: Registry, d: DeviceId, t: Token, kind: Plane, generation: nat, f: FlagId, owed: nat)
    requires Inv(r, owed)
    ensures IsCurrent(r, d, t, kind, generation, f) <==> GrantedFor(r, d, t, kind, generation, f)
  {
    if t in r.caps { assert CapOk(r, t); }
    if f < |r.flags| { ValidIffCurrent(r, f, owed); }
  }

  /** The session falls back to native messaging and the capability is revoked. */
  lemma DisconnectTakesEffect(r: Registry, d: DeviceId, t: Token, kind: Plane, generation: nat, f: FlagId)
    requires IsCurrent(r, d, t, kind, generation, f) && f < |r.flags|
    ensures var n := Disconnect(r, d, t, kind, generation, f);
            && n.sessions == r.sessions[t := r.sessions[t].(mode := NM)]
            && n.caps == r.caps - {t} && f < |n.flags| && !n.flags[f].valid
  {
    var m := Recorded(DropCaps(r, {t}), t, r.sessions[t].(mode := NM));
    assert f in CapFlags(r.caps, {t});
    hide Refresh;
    RefreshEffect(m, d, r.sessions[t].owner);
    RefreshCapsTable(m, d, r.sessions[t].owner);
  }

  // ---------- starting a transport, and choosing the data plane ----------

  /** A transport is granted exactly on an active session of the device. Its capability is valid and
      in force, for the next generation of its plane; every earlier capability of the session is
      revoked; nothing about other sessions changes. */
  lemma ConnectGrants(r: Registry, d: DeviceId, t: Token, kind: Plane, owed: nat)
    requires Inv(r, owed)
    ensures var (n, f) := Connect(r, d, t, kind);
            if t in r.sessions && r.sessions[t].device == d then
              && f == Some(|r.flags|) && n.sessions == r.sessions[t := Bumped(r.sessions[t], kind)]
              && GrantedFor(n, d, t, kind, Generation(r.sessions[t], kind) + 1, |r.flags|)
              && IsCurrent(n, d, t, kind, Generation(r.sessions[t], kind) + 1, |r.flags|)
              && forall g :: 0 <= g < |r.flags| && IssuedTo(r, g, t) ==> !n.flags[g].valid
            else f == None && n == r
  {
    hide Inv, Connect, GrantedFor, IsCurrent, FlagsLater;
    var n := Connect(r, d, t, kind).0;
    ConnectKeeps(r, d, t, kind, owed);
    ActiveSessions(r, owed);
    if t in r.sessions && r.sessions[t].device == d {
      ConnectStores(r, d, t, kind);
      ConnectEffect(r, d, t, kind);
      LaterSize(r.flags, n.flags);
      CurrentIffGranted(n, d, t, kind, Generation(r.sessions[t], kind) + 1, |r.flags|, owed);
      forall g | 0 <= g < |r.flags| && IssuedTo(r, g, t) ensures !n.flags[g].valid {
        StoredOnly(n, g, t, owed);
      }
    } else {
      ConnectRefused(r, d, t, kind);
    }
  }

  lemma ActiveSessions(r: Registry, owed: nat)
    requires Inv(r, owed)
    ensures forall t :: t in r.sessions ==> r.sessions[t].active
  {
  }

  lemma LaterSize(a: seq<Flag>, b: seq<Flag>)
    requires FlagsLater(a, b)
    ensures |a| <= |b| && forall f :: 0 <= f < |a| ==> b[f].origin == a[f].origin
  {
  }

  lemma ConnectRefused(r: Registry, d: DeviceId, t: Token, kind: Plane)
    requires t !in r.sessions || r.sessions[t].device != d
    ensures Connect(r, d, t, kind) == (r, None)
  {
  }

  lemma ConnectStores(r: Registry, d: DeviceId, t: Token, kind: Plane)
    requires t in r.sessions && r.sessions[t].active && r.sessions[t].device == d
    ensures var (n, f) := Connect(r, d, t, kind);
            && f == Some(|r.flags|) && n.sessions == r.sessions[t := Bumped(r.sessions[t], kind)]
            && t in n.caps && n.caps[t] == |r.flags|
            && IsCurrent(n, d, t, kind, Generation(r.sessions[t], kind) + 1, |r.flags|)
  {
    hide Refresh, DropCaps, FlagsLater;
    DropCapsEffect(r, {t});
    var s := Bumped(r.sessions[t], kind);
    var life := if d in r.devices then r.devices[d] else 0;
    var g := Granted(DropCaps(r, {t}), t, Capability(t, d, kind, Generation(s, kind), life));
    RefreshEffect(Recorded(g, t, s), d, s.owner);
    RefreshCapsTable(Recorded(g, t, s), d, s.owner);
    DropCapsSize(r, {t});
  }

  lemma DropCapsSize(r: Registry, tokens: set<Token>)
    ensures |DropCaps(r, tokens).flags| == |r.flags|
  {
  }

  /** A capability of a token that is not the stored one is not valid. */
  lemma StoredOnly(r: Registry, g: FlagId, t: Token, owed: nat)
    requires Inv(r, owed) && IssuedTo(r, g, t) && t in r.caps && r.caps[t] != g
    ensures !r.flags[g].valid
  {
    ValidIffCurrent(r, g, owed);
  }

  /** The data plane is switched exactly for the owner of an active session on the device; then the
      session has the new mode and no capability, and every capability it had is revoked. Otherwise
      nothing changes. */
  lemma SetModeTakesEffect(r: Registry, d: DeviceId, t: Token, mode: Mode, c: ClientId, owed: nat)
    requires Inv(r, owed)
    ensures var (n, outcome) := SetMode(r, d, t, mode, c);
            && (outcome == ModeSet <==> t in r.sessions && r.sessions[t].device == d && r.sessions[t].owner == c)
            && (if outcome == ModeSet then
                  && n.sessions == r.sessions[t := r.sessions[t].(mode := mode)] && n.caps == r.caps - {t}
                  && forall g :: 0 <= g < |r.flags| && IssuedTo(r, g, t) ==> g < |n.flags| && !n.flags[g].valid
                else n == r)
  {
    hide Inv, Switch, DropCaps, Refresh, FlagsLater;
    ActiveSessions(r, owed);
    var n := SetMode(r, d, t, mode, c).0;
    if SetMode(r, d, t, mode, c).1 == ModeSet {
      var s := r.sessions[t].(mode := mode);
      DropCapsEffect(r, {t});
      SwitchStores(DropCaps(r, {t}), d, t, s);
      DropCapsStored(r, {t});
      SetModeKeeps(r, d, t, mode, c, owed);
      SetModeEffect(r, d, t, mode, c);
      LaterSize(r.flags, n.flags);
      forall g | 0 <= g < |r.flags| && IssuedTo(r, g, t) ensures !n.flags[g].valid { UnstoredInvalid(n, g, t, owed); }
    }
  }

  lemma DropCapsStored(r: Registry, tokens: set<Token>)
    ensures DropCaps(r, tokens).caps == r.caps - tokens
  {
  }

  lemma SwitchStores(r: Registry, d: DeviceId, t: Token, s: Session)
    requires t in r.sessions
    ensures Switch(r, d, t, s).sessions == r.sessions[t := s] && Switch(r, d, t, s).caps == r.caps
  {
    hide Refresh, FlagsLater;
    RefreshEffect(Recorded(r, t, s), d, s.owner);
    RefreshCapsTable(Recorded(r, t, s), d, s.owner);
  }

  lemma UnstoredInvalid(r: Registry, g: FlagId, t: Token, owed: nat)
    requires Inv(r, owed) && IssuedTo(r, g, t) && t !in r.caps
    ensures !r.flags[g].valid
  {
    ValidIffCurrent(r, g, owed);
  }

  lemma RefreshCapsTable(r: Registry, d: DeviceId, c: ClientId)
    ensures Refresh(r, d, c).caps == r.caps
  {
  }
}
