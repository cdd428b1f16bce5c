/** Each lifecycle section keeps the registry invariant. */
module RegistryOps {
  import opened Wrappers
  import opened Registry
  import opened RegistryInvariant

  // ---------- opening ----------

  /** A session added on an open device upsets at most its own client's binding. */
  lemma AddSessionExact(r: Registry, d: DeviceId, t: Token, c: ClientId, owed: nat)
    requires CapsOk(r) && HotEntriesOk(r) && HotKeysOk(r) && FlagsOk(r) && HashesOk(r) && CounterOk(r, owed)
    requires t !in r.sessions && d in r.devices && SessionsOkBut(r, d)
    ensures Inv(Refresh(AddSession(r, d, t, c), d, c), owed)
  {
    hide SessionsOk, HashesOk, CapsOk, HotEntriesOk, HotKeysOk, HotKeysOkBut, FlagsOk, CounterOk, SessionsOkBut;
    hide AddSession, Refresh;
    AddSessionTables(r, d, t, c, owed);
    AddSessionFrame(r, d, t, c);
    AddSessionKeys(r, d, t, c);
    RefreshRestores(AddSession(r, d, t, c), d, c, owed);
  }

  lemma AddSessionFrame(r: Registry, d: DeviceId, t: Token, c: ClientId)
    requires CapsOk(r) && HotEntriesOk(r) && FlagsOk(r) && t !in r.sessions
    ensures var n := AddSession(r, d, t, c); CapsOk(n) && HotEntriesOk(n) && FlagsOk(n)
  {
    forall u | u in r.caps ensures u != t { assert CapOk(r, u); }
    CapsFrame(r, AddSession(r, d, t, c));
    EntriesFrame(r, AddSession(r, d, t, c));
    FlagsFrame(r, AddSession(r, d, t, c));
  }

  lemma AddSessionKeys(r: Registry, d: DeviceId, t: Token, c: ClientId)
    requires HotKeysOk(r) && t !in r.sessions
    ensures HotKeysOkBut(AddSession(r, d, t, c), c, {d})
  {
    var n := AddSession(r, d, t, c);
    forall c': ClientId, d': DeviceId | (c', d') != (c, d) ensures HotKeyOk(n, c', d') {
      assert HotKeyOk(r, c', d');
      WantsAfterAdd(r, d, t, c, c', d');
    }
  }

  /** Every session is in order, and every device but `d` has one. */
  ghost predicate SessionsOkBut(r: Registry, d: DeviceId) {
    && (forall t :: t in r.sessions ==>
          r.sessions[t].active && r.sessions[t].hash == AuthHash(t) && r.sessions[t].device in r.devices)
    && (forall e :: e in r.devices && e != d ==> exists t :: t in r.sessions && r.sessions[t].device == e)
  }

  lemma AddSessionTables(r: Registry, d: DeviceId, t: Token, c: ClientId, owed: nat)
    requires SessionsOkBut(r, d) && HashesOk(r) && CounterOk(r, owed) && t !in r.sessions && d in r.devices
    ensures var n := AddSession(r, d, t, c); SessionsOk(n) && HashesOk(n) && CounterOk(n, owed)
  {
    hide SessionsOkBut, SessionsOk, HashesOk, AddSession;
    AddSessionSessions(r, d, t, c);
    AddSessionHashes(r, d, t, c);
    AddSessionCount(r, d, t, c);
  }

  lemma AddSessionSessions(r: Registry, d: DeviceId, t: Token, c: ClientId)
    requires SessionsOkBut(r, d) && t !in r.sessions && d in r.devices
    ensures SessionsOk(AddSession(r, d, t, c))
  {
    var n := AddSession(r, d, t, c);
    assert n.sessions[t].device == d;
    forall e | e in n.devices ensures exists u :: u in n.sessions && n.sessions[u].device == e {
      if e != d {
        var u :| u in r.sessions && r.sessions[u].device == e;
        assert n.sessions[u].device == e;
      }
    }
  }

  lemma AddSessionHashes(r: Registry, d: DeviceId, t: Token, c: ClientId)
    requires HashesOk(r) && t !in r.sessions
    ensures HashesOk(AddSession(r, d, t, c))
  {
  }

  lemma AddSessionCount(r: Registry, d: DeviceId, t: Token, c: ClientId)
    requires t !in r.sessions
    ensures NonNmTokens(AddSession(r, d, t, c).sessions) == NonNmTokens(r.sessions)
    ensures AddSession(r, d, t, c).nonNm == r.nonNm
  {
  }

  lemma WantsAfterAdd(r: Registry, d: DeviceId, t: Token, c: ClientId, c': ClientId, d': DeviceId)
    requires t !in r.sessions && (c', d') != (c, d)
    ensures WantsHot(AddSession(r, d, t, c).sessions, c', d') == WantsHot(r.sessions, c', d')
  {
    var n := AddSession(r, d, t, c);
    if WantsHot(r.sessions, c', d') {
      var u :| u in r.sessions && IsNmSession(r.sessions[u], c', d');
      assert IsNmSession(n.sessions[u], c', d');
    }
  }

  lemma RegisterKeeps(r: Registry, d: DeviceId, t: Token, c: ClientId, owed: nat)
    requires Inv(r, owed) && t !in r.sessions && d in r.devices
    ensures Inv(Register(r, d, t, c).value, owed)
  {
    assert SessionsOkBut(r, d);
    AddSessionExact(r, d, t, c, owed);
  }

  lemma PublishKeeps(r: Registry, d: DeviceId, l: LifeId, t: Token, c: ClientId, owed: nat)
    requires Inv(r, owed) && t !in r.sessions && d !in r.devices
    ensures Inv(Publish(r, d, l, t, c), owed)
  {
    hide SessionsOk, HashesOk, CapsOk, HotEntriesOk, HotKeysOk, FlagsOk, CounterOk, SessionsOkBut;
    var m := r.(devices := r.devices[d := l]);
    DeviceAdded(r, d, l, owed);
    CapsFrame(r, m);
    EntriesFrame(r, m);
    FlagsFrame(r, m);
    AddSessionExact(m, d, t, c, owed);
  }

  lemma DeviceAdded(r: Registry, d: DeviceId, l: LifeId, owed: nat)
    requires SessionsOk(r) && HashesOk(r) && HotKeysOk(r) && CounterOk(r, owed) && d !in r.devices
    ensures var m := r.(devices := r.devices[d := l]);
            SessionsOkBut(m, d) && HashesOk(m) && HotKeysOk(m) && CounterOk(m, owed)
  {
    var m := r.(devices := r.devices[d := l]);
    assert SessionsOkBut(m, d) && HashesOk(m) && CounterOk(m, owed);
    forall c: ClientId, e: DeviceId ensures HotKeyOk(m, c, e) { assert HotKeyOk(r, c, e); }
  }

  // ---------- switching the data plane of one session ----------

  /** Replacing one session's mode and generations upsets at most its client's binding. */
  lemma SwitchExact(r: Registry, d: DeviceId, t: Token, s: Session, owed: nat)
    requires SessionsOk(r) && HashesOk(r) && HotEntriesOk(r) && HotKeysOk(r) && FlagsOk(r) && CounterOk(r, owed)
    requires t in r.sessions && r.sessions[t].device == d
    requires s.device == d && s.owner == r.sessions[t].owner && s.hash == r.sessions[t].hash && s.active
    requires CapsOk(r.(sessions := r.sessions[t := s]))
    ensures Inv(Switch(r, d, t, s), owed)
  {
    var n := Recorded(r, t, s);
    hide SessionsOk, HashesOk, CapsOk, HotEntriesOk, HotKeysOk, HotKeysOkBut, FlagsOk, CounterOk, Refresh;
    SwitchCounts(r, t, s, owed);
    SwitchTables(r, n, t, s);
    CapsFrame(r.(sessions := n.sessions), n);
    EntriesFrame(r, n);
    FlagsFrame(r, n);
    SwitchKeys(r, n, d, t, s);
    RefreshRestores(n, d, s.owner, owed);
  }

  lemma SwitchKeys(r: Registry, n: Registry, d: DeviceId, t: Token, s: Session)
    requires HotKeysOk(r) && t in r.sessions && r.sessions[t].device == d
    requires s.device == d && s.owner == r.sessions[t].owner
    requires n.sessions == r.sessions[t := s] && n.hot == r.hot && n.sinks == r.sinks
    ensures HotKeysOkBut(n, s.owner, {d})
  {
    var c := s.owner;
    forall c': ClientId, d': DeviceId | (c', d') != (c, d) ensures HotKeyOk(n, c', d') {
      assert HotKeyOk(r, c', d');
      WantsAfterSwitch(r, t, s, c', d');
    }
  }

  lemma SwitchTables(r: Registry, n: Registry, t: Token, s: Session)
    requires SessionsOk(r) && HashesOk(r) && t in r.sessions
    requires s.device == r.sessions[t].device && s.hash == r.sessions[t].hash && s.active
    requires n.sessions == r.sessions[t := s] && n.devices == r.devices && n.hashes == r.hashes
    ensures SessionsOk(n) && HashesOk(n)
  {
    hide SessionsOk, HashesOk;
    SwitchSessions(r, n, t, s);
    SwitchHashes(r, n, t, s);
  }

  lemma SwitchSessions(r: Registry, n: Registry, t: Token, s: Session)
    requires SessionsOk(r) && t in r.sessions
    requires s.device == r.sessions[t].device && s.hash == r.sessions[t].hash && s.active
    requires n.sessions == r.sessions[t := s] && n.devices == r.devices
    ensures SessionsOk(n)
  {
    forall e | e in n.devices ensures exists u :: u in n.sessions && n.sessions[u].device == e {
      var u :| u in r.sessions && r.sessions[u].device == e;
      assert n.sessions[u].device == e;
    }
  }

  lemma SwitchHashes(r: Registry, n: Registry, t: Token, s: Session)
    requires HashesOk(r) && t in r.sessions && n.sessions == r.sessions[t := s] && n.hashes == r.hashes
    ensures HashesOk(n)
  {
  }

  lemma SwitchCounts(r: Registry, t: Token, s: Session, owed: nat)
    requires CounterOk(r, owed) && t in r.sessions
    ensures CounterOk(Recorded(r, t, s), owed)
  {
    NonNmAfterUpdate(r.sessions, t, s);
  }

  lemma NonNmAfterUpdate(sessions: map<Token, Session>, t: Token, s: Session)
    requires t in sessions
    ensures |NonNmTokens(sessions[t := s])|
         == |NonNmTokens(sessions)| + Weight(s.mode != NM) - Weight(sessions[t].mode != NM)
  {
    var others := NonNmTokens(sessions) - {t};
    assert NonNmTokens(sessions) == others + if sessions[t].mode != NM then {t} else {};
    assert NonNmTokens(sessions[t := s]) == others + if s.mode != NM then {t} else {};
  }

  lemma WantsAfterSwitch(r: Registry, t: Token, s: Session, c: ClientId, d: DeviceId)
    requires t in r.sessions && s.device == r.sessions[t].device && s.owner == r.sessions[t].owner
    requires (c, d) != (s.owner, s.device)
    ensures WantsHot(r.sessions[t := s], c, d) == WantsHot(r.sessions, c, d)
  {
    if WantsHot(r.sessions, c, d) {
      var u :| u in r.sessions && IsNmSession(r.sessions[u], c, d);
      assert IsNmSession(r.sessions[t := s][u], c, d);
    }
  }

  /** Without a capability left for `t`, any new record of `t` suits the capabilities. */
  lemma DropOneCap(r: Registry, t: Token, s: Session)
    requires CapsOk(r) && HotEntriesOk(r) && HotKeysOk(r) && FlagsOk(r)
    ensures var n := DropCaps(r, {t});
            HotEntriesOk(n) && HotKeysOk(n) && FlagsOk(n) && CapsOk(n.(sessions := n.sessions[t := s]))
  {
    var n := DropCaps(r, {t});
    forall u | u in r.caps ensures IssuedTo(r, r.caps[u], u) { assert CapOk(r, u); }
    DropCapsExact(r, {t});
    forall c: ClientId, d: DeviceId ensures HotKeyOk(n, c, d) { assert HotKeyOk(r, c, d); }
    forall u | u in n.caps ensures CapOk(n.(sessions := n.sessions[t := s]), u) { assert CapOk(n, u); }
  }

  lemma DropCapsTables(r: Registry, tokens: set<Token>, owed: nat)
    requires SessionsOk(r) && HashesOk(r) && CounterOk(r, owed)
    ensures var n := DropCaps(r, tokens); SessionsOk(n) && HashesOk(n) && CounterOk(n, owed)
  {
  }

  lemma SetModeKeeps(r: Registry, d: DeviceId, t: Token, mode: Mode, c: ClientId, owed: nat)
    requires Inv(r, owed)
    ensures Inv(SetMode(r, d, t, mode, c).0, owed)
  {
    if SetMode(r, d, t, mode, c).1 == ModeSet {
      Reswitch(r, d, t, r.sessions[t].(mode := mode), owed);
    }
  }

  lemma DisconnectKeeps(r: Registry, d: DeviceId, t: Token, kind: Plane, generation: nat, f: FlagId, owed: nat)
    requires Inv(r, owed)
    ensures Inv(Disconnect(r, d, t, kind, generation, f), owed)
  {
    if IsCurrent(r, d, t, kind, generation, f) {
      Reswitch(r, d, t, r.sessions[t].(mode := NM), owed);
    }
  }

  lemma Reswitch(r: Registry, d: DeviceId, t: Token, s: Session, owed: nat)
    requires Inv(r, owed) && t in r.sessions && r.sessions[t].device == d
    requires s.device == d && s.owner == r.sessions[t].owner && s.hash == r.sessions[t].hash && s.active
    ensures Inv(Switch(DropCaps(r, {t}), d, t, s), owed)
  {
    hide SessionsOk, HashesOk, CapsOk, HotEntriesOk, HotKeysOk, FlagsOk, CounterOk, Switch;
    DropCapsTables(r, {t}, owed);
    DropOneCap(r, t, s);
    SwitchExact(DropCaps(r, {t}), d, t, s, owed);
  }

  lemma ConnectKeeps(r: Registry, d: DeviceId, t: Token, kind: Plane, owed: nat)
    requires Inv(r, owed)
    ensures Inv(Connect(r, d, t, kind).0, owed)
  {
    if Connect(r, d, t, kind).1.Some? {
      assert d in r.devices;
      var s := Bumped(r.sessions[t], kind);
      var origin := Capability(t, d, kind, Generation(s, kind), r.devices[d]);
      assert s.hash == r.sessions[t].hash && s.active;
      hide SessionsOk, HashesOk, CapsOk, HotEntriesOk, HotKeysOk, FlagsOk, CounterOk, Switch;
      var issued := DropCaps(r, {t});
      DropCapsTables(r, {t}, owed);
      DropOneCap(r, t, s);
      GrantTables(issued, t, origin, owed);
      GrantExact(issued, d, t, kind, s);
      SwitchExact(Granted(issued, t, origin), d, t, s, owed);
    }
  }

  lemma GrantTables(r: Registry, t: Token, origin: Origin, owed: nat)
    requires SessionsOk(r) && HashesOk(r) && CounterOk(r, owed)
    ensures var n := Granted(r, t, origin); SessionsOk(n) && HashesOk(n) && CounterOk(n, owed)
  {
  }

  /** A fresh capability for the new record of `t` fits every table. */
  lemma GrantExact(r: Registry, d: DeviceId, t: Token, kind: Plane, s: Session)
    requires HotEntriesOk(r) && HotKeysOk(r) && FlagsOk(r) && t !in r.caps && d in r.devices
    requires s.device == d && s.mode == kind
    requires CapsOk(r.(sessions := r.sessions[t := s]))
    ensures var n := Granted(r, t, Capability(t, d, kind, Generation(s, kind), r.devices[d]));
            HotEntriesOk(n) && HotKeysOk(n) && FlagsOk(n) && CapsOk(n.(sessions := n.sessions[t := s]))
  {
    var n := Granted(r, t, Capability(t, d, kind, Generation(s, kind), r.devices[d]));
    forall k | k in n.hot ensures HotEntryOk(n, k) { assert HotEntryOk(r, k); }
    forall c: ClientId, d: DeviceId ensures HotKeyOk(n, c, d) { assert HotKeyOk(r, c, d); }
    forall f: FlagId | f < |n.flags| && n.flags[f].valid ensures Held(n, f) {
      if f < |r.flags| { assert Held(r, f); }
    }
    var m := n.(sessions := n.sessions[t := s]);
    forall u | u in m.caps ensures CapOk(m, u) {
      if u != t { assert CapOk(r.(sessions := r.sessions[t := s]), u); }
    }
  }

  // ---------- closing ----------

  lemma TearDownKeeps(r: Registry, d: DeviceId, owed: nat)
    requires Inv(r, owed)
    ensures Inv(TearDown(r, d), owed + |NonNmTokens(r.sessions) * TokensOn(r.sessions, d)|)
  {
    var tokens := TokensOn(r.sessions, d);
    var m := DropSessions(r, tokens);
    var owed' := owed + |NonNmTokens(r.sessions) * tokens|;
    DropSessionsTables(r, tokens);
    SplitCount(NonNmTokens(r.sessions), tokens);
    DropDeviceSessions(r, m.(devices := r.devices - {d}), d, tokens);
    hide SessionsOk, HashesOk, CapsOk, HotEntriesOk, HotKeysOk, FlagsOk;
    DropSessionsExact(r, tokens);
    DropSessionsKeys(r, d, tokens);
    ShutKeeps(m, d, owed');
  }

  lemma SplitCount(a: set<Token>, b: set<Token>)
    ensures |a| == |a - b| + |a * b|
  {
    assert a == (a - b) + (a * b);
  }

  lemma DropSessionsKeys(r: Registry, d: DeviceId, tokens: set<Token>)
    requires HotKeysOk(r) && forall t :: t in tokens && t in r.sessions ==> r.sessions[t].device == d
    ensures forall c: ClientId, d': DeviceId :: d' != d ==> HotKeyOk(DropSessions(r, tokens), c, d')
  {
    forall c: ClientId, d': DeviceId | d' != d ensures HotKeyOk(DropSessions(r, tokens), c, d') {
      assert HotKeyOk(r, c, d');
      WantsAfterDrop(r.sessions, tokens, c, d');
    }
  }

  lemma DropDeviceSessions(r: Registry, n: Registry, d: DeviceId, tokens: set<Token>)
    requires SessionsOk(r) && n.sessions == r.sessions - tokens && n.devices == r.devices - {d}
    requires tokens == TokensOn(r.sessions, d)
    ensures SessionsOk(n)
  {
    forall e | e in n.devices ensures exists u :: u in n.sessions && n.sessions[u].device == e {
      var u :| u in r.sessions && r.sessions[u].device == e;
      assert n.sessions[u].device == e;
    }
  }

  /** Bindings on a device none of whose sessions are dropped stay as wanted as before. */
  lemma WantsAfterDrop(sessions: map<Token, Session>, tokens: set<Token>, c: ClientId, d: DeviceId)
    requires forall t :: t in tokens && t in sessions ==> !IsNmSession(sessions[t], c, d)
    ensures WantsHot(sessions - tokens, c, d) == WantsHot(sessions, c, d)
  {
    if WantsHot(sessions, c, d) {
      var u :| u in sessions && IsNmSession(sessions[u], c, d);
      assert u in sessions - tokens;
    }
  }

  lemma ClosingCounts(r: Registry, t: Token, owed: nat)
    requires HashesOk(r) && CounterOk(r, owed) && t in r.sessions
    ensures HashesOk(Closing(r, t)) && CounterOk(Closing(r, t), owed)
  {
    hide NonNmTokens, HashesOk, DropSessions;
    DropSessionsTables(r, {t});
    CountWithout(r.sessions, t);
    ClosingHashes(r, t);
  }

  lemma CountWithout(sessions: map<Token, Session>, t: Token)
    requires t in sessions
    ensures |NonNmTokens(sessions)| == |NonNmTokens(sessions) - {t}| + Weight(sessions[t].mode != NM)
  {
    if sessions[t].mode != NM { assert NonNmTokens(sessions) == NonNmTokens(sessions) - {t} + {t}; }
    else { assert NonNmTokens(sessions) == NonNmTokens(sessions) - {t}; }
  }

  lemma ClosingHashes(r: Registry, t: Token)
    requires t in r.sessions && HashesOk(DropSessions(r, {t}))
    ensures HashesOk(Closing(r, t))
  {
    hide DropSessions;
  }

  lemma ClosingExact(r: Registry, t: Token, owed: nat)
    requires Inv(r, owed) && t in r.sessions
    ensures var m := Closing(r, t); CapsOk(m) && HotEntriesOk(m) && FlagsOk(m) && HashesOk(m) && CounterOk(m, owed)
  {
    ClosingCounts(r, t, owed);
    hide SessionsOk, HashesOk, CapsOk, HotEntriesOk, HotKeysOk, FlagsOk, CounterOk;
    var k := DropSessions(r, {t});
    DropSessionsExact(r, {t});
    CapsFrame(k, Closing(r, t));
    EntriesFrame(k, Closing(r, t));
    FlagsFrame(k, Closing(r, t));
  }

  lemma ClosingKeys(r: Registry, t: Token)
    requires HotKeysOk(r) && t in r.sessions
    ensures HotKeysOkBut(Closing(r, t), r.sessions[t].owner, {r.sessions[t].device})
  {
    forall c: ClientId, d: DeviceId | (c, d) != (r.sessions[t].owner, r.sessions[t].device)
      ensures HotKeyOk(Closing(r, t), c, d)
    {
      assert HotKeyOk(r, c, d);
      WantsAfterDrop(r.sessions, {t}, c, d);
    }
  }

  lemma CloseKeeps(r: Registry, d: DeviceId, t: Token, c: ClientId, owed: nat)
    requires Inv(r, owed)
    ensures Inv(Close(r, d, t, c).0, owed)
  {
    if Close(r, d, t, c).1.Closed? {
      if AnyOn(Closing(r, t).sessions, d) {
        CloseOneOfMany(r, d, t, owed);
      } else {
        CloseLast(r, d, t, owed);
      }
    }
  }

  lemma CloseOneOfMany(r: Registry, d: DeviceId, t: Token, owed: nat)
    requires Inv(r, owed) && t in r.sessions && r.sessions[t].device == d
    requires AnyOn(Closing(r, t).sessions, d)
    ensures Inv(Refresh(Closing(r, t), d, r.sessions[t].owner), owed)
  {
    ClosingSessions(r, Closing(r, t), d, t);
    hide SessionsOk, HashesOk, CapsOk, HotEntriesOk, HotKeysOk, HotKeysOkBut, FlagsOk, CounterOk, Refresh, Closing;
    ClosingExact(r, t, owed);
    ClosingKeys(r, t);
    RefreshRestores(Closing(r, t), d, r.sessions[t].owner, owed);
  }

  lemma CloseLast(r: Registry, d: DeviceId, t: Token, owed: nat)
    requires Inv(r, owed) && t in r.sessions && r.sessions[t].device == d
    requires !AnyOn(Closing(r, t).sessions, d)
    ensures Inv(Shut(Closing(r, t), d), owed)
  {
    ClosingLastSessions(r, d, t);
    hide SessionsOk, HashesOk, CapsOk, HotEntriesOk, HotKeysOk, FlagsOk, CounterOk, NoSessionOn, Closing;
    ClosingExact(r, t, owed);
    ClosingKeys(r, t);
    ShutKeeps(Closing(r, t), d, owed);
  }

  lemma ClosingLastSessions(r: Registry, d: DeviceId, t: Token)
    requires SessionsOk(r) && t in r.sessions && r.sessions[t].device == d
    requires !AnyOn(Closing(r, t).sessions, d)
    ensures var m := Closing(r, t); NoSessionOn(m, d) && SessionsOk(m.(devices := m.devices - {d}))
  {
    hide Closing, SessionsOk, NoSessionOn, AnyOn;
    var m := Closing(r, t);
    ClosingTables(r, t);
    OnlyToken(r, m, d, t);
    DropDeviceSessions(r, m.(devices := m.devices - {d}), d, {t});
  }

  lemma ClosingTables(r: Registry, t: Token)
    requires t in r.sessions
    ensures Closing(r, t).sessions == r.sessions - {t} && Closing(r, t).devices == r.devices
  {
  }

  lemma OnlyToken(r: Registry, m: Registry, d: DeviceId, t: Token)
    requires SessionsOk(r) && t in r.sessions && r.sessions[t].device == d
    requires m.sessions == r.sessions - {t} && !AnyOn(m.sessions, d)
    ensures NoSessionOn(m, d) && TokensOn(r.sessions, d) == {t}
  {
    assert forall u :: u in r.sessions && u != t ==> u in m.sessions;
  }

  lemma ClosingSessions(r: Registry, m: Registry, d: DeviceId, t: Token)
    requires SessionsOk(r) && t in r.sessions && r.sessions[t].device == d
    requires m.sessions == r.sessions - {t} && m.devices == r.devices
    requires AnyOn(m.sessions, d)
    ensures SessionsOk(m)
  {
    forall e | e in m.devices ensures exists u :: u in m.sessions && m.sessions[u].device == e {
      if e != d {
        var u :| u in r.sessions && r.sessions[u].device == e;
        assert m.sessions[u].device == e;
      }
    }
  }

  // ---------- native-messaging sinks ----------

  /** A client's sink replaced: its bindings are out of date until each was refreshed. */
  lemma AddSinkKeeps(r: Registry, c: ClientId, sink: SinkId, owed: nat)
    requires Inv(r, owed)
    ensures InvBut(AddSink(r, c, sink), owed, c, OwnedDevices(r.sessions, c))
  {
    var n := AddSink(r, c, sink);
    var p := OwnedDevices(r.sessions, c);
    assert SessionsOk(n) && HashesOk(n) && CounterOk(n, owed);
    CapsFrame(r, n);
    FlagsFrame(r, n);
    AddSinkHots(r, c, sink);
  }

  lemma AddSinkHots(r: Registry, c: ClientId, sink: SinkId)
    requires HotEntriesOk(r) && HotKeysOk(r)
    ensures var n := AddSink(r, c, sink); var p := OwnedDevices(r.sessions, c);
            HotEntriesOkBut(n, c, p) && HotKeysOkBut(n, c, p)
  {
    var n := AddSink(r, c, sink);
    var p := OwnedDevices(r.sessions, c);
    forall d: DeviceId | WantsHot(r.sessions, c, d) ensures d in p {
      var t :| t in r.sessions && IsNmSession(r.sessions[t], c, d);
    }
    forall k | k in n.hot ensures (k.0 == c && k.1 in p && IssuedFor(n, n.hot[k].flag, k)) || HotEntryOk(n, k) {
      assert HotEntryOk(r, k) && HotKeyOk(r, k.0, k.1);
    }
    forall c': ClientId, d: DeviceId ensures (c' == c && d in p) || HotKeyOk(n, c', d) {
      assert HotKeyOk(r, c', d);
    }
  }

  /** Whatever the order in which a client's devices are visited, all its bindings end up exact. */
  lemma {:induction false} RefreshAllKeeps(r: Registry, c: ClientId, ds: seq<DeviceId>, owed: nat, p: set<DeviceId>)
    requires InvBut(r, owed, c, p)
    ensures InvBut(RefreshAll(r, c, ds), owed, c, p - (set d | d in ds))
    decreases |ds|
  {
    hide InvBut;
    if |ds| == 0 {
      assert p - (set d | d in ds) == p;
    } else {
      var front := ds[..|ds| - 1];
      RefreshAllKeeps(r, c, front, owed, p);
      RefreshKeeps(RefreshAll(r, c, front), ds[|ds| - 1], c, owed, p - (set d | d in front));
      assert ds == front + [ds[|ds| - 1]];
      assert p - (set d | d in ds) == p - (set d | d in front) - {ds[|ds| - 1]};
    }
  }

  lemma RegisterSinkKeeps(r: Registry, c: ClientId, sink: SinkId, ds: seq<DeviceId>, owed: nat)
    requires Inv(r, owed) && Lists(ds, OwnedDevices(r.sessions, c))
    ensures Inv(RefreshAll(AddSink(r, c, sink), c, ds), owed)
  {
    var p := OwnedDevices(r.sessions, c);
    assert p - (set d | d in ds) == {};
    hide Inv, InvBut, AddSink, RefreshAll;
    AddSinkKeeps(r, c, sink, owed);
    RefreshAllKeeps(AddSink(r, c, sink), c, ds, owed, p);
    InvButNone(RefreshAll(AddSink(r, c, sink), c, ds), owed, c, p - (set d | d in ds));
  }

  lemma RemoveSinkKeeps(r: Registry, c: ClientId, owed: nat)
    requires Inv(r, owed)
    ensures Inv(RemoveSink(r, c), owed)
  {
    hide SessionsOk, HashesOk, CounterOk, CapsOk, HotEntriesOk, HotKeysOk, FlagsOk, RemoveSink;
    RemoveSinkTables(r, c, owed);
    RemoveSinkCaps(r, c);
    RemoveSinkEntries(r, c);
    RemoveSinkKeys(r, c);
    RemoveSinkFlags(r, c);
  }

  lemma RemoveSinkTables(r: Registry, c: ClientId, owed: nat)
    requires SessionsOk(r) && HashesOk(r) && CounterOk(r, owed)
    ensures var n := RemoveSink(r, c); SessionsOk(n) && HashesOk(n) && CounterOk(n, owed)
  {
  }

  lemma RemoveSinkKeys(r: Registry, c: ClientId)
    requires HotKeysOk(r)
    ensures HotKeysOk(RemoveSink(r, c))
  {
    var n := RemoveSink(r, c);
    forall c': ClientId, d: DeviceId ensures HotKeyOk(n, c', d) { assert HotKeyOk(r, c', d); }
  }

  lemma RemoveSinkFlags(r: Registry, c: ClientId)
    requires FlagsOk(r)
    ensures FlagsOk(RemoveSink(r, c))
  {
    var n := RemoveSink(r, c);
    forall f: FlagId | f < |n.flags| && n.flags[f].valid ensures Held(n, f) { assert Held(r, f); }
  }

  lemma RemoveSinkCaps(r: Registry, c: ClientId)
    requires CapsOk(r) && HotEntriesOk(r)
    ensures CapsOk(RemoveSink(r, c))
  {
    var n := RemoveSink(r, c);
    forall u | u in n.caps ensures CapOk(n, u) {
      assert CapOk(r, u);
      forall k | k in r.hot ensures r.hot[k].flag != r.caps[u] { assert HotEntryOk(r, k); }
    }
  }

  lemma RemoveSinkEntries(r: Registry, c: ClientId)
    requires HotEntriesOk(r)
    ensures HotEntriesOk(RemoveSink(r, c))
  {
    var n := RemoveSink(r, c);
    forall k | k in n.hot ensures HotEntryOk(n, k) {
      assert HotEntryOk(r, k);
      forall k' | k' in r.hot && k'.0 == c ensures r.hot[k'].flag != r.hot[k].flag { assert HotEntryOk(r, k'); }
    }
  }
}
