/** The daemon's device manager with its tables as fields, each lifecycle section as the method
    that updates them in place. Every method is shown to do what the section's function on
    registry values says. */
module DeviceManager {
  import opened Wrappers
  import opened Registry
  import RegistryInvariant

  class Manager {
    var devices: map<DeviceId, LifeId>
    var sessions: map<Token, Session>
    var hashes: map<AuthHash, Token>
    var caps: map<Token, FlagId>
    var sinks: map<ClientId, SinkId>
    var hot: map<(ClientId, DeviceId), Hot>
    var flags: seq<Flag>
    var nonNm: int

    function View(): Registry
      reads this
    {
      Tables(devices, sessions, hashes, caps, sinks, hot, flags, nonNm)
    }

    /** Every cell that a table refers to exists. */
    ghost predicate Valid()
      reads this
    {
      && (forall t :: t in caps ==> caps[t] < |flags|)
      && (forall k :: k in hot ==> hot[k].flag < |flags|)
    }

    constructor ()
      ensures Valid() && View() == Empty
    {
      devices, sessions, hashes, caps, sinks, hot, flags, nonNm := map[], map[], map[], map[], map[], map[], [], 0;
    }

    // ---------- validity cells ----------

    method Revoke(f: FlagId)
      requires f < |flags|
      modifies this`flags
      ensures flags == Kill(old(flags), {f})
    {
      flags := flags[f := flags[f].(valid := false)];
    }

    method InvalidateTransportValidity(t: Token)
      requires Valid()
      modifies this`caps, this`flags
      ensures Valid() && View() == DropCaps(old(View()), {t})
    {
      if t in caps {
        assert CapFlags(caps, {t}) == {caps[t]};
        Revoke(caps[t]);
        caps := caps - {t};
      } else {
        assert CapFlags(caps, {t}) == {};
        assert flags == Kill(flags, {});
        assert caps - {t} == caps;
      }
    }

    method ReplaceTransportValidity(t: Token, origin: Origin) returns (f: FlagId)
      requires Valid()
      modifies this`caps, this`flags
      ensures Valid() && f == |old(flags)| && View() == Granted(DropCaps(old(View()), {t}), t, origin)
    {
      hide Kill, DropCaps, Granted;
      ghost var start := View();
      f := |flags|;
      flags := flags + [Flag(true, origin)];
      if t in caps {
        Revoke(caps[t]);
      }
      caps := caps[t := f];
      GrantedIs(start, t, origin, flags);
    }

    /** One binding goes, its cell set to false. */
    method DropBinding(k: (ClientId, DeviceId))
      requires Valid() && k in hot
      modifies this`hot, this`flags
      ensures Valid() && View() == DropHotKeys(old(View()), {k})
    {
      assert FlagsAt(hot, {k}) == {hot[k].flag};
      Revoke(hot[k].flag);
      hot := hot - {k};
    }

    method InvalidateNmHotForDevice(d: DeviceId)
      requires Valid()
      modifies this`hot, this`flags
      ensures Valid() && View() == DropHotOn(old(View()), d)
    {
      hide DropHotKeys;
      var rest := hot.Keys;
      ghost var gone: set<(ClientId, DeviceId)> := {};
      DropNoKeys(View());
      while rest != {}
        invariant Valid() && rest <= hot.Keys
        invariant gone == set k | k in old(hot) && k !in rest && k.1 == d
        invariant View() == DropHotKeys(old(View()), gone)
        decreases rest
      {
        var k :| k in rest;
        DropKeysTwice(old(View()), gone, {k});
        if k.1 == d {
          DropBinding(k);
          gone := gone + {k};
        }
        rest := rest - {k};
        HotAfterDrop(old(View()), gone);
      }
      DropHotOnIsKeys(old(View()), d, gone);
    }

    // ---------- bindings ----------

    /** Does client `c` hold an active NM session on device `d`? */
    method HasNmSession(c: ClientId, d: DeviceId) returns (found: bool)
      ensures found == WantsHot(sessions, c, d)
    {
      found := false;
      var rest := sessions.Keys;
      while rest != {} && !found
        invariant rest <= sessions.Keys
        invariant found ==> WantsHot(sessions, c, d)
        invariant !found ==> forall t :: t in sessions && t !in rest ==> !IsNmSession(sessions[t], c, d)
        decreases rest, !found
      {
        var t :| t in rest;
        found := IsNmSession(sessions[t], c, d);
        rest := rest - {t};
      }
    }

    method RefreshNmHot(d: DeviceId, c: ClientId)
      requires Valid()
      modifies this`hot, this`flags
      ensures Valid() && View() == Refresh(old(View()), d, c)
    {
      hide Kill, Refresh, WantsHot;
      ghost var start := View();
      var active := HasNmSession(c, d);
      var binding: Option<Hot> := None;
      if active && d in devices && c in sinks {
        binding := Some(Hot(devices[d], |flags|, sinks[c]));
        flags := flags + [Flag(true, NmBinding(c, d, devices[d], sinks[c]))];
      }
      var key := (c, d);
      if key in hot {
        Revoke(hot[key].flag);
        hot := hot - {key};
      }
      if binding.Some? {
        hot := hot[key := binding.value];
      }
      RefreshIs(start, d, c, flags);
    }

    method UpdateNonNmCount(was: bool, now: bool)
      modifies this`nonNm
      ensures nonNm == old(nonNm) + Weight(now) - Weight(was)
    {
      if !was && now {
        nonNm := nonNm + 1;
      } else if was && !now {
        nonNm := nonNm - 1;
      }
    }

    /** Refreshes the bindings of client `c` on every device it has a session on, in some order. */
    method RefreshOwned(c: ClientId) returns (ghost order: seq<DeviceId>)
      requires Valid()
      modifies this`hot, this`flags
      ensures Valid() && Lists(order, OwnedDevices(sessions, c)) && View() == RefreshAll(old(View()), c, order)
    {
      hide Refresh, RefreshAll;
      var ids: set<DeviceId> :=
        set t | t in sessions && sessions[t].owner == c && sessions[t].active :: sessions[t].device;
      order := [];
      ghost var all := ids;
      RefreshAllNone(View(), c);
      while ids != {}
        invariant Valid() && ids <= all
        invariant Lists(order, all - ids)
        invariant View() == RefreshAll(old(View()), c, order)
        decreases ids
      {
        var d :| d in ids;
        RefreshAllMore(old(View()), c, order, d);
        RefreshNmHot(d, c);
        ids := ids - {d};
        order := order + [d];
      }
    }

    method RegisterNmSink(c: ClientId, sink: SinkId)
      requires Valid()
      modifies this`sinks, this`hot, this`flags
      ensures Valid()
      ensures exists order :: Lists(order, OwnedDevices(old(sessions), c))
                           && View() == RefreshAll(AddSink(old(View()), c, sink), c, order)
    {
      sinks := sinks[c := sink];
      ghost var order := RefreshOwned(c);
    }

    method InvalidateNmHotForClient(c: ClientId)
      requires Valid()
      modifies this`hot, this`flags
      ensures Valid() && View() == DropHotKeys(old(View()), KeysOf(old(hot), c))
    {
      hide DropHotKeys;
      var rest := hot.Keys;
      ghost var gone: set<(ClientId, DeviceId)> := {};
      DropNoKeys(View());
      while rest != {}
        invariant Valid() && rest <= hot.Keys
        invariant gone == set k | k in old(hot) && k !in rest && k.0 == c
        invariant View() == DropHotKeys(old(View()), gone)
        decreases rest
      {
        var k :| k in rest;
        DropKeysTwice(old(View()), gone, {k});
        if k.0 == c {
          DropBinding(k);
          gone := gone + {k};
        }
        rest := rest - {k};
        HotAfterDrop(old(View()), gone);
      }
      assert gone == KeysOf(old(hot), c);
    }

    method UnregisterNmSink(c: ClientId)
      requires Valid()
      modifies this`sinks, this`hot, this`flags
      ensures Valid() && View() == RemoveSink(old(View()), c)
    {
      sinks := sinks - {c};
      InvalidateNmHotForClient(c);
      RemoveSinkIsKeys(old(View()), c);
    }

    // ---------- closing ----------

    /** One session leaves the tables: its record, its hash, its capability. */
    method DropSession(t: Token)
      requires Valid() && t in sessions
      modifies this`sessions, this`hashes, this`caps, this`flags
      ensures Valid()
      ensures sessions == old(sessions) - {t} && hashes == old(hashes) - {old(sessions)[t].hash}
      ensures caps == old(caps) - {t} && flags == Kill(old(flags), CapFlags(old(caps), {t}))
    {
      var hash := sessions[t].hash;
      sessions := sessions - {t};
      InvalidateTransportValidity(t);
      hashes := hashes - {hash};
    }

    /** Is another active session left on device `d`? */
    method HasSessionOn(d: DeviceId) returns (found: bool)
      ensures found == AnyOn(sessions, d)
    {
      found := false;
      var rest := sessions.Keys;
      while rest != {} && !found
        invariant rest <= sessions.Keys
        invariant found ==> AnyOn(sessions, d)
        invariant !found ==> forall t :: t in sessions && t !in rest
                                   ==> !(sessions[t].device == d && sessions[t].active)
        decreases rest, !found
      {
        var t :| t in rest;
        found := sessions[t].device == d && sessions[t].active;
        rest := rest - {t};
      }
    }

    /** The bindings on `d` and its entry leave the tables. */
    method ShutDevice(d: DeviceId)
      requires Valid()
      modifies this`hot, this`flags, this`devices
      ensures Valid() && View() == Shut(old(View()), d)
    {
      InvalidateNmHotForDevice(d);
      devices := devices - {d};
    }

    /** Closes exactly one session; the entry to stop is returned with the last one. */
    method CloseSession(d: DeviceId, t: Token, c: ClientId) returns (outcome: CloseOutcome)
      requires Valid() && RegistryInvariant.HashesOk(View()) && RegistryInvariant.SessionsOk(View())
      modifies this
      ensures Valid() && (View(), outcome) == Close(old(View()), d, t, c)
    {
      hide Refresh, Shut, Closing, Kill, CapFlags, RegistryInvariant.HashesOk, RegistryInvariant.SessionsOk;
      if t !in sessions { return UnknownSession; }
      if sessions[t].device != d { return WrongDevice; }
      if sessions[t].owner != c { return WrongOwner; }
      if !sessions[t].active { return AlreadyClosed; }
      ghost var start := View();
      var wasNonNm := sessions[t].mode != NM;
      DropSession(t);
      UpdateNonNmCount(wasNonNm, false);
      ClosingIs(start, View(), t);
      var more := HasSessionOn(d);
      if more {
        RefreshNmHot(d, c);
        return Closed(false, None);
      }
      var entry := if d in devices then Some(devices[d]) else None;
      ShutDevice(d);
      return Closed(true, entry);
    }

    /** Everything on device `d` leaves the tables. The number of non-NM sessions among it is
        returned, for the caller to settle once the lock is released. */
    method TearDownDevice(d: DeviceId) returns (nonNmCount: nat, entry: Option<LifeId>)
      requires Valid()
      modifies this
      ensures Valid() && View() == TearDown(old(View()), d)
      ensures nonNmCount == |NonNmTokens(old(sessions)) * TokensOn(old(sessions), d)|
      ensures entry == if d in old(devices) then Some(old(devices)[d]) else None
    {
      hide Shut;
      var tokens;
      tokens, nonNmCount := CollectOn(d);
      sessions := sessions - tokens;
      RetainHashes(tokens);
      RetainCaps(tokens);
      assert View() == DropSessions(old(View()), TokensOn(old(sessions), d));
      entry := if d in devices then Some(devices[d]) else None;
      ShutDevice(d);
    }

    /** The tokens of the sessions on `d`, and how many of them are not in NM mode. */
    method CollectOn(d: DeviceId) returns (tokens: set<Token>, nonNmCount: nat)
      ensures tokens == TokensOn(sessions, d) && nonNmCount == |NonNmTokens(sessions) * tokens|
    {
      hide TokensOn, NonNmTokens;
      tokens, nonNmCount := {}, 0;
      var rest := sessions.Keys;
      NoneCollected(sessions, d);
      while rest != {}
        invariant rest <= sessions.Keys
        invariant tokens == TokensOn(sessions, d) - rest
        invariant nonNmCount == |NonNmTokens(sessions) * tokens|
        decreases rest
      {
        var t :| t in rest;
        CollectOneMore(sessions, d, rest, t);
        rest := rest - {t};
        if sessions[t].device == d {
          CountOneMore(sessions, tokens, t);
          nonNmCount := nonNmCount + if sessions[t].mode != NM then 1 else 0;
          tokens := tokens + {t};
        }
      }
    }

    method RetainHashes(tokens: set<Token>)
      modifies this`hashes
      ensures hashes == map h | h in old(hashes) && old(hashes)[h] !in tokens :: old(hashes)[h]
    {
      var rest := hashes.Keys;
      while rest != {}
        invariant rest <= hashes.Keys
        invariant hashes == map h | h in old(hashes) && (h in rest || old(hashes)[h] !in tokens) :: old(hashes)[h]
        decreases rest
      {
        var h :| h in rest;
        if hashes[h] in tokens { hashes := hashes - {h}; }
        rest := rest - {h};
      }
    }

    method RetainCaps(tokens: set<Token>)
      requires Valid()
      modifies this`caps, this`flags
      ensures Valid() && View() == DropCaps(old(View()), tokens)
    {
      hide DropCaps;
      var rest := caps.Keys;
      ghost var gone: set<Token> := {};
      DropNoCaps(View());
      while rest != {}
        invariant Valid() && rest <= caps.Keys
        invariant gone == set t | t in old(caps) && t !in rest && t in tokens
        invariant View() == DropCaps(old(View()), gone)
        decreases rest
      {
        var t :| t in rest;
        DropCapsTwice(old(View()), gone, {t});
        if t in tokens {
          InvalidateTransportValidity(t);
          gone := gone + {t};
        }
        rest := rest - {t};
        CapsAfterDrop(old(View()), gone);
      }
      DropCapsOfStored(old(View()), tokens, gone);
    }

    // ---------- switching the data plane ----------

    /** Gives session `t` the record `s`, revoking its capability. */
    method Record(t: Token, s: Session)
      requires Valid() && t in sessions
      modifies this`sessions, this`caps, this`flags, this`nonNm
      ensures Valid() && View() == Recorded(DropCaps(old(View()), {t}), t, s)
    {
      var wasNonNm := sessions[t].mode != NM;
      sessions := sessions[t := s];
      InvalidateTransportValidity(t);
      UpdateNonNmCount(wasNonNm, s.mode != NM);
    }

    method SetDataplaneMode(d: DeviceId, t: Token, mode: Mode, c: ClientId) returns (outcome: ModeOutcome)
      requires Valid()
      modifies this
      ensures Valid() && (View(), outcome) == SetMode(old(View()), d, t, mode, c)
    {
      hide Refresh, Recorded, DropCaps;
      if t !in sessions { return NoSession; }
      if !sessions[t].active { return SessionClosed; }
      if sessions[t].device != d { return ModeWrongDevice; }
      if sessions[t].owner != c { return ModeWrongOwner; }
      Record(t, sessions[t].(mode := mode));
      RefreshNmHot(d, c);
      return ModeSet;
    }

    method ConnectTransport(d: DeviceId, t: Token, kind: Plane) returns (grant: Option<(nat, FlagId)>)
      requires Valid()
      modifies this
      ensures Valid() && View() == Connect(old(View()), d, t, kind).0
      ensures var f := Connect(old(View()), d, t, kind).1;
              grant == if f.Some? then Some((Generation(sessions[t], kind), f.value)) else None
    {
      hide Refresh, Kill, CapFlags;
      if t !in sessions || !sessions[t].active || sessions[t].device != d { return None; }
      var s := Bumped(sessions[t], kind);
      var wasNonNm := sessions[t].mode != NM;
      var life := if d in devices then devices[d] else 0;
      sessions := sessions[t := s];
      var f := ReplaceTransportValidity(t, Capability(t, d, kind, Generation(s, kind), life));
      UpdateNonNmCount(wasNonNm, true);
      RefreshNmHot(d, s.owner);
      return Some((Generation(s, kind), f));
    }

    method DisconnectTransport(d: DeviceId, t: Token, kind: Plane, generation: nat, f: FlagId)
      requires Valid()
      modifies this
      ensures Valid() && View() == Disconnect(old(View()), d, t, kind, generation, f)
    {
      hide Refresh, Recorded, DropCaps;
      if t !in sessions || !sessions[t].active || sessions[t].device != d { return; }
      var modeCurrent := Generation(sessions[t], kind) == generation && sessions[t].mode == kind;
      if modeCurrent && t in caps && caps[t] == f {
        var c := sessions[t].owner;
        Record(t, sessions[t].(mode := NM));
        RefreshNmHot(d, c);
      }
    }

    // ---------- opening ----------

    method RegisterSession(d: DeviceId, t: Token, c: ClientId) returns (ok: bool)
      requires Valid()
      modifies this
      ensures Valid() && ok == (d in old(devices))
      ensures View() == if ok then AddSession(old(View()), d, t, c) else old(View())
    {
      if d !in devices { return false; }
      sessions := sessions[t := Session(d, c, NM, AuthHash(t), true, 0, 0)];
      hashes := hashes[AuthHash(t) := t];
      return true;
    }

    /** The fast path of `open`: join a device that is open already. */
    method Join(d: DeviceId, t: Token, c: ClientId) returns (ok: bool)
      requires Valid()
      modifies this
      ensures Valid() && ok == Register(old(View()), d, t, c).Some?
      ensures View() == if ok then Register(old(View()), d, t, c).value else old(View())
    {
      ok := RegisterSession(d, t, c);
      if ok { RefreshNmHot(d, c); }
    }

    /** The publishing section of a first opener whose reservation is current: true if its own
        entry was installed, false if the device turned out to be open. */
    method Install(d: DeviceId, l: LifeId, t: Token, c: ClientId) returns (installed: bool)
      requires Valid()
      modifies this
      ensures Valid() && installed == (d !in old(devices))
      ensures View() == if installed then Publish(old(View()), d, l, t, c) else Register(old(View()), d, t, c).value
    {
      var joined := Join(d, t, c);
      if joined { return false; }
      devices := devices[d := l];
      var registered := RegisterSession(d, t, c);
      assert registered;
      RefreshNmHot(d, c);
      return true;
    }

    // ---------- authentication ----------

    /** Resolves an auth hash to the active session it belongs to. */
    method DeviceByWsAuth(hash: AuthHash) returns (found: Option<(DeviceId, Token)>)
      requires RegistryInvariant.HashesOk(View()) && RegistryInvariant.SessionsOk(View())
      ensures found.Some? <==> exists t :: t in sessions && sessions[t].hash == hash
      ensures found.Some? ==> found.value.1 in sessions && sessions[found.value.1].hash == hash
                              && sessions[found.value.1].device == found.value.0
    {
      if hash !in hashes { return None; }
      var t := hashes[hash];
      if t !in sessions || !sessions[t].active { return None; }
      return Some((sessions[t].device, t));
    }
  }

  // ---------- issuing before revoking ----------

  /** Revoking earlier cells and issuing a new one can be done in either order. */
  lemma KillBeforeIssue(flags: seq<Flag>, issued: Flag, dead: set<FlagId>)
    requires forall f :: f in dead ==> f < |flags|
    ensures Kill(flags + [issued], dead) == Kill(flags, dead) + [issued]
  {
  }

  lemma KillNone(flags: seq<Flag>)
    ensures Kill(flags, {}) == flags
  {
  }

  lemma OneCapFlag(caps: map<Token, FlagId>, t: Token)
    ensures CapFlags(caps, {t}) == if t in caps then {caps[t]} else {}
  {
  }

  lemma GrantedIs(r: Registry, t: Token, origin: Origin, flags: seq<Flag>)
    requires t in r.caps ==> r.caps[t] < |r.flags|
    requires var issued := r.flags + [Flag(true, origin)];
             flags == if t in r.caps then Kill(issued, {r.caps[t]}) else issued
    ensures r.(caps := r.caps[t := |r.flags|], flags := flags) == Granted(DropCaps(r, {t}), t, origin)
  {
    hide Kill, CapFlags;
    OneCapFlag(r.caps, t);
    KillNone(r.flags);
    KillBeforeIssue(r.flags, Flag(true, origin), CapFlags(r.caps, {t}));
    assert r.caps[t := |r.flags|] == (r.caps - {t})[t := |r.flags|];
  }

  /** The tables after a binding was first issued, if it is wanted, and the one before it revoked. */
  lemma RefreshIs(r: Registry, d: DeviceId, c: ClientId, flags: seq<Flag>)
    requires (c, d) in r.hot ==> r.hot[(c, d)].flag < |r.flags|
    requires var wanted := WantsHot(r.sessions, c, d) && d in r.devices && c in r.sinks;
             var issued := if wanted then r.flags + [Flag(true, NmBinding(c, d, r.devices[d], r.sinks[c]))]
                           else r.flags;
             flags == if (c, d) in r.hot then Kill(issued, {r.hot[(c, d)].flag}) else issued
    ensures var wanted := WantsHot(r.sessions, c, d) && d in r.devices && c in r.sinks;
            var rest := if (c, d) in r.hot then r.hot - {(c, d)} else r.hot;
            Refresh(r, d, c)
            == r.(hot := if wanted then rest[(c, d) := Hot(r.devices[d], |r.flags|, r.sinks[c])] else rest,
                 flags := flags)
  {
    hide Kill, WantsHot;
    var dead := if (c, d) in r.hot then {r.hot[(c, d)].flag} else {};
    KillNone(r.flags);
    if WantsHot(r.sessions, c, d) && d in r.devices && c in r.sinks {
      KillBeforeIssue(r.flags, Flag(true, NmBinding(c, d, r.devices[d], r.sinks[c])), dead);
    }
    if (c, d) !in r.hot { assert r.hot - {(c, d)} == r.hot; }
  }

  // ---------- sweeping the bindings ----------

  function FlagsAt(hot: map<(ClientId, DeviceId), Hot>, keys: set<(ClientId, DeviceId)>): set<FlagId> {
    set k | k in hot && k in keys :: hot[k].flag
  }

  function DropHotKeys(r: Registry, keys: set<(ClientId, DeviceId)>): Registry {
    r.(hot := r.hot - keys, flags := Kill(r.flags, FlagsAt(r.hot, keys)))
  }

  lemma DropNoKeys(r: Registry)
    ensures DropHotKeys(r, {}) == r
  {
    assert r.hot - {} == r.hot;
    assert Kill(r.flags, FlagsAt(r.hot, {})) == r.flags;
  }

  lemma HotAfterDrop(r: Registry, keys: set<(ClientId, DeviceId)>)
    ensures DropHotKeys(r, keys).hot == r.hot - keys
  {
  }

  lemma DropKeysTwice(r: Registry, a: set<(ClientId, DeviceId)>, b: set<(ClientId, DeviceId)>)
    ensures DropHotKeys(DropHotKeys(r, a), b) == DropHotKeys(r, a + b)
  {
    assert (r.hot - a) - b == r.hot - (a + b);
    assert FlagsAt(r.hot, a + b) == FlagsAt(r.hot, a) + FlagsAt(r.hot - a, b);
    KillTwice(r.flags, FlagsAt(r.hot, a), FlagsAt(r.hot - a, b));
  }

  lemma DropHotOnIsKeys(r: Registry, d: DeviceId, keys: set<(ClientId, DeviceId)>)
    requires keys == set k | k in r.hot && k.1 == d
    ensures DropHotKeys(r, keys) == DropHotOn(r, d)
  {
    assert FlagsAt(r.hot, keys) == HotFlagsOn(r.hot, d);
    assert r.hot - keys == map k | k in r.hot && k.1 != d :: r.hot[k];
  }

  function KeysOf(hot: map<(ClientId, DeviceId), Hot>, c: ClientId): set<(ClientId, DeviceId)> {
    set k | k in hot && k.0 == c
  }

  lemma RemoveSinkIsKeys(r: Registry, c: ClientId)
    ensures DropHotKeys(r.(sinks := r.sinks - {c}), KeysOf(r.hot, c)) == RemoveSink(r, c)
  {
    assert FlagsAt(r.hot, KeysOf(r.hot, c)) == HotFlagsOf(r.hot, c);
    assert r.hot - KeysOf(r.hot, c) == map k | k in r.hot && k.0 != c :: r.hot[k];
  }

  // ---------- sweeping the capabilities ----------

  lemma DropNoCaps(r: Registry)
    ensures DropCaps(r, {}) == r
  {
    assert r.caps - {} == r.caps;
    assert Kill(r.flags, CapFlags(r.caps, {})) == r.flags;
  }

  lemma CapsAfterDrop(r: Registry, tokens: set<Token>)
    ensures DropCaps(r, tokens).caps == r.caps - tokens
  {
  }

  lemma DropCapsTwice(r: Registry, a: set<Token>, b: set<Token>)
    ensures DropCaps(DropCaps(r, a), b) == DropCaps(r, a + b)
  {
    assert (r.caps - a) - b == r.caps - (a + b);
    assert CapFlags(r.caps, a + b) == CapFlags(r.caps, a) + CapFlags(r.caps - a, b);
    KillTwice(r.flags, CapFlags(r.caps, a), CapFlags(r.caps - a, b));
  }

  lemma DropCapsOfStored(r: Registry, tokens: set<Token>, stored: set<Token>)
    requires stored == set t | t in r.caps && t in tokens
    ensures DropCaps(r, stored) == DropCaps(r, tokens)
  {
    assert r.caps - stored == r.caps - tokens;
    assert CapFlags(r.caps, stored) == CapFlags(r.caps, tokens);
  }

  /** With exact hashes, removing a session's own hash is removing every hash that leads to it. */
  lemma ClosingIs(r: Registry, n: Registry, t: Token)
    requires RegistryInvariant.HashesOk(r) && RegistryInvariant.SessionsOk(r) && t in r.sessions
    requires n.devices == r.devices && n.sinks == r.sinks && n.hot == r.hot
    requires n.sessions == r.sessions - {t} && n.hashes == r.hashes - {r.sessions[t].hash}
    requires n.caps == r.caps - {t} && n.flags == Kill(r.flags, CapFlags(r.caps, {t}))
    requires n.nonNm == r.nonNm - Weight(r.sessions[t].mode != NM)
    ensures n == Closing(r, t)
  {
    hide RegistryInvariant.HashesOk, RegistryInvariant.SessionsOk, Kill, CapFlags;
    HashesWithout(r, t);
  }

  lemma HashesWithout(r: Registry, t: Token)
    requires RegistryInvariant.HashesOk(r) && RegistryInvariant.SessionsOk(r) && t in r.sessions
    ensures r.hashes - {r.sessions[t].hash} == map h | h in r.hashes && r.hashes[h] !in {t} :: r.hashes[h]
  {
    assert r.sessions[t].hash == AuthHash(t);
    forall h | h in r.hashes ensures r.hashes[h] == t <==> h == AuthHash(t) {}
  }

  lemma NoneCollected(sessions: map<Token, Session>, d: DeviceId)
    ensures TokensOn(sessions, d) - sessions.Keys == {} && NonNmTokens(sessions) * {} == {}
  {
  }

  lemma CollectOneMore(sessions: map<Token, Session>, d: DeviceId, rest: set<Token>, t: Token)
    requires t in rest && t in sessions
    ensures TokensOn(sessions, d) - (rest - {t})
         == (TokensOn(sessions, d) - rest) + if sessions[t].device == d then {t} else {}
  {
  }

  lemma CountOneMore(sessions: map<Token, Session>, tokens: set<Token>, t: Token)
    requires t in sessions && t !in tokens
    ensures |NonNmTokens(sessions) * (tokens + {t})|
         == |NonNmTokens(sessions) * tokens| + if sessions[t].mode != NM then 1 else 0
  {
    assert NonNmTokens(sessions) * (tokens + {t})
        == NonNmTokens(sessions) * tokens + if sessions[t].mode != NM then {t} else {};
  }

  lemma KillTwice(flags: seq<Flag>, a: set<FlagId>, b: set<FlagId>)
    ensures Kill(Kill(flags, a), b) == Kill(flags, a + b)
  {
  }

  lemma RefreshAllNone(r: Registry, c: ClientId)
    ensures RefreshAll(r, c, []) == r
  {
  }

  lemma RefreshAllMore(r: Registry, c: ClientId, ds: seq<DeviceId>, d: DeviceId)
    ensures RefreshAll(r, c, ds + [d]) == Refresh(RefreshAll(r, c, ds), d, c)
  {
    assert (ds + [d])[..|ds|] == ds;
  }
}
