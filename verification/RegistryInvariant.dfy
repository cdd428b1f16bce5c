/** What every lifecycle section keeps: the derived tables are exact, and a validity cell is
    true exactly while what it was issued for is current. */
module RegistryInvariant {
  import opened Registry

  ghost predicate SessionsOk(r: Registry) {
    && (forall t :: t in r.sessions ==>
          r.sessions[t].active && r.sessions[t].hash == AuthHash(t) && r.sessions[t].device in r.devices)
    && (forall d :: d in r.devices ==> exists t :: t in r.sessions && r.sessions[t].device == d)
  }

  /** `ws_auth_hashes` is the inverse of the sessions' own hashes. */
  ghost predicate HashesOk(r: Registry) {
    && (forall t :: t in r.sessions ==> AuthHash(t) in r.hashes)
    && (forall h :: h in r.hashes ==> r.hashes[h] in r.sessions && h == AuthHash(r.hashes[h]))
  }

  /** The stored capability of token `t` is valid, for the session's present mode and generation. */
  ghost predicate CapOk(r: Registry, t: Token)
    requires t in r.caps
  {
    && t in r.sessions
    && r.sessions[t].mode != NM
    && r.sessions[t].device in r.devices
    && r.caps[t] < |r.flags|
    && r.flags[r.caps[t]] == Flag(true, Capability(t, r.sessions[t].device, r.sessions[t].mode,
                                                   Generation(r.sessions[t], r.sessions[t].mode),
                                                   r.devices[r.sessions[t].device]))
  }

  ghost predicate CapsOk(r: Registry) {
    forall t :: t in r.caps ==> CapOk(r, t)
  }

  /** Binding `(c, d)` exists iff it should. */
  ghost predicate HotKeyOk(r: Registry, c: ClientId, d: DeviceId) {
    (c, d) in r.hot <==> c in r.sinks && WantsHot(r.sessions, c, d)
  }

  /** Binding `k` holds the current lifetime and sink under a valid cell of its own. */
  ghost predicate HotEntryOk(r: Registry, k: (ClientId, DeviceId))
    requires k in r.hot
  {
    && k.1 in r.devices
    && k.0 in r.sinks
    && var h := r.hot[k];
       && h.life == r.devices[k.1] && h.sink == r.sinks[k.0] && h.flag < |r.flags|
       && r.flags[h.flag] == Flag(true, NmBinding(k.0, k.1, r.devices[k.1], r.sinks[k.0]))
  }

  ghost predicate HotEntriesOk(r: Registry) {
    forall k :: k in r.hot ==> HotEntryOk(r, k)
  }

  ghost predicate HotKeysOk(r: Registry) {
    forall c: ClientId, d: DeviceId :: HotKeyOk(r, c, d)
  }

  /** As above, but client `c`'s bindings on the devices in `p` may be out of date. */
  ghost predicate HotKeysOkBut(r: Registry, c: ClientId, p: set<DeviceId>) {
    forall c': ClientId, d: DeviceId :: (c' == c && d in p) || HotKeyOk(r, c', d)
  }

  ghost predicate HotEntriesOkBut(r: Registry, c: ClientId, p: set<DeviceId>) {
    forall k :: k in r.hot ==> (k.0 == c && k.1 in p && IssuedFor(r, r.hot[k].flag, k)) || HotEntryOk(r, k)
  }

  /** The cell `f` was issued for a binding with key `k`. */
  ghost predicate IssuedFor(r: Registry, f: FlagId, k: (ClientId, DeviceId)) {
    f < |r.flags| && r.flags[f].origin.NmBinding? && (r.flags[f].origin.client, r.flags[f].origin.device) == k
  }

  /** The cell `f` is the one held by the table it was issued into. */
  ghost predicate Held(r: Registry, f: FlagId)
    requires f < |r.flags|
  {
    match r.flags[f].origin
    case NmBinding(c, d, _, _) => (c, d) in r.hot && r.hot[(c, d)].flag == f
    case Capability(t, _, _, _, _) => t in r.caps && r.caps[t] == f
  }

  ghost predicate FlagsOk(r: Registry) {
    forall f :: 0 <= f < |r.flags| && r.flags[f].valid ==> Held(r, f)
  }

  /** The cell `f` was issued as a capability of token `t`. */
  ghost predicate IssuedTo(r: Registry, f: FlagId, t: Token) {
    f < |r.flags| && r.flags[f].origin.Capability? && r.flags[f].origin.token == t
  }

  /** `owed` decrements of the counter have left the lock and are still to come. */
  ghost predicate CounterOk(r: Registry, owed: nat) {
    r.nonNm == |NonNmTokens(r.sessions)| + owed
  }

  ghost predicate Inv(r: Registry, owed: nat) {
    SessionsOk(r) && HashesOk(r) && CapsOk(r) && HotEntriesOk(r) && HotKeysOk(r) && FlagsOk(r) && CounterOk(r, owed)
  }

  // ---------- what each part of the invariant depends on ----------

  lemma FlagsFrame(r: Registry, n: Registry)
    requires FlagsOk(r) && n.flags == r.flags && n.hot == r.hot && n.caps == r.caps
    ensures FlagsOk(n)
  {
    forall f: FlagId | f < |n.flags| && n.flags[f].valid ensures Held(n, f) { assert Held(r, f); }
  }

  /** Devices may be added, as long as every bound one keeps its lifetime. */
  lemma EntriesFrame(r: Registry, n: Registry)
    requires HotEntriesOk(r) && n.flags == r.flags && n.hot == r.hot && n.sinks == r.sinks
    requires forall k :: k in r.hot && k.1 in r.devices ==> k.1 in n.devices && n.devices[k.1] == r.devices[k.1]
    ensures HotEntriesOk(n)
  {
    forall k | k in n.hot ensures HotEntryOk(n, k) { assert HotEntryOk(r, k); }
  }

  /** Sessions and devices may be added, as long as those with a capability stay as they are. */
  lemma CapsFrame(r: Registry, n: Registry)
    requires CapsOk(r) && n.flags == r.flags && n.caps == r.caps
    requires forall t :: t in r.caps && t in r.sessions ==> t in n.sessions && n.sessions[t] == r.sessions[t]
    requires forall d :: d in r.devices ==> d in n.devices && n.devices[d] == r.devices[d]
    ensures CapsOk(n)
  {
    forall t | t in n.caps ensures CapOk(n, t) { assert CapOk(r, t); }
  }

  // ---------- the shared steps ----------

  lemma RefreshCaps(r: Registry, d: DeviceId, c: ClientId, p: set<DeviceId>)
    requires CapsOk(r) && HotEntriesOkBut(r, c, p)
    ensures CapsOk(Refresh(r, d, c))
  {
    hide CapsOk, HotEntriesOkBut, Unbound, Bound, WantsHot;
    UnboundCaps(r, d, c, p);
    UnboundTables(r, d, c);
    if c in r.sinks && d in r.devices { BoundCaps(Unbound(r, d, c), d, c); }
  }

  lemma UnboundCaps(r: Registry, d: DeviceId, c: ClientId, p: set<DeviceId>)
    requires CapsOk(r) && HotEntriesOkBut(r, c, p)
    ensures CapsOk(Unbound(r, d, c))
  {
    var n := Unbound(r, d, c);
    forall t | t in n.caps ensures CapOk(n, t) {
      assert CapOk(r, t);
      if (c, d) in r.hot { assert IssuedFor(r, r.hot[(c, d)].flag, (c, d)) || HotEntryOk(r, (c, d)); }
    }
  }

  lemma BoundCaps(r: Registry, d: DeviceId, c: ClientId)
    requires CapsOk(r) && c in r.sinks && d in r.devices
    ensures CapsOk(Bound(r, d, c))
  {
    var n := Bound(r, d, c);
    forall t | t in n.caps ensures CapOk(n, t) { assert CapOk(r, t); }
  }

  lemma RefreshFlags(r: Registry, d: DeviceId, c: ClientId, p: set<DeviceId>)
    requires FlagsOk(r) && HotEntriesOkBut(r, c, p)
    ensures FlagsOk(Refresh(r, d, c))
  {
    hide FlagsOk, HotEntriesOkBut, Unbound, Bound, WantsHot;
    UnboundFlags(r, d, c);
    UnboundTables(r, d, c);
    if c in r.sinks && d in r.devices { BoundFlags(Unbound(r, d, c), d, c); }
  }

  lemma UnboundTables(r: Registry, d: DeviceId, c: ClientId)
    ensures var n := Unbound(r, d, c);
            n.sinks == r.sinks && n.devices == r.devices && n.sessions == r.sessions && (c, d) !in n.hot
  {
  }

  lemma UnboundFlags(r: Registry, d: DeviceId, c: ClientId)
    requires FlagsOk(r)
    ensures FlagsOk(Unbound(r, d, c))
  {
    var n := Unbound(r, d, c);
    forall f: FlagId | f < |n.flags| && n.flags[f].valid ensures Held(n, f) { assert Held(r, f); }
  }

  lemma BoundFlags(r: Registry, d: DeviceId, c: ClientId)
    requires FlagsOk(r) && (c, d) !in r.hot && c in r.sinks && d in r.devices
    ensures FlagsOk(Bound(r, d, c))
  {
    var n := Bound(r, d, c);
    forall f: FlagId | f < |n.flags| && n.flags[f].valid ensures Held(n, f) {
      if f < |r.flags| { assert Held(r, f); }
    }
  }

  lemma RefreshEntries(r: Registry, d: DeviceId, c: ClientId, p: set<DeviceId>)
    requires HotEntriesOkBut(r, c, p)
    ensures HotEntriesOkBut(Refresh(r, d, c), c, p - {d})
  {
    hide HotEntriesOkBut, Unbound, Bound, WantsHot;
    UnboundEntries(r, d, c, p);
    UnboundTables(r, d, c);
    if c in r.sinks && d in r.devices { BoundEntries(Unbound(r, d, c), d, c, p - {d}); }
  }

  lemma UnboundEntries(r: Registry, d: DeviceId, c: ClientId, p: set<DeviceId>)
    requires HotEntriesOkBut(r, c, p)
    ensures HotEntriesOkBut(Unbound(r, d, c), c, p - {d})
  {
    var n := Unbound(r, d, c);
    forall k | k in n.hot
      ensures (k.0 == c && k.1 in p - {d} && IssuedFor(n, n.hot[k].flag, k)) || HotEntryOk(n, k)
    {
      assert IssuedFor(r, r.hot[k].flag, k) || HotEntryOk(r, k);
    }
  }

  lemma BoundEntries(r: Registry, d: DeviceId, c: ClientId, p: set<DeviceId>)
    requires HotEntriesOkBut(r, c, p) && (c, d) !in r.hot && c in r.sinks && d in r.devices
    ensures HotEntriesOkBut(Bound(r, d, c), c, p)
  {
    var n := Bound(r, d, c);
    forall k | k in n.hot
      ensures (k.0 == c && k.1 in p && IssuedFor(n, n.hot[k].flag, k)) || HotEntryOk(n, k)
    {
      if k != (c, d) { assert IssuedFor(r, r.hot[k].flag, k) || HotEntryOk(r, k); }
    }
  }

  lemma RefreshKeys(r: Registry, d: DeviceId, c: ClientId, p: set<DeviceId>)
    requires SessionsOk(r) && HotKeysOkBut(r, c, p)
    ensures HotKeysOkBut(Refresh(r, d, c), c, p - {d})
  {
    hide SessionsOk, Refresh;
    var n := Refresh(r, d, c);
    RefreshSame(r, d, c);
    RefreshBinds(r, d, c);
    WantedIsInstalled(r, d, c);
    forall c': ClientId, d': DeviceId | !(c' == c && d' in p - {d}) ensures HotKeyOk(n, c', d') {
      if (c', d') != (c, d) { assert HotKeyOk(r, c', d'); }
    }
  }

  lemma WantedIsInstalled(r: Registry, d: DeviceId, c: ClientId)
    requires SessionsOk(r)
    ensures WantsHot(r.sessions, c, d) ==> d in r.devices
  {
  }

  /** The binding is there afterwards iff it is wanted, and no other came or went. */
  lemma RefreshBinds(r: Registry, d: DeviceId, c: ClientId)
    ensures var n := Refresh(r, d, c);
            && ((c, d) in n.hot <==> WantsHot(r.sessions, c, d) && c in r.sinks && d in r.devices)
            && forall k :: k != (c, d) ==> (k in n.hot <==> k in r.hot)
  {
    hide WantsHot, Kill;
  }

  /** The tables that refreshing a binding leaves alone. */
  lemma RefreshSame(r: Registry, d: DeviceId, c: ClientId)
    ensures var n := Refresh(r, d, c);
            n.sessions == r.sessions && n.hashes == r.hashes && n.devices == r.devices && n.sinks == r.sinks
            && n.nonNm == r.nonNm
  {
    hide WantsHot, Kill;
  }

  lemma RefreshTables(r: Registry, d: DeviceId, c: ClientId, owed: nat)
    requires SessionsOk(r) && HashesOk(r) && CounterOk(r, owed)
    ensures var n := Refresh(r, d, c); SessionsOk(n) && HashesOk(n) && CounterOk(n, owed)
  {
    hide Refresh;
    RefreshSame(r, d, c);
  }

  /** All is in order but client `c`'s bindings on the devices in `p`. */
  ghost predicate InvBut(r: Registry, owed: nat, c: ClientId, p: set<DeviceId>) {
    && SessionsOk(r) && HashesOk(r) && CounterOk(r, owed) && CapsOk(r) && FlagsOk(r)
    && HotEntriesOkBut(r, c, p) && HotKeysOkBut(r, c, p)
  }

  /** Refreshing one binding strikes it off the list of those out of date. */
  lemma RefreshKeeps(r: Registry, d: DeviceId, c: ClientId, owed: nat, p: set<DeviceId>)
    requires InvBut(r, owed, c, p)
    ensures InvBut(Refresh(r, d, c), owed, c, p - {d})
  {
    hide SessionsOk, HashesOk, CapsOk, HotEntriesOkBut, HotKeysOkBut, FlagsOk, CounterOk, Refresh;
    RefreshTables(r, d, c, owed);
    RefreshCaps(r, d, c, p);
    RefreshFlags(r, d, c, p);
    RefreshEntries(r, d, c, p);
    RefreshKeys(r, d, c, p);
  }

  lemma InvButNone(r: Registry, owed: nat, c: ClientId, p: set<DeviceId>)
    requires InvBut(r, owed, c, p) && p == {}
    ensures Inv(r, owed)
  {
    assert HotEntriesOk(r) && HotKeysOk(r) by {
      forall k | k in r.hot ensures HotEntryOk(r, k) {}
      forall c': ClientId, d: DeviceId ensures HotKeyOk(r, c', d) {}
    }
  }

  /** Where one binding is all that is out of date, refreshing it restores the invariant. */
  lemma RefreshRestores(r: Registry, d: DeviceId, c: ClientId, owed: nat)
    requires SessionsOk(r) && HashesOk(r) && CounterOk(r, owed)
    requires CapsOk(r) && FlagsOk(r) && HotEntriesOk(r) && HotKeysOkBut(r, c, {d})
    ensures Inv(Refresh(r, d, c), owed)
  {
    assert HotEntriesOkBut(r, c, {d});
    hide SessionsOk, HashesOk, CapsOk, HotEntriesOkBut, HotKeysOkBut, FlagsOk, CounterOk, Refresh;
    RefreshKeeps(r, d, c, owed, {d});
    InvButNone(Refresh(r, d, c), owed, c, {d} - {d});
  }

  /** Revoking the capabilities of `tokens` leaves none of theirs valid, and no other cell changes. */
  lemma DropCapsExact(r: Registry, tokens: set<Token>)
    requires HotEntriesOk(r) && FlagsOk(r)
    requires forall t :: t in r.caps && t !in tokens ==> CapOk(r, t)
    requires forall t :: t in r.caps ==> IssuedTo(r, r.caps[t], t)
    ensures var n := DropCaps(r, tokens); CapsOk(n) && HotEntriesOk(n) && FlagsOk(n)
  {
    var n := DropCaps(r, tokens);
    forall t | t in n.caps ensures CapOk(n, t) {
      assert CapOk(r, t);
    }
    forall k | k in n.hot ensures HotEntryOk(n, k) {
      assert HotEntryOk(r, k);
    }
    forall f: FlagId | f < |n.flags| && n.flags[f].valid ensures Held(n, f) {
      assert Held(r, f);
    }
  }

  lemma DropSessionsExact(r: Registry, tokens: set<Token>)
    requires CapsOk(r) && HotEntriesOk(r) && FlagsOk(r)
    ensures var n := DropSessions(r, tokens); CapsOk(n) && HotEntriesOk(n) && FlagsOk(n)
  {
    var m := r.(sessions := r.sessions - tokens,
                hashes := map h | h in r.hashes && r.hashes[h] !in tokens :: r.hashes[h]);
    forall t | t in r.caps ensures IssuedTo(m, r.caps[t], t) && (t !in tokens ==> CapOk(m, t)) {
      assert CapOk(r, t);
    }
    forall k | k in m.hot ensures HotEntryOk(m, k) { assert HotEntryOk(r, k); }
    forall f: FlagId | f < |m.flags| && m.flags[f].valid ensures Held(m, f) { assert Held(r, f); }
    DropCapsExact(m, tokens);
  }

  lemma DropSessionsTables(r: Registry, tokens: set<Token>)
    requires HashesOk(r)
    ensures var n := DropSessions(r, tokens);
            HashesOk(n) && NonNmTokens(n.sessions) == NonNmTokens(r.sessions) - tokens
  {
  }

  ghost predicate NoSessionOn(r: Registry, d: DeviceId) {
    forall t :: t in r.sessions ==> r.sessions[t].device != d
  }

  lemma ShutCaps(r: Registry, d: DeviceId)
    requires CapsOk(r) && HotEntriesOk(r) && NoSessionOn(r, d)
    ensures CapsOk(Shut(r, d))
  {
    var n := Shut(r, d);
    forall t | t in n.caps ensures CapOk(n, t) {
      assert CapOk(r, t);
      forall k | k in r.hot ensures r.hot[k].flag != r.caps[t] { assert HotEntryOk(r, k); }
    }
  }

  lemma ShutEntries(r: Registry, d: DeviceId)
    requires HotEntriesOk(r)
    ensures HotEntriesOk(Shut(r, d))
  {
    var n := Shut(r, d);
    forall k | k in n.hot ensures HotEntryOk(n, k) {
      assert HotEntryOk(r, k);
      forall k' | k' in r.hot && k'.1 == d ensures r.hot[k'].flag != r.hot[k].flag { assert HotEntryOk(r, k'); }
    }
  }

  lemma ShutKeys(r: Registry, d: DeviceId)
    requires NoSessionOn(r, d)
    requires forall c: ClientId, d': DeviceId :: d' != d ==> HotKeyOk(r, c, d')
    ensures HotKeysOk(Shut(r, d))
  {
    var n := Shut(r, d);
    forall c: ClientId, d': DeviceId ensures HotKeyOk(n, c, d') {
      if d' != d { assert HotKeyOk(r, c, d'); }
      else { assert !WantsHot(r.sessions, c, d); }
    }
  }

  lemma ShutFlags(r: Registry, d: DeviceId)
    requires FlagsOk(r)
    ensures FlagsOk(Shut(r, d))
  {
    var n := Shut(r, d);
    forall f: FlagId | f < |n.flags| && n.flags[f].valid ensures Held(n, f) {
      assert Held(r, f);
    }
  }

  /** Once no session is left on `d`, dropping the device and its bindings restores the invariant. */
  lemma ShutKeeps(r: Registry, d: DeviceId, owed: nat)
    requires CapsOk(r) && HotEntriesOk(r) && FlagsOk(r) && HashesOk(r) && CounterOk(r, owed)
    requires forall c: ClientId, d': DeviceId :: d' != d ==> HotKeyOk(r, c, d')
    requires NoSessionOn(r, d) && SessionsOk(r.(devices := r.devices - {d}))
    ensures Inv(Shut(r, d), owed)
  {
    assert SessionsOk(Shut(r, d)) && HashesOk(Shut(r, d)) && CounterOk(Shut(r, d), owed);
    hide SessionsOk, HashesOk, CapsOk, HotEntriesOk, HotKeysOk, FlagsOk, CounterOk, NoSessionOn, Shut;
    ShutCaps(r, d);
    ShutEntries(r, d);
    ShutKeys(r, d);
    ShutFlags(r, d);
  }

  // ---------- validity is currency ----------

  /** What the cell `f` was issued for is in force: the binding or capability is the stored one,
      its session is registered, and the lifetime it was issued on is the installed one. */
  ghost predicate Current(r: Registry, f: FlagId)
    requires f < |r.flags|
  {
    match r.flags[f].origin
    case NmBinding(c, d, l, sink) =>
      && (c, d) in r.hot && r.hot[(c, d)].flag == f
      && WantsHot(r.sessions, c, d) && c in r.sinks && r.sinks[c] == sink
      && d in r.devices && r.devices[d] == l
    case Capability(t, d, kind, generation, l) =>
      && t in r.caps && r.caps[t] == f
      && t in r.sessions && r.sessions[t].active && r.sessions[t].device == d
      && r.sessions[t].mode == kind && Generation(r.sessions[t], kind) == generation
      && d in r.devices && r.devices[d] == l
  }

  /** A validity cell is true iff what it was issued for is in force. */
  lemma ValidIffCurrent(r: Registry, f: FlagId, owed: nat)
    requires Inv(r, owed) && f < |r.flags|
    ensures r.flags[f].valid <==> Current(r, f)
  {
    match r.flags[f].origin
    case NmBinding(c, d, _, _) =>
      if (c, d) in r.hot { assert HotEntryOk(r, (c, d)) && HotKeyOk(r, c, d); }
    case Capability(t, _, _, _, _) =>
      if t in r.caps { assert CapOk(r, t); }
  }
}
