/** The daemon's lifecycle tables as one value, and each section that the code runs under
    the `lifecycle` mutex as a function on that value.

    An `Arc<AtomicBool>` validity cell is an index into `flags`; a cell is never reused, so
    pointer equality is equality of indexes. `origin` remembers what a cell was issued for.
    A physical `Entry` is named by its lifetime number. */
module Registry {
  import opened Wrappers

  type DeviceId = nat
  type ClientId = nat
  type Token = nat
  type LifeId = nat
  type SinkId = nat
  type FlagId = nat

  /** SHA-256 over the token and the fixed nonce, taken to be free of collisions. */
  datatype AuthHash = AuthHash(token: Token)

  datatype Mode = NM | WS | WT

  /** The data planes that a transport can serve. */
  type Plane = m: Mode | m != NM witness WS

  datatype Session = Session(device: DeviceId, owner: ClientId, mode: Mode, hash: AuthHash,
                             active: bool, wsGeneration: nat, wtGeneration: nat)

  datatype Origin =
    | NmBinding(client: ClientId, device: DeviceId, life: LifeId, sink: SinkId)
    | Capability(token: Token, device: DeviceId, kind: Mode, generation: nat, life: LifeId)

  datatype Flag = Flag(valid: bool, origin: Origin)

  datatype Hot = Hot(life: LifeId, flag: FlagId, sink: SinkId)

  datatype Registry = Tables(
    devices: map<DeviceId, LifeId>,
    sessions: map<Token, Session>,
    hashes: map<AuthHash, Token>,
    caps: map<Token, FlagId>,
    sinks: map<ClientId, SinkId>,
    hot: map<(ClientId, DeviceId), Hot>,
    flags: seq<Flag>,
    nonNm: int)

  const Empty := Tables(map[], map[], map[], map[], map[], map[], [], 0)

  // ---------- building blocks ----------

  function Generation(s: Session, kind: Mode): nat {
    match kind
    case WS => s.wsGeneration
    case WT => s.wtGeneration
    case NM => 0
  }

  /** The validity cells after every cell in `dead` was set to false. */
  function Kill(flags: seq<Flag>, dead: set<FlagId>): (killed: seq<Flag>)
    ensures |killed| == |flags|
    ensures forall f :: 0 <= f < |flags| ==> killed[f] == if f in dead then flags[f].(valid := false) else flags[f]
  {
    seq(|flags|, f requires 0 <= f < |flags| => if f in dead then flags[f].(valid := false) else flags[f])
  }

  predicate IsNmSession(s: Session, c: ClientId, d: DeviceId) {
    s.device == d && s.owner == c && s.active && s.mode == NM
  }

  /** Client `c` holds an active session on `d` whose data plane is native messaging. */
  predicate WantsHot(sessions: map<Token, Session>, c: ClientId, d: DeviceId) {
    exists t :: t in sessions && IsNmSession(sessions[t], c, d)
  }

  function TokensOn(sessions: map<Token, Session>, d: DeviceId): set<Token> {
    set t | t in sessions && sessions[t].device == d
  }

  function NonNmTokens(sessions: map<Token, Session>): set<Token> {
    set t | t in sessions && sessions[t].mode != NM
  }

  function Weight(nonNm: bool): nat {
    if nonNm then 1 else 0
  }

  function CapFlags(caps: map<Token, FlagId>, tokens: set<Token>): set<FlagId> {
    set t | t in caps && t in tokens :: caps[t]
  }

  function DropCaps(r: Registry, tokens: set<Token>): Registry {
    r.(caps := r.caps - tokens, flags := Kill(r.flags, CapFlags(r.caps, tokens)))
  }

  /** The tables with a fresh capability stored for `t`. */
  function Granted(r: Registry, t: Token, origin: Origin): Registry {
    r.(caps := r.caps[t := |r.flags|], flags := r.flags + [Flag(true, origin)])
  }

  function HotFlagsOn(hot: map<(ClientId, DeviceId), Hot>, d: DeviceId): set<FlagId> {
    set k | k in hot && k.1 == d :: hot[k].flag
  }

  function HotFlagsOf(hot: map<(ClientId, DeviceId), Hot>, c: ClientId): set<FlagId> {
    set k | k in hot && k.0 == c :: hot[k].flag
  }

  function DropHotOn(r: Registry, d: DeviceId): Registry {
    r.(hot := map k | k in r.hot && k.1 != d :: r.hot[k],
       flags := Kill(r.flags, HotFlagsOn(r.hot, d)))
  }

  /** The tables without the binding of client `c` on device `d`, its cell set to false. */
  function Unbound(r: Registry, d: DeviceId, c: ClientId): Registry {
    r.(hot := r.hot - {(c, d)}, flags := Kill(r.flags, if (c, d) in r.hot then {r.hot[(c, d)].flag} else {}))
  }

  /** The tables with a fresh binding of client `c` on device `d`. */
  function Bound(r: Registry, d: DeviceId, c: ClientId): Registry
    requires c in r.sinks && d in r.devices
  {
    r.(hot := r.hot[(c, d) := Hot(r.devices[d], |r.flags|, r.sinks[c])],
       flags := r.flags + [Flag(true, NmBinding(c, d, r.devices[d], r.sinks[c]))])
  }

  /** Recomputes the native-messaging binding of client `c` on device `d`. */
  function Refresh(r: Registry, d: DeviceId, c: ClientId): Registry {
    if WantsHot(r.sessions, c, d) && c in r.sinks && d in r.devices then Bound(Unbound(r, d, c), d, c)
    else Unbound(r, d, c)
  }

  function AddSession(r: Registry, d: DeviceId, t: Token, c: ClientId): Registry {
    r.(sessions := r.sessions[t := Session(d, c, NM, AuthHash(t), true, 0, 0)],
       hashes := r.hashes[AuthHash(t) := t])
  }

  /** The session and hash tables without `tokens`, their capabilities revoked. */
  function DropSessions(r: Registry, tokens: set<Token>): Registry {
    DropCaps(r.(sessions := r.sessions - tokens,
                hashes := map h | h in r.hashes && r.hashes[h] !in tokens :: r.hashes[h]), tokens)
  }

  /** The tables once the bindings on `d` and the device itself are gone. */
  function Shut(r: Registry, d: DeviceId): Registry {
    DropHotOn(r, d).(devices := r.devices - {d})
  }

  predicate AnyOn(sessions: map<Token, Session>, d: DeviceId) {
    exists t :: t in sessions && sessions[t].device == d && sessions[t].active
  }

  // ---------- the sections ----------

  /** A new logical session on a device that is already open. */
  function Register(r: Registry, d: DeviceId, t: Token, c: ClientId): Option<Registry> {
    if d in r.devices then Some(Refresh(AddSession(r, d, t, c), d, c)) else None
  }

  /** A first opener installs lifetime `l` together with its own session. */
  function Publish(r: Registry, d: DeviceId, l: LifeId, t: Token, c: ClientId): Registry {
    Refresh(AddSession(r.(devices := r.devices[d := l]), d, t, c), d, c)
  }

  /** Everything on device `d` goes: hot-unplug and a dead reader. The counter of
      non-NM sessions is left for the caller to settle after the lock is dropped. */
  function TearDown(r: Registry, d: DeviceId): Registry {
    Shut(DropSessions(r, TokensOn(r.sessions, d)), d)
  }

  datatype CloseOutcome =
    | UnknownSession
    | WrongDevice
    | WrongOwner
    | AlreadyClosed
    | Closed(last: bool, entry: Option<LifeId>)

  /** The close section up to the point where it looks for other sessions on the device. */
  function Closing(r: Registry, t: Token): Registry
    requires t in r.sessions
  {
    DropSessions(r, {t}).(nonNm := r.nonNm - Weight(r.sessions[t].mode != NM))
  }

  function Close(r: Registry, d: DeviceId, t: Token, c: ClientId): (Registry, CloseOutcome) {
    if t !in r.sessions then (r, UnknownSession)
    else if r.sessions[t].device != d then (r, WrongDevice)
    else if r.sessions[t].owner != c then (r, WrongOwner)
    else if !r.sessions[t].active then (r, AlreadyClosed)
    else
      var rest := Closing(r, t);
      if AnyOn(rest.sessions, d) then
        (Refresh(rest, d, c), Closed(false, None))
      else
        (Shut(rest, d), Closed(true, if d in r.devices then Some(r.devices[d]) else None))
  }

  datatype ModeOutcome = ModeSet | NoSession | SessionClosed | ModeWrongDevice | ModeWrongOwner

  function SetMode(r: Registry, d: DeviceId, t: Token, mode: Mode, c: ClientId): (Registry, ModeOutcome) {
    if t !in r.sessions then (r, NoSession)
    else if !r.sessions[t].active then (r, SessionClosed)
    else if r.sessions[t].device != d then (r, ModeWrongDevice)
    else if r.sessions[t].owner != c then (r, ModeWrongOwner)
    else (Switch(DropCaps(r, {t}), d, t, r.sessions[t].(mode := mode)), ModeSet)
  }

  /** `s` as the record of session `t`, and the counter of non-NM sessions to match. */
  function Recorded(r: Registry, t: Token, s: Session): Registry
    requires t in r.sessions
  {
    r.(sessions := r.sessions[t := s],
       nonNm := r.nonNm + Weight(s.mode != NM) - Weight(r.sessions[t].mode != NM))
  }

  function Switch(r: Registry, d: DeviceId, t: Token, s: Session): Registry
    requires t in r.sessions
  {
    Refresh(Recorded(r, t, s), d, s.owner)
  }

  function Bumped(s: Session, kind: Mode): Session {
    match kind
    case WS => s.(mode := WS, wsGeneration := s.wsGeneration + 1)
    case WT => s.(mode := WT, wtGeneration := s.wtGeneration + 1)
    case NM => s
  }

  /** A WS or WT transport authenticates: the answer is the capability it is granted. */
  function Connect(r: Registry, d: DeviceId, t: Token, kind: Plane): (Registry, Option<FlagId>) {
    if t !in r.sessions || !r.sessions[t].active || r.sessions[t].device != d then (r, None)
    else
      var s := Bumped(r.sessions[t], kind);
      var life := if d in r.devices then r.devices[d] else 0;
      var granted := Granted(DropCaps(r, {t}), t, Capability(t, d, kind, Generation(s, kind), life));
      (Switch(granted, d, t, s), Some(|r.flags|))
  }

  /** The presented generation and capability are those of the transport that is in place. */
  predicate IsCurrent(r: Registry, d: DeviceId, t: Token, kind: Plane, generation: nat, f: FlagId) {
    && t in r.sessions && r.sessions[t].active && r.sessions[t].device == d
    && Generation(r.sessions[t], kind) == generation && r.sessions[t].mode == kind
    && t in r.caps && r.caps[t] == f
  }

  /** A transport reports its end, presenting the generation and capability it was granted. */
  function Disconnect(r: Registry, d: DeviceId, t: Token, kind: Plane, generation: nat, f: FlagId): Registry {
    if IsCurrent(r, d, t, kind, generation, f)
    then Switch(DropCaps(r, {t}), d, t, r.sessions[t].(mode := NM))
    else r
  }

  function OwnedDevices(sessions: map<Token, Session>, c: ClientId): set<DeviceId> {
    set t | t in sessions && sessions[t].owner == c && sessions[t].active :: sessions[t].device
  }

  /** Refreshes the bindings of client `c` on each listed device in turn. */
  function RefreshAll(r: Registry, c: ClientId, ds: seq<DeviceId>): Registry
    decreases |ds|
  {
    if |ds| == 0 then r else Refresh(RefreshAll(r, c, ds[..|ds| - 1]), ds[|ds| - 1], c)
  }

  ghost predicate Lists(ds: seq<DeviceId>, devices: set<DeviceId>) {
    (forall d :: d in ds <==> d in devices) && (forall i, j :: 0 <= i < j < |ds| ==> ds[i] != ds[j])
  }

  function AddSink(r: Registry, c: ClientId, sink: SinkId): Registry {
    r.(sinks := r.sinks[c := sink])
  }

  function RemoveSink(r: Registry, c: ClientId): Registry {
    r.(sinks := r.sinks - {c},
       hot := map k | k in r.hot && k.0 != c :: r.hot[k],
       flags := Kill(r.flags, HotFlagsOf(r.hot, c)))
  }
}
