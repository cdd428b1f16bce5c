/** The cleanup of a dead reader goes by device id, not by lifetime: a reader that outlives its
    own lifetime takes down the one that came after it. */
module LifecycleReader {
  import opened Wrappers
  import opened Registry
  import RegistryInvariant
  import opened RegistryEffects
  import opened Lifecycle
  import opened LifecycleInvariant
  import opened LifecycleSteps
  import opened LifecycleTheorems

  /** A dead reader takes down its own lifetime iff that is still the installed one. When its
      device is open under another lifetime, it is that one that goes, with every session on it. */
  lemma DeadReaderTakesOwnIffLive(run: Run, i: nat, l: LifeId)
    requires IsRun(run) && i < |run.states| && Enabled(run.states[i], ReaderDies(l))
    ensures var s := run.states[i];
            var d := s.lives[l].device;
            var n := DoReaderDies(s, l);
            if d in s.reg.devices then
              && s.reg.devices[d] < |n.lives| && n.lives[s.reg.devices[d]].phase.Detached?
              && (s.reg.devices[d] == l <==> s.lives[l].phase == Live)
              && d !in n.reg.devices && TokensOn(n.reg.sessions, d) == {}
            else n.reg == s.reg
  {
    hide Inv, TearDown, LivesOk, IsRun, Next, RegistryInvariant.Inv, SessionsOk, ReservationsOk, CommandsOk;
    RunKeeps(run, i);
    LivesAre(run.states[i]);
    LifeAt(run.states[i], l);
    TearDownEffect(run.states[i].reg, run.states[i].lives[l].device);
  }

  lemma LivesAre(s: State)
    requires Inv(s)
    ensures LivesOk(s)
  {
    hide LivesOk;
  }

  lemma LifeAt(s: State, l: LifeId)
    requires LivesOk(s) && l < |s.lives|
    ensures LifeOk(s, l) && (s.lives[l].device in s.reg.devices ==> InstalledOk(s, s.lives[l].device))
  {
  }

  // ---------- a run in which it happens ----------

  /** The state after playing `steps` one by one, if each is enabled when its turn comes. */
  ghost function Play(s: State, steps: seq<Step>): Option<State>
    decreases |steps|
  {
    if |steps| == 0 then Some(s)
    else if Enabled(s, steps[0]) then Play(Next(s, steps[0]), steps[1..])
    else None
  }

  lemma {:induction false} PlayAppend(s: State, first: seq<Step>, rest: seq<Step>, m: State)
    requires Play(s, first) == Some(m)
    ensures Play(s, first + rest) == Play(m, rest)
    decreases |first|
  {
    hide Enabled, Next;
    if |first| == 0 {
      assert first + rest == rest;
    } else {
      PlayAppend(Next(s, first[0]), first[1..], rest, m);
      assert (first + rest)[1..] == first[1..] + rest;
    }
  }

  lemma PlayNext(s: State, steps: seq<Step>, m: State, step: Step)
    requires Play(s, steps) == Some(m) && Enabled(m, step)
    ensures Play(s, steps + [step]) == Some(Next(m, step))
  {
    hide Enabled, Next;
    PlayAppend(s, steps, [step], m);
    assert Play(Next(m, step), [step][1..]) == Some(Next(m, step));
  }

  /** Whatever can be played from the initial state is a run. */
  lemma {:induction false} PlayIsRun(steps: seq<Step>, m: State)
    requires Play(Initial, steps) == Some(m)
    ensures exists run: Run :: IsRun(run) && run.steps == steps && run.states[|steps|] == m
    decreases |steps|
  {
    hide Enabled, Next;
    if |steps| == 0 {
      assert IsRun(Run([Initial], []));
      assert Run([Initial], []).steps == steps;
    } else {
      var front, last := steps[..|steps| - 1], steps[|steps| - 1];
      assert steps == front + [last];
      PlayPrefix(Initial, front, [last]);
      var k := Play(Initial, front).value;
      PlayIsRun(front, k);
      var run: Run :| IsRun(run) && run.steps == front && run.states[|front|] == k;
      PlayAppend(Initial, front, [last], k);
      assert [last][1..] == [];
      var longer := Run(run.states + [m], steps);
      assert IsRun(longer);
    }
  }

  lemma {:induction false} PlayPrefix(s: State, first: seq<Step>, rest: seq<Step>)
    requires Play(s, first + rest).Some?
    ensures Play(s, first).Some?
    decreases |first|
  {
    hide Enabled, Next;
    if |first| > 0 {
      assert (first + rest)[1..] == first[1..] + rest;
      PlayPrefix(Next(s, first[0]), first[1..], rest);
    }
  }

  /** The steps of an `open` call that nobody disturbs. */
  function OpenSteps(d: DeviceId, c: ClientId, t: Token): seq<Step> {
    [Open(d, c), Ask(t), OpenPhysical(t, true), CheckFirst(t), Build(t),
     PublishEntry(t), ReleaseGate(t), Remove(t), Notify(t)]
  }

  /** The daemon when opener `t` of device `d` has reached `pc` with everything up to its entry. */
  function Underway(s: State, d: DeviceId, c: ClientId, lives: seq<Life>, pc: Pc): State {
    s.(opening := s.opening[d := |s.resvs|], resvs := s.resvs + [Resv(d, |s.openers|, false)],
       lives := lives, openers := s.openers + [Opener(d, c, pc)])
  }

  lemma SetLast<T>(xs: seq<T>, a: T, b: T)
    ensures (xs + [a])[|xs| := b] == xs + [b]
  {
  }

  /** Step `step` of the open is enabled and takes the daemon from one such state to the next. */
  ghost predicate Leads(a: State, step: Step, b: State) {
    Enabled(a, step) && Next(a, step) == b
  }

  lemma AskReserves(s: State, d: DeviceId, c: ClientId)
    requires d !in s.reg.devices && d !in s.opening
    ensures var asked := s.(openers := s.openers + [Opener(d, c, Asking)]);
            Leads(s, Open(d, c), asked)
            && Leads(asked, Ask(|s.openers|), Underway(s, d, c, s.lives, Holding(|s.resvs|)))
  {
    SetLast(s.openers, Opener(d, c, Asking), Opener(d, c, Holding(|s.resvs|)));
  }

  lemma PhysicalOpens(s: State, d: DeviceId, c: ClientId)
    ensures Leads(Underway(s, d, c, s.lives, Holding(|s.resvs|)), OpenPhysical(|s.openers|, true),
                  Underway(s, d, c, s.lives, Opened(|s.resvs|)))
  {
    SetLast(s.openers, Opener(d, c, Holding(|s.resvs|)), Opener(d, c, Opened(|s.resvs|)));
  }

  lemma FirstCheckPasses(s: State, d: DeviceId, c: ClientId)
    requires d !in s.reg.devices
    ensures Leads(Underway(s, d, c, s.lives, Opened(|s.resvs|)), CheckFirst(|s.openers|),
                  Underway(s, d, c, s.lives, Checked(|s.resvs|)))
  {
    hide Refresh;
    SetLast(s.openers, Opener(d, c, Opened(|s.resvs|)), Opener(d, c, Checked(|s.resvs|)));
  }

  lemma EntryIsBuilt(s: State, d: DeviceId, c: ClientId)
    ensures Leads(Underway(s, d, c, s.lives, Checked(|s.resvs|)), Build(|s.openers|),
                  Underway(s, d, c, s.lives + [NewLife(s, d, Gated, Local)], Built(|s.resvs|, |s.lives|)))
  {
    SetLast(s.openers, Opener(d, c, Checked(|s.resvs|)), Opener(d, c, Built(|s.resvs|, |s.lives|)));
  }

  function NewLife(s: State, d: DeviceId, reader: Reader, phase: Phase): Life {
    Life(d, |s.openers|, 0, [], true, reader, phase)
  }

  lemma PlayLed(s: State, steps: seq<Step>, m: State, step: Step, n: State)
    requires Play(s, steps) == Some(m) && Leads(m, step, n)
    ensures Play(s, steps + [step]) == Some(n)
  {
    hide Enabled, Next;
    PlayNext(s, steps, m, step);
  }

  lemma OpenUntilBuilt(s: State, d: DeviceId, c: ClientId)
    requires d !in s.reg.devices && d !in s.opening
    ensures var t := |s.openers|;
            Play(s, [Open(d, c), Ask(t), OpenPhysical(t, true), CheckFirst(t), Build(t)])
            == Some(Underway(s, d, c, s.lives + [NewLife(s, d, Gated, Local)], Built(|s.resvs|, |s.lives|)))
  {
    hide Enabled, Next, Play, Leads, Underway, NewLife;
    var t, r := |s.openers|, |s.resvs|;
    var s1 := s.(openers := s.openers + [Opener(d, c, Asking)]);
    PlayNone(s);
    AskReserves(s, d, c);
    PlayLed(s, [], s, Open(d, c), s1);
    var s2, p1 := Underway(s, d, c, s.lives, Holding(r)), [] + [Open(d, c)];
    PlayLed(s, p1, s1, Ask(t), s2);
    var s3, p2 := Underway(s, d, c, s.lives, Opened(r)), p1 + [Ask(t)];
    PhysicalOpens(s, d, c);
    PlayLed(s, p2, s2, OpenPhysical(t, true), s3);
    var s4, p3 := Underway(s, d, c, s.lives, Checked(r)), p2 + [OpenPhysical(t, true)];
    FirstCheckPasses(s, d, c);
    PlayLed(s, p3, s3, CheckFirst(t), s4);
    EntryIsBuilt(s, d, c);
    var p4 := p3 + [CheckFirst(t)];
    PlayLed(s, p4, s4, Build(t), Underway(s, d, c, s.lives + [NewLife(s, d, Gated, Local)], Built(r, |s.lives|)));
    assert p4 + [Build(t)] == [Open(d, c), Ask(t), OpenPhysical(t, true), CheckFirst(t), Build(t)];
  }

  lemma PlayNone(s: State)
    ensures Play(s, []) == Some(s)
  {
  }

  /** The daemon once opener `t` has published: as underway, with the session in the tables. */
  function Serving(s: State, d: DeviceId, c: ClientId, reader: Reader, pc: Pc): State {
    Underway(s, d, c, s.lives + [NewLife(s, d, reader, Live)], pc)
      .(reg := Publish(s.reg, d, |s.lives|, |s.openers|, c))
  }

  lemma EntryIsPublished(s: State, d: DeviceId, c: ClientId)
    requires d !in s.reg.devices
    ensures Leads(Underway(s, d, c, s.lives + [NewLife(s, d, Gated, Local)], Built(|s.resvs|, |s.lives|)),
                  PublishEntry(|s.openers|), Serving(s, d, c, Gated, Installed(|s.resvs|, |s.lives|)))
  {
    hide Publish, Refresh;
    SetLast(s.openers, Opener(d, c, Built(|s.resvs|, |s.lives|)), Opener(d, c, Installed(|s.resvs|, |s.lives|)));
    SetLast(s.lives, NewLife(s, d, Gated, Local), NewLife(s, d, Gated, Live));
  }

  lemma GateIsReleased(s: State, d: DeviceId, c: ClientId)
    ensures Leads(Serving(s, d, c, Gated, Installed(|s.resvs|, |s.lives|)), ReleaseGate(|s.openers|),
                  Serving(s, d, c, Reading, Removing(|s.resvs|, true)))
  {
    hide Publish, Refresh;
    SetLast(s.openers, Opener(d, c, Installed(|s.resvs|, |s.lives|)), Opener(d, c, Removing(|s.resvs|, true)));
    SetLast(s.lives, NewLife(s, d, Gated, Live), NewLife(s, d, Reading, Live));
  }

  lemma ReservationGoes(s: State, d: DeviceId, c: ClientId)
    requires d !in s.opening
    ensures Leads(Serving(s, d, c, Reading, Removing(|s.resvs|, true)), Remove(|s.openers|),
                  Serving(s, d, c, Reading, Notifying(|s.resvs|, true)).(opening := s.opening))
  {
    hide Publish, Refresh;
    SetLast(s.openers, Opener(d, c, Removing(|s.resvs|, true)), Opener(d, c, Notifying(|s.resvs|, true)));
    assert s.opening[d := |s.resvs|] - {d} == s.opening;
  }

  /** What the caller of an undisturbed open finds. */
  ghost predicate OpenedBy(s: State, d: DeviceId, c: ClientId, n: State) {
    var t := |s.openers|;
    && n.reg == Publish(s.reg, d, |s.lives|, t, c) && n.opening == s.opening
    && n.lives == s.lives + [NewLife(s, d, Reading, Live)]
    && |n.openers| == t + 1 && n.openers[t] == Opener(d, c, Done(true))
    && |n.resvs| == |s.resvs| + 1 && n.senders == s.senders && n.teardowns == s.teardowns
  }

  lemma WaitersAreNotified(s: State, d: DeviceId, c: ClientId)
    ensures var a := Serving(s, d, c, Reading, Notifying(|s.resvs|, true)).(opening := s.opening);
            Enabled(a, Notify(|s.openers|)) && OpenedBy(s, d, c, Next(a, Notify(|s.openers|)))
  {
    hide Publish, Refresh;
  }

  lemma OpenFromBuilt(s: State, d: DeviceId, c: ClientId, b: State)
    requires d !in s.reg.devices && d !in s.opening
    requires b == Underway(s, d, c, s.lives + [NewLife(s, d, Gated, Local)], Built(|s.resvs|, |s.lives|))
    ensures var t := |s.openers|;
            var played := Play(b, [PublishEntry(t), ReleaseGate(t), Remove(t), Notify(t)]);
            played.Some? && OpenedBy(s, d, c, played.value)
  {
    hide Enabled, Next, Play, Leads, Underway, Serving, NewLife, OpenedBy;
    var t, r := |s.openers|, |s.resvs|;
    PlayNone(b);
    var b1 := Serving(s, d, c, Gated, Installed(r, |s.lives|));
    EntryIsPublished(s, d, c);
    PlayLed(b, [], b, PublishEntry(t), b1);
    var b2, p1 := Serving(s, d, c, Reading, Removing(r, true)), [] + [PublishEntry(t)];
    GateIsReleased(s, d, c);
    PlayLed(b, p1, b1, ReleaseGate(t), b2);
    var b3 := Serving(s, d, c, Reading, Notifying(r, true)).(opening := s.opening);
    var p2 := p1 + [ReleaseGate(t)];
    ReservationGoes(s, d, c);
    PlayLed(b, p2, b2, Remove(t), b3);
    WaitersAreNotified(s, d, c);
    var p3 := p2 + [Remove(t)];
    PlayNext(b, p3, b3, Notify(t));
    assert p3 + [Notify(t)] == [PublishEntry(t), ReleaseGate(t), Remove(t), Notify(t)];
  }

  /** An undisturbed open of an absent device installs a fresh lifetime with a running reader
      and a session of the caller. */
  lemma UndisturbedOpen(s: State, d: DeviceId, c: ClientId)
    requires d !in s.reg.devices && d !in s.opening
    ensures var played := Play(s, OpenSteps(d, c, |s.openers|));
            played.Some? && OpenedBy(s, d, c, played.value)
  {
    hide Publish, Enabled, Next, OpenedBy, NewLife, Underway;
    var t := |s.openers|;
    var first := [Open(d, c), Ask(t), OpenPhysical(t, true), CheckFirst(t), Build(t)];
    var rest := [PublishEntry(t), ReleaseGate(t), Remove(t), Notify(t)];
    var b := Underway(s, d, c, s.lives + [NewLife(s, d, Gated, Local)], Built(|s.resvs|, |s.lives|));
    OpenUntilBuilt(s, d, c);
    OpenFromBuilt(s, d, c, b);
    PlayAppend(s, first, rest, b);
    assert first + rest == OpenSteps(d, c, t);
  }

  /** In step `i` the reader of lifetime 0, no longer installed, takes down device 7 with lifetime
      1 and the session that client 2 has on it. */
  ghost predicate TearsDownSuccessor(run: Run, i: nat) {
    && IsRun(run) && i + 1 < |run.states| && run.steps[i] == ReaderDies(0)
    && var s, n := run.states[i], run.states[i + 1];
       && |s.lives| > 0 && s.lives[0].phase != Live
       && 7 in s.reg.devices && s.reg.devices[7] == 1
       && 1 in s.reg.sessions && s.reg.sessions[1].device == 7 && s.reg.sessions[1].owner == 2
       && 7 !in n.reg.devices && 1 !in n.reg.sessions
  }

  /** Client 1 opens device 7 and closes it; its reader met a read error meanwhile and waits for
      the lock; client 2 opens the device again; then the old reader tears client 2 down. */
  lemma StaleReaderTearsDownSuccessor()
    ensures exists run: Run, i: nat :: TearsDownSuccessor(run, i)
  {
    hide Publish, Close, TearDown, Enabled, Next, TearsDownSuccessor;
    UndisturbedOpen(Initial, 7, 1);
    var m1 := Play(Initial, OpenSteps(7, 1, 0)).value;
    PublishEffect(Empty, 7, 0, 0, 1);
    OnlySessionCloses(m1);
    PlayNext(Initial, OpenSteps(7, 1, 0), m1, CloseSession(7, 0, 1));
    ReopenThenDie(OpenSteps(7, 1, 0) + [CloseSession(7, 0, 1)], Next(m1, CloseSession(7, 0, 1)));
  }

  lemma OnlySessionCloses(m: State)
    requires m.reg.sessions == map[0 := Session(7, 1, NM, AuthHash(0), true, 0, 0)]
    requires m.reg.devices == map[7 := 0]
    requires m.lives == [Life(7, 0, 0, [], true, Reading, Live)]
    ensures Enabled(m, CloseSession(7, 0, 1))
    ensures var n := Next(m, CloseSession(7, 0, 1));
            && n.opening == m.opening && n.openers == m.openers
            && n.reg.sessions == map[] && n.reg.devices == map[]
            && |n.lives| == 1 && n.lives[0].device == 7 && n.lives[0].reader == Reading && n.lives[0].phase != Live
  {
    CloseOnly(m.reg, 7, 0, 1);
    CloseEffect(m.reg, 7, 0, 1);
    hide Close;
  }

  /** Closing the only session closes the device. */
  lemma CloseOnly(r: Registry, d: DeviceId, t: Token, c: ClientId)
    requires r.sessions == map[t := Session(d, c, NM, AuthHash(t), true, 0, 0)]
    ensures Close(r, d, t, c).1.Closed? && Close(r, d, t, c).1.last
  {
  }

  lemma ReopenThenDie(steps1: seq<Step>, m2: State)
    requires Play(Initial, steps1) == Some(m2)
    requires 7 !in m2.reg.devices && 7 !in m2.opening && m2.reg.sessions == map[] && |m2.openers| == 1
    requires |m2.lives| == 1 && m2.lives[0].device == 7 && m2.lives[0].reader == Reading && m2.lives[0].phase != Live
    ensures exists run: Run, i: nat :: TearsDownSuccessor(run, i)
  {
    hide Publish, Close, TearDown, Enabled, Next, Play;
    UndisturbedOpen(m2, 7, 2);
    var m3 := Play(m2, OpenSteps(7, 2, 1)).value;
    PublishEffect(m2.reg, 7, 1, 1, 2);
    PlayAppend(Initial, steps1, OpenSteps(7, 2, 1), m2);
    var steps2 := steps1 + OpenSteps(7, 2, 1);
    OldReaderDies(m3);
    var m4 := Next(m3, ReaderDies(0));
    PlayNext(Initial, steps2, m3, ReaderDies(0));
    PlayIsRun(steps2 + [ReaderDies(0)], m4);
    var run: Run :| IsRun(run) && run.steps == steps2 + [ReaderDies(0)] && run.states[|steps2| + 1] == m4;
    RunFollows(run, steps2, m3);
    assert TearsDownSuccessor(run, |steps2|);
  }

  lemma OldReaderDies(m: State)
    requires |m.lives| > 0 && m.lives[0].device == 7 && m.lives[0].reader == Reading
    requires 7 in m.reg.devices && 1 in m.reg.sessions && m.reg.sessions[1].device == 7
    ensures Enabled(m, ReaderDies(0))
    ensures var n := Next(m, ReaderDies(0)); 7 !in n.reg.devices && 1 !in n.reg.sessions
  {
    hide TearDown, Departed, NonNmOn;
    TearDownEffect(m.reg, 7);
    DeparturesRegistry(SetLife(m, 0, m.lives[0].(reader := Exited)), TearDown(m.reg, 7), EntryOf(m.reg, 7), false,
                       NonNmOn(m.reg, 7));
  }

  lemma DeparturesRegistry(s: State, r: Registry, entry: Option<LifeId>, settleFirst: bool, settle: nat)
    ensures Departed(s, r, entry, settleFirst, settle).reg == r
  {
  }

  lemma {:induction false} RunFollows(run: Run, front: seq<Step>, m: State)
    requires IsRun(run) && |front| < |run.states| && run.steps[..|front|] == front
    requires Play(Initial, front) == Some(m)
    ensures run.states[|front|] == m
    decreases |front|
  {
    hide Enabled, Next;
    if |front| > 0 {
      var k := |front| - 1;
      assert front == front[..k] + [front[k]];
      PlayPrefix(Initial, front[..k], [front[k]]);
      var p := Play(Initial, front[..k]).value;
      assert run.steps[..k] == front[..k];
      RunFollows(run, front[..k], p);
      PlayAppend(Initial, front[..k], [front[k]], p);
      assert [front[k]][1..] == [];
      assert run.steps[k] == front[k];
    }
  }
}
