/** Who holds what is pressed: replaying the effects of a session against the machines they reach. */
module InputOwnership {
  import opened MachineInts
  import opened Wrappers
  import opened ScreenModel
  import opened InputModel
  import opened TopologyRouting
  import CursorRouting
  import opened DesktopSessions

  // ---------- The outside world ----------

  // This machine, the only peer of a legacy session, or a screen of the topology.
  datatype Target = Here | Peer | Screen(id: ScreenId)

  // What has been pressed and not yet released on each target.
  datatype World = World(pressed: map<Target, set<HeldInput>>)
  {
    function On(t: Target): set<HeldInput> {
      if t in pressed then pressed[t] else {}
    }

    function With(t: Target, held: set<HeldInput>): World {
      World(pressed[t := held])
    }

    function Apply(effect: SessionEffect): World {
      match effect
      case InjectLocal(e) => With(Here, Observe(On(Here), e))
      case SendRemote(e) => With(Peer, Observe(On(Peer), e))
      case SendScreen(id, e) => With(Screen(id), Observe(On(Screen(id)), e))
      case ReleasePeer => With(Peer, {})
      case ReleaseScreen(id) => With(Screen(id), {})
      case _ => this
    }
  }

  const IDLE_WORLD: World := World(map[])

  function Replay(w: World, effects: seq<SessionEffect>): World
    decreases effects
  {
    if effects == [] then w else Replay(w.Apply(effects[0]), effects[1..])
  }

  // Nothing is pressed anywhere but on target `t`.
  ghost predicate OnlyOn(w: World, t: Target) {
    forall u :: u != t ==> w.On(u) == {}
  }

  ghost predicate Exclusive(w: World) {
    exists t :: OnlyOn(w, t)
  }

  // After every prefix of the effects at most one target has anything pressed.
  ghost predicate AlwaysExclusive(w: World, effects: seq<SessionEffect>) {
    forall k | 0 <= k <= |effects| :: Exclusive(Replay(w, effects[..k]))
  }

  lemma {:induction false} ReplayConcat(w: World, a: seq<SessionEffect>, b: seq<SessionEffect>)
    ensures Replay(w, a + b) == Replay(Replay(w, a), b)
    decreases a
  {
    if a == [] {
      assert a + b == b;
    } else {
      ReplayConcat(w.Apply(a[0]), a[1..], b);
      assert (a + b)[1..] == a[1..] + b;
    }
  }

  lemma AlwaysExclusiveConcat(w: World, a: seq<SessionEffect>, b: seq<SessionEffect>)
    requires AlwaysExclusive(w, a) && AlwaysExclusive(Replay(w, a), b)
    ensures AlwaysExclusive(w, a + b)
  {
    forall k | 0 <= k <= |a + b| ensures Exclusive(Replay(w, (a + b)[..k])) {
      if k <= |a| {
        assert (a + b)[..k] == a[..k];
      } else {
        assert (a + b)[..k] == a + b[..k - |a|];
        ReplayConcat(w, a, b[..k - |a|]);
      }
    }
  }

  // ---------- Effects that touch a single target ----------

  // The target an effect presses or releases on, if any.
  function Touched(effect: SessionEffect): Option<Target> {
    match effect
    case InjectLocal(_) => Some(Here)
    case SendRemote(_) => Some(Peer)
    case ReleasePeer => Some(Peer)
    case SendScreen(id, _) => Some(Screen(id))
    case ReleaseScreen(id) => Some(Screen(id))
    case _ => None
  }

  predicate TouchOnly(effects: seq<SessionEffect>, t: Target) {
    forall i | 0 <= i < |effects| :: Touched(effects[i]) == None || Touched(effects[i]) == Some(t)
  }

  lemma {:induction false} TouchOnlyFrame(w: World, effects: seq<SessionEffect>, t: Target)
    requires TouchOnly(effects, t)
    ensures forall u :: u != t ==> Replay(w, effects).On(u) == w.On(u)
    decreases effects
  {
    if effects != [] {
      TouchOnlyFrame(w.Apply(effects[0]), effects[1..], t);
    }
  }

  lemma TouchOnlyExclusive(w: World, effects: seq<SessionEffect>, t: Target)
    requires OnlyOn(w, t) && TouchOnly(effects, t)
    ensures AlwaysExclusive(w, effects) && OnlyOn(Replay(w, effects), t)
  {
    TouchOnlyFrame(w, effects, t);
    forall k | 0 <= k <= |effects| ensures Exclusive(Replay(w, effects[..k])) {
      TouchOnlyFrame(w, effects[..k], t);
      assert OnlyOn(Replay(w, effects[..k]), t);
    }
  }

  lemma {:induction false} LocalEventsReplay(w: World, hs: seq<HeldInput>, state: ButtonState)
    requires state != Repeated
    ensures TouchOnly(LocalEvents(hs, state), Here)
    ensures Replay(w, LocalEvents(hs, state)).On(Here)
            == if state == Pressed then w.On(Here) + Elements(hs) else w.On(Here) - Elements(hs)
    decreases hs
  {
    if hs != [] {
      var e := InjectLocal(hs[0].Event(state));
      LocalEventsReplay(w.Apply(e), hs[1..], state);
      assert ([e] + LocalEvents(hs[1..], state))[1..] == LocalEvents(hs[1..], state);
      assert Elements(hs) == {hs[0]} + Elements(hs[1..]);
    }
  }

  function TargetOf(dest: Option<ScreenId>): Target {
    if dest.Some? then Screen(dest.value) else Peer
  }

  lemma {:induction false} RemotePressesReplay(w: World, dest: Option<ScreenId>, hs: seq<HeldInput>)
    ensures TouchOnly(RemotePresses(dest, hs), TargetOf(dest))
    ensures Replay(w, RemotePresses(dest, hs)).On(TargetOf(dest)) == w.On(TargetOf(dest)) + Elements(hs)
    decreases hs
  {
    if hs != [] {
      var e := SendTo(dest, hs[0].Event(Pressed));
      RemotePressesReplay(w.Apply(e), dest, hs[1..]);
      assert ([e] + RemotePresses(dest, hs[1..]))[1..] == RemotePresses(dest, hs[1..]);
      assert Elements(hs) == {hs[0]} + Elements(hs[1..]);
    }
  }

  // ---------- What a session claims about the world ----------

  // The target that holds what the session has injected remotely.
  function Holder(s: SessionState): Target {
    match s.routing
    case NoRouting => Here
    case LegacyRouting(c) => if c.active.LocalScreen? then Here else Peer
    case ScreenRouting(r, localScreen) => if r.active == localScreen then Here else Screen(r.active)
  }

  // The world is `local` here, `remote` on `t` and empty elsewhere; a target here has no remote part.
  ghost predicate Shows(w: World, local: set<HeldInput>, t: Target, remote: set<HeldInput>) {
    && w.On(Here) == local
    && forall u :: u != Here ==> w.On(u) == if u == t then remote else {}
  }

  ghost predicate Mirrors(w: World, s: SessionState) {
    Shows(w, s.localInjected, Holder(s), s.remoteInjected)
  }

  // Control agrees with the cursor, and the side without control holds nothing.
  predicate Consistent(s: SessionState) {
    && s.Valid()
    && s.role.Host? && !s.routing.NoRouting?
    && (s.control.LocalControl? <==> Holder(s) == Here)
    && (Holder(s) == Here ==> s.remoteInjected == {})
    && (Holder(s) != Here ==> s.localInjected == {})
  }

  // Only what is physically held is ever injected.
  predicate Bounded(s: SessionState) {
    s.localInjected <= s.physicalHeld && s.remoteInjected <= s.physicalHeld
  }

  function Injected(s: SessionState): set<HeldInput> {
    s.localInjected + s.remoteInjected
  }

  // ---------- The two transfers ----------

  // Effects that press nothing do not show in the replay.
  lemma QuietEnds(w: World, first: SessionEffect, middle: seq<SessionEffect>, tail: seq<SessionEffect>)
    requires Touched(first).None? && (tail == [] || (|tail| == 1 && Touched(tail[0]).None?))
    ensures Replay(w, [first] + middle + tail) == Replay(w, middle)
  {
    ReplayConcat(w, [first], middle);
    ReplayConcat(w, [first] + middle, tail);
  }

  // Releasing the remote side, or a side that holds nothing, leaves only this machine.
  lemma ReleaseClears(w: World, local: set<HeldInput>, t: Target, remote: set<HeldInput>, release: SessionEffect)
    requires Shows(w, local, t, remote) && (t == Here || (local == {} && Touched(release) == Some(t)))
    requires release.ReleaseScreen? || release.ReleasePeer?
    ensures Shows(w.Apply(release), local, Here, {}) && AlwaysExclusive(w, [release])
  {
    var w1 := w.Apply(release);
    assert forall u :: w1.On(u) == if Touched(release) == Some(u) then {} else w.On(u);
    assert OnlyOn(w, t) && OnlyOn(w1, Here);
    assert Replay(w, [release]) == w1;
    assert [release][..0] == [] && [release][..1] == [release];
  }

  lemma ComeHomeShows(w: World, s: SessionState, t: Target, release: SessionEffect, x: I32, y: I32)
    requires Shows(w, s.localInjected, t, s.remoteInjected)
    requires t == Here || (s.localInjected == {} && Touched(release) == Some(t))
    requires release.ReleaseScreen? || release.ReleasePeer?
    ensures var (s', effects) := s.ComeHome(release, x, y);
            Shows(Replay(w, effects), s'.localInjected, Here, {}) && AlwaysExclusive(w, effects)
  {
    var w1 := w.Apply(release);
    var presses := LocalEvents(Ordered(s.physicalHeld), Pressed);
    var rest := [SetLocalCursor(x, y)] + presses + [ControlChanged(LocalControl)];
    ReleaseClears(w, s.localInjected, t, s.remoteInjected, release);
    OrderedElements(s.physicalHeld);
    LocalEventsReplay(w1, Ordered(s.physicalHeld), Pressed);
    hide World.Apply, Ordered, LocalEvents, Exclusive;
    assert Elements(Ordered(s.physicalHeld)) == s.physicalHeld;
    assert OnlyOn(w1, Here) && TouchOnly(rest, Here);
    TouchOnlyExclusive(w1, rest, Here);
    QuietEnds(w1, SetLocalCursor(x, y), presses, [ControlChanged(LocalControl)]);
    assert Replay(w, [release]) == w1;
    AlwaysExclusiveConcat(w, [release], rest);
    ReplayConcat(w, [release], rest);
    assert s.ComeHome(release, x, y).1 == [release] + rest;
  }

  // Entering a destination while nothing is pressed anywhere presses there all that is held.
  lemma ArrivalShows(w: World, held: set<HeldInput>, dest: Option<ScreenId>, x: I32, y: I32, tail: seq<SessionEffect>)
    requires Shows(w, {}, Here, {}) && (tail == [] || (|tail| == 1 && Touched(tail[0]).None?))
    ensures var rest := [EnterAt(dest, x, y)] + RemotePresses(dest, Ordered(held)) + tail;
            Shows(Replay(w, rest), {}, TargetOf(dest), held) && AlwaysExclusive(w, rest)
  {
    var presses, d := RemotePresses(dest, Ordered(held)), TargetOf(dest);
    OrderedElements(held);
    RemotePressesReplay(w, dest, Ordered(held));
    hide World.Apply, Ordered, RemotePresses, Exclusive;
    assert Elements(Ordered(held)) == held;
    var rest := [EnterAt(dest, x, y)] + presses + tail;
    assert OnlyOn(w, d) && TouchOnly(rest, d);
    TouchOnlyExclusive(w, rest, d);
    QuietEnds(w, EnterAt(dest, x, y), presses, tail);
  }

  lemma DepartureClears(w: World, s: SessionState, previous: Option<ScreenId>, t: Target)
    requires Shows(w, s.localInjected, t, s.remoteInjected)
    requires t != Here ==> previous.Some? && t == Screen(previous.value) && s.localInjected == {}
    ensures var releases := if t == Here then LocalEvents(Ordered(s.localInjected), Released)
            else [ReleaseScreen(previous.value)];
            Shows(Replay(w, releases), {}, Here, {}) && AlwaysExclusive(w, releases)
  {
    if t == Here {
      LocalReleasesClear(w, s.localInjected);
    } else {
      ReleaseClears(w, {}, t, s.remoteInjected, ReleaseScreen(previous.value));
      assert Replay(w, [ReleaseScreen(previous.value)]) == w.Apply(ReleaseScreen(previous.value));
    }
  }

  lemma GoOutShows(w: World, s: SessionState, previous: Option<ScreenId>, t: Target, dest: Option<ScreenId>, x: I32,
                   y: I32)
    requires Shows(w, s.localInjected, t, s.remoteInjected)
    requires t == Here ==> !(previous.Some? && s.control == RemoteControl) && s.remoteInjected == {}
    requires t != Here ==>
               previous.Some? && s.control == RemoteControl && t == Screen(previous.value) && s.localInjected == {}
    ensures var (s', effects) := s.GoOut(previous, dest, x, y);
            && s'.localInjected == {} && s'.remoteInjected == s.physicalHeld
            && Shows(Replay(w, effects), {}, TargetOf(dest), s'.remoteInjected) && AlwaysExclusive(w, effects)
  {
    var releases := if t == Here then LocalEvents(Ordered(s.localInjected), Released)
        else [ReleaseScreen(previous.value)];
    var tail := if t == Here then [ControlChanged(RemoteControl)] else [];
    var rest := [EnterAt(dest, x, y)] + RemotePresses(dest, Ordered(s.physicalHeld)) + tail;
    assert s.GoOut(previous, dest, x, y).1 == releases + rest;
    hide Ordered, LocalEvents, RemotePresses, AlwaysExclusive, Shows;
    DepartureClears(w, s, previous, t);
    ArrivalShows(Replay(w, releases), s.physicalHeld, dest, x, y, tail);
    AlwaysExclusiveConcat(w, releases, rest);
    ReplayConcat(w, releases, rest);
  }

  lemma LocalReleasesClear(w: World, local: set<HeldInput>)
    requires Shows(w, local, Here, {})
    ensures var releases := LocalEvents(Ordered(local), Released);
            Shows(Replay(w, releases), {}, Here, {}) && AlwaysExclusive(w, releases)
  {
    OrderedElements(local);
    LocalEventsReplay(w, Ordered(local), Released);
    assert OnlyOn(w, Here);
    TouchOnlyExclusive(w, LocalEvents(Ordered(local), Released), Here);
    hide Ordered, LocalEvents;
    assert Elements(Ordered(local)) == local;
  }

  // ---------- One event of a host session ----------

  datatype HostEvent =
    | Handle(event: SessionEvent)
    | Replace(topology: ScreenTopology)

  // Everything but injected input from elsewhere, which only clients receive.
  predicate HostSide(ev: HostEvent) {
    ev.Handle? ==> !ev.event.InputArrived?
  }

  // A rejected topology has no effects and changes nothing.
  function Step(s: SessionState, ev: HostEvent): (SessionState, seq<SessionEffect>)
    requires s.Valid()
  {
    match ev
    case Handle(event) => s.Handle(event)
    case Replace(t) => if s.ReplaceTopology(t).Success? then s.ReplaceTopology(t).value else (s, [])
  }

  // What holds of the world and the session after a step that had these effects.
  ghost predicate Faithful(w: World, s: SessionState, effects: seq<SessionEffect>) {
    && Mirrors(Replay(w, effects), s)
    && AlwaysExclusive(w, effects)
    && Consistent(s) && Bounded(s)
  }

  lemma NoEffectsFaithful(w: World, s: SessionState, s': SessionState, effects: seq<SessionEffect>)
    requires Mirrors(w, s) && Consistent(s) && Bounded(s)
    requires forall i | 0 <= i < |effects| :: Touched(effects[i]).None?
    requires s'.Valid() && Holder(s') == Holder(s) && s' == s.(routing := s'.routing, lastMotion := s'.lastMotion)
    requires !s'.routing.NoRouting?
    ensures Faithful(w, s', effects)
  {
    assert OnlyOn(w, Holder(s));
    TouchOnlyExclusive(w, effects, Holder(s));
    UntouchedReplay(w, effects);
  }

  lemma {:induction false} UntouchedReplay(w: World, effects: seq<SessionEffect>)
    requires forall i | 0 <= i < |effects| :: Touched(effects[i]).None?
    ensures Replay(w, effects) == w
    decreases effects
  {
    if effects != [] {
      UntouchedReplay(w.Apply(effects[0]), effects[1..]);
    }
  }

  lemma InputFaithful(w: World, s: SessionState, e: InputEvent)
    requires Mirrors(w, s) && Consistent(s) && Bounded(s)
    ensures var (s', effects) := s.AfterInput(e); Faithful(w, s', effects)
  {
    var (s', effects) := s.AfterInput(e);
    if effects == [] {
      NoEffectsFaithful(w, s, s', effects);
    } else {
      assert Replay(w, effects) == w.Apply(effects[0]);
      assert Touched(effects[0]) == Some(Holder(s)) && OnlyOn(w, Holder(s));
      TouchOnlyExclusive(w, effects, Holder(s));
    }
  }

  lemma ReleaseFaithful(w: World, s: SessionState)
    requires Mirrors(w, s) && Consistent(s) && Bounded(s)
    ensures var (s', effects) := s.AfterRelease();
            Faithful(w, s', effects) && s'.localInjected == {} && s'.remoteInjected == {}
  {
    var (s', effects) := s.AfterRelease();
    var releases := LocalEvents(Ordered(s.localInjected), Released);
    if Holder(s) == Here {
      LocalReleasesClear(w, s.localInjected);
      assert effects == releases;
    } else {
      assert releases == [];
      if s.remoteInjected == {} {
        NoEffectsFaithful(w, s, s, []);
        assert effects == [];
      } else {
        var release := ReleaseAt(s.ActiveRemote());
        ReleaseClears(w, {}, Holder(s), s.remoteInjected, release);
        assert effects == [release] && Replay(w, effects) == w.Apply(release);
      }
    }
  }

  lemma LegacyMotionFaithful(w: World, s: SessionState, m: Motion)
    requires Mirrors(w, s) && Consistent(s) && Bounded(s) && s.routing.LegacyRouting?
    ensures var (s', effects) := s.AfterMotion(m); Faithful(w, s', effects)
  {
    var (s', effects) := s.AfterMotion(m);
    var (route, cursor) := s.routing.cursor.Route(m.dx, m.dy);
    var moved := s.(routing := LegacyRouting(cursor));
    match route
    case LocalMotion(_, _) => NoEffectsFaithful(w, s, s', effects);
    case RemoteMotion(_, _) => NoEffectsFaithful(w, s, s', effects);
    case EnterRemote(x, y) => GoOutShows(w, moved, None, Holder(s), None, x, y);
    case EnterLocal(x, y) => ComeHomeShows(w, moved, Holder(s), ReleasePeer, x, y);
  }

  lemma ScreenMotionFaithful(w: World, s: SessionState, m: Motion)
    requires Mirrors(w, s) && Consistent(s) && Bounded(s) && s.routing.ScreenRouting?
    ensures var (s', effects) := s.AfterMotion(m); Faithful(w, s', effects)
  {
    var (s', effects) := s.AfterMotion(m);
    var router, localScreen := s.routing.router, s.routing.localScreen;
    RouteStaysPlaced(router, m.dx, m.dy, Some(m.timestamp));
    var (route, router') := router.Route(m.dx, m.dy, Some(m.timestamp));
    var moved := s.(routing := ScreenRouting(router', localScreen));
    match route
    case Stay(id, _, _) => NoEffectsFaithful(w, s, s', effects);
    case Cross(id, x, y) =>
      if id == localScreen {
        ComeHomeShows(w, moved, Holder(s), ReleaseScreen(router.active), x, y);
      } else {
        GoOutShows(w, moved, Some(router.active), Holder(s), Some(id), x, y);
      }
  }

  lemma ReplaceFaithful(w: World, s: SessionState, t: ScreenTopology)
    requires Mirrors(w, s) && Consistent(s) && Bounded(s) && s.ReplaceTopology(t).Success?
    ensures var (s', effects) := s.ReplaceTopology(t).value; Faithful(w, s', effects)
  {
    var (s', effects) := s.ReplaceTopology(t).value;
    var router, localScreen := s.routing.router, s.routing.localScreen;
    if router.active == localScreen || Routable(t, router.active) {
      NoEffectsFaithful(w, s, s', effects);
    } else {
      var size := FindOnline(t.screens, localScreen).value.EffectiveSize();
      var moved := s.(routing := s'.routing);
      ComeHomeShows(w, moved, Holder(s), ReleaseScreen(router.active), size.width / 2, size.height / 2);
    }
  }

  /** One host event: if the world is what the session believes, then it still is after the event's
      effects, no two targets ever held something at once, and only held inputs are injected. */
  lemma StepFaithful(w: World, s: SessionState, ev: HostEvent)
    requires Mirrors(w, s) && Consistent(s) && Bounded(s) && HostSide(ev)
    ensures var (s', effects) := Step(s, ev); Faithful(w, s', effects)
  {
    var (s', effects) := Step(s, ev);
    match ev
    case Handle(PhysicalInput(e)) => InputFaithful(w, s, e);
    case Handle(PhysicalMotion(m)) =>
      if s.routing.LegacyRouting? {
        LegacyMotionFaithful(w, s, m);
      } else {
        ScreenMotionFaithful(w, s, m);
      }
    case Handle(MotionArrived(_)) => NoEffectsFaithful(w, s, s', effects);
    case Handle(EnterArrived(_, _)) => NoEffectsFaithful(w, s, s', effects);
    case Handle(_) => ReleaseFaithful(w, s);
    case Replace(t) =>
      if s.ReplaceTopology(t).Success? {
        ReplaceFaithful(w, s, t);
      } else {
        NoEffectsFaithful(w, s, s', effects);
      }
  }
}
