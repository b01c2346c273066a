/** Whole runs of a host session: nothing is ever stuck, shared or sent to a screen that is offline. */
module OwnershipRuns {
  import opened MachineInts
  import opened Wrappers
  import opened ScreenModel
  import opened InputModel
  import opened TopologyRouting
  import opened EdgeBarriers
  import CursorRouting
  import RouterGeometry
  import opened DesktopSessions
  import opened InputOwnership

  function StateAt(s: SessionState, evs: seq<HostEvent>, n: nat): (s': SessionState)
    requires s.Valid() && n <= |evs|
    ensures s'.Valid()
  {
    if n == 0 then s
    else
      StepStaysValid(StateAt(s, evs, n - 1), evs[n - 1]);
      Step(StateAt(s, evs, n - 1), evs[n - 1]).0
  }

  lemma StepStaysValid(s: SessionState, ev: HostEvent)
    requires s.Valid()
    ensures Step(s, ev).0.Valid()
  {
  }

  // All the effects of the first `n` events, in order.
  function EffectsUpTo(s: SessionState, evs: seq<HostEvent>, n: nat): seq<SessionEffect>
    requires s.Valid() && n <= |evs|
  {
    if n == 0 then [] else EffectsUpTo(s, evs, n - 1) + Step(StateAt(s, evs, n - 1), evs[n - 1]).1
  }

  // A host session as it is opened: local control, nothing held.
  predicate Initial(s: SessionState) {
    && s.Valid() && s.role.Host? && s.control.LocalControl?
    && s.physicalHeld == s.localInjected == s.remoteInjected == {}
    && match s.routing
       case NoRouting => false
       case LegacyRouting(c) => c.active.LocalScreen?
       case ScreenRouting(r, localScreen) => ValidTopology(r.topology) && r.active == localScreen
  }

  lemma OpenedIsInitial(t: ScreenTopology, localScreen: ScreenId, x: I32, y: I32)
    requires Opened(t, localScreen, x, y).Success?
    ensures Initial(NewTopologyHost(Opened(t, localScreen, x, y).value))
  {
    CheckTopologyExact(t);
  }

  // Placing the cursor before the first event is still the beginning of a run.
  lemma PositionedIsInitial(s: SessionState, x: I32, y: I32)
    requires Initial(s)
    ensures Initial(s.AtLocalPosition(x, y))
  {
  }

  /** Ownership by replay: for every run of host events, folding all effects so far gives exactly the
      local injected set here, the remote injected set on the active remote target and nothing anywhere
      else; and after no single effect of the whole run were two targets holding inputs at once. */
  lemma {:induction false} OwnershipByReplay(s: SessionState, evs: seq<HostEvent>, n: nat)
    requires Initial(s) && n <= |evs| && forall i | 0 <= i < |evs| :: HostSide(evs[i])
    ensures Faithful(IDLE_WORLD, StateAt(s, evs, n), EffectsUpTo(s, evs, n))
  {
    if n == 0 {
      assert OnlyOn(IDLE_WORLD, Here);
      TouchOnlyExclusive(IDLE_WORLD, [], Here);
    } else {
      OwnershipByReplay(s, evs, n - 1);
      var before, w := EffectsUpTo(s, evs, n - 1), Replay(IDLE_WORLD, EffectsUpTo(s, evs, n - 1));
      var current := StateAt(s, evs, n - 1);
      StepFaithful(w, current, evs[n - 1]);
      hide Mirrors, AlwaysExclusive, Consistent, Bounded, Step, HostSide;
      AlwaysExclusiveConcat(IDLE_WORLD, before, Step(current, evs[n - 1]).1);
      ReplayConcat(IDLE_WORLD, before, Step(current, evs[n - 1]).1);
    }
  }

  predicate IsRelease(ev: HostEvent) {
    ev.Handle? && (ev.event.ReleaseRequested? || ev.event.PeerDisconnected? || ev.event.StopRequested?)
  }

  /** After a release event nothing is pressed anywhere, whatever happened before it. */
  lemma ReleaseEmptiesTheWorld(s: SessionState, evs: seq<HostEvent>)
    requires Initial(s) && forall i | 0 <= i < |evs| :: HostSide(evs[i])
    requires evs != [] && IsRelease(evs[|evs| - 1])
    ensures forall t :: Replay(IDLE_WORLD, EffectsUpTo(s, evs, |evs|)).On(t) == {}
  {
    hide AlwaysExclusive, Bounded, Step, Consistent, HostSide;
    var n := |evs| - 1;
    OwnershipByReplay(s, evs, n);
    OwnershipByReplay(s, evs, n + 1);
    ReleaseClearsSession(StateAt(s, evs, n), evs[n]);
  }

  lemma ReleaseClearsSession(s: SessionState, ev: HostEvent)
    requires Consistent(s) && IsRelease(ev)
    ensures Step(s, ev).0.localInjected == {} && Step(s, ev).0.remoteInjected == {}
  {
  }

  // ---------- Injected inputs follow the held ones ----------

  // The effects of a crossing, or of losing the active screen.
  predicate Transfers(effects: seq<SessionEffect>) {
    exists i | 0 <= i < |effects| :: effects[i].ControlChanged? || effects[i].EnterScreen?
  }

  // No release event since the start or since the last transfer.
  predicate InSync(s: SessionState, evs: seq<HostEvent>, n: nat)
    requires s.Valid() && n <= |evs|
  {
    n == 0 || (!IsRelease(evs[n - 1])
               && (InSync(s, evs, n - 1) || Transfers(Step(StateAt(s, evs, n - 1), evs[n - 1]).1)))
  }

  lemma StepSync(s: SessionState, ev: HostEvent)
    requires Consistent(s) && Bounded(s) && HostSide(ev) && !IsRelease(ev)
    requires Injected(s) == s.physicalHeld || Transfers(Step(s, ev).1)
    ensures Injected(Step(s, ev).0) == Step(s, ev).0.physicalHeld
  {
    if ev.Handle? && ev.event.PhysicalMotion? {
      MotionSync(s, ev.event.motion);
    } else if ev.Replace? && s.ReplaceTopology(ev.topology).Success? {
      ReplaceSync(s, ev.topology);
    }
    hide SessionState.AfterMotion, SessionState.ReplaceTopology;
  }

  // A motion changes nothing, or transfers everything that is held.
  lemma MotionSync(s: SessionState, m: Motion)
    requires Consistent(s) && Bounded(s)
    requires Injected(s) == s.physicalHeld || Transfers(s.AfterMotion(m).1)
    ensures Injected(s.AfterMotion(m).0) == s.AfterMotion(m).0.physicalHeld
  {
    hide Ordered, LocalEvents, RemotePresses, CursorRouting.CursorState.Route, RouterState.Route;
  }

  lemma ReplaceSync(s: SessionState, t: ScreenTopology)
    requires Consistent(s) && Bounded(s) && s.ReplaceTopology(t).Success?
    requires Injected(s) == s.physicalHeld || Transfers(s.ReplaceTopology(t).value.1)
    ensures Injected(s.ReplaceTopology(t).value.0) == s.ReplaceTopology(t).value.0.physicalHeld
  {
    hide Ordered, LocalEvents, CheckTopology, Routable;
  }

  /** Until a release event, and again after every transfer, exactly what is physically held is injected. */
  lemma {:induction false} InjectedEqualsHeld(s: SessionState, evs: seq<HostEvent>, n: nat)
    requires Initial(s) && n <= |evs| && forall i | 0 <= i < |evs| :: HostSide(evs[i])
    requires InSync(s, evs, n)
    ensures Injected(StateAt(s, evs, n)) == StateAt(s, evs, n).physicalHeld
  {
    hide Mirrors, AlwaysExclusive, Consistent, Bounded, Step, HostSide, Transfers, IsRelease;
    if n > 0 {
      OwnershipByReplay(s, evs, n - 1);
      if InSync(s, evs, n - 1) {
        InjectedEqualsHeld(s, evs, n - 1);
      }
      StepSync(StateAt(s, evs, n - 1), evs[n - 1]);
    }
  }

  // ---------- Never routed to an offline screen ----------

  // The topology lists the screen as online, and one of its links has an end on that screen.
  predicate OnlineAndLinked(t: ScreenTopology, id: ScreenId) {
    && (exists n :: n in t.screens && n.screenId == id && n.online)
    && exists l :: l in t.links && (l.from.screenId == id || l.to.screenId == id)
  }

  // That is what decides whether a screen can keep control.
  lemma RoutableExact(t: ScreenTopology, id: ScreenId)
    requires ValidTopology(t)
    ensures Routable(t, id) <==> OnlineAndLinked(t, id)
  {
    hide ValidLinks, Blank;
    FindScreenExact(t.screens, id);
    forall n | n in t.screens && n.screenId == id ensures FindScreen(t.screens, id) == Some(n) {
      var i :| 0 <= i < |t.screens| && t.screens[i] == n;
      FindsItself(t.screens, i);
    }
    hide ValidTopology, FindScreen, DistinctIds;
    if i :| 0 <= i < |t.links| && TouchesScreen(t.links[i], id) {
      assert t.links[i] in t.links;
    }
    if l :| l in t.links && (l.from.screenId == id || l.to.screenId == id) {
      var i :| 0 <= i < |t.links| && t.links[i] == l;
      assert TouchesScreen(t.links[i], id);
    }
  }

  // The topology in force is valid, and a remote active screen is online and linked in it.
  predicate RoutesOnline(s: SessionState) {
    s.routing.ScreenRouting? ==>
      var r := s.routing.router;
      ValidTopology(r.topology) && (r.active != s.routing.localScreen ==> Routable(r.topology, r.active))
  }

  // An effect that reaches for a screen reaches for the active remote one, which is online.
  predicate ReachesOnline(s: SessionState, effect: SessionEffect) {
    effect.SendScreen? || effect.SendScreenMotion? || effect.EnterScreen? ==>
      && s.ActiveRemote() == Some(effect.screenId)
      && IsOnline(s.routing.router.topology, effect.screenId)
  }

  lemma LinkedTargetIsRoutable(t: ScreenTopology, active: ScreenId, e: Edge)
    requires LinkedEdge(t, active, e).Some?
    ensures Routable(t, LinkedEdge(t, active, e).value.screenId)
  {
    var p := LinkedEdge(t, active, e).value;
    FindPeerExact(t, t.links, ScreenEdge(active, e));
    var link :| link in t.links && PeerOf(t, link, ScreenEdge(active, e)) == Some(p);
    var i :| 0 <= i < |t.links| && t.links[i] == link;
    assert TouchesScreen(t.links[i], p.screenId);
  }

  lemma RouteKeepsRoutable(r: RouterState, dx: I32, dy: I32, now: Option<U64>)
    requires r.Placed()
    ensures var (route, next) := r.Route(dx, dy, now);
            && next.topology == r.topology && next.active == route.screenId
            && (if route.Cross? then Routable(r.topology, next.active) else next.active == r.active)
  {
    if r.Linked(r.Pushed(dx, dy)) {
      LinkedTargetIsRoutable(r.topology, r.active, r.Pushed(dx, dy).value);
    }
    hide Routable, RouterState.Pushed, RouterState.Reached, ScaleAxis;
  }

  lemma {:induction false} PressesReachOne(dest: Option<ScreenId>, hs: seq<HeldInput>)
    ensures forall i | 0 <= i < |RemotePresses(dest, hs)| ::
              RemotePresses(dest, hs)[i].SendRemote?
              || (dest.Some? && RemotePresses(dest, hs)[i].SendScreen?
                  && RemotePresses(dest, hs)[i].screenId == dest.value)
  {
    if hs != [] {
      PressesReachOne(dest, hs[1..]);
    }
  }

  lemma {:induction false} LocalEventsStayHere(hs: seq<HeldInput>, state: ButtonState)
    ensures forall i | 0 <= i < |LocalEvents(hs, state)| :: LocalEvents(hs, state)[i].InjectLocal?
  {
    if hs != [] {
      LocalEventsStayHere(hs[1..], state);
    }
  }

  ghost predicate AllReachOnline(s: SessionState, effects: seq<SessionEffect>) {
    forall i | 0 <= i < |effects| :: ReachesOnline(s, effects[i])
  }

  lemma ComeHomeReaches(s: SessionState, release: SessionEffect, x: I32, y: I32)
    requires release.ReleaseScreen? || release.ReleasePeer?
    ensures AllReachOnline(s.ComeHome(release, x, y).0, s.ComeHome(release, x, y).1)
  {
    LocalEventsStayHere(Ordered(s.physicalHeld), Pressed);
    hide Ordered, LocalEvents;
  }

  lemma GoOutReaches(s: SessionState, previous: Option<ScreenId>, dest: Option<ScreenId>, x: I32, y: I32)
    requires dest.Some? ==> s.ActiveRemote() == dest && IsOnline(s.routing.router.topology, dest.value)
    ensures AllReachOnline(s.GoOut(previous, dest, x, y).0, s.GoOut(previous, dest, x, y).1)
  {
    LocalEventsStayHere(Ordered(s.localInjected), Released);
    PressesReachOne(dest, Ordered(s.physicalHeld));
    hide Ordered, LocalEvents, RemotePresses;
  }

  lemma MotionReachesOnline(s: SessionState, m: Motion)
    requires Consistent(s) && RoutesOnline(s)
    ensures var (s', effects) := s.AfterMotion(m);
            RoutesOnline(s') && AllReachOnline(s', effects)
  {
    if s.routing.LegacyRouting? {
      var (route, cursor) := s.routing.cursor.Route(m.dx, m.dy);
      var moved := s.(routing := LegacyRouting(cursor));
      if route.EnterRemote? {
        GoOutReaches(moved, None, None, route.x, route.y);
      } else if route.EnterLocal? {
        ComeHomeReaches(moved, ReleasePeer, route.x, route.y);
      }
    } else {
      var router, localScreen := s.routing.router, s.routing.localScreen;
      RouteKeepsRoutable(router, m.dx, m.dy, Some(m.timestamp));
      var (route, router') := router.Route(m.dx, m.dy, Some(m.timestamp));
      var moved := s.(routing := ScreenRouting(router', localScreen));
      if route.Cross? {
        ComeHomeReaches(moved, ReleaseScreen(router.active), route.x, route.y);
        if route.screenId != localScreen {
          GoOutReaches(moved, Some(router.active), Some(route.screenId), route.x, route.y);
        }
      }
    }
    hide ValidTopology, RouterState.Route, CursorRouting.CursorState.Route, SessionState.ComeHome, SessionState.GoOut;
  }

  lemma ReplaceReachesOnline(s: SessionState, t: ScreenTopology)
    requires Consistent(s) && s.ReplaceTopology(t).Success?
    ensures var (s', effects) := s.ReplaceTopology(t).value;
            RoutesOnline(s') && AllReachOnline(s', effects)
  {
    CheckTopologyExact(t);
    var router, localScreen := s.routing.router, s.routing.localScreen;
    if router.active != localScreen && !Routable(t, router.active) {
      var size := FindOnline(t.screens, localScreen).value.EffectiveSize();
      ComeHomeReaches(s.(routing := s.ReplaceTopology(t).value.0.routing), ReleaseScreen(router.active),
          size.width / 2, size.height / 2);
    }
    hide ValidTopology, SessionState.ComeHome, Routable;
  }

  /** Every event keeps the active remote screen online and linked, and no effect reaches for any
      screen but that one. */
  lemma StepReachesOnline(s: SessionState, ev: HostEvent)
    requires Consistent(s) && RoutesOnline(s) && HostSide(ev)
    ensures var (s', effects) := Step(s, ev);
            RoutesOnline(s') && AllReachOnline(s', effects)
  {
    hide ValidTopology, Ordered, LocalEvents, SessionState.ReplaceTopology, SessionState.AfterMotion;
    LocalEventsStayHere(Ordered(s.localInjected), Released);
    if ev.Replace? {
      if s.ReplaceTopology(ev.topology).Success? {
        ReplaceReachesOnline(s, ev.topology);
      }
    } else if ev.event.PhysicalMotion? {
      MotionReachesOnline(s, ev.event.motion);
    }
  }

  /** In every reachable state control is local exactly while the cursor is on the local screen, and a
      remote active screen is online and linked in the topology in force. */
  lemma NeverRoutedOffline(s: SessionState, evs: seq<HostEvent>, n: nat)
    requires Initial(s) && n <= |evs| && forall i | 0 <= i < |evs| :: HostSide(evs[i])
    ensures var s' := StateAt(s, evs, n);
            && RoutesOnline(s')
            && (s'.control.LocalControl? <==> Holder(s') == Here)
            && (s'.control.RemoteControl? && s'.routing.ScreenRouting? ==>
                  OnlineAndLinked(s'.routing.router.topology, s'.routing.router.active))
  {
    OwnershipByReplay(s, evs, n);
    RoutesStayOnline(s, evs, n);
    var s' := StateAt(s, evs, n);
    if s'.control.RemoteControl? && s'.routing.ScreenRouting? {
      RoutableExact(s'.routing.router.topology, s'.routing.router.active);
    }
    hide OnlineAndLinked, Mirrors, AlwaysExclusive, Bounded, ValidTopology, Routable, StateAt;
  }

  lemma {:induction false} RoutesStayOnline(s: SessionState, evs: seq<HostEvent>, n: nat)
    requires Initial(s) && n <= |evs| && forall i | 0 <= i < |evs| :: HostSide(evs[i])
    ensures RoutesOnline(StateAt(s, evs, n))
  {
    hide Mirrors, AlwaysExclusive, Bounded, Consistent, Step, HostSide, AllReachOnline;
    if n > 0 {
      OwnershipByReplay(s, evs, n - 1);
      RoutesStayOnline(s, evs, n - 1);
      StepReachesOnline(StateAt(s, evs, n - 1), evs[n - 1]);
    }
  }

  // The topology is valid, still contains the active screen, and either that screen is local or still
  // routable, or an online local screen is there to fall back to.
  predicate CanFollow(s: SessionState, t: ScreenTopology)
    requires s.routing.ScreenRouting?
  {
    var active, localScreen := s.routing.router.active, s.routing.localScreen;
    && ValidTopology(t) && Knows(t, active)
    && (active == localScreen || OnlineAndLinked(t, active) || IsOnline(t, localScreen))
  }

  /** Exactly the topologies that can be followed are accepted; a rejected one changes nothing. */
  lemma ReplaceAcceptedExactly(s: SessionState, t: ScreenTopology)
    requires s.routing.ScreenRouting?
    ensures s.ReplaceTopology(t).Success? <==> CanFollow(s, t)
    ensures s.Valid() && s.ReplaceTopology(t).Failure? ==> Step(s, Replace(t)) == (s, [])
  {
    CheckTopologyExact(t);
    if ValidTopology(t) {
      RoutableExact(t, s.routing.router.active);
      FindOnlineExact(t, s.routing.localScreen);
    }
    if FindOnline(t.screens, s.routing.localScreen).Some? {
      FoundOnlineIsKnown(t, s.routing.localScreen);
    }
    hide ValidTopology, Routable, OnlineAndLinked;
  }

  /** Of the topologies that are followed, those in which the remote screen with the cursor is online and
      has a link keep control remote and have no effects; all others bring it home. */
  lemma RemoteControlKept(s: SessionState, t: ScreenTopology)
    requires Consistent(s) && s.routing.ScreenRouting? && s.control.RemoteControl?
    requires s.ReplaceTopology(t).Success?
    ensures var (s', effects) := s.ReplaceTopology(t).value;
            var active := s.routing.router.active;
            var kept := (exists n :: n in t.screens && n.screenId == active && n.online)
                && (exists l :: l in t.links && (l.from.screenId == active || l.to.screenId == active));
            && (s'.control.RemoteControl? <==> kept)
            && (effects == [] <==> kept)
            && Holder(s') == if kept then Holder(s) else Here
  {
    CheckTopologyExact(t);
    RoutableExact(t, s.routing.router.active);
    hide Routable, ValidTopology, CheckTopology, LocalEvents, Ordered;
  }

  /** When a valid topology no longer routes to the active remote screen, control comes home, to the
      middle of an online local screen and with the remote side released first, if and only if the
      topology still lists the lost screen; if it was deleted instead, the topology is rejected. */
  lemma LostScreenComesHome(s: SessionState, t: ScreenTopology)
    requires s.routing.ScreenRouting? && s.routing.router.active != s.routing.localScreen
    requires ValidTopology(t) && !OnlineAndLinked(t, s.routing.router.active) && IsOnline(t, s.routing.localScreen)
    ensures var r, localScreen := s.routing.router, s.routing.localScreen;
            && (s.ReplaceTopology(t).Success? <==> Knows(t, r.active))
            && (s.ReplaceTopology(t).Failure? ==>
                  s.ReplaceTopology(t).error == RouterRejected(ActiveScreenMissing(r.active)))
            && (s.ReplaceTopology(t).Success? ==>
                  var (s', effects) := s.ReplaceTopology(t).value;
                  var size := SizeOf(t, localScreen);
                  && s'.control.LocalControl? && Holder(s') == Here
                  && s'.remoteInjected == {} && s'.localInjected == s.localInjected + s.physicalHeld
                  && s'.routing.router == RouterState(t, localScreen, size.width / 2, size.height / 2, Idle())
                  && effects[..2] == [ReleaseScreen(r.active), SetLocalCursor(size.width / 2, size.height / 2)])
  {
    CheckTopologyExact(t);
    RoutableExact(t, s.routing.router.active);
    FindOnlineExact(t, s.routing.localScreen);
    hide ValidTopology, Routable, OnlineAndLinked, CheckTopology, LocalEvents, Ordered;
  }

  // A host at the edge between two linked screens, two motions across it and the state they lead to.
  function LeftScreen(): ScreenNode {
    RouterGeometry.Example("a", "a", RouterGeometry.TEN, true)
  }

  function LinkedScreens(): ScreenTopology {
    RouterGeometry.PairOf(LeftScreen(), RouterGeometry.Example("b", "b", RouterGeometry.TEN, false), Edge.Right)
  }

  function EdgeHost(): SessionState {
    NewTopologyHost(RouterState(LinkedScreens(), "a", 9, 5, Idle()))
  }

  function Departure(): seq<HostEvent> {
    [Handle(PhysicalMotion(Motion(0, 0, 1, 0))), Handle(PhysicalMotion(Motion(1, 250_000, 1, 0)))]
  }

  function AwayHost(): SessionState {
    SessionState(Host, ScreenRouting(RouterState(LinkedScreens(), "b", 1, 5, Idle()), "a"), RemoteControl, {}, {}, {},
        None)
  }

  // A topology without the screen that the host then controls.
  function Deletion(): ScreenTopology {
    ScreenTopology(1, [LeftScreen()], [])
  }

  lemma DeletionIsValid()
    ensures ValidTopology(Deletion()) && IsOnline(Deletion(), "a") && !Knows(Deletion(), "b")
  {
    RouterGeometry.NotBlank("a");
    assert NodeIds(Deletion().screens) == ["a"];
  }

  lemma AwayHostIsReached()
    ensures Initial(EdgeHost()) && StateAt(EdgeHost(), Departure(), 2) == AwayHost()
  {
    var other := RouterGeometry.Example("b", "b", RouterGeometry.TEN, false);
    RouterGeometry.NotBlank("a");
    RouterGeometry.NotBlank("b");
    RouterGeometry.TwoMotionsCross(LeftScreen(), other);
    OpenedIsInitial(LinkedScreens(), "a", 9, 5);
    hide LinkedScreens, RouterState.Route, RouterGeometry.PairOf, Blank, Opened, ValidTopology;
    var waiting := RouterState(LinkedScreens(), "a", 9, 5, Barrier(Some(Edge.Right), 0, Some(0)));
    assert StateAt(EdgeHost(), Departure(), 1) == EdgeHost().(routing := ScreenRouting(waiting, "a"));
    assert Ordered({}) == [];
  }

  /** An input that is not followed home: two motions after it was opened the host controls another
      screen; that screen is deleted, the local one stays, and nothing happens. */
  lemma DeletedScreenExample()
    ensures Initial(EdgeHost()) && StateAt(EdgeHost(), Departure(), 2) == AwayHost()
            && AwayHost().control.RemoteControl?
    ensures ValidTopology(Deletion()) && IsOnline(Deletion(), AwayHost().routing.localScreen)
    ensures AwayHost().Valid() && Step(AwayHost(), Replace(Deletion())) == (AwayHost(), [])
  {
    AwayHostIsReached();
    DeletionIsValid();
    ReplaceAcceptedExactly(AwayHost(), Deletion());
    hide ValidTopology, IsOnline, Knows, Routable, Deletion, SessionState.ReplaceTopology, StateAt, EdgeHost,
      Departure;
  }

  // In a valid topology the online screen with an ID is the screen with that ID, if it is online.
  lemma FindOnlineExact(t: ScreenTopology, id: ScreenId)
    requires ValidTopology(t)
    ensures FindOnline(t.screens, id) == if IsOnline(t, id) then FindScreen(t.screens, id) else None
  {
    forall i, j | 0 <= i < j < |t.screens| ensures t.screens[i].screenId != t.screens[j].screenId {
      assert NodeIds(t.screens)[i] != NodeIds(t.screens)[j];
    }
    FindOnlineDistinct(t.screens, id);
  }

  lemma {:induction false} FindOnlineDistinct(screens: seq<ScreenNode>, id: ScreenId)
    requires forall i, j | 0 <= i < j < |screens| :: screens[i].screenId != screens[j].screenId
    ensures var found := FindScreen(screens, id);
            FindOnline(screens, id) == if found.Some? && found.value.online then found else None
  {
    if screens != [] {
      FindOnlineDistinct(screens[1..], id);
      if screens[0].screenId == id {
        FindScreenExact(screens[1..], id);
      }
    }
  }

  // ---------- What is announced ----------

  // An effect that places a cursor places it where the router now believes it to be, and a control
  // notice names the side that now has control.
  predicate Announces(s: SessionState, effect: SessionEffect) {
    && (effect.ControlChanged? ==> effect.control == s.control)
    && (s.routing.ScreenRouting? ==>
          && (effect.EnterScreen? ==> effect.x == s.routing.router.x && effect.y == s.routing.router.y)
          && (effect.SetLocalCursor? ==> effect.x == s.routing.router.x && effect.y == s.routing.router.y))
  }

  ghost predicate AllAnnounce(s: SessionState, effects: seq<SessionEffect>) {
    forall i | 0 <= i < |effects| :: Announces(s, effects[i])
  }

  lemma ComeHomeAnnounces(s: SessionState, release: SessionEffect, x: I32, y: I32)
    requires release.ReleaseScreen? || release.ReleasePeer?
    requires s.routing.ScreenRouting? ==> s.routing.router.x == x && s.routing.router.y == y
    ensures var (s', effects) := s.ComeHome(release, x, y);
            AllAnnounce(s', effects) && effects[|effects| - 1] == ControlChanged(s'.control)
  {
    LocalEventsStayHere(Ordered(s.physicalHeld), Pressed);
    hide Ordered, LocalEvents;
  }

  lemma GoOutAnnounces(s: SessionState, previous: Option<ScreenId>, dest: Option<ScreenId>, x: I32, y: I32)
    requires s.routing.ScreenRouting? ==> s.routing.router.x == x && s.routing.router.y == y
    ensures var (s', effects) := s.GoOut(previous, dest, x, y);
            AllAnnounce(s', effects) && (s'.control != s.control
                ==> effects[|effects| - 1] == ControlChanged(s'.control))
  {
    LocalEventsStayHere(Ordered(s.localInjected), Released);
    PressesReachOne(dest, Ordered(s.physicalHeld));
    hide Ordered, LocalEvents, RemotePresses;
  }

  lemma MotionAnnounces(s: SessionState, m: Motion)
    requires Consistent(s)
    ensures var (s', effects) := s.AfterMotion(m);
            AllAnnounce(s', effects)
            && (s'.control != s.control ==> effects != [] && effects[|effects| - 1] == ControlChanged(s'.control))
  {
    if s.routing.LegacyRouting? {
      var (route, cursor) := s.routing.cursor.Route(m.dx, m.dy);
      var moved := s.(routing := LegacyRouting(cursor));
      if route.EnterRemote? {
        GoOutAnnounces(moved, None, None, route.x, route.y);
      } else if route.EnterLocal? {
        ComeHomeAnnounces(moved, ReleasePeer, route.x, route.y);
      }
    } else {
      var router, localScreen := s.routing.router, s.routing.localScreen;
      var (route, router') := router.Route(m.dx, m.dy, Some(m.timestamp));
      var moved := s.(routing := ScreenRouting(router', localScreen));
      if route.Cross? {
        RouteReportsPosition(router, m.dx, m.dy, Some(m.timestamp));
        ComeHomeAnnounces(moved, ReleaseScreen(router.active), route.x, route.y);
        GoOutAnnounces(moved, Some(router.active), Some(route.screenId), route.x, route.y);
      }
    }
    hide RouterState.Route, CursorRouting.CursorState.Route, SessionState.ComeHome, SessionState.GoOut;
  }

  lemma RouteReportsPosition(r: RouterState, dx: I32, dy: I32, now: Option<U64>)
    requires r.Placed()
    ensures var (route, next) := r.Route(dx, dy, now);
            route.Cross? ==> route.x == next.x && route.y == next.y
  {
  }

  lemma ReplaceAnnounces(s: SessionState, t: ScreenTopology)
    requires Consistent(s) && s.ReplaceTopology(t).Success?
    ensures var (s', effects) := s.ReplaceTopology(t).value;
            AllAnnounce(s', effects)
            && (s'.control != s.control ==> effects != [] && effects[|effects| - 1] == ControlChanged(s'.control))
  {
    var router, localScreen := s.routing.router, s.routing.localScreen;
    if router.active != localScreen && !Routable(t, router.active) {
      CheckTopologyExact(t);
      FindOnlineExact(t, localScreen);
      var size := FindOnline(t.screens, localScreen).value.EffectiveSize();
      ComeHomeAnnounces(s.(routing := s.ReplaceTopology(t).value.0.routing), ReleaseScreen(router.active),
          size.width / 2, size.height / 2);
    }
    hide SessionState.ComeHome, Routable, CheckTopology, ValidTopology;
  }

  /** Whenever control passes to the other side the last effect says so, no notice is ever wrong, and
      every cursor placement is the position the router keeps for the screen it entered. */
  lemma StepAnnounces(s: SessionState, ev: HostEvent)
    requires Consistent(s) && HostSide(ev)
    requires ev.Handle? ==> !ev.event.EnterArrived?
    ensures var (s', effects) := Step(s, ev);
            AllAnnounce(s', effects)
            && (s'.control != s.control ==> effects != [] && effects[|effects| - 1] == ControlChanged(s'.control))
  {
    hide Ordered, LocalEvents, SessionState.ReplaceTopology, SessionState.AfterMotion;
    LocalEventsStayHere(Ordered(s.localInjected), Released);
    if ev.Replace? {
      if s.ReplaceTopology(ev.topology).Success? {
        ReplaceAnnounces(s, ev.topology);
      }
    } else if ev.event.PhysicalMotion? {
      MotionAnnounces(s, ev.event.motion);
    }
  }

  // ---------- Motions arriving at a client ----------

  function ClientAt(evs: seq<SessionEvent>, n: nat): (s: SessionState)
    requires n <= |evs|
    ensures s.Valid()
  {
    if n == 0 then CLIENT
    else
      StepStaysValid(ClientAt(evs, n - 1), Handle(evs[n - 1]));
      ClientAt(evs, n - 1).Handle(evs[n - 1]).0
  }

  lemma {:induction false} LastMotionIsNewest(evs: seq<SessionEvent>, n: nat)
    requires n <= |evs|
    ensures ClientAt(evs, n).routing.NoRouting?
    ensures forall i | 0 <= i < n && evs[i].MotionArrived? ::
              ClientAt(evs, n).lastMotion.Some? && evs[i].motion.sequence <= ClientAt(evs, n).lastMotion.value
    ensures ClientAt(evs, n).lastMotion.Some? ==>
              exists i :: 0 <= i < n && evs[i].MotionArrived?
                  && evs[i].motion.sequence == ClientAt(evs, n).lastMotion.value
  {
    hide Ordered, LocalEvents, Observe;
    if n > 0 {
      LastMotionIsNewest(evs, n - 1);
      var s := ClientAt(evs, n - 1);
      if evs[n - 1].MotionArrived? && s.Handle(evs[n - 1]).1 != [] {
        assert evs[n - 1].motion.sequence == ClientAt(evs, n).lastMotion.value;
      }
    }
  }

  /** A client moves its cursor for a datagram exactly when it is newer than every one before it. */
  lemma StaleMotionsIgnored(evs: seq<SessionEvent>, n: nat)
    requires n < |evs| && evs[n].MotionArrived?
    ensures ClientAt(evs, n).Handle(evs[n]).1
            == if exists i ::
                    0 <= i < n && evs[i].MotionArrived? && evs[i].motion.sequence >= evs[n].motion.sequence then []
               else [InjectLocalMotion(evs[n].motion.dx, evs[n].motion.dy)]
  {
    LastMotionIsNewest(evs, n);
  }
}
