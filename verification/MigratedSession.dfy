/** The whole migration of a host, and how its session then compares with a legacy one. */
module MigratedSessions {
  import opened MachineInts
  import opened Wrappers
  import opened ScreenModel
  import opened InputModel
  import opened EdgeBarriers
  import opened TopologyRouting
  import opened CursorRouting
  import opened LayoutModel
  import opened LayoutProperties
  import RouterRuns
  import opened RouterGeometry
  import opened InventoryMerging
  import opened Migration
  import opened MigratedHosts
  import opened DesktopSessions
  import opened InputOwnership
  import opened OwnershipRuns

  // ---------- The effects of a legacy session, addressed to a screen ----------

  function LiftEffect(effect: SessionEffect, remote: ScreenId): SessionEffect {
    match effect
    case SendRemote(e) => SendScreen(remote, e)
    case SendRemoteMotion(m) => SendScreenMotion(remote, m)
    case EnterPeer(x, y) => EnterScreen(remote, x, y)
    case ReleasePeer => ReleaseScreen(remote)
    case _ => effect
  }

  function LiftEffects(effects: seq<SessionEffect>, remote: ScreenId): (lifted: seq<SessionEffect>)
    ensures |lifted| == |effects|
    ensures forall i | 0 <= i < |effects| :: lifted[i] == LiftEffect(effects[i], remote)
  {
    seq(|effects|, i requires 0 <= i < |effects| => LiftEffect(effects[i], remote))
  }

  lemma LiftConcat(a: seq<SessionEffect>, b: seq<SessionEffect>, remote: ScreenId)
    ensures LiftEffects(a + b, remote) == LiftEffects(a, remote) + LiftEffects(b, remote)
  {
  }

  lemma LiftLocal(hs: seq<HeldInput>, state: ButtonState, remote: ScreenId)
    ensures LiftEffects(LocalEvents(hs, state), remote) == LocalEvents(hs, state)
  {
    LocalEventsStayHere(hs, state);
  }

  lemma {:induction false} LiftPresses(hs: seq<HeldInput>, remote: ScreenId)
    ensures LiftEffects(RemotePresses(None, hs), remote) == RemotePresses(Some(remote), hs)
  {
    if hs != [] {
      LiftPresses(hs[1..], remote);
      LiftConcat([SendRemote(hs[0].Event(Pressed))], RemotePresses(None, hs[1..]), remote);
    }
  }

  // ---------- Two sessions side by side ----------

  // Control agrees with the cursor of a legacy host, and nothing is injected remotely while it is here.
  predicate Settled(s: SessionState)
    requires s.routing.LegacyRouting?
  {
    && s.role.Host?
    && (s.control.LocalControl? <==> s.routing.cursor.active.LocalScreen?)
    && (s.control.LocalControl? ==> s.remoteInjected == {})
  }

  // A legacy session and one over the topology that differ only in how they route, with the cursor at
  // the same place.
  predicate Alongside(s: SessionState, u: SessionState, t: ScreenTopology, local: ScreenId, remote: ScreenId) {
    && s.routing.LegacyRouting? && u.routing.ScreenRouting? && u.routing.localScreen == local
    && Arranged(s.routing.cursor, t, local, remote)
    && SamePlace(s.routing.cursor, u.routing.router, t, local, remote)
    && s == u.(routing := s.routing)
    && Settled(s) && u.Valid()
  }

  lemma InputAlongside(s: SessionState, u: SessionState, t: ScreenTopology, local: ScreenId, remote: ScreenId,
                       e: InputEvent)
    requires Alongside(s, u, t, local, remote)
    ensures u.AfterInput(e).1 == LiftEffects(s.AfterInput(e).1, remote)
    ensures Alongside(s.AfterInput(e).0, u.AfterInput(e).0, t, local, remote)
  {
    hide LinkedEdge, SizeOf;
    assert LiftEffects(s.AfterInput(e).1, remote) == u.AfterInput(e).1;
  }

  lemma ReleaseAlongside(s: SessionState, u: SessionState, t: ScreenTopology, local: ScreenId, remote: ScreenId)
    requires Alongside(s, u, t, local, remote)
    ensures u.AfterRelease().1 == LiftEffects(s.AfterRelease().1, remote)
    ensures Alongside(s.AfterRelease().0, u.AfterRelease().0, t, local, remote)
  {
    hide LinkedEdge, SizeOf, Ordered, LocalEvents;
    var tail := if s.remoteInjected != {} then [ReleasePeer] else [];
    LiftLocal(Ordered(s.localInjected), Released, remote);
    LiftConcat(LocalEvents(Ordered(s.localInjected), Released), tail, remote);
    assert LiftEffects(tail, remote) == if s.remoteInjected != {} then [ReleaseScreen(remote)] else [];
  }

  lemma ComeHomeAlongside(s: SessionState, u: SessionState, remote: ScreenId, x: I32, y: I32)
    requires s == u.(routing := s.routing)
    ensures u.ComeHome(ReleaseScreen(remote), x, y).1 == LiftEffects(s.ComeHome(ReleasePeer, x, y).1, remote)
    ensures |u.ComeHome(ReleaseScreen(remote), x, y).1| >= 3
  {
    hide Ordered, LocalEvents;
    var presses := LocalEvents(Ordered(s.physicalHeld), Pressed);
    LiftLocal(Ordered(s.physicalHeld), Pressed, remote);
    LiftConcat([ReleasePeer, SetLocalCursor(x, y)], presses, remote);
    LiftConcat([ReleasePeer, SetLocalCursor(x, y)] + presses, [ControlChanged(LocalControl)], remote);
    assert LiftEffects([ReleasePeer, SetLocalCursor(x, y)], remote) == [ReleaseScreen(remote), SetLocalCursor(x, y)];
    assert LiftEffects([ControlChanged(LocalControl)], remote) == [ControlChanged(LocalControl)];
  }

  lemma GoOutAlongside(s: SessionState, u: SessionState, local: ScreenId, remote: ScreenId, x: I32, y: I32)
    requires s == u.(routing := s.routing) && s.control.LocalControl?
    ensures u.GoOut(Some(local), Some(remote), x, y).1 == LiftEffects(s.GoOut(None, None, x, y).1, remote)
    ensures |u.GoOut(Some(local), Some(remote), x, y).1| >= 2
  {
    hide Ordered, LocalEvents, RemotePresses;
    var releases, presses := LocalEvents(Ordered(s.localInjected), Released),
        RemotePresses(None, Ordered(s.physicalHeld));
    LiftLocal(Ordered(s.localInjected), Released, remote);
    LiftPresses(Ordered(s.physicalHeld), remote);
    LiftConcat(releases, [EnterPeer(x, y)], remote);
    LiftConcat(releases + [EnterPeer(x, y)], presses, remote);
    LiftConcat(releases + [EnterPeer(x, y)] + presses, [ControlChanged(RemoteControl)], remote);
    assert LiftEffects([EnterPeer(x, y)], remote) == [EnterScreen(remote, x, y)];
    assert LiftEffects([ControlChanged(RemoteControl)], remote) == [ControlChanged(RemoteControl)];
  }

  // The delay and the distance let the cursor through together, or neither does.
  predicate OpenTogether(s: SessionState, u: SessionState, m: Motion)
    requires s.routing.LegacyRouting? && u.routing.ScreenRouting? && u.Valid()
  {
    WillCross(u.routing.router, m.dx, m.dy, Some(m.timestamp)) <==> LegacyOpens(s.routing.cursor, m.dx, m.dy)
  }

  lemma CrossingsShow(c: CursorState, r: RouterState, dx: I32, dy: I32, now: U64)
    requires r.Placed()
    ensures r.Route(dx, dy, Some(now)).0.Cross? <==> WillCross(r, dx, dy, Some(now))
    ensures (c.Route(dx, dy).0.EnterRemote? || c.Route(dx, dy).0.EnterLocal?) <==> LegacyOpens(c, dx, dy)
    ensures WillCross(r, dx, dy, Some(now)) ==>
              var next := r.Route(dx, dy, Some(now)).1;
              next == r.Entered(r.Pushed(dx, dy).value, dx, dy) && r.Route(dx, dy, Some(now)).0.screenId == next.active
    ensures c.Route(dx, dy).0.EnterRemote? ==> c.active.LocalScreen?
    ensures c.Route(dx, dy).0.EnterLocal? ==> c.active.RemoteScreen?
  {
    hide LinkedEdge, ScaleAxis, RouterState.Pushed, RouterState.Reached, RouterState.Linked, RouterState.Entered,
      CursorState.OutwardBy;
  }

  lemma WillCrossIsLinked(r: RouterState, dx: I32, dy: I32, now: Option<U64>)
    requires r.Placed() && WillCross(r, dx, dy, now)
    ensures r.Linked(r.Pushed(dx, dy))
  {
  }

  // Motions routed alike have the same effects.
  lemma SameRouteSameEffects(s: SessionState, u: SessionState, t: ScreenTopology, local: ScreenId, remote: ScreenId,
                             m: Motion)
    requires Alongside(s, u, t, local, remote)
    requires u.routing.router.Route(m.dx, m.dy, Some(m.timestamp)).0
             == LiftRoute(s.routing.cursor.Route(m.dx, m.dy).0, local, remote)
    ensures u.AfterMotion(m).1 == LiftEffects(s.AfterMotion(m).1, remote)
    ensures Alongside(s.AfterMotion(m).0, u.AfterMotion(m).0, t, local, remote)
  {
    hide RouterState.Route, CursorState.Route, Ordered, LocalEvents, RemotePresses, LiftRoute;
    var c, r := s.routing.cursor, u.routing.router;
    TimedStepExact(c, r, t, local, remote, m.dx, m.dy, m.timestamp);
    CrossingsShow(c, r, m.dx, m.dy, m.timestamp);
    RouteStaysPlaced(r, m.dx, m.dy, Some(m.timestamp));
    LegacyRouteActive(c, m.dx, m.dy);
    var (legacy, c') := c.Route(m.dx, m.dy);
    var (route, r') := r.Route(m.dx, m.dy, Some(m.timestamp));
    var s1, u1 := s.(routing := LegacyRouting(c')), u.(routing := ScreenRouting(r', local));
    LiftedRoute(legacy, local, remote);
    match legacy {
      case EnterRemote(x, y) => GoOutAlongside(s1, u1, local, remote, x, y);
      case EnterLocal(x, y) => ComeHomeAlongside(s1, u1, remote, x, y);
      case LocalMotion(dx, dy) =>
      case RemoteMotion(dx, dy) =>
    }
  }

  lemma LiftedRoute(legacy: CursorRoute, local: ScreenId, remote: ScreenId)
    ensures LiftRoute(legacy, local, remote) == match legacy
                                                case LocalMotion(dx, dy) => Stay(local, dx, dy)
                                                case RemoteMotion(dx, dy) => Stay(remote, dx, dy)
                                                case EnterRemote(x, y) => Cross(remote, x, y)
                                                case EnterLocal(x, y) => Cross(local, x, y)
  {
  }

  lemma LegacyRouteActive(c: CursorState, dx: I32, dy: I32)
    ensures var (legacy, c') := c.Route(dx, dy);
            && (legacy.EnterRemote? ==> c'.active.RemoteScreen?) && (legacy.EnterLocal? ==> c'.active.LocalScreen?)
            && (legacy.LocalMotion? ==> c.active.LocalScreen? && c'.active == c.active && legacy == LocalMotion(dx, dy))
            && (legacy.RemoteMotion? ==>
                  c.active.RemoteScreen? && c'.active == c.active && legacy == RemoteMotion(dx, dy))
  {
    hide ScaleAxis, OutwardDistance, CursorState.OutwardBy;
  }

  // If only one of the two crosses, their effects differ.
  lemma OneCrossingShows(s: SessionState, u: SessionState, t: ScreenTopology, local: ScreenId, remote: ScreenId,
                         m: Motion)
    requires Alongside(s, u, t, local, remote) && !OpenTogether(s, u, m)
    ensures u.AfterMotion(m).1 != LiftEffects(s.AfterMotion(m).1, remote)
  {
    hide RouterState.Route, CursorState.Route, Ordered, LocalEvents, RemotePresses, WillCross, LegacyOpens;
    var c, r := s.routing.cursor, u.routing.router;
    CrossingsShow(c, r, m.dx, m.dy, m.timestamp);
    SamePlaceSameWay(c, r, t, local, remote, m.dx, m.dy);
    if WillCross(r, m.dx, m.dy, Some(m.timestamp)) { WillCrossIsLinked(r, m.dx, m.dy, Some(m.timestamp)); }
    hide RouterState.Entered, RouterState.Pushed, Arranged, RouterState.Linked;
    var (legacy, c') := c.Route(m.dx, m.dy);
    var (route, r') := r.Route(m.dx, m.dy, Some(m.timestamp));
    assert route.Cross? ==> |u.AfterMotion(m).1| >= 2 by { CrossingIsLong(u, r', route, m); }
    assert legacy.EnterRemote? || legacy.EnterLocal? ==> |s.AfterMotion(m).1| >= 2;
  }

  lemma CrossingIsLong(u: SessionState, r': RouterState, route: Route, m: Motion)
    requires u.routing.ScreenRouting? && u.Valid()
    requires (route, r') == u.routing.router.Route(m.dx, m.dy, Some(m.timestamp))
    requires route.Cross? ==> u.control.LocalControl? || route.screenId == u.routing.localScreen
    ensures route.Cross? ==> |u.AfterMotion(m).1| >= 2
  {
    hide RouterState.Route, Ordered, LocalEvents, RemotePresses;
  }

  /** One motion: the session over the topology has the effects of the legacy session if and only if the
      delay lets the cursor through exactly when the distance does; then they stay side by side. */
  lemma MotionExact(s: SessionState, u: SessionState, t: ScreenTopology, local: ScreenId, remote: ScreenId, m: Motion)
    requires Alongside(s, u, t, local, remote)
    ensures u.AfterMotion(m).1 == LiftEffects(s.AfterMotion(m).1, remote) <==> OpenTogether(s, u, m)
    ensures OpenTogether(s, u, m) ==> Alongside(s.AfterMotion(m).0, u.AfterMotion(m).0, t, local, remote)
  {
    if OpenTogether(s, u, m) {
      TimedStepExact(s.routing.cursor, u.routing.router, t, local, remote, m.dx, m.dy, m.timestamp);
      hide SessionState.AfterMotion, LiftRoute, RouterState.Route, CursorState.Route, WillCross, LegacyOpens,
        Arranged, SamePlace;
      SameRouteSameEffects(s, u, t, local, remote, m);
    } else {
      hide SessionState.AfterMotion, Alongside;
      OneCrossingShows(s, u, t, local, remote, m);
    }
  }

  // ---------- Whole runs of the two sessions ----------

  // Everything a host session handles, apart from changes of topology.
  predicate Handled(evs: seq<HostEvent>) {
    forall k | 0 <= k < |evs| :: evs[k].Handle? && HostSide(evs[k])
  }

  predicate StepOpensTogether(s: SessionState, u: SessionState, ev: HostEvent)
    requires s.routing.LegacyRouting? && u.routing.ScreenRouting? && u.Valid()
  {
    ev.Handle? && ev.event.PhysicalMotion? ==> OpenTogether(s, u, ev.event.motion)
  }

  lemma StepExact(s: SessionState, u: SessionState, t: ScreenTopology, local: ScreenId, remote: ScreenId, ev: HostEvent)
    requires Alongside(s, u, t, local, remote) && ev.Handle? && HostSide(ev)
    ensures s.Valid()
    ensures Step(u, ev).1 == LiftEffects(Step(s, ev).1, remote) <==> StepOpensTogether(s, u, ev)
    ensures StepOpensTogether(s, u, ev) ==> Alongside(Step(s, ev).0, Step(u, ev).0, t, local, remote)
  {
    hide Arranged, OpenTogether, SamePlace, SessionState.AfterMotion, SessionState.AfterInput,
      SessionState.AfterRelease, Settled;
    match ev.event
    case PhysicalInput(e) => InputAlongside(s, u, t, local, remote, e);
    case PhysicalMotion(m) => MotionExact(s, u, t, local, remote, m);
    case MotionArrived(m) => ArrivalAlongside(s, u, t, local, remote, ev.event);
    case EnterArrived(x, y) => ArrivalAlongside(s, u, t, local, remote, ev.event);
    case _ => ReleaseAlongside(s, u, t, local, remote);
  }

  lemma ArrivalAlongside(s: SessionState, u: SessionState, t: ScreenTopology, local: ScreenId, remote: ScreenId,
                         ev: SessionEvent)
    requires Alongside(s, u, t, local, remote) && (ev.MotionArrived? || ev.EnterArrived?)
    ensures u.Handle(ev).1 == LiftEffects(s.Handle(ev).1, remote)
    ensures Alongside(s.Handle(ev).0, u.Handle(ev).0, t, local, remote)
  {
    hide Arranged;
  }

  // Event by event the one session has the effects of the other.
  predicate EffectsAlike(s: SessionState, u: SessionState, remote: ScreenId, evs: seq<HostEvent>)
    requires s.Valid() && u.Valid()
  {
    forall k | 0 <= k < |evs| :: Step(StateAt(u, evs, k), evs[k]).1
        == LiftEffects(Step(StateAt(s, evs, k), evs[k]).1, remote)
  }

  // At every motion of the run the two barriers open together.
  predicate OpenTogetherThroughout(s: SessionState, u: SessionState, evs: seq<HostEvent>)
    requires s.Valid() && u.Valid()
  {
    forall k | 0 <= k < |evs| ::
      && StateAt(s, evs, k).routing.LegacyRouting? && StateAt(u, evs, k).routing.ScreenRouting?
      && StepOpensTogether(StateAt(s, evs, k), StateAt(u, evs, k), evs[k])
  }

  // Each of the two says the same about one step, as long as the sessions are side by side before it.
  lemma EitherAt(s: SessionState, u: SessionState, remote: ScreenId, evs: seq<HostEvent>, k: nat)
    requires s.Valid() && u.Valid() && k < |evs|
    requires EffectsAlike(s, u, remote, evs) || OpenTogetherThroughout(s, u, evs)
    ensures var sk, uk := StateAt(s, evs, k), StateAt(u, evs, k);
            || Step(uk, evs[k]).1 == LiftEffects(Step(sk, evs[k]).1, remote)
            || (sk.routing.LegacyRouting? && uk.routing.ScreenRouting? && StepOpensTogether(sk, uk, evs[k]))
  {
    hide Step, StepOpensTogether, StateAt;
  }

  lemma OneStepAlongside(s: SessionState, u: SessionState, t: ScreenTopology, local: ScreenId, remote: ScreenId,
                         ev: HostEvent)
    requires Alongside(s, u, t, local, remote) && ev.Handle? && HostSide(ev) && s.Valid() && u.Valid()
    requires || Step(u, ev).1 == LiftEffects(Step(s, ev).1, remote)
             || (s.routing.LegacyRouting? && u.routing.ScreenRouting? && StepOpensTogether(s, u, ev))
    ensures Alongside(Step(s, ev).0, Step(u, ev).0, t, local, remote)
  {
    hide Alongside, Step, StepOpensTogether, HostSide;
    StepExact(s, u, t, local, remote, ev);
  }

  // As long as either holds, the sessions stay side by side.
  lemma {:induction false} StillAlongside(s: SessionState, u: SessionState, t: ScreenTopology, local: ScreenId,
                                          remote: ScreenId, evs: seq<HostEvent>, n: nat)
    requires Alongside(s, u, t, local, remote) && s.Valid() && Handled(evs) && n <= |evs|
    requires EffectsAlike(s, u, remote, evs) || OpenTogetherThroughout(s, u, evs)
    ensures Alongside(StateAt(s, evs, n), StateAt(u, evs, n), t, local, remote)
  {
    hide Step, StepOpensTogether, HostSide, EffectsAlike, OpenTogetherThroughout, SessionState.Valid, Arranged,
      SamePlace, Settled;
    if n > 0 {
      StillAlongside(s, u, t, local, remote, evs, n - 1);
      EitherAt(s, u, remote, evs, n - 1);
      hide Alongside;
      OneStepAlongside(StateAt(s, evs, n - 1), StateAt(u, evs, n - 1), t, local, remote, evs[n - 1]);
    }
  }

  /** Over every run without topology changes, the session over the topology has the effects of the
      legacy session, event by event, if and only if at every motion the two barriers open together. */
  lemma {:induction false} SessionRunExact(s: SessionState, u: SessionState, t: ScreenTopology, local: ScreenId,
                                           remote: ScreenId, evs: seq<HostEvent>)
    requires Alongside(s, u, t, local, remote) && s.Valid() && Handled(evs)
    ensures EffectsAlike(s, u, remote, evs) <==> OpenTogetherThroughout(s, u, evs)
  {
    hide Step, StepOpensTogether, HostSide, Arranged, SamePlace, Settled;
    if EffectsAlike(s, u, remote, evs) || OpenTogetherThroughout(s, u, evs) {
      forall k | 0 <= k < |evs|
        ensures Alongside(StateAt(s, evs, k), StateAt(u, evs, k), t, local, remote)
        ensures Step(StateAt(u, evs, k), evs[k]).1 == LiftEffects(Step(StateAt(s, evs, k), evs[k]).1, remote)
                <==> StepOpensTogether(StateAt(s, evs, k), StateAt(u, evs, k), evs[k])
      {
        StillAlongside(s, u, t, local, remote, evs, k);
        StepExact(StateAt(s, evs, k), StateAt(u, evs, k), t, local, remote, evs[k]);
      }
    }
  }

  // ---------- A host that has not left its screen ----------

  predicate AtHome(u: SessionState) {
    && u.routing.ScreenRouting? && u.Valid() && u.role.Host?
    && u.routing.router.active == u.routing.localScreen
    && u.control.LocalControl? && u.remoteInjected == {}
  }

  lemma StepStaysHome(u: SessionState, ev: HostEvent)
    requires AtHome(u) && Unlinked(u.routing.router.topology, u.routing.localScreen) && ev.Handle? && HostSide(ev)
    ensures var u' := Step(u, ev).0;
            && AtHome(u') && u'.routing.localScreen == u.routing.localScreen
            && u'.routing.router.topology == u.routing.router.topology
  {
    if ev.event.PhysicalMotion? {
      var m := ev.event.motion;
      UnlinkedStays(u.routing.router, m.dx, m.dy, Some(m.timestamp));
    }
    StepStaysValid(u, ev);
    hide Unlinked, RouterState.Route, Ordered, LocalEvents, RemotePresses;
  }

  lemma {:induction false} StaysHome(u: SessionState, evs: seq<HostEvent>, n: nat)
    requires AtHome(u) && Unlinked(u.routing.router.topology, u.routing.localScreen) && Handled(evs) && n <= |evs|
    ensures var u' := StateAt(u, evs, n);
            && AtHome(u') && u'.routing.localScreen == u.routing.localScreen
            && u'.routing.router.topology == u.routing.router.topology
  {
    hide Unlinked, Step, HostSide;
    if n > 0 {
      StaysHome(u, evs, n - 1);
      StepStaysHome(StateAt(u, evs, n - 1), evs[n - 1]);
    }
  }

  // The whole way out in one motion, once to arrive at the edge and once, after the delay, to cross.
  function Departure(d: ScreenDirection): seq<HostEvent>
    requires PositionOf(d).Some?
  {
    var m := StraightPush(LocalScreen, d, I32_MAX);
    [Handle(PhysicalMotion(Motion(0, 0, m.dx, m.dy))), Handle(PhysicalMotion(Motion(1, 250_000, m.dx, m.dy)))]
  }

  lemma FarPushSelects(r: RouterState, d: ScreenDirection)
    requires r.Placed() && Inside(r) && PositionOf(d).Some? && r.Linked(Some(ExitEdge(d)))
    ensures var m := StraightPush(LocalScreen, d, I32_MAX);
            RouterRuns.Selected(r, m.dx, m.dy) == Some(ExitEdge(d)) && Inside(r.MovedBy(m.dx, m.dy))
  {
    hide LinkedEdge;
  }

  lemma RouterDeparts(r: RouterState, d: ScreenDirection)
    requires r.Placed() && Inside(r) && PositionOf(d).Some? && r.Linked(Some(ExitEdge(d))) && r.barrier == Idle()
    ensures var m, e := StraightPush(LocalScreen, d, I32_MAX), ExitEdge(d);
            var (first, waiting) := r.Route(m.dx, m.dy, Some(0));
            && first == Stay(r.active, m.dx, m.dy) && waiting.Placed() && waiting.topology == r.topology
                 && waiting.active == r.active
            && waiting.Route(m.dx, m.dy, Some(250_000)).0.Cross?
            && waiting.Route(m.dx, m.dy, Some(250_000)).0.screenId == LinkedEdge(r.topology, r.active, e).value.screenId
  {
    hide RouterState.Route, StraightPush, LinkedEdge, RouterRuns.Selected, Inside, RouterState.Linked, ExitEdge;
    var m := StraightPush(LocalScreen, d, I32_MAX);
    FarPushSelects(r, d);
    RouterRuns.CrossingStep(r, m.dx, m.dy, 0);
    RouterRuns.MotionKeepsEdge(r, m.dx, m.dy, 0);
    RouteNamesPlace(r, m.dx, m.dy, 0);
    var waiting := r.Route(m.dx, m.dy, Some(0)).1;
    LinkedOnward(r, waiting, Some(ExitEdge(d)));
    FarPushSelects(waiting, d);
    RouterRuns.CrossingStep(waiting, m.dx, m.dy, 250_000);
    RouteNamesPlace(waiting, m.dx, m.dy, 250_000);
    EnteredBeyond(waiting, ExitEdge(d), m.dx, m.dy);
  }

  lemma LinkedOnward(r: RouterState, s: RouterState, e: Option<Edge>)
    requires r.Placed() && s.Placed() && r.Linked(e) && s.topology == r.topology && s.active == r.active
    requires Inside(s.(barrier := r.barrier))
    ensures s.Linked(e) && Inside(s)
  {
    hide LinkedEdge;
  }

  lemma EnteredBeyond(r: RouterState, e: Edge, dx: I32, dy: I32)
    requires r.Placed() && r.Linked(Some(e))
    ensures r.Entered(e, dx, dy).active == LinkedEdge(r.topology, r.active, e).value.screenId
  {
    hide LinkedEdge, Landing;
  }

  lemma RouteNamesPlace(r: RouterState, dx: I32, dy: I32, now: U64)
    requires r.Placed()
    ensures var (route, next) := r.Route(dx, dy, Some(now));
            && next.Placed() && next.topology == r.topology && route.screenId == next.active
            && (route.Stay? ==> route == Stay(r.active, dx, dy))
  {
    RouteStaysPlaced(r, dx, dy, Some(now));
    hide LinkedEdge, RouterState.Pushed, RouterState.Reached, Landing, ScaleAxis;
  }

  // With a link out of it, a host leaves its screen within two motions.
  lemma HostDeparts(u: SessionState, d: ScreenDirection)
    requires AtHome(u) && PositionOf(d).Some? && u.routing.router.barrier == Idle() && Inside(u.routing.router)
    requires var t, local := u.routing.router.topology, u.routing.localScreen;
             LinkedEdge(t, local, ExitEdge(d)).Some? && LinkedEdge(t, local, ExitEdge(d)).value.screenId != local
    ensures Handled(Departure(d)) && StateAt(u, Departure(d), 2).control.RemoteControl?
  {
    var evs, r := Departure(d), u.routing.router;
    var m := StraightPush(LocalScreen, d, I32_MAX);
    RouterDeparts(r, d);
    hide RouterState.Route, LinkedEdge, StraightPush, Ordered, LocalEvents, RemotePresses;
    var waiting := r.Route(m.dx, m.dy, Some(0)).1;
    assert StateAt(u, evs, 1) == u.(routing := ScreenRouting(waiting, u.routing.localScreen));
  }

  // ---------- The host that migrates ----------

  // At some point of the run control has passed to the other side.
  predicate Leaves(u: SessionState, evs: seq<HostEvent>)
    requires u.Valid()
  {
    exists k | 0 <= k <= |evs| :: StateAt(u, evs, k).control.RemoteControl?
  }

  lemma TakesTopologyOver(u: SessionState, t: ScreenTopology)
    requires AtHome(u) && ValidTopology(t) && Knows(t, u.routing.localScreen)
    ensures u.ReplaceTopology(t).Success? && u.ReplaceTopology(t).value.1 == []
    ensures var u', r := u.ReplaceTopology(t).value.0, u.routing.router;
            && r.Replaced(t).Success? && u' == u.(routing := ScreenRouting(r.Replaced(t).value, u.routing.localScreen))
            && AtHome(u') && u'.routing.router.topology == t
            && u'.routing.router.barrier == Idle() && Inside(u'.routing.router)
  {
    TakesOver(u.routing.router, t);
    hide ValidTopology, CheckTopology;
  }

  // On the anchor, the session is side by side with a legacy one and has a link out.
  lemma AnchoredAlongside(u: SessionState, t: ScreenTopology, local: ScreenId, remote: ScreenId, d: ScreenDirection)
    requires AtHome(u) && u.routing.localScreen == local && ValidTopology(t) && TwoScreens(t, local, remote, d)
    ensures u.ReplaceTopology(t).Success?
    ensures var c := Centered(SizeOf(t, local), SizeOf(t, remote), d).Positioned(u.routing.router.x,
            u.routing.router.y);
            var u' := u.ReplaceTopology(t).value.0;
            && Alongside(u'.(routing := LegacyRouting(c)), u', t, local, remote)
            && LinkedEdge(t, local, ExitEdge(d)) == Some(ScreenEdge(remote, Opposite(ExitEdge(d))))
  {
    TakesTopologyOver(u, t);
    MigrationStart(t, local, remote, d, u.routing.router);
    LinksOfTwoScreens(t, local, remote, d, LocalScreen, ExitEdge(d));
    hide ValidTopology, LinkedEdge, SessionState.ReplaceTopology, RouterState.Replaced;
  }

  lemma StuckNeverLeaves(u: SessionState, evs: seq<HostEvent>)
    requires AtHome(u) && Unlinked(u.routing.router.topology, u.routing.localScreen) && Handled(evs)
    ensures !Leaves(u, evs)
  {
    hide Unlinked, Handled;
    forall k | 0 <= k <= |evs| ensures StateAt(u, evs, k).control.LocalControl? {
      StaysHome(u, evs, k);
    }
  }

  lemma LinkedCanLeave(u: SessionState, t: ScreenTopology, local: ScreenId, remote: ScreenId, d: ScreenDirection)
    requires AtHome(u) && u.routing.localScreen == local && ValidTopology(t) && TwoScreens(t, local, remote, d)
    ensures u.ReplaceTopology(t).Success? && u.ReplaceTopology(t).value.0.Valid()
    ensures Handled(Departure(d)) && Leaves(u.ReplaceTopology(t).value.0, Departure(d))
  {
    TakesTopologyOver(u, t);
    AnchoredAlongside(u, t, local, remote, d);
    hide ValidTopology, LinkedEdge, SessionState.ReplaceTopology, RouterState.Replaced, Inside;
    HostDeparts(u.ReplaceTopology(t).value.0, d);
  }

  // What a session over the migrated topology can do and how it compares with a legacy one.
  ghost predicate HostVerdict(u: SessionState, c: CursorState, anchored: bool, remote: ScreenId)
    requires u.Valid()
  {
    && ((exists evs :: Handled(evs) && Leaves(u, evs)) <==> anchored)
    && (anchored ==>
          var s := u.(routing := LegacyRouting(c));
          forall evs | Handled(evs) :: EffectsAlike(s, u, remote, evs) <==> OpenTogetherThroughout(s, u, evs))
  }

  lemma {:induction false} AnchoredVerdict(u: SessionState, t: ScreenTopology, local: ScreenId, remote: ScreenId,
                                           d: ScreenDirection)
    requires AtHome(u) && u.routing.localScreen == local && ValidTopology(t) && TwoScreens(t, local, remote, d)
    ensures u.ReplaceTopology(t).Success? && u.ReplaceTopology(t).value.0.Valid()
    ensures HostVerdict(u.ReplaceTopology(t).value.0,
                        Centered(SizeOf(t, local), SizeOf(t, remote), d).Positioned(u.routing.router.x,
                            u.routing.router.y), true, remote)
  {
    var c := Centered(SizeOf(t, local), SizeOf(t, remote), d).Positioned(u.routing.router.x, u.routing.router.y);
    LinkedCanLeave(u, t, local, remote, d);
    AnchoredAlongside(u, t, local, remote, d);
    hide SessionState.ReplaceTopology, Leaves, EffectsAlike, OpenTogetherThroughout, Alongside, Handled,
      ValidTopology, TwoScreens;
    var u' := u.ReplaceTopology(t).value.0;
    forall evs | Handled(evs)
      ensures var s := u'.(routing := LegacyRouting(c));
              EffectsAlike(s, u', remote, evs) <==> OpenTogetherThroughout(s, u', evs)
    {
      SessionRunExact(u'.(routing := LegacyRouting(c)), u', t, local, remote, evs);
    }
  }

  lemma {:induction false} StuckVerdict(u: SessionState, c: CursorState, remote: ScreenId)
    requires AtHome(u) && Unlinked(u.routing.router.topology, u.routing.localScreen)
    ensures HostVerdict(u, c, false, remote)
  {
    hide Leaves, Handled, Unlinked, EffectsAlike, OpenTogetherThroughout;
    forall evs | Handled(evs) ensures !Leaves(u, evs) {
      StuckNeverLeaves(u, evs);
    }
  }

  /** A host that has not left its screen takes over the migrated topology. It can then leave that screen
      if and only if it is the anchor; and if it is, the session has the effects of a legacy session with
      the cursor at the same place, event by event over any run, if and only if at every motion the
      delay and the distance let the cursor through together. */
  lemma HostTakesOverExact(l: ScreenLayout, inv: ScreenInventory, d: ScreenDirection, u: SessionState)
    requires l.links == [] && MigrateLegacyDirection(l, inv, d).Success? && HostScreen(inv).Some?
    requires AtHome(u) && u.routing.localScreen == HostScreen(inv).value.screenId
    ensures var resolved := Resolve(MigrateLegacyDirection(l, inv, d).value, inv);
            var host, anchor, remote := HostScreen(inv).value, LocalAnchor(inv).value, OnlineRemotes(inv)[0];
            && resolved.Success? && Knows(resolved.value, anchor.screenId) && Knows(resolved.value, remote.screenId)
            && u.ReplaceTopology(resolved.value).Success? && u.ReplaceTopology(resolved.value).value.0.Valid()
            && HostVerdict(u.ReplaceTopology(resolved.value).value.0,
                           LegacyFor(resolved.value, inv, d, u.routing.router.x, u.routing.router.y), host == anchor,
                               remote.screenId)
  {
    assert LocalAnchor(inv).Some? && |OnlineRemotes(inv)| == 1;
    hide MigrateLegacyDirection, Resolve, LocalAnchor, OnlineRemotes, HostScreen, ValidTopology, TwoScreens, Unlinked,
      SessionState.ReplaceTopology, HostVerdict, Knows;
    MigratedScreens(l, inv, d);
    var host, anchor, remote := HostScreen(inv).value, LocalAnchor(inv).value, OnlineRemotes(inv)[0];
    var t := Resolve(MigrateLegacyDirection(l, inv, d).value, inv).value;
    TakesTopologyOver(u, t);
    if host == anchor {
      MigratedTopology(l, inv, d);
      AnchoredVerdict(u, t, host.screenId, remote.screenId, d);
    } else {
      StuckVerdict(u.ReplaceTopology(t).value.0, LegacyFor(t, inv, d, u.routing.router.x, u.routing.router.y),
          remote.screenId);
    }
  }

  lemma HostStarts(l: ScreenLayout, inv: ScreenInventory, x: I32, y: I32, before: seq<HostEvent>)
    requires l.links == [] && ValidLayout(l, inv) && HostScreen(inv).Some? && Handled(before)
    ensures var start, host := Resolve(l, inv), HostScreen(inv).value.screenId;
            && start.Success? && HostNode(start.value.screens) == Some(host)
            && Opened(start.value, host, x, y).Success?
                 && NewTopologyHost(Opened(start.value, host, x, y).value).Valid()
            && var u := StateAt(NewTopologyHost(Opened(start.value, host, x, y).value), before, |before|);
            AtHome(u) && u.routing.localScreen == host
  {
    ResolvedIsValid(l, inv);
    var t, host := Resolve(l, inv).value, HostScreen(inv).value;
    HostNodeIsHostScreen(inv, l.sizeOverrides);
    HostIsListed(inv);
    ResolvedOnline(l, inv, host);
    CheckTopologyExact(t);
    EmptyLayoutIsUnlinked(t, host.screenId);
    hide ValidLayout, ValidTopology, HostScreen, HostNode, CheckLayout, NodesFor, CheckTopology, Unlinked, Handled;
    StaysHome(NewTopologyHost(Opened(t, host.screenId, x, y).value), before, |before|);
  }

  /** From start to finish: a host opens its session on its first online screen over an empty layout and
      handles any events; a peer reports its screens; the legacy direction is migrated and the topology
      taken over. The host can leave its screen from then on if and only if that screen is the anchor,
      the first primary screen of this device, and if it is, the verdict on its runs is the one above. */
  lemma MigrationEndToEnd(l: ScreenLayout, inv: ScreenInventory, x: I32, y: I32, before: seq<HostEvent>,
                          peer: Reporter, screens: seq<ReportedScreen>, d: ScreenDirection)
    requires l.links == [] && ValidLayout(l, inv) && Orderly(inv) && HostScreen(inv).Some? && Handled(before)
    requires !peer.local && SlashFree(peer.deviceId) && Elsewhere(inv, peer.deviceId)
    requires MigrateLegacyDirection(l, Merged(inv, peer, screens), d).Success?
    ensures var start, host := Resolve(l, inv), HostScreen(inv).value.screenId;
            && start.Success? && HostNode(start.value.screens) == Some(host)
            && Opened(start.value, host, x, y).Success?
                 && NewTopologyHost(Opened(start.value, host, x, y).value).Valid()
            && var u := StateAt(NewTopologyHost(Opened(start.value, host, x, y).value), before, |before|);
               var inv' := Merged(inv, peer, screens);
               var resolved := Resolve(MigrateLegacyDirection(l, inv', d).value, inv');
               var anchor, remote := LocalAnchor(inv').value, OnlineRemotes(inv')[0];
            && u.routing.ScreenRouting?
            && resolved.Success? && Knows(resolved.value, anchor.screenId) && Knows(resolved.value, remote.screenId)
            && u.ReplaceTopology(resolved.value).Success? && u.ReplaceTopology(resolved.value).value.0.Valid()
            && HostVerdict(u.ReplaceTopology(resolved.value).value.0,
                           LegacyFor(resolved.value, inv', d, u.routing.router.x, u.routing.router.y),
                           host == anchor.screenId, remote.screenId)
  {
    var inv' := Merged(inv, peer, screens);
    HostStarts(l, inv, x, y, before);
    HostScreenKept(inv, peer, screens);
    AnchorById(l, inv', d);
    var router := Opened(Resolve(l, inv).value, HostScreen(inv).value.screenId, x, y).value;
    HostTakesOverExact(l, inv', d, StateAt(NewTopologyHost(router), before, |before|));
    hide *;
  }

  /** An input that keeps the way out: a single monitor and a peer with a single screen. Whatever the host
      did before, it can leave its screen. */
  lemma OneMonitorExample(x: I32, y: I32, before: seq<HostEvent>)
    requires Handled(before)
    ensures var inv := Merged(ONE_MONITOR, PEER, [PEER_SCREEN]);
            && Resolve(DEFAULT_LAYOUT, ONE_MONITOR).Success?
            && var start := Resolve(DEFAULT_LAYOUT, ONE_MONITOR).value;
            && Opened(start, "h/1", x, y).Success? && NewTopologyHost(Opened(start, "h/1", x, y).value).Valid()
            && MigrateLegacyDirection(DEFAULT_LAYOUT, inv, ScreenDirection.Right).Success?
            && var u := StateAt(NewTopologyHost(Opened(start, "h/1", x, y).value), before, |before|);
               var resolved := Resolve(MigrateLegacyDirection(DEFAULT_LAYOUT, inv, ScreenDirection.Right).value, inv);
            && resolved.Success? && u.ReplaceTopology(resolved.value).Success?
            && u.ReplaceTopology(resolved.value).value.0.Valid()
            && exists evs :: Handled(evs) && Leaves(u.ReplaceTopology(resolved.value).value.0, evs)
  {
    OneMonitorIsOrderly();
    OneMonitorMigrates();
    hide Orderly, SlashFree, Elsewhere, ValidLayout, Merged, MigrateLegacyDirection, LocalAnchor, OnlineRemotes,
      HostScreen, HostNode, Resolve, Opened, SessionState.ReplaceTopology, Handled, Leaves, EffectsAlike,
      OpenTogetherThroughout, StateAt;
    MigrationEndToEnd(DEFAULT_LAYOUT, ONE_MONITOR, x, y, before, PEER, [PEER_SCREEN], ScreenDirection.Right);
  }

  // A legacy session and one over the topology, at the right edge of the first of two screens.
  function EdgeTopology(): ScreenTopology {
    PairOf(Example("a", "a", TEN, true), Example("b", "b", TEN, false), Edge.Right)
  }

  function EdgeCursor(): CursorState {
    Centered(TEN, TEN, ScreenDirection.Right).Positioned(9, 5)
  }

  function EdgeSession(): SessionState {
    NewTopologyHost(RouterState(EdgeTopology(), "a", 9, 5, Idle()))
  }

  lemma EdgeSessionsAreAlongside()
    ensures Alongside(EdgeSession().(routing := LegacyRouting(EdgeCursor())), EdgeSession(), EdgeTopology(), "a", "b")
  {
    hide LinkedEdge, ValidTopology, Blank;
    NotBlank("a");
    NotBlank("b");
    PairIsLinked(Example("a", "a", TEN, true), Example("b", "b", TEN, false), Edge.Right);
  }

  lemma EightPixelsCrossByDistance()
    ensures LegacyOpens(EdgeCursor(), 8, 0) && NoCorners(EdgeCursor(), [Shift(8, 0)])
    ensures EdgeCursor().Route(8, 0).0 == EnterRemote(1, 5)
  {
  }

  lemma EightPixelsDoNotCrossAtOnce()
    ensures EdgeSession().Valid() && !WillCross(EdgeSession().routing.router, 8, 0, Some(0))
    ensures EdgeSession().routing.router.Route(8, 0, Some(0)).0 == Stay("a", 8, 0)
  {
    hide LinkedEdge, ValidTopology, Blank, Landing, RouterState.Reached, RouterState.Entered;
    NotBlank("a");
    NotBlank("b");
    PairIsLinked(Example("a", "a", TEN, true), Example("b", "b", TEN, false), Edge.Right);
  }

  /** An input on which the host does not follow the legacy router although its screen is the anchor: from
      idle barriers at the right edge, eight pixels in one motion cross by distance and not by delay. */
  lemma EightPixelExample()
    ensures var u, m := EdgeSession(), Motion(0, 0, 8, 0);
            var s := u.(routing := LegacyRouting(EdgeCursor()));
            && Alongside(s, u, EdgeTopology(), "a", "b") && NoCorners(EdgeCursor(), [Shift(8, 0)])
                 && !OpenTogether(s, u, m)
            && s.AfterMotion(m).1 == [EnterPeer(1, 5), ControlChanged(RemoteControl)]
            && u.AfterMotion(m).1 == [InjectLocalMotion(8, 0)]
  {
    hide Alongside, RouterState.Route, CursorState.Route, WillCross, LegacyOpens, NoCorners, EdgeTopology, EdgeCursor;
    EdgeSessionsAreAlongside();
    EightPixelsCrossByDistance();
    EightPixelsDoNotCrossAtOnce();
    assert Ordered({}) == [];
  }
}
