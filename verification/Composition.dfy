/** What a host and its clients keep together over every interleaving of captured input, topology
    changes, connections and deliveries. */
module Composition {
  import opened MachineInts
  import opened Wrappers
  import opened ScreenModel
  import opened InputModel
  import opened EdgeBarriers
  import opened TopologyRouting
  import opened RouterGeometry
  import opened DesktopSessions
  import opened InputOwnership
  import opened OwnershipRuns
  import opened WireProtocol
  import opened HostClient

  // ---------- The effect lists of the host, device by device ----------

  lemma {:induction false} FoldConcat(d: DeviceId, held: set<HeldInput>, a: seq<SessionEffect>, b: seq<SessionEffect>)
    ensures DeviceFold(d, held, a + b) == DeviceFold(d, DeviceFold(d, held, a), b)
    decreases a
  {
    if a == [] {
      assert a + b == b;
    } else {
      assert (a + b)[1..] == a[1..] + b;
      FoldConcat(d, Owed(d, held, a[0]), a[1..], b);
    }
  }

  // An effect that says nothing to the devices, is sent in canonical form, or releases a known screen.
  predicate Benign(t: ScreenTopology, effect: SessionEffect) {
    && !effect.SendRemote? && !effect.SendRemoteMotion? && !effect.EnterPeer? && !effect.ReleasePeer?
    && (effect.SendScreen? ==> Canonical(effect.event))
    && (effect.ReleaseScreen? ==> Knows(t, effect.screenId))
  }

  predicate AllBenign(t: ScreenTopology, effects: seq<SessionEffect>) {
    forall i | 0 <= i < |effects| :: Benign(t, effects[i])
  }

  lemma {:induction false} LocalEventsFold(d: DeviceId, held: set<HeldInput>, t: ScreenTopology, hs: seq<HeldInput>,
                                           state: ButtonState)
    ensures DeviceFold(d, held, LocalEvents(hs, state)) == held && AllBenign(t, LocalEvents(hs, state))
  {
    if hs != [] {
      LocalEventsFold(d, held, t, hs[1..], state);
    }
  }

  lemma {:induction false} PressesFold(d: DeviceId, held: set<HeldInput>, t: ScreenTopology, id: ScreenId,
                                       hs: seq<HeldInput>)
    requires forall h | h in hs :: Canonical(h.Event(Pressed))
    ensures AllBenign(t, RemotePresses(Some(id), hs))
    ensures DeviceFold(d, held, RemotePresses(Some(id), hs)) == if OwnerOf(id) == d then held + Elements(hs) else held
    decreases hs
  {
    if hs != [] {
      PressesFold(d, Owed(d, held, SendScreen(id, hs[0].Event(Pressed))), t, id, hs[1..]);
      assert Elements(hs) == {hs[0]} + Elements(hs[1..]);
    }
  }

  lemma ComeHomeFold(d: DeviceId, held: set<HeldInput>, t: ScreenTopology, s: SessionState, id: ScreenId, x: I32,
                     y: I32)
    requires Knows(t, id)
    ensures var effects := s.ComeHome(ReleaseScreen(id), x, y).1;
            AllBenign(t, effects) && DeviceFold(d, held, effects) == if OwnerOf(id) == d then {} else held
  {
    var presses := LocalEvents(Ordered(s.physicalHeld), Pressed);
    var start, tail := [ReleaseScreen(id), SetLocalCursor(x, y)], [ControlChanged(LocalControl)];
    var cleared := if OwnerOf(id) == d then {} else held;
    FoldConcat(d, held, [ReleaseScreen(id)], [SetLocalCursor(x, y)]);
    FoldConcat(d, held, start, presses);
    FoldConcat(d, held, start + presses, tail);
    LocalEventsFold(d, cleared, t, Ordered(s.physicalHeld), Pressed);
    hide Ordered, LocalEvents, Knows;
    assert [ReleaseScreen(id)] + [SetLocalCursor(x, y)] == start;
    assert DeviceFold(d, held, start) == cleared;
    assert s.ComeHome(ReleaseScreen(id), x, y).1 == start + presses + tail;
  }

  lemma GoOutFold(d: DeviceId, held: set<HeldInput>, t: ScreenTopology, s: SessionState, previous: ScreenId,
                  id: ScreenId, x: I32, y: I32)
    requires CanonicalHeld(s.physicalHeld) && Knows(t, previous)
    ensures var effects := s.GoOut(Some(previous), Some(id), x, y).1;
            var cleared := if s.control.RemoteControl? && OwnerOf(previous) == d then {} else held;
            && AllBenign(t, effects)
            && DeviceFold(d, held, effects) == if OwnerOf(id) == d then cleared + s.physicalHeld else cleared
  {
    hide Ordered, LocalEvents, RemotePresses, Knows, Canonical;
    OrderedElements(s.physicalHeld);
    var releases := if s.control.RemoteControl? then [ReleaseScreen(previous)]
        else LocalEvents(Ordered(s.localInjected), Released);
    var presses := RemotePresses(Some(id), Ordered(s.physicalHeld));
    var enter, tail := [EnterScreen(id, x, y)], if s.control.RemoteControl? then []
        else [ControlChanged(RemoteControl)];
    var cleared := if s.control.RemoteControl? && OwnerOf(previous) == d then {} else held;
    LocalEventsFold(d, held, t, Ordered(s.localInjected), Released);
    FoldConcat(d, held, releases, enter);
    PressesFold(d, cleared, t, id, Ordered(s.physicalHeld));
    FoldConcat(d, held, releases + enter, presses);
    FoldConcat(d, held, releases + enter + presses, tail);
    assert Elements(Ordered(s.physicalHeld)) == s.physicalHeld;
    assert s.GoOut(Some(previous), Some(id), x, y).1 == releases + enter + presses + tail;
  }

  // ---------- One event of the host ----------

  lemma ActiveIsAttended(host: SessionState, t: ScreenTopology, devices: set<DeviceId>)
    requires HostSound(host, t, devices) && host.ActiveRemote().Some?
    ensures var id := host.ActiveRemote().value;
            Knows(t, id) && IsOnline(t, id) && OwnerOf(id) in devices
  {
  }

  // A list that is benign and reaches only for the active screen can be delivered.
  lemma BenignIsDeliverable(host: SessionState, t: ScreenTopology, devices: set<DeviceId>, effects: seq<SessionEffect>)
    requires HostSound(host, t, devices) && AllBenign(t, effects) && AllReachOnline(host, effects)
    ensures AllDeliverable(devices, t, effects)
  {
  }

  lemma SomeWorld(s: SessionState)
    requires Consistent(s)
    ensures exists w :: Mirrors(w, s)
  {
    var w := IDLE_WORLD.With(Holder(s), s.remoteInjected).With(Here, s.localInjected);
    assert Mirrors(w, s);
  }

  // What ownership and routing already guarantee about any event.
  lemma HostKeeps(host: SessionState, t: ScreenTopology, devices: set<DeviceId>, ev: HostEvent)
    requires HostSound(host, t, devices) && HostSide(ev)
    ensures var (host', effects) := Step(host, ev);
            Consistent(host') && Bounded(host') && RoutesOnline(host') && AllReachOnline(host', effects)
  {
    SomeWorld(host);
    var w :| Mirrors(w, host);
    StepFaithful(w, host, ev);
    StepReachesOnline(host, ev);
    hide Consistent, Bounded, RoutesOnline, AllReachOnline, Mirrors, AlwaysExclusive, Step;
  }

  lemma InputFold(host: SessionState, t: ScreenTopology, devices: set<DeviceId>, e: InputEvent, d: DeviceId)
    requires HostSound(host, t, devices) && Canonical(e)
    ensures var (host', effects) := host.AfterInput(e);
            && host'.ActiveRemote() == host.ActiveRemote() && AllBenign(t, effects)
                 && CanonicalHeld(host'.physicalHeld) && host'.routing == host.routing
            && DeviceFold(d, Due(host, d), effects) == Due(host', d)
  {
  }

  lemma StopFold(host: SessionState, t: ScreenTopology, devices: set<DeviceId>, d: DeviceId)
    requires HostSound(host, t, devices)
    ensures var (host', effects) := host.AfterRelease();
            && AllBenign(t, effects) && host'.physicalHeld == host.physicalHeld && host'.routing == host.routing
            && DeviceFold(d, Due(host, d), effects) == Due(host', d) == {}
  {
    if host.ActiveRemote().Some? {
      ActiveIsAttended(host, t, devices);
    }
    var releases := LocalEvents(Ordered(host.localInjected), Released);
    LocalEventsFold(d, Due(host, d), t, Ordered(host.localInjected), Released);
    var tail := if host.remoteInjected != {} then [ReleaseAt(host.ActiveRemote())] else [];
    FoldConcat(d, Due(host, d), releases, tail);
    hide OwnerOf, NamedByOwner, RoutesOnline, Ordered, LocalEvents, Knows;
    assert host.AfterRelease().1 == releases + tail;
  }

  // A session just routed somewhere else: what the transfer owes matches where the cursor now is.
  lemma HomewardFold(host: SessionState, t: ScreenTopology, router: RouterState, x: I32, y: I32, d: DeviceId)
    requires Consistent(host) && host.routing.ScreenRouting? && Knows(t, host.routing.router.active)
    requires router.active == host.routing.localScreen
    ensures var moved := host.(routing := ScreenRouting(router, host.routing.localScreen));
            var (host', effects) := moved.ComeHome(ReleaseScreen(host.routing.router.active), x, y);
            AllBenign(t, effects) && DeviceFold(d, Due(host, d), effects) == Due(host', d)
  {
    var moved := host.(routing := ScreenRouting(router, host.routing.localScreen));
    ComeHomeFold(d, Due(host, d), t, moved, host.routing.router.active, x, y);
    hide OwnerOf, Knows, Ordered, LocalEvents, AllBenign, DeviceFold;
  }

  lemma OutwardFold(host: SessionState, t: ScreenTopology, router: RouterState, x: I32, y: I32, d: DeviceId)
    requires Consistent(host) && host.routing.ScreenRouting? && Knows(t, host.routing.router.active)
    requires router.active != host.routing.localScreen && CanonicalHeld(host.physicalHeld)
    ensures var moved := host.(routing := ScreenRouting(router, host.routing.localScreen));
            var (host', effects) := moved.GoOut(Some(host.routing.router.active), Some(router.active), x, y);
            AllBenign(t, effects) && DeviceFold(d, Due(host, d), effects) == Due(host', d)
  {
    var moved := host.(routing := ScreenRouting(router, host.routing.localScreen));
    GoOutFold(d, Due(host, d), t, moved, host.routing.router.active, router.active, x, y);
    hide OwnerOf, Knows, Ordered, LocalEvents, RemotePresses, AllBenign, DeviceFold, CanonicalHeld;
  }

  lemma MotionFold(host: SessionState, t: ScreenTopology, m: Motion, d: DeviceId)
    requires Consistent(host) && CanonicalHeld(host.physicalHeld)
    requires host.routing.ScreenRouting? && host.routing.router.topology == t
    ensures var (host', effects) := host.AfterMotion(m);
            && AllBenign(t, effects) && host'.physicalHeld == host.physicalHeld
            && host'.routing.ScreenRouting? && host'.routing.router.topology == t
            && host'.routing.localScreen == host.routing.localScreen
            && DeviceFold(d, Due(host, d), effects) == Due(host', d)
  {
    var router := host.routing.router;
    RouteKeepsRoutable(router, m.dx, m.dy, Some(m.timestamp));
    var (route, router') := router.Route(m.dx, m.dy, Some(m.timestamp));
    assert Knows(t, router.active);
    hide OwnerOf, RouterState.Route, Knows, Routable, CanonicalHeld, Ordered, LocalEvents, RemotePresses;
    if route.Cross? {
      if route.screenId == host.routing.localScreen {
        HomewardFold(host, t, router', route.x, route.y, d);
      } else {
        OutwardFold(host, t, router', route.x, route.y, d);
      }
      hide DeviceFold, AllBenign, SessionState.GoOut, SessionState.ComeHome;
    }
  }

  lemma ReplaceFold(host: SessionState, t: ScreenTopology, d: DeviceId)
    requires Consistent(host) && host.ReplaceTopology(t).Success?
    ensures var (host', effects) := host.ReplaceTopology(t).value;
            && AllBenign(t, effects) && host'.physicalHeld == host.physicalHeld
            && host'.routing.ScreenRouting? && host'.routing.router.topology == t
            && host'.routing.localScreen == host.routing.localScreen
            && DeviceFold(d, Due(host, d), effects) == Due(host', d)
            && (host'.ActiveRemote().Some? ==> host'.ActiveRemote() == host.ActiveRemote())
  {
    hide OwnerOf, Knows, Routable, ValidTopology, CheckTopology, Ordered, LocalEvents;
    var router, localScreen := host.routing.router, host.routing.localScreen;
    ReplaceAcceptedExactly(host, t);
    if router.active != localScreen && !Routable(t, router.active) {
      var size := FindOnline(t.screens, localScreen).value.EffectiveSize();
      HomewardFold(host, t, host.ReplaceTopology(t).value.0.routing.router, size.width / 2, size.height / 2, d);
      hide AllBenign, DeviceFold;
    }
  }

  // ---------- Steps of the whole system ----------

  // The host's new claims, carried out on the peers, make them sound again.
  lemma ExecuteKeepsPeersSound(peers: Peers, host: SessionState, host': SessionState, t: ScreenTopology,
                               effects: seq<SessionEffect>)
    requires PeersSound(peers, host) && NamedByOwner(t) && AllDeliverable(peers.Keys, t, effects)
    requires forall d | d in peers :: DeviceFold(d, Due(host, d), effects) == Due(host', d)
    ensures var (peers', fault) := Executed(peers, t, effects);
            fault.None? && peers'.Keys == peers.Keys && PeersSound(peers', host')
  {
    hide Drained, Understood, NamedByOwner, AllDeliverable, Due, DeviceFold;
    ExecuteEmpty(peers, t, effects);
    var peers' := Executed(peers, t, effects).0;
    forall d | d in peers'
      ensures ClientSound(peers'[d]) && Drained(peers'[d].client.localInjected, peers'[d].queue) == Due(host', d)
    {
      ExecuteDelivers(peers, t, effects, d, peers[d].client.localInjected);
    }
  }

  lemma HandledFold(host: SessionState, t: ScreenTopology, devices: set<DeviceId>, ev: SessionEvent, d: DeviceId)
    requires HostSound(host, t, devices)
    requires ev.PhysicalInput? || ev.PhysicalMotion? || ev.StopRequested?
    requires ev.PhysicalInput? ==> Canonical(ev.event)
    ensures var (host', effects) := host.Handle(ev);
            && AllBenign(t, effects) && CanonicalHeld(host'.physicalHeld)
            && host'.routing.ScreenRouting? && host'.routing.router.topology == t
            && host'.routing.localScreen == host.routing.localScreen
            && DeviceFold(d, Due(host, d), effects) == Due(host', d)
  {
    match ev
    case PhysicalInput(e) => InputFold(host, t, devices, e, d);
    case PhysicalMotion(m) => MotionFold(host, t, m, d);
    case StopRequested => StopFold(host, t, devices, d);
  }

  lemma HandledKeepsSound(sys: System, ev: SessionEvent)
    requires Sound(sys)
    requires ev.PhysicalInput? || ev.PhysicalMotion? || ev.StopRequested?
    requires ev.PhysicalInput? ==> Canonical(ev.event)
    requires Attended(sys.host.Handle(ev).0, sys.peers.Keys)
    ensures Handled(sys, ev).Success? && Sound(Handled(sys, ev).value)
  {
    var t, devices := sys.topology, sys.peers.Keys;
    assert Step(sys.host, Handle(ev)) == sys.host.Handle(ev);
    hide SessionState.Handle, Step, Consistent, Bounded, RoutesOnline, CanonicalHeld, NamedByOwner, Attended,
      AllBenign, AllReachOnline, AllDeliverable, DeviceFold, Due, PeersSound, Canonical;
    var (host', effects) := sys.host.Handle(ev);
    HostKeeps(sys.host, t, devices, Handle(ev));
    HandledFold(sys.host, t, devices, ev, "");
    forall d ensures DeviceFold(d, Due(sys.host, d), effects) == Due(host', d) {
      HandledFold(sys.host, t, devices, ev, d);
    }
    BenignIsDeliverable(host', t, devices, effects);
    ExecuteKeepsPeersSound(sys.peers, sys.host, host', t, effects);
  }

  // The releases with which a session leaves a screen for another.
  function Departures(s: SessionState, previous: ScreenId): seq<SessionEffect> {
    if s.control.RemoteControl? then [ReleaseScreen(previous)] else LocalEvents(Ordered(s.localInjected), Released)
  }

  // Releasing whatever side held the inputs never fails, whoever is connected.
  lemma DeparturesDeliverable(devices: set<DeviceId>, t: ScreenTopology, s: SessionState, previous: ScreenId)
    requires Knows(t, previous)
    ensures AllDeliverable(devices, t, Departures(s, previous))
  {
    LocalEventsStayHere(Ordered(s.localInjected), Released);
    hide Ordered, LocalEvents, Knows, OwnerOf;
  }

  lemma DeparturesSucceed(peers: Peers, t: ScreenTopology, s: SessionState, previous: ScreenId)
    requires NamedByOwner(t) && Knows(t, previous)
    ensures var (peers', fault) := Executed(peers, t, Departures(s, previous));
            fault.None? && peers'.Keys == peers.Keys
  {
    hide Departures, AllDeliverable, Knows, NamedByOwner;
    DeparturesDeliverable(peers.Keys, t, s, previous);
    ExecuteEmpty(peers, t, Departures(s, previous));
  }

  // They leave nothing due to the device of the screen that is left.
  lemma DeparturesFold(d: DeviceId, held: set<HeldInput>, t: ScreenTopology, s: SessionState, previous: ScreenId)
    ensures DeviceFold(d, held, Departures(s, previous))
            == if s.control.RemoteControl? && OwnerOf(previous) == d then {} else held
  {
    LocalEventsFold(d, held, t, Ordered(s.localInjected), Released);
    hide Ordered, LocalEvents, OwnerOf;
  }

  lemma EnteringFails(peers: Peers, t: ScreenTopology, id: ScreenId, x: I32, y: I32, rest: seq<SessionEffect>)
    requires NamedByOwner(t) && Knows(t, id) && OwnerOf(id) !in peers
    ensures Executed(peers, t, [EnterScreen(id, x, y)] + rest) == (peers, Some(DeviceNotConnected(OwnerOf(id))))
  {
    OwnerIsDevice(t, id);
    hide NamedByOwner, OwnerOf;
    assert ([EnterScreen(id, x, y)] + rest)[0] == EnterScreen(id, x, y);
  }

  // Entering a screen of a device that is not connected fails, after the releases before it.
  lemma GoOutFails(peers: Peers, t: ScreenTopology, s: SessionState, previous: ScreenId, id: ScreenId, x: I32, y: I32)
    requires NamedByOwner(t) && Knows(t, previous) && Knows(t, id) && OwnerOf(id) !in peers
    ensures Executed(peers, t, s.GoOut(Some(previous), Some(id), x, y).1)
            == (Executed(peers, t, Departures(s, previous)).0, Some(DeviceNotConnected(OwnerOf(id))))
  {
    hide Ordered, LocalEvents, RemotePresses, NamedByOwner, OwnerOf, Knows, Executed;
    var releases, enter := Departures(s, previous), [EnterScreen(id, x, y)];
    var tail := RemotePresses(Some(id), Ordered(s.physicalHeld))
                + (if s.control.RemoteControl? then [] else [ControlChanged(RemoteControl)]);
    assert s.GoOut(Some(previous), Some(id), x, y).1 == releases + (enter + tail);
    DeparturesSucceed(peers, t, s, previous);
    EnteringFails(Executed(peers, t, releases).0, t, id, x, y, tail);
    ExecutedConcat(peers, t, releases, enter + tail);
  }

  // Every client is left holding nothing, once its stream is drained.
  predicate AllEmptied(peers: Peers) {
    forall d | d in peers :: Drained(peers[d].Machine().On(Here), peers[d].queue) == {}
  }

  lemma DeparturesEmpty(sys: System)
    requires Sound(sys)
    ensures AllEmptied(Executed(sys.peers, sys.topology, Departures(sys.host, sys.host.routing.router.active)).0)
  {
    hide Drained, Understood, Knows, OwnerOf, Departures, DeviceFold, NamedByOwner, AllDeliverable, RoutesOnline,
      CanonicalHeld;
    var previous := sys.host.routing.router.active;
    DeparturesDeliverable(sys.peers.Keys, sys.topology, sys.host, previous);
    ExecuteEmpty(sys.peers, sys.topology, Departures(sys.host, previous));
    var peers' := Executed(sys.peers, sys.topology, Departures(sys.host, previous)).0;
    forall d | d in peers' ensures Drained(peers'[d].Machine().On(Here), peers'[d].queue) == {} {
      var held := sys.peers[d].client.localInjected;
      ExecuteDelivers(sys.peers, sys.topology, Departures(sys.host, previous), d, held);
      DeparturesFold(d, Drained(held, sys.peers[d].queue), sys.topology, sys.host, previous);
    }
  }

  // The motion fails, naming the device, but only after the side it leaves has been released.
  lemma UnattendedMotionFails(sys: System, m: Motion)
    requires Sound(sys) && !Attended(sys.host.AfterMotion(m).0, sys.peers.Keys)
    ensures var (host', effects) := sys.host.AfterMotion(m);
            var fault := DeviceNotConnected(OwnerOf(host'.ActiveRemote().value));
            && Executed(sys.peers, sys.topology, effects).1 == Some(fault)
            && AllEmptied(Executed(sys.peers, sys.topology, effects).0)
            && Handled(sys, PhysicalMotion(m)) == Failure(HostFailed(fault))
  {
    var router, localScreen, t := sys.host.routing.router, sys.host.routing.localScreen, sys.topology;
    RouteKeepsRoutable(router, m.dx, m.dy, Some(m.timestamp));
    DeparturesEmpty(sys);
    var (route, router') := router.Route(m.dx, m.dy, Some(m.timestamp));
    var moved := sys.host.(routing := ScreenRouting(router', localScreen));
    assert route.Cross? ==> Knows(t, route.screenId);
    hide OwnerOf, RouterState.Route, Knows, Routable, CanonicalHeld, NamedByOwner, Ordered, LocalEvents,
      RemotePresses, PeersSound, AllEmptied, Executed;
    assert route.Cross? && route.screenId != localScreen;
    assert Departures(moved, router.active) == Departures(sys.host, router.active);
    GoOutFails(sys.peers, t, moved, router.active, route.screenId, route.x, route.y);
  }

  // Capturing input and stopping fail exactly when the cursor would come to be on the screen of a
  // device that is not connected.
  lemma HandledExact(sys: System, ev: SessionEvent)
    requires Sound(sys)
    requires ev.PhysicalInput? || ev.PhysicalMotion? || ev.StopRequested?
    requires ev.PhysicalInput? ==> Canonical(ev.event)
    ensures Handled(sys, ev).Success? <==> Attended(sys.host.Handle(ev).0, sys.peers.Keys)
    ensures Handled(sys, ev).Success? ==> Sound(Handled(sys, ev).value)
    ensures Handled(sys, ev).Failure? ==>
              var remote := sys.host.Handle(ev).0.ActiveRemote();
              && ev.PhysicalMotion? && remote.Some?
              && Handled(sys, ev).error == HostFailed(DeviceNotConnected(OwnerOf(remote.value)))
  {
    if Attended(sys.host.Handle(ev).0, sys.peers.Keys) {
      HandledKeepsSound(sys, ev);
    } else {
      InputAndStopStayAttended(sys.host, sys.topology, sys.peers.Keys, ev);
      UnattendedMotionFails(sys, ev.motion);
    }
    hide Sound, Handled, Canonical;
  }

  lemma InputAndStopStayAttended(host: SessionState, t: ScreenTopology, devices: set<DeviceId>, ev: SessionEvent)
    requires HostSound(host, t, devices) && (ev.PhysicalInput? || ev.StopRequested? || ev.PhysicalMotion?)
    ensures !ev.PhysicalMotion? ==> Attended(host.Handle(ev).0, devices)
  {
    hide OwnerOf, NamedByOwner, RoutesOnline, Ordered, LocalEvents, Consistent, Bounded, CanonicalHeld,
      SessionState.AfterMotion;
  }

  // The screens of a device that has left are offline.
  predicate AllOffline(t: ScreenTopology, device: DeviceId) {
    forall i | 0 <= i < |t.screens| :: t.screens[i].deviceId == device ==> !t.screens[i].online
  }

  // The active remote screen is online, so its device is none of those that have left.
  lemma StillAttended(host: SessionState, host': SessionState, t: ScreenTopology, before: set<DeviceId>,
                      after: set<DeviceId>)
    requires Attended(host, before) && NamedByOwner(t)
    requires host'.ActiveRemote().Some? ==>
               host'.ActiveRemote() == host.ActiveRemote() && IsOnline(t, host'.ActiveRemote().value)
    requires forall d | d in before && d !in after :: AllOffline(t, d)
    ensures Attended(host', after)
  {
    if host'.ActiveRemote().Some? {
      var id := host'.ActiveRemote().value;
      OwnerIsDevice(t, id);
      FindScreenExact(t.screens, id);
      hide OwnerOf, NamedByOwner;
      var i :| 0 <= i < |t.screens| && t.screens[i] == FindScreen(t.screens, id).value;
      assert OwnerOf(id) !in after ==> AllOffline(t, OwnerOf(id));
    }
  }

  lemma ReplacedKeepsSound(sys: System, peers: Peers, t: ScreenTopology)
    requires Sound(sys) && PeersSound(peers, sys.host) && NamedByOwner(t)
    requires forall d | d in sys.peers.Keys && d !in peers.Keys :: AllOffline(t, d)
    requires sys.host.ReplaceTopology(t).Success?
    ensures Replaced(sys, peers, t).Success?
    ensures var sys' := Replaced(sys, peers, t).value;
            && HostSound(sys'.host, t, peers.Keys) && PeersSound(sys'.peers, sys'.host)
            && sys'.topology == t && sys'.peers.Keys == peers.Keys && sys'.capturing == sys.capturing
            && (sys'.host.ActiveRemote().Some? ==> sys'.host.ActiveRemote() == sys.host.ActiveRemote())
  {
    var (host', effects) := sys.host.ReplaceTopology(t).value;
    HostKeeps(sys.host, sys.topology, sys.peers.Keys, Replace(t));
    forall d
      ensures DeviceFold(d, Due(sys.host, d), effects) == Due(host', d) && AllBenign(t, effects)
      ensures host'.physicalHeld == sys.host.physicalHeld
      ensures host'.routing.ScreenRouting? && host'.routing.router.topology == t
              && host'.routing.localScreen == sys.host.routing.localScreen
      ensures host'.ActiveRemote().Some? ==> host'.ActiveRemote() == sys.host.ActiveRemote()
    {
      ReplaceFold(sys.host, t, d);
    }
    ReplaceDeliverable(sys.host, t, peers.Keys);
    assert host'.ActiveRemote().Some? ==> IsOnline(t, host'.ActiveRemote().value);
    hide SessionState.ReplaceTopology, Consistent, Bounded, RoutesOnline, CanonicalHeld, NamedByOwner, Attended,
      AllBenign, AllReachOnline, AllDeliverable, AllOffline, DeviceFold, Due, PeersSound, SessionState.ActiveRemote;
    StillAttended(sys.host, host', t, sys.peers.Keys, peers.Keys);
    ExecuteKeepsPeersSound(peers, sys.host, host', t, effects);
  }

  // A topology change sends nothing; at most it releases the screen that was lost.
  lemma ReplaceDeliverable(host: SessionState, t: ScreenTopology, devices: set<DeviceId>)
    requires Consistent(host) && host.ReplaceTopology(t).Success?
    ensures AllDeliverable(devices, t, host.ReplaceTopology(t).value.1)
  {
    var (host', effects) := host.ReplaceTopology(t).value;
    ReplaceReachesOnline(host, t);
    ReplaceFold(host, t, "");
    hide Knows, Routable, Canonical, DeviceFold, RoutesOnline;
    forall i | 0 <= i < |effects| ensures Deliverable(devices, t, effects[i]) {
      assert Benign(t, effects[i]) && ReachesOnline(host', effects[i]);
    }
  }

  // ---------- Clients ----------

  // Whatever a client handles, its machine holds exactly what its session believes.
  lemma ReceiveKeepsMachine(c: Connection, ev: SessionEvent)
    requires c.client.role.Client? && c.client.routing.NoRouting? && c.Machine().On(Here) == c.client.localInjected
    requires !ev.PhysicalInput? && !ev.PhysicalMotion?
    ensures var c' := Receive(c, ev);
            && c'.client.role.Client? && c'.client.routing.NoRouting?
                 && c'.Machine().On(Here) == c'.client.localInjected
            && c'.queue == c.queue && c'.sequence == c.sequence
            && c'.client.localInjected == match ev
                                          case InputArrived(e) => Observe(c.client.localInjected, e)
                                          case MotionArrived(_) => c.client.localInjected
                                          case EnterArrived(_, _) => c.client.localInjected
                                          case _ => {}
  {
    var effects := c.client.Handle(ev).1;
    ReplayConcat(IDLE_WORLD, c.performed, effects);
    if ev.ReleaseRequested? || ev.PeerDisconnected? || ev.StopRequested? {
      OrderedElements(c.client.localInjected);
      LocalEventsReplay(c.Machine(), Ordered(c.client.localInjected), Released);
      hide Ordered, LocalEvents, Observe;
      assert Elements(Ordered(c.client.localInjected)) == c.client.localInjected;
      assert effects == LocalEvents(Ordered(c.client.localInjected), Released);
    } else if effects != [] {
      assert Replay(c.Machine(), effects) == c.Machine().Apply(effects[0]);
    }
  }

  // Taking the first message off the stream and handling it changes nothing in the end.
  lemma TakeKeepsSound(c: Connection)
    requires ClientSound(c) && c.queue != []
    ensures Acceptable(c.queue[0])
    ensures var c' := Take(c.(queue := c.queue[1..]), c.queue[0]);
            ClientSound(c') && Drained(c'.client.localInjected, c'.queue) == Drained(c.client.localInjected, c.queue)
  {
    if ClientEvent(c.queue[0]).Some? {
      ReceiveKeepsMachine(c.(queue := c.queue[1..]), ClientEvent(c.queue[0]).value);
    }
    hide Receive, Observe, DecodeInput;
    assert forall i | 0 <= i < |c.queue[1..]| :: c.queue[1..][i] == c.queue[i + 1];
  }

  lemma DeliverKeepsSound(sys: System, d: DeviceId)
    requires Sound(sys) && d in sys.peers && sys.peers[d].queue != []
    ensures Next(sys, Deliver(d)).Success? && Sound(Next(sys, Deliver(d)).value)
  {
    hide HostSound, Receive, Observe, DecodeInput, Due;
    var c := sys.peers[d];
    assert ClientSound(c);
    TakeKeepsSound(c);
    var c' := Take(c.(queue := c.queue[1..]), c.queue[0]);
    hide Drained, Acceptable, Take, ClientSound;
    assert sys.peers[d := c'].Keys == sys.peers.Keys;
  }

  lemma DatagramKeepsSound(sys: System, d: DeviceId, m: Motion)
    requires Sound(sys) && d in sys.peers
    ensures Next(sys, Datagram(d, m)).Success? && Sound(Next(sys, Datagram(d, m)).value)
  {
    ReceiveKeepsMachine(sys.peers[d], MotionArrived(m));
    var c' := Receive(sys.peers[d], MotionArrived(m));
    hide HostSound, Receive, Drained, Observe, DecodeInput, Due;
    assert sys.peers[d := c'].Keys == sys.peers.Keys;
  }

  // A message that presses and releases nothing may be added to any stream.
  lemma QuietMessage(c: Connection, c': Connection, m: ReliableEvent)
    requires ClientSound(c) && (m.Heartbeat? || m.ScreenInventory?)
    requires c'.queue == c.queue + [m] && c'.client == c.client && c'.performed == c.performed
    ensures ClientSound(c') && Drained(c'.client.localInjected, c'.queue) == Drained(c.client.localInjected, c.queue)
  {
    DrainedAppend(c.client.localInjected, c.queue, m);
    hide Drained;
  }

  lemma BeatKeepsSound(sys: System)
    requires Sound(sys)
    ensures Sound(sys.(peers := AllBeaten(sys.peers)))
  {
    hide HostSound, ClientSound, Drained, Due;
    forall d | d in sys.peers
      ensures var c := Beaten(sys.peers[d]);
              ClientSound(c) && Drained(c.client.localInjected, c.queue) == Due(sys.host, d)
    {
      QuietMessage(sys.peers[d], Beaten(sys.peers[d]), Heartbeat(NextSequence(sys.peers[d].heartbeat)));
    }
    assert AllBeaten(sys.peers).Keys == sys.peers.Keys;
  }

  lemma ReportKeepsSound(sys: System, screens: seq<WireScreen>)
    requires Sound(sys)
    ensures Sound(sys.(peers := AllInformed(sys.peers, screens)))
  {
    hide HostSound, ClientSound, Drained, Due;
    forall d | d in sys.peers
      ensures var c := Informed(sys.peers[d], screens);
              ClientSound(c) && Drained(c.client.localInjected, c.queue) == Due(sys.host, d)
    {
      QuietMessage(sys.peers[d], Informed(sys.peers[d], screens), ScreenInventory(screens));
    }
    assert AllInformed(sys.peers, screens).Keys == sys.peers.Keys;
  }

  // ---------- Every step and every run ----------

  // What is assumed of the surroundings: captured events are canonical, screens are named by their
  // devices and those of a device that leaves are offline.
  predicate Admissible(ev: SystemEvent) {
    match ev
    case Captured(event) => event.PhysicalInput? ==> Canonical(event.event)
    case Connect(_, t) => NamedByOwner(t)
    case Disconnect(d, t) => NamedByOwner(t) && AllOffline(t, d)
    case Update(t) => NamedByOwner(t)
    case _ => true
  }

  function TopologyOf(ev: SystemEvent): Option<ScreenTopology> {
    match ev
    case Connect(_, t) => Some(t)
    case Disconnect(_, t) => Some(t)
    case Update(t) => Some(t)
    case _ => None
  }

  lemma ConnectKeepsSound(sys: System, d: DeviceId, t: ScreenTopology)
    requires Sound(sys) && d !in sys.peers && NamedByOwner(t)
    requires sys.host.ReplaceTopology(t).Success?
    ensures Next(sys, Connect(d, t)).Success? && Sound(Next(sys, Connect(d, t)).value)
  {
    ReplacedKeepsSound(sys, sys.peers, t);
    var sys' := Replaced(sys, sys.peers, t).value;
    NothingDueElsewhere(sys'.host, t, sys.peers.Keys, d);
    MoreDevicesAttend(sys'.host, t, sys.peers.Keys, d);
    hide HostSound, PeersSound, Replaced, Due, SessionState.ReplaceTopology, SessionState.ActiveRemote, NamedByOwner;
    NewPeerIsSound(sys'.peers, sys'.host, d);
  }

  lemma MoreDevicesAttend(host: SessionState, t: ScreenTopology, devices: set<DeviceId>, d: DeviceId)
    requires HostSound(host, t, devices)
    ensures HostSound(host, t, devices + {d})
  {
  }

  lemma NewPeerIsSound(peers: Peers, host: SessionState, d: DeviceId)
    requires PeersSound(peers, host) && Due(host, d) == {}
    ensures PeersSound(peers[d := NEW_CONNECTION], host) && peers[d := NEW_CONNECTION].Keys == peers.Keys + {d}
  {
  }

  // Nothing is due to a device that is not connected.
  lemma NothingDueElsewhere(host: SessionState, t: ScreenTopology, devices: set<DeviceId>, d: DeviceId)
    requires HostSound(host, t, devices) && d !in devices
    ensures Due(host, d) == {}
  {
  }

  // The motion is about to carry the cursor onto another remote screen whose device is not connected.
  predicate Stranding(host: SessionState, m: Motion, devices: set<DeviceId>)
    requires host.Valid() && host.routing.ScreenRouting?
  {
    var r := host.routing.router;
    WillCross(r, m.dx, m.dy, Some(m.timestamp)) &&
    var target := LinkedEdge(r.topology, r.active, r.Pushed(m.dx, m.dy).value).value.screenId;
    target != host.routing.localScreen && OwnerOf(target) !in devices
  }

  lemma StrandingExact(host: SessionState, t: ScreenTopology, devices: set<DeviceId>, m: Motion)
    requires HostSound(host, t, devices)
    ensures Stranding(host, m, devices) <==> !Attended(host.AfterMotion(m).0, devices)
  {
    hide OwnerOf, NamedByOwner, RoutesOnline, Consistent, Bounded, CanonicalHeld, LinkedEdge, ScaleAxis, Landing,
      RouterState.Pushed, RouterState.Reached, Ordered, LocalEvents, RemotePresses;
  }

  // The two ways in which a step can end the host's run: a topology that cannot be followed, and a
  // crossing onto a screen whose device is not connected.
  predicate Fatal(sys: System, ev: SystemEvent)
    requires sys.host.Valid() && sys.host.routing.ScreenRouting?
  {
    || (TopologyOf(ev).Some? && !CanFollow(sys.host, TopologyOf(ev).value))
    || (ev.Captured? && ev.event.PhysicalMotion? && Stranding(sys.host, ev.event.motion, sys.peers.Keys))
  }

  lemma CapturedExact(sys: System, ev: SessionEvent)
    requires Sound(sys) && Enabled(sys, Captured(ev)) && Admissible(Captured(ev))
    ensures Handled(sys, ev).Failure? <==> Fatal(sys, Captured(ev))
    ensures Handled(sys, ev).Success? ==> Sound(Handled(sys, ev).value)
  {
    HandledExact(sys, ev);
    if ev.PhysicalMotion? {
      StrandingExact(sys.host, sys.topology, sys.peers.Keys, ev.motion);
    }
    hide Sound, Handled, Stranding, Attended, SessionState.AfterMotion, SessionState.AfterInput;
  }

  /** One step, whichever party takes it: from a sound system it fails exactly when a topology cannot
      be followed or the cursor crosses onto a screen whose device is not connected, and otherwise the
      system is sound again. */
  lemma StepKeepsSound(sys: System, ev: SystemEvent)
    requires Sound(sys) && Enabled(sys, ev) && Admissible(ev)
    ensures Next(sys, ev).Failure? <==> Fatal(sys, ev)
    ensures Next(sys, ev).Success? ==> Sound(Next(sys, ev).value)
  {
    if TopologyOf(ev).Some? {
      ReplaceAcceptedExactly(sys.host, TopologyOf(ev).value);
      if sys.host.ReplaceTopology(TopologyOf(ev).value).Failure? {
        return;
      }
    }
    hide CanFollow, Stranding;
    match ev
    case Captured(event) => CapturedExact(sys, event);
    case Stop =>
      if !sys.capturing { return; }
      InputAndStopStayAttended(sys.host, sys.topology, sys.peers.Keys, StopRequested);
      HandledExact(sys, StopRequested);
    case Update(t) => ReplacedKeepsSound(sys, sys.peers, t);
    case Disconnect(d, t) => ReplacedKeepsSound(sys, sys.peers - {d}, t);
    case Connect(d, t) => ConnectKeepsSound(sys, d, t);
    case Deliver(d) => DeliverKeepsSound(sys, d);
    case Datagram(d, m) => DatagramKeepsSound(sys, d, m);
    case Beat => BeatKeepsSound(sys);
    case Report(screens) => ReportKeepsSound(sys, screens);
  }

  // A run: the successive states of a host that starts without peers.
  ghost predicate IsRun(states: seq<System>, evs: seq<SystemEvent>) {
    && |states| == |evs| + 1
    && Initial(states[0].host) && states[0].host.routing.ScreenRouting?
    && states[0].topology == states[0].host.routing.router.topology
    && states[0].peers == map[] && !states[0].capturing && NamedByOwner(states[0].topology)
    && forall i | 0 <= i < |evs| ::
         && WellTyped(states[i]) && Enabled(states[i], evs[i]) && Admissible(evs[i])
         && Next(states[i], evs[i]) == Success(states[i + 1])
  }

  lemma {:induction false} RunsStaySound(states: seq<System>, evs: seq<SystemEvent>, n: nat)
    requires IsRun(states, evs) && n <= |evs|
    ensures Sound(states[n])
  {
    if n > 0 {
      RunsStaySound(states, evs, n - 1);
      StepKeepsSound(states[n - 1], evs[n - 1]);
    }
  }

  // Step `n` of a run.
  lemma RunStep(states: seq<System>, evs: seq<SystemEvent>, n: nat)
    requires IsRun(states, evs) && n < |evs|
    ensures |states| == |evs| + 1
    ensures Sound(states[n]) && WellTyped(states[n]) && Enabled(states[n], evs[n]) && Admissible(evs[n])
    ensures Next(states[n], evs[n]) == Success(states[n + 1])
  {
    hide Sound, Initial, NamedByOwner, Next, Enabled, Admissible, WellTyped;
    RunsStaySound(states, evs, n);
  }

  lemma StartsAtHome(states: seq<System>, evs: seq<SystemEvent>)
    requires IsRun(states, evs)
    ensures states[0].host.ActiveRemote().None?
  {
  }

  /** In every reachable state, whatever is still under way, each connected client's machine will hold
      exactly what the host has injected remotely if the cursor is on one of that device's screens,
      and nothing otherwise. */
  lemma ClientsHoldWhatIsDue(states: seq<System>, evs: seq<SystemEvent>, n: nat, d: DeviceId)
    requires IsRun(states, evs) && n <= |evs| && d in states[n].peers
    ensures var c := states[n].peers[d];
            && Drained(c.Machine().On(Here), c.queue) == Due(states[n].host, d)
            && (c.queue == [] ==> c.Machine().On(Here) == Due(states[n].host, d))
  {
    RunsStaySound(states, evs, n);
  }

  /** Once the host has stopped, a client whose stream is drained holds nothing. */
  lemma StoppedClientsHoldNothing(states: seq<System>, evs: seq<SystemEvent>, n: nat, d: DeviceId)
    requires IsRun(states, evs) && n < |evs| && evs[n].Stop? && d in states[n + 1].peers
    ensures Drained(states[n + 1].peers[d].Machine().On(Here), states[n + 1].peers[d].queue) == {}
  {
    hide Sound, Enabled, Admissible, Drained, Due, Initial, NamedByOwner, Next;
    RunsStaySound(states, evs, n);
    ClientsHoldWhatIsDue(states, evs, n + 1, d);
    StopLeavesNothingDue(states[n], states[n + 1], d);
  }

  lemma StopLeavesNothingDue(sys: System, next: System, d: DeviceId)
    requires Sound(sys) && WellTyped(sys) && Next(sys, Stop) == Success(next) && d in next.peers
    ensures Due(next.host, d) == {}
  {
    hide PeersSound, Executed, Due, SessionState.AfterRelease, NamedByOwner, RoutesOnline, CanonicalHeld, Consistent,
      Bounded, Attended;
    StopFold(sys.host, sys.topology, sys.peers.Keys, d);
    assert sys.peers == map[] ==> d !in sys.peers;
  }

  /** A client that loses its connection releases everything, however much was still under way. */
  lemma DisconnectedClientsHoldNothing(states: seq<System>, evs: seq<SystemEvent>, n: nat, d: DeviceId)
    requires IsRun(states, evs) && n <= |evs| && d in states[n].peers
    ensures states[n].peers[d].client.Valid()
    ensures Receive(states[n].peers[d], PeerDisconnected).Machine().On(Here) == {}
  {
    RunsStaySound(states, evs, n);
    ReceiveKeepsMachine(states[n].peers[d], PeerDisconnected);
  }

  // ---------- A second monitor ----------

  // Two linked monitors of the host itself, the cursor at the edge between them.
  function Monitor(id: ScreenId): ScreenNode {
    Example(id, "h", TEN, true)
  }

  function Monitors(): ScreenTopology {
    PairOf(Monitor("h/1"), Monitor("h/2"), Edge.Right)
  }

  function AtMonitorEdge(barrier: Barrier<Edge>, peers: Peers): System {
    System(NewTopologyHost(RouterState(Monitors(), "h/1", 9, 5, barrier)), Monitors(), peers, "r" in peers)
  }

  // Before anyone has joined, after a peer has, and after the first of two motions.
  const ONE_PEER: Peers := map["r" := NEW_CONNECTION]
  const WAIT: Barrier<Edge> := Barrier(Some(Edge.Right), 0, Some(0))

  function MonitorStates(): seq<System> {
    [AtMonitorEdge(Idle(), map[]), AtMonitorEdge(Idle(), ONE_PEER), AtMonitorEdge(WAIT, ONE_PEER)]
  }

  function MonitorEvents(): seq<SystemEvent> {
    [Connect("r", Monitors()), Captured(PhysicalMotion(ARRIVAL))]
  }

  lemma MonitorsAreNamed()
    ensures !Blank("h/1") && !Blank("h/2") && OwnerOf("h/1") == "h" && OwnerOf("h/2") == "h"
  {
    NotBlank("h/1");
    NotBlank("h/2");
    assert "h/1"[1..] == "/1" && "h/2"[1..] == "/2";
  }

  const ARRIVAL: Motion := Motion(0, 0, 1, 0)
  const CROSSING: Motion := Motion(1, 250_000, 1, 0)

  lemma MonitorsStart()
    ensures Initial(AtMonitorEdge(Idle(), map[]).host) && NamedByOwner(Monitors())
  {
    hide RouterState.Route, Opened, ValidTopology, OwnerOf, Blank;
    MonitorsAreNamed();
    TwoMotionsCross(Monitor("h/1"), Monitor("h/2"));
    OpenedIsInitial(Monitors(), "h/1", 9, 5);
  }

  lemma MonitorsJoined()
    ensures var start := AtMonitorEdge(Idle(), map[]);
            WellTyped(start) && Next(start, Connect("r", Monitors())) == Success(AtMonitorEdge(Idle(), ONE_PEER))
  {
    hide RouterState.Route, Blank, OwnerOf, ValidTopology, CheckTopology, LinkedEdge;
    MonitorsAreNamed();
    PairIsLinked(Monitor("h/1"), Monitor("h/2"), Edge.Right);
    CheckTopologyExact(Monitors());
    var start := AtMonitorEdge(Idle(), map[]);
    assert start.host.ReplaceTopology(Monitors()) == Success((start.host, []));
    assert map[]["r" := NEW_CONNECTION] == ONE_PEER && ONE_PEER != map[] by { assert "r" in ONE_PEER; }
  }

  lemma MonitorsWait()
    ensures var joined, waiting := AtMonitorEdge(Idle(), ONE_PEER), AtMonitorEdge(WAIT, ONE_PEER);
            joined.host.Valid() && joined.host.AfterMotion(ARRIVAL) == (waiting.host, [InjectLocalMotion(1, 0)])
  {
    hide PairOf, RouterState.Route, Blank, Opened, OwnerOf;
    MonitorsAreNamed();
    TwoMotionsCross(Monitor("h/1"), Monitor("h/2"));
  }

  lemma MonitorsCross()
    ensures var waiting := AtMonitorEdge(WAIT, ONE_PEER);
            waiting.host.Valid() && waiting.host.AfterMotion(CROSSING).0.ActiveRemote() == Some("h/2")
  {
    hide PairOf, RouterState.Route, Blank, Opened, OwnerOf, Ordered, LocalEvents, RemotePresses;
    MonitorsAreNamed();
    TwoMotionsCross(Monitor("h/1"), Monitor("h/2"));
  }

  lemma MonitorsArrive()
    ensures var joined := AtMonitorEdge(Idle(), ONE_PEER);
            WellTyped(joined) && Next(joined, Captured(PhysicalMotion(ARRIVAL)))
                == Success(AtMonitorEdge(WAIT, ONE_PEER))
  {
    hide Monitors, SessionState.AfterMotion, SessionState.Valid;
    MonitorsWait();
    MonitorsCross();
    ClientIsValid();
    assert "r" in ONE_PEER;
    assert Executed(ONE_PEER, Monitors(), [InjectLocalMotion(1, 0)]) == (ONE_PEER, None);
  }

  lemma ClientIsValid()
    ensures CLIENT.Valid()
  {
  }

  lemma RunStarts(sys: System)
    requires Initial(sys.host) && sys.host.routing.ScreenRouting? && sys.topology == sys.host.routing.router.topology
    requires sys.peers == map[] && !sys.capturing && NamedByOwner(sys.topology)
    ensures IsRun([sys], [])
  {
    hide Initial, NamedByOwner;
  }

  lemma RunGrows(states: seq<System>, evs: seq<SystemEvent>, ev: SystemEvent, next: System)
    requires IsRun(states, evs)
    requires WellTyped(states[|evs|]) && Enabled(states[|evs|], ev) && Admissible(ev)
    requires Next(states[|evs|], ev) == Success(next)
    ensures IsRun(states + [next], evs + [ev])
  {
    hide Initial, NamedByOwner, Enabled, Admissible, WellTyped, Next;
  }

  lemma MonitorsRun()
    ensures IsRun(MonitorStates(), MonitorEvents())
  {
    hide Monitors, Initial, NamedByOwner, Next, WellTyped, IsRun;
    var start, joined, waiting := AtMonitorEdge(Idle(), map[]), AtMonitorEdge(Idle(), ONE_PEER),
        AtMonitorEdge(WAIT, ONE_PEER);
    MonitorsStart();
    RunStarts(start);
    MonitorsJoined();
    MonitorsArrive();
    assert "r" in ONE_PEER && joined.capturing;
    RunGrows([start], [], Connect("r", Monitors()), joined);
    assert [] + [Connect("r", Monitors())] == [Connect("r", Monitors())];
    RunGrows([start] + [joined], [Connect("r", Monitors())], Captured(PhysicalMotion(ARRIVAL)), waiting);
    assert [start] + [joined] + [waiting] == MonitorStates();
    assert [Connect("r", Monitors())] + [Captured(PhysicalMotion(ARRIVAL))] == MonitorEvents();
  }

  /** An input on which a run fails although no topology is ever rejected: a peer joins, and the second of
      two motions crosses onto the host's own second monitor, for which it looks for a connection. */
  lemma SecondMonitorEndsRun()
    ensures var waiting := MonitorStates()[2];
            && IsRun(MonitorStates(), MonitorEvents())
            && WellTyped(waiting) && Enabled(waiting, Captured(PhysicalMotion(CROSSING)))
            && Next(waiting, Captured(PhysicalMotion(CROSSING))) == Failure(HostFailed(DeviceNotConnected("h")))
  {
    hide Monitors, IsRun, SessionState.AfterMotion, SessionState.Valid, Blank, OwnerOf, Sound, WellTyped, AllEmptied,
      Executed;
    MonitorsAreNamed();
    MonitorsRun();
    MonitorsCross();
    RunsStaySound(MonitorStates(), MonitorEvents(), 2);
    var waiting := AtMonitorEdge(WAIT, ONE_PEER);
    assert "r" in ONE_PEER && waiting.capturing && waiting.peers.Keys == {"r"} && "r"[0] != "h"[0];
    SoundIsWellTyped(waiting);
    UnattendedMotionFails(waiting, CROSSING);
  }

  lemma SoundIsWellTyped(sys: System)
    requires Sound(sys)
    ensures WellTyped(sys)
  {
  }
}
