/** The input-routing state machine: which inputs are held, where they have been injected, and which
    ordered effects each event produces. */
module DesktopSessions {
  import opened MachineInts
  import opened Wrappers
  import opened ScreenModel
  import opened InputModel
  import opened TopologyRouting
  import opened CursorRouting

  datatype ControlTarget = LocalControl | RemoteControl

  datatype SessionRole = Host | Client

  datatype SessionEvent =
    | PhysicalInput(event: InputEvent)
    | PhysicalMotion(motion: Motion)
    | InputArrived(event: InputEvent)
    | MotionArrived(motion: Motion)
    | EnterArrived(x: I32, y: I32)
    | ReleaseRequested
    | PeerDisconnected
    | StopRequested

  datatype SessionEffect =
    | InjectLocal(event: InputEvent)
    | InjectLocalMotion(dx: I32, dy: I32)
    | SendRemote(event: InputEvent)
    | SendRemoteMotion(motion: Motion)
    | EnterPeer(x: I32, y: I32)
    | SetLocalCursor(x: I32, y: I32)
    | ReleasePeer
    | SendScreen(screenId: ScreenId, event: InputEvent)
    | SendScreenMotion(screenId: ScreenId, motion: Motion)
    | EnterScreen(screenId: ScreenId, x: I32, y: I32)
    | ReleaseScreen(screenId: ScreenId)
    | ControlChanged(control: ControlTarget)

  datatype SessionFault = NotTopologyRouted | NoOnlineLocalScreen | RouterRejected(fault: RouterFault)

  // ---------- Effect lists ----------

  function LocalEvents(hs: seq<HeldInput>, state: ButtonState): seq<SessionEffect> {
    if hs == [] then [] else [InjectLocal(hs[0].Event(state))] + LocalEvents(hs[1..], state)
  }

  // A remote destination is a screen of the topology, or the only peer of a legacy session.
  function SendTo(dest: Option<ScreenId>, e: InputEvent): SessionEffect {
    if dest.Some? then SendScreen(dest.value, e) else SendRemote(e)
  }

  function EnterAt(dest: Option<ScreenId>, x: I32, y: I32): SessionEffect {
    if dest.Some? then EnterScreen(dest.value, x, y) else EnterPeer(x, y)
  }

  function ReleaseAt(dest: Option<ScreenId>): SessionEffect {
    if dest.Some? then ReleaseScreen(dest.value) else ReleasePeer
  }

  function RemotePresses(dest: Option<ScreenId>, hs: seq<HeldInput>): seq<SessionEffect> {
    if hs == [] then [] else [SendTo(dest, hs[0].Event(Pressed))] + RemotePresses(dest, hs[1..])
  }

  // ---------- The session as a value ----------

  datatype Routing =
    | NoRouting
    | LegacyRouting(cursor: CursorState)
    | ScreenRouting(router: RouterState, localScreen: ScreenId)

  function FindOnline(screens: seq<ScreenNode>, id: ScreenId): Option<ScreenNode> {
    if screens == [] then None
    else if screens[0].screenId == id && screens[0].online then Some(screens[0])
    else FindOnline(screens[1..], id)
  }

  predicate Routable(t: ScreenTopology, id: ScreenId) {
    IsOnline(t, id) && exists i | 0 <= i < |t.links| :: TouchesScreen(t.links[i], id)
  }

  datatype SessionState = SessionState(
    role: SessionRole,
    routing: Routing,
    control: ControlTarget,
    physicalHeld: set<HeldInput>,
    localInjected: set<HeldInput>,
    remoteInjected: set<HeldInput>,
    lastMotion: Option<U64>)
  {
    predicate Valid() {
      routing.ScreenRouting? ==> routing.router.Placed()
    }

    // The remote screen the cursor is on, in a topology session.
    function ActiveRemote(): Option<ScreenId> {
      if routing.ScreenRouting? && routing.router.active != routing.localScreen then Some(routing.router.active)
      else None
    }

    // Control returns to the local screen: release the remote side, then press what is held.
    function ComeHome(release: SessionEffect, x: I32, y: I32): (SessionState, seq<SessionEffect>) {
      (this.(control := LocalControl, remoteInjected := {}, localInjected := localInjected + physicalHeld),
       [release, SetLocalCursor(x, y)] + LocalEvents(Ordered(physicalHeld), Pressed) + [ControlChanged(LocalControl)])
    }

    // Control moves to a remote destination: release where it was, enter, then press what is held.
    function GoOut(previous: Option<ScreenId>, dest: Option<ScreenId>, x: I32, y: I32): (SessionState,
                   seq<SessionEffect>) {
      var wasRemote := previous.Some? && control == RemoteControl;
      (this.(control := RemoteControl,
             localInjected := if wasRemote then localInjected else {},
             remoteInjected := (if wasRemote then {} else remoteInjected) + physicalHeld),
       (if wasRemote then [ReleaseScreen(previous.value)] else LocalEvents(Ordered(localInjected), Released))
       + [EnterAt(dest, x, y)] + RemotePresses(dest, Ordered(physicalHeld))
       + (if wasRemote then [] else [ControlChanged(RemoteControl)]))
    }

    function AfterInput(e: InputEvent): (SessionState, seq<SessionEffect>) {
      if e.KeyEvent? && e.state.Repeated? && HeldKey(e.key) !in physicalHeld then (this, [])
      else
        var s := this.(physicalHeld := Observe(physicalHeld, e));
        if control.LocalControl? then (s.(localInjected := Observe(localInjected, e)), [InjectLocal(e)])
        else (s.(remoteInjected := Observe(remoteInjected, e)), [SendTo(ActiveRemote(), e)])
    }

    function AfterMotion(m: Motion): (SessionState, seq<SessionEffect>)
      requires Valid()
    {
      match routing
      case NoRouting => (this, [])
      case LegacyRouting(cursor) =>
        var (route, cursor') := cursor.Route(m.dx, m.dy);
        var s := this.(routing := LegacyRouting(cursor'));
        (match route
         case LocalMotion(dx, dy) => (s, [InjectLocalMotion(dx, dy)])
         case RemoteMotion(dx, dy) => (s, [SendRemoteMotion(m.(dx := dx, dy := dy))])
         case EnterRemote(x, y) => s.GoOut(None, None, x, y)
         case EnterLocal(x, y) => s.ComeHome(ReleasePeer, x, y))
      case ScreenRouting(router, localScreen) =>
        var (route, router') := router.Route(m.dx, m.dy, Some(m.timestamp));
        var s := this.(routing := ScreenRouting(router', localScreen));
        match route
        case Stay(id, dx, dy) =>
          (s, [if id == localScreen then InjectLocalMotion(dx, dy) else SendScreenMotion(id, m.(dx := dx, dy := dy))])
        case Cross(id, x, y) =>
          if id == localScreen then s.ComeHome(ReleaseScreen(router.active), x, y)
          else s.GoOut(Some(router.active), Some(id), x, y)
    }

    function AfterRelease(): (SessionState, seq<SessionEffect>) {
      var remote := role.Host? && remoteInjected != {};
      (this.(localInjected := {}, remoteInjected := if remote then {} else remoteInjected),
       LocalEvents(Ordered(localInjected), Released) + if remote then [ReleaseAt(ActiveRemote())] else [])
    }

    function Handle(ev: SessionEvent): (SessionState, seq<SessionEffect>)
      requires Valid()
    {
      match ev
      case PhysicalInput(e) => AfterInput(e)
      case PhysicalMotion(m) => AfterMotion(m)
      case InputArrived(e) => (this.(localInjected := Observe(localInjected, e)), [InjectLocal(e)])
      case MotionArrived(m) =>
        if lastMotion.Some? && m.sequence <= lastMotion.value then (this, [])
        else (this.(lastMotion := Some(m.sequence)), [InjectLocalMotion(m.dx, m.dy)])
      case EnterArrived(x, y) => (this, [SetLocalCursor(x, y)])
      case ReleaseRequested => AfterRelease()
      case PeerDisconnected => AfterRelease()
      case StopRequested => AfterRelease()
    }

    // A position outside the topology is ignored, but control is local either way.
    function AtLocalPosition(x: I32, y: I32): SessionState {
      match routing
      case NoRouting => this
      case LegacyRouting(cursor) => this.(routing := LegacyRouting(cursor.Positioned(x, y)), control := LocalControl)
      case ScreenRouting(router, localScreen) =>
        var moved := router.Positioned(localScreen, x, y);
        this.(routing := ScreenRouting(if moved.Success? then moved.value else router, localScreen),
            control := LocalControl)
    }

    function ReplaceTopology(t: ScreenTopology): Result<(SessionState, seq<SessionEffect>), SessionFault> {
      if !routing.ScreenRouting? then Failure(NotTopologyRouted)
      else
        var router, localScreen := routing.router, routing.localScreen;
        if router.active == localScreen || Routable(t, router.active) then
          var next := router.Replaced(t);
          if next.Failure? then Failure(RouterRejected(next.error))
          else Success((this.(routing := ScreenRouting(next.value, localScreen)), []))
        else if FindOnline(t.screens, localScreen).None? then Failure(NoOnlineLocalScreen)
        else
          var size := FindOnline(t.screens, localScreen).value.EffectiveSize();
          var replaced := router.Replaced(t);
          if replaced.Failure? then Failure(RouterRejected(replaced.error))
          else
            var moved := replaced.value.Positioned(localScreen, size.width / 2, size.height / 2);
            if moved.Failure? then Failure(RouterRejected(moved.error))
            else
              var s := this.(routing := ScreenRouting(moved.value, localScreen));
              Success(s.ComeHome(ReleaseScreen(router.active), size.width / 2, size.height / 2))
    }
  }

  function NewLegacyHost(local: ScreenSize, remote: ScreenSize, d: ScreenDirection): SessionState {
    SessionState(Host, LegacyRouting(Centered(local, remote, d)), LocalControl, {}, {}, {}, None)
  }

  function NewTopologyHost(router: RouterState): SessionState {
    SessionState(Host, ScreenRouting(router, router.active), LocalControl, {}, {}, {}, None)
  }

  const CLIENT: SessionState := SessionState(Client, NoRouting, RemoteControl, {}, {}, {}, None)

  // ---------- The session as an object ----------

  datatype HostRouter =
    | NoRouter
    | Legacy(cursor: CursorRouter)
    | Topology(router: TopologyRouter, localScreen: ScreenId)

  class DesktopSession {
    const role: SessionRole
    var router: HostRouter
    var control: ControlTarget
    var physicalHeld: set<HeldInput>
    var localInjected: set<HeldInput>
    var remoteInjected: set<HeldInput>
    var lastMotion: Option<U64>

    function Routers(): set<object>
      reads this`router
    {
      match router
      case NoRouter => {}
      case Legacy(cursor) => {cursor, cursor.barrier}
      case Topology(t, _) => {t, t.barrier}
    }

    function Routing(): Routing
      reads this`router, Routers()
    {
      match router
      case NoRouter => NoRouting
      case Legacy(cursor) => LegacyRouting(cursor.State())
      case Topology(t, localScreen) => ScreenRouting(t.State(), localScreen)
    }

    function State(): SessionState
      reads this, Routers()
    {
      SessionState(role, Routing(), control, physicalHeld, localInjected, remoteInjected, lastMotion)
    }

    ghost predicate Valid()
      reads this, Routers()
    {
      State().Valid()
    }

    constructor LegacyHost(local: ScreenSize, remote: ScreenSize, d: ScreenDirection)
      ensures Valid() && State() == NewLegacyHost(local, remote, d)
      ensures fresh(Routers())
    {
      role := Host;
      var cursor := new CursorRouter(local, remote, d);
      router := Legacy(cursor);
      control := LocalControl;
      physicalHeld, localInjected, remoteInjected, lastMotion := {}, {}, {}, None;
    }

    constructor TopologyHost(t: TopologyRouter)
      requires t.Valid()
      ensures Valid() && State() == NewTopologyHost(t.State())
      ensures router == Topology(t, t.active)
    {
      role := Host;
      router := Topology(t, t.active);
      control := LocalControl;
      physicalHeld, localInjected, remoteInjected, lastMotion := {}, {}, {}, None;
    }

    constructor Client()
      ensures Valid() && State() == CLIENT && Routers() == {}
    {
      role := SessionRole.Client;
      router := NoRouter;
      control := RemoteControl;
      physicalHeld, localInjected, remoteInjected, lastMotion := {}, {}, {}, None;
    }

    // `DesktopSession::host_topology`, with the router's own checks.
    static method OpenHost(t: ScreenTopology, localScreen: ScreenId, x: I32, y: I32)
      returns (r: Result<DesktopSession, RouterFault>)
      ensures match Opened(t, localScreen, x, y)
              case Failure(fault) => r == Failure(fault)
              case Success(router) =>
                && r.Success? && fresh(r.value) && fresh(r.value.Routers())
                && r.value.Valid() && r.value.State() == NewTopologyHost(router)
    {
      var attempt := TopologyRouter.Open(t, localScreen, x, y);
      if attempt.Failure? {
        return Failure(attempt.error);
      }
      var session := new DesktopSession.TopologyHost(attempt.value);
      return Success(session);
    }

    method SetLocalPosition(x: I32, y: I32)
      requires Valid()
      modifies this`control, Routers()
      ensures Valid() && Routers() == old(Routers())
      ensures State() == old(State()).AtLocalPosition(x, y)
    {
      match router {
        case NoRouter =>
        case Legacy(cursor) =>
          cursor.SetLocalPosition(x, y);
          control := LocalControl;
        case Topology(t, localScreen) =>
          var _ := t.SetPosition(localScreen, x, y);
          control := LocalControl;
      }
    }

    // The inject-and-record loop over everything that is physically held.
    method PressLocally() returns (effects: seq<SessionEffect>)
      modifies this`localInjected
      ensures localInjected == old(localInjected) + physicalHeld
      ensures effects == LocalEvents(Ordered(physicalHeld), Pressed)
    {
      effects := [];
      OrderedElements(physicalHeld);
      var hs := Ordered(physicalHeld);
      for i := 0 to |hs|
        invariant effects + LocalEvents(hs[i..], Pressed) == LocalEvents(hs, Pressed)
        invariant localInjected == old(localInjected) + Elements(hs[..i])
      {
        assert hs[i..][0] == hs[i] && hs[i..][1..] == hs[i + 1..];
        assert hs[..i + 1] == hs[..i] + [hs[i]];
        localInjected := localInjected + {hs[i]};
        effects := effects + [InjectLocal(hs[i].Event(Pressed))];
      }
      assert hs[..|hs|] == hs;
    }

    method PressRemotely(dest: Option<ScreenId>) returns (effects: seq<SessionEffect>)
      modifies this`remoteInjected
      ensures remoteInjected == old(remoteInjected) + physicalHeld
      ensures effects == RemotePresses(dest, Ordered(physicalHeld))
    {
      effects := [];
      OrderedElements(physicalHeld);
      var hs := Ordered(physicalHeld);
      for i := 0 to |hs|
        invariant effects + RemotePresses(dest, hs[i..]) == RemotePresses(dest, hs)
        invariant remoteInjected == old(remoteInjected) + Elements(hs[..i])
      {
        assert hs[i..][0] == hs[i] && hs[i..][1..] == hs[i + 1..];
        assert hs[..i + 1] == hs[..i] + [hs[i]];
        remoteInjected := remoteInjected + {hs[i]};
        effects := effects + [SendTo(dest, hs[i].Event(Pressed))];
      }
      assert hs[..|hs|] == hs;
    }

    // Takes the locally injected inputs and releases them one by one.
    method ReleaseLocally() returns (effects: seq<SessionEffect>)
      modifies this`localInjected
      ensures localInjected == {}
      ensures effects == LocalEvents(Ordered(old(localInjected)), Released)
    {
      effects := [];
      var hs := Ordered(localInjected);
      localInjected := {};
      for i := 0 to |hs|
        invariant localInjected == {}
        invariant effects + LocalEvents(hs[i..], Released) == LocalEvents(hs, Released)
      {
        assert hs[i..][0] == hs[i] && hs[i..][1..] == hs[i + 1..];
        effects := effects + [InjectLocal(hs[i].Event(Released))];
      }
    }

    // `enter_local_from_screen`, and the same steps taken by a legacy return and a lost screen.
    method EnterLocally(release: SessionEffect, x: I32, y: I32) returns (effects: seq<SessionEffect>)
      modifies this`control, this`localInjected, this`remoteInjected
      ensures (State(), effects) == old(State()).ComeHome(release, x, y)
    {
      control := LocalControl;
      remoteInjected := {};
      var presses := PressLocally();
      effects := [release, SetLocalCursor(x, y)] + presses + [ControlChanged(LocalControl)];
    }

    // `enter_screen`.
    method EnterScreenFrom(previous: ScreenId, id: ScreenId, x: I32, y: I32) returns (effects: seq<SessionEffect>)
      modifies this`control, this`localInjected, this`remoteInjected
      ensures (State(), effects) == old(State()).GoOut(Some(previous), Some(id), x, y)
    {
      hide LocalEvents, RemotePresses, Ordered;
      var wasRemote := control == RemoteControl;
      control := RemoteControl;
      var releases;
      if wasRemote {
        remoteInjected := {};
        releases := [ReleaseScreen(previous)];
      } else {
        releases := ReleaseLocally();
      }
      var presses := PressRemotely(Some(id));
      effects := releases + [EnterScreen(id, x, y)] + presses
          + (if wasRemote then [] else [ControlChanged(RemoteControl)]);
    }

    method HandlePhysicalInput(e: InputEvent) returns (effects: seq<SessionEffect>)
      modifies this`physicalHeld, this`localInjected, this`remoteInjected
      ensures (State(), effects) == old(State()).AfterInput(e)
    {
      if e.KeyEvent? && e.state.Repeated? && HeldKey(e.key) !in physicalHeld {
        return [];
      }
      physicalHeld := Observe(physicalHeld, e);
      if control.LocalControl? {
        localInjected := Observe(localInjected, e);
        return [InjectLocal(e)];
      }
      remoteInjected := Observe(remoteInjected, e);
      if State().ActiveRemote().Some? {
        return [SendScreen(State().ActiveRemote().value, e)];
      }
      return [SendRemote(e)];
    }

    method HandlePhysicalMotion(m: Motion) returns (effects: seq<SessionEffect>)
      requires Valid()
      modifies this, Routers()
      ensures Routers() == old(Routers())
      ensures Valid() && (State(), effects) == old(State()).AfterMotion(m)
    {
      match router {
        case NoRouter =>
          return [];
        case Topology(t, localScreen) =>
          effects := RouteOverTopology(t, localScreen, m);
        case Legacy(cursor) =>
          var route := cursor.RouteMotion(m.dx, m.dy);
          match route {
            case LocalMotion(dx, dy) =>
              return [InjectLocalMotion(dx, dy)];
            case RemoteMotion(dx, dy) =>
              return [SendRemoteMotion(m.(dx := dx, dy := dy))];
            case EnterRemote(x, y) =>
              control := RemoteControl;
              var releases := ReleaseLocally();
              var presses := PressRemotely(None);
              effects := releases + [EnterPeer(x, y)] + presses + [ControlChanged(RemoteControl)];
            case EnterLocal(x, y) =>
              effects := EnterLocally(ReleasePeer, x, y);
          }
      }
    }

    // The topology branch of `handle_physical_motion`.
    method RouteOverTopology(t: TopologyRouter, localScreen: ScreenId, m: Motion) returns (effects: seq<SessionEffect>)
      requires Valid() && router == Topology(t, localScreen)
      modifies this, Routers()
      ensures router == old(router)
      ensures Valid() && (State(), effects) == old(State()).AfterMotion(m)
    {
      var previous := t.active;
      var route := t.RouteMotion(m.dx, m.dy, Some(m.timestamp));
      match route {
        case Stay(id, dx, dy) =>
          effects := [if id == localScreen then InjectLocalMotion(dx, dy)
              else SendScreenMotion(id, m.(dx := dx, dy := dy))];
        case Cross(id, x, y) =>
          if id == localScreen {
            effects := EnterLocally(ReleaseScreen(previous), x, y);
          } else {
            effects := EnterScreenFrom(previous, id, x, y);
          }
      }
    }

    method ReleaseInjected() returns (effects: seq<SessionEffect>)
      modifies this`localInjected, this`remoteInjected
      ensures (State(), effects) == old(State()).AfterRelease()
    {
      effects := ReleaseLocally();
      var release := [];
      if role.Host? && remoteInjected != {} {
        remoteInjected := {};
        release := [if State().ActiveRemote().Some? then ReleaseScreen(State().ActiveRemote().value) else ReleasePeer];
      }
      effects := effects + release;
    }

    method Handle(ev: SessionEvent) returns (effects: seq<SessionEffect>)
      requires Valid()
      modifies this, Routers()
      ensures Routers() == old(Routers())
      ensures Valid() && (State(), effects) == old(State()).Handle(ev)
    {
      match ev {
        case PhysicalInput(e) =>
          effects := HandlePhysicalInput(e);
        case PhysicalMotion(m) =>
          effects := HandlePhysicalMotion(m);
        case InputArrived(e) =>
          localInjected := Observe(localInjected, e);
          effects := [InjectLocal(e)];
        case MotionArrived(m) =>
          if lastMotion.Some? && m.sequence <= lastMotion.value {
            effects := [];
          } else {
            lastMotion := Some(m.sequence);
            effects := [InjectLocalMotion(m.dx, m.dy)];
          }
        case EnterArrived(x, y) =>
          effects := [SetLocalCursor(x, y)];
        case ReleaseRequested =>
          effects := ReleaseInjected();
        case PeerDisconnected =>
          effects := ReleaseInjected();
        case StopRequested =>
          effects := ReleaseInjected();
      }
    }

    // A rejected topology leaves the whole session as it was.
    method ReplaceTopology(t: ScreenTopology) returns (r: Result<seq<SessionEffect>, SessionFault>)
      requires Valid()
      modifies this, Routers()
      ensures Valid() && Routers() == old(Routers())
      ensures match old(State()).ReplaceTopology(t)
              case Success(next) => r == Success(next.1) && State() == next.0
              case Failure(fault) => r == Failure(fault) && State() == old(State())
    {
      if !router.Topology? {
        return Failure(NotTopologyRouted);
      }
      var active, localScreen := router.router.active, router.localScreen;
      if active == localScreen || Routable(t, active) {
        var replaced := router.router.ReplaceTopology(t);
        if replaced.Failure? {
          return Failure(RouterRejected(replaced.error));
        }
        return Success([]);
      }
      var local := FindOnline(t.screens, localScreen);
      if local.None? {
        return Failure(NoOnlineLocalScreen);
      }
      var x, y := local.value.EffectiveSize().width / 2, local.value.EffectiveSize().height / 2;
      var replaced := router.router.ReplaceTopology(t);
      if replaced.Failure? {
        return Failure(RouterRejected(replaced.error));
      }
      FoundOnlineIsKnown(t, localScreen);
      var moved := router.router.SetPosition(localScreen, x, y);
      var effects := EnterLocally(ReleaseScreen(active), x, y);
      return Success(effects);
    }
  }

  lemma FoundOnlineIsKnown(t: ScreenTopology, id: ScreenId)
    requires FindOnline(t.screens, id).Some?
    ensures Knows(t, id)
  {
    FoundOnlineInScreens(t.screens, id);
  }

  lemma {:induction false} FoundOnlineInScreens(screens: seq<ScreenNode>, id: ScreenId)
    ensures FindOnline(screens, id).Some? ==> FindScreen(screens, id).Some?
  {
    if screens != [] {
      FoundOnlineInScreens(screens[1..], id);
    }
  }
}
